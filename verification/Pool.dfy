/** internal/pool: a backend's identity, health and breaker, as far as routing uses them. */
module Pool {
  import opened CircuitModel
  import Circuit

  datatype Health = Unknown | Healthy | Unhealthy

  class Backend {
    const id: string
    const weight: int
    const breakerEnabled: bool
    const breaker: Circuit.Breaker
    var state: Health

    constructor (id: string, weight: int, breakerEnabled: bool, breaker: Circuit.Breaker)
      ensures this.id == id && this.weight == weight && this.breakerEnabled == breakerEnabled
      ensures this.breaker == breaker && state == Unknown
    {
      this.id, this.weight, this.breakerEnabled, this.breaker := id, weight, breakerEnabled, breaker;
      state := Unknown;
    }

    /** Stores the state and reports whether it was a real transition. */
    method SetState(s: Health) returns (changed: bool)
      modifies this`state
      ensures state == s && (changed <==> old(state) != s)
    {
      changed := state != s;
      state := s;
    }

    /** Whether an attempt would be admitted now. It reserves nothing: the breaker is at most polled. */
    method Available(now: int) returns (ok: bool)
      requires breaker.Valid()
      modifies breaker, breaker.buckets
      ensures breaker.Valid()
      ensures ok <==> state == Healthy && (!breakerEnabled || Admit(breaker.cfg, old(breaker.View()), now, false).ok)
      ensures breaker.View() == if state == Healthy && breakerEnabled
                                then Poll(breaker.cfg, old(breaker.View()), now, false).m else old(breaker.View())
    {
      if state != Healthy { return false; }
      if !breakerEnabled { return true; }
      var ready, trs := breaker.Ready(now);
      ok := ready;
    }

    /** Claims capacity for an attempt. The token is usable either way; it is a probe only if it was admitted. */
    method Reserve(now: int) returns (tok: Token, ok: bool)
      requires breaker.Valid()
      modifies breaker, breaker.buckets
      ensures breaker.Valid()
      ensures if state == Healthy && breakerEnabled
              then var a := Admit(breaker.cfg, old(breaker.View()), now, false);
                   tok == a.tok && ok == a.ok && breaker.View() == a.m
              else tok == UNATTRIBUTED && (ok <==> state == Healthy) && breaker.View() == old(breaker.View())
    {
      if state != Healthy { return UNATTRIBUTED, false; }
      if !breakerEnabled { return UNATTRIBUTED, true; }
      var p, allowed, trs := breaker.Admit(now);
      return p, allowed;
    }
  }
}
