/** internal/health: rise/fall hysteresis over the probe history of one backend. */
module HealthCheck {
  import opened Arithmetic
  import opened Pool

  /** The clamped counters, the published state, and how often it moved up, down and was announced. */
  datatype Track = Track(success: int, failure: int, state: Health, ups: nat, downs: nat, notified: nat)

  const START := Track(0, 0, Unknown, 0, 0, 0)

  /** Publishing a target state: only a real change counts and is announced. */
  function Publish(t: Track, target: Health): Track {
    if t.state == target then t
    else t.(state := target, notified := t.notified + 1,
            ups := if target == Healthy then t.ups + 1 else t.ups,
            downs := if target == Unhealthy then t.downs + 1 else t.downs)
  }

  function Record(rise: int, fall: int, t: Track, ok: bool): Track {
    if ok then
      var u := t.(failure := 0, success := if t.success < rise then t.success + 1 else t.success);
      if u.success < rise then u else Publish(u, Healthy)
    else
      var u := t.(success := 0, failure := if t.failure < fall then t.failure + 1 else t.failure);
      if u.failure < fall then u else Publish(u, Unhealthy)
  }

  function Replay(rise: int, fall: int, probes: seq<bool>): Track {
    if probes == [] then START
    else Record(rise, fall, Replay(rise, fall, probes[..|probes| - 1]), probes[|probes| - 1])
  }

  // ----- the history, without counters

  /** The length of the run of `v` the history ends with. */
  function Trailing(probes: seq<bool>, v: bool): (n: nat)
    ensures n <= |probes|
  {
    if probes == [] || probes[|probes| - 1] != v then 0 else Trailing(probes[..|probes| - 1], v) + 1
  }

  /** The state is the verdict of the latest moment at which the last rise probes were all successes or the
      last fall probes all failures; before any such moment nothing is known. */
  function Verdict(rise: int, fall: int, probes: seq<bool>): Health {
    if probes == [] then Unknown
    else if Trailing(probes, true) >= rise && probes[|probes| - 1] then Healthy
    else if Trailing(probes, false) >= fall && !probes[|probes| - 1] then Unhealthy
    else Verdict(rise, fall, probes[..|probes| - 1])
  }

  /** How often the verdict changed along the history. */
  function Changes(rise: int, fall: int, probes: seq<bool>): nat {
    if probes == [] then 0
    else
      var rest := probes[..|probes| - 1];
      Changes(rise, fall, rest) + if Verdict(rise, fall, probes) != Verdict(rise, fall, rest) then 1 else 0
  }

  /** For every probe history the counters are the trailing runs clamped at the thresholds, the state is the
      verdict of the history, and the announcements are exactly its changes. */
  lemma {:induction false} CountersTellTheHistory(rise: int, fall: int, probes: seq<bool>)
    requires rise >= 1 && fall >= 1
    ensures var t := Replay(rise, fall, probes);
            && t.success == Min(rise, Trailing(probes, true))
            && t.failure == Min(fall, Trailing(probes, false))
            && t.state == Verdict(rise, fall, probes)
            && t.notified == Changes(rise, fall, probes)
            && t.ups + t.downs == t.notified
  {
    if probes != [] {
      CountersTellTheHistory(rise, fall, probes[..|probes| - 1]);
    }
  }

  /** The probes already spent towards the next flip. */
  function Credit(t: Track): int {
    match t.state
    case Healthy => t.failure
    case Unhealthy => t.success
    case Unknown => t.success + t.failure
  }

  /** Flapping is damped: h upward and u downward flips take at least h*rise + u*fall probes. */
  lemma {:induction false} FlipsCostProbes(rise: int, fall: int, probes: seq<bool>)
    requires rise >= 1 && fall >= 1
    ensures var t := Replay(rise, fall, probes);
            && t.ups * rise + t.downs * fall + Credit(t) <= |probes|
            && 0 <= Credit(t)
            && (t.state != Healthy ==> 0 <= t.success < rise) && (t.state != Unhealthy ==> 0 <= t.failure < fall)
            && 0 <= t.success && 0 <= t.failure
  {
    if probes != [] {
      var rest := probes[..|probes| - 1];
      FlipsCostProbes(rise, fall, rest);
      var t, u := Replay(rise, fall, rest), Replay(rise, fall, probes);
      assert u == Record(rise, fall, t, probes[|probes| - 1]);
      assert (t.ups + 1) * rise == t.ups * rise + rise;
      assert (t.downs + 1) * fall == t.downs * fall + fall;
    }
  }

  // ----- the checker

  class Checker {
    const rise: int
    const fall: int
    const backend: Backend
    var success: int
    var failure: int

    /** The results of all probes so far, and how often the pool was notified. */
    ghost var probes: seq<bool>
    ghost var notified: nat

    ghost predicate Valid()
      reads this, backend
    {
      && rise >= 1 && fall >= 1
      && var t := Replay(rise, fall, probes);
         success == t.success && failure == t.failure && backend.state == t.state && notified == t.notified
    }

    constructor (rise: int, fall: int, backend: Backend)
      requires backend.state == Unknown
      ensures Valid() && this.backend == backend && probes == []
      ensures this.rise == (if rise < 1 then 1 else rise) && this.fall == (if fall < 1 then 1 else fall)
    {
      this.rise, this.fall := if rise < 1 then 1 else rise, if fall < 1 then 1 else fall;
      this.backend := backend;
      success, failure := 0, 0;
      probes, notified := [], 0;
    }

    /** record. What it leaves behind is told by the history alone. */
    method Record(ok: bool) returns (changed: bool)
      requires Valid()
      modifies this`success, this`failure, this`probes, this`notified, backend`state
      ensures Valid() && probes == old(probes) + [ok]
      ensures backend.state == Verdict(rise, fall, probes)
      ensures changed <==> old(backend.state) != backend.state
    {
      ghost var before := probes;
      probes := probes + [ok];
      assert probes[..|probes| - 1] == before;
      CountersTellTheHistory(rise, fall, probes);
      changed := false;
      var target: Health;
      if ok {
        failure := 0;
        if success < rise { success := success + 1; }
        if success < rise { return; }
        target := Healthy;
      } else {
        success := 0;
        if failure < fall { failure := failure + 1; }
        if failure < fall { return; }
        target := Unhealthy;
      }
      changed := backend.SetState(target);
      if changed { notified := notified + 1; }
    }
  }
}
