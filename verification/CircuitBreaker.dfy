/**
 The per-provider circuit breaker (apps/admin-dashboard/src/lib/circuit-breaker.ts, lines 55-199) over
 timed histories of reads, probe claims and reports. Times are seconds of one clock that never runs
 back; a read and the promotion it persists are one step.
 */
module CircuitBreaker {
  import opened Options

  datatype CircuitState = Closed | Open | HalfOpen

  datatype Circuit = Circuit(state: CircuitState, failures: nat, openedAt: Option<int>, halfOpenAt: Option<int>)

  /** CIRCUIT_THRESHOLD and CIRCUIT_COOLDOWN_S. */
  datatype Config = Config(threshold: nat, cooldown: nat)

  const PROBE_HOLD: int := 30

  const Healthy: Circuit := Circuit(Closed, 0, None, None)

  /** getCircuit: OPEN becomes HALF_OPEN once the cool-off has run. */
  function Read(cfg: Config, c: Circuit, now: int): Circuit {
    if c.state.Open? && c.openedAt.Some? && now - c.openedAt.value >= cfg.cooldown then c.(state := HalfOpen) else c
  }

  /** Whether a claim made now gets the probe. */
  predicate Grants(c: Circuit, now: int) {
    c.state.HalfOpen?
    && (c.halfOpenAt.None?
        || (c.openedAt.Some? && c.halfOpenAt.value < c.openedAt.value)
        || c.halfOpenAt.value < now - PROBE_HOLD)
  }

  function Claim(c: Circuit, now: int): Circuit {
    if Grants(c, now) then c.(halfOpenAt := Some(now)) else c
  }

  /** recordSuccess and resetCircuit leave the circuit as new. */
  function Failed(cfg: Config, c: Circuit, now: int): Circuit {
    Circuit(if c.failures + 1 >= cfg.threshold || c.state.HalfOpen? then Open else c.state,
            c.failures + 1,
            if c.state.HalfOpen? || (c.failures + 1 >= cfg.threshold && !c.state.Open?) then Some(now) else c.openedAt,
            c.halfOpenAt)
  }

  datatype Kind = Reads | Claims | Succeeds | Fails | Resets

  datatype Event = Event(kind: Kind, at: int)
  {
    predicate Report() { kind.Succeeds? || kind.Fails? || kind.Resets? }
  }

  function Next(cfg: Config, c: Circuit, e: Event): Circuit {
    match e.kind
    case Reads => Read(cfg, c, e.at)
    case Claims => Claim(c, e.at)
    case Succeeds => Healthy
    case Fails => Failed(cfg, c, e.at)
    case Resets => Healthy
  }

  /** The circuit after the first `n` events of a history that starts healthy. */
  function After(cfg: Config, es: seq<Event>, n: nat): Circuit
    requires n <= |es|
  {
    if n == 0 then Healthy else Next(cfg, After(cfg, es, n - 1), es[n - 1])
  }

  predicate Granted(cfg: Config, es: seq<Event>, i: nat)
    requires i < |es|
  {
    es[i].kind.Claims? && Grants(After(cfg, es, i), es[i].at)
  }

  ghost predicate Ordered(es: seq<Event>) {
    forall i, j :: 0 <= i < j < |es| ==> es[i].at <= es[j].at
  }

  /** Failures reported since the last success or reset. */
  function FailuresSince(es: seq<Event>, n: nat): nat
    requires n <= |es|
  {
    if n == 0 || es[n - 1].kind.Succeeds? || es[n - 1].kind.Resets? then 0
    else FailuresSince(es, n - 1) + (if es[n - 1].kind.Fails? then 1 else 0)
  }

  /** What every circuit reached keeps, `now` being the time of its last event. */
  ghost predicate Sound(cfg: Config, c: Circuit, now: int) {
    && (c.state.Closed? <==> c.openedAt.None?) && (c.state.Closed? <==> c.failures < cfg.threshold)
    && (c.state.Closed? ==> c.halfOpenAt.None?)
    && (c.openedAt.Some? ==> c.openedAt.value <= now)
    && (c.state.Open? && c.halfOpenAt.Some? ==> c.halfOpenAt.value <= c.openedAt.value)
    && (c.state.HalfOpen? ==> now - c.openedAt.value >= cfg.cooldown && (c.halfOpenAt.Some? ==> c.halfOpenAt.value <= now))
  }

  lemma NextSound(cfg: Config, c: Circuit, now: int, e: Event)
    requires cfg.threshold > 0 && Sound(cfg, c, now) && now <= e.at
    ensures Sound(cfg, Next(cfg, c, e), e.at)
  {
  }

  lemma {:induction false} AfterSound(cfg: Config, es: seq<Event>, n: nat, now: int)
    requires cfg.threshold > 0 && n <= |es| && Ordered(es) && (n > 0 ==> es[n - 1].at <= now)
    ensures Sound(cfg, After(cfg, es, n), now) && After(cfg, es, n).failures == FailuresSince(es, n)
  {
    if n > 0 {
      AfterSound(cfg, es, n - 1, es[n - 1].at);
      NextSound(cfg, After(cfg, es, n - 1), es[n - 1].at, es[n - 1]);
    }
  }

  /** In every history the circuit is closed exactly while fewer than the threshold failed in a row. */
  lemma ClosedExactlyBelowThreshold(cfg: Config, es: seq<Event>, n: nat)
    requires cfg.threshold > 0 && n <= |es| && Ordered(es)
    ensures var c := After(cfg, es, n);
            && (c.state.Closed? <==> FailuresSince(es, n) < cfg.threshold)
            && (c.state.Closed? <==> c.openedAt.None?)
  {
    AfterSound(cfg, es, n, if n > 0 then es[n - 1].at else 0);
  }

  // ── One probe at a time ─────────────────────────────────────────────────────────────────────

  /** From a granted probe on, until a report, the circuit stays half-open and remembers a probe. */
  lemma {:induction false} ProbeHeld(cfg: Config, es: seq<Event>, i: nat, n: nat)
    requires cfg.threshold > 0 && i < n <= |es| && Ordered(es) && Granted(cfg, es, i)
    requires forall k :: i < k < n ==> !es[k].Report()
    ensures var c := After(cfg, es, n);
            c.state.HalfOpen? && c.openedAt.Some? && c.openedAt.value <= es[i].at && c.halfOpenAt.Some?
                && c.halfOpenAt.value >= es[i].at
  {
    if n == i + 1 {
      AfterSound(cfg, es, i, es[i].at);
    } else {
      ProbeHeld(cfg, es, i, n - 1);
    }
  }

  /** Two probes granted with no report between them are more than the hold apart. */
  lemma ProbesMoreThanHoldApart(cfg: Config, es: seq<Event>, i: nat, j: nat)
    requires cfg.threshold > 0 && i < j < |es| && Ordered(es) && Granted(cfg, es, i) && Granted(cfg, es, j)
    requires forall k :: i < k < j ==> !es[k].Report()
    ensures es[j].at - es[i].at > PROBE_HOLD
  {
    ProbeHeld(cfg, es, i, j);
  }

  /** While no other claim gets it, the half-open circuit remembers just this probe. */
  lemma {:induction false} ProbeRemembered(cfg: Config, es: seq<Event>, i: nat, n: nat)
    requires cfg.threshold > 0 && i < n <= |es| && Ordered(es) && Granted(cfg, es, i)
    requires forall k :: i < k < n ==> !es[k].Report() && !Granted(cfg, es, k)
    ensures After(cfg, es, n).halfOpenAt == Some(es[i].at)
  {
    if n > i + 1 {
      ProbeRemembered(cfg, es, i, n - 1);
      assert !Granted(cfg, es, n - 1);
    }
  }

  /** Until a probe reports, the next claim gets one exactly when the hold has run out. */
  lemma NextProbeExactlyAfterHold(cfg: Config, es: seq<Event>, i: nat, j: nat)
    requires cfg.threshold > 0 && i < j < |es| && Ordered(es) && Granted(cfg, es, i) && es[j].kind.Claims?
    requires forall k :: i < k < j ==> !es[k].Report() && !Granted(cfg, es, k)
    ensures Granted(cfg, es, j) <==> es[j].at - es[i].at > PROBE_HOLD
  {
    ProbeHeld(cfg, es, i, j);
    ProbeRemembered(cfg, es, i, j);
  }

  // ── The cool-off ────────────────────────────────────────────────────────────────────────────

  /** The event opens the circuit: the trip, or a failed probe. */
  predicate Opens(cfg: Config, es: seq<Event>, i: nat)
    requires i < |es|
  {
    es[i].kind.Fails? && !After(cfg, es, i).state.Open? && After(cfg, es, i + 1).state.Open?
  }

  /** After a circuit opened it is closed or was opened no earlier. */
  lemma {:induction false} OpenedSince(cfg: Config, es: seq<Event>, i: nat, n: nat)
    requires cfg.threshold > 0 && i < n <= |es| && Ordered(es) && Opens(cfg, es, i)
    ensures After(cfg, es, n).openedAt.Some? ==> After(cfg, es, n).openedAt.value >= es[i].at
  {
    if n > i + 1 {
      OpenedSince(cfg, es, i, n - 1);
      assert es[i].at <= es[n - 1].at;
    }
  }

  /** Once the circuit opened, by a trip or a failed probe, no probe is granted before the full cool-off. */
  lemma NoProbeBeforeCoolOff(cfg: Config, es: seq<Event>, i: nat, j: nat)
    requires cfg.threshold > 0 && i < j < |es| && Ordered(es) && Opens(cfg, es, i) && Granted(cfg, es, j)
    ensures es[j].at - es[i].at >= cfg.cooldown
  {
    OpenedSince(cfg, es, i, j);
    AfterSound(cfg, es, j, es[j].at);
    if j > 0 { AfterSound(cfg, es, j, es[j - 1].at); }
  }

  /** A failed probe always opens the circuit again, whatever the threshold. */
  lemma FailedProbeOpens(cfg: Config, es: seq<Event>, i: nat)
    requires i < |es| && es[i].kind.Fails? && After(cfg, es, i).state.HalfOpen?
    ensures Opens(cfg, es, i) && After(cfg, es, i + 1).openedAt == Some(es[i].at)
  {
  }

  /** Past the cool-off and the hold a probe can be had: a read and a claim get it. */
  lemma ProbeGrantedAfterCoolOff(cfg: Config, es: seq<Event>, n: nat, read: int, claim: int)
    requires cfg.threshold > 0 && n <= |es| && Ordered(es) && After(cfg, es, n).state.Open?
    requires var since := After(cfg, es, n).openedAt;
             since.Some? && read <= claim && read - since.value >= cfg.cooldown && claim - since.value > PROBE_HOLD
    ensures Grants(Read(cfg, After(cfg, es, n), read), claim)
  {
    AfterSound(cfg, es, n, if n > 0 then es[n - 1].at else 0);
  }

  // ── The circuit told from its history ───────────────────────────────────────────────────────

  predicate Closes(e: Event) { e.kind.Succeeds? || e.kind.Resets? }

  /** The circuit opened at event `i` and has neither opened again nor closed since. */
  ghost predicate LastOpening(cfg: Config, es: seq<Event>, i: nat, n: nat)
    requires n <= |es|
  {
    i < n && Opens(cfg, es, i) && forall k :: i < k < n ==> !Opens(cfg, es, k) && !Closes(es[k])
  }

  /** A read since found the cool-off of the opening run out. */
  ghost predicate CooledOff(cfg: Config, es: seq<Event>, i: nat, n: nat)
    requires i < n <= |es|
  {
    exists k :: i < k < n && es[k].kind.Reads? && es[k].at - es[i].at >= cfg.cooldown
  }

  /** The circuit remembers the time of opening `i`, and is half-open exactly when a read found its cool-off run out. */
  ghost predicate Tells(cfg: Config, es: seq<Event>, i: nat, n: nat)
    requires n <= |es|
  {
    && LastOpening(cfg, es, i, n) && After(cfg, es, n).openedAt == Some(es[i].at)
    && (After(cfg, es, n).state.HalfOpen? <==> CooledOff(cfg, es, i, n))
  }

  lemma OpeningTells(cfg: Config, es: seq<Event>, i: nat)
    requires i < |es| && Opens(cfg, es, i)
    ensures Tells(cfg, es, i, i + 1)
  {
  }

  lemma StillTells(cfg: Config, es: seq<Event>, i: nat, n: nat)
    requires n < |es| && Tells(cfg, es, i, n) && !Opens(cfg, es, n) && !Closes(es[n])
    requires !After(cfg, es, n).state.Closed?
    ensures Tells(cfg, es, i, n + 1)
  {
    if CooledOff(cfg, es, i, n) {
      var k: nat :| i < k < n && es[k].kind.Reads? && es[k].at - es[i].at >= cfg.cooldown;
      assert CooledOff(cfg, es, i, n + 1);
    }
    if es[n].kind.Reads? && es[n].at - es[i].at >= cfg.cooldown { assert CooledOff(cfg, es, i, n + 1); }
  }

  /**
   A circuit that is not closed was opened last at the event whose time it remembers, and is half-open exactly when a
   read since then found the cool-off run out.
   */
  lemma {:induction false} HalfOpenExactly(cfg: Config, es: seq<Event>, n: nat)
    requires n <= |es| && !After(cfg, es, n).state.Closed?
    ensures exists i: nat :: LastOpening(cfg, es, i, n) && After(cfg, es, n).openedAt == Some(es[i].at)
                             && (After(cfg, es, n).state.HalfOpen? <==> CooledOff(cfg, es, i, n))
  {
    if n > 0 {
      if Opens(cfg, es, n - 1) {
        OpeningTells(cfg, es, n - 1);
      } else {
        HalfOpenExactly(cfg, es, n - 1);
        var i: nat :| LastOpening(cfg, es, i, n - 1) && After(cfg, es, n - 1).openedAt == Some(es[i].at)
                      && (After(cfg, es, n - 1).state.HalfOpen? <==> CooledOff(cfg, es, i, n - 1));
        StillTells(cfg, es, i, n - 1);
      }
    }
  }

  /** Probe `i` was granted, and the circuit has not closed since. */
  ghost predicate Outstanding(cfg: Config, es: seq<Event>, i: nat, n: nat)
    requires n <= |es|
  {
    i < n && Granted(cfg, es, i) && forall k :: i < k < n ==> !Closes(es[k])
  }

  lemma OutstandingGoesOn(cfg: Config, es: seq<Event>, i: nat, n: nat)
    requires n < |es|
    ensures Outstanding(cfg, es, i, n + 1) <==>
              !Closes(es[n]) && (Outstanding(cfg, es, i, n) || (i == n && Granted(cfg, es, n)))
  {
  }

  /** What the circuit remembers of probes: none, or the time of the newest. */
  ghost predicate Newest(cfg: Config, es: seq<Event>, n: nat, at: Option<int>)
    requires n <= |es|
  {
    match at
    case None => forall i: nat :: !Outstanding(cfg, es, i, n)
    case Some(t) => (exists i: nat :: Outstanding(cfg, es, i, n) && es[i].at == t)
                    && forall i: nat :: Outstanding(cfg, es, i, n) ==> es[i].at <= t
  }

  /** The circuit remembers the newest probe granted since it was last closed. */
  lemma {:induction false} RemembersNewestProbe(cfg: Config, es: seq<Event>, n: nat)
    requires n <= |es| && Ordered(es)
    ensures Newest(cfg, es, n, After(cfg, es, n).halfOpenAt)
  {
    if n > 0 {
      RemembersNewestProbe(cfg, es, n - 1);
      forall i: nat
        ensures Outstanding(cfg, es, i, n) <==>
                  !Closes(es[n - 1]) && (Outstanding(cfg, es, i, n - 1) || (i == n - 1 && Granted(cfg, es, n - 1)))
      {
        OutstandingGoesOn(cfg, es, i, n - 1);
      }
      if Granted(cfg, es, n - 1) { assert Outstanding(cfg, es, n - 1, n); }
    }
  }

  /**
   A claim gets the probe exactly when the circuit is half-open and every probe granted since it was last closed
   belongs to an earlier opening or has held it for more than thirty seconds.
   */
  lemma GrantedExactly(cfg: Config, es: seq<Event>, j: nat)
    requires cfg.threshold > 0 && j < |es| && Ordered(es) && es[j].kind.Claims?
    ensures Granted(cfg, es, j) <==>
              && After(cfg, es, j).state.HalfOpen?
              && exists o: nat :: LastOpening(cfg, es, o, j)
                             && forall i: nat :: Outstanding(cfg, es, i, j) ==>
                                  es[i].at < es[o].at || es[j].at - es[i].at > PROBE_HOLD
  {
    var c := After(cfg, es, j);
    RemembersNewestProbe(cfg, es, j);
    if c.state.HalfOpen? {
      HalfOpenExactly(cfg, es, j);
      var o: nat :| LastOpening(cfg, es, o, j) && c.openedAt == Some(es[o].at);
      forall p: nat | LastOpening(cfg, es, p, j) ensures p == o { OneLastOpening(cfg, es, o, p, j); }
    }
  }

  lemma OneLastOpening(cfg: Config, es: seq<Event>, a: nat, b: nat, n: nat)
    requires n <= |es| && LastOpening(cfg, es, a, n) && LastOpening(cfg, es, b, n)
    ensures a == b
  {
  }

  class Breaker {
    const cfg: Config
    var state: CircuitState
    var failures: nat
    var openedAt: Option<int>
    var halfOpenAt: Option<int>

    function View(): Circuit
      reads this
    {
      Circuit(state, failures, openedAt, halfOpenAt)
    }

    constructor (cfg: Config)
      ensures View() == Healthy && this.cfg == cfg
    {
      this.cfg := cfg;
      state, failures, openedAt, halfOpenAt := Closed, 0, None, None;
    }

    method GetCircuit(now: int) returns (c: Circuit)
      modifies this`state
      ensures View() == c == Read(cfg, old(View()), now)
    {
      if state.Open? && openedAt.Some? && now - openedAt.value >= cfg.cooldown { state := HalfOpen; }
      c := View();
    }

    method ClaimProbe(now: int) returns (granted: bool)
      modifies this`halfOpenAt
      ensures granted == Grants(old(View()), now) && View() == Claim(old(View()), now)
    {
      granted := state.HalfOpen?
        && (halfOpenAt.None? || (openedAt.Some? && halfOpenAt.value < openedAt.value) || halfOpenAt.value < now - PROBE_HOLD);
      if granted { halfOpenAt := Some(now); }
    }

    /** recordSuccess and resetCircuit. */
    method Close()
      modifies this
      ensures View() == Healthy
    {
      state, failures, openedAt, halfOpenAt := Closed, 0, None, None;
    }

    /** Whether this failure opened the circuit. */
    method RecordFailure(now: int) returns (tripped: bool)
      modifies this
      ensures View() == Failed(cfg, old(View()), now) && halfOpenAt == old(halfOpenAt)
      ensures tripped <==> state.Open? && !old(state).Open?
    {
      var prev := state;
      failures := failures + 1;
      if prev.HalfOpen? || (failures >= cfg.threshold && !prev.Open?) { openedAt := Some(now); }
      if failures >= cfg.threshold || prev.HalfOpen? { state := Open; }
      tripped := state.Open? && !prev.Open?;
    }
  }
}
