/**
 What calls on one banker's settlement buffer may do to each other when their statements interleave in any
 way: the exact conditions under which the reserves stay within what they hold, and the ledger goes on saying
 what they have left (apps/admin-dashboard/src/lib/dt.ts, lines 165-202; settlements/route.ts, lines 37-72).
 */
module BufferOverlaps {
  import opened SetSums
  import opened SettlementBuffer

  // ── What a statement would have to find ─────────────────────────────────────────────────────

  /** The release that is a call's next statement, if it is one. */
  predicate Releases(s: State, step: Step) {
    step.Take? && step.c in s.calls && s.calls[step.c].Releasing? && s.calls[step.c].plan != []
  }

  /** A release finds as much left as it takes. */
  predicate TakeFits(s: State, step: Step) {
    Releases(s, step) ==>
      var (i, take) := s.calls[step.c].plan[0];
      i < |s.reserves| ==> take <= s.reserves[i].Left()
  }

  /** A settlement finds its amount still outstanding when it lists the reserves. */
  predicate ListFits(s: State, step: Step) {
    step.ListReserves? && step.c in s.calls && s.calls[step.c].Passed? ==>
          s.calls[step.c].amount <= Remaining(s.reserves)
  }

  /** An entry is inserted while the last one is still that it opens at. */
  predicate EntryFits(start: nat, s: State, step: Step) {
    step.InsertEntry? && step.c in s.calls && s.calls[step.c].Writing? ==>
      s.calls[step.c].entry.opening == Last(start, s.entries)
  }

  predicate TakesFit(s: State, steps: seq<Step>)
    decreases |steps|
  {
    steps != [] ==> TakeFits(s, steps[0]) && TakesFit(Apply(s, steps[0]), steps[1..])
  }

  predicate MovesFit(s: State, steps: seq<Step>)
    decreases |steps|
  {
    steps != [] ==> TakeFits(s, steps[0]) && ListFits(s, steps[0]) && MovesFit(Apply(s, steps[0]), steps[1..])
  }

  predicate EntriesFit(start: nat, s: State, steps: seq<Step>)
    decreases |steps|
  {
    steps != [] ==> EntryFits(start, s, steps[0]) && EntriesFit(start, Apply(s, steps[0]), steps[1..])
  }

  // ── Nothing released twice ──────────────────────────────────────────────────────────────────

  /** Reserves are added and released from, and nothing is given back. */
  lemma ReservesOnlyGive(s: State, step: Step)
    ensures var rs, t := s.reserves, Apply(s, step).reserves;
            |rs| <= |t| && forall i :: 0 <= i < |rs| ==> t[i].held == rs[i].held && t[i].released >= rs[i].released
  {
  }

  lemma {:induction false} OverReleasedStays(s: State, steps: seq<Step>)
    requires !Within(s.reserves)
    ensures !Within(Run(s, steps).reserves)
    decreases |steps|
  {
    if steps != [] {
      ReservesOnlyGive(s, steps[0]);
      OverReleasedStays(Apply(s, steps[0]), steps[1..]);
    }
  }

  lemma TakeKeepsWithinExactly(s: State, step: Step)
    requires Within(s.reserves)
    ensures Within(Apply(s, step).reserves) <==> TakeFits(s, step)
  {
    if Releases(s, step) {
      var (i, take) := s.calls[step.c].plan[0];
      var t := Apply(s, step).reserves;
      assert t == Given(s.reserves, i, take);
      if i < |s.reserves| { assert t[i].released == s.reserves[i].released + take; }
    }
  }

  /** However calls interleave, no reserve gives more than it holds exactly when every release finds what it takes. */
  lemma {:induction false} WithinExactly(s: State, steps: seq<Step>)
    requires Within(s.reserves)
    ensures Within(Run(s, steps).reserves) <==> TakesFit(s, steps)
    decreases |steps|
  {
    if steps != [] {
      TakeKeepsWithinExactly(s, steps[0]);
      if TakeFits(s, steps[0]) {
        WithinExactly(Apply(s, steps[0]), steps[1..]);
      } else {
        OverReleasedStays(Apply(s, steps[0]), steps[1..]);
      }
    }
  }

  // ── Two settlements that listed the same reserves ───────────────────────────────────────────

  /** What a plan takes from one reserve. */
  function TakenFrom(plan: seq<(nat, nat)>, i: nat): nat
    decreases |plan|
  {
    if plan == [] then 0 else (if plan[0].0 == i then plan[0].1 else 0) + TakenFrom(plan[1..], i)
  }

  lemma {:induction false} GiveAt(rs: seq<Reserve>, plan: seq<(nat, nat)>, i: nat)
    requires i < |rs|
    ensures |Give(rs, plan)| == |rs|
    ensures Give(rs, plan)[i] == rs[i].(released := rs[i].released + TakenFrom(plan, i))
    decreases |plan|
  {
    if plan != [] { GiveAt(Given(rs, plan[0].0, plan[0].1), plan[1..], i); }
  }

  /** A plan takes nothing from reserves with nothing left, and goes past one only once it is used up. */
  lemma {:induction false} PlanTakes(rs: seq<Reserve>, amount: nat, k: nat, j: nat)
    requires j < |rs|
    ensures var before := Remaining(rs[..j]);
            TakenFrom(Plan(rs, amount, k), k + j) == Min(rs[j].Left(), Max(0, amount - before))
    decreases |rs|
  {
    if amount > 0 {
      var take := Min(rs[0].Left(), amount);
      var rest := Plan(rs[1..], amount - take, k + 1);
      assert Plan(rs, amount, k)[1..] == rest;
      if j == 0 {
        NotPlanned(rs[1..], amount - take, k + 1, k);
      } else {
        PlanTakes(rs[1..], amount - take, k + 1, j - 1);
        assert rs[1..][j - 1] == rs[j] && rs[..j][1..] == rs[1..][..j - 1];
        RemainingFirst(rs[..j]);
      }
    }
  }

  lemma {:induction false} NotPlanned(rs: seq<Reserve>, amount: int, k: nat, i: nat)
    requires i < k
    ensures TakenFrom(Plan(rs, amount, k), i) == 0
    decreases |rs|
  {
    if rs != [] && amount > 0 {
      var take := Min(rs[0].Left(), amount);
      assert Plan(rs, amount, k)[1..] == Plan(rs[1..], amount - take, k + 1);
      NotPlanned(rs[1..], amount - take, k + 1, i);
    }
  }

  /** The oldest reserve with money left. */
  predicate OldestLeft(rs: seq<Reserve>, i: nat) {
    i < |rs| && rs[i].Left() > 0 && Remaining(rs[..i]) == 0
  }

  lemma {:induction false} RemainingGrows(rs: seq<Reserve>, j: nat, k: nat)
    requires j <= k <= |rs|
    ensures Remaining(rs[..j]) <= Remaining(rs[..k])
    decreases k
  {
    if j < k {
      assert rs[..k][..k - 1] == rs[..k - 1];
      RemainingGrows(rs, j, k - 1);
    }
  }

  /**
   What both take from one reserve: of the oldest both their amounts, of a younger one nothing while that suffices.
   */
  lemma BothTakeFrom(rs: seq<Reserve>, a: nat, b: nat, i: nat, j: nat)
    requires OldestLeft(rs, i) && j < |rs| && a + b <= rs[i].Left()
    ensures TakenFrom(Plan(rs, a, 0), j) + TakenFrom(Plan(rs, b, 0), j) == if j == i then a + b else 0
  {
    PlanTakes(rs, a, 0, j);
    PlanTakes(rs, b, 0, j);
    if j < i {
      assert rs[..j + 1][..j] == rs[..j];
      RemainingGrows(rs, j + 1, i);
    } else if i < j {
      assert rs[..i + 1][..i] == rs[..i];
      RemainingGrows(rs, i + 1, j);
    }
  }

  /**
   Two settlements that both listed the reserves before either took from them stay within what is held exactly
   when both together fit in the oldest reserve with money left.
   */
  lemma BothListedFitExactly(rs: seq<Reserve>, a: nat, b: nat, i: nat)
    requires Within(rs) && OldestLeft(rs, i) && a > 0 && b > 0
    ensures Within(Give(Give(rs, Plan(rs, a, 0)), Plan(rs, b, 0))) <==> a + b <= rs[i].Left()
  {
    var first := Give(rs, Plan(rs, a, 0));
    var both := Give(first, Plan(rs, b, 0));
    forall j | 0 <= j < |rs|
      ensures |both| == |rs| && both[j].held == rs[j].held
      ensures both[j].released == rs[j].released + TakenFrom(Plan(rs, a, 0), j) + TakenFrom(Plan(rs, b, 0), j)
    {
      GiveAt(rs, Plan(rs, a, 0), j);
      GiveAt(first, Plan(rs, b, 0), j);
    }
    if a + b <= rs[i].Left() {
      forall j | 0 <= j < |both| ensures both[j].released <= both[j].held { BothTakeFrom(rs, a, b, i, j); }
    } else {
      PlanTakes(rs, a, 0, i);
      PlanTakes(rs, b, 0, i);
      assert both[i].released > both[i].held;
    }
  }

  // ── Outstanding is funded less settled ──────────────────────────────────────────────────────

  function PlanSum(plan: seq<(nat, nat)>): nat
    decreases |plan|
  {
    if plan == [] then 0 else plan[0].1 + PlanSum(plan[1..])
  }

  predicate PlanValid(plan: seq<(nat, nat)>, n: nat) { forall j :: 0 <= j < |plan| ==> plan[j].0 < n }

  ghost predicate PlansValid(s: State) {
    forall c :: c in s.calls && s.calls[c].Releasing? ==> PlanValid(s.calls[c].plan, |s.reserves|)
  }

  lemma {:induction false} PlanSumIs(rs: seq<Reserve>, amount: nat, k: nat)
    ensures PlanSum(Plan(rs, amount, k)) == Min(amount, Remaining(rs)) && PlanValid(Plan(rs, amount, k), k + |rs|)
    decreases |rs|
  {
    if rs != [] && amount > 0 {
      var take := Min(rs[0].Left(), amount);
      RemainingFirst(rs);
      PlanSumIs(rs[1..], amount - take, k + 1);
      assert Plan(rs, amount, k)[1..] == Plan(rs[1..], amount - take, k + 1);
    }
  }

  /** What a call has moved in the reserves and its entry has yet to say. */
  function Owing(call: Call): int {
    match call
    case Passed(_) => 0
    case Releasing(amount, plan) => PlanSum(plan) - amount
    case Entering(added, released) => added - released
    case Writing(e) => e.added - e.released
  }

  function OwingIn(calls: map<nat, Call>): nat -> int {
    (c: nat) => if c in calls then Owing(calls[c]) else 0
  }

  ghost function InFlight(calls: map<nat, Call>): int { SumOver(calls.Keys, OwingIn(calls)) }

  lemma InFlightSet(calls: map<nat, Call>, c: nat, call: Call)
    ensures InFlight(calls[c := call]) == InFlight(calls) + Owing(call) - (if c in calls then Owing(calls[c]) else 0)
  {
    var t := calls[c := call];
    var others := calls.Keys - {c};
    assert t.Keys - {c} == others;
    SumOverTake(t.Keys, c, OwingIn(t));
    SumOverSame(others, OwingIn(calls), OwingIn(t));
    if c in calls { SumOverTake(calls.Keys, c, OwingIn(calls)); } else { assert others == calls.Keys; }
  }

  lemma InFlightDrop(calls: map<nat, Call>, c: nat)
    requires c in calls
    ensures InFlight(calls - {c}) == InFlight(calls) - Owing(calls[c])
  {
    var t := calls - {c};
    assert t.Keys == calls.Keys - {c};
    SumOverTake(calls.Keys, c, OwingIn(calls));
    SumOverSame(t.Keys, OwingIn(calls), OwingIn(t));
  }

  /** What the reserves have left beyond what the entries, made and to come, account for. */
  ghost function Excess(start: nat, s: State): int {
    Remaining(s.reserves) - (start + Added(s.entries) - Settled(s.entries) + InFlight(s.calls))
  }

  lemma RemainingAt(rs: seq<Reserve>, i: nat, r: Reserve)
    requires i < |rs|
    ensures Remaining(rs[i := r]) == Remaining(rs) - rs[i].Left() + r.Left()
  {
    assert rs == rs[..i] + [rs[i]] + rs[i + 1..] && rs[i := r] == rs[..i] + [r] + rs[i + 1..];
    RemainingPush(rs[..i], rs[i]);
    RemainingPush(rs[..i], r);
    RemainingConcat(rs[..i] + [rs[i]], rs[i + 1..]);
    RemainingConcat(rs[..i] + [r], rs[i + 1..]);
  }

  /** A release makes the excess grow by what it takes too much. */
  lemma TakeExcess(start: nat, s: State, step: Step)
    requires PlansValid(s) && Releases(s, step)
    ensures var t := Apply(s, step); Excess(start, t) >= Excess(start, s)
    ensures Excess(start, Apply(s, step)) == Excess(start, s) <==> TakeFits(s, step)
  {
    var call := s.calls[step.c];
    var (i, take) := call.plan[0];
    var r := s.reserves[i].(released := s.reserves[i].released + take);
    RemainingAt(s.reserves, i, r);
    InFlightSet(s.calls, step.c, Releasing(call.amount, call.plan[1..]));
    assert Apply(s, step) == State(s.reserves[i := r], s.entries, s.calls[step.c := Releasing(call.amount, call.plan[1..])]);
  }

  /** Listing reserves that have too little makes it grow by what is missing. */
  lemma ListExcess(start: nat, s: State, step: Step)
    requires step.ListReserves? && step.c in s.calls && s.calls[step.c].Passed?
    ensures Excess(start, Apply(s, step)) >= Excess(start, s)
    ensures Excess(start, Apply(s, step)) == Excess(start, s) <==> ListFits(s, step)
  {
    var amount := s.calls[step.c].amount;
    PlanSumIs(s.reserves, amount, 0);
    InFlightSet(s.calls, step.c, Releasing(amount, Plan(s.reserves, amount, 0)));
    assert Apply(s, step) == s.(calls := s.calls[step.c := Releasing(amount, Plan(s.reserves, amount, 0))]);
  }

  lemma EntryExcess(start: nat, s: State, c: nat)
    requires c in s.calls && s.calls[c].Writing?
    ensures Excess(start, Apply(s, InsertEntry(c))) == Excess(start, s)
  {
    var e := s.calls[c].entry;
    InFlightDrop(s.calls, c);
    assert (s.entries + [e])[..|s.entries|] == s.entries;
  }

  lemma InsertExcess(start: nat, s: State, c: nat, held: nat)
    requires c !in s.calls
    ensures Excess(start, State(s.reserves + [Reserve(held, 0)], s.entries, s.calls[c := Entering(held, 0)]))
            == Excess(start, s)
  {
    var t := State(s.reserves + [Reserve(held, 0)], s.entries, s.calls[c := Entering(held, 0)]);
    RemainingPush(s.reserves, Reserve(held, 0));
    InFlightSet(s.calls, c, Entering(held, 0));
    assert Remaining(t.reserves) == Remaining(s.reserves) + held && InFlight(t.calls) == InFlight(s.calls) + held;
  }

  lemma PassExcess(start: nat, s: State, c: nat, amount: nat)
    requires c !in s.calls
    ensures Excess(start, s.(calls := s.calls[c := Passed(amount)])) == Excess(start, s)
  {
    InFlightSet(s.calls, c, Passed(amount));
  }

  lemma StartExcess(start: nat, s: State, step: Step)
    requires Starts(step)
    ensures Excess(start, Apply(s, step)) == Excess(start, s)
  {
    if step.c !in s.calls {
      if step.InsertReserve? { InsertExcess(start, s, step.c, step.held); }
        else { PassExcess(start, s, step.c, step.amount); }
    }
  }

  lemma ReadExcess(start: nat, s: State, c: nat)
    ensures Excess(start, Apply(s, ReadLast(c))) == Excess(start, s)
  {
    var t := Apply(s, ReadLast(c));
    if t != s { InFlightSet(s.calls, c, t.calls[c]); }
  }

  /** No statement makes the excess shrink, and it grows exactly with a release or a listing that does not fit. */
  lemma StepExcess(start: nat, s: State, step: Step)
    requires PlansValid(s)
    ensures Excess(start, Apply(s, step)) >= Excess(start, s)
    ensures Excess(start, Apply(s, step)) == Excess(start, s) <==> TakeFits(s, step) && ListFits(s, step)
  {
    match step
    case InsertReserve(_, _) => StartExcess(start, s, step);
    case CheckOutstanding(_, _) => StartExcess(start, s, step);
    case ListReserves(c) => if c in s.calls && s.calls[c].Passed? { ListExcess(start, s, step); }
    case Take(c) => if Releases(s, step) { TakeExcess(start, s, step); }
    case ReadLast(c) => ReadExcess(start, s, c);
    case InsertEntry(c) => if c in s.calls && s.calls[c].Writing? { EntryExcess(start, s, c); }
  }

  lemma PlansStayValid(s: State, step: Step)
    requires PlansValid(s)
    ensures PlansValid(Apply(s, step))
  {
    if step.ListReserves? && step.c in s.calls && s.calls[step.c].Passed? {
      PlanSumIs(s.reserves, s.calls[step.c].amount, 0);
    }
  }

  lemma {:induction false} RunExcess(start: nat, s: State, steps: seq<Step>)
    requires PlansValid(s)
    ensures Excess(start, Run(s, steps)) >= Excess(start, s)
    ensures Excess(start, Run(s, steps)) == Excess(start, s) <==> MovesFit(s, steps)
    decreases |steps|
  {
    if steps != [] {
      StepExcess(start, s, steps[0]);
      PlansStayValid(s, steps[0]);
      RunExcess(start, Apply(s, steps[0]), steps[1..]);
    }
  }

  /**
   However calls interleave, once all are done the reserves have left what was funded less what was settled
   exactly when every listing found its amount outstanding and every release what it took; they never have less.
   */
  lemma FundedLessSettledExactly(before: seq<Reserve>, steps: seq<Step>)
    requires Run(State(before, [], map[]), steps).calls == map[]
    ensures var s := Run(State(before, [], map[]), steps);
            && Remaining(s.reserves) >= Remaining(before) + Added(s.entries) - Settled(s.entries)
            && (Remaining(s.reserves) == Remaining(before) + Added(s.entries) - Settled(s.entries)
                <==> MovesFit(State(before, [], map[]), steps))
  {
    RunExcess(Remaining(before), State(before, [], map[]), steps);
  }

  // ── The ledger is a chain ───────────────────────────────────────────────────────────────────

  predicate Formed(e: Entry) { e.closing == e.opening + e.added - e.released }

  ghost predicate CallsFormed(s: State) {
    forall c :: c in s.calls && s.calls[c].Writing? ==> Formed(s.calls[c].entry)
  }

  lemma ChainedPush(start: nat, entries: seq<Entry>, e: Entry)
    requires Formed(e)
    ensures Chained(start, entries + [e]) <==> Chained(start, entries) && e.opening == Last(start, entries)
  {
    var t, n := entries + [e], |entries|;
    assert t[..n] == entries && t[n] == e;
    forall k | 0 <= k < n ensures t[k] == entries[k] && t[..k] == entries[..k] { }
    if Chained(start, t) {
      forall k | 0 <= k < n ensures Formed(entries[k]) && entries[k].opening == Last(start, entries[..k]) {
        assert t[k].opening == Last(start, t[..k]);
      }
    }
  }

  lemma {:induction false} BrokenChainStays(start: nat, s: State, steps: seq<Step>)
    requires CallsFormed(s) && !Chained(start, s.entries)
    ensures !Chained(start, Run(s, steps).entries)
    decreases |steps|
  {
    if steps != [] {
      StepChains(start, s, steps[0]);
      BrokenChainStays(start, Apply(s, steps[0]), steps[1..]);
    }
  }

  /** A statement keeps the ledger a chain exactly when it inserts no entry that opens elsewhere. */
  lemma StepChains(start: nat, s: State, step: Step)
    requires CallsFormed(s)
    ensures CallsFormed(Apply(s, step))
    ensures Chained(start, Apply(s, step).entries) <==> Chained(start, s.entries) && EntryFits(start, s, step)
  {
    if step.InsertEntry? && step.c in s.calls && s.calls[step.c].Writing? {
      ChainedPush(start, s.entries, s.calls[step.c].entry);
    }
  }

  /** However calls interleave, the ledger is a chain exactly when each entry is inserted at the closing it opens at. */
  lemma {:induction false} ChainedExactly(start: nat, s: State, steps: seq<Step>)
    requires CallsFormed(s) && Chained(start, s.entries)
    ensures Chained(start, Run(s, steps).entries) <==> EntriesFit(start, s, steps)
    decreases |steps|
  {
    if steps != [] {
      StepChains(start, s, steps[0]);
      if EntryFits(start, s, steps[0]) {
        ChainedExactly(start, Apply(s, steps[0]), steps[1..]);
      } else {
        BrokenChainStays(start, Apply(s, steps[0]), steps[1..]);
      }
    }
  }

  /**
   The promise of the buffer, exactly: once all calls are done the ledger is a chain that closes at what the
   reserves have left if and only if every listing, release and entry found what it was made for.
   */
  lemma LedgerTellsTheReservesExactly(before: seq<Reserve>, steps: seq<Step>)
    requires Run(State(before, [], map[]), steps).calls == map[]
    ensures var s0, start := State(before, [], map[]), Remaining(before);
            var s := Run(s0, steps);
            (Chained(start, s.entries) && Remaining(s.reserves) == Last(start, s.entries))
            <==> (MovesFit(s0, steps) && EntriesFit(start, s0, steps))
  {
    var s0, start := State(before, [], map[]), Remaining(before);
    FundedLessSettledExactly(before, steps);
    ChainedExactly(start, s0, steps);
    if Chained(start, Run(s0, steps).entries) { ChainAddsUp(start, Run(s0, steps).entries); }
  }
}
