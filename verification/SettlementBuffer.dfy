/**
 One banker's settlement buffer: security reserves funded by its lots, released oldest first by
 settlements, and the ledger of both (apps/admin-dashboard/src/lib/dt.ts, lines 122-130 and 165-202, and
 src/app/api/v1/dt/settlements/route.ts, lines 37-72). Amounts are paise. Each statement is one step, and
 the statements of other calls may come in between.
 */
module SettlementBuffer {

  datatype Reserve = Reserve(held: nat, released: nat)
  {
    function Left(): nat { if held > released then held - released else 0 }
  }

  /** A row of settlement_buffer_ledger. */
  datatype Entry = Entry(opening: int, added: int, released: int, closing: int)

  /** What a call has found out, or has yet to write. */
  datatype Call =
    | Passed(amount: nat)                             // the settlement is within what is outstanding
    | Releasing(amount: nat, plan: seq<(nat, nat)>)   // reserves still to release from, and how much
    | Entering(added: nat, released: nat)             // about to read the last entry
    | Writing(entry: Entry)

  /** Reserves in the order they were created, entries in the order they were written, calls in flight. */
  datatype State = State(reserves: seq<Reserve>, entries: seq<Entry>, calls: map<nat, Call>)

  /** reserveRemaining. */
  function Remaining(rs: seq<Reserve>): nat {
    if rs == [] then 0 else Remaining(rs[..|rs| - 1]) + rs[|rs| - 1].Left()
  }

  function Min(a: int, b: int): int { if a < b then a else b }

  function Max(a: int, b: int): int { if a < b then b else a }

  /** addBufferEntry: opening is the last closing, or worked out from the reserves, which the caller moved already. */
  function NextEntry(rs: seq<Reserve>, entries: seq<Entry>, added: int, released: int): Entry {
    var opening := if entries == [] then Max(0, Remaining(rs) - added + released) else entries[|entries| - 1].closing;
    Entry(opening, added, released, opening + added - released)
  }

  /** What the loop makes of the reserves: each gives what it has left until the amount is found. */
  function Release(rs: seq<Reserve>, amount: int): seq<Reserve> {
    if rs == [] || amount <= 0 then rs
    else
      var take := Min(rs[0].Left(), amount);
      [rs[0].(released := rs[0].released + take)] + Release(rs[1..], amount - take)
  }

  /** The amounts the loop takes from the reserves it listed, of which the first stands at `k`. */
  function Plan(rs: seq<Reserve>, amount: int, k: nat): seq<(nat, nat)> {
    if rs == [] || amount <= 0 then []
    else
      var take := Min(rs[0].Left(), amount);
      [(k, take)] + Plan(rs[1..], amount - take, k + 1)
  }

  function Given(rs: seq<Reserve>, i: nat, take: nat): seq<Reserve> {
    if i < |rs| then rs[i := rs[i].(released := rs[i].released + take)] else rs
  }

  /** The reserves once the rest of a plan is carried out. */
  function Give(rs: seq<Reserve>, plan: seq<(nat, nat)>): seq<Reserve>
    decreases |plan|
  {
    if plan == [] then rs else Give(Given(rs, plan[0].0, plan[0].1), plan[1..])
  }

  // ── Calls nobody interrupts ─────────────────────────────────────────────────────────────────

  function FundOf(s: State, held: nat): State {
    var rs := s.reserves + [Reserve(held, 0)];
    State(rs, s.entries + [NextEntry(rs, s.entries, held, 0)], s.calls)
  }

  function SettleOf(s: State, amount: nat): State {
    if amount > Remaining(s.reserves) then s
    else
      var rs := Release(s.reserves, amount);
      State(rs, s.entries + [NextEntry(rs, s.entries, 0, amount)], s.calls)
  }

  // ── Statements ──────────────────────────────────────────────────────────────────────────────

  datatype Step =
    | InsertReserve(c: nat, held: nat)
    | CheckOutstanding(c: nat, amount: nat)
    | ListReserves(c: nat)
    | Take(c: nat)
    | ReadLast(c: nat)
    | InsertEntry(c: nat)

  predicate Starts(step: Step) { step.InsertReserve? || step.CheckOutstanding? }

  function Apply(s: State, step: Step): State {
    if Starts(step) then
      if step.c in s.calls then s
      else if step.InsertReserve? then
          State(s.reserves + [Reserve(step.held, 0)], s.entries, s.calls[step.c := Entering(step.held, 0)])
      else if step.amount > Remaining(s.reserves) then s
      else s.(calls := s.calls[step.c := Passed(step.amount)])
    else if step.c !in s.calls then s
    else Continue(s, step, s.calls[step.c])
  }

  /** The statement of a call in flight, when it is its turn. */
  function Continue(s: State, step: Step, call: Call): State
    requires step.c in s.calls && !Starts(step)
  {
    if step.ListReserves? && call.Passed? then
        s.(calls := s.calls[step.c := Releasing(call.amount, Plan(s.reserves, call.amount, 0))])
    else if step.Take? && call.Releasing? && call.plan != [] then
      s.(reserves := Given(s.reserves, call.plan[0].0, call.plan[0].1), calls := s.calls[step.c := Releasing(call.amount, call.plan[1..])])
    else if step.ReadLast? && call.Releasing? && call.plan == [] then
      s.(calls := s.calls[step.c := Writing(NextEntry(s.reserves, s.entries, 0, call.amount))])
    else if step.ReadLast? && call.Entering? then
      s.(calls := s.calls[step.c := Writing(NextEntry(s.reserves, s.entries, call.added, call.released))])
    else if step.InsertEntry? && call.Writing? then s.(entries := s.entries + [call.entry], calls := s.calls - {step.c})
    else s
  }

  function Run(s: State, steps: seq<Step>): State
    decreases |steps|
  {
    if steps == [] then s else Run(Apply(s, steps[0]), steps[1..])
  }

  /** No call starts while another is in flight. */
  predicate Serial(s: State, steps: seq<Step>)
    decreases |steps|
  {
    steps != [] ==> (Starts(steps[0]) ==> s.calls == map[]) && Serial(Apply(s, steps[0]), steps[1..])
  }

  // ── Releasing ───────────────────────────────────────────────────────────────────────────────

  lemma {:induction false} RemainingConcat(a: seq<Reserve>, b: seq<Reserve>)
    ensures Remaining(a + b) == Remaining(a) + Remaining(b)
    decreases |b|
  {
    if b == [] {
      assert a + b == a;
    } else {
      assert (a + b)[..|a + b| - 1] == a + b[..|b| - 1];
      RemainingConcat(a, b[..|b| - 1]);
    }
  }

  lemma RemainingFirst(rs: seq<Reserve>)
    requires rs != []
    ensures Remaining(rs) == rs[0].Left() + Remaining(rs[1..])
  {
    assert rs == [rs[0]] + rs[1..];
    assert [rs[0]][..0] == [];
    RemainingConcat([rs[0]], rs[1..]);
  }

  /** Releasing takes exactly the amount from what is left, when there is as much. */
  lemma {:induction false} ReleaseTakesExactly(rs: seq<Reserve>, amount: nat)
    requires amount <= Remaining(rs)
    ensures |Release(rs, amount)| == |rs| && Remaining(Release(rs, amount)) == Remaining(rs) - amount
  {
    if rs != [] && amount > 0 {
      var take := Min(rs[0].Left(), amount);
      var t := Release(rs, amount);
      RemainingFirst(rs);
      ReleaseTakesExactly(rs[1..], amount - take);
      assert t[1..] == Release(rs[1..], amount - take);
      RemainingFirst(t);
    }
  }

  ghost predicate Within(rs: seq<Reserve>) { forall i :: 0 <= i < |rs| ==> rs[i].released <= rs[i].held }

  /** A reserve is touched only once every older one is used up. */
  ghost predicate OldestFirst(rs: seq<Reserve>) {
    forall i, j :: 0 <= i < j < |rs| && rs[j].released > 0 ==> rs[i].released == rs[i].held
  }

  /** Releasing stays within what is held and keeps the oldest first. */
  lemma {:induction false} ReleaseKeepsOrder(rs: seq<Reserve>, amount: int)
    requires Within(rs) && OldestFirst(rs)
    ensures var t := Release(rs, amount);
            && |t| == |rs| && Within(t) && OldestFirst(t)
            && forall i :: 0 <= i < |rs| ==> t[i].held == rs[i].held && t[i].released >= rs[i].released
  {
    if rs != [] && amount > 0 {
      assert Within(rs[1..]) && OldestFirst(rs[1..]);
      var take := Min(rs[0].Left(), amount);
      ReleaseKeepsOrder(rs[1..], amount - take);
    }
  }

  lemma GiveFirst(rs: seq<Reserve>, i: nat, take: nat, rest: seq<(nat, nat)>)
    ensures Give(rs, [(i, take)] + rest) == Give(Given(rs, i, take), rest)
  {
    assert ([(i, take)] + rest)[1..] == rest;
  }

  /** What taking from the reserve at hand makes of the list. */
  lemma GivenAt(before: seq<Reserve>, rs: seq<Reserve>, take: nat)
    requires rs != []
    ensures Given(before + rs, |before|, take) == (before + [rs[0].(released := rs[0].released + take)]) + rs[1..]
  {
  }

  lemma JoinThree(a: seq<Reserve>, r: Reserve, b: seq<Reserve>)
    ensures (a + [r]) + b == a + ([r] + b)
  {
  }

  /** The plan's first take, and the plan of the rest. */
  lemma PlanFirst(rs: seq<Reserve>, amount: int, k: nat)
    requires rs != [] && amount > 0
    ensures var take := Min(rs[0].Left(), amount);
            && take >= 0 && Plan(rs, amount, k) == [(k, take)] + Plan(rs[1..], amount - take, k + 1)
            && Release(rs, amount) == [rs[0].(released := rs[0].released + take)] + Release(rs[1..], amount - take)
  {
  }

  /** Carrying out the plan made from the reserves as they are releases the amount from them. */
  lemma {:induction false} PlanReleases(before: seq<Reserve>, rs: seq<Reserve>, amount: int)
    ensures Give(before + rs, Plan(rs, amount, |before|)) == before + Release(rs, amount)
    decreases |rs|
  {
    if rs != [] && amount > 0 {
      var take := Min(rs[0].Left(), amount);
      var r := rs[0].(released := rs[0].released + take);
      PlanFirst(rs, amount, |before|);
      GiveFirst(before + rs, |before|, take, Plan(rs[1..], amount - take, |before| + 1));
      GivenAt(before, rs, take);
      PlanReleases(before + [r], rs[1..], amount - take);
      JoinThree(before, r, Release(rs[1..], amount - take));
    }
  }

  lemma PlanReleasesAll(rs: seq<Reserve>, amount: int)
    ensures Give(rs, Plan(rs, amount, 0)) == Release(rs, amount)
  {
    PlanReleases([], rs, amount);
    assert [] + rs == rs && [] + Release(rs, amount) == Release(rs, amount);
  }

  // ── What serial calls keep ──────────────────────────────────────────────────────────────────

  /** The last closing; what was outstanding at first while there is no entry. */
  function Last(start: nat, entries: seq<Entry>): int {
    if entries == [] then start else entries[|entries| - 1].closing
  }

  /** Each entry opens where the one before closed, the first at what was outstanding then. */
  ghost predicate Chained(start: nat, entries: seq<Entry>) {
    && (forall k :: 0 <= k < |entries| ==> entries[k].closing == entries[k].opening + entries[k].added - entries[k].released)
    && (forall k :: 0 <= k < |entries| ==> entries[k].opening == Last(start, entries[..k]))
  }

  /** What the reserves will have left, once the call in flight has moved them, is what the ledger will say. */
  ghost predicate Agrees(start: nat, s: State, call: Call) {
    match call
    case Passed(amount) => Sound(s.reserves) && Remaining(s.reserves) == Last(start, s.entries)
        && amount <= Remaining(s.reserves)
    case Releasing(amount, plan) => Sound(Give(s.reserves, plan))
        && Remaining(Give(s.reserves, plan)) == Last(start, s.entries) - amount
    case Entering(added, released) => Sound(s.reserves)
        && Remaining(s.reserves) == Last(start, s.entries) + added - released
    case Writing(e) =>
      && Sound(s.reserves) && e.opening == Last(start, s.entries)
      && e.closing == e.opening + e.added - e.released == Remaining(s.reserves)
  }

  ghost predicate Sound(rs: seq<Reserve>) { Within(rs) && OldestFirst(rs) }

  ghost predicate Inv(start: nat, s: State) {
    && Chained(start, s.entries)
    && (s.calls == map[] ==> Sound(s.reserves) && Remaining(s.reserves) == Last(start, s.entries))
    && (forall c :: c in s.calls ==> s.calls.Keys == {c} && Agrees(start, s, s.calls[c]))
  }

  lemma RemainingPush(rs: seq<Reserve>, r: Reserve)
    ensures Remaining(rs + [r]) == Remaining(rs) + r.Left()
  {
    assert (rs + [r])[..|rs|] == rs;
  }

  lemma NewReserveIsSound(rs: seq<Reserve>, held: nat)
    requires Sound(rs)
    ensures Sound(rs + [Reserve(held, 0)])
  {
  }

  lemma FundingAgrees(start: nat, rs: seq<Reserve>, entries: seq<Entry>, held: nat)
    requires Sound(rs) && Remaining(rs) == Last(start, entries)
    ensures var more := rs + [Reserve(held, 0)];
            Sound(more) && Remaining(more) == Last(start, entries) + held
  {
    RemainingPush(rs, Reserve(held, 0));
    NewReserveIsSound(rs, held);
  }

  lemma OneInFlight(start: nat, t: State, c: nat, call: Call)
    requires Chained(start, t.entries) && t.calls == map[c := call] && Agrees(start, t, call)
    ensures Inv(start, t)
  {
    assert t.calls.Keys == {c} && t.calls[c] == call;
  }

  lemma InsertKeeps(start: nat, s: State, c: nat, held: nat)
    requires Inv(start, s) && s.calls == map[]
    ensures Inv(start, State(s.reserves + [Reserve(held, 0)], s.entries, map[c := Entering(held, 0)]))
  {
    var t := State(s.reserves + [Reserve(held, 0)], s.entries, map[c := Entering(held, 0)]);
    FundingAgrees(start, s.reserves, s.entries, held);
    OneInFlight(start, t, c, Entering(held, 0));
  }

  lemma CheckKeeps(start: nat, s: State, c: nat, amount: nat)
    requires Inv(start, s) && s.calls == map[] && amount <= Remaining(s.reserves)
    ensures Inv(start, s.(calls := map[c := Passed(amount)]))
  {
  }

  lemma StartKeeps(start: nat, s: State, step: Step)
    requires Inv(start, s) && Starts(step) && s.calls == map[]
    ensures Inv(start, Apply(s, step))
  {
    if step.InsertReserve? {
      InsertKeeps(start, s, step.c, step.held);
      assert s.calls[step.c := Entering(step.held, 0)] == map[step.c := Entering(step.held, 0)];
    } else if step.amount <= Remaining(s.reserves) {
      CheckKeeps(start, s, step.c, step.amount);
      assert s.calls[step.c := Passed(step.amount)] == map[step.c := Passed(step.amount)];
    }
  }

  /** The plan a settlement makes when nobody interrupts leaves the reserves as the ledger will say. */
  lemma ListAgrees(start: nat, s: State, amount: nat)
    requires Agrees(start, s, Passed(amount))
    ensures Agrees(start, s, Releasing(amount, Plan(s.reserves, amount, 0)))
  {
    PlanReleasesAll(s.reserves, amount);
    ReleaseTakesExactly(s.reserves, amount);
    ReleaseKeepsOrder(s.reserves, amount);
  }

  /** A turn of the one call in flight. */
  lemma TurnAgrees(start: nat, s: State, step: Step)
    requires !Starts(step) && step.c in s.calls && !step.InsertEntry? && Agrees(start, s, s.calls[step.c])
    ensures var t := Apply(s, step);
            step.c in t.calls && t.calls.Keys == s.calls.Keys && t.entries == s.entries
                && Agrees(start, t, t.calls[step.c])
  {
    var t, call := Apply(s, step), s.calls[step.c];
    if step.ListReserves? && call.Passed? {
      ListAgrees(start, s, call.amount);
      assert t.reserves == s.reserves && t.calls[step.c] == Releasing(call.amount, Plan(s.reserves, call.amount, 0));
    }
  }

  lemma EntryKeeps(start: nat, s: State, c: nat)
    requires Inv(start, s) && c in s.calls && s.calls[c].Writing?
    ensures Inv(start, Apply(s, InsertEntry(c)))
  {
    var t, n := Apply(s, InsertEntry(c)), |s.entries|;
    assert s.calls.Keys == {c} && Agrees(start, s, s.calls[c]);
    assert t.calls.Keys == {};
    assert t.entries[..n] == s.entries;
    forall k | 0 <= k < n ensures t.entries[..k] == s.entries[..k] && t.entries[k] == s.entries[k] { }
  }

  lemma StepKeeps(start: nat, s: State, step: Step)
    requires Inv(start, s) && (Starts(step) ==> s.calls == map[])
    ensures Inv(start, Apply(s, step))
  {
    if Starts(step) {
      StartKeeps(start, s, step);
    } else if step.c in s.calls {
      if step.InsertEntry? {
        if s.calls[step.c].Writing? { EntryKeeps(start, s, step.c); }
      } else {
        TurnAgrees(start, s, step);
      }
    }
  }

  lemma {:induction false} SerialKeeps(start: nat, s: State, steps: seq<Step>)
    requires Inv(start, s) && Serial(s, steps)
    ensures Inv(start, Run(s, steps))
    decreases |steps|
  {
    if steps != [] {
      StepKeeps(start, s, steps[0]);
      SerialKeeps(start, Apply(s, steps[0]), steps[1..]);
    }
  }

  /** All that entries add, and all they release. */
  function Added(entries: seq<Entry>): int {
    if entries == [] then 0 else Added(entries[..|entries| - 1]) + entries[|entries| - 1].added
  }

  function Settled(entries: seq<Entry>): int {
    if entries == [] then 0 else Settled(entries[..|entries| - 1]) + entries[|entries| - 1].released
  }

  lemma {:induction false} ChainAddsUp(start: nat, entries: seq<Entry>)
    requires Chained(start, entries)
    ensures Last(start, entries) == start + Added(entries) - Settled(entries)
    decreases |entries|
  {
    if entries != [] {
      var init := entries[..|entries| - 1];
      forall k | 0 <= k < |init| ensures init[..k] == entries[..k] { }
      ChainAddsUp(start, init);
    }
  }

  /**
   "Outstanding buffer = total funded less settlements released": after any run of calls one at a time, on any lots
   there before the ledger was, the last closing, what the reserves have left and the balance of all entries agree.
   */
  lemma OutstandingIsFundedLessSettled(before: seq<Reserve>, steps: seq<Step>)
    requires Within(before) && OldestFirst(before) && Serial(State(before, [], map[]), steps)
    requires Run(State(before, [], map[]), steps).calls == map[]
    ensures var s, start := Run(State(before, [], map[]), steps), Remaining(before);
            && Remaining(s.reserves) == Last(start, s.entries) == start + Added(s.entries) - Settled(s.entries)
            && Chained(start, s.entries) && Within(s.reserves) && OldestFirst(s.reserves)
  {
    SerialKeeps(Remaining(before), State(before, [], map[]), steps);
    ChainAddsUp(Remaining(before), Run(State(before, [], map[]), steps).entries);
  }

  /** The ledger's first opening is what was outstanding before its first entry, though it is worked out after. */
  lemma FirstOpeningIsOutstanding(before: seq<Reserve>, steps: seq<Step>)
    requires Within(before) && OldestFirst(before) && Serial(State(before, [], map[]), steps)
    requires Run(State(before, [], map[]), steps).entries != []
    ensures Run(State(before, [], map[]), steps).entries[0].opening == Remaining(before)
  {
    SerialKeeps(Remaining(before), State(before, [], map[]), steps);
    assert Run(State(before, [], map[]), steps).entries[..0] == [];
  }

  // ── A call one statement after the other ────────────────────────────────────────────────────

  lemma RunOne(s: State, step: Step, rest: seq<Step>)
    ensures Run(s, [step] + rest) == Run(Apply(s, step), rest)
  {
    assert ([step] + rest)[1..] == rest;
  }

  /** The releases of a call, one for each reserve of its plan. */
  function Takes(c: nat, n: nat): seq<Step> { if n == 0 then [] else [Take(c)] + Takes(c, n - 1) }

  lemma {:induction false} TakesGive(s: State, c: nat, amount: nat, plan: seq<(nat, nat)>, rest: seq<Step>)
    requires c in s.calls && s.calls[c] == Releasing(amount, plan)
    ensures Run(s, Takes(c, |plan|) + rest)
            == Run(State(Give(s.reserves, plan), s.entries, s.calls[c := Releasing(amount, [])]), rest)
    decreases |plan|
  {
    if plan == [] {
      assert [] + rest == rest && s.calls[c := Releasing(amount, [])] == s.calls;
    } else {
      var t := Apply(s, Take(c));
      assert Takes(c, |plan|) + rest == [Take(c)] + (Takes(c, |plan| - 1) + rest);
      RunOne(s, Take(c), Takes(c, |plan| - 1) + rest);
      TakesGive(t, c, amount, plan[1..], rest);
      assert t.calls[c := Releasing(amount, [])] == s.calls[c := Releasing(amount, [])];
    }
  }

  lemma PlansAlone(s: State, c: nat, amount: nat, rest: seq<Step>)
    requires c !in s.calls && amount <= Remaining(s.reserves)
    ensures Run(s, [CheckOutstanding(c, amount)] + ([ListReserves(c)] + rest))
            == Run(s.(calls := s.calls[c := Releasing(amount, Plan(s.reserves, amount, 0))]), rest)
  {
    var s1 := Apply(s, CheckOutstanding(c, amount));
    RunOne(s, CheckOutstanding(c, amount), [ListReserves(c)] + rest);
    RunOne(s1, ListReserves(c), rest);
    assert Apply(s1, ListReserves(c)) == s.(calls := s.calls[c := Releasing(amount, Plan(s.reserves, amount, 0))]);
  }

  /** A settlement within what is outstanding, nobody interrupting, is one change: released and entered. */
  lemma SettleIsItsStatements(s: State, c: nat, amount: nat)
    requires c !in s.calls && amount <= Remaining(s.reserves)
    ensures var plan := Plan(s.reserves, amount, 0);
            Run(s, [CheckOutstanding(c, amount)]
                + ([ListReserves(c)] + (Takes(c, |plan|) + ([ReadLast(c)] + ([InsertEntry(c)] + []))))) == SettleOf(s,
                    amount)
  {
    var plan, enter := Plan(s.reserves, amount, 0), [ReadLast(c)] + ([InsertEntry(c)] + []);
    PlansAlone(s, c, amount, Takes(c, |plan|) + enter);
    ReleasesAlone(s, c, amount, enter);
    var t := State(Release(s.reserves, amount), s.entries, s.calls[c := Releasing(amount, [])]);
    EntersAlone(t, c, 0, amount);
    assert t.calls - {c} == s.calls;
  }

  lemma ReleasesAlone(s: State, c: nat, amount: nat, rest: seq<Step>)
    ensures var plan := Plan(s.reserves, amount, 0);
            Run(s.(calls := s.calls[c := Releasing(amount, plan)]), Takes(c, |plan|) + rest)
            == Run(State(Release(s.reserves, amount), s.entries, s.calls[c := Releasing(amount, [])]), rest)
  {
    var plan := Plan(s.reserves, amount, 0);
    var t := s.(calls := s.calls[c := Releasing(amount, plan)]);
    TakesGive(t, c, amount, plan, rest);
    PlanReleasesAll(s.reserves, amount);
    assert t.calls[c := Releasing(amount, [])] == s.calls[c := Releasing(amount, [])];
  }

  /** The last two statements of a call, nobody interrupting. */
  lemma EntersAlone(s: State, c: nat, added: nat, released: nat)
    requires c in s.calls && (s.calls[c] == Entering(added, released) || (s.calls[c] == Releasing(released, []) && added == 0))
    ensures Run(s, [ReadLast(c)] + ([InsertEntry(c)] + []))
            == State(s.reserves, s.entries + [NextEntry(s.reserves, s.entries, added, released)], s.calls - {c})
  {
    var t := Apply(s, ReadLast(c));
    RunOne(s, ReadLast(c), [InsertEntry(c)] + []);
    RunOne(t, InsertEntry(c), []);
    assert t.calls - {c} == s.calls - {c};
  }

  lemma FundIsItsStatements(s: State, c: nat, held: nat)
    requires c !in s.calls
    ensures Run(s, [InsertReserve(c, held)] + ([ReadLast(c)] + ([InsertEntry(c)] + []))) == FundOf(s, held)
  {
    var s1 := Apply(s, InsertReserve(c, held));
    RunOne(s, InsertReserve(c, held), [ReadLast(c)] + ([InsertEntry(c)] + []));
    EntersAlone(s1, c, held, 0);
    assert s1.calls - {c} == s.calls;
  }

  /** The entry a lone call adds: it opens at the last closing, or the first at what was outstanding before the call. */
  ghost predicate Enters(s: State, t: State, added: int, released: int) {
    && |t.entries| == |s.entries| + 1 && t.entries[..|s.entries|] == s.entries
    && var e := t.entries[|s.entries|];
       && e.opening == (if s.entries == [] then Remaining(s.reserves) else s.entries[|s.entries| - 1].closing)
       && e.added == added && e.released == released && e.closing == e.opening + added - released
  }

  /**
   A lone settlement is refused exactly above what the reserves have left; otherwise they have that much less left,
   none of them takes anything back, and the ledger says so.
   */
  lemma SettlesExactly(s: State, amount: nat)
    ensures var t, left := SettleOf(s, amount), Remaining(s.reserves);
            if amount > left then t == s
            else
              && Remaining(t.reserves) == left - amount && |t.reserves| == |s.reserves| && t.calls == s.calls
              && (forall i :: 0 <= i < |s.reserves| ==>
                    t.reserves[i].held == s.reserves[i].held && t.reserves[i].released >= s.reserves[i].released)
              && Enters(s, t, 0, amount)
  {
    if amount <= Remaining(s.reserves) {
      ReleaseTakesExactly(s.reserves, amount);
      ReleaseOnlyReleases(s.reserves, amount);
    }
  }

  lemma {:induction false} ReleaseOnlyReleases(rs: seq<Reserve>, amount: int)
    ensures var t := Release(rs, amount);
            |t| == |rs| && forall i :: 0 <= i < |rs| ==> t[i].held == rs[i].held && t[i].released >= rs[i].released
  {
    if rs != [] && amount > 0 { ReleaseOnlyReleases(rs[1..], amount - Min(rs[0].Left(), amount)); }
  }

  /** A lone funding adds one reserve with all of it left, and the ledger says so. */
  lemma FundsExactly(s: State, held: nat)
    ensures var t := FundOf(s, held);
            && t.reserves == s.reserves + [Reserve(held, 0)] && t.calls == s.calls
            && Remaining(t.reserves) == Remaining(s.reserves) + held && Enters(s, t, held, 0)
  {
    RemainingPush(s.reserves, Reserve(held, 0));
  }

  // ── Where the promise stops: two settlements at once ────────────────────────────────────────

  const Hundred: State := State([Reserve(100, 0)], [Entry(0, 100, 0, 100)], map[])

  lemma HundredFunded(rest: seq<Step>)
    ensures Run(State([], [], map[]), [InsertReserve(1, 100)] + ([ReadLast(1)] + ([InsertEntry(1)] + rest)))
            == Run(Hundred, rest)
  {
    var s0 := State([], [], map[]);
    var s1 := Apply(s0, InsertReserve(1, 100));
    assert s1.reserves == [Reserve(100, 0)] && s1.reserves[..0] == [];
    var s2 := Apply(s1, ReadLast(1));
    assert Apply(s2, InsertEntry(1)) == Hundred;
    RunOne(s0, InsertReserve(1, 100), [ReadLast(1)] + ([InsertEntry(1)] + rest));
    RunOne(s1, ReadLast(1), [InsertEntry(1)] + rest);
    RunOne(s2, InsertEntry(1), rest);
  }

  const ThreeFunded: seq<Reserve> := [Reserve(100, 0), Reserve(100, 0), Reserve(100, 0)]
  const BothFunded: State := State(ThreeFunded, Hundred.entries, map[1 := Entering(100, 0), 2 := Entering(100, 0)])
  const Second: Entry := Entry(100, 100, 0, 200)
  const BothAlike: State := BothFunded.(calls := map[1 := Writing(Second), 2 := Writing(Second)])

  lemma BothFund(rest: seq<Step>)
    ensures Run(Hundred, [InsertReserve(1, 100)] + ([InsertReserve(2, 100)] + rest)) == Run(BothFunded, rest)
  {
    var t := Apply(Hundred, InsertReserve(1, 100));
    RunOne(Hundred, InsertReserve(1, 100), [InsertReserve(2, 100)] + rest);
    RunOne(t, InsertReserve(2, 100), rest);
    assert Apply(t, InsertReserve(2, 100)) == BothFunded;
  }

  lemma BothRead(rest: seq<Step>)
    ensures Run(BothFunded, [ReadLast(1)] + ([ReadLast(2)] + rest)) == Run(BothAlike, rest)
  {
    var t := Apply(BothFunded, ReadLast(1));
    RunOne(BothFunded, ReadLast(1), [ReadLast(2)] + rest);
    RunOne(t, ReadLast(2), rest);
    assert Apply(t, ReadLast(2)) == BothAlike;
  }

  lemma BothEnter()
    ensures Run(BothAlike, [InsertEntry(1)] + ([InsertEntry(2)] + []))
            == State(ThreeFunded, Hundred.entries + [Second] + [Second], map[])
  {
    var t := Apply(BothAlike, InsertEntry(1));
    RunOne(BothAlike, InsertEntry(1), [InsertEntry(2)] + []);
    RunOne(t, InsertEntry(2), []);
    assert Apply(t, InsertEntry(2)).calls == map[];
  }

  /** Two fundings of 100 at once open at one closing: the reserves gain 200, the ledger 100. */
  lemma TwoFundingsOpenAlike() returns (steps: seq<Step>)
    ensures var s := Run(State([], [], map[]), steps);
            s.calls == map[] && Remaining(s.reserves) == 300 && s.entries != [] && Last(0, s.entries) == 200
  {
    var insert := [InsertEntry(1)] + ([InsertEntry(2)] + []);
    var read := [ReadLast(1)] + ([ReadLast(2)] + insert);
    var fund := [InsertReserve(1, 100)] + ([InsertReserve(2, 100)] + read);
    steps := [InsertReserve(1, 100)] + ([ReadLast(1)] + ([InsertEntry(1)] + fund));
    HundredFunded(fund);
    BothFund(read);
    BothRead(insert);
    BothEnter();
    assert ThreeFunded[..2] == [Reserve(100, 0), Reserve(100, 0)] && ThreeFunded[..2][..1] == [Reserve(100, 0)];
    assert ThreeFunded[..2][..1][..0] == [];
  }

  const BothPlanned: State := Hundred.(calls := map[1 := Releasing(100, [(0, 100)]), 2 := Releasing(100, [(0, 100)])])

  lemma BothPass()
    ensures Apply(Apply(Apply(Apply(Hundred, CheckOutstanding(1, 100)), CheckOutstanding(2, 100)), ListReserves(1)),
            ListReserves(2)) == BothPlanned
  {
    assert Hundred.reserves[..0] == [] && Remaining(Hundred.reserves) == 100;
    assert Plan(Hundred.reserves, 100, 0) == [(0, 100)];
  }

  lemma BothTake()
    ensures Run(BothPlanned, [Take(1)] + ([Take(2)] + [])).reserves == [Reserve(100, 200)]
  {
    var s1 := Apply(BothPlanned, Take(1));
    assert s1.reserves == [Reserve(100, 100)] && s1.calls[2] == BothPlanned.calls[2];
    RunOne(BothPlanned, Take(1), [Take(2)] + []);
    RunOne(s1, Take(2), []);
  }

  lemma BothPlan(rest: seq<Step>)
    ensures Run(Hundred, [CheckOutstanding(1, 100)]
            + ([CheckOutstanding(2, 100)] + ([ListReserves(1)] + ([ListReserves(2)] + rest)))) == Run(BothPlanned, rest)
  {
    var s1 := Apply(Hundred, CheckOutstanding(1, 100));
    var s2 := Apply(s1, CheckOutstanding(2, 100));
    var s3 := Apply(s2, ListReserves(1));
    BothPass();
    RunOne(s3, ListReserves(2), rest);
    RunOne(s2, ListReserves(1), [ListReserves(2)] + rest);
    RunOne(s1, CheckOutstanding(2, 100), [ListReserves(1)] + ([ListReserves(2)] + rest));
    RunOne(Hundred, CheckOutstanding(1, 100), [CheckOutstanding(2, 100)] + ([ListReserves(1)] + ([ListReserves(2)] + rest)));
  }

  /** Two settlements of all that is left that both pass the check release it twice. */
  lemma TwoSettlementsReleaseTwice() returns (steps: seq<Step>)
    ensures var s := Run(State([], [], map[]), steps); s.reserves == [Reserve(100, 200)] && !Within(s.reserves)
  {
    var takes := [Take(1)] + ([Take(2)] + []);
    var race := [CheckOutstanding(1, 100)]
      + ([CheckOutstanding(2, 100)] + ([ListReserves(1)] + ([ListReserves(2)] + takes)));
    steps := [InsertReserve(1, 100)] + ([ReadLast(1)] + ([InsertEntry(1)] + race));
    HundredFunded(race);
    BothPlan(takes);
    BothTake();
    var s := Run(State([], [], map[]), steps);
    assert s.reserves[0].released > s.reserves[0].held;
  }

  // ── The tables ──────────────────────────────────────────────────────────────────────────────

  /** One turn of the loop moves a reserve from those to come to those done. */
  lemma ReleaseOne(done: seq<Reserve>, rest: seq<Reserve>, left: nat)
    requires rest != [] && left > 0
    ensures var take := Min(rest[0].Left(), left); var r := rest[0].(released := rest[0].released + take);
            && done + Release(rest, left) == done + [r] + Release(rest[1..], left - take)
            && (done + rest)[|done| := r] == done + [r] + rest[1..]
  {
  }

  class Buffer {
    var reserves: seq<Reserve>
    var entries: seq<Entry>

    function View(): State
      reads this
    {
      State(reserves, entries, map[])
    }

    constructor (before: seq<Reserve>)
      ensures View() == State(before, [], map[])
    {
      reserves, entries := before, [];
    }

    method AddBufferEntry(added: int, released: int) returns (opening: int, closing: int)
      modifies this`entries
      ensures entries == old(entries) + [NextEntry(reserves, old(entries), added, released)]
      ensures opening == entries[|entries| - 1].opening && closing == entries[|entries| - 1].closing
    {
      opening := if entries != [] then entries[|entries| - 1].closing
        else Max(0, Remaining(reserves) - added + released);
      closing := opening + added - released;
      entries := entries + [Entry(opening, added, released, closing)];
    }

    /** A confirmed purchase, or a verified refill, nobody interrupting. */
    method Fund(held: nat)
      modifies this
      ensures View() == FundOf(old(View()), held)
    {
      reserves := reserves + [Reserve(held, 0)];
      var _, _ := AddBufferEntry(held, 0);
    }

    /** The loop over the reserves, oldest first, partials allowed. */
    method ReleaseFifo(amount: nat)
      modifies this`reserves
      ensures reserves == Release(old(reserves), amount)
    {
      var left, i := amount, 0;
      ghost var done, rest := [], reserves;
      while i < |reserves| && left > 0
        invariant i == |done| <= |reserves| && left >= 0 && reserves == done + rest
        invariant done + Release(rest, left) == Release(old(reserves), amount)
        decreases |rest|
      {
        ReleaseOne(done, rest, left);
        var r := reserves[i];
        var take := Min(r.Left(), left);
        reserves := reserves[i := r.(released := r.released + take)];
        done, rest := done + [r.(released := r.released + take)], rest[1..];
        left, i := left - take, i + 1;
      }
    }

    /** A settlement nobody interrupts: refused above what is outstanding, else released from reserve after reserve. */
    method Settle(amount: nat) returns (ok: bool)
      modifies this
      ensures View() == SettleOf(old(View()), amount)
      ensures ok <==> amount <= Remaining(old(reserves))
    {
      if amount > Remaining(reserves) { return false; }
      ReleaseFifo(amount);
      var _, _ := AddBufferEntry(0, amount);
      return true;
    }
  }
}
