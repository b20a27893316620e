/**
 Confirmation of Katana pay-ins (apps/admin-dashboard/src/lib/katana-order.ts, lines 744-849) as an
 interleaving of many callers with the expiry sweep. One turn of a call is one SQL statement with
 the decisions taken on its answer: the read with the final-status lock, the duplicate-UTR look-up,
 and the guarded UPDATE, which the unique index on live paid references (vendorGateway 0035) may
 refuse.
 */
module PayinConfirmation {
  import opened Options

  datatype Status = Pending | Expired | Failed | Success | Succeeded
  {
    predicate Terminal() { !Pending? }
    predicate Paid() { Success? || Succeeded? }
    /** How far along an order is; the order of the protocol's promise. */
    function Rank(): nat { if Pending? then 0 else if Paid() then 2 else 1 }
  }

  /** What a confirmation says happened; SUCCESS or FAILED. */
  datatype Outcome = Captured | Declined
  {
    function Status(): Status { if Captured? then Success else Failed }
  }

  datatype Order = Order(ref: string, merchant: Option<string>, livemode: bool, status: Status, rrn: Option<string>)

  /** The order a confirmation names: by its id, or by a reference the caller may scope to a merchant. */
  datatype Target = ById(id: nat) | ByRef(ref: string, merchant: Option<string>) | NoKey

  /** `utr` is trimmed, "" when there is none. */
  datatype Input = Input(target: Target, livemode: Option<bool>, outcome: Outcome, utr: string)

  /** `order` is the row the call's last read returned. */
  datatype Answer =
    | KeyRequired | NotFound | Ambiguous | ModeMismatch
    | Replay(order: nat, status: Status)        // 200, idempotent: the order already is what the call asked for
    | AlreadyFinal(order: nat, status: Status)  // 409
    | DuplicateUtr                              // 409
    | Changed(order: nat)                       // 409, "order changed while it was being confirmed"
    | Confirmed                                 // 200

  datatype Phase =
    | Reading                         // about to read the order
    | Checking(id: nat, seen: Status) // passed the final-status lock on the status it saw
    | Writing(id: nat, seen: Status)  // no duplicate UTR was seen
    | Done(answer: Answer)

  datatype Call = Call(input: Input, retried: bool, phase: Phase)

  /** A status callback sent by a confirmation. */
  datatype Callback = Callback(order: nat, outcome: Outcome, call: nat)

  datatype State = State(orders: map<nat, Order>, calls: map<nat, Call>, callbacks: seq<Callback>)

  datatype Step =
    | Create(id: nat, ref: string, merchant: Option<string>, livemode: bool)
    | Arrive(call: nat, input: Input)
    | Turn(call: nat)
    | Sweep(id: nat, to: Status)

  // ── The three statements of a call ──────────────────────────────────────────────────────────

  /** The rows the first SELECT of a call returns. */
  function Matches(orders: map<nat, Order>, i: Input): set<nat> {
    match i.target
    case NoKey => {}
    case ById(id) => if id in orders then {id} else {}
    case ByRef(ref, merchant) =>
      set id | id in orders && orders[id].ref == ref
               && (merchant.None? || orders[id].merchant == merchant)
               && (i.livemode.None? || orders[id].livemode == i.livemode.value)
  }

  /** A declined or expired order that a real payment brings back. */
  predicate Reviving(s: Status, o: Outcome) {
    (s.Expired? || s.Failed?) && o.Captured?
  }

  /** What the call does with the one row it read. */
  function AfterRead(i: Input, id: nat, o: Order): Phase {
    if i.livemode.Some? && o.livemode != i.livemode.value then Done(ModeMismatch)
    else if o.status.Terminal() && !Reviving(o.status, i.outcome) then
      if o.status == i.outcome.Status() then Done(Replay(id, o.status)) else Done(AlreadyFinal(id, o.status))
    else Checking(id, o.status)
  }

  ghost function ReadPhase(orders: map<nat, Order>, i: Input): Phase {
    var found := Matches(orders, i);
    if i.target.NoKey? then Done(KeyRequired)
    else if |found| == 0 then Done(NotFound)
    else if |found| > 1 then Done(Ambiguous)
    else var id :| id in found; AfterRead(i, id, orders[id])
  }

  /** The look-up for another order of the same mode carrying the reference. */
  predicate UtrUsedElsewhere(orders: map<nat, Order>, id: nat, utr: string)
    requires id in orders
  {
    exists other :: other in orders && other != id && orders[other].rrn == Some(utr)
                    && orders[other].livemode == orders[id].livemode
  }

  /** The reference the UPDATE stores; `gen` is the generator used when the caller has none. */
  function NewRrn(gen: nat -> string, i: Input, id: nat, o: Order): Option<string> {
    if i.outcome.Captured? then Some(if i.utr != "" then i.utr else gen(id)) else o.rrn
  }

  /** Whether the unique index on live paid references refuses storing `o` at `id`. */
  predicate IndexRefuses(orders: map<nat, Order>, id: nat, o: Order) {
    Indexed(o) && exists other :: other in orders && other != id && Indexed(orders[other]) && orders[other].rrn == o.rrn
  }

  predicate Indexed(o: Order) {
    o.livemode && o.rrn.Some? && o.rrn.value != "" && o.status.Paid()
  }

  // ── Steps ───────────────────────────────────────────────────────────────────────────────────

  /** A turn of a call: how the call goes on, and the row it writes when it commits. */
  datatype Move = Move(call: Call, write: Option<(nat, Order)>)

  ghost function MoveOf(gen: nat -> string, orders: map<nat, Order>, call: Call): Move {
    match call.phase
    case Reading => Move(call.(phase := ReadPhase(orders, call.input)), None)
    case Checking(id, seen) =>
      if id !in orders then Move(call, None)
      else if call.input.outcome.Captured? && call.input.utr != "" && UtrUsedElsewhere(orders, id, call.input.utr)
      then Move(call.(phase := Done(DuplicateUtr)), None)
      else Move(call.(phase := Writing(id, seen)), None)
    case Writing(id, seen) =>
      if id !in orders then Move(call, None)
      else if orders[id].status != seen then
        Move(if call.retried then call.(phase := Done(Changed(id))) else call.(retried := true, phase := Reading), None)
      else
        var row := orders[id].(status := call.input.outcome.Status(), rrn := NewRrn(gen, call.input, id, orders[id]));
        if IndexRefuses(orders, id, row) then Move(call.(phase := Done(DuplicateUtr)), None)
        else Move(call.(phase := Done(Confirmed)), Some((id, row)))
    case Done(_) => Move(call, None)
  }

  /** A committed write sends the order's callback. An answered call has no turn left. */
  ghost function TurnOf(gen: nat -> string, s: State, c: nat): State
    requires c in s.calls
  {
    var m := MoveOf(gen, s.orders, s.calls[c]);
    var calls := s.calls[c := m.call];
    match m.write
    case None => s.(calls := calls)
    case Some((id, row)) => State(s.orders[id := row], calls, s.callbacks + [Callback(id, m.call.input.outcome, c)])
  }

  /** The sweep and the status reads resolve an order that is not final: a live one only to EXPIRED. */
  function SweepOf(gen: nat -> string, s: State, id: nat, to: Status): State {
    if id in s.orders && !s.orders[id].status.Terminal() && to.Terminal() && !to.Succeeded?
       && (s.orders[id].livemode ==> to == Expired)
    then s.(orders := s.orders[id := s.orders[id].(status := to, rrn := if to == Success then Some(gen(id)) else s.orders[id].rrn)])
    else s
  }

  ghost function Apply(gen: nat -> string, s: State, step: Step): State {
    match step
    case Create(id, ref, merchant, live) =>
      if id in s.orders then s else s.(orders := s.orders[id := Order(ref, merchant, live, Pending, None)])
    case Arrive(c, i) => if c in s.calls then s else s.(calls := s.calls[c := Call(i, false, Reading)])
    case Turn(c) => if c in s.calls then TurnOf(gen, s, c) else s
    case Sweep(id, to) => SweepOf(gen, s, id, to)
  }

  /** Any interleaving of callers, sweeps and new orders. */
  ghost function Run(gen: nat -> string, s: State, steps: seq<Step>): State
    decreases |steps|
  {
    if steps == [] then s else Run(gen, Apply(gen, s, steps[0]), steps[1..])
  }

  // ── What every state keeps ──────────────────────────────────────────────────────────────────

  ghost predicate LiveReferencesUnique(orders: map<nat, Order>) {
    forall a, b :: a in orders && b in orders && a != b && Indexed(orders[a]) && Indexed(orders[b])
                   ==> orders[a].rrn != orders[b].rrn
  }

  /** The outcomes confirmed on one order, in commit order. */
  function Confirmations(cbs: seq<Callback>, id: nat): seq<Outcome> {
    if cbs == [] then []
    else Confirmations(cbs[..|cbs| - 1], id) +
         (if cbs[|cbs| - 1].order == id then [cbs[|cbs| - 1].outcome] else [])
  }

  /** The confirmation history an order of this status can have. */
  predicate HistoryFits(h: seq<Outcome>, s: Status) {
    || h == []
    || (h == [Declined] && s == Failed)
    || (h == [Captured] && s == Success)
    || (h == [Declined, Captured] && s == Success)
  }

  /** What a call in flight knows about the order it saw. */
  ghost predicate Consistent(orders: map<nat, Order>, call: Call) {
    match call.phase
    case Reading =>
      call.retried ==> exists id :: id in Matches(orders, call.input) && orders[id].status.Rank() >= 1
    case Checking(id, seen) => Holds(orders, call, id, seen)
    case Writing(id, seen) => Holds(orders, call, id, seen)
    case Done(answer) =>
      && (answer.Changed? ==> call.input.outcome.Captured?
                              && answer.order in Matches(orders, call.input) && orders[answer.order].status.Paid())
      && (answer.Replay? ==> answer.status == call.input.outcome.Status() && answer.order in Matches(orders, call.input)
                             && (answer.status.Paid() ==> orders[answer.order].status == answer.status))
      && (answer.AlreadyFinal? ==> answer.status.Terminal() && !Reviving(answer.status, call.input.outcome)
                                   && answer.status != call.input.outcome.Status()
                                      && answer.order in Matches(orders, call.input)
                                   && (answer.status.Paid() ==> orders[answer.order].status == answer.status))
  }

  ghost predicate Holds(orders: map<nat, Order>, call: Call, id: nat, seen: Status) {
    && id in Matches(orders, call.input)
    && (call.input.livemode.Some? ==> orders[id].livemode == call.input.livemode.value)
    && (seen.Pending? || Reviving(seen, call.input.outcome))
    && (call.retried ==> !seen.Pending?)
    && (orders[id].status == seen || orders[id].status.Rank() > seen.Rank())
  }

  ghost predicate CallsConsistent(s: State) {
    forall c :: c in s.calls ==> Consistent(s.orders, s.calls[c])
  }

  /** Callbacks and calls answered Confirmed are the same thing, one for one. */
  ghost predicate OneCallbackPerConfirmation(s: State) {
    && (forall k :: 0 <= k < |s.callbacks| ==>
          (&& s.callbacks[k].call in s.calls
           && s.calls[s.callbacks[k].call].phase == Done(Confirmed)
           && s.callbacks[k].outcome == s.calls[s.callbacks[k].call].input.outcome))
    && (forall j, k :: 0 <= j < k < |s.callbacks| ==> s.callbacks[j].call != s.callbacks[k].call)
    && (forall c :: c in s.calls && s.calls[c].phase == Done(Confirmed) ==>
          exists k :: 0 <= k < |s.callbacks| && s.callbacks[k].call == c)
  }

  /** The order asked for: by its id, or its reference and the merchant if one is given; of the mode if one is. */
  ghost predicate AskedFor(i: Input, id: nat, o: Order) {
    && !i.target.NoKey?
    && (i.target.ById? ==> id == i.target.id)
    && (i.target.ByRef? ==> o.ref == i.target.ref && (i.target.merchant.Some? ==> o.merchant == i.target.merchant))
    && (i.livemode.Some? ==> o.livemode == i.livemode.value)
  }

  ghost predicate CallbacksAskedFor(s: State) {
    forall k :: 0 <= k < |s.callbacks| ==>
      && s.callbacks[k].call in s.calls && s.callbacks[k].order in s.orders
      && AskedFor(s.calls[s.callbacks[k].call].input, s.callbacks[k].order, s.orders[s.callbacks[k].order])
  }

  ghost predicate HistoriesFit(s: State) {
    && (forall k :: 0 <= k < |s.callbacks| ==> s.callbacks[k].order in s.orders)
    && (forall id :: id in s.orders ==> HistoryFits(Confirmations(s.callbacks, id), s.orders[id].status))
  }

  ghost predicate Inv(s: State) {
    && LiveReferencesUnique(s.orders) && CallsConsistent(s) && HistoriesFit(s)
    && OneCallbackPerConfirmation(s) && CallbacksAskedFor(s)
  }

  /** No calls yet; orders of any status, the index in force. */
  ghost predicate Init(s: State) {
    s.calls == map[] && s.callbacks == [] && LiveReferencesUnique(s.orders)
  }

  /** What one step may do to the orders: keep them, add new ones, move a status up and only up. */
  ghost predicate Climbs(a: map<nat, Order>, b: map<nat, Order>) {
    forall id :: id in a ==>
      && id in b && b[id].ref == a[id].ref && b[id].merchant == a[id].merchant && b[id].livemode == a[id].livemode
      && (b[id].status == a[id].status || b[id].status.Rank() > a[id].status.Rank())
  }

  lemma MatchesGrow(a: map<nat, Order>, b: map<nat, Order>, i: Input)
    requires Climbs(a, b)
    ensures Matches(a, i) <= Matches(b, i)
  {
  }

  lemma ConsistentGrows(a: map<nat, Order>, b: map<nat, Order>, call: Call)
    requires Climbs(a, b) && Consistent(a, call)
    ensures Consistent(b, call)
  {
    MatchesGrow(a, b, call.input);
    match call.phase
    case Reading => if call.retried { var id :| id in Matches(a, call.input)
      && a[id].status.Rank() >= 1; assert id in Matches(b, call.input); }
    case Checking(id, seen) =>
    case Writing(id, seen) =>
    case Done(answer) =>
  }

  lemma CallsGrow(s: State, t: State)
    requires CallsConsistent(s) && Climbs(s.orders, t.orders) && s.calls == t.calls
    ensures CallsConsistent(t)
  {
    forall d | d in t.calls ensures Consistent(t.orders, t.calls[d]) { ConsistentGrows(s.orders, t.orders, s.calls[d]); }
  }

  // ── A turn keeps it ─────────────────────────────────────────────────────────────────────────

  lemma OnlyMember(found: set<nat>, id: nat)
    requires |found| == 1 && id in found
    ensures found == {id}
  {
    assert |found - {id}| == 0;
  }

  lemma ReadIsConsistent(orders: map<nat, Order>, call: Call)
    requires call.phase.Reading? && Consistent(orders, call)
    ensures Consistent(orders, call.(phase := ReadPhase(orders, call.input)))
  {
    var found := Matches(orders, call.input);
    if !call.input.target.NoKey? && |found| == 1 {
      var id :| id in found;
      OnlyMember(found, id);
    }
  }

  function Written(orders: map<nat, Order>, write: Option<(nat, Order)>): map<nat, Order> {
    if write.None? then orders else orders[write.value.0 := write.value.1]
  }

  lemma MoveClimbs(gen: nat -> string, orders: map<nat, Order>, call: Call)
    requires Consistent(orders, call)
    ensures Climbs(orders, Written(orders, MoveOf(gen, orders, call).write))
  {
  }

  lemma MoveIsConsistent(gen: nat -> string, orders: map<nat, Order>, call: Call)
    requires Consistent(orders, call)
    ensures var m := MoveOf(gen, orders, call); Consistent(Written(orders, m.write), m.call)
  {
    if call.phase.Reading? { ReadIsConsistent(orders, call); }
    if call.phase.Writing? && orders[call.phase.id].status != call.phase.seen {
      assert call.phase.id in Matches(orders, call.input);
    }
  }

  lemma TurnKeepsCalls(gen: nat -> string, s: State, c: nat)
    requires CallsConsistent(s) && c in s.calls
    ensures CallsConsistent(TurnOf(gen, s, c)) && Climbs(s.orders, TurnOf(gen, s, c).orders)
  {
    var m, t := MoveOf(gen, s.orders, s.calls[c]), TurnOf(gen, s, c);
    assert t.orders == Written(s.orders, m.write);
    MoveClimbs(gen, s.orders, s.calls[c]);
    MoveIsConsistent(gen, s.orders, s.calls[c]);
    forall d | d in t.calls ensures Consistent(t.orders, t.calls[d]) {
      if d != c { ConsistentGrows(s.orders, t.orders, s.calls[d]); }
    }
  }

  lemma TurnKeepsIndex(gen: nat -> string, s: State, c: nat)
    requires LiveReferencesUnique(s.orders) && c in s.calls
    ensures LiveReferencesUnique(TurnOf(gen, s, c).orders)
  {
  }

  lemma {:induction false} NoConfirmationsYet(cbs: seq<Callback>, id: nat)
    requires forall k :: 0 <= k < |cbs| ==> cbs[k].order != id
    ensures Confirmations(cbs, id) == []
    decreases |cbs|
  {
    if cbs != [] { NoConfirmationsYet(cbs[..|cbs| - 1], id); }
  }

  lemma ConfirmationsPush(cbs: seq<Callback>, cb: Callback, id: nat)
    ensures Confirmations(cbs + [cb], id) == Confirmations(cbs, id) + (if cb.order == id then [cb.outcome] else [])
  {
    assert (cbs + [cb])[..|cbs|] == cbs;
  }

  /** The one history a write extends still fits: a pending order had none, a revived one at most a FAILED. */
  lemma WriteExtendsHistory(h: seq<Outcome>, seen: Status, o: Outcome)
    requires HistoryFits(h, seen) && (seen.Pending? || Reviving(seen, o))
    ensures HistoryFits(h + [o], o.Status())
  {
  }

  lemma CallbacksKnown(s: State, t: State, cb: Callback)
    requires (forall k :: 0 <= k < |s.callbacks| ==> s.callbacks[k].order in s.orders) && cb.order in s.orders
    requires t.orders.Keys == s.orders.Keys && t.callbacks == s.callbacks + [cb]
    ensures forall k :: 0 <= k < |t.callbacks| ==> t.callbacks[k].order in t.orders
  {
  }

  /** One more confirmation of an order, its history still fitting. */
  lemma HistoryPush(s: State, t: State, row: Order, cb: Callback, id: nat)
    requires id in s.orders && HistoryFits(Confirmations(s.callbacks, id), s.orders[id].status)
    requires HistoryFits(Confirmations(s.callbacks, cb.order) + [cb.outcome], row.status)
    requires t.orders == s.orders[cb.order := row] && t.callbacks == s.callbacks + [cb]
    ensures HistoryFits(Confirmations(t.callbacks, id), t.orders[id].status)
  {
    ConfirmationsPush(s.callbacks, cb, id);
    assert id != cb.order ==> Confirmations(t.callbacks, id) == Confirmations(s.callbacks, id);
  }

  lemma TurnKeepsHistories(gen: nat -> string, s: State, c: nat)
    requires HistoriesFit(s) && c in s.calls && Consistent(s.orders, s.calls[c])
    ensures HistoriesFit(TurnOf(gen, s, c))
  {
    var t, w := TurnOf(gen, s, c), MoveOf(gen, s.orders, s.calls[c]).write;
    if w.Some? {
      var (id, row) := w.value;
      var cb := Callback(id, s.calls[c].input.outcome, c);
      assert row.status == cb.outcome.Status();
      WriteExtendsHistory(Confirmations(s.callbacks, id), s.orders[id].status, cb.outcome);
      CallbacksKnown(s, t, cb);
      forall x | x in t.orders ensures HistoryFits(Confirmations(t.callbacks, x), t.orders[x].status) {
        HistoryPush(s, t, row, cb, x);
      }
    }
  }

  /** The turn answers Confirmed and sends the one callback of its call, which had none; or it does neither. */
  ghost predicate Sends(s: State, t: State, c: nat)
    requires c in s.calls && c in t.calls
  {
    var n := |s.callbacks|;
    && t.calls == s.calls[c := t.calls[c]] && t.calls[c].input == s.calls[c].input
    && (s.calls[c].phase == Done(Confirmed) ==> t == s)
    && if t.callbacks == s.callbacks then s.calls[c].phase != Done(Confirmed) ==> t.calls[c].phase != Done(Confirmed)
       else t.calls[c].phase == Done(Confirmed)
            && |t.callbacks| == n + 1 && t.callbacks == s.callbacks + [t.callbacks[n]]
            && t.callbacks[n].call == c && t.callbacks[n].outcome == t.calls[c].input.outcome
  }

  lemma TurnSends(gen: nat -> string, s: State, c: nat)
    requires c in s.calls
    ensures Sends(s, TurnOf(gen, s, c), c)
  {
  }

  lemma TurnKeepsCallbacks(gen: nat -> string, s: State, c: nat)
    requires OneCallbackPerConfirmation(s) && c in s.calls
    ensures OneCallbackPerConfirmation(TurnOf(gen, s, c))
  {
    TurnSends(gen, s, c);
    SendKeepsCallbacks(s, TurnOf(gen, s, c), c);
  }

  lemma SendKeepsCallbacks(s: State, t: State, c: nat)
    requires OneCallbackPerConfirmation(s) && c in s.calls && c in t.calls && Sends(s, t, c)
    ensures OneCallbackPerConfirmation(t)
  {
    forall d | d in t.calls && t.calls[d].phase == Done(Confirmed)
      ensures exists k :: 0 <= k < |t.callbacks| && t.callbacks[k].call == d
    {
      if d in s.calls && s.calls[d].phase == Done(Confirmed) {
        var k :| 0 <= k < |s.callbacks| && s.callbacks[k].call == d;
        assert t.callbacks[k].call == d;
      }
    }
  }

  lemma TurnKeepsAskedFor(gen: nat -> string, s: State, c: nat)
    requires CallbacksAskedFor(s) && c in s.calls && Consistent(s.orders, s.calls[c])
    ensures CallbacksAskedFor(TurnOf(gen, s, c))
  {
    var t, call := TurnOf(gen, s, c), s.calls[c];
    if t.callbacks != s.callbacks { assert Holds(s.orders, call, call.phase.id, call.phase.seen); }
  }

  // ── Every step keeps it ─────────────────────────────────────────────────────────────────────

  lemma SweepKeepsRows(gen: nat -> string, s: State, id: nat, to: Status)
    requires LiveReferencesUnique(s.orders) && HistoriesFit(s)
    ensures LiveReferencesUnique(SweepOf(gen, s, id, to).orders) && HistoriesFit(SweepOf(gen, s, id, to))
    ensures Climbs(s.orders, SweepOf(gen, s, id, to).orders)
  {
    assert id in s.orders ==> HistoryFits(Confirmations(s.callbacks, id), s.orders[id].status);
  }

  lemma CreateKeepsRows(s: State, id: nat, o: Order)
    requires LiveReferencesUnique(s.orders) && HistoriesFit(s) && id !in s.orders && o.status == Pending
    ensures var t := s.(orders := s.orders[id := o]);
            LiveReferencesUnique(t.orders) && HistoriesFit(t) && Climbs(s.orders, t.orders)
  {
    NoConfirmationsYet(s.callbacks, id);
  }

  lemma ArriveKeepsCallbacks(s: State, c: nat, i: Input)
    requires OneCallbackPerConfirmation(s) && c !in s.calls
    ensures OneCallbackPerConfirmation(s.(calls := s.calls[c := Call(i, false, Reading)]))
  {
  }

  lemma ArriveKeepsAskedFor(s: State, c: nat, i: Input)
    requires CallbacksAskedFor(s) && c !in s.calls
    ensures CallbacksAskedFor(s.(calls := s.calls[c := Call(i, false, Reading)]))
  {
  }

  lemma ArriveKeepsInv(s: State, c: nat, i: Input)
    requires Inv(s) && c !in s.calls
    ensures Inv(s.(calls := s.calls[c := Call(i, false, Reading)]))
  {
    var t := s.(calls := s.calls[c := Call(i, false, Reading)]);
    ArriveKeepsCallbacks(s, c, i);
    ArriveKeepsAskedFor(s, c, i);
    forall d | d in t.calls ensures Consistent(t.orders, t.calls[d]) {
      if d != c { assert Consistent(s.orders, s.calls[d]); }
    }
  }

  lemma TurnKeepsInv(gen: nat -> string, s: State, c: nat)
    requires Inv(s) && c in s.calls
    ensures Inv(TurnOf(gen, s, c)) && Climbs(s.orders, TurnOf(gen, s, c).orders)
  {
    TurnKeepsCalls(gen, s, c);
    TurnKeepsIndex(gen, s, c);
    TurnKeepsHistories(gen, s, c);
    TurnKeepsCallbacks(gen, s, c);
    TurnKeepsAskedFor(gen, s, c);
  }

  lemma RowsStepKeepsInv(s: State, t: State)
    requires Inv(s) && t.calls == s.calls && t.callbacks == s.callbacks
    requires LiveReferencesUnique(t.orders) && HistoriesFit(t) && Climbs(s.orders, t.orders)
    ensures Inv(t)
  {
    CallsGrow(s, t);
  }

  lemma StepKeepsInv(gen: nat -> string, s: State, step: Step)
    requires Inv(s)
    ensures Inv(Apply(gen, s, step)) && Climbs(s.orders, Apply(gen, s, step).orders)
  {
    match step
    case Turn(c) => if c in s.calls { TurnKeepsInv(gen, s, c); }
    case Create(id, ref, merchant, live) =>
      if id !in s.orders {
        var o := Order(ref, merchant, live, Pending, None);
        CreateKeepsRows(s, id, o);
        RowsStepKeepsInv(s, s.(orders := s.orders[id := o]));
      }
    case Arrive(c, i) => if c !in s.calls { ArriveKeepsInv(s, c, i); }
    case Sweep(id, to) =>
      SweepKeepsRows(gen, s, id, to);
      RowsStepKeepsInv(s, SweepOf(gen, s, id, to));
  }

  /** In every interleaving: the invariant holds and a status only climbs. */
  lemma {:induction false} RunKeepsInv(gen: nat -> string, s: State, steps: seq<Step>)
    requires Inv(s)
    ensures Inv(Run(gen, s, steps)) && Climbs(s.orders, Run(gen, s, steps).orders)
    decreases |steps|
  {
    if steps != [] {
      StepKeepsInv(gen, s, steps[0]);
      RunKeepsInv(gen, Apply(gen, s, steps[0]), steps[1..]);
    }
  }

  // ── What a caller and a merchant may rely on ────────────────────────────────────────────────

  /** From the first call on, whatever the orders were: everything below holds of every run. */
  lemma {:induction false} Reachable(gen: nat -> string, s: State, steps: seq<Step>)
    requires Init(s)
    ensures Inv(Run(gen, s, steps)) && Climbs(s.orders, Run(gen, s, steps).orders)
  {
    RunKeepsInv(gen, s, steps);
  }

  /** A paid order keeps its status for ever, and no order ever moves back. */
  lemma StatusOnlyClimbs(gen: nat -> string, s: State, before: seq<Step>, after: seq<Step>, id: nat)
    requires Init(s) && id in Run(gen, s, before).orders
    ensures var mid, end := Run(gen, s, before), Run(gen, Run(gen, s, before), after);
            && id in end.orders
            && (end.orders[id].status == mid.orders[id].status || end.orders[id].status.Rank() > mid.orders[id].status.Rank())
            && (mid.orders[id].status.Paid() ==> end.orders[id].status == mid.orders[id].status)
  {
    RunKeepsInv(gen, s, before);
    RunKeepsInv(gen, Run(gen, s, before), after);
  }

  /** At most two confirmations commit on an order; the second is a payment on a declined one. */
  lemma AtMostTwoConfirmations(gen: nat -> string, s: State, steps: seq<Step>, id: nat)
    requires Init(s) && id in Run(gen, s, steps).orders
    ensures var end := Run(gen, s, steps); var h := Confirmations(end.callbacks, id);
            && |h| <= 2 && (|h| == 2 ==> h == [Declined, Captured])
            && (Captured in h ==> end.orders[id].status == Success)
            && (h == [Declined] ==> end.orders[id].status == Failed)
  {
    Reachable(gen, s, steps);
  }

  /** "Order changed" is answered only to a payment, and the order it could not write is already paid. */
  lemma ChangedMeansAlreadyPaid(gen: nat -> string, s: State, steps: seq<Step>, c: nat)
    requires Init(s)
    requires var end := Run(gen, s, steps);
             c in end.calls && end.calls[c].phase.Done? && end.calls[c].phase.answer.Changed?
    ensures var end := Run(gen, s, steps); var own := end.calls[c].phase.answer.order;
            end.calls[c].input.outcome == Captured && own in Matches(end.orders, end.calls[c].input)
                && end.orders[own].status.Paid()
  {
    Reachable(gen, s, steps);
    assert Consistent(Run(gen, s, steps).orders, Run(gen, s, steps).calls[c]);
  }

  /**
   A payment is turned away as final only from a legacy SUCCEEDED order, never from one that expired or was
   declined; a failure is turned away exactly from those it may not move: expired and paid ones. A paid order
   a call was turned away from is still the order it was.
   */
  lemma FinalMeansFinal(gen: nat -> string, s: State, steps: seq<Step>, c: nat)
    requires Init(s)
    requires var end := Run(gen, s, steps);
             c in end.calls && end.calls[c].phase.Done? && end.calls[c].phase.answer.AlreadyFinal?
    ensures var end := Run(gen, s, steps); var call := end.calls[c]; var own, final :=
            call.phase.answer.order, call.phase.answer.status;
            && (if call.input.outcome.Captured? then final.Succeeded? else final.Expired? || final.Paid())
            && own in Matches(end.orders, call.input) && (final.Paid() ==> end.orders[own].status == final)
  {
    Reachable(gen, s, steps);
    assert Consistent(Run(gen, s, steps).orders, Run(gen, s, steps).calls[c]);
  }

  /**
   A call answered as a repeat asked for what its own order already was; a repeated payment's order is paid for good.
   */
  lemma ReplayMeansDone(gen: nat -> string, s: State, steps: seq<Step>, c: nat)
    requires Init(s)
    requires var end := Run(gen, s, steps);
             c in end.calls && end.calls[c].phase.Done? && end.calls[c].phase.answer.Replay?
    ensures var end := Run(gen, s, steps); var call := end.calls[c]; var own := call.phase.answer.order;
            && call.phase.answer.status == call.input.outcome.Status() && own in Matches(end.orders, call.input)
            && (call.input.outcome.Captured? ==> end.orders[own].status == Success)
  {
    Reachable(gen, s, steps);
    assert Consistent(Run(gen, s, steps).orders, Run(gen, s, steps).calls[c]);
  }

  /**
   A confirmation never settles another order than the one its caller named: that of its callback has the id asked
   for, or the reference asked for, of the caller's own merchant whenever one was given; and the evidence's mode.
   */
  lemma ConfirmedIsTheOrderAskedFor(gen: nat -> string, s: State, steps: seq<Step>, c: nat)
    requires Init(s)
    requires var end := Run(gen, s, steps); c in end.calls && end.calls[c].phase == Done(Confirmed)
    ensures var end := Run(gen, s, steps); var i := end.calls[c].input;
            exists k :: 0 <= k < |end.callbacks| && end.callbacks[k].call == c
                        && var id := end.callbacks[k].order;
                           && id in end.orders
                           && (match i.target
                               case NoKey => false
                               case ById(asked) => id == asked
                               case ByRef(ref, None) => end.orders[id].ref == ref
                               case ByRef(ref, Some(m)) =>
                                 end.orders[id].ref == ref && end.orders[id].merchant == Some(m))
                           && (i.livemode.Some? ==> end.orders[id].livemode == i.livemode.value)
  {
    var end := Run(gen, s, steps);
    Reachable(gen, s, steps);
    var k :| 0 <= k < |end.callbacks| && end.callbacks[k].call == c;
    var id := end.callbacks[k].order;
    assert AskedFor(end.calls[c].input, id, end.orders[id]);
  }

  /** A bank reference settles one live order, though the look-up and the write are two statements. */
  lemma LiveReferenceSettlesOneOrder(gen: nat -> string, s: State, steps: seq<Step>, a: nat, b: nat)
    requires Init(s)
    requires var end := Run(gen, s, steps).orders;
             a in end && b in end && a != b && Indexed(end[a]) && Indexed(end[b])
    ensures Run(gen, s, steps).orders[a].rrn != Run(gen, s, steps).orders[b].rrn
  {
    Reachable(gen, s, steps);
  }

  /** Every call answered Confirmed sent one callback, with its own outcome, and no other call sent any. */
  lemma CallbacksAreConfirmedCalls(gen: nat -> string, s: State, steps: seq<Step>, c: nat)
    requires Init(s) && c in Run(gen, s, steps).calls
    ensures var end := Run(gen, s, steps);
            && (end.calls[c].phase == Done(Confirmed) <==> exists k :: 0 <= k < |end.callbacks| && end.callbacks[k].call == c)
            && (forall j, k :: 0 <= j < k < |end.callbacks| ==> end.callbacks[j].call != c || end.callbacks[k].call != c)
  {
    Reachable(gen, s, steps);
  }

  // ── A call always answers ───────────────────────────────────────────────────────────────────

  /** Turns a call has left at most. */
  function TurnsLeft(call: Call): nat {
    match call.phase
    case Done(_) => 0
    case Writing(_, _) => if call.retried then 1 else 4
    case Checking(_, _) => if call.retried then 2 else 5
    case Reading => if call.retried then 3 else 6
  }

  function TurnsOf(steps: seq<Step>, c: nat): nat {
    if steps == [] then 0 else (if steps[0] == Turn(c) then 1 else 0) + TurnsOf(steps[1..], c)
  }

  lemma MoveCountsDown(gen: nat -> string, orders: map<nat, Order>, call: Call)
    requires Consistent(orders, call) && !call.phase.Done?
    ensures TurnsLeft(MoveOf(gen, orders, call).call) < TurnsLeft(call)
  {
  }

  lemma StepCountsDown(gen: nat -> string, s: State, step: Step, c: nat)
    requires CallsConsistent(s) && c in s.calls
    ensures var t := Apply(gen, s, step);
            && c in t.calls && TurnsLeft(t.calls[c]) <= TurnsLeft(s.calls[c])
            && (step == Turn(c) && TurnsLeft(s.calls[c]) > 0 ==> TurnsLeft(t.calls[c]) < TurnsLeft(s.calls[c]))
  {
    if step == Turn(c) && !s.calls[c].phase.Done? { MoveCountsDown(gen, s.orders, s.calls[c]); }
  }

  /** Six turns answer a call, whatever the other callers and the sweep do in between. */
  lemma {:induction false} SixTurnsAnswer(gen: nat -> string, s: State, steps: seq<Step>, c: nat)
    requires Inv(s) && c in s.calls && TurnsOf(steps, c) >= TurnsLeft(s.calls[c])
    ensures c in Run(gen, s, steps).calls && TurnsLeft(Run(gen, s, steps).calls[c]) == 0
    decreases |steps|
  {
    if steps != [] {
      StepKeepsInv(gen, s, steps[0]);
      StepCountsDown(gen, s, steps[0], c);
      SixTurnsAnswer(gen, Apply(gen, s, steps[0]), steps[1..], c);
    }
  }

  // ── Where the promise stops: test orders ────────────────────────────────────────────────────

  const Empty: State := State(map[], map[], [])

  /** No two paid orders of the mode carry the same reference. */
  ghost predicate ReferencesUniqueIn(live: bool, orders: map<nat, Order>) {
    forall a, b | a in orders && b in orders && a != b ::
      orders[a].livemode == orders[b].livemode == live && orders[a].status.Paid() && orders[b].status.Paid() ==>
        orders[a].rrn != orders[b].rrn || orders[a].rrn.None? || orders[a].rrn.value == ""
  }

  lemma RunOne(gen: nat -> string, s: State, step: Step, rest: seq<Step>)
    ensures Run(gen, s, [step] + rest) == Run(gen, Apply(gen, s, step), rest)
  {
    assert ([step] + rest)[1..] == rest;
  }

  const First: Input := Input(ById(1), None, Captured, "U")
  const Second: Input := Input(ById(2), None, Captured, "U")

  /** Two callers both look for the UTR before either writes. */
  const Race: seq<Step> := [Turn(1)] + ([Turn(2)] + ([Turn(1)] + ([Turn(2)] + ([Turn(1)] + ([Turn(2)] + [])))))
  const BothArrive: seq<Step> :=
    [Create(1, "a", None, false)]
        + ([Create(2, "b", None, false)] + ([Arrive(1, First)] + ([Arrive(2, Second)] + Race)))

  /** Both orders of the race. */
  const TwoPending: map<nat, Order> :=
      map[1 := Order("a", None, false, Pending, None), 2 := Order("b", None, false, Pending, None)]

  /** Both look-ups pass before either write. */
  lemma BothLookUpsPass(gen: nat -> string, s: State)
    requires s.callbacks == [] && s.orders == TwoPending
    requires s.calls == map[1 := Call(First, false, Reading), 2 := Call(Second, false, Reading)]
    ensures var t := Apply(gen, Apply(gen, Apply(gen, Apply(gen, s, Turn(1)), Turn(2)), Turn(1)), Turn(2));
            t == State(TwoPending, map[1 := Call(First, false, Writing(1, Pending)), 2 := Call(Second, false, Writing(2, Pending))], [])
  {
    assert Matches(s.orders, First) == {1} && Matches(s.orders, Second) == {2};
    var t := Apply(gen, Apply(gen, s, Turn(1)), Turn(2));
    assert t.calls[1].phase == Checking(1, Pending) && t.calls[2].phase == Checking(2, Pending)
      && t.orders == TwoPending;
  }

  lemma RaceSettlesTwo(gen: nat -> string, s: State)
    requires s.callbacks == [] && s.orders == TwoPending
    requires s.calls == map[1 := Call(First, false, Reading), 2 := Call(Second, false, Reading)]
    ensures !ReferencesUniqueIn(false, Run(gen, s, Race).orders)
  {
    var s3 := Apply(gen, s, Turn(1));
    var s4 := Apply(gen, s3, Turn(2));
    var s5 := Apply(gen, s4, Turn(1));
    var s6 := Apply(gen, s5, Turn(2));
    BothLookUpsPass(gen, s);
    var s7 := Apply(gen, s6, Turn(1));
    var s8 := Apply(gen, s7, Turn(2));
    assert s8.orders[1].rrn == Some("U") && s8.orders[2].rrn == Some("U");
    RunOne(gen, s, Turn(1), [Turn(2)] + ([Turn(1)] + ([Turn(2)] + ([Turn(1)] + ([Turn(2)] + [])))));
    RunOne(gen, s3, Turn(2), [Turn(1)] + ([Turn(2)] + ([Turn(1)] + ([Turn(2)] + []))));
    RunOne(gen, s4, Turn(1), [Turn(2)] + ([Turn(1)] + ([Turn(2)] + [])));
    RunOne(gen, s5, Turn(2), [Turn(1)] + ([Turn(2)] + []));
    RunOne(gen, s6, Turn(1), [Turn(2)] + []);
    RunOne(gen, s7, Turn(2), []);
  }

  /**
   "A reference settles one order of its mode" holds in every run exactly for live orders: the
   unique index leaves test orders out, and the look-up alone does not stop a race.
   */
  lemma ReferenceUniqueExactlyWhenLive(gen: nat -> string, live: bool)
    ensures (forall steps: seq<Step> :: ReferencesUniqueIn(live, Run(gen, Empty, steps).orders)) <==> live
  {
    if live {
      forall steps: seq<Step> ensures ReferencesUniqueIn(live, Run(gen, Empty, steps).orders) {
        Reachable(gen, Empty, steps);
      }
    } else {
      var s1 := Apply(gen, Empty, Create(1, "a", None, false));
      var s2 := Apply(gen, s1, Create(2, "b", None, false));
      var s3 := Apply(gen, s2, Arrive(1, First));
      var s4 := Apply(gen, s3, Arrive(2, Second));
      RaceSettlesTwo(gen, s4);
      RunOne(gen, s3, Arrive(2, Second), Race);
      RunOne(gen, s2, Arrive(1, First), [Arrive(2, Second)] + Race);
      RunOne(gen, s1, Create(2, "b", None, false), [Arrive(1, First)] + ([Arrive(2, Second)] + Race));
      RunOne(gen, Empty, Create(1, "a", None, false),
             [Create(2, "b", None, false)] + ([Arrive(1, First)] + ([Arrive(2, Second)] + Race)));
      assert !ReferencesUniqueIn(live, Run(gen, Empty, BothArrive).orders);
    }
  }

  // ── A call nobody interrupts ────────────────────────────────────────────────────────────────

  /** Whether a confirmation may still move an order of this status. */
  predicate MayMove(s: Status, o: Outcome) { s.Pending? || Reviving(s, o) }

  /** What a confirmation decides on the one order of its mode that it names. */
  function Verdict(gen: nat -> string, orders: map<nat, Order>, i: Input, id: nat): Answer
    requires id in orders
  {
    var o := orders[id];
    if !MayMove(o.status, i.outcome) then
        (if o.status == i.outcome.Status() then Replay(id, o.status) else AlreadyFinal(id, o.status))
    else if i.outcome.Captured? && i.utr != "" && UtrUsedElsewhere(orders, id, i.utr) then DuplicateUtr
    else if IndexRefuses(orders, id, o.(status := i.outcome.Status(), rrn := NewRrn(gen, i, id, o))) then DuplicateUtr
    else Confirmed
  }

  /** The answer of the whole call taken at one instant. */
  ghost predicate AnswersAtOnce(gen: nat -> string, orders: map<nat, Order>, i: Input, a: Answer) {
    var found := Matches(orders, i);
    if i.target.NoKey? then a == KeyRequired
    else if found == {} then a == NotFound
    else if |found| > 1 then a == Ambiguous
    else forall id :: id in found ==>
          a == if i.livemode.Some? && orders[id].livemode != i.livemode.value then ModeMismatch
              else Verdict(gen, orders, i, id)
  }

  /** The one order the call is past the final-status lock with. */
  ghost predicate Past(orders: map<nat, Order>, i: Input, id: nat, seen: Status) {
    && Matches(orders, i) == {id} && !i.target.NoKey? && id in orders && orders[id].status == seen
       && MayMove(seen, i.outcome)
    && (i.livemode.Some? ==> orders[id].livemode == i.livemode.value)
  }

  /**
   How far a call that runs alone has come: nothing else moved, the order it saw is as it saw it, it has
   written and sent its callback exactly when it is answered Confirmed, and it answers as if at once.
   */
  ghost predicate Uninterrupted(gen: nat -> string, s0: State, s: State, c: nat, i: Input) {
    && c in s.calls && s.calls == s0.calls[c := s.calls[c]] && s.calls[c].input == i && !s.calls[c].retried
    && match s.calls[c].phase
       case Reading => s.orders == s0.orders && s.callbacks == s0.callbacks
       case Checking(id, seen) => s.orders == s0.orders && s.callbacks == s0.callbacks && Past(s0.orders, i, id, seen)
       case Writing(id, seen) => s.orders == s0.orders && s.callbacks == s0.callbacks && Past(s0.orders, i, id, seen)
                                 && !(i.outcome.Captured? && i.utr != "" && UtrUsedElsewhere(s0.orders, id, i.utr))
       case Done(a) => AnswersAtOnce(gen, s0.orders, i, a)
                       && (if a.Confirmed? then ConfirmedBy(gen, s0, s, c, i)
                          else !a.Changed? && s.orders == s0.orders && s.callbacks == s0.callbacks)
  }

  /** One order the call names took the outcome and its reference, the rest stand, and one callback went out. */
  ghost predicate ConfirmedBy(gen: nat -> string, s0: State, s: State, c: nat, i: Input) {
    exists id ::
      && id in Matches(s0.orders, i) && id in s0.orders && s0.orders[id].status.Rank() < i.outcome.Status().Rank()
      && s.orders == s0.orders[id := s0.orders[id].(status := i.outcome.Status(), rrn := NewRrn(gen, i, id, s0.orders[id]))]
      && s.callbacks == s0.callbacks + [Callback(id, i.outcome, c)]
  }

  lemma ReadAtOnce(gen: nat -> string, orders: map<nat, Order>, i: Input)
    ensures var p := ReadPhase(orders, i);
            && (p.Checking? ==> Past(orders, i, p.id, p.seen))
            && !p.Writing? && !p.Reading?
               && (p.Done? ==> AnswersAtOnce(gen, orders, i, p.answer) && !p.answer.Changed? && !p.answer.Confirmed?)
  {
    var found := Matches(orders, i);
    if !i.target.NoKey? && |found| == 1 {
      var id :| id in found;
      OnlyMember(found, id);
    }
  }

  /** A write on an order past the lock confirms it, or the index refuses it: the verdict at that instant. */
  lemma WriteAtOnce(gen: nat -> string, s0: State, s: State, c: nat, i: Input)
    requires Uninterrupted(gen, s0, s, c, i) && s.calls[c].phase.Writing?
    ensures Uninterrupted(gen, s0, TurnOf(gen, s, c), c, i)
  {
    var t, id := TurnOf(gen, s, c), s.calls[c].phase.id;
    if t.calls[c].phase == Done(Confirmed) {
      assert t.orders[id] == s0.orders[id].(status := i.outcome.Status(), rrn := NewRrn(gen, i, id, s0.orders[id]));
      assert ConfirmedBy(gen, s0, t, c, i);
    }
  }

  /** Every turn of a call left alone keeps to the answer it would give at once. */
  lemma UninterruptedTurn(gen: nat -> string, s0: State, s: State, c: nat, i: Input)
    requires Uninterrupted(gen, s0, s, c, i) && !s.calls[c].phase.Done?
    ensures Uninterrupted(gen, s0, TurnOf(gen, s, c), c, i)
  {
    match s.calls[c].phase
    case Reading => ReadAtOnce(gen, s.orders, i);
    case Checking(id, seen) =>
    case Writing(_, _) => WriteAtOnce(gen, s0, s, c, i);
  }

  // ── The answer in terms of the orders' own fields ───────────────────────────────────────────

  /** What the look-up is for: the id asked for, or every order of the reference, the merchant and the mode given. */
  ghost predicate Sought(orders: map<nat, Order>, i: Input, id: nat) {
    && id in orders && !i.target.NoKey?
    && (i.target.ById? ==> id == i.target.id)
    && (i.target.ByRef? ==>
          && orders[id].ref == i.target.ref
          && (i.target.merchant.Some? ==> orders[id].merchant == i.target.merchant)
          && (i.livemode.Some? ==> orders[id].livemode == i.livemode.value))
  }

  ghost predicate Sole(orders: map<nat, Order>, i: Input, id: nat) {
    Sought(orders, i, id) && forall x :: Sought(orders, i, x) ==> x == id
  }

  ghost predicate OfMode(o: Order, i: Input) { i.livemode.Some? ==> o.livemode == i.livemode.value }

  /** A payment moves every order that is not paid; a failure only a pending one. */
  predicate Movable(s: Status, o: Outcome) {
    if o.Captured? then s.Pending? || s.Expired? || s.Failed? else s.Pending?
  }

  predicate Same(s: Status, o: Outcome) { if o.Captured? then s.Success? else s.Failed? }

  lemma SoughtIsMatched(orders: map<nat, Order>, i: Input)
    ensures forall id :: id in Matches(orders, i) <==> Sought(orders, i, id)
  {
  }

  lemma SoleIsOnly(orders: map<nat, Order>, i: Input, id: nat)
    ensures Sole(orders, i, id) <==> Matches(orders, i) == {id}
  {
    SoughtIsMatched(orders, i);
  }

  /** Nobody, one, or two to tell apart. */
  lemma HowManyAreSought(orders: map<nat, Order>, i: Input)
    ensures |Matches(orders, i)| == 0 <==> forall id :: !Sought(orders, i, id)
    ensures |Matches(orders, i)| > 1 <==> exists a, b :: a != b && Sought(orders, i, a) && Sought(orders, i, b)
  {
    var found := Matches(orders, i);
    SoughtIsMatched(orders, i);
    if |found| > 1 {
      var a :| a in found;
      assert |found - {a}| == |found| - 1;
      var b :| b in found - {a};
      assert Sought(orders, i, a) && Sought(orders, i, b);
    } else if |found| == 1 {
      var a :| a in found;
      OnlyMember(found, a);
    }
  }

  /**
   What the first SELECT answers: nothing found exactly when no order is sought, a refusal to choose exactly when
   two different ones are; of the only one, the mode, a repeat, a conflict, or that the call goes on.
   */
  ghost predicate LookUpFits(orders: map<nat, Order>, i: Input, p: Phase) {
    && (p == Done(KeyRequired) <==> i.target.NoKey?)
    && (p == Done(NotFound) <==> !i.target.NoKey? && forall id :: !Sought(orders, i, id))
    && (p == Done(Ambiguous) <==> exists a, b :: a != b && Sought(orders, i, a) && Sought(orders, i, b))
    && forall id :: Sole(orders, i, id) ==>
         var o := orders[id];
         && (p == Done(ModeMismatch) <==> !OfMode(o, i))
         && (p == Checking(id, o.status) <==> OfMode(o, i) && Movable(o.status, i.outcome))
         && (p == Done(Replay(id, o.status)) <==> OfMode(o, i) && Same(o.status, i.outcome))
         && (p == Done(AlreadyFinal(id, o.status)) <==>
               OfMode(o, i) && !Movable(o.status, i.outcome) && !Same(o.status, i.outcome))
  }

  lemma LookUpExactly(orders: map<nat, Order>, i: Input)
    ensures LookUpFits(orders, i, ReadPhase(orders, i))
  {
    var found := Matches(orders, i);
    HowManyAreSought(orders, i);
    forall id: nat ensures Sole(orders, i, id) <==> found == {id} { SoleIsOnly(orders, i, id); }
    if |found| == 1 {
      var id :| id in found;
      OnlyMember(found, id);
    }
  }

  /** The reference a payment is stored with. */
  function Reference(gen: nat -> string, i: Input, id: nat): string { if i.utr == "" then gen(id) else i.utr }

  /**
   A payment clashes when another order of its mode carries the caller's UTR, or, live, when a paid one carries the
   reference it would store.
   */
  ghost predicate Clashes(gen: nat -> string, orders: map<nat, Order>, i: Input, id: nat)
    requires id in orders
  {
    i.outcome.Captured? && Reference(gen, i, id) != "" && exists x ::
      && x in orders && x != id && orders[x].livemode == orders[id].livemode
      && orders[x].rrn == Some(Reference(gen, i, id))
      && (i.utr != "" || (orders[x].livemode && (orders[x].status.Success? || orders[x].status.Succeeded?)))
  }

  /** A paid live order other than this one carries the reference already. */
  ghost predicate HeldLive(orders: map<nat, Order>, id: nat, ref: string) {
    ref != "" && exists x :: x in orders && x != id && orders[x].livemode && orders[x].rrn == Some(ref)
                             && (orders[x].status.Success? || orders[x].status.Succeeded?)
  }

  /** The look-up stops a payment whose UTR another order of the mode carries, whatever that order's status. */
  lemma DuplicateExactly(gen: nat -> string, s: State, c: nat)
    requires c in s.calls && s.calls[c].phase.Checking? && s.calls[c].phase.id in s.orders
    ensures var t, call := TurnOf(gen, s, c), s.calls[c]; var id, i := call.phase.id, call.input;
            var carried := exists x :: && x in s.orders && x != id && s.orders[x].rrn == Some(i.utr)
                                       && s.orders[x].livemode == s.orders[id].livemode;
            var stops := i.outcome == Captured && i.utr != "" && carried;
            && t.orders == s.orders && t.callbacks == s.callbacks
            && t.calls == s.calls[c := Call(i, call.retried, if stops then Done(DuplicateUtr) else Writing(id, call.phase.seen))]
  {
  }

  /**
   The guarded UPDATE: an order that is no longer as it was seen is not written, and the call starts again, once; a
   live payment of a reference a paid live order holds is refused; otherwise the order is written and the callback sent.
   */
  lemma WritesExactly(gen: nat -> string, s: State, c: nat)
    requires c in s.calls && s.calls[c].phase.Writing? && s.calls[c].phase.id in s.orders
    ensures var t, call := TurnOf(gen, s, c), s.calls[c]; var id, i := call.phase.id, call.input;
            var kept := t.orders == s.orders && t.callbacks == s.callbacks;
            if s.orders[id].status != call.phase.seen then
              kept && t.calls == s.calls[c := Call(i, true, if call.retried then Done(Changed(id)) else Reading)]
            else if i.outcome == Captured && s.orders[id].livemode && HeldLive(s.orders, id, Reference(gen, i, id)) then
              kept && t.calls == s.calls[c := Call(i, call.retried, Done(DuplicateUtr))]
            else
              WroteOnly(gen, i, id, c, s, t) && t.calls == s.calls[c := Call(i, call.retried, Done(Confirmed))]
  {
    var id, i := s.calls[c].phase.id, s.calls[c].input;
    var row := s.orders[id].(status := i.outcome.Status(), rrn := NewRrn(gen, i, id, s.orders[id]));
    if i.outcome == Captured && s.orders[id].livemode && HeldLive(s.orders, id, Reference(gen, i, id)) {
      var x :| x in s.orders && x != id && s.orders[x].livemode && s.orders[x].rrn == Some(Reference(gen, i, id))
               && (s.orders[x].status.Success? || s.orders[x].status.Succeeded?);
      assert Indexed(s.orders[x]) && IndexRefuses(s.orders, id, row);
    }
  }

  /** The sweep resolves a pending order: a live one only to EXPIRED, a test one also to FAILED or SUCCESS. */
  lemma SweepsExactly(gen: nat -> string, s: State, id: nat, to: Status)
    ensures var t := SweepOf(gen, s, id, to);
            if id in s.orders && s.orders[id].status == Pending
               && (to == Expired || (!s.orders[id].livemode && (to == Failed || to == Success)))
            then
              && t.calls == s.calls && t.callbacks == s.callbacks && t.orders.Keys == s.orders.Keys
              && (forall x :: x in s.orders && x != id ==> t.orders[x] == s.orders[x])
              && t.orders[id] == s.orders[id].(status := to, rrn := t.orders[id].rrn)
              && t.orders[id].rrn == if to == Success then Some(gen(id)) else s.orders[id].rrn
            else t == s
  {
  }

  /** What a call that runs alone answers about the one order it seeks. */
  ghost predicate DecidedOn(gen: nat -> string, orders: map<nat, Order>, i: Input, id: nat, a: Answer)
    requires id in orders
  {
    var o := orders[id];
    var goesOn := OfMode(o, i) && Movable(o.status, i.outcome);
    && (a == ModeMismatch <==> !OfMode(o, i))
    && (a == Replay(id, o.status) <==> OfMode(o, i) && Same(o.status, i.outcome))
    && (a == AlreadyFinal(id, o.status) <==>
          OfMode(o, i) && !Movable(o.status, i.outcome) && !Same(o.status, i.outcome))
    && (a == DuplicateUtr <==> goesOn && Clashes(gen, orders, i, id))
    && (a == Confirmed <==> goesOn && !Clashes(gen, orders, i, id))
  }

  lemma VerdictIsDecided(gen: nat -> string, orders: map<nat, Order>, i: Input, id: nat)
    requires id in orders
    ensures DecidedOn(gen, orders, i, id, if OfMode(orders[id], i) then Verdict(gen, orders, i, id) else ModeMismatch)
  {
    var o := orders[id];
    if MayMove(o.status, i.outcome) {
      var row := o.(status := i.outcome.Status(), rrn := NewRrn(gen, i, id, o));
      if IndexRefuses(orders, id, row) {
        var x :| x in orders && x != id && Indexed(orders[x]) && orders[x].rrn == row.rrn;
        assert orders[x].livemode == orders[id].livemode;
      }
    }
  }

  /** The answer of a call that ran alone, over every order there was. */
  ghost predicate AnswerFits(gen: nat -> string, orders: map<nat, Order>, i: Input, a: Answer) {
    && (a == KeyRequired <==> i.target.NoKey?)
    && (a == NotFound <==> !i.target.NoKey? && forall id :: !Sought(orders, i, id))
    && (a == Ambiguous <==> exists x, y :: x != y && Sought(orders, i, x) && Sought(orders, i, y))
    && (forall id :: Sole(orders, i, id) ==> DecidedOn(gen, orders, i, id, a))
  }

  lemma AtOnceFits(gen: nat -> string, orders: map<nat, Order>, i: Input, a: Answer)
    requires AnswersAtOnce(gen, orders, i, a)
    ensures AnswerFits(gen, orders, i, a)
  {
    var found := Matches(orders, i);
    HowManyAreSought(orders, i);
    forall id | Sole(orders, i, id) ensures DecidedOn(gen, orders, i, id, a) {
      SoleIsOnly(orders, i, id);
      VerdictIsDecided(gen, orders, i, id);
    }
    if |found| == 1 {
      var id :| id in found;
      OnlyMember(found, id);
      SoleIsOnly(orders, i, id);
    }
  }

  /** A confirmation writes the status and, for a payment, the reference, and nothing else of its order. */
  ghost predicate WrittenAsConfirmed(gen: nat -> string, i: Input, id: nat, before: Order, after: Order) {
    && after.ref == before.ref && after.merchant == before.merchant && after.livemode == before.livemode
    && (i.outcome.Captured? ==> after.status.Success? && after.rrn == Some(Reference(gen, i, id)))
    && (i.outcome.Declined? ==> after.status.Failed? && after.rrn == before.rrn)
  }

  /** One order written as confirmed, every other as it was, and one callback sent. */
  ghost predicate WroteOnly(gen: nat -> string, i: Input, id: nat, c: nat, s: State, t: State) {
    && id in s.orders && id in t.orders && WrittenAsConfirmed(gen, i, id, s.orders[id], t.orders[id])
    && t.orders.Keys == s.orders.Keys && (forall x :: x in s.orders && x != id ==> t.orders[x] == s.orders[x])
    && t.callbacks == s.callbacks + [Callback(id, i.outcome, c)]
  }

  lemma ConfirmedWrites(gen: nat -> string, s: State, t: State, c: nat, i: Input)
    requires ConfirmedBy(gen, s, t, c, i) && AnswersAtOnce(gen, s.orders, i, Confirmed)
    ensures exists id :: Sole(s.orders, i, id) && WroteOnly(gen, i, id, c, s, t)
  {
    var id: nat :| && id in Matches(s.orders, i) && id in s.orders
                   && t.orders == s.orders[id := s.orders[id].(status := i.outcome.Status(),
                                                               rrn := NewRrn(gen, i, id, s.orders[id]))]
                   && t.callbacks == s.callbacks + [Callback(id, i.outcome, c)];
    OnlyMember(Matches(s.orders, i), id);
    SoleIsOnly(s.orders, i, id);
    assert WroteOnly(gen, i, id, c, s, t);
  }

  // ── The tables the calls work on ────────────────────────────────────────────────────────────

  class Desk {
    const gen: nat -> string
    var orders: map<nat, Order>
    var calls: map<nat, Call>
    var callbacks: seq<Callback>

    ghost function View(): State
      reads this
    {
      State(orders, calls, callbacks)
    }

    constructor (gen: nat -> string, orders: map<nat, Order>)
      ensures View() == State(orders, map[], []) && this.gen == gen
    {
      this.gen, this.orders, this.calls, this.callbacks := gen, orders, map[], [];
    }

    /** The first SELECT and the decisions on its row. */
    method Read(i: Input) returns (p: Phase)
      ensures p == ReadPhase(orders, i) && LookUpFits(orders, i, p)
    {
      LookUpExactly(orders, i);
      if i.target.NoKey? { return Done(KeyRequired); }
      var found := Matches(orders, i);
      if |found| == 0 { return Done(NotFound); }
      if |found| > 1 { return Done(Ambiguous); }
      var id :| id in found;
      OnlyMember(found, id);
      return AfterRead(i, id, orders[id]);
    }

    /** The guarded UPDATE: what it did to the call. */
    method Write(c: nat, id: nat, seen: Status)
      requires c in calls && calls[c].phase == Writing(id, seen) && id in orders
      modifies this
      ensures View() == TurnOf(gen, old(View()), c)
    {
      var call := calls[c];
      if orders[id].status != seen {
        calls := calls[c := if call.retried then call.(phase := Done(Changed(id))) else call.(retried := true, phase := Reading)];
        return;
      }
      var row := orders[id].(status := call.input.outcome.Status(), rrn := NewRrn(gen, call.input, id, orders[id]));
      if IndexRefuses(orders, id, row) {
        calls := calls[c := call.(phase := Done(DuplicateUtr))];
        return;
      }
      orders := orders[id := row];
      calls := calls[c := call.(phase := Done(Confirmed))];
      callbacks := callbacks + [Callback(id, call.input.outcome, c)];
    }

    /** The next statement of a call. */
    method Turn(c: nat)
      requires c in calls && CallsConsistent(View())
      modifies this
      ensures View() == TurnOf(gen, old(View()), c) && CallsConsistent(View())
    {
      TurnKeepsCalls(gen, View(), c);
      var call := calls[c];
      assert Consistent(orders, call);
      match call.phase
      case Reading =>
        var p := Read(call.input);
        calls := calls[c := call.(phase := p)];
      case Checking(id, seen) =>
        var taken := call.input.outcome.Captured? && call.input.utr != ""
          && UtrUsedElsewhere(orders, id, call.input.utr);
        calls := calls[c := call.(phase := if taken then Done(DuplicateUtr) else Writing(id, seen))];
      case Writing(id, seen) => Write(c, id, seen);
      case Done(_) =>
    }

    /** A call nobody interrupts: at most three statements, no retry, never answered Changed. */
    method Confirm(c: nat, i: Input) returns (a: Answer)
      requires c !in calls && CallsConsistent(View())
      modifies this
      ensures c in calls && calls[c] == Call(i, false, Done(a)) && !a.Changed?
      ensures Uninterrupted(gen, old(View()), View(), c, i)
      ensures AnswerFits(gen, old(orders), i, a)
      ensures !a.Confirmed? ==> orders == old(orders) && callbacks == old(callbacks)
      ensures a.Confirmed? ==> exists id :: Sole(old(orders), i, id) && WroteOnly(gen, i, id, c, old(View()), View())
    {
      calls := calls[c := Call(i, false, Reading)];
      assert CallsConsistent(View());
      while !calls[c].phase.Done?
        invariant c in calls && CallsConsistent(View()) && Uninterrupted(gen, old(View()), View(), c, i)
        decreases if c in calls then TurnsLeft(calls[c]) else 0
      {
        assert Consistent(orders, calls[c]);
        MoveCountsDown(gen, orders, calls[c]);
        UninterruptedTurn(gen, old(View()), View(), c, i);
        Turn(c);
      }
      a := calls[c].phase.answer;
      AtOnceFits(gen, old(orders), i, a);
      if a.Confirmed? { ConfirmedWrites(gen, old(View()), View(), c, i); }
    }
  }
}
