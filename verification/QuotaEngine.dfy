/**
 The DT quota engine (apps/admin-dashboard/src/lib/dt-engine.ts, lines 63-184) on the purchases of
 dt.ts (lines 13-25 and 106-137): a confirmed purchase becomes a lot of traffic quota, reserved oldest
 lot first, consumed or released. Amounts are paise, percentages hundredths of a percent. Reserving,
 consuming and releasing are transactions, one step each; a purchase's transition reads its status and
 writes in separate statements, and any steps may come in between.
 */
module QuotaEngine {
  import opened Options
  import opened SetSums

  datatype PurchaseStatus =
    | Draft | PendingApproval | AwaitingFunds | FundsSubmitted | Active | Exhausted | Suspended | Refilled | Closed | Rejected

  predicate CanTransition(from: PurchaseStatus, to: PurchaseStatus) {
    match from
    case Draft => to.PendingApproval? || to.Rejected?
    case PendingApproval => to.AwaitingFunds? || to.Rejected?
    case AwaitingFunds => to.FundsSubmitted? || to.Rejected?
    case FundsSubmitted => to.Active? || to.Rejected?
    case Active => to.Exhausted? || to.Suspended? || to.Closed?
    case Exhausted => to.Refilled? || to.Closed?
    case _ => false
  }

  datatype Purchase = Purchase(banker: string, payinMerchant: string, createdAt: nat, total: nat, priority: nat,
      security: nat, status: PurchaseStatus)

  /** A traffic allocation: `quota` is what was allocated; `open` until it is exhausted. */
  datatype Lot = Lot(purchase: nat, quota: nat, reserved: int, consumed: int, open: bool)

  datatype ReservationStatus = Reserved | Consumed | Released

  datatype Reservation = Reservation(lot: nat, amount: nat, status: ReservationStatus)

  /** A row of security_reserves. */
  datatype Held = Held(purchase: nat, amount: nat)

  /** How far a call of transitionPurchase has come: past its check, its lot inserted, its reserve inserted. */
  datatype Stage = Checked | LotOpened | ReserveHeld

  datatype Call = Call(purchase: nat, to: PurchaseStatus, stage: Stage)

  /** `refills` are the lots a refill was requested for, `calls` the transitions in flight. */
  datatype State = State(purchases: map<nat, Purchase>, lots: map<nat, Lot>, reservations: map<nat, Reservation>,
                         held: seq<Held>, refills: seq<nat>, calls: map<nat, Call>)

  const Empty: State := State(map[], map[], map[], [], [], map[])

  /** A percentage of an amount, rounded half up to the paisa. */
  function Share(total: nat, percent: nat): nat { HalfUp(total * percent) }

  /** Ten-thousandths rounded half up. */
  function HalfUp(x: nat): nat { (2 * x + 10000) / 20000 }

  // ── Steps ───────────────────────────────────────────────────────────────────────────────────

  /** The read of the purchase and the check of its transition. */
  function CheckOf(s: State, c: nat, p: nat, to: PurchaseStatus): State {
    if c in s.calls || p !in s.purchases || !CanTransition(s.purchases[p].status, to) then s
    else s.(calls := s.calls[c := Call(p, to, Checked)])
  }

  predicate Ready(s: State, c: nat, stage: Stage) {
    c in s.calls && s.calls[c].stage == stage && s.calls[c].purchase in s.purchases
  }

  /** The lot a confirmation opens: the priority share of its purchase. */
  function LotFor(s: State, c: nat): Lot
    requires Ready(s, c, Checked)
  {
    var p := s.calls[c].purchase; Lot(p, Share(s.purchases[p].total, s.purchases[p].priority), 0, 0, true)
  }

  /** confirm-funds inserts its lot. */
  function OpenLotOf(s: State, c: nat, lot: nat): State {
    if !Ready(s, c, Checked) || !s.calls[c].to.Active? || lot in s.lots then s
    else s.(lots := s.lots[lot := LotFor(s, c)], calls := s.calls[c := s.calls[c].(stage := LotOpened)])
  }

  /** Then its security share. */
  function HoldOf(s: State, c: nat): State {
    if !Ready(s, c, LotOpened) then s
    else
      var p := s.calls[c].purchase;
      s.(held := s.held + [Held(p, Share(s.purchases[p].total, s.purchases[p].security))],
         calls := s.calls[c := s.calls[c].(stage := ReserveHeld)])
  }

  /** The last statement of a transition: the status, whatever it is by now. */
  function WriteOf(s: State, c: nat): State {
    if c !in s.calls || !Ready(s, c, if s.calls[c].to.Active? then ReserveHeld else Checked) then s
    else
      var p := s.calls[c].purchase;
      s.(purchases := s.purchases[p := s.purchases[p].(status := s.calls[c].to)], calls := s.calls - {c})
  }

  /** A transition nobody interrupts, as one change. */
  function TransitionOf(s: State, p: nat, to: PurchaseStatus, lot: nat): State {
    if p !in s.purchases || !CanTransition(s.purchases[p].status, to) then s
    else
      var b := s.purchases[p];
      var t := s.(purchases := s.purchases[p := b.(status := to)]);
      if !to.Active? then t
      else t.(lots := s.lots[lot := Lot(p, Share(b.total, b.priority), 0, 0, true)], held := s.held + [Held(p, Share(b.total, b.security))])
  }

  predicate Free(l: Lot, amount: nat) { l.open && l.quota - l.reserved - l.consumed >= amount }

  /** The lots a reservation may use: the banker's, or those a merchant repays while their purchase is ACTIVE. */
  predicate Eligible(s: State, lot: nat, who: Payer, amount: nat) {
    && lot in s.lots && s.lots[lot].purchase in s.purchases && Free(s.lots[lot], amount)
    && var p := s.purchases[s.lots[lot].purchase];
       match who
       case Banker(b) => p.banker == b
       case Merchant(m) => p.payinMerchant == m && p.status.Active?
  }

  datatype Payer = Banker(banker: string) | Merchant(code: string)

  function Age(s: State, lot: nat): nat
    requires lot in s.lots && s.lots[lot].purchase in s.purchases
  {
    s.purchases[s.lots[lot].purchase].createdAt
  }

  /** First in, first out across lots. */
  ghost predicate Oldest(s: State, lot: nat, who: Payer, amount: nat) {
    Eligible(s, lot, who, amount) && forall l :: Eligible(s, l, who, amount) ==> Age(s, lot) <= Age(s, l)
  }

  ghost predicate NoRoom(s: State, who: Payer, amount: nat) {
    forall l :: l in s.lots ==> !Eligible(s, l, who, amount)
  }

  ghost function ReserveOf(s: State, r: nat, who: Payer, amount: nat, lot: nat): State {
    if r in s.reservations || amount == 0 || !Oldest(s, lot, who, amount) then s
    else s.(lots := s.lots[lot := s.lots[lot].(reserved := s.lots[lot].reserved + amount)],
            reservations := s.reservations[r := Reservation(lot, amount, Reserved)])
  }

  /** A reservation still to be consumed or released. */
  predicate Live(s: State, r: nat) {
    r in s.reservations && s.reservations[r].status.Reserved? && s.reservations[r].lot in s.lots
  }

  /** RESERVED to CONSUMED; the last consumption exhausts the lot, its purchase if ACTIVE, and asks for a refill. */
  function ConsumeOf(s: State, r: nat): State {
    if !Live(s, r) then s
    else
      var v := s.reservations[r];
      var l := s.lots[v.lot].(reserved := s.lots[v.lot].reserved - v.amount, consumed := s.lots[v.lot].consumed + v.amount);
      var reservations := s.reservations[r := v.(status := Consumed)];
      if l.quota - l.consumed > 0 then s.(lots := s.lots[v.lot := l], reservations := reservations)
      else
        var p := l.purchase;
        s.(lots := s.lots[v.lot := l.(open := false)], reservations := reservations, refills := s.refills + [v.lot],
           purchases := if p in s.purchases && s.purchases[p].status.Active?
                        then s.purchases[p := s.purchases[p].(status := Exhausted)] else s.purchases)
  }

  function ReleaseOf(s: State, r: nat): State {
    if !Live(s, r) then s
    else
      var v := s.reservations[r];
      s.(lots := s.lots[v.lot := s.lots[v.lot].(reserved := s.lots[v.lot].reserved - v.amount)],
         reservations := s.reservations[r := v.(status := Released)])
  }

  datatype Step =
    | Buy(p: nat, purchase: Purchase)
    | Check(c: nat, p: nat, to: PurchaseStatus)
    | OpenLot(c: nat, lot: nat)
    | Hold(c: nat)
    | Write(c: nat)
    | Reserve(r: nat, who: Payer, amount: nat, lot: nat)
    | Consume(r: nat)
    | Release(r: nat)

  ghost function Apply(s: State, step: Step): State {
    match step
    case Buy(p, b) => if p in s.purchases then s else s.(purchases := s.purchases[p := b.(status := Draft)])
    case Check(c, p, to) => CheckOf(s, c, p, to)
    case OpenLot(c, lot) => OpenLotOf(s, c, lot)
    case Hold(c) => HoldOf(s, c)
    case Write(c) => WriteOf(s, c)
    case Reserve(r, who, a, lot) => ReserveOf(s, r, who, a, lot)
    case Consume(r) => ConsumeOf(s, r)
    case Release(r) => ReleaseOf(s, r)
  }

  ghost function Run(s: State, steps: seq<Step>): State
    decreases |steps|
  {
    if steps == [] then s else Run(Apply(s, steps[0]), steps[1..])
  }

  // ── What every state keeps ──────────────────────────────────────────────────────────────────

  function AmountIn(rs: map<nat, Reservation>): nat -> int {
    (r: nat) => if r in rs then rs[r].amount else 0
  }

  ghost function Of(rs: map<nat, Reservation>, lot: nat, st: ReservationStatus): set<nat> {
    set r | r in rs && rs[r].lot == lot && rs[r].status == st
  }

  ghost function SumOf(rs: map<nat, Reservation>, lot: nat, st: ReservationStatus): int {
    SumOver(Of(rs, lot, st), AmountIn(rs))
  }

  function Refills(refills: seq<nat>, lot: nat): nat {
    if refills == [] then 0 else Refills(refills[..|refills| - 1], lot) + (if refills[|refills| - 1] == lot then 1 else 0)
  }

  /** A lot against its reservations. */
  ghost predicate LotFits(s: State, lot: nat) {
    && (lot !in s.lots ==> Of(s.reservations, lot, Reserved) == {} && Of(s.reservations, lot, Consumed) == {} && Refills(s.refills, lot) == 0)
    && (lot in s.lots ==>
          var l := s.lots[lot];
          && l.reserved == SumOf(s.reservations, lot, Reserved) && l.consumed == SumOf(s.reservations, lot, Consumed)
          && l.reserved + l.consumed <= l.quota
          && (!l.open <==> l.consumed == l.quota && l.quota > 0)
          && Refills(s.refills, lot) == (if l.open then 0 else 1))
  }

  ghost predicate AmountsPositive(rs: map<nat, Reservation>) {
    forall r :: r in rs ==> rs[r].amount > 0
  }

  ghost predicate Inv(s: State) {
    AmountsPositive(s.reservations) && forall lot :: LotFits(s, lot)
  }

  /** A reservation moves to another status: the two sums move by its amount. */
  lemma Moves(rs: map<nat, Reservation>, r: nat, to: ReservationStatus, lot: nat, st: ReservationStatus)
    requires r in rs && rs[r].status.Reserved? && !to.Reserved?
    ensures var t := rs[r := rs[r].(status := to)];
            SumOf(t, lot, st) == SumOf(rs, lot, st)
              + (if lot == rs[r].lot && st == to then rs[r].amount as int else 0)
              - (if lot == rs[r].lot && st == Reserved then rs[r].amount as int else 0)
  {
    var t := rs[r := rs[r].(status := to)];
    SumOverSame(Of(rs, lot, st), AmountIn(rs), AmountIn(t));
    if lot == rs[r].lot && st == to {
      assert Of(t, lot, st) == Of(rs, lot, st) + {r};
      SumOverAdd(Of(rs, lot, st), r, AmountIn(t));
    } else if lot == rs[r].lot && st == Reserved {
      assert Of(t, lot, st) == Of(rs, lot, st) - {r};
      SumOverTake(Of(rs, lot, st), r, AmountIn(t));
    } else {
      assert Of(t, lot, st) == Of(rs, lot, st);
    }
  }

  lemma Joins(rs: map<nat, Reservation>, r: nat, v: Reservation, lot: nat, st: ReservationStatus)
    requires r !in rs && v.status.Reserved?
    ensures SumOf(rs[r := v], lot, st)
            == SumOf(rs, lot, st) + (if lot == v.lot && st == Reserved then v.amount as int else 0)
  {
    var t := rs[r := v];
    SumOverSame(Of(rs, lot, st), AmountIn(rs), AmountIn(t));
    if lot == v.lot && st == Reserved {
      assert Of(t, lot, st) == Of(rs, lot, st) + {r};
      SumOverAdd(Of(rs, lot, st), r, AmountIn(t));
    } else {
      assert Of(t, lot, st) == Of(rs, lot, st);
    }
  }

  lemma {:induction false} SumNonNegative(s: set<nat>, rs: map<nat, Reservation>)
    ensures SumOver(s, AmountIn(rs)) >= 0
    decreases s
  {
    if x :| x in s {
      SumOverTake(s, x, AmountIn(rs));
      SumNonNegative(s - {x}, rs);
    }
  }

  /** A live reservation is part of its lot's reserved sum. */
  lemma PartOfReserved(rs: map<nat, Reservation>, r: nat)
    requires r in rs && rs[r].status.Reserved?
    ensures SumOf(rs, rs[r].lot, Reserved) >= rs[r].amount && SumOf(rs, rs[r].lot, Consumed) >= 0
  {
    var live := Of(rs, rs[r].lot, Reserved);
    SumOverTake(live, r, AmountIn(rs));
    SumNonNegative(live - {r}, rs);
    SumNonNegative(Of(rs, rs[r].lot, Consumed), rs);
  }

  lemma RefillsPush(refills: seq<nat>, x: nat, lot: nat)
    ensures Refills(refills + [x], lot) == Refills(refills, lot) + (if x == lot then 1 else 0)
  {
    assert (refills + [x])[..|refills|] == refills;
  }

  lemma ReserveLot(s: State, r: nat, who: Payer, amount: nat, lot: nat, l: nat)
    requires LotFits(s, l) && ReserveOf(s, r, who, amount, lot) != s
    ensures LotFits(ReserveOf(s, r, who, amount, lot), l)
  {
    Joins(s.reservations, r, Reservation(lot, amount, Reserved), l, Reserved);
    Joins(s.reservations, r, Reservation(lot, amount, Reserved), l, Consumed);
    if l !in s.lots {
      var t := ReserveOf(s, r, who, amount, lot).reservations;
      assert Of(t, l, Reserved) == {} && Of(t, l, Consumed) == {};
    }
  }

  lemma ReserveKeeps(s: State, r: nat, who: Payer, amount: nat, lot: nat)
    requires Inv(s)
    ensures Inv(ReserveOf(s, r, who, amount, lot))
  {
    var t := ReserveOf(s, r, who, amount, lot);
    if t != s {
      forall l ensures LotFits(t, l) {
        assert LotFits(s, l);
        ReserveLot(s, r, who, amount, lot, l);
      }
    }
  }

  /** The reservation is out of Reserved and in `to`; nothing of a lot that does not exist changes. */
  lemma LeavesReserved(rs: map<nat, Reservation>, r: nat, to: ReservationStatus, l: nat)
    requires r in rs && rs[r].status.Reserved? && !to.Reserved?
    ensures var t := rs[r := rs[r].(status := to)]; var n := if l == rs[r].lot then rs[r].amount as int else 0;
            && SumOf(t, l, Reserved) == SumOf(rs, l, Reserved) - n
            && SumOf(t, l, Consumed) == SumOf(rs, l, Consumed) + (if to.Consumed? then n else 0)
            && (l != rs[r].lot ==> Of(t, l, Reserved) == Of(rs, l, Reserved) && Of(t, l, Consumed) == Of(rs, l, Consumed))
  {
    Moves(rs, r, to, l, Reserved);
    Moves(rs, r, to, l, Consumed);
  }

  lemma ReleaseOwnLot(s: State, r: nat)
    requires Live(s, r) && LotFits(s, s.reservations[r].lot)
    ensures LotFits(ReleaseOf(s, r), s.reservations[r].lot)
  {
    LeavesReserved(s.reservations, r, Released, s.reservations[r].lot);
    PartOfReserved(s.reservations, r);
  }

  lemma ReleaseOtherLot(s: State, r: nat, l: nat)
    requires LotFits(s, l) && Live(s, r) && l != s.reservations[r].lot
    ensures LotFits(ReleaseOf(s, r), l)
  {
    LeavesReserved(s.reservations, r, Released, l);
    LotSame(s, ReleaseOf(s, r), l);
  }

  lemma ReleaseKeeps(s: State, r: nat)
    requires Inv(s)
    ensures Inv(ReleaseOf(s, r))
  {
    var t := ReleaseOf(s, r);
    if Live(s, r) {
      forall l ensures LotFits(t, l) {
        assert LotFits(s, l) && LotFits(s, s.reservations[r].lot);
        if l == s.reservations[r].lot { ReleaseOwnLot(s, r); } else { ReleaseOtherLot(s, r, l); }
      }
    }
  }

  lemma ConsumeOwnLot(s: State, r: nat)
    requires Live(s, r) && LotFits(s, s.reservations[r].lot) && s.reservations[r].amount > 0
    ensures LotFits(ConsumeOf(s, r), s.reservations[r].lot)
  {
    var lot, t := s.reservations[r].lot, ConsumeOf(s, r);
    LeavesReserved(s.reservations, r, Consumed, lot);
    PartOfReserved(s.reservations, r);
    RefillsPush(s.refills, lot, lot);
    assert t.lots[lot].consumed == s.lots[lot].consumed + s.reservations[r].amount;
    assert t.reservations == s.reservations[r := s.reservations[r].(status := Consumed)];
  }

  /** A lot nothing touched fits as before. */
  lemma LotSame(s: State, t: State, l: nat)
    requires LotFits(s, l) && (l in t.lots <==> l in s.lots) && (l in s.lots ==> t.lots[l] == s.lots[l])
    requires Of(t.reservations, l, Reserved) == Of(s.reservations, l, Reserved)
    requires Of(t.reservations, l, Consumed) == Of(s.reservations, l, Consumed)
    requires SumOf(t.reservations, l, Reserved) == SumOf(s.reservations, l, Reserved)
    requires SumOf(t.reservations, l, Consumed) == SumOf(s.reservations, l, Consumed)
    requires Refills(t.refills, l) == Refills(s.refills, l)
    ensures LotFits(t, l)
  {
  }

  /** What consuming leaves of the tables for a lot it is not of. */
  lemma ConsumeFrame(s: State, r: nat, l: nat)
    requires Live(s, r) && l != s.reservations[r].lot
    ensures var t := ConsumeOf(s, r);
            && t.reservations == s.reservations[r := s.reservations[r].(status := Consumed)]
            && (l in t.lots <==> l in s.lots) && (l in s.lots ==> t.lots[l] == s.lots[l])
            && Refills(t.refills, l) == Refills(s.refills, l)
  {
    RefillsPush(s.refills, s.reservations[r].lot, l);
  }

  lemma ConsumeOtherLot(s: State, r: nat, l: nat)
    requires LotFits(s, l) && Live(s, r) && l != s.reservations[r].lot
    ensures LotFits(ConsumeOf(s, r), l)
  {
    LeavesReserved(s.reservations, r, Consumed, l);
    ConsumeFrame(s, r, l);
    LotSame(s, ConsumeOf(s, r), l);
  }

  lemma ConsumeKeeps(s: State, r: nat)
    requires Inv(s)
    ensures Inv(ConsumeOf(s, r))
  {
    var t := ConsumeOf(s, r);
    if Live(s, r) {
      forall l ensures LotFits(t, l) {
        assert LotFits(s, l) && LotFits(s, s.reservations[r].lot);
        if l == s.reservations[r].lot { ConsumeOwnLot(s, r); } else { ConsumeOtherLot(s, r, l); }
      }
    }
  }

  /** No statement of a transition touches a reservation, a refill or a lot that is there. */
  lemma PurchaseStepKeeps(s: State, step: Step)
    requires Inv(s) && (step.Buy? || step.Check? || step.OpenLot? || step.Hold? || step.Write?)
    ensures Inv(Apply(s, step))
  {
    var t := Apply(s, step);
    forall l ensures LotFits(t, l) { assert LotFits(s, l); }
  }

  lemma StepKeeps(s: State, step: Step)
    requires Inv(s)
    ensures Inv(Apply(s, step))
  {
    match step
    case Reserve(r, who, a, lot) => ReserveKeeps(s, r, who, a, lot);
    case Consume(r) => ConsumeKeeps(s, r);
    case Release(r) => ReleaseKeeps(s, r);
    case _ => PurchaseStepKeeps(s, step);
  }

  lemma {:induction false} RunKeeps(s: State, steps: seq<Step>)
    requires Inv(s)
    ensures Inv(Run(s, steps))
    decreases |steps|
  {
    if steps != [] {
      StepKeeps(s, steps[0]);
      RunKeeps(Apply(s, steps[0]), steps[1..]);
    }
  }

  // ── What the engine promises ────────────────────────────────────────────────────────────────

  /** In every run a lot's columns are the sums of its reservations, within what was allocated. */
  lemma LotsAddUp(steps: seq<Step>, lot: nat)
    requires lot in Run(Empty, steps).lots
    ensures var s := Run(Empty, steps); var l := s.lots[lot];
            && l.reserved == SumOf(s.reservations, lot, Reserved) >= 0
               && l.consumed == SumOf(s.reservations, lot, Consumed) >= 0
            && l.reserved + l.consumed <= l.quota
  {
    RunKeeps(Empty, steps);
    var s := Run(Empty, steps);
    assert LotFits(s, lot);
    SumNonNegative(Of(s.reservations, lot, Reserved), s.reservations);
    SumNonNegative(Of(s.reservations, lot, Consumed), s.reservations);
  }

  /** A lot is exhausted exactly when fully consumed; then nothing is reserved on it and one refill was asked for. */
  lemma ExhaustedExactlyWhenConsumed(steps: seq<Step>, lot: nat)
    requires lot in Run(Empty, steps).lots
    ensures var s := Run(Empty, steps); var l := s.lots[lot];
            && (!l.open <==> l.consumed == l.quota && l.quota > 0)
            && Refills(s.refills, lot) == (if l.open then 0 else 1)
            && (!l.open ==> forall r :: r in s.reservations && s.reservations[r].lot == lot ==> !s.reservations[r].status.Reserved?)
  {
    RunKeeps(Empty, steps);
    var s := Run(Empty, steps);
    assert LotFits(s, lot);
    if !s.lots[lot].open {
      forall r | r in s.reservations && s.reservations[r].lot == lot ensures !s.reservations[r].status.Reserved? {
        if s.reservations[r].status.Reserved? { PartOfReserved(s.reservations, r); }
      }
    }
  }

  /** Over any run a reservation keeps its lot and amount, and once consumed or released stays so. */
  lemma {:induction false} ReservationDecidedOnce(s: State, steps: seq<Step>, r: nat)
    requires r in s.reservations
    ensures r in Run(s, steps).reservations
    ensures var v, w := s.reservations[r], Run(s, steps).reservations[r];
            w == v.(status := w.status) && (w == v || v.status.Reserved?)
    decreases |steps|
  {
    if steps != [] {
      assert r in Apply(s, steps[0]).reservations;
      ReservationDecidedOnce(Apply(s, steps[0]), steps[1..], r);
    }
  }

  /** Reserving and releasing again leaves every lot as it was. */
  lemma ReleaseUndoesReserve(s: State, r: nat, who: Payer, amount: nat, lot: nat)
    requires r !in s.reservations && amount > 0 && Oldest(s, lot, who, amount)
    ensures var t := ReleaseOf(ReserveOf(s, r, who, amount, lot), r);
            && t.lots == s.lots && t.purchases == s.purchases && t.refills == s.refills && t.held == s.held
            && t.reservations == s.reservations[r := Reservation(lot, amount, Released)]
  {
    var u := ReserveOf(s, r, who, amount, lot);
    assert Live(u, r);
    assert u.lots[lot].(reserved := u.lots[lot].reserved - amount) == s.lots[lot];
    assert ReleaseOf(u, r).lots == s.lots;
  }

  // ── The tables ──────────────────────────────────────────────────────────────────────────────

  /** The oldest lot with room, as the locking SELECT returns it. */
  method FindLot(s: State, who: Payer, amount: nat) returns (lot: Option<nat>)
    ensures lot.Some? ==> Oldest(s, lot.value, who, amount)
    ensures lot.None? ==> NoRoom(s, who, amount)
  {
    var room := set l | l in s.lots && Eligible(s, l, who, amount);
    if room == {} {
      assert forall l :: l in s.lots && Eligible(s, l, who, amount) ==> l in room;
      return None;
    }
    var best :| best in room;
    var todo := room - {best};
    while todo != {}
      invariant best in room && todo <= room
      invariant forall l :: l in room && l !in todo ==> Age(s, best) <= Age(s, l)
    {
      var l :| l in todo;
      if Age(s, l) < Age(s, best) { best := l; }
      todo := todo - {l};
    }
    return Some(best);
  }

  class Engine {
    var purchases: map<nat, Purchase>
    var lots: map<nat, Lot>
    var reservations: map<nat, Reservation>
    var held: seq<Held>
    var refills: seq<nat>
    var calls: map<nat, Call>

    function View(): State
      reads this
    {
      State(purchases, lots, reservations, held, refills, calls)
    }

    constructor ()
      ensures View() == Empty
    {
      purchases, lots, reservations, held, refills, calls := map[], map[], map[], [], [], map[];
    }

    /** The first statement of transitionPurchase and its check. */
    method ReadStatus(c: nat, p: nat, to: PurchaseStatus) returns (ok: bool)
      requires c !in calls
      modifies this`calls
      ensures View() == CheckOf(old(View()), c, p, to)
      ensures ok <==> p in purchases && CanTransition(purchases[p].status, to)
      ensures ok ==> calls == old(calls)[c := Call(p, to, Checked)]
    {
      if p !in purchases || !CanTransition(purchases[p].status, to) { return false; }
      calls := calls[c := Call(p, to, Checked)];
      return true;
    }

    method InsertLot(c: nat, lot: nat)
      requires Ready(View(), c, Checked) && calls[c].to.Active? && lot !in lots
      modifies this`lots, this`calls
      ensures View() == OpenLotOf(old(View()), c, lot)
    {
      var p := calls[c].purchase;
      lots := lots[lot := Lot(p, Share(purchases[p].total, purchases[p].priority), 0, 0, true)];
      calls := calls[c := calls[c].(stage := LotOpened)];
    }

    method InsertReserve(c: nat)
      requires Ready(View(), c, LotOpened)
      modifies this`held, this`calls
      ensures View() == HoldOf(old(View()), c)
    {
      var p := calls[c].purchase;
      held := held + [Held(p, Share(purchases[p].total, purchases[p].security))];
      calls := calls[c := calls[c].(stage := ReserveHeld)];
    }

    method WriteStatus(c: nat)
      requires c in calls && Ready(View(), c, if calls[c].to.Active? then ReserveHeld else Checked)
      modifies this`purchases, this`calls
      ensures View() == WriteOf(old(View()), c)
    {
      var p := calls[c].purchase;
      purchases := purchases[p := purchases[p].(status := calls[c].to)];
      calls := calls - {c};
    }

    /** transitionPurchase, nobody interrupting; `lot` is the row a confirmation opens. */
    method Transition(c: nat, p: nat, to: PurchaseStatus, lot: nat) returns (ok: bool)
      requires c !in calls && lot !in lots
      modifies this
      ensures View() == TransitionOf(old(View()), p, to, lot)
      ensures ok <==> p in old(purchases) && CanTransition(old(purchases)[p].status, to)
    {
      ghost var before := View();
      ok := ReadStatus(c, p, to);
      if !ok { return; }
      if to.Active? {
        InsertLot(c, lot);
        InsertReserve(c);
      }
      WriteStatus(c);
      assert calls == before.calls;
    }

    /** reserveQuota and reserveQuotaForMerchant: the lot reserved on, or none with room. */
    method Reserve(r: nat, who: Payer, amount: nat) returns (lot: Option<nat>)
      requires r !in reservations && amount > 0
      modifies this
      ensures lot.None? ==> View() == old(View()) && NoRoom(View(), who, amount)
      ensures lot.Some? ==> old(Oldest(View(), lot.value, who, amount)) && View() == ReserveOf(old(View()), r, who, amount, lot.value)
    {
      lot := FindLot(View(), who, amount);
      if lot.None? { return; }
      lots := lots[lot.value := lots[lot.value].(reserved := lots[lot.value].reserved + amount)];
      reservations := reservations[r := Reservation(lot.value, amount, Reserved)];
    }

    method Consume(r: nat) returns (ok: bool)
      modifies this
      ensures View() == ConsumeOf(old(View()), r)
      ensures ok <==> r in old(reservations) && old(reservations)[r].status.Reserved? && old(reservations)[r].lot in old(lots)
    {
      if r !in reservations || !reservations[r].status.Reserved? || reservations[r].lot !in lots { return false; }
      var v := reservations[r];
      reservations := reservations[r := v.(status := Consumed)];
      var l := lots[v.lot].(reserved := lots[v.lot].reserved - v.amount, consumed := lots[v.lot].consumed + v.amount);
      lots := lots[v.lot := l];
      if l.quota - l.consumed <= 0 {
        lots := lots[v.lot := l.(open := false)];
        if l.purchase in purchases && purchases[l.purchase].status.Active? {
          purchases := purchases[l.purchase := purchases[l.purchase].(status := Exhausted)];
        }
        refills := refills + [v.lot];
      }
      return true;
    }

    method Release(r: nat) returns (ok: bool)
      modifies this
      ensures View() == ReleaseOf(old(View()), r)
      ensures ok <==> r in old(reservations) && old(reservations)[r].status.Reserved? && old(reservations)[r].lot in old(lots)
    {
      if r !in reservations || !reservations[r].status.Reserved? || reservations[r].lot !in lots { return false; }
      var v := reservations[r];
      reservations := reservations[r := v.(status := Released)];
      lots := lots[v.lot := lots[v.lot].(reserved := lots[v.lot].reserved - v.amount)];
      return true;
    }
  }
}
