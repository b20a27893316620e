/**
 What each call of the quota engine writes (apps/admin-dashboard/src/lib/dt-engine.ts, lines 63-184, and dt.ts, lines
 13-25 and 106-137), read from the tables alone: which lot a reservation takes, what a confirmation opens, and the
 way of a purchase.
 */
module QuotaDecisions {
  import opened Options
  import opened QuotaEngine
  import opened DtPurchases

  // ── A purchase and its two shares ───────────────────────────────────────────────────────────

  /** The nearest paisa to the percentage of the total, half a paisa upwards. */
  predicate IsShare(total: nat, percent: nat, share: nat) { -5000 < share * 10000 - total * percent <= 5000 }

  lemma ShareIs(total: nat, percent: nat)
    ensures IsShare(total, percent, Share(total, percent))
  {
    var x: nat := total * percent;
    assert -5000 < HalfUp(x) * 10000 - x <= 5000;
  }

  /** The priority share becomes quota with nothing reserved or used of it yet; the security share is held. */
  lemma ConfirmationOpens(s: State, c: nat, lot: nat)
    requires c in s.calls && s.calls[c].to.Active? && s.calls[c].purchase in s.purchases && lot !in s.lots
    ensures var p := s.calls[c].purchase; var b := s.purchases[p];
            && (s.calls[c].stage == Checked ==>
                  var t := OpenLotOf(s, c, lot);
                  && t == s.(lots := t.lots, calls := s.calls[c := Call(p, Active, LotOpened)])
                  && t.lots.Keys == s.lots.Keys + {lot} && (forall l :: l in s.lots ==> t.lots[l] == s.lots[l])
                  && t.lots[lot].purchase == p && IsShare(b.total, b.priority, t.lots[lot].quota)
                  && t.lots[lot].reserved == 0 && t.lots[lot].consumed == 0 && t.lots[lot].open)
            && (s.calls[c].stage == LotOpened ==>
                  var t := HoldOf(s, c);
                  && t == s.(held := t.held, calls := s.calls[c := Call(p, Active, ReserveHeld)])
                  && |t.held| == |s.held| + 1 && t.held[..|s.held|] == s.held
                  && t.held[|s.held|].purchase == p && IsShare(b.total, b.security, t.held[|s.held|].amount))
  {
    ShareIs(s.purchases[s.calls[c].purchase].total, s.purchases[s.calls[c].purchase].priority);
    ShareIs(s.purchases[s.calls[c].purchase].total, s.purchases[s.calls[c].purchase].security);
  }

  /** The moves a purchase may make, all of them. */
  lemma MovesAllowed(from: PurchaseStatus, to: PurchaseStatus)
    ensures CanTransition(from, to) <==>
              (from, to) in {(Draft, PendingApproval), (PendingApproval, AwaitingFunds), (AwaitingFunds, FundsSubmitted),
                             (FundsSubmitted, Active), (Active, Exhausted), (Active, Suspended), (Active, Closed),
                             (Exhausted, Refilled), (Exhausted, Closed), (Draft, Rejected), (PendingApproval, Rejected),
                             (AwaitingFunds, Rejected), (FundsSubmitted, Rejected)}
  {
  }

  /** A transition left alone: refused with nothing changed, or the status, and of a confirmation its lot and reserve. */
  lemma TransitionExactly(s: State, p: nat, to: PurchaseStatus, lot: nat)
    requires lot !in s.lots
    ensures var t := TransitionOf(s, p, to, lot);
            if !(p in s.purchases && CanTransition(s.purchases[p].status, to)) then t == s
            else
              var b := s.purchases[p];
              && t.purchases == s.purchases[p := b.(status := to)]
              && t.reservations == s.reservations && t.refills == s.refills && t.calls == s.calls
              && (to != Active ==> t.lots == s.lots && t.held == s.held)
              && (to == Active ==>
                    && lot in t.lots && t.lots == s.lots[lot := t.lots[lot]] && |t.held| == |s.held| + 1
                    && t.held[..|s.held|] == s.held
                    && t.lots[lot] == Lot(p, t.lots[lot].quota, 0, 0, true)
                    && IsShare(b.total, b.priority, t.lots[lot].quota)
                    && t.held[|s.held|].purchase == p && IsShare(b.total, b.security, t.held[|s.held|].amount))
  {
    if p in s.purchases {
      ShareIs(s.purchases[p].total, s.purchases[p].priority);
      ShareIs(s.purchases[p].total, s.purchases[p].security);
    }
  }

  /** Every lot is the priority share of its purchase's total, and every reserve the security share. */
  ghost predicate SharesFit(s: State) {
    && (forall l :: l in s.lots ==>
          && s.lots[l].purchase in s.purchases
          && IsShare(s.purchases[s.lots[l].purchase].total, s.purchases[s.lots[l].purchase].priority, s.lots[l].quota))
    && (forall k :: 0 <= k < |s.held| ==>
          && s.held[k].purchase in s.purchases
          && IsShare(s.purchases[s.held[k].purchase].total, s.purchases[s.held[k].purchase].security, s.held[k].amount))
  }

  /** Purchases keep their terms, lots their purchase and quota, reserves everything. */
  ghost predicate TermsKept(s: State, t: State) {
    && (forall p :: p in s.purchases ==>
          p in t.purchases && t.purchases[p] == s.purchases[p].(status := t.purchases[p].status))
    && (forall l :: l in s.lots ==>
          l in t.lots && t.lots[l].purchase == s.lots[l].purchase && t.lots[l].quota == s.lots[l].quota)
    && s.held <= t.held
  }

  lemma ReservingKeepsTerms(s: State, step: Step)
    requires step.Reserve? || step.Consume? || step.Release?
    ensures var t := Apply(s, step); TermsKept(s, t) && t.lots.Keys == s.lots.Keys && t.held == s.held
  {
  }

  lemma TransitionKeepsTerms(s: State, step: Step)
    requires !(step.Reserve? || step.Consume? || step.Release?)
    ensures TermsKept(s, Apply(s, step))
    ensures !step.OpenLot? ==> Apply(s, step).lots.Keys == s.lots.Keys
    ensures !step.Hold? ==> Apply(s, step).held == s.held
  {
  }

  lemma StepKeepsTerms(s: State, step: Step)
    ensures TermsKept(s, Apply(s, step))
    ensures !step.OpenLot? ==> Apply(s, step).lots.Keys == s.lots.Keys
    ensures !step.Hold? ==> Apply(s, step).held == s.held
  {
    if step.Reserve? || step.Consume? || step.Release? {
      ReservingKeepsTerms(s, step);
    } else {
      TransitionKeepsTerms(s, step);
    }
  }

  lemma StepKeepsShares(s: State, step: Step)
    requires SharesFit(s)
    ensures SharesFit(Apply(s, step))
  {
    var t := Apply(s, step);
    StepKeepsTerms(s, step);
    if step.OpenLot? && t != s { ConfirmationOpens(s, step.c, step.lot); }
    if step.Hold? && t != s {
      var b := s.purchases[s.calls[step.c].purchase];
      ShareIs(b.total, b.security);
      assert t.held == s.held + [t.held[|s.held|]];
    }
  }

  lemma {:induction false} RunKeepsShares(s: State, steps: seq<Step>)
    requires SharesFit(s)
    ensures SharesFit(Run(s, steps))
    decreases |steps|
  {
    if steps != [] {
      StepKeepsShares(s, steps[0]);
      RunKeepsShares(Apply(s, steps[0]), steps[1..]);
    }
  }

  /**
   In every run a lot is allocated the priority share of its purchase, and a reserve holds the security share; the
   two shares of a 60/40 purchase are its total, to the paisa.
   */
  lemma LotsAndReservesAreShares(steps: seq<Step>, lot: nat, k: nat)
    requires var s := Run(Empty, steps); lot in s.lots && k < |s.held| && s.lots[lot].purchase == s.held[k].purchase
    ensures var s := Run(Empty, steps); var p := s.held[k].purchase;
            && p in s.purchases && var b := s.purchases[p];
               && IsShare(b.total, b.priority, s.lots[lot].quota) && IsShare(b.total, b.security, s.held[k].amount)
               && (b.priority == 6000 && b.security == 4000 ==> s.lots[lot].quota + s.held[k].amount == b.total)
  {
    RunKeepsShares(Empty, steps);
    var s := Run(Empty, steps);
    var b := s.purchases[s.held[k].purchase];
    OneShare(b.total, b.priority, s.lots[lot].quota);
    OneShare(b.total, b.security, s.held[k].amount);
    DefaultSplitAddsUp(b.total);
  }

  lemma OneShare(total: nat, percent: nat, share: nat)
    requires IsShare(total, percent, share)
    ensures share == Share(total, percent)
  {
    ShareIs(total, percent);
  }

  // ── No purchase is confirmed without its shares ─────────────────────────────────────────────

  ghost predicate HasReserve(s: State, p: nat) { exists k :: 0 <= k < |s.held| && s.held[k].purchase == p }

  /** How far a call has come is what there is of its purchase. */
  ghost predicate CallShares(s: State, c: nat) {
    c in s.calls ==>
      var p, call := s.calls[c].purchase, s.calls[c];
      && (!call.stage.Checked? || (Past(call.to) && !call.to.Active?) ==> HasLot(s, p))
      && (call.stage.ReserveHeld? || (Past(call.to) && !call.to.Active?) ==> HasReserve(s, p))
  }

  ghost predicate PurchaseShares(s: State, p: nat) {
    p in s.purchases && Past(s.purchases[p].status) ==> HasLot(s, p) && HasReserve(s, p)
  }

  ghost predicate Shared(s: State) { (forall c :: CallShares(s, c)) && forall p :: PurchaseShares(s, p) }

  lemma SharesStay(s: State, t: State, p: nat)
    requires TermsKept(s, t)
    ensures HasLot(s, p) ==> HasLot(t, p)
    ensures HasReserve(s, p) ==> HasReserve(t, p)
  {
    if HasLot(s, p) {
      var l :| l in s.lots && s.lots[l].purchase == p;
      assert l in t.lots && t.lots[l].purchase == p;
    }
    if HasReserve(s, p) {
      var k :| 0 <= k < |s.held| && s.held[k].purchase == p;
      assert t.held[k].purchase == p;
    }
  }

  /** A call is as it was, or has just been checked or had a share inserted. */
  lemma CallMoves(s: State, step: Step, c: nat)
    requires c in Apply(s, step).calls
    ensures var t := Apply(s, step); var call := t.calls[c];
            || (c in s.calls && s.calls[c] == call)
            || (call.stage.Checked? && call.purchase in s.purchases
                && CanTransition(s.purchases[call.purchase].status, call.to))
            || (c in s.calls && s.calls[c].purchase == call.purchase && s.calls[c].stage.Checked?
                && call.stage.LotOpened? && call.to.Active? && HasLot(t, call.purchase))
            || (c in s.calls && s.calls[c].purchase == call.purchase && s.calls[c].stage.LotOpened?
                && call.stage.ReserveHeld? && call.to == s.calls[c].to && HasReserve(t, call.purchase))
  {
    var t := Apply(s, step);
    if step.OpenLot? && t != s { assert t.lots[step.lot].purchase == s.calls[step.c].purchase; }
    if step.Hold? && t != s { assert t.held[|s.held|].purchase == s.calls[step.c].purchase; }
  }

  /** A purchase is as it was, is new, is exhausted, or takes the status of a call at its last statement. */
  lemma PurchaseMoves(s: State, step: Step, p: nat)
    requires p in Apply(s, step).purchases
    ensures var to := Apply(s, step).purchases[p].status;
            || (p in s.purchases && s.purchases[p].status == to) || to.Draft?
            || (p in s.purchases && s.purchases[p].status.Active? && to.Exhausted?)
            || (step.Write? && step.c in s.calls && s.calls[step.c].purchase == p && s.calls[step.c].to == to
                && s.calls[step.c].stage == if to.Active? then ReserveHeld else Checked)
  {
  }

  lemma StepKeepsShared(s: State, step: Step)
    requires Shared(s)
    ensures Shared(Apply(s, step))
  {
    var t := Apply(s, step);
    StepKeepsTerms(s, step);
    forall c ensures CallShares(t, c) {
      if c in t.calls {
        CallMoves(s, step, c);
        assert CallShares(s, c) && PurchaseShares(s, t.calls[c].purchase);
        SharesStay(s, t, t.calls[c].purchase);
      }
    }
    forall p ensures PurchaseShares(t, p) {
      if p in t.purchases {
        PurchaseMoves(s, step, p);
        assert PurchaseShares(s, p);
        if step.Write? { assert CallShares(s, step.c); }
        SharesStay(s, t, p);
      }
    }
  }

  lemma {:induction false} RunKeepsShared(s: State, steps: seq<Step>)
    requires Shared(s)
    ensures Shared(Run(s, steps))
    decreases |steps|
  {
    if steps != [] {
      StepKeepsShared(s, steps[0]);
      RunKeepsShared(Apply(s, steps[0]), steps[1..]);
    }
  }

  /** However calls interleave, a purchase that was ever confirmed has a lot and a reserve. */
  lemma ConfirmedHasItsShares(steps: seq<Step>, p: nat)
    requires var s := Run(Empty, steps); p in s.purchases && Past(s.purchases[p].status)
    ensures var s := Run(Empty, steps);
            && (exists l :: l in s.lots && s.lots[l].purchase == p)
            && exists k :: 0 <= k < |s.held| && s.held[k].purchase == p
  {
    RunKeepsShared(Empty, steps);
    assert PurchaseShares(Run(Empty, steps), p);
  }

  // ── The way of a purchase ───────────────────────────────────────────────────────────────────

  /** How far along a purchase is. */
  function Rank(st: PurchaseStatus): nat {
    match st
    case Draft => 0 case PendingApproval => 1 case AwaitingFunds => 2 case FundsSubmitted => 3 case Active => 4
    case Exhausted => 5 case Suspended => 6 case Refilled => 6 case Closed => 7 case Rejected => 8
  }

  predicate Onward(from: PurchaseStatus, to: PurchaseStatus) { from == to || Rank(from) < Rank(to) }

  /** A transition in flight still leads onward; one that exhausts may find its purchase exhausted by then. */
  ghost predicate CallLeads(s: State, c: nat) {
    c in s.calls ==>
      s.calls[c].purchase in s.purchases
      && var from, to := s.purchases[s.calls[c].purchase].status, s.calls[c].to;
         Rank(from) < Rank(to) || (from.Exhausted? && to.Exhausted?)
  }

  ghost predicate CallsLead(s: State) { forall c :: CallLeads(s, c) }

  ghost predicate Climbs(s: State, t: State) {
    forall p :: p in s.purchases ==> p in t.purchases && Onward(s.purchases[p].status, t.purchases[p].status)
  }

  lemma WriteClimbs(s: State, c: nat)
    requires CallsLead(s) && OneCallEach(s)
    ensures CallsLead(WriteOf(s, c)) && Climbs(s, WriteOf(s, c))
  {
    var t := WriteOf(s, c);
    assert CallLeads(s, c);
    forall d ensures CallLeads(t, d) { assert CallLeads(s, d); }
  }

  lemma ConsumeClimbs(s: State, r: nat)
    requires CallsLead(s)
    ensures CallsLead(ConsumeOf(s, r)) && Climbs(s, ConsumeOf(s, r))
  {
    var t := ConsumeOf(s, r);
    forall d ensures CallLeads(t, d) { assert CallLeads(s, d); }
  }

  lemma StepClimbs(s: State, step: Step)
    requires CallsLead(s) && OneCallEach(s)
    ensures CallsLead(Apply(s, step)) && Climbs(s, Apply(s, step))
  {
    if step.Write? {
      WriteClimbs(s, step.c);
    } else if step.Consume? {
      ConsumeClimbs(s, step.r);
    } else {
      forall d ensures CallLeads(Apply(s, step), d) { assert CallLeads(s, d); }
    }
  }

  lemma {:induction false} RunClimbs(s: State, steps: seq<Step>)
    requires OneInv(s) && CallsLead(s) && Serial(s, steps)
    ensures CallsLead(Run(s, steps)) && Climbs(s, Run(s, steps))
    decreases |steps|
  {
    if steps != [] {
      StepClimbs(s, steps[0]);
      StepKeepsOne(s, steps[0]);
      RunClimbs(Apply(s, steps[0]), steps[1..]);
    }
  }

  /** While no two transitions of one purchase overlap, a purchase never moves back. */
  lemma SerialStatusClimbs(before: seq<Step>, after: seq<Step>, p: nat)
    requires Serial(Empty, before) && Serial(Run(Empty, before), after) && p in Run(Empty, before).purchases
    ensures var s, t := Run(Empty, before), Run(Run(Empty, before), after);
            p in t.purchases && (t.purchases[p].status == s.purchases[p].status
                                 || Rank(t.purchases[p].status) > Rank(s.purchases[p].status))
  {
    SerialKeepsOne(Empty, before);
    RunClimbs(Empty, before);
    RunClimbs(Run(Empty, before), after);
  }

  // ── Reserving ───────────────────────────────────────────────────────────────────────────────

  /** The lot is open with that much left, and is the banker's, or of the merchant's while its purchase is ACTIVE. */
  ghost predicate MayReserveOn(s: State, lot: nat, who: Payer, amount: nat) {
    && lot in s.lots && s.lots[lot].open && s.lots[lot].reserved + s.lots[lot].consumed + amount <= s.lots[lot].quota
    && s.lots[lot].purchase in s.purchases
    && (who.Banker? ==> s.purchases[s.lots[lot].purchase].banker == who.banker)
    && (who.Merchant? ==>
          && s.purchases[s.lots[lot].purchase].payinMerchant == who.code
          && s.purchases[s.lots[lot].purchase].status == Active)
  }

  /** A reservation takes its amount of the lot, and none it may use was bought earlier. */
  lemma ReservesExactly(s: State, r: nat, who: Payer, amount: nat, lot: nat)
    ensures var t := ReserveOf(s, r, who, amount, lot);
            if r !in s.reservations && amount > 0 && MayReserveOn(s, lot, who, amount)
               && forall l :: MayReserveOn(s, l, who, amount) ==>
                    s.purchases[s.lots[lot].purchase].createdAt <= s.purchases[s.lots[l].purchase].createdAt
            then
              && t.lots == s.lots[lot := s.lots[lot].(reserved := s.lots[lot].reserved + amount)]
              && t.reservations == s.reservations[r := Reservation(lot, amount, Reserved)]
              && t == s.(lots := t.lots, reservations := t.reservations)
            else t == s
  {
    forall l ensures MayReserveOn(s, l, who, amount) <==> Eligible(s, l, who, amount) { }
  }

  /** A reservation is turned away exactly when no lot may take it. */
  lemma NoRoomExactly(s: State, who: Payer, amount: nat)
    ensures NoRoom(s, who, amount) <==> forall l :: !MayReserveOn(s, l, who, amount)
  {
    forall l ensures MayReserveOn(s, l, who, amount) <==> Eligible(s, l, who, amount) { }
  }

  // ── Consuming and releasing ─────────────────────────────────────────────────────────────────

  /**
   Consuming moves the amount from reserved to consumed; the lot that is used up with it closes, an ACTIVE purchase is
   exhausted with it, and one refill is asked for. Releasing only gives the amount back.
   */
  lemma ConsumesExactly(s: State, r: nat)
    requires Live(s, r)
    ensures var t, v := ConsumeOf(s, r), s.reservations[r];
            var l := s.lots[v.lot]; var left := l.quota - l.consumed - v.amount;
            && t.reservations == s.reservations[r := Reservation(v.lot, v.amount, Consumed)]
            && t.held == s.held && t.calls == s.calls
            && t.lots == s.lots[v.lot := Lot(l.purchase, l.quota, l.reserved - v.amount, l.consumed + v.amount,
                                             l.open && left > 0)]
            && t.refills == s.refills + (if left > 0 then [] else [v.lot])
            && t.purchases.Keys == s.purchases.Keys
            && (forall p :: p in s.purchases ==>
                  t.purchases[p] == if left <= 0 && p == l.purchase && s.purchases[p].status == Active
                                    then s.purchases[p].(status := Exhausted) else s.purchases[p])
  {
    assert s.refills + [] == s.refills;
  }

  lemma ReleasesExactly(s: State, r: nat)
    requires Live(s, r)
    ensures var t, v := ReleaseOf(s, r), s.reservations[r]; var l := s.lots[v.lot];
            && t.reservations == s.reservations[r := Reservation(v.lot, v.amount, Released)]
            && t.lots == s.lots[v.lot := Lot(l.purchase, l.quota, l.reserved - v.amount, l.consumed, l.open)]
            && t == s.(lots := t.lots, reservations := t.reservations)
  {
  }

  /** A reservation that is decided, or is not there, changes nothing. */
  lemma OnlyLiveAreDecided(s: State, r: nat)
    requires !(r in s.reservations && s.reservations[r].status == Reserved && s.reservations[r].lot in s.lots)
    ensures ConsumeOf(s, r) == s && ReleaseOf(s, r) == s
  {
  }
}
