/**
 What becomes of a purchase (apps/admin-dashboard/src/lib/dt.ts, lines 106-137): one lot, while no two of its
 transitions overlap, for these check and write in separate statements; and two shares of its total.
 */
module DtPurchases {
  import opened QuotaEngine

  ghost predicate OneLotEach(s: State) {
    forall a, b :: a in s.lots && b in s.lots && s.lots[a].purchase == s.lots[b].purchase ==> a == b
  }

  /** A call of transitionPurchase on the purchase is in flight. */
  predicate InFlight(s: State, p: nat) { exists c :: c in s.calls && s.calls[c].purchase == p }

  /** No transition of a purchase starts while another of it is in flight. */
  ghost predicate Serial(s: State, steps: seq<Step>)
    decreases |steps|
  {
    steps != [] ==> (steps[0].Check? ==> !InFlight(s, steps[0].p)) && Serial(Apply(s, steps[0]), steps[1..])
  }

  /** Confirmed at some time. */
  predicate Past(st: PurchaseStatus) { st.Active? || st.Exhausted? || st.Suspended? || st.Closed? || st.Refilled? }

  ghost predicate HasLot(s: State, p: nat) { exists l :: l in s.lots && s.lots[l].purchase == p }

  /** A confirmation of the purchase is in flight and has opened its lot. */
  predicate Opening(s: State, c: nat, p: nat) {
    c in s.calls && s.calls[c].purchase == p && s.calls[c].to.Active? && !s.calls[c].stage.Checked?
  }

  /** The purchase of a lot is past confirmation, or its confirmation is in flight and opened the lot. */
  ghost predicate LotHome(s: State, l: nat) {
    l in s.lots ==>
      var p := s.lots[l].purchase;
      p in s.purchases && (Past(s.purchases[p].status) || exists c :: Opening(s, c, p))
  }

  /** What a call in flight may rely on while no other call of its purchase is. */
  ghost predicate CallFits(s: State, c: nat) {
    c in s.calls ==>
      var p := s.calls[c].purchase;
      && p in s.purchases && (Past(s.purchases[p].status) ==> Past(s.calls[c].to))
      && (s.calls[c].to.Active? ==> s.purchases[p].status.FundsSubmitted? && (s.calls[c].stage.Checked? ==> !HasLot(s, p)))
  }

  ghost predicate OneCallEach(s: State) {
    forall c, d :: c in s.calls && d in s.calls && s.calls[c].purchase == s.calls[d].purchase ==> c == d
  }

  ghost predicate OneInv(s: State) {
    OneLotEach(s) && OneCallEach(s) && (forall l :: LotHome(s, l)) && forall c :: CallFits(s, c)
  }

  lemma CheckKeepsOne(s: State, c: nat, p: nat, to: PurchaseStatus)
    requires OneInv(s) && !InFlight(s, p)
    ensures OneInv(CheckOf(s, c, p, to))
  {
    var t := CheckOf(s, c, p, to);
    if t != s {
      forall l ensures LotHome(t, l) {
        assert LotHome(s, l);
        if l in s.lots && !Past(s.purchases[s.lots[l].purchase].status) {
          var d :| Opening(s, d, s.lots[l].purchase);
          assert Opening(t, d, s.lots[l].purchase);
        }
      }
      if to.Active? {
        forall l | l in s.lots ensures s.lots[l].purchase != p { assert LotHome(s, l); }
      }
      forall d ensures CallFits(t, d) { assert CallFits(s, d); }
    }
  }

  lemma OpenLotKeepsOne(s: State, c: nat, lot: nat)
    requires OneInv(s)
    ensures OneInv(OpenLotOf(s, c, lot))
  {
    var t := OpenLotOf(s, c, lot);
    if t != s {
      assert CallFits(s, c);
      assert Opening(t, c, t.lots[lot].purchase);
      forall l ensures LotHome(t, l) {
        assert LotHome(s, l);
        if l in s.lots {
          assert s.lots[l].purchase != s.calls[c].purchase;
          var p := s.lots[l].purchase;
          if !Past(s.purchases[p].status) {
            var d :| Opening(s, d, p);
            assert Opening(t, d, p);
          }
        }
      }
      forall d ensures CallFits(t, d) { assert CallFits(s, d); }
    }
  }

  lemma HoldKeepsOne(s: State, c: nat)
    requires OneInv(s)
    ensures OneInv(HoldOf(s, c))
  {
    var t := HoldOf(s, c);
    if t != s {
      forall l ensures LotHome(t, l) {
        assert LotHome(s, l);
        if l in s.lots && !Past(s.purchases[s.lots[l].purchase].status) {
          var d :| Opening(s, d, s.lots[l].purchase);
          assert Opening(t, d, s.lots[l].purchase);
        }
      }
      forall d ensures CallFits(t, d) { assert CallFits(s, d) && CallFits(s, c); }
    }
  }

  lemma WriteKeepsOne(s: State, c: nat)
    requires OneInv(s)
    ensures OneInv(WriteOf(s, c))
  {
    var t := WriteOf(s, c);
    if t != s {
      var p := s.calls[c].purchase;
      forall l ensures LotHome(t, l) {
        assert LotHome(s, l) && CallFits(s, c);
        if l in s.lots && !Past(s.purchases[s.lots[l].purchase].status) {
          var d :| Opening(s, d, s.lots[l].purchase);
          assert d != c ==> Opening(t, d, s.lots[l].purchase);
        }
      }
      forall d ensures CallFits(t, d) { assert CallFits(s, d); }
    }
  }

  /** Lots keep their purchases, and purchases move only from ACTIVE to EXHAUSTED. */
  ghost predicate ConfirmsNothing(s: State, t: State) {
    && t.calls == s.calls && t.lots.Keys == s.lots.Keys
       && (forall l :: l in s.lots ==> t.lots[l].purchase == s.lots[l].purchase)
    && (forall p :: p in s.purchases ==> p in t.purchases && (t.purchases[p] == s.purchases[p]
                                         || (s.purchases[p].status.Active? && t.purchases[p].status.Exhausted?)))
  }

  lemma NothingConfirmedKeepsOne(s: State, t: State)
    requires OneInv(s) && ConfirmsNothing(s, t)
    ensures OneInv(t)
  {
    forall l ensures LotHome(t, l) {
      assert LotHome(s, l);
      if l in s.lots && !Past(s.purchases[s.lots[l].purchase].status) {
        var d :| Opening(s, d, s.lots[l].purchase);
        assert Opening(t, d, s.lots[l].purchase);
      }
    }
    forall d ensures CallFits(t, d) {
      assert CallFits(s, d);
      if d in t.calls && HasLot(t, t.calls[d].purchase) {
        var l :| l in t.lots && t.lots[l].purchase == t.calls[d].purchase;
        assert s.lots[l].purchase == s.calls[d].purchase;
      }
    }
  }

  /** Buying, reserving, consuming and releasing confirm nothing. */
  lemma OtherStepKeepsOne(s: State, step: Step)
    requires OneInv(s) && (step.Buy? || step.Reserve? || step.Consume? || step.Release?)
    ensures OneInv(Apply(s, step))
  {
    assert ConfirmsNothing(s, Apply(s, step));
    NothingConfirmedKeepsOne(s, Apply(s, step));
  }

  lemma StepKeepsOne(s: State, step: Step)
    requires OneInv(s) && (step.Check? ==> !InFlight(s, step.p))
    ensures OneInv(Apply(s, step))
  {
    match step
    case Check(c, p, to) => CheckKeepsOne(s, c, p, to);
    case OpenLot(c, lot) => OpenLotKeepsOne(s, c, lot);
    case Hold(c) => HoldKeepsOne(s, c);
    case Write(c) => WriteKeepsOne(s, c);
    case _ => OtherStepKeepsOne(s, step);
  }

  lemma {:induction false} SerialKeepsOne(s: State, steps: seq<Step>)
    requires OneInv(s) && Serial(s, steps)
    ensures OneInv(Run(s, steps))
    decreases |steps|
  {
    if steps != [] {
      StepKeepsOne(s, steps[0]);
      SerialKeepsOne(Apply(s, steps[0]), steps[1..]);
    }
  }

  /** While no two transitions of one purchase overlap, a purchase never becomes two lots. */
  lemma ConfirmedOnce(steps: seq<Step>, a: nat, b: nat)
    requires Serial(Empty, steps)
    requires var s := Run(Empty, steps); a in s.lots && b in s.lots && s.lots[a].purchase == s.lots[b].purchase
    ensures a == b
  {
    SerialKeepsOne(Empty, steps);
  }

  /** A confirmation that inserts its lot finds none of its purchase. */
  ghost predicate InsertFits(s: State, step: Step) {
    step.OpenLot? && OpenLotOf(s, step.c, step.lot) != s ==> !HasLot(s, s.calls[step.c].purchase)
  }

  ghost predicate InsertsFit(s: State, steps: seq<Step>)
    decreases |steps|
  {
    steps != [] ==> InsertFits(s, steps[0]) && InsertsFit(Apply(s, steps[0]), steps[1..])
  }

  /** Lots stay, and stay of their purchase. */
  lemma LotsStay(s: State, step: Step)
    ensures forall l :: l in s.lots ==>
              l in Apply(s, step).lots && Apply(s, step).lots[l].purchase == s.lots[l].purchase
  {
  }

  lemma {:induction false} TwoLotsStay(s: State, steps: seq<Step>)
    requires !OneLotEach(s)
    ensures !OneLotEach(Run(s, steps))
    decreases |steps|
  {
    if steps != [] {
      LotsStay(s, steps[0]);
      var t := Apply(s, steps[0]);
      var a, b :| a in s.lots && b in s.lots && s.lots[a].purchase == s.lots[b].purchase && a != b;
      assert t.lots[a].purchase == t.lots[b].purchase;
      TwoLotsStay(t, steps[1..]);
    }
  }

  lemma OtherStepOpensNone(s: State, step: Step)
    requires !step.OpenLot?
    ensures Apply(s, step).lots.Keys == s.lots.Keys
  {
  }

  lemma StepKeepsOneExactly(s: State, step: Step)
    requires OneLotEach(s)
    ensures OneLotEach(Apply(s, step)) <==> InsertFits(s, step)
  {
    if step.OpenLot? {
      if OpenLotOf(s, step.c, step.lot) != s { ConfirmNeedsItsCheckAtTheWrite(s, step.c, step.lot); }
    } else {
      LotsStay(s, step);
      OtherStepOpensNone(s, step);
    }
  }

  lemma {:induction false} RunKeepsOneExactly(s: State, steps: seq<Step>)
    requires OneLotEach(s)
    ensures OneLotEach(Run(s, steps)) <==> InsertsFit(s, steps)
    decreases |steps|
  {
    if steps != [] {
      StepKeepsOneExactly(s, steps[0]);
      if InsertFits(s, steps[0]) {
        RunKeepsOneExactly(Apply(s, steps[0]), steps[1..]);
      } else {
        TwoLotsStay(Apply(s, steps[0]), steps[1..]);
      }
    }
  }

  /**
   However transitions interleave, no purchase becomes two lots exactly when every confirmation that inserts its
   lot finds none of its purchase, whatever its check found.
   */
  lemma OneLotExactly(steps: seq<Step>)
    ensures OneLotEach(Run(Empty, steps)) <==> InsertsFit(Empty, steps)
  {
    RunKeepsOneExactly(Empty, steps);
  }

  /** The insert itself checks nothing: it keeps one lot a purchase exactly when the purchase has none by then. */
  lemma ConfirmNeedsItsCheckAtTheWrite(s: State, c: nat, lot: nat)
    requires OneLotEach(s) && Ready(s, c, Checked) && s.calls[c].to.Active? && lot !in s.lots
    ensures OneLotEach(OpenLotOf(s, c, lot)) <==> !HasLot(s, s.calls[c].purchase)
  {
    var t := OpenLotOf(s, c, lot);
    if l :| l in s.lots && s.lots[l].purchase == s.calls[c].purchase {
      assert t.lots[l].purchase == t.lots[lot].purchase && l != lot;
    }
  }

  lemma RunOne(s: State, step: Step, rest: seq<Step>)
    ensures Run(s, [step] + rest) == Run(Apply(s, step), rest)
  {
    assert ([step] + rest)[1..] == rest;
  }

  /** One transition of a purchase, nobody interrupting. */
  lemma MovesOn(s: State, p: nat, to: PurchaseStatus, rest: seq<Step>)
    requires s.calls == map[] && p in s.purchases && CanTransition(s.purchases[p].status, to) && !to.Active?
    ensures Run(s, [Check(1, p, to)] + ([Write(1)] + rest))
            == Run(s.(purchases := s.purchases[p := s.purchases[p].(status := to)]), rest)
  {
    var t := Apply(s, Check(1, p, to));
    RunOne(s, Check(1, p, to), [Write(1)] + rest);
    RunOne(t, Write(1), rest);
    assert Apply(t, Write(1)).calls == s.calls;
  }

  const Hundred: Purchase := Purchase("b", "m", 0, 100, 6000, 4000, Draft)

  const Submitted: State := Empty.(purchases := map[1 := Hundred.(status := FundsSubmitted)])

  /** Whatever runs once the purchase's funds are submitted runs from nothing. */
  lemma SubmittedFromEmpty(rest: seq<Step>) returns (steps: seq<Step>)
    ensures Run(Empty, steps) == Run(Submitted, rest)
  {
    var submit := [Check(1, 1, FundsSubmitted)] + ([Write(1)] + rest);
    var await := [Check(1, 1, AwaitingFunds)] + ([Write(1)] + submit);
    var ask := [Check(1, 1, PendingApproval)] + ([Write(1)] + await);
    steps := [Buy(1, Hundred)] + ask;
    var drafted := Empty.(purchases := map[1 := Hundred]);
    assert Apply(Empty, Buy(1, Hundred)) == drafted;
    RunOne(Empty, Buy(1, Hundred), ask);
    MovesOn(drafted, 1, PendingApproval, await);
    var pending := drafted.(purchases := drafted.purchases[1 := Hundred.(status := PendingApproval)]);
    MovesOn(pending, 1, AwaitingFunds, submit);
    var awaiting := pending.(purchases := pending.purchases[1 := Hundred.(status := AwaitingFunds)]);
    MovesOn(awaiting, 1, FundsSubmitted, rest);
    assert awaiting.purchases[1 := Hundred.(status := FundsSubmitted)] == Submitted.purchases;
  }

  /** Two confirmations that both pass the check open two lots of one purchase. */
  lemma TwoConfirmationsOpenTwoLots() returns (steps: seq<Step>)
    ensures var s := Run(Empty, steps); 10 in s.lots && 20 in s.lots && s.lots[10].purchase == s.lots[20].purchase
  {
    steps := SubmittedFromEmpty([Check(1, 1, Active)] + ([Check(2, 1, Active)] + ([OpenLot(1, 10)] + ([OpenLot(2, 20)] + []))));
    var s1 := Apply(Submitted, Check(1, 1, Active));
    var s2 := Apply(s1, Check(2, 1, Active));
    var s3 := Apply(s2, OpenLot(1, 10));
    RunOne(Submitted, Check(1, 1, Active), [Check(2, 1, Active)] + ([OpenLot(1, 10)] + ([OpenLot(2, 20)] + [])));
    RunOne(s1, Check(2, 1, Active), [OpenLot(1, 10)] + ([OpenLot(2, 20)] + []));
    RunOne(s2, OpenLot(1, 10), [OpenLot(2, 20)] + []);
    RunOne(s3, OpenLot(2, 20), []);
  }

  // ── The split ───────────────────────────────────────────────────────────────────────────────

  lemma PartsAddUpExactly(total: nat, x: nat)
    requires x <= 10000 * total
    ensures HalfUp(x) + HalfUp(10000 * total - x) == total <==> x % 10000 != 5000
  {
    var q, r := x / 10000, x % 10000;
    assert x == 10000 * q + r;
    assert HalfUp(x) == q + (if r >= 5000 then 1 else 0);
    assert HalfUp(10000 * total - x) == total - q - (if r > 5000 then 1 else 0);
  }

  /**
   A purchase split into a priority share and the rest adds up to its total exactly unless both
   shares end in half a paisa, when both are rounded up.
   */
  lemma SplitAddsUpExactly(total: nat, priority: nat)
    requires priority <= 10000
    ensures Share(total, priority) + Share(total, 10000 - priority) == total <==> total * priority % 10000 != 5000
  {
    assert total * (10000 - priority) == 10000 * total - total * priority;
    PartsAddUpExactly(total, total * priority);
  }

  /** The default 60/40 split always adds up. */
  lemma DefaultSplitAddsUp(total: nat)
    ensures Share(total, 6000) + Share(total, 4000) == total
  {
    SplitAddsUpExactly(total, 6000);
  }
}
