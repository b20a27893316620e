/**
 What every ledger account holds after any run of completions and batches (apps/admin-dashboard/src/lib/
 fifo.ts, lines 357-375, and fifo-settlement.ts, lines 97-111): which account each part of a pay-in and of a
 batch goes to.
 */
module FifoAccounts {
  import opened Options
  import opened SetSums
  import opened Ledger
  import opened FifoSettlement

  /** A credited pay-in's part in an account: out of its provider's float, its net, its reserve and its MDR, floored. */
  function PayinPart(o: Order, provider: string, a: Account): int {
    var mdr, reserve := o.amount * 195 / 10000, o.amount * 500 / 10000;
    match a
    case PgFloat(p) => if p == provider then -(o.amount as int) else 0
    case MerchantPayable(m) => if m == o.merchant then o.amount - mdr - reserve else 0
    case MerchantReserve(m) => if m == o.merchant then reserve else 0
    case MdrEarned => mdr
    case _ => 0
  }

  /** A posted batch's part: out of the merchant's payable, into what is paid, the GST, the hold and the adjustment. */
  function BatchPart(b: Batch, a: Account): int {
    match a
    case MerchantPayable(m) => if m == b.merchant then -(b.net + b.gst + b.hold - b.adjustment) else 0
    case SettlementPayable(m) => if m == b.merchant then b.net else 0
    case GstPayable => b.gst
    case ChargebackHold(m) => if m == b.merchant && b.hold > 0 then b.hold else 0
    case AdjustmentExpense => if b.adjustment > 0 then -b.adjustment else 0
    case AdjustmentIncome => if b.adjustment < 0 then -b.adjustment else 0
    case _ => 0
  }

  lemma PayinMovesEach(m: string, p: string, o: Order, a: Account)
    requires o.merchant == m
    ensures Balance(PayinLines(m, p, o.amount), a) == PayinPart(o, p, a)
  {
    var l := PayinLines(m, p, o.amount);
    assert l == [l[0]] + [l[1]] + [l[2]] + [l[3]];
    OneLine(l[0], a); OneLine(l[1], a); OneLine(l[2], a); OneLine(l[3], a);
    BalanceConcat([l[0]], [l[1]], a); BalanceConcat([l[0]] + [l[1]], [l[2]], a);
    BalanceConcat([l[0]] + [l[1]] + [l[2]], [l[3]], a);
  }

  lemma BatchMovesEach(b: Batch, a: Account)
    ensures Balance(BatchLines(b), a) == BatchPart(b, a)
  {
    var debit, credit := Line(MerchantPayable(b.merchant), D, b.OrderNet()),
      Line(SettlementPayable(b.merchant), C, b.net);
    var gst, hold, adj := Line(GstPayable, C, b.gst), Line(ChargebackHold(b.merchant), C, b.hold),
      AdjustmentLine(b.adjustment);
    OneLine(debit, a); OneLine(credit, a);
    WhenMoves(b.gst > 0, gst, a); WhenMoves(b.hold > 0, hold, a); WhenMoves(b.adjustment != 0, adj, a);
    FiveParts([debit], [credit], When(b.gst > 0, gst), When(b.hold > 0, hold), When(b.adjustment != 0, adj), a);
  }

  // ── Over runs ───────────────────────────────────────────────────────────────────────────────

  ghost function Credited(s: State): set<nat> { set id | id in s.orders && PaymentSuccess(id) in s.book.keys }

  ghost function PostedAll(s: State): set<nat> { set b | b in s.batches && Posted(s, b) }

  /** The provider each credited pay-in was completed with. */
  type Via = map<nat, string>

  function PayinParts(orders: map<nat, Order>, via: Via, a: Account): nat -> int {
    (id: nat) => if id in orders && id in via then PayinPart(orders[id], via[id], a) else 0
  }

  function BatchParts(batches: map<nat, Batch>, a: Account): nat -> int {
    (b: nat) => if b in batches then BatchPart(batches[b], a) else 0
  }

  /** The account holds its part of every credited pay-in and of every posted batch. */
  ghost predicate Holds(s: State, via: Via, a: Account) {
    Balance(s.book.lines, a)
    == SumOver(Credited(s), PayinParts(s.orders, via, a)) + SumOver(PostedAll(s), BatchParts(s.batches, a))
  }

  /** Keys of the book are of orders and batches there are. */
  ghost predicate KeysKnown(s: State) {
    && (forall id :: PaymentSuccess(id) in s.book.keys ==> id in s.orders && !s.orders[id].status.Open?)
    && (forall b :: SettlementBatch(b) in s.book.keys ==> b in s.batches)
  }

  /** Parts keep their value while orders keep merchant and amount, and batches all but their status. */
  ghost predicate PartsKept(s: State, t: State) {
    && SameDebts(s.orders, t.orders)
    && forall b :: b in s.batches ==> b in t.batches && t.batches[b] == s.batches[b].(status := t.batches[b].status)
  }

  lemma PartsSame(s: State, t: State, via: Via, a: Account)
    requires PartsKept(s, t)
    ensures SumOver(Credited(s), PayinParts(s.orders, via, a)) == SumOver(Credited(s), PayinParts(t.orders, via, a))
    ensures SumOver(PostedAll(s), BatchParts(s.batches, a)) == SumOver(PostedAll(s), BatchParts(t.batches, a))
  {
    SumOverSame(Credited(s), PayinParts(s.orders, via, a), PayinParts(t.orders, via, a));
    SumOverSame(PostedAll(s), BatchParts(s.batches, a), BatchParts(t.batches, a));
  }

  /** A step that posts nothing. */
  lemma NothingPosted(s: State, t: State, via: Via, a: Account)
    requires Holds(s, via, a) && KeysKnown(s) && PartsKept(s, t) && t.book == s.book
    ensures Holds(t, via, a)
  {
    PartsSame(s, t, via, a);
    assert Credited(t) == Credited(s) && PostedAll(t) == PostedAll(s);
  }

  /** One more pay-in is credited: its part joins the sum, the others keep theirs. */
  lemma CreditedGains(s: State, t: State, id: nat, provider: string, via: Via, a: Account)
    requires PartsKept(s, t) && id in t.orders && id !in Credited(s)
    ensures SumOver(Credited(s) + {id}, PayinParts(t.orders, via[id := provider], a))
            == SumOver(Credited(s), PayinParts(s.orders, via, a)) + PayinPart(t.orders[id], provider, a)
  {
    var after := via[id := provider];
    SumOverSame(Credited(s), PayinParts(s.orders, via, a), PayinParts(t.orders, after, a));
    SumOverAdd(Credited(s), id, PayinParts(t.orders, after, a));
  }

  lemma PayinPosted(s: State, t: State, id: nat, provider: string, via: Via, a: Account)
    requires Holds(s, via, a) && KeysKnown(s) && PartsKept(s, t)
    requires id in t.orders && PaymentSuccess(id) !in s.book.keys
    requires t.book.keys == s.book.keys + {PaymentSuccess(id)}
    requires t.book.lines == s.book.lines + PayinLines(t.orders[id].merchant, provider, t.orders[id].amount)
    ensures Holds(t, via[id := provider], a)
  {
    PartsSame(s, t, via, a);
    CreditedGains(s, t, id, provider, via, a);
    assert Credited(t) == Credited(s) + {id} && PostedAll(t) == PostedAll(s);
    PayinMovesEach(t.orders[id].merchant, provider, t.orders[id], a);
    BalanceConcat(s.book.lines, PayinLines(t.orders[id].merchant, provider, t.orders[id].amount), a);
  }

  lemma BatchPosted(s: State, t: State, b: nat, via: Via, a: Account)
    requires Holds(s, via, a) && KeysKnown(s) && PartsKept(s, t)
    requires b in t.batches && SettlementBatch(b) !in s.book.keys
    requires t.book.keys == s.book.keys + {SettlementBatch(b)}
    requires t.book.lines == s.book.lines + BatchLines(t.batches[b])
    ensures Holds(t, via, a)
  {
    PartsSame(s, t, via, a);
    assert Credited(t) == Credited(s) && PostedAll(t) == PostedAll(s) + {b};
    SumOverAdd(PostedAll(s), b, BatchParts(t.batches, a));
    BatchMovesEach(t.batches[b], a);
    BalanceConcat(s.book.lines, BatchLines(t.batches[b]), a);
  }

  lemma SubmitKeepsParts(s: State, id: nat, o: Order)
    requires id !in s.orders
    ensures PartsKept(s, s.(orders := s.orders[id := o]))
  {
  }

  lemma CompleteKeepsParts(s: State, id: nat, provider: string)
    ensures PartsKept(s, CompleteOf(s, id, provider))
  {
  }

  lemma TagKeepsParts(s: State, b: nat, batch: Batch)
    requires b !in s.batches
    ensures PartsKept(s, TagOf(s, b, batch))
  {
  }

  lemma FinalizeKeepsParts(s: State, b: nat)
    ensures PartsKept(s, FinalizeOf(s, b))
  {
  }

  lemma RejectKeepsParts(s: State, b: nat)
    ensures PartsKept(s, RejectOf(s, b))
  {
  }

  /** A finalisation posts the batch's own journal under its own key, or nothing. */
  lemma FinalizePosts(s: State, b: nat)
    requires FinalizeOf(s, b).book != s.book
    ensures var t := FinalizeOf(s, b);
            && b in t.batches && SettlementBatch(b) !in s.book.keys
            && t.book == Book(s.book.keys + {SettlementBatch(b)}, s.book.lines + BatchLines(t.batches[b]))
  {
  }

  lemma FinalizeHolds(s: State, b: nat, via: Via, a: Account)
    requires Holds(s, via, a) && KeysKnown(s)
    ensures Holds(FinalizeOf(s, b), via, a)
  {
    var t := FinalizeOf(s, b);
    FinalizeKeepsParts(s, b);
    if t.book == s.book {
      NothingPosted(s, t, via, a);
    } else {
      FinalizePosts(s, b);
      BatchPosted(s, t, b, via, a);
    }
  }

  /** The provider is noted when the completion's journal posts. */
  function Noted(s: State, step: Step, via: Via): Via {
    if step.Complete? && CompleteOf(s, step.id, step.provider).book != s.book then via[step.id := step.provider] else via
  }

  lemma CompleteHolds(s: State, id: nat, provider: string, via: Via, a: Account)
    requires Holds(s, via, a) && KeysKnown(s)
    ensures Holds(CompleteOf(s, id, provider), Noted(s, Complete(id, provider), via), a)
  {
    var t := CompleteOf(s, id, provider);
    CompleteKeepsParts(s, id, provider);
    if t.book == s.book { NothingPosted(s, t, via, a); } else { PayinPosted(s, t, id, provider, via, a); }
  }

  lemma CreateHolds(cfg: Config, s: State, b: nat, m: string, hold: int, adj: int, via: Via, a: Account)
    requires Holds(s, via, a) && KeysKnown(s)
    ensures Holds(CreateOf(cfg, s, b, m, hold, adj).0, via, a)
  {
    var batch := BatchFor(cfg, s, m, hold, adj);
    var t := TagOf(s, b, batch);
    if b !in s.batches {
      TagKeepsParts(s, b, batch);
      NothingPosted(s, t, via, a);
      FinalizeHolds(t, b, via, a);
    }
  }

  lemma StepHolds(cfg: Config, s: State, step: Step, via: Via, a: Account)
    requires Holds(s, via, a) && KeysKnown(s)
    ensures Holds(Apply(cfg, s, step), Noted(s, step, via), a)
  {
    match step
    case Submit(id, m, x) =>
      if id !in s.orders {
        SubmitKeepsParts(s, id, Order(m, x, Open, None));
        NothingPosted(s, s.(orders := s.orders[id := Order(m, x, Open, None)]), via, a);
      }
    case Complete(id, p) => CompleteHolds(s, id, p, via, a);
    case Create(b, m, h, adj) => CreateHolds(cfg, s, b, m, h, adj, via, a);
    case Finalize(b) => FinalizeHolds(s, b, via, a);
    case Reject(b) =>
      RejectKeepsParts(s, b);
      NothingPosted(s, RejectOf(s, b), via, a);
  }

  lemma InvKnown(s: State)
    requires Inv(s)
    ensures KeysKnown(s)
  {
    forall id | PaymentSuccess(id) in s.book.keys ensures id in s.orders && !s.orders[id].status.Open? {
      assert OrderFits(s, id);
    }
    forall b | SettlementBatch(b) in s.book.keys ensures b in s.batches { assert BatchFits(s, b); }
  }

  /** Every pay-in credited has a provider noted. */
  ghost predicate AllNoted(s: State, via: Via) { forall id :: id in Credited(s) ==> id in via }

  lemma StepNotes(cfg: Config, s: State, step: Step, via: Via)
    requires AllNoted(s, via) && KeysKnown(s)
    ensures AllNoted(Apply(cfg, s, step), Noted(s, step, via))
  {
    var t := Apply(cfg, s, step);
    forall id | id in Credited(t) ensures id in Noted(s, step, via) {
      assert PaymentSuccess(id) in s.book.keys ==> id in Credited(s);
    }
  }

  lemma {:induction false} RunHolds(cfg: Config, s: State, steps: seq<Step>, before: Via) returns (via: Via)
    requires Inv(s) && AllNoted(s, before) && forall a :: Holds(s, before, a)
    ensures AllNoted(Run(cfg, s, steps), via) && forall a :: Holds(Run(cfg, s, steps), via, a)
    ensures forall id :: id in via ==> Complete(id, via[id]) in steps || (id in before && before[id] == via[id])
    decreases |steps|
  {
    via := before;
    if steps != [] {
      var t, next := Apply(cfg, s, steps[0]), Noted(s, steps[0], before);
      InvKnown(s);
      StepKeeps(cfg, s, steps[0]);
      StepNotes(cfg, s, steps[0], before);
      forall a ensures Holds(t, next, a) { StepHolds(cfg, s, steps[0], before, a); }
      via := RunHolds(cfg, t, steps[1..], next);
    }
  }

  /**
   In every run each account, every gateway's float included, holds exactly its part of the pay-ins credited and of the
   batches posted: nothing lands on another merchant's account, nor a hold in what is paid out.
   */
  lemma AccountsHoldTheirParts(cfg: Config, steps: seq<Step>) returns (via: Via)
    ensures var s := Run(cfg, Empty, steps);
            && (forall id :: id in Credited(s) ==> id in via && Complete(id, via[id]) in steps)
            && forall a :: Balance(s.book.lines, a) ==
                 SumOver(Credited(s), PayinParts(s.orders, via, a)) + SumOver(PostedAll(s), BatchParts(s.batches, a))
  {
    Reachable(cfg, []);
    assert Credited(Empty) == {} && PostedAll(Empty) == {};
    via := RunHolds(cfg, Empty, steps, map[]);
    var s := Run(cfg, Empty, steps);
    forall a ensures Balance(s.book.lines, a) ==
        SumOver(Credited(s), PayinParts(s.orders, via, a)) + SumOver(PostedAll(s), BatchParts(s.batches, a))
    {
      assert Holds(s, via, a);
    }
  }
}
