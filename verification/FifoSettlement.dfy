/**
 Settlement batches over completed pay-ins (apps/admin-dashboard/src/lib/fifo-settlement.ts and
 settlePayinToLedger of fifo.ts, lines 351-382), posted through the ledger. Amounts are paise of one
 currency. A completion, and each batch call, is one step.
 */
module FifoSettlement {
  import opened Options
  import opened SetSums
  import opened Ledger

  const MDR_BPS: nat := 195
  const RESERVE_BPS: nat := 500
  const BATCH_LIMIT: nat := 1000

  /** GST on the MDR fee, and the net from which a second person approves. */
  datatype Config = Config(gstBps: nat, approval: int)

  /** Open stands for every status before COMPLETED. */
  datatype OrderStatus = Open | Completed | Settled

  datatype Order = Order(merchant: string, amount: nat, status: OrderStatus, batch: Option<nat>)

  datatype BatchStatus = PendingApproval | Final | Rejected

  datatype Batch = Batch(merchant: string, ids: seq<nat>, gst: nat, hold: int, adjustment: int, net: int,
      status: BatchStatus)
  {
    /** What the batch debits MERCHANT_PAYABLE. */
    function OrderNet(): int { net + gst + hold - adjustment }
  }

  /** `completed` lists the orders in completion order. */
  datatype State = State(orders: map<nat, Order>, completed: seq<nat>, batches: map<nat, Batch>, book: Book)

  const Empty: State := State(map[], [], map[], Book({}, []))

  function Fee(amount: nat, bps: nat): nat { amount * bps / 10000 }

  /** What is left of an amount after MDR and reserve, each floored. */
  function NetOf(amount: nat): int { amount - Fee(amount, MDR_BPS) - Fee(amount, RESERVE_BPS) }

  function PayinLines(merchant: string, provider: string, amount: nat): seq<Line> {
    [Line(PgFloat(provider), D, amount),
     Line(MerchantPayable(merchant), C, NetOf(amount)),
     Line(MerchantReserve(merchant), C, Fee(amount, RESERVE_BPS)),
     Line(MdrEarned, C, Fee(amount, MDR_BPS))]
  }

  function When(on: bool, l: Line): seq<Line> { if on then [l] else [] }

  /** An adjustment pays the merchant more, or claws back. */
  function AdjustmentLine(adjustment: int): Line {
    if adjustment > 0 then Line(AdjustmentExpense, D, adjustment) else Line(AdjustmentIncome, C, -adjustment)
  }

  function BatchLines(b: Batch): seq<Line> {
    [Line(MerchantPayable(b.merchant), D, b.OrderNet())] + [Line(SettlementPayable(b.merchant), C, b.net)]
    + When(b.gst > 0, Line(GstPayable, C, b.gst))
    + When(b.hold > 0, Line(ChargebackHold(b.merchant), C, b.hold))
    + When(b.adjustment != 0, AdjustmentLine(b.adjustment))
  }

  // ── Steps ───────────────────────────────────────────────────────────────────────────────────

  /** An operator completes an order: COMPLETED, and its journal posted (a refusal is swallowed). */
  function CompleteOf(s: State, id: nat, provider: string): State {
    if id !in s.orders || !s.orders[id].status.Open? then s
    else
      var o := s.orders[id];
      State(s.orders[id := o.(status := Completed)], s.completed + [id], s.batches,
            PostOf(s.book, PaymentSuccess(id), PayinLines(o.merchant, provider, o.amount)))
  }

  /** A completed order of the merchant that no batch holds. */
  predicate MayTake(orders: map<nat, Order>, id: nat, m: string) {
    id in orders && orders[id].merchant == m && orders[id].status.Completed? && orders[id].batch.None?
  }

  /** The merchant's completed, untagged orders, oldest completion first. */
  function Unsettled(orders: map<nat, Order>, completed: seq<nat>, merchant: string): seq<nat> {
    if completed == [] then []
    else
      var id := completed[|completed| - 1];
      Unsettled(orders, completed[..|completed| - 1], merchant)
      + (if MayTake(orders, id, merchant) then [id] else [])
  }

  function FirstOf(ids: seq<nat>): seq<nat> {
    if |ids| > BATCH_LIMIT then ids[..BATCH_LIMIT] else ids
  }

  function Amounts(orders: map<nat, Order>, ids: seq<nat>): seq<nat> {
    seq(|ids|, i requires 0 <= i < |ids| => if ids[i] in orders then orders[ids[i]].amount else 0)
  }

  function Total(a: seq<nat>): nat { if a == [] then 0 else a[0] + Total(a[1..]) }

  function Gross(orders: map<nat, Order>, ids: seq<nat>): nat { Total(Amounts(orders, ids)) }

  datatype Answer = NothingToSettle | WouldBeNegative | AwaitsApproval | ReportedSettled

  /** The batch a create call computes from its orders. */
  function BatchFor(cfg: Config, s: State, merchant: string, hold: int, adjustment: int): Batch {
    var ids := FirstOf(Unsettled(s.orders, s.completed, merchant));
    var gross := Gross(s.orders, ids);
    var gst := Fee(Fee(gross, MDR_BPS), cfg.gstBps);
    var net := NetOf(gross) - gst - hold + adjustment;
    Batch(merchant, ids, gst, hold, adjustment, net,
          if adjustment != 0 || net >= cfg.approval then PendingApproval else Final)
  }

  function Tag(orders: map<nat, Order>, ids: seq<nat>, b: nat): map<nat, Order> {
    map id | id in orders :: if id in ids then orders[id].(batch := Some(b)) else orders[id]
  }

  function CreateOf(cfg: Config, s: State, b: nat, merchant: string, hold: int, adjustment: int): (State, Answer) {
    var batch := BatchFor(cfg, s, merchant, hold, adjustment);
    if b in s.batches || batch.ids == [] then (s, NothingToSettle)
    else if batch.net < 0 then (s, WouldBeNegative)
    else
      var t := s.(orders := Tag(s.orders, batch.ids, b), batches := s.batches[b := batch]);
      if batch.status.PendingApproval? then (t, AwaitsApproval) else (FinalizeOf(t, b), ReportedSettled)
  }

  function MarkSettled(orders: map<nat, Order>, b: nat): map<nat, Order> {
    map id | id in orders ::
      if orders[id].batch == Some(b) && orders[id].status.Completed? then orders[id].(status := Settled) else orders[id]
  }

  /** Post the batch's journal, then mark its orders; nothing happens when the ledger refuses. */
  function FinalizeOf(s: State, b: nat): State {
    if b !in s.batches || s.batches[b].status.Rejected? || Problem(BatchLines(s.batches[b])) then s
    else State(MarkSettled(s.orders, b), s.completed, s.batches[b := s.batches[b].(status := Final)],
               PostOf(s.book, SettlementBatch(b), BatchLines(s.batches[b])))
  }

  function Release(orders: map<nat, Order>, b: nat): map<nat, Order> {
    map id | id in orders :: if orders[id].batch == Some(b) then orders[id].(batch := None) else orders[id]
  }

  function RejectOf(s: State, b: nat): State {
    if b !in s.batches then s
    else s.(orders := Release(s.orders, b), batches := s.batches[b := s.batches[b].(status := Rejected)])
  }

  datatype Step =
    | Submit(id: nat, merchant: string, amount: nat)
    | Complete(id: nat, provider: string)
    | Create(b: nat, merchant: string, hold: int, adjustment: int)
    | Finalize(b: nat)
    | Reject(b: nat)

  function Apply(cfg: Config, s: State, step: Step): State {
    match step
    case Submit(id, m, a) => if id in s.orders || a == 0 then s
        else s.(orders := s.orders[id := Order(m, a, Open, None)])
    case Complete(id, p) => CompleteOf(s, id, p)
    case Create(b, m, h, a) => CreateOf(cfg, s, b, m, h, a).0
    case Finalize(b) => FinalizeOf(s, b)
    case Reject(b) => RejectOf(s, b)
  }

  function Run(cfg: Config, s: State, steps: seq<Step>): State
    decreases |steps|
  {
    if steps == [] then s else Run(cfg, Apply(cfg, s, steps[0]), steps[1..])
  }

  // ── Fees floored per order against fees floored on the total ────────────────────────────────

  /** The sum of the per-order fees. */
  function Fees(a: seq<nat>, bps: nat): nat { if a == [] then 0 else Fee(a[0], bps) + Fees(a[1..], bps) }

  /** What the per-order floors drop, in ten-thousandths of a paisa. */
  function Dropped(a: seq<nat>, bps: nat): nat { if a == [] then 0 else a[0] * bps % 10000 + Dropped(a[1..], bps) }

  function Nets(a: seq<nat>): int { if a == [] then 0 else NetOf(a[0]) + Nets(a[1..]) }

  lemma {:induction false} FeeOfTotal(a: seq<nat>, bps: nat)
    ensures Total(a) * bps == 10000 * Fees(a, bps) + Dropped(a, bps)
    ensures Dropped(a, bps) <= 9999 * |a|
    decreases |a|
  {
    if a != [] {
      FeeOfTotal(a[1..], bps);
      assert Total(a) * bps == a[0] * bps + Total(a[1..]) * bps;
    }
  }

  /** One fee on the total exceeds the fees on the parts by the whole paise their floors dropped. */
  lemma FeeShortfall(a: seq<nat>, bps: nat)
    ensures Fee(Total(a), bps) - Fees(a, bps) == Dropped(a, bps) / 10000
    ensures a != [] ==> Dropped(a, bps) / 10000 <= |a| - 1
  {
    FeeOfTotal(a, bps);
    var x, f, d := Total(a) * bps, Fees(a, bps), Dropped(a, bps);
    assert x == 10000 * f + d;
    assert x / 10000 == f + d / 10000;
  }

  lemma {:induction false} NetsAreTotalLessFees(a: seq<nat>)
    ensures Nets(a) == Total(a) - Fees(a, MDR_BPS) - Fees(a, RESERVE_BPS)
    decreases |a|
  {
    if a != [] { NetsAreTotalLessFees(a[1..]); }
  }

  /** The batch starts from less than the orders were credited by exactly the whole paise dropped. */
  lemma BatchNetShortfall(a: seq<nat>)
    ensures Nets(a) - NetOf(Total(a)) == Dropped(a, MDR_BPS) / 10000 + Dropped(a, RESERVE_BPS) / 10000
    ensures a != [] ==> 0 <= Nets(a) - NetOf(Total(a)) <= 2 * (|a| - 1)
  {
    FeeShortfall(a, MDR_BPS);
    FeeShortfall(a, RESERVE_BPS);
    NetsAreTotalLessFees(a);
  }

  /**
   "orderNet == accumulated MERCHANT_PAYABLE from these orders" (line 36 of the source) holds exactly
   when the floors drop less than one paisa in all, of MDR and of reserve each.
   */
  lemma BatchNetIsSumExactly(a: seq<nat>)
    ensures NetOf(Total(a)) == Nets(a) <==> Dropped(a, MDR_BPS) < 10000 && Dropped(a, RESERVE_BPS) < 10000
  {
    BatchNetShortfall(a);
    NoWholePaisa(Dropped(a, MDR_BPS));
    NoWholePaisa(Dropped(a, RESERVE_BPS));
  }

  lemma NoWholePaisa(d: nat)
    ensures d / 10000 >= 0 && (d / 10000 == 0 <==> d < 10000)
  {
  }

  /** Two pay-ins of 99 paise: the bound 2(n - 1) is reached. */
  lemma ShortfallBoundReached()
    ensures Nets([99, 99]) - NetOf(Total([99, 99])) == 2
  {
    BatchNetShortfall([99, 99]);
    assert [99, 99][1..] == [99];
  }

  // ── When a journal posts, and what it moves ─────────────────────────────────────────────────

  lemma OneLine(l: Line, acc: Account)
    ensures Net([l]) == l.Net() && Balance([l], acc) == (if l.account == acc then -l.Net() else 0)
  {
    assert [l][..0] == [];
  }

  lemma PayinMoves(m: string, p: string, a: nat, acc: string)
    ensures Net(PayinLines(m, p, a)) == 0
    ensures Balance(PayinLines(m, p, a), MerchantPayable(acc)) == (if acc == m then NetOf(a) else 0)
  {
    var l, pay := PayinLines(m, p, a), MerchantPayable(acc);
    assert l == [l[0]] + [l[1]] + [l[2]] + [l[3]];
    OneLine(l[0], pay); OneLine(l[1], pay); OneLine(l[2], pay); OneLine(l[3], pay);
    NetConcat([l[0]], [l[1]]); NetConcat([l[0]] + [l[1]], [l[2]]); NetConcat([l[0]] + [l[1]] + [l[2]], [l[3]]);
    BalanceConcat([l[0]], [l[1]], pay); BalanceConcat([l[0]] + [l[1]], [l[2]], pay); BalanceConcat([l[0]] + [l[1]] + [l[2]], [l[3]], pay);
  }

  /** A pay-in's journal posts exactly from 52 paise: below that the MDR line is zero and refused. */
  lemma PayinPostsExactlyFrom52Paise(m: string, p: string, a: nat)
    ensures !Problem(PayinLines(m, p, a)) <==> a >= 52
  {
    var l := PayinLines(m, p, a);
    PayinMoves(m, p, a, m);
    assert l[0].amount == a && l[1].amount == NetOf(a) && l[2].amount == Fee(a, RESERVE_BPS)
      && l[3].amount == Fee(a, MDR_BPS);
  }

  lemma WhenMoves(on: bool, l: Line, acc: Account)
    ensures Net(When(on, l)) == (if on then l.Net() else 0)
    ensures Balance(When(on, l), acc) == (if on && l.account == acc then -l.Net() else 0)
  {
    OneLine(l, acc);
  }

  lemma FiveParts(a: seq<Line>, b: seq<Line>, c: seq<Line>, d: seq<Line>, e: seq<Line>, acc: Account)
    ensures Net(a + b + c + d + e) == Net(a) + Net(b) + Net(c) + Net(d) + Net(e)
    ensures Balance(a + b + c + d + e, acc)
            == Balance(a, acc) + Balance(b, acc) + Balance(c, acc) + Balance(d, acc) + Balance(e, acc)
  {
    NetConcat(a, b); NetConcat(a + b, c); NetConcat(a + b + c, d); NetConcat(a + b + c + d, e);
    BalanceConcat(a, b, acc); BalanceConcat(a + b, c, acc); BalanceConcat(a + b + c, d, acc); BalanceConcat(a + b + c + d, e, acc);
  }

  lemma BatchMoves(b: Batch, acc: string)
    ensures Net(BatchLines(b)) == (if b.hold > 0 then 0 else b.hold)
    ensures Balance(BatchLines(b), MerchantPayable(acc)) == (if acc == b.merchant then -b.OrderNet() else 0)
  {
    var pay := MerchantPayable(acc);
    var debit, credit := Line(MerchantPayable(b.merchant), D, b.OrderNet()),
      Line(SettlementPayable(b.merchant), C, b.net);
    var gst, hold, adj := Line(GstPayable, C, b.gst), Line(ChargebackHold(b.merchant), C, b.hold),
      AdjustmentLine(b.adjustment);
    OneLine(debit, pay); OneLine(credit, pay);
    WhenMoves(b.gst > 0, gst, pay); WhenMoves(b.hold > 0, hold, pay); WhenMoves(b.adjustment != 0, adj, pay);
    FiveParts([debit], [credit], When(b.gst > 0, gst), When(b.hold > 0, hold), When(b.adjustment != 0, adj), pay);
  }

  /** A batch of a positive order net posts exactly when it pays something and holds nothing negative. */
  lemma BatchPostsExactly(b: Batch)
    requires b.OrderNet() > 0
    ensures !Problem(BatchLines(b)) <==> b.net > 0 && b.hold >= 0
  {
    BatchMoves(b, b.merchant);
    var l := BatchLines(b);
    assert l[0].amount == b.OrderNet() && l[1].amount == b.net;
  }

  // ── What every state keeps ──────────────────────────────────────────────────────────────────

  ghost predicate Distinct(ids: seq<nat>) {
    forall j, k :: 0 <= j < k < |ids| ==> ids[j] != ids[k]
  }

  predicate Posted(s: State, b: nat) { SettlementBatch(b) in s.book.keys }

  ghost predicate OrderFits(s: State, id: nat) {
    && (id in s.completed <==> id in s.orders && !s.orders[id].status.Open?)
    && (PaymentSuccess(id) in s.book.keys ==> id in s.completed)
    && (id in s.orders ==> s.orders[id].amount > 0 && (s.orders[id].status.Open? ==> s.orders[id].batch.None?))
  }

  /** A tagged order is in the batch it is tagged with, which is not rejected. */
  ghost predicate TagFits(s: State, id: nat) {
    id in s.orders && s.orders[id].batch.Some? ==>
      var b := s.orders[id].batch.value; b in s.batches && id in s.batches[b].ids && !s.batches[b].status.Rejected?
  }

  ghost predicate SettledFits(s: State, id: nat) {
    id in s.orders && s.orders[id].status.Settled? ==>
          exists b :: b in s.batches && Posted(s, b) && id in s.batches[b].ids
  }

  ghost predicate BatchFits(s: State, b: nat) {
    && (Posted(s, b) ==> b in s.batches)
    && (b in s.batches ==>
          var batch := s.batches[b];
          && batch.ids != [] && Distinct(batch.ids) && batch.OrderNet() == NetOf(Gross(s.orders, batch.ids))
          && (forall id :: id in batch.ids ==> id in s.orders && s.orders[id].merchant == batch.merchant && !s.orders[id].status.Open?)
          && (Posted(s, b) ==> forall id :: id in batch.ids ==> s.orders[id].status.Settled?)
          && (!Posted(s, b) && !batch.status.Rejected? ==>
                forall id :: id in batch.ids ==> s.orders[id].status.Completed? && s.orders[id].batch == Some(b)))
  }

  /** No order is settled by two posted batches. */
  ghost predicate PostedDisjoint(s: State) {
    forall a, b, id | a in s.batches && b in s.batches && a != b && Posted(s, a) && Posted(s, b)
        && id in s.batches[a].ids ::
      id !in s.batches[b].ids
  }

  /** What an order's completion credited its merchant. */
  function Credit(orders: map<nat, Order>): nat -> int {
    (id: nat) => if id in orders && orders[id].amount >= 52 then NetOf(orders[id].amount) else 0
  }

  /** The merchant's orders completed and not yet settled. */
  ghost function Owed(orders: map<nat, Order>, merchant: string): set<nat> {
    set id | id in orders && orders[id].merchant == merchant && orders[id].status.Completed?
  }

  ghost function PostedOf(s: State, merchant: string): set<nat> {
    set b | b in s.batches && Posted(s, b) && s.batches[b].merchant == merchant
  }

  /** What a posted batch left in MERCHANT_PAYABLE of its orders' credits. */
  function Leftover(orders: map<nat, Order>, batches: map<nat, Batch>): nat -> int {
    (b: nat) => if b in batches then SumListed(batches[b].ids, Credit(orders)) - batches[b].OrderNet() else 0
  }

  ghost predicate PayableFits(s: State, merchant: string) {
    Balance(s.book.lines, MerchantPayable(merchant))
    == SumOver(Owed(s.orders, merchant), Credit(s.orders))
        + SumOver(PostedOf(s, merchant), Leftover(s.orders, s.batches))
  }

  ghost predicate Inv(s: State) {
    && Distinct(s.completed) && Net(s.book.lines) == 0 && PostedDisjoint(s)
    && (forall id :: OrderFits(s, id)) && (forall id :: TagFits(s, id)) && (forall id :: SettledFits(s, id))
    && (forall b :: BatchFits(s, b)) && (forall m :: PayableFits(s, m))
  }

  /** Orders of one map with the amounts and merchants of the other: what every step keeps. */
  ghost predicate SameDebts(a: map<nat, Order>, b: map<nat, Order>) {
    forall id :: id in a ==> id in b && b[id].amount == a[id].amount && b[id].merchant == a[id].merchant
  }

  lemma CreditSame(a: map<nat, Order>, b: map<nat, Order>, ids: seq<nat>)
    requires SameDebts(a, b) && forall id :: id in ids ==> id in a
    ensures SumListed(ids, Credit(a)) == SumListed(ids, Credit(b)) && Gross(a, ids) == Gross(b, ids)
  {
    SumListedSame(ids, Credit(a), Credit(b));
    assert Amounts(a, ids) == Amounts(b, ids);
  }

  /** Leftovers of the batches there keep their value while debts and batches stand. */
  lemma LeftoversSame(s: State, t: State, bs: set<nat>)
    requires SameDebts(s.orders, t.orders) && forall b :: b in bs ==> BatchFits(s, b) && b in s.batches
    requires forall b :: b in bs ==>
               b in t.batches && t.batches[b].ids == s.batches[b].ids
                   && t.batches[b].OrderNet() == s.batches[b].OrderNet()
    ensures SumOver(bs, Leftover(s.orders, s.batches)) == SumOver(bs, Leftover(t.orders, t.batches))
  {
    forall b | b in bs ensures Leftover(s.orders, s.batches)(b) == Leftover(t.orders, t.batches)(b) {
      CreditSame(s.orders, t.orders, s.batches[b].ids);
    }
    SumOverSame(bs, Leftover(s.orders, s.batches), Leftover(t.orders, t.batches));
  }

  // ── Each step keeps it ──────────────────────────────────────────────────────────────────────

  /** A step that posts nothing and leaves who is owed: the equation stands. */
  lemma PayableSame(s: State, t: State, m: string)
    requires PayableFits(s, m) && t.book == s.book && SameDebts(s.orders, t.orders)
    requires Owed(t.orders, m) == Owed(s.orders, m) && PostedOf(t, m) == PostedOf(s, m)
    requires forall b :: b in PostedOf(s, m) ==>
               BatchFits(s, b) && t.batches[b].ids == s.batches[b].ids
                   && t.batches[b].OrderNet() == s.batches[b].OrderNet()
    ensures PayableFits(t, m)
  {
    LeftoversSame(s, t, PostedOf(s, m));
    SumOverSame(Owed(s.orders, m), Credit(s.orders), Credit(t.orders));
  }

  lemma SettledSame(s: State, t: State, id: nat)
    requires SettledFits(s, id) && id in s.orders
    requires (id in t.orders && t.orders[id].status.Settled? ==> s.orders[id].status.Settled?)
    requires forall b :: b in s.batches && Posted(s, b) ==>
               b in t.batches && Posted(t, b) && t.batches[b].ids == s.batches[b].ids
    ensures SettledFits(t, id)
  {
    if s.orders[id].status.Settled? {
      var b :| b in s.batches && Posted(s, b) && id in s.batches[b].ids;
      assert b in t.batches && Posted(t, b) && id in t.batches[b].ids;
    }
  }

  /** A batch untouched by a step that keeps its orders' debts, tags and statuses fits as before. */
  lemma BatchSame(s: State, t: State, b: nat)
    requires BatchFits(s, b) && SameDebts(s.orders, t.orders)
    requires (b in t.batches ==> b in s.batches && t.batches[b] == s.batches[b])
    requires Posted(t, b) == Posted(s, b) && (b in s.batches ==> b in t.batches)
    requires b in s.batches ==> forall id | id in s.batches[b].ids ::
               && id in t.orders && !t.orders[id].status.Open?
               && (Posted(s, b) ==> t.orders[id].status.Settled?)
               && (!Posted(s, b) && !s.batches[b].status.Rejected? ==> t.orders[id] == s.orders[id])
    ensures BatchFits(t, b)
  {
    if b in s.batches { CreditSame(s.orders, t.orders, s.batches[b].ids); }
  }

  lemma SubmitKeeps(s: State, id: nat, m: string, a: nat)
    requires Inv(s) && id !in s.orders && a > 0
    ensures Inv(s.(orders := s.orders[id := Order(m, a, Open, None)]))
  {
    var t := s.(orders := s.orders[id := Order(m, a, Open, None)]);
    assert OrderFits(s, id);
    forall x ensures OrderFits(t, x) && TagFits(t, x)
      && SettledFits(t, x) { assert OrderFits(s, x) && TagFits(s, x) && SettledFits(s, x); }
    forall b ensures BatchFits(t, b) { assert BatchFits(s, b); BatchSame(s, t, b); }
    forall n ensures PayableFits(t, n) {
      assert PayableFits(s, n) && Owed(t.orders, n) == Owed(s.orders, n) && PostedOf(t, n) == PostedOf(s, n);
      PayableSame(s, t, n);
    }
  }

  lemma OwedGains(a: map<nat, Order>, id: nat, o: Order, m: string)
    requires id in a && a[id].status.Open? && o == a[id].(status := Completed)
    ensures var b := a[id := o];
            SumOver(Owed(b, m), Credit(b))
                == SumOver(Owed(a, m), Credit(a)) + (if o.merchant == m then Credit(b)(id) else 0)
  {
    var b := a[id := o];
    SumOverSame(Owed(a, m), Credit(a), Credit(b));
    if o.merchant == m {
      assert Owed(b, m) == Owed(a, m) + {id};
      SumOverAdd(Owed(a, m), id, Credit(b));
    } else {
      assert Owed(b, m) == Owed(a, m);
    }
  }

  lemma CompletionCredits(s: State, id: nat, provider: string, m: string)
    requires id in s.orders && s.orders[id].status.Open? && PaymentSuccess(id) !in s.book.keys
    ensures Balance(CompleteOf(s, id, provider).book.lines, MerchantPayable(m))
            == Balance(s.book.lines, MerchantPayable(m))
                + (if s.orders[id].merchant == m then Credit(s.orders)(id) else 0)
  {
    var o := s.orders[id];
    PayinPostsExactlyFrom52Paise(o.merchant, provider, o.amount);
    PayinMoves(o.merchant, provider, o.amount, m);
    BalanceConcat(s.book.lines, PayinLines(o.merchant, provider, o.amount), MerchantPayable(m));
  }

  /** A completion posts no batch, and leaves each as it is. */
  lemma CompletionLeavesBatches(s: State, id: nat, provider: string, m: string)
    requires id in s.orders && s.orders[id].status.Open?
    ensures var t := CompleteOf(s, id, provider);
            t.batches == s.batches && PostedOf(t, m) == PostedOf(s, m) && SameDebts(s.orders, t.orders)
  {
  }

  lemma CompletionOwes(s: State, id: nat, provider: string, m: string)
    requires id in s.orders && s.orders[id].status.Open?
    ensures var t := CompleteOf(s, id, provider);
            SumOver(Owed(t.orders, m), Credit(t.orders))
            == SumOver(Owed(s.orders, m), Credit(s.orders))
                + (if s.orders[id].merchant == m then Credit(s.orders)(id) else 0)
  {
    OwedGains(s.orders, id, s.orders[id].(status := Completed), m);
  }

  /** The journal of a completion credits the merchant what Credit says. */
  lemma CompletePayable(s: State, id: nat, provider: string, m: string)
    requires PayableFits(s, m) && (forall b :: BatchFits(s, b))
    requires id in s.orders && s.orders[id].status.Open? && PaymentSuccess(id) !in s.book.keys
    ensures PayableFits(CompleteOf(s, id, provider), m)
  {
    CompletionCredits(s, id, provider, m);
    CompletionOwes(s, id, provider, m);
    CompletionLeavesBatches(s, id, provider, m);
    LeftoversSame(s, CompleteOf(s, id, provider), PostedOf(s, m));
  }

  lemma CompleteKeeps(s: State, id: nat, provider: string)
    requires Inv(s) && id in s.orders && s.orders[id].status.Open?
    ensures Inv(CompleteOf(s, id, provider))
  {
    var t := CompleteOf(s, id, provider);
    assert OrderFits(s, id);
    PostKeepsBalanced(s.book, PaymentSuccess(id), PayinLines(s.orders[id].merchant, provider, s.orders[id].amount));
    forall x ensures OrderFits(t, x) && TagFits(t, x)
      && SettledFits(t, x) { assert OrderFits(s, x) && TagFits(s, x) && SettledFits(s, x); }
    forall b ensures BatchFits(t, b) { assert BatchFits(s, b); BatchSame(s, t, b); }
    forall m ensures PayableFits(t, m) { CompletePayable(s, id, provider, m); }
  }

  /** The orders a batch takes are the merchant's, completed, untagged and listed once. */
  ghost predicate Takeable(s: State, ids: seq<nat>, m: string) {
    && Distinct(ids)
    && forall id | id in ids :: id in s.completed && MayTake(s.orders, id, m)
  }

  lemma {:induction false} UnsettledTakeable(s: State, completed: seq<nat>, m: string)
    requires Distinct(completed)
    ensures Distinct(Unsettled(s.orders, completed, m))
    ensures forall id | id in Unsettled(s.orders, completed, m) :: id in completed && MayTake(s.orders, id, m)
    decreases |completed|
  {
    if completed != [] {
      var init, id := completed[..|completed| - 1], completed[|completed| - 1];
      UnsettledTakeable(s, init, m);
      assert id !in init;
    }
  }

  /** The completion list without the orders a batch may not take: nothing is skipped, nothing reordered. */
  lemma {:induction false} UnsettledSplits(orders: map<nat, Order>, completed: seq<nat>, m: string, k: nat)
    requires k <= |completed|
    ensures Unsettled(orders, completed, m)
            == Unsettled(orders, completed[..k], m) + Unsettled(orders, completed[k..], m)
    decreases |completed|
  {
    if k < |completed| {
      var init := completed[..|completed| - 1];
      UnsettledSplits(orders, init, m, k);
      assert init[..k] == completed[..k] && init[k..] == completed[k..][..|completed| - k - 1];
    } else {
      assert completed[..k] == completed;
    }
  }

  lemma {:induction false} UnsettledComplete(orders: map<nat, Order>, completed: seq<nat>, m: string, id: nat)
    ensures id in Unsettled(orders, completed, m) <==> id in completed && MayTake(orders, id, m)
    decreases |completed|
  {
    if completed != [] { UnsettledComplete(orders, completed[..|completed| - 1], m, id); }
  }

  /** An order a batch may take stands among the unsettled after those completed before it. */
  lemma UnsettledAt(orders: map<nat, Order>, completed: seq<nat>, m: string, k: nat)
    requires k < |completed| && MayTake(orders, completed[k], m)
    ensures var all, n := Unsettled(orders, completed, m), |Unsettled(orders, completed[..k], m)|;
            n < |all| && all[..n] == Unsettled(orders, completed[..k], m) && all[n] == completed[k]
  {
    UnsettledSplits(orders, completed, m, k);
    UnsettledSplits(orders, completed[k..], m, 1);
    assert completed[k..][..1] == [completed[k]];
    assert Unsettled(orders, [completed[k]], m) == [completed[k]];
  }

  lemma FirstOfTakes(ids: seq<nat>, n: nat)
    requires Distinct(ids) && n < |ids|
    ensures |FirstOf(ids)| <= BATCH_LIMIT && (ids[n] in FirstOf(ids) <==> n < BATCH_LIMIT)
    ensures n >= BATCH_LIMIT ==> |FirstOf(ids)| == BATCH_LIMIT && forall id :: id in FirstOf(ids) ==> id in ids[..n]
  {
    if n < BATCH_LIMIT {
      assert FirstOf(ids)[n] == ids[n];
    } else {
      assert FirstOf(ids) == ids[..n][..BATCH_LIMIT];
    }
  }

  /**
   A batch takes every order it may while there are at most a thousand, and then the thousand completed
   first: what it leaves completed after everything it took.
   */
  lemma BatchTakesOldest(cfg: Config, s: State, m: string, hold: int, adj: int, k: nat)
    requires Distinct(s.completed) && k < |s.completed| && MayTake(s.orders, s.completed[k], m)
    ensures var ids := BatchFor(cfg, s, m, hold, adj).ids;
            && |ids| <= BATCH_LIMIT
            && (s.completed[k] in ids <==> |Unsettled(s.orders, s.completed[..k], m)| < BATCH_LIMIT)
            && (s.completed[k] !in ids ==> |ids| == BATCH_LIMIT && forall id :: id in ids ==> id in s.completed[..k])
  {
    var n := |Unsettled(s.orders, s.completed[..k], m)|;
    UnsettledTakeable(s, s.completed, m);
    UnsettledAt(s.orders, s.completed, m, k);
    FirstOfTakes(Unsettled(s.orders, s.completed, m), n);
    forall x ensures x in Unsettled(s.orders, s.completed[..k], m) ==> x in s.completed[..k] {
      UnsettledComplete(s.orders, s.completed[..k], m, x);
    }
  }

  lemma BatchForFits(cfg: Config, s: State, m: string, hold: int, adj: int)
    requires Inv(s)
    ensures var b := BatchFor(cfg, s, m, hold, adj);
            Takeable(s, b.ids, m) && b.OrderNet() == NetOf(Gross(s.orders, b.ids)) && b.merchant == m
  {
    UnsettledTakeable(s, s.completed, m);
  }

  ghost function TagOf(s: State, b: nat, batch: Batch): State {
    s.(orders := Tag(s.orders, batch.ids, b), batches := s.batches[b := batch])
  }

  lemma TagKeepsOrders(s: State, b: nat, batch: Batch)
    requires Inv(s) && b !in s.batches && batch.ids != [] && Takeable(s, batch.ids, batch.merchant)
    requires !batch.status.Rejected?
    ensures var t := TagOf(s, b, batch);
            PostedDisjoint(t) && forall x :: OrderFits(t, x) && TagFits(t, x) && SettledFits(t, x)
  {
    var t := TagOf(s, b, batch);
    assert !Posted(s, b) by { assert BatchFits(s, b); }
    forall x ensures OrderFits(t, x) && TagFits(t, x) && SettledFits(t, x) {
      assert OrderFits(s, x) && TagFits(s, x) && SettledFits(s, x);
      if x in s.orders { SettledSame(s, t, x); }
    }
  }

  lemma TagKeepsBatches(s: State, b: nat, batch: Batch)
    requires Inv(s) && b !in s.batches && batch.ids != [] && Takeable(s, batch.ids, batch.merchant)
    requires !batch.status.Rejected?
    requires batch.OrderNet() == NetOf(Gross(s.orders, batch.ids))
    ensures forall x :: BatchFits(TagOf(s, b, batch), x)
  {
    var t := TagOf(s, b, batch);
    forall x ensures BatchFits(t, x) {
      assert BatchFits(s, x);
      if x == b { CreditSame(s.orders, t.orders, batch.ids); } else { BatchSame(s, t, x); }
    }
  }

  lemma TagLeavesDebts(s: State, b: nat, batch: Batch, m: string)
    requires b !in s.batches && !Posted(s, b)
    ensures var t := TagOf(s, b, batch);
            && t.book == s.book && SameDebts(s.orders, t.orders)
            && Owed(t.orders, m) == Owed(s.orders, m) && PostedOf(t, m) == PostedOf(s, m)
            && (forall x :: x in s.batches ==> t.batches[x] == s.batches[x])
  {
  }

  lemma TagPayable(s: State, b: nat, batch: Batch, m: string)
    requires PayableFits(s, m) && (forall x :: BatchFits(s, x)) && b !in s.batches
    ensures PayableFits(TagOf(s, b, batch), m)
  {
    assert !Posted(s, b) by { assert BatchFits(s, b); }
    TagLeavesDebts(s, b, batch, m);
    PayableSame(s, TagOf(s, b, batch), m);
  }

  lemma TagKeeps(s: State, b: nat, batch: Batch)
    requires Inv(s) && b !in s.batches && batch.ids != [] && Takeable(s, batch.ids, batch.merchant)
    requires !batch.status.Rejected?
    requires batch.OrderNet() == NetOf(Gross(s.orders, batch.ids))
    ensures Inv(TagOf(s, b, batch))
  {
    var t := TagOf(s, b, batch);
    TagKeepsOrders(s, b, batch);
    TagKeepsBatches(s, b, batch);
    forall m ensures PayableFits(t, m) { TagPayable(s, b, batch, m); }
  }

  lemma RejectKeepsOrders(s: State, b: nat)
    requires Inv(s) && b in s.batches
    ensures var t := RejectOf(s, b);
            PostedDisjoint(t) && forall x :: OrderFits(t, x) && TagFits(t, x) && SettledFits(t, x)
  {
    var t := RejectOf(s, b);
    forall x ensures OrderFits(t, x) && TagFits(t, x) && SettledFits(t, x) {
      assert OrderFits(s, x) && TagFits(s, x) && SettledFits(s, x);
      if x in s.orders { SettledSame(s, t, x); }
    }
  }

  lemma RejectKeepsBatches(s: State, b: nat)
    requires b in s.batches && forall x :: BatchFits(s, x)
    ensures forall x :: BatchFits(RejectOf(s, b), x)
  {
    var t := RejectOf(s, b);
    forall x ensures BatchFits(t, x) {
      assert BatchFits(s, x);
      if x == b { CreditSame(s.orders, t.orders, s.batches[b].ids); } else { BatchSame(s, t, x); }
    }
  }

  lemma RejectLeavesDebts(s: State, b: nat, m: string)
    requires b in s.batches
    ensures var t := RejectOf(s, b);
            && t.book == s.book && SameDebts(s.orders, t.orders)
            && Owed(t.orders, m) == Owed(s.orders, m) && PostedOf(t, m) == PostedOf(s, m)
            && (forall x :: x in s.batches ==> t.batches[x].ids == s.batches[x].ids && t.batches[x].OrderNet() == s.batches[x].OrderNet())
  {
  }

  lemma RejectPayable(s: State, b: nat, m: string)
    requires b in s.batches && PayableFits(s, m) && forall x :: BatchFits(s, x)
    ensures PayableFits(RejectOf(s, b), m)
  {
    RejectLeavesDebts(s, b, m);
    PayableSame(s, RejectOf(s, b), m);
  }

  lemma RejectKeeps(s: State, b: nat)
    requires Inv(s) && b in s.batches
    ensures Inv(RejectOf(s, b))
  {
    RejectKeepsOrders(s, b);
    RejectKeepsBatches(s, b);
    forall m ensures PayableFits(RejectOf(s, b), m) { RejectPayable(s, b, m); }
  }

  // Finalising: the batch's orders stop being owed and its journal takes their net out.

  lemma FinalizeKeepsOrders(s: State, b: nat)
    requires Inv(s) && b in s.batches && !s.batches[b].status.Rejected? && !Problem(BatchLines(s.batches[b]))
    ensures var t := FinalizeOf(s, b);
            PostedDisjoint(t) && forall x :: OrderFits(t, x) && TagFits(t, x) && SettledFits(t, x)
  {
    var t := FinalizeOf(s, b);
    assert BatchFits(s, b);
    forall x ensures OrderFits(t, x) && TagFits(t, x) && SettledFits(t, x) {
      assert OrderFits(s, x) && TagFits(s, x) && SettledFits(s, x);
      if x in s.orders && t.orders[x].status.Settled? && !s.orders[x].status.Settled? {
        assert b in t.batches && Posted(t, b) && x in t.batches[b].ids;
      } else if x in s.orders {
        SettledSame(s, t, x);
      }
    }
    forall c, d, id | c in t.batches && d in t.batches && c != d && Posted(t, c) && Posted(t, d)
        && id in t.batches[c].ids
      ensures id !in t.batches[d].ids
    {
      assert BatchFits(s, c) && BatchFits(s, d);
    }
  }

  lemma FinalizeKeepsBatches(s: State, b: nat)
    requires b in s.batches && !s.batches[b].status.Rejected? && !Problem(BatchLines(s.batches[b]))
    requires (forall x :: BatchFits(s, x)) && (forall x :: TagFits(s, x))
    ensures forall x :: BatchFits(FinalizeOf(s, b), x)
  {
    var t := FinalizeOf(s, b);
    forall x ensures BatchFits(t, x) {
      assert BatchFits(s, x) && BatchFits(s, b);
      if x == b { CreditSame(s.orders, t.orders, s.batches[b].ids); } else { BatchSame(s, t, x); }
    }
  }

  /** Taking the batch's orders out of what is owed. */
  lemma OwedLoses(s: State, b: nat, m: string)
    requires b in s.batches && BatchFits(s, b) && !Posted(s, b) && !s.batches[b].status.Rejected?
    requires (forall x :: TagFits(s, x))
    ensures SumOver(Owed(MarkSettled(s.orders, b), m), Credit(MarkSettled(s.orders, b)))
            == SumOver(Owed(s.orders, m),
                Credit(s.orders)) - (if s.batches[b].merchant == m then SumListed(s.batches[b].ids, Credit(s.orders))
                    else 0)
  {
    var marked, ids := MarkSettled(s.orders, b), s.batches[b].ids;
    forall x | x in s.orders && s.orders[x].batch == Some(b) ensures x in ids { assert TagFits(s, x); }
    if s.batches[b].merchant == m {
      assert Owed(marked, m) == Without(Owed(s.orders, m), ids);
      SumOverWithout(Owed(s.orders, m), ids, Credit(s.orders));
    } else {
      assert Owed(marked, m) == Owed(s.orders, m);
    }
    SumOverSame(Owed(marked, m), Credit(s.orders), Credit(marked));
  }

  lemma PostedSetGains(s: State, t: State, b: nat, m: string)
    requires b in s.batches && t.batches == s.batches[b := s.batches[b].(status := Final)]
    requires t.book.keys == s.book.keys + {SettlementBatch(b)}
    ensures PostedOf(t, m) == if s.batches[b].merchant == m then PostedOf(s, m) + {b} else PostedOf(s, m)
  {
  }

  lemma PostedGains(s: State, t: State, b: nat, m: string)
    requires b in s.batches && BatchFits(s, b) && !Posted(s, b) && SameDebts(s.orders, t.orders)
    requires t.batches == s.batches[b := s.batches[b].(status := Final)]
    requires t.book.keys == s.book.keys + {SettlementBatch(b)}
    requires forall x :: x in PostedOf(s, m) ==> BatchFits(s, x)
    ensures SumOver(PostedOf(t, m), Leftover(t.orders, t.batches))
            == SumOver(PostedOf(s, m), Leftover(s.orders, s.batches))
               + (if s.batches[b].merchant == m then Leftover(s.orders, s.batches)(b) else 0)
  {
    PostedSetGains(s, t, b, m);
    var posted, f, g := PostedOf(s, m), Leftover(s.orders, s.batches), Leftover(t.orders, t.batches);
    assert SumOver(posted, f) == SumOver(posted, g) by { LeftoversSame(s, t, posted); }
    assert f(b) == g(b) by { CreditSame(s.orders, t.orders, s.batches[b].ids); }
    assert b !in posted;
    if s.batches[b].merchant == m { SumOverAdd(posted, b, g); }
  }

  /** Posting the batch: the payable falls by its order net, and its leftover joins the sum. */
  lemma FinalizePayable(s: State, b: nat, m: string)
    requires b in s.batches && !Posted(s, b) && !s.batches[b].status.Rejected? && !Problem(BatchLines(s.batches[b]))
    requires PayableFits(s, m) && BatchFits(s, b) && (forall x :: x in PostedOf(s, m) ==> BatchFits(s, x))
    requires (forall x :: TagFits(s, x))
    ensures PayableFits(FinalizeOf(s, b), m)
  {
    OwedLoses(s, b, m);
    PostedGains(s, FinalizeOf(s, b), b, m);
    BatchMoves(s.batches[b], m);
    BalanceConcat(s.book.lines, BatchLines(s.batches[b]), MerchantPayable(m));
  }

  lemma MarkedAlready(s: State, b: nat)
    requires b in s.batches && Posted(s, b) && BatchFits(s, b) && forall x :: TagFits(s, x)
    ensures MarkSettled(s.orders, b) == s.orders
  {
    forall x | x in s.orders && s.orders[x].batch == Some(b)
      ensures s.orders[x].status.Settled? { assert TagFits(s, x); }
  }

  /** A posted batch finalised again changes no debt. */
  lemma FinalizeAgain(s: State, t: State, b: nat, m: string)
    requires b in s.batches && t.orders == s.orders && t.book == s.book && PayableFits(s, m)
    requires t.batches == s.batches[b := s.batches[b].(status := Final)]
    requires forall x :: x in PostedOf(s, m) ==> BatchFits(s, x)
    ensures PayableFits(t, m)
  {
    assert PostedOf(t, m) == PostedOf(s, m);
    PayableSame(s, t, m);
  }

  lemma FinalizeKeeps(s: State, b: nat)
    requires Inv(s)
    ensures Inv(FinalizeOf(s, b))
  {
    if FinalizeOf(s, b) != s {
      FinalizeKeepsOrders(s, b);
      FinalizeKeepsBatches(s, b);
      PostKeepsBalanced(s.book, SettlementBatch(b), BatchLines(s.batches[b]));
      forall m ensures PayableFits(FinalizeOf(s, b), m) {
        assert PayableFits(s, m) && BatchFits(s, b);
        if Posted(s, b) {
          MarkedAlready(s, b);
          FinalizeAgain(s, FinalizeOf(s, b), b, m);
        } else {
          FinalizePayable(s, b, m);
        }
      }
    }
  }

  lemma StepKeeps(cfg: Config, s: State, step: Step)
    requires Inv(s)
    ensures Inv(Apply(cfg, s, step))
  {
    match step
    case Submit(id, m, a) => if id !in s.orders && a != 0 { SubmitKeeps(s, id, m, a); }
    case Complete(id, p) => if id in s.orders && s.orders[id].status.Open? { CompleteKeeps(s, id, p); }
    case Create(b, m, h, a) =>
      var batch := BatchFor(cfg, s, m, h, a);
      BatchForFits(cfg, s, m, h, a);
      if b !in s.batches && batch.ids != [] && batch.net >= 0 {
        TagKeeps(s, b, batch);
        FinalizeKeeps(TagOf(s, b, batch), b);
      }
    case Finalize(b) => FinalizeKeeps(s, b);
    case Reject(b) => if b in s.batches { RejectKeeps(s, b); }
  }

  lemma {:induction false} RunKeeps(cfg: Config, s: State, steps: seq<Step>)
    requires Inv(s)
    ensures Inv(Run(cfg, s, steps))
    decreases |steps|
  {
    if steps != [] {
      StepKeeps(cfg, s, steps[0]);
      RunKeeps(cfg, Apply(cfg, s, steps[0]), steps[1..]);
    }
  }

  lemma Reachable(cfg: Config, steps: seq<Step>)
    ensures Inv(Run(cfg, Empty, steps))
  {
    forall m ensures PayableFits(Empty, m) {
      assert Owed(Empty.orders, m) == {} && PostedOf(Empty, m) == {};
    }
    RunKeeps(cfg, Empty, steps);
  }

  // ── What the desk may rely on ───────────────────────────────────────────────────────────────

  /** Every completed pay-in of the merchant is large enough for its journal to post. */
  ghost predicate AllCredited(s: State, m: string) {
    forall id :: id in s.orders && s.orders[id].merchant == m ==> s.orders[id].status.Open? || s.orders[id].amount >= 52
  }

  function NetDue(orders: map<nat, Order>): nat -> int {
    (id: nat) => if id in orders then NetOf(orders[id].amount) else 0
  }

  /** Twice a batch's orders less one. */
  function Slack(batches: map<nat, Batch>): nat -> int {
    (b: nat) => if b in batches then 2 * (|batches[b].ids| - 1) else 0
  }

  lemma {:induction false} CreditsAreNets(orders: map<nat, Order>, ids: seq<nat>)
    requires forall id :: id in ids ==> id in orders && orders[id].amount >= 52
    ensures SumListed(ids, Credit(orders)) == Nets(Amounts(orders, ids))
    decreases |ids|
  {
    if ids != [] {
      CreditsAreNets(orders, ids[1..]);
      assert Amounts(orders, ids)[1..] == Amounts(orders, ids[1..]);
    }
  }

  /** A batch leaves behind exactly the whole paise its orders' floors dropped. */
  lemma LeftoverIsDropped(s: State, b: nat)
    requires b in s.batches && BatchFits(s, b) && forall id :: id in s.batches[b].ids ==> s.orders[id].amount >= 52
    ensures var a := Amounts(s.orders, s.batches[b].ids);
            && Leftover(s.orders, s.batches)(b) == Dropped(a, MDR_BPS) / 10000 + Dropped(a, RESERVE_BPS) / 10000
            && 0 <= Leftover(s.orders, s.batches)(b) <= Slack(s.batches)(b)
  {
    CreditsAreNets(s.orders, s.batches[b].ids);
    BatchNetShortfall(Amounts(s.orders, s.batches[b].ids));
  }

  lemma {:induction false} ZeroSum(bs: set<nat>)
    ensures SumOver(bs, (b: nat) => 0) == 0
    decreases bs
  {
    if bs != {} {
      var x :| x in bs;
      SumOverTake(bs, x, (b: nat) => 0);
      ZeroSum(bs - {x});
    }
  }

  /**
   In every run MERCHANT_PAYABLE is at least the nets of the completed orders not yet settled, and
   above them by at most 2(n - 1) paise for each posted batch of n orders.
   */
  lemma PayableCoversUnsettled(cfg: Config, steps: seq<Step>, m: string)
    requires AllCredited(Run(cfg, Empty, steps), m)
    ensures var s := Run(cfg, Empty, steps);
            var over := Balance(s.book.lines, MerchantPayable(m)) - SumOver(Owed(s.orders, m), NetDue(s.orders));
            0 <= over <= SumOver(PostedOf(s, m), Slack(s.batches))
  {
    var s := Run(cfg, Empty, steps);
    Reachable(cfg, steps);
    assert PayableFits(s, m);
    SumOverSame(Owed(s.orders, m), Credit(s.orders), NetDue(s.orders));
    forall b | b in PostedOf(s, m) ensures 0 <= Leftover(s.orders, s.batches)(b) <= Slack(s.batches)(b) {
      assert BatchFits(s, b);
      LeftoverIsDropped(s, b);
    }
    ZeroSum(PostedOf(s, m));
    SumOverBounds(PostedOf(s, m), (b: nat) => 0, Leftover(s.orders, s.batches));
    SumOverBounds(PostedOf(s, m), Leftover(s.orders, s.batches), Slack(s.batches));
  }

  /** The condition is needed: one completed pay-in is covered exactly from 52 paise. */
  lemma PayinCoveredExactlyFrom52Paise(cfg: Config, m: string, p: string, a: nat)
    requires a > 0
    ensures var s := Apply(cfg, Apply(cfg, Empty, Submit(1, m, a)), Complete(1, p));
            Balance(s.book.lines, MerchantPayable(m)) >= SumOver(Owed(s.orders, m), NetDue(s.orders)) <==> a >= 52
  {
    var s1 := Apply(cfg, Empty, Submit(1, m, a));
    var s := Apply(cfg, s1, Complete(1, p));
    assert s.book == PostOf(Book({}, []), PaymentSuccess(1), PayinLines(m, p, a));
    assert Owed(s.orders, m) == {1};
    SumOverTake({1}, 1, NetDue(s.orders));
    assert {1} - {1} == {};
    PayinPostsExactlyFrom52Paise(m, p, a);
    PayinMoves(m, p, a, m);
    assert [] + PayinLines(m, p, a) == PayinLines(m, p, a);
  }

  /** The one posted batch that holds the order. */
  ghost predicate SettledBy(s: State, b: nat, id: nat) {
    && id in s.orders && s.orders[id].status.Settled?
    && b in s.batches && Posted(s, b) && id in s.batches[b].ids
    && forall c :: c in s.batches && Posted(s, c) && id in s.batches[c].ids ==> c == b
  }

  lemma StepKeepsSettled(cfg: Config, s: State, step: Step, b: nat, id: nat)
    requires Inv(s) && SettledBy(s, b, id)
    ensures SettledBy(Apply(cfg, s, step), b, id)
  {
    var t := Apply(cfg, s, step);
    StepKeeps(cfg, s, step);
    SettledInItsBatch(cfg, s, step, b, id);
    forall c | c in t.batches && Posted(t, c) && id in t.batches[c].ids ensures c == b { }
  }

  /** A settled order, its batch and the batch's journal stay, whatever is created, finalised or rejected. */
  lemma SettledInItsBatch(cfg: Config, s: State, step: Step, b: nat, id: nat)
    requires id in s.orders && s.orders[id].status.Settled? && b in s.batches && Posted(s, b) && id in s.batches[b].ids
    ensures var t := Apply(cfg, s, step);
            && id in t.orders && t.orders[id].status.Settled? && b in t.batches && Posted(t, b)
               && id in t.batches[b].ids
  {
  }

  lemma {:induction false} RunKeepsSettled(cfg: Config, s: State, steps: seq<Step>, b: nat, id: nat)
    requires Inv(s) && SettledBy(s, b, id)
    ensures SettledBy(Run(cfg, s, steps), b, id)
    decreases |steps|
  {
    if steps != [] {
      StepKeepsSettled(cfg, s, steps[0], b, id);
      StepKeeps(cfg, s, steps[0]);
      RunKeepsSettled(cfg, Apply(cfg, s, steps[0]), steps[1..], b, id);
    }
  }

  /** An order is settled by exactly one posted batch, and by that one for ever. */
  lemma SettledOnce(cfg: Config, before: seq<Step>, after: seq<Step>, id: nat)
    requires var s := Run(cfg, Empty, before); id in s.orders && s.orders[id].status.Settled?
    ensures var s := Run(cfg, Empty, before);
            exists b :: SettledBy(s, b, id) && SettledBy(Run(cfg, s, after), b, id)
  {
    var s := Run(cfg, Empty, before);
    Reachable(cfg, before);
    assert SettledFits(s, id) && OrderFits(s, id);
    var b :| b in s.batches && Posted(s, b) && id in s.batches[b].ids;
    assert SettledBy(s, b, id);
    RunKeepsSettled(cfg, s, after, b, id);
  }

  /** Debits equal credits in every reachable book, whatever GST, hold or adjustment was asked for. */
  lemma BooksBalance(cfg: Config, steps: seq<Step>)
    ensures Net(Run(cfg, Empty, steps).book.lines) == 0
  {
    Reachable(cfg, steps);
  }

  lemma NetOfPositive(a: nat)
    requires a > 0
    ensures NetOf(a) > 0
  {
  }

  lemma {:induction false} TotalPositive(orders: map<nat, Order>, ids: seq<nat>)
    requires ids != [] && forall id :: id in ids ==> id in orders && orders[id].amount > 0
    ensures Gross(orders, ids) > 0
  {
    assert ids[0] in ids;
  }

  /**
   A batch created without approval is reported settled; its money has moved exactly when it pays
   something and its hold is not negative. Otherwise the ledger refused it and its orders stay
   tagged and completed.
   */
  lemma ReportedSettledExactlyWhenPosted(cfg: Config, s: State, b: nat, m: string, hold: int, adj: int)
    requires Inv(s) && CreateOf(cfg, s, b, m, hold, adj).1 == ReportedSettled
    ensures Posted(CreateOf(cfg, s, b, m, hold, adj).0, b) <==> BatchFor(cfg, s, m, hold, adj).net > 0 && hold >= 0
  {
    var batch := BatchFor(cfg, s, m, hold, adj);
    BatchForFits(cfg, s, m, hold, adj);
    assert !Posted(s, b) by { assert BatchFits(s, b); }
    forall id | id in batch.ids ensures id in s.orders && s.orders[id].amount > 0 { assert OrderFits(s, id); }
    TotalPositive(s.orders, batch.ids);
    NetOfPositive(Gross(s.orders, batch.ids));
    BatchPostsExactly(batch);
  }

  /** One completed pay-in of 100 paise. */
  const OneCompleted: State :=
    State(map[1 := Order("m", 100, Completed, None)], [1], map[], PostOf(Book({}, []), PaymentSuccess(1), PayinLines("m", "p", 100)))

  lemma OneCompletes(cfg: Config)
    ensures Run(cfg, Empty, [Submit(1, "m", 100), Complete(1, "p")]) == OneCompleted
  {
    var steps := [Submit(1, "m", 100), Complete(1, "p")];
    assert steps[1..] == [Complete(1, "p")] && steps[1..][1..] == [];
    var s1 := Apply(cfg, Empty, steps[0]);
    assert Apply(cfg, s1, steps[1]).completed == [1];
    assert Run(cfg, s1, steps[1..]) == Run(cfg, Apply(cfg, s1, steps[1]), []);
  }

  lemma AllHeld(cfg: Config)
    requires cfg.gstBps < 10000 && cfg.approval > 0
    ensures BatchFor(cfg, OneCompleted, "m", 94, 0) == Batch("m", [1], 0, 94, 0, 0, Final)
  {
    var orders := OneCompleted.orders;
    assert [1][..0] == [];
    assert Unsettled(orders, [], "m") == [];
    assert Unsettled(orders, [1], "m") == [] + [1] == [1];
    assert Amounts(orders, [1]) == [100] && [100][1..] == [];
    assert Total([]) == 0 && Total([100]) == 100 + Total([100][1..]);
  }

  /** All of its net held: the batch is reported settled with nothing posted, and the order stays in it. */
  lemma HeldBatchReportedNotPosted(cfg: Config)
    requires cfg.gstBps < 10000 && cfg.approval > 0
    ensures var s := Run(cfg, Empty, [Submit(1, "m", 100), Complete(1, "p")]);
            var (t, answer) := CreateOf(cfg, s, 1, "m", 94, 0);
            && answer == ReportedSettled && !Posted(t, 1)
            && 1 in t.orders && t.orders[1].status.Completed? && t.orders[1].batch == Some(1)
  {
    OneCompletes(cfg);
    AllHeld(cfg);
    Reachable(cfg, [Submit(1, "m", 100), Complete(1, "p")]);
    ReportedSettledExactlyWhenPosted(cfg, OneCompleted, 1, "m", 94, 0);
  }

  // ── The tables ──────────────────────────────────────────────────────────────────────────────

  lemma {:induction false} TotalPush(a: seq<nat>, x: nat)
    ensures Total(a + [x]) == Total(a) + x
    decreases |a|
  {
    if a != [] {
      TotalPush(a[1..], x);
      assert (a + [x])[1..] == a[1..] + [x];
    }
  }

  class Desk {
    const cfg: Config
    const journal: Journal
    var orders: map<nat, Order>
    var completed: seq<nat>
    var batches: map<nat, Batch>

    ghost function View(): State
      reads this, journal
    {
      State(orders, completed, batches, journal.View())
    }

    constructor (cfg: Config)
      ensures View() == Empty && this.cfg == cfg && fresh(journal)
    {
      this.cfg := cfg;
      journal := new Journal();
      orders, completed, batches := map[], [], map[];
    }

    /** The order's transition to COMPLETED and settlePayinToLedger; whether its journal is there. */
    method Complete(id: nat, provider: string) returns (posted: bool)
      requires id in orders && orders[id].status.Open?
      modifies this, journal
      ensures View() == CompleteOf(old(View()), id, provider)
      ensures posted <==> orders[id].amount >= 52
    {
      var o := orders[id];
      orders := orders[id := o.(status := Completed)];
      completed := completed + [id];
      PayinPostsExactlyFrom52Paise(o.merchant, provider, o.amount);
      posted := journal.Post(PaymentSuccess(id), PayinLines(o.merchant, provider, o.amount));
    }

    /** computeBatch: the orders a batch takes and their gross. */
    method ComputeBatch(merchant: string) returns (ids: seq<nat>, gross: nat)
      ensures ids == FirstOf(Unsettled(orders, completed, merchant)) && gross == Gross(orders, ids)
    {
      ids := FirstOf(Unsettled(orders, completed, merchant));
      gross := 0;
      for i := 0 to |ids|
        invariant gross == Total(Amounts(orders, ids)[..i])
      {
        TotalPush(Amounts(orders, ids)[..i], Amounts(orders, ids)[i]);
        assert Amounts(orders, ids)[..i + 1] == Amounts(orders, ids)[..i] + [Amounts(orders, ids)[i]];
        gross := gross + (if ids[i] in orders then orders[ids[i]].amount else 0);
      }
      assert Amounts(orders, ids)[..|ids|] == Amounts(orders, ids);
    }

    method CreateBatch(b: nat, merchant: string, hold: int, adjustment: int) returns (answer: Answer)
      requires b !in batches
      modifies this, journal
      ensures (View(), answer) == CreateOf(cfg, old(View()), b, merchant, hold, adjustment)
    {
      var ids, gross := ComputeBatch(merchant);
      if ids == [] { return NothingToSettle; }
      var gst := Fee(Fee(gross, MDR_BPS), cfg.gstBps);
      var net := NetOf(gross) - gst - hold + adjustment;
      if net < 0 { return WouldBeNegative; }
      var needsApproval := adjustment != 0 || net >= cfg.approval;
      batches := batches[b := Batch(merchant, ids, gst, hold, adjustment, net, if needsApproval then PendingApproval else Final)];
      orders := Tag(orders, ids, b);
      if needsApproval { return AwaitsApproval; }
      var _ := FinalizeBatch(b);
      return ReportedSettled;
    }

    /** finalizeSettlementBatch: post, then mark the batch's orders one by one. */
    method FinalizeBatch(b: nat) returns (ok: bool)
      modifies this, journal
      ensures View() == FinalizeOf(old(View()), b)
      ensures ok <==> b in batches && !batches[b].status.Rejected? && !Problem(BatchLines(batches[b]))
    {
      if b !in batches || batches[b].status.Rejected? { return false; }
      var batch := batches[b];
      ok := journal.Post(SettlementBatch(b), BatchLines(batch));
      if !ok { return; }
      batches := batches[b := batch.(status := Final)];
      MarkOrders(b);
    }

    method RejectBatch(b: nat)
      modifies this
      ensures View() == RejectOf(old(View()), b)
    {
      if b in batches {
        batches := batches[b := batches[b].(status := Rejected)];
        orders := Release(orders, b);
      }
    }

    method MarkOrders(b: nat)
      modifies this`orders
      ensures orders == MarkSettled(old(orders), b)
    {
      var todo := set id | id in orders && orders[id].batch == Some(b) && orders[id].status.Completed?;
      ghost var before, all := orders, todo;
      while todo != {}
        invariant todo <= all && orders.Keys == before.Keys
        invariant forall id :: id in before ==>
                    orders[id] == if id in all && id !in todo then before[id].(status := Settled) else before[id]
      {
        var id :| id in todo;
        orders := orders[id := orders[id].(status := Settled)];
        todo := todo - {id};
      }
    }
  }
}
