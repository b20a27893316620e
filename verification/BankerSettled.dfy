/**
 Which paid pay-ins a banker's lump-sum settlements cover (apps/admin-dashboard/src/lib/banker-settled.ts).
 The code derives coverage from running sums; the reference here is a walk through each queue with the
 money in hand, oldest order first. Amounts are whole paise, so the source's half paisa of float
 slack is exact comparison.
 */
module BankerSettled {
  import opened Options

  datatype Channel = Intent | P2p | Unclassified

  /** A paid live pay-in of a banker in scope; a sequence of them is ordered by (created_at, id). */
  datatype Payin = Payin(banker: string, channel: Channel, amount: int)

  /** The channel a settlement was raised for; none when it was raised for both, or before channels. */
  type SettlementChannel = c: Option<Channel> | c != Some(Unclassified) witness None

  datatype Settlement = Settlement(banker: string, channel: SettlementChannel, amount: int, utr: string)

  /** What each banker settled to each channel, and with no channel. */
  datatype Totals = Totals(channel: map<(string, Channel), int>, rest: map<string, int>)
  {
    function Of(banker: string, c: Channel): int { if (banker, c) in channel then channel[(banker, c)] else 0 }
    function Rest(banker: string): int { if banker in rest then rest[banker] else 0 }
  }

  // ── The running sums of the query ───────────────────────────────────────────────────────────

  /** SUM over the first `n` orders that `keep` selects. */
  ghost function SumWhere(os: seq<Payin>, n: nat, keep: nat -> bool): int
    requires n <= |os|
  {
    if n == 0 then 0 else SumWhere(os, n - 1, keep) + (if keep(n - 1) then os[n - 1].amount else 0)
  }

  ghost predicate InChannel(os: seq<Payin>, i: nat, banker: string, c: Channel) {
    i < |os| && os[i].banker == banker && os[i].channel == c
  }

  /** cum_ch of the order at `i`. */
  ghost function CumChannel(os: seq<Payin>, i: nat): int
    requires i < |os|
  {
    SumWhere(os, i + 1, (j: nat) => InChannel(os, j, os[i].banker, os[i].channel))
  }

  /** by_channel: the running total of its own queue fits inside what was settled to it. */
  ghost predicate ByChannel(os: seq<Payin>, t: Totals, i: nat) {
    i < |os| && CumChannel(os, i) <= t.Of(os[i].banker, os[i].channel)
  }

  ghost predicate LeftOver(os: seq<Payin>, t: Totals, i: nat, banker: string) {
    i < |os| && os[i].banker == banker && !ByChannel(os, t, i)
  }

  /** cum_rest of the order at `i`: what the channel settlements left, up to and including it. */
  ghost function CumRest(os: seq<Payin>, t: Totals, i: nat): int
    requires i < |os|
  {
    SumWhere(os, i + 1, (j: nat) => LeftOver(os, t, j, os[i].banker))
  }

  /** COVERED_SQL. */
  ghost predicate Covered(os: seq<Payin>, t: Totals, i: nat)
    requires i < |os|
  {
    ByChannel(os, t, i) || CumRest(os, t, i) <= t.Rest(os[i].banker)
  }

  // ── The walk ────────────────────────────────────────────────────────────────────────────────

  /** How many of a queue's orders, oldest first, the money pays before one does not fit. */
  function Walk(amounts: seq<int>, money: int): nat {
    if amounts == [] || amounts[0] > money then 0 else 1 + Walk(amounts[1..], money - amounts[0])
  }

  function Sum(amounts: seq<int>): int {
    if amounts == [] then 0 else Sum(amounts[..|amounts| - 1]) + amounts[|amounts| - 1]
  }

  /** The amounts of the first `n` orders that `keep` selects, in order: a queue. */
  ghost function Queue(os: seq<Payin>, n: nat, keep: nat -> bool): seq<int>
    requires n <= |os|
  {
    if n == 0 then [] else Queue(os, n - 1, keep) + (if keep(n - 1) then [os[n - 1].amount] else [])
  }

  /** The queue of a banker's channel, and how far the channel's money walks it. */
  ghost function ChannelQueue(os: seq<Payin>, n: nat, banker: string, c: Channel): seq<int>
    requires n <= |os|
  {
    Queue(os, n, (j: nat) => InChannel(os, j, banker, c))
  }

  /** The orders the channel walks left behind, across channels. */
  ghost function RestQueue(os: seq<Payin>, t: Totals, n: nat, banker: string): seq<int>
    requires n <= |os|
  {
    Queue(os, n, (j: nat) => j < |os| && os[j].banker == banker && !PaidInPhaseOne(os, t, j))
  }

  /** The order's place in its queue is among those the channel's money pays. */
  ghost predicate PaidInPhaseOne(os: seq<Payin>, t: Totals, i: nat) {
    i < |os| && |ChannelQueue(os, i, os[i].banker, os[i].channel)|
                < Walk(ChannelQueue(os, |os|, os[i].banker, os[i].channel), t.Of(os[i].banker, os[i].channel))
  }

  ghost predicate PaidInPhaseTwo(os: seq<Payin>, t: Totals, i: nat) {
    i < |os| && !PaidInPhaseOne(os, t, i)
    && |RestQueue(os, t, i, os[i].banker)| < Walk(RestQueue(os, t, |os|, os[i].banker), t.Rest(os[i].banker))
  }

  // ── The sums are the walk ───────────────────────────────────────────────────────────────────

  ghost predicate Positive(os: seq<Payin>) {
    forall i :: 0 <= i < |os| ==> os[i].amount > 0
  }

  lemma {:induction false} SumPush(a: seq<int>, x: int)
    ensures Sum(a + [x]) == Sum(a) + x
  {
    assert (a + [x])[..|a|] == a;
  }

  lemma {:induction false} SumFront(a: seq<int>)
    requires a != []
    ensures Sum(a) == a[0] + Sum(a[1..])
    decreases |a|
  {
    if |a| > 1 {
      SumFront(a[..|a| - 1]);
      assert a[..|a| - 1][1..] == a[1..][..|a| - 2];
    }
  }

  /** The running sum is the sum of the queue so far. */
  lemma {:induction false} SumOfQueue(os: seq<Payin>, n: nat, keep: nat -> bool)
    requires n <= |os|
    ensures SumWhere(os, n, keep) == Sum(Queue(os, n, keep))
  {
    if n > 0 {
      SumOfQueue(os, n - 1, keep);
      if keep(n - 1) {
        SumPush(Queue(os, n - 1, keep), os[n - 1].amount);
      } else {
        assert Queue(os, n, keep) == Queue(os, n - 1, keep);
      }
    }
  }

  /** The queue so far is a prefix of the whole queue, ending with the order itself. */
  lemma {:induction false} QueuePrefix(os: seq<Payin>, i: nat, n: nat, keep: nat -> bool)
    requires i < n <= |os| && keep(i)
    ensures var k := |Queue(os, i, keep)|;
            k < |Queue(os, n, keep)| && Queue(os, i + 1, keep) == Queue(os, n, keep)[..k + 1]
  {
    if n > i + 1 { QueuePrefix(os, i, n - 1, keep); }
  }

  lemma {:induction false} QueuePositive(os: seq<Payin>, n: nat, keep: nat -> bool)
    requires n <= |os| && Positive(os)
    ensures forall k :: 0 <= k < |Queue(os, n, keep)| ==> Queue(os, n, keep)[k] > 0
  {
    if n > 0 { QueuePositive(os, n - 1, keep); }
  }

  /** The walk reaches place k exactly when the money covers the first k + 1 amounts. */
  lemma {:induction false} WalkIsPrefixSum(a: seq<int>, money: int, k: nat)
    requires k < |a| && forall j :: 0 <= j < |a| ==> a[j] > 0
    ensures k < Walk(a, money) <==> Sum(a[..k + 1]) <= money
    decreases |a|
  {
    SumFront(a[..k + 1]);
    assert a[..k + 1][1..] == a[1..][..k];
    if k > 0 { WalkIsPrefixSum(a[1..], money - a[0], k - 1); }
    SumNonNegative(a[1..][..k]);
  }

  lemma {:induction false} SumNonNegative(a: seq<int>)
    requires forall j :: 0 <= j < |a| ==> a[j] > 0
    ensures Sum(a) >= 0
    decreases |a|
  {
    if a != [] { SumNonNegative(a[..|a| - 1]); }
  }

  /** For any queue: an order's running total fits the money exactly when the walk pays it. */
  lemma RunningSumIsWalk(os: seq<Payin>, keep: nat -> bool, i: nat, money: int)
    requires i < |os| && keep(i) && Positive(os)
    ensures SumWhere(os, i + 1, keep) <= money <==> |Queue(os, i, keep)| < Walk(Queue(os, |os|, keep), money)
  {
    QueuePrefix(os, i, |os|, keep);
    SumOfQueue(os, i + 1, keep);
    QueuePositive(os, |os|, keep);
    WalkIsPrefixSum(Queue(os, |os|, keep), money, |Queue(os, i, keep)|);
  }

  lemma ByChannelIsPhaseOne(os: seq<Payin>, t: Totals, i: nat)
    requires i < |os| && Positive(os)
    ensures ByChannel(os, t, i) <==> PaidInPhaseOne(os, t, i)
  {
    RunningSumIsWalk(os, (j: nat) => InChannel(os, j, os[i].banker, os[i].channel), i, t.Of(os[i].banker, os[i].channel));
  }

  lemma {:induction false} SumSame(os: seq<Payin>, n: nat, p: nat -> bool, q: nat -> bool)
    requires n <= |os| && forall j: nat :: j < n ==> p(j) == q(j)
    ensures SumWhere(os, n, p) == SumWhere(os, n, q)
  {
    if n > 0 { SumSame(os, n - 1, p, q); }
  }

  /** The query's coverage is the two-phase walk. */
  lemma CoverageIsTwoPhaseWalk(os: seq<Payin>, t: Totals, i: nat)
    requires i < |os| && Positive(os)
    ensures Covered(os, t, i) <==> PaidInPhaseOne(os, t, i) || PaidInPhaseTwo(os, t, i)
  {
    ByChannelIsPhaseOne(os, t, i);
    if !ByChannel(os, t, i) {
      var b := os[i].banker;
      var left := (j: nat) => LeftOver(os, t, j, b);
      var walk := (j: nat) => j < |os| && os[j].banker == b && !PaidInPhaseOne(os, t, j);
      forall j: nat | j < |os| ensures left(j) == walk(j) { ByChannelIsPhaseOne(os, t, j); }
      SumSame(os, i + 1, left, walk);
      RunningSumIsWalk(os, walk, i, t.Rest(b));
    }
  }

  // ── No queue covers more than it received ───────────────────────────────────────────────────

  ghost predicate Fits(os: seq<Payin>, keep: nat -> bool, money: int, i: nat) {
    i < |os| && keep(i) && SumWhere(os, i + 1, keep) <= money
  }

  function Min(a: nat, b: nat): nat { if a < b then a else b }

  /** The orders of a queue whose running total fits are, in amount, exactly what the walk paid. */
  lemma {:induction false} FittingIsWalked(os: seq<Payin>, keep: nat -> bool, money: int, n: nat)
    requires n <= |os| && Positive(os)
    ensures var w := Walk(Queue(os, |os|, keep), money);
            SumWhere(os, n, (j: nat) => Fits(os, keep, money, j))
                == Sum(Queue(os, n, keep)[..Min(w, |Queue(os, n, keep)|)])
  {
    if n > 0 {
      FittingIsWalked(os, keep, money, n - 1);
      var q, q', w := Queue(os, n, keep), Queue(os, n - 1, keep), Walk(Queue(os, |os|, keep), money);
      if keep(n - 1) {
        RunningSumIsWalk(os, keep, n - 1, money);
        if |q'| < w {
          assert q[..Min(w, |q|)] == q'[..Min(w, |q'|)] + [os[n - 1].amount];
          SumPush(q'[..Min(w, |q'|)], os[n - 1].amount);
        } else {
          assert q[..Min(w, |q|)] == q'[..Min(w, |q'|)];
        }
      } else {
        assert q == q';
      }
    }
  }

  lemma {:induction false} WalkSpendsWithin(a: seq<int>, money: int)
    ensures Walk(a, money) <= |a| && (money >= 0 ==> Sum(a[..Walk(a, money)]) <= money)
    ensures money < 0 && (forall j :: 0 <= j < |a| ==> a[j] > 0) ==> Walk(a, money) == 0
    decreases |a|
  {
    if a != [] && a[0] <= money {
      WalkSpendsWithin(a[1..], money - a[0]);
      var k := Walk(a, money);
      SumFront(a[..k]);
      assert a[..k][1..] == a[1..][..k - 1];
    } else {
      assert a[..Walk(a, money)] == [];
    }
  }

  /** What a queue covers never exceeds what was settled to it. */
  lemma QueueNeverOverspends(os: seq<Payin>, keep: nat -> bool, money: int)
    requires Positive(os) && money >= 0
    ensures SumWhere(os, |os|, (j: nat) => Fits(os, keep, money, j)) <= money
  {
    FittingIsWalked(os, keep, money, |os|);
    WalkSpendsWithin(Queue(os, |os|, keep), money);
  }

  /**
   Per banker and channel: what the channel's settlements cover is within them, what the no-channel
   settlements cover of the rest is within those.
   */
  lemma CoverageWithinSettled(os: seq<Payin>, t: Totals, banker: string, c: Channel)
    requires Positive(os) && t.Of(banker, c) >= 0 && t.Rest(banker) >= 0
    ensures SumWhere(os, |os|, (j: nat) => InChannel(os, j, banker, c) && ByChannel(os, t, j)) <= t.Of(banker, c)
    ensures SumWhere(os, |os|, (j: nat) => LeftOver(os, t, j, banker) && Covered(os, t, j)) <= t.Rest(banker)
  {
    var inCh := (j: nat) => InChannel(os, j, banker, c);
    var left := (j: nat) => LeftOver(os, t, j, banker);
    QueueNeverOverspends(os, inCh, t.Of(banker, c));
    QueueNeverOverspends(os, left, t.Rest(banker));
    SumSame(os, |os|, (j: nat) => InChannel(os, j, banker, c) && ByChannel(os, t, j), (j: nat) => Fits(os, inCh, t.Of(banker, c), j));
    SumSame(os, |os|, (j: nat) => LeftOver(os, t, j, banker) && Covered(os, t, j), (j: nat) => Fits(os, left, t.Rest(banker), j));
  }

  // ── More money, later orders ────────────────────────────────────────────────────────────────

  lemma {:induction false} SumShrinks(os: seq<Payin>, n: nat, p: nat -> bool, q: nat -> bool)
    requires n <= |os| && Positive(os) && forall j: nat :: j < n && p(j) ==> q(j)
    ensures SumWhere(os, n, p) <= SumWhere(os, n, q)
  {
    if n > 0 { SumShrinks(os, n - 1, p, q); }
  }

  ghost predicate AtLeast(more: Totals, t: Totals) {
    && (forall b, c :: t.Of(b, c) <= more.Of(b, c))
    && (forall b :: t.Rest(b) <= more.Rest(b))
  }

  /** Totals that only grew uncover no order. */
  lemma MoreSettledKeepsCover(os: seq<Payin>, t: Totals, more: Totals, i: nat)
    requires i < |os| && Positive(os) && AtLeast(more, t) && Covered(os, t, i)
    ensures Covered(os, more, i)
  {
    if !ByChannel(os, t, i) {
      var b := os[i].banker;
      SumShrinks(os, i + 1, (j: nat) => LeftOver(os, more, j, b), (j: nat) => LeftOver(os, t, j, b));
    }
  }

  function Insert(os: seq<Payin>, p: nat, o: Payin): seq<Payin>
    requires p <= |os|
  {
    os[..p] + [o] + os[p..]
  }

  /** Where the order at `i` is after an insertion at `p`. */
  function Moved(p: nat, i: nat): nat { if i < p then i else i + 1 }

  /** A running sum that leaves the inserted order out is what it was. */
  lemma {:induction false} SumAfterInsert(os: seq<Payin>, p: nat, o: Payin, n: nat, keep: nat -> bool,
      keep': nat -> bool)
    requires p <= |os| && n <= |os| && (n > p ==> !keep'(p))
    requires forall j: nat :: j < n ==> keep'(Moved(p, j)) == keep(j)
    ensures SumWhere(Insert(os, p, o), if n <= p then n else n + 1, keep') == SumWhere(os, n, keep)
  {
    if n > 0 {
      SumAfterInsert(os, p, o, n - 1, keep, keep');
      var ins := Insert(os, p, o);
      assert ins[Moved(p, n - 1)] == os[n - 1];
      if n == p + 1 { assert SumWhere(ins, n, keep') == SumWhere(ins, n - 1, keep'); }
    }
  }

  /** No order of the inserted one's banker comes after it. */
  ghost predicate NewestOfBanker(os: seq<Payin>, p: nat, banker: string) {
    forall j :: p <= j < |os| ==> os[j].banker != banker
  }

  lemma ByChannelAfterInsert(os: seq<Payin>, p: nat, o: Payin, t: Totals, i: nat)
    requires p <= |os| && i < |os| && NewestOfBanker(os, p, o.banker)
    ensures ByChannel(Insert(os, p, o), t, Moved(p, i)) <==> ByChannel(os, t, i)
  {
    var ins := Insert(os, p, o);
    var b, c := os[i].banker, os[i].channel;
    assert ins[Moved(p, i)] == os[i];
    forall j: nat | j < i + 1
      ensures InChannel(ins, Moved(p, j), b, c) == InChannel(os, j, b, c) { assert ins[Moved(p, j)] == os[j]; }
    SumAfterInsert(os, p, o, i + 1, (j: nat) => InChannel(os, j, b, c), (j: nat) => InChannel(ins, j, b, c));
  }

  lemma InsertKeepsCover(os: seq<Payin>, p: nat, o: Payin, t: Totals, i: nat)
    requires p <= |os| && i < |os| && NewestOfBanker(os, p, o.banker)
    ensures Covered(Insert(os, p, o), t, Moved(p, i)) <==> Covered(os, t, i)
  {
    var ins := Insert(os, p, o);
    var b := os[i].banker;
    ByChannelAfterInsert(os, p, o, t, i);
    assert ins[Moved(p, i)] == os[i];
    forall j: nat | j < i + 1 ensures LeftOver(ins, t, Moved(p, j), b) == LeftOver(os, t, j, b) {
      assert ins[Moved(p, j)] == os[j];
      ByChannelAfterInsert(os, p, o, t, j);
    }
    SumAfterInsert(os, p, o, i + 1, (j: nat) => LeftOver(os, t, j, b), (j: nat) => LeftOver(ins, t, j, b));
  }

  ghost function OfBanker(os: seq<Payin>, b: string): nat -> bool {
    (j: nat) => j < |os| && os[j].banker == b
  }

  /** The amounts of a banker's first orders, whatever their channel. */
  ghost function BankerSum(os: seq<Payin>, n: nat, b: string): int
    requires n <= |os|
  {
    SumWhere(os, n, OfBanker(os, b))
  }

  /** With nothing settled to a channel an order is covered exactly when its banker's total reaches it. */
  lemma CoveredByRestAlone(os: seq<Payin>, t: Totals, i: nat, b: string)
    requires i < |os| && Positive(os) && t.channel == map[] && os[i].banker == b
    ensures Covered(os, t, i) <==> BankerSum(os, i + 1, b) <= t.Rest(b)
  {
    forall j: nat | j < |os| ensures !ByChannel(os, t, j) { NothingByChannel(os, t, j); }
    SumSame(os, i + 1, (j: nat) => LeftOver(os, t, j, b), OfBanker(os, b));
  }

  /** An order of the same banker that comes after the inserted one, settled to the paisa, is uncovered. */
  lemma OlderOrderUncovers(os: seq<Payin>, p: nat, o: Payin, i: nat)
    requires p <= i < |os| && Positive(os) && o.amount > 0 && os[i].banker == o.banker
    ensures var t := Totals(map[], map[o.banker := BankerSum(os, i + 1, o.banker)]);
            Covered(os, t, i) && !Covered(Insert(os, p, o), t, i + 1)
  {
    var ins, b := Insert(os, p, o), o.banker;
    var t := Totals(map[], map[b := BankerSum(os, i + 1, b)]);
    forall k | 0 <= k < |ins| ensures ins[k].amount > 0 {
      assert ins[k] == (if k < p then os[k] else if k == p then o else os[k - 1]);
    }
    assert ins[i + 1] == os[i];
    CoveredByRestAlone(os, t, i, b);
    CoveredByRestAlone(ins, t, i + 1, b);
    SumGrowsByInserted(os, p, o, i + 1, b);
  }

  /** With nothing settled to a channel no order is covered by one. */
  lemma NothingByChannel(os: seq<Payin>, t: Totals, i: nat)
    requires i < |os| && Positive(os) && t.channel == map[]
    ensures !ByChannel(os, t, i)
  {
    var keep := (j: nat) => InChannel(os, j, os[i].banker, os[i].channel);
    SumOfQueue(os, i, keep);
    QueuePositive(os, i, keep);
    SumNonNegative(Queue(os, i, keep));
  }

  lemma {:induction false} SumGrowsByInserted(os: seq<Payin>, p: nat, o: Payin, n: nat, b: string)
    requires p < n <= |os| && o.banker == b
    ensures BankerSum(Insert(os, p, o), n + 1, b) == BankerSum(os, n, b) + o.amount
  {
    var ins := Insert(os, p, o);
    var all, all' := OfBanker(os, b), OfBanker(ins, b);
    assert ins[n] == os[n - 1] && ins[p] == o;
    assert all'(n) == all(n - 1) && all'(p);
    if n == p + 1 {
      forall j: nat | j < p ensures all'(Moved(p, j)) == all(j) { assert ins[j] == os[j]; }
      SumAfterInsert(os, p, o, p, all, all');
      assert SumWhere(ins, n, all') == SumWhere(ins, p, all') + o.amount;
    } else {
      SumGrowsByInserted(os, p, o, n - 1, b);
    }
  }

  /**
   An order entering the queue (paid now, created at any time) can never uncover another, whatever
   was settled, exactly when it is the newest of its banker.
   */
  lemma PaidLateUncoversExactlyWhenOlder(os: seq<Payin>, p: nat, o: Payin)
    requires p <= |os| && Positive(os) && o.amount > 0
    ensures (forall t: Totals, i: nat :: i < |os| && Covered(os, t, i) ==> Covered(Insert(os, p, o), t, Moved(p, i)))
            <==> NewestOfBanker(os, p, o.banker)
  {
    if NewestOfBanker(os, p, o.banker) {
      forall t: Totals, i: nat | i < |os| && Covered(os, t, i) ensures Covered(Insert(os, p, o), t, Moved(p, i)) {
        InsertKeepsCover(os, p, o, t, i);
      }
    } else {
      var i :| p <= i < |os| && os[i].banker == o.banker;
      OlderOrderUncovers(os, p, o, i);
      var t := Totals(map[], map[o.banker := BankerSum(os, i + 1, o.banker)]);
      assert Covered(os, t, i) && !Covered(Insert(os, p, o), t, Moved(p, i));
    }
  }

  // ── Reading the settlements: buildCoverage and settlementCovering ───────────────────────────

  function ChannelName(c: SettlementChannel): string {
    match c case None => "" case Some(Intent) => "INTENT" case Some(P2p) => "P2P"
  }

  function QueueKey(banker: string, c: SettlementChannel): string {
    banker + "|" + ChannelName(c)
  }

  /** Where the last separator of a key stands. */
  function LastBar(s: string): int {
    if s == [] then -1 else if s[|s| - 1] == '|' then |s| - 1 else LastBar(s[..|s| - 1])
  }

  lemma {:induction false} LastBarOf(banker: string, name: string)
    requires '|' !in name
    ensures LastBar(banker + "|" + name) == |banker|
    decreases |name|
  {
    if name != "" {
      var s := banker + "|" + name;
      assert s[|s| - 1] == name[|name| - 1];
      assert s[..|s| - 1] == banker + "|" + name[..|name| - 1];
      LastBarOf(banker, name[..|name| - 1]);
    }
  }

  /** A key stands for one queue, even when a banker's code holds the separator. */
  lemma QueueKeyInjective(a: string, c: SettlementChannel, b: string, d: SettlementChannel)
    requires QueueKey(a, c) == QueueKey(b, d)
    ensures a == b && c == d
  {
    LastBarOf(a, ChannelName(c));
    LastBarOf(b, ChannelName(d));
    assert a == QueueKey(a, c)[..|a|] && b == QueueKey(b, d)[..|b|];
    assert |ChannelName(c)| == |ChannelName(d)|;
  }

  /** A queue's settlements, oldest first. */
  function SettlementsOf(list: seq<Settlement>, banker: string, c: SettlementChannel): seq<Settlement> {
    if list == [] then []
    else
      var s := list[|list| - 1];
      SettlementsOf(list[..|list| - 1], banker, c) + (if s.banker == banker && s.channel == c then [s] else [])
  }

  function Amounts(l: seq<Settlement>): seq<int> {
    seq(|l|, i requires 0 <= i < |l| => l[i].amount)
  }

  datatype Coverage = Coverage(totals: Totals, settlements: map<string, seq<Settlement>>, bankerOf: map<string, string>)
  {
    function QueueAt(key: string): seq<Settlement> { if key in settlements then settlements[key] else [] }
  }

  /** The coverage holds every queue's settlements in order, and their total. */
  ghost predicate Summarises(c: Coverage, list: seq<Settlement>) {
    && (forall b, ch :: c.QueueAt(QueueKey(b, ch)) == SettlementsOf(list, b, ch))
    && (forall b :: c.totals.Of(b, Intent) == Sum(Amounts(SettlementsOf(list, b, Some(Intent)))))
    && (forall b :: c.totals.Of(b, P2p) == Sum(Amounts(SettlementsOf(list, b, Some(P2p)))))
    && (forall b :: c.totals.Rest(b) == Sum(Amounts(SettlementsOf(list, b, None))))
    && (forall b :: c.totals.Of(b, Unclassified) == 0)
  }

  lemma SettlementsPush(list: seq<Settlement>, s: Settlement, b: string, c: SettlementChannel)
    ensures SettlementsOf(list + [s], b, c)
            == SettlementsOf(list, b, c) + (if s.banker == b && s.channel == c then [s] else [])
  {
    assert (list + [s])[..|list|] == list;
  }

  /** The group of a queue holds its settlements; a queue with none has no group. */
  ghost predicate QueueIs(m: map<string, seq<Settlement>>, list: seq<Settlement>, b: string, ch: SettlementChannel) {
    SettlementsOf(list, b, ch) == (if QueueKey(b, ch) in m then m[QueueKey(b, ch)] else [])
  }

  /** A group is named by the queue its settlements are of. */
  ghost predicate GroupNamed(m: map<string, seq<Settlement>>, k: string) {
    k in m ==> m[k] != [] && k == QueueKey(m[k][0].banker, m[k][0].channel)
  }

  /** The grouping loop's state: the keys met, each with its settlements. */
  ghost predicate Grouped(m: map<string, seq<Settlement>>, keys: seq<string>, list: seq<Settlement>) {
    && (forall k :: k in m <==> k in keys)
    && (forall k :: GroupNamed(m, k))
    && (forall b, ch :: QueueIs(m, list, b, ch))
  }

  function Grow(m: map<string, seq<Settlement>>, s: Settlement): map<string, seq<Settlement>> {
    var k := QueueKey(s.banker, s.channel);
    m[k := (if k in m then m[k] else []) + [s]]
  }

  lemma GroupOne(m: map<string, seq<Settlement>>, keys: seq<string>, list: seq<Settlement>, s: Settlement)
    requires Grouped(m, keys, list)
    ensures var k := QueueKey(s.banker, s.channel);
            Grouped(Grow(m, s), if k in m then keys else keys + [k], list + [s])
  {
    var k, m' := QueueKey(s.banker, s.channel), Grow(m, s);
    forall b, ch ensures QueueIs(m', list + [s], b, ch) {
      assert QueueIs(m, list, b, ch);
      SettlementsPush(list, s, b, ch);
      if QueueKey(b, ch) == k { QueueKeyInjective(b, ch, s.banker, s.channel); }
    }
    forall j ensures GroupNamed(m', j) { assert GroupNamed(m, j); }
  }

  method Group(list: seq<Settlement>) returns (settlements: map<string, seq<Settlement>>, keys: seq<string>)
    ensures Grouped(settlements, keys, list)
    ensures forall i, j :: 0 <= i < j < |keys| ==> keys[i] != keys[j]
  {
    settlements, keys := map[], [];
    for i := 0 to |list|
      invariant Grouped(settlements, keys, list[..i])
      invariant forall j, k :: 0 <= j < k < |keys| ==> keys[j] != keys[k]
    {
      var s := list[i];
      GroupOne(settlements, keys, list[..i], s);
      assert list[..i + 1] == list[..i] + [s];
      assert QueueKey(s.banker, s.channel) in keys <==> QueueKey(s.banker, s.channel) in settlements;
      if QueueKey(s.banker, s.channel) !in settlements { keys := keys + [QueueKey(s.banker, s.channel)]; }
      settlements := Grow(settlements, s);
    }
    assert list[..|list|] == list;
  }

  ghost predicate ChannelTotalled(t: Totals, m: map<string, seq<Settlement>>, keys: seq<string>, b: string,
    ch: Channel) {
    if ch == Unclassified || QueueKey(b, Some(ch)) !in keys then (b, ch) !in t.channel
    else (b, ch) in t.channel && (QueueKey(b, Some(ch)) in m ==> t.channel[(b, ch)] == Sum(Amounts(m[QueueKey(b, Some(ch))])))
  }

  ghost predicate RestTotalled(t: Totals, m: map<string, seq<Settlement>>, keys: seq<string>, b: string) {
    if QueueKey(b, None) !in keys then b !in t.rest
    else b in t.rest && (QueueKey(b, None) in m ==> t.rest[b] == Sum(Amounts(m[QueueKey(b, None)])))
  }

  /** The totals of the queues whose keys are listed. */
  ghost predicate Totalled(t: Totals, m: map<string, seq<Settlement>>, keys: seq<string>) {
    && (forall b, ch :: ChannelTotalled(t, m, keys, b, ch))
    && (forall b :: RestTotalled(t, m, keys, b))
  }

  function AddTotal(t: Totals, l: seq<Settlement>): Totals
    requires l != []
  {
    if l[0].channel.Some? then t.(channel := t.channel[(l[0].banker, l[0].channel.value) := Sum(Amounts(l))])
    else t.(rest := t.rest[l[0].banker := Sum(Amounts(l))])
  }

  lemma TotalOne(t: Totals, m: map<string, seq<Settlement>>, keys: seq<string>, k: string)
    requires Totalled(t, m, keys) && k in m && GroupNamed(m, k)
    ensures Totalled(AddTotal(t, m[k]), m, keys + [k])
  {
    var s, t' := m[k][0], AddTotal(t, m[k]);
    forall b, ch ensures ChannelTotalled(t', m, keys + [k], b, ch) {
      assert ChannelTotalled(t, m, keys, b, ch);
      if ch != Unclassified && QueueKey(b, Some(ch)) == k { QueueKeyInjective(b, Some(ch), s.banker, s.channel); }
    }
    forall b ensures RestTotalled(t', m, keys + [k], b) {
      assert RestTotalled(t, m, keys, b);
      if QueueKey(b, None) == k { QueueKeyInjective(b, None, s.banker, s.channel); }
    }
  }

  /** Groups and totals of every queue are a summary of the list. */
  lemma TotalledSummarises(t: Totals, m: map<string, seq<Settlement>>, keys: seq<string>, list: seq<Settlement>,
      bankerOf: map<string, string>)
    requires Grouped(m, keys, list) && Totalled(t, m, keys)
    ensures Summarises(Coverage(t, m, bankerOf), list)
  {
    forall b
      ensures t.Of(b, Intent) == Sum(Amounts(SettlementsOf(list, b, Some(Intent))))
      ensures t.Of(b, P2p) == Sum(Amounts(SettlementsOf(list, b, Some(P2p))))
      ensures t.Rest(b) == Sum(Amounts(SettlementsOf(list, b, None))) && t.Of(b, Unclassified) == 0
    {
      assert ChannelTotalled(t, m, keys, b, Intent) && ChannelTotalled(t, m, keys, b, P2p);
      assert ChannelTotalled(t, m, keys, b, Unclassified) && RestTotalled(t, m, keys, b);
      assert QueueIs(m, list, b, Some(Intent)) && QueueIs(m, list, b, Some(P2p)) && QueueIs(m, list, b, None);
    }
    forall b, ch ensures Coverage(t, m, bankerOf).QueueAt(QueueKey(b, ch))
      == SettlementsOf(list, b, ch) { assert QueueIs(m, list, b, ch); }
  }

  /** buildCoverage. */
  method BuildCoverage(list: seq<Settlement>, bankerOf: map<string, string>) returns (c: Coverage)
    ensures c.bankerOf == bankerOf && Summarises(c, list)
  {
    var settlements, keys := Group(list);
    var totals := Totals(map[], map[]);
    for i := 0 to |keys|
      invariant Totalled(totals, settlements, keys[..i])
    {
      assert keys[i] in settlements && GroupNamed(settlements, keys[i]);
      TotalOne(totals, settlements, keys[..i], keys[i]);
      assert keys[..i + 1] == keys[..i] + [keys[i]];
      totals := AddTotal(totals, settlements[keys[i]]);
    }
    assert keys[..|keys|] == keys;
    TotalledSummarises(totals, settlements, keys, list, bankerOf);
    c := Coverage(totals, settlements, bankerOf);
  }

  /** What a list settles to a queue. */
  function SettledTo(list: seq<Settlement>, banker: string, c: SettlementChannel): int {
    Sum(Amounts(SettlementsOf(list, banker, c)))
  }

  lemma SettledPush(list: seq<Settlement>, s: Settlement, banker: string, c: SettlementChannel)
    ensures SettledTo(list + [s], banker, c)
            == SettledTo(list, banker, c) + (if s.banker == banker && s.channel == c then s.amount else 0)
  {
    SettlementsPush(list, s, banker, c);
    var l := SettlementsOf(list, banker, c);
    assert Amounts(l + [s]) == Amounts(l) + [s.amount];
    SumPush(Amounts(l), s.amount);
    assert l + [] == l;
  }

  lemma {:induction false} SettledConcat(a: seq<Settlement>, b: seq<Settlement>, banker: string, c: SettlementChannel)
    ensures SettledTo(a + b, banker, c) == SettledTo(a, banker, c) + SettledTo(b, banker, c)
    decreases |b|
  {
    if b == [] {
      assert a + b == a;
    } else {
      var init, x := b[..|b| - 1], b[|b| - 1];
      assert a + b == (a + init) + [x] && b == init + [x];
      SettledConcat(a, init, banker, c);
      SettledPush(a + init, x, banker, c);
      SettledPush(init, x, banker, c);
    }
  }

  /** One more settlement, wherever it stands in the list, adds its amount to its own queue and to no other. */
  lemma QueueGrows(a: seq<Settlement>, s: Settlement, b: seq<Settlement>, banker: string, c: SettlementChannel)
    ensures SettledTo(a + [s] + b, banker, c)
            == SettledTo(a + b, banker, c) + (if s.banker == banker && s.channel == c then s.amount else 0)
  {
    SettledConcat(a + [s], b, banker, c);
    SettledConcat(a, b, banker, c);
    SettledPush(a, s, banker, c);
  }

  /** The totals of a summary are what its list settles. */
  lemma TotalsAreSettled(c: Coverage, list: seq<Settlement>, banker: string, ch: Channel)
    requires Summarises(c, list)
    ensures c.totals.Of(banker, ch) == (if ch.Unclassified? then 0 else SettledTo(list, banker, Some(ch)))
    ensures c.totals.Rest(banker) == SettledTo(list, banker, None)
  {
  }

  lemma TotalGrows(a: seq<Settlement>, s: Settlement, b: seq<Settlement>, c: Coverage, d: Coverage, x: string,
      ch: Channel)
    requires s.amount >= 0 && Summarises(c, a + b) && Summarises(d, a + [s] + b)
    ensures c.totals.Of(x, ch) <= d.totals.Of(x, ch) && c.totals.Rest(x) <= d.totals.Rest(x)
  {
    TotalsAreSettled(c, a + b, x, ch);
    TotalsAreSettled(d, a + [s] + b, x, ch);
    QueueGrows(a, s, b, x, None);
    if !ch.Unclassified? { QueueGrows(a, s, b, x, Some(ch)); }
  }

  lemma TotalsGrow(a: seq<Settlement>, s: Settlement, b: seq<Settlement>, c: Coverage, d: Coverage)
    requires s.amount >= 0 && Summarises(c, a + b) && Summarises(d, a + [s] + b)
    ensures AtLeast(d.totals, c.totals)
  {
    forall x, ch ensures c.totals.Of(x, ch) <= d.totals.Of(x, ch) { TotalGrows(a, s, b, c, d, x, ch); }
    forall x ensures c.totals.Rest(x) <= d.totals.Rest(x) { TotalGrows(a, s, b, c, d, x, Intent); }
  }

  /** One more settlement, to a channel or to none and of any date, never uncovers an order. */
  lemma AddedSettlementKeepsCover(os: seq<Payin>, a: seq<Settlement>, s: Settlement, b: seq<Settlement>, c: Coverage,
      d: Coverage, i: nat)
    requires i < |os| && Positive(os) && s.amount >= 0
    requires Summarises(c, a + b) && Summarises(d, a + [s] + b) && Covered(os, c.totals, i)
    ensures Covered(os, d.totals, i)
  {
    TotalsGrow(a, s, b, c, d);
    MoreSettledKeepsCover(os, c.totals, d.totals, i);
  }

  /** Where an order sits in its queues, as the cover query reports it. */
  datatype Position = Position(channel: Channel, byChannel: bool, cumChannel: int, cumRest: int)

  ghost function PositionOf(os: seq<Payin>, t: Totals, i: nat): Position
    requires i < |os|
  {
    Position(os[i].channel, ByChannel(os, t, i), CumChannel(os, i), CumRest(os, t, i))
  }

  /** The queue that is read for a position, and the place in it. */
  function QueueFor(c: Coverage, banker: string, pos: Position): (seq<Settlement>, int) {
    if pos.byChannel && !pos.channel.Unclassified? then (c.QueueAt(QueueKey(banker, Some(pos.channel))), pos.cumChannel)
    else (c.QueueAt(QueueKey(banker, None)), pos.cumRest)
  }

  function Received(l: seq<Settlement>, k: nat): int
    requires k <= |l|
  {
    Sum(Amounts(l[..k]))
  }

  /** The running total up to and including settlement `k`. */
  function Running(l: seq<Settlement>, k: nat): int
    requires k < |l|
  {
    Received(l, k + 1)
  }

  /** Settlement `k` is the first whose running total reaches `cum`. */
  ghost predicate Reaches(l: seq<Settlement>, k: nat, cum: int) {
    k < |l| && Running(l, k) >= cum && forall j: nat :: j < k ==> Running(l, j) < cum
  }

  lemma ReceivedNext(l: seq<Settlement>, k: nat)
    requires k < |l|
    ensures Received(l, k + 1) == Received(l, k) + l[k].amount
  {
    assert Amounts(l[..k + 1]) == Amounts(l[..k]) + [l[k].amount];
    SumPush(Amounts(l[..k]), l[k].amount);
  }

  /** settlementCovering. */
  method SettlementCovering(c: Coverage, merchantId: Option<string>, pos: Option<Position>)
      returns (r: Option<Settlement>)
    ensures merchantId.None? || merchantId.value !in c.bankerOf || c.bankerOf[merchantId.value] == "" || pos.None? ==>
              r.None?
    ensures merchantId.Some? && merchantId.value in c.bankerOf && c.bankerOf[merchantId.value] != "" && pos.Some? ==>
              var (l, cum) := QueueFor(c, c.bankerOf[merchantId.value], pos.value);
              if r.Some? then exists k: nat :: Reaches(l, k, cum) && l[k] == r.value
              else forall k: nat :: !Reaches(l, k, cum)
  {
    if merchantId.None? || merchantId.value !in c.bankerOf || c.bankerOf[merchantId.value]
      == "" || pos.None? { return None; }
    var (l, cum) := QueueFor(c, c.bankerOf[merchantId.value], pos.value);
    var run := 0;
    for i := 0 to |l|
      invariant run == Received(l, i)
      invariant forall j: nat :: j < i ==> Running(l, j) < cum
    {
      ReceivedNext(l, i);
      run := run + l[i].amount;
      if cum <= run {
        assert Reaches(l, i, cum);
        return Some(l[i]);
      }
    }
    return None;
  }

  ghost predicate NoneNegative(l: seq<Settlement>) {
    forall k :: 0 <= k < |l| ==> l[k].amount >= 0
  }

  lemma {:induction false} ReceivedGrows(l: seq<Settlement>, j: nat, k: nat)
    requires j <= k <= |l| && NoneNegative(l)
    ensures Received(l, j) <= Received(l, k)
  {
    if j < k {
      ReceivedGrows(l, j, k - 1);
      ReceivedNext(l, k - 1);
    }
  }

  lemma {:induction false} FirstReaching(l: seq<Settlement>, k: nat, cum: int)
    requires k < |l| && Running(l, k) >= cum
    ensures exists j: nat :: Reaches(l, j, cum)
  {
    if j: nat :| j < k && Running(l, j) >= cum {
      FirstReaching(l, j, cum);
    } else {
      assert Reaches(l, k, cum);
    }
  }

  lemma ReachedExactlyWithinTotal(l: seq<Settlement>, cum: int)
    requires cum > 0 && NoneNegative(l)
    ensures (exists k: nat :: Reaches(l, k, cum)) <==> cum <= Sum(Amounts(l))
  {
    assert l[..|l|] == l;
    if k: nat :| Reaches(l, k, cum) { ReceivedGrows(l, k + 1, |l|); }
    if cum <= Sum(Amounts(l)) { FirstReaching(l, |l| - 1, cum); }
  }

  lemma RunningSumPositive(os: seq<Payin>, i: nat, keep: nat -> bool)
    requires i < |os| && keep(i) && Positive(os)
    ensures SumWhere(os, i + 1, keep) > 0
  {
    SumOfQueue(os, i, keep);
    QueuePositive(os, i, keep);
    SumNonNegative(Queue(os, i, keep));
  }

  /** A settlement is named for exactly the covered orders. */
  lemma NamedExactlyWhenCovered(os: seq<Payin>, list: seq<Settlement>, c: Coverage, i: nat)
    requires i < |os| && Positive(os) && Summarises(c, list)
    requires forall b, ch :: NoneNegative(SettlementsOf(list, b, ch))
    ensures var (l, cum) := QueueFor(c, os[i].banker, PositionOf(os, c.totals, i));
            (exists k: nat :: Reaches(l, k, cum)) <==> Covered(os, c.totals, i)
  {
    var b := os[i].banker;
    var (l, cum) := QueueFor(c, b, PositionOf(os, c.totals, i));
    RunningSumPositive(os, i, (j: nat) => InChannel(os, j, b, os[i].channel));
    if !ByChannel(os, c.totals, i) { RunningSumPositive(os, i, (j: nat) => LeftOver(os, c.totals, j, b)); }
    assert cum > 0;
    if PositionOf(os, c.totals, i).byChannel && !os[i].channel.Unclassified? {
      assert l == SettlementsOf(list, b, Some(os[i].channel));
    } else {
      assert l == SettlementsOf(list, b, None);
    }
    assert NoneNegative(l);
    ReachedExactlyWithinTotal(l, cum);
  }

  lemma {:induction false} SumWhereGrows(os: seq<Payin>, m: nat, n: nat, keep: nat -> bool)
    requires m <= n <= |os| && Positive(os)
    ensures SumWhere(os, m, keep) <= SumWhere(os, n, keep)
  {
    if m < n { SumWhereGrows(os, m, n - 1, keep); }
  }

  /** A later order of a queue is never given an earlier settlement. */
  lemma LaterOrderNeverEarlierSettlement(os: seq<Payin>, t: Totals, c: Coverage, i: nat, j: nat, k: nat, m: nat)
    requires i < j < |os| && Positive(os) && os[i].banker == os[j].banker
    requires ByChannel(os, t, i) == ByChannel(os, t, j) && (ByChannel(os, t, i) ==> os[i].channel == os[j].channel)
    requires var (l, cum) := QueueFor(c, os[i].banker, PositionOf(os, t, i)); Reaches(l, k, cum)
    requires var (l, cum) := QueueFor(c, os[j].banker, PositionOf(os, t, j)); Reaches(l, m, cum)
    ensures k <= m
  {
    SumWhereGrows(os, i + 1, j + 1, (n: nat) => InChannel(os, n, os[i].banker, os[i].channel));
    SumWhereGrows(os, i + 1, j + 1, (n: nat) => LeftOver(os, t, n, os[i].banker));
    var (l, cumI) := QueueFor(c, os[i].banker, PositionOf(os, t, i));
    var (l', cumJ) := QueueFor(c, os[j].banker, PositionOf(os, t, j));
    assert l == l' && cumI <= cumJ;
  }
}
