/**
 The order a merchant's bankers are offered an order in (apps/admin-dashboard/src/lib/banker-switch.ts,
 lines 24-77). Random numbers are an arbitrary stream in [0,1), taken as exact reals; the collation of
 banker codes is an arbitrary rank that tells different codes apart.
 */
module BankerSwitch {
  import opened Options

  datatype Mode = Priority | Weighted

  datatype Settings = Settings(mode: Mode, pinnedBanker: Option<string>, pinnedUntil: Option<int>)

  datatype Member = Member(code: string, inRotation: bool, priority: int, weight: int)

  datatype How = ByPin | ByPriority | ByWeight

  datatype Candidate = Candidate(banker: string, how: How)

  /** The random numbers of one call, in the order they are drawn. */
  type Stream = seq<real>

  type Rank = string -> int

  predicate UnitStream(draws: Stream) { forall k :: 0 <= k < |draws| ==> 0.0 <= draws[k] < 1.0 }

  ghost predicate TellsApart(rank: Rank) { forall a, b :: rank(a) == rank(b) ==> a == b }

  ghost predicate Distinct(ms: seq<Member>) {
    forall i, j :: 0 <= i < j < |ms| ==> ms[i].code != ms[j].code
  }

  predicate Has(ms: seq<Member>, code: string) { exists i :: 0 <= i < |ms| && ms[i].code == code }

  /** activePin: an empty code pins nobody, and a pin without an end, or with an unreadable one, lasts. */
  function ActivePin(members: seq<Member>, s: Settings, now: int): Option<string> {
    if s.pinnedBanker.None? || s.pinnedBanker.value == "" || !Has(members, s.pinnedBanker.value) then None
    else if s.pinnedUntil.Some? && s.pinnedUntil.value <= now then None
    else s.pinnedBanker
  }

  /** Who takes part beside the pin. */
  predicate Eligible(m: Member, pin: Option<string>, mode: Mode) {
    m.inRotation && pin != Some(m.code) && (mode.Weighted? ==> m.weight > 0)
  }

  function Pool(ms: seq<Member>, pin: Option<string>, mode: Mode): seq<Member> {
    if ms == [] then []
    else (if Eligible(ms[0], pin, mode) then [ms[0]] else []) + Pool(ms[1..], pin, mode)
  }

  function Tagged(ms: seq<Member>, how: How): (out: seq<Candidate>)
    ensures |out| == |ms| && forall i :: 0 <= i < |ms| ==> out[i] == Candidate(ms[i].code, how)
  {
    seq(|ms|, i requires 0 <= i < |ms| => Candidate(ms[i].code, how))
  }

  // ── A weighted draw ─────────────────────────────────────────────────────────────────────────

  /** The weights of the first `n` bankers left. */
  function Cum(left: seq<Member>, n: nat): int
    requires n <= |left|
  {
    if n == 0 then 0 else Cum(left, n - 1) + left[n - 1].weight
  }

  predicate Positive(left: seq<Member>) { forall i :: 0 <= i < |left| ==> left[i].weight > 0 }

  /** A point of the total weight falls in banker `i`'s share of it. */
  predicate Holds(left: seq<Member>, x: real, i: nat) {
    i < |left| && Cum(left, i) as real <= x < Cum(left, i + 1) as real
  }

  /** Where a draw of `u` falls in the total weight. */
  function Point(left: seq<Member>, u: real): real { ShareOf(u, Cum(left, |left|) as real) }

  /** A share `u` of a whole `t`. */
  function ShareOf(u: real, t: real): real { u * t }

  /** A draw of `u` falls on banker `i`. */
  predicate Lands(left: seq<Member>, u: real, i: nat) {
    Holds(left, Point(left, u), i)
  }

  lemma {:induction false} CumClimbs(left: seq<Member>, i: nat, j: nat)
    requires i <= j <= |left| && Positive(left)
    ensures Cum(left, i) <= Cum(left, j) && (i < j ==> Cum(left, i) < Cum(left, j))
  {
    if i < j { CumClimbs(left, i, j - 1); }
  }

  lemma ShareWithin(u: real, t: real)
    requires 0.0 <= u < 1.0 && t > 0.0
    ensures 0.0 <= ShareOf(u, t) < t
  {
    var rest := 1.0 - u;
    assert rest * t > 0.0;
    assert t - u * t == rest * t;
  }

  lemma PointWithin(left: seq<Member>, u: real)
    requires 0.0 <= u < 1.0 && Cum(left, |left|) > 0
    ensures 0.0 <= Point(left, u) < Cum(left, |left|) as real
  {
    var t := Cum(left, |left|) as real;
    ShareWithin(u, t);
    assert Point(left, u) == ShareOf(u, t);
  }

  lemma {:induction false} SomeHolds(left: seq<Member>, x: real, n: nat) returns (i: nat)
    requires n <= |left| && 0.0 <= x < Cum(left, n) as real
    ensures i < n && Holds(left, x, i)
  {
    if x < Cum(left, n - 1) as real { i := SomeHolds(left, x, n - 1); } else { i := n - 1; }
  }

  lemma OneHolds(left: seq<Member>, x: real, i: nat, j: nat)
    requires Positive(left) && Holds(left, x, i) && Holds(left, x, j)
    ensures i == j
  {
    if i < j { CumClimbs(left, i + 1, j); }
    if j < i { CumClimbs(left, j + 1, i); }
  }

  /** The shares tile the unit interval: every draw falls in exactly one. */
  lemma ExactlyOneLands(left: seq<Member>, u: real)
    requires left != [] && Positive(left) && 0.0 <= u < 1.0
    ensures exists i: nat :: Lands(left, u, i)
    ensures forall i: nat, j: nat :: Lands(left, u, i) && Lands(left, u, j) ==> i == j
  {
    CumClimbs(left, 0, |left|);
    PointWithin(left, u);
    var x := Point(left, u);
    var i := SomeHolds(left, x, |left|);
    assert Lands(left, u, i);
    forall i: nat, j: nat | Lands(left, u, i) && Lands(left, u, j) ensures i == j { OneHolds(left, x, i, j); }
  }

  /** The banker a draw falls on. */
  ghost function Drawn(left: seq<Member>, u: real): (i: nat)
    requires left != [] && Positive(left) && 0.0 <= u < 1.0
    ensures Lands(left, u, i)
  {
    ExactlyOneLands(left, u);
    var i: nat :| Lands(left, u, i);
    i
  }

  function Without(left: seq<Member>, i: nat): (r: seq<Member>)
    requires i < |left|
    ensures |r| == |left| - 1 && (Positive(left) ==> Positive(r))
  {
    left[..i] + left[i + 1..]
  }

  lemma WithoutKeeps(left: seq<Member>, i: nat)
    requires i < |left|
    ensures multiset(left) == multiset{left[i]} + multiset(Without(left, i))
  {
    assert left == left[..i] + [left[i]] + left[i + 1..];
  }

  /** The whole rotation: draw after draw among those left. */
  ghost function DrawOrder(left: seq<Member>, draws: Stream): seq<Member>
    requires Positive(left) && UnitStream(draws) && |left| <= |draws|
    decreases |left|
  {
    if left == [] then []
    else
      var i := Drawn(left, draws[0]);
      [left[i]] + DrawOrder(Without(left, i), draws[1..])
  }

  lemma {:induction false} DrawOrderKeeps(left: seq<Member>, draws: Stream)
    requires Positive(left) && UnitStream(draws) && |left| <= |draws|
    ensures multiset(DrawOrder(left, draws)) == multiset(left)
    decreases |left|
  {
    if left != [] {
      var i := Drawn(left, draws[0]);
      WithoutKeeps(left, i);
      DrawOrderKeeps(Without(left, i), draws[1..]);
    }
  }

  /** One draw, by taking the weights off until the number runs out; the last banker takes what is left. */
  method Draw(left: seq<Member>, u: real) returns (i: nat)
    requires left != [] && Positive(left) && 0.0 <= u < 1.0
    ensures i < |left| && i == Drawn(left, u)
  {
    var total := 0;
    for j := 0 to |left|
      invariant total == Cum(left, j)
    {
      total := total + left[j].weight;
    }
    CumClimbs(left, 0, |left|);
    PointWithin(left, u);
    var x := ShareOf(u, total as real);
    assert x == Point(left, u);
    i := Subtract(left, x);
    OneHolds(left, x, i, Drawn(left, u));
  }

  /** The inner loop. */
  method Subtract(left: seq<Member>, x: real) returns (i: nat)
    requires left != [] && 0.0 <= x < Cum(left, |left|) as real
    ensures Holds(left, x, i)
  {
    var r := x;
    i := 0;
    while i < |left| - 1
      invariant i <= |left| - 1 && r == x - Cum(left, i) as real && r >= 0.0
    {
      r := r - left[i].weight as real;
      if r < 0.0 { break; }
      i := i + 1;
    }
  }

  // ── Priority order ──────────────────────────────────────────────────────────────────────────

  function Today(today: map<string, nat>, code: string): nat { if code in today then today[code] else 0 }

  /** Lower priority first, then fewer orders today, then the code. */
  predicate Before(a: Member, b: Member, today: map<string, nat>, rank: Rank) {
    || a.priority < b.priority
    || (a.priority == b.priority
        && (Today(today, a.code) < Today(today, b.code)
            || (Today(today, a.code) == Today(today, b.code) && rank(a.code) < rank(b.code))))
  }

  predicate Sorted(ms: seq<Member>, today: map<string, nat>, rank: Rank) {
    forall i, j :: 0 <= i < j < |ms| ==> Before(ms[i], ms[j], today, rank)
  }

  /** A stable sort by Before. */
  function Insert(m: Member, ms: seq<Member>, today: map<string, nat>, rank: Rank): (r: seq<Member>)
    ensures multiset(r) == multiset{m} + multiset(ms)
  {
    if ms == [] || !Before(ms[0], m, today, rank) then [m] + ms
    else
      assert ms == [ms[0]] + ms[1..];
      [ms[0]] + Insert(m, ms[1..], today, rank)
  }

  function SortMembers(ms: seq<Member>, today: map<string, nat>, rank: Rank): (r: seq<Member>)
    ensures multiset(r) == multiset(ms)
  {
    if ms == [] then []
    else
      assert ms == [ms[0]] + ms[1..];
      Insert(ms[0], SortMembers(ms[1..], today, rank), today, rank)
  }

  lemma {:induction false} InsertSorted(m: Member, ms: seq<Member>, today: map<string, nat>, rank: Rank)
    requires TellsApart(rank) && Sorted(ms, today, rank) && !Has(ms, m.code)
    ensures Sorted(Insert(m, ms, today, rank), today, rank)
  {
    if ms != [] && Before(ms[0], m, today, rank) {
      assert forall i :: 0 <= i < |ms[1..]| ==> ms[1..][i] == ms[i + 1];
      InsertSorted(m, ms[1..], today, rank);
      var r := Insert(m, ms[1..], today, rank);
      forall i | 0 <= i < |r| ensures Before(ms[0], r[i], today, rank) {
        assert r[i] in multiset(r);
        assert r[i] == m || r[i] in ms[1..];
      }
    } else if ms != [] {
      assert ms[0].code != m.code;
      assert Before(m, ms[0], today, rank);
      forall i | 0 <= i < |ms|
        ensures Before(m, ms[i], today, rank) { assert i > 0 ==> Before(ms[0], ms[i], today, rank); }
    }
  }

  lemma {:induction false} SortIsSorted(ms: seq<Member>, today: map<string, nat>, rank: Rank)
    requires TellsApart(rank) && Distinct(ms)
    ensures Sorted(SortMembers(ms, today, rank), today, rank)
  {
    if ms != [] {
      assert forall i :: 0 <= i < |ms[1..]| ==> ms[1..][i] == ms[i + 1];
      SortIsSorted(ms[1..], today, rank);
      var rest := SortMembers(ms[1..], today, rank);
      forall i | 0 <= i < |rest| ensures rest[i].code != ms[0].code {
        assert rest[i] in multiset(rest);
        assert rest[i] in ms[1..];
      }
      InsertSorted(ms[0], rest, today, rank);
    }
  }

  /** What comes first among the same members is settled. */
  lemma SameFirst(a: seq<Member>, b: seq<Member>, today: map<string, nat>, rank: Rank)
    requires Sorted(a, today, rank) && Sorted(b, today, rank) && multiset(a) == multiset(b) && a != []
    ensures b != [] && a[0] == b[0]
  {
    assert a[0] in multiset(b);
    var i :| 0 <= i < |b| && b[i] == a[0];
    assert b[0] in multiset(a);
    var j :| 0 <= j < |a| && a[j] == b[0];
    assert i > 0 ==> Before(b[0], b[i], today, rank);
    assert j > 0 ==> Before(a[0], a[j], today, rank);
  }

  /** Only one list of the same members is sorted, so it does not matter how the sort works. */
  lemma {:induction false} SortedIsUnique(a: seq<Member>, b: seq<Member>, today: map<string, nat>, rank: Rank)
    requires Sorted(a, today, rank) && Sorted(b, today, rank) && multiset(a) == multiset(b)
    ensures a == b
  {
    if a != [] {
      SameFirst(a, b, today, rank);
      assert a == [a[0]] + a[1..] && b == [b[0]] + b[1..];
      assert multiset(a[1..]) == multiset(a) - multiset{a[0]} && multiset(b[1..]) == multiset(b) - multiset{b[0]};
      SortedIsUnique(a[1..], b[1..], today, rank);
    } else {
      assert |b| == |multiset(b)|;
    }
  }

  // ── The list the order is offered down ──────────────────────────────────────────────────────

  /** The pool holds the members that are eligible. */
  lemma {:induction false} PoolIs(ms: seq<Member>, pin: Option<string>, mode: Mode)
    ensures forall m :: m in Pool(ms, pin, mode) <==> m in ms && Eligible(m, pin, mode)
    ensures mode.Weighted? ==> Positive(Pool(ms, pin, mode))
    ensures |Pool(ms, pin, mode)| <= |ms|
    ensures Distinct(ms) ==> Distinct(Pool(ms, pin, mode))
  {
    if ms != [] {
      PoolIs(ms[1..], pin, mode);
      var rest := Pool(ms[1..], pin, mode);
      assert ms == [ms[0]] + ms[1..];
      if Distinct(ms) {
        forall i | 0 <= i < |rest| ensures rest[i].code != ms[0].code {
          assert rest[i] in ms[1..];
        }
        assert forall i, j :: 0 <= i < j < |ms[1..]| ==> ms[1..][i] == ms[i + 1] && ms[1..][j] == ms[j + 1];
      }
    }
  }

  function PinPart(pin: Option<string>): seq<Candidate> {
    if pin.Some? then [Candidate(pin.value, ByPin)] else []
  }

  /** The bankers after the pin, in the order they are tried. */
  ghost function Rotation(members: seq<Member>, s: Settings, pin: Option<string>, draws: Stream,
      today: map<string, nat>, rank: Rank): seq<Member>
    requires UnitStream(draws) && |members| <= |draws|
  {
    var pool := Pool(members, pin, s.mode);
    PoolIs(members, pin, s.mode);
    if s.mode.Weighted? then DrawOrder(pool, draws) else SortMembers(pool, today, rank)
  }

  /** One draw moves the first banker of what is to come to the end of what is listed. */
  lemma DrawStep(out: seq<Candidate>, left: seq<Member>, draws: Stream, i: nat)
    requires Positive(left) && UnitStream(draws) && left != [] && |left| <= |draws| && i == Drawn(left, draws[0])
    ensures out + Tagged(DrawOrder(left, draws), ByWeight)
            == out + [Candidate(left[i].code, ByWeight)] + Tagged(DrawOrder(Without(left, i), draws[1..]), ByWeight)
  {
    var rest := DrawOrder(Without(left, i), draws[1..]);
    assert DrawOrder(left, draws) == [left[i]] + rest;
    TaggedStep(left[i], rest, ByWeight);
    Regroup(out, [Candidate(left[i].code, ByWeight)], Tagged(rest, ByWeight));
  }

  lemma Regroup(a: seq<Candidate>, b: seq<Candidate>, c: seq<Candidate>)
    ensures a + (b + c) == a + b + c
  {
  }

  lemma TaggedStep(m: Member, rest: seq<Member>, how: How)
    ensures Tagged([m] + rest, how) == [Candidate(m.code, how)] + Tagged(rest, how)
  {
  }

  /** The WEIGHTED loop: draw a banker, take it out of those left, until none is. */
  method DrawAll(pool: seq<Member>, draws: Stream, before: seq<Candidate>) returns (out: seq<Candidate>)
    requires Positive(pool) && UnitStream(draws) && |pool| <= |draws|
    ensures out == before + Tagged(DrawOrder(pool, draws), ByWeight)
  {
    var left, k := pool, 0;
    out := before;
    assert draws[0..] == draws;
    while left != []
      invariant Positive(left) && k + |left| <= |draws|
      invariant out + Tagged(DrawOrder(left, draws[k..]), ByWeight) == before + Tagged(DrawOrder(pool, draws), ByWeight)
      decreases |left|
    {
      var i := Draw(left, draws[k]);
      DrawStep(out, left, draws[k..], i);
      assert draws[k..][1..] == draws[k + 1..];
      out := out + [Candidate(left[i].code, ByWeight)];
      left, k := Without(left, i), k + 1;
    }
  }

  /** bankerOrder. */
  method BankerOrder(members: seq<Member>, s: Settings, now: int, draws: Stream, today: map<string, nat>, rank: Rank)
    returns (out: seq<Candidate>)
    requires UnitStream(draws) && |members| <= |draws|
    ensures var pin := ActivePin(members, s, now);
            out == PinPart(pin) + Tagged(Rotation(members, s, pin, draws, today, rank), if s.mode.Weighted? then ByWeight else ByPriority)
  {
    var pin := ActivePin(members, s, now);
    out := PinPart(pin);
    var pool := Pool(members, pin, s.mode);
    PoolIs(members, pin, s.mode);
    if s.mode.Weighted? {
      out := DrawAll(pool, draws, out);
    } else {
      out := out + Tagged(SortMembers(pool, today, rank), ByPriority);
    }
  }

  predicate Lists(out: seq<Candidate>, code: string) { exists i :: 0 <= i < |out| && out[i].banker == code }

  /** The list bankerOrder returns. */
  ghost function Offered(members: seq<Member>, s: Settings, now: int, draws: Stream, today: map<string, nat>,
      rank: Rank): seq<Candidate>
    requires UnitStream(draws) && |members| <= |draws|
  {
    var pin := ActivePin(members, s, now);
    PinPart(pin) + Tagged(Rotation(members, s, pin, draws, today, rank), if s.mode.Weighted? then ByWeight else ByPriority)
  }

  /** Whatever the numbers drawn, the rotation holds the eligible members, each as often as it was given. */
  lemma RotationIsPool(members: seq<Member>, s: Settings, pin: Option<string>, draws: Stream, today: map<string, nat>,
      rank: Rank)
    requires UnitStream(draws) && |members| <= |draws|
    ensures var r := Rotation(members, s, pin, draws, today, rank);
            && multiset(r) == multiset(Pool(members, pin, s.mode))
            && (forall m :: m in r <==> m in members && Eligible(m, pin, s.mode))
            && (Distinct(members) ==> Distinct(r))
  {
    var r, pool := Rotation(members, s, pin, draws, today, rank), Pool(members, pin, s.mode);
    PoolIs(members, pin, s.mode);
    if s.mode.Weighted? { DrawOrderKeeps(pool, draws); }
    assert multiset(r) == multiset(pool);
    forall m ensures m in r <==> m in pool {
      assert m in r <==> m in multiset(r);
      assert m in pool <==> m in multiset(pool);
    }
    if Distinct(members) { SameMembersDistinct(pool, r); }
  }

  lemma SameCodeSameMember(a: seq<Member>, x: Member, y: Member)
    requires Distinct(a) && x in a && y in a
    ensures x.code == y.code ==> x == y
    ensures multiset(a)[x] == 1
  {
    var p :| 0 <= p < |a| && a[p] == x;
    assert a == a[..p] + [a[p]] + a[p + 1..];
    assert a[p] !in a[..p] && a[p] !in a[p + 1..];
  }

  lemma CountedTwice(b: seq<Member>, i: nat, j: nat)
    requires i < j < |b| && b[i] == b[j]
    ensures multiset(b)[b[i]] >= 2
  {
    assert b == b[..i] + [b[i]] + b[i + 1..j] + [b[j]] + b[j + 1..];
  }

  /** Rearranging distinct members keeps them distinct. */
  lemma SameMembersDistinct(a: seq<Member>, b: seq<Member>)
    requires Distinct(a) && multiset(a) == multiset(b)
    ensures Distinct(b)
  {
    forall i, j | 0 <= i < j < |b| ensures b[i].code != b[j].code {
      assert b[i] in multiset(a) && b[j] in multiset(a);
      SameCodeSameMember(a, b[i], b[j]);
      if b[i] == b[j] { CountedTwice(b, i, j); }
    }
  }

  /** A live pin comes first, even out of rotation; nobody is listed twice. */
  lemma PinFirstNobodyTwice(members: seq<Member>, s: Settings, now: int, draws: Stream, today: map<string, nat>,
      rank: Rank)
    requires UnitStream(draws) && |members| <= |draws| && Distinct(members)
    ensures var out, pin := Offered(members, s, now, draws, today, rank), ActivePin(members, s, now);
            && (forall i, j :: 0 <= i < j < |out| ==> out[i].banker != out[j].banker)
            && (forall i :: 0 <= i < |out| ==> (out[i].how.ByPin? <==> (i == 0 && pin.Some?)))
            && (pin.Some? ==> |out| > 0 && out[0].banker == pin.value)
  {
    var pin := ActivePin(members, s, now);
    var r := Rotation(members, s, pin, draws, today, rank);
    RotationIsPool(members, s, pin, draws, today, rank);
    forall k | 0 <= k < |r| ensures pin != Some(r[k].code) { assert r[k] in r; }
  }

  lemma ListsPinAndRotation(pin: Option<string>, r: seq<Member>, how: How, c: string)
    ensures Lists(PinPart(pin) + Tagged(r, how), c) <==> pin == Some(c) || Has(r, c)
  {
    var out, n := PinPart(pin) + Tagged(r, how), |PinPart(pin)|;
    if i :| 0 <= i < |out| && out[i].banker == c {
      assert i >= n ==> out[i].banker == r[i - n].code;
    }
    if pin == Some(c) { assert out[0].banker == c; }
    if k :| 0 <= k < |r| && r[k].code == c { assert out[n + k].banker == c; }
  }

  /** The live pin and every eligible banker are listed, and no other. */
  lemma ListsExactlyPinAndEligible(members: seq<Member>, s: Settings, now: int, draws: Stream, today: map<string, nat>,
      rank: Rank, c: string)
    requires UnitStream(draws) && |members| <= |draws|
    ensures var pin := ActivePin(members, s, now);
            Lists(Offered(members, s, now, draws, today, rank), c)
            <==> (pin == Some(c) || exists m :: m in members && m.code == c && Eligible(m, pin, s.mode))
  {
    var pin := ActivePin(members, s, now);
    var r := Rotation(members, s, pin, draws, today, rank);
    RotationIsPool(members, s, pin, draws, today, rank);
    ListsPinAndRotation(pin, r, if s.mode.Weighted? then ByWeight else ByPriority, c);
    if Has(r, c) {
      var k :| 0 <= k < |r| && r[k].code == c;
      assert r[k] in members && Eligible(r[k], pin, s.mode);
    }
    if m :| m in members && m.code == c && Eligible(m, pin, s.mode) {
      assert m in r;
      var k :| 0 <= k < |r| && r[k] == m;
    }
  }

  /** In PRIORITY mode the rotation is the one sorted list of the eligible bankers. */
  lemma PriorityIsSorted(members: seq<Member>, s: Settings, pin: Option<string>, draws: Stream,
      today: map<string, nat>, rank: Rank, r: seq<Member>)
    requires UnitStream(draws) && |members| <= |draws| && Distinct(members) && TellsApart(rank) && s.mode.Priority?
    requires multiset(r) == multiset(Pool(members, pin, s.mode))
    ensures Sorted(r, today, rank) <==> r == Rotation(members, s, pin, draws, today, rank)
  {
    PoolIs(members, pin, s.mode);
    SortIsSorted(Pool(members, pin, s.mode), today, rank);
    if Sorted(r, today, rank) {
      SortedIsUnique(r, SortMembers(Pool(members, pin, s.mode), today, rank), today, rank);
    }
  }

  // ── The list in terms of the members and the settings alone ─────────────────────────────────

  /** Switched to by hand, still one of the merchant's bankers, and not past its end. */
  ghost predicate PinnedNow(members: seq<Member>, s: Settings, now: int, c: string) {
    && s.pinnedBanker == Some(c) && c != "" && (exists m :: m in members && m.code == c)
    && (s.pinnedUntil.Some? ==> now < s.pinnedUntil.value)
  }

  lemma PinIs(members: seq<Member>, s: Settings, now: int, c: string)
    ensures ActivePin(members, s, now) == Some(c) <==> PinnedNow(members, s, now, c)
  {
    if m :| m in members && m.code == c {
      var i :| 0 <= i < |members| && members[i] == m;
      assert Has(members, c);
    }
    if Has(members, c) {
      var i :| 0 <= i < |members| && members[i].code == c;
      assert members[i] in members;
    }
  }

  /**
   A banker is offered the order exactly when it is pinned, or is in rotation, and of positive weight where weights
   count.
   */
  lemma OfferedExactly(members: seq<Member>, s: Settings, now: int, draws: Stream, today: map<string, nat>,
      rank: Rank, c: string)
    requires UnitStream(draws) && |members| <= |draws|
    ensures Lists(Offered(members, s, now, draws, today, rank), c) <==>
              PinnedNow(members, s, now, c)
              || exists m :: m in members && m.code == c && m.inRotation && (s.mode == Weighted ==> m.weight > 0)
  {
    PinIs(members, s, now, c);
    ListsExactlyPinAndEligible(members, s, now, draws, today, rank, c);
    if m :| m in members && m.code == c && m.inRotation && (s.mode == Weighted ==> m.weight > 0) {
      assert ActivePin(members, s, now) != Some(c) ==> Eligible(m, ActivePin(members, s, now), s.mode);
    }
  }

  /** Lower priority, then fewer orders today, then the earlier code. */
  ghost predicate Precedes(a: Member, b: Member, today: map<string, nat>, rank: Rank) {
    var m, n := if a.code in today then today[a.code] else 0, if b.code in today then today[b.code] else 0;
    if a.priority != b.priority then a.priority < b.priority
    else if m != n then m < n
    else rank(a.code) < rank(b.code)
  }

  /** One of the members comes before another in that order. */
  ghost predicate InOrder(members: seq<Member>, c: string, d: string, today: map<string, nat>, rank: Rank) {
    exists a, b :: a in members && b in members && a.code == c && b.code == d && Precedes(a, b, today, rank)
  }

  lemma RotationInOrder(members: seq<Member>, s: Settings, pin: Option<string>, draws: Stream, today: map<string, nat>,
      rank: Rank, i: nat, j: nat)
    requires UnitStream(draws) && |members| <= |draws| && Distinct(members) && TellsApart(rank) && s.mode == Priority
    requires i < j < |Rotation(members, s, pin, draws, today, rank)|
    ensures var r := Rotation(members, s, pin, draws, today, rank);
            InOrder(members, r[i].code, r[j].code, today, rank)
  {
    var r := Rotation(members, s, pin, draws, today, rank);
    RotationIsPool(members, s, pin, draws, today, rank);
    PriorityIsSorted(members, s, pin, draws, today, rank, r);
    assert r[i] in r && r[j] in r && Before(r[i], r[j], today, rank);
    assert Precedes(r[i], r[j], today, rank);
  }

  /** Whoever comes after the pin keeps the rotation's order. */
  lemma PartsInOrder(members: seq<Member>, pin: Option<string>, r: seq<Member>, today: map<string, nat>, rank: Rank,
      i: nat, j: nat)
    requires i < j < |PinPart(pin) + Tagged(r, ByPriority)|
    requires forall x: nat, y: nat :: x < y < |r| ==> InOrder(members, r[x].code, r[y].code, today, rank)
    ensures var out := PinPart(pin) + Tagged(r, ByPriority);
            if out[i].how == ByPin then i == 0 && pin == Some(out[0].banker)
            else InOrder(members, out[i].banker, out[j].banker, today, rank)
  {
    var n := |PinPart(pin)|;
    if i >= n { assert InOrder(members, r[i - n].code, r[j - n].code, today, rank); }
  }

  /** In PRIORITY mode whoever is offered the order later, neither being pinned, comes after in that order. */
  lemma OfferedInOrder(members: seq<Member>, s: Settings, now: int, draws: Stream, today: map<string, nat>, rank: Rank,
      i: nat, j: nat)
    requires UnitStream(draws) && |members| <= |draws| && Distinct(members) && TellsApart(rank) && s.mode == Priority
    requires i < j < |Offered(members, s, now, draws, today, rank)|
    ensures var out := Offered(members, s, now, draws, today, rank);
            if out[i].how == ByPin then i == 0 && PinnedNow(members, s, now, out[0].banker)
            else InOrder(members, out[i].banker, out[j].banker, today, rank)
  {
    var out, pin := Offered(members, s, now, draws, today, rank), ActivePin(members, s, now);
    var r := Rotation(members, s, pin, draws, today, rank);
    forall x: nat, y: nat | x < y < |r| ensures InOrder(members, r[x].code, r[y].code, today, rank) {
      RotationInOrder(members, s, pin, draws, today, rank, x, y);
    }
    PartsInOrder(members, pin, r, today, rank, i, j);
    PinIs(members, s, now, out[0].banker);
  }

  /** The weights of the bankers before this one. */
  function WeightBefore(left: seq<Member>, i: nat): int
    requires i <= |left|
  {
    if i == 0 then 0 else left[0].weight + WeightBefore(left[1..], i - 1)
  }

  lemma {:induction false} CumIsWeightBefore(left: seq<Member>, i: nat)
    requires i <= |left|
    ensures Cum(left, i) == WeightBefore(left, i)
    decreases i
  {
    if i > 0 {
      CumIsWeightBefore(left, i - 1);
      WeightBeforeStep(left, i - 1);
    }
  }

  lemma {:induction false} WeightBeforeStep(left: seq<Member>, i: nat)
    requires i < |left|
    ensures WeightBefore(left, i + 1) == WeightBefore(left, i) + left[i].weight
    decreases i
  {
    if i > 0 { WeightBeforeStep(left[1..], i - 1); }
  }

  lemma LandsExactly(left: seq<Member>, u: real, i: nat, x: real)
    requires i < |left| && x == ShareOf(u, WeightBefore(left, |left|) as real)
    ensures Lands(left, u, i) <==> WeightBefore(left, i) as real <= x < WeightBefore(left, i + 1) as real
  {
    CumIsWeightBefore(left, i);
    CumIsWeightBefore(left, i + 1);
    CumIsWeightBefore(left, |left|);
    assert Point(left, u) == x;
  }

  lemma ShareIsProduct(u: real, t: real)
    ensures ShareOf(u, t) == u * t
  {
  }

  /** A draw falls on the banker in whose weight the number's share of all the weight falls. */
  lemma DrawnExactly(left: seq<Member>, u: real, i: nat, all: real, x: real)
    requires left != [] && Positive(left) && 0.0 <= u < 1.0 && i < |left|
    requires all == WeightBefore(left, |left|) as real && x == u * all
    ensures Drawn(left, u) == i <==> WeightBefore(left, i) as real <= x < WeightBefore(left, i + 1) as real
  {
    ShareIsProduct(u, all);
    LandsExactly(left, u, i, x);
    OnlyOneLands(left, u, i, Drawn(left, u));
  }

  lemma OnlyOneLands(left: seq<Member>, u: real, i: nat, j: nat)
    requires Positive(left) && Lands(left, u, j)
    ensures Lands(left, u, i) <==> i == j
  {
    if Lands(left, u, i) { OneHolds(left, Point(left, u), i, j); }
  }

  // ── Every rotation can come up ──────────────────────────────────────────────────────────────

  /** A number that falls on banker `i`. */
  function Aim(left: seq<Member>, i: nat): real
    requires i < |left| && Cum(left, |left|) > 0
  {
    Cum(left, i) as real / Cum(left, |left|) as real
  }

  lemma Fraction(a: int, t: int)
    requires 0 <= a < t
    ensures 0.0 <= a as real / t as real < 1.0 && ShareOf(a as real / t as real, t as real) == a as real
  {
  }

  lemma AimLands(left: seq<Member>, i: nat)
    requires i < |left| && Positive(left)
    ensures Cum(left, |left|) > 0 && 0.0 <= Aim(left, i) < 1.0 && Lands(left, Aim(left, i), i)
  {
    CumClimbs(left, 0, i);
    CumClimbs(left, i, |left|);
    Fraction(Cum(left, i), Cum(left, |left|));
    assert Point(left, Aim(left, i)) == ShareOf(Aim(left, i), Cum(left, |left|) as real) == Cum(left, i) as real;
    assert Holds(left, Cum(left, i) as real, i);
  }

  lemma AimDraws(left: seq<Member>, i: nat)
    requires i < |left| && Positive(left)
    ensures Cum(left, |left|) > 0 && 0.0 <= Aim(left, i) < 1.0 && Drawn(left, Aim(left, i)) == i
  {
    AimLands(left, i);
    OneHolds(left, Point(left, Aim(left, i)), i, Drawn(left, Aim(left, i)));
  }

  /** Aiming the first number at banker `i` puts it first. */
  lemma AimFirst(left: seq<Member>, i: nat, ys: Stream)
    requires i < |left| && Positive(left) && UnitStream(ys) && |ys| == |left| - 1
    ensures Cum(left, |left|) > 0 && UnitStream([Aim(left, i)] + ys)
    ensures DrawOrder(left, [Aim(left, i)] + ys) == [left[i]] + DrawOrder(Without(left, i), ys)
  {
    AimDraws(left, i);
    var xs := [Aim(left, i)] + ys;
    assert xs[0] == Aim(left, i) && xs[1..] == ys;
  }

  /** The numbers that make a given rotation come up. */
  lemma {:induction false} SomeDrawsGive(left: seq<Member>, order: seq<Member>) returns (xs: Stream)
    requires Positive(left) && multiset(order) == multiset(left)
    ensures UnitStream(xs) && |xs| == |left| && DrawOrder(left, xs) == order
    decreases |order|
  {
    if order == [] {
      assert |left| == |multiset(left)| == 0;
      xs := [];
    } else {
      assert order[0] in multiset(left);
      var i :| 0 <= i < |left| && left[i] == order[0];
      WithoutKeeps(left, i);
      assert order == [order[0]] + order[1..];
      assert multiset(order[1..]) == multiset(order) - multiset{order[0]};
      var ys := SomeDrawsGive(Without(left, i), order[1..]);
      AimFirst(left, i, ys);
      xs := [Aim(left, i)] + ys;
    }
  }

  /** Weights tilt the draw but rule nothing out: each order of the eligible bankers comes up for some numbers. */
  lemma EveryRotationCanComeUp(members: seq<Member>, s: Settings, pin: Option<string>, order: seq<Member>,
      today: map<string, nat>, rank: Rank)
    returns (draws: Stream)
    requires s.mode.Weighted? && multiset(order) == multiset(Pool(members, pin, s.mode))
    ensures UnitStream(draws) && |draws| == |members| && Rotation(members, s, pin, draws, today, rank) == order
  {
    PoolIs(members, pin, s.mode);
    var pool := Pool(members, pin, s.mode);
    var xs := SomeDrawsGive(pool, order);
    draws := xs + seq(|members| - |pool|, _ => 0.0);
    OnlyNeededDraws(pool, xs, draws);
  }

  /** Numbers past the last draw change nothing. */
  lemma {:induction false} OnlyNeededDraws(left: seq<Member>, xs: Stream, draws: Stream)
    requires Positive(left) && UnitStream(xs) && UnitStream(draws) && |xs| == |left| <= |draws| && xs == draws[..|left|]
    ensures DrawOrder(left, draws) == DrawOrder(left, xs)
    decreases |left|
  {
    if left != [] {
      assert xs[0] == draws[0] && xs[1..] == draws[1..][..|left| - 1];
      OnlyNeededDraws(Without(left, Drawn(left, xs[0])), xs[1..], draws[1..]);
    }
  }
}
