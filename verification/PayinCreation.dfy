/**
 Creating Katana pay-in orders (apps/admin-dashboard/src/lib/katana-order.ts, lines 184-275, 363-370
 and 629-700). Between any two statements of a call the other callers may insert any orders
 (`Others`), so what a call ensures holds in every interleaving. What each attempt on a banker meets
 (blocks, limits, accounts, the gateway) is an arbitrary input.
 */
module PayinCreation {
  import opened Options

  /** An order row. `caller` is the call that inserted it. */
  datatype Row = Row(owner: Option<string>, signedBy: Option<string>, livemode: bool, txn: string, caller: nat)
  {
    /** vendor_payin_orders_signer_mode_order_uk (vendorGateway 0042). */
    function SignerKey(): (string, bool, string) { (Coalesce(signedBy, owner), livemode, txn) }
    /** vendor_payin_orders_merchant_mode_order_uk (vendorGateway 0026). */
    function OwnerKey(): (string, bool, string) { (Coalesce(owner, None), livemode, txn) }
  }

  ghost predicate KeysUnique(rows: seq<Row>) {
    forall i, j :: 0 <= i < j < |rows| ==>
          rows[i].SignerKey() != rows[j].SignerKey() && rows[i].OwnerKey() != rows[j].OwnerKey()
  }

  /** Why a banker refuses: passOver sends the order to the next banker, mid to the banker's next account. */
  datatype Refusal = Refusal(passOver: bool, mid: bool)

  /**
   What an attempt meets. `early` are the checks before the replay look-up (blocked, suspended, not live,
   no flow), `late` those after it (limits, accounts, the gateway); `another`: after a failure of one
   account another can take the order.
   */
  datatype Attempt = Attempt(early: Option<bool>, late: Option<Refusal>, another: bool)

  type Tries = nat -> Attempt

  /**
   The attempt that decided a call on one banker: every one before failed on an account with another to go to and
   fewer than five excluded, and this one made the order, found it, or failed with nowhere left to go.
   */
  ghost predicate DecidedBy(t: Tries, excluded: nat, n: nat, r: Result) {
    && (forall k: nat :: k < n ==> MovesOn(t(k)) && excluded + k < 5)
    && match r
       case Order(_, true) => t(n).early.None?
       case Order(_, false) => t(n).early.None? && t(n).late.None?
       case Error(TxnidInUse) => t(n).early.None? && t(n).late.None?
       case Error(Refused(why)) =>
         if t(n).early.Some? then why == Refusal(t(n).early.value, false)
         else t(n).late == Some(why) && !(MovesOn(t(n)) && excluded + n < 5)
  }

  /** The account failed and another can take the order. */
  predicate MovesOn(a: Attempt) { a.early.None? && a.late.Some? && a.late.value.mid && a.another }

  /** The banker's first attempt meets nothing against it. */
  predicate Clear(t: Tries) { t(0).early.None? && t(0).late.None? }

  datatype Failure = Refused(why: Refusal) | TxnidInUse
  {
    predicate PassOver() { TxnidInUse? || why.passOver }
    predicate NextMid() { Refused? && why.mid }
  }

  datatype Result = Order(at: nat, reused: bool) | Error(failure: Failure)

  /** A successful result is an order of the caller's own signing key, txnid and mode. */
  ghost predicate Answers(rows: seq<Row>, r: Result, key: (string, bool, string)) {
    r.Order? ==> r.at < |rows| && rows[r.at].SignerKey() == key
  }

  /** The one row a call adds to those there before is the one it answers as new. */
  ghost predicate OwnInsert(before: seq<Row>, rows: seq<Row>, me: nat, r: Result) {
    && (forall k :: |before| <= k < |rows| && rows[k].caller == me ==> r == Order(k, false))
    && (r.Order? && !r.reused ==> |before| <= r.at < |rows| && rows[r.at].caller == me)
  }

  ghost predicate HasKey(rows: seq<Row>, key: (string, bool, string)) {
    exists k :: 0 <= k < |rows| && rows[k].SignerKey() == key
  }

  /** The banker already has this txnid on an order another Key signed. */
  ghost predicate TakenByAnotherKey(rows: seq<Row>, row: Row) {
    exists k :: 0 <= k < |rows| && rows[k].OwnerKey() == row.OwnerKey() && rows[k].SignerKey() != row.SignerKey()
  }

  lemma TakenStays(earlier: seq<Row>, later: seq<Row>, row: Row)
    requires earlier <= later && TakenByAnotherKey(earlier, row)
    ensures TakenByAnotherKey(later, row)
  {
    var k :| 0 <= k < |earlier| && earlier[k].OwnerKey() == row.OwnerKey() && earlier[k].SignerKey() != row.SignerKey();
    assert later[k] == earlier[k];
  }

  /** The row a banker of the switch would insert. */
  function RowFor(c: string, signer: string, livemode: bool, txn: string, me: nat): Row {
    Row(Some(c), if c == signer then None else Some(signer), livemode, txn, me)
  }

  predicate HasNoKey(c: string, signer: string, withKey: set<string>) { c != signer && c !in withKey }

  /** The switch had a reason to go past this banker. */
  ghost predicate PassedOver(rows: seq<Row>, row: Row, c: string, signer: string, withKey: set<string>, t: Tries) {
    HasNoKey(c, signer, withKey) || !Clear(t) || TakenByAnotherKey(rows, row)
  }

  /** What a call through the switch is asked: its bankers in order, those with a Key, and what each attempt meets. */
  datatype Ask = Ask(me: nat, txn: string, signer: string, livemode: bool, order: seq<string>, withKey: set<string>,
      tries: string -> Tries)
  {
    function Key(): (string, bool, string) { (signer, livemode, txn) }
    /** The row a banker would insert. */
    function For(c: string): Row { RowFor(c, signer, livemode, txn, me) }
    predicate Keyed(c: string) { !HasNoKey(c, signer, withKey) }
  }

  /** The first `n` bankers were passed over. */
  ghost predicate PassedTo(rows: seq<Row>, q: Ask, n: nat)
    requires n <= |q.order|
  {
    forall j | 0 <= j < n :: PassedOver(rows, q.For(q.order[j]), q.order[j], q.signer, q.withKey, q.tries(q.order[j]))
  }

  /** None of the first `n` bankers has a Key. */
  ghost predicate Unkeyed(q: Ask, n: nat)
    requires n <= |q.order|
  {
    forall j | 0 <= j < n :: !q.Keyed(q.order[j])
  }

  /** The txnid is on another key's order at the signer or at a banker of the switch. */
  ghost predicate TakenBySome(rows: seq<Row>, q: Ask) {
    exists c :: (c == q.signer || c in q.order) && TakenByAnotherKey(rows, q.For(c))
  }

  lemma PassedStays(earlier: seq<Row>, later: seq<Row>, q: Ask, n: nat)
    requires earlier <= later && n <= |q.order| && PassedTo(earlier, q, n)
    ensures PassedTo(later, q, n)
  {
    forall j | 0 <= j < n
      ensures PassedOver(later, q.For(q.order[j]), q.order[j], q.signer, q.withKey, q.tries(q.order[j]))
    {
      if TakenByAnotherKey(earlier, q.For(q.order[j])) { TakenStays(earlier, later, q.For(q.order[j])); }
    }
  }

  /** One of the first `n` bankers is the first with a Key, and this is how its attempts ended. */
  ghost predicate FirstFailed(q: Ask, excluded: nat, n: nat, why: Failure)
    requires n <= |q.order|
  {
    exists i: nat, k: nat :: i < n && q.Keyed(q.order[i]) && Unkeyed(q, i)
                             && DecidedBy(q.tries(q.order[i]), excluded, k, Error(why))
  }

  /** What the loop remembers: how the first banker with a Key failed, if any so far has one. */
  ghost predicate FirstFits(rows: seq<Row>, q: Ask, excluded: nat, n: nat, first: Option<Failure>)
    requires n <= |q.order|
  {
    && (first.None? <==> Unkeyed(q, n))
    && (first.Some? ==> first.value.PassOver() && FirstFailed(q, excluded, n, first.value))
    && (first == Some(TxnidInUse) ==> TakenBySome(rows, q))
  }

  lemma UnkeyedPassed(rows: seq<Row>, q: Ask, excluded: nat, n: nat, first: Option<Failure>)
    requires n < |q.order| && PassedTo(rows, q, n) && FirstFits(rows, q, excluded, n, first) && !q.Keyed(q.order[n])
    ensures PassedTo(rows, q, n + 1) && FirstFits(rows, q, excluded, n + 1, first)
  {
  }

  /** A banker that could not take the order is passed over, and its failure kept when it is the first. */
  lemma FailurePassed(before: seq<Row>, rows: seq<Row>, q: Ask, excluded: nat, n: nat, first: Option<Failure>,
      why: Failure, k: nat)
    requires n < |q.order| && before <= rows && PassedTo(rows, q, n) && FirstFits(before, q, excluded, n, first)
    requires q.Keyed(q.order[n]) && why.PassOver() && (why == TxnidInUse ==> TakenBySome(rows, q))
    requires Clear(q.tries(q.order[n])) ==> TakenByAnotherKey(rows, q.For(q.order[n]))
    requires DecidedBy(q.tries(q.order[n]), excluded, k, Error(why))
    ensures PassedTo(rows, q, n + 1)
    ensures FirstFits(rows, q, excluded, n + 1, if first.None? then Some(why) else first)
  {
    if first == Some(TxnidInUse) { TakenBySomeStays(before, rows, q); }
  }

  lemma TakenBySomeStays(earlier: seq<Row>, later: seq<Row>, q: Ask)
    requires earlier <= later && TakenBySome(earlier, q)
    ensures TakenBySome(later, q)
  {
    var c :| (c == q.signer || c in q.order) && TakenByAnotherKey(earlier, q.For(c));
    TakenStays(earlier, later, q.For(c));
  }

  /** The order went to the first banker not passed over; or, nobody having a Key, to the signer. */
  ghost predicate TakenInTurn(rows: seq<Row>, q: Ask, at: nat)
    requires at < |rows|
  {
    || (exists i :: 0 <= i < |q.order| && rows[at] == q.For(q.order[i]) && q.Keyed(q.order[i]) && PassedTo(rows, q, i))
    || (rows[at] == q.For(q.signer) && Unkeyed(q, |q.order|))
  }

  /** A banker in its turn failed for good; or, nobody having a Key, the signer did. */
  ghost predicate FailedInTurn(rows: seq<Row>, q: Ask) {
    || (exists i :: 0 <= i < |q.order| && q.Keyed(q.order[i]) && !Clear(q.tries(q.order[i])) && PassedTo(rows, q, i))
    || (!Clear(q.tries(q.signer)) && Unkeyed(q, |q.order|))
  }

  /**
   Nobody else holds either key of the row: no row there was before holds one, nor any that another caller
   inserted meanwhile.
   */
  ghost predicate FreeForMe(before: seq<Row>, rows: seq<Row>, row: Row) {
    forall k :: 0 <= k < |rows| && (k < |before| || rows[k].caller != row.caller) ==>
      rows[k].SignerKey() != row.SignerKey() && rows[k].OwnerKey() != row.OwnerKey()
  }

  /** The banker the switch offers the order first: the first with a Key, or else the signer. */
  ghost predicate OfferedFirst(q: Ask, c: string) {
    || (exists i :: 0 <= i < |q.order| && c == q.order[i] && q.Keyed(c) && Unkeyed(q, i))
    || (c == q.signer && Unkeyed(q, |q.order|))
  }

  class PayinTable {
    var rows: seq<Row>

    ghost predicate Valid()
      reads this
    {
      KeysUnique(rows)
    }

    constructor ()
      ensures Valid() && rows == []
    {
      rows := [];
    }

    /** INSERT … ON CONFLICT DO NOTHING RETURNING. */
    method Insert(row: Row) returns (at: Option<nat>)
      requires Valid()
      modifies this
      ensures Valid()
      ensures at.Some? ==> at.value == |old(rows)| && rows == old(rows) + [row]
      ensures at.None? ==> rows == old(rows)
                           && exists k :: 0 <= k < |rows| && (rows[k].SignerKey() == row.SignerKey() || rows[k].OwnerKey() == row.OwnerKey())
    {
      if exists k :: 0 <= k < |rows| && (rows[k].SignerKey() == row.SignerKey() || rows[k].OwnerKey() == row.OwnerKey()) {
        return None;
      }
      rows := rows + [row];
      return Some(|rows| - 1);
    }

    /** Any inserts by other callers, in any number. */
    method Others(me: nat)
      requires Valid()
      modifies this
      ensures Valid() && old(rows) <= rows
      ensures forall k :: |old(rows)| <= k < |rows| ==> rows[k].caller != me
    {
      var n: nat :| true;
      while n > 0
        invariant Valid() && old(rows) <= rows
        invariant forall k :: |old(rows)| <= k < |rows| ==> rows[k].caller != me
      {
        var row: Row := *;
        if row.caller != me { var _ := Insert(row); }
        n := n - 1;
      }
    }

    /** readExistingOrder: the order found by the Key that signed it. */
    method ReadExisting(txn: string, signer: Option<string>, livemode: bool) returns (at: Option<nat>)
      ensures at.Some? ==> at.value < |rows| && rows[at.value].SignerKey() == (Coalesce(signer, None), livemode, txn)
      ensures at.None? ==> forall k :: 0 <= k < |rows| ==>
                rows[k].SignerKey() != (Coalesce(signer, None), livemode, txn)
    {
      if k :| 0 <= k < |rows| && rows[k].SignerKey() == (Coalesce(signer, None), livemode, txn) {
        return Some(k);
      }
      return None;
    }

    /** One attempt on one banker (createKatanaOrderOnce). A replay is answered before limits and accounts. */
    method CreateOnce(me: nat, txn: string, owner: Option<string>, signedBy: Option<string>, livemode: bool,
        a: Attempt) returns (r: Result)
      requires Valid()
      modifies this
      ensures Valid() && old(rows) <= rows
      ensures Answers(rows, r, Row(owner, signedBy, livemode, txn, me).SignerKey())
      ensures OwnInsert(old(rows), rows, me, r)
      ensures r.Order? && !r.reused ==> rows[r.at] == Row(owner, signedBy, livemode, txn, me)
      ensures a.early.Some? ==> r == Error(Refused(Refusal(a.early.value, false)))
      ensures a.early.None? && HasKey(old(rows), Row(owner, signedBy, livemode, txn, me).SignerKey()) ==>
                r.Order? && r.reused
      ensures r.Error? && a.early.None? ==>
                r == Error(TxnidInUse) || (a.late.Some? && r == Error(Refused(a.late.value)))
      ensures r == Error(TxnidInUse) ==> TakenByAnotherKey(rows, Row(owner, signedBy, livemode, txn, me))
      ensures (r.Order? && !r.reused) || r == Error(TxnidInUse) ==> a.early.None? && a.late.None?
    {
      var row := Row(owner, signedBy, livemode, txn, me);
      var signer := Some(Coalesce(signedBy, owner));
      ghost var before := rows;
      Others(me);
      if a.early.Some? { return Error(Refused(Refusal(a.early.value, false))); }
      var prior := ReadExisting(txn, signer, livemode);
      if prior.Some? { return Order(prior.value, true); }
      assert !HasKey(before, row.SignerKey());
      Others(me);
      if a.late.Some? { return Error(Refused(a.late.value)); }
      var at := Insert(row);
      if at.Some? { return Order(at.value, false); }
      ghost var conflicted := rows;
      ghost var k :| 0 <= k < |conflicted|
        && (conflicted[k].SignerKey() == row.SignerKey() || conflicted[k].OwnerKey() == row.OwnerKey());
      Others(me);
      var raced := ReadExisting(txn, signer, livemode);
      if raced.Some? { return Order(raced.value, true); }
      assert rows[k] == conflicted[k];
      return Error(TxnidInUse);
    }

    /** One banker, trying its next account while one failed and fewer than five are excluded. */
    method CreateOnBanker(me: nat, txn: string, owner: Option<string>, signedBy: Option<string>, livemode: bool,
        excluded: nat, t: Tries)
      returns (r: Result)
      requires Valid()
      modifies this
      ensures Valid() && old(rows) <= rows
      ensures Answers(rows, r, Row(owner, signedBy, livemode, txn, me).SignerKey())
      ensures OwnInsert(old(rows), rows, me, r)
      ensures r.Order? && !r.reused ==> rows[r.at] == Row(owner, signedBy, livemode, txn, me)
      ensures t(0).early.None? && HasKey(old(rows), Row(owner, signedBy, livemode, txn, me).SignerKey()) ==>
                r.Order? && r.reused
      ensures r.Error? && Clear(t) ==> r == Error(TxnidInUse)
      ensures r == Error(TxnidInUse) ==> TakenByAnotherKey(rows, Row(owner, signedBy, livemode, txn, me))
      ensures exists n: nat :: DecidedBy(t, excluded, n, r)
    {
      var exclude: int := excluded;
      var n: nat := 0;
      while true
        invariant Valid() && old(rows) <= rows
        invariant n == 0 ==> rows == old(rows)
        invariant exclude == excluded + n && forall k: nat :: k < n ==> MovesOn(t(k)) && excluded + k < 5
        invariant n > 0 ==> !Clear(t) && (t(0).early.None? ==> !HasKey(old(rows), Row(owner, signedBy, livemode, txn, me).SignerKey()))
        invariant forall k :: |old(rows)| <= k < |rows| ==> rows[k].caller != me
        decreases 5 - exclude
      {
        r := CreateOnce(me, txn, owner, signedBy, livemode, t(n));
        if r.Order? || !r.failure.NextMid() || exclude >= 5 || !t(n).another {
          assert DecidedBy(t, excluded, n, r);
          return;
        }
        exclude, n := exclude + 1, n + 1;
      }
    }

    /** The order as this banker's own, signed with the caller's Key. */
    method OfferTo(q: Ask, c: string, excluded: nat) returns (r: Result)
      requires Valid() && (c == q.signer || c in q.order)
      modifies this
      ensures Valid() && old(rows) <= rows
      ensures Answers(rows, r, q.Key()) && OwnInsert(old(rows), rows, q.me, r)
      ensures r.Order? && !r.reused ==> rows[r.at] == q.For(c)
      ensures r.Error? && Clear(q.tries(c)) ==> TakenByAnotherKey(rows, q.For(c))
      ensures r == Error(TxnidInUse) ==> TakenBySome(rows, q)
      ensures r.Error? && !r.failure.PassOver() ==> !Clear(q.tries(c))
      ensures exists k: nat :: DecidedBy(q.tries(c), excluded, k, r)
    {
      var signedBy := if c == q.signer then None else Some(q.signer);
      r := CreateOnBanker(q.me, q.txn, Some(c), signedBy, q.livemode, excluded, q.tries(c));
      if r == Error(TxnidInUse) { assert TakenByAnotherKey(rows, q.For(c)); }
    }

    /**
     The banker switch: the bankers in its order, each with a Key for the mode or the signer itself. A replay
     is answered first, whatever the bankers meet; otherwise the first banker that can take the order does.
     */
    method CreateAcrossBankers(q: Ask, excluded: nat) returns (r: Result)
      requires Valid()
      modifies this
      ensures Valid() && old(rows) <= rows
      ensures Answers(rows, r, q.Key())
      ensures OwnInsert(old(rows), rows, q.me, r)
      ensures HasKey(old(rows), q.Key()) ==> r.Order? && r.reused
      ensures r.Order? && !r.reused ==> TakenInTurn(rows, q, r.at)
      ensures r.Error? && (r.failure.TxnidInUse? || r.failure.why.passOver) ==> PassedTo(rows, q, |q.order|)
      ensures r.Error? && r.failure.Refused? && !r.failure.why.passOver ==> FailedInTurn(rows, q)
      ensures r.Error? && (r.failure.TxnidInUse? || r.failure.why.passOver) && !Unkeyed(q, |q.order|) ==>
                FirstFailed(q, excluded, |q.order|, r.failure)
      ensures r.Error? && Unkeyed(q, |q.order|) && Clear(q.tries(q.signer)) ==> TakenByAnotherKey(rows, q.For(q.signer))
      ensures r == Error(TxnidInUse) ==> TakenBySome(rows, q)
    {
      Others(q.me);
      var prior := ReadExisting(q.txn, Some(q.signer), q.livemode);
      if prior.Some? { return Order(prior.value, true); }
      assert !HasKey(old(rows), q.Key());
      if q.order == [] {
        r := OfferTo(q, q.signer, excluded);
        return;
      }
      var first: Option<Failure> := None;
      for i := 0 to |q.order|
        invariant Valid() && old(rows) <= rows
        invariant forall k :: |old(rows)| <= k < |rows| ==> rows[k].caller != q.me
        invariant PassedTo(rows, q, i) && FirstFits(rows, q, excluded, i, first)
      {
        var c := q.order[i];
        if c != q.signer && c !in q.withKey {
          UnkeyedPassed(rows, q, excluded, i, first);
          continue;
        }
        ghost var before := rows;
        r := OfferTo(q, c, excluded);
        PassedStays(before, rows, q, i);
        if r.Order? || !r.failure.PassOver() { return; }
        ghost var k: nat :| DecidedBy(q.tries(c), excluded, k, r);
        FailurePassed(before, rows, q, excluded, i, first, r.failure, k);
        if first.None? { first := Some(r.failure); }
      }
      if first.Some? { return Error(first.value); }
      r := OfferTo(q, q.signer, excluded);
    }

    /** createKatanaOrder: through the switch when the order is routed and the signer's merchant has one. */
    method Create(me: nat, txn: string, merchant: Option<string>, livemode: bool, route: bool,
        order: Option<seq<string>>, withKey: set<string>, excluded: nat, tries: string -> Tries)
      returns (r: Result)
      requires Valid()
      modifies this
      ensures Valid() && old(rows) <= rows
      ensures Answers(rows, r, (Coalesce(merchant, None), livemode, txn))
      ensures OwnInsert(old(rows), rows, me, r)
      ensures var bankers := if order.Some? then order.value else [];
              var q := Ask(me, txn, Coalesce(merchant, None), livemode, bankers, withKey, tries);
              var own := Row(merchant, None, livemode, txn, me);
              if route && merchant.Some? && merchant.value != "" && order.Some? then
                && (HasKey(old(rows), q.Key()) ==> r.Order? && r.reused)
                && (r.Order? && !r.reused ==> TakenInTurn(rows, q, r.at))
                && (r == Error(TxnidInUse) ==> TakenBySome(rows, q))
                && (r.Error? && (r.failure.TxnidInUse? || r.failure.why.passOver) ==> PassedTo(rows, q, |q.order|))
                && (r.Error? && r.failure.Refused? && !r.failure.why.passOver ==> FailedInTurn(rows, q))
                && (forall c :: OfferedFirst(q, c) && Clear(tries(c)) && FreeForMe(old(rows), rows, q.For(c)) ==>
                      r.Order? && !r.reused && rows[r.at] == q.For(c))
              else
                && (HasKey(old(rows), q.Key()) && tries(q.signer)(0).early.None? ==> r.Order? && r.reused)
                && (r.Order? && !r.reused ==> rows[r.at] == own)
                && (r == Error(TxnidInUse) ==> TakenByAnotherKey(rows, own))
                && (Clear(tries(q.signer)) && FreeForMe(old(rows), rows, own) ==> r.Order? && !r.reused)
    {
      if route && merchant.Some? && merchant.value != "" && order.Some? {
        var q := Ask(me, txn, merchant.value, livemode, order.value, withKey, tries);
        r := CreateAcrossBankers(q, excluded);
        forall c | OfferedFirst(q, c) && Clear(tries(c)) && FreeForMe(old(rows), rows, q.For(c))
          ensures r.Order? && !r.reused && rows[r.at] == q.For(c)
        {
          FirstTakes(old(rows), rows, q, c, r);
        }
      } else {
        r := CreateOnBanker(me, txn, merchant, None, livemode, excluded, tries(Coalesce(merchant, None)));
        if FreeForMe(old(rows), rows, Row(merchant, None, livemode, txn, me)) {
          NotTaken(old(rows), rows, Row(merchant, None, livemode, txn, me), r);
        }
      }
    }

    /** Two calls on one (signing key, txnid, mode), anything in between: one order, created at most once. */
    method CreateTwice(a: nat, b: nat, txn: string, merchant: Option<string>, livemode: bool,
                       routeA: bool, orderA: Option<seq<string>>, keysA: set<string>, triesA: string -> Tries,
                       routeB: bool, orderB: Option<seq<string>>, keysB: set<string>,
                           triesB: string -> Tries) returns (ra: Result, rb: Result)
      requires Valid() && a != b
      modifies this
      ensures Valid() && old(rows) <= rows
      ensures ra.Order? && rb.Order? ==> ra.at == rb.at && rb.reused
    {
      ra := Create(a, txn, merchant, livemode, routeA, orderA, keysA, 0, triesA);
      ghost var mid := rows;
      Others(a);
      rb := Create(b, txn, merchant, livemode, routeB, orderB, keysB, 0, triesB);
      if ra.Order? && rb.Order? { SameKeySameOrder(mid, rows, ra, rb, (Coalesce(merchant, None), livemode, txn)); }
    }
  }

  /** Keys nobody else holds are taken by nobody, and answer no replay. */
  lemma NotTaken(before: seq<Row>, rows: seq<Row>, row: Row, r: Result)
    requires FreeForMe(before, rows, row) && OwnInsert(before, rows, row.caller, r) && Answers(rows, r, row.SignerKey())
    ensures TakenByAnotherKey(rows, row) ==> r.Order? && !r.reused
    ensures r.Order? ==> !r.reused
  {
  }

  /** A banker offered the order first, with nothing against it and its keys free, takes it as new. */
  lemma FirstTakes(before: seq<Row>, rows: seq<Row>, q: Ask, c: string, r: Result)
    requires OfferedFirst(q, c) && Clear(q.tries(c)) && FreeForMe(before, rows, q.For(c))
    requires OwnInsert(before, rows, q.me, r) && Answers(rows, r, q.Key())
    requires r.Order? && !r.reused ==> TakenInTurn(rows, q, r.at)
    requires r.Error? && r.failure.PassOver() ==> PassedTo(rows, q, |q.order|)
    requires r.Error? && !r.failure.PassOver() ==> FailedInTurn(rows, q)
    requires r.Error? && Unkeyed(q, |q.order|) && Clear(q.tries(q.signer)) ==> TakenByAnotherKey(rows, q.For(q.signer))
    ensures r.Order? && !r.reused && rows[r.at] == q.For(c)
  {
    NotTaken(before, rows, q.For(c), r);
  }

  /** Answers given at different times for one key name the same order. */
  lemma SameKeySameOrder(earlier: seq<Row>, later: seq<Row>, r: Result, s: Result, key: (string, bool, string))
    requires earlier <= later && KeysUnique(later) && r.Order? && s.Order?
    requires Answers(earlier, r, key) && Answers(later, s, key)
    ensures r.at == s.at && later[r.at] == earlier[r.at]
  {
    assert later[r.at] == earlier[r.at];
  }

  /**
   Two calls of one key that overlap in any way: call `a` began at `beforeA` and answered at `endA`, call `b`
   likewise, and `last` is the table after both. If both succeed they name one order, and one of them at
   most says it is new.
   */
  lemma OverlappingCreatesMakeOne(a: nat, beforeA: seq<Row>, endA: seq<Row>, ra: Result, b: nat, beforeB: seq<Row>,
      endB: seq<Row>, rb: Result,
                                  last: seq<Row>, key: (string, bool, string))
    requires a != b && endA <= last && endB <= last && KeysUnique(last)
    requires Answers(endA, ra, key) && OwnInsert(beforeA, endA, a, ra)
    requires Answers(endB, rb, key) && OwnInsert(beforeB, endB, b, rb)
    requires ra.Order? && rb.Order?
    ensures ra.at == rb.at && (ra.reused || rb.reused)
  {
    assert KeysUnique(last) && last[ra.at] == endA[ra.at] && last[rb.at] == endB[rb.at];
  }
}
