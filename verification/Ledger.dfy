/**
 Double-entry posting as the FIFO desk uses it (apps/admin-dashboard/src/lib/ledger.ts, lines 85-160).
 Postings are in one currency; an idempotency key posts once.
 */
module Ledger {

  datatype Account =
    | PgFloat(provider: string) | MerchantPayable(merchant: string) | MerchantReserve(merchant: string) | MdrEarned
    | SettlementPayable(merchant: string) | GstPayable | ChargebackHold(merchant: string)
    | AdjustmentExpense | AdjustmentIncome

  datatype Side = D | C

  datatype Line = Line(account: Account, side: Side, amount: int)
  {
    /** Debits minus credits. */
    function Net(): int { if side.D? then amount else -amount }
  }

  /** The idempotency keys of the two journals. */
  datatype Key = PaymentSuccess(txn: nat) | SettlementBatch(batch: nat)

  function Net(lines: seq<Line>): int {
    if lines == [] then 0 else Net(lines[..|lines| - 1]) + lines[|lines| - 1].Net()
  }

  /** Why lines cannot be posted: none, an amount that is not positive, or debits unlike credits. */
  predicate Problem(lines: seq<Line>) {
    lines == [] || (exists k :: 0 <= k < |lines| && lines[k].amount <= 0) || Net(lines) != 0
  }

  /** What an account holds, credits less debits. */
  function Balance(lines: seq<Line>, a: Account): int {
    if lines == [] then 0
    else Balance(lines[..|lines| - 1], a) - (if lines[|lines| - 1].account == a then lines[|lines| - 1].Net() else 0)
  }

  datatype Book = Book(keys: set<Key>, lines: seq<Line>)

  /** The book after a posting; unchanged when it is refused or a replay. */
  function PostOf(b: Book, key: Key, lines: seq<Line>): Book {
    if Problem(lines) || key in b.keys then b else Book(b.keys + {key}, b.lines + lines)
  }

  lemma {:induction false} BalanceConcat(a: seq<Line>, b: seq<Line>, acc: Account)
    ensures Balance(a + b, acc) == Balance(a, acc) + Balance(b, acc)
    decreases |b|
  {
    if b == [] {
      assert a + b == a;
    } else {
      BalanceConcat(a, b[..|b| - 1], acc);
      assert (a + b)[..|a + b| - 1] == a + b[..|b| - 1];
    }
  }

  lemma {:induction false} NetConcat(a: seq<Line>, b: seq<Line>)
    ensures Net(a + b) == Net(a) + Net(b)
    decreases |b|
  {
    if b == [] {
      assert a + b == a;
    } else {
      NetConcat(a, b[..|b| - 1]);
      assert (a + b)[..|a + b| - 1] == a + b[..|b| - 1];
    }
  }

  /** A book whose debits equal its credits keeps them so, whatever is posted to it. */
  lemma PostKeepsBalanced(b: Book, key: Key, lines: seq<Line>)
    requires Net(b.lines) == 0
    ensures Net(PostOf(b, key, lines).lines) == 0
  {
    NetConcat(b.lines, lines);
  }

  /** The amounts of one side. */
  function SideTotal(lines: seq<Line>, side: Side): int {
    if lines == [] then 0
    else
      var last := lines[|lines| - 1];
      SideTotal(lines[..|lines| - 1], side) + (if last.side == side then last.amount else 0)
  }

  lemma {:induction false} NetIsDebitsLessCredits(lines: seq<Line>)
    ensures Net(lines) == SideTotal(lines, D) - SideTotal(lines, C)
  {
    if lines != [] { NetIsDebitsLessCredits(lines[..|lines| - 1]); }
  }

  /**
   A journal is posted exactly when it has lines, each of a positive amount, whose debits equal its credits, under a key
   not posted before; anything else leaves the book as it is.
   */
  lemma PostsExactly(b: Book, key: Key, lines: seq<Line>)
    ensures var accepted := && lines != [] && (forall k :: 0 <= k < |lines| ==> lines[k].amount > 0)
                            && SideTotal(lines, D) == SideTotal(lines, C);
            && (Problem(lines) <==> !accepted)
            && PostOf(b, key, lines) == if accepted && key !in b.keys then Book(b.keys + {key}, b.lines + lines) else b
  {
    NetIsDebitsLessCredits(lines);
  }

  /** journalProblem, the loop over the lines. */
  method HasProblem(lines: seq<Line>) returns (problem: bool)
    ensures problem == Problem(lines)
  {
    if |lines| == 0 { return true; }
    var net := 0;
    for i := 0 to |lines|
      invariant net == Net(lines[..i])
      invariant forall k :: 0 <= k < i ==> lines[k].amount > 0
    {
      var a := lines[i].amount;
      if a <= 0 { return true; }
      net := net + (if lines[i].side.D? then a else -a);
      assert lines[..i + 1][..i] == lines[..i];
    }
    assert lines[..|lines|] == lines;
    return net != 0;
  }

  class Journal {
    var keys: set<Key>
    var lines: seq<Line>

    ghost function View(): Book
      reads this
    {
      Book(keys, lines)
    }

    constructor ()
      ensures View() == Book({}, [])
    {
      keys, lines := {}, [];
    }

    /** postJournal: false when the lines are refused. */
    method Post(key: Key, posted: seq<Line>) returns (ok: bool)
      modifies this
      ensures ok == !Problem(posted)
      ensures View() == PostOf(old(View()), key, posted)
    {
      var problem := HasProblem(posted);
      if problem { return false; }
      if key in keys { return true; }
      keys, lines := keys + {key}, lines + posted;
      return true;
    }
  }
}
