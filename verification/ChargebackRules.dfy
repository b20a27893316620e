/**
 Chargeback rules: which one applies, what it debits, and how the versioned rule book keeps one rule
 in force per scope (apps/admin-dashboard/src/lib/chargeback-rules.ts, lines 59-184, and
 chargebacks-store.ts, lines 44-77). Amounts are paise; times are instants.
 */
module ChargebackRules {
  import opened Options

  datatype Channel = Intent | P2p | Unclassified

  /** What a rule is for; an absent part is every value. Reasons are upper-case. */
  datatype Scope = Scope(provider: Option<string>, banker: Option<string>, channel: Option<Channel>,
      reason: Option<string>)

  /** The ratio is 0 to 10000 basis points (vendorGateway 0039). */
  type Ratio = b: nat | b <= 10000

  datatype Rule = Rule(id: nat, scope: Scope, debitBps: Ratio, autoDebit: bool, autoMax: Option<int>, version: nat,
      from: int, to: Option<int>)
  {
    predicate InForce(t: int) { from <= t && (to.None? || to.value > t) }
  }

  /** Whether a rule's scope takes in the chargeback described by `q`. */
  predicate Fits(r: Scope, q: Scope) {
    && (r.provider.None? || r.provider == q.provider)
    && (r.banker.None? || r.banker == q.banker)
    && (r.channel.None? || r.channel == q.channel)
    && (r.reason.None? || r.reason == q.reason)
  }

  function Score(s: Scope): nat {
    (if s.banker.Some? then 8 else 0) + (if s.provider.Some? then 4 else 0)
    + (if s.channel.Some? then 2 else 0) + (if s.reason.Some? then 1 else 0)
  }

  /** The sort's order: higher score first, then the newer rule. */
  predicate Before(a: Rule, b: Rule) {
    Score(a.scope) > Score(b.scope) || (Score(a.scope) == Score(b.scope) && a.from > b.from)
  }

  /** pickCbRule: the head of the fitting rules in force, stably sorted. */
  function Pick(rules: seq<Rule>, q: Scope, t: int): Option<Rule> {
    if rules == [] then None
    else
      var best, r := Pick(rules[..|rules| - 1], q, t), rules[|rules| - 1];
      if !(r.InForce(t) && Fits(r.scope, q)) then best
      else if best.None? || Before(r, best.value) then Some(r) else best
  }

  // ── The rule book ───────────────────────────────────────────────────────────────────────────

  /**
   The rules in the order they were committed. The instant of a change is that of its transaction's start,
   which the wait for the scope's lock may put before or after the instants of the changes already there.
   */
  type Book = seq<Rule>

  function NextVersion(rules: seq<Rule>, s: Scope): nat {
    if rules == [] then 1
    else
      var n, r := NextVersion(rules[..|rules| - 1], s), rules[|rules| - 1];
      if r.scope == s && r.version >= n then r.version + 1 else n
  }

  function Ended(r: Rule, now: int): Rule {
    if r.to.None? || r.to.value > now then r.(to := Some(now)) else r
  }

  /** Every rule of the scope that is in force ends now. */
  function EndScope(rules: seq<Rule>, s: Scope, now: int): seq<Rule> {
    seq(|rules|, i requires 0 <= i < |rules| => if rules[i].scope == s then Ended(rules[i], now) else rules[i])
  }

  /** createCbRule: end what the scope has in force, add the next version. */
  function CreateOf(b: Book, s: Scope, bps: Ratio, autoDebit: bool, autoMax: Option<int>, now: int): Book {
    EndScope(b, s, now) + [Rule(|b|, s, bps, autoDebit, autoMax, NextVersion(b, s), now, None)]
  }

  /** endCbRule. */
  function EndOf(b: Book, id: nat, now: int): Book {
    seq(|b|, i requires 0 <= i < |b| => if b[i].id == id then Ended(b[i], now) else b[i])
  }

  datatype Step =
    | Create(scope: Scope, bps: Ratio, autoDebit: bool, autoMax: Option<int>, now: int)
    | End(id: nat, now: int)

  function Apply(b: Book, step: Step): Book {
    match step
    case Create(s, bps, a, m, now) => CreateOf(b, s, bps, a, m, now)
    case End(id, now) => EndOf(b, id, now)
  }

  function Run(b: Book, steps: seq<Step>): Book
    decreases |steps|
  {
    if steps == [] then b else Run(Apply(b, steps[0]), steps[1..])
  }

  /** Of two rules of one scope the older ended by the time the newer began, and has the lower version. */
  ghost predicate Succession(b: Book) {
    && (forall i, j | 0 <= i < j < |b| :: Succeeds(b[i], b[j]))
    && (forall i | 0 <= i < |b| :: b[i].id == i)
  }

  predicate Succeeds(older: Rule, newer: Rule) {
    older.scope == newer.scope ==> older.to.Some? && older.to.value <= newer.from && older.version < newer.version
  }

  lemma {:induction false} NextVersionAbove(rules: seq<Rule>, s: Scope)
    ensures forall i | 0 <= i < |rules| && rules[i].scope == s :: rules[i].version < NextVersion(rules, s)
  {
    if rules != [] { NextVersionAbove(rules[..|rules| - 1], s); }
  }

  lemma CreateKeepsSuccession(b: Book, s: Scope, bps: Ratio, autoDebit: bool, autoMax: Option<int>, now: int)
    requires Succession(b)
    ensures Succession(CreateOf(b, s, bps, autoDebit, autoMax, now))
  {
    NextVersionAbove(b, s);
  }

  lemma EndKeepsSuccession(b: Book, id: nat, now: int)
    requires Succession(b)
    ensures Succession(EndOf(b, id, now))
  {
  }

  lemma StepKeepsSuccession(b: Book, step: Step)
    requires Succession(b)
    ensures Succession(Apply(b, step))
  {
    match step
    case Create(s, bps, a, m, now) => CreateKeepsSuccession(b, s, bps, a, m, now);
    case End(id, now) => EndKeepsSuccession(b, id, now);
  }

  lemma {:induction false} RunKeepsSuccession(b: Book, steps: seq<Step>)
    requires Succession(b)
    ensures Succession(Run(b, steps))
    decreases |steps|
  {
    if steps != [] {
      StepKeepsSuccession(b, steps[0]);
      RunKeepsSuccession(Apply(b, steps[0]), steps[1..]);
    }
  }

  ghost predicate OnePerScope(rules: seq<Rule>, t: int) {
    forall i, j | 0 <= i < j < |rules| && rules[i].InForce(t) && rules[j].InForce(t) :: rules[i].scope != rules[j].scope
  }

  /**
   Any rule changes, at whatever instants, leave at most one rule in force per scope at every instant, and rising
   versions.
   */
  lemma OneRulePerScope(steps: seq<Step>, t: int)
    ensures var rules := Run([], steps);
            && OnePerScope(rules, t)
            && forall i, j | 0 <= i < j < |rules| && rules[i].scope == rules[j].scope ::
                 rules[i].version < rules[j].version
  {
    RunKeepsSuccession([], steps);
    var rules := Run([], steps);
    forall i, j | 0 <= i < j < |rules| && rules[i].scope == rules[j].scope
      ensures !(rules[i].InForce(t) && rules[j].InForce(t)) && rules[i].version < rules[j].version
    {
      assert Succeeds(rules[i], rules[j]);
    }
  }

  // ── The pick ────────────────────────────────────────────────────────────────────────────────

  predicate Candidate(r: Rule, q: Scope, t: int) { r.InForce(t) && Fits(r.scope, q) }

  /** Two scopes that fit one chargeback with equal scores are one scope. */
  lemma EqualScoreSameScope(a: Scope, b: Scope, q: Scope)
    requires Fits(a, q) && Fits(b, q) && Score(a) == Score(b)
    ensures a == b
  {
    assert a.banker.Some? == b.banker.Some? && a.provider.Some? == b.provider.Some?;
  }

  /** A higher score is a more specific scope: banker, then merchant, then channel, then reason. */
  lemma ScoreIsLexicographic(a: Scope, b: Scope)
    ensures Score(a) > Score(b) <==>
              if a.banker.Some? != b.banker.Some? then a.banker.Some?
              else if a.provider.Some? != b.provider.Some? then a.provider.Some?
              else if a.channel.Some? != b.channel.Some? then a.channel.Some?
              else a.reason.Some? && b.reason.None?
  {
  }

  lemma {:induction false} PickIsBest(rules: seq<Rule>, q: Scope, t: int)
    ensures var p := Pick(rules, q, t);
            && (p.None? <==> forall i | 0 <= i < |rules| :: !Candidate(rules[i], q, t))
            && (p.Some? ==> p.value in rules && Candidate(p.value, q, t)
                            && forall i | 0 <= i < |rules| && Candidate(rules[i], q, t) ::
                                 Score(rules[i].scope) <= Score(p.value.scope))
  {
    if rules != [] { PickIsBest(rules[..|rules| - 1], q, t); }
  }

  /**
   With one rule in force per scope there is never a tie: the pick is the one fitting rule of the
   highest score, and every other fitting rule scores strictly less.
   */
  lemma PickIsUniqueMaximum(rules: seq<Rule>, q: Scope, t: int, i: nat)
    requires OnePerScope(rules, t) && i < |rules| && Candidate(rules[i], q, t)
    ensures var p := Pick(rules, q, t); p.Some? && (rules[i] == p.value || Score(rules[i].scope) < Score(p.value.scope))
  {
    PickIsBest(rules, q, t);
    var p := Pick(rules, q, t).value;
    var k :| 0 <= k < |rules| && rules[k] == p;
    if Score(rules[i].scope) == Score(p.scope) {
      EqualScoreSameScope(rules[i].scope, p.scope, q);
      assert i == k;
    }
  }

  /** In force at the instant, and every part the rule states is the chargeback's own. */
  ghost predicate Applies(r: Rule, q: Scope, t: int) {
    && r.from <= t && (r.to.Some? ==> t < r.to.value)
    && (r.scope.provider.Some? ==> q.provider == r.scope.provider)
    && (r.scope.banker.Some? ==> q.banker == r.scope.banker)
    && (r.scope.channel.Some? ==> q.channel == r.scope.channel)
    && (r.scope.reason.Some? ==> q.reason == r.scope.reason)
  }

  /** The order of specificity, read part by part, and the newer of two rules that state the same parts. */
  ghost predicate Outranks(a: Rule, b: Rule) {
    if a.scope.banker.Some? != b.scope.banker.Some? then a.scope.banker.Some?
    else if a.scope.provider.Some? != b.scope.provider.Some? then a.scope.provider.Some?
    else if a.scope.channel.Some? != b.scope.channel.Some? then a.scope.channel.Some?
    else if a.scope.reason.Some? != b.scope.reason.Some? then a.scope.reason.Some?
    else a.from > b.from
  }

  /**
   A rule is picked exactly when one applies; it applies, and no other that applies outranks it: one banker before
   the whole merchant, before every merchant, then one channel, then one reason, then the newest.
   */
  lemma {:induction false} PickedExactly(rules: seq<Rule>, q: Scope, t: int)
    ensures var p := Pick(rules, q, t);
            && (p.None? <==> forall i | 0 <= i < |rules| :: !Applies(rules[i], q, t))
            && (p.Some? ==> p.value in rules && Applies(p.value, q, t)
                            && forall i | 0 <= i < |rules| && Applies(rules[i], q, t) :: !Outranks(rules[i], p.value))
    decreases |rules|
  {
    if rules != [] {
      var r := rules[|rules| - 1];
      PickedExactly(rules[..|rules| - 1], q, t);
      assert Applies(r, q, t) <==> Candidate(r, q, t);
      forall a: Rule, b: Rule ensures Before(a, b) <==> Outranks(a, b) {
        ScoreIsLexicographic(a.scope, b.scope);
        ScoreIsLexicographic(b.scope, a.scope);
      }
    }
  }

  // ── What a change of the book writes ────────────────────────────────────────────────────────

  predicate StillInForce(r: Rule, now: int) { r.to.None? || r.to.value > now }

  /** The rule as it is but for its end, which is now. */
  ghost predicate EndedNow(before: Rule, after: Rule, now: int) {
    && after.to == Some(now) && after.from == before.from && after.version == before.version && after.id == before.id
    && after.scope == before.scope && after.debitBps == before.debitBps && after.autoDebit == before.autoDebit
    && after.autoMax == before.autoMax
  }

  /** Ending ends the named rule, if it is in force, and no other. */
  lemma EndsExactly(b: Book, id: nat, now: int)
    ensures var c := EndOf(b, id, now);
            && |c| == |b|
            && forall i | 0 <= i < |b| ::
                 if b[i].id == id && StillInForce(b[i], now) then EndedNow(b[i], c[i], now) else c[i] == b[i]
  {
  }

  /** The next version is above every version of the scope, by one above the highest. */
  lemma {:induction false} NextVersionExactly(rules: seq<Rule>, s: Scope)
    ensures var n := NextVersion(rules, s);
            && (forall i | 0 <= i < |rules| && rules[i].scope == s :: rules[i].version < n)
            && (n == 1 || (n > 1 && exists i :: 0 <= i < |rules| && rules[i].scope == s && rules[i].version == n - 1))
  {
    if rules != [] {
      var init := rules[..|rules| - 1];
      NextVersionExactly(init, s);
      var n := NextVersion(init, s);
      if NextVersion(rules, s) == n && n > 1 {
        var i :| 0 <= i < |init| && init[i].scope == s && init[i].version == n - 1;
        assert rules[i].version == n - 1;
      }
    }
  }

  /** Creating ends what its scope has in force and appends one rule, in force from now until it is ended. */
  lemma CreatesExactly(b: Book, s: Scope, bps: Ratio, autoDebit: bool, autoMax: Option<int>, now: int)
    ensures var c := CreateOf(b, s, bps, autoDebit, autoMax, now); var n := |b|;
            && |c| == n + 1
            && (forall i | 0 <= i < n ::
                  if b[i].scope == s && StillInForce(b[i], now) then EndedNow(b[i], c[i], now) else c[i] == b[i])
            && c[n].scope == s && c[n].debitBps == bps && c[n].autoDebit == autoDebit && c[n].autoMax == autoMax
            && c[n].from == now && c[n].to.None? && c[n].id == n
            && (forall i | 0 <= i < n && b[i].scope == s :: b[i].version < c[n].version)
            && (c[n].version == 1 || exists i :: 0 <= i < n && b[i].scope == s && b[i].version == c[n].version - 1)
  {
    NextVersionExactly(b, s);
  }

  lemma {:induction false} RunLast(b: Book, steps: seq<Step>, last: Step)
    ensures Run(b, steps + [last]) == Apply(Run(b, steps), last)
    decreases |steps|
  {
    if steps == [] {
      assert [] + [last] == [last] && [last][1..] == [];
      assert Run(b, [last]) == Run(Apply(b, last), []);
    } else {
      assert (steps + [last])[1..] == steps[1..] + [last];
      RunLast(Apply(b, steps[0]), steps[1..], last);
    }
  }

  /** A scope that fits a chargeback of just that scope is no more specific. */
  lemma FittingScoresLess(a: Scope, s: Scope)
    requires Fits(a, s)
    ensures Score(a) <= Score(s)
  {
  }

  /** Whatever rules there were, one created now is the one picked now for a chargeback of just its scope. */
  lemma CreatedRuleIsPicked(steps: seq<Step>, s: Scope, bps: Ratio, autoDebit: bool, autoMax: Option<int>, now: int)
    ensures var rules := Run([], steps + [Create(s, bps, autoDebit, autoMax, now)]); var p := Pick(rules, s, now);
            && rules != [] && p == Some(rules[|rules| - 1])
            && p.value.debitBps == bps && p.value.autoDebit == autoDebit && p.value.autoMax == autoMax
  {
    var create := Create(s, bps, autoDebit, autoMax, now);
    var rules := Run([], steps + [create]);
    RunLast([], steps, create);
    OneRulePerScope(steps + [create], now);
    PickIsUniqueMaximum(rules, s, now, |rules| - 1);
    PickIsBest(rules, s, now);
    FittingScoresLess(Pick(rules, s, now).value.scope, s);
  }

  // ── What a rule debits ──────────────────────────────────────────────────────────────────────

  /** ruleDebit: the ratio of the amount, rounded half up to the paisa. */
  function RuleDebit(amount: nat, bps: Ratio): nat { (2 * amount * bps + 10000) / 20000 }

  lemma RuleDebitWithinAmount(amount: nat, bps: Ratio)
    ensures RuleDebit(amount, bps) <= amount
    ensures -5000 <= RuleDebit(amount, bps) * 10000 - amount * bps <= 5000
    ensures bps == 10000 ==> RuleDebit(amount, bps) == amount
    ensures bps == 0 ==> RuleDebit(amount, bps) == 0
  {
    assert amount * bps <= amount * 10000;
  }

  class RuleBook {
    var rules: Book

    constructor ()
      ensures rules == []
    {
      rules := [];
    }

    method Create(s: Scope, bps: Ratio, autoDebit: bool, autoMax: Option<int>, now: int)
      requires Succession(rules)
      modifies this
      ensures rules == CreateOf(old(rules), s, bps, autoDebit, autoMax, now) && Succession(rules)
    {
      CreateKeepsSuccession(rules, s, bps, autoDebit, autoMax, now);
      var version := NextVersion(rules, s);
      rules := EndScope(rules, s, now) + [Rule(|rules|, s, bps, autoDebit, autoMax, version, now, None)];
    }

    /** Whether a rule in force was ended. */
    method EndRule(id: nat, now: int) returns (ended: bool)
      requires Succession(rules)
      modifies this
      ensures rules == EndOf(old(rules), id, now) && Succession(rules)
      ensures ended <==> id < |old(rules)| && (old(rules)[id].to.None? || old(rules)[id].to.value > now)
    {
      EndKeepsSuccession(rules, id, now);
      ended := id < |rules| && (rules[id].to.None? || rules[id].to.value > now);
      ghost var before := rules;
      if id < |rules| { rules := rules[id := Ended(rules[id], now)]; }
      assert rules == EndOf(before, id, now);
    }
  }
}
