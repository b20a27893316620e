/**
 What each call on a chargeback decides (apps/admin-dashboard/src/lib/chargeback-rules.ts, lines 117-154, and
 chargebacks-store.ts, lines 332-531), read from the rows, the pay-in and the rule alone; and where every
 posting of a run came from.
 */
module ChargebackDecisions {
  import opened Options
  import opened SetSums
  import Rules = ChargebackRules
  import opened ChargebackStore

  /** The other chargebacks on the pay-in that are neither dismissed nor reversed. */
  ghost function Others(s: State, order: nat, id: nat): set<nat> {
    set c | c in s.cbs && c != id && s.cbs[c].order == Some(order)
        && s.cbs[c].state != Dismissed && s.cbs[c].state != Reversed
  }

  ghost function OthersClaim(s: State, order: nat, id: nat): int { SumOver(Others(s, order, id), AmountIn(s.cbs)) }

  /** The nearest paisa to the rule's ratio of the amount, half a paisa upwards. */
  predicate IsRuleDebit(amount: nat, rule: Rules.Rule, debit: nat) { Nearest(amount * rule.debitBps, debit) }

  predicate Nearest(x: nat, paise: nat) { -5000 < paise * 10000 - x <= 5000 }

  lemma HalfUp(x: nat, d: nat)
    ensures Nearest(x, d) <==> d == (2 * x + 10000) / 20000
  {
  }

  lemma DebitOfProduct(amount: nat, bps: Rules.Ratio, x: nat)
    requires x == amount * bps
    ensures Rules.RuleDebit(amount, bps) == (2 * x + 10000) / 20000
  {
    assert 2 * amount * bps == 2 * x;
  }

  lemma RuleDebitIs(amount: nat, rule: Rules.Rule, debit: nat)
    ensures IsRuleDebit(amount, rule, debit) <==> debit == Rules.RuleDebit(amount, rule.debitBps)
  {
    var x: nat := amount * rule.debitBps;
    DebitOfProduct(amount, rule.debitBps, x);
    HalfUp(x, debit);
  }

  /** The pay-in is paid, and this claim fits in it beside all the others. */
  ghost predicate FitsPayin(s: State, id: nat, order: nat)
    requires id in s.cbs && order in s.payins
  {
    var amount, payin := s.cbs[id].amount, s.payins[order];
    payin.paid && amount <= payin.amount && OthersClaim(s, order, id) + amount <= payin.amount
  }

  /** The rule debits without a person: it says so, and its debit is within its limit. */
  predicate DebitsByItself(rule: Rules.Rule, debit: nat) {
    rule.autoDebit && (rule.autoMax.None? || debit <= rule.autoMax.value)
  }

  lemma ClaimedIsOthers(s: State, order: nat, id: nat)
    ensures Claimed(s.cbs, order, id) == OthersClaim(s, order, id)
  {
    assert Claimants(s.cbs, order, id) == Others(s, order, id);
  }

  /**
   An evaluation of an open chargeback matched to a pay-in. It posts a debit exactly when the pay-in is paid and has
   a banker, the claim fits in it, and a rule that debits by itself takes something; that debit is the rule's ratio.
   */
  lemma MatchedDebitsExactly(s: State, id: nat, order: nat, rule: Option<Rules.Rule>, debit: nat)
    requires id in s.cbs && s.cbs[id].state.Open() && order in s.payins
    requires rule.Some? ==> IsRuleDebit(s.cbs[id].amount, rule.value, debit)
    ensures var t := Apply(s, Evaluate(id, To(order), rule));
            var posts := FitsPayin(s, id, order) && s.payins[order].banker.Some?
                         && rule.Some? && DebitsByItself(rule.value, debit) && debit > 0;
            && t.postings == s.postings + (if posts then [Posting(id, order, Debit, debit, false, None)] else [])
            && id in t.cbs && t.cbs[id].debited == s.cbs[id].debited + (if posts then debit else 0)
  {
    ClaimedIsOthers(s, order, id);
    if rule.Some? { RuleDebitIs(s.cbs[id].amount, rule.value, debit); }
  }

  /** What is decided on a pay-in that was found. */
  lemma DecidesExactly(amount: nat, p: Payin, claimed: int, rule: Option<Rules.Rule>, debit: nat)
    requires rule.Some? ==> IsRuleDebit(amount, rule.value, debit)
    ensures var st := Decide(amount, Some(p), 1, claimed, rule).state;
            var fits := p.paid && amount <= p.amount && claimed + amount <= p.amount;
            var byItself := fits && rule.Some? && DebitsByItself(rule.value, debit);
            && !st.PendingMatch? && !st.Reversed? && !st.Dismissed?
            && (st == ManualReview <==> !fits || (rule.Some? && !DebitsByItself(rule.value, debit)))
            && (st == RuleException <==> fits && rule.None?)
            && (st == Matched <==> byItself && debit == 0)
            && (st == PartialDebit <==> byItself && 0 < debit < amount)
            && (st == DebitPosted <==> byItself && 0 < debit == amount)
  {
    if rule.Some? {
      RuleDebitIs(amount, rule.value, debit);
      Rules.RuleDebitWithinAmount(amount, rule.value.debitBps);
    }
  }

  /**
   And the state it leaves: a person when the pay-in is not paid, does not have the room, or the rule asks for one;
   an exception without a rule; otherwise what the rule takes, which may be nothing.
   */
  lemma MatchedStateExactly(s: State, id: nat, order: nat, rule: Option<Rules.Rule>, debit: nat)
    requires id in s.cbs && s.cbs[id].state.Open() && order in s.payins
    requires rule.Some? ==> IsRuleDebit(s.cbs[id].amount, rule.value, debit)
    ensures var t := Apply(s, Evaluate(id, To(order), rule));
            var amount, fits := s.cbs[id].amount, FitsPayin(s, id, order);
            && id in t.cbs
            && !t.cbs[id].state.PendingMatch? && !t.cbs[id].state.Reversed? && !t.cbs[id].state.Dismissed?
            && (t.cbs[id].state == ManualReview <==> !fits || (rule.Some? && !DebitsByItself(rule.value, debit)))
            && (t.cbs[id].state == RuleException <==> fits && rule.None?)
            && (t.cbs[id].state == Matched <==> fits && rule.Some? && DebitsByItself(rule.value, debit) && debit == 0)
            && (t.cbs[id].state == PartialDebit <==>
                  fits && rule.Some? && DebitsByItself(rule.value, debit) && 0 < debit < amount)
            && (t.cbs[id].state == DebitPosted <==>
                  fits && rule.Some? && DebitsByItself(rule.value, debit) && 0 < debit == amount)
  {
    ClaimedIsOthers(s, order, id);
    DecidesExactly(s.cbs[id].amount, s.payins[order], Claimed(s.cbs, order, id), rule, debit);
  }

  /** The row is tied to the pay-in it was matched to, and keeps what the rule calculated. */
  lemma MatchedRow(s: State, id: nat, order: nat, rule: Option<Rules.Rule>, debit: nat)
    requires id in s.cbs && s.cbs[id].state.Open() && order in s.payins
    requires rule.Some? ==> IsRuleDebit(s.cbs[id].amount, rule.value, debit)
    ensures var t, p := Apply(s, Evaluate(id, To(order), rule)), s.payins[order];
            && t.payins == s.payins && t.cbs.Keys == s.cbs.Keys
            && (forall c :: c in s.cbs && c != id ==> t.cbs[c] == s.cbs[c])
            && t.cbs[id].order == Some(order) && t.cbs[id].channel == Some(p.channel)
            && t.cbs[id].banker == (if p.banker.Some? then p.banker else s.cbs[id].banker)
            && t.cbs[id].amount == s.cbs[id].amount && t.cbs[id].reversed == s.cbs[id].reversed
            && t.cbs[id].calculated == if rule.Some? then Some(debit) else None
  {
    if rule.Some? { RuleDebitIs(s.cbs[id].amount, rule.value, debit); }
  }

  /** No pay-in found: several candidates, or only one on the other channel, go to a person; otherwise it waits. */
  lemma UnmatchedExactly(s: State, id: nat, candidates: nat, otherChannel: bool, rule: Option<Rules.Rule>)
    requires id in s.cbs && s.cbs[id].state.Open()
    ensures var t := Apply(s, Evaluate(id, Nothing(candidates, otherChannel), rule)); var row := s.cbs[id];
            && t.payins == s.payins && t.postings == s.postings
            && t.cbs == s.cbs[id := Chargeback(row.amount, None, row.banker, None, None, row.debited, row.reversed,
                                               if candidates > 1 || otherChannel then ManualReview else PendingMatch)]
  {
  }

  /** A decided chargeback, and one there is not, are left alone. */
  lemma OnlyOpenAreEvaluated(s: State, id: nat, m: Match, rule: Option<Rules.Rule>)
    requires id in s.cbs ==> !s.cbs[id].state.Open()
    ensures Apply(s, Evaluate(id, m, rule)) == s
  {
  }

  // ── A person's calls ────────────────────────────────────────────────────────────────────────

  /** What an approval would debit: the amount stated, or else the rule's. */
  predicate IsApproved(amount: nat, stated: Option<int>, rule: Option<Rules.Rule>, debit: int) {
    if stated.Some? then debit == stated.value
    else rule.Some? && debit >= 0 && IsRuleDebit(amount, rule.value, debit)
  }

  /** The answer of an approval: whether the row is there, open and matched, and whether the debit is within it. */
  lemma ApprovalAnswersExactly(s: State, id: nat, stated: Option<int>, rule: Option<Rules.Rule>, debit: int)
    requires id in s.cbs && (stated.Some? || rule.Some? ==> IsApproved(s.cbs[id].amount, stated, rule, debit))
    ensures var a, row := ApproveOf(s, id, stated, rule).1, s.cbs[id];
            var matched := row.order.Some? && row.banker.Some? && row.channel.Some?;
            var decidable := row.state.Open() && matched;
            && (a == AlreadyDecided <==> !row.state.Open())
            && (a == NotMatchedYet <==> row.state.Open() && !matched)
            && (a == NoRule <==> decidable && stated.None? && rule.None?)
            && (a == BadAmount <==> decidable && (stated.Some? || rule.Some?) && !(0 <= debit <= row.amount))
            && (a == Ok <==> decidable && (stated.Some? || rule.Some?) && 0 <= debit <= row.amount)
            && (a != Ok ==> ApproveOf(s, id, stated, rule).0 == s)
  {
    if stated.None? && rule.Some? { RuleDebitIs(s.cbs[id].amount, rule.value, debit); }
  }

  /** What an accepted approval writes: one debit, marked when a person stated it, and the state it comes to. */
  lemma ApprovalWrites(s: State, id: nat, stated: Option<int>, rule: Option<Rules.Rule>, debit: int)
    requires id in s.cbs && ApproveOf(s, id, stated, rule).1 == Ok
    requires IsApproved(s.cbs[id].amount, stated, rule, debit)
    ensures var t, row := ApproveOf(s, id, stated, rule).0, s.cbs[id];
            && row.order.Some? && t.payins == s.payins && id in t.cbs && t.cbs == s.cbs[id := t.cbs[id]]
            && t.postings == s.postings
                 + (if debit > 0 then [Posting(id, row.order.value, Debit, debit, stated.Some?, None)] else [])
            && t.cbs[id].debited == row.debited + debit && t.cbs[id].reversed == row.reversed
            && t.cbs[id].order == row.order && t.cbs[id].amount == row.amount && t.cbs[id].channel == row.channel
            && t.cbs[id].banker == row.banker
            && t.cbs[id].state ==
                 (if debit == 0 then Matched else if debit < row.amount then PartialDebit else DebitPosted)
            && (stated.Some? ==> t.cbs[id].calculated == row.calculated)
            && (stated.None? ==> debit >= 0 && t.cbs[id].calculated == Some(debit))
  {
    if stated.None? { RuleDebitIs(s.cbs[id].amount, rule.value, debit); }
    assert s.postings + [] == s.postings;
  }

  predicate GivesBack(p: Posting, id: nat, order: nat, amount: int) {
    p.cb == id && p.order == order && p.kind == Reversal && p.amount == amount && !p.overridden
  }

  /** The answer of a reversal, and what it writes: a new posting, and all given back is reversed. */
  lemma ReversalExactly(s: State, id: nat, stated: Option<int>)
    requires id in s.cbs && s.cbs[id].order.Some?
    ensures var (t, a) := ReverseOf(s, id, stated); var row := s.cbs[id];
            var left := row.debited - row.reversed; var amount := if stated.Some? then stated.value else left;
            && (a == NothingToReverse <==> left <= 0)
            && (a == BadAmount <==> left > 0 && !(0 < amount <= left))
            && (a == Ok <==> left > 0 && 0 < amount <= left)
            && (a != Ok ==> t == s)
            && (a == Ok ==>
                  && t.payins == s.payins && id in t.cbs && |t.postings| == |s.postings| + 1
                  && t.postings[..|s.postings|] == s.postings
                  && GivesBack(t.postings[|s.postings|], id, row.order.value, amount)
                  && t.cbs == s.cbs[id := row.(reversed := row.reversed + amount, state := t.cbs[id].state)]
                  && (row.debited > 0 && amount == left ==> t.cbs[id].state == Reversed)
                  && (amount < left ==>
                        t.cbs[id].state == if row.debited < row.amount then PartialDebit else DebitPosted))
  {
  }

  /** A reversal names the newest debit of its chargeback. */
  lemma {:induction false} LastDebitIsNewest(ps: seq<Posting>, cb: nat, k: nat)
    requires k < |ps| && ps[k].cb == cb && ps[k].kind.Debit?
    ensures LastDebit(ps, cb).Some? && k <= LastDebit(ps, cb).value
  {
    var n := |ps| - 1;
    if !(ps[n].cb == cb && ps[n].kind.Debit?) { LastDebitIsNewest(ps[..n], cb, k); }
  }

  /** A dismissal: only of a chargeback with no debit that is not dismissed yet, and it closes it. */
  lemma DismissalExactly(s: State, id: nat)
    ensures var (t, a) := DismissOf(s, id);
            && (a == NotFound <==> id !in s.cbs)
            && (a == Ok <==> id in s.cbs && s.cbs[id].debited == 0 && s.cbs[id].state != Dismissed)
            && (a != Ok ==> t == s)
            && (a == Ok ==>
                  && t.payins == s.payins && t.postings == s.postings && t.cbs.Keys == s.cbs.Keys
                  && (forall c :: c in s.cbs && c != id ==> t.cbs[c] == s.cbs[c])
                  && t.cbs[id].state == Dismissed && t.cbs[id].order == s.cbs[id].order
                  && t.cbs[id].amount == s.cbs[id].amount)
  {
  }

  /** What is wrong with a chain, each thing named exactly when it is. */
  lemma ProblemsExactly(c: Chargeback, orderChannel: Option<Rules.Channel>, overridden: bool)
    ensures var ps, live := ChainProblems(c, orderChannel, overridden), c.state != Dismissed;
            var posted := c.state == DebitPosted || c.state == PartialDebit || c.state == Reversed;
            && (NotMatched in ps <==> live && c.order.None?)
            && (WrongChannel in ps <==> live && c.order.Some? && orderChannel.Some? && c.channel != orderChannel)
            && (Waiting in ps <==>
                  c.order.Some? && (c.state == PendingMatch || c.state == ManualReview || c.state == RuleException))
            && (PostedOtherThanCalculated in ps <==>
                  c.order.Some? && posted && !overridden && c.calculated.Some? && c.calculated.value != c.debited)
  {
  }

  // ── Where every posting of a run came from ──────────────────────────────────────────────────

  /** An evaluation that may debit posted this. */
  ghost predicate EarnedByRule(s: State, step: Step, p: Posting) {
    && step.Evaluate? && step.found == To(p.order) && step.id == p.cb && !p.overridden
    && p.cb in s.cbs && s.cbs[p.cb].state.Open() && p.order in s.payins
    && FitsPayin(s, p.cb, p.order) && s.payins[p.order].banker.Some?
    && step.rule.Some? && p.amount > 0 && IsRuleDebit(s.cbs[p.cb].amount, step.rule.value, p.amount)
    && DebitsByItself(step.rule.value, p.amount)
  }

  /** A person approved this, of an open chargeback matched to the pay-in. */
  ghost predicate ByPerson(s: State, step: Step, p: Posting) {
    && step.Approve? && step.id == p.cb && p.overridden == step.stated.Some?
    && p.cb in s.cbs && s.cbs[p.cb].state.Open() && s.cbs[p.cb].order == Some(p.order)
    && 0 < p.amount <= s.cbs[p.cb].amount && IsApproved(s.cbs[p.cb].amount, step.stated, step.rule, p.amount)
  }

  /** A reversal gave this back. */
  ghost predicate GivenBack(s: State, step: Step, p: Posting) {
    && step.Reverse? && step.id == p.cb && p.cb in s.cbs && s.cbs[p.cb].order == Some(p.order)
    && 0 < p.amount <= s.cbs[p.cb].debited - s.cbs[p.cb].reversed
  }

  ghost predicate Warranted(s: State, step: Step, p: Posting) {
    if p.kind.Reversal? then GivenBack(s, step, p) else EarnedByRule(s, step, p) || ByPerson(s, step, p)
  }

  lemma EvaluationPosts(s: State, id: nat, order: nat, rule: Option<Rules.Rule>)
    requires id in s.cbs && s.cbs[id].state.Open() && order in s.payins
    ensures var step := Evaluate(id, To(order), rule); var t := Apply(s, step);
            t.postings == s.postings || exists p :: t.postings == s.postings + [p] && Warranted(s, step, p)
  {
    var debit := if rule.Some? then Rules.RuleDebit(s.cbs[id].amount, rule.value.debitBps) else 0;
    if rule.Some? { RuleDebitIs(s.cbs[id].amount, rule.value, debit); }
    MatchedDebitsExactly(s, id, order, rule, debit);
    var step := Evaluate(id, To(order), rule);
    var t := Apply(s, step);
    if t.postings != s.postings {
      var p := Posting(id, order, Debit, debit, false, None);
      assert t.postings == s.postings + [p] && Warranted(s, step, p);
    }
  }

  lemma ApprovalPosts(s: State, id: nat, stated: Option<int>, rule: Option<Rules.Rule>)
    requires id in s.cbs
    ensures var step := Approve(id, stated, rule); var t := Apply(s, step);
            t.postings == s.postings || exists p :: t.postings == s.postings + [p] && Warranted(s, step, p)
  {
    var step := Approve(id, stated, rule);
    var t := Apply(s, step);
    if ApproveOf(s, id, stated, rule).1 == Ok {
      var debit: int := if stated.Some? then stated.value else Rules.RuleDebit(s.cbs[id].amount, rule.value.debitBps);
      if stated.None? { RuleDebitIs(s.cbs[id].amount, rule.value, debit); }
      ApprovalAnswersExactly(s, id, stated, rule, debit);
      ApprovalWrites(s, id, stated, rule, debit);
      if debit > 0 {
        var p := Posting(id, s.cbs[id].order.value, Debit, debit, stated.Some?, None);
        assert t.postings == s.postings + [p] && Warranted(s, step, p);
      }
    }
  }

  lemma ReversalPosts(s: State, id: nat, stated: Option<int>)
    requires id in s.cbs
    ensures var step := Reverse(id, stated); var t := Apply(s, step);
            t.postings == s.postings || exists p :: t.postings == s.postings + [p] && Warranted(s, step, p)
  {
    var step := Reverse(id, stated);
    var t := Apply(s, step);
    if ReverseOf(s, id, stated).1 == Ok {
      var p := t.postings[|s.postings|];
      assert t.postings == s.postings + [p] && Warranted(s, step, p);
    }
  }

  /** A step posts at most once, and what it posts it may. */
  lemma StepPosts(s: State, step: Step)
    ensures var t := Apply(s, step);
            t.postings == s.postings || exists p :: t.postings == s.postings + [p] && Warranted(s, step, p)
  {
    match step
    case Evaluate(id, m, rule) =>
      if id in s.cbs && s.cbs[id].state.Open() && m.To? && m.order in s.payins {
        EvaluationPosts(s, id, m.order, rule);
      }
    case Approve(id, stated, rule) => if id in s.cbs { ApprovalPosts(s, id, stated, rule); }
    case Reverse(id, stated) => if id in s.cbs { ReversalPosts(s, id, stated); }
    case _ =>
  }

  lemma {:induction false} RunLast(s: State, steps: seq<Step>)
    requires steps != []
    ensures Run(s, steps) == Apply(Run(s, steps[..|steps| - 1]), steps[|steps| - 1])
    decreases |steps|
  {
    var t := Apply(s, steps[0]);
    if |steps| == 1 {
      assert steps[..0] == [] && steps[1..] == [];
    } else {
      RunLast(t, steps[1..]);
      assert steps[1..][..|steps| - 2] == steps[..|steps| - 1][1..];
    }
  }

  /** Step `j` made posting `k`, and might. */
  ghost predicate MadeAt(steps: seq<Step>, j: nat, k: nat, p: Posting) {
    j < |steps| && |Run(Empty, steps[..j]).postings| == k && Warranted(Run(Empty, steps[..j]), steps[j], p)
  }

  /**
   Every posting of every run was warranted when it was made: a debit by an evaluation that might debit by itself or
   by a person's approval, a reversal within what was still debited.
   */
  lemma {:induction false} EveryPostingWarranted(steps: seq<Step>, k: nat)
    requires k < |Run(Empty, steps).postings|
    ensures exists j: nat :: MadeAt(steps, j, k, Run(Empty, steps).postings[k])
    decreases |steps|
  {
    if steps != [] {
      var n := |steps| - 1;
      var init := steps[..n];
      var s, t := Run(Empty, init), Run(Empty, steps);
      RunLast(Empty, steps);
      StepPosts(s, steps[n]);
      if k < |s.postings| {
        EveryPostingWarranted(init, k);
        var j: nat :| MadeAt(init, j, k, s.postings[k]);
        assert init[..j] == steps[..j] && MadeAt(steps, j, k, t.postings[k]);
      } else {
        assert MadeAt(steps, n, k, t.postings[k]);
      }
    }
  }
}
