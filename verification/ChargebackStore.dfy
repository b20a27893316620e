/**
 Chargebacks as evaluated, approved, reversed and dismissed (apps/admin-dashboard/src/lib/
 chargebacks-store.ts, lines 332-531, and decideChargeback, stateAfterPostings and chainProblems of
 chargeback-rules.ts). Each call is one step. Which pay-in a record matches and which rule is picked
 are arguments.
 */
module ChargebackStore {
  import opened Options
  import opened SetSums
  import opened ChargebackRules

  datatype CbState = PendingMatch | Matched | ManualReview | RuleException | DebitPosted | PartialDebit | Reversed | Dismissed
  {
    /** Still needs a match, a rule or a person. */
    predicate Open() { PendingMatch? || ManualReview? || RuleException? }
  }

  /** A pay-in; `banker` is its merchant_id, absent on an order that has none. */
  datatype Payin = Payin(paid: bool, amount: nat, channel: Channel, banker: Option<string>)

  datatype Chargeback = Chargeback(amount: nat, order: Option<nat>, banker: Option<string>, channel: Option<Channel>,
                                   calculated: Option<nat>, debited: int, reversed: int, state: CbState)

  datatype Kind = Debit | Reversal

  /** An append-only posting; `overridden` marks an amount a person stated. */
  datatype Posting = Posting(cb: nat, order: nat, kind: Kind, amount: int, overridden: bool, reverses: Option<nat>)

  datatype State = State(payins: map<nat, Payin>, cbs: map<nat, Chargeback>, postings: seq<Posting>)

  const Empty: State := State(map[], map[], [])

  // ── Decisions ───────────────────────────────────────────────────────────────────────────────

  /** `debit` is present when the rule decided the amount, 0 included. */
  datatype Decision = Decision(state: CbState, debit: Option<nat>)

  function Decide(amount: nat, order: Option<Payin>, candidates: nat, claimed: int, rule: Option<Rule>): Decision {
    if order.None? then Decision(if candidates > 1 then ManualReview else PendingMatch, None)
    else if !order.value.paid then Decision(ManualReview, None)
    else if amount > order.value.amount then Decision(ManualReview, None)
    else if claimed + amount > order.value.amount then Decision(ManualReview, None)
    else if rule.None? then Decision(RuleException, None)
    else
      var debit := RuleDebit(amount, rule.value.debitBps);
      if !rule.value.autoDebit then Decision(ManualReview, None)
      else if rule.value.autoMax.Some? && debit > rule.value.autoMax.value then Decision(ManualReview, None)
      else if debit <= 0 then Decision(Matched, Some(0))
      else Decision(if debit >= amount then DebitPosted else PartialDebit, Some(debit))
  }

  /** stateAfterPostings. */
  function StateAfter(amount: int, debited: int, reversed: int): CbState {
    if debited > 0 && reversed >= debited then Reversed
    else if debited >= amount then DebitPosted else PartialDebit
  }

  datatype Trouble = NotMatched | WrongChannel | Waiting | PostedOtherThanCalculated

  /** chainProblems: what is wrong with a chargeback's chain; empty when it is reconciled. */
  function ChainProblems(c: Chargeback, orderChannel: Option<Channel>, overridden: bool): seq<Trouble> {
    if c.state.Dismissed? then []
    else if c.order.None? then [NotMatched]
    else
      (if orderChannel.Some? && c.channel != orderChannel then [WrongChannel] else [])
      + (if c.state.Open() then [Waiting] else [])
      + (if (c.state.DebitPosted? || c.state.PartialDebit? || c.state.Reversed?) && !overridden
            && c.calculated.Some? && c.debited != c.calculated.value then [PostedOtherThanCalculated] else [])
  }

  // ── Reading the tables ──────────────────────────────────────────────────────────────────────

  function AmountIn(cbs: map<nat, Chargeback>): nat -> int {
    (c: nat) => if c in cbs then cbs[c].amount else 0
  }

  /** The other chargebacks that claim of a pay-in. */
  ghost function Claimants(cbs: map<nat, Chargeback>, order: nat, except: nat): set<nat> {
    set c | c in cbs && cbs[c].order == Some(order) && c != except && !cbs[c].state.Dismissed?
        && !cbs[c].state.Reversed?
  }

  /** claimedByOthers. */
  ghost function Claimed(cbs: map<nat, Chargeback>, order: nat, except: nat): int {
    SumOver(Claimants(cbs, order, except), AmountIn(cbs))
  }

  function Posted(ps: seq<Posting>, cb: nat, k: Kind): int {
    if ps == [] then 0
    else Posted(ps[..|ps| - 1], cb, k) + (if ps[|ps| - 1].cb == cb && ps[|ps| - 1].kind == k then ps[|ps| - 1].amount else 0)
  }

  function Debits(ps: seq<Posting>, cb: nat): nat {
    if ps == [] then 0
    else Debits(ps[..|ps| - 1], cb) + (if ps[|ps| - 1].cb == cb && ps[|ps| - 1].kind.Debit? then 1 else 0)
  }

  /** Whether a person stated the debit. */
  predicate Overridden(ps: seq<Posting>, cb: nat) {
    exists k :: 0 <= k < |ps| && ps[k].cb == cb && ps[k].kind.Debit? && ps[k].overridden
  }

  /** The latest debit posting of a chargeback. */
  function LastDebit(ps: seq<Posting>, cb: nat): Option<nat> {
    if ps == [] then None
    else if ps[|ps| - 1].cb == cb && ps[|ps| - 1].kind.Debit? then Some(|ps| - 1)
    else LastDebit(ps[..|ps| - 1], cb)
  }

  // ── Steps ───────────────────────────────────────────────────────────────────────────────────

  /** What matching found: one pay-in, or how many fit, and whether only the other channel's did. */
  datatype Match = To(order: nat) | Nothing(candidates: nat, otherChannel: bool)

  datatype Answer = Ok | NotFound | AlreadyDecided | NotMatchedYet | NoRule | BadAmount | NothingToReverse | CannotDismiss

  /** The row after an evaluation, and the debit posted with it. */
  datatype Evaluation = Evaluation(row: Chargeback, debit: Option<nat>)

  /** `payin` is the matched pay-in, `claimed` what others already claim of it. */
  function Evaluated(row: Chargeback, m: Match, payin: Option<Payin>, claimed: int, rule: Option<Rule>): Evaluation {
    match payin
    case None =>
      var d := Decide(row.amount, None, if m.Nothing? then m.candidates else 0, 0, None);
      var state := if m.Nothing? && m.otherChannel && d.state.PendingMatch? then ManualReview else d.state;
      Evaluation(row.(order := None, channel := None, calculated := None, state := state), None)
    case Some(p) =>
      var d := Decide(row.amount, payin, 1, claimed, rule);
      var calculated := if rule.Some? then Some(RuleDebit(row.amount, rule.value.debitBps)) else None;
      var posts := (d.state.DebitPosted? || d.state.PartialDebit?) && p.banker.Some?;
      var next := row.(order := if m.To? then Some(m.order) else None, banker := if p.banker.Some? then p.banker else row.banker,
                       channel := Some(p.channel), calculated := calculated, state := d.state);
      if posts then Evaluation(next.(debited := row.debited + d.debit.value), d.debit) else Evaluation(next, None)
  }

  ghost function EvaluationOf(s: State, id: nat, m: Match, rule: Option<Rule>): Evaluation
    requires id in s.cbs && (m.To? ==> m.order in s.payins)
  {
    match m
    case To(o) => Evaluated(s.cbs[id], m, Some(s.payins[o]), Claimed(s.cbs, o, id), rule)
    case Nothing(_, _) => Evaluated(s.cbs[id], m, None, 0, None)
  }

  ghost function EvaluateOf(s: State, id: nat, m: Match, rule: Option<Rule>): State {
    if id !in s.cbs || !s.cbs[id].state.Open() || (m.To? && m.order !in s.payins) then s
    else
      var e := EvaluationOf(s, id, m, rule);
      s.(cbs := s.cbs[id := e.row],
         postings := s.postings + (if e.debit.Some? && m.To? then [Posting(id, m.order, Debit, e.debit.value, false, None)] else []))
  }

  /** A person's decision: the rule's debit, or the stated amount. */
  function ApproveOf(s: State, id: nat, stated: Option<int>, rule: Option<Rule>): (State, Answer) {
    if id !in s.cbs then (s, NotFound)
    else
      var row := s.cbs[id];
      if !row.state.Open() then (s, AlreadyDecided)
      else if row.order.None? || row.banker.None? || row.channel.None? then (s, NotMatchedYet)
      else if stated.None? && rule.None? then (s, NoRule)
      else
        var amount := if stated.Some? then stated.value else RuleDebit(row.amount, rule.value.debitBps);
        if amount < 0 || amount > row.amount then (s, BadAmount)
        else
          var state := if amount > 0 then StateAfter(row.amount, amount, 0) else Matched;
          var calculated := if stated.None? then Some(amount) else row.calculated;
          var posting := Posting(id, row.order.value, Debit, amount, stated.Some?, None);
          (s.(cbs := s.cbs[id := row.(debited := row.debited + amount, state := state, calculated := calculated)],
              postings := s.postings + (if amount > 0 then [posting] else [])), Ok)
  }

  function ReverseOf(s: State, id: nat, stated: Option<int>): (State, Answer) {
    if id !in s.cbs then (s, NotFound)
    else
      var row := s.cbs[id];
      var open := row.debited - row.reversed;
      if open <= 0 then (s, NothingToReverse)
      else
        var amount := if stated.Some? then stated.value else open;
        if amount <= 0 || amount > open || row.order.None? then (s, BadAmount)
        else
          var posting := Posting(id, row.order.value, Reversal, amount, false, LastDebit(s.postings, id));
          (s.(cbs := s.cbs[id := row.(reversed := row.reversed + amount, state := StateAfter(row.amount, row.debited, row.reversed + amount))],
              postings := s.postings + [posting]), Ok)
  }

  function DismissOf(s: State, id: nat): (State, Answer) {
    if id !in s.cbs then (s, NotFound)
    else if s.cbs[id].debited != 0 || s.cbs[id].state.Dismissed? then (s, CannotDismiss)
    else (s.(cbs := s.cbs[id := s.cbs[id].(state := Dismissed)]), Ok)
  }

  datatype Step =
    | AddPayin(order: nat, payin: Payin)
    | Ingest(id: nat, amount: nat, banker: Option<string>)
    | Evaluate(id: nat, found: Match, rule: Option<Rule>)
    | Approve(id: nat, stated: Option<int>, rule: Option<Rule>)
    | Reverse(id: nat, stated: Option<int>)
    | Dismiss(id: nat)

  ghost function Apply(s: State, step: Step): State {
    match step
    case AddPayin(o, p) => if o in s.payins then s else s.(payins := s.payins[o := p])
    case Ingest(id, a, b) =>
      if id in s.cbs || a == 0 then s
          else s.(cbs := s.cbs[id := Chargeback(a, None, b, None, None, 0, 0, PendingMatch)])
    case Evaluate(id, m, r) => EvaluateOf(s, id, m, r)
    case Approve(id, a, r) => ApproveOf(s, id, a, r).0
    case Reverse(id, a) => ReverseOf(s, id, a).0
    case Dismiss(id) => DismissOf(s, id).0
  }

  ghost function Run(s: State, steps: seq<Step>): State
    decreases |steps|
  {
    if steps == [] then s else Run(Apply(s, steps[0]), steps[1..])
  }

  // ── What every state keeps ──────────────────────────────────────────────────────────────────

  /** Reads as debited though nothing was posted. */
  predicate DebitedInName(c: Chargeback) {
    c.debited == 0 && (c.state.DebitPosted? || c.state.PartialDebit?)
  }

  predicate HasBanker(s: State, c: Chargeback) {
    c.order.Some? && c.order.value in s.payins && s.payins[c.order.value].banker.Some?
  }

  /** The row against its postings and its pay-in. */
  ghost predicate Fits(s: State, id: nat) {
    id in s.cbs ==>
      var c := s.cbs[id];
      && 0 <= c.reversed <= c.debited <= c.amount && c.amount > 0
      && c.debited == Posted(s.postings, id, Debit) && c.reversed == Posted(s.postings, id, Reversal)
      && Debits(s.postings, id) == (if c.debited > 0 then 1 else 0)
      && (c.debited > 0 ==> c.state == StateAfter(c.amount, c.debited, c.reversed))
      && (c.debited == 0 ==> !Overridden(s.postings, id) && !c.state.Reversed?)
      && (DebitedInName(c) ==> c.calculated.Some? && c.calculated.value > 0 && !HasBanker(s, c))
      && (c.order.Some? ==> c.order.value in s.payins && c.channel == Some(s.payins[c.order.value].channel))
      && (!c.state.Open() && !c.state.Dismissed? ==> c.order.Some?)
      && (c.debited > 0 && !Overridden(s.postings, id) ==> c.calculated == Some(c.debited))
  }

  ghost predicate Unposted(s: State, id: nat) {
    id !in s.cbs ==> Posted(s.postings, id, Debit) == 0 && Posted(s.postings, id, Reversal) == 0
                     && Debits(s.postings, id) == 0 && !Overridden(s.postings, id)
  }

  ghost predicate Inv(s: State) {
    forall id :: Fits(s, id) && Unposted(s, id)
  }

  lemma PostedPush(ps: seq<Posting>, p: Posting, cb: nat)
    ensures forall k :: Posted(ps + [p], cb, k) == Posted(ps, cb, k) + (if p.cb == cb && p.kind == k then p.amount else 0)
    ensures Debits(ps + [p], cb) == Debits(ps, cb) + (if p.cb == cb && p.kind.Debit? then 1 else 0)
    ensures Overridden(ps + [p], cb) <==> Overridden(ps, cb) || (p.cb == cb && p.kind.Debit? && p.overridden)
  {
    var q := ps + [p];
    assert q[..|ps|] == ps;
    if Overridden(ps, cb) {
      var k :| 0 <= k < |ps| && ps[k].cb == cb && ps[k].kind.Debit? && ps[k].overridden;
      assert q[k] == ps[k];
    }
    if p.cb == cb && p.kind.Debit? && p.overridden { assert q[|ps|] == p; }
  }

  /** The step writes one row and posts at most once, for that row. */
  ghost predicate WritesOnly(s: State, t: State, id: nat) {
    && t.payins == s.payins && t.cbs.Keys == s.cbs.Keys
    && (forall c :: c in s.cbs && c != id ==> t.cbs[c] == s.cbs[c])
    && (t.postings == s.postings || (|t.postings| == |s.postings| + 1 && t.postings[|s.postings|].cb == id
                                     && t.postings == s.postings + [t.postings[|s.postings|]]))
  }

  /** On an open row: a debit and its state, a debit in name on a pay-in without a banker, or no debit. */
  lemma EvaluatedFits(row: Chargeback, m: Match, payin: Option<Payin>, claimed: int, rule: Option<Rule>)
    requires m.To? == payin.Some? && row.debited == row.reversed == 0
    ensures var e := Evaluated(row, m, payin, claimed, rule);
            && e.row.amount == row.amount && e.row.reversed == 0
            && e.row.order == (if m.To? then Some(m.order) else None)
            && e.row.channel == (if m.To? then Some(payin.value.channel) else None)
            && (e.debit.Some? ==> m.To? && 0 < e.debit.value <= row.amount && e.row.debited == e.debit.value
                                  && e.row.state == StateAfter(row.amount, e.debit.value, 0)
                                     && e.row.calculated == e.debit)
            && (e.debit.None? ==> e.row.debited == 0 && !e.row.state.Reversed? && !e.row.state.Dismissed?)
            && (e.debit.None? && !e.row.state.Open() ==> m.To?)
            && (DebitedInName(e.row) ==> m.To? && e.row.calculated.Some? && e.row.calculated.value > 0 && payin.value.banker.None?)
  {
    if rule.Some? { RuleDebitWithinAmount(row.amount, rule.value.debitBps); }
  }

  /** The row is of its pay-in's channel. */
  predicate OfItsPayin(s: State, c: Chargeback) {
    c.order.Some? ==> c.order.value in s.payins && c.channel == Some(s.payins[c.order.value].channel)
  }

  /** A debit on a row with none yet, and the row that says so. */
  lemma DebitFits(s: State, id: nat, row: Chargeback, p: Posting)
    requires id in s.cbs && Fits(s, id) && s.cbs[id].debited == 0
    requires row.amount == s.cbs[id].amount && row.reversed == 0 && row.order.Some? && OfItsPayin(s, row)
    requires p.cb == id && p.kind.Debit? && 0 < p.amount == row.debited <= row.amount
    requires row.state == StateAfter(row.amount, row.debited, 0) && (!p.overridden ==> row.calculated == Some(p.amount))
    ensures Fits(State(s.payins, s.cbs[id := row], s.postings + [p]), id)
  {
    PostedPush(s.postings, p, id);
  }

  /** A row that stays without a debit. */
  lemma NoDebitFits(s: State, id: nat, row: Chargeback)
    requires id in s.cbs && Fits(s, id) && s.cbs[id].debited == 0
    requires row.amount == s.cbs[id].amount && row.debited == row.reversed == 0 && !row.state.Reversed?
    requires OfItsPayin(s, row)
    requires !row.state.Open() && !row.state.Dismissed? ==> row.order.Some?
    requires DebitedInName(row) ==> row.calculated.Some? && row.calculated.value > 0 && !HasBanker(s, row)
    ensures Fits(s.(cbs := s.cbs[id := row]), id)
  {
  }

  lemma EvaluateFits(s: State, id: nat, m: Match, rule: Option<Rule>)
    requires Fits(s, id) && id in s.cbs
    ensures Fits(EvaluateOf(s, id, m, rule), id) && WritesOnly(s, EvaluateOf(s, id, m, rule), id)
  {
    var t := EvaluateOf(s, id, m, rule);
    if s.cbs[id].state.Open() && (m.To? ==> m.order in s.payins) {
      var payin, claimed := if m.To? then Some(s.payins[m.order]) else None, if m.To? then Claimed(s.cbs, m.order, id)
        else 0;
      var picked := if m.To? then rule else None;
      var e := Evaluated(s.cbs[id], m, payin, claimed, picked);
      EvaluatedFits(s.cbs[id], m, payin, claimed, picked);
      if e.debit.Some? {
        var p := Posting(id, m.order, Debit, e.debit.value, false, None);
        assert t == State(s.payins, s.cbs[id := e.row], s.postings + [p]);
        DebitFits(s, id, e.row, p);
      } else {
        assert t == s.(cbs := s.cbs[id := e.row]);
        NoDebitFits(s, id, e.row);
      }
    }
  }

  /** An accepted approval debits the row by its amount and posts it, or leaves it without a debit. */
  lemma ApprovalIs(s: State, id: nat, stated: Option<int>, rule: Option<Rule>) returns (amount: int)
    requires ApproveOf(s, id, stated, rule).1 == Ok
    ensures id in s.cbs && s.cbs[id].state.Open() && s.cbs[id].order.Some? && 0 <= amount <= s.cbs[id].amount
    ensures stated.None? ==> amount == RuleDebit(s.cbs[id].amount, rule.value.debitBps)
    ensures var row, t := s.cbs[id], ApproveOf(s, id, stated, rule).0;
            var calculated := if stated.None? then Some(amount) else row.calculated;
            if amount > 0 then
              t == State(s.payins,
                         s.cbs[id := row.(debited := row.debited + amount, state := StateAfter(row.amount, amount, 0), calculated := calculated)],
                         s.postings + [Posting(id, row.order.value, Debit, amount, stated.Some?, None)])
            else t == s.(cbs := s.cbs[id := row.(state := Matched, calculated := calculated)])
  {
    amount := if stated.Some? then stated.value else RuleDebit(s.cbs[id].amount, rule.value.debitBps);
  }

  lemma ApproveFits(s: State, id: nat, stated: Option<int>, rule: Option<Rule>)
    requires Fits(s, id) && id in s.cbs
    ensures Fits(ApproveOf(s, id, stated, rule).0, id) && WritesOnly(s, ApproveOf(s, id, stated, rule).0, id)
  {
    var t := ApproveOf(s, id, stated, rule).0;
    if ApproveOf(s, id, stated, rule).1 == Ok {
      var amount := ApprovalIs(s, id, stated, rule);
      if amount > 0 {
        DebitFits(s, id, t.cbs[id], Posting(id, s.cbs[id].order.value, Debit, amount, stated.Some?, None));
      } else {
        NoDebitFits(s, id, t.cbs[id]);
      }
    }
  }

  lemma ReverseFits(s: State, id: nat, stated: Option<int>)
    requires Fits(s, id) && id in s.cbs
    ensures Fits(ReverseOf(s, id, stated).0, id) && WritesOnly(s, ReverseOf(s, id, stated).0, id)
  {
    var t := ReverseOf(s, id, stated).0;
    assert Fits(s, id);
    if t.postings != s.postings { PostedPush(s.postings, t.postings[|s.postings|], id); }
  }

  lemma RowStepKeeps(s: State, t: State, id: nat)
    requires Inv(s) && id in s.cbs && WritesOnly(s, t, id) && Fits(t, id)
    ensures Inv(t)
  {
    forall c ensures Fits(t, c) && Unposted(t, c) {
      if c != id {
        assert Fits(s, c) && Unposted(s, c);
        if t.postings != s.postings { PostedPush(s.postings, t.postings[|s.postings|], c); }
      }
    }
  }

  lemma DismissFits(s: State, id: nat)
    requires Fits(s, id) && id in s.cbs
    ensures Fits(DismissOf(s, id).0, id) && WritesOnly(s, DismissOf(s, id).0, id)
  {
  }

  /** A new record with nothing posted, or a new pay-in. */
  lemma ArrivalKeeps(s: State, step: Step)
    requires Inv(s) && (step.AddPayin? || step.Ingest?)
    ensures Inv(Apply(s, step))
  {
    var t := Apply(s, step);
    forall c ensures Fits(t, c) && Unposted(t, c) { assert Fits(s, c) && Unposted(s, c); }
  }

  lemma StepKeeps(s: State, step: Step)
    requires Inv(s)
    ensures Inv(Apply(s, step))
  {
    if step.AddPayin? || step.Ingest? {
      ArrivalKeeps(s, step);
    } else if step.id in s.cbs {
      assert Fits(s, step.id);
      match step {
        case Evaluate(id, m, r) => EvaluateFits(s, id, m, r);
        case Approve(id, a, r) => ApproveFits(s, id, a, r);
        case Reverse(id, a) => ReverseFits(s, id, a);
        case Dismiss(id) => DismissFits(s, id);
      }
      RowStepKeeps(s, Apply(s, step), step.id);
    }
  }

  lemma {:induction false} RunKeeps(s: State, steps: seq<Step>)
    requires Inv(s)
    ensures Inv(Run(s, steps))
    decreases |steps|
  {
    if steps != [] {
      StepKeeps(s, steps[0]);
      RunKeeps(Apply(s, steps[0]), steps[1..]);
    }
  }

  lemma Reachable(steps: seq<Step>)
    ensures Inv(Run(Empty, steps))
  {
    RunKeeps(Empty, steps);
  }

  // ── What the desk may rely on ───────────────────────────────────────────────────────────────

  /** Totals are the postings, one debit at most, reversals within it, and the state says what was posted. */
  lemma TotalsAreThePostings(steps: seq<Step>, id: nat)
    requires id in Run(Empty, steps).cbs
    ensures var s := Run(Empty, steps); var c := s.cbs[id];
            && 0 <= c.reversed <= c.debited <= c.amount
            && c.debited == Posted(s.postings, id, Debit) && c.reversed == Posted(s.postings, id, Reversal)
            && Debits(s.postings, id) <= 1
            && (c.debited > 0 ==> c.state == StateAfter(c.amount, c.debited, c.reversed))
  {
    Reachable(steps);
    assert Fits(Run(Empty, steps), id);
  }

  /**
   A chain has no problem exactly when the chargeback is no longer open and not debited in name only;
   that it can be only on a pay-in without a banker.
   */
  lemma ReconciledExactlyWhenClosed(steps: seq<Step>, id: nat)
    requires id in Run(Empty, steps).cbs
    ensures var s := Run(Empty, steps); var c := s.cbs[id];
            var orderChannel := if c.order.Some? && c.order.value in s.payins then
              Some(s.payins[c.order.value].channel) else None;
            && (ChainProblems(c, orderChannel, Overridden(s.postings, id)) == [] <==> !c.state.Open() && !DebitedInName(c))
            && (DebitedInName(c) ==> !HasBanker(s, c))
  {
    Reachable(steps);
    assert Fits(Run(Empty, steps), id);
  }

  /** What a decided chargeback keeps: its debit and its pay-in, and everything once reversed or dismissed. */
  ghost predicate StaysDecided(s: State, t: State, id: nat)
    requires id in s.cbs
  {
    && id in t.cbs && !t.cbs[id].state.Open() && t.cbs[id].debited == s.cbs[id].debited
       && t.cbs[id].order == s.cbs[id].order
    && (s.cbs[id].state.Reversed? || s.cbs[id].state.Dismissed? ==> t.cbs[id] == s.cbs[id])
  }

  lemma StepKeepsDecided(s: State, step: Step, id: nat)
    requires Fits(s, id) && id in s.cbs && !s.cbs[id].state.Open()
    ensures StaysDecided(s, Apply(s, step), id)
  {
  }

  lemma {:induction false} RunKeepsDecided(s: State, steps: seq<Step>, id: nat)
    requires Inv(s) && id in s.cbs && !s.cbs[id].state.Open()
    ensures StaysDecided(s, Run(s, steps), id)
    decreases |steps|
  {
    if steps != [] {
      assert Fits(s, id);
      StepKeepsDecided(s, steps[0], id);
      StepKeeps(s, steps[0]);
      RunKeepsDecided(Apply(s, steps[0]), steps[1..], id);
    }
  }

  /** Closed is for good: a decided chargeback is never decided again, and a reversed or dismissed one never changes. */
  lemma DecidedStaysDecided(before: seq<Step>, after: seq<Step>, id: nat)
    requires id in Run(Empty, before).cbs && !Run(Empty, before).cbs[id].state.Open()
    ensures StaysDecided(Run(Empty, before), Run(Run(Empty, before), after), id)
  {
    Reachable(before);
    RunKeepsDecided(Run(Empty, before), after, id);
  }

  /**
   A rule's debit is posted exactly when the matched pay-in has a banker; without one the row is
   left debited in name, with nothing posted, and its chain stays unreconciled.
   */
  lemma DebitPostedExactlyWithBanker(row: Chargeback, o: nat, p: Payin, claimed: int, rule: Option<Rule>)
    requires row.debited == 0
             && (var d := Decide(row.amount, Some(p), 1, claimed, rule); d.state.DebitPosted? || d.state.PartialDebit?)
    ensures var e := Evaluated(row, To(o), Some(p), claimed, rule);
            && (e.row.state.DebitPosted? || e.row.state.PartialDebit?)
            && (e.debit.Some? <==> p.banker.Some?)
            && (ChainProblems(e.row, Some(p.channel), false) == [] <==> p.banker.Some?)
  {
    RuleDebitWithinAmount(row.amount, rule.value.debitBps);
  }

  const Full: Rule := Rule(0, Scope(None, None, None, None), 10000, true, None, 1, 0, None)

  lemma RunOne(s: State, step: Step, rest: seq<Step>)
    ensures Run(s, [step] + rest) == Run(Apply(s, step), rest)
  {
    assert ([step] + rest)[1..] == rest;
  }

  /** A pay-in without a banker, charged back under a rule that debits all of it: debited in name, nothing posted. */
  lemma DebitedInNameOnly() returns (steps: seq<Step>)
    ensures var s := Run(Empty, steps);
            1 in s.cbs && s.cbs[1].state.DebitPosted? && s.cbs[1].debited == 0 && s.postings == []
  {
    var p := Payin(true, 100, Intent, None);
    var a, b, c := AddPayin(1, p), Ingest(1, 100, None), Evaluate(1, To(1), Some(Full));
    steps := [a] + ([b] + ([c] + []));
    var s2 := Apply(Apply(Empty, a), b);
    assert Claimants(s2.cbs, 1, 1) == {};
    RunOne(Empty, a, [b] + ([c] + []));
    RunOne(Apply(Empty, a), b, [c] + []);
    RunOne(s2, c, []);
  }

  lemma {:induction false} RunAppends(s: State, steps: seq<Step>)
    ensures s.postings <= Run(s, steps).postings
    decreases |steps|
  {
    if steps != [] { RunAppends(Apply(s, steps[0]), steps[1..]); }
  }

  /** Postings are never edited or removed, at any point of a run. */
  lemma PostingsAppendOnly(before: seq<Step>, after: seq<Step>)
    ensures Run(Empty, before).postings <= Run(Run(Empty, before), after).postings
  {
    RunAppends(Run(Empty, before), after);
  }

  lemma {:induction false} LastDebitIs(ps: seq<Posting>, cb: nat)
    ensures LastDebit(ps, cb).Some? <==> Debits(ps, cb) > 0
    ensures LastDebit(ps, cb).Some? ==> var k := LastDebit(ps, cb).value;
            k < |ps| && ps[k].cb == cb && ps[k].kind.Debit?
  {
    if ps != [] { LastDebitIs(ps[..|ps| - 1], cb); }
  }

  /** A reversal is a new posting that names its own chargeback's debit, for no more than is still debited. */
  lemma ReversalNamesItsDebit(steps: seq<Step>, id: nat, stated: Option<int>)
    requires id in Run(Empty, steps).cbs && ReverseOf(Run(Empty, steps), id, stated).1 == Ok
    ensures var s := Run(Empty, steps); var t := ReverseOf(s, id, stated).0; var n := |s.postings|;
            && |t.postings| == n + 1 && t.postings[n].kind.Reversal? && t.postings[n].cb == id
            && 0 < t.postings[n].amount <= s.cbs[id].debited - s.cbs[id].reversed
            && t.postings[n].reverses.Some? && t.postings[n].reverses.value < n
            && t.postings[t.postings[n].reverses.value].kind.Debit? && t.postings[t.postings[n].reverses.value].cb == id
  {
    Reachable(steps);
    assert Fits(Run(Empty, steps), id);
    LastDebitIs(Run(Empty, steps).postings, id);
  }

  // ── What decided chargebacks take of a pay-in ───────────────────────────────────────────────

  /** Decided and standing: neither open, dismissed nor wholly reversed. */
  ghost function Standing(cbs: map<nat, Chargeback>, order: nat): set<nat> {
    set c | c in cbs && cbs[c].order == Some(order) && !cbs[c].state.Open() && !cbs[c].state.Dismissed?
        && !cbs[c].state.Reversed?
  }

  ghost function Taken(cbs: map<nat, Chargeback>, order: nat): int {
    SumOver(Standing(cbs, order), AmountIn(cbs))
  }

  ghost predicate Within(s: State, order: nat) {
    order in s.payins ==> Taken(s.cbs, order) <= s.payins[order].amount
  }

  predicate NoApprovals(steps: seq<Step>) {
    forall k :: 0 <= k < |steps| ==> !steps[k].Approve?
  }

  lemma {:induction false} SubsetSum(a: set<nat>, b: set<nat>, f: nat -> int)
    requires a <= b && forall x :: x in b ==> f(x) >= 0
    ensures SumOver(a, f) <= SumOver(b, f)
    decreases b
  {
    if x :| x in b {
      SumOverTake(b, x, f);
      if x in a {
        SumOverTake(a, x, f);
        SubsetSum(a - {x}, b - {x}, f);
      } else {
        SubsetSum(a, b - {x}, f);
      }
    }
  }

  /** A step that makes no chargeback newly standing takes no more of a pay-in. */
  lemma StandingShrinks(a: map<nat, Chargeback>, b: map<nat, Chargeback>, order: nat)
    requires Standing(b, order) <= Standing(a, order)
    requires forall c :: c in Standing(b, order) ==> a[c].amount == b[c].amount
    ensures Taken(b, order) <= Taken(a, order)
  {
    SumOverSame(Standing(b, order), AmountIn(a), AmountIn(b));
    SubsetSum(Standing(b, order), Standing(a, order), AmountIn(a));
  }

  /** Standing chargebacks but one are among the claims the others make. */
  lemma StandingAmongClaims(cbs: map<nat, Chargeback>, order: nat, id: nat)
    ensures SumOver(Standing(cbs, order) - {id}, AmountIn(cbs)) <= Claimed(cbs, order, id)
  {
    SubsetSum(Standing(cbs, order) - {id}, Claimants(cbs, order, id), AmountIn(cbs));
  }

  /** An evaluation that decides on this pay-in fits beside all that others claim of it. */
  lemma EvaluateStandsWithin(s: State, id: nat, m: Match, rule: Option<Rule>, order: nat)
    requires id in s.cbs && s.cbs[id].state.Open() && order in s.payins
    requires id in Standing(EvaluateOf(s, id, m, rule).cbs, order)
    ensures m == To(order) && Claimed(s.cbs, order, id) + s.cbs[id].amount <= s.payins[order].amount
    ensures EvaluateOf(s, id, m, rule).cbs[id].amount == s.cbs[id].amount
  {
  }

  /** What stands then is what stood of the others, and this one. */
  lemma StandingJoins(a: map<nat, Chargeback>, b: map<nat, Chargeback>, order: nat, id: nat)
    requires id in a && id in b && b == a[id := b[id]] && b[id].amount == a[id].amount && id in Standing(b, order)
    ensures Taken(b, order) <= Claimed(a, order, id) + a[id].amount
  {
    StandingAmongClaims(a, order, id);
    assert Standing(b, order) == (Standing(a, order) - {id}) + {id};
    SumOverAdd(Standing(a, order) - {id}, id, AmountIn(b));
    SumOverSame(Standing(a, order) - {id}, AmountIn(a), AmountIn(b));
  }

  /** Otherwise nothing stands that did not. */
  lemma StandingLeaves(a: map<nat, Chargeback>, b: map<nat, Chargeback>, order: nat, id: nat)
    requires id in a && id in b && b == a[id := b[id]] && id !in Standing(b, order)
    ensures Taken(b, order) <= Taken(a, order)
  {
    StandingShrinks(a, b, order);
  }

  lemma EvaluateWithin(s: State, id: nat, m: Match, rule: Option<Rule>, order: nat)
    requires Inv(s) && Within(s, order) && id in s.cbs
    ensures Within(EvaluateOf(s, id, m, rule), order)
  {
    var t := EvaluateOf(s, id, m, rule);
    if s.cbs[id].state.Open() && order in s.payins {
      assert t.cbs == s.cbs[id := t.cbs[id]];
      if id in Standing(t.cbs, order) {
        EvaluateStandsWithin(s, id, m, rule, order);
        StandingJoins(s.cbs, t.cbs, order, id);
      } else {
        StandingLeaves(s.cbs, t.cbs, order, id);
      }
    }
  }

  lemma ReverseWithin(s: State, id: nat, stated: Option<int>, order: nat)
    requires Within(s, order) && id in s.cbs && Fits(s, id)
    ensures Within(ReverseOf(s, id, stated).0, order)
  {
    StandingShrinks(s.cbs, ReverseOf(s, id, stated).0.cbs, order);
  }

  lemma DismissWithin(s: State, id: nat, order: nat)
    requires Within(s, order)
    ensures Within(Apply(s, Dismiss(id)), order)
  {
    StandingShrinks(s.cbs, Apply(s, Dismiss(id)).cbs, order);
  }

  lemma ArrivalWithin(s: State, step: Step, order: nat)
    requires Within(s, order) && (step.Ingest? || step.AddPayin?)
             && (order !in s.payins ==> Standing(s.cbs, order) == {})
    ensures Within(Apply(s, step), order)
  {
    StandingShrinks(s.cbs, Apply(s, step).cbs, order);
  }

  lemma StepWithin(s: State, step: Step, order: nat)
    requires Inv(s) && Within(s, order) && !step.Approve? && (order !in s.payins ==> Standing(s.cbs, order) == {})
    ensures Within(Apply(s, step), order)
  {
    match step
    case Evaluate(id, m, r) => if id in s.cbs { EvaluateWithin(s, id, m, r, order); }
    case Reverse(id, a) => if id in s.cbs { assert Fits(s, id); ReverseWithin(s, id, a, order); }
    case Dismiss(id) => DismissWithin(s, id, order);
    case _ => ArrivalWithin(s, step, order);
  }

  lemma NothingStandsUnmatched(s: State, order: nat)
    requires Inv(s) && order !in s.payins
    ensures Standing(s.cbs, order) == {}
  {
    forall c | c in s.cbs ensures c !in Standing(s.cbs, order) { assert Fits(s, c); }
  }

  lemma {:induction false} RunWithin(s: State, steps: seq<Step>, order: nat)
    requires Inv(s) && Within(s, order) && NoApprovals(steps)
    ensures Within(Run(s, steps), order)
    decreases |steps|
  {
    if steps != [] {
      if order !in s.payins { NothingStandsUnmatched(s, order); }
      StepKeeps(s, steps[0]);
      StepWithin(s, steps[0], order);
      RunWithin(Apply(s, steps[0]), steps[1..], order);
    }
  }

  /** Rules alone never take more of a pay-in than it is worth. */
  lemma RulesNeverOverdraw(steps: seq<Step>, order: nat)
    requires NoApprovals(steps) && order in Run(Empty, steps).payins
    ensures Taken(Run(Empty, steps).cbs, order) <= Run(Empty, steps).payins[order].amount
  {
    RunWithin(Empty, steps, order);
  }

  /** A person's approval keeps that exactly when the claim still fits beside what stands. */
  lemma ApprovalOverdrawsExactly(s: State, id: nat, stated: Option<int>, rule: Option<Rule>)
    requires Inv(s) && ApproveOf(s, id, stated, rule).1 == Ok
    ensures var order := s.cbs[id].order.value;
            && order in s.payins
            && (Within(ApproveOf(s, id, stated, rule).0, order) <==> Taken(s.cbs, order) + s.cbs[id].amount <= s.payins[order].amount)
  {
    var t, order := ApproveOf(s, id, stated, rule).0, s.cbs[id].order.value;
    assert Fits(s, id);
    assert Standing(t.cbs, order) == Standing(s.cbs, order) + {id};
    SumOverAdd(Standing(s.cbs, order), id, AmountIn(t.cbs));
    SumOverSame(Standing(s.cbs, order), AmountIn(s.cbs), AmountIn(t.cbs));
  }

  /** A pay-in of 100 whose first chargeback, of all of it, a rule has debited. */
  const OneDebited: State :=
    State(map[1 := Payin(true, 100, Intent, Some("b"))],
          map[1 := Chargeback(100, Some(1), Some("b"), Some(Intent), Some(100), 100, 0, DebitPosted)],
          [Posting(1, 1, Debit, 100, false, None)])

  lemma RuleDebitsFirst(rest: seq<Step>)
    ensures var add, one, rule :=
            AddPayin(1, Payin(true, 100, Intent, Some("b"))), Ingest(1, 100, None), Evaluate(1, To(1), Some(Full));
            Run(Empty, [add] + ([one] + ([rule] + rest))) == Run(OneDebited, rest)
  {
    var add, one, rule := AddPayin(1, Payin(true, 100, Intent, Some("b"))), Ingest(1, 100, None),
      Evaluate(1, To(1), Some(Full));
    var s2 := Apply(Apply(Empty, add), one);
    assert Claimants(s2.cbs, 1, 1) == {};
    assert Apply(s2, rule) == OneDebited;
    RunOne(Empty, add, [one] + ([rule] + rest));
    RunOne(Apply(Empty, add), one, [rule] + rest);
    RunOne(s2, rule, rest);
  }

  const Pending: Chargeback := Chargeback(100, None, None, None, None, 0, 0, PendingMatch)
  const InReview: Chargeback := Chargeback(100, Some(1), Some("b"), Some(Intent), Some(100), 0, 0, ManualReview)

  const TwoIngested: State := OneDebited.(cbs := OneDebited.cbs[2 := Pending])

  /** A second chargeback of it is sent to a person. */
  lemma SecondToReview()
    ensures Apply(TwoIngested, Evaluate(2, To(1), Some(Full))) == OneDebited.(cbs := OneDebited.cbs[2 := InReview])
  {
    assert Claimants(TwoIngested.cbs, 1, 2) == {} + {1};
    SumOverAdd({}, 1, AmountIn(TwoIngested.cbs));
    assert Claimed(TwoIngested.cbs, 1, 2) == 100;
    assert Evaluated(Pending, To(1), Some(OneDebited.payins[1]), 100, Some(Full)) == Evaluation(InReview, None);
    assert TwoIngested.cbs[2 := InReview] == OneDebited.cbs[2 := InReview];
  }

  const Approved: Chargeback := InReview.(debited := 100, state := DebitPosted)

  /** The person approves it. */
  lemma SecondApproved()
    ensures Apply(OneDebited.(cbs := OneDebited.cbs[2 := InReview]), Approve(2, Some(100), None))
            == State(OneDebited.payins, OneDebited.cbs[2 := Approved], OneDebited.postings + [Posting(2, 1, Debit, 100, true, None)])
  {
    assert OneDebited.cbs[2 := InReview][2 := Approved] == OneDebited.cbs[2 := Approved];
  }

  lemma TakenOfTwo(cbs: map<nat, Chargeback>)
    requires Standing(cbs, 1) == {} + {1} + {2} && cbs[1].amount == cbs[2].amount == 100
    ensures Taken(cbs, 1) == 200
  {
    SumOverAdd({} + {1}, 2, AmountIn(cbs));
    SumOverAdd({}, 1, AmountIn(cbs));
  }

  lemma PersonDebitsSecond()
    ensures var s := Run(OneDebited, [Ingest(2, 100, None)] + ([Evaluate(2, To(1), Some(Full))] + ([Approve(2, Some(100), None)] + [])));
            s.payins == OneDebited.payins && Taken(s.cbs, 1) == 200
  {
    var two, review, approve := Ingest(2, 100, None), Evaluate(2, To(1), Some(Full)), Approve(2, Some(100), None);
    assert Apply(OneDebited, two) == TwoIngested;
    SecondToReview();
    SecondApproved();
    RunOne(OneDebited, two, [review] + ([approve] + []));
    RunOne(TwoIngested, review, [approve] + []);
    RunOne(OneDebited.(cbs := OneDebited.cbs[2 := InReview]), approve, []);
    var cbs := OneDebited.cbs[2 := Approved];
    assert Standing(cbs, 1) == {} + {1} + {2};
    TakenOfTwo(cbs);
  }

  /** So a run from nothing takes 200 of a pay-in of 100. */
  lemma ApprovalOverdraws() returns (steps: seq<Step>)
    ensures var s := Run(Empty, steps); 1 in s.payins && s.payins[1].amount == 100 && Taken(s.cbs, 1) == 200
  {
    var rest := [Ingest(2, 100, None)] + ([Evaluate(2, To(1), Some(Full))] + ([Approve(2, Some(100), None)] + []));
    steps := [AddPayin(1, Payin(true, 100, Intent, Some("b")))]
      + ([Ingest(1, 100, None)] + ([Evaluate(1, To(1), Some(Full))] + rest));
    RuleDebitsFirst(rest);
    PersonDebitsSecond();
  }

  // ── The tables ──────────────────────────────────────────────────────────────────────────────

  class Desk {
    var payins: map<nat, Payin>
    var cbs: map<nat, Chargeback>
    var postings: seq<Posting>

    ghost function View(): State
      reads this
    {
      State(payins, cbs, postings)
    }

    constructor ()
      ensures View() == Empty
    {
      payins, cbs, postings := map[], map[], [];
    }

    /** claimedByOthers. */
    method ClaimedByOthers(order: nat, except: nat) returns (sum: int)
      ensures sum == Claimed(cbs, order, except)
    {
      var todo := set c | c in cbs && cbs[c].order == Some(order) && c != except && !cbs[c].state.Dismissed?
        && !cbs[c].state.Reversed?;
      sum := 0;
      while todo != {}
        invariant todo <= Claimants(cbs, order, except)
        invariant sum + SumOver(todo, AmountIn(cbs)) == Claimed(cbs, order, except)
      {
        var c :| c in todo;
        SumOverTake(todo, c, AmountIn(cbs));
        sum := sum + cbs[c].amount;
        todo := todo - {c};
      }
    }

    method Post(p: Posting)
      modifies this`postings
      ensures postings == old(postings) + [p]
    {
      postings := postings + [p];
    }

    /** evaluateChargeback, with what matching found and the rule picked for it. */
    method Evaluate(id: nat, m: Match, rule: Option<Rule>)
      modifies this
      ensures View() == EvaluateOf(old(View()), id, m, rule)
    {
      if id !in cbs || !cbs[id].state.Open() { return; }
      var row := cbs[id];
      match m {
        case Nothing(_, _) =>
          cbs := cbs[id := Evaluated(row, m, None, 0, None).row];
        case To(order) =>
          if order !in payins { return; }
          var claimed := ClaimedByOthers(order, id);
          var e := Evaluated(row, m, Some(payins[order]), claimed, rule);
          cbs := cbs[id := e.row];
          if e.debit.Some? { Post(Posting(id, order, Debit, e.debit.value, false, None)); }
      }
    }

    /** approveChargeback. */
    method Approve(id: nat, stated: Option<int>, rule: Option<Rule>) returns (a: Answer)
      modifies this
      ensures (View(), a) == ApproveOf(old(View()), id, stated, rule)
    {
      if id !in cbs { return NotFound; }
      var row := cbs[id];
      if !row.state.Open() { return AlreadyDecided; }
      if row.order.None? || row.banker.None? || row.channel.None? { return NotMatchedYet; }
      var amount: int;
      if stated.None? {
        if rule.None? { return NoRule; }
        amount := RuleDebit(row.amount, rule.value.debitBps);
      } else {
        amount := stated.value;
      }
      if amount < 0 || amount > row.amount { return BadAmount; }
      if amount > 0 { Post(Posting(id, row.order.value, Debit, amount, stated.Some?, None)); }
      var state := if amount > 0 then StateAfter(row.amount, amount, 0) else Matched;
      cbs := cbs[id := row.(debited := row.debited + amount, state := state,
                            calculated := if stated.None? then Some(amount) else row.calculated)];
      assert old(postings) + [] == old(postings);
      return Ok;
    }

    /** reverseChargeback: a new entry linked to the latest debit. */
    method Reverse(id: nat, stated: Option<int>) returns (a: Answer)
      modifies this
      ensures (View(), a) == ReverseOf(old(View()), id, stated)
    {
      if id !in cbs { return NotFound; }
      var row := cbs[id];
      var open := row.debited - row.reversed;
      if open <= 0 { return NothingToReverse; }
      var amount := if stated.Some? then stated.value else open;
      if amount <= 0 || amount > open || row.order.None? { return BadAmount; }
      Post(Posting(id, row.order.value, Reversal, amount, false, LastDebit(postings, id)));
      cbs := cbs[id := row.(reversed := row.reversed + amount, state := StateAfter(row.amount, row.debited, row.reversed + amount))];
      return Ok;
    }

    method Dismiss(id: nat) returns (a: Answer)
      modifies this
      ensures (View(), a) == DismissOf(old(View()), id)
    {
      if id !in cbs { return NotFound; }
      if cbs[id].debited != 0 || cbs[id].state.Dismissed? { return CannotDismiss; }
      cbs := cbs[id := cbs[id].(state := Dismissed)];
      return Ok;
    }
  }
}
