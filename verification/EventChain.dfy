/**
 The per-order tamper-evident event log (apps/admin-dashboard/src/lib/fifo.ts, lines 47-85). The hash
 is a parameter: a function with no collisions whose outputs hold no separator and never read GENESIS.
 Events are listed oldest first.
 */
module EventChain {
  import opened Options

  const GENESIS: string := "GENESIS"

  datatype Fields = Fields(from: Option<string>, to: string, actor: Option<string>, kind: Option<string>,
      reason: Option<string>)

  /** A row of fifo_order_events; a row from before the chain has no entry hash. */
  datatype Event = Event(fields: Fields, prevHash: Option<string>, entryHash: Option<string>)
  {
    predicate InChain() { entryHash.Some? && entryHash.value != "" }
  }

  function Or(o: Option<string>, otherwise: string): string { if o.Some? then o.value else otherwise }

  /** JavaScript's join("|"). */
  function Join(parts: seq<string>): string {
    if parts == [] then "" else if |parts| == 1 then parts[0] else parts[0] + "|" + Join(parts[1..])
  }

  /** What of an event is hashed: absent fields read "", an absent kind reads system. */
  function Hashed(f: Fields): seq<string> {
    [Or(f.from, ""), f.to, Or(f.actor, ""), Or(f.kind, "system"), Or(f.reason, "")]
  }

  /** The hashed text: the previous hash, the order and the event's fields, joined by bars. */
  function Material(prev: string, order: string, f: Fields): string {
    Join([prev, order] + Hashed(f))
  }

  /** The newest entry hash, as the recording query finds it. */
  function LastHash(log: seq<Event>): string {
    if log == [] then GENESIS
    else
      var e := log[|log| - 1];
      if e.entryHash.Some? then (if e.entryHash.value != "" then e.entryHash.value else GENESIS)
      else LastHash(log[..|log| - 1])
  }

  /** The event as it is stored: its kind defaults to system. */
  function Stored(f: Fields): Fields { f.(kind := Some(Or(f.kind, "system"))) }

  /** recordEvent. */
  function Recorded(h: string -> string, order: string, log: seq<Event>, f: Fields): seq<Event> {
    var prev := LastHash(log);
    log + [Event(Stored(f), Some(prev), Some(h(Material(prev, order, f))))]
  }

  /** What the verifier demands of each hashed event: it names its predecessor and hashes to its entry. */
  ghost predicate Accepted(h: string -> string, order: string, log: seq<Event>) {
    log != [] ==>
      var init, e := log[..|log| - 1], log[|log| - 1];
      && Accepted(h, order, init)
      && (e.InChain() ==> e.prevHash == Some(Head(init)) && e.entryHash == Some(h(Material(Head(init), order, e.fields))))
  }

  /** The hash the verifier carries after a log: that of its newest hashed event. */
  function Head(log: seq<Event>): string {
    if log == [] then GENESIS
    else if log[|log| - 1].InChain() then log[|log| - 1].entryHash.value
    else Head(log[..|log| - 1])
  }

  /** The hashed texts of a log, in order. */
  function Materials(order: string, log: seq<Event>): seq<string> {
    if log == [] then []
    else
      var init, e := log[..|log| - 1], log[|log| - 1];
      Materials(order, init) + (if e.InChain() then [Material(Head(init), order, e.fields)] else [])
  }

  ghost predicate GoodHash(h: string -> string) {
    && (forall x, y :: h(x) == h(y) ==> x == y)
    && (forall x :: '|' !in h(x) && h(x) != GENESIS && h(x) != "")
  }

  // ── Every recorded log is accepted ──────────────────────────────────────────────────────────

  /** No row carries an empty entry hash: what a log built by recordEvent on legacy rows satisfies. */
  ghost predicate NoEmptyHash(log: seq<Event>) {
    forall k :: 0 <= k < |log| ==> log[k].entryHash != Some("")
  }

  lemma {:induction false} LastIsHead(log: seq<Event>)
    requires NoEmptyHash(log)
    ensures LastHash(log) == Head(log)
    decreases |log|
  {
    if log != [] { LastIsHead(log[..|log| - 1]); }
  }

  lemma RecordKeepsAccepted(h: string -> string, order: string, log: seq<Event>, f: Fields)
    requires GoodHash(h) && NoEmptyHash(log) && Accepted(h, order, log)
    ensures NoEmptyHash(Recorded(h, order, log, f)) && Accepted(h, order, Recorded(h, order, log, f))
  {
    LastIsHead(log);
    var t := Recorded(h, order, log, f);
    assert t[..|t| - 1] == log;
  }

  function RecordAll(h: string -> string, order: string, log: seq<Event>, fs: seq<Fields>): seq<Event>
    decreases |fs|
  {
    if fs == [] then log else RecordAll(h, order, Recorded(h, order, log, fs[0]), fs[1..])
  }

  lemma {:induction false} LegacyAccepted(h: string -> string, order: string, log: seq<Event>)
    requires forall k :: 0 <= k < |log| ==> log[k].entryHash.None?
    ensures Accepted(h, order, log)
    decreases |log|
  {
    if log != [] { LegacyAccepted(h, order, log[..|log| - 1]); }
  }

  lemma {:induction false} RecordAllAccepted(h: string -> string, order: string, log: seq<Event>, fs: seq<Fields>)
    requires GoodHash(h) && NoEmptyHash(log) && Accepted(h, order, log)
    ensures Accepted(h, order, RecordAll(h, order, log, fs))
    decreases |fs|
  {
    if fs != [] {
      RecordKeepsAccepted(h, order, log, fs[0]);
      RecordAllAccepted(h, order, Recorded(h, order, log, fs[0]), fs[1..]);
    }
  }

  /** Whatever events are recorded after whatever legacy rows, the verifier accepts the log. */
  lemma RecordedLogsAccepted(h: string -> string, order: string, legacy: seq<Event>, fs: seq<Fields>)
    requires GoodHash(h) && forall k :: 0 <= k < |legacy| ==> legacy[k].entryHash.None?
    ensures Accepted(h, order, RecordAll(h, order, legacy, fs))
  {
    LegacyAccepted(h, order, legacy);
    RecordAllAccepted(h, order, legacy, fs);
  }

  // ── Tampering is detected ───────────────────────────────────────────────────────────────────

  predicate Clean(s: string) { '|' !in s }

  /** Where the first bar of a text stands. */
  function FirstBar(s: string): nat {
    if s == [] || s[0] == '|' then 0 else 1 + FirstBar(s[1..])
  }

  lemma {:induction false} FirstBarAfter(head: string, rest: string)
    requires Clean(head)
    ensures FirstBar(head + "|" + rest) == |head|
    decreases |head|
  {
    if head != "" {
      FirstBarAfter(head[1..], rest);
      assert (head + "|" + rest)[1..] == head[1..] + "|" + rest;
    }
  }

  /** Equal texts with separator-free heads have equal heads and equal rests. */
  lemma HeadsAgree(a: string, b: string, x: string, y: string)
    requires Clean(a) && Clean(b) && a + "|" + x == b + "|" + y
    ensures a == b && x == y
  {
    FirstBarAfter(a, x);
    FirstBarAfter(b, y);
    var s, t := a + "|" + x, b + "|" + y;
    assert a == s[..|a|] && b == t[..|b|];
    assert x == s[|a| + 1..] && y == t[|b| + 1..];
  }

  lemma {:induction false} HeadIsClean(h: string -> string, order: string, log: seq<Event>)
    requires GoodHash(h) && Accepted(h, order, log)
    ensures Clean(Head(log)) && (Head(log) == GENESIS <==> Materials(order, log) == [])
    decreases |log|
  {
    if log != [] { HeadIsClean(h, order, log[..|log| - 1]); }
  }

  lemma MaterialPrev(prev: string, order: string, f: Fields)
    ensures Material(prev, order, f) == prev + "|" + Join([order] + Hashed(f))
  {
    assert ([prev, order] + Hashed(f))[1..] == [order] + Hashed(f);
  }

  /** Accepted logs that end in one hash hash the same texts in the same order. */
  lemma {:induction false} SameHeadSameMaterials(h: string -> string, order: string, a: seq<Event>, b: seq<Event>)
    requires GoodHash(h) && Accepted(h, order, a) && Accepted(h, order, b) && Head(a) == Head(b)
    ensures Materials(order, a) == Materials(order, b)
    decreases |a| + |b|
  {
    HeadIsClean(h, order, a);
    HeadIsClean(h, order, b);
    if a != [] && !a[|a| - 1].InChain() {
      SameHeadSameMaterials(h, order, a[..|a| - 1], b);
    } else if b != [] && !b[|b| - 1].InChain() {
      SameHeadSameMaterials(h, order, a, b[..|b| - 1]);
    } else if a != [] && b != [] {
      var i, j, e, f := a[..|a| - 1], b[..|b| - 1], a[|a| - 1].fields, b[|b| - 1].fields;
      assert Material(Head(i), order, e) == Material(Head(j), order, f);
      HeadIsClean(h, order, i);
      HeadIsClean(h, order, j);
      MaterialPrev(Head(i), order, e);
      MaterialPrev(Head(j), order, f);
      HeadsAgree(Head(i), Head(j), Join([order] + Hashed(e)), Join([order] + Hashed(f)));
      SameHeadSameMaterials(h, order, i, j);
    }
  }

  // ── What the hash pins down ─────────────────────────────────────────────────────────────────

  ghost predicate AllClean(parts: seq<string>) {
    forall k :: 0 <= k < |parts| ==> Clean(parts[k])
  }

  function Bars(s: string): nat {
    if s == [] then 0 else (if s[0] == '|' then 1 else 0) + Bars(s[1..])
  }

  lemma {:induction false} BarsConcat(a: string, b: string)
    ensures Bars(a + b) == Bars(a) + Bars(b)
    decreases |a|
  {
    if a == [] {
      assert a + b == b;
    } else {
      BarsConcat(a[1..], b);
      assert (a + b)[1..] == a[1..] + b;
    }
  }

  lemma {:induction false} CleanHasNoBars(s: string)
    ensures Bars(s) == 0 <==> Clean(s)
    decreases |s|
  {
    if s != [] { CleanHasNoBars(s[1..]); }
  }

  /** A joined text has a bar between parts, and those the parts hold. */
  lemma {:induction false} BarsOfJoin(parts: seq<string>)
    requires parts != []
    ensures Bars(Join(parts)) >= |parts| - 1 && (Bars(Join(parts)) == |parts| - 1 <==> AllClean(parts))
    decreases |parts|
  {
    CleanHasNoBars(parts[0]);
    if |parts| > 1 {
      BarsOfJoin(parts[1..]);
      BarsConcat(parts[0] + "|", Join(parts[1..]));
      BarsConcat(parts[0], "|");
      assert AllClean(parts) <==> Clean(parts[0]) && AllClean(parts[1..]) by {
        if Clean(parts[0]) && AllClean(parts[1..]) {
          forall k | 0 <= k < |parts| ensures Clean(parts[k]) { if k > 0 { assert parts[k] == parts[1..][k - 1]; } }
        }
      }
    }
  }

  lemma {:induction false} CleanPartsAgree(a: seq<string>, b: seq<string>)
    requires |a| == |b| > 0 && AllClean(a) && AllClean(b) && Join(a) == Join(b)
    ensures a == b
    decreases |a|
  {
    if |a| > 1 {
      HeadsAgree(a[0], b[0], Join(a[1..]), Join(b[1..]));
      CleanPartsAgree(a[1..], b[1..]);
      assert a == [a[0]] + a[1..] && b == [b[0]] + b[1..];
    }
  }

  lemma JoinTwo(x: string, parts: seq<string>)
    requires parts != []
    ensures Join([x] + parts) == x + "|" + Join(parts)
    ensures Join([x + parts[0]] + parts[1..]) == x + Join(parts)
  {
    assert ([x] + parts)[1..] == parts;
    JoinGlued(x, parts);
  }

  lemma JoinFirst(parts: seq<string>)
    requires |parts| > 1
    ensures Join(parts) == parts[0] + ("|" + Join(parts[1..]))
  {
  }

  lemma JoinGlued(x: string, parts: seq<string>)
    requires parts != []
    ensures Join([x + parts[0]] + parts[1..]) == x + Join(parts)
  {
    var glued := [x + parts[0]] + parts[1..];
    assert glued[1..] == parts[1..];
    if |parts| > 1 { JoinGluedMore(x, parts, glued); }
  }

  lemma JoinGluedMore(x: string, parts: seq<string>, glued: seq<string>)
    requires |parts| > 1 && |glued| == |parts| && glued[0] == x + parts[0] && glued[1..] == parts[1..]
    ensures Join(glued) == x + Join(parts)
  {
    JoinFirst(glued);
    JoinFirst(parts);
    Regroup(x, parts[0], "|" + Join(parts[1..]));
  }

  lemma Regroup(a: string, b: string, c: string)
    ensures (a + b) + c == a + (b + c)
  {
  }

  /** Parts with equal beginnings and endings that join alike. */
  lemma {:induction false} JoinTail(p: seq<string>, a: seq<string>, b: seq<string>)
    requires a != [] && b != [] && Join(a) == Join(b)
    ensures Join(p + a) == Join(p + b)
    decreases |p|
  {
    if p == [] {
      assert p + a == a && p + b == b;
    } else {
      JoinTail(p[1..], a, b);
      assert (p + a)[1..] == p[1..] + a && (p + b)[1..] == p[1..] + b;
    }
  }

  /** A part that is not the last, cut at its bar: what follows the bar joins the next part. */
  lemma CutBefore(p: seq<string>, k: nat, u: string, v: string) returns (q: seq<string>)
    requires k < |p| - 1 && p[k] == u + "|" + v
    ensures |q| == |p| && q[k] == u && Join(q) == Join(p)
  {
    var tail := [v + "|" + p[k + 1]] + p[k + 2..];
    q := p[..k] + ([u] + tail);
    JoinTwo(p[k], p[k + 1..]);
    JoinTwo(v + "|", p[k + 1..]);
    JoinTwo(u, tail);
    assert p[k + 1..][1..] == p[k + 2..];
    JoinTail(p[..k], [u] + tail, [p[k]] + p[k + 1..]);
    assert p == p[..k] + ([p[k]] + p[k + 1..]);
  }

  /** The last part, cut at its bar: what comes before the bar joins the part before. */
  lemma CutLast(p: seq<string>, u: string, v: string) returns (q: seq<string>)
    requires |p| >= 2 && p[|p| - 1] == u + "|" + v
    ensures |q| == |p| && q[|p| - 1] == v && Join(q) == Join(p)
  {
    var k := |p| - 1;
    q := p[..k - 1] + ([p[k - 1] + "|" + u] + [v]);
    JoinTwo(p[k - 1] + "|" + u, [v]);
    JoinTwo(p[k - 1], [p[k]]);
    JoinTail(p[..k - 1], [p[k - 1] + "|" + u] + [v], [p[k - 1]] + [p[k]]);
    assert p == p[..k - 1] + ([p[k - 1]] + [p[k]]);
  }

  /** Parts of which one holds a bar can be cut elsewhere and join to the same text. */
  lemma OtherCut(p: seq<string>, k: nat) returns (q: seq<string>)
    requires |p| >= 2 && k < |p| && !Clean(p[k])
    ensures |q| == |p| && q != p && Join(q) == Join(p)
  {
    var c :| 0 <= c < |p[k]| && p[k][c] == '|';
    var u, v := p[k][..c], p[k][c + 1..];
    assert p[k] == u + "|" + v;
    if k < |p| - 1 {
      q := CutBefore(p, k, u, v);
      assert |q[k]| < |p[k]|;
    } else {
      q := CutLast(p, u, v);
      assert |q[k]| < |p[k]|;
    }
  }

  lemma MaterialRest(prev: string, order: string, f: Fields)
    ensures Material(prev, order, f) == prev + "|" + (order + "|" + Join(Hashed(f)))
  {
    MaterialPrev(prev, order, f);
    assert ([order] + Hashed(f))[1..] == Hashed(f);
  }

  /**
   A hashed text names one event's fields exactly when none of them holds the separator: a bar in an
   actor, a kind or a reason lets it be cut into different fields that verify as well.
   */
  lemma FieldsPinnedExactlyWhenClean(prev: string, order: string, f: Fields)
    ensures (forall g :: Material(prev, order, g) == Material(prev, order, f) ==> Hashed(g) == Hashed(f))
            <==> AllClean(Hashed(f))
  {
    if AllClean(Hashed(f)) {
      forall g | Material(prev, order, g) == Material(prev, order, f) ensures Hashed(g) == Hashed(f) {
        SameMaterialSameJoin(prev, order, f, g);
        BarsOfJoin(Hashed(f));
        BarsOfJoin(Hashed(g));
        CleanPartsAgree(Hashed(g), Hashed(f));
      }
    } else {
      var k :| 0 <= k < 5 && !Clean(Hashed(f)[k]);
      var q := OtherCut(Hashed(f), k);
      var g := Fields(Some(q[0]), q[1], Some(q[2]), Some(q[3]), Some(q[4]));
      assert Hashed(g) == q;
      MaterialRest(prev, order, f);
      MaterialRest(prev, order, g);
    }
  }

  lemma SameMaterialSameJoin(prev: string, order: string, f: Fields, g: Fields)
    requires Material(prev, order, f) == Material(prev, order, g)
    ensures Join(Hashed(f)) == Join(Hashed(g))
  {
    MaterialRest(prev, order, f);
    MaterialRest(prev, order, g);
    var n := |prev| + 1 + |order| + 1;
    assert Join(Hashed(f)) == Material(prev, order, f)[n..];
    assert Join(Hashed(g)) == Material(prev, order, g)[n..];
  }

  /** The hashed fields of a log's chained events, in order. */
  function Story(log: seq<Event>): seq<seq<string>> {
    if log == [] then []
    else Story(log[..|log| - 1]) + (if log[|log| - 1].InChain() then [Hashed(log[|log| - 1].fields)] else [])
  }

  ghost predicate CleanStory(log: seq<Event>) {
    forall k :: 0 <= k < |log| && log[k].InChain() ==> AllClean(Hashed(log[k].fields))
  }

  /**
   A log whose fields hold no separator cannot be edited, cut, extended inside or reordered and still
   be accepted with the same last hash.
   */
  lemma {:induction false} TamperingDetected(h: string -> string, order: string, log: seq<Event>, other: seq<Event>)
    requires GoodHash(h) && Accepted(h, order, log) && Accepted(h, order, other) && Head(log) == Head(other)
    requires CleanStory(log)
    ensures Story(other) == Story(log)
    decreases |log| + |other|
  {
    HeadIsClean(h, order, log);
    HeadIsClean(h, order, other);
    if log != [] && !log[|log| - 1].InChain() {
      TamperingDetected(h, order, log[..|log| - 1], other);
    } else if other != [] && !other[|other| - 1].InChain() {
      TamperingDetected(h, order, log, other[..|other| - 1]);
    } else if log != [] && other != [] {
      var i, j, e, f := log[..|log| - 1], other[..|other| - 1], log[|log| - 1].fields, other[|other| - 1].fields;
      assert Material(Head(i), order, e) == Material(Head(j), order, f);
      HeadIsClean(h, order, i);
      HeadIsClean(h, order, j);
      MaterialPrev(Head(i), order, e);
      MaterialPrev(Head(j), order, f);
      HeadsAgree(Head(i), Head(j), Join([order] + Hashed(e)), Join([order] + Hashed(f)));
      FieldsPinnedExactlyWhenClean(Head(i), order, e);
      TamperingDetected(h, order, i, j);
    }
  }

  /**
   An event written with other fields that hash alike leaves the log accepted with its last hash, and tells another
   story.
   */
  lemma {:induction false} Recut(h: string -> string, order: string, log: seq<Event>, k: nat, g: Fields)
    requires Accepted(h, order, log) && k < |log| && log[k].InChain() && Hashed(g) != Hashed(log[k].fields)
    requires Material(Head(log[..k]), order, g) == Material(Head(log[..k]), order, log[k].fields)
    ensures var t := log[k := log[k].(fields := g)];
            Accepted(h, order, t) && Head(t) == Head(log) && |Story(t)| == |Story(log)| && Story(t) != Story(log)
    decreases |log|
  {
    var n := |log| - 1;
    var t, init, e, f := log[k := log[k].(fields := g)], log[..n], log[n], log[k].fields;
    if k == n {
      assert t[..n] == init;
      var a, b := Story(init) + [Hashed(f)], Story(init) + [Hashed(g)];
      assert a[|Story(init)|] == Hashed(f) && b[|Story(init)|] == Hashed(g);
    } else {
      assert init[..k] == log[..k] && t[..n] == init[k := init[k].(fields := g)];
      Recut(h, order, init, k, g);
      SameSuffix(Story(t[..n]), Story(init), if e.InChain() then [Hashed(e.fields)] else []);
    }
  }

  lemma SameSuffix(a: seq<seq<string>>, b: seq<seq<string>>, c: seq<seq<string>>)
    requires |a| == |b| && a != b
    ensures a + c != b + c
  {
    var i :| 0 <= i < |a| && a[i] != b[i];
    assert (a + c)[i] == a[i] && (b + c)[i] == b[i];
  }

  /** The last hash of an accepted log pins its story exactly when no hashed field holds the separator. */
  lemma StoryPinnedExactlyWhenClean(h: string -> string, order: string, log: seq<Event>)
    requires GoodHash(h) && Accepted(h, order, log)
    ensures (forall other :: Accepted(h, order, other) && Head(other) == Head(log) ==> Story(other) == Story(log))
            <==> CleanStory(log)
  {
    if CleanStory(log) {
      forall other | Accepted(h, order, other) && Head(other) == Head(log) ensures Story(other) == Story(log) {
        TamperingDetected(h, order, log, other);
      }
    } else {
      var k :| 0 <= k < |log| && log[k].InChain() && !AllClean(Hashed(log[k].fields));
      FieldsPinnedExactlyWhenClean(Head(log[..k]), order, log[k].fields);
      var g :| Material(Head(log[..k]), order, g) == Material(Head(log[..k]), order, log[k].fields)
        && Hashed(g) != Hashed(log[k].fields);
      Recut(h, order, log, k, g);
      var t := log[k := log[k].(fields := g)];
      assert Accepted(h, order, t) && Head(t) == Head(log) && Story(t) != Story(log);
    }
  }

  // ── What is recorded and what is verified, read from the rows ───────────────────────────────

  /** The hashed text written out: the previous hash, the order, and what the event says. */
  function Text(prev: string, order: string, f: Fields): string {
    var from := if f.from.Some? then f.from.value else "";
    var actor := if f.actor.Some? then f.actor.value else "";
    var kind := if f.kind.Some? then f.kind.value else "system";
    var reason := if f.reason.Some? then f.reason.value else "";
    prev + "|" + (order + "|" + (from + "|" + (f.to + "|" + (actor + "|" + (kind + "|" + reason)))))
  }

  lemma JoinSeven(a: string, b: string, c: string, d: string, e: string, f: string, g: string)
    ensures Join([a, b, c, d, e, f, g]) == a + "|" + (b + "|" + (c + "|" + (d + "|" + (e + "|" + (f + "|" + g)))))
  {
    JoinTwo(f, [g]);
    JoinTwo(e, [f] + [g]);
    JoinTwo(d, [e] + ([f] + [g]));
    JoinTwo(c, [d] + ([e] + ([f] + [g])));
    JoinTwo(b, [c] + ([d] + ([e] + ([f] + [g]))));
    JoinTwo(a, [b] + ([c] + ([d] + ([e] + ([f] + [g])))));
    assert [a, b, c, d, e, f, g] == [a] + ([b] + ([c] + ([d] + ([e] + ([f] + [g])))));
  }

  lemma MaterialIsText(prev: string, order: string, f: Fields)
    ensures Material(prev, order, f) == Text(prev, order, f)
  {
    var from, actor, kind, reason := Or(f.from, ""), Or(f.actor, ""), Or(f.kind, "system"), Or(f.reason, "");
    JoinSeven(prev, order, from, f.to, actor, kind, reason);
    assert [prev, order] + Hashed(f) == [prev, order, from, f.to, actor, kind, reason];
  }

  /** Row `k` is the newest of the first `n` with an entry hash, be it empty. */
  ghost predicate NewestHashed(log: seq<Event>, n: nat, k: nat)
    requires n <= |log|
  {
    k < n && log[k].entryHash.Some? && forall j :: k < j < n ==> log[j].entryHash.None?
  }

  /** What chaining on row `k` starts from: its hash, GENESIS when it is empty. */
  function HashFrom(e: Event): string
    requires e.entryHash.Some?
  {
    if e.entryHash.value == "" then GENESIS else e.entryHash.value
  }

  /** The hash to chain on: that of the newest row with one, GENESIS when it is empty or there is none. */
  ghost predicate ChainsOn(log: seq<Event>, prev: string) {
    || (prev == GENESIS && forall j :: 0 <= j < |log| ==> log[j].entryHash.None?)
    || exists k: nat :: NewestHashed(log, |log|, k) && prev == HashFrom(log[k])
  }

  lemma ChainsOnStays(init: seq<Event>, e: Event, prev: string)
    requires ChainsOn(init, prev) && e.entryHash.None?
    ensures ChainsOn(init + [e], prev)
  {
    var log := init + [e];
    if k: nat :| NewestHashed(init, |init|, k) && prev == HashFrom(init[k]) {
      assert log[k] == init[k] && NewestHashed(log, |log|, k);
    }
  }

  lemma {:induction false} LastHashChainsOn(log: seq<Event>)
    ensures ChainsOn(log, LastHash(log))
    decreases |log|
  {
    if log != [] {
      var n := |log| - 1;
      if log[n].entryHash.Some? {
        assert NewestHashed(log, |log|, n);
      } else {
        LastHashChainsOn(log[..n]);
        ChainsOnStays(log[..n], log[n], LastHash(log[..n]));
        assert log[..n] + [log[n]] == log;
      }
    }
  }

  lemma OneToChainOn(log: seq<Event>, p: string, q: string)
    requires ChainsOn(log, p) && ChainsOn(log, q)
    ensures p == q
  {
    if k: nat, j: nat :| NewestHashed(log, |log|, k) && NewestHashed(log, |log|, j) && k < j { assert false; }
  }

  /**
   Recording appends one row: the event as it was given, of kind `system` when none was, the hash there was to chain on,
   and the hash of the text of all of that.
   */
  lemma RecordsExactly(h: string -> string, order: string, log: seq<Event>, f: Fields, prev: string)
    requires ChainsOn(log, prev)
    ensures var kind := if f.kind.Some? then f.kind.value else "system";
            Recorded(h, order, log, f) ==
              log + [Event(Fields(f.from, f.to, f.actor, Some(kind), f.reason), Some(prev), Some(h(Text(prev, order, f))))]
  {
    LastHashChainsOn(log);
    OneToChainOn(log, prev, LastHash(log));
    MaterialIsText(prev, order, f);
  }

  /** A stored event says what it was given to, its kind `system` when it was given none. */
  predicate Says(stored: Fields, f: Fields) {
    && stored.from == f.from && stored.to == f.to && stored.actor == f.actor && stored.reason == f.reason
    && stored.kind == Some(if f.kind.Some? then f.kind.value else "system")
  }

  /** Recording events one after the other keeps what was there and adds a row for each, saying what it says. */
  lemma {:induction false} RecordAllAppends(h: string -> string, order: string, log: seq<Event>, fs: seq<Fields>)
    ensures var t := RecordAll(h, order, log, fs);
            && |t| == |log| + |fs| && t[..|log|] == log
            && forall k :: 0 <= k < |fs| ==> Says(t[|log| + k].fields, fs[k])
    decreases |fs|
  {
    if fs != [] {
      var one, t := Recorded(h, order, log, fs[0]), RecordAll(h, order, log, fs);
      RecordAllAppends(h, order, one, fs[1..]);
      assert t[..|log|] == t[..|one|][..|log|] == log;
      forall k | 0 <= k < |fs| ensures Says(t[|log| + k].fields, fs[k]) {
        if k == 0 {
          assert t[|log|] == t[..|one|][|log|] == one[|log|];
        } else {
          assert Says(t[|one| + (k - 1)].fields, fs[1..][k - 1]);
        }
      }
    }
  }

  ghost predicate Chained(e: Event) { exists x :: e.entryHash == Some(x) && x != "" }

  /** The hash of the nearest chained row before `k`, GENESIS when there is none. */
  ghost predicate Precedes(log: seq<Event>, k: nat, prev: string)
    requires k <= |log|
  {
    || (prev == GENESIS && forall j :: 0 <= j < k ==> !Chained(log[j]))
    || exists i: nat :: i < k && Chained(log[i]) && log[i].entryHash == Some(prev)
                        && forall j :: i < j < k ==> !Chained(log[j])
  }

  /** Row `k`, if it is chained, names the chained row before it and hashes to its entry. */
  ghost predicate LinkHolds(h: string -> string, order: string, log: seq<Event>, k: nat)
    requires k < |log|
  {
    forall prev :: Chained(log[k]) && Precedes(log, k, prev) ==>
      log[k].prevHash == Some(prev) && log[k].entryHash == Some(h(Text(prev, order, log[k].fields)))
  }

  lemma {:induction false} HeadPrecedes(log: seq<Event>, k: nat, prev: string)
    requires k <= |log|
    ensures Precedes(log, k, prev) <==> prev == Head(log[..k])
    decreases k
  {
    if k > 0 {
      HeadPrecedes(log, k - 1, prev);
      assert log[..k][..k - 1] == log[..k - 1];
      assert Chained(log[k - 1]) <==> log[k - 1].InChain();
      if !Chained(log[k - 1]) && Precedes(log, k - 1, prev) && prev != GENESIS {
        var i: nat :| i < k - 1 && Chained(log[i]) && log[i].entryHash == Some(prev)
                      && forall j :: i < j < k - 1 ==> !Chained(log[j]);
        assert Precedes(log, k, prev);
      }
    }
  }

  /** In terms of the hash the verifier carries. */
  lemma LinkIs(h: string -> string, order: string, log: seq<Event>, k: nat)
    requires k < |log|
    ensures var prev := Head(log[..k]);
            LinkHolds(h, order, log, k) <==>
              (log[k].InChain() ==>
                 log[k].prevHash == Some(prev) && log[k].entryHash == Some(h(Material(prev, order, log[k].fields))))
  {
    var prev := Head(log[..k]);
    forall p ensures Precedes(log, k, p) <==> p == prev { HeadPrecedes(log, k, p); }
    MaterialIsText(prev, order, log[k].fields);
    assert Precedes(log, k, prev);
    assert Chained(log[k]) <==> log[k].InChain();
  }

  lemma LinkOfPrefix(h: string -> string, order: string, log: seq<Event>, n: nat, k: nat)
    requires k < n <= |log|
    ensures LinkHolds(h, order, log[..n], k) <==> LinkHolds(h, order, log, k)
  {
    assert log[..n][..k] == log[..k];
    LinkIs(h, order, log[..n], k);
    LinkIs(h, order, log, k);
  }

  /** A log is accepted exactly when every chained row names the one before it and hashes to its entry. */
  lemma {:induction false} AcceptedExactly(h: string -> string, order: string, log: seq<Event>)
    ensures Accepted(h, order, log) <==> forall k: nat :: k < |log| ==> LinkHolds(h, order, log, k)
    decreases |log|
  {
    if log != [] {
      var n := |log| - 1;
      AcceptedExactly(h, order, log[..n]);
      LinkIs(h, order, log, n);
      forall k: nat | k < n ensures LinkHolds(h, order, log[..n], k) <==> LinkHolds(h, order, log, k) {
        LinkOfPrefix(h, order, log, n, k);
      }
    }
  }

  // ── Such a hash is possible ─────────────────────────────────────────────────────────────────

  /** Each character as two, neither of them the separator. */
  function Spelled(x: string): string {
    if x == "" then "" else [(x[0] as int / 2000 + 1000) as char, (x[0] as int % 2000 + 1000) as char] + Spelled(x[1..])
  }

  function SpellingHash(x: string): string { "#" + Spelled(x) }

  lemma {:induction false} SpelledApart(x: string, y: string)
    requires Spelled(x) == Spelled(y)
    ensures x == y
  {
    if x != "" && y != "" {
      var a, b := Spelled(x), Spelled(y);
      assert a[0] == b[0] && a[1] == b[1] && a[2..] == Spelled(x[1..]) && b[2..] == Spelled(y[1..]);
      assert x[0] as int == 2000 * (x[0] as int / 2000) + x[0] as int % 2000;
      assert y[0] as int == 2000 * (y[0] as int / 2000) + y[0] as int % 2000;
      SpelledApart(x[1..], y[1..]);
      assert x == [x[0]] + x[1..] && y == [y[0]] + y[1..];
    }
  }

  lemma {:induction false} SpelledClean(x: string)
    ensures '|' !in Spelled(x)
  {
    if x != "" { SpelledClean(x[1..]); }
  }

  /** What is asked of the hash can be met: spelling the text out collides nowhere and writes no separator. */
  lemma SpellingIsGood()
    ensures GoodHash(SpellingHash)
  {
    forall x, y | SpellingHash(x) == SpellingHash(y) ensures x == y {
      assert SpellingHash(x)[1..] == Spelled(x) && SpellingHash(y)[1..] == Spelled(y);
      SpelledApart(x, y);
    }
    forall x ensures '|' !in SpellingHash(x) && SpellingHash(x) != GENESIS && SpellingHash(x) != "" {
      SpelledClean(x);
      assert SpellingHash(x)[0] == '#' && GENESIS[0] == 'G';
    }
  }

  // ── The log of one order ────────────────────────────────────────────────────────────────────

  lemma {:induction false} AcceptedPrefix(h: string -> string, order: string, log: seq<Event>, n: nat)
    requires n <= |log| && Accepted(h, order, log)
    ensures Accepted(h, order, log[..n])
    decreases |log|
  {
    if n < |log| {
      AcceptedPrefix(h, order, log[..|log| - 1], n);
      assert log[..|log| - 1][..n] == log[..n];
    } else {
      assert log[..n] == log;
    }
  }

  class OrderLog {
    const order: string
    const hash: string -> string
    var events: seq<Event>

    constructor (order: string, hash: string -> string, legacy: seq<Event>)
      ensures this.order == order && this.hash == hash && events == legacy
    {
      this.order, this.hash, this.events := order, hash, legacy;
    }

    method RecordEvent(f: Fields)
      modifies this
      ensures events == Recorded(hash, order, old(events), f)
    {
      var prev := LastHash(events);
      var entry := hash(Material(prev, order, f));
      events := events + [Event(Stored(f), Some(prev), Some(entry))];
    }

    /** verifyEventChain: whether the log is accepted, and the first event that breaks it. */
    method Verify() returns (ok: bool, brokenAt: Option<nat>)
      ensures ok <==> Accepted(hash, order, events)
      ensures ok <==> brokenAt.None?
      ensures brokenAt.Some? ==> brokenAt.value < |events| && Accepted(hash, order, events[..brokenAt.value])
                                 && !Accepted(hash, order, events[..brokenAt.value + 1])
    {
      var prev := GENESIS;
      for i := 0 to |events|
        invariant prev == Head(events[..i]) && Accepted(hash, order, events[..i])
      {
        var e := events[i];
        assert events[..i + 1][..i] == events[..i];
        if !e.InChain() { continue; }
        if e.prevHash != Some(prev) || e.entryHash != Some(hash(Material(prev, order, e.fields))) {
          if Accepted(hash, order, events) { AcceptedPrefix(hash, order, events, i + 1); }
          return false, Some(i);
        }
        prev := e.entryHash.value;
      }
      assert events[..|events|] == events;
      return true, None;
    }
  }
}
