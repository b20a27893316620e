/**
 The check character of a GSTIN and what it catches
 (apps/admin-dashboard/src/lib/kyc-validators.ts, lines 5-38). The identifier is taken as tidied: upper
 case, without spaces and dashes.
 */
module Gstin {

  predicate Digit(c: char) { '0' <= c <= '9' }

  predicate Upper(c: char) { 'A' <= c <= 'Z' }

  predicate InB36(c: char) { Digit(c) || Upper(c) }

  /** B36.indexOf: the character's value, or -1. */
  function Value(c: char): int {
    if Digit(c) then c as int - '0' as int else if Upper(c) then c as int - 'A' as int + 10 else -1
  }

  const B36: string := "0123456789ABCDEFGHIJKLMNOPQRSTUVWXYZ"

  /** The character a value is written as. */
  function CharOf(v: int): char
    requires 0 <= v < 36
  {
    if v < 10 then '0' + v as char else 'A' + (v - 10) as char
  }

  /** The alphabet spelled out lists the characters by value. */
  lemma AlphabetByValue(v: int)
    requires 0 <= v < 36
    ensures |B36| == 36 && B36[v] == CharOf(v)
  {
  }

  /** Value and CharOf are inverse, and only characters of the alphabet have a value. */
  lemma ValueIsIndex(c: char, v: int)
    requires 0 <= v < 36
    ensures CharOf(v) == c <==> v == Value(c)
    ensures InB36(c) <==> 0 <= Value(c) < 36
  {
  }

  /** The remainder as JavaScript's %, with the sign of the dividend. */
  function Rem(a: int, b: int): int
    requires b > 0
  {
    if a >= 0 then a % b else -((-a) % b)
  }

  /** What one character adds: its value, doubled at odd positions, with the two base-36 digits summed. */
  function Term(v: int, i: nat): int {
    var product := v * (if i % 2 == 0 then 1 else 2);
    product / 36 + Rem(product, 36)
  }

  /** The weighted sum of the first `n` characters. */
  function Sum(s: string, n: nat): int
    requires n <= |s|
  {
    if n == 0 then 0 else Sum(s, n - 1) + Term(Value(s[n - 1]), n - 1)
  }

  function CheckCharOf(s: string): char
    requires |s| >= 14
  {
    CharOf(Rem(36 - Rem(Sum(s, 14), 36), 36))
  }

  /** gstinCheckChar. */
  method GstinCheckChar(first14: string) returns (c: char)
    requires |first14| >= 14
    ensures c == CheckCharOf(first14)
  {
    var sum := 0;
    for i := 0 to 14
      invariant sum == Sum(first14, i)
    {
      var product := Value(first14[i]) * (if i % 2 == 0 then 1 else 2);
      sum := sum + product / 36 + Rem(product, 36);
    }
    c := B36[Rem(36 - Rem(sum, 36), 36)];
    AlphabetByValue(Rem(36 - Rem(sum, 36), 36));
  }

  // ── The whole check ─────────────────────────────────────────────────────────────────────────

  datatype Problem = Accepted | BadLength | BadShape | BadState | BadCheck

  /** What may stand at position `i`: state digits, the PAN, the entity number, 'Z', the check character. */
  predicate Fits(c: char, i: nat) {
    if i < 2 || 7 <= i < 11 then Digit(c)
    else if i < 12 then Upper(c)
    else if i == 12 then InB36(c) && c != '0'
    else if i == 13 then c == 'Z'
    else InB36(c)
  }

  predicate Shape(g: string) {
    |g| == 15 && forall i :: 0 <= i < 15 ==> Fits(g[i], i)
  }

  function StateCode(g: string): int
    requires |g| >= 2
  {
    10 * Value(g[0]) + Value(g[1])
  }

  /** gstinProblem. */
  function GstinProblem(g: string): Problem {
    if |g| != 15 then BadLength
    else if !Shape(g) then BadShape
    else if !(1 <= StateCode(g) <= 38 || StateCode(g) == 97 || StateCode(g) == 99) then BadState
    else if CheckCharOf(g[..14]) != g[14] then BadCheck
    else Accepted
  }

  predicate AllB36(s: string) { forall i :: 0 <= i < |s| ==> InB36(s[i]) }

  // ── What the check character catches ────────────────────────────────────────────────────────

  /** A doubled value with its two base-36 digits summed: it wraps once past 35. */
  function Doubled(v: int): int { if v < 18 then 2 * v else 2 * v - 35 }

  function ClosedTerm(v: int, i: nat): int { if i % 2 == 0 then v else Doubled(v) }

  /** The term in closed form. */
  lemma TermIs(v: int, i: nat)
    requires 0 <= v < 36
    ensures Term(v, i) == ClosedTerm(v, i)
  {
    if i % 2 != 0 {
      assert (2 * v) / 36 == if v < 18 then 0 else 1;
    }
  }

  /** Doubling and summing the digits permutes 0..35, and so does leaving a value alone. */
  lemma TermIsPermutation(v: int, w: int, i: nat)
    requires 0 <= v < 36 && 0 <= w < 36
    ensures 0 <= Term(v, i) < 36
    ensures Term(v, i) == Term(w, i) <==> v == w
  {
    TermIs(v, i);
    TermIs(w, i);
  }

  /** Below 36 apart only equal numbers share a remainder. */
  lemma SameRemainder(a: int, b: int)
    requires -36 < a - b < 36
    ensures a % 36 == b % 36 <==> a == b
  {
  }

  /** What doubling takes from a value is the same for two values only when they are 0 and 35. */
  lemma GapCollides(v: int, w: int)
    requires 0 <= v < 36 && 0 <= w < 36
    ensures var e := (v - Doubled(v)) - (w - Doubled(w));
            -36 < e < 36 && (e == 0 <==> (v == w || (v == 0 && w == 35) || (v == 35 && w == 0)))
  {
  }

  /** The only two values that may change places unnoticed are 0 and 35. */
  lemma OnlyZeroAndZCollide(v: int, w: int, i: nat)
    requires 0 <= v < 36 && 0 <= w < 36
    ensures var d := ClosedTerm(v, i) + ClosedTerm(w, i + 1) - ClosedTerm(w, i) - ClosedTerm(v, i + 1);
            -36 < d < 36 && (d == 0 <==> (v == w || (v == 0 && w == 35) || (v == 35 && w == 0)))
  {
    GapCollides(v, w);
  }

  /** Writing another character moves the sum by the difference of the two terms. */
  lemma {:induction false} SumUpdate(s: string, i: nat, c: char, n: nat)
    requires i < |s| && n <= |s|
    ensures Sum(s[i := c], n) == Sum(s, n) + (if i < n then Term(Value(c), i) - Term(Value(s[i]), i) else 0)
  {
    if n > 0 { SumUpdate(s, i, c, n - 1); }
  }

  lemma {:induction false} SumPrefix(s: string, t: string, n: nat)
    requires n <= |s| && n <= |t| && s[..n] == t[..n]
    ensures Sum(s, n) == Sum(t, n)
  {
    if n > 0 {
      assert s[n - 1] == s[..n][n - 1] == t[n - 1];
      assert s[..n - 1] == s[..n][..n - 1] == t[..n - 1];
      SumPrefix(s, t, n - 1);
    }
  }

  lemma {:induction false} SumNonnegative(s: string, n: nat)
    requires n <= |s| && AllB36(s)
    ensures Sum(s, n) >= 0
  {
    if n > 0 {
      SumNonnegative(s, n - 1);
      TermIsPermutation(Value(s[n - 1]), 0, n - 1);
    }
  }

  /** A character completes a sum to a multiple of 36 exactly when it is the one the code writes. */
  lemma Complement(n: nat, c: char)
    requires InB36(c)
    ensures CharOf((36 - n % 36) % 36) == c <==> (n + Value(c)) % 36 == 0
  {
    var want := (36 - n % 36) % 36;
    ValueIsIndex(c, want);
    assert (n + want) % 36 == 0;
    SameRemainder(n + want, n + Value(c));
  }

  /** The check character fits exactly when all fifteen weighted terms add up to a multiple of 36. */
  lemma CheckIsLuhnMod36(g: string)
    requires |g| == 15 && AllB36(g)
    ensures CheckCharOf(g[..14]) == g[14] <==> Sum(g, 15) % 36 == 0
  {
    SumPrefix(g[..14], g, 14);
    SumNonnegative(g, 14);
    Complement(Sum(g, 14), g[14]);
    TermIs(Value(g[14]), 14);
    assert Sum(g, 15) == Sum(g, 14) + Term(Value(g[14]), 14);
  }

  /** Every fourteen characters take exactly one check character. */
  lemma ExactlyOneCheckChar(s: string, c: char)
    requires |s| == 14 && AllB36(s) && InB36(c)
    ensures Sum(s + [c], 15) % 36 == 0 <==> c == CheckCharOf(s)
  {
    assert (s + [c])[..14] == s;
    CheckIsLuhnMod36(s + [c]);
  }

  /** Among alphanumeric identifiers, changing one character is always noticed. */
  lemma OneChangeBreaksCheck(g: string, i: nat, c: char)
    requires |g| == 15 && AllB36(g) && i < 15 && InB36(c) && c != g[i]
    requires Sum(g, 15) % 36 == 0
    ensures Sum(g[i := c], 15) % 36 != 0
  {
    SumUpdate(g, i, c, 15);
    TermIsPermutation(Value(c), Value(g[i]), i);
    TermIsPermutation(Value(g[i]), 0, i);
    SameRemainder(Sum(g[i := c], 15), Sum(g, 15));
  }

  function Swapped(g: string, i: nat, j: nat): string
    requires i < |g| && j < |g|
  {
    g[i := g[j]][j := g[i]]
  }

  /** The check character lets a swap of two neighbours through exactly when they are equal or 0 and Z. */
  lemma SwapKeepsCheckExactly(g: string, i: nat)
    requires |g| == 15 && AllB36(g) && i + 1 < 15 && Sum(g, 15) % 36 == 0
    ensures Sum(Swapped(g, i, i + 1), 15) % 36 == 0
            <==> (g[i] == g[i + 1] || (g[i] == '0' && g[i + 1] == 'Z') || (g[i] == 'Z' && g[i + 1] == '0'))
  {
    var v, w := Value(g[i]), Value(g[i + 1]);
    SumUpdate(g, i, g[i + 1], 15);
    SumUpdate(g[i := g[i + 1]], i + 1, g[i], 15);
    TermIs(v, i);
    TermIs(w, i);
    TermIs(v, i + 1);
    TermIs(w, i + 1);
    OnlyZeroAndZCollide(w, v, i);
    SameRemainder(Sum(Swapped(g, i, i + 1), 15), Sum(g, 15));
    assert v == w <==> g[i] == g[i + 1];
  }

  /** Two characters two places apart carry one weight: the check character never notices their swap. */
  lemma SwapTwoApartKeepsCheck(g: string, i: nat)
    requires |g| == 15 && i + 2 < 15
    ensures Sum(Swapped(g, i, i + 2), 15) == Sum(g, 15)
  {
    SumUpdate(g, i, g[i + 2], 15);
    SumUpdate(g[i := g[i + 2]], i + 2, g[i], 15);
  }

  // ── What is accepted ────────────────────────────────────────────────────────────────────────

  /** Two digits, five letters, four digits, a letter, then a digit from 1 or a letter, Z, and a digit or a letter. */
  ghost predicate WellFormed(g: string) {
    && |g| == 15
    && (forall i :: 0 <= i < 2 || 7 <= i < 11 ==> '0' <= g[i] <= '9')
    && (forall i :: 2 <= i < 7 || i == 11 ==> 'A' <= g[i] <= 'Z')
    && ('1' <= g[12] <= '9' || 'A' <= g[12] <= 'Z') && g[13] == 'Z'
    && ('0' <= g[14] <= '9' || 'A' <= g[14] <= 'Z')
  }

  lemma ShapeIsWellFormed(g: string)
    requires Shape(g)
    ensures WellFormed(g)
  {
    assert Fits(g[12], 12) && Fits(g[13], 13) && Fits(g[14], 14);
    forall i | 0 <= i < 2 || 7 <= i < 11 ensures '0' <= g[i] <= '9' { assert Fits(g[i], i); }
    forall i | 2 <= i < 7 || i == 11 ensures 'A' <= g[i] <= 'Z' { assert Fits(g[i], i); }
  }

  lemma ShapeIs(g: string)
    ensures Shape(g) <==> WellFormed(g)
  {
    if Shape(g) { ShapeIsWellFormed(g); }
  }

  /** The number the first two digits write. */
  function StateNumber(g: string): int
    requires |g| >= 2
  {
    (g[0] as int - '0' as int) * 10 + (g[1] as int - '0' as int)
  }

  ghost predicate StateKnown(n: int) { 1 <= n <= 38 || n == 97 || n == 99 }

  /** Why an identifier is refused: the first thing wrong of its length, its shape, its state and its weighted sum. */
  lemma RefusedExactly(g: string)
    ensures var p := GstinProblem(g);
            && (p == BadLength <==> |g| != 15)
            && (p == BadShape <==> |g| == 15 && !WellFormed(g))
            && (p == BadState <==> WellFormed(g) && !StateKnown(StateNumber(g)))
            && (p == BadCheck <==> WellFormed(g) && StateKnown(StateNumber(g)) && Sum(g, 15) % 36 != 0)
            && (p == Accepted <==> WellFormed(g) && StateKnown(StateNumber(g)) && Sum(g, 15) % 36 == 0)
  {
    ShapeIs(g);
    if Shape(g) {
      AcceptedIsLuhn(g);
      CheckIsLuhnMod36(g);
      assert Fits(g[0], 0) && Fits(g[1], 1);
    }
  }

  /** Of the characters that may end a well-formed identifier of a known state, exactly one is accepted. */
  lemma OneCompletionAccepted(s: string, c: char)
    requires |s| == 14 && WellFormed(s + ['0']) && StateKnown(StateNumber(s))
    ensures GstinProblem(s + [c]) == Accepted <==> c == CheckCharOf(s)
  {
    var g, z := s + [c], s + ['0'];
    ShapeIs(z);
    forall i | 0 <= i < 14 ensures s[i] == z[i] && InB36(s[i]) { assert Fits(z[i], i); }
    assert AllB36(s);
    SumNonnegative(s, 14);
    ValueIsIndex(CheckCharOf(s), Rem(36 - Rem(Sum(s, 14), 36), 36));
    if InB36(c) {
      assert WellFormed(g) by {
        forall i | 0 <= i < 15 ensures g[i] == if i < 14 then z[i] else c { }
      }
      RefusedExactly(g);
      ExactlyOneCheckChar(s, c);
    } else {
      ShapeIs(g);
    }
  }

  // ── What the whole check catches ────────────────────────────────────────────────────────────

  lemma AcceptedIsLuhn(g: string)
    requires Shape(g)
    ensures AllB36(g)
    ensures GstinProblem(g).Accepted? ==> Sum(g, 15) % 36 == 0
  {
    assert AllB36(g) by {
      forall i | 0 <= i < |g| ensures InB36(g[i]) { assert Fits(g[i], i); }
    }
    CheckIsLuhnMod36(g);
  }

  /** One wrong character, of any kind, in an accepted GSTIN is always refused. */
  lemma OneChangeRefused(g: string, i: nat, c: char)
    requires GstinProblem(g).Accepted? && i < |g| && c != g[i]
    ensures !GstinProblem(g[i := c]).Accepted?
  {
    AcceptedIsLuhn(g);
    var h := g[i := c];
    if Shape(h) {
      AcceptedIsLuhn(h);
      assert InB36(h[i]);
      OneChangeBreaksCheck(g, i, c);
    }
  }

  /** Two different neighbours of an accepted GSTIN changing places are always refused: the shape stops 0 and Z. */
  lemma SwapRefused(g: string, i: nat)
    requires GstinProblem(g).Accepted? && i + 1 < |g| && g[i] != g[i + 1]
    ensures !GstinProblem(Swapped(g, i, i + 1)).Accepted?
  {
    AcceptedIsLuhn(g);
    var h := Swapped(g, i, i + 1);
    if Shape(h) {
      AcceptedIsLuhn(h);
      assert Fits(g[i], i) && Fits(g[i + 1], i + 1) && Fits(h[i], i) && Fits(h[i + 1], i + 1);
      SwapKeepsCheckExactly(g, i);
    }
  }
}
