/**
Amounts as text: the decimal constructor, the clean-up of a human-written
amount, the scanner that finds the numbers in an invoice, and the cross-check
that an extracted amount is one of them.
*/
module AmountText {
  import opened Arithmetic
  import opened Decimals
  import opened Wrappers

  // ---- Characters ----

  predicate IsDigit(c: char) { '0' <= c <= '9' }

  predicate InGroup(c: char) { IsDigit(c) || c == ',' }

  predicate IsSpace(c: char) { c == ' ' || '\t' <= c <= '\r' || '\U{1C}' <= c <= '\U{1F}' }

  predicate IsCurrency(c: char) {
    'a' <= c <= 'z' || 'A' <= c <= 'Z' || c in {'$', '\U{20AC}', '\U{A3}', '\U{A5}'}
  }

  predicate All(s: string, p: char -> bool) {
    forall i :: 0 <= i < |s| ==> p(s[i])
  }

  /** How many leading characters satisfy `p`. */
  function RunOf(s: string, p: char -> bool): (n: nat)
    ensures n <= |s| && All(s[..n], p) && (n < |s| ==> !p(s[n]))
  {
    if s != "" && p(s[0]) then 1 + RunOf(s[1..], p) else 0
  }

  lemma {:induction false} RunIs(s: string, p: char -> bool, n: nat)
    requires n <= |s| && All(s[..n], p) && (n < |s| ==> !p(s[n]))
    ensures RunOf(s, p) == n
  {
    if n > 0 {
      assert s[..n][0] == s[0] && s[1..][..n - 1] == s[..n][1..];
      RunIs(s[1..], p, n - 1);
    }
  }

  lemma {:induction false} RunStops(s: string, p: char -> bool, i: nat)
    requires i < |s| && !p(s[i])
    ensures RunOf(s, p) <= i
  {
    if i > 0 { RunStops(s[1..], p, i - 1); }
  }

  function Without(s: string, c: char): (t: string)
    ensures |t| <= |s| && c !in t
  {
    if s == "" then "" else (if s[0] == c then "" else [s[0]]) + Without(s[1..], c)
  }

  lemma {:induction false} WithoutNothing(s: string, c: char)
    requires c !in s
    ensures Without(s, c) == s
  {
    if s != "" { WithoutNothing(s[1..], c); }
  }

  lemma {:induction false} WithoutAppend(s: string, t: string, c: char)
    ensures Without(s + t, c) == Without(s, c) + Without(t, c)
  {
    if s == "" {
      assert s + t == t;
    } else {
      assert (s + t)[1..] == s[1..] + t;
      WithoutAppend(s[1..], t, c);
      var first := if s[0] == c then "" else [s[0]];
      var a, b := Without(s[1..], c), Without(t, c);
      assert first + (a + b) == (first + a) + b;
    }
  }

  lemma {:induction false} WithoutCommas(s: string)
    requires All(s, InGroup)
    ensures All(Without(s, ','), IsDigit)
  {
    if s != "" { WithoutCommas(s[1..]); }
  }

  function DropRight(s: string): string {
    if s != "" && IsSpace(s[|s| - 1]) then DropRight(s[..|s| - 1]) else s
  }

  function Strip(s: string): string {
    DropRight(s[RunOf(s, IsSpace)..])
  }

  // ---- Numbers ----

  /** The number a run of digits is written for. */
  function Nat(s: string): nat
    requires All(s, IsDigit)
  {
    if s == "" then 0 else 10 * Nat(s[..|s| - 1]) + (s[|s| - 1] as int - '0' as int)
  }

  lemma {:induction false} NatAppend(s: string, t: string)
    requires All(s, IsDigit) && All(t, IsDigit)
    ensures All(s + t, IsDigit) && Nat(s + t) == Nat(s) * Pow10(|t|) + Nat(t)
  {
    if t == "" {
      assert s + t == s;
    } else {
      var n := |t| - 1;
      assert (s + t)[..|s + t| - 1] == s + t[..n];
      NatAppend(s, t[..n]);
      MulAssoc(10, Nat(s), Pow10(n));
      MulAssoc(Nat(s), 10, Pow10(n));
    }
  }

  lemma {:induction false} NatBound(s: string)
    requires All(s, IsDigit)
    ensures Nat(s) < Pow10(|s|)
  {
    if s != "" { NatBound(s[..|s| - 1]); }
  }

  // ---- The decimal constructor ----

  predicate IsExponentMark(c: char) { c == 'e' || c == 'E' }

  function ParseExponent(tail: string): Option<int> {
    if tail == "" then Some(0)
    else if !IsExponentMark(tail[0]) then None
    else
      var signed := |tail| > 1 && tail[1] in {'-', '+'};
      var digits := if signed then tail[2..] else tail[1..];
      if digits == "" || RunOf(digits, IsDigit) < |digits| then None
      else
        assert digits[..|digits|] == digits;
        Some(if signed && tail[1] == '-' then 0 - Nat(digits) else Nat(digits))
  }

  function ParseNumber(negative: bool, u: string): Option<Decimal> {
    var i := RunOf(u, IsDigit);
    var dotted := i < |u| && u[i] == '.';
    var after := if dotted then u[i + 1..] else u[i..];
    var j := if dotted then RunOf(after, IsDigit) else 0;
    if i + j == 0 then None
    else
      match ParseExponent(after[j..])
      case None => None
      case Some(e) => Some(Finite(negative, Nat(u[..i] + after[..j]), e - j))
  }

  /** Infinity and NaN in all their spellings; a NaN may carry digits. */
  predicate IsSpecialWord(u: string) {
    var w := Lower(u);
    || w == "inf" || w == "infinity"
    || ("nan" <= w && All(w[3..], IsDigit))
    || ("snan" <= w && All(w[4..], IsDigit))
  }

  function ParseDecimal(text: string): Option<Decimal> {
    var t := Without(Strip(text), '_');
    var signed := t != "" && t[0] in {'-', '+'};
    var u := if signed then t[1..] else t;
    if IsSpecialWord(u) then Some(Special) else ParseNumber(signed && t[0] == '-', u)
  }

  // ---- A human-written amount ----

  /** The length of the number token at the front: digits and commas, then a point only if digits follow it. */
  function TokenLength(s: string): (n: nat)
    requires s != "" && IsDigit(s[0])
    ensures 0 < n <= |s|
  {
    var i := RunOf(s, InGroup);
    var j := if i < |s| && s[i] == '.' then RunOf(s[i + 1..], IsDigit) else 0;
    if j > 0 then i + 1 + j else i
  }

  /** One number, with an optional currency word after it, and nothing else but space. */
  function NormalizeAmount(amount: string): Option<string> {
    var s := amount[RunOf(amount, IsSpace)..];
    if s == "" || !IsDigit(s[0]) then None
    else
      var n := TokenLength(s);
      var gap := s[n..][RunOf(s[n..], IsSpace)..];
      var word := gap[RunOf(gap, IsCurrency)..];
      if RunOf(word, IsSpace) == |word| then Some(Without(s[..n], ',')) else None
  }

  function ToStroops(amount: Option<string>): Option<int> {
    match amount
    case None => None
    case Some(s) =>
      match ParseDecimal(s)
      case Some(d) => StroopsOf(d)
      case None =>
        match NormalizeAmount(s)
        case None => None
        case Some(n) =>
          match ParseDecimal(n)
          case None => None
          case Some(d) => StroopsOf(d)
  }

  // ---- The scanner ----

  function Tokens(text: string): seq<string> {
    if text == "" then []
    else if IsDigit(text[0]) then [text[..TokenLength(text)]] + Tokens(text[TokenLength(text)..])
    else Tokens(text[1..])
  }

  // ---- What a written number says ----

  predicate IsNumber(ip: string, fp: string) {
    ip != "" && IsDigit(ip[0]) && All(ip, InGroup) && All(fp, IsDigit)
  }

  function Written(ip: string, fp: string): string {
    ip + if fp == "" then "" else "." + fp
  }

  /** The decimal a written number stands for. */
  function Reading(ip: string, fp: string): Decimal
    requires IsNumber(ip, fp)
  {
    WithoutCommas(ip);
    Finite(false, Nat(Without(ip, ',') + fp), -|fp|)
  }

  // ---- The cross-check ----

  function TokenValue(token: string): Option<Decimal> {
    ParseDecimal(Without(token, ','))
  }

  /** The number on each line that carries a payable label, where there is one. */
  function LabeledTokens(tails: seq<string>): seq<string> {
    if tails == [] then []
    else
      var found := Tokens(tails[|tails| - 1]);
      LabeledTokens(tails[..|tails| - 1]) + (if found == [] then [] else [found[0]])
  }

  /** Where an amount may be found: only on payable-labelled lines if any of them has a number. */
  function Pool(tails: seq<string>, text: string): seq<string> {
    if LabeledTokens(tails) != [] then LabeledTokens(tails) else Tokens(text)
  }

  predicate Equals(target: Decimal, token: string)
    requires target.Finite?
  {
    match TokenValue(token)
    case None => false
    case Some(d) => d.Finite? && SameValue(target, d)
  }

  predicate AmountMatches(k: int, tails: seq<string>, text: string) {
    match TargetOf(k)
    case None => false
    case Some(target) => target.Finite? && exists i :: 0 <= i < |Pool(tails, text)| && Equals(target, Pool(tails, text)[i])
  }

  /** The integer and fraction parts of a token. */
  function IntegerPart(token: string): string {
    token[..RunOf(token, InGroup)]
  }

  function FractionPart(token: string): string {
    if RunOf(token, InGroup) < |token| then token[RunOf(token, InGroup) + 1..] else ""
  }

  ghost predicate IsToken(token: string) {
    && IsNumber(IntegerPart(token), FractionPart(token))
    && token == Written(IntegerPart(token), FractionPart(token))
  }
}
