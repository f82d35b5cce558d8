/**
Human-written amounts are read exactly, the scanner reads its own renderings,
and an amount that passes the cross-check is a number of the invoice.
*/
module AmountTheorems {
  import opened AmountText
  import opened Arithmetic
  import opened Decimals
  import opened Wrappers

  // ---- Reading one number ----

  lemma {:induction false} DropRightTrims(x: string, trail: string)
    requires All(trail, IsSpace) && x != "" && !IsSpace(x[|x| - 1])
    ensures DropRight(x + trail) == x
  {
    if trail == "" {
      assert x + trail == x;
    } else {
      assert (x + trail)[..|x + trail| - 1] == x + trail[..|trail| - 1];
      assert (x + trail)[|x + trail| - 1] == trail[|trail| - 1];
      DropRightTrims(x, trail[..|trail| - 1]);
    }
  }

  lemma StripTrims(lead: string, x: string, trail: string)
    requires All(lead, IsSpace) && All(trail, IsSpace)
    requires x != "" && !IsSpace(x[0]) && !IsSpace(x[|x| - 1])
    ensures Strip(lead + x + trail) == x
  {
    var s := lead + x + trail;
    assert s[..|lead|] == lead && s[|lead|] == x[0];
    RunIs(s, IsSpace, |lead|);
    assert s[|lead|..] == x + trail;
    DropRightTrims(x, trail);
  }

  lemma NoSpecialWord(u: string)
    requires u != "" && IsDigit(u[0])
    ensures !IsSpecialWord(u)
  {
    assert Lower(u)[0] == u[0];
  }

  /** Text that starts with a digit and holds no sign, underscore or outer space goes straight to the number grammar. */
  lemma {:induction false} ParsesAsNumber(lead: string, x: string, trail: string)
    requires All(lead, IsSpace) && All(trail, IsSpace)
    requires x != "" && IsDigit(x[0]) && !IsSpace(x[|x| - 1]) && '_' !in x
    ensures ParseDecimal(lead + x + trail) == ParseNumber(false, x)
  {
    hide ParseNumber;
    StripTrims(lead, x, trail);
    WithoutNothing(x, '_');
    NoSpecialWord(x);
  }

  predicate EndsNumber(rest: string) {
    rest == "" || (!IsDigit(rest[0]) && rest[0] != '.')
  }

  /** The grammar takes the digits, the point and the fraction, and leaves the rest to the exponent. */
  lemma NumberThenRest(d: string, fp: string, rest: string)
    requires d != "" && All(d, IsDigit) && All(fp, IsDigit) && EndsNumber(rest)
    ensures All(d + fp, IsDigit)
    ensures ParseNumber(false, Written(d, fp) + rest) ==
      match ParseExponent(rest)
      case None => None
      case Some(e) => Some(Finite(false, Nat(d + fp), e - |fp|))
  {
    hide ParseExponent, Nat;
    var u := Written(d, fp) + rest;
    assert u[..|d|] == d;
    RunIs(u, IsDigit, |d|);
    if fp != "" {
      var after := u[|d| + 1..];
      assert after == fp + rest;
      assert after[..|fp|] == fp;
      RunIs(after, IsDigit, |fp|);
      assert after[|fp|..] == rest;
    } else {
      assert u[|d|..] == rest && rest[0..] == rest;
      assert d + fp == d && u[..|d|] + rest[..0] == d;
    }
  }

  lemma WithoutCommasWritten(ip: string, fp: string)
    requires IsNumber(ip, fp)
    ensures var d := Without(ip, ',');
            && d != "" && d[0] == ip[0] && All(d, IsDigit)
            && Without(Written(ip, fp), ',') == Written(d, fp)
  {
    WithoutCommas(ip);
    assert Without(ip, ',')[0] == ip[0];
    var point := if fp == "" then "" else "." + fp;
    forall i | 0 <= i < |point| ensures point[i] != ',' {
      if i > 0 { assert point[i] == fp[i - 1]; }
    }
    WithoutNothing(point, ',');
    WithoutAppend(ip, point, ',');
  }

  lemma LastOfWritten(ip: string, fp: string)
    requires ip != "" && All(fp, IsDigit)
    ensures Written(ip, fp) != "" && Written(ip, fp)[0] == ip[0]
    ensures var w := Written(ip, fp); w[|w| - 1] == if fp == "" then ip[|ip| - 1] else fp[|fp| - 1]
  {
  }

  lemma NoUnderscore(ip: string, fp: string)
    requires IsNumber(ip, fp)
    ensures '_' !in Written(ip, fp)
  {
    var w := Written(ip, fp);
    forall i | 0 <= i < |w| ensures w[i] != '_' {
      if i < |ip| {
        assert w[i] == ip[i] && InGroup(ip[i]);
      } else if i > |ip| {
        assert w[i] == fp[i - |ip| - 1] && IsDigit(w[i]);
      }
    }
  }

  /** A token with its commas taken out parses, to what it says. */
  lemma NumberParses(ip: string, fp: string)
    requires IsNumber(ip, fp)
    ensures ParseDecimal(Without(Written(ip, fp), ',')) == Some(Reading(ip, fp))
  {
    hide ParseNumber, ParseDecimal, Nat, Written, Without;
    WithoutCommasWritten(ip, fp);
    WithoutCommas(ip);
    var d := Without(ip, ',');
    var w := Written(d, fp);
    LastOfWritten(d, fp);
    NoUnderscore(d, fp);
    assert "" + w + "" == w;
    ParsesAsNumber("", w, "");
    assert w + "" == w;
    NumberThenRest(d, fp, "");
  }

  // ---- Human-written amounts ----

  datatype Human = Human(lead: string, ip: string, fp: string, gap: string, word: string, trail: string)

  predicate WellWritten(h: Human) {
    && All(h.lead, IsSpace) && All(h.gap, IsSpace) && All(h.trail, IsSpace)
    && All(h.word, IsCurrency) && IsNumber(h.ip, h.fp)
  }

  function Text(h: Human): string {
    h.lead + Written(h.ip, h.fp) + h.gap + h.word + h.trail
  }

  lemma TokenIs(ip: string, fp: string, rest: string)
    requires IsNumber(ip, fp)
    requires rest != "" ==> !InGroup(rest[0]) && rest[0] != '.'
    ensures var s := Written(ip, fp) + rest;
            s != "" && s[0] == ip[0] && TokenLength(s) == |Written(ip, fp)|
  {
    var s := Written(ip, fp) + rest;
    assert s[..|ip|] == ip;
    RunIs(s, InGroup, |ip|);
    if fp != "" {
      assert s[|ip| + 1..] == fp + rest;
      assert (fp + rest)[..|fp|] == fp;
      RunIs(fp + rest, IsDigit, |fp|);
    }
  }

  lemma AllRun(s: string, p: char -> bool)
    requires All(s, p)
    ensures RunOf(s, p) == |s|
  {
    assert s[..|s|] == s;
    RunIs(s, p, |s|);
  }

  /** What follows the number: space, then the currency word, then space. */
  lemma SuffixRuns(gap: string, word: string, trail: string)
    requires All(gap, IsSpace) && All(trail, IsSpace) && All(word, IsCurrency)
    ensures var rest := gap + word + trail;
            var g := RunOf(rest, IsSpace);
            var w := RunOf(rest[g..], IsCurrency);
            RunOf(rest[g..][w..], IsSpace) == |rest[g..][w..]|
  {
    var rest := gap + word + trail;
    if word == "" {
      assert All(rest, IsSpace);
      AllRun(rest, IsSpace);
    } else {
      assert rest[..|gap|] == gap && rest[|gap|] == word[0];
      RunIs(rest, IsSpace, |gap|);
      var tail := rest[|gap|..];
      assert tail == word + trail && tail[..|word|] == word;
      RunIs(tail, IsCurrency, |word|);
      assert tail[|word|..] == trail;
      AllRun(trail, IsSpace);
    }
  }

  lemma LeadSkipped(lead: string, rest: string)
    requires All(lead, IsSpace) && rest != "" && !IsSpace(rest[0])
    ensures (lead + rest)[RunOf(lead + rest, IsSpace)..] == rest
  {
    hide RunOf;
    assert (lead + rest)[..|lead|] == lead && (lead + rest)[|lead|] == rest[0];
    RunIs(lead + rest, IsSpace, |lead|);
  }

  lemma SuffixOpens(h: Human)
    requires WellWritten(h)
    ensures var rest := h.gap + h.word + h.trail;
            rest != "" ==> !InGroup(rest[0]) && rest[0] != '.'
  {
    var rest := h.gap + h.word + h.trail;
    assert rest != "" ==> rest[0] == if h.gap != "" then h.gap[0] else if h.word != "" then h.word[0] else h.trail[0];
  }

  lemma {:induction false} HumanNormalizes(h: Human)
    requires WellWritten(h)
    ensures NormalizeAmount(Text(h)) == Some(Without(Written(h.ip, h.fp), ','))
  {
    hide TokenLength, RunOf, Without, Written, All;
    var w, rest := Written(h.ip, h.fp), h.gap + h.word + h.trail;
    LastOfWritten(h.ip, h.fp);
    assert Text(h) == h.lead + (w + rest);
    LeadSkipped(h.lead, w + rest);
    SuffixOpens(h);
    TokenIs(h.ip, h.fp, rest);
    assert (w + rest)[|w|..] == rest && (w + rest)[..|w|] == w;
    SuffixRuns(h.gap, h.word, h.trail);
  }

  lemma NoExponentInWords(gap: string, word: string)
    requires All(gap, IsSpace) && All(word, IsCurrency) && word != ""
    ensures ParseExponent(gap + word) == None
  {
    var tail := gap + word;
    if gap == "" && |word| > 1 {
      assert tail == word && IsCurrency(tail[1]);
      assert tail[1..] != "" && RunOf(tail[1..], IsDigit) == 0;
    } else {
      assert tail[0] == if gap == "" then word[0] else gap[0];
    }
  }

  /** A comma stops the constructor: the raw text is no decimal. */
  lemma CommaIsNoDecimal(ip: string, rest: string)
    requires ip != "" && IsDigit(ip[0]) && All(ip, InGroup) && ',' in ip
    ensures ParseNumber(false, ip + rest) == None
  {
    var i :| 0 <= i < |ip| && ip[i] == ',';
    RunStops(ip, IsDigit, i);
    var p := RunOf(ip, IsDigit);
    var u := ip + rest;
    assert InGroup(ip[p]) && u[..p] == ip[..p] && u[p] == ip[p] == ',';
    RunIs(u, IsDigit, p);
  }

  /** The raw text is either no decimal at all, or exactly this one. */
  lemma RawReading(h: Human)
    requires WellWritten(h)
    ensures ParseDecimal(Text(h)) == None || ParseDecimal(Text(h)) == Some(Reading(h.ip, h.fp))
  {
    hide ParseNumber, ParseDecimal, ParseExponent, Nat, Written;
    var w := Written(h.ip, h.fp);
    LastOfWritten(h.ip, h.fp);
    NoUnderscore(h.ip, h.fp);
    WithoutCommasWritten(h.ip, h.fp);
    if h.word == "" {
      if h.ip[|h.ip| - 1] == ',' && h.fp == "" { assert InGroup(h.ip[|h.ip| - 1]); }
      assert Text(h) == h.lead + w + (h.gap + h.trail);
      ParsesAsNumber(h.lead, w, h.gap + h.trail);
      ParsesBare(h.ip, h.fp, "");
      assert w + "" == w;
    } else {
      var x := w + h.gap + h.word;
      assert Text(h) == h.lead + x + h.trail;
      assert x[0] == h.ip[0] && x[|x| - 1] == h.word[|h.word| - 1];
      assert IsCurrency(h.word[|h.word| - 1]);
      assert '_' !in h.gap && '_' !in h.word;
      ParsesAsNumber(h.lead, x, h.trail);
      assert x == w + (h.gap + h.word);
      NoExponentInWords(h.gap, h.word);
      assert (h.gap + h.word)[0] == if h.gap == "" then h.word[0] else h.gap[0];
      ParsesBare(h.ip, h.fp, h.gap + h.word);
    }
  }

  lemma ParsesBare(ip: string, fp: string, rest: string)
    requires IsNumber(ip, fp) && EndsNumber(rest)
    requires rest == "" || ParseExponent(rest) == None
    ensures var r := ParseNumber(false, Written(ip, fp) + rest);
            r == None || r == Some(Reading(ip, fp))
  {
    hide ParseNumber, Nat;
    if ',' in ip {
      var point := if fp == "" then "" else "." + fp;
      CommaIsNoDecimal(ip, point + rest);
      assert Written(ip, fp) + rest == ip + (point + rest);
    } else {
      WithoutNothing(ip, ',');
      WithoutCommas(ip);
      NumberThenRest(ip, fp, rest);
    }
  }

  /** Whatever the spacing, grouping and currency word, a human-written amount is converted from what it says. */
  lemma HumanAmountIsRead(h: Human)
    requires WellWritten(h)
    ensures ToStroops(Some(Text(h))) == StroopsOf(Reading(h.ip, h.fp))
  {
    hide ParseDecimal, StroopsOf, NormalizeAmount, Reading;
    RawReading(h);
    HumanNormalizes(h);
    NumberParses(h.ip, h.fp);
  }

  lemma WorthMeans(c: nat, n: nat, k: int)
    ensures WorthStroops(Finite(false, c, 0 - n), k) <==>
      if n <= STROOP_DIGITS then k == c * Pow10(STROOP_DIGITS - n) else k * Pow10(n - STROOP_DIGITS) == c
  {
    hide Pow10;
    FirstPowers();
    var shifted := Finite(false, c, STROOP_DIGITS - n);
    SameValueAt(FromInt(k), shifted, if n <= STROOP_DIGITS then 0 else STROOP_DIGITS - n);
    UnitsRescale(FromInt(k), 0, if n <= STROOP_DIGITS then 0 else STROOP_DIGITS - n);
  }

  /**
  A human-written amount that is worth `k` stroops is read as `k` if and only if
  28 digits hold the product; and an amount of up to 28 digits is read as `k` if
  and only if it is worth exactly `k`, so every other such amount is refused.
  */
  lemma HumanAmountExactly(h: Human, k: int)
    requires WellWritten(h)
    ensures var d, read := Reading(h.ip, h.fp), ToStroops(Some(Text(h)));
            && (WorthStroops(d, k) ==> (read == Some(k) <==> Lossless(d)))
            && (d.coeff < Pow10(PRECISION) && |h.fp| <= -ETINY ==> (read == Some(k) <==> WorthStroops(d, k)))
  {
    hide StroopsOf, WorthStroops, Lossless, ToStroops, Pow10, Text, WellWritten;
    assert IsNumber(h.ip, h.fp) by { FromWellWritten(h); }
    HumanAmountIsRead(h);
    var d := Reading(h.ip, h.fp);
    StroopsExactly(d, k);
    if d.coeff < Pow10(PRECISION) && |h.fp| <= -ETINY { FitsIsLossless(d); }
  }

  lemma FromWellWritten(h: Human)
    requires WellWritten(h)
    ensures IsNumber(h.ip, h.fp)
  {
  }

  /** A fraction digit beyond the seventh that is not zero makes the amount unpayable. */
  lemma {:induction false} EighthDigitRefused(h: Human)
    requires WellWritten(h) && STROOP_DIGITS < |h.fp| <= -ETINY
    requires Reading(h.ip, h.fp).coeff < Pow10(PRECISION) && All(h.fp[STROOP_DIGITS..], IsDigit)
    requires Nat(h.fp[STROOP_DIGITS..]) > 0
    ensures ToStroops(Some(Text(h))) == None
  {
    hide ToStroops, Pow10, Nat, StroopsOf, WorthStroops, Text;
    WithoutCommas(h.ip);
    var d, n := Reading(h.ip, h.fp), |h.fp|;
    var head := Without(h.ip, ',') + h.fp[..STROOP_DIGITS];
    var tail := h.fp[STROOP_DIGITS..];
    assert Without(h.ip, ',') + h.fp == head + tail;
    NatAppend(head, tail);
    NatBound(tail);
    if ToStroops(Some(Text(h))).Some? {
      var k := ToStroops(Some(Text(h))).value;
      HumanAmountExactly(h, k);
      WorthMeans(d.coeff, n, k);
      DividesOnce(k, Nat(head), Nat(tail), Pow10(n - STROOP_DIGITS));
    }
  }

  // ---- Renderings ----

  function Digit(d: nat): char
    requires d < 10
  {
    ('0' as int + d) as char
  }

  function Digits(n: nat): (s: string)
    ensures s != "" && All(s, IsDigit)
  {
    if n < 10 then [Digit(n)] else Digits(n / 10) + [Digit(n % 10)]
  }

  function Padded(n: nat, width: nat): (s: string)
    ensures |s| == width && All(s, IsDigit)
  {
    if width == 0 then "" else Padded(n / 10, width - 1) + [Digit(n % 10)]
  }

  function Grouped(s: string): string {
    if |s| <= 3 then s else Grouped(s[..|s| - 3]) + "," + s[|s| - 3..]
  }

  lemma {:induction false} DigitsSay(n: nat)
    ensures Nat(Digits(n)) == n
  {
    if n >= 10 {
      DigitsSay(n / 10);
      assert Digits(n)[..|Digits(n)| - 1] == Digits(n / 10);
    }
  }

  lemma {:induction false} PaddedSays(n: nat, width: nat)
    requires n < Pow10(width)
    ensures Nat(Padded(n, width)) == n
  {
    if width > 0 {
      PaddedSays(n / 10, width - 1);
      assert Padded(n, width)[..width - 1] == Padded(n / 10, width - 1);
    }
  }

  lemma {:induction false} GroupedShape(s: string)
    requires s != "" && All(s, IsDigit)
    ensures Grouped(s) != "" && Grouped(s)[0] == s[0] && All(Grouped(s), InGroup)
  {
    if |s| > 3 { GroupedShape(s[..|s| - 3]); }
  }

  lemma {:induction false} GroupedReads(s: string)
    requires All(s, IsDigit)
    ensures Without(Grouped(s), ',') == s
  {
    if |s| <= 3 {
      WithoutNothing(s, ',');
    } else {
      var front, last := s[..|s| - 3], s[|s| - 3..];
      GroupedReads(front);
      GroupDropped(Grouped(front), last);
      assert front + last == s;
    }
  }

  lemma GroupDropped(front: string, last: string)
    requires All(last, IsDigit)
    ensures Without(front + "," + last, ',') == Without(front, ',') + last
  {
    hide Without;
    WithoutNothing(last, ',');
    WithoutAppend(front + ",", last, ',');
    WithoutAppend(front, ",", ',');
    CommaAlone();
    assert Without(front, ',') + "" == Without(front, ',');
  }

  lemma CommaAlone()
    ensures Without(",", ',') == ""
  {
  }

  lemma {:induction false} ZerosSayNothing(s: string)
    requires All(s, c => c == '0')
    ensures All(s, IsDigit) && Nat(s) == 0
  {
    if s != "" { ZerosSayNothing(s[..|s| - 1]); }
  }

  /** `h` shows `k` stroops: its whole part with any commas, and its seven fraction digits cut at `n` once only zeros remain. */
  predicate Shows(h: Human, k: nat, n: nat) {
    var fraction := Padded(k % Pow10(STROOP_DIGITS), STROOP_DIGITS);
    && WellWritten(h) && n <= STROOP_DIGITS
    && Without(h.ip, ',') == Digits(k / Pow10(STROOP_DIGITS))
    && h.fp == fraction[..n] && All(fraction[n..], c => c == '0')
  }

  lemma ShownIsWorth(h: Human, k: nat, n: nat)
    requires Shows(h, k, n)
    ensures Reading(h.ip, h.fp).coeff * Pow10(STROOP_DIGITS - n) == k
    ensures WorthStroops(Reading(h.ip, h.fp), k)
  {
    hide Pow10, Nat, Digits, Padded;
    var unit := Pow10(STROOP_DIGITS);
    var fraction := Padded(k % unit, STROOP_DIGITS);
    DivMod(k, unit);
    DigitsSay(k / unit);
    PaddedSays(k % unit, STROOP_DIGITS);
    assert fraction == fraction[..n] + fraction[n..];
    ZerosSayNothing(fraction[n..]);
    NatAppend(fraction[..n], fraction[n..]);
    NatAppend(Digits(k / unit), fraction[..n]);
    Pow10Add(n, STROOP_DIGITS - n);
    MulAssoc(k / unit, Pow10(n), Pow10(STROOP_DIGITS - n));
    Distribute(k / unit * Pow10(n), Nat(fraction[..n]), Pow10(STROOP_DIGITS - n));
    WithoutCommas(h.ip);
    WorthMeans(Reading(h.ip, h.fp).coeff, n, k);
  }

  /** Every rendering of up to 28 digits of stroops is read back as the stroops it shows; so all renderings agree. */
  lemma {:induction false} RenderingsRoundTrip(h: Human, k: nat, n: nat)
    requires Shows(h, k, n) && k < Pow10(PRECISION)
    ensures ToStroops(Some(Text(h))) == Some(k)
  {
    hide Pow10, ToStroops, Reading, WorthStroops, Text, Padded, Digits, Without, IsNumber;
    ShownIsWorth(h, k, n);
    ReadingShape(h.ip, h.fp);
    FactorAtMost(Reading(h.ip, h.fp).coeff, Pow10(STROOP_DIGITS - n));
    HumanAmountExactly(h, k);
  }

  lemma ReadingShape(ip: string, fp: string)
    requires IsNumber(ip, fp)
    ensures Reading(ip, fp).Finite? && Reading(ip, fp).exp == -|fp|
  {
  }

  /** The usual rendering: grouped thousands, two or seven places, a currency word. */
  lemma GroupedShows(k: nat, n: nat, word: string)
    requires n <= STROOP_DIGITS && All(word, IsCurrency)
    requires All(Padded(k % Pow10(STROOP_DIGITS), STROOP_DIGITS)[n..], c => c == '0')
    ensures Shows(Human("", Grouped(Digits(k / Pow10(STROOP_DIGITS))), Padded(k % Pow10(STROOP_DIGITS), STROOP_DIGITS)[..n],
                        " ", word, ""), k, n)
  {
    hide Pow10, Grouped, Without, Digits, Padded;
    GroupedShape(Digits(k / Pow10(STROOP_DIGITS)));
    GroupedReads(Digits(k / Pow10(STROOP_DIGITS)));
  }

  // ---- The scanner ----

  lemma {:induction false} RunWithin(a: string, b: string, p: char -> bool)
    requires RunOf(a, p) < |a|
    ensures RunOf(a + b, p) == RunOf(a, p)
  {
    var n := RunOf(a, p);
    assert (a + b)[..n] == a[..n];
    RunIs(a + b, p, n);
  }

  /** Text in which no number is still open at the end. */
  predicate Closed(a: string) {
    a == "" || (!InGroup(a[|a| - 1]) && a[|a| - 1] != '.')
  }

  lemma RunInside(a: string, b: string, p: char -> bool)
    requires a != "" && !p(a[|a| - 1])
    ensures RunOf(a + b, p) == RunOf(a, p) < |a|
  {
    hide RunOf;
    RunStops(a, p, |a| - 1);
    RunWithin(a, b, p);
  }

  lemma TokenWithin(a: string, b: string)
    requires a != "" && IsDigit(a[0]) && Closed(a)
    ensures TokenLength(a + b) == TokenLength(a) < |a|
  {
    hide RunOf;
    RunInside(a, b, InGroup);
    var i := RunOf(a, InGroup);
    assert (a + b)[i] == a[i];
    if a[i] == '.' {
      var after := a[i + 1..];
      assert after != "" && after[|after| - 1] == a[|a| - 1];
      RunInside(after, b, IsDigit);
      assert (a + b)[i + 1..] == after + b;
    }
  }

  /** Numbers on the two sides of a boundary are scanned apart. */
  lemma {:induction false} TokensSplit(a: string, b: string)
    requires Closed(a)
    ensures Tokens(a + b) == Tokens(a) + Tokens(b)
    decreases |a|
  {
    if a == "" {
      assert a + b == b;
    } else {
      var n := if IsDigit(a[0]) then TokenLength(a) else 1;
      if IsDigit(a[0]) { TokenWithin(a, b); }
      assert (a + b)[n..] == a[n..] + b && (a + b)[..n] == a[..n];
      TokensSplit(a[n..], b);
      assert Tokens(a + b) == (if IsDigit(a[0]) then [a[..n]] else []) + (Tokens(a[n..]) + Tokens(b));
    }
  }

  lemma TokenFound(before: string, ip: string, fp: string, rest: string)
    requires Closed(before) && IsNumber(ip, fp)
    requires rest != "" ==> !InGroup(rest[0]) && rest[0] != '.'
    ensures Written(ip, fp) in Tokens(before + (Written(ip, fp) + rest))
  {
    hide TokenLength, Written;
    var w := Written(ip, fp);
    TokensSplit(before, w + rest);
    TokenIs(ip, fp, rest);
    assert (w + rest)[..|w|] == w;
    assert Tokens(w + rest)[0] == w;
    var all := Tokens(before) + Tokens(w + rest);
    assert all[|Tokens(before)|] == w;
  }

  lemma TokenIsNumber(s: string)
    requires s != "" && IsDigit(s[0])
    ensures IsToken(s[..TokenLength(s)])
  {
    hide RunOf, IsToken;
    var i, n := RunOf(s, InGroup), TokenLength(s);
    RunStarts(s, InGroup);
    assert s[..n][..i] == s[..i];
    if n > i {
      var fp := s[i + 1..][..n - i - 1];
      assert s[..n] == s[..i] + ("." + fp);
      WrittenIsToken(s[..i], fp);
    } else {
      WrittenIsToken(s[..i], "");
      assert s[..i] + "" == s[..i];
    }
  }

  lemma RunStarts(s: string, p: char -> bool)
    requires s != "" && p(s[0])
    ensures RunOf(s, p) > 0
  {
  }

  lemma WrittenIsToken(ip: string, fp: string)
    requires IsNumber(ip, fp)
    ensures IsToken(Written(ip, fp))
  {
    hide RunOf;
    PartsOfWritten(ip, fp);
  }

  lemma PartsOfWritten(ip: string, fp: string)
    requires IsNumber(ip, fp)
    ensures IntegerPart(Written(ip, fp)) == ip && FractionPart(Written(ip, fp)) == fp
  {
    assert Written(ip, fp)[..|ip|] == ip;
    RunIs(Written(ip, fp), InGroup, |ip|);
  }

  lemma {:induction false} TokensAreNumbers(text: string)
    ensures forall i :: 0 <= i < |Tokens(text)| ==> IsToken(Tokens(text)[i])
    decreases |text|
  {
    hide IsToken, TokenLength;
    if text != "" {
      if IsDigit(text[0]) {
        TokenIsNumber(text);
        TokensAreNumbers(text[TokenLength(text)..]);
      } else {
        TokensAreNumbers(text[1..]);
      }
    }
  }

  lemma {:induction false} LabeledAreNumbers(tails: seq<string>)
    ensures forall i :: 0 <= i < |LabeledTokens(tails)| ==> IsToken(LabeledTokens(tails)[i])
  {
    hide IsToken, Tokens;
    if tails != [] {
      TokensAreNumbers(tails[|tails| - 1]);
      LabeledAreNumbers(tails[..|tails| - 1]);
    }
  }

  lemma PoolAreNumbers(tails: seq<string>, text: string)
    ensures forall i :: 0 <= i < |Pool(tails, text)| ==> IsToken(Pool(tails, text)[i])
  {
    hide IsToken, Tokens, LabeledTokens;
    TokensAreNumbers(text);
    LabeledAreNumbers(tails);
  }

  /** The invoice names the amount: a number where it may be found is worth exactly `k` stroops. */
  ghost predicate Named(k: int, token: string) {
    IsToken(token) && WorthStroops(Reading(IntegerPart(token), FractionPart(token)), k)
  }

  lemma {:induction false} TokenEquals(k: int, token: string)
    requires TargetIsExact(k) && IsToken(token)
    ensures TargetOf(k).value.Finite? && (Equals(TargetOf(k).value, token) <==> Named(k, token))
  {
    hide Reading, ParseDecimal, SameValue, WorthStroops, IsNumber, Written, IntegerPart, FractionPart;
    var ip, fp := IntegerPart(token), FractionPart(token);
    NumberParses(ip, fp);
    ReadingShape(ip, fp);
    TargetMeans(k, Reading(ip, fp));
  }

  lemma {:induction false} MatchesExactly(k: int, tails: seq<string>, text: string)
    requires TargetIsExact(k)
    ensures AmountMatches(k, tails, text) <==>
      exists i :: 0 <= i < |Pool(tails, text)| && Named(k, Pool(tails, text)[i])
  {
    hide Equals, Named, Pool, IsToken, TargetIsExact, TargetOf;
    var pool := Pool(tails, text);
    PoolAreNumbers(tails, text);
    forall i | 0 <= i < |pool|
      ensures TargetOf(k).Some? && TargetOf(k).value.Finite?
      ensures Equals(TargetOf(k).value, pool[i]) <==> Named(k, pool[i])
    {
      ExactTargetExists(k);
      TokenEquals(k, pool[i]);
    }
    ExactTargetExists(k);
  }

  lemma ExactTargetExists(k: int)
    requires TargetIsExact(k)
    ensures TargetOf(k).Some? && TargetOf(k).value.Finite?
  {
  }

  lemma {:induction false} StroopsDivide(amount: Option<string>, k: int)
    requires ToStroops(amount) == Some(k)
    ensures TargetIsExact(k)
  {
    hide StroopsOf, ParseDecimal, NormalizeAmount, TargetIsExact;
    var s := amount.value;
    match ParseDecimal(s) {
      case Some(d) => ParsedAmountsDivide(d, k);
      case None => ParsedAmountsDivide(ParseDecimal(NormalizeAmount(s).value).value, k);
    }
  }

  lemma {:induction false} NamedIsNotNegative(k: int, token: string)
    requires Named(k, token)
    ensures k >= 0
  {
    hide Pow10;
    var d := Reading(IntegerPart(token), FractionPart(token));
    WorthMeans(d.coeff, -d.exp, k);
    if k < 0 && -d.exp > STROOP_DIGITS { MulMono(k, -1, Pow10(-d.exp - STROOP_DIGITS)); }
  }

  /**
  Whatever string the extractor returned as the amount: the cross-check passes
  exactly when the invoice names that amount, to the last stroop, where payable
  amounts are looked for.  What passes is never negative.
  */
  lemma {:induction false} CrossCheckIsExact(amount: Option<string>, k: int, tails: seq<string>, text: string)
    requires ToStroops(amount) == Some(k)
    ensures AmountMatches(k, tails, text) <==>
      exists i :: 0 <= i < |Pool(tails, text)| && Named(k, Pool(tails, text)[i])
    ensures AmountMatches(k, tails, text) ==> k >= 0
  {
    hide AmountMatches, Pool, Named, ToStroops, TargetIsExact;
    StroopsDivide(amount, k);
    MatchesExactly(k, tails, text);
    if AmountMatches(k, tails, text) {
      var i :| 0 <= i < |Pool(tails, text)| && Named(k, Pool(tails, text)[i]);
      NamedIsNotNegative(k, Pool(tails, text)[i]);
    }
  }

  /** An amount of up to 28 digits is found in any text that renders it, whatever surrounds the rendering. */
  lemma {:induction false} OwnRenderingIsFound(h: Human, k: nat, n: nat, before: string, rest: string, tails: seq<string>)
    requires Shows(h, k, n) && k < Pow10(PRECISION) && Closed(before) && LabeledTokens(tails) == []
    requires rest != "" ==> !InGroup(rest[0]) && rest[0] != '.'
    ensures AmountMatches(k, tails, before + (Written(h.ip, h.fp) + rest))
  {
    hide Pow10, Reading, WorthStroops, Tokens, AmountMatches, Text, ToStroops;
    var w := Written(h.ip, h.fp);
    var text := before + (w + rest);
    ShownIsWorth(h, k, n);
    RenderingsRoundTrip(h, k, n);
    TokenFound(before, h.ip, h.fp, rest);
    var i :| 0 <= i < |Tokens(text)| && Tokens(text)[i] == w;
    PartsOfWritten(h.ip, h.fp);
    assert Named(k, Pool(tails, text)[i]);
    CrossCheckIsExact(Some(Text(h)), k, tails, text);
  }

  /** The same on a payable-labelled line whose first number renders the amount, whatever the rest of the invoice says. */
  lemma {:induction false} LabeledRenderingIsFound(
    h: Human, k: nat, n: nat, before: string, rest: string, tails: seq<string>, j: nat, text: string)
    requires Shows(h, k, n) && k < Pow10(PRECISION) && All(before, c => !InGroup(c) && c != '.')
    requires rest != "" ==> !InGroup(rest[0]) && rest[0] != '.'
    requires j < |tails| && tails[j] == before + (Written(h.ip, h.fp) + rest)
    ensures AmountMatches(k, tails, text)
  {
    hide Pow10, Reading, WorthStroops, Tokens, AmountMatches, Text, ToStroops, LabeledTokens;
    var w := Written(h.ip, h.fp);
    ShownIsWorth(h, k, n);
    RenderingsRoundTrip(h, k, n);
    FirstTokenIs(before, h.ip, h.fp, rest);
    LabeledHasFirst(tails, j);
    var i :| 0 <= i < |LabeledTokens(tails)| && LabeledTokens(tails)[i] == w;
    PartsOfWritten(h.ip, h.fp);
    assert Named(k, Pool(tails, text)[i]);
    CrossCheckIsExact(Some(Text(h)), k, tails, text);
  }

  lemma {:induction false} NoTokensBefore(before: string)
    requires All(before, c => !InGroup(c) && c != '.')
    ensures Tokens(before) == []
  {
    if before != "" { NoTokensBefore(before[1..]); }
  }

  lemma FirstTokenIs(before: string, ip: string, fp: string, rest: string)
    requires All(before, c => !InGroup(c) && c != '.') && IsNumber(ip, fp)
    requires rest != "" ==> !InGroup(rest[0]) && rest[0] != '.'
    ensures var found := Tokens(before + (Written(ip, fp) + rest)); found != [] && found[0] == Written(ip, fp)
  {
    hide TokenLength, Written;
    var w := Written(ip, fp);
    NoTokensBefore(before);
    TokensSplit(before, w + rest);
    TokenIs(ip, fp, rest);
    assert (w + rest)[..|w|] == w;
  }

  lemma {:induction false} LabeledHasFirst(tails: seq<string>, j: nat)
    requires j < |tails| && Tokens(tails[j]) != []
    ensures Tokens(tails[j])[0] in LabeledTokens(tails)
  {
    hide Tokens;
    if j < |tails| - 1 { LabeledHasFirst(tails[..|tails| - 1], j); }
  }

  // ---- Texts on which the conversion is not exact ----

  const LONG_AMOUNT := "1000000000000000000000.0000001"

  lemma {:induction false} LeadingOne(zeros: string)
    requires All(zeros, c => c == '0')
    ensures All("1" + zeros, IsDigit) && Nat("1" + zeros) == Pow10(|zeros|)
  {
    hide Pow10;
    ZerosSayNothing(zeros);
    assert Nat("1") == 1;
    NatAppend("1", zeros);
  }

  lemma {:induction false} TrailingOne(zeros: string)
    requires All(zeros, c => c == '0')
    ensures All(zeros + "1", IsDigit) && Nat(zeros + "1") == 1
  {
    ZerosSayNothing(zeros);
    assert Nat("1") == 1;
    NatAppend(zeros, "1");
  }

  /** Ten to the twenty-one and a ten-millionth, written out: the last stroop is lost. */
  lemma LongTextIsAltered()
    ensures IsNumber("1000000000000000000000", "0000001")
    ensures LONG_AMOUNT == Written("1000000000000000000000", "0000001")
    ensures WorthStroops(Reading("1000000000000000000000", "0000001"), Pow10(PRECISION) + 1)
    ensures ToStroops(Some(LONG_AMOUNT)) == Some(Pow10(PRECISION))
  {
    hide Pow10, Nat, Without, ToStroops, StroopsOf, WorthStroops;
    var ip, fp := "1000000000000000000000", "0000001";
    var zeros := "000000000000000000000";
    assert ip == "1" + zeros && fp == "000000" + "1";
    LeadingOne(zeros);
    TrailingOne("000000");
    assert LONG_AMOUNT == ip + ("." + fp);
    var h := Human("", ip, fp, "", "", "");
    assert Text(h) == LONG_AMOUNT;
    WithoutNothing(ip, ',');
    NatAppend(ip, fp);
    Pow10Add(21, 7);
    assert Reading(ip, fp) == Finite(false, Pow10(PRECISION) + 1, -STROOP_DIGITS);
    HumanAmountIsRead(h);
    LongAmountIsAltered();
  }

  const TINY_AMOUNT := "1E-2000000"

  lemma TinyExponent()
    ensures ParseExponent("E-2000000") == Some(-2000000)
  {
    hide Nat, RunOf, Pow10;
    var tail, digits := "E-2000000", "2000000";
    assert tail[2..] == digits;
    TwoMillion();
    AllRun(digits, IsDigit);
  }

  lemma TinyShape()
    ensures TINY_AMOUNT == "" + TINY_AMOUNT + "" == Written("1", "") + "E-2000000"
    ensures IsDigit(TINY_AMOUNT[0]) && !IsSpace(TINY_AMOUNT[|TINY_AMOUNT| - 1]) && '_' !in TINY_AMOUNT
    ensures EndsNumber("E-2000000") && "1" + "" == "1"
  {
    assert TINY_AMOUNT == "1" + "E-2000000";
  }

  lemma TinyParses()
    ensures ParseDecimal(TINY_AMOUNT) == Some(Finite(false, 1, -2000000))
  {
    hide ParseExponent, ParseDecimal, ParseNumber, RunOf, Nat, Pow10, Written, EndsNumber, IsSpace;
    TinyShape();
    OneIsOne();
    TinyExponent();
    ParsesAsNumber("", TINY_AMOUNT, "");
    NumberThenRest("1", "", "E-2000000");
  }

  lemma OneIsOne()
    ensures All("1", IsDigit) && Nat("1") == 1
  {
  }

  /** A written amount that is not zero and is read as zero. */
  lemma TinyTextIsZero()
    ensures ParseDecimal(TINY_AMOUNT) == Some(Finite(false, 1, -2000000)) && !WorthStroops(Finite(false, 1, -2000000), 0)
    ensures ToStroops(Some(TINY_AMOUNT)) == Some(0)
  {
    hide ParseDecimal, NormalizeAmount, StroopsOf, DigitCount, Pow10, WorthStroops;
    TinyParses();
    PowersOfTen();
    DigitCountIs(Pow10(7), 7);
    TinyAmountBecomesZero(Finite(false, 1, -2000000));
  }

  lemma TwoMillion()
    ensures All("2000000", IsDigit) && Nat("2000000") == 2000000
  {
    ZerosSayNothing("000000");
    assert Nat("2") == 2;
    NatAppend("2", "000000");
    assert "2" + "000000" == "2000000";
    assert Pow10(6) == 1000000;
  }

  // ---- The scanner finds what is there, and nothing else ----

  /** The token stands in the text, and no digit run is cut at its ends. */
  ghost predicate StandsIn(token: string, text: string) {
    exists before, rest :: StandsBetween(before, token, rest, text)
  }

  ghost predicate StandsBetween(before: string, token: string, rest: string, text: string) {
    && text == before + (token + rest)
    && (before != "" ==> !IsDigit(before[|before| - 1])) && (rest != "" ==> !IsDigit(rest[0]))
  }

  lemma TokenEnds(s: string)
    requires s != "" && IsDigit(s[0])
    ensures TokenLength(s) < |s| ==> !IsDigit(s[TokenLength(s)])
  {
  }

  lemma {:induction false} TokensStand(before: string, text: string)
    requires before != "" && text != "" ==> !(IsDigit(before[|before| - 1]) && IsDigit(text[0]))
    ensures forall i :: 0 <= i < |Tokens(text)| ==> StandsIn(Tokens(text)[i], before + text)
    decreases |text|
  {
    hide TokenLength, StandsIn;
    if text != "" {
      var n := if IsDigit(text[0]) then TokenLength(text) else 1;
      var rest := text[n..];
      if IsDigit(text[0]) {
        TokenEnds(text);
        assert text == text[..n] + rest;
        Stands(before, text[..n], rest, before + text);
      }
      assert before + text == (before + text[..n]) + rest;
      TokensStand(before + text[..n], rest);
    }
  }

  lemma Stands(before: string, token: string, rest: string, text: string)
    requires StandsBetween(before, token, rest, text)
    ensures StandsIn(token, text)
  {
  }

  lemma {:induction false} LabeledExactly(tails: seq<string>, token: string)
    ensures token in LabeledTokens(tails) <==>
      exists j :: 0 <= j < |tails| && Tokens(tails[j]) != [] && Tokens(tails[j])[0] == token
  {
    hide Tokens;
    if tails != [] {
      var n := |tails| - 1;
      LabeledExactly(tails[..n], token);
      if token in LabeledTokens(tails[..n]) {
        var j :| 0 <= j < n && Tokens(tails[..n][j]) != [] && Tokens(tails[..n][j])[0] == token;
        assert Tokens(tails[j])[0] == token;
      }
      forall j | 0 <= j < |tails| && Tokens(tails[j]) != [] && Tokens(tails[j])[0] == token
        ensures token in LabeledTokens(tails)
      {
        if j < n { assert tails[..n][j] == tails[j]; }
      }
    }
  }

  /** The first number of the line is worth `k` stroops. */
  ghost predicate NamedFirst(k: int, tail: string) {
    Tokens(tail) != [] && Named(k, Tokens(tail)[0])
  }

  ghost predicate NamedAmong(k: int, tokens: seq<string>) {
    exists i :: 0 <= i < |tokens| && Named(k, tokens[i])
  }

  /** The invoice names the amount: on a payable-labelled line as soon as one of them has a number, else anywhere. */
  ghost predicate InvoiceNames(k: int, tails: seq<string>, text: string) {
    if exists j :: 0 <= j < |tails| && Tokens(tails[j]) != []
    then exists j :: 0 <= j < |tails| && NamedFirst(k, tails[j])
    else NamedAmong(k, Tokens(text))
  }

  lemma {:induction false} LabeledNames(k: int, tails: seq<string>)
    ensures NamedAmong(k, LabeledTokens(tails)) <==> (exists j :: 0 <= j < |tails| && NamedFirst(k, tails[j]))
  {
    hide Tokens, Named, LabeledTokens;
    var labeled := LabeledTokens(tails);
    if NamedAmong(k, labeled) {
      var i :| 0 <= i < |labeled| && Named(k, labeled[i]);
      LabeledExactly(tails, labeled[i]);
      var m :| 0 <= m < |tails| && Tokens(tails[m]) != [] && Tokens(tails[m])[0] == labeled[i];
      assert NamedFirst(k, tails[m]);
    }
    if m :| 0 <= m < |tails| && NamedFirst(k, tails[m]) {
      LabeledExactly(tails, Tokens(tails[m])[0]);
      var i :| 0 <= i < |labeled| && labeled[i] == Tokens(tails[m])[0];
      assert Named(k, labeled[i]);
    }
  }

  lemma {:induction false} LabeledWhenAny(tails: seq<string>)
    ensures LabeledTokens(tails) != [] <==> exists j :: 0 <= j < |tails| && Tokens(tails[j]) != []
  {
    hide Tokens, LabeledTokens;
    if LabeledTokens(tails) != [] {
      assert LabeledTokens(tails)[0] in LabeledTokens(tails);
      LabeledExactly(tails, LabeledTokens(tails)[0]);
    }
    if j :| 0 <= j < |tails| && Tokens(tails[j]) != [] {
      LabeledExactly(tails, Tokens(tails[j])[0]);
    }
  }

  lemma {:induction false} PoolNames(k: int, tails: seq<string>, text: string)
    ensures NamedAmong(k, Pool(tails, text)) <==> InvoiceNames(k, tails, text)
  {
    hide Tokens, LabeledTokens, NamedFirst, NamedAmong;
    LabeledNames(k, tails);
    LabeledWhenAny(tails);
  }

  /**
  Whatever string the extractor returned: the cross-check passes exactly when
  the invoice names that amount to the last stroop, and a decoy elsewhere does not
  count once a payable-labelled line has a number.
  */
  lemma {:induction false} CrossCheckReadsInvoice(amount: Option<string>, k: int, tails: seq<string>, text: string)
    requires ToStroops(amount) == Some(k)
    ensures AmountMatches(k, tails, text) <==> InvoiceNames(k, tails, text)
  {
    hide ToStroops, AmountMatches, InvoiceNames, Pool, Named;
    CrossCheckIsExact(amount, k, tails, text);
    assert NamedAmong(k, Pool(tails, text)) <==> exists i :: 0 <= i < |Pool(tails, text)| && Named(k, Pool(tails, text)[i]);
    PoolNames(k, tails, text);
  }

  // ---- What the parser refuses ----

  /** The parts of a text that normalises. */
  function HumanOf(amount: string): Human
    requires NormalizeAmount(amount).Some?
  {
    var l := RunOf(amount, IsSpace);
    var s := amount[l..];
    var n := TokenLength(s);
    var rest := s[n..];
    var g := RunOf(rest, IsSpace);
    var m := RunOf(rest[g..], IsCurrency);
    Human(amount[..l], IntegerPart(s[..n]), FractionPart(s[..n]), rest[..g], rest[g..][..m], rest[g..][m..])
  }

  lemma HumanOfIsWell(amount: string)
    requires NormalizeAmount(amount).Some?
    ensures WellWritten(HumanOf(amount))
    ensures var s := amount[RunOf(amount, IsSpace)..];
            Written(HumanOf(amount).ip, HumanOf(amount).fp) == s[..TokenLength(s)]
  {
    hide RunOf, Without, TokenLength, IntegerPart, FractionPart, Written, IsNumber;
    var s := amount[RunOf(amount, IsSpace)..];
    TokenIsNumber(s);
    TokenParts(s[..TokenLength(s)]);
    var rest := s[TokenLength(s)..];
    var gap := rest[RunOf(rest, IsSpace)..];
    WholeRun(gap[RunOf(gap, IsCurrency)..], IsSpace);
  }

  lemma TokenParts(token: string)
    requires IsToken(token)
    ensures IsNumber(IntegerPart(token), FractionPart(token)) && token == Written(IntegerPart(token), FractionPart(token))
  {
  }

  lemma HumanOfText(amount: string)
    requires NormalizeAmount(amount).Some?
    ensures Text(HumanOf(amount)) == amount
    ensures NormalizeAmount(amount).value == Without(Written(HumanOf(amount).ip, HumanOf(amount).fp), ',')
  {
    hide RunOf, Without, TokenLength, IntegerPart, FractionPart, Written, IsNumber, WellWritten;
    HumanOfIsWell(amount);
    var h := HumanOf(amount);
    var s := amount[RunOf(amount, IsSpace)..];
    var w, rest := s[..TokenLength(s)], s[TokenLength(s)..];
    Rejoins(amount, RunOf(amount, IsSpace));
    Rejoins(s, TokenLength(s));
    Rejoins(rest, RunOf(rest, IsSpace));
    var gap := rest[RunOf(rest, IsSpace)..];
    Rejoins(gap, RunOf(gap, IsCurrency));
    Nested(h.lead, w, h.gap, h.word, h.trail);
  }

  lemma Nested(a: string, b: string, c: string, d: string, e: string)
    ensures a + b + c + d + e == a + (b + (c + (d + e)))
  {
    assert b + (c + (d + e)) == b + c + d + e;
  }

  lemma Rejoins(s: string, n: nat)
    requires n <= |s|
    ensures s[..n] + s[n..] == s
  {
  }

  /** Only one clean number with a currency word is normalised; nothing is salvaged from any other text. */
  lemma {:induction false} NormalizesOnly(amount: string)
    requires NormalizeAmount(amount).Some?
    ensures exists h :: WellWritten(h) && Text(h) == amount && NormalizeAmount(amount).value == Without(Written(h.ip, h.fp), ',')
  {
    hide NormalizeAmount, WellWritten, Text, Written, Without, HumanOf;
    HumanOfIsWell(amount);
    HumanOfText(amount);
  }

  lemma WholeRun(s: string, p: char -> bool)
    requires RunOf(s, p) == |s|
    ensures All(s, p)
  {
    assert s[..|s|] == s;
  }

  /** A number as the decimal grammar spells it: digits, perhaps a point and more digits, perhaps an exponent. */
  datatype Spelling = Spelling(ip: string, point: bool, fp: string, tail: string)

  predicate WellSpelled(sp: Spelling) {
    && All(sp.ip, IsDigit) && All(sp.fp, IsDigit) && sp.ip + sp.fp != "" && (!sp.point ==> sp.fp == "")
    && ParseExponent(sp.tail).Some?
  }

  function Spelled(sp: Spelling): string {
    sp.ip + (if sp.point then "." + sp.fp else "") + sp.tail
  }

  /** What it stands for. */
  function Meant(negative: bool, sp: Spelling): Decimal
    requires WellSpelled(sp)
  {
    Finite(negative, Nat(sp.ip + sp.fp), ParseExponent(sp.tail).value - |sp.fp|)
  }

  lemma TailStarts(tail: string)
    requires ParseExponent(tail).Some?
    ensures tail == "" || IsExponentMark(tail[0])
  {
  }

  /** The text falls apart where the grammar looks. */
  lemma SpelledParts(sp: Spelling)
    requires WellSpelled(sp)
    ensures var u, i := Spelled(sp), |sp.ip|;
            && |u| >= i && u[..i] == sp.ip && (i < |u| ==> !IsDigit(u[i]))
            && (sp.point ==> i < |u| && u[i] == '.' && u[i + 1..] == sp.fp + sp.tail)
            && (!sp.point ==> u[i..] == sp.tail && (i < |u| ==> u[i] != '.'))
  {
    hide ParseExponent, Nat;
    TailStarts(sp.tail);
    if sp.point { assert Spelled(sp) == sp.ip + ("." + (sp.fp + sp.tail)); }
  }

  lemma FractionParts(fp: string, tail: string)
    requires All(fp, IsDigit) && (tail == "" || IsExponentMark(tail[0]))
    ensures RunOf(fp + tail, IsDigit) == |fp| && (fp + tail)[..|fp|] == fp && (fp + tail)[|fp|..] == tail
  {
    hide RunOf;
    assert (fp + tail)[..|fp|] == fp;
    RunIs(fp + tail, IsDigit, |fp|);
  }

  lemma {:induction false} SpelledParses(negative: bool, sp: Spelling)
    requires WellSpelled(sp)
    ensures ParseNumber(negative, Spelled(sp)) == Some(Meant(negative, sp))
  {
    hide ParseExponent, Nat, RunOf, Spelled;
    var u := Spelled(sp);
    SpelledParts(sp);
    TailStarts(sp.tail);
    RunIs(u, IsDigit, |sp.ip|);
    if sp.point {
      FractionParts(sp.fp, sp.tail);
    } else {
      assert sp.tail[0..] == sp.tail;
      assert sp.ip + sp.fp == sp.ip && u[..|sp.ip|] + sp.tail[..0] == sp.ip;
    }
  }

  function SpellingOf(u: string): Spelling {
    var i := RunOf(u, IsDigit);
    var point := i < |u| && u[i] == '.';
    var after := if point then u[i + 1..] else u[i..];
    var j := if point then RunOf(after, IsDigit) else 0;
    Spelling(u[..i], point, after[..j], after[j..])
  }

  lemma SpelledAgain(u: string)
    ensures Spelled(SpellingOf(u)) == u
    ensures All(SpellingOf(u).ip, IsDigit) && All(SpellingOf(u).fp, IsDigit)
  {
    hide RunOf, Spelled;
    var i := RunOf(u, IsDigit);
    var point := i < |u| && u[i] == '.';
    var after := if point then u[i + 1..] else u[i..];
    var j := if point then RunOf(after, IsDigit) else 0;
    Rejoins(after, j);
    Rejoins(u, i);
    SpelledJoins(u, i, point, j);
  }

  lemma JoinFour(a: string, b: string, c: string, d: string)
    ensures a + (b + c) + d == a + (b + (c + d))
  {
  }

  lemma SpelledJoins(u: string, i: nat, point: bool, j: nat)
    requires i <= |u| && (point ==> i < |u| && u[i] == '.')
    requires j <= if point then |u| - i - 1 else 0
    ensures var after := if point then u[i + 1..] else u[i..];
            Spelled(Spelling(u[..i], point, after[..j], after[j..])) == u
  {
    var after := if point then u[i + 1..] else u[i..];
    Rejoins(after, j);
    Rejoins(u, i);
    if point {
      assert u[i..] == "." + after;
      JoinFour(u[..i], ".", after[..j], after[j..]);
    } else {
      JoinFour(u[..i], "", after[..j], after[j..]);
      assert after[..j] == "" && after[j..] == after;
    }
  }

  lemma ParsedSpelling(negative: bool, u: string)
    requires ParseNumber(negative, u).Some?
    ensures WellSpelled(SpellingOf(u)) && ParseNumber(negative, u) == Some(Meant(negative, SpellingOf(u)))
  {
    hide ParseExponent, Nat, RunOf, Spelled;
    SpelledAgain(u);
  }

  /** And nothing else parses: the constructor reads exactly the spelled numbers, each as what it stands for. */
  lemma {:induction false} ParsesOnlySpelled(negative: bool, u: string)
    requires ParseNumber(negative, u).Some?
    ensures exists sp :: WellSpelled(sp) && Spelled(sp) == u && ParseNumber(negative, u) == Some(Meant(negative, sp))
  {
    hide ParseNumber, WellSpelled, Spelled, Meant, SpellingOf;
    SpelledAgain(u);
    ParsedSpelling(negative, u);
  }

  /** The exponent: nothing, or a mark, perhaps a sign, and digits. */
  lemma ExponentExactly(tail: string, mark: char, sign: string, digits: string)
    requires tail == [mark] + sign + digits && sign in ["", "+", "-"] && digits != "" && All(digits, IsDigit)
    requires mark == 'e' || mark == 'E'
    ensures ParseExponent("") == Some(0)
    ensures ParseExponent(tail) == Some(if sign == "-" then 0 - Nat(digits) else Nat(digits))
  {
    hide Nat, RunOf;
    AllRun(digits, IsDigit);
    assert tail[1..] == sign + digits;
    if sign == "" {
      assert tail[1..] == digits;
      assert IsDigit(digits[0]);
    } else {
      assert tail[1] == sign[0] && tail[2..] == digits;
    }
  }

  /** A sign in front is read, space around it is not, and underscores are dropped wherever they are. */
  lemma SignIsRead(lead: string, sign: string, x: string, trail: string)
    requires All(lead, IsSpace) && All(trail, IsSpace) && sign in ["", "+", "-"]
    requires All(x, c => !IsSpace(c)) && x != "" && Without(x, '_') != "" && IsDigit(Without(x, '_')[0])
    ensures ParseDecimal(lead + (sign + x) + trail) == ParseNumber(sign == "-", Without(x, '_'))
  {
    hide ParseNumber, Strip, IsSpecialWord, Without;
    var t := sign + x;
    assert t[|t| - 1] == x[|x| - 1] && !IsSpace(t[0]);
    StripTrims(lead, t, trail);
    WithoutAppend(sign, x, '_');
    SignStays(sign);
    NoSpecialWord(Without(x, '_'));
    if sign != "" { assert (sign + Without(x, '_'))[1..] == Without(x, '_'); }
    if sign == "" { assert sign + Without(x, '_') == Without(x, '_'); }
  }

  lemma SignStays(sign: string)
    requires sign in ["", "+", "-"]
    ensures Without(sign, '_') == sign
  {
  }
}
