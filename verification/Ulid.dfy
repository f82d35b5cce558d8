/** Sortable identifiers: 26 base-32 characters, 50 bits of time above 80 of chance. */
module Ulid {
  import opened Arithmetic
  import opened RequestHash
  import opened Wrappers

  const ALPHABET := "0123456789ABCDEFGHJKMNPQRSTVWXYZ"

  const LENGTH := 26
  const RANDOM_LENGTH := 16
  const TIME_LENGTH := 10

  function Pow32(n: nat): (p: nat)
    ensures p > 0
  {
    if n == 0 then 1 else 32 * Pow32(n - 1)
  }

  function Symbol(d: nat): char
    requires d < 32
  {
    ALPHABET[d]
  }

  /** The last `n` base-32 digits of `v`, most significant first. */
  function Encode(v: nat, n: nat): (s: string)
    ensures |s| == n
  {
    if n == 0 then "" else Encode(v / 32, n - 1) + [Symbol(v % 32)]
  }

  function IndexIn(s: string, c: char): (r: Option<nat>)
    ensures r.Some? ==> r.value < |s| && s[r.value] == c
  {
    if s == "" then None
    else if s[|s| - 1] == c then Some(|s| - 1)
    else IndexIn(s[..|s| - 1], c)
  }

  function IndexOf(c: char): (r: Option<nat>)
    ensures r.Some? ==> r.value < 32 && Symbol(r.value) == c
  {
    IndexIn(ALPHABET, c)
  }

  /** The number written, unless a character is foreign. */
  function Decode(s: string): Option<nat> {
    if s == "" then Some(0)
    else
      match Decode(s[..|s| - 1])
      case None => None
      case Some(v) =>
        match IndexOf(s[|s| - 1])
        case None => None
        case Some(d) => Some(32 * v + d)
  }

  // ---- The alphabet ----

  lemma LowerHalfRises(k: nat)
    requires k < 16
    ensures |ALPHABET| == 32 && ALPHABET[k] < ALPHABET[k + 1]
  {
    assert ALPHABET[0] < ALPHABET[1] < ALPHABET[2] < ALPHABET[3] < ALPHABET[4] < ALPHABET[5] < ALPHABET[6] < ALPHABET[7];
    assert ALPHABET[7] < ALPHABET[8] < ALPHABET[9] < ALPHABET[10] < ALPHABET[11] < ALPHABET[12] < ALPHABET[13];
    assert ALPHABET[13] < ALPHABET[14] < ALPHABET[15] < ALPHABET[16];
  }

  lemma UpperHalfRises(k: nat)
    requires 16 <= k < 31
    ensures |ALPHABET| == 32 && ALPHABET[k] < ALPHABET[k + 1]
  {
    assert ALPHABET[16] < ALPHABET[17] < ALPHABET[18] < ALPHABET[19] < ALPHABET[20] < ALPHABET[21] < ALPHABET[22];
    assert ALPHABET[22] < ALPHABET[23] < ALPHABET[24] < ALPHABET[25] < ALPHABET[26] < ALPHABET[27] < ALPHABET[28];
    assert ALPHABET[28] < ALPHABET[29] < ALPHABET[30] < ALPHABET[31];
  }

  lemma AlphabetRises(i: nat, j: nat)
    requires i < j < 32
    ensures |ALPHABET| == 32 && ALPHABET[i] < ALPHABET[j]
  {
    var s := ALPHABET;
    LowerHalfRises(0);
    forall k | 0 <= k < |s| - 1 ensures s[k] < s[k + 1] {
      if k < 16 { LowerHalfRises(k); } else { UpperHalfRises(k); }
    }
    Rises(s, i, j);
  }

  lemma SymbolsRise(i: nat, j: nat)
    requires i < j < 32
    ensures Symbol(i) < Symbol(j)
  {
    AlphabetRises(i, j);
  }

  lemma {:induction false} Rises(s: string, i: nat, j: nat)
    requires i < j < |s| && (forall k :: 0 <= k < |s| - 1 ==> s[k] < s[k + 1])
    ensures s[i] < s[j]
  {
    if i < j - 1 { Rises(s, i, j - 1); }
    assert s[j - 1] < s[j - 1 + 1];
  }

  lemma {:induction false} IndexFinds(s: string, d: nat)
    requires d < |s| && (forall i, j :: 0 <= i < j < |s| ==> s[i] != s[j])
    ensures IndexIn(s, s[d]) == Some(d)
  {
    if d < |s| - 1 { IndexFinds(s[..|s| - 1], d); }
  }

  lemma DigitDecodes(d: nat)
    requires d < 32
    ensures IndexOf(Symbol(d)) == Some(d)
  {
    forall i, j | 0 <= i < j < |ALPHABET| ensures ALPHABET[i] != ALPHABET[j] { AlphabetRises(i, j); }
    IndexFinds(ALPHABET, d);
  }

  /** The symbols are the digits and the capitals other than I, L, O and U, in order. */
  lemma SymbolsExactly(c: char)
    ensures IndexOf(c) ==
      if '0' <= c <= '9' then Some(c as int - '0' as int)
      else if 'A' <= c <= 'H' then Some(c as int - 'A' as int + 10)
      else if 'J' <= c <= 'K' then Some(c as int - 'J' as int + 18)
      else if 'M' <= c <= 'N' then Some(c as int - 'M' as int + 20)
      else if 'P' <= c <= 'T' then Some(c as int - 'P' as int + 22)
      else if 'V' <= c <= 'Z' then Some(c as int - 'V' as int + 27)
      else None
  {
    hide IndexOf, Symbol;
    SymbolsAre();
    if IndexOf(c).Some? {
      assert Symbol(IndexOf(c).value) == c;
    }
    forall d: nat | d < 32 ensures IndexOf(Symbol(d)) == Some(d) { DigitDecodes(d); }
  }

  lemma SymbolsAre()
    ensures forall d: nat | d < 32 ::
      Symbol(d) as int - d == if d < 10 then '0' as int else if d < 18 then 'A' as int - 10
                              else if d < 20 then 'J' as int - 18 else if d < 22 then 'M' as int - 20
                              else if d < 27 then 'P' as int - 22 else 'V' as int - 27
  {
  }

  // ---- Digits ----

  lemma {:induction false} ModUnique(v: nat, m: nat, q: nat, r: nat)
    requires v == q * m + r && r < m
    ensures v % m == r && v / m == q
  {
    DivMod(v, m);
    var n := v / m - q;
    Distribute(v / m, q, m);
    MulAtLeast(n, m);
  }

  lemma {:induction false} LowDigits(v: nat, p: nat)
    requires p > 0
    ensures v % (32 * p) == 32 * (v / 32 % p) + v % 32 && v / (32 * p) == v / 32 / p
  {
    DivMod(v, 32);
    DivMod(v / 32, p);
    MulAssoc(32, v / 32 / p, p);
    MulAssoc(v / 32 / p, 32, p);
    ModUnique(v, 32 * p, v / 32 / p, 32 * (v / 32 % p) + v % 32);
  }

  lemma {:induction false} DecodeSnoc(s: string, d: nat)
    requires d < 32 && Decode(s).Some?
    ensures Decode(s + [Symbol(d)]) == Some(32 * Decode(s).value + d)
  {
    hide IndexOf, Symbol;
    DigitDecodes(d);
    assert (s + [Symbol(d)])[..|s|] == s;
  }

  lemma {:induction false} DecodeEncoded(v: nat, n: nat)
    ensures Decode(Encode(v, n)) == Some(v % Pow32(n))
  {
    if n > 0 {
      hide Decode, Symbol;
      DecodeEncoded(v / 32, n - 1);
      DecodeSnoc(Encode(v / 32, n - 1), v % 32);
      LowDigits(v, Pow32(n - 1));
    }
  }

  lemma {:induction false} LessSnoc(s: string, t: string, x: char, y: char)
    requires |s| == |t|
    ensures Less(s + [x], t + [y]) <==> Less(s, t) || (s == t && x < y)
  {
    if s != "" {
      assert (s + [x])[1..] == s[1..] + [x] && (t + [y])[1..] == t[1..] + [y];
      assert s == [s[0]] + s[1..] && t == [t[0]] + t[1..];
      LessSnoc(s[1..], t[1..], x, y);
    }
  }

  lemma LastDigitDecides(a: nat, b: nat, p: nat)
    requires a < b < 32 * p
    ensures b / 32 < p && (a / 32 < b / 32 || (a / 32 == b / 32 && a % 32 < b % 32))
  {
  }

  /** The strings are ordered as the numbers are. */
  lemma {:induction false} EncodeOrders(a: nat, b: nat, n: nat)
    requires a < b < Pow32(n)
    ensures Less(Encode(a, n), Encode(b, n))
  {
    hide Less, Symbol;
    LastDigitDecides(a, b, Pow32(n - 1));
    LessSnoc(Encode(a / 32, n - 1), Encode(b / 32, n - 1), Symbol(a % 32), Symbol(b % 32));
    if a / 32 < b / 32 {
      EncodeOrders(a / 32, b / 32, n - 1);
    } else {
      SymbolsRise(a % 32, b % 32);
    }
  }

  // ---- The two functions ----

  function Value(ts: nat, random: nat): nat {
    ts * Pow32(RANDOM_LENGTH) + random
  }

  lemma {:induction false} Pow32Add(a: nat, b: nat)
    ensures Pow32(a + b) == Pow32(a) * Pow32(b)
  {
    if a > 0 {
      Pow32Add(a - 1, b);
      MulAssoc(32, Pow32(a - 1), Pow32(b));
    }
  }

  lemma {:induction false} DivideTwice(v: nat, a: nat, b: nat)
    requires a > 0 && b > 0
    ensures a * b > 0 && v / a / b == v / (a * b)
  {
    var q, s, r := v / a / b, v / a % b, v % a;
    DivMod(v, a);
    DivMod(v / a, b);
    Distribute(q * b, s, a);
    MulAssoc(q, b, a);
    MulMono(s, b - 1, a);
    Distribute(b, 1, a);
    MulAtLeast(a, b);
    assert b * a == a * b;
    ModUnique(v, a * b, q, s * a + r);
  }

  lemma {:induction false} ShiftSteps(v: nat, n: nat)
    ensures v / Pow32(n) / 32 == v / Pow32(n + 1)
  {
    DivideTwice(v, Pow32(n), 32);
  }

  lemma Widths()
    ensures Pow32(TIME_LENGTH) == 0x4_0000_0000_0000 && Pow32(RANDOM_LENGTH) == 0x1_0000_0000_0000_0000_0000
  {
  }

  /** Twenty-six characters, taken off the top five bits at a time. */
  method New(ts: nat, random: nat) returns (ulid: string)
    requires random < Pow32(RANDOM_LENGTH)
    ensures ulid == Encode(Value(ts, random), LENGTH)
  {
    hide Pow32, Symbol;
    ulid := "";
    var value := Value(ts, random);
    for k := 0 to LENGTH
      invariant ulid == Encode(value / Pow32(LENGTH - k), k)
    {
      ShiftSteps(value, LENGTH - k - 1);
      ulid := ulid + [Symbol(value / Pow32(LENGTH - k - 1) % 32)];
    }
    assert Pow32(0) == 1 by { FirstPower(); }
  }

  lemma FirstPower()
    ensures Pow32(0) == 1
  {
  }

  lemma DecodesNothing()
    ensures Decode("") == Some(0)
  {
  }

  lemma DecodeStep(s: string, i: nat)
    requires i < |s| && Decode(s[..i]).Some?
    ensures Decode(s[..i + 1]) ==
      match IndexOf(s[i])
      case None => None
      case Some(d) => Some(32 * Decode(s[..i]).value + d)
  {
    assert s[..i + 1][..i] == s[..i];
  }

  method TimestampMs(ulid: string) returns (ts: Option<nat>)
    ensures ts == match Decode(ulid) case None => None case Some(v) => Some(v / Pow32(RANDOM_LENGTH))
  {
    hide Pow32, IndexOf, Decode;
    var value := 0;
    DecodesNothing();
    assert ulid[..0] == "";
    for i := 0 to |ulid|
      invariant Decode(ulid[..i]) == Some(value)
    {
      DecodeStep(ulid, i);
      var digit := IndexOf(ulid[i]);
      if digit == None {
        Poisoned(ulid, i + 1);
        return None;
      }
      value := 32 * value + digit.value;
    }
    assert ulid[..|ulid|] == ulid;
    ts := Some(value / Pow32(RANDOM_LENGTH));
  }

  lemma {:induction false} Poisoned(s: string, n: nat)
    requires n <= |s| && Decode(s[..n]) == None
    ensures Decode(s) == None
  {
    if n == |s| {
      assert s[..n] == s;
    } else {
      assert s[..|s| - 1][..n] == s[..n];
      Poisoned(s[..|s| - 1], n);
    }
  }

  /** The time the decoder recovers is the time given, cut to 50 bits; so exactly the times below 2^50 survive. */
  lemma {:induction false} TimestampRoundTrips(ts: nat, random: nat)
    requires random < Pow32(RANDOM_LENGTH)
    ensures var s := Encode(Value(ts, random), LENGTH);
            && Decode(s).Some?
            && Decode(s).value / Pow32(RANDOM_LENGTH) == ts % Pow32(TIME_LENGTH)
            && (Decode(s).value / Pow32(RANDOM_LENGTH) == ts <==> ts < 0x4_0000_0000_0000)
  {
    hide Pow32, Decode, Encode;
    Widths();
    var v, p, t := Value(ts, random), Pow32(RANDOM_LENGTH), Pow32(TIME_LENGTH);
    DecodeEncoded(v, LENGTH);
    Pow32Add(TIME_LENGTH, RANDOM_LENGTH);
    DivMod(ts, t);
    var low := ts % t * p + random;
    Distribute(ts / t * t, ts % t, p);
    MulAssoc(ts / t, t, p);
    MulMono(ts % t, t - 1, p);
    Distribute(t, 1, p);
    ModUnique(v, t * p, ts / t, low);
    ModUnique(low, p, ts % t, random);
    if ts < t { ModUnique(ts, t, 0, ts); }
  }

  /** An earlier time sorts first, whatever the random parts. */
  lemma EarlierSortsFirst(ts1: nat, random1: nat, ts2: nat, random2: nat)
    requires random1 < Pow32(RANDOM_LENGTH) && random2 < Pow32(RANDOM_LENGTH)
    requires ts1 < ts2 < Pow32(TIME_LENGTH)
    ensures Less(Encode(Value(ts1, random1), LENGTH), Encode(Value(ts2, random2), LENGTH))
  {
    hide Pow32, Encode, Less;
    var p := Pow32(RANDOM_LENGTH);
    Pow32Add(TIME_LENGTH, RANDOM_LENGTH);
    MulMono(ts1 + 1, ts2, p);
    Distribute(ts1, 1, p);
    MulMono(ts2 + 1, Pow32(TIME_LENGTH), p);
    Distribute(ts2, 1, p);
    EncodeOrders(Value(ts1, random1), Value(ts2, random2), LENGTH);
  }

  /** Different parts give different identifiers. */
  lemma UlidsDiffer(ts1: nat, random1: nat, ts2: nat, random2: nat)
    requires random1 < Pow32(RANDOM_LENGTH) && random2 < Pow32(RANDOM_LENGTH)
    requires ts1 < Pow32(TIME_LENGTH) && ts2 < Pow32(TIME_LENGTH)
    requires Encode(Value(ts1, random1), LENGTH) == Encode(Value(ts2, random2), LENGTH)
    ensures ts1 == ts2 && random1 == random2
  {
    hide Pow32, Encode, Decode;
    Widths();
    var p := Pow32(RANDOM_LENGTH);
    TimestampRoundTrips(ts1, random1);
    TimestampRoundTrips(ts2, random2);
    Pow32Add(TIME_LENGTH, RANDOM_LENGTH);
    MulMono(ts1 + 1, Pow32(TIME_LENGTH), p);
    Distribute(ts1, 1, p);
    DecodeEncoded(Value(ts1, random1), LENGTH);
    DecodeEncoded(Value(ts2, random2), LENGTH);
    ModUnique(Value(ts1, random1), Pow32(LENGTH), 0, Value(ts1, random1));
    ModUnique(Value(ts2, random2), Pow32(LENGTH), 0, Value(ts2, random2));
  }
}
