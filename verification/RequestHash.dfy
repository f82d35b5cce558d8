/**
Canonical JSON of a flat object of strings, and the request hash built on it.
The fields come in insertion order; serialisation sorts them by key and escapes
the strings as section 7 of RFC 8259 asks.
*/
module RequestHash {
  import opened AmountText
  import opened AmountTheorems
  import opened Wrappers

  type Field = (string, string)

  // ---- Order ----

  /** Strings compare code point by code point. */
  predicate Less(a: string, b: string) {
    if b == "" then false
    else if a == "" then true
    else a[0] < b[0] || (a[0] == b[0] && Less(a[1..], b[1..]))
  }

  lemma {:induction false} LessTotal(a: string, b: string)
    ensures Less(a, b) || a == b || Less(b, a)
    ensures !(Less(a, b) && Less(b, a)) && !Less(a, a)
  {
    if a != "" && b != "" {
      LessTotal(a[1..], b[1..]);
      if a[0] == b[0] && a[1..] == b[1..] { assert a == [a[0]] + a[1..] == b; }
    }
    if a != "" { LessTotal(a[1..], a[1..]); }
  }

  lemma {:induction false} LessTransitive(a: string, b: string, c: string)
    requires Less(a, b) && Less(b, c)
    ensures Less(a, c)
  {
    if a != "" && b != "" && c != "" && a[0] == b[0] == c[0] { LessTransitive(a[1..], b[1..], c[1..]); }
  }

  predicate Sorted(s: seq<Field>) {
    forall i, j :: 0 <= i < j < |s| ==> Less(s[i].0, s[j].0)
  }

  predicate DistinctKeys(s: seq<Field>) {
    forall i, j :: 0 <= i < j < |s| ==> s[i].0 != s[j].0
  }

  function Insert(f: Field, s: seq<Field>): seq<Field> {
    if s == [] then [f]
    else if Less(f.0, s[0].0) then [f] + s
    else [s[0]] + Insert(f, s[1..])
  }

  function Sort(s: seq<Field>): seq<Field> {
    if s == [] then [] else Insert(s[0], Sort(s[1..]))
  }

  lemma {:induction false} InsertKeeps(f: Field, s: seq<Field>)
    ensures multiset(Insert(f, s)) == multiset(s) + multiset{f}
  {
    hide Less;
    if s != [] {
      assert s == [s[0]] + s[1..];
      InsertKeeps(f, s[1..]);
    }
  }

  lemma {:induction false} InsertSorts(f: Field, s: seq<Field>)
    requires Sorted(s) && (forall i :: 0 <= i < |s| ==> s[i].0 != f.0)
    ensures Sorted(Insert(f, s))
  {
    hide Less;
    if s == [] {
    } else if Less(f.0, s[0].0) {
      forall j | 0 < j < |s| ensures Less(f.0, s[j].0) {
        LessTransitive(f.0, s[0].0, s[j].0);
      }
    } else {
      LessTotal(f.0, s[0].0);
      var rest := Insert(f, s[1..]);
      InsertSorts(f, s[1..]);
      InsertKeeps(f, s[1..]);
      forall j | 0 <= j < |rest| ensures Less(s[0].0, rest[j].0) {
        assert rest[j] in multiset(rest);
      }
    }
  }

  lemma {:induction false} SortSorts(s: seq<Field>)
    requires DistinctKeys(s)
    ensures Sorted(Sort(s)) && multiset(Sort(s)) == multiset(s)
  {
    if s != [] {
      SortSorts(s[1..]);
      assert s == [s[0]] + s[1..];
      forall i | 0 <= i < |Sort(s[1..])| ensures Sort(s[1..])[i].0 != s[0].0 {
        assert Sort(s[1..])[i] in multiset(s[1..]);
      }
      InsertSorts(s[0], Sort(s[1..]));
      InsertKeeps(s[0], Sort(s[1..]));
    }
  }

  lemma SameHead(a: seq<Field>, b: seq<Field>)
    requires Sorted(a) && Sorted(b) && a != [] && b != [] && a[0] in b && b[0] in a
    ensures a[0] == b[0]
  {
    var i :| 0 <= i < |a| && a[i] == b[0];
    var j :| 0 <= j < |b| && b[j] == a[0];
    LessTotal(a[0].0, b[0].0);
  }

  lemma SameElements(a: seq<Field>, b: seq<Field>)
    requires multiset(a) == multiset(b)
    ensures |a| == |b| && forall x :: x in a <==> x in b
  {
    assert forall x :: x in a <==> x in multiset(a);
    assert forall x :: x in b <==> x in multiset(b);
    assert |multiset(a)| == |a| && |multiset(b)| == |b|;
  }

  lemma TailElements(a: seq<Field>, b: seq<Field>)
    requires multiset(a) == multiset(b) && a != [] && b != [] && a[0] == b[0]
    ensures multiset(a[1..]) == multiset(b[1..])
  {
    assert a == [a[0]] + a[1..] && b == [b[0]] + b[1..];
    assert multiset(a[1..]) == multiset(a) - multiset{a[0]};
    assert multiset(b[1..]) == multiset(b) - multiset{b[0]};
  }

  /** There is only one sorted arrangement. */
  lemma {:induction false} SortedUnique(a: seq<Field>, b: seq<Field>)
    requires Sorted(a) && Sorted(b) && multiset(a) == multiset(b)
    ensures a == b
  {
    SameElements(a, b);
    if a != [] {
      hide Less;
      SameHead(a, b);
      TailElements(a, b);
      SortedUnique(a[1..], b[1..]);
      assert a == [a[0]] + a[1..] && b == [b[0]] + b[1..];
    }
  }

  // ---- Strings ----

  function HexDigit(n: nat): char
    requires n < 16
  {
    if n < 10 then ('0' as int + n) as char else ('a' as int + n - 10) as char
  }

  function EscapeChar(c: char): string {
    if c == '"' then "\\\""
    else if c == '\\' then "\\\\"
    else if c == '\n' then "\\n"
    else if c == '\r' then "\\r"
    else if c == '\t' then "\\t"
    else if c == '\U{8}' then "\\b"
    else if c == '\U{C}' then "\\f"
    else if c < ' ' then "\\u00" + [HexDigit(c as int / 16), HexDigit(c as int % 16)]
    else [c]
  }

  function Escape(s: string): string {
    if s == "" then "" else EscapeChar(s[0]) + Escape(s[1..])
  }

  function HexValue(c: char): Option<nat> {
    if '0' <= c <= '9' then Some(c as int - '0' as int)
    else if 'a' <= c <= 'f' then Some(c as int - 'a' as int + 10)
    else if 'A' <= c <= 'F' then Some(c as int - 'A' as int + 10)
    else None
  }

  /** Four hex digits that name a character outside the surrogates. */
  function DecodeHex(s: string): Option<char> {
    if |s| < 4 then None
    else
      var a, b, c, d := HexValue(s[0]), HexValue(s[1]), HexValue(s[2]), HexValue(s[3]);
      if a == None || b == None || c == None || d == None then None
      else
        var n := ((a.value * 16 + b.value) * 16 + c.value) * 16 + d.value;
        if n < 0xD800 then Some(n as char) else None
  }

  /** One character of a string body, and how much text it took. */
  function DecodeChar(s: string): (r: Option<(char, nat)>)
    requires s != ""
    ensures r.Some? ==> 0 < r.value.1 <= |s|
  {
    if s[0] == '\\' then
      if |s| < 2 then None
      else if s[1] in {'"', '\\', '/'} then Some((s[1], 2))
      else if s[1] == 'n' then Some(('\n', 2))
      else if s[1] == 'r' then Some(('\r', 2))
      else if s[1] == 't' then Some(('\t', 2))
      else if s[1] == 'b' then Some(('\U{8}', 2))
      else if s[1] == 'f' then Some(('\U{C}', 2))
      else if s[1] == 'u' && DecodeHex(s[2..]).Some? then Some((DecodeHex(s[2..]).value, 6))
      else None
    else if s[0] < ' ' then None
    else Some((s[0], 1))
  }

  /** A string body up to its closing quote, and what follows. */
  function DecodeString(s: string): (r: Option<(string, string)>)
    ensures r.Some? ==> |r.value.1| < |s|
    decreases |s|
  {
    if s == "" then None
    else if s[0] == '"' then Some(("", s[1..]))
    else
      match DecodeChar(s)
      case None => None
      case Some(found) =>
        match DecodeString(s[found.1..])
        case None => None
        case Some(more) => Some(([found.0] + more.0, more.1))
  }

  lemma ControlDecodes(c: char, rest: string)
    requires c < ' '
    ensures DecodeHex("00" + [HexDigit(c as int / 16), HexDigit(c as int % 16)] + rest) == Some(c)
  {
    assert HexValue('0') == Some(0);
  }

  lemma CharDecodes(c: char, rest: string)
    ensures DecodeChar(EscapeChar(c) + rest) == Some((c, |EscapeChar(c)|))
  {
    var s := EscapeChar(c) + rest;
    if c < ' ' && |EscapeChar(c)| == 6 {
      assert s[2..] == "00" + [HexDigit(c as int / 16), HexDigit(c as int % 16)] + rest;
      ControlDecodes(c, rest);
    }
  }

  lemma {:induction false} StringDecodes(x: string, rest: string)
    ensures DecodeString(Escape(x) + "\"" + rest) == Some((x, rest))
  {
    var s := Escape(x) + "\"" + rest;
    if x == "" {
      assert s == "\"" + rest && s[1..] == rest;
    } else {
      hide EscapeChar, DecodeChar;
      var tail := Escape(x[1..]) + "\"" + rest;
      assert s == EscapeChar(x[0]) + tail;
      CharDecodes(x[0], tail);
      EscapedIsNotQuote(x[0]);
      assert s[|EscapeChar(x[0])|..] == tail && s[0] == EscapeChar(x[0])[0];
      StringDecodes(x[1..], rest);
      assert x == [x[0]] + x[1..];
    }
  }

  lemma EscapedIsNotQuote(c: char)
    ensures EscapeChar(c) != "" && EscapeChar(c)[0] != '"'
  {
  }

  // ---- Objects ----

  function Member(f: Field): string {
    "\"" + Escape(f.0) + "\":\"" + Escape(f.1) + "\""
  }

  function Members(fields: seq<Field>): string {
    if fields == [] then ""
    else if |fields| == 1 then Member(fields[0])
    else Member(fields[0]) + "," + Members(fields[1..])
  }

  function CanonicalJson(fields: seq<Field>): string {
    "{" + Members(Sort(fields)) + "}"
  }

  /** A member, and what follows its closing quote. */
  function DecodeMember(s: string): (r: Option<(Field, string)>)
    ensures r.Some? ==> |r.value.1| < |s|
  {
    if s == "" || s[0] != '"' then None
    else
      match DecodeString(s[1..])
      case None => None
      case Some(key) =>
        if |key.1| < 2 || key.1[0] != ':' || key.1[1] != '"' then None
        else
          match DecodeString(key.1[2..])
          case None => None
          case Some(value) => Some(((key.0, value.0), value.1))
  }

  function DecodeMembers(s: string): Option<seq<Field>>
    decreases |s|
  {
    match DecodeMember(s)
    case None => None
    case Some(first) =>
      if first.1 == "}" then Some([first.0])
      else if first.1 == "" || first.1[0] != ',' then None
      else
        match DecodeMembers(first.1[1..])
        case None => None
        case Some(more) => Some([first.0] + more)
  }

  function Decode(s: string): Option<seq<Field>> {
    if s == "{}" then Some([])
    else if s == "" || s[0] != '{' then None
    else DecodeMembers(s[1..])
  }

  lemma MemberDecodes(f: Field, rest: string)
    ensures DecodeMember(Member(f) + rest) == Some((f, rest))
  {
    hide DecodeString, Escape;
    var value := Escape(f.1) + "\"" + rest;
    var key := Escape(f.0) + "\"" + (":\"" + value);
    assert Member(f) + rest == "\"" + key;
    assert ("\"" + key)[1..] == key;
    StringDecodes(f.0, ":\"" + value);
    assert (":\"" + value)[2..] == value;
    StringDecodes(f.1, rest);
  }

  lemma {:induction false} MembersDecode(fields: seq<Field>)
    requires fields != []
    ensures DecodeMembers(Members(fields) + "}") == Some(fields)
  {
    hide DecodeMember, Member;
    if |fields| == 1 {
      MemberDecodes(fields[0], "}");
      assert fields == [fields[0]];
    } else {
      var rest := "," + (Members(fields[1..]) + "}");
      assert Members(fields) + "}" == Member(fields[0]) + rest;
      MemberDecodes(fields[0], rest);
      MembersDecode(fields[1..]);
      assert rest[1..] == Members(fields[1..]) + "}";
      assert |rest| > 1;
      assert fields == [fields[0]] + fields[1..];
    }
  }

  /** What was serialised is read back, sorted. */
  lemma {:induction false} JsonRoundTrips(fields: seq<Field>)
    ensures Decode(CanonicalJson(fields)) == Some(Sort(fields))
  {
    var sorted := Sort(fields);
    var body := Members(sorted) + "}";
    assert CanonicalJson(fields) == "{" + body;
    if sorted != [] {
      MembersDecode(sorted);
      MembersNotEmpty(sorted);
      assert ("{" + body)[1..] == body;
      assert |CanonicalJson(fields)| > 2;
    }
  }

  lemma MembersNotEmpty(fields: seq<Field>)
    requires fields != []
    ensures Members(fields) != ""
  {
  }

  /** The bytes are the same exactly when the fields are, in whatever order they were put in. */
  lemma {:induction false} CanonicalExactly(a: seq<Field>, b: seq<Field>)
    requires DistinctKeys(a) && DistinctKeys(b)
    ensures CanonicalJson(a) == CanonicalJson(b) <==> multiset(a) == multiset(b)
  {
    hide Members, Decode;
    SortSorts(a);
    SortSorts(b);
    JsonRoundTrips(a);
    JsonRoundTrips(b);
    if multiset(a) == multiset(b) { SortedUnique(Sort(a), Sort(b)); }
  }

  // ---- The payment key ----

  function IntText(n: int): string {
    if n < 0 then "-" + Digits(-n) else Digits(n)
  }

  lemma IntTextInjective(m: int, n: int)
    requires IntText(m) == IntText(n)
    ensures m == n
  {
    hide Digits;
    var a, b := Digits(if m < 0 then -m else m), Digits(if n < 0 then -n else n);
    DigitsSay(if m < 0 then -m else m);
    DigitsSay(if n < 0 then -n else n);
    assert IsDigit(a[0]) && IsDigit(b[0]);
    assert ("-" + a)[1..] == a && ("-" + b)[1..] == b;
  }

  function OrEmpty(s: Option<string>): string {
    if s == None then "" else s.value
  }

  function OrZero(n: Option<int>): int {
    if n == None then 0 else n.value
  }

  /** What identifies a payment: an absent field counts as its empty value. */
  datatype Payment = Payment(sme: string, supplier: string, token: string, amount: int, invoiceRef: string)

  function Fields(p: Payment): seq<Field> {
    [("sme", p.sme), ("supplier", p.supplier), ("token", p.token), ("amount", IntText(p.amount)), ("invoice_ref", p.invoiceRef)]
  }

  function HashOf(sha: string -> string, p: Payment): string {
    sha(CanonicalJson(Fields(p)))
  }

  ghost predicate Injective(f: string -> string) {
    forall x, y :: f(x) == f(y) ==> x == y
  }

  lemma KeysApart(p: Payment)
    ensures DistinctKeys(Fields(p))
  {
    assert "sme"[0] == 's' && "supplier"[0] == 's' && "token"[0] == 't' && "amount"[0] == 'a' && "invoice_ref"[0] == 'i';
    assert |"sme"| != |"supplier"|;
  }

  lemma SameField(p: Payment, q: Payment, i: nat)
    requires multiset(Fields(p)) == multiset(Fields(q)) && i < 5
    ensures Fields(p)[i] == Fields(q)[i]
  {
    hide IntText;
    var a, b := Fields(p), Fields(q);
    SameElements(a, b);
    KeysApart(q);
    assert a[i] in a;
    assert a[i].0 == b[i].0;
    var j :| 0 <= j < |b| && b[j] == a[i];
  }

  /** Two requests have the same hash exactly when they ask for the same payment. */
  lemma HashesExactly(sha: string -> string, p: Payment, q: Payment)
    requires Injective(sha)
    ensures HashOf(sha, p) == HashOf(sha, q) <==> p == q
  {
    hide CanonicalJson, Fields, IntText;
    if HashOf(sha, p) == HashOf(sha, q) {
      KeysApart(p);
      KeysApart(q);
      CanonicalExactly(Fields(p), Fields(q));
      SamePayment(p, q);
    }
  }

  lemma SamePayment(p: Payment, q: Payment)
    requires multiset(Fields(p)) == multiset(Fields(q))
    ensures p == q
  {
    hide IntText;
    forall i | 0 <= i < 5 ensures Fields(p)[i] == Fields(q)[i] {
      SameField(p, q, i);
    }
    assert Fields(p)[0] == Fields(q)[0] && Fields(p)[1] == Fields(q)[1] && Fields(p)[2] == Fields(q)[2];
    assert Fields(p)[3] == Fields(q)[3] && Fields(p)[4] == Fields(q)[4];
    IntTextInjective(p.amount, q.amount);
  }

  /** The text of an amount: the plain decimal digits, with a minus sign if need be. */
  lemma IntTextSays(n: int)
    ensures n < 0 ==> IntText(n) == "-" + IntText(-n)
    ensures n >= 0 ==> IntText(n) != "" && All(IntText(n), IsDigit) && Nat(IntText(n)) == n
    ensures n > 0 ==> IntText(n)[0] != '0'
  {
    if n >= 0 { DigitsSay(n); }
    if n > 0 { NoLeadingZero(n); }
  }

  lemma {:induction false} NoLeadingZero(n: nat)
    requires n > 0
    ensures Digits(n)[0] != '0'
  {
    if n >= 10 { NoLeadingZero(n / 10); }
  }

  /** The five fields in the order of their keys. */
  function SortedFields(p: Payment): seq<Field> {
    [("amount", IntText(p.amount)), ("invoice_ref", p.invoiceRef), ("sme", p.sme), ("supplier", p.supplier), ("token", p.token)]
  }

  lemma SortedFieldsSorted(p: Payment)
    ensures Sorted(SortedFields(p))
  {
    hide IntText;
    assert Less("amount", "invoice_ref") && Less("invoice_ref", "sme") && Less("supplier", "token");
    assert "sme"[1..] == "me" && "supplier"[1..] == "upplier" && Less("me", "upplier");
    assert Less("sme", "supplier");
    LessTransitive("invoice_ref", "sme", "supplier");
    LessTransitive("sme", "supplier", "token");
    LessTransitive("invoice_ref", "supplier", "token");
    LessTransitive("amount", "invoice_ref", "sme");
    LessTransitive("amount", "sme", "supplier");
    LessTransitive("amount", "supplier", "token");
  }

  lemma FieldsSort(p: Payment)
    ensures Sort(Fields(p)) == SortedFields(p)
  {
    hide IntText, Sort, Sorted;
    KeysApart(p);
    SortSorts(Fields(p));
    SortedFieldsSorted(p);
    assert multiset(Fields(p)) == multiset(SortedFields(p));
    SortedUnique(Sort(Fields(p)), SortedFields(p));
  }

  /** What is hashed, and what a decoder reads in it under each key. */
  lemma RequestReads(p: Payment)
    ensures Decode(CanonicalJson(Fields(p))) == Some([
              ("amount", IntText(p.amount)), ("invoice_ref", p.invoiceRef), ("sme", p.sme), ("supplier", p.supplier), ("token", p.token)])
  {
    hide CanonicalJson, Decode, IntText, Sort, Fields;
    JsonRoundTrips(Fields(p));
    FieldsSort(p);
  }

  predicate Plain(c: char) {
    ' ' <= c && c != '"' && c != '\\'
  }

  /** Characters that need no escape stand for themselves. */
  lemma {:induction false} PlainStays(s: string)
    requires All(s, Plain)
    ensures Escape(s) == s
  {
    if s != "" { PlainStays(s[1..]); }
  }

  function Quoted(key: string, value: string): string {
    "\"" + key + "\":\"" + Escape(value) + "\""
  }

  lemma KeysPlain()
    ensures Escape("amount") == "amount" && Escape("invoice_ref") == "invoice_ref" && Escape("sme") == "sme"
    ensures Escape("supplier") == "supplier" && Escape("token") == "token"
  {
    hide Escape;
    PlainStays("amount");
    PlainStays("invoice_ref");
    PlainStays("sme");
    PlainStays("supplier");
    PlainStays("token");
  }

  lemma MembersStep(f: Field, rest: seq<Field>)
    ensures Members([f]) == Member(f)
    ensures rest != [] ==> Members([f] + rest) == Member(f) + "," + Members(rest)
  {
    assert ([f] + rest)[1..] == rest;
  }

  lemma MembersOfFive(a: Field, b: Field, c: Field, d: Field, e: Field)
    ensures Members([a, b, c, d, e]) == Member(a) + "," + (Member(b) + "," + (Member(c) + "," + (Member(d) + "," + Member(e))))
  {
    hide Member, Members;
    MembersStep(e, []);
    MembersStep(d, [e]);
    MembersStep(c, [d, e]);
    MembersStep(b, [c, d, e]);
    MembersStep(a, [b, c, d, e]);
    assert [d] + [e] == [d, e] && [c] + [d, e] == [c, d, e] && [b] + [c, d, e] == [b, c, d, e];
    assert [a] + [b, c, d, e] == [a, b, c, d, e];
  }

  /** What each character is written as: the two-letter escapes, `\\u00` and two lower-case digits for other controls, or itself. */
  lemma EscapesExactly(c: char)
    ensures var s := Escape([c]);
            && (s == [c] <==> Plain(c))
            && (c in {'"', '\\'} ==> s == ['\\', c])
            && (c == '\U{8}' ==> s == "\\b") && (c == '\t' ==> s == "\\t") && (c == '\n' ==> s == "\\n")
            && (c == '\U{C}' ==> s == "\\f") && (c == '\r' ==> s == "\\r")
            && (c < ' ' && c !in {'\U{8}', '\t', '\n', '\U{C}', '\r'} ==>
                  |s| == 6 && s[..4] == "\\u00" && s[4] in "01" && s[5] == "0123456789abcdef"[c as int % 16]
                  && (s[4] == '1' <==> c as int >= 16))
  {
    assert Escape([c]) == EscapeChar(c) by { assert [c][1..] == ""; }
  }

  /** The serialised request to the letter: no space, keys in order, values escaped. */
  lemma RequestText(p: Payment)
    ensures CanonicalJson(Fields(p)) == "{" +
      (Quoted("amount", IntText(p.amount)) + "," + (Quoted("invoice_ref", p.invoiceRef) + "," + (Quoted("sme", p.sme) + "," +
       (Quoted("supplier", p.supplier) + "," + Quoted("token", p.token))))) + "}"
  {
    hide Members, IntText, Sort, Fields, Escape;
    KeysPlain();
    FieldsSort(p);
    var s := SortedFields(p);
    assert s == [s[0], s[1], s[2], s[3], s[4]];
    MembersOfFive(s[0], s[1], s[2], s[3], s[4]);
  }
}
