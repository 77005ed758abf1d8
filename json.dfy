/** `JSON.stringify` of a flat JavaScript object, as the request handlers use
    it to build the recommendation cache key and the classifier's stdin
    (the JSON text format of RFC 8259: objects in section 4, numbers in
    section 6, strings in section 7). Member values are the scalars a form
    submission carries: null, booleans, integers and strings. */
module Json {
  import opened Text

  datatype Value = Null | Bool(b: bool) | Num(n: int) | Str(s: string)

  /** One own property of an object, in the object's property order. */
  datatype Member = Member(name: string, value: Value)

  datatype Option<T> = None | Some(value: T)

  /** A JavaScript object never holds two properties with the same name. */
  predicate DistinctNames(ms: seq<Member>) {
    forall i, j :: 0 <= i < j < |ms| ==> ms[i].name != ms[j].name
  }

  /** Property access `obj.name`; `None` stands for `undefined`. */
  function Lookup(ms: seq<Member>, name: string): (r: Option<Value>)
    ensures r.Some? ==> Member(name, r.value) in ms
    ensures r.None? ==> forall m :: m in ms ==> m.name != name
  {
    if ms == [] then None
    else if ms[0].name == name then Some(ms[0].value)
    else Lookup(ms[1..], name)
  }

  /** The rest pattern `{ name, ...rest } = obj`: every other property, in
      property order. */
  function Without(ms: seq<Member>, name: string): (r: seq<Member>)
    ensures forall m :: m in r <==> m in ms && m.name != name
  {
    if ms == [] then []
    else if ms[0].name == name then Without(ms[1..], name)
    else [ms[0]] + Without(ms[1..], name)
  }

  /** Property access on two objects' properties laid end to end: the first
      part is searched first. */
  lemma {:induction false} LookupAppend(a: seq<Member>, b: seq<Member>, name: string)
    ensures Lookup(a + b, name) == if Lookup(a, name).Some? then Lookup(a, name) else Lookup(b, name)
  {
    if a != [] {
      assert (a + b)[0] == a[0] && (a + b)[1..] == a[1..] + b;
      LookupAppend(a[1..], b, name);
    } else {
      assert a + b == b;
    }
  }

  /** The rest pattern keeps property order: it distributes over two parts
      laid end to end, and it keeps a single property exactly when that
      property has another name. Together these fix its result: the other
      properties, in their order. */
  lemma {:induction false} WithoutKeepsOrder(a: seq<Member>, b: seq<Member>, m: Member, name: string)
    ensures Without(a + b, name) == Without(a, name) + Without(b, name)
    ensures Without([m], name) == if m.name == name then [] else [m]
  {
    assert [m][1..] == [];
    if a != [] {
      assert (a + b)[0] == a[0] && (a + b)[1..] == a[1..] + b;
      WithoutKeepsOrder(a[1..], b, m, name);
    } else {
      assert a + b == b;
    }
  }

  // ---------------------------------------------------------------- numbers

  function DigitChar(d: nat): (c: char)
    requires d < 10
    ensures IsDigit(c)
  {
    (('0' as int) + d) as char
  }

  /** The value of a run of decimal digits (the reading direction of section 6). */
  function DigitsValue(s: string): nat
    requires AllDigits(s)
  {
    if s == [] then 0 else DigitsValue(s[..|s| - 1]) * 10 + ((s[|s| - 1] as int) - ('0' as int))
  }

  /** Shortest decimal spelling of a natural number: no leading zero. */
  function NatDigits(n: nat): (r: string)
    ensures |r| >= 1 && AllDigits(r)
    ensures DigitsValue(r) == n
    ensures r[0] == '0' ==> r == "0"
  {
    if n < 10 then [DigitChar(n)]
    else
      var p := NatDigits(n / 10);
      var r := p + [DigitChar(n % 10)];
      assert r[..|r| - 1] == p;
      r
  }

  /** JavaScript's spelling of an integral number: an optional minus, then digits. */
  function NumberText(n: int): string
  {
    if n < 0 then "-" + NatDigits(-n) else NatDigits(n)
  }

  // ---------------------------------------------------------------- strings

  function HexDigit(d: nat): (c: char)
    requires d < 16
  {
    if d < 10 then DigitChar(d) else (('a' as int) + (d - 10)) as char
  }

  /** Characters `JSON.stringify` writes as an escape sequence. */
  predicate NeedsEscape(c: char) {
    c == '"' || c == '\\' || c < ' '
  }

  /** The escape of one character: the two-character forms for quote,
      backslash, backspace, form feed, newline, carriage return and tab,
      `\u00XX` in lower-case hex for the other control characters, and the
      character itself otherwise. */
  function EscapeChar(c: char): (e: string)
    ensures |e| >= 1 && e[0] != '"'
    ensures e[0] == '\\' <==> NeedsEscape(c)
    ensures !NeedsEscape(c) ==> e == [c]
  {
    if c == '"' then "\\\""
    else if c == '\\' then "\\\\"
    else if c == '\U{0008}' then "\\b"
    else if c == '\U{000C}' then "\\f"
    else if c == '\n' then "\\n"
    else if c == '\r' then "\\r"
    else if c == '\t' then "\\t"
    else if c < ' ' then "\\u00" + [HexDigit((c as int) / 16), HexDigit((c as int) % 16)]
    else [c]
  }

  function Escape(s: string): string
  {
    if s == [] then [] else EscapeChar(s[0]) + Escape(s[1..])
  }

  /** A JSON string literal. */
  function Quote(s: string): string
  {
    "\"" + Escape(s) + "\""
  }

  // ---------------------------------------------------------------- objects

  function ValueText(v: Value): string
  {
    match v
    case Null => "null"
    case Bool(b) => if b then "true" else "false"
    case Num(n) => NumberText(n)
    case Str(s) => Quote(s)
  }

  function MemberText(m: Member): string
  {
    Quote(m.name) + ":" + ValueText(m.value)
  }

  /** The members, comma-separated, in property order. */
  function MembersText(ms: seq<Member>): string
  {
    if ms == [] then ""
    else if |ms| == 1 then MemberText(ms[0])
    else MemberText(ms[0]) + "," + MembersText(ms[1..])
  }

  /** `JSON.stringify` of an object, with no whitespace. */
  function Stringify(ms: seq<Member>): (text: string)
    ensures |text| >= 2 && text[0] == '{' && text[|text| - 1] == '}'
  {
    "{" + MembersText(ms) + "}"
  }

  // ------------------------------------------------- the text determines the object

  /** Different characters have escapes that are not prefixes of each other. */
  lemma EscapeCharPrefixFree(c1: char, c2: char, t1: string, t2: string)
    requires EscapeChar(c1) + t1 == EscapeChar(c2) + t2
    ensures c1 == c2 && t1 == t2
  {
    var e1, e2 := EscapeChar(c1), EscapeChar(c2);
    assert (e1 + t1)[0] == e1[0] && (e2 + t2)[0] == e2[0];
    if NeedsEscape(c1) {
      assert NeedsEscape(c2);
      assert |e1| >= 2 && |e2| >= 2;
      assert (e1 + t1)[1] == e1[1] && (e2 + t2)[1] == e2[1];
      if e1[1] == 'u' {
        assert |e1| == 6 && |e2| == 6;
        assert (e1 + t1)[4] == e1[4] && (e2 + t2)[4] == e2[4];
        assert (e1 + t1)[5] == e1[5] && (e2 + t2)[5] == e2[5];
        HexDigitInjective((c1 as int) / 16, (c2 as int) / 16);
        HexDigitInjective((c1 as int) % 16, (c2 as int) % 16);
      }
    }
    assert e1 == e2;
    assert t1 == (e1 + t1)[|e1|..];
  }

  lemma HexDigitInjective(a: nat, b: nat)
    requires a < 16 && b < 16 && HexDigit(a) == HexDigit(b)
    ensures a == b
  {
  }

  /** A quoted string ends at its first unescaped quote: whatever follows the
      closing quote cannot change where it ends. */
  lemma {:induction false} EscapedPrefixFree(s1: string, s2: string, t1: string, t2: string)
    requires Escape(s1) + "\"" + t1 == Escape(s2) + "\"" + t2
    ensures s1 == s2 && t1 == t2
    decreases |s1|
  {
    if s1 == [] {
      if s2 != [] {
        EscapedNonEmptyStart(s2, t2);
        assert false;
      }
      assert t1 == (Escape(s1) + "\"" + t1)[1..];
    } else if s2 == [] {
      EscapedNonEmptyStart(s1, t1);
      assert false;
    } else {
      var r1 := Escape(s1[1..]) + "\"" + t1;
      var r2 := Escape(s2[1..]) + "\"" + t2;
      EscapeUnfold(s1, t1);
      EscapeUnfold(s2, t2);
      EscapeCharPrefixFree(s1[0], s2[0], r1, r2);
      EscapedPrefixFree(s1[1..], s2[1..], t1, t2);
      assert s1 == [s1[0]] + s1[1..] && s2 == [s2[0]] + s2[1..];
    }
  }

  lemma EscapeUnfold(s: string, t: string)
    requires s != []
    ensures Escape(s) + "\"" + t == EscapeChar(s[0]) + (Escape(s[1..]) + "\"" + t)
  {
  }

  lemma EscapedNonEmptyStart(s: string, t: string)
    requires s != []
    ensures (Escape(s) + "\"" + t)[0] != '"'
  {
    EscapeUnfold(s, t);
  }

  lemma QuotePrefixFree(s1: string, s2: string, t1: string, t2: string)
    requires Quote(s1) + t1 == Quote(s2) + t2
    ensures s1 == s2 && t1 == t2
  {
    QuoteTail(s1, t1);
    QuoteTail(s2, t2);
    EscapedPrefixFree(s1, s2, t1, t2);
  }

  lemma QuoteTail(s: string, t: string)
    ensures (Quote(s) + t)[1..] == Escape(s) + "\"" + t
  {
    var e := Escape(s);
    assert Quote(s) + t == "\"" + (e + "\"" + t);
  }

  lemma DigitRunPrefixFree(d1: string, d2: string, t1: string, t2: string)
    requires AllDigits(d1) && AllDigits(d2)
    requires t1 == [] || !IsDigit(t1[0])
    requires t2 == [] || !IsDigit(t2[0])
    requires d1 + t1 == d2 + t2
    ensures d1 == d2 && t1 == t2
  {
    DigitInsideRun(d2, t2, |d1|);
    DigitInsideRun(d1, t1, |d2|);
    assert |d1| == |d2|;
    assert d1 == (d1 + t1)[..|d1|] && d2 == (d2 + t2)[..|d2|];
    assert t1 == (d1 + t1)[|d1|..] && t2 == (d2 + t2)[|d2|..];
  }

  lemma DigitInsideRun(d: string, t: string, k: int)
    requires AllDigits(d)
    ensures 0 <= k < |d| ==> IsDigit((d + t)[k])
  {
  }

  /** A number's text is a digit run, after a minus sign when negative. */
  lemma NumberTextShape(n: int)
    ensures var a := NumberText(n);
      |a| >= 1 && (a[0] == '-' <==> n < 0) &&
      (n < 0 ==> a[1..] == NatDigits(-n)) && (n >= 0 ==> a == NatDigits(n))
  {
    if n >= 0 {
      assert IsDigit(NatDigits(n)[0]);
    }
  }

  lemma DropFirst(a: string, t: string)
    requires |a| >= 1
    ensures (a + t)[0] == a[0] && (a + t)[1..] == a[1..] + t
  {
  }

  lemma NumberTextPrefixFree(n1: int, n2: int, t1: string, t2: string)
    requires t1 == [] || !IsDigit(t1[0])
    requires t2 == [] || !IsDigit(t2[0])
    requires NumberText(n1) + t1 == NumberText(n2) + t2
    ensures n1 == n2 && t1 == t2
  {
    var a, b := NumberText(n1), NumberText(n2);
    NumberTextShape(n1);
    NumberTextShape(n2);
    DropFirst(a, t1);
    DropFirst(b, t2);
    if n1 < 0 {
      DigitRunPrefixFree(NatDigits(-n1), NatDigits(-n2), t1, t2);
    } else {
      DigitRunPrefixFree(NatDigits(n1), NatDigits(n2), t1, t2);
    }
  }

  /** What may follow a value inside an object: a comma or the closing brace. */
  predicate AfterValue(t: string) {
    |t| >= 1 && (t[0] == ',' || t[0] == '}')
  }

  lemma ValueTextPrefixFree(v1: Value, v2: Value, t1: string, t2: string)
    requires AfterValue(t1) && AfterValue(t2)
    requires ValueText(v1) + t1 == ValueText(v2) + t2
    ensures v1 == v2 && t1 == t2
  {
    var a, b := ValueText(v1), ValueText(v2);
    assert |a| >= 1 by {
      if v1.Num? { assert |NatDigits(if v1.n < 0 then -v1.n else v1.n)| >= 1; }
    }
    assert |b| >= 1 by {
      if v2.Num? { assert |NatDigits(if v2.n < 0 then -v2.n else v2.n)| >= 1; }
    }
    assert (a + t1)[0] == a[0] && (b + t2)[0] == b[0];
    if v1.Num? || v2.Num? {
      assert v1.Num? && v2.Num? by {
        if v1.Num? && v1.n >= 0 { assert IsDigit(NatDigits(v1.n)[0]); }
        if v2.Num? && v2.n >= 0 { assert IsDigit(NatDigits(v2.n)[0]); }
      }
      NumberTextPrefixFree(v1.n, v2.n, t1, t2);
    } else if v1.Str? {
      assert v2.Str?;
      QuotePrefixFree(v1.s, v2.s, t1, t2);
    } else {
      assert a == b;
      assert t1 == (a + t1)[|a|..] && t2 == (b + t2)[|b|..];
    }
  }

  lemma MemberTextPrefixFree(m1: Member, m2: Member, t1: string, t2: string)
    requires AfterValue(t1) && AfterValue(t2)
    requires MemberText(m1) + t1 == MemberText(m2) + t2
    ensures m1 == m2 && t1 == t2
  {
    var v1, v2 := ValueText(m1.value), ValueText(m2.value);
    var r1 := ":" + (v1 + t1);
    var r2 := ":" + (v2 + t2);
    MemberTextSplit(m1, t1);
    MemberTextSplit(m2, t2);
    QuotePrefixFree(m1.name, m2.name, r1, r2);
    assert r1[1..] == v1 + t1;
    assert r2[1..] == v2 + t2;
    ValueTextPrefixFree(m1.value, m2.value, t1, t2);
  }

  lemma MemberTextSplit(m: Member, t: string)
    ensures MemberText(m) + t == Quote(m.name) + (":" + (ValueText(m.value) + t))
  {
    var q, v := Quote(m.name), ValueText(m.value);
    calc {
      MemberText(m) + t;
      (q + ":" + v) + t;
      q + (":" + (v + t));
    }
  }

  lemma {:induction false} MembersTextPrefixFree(ms1: seq<Member>, ms2: seq<Member>, t1: string, t2: string)
    requires |t1| >= 1 && t1[0] == '}' && |t2| >= 1 && t2[0] == '}'
    requires MembersText(ms1) + t1 == MembersText(ms2) + t2
    ensures ms1 == ms2 && t1 == t2
    decreases |ms1|
  {
    MembersTextStartsWithQuote(ms1, t1);
    MembersTextStartsWithQuote(ms2, t2);
    if ms1 == [] || ms2 == [] {
      assert ms1 == [] && ms2 == [];
      assert MembersText(ms1) + t1 == t1 && MembersText(ms2) + t2 == t2;
    } else {
      MembersTextStep(ms1, ms2, t1, t2);
      if |ms1| > 1 {
        MembersTextPrefixFree(ms1[1..], ms2[1..], t1, t2);
        assert ms1 == [ms1[0]] + ms1[1..] && ms2 == [ms2[0]] + ms2[1..];
      } else {
        assert ms1 == [ms1[0]] && ms2 == [ms2[0]];
      }
    }
  }

  /** The first members of two equal texts agree, and so does what follows. */
  lemma MembersTextStep(ms1: seq<Member>, ms2: seq<Member>, t1: string, t2: string)
    requires ms1 != [] && ms2 != []
    requires |t1| >= 1 && t1[0] == '}' && |t2| >= 1 && t2[0] == '}'
    requires MembersText(ms1) + t1 == MembersText(ms2) + t2
    ensures ms1[0] == ms2[0] && (|ms1| == 1 <==> |ms2| == 1)
    ensures |ms1| == 1 ==> t1 == t2
    ensures |ms1| > 1 ==> MembersText(ms1[1..]) + t1 == MembersText(ms2[1..]) + t2
  {
    var rest1 := if |ms1| == 1 then t1 else "," + (MembersText(ms1[1..]) + t1);
    var rest2 := if |ms2| == 1 then t2 else "," + (MembersText(ms2[1..]) + t2);
    MembersTextUnfold(ms1, t1);
    MembersTextUnfold(ms2, t2);
    MemberTextPrefixFree(ms1[0], ms2[0], rest1, rest2);
    if |ms1| > 1 {
      assert rest1[1..] == MembersText(ms1[1..]) + t1;
    }
    if |ms2| > 1 {
      assert rest2[1..] == MembersText(ms2[1..]) + t2;
    }
  }

  lemma MembersTextUnfold(ms: seq<Member>, t: string)
    requires ms != []
    ensures |ms| == 1 ==> MembersText(ms) + t == MemberText(ms[0]) + t
    ensures |ms| > 1 ==> MembersText(ms) + t == MemberText(ms[0]) + ("," + (MembersText(ms[1..]) + t))
  {
    if |ms| > 1 {
      var a, b := MemberText(ms[0]), MembersText(ms[1..]);
      assert MembersText(ms) == a + "," + b;
      CommaAssoc(a, b, t);
    }
  }

  lemma CommaAssoc(a: string, b: string, t: string)
    ensures (a + "," + b) + t == a + ("," + (b + t))
  {
  }

  lemma MembersTextStartsWithQuote(ms: seq<Member>, t: string)
    ensures ms != [] ==> |MembersText(ms) + t| >= 1 && (MembersText(ms) + t)[0] == '"'
  {
    if ms != [] {
      var m := MemberText(ms[0]);
      MemberTextSplit(ms[0], "");
      assert m + "" == m;
      assert m[0] == '"';
      MembersTextUnfold(ms, t);
    }
  }

  /** `JSON.stringify` is injective on objects: equal texts come only from
      objects with the same members, values and property order. */
  lemma StringifyInjective(ms1: seq<Member>, ms2: seq<Member>)
    ensures Stringify(ms1) == Stringify(ms2) <==> ms1 == ms2
  {
    if Stringify(ms1) == Stringify(ms2) {
      StringifyTail(ms1);
      StringifyTail(ms2);
      MembersTextPrefixFree(ms1, ms2, "}", "}");
    }
  }

  lemma StringifyTail(ms: seq<Member>)
    ensures Stringify(ms)[1..] == MembersText(ms) + "}"
  {
    var m := MembersText(ms);
    assert Stringify(ms) == "{" + (m + "}");
  }
}
