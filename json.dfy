/**
 * JSON values as the application stores, imports and hashes them.
 *
 * An object is an association list in insertion order, which is the order in which
 * `JSON.stringify` writes its members; assigning a property that exists keeps its place,
 * assigning a new one appends it. Numbers are integers (see README, "Left out").
 */
module Json {
  import opened Wrappers
  import opened Strings

  datatype Json =
    | JNull
    | JBool(b: bool)
    | JNum(n: int)
    | JStr(s: string)
    | JArr(items: seq<Json>)
    | JObj(fields: seq<(string, Json)>)

  /** What `localStorage` or a file holds, seen through `JSON.parse`: a JSON text, or a text it rejects. */
  datatype Text = JsonText(value: Json) | OtherText(raw: string)

  /** JavaScript truthiness of a JSON value. */
  predicate Truthy(j: Json) {
    match j
    case JNull => false
    case JBool(b) => b
    case JNum(n) => n != 0
    case JStr(s) => s != ""
    case JArr(_) => true
    case JObj(_) => true
  }

  /** Truthiness of a property read, where a missing property reads as `undefined`. */
  predicate TruthyOpt(o: Option<Json>) {
    o.Some? && Truthy(o.value)
  }

  /** `typeof v === 'object' && v !== null`: objects and arrays. */
  predicate IsObjectType(j: Json) {
    j.JObj? || j.JArr?
  }

  function Lookup(fields: seq<(string, Json)>, key: string): (r: Option<Json>)
    ensures r.Some? ==> exists k :: 0 <= k < |fields| && fields[k] == (key, r.value)
  {
    if |fields| == 0 then None
    else if fields[0].0 == key then Some(fields[0].1)
    else Lookup(fields[1..], key)
  }

  /** `v[key]`: a property of an object; arrays and primitives have none of the names used here. */
  function Get(j: Json, key: string): Option<Json> {
    if j.JObj? then Lookup(j.fields, key) else None
  }

  function Keys(fields: seq<(string, Json)>): seq<string> {
    seq(|fields|, k requires 0 <= k < |fields| => fields[k].0)
  }

  /** A key that none of the fields has is looked up in what follows them. */
  lemma {:induction false} LookupSkip(a: seq<(string, Json)>, b: seq<(string, Json)>, key: string)
    requires key !in Keys(a)
    ensures Lookup(a + b, key) == Lookup(b, key)
  {
    if |a| > 0 {
      assert Keys(a)[0] == a[0].0;
      assert Keys(a[1..]) == Keys(a)[1..];
      assert (a + b)[0] == a[0] && key != a[0].0;
      assert (a + b)[1..] == a[1..] + b;
      LookupSkip(a[1..], b, key);
    } else {
      assert a + b == b;
    }
  }

  /** A key that no field has is not found. */
  lemma LookupMissing(fields: seq<(string, Json)>, key: string)
    requires key !in Keys(fields)
    ensures Lookup(fields, key) == None
  {
    LookupSkip(fields, [], key);
    assert fields + [] == fields;
  }

  /** The first field with a key is the one found. */
  lemma LookupAt(a: seq<(string, Json)>, key: string, v: Json, b: seq<(string, Json)>)
    requires key !in Keys(a)
    ensures Lookup(a + [(key, v)] + b, key) == Some(v)
  {
    LookupSkip(a, [(key, v)] + b, key);
    assert a + [(key, v)] + b == a + ([(key, v)] + b);
  }

  /** A field whose key no earlier field has is the one found. */
  lemma {:induction false} LookupFirst(fields: seq<(string, Json)>, i: nat)
    requires i < |fields|
    requires forall k :: 0 <= k < i ==> fields[k].0 != fields[i].0
    ensures Lookup(fields, fields[i].0) == Some(fields[i].1)
  {
    if i > 0 {
      assert fields[1..][i - 1] == fields[i];
      LookupFirst(fields[1..], i - 1);
    }
  }

  function Update(fields: seq<(string, Json)>, key: string, v: Json): (r: seq<(string, Json)>)
    ensures Lookup(r, key) == Some(v)
    ensures forall other :: other != key ==> Lookup(r, other) == Lookup(fields, other)
  {
    if |fields| == 0 then [(key, v)]
    else if fields[0].0 == key then [(key, v)] + fields[1..]
    else [fields[0]] + Update(fields[1..], key, v)
  }

  /** An existing key keeps its place; a new one goes last. */
  lemma {:induction false} UpdateKeys(fields: seq<(string, Json)>, key: string, v: Json)
    ensures Keys(Update(fields, key, v)) == if key in Keys(fields) then Keys(fields) else Keys(fields) + [key]
  {
    if |fields| > 0 {
      assert fields == [fields[0]] + fields[1..];
      KeysCons(fields[0], fields[1..]);
      if fields[0].0 == key {
        KeysCons((key, v), fields[1..]);
      } else {
        var rest := Update(fields[1..], key, v);
        UpdateKeys(fields[1..], key, v);
        KeysCons(fields[0], rest);
      }
    }
  }

  lemma KeysCons(f: (string, Json), rest: seq<(string, Json)>)
    ensures Keys([f] + rest) == [f.0] + Keys(rest)
  {
  }

  /** Writing a key the value it already has changes nothing. */
  lemma {:induction false} UpdateSame(fields: seq<(string, Json)>, key: string, v: Json)
    requires Lookup(fields, key) == Some(v)
    ensures Update(fields, key, v) == fields
  {
    if fields[0].0 != key {
      UpdateSame(fields[1..], key, v);
      assert fields == [fields[0]] + fields[1..];
    }
  }

  lemma SetSame(j: Json, key: string, v: Json)
    requires j.JObj? && Get(j, key) == Some(v)
    ensures Set(j, key, v) == j
  {
    UpdateSame(j.fields, key, v);
  }

  /** `obj[key] = v` on an object: an existing property keeps its place, a new one is appended. */
  function Set(j: Json, key: string, v: Json): (r: Json)
    requires j.JObj?
    ensures r.JObj?
    ensures Get(r, key) == Some(v)
    ensures forall other :: other != key ==> Get(r, other) == Get(j, other)
  {
    JObj(Update(j.fields, key, v))
  }

  lemma SetKeys(j: Json, key: string, v: Json)
    requires j.JObj?
    ensures Keys(Set(j, key, v).fields) == if key in Keys(j.fields) then Keys(j.fields) else Keys(j.fields) + [key]
  {
    UpdateKeys(j.fields, key, v);
  }

  /** How `JSON.stringify` writes one character inside a string literal. */
  function EscapeChar(c: char): string {
    if c == '"' then "\\\""
    else if c == '\\' then "\\\\"
    else if c as int == 0x08 then "\\b"
    else if c as int == 0x0C then "\\f"
    else if c == '\n' then "\\n"
    else if c == '\r' then "\\r"
    else if c == '\t' then "\\t"
    else if (c as int) < 0x20 then "\\u00" + [HexDigit((c as int) / 16), HexDigit((c as int) % 16)]
    else [c]
  }

  function Escape(s: string): string {
    if |s| == 0 then "" else EscapeChar(s[0]) + Escape(s[1..])
  }

  function Quote(s: string): string {
    "\"" + Escape(s) + "\""
  }

  lemma HexDigitInjective(d: nat, e: nat)
    requires d < 16 && e < 16 && HexDigit(d) == HexDigit(e)
    ensures d == e
  {
  }

  /** No escape of one character is a prefix of the escape of another. */
  lemma EscapeCharPrefixFree(a: char, b: char, r1: string, r2: string)
    requires EscapeChar(a) + r1 == EscapeChar(b) + r2
    ensures a == b
  {
    var ea, eb := EscapeChar(a), EscapeChar(b);
    var t := ea + r1;
    assert t == eb + r2;
    assert t[0] == ea[0] && t[0] == eb[0];
    if |ea| > 1 && |eb| > 1 {
      assert t[1] == ea[1] && t[1] == eb[1];
      if ea[1] == 'u' {
        assert |ea| == 6 && |eb| == 6;
        assert t[4] == ea[4] && t[4] == eb[4];
        assert t[5] == ea[5] && t[5] == eb[5];
        HexDigitInjective((a as int) / 16, (b as int) / 16);
        HexDigitInjective((a as int) % 16, (b as int) % 16);
      }
    }
  }

  lemma EscapeCons(s: string)
    requires |s| > 0
    ensures Escape(s) == EscapeChar(s[0]) + Escape(s[1..])
  {
  }

  lemma EscapeStartsUnquoted(s: string, rest: string)
    requires |s| > 0
    ensures |Escape(s) + rest| > 0 && (Escape(s) + rest)[0] != '"'
  {
    EscapeCons(s);
    assert (Escape(s) + rest)[0] == EscapeChar(s[0])[0];
  }

  /** When one of the two texts is empty, both literals end at the first character. */
  lemma EscapeEmptyPrefixFree(s1: string, s2: string, r1: string, r2: string)
    requires |s1| == 0 || |s2| == 0
    requires Escape(s1) + "\"" + r1 == Escape(s2) + "\"" + r2
    ensures s1 == s2 && r1 == r2
  {
    if |s1| == 0 {
      assert Escape(s1) + "\"" + r1 == "\"" + r1;
      assert ("\"" + r1)[0] == '"';
      if |s2| > 0 {
        EscapeStartsUnquoted(s2, "\"" + r2);
      } else {
        assert Escape(s2) + "\"" + r2 == "\"" + r2;
        assert r1 == ("\"" + r1)[1..] && r2 == ("\"" + r2)[1..];
      }
    } else {
      assert Escape(s2) + "\"" + r2 == "\"" + r2;
      assert ("\"" + r2)[0] == '"';
      EscapeStartsUnquoted(s1, "\"" + r1);
    }
  }

  /** Two literals that agree start with the same character, and agree after it. */
  lemma EscapeHeadStep(s1: string, s2: string, r1: string, r2: string)
    requires |s1| > 0 && |s2| > 0
    requires Escape(s1) + "\"" + r1 == Escape(s2) + "\"" + r2
    ensures s1[0] == s2[0]
    ensures Escape(s1[1..]) + "\"" + r1 == Escape(s2[1..]) + "\"" + r2
  {
    var tail1 := Escape(s1[1..]) + "\"" + r1;
    var tail2 := Escape(s2[1..]) + "\"" + r2;
    LiteralCons(s1, r1);
    LiteralCons(s2, r2);
    EscapeCharPrefixFree(s1[0], s2[0], tail1, tail2);
    CancelPrefix(EscapeChar(s1[0]), tail1, tail2);
  }

  lemma LiteralCons(s: string, r: string)
    requires |s| > 0
    ensures Escape(s) + "\"" + r == EscapeChar(s[0]) + (Escape(s[1..]) + "\"" + r)
  {
    EscapeCons(s);
    Regroup(Escape(s), EscapeChar(s[0]), Escape(s[1..]), r);
  }

  lemma Regroup(e: string, head: string, tail: string, r: string)
    requires e == head + tail
    ensures e + "\"" + r == head + (tail + "\"" + r)
  {
  }

  lemma CancelPrefix(p: string, t1: string, t2: string)
    requires p + t1 == p + t2
    ensures t1 == t2
  {
    assert t1 == (p + t1)[|p|..];
  }

  /** The closing quote of a string literal is the first unescaped quote: the literal ends there. */
  lemma {:induction false} EscapePrefixFree(s1: string, s2: string, r1: string, r2: string)
    requires Escape(s1) + "\"" + r1 == Escape(s2) + "\"" + r2
    ensures s1 == s2 && r1 == r2
    decreases |s1|
  {
    if |s1| == 0 || |s2| == 0 {
      EscapeEmptyPrefixFree(s1, s2, r1, r2);
    } else {
      EscapeHeadStep(s1, s2, r1, r2);
      EscapePrefixFree(s1[1..], s2[1..], r1, r2);
      assert s1 == [s1[0]] + s1[1..] && s2 == [s2[0]] + s2[1..];
    }
  }

  /** A quoted string followed by anything determines the string and what follows it. */
  lemma QuotePrefixFree(s1: string, s2: string, r1: string, r2: string)
    requires Quote(s1) + r1 == Quote(s2) + r2
    ensures s1 == s2 && r1 == r2
  {
    var t1 := Escape(s1) + "\"" + r1;
    var t2 := Escape(s2) + "\"" + r2;
    assert Quote(s1) + r1 == "\"" + t1;
    assert Quote(s2) + r2 == "\"" + t2;
    assert t1 == (Quote(s1) + r1)[1..];
    EscapePrefixFree(s1, s2, r1, r2);
  }

  function JoinComma(parts: seq<string>): string {
    if |parts| == 0 then "" else if |parts| == 1 then parts[0] else parts[0] + "," + JoinComma(parts[1..])
  }

  /** `JSON.stringify(j)` without indentation. */
  function Serialize(j: Json): string {
    match j
    case JNull => "null"
    case JBool(b) => if b then "true" else "false"
    case JNum(n) => IntToString(n)
    case JStr(s) => Quote(s)
    case JArr(items) =>
      "[" + JoinComma(seq(|items|, k requires 0 <= k < |items| => Serialize(items[k]))) + "]"
    case JObj(fields) =>
      "{" + JoinComma(seq(|fields|, k requires 0 <= k < |fields| =>
                            Quote(fields[k].0) + ":" + Serialize(fields[k].1))) + "}"
  }

  /** The member texts `"key":value` of an object, in order. */
  function FieldTexts(fields: seq<(string, Json)>): (r: seq<string>)
    ensures |r| == |fields|
  {
    seq(|fields|, k requires 0 <= k < |fields| => Quote(fields[k].0) + ":" + Serialize(fields[k].1))
  }

  lemma SerializeObject(fields: seq<(string, Json)>)
    ensures Serialize(JObj(fields)) == "{" + JoinComma(FieldTexts(fields)) + "}"
  {
  }

  /** The text of an object with at least two members starts with the text of its first member. */
  lemma SerializeFirstMember(j: Json, key: string, v: Json, rest: seq<(string, Json)>)
    requires j == JObj([(key, v)] + rest) && |rest| > 0
    ensures Serialize(j) ==
      ("{" + Quote(key) + ":") + (Serialize(v) + ("," + JoinComma(FieldTexts(rest)) + "}"))
  {
    var f := [(key, v)] + rest;
    var first := Quote(key) + ":" + Serialize(v);
    SerializeObject(f);
    FieldTextsCons(key, v, rest);
    JoinCommaCons(first, FieldTexts(rest));
    RegroupMember(Serialize(j), Quote(key), Serialize(v), JoinComma(FieldTexts(rest)));
  }

  lemma RegroupMember(text: string, q: string, sv: string, tail: string)
    requires text == "{" + (q + ":" + sv + "," + tail) + "}"
    ensures text == ("{" + q + ":") + (sv + ("," + tail + "}"))
  {
  }

  lemma FieldTextsCons(key: string, v: Json, rest: seq<(string, Json)>)
    ensures FieldTexts([(key, v)] + rest) == [Quote(key) + ":" + Serialize(v)] + FieldTexts(rest)
  {
    var f := [(key, v)] + rest;
    assert FieldTexts(f)[1..] == FieldTexts(rest);
  }

  lemma JoinCommaCons(first: string, rest: seq<string>)
    requires |rest| > 0
    ensures JoinComma([first] + rest) == first + "," + JoinComma(rest)
  {
    assert ([first] + rest)[1..] == rest;
  }

  /** The value of `c` as a digit in base `radix` (2, 8, 10 or 16), when it is one. */
  function DigitIn(c: char, radix: nat): Option<nat> {
    var v := if '0' <= c <= '9' then (c as int) - ('0' as int)
             else if 'a' <= c <= 'f' then (c as int) - ('a' as int) + 10
             else if 'A' <= c <= 'F' then (c as int) - ('A' as int) + 10
             else 16;
    if v < radix then Some(v) else None
  }

  /** The value of a run of digits in base `radix`; the empty run is 0. */
  function RadixRun(s: string, radix: nat): Option<nat> {
    if |s| == 0 then Some(0)
    else match (RadixRun(s[..|s| - 1], radix), DigitIn(s[|s| - 1], radix))
      case (Some(high), Some(d)) => Some(high * radix + d)
      case _ => None
  }

  /** The value of a non-empty run of digits in base `radix`. */
  function RadixValue(s: string, radix: nat): Option<nat> {
    if s == "" then None else RadixRun(s, radix)
  }

  function Pow10(k: nat): (r: nat)
    ensures r > 0
  {
    if k == 0 then 1 else 10 * Pow10(k - 1)
  }

  /** The index of the first character of `s` in `cs`, or `|s|`. */
  function FirstIndex(s: string, cs: set<char>): (i: nat)
    ensures i <= |s|
    ensures forall k :: 0 <= k < i ==> s[k] !in cs
    ensures i < |s| ==> s[i] in cs
  {
    if s == "" || s[0] in cs then 0 else 1 + FirstIndex(s[1..], cs)
  }

  /** An exponent: an optional sign and at least one decimal digit. */
  function SignedDigits(t: string): Option<int> {
    if t != "" && t[0] == '-' then
      match RadixValue(t[1..], 10)
      case Some(v) => Some(-(v as int))
      case None => None
    else if t != "" && t[0] == '+' then RadixValue(t[1..], 10)
    else RadixValue(t, 10)
  }

  /** `n * 10^k`, when that is an integer. */
  function Scaled(n: nat, k: int): Option<int> {
    if k >= 0 then Some(n * Pow10(k))
    else if n % Pow10(-k) == 0 then Some(n / Pow10(-k))
    else None
  }

  /**
   * The part of a decimal literal before its exponent: digits, an optional `.` and fraction
   * digits, at least one digit in all. Its digits as one integer, and the number of fraction digits.
   */
  function Mantissa(m: string): Option<(nat, nat)> {
    var d := FirstIndex(m, {'.'});
    var whole := m[..d];
    var fraction := if d < |m| then m[d + 1..] else "";
    if whole == "" && fraction == "" then None
    else match (RadixRun(whole, 10), RadixRun(fraction, 10))
      case (Some(w), Some(f)) => Some((w * Pow10(|fraction|) + f, |fraction|))
      case _ => None
  }

  /**
   * `StrUnsignedDecimalLiteral` of ECMAScript: a mantissa and an optional exponent `e`/`E` with
   * an optional sign. `None` when the text is not one, or when its value is not an integer.
   */
  function UnsignedDecimal(s: string): Option<int> {
    var i := FirstIndex(s, {'e', 'E'});
    var exponent := if i == |s| then Some(0) else SignedDigits(s[i + 1..]);
    match (Mantissa(s[..i]), exponent)
    case (Some((n, places)), Some(e)) => Scaled(n, e - places)
    case _ => None
  }

  /**
   * `Number(s)` for a string (`StringToNumber` of ECMAScript), restricted to integers: white
   * space around the empty text (0), a `0x`, `0o` or `0b` literal, or a signed decimal literal.
   * `None` stands for `NaN`, and also for a value that is not an integer.
   */
  function StringToNumber(s: string): Option<int> {
    TrimmedToNumber(Trim(s))
  }

  /** `StringToNumber` once the white space around the text is gone. */
  function TrimmedToNumber(t: string): Option<int> {
    if t == "" then Some(0)
    else if |t| >= 2 && t[0] == '0' && t[1] in {'x', 'X'} then RadixValue(t[2..], 16)
    else if |t| >= 2 && t[0] == '0' && t[1] in {'o', 'O'} then RadixValue(t[2..], 8)
    else if |t| >= 2 && t[0] == '0' && t[1] in {'b', 'B'} then RadixValue(t[2..], 2)
    else if t[0] == '-' then
      match UnsignedDecimal(t[1..])
      case Some(v) => Some(-v)
      case None => None
    else if t[0] == '+' then UnsignedDecimal(t[1..])
    else UnsignedDecimal(t)
  }

  /**
   * `String(v)` as `Number` sees a value inside an array: `null` is empty, an array is its
   * elements joined by commas, an object is `[object Object]`.
   */
  function ElementText(j: Json): string
    decreases j
  {
    match j
    case JNull => ""
    case JBool(b) => if b then "true" else "false"
    case JNum(n) => IntToString(n)
    case JStr(s) => s
    case JArr(items) => JoinComma(seq(|items|, k requires 0 <= k < |items| => ElementText(items[k])))
    case JObj(_) => "[object Object]"
  }

  /** `Number(v)` for a property read (`None` stands for `NaN`, and a missing property reads as `undefined`). */
  function ToNumber(o: Option<Json>): Option<int> {
    match o
    case None => None
    case Some(j) =>
      match j
      case JNull => Some(0)
      case JBool(b) => Some(if b then 1 else 0)
      case JNum(n) => Some(n)
      case JStr(s) => StringToNumber(s)
      case JArr(_) => StringToNumber(ElementText(j))
      case JObj(_) => None
  }

  /** `Number(String(n))` is `n`: the decimal rendering reads back as the integer it renders. */
  lemma NumberOfString(n: int)
    ensures StringToNumber(IntToString(n)) == Some(n)
  {
    var t := IntToString(n);
    NotSpace(t[0]);
    NotSpace(t[|t| - 1]);
    TrimKeeps(t);
    assert StringToNumber(t) == TrimmedToNumber(t);
    if n < 0 {
      assert t == "-" + NatToString(-n);
      NumberOfNegative(-n);
    } else {
      assert t == NatToString(n);
      NumberOfNat(n);
    }
  }

  lemma NumberOfNat(m: nat)
    ensures TrimmedToNumber(NatToString(m)) == Some(m)
  {
    var t := NatToString(m);
    assert IsDigit(t[0]) && (|t| >= 2 ==> t[0] != '0');
    DecimalOfNat(m);
  }

  lemma NumberOfNegative(m: nat)
    requires m > 0
    ensures TrimmedToNumber("-" + NatToString(m)) == Some(-(m as int))
  {
    var t := "-" + NatToString(m);
    assert t[1..] == NatToString(m);
    DecimalOfNat(m);
  }

  lemma NotSpace(c: char)
    requires IsDigit(c) || c == '-'
    ensures !IsJsSpace(c)
  {
  }

  /** A text that neither starts nor ends with white space is its own trim. */
  lemma TrimKeeps(t: string)
    requires |t| > 0 && !IsJsSpace(t[0]) && !IsJsSpace(t[|t| - 1])
    ensures Trim(t) == t
  {
    assert TrimStart(t) == t;
  }

  lemma DecimalOfNat(m: nat)
    ensures UnsignedDecimal(NatToString(m)) == Some(m)
  {
    var s := NatToString(m);
    FirstIndexMissing(s, {'e', 'E'});
    assert s[..|s|] == s;
    MantissaOfNat(m);
  }

  lemma MantissaOfNat(m: nat)
    ensures Mantissa(NatToString(m)) == Some((m, 0))
  {
    var s := NatToString(m);
    FirstIndexMissing(s, {'.'});
    assert s[..|s|] == s;
    RadixRunOfNat(m);
  }

  lemma FirstIndexMissing(s: string, cs: set<char>)
    requires forall k :: 0 <= k < |s| ==> s[k] !in cs
    ensures FirstIndex(s, cs) == |s|
  {
  }

  lemma {:induction false} RadixRunOfNat(m: nat)
    ensures RadixRun(NatToString(m), 10) == Some(m)
  {
    var s := NatToString(m);
    if m < 10 {
      assert s[..0] == "";
    } else {
      RadixRunOfNat(m / 10);
      assert s[..|s| - 1] == NatToString(m / 10);
      assert s[|s| - 1] == DigitChar(m % 10);
    }
  }

  /** `Number("0x10")` is 16: a hexadecimal literal. */
  lemma HexTextNumber()
    ensures StringToNumber("0x10") == Some(16)
  {
    var t := "0x10";
    NotSpace(t[0]);
    TrimKeeps(t);
    assert StringToNumber(t) == TrimmedToNumber(t);
    assert t[2..] == "10";
    assert RadixRun("10", 16) == Some(16) by {
      assert "10"[..1] == "1";
      assert "1"[..0] == "";
    }
  }

  /** `Number("0b11")` is 3: a binary literal. */
  lemma BinaryTextNumber()
    ensures StringToNumber("0b11") == Some(3)
  {
    var t := "0b11";
    NotSpace(t[0]);
    NotSpace(t[3]);
    TrimKeeps(t);
    assert StringToNumber(t) == TrimmedToNumber(t);
    assert t[2..] == "11";
    assert RadixRun("11", 2) == Some(3) by {
      assert "11"[..1] == "1";
      assert "1"[..0] == "";
    }
  }

  /** `Number("1e3")` is 1000: an exponent. */
  lemma ExponentTextNumber()
    ensures StringToNumber("1e3") == Some(1000)
  {
    var t := "1e3";
    NotSpace(t[0]);
    NotSpace(t[2]);
    TrimKeeps(t);
    assert StringToNumber(t) == TrimmedToNumber(t);
    assert TrimmedToNumber(t) == UnsignedDecimal(t);
    assert FirstIndex(t, {'e', 'E'}) == 1;
    assert t[..1] == "1" && t[2..] == "3";
    assert "1"[..0] == "" && "3"[..0] == "";
    assert FirstIndex("1", {'.'}) == 1;
    assert "1"[..1] == "1";
    assert Mantissa("1") == Some((1, 0));
    assert SignedDigits("3") == Some(3);
    assert Pow10(3) == 1000;
  }

  /** `Number("5.0")` is 5: a fraction of zeros. */
  lemma ZeroFractionTextNumber()
    ensures StringToNumber("5.0") == Some(5)
  {
    var t := "5.0";
    NotSpace(t[0]);
    NotSpace(t[2]);
    TrimKeeps(t);
    assert StringToNumber(t) == TrimmedToNumber(t);
    assert TrimmedToNumber(t) == UnsignedDecimal(t);
    assert FirstIndex(t, {'e', 'E'}) == 3;
    assert t[..3] == t;
    assert FirstIndex(t, {'.'}) == 1;
    assert t[..1] == "5" && t[2..] == "0";
    assert "5"[..0] == "" && "0"[..0] == "";
    assert Mantissa(t) == Some((50, 1));
  }

  /** `Number([[5]])` is 5: an array is read through its text. */
  lemma NestedArrayNumber()
    ensures ToNumber(Some(JArr([JArr([JNum(5)])]))) == Some(5)
  {
    var inner := JArr([JNum(5)]);
    assert ElementText(inner) == "5" by {
      assert ElementText(JNum(5)) == IntToString(5) == "5";
    }
    assert ElementText(JArr([inner])) == "5";
    NumberOfString(5);
  }

  /** `Number(v) || 0`. */
  function NumberOrZero(o: Option<Json>): int {
    ToNumber(o).GetOr(0)
  }

  /** `list.slice(-n)` when the list is longer than `n`, the list itself otherwise. */
  function KeepLast<T>(s: seq<T>, n: nat): (r: seq<T>)
    ensures |r| == if |s| > n then n else |s|
    ensures r == s[|s| - |r|..]
  {
    if |s| > n then s[|s| - n..] else s
  }
}
