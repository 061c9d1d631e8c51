/** The JSON text of a profile, read back by sections 2 to 7 of RFC 8259. */
module ProfileJson {
  import opened Decimals
  import opened JsonReader
  import opened StringReplace
  import opened ProfileText

  // ----- strings

  predicate NoControls(s: string) {
    forall i :: 0 <= i < |s| ==> !IsControl(s[i])
  }

  /** One character of a string, with whatever stands behind it. */
  lemma {:induction false} ReadEscapedChar(c: char, rest: string)
    ensures ParseChars(EscapeChar(c) + rest)
      == if IsControl(c) then Fail
         else match ParseChars(rest)
           case Done(t, tail) => Done([c] + t, tail)
           case Fail => Fail
  {
    var e := EscapeChar(c);
    var text := e + rest;
    if |e| == 1 {
      assert text[0] == c && text[1..] == rest;
    } else {
      assert text[0] == '\\' && text[1] == c && text[2..] == rest;
    }
  }

  /** Reading an escaped string up to its closing quote gives back the string, unless it holds a control character. */
  lemma {:induction false} ReadEscaped(s: string, tail: string)
    ensures ParseChars(Substituted(s, EscapeChar) + ("\"" + tail)) == if NoControls(s) then Done(s, tail) else Fail
  {
    var end := "\"" + tail;
    if s == "" {
      assert "" + end == end && end[1..] == tail;
    } else {
      var e, r := EscapeChar(s[0]), Substituted(s[1..], EscapeChar);
      ReadEscaped(s[1..], tail);
      ReadEscapedChar(s[0], r + end);
      assert e + r + end == e + (r + end);
      assert NoControls(s) <==> !IsControl(s[0]) && NoControls(s[1..]);
      assert s == [s[0]] + s[1..];
    }
  }

  lemma {:induction false} SlashKeepsControls(s: string)
    ensures NoControls(SlashPath(s)) <==> NoControls(s)
  {
    if s != "" {
      SlashKeepsControls(s[1..]);
      var p, q := SlashPath(s), SlashPath(s[1..]);
      assert |p| == 1 + |q| && p[1..] == q;
      assert NoControls(p) <==> !IsControl(p[0]) && NoControls(q);
      assert NoControls(s) <==> !IsControl(s[0]) && NoControls(s[1..]);
    }
  }

  // ----- member names

  predicate Plain(s: string) {
    forall i :: 0 <= i < |s| ==> !IsControl(s[i]) && s[i] != '"' && s[i] != '\\'
  }

  lemma {:induction false} PlainUnescaped(s: string)
    requires Plain(s)
    ensures Substituted(s, EscapeChar) == s
  {
    if s != "" { PlainUnescaped(s[1..]); }
  }

  /** `tail` starts with something that is not whitespace. */
  predicate Solid(tail: string) {
    tail != "" && !IsSpace(tail[0])
  }

  lemma {:induction false} ReadKey(key: string, tail: string)
    requires Plain(key) && Solid(tail)
    ensures ParseKey(KeyText(key) + tail) == Done(key, tail)
  {
    var after := ":" + tail;
    PlainUnescaped(key);
    ReadEscaped(key, after);
    var text := KeyText(key) + tail;
    assert text[0] == '"' && text[1..] == key + ("\"" + after);
    assert ParseChars(text[1..]) == Done(key, after);
    assert after[0] == ':' && SkipSpace(after) == after;
    assert after[1..] == tail && SkipSpace(tail) == tail;
  }

  /** The rest of an object, once a member with value `v` and the comma after it have been read. */
  function AfterMember(key: string, v: Json, tail: string): (res: Result<seq<(string, Json)>>) {
    var (ms, rest) :- ParseMembers(SkipSpace(tail));
    Done([(key, v)] + ms, rest)
  }

  lemma {:induction false} ReadMember(key: string, text: string, tail: string)
    requires Plain(key) && Solid(text)
    ensures ParseValue(text).Fail? ==> ParseMembers(KeyText(key) + text) == Fail
    ensures ParseValue(text).Done? && ParseValue(text).rest == "," + tail ==>
      ParseMembers(KeyText(key) + text) == AfterMember(key, ParseValue(text).value, tail)
    ensures ParseValue(text).Done? && ParseValue(text).rest == "}" + tail ==>
      ParseMembers(KeyText(key) + text) == Done([(key, ParseValue(text).value)], tail)
  {
    ReadKey(key, text);
    assert ("," + tail)[1..] == tail && ("}" + tail)[1..] == tail;
  }

  lemma {:induction false} ReadStringMember(key: string, s: string, tail: string)
    requires Plain(key)
    ensures ParseMembers(StringMember(key, Substituted(s, EscapeChar)) + tail)
      == if NoControls(s) then AfterMember(key, String(s), tail) else Fail
  {
    var body := Substituted(s, EscapeChar);
    var text := "\"" + (body + ("\"" + ("," + tail)));
    ReadString(s, "," + tail);
    ReadMember(key, text, tail);
    StringLayout(key, body, tail);
  }

  lemma {:induction false} ReadString(s: string, rest: string)
    ensures ParseValue("\"" + (Substituted(s, EscapeChar) + ("\"" + rest)))
      == if NoControls(s) then Done(String(s), rest) else Fail
  {
    var body := Substituted(s, EscapeChar) + ("\"" + rest);
    ReadEscaped(s, rest);
    assert ("\"" + body)[1..] == body;
  }

  lemma {:induction false} StringLayout(key: string, body: string, tail: string)
    ensures StringMember(key, body) + tail == KeyText(key) + ("\"" + (body + ("\"" + ("," + tail))))
  {
  }

  lemma {:induction false} ReadNumberMember(key: string, number: string, v: Json, tail: string)
    requires Plain(key) && number != "" && (IsDigit(number[0]) || number[0] == '-')
    requires ParseNumber(number + ("," + tail)) == Done(v, "," + tail)
    ensures ParseMembers(NumberMember(key, number) + tail) == AfterMember(key, v, tail)
  {
    var text := number + ("," + tail);
    NumberValue(text);
    ReadMember(key, text, tail);
    Regroup(KeyText(key), number, ",", tail);
  }

  lemma {:induction false} NumberValue(text: string)
    requires text != "" && (IsDigit(text[0]) || text[0] == '-')
    ensures ParseValue(text) == ParseNumber(text) && Solid(text)
  {
  }

  lemma {:induction false} Regroup(a: string, b: string, c: string, d: string)
    ensures a + b + c + d == a + (b + (c + d))
  {
  }

  // ----- numbers

  /** A comma or a closing brace: what may follow a number here. */
  predicate EndsNumber(tail: string) {
    tail != "" && (tail[0] == ',' || tail[0] == '}')
  }

  lemma {:induction false} NoFraction(tail: string)
    requires EndsNumber(tail)
    ensures ParseFraction(tail) == Done("", tail) && ParseExponent(tail) == Done(0, tail)
  {
  }

  lemma {:induction false} ReadDecimal(n: nat, tail: string)
    requires EndsNumber(tail)
    ensures ParseNumber(Decimal(n) + tail) == Done(Number(n as real), tail)
    ensures ParseNumber("-" + Decimal(n) + tail) == Done(Number(-(n as real)), tail)
  {
    var d := Decimal(n);
    TakeAll(d, tail);
    NatOfDecimal(n);
    NoFraction(tail);
    assert d + "" == d;
    assert ("-" + d + tail)[1..] == d + tail;
    assert (d + tail)[0] == d[0];
  }

  lemma {:induction false} ReadInteger(i: int, tail: string)
    requires EndsNumber(tail)
    ensures ParseNumber(IntText(i) + tail) == Done(Number(i as real), tail)
  {
    ReadDecimal(if i < 0 then -i else i, tail);
  }

  lemma {:induction false} Pow10Add(a: nat, b: nat)
    ensures Pow10(a) * Pow10(b) == Pow10(a + b)
    decreases a
  {
    if a > 0 { Pow10Add(a - 1, b); }
  }

  lemma {:induction false} DecimalLength(n: nat)
    ensures n < Pow10(|Decimal(n)|)
    ensures n > 0 ==> Pow10(|Decimal(n)| - 1) <= n
  {
    if n >= 10 { DecimalLength(n / 10); }
  }

  lemma {:induction false} Pow10Values()
    ensures Pow10(5) == 100_000 && Pow10(6) == MILLION
  {
    assert Pow10(1) == 10;
    assert Pow10(3) == 1000;
  }

  lemma {:induction false} Pow10Monotone(a: nat, b: nat)
    requires a <= b
    ensures Pow10(a) <= Pow10(b)
    decreases b
  {
    if a < b { Pow10Monotone(a, b - 1); }
  }

  /** From a million on there are more than six digits, and the six kept ones do not all vanish. */
  lemma {:induction false} MillionExceeds(n: nat)
    requires n >= MILLION
    ensures |Decimal(n)| > 6 && Excess(n) == |Decimal(n)| - 6
    ensures RoundHalfEven(n, Pow10(Excess(n))) > 0
  {
    DecimalLength(n);
    Pow10Values();
    if |Decimal(n)| <= 6 { Pow10Monotone(|Decimal(n)|, 6); }
    var d := Pow10(Excess(n));
    Pow10Monotone(Excess(n), |Decimal(n)| - 1);
    assert n >= d;
    QuotientPositive(n, d);
  }

  lemma {:induction false} QuotientPositive(n: nat, d: nat)
    requires n >= d > 0
    ensures n / d > 0
  {
  }

  /** What `StripZeros` drops is a power of ten. */
  lemma {:induction false} StripScales(s: string)
    requires AllDigits(s) && s != ""
    ensures AllDigits(StripZeros(s))
    ensures NatOf(StripZeros(s)) * Pow10(|s| - |StripZeros(s)|) == NatOf(s)
  {
    if |s| > 1 && s[|s| - 1] == '0' {
      var r := s[..|s| - 1];
      StripScales(r);
      var a, k := NatOf(StripZeros(r)), |r| - |StripZeros(r)|;
      assert NatOf(s) == 10 * NatOf(r);
      TimesTen(a, Pow10(k));
      assert Pow10(k + 1) == 10 * Pow10(k);
    }
  }

  lemma {:induction false} TimesTen(a: nat, b: nat)
    ensures a * (10 * b) == 10 * (a * b)
  {
  }

  lemma {:induction false} NatOfLeadingZero(s: string)
    requires AllDigits(s)
    ensures AllDigits("0" + s) && NatOf("0" + s) == NatOf(s)
  {
    var z := "0" + s;
    if s == "" {
      assert z[..0] == "";
    } else {
      NatOfLeadingZero(s[..|s| - 1]);
      assert z[..|z| - 1] == "0" + s[..|s| - 1];
    }
  }

  lemma {:induction false} ReadExponent(e: nat, tail: string)
    requires EndsNumber(tail)
    ensures ParseExponent("e+" + (ExponentText(e) + tail)) == Done(e, tail)
  {
    var d := ExponentText(e);
    NatOfDecimal(e);
    NatOfLeadingZero(Decimal(e));
    TakeAll(d, tail);
    assert ("e+" + (d + tail))[2..] == d + tail;
  }

  lemma {:induction false} ReadFraction(f: string, tail: string)
    requires AllDigits(f) && tail != "" && tail[0] == 'e'
    ensures ParseFraction(FractionText(f) + tail) == Done(f, tail)
  {
    TakeAll(f, tail);
    if f == "" {
      assert "" + tail == tail;
    } else {
      assert ("." + f + tail)[1..] == f + tail;
    }
  }

  function FractionText(f: string): (text: string) {
    if f == "" then "" else "." + f
  }

  lemma {:induction false} Regroup5(a: string, b: string, c: string, d: string, e: string)
    ensures a + b + c + d + e == a + (b + (c + (d + e)))
  {
    Associate(a + b + c, d, e);
    Regroup(a, b, c, d + e);
  }

  /** Scientific notation: one digit, the other digits as a fraction, an exponent. */
  lemma {:induction false} ReadScientific(i: string, f: string, e: nat, tail: string)
    requires |i| == 1 && AllDigits(i) && AllDigits(f) && EndsNumber(tail)
    ensures AllDigits(i + f)
    ensures ParseNumber(i + (FractionText(f) + ("e+" + (ExponentText(e) + tail))))
      == Done(Number(Scaled(NatOf(i + f), e - |f|)), tail)
  {
    var exp := "e+" + (ExponentText(e) + tail);
    var frac := FractionText(f) + exp;
    ReadExponent(e, tail);
    ReadFraction(f, exp);
    assert !IsDigit(frac[0]);
    TakeAll(i, frac);
    assert (i + frac)[0] == i[0];
  }

  lemma {:induction false} ScaleDigits(shown: nat, a: nat, b: nat, m: nat)
    requires shown * Pow10(a) == m
    ensures shown * Pow10(a + b) == m * Pow10(b)
  {
    Pow10Add(a, b);
    assert shown * (Pow10(a) * Pow10(b)) == (shown * Pow10(a)) * Pow10(b);
  }

  /** The digits shown and the exponent denote the mantissa they were stripped from, scaled back. */
  lemma {:induction false} MantissaScaled(m: nat, k: nat)
    requires m > 0
    ensures var ds := Decimal(m);
      var shown := StripZeros(ds);
      AllDigits(shown) && Scaled(NatOf(shown), k + |ds| - |shown|) == (m * Pow10(k)) as real
  {
    var ds := Decimal(m);
    var shown := StripZeros(ds);
    StripScales(ds);
    NatOfDecimal(m);
    ScaleDigits(NatOf(shown), |ds| - |shown|, k, m);
  }

  lemma {:induction false} ReadMantissa(shown: string, e: nat, value: real, tail: string)
    requires AllDigits(shown) && shown != "" && Scaled(NatOf(shown), e - (|shown| - 1)) == value && EndsNumber(tail)
    ensures ParseNumber(shown[..1] + (FractionText(shown[1..]) + ("e+" + (ExponentText(e) + tail))))
      == Done(Number(value), tail)
  {
    assert shown[..1] + shown[1..] == shown;
    ReadScientific(shown[..1], shown[1..], e, tail);
  }

  lemma {:induction false} ReadHits(n: nat, tail: string)
    requires EndsNumber(tail)
    ensures ParseNumber(HitText(n) + tail) == Done(Number(RoundedHits(n) as real), tail)
    ensures HitText(n) != "" && IsDigit(HitText(n)[0])
  {
    if n < MILLION {
      ReadDecimal(n, tail);
    } else {
      MillionExceeds(n);
      var k := Excess(n);
      var m := RoundHalfEven(n, Pow10(k));
      var ds := Decimal(m);
      var shown := StripZeros(ds);
      MantissaScaled(m, k);
      ReadMantissa(shown, k + |ds| - 1, (m * Pow10(k)) as real, tail);
      assert shown[0] == ds[0];
      assert HitText(n) == shown[..1] + FractionText(shown[1..]) + "e+" + ExponentText(k + |ds| - 1);
      Regroup5(shown[..1], FractionText(shown[1..]), "e+", ExponentText(k + |ds| - 1), tail);
    }
  }

  predicate SixDigits(n: nat) {
    n < MILLION || n % Pow10(Excess(n)) == 0
  }

  /** The printed hit count is the hit count exactly when at most six digits are significant. */
  lemma {:induction false} RoundedHitsExact(n: nat)
    ensures RoundedHits(n) == n <==> SixDigits(n)
  {
    if n >= MILLION {
      var d := Pow10(Excess(n));
      var q, r := n / d, n % d;
      assert n == q * d + r && (q + 1) * d == q * d + d;
    }
  }

  // ----- nodes

  /** The value a node's text denotes.  Its parent is not printed: it is the enclosing object. */
  function ToJson(t: Node, id: nat): (json: Json)
    decreases t
  {
    Object(HeadMembers(t, id) + [("children", Array(ToJsons(t.children, id + 1)))])
  }

  function HeadMembers(t: Node, id: nat): (items: seq<(string, Json)>) {
    [("functionName", String(t.functionName)), ("url", String(SlashPath(t.script))),
     ("lineNumber", Number(t.line as real)), ("hitCount", Number(RoundedHits(t.hits) as real)),
     ("id", Number(id as real))]
  }

  function ToJsons(ts: seq<Node>, id: nat): (items: seq<Json>)
    decreases ts
  {
    if ts == [] then [] else [ToJson(ts[0], id)] + ToJsons(ts[1..], id + Size(ts[0]))
  }

  predicate CleanNames(t: Node) {
    NoControls(t.functionName) && NoControls(t.script)
  }

  /** No name in the profile holds a control character. */
  predicate Clean(t: Node)
    decreases t
  {
    CleanNames(t) && CleanAll(t.children)
  }

  predicate CleanAll(ts: seq<Node>)
    decreases ts
  {
    ts != [] ==> Clean(ts[0]) && CleanAll(ts[1..])
  }

  function Prepend(ms: seq<(string, Json)>, r: Result<seq<(string, Json)>>): (res: Result<seq<(string, Json)>>) {
    if r.Fail? then Fail else Done(ms + r.value, r.rest)
  }

  /** Reading `a` in front of `tail` puts the members `ms` in front of what `tail` holds. */
  ghost predicate Reads(a: string, tail: string, ms: seq<(string, Json)>) {
    Solid(a + tail) && ParseMembers(a + tail) == Prepend(ms, ParseMembers(tail))
  }

  lemma {:induction false} PrependTwice(m: seq<(string, Json)>, n: seq<(string, Json)>, r: Result<seq<(string, Json)>>)
    ensures Prepend(m, Prepend(n, r)) == Prepend(m + n, r)
  {
    if r.Done? { assert m + (n + r.value) == (m + n) + r.value; }
  }

  lemma {:induction false} KeysPlain()
    ensures Plain("functionName") && Plain("url") && Plain("lineNumber")
    ensures Plain("hitCount") && Plain("id") && Plain("children")
  {
  }

  lemma {:induction false} NumberReads(key: string, number: string, v: Json, tail: string)
    requires Plain(key) && number != "" && (IsDigit(number[0]) || number[0] == '-') && Solid(tail)
    requires ParseNumber(number + ("," + tail)) == Done(v, "," + tail)
    ensures Reads(NumberMember(key, number), tail, [(key, v)])
  {
    ReadNumberMember(key, number, v, tail);
    assert SkipSpace(tail) == tail;
  }

  lemma {:induction false} StringReads(key: string, s: string, tail: string)
    requires Plain(key) && Solid(tail)
    ensures Solid(StringMember(key, Substituted(s, EscapeChar)) + tail)
    ensures NoControls(s) ==> Reads(StringMember(key, Substituted(s, EscapeChar)), tail, [(key, String(s))])
    ensures !NoControls(s) ==> ParseMembers(StringMember(key, Substituted(s, EscapeChar)) + tail) == Fail
  {
    ReadStringMember(key, s, tail);
    assert SkipSpace(tail) == tail;
  }

  lemma {:induction false} ReadLine(line: int, tail: string)
    requires Solid(tail)
    ensures Reads(NumberMember("lineNumber", IntText(line)), tail, [("lineNumber", Number(line as real))])
  {
    KeysPlain();
    ReadInteger(line, "," + tail);
    NumberReads("lineNumber", IntText(line), Number(line as real), tail);
  }

  lemma {:induction false} ReadHitCount(hits: nat, tail: string)
    requires Solid(tail)
    ensures Reads(NumberMember("hitCount", HitText(hits)), tail, [("hitCount", Number(RoundedHits(hits) as real))])
  {
    KeysPlain();
    ReadHits(hits, "," + tail);
    NumberReads("hitCount", HitText(hits), Number(RoundedHits(hits) as real), tail);
  }

  lemma {:induction false} ReadId(id: nat, tail: string)
    requires Solid(tail)
    ensures Reads(NumberMember("id", Decimal(id)), tail, [("id", Number(id as real))])
  {
    KeysPlain();
    ReadDecimal(id, "," + tail);
    NumberReads("id", Decimal(id), Number(id as real), tail);
  }

  /** A name with a control character in it stops the reader. */
  lemma {:induction false} ReadFunctionName(name: string, tail: string)
    requires Solid(tail)
    ensures Solid(StringMember("functionName", EscapedName(name)) + tail)
    ensures NoControls(name) ==>
      Reads(StringMember("functionName", EscapedName(name)), tail, [("functionName", String(name))])
    ensures !NoControls(name) ==> ParseMembers(StringMember("functionName", EscapedName(name)) + tail) == Fail
  {
    KeysPlain();
    TwoPassesAreOne(name);
    StringReads("functionName", name, tail);
  }

  lemma {:induction false} ReadUrl(script: string, tail: string)
    requires Solid(tail)
    ensures Solid(StringMember("url", EscapedPath(script)) + tail)
    ensures NoControls(script) ==>
      Reads(StringMember("url", EscapedPath(script)), tail, [("url", String(SlashPath(script)))])
    ensures !NoControls(script) ==> ParseMembers(StringMember("url", EscapedPath(script)) + tail) == Fail
  {
    KeysPlain();
    PathPasses(script);
    SlashKeepsControls(script);
    StringReads("url", SlashPath(script), tail);
  }

  /** Five members in a row, of which the first two may be unreadable. */
  lemma {:induction false} ReadFive(a1: string, a2: string, a3: string, a4: string, a5: string, tail: string,
      m1: seq<(string, Json)>, m2: seq<(string, Json)>, m3: seq<(string, Json)>, m4: seq<(string, Json)>,
      m5: seq<(string, Json)>, ok1: bool, ok2: bool)
    requires Reads(a5, tail, m5) && Reads(a4, a5 + tail, m4) && Reads(a3, a4 + (a5 + tail), m3)
    requires if ok2 then Reads(a2, a3 + (a4 + (a5 + tail)), m2)
             else ParseMembers(a2 + (a3 + (a4 + (a5 + tail)))) == Fail
    requires if ok1 then Reads(a1, a2 + (a3 + (a4 + (a5 + tail))), m1)
             else ParseMembers(a1 + (a2 + (a3 + (a4 + (a5 + tail))))) == Fail
    ensures ParseMembers(a1 + (a2 + (a3 + (a4 + (a5 + tail)))))
      == if ok1 && ok2 then Prepend(m1 + (m2 + (m3 + (m4 + m5))), ParseMembers(tail)) else Fail
  {
    var r := ParseMembers(tail);
    PrependTwice(m4, m5, r);
    PrependTwice(m3, m4 + m5, r);
    PrependTwice(m2, m3 + (m4 + m5), r);
    PrependTwice(m1, m2 + (m3 + (m4 + m5)), r);
  }

  /** Everything a node prints before its children. */
  lemma {:induction false} ReadHead(t: Node, id: nat, tail: string)
    requires Solid(tail)
    ensures ParseMembers(StringMember("functionName", EscapedName(t.functionName))
        + (StringMember("url", EscapedPath(t.script))
        + (NumberMember("lineNumber", IntText(t.line))
        + (NumberMember("hitCount", HitText(t.hits))
        + (NumberMember("id", Decimal(id)) + tail)))))
      == if CleanNames(t) then Prepend(HeadMembers(t, id), ParseMembers(tail)) else Fail
  {
    var a1, a2 := StringMember("functionName", EscapedName(t.functionName)), StringMember("url", EscapedPath(t.script));
    var a3, a4 := NumberMember("lineNumber", IntText(t.line)), NumberMember("hitCount", HitText(t.hits));
    var a5 := NumberMember("id", Decimal(id));
    ReadId(id, tail);
    ReadHitCount(t.hits, a5 + tail);
    ReadLine(t.line, a4 + (a5 + tail));
    ReadUrl(t.script, a3 + (a4 + (a5 + tail)));
    ReadFunctionName(t.functionName, a2 + (a3 + (a4 + (a5 + tail))));
    var m1, m2 := [("functionName", String(t.functionName))], [("url", String(SlashPath(t.script)))];
    var m3, m4 := [("lineNumber", Number(t.line as real))], [("hitCount", Number(RoundedHits(t.hits) as real))];
    var m5 := [("id", Number(id as real))];
    ReadFive(a1, a2, a3, a4, a5, tail, m1, m2, m3, m4, m5, NoControls(t.functionName), NoControls(t.script));
    FiveMembers(m1[0], m2[0], m3[0], m4[0], m5[0]);
  }

  lemma {:induction false} FiveMembers<T>(a: T, b: T, c: T, d: T, e: T)
    ensures [a] + ([b] + ([c] + ([d] + [e]))) == [a, b, c, d, e]
  {
  }

  // ----- the recursion

  /** `cb` prints the head of a node in JSON mode. */
  ghost predicate PrintsHeads(cb: Callback) {
    forall t, id, p {:trigger HeadText(true, t, id, p)} :: cb(t, id, p) == HeadText(true, t, id, p)
  }

  /** The children member, once the array itself has been read. */
  lemma {:induction false} ReadChildren(list: string, rest: string)
    requires Solid(list)
    requires ParseValue(list).Done? ==> ParseValue(list).rest == "}" + rest
    ensures Solid(KeyText("children") + list)
    ensures ParseMembers(KeyText("children") + list)
      == if ParseValue(list).Fail? then Fail else Done([("children", ParseValue(list).value)], rest)
  {
    KeysPlain();
    ReadMember("children", list, rest);
  }

  lemma {:induction false} ReadArray(kids: string, elements: Result<seq<Json>>, tail: string)
    requires kids == "" ==> elements == Done([], tail)
    requires kids != "" ==> !IsSpace(kids[0]) && kids[0] != ']' && elements == ParseElements(kids + ("]" + tail))
    ensures ParseValue("[" + (kids + ("]" + tail)))
      == if elements.Fail? then Fail else Done(Array(elements.value), elements.rest)
  {
    var inner := kids + ("]" + tail);
    assert ("[" + inner)[1..] == inner;
    if kids == "" {
      assert inner == "]" + tail && inner[1..] == tail;
    }
  }

  lemma {:induction false} ReadBraces(members: string)
    requires Solid(members) && members[0] != '}'
    ensures ParseValue("{" + members)
      == if ParseMembers(members).Fail? then Fail
         else Done(Object(ParseMembers(members).value), ParseMembers(members).rest)
  {
    assert ("{" + members)[1..] == members;
  }

  lemma {:induction false} Layout(a0: string, a1: string, a2: string, a3: string, a4: string, a5: string, a6: string,
      open: string, kids: string, close: string, brace: string, rest: string)
    ensures (a0 + (a1 + (a2 + (a3 + (a4 + (a5 + (a6 + open))))))) + kids + (close + brace) + rest
      == a0 + (a1 + (a2 + (a3 + (a4 + (a5 + (a6 + (open + (kids + (close + (brace + rest))))))))))
  {
    var x := kids + (close + (brace + rest));
    var head := a0 + (a1 + (a2 + (a3 + (a4 + (a5 + (a6 + open))))));
    Regroup(head, kids, close + brace, rest);
    Associate(close, brace, rest);
    Nested(a0, a1, a2, a3, a4, a5, a6, open, x);
  }

  lemma {:induction false} Nested(a0: string, a1: string, a2: string, a3: string, a4: string, a5: string, a6: string,
      open: string, x: string)
    ensures (a0 + (a1 + (a2 + (a3 + (a4 + (a5 + (a6 + open))))))) + x
      == a0 + (a1 + (a2 + (a3 + (a4 + (a5 + (a6 + (open + x)))))))
  {
    Associate(a0, a1 + (a2 + (a3 + (a4 + (a5 + (a6 + open))))), x);
    Associate(a1, a2 + (a3 + (a4 + (a5 + (a6 + open)))), x);
    Associate(a2, a3 + (a4 + (a5 + (a6 + open))), x);
    Associate(a3, a4 + (a5 + (a6 + open)), x);
    Associate(a4, a5 + (a6 + open), x);
    Associate(a5, a6 + open, x);
    Associate(a6, open, x);
  }

  /** A node's text with what follows it, regrouped from left to right. */
  lemma {:induction false} NodeLayout(t: Node, id: nat, kids: string, rest: string)
    ensures JsonHead(t, id) + kids + "]}" + rest
      == "{" + (StringMember("functionName", EscapedName(t.functionName))
        + (StringMember("url", EscapedPath(t.script))
        + (NumberMember("lineNumber", IntText(t.line))
        + (NumberMember("hitCount", HitText(t.hits))
        + (NumberMember("id", Decimal(id))
        + (KeyText("children") + ("[" + (kids + ("]" + ("}" + rest))))))))))
  {
    Layout("{", StringMember("functionName", EscapedName(t.functionName)), StringMember("url", EscapedPath(t.script)),
           NumberMember("lineNumber", IntText(t.line)), NumberMember("hitCount", HitText(t.hits)),
           NumberMember("id", Decimal(id)), KeyText("children"), "[", kids, "]", "}", rest);
    assert "]" + "}" == "]}";
  }

  /** A node, given what reading its children gives. */
  lemma {:induction false} ReadNodeAround(t: Node, id: nat, kids: string, elements: Result<seq<Json>>, rest: string)
    requires kids == "" ==> elements == Done([], "}" + rest)
    requires kids != "" ==>
      !IsSpace(kids[0]) && kids[0] != ']' && elements == ParseElements(kids + ("]" + ("}" + rest)))
    requires elements.Done? ==> elements.rest == "}" + rest
    ensures ParseValue(JsonHead(t, id) + kids + "]}" + rest)
      == if CleanNames(t) && elements.Done?
         then Done(Object(HeadMembers(t, id) + [("children", Array(elements.value))]), rest) else Fail
  {
    var list := "[" + (kids + ("]" + ("}" + rest)));
    ReadArray(kids, elements, "}" + rest);
    ReadChildren(list, rest);
    var tail := KeyText("children") + list;
    ReadHead(t, id, tail);
    NodeLayout(t, id, kids, rest);
    var members := StringMember("functionName", EscapedName(t.functionName))
      + (StringMember("url", EscapedPath(t.script))
      + (NumberMember("lineNumber", IntText(t.line)) + (NumberMember("hitCount", HitText(t.hits))
      + (NumberMember("id", Decimal(id)) + tail))));
    assert members[0] == '"';
    ReadBraces(members);
  }

  lemma {:induction false} HeadOf(cb: Callback, t: Node, id: nat, parentId: nat)
    requires PrintsHeads(cb)
    ensures cb(t, id, parentId) == JsonHead(t, id) && JsonHead(t, id) != "" && JsonHead(t, id)[0] == '{'
  {
    assert HeadText(true, t, id, parentId) == JsonHead(t, id);
  }

  lemma {:induction false} NodeStart(cb: Callback, t: Node, id: nat, parentId: nat)
    requires PrintsHeads(cb)
    ensures VisitText(true, cb, t, id, parentId) != "" && VisitText(true, cb, t, id, parentId)[0] == '{'
  {
    HeadOf(cb, t, id, parentId);
  }

  lemma {:induction false} KidsStart(cb: Callback, ts: seq<Node>, id: nat, parentId: nat)
    requires PrintsHeads(cb) && ts != []
    ensures ChildrenText(true, cb, ts, id, parentId) != "" && ChildrenText(true, cb, ts, id, parentId)[0] == '{'
  {
    NodeStart(cb, ts[0], id, parentId);
  }

  lemma {:induction false} ReadNode(cb: Callback, t: Node, id: nat, parentId: nat, rest: string)
    requires PrintsHeads(cb)
    ensures ParseValue(VisitText(true, cb, t, id, parentId) + rest)
      == if Clean(t) then Done(ToJson(t, id), rest) else Fail
    decreases t, 1
  {
    var kids := ChildrenText(true, cb, t.children, id + 1, id);
    var elements := if CleanAll(t.children) then Done(ToJsons(t.children, id + 1), "}" + rest) else Fail;
    if t.children != [] {
      ReadNodes(cb, t.children, id + 1, id, "}" + rest);
      KidsStart(cb, t.children, id + 1, id);
    }
    HeadOf(cb, t, id, parentId);
    ReadNodeAround(t, id, kids, elements, rest);
  }

  lemma {:induction false} LastElement(first: string, tail: string)
    requires ParseValue(first + ("]" + tail)).Done? ==> ParseValue(first + ("]" + tail)).rest == "]" + tail
    ensures ParseElements(first + ("]" + tail))
      == var r := ParseValue(first + ("]" + tail));
         if r.Fail? then Fail else Done([r.value], tail)
  {
    assert ("]" + tail)[1..] == tail;
  }

  lemma {:induction false} NextElement(first: string, others: string)
    requires Solid(others)
    requires ParseValue(first + ("," + others)).Done? ==> ParseValue(first + ("," + others)).rest == "," + others
    ensures ParseElements(first + ("," + others))
      == var r := ParseValue(first + ("," + others));
         var q := ParseElements(others);
         if r.Fail? || q.Fail? then Fail else Done([r.value] + q.value, q.rest)
  {
    assert ("," + others)[1..] == others;
  }

  lemma {:induction false} KidsOne(cb: Callback, ts: seq<Node>, id: nat, parentId: nat)
    requires |ts| == 1
    ensures ChildrenText(true, cb, ts, id, parentId) == VisitText(true, cb, ts[0], id, parentId)
  {
    var first := VisitText(true, cb, ts[0], id, parentId);
    assert first + "" + "" == first;
  }

  lemma {:induction false} KidsMore(cb: Callback, ts: seq<Node>, id: nat, parentId: nat, close: string)
    requires |ts| > 1
    ensures ChildrenText(true, cb, ts, id, parentId) + close
      == VisitText(true, cb, ts[0], id, parentId)
         + ("," + (ChildrenText(true, cb, ts[1..], id + Size(ts[0]), parentId) + close))
  {
    Regroup(VisitText(true, cb, ts[0], id, parentId), ",",
            ChildrenText(true, cb, ts[1..], id + Size(ts[0]), parentId), close);
  }

  lemma {:induction false} OneNode(ts: seq<Node>, id: nat)
    requires |ts| == 1
    ensures ToJsons(ts, id) == [ToJson(ts[0], id)] && CleanAll(ts) == Clean(ts[0])
  {
    assert ts[1..] == [];
  }

  lemma {:induction false} LastNode(ts: seq<Node>, id: nat, first: string, tail: string)
    requires |ts| == 1
    requires ParseValue(first + ("]" + tail)) == if Clean(ts[0]) then Done(ToJson(ts[0], id), "]" + tail) else Fail
    ensures ParseElements(first + ("]" + tail)) == if CleanAll(ts) then Done(ToJsons(ts, id), tail) else Fail
  {
    LastElement(first, tail);
    OneNode(ts, id);
  }

  lemma {:induction false} NextNode(ts: seq<Node>, id: nat, first: string, others: string, tail: string)
    requires |ts| > 1 && Solid(others)
    requires ParseValue(first + ("," + others)) == if Clean(ts[0]) then Done(ToJson(ts[0], id), "," + others) else Fail
    requires ParseElements(others)
      == if CleanAll(ts[1..]) then Done(ToJsons(ts[1..], id + Size(ts[0])), tail) else Fail
    ensures ParseElements(first + ("," + others)) == if CleanAll(ts) then Done(ToJsons(ts, id), tail) else Fail
  {
    NextElement(first, others);
    MoreNodes(ts, id);
  }

  lemma {:induction false} MoreNodes(ts: seq<Node>, id: nat)
    requires ts != []
    ensures ToJsons(ts, id) == [ToJson(ts[0], id)] + ToJsons(ts[1..], id + Size(ts[0]))
    ensures CleanAll(ts) <==> Clean(ts[0]) && CleanAll(ts[1..])
  {
  }

  lemma {:induction false} ReadNodes(cb: Callback, ts: seq<Node>, id: nat, parentId: nat, tail: string)
    requires PrintsHeads(cb) && ts != []
    ensures ParseElements(ChildrenText(true, cb, ts, id, parentId) + ("]" + tail))
      == if CleanAll(ts) then Done(ToJsons(ts, id), tail) else Fail
    decreases ts, 0
  {
    if |ts| == 1 {
      ReadNode(cb, ts[0], id, parentId, "]" + tail);
      KidsOne(cb, ts, id, parentId);
      LastNode(ts, id, VisitText(true, cb, ts[0], id, parentId), tail);
    } else {
      var next := id + Size(ts[0]);
      var others := ChildrenText(true, cb, ts[1..], next, parentId) + ("]" + tail);
      ReadNode(cb, ts[0], id, parentId, "," + others);
      ReadNodes(cb, ts[1..], next, parentId, tail);
      ReadMoreNodes(cb, ts, id, parentId, others, tail);
    }
  }

  lemma {:induction false} ReadMoreNodes(cb: Callback, ts: seq<Node>, id: nat, parentId: nat, others: string,
      tail: string)
    requires PrintsHeads(cb) && |ts| > 1
    requires others == ChildrenText(true, cb, ts[1..], id + Size(ts[0]), parentId) + ("]" + tail)
    requires ParseValue(VisitText(true, cb, ts[0], id, parentId) + ("," + others))
      == if Clean(ts[0]) then Done(ToJson(ts[0], id), "," + others) else Fail
    requires ParseElements(others)
      == if CleanAll(ts[1..]) then Done(ToJsons(ts[1..], id + Size(ts[0])), tail) else Fail
    ensures ParseElements(ChildrenText(true, cb, ts, id, parentId) + ("]" + tail))
      == if CleanAll(ts) then Done(ToJsons(ts, id), tail) else Fail
  {
    KidsStart(cb, ts[1..], id + Size(ts[0]), parentId);
    KidsMore(cb, ts, id, parentId, "]" + tail);
    NextNode(ts, id, VisitText(true, cb, ts[0], id, parentId), others, tail);
  }

  /** The text of a whole profile: `date`, then the tree under `head`. */
  function ProfileToJson(root: Node, id: nat, time: nat): (json: Json) {
    Object([("date", Number(time as real)), ("head", ToJson(root, id))])
  }

  /** The JSON mode's text parses if and only if no function name or script path holds a control
      character, and then it denotes the tree itself: same shape and child order, same names, lines
      and ids, paths with slashes for backslashes, and hit counts to six significant digits. */
  lemma {:induction false} JsonRoundTrip(root: Node, id: nat, time: nat)
    ensures Parse(DataText(true, root, id, time))
      == if Clean(root) then Done(ProfileToJson(root, id, time), "") else Fail
  {
    var cb := NodeData(true);
    ReadNode(cb, root, id, 0, "}");
    NodeStart(cb, root, id, 0);
    ReadData(time, VisitText(true, cb, root, id, 0));
    DataLayout(time, VisitText(true, cb, root, id, 0));
  }

  lemma {:induction false} ReadData(time: nat, node: string)
    requires Solid(node) && (ParseValue(node + "}").Done? ==> ParseValue(node + "}").rest == "}")
    ensures Parse("{" + (NumberMember("date", Decimal(time)) + (KeyText("head") + (node + "}"))))
      == var r := ParseValue(node + "}");
         if r.Fail? then Fail else Done(Object([("date", Number(time as real)), ("head", r.value)]), "")
  {
    var tail := KeyText("head") + (node + "}");
    ReadLastMember("head", node);
    ReadDate(time, tail);
    TwoMembers(NumberMember("date", Decimal(time)), tail,
               ("date", Number(time as real)), ("head", ParseValue(node + "}")));
  }

  lemma {:induction false} TwoMembers(a: string, b: string, m: (string, Json), n: (string, Result<Json>))
    requires Reads(a, b, [m]) && (a + b)[0] == '"'
    requires ParseMembers(b) == if n.1.Fail? then Fail else Done([(n.0, n.1.value)], "")
    ensures Parse("{" + (a + b)) == if n.1.Fail? then Fail else Done(Object([m, (n.0, n.1.value)]), "")
  {
    ReadText(a + b);
    if n.1.Done? { assert [m] + [(n.0, n.1.value)] == [m, (n.0, n.1.value)]; }
  }

  lemma {:induction false} ReadText(members: string)
    requires Solid(members) && members[0] != '}'
    requires ParseMembers(members).Done? ==> ParseMembers(members).rest == ""
    ensures Parse("{" + members)
      == if ParseMembers(members).Fail? then Fail else Done(Object(ParseMembers(members).value), "")
  {
    ReadBraces(members);
    assert SkipSpace("{" + members) == "{" + members;
  }

  lemma {:induction false} ReadLastMember(key: string, node: string)
    requires Plain(key) && Solid(node) && (ParseValue(node + "}").Done? ==> ParseValue(node + "}").rest == "}")
    ensures Solid(KeyText(key) + (node + "}"))
    ensures ParseMembers(KeyText(key) + (node + "}"))
      == var r := ParseValue(node + "}");
         if r.Fail? then Fail else Done([(key, r.value)], "")
  {
    ReadMember(key, node + "}", "");
    assert "}" + "" == "}";
  }

  lemma {:induction false} ReadDate(time: nat, tail: string)
    requires Solid(tail)
    ensures Reads(NumberMember("date", Decimal(time)), tail, [("date", Number(time as real))])
    ensures (NumberMember("date", Decimal(time)) + tail)[0] == '"'
  {
    assert Plain("date");
    ReadDecimal(time, "," + tail);
    NumberReads("date", Decimal(time), Number(time as real), tail);
  }

  lemma {:induction false} DataLayout(time: nat, node: string)
    ensures DataHead(true, time) + node + "}"
      == "{" + (NumberMember("date", Decimal(time)) + (KeyText("head") + (node + "}")))
  {
    assert "{\"date\":" == "{" + KeyText("date") && "\"head\":" == KeyText("head");
    var d := Decimal(time);
    Associate("{", KeyText("date"), d);
    Associate("{", KeyText("date") + d, ",");
    Associate("{", NumberMember("date", d), KeyText("head"));
    Regroup("{", NumberMember("date", d) + KeyText("head"), node, "}");
    Associate(NumberMember("date", d), KeyText("head"), node + "}");
  }

  // ----- exactly when nothing is lost

  /** The tree with its true hit counts. */
  function ExactJson(t: Node, id: nat): (json: Json)
    decreases t
  {
    Object(HeadMembers(t, id)[3 := ("hitCount", Number(t.hits as real))]
      + [("children", Array(ExactJsons(t.children, id + 1)))])
  }

  function ExactJsons(ts: seq<Node>, id: nat): (items: seq<Json>)
    decreases ts
  {
    if ts == [] then [] else [ExactJson(ts[0], id)] + ExactJsons(ts[1..], id + Size(ts[0]))
  }

  predicate ExactHits(t: Node)
    decreases t
  {
    SixDigits(t.hits) && ExactHitsAll(t.children)
  }

  predicate ExactHitsAll(ts: seq<Node>)
    decreases ts
  {
    ts != [] ==> ExactHits(ts[0]) && ExactHitsAll(ts[1..])
  }

  lemma {:induction false} ToJsonExact(t: Node, id: nat)
    ensures ToJson(t, id) == ExactJson(t, id) <==> ExactHits(t)
    decreases t, 1
  {
    ToJsonsExact(t.children, id + 1);
    RoundedHitsExact(t.hits);
    var a, b := HeadMembers(t, id), HeadMembers(t, id)[3 := ("hitCount", Number(t.hits as real))];
    assert a[3] == b[3] <==> SixDigits(t.hits);
    assert a == b <==> a[3] == b[3];
    var x, y := [("children", Array(ToJsons(t.children, id + 1)))],
                [("children", Array(ExactJsons(t.children, id + 1)))];
    assert (a + x)[..5] == a && (b + y)[..5] == b && (a + x)[5] == x[0] && (b + y)[5] == y[0];
  }

  lemma {:induction false} ToJsonsExact(ts: seq<Node>, id: nat)
    ensures |ToJsons(ts, id)| == |ExactJsons(ts, id)|
    ensures ToJsons(ts, id) == ExactJsons(ts, id) <==> ExactHitsAll(ts)
    decreases ts, 0
  {
    if ts != [] {
      ToJsonExact(ts[0], id);
      ToJsonsExact(ts[1..], id + Size(ts[0]));
      var a, b := ToJsons(ts, id), ExactJsons(ts, id);
      assert a[0] == ToJson(ts[0], id) && b[0] == ExactJson(ts[0], id);
      assert a[1..] == ToJsons(ts[1..], id + Size(ts[0])) && b[1..] == ExactJsons(ts[1..], id + Size(ts[0]));
      assert a == [a[0]] + a[1..] && b == [b[0]] + b[1..];
    }
  }

  /** A reader gets every name, line, id and hit count of the tree exactly when no name holds a control
      character and no hit count has more than six significant digits. */
  lemma {:induction false} JsonRoundTripExact(root: Node, id: nat, time: nat)
    ensures Parse(DataText(true, root, id, time))
      == Done(Object([("date", Number(time as real)), ("head", ExactJson(root, id))]), "")
      <==> Clean(root) && ExactHits(root)
  {
    JsonRoundTrip(root, id, time);
    ToJsonExact(root, id);
    var date := ("date", Number(time as real));
    var a, b := [date, ("head", ToJson(root, id))], [date, ("head", ExactJson(root, id))];
    assert a[1] == b[1] <==> a == b;
  }

  // ----- two profiles that do not come back

  lemma {:induction false} ControlCharacterIsUnreadable()
    ensures Parse(DataText(true, Node("a\tb", "", 0, 0, []), 1, 0)) == Fail
  {
    var root := Node("a\tb", "", 0, 0, []);
    JsonRoundTrip(root, 1, 0);
    assert root.functionName[1] == '\t' && IsControl(root.functionName[1]);
  }

  /** 1234567 hits are printed as 1.23457e+06. */
  lemma {:induction false} SevenDigitsAreRounded()
    ensures Parse(DataText(true, Node("a", "", 0, 1234567, []), 1, 0))
      != Done(Object([("date", Number(0.0)), ("head", ExactJson(Node("a", "", 0, 1234567, []), 1))]), "")
  {
    var root := Node("a", "", 0, 1234567, []);
    JsonRoundTripExact(root, 1, 0);
    NotSixDigits();
    assert !ExactHits(root);
  }

  lemma {:induction false} NotSixDigits()
    ensures !SixDigits(1234567)
  {
    var n := |Decimal(1234567)|;
    MillionExceeds(1234567);
    DecimalLength(1234567);
    Pow10Values();
    assert Pow10(7) == 10 * Pow10(6) && Pow10(1) == 10;
    if n > 7 { Pow10Monotone(7, n - 1); }
  }
}
