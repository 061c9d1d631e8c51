/** A reader for JSON texts: values, strings and numbers as in sections 2 to 7 of RFC 8259. */
module JsonReader {
  import opened Decimals

  datatype Json =
    | Null
    | Bool(b: bool)
    | Number(n: real)
    | String(s: string)
    | Array(elems: seq<Json>)
    | Object(members: seq<(string, Json)>)

  datatype Result<+T> = Fail | Done(value: T, rest: string) {
    predicate IsFailure() { Fail? }
    function PropagateFailure<U>(): (res: Result<U>)
      requires Fail?
    {
      Fail
    }
    function Extract(): (res: (T, string))
      requires Done?
    {
      (value, rest)
    }
  }

  // ----- section 2: insignificant whitespace

  predicate IsSpace(c: char) {
    c == ' ' || c == '\t' || c == '\n' || c == '\r'
  }

  function SkipSpace(s: string): (r: string)
    ensures |r| <= |s|
  {
    if s != "" && IsSpace(s[0]) then SkipSpace(s[1..]) else s
  }

  // ----- section 7: strings

  predicate IsControl(c: char) {
    c < ' '
  }

  /** The character a two-character escape stands for. */
  function Unescape(c: char): (r: string)
    ensures |r| <= 1
  {
    if c == '"' || c == '\\' || c == '/' then [c]
    else if c == 'b' then [8 as char]
    else if c == 'f' then [12 as char]
    else if c == 'n' then "\n"
    else if c == 'r' then "\r"
    else if c == 't' then "\t"
    else ""
  }

  function HexValue(c: char): (n: int) {
    if IsDigit(c) then c as int - '0' as int
    else if 'a' <= c <= 'f' then c as int - 'a' as int + 10
    else if 'A' <= c <= 'F' then c as int - 'A' as int + 10
    else -1
  }

  /** The code point of four hexadecimal digits, or -1; code points of surrogates are not accepted. */
  function CodePoint(s: string): (n: int)
    ensures n == -1 || 0 <= n < 0xD800 || 0xE000 <= n < 0x10000
  {
    if |s| < 4 then -1
    else
      var a, b, c, d := HexValue(s[0]), HexValue(s[1]), HexValue(s[2]), HexValue(s[3]);
      if a < 0 || b < 0 || c < 0 || d < 0 then -1
      else
        var n := ((a * 16 + b) * 16 + c) * 16 + d;
        if 0 <= n < 0xD800 || 0xE000 <= n < 0x10000 then n else -1
  }

  /** The characters up to the closing quote; `s` starts after the opening one. */
  function ParseChars(s: string): (r: Result<string>)
    ensures r.Done? ==> |r.rest| < |s|
    decreases |s|
  {
    if s == "" || IsControl(s[0]) then Fail
    else if s[0] == '"' then Done("", s[1..])
    else if s[0] == '\\' then
      if |s| == 1 then Fail
      else if s[1] == 'u' then
        var n := CodePoint(s[2..]);
        if n == -1 then Fail
        else
          var (t, rest) :- ParseChars(s[6..]);
          Done([n as char] + t, rest)
      else if Unescape(s[1]) == "" then Fail
      else
        var (t, rest) :- ParseChars(s[2..]);
        Done(Unescape(s[1]) + t, rest)
    else
      var (t, rest) :- ParseChars(s[1..]);
      Done([s[0]] + t, rest)
  }

  // ----- section 6: numbers

  /** The longest run of digits at the front. */
  function TakeDigits(s: string): (r: (string, string))
    ensures AllDigits(r.0) && |r.0| + |r.1| == |s|
  {
    if s != "" && IsDigit(s[0]) then
      var (d, rest) := TakeDigits(s[1..]);
      ([s[0]] + d, rest)
    else ("", s)
  }

  lemma {:induction false} TakeAll(d: string, tail: string)
    requires AllDigits(d) && (tail == "" || !IsDigit(tail[0]))
    ensures TakeDigits(d + tail) == (d, tail)
  {
    if d == "" {
      assert d + tail == tail;
    } else {
      assert (d + tail)[1..] == d[1..] + tail;
      TakeAll(d[1..], tail);
      assert [d[0]] + d[1..] == d;
    }
  }

  function Pow10(k: nat): (p: nat)
    ensures p > 0
  {
    if k == 0 then 1 else 10 * Pow10(k - 1)
  }

  /** `m` times ten to the `e`. */
  function Scaled(m: int, e: int): (x: real) {
    if e >= 0 then (m * Pow10(e)) as real else m as real / Pow10(-e) as real
  }

  /** The fraction part: its digits, which are "" when there is none. */
  function ParseFraction(s: string): (r: Result<string>)
    ensures r.Done? ==> |r.rest| <= |s| && AllDigits(r.value)
  {
    if s == "" || s[0] != '.' then Done("", s)
    else
      var (f, rest) := TakeDigits(s[1..]);
      if f == "" then Fail else Done(f, rest)
  }

  function ParseExponent(s: string): (r: Result<int>)
    ensures r.Done? ==> |r.rest| <= |s|
  {
    if s == "" || (s[0] != 'e' && s[0] != 'E') then Done(0, s)
    else
      var signed := |s| > 1 && (s[1] == '+' || s[1] == '-');
      var (d, rest) := TakeDigits(if signed then s[2..] else s[1..]);
      if d == "" then Fail
      else
        var n: int := NatOf(d);
        Done(if signed && s[1] == '-' then -n else n, rest)
  }

  lemma {:induction false} DigitsJoin(a: string, b: string)
    requires AllDigits(a) && AllDigits(b)
    ensures AllDigits(a + b)
  {
  }

  function ParseNumber(s: string): (r: Result<Json>)
    ensures r.Done? ==> |r.rest| < |s|
  {
    var negative := s != "" && s[0] == '-';
    var (i, s1) := TakeDigits(if negative then s[1..] else s);
    if i == "" || (i[0] == '0' && |i| > 1) then Fail
    else
      var (f, s2) :- ParseFraction(s1);
      var (e, s3) :- ParseExponent(s2);
      DigitsJoin(i, f);
      var m: int := NatOf(i + f);
      Done(Number(Scaled(if negative then -m else m, e - |f|)), s3)
  }

  // ----- sections 3 to 5: values, objects, arrays

  function ParseLiteral(s: string, word: string, v: Json): (r: Result<Json>)
    requires word != ""
    ensures r.Done? ==> |r.rest| < |s|
  {
    if word <= s then Done(v, s[|word|..]) else Fail
  }

  function ParseValue(s: string): (r: Result<Json>)
    ensures r.Done? ==> |r.rest| < |s|
    decreases |s|, 0
  {
    if s == "" then Fail
    else if s[0] == '{' then
      var t := SkipSpace(s[1..]);
      if t != "" && t[0] == '}' then Done(Object([]), t[1..])
      else
        var (ms, rest) :- ParseMembers(t);
        Done(Object(ms), rest)
    else if s[0] == '[' then
      var t := SkipSpace(s[1..]);
      if t != "" && t[0] == ']' then Done(Array([]), t[1..])
      else
        var (vs, rest) :- ParseElements(t);
        Done(Array(vs), rest)
    else if s[0] == '"' then
      var (t, rest) :- ParseChars(s[1..]);
      Done(String(t), rest)
    else if s[0] == 't' then ParseLiteral(s, "true", Bool(true))
    else if s[0] == 'f' then ParseLiteral(s, "false", Bool(false))
    else if s[0] == 'n' then ParseLiteral(s, "null", Null)
    else ParseNumber(s)
  }

  /** A member name and its colon. */
  function ParseKey(s: string): (r: Result<string>)
    ensures r.Done? ==> |r.rest| < |s|
  {
    if s == "" || s[0] != '"' then Fail
    else
      var (key, s1) :- ParseChars(s[1..]);
      var s2 := SkipSpace(s1);
      if s2 == "" || s2[0] != ':' then Fail else Done(key, SkipSpace(s2[1..]))
  }

  /** Members up to and including the closing brace. */
  function ParseMembers(s: string): (r: Result<seq<(string, Json)>>)
    ensures r.Done? ==> |r.rest| < |s|
    decreases |s|, 1
  {
    var (key, s1) :- ParseKey(s);
    var (v, s2) :- ParseValue(s1);
    var s3 := SkipSpace(s2);
    if s3 == "" then Fail
    else if s3[0] == '}' then Done([(key, v)], s3[1..])
    else if s3[0] == ',' then
      var (ms, rest) :- ParseMembers(SkipSpace(s3[1..]));
      Done([(key, v)] + ms, rest)
    else Fail
  }

  /** Elements up to and including the closing bracket. */
  function ParseElements(s: string): (r: Result<seq<Json>>)
    ensures r.Done? ==> |r.rest| < |s|
    decreases |s|, 1
  {
    var (v, s1) :- ParseValue(s);
    var s2 := SkipSpace(s1);
    if s2 == "" then Fail
    else if s2[0] == ']' then Done([v], s2[1..])
    else if s2[0] == ',' then
      var (vs, rest) :- ParseElements(SkipSpace(s2[1..]));
      Done([v] + vs, rest)
    else Fail
  }

  /** `JSON.parse`: one value, with nothing but whitespace around it. */
  function Parse(s: string): (r: Result<Json>) {
    var (v, rest) :- ParseValue(SkipSpace(s));
    if SkipSpace(rest) == "" then Done(v, "") else Fail
  }
}
