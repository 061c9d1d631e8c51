/** `formatProfiling` in appmetrics-api.js, the reader of profile messages, with the string operations it uses. */
module FormatProfiling {
  import opened Options
  import opened Decimals
  import opened JsonReader

  // ----- trim, split, parseInt

  /** White space and line terminators, as `trim` removes them. */
  predicate IsJsSpace(c: char) {
    var n := c as int;
    9 <= n <= 13 || n == 32 || n == 0xA0 || n == 0x1680 || 0x2000 <= n <= 0x200A
    || n == 0x2028 || n == 0x2029 || n == 0x202F || n == 0x205F || n == 0x3000 || n == 0xFEFF
  }

  function TrimStart(s: string): (text: string) {
    if s != "" && IsJsSpace(s[0]) then TrimStart(s[1..]) else s
  }

  function TrimEnd(s: string): (text: string) {
    if s != "" && IsJsSpace(s[|s| - 1]) then TrimEnd(s[..|s| - 1]) else s
  }

  function Trim(s: string): (text: string) {
    TrimEnd(TrimStart(s))
  }

  /** `s.split(sep)` for a one-character separator. */
  function Split(s: string, sep: char): (parts: seq<string>)
    ensures |parts| > 0
  {
    if s == "" then [""]
    else
      var rest := Split(s[1..], sep);
      if s[0] == sep then [""] + rest else [[s[0]] + rest[0]] + rest[1..]
  }

  datatype JsNumber = NaN | Num(n: int)

  /** The number of the leading digits in base 16; `n` is what has been read so far. */
  function HexPrefix(s: string, n: nat): (res: nat) {
    if s != "" && HexValue(s[0]) >= 0 then HexPrefix(s[1..], 16 * n + HexValue(s[0])) else n
  }

  function Unsigned(s: string): (res: JsNumber) {
    if |s| >= 2 && s[0] == '0' && (s[1] == 'x' || s[1] == 'X') then
      if |s| > 2 && HexValue(s[2]) >= 0 then Num(HexPrefix(s[2..], 0)) else NaN
    else
      var (d, _) := TakeDigits(s);
      if d == "" then NaN else Num(NatOf(d))
  }

  /** `parseInt(s)`: white space, a sign, then as many digits as there are; `parseInt(undefined)` is NaN. */
  function ParseInt(arg: Option<string>): (res: JsNumber) {
    match arg
    case None => NaN
    case Some(s) =>
      var t := TrimStart(s);
      if t != "" && t[0] == '-' then
        match Unsigned(t[1..])
        case Num(n) => Num(-n)
        case NaN => NaN
      else if t != "" && t[0] == '+' then Unsigned(t[1..])
      else Unsigned(t)
  }

  /** `values[i]`, which is undefined beyond the end. */
  function At(values: seq<string>, i: nat): (o: Option<string>) {
    if i < |values| then Some(values[i]) else None
  }

  // ----- the message

  datatype Entry = Entry(self: JsNumber, parent: JsNumber, file: Option<string>, name: Option<string>,
                         line: JsNumber, count: JsNumber)

  /** `time` stays undefined until a Start line sets it. */
  datatype Prof = Prof(date: int, functions: seq<Entry>, time: Option<JsNumber>)

  function ReadLine(prof: Prof, line: string): (res: Prof) {
    var values := Split(line, ',');
    if At(values, 1) == Some("Node") then
      prof.(functions := prof.functions + [Entry(ParseInt(At(values, 2)), ParseInt(At(values, 3)),
        At(values, 4), At(values, 5), ParseInt(At(values, 6)), ParseInt(At(values, 7)))])
    else if At(values, 1) == Some("Start") then prof.(time := Some(ParseInt(At(values, 2))))
    else prof
  }

  function ReadLines(prof: Prof, lines: seq<string>): (res: Prof)
    decreases lines
  {
    if lines == [] then prof else ReadLines(ReadLine(prof, lines[0]), lines[1..])
  }

  const EMPTY := Prof(0, [], None)

  function FormatCsv(message: string): (res: Prof) {
    ReadLines(EMPTY, Split(Trim(message), '\n'))
  }

  /** What is raised as the `profiling` event, or the exception `JSON.parse` throws. */
  datatype Event = JsonEvent(data: Json) | CsvEvent(prof: Prof) | Threw

  method FormatProfiling(jsonMode: bool, message: string) returns (event: Event)
    ensures event == if jsonMode then
        match Parse(message)
        case Done(v, _) => JsonEvent(v)
        case Fail => Threw
      else CsvEvent(FormatCsv(message))
  {
    if jsonMode {
      match Parse(message) {
        case Done(v, _) => event := JsonEvent(v);
        case Fail => event := Threw;
      }
    } else {
      var lines := Split(Trim(message), '\n');
      var prof := Prof(0, [], None);
      var i := 0;
      assert lines[0..] == lines;
      while i < |lines|
        invariant 0 <= i <= |lines|
        invariant ReadLines(prof, lines[i..]) == FormatCsv(message)
      {
        assert lines[i..][0] == lines[i] && lines[i..][1..] == lines[i + 1..];
        var values := Split(lines[i], ',');
        if At(values, 1) == Some("Node") {
          var entry := Entry(ParseInt(At(values, 2)), ParseInt(At(values, 3)), At(values, 4), At(values, 5),
                             ParseInt(At(values, 6)), ParseInt(At(values, 7)));
          prof := prof.(functions := prof.functions + [entry]);
        } else if At(values, 1) == Some("Start") {
          prof := prof.(time := Some(ParseInt(At(values, 2))));
        }
        i := i + 1;
      }
      event := CsvEvent(prof);
    }
  }

  // ----- any message, line by line

  /** The lines about a node, as their fields. */
  function NodeLines(lines: seq<string>): (rows: seq<seq<string>>) {
    if lines == [] then []
    else
      var values := Split(lines[0], ',');
      (if |values| > 1 && values[1] == "Node" then [values] else []) + NodeLines(lines[1..])
  }

  /** The entry made of one, with what is missing left undefined. */
  function EntryOf(v: seq<string>): (e: Entry) {
    Entry(ParseInt(At(v, 2)), ParseInt(At(v, 3)), if |v| > 4 then Some(v[4]) else None,
          if |v| > 5 then Some(v[5]) else None, ParseInt(At(v, 6)), ParseInt(At(v, 7)))
  }

  function Mapped<A, B>(f: A -> B, xs: seq<A>): (ys: seq<B>) {
    if xs == [] then [] else [f(xs[0])] + Mapped(f, xs[1..])
  }

  lemma {:induction false} MappedAppend<A, B>(f: A -> B, a: seq<A>, b: seq<A>)
    ensures Mapped(f, a + b) == Mapped(f, a) + Mapped(f, b)
  {
    if a == [] {
      assert a + b == b;
    } else {
      MappedAppend(f, a[1..], b);
      assert (a + b)[0] == a[0] && (a + b)[1..] == a[1..] + b;
    }
  }

  lemma {:induction false} ReadLineExact(prof: Prof, line: string)
    ensures ReadLine(prof, line).date == prof.date
    ensures ReadLine(prof, line).functions == prof.functions + Mapped(EntryOf, NodeLines([line]))
  {
    var v := Split(line, ',');
    var lines := [line];
    assert lines[1..] == [];
    if |v| > 1 && v[1] == "Node" {
      var rows := [v];
      assert NodeLines([line]) == rows && rows[1..] == [];
    } else {
      assert prof.functions + [] == prof.functions;
    }
  }

  lemma {:induction false} NodeLinesFirst(lines: seq<string>)
    requires lines != []
    ensures NodeLines(lines) == NodeLines([lines[0]]) + NodeLines(lines[1..])
  {
    var first := [lines[0]];
    assert first[1..] == [];
  }

  lemma {:induction false} ReadLinesExact(prof: Prof, lines: seq<string>)
    ensures ReadLines(prof, lines).date == prof.date
    ensures ReadLines(prof, lines).functions == prof.functions + Mapped(EntryOf, NodeLines(lines))
    decreases lines
  {
    if lines != [] {
      ReadLineExact(prof, lines[0]);
      ReadLinesExact(ReadLine(prof, lines[0]), lines[1..]);
      NodeLinesFirst(lines);
      MappedAppend(EntryOf, NodeLines([lines[0]]), NodeLines(lines[1..]));
    }
  }

  /** Of any message, each line whose second field is `Node` makes one entry, in the order of the lines, and no other
      line does. */
  lemma {:induction false} FormatCsvExact(message: string)
    ensures FormatCsv(message).date == 0
    ensures FormatCsv(message).functions == Mapped(EntryOf, NodeLines(Split(Trim(message), '\n')))
  {
    ReadLinesExact(EMPTY, Split(Trim(message), '\n'));
    var es := Mapped(EntryOf, NodeLines(Split(Trim(message), '\n')));
    assert [] + es == es;
  }

  // ----- what a line can never deliver

  /** Free of the characters that separate fields and lines. */
  predicate NoSeparators(s: string) {
    ',' !in s && '\n' !in s
  }

  lemma {:induction false} SplitParts(s: string, sep: char, k: nat)
    requires k < |Split(s, sep)|
    ensures sep !in Split(s, sep)[k] && forall c :: c in Split(s, sep)[k] ==> c in s
  {
    if s != "" {
      var rest := Split(s[1..], sep);
      if s[0] == sep {
        if k > 0 { SplitParts(s[1..], sep, k - 1); }
      } else {
        SplitParts(s[1..], sep, k);
      }
    }
  }

  predicate PureEntry(e: Entry) {
    && (e.file.Some? ==> NoSeparators(e.file.value))
    && (e.name.Some? ==> NoSeparators(e.name.value))
  }

  predicate PureEntries(es: seq<Entry>) {
    forall i :: 0 <= i < |es| ==> PureEntry(es[i])
  }

  lemma {:induction false} ReadLinePure(prof: Prof, line: string)
    requires PureEntries(prof.functions) && '\n' !in line
    ensures PureEntries(ReadLine(prof, line).functions)
  {
    var values := Split(line, ',');
    forall k: nat | k < |values|
      ensures NoSeparators(values[k])
    {
      SplitParts(line, ',', k);
    }
  }

  lemma {:induction false} ReadLinesPure(prof: Prof, lines: seq<string>)
    requires PureEntries(prof.functions) && forall i :: 0 <= i < |lines| ==> '\n' !in lines[i]
    ensures PureEntries(ReadLines(prof, lines).functions)
    decreases lines
  {
    if lines != [] {
      ReadLinePure(prof, lines[0]);
      ReadLinesPure(ReadLine(prof, lines[0]), lines[1..]);
    }
  }

  /** Whatever the message, no file or function name with a comma or a newline ever comes out of it. */
  lemma {:induction false} FormatCsvPure(message: string)
    ensures PureEntries(FormatCsv(message).functions)
  {
    var text := Trim(message);
    var lines := Split(text, '\n');
    forall i | 0 <= i < |lines|
      ensures '\n' !in lines[i]
    {
      SplitParts(text, '\n', i);
    }
    ReadLinesPure(EMPTY, lines);
  }
}
