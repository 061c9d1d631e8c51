/** The CSV text of a profile, read back by `formatProfiling`, and the tree rebuilt from parent ids. */
module ProfileCsv {
  import opened Options
  import opened Decimals
  import opened JsonReader
  import opened StringReplace
  import opened ProfileText
  import opened FormatProfiling

  // ----- splitting at the first separator

  lemma {:induction false} SplitWhole(a: string, sep: char)
    requires sep !in a
    ensures Split(a, sep) == [a]
  {
    if a != "" {
      SplitWhole(a[1..], sep);
      assert [a[0]] + a[1..] == a;
    }
  }

  lemma {:induction false} SplitFirst(a: string, sep: char, rest: string)
    requires sep !in a
    ensures Split(a + ([sep] + rest), sep) == [a] + Split(rest, sep)
  {
    var s := a + ([sep] + rest);
    if a == "" {
      assert s[1..] == rest;
    } else {
      assert s[1..] == a[1..] + ([sep] + rest);
      SplitFirst(a[1..], sep, rest);
      assert [a[0]] + a[1..] == a;
      assert Split(s[1..], sep)[1..] == Split(rest, sep);
    }
  }

  lemma {:induction false} DigitsArePure(s: string)
    requires AllDigits(s)
    ensures NoSeparators(s)
  {
  }

  // ----- numbers through parseInt

  lemma {:induction false} ParseIntDecimal(n: nat)
    ensures ParseInt(Some(Decimal(n))) == Num(n) && NoSeparators(Decimal(n))
  {
    var d := Decimal(n);
    assert d + "" == d;
    TakeAll(d, "");
    NatOfDecimal(n);
    DigitsArePure(d);
    assert |d| >= 2 ==> d[0] != '0';
  }

  lemma {:induction false} ParseIntText(i: int)
    ensures ParseInt(Some(IntText(i))) == Num(i) && NoSeparators(IntText(i))
  {
    if i < 0 {
      var n: nat := -i;
      ParseIntDecimal(n);
      assert IntText(i)[1..] == Decimal(n);
    } else {
      ParseIntDecimal(i);
    }
  }

  /** What `parseInt` makes of a printed hit count. */
  function CountRead(n: nat): (res: JsNumber) {
    ParseInt(Some(HitText(n)))
  }

  lemma {:induction false} FirstDigitOnly(d: string, rest: string)
    requires |d| == 1 && AllDigits(d) && rest != "" && (rest[0] == '.' || rest[0] == 'e')
    ensures ParseInt(Some(d + rest)) == Num(NatOf(d)) && NatOf(d) < 10
  {
    TakeAll(d, rest);
    assert (d + rest)[0] == d[0] && (d + rest)[1] == rest[0];
    assert d[..0] == "";
  }

  lemma {:induction false} PrefixDigits(s: string, t: string)
    requires AllDigits(s) && t <= s
    ensures AllDigits(t)
  {
  }

  lemma {:induction false} Pure(a: string, b: string)
    requires NoSeparators(a) && NoSeparators(b)
    ensures NoSeparators(a + b)
  {
  }

  /** One digit, then a point or an exponent. */
  lemma {:induction false} Scientific(shown: string, e: string) returns (rest: string)
    requires AllDigits(shown) && shown != "" && AllDigits(e)
    ensures shown[..1] + (if |shown| > 1 then "." + shown[1..] else "") + "e+" + e == shown[..1] + rest
    ensures rest != "" && (rest[0] == '.' || rest[0] == 'e')
    ensures NoSeparators(shown[..1]) && NoSeparators(rest)
  {
    var f := if |shown| > 1 then "." + shown[1..] else "";
    rest := f + ("e+" + e);
    Associate(shown[..1], f, "e+");
    Associate(shown[..1], f + "e+", e);
    Associate(f, "e+", e);
    DigitsArePure(shown);
    DigitsArePure(e);
    Pure("e+", e);
    Pure(f, "e+" + e);
  }

  /** `parseInt` stops at the point or the exponent, so a count of a million or more comes back as one digit. */
  lemma {:induction false} CountReadExact(n: nat)
    ensures NoSeparators(HitText(n))
    ensures CountRead(n) == Num(n) <==> n < MILLION
  {
    if n < MILLION {
      ParseIntDecimal(n);
    } else {
      var ds := Decimal(RoundHalfEven(n, Pow10(Excess(n))));
      var shown := StripZeros(ds);
      PrefixDigits(ds, shown);
      var rest := Scientific(shown, ExponentText(Excess(n) + |ds| - 1));
      FirstDigitOnly(shown[..1], rest);
      Pure(shown[..1], rest);
      assert HitText(n) == shown[..1] + rest;
    }
  }

  // ----- one line

  predicate CleanNames(t: Node) {
    NoSeparators(t.script) && NoSeparators(t.functionName)
  }

  /** The record a clean line delivers. */
  function RowEntry(t: Node, id: nat, parentId: nat): (res: Entry) {
    Entry(Num(id), Num(parentId), Some(t.script), Some(t.functionName), Num(t.line), CountRead(t.hits))
  }

  lemma {:induction false} SplitField(a: string, rest: string)
    requires ',' !in a
    ensures Split(Field(a, rest), ',') == [a] + Split(rest, ',')
  {
    SplitFirst(a, ',', rest);
    assert [','] == ",";
  }

  lemma {:induction false} SplitRow(a: string, b: string, c: string, d: string, e: string, f: string, g: string,
      h: string)
    requires ',' !in a && ',' !in b && ',' !in c && ',' !in d && ',' !in e && ',' !in f && ',' !in g && ',' !in h
    ensures Split(Field(a, Field(b, Field(c, Field(d, Field(e, Field(f, Field(g, h))))))), ',')
      == [a, b, c, d, e, f, g, h]
  {
    SplitWhole(h, ',');
    SplitField(g, h);
    SplitField(f, Field(g, h));
    SplitField(e, Field(f, Field(g, h)));
    SplitField(d, Field(e, Field(f, Field(g, h))));
    SplitField(c, Field(d, Field(e, Field(f, Field(g, h)))));
    SplitField(b, Field(c, Field(d, Field(e, Field(f, Field(g, h))))));
    SplitField(a, Field(b, Field(c, Field(d, Field(e, Field(f, Field(g, h)))))));
  }

  lemma {:induction false} ReadNodeLine(prof: Prof, line: string, a: string, c: string, d: string, e: string,
      f: string, g: string, h: string)
    requires Split(line, ',') == [a, "Node", c, d, e, f, g, h]
    ensures ReadLine(prof, line) == prof.(functions := prof.functions
      + [Entry(ParseInt(Some(c)), ParseInt(Some(d)), Some(e), Some(f), ParseInt(Some(g)), ParseInt(Some(h)))])
  {
  }

  lemma {:induction false} ReadRow(prof: Prof, t: Node, id: nat, parentId: nat)
    requires CleanNames(t)
    ensures ReadLine(prof, RowLine(t, id, parentId)) == prof.(functions := prof.functions + [RowEntry(t, id, parentId)])
  {
    var c, d, g, h := Decimal(id), Decimal(parentId), IntText(t.line), HitText(t.hits);
    ParseIntDecimal(id);
    ParseIntDecimal(parentId);
    ParseIntText(t.line);
    CountReadExact(t.hits);
    SplitRow("NodeProfData", "Node", c, d, t.script, t.functionName, g, h);
    ReadNodeLine(prof, RowLine(t, id, parentId), "NodeProfData", c, d, t.script, t.functionName, g, h);
  }

  lemma {:induction false} RowHasNoNewline(t: Node, id: nat, parentId: nat)
    requires CleanNames(t)
    ensures '\n' !in RowLine(t, id, parentId)
  {
    ParseIntDecimal(id);
    ParseIntDecimal(parentId);
    ParseIntText(t.line);
    CountReadExact(t.hits);
    NewlineFree(Decimal(id), Field(Decimal(parentId),
      Field(t.script, Field(t.functionName, Field(IntText(t.line), HitText(t.hits))))));
  }

  lemma {:induction false} NewlineFree(a: string, rest: string)
    ensures '\n' in Field(a, rest) ==> '\n' in a || '\n' in rest
  {
  }

  // ----- the whole tree

  /** What a line is read as; `RowEntry`, kept apart so that trees can be treated without looking into lines. */
  type Reader = (Node, nat, nat) -> Entry

  ghost predicate ReadsRows(row: Reader) {
    forall t, id, parentId {:trigger RowEntry(t, id, parentId)} :: row(t, id, parentId) == RowEntry(t, id, parentId)
  }

  function Entries(row: Reader, t: Node, id: nat, parentId: nat): (items: seq<Entry>)
    decreases t
  {
    [row(t, id, parentId)] + EntriesAll(row, t.children, id + 1, id)
  }

  function EntriesAll(row: Reader, ts: seq<Node>, id: nat, parentId: nat): (items: seq<Entry>)
    decreases ts
  {
    if ts == [] then [] else Entries(row, ts[0], id, parentId) + EntriesAll(row, ts[1..], id + Size(ts[0]), parentId)
  }

  predicate CleanTree(t: Node)
    decreases t
  {
    CleanNames(t) && CleanForest(t.children)
  }

  predicate CleanForest(ts: seq<Node>)
    decreases ts
  {
    ts != [] ==> CleanTree(ts[0]) && CleanForest(ts[1..])
  }

  /** `cb` prints the line of a node in CSV mode. */
  ghost predicate PrintsRows(cb: Callback) {
    forall t, id, p {:trigger HeadText(false, t, id, p)} :: cb(t, id, p) == HeadText(false, t, id, p)
  }

  /** What the reader makes of a text that starts inside the message, given what it has collected. */
  function ReadText(prof: Prof, text: string): (res: Prof) {
    ReadLines(prof, Split(text, '\n'))
  }

  function Append(prof: Prof, es: seq<Entry>): (res: Prof) {
    prof.(functions := prof.functions + es)
  }

  lemma {:induction false} ReadFirstLine(prof: Prof, line: string, rest: string)
    requires '\n' !in line
    ensures ReadText(prof, line + ("\n" + rest)) == ReadText(ReadLine(prof, line), rest)
  {
    SplitFirst(line, '\n', rest);
    assert ['\n'] == "\n";
    var lines := Split(rest, '\n');
    assert ([line] + lines)[0] == line && ([line] + lines)[1..] == lines;
  }

  lemma {:induction false} AppendTwice(prof: Prof, a: seq<Entry>, b: seq<Entry>)
    ensures Append(Append(prof, a), b) == Append(prof, a + b)
  {
    assert prof.functions + a + b == prof.functions + (a + b);
  }

  /** Whatever has been collected and whatever follows, `text` delivers exactly `es`. */
  ghost predicate Delivers(text: string, es: seq<Entry>) {
    forall prof, rest :: ReadText(prof, text + rest) == ReadText(Append(prof, es), rest)
  }

  lemma {:induction false} DeliversNothing()
    ensures Delivers("", [])
  {
    forall prof: Prof, rest: string
      ensures ReadText(prof, "" + rest) == ReadText(Append(prof, []), rest)
    {
      assert "" + rest == rest && Append(prof, []) == prof;
    }
  }

  lemma {:induction false} DeliversBoth(a: string, b: string, es: seq<Entry>, fs: seq<Entry>)
    requires Delivers(a, es) && Delivers(b, fs)
    ensures Delivers(a + b, es + fs)
  {
    forall prof: Prof, rest: string
      ensures ReadText(prof, (a + b) + rest) == ReadText(Append(prof, es + fs), rest)
    {
      Associate(a, b, rest);
      assert ReadText(prof, a + (b + rest)) == ReadText(Append(prof, es), b + rest);
      AppendTwice(prof, es, fs);
    }
  }

  lemma {:induction false} DeliversRow(t: Node, id: nat, parentId: nat)
    requires CleanNames(t)
    ensures Delivers(Row(t, id, parentId), [RowEntry(t, id, parentId)])
  {
    var line := RowLine(t, id, parentId);
    RowHasNoNewline(t, id, parentId);
    forall prof: Prof, rest: string
      ensures ReadText(prof, Row(t, id, parentId) + rest) == ReadText(Append(prof, [RowEntry(t, id, parentId)]), rest)
    {
      ReadFirstLine(prof, line, rest);
      Associate(line, "\n", rest);
      ReadRow(prof, t, id, parentId);
    }
  }

  lemma {:induction false} DeliversTree(cb: Callback, row: Reader, t: Node, id: nat, parentId: nat)
    requires PrintsRows(cb) && ReadsRows(row) && CleanTree(t)
    ensures Delivers(VisitText(false, cb, t, id, parentId), Entries(row, t, id, parentId))
    decreases t, 1
  {
    var kids := ChildrenText(false, cb, t.children, id + 1, id);
    assert cb(t, id, parentId) == HeadText(false, t, id, parentId);
    DeliversRow(t, id, parentId);
    assert row(t, id, parentId) == RowEntry(t, id, parentId);
    DeliversForest(cb, row, t.children, id + 1, id);
    DeliversBoth(cb(t, id, parentId), kids, [row(t, id, parentId)], EntriesAll(row, t.children, id + 1, id));
    assert cb(t, id, parentId) + kids + "" == cb(t, id, parentId) + kids;
  }

  lemma {:induction false} DeliversForest(cb: Callback, row: Reader, ts: seq<Node>, id: nat, parentId: nat)
    requires PrintsRows(cb) && ReadsRows(row) && CleanForest(ts)
    ensures Delivers(ChildrenText(false, cb, ts, id, parentId), EntriesAll(row, ts, id, parentId))
    decreases ts, 0
  {
    if ts == [] {
      DeliversNothing();
    } else {
      var next := id + Size(ts[0]);
      DeliversTree(cb, row, ts[0], id, parentId);
      DeliversForest(cb, row, ts[1..], next, parentId);
      DeliversMore(cb, row, ts, id, parentId);
    }
  }

  lemma {:induction false} DeliversMore(cb: Callback, row: Reader, ts: seq<Node>, id: nat, parentId: nat)
    requires ts != [] && Delivers(VisitText(false, cb, ts[0], id, parentId), Entries(row, ts[0], id, parentId))
    requires var next := id + Size(ts[0]);
      Delivers(ChildrenText(false, cb, ts[1..], next, parentId), EntriesAll(row, ts[1..], next, parentId))
    ensures Delivers(ChildrenText(false, cb, ts, id, parentId), EntriesAll(row, ts, id, parentId))
  {
    var next := id + Size(ts[0]);
    DeliversBoth(VisitText(false, cb, ts[0], id, parentId), ChildrenText(false, cb, ts[1..], next, parentId),
                 Entries(row, ts[0], id, parentId), EntriesAll(row, ts[1..], next, parentId));
    ForestText(cb, row, ts, id, parentId);
  }

  lemma {:induction false} ForestText(cb: Callback, row: Reader, ts: seq<Node>, id: nat, parentId: nat)
    requires ts != []
    ensures ChildrenText(false, cb, ts, id, parentId)
      == VisitText(false, cb, ts[0], id, parentId) + ChildrenText(false, cb, ts[1..], id + Size(ts[0]), parentId)
    ensures EntriesAll(row, ts, id, parentId)
      == Entries(row, ts[0], id, parentId) + EntriesAll(row, ts[1..], id + Size(ts[0]), parentId)
  {
    var first := VisitText(false, cb, ts[0], id, parentId);
    assert first + "" == first;
  }

  // ----- the whole message

  lemma {:induction false} TrimMessage(x: string)
    requires x != "" && !IsJsSpace(x[0]) && !IsJsSpace(x[|x| - 1])
    ensures Trim(x + "\n") == x
  {
    var s := x + "\n";
    assert s[0] == x[0] && s[|s| - 1] == '\n' && s[..|s| - 1] == x;
    assert TrimStart(s) == s && TrimEnd(x) == x;
  }

  const END_LINE := "NodeProfData,End"

  function StartLine(time: nat): (text: string) {
    Field("NodeProfData", Field("Start", Decimal(time)))
  }

  lemma {:induction false} ReadStartLine(time: nat)
    ensures ReadLine(EMPTY, StartLine(time)) == EMPTY.(time := Some(Num(time)))
    ensures '\n' !in StartLine(time)
  {
    var d := Decimal(time);
    ParseIntDecimal(time);
    SplitWhole(d, ',');
    SplitField("Start", d);
    SplitField("NodeProfData", Field("Start", d));
    assert At(Split(StartLine(time), ','), 1) == Some("Start");
    assert At(Split(StartLine(time), ','), 2) == Some(d);
    NewlineFree("Start", d);
    NewlineFree("NodeProfData", Field("Start", d));
  }

  lemma {:induction false} ReadOther(prof: Prof, a: string, b: string)
    requires ',' !in a && ',' !in b && b != "Node" && b != "Start"
    ensures ReadLine(prof, Field(a, b)) == prof
  {
    SplitWhole(b, ',');
    SplitField(a, b);
  }

  lemma {:induction false} ReadOnlyLine(prof: Prof, line: string)
    requires '\n' !in line
    ensures ReadText(prof, line) == ReadLine(prof, line)
  {
    SplitWhole(line, '\n');
    assert [line][1..] == [];
    assert ReadLines(prof, [line]) == ReadLines(ReadLine(prof, line), []);
  }

  lemma {:induction false} ReadEndLine(prof: Prof)
    ensures ReadText(prof, END_LINE) == prof
  {
    EndLine();
    ReadOnlyLine(prof, END_LINE);
    ReadOther(prof, "NodeProfData", "End");
  }

  lemma {:induction false} EndLine()
    ensures END_LINE == Field("NodeProfData", "End") && '\n' !in END_LINE
    ensures ',' !in "NodeProfData" && ',' !in "End"
  {
  }

  lemma {:induction false} MessageLayout(time: nat, rows: string)
    ensures DataHead(false, time) + rows + DataTail(false) == StartLine(time) + ("\n" + (rows + END_LINE)) + "\n"
  {
    var d := Decimal(time);
    assert "NodeProfData,Start," == "NodeProfData" + ("," + ("Start" + ","));
    assert DataHead(false, time) == StartLine(time) + "\n";
    assert "NodeProfData,End\n" == END_LINE + "\n";
    Associate(StartLine(time), "\n", rows);
    Associate(StartLine(time) + ("\n" + rows), END_LINE, "\n");
    Associate(StartLine(time), "\n" + rows, END_LINE);
    Associate("\n", rows, END_LINE);
  }

  /** With clean names, every field but the counts comes back as printed. */
  lemma {:induction false} CleanMessage(root: Node, id: nat, time: nat)
    requires CleanTree(root)
    ensures FormatCsv(DataText(false, root, id, time)) == Prof(0, Entries(RowEntry, root, id, 0), Some(Num(time)))
  {
    var cb := NodeData(false);
    var rows := VisitText(false, cb, root, id, 0);
    var text := StartLine(time) + ("\n" + (rows + END_LINE));
    MessageLayout(time, rows);
    assert text[0] == 'N' && text[|text| - 1] == 'd';
    TrimMessage(text);
    ReadStartLine(time);
    ReadFirstLine(EMPTY, StartLine(time), rows + END_LINE);
    var started := EMPTY.(time := Some(Num(time)));
    DeliversTree(cb, RowEntry, root, id, 0);
    assert ReadText(started, rows + END_LINE) == ReadText(Append(started, Entries(RowEntry, root, id, 0)), END_LINE);
    ReadEndLine(Append(started, Entries(RowEntry, root, id, 0)));
    assert [] + Entries(RowEntry, root, id, 0) == Entries(RowEntry, root, id, 0);
  }

  // ----- exactly when the records are the tree's

  /** A node as a reader should see it: its id, its parent's id, and its own data. */
  datatype Record = Record(self: nat, parent: nat, file: string, name: string, line: int, count: UInt32)

  function Records(t: Node, id: nat, parentId: nat): (items: seq<Record>)
    decreases t
  {
    [Record(id, parentId, t.script, t.functionName, t.line, t.hits)] + RecordsAll(t.children, id + 1, id)
  }

  function RecordsAll(ts: seq<Node>, id: nat, parentId: nat): (items: seq<Record>)
    decreases ts
  {
    if ts == [] then [] else Records(ts[0], id, parentId) + RecordsAll(ts[1..], id + Size(ts[0]), parentId)
  }

  function ToEntry(r: Record): (res: Entry) {
    Entry(Num(r.self), Num(r.parent), Some(r.file), Some(r.name), Num(r.line), Num(r.count))
  }

  function ToEntries(rs: seq<Record>): (es: seq<Entry>)
    ensures |es| == |rs| && forall i :: 0 <= i < |rs| ==> es[i] == ToEntry(rs[i])
  {
    if rs == [] then [] else [ToEntry(rs[0])] + ToEntries(rs[1..])
  }

  predicate CleanRecord(r: Record) {
    NoSeparators(r.file) && NoSeparators(r.name) && r.count < MILLION
  }

  /** Every name is free of commas and newlines, and every hit count is below a million. */
  predicate CleanRecords(rs: seq<Record>) {
    forall i :: 0 <= i < |rs| ==> CleanRecord(rs[i])
  }

  predicate NamesClean(rs: seq<Record>) {
    forall i :: 0 <= i < |rs| ==> NoSeparators(rs[i].file) && NoSeparators(rs[i].name)
  }

  /** The record of a clean line, when its count is read by `parseInt`. */
  function ReadBack(r: Record): (res: Entry) {
    ToEntry(r).(count := CountRead(r.count))
  }

  /** `es` are the images of `rs` under `f`, one by one. */
  ghost predicate AreImages(f: Record -> Entry, es: seq<Entry>, rs: seq<Record>) {
    |es| == |rs| && forall i :: 0 <= i < |rs| ==> es[i] == f(rs[i])
  }

  ghost predicate ReadsBack(f: Record -> Entry) {
    forall r {:trigger ReadBack(r)} :: f(r) == ReadBack(r)
  }

  lemma {:induction false} TreeImages(f: Record -> Entry, row: Reader, t: Node, id: nat, parentId: nat)
    requires ReadsBack(f) && ReadsRows(row)
    ensures AreImages(f, Entries(row, t, id, parentId), Records(t, id, parentId))
    decreases t, 1
  {
    ForestImages(f, row, t.children, id + 1, id);
    var first := Record(id, parentId, t.script, t.functionName, t.line, t.hits);
    assert row(t, id, parentId) == RowEntry(t, id, parentId) == ReadBack(first);
    ImagesJoin(f, [row(t, id, parentId)], EntriesAll(row, t.children, id + 1, id),
               [first], RecordsAll(t.children, id + 1, id));
  }

  lemma {:induction false} ForestImages(f: Record -> Entry, row: Reader, ts: seq<Node>, id: nat, parentId: nat)
    requires ReadsBack(f) && ReadsRows(row)
    ensures AreImages(f, EntriesAll(row, ts, id, parentId), RecordsAll(ts, id, parentId))
    decreases ts, 0
  {
    if ts != [] {
      var next := id + Size(ts[0]);
      TreeImages(f, row, ts[0], id, parentId);
      ForestImages(f, row, ts[1..], next, parentId);
      ImagesJoin(f, Entries(row, ts[0], id, parentId), EntriesAll(row, ts[1..], next, parentId),
                 Records(ts[0], id, parentId), RecordsAll(ts[1..], next, parentId));
    }
  }

  lemma {:induction false} TreeClean(t: Node, id: nat, parentId: nat)
    ensures CleanTree(t) <==> NamesClean(Records(t, id, parentId))
    decreases t, 1
  {
    ForestClean(t.children, id + 1, id);
    var first := Record(id, parentId, t.script, t.functionName, t.line, t.hits);
    assert NamesClean([first]) <==> CleanNames(t) by { assert [first][0] == first; }
    NamesCleanJoin([first], RecordsAll(t.children, id + 1, id));
  }

  lemma {:induction false} ForestClean(ts: seq<Node>, id: nat, parentId: nat)
    ensures CleanForest(ts) <==> NamesClean(RecordsAll(ts, id, parentId))
    decreases ts, 0
  {
    if ts != [] {
      var next := id + Size(ts[0]);
      TreeClean(ts[0], id, parentId);
      ForestClean(ts[1..], next, parentId);
      NamesCleanJoin(Records(ts[0], id, parentId), RecordsAll(ts[1..], next, parentId));
    }
  }

  lemma {:induction false} ImagesJoin(f: Record -> Entry, es: seq<Entry>, fs: seq<Entry>, a: seq<Record>,
      b: seq<Record>)
    requires AreImages(f, es, a) && AreImages(f, fs, b)
    ensures AreImages(f, es + fs, a + b)
  {
  }

  lemma {:induction false} NamesCleanJoin(a: seq<Record>, b: seq<Record>)
    ensures NamesClean(a + b) <==> NamesClean(a) && NamesClean(b)
  {
    assert forall i :: 0 <= i < |a| ==> (a + b)[i] == a[i];
    assert forall i :: 0 <= i < |b| ==> (a + b)[|a| + i] == b[i];
  }

  /** `formatProfiling` returns one record per node, in preorder, with exactly its id, parent id, file,
      name, line and count, and the start time, if and only if no file or function name holds a comma
      or a newline and every hit count is below a million. */
  lemma {:induction false} CsvRoundTripExact(root: Node, id: nat, time: nat)
    ensures FormatCsv(DataText(false, root, id, time)) == Prof(0, ToEntries(Records(root, id, 0)), Some(Num(time)))
      <==> CleanRecords(Records(root, id, 0))
  {
    var rs := Records(root, id, 0);
    var out := FormatCsv(DataText(false, root, id, time));
    var want := ToEntries(rs);
    FormatCsvPure(DataText(false, root, id, time));
    TreeImages(ReadBack, RowEntry, root, id, 0);
    TreeClean(root, id, 0);
    if NamesClean(rs) {
      CleanMessage(root, id, time);
      forall i | 0 <= i < |rs|
        ensures ReadBack(rs[i]) == ToEntry(rs[i]) <==> rs[i].count < MILLION
      {
        CountReadExact(rs[i].count);
      }
      if CleanRecords(rs) {
        forall i | 0 <= i < |rs|
          ensures out.functions[i] == want[i]
        {
          assert CleanRecord(rs[i]);
        }
        assert out.functions == want;
      } else {
        var i :| 0 <= i < |rs| && !CleanRecord(rs[i]);
        assert out.functions[i] != want[i];
      }
    } else {
      var i :| 0 <= i < |rs| && !(NoSeparators(rs[i].file) && NoSeparators(rs[i].name));
      assert !CleanRecord(rs[i]) && !PureEntry(want[i]);
    }
  }

  // ----- the tree from its records

  /** The node at position `i`, with the later records that name it as their parent, in order. */
  function Rebuild(rows: seq<Record>, i: nat): (res: Node)
    requires i < |rows|
    decreases |rows| - i, |rows| + 1
  {
    Node(rows[i].name, rows[i].file, rows[i].line, rows[i].count, RebuildChildren(rows, i, i + 1))
  }

  function RebuildChildren(rows: seq<Record>, i: nat, j: nat): (items: seq<Node>)
    requires i < j <= |rows|
    decreases |rows| - i, |rows| - j
  {
    if j == |rows| then []
    else if rows[j].parent == rows[i].self then [Rebuild(rows, j)] + RebuildChildren(rows, i, j + 1)
    else RebuildChildren(rows, i, j + 1)
  }

  /** Ids run from `id` on, and every parent but the first is one of them. */
  ghost predicate InRange(rs: seq<Record>, id: nat, parentId: nat) {
    forall k :: 0 <= k < |rs| ==>
      rs[k].self == id + k && (rs[k].parent == parentId || id <= rs[k].parent < id + |rs|)
  }

  lemma {:induction false} RecordsInRange(t: Node, id: nat, parentId: nat)
    ensures |Records(t, id, parentId)| == Size(t) && InRange(Records(t, id, parentId), id, parentId)
    ensures forall k :: 1 <= k < Size(t) ==> id <= Records(t, id, parentId)[k].parent < id + Size(t)
    decreases t, 1
  {
    ForestInRange(t.children, id + 1, id);
  }

  lemma {:induction false} ForestInRange(ts: seq<Node>, id: nat, parentId: nat)
    ensures |RecordsAll(ts, id, parentId)| == SizeAll(ts) && InRange(RecordsAll(ts, id, parentId), id, parentId)
    decreases ts, 0
  {
    if ts != [] {
      RecordsInRange(ts[0], id, parentId);
      ForestInRange(ts[1..], id + Size(ts[0]), parentId);
      var a, b := Records(ts[0], id, parentId), RecordsAll(ts[1..], id + Size(ts[0]), parentId);
      assert forall k :: |a| <= k < |a + b| ==> (a + b)[k] == b[k - |a|];
    }
  }

  /** `part` stands in `rows` from position `at` on. */
  ghost predicate StandsAt(rows: seq<Record>, part: seq<Record>, at: nat) {
    at + |part| <= |rows| && rows[at..at + |part|] == part
  }

  lemma {:induction false} SkipOthers(rows: seq<Record>, i: nat, j: nat, k: nat)
    requires i < j <= k <= |rows|
    requires forall m :: j <= m < k ==> rows[m].parent != rows[i].self
    ensures RebuildChildren(rows, i, j) == RebuildChildren(rows, i, k)
    decreases k - j
  {
    if j < k { SkipOthers(rows, i, j + 1, k); }
  }

  /** A child at `at`, whose descendants fill the places up to `at + size`. */
  lemma {:induction false} NextChild(rows: seq<Record>, i: nat, at: nat, size: nat, t: Node)
    requires i < at && size > 0 && at + size <= |rows|
    requires rows[at].parent == rows[i].self && Rebuild(rows, at) == t
    requires forall m :: at + 1 <= m < at + size ==> rows[m].parent != rows[i].self
    ensures RebuildChildren(rows, i, at) == [t] + RebuildChildren(rows, i, at + size)
  {
    SkipOthers(rows, i, at + 1, at + size);
  }

  lemma {:induction false} RebuildTree(rows: seq<Record>, t: Node, id: nat, parentId: nat, at: nat)
    requires StandsAt(rows, Records(t, id, parentId), at) && parentId < id
    requires forall m :: at + Size(t) <= m < |rows| ==> !(id <= rows[m].parent < id + Size(t))
    ensures at < |rows| && Rebuild(rows, at) == t
    decreases t, 1
  {
    RecordsInRange(t, id, parentId);
    ForestInRange(t.children, id + 1, id);
    var rs, kids := Records(t, id, parentId), RecordsAll(t.children, id + 1, id);
    assert rows[at] == rs[0] && rs[1..] == kids;
    assert rows[at + 1..at + 1 + |kids|] == rs[1..];
    RebuildForest(rows, t.children, id + 1, id, at, at + 1);
  }

  lemma {:induction false} RebuildForest(rows: seq<Record>, ts: seq<Node>, id: nat, parentId: nat, i: nat, at: nat)
    requires StandsAt(rows, RecordsAll(ts, id, parentId), at) && i < at && parentId < id
    requires rows[i].self == parentId
    requires forall m :: at + SizeAll(ts) <= m < |rows| ==>
      rows[m].parent != parentId && !(id <= rows[m].parent < id + SizeAll(ts))
    ensures RebuildChildren(rows, i, at) == ts
    decreases ts, 0
  {
    if ts == [] {
      SkipOthers(rows, i, at, |rows|);
    } else {
      var next, size := id + Size(ts[0]), Size(ts[0]);
      ForestParts(rows, ts, id, parentId, at);
      RebuildTree(rows, ts[0], id, parentId, at);
      RebuildForest(rows, ts[1..], next, parentId, i, at + size);
      NextChild(rows, i, at, size, ts[0]);
      assert [ts[0]] + ts[1..] == ts;
    }
  }

  lemma {:induction false} ForestParts(rows: seq<Record>, ts: seq<Node>, id: nat, parentId: nat, at: nat)
    requires ts != [] && StandsAt(rows, RecordsAll(ts, id, parentId), at) && parentId < id
    requires forall m :: at + SizeAll(ts) <= m < |rows| ==>
      rows[m].parent != parentId && !(id <= rows[m].parent < id + SizeAll(ts))
    ensures at + Size(ts[0]) <= |rows| && rows[at].parent == parentId
    ensures StandsAt(rows, Records(ts[0], id, parentId), at)
    ensures StandsAt(rows, RecordsAll(ts[1..], id + Size(ts[0]), parentId), at + Size(ts[0]))
    ensures forall m :: at + 1 <= m < at + Size(ts[0]) ==> rows[m].parent != parentId
    ensures forall m :: at + Size(ts[0]) <= m < |rows| ==> !(id <= rows[m].parent < id + Size(ts[0]))
    ensures var next, rest := id + Size(ts[0]), at + Size(ts[0]);
      forall m :: rest + SizeAll(ts[1..]) <= m < |rows| ==>
        rows[m].parent != parentId && !(next <= rows[m].parent < next + SizeAll(ts[1..]))
  {
    assert SizeAll(ts) == Size(ts[0]) + SizeAll(ts[1..]);
    ForestApart(rows, ts, id, parentId, at);
    ForestStands(rows, Records(ts[0], id, parentId), RecordsAll(ts[1..], id + Size(ts[0]), parentId), at);
  }

  /** The rows of the first tree and those behind it name each other's ids only through `parentId`. */
  lemma {:induction false} ForestApart(rows: seq<Record>, ts: seq<Node>, id: nat, parentId: nat, at: nat)
    requires ts != [] && StandsAt(rows, RecordsAll(ts, id, parentId), at) && parentId < id
    requires forall m :: at + SizeAll(ts) <= m < |rows| ==>
      rows[m].parent != parentId && !(id <= rows[m].parent < id + SizeAll(ts))
    ensures |Records(ts[0], id, parentId)| == Size(ts[0]) && rows[at].parent == parentId
    ensures forall m :: at + 1 <= m < at + Size(ts[0]) ==> rows[m].parent != parentId
    ensures forall m :: at + Size(ts[0]) <= m < |rows| ==> !(id <= rows[m].parent < id + Size(ts[0]))
  {
    var next := id + Size(ts[0]);
    var a, b := Records(ts[0], id, parentId), RecordsAll(ts[1..], next, parentId);
    RecordsInRange(ts[0], id, parentId);
    ForestInRange(ts[1..], next, parentId);
    ForestStands(rows, a, b, at);
    forall m | at + 1 <= m < at + Size(ts[0])
      ensures rows[m].parent != parentId
    {
      assert rows[m] == a[m - at];
    }
    forall m | at + |a| <= m < at + |a| + |b|
      ensures !(id <= rows[m].parent < next)
    {
      assert rows[m] == b[m - at - |a|];
    }
  }

  lemma {:induction false} ForestStands(rows: seq<Record>, a: seq<Record>, b: seq<Record>, at: nat)
    requires StandsAt(rows, a + b, at)
    ensures StandsAt(rows, a, at) && StandsAt(rows, b, at + |a|)
    ensures forall k :: 0 <= k < |a| ==> rows[at + k] == a[k]
    ensures forall k :: 0 <= k < |b| ==> rows[at + |a| + k] == b[k]
  {
    var part := rows[at..at + |a + b|];
    assert part[..|a|] == a && part[|a|..] == b;
    assert rows[at..at + |a|] == part[..|a|] && rows[at + |a|..at + |a| + |b|] == part[|a|..];
  }

  /** Parent ids alone give the tree back: the records of a profile determine its shape and child order. */
  lemma {:induction false} RecordsRebuild(root: Node, id: nat)
    requires id > 0
    ensures Records(root, id, 0) != [] && Rebuild(Records(root, id, 0), 0) == root
  {
    var rows := Records(root, id, 0);
    RecordsInRange(root, id, 0);
    assert rows[0..0 + |rows|] == rows;
    RebuildTree(rows, root, id, 0, 0);
  }

  // ----- two profiles that do not come back

  lemma {:induction false} CommaCorrupts()
    ensures var root := Node("a,b", "", 0, 0, []);
      FormatCsv(DataText(false, root, 1, 0)) != Prof(0, ToEntries(Records(root, 1, 0)), Some(Num(0)))
  {
    var root := Node("a,b", "", 0, 0, []);
    CsvRoundTripExact(root, 1, 0);
    assert Records(root, 1, 0)[0].name[1] == ',';
    assert !CleanRecord(Records(root, 1, 0)[0]);
  }

  lemma {:induction false} MillionCorrupts()
    ensures var root := Node("a", "", 0, MILLION, []);
      FormatCsv(DataText(false, root, 1, 0)) != Prof(0, ToEntries(Records(root, 1, 0)), Some(Num(0)))
  {
    var root := Node("a", "", 0, MILLION, []);
    CsvRoundTripExact(root, 1, 0);
    assert !CleanRecord(Records(root, 1, 0)[0]);
  }
}
