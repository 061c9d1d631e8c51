/**
 The text the profiling plugin makes of a CPU profile (`ConstructData`, `visit`, `ConstructNodeData` in
 src/plugins/node/prof/nodeprofplugin.cpp), in its two modes: nested JSON, or CSV rows with parent ids.
 */
module ProfileText {
  import opened Decimals
  import opened JsonReader
  import opened StringReplace

  type UInt32 = n: nat | n < 0x1_0000_0000

  /** A node of the top-down profile: its function name and script path as C strings, its line, its hit count. */
  datatype Node = Node(functionName: string, script: string, line: int, hits: UInt32, children: seq<Node>)

  function Size(t: Node): (n: nat)
    ensures Size(t) > 0
    decreases t
  {
    1 + SizeAll(t.children)
  }

  function SizeAll(ts: seq<Node>): (n: nat)
    decreases ts
  {
    if ts == [] then 0 else Size(ts[0]) + SizeAll(ts[1..])
  }

  // ----- numbers as the stream prints them

  function IntText(i: int): (text: string) {
    if i < 0 then "-" + Decimal(-i) else Decimal(i)
  }

  function RoundHalfEven(n: nat, d: nat): (res: nat)
    requires d > 0
  {
    var q, r := n / d, n % d;
    if 2 * r > d || (2 * r == d && q % 2 == 1) then q + 1 else q
  }

  /** Without its trailing zeros, but never without its first digit. */
  function StripZeros(s: string): (r: string)
    ensures r <= s && (s != "" ==> r != "")
  {
    if |s| > 1 && s[|s| - 1] == '0' then StripZeros(s[..|s| - 1]) else s
  }

  const MILLION := 1_000_000

  /** The decimal digits that a hit count has beyond the six the stream keeps. */
  function Excess(n: nat): (res: nat) {
    if |Decimal(n)| > 6 then |Decimal(n)| - 6 else 0
  }

  /** `result << selfSamples` for a double: six significant digits, in scientific notation from 10^6 on. */
  function HitText(n: nat): (text: string) {
    if n < MILLION then Decimal(n)
    else
      var k := Excess(n);
      var ds := Decimal(RoundHalfEven(n, Pow10(k)));
      var shown := StripZeros(ds);
      shown[..1] + (if |shown| > 1 then "." + shown[1..] else "") + "e+" + ExponentText(k + |ds| - 1)
  }

  /** At least two digits. */
  function ExponentText(e: nat): (text: string) {
    if e < 10 then "0" + Decimal(e) else Decimal(e)
  }

  /** The number that text denotes. */
  function RoundedHits(n: nat): (res: nat) {
    if n < MILLION then n else RoundHalfEven(n, Pow10(Excess(n))) * Pow10(Excess(n))
  }

  // ----- the recursion of `visit`, as text

  function KeyText(key: string): (text: string) {
    "\"" + key + "\":"
  }

  function StringMember(key: string, body: string): (text: string) {
    KeyText(key) + "\"" + body + "\","
  }

  function NumberMember(key: string, number: string): (text: string) {
    KeyText(key) + number + ","
  }

  /** The text of a node up to its first child. */
  function JsonHead(t: Node, id: nat): (text: string) {
    "{" + (StringMember("functionName", EscapedName(t.functionName))
    + (StringMember("url", EscapedPath(t.script))
    + (NumberMember("lineNumber", IntText(t.line))
    + (NumberMember("hitCount", HitText(t.hits))
    + (NumberMember("id", Decimal(id))
    + (KeyText("children") + "["))))))
  }

  /** One field of a CSV line and the fields after it. */
  function Field(a: string, rest: string): (text: string) {
    a + ("," + rest)
  }

  /** The CSV line of a node, without its line end. */
  function RowLine(t: Node, id: nat, parentId: nat): (text: string) {
    Field("NodeProfData", Field("Node", Field(Decimal(id), Field(Decimal(parentId),
      Field(t.script, Field(t.functionName, Field(IntText(t.line), HitText(t.hits))))))))
  }

  function Row(t: Node, id: nat, parentId: nat): (text: string) {
    RowLine(t, id, parentId) + "\n"
  }

  lemma {:induction false} RowPieces(id: string, parentId: string, script: string, function': string, line: string,
      hits: string)
    ensures "NodeProfData,Node," + id + "," + parentId + "," + script + "," + function' + "," + line + "," + hits
      == Field("NodeProfData", Field("Node", Field(id, Field(parentId, Field(script,
          Field(function', Field(line, hits)))))))
  {
    var start := "NodeProfData,Node,";
    var f6 := Field(line, hits);
    var f5 := Field(function', f6);
    var f4 := Field(script, f5);
    var f3 := Field(parentId, f4);
    var f2 := Field(id, f3);
    FieldPiece(start + id + "," + parentId + "," + script + "," + function' + ",", line, hits);
    FieldPiece(start + id + "," + parentId + "," + script + ",", function', f6);
    FieldPiece(start + id + "," + parentId + ",", script, f5);
    FieldPiece(start + id + ",", parentId, f4);
    FieldPiece(start, id, f3);
    assert start == "NodeProfData" + "," + "Node" + ",";
    FieldPiece("NodeProfData" + ",", "Node", f2);
    Associate("NodeProfData", ",", Field("Node", f2));
  }

  lemma {:induction false} FieldPiece(x: string, a: string, rest: string)
    ensures x + a + "," + rest == x + Field(a, rest)
  {
  }

  lemma {:induction false} MemberNames()
    ensures "\"functionName\":\"" == KeyText("functionName") + "\""
    ensures "\"url\":\"" == KeyText("url") + "\""
    ensures "\"lineNumber\":" == KeyText("lineNumber")
    ensures "\"hitCount\":" == KeyText("hitCount")
    ensures "\"id\":" == KeyText("id")
    ensures "\"children\":[" == KeyText("children") + "["
  {
  }

  lemma {:induction false} Associate(a: string, b: string, c: string)
    ensures (a + b) + c == a + (b + c)
  {
  }

  /** Appending piece by piece is appending the nested text. */
  lemma {:induction false} Nest(x: string, a: string, b: string, c: string, d: string, e: string, f: string, g: string)
    ensures x + a + b + c + d + e + f + g == x + (a + (b + (c + (d + (e + (f + g))))))
  {
    Associate(x + a + b + c + d + e, f, g);
    Associate(x + a + b + c + d, e, f + g);
    Associate(x + a + b + c, d, e + (f + g));
    Associate(x + a + b, c, d + (e + (f + g)));
    Associate(x + a, b, c + (d + (e + (f + g))));
    Associate(x, a, b + (c + (d + (e + (f + g)))));
  }

  function HeadText(json: bool, t: Node, id: nat, parentId: nat): (text: string) {
    if json then JsonHead(t, id) else Row(t, id, parentId)
  }

  /** What `visit` is given to print a node with: the node, its id and its parent's id. */
  type Callback = (Node, nat, nat) -> string

  function NodeData(json: bool): (res: Callback) {
    (t, id: nat, parentId: nat) => HeadText(json, t, id, parentId)
  }

  function VisitText(json: bool, cb: Callback, t: Node, id: nat, parentId: nat): (text: string)
    decreases t
  {
    cb(t, id, parentId) + ChildrenText(json, cb, t.children, id + 1, id) + (if json then "]}" else "")
  }

  function ChildrenText(json: bool, cb: Callback, ts: seq<Node>, id: nat, parentId: nat): (text: string)
    decreases ts
  {
    if ts == [] then ""
    else
      VisitText(json, cb, ts[0], id, parentId) + (if json && |ts| > 1 then "," else "")
      + ChildrenText(json, cb, ts[1..], id + Size(ts[0]), parentId)
  }

  lemma {:induction false} ChildrenTextStep(json: bool, cb: Callback, ts: seq<Node>, i: nat, id: nat, parentId: nat,
      before: string)
    requires i < |ts|
    ensures SizeAll(ts[i..]) == Size(ts[i]) + SizeAll(ts[i + 1..])
    ensures before + ChildrenText(json, cb, ts[i..], id, parentId)
      == (before + VisitText(json, cb, ts[i], id, parentId) + if json && i != |ts| - 1 then "," else "")
         + ChildrenText(json, cb, ts[i + 1..], id + Size(ts[i]), parentId)
  {
    assert ts[i..][0] == ts[i] && ts[i..][1..] == ts[i + 1..];
  }

  lemma {:induction false} WholeSequence<T>(s: seq<T>)
    ensures s[0..] == s && s[|s|..] == []
  {
  }

  lemma {:induction false} EmptyTail(s: string)
    ensures s + "" == s
  {
  }

  lemma {:induction false} Close(a: string, b: string, c: string)
    ensures a + b + c + "]" + "}" == a + (b + c + "]}")
    ensures a + b + c == a + (b + c + "")
  {
  }

  function DataHead(json: bool, time: nat): (text: string) {
    if json then "{\"date\":" + Decimal(time) + "," + "\"head\":"
    else "NodeProfData,Start," + Decimal(time) + "\n"
  }

  function DataTail(json: bool): (text: string) {
    if json then "}" else "NodeProfData,End\n"
  }

  function DataText(json: bool, root: Node, id: nat, time: nat): (text: string) {
    DataHead(json, time) + VisitText(json, NodeData(json), root, id, 0) + DataTail(json)
  }

  // ----- the source's form: one stream and one counter, shared by the whole recursion

  /** The JSON text of a node up to its first child, piece by piece. */
  lemma {:induction false} JsonPieces(t: Node, id: nat)
    ensures JsonHead(t, id) == "{\"functionName\":\"" + EscapedName(t.functionName) + "\",\"url\":\""
      + EscapedPath(t.script) + "\",\"lineNumber\":" + IntText(t.line) + ",\"hitCount\":" + HitText(t.hits)
      + ",\"id\":" + Decimal(id) + ",\"children\":["
  {
    KeyPieces();
    MembersJoin("functionName", "url", "lineNumber", "hitCount", "id", "children", EscapedName(t.functionName),
                EscapedPath(t.script), IntText(t.line), HitText(t.hits), Decimal(id));
  }

  lemma {:induction false} KeyPieces()
    ensures "{" + KeyText("functionName") + "\"" == "{\"functionName\":\""
    ensures "\"," + KeyText("url") + "\"" == "\",\"url\":\""
    ensures "\"," + KeyText("lineNumber") == "\",\"lineNumber\":"
    ensures "," + KeyText("hitCount") == ",\"hitCount\":"
    ensures "," + KeyText("id") == ",\"id\":"
    ensures "," + KeyText("children") + "[" == ",\"children\":["
  {
  }

  lemma {:induction false} MembersJoin(k1: string, k2: string, k3: string, k4: string, k5: string, k6: string,
      a: string, b: string, c: string, d: string, e: string)
    ensures "{" + (StringMember(k1, a) + (StringMember(k2, b) + (NumberMember(k3, c) + (NumberMember(k4, d)
      + (NumberMember(k5, e) + (KeyText(k6) + "["))))))
      == ("{" + KeyText(k1) + "\"") + a + ("\"," + KeyText(k2) + "\"") + b + ("\"," + KeyText(k3)) + c
         + ("," + KeyText(k4)) + d + ("," + KeyText(k5)) + e + ("," + KeyText(k6) + "[")
  {
  }

  predicate StartsWith(s: string, start: string) {
    start <= s
  }

  predicate EndsWith(s: string, end: string) {
    |end| <= |s| && s[|s| - |end|..] == end
  }

  /** `nextid` is static: it keeps counting from one profile to the next. */
  class Printer {
    var nextid: nat
    var result: string
    var jsonEnabled: bool

    constructor (json: bool)
      ensures nextid == 1 && result == "" && jsonEnabled == json
    {
      nextid, result, jsonEnabled := 1, "", json;
    }

    /** `cb` prints what `ConstructNodeData` appends in the current mode. */
    ghost predicate Prints(cb: Callback)
      reads this`jsonEnabled
    {
      forall t, id, p {:trigger HeadText(jsonEnabled, t, id, p)} :: cb(t, id, p) == HeadText(jsonEnabled, t, id, p)
    }

    method ConstructNodeData(node: Node, id: nat, parentId: nat, ghost cb: Callback)
      requires Prints(cb)
      modifies this`result
      ensures result == old(result) + cb(node, id, parentId)
      ensures !jsonEnabled ==>
        result == old(result) + ("NodeProfData,Node," + Decimal(id) + "," + Decimal(parentId) + "," + node.script
          + "," + node.functionName + "," + IntText(node.line) + "," + HitText(node.hits) + "\n")
    {
      assert cb(node, id, parentId) == HeadText(jsonEnabled, node, id, parentId);
      if jsonEnabled {
        var strScript, strFunction := node.script, node.functionName;
        if strScript != "" {
          strScript := ReplaceInString("\\", "/", strScript);
          strScript := ReplaceInString("\"", "\\\"", strScript);
        }
        if strFunction != "" {
          strFunction := ReplaceInString("\\", "\\\\", strFunction);
          strFunction := ReplaceInString("\"", "\\\"", strFunction);
        }
        var before := result;
        result := result + "{";
        result := result + ("\"functionName\":\"" + strFunction + "\",");
        result := result + ("\"url\":\"" + strScript + "\",");
        result := result + ("\"lineNumber\":" + IntText(node.line) + ",");
        result := result + ("\"hitCount\":" + HitText(node.hits) + ",");
        result := result + ("\"id\":" + Decimal(id) + ",");
        result := result + "\"children\":[";
        MemberNames();
        Nest(before, "{", StringMember("functionName", strFunction), StringMember("url", strScript),
             NumberMember("lineNumber", IntText(node.line)), NumberMember("hitCount", HitText(node.hits)),
             NumberMember("id", Decimal(id)), KeyText("children") + "[");
      } else {
        result := result + ("NodeProfData,Node," + Decimal(id) + "," + Decimal(parentId) + ","
          + node.script + "," + node.functionName + "," + IntText(node.line) + "," + HitText(node.hits) + "\n");
        RowPieces(Decimal(id), Decimal(parentId), node.script, node.functionName,
                  IntText(node.line), HitText(node.hits));
      }
    }

    method Visit(current: Node, parentId: nat, ghost cb: Callback)
      requires Prints(cb)
      modifies this`nextid, this`result
      ensures nextid == old(nextid) + Size(current)
      ensures result == old(result) + VisitText(jsonEnabled, cb, current, old(nextid), parentId)
      decreases current, 1
    {
      var id := nextid;
      nextid := nextid + 1;
      ConstructNodeData(current, id, parentId, cb);
      VisitChildren(current, id, cb);
      Close(old(result), cb(current, id, parentId), ChildrenText(jsonEnabled, cb, current.children, id + 1, id));
      if jsonEnabled {
        result := result + "]";
        result := result + "}";
      }
    }

    /** The loop of `visit`. */
    method VisitChildren(current: Node, id: nat, ghost cb: Callback)
      requires Prints(cb)
      modifies this`nextid, this`result
      ensures nextid == old(nextid) + SizeAll(current.children)
      ensures result == old(result) + ChildrenText(jsonEnabled, cb, current.children, old(nextid), id)
      decreases current, 0
    {
      ghost var ids := nextid + SizeAll(current.children);
      ghost var all := result + ChildrenText(jsonEnabled, cb, current.children, nextid, id);
      WholeSequence(current.children);
      var children := |current.children|;
      var i := 0;
      while i < children
        invariant 0 <= i <= children
        invariant nextid + SizeAll(current.children[i..]) == ids
        invariant result + ChildrenText(jsonEnabled, cb, current.children[i..], nextid, id) == all
      {
        ChildrenTextStep(jsonEnabled, cb, current.children, i, nextid, id, result);
        VisitChild(current, i, id, cb);
        i := i + 1;
      }
      EmptyTail(result);
    }

    /** One child, and a comma behind it unless it is the last. */
    method VisitChild(current: Node, i: nat, id: nat, ghost cb: Callback)
      requires Prints(cb) && i < |current.children|
      modifies this`nextid, this`result
      ensures nextid == old(nextid) + Size(current.children[i])
      ensures result == old(result) + VisitText(jsonEnabled, cb, current.children[i], old(nextid), id)
        + if jsonEnabled && i != |current.children| - 1 then "," else ""
      decreases current.children[i], 2
    {
      Visit(current.children[i], id, cb);
      EmptyTail(result);
      if i != |current.children| - 1 && jsonEnabled {
        result := result + ",";
      }
    }

    /** The stream is local to this call; the counter is not. */
    method ConstructData(topRoot: Node, time: nat) returns (text: string)
      modifies this`nextid, this`result
      ensures nextid == old(nextid) + Size(topRoot)
      ensures text == DataText(jsonEnabled, topRoot, old(nextid), time)
      ensures !jsonEnabled ==> StartsWith(text, "NodeProfData,Start," + Decimal(time) + "\n")
      ensures !jsonEnabled ==> EndsWith(text, "NodeProfData,End\n")
    {
      result := "";
      if jsonEnabled {
        result := "{\"date\":" + Decimal(time) + ",";
        result := result + "\"head\":";
      } else {
        result := "NodeProfData,Start," + Decimal(time) + "\n";
      }
      Visit(topRoot, 0, NodeData(jsonEnabled));
      if jsonEnabled {
        result := result + "}";
      } else {
        result := result + "NodeProfData,End\n";
      }
      text := result;
    }
  }
}
