/** What text the tokenizer of shared/wfb_json.h accepts, said twice: as a
    declarative layout of trees over the text (`Fits`), and as a one-pass stack
    machine (`Run`). `ForestIffFits` proves the two equal on all texts.

    Only brackets and strings are structural to this tokenizer: commas and
    colons are skipped like blanks, and a primitive is any run of characters up
    to a comma, a closing bracket or a blank. */
module JsonGrammar {
  import opened JsonTokens

  predicate Blank(c: char) {
    c == ' ' || c == '\t' || c == '\n' || c == '\r'
  }

  predicate Skipped(c: char) {
    Blank(c) || c == ':' || c == ','
  }

  predicate EndsPrim(c: char) {
    c == ',' || c == '}' || c == ']' || Blank(c)
  }

  predicate StartsPrim(c: char) {
    !Skipped(c) && c != '{' && c != '[' && c != '}' && c != ']' && c != '"'
  }

  function OpenChar(k: Kind): char {
    if k.Obj? then '{' else '['
  }

  function CloseChar(k: Kind): char {
    if k.Obj? then '}' else ']'
  }

  // ---- The layout of trees over a text, in literal characters

  ghost predicate AllSkipped(js: string, lo: nat, hi: nat)
    requires lo <= hi <= |js|
  {
    forall i :: lo <= i < hi ==>
      js[i] == ' ' || js[i] == '\t' || js[i] == '\n' || js[i] == '\r' || js[i] == ':' || js[i] == ','
  }

  /** Where a primitive ends. */
  ghost predicate Delimiter(c: char) {
    c == ',' || c == '}' || c == ']' || c == ' ' || c == '\t' || c == '\n' || c == '\r'
  }

  /** js[s..e] is the inside of a string: a backslash takes the next character
      with it, and no other quote occurs. */
  predicate StrBody(js: string, s: nat, e: nat)
    requires e <= |js|
    decreases e - s
  {
    s == e
    || (s + 2 <= e && js[s] == '\\' && StrBody(js, s + 2, e))
    || (s + 1 <= e && js[s] != '\\' && js[s] != '"' && StrBody(js, s + 1, e))
  }

  /** The text positions a value occupies, quotes and brackets included. */
  function First(n: Node): int {
    if n.kind.Str? then n.start - 1 else n.start
  }

  function Past(n: Node): int {
    if n.kind.Str? then n.end + 1 else n.end
  }

  /** The text between First(n) and Past(n) is the value n. */
  ghost predicate FitsNode(js: string, n: Node)
    decreases n, 1
  {
    && 0 <= First(n) < Past(n) <= |js|
    && match n.kind
       case Prim =>
         && n.kids == [] && js[n.start] != '"' && js[n.start] != '{' && js[n.start] != '[' && js[n.start] != ':'
         && (forall i :: n.start <= i < n.end ==> !Delimiter(js[i]))
         && (n.end < |js| ==> Delimiter(js[n.end]))
       case Str =>
         n.kids == [] && js[n.start - 1] == '"' && n.start <= n.end && js[n.end] == '"' && StrBody(js, n.start, n.end)
       case _ =>
         && n.start + 2 <= n.end
         && js[n.start] == (if n.kind.Obj? then '{' else '[')
         && js[n.end - 1] == (if n.kind.Obj? then '}' else ']')
         && Fits(js, n.start + 1, n.end - 1, n.kids)
  }

  /** js[lo..hi] is the values `nodes`, in order, with skipped characters
      before, between and after them. */
  ghost predicate Fits(js: string, lo: int, hi: int, nodes: seq<Node>)
    decreases nodes, 0
  {
    && 0 <= lo <= hi <= |js|
    && if nodes == [] then AllSkipped(js, lo, hi)
       else
         var n := nodes[0];
         && FitsNode(js, n) && lo <= First(n) && Past(n) <= hi
         && AllSkipped(js, lo, First(n))
         && Fits(js, Past(n), hi, nodes[1..])
  }

  lemma {:induction false} FitsExtend(js: string, lo: int, mid: int, hi: int, nodes: seq<Node>)
    requires Fits(js, lo, mid, nodes) && mid <= hi <= |js| && AllSkipped(js, mid, hi)
    ensures Fits(js, lo, hi, nodes)
    decreases |nodes|
  {
    if nodes != [] {
      FitsExtend(js, Past(nodes[0]), mid, hi, nodes[1..]);
    }
  }

  lemma {:induction false} FitsAppend(js: string, lo: int, mid: int, nodes: seq<Node>, n: Node)
    requires Fits(js, lo, mid, nodes)
    requires FitsNode(js, n) && First(n) == mid
    ensures Fits(js, lo, Past(n), nodes + [n])
    decreases |nodes|
  {
    if nodes == [] {
      assert ([n])[1..] == [];
      assert nodes + [n] == [n];
    } else {
      assert (nodes + [n])[1..] == nodes[1..] + [n];
      FitsAppend(js, Past(nodes[0]), mid, nodes[1..], n);
    }
  }

  // ---- Scanning

  /** The first index at or after `i` where a primitive must stop. */
  function PrimEnd(js: string, i: nat): (e: nat)
    requires i <= |js|
    ensures i <= e <= |js|
    ensures forall k :: i <= k < e ==> !EndsPrim(js[k])
    ensures e < |js| ==> EndsPrim(js[e])
    decreases |js| - i
  {
    if i == |js| || EndsPrim(js[i]) then i else PrimEnd(js, i + 1)
  }

  datatype Found = NotFound | At(pos: nat)

  /** The closing quote of a string whose inside starts at `i`. A backslash
      that is the last character of the text escapes nothing. */
  function StrEnd(js: string, i: nat): (r: Found)
    ensures r.At? ==> i <= r.pos < |js| && js[r.pos] == '"' && StrBody(js, i, r.pos)
    decreases |js| - i
  {
    if i >= |js| then NotFound
    else if js[i] == '"' then At(i)
    else if js[i] == '\\' && i + 1 < |js| then StrEnd(js, i + 2)
    else StrEnd(js, i + 1)
  }

  lemma {:induction false} StrEndUnique(js: string, i: nat, e: nat)
    requires i <= e < |js| && js[e] == '"' && StrBody(js, i, e)
    ensures StrEnd(js, i) == At(e)
    decreases e - i
  {
    if i < e {
      if js[i] == '\\' {
        StrEndUnique(js, i + 2, e);
      } else {
        StrEndUnique(js, i + 1, e);
      }
    }
  }

  lemma {:induction false} PrimEndUnique(js: string, i: nat, e: nat)
    requires i <= e <= |js| && (forall k :: i <= k < e ==> !EndsPrim(js[k])) && (e < |js| ==> EndsPrim(js[e]))
    ensures PrimEnd(js, i) == e
    decreases e - i
  {
    if i < e {
      PrimEndUnique(js, i + 1, e);
    }
  }

  // ---- The stack machine

  /** An unfinished parse, innermost level first: the finished siblings of the
      innermost open container, then the containers around it. */
  datatype Stack =
    | Bottom(kids: seq<Node>)
    | Open(kids: seq<Node>, kind: Kind, start: nat, outer: Stack)

  const START := Bottom([])

  /** Hand a finished value to the innermost open container. */
  function Emit(m: Stack, n: Node): Stack {
    m.(kids := m.kids + [n])
  }

  function Push(m: Stack, k: Kind, start: nat): Stack {
    Open([], k, start, m)
  }

  function Pop(m: Stack, end: nat): Stack
    requires m.Open?
  {
    Emit(m.outer, Node(m.kind, m.start, end, m.kids))
  }

  datatype Outcome = Rejected | Go(m: Stack, pos: nat)

  /** One turn of the main loop: the machine and the position after it. */
  function Step(js: string, pos: nat, m: Stack): (r: Outcome)
    requires pos < |js|
    ensures r.Go? ==> pos < r.pos <= |js|
  {
    var c := js[pos];
    if c == '{' then Go(Push(m, Obj, pos), pos + 1)
    else if c == '[' then Go(Push(m, Arr, pos), pos + 1)
    else if c == '}' || c == ']' then
      if m.Bottom? || CloseChar(m.kind) != c then Rejected
      else Go(Pop(m, pos + 1), pos + 1)
    else if c == '"' then
      match StrEnd(js, pos + 1)
      case NotFound => Rejected
      case At(e) => Go(Emit(m, Node(Str, pos + 1, e, [])), e + 1)
    else if Skipped(c) then Go(m, pos + 1)
    else
      assert !EndsPrim(c);
      var e := PrimEnd(js, pos + 1);
      Go(Emit(m, Node(Prim, pos, e, [])), e)
  }

  function Run(js: string, pos: nat, m: Stack): Outcome
    requires pos <= |js|
    decreases |js| - pos
  {
    if pos == |js| then Go(m, pos)
    else
      match Step(js, pos, m)
      case Rejected => Rejected
      case Go(m', pos') => Run(js, pos', m')
  }

  datatype Parse = Bad | Trees(nodes: seq<Node>)

  /** What the whole text stands for, token limit aside. */
  function Forest(js: string): Parse {
    match Run(js, 0, START)
    case Rejected => Bad
    case Go(m, _) => if m.Bottom? then Trees(m.kids) else Bad
  }

  // ---- The machine computes layouts: soundness

  /** js[..pos] is what the machine state says it is. */
  ghost predicate Laid(js: string, pos: int, m: Stack) {
    match m
    case Bottom(kids) => Fits(js, 0, pos, kids)
    case Open(kids, kind, start, outer) =>
      && Container(kind) && start < |js| && js[start] == OpenChar(kind)
      && Fits(js, start + 1, pos, kids)
      && Laid(js, start, outer)
  }

  lemma {:induction false} LaidEmit(js: string, pos: int, m: Stack, n: Node)
    requires Laid(js, pos, m)
    requires FitsNode(js, n) && First(n) == pos
    ensures Laid(js, Past(n), Emit(m, n))
  {
    FitsAppend(js, if m.Bottom? then 0 else m.start + 1, pos, m.kids, n);
  }

  lemma {:induction false} LaidPop(js: string, pos: nat, m: Stack)
    requires m.Open? && Laid(js, pos, m)
    requires pos < |js| && js[pos] == CloseChar(m.kind)
    ensures Laid(js, pos + 1, Pop(m, pos + 1))
  {
    var n := Node(m.kind, m.start, pos + 1, m.kids);
    assert FitsNode(js, n);
    LaidEmit(js, m.start, m.outer, n);
  }

  lemma {:induction false} StepLaid(js: string, pos: nat, m: Stack)
    requires pos < |js| && Laid(js, pos, m)
    requires Step(js, pos, m).Go?
    ensures var r := Step(js, pos, m); Laid(js, r.pos, r.m)
  {
    var c := js[pos];
    if c == '{' {
      LaidPush(js, pos, m, Obj);
    } else if c == '[' {
      LaidPush(js, pos, m, Arr);
    } else if c == '}' || c == ']' {
      LaidPop(js, pos, m);
    } else if c == '"' {
      LaidEmit(js, pos, m, Node(Str, pos + 1, StrEnd(js, pos + 1).pos, []));
    } else if Skipped(c) {
      LaidSkip(js, pos, m);
    } else {
      LaidEmit(js, pos, m, Node(Prim, pos, PrimEnd(js, pos + 1), []));
    }
  }

  lemma {:induction false} LaidPush(js: string, pos: nat, m: Stack, kind: Kind)
    requires pos < |js| && Laid(js, pos, m) && Container(kind) && js[pos] == OpenChar(kind)
    ensures Laid(js, pos + 1, Push(m, kind, pos))
  {
    assert Fits(js, pos + 1, pos + 1, []);
  }

  lemma {:induction false} LaidSkip(js: string, pos: nat, m: Stack)
    requires pos < |js| && Laid(js, pos, m) && Skipped(js[pos])
    ensures Laid(js, pos + 1, m)
  {
    FitsExtend(js, if m.Bottom? then 0 else m.start + 1, pos, pos + 1, m.kids);
  }

  lemma {:induction false} RunLaid(js: string, pos: nat, m: Stack)
    requires pos <= |js| && Laid(js, pos, m)
    ensures var r := Run(js, pos, m); r.Go? ==> Laid(js, |js|, r.m)
    decreases |js| - pos
  {
    if pos < |js| {
      var r := Step(js, pos, m);
      if r.Go? {
        StepLaid(js, pos, m);
        RunLaid(js, r.pos, r.m);
      }
    }
  }

  // ---- Every layout is computed: completeness

  lemma {:induction false} RunSkips(js: string, lo: nat, hi: nat, m: Stack)
    requires lo <= hi <= |js| && AllSkipped(js, lo, hi)
    ensures Run(js, lo, m) == Run(js, hi, m)
    decreases hi - lo
  {
    if lo < hi {
      assert Skipped(js[lo]);
      RunSkips(js, lo + 1, hi, m);
    }
  }

  function EmitAll(m: Stack, nodes: seq<Node>): Stack {
    m.(kids := m.kids + nodes)
  }

  lemma {:induction false} RunLeaf(js: string, n: Node, m: Stack)
    requires FitsNode(js, n) && !Container(n.kind)
    ensures Run(js, First(n), m) == Run(js, Past(n), Emit(m, n))
  {
    if n.kind.Prim? {
      PrimEndUnique(js, n.start + 1, n.end);
    } else {
      StrEndUnique(js, n.start, n.end);
    }
    assert Step(js, First(n), m) == Go(Emit(m, n), Past(n));
  }

  lemma {:induction false} RunNode(js: string, n: Node, m: Stack)
    requires FitsNode(js, n)
    ensures Run(js, First(n), m) == Run(js, Past(n), Emit(m, n))
    decreases n, 1
  {
    if !Container(n.kind) {
      RunLeaf(js, n, m);
    } else {
      var open := Push(m, n.kind, n.start);
      var full := EmitAll(open, n.kids);
      assert Step(js, n.start, m) == Go(open, n.start + 1);
      RunFits(js, n.start + 1, n.end - 1, n.kids, open);
      assert full.kids == n.kids;
      assert Step(js, n.end - 1, full) == Go(Emit(m, n), n.end);
    }
  }

  lemma {:induction false} RunFits(js: string, lo: int, hi: int, nodes: seq<Node>, m: Stack)
    requires Fits(js, lo, hi, nodes)
    ensures Run(js, lo, m) == Run(js, hi, EmitAll(m, nodes))
    decreases nodes, 0
  {
    if nodes == [] {
      RunSkips(js, lo, hi, m);
      assert m.kids + nodes == m.kids;
    } else {
      var n := nodes[0];
      FitsFirst(js, lo, hi, nodes, n);
      RunSkips(js, lo, First(n), m);
      RunNode(js, n, m);
      RunFits(js, Past(n), hi, nodes[1..], Emit(m, n));
      EmitFirst(m, nodes);
    }
  }

  lemma {:induction false} FitsFirst(js: string, lo: int, hi: int, nodes: seq<Node>, n: Node)
    requires Fits(js, lo, hi, nodes) && nodes != [] && n == nodes[0]
    ensures 0 <= lo <= First(n) <= Past(n) <= hi <= |js| && FitsNode(js, n)
    ensures AllSkipped(js, lo, First(n)) && Fits(js, Past(n), hi, nodes[1..])
  {
  }

  lemma {:induction false} EmitFirst(m: Stack, nodes: seq<Node>)
    requires nodes != []
    ensures EmitAll(Emit(m, nodes[0]), nodes[1..]) == EmitAll(m, nodes)
  {
    assert m.kids + [nodes[0]] + nodes[1..] == m.kids + nodes;
  }

  /** The one-pass machine accepts exactly the texts that have a layout, and
      computes it; in particular a text has at most one. */
  lemma {:induction false} ForestIffFits(js: string, nodes: seq<Node>)
    ensures Forest(js) == Trees(nodes) <==> Fits(js, 0, |js|, nodes)
  {
    assert Laid(js, 0, START);
    RunLaid(js, 0, START);
    if Fits(js, 0, |js|, nodes) {
      RunFits(js, 0, |js|, nodes, START);
      assert [] + nodes == nodes;
    }
  }
}
