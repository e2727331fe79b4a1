/** `json_parse` of shared/wfb_json.h: one pass, no recursion, tokens written in
    place into the caller's array. */
module JsonParser {
  import opened JsonTokens
  import opened JsonGrammar

  // ---- The token array of an unfinished parse

  /** The tokens of a stack whose innermost level has `extra` open containers
      (0 or 1) inside it: an open container has end -1 and counts that one. */
  function Toks(m: Stack, extra: nat): (ts: seq<Tok>)
    ensures |ts| == TokCount(m)
    decreases m, 1
  {
    Head(m, extra) + Flatten(m.kids, Super(m), Super(m) + 1)
  }

  /** Everything up to and including the innermost container's own token. */
  function Head(m: Stack, extra: nat): (ts: seq<Tok>)
    ensures |ts| == Super(m) + 1
    decreases m, 0
  {
    match m
    case Bottom(_) => []
    case Open(kids, kind, start, outer) =>
      Toks(outer, 1) + [Tok(kind, start, -1, |kids| + extra, Super(outer))]
  }

  function TokCount(m: Stack): nat {
    Count(m.kids) + if m.Bottom? then 0 else 1 + TokCount(m.outer)
  }

  /** The index of the innermost open container (`super`), -1 for none. */
  function Super(m: Stack): int {
    if m.Bottom? then -1 else TokCount(m.outer)
  }

  /** `t` appended under the token with index `s`, or at top level. */
  function Under(ts: seq<Tok>, s: int, t: Tok): seq<Tok> {
    (if 0 <= s < |ts| then ts[s := ts[s].(size := ts[s].size + 1)] else ts) + [t]
  }

  /** The innermost open container's own token. */
  lemma {:induction false} SuperTok(m: Stack)
    requires m.Open?
    ensures var s := Super(m);
            && 0 <= s < TokCount(m)
            && Toks(m, 0)[s] == Tok(m.kind, m.start, -1, |m.kids|, Super(m.outer))
  {
  }

  lemma {:induction false} ToksSplit(m: Stack, extra: nat, s: int)
    requires s == Super(m)
    ensures Toks(m, extra) == Head(m, extra) + Flatten(m.kids, s, s + 1)
  {
  }

  /** One more finished kid counts as much as one open kid. */
  lemma {:induction false} HeadOfEmit(m: Stack, n: Node)
    ensures Super(Emit(m, n)) == Super(m)
    ensures Head(Emit(m, n), 0) == Head(m, 1)
    ensures m.Open? ==>
              var open := Tok(m.kind, m.start, -1, |m.kids|, Super(m.outer));
              && Head(m, 0) == Toks(m.outer, 1) + [open]
              && Head(Emit(m, n), 0) == Toks(m.outer, 1) + [open.(size := open.size + 1)]
  {
  }

  /** Adding one childless token under the innermost container: the container's
      size goes up and the token is appended with it as its parent. */
  lemma {:induction false} EmitToks(m: Stack, n: Node)
    requires n.kids == []
    ensures Super(Emit(m, n)) == Super(m)
    ensures Toks(Emit(m, n), 0) == Under(Toks(m, 0), Super(m), NodeTok(n, Super(m)))
  {
    var s, t := Super(m), NodeTok(n, Super(m));
    var inner := Flatten(m.kids, s, s + 1);
    FlattenLeaf(m.kids, n, s, s + 1);
    HeadOfEmit(m, n);
    ToksSplit(m, 0, s);
    ToksSplit(Emit(m, n), 0, s);
    if m.Open? {
      var open := Tok(m.kind, m.start, -1, |m.kids|, Super(m.outer));
      EmitShape(Toks(m.outer, 1), open, inner, Flatten(m.kids + [n], s, s + 1), Toks(m, 0), Toks(Emit(m, n), 0), t);
    }
  }

  lemma {:induction false} EmitShape(head: seq<Tok>, open: Tok, inner: seq<Tok>, inner': seq<Tok>, ts: seq<Tok>, ts': seq<Tok>, t: Tok)
    requires ts == head + [open] + inner && inner' == inner + [t]
    requires ts' == head + [open.(size := open.size + 1)] + inner'
    ensures ts' == Under(ts, |head|, t)
  {
  }

  lemma {:induction false} UnderInside(head: seq<Tok>, open: Tok, inner: seq<Tok>, t: Tok)
    ensures Under(head + [open] + inner, |head|, t) == head + [open.(size := open.size + 1)] + (inner + [t])
  {
  }

  lemma {:induction false} PushToks(m: Stack, k: Kind, start: nat)
    ensures Super(Push(m, k, start)) == TokCount(m)
    ensures Toks(Push(m, k, start), 0) == Under(Toks(m, 0), Super(m), Tok(k, start, -1, 0, Super(m)))
  {
    var t := Tok(k, start, -1, 0, Super(m));
    assert Toks(Push(m, k, start), 0) == Toks(m, 1) + [t];
    if m.Open? {
      var i := TokCount(m.outer);
      UnderInside(Toks(m.outer, 1), Toks(m, 0)[i], Flatten(m.kids, i, i + 1), t);
    }
  }

  /** Closing the innermost container only fills in its `end`. */
  lemma {:induction false} PopToks(m: Stack, end: nat)
    requires m.Open?
    ensures 0 <= Super(m) < TokCount(m)
    ensures var ts, s := Toks(m, 0), Super(m);
            && Super(Pop(m, end)) == ts[s].parent
            && Toks(Pop(m, end), 0) == ts[s := ts[s].(end := end)]
  {
    var i := TokCount(m.outer);
    var n := Node(m.kind, m.start, end, m.kids);
    var open := Tok(m.kind, m.start, -1, |m.kids|, Super(m.outer));
    var inner := Flatten(m.kids, i, i + 1);
    CloseShape(Toks(m.outer, 1), open, inner, end);
    AppendNode(m.outer, n);
  }

  lemma {:induction false} CloseShape(head: seq<Tok>, open: Tok, inner: seq<Tok>, end: int)
    ensures var ts := head + [open] + inner;
            ts[|head|] == open && ts[|head| := open.(end := end)] == head + [open.(end := end)] + inner
  {
  }

  /** A finished value after finished siblings takes the place of an open one. */
  lemma {:induction false} AppendNode(m: Stack, n: Node)
    ensures var i := TokCount(m);
            Toks(Emit(m, n), 0) == Toks(m, 1) + [NodeTok(n, Super(m))] + Flatten(n.kids, i, i + 1)
  {
    var i, s := TokCount(m), Super(m);
    FlattenLast(m.kids, n, s, s + 1, i);
    HeadOfEmit(m, n);
    ToksSplit(m, 1, s);
    ToksSplit(Emit(m, n), 0, s);
    AppendShape(Head(m, 1), Flatten(m.kids, s, s + 1), [NodeTok(n, s)], Flatten(n.kids, i, i + 1),
                Flatten(m.kids + [n], s, s + 1), Toks(m, 1), Toks(Emit(m, n), 0));
  }

  lemma {:induction false} AppendShape(head: seq<Tok>, b: seq<Tok>, c: seq<Tok>, d: seq<Tok>, bcd: seq<Tok>, before: seq<Tok>, after: seq<Tok>)
    requires bcd == b + c + d && before == head + b && after == head + bcd
    ensures after == before + c + d
  {
  }

  lemma {:induction false} FlattenLast(nodes: seq<Node>, n: Node, parent: int, base: nat, i: nat)
    requires i == base + Count(nodes)
    ensures Flatten(nodes + [n], parent, base)
            == Flatten(nodes, parent, base) + [NodeTok(n, parent)] + Flatten(n.kids, i, i + 1)
  {
    FlattenConcat(nodes, [n], parent, base);
    assert Flatten([n], parent, i) == [NodeTok(n, parent)] + Flatten(n.kids, i, i + 1) by { assert [n][1..] == []; }
  }

  /** A childless value adds one token after its finished siblings. */
  lemma {:induction false} FlattenLeaf(nodes: seq<Node>, n: Node, parent: int, base: nat)
    requires n.kids == []
    ensures Flatten(nodes + [n], parent, base) == Flatten(nodes, parent, base) + [NodeTok(n, parent)]
  {
    FlattenLast(nodes, n, parent, base, base + Count(nodes));
    assert Flatten(n.kids, base + Count(nodes), base + Count(nodes) + 1) == [];
  }

  /** What one turn of the main loop does to the number of tokens. */
  lemma {:induction false} StepCount(js: string, pos: nat, m: Stack)
    requires pos < |js|
    ensures var c := js[pos];
            Step(js, pos, m).Go? ==>
              TokCount(Step(js, pos, m).m) == TokCount(m) + if Skipped(c) || c == '}' || c == ']' then 0 else 1
  {
    var c := js[pos];
    if Step(js, pos, m).Rejected? {
    } else if c == '}' || c == ']' {
      EmitCount(m.outer, Node(m.kind, m.start, pos + 1, m.kids));
    } else if c == '"' {
      EmitCount(m, Node(Str, pos + 1, StrEnd(js, pos + 1).pos, []));
    } else if !Skipped(c) && c != '{' && c != '[' {
      EmitCount(m, Node(Prim, pos, PrimEnd(js, pos + 1), []));
    }
  }

  lemma {:induction false} EmitCount(m: Stack, n: Node)
    ensures TokCount(Emit(m, n)) == TokCount(m) + 1 + Count(n.kids)
  {
    CountConcat(m.kids, [n]);
    assert [n][1..] == [];
  }

  /** Tokens are never given back. */
  lemma {:induction false} RunGrows(js: string, pos: nat, m: Stack)
    requires pos <= |js|
    ensures var r := Run(js, pos, m); r.Go? ==> TokCount(r.m) >= TokCount(m)
    decreases |js| - pos
  {
    if pos < |js| {
      var r := Step(js, pos, m);
      if r.Go? {
        StepCount(js, pos, m);
        RunGrows(js, r.pos, r.m);
      }
    }
  }

  predicate ParentsPrecede(ts: seq<Tok>) {
    forall i :: 0 <= i < |ts| ==> ts[i].parent < i
  }

  /** The nearest token from `s` upwards that has no end yet. */
  function FirstOpen(ts: seq<Tok>, s: int): int
    requires ParentsPrecede(ts) && s < |ts|
    decreases s
  {
    if s < 0 || ts[s].end == -1 then s else FirstOpen(ts, ts[s].parent)
  }

  lemma {:induction false} ToksParents(m: Stack, extra: nat)
    ensures ParentsPrecede(Toks(m, extra))
    decreases m
  {
    var s := Super(m);
    FlattenParents(m.kids, s, s + 1);
    if m.Open? {
      ToksParents(m.outer, 1);
      var ts, head := Toks(m, extra), Toks(m.outer, 1);
      assert |head| == s;
      forall i | 0 <= i < |ts| ensures ts[i].parent < i {
        if i < s {
          assert ts[i] == head[i];
        } else if i > s {
          assert ts[i] == Flatten(m.kids, s, s + 1)[i - s - 1];
        }
      }
    } else {
      assert Toks(m, extra) == Flatten(m.kids, -1, 0);
    }
  }

  lemma {:induction false} FlattenParents(nodes: seq<Node>, parent: int, base: nat)
    requires parent < base
    ensures var ts := Flatten(nodes, parent, base);
            forall i :: 0 <= i < |ts| ==> ts[i].parent < base + i
  {
    var ts := Flatten(nodes, parent, base);
    forall i | 0 <= i < |ts| ensures ts[i].parent < base + i {
      ParentsEnclose(nodes, parent, base, base + i);
      assert ParentOf(nodes, parent, base, base + i) == ts[i].parent;
    }
  }

  /** A container around the one just closed is always still open. */
  lemma {:induction false} EnclosingOpen(m: Stack)
    requires ParentsPrecede(Toks(m, 0))
    ensures Super(m) < TokCount(m) && FirstOpen(Toks(m, 0), Super(m)) == Super(m)
  {
    if m.Open? {
      SuperTok(m);
    }
  }

  // ---- The tokenizer

  class Parser {
    const js: string
    const toks: array<Tok>
    const max: nat
    var pos: nat
    var count: nat
    var super: int

    constructor (js: string, toks: array<Tok>, max: nat)
      requires max <= toks.Length
      ensures this.js == js && this.toks == toks && this.max == max
      ensures pos == 0 && Holds(START)
    {
      this.js, this.toks, this.max := js, toks, max;
      pos, count, super := 0, 0, -1;
    }

    /** The array and `super` are those of machine state `m`. */
    ghost predicate Holds(m: Stack)
      reads this, toks
    {
      count <= max <= toks.Length && toks[..count] == Toks(m, 0) && super == Super(m)
    }

    /** `wfb_json_alloc`: the next token, blank, or -1 when all are used. */
    method Alloc() returns (i: int)
      requires count <= max <= toks.Length
      modifies this`count, toks
      ensures if old(count) == max then i == -1 && count == old(count) else i == old(count) && count == i + 1
      ensures i >= 0 ==> toks[i] == Tok(toks[i].kind, -1, -1, 0, -1)
      ensures forall k :: 0 <= k < toks.Length && k != i ==> toks[k] == old(toks[k])
    {
      if count >= max {
        return -1;
      }
      i := count;
      toks[i] := toks[i].(start := -1, end := -1, size := 0, parent := -1);
      count := count + 1;
    }

    /** Append the childless `t` under the innermost container. */
    method Append(t: Tok) returns (i: int)
      requires count <= max <= toks.Length && -1 <= super < count && t.size == 0
      modifies this`count, toks
      ensures if old(count) == max then i == -1 && count == old(count)
              else i == old(count) && count == i + 1
                   && toks[..count] == Under(old(toks[..count]), super, t)
    {
      i := Alloc();
      if i < 0 {
        return;
      }
      toks[i] := toks[i].(kind := t.kind, start := t.start, end := t.end, parent := t.parent);
      assert toks[..i] == old(toks[..count]) && toks[i] == t;
      if super >= 0 {
        toks[super] := toks[super].(size := toks[super].size + 1);
      }
    }

    method ParsePrim(ghost m: Stack) returns (ok: bool)
      requires Holds(m) && pos < |js| && StartsPrim(js[pos])
      modifies this`pos, this`count, toks
      ensures ok <==> old(count) < max
      ensures ok ==> Holds(Emit(m, Node(Prim, old(pos), PrimEnd(js, old(pos) + 1), [])))
      ensures ok ==> pos + 1 == PrimEnd(js, old(pos) + 1)
    {
      var start := pos;
      while pos < |js| && !EndsPrim(js[pos])
        invariant start <= pos <= |js|
        invariant PrimEnd(js, start) == PrimEnd(js, pos)
        invariant Holds(m) && count == old(count)
      {
        pos := pos + 1;
      }
      ghost var n := Node(Prim, start, pos, []);
      EmitToks(m, n);
      var i := Append(Tok(Prim, start, pos, 0, super));
      if i < 0 {
        return false;
      }
      pos := pos - 1;
      return true;
    }

    method ParseStr(ghost m: Stack) returns (ok: bool)
      requires Holds(m) && pos < |js| && js[pos] == '"'
      modifies this`pos, this`count, toks
      ensures ok <==> StrEnd(js, old(pos) + 1).At? && old(count) < max
      ensures ok ==> Holds(Emit(m, Node(Str, old(pos) + 1, StrEnd(js, old(pos) + 1).pos, [])))
      ensures ok ==> pos == StrEnd(js, old(pos) + 1).pos
    {
      pos := pos + 1;
      var start := pos;
      while pos < |js|
        invariant start <= pos
        invariant StrEnd(js, start) == StrEnd(js, pos)
        invariant Holds(m) && count == old(count)
      {
        if js[pos] == '"' {
          EmitToks(m, Node(Str, start, pos, []));
          var i := Append(Tok(Str, start, pos, 0, super));
          return i >= 0;
        }
        if js[pos] == '\\' && pos + 1 < |js| {
          pos := pos + 1;
        }
        pos := pos + 1;
      }
      return false;
    }

    method OpenContainer(ghost m: Stack) returns (ok: bool)
      requires Holds(m) && pos < |js| && (js[pos] == '{' || js[pos] == '[')
      modifies this`count, this`super, toks
      ensures ok <==> old(count) < max
      ensures ok ==> Holds(Push(m, if js[pos] == '{' then Obj else Arr, pos))
    {
      var kind := if js[pos] == '{' then Obj else Arr;
      PushToks(m, kind, pos);
      var i := Append(Tok(kind, pos, -1, 0, super));
      if i < 0 {
        return false;
      }
      super := count - 1;
      return true;
    }

    method CloseContainer(ghost m: Stack) returns (ok: bool)
      requires Holds(m) && pos < |js| && (js[pos] == '}' || js[pos] == ']')
      modifies this`super, toks
      ensures ok <==> m.Open? && m.kind == (if js[pos] == '}' then Obj else Arr)
      ensures ok ==> Holds(Pop(m, pos + 1)) && TokCount(Pop(m, pos + 1)) == TokCount(m)
    {
      var want := if js[pos] == '}' then Obj else Arr;
      if super < 0 {
        return false;
      }
      SuperTok(m);
      if toks[super].kind != want {
        return false;
      }
      MarkClosed(m);
      ClimbToOpen();
      return true;
    }

    method MarkClosed(ghost m: Stack)
      requires Holds(m) && m.Open?
      modifies this`super, toks
      ensures Holds(Pop(m, pos + 1)) && TokCount(Pop(m, pos + 1)) == TokCount(m)
      ensures ParentsPrecede(toks[..count]) && super < count && FirstOpen(toks[..count], super) == super
    {
      ghost var m' := Pop(m, pos + 1);
      PopToks(m, pos + 1);
      ToksParents(m', 0);
      EnclosingOpen(m');
      toks[super] := toks[super].(end := pos + 1);
      super := toks[super].parent;
      assert toks[..count] == Toks(m', 0);
    }

    /** The loop that climbs from the closed container to an open one. */
    method ClimbToOpen()
      requires count <= toks.Length && super < count
      requires ParentsPrecede(toks[..count])
      modifies this`super
      ensures super == FirstOpen(toks[..count], old(super))
    {
      while super >= 0 && toks[super].end != -1
        invariant super < count
        invariant FirstOpen(toks[..count], super) == FirstOpen(toks[..count], old(super))
        decreases super
      {
        super := toks[super].parent;
      }
    }

    /** One turn of the main loop, short of its final `pos++`. */
    method Turn(ghost m: Stack) returns (ok: bool)
      requires Holds(m) && pos < |js| && KindsOk(m)
      modifies this, toks
      ensures ok <==> Step(js, old(pos), m).Go? && TokCount(Step(js, old(pos), m).m) <= max
      ensures ok ==> Holds(Step(js, old(pos), m).m) && pos + 1 == Step(js, old(pos), m).pos
    {
      ok := true;
      var c := js[pos];
      StepCount(js, pos, m);
      if c == '{' || c == '[' {
        ok := OpenContainer(m);
      } else if c == '}' || c == ']' {
        ok := CloseContainer(m);
      } else if c == '"' {
        ok := ParseStr(m);
      } else if !Skipped(c) {
        ok := ParsePrim(m);
      }
    }
  }

  /** json_parse: for every text and token limit, the return value is -1 unless
      the text is a forest of values with at most `max` tokens, and then it is
      the token count and the array holds the forest's pre-order encoding. */
  method JsonParse(js: string, toks: array<Tok>, max: nat) returns (n: int)
    requires max <= toks.Length
    modifies toks
    ensures match Forest(js)
            case Bad => n == -1
            case Trees(nodes) =>
              if Count(nodes) <= max then n == Count(nodes) && toks[..n] == Flatten(nodes, -1, 0) else n == -1
  {
    var p := new Parser(js, toks, max);
    ghost var m := START;
    while p.pos < |js|
      invariant p.pos <= |js| && p.Holds(m) && p.js == js && p.toks == toks && p.max == max
      invariant KindsOk(m)
      invariant Run(js, 0, START) == Run(js, p.pos, m)
      decreases |js| - p.pos
    {
      ghost var step := Step(js, p.pos, m);
      if step.Go? {
        StepKinds(js, p.pos, m);
        RunGrows(js, step.pos, step.m);
      }
      var ok := p.Turn(m);
      if !ok {
        return -1;
      }
      p.pos := p.pos + 1;
      m := step.m;
    }
    if p.super != -1 {
      return -1;
    }
    return p.count;
  }

  ghost predicate KindsOk(m: Stack) {
    m.Open? ==> Container(m.kind) && KindsOk(m.outer)
  }

  lemma {:induction false} StepKinds(js: string, pos: nat, m: Stack)
    requires pos < |js| && Step(js, pos, m).Go? && KindsOk(m)
    ensures KindsOk(Step(js, pos, m).m)
  {
  }
}
