/** The token array of shared/wfb_json.h and the trees it encodes.

    `json_parse` fills a flat array: one token per value, in pre-order, each
    with its span, the number of its children and the index of its parent.
    `Node` is the tree such an array stands for; `Flatten` is the encoding. */
module JsonTokens {

  datatype Kind = Obj | Arr | Str | Prim

  /** One `JTok`. `end` is -1 while a container is open. */
  datatype Tok = Tok(kind: Kind, start: int, end: int, size: int, parent: int)

  /** A parsed value. A string's span excludes its quotes; a container's span
      includes its brackets. Strings and primitives have no kids. */
  datatype Node = Node(kind: Kind, start: nat, end: nat, kids: seq<Node>)

  predicate Container(k: Kind) {
    k.Obj? || k.Arr?
  }

  /** The number of tokens a list of values takes. */
  function Count(nodes: seq<Node>): nat {
    if nodes == [] then 0 else 1 + Count(nodes[0].kids) + Count(nodes[1..])
  }

  function NodeTok(n: Node, parent: int): Tok {
    Tok(n.kind, n.start, n.end, |n.kids|, parent)
  }

  /** The pre-order encoding of sibling values: the first token has index `base`
      and every root's parent is `parent`. */
  function Flatten(nodes: seq<Node>, parent: int, base: nat): (ts: seq<Tok>)
    ensures |ts| == Count(nodes)
  {
    if nodes == [] then []
    else
      [NodeTok(nodes[0], parent)]
      + Flatten(nodes[0].kids, base, base + 1)
      + Flatten(nodes[1..], parent, base + 1 + Count(nodes[0].kids))
  }

  lemma {:induction false} CountConcat(a: seq<Node>, b: seq<Node>)
    ensures Count(a + b) == Count(a) + Count(b)
  {
    if a == [] {
      assert a + b == b;
    } else {
      assert (a + b)[1..] == a[1..] + b;
      CountConcat(a[1..], b);
    }
  }

  lemma {:induction false} FlattenConcat(a: seq<Node>, b: seq<Node>, parent: int, base: nat)
    ensures Flatten(a + b, parent, base) == Flatten(a, parent, base) + Flatten(b, parent, base + Count(a))
    decreases |a|
  {
    if a == [] {
      assert a + b == b;
    } else {
      var n, rest := a[0], a[1..];
      var next := base + 1 + Count(n.kids);
      assert a == [n] + rest && a + b == [n] + (rest + b);
      var head := FlattenCons(n, rest, parent, base, next);
      var _ := FlattenCons(n, rest + b, parent, base, next);
      FlattenConcat(rest, b, parent, next);
      assert Count(a) == 1 + Count(n.kids) + Count(rest);
      ConcatShape(head, Flatten(rest, parent, next), Flatten(b, parent, base + Count(a)), Flatten(rest + b, parent, next));
    }
  }

  lemma {:induction false} FlattenCons(n: Node, rest: seq<Node>, parent: int, base: nat, next: nat) returns (head: seq<Tok>)
    requires next == base + 1 + Count(n.kids)
    ensures head == [NodeTok(n, parent)] + Flatten(n.kids, base, base + 1)
    ensures Flatten([n] + rest, parent, base) == head + Flatten(rest, parent, next)
  {
    head := [NodeTok(n, parent)] + Flatten(n.kids, base, base + 1);
    assert ([n] + rest)[1..] == rest;
  }

  lemma ConcatShape(head: seq<Tok>, a: seq<Tok>, b: seq<Tok>, ab: seq<Tok>)
    requires ab == a + b
    ensures head + ab == head + a + b
  {
  }

  /** Where the subtree of the token at index `p` stops, read off the trees. */
  function SubtreeEnd(nodes: seq<Node>, base: nat, p: nat): (e: nat)
    requires base <= p < base + Count(nodes)
    ensures p < e <= base + Count(nodes)
  {
    var next := base + 1 + Count(nodes[0].kids);
    if p == base then next
    else if p < next then SubtreeEnd(nodes[0].kids, base + 1, p)
    else SubtreeEnd(nodes[1..], next, p)
  }

  /** The token at index `p` of a flattened forest, by where it falls. */
  lemma {:induction false} FlattenAt(nodes: seq<Node>, parent: int, base: nat, p: nat)
    requires base <= p < base + Count(nodes)
    ensures var next := base + 1 + Count(nodes[0].kids);
            Flatten(nodes, parent, base)[p - base]
            == if p == base then NodeTok(nodes[0], parent)
               else if p < next then Flatten(nodes[0].kids, base, base + 1)[p - base - 1]
               else Flatten(nodes[1..], parent, next)[p - next]
  {
  }

  function TokAt(nodes: seq<Node>, parent: int, base: nat, p: nat): Tok
    requires base <= p < base + Count(nodes)
  {
    Flatten(nodes, parent, base)[p - base]
  }

  function ParentOf(nodes: seq<Node>, parent: int, base: nat, p: nat): int
    requires base <= p < base + Count(nodes)
  {
    TokAt(nodes, parent, base, p).parent
  }

  lemma {:induction false} TokInRest(nodes: seq<Node>, parent: int, base: nat, p: nat, next: nat)
    requires nodes != [] && next == base + 1 + Count(nodes[0].kids) <= p < base + Count(nodes)
    ensures p < next + Count(nodes[1..]) && TokAt(nodes, parent, base, p) == TokAt(nodes[1..], parent, next, p)
  {
    FlattenAt(nodes, parent, base, p);
  }

  lemma {:induction false} TokInKids(nodes: seq<Node>, parent: int, base: nat, p: nat, kids: seq<Node>)
    requires nodes != [] && kids == nodes[0].kids && base < p < base + 1 + Count(kids)
    ensures p < base + Count(nodes) && TokAt(nodes, parent, base, p) == TokAt(kids, base, base + 1, p)
  {
    FlattenAt(nodes, parent, base, p);
  }

  lemma {:induction false} TokOfRoot(nodes: seq<Node>, parent: int, base: nat)
    requires nodes != []
    ensures TokAt(nodes, parent, base, base) == NodeTok(nodes[0], parent)
  {
    FlattenAt(nodes, parent, base, base);
  }

  /** Parents precede their children, which lie inside the parent's subtree. */
  lemma {:induction false} ParentsEnclose(nodes: seq<Node>, parent: int, base: nat, p: nat)
    requires base <= p < base + Count(nodes)
    requires parent < base
    ensures var q := ParentOf(nodes, parent, base, p);
            q == parent || (base <= q < p && SubtreeEnd(nodes, base, p) <= SubtreeEnd(nodes, base, q))
  {
    var next := base + 1 + Count(nodes[0].kids);
    if p == base {
      TokOfRoot(nodes, parent, base);
    } else if p < next {
      TokInKids(nodes, parent, base, p, nodes[0].kids);
      ParentsEnclose(nodes[0].kids, base, base + 1, p);
    } else {
      TokInRest(nodes, parent, base, p, next);
      ParentsEnclose(nodes[1..], parent, next, p);
    }
  }

  /** How many of the tokens have `parent` as their parent link. */
  function ChildrenOf(ts: seq<Tok>, parent: int): nat {
    if ts == [] then 0 else (if ts[0].parent == parent then 1 else 0) + ChildrenOf(ts[1..], parent)
  }

  lemma {:induction false} ChildrenConcat(a: seq<Tok>, b: seq<Tok>, parent: int)
    ensures ChildrenOf(a + b, parent) == ChildrenOf(a, parent) + ChildrenOf(b, parent)
  {
    if a == [] {
      assert a + b == b;
    } else {
      assert (a + b)[1..] == a[1..] + b;
      ChildrenConcat(a[1..], b, parent);
    }
  }

  lemma {:induction false} ChildrenCons(nodes: seq<Node>, parent: int, base: nat, next: nat, q: int)
    requires nodes != [] && next == base + 1 + Count(nodes[0].kids)
    ensures ChildrenOf(Flatten(nodes, parent, base), q)
         == (if q == parent then 1 else 0)
            + ChildrenOf(Flatten(nodes[0].kids, base, base + 1), q)
            + ChildrenOf(Flatten(nodes[1..], parent, next), q)
  {
    var head, kids, rest :=
      [NodeTok(nodes[0], parent)], Flatten(nodes[0].kids, base, base + 1), Flatten(nodes[1..], parent, next);
    ChildrenConcat(head + kids, rest, q);
    ChildrenConcat(head, kids, q);
    assert ChildrenOf(head, q) == (if q == parent then 1 else 0) + ChildrenOf(head[1..], q);
  }

  /** Seen from outside its own index range, a sibling list holds one link per
      root to the common parent and no other link. */
  lemma {:induction false} OutsideLinks(nodes: seq<Node>, parent: int, base: nat, q: int)
    requires parent < base && (q < base || base + Count(nodes) <= q)
    ensures ChildrenOf(Flatten(nodes, parent, base), q) == if q == parent then |nodes| else 0
  {
    if nodes != [] {
      var next := base + 1 + Count(nodes[0].kids);
      ChildrenCons(nodes, parent, base, next, q);
      OutsideLinks(nodes[0].kids, base, base + 1, q);
      OutsideLinks(nodes[1..], parent, next, q);
    }
  }

  /** `size` is the child count: the `size` of every token is the number of
      tokens of the array that name it as their parent. */
  lemma {:induction false} SizeIsChildCount(nodes: seq<Node>, parent: int, base: nat, p: nat)
    requires parent < base <= p < base + Count(nodes)
    ensures TokAt(nodes, parent, base, p).size == ChildrenOf(Flatten(nodes, parent, base), p)
  {
    var next := base + 1 + Count(nodes[0].kids);
    ChildrenCons(nodes, parent, base, next, p);
    if p == base {
      TokOfRoot(nodes, parent, base);
      OutsideLinks(nodes[0].kids, base, base + 1, p);
      OutsideLinks(nodes[1..], parent, next, p);
    } else if p < next {
      TokInKids(nodes, parent, base, p, nodes[0].kids);
      OutsideLinks(nodes[1..], parent, next, p);
      SizeIsChildCount(nodes[0].kids, base, base + 1, p);
    } else {
      TokInRest(nodes, parent, base, p, next);
      OutsideLinks(nodes[0].kids, base, base + 1, p);
      SizeIsChildCount(nodes[1..], parent, next, p);
    }
  }
}
