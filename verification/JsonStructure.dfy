/** The structure of the token array of any text the parser accepts: subtrees
    are index intervals, parent links climb them, and spans nest as they do. */
module JsonStructure {
  import opened JsonTokens
  import opened JsonGrammar

  // ---- Subtrees

  /** Two subtrees are nested or disjoint. */
  lemma {:induction false} Laminar(nodes: seq<Node>, base: nat, p: nat, q: nat)
    requires base <= p <= q < base + Count(nodes)
    ensures q < SubtreeEnd(nodes, base, p) ==> SubtreeEnd(nodes, base, q) <= SubtreeEnd(nodes, base, p)
  {
    var next := base + 1 + Count(nodes[0].kids);
    if p >= next {
      Laminar(nodes[1..], next, p, q);
    } else if p > base && q < next {
      Laminar(nodes[0].kids, base + 1, p, q);
    }
  }

  /** Inside a subtree parent links stay inside. */
  lemma {:induction false} ParentInside(nodes: seq<Node>, parent: int, base: nat, p: nat, q: nat)
    requires parent < base <= p < q < base + Count(nodes) && q < SubtreeEnd(nodes, base, p)
    ensures p <= ParentOf(nodes, parent, base, q) < q
  {
    var next := base + 1 + Count(nodes[0].kids);
    if p >= next {
      TokInRest(nodes, parent, base, q, next);
      ParentInside(nodes[1..], parent, next, p, q);
    } else {
      InFirst(nodes, base, p, q);
      TokInKids(nodes, parent, base, q, nodes[0].kids);
      if p > base {
        ParentInside(nodes[0].kids, base, base + 1, p, q);
      } else {
        ParentsEnclose(nodes[0].kids, base, base + 1, q);
      }
    }
  }

  lemma {:induction false} InFirst(nodes: seq<Node>, base: nat, p: nat, q: nat)
    requires base <= p < q < base + Count(nodes) && p < base + 1 + Count(nodes[0].kids) && q < SubtreeEnd(nodes, base, p)
    ensures q < base + 1 + Count(nodes[0].kids)
    ensures p > base ==> SubtreeEnd(nodes, base, p) == SubtreeEnd(nodes[0].kids, base + 1, p)
  {
  }

  /** Climbing parent links from `q` reaches `p`. */
  predicate Descends(nodes: seq<Node>, p: nat, q: int)
    requires q < Count(nodes)
    decreases q
  {
    q == p || (q > p && ParentOf(nodes, -1, 0, q) < q && Descends(nodes, p, ParentOf(nodes, -1, 0, q)))
  }

  /** The tokens below a token are exactly those of a contiguous range after it. */
  lemma {:induction false} SubtreeIsDescendants(nodes: seq<Node>, p: nat, q: int)
    requires p < Count(nodes) && q < Count(nodes)
    ensures Descends(nodes, p, q) <==> p <= q < SubtreeEnd(nodes, 0, p)
    decreases q
  {
    if q > p {
      ParentsEnclose(nodes, -1, 0, q);
      var r := ParentOf(nodes, -1, 0, q);
      SubtreeIsDescendants(nodes, p, r);
      if q < SubtreeEnd(nodes, 0, p) {
        ParentInside(nodes, -1, 0, p, q);
      } else if r >= p {
        Laminar(nodes, 0, p, r);
      }
    }
  }

  // ---- Spans

  /** The span of a token lies inside the text its list of values covers. */
  lemma {:induction false} SpanInside(js: string, lo: int, hi: int, nodes: seq<Node>, parent: int, base: nat, q: nat)
    requires Fits(js, lo, hi, nodes) && base <= q < base + Count(nodes)
    ensures var t := TokAt(nodes, parent, base, q); lo <= t.start <= t.end <= hi
    decreases nodes
  {
    var n, next := nodes[0], base + 1 + Count(nodes[0].kids);
    if q >= next {
      TokInRest(nodes, parent, base, q, next);
      SpanInside(js, Past(n), hi, nodes[1..], parent, next, q);
    } else if q > base {
      TokInKids(nodes, parent, base, q, n.kids);
      SpanInside(js, n.start + 1, n.end - 1, n.kids, base, base + 1, q);
    } else {
      TokOfRoot(nodes, parent, base);
    }
  }

  /** `u` lies inside `t`, or behind it. */
  predicate SpansAgree(t: Tok, u: Tok, below: bool) {
    if below then t.start <= u.start && u.end <= t.end else t.end <= u.start
  }

  /** The tokens of the first value end where it ends, and those of the later
      values start behind it. */
  lemma {:induction false} SpanOfFirst(js: string, lo: int, hi: int, nodes: seq<Node>, parent: int, base: nat, p: nat)
    requires Fits(js, lo, hi, nodes) && nodes != [] && base <= p < base + 1 + Count(nodes[0].kids)
    ensures TokAt(nodes, parent, base, p).end <= Past(nodes[0])
  {
    var n := nodes[0];
    if p == base {
      TokOfRoot(nodes, parent, base);
    } else {
      TokInKids(nodes, parent, base, p, n.kids);
      SpanInside(js, n.start + 1, n.end - 1, n.kids, base, base + 1, p);
    }
  }

  lemma {:induction false} SpanOfLater(js: string, lo: int, hi: int, nodes: seq<Node>, parent: int, base: nat, q: nat)
    requires Fits(js, lo, hi, nodes) && nodes != [] && base + 1 + Count(nodes[0].kids) <= q < base + Count(nodes)
    ensures Past(nodes[0]) <= TokAt(nodes, parent, base, q).start
  {
    var next := base + 1 + Count(nodes[0].kids);
    TokInRest(nodes, parent, base, q, next);
    SpanInside(js, Past(nodes[0]), hi, nodes[1..], parent, next, q);
  }

  lemma {:induction false} SpansApart(js: string, lo: int, hi: int, nodes: seq<Node>, parent: int, base: nat, p: nat, q: nat)
    requires Fits(js, lo, hi, nodes) && nodes != []
    requires base <= p < base + 1 + Count(nodes[0].kids) <= q < base + Count(nodes)
    ensures q >= SubtreeEnd(nodes, base, p)
    ensures SpansAgree(TokAt(nodes, parent, base, p), TokAt(nodes, parent, base, q), false)
  {
    SpanOfFirst(js, lo, hi, nodes, parent, base, p);
    SpanOfLater(js, lo, hi, nodes, parent, base, q);
  }

  /** A token and the first value it belongs to. */
  lemma {:induction false} SpanOfRoot(js: string, lo: int, hi: int, nodes: seq<Node>, parent: int, base: nat, q: nat)
    requires Fits(js, lo, hi, nodes) && base < q < base + Count(nodes) && q < base + 1 + Count(nodes[0].kids)
    ensures SpansAgree(TokAt(nodes, parent, base, base), TokAt(nodes, parent, base, q), true)
  {
    var n := nodes[0];
    TokOfRoot(nodes, parent, base);
    TokInKids(nodes, parent, base, q, n.kids);
    SpanInside(js, n.start + 1, n.end - 1, n.kids, base, base + 1, q);
  }

  /** Spans nest and follow as subtrees do. */
  lemma {:induction false} SpansLaminar(js: string, lo: int, hi: int, nodes: seq<Node>, parent: int, base: nat, p: nat, q: nat)
    requires Fits(js, lo, hi, nodes) && base <= p < q < base + Count(nodes)
    ensures SpansAgree(TokAt(nodes, parent, base, p), TokAt(nodes, parent, base, q), q < SubtreeEnd(nodes, base, p))
    decreases nodes
  {
    var n, next := nodes[0], base + 1 + Count(nodes[0].kids);
    if p >= next {
      TokInRest(nodes, parent, base, p, next);
      TokInRest(nodes, parent, base, q, next);
      SpansLaminar(js, Past(n), hi, nodes[1..], parent, next, p, q);
    } else if q >= next {
      SpansApart(js, lo, hi, nodes, parent, base, p, q);
    } else if p > base {
      TokInKids(nodes, parent, base, p, n.kids);
      TokInKids(nodes, parent, base, q, n.kids);
      SpansLaminar(js, n.start + 1, n.end - 1, n.kids, base, base + 1, p, q);
    } else {
      SpanOfRoot(js, lo, hi, nodes, parent, base, q);
    }
  }

  /** For any bytes the parser accepts, every token: its parent comes first,
      `size` counts its children, and it is closed and lies in the text. */
  lemma {:induction false} AcceptedTokens(js: string, nodes: seq<Node>, q: nat)
    requires Forest(js) == Trees(nodes) && q < Count(nodes)
    ensures var t := Flatten(nodes, -1, 0)[q];
            && -1 <= t.parent < q && t.size == ChildrenOf(Flatten(nodes, -1, 0), q)
            && 0 <= t.start <= t.end <= |js|
  {
    ForestIffFits(js, nodes);
    ParentsEnclose(nodes, -1, 0, q);
    SizeIsChildCount(nodes, -1, 0, q);
    SpanInside(js, 0, |js|, nodes, -1, 0, q);
  }

  /** And every two tokens: the later one's span is inside the earlier one's
      exactly when it is below it, and behind it otherwise. */
  lemma {:induction false} AcceptedPairs(js: string, nodes: seq<Node>, p: nat, q: nat)
    requires Forest(js) == Trees(nodes) && p < q < Count(nodes)
    ensures SpansAgree(Flatten(nodes, -1, 0)[p], Flatten(nodes, -1, 0)[q], Descends(nodes, p, q))
  {
    ForestIffFits(js, nodes);
    SubtreeIsDescendants(nodes, p, q);
    SpansLaminar(js, 0, |js|, nodes, -1, 0, p, q);
    assert TokAt(nodes, -1, 0, p) == Flatten(nodes, -1, 0)[p] && TokAt(nodes, -1, 0, q) == Flatten(nodes, -1, 0)[q];
  }
}
