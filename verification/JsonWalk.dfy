/** `jskip` and `jfind` of shared/wfb_json.h: walking the token array with
    nothing but the `size` fields. */
module JsonWalk {
  import opened JsonTokens
  import opened JsonGrammar

  // ---- jskip on any token array

  /** The index after the token at `i` and its descendants, as `jskip` finds
      it. An object is taken as size / 2 pairs, so its odd child is left out. */
  function Skip(ts: seq<Tok>, i: nat): (j: nat)
    ensures if i < |ts| then i < j <= |ts| else j == |ts|
    decreases if i < |ts| then |ts| - i else 0, 0
  {
    if i >= |ts| then |ts|
    else if ts[i].kind.Obj? then SkipMany(ts, i + 1, 2 * (ts[i].size / 2))
    else if ts[i].kind.Arr? then SkipMany(ts, i + 1, ts[i].size)
    else i + 1
  }

  function SkipMany(ts: seq<Tok>, j: nat, m: int): (r: nat)
    ensures j <= |ts| ==> j <= r <= |ts|
    decreases if j < |ts| then |ts| - j else 0, 1 + if m > 0 then m else 0
  {
    if m <= 0 then j else SkipMany(ts, Skip(ts, j), m - 1)
  }

  lemma {:induction false} SkipManySplit(ts: seq<Tok>, j: nat, a: nat, b: nat)
    ensures SkipMany(ts, j, a + b) == SkipMany(ts, SkipMany(ts, j, a), b)
    decreases a
  {
    if a > 0 {
      SkipManySplit(ts, Skip(ts, j), a - 1, b);
    }
  }

  /** jskip terminates on every token array, whatever its sizes say. */
  method JSkip(toks: array<Tok>, n: nat, i: nat) returns (j: nat)
    requires n <= toks.Length
    ensures j == Skip(toks[..n], i)
    decreases if i < n then n - i else 0
  {
    if i >= n {
      return n;
    }
    ghost var ts := toks[..n];
    if toks[i].kind.Obj? {
      var pairs := toks[i].size / 2;
      j := i + 1;
      while pairs > 0
        invariant i < j <= n
        invariant SkipMany(ts, i + 1, 2 * (toks[i].size / 2)) == SkipMany(ts, j, 2 * pairs)
        decreases pairs
      {
        j := JSkip(toks, n, j);
        j := JSkip(toks, n, j);
        pairs := pairs - 1;
      }
      return j;
    }
    if toks[i].kind.Arr? {
      var kids := toks[i].size;
      j := i + 1;
      while kids > 0
        invariant i < j <= n
        invariant SkipMany(ts, i + 1, toks[i].size) == SkipMany(ts, j, kids)
        decreases kids
      {
        j := JSkip(toks, n, j);
        kids := kids - 1;
      }
      return j;
    }
    return i + 1;
  }

  // ---- jskip on parser output

  /** ts holds the encoding of `nodes` from index `base` on. */
  ghost predicate Encodes(ts: seq<Tok>, nodes: seq<Node>, parent: int, base: nat) {
    && base + Count(nodes) <= |ts|
    && (nodes != [] ==>
          && ts[base] == NodeTok(nodes[0], parent)
          && Encodes(ts, nodes[0].kids, base, base + 1)
          && Encodes(ts, nodes[1..], parent, base + 1 + Count(nodes[0].kids)))
  }

  /** Only containers have kids. */
  ghost predicate Shaped(nodes: seq<Node>) {
    nodes != [] ==>
      && (!Container(nodes[0].kind) ==> nodes[0].kids == [])
      && Shaped(nodes[0].kids)
      && Shaped(nodes[1..])
  }

  /** Every object below has an even number of children. */
  ghost predicate AllEven(nodes: seq<Node>) {
    nodes != [] ==>
      && (nodes[0].kind.Obj? ==> |nodes[0].kids| % 2 == 0)
      && AllEven(nodes[0].kids)
      && AllEven(nodes[1..])
  }

  ghost predicate Even(n: Node) {
    (n.kind.Obj? ==> |n.kids| % 2 == 0) && AllEven(n.kids)
  }

  function NodeAt(nodes: seq<Node>, base: nat, p: nat): Node
    requires base <= p < base + Count(nodes)
  {
    var next := base + 1 + Count(nodes[0].kids);
    if p == base then nodes[0]
    else if p < next then NodeAt(nodes[0].kids, base + 1, p)
    else NodeAt(nodes[1..], next, p)
  }

  lemma {:induction false} FitsShaped(js: string, lo: int, hi: int, nodes: seq<Node>)
    requires Fits(js, lo, hi, nodes)
    ensures Shaped(nodes)
    decreases nodes
  {
    if nodes != [] {
      var n := nodes[0];
      if Container(n.kind) {
        FitsShaped(js, n.start + 1, n.end - 1, n.kids);
      }
      FitsShaped(js, Past(n), hi, nodes[1..]);
    }
  }

  /** The array `json_parse` fills is such an encoding. */
  lemma {:induction false} FlattenEncodes(ts: seq<Tok>, nodes: seq<Node>, parent: int, base: nat)
    requires base + Count(nodes) <= |ts| && ts[base..base + Count(nodes)] == Flatten(nodes, parent, base)
    ensures Encodes(ts, nodes, parent, base)
  {
    if nodes != [] {
      var next := base + 1 + Count(nodes[0].kids);
      SliceShape(ts, base, NodeTok(nodes[0], parent),
                 Flatten(nodes[0].kids, base, base + 1), Flatten(nodes[1..], parent, next));
      FlattenEncodes(ts, nodes[0].kids, base, base + 1);
      FlattenEncodes(ts, nodes[1..], parent, next);
    }
  }

  lemma SliceShape(ts: seq<Tok>, base: nat, t: Tok, kids: seq<Tok>, rest: seq<Tok>)
    requires var n := 1 + |kids| + |rest|; base + n <= |ts| && ts[base..base + n] == [t] + kids + rest
    ensures ts[base] == t
    ensures ts[base + 1..base + 1 + |kids|] == kids
    ensures ts[base + 1 + |kids|..base + 1 + |kids| + |rest|] == rest
  {
    var all := ts[base..base + 1 + |kids| + |rest|];
    assert forall i :: 0 <= i < |all| ==> ts[base + i] == all[i];
    forall i | 0 <= i < |kids| ensures ts[base + 1 + i] == kids[i] {
      assert all[1 + i] == kids[i];
    }
    forall i | 0 <= i < |rest| ensures ts[base + 1 + |kids| + i] == rest[i] {
      assert all[1 + |kids| + i] == rest[i];
    }
    assert ts[base] == all[0];
  }

  lemma {:induction false} CountPrefix(nodes: seq<Node>, m: nat)
    requires m <= |nodes|
    ensures Count(nodes[..m]) <= Count(nodes)
    ensures Count(nodes[..m]) == Count(nodes) <==> m == |nodes|
    ensures m + 1 < |nodes| ==> Count(nodes[..m]) + 2 <= Count(nodes)
  {
    CountConcat(nodes[..m], nodes[m..]);
    assert nodes[..m] + nodes[m..] == nodes;
    if m + 1 < |nodes| {
      assert nodes[m..][1..] == nodes[m + 1..];
    }
  }

  /** On parser output, jskip never passes the end of the subtree, and reaches
      it exactly when no object in the subtree has an odd child. */
  lemma {:induction false} SkipExactIffEven(ts: seq<Tok>, nodes: seq<Node>, parent: int, base: nat, p: nat)
    requires Encodes(ts, nodes, parent, base) && Shaped(nodes)
    requires base <= p < base + Count(nodes)
    ensures Skip(ts, p) <= SubtreeEnd(nodes, base, p)
    ensures Skip(ts, p) == SubtreeEnd(nodes, base, p) <==> Even(NodeAt(nodes, base, p))
    decreases nodes, 0
  {
    var n := nodes[0];
    var next := base + 1 + Count(n.kids);
    if p == base {
      if Container(n.kind) {
        var m := if n.kind.Obj? then 2 * (|n.kids| / 2) else |n.kids|;
        SkipSiblings(ts, n.kids, base, base + 1, base + 1, base + 1, m);
        CountPrefix(n.kids, m);
        assert n.kids[..|n.kids|] == n.kids;
      }
    } else if p < next {
      SkipExactIffEven(ts, n.kids, base, base + 1, p);
    } else {
      SkipExactIffEven(ts, nodes[1..], parent, next, p);
    }
  }

  /** Skipping m siblings from a position at or before the first of them: once
      behind, the walk stays behind. */
  lemma {:induction false} SkipSiblings(ts: seq<Tok>, sibs: seq<Node>, parent: int, b: nat, lo: nat, p: nat, m: nat)
    requires Encodes(ts, sibs, parent, b) && Shaped(sibs)
    requires m <= |sibs| && lo <= p <= b
    requires forall x :: lo <= x < b ==> Skip(ts, x) <= b
    ensures SkipMany(ts, p, m) <= b + Count(sibs[..m])
    ensures SkipMany(ts, p, m) == b + Count(sibs[..m]) <==> p == b && AllEven(sibs[..m])
    decreases sibs, 1
  {
    if m > 0 {
      var next := b + 1 + Count(sibs[0].kids);
      forall x | b <= x < next ensures Skip(ts, x) <= next {
        SkipExactIffEven(ts, sibs, parent, b, x);
      }
      SkipExactIffEven(ts, sibs, parent, b, b);
      assert sibs[..m][1..] == sibs[1..][..m - 1];
      SkipSiblings(ts, sibs[1..], parent, next, lo, Skip(ts, p), m - 1);
    }
  }

  // ---- jfind

  /** jeq: a string token whose text is `key`. */
  predicate Jeq(js: string, t: Tok, key: string) {
    t.kind.Str? && 0 <= t.start <= t.end <= |js| && js[t.start..t.end] == key
  }

  /** jfind's walk: the index after the first matching key, or -1. */
  function FindFrom(js: string, ts: seq<Tok>, i: nat, pairs: int, key: string): int
    decreases pairs
  {
    if pairs <= 0 || i >= |ts| then -1
    else if Jeq(js, ts[i], key) then i + 1
    else FindFrom(js, ts, Skip(ts, Skip(ts, i)), pairs - 1, key)
  }

  function Find(js: string, ts: seq<Tok>, obj: int, key: string): int {
    if obj < 0 || obj >= |ts| || !ts[obj].kind.Obj? then -1
    else FindFrom(js, ts, obj + 1, ts[obj].size / 2, key)
  }

  lemma {:induction false} FindNeedsObject(js: string, ts: seq<Tok>, obj: int, key: string)
    requires 0 <= obj < |ts| ==> ts[obj].kind != Obj
    ensures Find(js, ts, obj, key) == -1
  {
  }

  /** First-match key lookup on the tree: children 0, 2, 4, ... are the keys.
      The result is the index of the value's token. */
  function Lookup(js: string, kids: seq<Node>, base: nat, key: string): int {
    if |kids| < 2 then -1
    else
      var value := base + 1 + Count(kids[0].kids);
      if Jeq(js, NodeTok(kids[0], 0), key) then value
      else Lookup(js, kids[2..], value + 1 + Count(kids[1].kids), key)
  }

  /** jfind on parser output reads only tokens below n and returns -1 or an
      index inside the object's own subtree. */
  method JFind(js: string, toks: array<Tok>, n: nat, obj: int, key: string, ghost nodes: seq<Node>) returns (r: int)
    requires n <= toks.Length
    requires Encodes(toks[..n], nodes, -1, 0) && n == Count(nodes) && Shaped(nodes)
    ensures r == Find(js, toks[..n], obj, key)
    ensures r == -1 || (0 <= obj < r < SubtreeEnd(nodes, 0, obj) <= n)
  {
    if obj < 0 || obj >= n || !toks[obj].kind.Obj? {
      return -1;
    }
    EncodesAt(toks[..n], nodes, -1, 0, obj);
    r := FindPair(js, toks, n, obj, key, NodeAt(nodes, 0, obj).kids);
  }

  /** The pair loop of jfind. */
  method FindPair(js: string, toks: array<Tok>, n: nat, obj: nat, key: string, ghost kids: seq<Node>) returns (r: int)
    requires obj < n <= toks.Length && toks[obj].size == |kids|
    requires Encodes(toks[..n], kids, obj, obj + 1) && Shaped(kids)
    ensures r == FindFrom(js, toks[..n], obj + 1, toks[obj].size / 2, key)
    ensures r == -1 || obj < r < obj + 1 + Count(kids) <= n
  {
    ghost var ts := toks[..n];
    var pairs := toks[obj].size / 2;
    var i := obj + 1;
    var k := 0;
    while k < pairs
      invariant 0 <= k <= pairs
      invariant i == SkipMany(ts, obj + 1, 2 * k)
      invariant FindFrom(js, ts, obj + 1, pairs, key) == FindFrom(js, ts, i, pairs - k, key)
    {
      assert obj < i && i + 1 < obj + 1 + Count(kids) <= n by { PairInside(ts, kids, obj, k, i); }
      assert SkipMany(ts, obj + 1, 2 * (k + 1)) == Skip(ts, Skip(ts, i)) by { SkipPair(ts, obj + 1, k); }
      if Jeq(js, toks[i], key) {
        return i + 1;
      }
      var afterKey := JSkip(toks, n, i);
      i := JSkip(toks, n, afterKey);
      k := k + 1;
    }
    return -1;
  }

  lemma {:induction false} SkipPair(ts: seq<Tok>, j: nat, k: nat)
    ensures SkipMany(ts, j, 2 * (k + 1)) == Skip(ts, Skip(ts, SkipMany(ts, j, 2 * k)))
  {
    SkipManySplit(ts, j, 2 * k, 2);
    var i := SkipMany(ts, j, 2 * k);
    assert SkipMany(ts, i, 2) == SkipMany(ts, Skip(ts, i), 1);
  }

  /** The subtree at `p` is encoded right after its own token. */
  lemma {:induction false} EncodesAt(ts: seq<Tok>, nodes: seq<Node>, parent: int, base: nat, p: nat)
    requires Encodes(ts, nodes, parent, base) && Shaped(nodes)
    requires base <= p < base + Count(nodes)
    ensures var n := NodeAt(nodes, base, p);
            && ts[p].kind == n.kind && ts[p].size == |n.kids| && ts[p].start == n.start && ts[p].end == n.end
            && Encodes(ts, n.kids, p, p + 1) && Shaped(n.kids)
            && SubtreeEnd(nodes, base, p) == p + 1 + Count(n.kids)
  {
    var next := base + 1 + Count(nodes[0].kids);
    if base < p < next {
      EncodesAt(ts, nodes[0].kids, base, base + 1, p);
    } else if next <= p {
      EncodesAt(ts, nodes[1..], parent, next, p);
    }
  }

  /** After k pairs jfind still stands before the object's last token. */
  lemma {:induction false} PairInside(ts: seq<Tok>, kids: seq<Node>, obj: nat, k: nat, i: nat)
    requires Encodes(ts, kids, obj, obj + 1) && Shaped(kids)
    requires k < |kids| / 2
    requires i == SkipMany(ts, obj + 1, 2 * k)
    ensures obj < i && i + 1 < obj + 1 + Count(kids) <= |ts|
  {
    SkipSiblings(ts, kids, obj, obj + 1, obj + 1, obj + 1, 2 * k);
    CountPrefix(kids, 2 * k);
  }

  /** The index of the last key among an object's children. */
  function LastKey(kids: seq<Node>): (l: nat)
    ensures |kids| >= 2 ==> l + 1 < |kids|
    ensures l <= |kids|
  {
    if |kids| < 2 then 0 else 2 * (|kids| / 2) - 2
  }

  /** No object before the last pair has an odd child: all that jfind skips. */
  ghost predicate EvenBeforeLast(kids: seq<Node>) {
    AllEven(kids[..LastKey(kids)])
  }

  lemma {:induction false} EvenPrefix(nodes: seq<Node>, m: nat)
    requires m <= |nodes| && AllEven(nodes)
    ensures AllEven(nodes[..m])
  {
    if m > 0 {
      EvenPrefix(nodes[1..], m - 1);
      assert nodes[..m][1..] == nodes[1..][..m - 1];
    }
  }

  /** Then jfind is first-match lookup. */
  lemma {:induction false} FindIsLookup(js: string, ts: seq<Tok>, kids: seq<Node>, parent: int, base: nat, key: string)
    requires Encodes(ts, kids, parent, base) && Shaped(kids) && EvenBeforeLast(kids)
    ensures FindFrom(js, ts, base, |kids| / 2, key) == Lookup(js, kids, base, key)
    decreases |kids|
  {
    if |kids| >= 4 {
      EvenPair(kids);
      var next := base + 2 + Count(kids[0].kids) + Count(kids[1].kids);
      FirstRound(js, ts, kids, parent, base, key, next);
      FindIsLookup(js, ts, kids[2..], parent, next, key);
    } else if |kids| >= 2 {
      LastPair(js, ts, kids, parent, base, key);
    }
  }

  /** The first round, over an even pair, leads to the next pair. */
  lemma {:induction false} FirstRound(js: string, ts: seq<Tok>, kids: seq<Node>, parent: int, base: nat, key: string, next: nat)
    requires Encodes(ts, kids, parent, base) && Shaped(kids) && |kids| >= 2 && Even(kids[0]) && Even(kids[1])
    requires next == base + 2 + Count(kids[0].kids) + Count(kids[1].kids)
    ensures Encodes(ts, kids[2..], parent, next) && Shaped(kids[2..])
    ensures FindFrom(js, ts, next, |kids| / 2 - 1, key) == Lookup(js, kids[2..], next, key) ==>
              FindFrom(js, ts, base, |kids| / 2, key) == Lookup(js, kids, base, key)
  {
    var value := SkipSibling(ts, kids, parent, base);
    var after := SkipSibling(ts, kids[1..], parent, value);
    assert kids[1..][1..] == kids[2..];
    if FindFrom(js, ts, next, |kids| / 2 - 1, key) == Lookup(js, kids[2..], next, key) {
      PairStep(js, ts, kids, base, value, next, key);
    }
  }

  /** One round of jfind and of the lookup, when both keys stand at `base`. */
  lemma {:induction false} PairStep(js: string, ts: seq<Tok>, kids: seq<Node>, base: nat, value: nat, next: nat, key: string)
    requires |kids| >= 2 && base < |ts| && Jeq(js, ts[base], key) == Jeq(js, NodeTok(kids[0], 0), key)
    requires value == Skip(ts, base) == base + 1 + Count(kids[0].kids) && next == Skip(ts, value) == value + 1 + Count(kids[1].kids)
    requires Jeq(js, ts[base], key) ==> value == base + 1
    requires FindFrom(js, ts, next, |kids| / 2 - 1, key) == Lookup(js, kids[2..], next, key)
    ensures FindFrom(js, ts, base, |kids| / 2, key) == Lookup(js, kids, base, key)
  {
  }

  lemma {:induction false} EvenPair(kids: seq<Node>)
    requires |kids| >= 4 && EvenBeforeLast(kids)
    ensures Even(kids[0]) && Even(kids[1]) && EvenBeforeLast(kids[2..])
  {
    EvenTwo(kids, LastKey(kids));
  }

  lemma {:induction false} EvenTwo(nodes: seq<Node>, m: nat)
    requires 2 <= m <= |nodes| && AllEven(nodes[..m])
    ensures Even(nodes[0]) && Even(nodes[1]) && AllEven(nodes[2..][..m - 2])
  {
    var tail := nodes[..m][1..];
    assert AllEven(tail) && tail[0] == nodes[1];
    assert tail[1..] == nodes[2..][..m - 2];
  }

  /** With one pair left nothing is skipped before the comparison. */
  lemma {:induction false} LastPair(js: string, ts: seq<Tok>, kids: seq<Node>, parent: int, base: nat, key: string)
    requires Encodes(ts, kids, parent, base) && Shaped(kids) && 2 <= |kids| < 4
    ensures FindFrom(js, ts, base, 1, key) == Lookup(js, kids, base, key)
  {
    assert Jeq(js, ts[base], key) <==> Jeq(js, NodeTok(kids[0], 0), key);
    assert Lookup(js, kids[2..], base + 2 + Count(kids[0].kids) + Count(kids[1].kids), key) == -1;
    assert FindFrom(js, ts, Skip(ts, Skip(ts, base)), 0, key) == -1;
  }

  /** jskip over an even sibling lands on the next one. */
  lemma {:induction false} SkipSibling(ts: seq<Tok>, sibs: seq<Node>, parent: int, b: nat) returns (next: nat)
    requires Encodes(ts, sibs, parent, b) && Shaped(sibs) && sibs != [] && Even(sibs[0])
    ensures b < |ts| && ts[b] == NodeTok(sibs[0], parent)
    ensures next == b + 1 + Count(sibs[0].kids) == Skip(ts, b)
    ensures Encodes(ts, sibs[1..], parent, next) && Shaped(sibs[1..])
    ensures sibs[0].kind.Str? ==> sibs[0].kids == []
  {
    SkipExactIffEven(ts, sibs, parent, b, b);
    next := b + 1 + Count(sibs[0].kids);
  }

  /** jfind from any object of parser output. */
  lemma {:induction false} FindAnywhere(js: string, ts: seq<Tok>, nodes: seq<Node>, obj: nat, key: string)
    requires Encodes(ts, nodes, -1, 0) && Shaped(nodes)
    requires obj < Count(nodes) && NodeAt(nodes, 0, obj).kind.Obj?
    requires EvenBeforeLast(NodeAt(nodes, 0, obj).kids)
    ensures Find(js, ts, obj, key) == Lookup(js, NodeAt(nodes, 0, obj).kids, obj + 1, key)
  {
    EncodesAt(ts, nodes, -1, 0, obj);
    FindIsLookup(js, ts, NodeAt(nodes, 0, obj).kids, obj, obj + 1, key);
  }

  // ---- Exactly when

  /** The position jfind compares in its k-th round, and the k-th key's. */
  function Compared(ts: seq<Tok>, base: nat, k: nat): nat {
    SkipMany(ts, base, 2 * k)
  }

  function KeyPos(kids: seq<Node>, base: nat, k: nat): nat
    requires 2 * k <= |kids|
  {
    base + Count(kids[..2 * k])
  }

  lemma {:induction false} ComparedIff(ts: seq<Tok>, kids: seq<Node>, parent: int, base: nat, k: nat)
    requires Encodes(ts, kids, parent, base) && Shaped(kids) && 2 * k <= |kids|
    ensures Compared(ts, base, k) <= KeyPos(kids, base, k)
    ensures Compared(ts, base, k) == KeyPos(kids, base, k) <==> AllEven(kids[..2 * k])
  {
    SkipSiblings(ts, kids, parent, base, base, base, 2 * k);
  }

  /** Every round of jfind compares its own key if and only if no object before
      the last pair has an odd child. */
  lemma {:induction false} RoundsAlignedIff(ts: seq<Tok>, kids: seq<Node>, parent: int, base: nat)
    requires Encodes(ts, kids, parent, base) && Shaped(kids) && |kids| >= 2
    ensures (forall k :: 0 <= k < |kids| / 2 ==> Compared(ts, base, k) == KeyPos(kids, base, k)) <==> EvenBeforeLast(kids)
  {
    var last := |kids| / 2 - 1;
    ComparedIff(ts, kids, parent, base, last);
    if EvenBeforeLast(kids) {
      forall k | 0 <= k < |kids| / 2 ensures Compared(ts, base, k) == KeyPos(kids, base, k) {
        ComparedIff(ts, kids, parent, base, k);
        EvenPrefix(kids[..LastKey(kids)], 2 * k);
        assert kids[..LastKey(kids)][..2 * k] == kids[..2 * k];
      }
    }
  }

  /** A hit of jfind is right behind a position it compared. */
  lemma {:induction false} HitIsCompared(js: string, ts: seq<Tok>, base: nat, i: nat, k: nat, pairs: nat, key: string) returns (h: nat)
    requires k <= pairs && i == Compared(ts, base, k) && FindFrom(js, ts, i, pairs - k, key) != -1
    ensures k <= h < pairs && FindFrom(js, ts, i, pairs - k, key) == Compared(ts, base, h) + 1
    decreases pairs - k
  {
    if Jeq(js, ts[i], key) {
      h := k;
    } else {
      SkipPair(ts, base, k);
      h := HitIsCompared(js, ts, base, Skip(ts, Skip(ts, i)), k + 1, pairs, key);
    }
  }

  /** The last key is a string that no earlier key equals. */
  predicate LastKeyNew(js: string, kids: seq<Node>) {
    && |kids| >= 2
    && var n := kids[LastKey(kids)];
       n.kind.Str? && n.start <= n.end <= |js|
       && forall m :: 0 <= m < |kids| / 2 - 1 ==> !Jeq(js, NodeTok(kids[2 * m], 0), js[n.start..n.end])
  }

  lemma {:induction false} LookupLast(js: string, kids: seq<Node>, base: nat, key: string)
    requires |kids| >= 2 && Jeq(js, NodeTok(kids[LastKey(kids)], 0), key) && kids[LastKey(kids)].kids == []
    requires forall m :: 0 <= m < |kids| / 2 - 1 ==> !Jeq(js, NodeTok(kids[2 * m], 0), key)
    ensures Lookup(js, kids, base, key) == base + Count(kids[..LastKey(kids)]) + 1
    decreases |kids|
  {
    if |kids| >= 4 {
      assert !Jeq(js, NodeTok(kids[2 * 0], 0), key);
      var next := base + 2 + Count(kids[0].kids) + Count(kids[1].kids);
      forall m | 0 <= m < |kids[2..]| / 2 - 1 ensures !Jeq(js, NodeTok(kids[2..][2 * m], 0), key) {
        assert kids[2..][2 * m] == kids[2 * (m + 1)];
      }
      LookupLast(js, kids[2..], next, key);
      CountTwo(kids, LastKey(kids));
    }
  }

  lemma {:induction false} CountTwo(nodes: seq<Node>, m: nat)
    requires 2 <= m <= |nodes|
    ensures Count(nodes[..m]) == 2 + Count(nodes[0].kids) + Count(nodes[1].kids) + Count(nodes[2..][..m - 2])
  {
    assert nodes[..m][1..] == nodes[1..m];
    assert nodes[1..m][1..] == nodes[2..][..m - 2];
  }

  /** jfind gives first-match lookup for every key if and only if no object before
      the last pair has an odd child; once behind, it never meets the last key. */
  lemma {:induction false} FindRightIff(js: string, ts: seq<Tok>, kids: seq<Node>, parent: int, base: nat)
    requires Encodes(ts, kids, parent, base) && Shaped(kids) && LastKeyNew(js, kids)
    ensures (forall key :: FindFrom(js, ts, base, |kids| / 2, key) == Lookup(js, kids, base, key)) <==> EvenBeforeLast(kids)
  {
    if EvenBeforeLast(kids) {
      forall key ensures FindFrom(js, ts, base, |kids| / 2, key) == Lookup(js, kids, base, key) {
        FindIsLookup(js, ts, kids, parent, base, key);
      }
    } else {
      var n := kids[LastKey(kids)];
      LastKeyMissed(js, ts, kids, parent, base, js[n.start..n.end]);
    }
  }

  lemma {:induction false} LastKeyMissed(js: string, ts: seq<Tok>, kids: seq<Node>, parent: int, base: nat, key: string)
    requires Encodes(ts, kids, parent, base) && Shaped(kids) && LastKeyNew(js, kids) && !EvenBeforeLast(kids)
    requires key == js[kids[LastKey(kids)].start..kids[LastKey(kids)].end]
    ensures FindFrom(js, ts, base, |kids| / 2, key) != Lookup(js, kids, base, key)
  {
    ShapedAt(kids, LastKey(kids));
    LookupLast(js, kids, base, key);
    if FindFrom(js, ts, base, |kids| / 2, key) != -1 {
      var h := HitIsCompared(js, ts, base, base, 0, |kids| / 2, key);
      ComparedIff(ts, kids, parent, base, h);
      CountPrefix(kids[..LastKey(kids)], 2 * h);
      assert kids[..LastKey(kids)][..2 * h] == kids[..2 * h];
    }
  }

  lemma {:induction false} ShapedAt(nodes: seq<Node>, i: nat)
    requires Shaped(nodes) && i < |nodes|
    ensures !Container(nodes[i].kind) ==> nodes[i].kids == []
  {
    if i > 0 {
      ShapedAt(nodes[1..], i - 1);
    }
  }

  /** The same for any object of parser output. */
  lemma {:induction false} FindRightAnywhereIff(js: string, ts: seq<Tok>, nodes: seq<Node>, obj: nat)
    requires Encodes(ts, nodes, -1, 0) && Shaped(nodes)
    requires obj < Count(nodes) && NodeAt(nodes, 0, obj).kind.Obj? && LastKeyNew(js, NodeAt(nodes, 0, obj).kids)
    ensures var kids := NodeAt(nodes, 0, obj).kids;
            (forall key :: Find(js, ts, obj, key) == Lookup(js, kids, obj + 1, key)) <==> EvenBeforeLast(kids)
  {
    EncodesAt(ts, nodes, -1, 0, obj);
    var kids := NodeAt(nodes, 0, obj).kids;
    if EvenBeforeLast(kids) {
      forall key ensures Find(js, ts, obj, key) == Lookup(js, kids, obj + 1, key) {
        FindAnywhere(js, ts, nodes, obj, key);
      }
    } else {
      var n := kids[LastKey(kids)];
      var key := js[n.start..n.end];
      LastKeyMissed(js, ts, kids, obj, obj + 1, key);
      assert Find(js, ts, obj, key) != Lookup(js, kids, obj + 1, key);
    }
  }

  // ---- An odd object hides a key

  const ODD_TEXT := "{\"a\":{\"x\"},\"b\":1}"
  const KEY_A := Node(Str, 2, 3, [])
  const ODD_VALUE := Node(Obj, 5, 10, [Node(Str, 7, 8, [])])
  const KEY_B := Node(Str, 12, 13, [])
  const VALUE_B := Node(Prim, 15, 16, [])
  const ODD_TREE := Node(Obj, 0, 17, [KEY_A, ODD_VALUE, KEY_B, VALUE_B])

  lemma {:induction false} OddPartsFit()
    ensures FitsNode(ODD_TEXT, KEY_A) && FitsNode(ODD_TEXT, KEY_B) && FitsNode(ODD_TEXT, VALUE_B)
    ensures FitsNode(ODD_TEXT, ODD_VALUE)
  {
    var js := ODD_TEXT;
    var x := ODD_VALUE.kids[0];
    assert StrBody(js, 8, 8) && StrBody(js, 3, 3) && StrBody(js, 13, 13);
    assert FitsNode(js, x);
    assert Fits(js, 6, 9, [x]) by { assert [x][1..] == [] && Fits(js, 9, 9, []); }
  }

  lemma {:induction false} OddTextFits()
    ensures Fits(ODD_TEXT, 0, |ODD_TEXT|, [ODD_TREE])
  {
    var js := ODD_TEXT;
    OddPartsFit();
    assert Fits(js, 16, 16, []);
    assert Fits(js, 14, 16, [VALUE_B]) by { assert [VALUE_B][1..] == []; }
    assert Fits(js, 10, 16, [KEY_B, VALUE_B]) by { assert [KEY_B, VALUE_B][1..] == [VALUE_B]; }
    assert Fits(js, 4, 16, ODD_TREE.kids[1..]) by { assert ODD_TREE.kids[1..][1..] == [KEY_B, VALUE_B]; }
    assert Fits(js, 1, 16, ODD_TREE.kids);
    assert FitsNode(js, ODD_TREE);
    assert [ODD_TREE][1..] == [] && Fits(js, 17, 17, []);
  }

  lemma {:induction false} OddTokens()
    ensures Flatten([ODD_TREE], -1, 0)
         == [NodeTok(ODD_TREE, -1), NodeTok(KEY_A, 0), NodeTok(ODD_VALUE, 0), NodeTok(ODD_VALUE.kids[0], 2),
             NodeTok(KEY_B, 0), NodeTok(VALUE_B, 0)]
  {
    var x := ODD_VALUE.kids[0];
    assert [ODD_TREE][1..] == [] && ODD_VALUE.kids[1..] == [] && [VALUE_B][1..] == [];
    assert Flatten([VALUE_B], 0, 5) == [NodeTok(VALUE_B, 0)];
    assert [KEY_B, VALUE_B][1..] == [VALUE_B];
    assert Flatten([KEY_B, VALUE_B], 0, 4) == [NodeTok(KEY_B, 0), NodeTok(VALUE_B, 0)];
    assert Flatten(ODD_VALUE.kids, 2, 3) == [NodeTok(x, 2)];
    var tail := ODD_TREE.kids[1..];
    assert tail[1..] == [KEY_B, VALUE_B];
    assert Flatten(tail, 0, 2) == [NodeTok(ODD_VALUE, 0), NodeTok(x, 2), NodeTok(KEY_B, 0), NodeTok(VALUE_B, 0)];
    assert Flatten(ODD_TREE.kids, 0, 1) == [NodeTok(KEY_A, 0)] + Flatten(tail, 0, 2);
  }

  /** Without evenness it is not: the text {"a":{"x"},"b":1} has the key b, but
      the walk falls behind inside the odd object and never meets it. */
  lemma {:induction false} OddObjectHidesKey()
    ensures Fits(ODD_TEXT, 0, |ODD_TEXT|, [ODD_TREE])
    ensures Lookup(ODD_TEXT, ODD_TREE.kids, 1, "b") == 5
    ensures Find(ODD_TEXT, Flatten([ODD_TREE], -1, 0), 0, "b") == -1
  {
    OddTextFits();
    OddTokens();
    var js := ODD_TEXT;
    var ts := Flatten([ODD_TREE], -1, 0);
    assert Skip(ts, 1) == 2 && Skip(ts, 3) == 4 && Skip(ts, 4) == 5;
    assert SkipMany(ts, 3, 0) == 3 && Skip(ts, 2) == 3;
    assert !Jeq(js, ts[1], "b") by { assert js[2..3] == "a"; }
    assert !Jeq(js, ts[3], "b") by { assert js[7..8] == "x"; }
    assert FindFrom(js, ts, 5, 0, "b") == -1;
    assert FindFrom(js, ts, 3, 1, "b") == -1;
    assert FindFrom(js, ts, 1, 2, "b") == -1;
    assert ODD_TREE.kids[2..] == [KEY_B, VALUE_B];
    assert js[12..13] == "b";
    assert Count(ODD_VALUE.kids) == 1 by { assert ODD_VALUE.kids[1..] == []; }
    assert !Jeq(js, NodeTok(KEY_A, 0), "b") by { assert js[2..3] == "a"; }
    assert Lookup(js, [KEY_B, VALUE_B], 4, "b") == 5;
  }
}
