/** Parse/print inversion for shared/wfb_json.h: whatever JSON value is printed,
    and whatever blanks are put between its lexemes, parsing gives the value
    back. The values are those of sections 3 to 7 of RFC 8259, strings as they are
    written, escapes and all: the parser does not decode them. Everything here is
    in literal characters, so the tokenizer's own character classes are checked. */
module JsonPrint {
  import opened JsonTokens
  import opened JsonGrammar
  import opened JsonWalk

  datatype Value =
    | VStr(s: string)
    | VPrim(w: string)
    | VArr(items: seq<Value>)
    | VObj(members: seq<(string, Value)>)

  /** A quote or backslash stands only behind a backslash. */
  predicate Escaped(s: string) {
    s == ""
    || (|s| >= 2 && s[0] == '\\' && Escaped(s[2..]))
    || (s[0] != '\\' && s[0] != '"' && Escaped(s[1..]))
  }

  /** Insertable blanks; string contents; primitives; and the kinds that have
      brackets. */
  type Blanks = s: string | forall i :: 0 <= i < |s| ==> s[i] == ' ' || s[i] == '\t' || s[i] == '\n' || s[i] == '\r'

  type Text = s: string | Escaped(s)

  type Word = w: string |
    && w != "" && w[0] != '"' && w[0] != '{' && w[0] != '[' && w[0] != ':'
    && forall i :: 0 <= i < |w| ==>
         && w[i] != ',' && w[i] != '}' && w[i] != ']'
         && w[i] != ' ' && w[i] != '\t' && w[i] != '\n' && w[i] != '\r'
    witness "0"

  type Bracket = k: Kind | Container(k) witness Obj

  /** A value together with the blanks its printer chose. */
  datatype Doc =
    | DStr(s: Text)
    | DPrim(w: Word)
    | DBranch(kind: Bracket, entries: seq<Entry>, inner: Blanks)

  /** One array element, or one object member when the branch is an object; an
      element uses neither the key nor the blanks around the colon. */
  datatype Entry = Entry(pre: Blanks, key: Text, mid: Blanks, gap: Blanks, doc: Doc, post: Blanks)

  // ---- Printing and erasing

  function Opening(kind: Bracket): string {
    if kind.Obj? then "{" else "["
  }

  function Closing(kind: Bracket): string {
    if kind.Obj? then "}" else "]"
  }

  function Render(d: Doc): string
    decreases d
  {
    match d
    case DStr(s) => "\"" + s + "\""
    case DPrim(w) => w
    case DBranch(kind, entries, inner) => Opening(kind) + RenderAll(kind, entries) + inner + Closing(kind)
  }

  function KeyText(kind: Bracket, e: Entry): string {
    if kind.Obj? then "\"" + e.key + "\"" + e.mid + ":" + e.gap else ""
  }

  function RenderAll(kind: Bracket, es: seq<Entry>): string
    decreases es
  {
    if es == [] then ""
    else Joined(es[0].pre, KeyText(kind, es[0]), Render(es[0].doc), es[0].post, es[1..] != [], RenderAll(kind, es[1..]))
  }

  function Joined(pre: string, key: string, body: string, post: string, more: bool, rest: string): string {
    pre + key + body + post + if more then "," + rest else ""
  }

  function Erase(d: Doc): Value
    decreases d
  {
    match d
    case DStr(s) => VStr(s)
    case DPrim(w) => VPrim(w)
    case DBranch(kind, entries, _) => if kind.Obj? then VObj(Members(entries)) else VArr(Items(entries))
  }

  function Items(es: seq<Entry>): seq<Value>
    decreases es
  {
    if es == [] then [] else [Erase(es[0].doc)] + Items(es[1..])
  }

  function Members(es: seq<Entry>): seq<(string, Value)>
    decreases es
  {
    if es == [] then [] else [(es[0].key, Erase(es[0].doc))] + Members(es[1..])
  }

  // ---- The tree of a printed value, and reading a tree back

  function DocNode(d: Doc, lo: nat): Node
    decreases d
  {
    match d
    case DStr(s) => Node(Str, lo + 1, lo + 1 + |s|, [])
    case DPrim(w) => Node(Prim, lo, lo + |w|, [])
    case DBranch(kind, entries, _) => Node(kind, lo, lo + |Render(d)|, EntryNodes(kind, entries, lo + 1))
  }

  function EntryNodes(kind: Bracket, es: seq<Entry>, lo: nat): seq<Node>
    decreases es
  {
    if es == [] then []
    else
      var e := es[0];
      var doc := lo + |e.pre| + |KeyText(kind, e)|;
      var next := doc + |Render(e.doc)| + |e.post| + 1;
      KeyNodes(kind, e, lo) + [DocNode(e.doc, doc)] + EntryNodes(kind, es[1..], next)
  }

  function KeyNodes(kind: Bracket, e: Entry, lo: nat): seq<Node> {
    var key := lo + |e.pre| + 1;
    if kind.Obj? then [Node(Str, key, key + |e.key|, [])] else []
  }

  function Slice(js: string, n: Node): string {
    if n.start <= n.end <= |js| then js[n.start..n.end] else ""
  }

  function Decode(js: string, n: Node): Value
    decreases n
  {
    match n.kind
    case Str => VStr(Slice(js, n))
    case Prim => VPrim(Slice(js, n))
    case Arr => VArr(DecodeAll(js, n.kids))
    case Obj => VObj(DecodePairs(js, n.kids))
  }

  function DecodeAll(js: string, nodes: seq<Node>): seq<Value>
    decreases nodes
  {
    if nodes == [] then [] else [Decode(js, nodes[0])] + DecodeAll(js, nodes[1..])
  }

  function DecodePairs(js: string, nodes: seq<Node>): seq<(string, Value)>
    decreases nodes
  {
    if |nodes| < 2 then [] else [(Slice(js, nodes[0]), Decode(js, nodes[1]))] + DecodePairs(js, nodes[2..])
  }

  // ---- Occurrences

  ghost predicate Occurs(js: string, lo: nat, s: string) {
    lo + |s| <= |js| && forall i {:trigger s[i]} :: 0 <= i < |s| ==> js[lo + i] == s[i]
  }

  lemma {:induction false} OccursSplit(js: string, lo: nat, a: string, b: string)
    requires Occurs(js, lo, a + b)
    ensures Occurs(js, lo, a) && Occurs(js, lo + |a|, b)
  {
    forall i | 0 <= i < |a| ensures js[lo + i] == a[i] {
      assert (a + b)[i] == a[i];
    }
    forall i | 0 <= i < |b| ensures js[lo + |a| + i] == b[i] {
      assert (a + b)[|a| + i] == b[i];
    }
  }

  lemma {:induction false} OccursChar(js: string, lo: nat, c: char)
    requires Occurs(js, lo, [c])
    ensures lo < |js| && js[lo] == c
  {
    assert [c][0] == c;
  }

  lemma {:induction false} OccursBlanks(js: string, lo: nat, s: Blanks)
    requires Occurs(js, lo, s)
    ensures AllSkipped(js, lo, lo + |s|)
  {
    forall i | lo <= i < lo + |s|
      ensures js[i] == ' ' || js[i] == '\t' || js[i] == '\n' || js[i] == '\r'
    {
      assert js[i] == s[i - lo];
    }
  }

  ghost predicate Follows(js: string, p: nat) {
    p <= |js| && (p < |js| ==> Delimiter(js[p]))
  }

  lemma {:induction false} BlanksFollow(js: string, p: nat, s: Blanks)
    requires Occurs(js, p, s) && Follows(js, p + |s|)
    ensures Follows(js, p)
  {
    if s != "" {
      assert js[p + 0] == s[0];
    }
  }

  lemma {:induction false} TextBody(js: string, lo: nat, s: Text)
    requires Occurs(js, lo, s)
    ensures StrBody(js, lo, lo + |s|)
    decreases |s|
  {
    if s != "" {
      var k := if s[0] == '\\' then 2 else 1;
      assert s[..k] + s[k..] == s;
      assert js[lo + 0] == s[0];
      OccursSplit(js, lo, s[..k], s[k..]);
      TextBody(js, lo + k, s[k..]);
    }
  }

  lemma {:induction false} StringFits(js: string, lo: nat, s: Text)
    requires Occurs(js, lo, "\"" + s + "\"")
    ensures FitsNode(js, Node(Str, lo + 1, lo + 1 + |s|, []))
    ensures js[lo + 1..lo + 1 + |s|] == s
  {
    OccursSplit(js, lo, "\"" + s, "\"");
    OccursSplit(js, lo, "\"", s);
    OccursChar(js, lo, '"');
    OccursChar(js, lo + 1 + |s|, '"');
    assert js[lo + 1..lo + 1 + |s|] == s;
    TextBody(js, lo + 1, s);
  }

  lemma {:induction false} WordFits(js: string, lo: nat, w: Word)
    requires Occurs(js, lo, w) && Follows(js, lo + |w|)
    ensures FitsNode(js, Node(Prim, lo, lo + |w|, []))
  {
    forall i | lo <= i < lo + |w| ensures !Delimiter(js[i]) && js[i] == w[i - lo] {
      assert js[lo + (i - lo)] == w[i - lo];
    }
  }

  // ---- The tree of a printed value fits its text

  /** `n` is the value printed as `d` from position `lo` on, and reads back as it. */
  ghost predicate DocAt(js: string, n: Node, d: Doc, lo: nat) {
    && FitsNode(js, n) && First(n) == lo && Past(n) == lo + |Render(d)|
    && Decode(js, n) == Erase(d) && Even(n)
  }

  lemma {:induction false} DocFits(js: string, d: Doc, lo: nat)
    requires Occurs(js, lo, Render(d)) && Follows(js, lo + |Render(d)|)
    ensures DocAt(js, DocNode(d, lo), d, lo)
    decreases d, 0
  {
    match d
    case DStr(s) => StringFits(js, lo, s);
    case DPrim(w) => WordFits(js, lo, w);
    case DBranch(kind, entries, inner) => BranchFits(js, kind, entries, inner, lo, d);
  }

  lemma {:induction false} BranchFits(js: string, kind: Bracket, es: seq<Entry>, inner: Blanks, lo: nat, d: Doc)
    requires d == DBranch(kind, es, inner)
    requires Occurs(js, lo, Render(d))
    ensures DocAt(js, DocNode(d, lo), d, lo)
    decreases es, 4
  {
    var body := RenderAll(kind, es);
    var end := lo + 1 + |body| + |inner|;
    BranchLength(d, 2 + |body| + |inner|);
    var n := Node(kind, lo, end + 1, EntryNodes(kind, es, lo + 1));
    assert DocNode(d, lo) == n;
    BracketedFits(js, kind, es, inner, lo, body, end, n);
  }

  lemma {:induction false} BracketedFits(js: string, kind: Bracket, es: seq<Entry>, inner: Blanks, lo: nat, body: string, end: nat,
                                         n: Node)
    requires body == RenderAll(kind, es) && end == lo + 1 + |body| + |inner|
    requires Occurs(js, lo, Opening(kind) + body + inner + Closing(kind))
    requires n == Node(kind, lo, end + 1, EntryNodes(kind, es, lo + 1))
    ensures FitsNode(js, n) && First(n) == lo && Past(n) == end + 1 && Even(n)
    ensures Decode(js, n) == if kind.Obj? then VObj(Members(es)) else VArr(Items(es))
    decreases es, 3
  {
    assert end < |js| && js[lo] == Opening(kind)[0] && js[end] == Closing(kind)[0]
        && Occurs(js, lo + 1, body) && Tail(js, lo + 1 + |body|, end) by {
      BranchPlaces(js, kind, body, inner, lo);
    }
    assert Reads(js, kind, es, lo + 1, end, n.kids) by {
      EntriesFit(js, kind, es, lo + 1, end);
    }
    BranchNode(js, n, es, kind, lo, end);
  }

  lemma {:induction false} BranchLength(d: Doc, n: nat)
    requires d.DBranch? && n == 2 + |RenderAll(d.kind, d.entries)| + |d.inner|
    ensures |Render(d)| == n
  {
  }

  /** Brackets around entries that fit. */
  lemma {:induction false} BranchNode(js: string, n: Node, es: seq<Entry>, kind: Bracket, lo: nat, end: nat)
    requires n == Node(kind, lo, end + 1, n.kids) && lo < end < |js|
    requires js[lo] == Opening(kind)[0] && js[end] == Closing(kind)[0] && Reads(js, kind, es, lo + 1, end, n.kids)
    ensures FitsNode(js, n) && First(n) == lo && Past(n) == end + 1 && Even(n)
    ensures Decode(js, n) == if kind.Obj? then VObj(Members(es)) else VArr(Items(es))
  {
  }

  lemma {:induction false} BranchPlaces(js: string, kind: Bracket, body: string, inner: Blanks, lo: nat)
    requires Occurs(js, lo, Opening(kind) + body + inner + Closing(kind))
    ensures var end := lo + 1 + |body| + |inner|;
            && end < |js| && js[lo] == Opening(kind)[0] && js[end] == Closing(kind)[0]
            && Occurs(js, lo + 1, body) && Tail(js, lo + 1 + |body|, end)
  {
    var open, close := Opening(kind), Closing(kind);
    OccursSplit(js, lo, open + body + inner, close);
    OccursSplit(js, lo, open + body, inner);
    OccursSplit(js, lo, open, body);
    var mid := lo + 1 + |body|;
    var end := mid + |inner|;
    OccursChar(js, lo, Opening(kind)[0]);
    OccursChar(js, end, Closing(kind)[0]);
    OccursBlanks(js, mid, inner);
    BlanksFollow(js, mid, inner);
  }

  /** Where the parts of an entry are: blanks, key, value, blanks, and then the
      rest of the text. */
  ghost predicate PartsAt(js: string, lo: nat, pre: string, key: string, body: string, post: string, tail: string) {
    && Occurs(js, lo, pre) && Occurs(js, lo + |pre|, key) && Occurs(js, lo + |pre| + |key|, body)
    && Occurs(js, lo + |pre| + |key| + |body|, post) && Occurs(js, lo + |pre| + |key| + |body| + |post|, tail)
  }

  lemma {:induction false} EntryOccurs(js: string, lo: nat, pre: string, key: string, body: string, post: string, tail: string)
    requires Occurs(js, lo, pre + key + body + post + tail)
    ensures PartsAt(js, lo, pre, key, body, post, tail)
  {
    OccursSplit(js, lo, pre + key + body + post, tail);
    OccursSplit(js, lo, pre + key + body, post);
    OccursSplit(js, lo, pre + key, body);
    OccursSplit(js, lo, pre, key);
  }

  /** What follows an entry: the end, or a comma and the other entries. */
  ghost predicate TailAt(js: string, sep: nat, hi: nat, more: bool, rest: string) {
    && Follows(js, sep) && sep <= hi <= |js|
    && if !more then AllSkipped(js, sep, hi)
       else sep < hi && js[sep] == ',' && Occurs(js, sep + 1, rest) && Tail(js, sep + 1 + |rest|, hi)
  }

  lemma {:induction false} TailPlaces(js: string, sep: nat, hi: nat, more: bool, rest: string, tail: string)
    requires tail == (if more then "," + rest else "") && Occurs(js, sep, tail) && Tail(js, sep + |tail|, hi)
    ensures TailAt(js, sep, hi, more, rest)
  {
    if more {
      OccursSplit(js, sep, ",", rest);
      OccursChar(js, sep, ',');
    }
  }

  /** An entry's blanks, key and value from `lo` on. */
  ghost predicate FirstAt(js: string, lo: nat, pre: string, key: string, body: string) {
    && lo + |pre| <= |js| && AllSkipped(js, lo, lo + |pre|)
    && Occurs(js, lo + |pre|, key) && Occurs(js, lo + |pre| + |key|, body) && Follows(js, lo + |pre| + |key| + |body|)
  }

  /** After position `past` come blanks and, if there are more, a comma and the
      other entries from `next` on. */
  ghost predicate RestAt(js: string, past: nat, next: nat, hi: nat, more: bool, rest: string) {
    if !more then past <= hi <= |js| && AllSkipped(js, past, hi)
    else past < next <= hi <= |js| && AllSkipped(js, past, next) && Occurs(js, next, rest) && Tail(js, next + |rest|, hi)
  }

  /** Where an entry and the entries after it are. */
  lemma {:induction false} EntryPlaces(js: string, lo: nat, hi: nat, pre: Blanks, key: string, body: string, post: Blanks,
                                       more: bool, rest: string, tail: string)
    requires tail == if more then "," + rest else ""
    requires Occurs(js, lo, pre + key + body + post + tail) && Tail(js, lo + |pre| + |key| + |body| + |post| + |tail|, hi)
    ensures FirstAt(js, lo, pre, key, body)
    ensures var past := lo + |pre| + |key| + |body|; RestAt(js, past, past + |post| + 1, hi, more, rest)
  {
    EntryOccurs(js, lo, pre, key, body, post, tail);
    TailPlaces(js, lo + |pre| + |key| + |body| + |post|, hi, more, rest, tail);
    FirstFromParts(js, lo, lo + |pre| + |key| + |body|, pre, key, body, post);
    RestFromParts(js, lo + |pre| + |key| + |body|, hi, post, more, rest);
  }

  lemma {:induction false} FirstFromParts(js: string, lo: nat, past: nat, pre: Blanks, key: string, body: string, post: Blanks)
    requires Occurs(js, lo, pre) && Occurs(js, lo + |pre|, key) && Occurs(js, lo + |pre| + |key|, body)
    requires past == lo + |pre| + |key| + |body| && Occurs(js, past, post) && Follows(js, past + |post|)
    ensures FirstAt(js, lo, pre, key, body)
  {
    OccursBlanks(js, lo, pre);
    BlanksFollow(js, past, post);
  }

  lemma {:induction false} RestFromParts(js: string, past: nat, hi: nat, post: Blanks, more: bool, rest: string)
    requires Occurs(js, past, post) && TailAt(js, past + |post|, hi, more, rest)
    ensures RestAt(js, past, past + |post| + 1, hi, more, rest)
  {
    OccursBlanks(js, past, post);
  }

  /** The text goes on, after position `p`, with skipped characters up to `hi`. */
  ghost predicate Tail(js: string, p: nat, hi: nat) {
    Follows(js, p) && p <= hi <= |js| && AllSkipped(js, p, hi)
  }

  /** `nodes` is the layout of the entries `es` in js[lo..hi]. */
  ghost predicate Reads(js: string, kind: Bracket, es: seq<Entry>, lo: int, hi: int, nodes: seq<Node>) {
    && Fits(js, lo, hi, nodes) && AllEven(nodes)
    && if kind.Obj? then |nodes| % 2 == 0 && DecodePairs(js, nodes) == Members(es) else DecodeAll(js, nodes) == Items(es)
  }

  lemma {:induction false} EntriesFit(js: string, kind: Bracket, es: seq<Entry>, lo: nat, hi: nat)
    requires Occurs(js, lo, RenderAll(kind, es))
    requires Tail(js, lo + |RenderAll(kind, es)|, hi)
    ensures Reads(js, kind, es, lo, hi, EntryNodes(kind, es, lo))
    decreases es, 2
  {
    if es != [] {
      var doc := lo + |es[0].pre| + |KeyText(kind, es[0])|;
      var past := doc + |Render(es[0].doc)|;
      MoreEntriesFit(js, kind, es, lo, hi, doc, past, past + |es[0].post| + 1, KeyText(kind, es[0]), Render(es[0].doc),
                     RenderAll(kind, es[1..]));
    }
  }

  lemma {:induction false} MoreEntriesFit(js: string, kind: Bracket, es: seq<Entry>, lo: nat, hi: nat,
                                          doc: nat, past: nat, next: nat, key: string, body: string, rest: string)
    requires es != [] && Occurs(js, lo, RenderAll(kind, es)) && Tail(js, lo + |RenderAll(kind, es)|, hi)
    requires key == KeyText(kind, es[0]) && body == Render(es[0].doc) && rest == RenderAll(kind, es[1..])
    requires doc == lo + |es[0].pre| + |key| && past == doc + |body| && next == past + |es[0].post| + 1
    ensures Reads(js, kind, es, lo, hi, EntryNodes(kind, es, lo))
    decreases es, 1
  {
    var more := es[1..] != [];
    assert FirstAt(js, lo, es[0].pre, key, body) && RestAt(js, past, next, hi, more, rest) by {
      RenderAllIs(kind, es, key, body, rest, more);
      JoinedPlaces(js, lo, hi, es[0].pre, key, body, es[0].post, more, rest, RenderAll(kind, es), past, next);
    }
    PlacedEntriesFit(js, kind, es, lo, hi, doc, past, next, key, body, rest);
  }

  lemma {:induction false} PlacedEntriesFit(js: string, kind: Bracket, es: seq<Entry>, lo: nat, hi: nat,
                                            doc: nat, past: nat, next: nat, key: string, body: string, rest: string)
    requires es != [] && key == KeyText(kind, es[0]) && body == Render(es[0].doc) && rest == RenderAll(kind, es[1..])
    requires doc == lo + |es[0].pre| + |key| && past == doc + |body| && next == past + |es[0].post| + 1
    requires FirstAt(js, lo, es[0].pre, key, body) && RestAt(js, past, next, hi, es[1..] != [], rest)
    ensures Reads(js, kind, es, lo, hi, EntryNodes(kind, es, lo))
    decreases es, 0
  {
    assert Reads(js, kind, es[1..], past, hi, EntryNodes(kind, es[1..], next)) by {
      RestFits(js, kind, es[1..], past, next, hi);
    }
    assert DocAt(js, DocNode(es[0].doc, doc), es[0].doc, doc) by {
      DocFits(js, es[0].doc, doc);
    }
    assert EntryNodes(kind, es, lo)
        == KeyNodes(kind, es[0], lo) + [DocNode(es[0].doc, doc)] + EntryNodes(kind, es[1..], next) by {
      EntryNodesCons(kind, es, lo, doc, next);
    }
    ReadsCons(js, kind, es, lo, hi, DocNode(es[0].doc, doc), EntryNodes(kind, es[1..], next), EntryNodes(kind, es, lo));
  }

  lemma {:induction false} RenderAllIs(kind: Bracket, es: seq<Entry>, key: string, body: string, rest: string, more: bool)
    requires es != [] && more == (es[1..] != []) && key == KeyText(kind, es[0]) && body == Render(es[0].doc) && rest == RenderAll(kind, es[1..])
    ensures RenderAll(kind, es) == Joined(es[0].pre, key, body, es[0].post, more, rest)
  {
  }

  lemma {:induction false} JoinedPlaces(js: string, lo: nat, hi: nat, pre: Blanks, key: string, body: string, post: Blanks,
                                        more: bool, rest: string, all: string, past: nat, next: nat)
    requires all == Joined(pre, key, body, post, more, rest) && Occurs(js, lo, all) && Tail(js, lo + |all|, hi)
    requires past == lo + |pre| + |key| + |body| && next == past + |post| + 1
    ensures FirstAt(js, lo, pre, key, body)
    ensures RestAt(js, past, next, hi, more, rest)
  {
    EntryPlaces(js, lo, hi, pre, key, body, post, more, rest, if more then "," + rest else "");
  }

  lemma {:induction false} RestFits(js: string, kind: Bracket, es: seq<Entry>, past: nat, next: nat, hi: nat)
    requires RestAt(js, past, next, hi, es != [], RenderAll(kind, es))
    ensures Reads(js, kind, es, past, hi, EntryNodes(kind, es, next))
    decreases es, 3
  {
    if es != [] {
      EntriesFit(js, kind, es, next, hi);
      ReadsEarlier(js, kind, es, past, next, hi, EntryNodes(kind, es, next));
    }
  }

  lemma {:induction false} EntryNodesCons(kind: Bracket, es: seq<Entry>, lo: nat, doc: nat, next: nat)
    requires es != []
    requires doc == lo + |es[0].pre| + |KeyText(kind, es[0])| && next == doc + |Render(es[0].doc)| + |es[0].post| + 1
    ensures EntryNodes(kind, es, lo)
         == KeyNodes(kind, es[0], lo) + [DocNode(es[0].doc, doc)] + EntryNodes(kind, es[1..], next)
  {
  }

  lemma {:induction false} ReadsEarlier(js: string, kind: Bracket, es: seq<Entry>, lo: int, mid: int, hi: int, nodes: seq<Node>)
    requires 0 <= lo <= mid && Reads(js, kind, es, mid, hi, nodes) && AllSkipped(js, lo, mid)
    ensures Reads(js, kind, es, lo, hi, nodes)
  {
  }

  lemma {:induction false} ReadsCons(js: string, kind: Bracket, es: seq<Entry>, lo: nat, hi: nat, n: Node, rest: seq<Node>, nodes: seq<Node>)
    requires es != [] && FirstAt(js, lo, es[0].pre, KeyText(kind, es[0]), Render(es[0].doc))
    requires DocAt(js, n, es[0].doc, lo + |es[0].pre| + |KeyText(kind, es[0])|)
    requires Reads(js, kind, es[1..], Past(n), hi, rest)
    requires nodes == KeyNodes(kind, es[0], lo) + [n] + rest
    ensures Reads(js, kind, es, lo, hi, nodes)
  {
    if kind.Obj? {
      ReadsKeyed(js, es, lo, hi, n, rest, nodes, KeyNodes(Obj, es[0], lo)[0]);
    } else {
      ReadsElement(js, es, lo, hi, n, rest, nodes);
    }
  }

  lemma {:induction false} ReadsKeyed(js: string, es: seq<Entry>, lo: nat, hi: nat, n: Node, rest: seq<Node>, nodes: seq<Node>,
                                      key: Node)
    requires es != [] && lo + |es[0].pre| <= |js| && AllSkipped(js, lo, lo + |es[0].pre|)
    requires Occurs(js, lo + |es[0].pre|, KeyText(Obj, es[0]))
    requires FitsNode(js, n) && First(n) == lo + |es[0].pre| + |KeyText(Obj, es[0])|
    requires Even(n) && Decode(js, n) == Erase(es[0].doc)
    requires Reads(js, Obj, es[1..], Past(n), hi, rest)
    requires nodes == [key] + [n] + rest
    requires var at := lo + |es[0].pre|; key == Node(Str, at + 1, at + 1 + |es[0].key|, [])
    ensures Reads(js, Obj, es, lo, hi, nodes)
  {
    KeyFits(js, es[0], lo + |es[0].pre|, key);
    assert nodes == [key, n] + rest;
    ReadsMember(js, es, lo, hi, key, n, rest, nodes);
  }

  lemma {:induction false} FitsCons(js: string, lo: nat, hi: nat, n: Node, rest: seq<Node>)
    requires FitsNode(js, n) && lo <= First(n) && Fits(js, Past(n), hi, rest) && AllSkipped(js, lo, First(n))
    ensures Fits(js, lo, hi, [n] + rest)
  {
    assert ([n] + rest)[1..] == rest;
  }

  lemma {:induction false} EvenCons(n: Node, rest: seq<Node>)
    requires Even(n) && AllEven(rest)
    ensures AllEven([n] + rest)
  {
    assert ([n] + rest)[1..] == rest;
  }

  lemma {:induction false} DecodeCons(js: string, n: Node, rest: seq<Node>)
    ensures DecodeAll(js, [n] + rest) == [Decode(js, n)] + DecodeAll(js, rest)
  {
    assert ([n] + rest)[1..] == rest;
  }

  lemma {:induction false} DecodeMember(js: string, key: Node, n: Node, rest: seq<Node>)
    ensures DecodePairs(js, [key, n] + rest) == [(Slice(js, key), Decode(js, n))] + DecodePairs(js, rest)
  {
    assert ([key, n] + rest)[2..] == rest;
  }

  /** One element in front of a list that fits. */
  lemma {:induction false} ReadsElement(js: string, es: seq<Entry>, lo: nat, hi: nat, n: Node, rest: seq<Node>, nodes: seq<Node>)
    requires nodes == [n] + rest
    requires es != [] && Decode(js, n) == Erase(es[0].doc)
    requires FitsNode(js, n) && lo <= First(n) && AllSkipped(js, lo, First(n)) && Even(n)
    requires Reads(js, Arr, es[1..], Past(n), hi, rest)
    ensures Reads(js, Arr, es, lo, hi, nodes)
  {
    FitsCons(js, lo, hi, n, rest);
    EvenCons(n, rest);
    DecodeCons(js, n, rest);
  }

  /** One key and its value in front of a list that fits. */
  lemma {:induction false} ReadsMember(js: string, es: seq<Entry>, lo: nat, hi: nat, key: Node, n: Node, rest: seq<Node>, nodes: seq<Node>)
    requires nodes == [key, n] + rest
    requires es != [] && Slice(js, key) == es[0].key && Decode(js, n) == Erase(es[0].doc)
    requires FitsNode(js, key) && key.kind.Str? && lo <= First(key) && AllSkipped(js, lo, First(key))
    requires FitsNode(js, n) && Past(key) <= First(n) && AllSkipped(js, Past(key), First(n)) && Even(n)
    requires Reads(js, Obj, es[1..], Past(n), hi, rest)
    ensures Reads(js, Obj, es, lo, hi, nodes)
  {
    MemberFits(js, lo, hi, key, n, rest, nodes);
    assert |nodes| % 2 == 0;
    DecodeMember(js, key, n, rest);
  }

  lemma {:induction false} MemberFits(js: string, lo: nat, hi: nat, key: Node, n: Node, rest: seq<Node>, nodes: seq<Node>)
    requires nodes == [key, n] + rest && key.kind.Str? && Even(n) && AllEven(rest)
    requires FitsNode(js, key) && lo <= First(key) && AllSkipped(js, lo, First(key))
    requires FitsNode(js, n) && Past(key) <= First(n) && AllSkipped(js, Past(key), First(n))
    requires Fits(js, Past(n), hi, rest)
    ensures Fits(js, lo, hi, nodes) && AllEven(nodes)
  {
    var tail := [n] + rest;
    assert nodes == [key] + tail;
    FitsCons(js, Past(key), hi, n, rest);
    FitsCons(js, lo, hi, key, tail);
    EvenCons(n, rest);
    EvenCons(key, tail);
  }

  lemma {:induction false} KeyFits(js: string, e: Entry, at: nat, key: Node)
    requires Occurs(js, at, KeyText(Obj, e)) && key == Node(Str, at + 1, at + 1 + |e.key|, [])
    ensures FitsNode(js, key) && Slice(js, key) == e.key
    ensures AllSkipped(js, Past(key), at + |KeyText(Obj, e)|)
  {
    KeyTextFits(js, e.key, e.mid, e.gap, at, "\"" + e.key + "\"");
  }

  lemma {:induction false} KeyTextFits(js: string, k: Text, mid: Blanks, gap: Blanks, at: nat, quoted: string)
    requires quoted == "\"" + k + "\"" && Occurs(js, at, quoted + mid + ":" + gap)
    ensures FitsNode(js, Node(Str, at + 1, at + 1 + |k|, [])) && js[at + 1..at + 1 + |k|] == k
    ensures at + |quoted| + |mid| + 1 + |gap| <= |js| && AllSkipped(js, at + |quoted|, at + |quoted| + |mid| + 1 + |gap|)
  {
    KeyParts(js, at, quoted, mid, gap);
    StringFits(js, at, k);
    OccursBlanks(js, at + |quoted|, mid);
    OccursBlanks(js, at + |quoted| + |mid| + 1, gap);
  }

  lemma {:induction false} KeyParts(js: string, at: nat, quoted: string, mid: string, gap: string)
    requires Occurs(js, at, quoted + mid + ":" + gap)
    ensures var past := at + |quoted|;
            && Occurs(js, at, quoted) && Occurs(js, past, mid) && Occurs(js, past + |mid| + 1, gap)
            && past + |mid| < |js| && js[past + |mid|] == ':'
  {
    OccursSplit(js, at, quoted + mid + ":", gap);
    OccursSplit(js, at, quoted + mid, ":");
    OccursSplit(js, at, quoted, mid);
    OccursChar(js, at + |quoted| + |mid|, ':');
  }

  /** Parsing inverts printing: the text of any printable value, with any
      blanks inside and around it, is a forest of exactly one tree, that tree
      reads back as the value, and all its objects are even. */
  lemma {:induction false} ParseInvertsPrint(pre: Blanks, d: Doc, post: Blanks)
    ensures var js := pre + Render(d) + post;
            var n := DocNode(d, |pre|);
            && Forest(js) == Trees([n])
            && Fits(js, 0, |js|, [n])
            && Decode(js, n) == Erase(d) && AllEven([n])
  {
    var js := pre + Render(d) + post;
    var n := DocNode(d, |pre|);
    WholePlaces(js, pre, Render(d), post);
    DocFits(js, d, |pre|);
    assert Fits(js, 0, |js|, [n]) by { assert [n][1..] == []; }
    ForestIffFits(js, [n]);
  }

  lemma {:induction false} WholePlaces(js: string, pre: Blanks, body: string, post: Blanks)
    requires js == pre + body + post
    ensures AllSkipped(js, 0, |pre|) && Occurs(js, |pre|, body)
    ensures Follows(js, |pre| + |body|) && AllSkipped(js, |pre| + |body|, |js|)
  {
    WholeParts(js, pre, body, post);
    OccursBlanks(js, 0, pre);
    OccursBlanks(js, |pre| + |body|, post);
    BlanksFollow(js, |pre| + |body|, post);
  }

  lemma {:induction false} WholeParts(js: string, pre: string, body: string, post: string)
    requires js == pre + body + post
    ensures Occurs(js, 0, pre) && Occurs(js, |pre|, body) && Occurs(js, |pre| + |body|, post)
    ensures |js| == |pre| + |body| + |post|
  {
    assert Occurs(js, 0, js);
    OccursSplit(js, 0, pre + body, post);
    OccursSplit(js, 0, pre, body);
  }

  // ---- Looking a key up in a printed object

  datatype Lookedup = Missing | Present(value: Value)

  function FirstMatch(ms: seq<(string, Value)>, key: string): Lookedup {
    if ms == [] then Missing
    else if ms[0].0 == key then Present(ms[0].1)
    else FirstMatch(ms[1..], key)
  }

  /** Keys are plain strings. */
  ghost predicate Keyed(kids: seq<Node>)
    decreases |kids|
  {
    |kids| >= 2 ==> kids[0].kind.Str? && kids[0].kids == [] && Keyed(kids[2..])
  }

  lemma {:induction false} EntriesKeyed(es: seq<Entry>, lo: nat)
    ensures Keyed(EntryNodes(Obj, es, lo))
    decreases |es|
  {
    if es != [] {
      var doc := lo + |es[0].pre| + |KeyText(Obj, es[0])|;
      var next := doc + |Render(es[0].doc)| + |es[0].post| + 1;
      var nodes, rest := EntryNodes(Obj, es, lo), EntryNodes(Obj, es[1..], next);
      EntryNodesCons(Obj, es, lo, doc, next);
      assert nodes[2..] == rest;
      EntriesKeyed(es[1..], next);
    }
  }

  /** First-match lookup over the kids is first-match lookup in the value. */
  lemma {:induction false} LookupIsFirstMatch(js: string, lo: int, hi: int, kids: seq<Node>, base: nat, key: string)
    requires Fits(js, lo, hi, kids) && Keyed(kids)
    ensures var r := Lookup(js, kids, base, key);
            match FirstMatch(DecodePairs(js, kids), key)
            case Missing => r == -1
            case Present(v) => base <= r < base + Count(kids) && Decode(js, NodeAt(kids, base, r)) == v
    decreases |kids|
  {
    if |kids| >= 2 {
      var value := base + 1 + Count(kids[0].kids);
      var next := value + 1 + Count(kids[1].kids);
      assert kids[1..][1..] == kids[2..];
      assert Jeq(js, NodeTok(kids[0], 0), key) <==> Slice(js, kids[0]) == key;
      DecodeMember(js, kids[0], kids[1], kids[2..]);
      assert [kids[0], kids[1]] + kids[2..] == kids;
      LookupIsFirstMatch(js, Past(kids[1]), hi, kids[2..], next, key);
      assert NodeAt(kids, base, value) == kids[1];
      NodeAtThird(kids, base, value, next, Lookup(js, kids[2..], next, key));
    }
  }

  lemma {:induction false} NodeAtThird(kids: seq<Node>, base: nat, value: nat, next: nat, p: int)
    requires |kids| >= 2 && value == base + 1 + Count(kids[0].kids) && next == value + 1 + Count(kids[1].kids)
    ensures Count(kids) == next - base + Count(kids[2..])
    ensures next <= p < next + Count(kids[2..]) ==> NodeAt(kids, base, p) == NodeAt(kids[2..], next, p)
  {
    assert kids[1..][1..] == kids[2..];
    assert Count(kids[1..]) == 1 + Count(kids[1].kids) + Count(kids[2..]);
    if next <= p < next + Count(kids[2..]) {
      assert NodeAt(kids, base, p) == NodeAt(kids[1..], value, p);
    }
  }

  /** jfind on the tokens of a printed object finds the first member with the
      key: the token it returns is that member's value, and it returns -1 when
      there is none. */
  lemma {:induction false} JFindFindsFirstMember(pre: Blanks, es: seq<Entry>, inner: Blanks, post: Blanks, key: string)
    ensures var d := DBranch(Obj, es, inner);
            var js := pre + Render(d) + post;
            var n := DocNode(d, |pre|);
            var ts := Flatten([n], -1, 0);
            var r := Find(js, ts, 0, key);
            && Forest(js) == Trees([n])
            && match FirstMatch(Members(es), key)
               case Missing => r == -1
               case Present(v) => 0 < r < |ts| && Decode(js, NodeAt([n], 0, r)) == v
  {
    var d := DBranch(Obj, es, inner);
    ParseInvertsPrint(pre, d, post);
    EntriesKeyed(es, |pre| + 1);
    FindInTree(pre + Render(d) + post, DocNode(d, |pre|), key);
  }

  lemma {:induction false} FindInTree(js: string, n: Node, key: string)
    requires Fits(js, 0, |js|, [n]) && n.kind.Obj? && AllEven([n]) && Keyed(n.kids)
    ensures var ts := Flatten([n], -1, 0);
            var r := Find(js, ts, 0, key);
            match FirstMatch(DecodePairs(js, n.kids), key)
            case Missing => r == -1
            case Present(v) => 0 < r < |ts| && Decode(js, NodeAt([n], 0, r)) == v
  {
    var ts := Flatten([n], -1, 0);
    FindIsTreeLookup(js, n, key);
    LookupIsFirstMatch(js, n.start + 1, n.end - 1, n.kids, 1, key);
    InsideTree(n, Lookup(js, n.kids, 1, key));
  }

  lemma {:induction false} FindIsTreeLookup(js: string, n: Node, key: string)
    requires Fits(js, 0, |js|, [n]) && n.kind.Obj? && AllEven([n])
    ensures Find(js, Flatten([n], -1, 0), 0, key) == Lookup(js, n.kids, 1, key)
  {
    var ts := Flatten([n], -1, 0);
    FitsShaped(js, 0, |js|, [n]);
    assert ts[0..|ts|] == ts;
    FlattenEncodes(ts, [n], -1, 0);
    EvenPrefix(n.kids, LastKey(n.kids));
    FindAnywhere(js, ts, [n], 0, key);
  }

  lemma {:induction false} InsideTree(n: Node, p: int)
    ensures Count([n]) == 1 + Count(n.kids)
    ensures 1 <= p < 1 + Count(n.kids) ==> NodeAt([n], 0, p) == NodeAt(n.kids, 1, p)
  {
    assert [n][1..] == [];
  }
}
