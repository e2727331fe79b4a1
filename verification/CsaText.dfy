/** The text helpers of vehicle/csa/csa.c: a substring search for a quoted key
    followed by a colon, and readers for the integer or string after it. */
module CsaText {

  datatype Option<+T> = None | Some(value: T)

  const LLONG_MAX := 0x7fff_ffff_ffff_ffff
  const LLONG_MIN := -0x8000_0000_0000_0000

  /** A C string ends at its first NUL. */
  function CString(b: string): (s: string)
    ensures s <= b && forall i :: 0 <= i < |s| ==> s[i] != '\0'
  {
    if b == "" || b[0] == '\0' then "" else [b[0]] + CString(b[1..])
  }

  /** The character at `i`; the terminating NUL past the end. */
  function CharAt(s: string, i: nat): char {
    if i < |s| then s[i] else '\0'
  }

  predicate OccursAt(s: string, i: nat, key: string) {
    i + |key| <= |s| && s[i..i + |key|] == key
  }

  function SkipSpaces(s: string, i: nat): (j: nat)
    ensures i <= j && (i <= |s| ==> j <= |s|)
    ensures CharAt(s, j) != ' '
    decreases |s| - i
  {
    if CharAt(s, i) == ' ' then SkipSpaces(s, i + 1) else i
  }

  /** Where a value starts if the key found at `p` is quoted and a colon
      follows its closing quote. */
  function ValueAfter(s: string, p: nat, key: string): (r: Option<nat>)
    requires OccursAt(s, p, key)
    ensures r.Some? ==> r.value <= |s|
  {
    if p > 0 && s[p - 1] == '"' && CharAt(s, p + |key|) == '"' then
      var q := SkipSpaces(s, p + |key| + 1);
      if CharAt(s, q) == ':' then Some(q + 1) else None
    else None
  }

  /** find_key from position `p` on: a failed occurrence is jumped over whole. */
  function FindKeyFrom(s: string, key: string, p: nat): (r: Option<nat>)
    requires key != ""
    ensures r.Some? ==> r.value <= |s|
    decreases |s| - p
  {
    if p >= |s| then None
    else if OccursAt(s, p, key) then
      var r := ValueAfter(s, p, key);
      if r.Some? then r else FindKeyFrom(s, key, p + |key|)
    else FindKeyFrom(s, key, p + 1)
  }

  /** strstr: the first occurrence at or after `p`, or -1. */
  method StrStr(s: string, p: nat, key: string) returns (i: int)
    requires key != ""
    ensures i == -1 ==> FindKeyFrom(s, key, p) == None
    ensures i != -1 ==> p <= i && OccursAt(s, i, key) && FindKeyFrom(s, key, p) == FindKeyFrom(s, key, i)
  {
    i := p;
    while i < |s|
      invariant p <= i
      invariant FindKeyFrom(s, key, p) == FindKeyFrom(s, key, i)
    {
      if OccursAt(s, i, key) {
        return;
      }
      i := i + 1;
    }
    i := -1;
  }

  method FindKey(s: string, key: string) returns (r: Option<nat>)
    requires key != ""
    ensures r == FindKeyFrom(s, key, 0)
  {
    var p := 0;
    while true
      invariant FindKeyFrom(s, key, 0) == FindKeyFrom(s, key, p)
      decreases |s| - p
    {
      var i := StrStr(s, p, key);
      if i < 0 {
        return None;
      }
      if i > 0 && s[i - 1] == '"' && CharAt(s, i + |key|) == '"' {
        var q := i + |key| + 1;
        while CharAt(s, q) == ' '
          invariant SkipSpaces(s, i + |key| + 1) == SkipSpaces(s, q)
          decreases |s| - q
        {
          q := q + 1;
        }
        if CharAt(s, q) == ':' {
          return Some(q + 1);
        }
      }
      p := i + |key|;
    }
  }

  // ---- get_str

  /** At most `cap` characters from `i` up to a quote or the end. */
  function UpToQuote(s: string, i: nat, cap: nat): string
    decreases cap
  {
    if cap == 0 || i >= |s| || s[i] == '"' then "" else [s[i]] + UpToQuote(s, i + 1, cap - 1)
  }

  function StrOf(s: string, key: string, outlen: nat): Option<string>
    requires key != "" && outlen > 0
  {
    match FindKeyFrom(s, key, 0)
    case None => None
    case Some(at) =>
      var p := SkipSpaces(s, at);
      if CharAt(s, p) != '"' then None else Some(UpToQuote(s, p + 1, outlen - 1))
  }

  method GetStr(s: string, key: string, outlen: nat) returns (r: Option<string>)
    requires key != "" && outlen > 0
    ensures r == StrOf(s, key, outlen)
  {
    var at := FindKey(s, key);
    if at.None? {
      return None;
    }
    var p := at.value;
    while CharAt(s, p) == ' '
      invariant SkipSpaces(s, at.value) == SkipSpaces(s, p)
      decreases |s| - p
    {
      p := p + 1;
    }
    if CharAt(s, p) != '"' {
      return None;
    }
    p := p + 1;
    var out := "";
    ghost var start := p;
    while p < |s| && s[p] != '"' && |out| + 1 < outlen
      invariant |out| < outlen
      invariant UpToQuote(s, start, outlen - 1) == out + UpToQuote(s, p, outlen - 1 - |out|)
      decreases |s| - p
    {
      assert out + ([s[p]] + UpToQuote(s, p + 1, outlen - 2 - |out|))
          == out + [s[p]] + UpToQuote(s, p + 1, outlen - 2 - |out|);
      out := out + [s[p]];
      p := p + 1;
    }
    assert out + "" == out;
    return Some(out);
  }

  // ---- get_int

  predicate IsSpace(c: char) {
    c == ' ' || '\t' <= c <= '\r'
  }

  predicate IsDigit(c: char) {
    '0' <= c <= '9'
  }

  function AfterBlanks(s: string, i: nat): (j: nat)
    ensures i <= j && (i <= |s| ==> j <= |s|)
    ensures j <= |s| ==> forall k :: i <= k < j ==> IsSpace(s[k])
    ensures j < |s| ==> !IsSpace(s[j])
    decreases |s| - i
  {
    if i < |s| && IsSpace(s[i]) then AfterBlanks(s, i + 1) else i
  }

  function DigitsEnd(s: string, i: nat): (j: nat)
    ensures i <= j && (i <= |s| ==> j <= |s|)
    ensures j <= |s| ==> forall k :: i <= k < j ==> IsDigit(s[k])
    ensures j < |s| ==> !IsDigit(s[j])
    decreases |s| - i
  {
    if i < |s| && IsDigit(s[i]) then DigitsEnd(s, i + 1) else i
  }

  /** The number the digits of `ds` spell. */
  function Spelled(ds: string): nat
    requires forall k :: 0 <= k < |ds| ==> IsDigit(ds[k])
  {
    if ds == "" then 0
    else
      assert IsDigit(ds[|ds| - 1]);
      10 * Spelled(ds[..|ds| - 1]) + (ds[|ds| - 1] as int - '0' as int)
  }

  function Clamp(v: int): int {
    if v > LLONG_MAX then LLONG_MAX else if v < LLONG_MIN then LLONG_MIN else v
  }

  /** strtoll in base 10: None when no digit is consumed. */
  function StrToLL(s: string, i: nat): Option<int> {
    var p := AfterBlanks(s, i);
    var neg := CharAt(s, p) == '-';
    var d := if neg || CharAt(s, p) == '+' then p + 1 else p;
    var e := DigitsEnd(s, d);
    if e == d || e > |s| then None
    else
      var v: int := Spelled(s[d..e]);
      Some(Clamp(if neg then -v else v))
  }

  function IntOf(s: string, key: string): Option<int>
    requires key != ""
  {
    match FindKeyFrom(s, key, 0)
    case None => None
    case Some(at) => StrToLL(s, SkipSpaces(s, at))
  }

  method GetInt(s: string, key: string) returns (r: Option<int>)
    requires key != ""
    ensures r == IntOf(s, key)
  {
    var at := FindKey(s, key);
    if at.None? {
      return None;
    }
    var p := at.value;
    while CharAt(s, p) == ' '
      invariant SkipSpaces(s, at.value) == SkipSpaces(s, p)
      decreases |s| - p
    {
      p := p + 1;
    }
    return StrToLL(s, p);
  }

  // ---- What find_key finds

  predicate NoQuote(s: string) {
    '"' !in s
  }

  /** s goes on with `t` at position p. */
  predicate At(s: string, p: nat, t: string) {
    p <= |s| && s[p..] == t
  }

  lemma {:induction false} AtShift(s: string, p: nat, a: string, b: string)
    requires At(s, p, a + b)
    ensures At(s, p + |a|, b) && OccursAt(s, p, a)
    ensures forall i :: 0 <= i < |a| ==> s[p + i] == a[i]
  {
    assert s[p..][|a|..] == b;
    assert s[p..][..|a|] == a;
    forall i | 0 <= i < |a| ensures s[p + i] == a[i] {
      assert s[p..][i] == (a + b)[i];
    }
  }

  /** Text between two quotes is passed over, unless it is the key and a colon
      follows the second quote. */
  lemma {:induction false} SegSkip(s: string, key: string, p: nat, o: nat, seg: string, rest: string)
    requires p > 0 && o <= |seg| && At(s, p, seg + "\"" + rest)
    requires key != "" && NoQuote(key) && NoQuote(seg)
    requires seg == key ==> CharAt(rest, SkipSpaces(rest, 0)) != ':'
    ensures FindKeyFrom(s, key, p + o) == FindKeyFrom(s, key, p + |seg| + 1)
    decreases |seg| - o
  {
    if OccursAt(s, p + o, key) {
      NotAValue(s, key, p, o, seg, rest);
      SegSkip(s, key, p, o + |key|, seg, rest);
    } else if o < |seg| {
      SegSkip(s, key, p, o + 1, seg, rest);
    }
  }

  lemma {:induction false} SegmentAt(s: string, p: nat, seg: string, rest: string)
    requires At(s, p, seg + "\"" + rest)
    ensures p + |seg| < |s| && s[p + |seg|] == '"' && At(s, p + |seg| + 1, rest)
    ensures s[p..p + |seg|] == seg && forall i :: 0 <= i < |seg| ==> s[p + i] == seg[i]
  {
    AtShift(s, p, seg + "\"", rest);
    assert seg + "\"" + rest == seg + ("\"" + rest);
    AtShift(s, p, seg, "\"" + rest);
    assert s[p + |seg|] == (seg + "\"")[|seg|] == '"';
  }

  lemma {:induction false} NotAValue(s: string, key: string, p: nat, o: nat, seg: string, rest: string)
    requires p > 0 && o <= |seg| && At(s, p, seg + "\"" + rest)
    requires NoQuote(key) && NoQuote(seg) && OccursAt(s, p + o, key)
    requires seg == key ==> CharAt(rest, SkipSpaces(rest, 0)) != ':'
    ensures ValueAfter(s, p + o, key) == None && o + |key| <= |seg|
  {
    SegmentAt(s, p, seg, rest);
    QuoteFree(s, p + o, key, p + |seg|);
    if o == 0 && |key| == |seg| {
      assert seg == key;
      SpacesShift(s, p + |seg| + 1, rest, 0);
    } else if o > 0 {
      assert s[p + o - 1] == seg[o - 1] && seg[o - 1] in seg;
    } else {
      assert s[p + |key|] == seg[|key|] && seg[|key|] in seg;
    }
  }

  /** An occurrence of a quote-free key before a quote ends before it. */
  lemma {:induction false} QuoteFree(s: string, p: nat, key: string, e: nat)
    requires OccursAt(s, p, key) && NoQuote(key) && p <= e < |s| && s[e] == '"'
    ensures p + |key| <= e
  {
  }

  lemma {:induction false} SpacesShift(s: string, p: nat, rest: string, i: nat)
    requires At(s, p, rest)
    ensures CharAt(s, p + i) == CharAt(rest, i)
    ensures SkipSpaces(s, p + i) == p + SkipSpaces(rest, i)
    ensures CharAt(s, SkipSpaces(s, p + i)) == CharAt(rest, SkipSpaces(rest, i))
    decreases |rest| - i
  {
    assert forall k :: 0 <= k < |rest| ==> s[p + k] == rest[k];
    if CharAt(rest, i) == ' ' {
      SpacesShift(s, p, rest, i + 1);
    }
  }

  /** A quoted key with a colon right behind it is found. */
  lemma {:induction false} SegHit(s: string, key: string, p: nat, rest: string)
    requires p > 0 && At(s, p - 1, "\"" + (key + "\":" + rest))
    requires key != ""
    ensures FindKeyFrom(s, key, p) == Some(p + |key| + 2) && At(s, p + |key| + 2, rest)
  {
    AtShift(s, p - 1, "\"", key + "\":" + rest);
    AtShift(s, p, key + "\":", rest);
    AtShift(s, p, key, "\":" + rest);
    assert (key + "\":")[|key|] == '"' && (key + "\":")[|key| + 1] == ':';
  }
}
