/** The csa_commit frame: what ground/gs_supervisor_csa.c prints and what
    vehicle/csa/csa.c reads back out of it. */
module CsaFrame {
  import opened Runs
  import opened CsaText

  // ---- Printing

  datatype Val = Num(n: int) | Txt(t: string)

  type Field = (string, Val)

  function Digits(n: nat): (s: string)
    ensures s != "" && forall i :: 0 <= i < |s| ==> IsDigit(s[i])
  {
    (if n < 10 then "" else Digits(n / 10)) + [('0' as int + n % 10) as char]
  }

  /** printf's %u and %d. */
  function Dec(n: int): string {
    if n < 0 then "-" + Digits(-n) else Digits(n)
  }

  /** `a`, a quote, and what follows. */
  function Seg(a: string, rest: string): string {
    a + ("\"" + rest)
  }

  /** The object text `{"k":v,...}` and newline from behind the opening quote
      of its first key on; numbers are bare, texts quoted. */
  function Rest(fs: seq<Field>): string
    requires fs != []
    decreases fs, 2
  {
    Seg(fs[0].0, ":" + ValueOn(fs))
  }

  function ValueOn(fs: seq<Field>): string
    requires fs != []
    decreases fs, 1
  {
    match fs[0].1
    case Num(n) => Dec(n) + Sep(fs)
    case Txt(t) => "\"" + Seg(t, Sep(fs))
  }

  function Sep(fs: seq<Field>): string
    requires fs != []
    decreases fs, 0
  {
    if |fs| == 1 then "}\n" else Seg(",", Rest(fs[1..]))
  }

  /** What the ground arms and prints. */
  datatype Frame = Frame(sess: int, seqNo: int, targetChan: int, targetHt: string, dt: int, tRevert: int,
                         prevChan: int, prevHt: string)

  const KEYS := ["type", "ver", "sess", "seq", "src", "target_chan", "target_ht", "dt_to_switch_ms", "t_revert_ms",
                 "prev_chan", "prev_ht"]

  function Fields(f: Frame): seq<Field> {
    [("type", Txt("csa_commit")), ("ver", Num(1)), ("sess", Num(f.sess)), ("seq", Num(f.seqNo)), ("src", Txt("ground")),
     ("target_chan", Num(f.targetChan)), ("target_ht", Txt(f.targetHt)),
     ("dt_to_switch_ms", Num(f.dt)), ("t_revert_ms", Num(f.tRevert)),
     ("prev_chan", Num(f.prevChan)), ("prev_ht", Txt(f.prevHt))]
  }

  function FrameText(f: Frame): string {
    Seg("{", Rest(Fields(f)))
  }

  // ---- Reading

  datatype Commit = Commit(sess: int, seqNo: int, dt: int, tRevert: int, targetChan: int, prevChan: int,
                           targetHt: string, prevHt: string)

  const HT_LEN := 8

  /** The fields on_commit takes from a frame; None for a malformed one. */
  function ParseCommit(buf: string): Option<Commit> {
    var sess, dt, target := IntOf(buf, "sess"), IntOf(buf, "dt_to_switch_ms"), IntOf(buf, "target_chan");
    if sess.None? || dt.None? || target.None? then None
    else
      Some(Commit(sess.value, GetOr(IntOf(buf, "seq"), 0), dt.value, GetOr(IntOf(buf, "t_revert_ms"), 3000),
                  target.value, GetOr(IntOf(buf, "prev_chan"), 0),
                  GetOr(StrOf(buf, "target_ht", HT_LEN), "HT20"), GetOr(StrOf(buf, "prev_ht", HT_LEN), "HT20")))
  }

  method ReadCommit(buf: string) returns (c: Option<Commit>)
    ensures c == ParseCommit(buf)
  {
    var sess := GetInt(buf, "sess");
    if sess.None? {
      return None;
    }
    var seqNo := GetInt(buf, "seq");
    var dt := GetInt(buf, "dt_to_switch_ms");
    if dt.None? {
      return None;
    }
    var revert := GetInt(buf, "t_revert_ms");
    var target := GetInt(buf, "target_chan");
    if target.None? {
      return None;
    }
    var prev := GetInt(buf, "prev_chan");
    var targetHt := GetStr(buf, "target_ht", HT_LEN);
    var prevHt := GetStr(buf, "prev_ht", HT_LEN);
    return Some(Commit(sess.value, GetOr(seqNo, 0), dt.value, GetOr(revert, 3000), target.value, GetOr(prev, 0),
                       GetOr(targetHt, "HT20"), GetOr(prevHt, "HT20")));
  }

  function GetOr<T>(o: Option<T>, default: T): T {
    if o.Some? then o.value else default
  }

  datatype Datagram = Foreign | OtherCsa | CommitFrame(commit: Option<Commit>)

  /** csa_feed's dispatch on the type field. */
  function Classify(buf: string): Datagram {
    match StrOf(buf, "type", 32)
    case None => Foreign
    case Some(t) =>
      if !("csa_" <= t) then Foreign
      else if "csa_commit" <= t then CommitFrame(ParseCommit(buf))
      else OtherCsa
  }

  // ---- Finding a field of a printed frame

  /** Keys as the format string has them. */
  predicate KeyName(k: string) {
    k != "" && NoQuote(k) && ':' !in k && ',' !in k
  }

  predicate Clean(f: Field) {
    KeyName(f.0) && (f.1.Txt? ==> NoQuote(f.1.t))
  }

  lemma {:induction false} DecPlain(n: int)
    ensures NoQuote(Dec(n)) && ':' !in Dec(n) && Dec(n) != "" && Dec(n)[0] != ' ' && !IsSpace(Dec(n)[0])
  {
  }

  /** find_key steps over the text between two quotes. */
  lemma {:induction false} SkipSeg(s: string, key: string, p: nat, seg: string, rest: string)
    requires p > 0 && At(s, p, Seg(seg, rest))
    requires KeyName(key) && NoQuote(seg) && (seg == key ==> rest != "" && rest[0] != ':' && rest[0] != ' ')
    ensures var q := p + |seg| + 1;
            && FindKeyFrom(s, key, p) == FindKeyFrom(s, key, q) && q <= |s| && s[q - 1] == '"' && At(s, q, rest)
  {
    assert Seg(seg, rest) == seg + "\"" + rest;
    SegSkip(s, key, p, 0, seg, rest);
    AtShift(s, p, seg + "\"", rest);
    assert (seg + "\"")[|seg|] == '"';
  }

  /** The length of a field up to and including the next opening quote. */
  function Width(f: Field): nat {
    |f.0| + 4 + match f.1 case Num(n) => |Dec(n)| case Txt(t) => |t| + 2
  }

  lemma {:induction false} SkipNum(s: string, key: string, p: nat, d: string, next: string)
    requires p > 0 && At(s, p, ":" + (d + Seg(",", next))) && KeyName(key) && NoQuote(d)
    ensures var q := p + |d| + 3;
            && FindKeyFrom(s, key, p) == FindKeyFrom(s, key, q) && q <= |s| && s[q - 1] == '"' && At(s, q, next)
  {
    var seg := ":" + d + ",";
    assert seg[0] == ':' && seg != key;
    assert ":" + (d + Seg(",", next)) == Seg(seg, next);
    SkipSeg(s, key, p, seg, next);
  }

  lemma {:induction false} SkipTxt(s: string, key: string, p: nat, t: string, next: string)
    requires p > 0 && At(s, p, Seg(":", Seg(t, Seg(",", next)))) && KeyName(key) && NoQuote(t)
    ensures var q := p + |t| + 5;
            && FindKeyFrom(s, key, p) == FindKeyFrom(s, key, q) && q <= |s| && s[q - 1] == '"' && At(s, q, next)
  {
    assert key != ":" && key != ",";
    SkipSeg(s, key, p, ":", Seg(t, Seg(",", next)));
    SkipSeg(s, key, p + 2, t, Seg(",", next));
    SkipSeg(s, key, p + 2 + |t| + 1, ",", next);
  }

  lemma {:induction false} ValueThenNext(fs: seq<Field>)
    requires |fs| >= 2
    ensures var next := Seg(",", Rest(fs[1..]));
            ":" + ValueOn(fs) == match fs[0].1
                                 case Num(n) => ":" + (Dec(n) + next)
                                 case Txt(t) => Seg(":", Seg(t, next))
  {
    if fs[0].1.Txt? {
      assert ":" + ("\"" + Seg(fs[0].1.t, Sep(fs))) == Seg(":", Seg(fs[0].1.t, Sep(fs)));
    }
  }

  lemma {:induction false} SkipValue(s: string, key: string, p: nat, fs: seq<Field>)
    requires |fs| >= 2 && Clean(fs[0]) && KeyName(key) && p > 0 && At(s, p, ":" + ValueOn(fs))
    ensures var q := p + Width(fs[0]) - |fs[0].0| - 1;
            && FindKeyFrom(s, key, p) == FindKeyFrom(s, key, q)
            && q <= |s| && s[q - 1] == '"' && At(s, q, Rest(fs[1..]))
  {
    ValueThenNext(fs);
    SkipValueTo(s, key, p, fs[0], Rest(fs[1..]));
  }

  lemma {:induction false} SkipValueTo(s: string, key: string, p: nat, f: Field, next: string)
    requires Clean(f) && KeyName(key) && p > 0
    requires At(s, p, match f.1 case Num(n) => ":" + (Dec(n) + Seg(",", next)) case Txt(t) => Seg(":", Seg(t, Seg(",", next))))
    ensures var q := p + Width(f) - |f.0| - 1;
            FindKeyFrom(s, key, p) == FindKeyFrom(s, key, q) && q <= |s| && s[q - 1] == '"' && At(s, q, next)
  {
    match f.1
    case Num(n) =>
      DecPlain(n);
      SkipNum(s, key, p, Dec(n), next);
    case Txt(t) =>
      SkipTxt(s, key, p, t, next);
  }

  /** find_key steps over a whole field with another key. */
  lemma {:induction false} SkipField(s: string, key: string, p: nat, fs: seq<Field>)
    requires |fs| >= 2 && Clean(fs[0]) && KeyName(key) && fs[0].0 != key
    requires p > 0 && At(s, p, Rest(fs))
    ensures var q := p + Width(fs[0]);
            && FindKeyFrom(s, key, p) == FindKeyFrom(s, key, q)
            && q <= |s| && s[q - 1] == '"' && At(s, q, Rest(fs[1..]))
  {
    var k := fs[0].0;
    SkipSeg(s, key, p, k, ":" + ValueOn(fs));
    SkipValue(s, key, p + |k| + 1, fs);
  }

  /** find_key on a printed frame finds the first field with the key, and the
      text after it is that field's value. Only fields before it must be free
      of stray quotes. */
  lemma {:induction false} FindField(s: string, key: string, p: nat, fs: seq<Field>, i: nat)
    requires 0 < p <= |s| && s[p - 1] == '"' && fs != [] && At(s, p, Rest(fs))
    requires KeyName(key) && i < |fs| && fs[i].0 == key
    requires forall j :: 0 <= j < i ==> Clean(fs[j]) && fs[j].0 != key
    ensures var r := FindKeyFrom(s, key, p); r.Some? && At(s, r.value, ValueOn(fs[i..]))
    decreases i
  {
    if i == 0 {
      assert fs[0..] == fs;
      HitField(s, key, p, ValueOn(fs));
    } else {
      SkipField(s, key, p, fs);
      assert fs[1..][i - 1..] == fs[i..];
      FindField(s, key, p + Width(fs[0]), fs[1..], i - 1);
    }
  }

  lemma {:induction false} HitField(s: string, key: string, p: nat, value: string)
    requires 0 < p <= |s| && s[p - 1] == '"' && At(s, p, Seg(key, ":" + value)) && key != ""
    ensures FindKeyFrom(s, key, p) == Some(p + |key| + 2) && At(s, p + |key| + 2, value)
  {
    assert s[p - 1..] == "\"" + s[p..];
    assert Seg(key, ":" + value) == key + "\":" + value;
    SegHit(s, key, p, value);
  }

  /** The same from the start of the frame. */
  lemma {:induction false} FieldOfObject(s: string, key: string, fs: seq<Field>, i: nat)
    requires fs != [] && s == Seg("{", Rest(fs))
    requires KeyName(key) && key != "{" && i < |fs| && fs[i].0 == key
    requires forall j :: 0 <= j < i ==> Clean(fs[j]) && fs[j].0 != key
    ensures var r := FindKeyFrom(s, key, 0); r.Some? && At(s, r.value, ValueOn(fs[i..]))
  {
    assert s[0] == '{' && s[1] == '"' && At(s, 2, Rest(fs));
    NotAtBrace(s, key);
    FindField(s, key, 2, fs, i);
  }

  lemma {:induction false} NotAtBrace(s: string, key: string)
    requires |s| > 2 && s[0] == '{' && s[1] == '"' && NoQuote(key) && key != "" && key != "{"
    ensures FindKeyFrom(s, key, 0) == FindKeyFrom(s, key, 2)
  {
    assert !OccursAt(s, 0, key);
    assert !OccursAt(s, 1, key);
  }

  // ---- Reading a value back

  lemma {:induction false} SpelledDigits(n: nat)
    ensures Spelled(Digits(n)) == n
  {
    var ds := Digits(n);
    if n >= 10 {
      SpelledDigits(n / 10);
      assert ds[..|ds| - 1] == Digits(n / 10);
    } else {
      assert ds[..|ds| - 1] == "";
    }
  }

  lemma {:induction false} DigitsEndAt(s: string, d: nat, i: nat, ds: string, rest: string)
    requires At(s, d, ds + rest) && i <= |ds| && (forall k :: 0 <= k < |ds| ==> IsDigit(ds[k]))
    requires rest != "" && !IsDigit(rest[0])
    ensures DigitsEnd(s, d + i) == d + |ds| && s[d..d + |ds|] == ds
    decreases |ds| - i
  {
    AtShift(s, d, ds, rest);
    AtShift(s, d + |ds|, rest, "");
    assert rest + "" == rest;
    if i < |ds| {
      DigitsEndAt(s, d, i + 1, ds, rest);
    }
  }

  lemma {:induction false} DigitsRead(s: string, d: nat, n: nat, rest: string)
    requires d <= |s| && At(s, d, Digits(n) + rest) && rest != "" && !IsDigit(rest[0])
    ensures var e := DigitsEnd(s, d); d < e <= |s| && s[d..e] == Digits(n) && Spelled(s[d..e]) == n
  {
    DigitsEndAt(s, d, 0, Digits(n), rest);
    AtShift(s, d, Digits(n), rest);
    SpelledDigits(n);
  }

  lemma {:induction false} StrToLLNat(s: string, p: nat, d: nat, n: nat)
    requires AfterBlanks(s, p) == p && d == if CharAt(s, p) == '-' || CharAt(s, p) == '+' then p + 1 else p
    requires var e := DigitsEnd(s, d); d < e <= |s| && Spelled(s[d..e]) == n
    ensures StrToLL(s, p) == Some(Clamp(if CharAt(s, p) == '-' then 0 - n else n))
  {
  }

  lemma {:induction false} StrToLLPositive(s: string, p: nat, n: nat, rest: string)
    requires At(s, p, Digits(n) + rest) && rest != "" && !IsDigit(rest[0])
    ensures SkipSpaces(s, p) == p && StrToLL(s, p) == Some(Clamp(n))
  {
    AtShift(s, p, Digits(n), rest);
    assert s[p] == Digits(n)[0] && IsDigit(s[p]);
    DigitsRead(s, p, n, rest);
    StrToLLNat(s, p, p, n);
  }

  lemma {:induction false} StrToLLNegative(s: string, p: nat, n: nat, rest: string)
    requires At(s, p, "-" + (Digits(n) + rest)) && rest != "" && !IsDigit(rest[0])
    ensures SkipSpaces(s, p) == p && StrToLL(s, p) == Some(Clamp(0 - n))
  {
    AtShift(s, p, "-", Digits(n) + rest);
    assert s[p] == "-"[0];
    DigitsRead(s, p + 1, n, rest);
    StrToLLNat(s, p, p + 1, n);
  }

  /** strtoll reads back what %d printed. */
  lemma {:induction false} StrToLLDec(s: string, p: nat, n: int, rest: string)
    requires At(s, p, Dec(n) + rest) && rest != "" && !IsDigit(rest[0])
    ensures SkipSpaces(s, p) == p && StrToLL(s, p) == Some(Clamp(n))
  {
    if n < 0 {
      assert Dec(n) + rest == "-" + (Digits(-n) + rest);
      StrToLLNegative(s, p, -n, rest);
    } else {
      StrToLLPositive(s, p, n, rest);
    }
  }

  /** A text up to its first quote. */
  function Unquoted(t: string): string {
    if t == "" || t[0] == '"' then "" else [t[0]] + Unquoted(t[1..])
  }

  lemma {:induction false} UnquotedIff(t: string)
    ensures Unquoted(t) == t <==> NoQuote(t)
  {
    if t != "" {
      assert t == [t[0]] + t[1..];
      assert t[0] in t;
      UnquotedIff(t[1..]);
    }
  }

  lemma {:induction false} UpToQuoteText(s: string, p: nat, t: string, rest: string, cap: nat)
    requires At(s, p, Seg(t, rest)) && |t| <= cap
    ensures UpToQuote(s, p, cap) == Unquoted(t)
    decreases |t|
  {
    AtShift(s, p, t, "\"" + rest);
    if t == "" {
      AtShift(s, p, "\"", rest);
    } else {
      assert Seg(t, rest) == [t[0]] + Seg(t[1..], rest);
      AtShift(s, p, [t[0]], Seg(t[1..], rest));
      assert s[p] == t[0];
      assert t == [t[0]] + t[1..];
      UpToQuoteText(s, p + 1, t[1..], rest, cap - 1);
    }
  }

  lemma {:induction false} IntField(s: string, key: string, fs: seq<Field>, i: nat, n: int)
    requires fs != [] && s == Seg("{", Rest(fs))
    requires KeyName(key) && key != "{" && i < |fs| && fs[i] == (key, Num(n))
    requires forall j :: 0 <= j < i ==> Clean(fs[j]) && fs[j].0 != key
    ensures IntOf(s, key) == Some(Clamp(n))
  {
    FieldOfObject(s, key, fs, i);
    StrToLLDec(s, FindKeyFrom(s, key, 0).value, n, Sep(fs[i..]));
  }

  lemma {:induction false} TextField(s: string, key: string, fs: seq<Field>, i: nat, t: string, cap: nat)
    requires fs != [] && s == Seg("{", Rest(fs))
    requires KeyName(key) && key != "{" && i < |fs| && fs[i] == (key, Txt(t)) && |t| < cap
    requires forall j :: 0 <= j < i ==> Clean(fs[j]) && fs[j].0 != key
    ensures StrOf(s, key, cap) == Some(Unquoted(t))
  {
    FieldOfObject(s, key, fs, i);
    QuotedText(s, key, t, Sep(fs[i..]), cap);
  }

  lemma {:induction false} QuotedText(s: string, key: string, t: string, rest: string, cap: nat)
    requires key != "" && |t| < cap
    requires var r := FindKeyFrom(s, key, 0); r.Some? && At(s, r.value, "\"" + Seg(t, rest))
    ensures StrOf(s, key, cap) == Some(Unquoted(t))
  {
    var r := FindKeyFrom(s, key, 0).value;
    AtShift(s, r, "\"", Seg(t, rest));
    assert s[r] == '"';
    UpToQuoteText(s, r + 1, t, rest, cap - 1);
  }

  /** What the ground can arm: the HTTP handler's range checks and clamps, C's
      integer widths and the 8-byte buffers. */
  predicate Armable(f: Frame) {
    && 0 <= f.sess < U32 && 0 <= f.seqNo < U32
    && 1 <= f.targetChan <= 200 && f.targetHt in {"HT20", "HT40+", "HT40-"}
    && 0 <= f.dt <= 5000 && 500 <= f.tRevert <= 30000
    && -0x8000_0000 <= f.prevChan < 0x8000_0000 && |f.prevHt| < HT_LEN && '\0' !in f.prevHt
  }

  function CommitOf(f: Frame): Commit {
    Commit(f.sess, f.seqNo, f.dt, f.tRevert, f.targetChan, f.prevChan, f.targetHt, f.prevHt)
  }

  /** The format string's keys are names, all different, and only the last
      value can hold a quote. */
  lemma {:induction false} FormatClean(f: Frame)
    requires Armable(f)
    ensures forall i :: 0 <= i < 11 ==> KeyName(Fields(f)[i].0) && Fields(f)[i].0 != "{"
    ensures forall j :: 0 <= j < 10 ==> Clean(Fields(f)[j])
    ensures forall i, j :: 0 <= j < i < 11 ==> Fields(f)[j].0 != Fields(f)[i].0
  {
    assert forall i :: 0 <= i < 11 ==> Fields(f)[i].0 == KEYS[i];
    KeysAreNames();
    KeysDiffer();
  }

  lemma {:induction false} KeysAreNames()
    ensures forall i :: 0 <= i < 11 ==> KeyName(KEYS[i]) && KEYS[i] != "{" && '\0' !in KEYS[i]
  {
  }

  lemma {:induction false} KeysDiffer()
    ensures forall i, j :: 0 <= j < i < 11 ==> KEYS[j] != KEYS[i]
  {
  }

  /** What the vehicle makes of a printed frame: a csa_commit with every printed
      value; only prev_ht is cut at its first quote. */
  function ReadBack(f: Frame): Datagram {
    CommitFrame(Some(CommitOf(f).(prevHt := Unquoted(f.prevHt))))
  }

  /** The round trip, for every frame the ground can arm; it is exact but for a
      prev_ht with a quote in it, which never comes back. */
  lemma {:induction false} FrameRoundTrip(f: Frame)
    requires Armable(f)
    ensures Classify(CString(FrameText(f))) == ReadBack(f)
    ensures ReadBack(f) == CommitFrame(Some(CommitOf(f))) <==> NoQuote(f.prevHt)
  {
    var s, fs := FrameText(f), Fields(f);
    PrintedIsCString(f);
    UnquotedIff(f.prevHt);
    CommitBack(f, s);
    TypeBack(f, s, fs);
    CommitType(s);
  }

  lemma {:induction false} CommitType(s: string)
    requires StrOf(s, "type", 32) == Some("csa_commit")
    ensures Classify(s) == CommitFrame(ParseCommit(s))
  {
    assert "csa_" <= "csa_commit";
  }

  lemma {:induction false} CommitBack(f: Frame, s: string)
    requires Armable(f) && s == FrameText(f)
    ensures ParseCommit(s) == Some(CommitOf(f).(prevHt := Unquoted(f.prevHt)))
  {
    var fs := Fields(f);
    NamesBack(f, s, fs);
    ChannelsBack(f, s, fs);
    TimesBack(f, s, fs);
    HtBack(f, s, fs);
  }

  lemma {:induction false} IntBack(f: Frame, s: string, fs: seq<Field>, i: nat, key: string, n: int)
    requires Armable(f) && fs == Fields(f) && s == FrameText(f)
    requires i < 11 && fs[i] == (key, Num(n)) && LLONG_MIN <= n <= LLONG_MAX
    ensures key != "" && IntOf(s, key) == Some(n)
  {
    FormatClean(f);
    IntField(s, key, fs, i, n);
  }

  lemma {:induction false} NamesBack(f: Frame, s: string, fs: seq<Field>)
    requires Armable(f) && fs == Fields(f) && s == FrameText(f)
    ensures IntOf(s, "sess") == Some(f.sess) && IntOf(s, "seq") == Some(f.seqNo)
  {
    IntBack(f, s, fs, 2, "sess", f.sess);
    IntBack(f, s, fs, 3, "seq", f.seqNo);
  }

  lemma {:induction false} ChannelsBack(f: Frame, s: string, fs: seq<Field>)
    requires Armable(f) && fs == Fields(f) && s == FrameText(f)
    ensures IntOf(s, "target_chan") == Some(f.targetChan) && IntOf(s, "prev_chan") == Some(f.prevChan)
  {
    IntBack(f, s, fs, 5, "target_chan", f.targetChan);
    IntBack(f, s, fs, 9, "prev_chan", f.prevChan);
  }

  lemma {:induction false} TimesBack(f: Frame, s: string, fs: seq<Field>)
    requires Armable(f) && fs == Fields(f) && s == FrameText(f)
    ensures IntOf(s, "dt_to_switch_ms") == Some(f.dt) && IntOf(s, "t_revert_ms") == Some(f.tRevert)
  {
    IntBack(f, s, fs, 7, "dt_to_switch_ms", f.dt);
    IntBack(f, s, fs, 8, "t_revert_ms", f.tRevert);
  }

  lemma {:induction false} TextBack(f: Frame, s: string, fs: seq<Field>, i: nat, key: string, t: string, cap: nat)
    requires Armable(f) && fs == Fields(f) && s == FrameText(f)
    requires i < 11 && fs[i] == (key, Txt(t)) && |t| < cap
    ensures key != "" && StrOf(s, key, cap) == Some(Unquoted(t))
  {
    FormatClean(f);
    TextField(s, key, fs, i, t, cap);
  }

  lemma {:induction false} TypeBack(f: Frame, s: string, fs: seq<Field>)
    requires Armable(f) && fs == Fields(f) && s == FrameText(f)
    ensures StrOf(s, "type", 32) == Some("csa_commit")
  {
    UnquotedIff("csa_commit");
    TextBack(f, s, fs, 0, "type", "csa_commit", 32);
  }

  lemma {:induction false} HtBack(f: Frame, s: string, fs: seq<Field>)
    requires Armable(f) && fs == Fields(f) && s == FrameText(f)
    ensures StrOf(s, "target_ht", HT_LEN) == Some(f.targetHt)
    ensures StrOf(s, "prev_ht", HT_LEN) == Some(Unquoted(f.prevHt))
  {
    UnquotedIff(f.targetHt);
    TextBack(f, s, fs, 6, "target_ht", f.targetHt, HT_LEN);
    TextBack(f, s, fs, 10, "prev_ht", f.prevHt, HT_LEN);
  }

  lemma {:induction false} NoNul(s: string)
    requires '\0' !in s
    ensures CString(s) == s
  {
    if s != "" {
      assert s[0] in s;
      NoNul(s[1..]);
    }
  }

  lemma {:induction false} RestNoNul(fs: seq<Field>)
    requires fs != [] && forall i :: 0 <= i < |fs| ==> '\0' !in fs[i].0 && (fs[i].1.Txt? ==> '\0' !in fs[i].1.t)
    ensures '\0' !in Rest(fs)
  {
    assert fs[0].1.Num? ==> '\0' !in Dec(fs[0].1.n);
    if |fs| > 1 {
      RestNoNul(fs[1..]);
    }
    assert '\0' !in Sep(fs);
    assert '\0' !in ValueOn(fs);
  }

  lemma {:induction false} PrintedIsCString(f: Frame)
    requires Armable(f)
    ensures CString(FrameText(f)) == FrameText(f)
  {
    var fs := Fields(f);
    assert forall i :: 0 <= i < 11 ==> fs[i].0 == KEYS[i];
    KeysAreNames();
    RestNoNul(fs);
    NoNul(FrameText(f));
  }

  /** A datagram with any other csa type, printed as an object, is consumed as CSA
      and is no csa_commit. */
  lemma {:induction false} OtherTypeIsOther(t: string)
    requires NoQuote(t) && '\0' !in t && |t| < 32 && "csa_" <= t && !("csa_commit" <= t)
    ensures Classify(CString(Seg("{", Rest([("type", Txt(t))])))) == OtherCsa
  {
    var fs: seq<Field> := [("type", Txt(t))];
    var s := Seg("{", Rest(fs));
    RestNoNul(fs);
    NoNul(s);
    UnquotedIff(t);
    TextField(s, "type", fs, 0, t, 32);
  }

  /** The HTTP handler percent-decodes prev_ht without looking at it, so such a
      value can be armed. */
  lemma QuotedHtIsLost()
    ensures var f := Frame(1, 0, 149, "HT20", 500, 3000, 161, "HT\"20");
            Armable(f) && Classify(CString(FrameText(f))) != CommitFrame(Some(CommitOf(f)))
  {
    var f := Frame(1, 0, 149, "HT20", 500, 3000, 161, "HT\"20");
    assert f.prevHt[2] == '"';
    FrameRoundTrip(f);
  }
}
