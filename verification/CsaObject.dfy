/** What the receiver's substring reader makes of any printed object, not only of
    the ground's frame: first-match lookup. And so which datagrams are ordinary
    traffic, on their bytes. */
module CsaObject {
  import opened CsaText
  import opened CsaFrame
  import opened CsaVehicle
  import opened CsaTiming
  import opened CsaWorld

  // ---- Objects and first-match lookup

  /** Names for keys, no quotes in texts, no NULs. */
  predicate Printable(fs: seq<Field>) {
    && fs != []
    && forall i :: 0 <= i < |fs| ==>
         Clean(fs[i]) && fs[i].0 != "{" && '\0' !in fs[i].0 && (fs[i].1.Txt? ==> '\0' !in fs[i].1.t)
  }

  function ObjectText(fs: seq<Field>): string
    requires fs != []
  {
    Seg("{", Rest(fs))
  }

  function FirstOf(fs: seq<Field>, key: string): Option<Val> {
    if fs == [] then None else if fs[0].0 == key then Some(fs[0].1) else FirstOf(fs[1..], key)
  }

  function IntIn(fs: seq<Field>, key: string): Option<int> {
    match FirstOf(fs, key)
    case Some(Num(n)) => Some(Clamp(n))
    case _ => None
  }

  function TextIn(fs: seq<Field>, key: string): Option<string> {
    match FirstOf(fs, key)
    case Some(Txt(t)) => Some(t)
    case _ => None
  }

  function Cut(t: string, cap: nat): string {
    if |t| <= cap then t else t[..cap]
  }

  lemma {:induction false} FirstIndex(fs: seq<Field>, key: string) returns (i: nat)
    ensures i <= |fs| && forall j :: 0 <= j < i ==> fs[j].0 != key
    ensures FirstOf(fs, key) == if i < |fs| then Some(fs[i].1) else None
    ensures i < |fs| ==> fs[i].0 == key
  {
    if fs == [] || fs[0].0 == key {
      i := 0;
    } else {
      var k := FirstIndex(fs[1..], key);
      i := k + 1;
      forall j | 0 <= j < i ensures fs[j].0 != key {
        if j > 0 {
          assert fs[1..][j - 1].0 != key;
        }
      }
    }
  }

  // ---- A key that is not there

  /** Nothing is found where no quote is left. */
  lemma {:induction false} NothingUnquoted(s: string, key: string, p: nat)
    requires key != "" && forall i :: p <= i < |s| ==> s[i] != '"'
    ensures FindKeyFrom(s, key, p) == None
    decreases |s| - p
  {
    if p < |s| {
      if OccursAt(s, p, key) {
        NothingUnquoted(s, key, p + |key|);
      } else {
        NothingUnquoted(s, key, p + 1);
      }
    }
  }

  lemma {:induction false} NothingInTail(s: string, key: string, p: nat, tail: string)
    requires key != "" && At(s, p, tail) && NoQuote(tail)
    ensures FindKeyFrom(s, key, p) == None
  {
    forall i | p <= i < |s| ensures s[i] != '"' {
      assert s[i] == tail[i - p];
    }
    NothingUnquoted(s, key, p);
  }

  lemma {:induction false} LastValue(fs: seq<Field>)
    requires |fs| == 1
    ensures ":" + ValueOn(fs) == match fs[0].1 case Num(n) => ":" + (Dec(n) + "}\n") case Txt(t) => Seg(":", Seg(t, "}\n"))
  {
    if fs[0].1.Txt? {
      assert ":" + ("\"" + Seg(fs[0].1.t, "}\n")) == Seg(":", Seg(fs[0].1.t, "}\n"));
    }
  }

  lemma {:induction false} AbsentFromLast(s: string, key: string, p: nat, fs: seq<Field>)
    requires |fs| == 1 && Clean(fs[0]) && KeyName(key) && fs[0].0 != key && p > 0 && At(s, p, Rest(fs))
    ensures FindKeyFrom(s, key, p) == None
  {
    LastValue(fs);
    if fs[0].1.Num? {
      AbsentInNumber(s, key, p, fs[0].0, fs[0].1.n, ":" + ValueOn(fs));
    } else {
      AbsentInText(s, key, p, fs[0].0, fs[0].1.t, ":" + ValueOn(fs));
    }
  }

  lemma {:induction false} AbsentInNumber(s: string, key: string, p: nat, k: string, n: int, value: string)
    requires KeyName(k) && KeyName(key) && k != key && p > 0 && At(s, p, Seg(k, value)) && value == ":" + (Dec(n) + "}\n")
    ensures FindKeyFrom(s, key, p) == None
  {
    SkipSeg(s, key, p, k, value);
    DecPlain(n);
    NothingInTail(s, key, p + |k| + 1, value);
  }

  lemma {:induction false} AbsentInText(s: string, key: string, p: nat, k: string, t: string, value: string)
    requires KeyName(k) && KeyName(key) && k != key && NoQuote(t) && p > 0
    requires At(s, p, Seg(k, value)) && value == Seg(":", Seg(t, "}\n"))
    ensures FindKeyFrom(s, key, p) == None
  {
    SkipSeg(s, key, p, k, value);
    AbsentAfterColon(s, key, p + |k| + 1, t, value);
  }

  lemma {:induction false} AbsentAfterColon(s: string, key: string, p: nat, t: string, value: string)
    requires KeyName(key) && NoQuote(t) && p > 0 && At(s, p, value) && value == Seg(":", Seg(t, "}\n"))
    ensures FindKeyFrom(s, key, p) == None
  {
    SkipSeg(s, key, p, ":", Seg(t, "}\n"));
    SkipSeg(s, key, p + 2, t, "}\n");
    NothingInTail(s, key, p + 2 + |t| + 1, "}\n");
  }

  lemma {:induction false} AbsentFrom(s: string, key: string, p: nat, fs: seq<Field>)
    requires fs != [] && KeyName(key) && p > 0 && At(s, p, Rest(fs))
    requires forall j :: 0 <= j < |fs| ==> Clean(fs[j]) && fs[j].0 != key
    ensures FindKeyFrom(s, key, p) == None
    decreases |fs|
  {
    if |fs| == 1 {
      AbsentFromLast(s, key, p, fs);
    } else {
      SkipField(s, key, p, fs);
      AbsentFrom(s, key, p + Width(fs[0]), fs[1..]);
    }
  }

  // ---- Any key of any object

  /** find_key finds the first field with the key, if there is one. */
  lemma {:induction false} FindsFirst(s: string, key: string, fs: seq<Field>)
    requires Printable(fs) && s == ObjectText(fs) && KeyName(key) && key != "{"
    ensures match FirstOf(fs, key)
            case None => FindKeyFrom(s, key, 0) == None
            case Some(v) =>
              exists i :: 0 <= i < |fs| && fs[i] == (key, v) && FindKeyFrom(s, key, 0).Some?
                     && At(s, FindKeyFrom(s, key, 0).value, ValueOn(fs[i..]))
  {
    var i := FirstIndex(fs, key);
    if i < |fs| {
      FieldOfObject(s, key, fs, i);
      assert fs[i] == (key, fs[i].1);
    } else {
      assert s[0] == '{' && s[1] == '"' && At(s, 2, Rest(fs));
      NotAtBrace(s, key);
      AbsentFrom(s, key, 2, fs);
    }
  }

  /** get_int is the first field's number, clamped; a text is none. */
  lemma {:induction false} ReadsInt(s: string, key: string, fs: seq<Field>)
    requires Printable(fs) && s == ObjectText(fs) && KeyName(key) && key != "{"
    ensures IntOf(s, key) == IntIn(fs, key)
  {
    FindsFirst(s, key, fs);
    if FirstOf(fs, key).Some? {
      var r := FindKeyFrom(s, key, 0).value;
      var i :| 0 <= i < |fs| && fs[i] == (key, FirstOf(fs, key).value) && At(s, r, ValueOn(fs[i..]));
      match fs[i].1
      case Num(n) => StrToLLDec(s, r, n, Sep(fs[i..]));
      case Txt(t) => NoNumberAtQuote(s, r, Seg(t, Sep(fs[i..])));
    }
  }

  lemma {:induction false} NoNumberAtQuote(s: string, p: nat, rest: string)
    requires At(s, p, "\"" + rest)
    ensures SkipSpaces(s, p) == p && StrToLL(s, p) == None
  {
    AtShift(s, p, "\"", rest);
    assert s[p] == '"';
    assert DigitsEnd(s, p) == p;
  }

  /** get_str is the first field's text, cut to the buffer; a number is none. */
  lemma {:induction false} ReadsText(s: string, key: string, fs: seq<Field>, cap: nat)
    requires Printable(fs) && s == ObjectText(fs) && KeyName(key) && key != "{" && cap > 0
    ensures StrOf(s, key, cap) == match TextIn(fs, key) case None => None case Some(t) => Some(Cut(t, cap - 1))
  {
    FindsFirst(s, key, fs);
    if FirstOf(fs, key).Some? {
      var r := FindKeyFrom(s, key, 0).value;
      var i :| 0 <= i < |fs| && fs[i] == (key, FirstOf(fs, key).value) && At(s, r, ValueOn(fs[i..]));
      TextFound(s, key, r, fs[i..], cap);
    }
  }

  lemma {:induction false} TextFound(s: string, key: string, r: nat, fs: seq<Field>, cap: nat)
    requires key != "" && cap > 0 && FindKeyFrom(s, key, 0) == Some(r)
    requires fs != [] && At(s, r, ValueOn(fs)) && (fs[0].1.Txt? ==> NoQuote(fs[0].1.t))
    ensures StrOf(s, key, cap) == match fs[0].1 case Num(_) => None case Txt(t) => Some(Cut(t, cap - 1))
  {
    TextAtValue(s, r, fs, cap - 1);
    StrAt(s, key, r, cap);
  }

  lemma {:induction false} StrAt(s: string, key: string, r: nat, cap: nat)
    requires key != "" && cap > 0 && FindKeyFrom(s, key, 0) == Some(r) && SkipSpaces(s, r) == r
    ensures StrOf(s, key, cap) == if CharAt(s, r) != '"' then None else Some(UpToQuote(s, r + 1, cap - 1))
  {
  }

  lemma {:induction false} TextAtValue(s: string, r: nat, fs: seq<Field>, cap: nat)
    requires fs != [] && At(s, r, ValueOn(fs)) && (fs[0].1.Txt? ==> NoQuote(fs[0].1.t))
    ensures SkipSpaces(s, r) == r
    ensures match fs[0].1
            case Num(_) => CharAt(s, r) != '"'
            case Txt(t) => CharAt(s, r) == '"' && UpToQuote(s, r + 1, cap) == Cut(t, cap)
  {
    match fs[0].1
    case Num(n) => NoTextAtNumber(s, r, n, Sep(fs));
    case Txt(t) => TextAt(s, r, t, Sep(fs), cap);
  }

  lemma {:induction false} NoTextAtNumber(s: string, p: nat, n: int, rest: string)
    requires At(s, p, Dec(n) + rest)
    ensures SkipSpaces(s, p) == p && CharAt(s, p) != '"'
  {
    DecPlain(n);
    AtShift(s, p, Dec(n), rest);
    assert s[p] == Dec(n)[0] && Dec(n)[0] in Dec(n);
  }

  lemma {:induction false} TextAt(s: string, p: nat, t: string, rest: string, cap: nat)
    requires At(s, p, "\"" + Seg(t, rest)) && NoQuote(t)
    ensures SkipSpaces(s, p) == p && CharAt(s, p) == '"' && UpToQuote(s, p + 1, cap) == Cut(t, cap)
  {
    AtShift(s, p, "\"", Seg(t, rest));
    assert s[p] == '"';
    assert Seg(t, rest) == t + "\"" + rest;
    SegmentAt(s, p + 1, t, rest);
    forall i | 0 <= i < |t| ensures t[i] != '"' {
      assert t[i] in t;
    }
    CutText(s, p + 1, t, 0, cap);
  }

  lemma {:induction false} CutText(s: string, p: nat, t: string, o: nat, cap: nat)
    requires o <= |t| && o <= cap && p + |t| < |s| && s[p + |t|] == '"'
    requires forall i :: 0 <= i < |t| ==> s[p + i] == t[i] && t[i] != '"'
    ensures UpToQuote(s, p + o, cap - o) == Cut(t, cap)[o..]
    decreases |t| - o
  {
    if o < |t| && o < cap {
      CutText(s, p, t, o + 1, cap);
      CutMore(t, o, cap);
      assert s[p + o] == t[o];
    }
  }

  lemma {:induction false} CutMore(t: string, o: nat, cap: nat)
    requires o < |t| && o < cap
    ensures Cut(t, cap)[o..] == [t[o]] + Cut(t, cap)[o + 1..]
  {
  }

  // ---- What a printed object is to the vehicle

  lemma {:induction false} ObjectIsCString(fs: seq<Field>)
    requires Printable(fs)
    ensures CString(ObjectText(fs)) == ObjectText(fs)
  {
    RestNoNul(fs);
    NoNul(ObjectText(fs));
  }

  /** The type field decides: no csa_ text, no csa frame. */
  lemma {:induction false} TypeDecides(fs: seq<Field>)
    requires Printable(fs)
    ensures var d, t := Classify(CString(ObjectText(fs))), TextIn(fs, "type");
            && (d == Foreign <==> t.None? || !("csa_" <= t.value))
            && (d.CommitFrame? <==> t.Some? && "csa_commit" <= t.value)
  {
    ObjectIsCString(fs);
    ReadsText(ObjectText(fs), "type", fs, 32);
    if TextIn(fs, "type").Some? {
      PrefixOfCut("csa_", TextIn(fs, "type").value, 31);
      PrefixOfCut("csa_commit", TextIn(fs, "type").value, 31);
      assert "csa_" <= "csa_commit";
    }
  }

  lemma {:induction false} PrefixOfCut(p: string, t: string, cap: nat)
    requires |p| <= cap
    ensures p <= Cut(t, cap) <==> p <= t
  {
  }

  /** A frame is malformed exactly when session, time or target is not there as a
      number; every other field has its default. */
  lemma {:induction false} FieldsDecide(fs: seq<Field>)
    requires Printable(fs)
    ensures FieldsAsGiven(ParseCommit(ObjectText(fs)), fs)
  {
    NamedRead(ObjectText(fs), fs);
    FieldsFrom(ObjectText(fs), fs);
  }

  lemma {:induction false} NamedKeys()
    ensures KeyName("sess") && KeyName("seq") && KeyName("dt_to_switch_ms") && KeyName("t_revert_ms")
    ensures KeyName("target_chan") && KeyName("prev_chan") && KeyName("target_ht") && KeyName("prev_ht")
  {
    KeysAreNames();
    assert KEYS[2] == "sess" && KEYS[3] == "seq" && KEYS[5] == "target_chan" && KEYS[6] == "target_ht";
    assert KEYS[7] == "dt_to_switch_ms" && KEYS[8] == "t_revert_ms" && KEYS[9] == "prev_chan" && KEYS[10] == "prev_ht";
  }

  /** Every field of a commit is looked up. */
  predicate Named(s: string, fs: seq<Field>) {
    && IntOf(s, "sess") == IntIn(fs, "sess") && IntOf(s, "seq") == IntIn(fs, "seq")
    && IntOf(s, "dt_to_switch_ms") == IntIn(fs, "dt_to_switch_ms") && IntOf(s, "t_revert_ms") == IntIn(fs, "t_revert_ms")
    && IntOf(s, "target_chan") == IntIn(fs, "target_chan") && IntOf(s, "prev_chan") == IntIn(fs, "prev_chan")
    && StrOf(s, "target_ht", 8) == TextUpTo(fs, "target_ht", 7) && StrOf(s, "prev_ht", 8) == TextUpTo(fs, "prev_ht", 7)
  }

  function TextUpTo(fs: seq<Field>, key: string, cap: nat): Option<string> {
    match TextIn(fs, key)
    case None => None
    case Some(t) => Some(Cut(t, cap))
  }

  lemma {:induction false} NamedRead(s: string, fs: seq<Field>)
    requires Printable(fs) && s == ObjectText(fs)
    ensures Named(s, fs)
  {
    NamedKeys();
    ReadsInt(s, "sess", fs);
    ReadsInt(s, "seq", fs);
    ReadsInt(s, "dt_to_switch_ms", fs);
    ReadsInt(s, "t_revert_ms", fs);
    ReadsInt(s, "target_chan", fs);
    ReadsInt(s, "prev_chan", fs);
    ReadsText(s, "target_ht", fs, 8);
    ReadsText(s, "prev_ht", fs, 8);
  }

  lemma {:induction false} FieldsFrom(s: string, fs: seq<Field>)
    requires Named(s, fs)
    ensures FieldsAsGiven(ParseCommit(s), fs)
  {
  }

  /** The commit has the numbers and texts given, and its defaults. */
  predicate FieldsAsGiven(c: Option<Commit>, fs: seq<Field>) {
    match c
    case None => IntIn(fs, "sess") == None || IntIn(fs, "dt_to_switch_ms") == None || IntIn(fs, "target_chan") == None
    case Some(c) =>
      && Some(c.sess) == IntIn(fs, "sess") && Some(c.dt) == IntIn(fs, "dt_to_switch_ms")
      && Some(c.targetChan) == IntIn(fs, "target_chan")
      && OrElse(c.seqNo, IntIn(fs, "seq"), 0) && OrElse(c.tRevert, IntIn(fs, "t_revert_ms"), 3000)
      && OrElse(c.prevChan, IntIn(fs, "prev_chan"), 0)
      && HtOrElse(c.targetHt, TextIn(fs, "target_ht")) && HtOrElse(c.prevHt, TextIn(fs, "prev_ht"))
  }

  predicate OrElse(v: int, given: Option<int>, default: int) {
    match given
    case Some(n) => v == n
    case None => v == default
  }

  /** A bandwidth of at most seven characters, "HT20" when there is none. */
  predicate HtOrElse(v: string, given: Option<string>) {
    match given
    case Some(t) => v <= t && |v| <= 7 && (|t| <= 7 ==> v == t) && (|t| > 7 ==> |v| == 7)
    case None => v == "HT20"
  }

  // ---- Ordinary traffic

  /** A datagram without a quote in it, or a printed object. */
  datatype Traffic = Raw(bytes: string) | Printed(fields: seq<Field>)

  predicate Ordinary(x: Traffic) {
    match x
    case Raw(b) => NoQuote(b)
    case Printed(fs) =>
      Printable(fs) && match FirstOf(fs, "type") case Some(Txt(t)) => !("csa_" <= t) case _ => true
  }

  function Bytes(x: Traffic): string
    requires Ordinary(x)
  {
    match x
    case Raw(b) => b
    case Printed(fs) => ObjectText(fs)
  }

  lemma {:induction false} OrdinaryIsForeign(x: Traffic)
    requires Ordinary(x)
    ensures Classify(CString(Bytes(x))) == Foreign
  {
    match x
    case Raw(b) =>
      var s := CString(b);
      forall i | 0 <= i < |s| ensures s[i] != '"' {
        assert s[i] == b[i] && b[i] in b;
      }
      NothingUnquoted(s, "type", 0);
    case Printed(fs) => TypeDecides(fs);
  }

  /** Whatever the run before: ordinary traffic ends VERIFY, and never changes
      anything else. */
  lemma {:induction false} TrafficConfirms(cfg: Cfg, es: Run, k: nat, x: Traffic)
    requires k < |es| && Ordinary(x) && es[k].Recv? && es[k].datagram == Classify(CString(Bytes(x)))
    ensures var s := Before(cfg, es, k);
            Before(cfg, es, k + 1) == if s.st == Verify then s.(st := Idle) else s
  {
    OrdinaryIsForeign(x);
  }

  /** So what the vehicle hears in the two-party model is any such datagram. */
  lemma {:induction false} HearingIsTraffic(su: Setup, w: World, t: int, x: Traffic)
    requires Ordinary(x)
    ensures Step(su, w, VehicleHears(t)).v == AfterRecv(w.v, su.cfg, Classify(CString(Bytes(x))), LocalMs(t, su.off))
    ensures w.v.st == Verify ==> Step(su, w, VehicleHears(t)).v.st == Idle
  {
    OrdinaryIsForeign(x);
  }
}
