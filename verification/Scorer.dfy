/** The scorer of archive/c-poc/mcs_selector.c: antenna readings and loss counts
    become one smoothed, penalised signal level; and what its smoothing means
    for the selector behind it. */
module Scorer {
  import opened Runs
  import opened SelectorSpec
  import opened SelectorBounds

  datatype Aggregator = BestAvg | BestMax | MeanAvg

  datatype ScorerCfg = ScorerCfg(aggregator: Aggregator, rssiAlpha: real, lossAlpha: real, lostPenalty: real,
                                 recoveredPenalty: real, penaltyMax: real)

  datatype Ant = Ant(avg: int, max: int)

  /** One datagram: its antenna entries and packet counts. */
  datatype Reading = Reading(ants: seq<Ant>, uniq: int, lost: int, recovered: int)

  datatype Smoothed = Smoothed(haveRssi: bool, rssi: real, haveLoss: bool, lost: real, recov: real)

  const FRESH := Smoothed(false, 0.0, false, 0.0, 0.0)

  // ---- One datagram

  function Level(agg: Aggregator, a: Ant): int {
    if agg == BestMax then a.max else a.avg
  }

  function Best(agg: Aggregator, ants: seq<Ant>): (b: int)
    requires ants != []
    ensures forall i :: 0 <= i < |ants| ==> Level(agg, ants[i]) <= b
    ensures exists i :: 0 <= i < |ants| && Level(agg, ants[i]) == b
  {
    if |ants| == 1 then Level(agg, ants[0])
    else
      var b := Best(agg, Front(ants));
      if Level(agg, Last(ants)) > b then Level(agg, Last(ants)) else b
  }

  function AvgSum(ants: seq<Ant>): int {
    if ants == [] then 0 else AvgSum(Front(ants)) + Last(ants).avg
  }

  function Raw(cfg: ScorerCfg, ants: seq<Ant>): real
    requires ants != []
  {
    if cfg.aggregator == MeanAvg then AvgSum(ants) as real / |ants| as real else Best(cfg.aggregator, ants) as real
  }

  function LossRatio(count: int, uniq: int): (r: real)
    ensures 0.0 <= r <= 1.0
  {
    if count <= 0 then 0.0
    else
      var r := count as real / (if uniq > 0 then uniq else 1) as real;
      if r > 1.0 then 1.0 else r
  }

  function Blend(have: bool, alpha: real, x: real, prior: real): real {
    if have then alpha * x + (1.0 - alpha) * prior else x
  }

  function Smooth(cfg: ScorerCfg, s: Smoothed, r: Reading): Smoothed
    requires r.ants != []
  {
    Smoothed(true, Blend(s.haveRssi, cfg.rssiAlpha, Raw(cfg, r.ants), s.rssi),
             true, Blend(s.haveLoss, cfg.lossAlpha, LossRatio(r.lost, r.uniq), s.lost),
             Blend(s.haveLoss, cfg.lossAlpha, LossRatio(r.recovered, r.uniq), s.recov))
  }

  function Penalty(cfg: ScorerCfg, lost: real, recov: real): real {
    Weighed(LostWeight(cfg), RecoveredWeight(cfg), cfg.penaltyMax, lost, recov)
  }

  function Weighed(w1: real, w2: real, max: real, lost: real, recov: real): real {
    Capped(w1 * lost + w2 * recov, max)
  }

  function Capped(p: real, max: real): real {
    var p := if p < 0.0 then 0.0 else p;
    if p > max then max else p
  }

  function Effective(cfg: ScorerCfg, s: Smoothed): real {
    s.rssi - Penalty(cfg, s.lost, s.recov)
  }

  class ScorerState {
    const cfg: ScorerCfg
    var smoothedRssi: real
    var smoothedLost: real
    var smoothedRecov: real
    var haveRssi: bool
    var haveLoss: bool

    function Now(): Smoothed
      reads this
    {
      Smoothed(haveRssi, smoothedRssi, haveLoss, smoothedLost, smoothedRecov)
    }

    constructor (cfg: ScorerCfg)
      ensures this.cfg == cfg && Now() == FRESH
    {
      this.cfg := cfg;
      smoothedRssi, smoothedLost, smoothedRecov, haveRssi, haveLoss := 0.0, 0.0, 0.0, false, false;
    }

    /** scorer_update: false when no antenna reported. */
    method Update(r: Reading) returns (ok: bool, effective: real)
      modifies this
      ensures ok == (r.ants != [])
      ensures Now() == if ok then Smooth(cfg, old(Now()), r) else old(Now())
      ensures ok ==> effective == Effective(cfg, Now())
    {
      if r.ants == [] {
        return false, 0.0;
      }
      var raw := Aggregate(cfg, r.ants);
      smoothedRssi := Blend(haveRssi, cfg.rssiAlpha, raw, smoothedRssi);
      haveRssi := true;
      var lostR, recovR := LossRatio(r.lost, r.uniq), LossRatio(r.recovered, r.uniq);
      smoothedLost := Blend(haveLoss, cfg.lossAlpha, lostR, smoothedLost);
      smoothedRecov := Blend(haveLoss, cfg.lossAlpha, recovR, smoothedRecov);
      haveLoss := true;
      return true, smoothedRssi - Penalty(cfg, smoothedLost, smoothedRecov);
    }
  }

  /** The antenna loop. */
  method Aggregate(cfg: ScorerCfg, ants: seq<Ant>) returns (raw: real)
    requires ants != []
    ensures raw == Raw(cfg, ants)
  {
    var best, sum := -200, 0;
    for i := 0 to |ants|
      invariant cfg.aggregator == MeanAvg ==> sum == AvgSum(ants[..i])
      invariant cfg.aggregator != MeanAvg && i > 0 ==> best == Best(cfg.aggregator, ants[..i])
    {
      assert Front(ants[..i + 1]) == ants[..i];
      var val := Level(cfg.aggregator, ants[i]);
      if cfg.aggregator == MeanAvg {
        sum := sum + ants[i].avg;
      } else if i == 0 || val > best {
        best := val;
      }
    }
    assert ants[..|ants|] == ants;
    raw := if cfg.aggregator == MeanAvg then sum as real / |ants| as real else best as real;
  }

  // ---- What a reading says

  /** The raw level is the highest average, the highest maximum, or the mean of the
      averages. */
  lemma {:induction false} RawIs(cfg: ScorerCfg, ants: seq<Ant>)
    requires ants != []
    ensures cfg.aggregator == BestAvg ==>
              && (forall i :: 0 <= i < |ants| ==> ants[i].avg as real <= Raw(cfg, ants))
              && (exists i :: 0 <= i < |ants| && ants[i].avg as real == Raw(cfg, ants))
    ensures cfg.aggregator == BestMax ==>
              && (forall i :: 0 <= i < |ants| ==> ants[i].max as real <= Raw(cfg, ants))
              && (exists i :: 0 <= i < |ants| && ants[i].max as real == Raw(cfg, ants))
    ensures cfg.aggregator == MeanAvg ==> Raw(cfg, ants) * |ants| as real == Averages(ants) as real
  {
    if cfg.aggregator == MeanAvg {
      SumsAlike(ants);
      Share(AvgSum(ants) as real, |ants| as real);
    } else {
      var b := Best(cfg.aggregator, ants);
      forall i | 0 <= i < |ants| ensures Level(cfg.aggregator, ants[i]) <= b {
      }
      var i :| 0 <= i < |ants| && Level(cfg.aggregator, ants[i]) == b;
      assert ants[i].avg as real == b as real || ants[i].max as real == b as real;
    }
  }

  /** The sum of the averages, from the first on. */
  function Averages(ants: seq<Ant>): int {
    if ants == [] then 0 else ants[0].avg + Averages(ants[1..])
  }

  lemma {:induction false} SumsAlike(ants: seq<Ant>)
    ensures AvgSum(ants) == Averages(ants)
  {
    if |ants| == 1 {
      assert Front(ants) == [] && ants[1..] == [];
    } else if ants != [] {
      SumsAlike(ants[1..]);
      SumsAlike(Front(ants));
      SumsAlike(Front(ants[1..]));
      assert Front(ants)[1..] == Front(ants[1..]) && Last(ants[1..]) == Last(ants);
    }
  }

  lemma {:induction false} Share(a: real, b: real)
    requires b > 0.0
    ensures a / b * b == a
  {
  }

  /** The loss ratio is the share of the unique packets: 0 for none, 1 when more
      are counted than that. */
  lemma {:induction false} LossIsShare(count: int, uniq: int)
    ensures 0 <= count <= uniq && uniq > 0 ==> LossRatio(count, uniq) * uniq as real == count as real
    ensures count <= 0 ==> LossRatio(count, uniq) == 0.0
    ensures count > 0 && count >= uniq ==> LossRatio(count, uniq) == 1.0
  {
    var d := (if uniq > 0 then uniq else 1) as real;
    Share(count as real, d);
    if count > 0 && count >= uniq {
      AtLeastOne(count as real, d);
    } else if count > 0 {
      AtMostOne(count as real, d);
    }
  }

  lemma {:induction false} AtLeastOne(a: real, b: real)
    requires a >= b > 0.0
    ensures a / b >= 1.0
  {
  }

  lemma {:induction false} AtMostOne(a: real, b: real)
    requires b > 0.0 && a <= b
    ensures a / b <= 1.0
  {
  }

  /** The first reading is taken as it is; a later one moves each average by its
      weight's share of the way. */
  lemma {:induction false} SmoothMoves(cfg: ScorerCfg, s: Smoothed, r: Reading)
    requires r.ants != []
    ensures var t := Smooth(cfg, s, r);
            && t.haveRssi && t.haveLoss
            && Follows(s.haveRssi, cfg.rssiAlpha, s.rssi, Raw(cfg, r.ants), t.rssi)
            && Follows(s.haveLoss, cfg.lossAlpha, s.lost, LossRatio(r.lost, r.uniq), t.lost)
            && Follows(s.haveLoss, cfg.lossAlpha, s.recov, LossRatio(r.recovered, r.uniq), t.recov)
  {
    BlendFollows(s.haveRssi, cfg.rssiAlpha, s.rssi, Raw(cfg, r.ants));
    BlendFollows(s.haveLoss, cfg.lossAlpha, s.lost, LossRatio(r.lost, r.uniq));
    BlendFollows(s.haveLoss, cfg.lossAlpha, s.recov, LossRatio(r.recovered, r.uniq));
  }

  predicate Follows(have: bool, alpha: real, prior: real, x: real, t: real) {
    if have then t - prior == alpha * (x - prior) else t == x
  }

  lemma {:induction false} BlendFollows(have: bool, alpha: real, prior: real, x: real)
    ensures Follows(have, alpha, prior, x, Blend(have, alpha, x, prior))
  {
  }

  /** The effective level is the smoothed one less 100 times the weighted ratios,
      a penalty kept between 0 and its maximum. */
  lemma {:induction false} EffectiveIs(cfg: ScorerCfg, s: Smoothed)
    requires cfg.penaltyMax >= 0.0
    ensures var off := s.rssi - Effective(cfg, s);
            var full := cfg.lostPenalty * 100.0 * s.lost + cfg.recoveredPenalty * 100.0 * s.recov;
            && 0.0 <= off <= cfg.penaltyMax
            && (0.0 <= full <= cfg.penaltyMax ==> off == full)
            && (full < 0.0 ==> off == 0.0) && (full > cfg.penaltyMax ==> off == cfg.penaltyMax)
  {
    CappedIs(LostWeight(cfg) * s.lost + RecoveredWeight(cfg) * s.recov, cfg.penaltyMax);
  }

  lemma {:induction false} CappedIs(p: real, max: real)
    requires max >= 0.0
    ensures 0.0 <= Capped(p, max) <= max && (0.0 <= p <= max ==> Capped(p, max) == p)
    ensures (p < 0.0 ==> Capped(p, max) == 0.0) && (p > max ==> Capped(p, max) == max)
  {
  }

  // ---- Smoothing does not add variation

  /** Averages that average, and penalties that do not reward. */
  predicate Ranged(cfg: ScorerCfg) {
    && 0.0 < cfg.rssiAlpha <= 1.0 && 0.0 < cfg.lossAlpha <= 1.0
    && cfg.lostPenalty >= 0.0 && cfg.recoveredPenalty >= 0.0 && cfg.penaltyMax >= 0.0
  }

  /** One step of the moving average: what it moves, and how far it then is from
      its input, is paid for by the input's move and the distance before. */
  lemma {:induction false} BlendContracts(alpha: real, x: real, y: real, s: real, t: real)
    requires 0.0 < alpha <= 1.0 && t == Blend(true, alpha, y, s)
    ensures Abs(t - s) + Abs(y - t) <= Abs(y - x) + Abs(x - s)
  {
    var d := y - s;
    BlendParts(alpha, y, s, t, d);
    Split(alpha, d);
    Triangle(y, x, s);
  }

  lemma {:induction false} BlendParts(alpha: real, y: real, s: real, t: real, d: real)
    requires t == alpha * y + (1.0 - alpha) * s && d == y - s
    ensures t - s == alpha * d && y - t == (1.0 - alpha) * d
  {
  }

  lemma {:induction false} Nonnegative(a: real, b: real)
    requires a >= 0.0 && b >= 0.0
    ensures a * b >= 0.0
  {
  }

  lemma {:induction false} Opposite(w: real, d: real)
    ensures w * -d == -(w * d)
  {
  }

  lemma {:induction false} AbsScales(w: real, d: real)
    requires w >= 0.0
    ensures Abs(w * d) == w * Abs(d)
  {
    if d < 0.0 {
      Opposite(w, d);
      Nonnegative(w, -d);
    } else {
      Nonnegative(w, d);
    }
  }

  lemma {:induction false} Shares(a: real, x: real)
    ensures a * x + (1.0 - a) * x == x
  {
  }

  lemma {:induction false} Split(a: real, d: real)
    requires 0.0 <= a <= 1.0
    ensures Abs(a * d) + Abs((1.0 - a) * d) == Abs(d)
  {
    AbsScales(a, d);
    AbsScales(1.0 - a, d);
    Shares(a, Abs(d));
  }

  predicate Within(d: real, a: real, b: real) {
    d <= a + b
  }

  /** A distance between two ratios, in dB. */
  function Cost(w: real, a: real, b: real): real {
    w * Abs(a - b)
  }

  /** The penalty moves at most with its inputs. */
  lemma {:induction false} PenaltyIsLipschitz(cfg: ScorerCfg, l: real, f: real, l1: real, f1: real)
    requires Ranged(cfg)
    ensures Within(Abs(Penalty(cfg, l1, f1) - Penalty(cfg, l, f)),
                   Cost(LostWeight(cfg), l1, l), Cost(RecoveredWeight(cfg), f1, f))
  {
    assert LostWeight(cfg) >= 0.0 && RecoveredWeight(cfg) >= 0.0;
    WeighedIsLipschitz(LostWeight(cfg), RecoveredWeight(cfg), cfg.penaltyMax, l, f, l1, f1);
  }

  lemma {:induction false} WeighedIsLipschitz(w1: real, w2: real, max: real, l: real, f: real, l1: real, f1: real)
    requires w1 >= 0.0 && w2 >= 0.0 && max >= 0.0
    ensures Within(Abs(Weighed(w1, w2, max, l1, f1) - Weighed(w1, w2, max, l, f)), Cost(w1, l1, l), Cost(w2, f1, f))
  {
    Weighted(w1, l, l1);
    Weighted(w2, f, f1);
    CappedSum(w1 * l, w2 * f, w1 * l1, w2 * f1, max, Cost(w1, l1, l), Cost(w2, f1, f));
  }

  lemma {:induction false} CappedSum(a: real, b: real, a1: real, b1: real, max: real, c: real, d: real)
    requires max >= 0.0 && Abs(a1 - a) == c && Abs(b1 - b) == d
    ensures Within(Abs(Capped(a1 + b1, max) - Capped(a + b, max)), c, d)
  {
    ClampContracts(a + b, a1 + b1, max);
  }

  lemma {:induction false} ClampContracts(p: real, q: real, max: real)
    requires max >= 0.0
    ensures Abs(Capped(q, max) - Capped(p, max)) <= Abs(q - p)
  {
  }

  function LostWeight(cfg: ScorerCfg): real {
    cfg.lostPenalty * 100.0
  }

  function RecoveredWeight(cfg: ScorerCfg): real {
    cfg.recoveredPenalty * 100.0
  }

  lemma {:induction false} Weighted(w: real, x: real, y: real)
    requires w >= 0.0
    ensures Abs(w * y - w * x) == Cost(w, y, x)
  {
    Distributes(w, y, -x);
    Opposite(w, x);
    AbsScales(w, y - x);
  }

  lemma {:induction false} Distributes(w: real, a: real, b: real)
    ensures w * (a + b) == w * a + w * b
  {
  }

  // ---- Readings in front of the selector

  datatype Input = Got(now: int, reading: Reading) | Nothing(now: int)

  /** The smoothed state and the selector's run after some inputs; a reading with
      no antenna is passed over. */
  datatype Scored = Scored(s: Smoothed, run: Run)

  function ScoredOn(cfg: ScorerCfg, w: Scored, i: Input): Scored {
    match i
    case Got(now, r) =>
      if r.ants == [] then w
      else var s := Smooth(cfg, w.s, r); Scored(s, w.run + [Sample(now, Effective(cfg, s))])
    case Nothing(now) => w.(run := w.run + [Quiet(now)])
  }

  function ScoredOf(cfg: ScorerCfg, inputs: seq<Input>): Scored {
    if inputs == [] then Scored(FRESH, []) else ScoredOn(cfg, ScoredOf(cfg, Front(inputs)), Last(inputs))
  }

  /** The last raw level and ratios, and the total variation of each so far. */
  datatype Raws = Raws(seen: bool, level: real, lost: real, recov: real, tvLevel: real, tvLost: real, tvRecov: real)

  function RawsOn(cfg: ScorerCfg, t: Raws, i: Input): Raws {
    if i.Nothing? || i.reading.ants == [] then t
    else
      var r := i.reading;
      var x, l, f := Raw(cfg, r.ants), LossRatio(r.lost, r.uniq), LossRatio(r.recovered, r.uniq);
      if !t.seen then Raws(true, x, l, f, 0.0, 0.0, 0.0)
      else Raws(true, x, l, f, t.tvLevel + Abs(x - t.level), t.tvLost + Abs(l - t.lost), t.tvRecov + Abs(f - t.recov))
  }

  function RawsOf(cfg: ScorerCfg, inputs: seq<Input>): Raws {
    if inputs == [] then Raws(false, 0.0, 0.0, 0.0, 0.0, 0.0, 0.0)
    else RawsOn(cfg, RawsOf(cfg, Front(inputs)), Last(inputs))
  }

  /** The variation of the raw measurements, in dB. */
  function RawVariation(cfg: ScorerCfg, t: Raws): real {
    Weighty(LostWeight(cfg), RecoveredWeight(cfg), t.tvLevel, t.tvLost, t.tvRecov)
  }

  function Weighty(w1: real, w2: real, level: real, lost: real, recov: real): real {
    level + w1 * lost + w2 * recov
  }

  /** How far the averages are behind their inputs, in dB. */
  function Lag(cfg: ScorerCfg, s: Smoothed, t: Raws): real {
    Cost(1.0, t.level, s.rssi) + Cost(LostWeight(cfg), t.lost, s.lost) + Cost(RecoveredWeight(cfg), t.recov, s.recov)
  }

  predicate Behind(cfg: ScorerCfg, s: Smoothed, t: Raws, ch: Churn) {
    && s.haveRssi == s.haveLoss == t.seen == ch.seen
    && (if t.seen then ch.last == Effective(cfg, s) && Paid(ch.tv, Lag(cfg, s, t), RawVariation(cfg, t))
        else ch.tv == 0.0 && RawVariation(cfg, t) == 0.0)
  }

  // ---- One reading

  /** What a reading does to one weighted channel: how far the average moves, how
      far it was behind its input and is now, and how far the input moves. */
  datatype Move = Move(step: real, before: real, after: real, input: real)

  /** From input x and average s to input y and average t. */
  function MoveOf(w: real, x: real, s: real, y: real, t: real): Move {
    Move(Cost(w, t, s), Cost(w, x, s), Cost(w, y, t), Cost(w, y, x))
  }

  /** The input's move and the distance before pay for the step and the distance
      after. */
  predicate Pays(m: Move) {
    m.step + m.after <= m.before + m.input
  }

  lemma {:induction false} BlendPays(w: real, alpha: real, x: real, s: real, y: real, t: real)
    requires 0.0 < alpha <= 1.0 && w >= 0.0 && t == Blend(true, alpha, y, s)
    ensures Pays(MoveOf(w, x, s, y, t))
  {
    BlendContracts(alpha, x, y, s, t);
    WeightedPays(w, x, s, y, t);
  }

  lemma {:induction false} WeightedPays(w: real, x: real, s: real, y: real, t: real)
    requires w >= 0.0 && Abs(t - s) + Abs(y - t) <= Abs(y - x) + Abs(x - s)
    ensures Pays(MoveOf(w, x, s, y, t))
  {
    Weigh(w, Abs(t - s), Abs(y - t), Abs(x - s), Abs(y - x));
  }

  lemma {:induction false} Weigh(w: real, a: real, b: real, c: real, d: real)
    requires w >= 0.0 && a + b <= c + d
    ensures w * a + w * b <= w * c + w * d
  {
    Distributes(w, a, b);
    Distributes(w, c, d);
    Opposite(w, a + b);
    Distributes(w, c + d, -(a + b));
    Nonnegative(w, c + d - (a + b));
  }

  /** The three channels of the scorer. */
  datatype Moves = Moves(level: Move, lost: Move, recov: Move)

  function MovesOf(cfg: ScorerCfg, s: Smoothed, t: Raws, u: Smoothed, v: Raws): Moves {
    Moves(MoveOf(1.0, t.level, s.rssi, v.level, u.rssi), MoveOf(LostWeight(cfg), t.lost, s.lost, v.lost, u.lost),
          MoveOf(RecoveredWeight(cfg), t.recov, s.recov, v.recov, u.recov))
  }

  predicate AllPay(m: Moves) {
    Pays(m.level) && Pays(m.lost) && Pays(m.recov)
  }

  /** The variation so far and the lag are within the raw variation. */
  predicate Paid(tv: real, lag: real, variation: real) {
    tv + lag <= variation
  }

  lemma {:induction false} StillPaid(m: Moves, tv: real, move: real, variation: real)
    requires AllPay(m) && Paid(tv, m.level.before + m.lost.before + m.recov.before, variation)
    requires Reaches(move, m)
    ensures Paid(tv + move, m.level.after + m.lost.after + m.recov.after,
                 variation + m.level.input + m.lost.input + m.recov.input)
  {
  }

  predicate Reaches(move: real, m: Moves) {
    move <= m.level.step + m.lost.step + m.recov.step
  }

  predicate Widens(v: real, variation: real, m: Moves) {
    v == variation + m.level.input + m.lost.input + m.recov.input
  }

  /** Averages and raw measurements after one more reading. */
  predicate Blended(cfg: ScorerCfg, s: Smoothed, t: Raws, u: Smoothed, v: Raws) {
    && u.rssi == Blend(true, cfg.rssiAlpha, v.level, s.rssi)
    && u.lost == Blend(true, cfg.lossAlpha, v.lost, s.lost) && u.recov == Blend(true, cfg.lossAlpha, v.recov, s.recov)
    && v.tvLevel == t.tvLevel + Abs(v.level - t.level)
    && v.tvLost == t.tvLost + Abs(v.lost - t.lost) && v.tvRecov == t.tvRecov + Abs(v.recov - t.recov)
  }

  lemma {:induction false} ReadingPays(cfg: ScorerCfg, s: Smoothed, t: Raws, u: Smoothed, v: Raws)
    requires Ranged(cfg) && Blended(cfg, s, t, u, v)
    ensures AllPay(MovesOf(cfg, s, t, u, v))
  {
    Nonnegative(cfg.lostPenalty, 100.0);
    Nonnegative(cfg.recoveredPenalty, 100.0);
    BlendPays(1.0, cfg.rssiAlpha, t.level, s.rssi, v.level, u.rssi);
    BlendPays(LostWeight(cfg), cfg.lossAlpha, t.lost, s.lost, v.lost, u.lost);
    BlendPays(RecoveredWeight(cfg), cfg.lossAlpha, t.recov, s.recov, v.recov, u.recov);
  }

  lemma {:induction false} VariationGrows(cfg: ScorerCfg, s: Smoothed, t: Raws, u: Smoothed, v: Raws)
    requires Blended(cfg, s, t, u, v)
    ensures Widens(RawVariation(cfg, v), RawVariation(cfg, t), MovesOf(cfg, s, t, u, v))
  {
    WeightyGrows(LostWeight(cfg), RecoveredWeight(cfg), t.tvLevel, t.tvLost, t.tvRecov, v.tvLevel, v.tvLost, v.tvRecov,
                 MovesOf(cfg, s, t, u, v), Abs(v.lost - t.lost), Abs(v.recov - t.recov));
  }

  lemma {:induction false} WeightyGrows(w1: real, w2: real, a: real, b: real, c: real, a1: real, b1: real, c1: real,
                                        m: Moves, lost: real, recov: real)
    requires a1 == a + m.level.input && b1 == b + lost && c1 == c + recov
    requires m.lost.input == w1 * lost && m.recov.input == w2 * recov
    ensures Widens(Weighty(w1, w2, a1, b1, c1), Weighty(w1, w2, a, b, c), m)
  {
    Distributes(w1, b, lost);
    Distributes(w2, c, recov);
  }

  /** The effective level moves at most by the steps of the averages. */
  lemma {:induction false} EffectiveMoves(cfg: ScorerCfg, s: Smoothed, t: Raws, u: Smoothed, v: Raws)
    requires Ranged(cfg)
    ensures Reaches(Abs(Effective(cfg, u) - Effective(cfg, s)), MovesOf(cfg, s, t, u, v))
  {
    PenaltyIsLipschitz(cfg, s.lost, s.recov, u.lost, u.recov);
    Apart(u.rssi, s.rssi, Penalty(cfg, u.lost, u.recov), Penalty(cfg, s.lost, s.recov), MovesOf(cfg, s, t, u, v));
  }

  lemma {:induction false} Apart(a: real, b: real, p: real, q: real, m: Moves)
    requires m.level.step == Cost(1.0, a, b) && Within(Abs(p - q), m.lost.step, m.recov.step)
    ensures Reaches(Abs(a - p - (b - q)), m)
  {
  }

  lemma {:induction false} NextReading(cfg: ScorerCfg, s: Smoothed, t: Raws, u: Smoothed, v: Raws, tv: real)
    requires Ranged(cfg) && Blended(cfg, s, t, u, v) && Paid(tv, Lag(cfg, s, t), RawVariation(cfg, t))
    ensures Paid(tv + Abs(Effective(cfg, u) - Effective(cfg, s)), Lag(cfg, u, v), RawVariation(cfg, v))
  {
    ReadingPays(cfg, s, t, u, v);
    EffectiveMoves(cfg, s, t, u, v);
    VariationGrows(cfg, s, t, u, v);
    StillPaid(MovesOf(cfg, s, t, u, v), tv, Abs(Effective(cfg, u) - Effective(cfg, s)), RawVariation(cfg, t));
  }

  lemma {:induction false} NothingBehind(cfg: ScorerCfg)
    ensures LostWeight(cfg) * 0.0 == 0.0 && RecoveredWeight(cfg) * 0.0 == 0.0
  {
  }

  lemma {:induction false} BehindStep(cfg: ScorerCfg, s: Smoothed, t: Raws, ch: Churn, i: Input, sel: Sel, e: Event, sel1: Sel, d: Decision)
    requires Ranged(cfg) && Behind(cfg, s, t, ch)
    requires i.Got? && i.reading.ants != [] ==> e == Sample(i.now, Effective(cfg, Smooth(cfg, s, i.reading)))
    requires i.Nothing? ==> e == Quiet(i.now)
    requires i.Nothing? || i.reading.ants != []
    ensures Behind(cfg, if i.Got? then Smooth(cfg, s, i.reading) else s, RawsOn(cfg, t, i), ChurnOn(sel, e, sel1, d, ch))
  {
    NothingBehind(cfg);
    if i.Got? && t.seen {
      NextReading(cfg, s, t, Smooth(cfg, s, i.reading), RawsOn(cfg, t, i), ch.tv);
    }
  }

  lemma {:induction false} BehindHolds(impl: Impl, cfg: ScorerCfg, sel: SelectorSpec.Cfg, inputs: seq<Input>)
    requires Ranged(cfg)
    ensures var w := ScoredOf(cfg, inputs); Behind(cfg, w.s, RawsOf(cfg, inputs), ChurnOf(impl, sel, w.run))
  {
    if inputs == [] {
      NothingBehind(cfg);
    } else {
      BehindHolds(impl, cfg, sel, Front(inputs));
      var w, i := ScoredOf(cfg, Front(inputs)), Last(inputs);
      var v := ScoredOn(cfg, w, i);
      if v.run != w.run {
        assert Front(v.run) == w.run;
        var before := After(impl, sel, w.run);
        var (after, d) := Next(impl, sel, before, Last(v.run));
        BehindStep(cfg, w.s, RawsOf(cfg, Front(inputs)), ChurnOf(impl, sel, w.run), i, before, Last(v.run), after, d);
      }
    }
  }

  /** Scorer and selector together: the number of bucket changes is bounded by how
      much the raw measurements vary, smoothing and penalty included. */
  lemma {:induction false} ChurnOfRawSignal(impl: Impl, cfg: ScorerCfg, sel: SelectorSpec.Cfg, inputs: seq<Input>)
    requires Ranged(cfg) && sel.lo < sel.hi && sel.deadband > 0.0
    ensures var ch := ChurnOf(impl, sel, ScoredOf(cfg, inputs).run);
            ch.n as real <= (2 + 3 * ch.trips) as real + RawVariation(cfg, RawsOf(cfg, inputs)) / sel.deadband
  {
    var w := ScoredOf(cfg, inputs);
    var ch, t := ChurnOf(impl, sel, w.run), RawsOf(cfg, inputs);
    BehindHolds(impl, cfg, sel, inputs);
    ChurnBound(impl, sel, w.run);
    LagPositive(cfg, w.s, t);
    Scaled(ch.tv, RawVariation(cfg, t), sel.deadband);
  }

  lemma {:induction false} LagPositive(cfg: ScorerCfg, s: Smoothed, t: Raws)
    requires Ranged(cfg)
    ensures Lag(cfg, s, t) >= 0.0
  {
    Nonnegative(LostWeight(cfg), Abs(t.lost - s.lost));
    Nonnegative(RecoveredWeight(cfg), Abs(t.recov - s.recov));
  }
}
