/** Tool recommendation: score composition, choice of the scoring algorithm, and the ranked,
    truncated answer. Floating-point numbers are real numbers, and the random draw of a sampling
    scorer is an arbitrary value in [0, 1]. */
module Ranking {
  import opened Common
  import opened GoStrings
  import opened Sorting
  import Policy

  datatype SideEffects = NoEffects | Reversible | Irreversible | UnknownEffects

  datatype Tool = Tool(name: string, description: string, risk: Policy.Risk, sideEffects: SideEffects,
                       requiresApproval: bool, costHint: string, timeoutSeconds: int)

  datatype ToolStats = ToolStats(invocations: int, successRate: real, p95: int, denyRate: real)

  datatype ToolPolicy = ToolPolicy(samples: int, confidence: real, errorRate: real, p95: int)

  datatype Scorer = NeuralTS | HyLinUCB | Thompson | Heuristic

  const MIN_SAMPLES := 10

  // ---- Rounding ------------------------------------------------------------------------------

  /** Rounding to a whole number, halves away from zero. */
  function Round(v: real): (r: int)
  {
    if v >= 0.0 then (v + 0.5).Floor else -((0.5 - v).Floor)
  }

  function Hundredths(v: real): (r: real)
  {
    Round(v * 100.0) as real / 100.0
  }

  lemma FloorMonotone(a: real, b: real)
    requires a <= b
    ensures a.Floor <= b.Floor
  {
    assert a.Floor as real <= a && b < b.Floor as real + 1.0;
  }

  /** Rounding to hundredths keeps order, moves a value by at most half a hundredth, and leaves
      whole hundredths alone. */
  lemma HundredthsMonotone(a: real, b: real)
    requires a <= b
    ensures Hundredths(a) <= Hundredths(b)
  {
    var x, y := a * 100.0, b * 100.0;
    if x >= 0.0 {
      FloorMonotone(x + 0.5, y + 0.5);
    } else if y < 0.0 {
      FloorMonotone(0.5 - y, 0.5 - x);
    }
  }

  lemma HundredthsNear(v: real)
    ensures v - 0.005 <= Hundredths(v) <= v + 0.005
  {
    var x := v * 100.0;
    if x >= 0.0 {
      assert (x + 0.5).Floor as real <= x + 0.5 < (x + 0.5).Floor as real + 1.0;
    } else {
      assert (0.5 - x).Floor as real <= 0.5 - x < (0.5 - x).Floor as real + 1.0;
    }
  }

  lemma HundredthsFixed(k: int)
    ensures Hundredths(k as real / 100.0) == k as real / 100.0
  {
    var x := k as real;
    if k >= 0 { assert (x + 0.5).Floor == k; } else { assert (0.5 - x).Floor == -k; }
  }

  /** So rounding keeps bounds given in hundredths. */
  lemma HundredthsWithin(lo: int, v: real, hi: int)
    requires lo as real / 100.0 <= v <= hi as real / 100.0
    ensures lo as real / 100.0 <= Hundredths(v) <= hi as real / 100.0
  {
    HundredthsFixed(lo);
    HundredthsFixed(hi);
    HundredthsMonotone(lo as real / 100.0, v);
    HundredthsMonotone(v, hi as real / 100.0);
  }

  /** Halves go away from zero. */
  lemma HalvesAway(k: nat)
    ensures Round(k as real + 0.5) == k + 1 && Round(-(k as real) - 0.5) == -(k + 1)
  {
    assert (k as real + 1.0).Floor == k + 1;
  }

  // ---- Heuristic score -----------------------------------------------------------------------

  predicate Hit(tool: Tool, token: string, lower: char -> char)
  {
    Policy.Contains(ToLower(tool.name, lower), token) || Policy.Contains(ToLower(tool.description, lower), token)
  }

  function Hits(tool: Tool, tokens: seq<string>, lower: char -> char): (n: nat)
    ensures n <= |tokens|
  {
    if tokens == [] then 0
    else Hits(tool, tokens[..|tokens| - 1], lower) + if Hit(tool, tokens[|tokens| - 1], lower) then 1 else 0
  }

  /** The number of hint tokens that occur in the lower-cased name or description. */
  lemma {:induction false} HitsMeaning(tool: Tool, tokens: seq<string>, lower: char -> char)
    ensures Hits(tool, tokens, lower) ==
            |set i | 0 <= i < |tokens| && (Policy.Inside(ToLower(tool.name, lower), tokens[i]) ||
                                           Policy.Inside(ToLower(tool.description, lower), tokens[i]))|
  {
    var hit := set i | 0 <= i < |tokens| && Hit(tool, tokens[i], lower);
    forall i | 0 <= i < |tokens|
      ensures Hit(tool, tokens[i], lower) <==> Policy.Inside(ToLower(tool.name, lower), tokens[i]) ||
                                               Policy.Inside(ToLower(tool.description, lower), tokens[i])
    {
      Policy.ContainsMeaning(ToLower(tool.name, lower), tokens[i]);
      Policy.ContainsMeaning(ToLower(tool.description, lower), tokens[i]);
    }
    assert hit == set i | 0 <= i < |tokens| && (Policy.Inside(ToLower(tool.name, lower), tokens[i]) ||
                                                Policy.Inside(ToLower(tool.description, lower), tokens[i]));
    HitsCount(tool, tokens, lower);
  }

  lemma {:induction false} HitsCount(tool: Tool, tokens: seq<string>, lower: char -> char)
    ensures Hits(tool, tokens, lower) == |set i | 0 <= i < |tokens| && Hit(tool, tokens[i], lower)|
  {
    if tokens != [] {
      var n := |tokens| - 1;
      var front := tokens[..n];
      HitsCount(tool, front, lower);
      var before := set i | 0 <= i < n && Hit(tool, front[i], lower);
      assert (set i | 0 <= i < |tokens| && Hit(tool, tokens[i], lower)) ==
             before + if Hit(tool, tokens[n], lower) then {n} else {};
    }
  }

  method CountHintMatches(tool: Tool, tokens: seq<string>, lower: char -> char) returns (count: nat)
    ensures count == Hits(tool, tokens, lower)
  {
    var name, description := ToLower(tool.name, lower), ToLower(tool.description, lower);
    count := 0;
    var i := 0;
    while i < |tokens|
      invariant 0 <= i <= |tokens| && count == Hits(tool, tokens[..i], lower)
    {
      assert tokens[..i + 1][..i] == tokens[..i];
      if Policy.Contains(name, tokens[i]) || Policy.Contains(description, tokens[i]) { count := count + 1; }
      i := i + 1;
    }
    assert tokens[..i] == tokens;
  }

  function DeriveCost(tool: Tool): (cost: string)
  {
    if tool.costHint != "" then tool.costHint
    else if tool.timeoutSeconds <= 10 then "cheap"
    else if tool.timeoutSeconds <= 60 then "medium"
    else "expensive"
  }

  /** What the capability itself costs, in hundredths. */
  function Penalty(tool: Tool): (p: nat)
    ensures p <= 85
  {
    RiskPenalty(tool.risk) + EffectPenalty(tool.sideEffects) + (if tool.requiresApproval then 10 else 0) +
    CostPenalty(DeriveCost(tool))
  }

  function RiskPenalty(risk: Policy.Risk): (p: nat)
    ensures p <= 35
  {
    match risk case Low => 0 case Medium => 15 case High => 35 case UnknownRisk => 0
  }

  function EffectPenalty(effects: SideEffects): (p: nat)
    ensures p <= 25
  {
    match effects case NoEffects => 0 case Reversible => 10 case Irreversible => 25 case UnknownEffects => 0
  }

  function CostPenalty(cost: string): (p: nat)
    ensures p <= 15
  {
    if cost == "medium" then 5 else if cost == "expensive" then 15 else 0
  }

  /** The share of the hint that the tool matches. */
  function HintShare(tool: Tool, tokens: seq<string>, lower: char -> char): (q: real)
    ensures 0.0 <= q <= 1.0
  {
    if tokens == [] then 0.0
    else
      var h, n := Hits(tool, tokens, lower) as real, |tokens| as real;
      assert (h / n) * n == h <= n;
      h / n
  }

  function BaseScore(tool: Tool, tokens: seq<string>, lower: char -> char): (s: real)
  {
    Hundredths(1.0 - Penalty(tool) as real / 100.0 + 0.20 * HintShare(tool, tokens, lower))
  }

  /** What the cost hint, or else the time limit in seconds, takes off. */
  function CostPoints(tool: Tool): (c: real)
  {
    if tool.costHint == "expensive" || (tool.costHint == "" && tool.timeoutSeconds > 60) then 0.15
    else if tool.costHint == "medium" || (tool.costHint == "" && tool.timeoutSeconds > 10) then 0.05
    else 0.0
  }

  lemma PenaltyPoints(tool: Tool)
    ensures Penalty(tool) as real / 100.0 ==
            (if tool.risk.High? then 0.35 else if tool.risk.Medium? then 0.15 else 0.0)
            + (if tool.sideEffects.Irreversible? then 0.25 else if tool.sideEffects.Reversible? then 0.10 else 0.0)
            + (if tool.requiresApproval then 0.10 else 0.0)
            + CostPoints(tool)
  {
    CostMeaning(tool);
  }

  lemma CostMeaning(tool: Tool)
    ensures CostPenalty(DeriveCost(tool)) as real / 100.0 == CostPoints(tool)
  {
    assert "cheap"[0] == 'c' && "medium"[0] == 'm' && "expensive"[0] == 'e';
  }

  /** The penalties of scoreTool, taken off branch by branch. */
  method TakePenalties(tool: Tool) returns (score: real)
    ensures score == 1.0 - Penalty(tool) as real / 100.0
  {
    score := 1.0;
    match tool.risk {
      case Low =>
      case Medium => score := score - 0.15;
      case High => score := score - 0.35;
      case UnknownRisk =>
    }
    assert score == 1.0 - RiskPenalty(tool.risk) as real / 100.0;
    match tool.sideEffects {
      case NoEffects =>
      case Reversible => score := score - 0.10;
      case Irreversible => score := score - 0.25;
      case UnknownEffects =>
    }
    assert score == 1.0 - (RiskPenalty(tool.risk) + EffectPenalty(tool.sideEffects)) as real / 100.0;
    if tool.requiresApproval { score := score - 0.10; }
    var cost := DeriveCost(tool);
    if cost == "medium" { score := score - 0.05; }
    if cost == "expensive" { score := score - 0.15; }
  }

  /** The hint bonus of scoreTool. */
  method HintBonus(tool: Tool, tokens: seq<string>, lower: char -> char) returns (bonus: real)
    ensures bonus == 0.20 * HintShare(tool, tokens, lower)
  {
    bonus := 0.0;
    if |tokens| > 0 {
      var count := CountHintMatches(tool, tokens, lower);
      if count > 0 {
        var share := count as real / |tokens| as real;
        assert share == HintShare(tool, tokens, lower);
        bonus := 0.20 * (if share < 1.0 then share else 1.0);
      }
    }
  }

  /** From 1.00 down by risk, side effects, approval and cost, up by at most 0.20 for the share of
      the hint's tokens that the tool matches, rounded. */
  method ScoreTool(tool: Tool, tokens: seq<string>, lower: char -> char) returns (score: real)
    ensures score == BaseScore(tool, tokens, lower)
    ensures score == Hundredths(
              1.0 - (if tool.risk.High? then 0.35 else if tool.risk.Medium? then 0.15 else 0.0)
              - (if tool.sideEffects.Irreversible? then 0.25 else if tool.sideEffects.Reversible? then 0.10 else 0.0)
              - (if tool.requiresApproval then 0.10 else 0.0)
              - CostPoints(tool)
              + (if tokens == [] then 0.0 else 0.20 * (Hits(tool, tokens, lower) as real / |tokens| as real)))
  {
    PenaltyPoints(tool);
    score := TakePenalties(tool);
    var bonus := HintBonus(tool, tokens, lower);
    score := Hundredths(score + bonus);
  }

  // ---- Telemetry -----------------------------------------------------------------------------

  /** The telemetry adjustment in hundredths. */
  function Adjustment(stats: ToolStats): (d: int)
    ensures -35 <= d <= 15
  {
    (if stats.successRate >= 0.90 then 15 else if stats.successRate < 0.50 then -15 else 0)
    - (if stats.p95 > 10000 then 10 else 0) - (if stats.denyRate > 0.20 then 10 else 0)
  }

  function Boosted(score: real, stats: ToolStats): (s: real)
  {
    if stats.invocations < 5 then score else Hundredths(score + Adjustment(stats) as real / 100.0)
  }

  /** A tool without telemetry has the zero record. */
  function StatsOf(stats: map<string, ToolStats>, name: string): (s: ToolStats)
  {
    if name in stats then stats[name] else ToolStats(0, 0.0, 0, 0.0)
  }

  method ApplyTelemetryBoost(before: real, stats: ToolStats) returns (score: real)
    ensures score == Boosted(before, stats)
    ensures stats.invocations < 5 ==> score == before
    ensures stats.invocations >= 5 ==>
              score == Hundredths(before + (if stats.successRate >= 0.90 then 0.15 else if stats.successRate < 0.50 then -0.15 else 0.0)
                                  - (if stats.p95 > 10000 then 0.10 else 0.0) - (if stats.denyRate > 0.20 then 0.10 else 0.0))
  {
    score := before;
    if stats.invocations < 5 { return; }
    if stats.successRate >= 0.90 {
      score := score + 0.15;
    } else if stats.successRate < 0.50 {
      score := score - 0.15;
    }
    if stats.p95 > 10000 { score := score - 0.10; }
    if stats.denyRate > 0.20 { score := score - 0.10; }
    score := Hundredths(score);
  }

  // ---- Learned policies ----------------------------------------------------------------------

  /** Trust in the learned value: grows with the samples up to a cap. */
  function Weight(scorer: Scorer, samples: int): (w: real)
    requires samples >= MIN_SAMPLES && !scorer.Heuristic?
    ensures 0.0 < w <= 0.9
  {
    var n := samples as real;
    match scorer
    case Thompson => if n / 100.0 < 0.8 then n / 100.0 else 0.8
    case HyLinUCB => if n / 80.0 < 0.7 then n / 80.0 else 0.7
    case NeuralTS => if n / 200.0 < 0.9 then n / 200.0 else 0.9
  }

  /** The service-level penalties, in hundredths. */
  function Slo(policy: ToolPolicy): (p: nat)
    ensures p <= 30
  {
    (if policy.errorRate > 0.30 then 20 else 0) + (if policy.p95 > 15000 then 10 else 0)
  }

  function Blend(w: real, base: real, draw: real): (b: real)
  {
    (1.0 - w) * base + w * draw
  }

  /** A scorer leaves the score alone below MIN_SAMPLES. */
  function Learned(scorer: Scorer, base: real, policy: ToolPolicy, draw: real): (s: real)
  {
    if policy.samples < MIN_SAMPLES then base
    else if scorer.Heuristic? then Hundredths(base + 0.25 * policy.confidence - Slo(policy) as real / 100.0)
    else Hundredths(Blend(Weight(scorer, policy.samples), base, draw) - Slo(policy) as real / 100.0)
  }

  /** What missed service levels cost. */
  function SloPoints(policy: ToolPolicy): (p: real)
  {
    (if policy.errorRate > 0.30 then 0.20 else 0.0) + (if policy.p95 > 15000 then 0.10 else 0.0)
  }

  lemma SloMeaning(policy: ToolPolicy)
    ensures Slo(policy) as real / 100.0 == SloPoints(policy)
  {
  }

  /** The weight a sample count gives the learned value: one hundredth, eightieth or two-hundredth
      per sample, up to 0.8, 0.7 and 0.9. */
  lemma WeightMeaning(samples: int)
    requires samples >= 10
    ensures Weight(Thompson, samples) == if samples <= 80 then samples as real / 100.0 else 0.8
    ensures Weight(HyLinUCB, samples) == if samples <= 56 then samples as real / 80.0 else 0.7
    ensures Weight(NeuralTS, samples) == if samples <= 180 then samples as real / 200.0 else 0.9
  {
  }

  method ScoreLearned(scorer: Scorer, base: real, policy: ToolPolicy, draw: real) returns (score: real, applied: bool)
    ensures score == Learned(scorer, base, policy, draw)
    ensures applied <==> policy.samples >= 10
    ensures !applied ==> score == base
    ensures applied && scorer.Heuristic? ==> score == Hundredths(base + 0.25 * policy.confidence - SloPoints(policy))
    ensures applied && !scorer.Heuristic? ==>
              var w := Weight(scorer, policy.samples);
              score == Hundredths((1.0 - w) * base + w * draw - SloPoints(policy))
  {
    SloMeaning(policy);
    if policy.samples < MIN_SAMPLES { return base, false; }
    if scorer.Heuristic? {
      score := base + 0.25 * policy.confidence;
    } else {
      var weight := Weight(scorer, policy.samples);
      score := Blend(weight, base, draw);
    }
    if policy.errorRate > 0.30 { score := score - 0.20; }
    if policy.p95 > 15000 { score := score - 0.10; }
    return Hundredths(score), true;
  }

  // ---- The whole score -----------------------------------------------------------------------

  /** Everything a recommendation depends on besides the tool. */
  datatype Evidence = Evidence(tokens: seq<string>, lower: char -> char, stats: Option<map<string, ToolStats>>,
                               policies: map<string, ToolPolicy>, scorer: Option<Scorer>, draw: string -> real)

  ghost predicate UnitRange(e: Evidence)
  {
    && (forall name :: 0.0 <= e.draw(name) <= 1.0)
    && (forall name :: name in e.policies ==> 0.0 <= e.policies[name].confidence <= 1.0)
  }

  function AfterTelemetry(tool: Tool, e: Evidence): (s: real)
  {
    var base := BaseScore(tool, e.tokens, e.lower);
    if e.stats.Some? then Boosted(base, StatsOf(e.stats.value, tool.name)) else base
  }

  function Final(tool: Tool, e: Evidence): (s: real)
  {
    var score := AfterTelemetry(tool, e);
    if tool.name in e.policies && e.scorer.Some?
    then Learned(e.scorer.value, score, e.policies[tool.name], e.draw(tool.name)) else score
  }

  lemma BaseWithin(tool: Tool, tokens: seq<string>, lower: char -> char)
    ensures 0.15 <= BaseScore(tool, tokens, lower) <= 1.20
  {
    HundredthsWithin(15, 1.0 - Penalty(tool) as real / 100.0 + 0.20 * HintShare(tool, tokens, lower), 120);
  }

  lemma TelemetryWithin(tool: Tool, e: Evidence)
    ensures -0.20 <= AfterTelemetry(tool, e) <= 1.35
  {
    var base := BaseScore(tool, e.tokens, e.lower);
    BaseWithin(tool, e.tokens, e.lower);
    if e.stats.Some? {
      var stats := StatsOf(e.stats.value, tool.name);
      HundredthsWithin(-20, base + Adjustment(stats) as real / 100.0, 135);
    }
  }

  lemma ProductNonnegative(a: real, b: real)
    requires a >= 0.0 && b >= 0.0
    ensures a * b >= 0.0
  {
  }

  lemma BlendDifference(w: real, s: real, t: real, u: real, v: real)
    ensures Blend(w, t, v) - Blend(w, s, u) == (1.0 - w) * (t - s) + w * (v - u)
  {
  }

  /** A blend follows both of its ends. */
  lemma BlendMonotone(w: real, s: real, t: real, u: real, v: real)
    requires 0.0 <= w <= 1.0 && s <= t && u <= v
    ensures Blend(w, s, u) <= Blend(w, t, v)
  {
    ProductNonnegative(1.0 - w, t - s);
    ProductNonnegative(w, v - u);
    BlendDifference(w, s, t, u, v);
  }

  /** A blend lies between its two ends. */
  lemma BlendWithin(w: real, base: real, draw: real, lo: real, hi: real)
    requires 0.0 <= w <= 1.0 && lo <= base <= hi && lo <= draw <= hi
    ensures lo <= Blend(w, base, draw) <= hi
  {
    BlendMonotone(w, lo, base, lo, draw);
    BlendMonotone(w, base, hi, draw, hi);
  }

  lemma LearnedWithin(scorer: Scorer, base: real, policy: ToolPolicy, draw: real)
    requires -0.20 <= base <= 1.35 && 0.0 <= draw <= 1.0 && 0.0 <= policy.confidence <= 1.0
    ensures -0.50 <= Learned(scorer, base, policy, draw) <= if scorer.Heuristic? then 1.60 else 1.35
  {
    if policy.samples >= MIN_SAMPLES {
      if scorer.Heuristic? {
        HundredthsWithin(-50, base + 0.25 * policy.confidence - Slo(policy) as real / 100.0, 160);
      } else {
        var w := Weight(scorer, policy.samples);
        BlendWithin(w, base, draw, -0.20, 1.35);
        HundredthsWithin(-50, Blend(w, base, draw) - Slo(policy) as real / 100.0, 135);
      }
    }
  }

  /** Every final score is in [-0.50, 1.60] under every scorer; a blending scorer, or none,
      stays at or below 1.35. */
  lemma FinalWithin(tool: Tool, e: Evidence)
    requires UnitRange(e)
    ensures -0.50 <= Final(tool, e) <= 1.60
    ensures e.scorer != Some(Heuristic) ==> Final(tool, e) <= 1.35
  {
    TelemetryWithin(tool, e);
    if tool.name in e.policies && e.scorer.Some? {
      LearnedWithin(e.scorer.value, AfterTelemetry(tool, e), e.policies[tool.name], e.draw(tool.name));
    }
  }

  lemma SlowestTool(lower: char -> char, draw: string -> real) returns (t: Tool, e: Evidence)
    requires forall name :: 0.0 <= draw(name) <= 1.0
    ensures UnitRange(e) && e.lower == lower && e.draw == draw && Final(t, e) == -0.50
  {
    t := Tool("aa", "", Policy.High, Irreversible, true, "expensive", 0);
    e := Evidence([], lower, Some(map["aa" := ToolStats(5, 0.0, 10001, 1.0)]),
                  map["aa" := ToolPolicy(10, 0.0, 1.0, 15001)], Some(Heuristic), draw);
    HundredthsFixed(15);
    HundredthsFixed(-20);
    HundredthsFixed(-50);
    assert AfterTelemetry(t, e) == -0.20;
  }

  lemma QuickestTool(lower: char -> char, draw: string -> real) returns (t: Tool, e: Evidence)
    requires forall name :: 0.0 <= draw(name) <= 1.0
    ensures UnitRange(e) && e.lower == lower && e.draw == draw && Final(t, e) == 1.60
    ensures e.tokens == [ToLower("aa", lower)]
  {
    t := Tool("aa", "", Policy.Low, NoEffects, false, "cheap", 0);
    e := Evidence([ToLower("aa", lower)], lower, Some(map["aa" := ToolStats(5, 1.0, 0, 0.0)]),
                  map["aa" := ToolPolicy(10, 1.0, 0.0, 0)], Some(Heuristic), draw);
    FullHint(t, e.tokens[0], lower);
    HundredthsFixed(120);
    HundredthsFixed(135);
    HundredthsFixed(160);
    assert AfterTelemetry(t, e) == 1.35;
  }

  /** A hint that is one token of the tool's name is fully matched. */
  lemma FullHint(t: Tool, token: string, lower: char -> char)
    requires token == ToLower(t.name, lower)
    ensures HintShare(t, [token], lower) == 1.0
  {
    assert [token][..0] == [] && Hit(t, token, lower);
    assert Hits(t, [token][..0], lower) == 0;
  }

  /** Both ends of the interval are reached, the upper one with a hint token of two characters. */
  lemma BoundsReached(lower: char -> char, draw: string -> real)
    requires forall name :: 0.0 <= draw(name) <= 1.0
    ensures exists t: Tool, e: Evidence :: UnitRange(e) && e.lower == lower && e.draw == draw && Final(t, e) == -0.50
    ensures exists t: Tool, e: Evidence :: UnitRange(e) && e.lower == lower && e.draw == draw && Final(t, e) == 1.60
                                           && forall i :: 0 <= i < |e.tokens| ==> |e.tokens[i]| >= 2
  {
    var t, e := SlowestTool(lower, draw);
    var t', e' := QuickestTool(lower, draw);
    assert |e'.tokens[0]| == 2;
  }

  // ---- Better evidence never lowers a score ----------------------------------------------------

  predicate BetterStats(a: ToolStats, b: ToolStats)
  {
    a.invocations == b.invocations && a.successRate <= b.successRate && a.p95 >= b.p95 && a.denyRate >= b.denyRate
  }

  predicate BetterPolicy(a: ToolPolicy, b: ToolPolicy)
  {
    a.samples == b.samples && a.confidence <= b.confidence && a.errorRate >= b.errorRate && a.p95 >= b.p95
  }

  /** The second evidence is at least as good for the tool and differs only in measurements. */
  predicate Better(name: string, a: Evidence, b: Evidence)
  {
    && a.tokens == b.tokens && a.scorer == b.scorer
    && (a.stats.Some? <==> b.stats.Some?)
    && (a.stats.Some? ==> BetterStats(StatsOf(a.stats.value, name), StatsOf(b.stats.value, name)))
    && (name in a.policies <==> name in b.policies)
    && (name in a.policies ==> BetterPolicy(a.policies[name], b.policies[name]))
    && a.draw(name) <= b.draw(name)
  }

  lemma LearnedMonotone(scorer: Scorer, s: real, t: real, p: ToolPolicy, q: ToolPolicy, u: real, v: real)
    requires s <= t && BetterPolicy(p, q) && u <= v
    ensures Learned(scorer, s, p, u) <= Learned(scorer, t, q, v)
  {
    if p.samples >= MIN_SAMPLES {
      if scorer.Heuristic? {
        HundredthsMonotone(s + 0.25 * p.confidence - Slo(p) as real / 100.0, t + 0.25 * q.confidence - Slo(q) as real / 100.0);
      } else {
        var w := Weight(scorer, p.samples);
        BlendMonotone(w, s, t, u, v);
        HundredthsMonotone(Blend(w, s, u) - Slo(p) as real / 100.0, Blend(w, t, v) - Slo(q) as real / 100.0);
      }
    }
  }

  lemma BoostedMonotone(score: real, x: ToolStats, y: ToolStats)
    requires BetterStats(x, y)
    ensures Boosted(score, x) <= Boosted(score, y)
  {
    assert Adjustment(x) <= Adjustment(y);
    HundredthsMonotone(score + Adjustment(x) as real / 100.0, score + Adjustment(y) as real / 100.0);
  }

  lemma TelemetryMonotone(tool: Tool, a: Evidence, b: Evidence)
    requires Better(tool.name, a, b) && a.lower == b.lower
    ensures AfterTelemetry(tool, a) <= AfterTelemetry(tool, b)
  {
    if a.stats.Some? {
      BoostedMonotone(BaseScore(tool, a.tokens, a.lower), StatsOf(a.stats.value, tool.name), StatsOf(b.stats.value, tool.name));
    }
  }

  /** Better success, latency, deny and error rates, confidence or draw never lower the score. The
      draw counts as a measurement of its own: a scorer that computes it from the policy must not
      have lowered it. */
  lemma BetterNeverLowers(tool: Tool, a: Evidence, b: Evidence)
    requires Better(tool.name, a, b) && a.lower == b.lower
    ensures Final(tool, a) <= Final(tool, b)
  {
    TelemetryMonotone(tool, a, b);
    if tool.name in a.policies && a.scorer.Some? {
      LearnedMonotone(a.scorer.value, AfterTelemetry(tool, a), AfterTelemetry(tool, b),
                      a.policies[tool.name], b.policies[tool.name], a.draw(tool.name), b.draw(tool.name));
    }
  }

  // ---- Choice of the scorer ------------------------------------------------------------------

  /** Some policy has at least n samples. */
  ghost predicate Reaches(policies: map<string, ToolPolicy>, n: int)
  {
    exists name :: name in policies && policies[name].samples >= n
  }

  /** The ladder by thresholds: neural from 100 samples, contextual from 20 to 99,
      Thompson from 50, heuristic otherwise. */
  method SelectScorerFull(policies: map<string, ToolPolicy>, validModel: bool, contextual: bool)
    returns (r: Option<Scorer>)
    ensures r.None? <==> policies == map[]
    ensures r == Some(NeuralTS) <==> validModel && Reaches(policies, 100)
    ensures r == Some(HyLinUCB) <==> contextual && Reaches(policies, 20) && !Reaches(policies, 100)
    ensures r == Some(Thompson) <==>
            Reaches(policies, 50) && (if Reaches(policies, 100) then !validModel else !contextual)
  {
    if |policies| == 0 { return None; }
    var most := 0;
    var left := policies.Keys;
    while left != {}
      invariant left <= policies.Keys && most >= 0
      invariant forall name :: name in policies && name !in left ==> policies[name].samples <= most
      invariant most == 0 || Reaches(policies, most)
    {
      var name :| name in left;
      if policies[name].samples > most { most := policies[name].samples; }
      left := left - {name};
    }
    assert forall n :: n >= 1 ==> (Reaches(policies, n) <==> most >= n);
    if validModel && most >= 100 { return Some(NeuralTS); }
    if contextual && most >= 20 && most < 100 { return Some(HyLinUCB); }
    if most >= 50 { return Some(Thompson); }
    return Some(Heuristic);
  }

  // ---- The ranked answer -----------------------------------------------------------------------

  datatype Source = HeuristicPart | TelemetryBoost | Algorithm(scorer: Scorer)

  datatype Component = Component(source: Source, value: real)

  datatype Recommendation = Recommendation(name: string, score: real, breakdown: seq<Component>)

  datatype RankedTool = RankedTool(toolId: string, rank: nat, finalScore: real)

  function Sum(parts: seq<Component>): (s: real)
  {
    if parts == [] then 0.0 else Sum(parts[..|parts| - 1]) + parts[|parts| - 1].value
  }

  lemma SumAppend(parts: seq<Component>, part: Component)
    ensures Sum(parts + [part]) == Sum(parts) + part.value
  {
    assert (parts + [part])[..|parts|] == parts;
  }

  /** Higher score first, then name. */
  predicate Before(a: Recommendation, b: Recommendation)
  {
    if a.score != b.score then a.score > b.score else Less(a.name, b.name)
  }

  lemma BeforeOrder()
    ensures StrictOrder(Before)
  {
    forall a: Recommendation ensures !Before(a, a) { LessIrreflexive(a.name); }
    forall a: Recommendation, b: Recommendation, c: Recommendation | Before(a, b) && Before(b, c) ensures Before(a, c) {
      if a.score == b.score == c.score { LessTransitive(a.name, b.name, c.name); }
    }
    forall a: Recommendation, b: Recommendation, c: Recommendation | !Before(a, b) && !Before(b, c) ensures !Before(a, c) {
      if a.score == b.score == c.score { NotLessTransitive(a.name, b.name, c.name); }
    }
  }

  /** A recommendation for the tool whose breakdown explains its score. */
  ghost predicate Explains(rec: Recommendation, tool: Tool, e: Evidence)
  {
    && rec.name == tool.name && rec.score == Final(tool, e) == Sum(rec.breakdown)
    && rec.breakdown != [] && rec.breakdown[0] == Component(HeuristicPart, BaseScore(tool, e.tokens, e.lower))
  }

  ghost predicate Distinct(tools: seq<Tool>)
  {
    forall i, j :: 0 <= i < j < |tools| ==> tools[i].name != tools[j].name
  }

  /** The part of a round up to the telemetry adjustment, which is listed when it changes anything. */
  method WithTelemetry(tool: Tool, e: Evidence) returns (score: real, breakdown: seq<Component>)
    ensures score == AfterTelemetry(tool, e) == Sum(breakdown)
    ensures breakdown != [] && breakdown[0] == Component(HeuristicPart, BaseScore(tool, e.tokens, e.lower))
  {
    score := ScoreTool(tool, e.tokens, e.lower);
    breakdown := [Component(HeuristicPart, score)];
    SumAppend([], Component(HeuristicPart, score));
    assert [] + breakdown == breakdown;
    if e.stats.Some? {
      var before := score;
      score := ApplyTelemetryBoost(score, StatsOf(e.stats.value, tool.name));
      if score - before != 0.0 {
        SumAppend(breakdown, Component(TelemetryBoost, score - before));
        breakdown := breakdown + [Component(TelemetryBoost, score - before)];
      }
    }
  }

  /** One round of the scoring loop. */
  method Recommend(tool: Tool, e: Evidence) returns (rec: Recommendation)
    ensures Explains(rec, tool, e)
  {
    var score, breakdown := WithTelemetry(tool, e);
    if tool.name in e.policies && e.scorer.Some? {
      var learned, applied := ScoreLearned(e.scorer.value, score, e.policies[tool.name], e.draw(tool.name));
      if applied {
        SumAppend(breakdown, Component(Algorithm(e.scorer.value), learned - score));
        breakdown := breakdown + [Component(Algorithm(e.scorer.value), learned - score)];
      }
      score := learned;
    }
    rec := Recommendation(tool.name, score, breakdown);
  }

  /** Sorting recommendations of distinct tools gives a strict order. */
  lemma SortedStrictly(all: seq<Recommendation>, sorted: seq<Recommendation>)
    requires forall i, j :: 0 <= i < j < |all| ==> all[i].name != all[j].name
    requires multiset(sorted) == multiset(all) && Sorted(sorted, Before)
    ensures |sorted| == |all| && forall i, j :: 0 <= i < j < |sorted| ==> Before(sorted[i], sorted[j])
  {
    SameMembers(sorted, all);
    forall i, j | 0 <= i < j < |sorted| ensures Before(sorted[i], sorted[j]) {
      NamesApart(all, sorted, i, j);
      LessTotal(sorted[i].name, sorted[j].name);
    }
  }

  lemma NamesApart(all: seq<Recommendation>, sorted: seq<Recommendation>, i: nat, j: nat)
    requires forall i, j :: 0 <= i < j < |all| ==> all[i].name != all[j].name
    requires multiset(sorted) == multiset(all) && i < j < |sorted|
    ensures sorted[i].name != sorted[j].name
  {
    SameMembers(sorted, all);
    assert sorted[i] in all && sorted[j] in all;
    if sorted[i].name == sorted[j].name {
      assert sorted[i] == sorted[j];
      TwoCopies(sorted, i, j);
      OneCopy(all, sorted[i]);
    }
  }

  lemma OneCopy(s: seq<Recommendation>, r: Recommendation)
    requires forall i, j :: 0 <= i < j < |s| ==> s[i].name != s[j].name
    ensures multiset(s)[r] <= 1
  {
    if r in s {
      var k :| 0 <= k < |s| && s[k] == r;
      assert s == s[..k] + [s[k]] + s[k + 1..];
      assert r !in s[..k] && r !in s[k + 1..];
    }
  }

  ghost predicate AllExplained(all: seq<Recommendation>, tools: seq<Tool>, e: Evidence)
  {
    |all| == |tools| && forall i :: 0 <= i < |all| ==> Explains(all[i], tools[i], e)
  }

  /** The tool is in the answer with its score explained. */
  ghost predicate Kept(recs: seq<Recommendation>, t: Tool, e: Evidence)
  {
    exists r :: r in recs && Explains(r, t, e)
  }

  /** The tool's own score and name, as a bare recommendation. */
  function Bare(t: Tool, e: Evidence): (r: Recommendation)
  {
    Recommendation(t.name, Final(t, e), [])
  }

  /** The tool would come after everything in the answer. */
  ghost predicate Behind(recs: seq<Recommendation>, t: Tool, e: Evidence)
  {
    forall i :: 0 <= i < |recs| ==> Before(recs[i], Bare(t, e))
  }

  /** The recommendation is about one of the tools. */
  ghost predicate FromTools(r: Recommendation, tools: seq<Tool>, e: Evidence)
  {
    exists t :: t in tools && Explains(r, t, e)
  }

  ghost predicate AllFrom(recs: seq<Recommendation>, tools: seq<Tool>, e: Evidence)
  {
    forall i :: 0 <= i < |recs| ==> FromTools(recs[i], tools, e)
  }

  /** Strictly ordered: each recommendation comes before all that follow it. */
  ghost predicate Ranked(recs: seq<Recommendation>)
  {
    forall i, j :: 0 <= i < j < |recs| ==> Before(recs[i], recs[j])
  }

  /** Every tool is in the answer or comes after all of it. */
  ghost predicate NoneBetter(recs: seq<Recommendation>, tools: seq<Tool>, e: Evidence)
  {
    forall t :: t in tools ==> Kept(recs, t, e) || Behind(recs, t, e)
  }

  lemma AnswersCome(tools: seq<Tool>, e: Evidence, all: seq<Recommendation>, recs: seq<Recommendation>)
    requires AllExplained(all, tools, e) && forall r :: r in recs ==> r in all
    ensures AllFrom(recs, tools, e)
  {
    forall i | 0 <= i < |recs| ensures FromTools(recs[i], tools, e) {
      assert recs[i] in recs;
      var j :| 0 <= j < |all| && all[j] == recs[i];
      assert tools[j] in tools && Explains(all[j], tools[j], e);
    }
  }

  lemma KeptOrBehind(t: Tool, e: Evidence, sorted: seq<Recommendation>, k: nat, p: nat)
    requires k <= |sorted| && p < |sorted| && Explains(sorted[p], t, e)
    requires Ranked(sorted)
    ensures Kept(sorted[..k], t, e) || Behind(sorted[..k], t, e)
  {
    if p < k { assert sorted[..k][p] == sorted[p]; }
  }

  method Rank(recs: seq<Recommendation>) returns (ranked: seq<RankedTool>)
    ensures |ranked| == |recs|
    ensures forall i :: 0 <= i < |recs| ==> ranked[i] == RankedTool(recs[i].name, i + 1, recs[i].score)
  {
    ranked := [];
    var i := 0;
    while i < |recs|
      invariant 0 <= i <= |recs| && |ranked| == i
      invariant forall j :: 0 <= j < i ==> ranked[j] == RankedTool(recs[j].name, j + 1, recs[j].score)
    {
      ranked := ranked + [RankedTool(recs[i].name, i + 1, recs[i].score)];
      i := i + 1;
    }
  }

  method ScoreAll(tools: seq<Tool>, e: Evidence) returns (all: seq<Recommendation>)
    ensures AllExplained(all, tools, e)
  {
    all := [];
    var n := 0;
    while n < |tools|
      invariant 0 <= n <= |tools| && AllExplained(all, tools[..n], e)
    {
      var rec := Recommend(tools[n], e);
      all := all + [rec];
      n := n + 1;
    }
  }

  method SortAll(tools: seq<Tool>, e: Evidence, all: seq<Recommendation>) returns (sorted: seq<Recommendation>)
    requires Distinct(tools) && AllExplained(all, tools, e)
    ensures multiset(sorted) == multiset(all) && |sorted| == |all|
    ensures Ranked(sorted)
  {
    sorted := Sort(all, Before);
    BeforeOrder();
    SortSorted(all, Before);
    SortedStrictly(all, sorted);
  }

  /** Everything the answer promises: its size, strict order, exact breakdowns, and that each
      tool left out comes after each tool kept. */
  ghost predicate Best(recs: seq<Recommendation>, tools: seq<Tool>, e: Evidence, k: nat)
  {
    && |recs| == (if k < |tools| then k else |tools|)
    && AllFrom(recs, tools, e) && Ranked(recs) && NoneBetter(recs, tools, e)
  }

  /** The place of a tool in the sorted list. */
  lemma PlaceOf(tools: seq<Tool>, e: Evidence, all: seq<Recommendation>, sorted: seq<Recommendation>, t: Tool) returns (p: nat)
    requires AllExplained(all, tools, e) && t in tools && forall r :: r in all <==> r in sorted
    ensures p < |sorted| && Explains(sorted[p], t, e)
  {
    var j :| 0 <= j < |tools| && tools[j] == t;
    assert all[j] in sorted;
    p :| 0 <= p < |sorted| && sorted[p] == all[j];
  }

  lemma NoneBetterThan(tools: seq<Tool>, e: Evidence, all: seq<Recommendation>, sorted: seq<Recommendation>, k: nat)
    requires AllExplained(all, tools, e) && (forall r :: r in all <==> r in sorted) && Ranked(sorted) && k <= |sorted|
    ensures NoneBetter(sorted[..k], tools, e)
  {
    forall t | t in tools ensures Kept(sorted[..k], t, e) || Behind(sorted[..k], t, e) {
      var p := PlaceOf(tools, e, all, sorted, t);
      KeptOrBehind(t, e, sorted, k, p);
    }
  }

  lemma PrefixIsBest(tools: seq<Tool>, e: Evidence, all: seq<Recommendation>, sorted: seq<Recommendation>, k: nat)
    requires AllExplained(all, tools, e) && multiset(sorted) == multiset(all) && Ranked(sorted)
    ensures |sorted| == |tools| && Best(sorted[..Min(k, |sorted|)], tools, e, k)
  {
    SameMembers(sorted, all);
    var recs := sorted[..Min(k, |sorted|)];
    AnswersCome(tools, e, all, recs);
    NoneBetterThan(tools, e, all, sorted, Min(k, |sorted|));
  }

  lemma AnswerWithin(recs: seq<Recommendation>, tools: seq<Tool>, e: Evidence)
    requires AllFrom(recs, tools, e)
    ensures UnitRange(e) ==> forall i :: 0 <= i < |recs| ==> -0.50 <= recs[i].score <= 1.60
  {
    if UnitRange(e) {
      forall i | 0 <= i < |recs| ensures -0.50 <= recs[i].score <= 1.60 {
        var t := ToolOf(recs[i], tools, e);
        FinalWithin(t, e);
      }
    }
  }

  /** The recommendation carries the score of a tool of that name, and its parts add up to it. */
  ghost predicate ScoredFrom(r: Recommendation, tools: seq<Tool>, e: Evidence)
  {
    exists t :: t in tools && r.name == t.name && r.score == Final(t, e) && r.score == Sum(r.breakdown)
  }

  /** A best answer in plain terms: descending scores, names deciding ties, and no tool left out
      that scores higher, or as high with an earlier name. */
  lemma BestMeaning(recs: seq<Recommendation>, tools: seq<Tool>, e: Evidence, k: nat)
    requires Best(recs, tools, e, k)
    ensures forall i, j :: 0 <= i < j < |recs| ==>
              recs[i].score > recs[j].score || (recs[i].score == recs[j].score && Less(recs[i].name, recs[j].name))
    ensures forall t :: t in tools && (forall i :: 0 <= i < |recs| ==> recs[i].name != t.name) ==>
              forall i :: 0 <= i < |recs| ==>
                recs[i].score > Final(t, e) || (recs[i].score == Final(t, e) && Less(recs[i].name, t.name))
    ensures forall i :: 0 <= i < |recs| ==>
              ScoredFrom(recs[i], tools, e)
  {
    forall t | t in tools && (forall i :: 0 <= i < |recs| ==> recs[i].name != t.name) ensures Behind(recs, t, e) {
      assert forall r :: r in recs ==> r.name != t.name;
    }
    forall i | 0 <= i < |recs| ensures ScoredFrom(recs[i], tools, e) {
      var t := ToolOf(recs[i], tools, e);
      assert recs[i].name == t.name;
    }
  }

  /** The answer is the best min(k, |tools|) tools, ranked 1..k. Catalog names are distinct. */
  method RecommendTools(tools: seq<Tool>, e: Evidence, topK: int)
    returns (recs: seq<Recommendation>, ranked: seq<RankedTool>)
    requires Distinct(tools)
    ensures Best(recs, tools, e, if topK <= 0 then 10 else if topK > 50 then 50 else topK)
    ensures forall i, j :: 0 <= i < j < |recs| ==>
              recs[i].score > recs[j].score || (recs[i].score == recs[j].score && Less(recs[i].name, recs[j].name))
    ensures forall t :: t in tools && (forall i :: 0 <= i < |recs| ==> recs[i].name != t.name) ==>
              forall i :: 0 <= i < |recs| ==>
                recs[i].score > Final(t, e) || (recs[i].score == Final(t, e) && Less(recs[i].name, t.name))
    ensures forall i :: 0 <= i < |recs| ==>
              ScoredFrom(recs[i], tools, e)
    ensures UnitRange(e) ==> forall i :: 0 <= i < |recs| ==> -0.50 <= recs[i].score <= 1.60
    ensures |ranked| == |recs|
    ensures forall i :: 0 <= i < |recs| ==> ranked[i] == RankedTool(recs[i].name, i + 1, recs[i].score)
  {
    var k := if topK <= 0 then 10 else topK;
    if k > 50 { k := 50; }
    var all := ScoreAll(tools, e);
    var sorted := SortAll(tools, e, all);
    PrefixIsBest(tools, e, all, sorted, k);
    recs := if k < |sorted| then sorted[..k] else sorted;
    assert recs == sorted[..Min(k, |sorted|)];
    AnswerWithin(recs, tools, e);
    BestMeaning(recs, tools, e, k);
    ranked := Rank(recs);
  }

  // ---- Better evidence never demotes -----------------------------------------------------------

  lemma BeforeAsymmetric(a: Recommendation, b: Recommendation)
    ensures !(Before(a, b) && Before(b, a))
  {
    LessAsymmetric(a.name, b.name);
  }

  lemma ToolOf(r: Recommendation, tools: seq<Tool>, e: Evidence) returns (u: Tool)
    requires FromTools(r, tools, e)
    ensures u in tools && Explains(r, u, e)
  {
    u :| u in tools && Explains(r, u, e);
  }

  lemma SameName(tools: seq<Tool>, t: Tool, u: Tool)
    requires Distinct(tools) && t in tools && u in tools && t.name == u.name
    ensures t == u
  {
  }

  function Names(recs: seq<Recommendation>, n: nat): (names: set<string>)
    requires n <= |recs|
  {
    set i | 0 <= i < n :: recs[i].name
  }

  lemma NamesNext(recs: seq<Recommendation>, n: nat)
    requires n < |recs|
    ensures Names(recs, n + 1) == Names(recs, n) + {recs[n].name}
  {
  }

  lemma {:induction false} NamesBound(recs: seq<Recommendation>, n: nat)
    requires n <= |recs|
    ensures |Names(recs, n)| <= n
  {
    if n == 0 {
      assert Names(recs, 0) == {};
    } else {
      NamesBound(recs, n - 1);
      NamesNext(recs, n - 1);
    }
  }

  lemma {:induction false} NamesCount(recs: seq<Recommendation>, n: nat)
    requires n <= |recs| && forall i, j :: 0 <= i < j < |recs| ==> recs[i].name != recs[j].name
    ensures |Names(recs, n)| == n
  {
    if n == 0 {
      assert Names(recs, 0) == {};
    } else {
      NamesCount(recs, n - 1);
      NamesNext(recs, n - 1);
      assert recs[n - 1].name !in Names(recs, n - 1);
    }
  }

  lemma BestNamesApart(recs: seq<Recommendation>, tools: seq<Tool>, e: Evidence)
    requires Distinct(tools) && AllFrom(recs, tools, e) && Ranked(recs)
    ensures forall i, j :: 0 <= i < j < |recs| ==> recs[i].name != recs[j].name
  {
    forall i, j | 0 <= i < j < |recs| ensures recs[i].name != recs[j].name {
      var t := ToolOf(recs[i], tools, e);
      var u := ToolOf(recs[j], tools, e);
      if t.name == u.name { SameName(tools, t, u); }
      LessIrreflexive(t.name);
    }
  }

  lemma EarlierIndex(recs: seq<Recommendation>, j: nat, p: nat)
    requires Ranked(recs)
    requires j < |recs| && p < |recs| && Before(recs[j], recs[p])
    ensures j < p
  {
    BeforeAsymmetric(recs[j], recs[p]);
  }

  lemma AheadIsKept(recs: seq<Recommendation>, e: Evidence, p: nat, u: Tool) returns (j: nat)
    requires (Kept(recs, u, e) || Behind(recs, u, e)) && p < |recs| && Before(Bare(u, e), recs[p])
    ensures j < |recs| && Explains(recs[j], u, e)
  {
    BeforeAsymmetric(Bare(u, e), recs[p]);
    assert !Behind(recs, u, e);
    var r :| r in recs && Explains(r, u, e);
    j :| 0 <= j < |recs| && recs[j] == r;
  }

  /** A tool that comes before the one at position p of a best answer sits at an earlier place. */
  lemma AheadIsEarlier(recs: seq<Recommendation>, tools: seq<Tool>, e: Evidence, p: nat, u: Tool)
    requires Ranked(recs) && NoneBetter(recs, tools, e) && p < |recs| && u in tools && Before(Bare(u, e), recs[p])
    ensures u.name in Names(recs, p)
  {
    var j := AheadIsKept(recs, e, p, u);
    EarlierIndex(recs, j, p);
  }

  /** If the tool is not among the first p + 1 answers, all of those come before it. */
  lemma MissingIsBehind(recs: seq<Recommendation>, e: Evidence, p: nat, t: Tool, i: nat)
    requires Ranked(recs) && (Kept(recs, t, e) || Behind(recs, t, e)) && i <= p < |recs| && t.name !in Names(recs, p + 1)
    ensures Before(recs[i], Bare(t, e))
  {
    if !Behind(recs, t, e) {
      var r :| r in recs && Explains(r, t, e);
      var j :| 0 <= j < |recs| && recs[j] == r;
      assert recs[j].name == t.name && j > p;
    }
  }

  /** The measurements of one tool improved; every other tool scores as before. */
  ghost predicate Improves(tools: seq<Tool>, t: Tool, a: Evidence, b: Evidence)
  {
    && Better(t.name, a, b) && a.lower == b.lower
    && forall u :: u in tools && u != t ==> Final(u, a) == Final(u, b)
  }

  /** Better measurements for a tool never move it down: kept at position p before, it is kept at
      position p or an earlier one after. */
  lemma BetterNeverDemotes(tools: seq<Tool>, t: Tool, a: Evidence, b: Evidence, k: nat,
                           ra: seq<Recommendation>, rb: seq<Recommendation>, p: nat)
    requires Distinct(tools) && t in tools && Improves(tools, t, a, b)
    requires Best(ra, tools, a, k) && Best(rb, tools, b, k) && p < |ra| && ra[p].name == t.name
    ensures exists q :: 0 <= q <= p && rb[q].name == t.name
  {
    if t.name !in Names(rb, p + 1) {
      BestNamesApart(rb, tools, b);
      NamesCount(rb, p + 1);
      NamesBound(ra, p);
      forall i | 0 <= i <= p ensures rb[i].name in Names(ra, p) {
        PassedBefore(tools, t, a, b, k, ra, rb, p, i);
      }
      SetBound(Names(rb, p + 1), Names(ra, p));
    }
  }

  lemma PassedBefore(tools: seq<Tool>, t: Tool, a: Evidence, b: Evidence, k: nat,
                     ra: seq<Recommendation>, rb: seq<Recommendation>, p: nat, i: nat)
    requires Distinct(tools) && t in tools && Improves(tools, t, a, b)
    requires Best(ra, tools, a, k) && Best(rb, tools, b, k) && p < |ra| && ra[p].name == t.name
    requires t.name !in Names(rb, p + 1) && i <= p
    ensures rb[i].name in Names(ra, p)
  {
    MissingIsBehind(rb, b, p, t, i);
    BetterNeverLowers(t, a, b);
    var u := ToolOf(rb[i], tools, b);
    var v := ToolOf(ra[p], tools, a);
    SameName(tools, t, v);
    assert u != t;
    AheadIsEarlier(ra, tools, a, p, u);
  }

  lemma SetBound(a: set<string>, b: set<string>)
    requires a <= b
    ensures |a| <= |b|
  {
    assert b == a + (b - a);
  }
}
