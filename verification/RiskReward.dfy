/**
 The position gate and the staged diagnosis that explains it.  The gate sizes a
 position or rejects it; the diagnosis adds fees, slippage and funding one at a
 time and names the first stage at which the reward-to-risk ratio falls short.
 Arithmetic is over `real`.
 */
module RiskReward {
  import opened Options
  import opened Domain
  import opened Arithmetic

  datatype Candidate = Candidate(direction: Direction, entryLow: real, entryHigh: real, invalidation: real,
                                 target: real)

  datatype Strategy = Strategy(rrMin: real, stopAtrBuffer: real)

  datatype Risk = Risk(
    equity: real, riskPerTrade: real, maxNotional: real, minNotional: real, leverage: real,
    takerFee: real, slippageBps: real, fundingEstimate: real, fundingStress: real, fundingEvents: int)

  // What RiskConfig accepts.
  predicate ValidRisk(r: Risk) {
    && r.equity > 0.0 && 0.0 < r.riskPerTrade <= 0.05
    && 0.0 < r.minNotional <= r.maxNotional && r.leverage > 0.0
    && r.takerFee >= 0.0 && r.slippageBps >= 0.0 && r.fundingStress >= 0.0 && r.fundingEvents >= 0
  }

  // ---- geometry ----

  // Prices seen from the entry: how far the stop and the target are, in the trade's favour.
  datatype Geometry = Geometry(direction: Direction, entry: real, stop: real, target: real, stopDistance: real,
                               reward: real)

  function GeometryOf(c: Candidate, atr: real, s: Strategy): Geometry {
    var entry, buffer := (c.entryLow + c.entryHigh) / 2.0, s.stopAtrBuffer * atr;
    if c.direction.Long? then
      var stop := c.invalidation - buffer;
      Geometry(Long, entry, stop, c.target, entry - stop, c.target - entry)
    else
      var stop := c.invalidation + buffer;
      Geometry(Short, entry, stop, c.target, stop - entry, entry - c.target)
  }

  predicate ValidGeometry(g: Geometry) {
    g.entry > 0.0 && g.stopDistance > 0.0 && g.reward > 0.0
  }

  function RiskShare(g: Geometry): (share: real)
    requires ValidGeometry(g)
    ensures share > 0.0
  {
    PositiveQuotient(g.stopDistance, g.entry);
    g.stopDistance / g.entry
  }

  function RewardShare(g: Geometry): (share: real)
    requires ValidGeometry(g)
    ensures share > 0.0
  {
    PositiveQuotient(g.reward, g.entry);
    g.reward / g.entry
  }

  // ---- costs, as fractions of notional ----

  datatype Costs = Costs(fee: real, slippage: real, funding: real)

  predicate ValidCosts(k: Costs) {
    k.fee >= 0.0 && k.slippage >= 0.0 && k.funding >= 0.0
  }

  function Total(k: Costs): real {
    k.fee + k.slippage + k.funding
  }

  // The diagnosis uses the stress rate; the gate the worse of it and the observed rate.
  function StressCosts(r: Risk): Costs {
    Costs(2.0 * r.takerFee, 2.0 * r.slippageBps / 10_000.0, r.fundingStress * r.fundingEvents as real)
  }

  function ObservedAdverse(d: Direction, rate: real): real {
    if d.Long? then Max(rate, 0.0) else Max(-rate, 0.0)
  }

  function GateCosts(d: Direction, r: Risk, rate: real): Costs {
    StressCosts(r).(funding := Max(ObservedAdverse(d, rate), r.fundingStress) * r.fundingEvents as real)
  }

  function EffectiveRate(r: Risk, fundingRate: Option<real>): real {
    if fundingRate.Some? then fundingRate.value else r.fundingEstimate
  }

  lemma CostsAreValid(d: Direction, r: Risk, rate: real)
    requires ValidRisk(r)
    ensures ValidCosts(StressCosts(r)) && ValidCosts(GateCosts(d, r, rate))
    ensures StressCosts(r).funding <= GateCosts(d, r, rate).funding
    ensures ObservedAdverse(d, rate) <= r.fundingStress ==> GateCosts(d, r, rate) == StressCosts(r)
  {
    var events, worst := r.fundingEvents as real, Max(ObservedAdverse(d, rate), r.fundingStress);
    NonNegativeProduct(r.fundingStress, events);
    NonNegativeProduct(worst - r.fundingStress, events);
    assert (worst - r.fundingStress) * events == worst * events - r.fundingStress * events;
  }

  function NetRr(reward: real, risk: real, cost: real): real
    requires risk + cost > 0.0
  {
    (reward - cost) / (risk + cost)
  }

  // ---- the gate ----

  datatype Plan = Plan(entry: real, stop: real, target: real, rrGross: real, rrNet: real, riskUsdt: real,
                       notional: real, margin: real, fee: real, slippage: real, funding: real)

  function Notional(r: Risk, loss: real): real
    requires loss > 0.0
  {
    Min(r.equity * r.riskPerTrade / loss, r.maxNotional)
  }

  function PlanOf(g: Geometry, k: Costs, r: Risk, notional: real): Plan
    requires ValidRisk(r) && ValidCosts(k) && ValidGeometry(g)
  {
    Plan(g.entry, g.stop, g.target, g.reward / g.stopDistance, NetRr(RewardShare(g), RiskShare(g), Total(k)),
         notional * (RiskShare(g) + Total(k)), notional, notional / r.leverage,
         notional * k.fee, notional * k.slippage, notional * k.funding)
  }

  function PlanFor(g: Geometry, k: Costs, s: Strategy, r: Risk): Option<Plan>
    requires ValidRisk(r) && ValidCosts(k)
  {
    if !ValidGeometry(g) then None
    else if NetRr(RewardShare(g), RiskShare(g), Total(k)) < s.rrMin then None
    else
      var notional := Notional(r, RiskShare(g) + Total(k));
      if notional < r.minNotional then None else Some(PlanOf(g, k, r, notional))
  }

  function BuildPlan(c: Candidate, atr: real, s: Strategy, r: Risk, fundingRate: Option<real>): Option<Plan>
    requires ValidRisk(r)
  {
    CostsAreValid(c.direction, r, EffectiveRate(r, fundingRate));
    PlanFor(GeometryOf(c, atr, s), GateCosts(c.direction, r, EffectiveRate(r, fundingRate)), s, r)
  }

  // ---- the diagnosis ----

  datatype Reason =
    | InvalidGeometry | GrossRrBelowThreshold | FeeDragCrossedThreshold | SlippageDragCrossedThreshold
    | FundingStressCrossedThreshold | MinNotionalReject | Pass

  datatype Diagnosis = Diagnosis(reason: Reason, rrNet: Option<real>, requiredTarget: Option<real>)

  // The first stage that fails, costs added one at a time.
  function FirstFailure(g: Geometry, k: Costs, s: Strategy, r: Risk): Reason
    requires ValidGeometry(g) && ValidCosts(k)
  {
    var reward, risk := RewardShare(g), RiskShare(g);
    if g.reward / g.stopDistance < s.rrMin then GrossRrBelowThreshold
    else if NetRr(reward, risk, k.fee) < s.rrMin then FeeDragCrossedThreshold
    else if NetRr(reward, risk, k.fee + k.slippage) < s.rrMin then SlippageDragCrossedThreshold
    else if NetRr(reward, risk, Total(k)) < s.rrMin then FundingStressCrossedThreshold
    else if Notional(r, risk + Total(k)) < r.minNotional then MinNotionalReject
    else Pass
  }

  // The reward, as a share of the entry price, at which the net ratio is the minimum.
  function RequiredShare(rrMin: real, risk: real, cost: real): real {
    rrMin * (risk + cost) + cost
  }

  function TargetFor(g: Geometry, reward: real): real {
    if g.direction.Long? then g.entry + reward else g.entry - reward
  }

  function NetOf(g: Geometry, k: Costs): Option<real>
    requires ValidCosts(k)
  {
    if ValidGeometry(g) then Some(NetRr(RewardShare(g), RiskShare(g), Total(k))) else None
  }

  function RequiredTargetOf(g: Geometry, k: Costs, s: Strategy): Option<real>
    requires ValidCosts(k)
  {
    if ValidGeometry(g) then Some(TargetFor(g, RequiredReward(g, k, s))) else None
  }

  function RequiredReward(g: Geometry, k: Costs, s: Strategy): real
    requires ValidCosts(k) && ValidGeometry(g)
  {
    g.entry * RequiredShare(s.rrMin, RiskShare(g), Total(k))
  }

  function ReasonOf(g: Geometry, k: Costs, s: Strategy, r: Risk): Reason
    requires ValidCosts(k)
  {
    if ValidGeometry(g) then FirstFailure(g, k, s, r) else InvalidGeometry
  }

  function Decompose(c: Candidate, atr: real, s: Strategy, r: Risk): Diagnosis
    requires ValidRisk(r)
  {
    CostsAreValid(c.direction, r, 0.0);
    var g, k := GeometryOf(c, atr, s), StressCosts(r);
    Diagnosis(ReasonOf(g, k, s, r), NetOf(g, k), RequiredTargetOf(g, k, s))
  }

  // ---- arithmetic ----

  lemma NetRrAsShare(reward: real, risk: real, cost: real)
    requires risk + cost > 0.0
    ensures NetRr(reward, risk, cost) == (reward + risk) / (risk + cost) - 1.0
  {
    var d := risk + cost;
    assert reward - cost == (reward + risk) - d;
    assert ((reward + risk) - d) / d == (reward + risk) / d - d / d;
    assert d / d == 1.0;
  }

  // More cost, lower net ratio.
  lemma NetRrFalls(reward: real, risk: real, less: real, more: real)
    requires reward > 0.0 && risk > 0.0 && 0.0 <= less <= more
    ensures NetRr(reward, risk, more) <= NetRr(reward, risk, less)
  {
    NetRrAsShare(reward, risk, less);
    NetRrAsShare(reward, risk, more);
    QuotientFalls(reward + risk, risk + less, risk + more);
  }

  // Shares of the entry price have the same ratio as the prices.
  lemma SameRatio(a: real, b: real, e: real)
    requires b > 0.0 && e > 0.0
    ensures b / e > 0.0 && (a / e) / (b / e) == a / b
  {
    PositiveQuotient(b, e);
    var x, y := a / e, b / e;
    assert x * e == a && y * e == b;
    RatioOfMultiples(x, y, e);
  }

  lemma RatioOfMultiples(x: real, y: real, e: real)
    requires y > 0.0 && e > 0.0
    ensures y * e > 0.0 && (x * e) / (y * e) == x / y
  {
    var q := x / y;
    assert q * y == x;
    assert q * (y * e) == x * e;
    DivideBack(q, y * e);
  }

  // ---- the diagnosis matches the gate ----

  // What both decide, in terms of one total cost.
  predicate Accepts(reward: real, risk: real, cost: real, s: Strategy, r: Risk)
    requires risk + cost > 0.0
  {
    NetRr(reward, risk, cost) >= s.rrMin && Notional(r, risk + cost) >= r.minNotional
  }

  // The staged checks add nothing: passing with all costs implies passing with fewer.
  lemma StagesAddNothing(g: Geometry, k: Costs, s: Strategy, r: Risk)
    requires ValidGeometry(g) && ValidCosts(k)
    ensures FirstFailure(g, k, s, r) == Pass <==> Accepts(RewardShare(g), RiskShare(g), Total(k), s, r)
  {
    var reward, risk := RewardShare(g), RiskShare(g);
    NetRrFalls(reward, risk, k.fee + k.slippage, Total(k));
    NetRrFalls(reward, risk, k.fee, k.fee + k.slippage);
    NetRrFalls(reward, risk, 0.0, k.fee);
    SameRatio(g.reward, g.stopDistance, g.entry);
  }

  lemma AcceptFallsWithCost(reward: real, risk: real, less: real, more: real, s: Strategy, r: Risk)
    requires ValidRisk(r) && reward > 0.0 && risk > 0.0 && 0.0 <= less <= more && Accepts(reward, risk, more, s, r)
    ensures Accepts(reward, risk, less, s, r)
  {
    NetRrFalls(reward, risk, less, more);
    PositiveProduct(r.equity, r.riskPerTrade);
    QuotientFalls(r.equity * r.riskPerTrade, risk + less, risk + more);
  }

  // The diagnosis says PASS exactly when the gate returns a plan, provided the adverse
  // part of the funding estimate is no larger than the stress rate.
  lemma PassExactlyWhenPlanned(c: Candidate, atr: real, s: Strategy, r: Risk)
    requires ValidRisk(r) && ObservedAdverse(c.direction, r.fundingEstimate) <= r.fundingStress
    ensures Decompose(c, atr, s, r).reason == Pass <==> BuildPlan(c, atr, s, r, None).Some?
  {
    CostsAreValid(c.direction, r, r.fundingEstimate);
    var g := GeometryOf(c, atr, s);
    if ValidGeometry(g) { StagesAddNothing(g, StressCosts(r), s, r); }
  }

  // Without that proviso a plan still implies PASS: the gate is only ever stricter.
  lemma PlanImpliesPass(c: Candidate, atr: real, s: Strategy, r: Risk, fundingRate: Option<real>)
    requires ValidRisk(r) && BuildPlan(c, atr, s, r, fundingRate).Some?
    ensures Decompose(c, atr, s, r).reason == Pass
  {
    var g, rate := GeometryOf(c, atr, s), EffectiveRate(r, fundingRate);
    CostsAreValid(c.direction, r, rate);
    StagesAddNothing(g, StressCosts(r), s, r);
    AcceptFallsWithCost(RewardShare(g), RiskShare(g), Total(StressCosts(r)), Total(GateCosts(c.direction, r, rate)),
                        s, r);
  }

  lemma PlanIsAccept(g: Geometry, k: Costs, s: Strategy, r: Risk)
    requires ValidRisk(r) && ValidCosts(k) && ValidGeometry(g)
    ensures PlanFor(g, k, s, r).Some? <==> Accepts(RewardShare(g), RiskShare(g), Total(k), s, r)
  {
  }

  // ---- exactly when they agree ----

  // When no candidate in this direction can be told apart by the two: the gate charges no more
  // funding than the diagnosis, or costs alone already push every trade below the minimum notional.
  predicate GateMatchesDiagnosis(d: Direction, r: Risk) {
    || ObservedAdverse(d, r.fundingEstimate) <= r.fundingStress
    || r.fundingEvents == 0
    || r.equity * r.riskPerTrade <= r.minNotional * Total(StressCosts(r))
  }

  predicate SaysTheSame(c: Candidate, atr: real, s: Strategy, r: Risk)
    requires ValidRisk(r)
  {
    Decompose(c, atr, s, r).reason == Pass <==> BuildPlan(c, atr, s, r, None).Some?
  }

  lemma GateCostsMore(d: Direction, r: Risk)
    requires ValidRisk(r) && ObservedAdverse(d, r.fundingEstimate) > r.fundingStress
    ensures r.fundingEvents == 0 ==> GateCosts(d, r, r.fundingEstimate) == StressCosts(r)
    ensures r.fundingEvents > 0 ==> Total(StressCosts(r)) < Total(GateCosts(d, r, r.fundingEstimate))
  {
    var events, more := r.fundingEvents as real, ObservedAdverse(d, r.fundingEstimate) - r.fundingStress;
    assert more * events == ObservedAdverse(d, r.fundingEstimate) * events - r.fundingStress * events;
    if r.fundingEvents > 0 { PositiveProduct(more, events); }
  }

  // The size reaches the minimum exactly when the loss share is small enough.
  lemma SizeReachesMinimum(r: Risk, loss: real)
    requires ValidRisk(r) && loss > 0.0
    ensures Notional(r, loss) >= r.minNotional <==> r.equity * r.riskPerTrade >= r.minNotional * loss
  {
    QuotientAgainst(r.equity * r.riskPerTrade, loss, r.minNotional);
  }

  // A loss share beyond one that already uses up the budget is too large.
  lemma BeyondBudget(r: Risk, loss: real, less: real)
    requires ValidRisk(r) && 0.0 <= less < loss && r.equity * r.riskPerTrade <= r.minNotional * less
    ensures Notional(r, loss) < r.minNotional
  {
    SizeReachesMinimum(r, loss);
    PositiveProduct(r.minNotional, loss - less);
    assert r.minNotional * (loss - less) == r.minNotional * loss - r.minNotional * less;
  }

  // If the stress costs alone exhaust the risk budget, nothing passes and nothing is planned.
  lemma ExhaustedBudget(c: Candidate, atr: real, s: Strategy, r: Risk)
    requires ValidRisk(r) && r.equity * r.riskPerTrade <= r.minNotional * Total(StressCosts(r))
    ensures Decompose(c, atr, s, r).reason != Pass && BuildPlan(c, atr, s, r, None).None?
  {
    var g, stress := GeometryOf(c, atr, s), Total(StressCosts(r));
    CostsAreValid(c.direction, r, r.fundingEstimate);
    if ValidGeometry(g) {
      StagesAddNothing(g, StressCosts(r), s, r);
      BeyondBudget(r, RiskShare(g) + stress, stress);
    }
    if BuildPlan(c, atr, s, r, None).Some? { PlanImpliesPass(c, atr, s, r, None); }
  }

  // A candidate at entry price 1 with the given risk and reward shares.
  function Shaped(d: Direction, risk: real, reward: real, buffer: real): Candidate {
    if d.Long? then Candidate(d, 1.0, 1.0, 1.0 - risk + buffer, 1.0 + reward)
    else Candidate(d, 1.0, 1.0, 1.0 + risk - buffer, 1.0 - reward)
  }

  lemma ShapedGeometry(d: Direction, risk: real, reward: real, atr: real, s: Strategy)
    requires risk > 0.0 && reward > 0.0
    ensures var g := GeometryOf(Shaped(d, risk, reward, s.stopAtrBuffer * atr), atr, s);
            ValidGeometry(g) && RiskShare(g) == risk && RewardShare(g) == reward
  {
  }

  lemma PassesAt(g: Geometry, k: Costs, s: Strategy, r: Risk)
    requires ValidRisk(r) && ValidCosts(k) && ValidGeometry(g)
    requires RewardShare(g) >= RequiredShare(s.rrMin, RiskShare(g), Total(k))
    requires r.equity * r.riskPerTrade >= r.minNotional * (RiskShare(g) + Total(k))
    ensures ReasonOf(g, k, s, r) == Pass
  {
    StagesAddNothing(g, k, s, r);
    NetReachesMinimumExactly(RewardShare(g), s.rrMin, RiskShare(g), Total(k));
    SizeReachesMinimum(r, RiskShare(g) + Total(k));
  }

  lemma RefusedAbove(g: Geometry, k: Costs, s: Strategy, r: Risk, less: real)
    requires ValidRisk(r) && ValidCosts(k) && ValidGeometry(g) && 0.0 <= less < Total(k)
    requires r.equity * r.riskPerTrade <= r.minNotional * (RiskShare(g) + less)
    ensures PlanFor(g, k, s, r).None?
  {
    BeyondBudget(r, RiskShare(g) + Total(k), RiskShare(g) + less);
    PlanIsAccept(g, k, s, r);
  }

  // Where the condition fails, a trade whose size at the stress cost is exactly the minimum
  // passes the diagnosis and is refused by the gate.
  lemma MarginalTradeSeparates(d: Direction, atr: real, s: Strategy, r: Risk, risk: real, reward: real)
    requires ValidRisk(r) && !GateMatchesDiagnosis(d, r)
    requires risk == r.equity * r.riskPerTrade / r.minNotional - Total(StressCosts(r))
    requires reward == Max(1.0, RequiredShare(s.rrMin, risk, Total(StressCosts(r))))
    ensures risk > 0.0
    ensures var c := Shaped(d, risk, reward, s.stopAtrBuffer * atr);
            Decompose(c, atr, s, r).reason == Pass && BuildPlan(c, atr, s, r, None).None?
  {
    var budget, stress := r.equity * r.riskPerTrade, Total(StressCosts(r));
    var c := Shaped(d, risk, reward, s.stopAtrBuffer * atr);
    var g := GeometryOf(c, atr, s);
    CostsAreValid(d, r, r.fundingEstimate);
    GateCostsMore(d, r);
    QuotientAgainst(budget, r.minNotional, stress);
    ShapedGeometry(d, risk, reward, atr, s);
    assert budget == r.minNotional * (risk + stress);
    PassesAt(g, StressCosts(r), s, r);
    RefusedAbove(g, GateCosts(d, r, r.fundingEstimate), s, r, stress);
  }

  // For every direction, risk setting, strategy and ATR: the diagnosis says PASS exactly when the gate
  // returns a plan, for all candidates, if and only if the settings meet the condition.
  lemma DisagreementIsExact(d: Direction, atr: real, s: Strategy, r: Risk)
    requires ValidRisk(r)
    ensures (forall c: Candidate | c.direction == d :: SaysTheSame(c, atr, s, r)) <==> GateMatchesDiagnosis(d, r)
  {
    if GateMatchesDiagnosis(d, r) {
      forall c: Candidate | c.direction == d ensures SaysTheSame(c, atr, s, r) { MatchesForAll(c, atr, s, r); }
    } else {
      var risk := r.equity * r.riskPerTrade / r.minNotional - Total(StressCosts(r));
      var reward := Max(1.0, RequiredShare(s.rrMin, risk, Total(StressCosts(r))));
      MarginalTradeSeparates(d, atr, s, r, risk, reward);
      assert !SaysTheSame(Shaped(d, risk, reward, s.stopAtrBuffer * atr), atr, s, r);
    }
  }

  lemma MatchesForAll(c: Candidate, atr: real, s: Strategy, r: Risk)
    requires ValidRisk(r) && GateMatchesDiagnosis(c.direction, r)
    ensures SaysTheSame(c, atr, s, r)
  {
    if ObservedAdverse(c.direction, r.fundingEstimate) <= r.fundingStress {
      PassExactlyWhenPlanned(c, atr, s, r);
    } else if r.fundingEvents == 0 {
      GateCostsMore(c.direction, r);
      CostsAreValid(c.direction, r, r.fundingEstimate);
      var g := GeometryOf(c, atr, s);
      if ValidGeometry(g) { StagesAddNothing(g, StressCosts(r), s, r); }
    } else {
      ExhaustedBudget(c, atr, s, r);
    }
  }

  // A concrete trade the two disagree on: the default settings with a one percent funding estimate.
  lemma UnstressedFundingSeparates(c: Candidate, atr: real, s: Strategy, r: Risk)
    requires c == Candidate(Long, 99.0, 101.0, 96.0, 110.0) && atr == 4.0 && s == Strategy(1.8, 0.25)
    requires r == Risk(100.0, 0.005, 100.0, 5.0, 20.0, 0.0005, 2.0, 0.01, 0.0005, 2)
    ensures ValidRisk(r) && Decompose(c, atr, s, r).reason == Pass && BuildPlan(c, atr, s, r, None).None?
  {
    var g := GeometryOf(c, atr, s);
    var reward, risk := RewardShare(g), RiskShare(g);
    assert risk == 0.05 && reward == 0.1;
    var stress, gate := Total(StressCosts(r)), Total(GateCosts(Long, r, r.fundingEstimate));
    assert stress == 0.0024 && gate == 0.0214;
    StagesAddNothing(g, StressCosts(r), s, r);
    NetReachesMinimumExactly(reward, s.rrMin, risk, stress);
    NetReachesMinimumExactly(reward, s.rrMin, risk, gate);
    SizeReachesMinimum(r, risk + stress);
  }

  // ---- which stage fails, and what a plan says ----

  // The reward falls short of what the costs require.
  predicate FallsShort(g: Geometry, s: Strategy, cost: real)
    requires ValidGeometry(g)
  {
    RewardShare(g) < RequiredShare(s.rrMin, RiskShare(g), cost)
  }

  lemma StageExactly(g: Geometry, s: Strategy, cost: real)
    requires ValidGeometry(g) && cost >= 0.0
    ensures NetRr(RewardShare(g), RiskShare(g), cost) < s.rrMin <==> FallsShort(g, s, cost)
  {
    NetReachesMinimumExactly(RewardShare(g), s.rrMin, RiskShare(g), cost);
  }

  lemma GrossExactly(g: Geometry, s: Strategy)
    requires ValidGeometry(g)
    ensures g.reward / g.stopDistance < s.rrMin <==> g.reward < s.rrMin * g.stopDistance
  {
    QuotientAgainst(g.reward, g.stopDistance, s.rrMin);
  }

  // The first stage that fails, given which ones do.
  function FirstOf(gross: bool, fee: bool, slippage: bool, funding: bool, size: bool): Reason {
    if gross then GrossRrBelowThreshold
    else if fee then FeeDragCrossedThreshold
    else if slippage then SlippageDragCrossedThreshold
    else if funding then FundingStressCrossedThreshold
    else if size then MinNotionalReject
    else Pass
  }

  // The reason is the first of these that holds: a gross ratio below the minimum, a reward below what fees,
  // then slippage, then funding require, and a loss share that leaves too small a size.
  lemma ReasonExactly(g: Geometry, k: Costs, s: Strategy, r: Risk)
    requires ValidRisk(r) && ValidCosts(k)
    ensures g.entry <= 0.0 || g.stopDistance <= 0.0 || g.reward <= 0.0 <==> ReasonOf(g, k, s, r) == InvalidGeometry
    ensures ValidGeometry(g) ==>
              ReasonOf(g, k, s, r)
              == FirstOf(g.reward < s.rrMin * g.stopDistance, FallsShort(g, s, k.fee),
                         FallsShort(g, s, k.fee + k.slippage), FallsShort(g, s, Total(k)),
                         r.equity * r.riskPerTrade < r.minNotional * (RiskShare(g) + Total(k)))
  {
    if ValidGeometry(g) {
      GrossExactly(g, s);
      StageExactly(g, s, k.fee);
      StageExactly(g, s, k.fee + k.slippage);
      StageExactly(g, s, Total(k));
      SizeReachesMinimum(r, RiskShare(g) + Total(k));
    }
  }

  // A plan's prices are the request's, with the stop beyond the invalidation by the buffer.
  lemma PlanPrices(c: Candidate, atr: real, s: Strategy, r: Risk, fundingRate: Option<real>, p: Plan)
    requires ValidRisk(r) && BuildPlan(c, atr, s, r, fundingRate) == Some(p)
    ensures 2.0 * p.entry == c.entryLow + c.entryHigh && p.target == c.target
    ensures match c.direction
            case Long => p.stop + s.stopAtrBuffer * atr == c.invalidation && p.stop < p.entry < p.target
            case Short => p.stop - s.stopAtrBuffer * atr == c.invalidation && p.target < p.entry < p.stop
    ensures p.rrGross * Max(p.entry - p.stop, p.stop - p.entry) == Max(p.target - p.entry, p.entry - p.target)
  {
    var g := GeometryOf(c, atr, s);
    assert p.rrGross == g.reward / g.stopDistance;
    assert g.stopDistance == Max(p.entry - p.stop, p.stop - p.entry);
    assert g.reward == Max(p.target - p.entry, p.entry - p.target);
  }

  // What the gate charges: a round trip of fees and slippage, and for each funding event the worse of the
  // stress rate and the adverse part of the given rate, or of the estimate if none is given.
  lemma GateChargesExactly(d: Direction, r: Risk, fundingRate: Option<real>, k: Costs)
    requires k == GateCosts(d, r, EffectiveRate(r, fundingRate))
    ensures k.fee == r.takerFee + r.takerFee && k.slippage * 10_000.0 == r.slippageBps + r.slippageBps
    ensures var rate := match fundingRate case Some(rate) => rate case None => r.fundingEstimate;
            var adverse := match d case Long => rate case Short => -rate;
            k.funding == Max(Max(adverse, 0.0), r.fundingStress) * r.fundingEvents as real
  {
  }

  // A plan's costs are what the gate charges on its notional, and its margin the notional over the leverage.
  lemma PlanCosts(c: Candidate, atr: real, s: Strategy, r: Risk, fundingRate: Option<real>, p: Plan, k: Costs)
    requires ValidRisk(r) && BuildPlan(c, atr, s, r, fundingRate) == Some(p)
    requires k == GateCosts(c.direction, r, EffectiveRate(r, fundingRate))
    ensures CostsOf(p, k.fee, k.slippage, k.funding) && p.margin * r.leverage == p.notional
  {
    var g := GeometryOf(c, atr, s);
    CostsAreValid(c.direction, r, EffectiveRate(r, fundingRate));
    PlanIsOf(g, k, s, r, p);
    PlanCostsOf(g, k, r, p.notional, p);
  }

  // The plan's costs are these shares of its notional.
  predicate CostsOf(p: Plan, fee: real, slippage: real, funding: real) {
    p.fee == p.notional * fee && p.slippage == p.notional * slippage && p.funding == p.notional * funding
  }

  lemma PlanCostsOf(g: Geometry, k: Costs, r: Risk, notional: real, p: Plan)
    requires ValidRisk(r) && ValidCosts(k) && ValidGeometry(g) && p == PlanOf(g, k, r, notional)
    ensures CostsOf(p, k.fee, k.slippage, k.funding) && p.margin * r.leverage == p.notional
  {
  }

  // What it risks is the distance to the stop on the position and the costs.
  lemma PlanRisk(c: Candidate, atr: real, s: Strategy, r: Risk, fundingRate: Option<real>, p: Plan)
    requires ValidRisk(r) && BuildPlan(c, atr, s, r, fundingRate) == Some(p)
    ensures p.riskUsdt * p.entry
         == p.notional * Max(p.entry - p.stop, p.stop - p.entry) + (p.fee + p.slippage + p.funding) * p.entry
  {
    var g, k := GeometryOf(c, atr, s), GateCosts(c.direction, r, EffectiveRate(r, fundingRate));
    CostsAreValid(c.direction, r, EffectiveRate(r, fundingRate));
    PlanIsOf(g, k, s, r, p);
    PlanRiskOf(g, k, r, p.notional, p);
    assert g.stopDistance == Max(p.entry - p.stop, p.stop - p.entry);
  }

  lemma ShareOfEntry(g: Geometry)
    requires ValidGeometry(g)
    ensures RiskShare(g) * g.entry == g.stopDistance
  {
  }

  lemma PlanIsOf(g: Geometry, k: Costs, s: Strategy, r: Risk, p: Plan)
    requires ValidRisk(r) && ValidCosts(k) && PlanFor(g, k, s, r) == Some(p)
    ensures ValidGeometry(g) && p == PlanOf(g, k, r, p.notional)
  {
  }

  lemma PlanRiskOf(g: Geometry, k: Costs, r: Risk, notional: real, p: Plan)
    requires ValidRisk(r) && ValidCosts(k) && ValidGeometry(g) && p == PlanOf(g, k, r, notional)
    ensures p.riskUsdt * p.entry == p.notional * g.stopDistance + (p.fee + p.slippage + p.funding) * p.entry
  {
    CostsAddUp(notional, RiskShare(g), k, p.riskUsdt);
    ShareOfEntry(g);
    ShareTimesEntry(notional, RiskShare(g), g.entry, g.stopDistance, p.riskUsdt, p.fee + p.slippage + p.funding);
  }

  lemma CostsAddUp(notional: real, risk: real, k: Costs, loss: real)
    requires loss == notional * (risk + Total(k))
    ensures loss == notional * risk + (notional * k.fee + notional * k.slippage + notional * k.funding)
  {
  }

  lemma ShareTimesEntry(notional: real, risk: real, entry: real, distance: real, loss: real, costs: real)
    requires risk * entry == distance && loss == notional * risk + costs
    ensures loss * entry == notional * distance + costs * entry
  {
    assert (notional * risk) * entry == notional * (risk * entry);
  }

  // ---- the required target ----

  lemma ExactNet(rrMin: real, risk: real, cost: real)
    requires risk + cost > 0.0
    ensures NetRr(RequiredShare(rrMin, risk, cost), risk, cost) == rrMin
  {
    DivideBack(rrMin, risk + cost);
  }

  // The geometry with another target.
  function Retarget(g: Geometry, target: real): Geometry {
    g.(target := target, reward := if g.direction.Long? then target - g.entry else g.entry - target)
  }

  // Moving the target moves only the reward.
  lemma MovedTarget(c: Candidate, atr: real, s: Strategy, target: real)
    ensures GeometryOf(c.(target := target), atr, s) == Retarget(GeometryOf(c, atr, s), target)
  {
  }

  lemma MovedShare(g: Geometry, share: real, reward: real)
    requires ValidGeometry(g) && share > 0.0 && reward == g.entry * share
    ensures var moved := Retarget(g, TargetFor(g, reward));
            ValidGeometry(moved) && RewardShare(moved) == share && RiskShare(moved) == RiskShare(g)
  {
    PositiveProduct(g.entry, share);
    DivideBack(share, g.entry);
  }

  lemma RequiredShareIsPositive(rrMin: real, risk: real, cost: real)
    requires rrMin > 0.0 && risk > 0.0 && cost >= 0.0
    ensures RequiredShare(rrMin, risk, cost) > 0.0
  {
    PositiveProduct(rrMin, risk + cost);
  }

  lemma ExactAt(g: Geometry, k: Costs, rrMin: real, share: real, reward: real)
    requires ValidCosts(k) && ValidGeometry(g) && rrMin > 0.0
    requires share == RequiredShare(rrMin, RiskShare(g), Total(k)) && reward == g.entry * share
    ensures NetOf(Retarget(g, TargetFor(g, reward)), k) == Some(rrMin)
  {
    RequiredShareIsPositive(rrMin, RiskShare(g), Total(k));
    MovedShare(g, share, reward);
    ExactNet(rrMin, RiskShare(g), Total(k));
  }

  lemma RequiredIsExactAt(g: Geometry, k: Costs, s: Strategy)
    requires ValidCosts(k) && ValidGeometry(g) && s.rrMin > 0.0
    ensures NetOf(Retarget(g, RequiredTargetOf(g, k, s).value), k) == Some(s.rrMin)
  {
    ExactAt(g, k, s.rrMin, RequiredShare(s.rrMin, RiskShare(g), Total(k)), RequiredReward(g, k, s));
  }

  // Moving the target to the required price makes the net ratio exactly the minimum.
  lemma RequiredTargetIsExact(c: Candidate, atr: real, s: Strategy, r: Risk, d: Diagnosis)
    requires ValidRisk(r) && s.rrMin > 0.0 && d == Decompose(c, atr, s, r) && d.requiredTarget.Some?
    ensures Decompose(c.(target := d.requiredTarget.value), atr, s, r).rrNet == Some(s.rrMin)
  {
    CostsAreValid(c.direction, r, 0.0);
    MovedTarget(c, atr, s, d.requiredTarget.value);
    RequiredIsExactAt(GeometryOf(c, atr, s), StressCosts(r), s);
  }

  // The net ratio reaches the minimum exactly when the reward reaches the required share.
  lemma NetReachesMinimumExactly(reward: real, rrMin: real, risk: real, cost: real)
    requires risk + cost > 0.0
    ensures NetRr(reward, risk, cost) >= rrMin <==> reward >= RequiredShare(rrMin, risk, cost)
  {
    QuotientAgainst(reward - cost, risk + cost, rrMin);
  }

  // ---- the size ----

  lemma SizedWithin(r: Risk, loss: real)
    requires loss > 0.0
    ensures Notional(r, loss) * loss <= r.equity * r.riskPerTrade
  {
    var full, sized := r.equity * r.riskPerTrade / loss, Notional(r, loss);
    assert full * loss == r.equity * r.riskPerTrade;
    NonNegativeProduct(full - sized, loss);
    assert (full - sized) * loss == full * loss - sized * loss;
  }

  // A plan is as large as it may be: it uses up the risk budget or the notional cap.
  lemma PlanIsAsLargeAsAllowed(c: Candidate, atr: real, s: Strategy, r: Risk, fundingRate: Option<real>, p: Plan)
    requires ValidRisk(r) && BuildPlan(c, atr, s, r, fundingRate) == Some(p)
    ensures p.riskUsdt == r.equity * r.riskPerTrade || p.notional == r.maxNotional
  {
    var g, k := GeometryOf(c, atr, s), GateCosts(c.direction, r, EffectiveRate(r, fundingRate));
    CostsAreValid(c.direction, r, EffectiveRate(r, fundingRate));
    PlanIsOf(g, k, s, r, p);
    SizedFully(r, RiskShare(g) + Total(k), p.notional);
  }

  lemma SizedFully(r: Risk, loss: real, notional: real)
    requires loss > 0.0 && notional == Notional(r, loss)
    ensures notional * loss == r.equity * r.riskPerTrade || notional == r.maxNotional
  {
  }

  // A plan never risks more than the configured share of equity, nor more than the notional cap.
  lemma PlanRiskIsBounded(c: Candidate, atr: real, s: Strategy, r: Risk, fundingRate: Option<real>)
    requires ValidRisk(r) && BuildPlan(c, atr, s, r, fundingRate).Some?
    ensures var plan := BuildPlan(c, atr, s, r, fundingRate).value;
            && plan.riskUsdt <= r.equity * r.riskPerTrade
            && r.minNotional <= plan.notional <= r.maxNotional
            && plan.rrNet >= s.rrMin
  {
    CostsAreValid(c.direction, r, EffectiveRate(r, fundingRate));
    SizedWithin(r, RiskShare(GeometryOf(c, atr, s)) + Total(GateCosts(c.direction, r, EffectiveRate(r, fundingRate))));
  }
}
