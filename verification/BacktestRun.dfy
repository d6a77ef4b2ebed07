/**
 The event-driven backtest: one pass over the bars with pending signals, at most
 one open trade and a cooldown per fingerprint.  Scanning, invalidation and the
 15-minute grid are functions of the market that the run only calls.
 */
module BacktestRun {
  import opened Options
  import opened Domain
  import opened TradeResolution

  datatype Reason = TtlExpired | OtherReason

  datatype Config = Config(trendHoldingMs: int, breakoutHoldingMs: int, cooldownMs: int)

  type Live = s: Signal | Tradable(s) witness Signal(0, 0, Long, true, 0, 0, 0, 1.0, 1.0, 1.0, 1.0, 1.0, 1.0, 0.0, 0.0)

  type LiveTrade = t: OpenTrade | Tradable(t.signal)
    witness OpenTrade(Signal(0, 0, Long, true, 0, 0, 0, 1.0, 1.0, 1.0, 1.0, 1.0, 1.0, 0.0, 0.0), 0, 0, 0.0, None)

  // The bars and funding events, and what the engine's callees answer at each bar.
  datatype Market = Market(
    bars: seq<Candle>, events: seq<FundingEvent>,
    closesQuarter: nat -> bool, scan: nat -> Option<Live>, invalid: (Live, nat) -> Option<Reason>)

  datatype RunState = RunState(
    outcomes: seq<Outcome>, pending: seq<Live>, cooldown: map<nat, int>, open: Option<LiveTrade>, admitted: seq<Live>)

  const START := RunState([], [], map[], None, [])

  function Holding(cfg: Config, s: Signal): int {
    if s.trendPullback then cfg.trendHoldingMs else cfg.breakoutHoldingMs
  }

  // ---- one bar ----

  datatype Filled = Filled(kept: seq<Live>, outcomes: seq<Outcome>, entered: Option<LiveTrade>)

  // Expired signals leave, the first one the bar touches is filled, the rest wait.
  function Fill(cfg: Config, pending: seq<Live>, bar: Candle, events: seq<FundingEvent>): Filled {
    if pending == [] then Filled([], [], None)
    else
      var s := pending[0];
      if bar.openTime > s.expiresAt then
        var rest := Fill(cfg, pending[1..], bar, events);
        rest.(outcomes := [Bare(s.id, Unfilled, None, None, None)] + rest.outcomes)
      else if bar.openTime <= s.dataTime || !Touches(s, bar) then
        var rest := Fill(cfg, pending[1..], bar, events);
        rest.(kept := [s] + rest.kept)
      else
        var (after, outcome) := Update(Fresh(s, bar, Holding(cfg, s)), bar, events);
        if outcome.Some? then Filled(pending[1..], [outcome.value], None) else Filled(pending[1..], [], Some(after))
  }

  // What an update of the open trade does to the run.
  function AfterUpdate(st: RunState, trade: LiveTrade, outcome: Option<Outcome>): RunState {
    if outcome.Some? then st.(outcomes := st.outcomes + [outcome.value], open := None) else st.(open := Some(trade))
  }

  function AfterFill(st: RunState, f: Filled): RunState {
    st.(outcomes := st.outcomes + f.outcomes, pending := f.kept, open := f.entered)
  }

  // An open trade sees the bar; otherwise the bar may fill one pending signal.
  function TradePhase(m: Market, cfg: Config, st: RunState, i: nat): RunState
    requires i < |m.bars|
  {
    if st.open.Some? then
      var (trade, outcome) := Update(st.open.value, m.bars[i], SortEvents(m.events));
      AfterUpdate(st, trade, outcome)
    else AfterFill(st, Fill(cfg, st.pending, m.bars[i], SortEvents(m.events)))
  }

  datatype Swept = Swept(kept: seq<Live>, outcomes: seq<Outcome>)

  function Invalidate(m: Market, pending: seq<Live>, i: nat, now: int): Swept {
    if pending == [] then Swept([], [])
    else InvalidateOne(m, Invalidate(m, pending[..|pending| - 1], i, now), pending[|pending| - 1], i, now)
  }

  function InvalidateOne(m: Market, w: Swept, s: Live, i: nat, now: int): Swept {
    match m.invalid(s, i)
    case None => w.(kept := w.kept + [s])
    case Some(reason) =>
      var kind := if reason == TtlExpired then Unfilled else Invalidated;
      w.(outcomes := w.outcomes + [Bare(s.id, kind, None, None, Some(now))])
  }

  function Ids(signals: seq<Live>): seq<nat> {
    seq(|signals|, k requires 0 <= k < |signals| => signals[k].id)
  }

  // Dictionary insertion: an existing key keeps its place.
  function Put(pending: seq<Live>, s: Live): seq<Live> {
    if pending == [] then [s]
    else if pending[0].id == s.id then [s] + pending[1..]
    else [pending[0]] + Put(pending[1..], s)
  }

  predicate CoolingDown(cfg: Config, cooldown: map<nat, int>, s: Signal) {
    s.fingerprint in cooldown && cooldown[s.fingerprint] >= s.createdAt - cfg.cooldownMs
  }

  function Admit(cfg: Config, st: RunState, s: Live): RunState {
    if CoolingDown(cfg, st.cooldown, s) then st
    else st.(cooldown := st.cooldown[s.fingerprint := s.createdAt], pending := Put(st.pending, s),
             admitted := st.admitted + [s])
  }

  function SweepPending(m: Market, st: RunState, i: nat): RunState
    requires i < |m.bars|
  {
    var swept := Invalidate(m, st.pending, i, m.bars[i].closeTime + 1);
    st.(pending := swept.kept, outcomes := st.outcomes + swept.outcomes)
  }

  function QuarterPhase(m: Market, cfg: Config, st: RunState, i: nat): RunState
    requires i < |m.bars|
  {
    if !m.closesQuarter(i) then st
    else if st.open.Some? || m.scan(i).None? then SweepPending(m, st, i)
    else Admit(cfg, SweepPending(m, st, i), m.scan(i).value)
  }

  function OneBar(m: Market, cfg: Config, st: RunState, i: nat): RunState
    requires i < |m.bars|
  {
    QuarterPhase(m, cfg, TradePhase(m, cfg, st, i), i)
  }

  function RunTo(m: Market, cfg: Config, n: nat): RunState
    requires n <= |m.bars|
  {
    if n == 0 then START
    else OneBar(m, cfg, RunTo(m, cfg, n - 1), n - 1)
  }

  function StillPending(pending: seq<Live>): seq<Outcome> {
    seq(|pending|, k requires 0 <= k < |pending| => Bare(pending[k].id, Pending, None, None, None))
  }

  function Finish(st: RunState): seq<Outcome> {
    st.outcomes
    + (if st.open.Some?
       then [Bare(st.open.value.signal.id, OpenAtEnd, Some(EntryPrice(st.open.value.signal)),
                  Some(st.open.value.enteredAt), None)]
       else [])
    + StillPending(st.pending)
  }

  // ---- every admitted signal has exactly one place ----

  function OutcomeIds(outcomes: seq<Outcome>): seq<nat> {
    seq(|outcomes|, k requires 0 <= k < |outcomes| => outcomes[k].id)
  }

  function OpenIds(open: Option<LiveTrade>): seq<nat> {
    if open.Some? then [open.value.signal.id] else []
  }

  // Signals are neither lost nor duplicated: each admitted one is resolved, open or pending.
  ghost predicate Conserved(st: RunState) {
    multiset(OutcomeIds(st.outcomes)) + multiset(OpenIds(st.open)) + multiset(Ids(st.pending))
      == multiset(Ids(st.admitted))
  }

  lemma OutcomeIdsConcat(a: seq<Outcome>, b: seq<Outcome>)
    ensures multiset(OutcomeIds(a + b)) == multiset(OutcomeIds(a)) + multiset(OutcomeIds(b))
  {
    assert OutcomeIds(a + b) == OutcomeIds(a) + OutcomeIds(b);
  }

  lemma IdsConcat(a: seq<Live>, b: seq<Live>)
    ensures multiset(Ids(a + b)) == multiset(Ids(a)) + multiset(Ids(b))
  {
    assert Ids(a + b) == Ids(a) + Ids(b);
  }

  lemma IdsHead(pending: seq<Live>)
    requires pending != []
    ensures multiset(Ids(pending)) == multiset{pending[0].id} + multiset(Ids(pending[1..]))
  {
    assert pending == [pending[0]] + pending[1..];
    IdsConcat([pending[0]], pending[1..]);
    assert Ids([pending[0]]) == [pending[0].id];
  }

  lemma OutcomeIdsOne(o: Outcome)
    ensures multiset(OutcomeIds([o])) == multiset{o.id}
  {
    assert OutcomeIds([o]) == [o.id];
  }

  lemma {:induction false} FillConserves(cfg: Config, pending: seq<Live>, bar: Candle, events: seq<FundingEvent>)
    ensures var f := Fill(cfg, pending, bar, events);
            multiset(OutcomeIds(f.outcomes)) + multiset(OpenIds(f.entered)) + multiset(Ids(f.kept))
              == multiset(Ids(pending))
  {
    if pending != [] {
      var s := pending[0];
      var rest := Fill(cfg, pending[1..], bar, events);
      IdsHead(pending);
      if bar.openTime > s.expiresAt {
        FillConserves(cfg, pending[1..], bar, events);
        OutcomeIdsCons(Bare(s.id, Unfilled, None, None, None), rest.outcomes);
      } else if bar.openTime <= s.dataTime || !Touches(s, bar) {
        FillConserves(cfg, pending[1..], bar, events);
        IdsHead([s] + rest.kept);
        assert ([s] + rest.kept)[1..] == rest.kept;
      } else {
        UpdateKeepsId(Fresh(s, bar, Holding(cfg, s)), bar, events);
        FilledHead(s, pending[1..], Update(Fresh(s, bar, Holding(cfg, s)), bar, events));
      }
    }
  }

  lemma UpdateKeepsId(t: LiveTrade, bar: Candle, events: seq<FundingEvent>)
    ensures Update(t, bar, events).0.signal == t.signal
    ensures Update(t, bar, events).1.Some? ==> Update(t, bar, events).1.value.id == t.signal.id
  {
  }

  lemma FilledHead(s: Live, rest: seq<Live>, r: (OpenTrade, Option<Outcome>))
    requires r.0.signal == s && (r.1.Some? ==> r.1.value.id == s.id)
    ensures r.1.Some? ==> multiset(OutcomeIds([r.1.value])) + multiset(OpenIds(None)) == multiset{s.id}
    ensures r.1.None? ==> multiset(OutcomeIds([])) + multiset(OpenIds(Some(r.0))) == multiset{s.id}
  {
    if r.1.Some? { OutcomeIdsOne(r.1.value); }
  }

  lemma OutcomeIdsCons(o: Outcome, rest: seq<Outcome>)
    ensures multiset(OutcomeIds([o] + rest)) == multiset{o.id} + multiset(OutcomeIds(rest))
  {
    OutcomeIdsOne(o);
    OutcomeIdsConcat([o], rest);
  }

  lemma {:induction false} InvalidateConserves(m: Market, pending: seq<Live>, i: nat, now: int)
    ensures var w := Invalidate(m, pending, i, now);
            multiset(OutcomeIds(w.outcomes)) + multiset(Ids(w.kept)) == multiset(Ids(pending))
  {
    if pending != [] {
      var init, s := pending[..|pending| - 1], pending[|pending| - 1];
      InvalidateConserves(m, init, i, now);
      InvalidateOneConserves(m, Invalidate(m, init, i, now), s, i, now);
      assert pending == init + [s];
      IdsConcat(init, [s]);
    }
  }

  lemma InvalidateOneConserves(m: Market, w: Swept, s: Live, i: nat, now: int)
    ensures var after := InvalidateOne(m, w, s, i, now);
            multiset(OutcomeIds(after.outcomes)) + multiset(Ids(after.kept))
              == multiset(OutcomeIds(w.outcomes)) + multiset(Ids(w.kept)) + multiset(Ids([s]))
  {
    assert Ids([s]) == [s.id];
    IdsConcat(w.kept, [s]);
    if m.invalid(s, i).Some? {
      var kind := if m.invalid(s, i).value == TtlExpired then Unfilled else Invalidated;
      var bare := Bare(s.id, kind, None, None, Some(now));
      OutcomeIdsOne(bare);
      OutcomeIdsConcat(w.outcomes, [bare]);
    }
  }

  lemma {:induction false} PutNew(pending: seq<Live>, s: Live)
    requires s.id !in Ids(pending)
    ensures Put(pending, s) == pending + [s]
  {
    if pending != [] {
      assert Ids(pending)[0] == pending[0].id;
      forall k | 0 <= k < |pending| - 1 ensures Ids(pending[1..])[k] in Ids(pending) {
        assert Ids(pending)[k + 1] == pending[1..][k].id;
      }
      PutNew(pending[1..], s);
    }
  }

  lemma AfterUpdateConserves(st: RunState, trade: LiveTrade, outcome: Option<Outcome>)
    requires Conserved(st) && st.open.Some? && trade.signal == st.open.value.signal
    requires outcome.Some? ==> outcome.value.id == trade.signal.id
    ensures Conserved(AfterUpdate(st, trade, outcome))
  {
    if outcome.Some? {
      OutcomeIdsConcat(st.outcomes, [outcome.value]);
      OutcomeIdsOne(outcome.value);
    }
  }

  lemma AfterFillConserves(st: RunState, f: Filled)
    requires Conserved(st) && st.open.None?
    requires multiset(OutcomeIds(f.outcomes)) + multiset(OpenIds(f.entered)) + multiset(Ids(f.kept))
          == multiset(Ids(st.pending))
    ensures Conserved(AfterFill(st, f))
  {
    OutcomeIdsConcat(st.outcomes, f.outcomes);
  }

  lemma TradePhaseConserves(m: Market, cfg: Config, st: RunState, i: nat)
    requires i < |m.bars| && Conserved(st)
    ensures Conserved(TradePhase(m, cfg, st, i))
  {
    var events := SortEvents(m.events);
    if st.open.Some? {
      var (trade, outcome) := Update(st.open.value, m.bars[i], events);
      UpdateKeepsId(st.open.value, m.bars[i], events);
      AfterUpdateConserves(st, trade, outcome);
    } else {
      FillConserves(cfg, st.pending, m.bars[i], events);
      AfterFillConserves(st, Fill(cfg, st.pending, m.bars[i], events));
    }
  }

  lemma SweepConserves(m: Market, st: RunState, i: nat)
    requires i < |m.bars| && Conserved(st)
    ensures Conserved(SweepPending(m, st, i))
  {
    var now := m.bars[i].closeTime + 1;
    InvalidateConserves(m, st.pending, i, now);
    OutcomeIdsConcat(st.outcomes, Invalidate(m, st.pending, i, now).outcomes);
  }

  lemma AdmitConserves(cfg: Config, st: RunState, s: Live)
    requires Conserved(st) && s.id !in Ids(st.admitted)
    ensures Conserved(Admit(cfg, st, s))
  {
    assert s.id !in multiset(Ids(st.admitted));
    assert s.id !in multiset(Ids(st.pending));
    PutNew(st.pending, s);
    IdsConcat(st.pending, [s]);
    IdsConcat(st.admitted, [s]);
  }

  // ---- admitted signals are the scanned ones, once each ----

  // Scanned signals carry distinct ids.
  ghost predicate DistinctScans(m: Market) {
    forall i, j | 0 <= i < j < |m.bars| && m.scan(i).Some? && m.scan(j).Some? ::
      m.scan(i).value.id != m.scan(j).value.id
  }

  ghost predicate ScannedBefore(m: Market, s: Live, n: nat) {
    exists k: nat | k < n :: m.scan(k) == Some(s)
  }

  ghost predicate AdmittedOk(m: Market, st: RunState, n: nat) {
    && (forall a | 0 <= a < |st.admitted| :: ScannedBefore(m, st.admitted[a], n))
    && (forall a, b | 0 <= a < b < |st.admitted| :: st.admitted[a].id != st.admitted[b].id)
  }

  lemma NewScanIsNew(m: Market, st: RunState, i: nat)
    requires i < |m.bars| && DistinctScans(m) && AdmittedOk(m, st, i) && m.scan(i).Some?
    ensures m.scan(i).value.id !in Ids(st.admitted)
  {
    forall a | 0 <= a < |st.admitted| ensures st.admitted[a].id != m.scan(i).value.id {
      assert ScannedBefore(m, st.admitted[a], i);
      var k: nat :| k < i && m.scan(k) == Some(st.admitted[a]);
    }
  }

  lemma {:induction false} RunConserves(m: Market, cfg: Config, n: nat)
    requires n <= |m.bars| && DistinctScans(m)
    ensures Conserved(RunTo(m, cfg, n)) && AdmittedOk(m, RunTo(m, cfg, n), n)
  {
    if n > 0 {
      var i, st := n - 1, RunTo(m, cfg, n - 1);
      RunConserves(m, cfg, i);
      TradePhaseConserves(m, cfg, st, i);
      assert TradePhase(m, cfg, st, i).admitted == st.admitted;
      QuarterPhaseConserves(m, cfg, TradePhase(m, cfg, st, i), i);
    }
  }

  lemma QuarterPhaseConserves(m: Market, cfg: Config, st: RunState, i: nat)
    requires i < |m.bars| && DistinctScans(m) && Conserved(st) && AdmittedOk(m, st, i)
    ensures Conserved(QuarterPhase(m, cfg, st, i)) && AdmittedOk(m, QuarterPhase(m, cfg, st, i), i + 1)
  {
    StillAdmitted(m, st, i);
    SweepConserves(m, st, i);
    SweepAdmits(m, st, i);
    if m.scan(i).Some? { AdmitBoth(m, cfg, SweepPending(m, st, i), i); }
  }

  lemma SweepAdmits(m: Market, st: RunState, i: nat)
    requires i < |m.bars| && AdmittedOk(m, st, i)
    ensures AdmittedOk(m, SweepPending(m, st, i), i) && AdmittedOk(m, SweepPending(m, st, i), i + 1)
  {
    StillAdmitted(m, SweepPending(m, st, i), i);
  }

  lemma AdmitBoth(m: Market, cfg: Config, st: RunState, i: nat)
    requires i < |m.bars| && DistinctScans(m) && Conserved(st) && AdmittedOk(m, st, i) && m.scan(i).Some?
    ensures Conserved(Admit(cfg, st, m.scan(i).value)) && AdmittedOk(m, Admit(cfg, st, m.scan(i).value), i + 1)
  {
    NewScanIsNew(m, st, i);
    AdmitConserves(cfg, st, m.scan(i).value);
    AdmitIsScanned(m, cfg, st, i);
  }

  lemma StillAdmitted(m: Market, st: RunState, i: nat)
    requires AdmittedOk(m, st, i)
    ensures AdmittedOk(m, st, i + 1)
  {
    forall a | 0 <= a < |st.admitted| ensures ScannedBefore(m, st.admitted[a], i + 1) {
      assert ScannedBefore(m, st.admitted[a], i);
      var k: nat :| k < i && m.scan(k) == Some(st.admitted[a]);
    }
  }

  lemma AdmitIsScanned(m: Market, cfg: Config, st: RunState, i: nat)
    requires AdmittedOk(m, st, i) && m.scan(i).Some? && m.scan(i).value.id !in Ids(st.admitted)
    ensures AdmittedOk(m, Admit(cfg, st, m.scan(i).value), i + 1)
  {
    StillAdmitted(m, st, i);
    assert forall a | 0 <= a < |st.admitted| :: Ids(st.admitted)[a] == st.admitted[a].id;
    assert ScannedBefore(m, m.scan(i).value, i + 1);
  }

  lemma FinishIds(st: RunState)
    ensures multiset(OutcomeIds(Finish(st)))
         == multiset(OutcomeIds(st.outcomes)) + multiset(OpenIds(st.open)) + multiset(Ids(st.pending))
  {
    var open := if st.open.Some?
                then [Bare(st.open.value.signal.id, OpenAtEnd, Some(EntryPrice(st.open.value.signal)),
                           Some(st.open.value.enteredAt), None)]
                else [];
    OutcomeIdsConcat(st.outcomes + open, StillPending(st.pending));
    OutcomeIdsConcat(st.outcomes, open);
    assert OutcomeIds(open) == OpenIds(st.open);
    assert OutcomeIds(StillPending(st.pending)) == Ids(st.pending);
  }

  // Every admitted signal gets exactly one outcome, and nothing else does.
  lemma EachAdmittedSignalOnce(m: Market, cfg: Config)
    requires DistinctScans(m)
    ensures var st := RunTo(m, cfg, |m.bars|);
            && multiset(OutcomeIds(Finish(st))) == multiset(Ids(st.admitted))
            && (forall a, b | 0 <= a < b < |st.admitted| :: st.admitted[a].id != st.admitted[b].id)
  {
    RunConserves(m, cfg, |m.bars|);
    FinishIds(RunTo(m, cfg, |m.bars|));
  }

  // ---- cooldown ----

  // The map holds each fingerprint's latest admission, and admissions of one fingerprint are far apart.
  ghost predicate Spaced(cfg: Config, st: RunState) {
    && (forall a | 0 <= a < |st.admitted| ::
          && st.admitted[a].fingerprint in st.cooldown
          && st.admitted[a].createdAt <= st.cooldown[st.admitted[a].fingerprint])
    && (forall a, b | 0 <= a < b < |st.admitted| && st.admitted[a].fingerprint == st.admitted[b].fingerprint ::
          st.admitted[b].createdAt - st.admitted[a].createdAt > cfg.cooldownMs)
  }

  // Two admitted signals with one fingerprint are more than the cooldown apart.
  lemma {:induction false} AdmissionsRespectCooldown(m: Market, cfg: Config, n: nat)
    requires n <= |m.bars| && cfg.cooldownMs >= 0
    ensures Spaced(cfg, RunTo(m, cfg, n))
  {
    if n == 0 {
      StartSpaced(cfg, RunTo(m, cfg, n));
    } else {
      AdmissionsRespectCooldown(m, cfg, n - 1);
      BarSpaced(m, cfg, RunTo(m, cfg, n - 1), n - 1, RunTo(m, cfg, n));
    }
  }

  lemma StartSpaced(cfg: Config, st: RunState)
    requires st == START
    ensures Spaced(cfg, st)
  {
  }

  lemma BarSpaced(m: Market, cfg: Config, st: RunState, i: nat, after: RunState)
    requires i < |m.bars| && cfg.cooldownMs >= 0 && Spaced(cfg, st) && after == OneBar(m, cfg, st, i)
    ensures Spaced(cfg, after)
  {
    assert Spaced(cfg, TradePhase(m, cfg, st, i));
    QuarterPhaseSpaced(m, cfg, TradePhase(m, cfg, st, i), i);
  }

  lemma QuarterPhaseSpaced(m: Market, cfg: Config, st: RunState, i: nat)
    requires i < |m.bars| && cfg.cooldownMs >= 0 && Spaced(cfg, st)
    ensures Spaced(cfg, QuarterPhase(m, cfg, st, i))
  {
    var swept := SweepPending(m, st, i);
    assert Spaced(cfg, swept);
    if m.scan(i).Some? { AdmitSpaced(cfg, swept, m.scan(i).value); }
  }

  lemma AdmitSpaced(cfg: Config, st: RunState, s: Live)
    requires cfg.cooldownMs >= 0 && Spaced(cfg, st)
    ensures Spaced(cfg, Admit(cfg, st, s))
  {
  }

  // ---- filled results are the batch resolver's ----

  predicate IsFilled(o: Outcome) {
    o.kind == Win || o.kind == Loss || o.kind == Timeout
  }

  // What the run demands of its bars: each closes after it opens and opens ascend.  Nothing is
  // demanded of one close against another.
  ghost predicate Validated(bars: seq<Candle>) {
    && (forall i | 0 <= i < |bars| :: bars[i].openTime < bars[i].closeTime)
    && (forall i, j | 0 <= i < j < |bars| :: bars[i].openTime < bars[j].openTime)
  }

  // The trade is what following the signal from its fill bar gives, with no outcome yet.
  ghost predicate FollowedFrom(m: Market, cfg: Config, t: LiveTrade, k: nat, n: nat) {
    && k < n <= |m.bars| && Fills(t.signal, m.bars[k])
    && Follow(Fresh(t.signal, m.bars[k], Holding(cfg, t.signal)), m.bars[k..n], SortEvents(m.events)) == (t, None)
  }

  // The closes over which a signal filled at bar k is held.
  ghost function ClosesFrom(m: Market, cfg: Config, s: Live, k: nat): seq<int>
    requires k < |m.bars|
  {
    HeldCloses(s, m.bars[k].openTime + Holding(cfg, s), m.bars[k..])
  }

  // The outcome is resolve_signal's on the bars from fill bar k on, with funding settled bar by
  // bar; if the held closes never go back it is the resolver's outcome as it stands.
  ghost predicate ResolvedFrom(m: Market, cfg: Config, o: Outcome, s: Live, k: nat) {
    && k < |m.bars| && Fills(s, m.bars[k])
    && var resolved := Resolve(s, m.bars[k..], Holding(cfg, s), None, m.events);
    && o == Refunded(s, resolved, Piecewise(s, m.events, m.bars[k].openTime, ClosesFrom(m, cfg, s, k)))
    && (Ascending(m.bars[k].openTime, ClosesFrom(m, cfg, s, k)) ==> o == resolved)
  }

  // A filled outcome is the resolver's for the admitted signal that carries its id.
  ghost predicate AgreesWithResolver(m: Market, cfg: Config, admitted: seq<Live>, o: Outcome) {
    IsFilled(o) ==>
      exists a, k: nat | 0 <= a < |admitted| :: admitted[a].id == o.id && ResolvedFrom(m, cfg, o, admitted[a], k)
  }

  ghost predicate AllAgree(m: Market, cfg: Config, admitted: seq<Live>, outcomes: seq<Outcome>) {
    forall i | 0 <= i < |outcomes| :: AgreesWithResolver(m, cfg, admitted, outcomes[i])
  }

  lemma {:induction false} FollowSnoc(t: OpenTrade, bars: seq<Candle>, bar: Candle, events: seq<FundingEvent>)
    requires Tradable(t.signal)
    ensures Follow(t, bars + [bar], events)
         == if Follow(t, bars, events).1.Some? then Follow(t, bars, events)
            else Update(Follow(t, bars, events).0, bar, events)
    decreases |bars|
  {
    var all := bars + [bar];
    if bars == [] {
      assert all == [bar] && all[1..] == [];
    } else {
      assert all[1..] == bars[1..] + [bar] && all[0] == bars[0];
      var (after, outcome) := Update(t, bars[0], events);
      if outcome.None? { FollowSnoc(after, bars[1..], bar, events); }
    }
  }

  lemma {:induction false} FollowPrefix(t: OpenTrade, bars: seq<Candle>, n: nat, events: seq<FundingEvent>)
    requires Tradable(t.signal) && n <= |bars| && Follow(t, bars[..n], events).1.Some?
    ensures Follow(t, bars, events).1 == Follow(t, bars[..n], events).1
    decreases |bars| - n
  {
    if n == |bars| {
      assert bars[..n] == bars;
    } else {
      FollowSnoc(t, bars[..n], bars[n], events);
      assert bars[..n + 1] == bars[..n] + [bars[n]];
      FollowPrefix(t, bars, n + 1, events);
    }
  }

  lemma ValidatedIsAfterData(m: Market, s: Live, k: nat)
    requires Validated(m.bars) && k < |m.bars| && Fills(s, m.bars[k])
    ensures AfterData(s, m.bars[k..])
  {
    forall i | 0 <= i < |m.bars[k..]| ensures m.bars[k..][i].openTime > s.dataTime {
      assert m.bars[k..][i] == m.bars[k + i];
    }
  }

  // An outcome reached while following from bar k is the resolver's on all bars from k.
  lemma FollowedOutcome(m: Market, cfg: Config, s: Live, k: nat, n: nat, o: Outcome)
    requires Validated(m.bars) && k < n <= |m.bars| && Fills(s, m.bars[k])
    requires Follow(Fresh(s, m.bars[k], Holding(cfg, s)), m.bars[k..n], SortEvents(m.events)).1 == Some(o)
    ensures ResolvedFrom(m, cfg, o, s, k)
  {
    var t := Fresh(s, m.bars[k], Holding(cfg, s));
    assert m.bars[k..][..n - k] == m.bars[k..n];
    FollowPrefix(t, m.bars[k..], n - k, SortEvents(m.events));
    ReportedIsResolved(m, cfg, s, k, o);
  }

  lemma ReportedIsResolved(m: Market, cfg: Config, s: Live, k: nat, o: Outcome)
    requires Validated(m.bars) && k < |m.bars| && Fills(s, m.bars[k])
    requires o == Reported(Fresh(s, m.bars[k], Holding(cfg, s)), m.bars[k..], SortEvents(m.events))
    ensures ResolvedFrom(m, cfg, o, s, k)
  {
    ValidatedIsAfterData(m, s, k);
    assert m.bars[k..][0] == m.bars[k];
    EngineAgreesWithResolver(s, m.bars[k..], Holding(cfg, s), m.events);
    var entered, closes := m.bars[k].openTime, ClosesFrom(m, cfg, s, k);
    if Ascending(entered, closes) { AscendingSettlesAlike(s, m.events, entered, closes); }
  }

  lemma UpdateFollowed(m: Market, cfg: Config, t: LiveTrade, k: nat, i: nat)
    requires Validated(m.bars) && FollowedFrom(m, cfg, t, k, i) && i < |m.bars|
    ensures var (after, outcome) := Update(t, m.bars[i], SortEvents(m.events));
            && (outcome.Some? ==> ResolvedFrom(m, cfg, outcome.value, t.signal, k))
            && (outcome.None? ==> FollowedFrom(m, cfg, after, k, i + 1))
  {
    var start := Fresh(t.signal, m.bars[k], Holding(cfg, t.signal));
    FollowSnoc(start, m.bars[k..i], m.bars[i], SortEvents(m.events));
    assert m.bars[k..i + 1] == m.bars[k..i] + [m.bars[i]];
    var (after, outcome) := Update(t, m.bars[i], SortEvents(m.events));
    if outcome.Some? { FollowedOutcome(m, cfg, t.signal, k, i + 1, outcome.value); }
  }

  lemma FreshFollowed(m: Market, cfg: Config, s: Live, i: nat)
    requires Validated(m.bars) && i < |m.bars| && Fills(s, m.bars[i])
    ensures var (after, outcome) := Update(Fresh(s, m.bars[i], Holding(cfg, s)), m.bars[i], SortEvents(m.events));
            && (outcome.Some? ==> ResolvedFrom(m, cfg, outcome.value, s, i))
            && (outcome.None? ==> FollowedFrom(m, cfg, after, i, i + 1))
  {
    var start := Fresh(s, m.bars[i], Holding(cfg, s));
    var one := m.bars[i..i + 1];
    assert one == [] + [m.bars[i]];
    FollowSnoc(start, [], m.bars[i], SortEvents(m.events));
    var (after, outcome) := Update(start, m.bars[i], SortEvents(m.events));
    if outcome.Some? { FollowedOutcome(m, cfg, s, i, i + 1, outcome.value); }
  }

  // The open trade follows an admitted signal from its fill bar.
  ghost predicate OpenOk(m: Market, cfg: Config, admitted: seq<Live>, open: Option<LiveTrade>, n: nat) {
    open.Some? ==> open.value.signal in admitted && exists k: nat :: FollowedFrom(m, cfg, open.value, k, n)
  }

  // Whatever waits, is held or was filled comes from an admitted signal.
  ghost predicate RunAgrees(m: Market, cfg: Config, st: RunState, n: nat) {
    && (forall s | s in st.pending :: s in st.admitted)
    && OpenOk(m, cfg, st.admitted, st.open, n)
    && AllAgree(m, cfg, st.admitted, st.outcomes)
  }

  lemma ResolvedAgrees(m: Market, cfg: Config, admitted: seq<Live>, o: Outcome, s: Live, k: nat)
    requires s in admitted && o.id == s.id && ResolvedFrom(m, cfg, o, s, k)
    ensures AgreesWithResolver(m, cfg, admitted, o)
  {
    var a :| 0 <= a < |admitted| && admitted[a] == s;
    assert admitted[a].id == o.id && ResolvedFrom(m, cfg, o, admitted[a], k);
  }

  lemma {:induction false} FillAgrees(m: Market, cfg: Config, admitted: seq<Live>, pending: seq<Live>, i: nat)
    requires Validated(m.bars) && i < |m.bars| && forall s | s in pending :: s in admitted
    ensures var f := Fill(cfg, pending, m.bars[i], SortEvents(m.events));
            && (forall s | s in f.kept :: s in pending)
            && OpenOk(m, cfg, admitted, f.entered, i + 1) && AllAgree(m, cfg, admitted, f.outcomes)
  {
    if pending != [] {
      var s := pending[0];
      FillAgrees(m, cfg, admitted, pending[1..], i);
      if Fills(s, m.bars[i]) {
        FreshFollowed(m, cfg, s, i);
        var (after, outcome) := Update(Fresh(s, m.bars[i], Holding(cfg, s)), m.bars[i], SortEvents(m.events));
        if outcome.Some? { ResolvedAgrees(m, cfg, admitted, outcome.value, s, i); }
      }
    }
  }

  lemma {:induction false} InvalidateAgrees(m: Market, cfg: Config, admitted: seq<Live>, pending: seq<Live>, i: nat,
                                            now: int)
    ensures var w := Invalidate(m, pending, i, now);
            (forall s | s in w.kept :: s in pending) && AllAgree(m, cfg, admitted, w.outcomes)
  {
    if pending != [] { InvalidateAgrees(m, cfg, admitted, pending[..|pending| - 1], i, now); }
  }

  lemma TradePhaseAgrees(m: Market, cfg: Config, st: RunState, i: nat)
    requires Validated(m.bars) && i < |m.bars| && RunAgrees(m, cfg, st, i)
    ensures RunAgrees(m, cfg, TradePhase(m, cfg, st, i), i + 1)
  {
    if st.open.Some? {
      var k: nat :| FollowedFrom(m, cfg, st.open.value, k, i);
      UpdateFollowed(m, cfg, st.open.value, k, i);
      var (trade, outcome) := Update(st.open.value, m.bars[i], SortEvents(m.events));
      if outcome.Some? { ResolvedAgrees(m, cfg, st.admitted, outcome.value, st.open.value.signal, k); }
    } else {
      FillAgrees(m, cfg, st.admitted, st.pending, i);
    }
  }

  lemma SweepAgrees(m: Market, cfg: Config, st: RunState, i: nat, n: nat)
    requires i < |m.bars| && RunAgrees(m, cfg, st, n)
    ensures RunAgrees(m, cfg, SweepPending(m, st, i), n)
  {
    InvalidateAgrees(m, cfg, st.admitted, st.pending, i, m.bars[i].closeTime + 1);
  }

  lemma {:induction false} PutAdds(pending: seq<Live>, s: Live, x: Live)
    requires x in Put(pending, s)
    ensures x == s || x in pending
  {
    if pending != [] && pending[0].id != s.id && x != pending[0] { PutAdds(pending[1..], s, x); }
  }

  // More admitted signals agree with at least as much.
  lemma AgreesWithMore(m: Market, cfg: Config, admitted: seq<Live>, s: Live, o: Outcome)
    requires AgreesWithResolver(m, cfg, admitted, o)
    ensures AgreesWithResolver(m, cfg, admitted + [s], o)
  {
    if IsFilled(o) {
      var a, k: nat :| 0 <= a < |admitted| && admitted[a].id == o.id && ResolvedFrom(m, cfg, o, admitted[a], k);
      assert (admitted + [s])[a] == admitted[a];
    }
  }

  lemma AdmitAgrees(m: Market, cfg: Config, st: RunState, s: Live, n: nat)
    requires RunAgrees(m, cfg, st, n)
    ensures RunAgrees(m, cfg, Admit(cfg, st, s), n)
  {
    var after := Admit(cfg, st, s);
    if !CoolingDown(cfg, st.cooldown, s) {
      forall x | x in after.pending ensures x in after.admitted { PutAdds(st.pending, s, x); }
      forall i | 0 <= i < |st.outcomes| ensures AgreesWithResolver(m, cfg, after.admitted, st.outcomes[i]) {
        AgreesWithMore(m, cfg, st.admitted, s, st.outcomes[i]);
      }
    }
  }

  lemma BarAgrees(m: Market, cfg: Config, st: RunState, n: nat, after: RunState)
    requires Validated(m.bars) && 0 < n <= |m.bars| && RunAgrees(m, cfg, st, n - 1)
    requires after == OneBar(m, cfg, st, n - 1)
    ensures RunAgrees(m, cfg, after, n)
  {
    TradePhaseAgrees(m, cfg, st, n - 1);
    var mid := TradePhase(m, cfg, st, n - 1);
    SweepAgrees(m, cfg, mid, n - 1, n);
    if m.scan(n - 1).Some? { AdmitAgrees(m, cfg, SweepPending(m, mid, n - 1), m.scan(n - 1).value, n); }
  }

  lemma StartAgrees(m: Market, cfg: Config)
    ensures RunAgrees(m, cfg, START, 0)
  {
  }

  lemma {:induction false} EveryRunAgrees(m: Market, cfg: Config, n: nat)
    requires Validated(m.bars) && n <= |m.bars|
    ensures RunAgrees(m, cfg, RunTo(m, cfg, n), n)
  {
    if n == 0 {
      StartAgrees(m, cfg);
    } else {
      var st := RunTo(m, cfg, n - 1);
      EveryRunAgrees(m, cfg, n - 1);
      BarAgrees(m, cfg, st, n, RunTo(m, cfg, n));
    }
  }

  // Every WIN, LOSS or TIMEOUT the run returns is what resolve_signal reports, on the bars from
  // the one that filled it, for the admitted signal that carries its id.
  lemma FilledResultsAgreeWithResolver(m: Market, cfg: Config)
    requires Validated(m.bars)
    ensures var st := RunTo(m, cfg, |m.bars|); AllAgree(m, cfg, st.admitted, Finish(st))
  {
    EveryRunAgrees(m, cfg, |m.bars|);
    var st := RunTo(m, cfg, |m.bars|);
    forall i | 0 <= i < |Finish(st)| ensures AgreesWithResolver(m, cfg, st.admitted, Finish(st)[i]) {
      if i < |st.outcomes| { assert Finish(st)[i] == st.outcomes[i]; } else { assert !IsFilled(Finish(st)[i]); }
    }
  }

  // ---- one trade at a time ----

  // The bar that filled an outcome's trade and the bar at which the outcome was reported.  An outcome
  // without a trade has both where it was reported.
  datatype Span = Span(fill: nat, end: nat)

  // One span per outcome, and the bar that filled the open trade.
  datatype Trace = Trace(spans: seq<Span>, fill: nat)

  function Repeated(span: Span, count: nat): seq<Span> {
    seq(count, _ => span)
  }

  ghost function TradeTrace(m: Market, cfg: Config, st: RunState, trace: Trace, i: nat): Trace
    requires i < |m.bars|
  {
    if st.open.Some? then
      if Update(st.open.value, m.bars[i], SortEvents(m.events)).1.None? then trace
      else trace.(spans := trace.spans + [Span(trace.fill, i)])
    else
      Trace(trace.spans + Repeated(Span(i, i), |Fill(cfg, st.pending, m.bars[i], SortEvents(m.events)).outcomes|), i)
  }

  ghost function QuarterTrace(m: Market, st: RunState, trace: Trace, i: nat): Trace
    requires i < |m.bars|
  {
    if !m.closesQuarter(i) then trace
    else
      var swept := Invalidate(m, st.pending, i, m.bars[i].closeTime + 1);
      trace.(spans := trace.spans + Repeated(Span(i, i), |swept.outcomes|))
  }

  ghost function TraceTo(m: Market, cfg: Config, n: nat): Trace
    requires n <= |m.bars|
  {
    if n == 0 then Trace([], 0)
    else
      var st, trace := RunTo(m, cfg, n - 1), TraceTo(m, cfg, n - 1);
      QuarterTrace(m, TradePhase(m, cfg, st, n - 1), TradeTrace(m, cfg, st, trace, n - 1), n - 1)
  }

  // The filled result was entered at its fill bar and exited on the spot or at a bar it was held over.
  ghost predicate SpanFits(bars: seq<Candle>, o: Outcome, span: Span) {
    && span.fill <= span.end < |bars| && o.enteredAt == Some(bars[span.fill].openTime)
    && (o.exitedAt == o.enteredAt || exists j | span.fill <= j <= span.end :: o.exitedAt == Some(bars[j].closeTime))
  }

  ghost predicate EndedBefore(outcomes: seq<Outcome>, spans: seq<Span>, k: nat)
    requires |spans| == |outcomes|
  {
    forall a | 0 <= a < |outcomes| && IsFilled(outcomes[a]) :: spans[a].end < k
  }

  // Trades follow one another: every filled result was over at a bar before the one that filled the next,
  // and so it is with the open trade.
  ghost predicate OneAtATime(bars: seq<Candle>, st: RunState, trace: Trace, n: nat) {
    && n <= |bars| && |trace.spans| == |st.outcomes|
    && EndedBefore(st.outcomes, trace.spans, n)
    && (forall a | 0 <= a < |st.outcomes| && IsFilled(st.outcomes[a]) ::
          SpanFits(bars, st.outcomes[a], trace.spans[a]))
    && (forall a, b | 0 <= a < b < |st.outcomes| && IsFilled(st.outcomes[a]) && IsFilled(st.outcomes[b]) ::
          trace.spans[a].end < trace.spans[b].fill)
    && (st.open.Some? ==>
          && trace.fill < n && st.open.value.enteredAt == bars[trace.fill].openTime
          && st.open.value.last == Some(bars[n - 1]) && EndedBefore(st.outcomes, trace.spans, trace.fill))
  }

  ghost predicate NoneFilled(outcomes: seq<Outcome>) {
    forall k | 0 <= k < |outcomes| :: !IsFilled(outcomes[k])
  }

  // Results that were never filled do not matter.
  lemma AddUnfilled(bars: seq<Candle>, st: RunState, trace: Trace, more: seq<Outcome>, span: Span, n: nat)
    requires OneAtATime(bars, st, trace, n) && NoneFilled(more)
    ensures OneAtATime(bars, st.(outcomes := st.outcomes + more),
                       trace.(spans := trace.spans + Repeated(span, |more|)), n)
  {
  }

  // A result joins the list when its trade was filled after all the others were over.
  lemma AddFilled(bars: seq<Candle>, st: RunState, trace: Trace, o: Outcome, span: Span, n: nat)
    requires OneAtATime(bars, st, trace, n) && st.open.None? && SpanFits(bars, o, span) && span.end < n
    requires EndedBefore(st.outcomes, trace.spans, span.fill)
    ensures OneAtATime(bars, st.(outcomes := st.outcomes + [o]), trace.(spans := trace.spans + [span]), n)
  {
  }

  lemma UpdateOneAtATime(m: Market, cfg: Config, st: RunState, trace: Trace, i: nat)
    requires i < |m.bars| && OneAtATime(m.bars, st, trace, i) && st.open.Some?
    ensures OneAtATime(m.bars, TradePhase(m, cfg, st, i), TradeTrace(m, cfg, st, trace, i), i + 1)
  {
    var (trade, outcome) := Update(st.open.value, m.bars[i], SortEvents(m.events));
    if outcome.Some? {
      var last := if m.bars[i].closeTime > trade.deadline then i - 1 else i;
      assert outcome.value.exitedAt == Some(m.bars[last].closeTime);
      AddFilled(m.bars, st.(open := None), trace, outcome.value, Span(trace.fill, i), i + 1);
    }
  }

  // At most one result of a bar's fill is filled: the last one, on that bar.
  lemma {:induction false} FillEndsOrOpens(cfg: Config, pending: seq<Live>, bar: Candle, events: seq<FundingEvent>)
    ensures var f := Fill(cfg, pending, bar, events);
            && (forall k | 0 <= k < |f.outcomes| && IsFilled(f.outcomes[k]) ::
                  && k == |f.outcomes| - 1 && f.entered.None?
                  && f.outcomes[k].enteredAt == Some(bar.openTime)
                  && (f.outcomes[k].exitedAt == Some(bar.closeTime) || f.outcomes[k].exitedAt == Some(bar.openTime)))
            && (f.entered.Some? ==> f.entered.value.enteredAt == bar.openTime && f.entered.value.last == Some(bar))
  {
    if pending != [] { FillEndsOrOpens(cfg, pending[1..], bar, events); }
  }

  // The outcomes of a fill, appended with the bar's own span.
  lemma AddFill(bars: seq<Candle>, st: RunState, trace: Trace, more: seq<Outcome>, i: nat)
    requires i < |bars| && OneAtATime(bars, st, trace, i) && st.open.None?
    requires forall k | 0 <= k < |more| && IsFilled(more[k]) ::
               && k == |more| - 1 && more[k].enteredAt == Some(bars[i].openTime)
               && (more[k].exitedAt == Some(bars[i].closeTime) || more[k].exitedAt == Some(bars[i].openTime))
    ensures OneAtATime(bars, st.(outcomes := st.outcomes + more),
                       Trace(trace.spans + Repeated(Span(i, i), |more|), i), i + 1)
  {
    var n := |more|;
    var now := trace.(fill := i);
    assert OneAtATime(bars, st, now, i + 1);
    if n > 0 && IsFilled(more[n - 1]) {
      AddUnfilled(bars, st, now, more[..n - 1], Span(i, i), i + 1);
      AddFilled(bars, st.(outcomes := st.outcomes + more[..n - 1]),
                now.(spans := now.spans + Repeated(Span(i, i), n - 1)), more[n - 1], Span(i, i), i + 1);
      assert st.outcomes + more[..n - 1] + [more[n - 1]] == st.outcomes + more;
      assert now.spans + Repeated(Span(i, i), n - 1) + [Span(i, i)] == now.spans + Repeated(Span(i, i), n);
    } else {
      AddUnfilled(bars, st, now, more, Span(i, i), i + 1);
    }
  }

  lemma FillOneAtATime(m: Market, cfg: Config, st: RunState, trace: Trace, i: nat)
    requires i < |m.bars| && OneAtATime(m.bars, st, trace, i) && st.open.None?
    ensures OneAtATime(m.bars, TradePhase(m, cfg, st, i), TradeTrace(m, cfg, st, trace, i), i + 1)
  {
    var f := Fill(cfg, st.pending, m.bars[i], SortEvents(m.events));
    FillEndsOrOpens(cfg, st.pending, m.bars[i], SortEvents(m.events));
    AddFill(m.bars, st, trace, f.outcomes, i);
    OpenAfterFill(m.bars, st, trace, f, i);
  }

  lemma OpenAfterFill(bars: seq<Candle>, st: RunState, trace: Trace, f: Filled, i: nat)
    requires i < |bars| && OneAtATime(bars, st, trace, i) && st.open.None?
    requires f.entered.Some? ==>
               && NoneFilled(f.outcomes) && f.entered.value.enteredAt == bars[i].openTime
               && f.entered.value.last == Some(bars[i])
    requires OneAtATime(bars, st.(outcomes := st.outcomes + f.outcomes),
                        Trace(trace.spans + Repeated(Span(i, i), |f.outcomes|), i), i + 1)
    ensures OneAtATime(bars, AfterFill(st, f), Trace(trace.spans + Repeated(Span(i, i), |f.outcomes|), i), i + 1)
  {
  }

  lemma {:induction false} InvalidateFillsNothing(m: Market, pending: seq<Live>, i: nat, now: int)
    ensures NoneFilled(Invalidate(m, pending, i, now).outcomes)
  {
    if pending != [] { InvalidateFillsNothing(m, pending[..|pending| - 1], i, now); }
  }

  lemma QuarterPhaseOneAtATime(m: Market, cfg: Config, st: RunState, trace: Trace, i: nat, n: nat,
                               after: RunState, now: Trace)
    requires i < |m.bars| && OneAtATime(m.bars, st, trace, n)
    requires after == QuarterPhase(m, cfg, st, i) && now == QuarterTrace(m, st, trace, i)
    ensures OneAtATime(m.bars, after, now, n)
  {
    var time := m.bars[i].closeTime + 1;
    InvalidateFillsNothing(m, st.pending, i, time);
    AddUnfilled(m.bars, st, trace, Invalidate(m, st.pending, i, time).outcomes, Span(i, i), n);
  }

  // Over every run, trades are held one after another: each is filled at a bar after the one at which
  // the trade before it ended.
  lemma {:induction false} TradesNeverOverlap(m: Market, cfg: Config, n: nat)
    requires n <= |m.bars|
    ensures OneAtATime(m.bars, RunTo(m, cfg, n), TraceTo(m, cfg, n), n)
  {
    if n == 0 {
      StartOneAtATime(m.bars);
    } else {
      TradesNeverOverlap(m, cfg, n - 1);
      BarOneAtATime(m, cfg, RunTo(m, cfg, n - 1), TraceTo(m, cfg, n - 1), n, RunTo(m, cfg, n), TraceTo(m, cfg, n));
    }
  }

  lemma StartOneAtATime(bars: seq<Candle>)
    ensures OneAtATime(bars, START, Trace([], 0), 0)
  {
  }

  lemma TradePhaseOneAtATime(m: Market, cfg: Config, st: RunState, trace: Trace, i: nat, after: RunState, now: Trace)
    requires i < |m.bars| && OneAtATime(m.bars, st, trace, i)
    requires after == TradePhase(m, cfg, st, i) && now == TradeTrace(m, cfg, st, trace, i)
    ensures OneAtATime(m.bars, after, now, i + 1)
  {
    if st.open.Some? { UpdateOneAtATime(m, cfg, st, trace, i); } else { FillOneAtATime(m, cfg, st, trace, i); }
  }

  lemma BarOneAtATime(m: Market, cfg: Config, st: RunState, trace: Trace, n: nat, after: RunState, now: Trace)
    requires 0 < n <= |m.bars| && OneAtATime(m.bars, st, trace, n - 1)
    requires after == QuarterPhase(m, cfg, TradePhase(m, cfg, st, n - 1), n - 1)
    requires now == QuarterTrace(m, TradePhase(m, cfg, st, n - 1), TradeTrace(m, cfg, st, trace, n - 1), n - 1)
    ensures OneAtATime(m.bars, after, now, n)
  {
    var mid, midTrace := TradePhase(m, cfg, st, n - 1), TradeTrace(m, cfg, st, trace, n - 1);
    TradePhaseOneAtATime(m, cfg, st, trace, n - 1, mid, midTrace);
    QuarterPhaseOneAtATime(m, cfg, mid, midTrace, n - 1, n, after, now);
  }

  // Bars that each close before the next opens.  The run does not check this.
  ghost predicate Disjoint(bars: seq<Candle>) {
    Validated(bars) && forall i, j | 0 <= i < j < |bars| :: bars[i].closeTime < bars[j].openTime
  }

  // In time: over disjoint bars every trade is entered after the earlier ones were exited.
  lemma ExitedBeforeNextEntry(m: Market, cfg: Config, a: int, b: int)
    requires Disjoint(m.bars)
    requires var outcomes := RunTo(m, cfg, |m.bars|).outcomes;
             0 <= a < b < |outcomes| && IsFilled(outcomes[a]) && IsFilled(outcomes[b])
    ensures var outcomes := RunTo(m, cfg, |m.bars|).outcomes;
            && outcomes[a].exitedAt.Some? && outcomes[b].enteredAt.Some?
            && outcomes[a].exitedAt.value < outcomes[b].enteredAt.value
  {
    TradesNeverOverlap(m, cfg, |m.bars|);
    var outcomes, spans := RunTo(m, cfg, |m.bars|).outcomes, TraceTo(m, cfg, |m.bars|).spans;
    InTime(m.bars, outcomes[a], spans[a], outcomes[b], spans[b]);
  }

  lemma InTime(bars: seq<Candle>, a: Outcome, spanA: Span, b: Outcome, spanB: Span)
    requires Disjoint(bars) && SpanFits(bars, a, spanA) && SpanFits(bars, b, spanB) && spanA.end < spanB.fill
    ensures a.exitedAt.Some? && b.enteredAt.Some? && a.exitedAt.value < b.enteredAt.value
  {
  }

  // ---- who is filled ----

  // The bar counts for the signal, comes before its expiry and enters its zone.
  predicate Reached(s: Signal, bar: Candle) {
    s.dataTime < bar.openTime <= s.expiresAt && bar.low <= s.entryHigh && s.entryLow <= bar.high
  }

  // The signal's trade is opened at the bar, with the holding time of its setup.
  predicate OpensAt(cfg: Config, open: Option<LiveTrade>, s: Live, bar: Candle) {
    && open.Some? && open.value.signal == s && open.value.enteredAt == bar.openTime
    && open.value.deadline == bar.openTime + if s.trendPullback then cfg.trendHoldingMs else cfg.breakoutHoldingMs
  }

  // One of the outcomes from index `from` on is a filled one of the signal, entered at the bar.
  ghost predicate EndsAt(outcomes: seq<Outcome>, from: nat, s: Live, bar: Candle) {
    exists a | from <= a < |outcomes| ::
      outcomes[a].id == s.id && IsFilled(outcomes[a]) && outcomes[a].enteredAt == Some(bar.openTime)
  }

  lemma {:induction false} FillEnters(cfg: Config, pending: seq<Live>, bar: Candle, events: seq<FundingEvent>, p: int)
    requires 0 <= p < |pending| && Reached(pending[p], bar) && forall q | 0 <= q < p :: !Reached(pending[q], bar)
    ensures var f := Fill(cfg, pending, bar, events);
            OpensAt(cfg, f.entered, pending[p], bar) || EndsAt(f.outcomes, 0, pending[p], bar)
  {
    var f := Fill(cfg, pending, bar, events);
    if p > 0 {
      assert !Reached(pending[0], bar);
      var rest := Fill(cfg, pending[1..], bar, events);
      FillEnters(cfg, pending[1..], bar, events, p - 1);
      if EndsAt(rest.outcomes, 0, pending[p], bar) {
        var a :| 0 <= a < |rest.outcomes| && rest.outcomes[a].id == pending[p].id && IsFilled(rest.outcomes[a])
                 && rest.outcomes[a].enteredAt == Some(bar.openTime);
        var at := if f.outcomes == rest.outcomes then a else a + 1;
        assert f.outcomes[at] == rest.outcomes[a];
      }
    } else {
      var (after, outcome) := Update(Fresh(pending[0], bar, Holding(cfg, pending[0])), bar, events);
      if outcome.Some? { assert f.outcomes[0] == outcome.value; }
    }
  }

  lemma {:induction false} FillEntersNobody(cfg: Config, pending: seq<Live>, bar: Candle, events: seq<FundingEvent>)
    requires forall q | 0 <= q < |pending| :: !Reached(pending[q], bar)
    ensures Fill(cfg, pending, bar, events).entered == None && NoneFilled(Fill(cfg, pending, bar, events).outcomes)
  {
    if pending != [] {
      assert !Reached(pending[0], bar);
      FillEntersNobody(cfg, pending[1..], bar, events);
    }
  }

  // If no trade is open before bar i, the earliest pending signal that the bar reaches is entered at it.
  lemma FirstReachedIsEntered(m: Market, cfg: Config, i: nat, st: RunState, p: int, after: RunState)
    requires i < |m.bars| && st == RunTo(m, cfg, i) && after == RunTo(m, cfg, i + 1) && st.open == None
    requires 0 <= p < |st.pending| && Reached(st.pending[p], m.bars[i])
    requires forall q | 0 <= q < p :: !Reached(st.pending[q], m.bars[i])
    ensures OpensAt(cfg, after.open, st.pending[p], m.bars[i])
         || EndsAt(after.outcomes, |st.outcomes|, st.pending[p], m.bars[i])
  {
    var f := Fill(cfg, st.pending, m.bars[i], SortEvents(m.events));
    FillEnters(cfg, st.pending, m.bars[i], SortEvents(m.events), p);
    EnteredStays(m, cfg, st, f, i, st.pending[p], after);
  }

  lemma EnteredStays(m: Market, cfg: Config, st: RunState, f: Filled, i: nat, s: Live, after: RunState)
    requires i < |m.bars| && after == QuarterPhase(m, cfg, AfterFill(st, f), i)
    requires OpensAt(cfg, f.entered, s, m.bars[i]) || EndsAt(f.outcomes, 0, s, m.bars[i])
    ensures OpensAt(cfg, after.open, s, m.bars[i]) || EndsAt(after.outcomes, |st.outcomes|, s, m.bars[i])
  {
    if EndsAt(f.outcomes, 0, s, m.bars[i]) {
      var a :| 0 <= a < |f.outcomes| && f.outcomes[a].id == s.id && IsFilled(f.outcomes[a])
               && f.outcomes[a].enteredAt == Some(m.bars[i].openTime);
      assert after.outcomes[|st.outcomes| + a] == f.outcomes[a];
    }
  }

  // If it reaches none, nothing is entered.
  lemma NobodyReachedNobodyEntered(m: Market, cfg: Config, i: nat, st: RunState, after: RunState)
    requires i < |m.bars| && st == RunTo(m, cfg, i) && after == RunTo(m, cfg, i + 1) && st.open == None
    requires forall q | 0 <= q < |st.pending| :: !Reached(st.pending[q], m.bars[i])
    ensures after.open == None && |st.outcomes| <= |after.outcomes|
    ensures forall a | |st.outcomes| <= a < |after.outcomes| :: !IsFilled(after.outcomes[a])
  {
    FillEntersNobody(cfg, st.pending, m.bars[i], SortEvents(m.events));
    InvalidateFillsNothing(m, TradePhase(m, cfg, st, i).pending, i, m.bars[i].closeTime + 1);
  }

  // ---- who stays pending ----

  lemma {:induction false} FillKeeps(cfg: Config, pending: seq<Live>, bar: Candle, events: seq<FundingEvent>, s: Live)
    requires s in Fill(cfg, pending, bar, events).kept
    ensures s in pending
  {
    if pending != [] && s != pending[0] && s !in pending[1..] { FillKeeps(cfg, pending[1..], bar, events, s); }
  }

  lemma {:induction false} InvalidateKeeps(m: Market, pending: seq<Live>, i: nat, now: int, s: Live)
    requires s in Invalidate(m, pending, i, now).kept
    ensures s in pending && m.invalid(s, i).None?
  {
    if pending != [] {
      var init := pending[..|pending| - 1];
      if s in Invalidate(m, init, i, now).kept { InvalidateKeeps(m, init, i, now, s); }
    }
  }

  // A signal that is pending after a bar was pending before it, or was scanned at it.
  lemma StillPendingOrScanned(m: Market, cfg: Config, st: RunState, i: nat, s: Live)
    requires i < |m.bars| && s in OneBar(m, cfg, st, i).pending
    ensures s in st.pending || m.scan(i) == Some(s)
  {
    var mid := TradePhase(m, cfg, st, i);
    var now := m.bars[i].closeTime + 1;
    if m.closesQuarter(i) {
      if s !in SweepPending(m, mid, i).pending {
        PutAdds(SweepPending(m, mid, i).pending, m.scan(i).value, s);
      } else {
        InvalidateKeeps(m, mid.pending, i, now, s);
      }
    }
    if s in mid.pending && st.open == None { FillKeeps(cfg, st.pending, m.bars[i], SortEvents(m.events), s); }
  }

  lemma AdmittedGrow(m: Market, cfg: Config, st: RunState, i: nat, s: Live)
    requires i < |m.bars| && s in st.admitted
    ensures s in OneBar(m, cfg, st, i).admitted
  {
  }

  // The states a run passes through, bar by bar.
  ghost function Through(m: Market, cfg: Config): int -> RunState {
    i => if 0 <= i <= |m.bars| then RunTo(m, cfg, i) else START
  }

  ghost predicate PassesAt(m: Market, cfg: Config, states: int -> RunState, i: nat)
    requires i < |m.bars|
  {
    states(i + 1) == OneBar(m, cfg, states(i), i) && AdmittedOk(m, states(i), i)
  }

  ghost predicate Passes(m: Market, cfg: Config, states: int -> RunState) {
    forall i | 0 <= i < |m.bars| :: PassesAt(m, cfg, states, i)
  }

  lemma RunPasses(m: Market, cfg: Config)
    requires DistinctScans(m)
    ensures Passes(m, cfg, Through(m, cfg))
  {
    var states := Through(m, cfg);
    forall i | 0 <= i < |m.bars| ensures PassesAt(m, cfg, states, i) {
      RunPassesAt(m, cfg, i, states, RunTo(m, cfg, i));
    }
  }

  lemma RunPassesAt(m: Market, cfg: Config, i: nat, states: int -> RunState, st: RunState)
    requires DistinctScans(m) && i < |m.bars| && st == RunTo(m, cfg, i) && states(i) == st
    requires states(i + 1) == RunTo(m, cfg, i + 1)
    ensures PassesAt(m, cfg, states, i)
  {
    RunAdmitsOk(m, cfg, i, st);
  }

  lemma RunAdmitsOk(m: Market, cfg: Config, i: nat, st: RunState)
    requires DistinctScans(m) && i <= |m.bars| && st == RunTo(m, cfg, i)
    ensures AdmittedOk(m, st, i)
  {
    RunConserves(m, cfg, i);
  }

  // A signal that was admitted and is no longer pending never is again.
  lemma {:induction false} NeverPendingAgain(m: Market, cfg: Config, states: int -> RunState, k: nat, n: nat, s: Live)
    requires DistinctScans(m) && Passes(m, cfg, states) && k <= n <= |m.bars|
    requires s in states(k).admitted && s !in states(k).pending
    ensures s in states(n).admitted && s !in states(n).pending
    decreases n
  {
    if k < n {
      NeverPendingAgain(m, cfg, states, k, n - 1, s);
      assert PassesAt(m, cfg, states, n - 1);
      NotPendingNext(m, cfg, states(n - 1), n - 1, s, states(n));
    }
  }

  lemma NotPendingNext(m: Market, cfg: Config, st: RunState, i: nat, s: Live, after: RunState)
    requires i < |m.bars| && after == OneBar(m, cfg, st, i) && DistinctScans(m) && AdmittedOk(m, st, i)
    requires s in st.admitted && s !in st.pending
    ensures s in after.admitted && s !in after.pending
  {
    AdmittedGrow(m, cfg, st, i, s);
    if s in after.pending {
      StillPendingOrScanned(m, cfg, st, i, s);
      NewScanIsNew(m, st, i);
    }
  }

  // Nobody is pending and entered at once.
  lemma EnteredIsNotPending(st: RunState, s: Live, from: nat, bar: Candle, cfg: Config)
    requires Conserved(st) && forall a, b | 0 <= a < b < |st.admitted| :: st.admitted[a].id != st.admitted[b].id
    requires OpensAt(cfg, st.open, s, bar) || EndsAt(st.outcomes, from, s, bar)
    ensures s !in st.pending
  {
    OnceAdmitted(st.admitted, s.id);
    if EndsAt(st.outcomes, from, s, bar) {
      var a :| from <= a < |st.outcomes| && st.outcomes[a].id == s.id;
      assert OutcomeIds(st.outcomes)[a] == s.id;
    }
    assert s.id in multiset(OutcomeIds(st.outcomes)) + multiset(OpenIds(st.open));
    assert s.id !in multiset(Ids(st.pending));
    assert s.id !in Ids(st.pending);
    assert forall p | 0 <= p < |st.pending| :: Ids(st.pending)[p] == st.pending[p].id;
  }

  lemma {:induction false} OnceAdmitted(admitted: seq<Live>, id: nat)
    requires forall a, b | 0 <= a < b < |admitted| :: admitted[a].id != admitted[b].id
    ensures multiset(Ids(admitted))[id] <= 1
  {
    if admitted != [] {
      var init, last := admitted[..|admitted| - 1], admitted[|admitted| - 1];
      OnceAdmitted(init, id);
      assert Ids(admitted) == Ids(init) + [last.id];
      assert last.id !in Ids(init);
    }
  }

  // Bar j reaches the signal and, before it in line, another one.
  ghost predicate PassedOver(pending: seq<Live>, bar: Candle, s: Live) {
    exists p, q | 0 <= q < p < |pending| :: pending[p] == s && Reached(pending[q], bar)
  }

  // A signal that stays pending although a bar reaches it while no trade is open was behind another one
  // that the bar reaches.
  lemma StaysBehindAnother(m: Market, cfg: Config, j: nat, st: RunState, after: RunState, s: Live)
    requires DistinctScans(m) && j < |m.bars| && st == RunTo(m, cfg, j) && after == RunTo(m, cfg, j + 1)
    requires s in st.pending && s in after.pending && st.open == None && Reached(s, m.bars[j])
    ensures PassedOver(st.pending, m.bars[j], s)
  {
    var p :| 0 <= p < |st.pending| && st.pending[p] == s;
    if forall q | 0 <= q < p :: !Reached(st.pending[q], m.bars[j]) {
      FirstReachedIsEntered(m, cfg, j, st, p, after);
      RunConserves(m, cfg, j + 1);
      EnteredIsNotPending(after, s, |st.outcomes|, m.bars[j], cfg);
    }
  }

  lemma StaysPending(m: Market, cfg: Config, j: nat, n: nat, s: Live, st: RunState, after: RunState, end: RunState)
    requires DistinctScans(m) && j < n <= |m.bars| && st == RunTo(m, cfg, j)
    requires after == RunTo(m, cfg, j + 1) && end == RunTo(m, cfg, n) && s in st.pending && s in end.pending
    ensures s in after.pending
  {
    PendingIsAdmitted(m, cfg, j, s);
    AdmittedStays(m, cfg, j, st, after, s);
    NotGone(m, cfg, j + 1, n, s, after, end);
  }

  lemma NotGone(m: Market, cfg: Config, k: nat, n: nat, s: Live, st: RunState, end: RunState)
    requires DistinctScans(m) && k <= n <= |m.bars| && st == Through(m, cfg)(k) && end == Through(m, cfg)(n)
    requires s in st.admitted && s in end.pending
    ensures s in st.pending
  {
    RunPasses(m, cfg);
    if s !in st.pending { NeverPendingAgain(m, cfg, Through(m, cfg), k, n, s); }
  }

  lemma AdmittedStays(m: Market, cfg: Config, j: nat, st: RunState, after: RunState, s: Live)
    requires j < |m.bars| && after == OneBar(m, cfg, st, j) && s in st.admitted
    ensures s in after.admitted
  {
    AdmittedGrow(m, cfg, st, j, s);
  }

  // The outcome of a signal that expired while waiting: a bar opened after its expiry, no earlier bar
  // reached it while no trade was open, except one that also reached another signal before it in line.
  ghost predicate ExpiredWaiting(m: Market, cfg: Config, o: Outcome, s: Live, i: nat) {
    && i < |m.bars| && o.id == s.id && s in RunTo(m, cfg, i).pending && RunTo(m, cfg, i).open == None
    && s.expiresAt < m.bars[i].openTime
    && forall j: nat | j < i && s in RunTo(m, cfg, j).pending && RunTo(m, cfg, j).open == None
                       && Reached(s, m.bars[j]) :: PassedOver(RunTo(m, cfg, j).pending, m.bars[j], s)
  }

  predicate UnfilledByBar(o: Outcome) {
    o.kind == Unfilled && o.exitedAt == None
  }

  lemma {:induction false} FillExpires(cfg: Config, pending: seq<Live>, bar: Candle, events: seq<FundingEvent>, k: int)
    requires 0 <= k < |Fill(cfg, pending, bar, events).outcomes|
    requires UnfilledByBar(Fill(cfg, pending, bar, events).outcomes[k])
    ensures exists s | s in pending ::
              s.id == Fill(cfg, pending, bar, events).outcomes[k].id && s.expiresAt < bar.openTime
  {
    if pending != [] {
      var s := pending[0];
      var rest := Fill(cfg, pending[1..], bar, events);
      if bar.openTime > s.expiresAt {
        if k > 0 { FillExpires(cfg, pending[1..], bar, events, k - 1); }
      } else if bar.openTime <= s.dataTime || !Touches(s, bar) {
        FillExpires(cfg, pending[1..], bar, events, k);
      }
    }
  }

  lemma {:induction false} SweepNeverByBar(m: Market, pending: seq<Live>, i: nat, now: int, k: int)
    requires 0 <= k < |Invalidate(m, pending, i, now).outcomes|
    ensures !UnfilledByBar(Invalidate(m, pending, i, now).outcomes[k])
  {
    if pending != [] {
      var init := pending[..|pending| - 1];
      if k < |Invalidate(m, init, i, now).outcomes| { SweepNeverByBar(m, init, i, now, k); }
    }
  }

  lemma FillPhaseExpires(m: Market, cfg: Config, st: RunState, i: nat, mid: RunState, k: int)
    requires i < |m.bars| && mid == TradePhase(m, cfg, st, i)
    requires |st.outcomes| <= k < |mid.outcomes| && UnfilledByBar(mid.outcomes[k])
    ensures st.open == None
    ensures exists s | s in st.pending :: s.id == mid.outcomes[k].id && s.expiresAt < m.bars[i].openTime
  {
    if st.open == None { FillExpires(cfg, st.pending, m.bars[i], SortEvents(m.events), k - |st.outcomes|); }
  }

  // What a bar adds to the outcomes: an UNFILLED one of a signal that was pending with no trade open.
  lemma BarExpires(m: Market, cfg: Config, st: RunState, i: nat, mid: RunState, after: RunState, k: int)
    requires i < |m.bars| && mid == TradePhase(m, cfg, st, i) && after == QuarterPhase(m, cfg, mid, i)
    requires |st.outcomes| <= k < |after.outcomes| && UnfilledByBar(after.outcomes[k])
    ensures st.open == None
    ensures exists s | s in st.pending :: s.id == after.outcomes[k].id && s.expiresAt < m.bars[i].openTime
  {
    QuarterAdds(m, cfg, mid, i, after, k);
    FillPhaseExpires(m, cfg, st, i, mid, k);
  }

  lemma QuarterAdds(m: Market, cfg: Config, mid: RunState, i: nat, after: RunState, k: int)
    requires i < |m.bars| && after == QuarterPhase(m, cfg, mid, i)
    requires 0 <= k < |after.outcomes| && UnfilledByBar(after.outcomes[k])
    ensures k < |mid.outcomes| && mid.outcomes[k] == after.outcomes[k]
  {
    if k >= |mid.outcomes| {
      SweepNeverByBar(m, mid.pending, i, m.bars[i].closeTime + 1, k - |mid.outcomes|);
    }
  }

  lemma OutcomesGrow(m: Market, cfg: Config, st: RunState, i: nat)
    requires i < |m.bars|
    ensures |st.outcomes| <= |OneBar(m, cfg, st, i).outcomes|
    ensures OneBar(m, cfg, st, i).outcomes[..|st.outcomes|] == st.outcomes
  {
  }

  // Every UNFILLED outcome that a bar reports is explained that way.
  lemma {:induction false} UnfilledWasNeverReached(m: Market, cfg: Config, n: nat, k: int)
    requires DistinctScans(m) && n <= |m.bars| && 0 <= k < |RunTo(m, cfg, n).outcomes|
    requires UnfilledByBar(RunTo(m, cfg, n).outcomes[k])
    ensures exists s: Live, i: nat :: ExpiredWaiting(m, cfg, RunTo(m, cfg, n).outcomes[k], s, i)
    decreases n
  {
    var i: nat, st, o := n - 1, RunTo(m, cfg, n - 1), RunTo(m, cfg, n).outcomes[k];
    OutcomesGrow(m, cfg, st, i);
    if k < |st.outcomes| {
      UnfilledWasNeverReached(m, cfg, i, k);
      assert st.outcomes[k] == o;
    } else {
      BarExpires(m, cfg, st, i, TradePhase(m, cfg, st, i), RunTo(m, cfg, n), k);
      var s :| s in st.pending && s.id == o.id && s.expiresAt < m.bars[i].openTime;
      forall j: nat | j < i && s in RunTo(m, cfg, j).pending && RunTo(m, cfg, j).open == None && Reached(s, m.bars[j])
        ensures PassedOver(RunTo(m, cfg, j).pending, m.bars[j], s)
      {
        StaysPending(m, cfg, j, i, s, RunTo(m, cfg, j), RunTo(m, cfg, j + 1), st);
        StaysBehindAnother(m, cfg, j, RunTo(m, cfg, j), RunTo(m, cfg, j + 1), s);
      }
      assert ExpiredWaiting(m, cfg, o, s, i);
    }
  }

  lemma {:induction false} PendingIsAdmitted(m: Market, cfg: Config, n: nat, s: Live)
    requires n <= |m.bars| && s in RunTo(m, cfg, n).pending
    ensures s in RunTo(m, cfg, n).admitted
  {
    if n > 0 {
      var st := RunTo(m, cfg, n - 1);
      StillPendingOrScanned(m, cfg, st, n - 1, s);
      if s in st.pending {
        PendingIsAdmitted(m, cfg, n - 1, s);
        AdmittedGrow(m, cfg, st, n - 1, s);
      } else {
        ScannedIsAdmitted(m, cfg, st, n - 1, s, RunTo(m, cfg, n));
      }
    }
  }

  lemma ScannedIsAdmitted(m: Market, cfg: Config, st: RunState, i: nat, s: Live, after: RunState)
    requires i < |m.bars| && after == OneBar(m, cfg, st, i) && s in after.pending && s !in st.pending
    ensures s in after.admitted
  {
    var mid := TradePhase(m, cfg, st, i);
    if s in mid.pending && st.open == None { FillKeeps(cfg, st.pending, m.bars[i], SortEvents(m.events), s); }
    var swept := SweepPending(m, mid, i);
    if s in swept.pending { InvalidateKeeps(m, mid.pending, i, m.bars[i].closeTime + 1, s); }
    if m.scan(i).Some? && s in Put(swept.pending, m.scan(i).value) { PutAdds(swept.pending, m.scan(i).value, s); }
  }

  // ---- who is admitted ----

  // The cooldown map holds nothing but admissions.
  ghost predicate CooldownIsReal(st: RunState) {
    forall fingerprint | fingerprint in st.cooldown :: AdmittedAt(st.admitted, fingerprint, st.cooldown[fingerprint])
  }

  ghost predicate AdmittedAt(admitted: seq<Live>, fingerprint: nat, time: int) {
    exists a | 0 <= a < |admitted| :: admitted[a].fingerprint == fingerprint && admitted[a].createdAt == time
  }

  lemma AdmitKeepsReal(cfg: Config, st: RunState, s: Live)
    requires CooldownIsReal(st)
    ensures CooldownIsReal(Admit(cfg, st, s))
  {
    var after := Admit(cfg, st, s);
    forall fingerprint | fingerprint in after.cooldown
      ensures AdmittedAt(after.admitted, fingerprint, after.cooldown[fingerprint])
    {
      if after != st && fingerprint == s.fingerprint {
        assert after.admitted[|st.admitted|] == s;
      } else {
        var a :| 0 <= a < |st.admitted| && st.admitted[a].fingerprint == fingerprint
                 && st.admitted[a].createdAt == st.cooldown[fingerprint];
        assert after.admitted[a] == st.admitted[a];
      }
    }
  }

  lemma BarKeepsReal(m: Market, cfg: Config, st: RunState, i: nat, after: RunState)
    requires i < |m.bars| && CooldownIsReal(st) && after == OneBar(m, cfg, st, i)
    ensures CooldownIsReal(after)
  {
    var swept := SweepPending(m, TradePhase(m, cfg, st, i), i);
    assert CooldownIsReal(swept);
    if m.scan(i).Some? { AdmitKeepsReal(cfg, swept, m.scan(i).value); }
  }

  lemma {:induction false} EveryCooldownIsReal(m: Market, cfg: Config, n: nat)
    requires n <= |m.bars|
    ensures CooldownIsReal(RunTo(m, cfg, n))
  {
    if n > 0 {
      EveryCooldownIsReal(m, cfg, n - 1);
      BarKeepsReal(m, cfg, RunTo(m, cfg, n - 1), n - 1, RunTo(m, cfg, n));
    }
  }

  // No earlier admission of the signal's fingerprint lies within the cooldown.
  ghost predicate CooledDown(cfg: Config, admitted: seq<Live>, s: Live) {
    forall a | 0 <= a < |admitted| && admitted[a].fingerprint == s.fingerprint ::
      s.createdAt - admitted[a].createdAt > cfg.cooldownMs
  }

  lemma CoolingDownExactly(cfg: Config, st: RunState, s: Live)
    requires cfg.cooldownMs >= 0 && Spaced(cfg, st) && CooldownIsReal(st)
    ensures CoolingDown(cfg, st.cooldown, s) <==> !CooledDown(cfg, st.admitted, s)
  {
    if s.fingerprint in st.cooldown {
      assert AdmittedAt(st.admitted, s.fingerprint, st.cooldown[s.fingerprint]);
    }
  }

  // A signal scanned at a quarter close is admitted, and waits, exactly when no trade is open and no
  // earlier admission of its fingerprint lies within the cooldown.
  lemma AdmittedExactly(m: Market, cfg: Config, i: nat, st: RunState, after: RunState)
    requires i < |m.bars| && cfg.cooldownMs >= 0 && st == RunTo(m, cfg, i) && after == RunTo(m, cfg, i + 1)
    ensures if m.closesQuarter(i) && m.scan(i).Some? && after.open == None
               && CooledDown(cfg, st.admitted, m.scan(i).value)
            then after.admitted == st.admitted + [m.scan(i).value] && m.scan(i).value in after.pending
            else after.admitted == st.admitted
  {
    var mid := TradePhase(m, cfg, st, i);
    AdmissionsRespectCooldown(m, cfg, i);
    EveryCooldownIsReal(m, cfg, i);
    if m.scan(i).Some? {
      CoolingDownExactly(cfg, st, m.scan(i).value);
      PutContains(SweepPending(m, mid, i).pending, m.scan(i).value);
    }
  }

  lemma {:induction false} PutContains(pending: seq<Live>, s: Live)
    ensures s in Put(pending, s)
  {
    if pending != [] && pending[0].id != s.id { PutContains(pending[1..], s); }
  }

  // ---- who is swept, and what is left at the end ----

  // At a quarter close a waiting signal stays unless the engine gives a reason; the reason names its outcome.
  lemma {:induction false} SweptExactly(m: Market, pending: seq<Live>, i: nat, now: int, s: Live)
    requires s in pending
    ensures m.invalid(s, i).None? ==> s in Invalidate(m, pending, i, now).kept
    ensures m.invalid(s, i).Some? ==>
              Bare(s.id, if m.invalid(s, i).value == TtlExpired then Unfilled else Invalidated, None, None, Some(now))
              in Invalidate(m, pending, i, now).outcomes
  {
    var init, last := pending[..|pending| - 1], pending[|pending| - 1];
    if s in init { SweptExactly(m, init, i, now, s); }
  }

  // The same of a whole bar: a signal that is still waiting after the bar's fill.
  lemma QuarterSweeps(m: Market, cfg: Config, st: RunState, i: nat, s: Live, mid: RunState, after: RunState)
    requires i < |m.bars| && mid == TradePhase(m, cfg, st, i) && after == QuarterPhase(m, cfg, mid, i)
    requires s in mid.pending && m.closesQuarter(i) && m.invalid(s, i).Some?
    ensures var kind := match m.invalid(s, i).value case TtlExpired => Unfilled case OtherReason => Invalidated;
            Bare(s.id, kind, None, None, Some(m.bars[i].closeTime + 1)) in after.outcomes
  {
    SweptExactly(m, mid.pending, i, m.bars[i].closeTime + 1, s);
  }

  // What the run adds at its end: OPEN_AT_END for the open trade and PENDING for those still waiting.
  lemma LeftAtTheEnd(st: RunState, o: Outcome)
    ensures o in Finish(st)[|st.outcomes|..] ==>
              || (st.open.Some? && o.id == st.open.value.signal.id && o.kind == OpenAtEnd
                  && o.enteredAt == Some(st.open.value.enteredAt) && o.exitedAt == None)
              || (o.kind == Pending && o.enteredAt == None && exists s | s in st.pending :: s.id == o.id)
  {
    if o in Finish(st)[|st.outcomes|..] {
      var k :| |st.outcomes| <= k < |Finish(st)| && Finish(st)[k] == o;
      var opens := if st.open.Some? then 1 else 0;
      if k >= |st.outcomes| + opens { assert st.pending[k - |st.outcomes| - opens].id == o.id; }
    }
  }

  // ---- the loops ----

  method FillLoop(cfg: Config, pending: seq<Live>, bar: Candle, events: seq<FundingEvent>) returns (f: Filled)
    ensures f == Fill(cfg, pending, bar, events)
  {
    var kept: seq<Live>, outcomes: seq<Outcome> := [], [];
    var k := 0;
    while k < |pending|
      invariant 0 <= k <= |pending|
      invariant var rest := Fill(cfg, pending[k..], bar, events);
                Fill(cfg, pending, bar, events) == Filled(kept + rest.kept, outcomes + rest.outcomes, rest.entered)
    {
      var s := pending[k];
      assert pending[k..][0] == s && pending[k..][1..] == pending[k + 1..];
      if bar.openTime > s.expiresAt {
        outcomes := outcomes + [Bare(s.id, Unfilled, None, None, None)];
        k := k + 1;
        continue;
      }
      if bar.openTime <= s.dataTime {
        kept := kept + [s];
        k := k + 1;
        continue;
      }
      if Touches(s, bar) {
        var (trade, sameBar) := Update(Fresh(s, bar, Holding(cfg, s)), bar, events);
        if sameBar.Some? {
          return Filled(kept + pending[k + 1..], outcomes + [sameBar.value], None);
        }
        return Filled(kept + pending[k + 1..], outcomes, Some(trade));
      }
      kept := kept + [s];
      k := k + 1;
    }
    return Filled(kept, outcomes, None);
  }

  method InvalidateLoop(m: Market, pending: seq<Live>, i: nat, now: int) returns (w: Swept)
    ensures w == Invalidate(m, pending, i, now)
  {
    w := Swept([], []);
    for k := 0 to |pending|
      invariant w == Invalidate(m, pending[..k], i, now)
    {
      var s := pending[k];
      assert pending[..k + 1][..k] == pending[..k];
      var reason := m.invalid(s, i);
      if reason.Some? {
        var name := if reason.value == TtlExpired then Unfilled else Invalidated;
        w := w.(outcomes := w.outcomes + [Bare(s.id, name, None, None, Some(now))]);
      } else {
        w := w.(kept := w.kept + [s]);
      }
    }
    assert pending[..|pending|] == pending;
  }

  method RunBar(m: Market, cfg: Config, before: RunState, i: nat, events: seq<FundingEvent>) returns (st: RunState)
    requires i < |m.bars| && events == SortEvents(m.events)
    ensures st == OneBar(m, cfg, before, i)
  {
    st := before;
    if st.open.Some? {
      var (trade, outcome) := Update(st.open.value, m.bars[i], events);
      st := AfterUpdate(st, trade, outcome);
    } else {
      var f := FillLoop(cfg, st.pending, m.bars[i], events);
      st := AfterFill(st, f);
    }
    if m.closesQuarter(i) {
      var w := InvalidateLoop(m, st.pending, i, m.bars[i].closeTime + 1);
      st := st.(pending := w.kept, outcomes := st.outcomes + w.outcomes);
      var candidate := m.scan(i);
      if st.open.None? && candidate.Some? {
        st := Admit(cfg, st, candidate.value);
      }
    }
  }

  method RunBacktest(m: Market, cfg: Config) returns (outcomes: seq<Outcome>)
    ensures outcomes == Finish(RunTo(m, cfg, |m.bars|))
  {
    var events := SortEvents(m.events);
    var st := START;
    for i := 0 to |m.bars|
      invariant st == RunTo(m, cfg, i)
    {
      st := RunBar(m, cfg, st, i, events);
    }
    outcomes := Finish(st);
  }
}
