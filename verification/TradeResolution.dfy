/**
 One trade, resolved two ways: the batch resolver walks a list of bars and
 settles funding once at the end; the event-driven engine sees one bar at a
 time and settles funding as it goes.  Prices and cash are over `real`.
 */
module TradeResolution {
  import opened Options
  import opened Domain
  import opened Arithmetic

  datatype Candle = Candle(openTime: int, closeTime: int, high: real, low: real, close: real)

  datatype Signal = Signal(
    id: nat, fingerprint: nat, direction: Direction, trendPullback: bool,
    dataTime: int, createdAt: int, expiresAt: int,
    entryLow: real, entryHigh: real, stopLoss: real, takeProfit: real,
    notional: real, maxLoss: real, fee: real, slippage: real)

  datatype FundingEvent = FundingEvent(time: int, rate: real, mark: Option<real>)

  datatype Kind = Win | Loss | Timeout | Unfilled | Invalidated | OpenAtEnd | Pending

  datatype Outcome = Outcome(
    id: nat, kind: Kind, entry: Option<real>, exit: Option<real>, netR: Option<real>,
    enteredAt: Option<int>, exitedAt: Option<int>,
    gross: Option<real>, fees: real, slippage: real, funding: real, net: Option<real>)

  function Bare(id: nat, kind: Kind, entry: Option<real>, enteredAt: Option<int>, exitedAt: Option<int>): Outcome {
    Outcome(id, kind, entry, None, None, enteredAt, exitedAt, None, 0.0, 0.0, 0.0, None)
  }

  function EntryPrice(s: Signal): real {
    if s.direction.Long? then s.entryHigh else s.entryLow
  }

  // A price the program can divide by.
  predicate Tradable(s: Signal) {
    EntryPrice(s) != 0.0
  }

  function Completed(s: Signal, kind: Kind, exit: real, enteredAt: int, exitedAt: int, funding: real): Outcome
    requires Tradable(s)
  {
    var entry := EntryPrice(s);
    var move := if s.direction.Long? then exit - entry else entry - exit;
    var gross := s.notional * move / entry;
    var net := gross - s.fee - s.slippage + funding;
    Outcome(s.id, kind, Some(entry), Some(exit), if s.maxLoss != 0.0 then Some(net / s.maxLoss) else None,
            Some(enteredAt), Some(exitedAt), Some(gross), s.fee, s.slippage, funding, Some(net))
  }

  // ---- funding ----

  function Cashflow(s: Signal, e: FundingEvent): real
    requires Tradable(s)
  {
    var quantity := s.notional / EntryPrice(s);
    var price := if e.mark.Some? && e.mark.value != 0.0 then e.mark.value else EntryPrice(s);
    quantity * price * e.rate * (if s.direction.Long? then -1.0 else 1.0)
  }

  // The cash settled by the events with lo < time <= hi.
  function Settled(s: Signal, events: seq<FundingEvent>, lo: int, hi: int): real
    requires Tradable(s)
  {
    if events == [] then 0.0
    else
      var e := events[|events| - 1];
      Settled(s, events[..|events| - 1], lo, hi) + if lo < e.time <= hi then Cashflow(s, e) else 0.0
  }

  // The engine's copy of the events, sorted by time.
  function InsertEvent(e: FundingEvent, events: seq<FundingEvent>): seq<FundingEvent> {
    if events == [] then [e]
    else if events[|events| - 1].time <= e.time then events + [e]
    else InsertEvent(e, events[..|events| - 1]) + [events[|events| - 1]]
  }

  function SortEvents(events: seq<FundingEvent>): seq<FundingEvent> {
    if events == [] then [] else InsertEvent(events[|events| - 1], SortEvents(events[..|events| - 1]))
  }

  lemma SettledSnoc(s: Signal, events: seq<FundingEvent>, e: FundingEvent, lo: int, hi: int)
    requires Tradable(s)
    ensures Settled(s, events + [e], lo, hi)
         == Settled(s, events, lo, hi) + if lo < e.time <= hi then Cashflow(s, e) else 0.0
  {
    assert (events + [e])[..|events|] == events;
  }

  lemma {:induction false} SettledInsert(s: Signal, e: FundingEvent, events: seq<FundingEvent>, lo: int, hi: int)
    requires Tradable(s)
    ensures Settled(s, InsertEvent(e, events), lo, hi)
         == Settled(s, events, lo, hi) + if lo < e.time <= hi then Cashflow(s, e) else 0.0
  {
    if events == [] || events[|events| - 1].time <= e.time {
      SettledSnoc(s, events, e, lo, hi);
    } else {
      var init, last := events[..|events| - 1], events[|events| - 1];
      SettledInsert(s, e, init, lo, hi);
      SettledSnoc(s, InsertEvent(e, init), last, lo, hi);
    }
  }

  lemma {:induction false} SettledSorted(s: Signal, events: seq<FundingEvent>, lo: int, hi: int)
    requires Tradable(s)
    ensures Settled(s, SortEvents(events), lo, hi) == Settled(s, events, lo, hi)
  {
    if events != [] {
      SettledSorted(s, events[..|events| - 1], lo, hi);
      SettledInsert(s, events[|events| - 1], SortEvents(events[..|events| - 1]), lo, hi);
    }
  }

  lemma {:induction false} SettledJoins(s: Signal, events: seq<FundingEvent>, lo: int, mid: int, hi: int)
    requires Tradable(s) && lo <= mid <= hi
    ensures Settled(s, events, lo, mid) + Settled(s, events, mid, hi) == Settled(s, events, lo, hi)
  {
    if events != [] { SettledJoins(s, events[..|events| - 1], lo, mid, hi); }
  }

  lemma {:induction false} SettledNothing(s: Signal, events: seq<FundingEvent>, lo: int)
    requires Tradable(s)
    ensures Settled(s, events, lo, lo) == 0.0
  {
    if events != [] { SettledNothing(s, events[..|events| - 1], lo); }
  }

  // ---- the batch resolver ----

  predicate StopHit(s: Signal, bar: Candle) {
    if s.direction.Long? then bar.low <= s.stopLoss else bar.high >= s.stopLoss
  }

  predicate TargetHit(s: Signal, bar: Candle) {
    if s.direction.Long? then bar.high >= s.takeProfit else bar.low <= s.takeProfit
  }

  predicate Touches(s: Signal, bar: Candle) {
    bar.low <= s.entryHigh && bar.high >= s.entryLow
  }

  // Stop first: a bar that reaches both counts as a loss.
  function Hit(s: Signal, bar: Candle, enteredAt: int, funding: real): Outcome
    requires Tradable(s)
  {
    if StopHit(s, bar) then Completed(s, Loss, s.stopLoss, enteredAt, bar.closeTime, funding)
    else Completed(s, Win, s.takeProfit, enteredAt, bar.closeTime, funding)
  }

  // A position held since `enteredAt`, at bars still to be walked.
  function Held(s: Signal, enteredAt: int, deadline: int, last: Option<Candle>, bars: seq<Candle>,
                asOf: Option<int>, events: seq<FundingEvent>): Outcome
    requires Tradable(s)
    decreases |bars|
  {
    if bars == [] || (bars[0].openTime > s.dataTime && bars[0].closeTime > deadline) then
      if asOf.Some? && asOf.value <= deadline then Bare(s.id, Pending, Some(EntryPrice(s)), Some(enteredAt), None)
      else if last.None? then Completed(s, Timeout, EntryPrice(s), enteredAt, enteredAt, 0.0)
      else Completed(s, Timeout, last.value.close, enteredAt, last.value.closeTime,
                     Settled(s, events, enteredAt, last.value.closeTime))
    else if bars[0].openTime <= s.dataTime then Held(s, enteredAt, deadline, last, bars[1..], asOf, events)
    else if StopHit(s, bars[0]) || TargetHit(s, bars[0]) then
      Hit(s, bars[0], enteredAt, Settled(s, events, enteredAt, bars[0].closeTime))
    else Held(s, enteredAt, deadline, Some(bars[0]), bars[1..], asOf, events)
  }

  function Resolve(s: Signal, bars: seq<Candle>, holdingMs: int, asOf: Option<int>, events: seq<FundingEvent>): Outcome
    requires Tradable(s)
    decreases |bars|
  {
    if bars == [] || (bars[0].openTime > s.dataTime && bars[0].openTime > s.expiresAt) then
      Bare(s.id, if asOf.Some? && asOf.value <= s.expiresAt then Pending else Unfilled, None, None, None)
    else if bars[0].openTime <= s.dataTime || !Touches(s, bars[0]) then Resolve(s, bars[1..], holdingMs, asOf, events)
    else Held(s, bars[0].openTime, bars[0].openTime + holdingMs, None, bars, asOf, events)
  }

  // resolve_signal's single loop over both phases.
  method ResolveSignal(s: Signal, bars: seq<Candle>, holdingMs: int, asOf: Option<int>, events: seq<FundingEvent>)
    returns (outcome: Outcome)
    requires Tradable(s)
    ensures outcome == Resolve(s, bars, holdingMs, asOf, events)
  {
    var entered := false;
    var enteredAt, deadline := 0, 0;
    var lastBar: Option<Candle> := None;
    var k := 0;
    while k < |bars|
      invariant 0 <= k <= |bars|
      invariant !entered ==> Resolve(s, bars, holdingMs, asOf, events) == Resolve(s, bars[k..], holdingMs, asOf, events)
      invariant entered ==>
                  Resolve(s, bars, holdingMs, asOf, events)
                  == Held(s, enteredAt, deadline, lastBar, bars[k..], asOf, events)
      invariant !entered ==> lastBar.None?
    {
      var bar := bars[k];
      assert bars[k..][0] == bar && bars[k..][1..] == bars[k + 1..];
      if bar.openTime <= s.dataTime {
        k := k + 1;
        continue;
      }
      if !entered {
        if bar.openTime > s.expiresAt {
          break;
        }
        if !Touches(s, bar) {
          k := k + 1;
          continue;
        }
        entered, enteredAt := true, bar.openTime;
        deadline := enteredAt + holdingMs;
      }
      if bar.closeTime > deadline {
        break;
      }
      lastBar := Some(bar);
      if StopHit(s, bar) || TargetHit(s, bar) {
        return Hit(s, bar, enteredAt, Settled(s, events, enteredAt, bar.closeTime));
      }
      k := k + 1;
    }
    if !entered {
      return Bare(s.id, if asOf.Some? && asOf.value <= s.expiresAt then Pending else Unfilled, None, None, None);
    }
    if asOf.Some? && asOf.value <= deadline {
      return Bare(s.id, Pending, Some(EntryPrice(s)), Some(enteredAt), None);
    }
    if lastBar.None? {
      return Completed(s, Timeout, EntryPrice(s), enteredAt, enteredAt, 0.0);
    }
    return Completed(s, Timeout, lastBar.value.close, enteredAt, lastBar.value.closeTime,
                     Settled(s, events, enteredAt, lastBar.value.closeTime));
  }

  // ---- the event-driven engine ----

  datatype OpenTrade = OpenTrade(signal: Signal, enteredAt: int, deadline: int, funding: real, last: Option<Candle>)

  function Lower(t: OpenTrade): int {
    if t.last.Some? then t.last.value.closeTime else t.enteredAt
  }

  // The outcome of a trade that is ended at its last bar.
  function TimedOut(t: OpenTrade): Outcome
    requires Tradable(t.signal)
  {
    Completed(t.signal, Timeout, if t.last.Some? then t.last.value.close else EntryPrice(t.signal),
              t.enteredAt, Lower(t), t.funding)
  }

  // _update_open: the trade after one bar, and its outcome if the bar ends it.
  function Update(t: OpenTrade, bar: Candle, events: seq<FundingEvent>): (OpenTrade, Option<Outcome>)
    requires Tradable(t.signal)
  {
    if bar.closeTime > t.deadline then (t, Some(TimedOut(t)))
    else
      var after := t.(funding := t.funding + Settled(t.signal, events, Lower(t), bar.closeTime), last := Some(bar));
      (after, if StopHit(t.signal, bar) || TargetHit(t.signal, bar)
              then Some(Hit(t.signal, bar, t.enteredAt, after.funding)) else None)
  }

  // The engine's trade object, updated in place; events are settled one at a time.
  class Position {
    const signal: Signal
    const enteredAt: int
    const deadline: int
    var funding: real
    var last: Option<Candle>

    ghost function Contents(): OpenTrade
      reads this
    {
      OpenTrade(signal, enteredAt, deadline, funding, last)
    }

    constructor (signal: Signal, enteredAt: int, deadline: int)
      ensures Contents() == OpenTrade(signal, enteredAt, deadline, 0.0, None)
    {
      this.signal, this.enteredAt, this.deadline := signal, enteredAt, deadline;
      funding, last := 0.0, None;
    }

    method UpdateOpen(bar: Candle, events: seq<FundingEvent>) returns (outcome: Option<Outcome>)
      requires Tradable(signal)
      modifies this
      ensures (Contents(), outcome) == Update(old(Contents()), bar, events)
    {
      if bar.closeTime > deadline {
        return Some(Completed(signal, Timeout, if last.Some? then last.value.close else EntryPrice(signal),
                              enteredAt, if last.Some? then last.value.closeTime else enteredAt, funding));
      }
      var lower := if last.Some? then last.value.closeTime else enteredAt;
      for i := 0 to |events|
        invariant funding == old(funding) + Settled(signal, events[..i], lower, bar.closeTime) && last == old(last)
      {
        assert events[..i + 1][..i] == events[..i];
        if lower < events[i].time <= bar.closeTime {
          funding := funding + Cashflow(signal, events[i]);
        }
      }
      assert events[..|events|] == events;
      last := Some(bar);
      if !(StopHit(signal, bar) || TargetHit(signal, bar)) {
        return None;
      }
      return Some(Hit(signal, bar, enteredAt, funding));
    }
  }

  // The trade after a list of bars, and its outcome once a bar has ended it.
  function Follow(t: OpenTrade, bars: seq<Candle>, events: seq<FundingEvent>): (OpenTrade, Option<Outcome>)
    requires Tradable(t.signal)
    ensures Follow(t, bars, events).0.signal == t.signal
    decreases |bars|
  {
    if bars == [] then (t, None)
    else
      var (after, outcome) := Update(t, bars[0], events);
      if outcome.Some? then (after, outcome) else Follow(after, bars[1..], events)
  }

  // What the engine reports of a trade over these bars; the resolver ends a trade at its last bar.
  function Reported(t: OpenTrade, bars: seq<Candle>, events: seq<FundingEvent>): Outcome
    requires Tradable(t.signal)
  {
    var (end, outcome) := Follow(t, bars, events);
    if outcome.Some? then outcome.value else TimedOut(end)
  }

  // No bar opens at or before the signal's data.
  ghost predicate AfterData(s: Signal, bars: seq<Candle>) {
    forall i | 0 <= i < |bars| :: bars[i].openTime > s.dataTime
  }

  // The same trade with another funding total.
  function Refunded(s: Signal, o: Outcome, funding: real): Outcome {
    match o.gross
    case None => o
    case Some(gross) =>
      var net := gross - s.fee - s.slippage + funding;
      o.(funding := funding, net := Some(net), netR := if s.maxLoss != 0.0 then Some(net / s.maxLoss) else None)
  }

  lemma CompletedRefunded(s: Signal, kind: Kind, exit: real, enteredAt: int, exitedAt: int, funding: real, other: real)
    requires Tradable(s)
    ensures Refunded(s, Completed(s, kind, exit, enteredAt, exitedAt, funding), other)
         == Completed(s, kind, exit, enteredAt, exitedAt, other)
  {
  }

  // Ending a trade here, as the resolver and as the engine do it.
  lemma EndsAlike(t: OpenTrade, bars: seq<Candle>, events: seq<FundingEvent>)
    requires Tradable(t.signal)
    requires bars == [] || (bars[0].openTime > t.signal.dataTime && bars[0].closeTime > t.deadline)
    ensures var held := Held(t.signal, t.enteredAt, t.deadline, t.last, bars, None, events);
            TimedOut(t) == Refunded(t.signal, held, t.funding) && held == Refunded(t.signal, held, held.funding)
  {
    var exit := if t.last.Some? then t.last.value.close else EntryPrice(t.signal);
    var funding := if t.last.Some? then Settled(t.signal, events, t.enteredAt, t.last.value.closeTime) else 0.0;
    CompletedRefunded(t.signal, Timeout, exit, t.enteredAt, Lower(t), funding, t.funding);
    CompletedRefunded(t.signal, Timeout, exit, t.enteredAt, Lower(t), funding, funding);
  }

  lemma HitsAlike(s: Signal, bar: Candle, enteredAt: int, funding: real, other: real)
    requires Tradable(s)
    ensures Refunded(s, Hit(s, bar, enteredAt, funding), other) == Hit(s, bar, enteredAt, other)
  {
  }

  // Whatever the bars' closes do, following a trade bar by bar ends it as the resolver does: same
  // kind, exit and times.  Only the funding is settled differently.
  lemma {:induction false} FollowIsHeld(t: OpenTrade, bars: seq<Candle>, sorted: seq<FundingEvent>,
                                        events: seq<FundingEvent>)
    requires Tradable(t.signal) && AfterData(t.signal, bars)
    ensures var reported := Reported(t, bars, sorted);
            var held := Held(t.signal, t.enteredAt, t.deadline, t.last, bars, None, events);
            && reported == Refunded(t.signal, held, reported.funding)
            && held == Refunded(t.signal, held, held.funding)
    decreases |bars|
  {
    if bars == [] || bars[0].closeTime > t.deadline {
      EndsAlike(t, bars, events);
    } else {
      assert bars[0].openTime > t.signal.dataTime;
      var paid := Settled(t.signal, events, t.enteredAt, bars[0].closeTime);
      var (after, outcome) := Update(t, bars[0], sorted);
      HitsAlike(t.signal, bars[0], t.enteredAt, paid, after.funding);
      HitsAlike(t.signal, bars[0], t.enteredAt, paid, paid);
      if outcome.None? { FollowIsHeld(after, bars[1..], sorted, events); }
    }
  }

  // ---- funding, bar by bar and at once ----

  // The closes of the bars a trade is held over: up to the deadline, or to the bar that hits.
  function HeldCloses(s: Signal, deadline: int, bars: seq<Candle>): seq<int>
    decreases |bars|
  {
    if bars == [] || bars[0].closeTime > deadline then []
    else
      [bars[0].closeTime]
      + if StopHit(s, bars[0]) || TargetHit(s, bars[0]) then [] else HeldCloses(s, deadline, bars[1..])
  }

  // Settling once per bar, each time from the previous close.
  function Piecewise(s: Signal, events: seq<FundingEvent>, from: int, closes: seq<int>): real
    requires Tradable(s)
    decreases |closes|
  {
    if closes == [] then 0.0
    else Settled(s, events, from, closes[0]) + Piecewise(s, events, closes[0], closes[1..])
  }

  function AtOnce(s: Signal, events: seq<FundingEvent>, from: int, closes: seq<int>): real
    requires Tradable(s)
  {
    if closes == [] then 0.0 else Settled(s, events, from, closes[|closes| - 1])
  }

  // The engine settles piecewise over the held bars.
  lemma {:induction false} FollowSettlesPiecewise(t: OpenTrade, bars: seq<Candle>, events: seq<FundingEvent>)
    requires Tradable(t.signal)
    ensures var paid := t.funding + Piecewise(t.signal, events, Lower(t), HeldCloses(t.signal, t.deadline, bars));
            Follow(t, bars, events).0.funding == paid && Reported(t, bars, events).funding == paid
    decreases |bars|
  {
    if bars != [] && bars[0].closeTime <= t.deadline {
      var (after, outcome) := Update(t, bars[0], events);
      var closes := HeldCloses(t.signal, t.deadline, bars);
      if outcome.None? {
        FollowSettlesPiecewise(after, bars[1..], events);
        assert closes[1..] == HeldCloses(t.signal, t.deadline, bars[1..]);
      } else {
        assert closes[1..] == [];
      }
    }
  }

  // The resolver settles once, up to the last held bar.
  lemma {:induction false} HeldSettlesOnce(s: Signal, enteredAt: int, deadline: int, last: Option<Candle>,
                                           bars: seq<Candle>, events: seq<FundingEvent>)
    requires Tradable(s) && AfterData(s, bars)
    ensures var closes := HeldCloses(s, deadline, bars);
            var upto := if closes != [] then closes[|closes| - 1]
                        else if last.Some? then last.value.closeTime else enteredAt;
            Held(s, enteredAt, deadline, last, bars, None, events).funding == Settled(s, events, enteredAt, upto)
    decreases |bars|
  {
    SettledNothing(s, events, enteredAt);
    if bars != [] && bars[0].closeTime <= deadline {
      assert bars[0].openTime > s.dataTime;
      HeldSettlesOnce(s, enteredAt, deadline, Some(bars[0]), bars[1..], events);
    }
  }

  lemma {:induction false} PiecewiseSorted(s: Signal, events: seq<FundingEvent>, from: int, closes: seq<int>)
    requires Tradable(s)
    ensures Piecewise(s, SortEvents(events), from, closes) == Piecewise(s, events, from, closes)
    decreases |closes|
  {
    if closes != [] {
      SettledSorted(s, events, from, closes[0]);
      PiecewiseSorted(s, events, closes[0], closes[1..]);
    }
  }

  function Fresh(s: Signal, bar: Candle, holdingMs: int): OpenTrade {
    OpenTrade(s, bar.openTime, bar.openTime + holdingMs, 0.0, None)
  }

  // The bar can fill the signal.
  predicate Fills(s: Signal, bar: Candle) {
    s.dataTime < bar.openTime <= s.expiresAt && Touches(s, bar)
  }

  // From the bar that fills a signal on, the engine reports what resolve_signal reports on those
  // bars, except that funding is settled bar by bar instead of once.
  lemma EngineAgreesWithResolver(s: Signal, bars: seq<Candle>, holdingMs: int, events: seq<FundingEvent>)
    requires Tradable(s) && bars != [] && Fills(s, bars[0]) && AfterData(s, bars)
    ensures var resolved := Resolve(s, bars, holdingMs, None, events);
            var entered, closes := bars[0].openTime, HeldCloses(s, bars[0].openTime + holdingMs, bars);
            && Reported(Fresh(s, bars[0], holdingMs), bars, SortEvents(events))
                 == Refunded(s, resolved, Piecewise(s, events, entered, closes))
            && resolved == Refunded(s, resolved, AtOnce(s, events, entered, closes))
            && resolved.funding == AtOnce(s, events, entered, closes)
            && Reported(Fresh(s, bars[0], holdingMs), bars, SortEvents(events)).funding
                 == Piecewise(s, events, entered, closes)
  {
    var entered, deadline := bars[0].openTime, bars[0].openTime + holdingMs;
    FollowIsHeld(Fresh(s, bars[0], holdingMs), bars, SortEvents(events), events);
    FollowSettlesPiecewise(Fresh(s, bars[0], holdingMs), bars, SortEvents(events));
    PiecewiseSorted(s, events, entered, HeldCloses(s, deadline, bars));
    HeldSettlesOnce(s, entered, deadline, None, bars, events);
    SettledNothing(s, events, entered);
  }

  // ---- the two settlements agree exactly when closes never go back ----

  ghost predicate Ascending(from: int, closes: seq<int>) {
    closes != [] ==> from <= closes[0] && forall i | 0 < i < |closes| :: closes[i - 1] <= closes[i]
  }

  lemma {:induction false} AscendingSettlesAlike(s: Signal, events: seq<FundingEvent>, from: int, closes: seq<int>)
    requires Tradable(s) && Ascending(from, closes)
    ensures Piecewise(s, events, from, closes) == AtOnce(s, events, from, closes)
    ensures closes != [] ==> from <= closes[|closes| - 1]
    decreases |closes|
  {
    if |closes| > 1 {
      AscendingSettlesAlike(s, events, closes[0], closes[1..]);
      SettledJoins(s, events, from, closes[0], closes[|closes| - 1]);
    }
  }

  // How often the closes step from below t to t or above, and back.
  function Rises(t: int, from: int, closes: seq<int>): nat
    decreases |closes|
  {
    if closes == [] then 0 else (if from < t <= closes[0] then 1 else 0) + Rises(t, closes[0], closes[1..])
  }

  function Falls(t: int, from: int, closes: seq<int>): nat
    decreases |closes|
  {
    if closes == [] then 0 else (if closes[0] < t <= from then 1 else 0) + Falls(t, closes[0], closes[1..])
  }

  lemma {:induction false} RisesMinusFalls(t: int, from: int, closes: seq<int>)
    requires closes != []
    ensures Rises(t, from, closes) - Falls(t, from, closes)
         == (if closes[|closes| - 1] >= t then 1 else 0) - (if from >= t then 1 else 0)
    decreases |closes|
  {
    if |closes| > 1 { RisesMinusFalls(t, closes[0], closes[1..]); }
  }

  lemma {:induction false} FallsWhereItDescends(from: int, closes: seq<int>, k: nat)
    requires 0 < k < |closes| && closes[k - 1] > closes[k]
    ensures Falls(closes[k - 1], from, closes) >= 1
    decreases |closes|
  {
    if k == 1 {
      assert closes[1..][0] == closes[1];
    } else {
      FallsWhereItDescends(closes[0], closes[1..], k - 1);
    }
  }

  lemma SettledOne(s: Signal, e: FundingEvent, lo: int, hi: int)
    requires Tradable(s)
    ensures Settled(s, [e], lo, hi) == if lo < e.time <= hi then Cashflow(s, e) else 0.0
  {
    SettledSnoc(s, [], e, lo, hi);
    assert [] + [e] == [e];
  }

  lemma {:induction false} PiecewiseCountsRises(s: Signal, e: FundingEvent, from: int, closes: seq<int>)
    requires Tradable(s)
    ensures Piecewise(s, [e], from, closes) == Rises(e.time, from, closes) as real * Cashflow(s, e)
    decreases |closes|
  {
    if closes != [] {
      SettledOne(s, e, from, closes[0]);
      PiecewiseCountsRises(s, e, closes[0], closes[1..]);
      OneMore(Rises(e.time, closes[0], closes[1..]), Cashflow(s, e));
    }
  }

  lemma OneMore(n: nat, x: real)
    ensures (1 + n) as real * x == x + n as real * x
  {
  }

  // A unit event settled at time t.
  function UnitEvent(t: int): FundingEvent {
    FundingEvent(t, 1.0, Some(1.0))
  }

  lemma UnitCashflow(s: Signal, t: int)
    requires Tradable(s) && s.notional != 0.0
    ensures Cashflow(s, UnitEvent(t)) != 0.0
  {
    var quantity := s.notional / EntryPrice(s);
    assert quantity * EntryPrice(s) == s.notional;
  }

  lemma DescentDoubleCounts(s: Signal, from: int, closes: seq<int>, k: nat)
    requires Tradable(s) && s.notional != 0.0 && (forall i | 0 <= i < |closes| :: from < closes[i])
    requires 0 < k < |closes| && closes[k - 1] > closes[k]
    ensures Piecewise(s, [UnitEvent(closes[k - 1])], from, closes)
         != AtOnce(s, [UnitEvent(closes[k - 1])], from, closes)
  {
    var e := UnitEvent(closes[k - 1]);
    UnitCashflow(s, e.time);
    PiecewiseCountsRises(s, e, from, closes);
    RisesMinusFalls(e.time, from, closes);
    FallsWhereItDescends(from, closes, k);
    SettledOne(s, e, from, closes[|closes| - 1]);
    MoreThanCounted(Rises(e.time, from, closes), if closes[|closes| - 1] >= e.time then 1 else 0, Cashflow(s, e));
  }

  lemma MoreThanCounted(n: nat, m: nat, x: real)
    requires n > m && x != 0.0
    ensures n as real * x != m as real * x
  {
    var d := (n - m) as real;
    assert d * x == n as real * x - m as real * x;
    assert d > 0.0;
    assert d * x != 0.0;
  }

  // For closes after the entry, settling bar by bar equals settling at once for every list of
  // funding events if and only if the closes never go back.
  lemma PiecewiseExactlyWhenAscending(s: Signal, from: int, closes: seq<int>)
    requires Tradable(s) && s.notional != 0.0 && forall i | 0 <= i < |closes| :: from < closes[i]
    ensures (forall events :: Piecewise(s, events, from, closes) == AtOnce(s, events, from, closes))
       <==> Ascending(from, closes)
  {
    if Ascending(from, closes) {
      forall events ensures Piecewise(s, events, from, closes) == AtOnce(s, events, from, closes) {
        AscendingSettlesAlike(s, events, from, closes);
      }
    } else {
      var k :| 0 < k < |closes| && closes[k - 1] > closes[k];
      DescentDoubleCounts(s, from, closes, k);
    }
  }

  lemma {:induction false} HeldClosesFollowEntry(s: Signal, deadline: int, bars: seq<Candle>, entered: int)
    requires forall i | 0 <= i < |bars| :: entered < bars[i].closeTime
    ensures forall k | 0 <= k < |HeldCloses(s, deadline, bars)| :: entered < HeldCloses(s, deadline, bars)[k]
    decreases |bars|
  {
    if bars != [] { HeldClosesFollowEntry(s, deadline, bars[1..], entered); }
  }

  lemma {:induction false} NothingSettledOnNothing(s: Signal, events: seq<FundingEvent>, lo: int, hi: int)
    requires Tradable(s) && s.notional == 0.0
    ensures Settled(s, events, lo, hi) == 0.0
  {
    if events != [] {
      NothingSettledOnNothing(s, events[..|events| - 1], lo, hi);
      assert s.notional / EntryPrice(s) == 0.0;
    }
  }

  lemma {:induction false} NothingPiecewiseOnNothing(s: Signal, events: seq<FundingEvent>, from: int, closes: seq<int>)
    requires Tradable(s) && s.notional == 0.0
    ensures Piecewise(s, events, from, closes) == 0.0 == AtOnce(s, events, from, closes)
    decreases |closes|
  {
    if closes != [] {
      NothingSettledOnNothing(s, events, from, closes[0]);
      NothingSettledOnNothing(s, events, from, closes[|closes| - 1]);
      NothingPiecewiseOnNothing(s, events, closes[0], closes[1..]);
    }
  }

  // With these funding events the engine and the resolver report the same outcome.
  ghost predicate AgreeOn(s: Signal, bars: seq<Candle>, holdingMs: int, events: seq<FundingEvent>)
    requires Tradable(s) && bars != []
  {
    Reported(Fresh(s, bars[0], holdingMs), bars, SortEvents(events)) == Resolve(s, bars, holdingMs, None, events)
  }

  // A failing input for every descent: an event at a close that the next held bar falls short of is
  // settled once more by the engine than by the resolver.
  lemma DescentIsPaidTwice(s: Signal, bars: seq<Candle>, holdingMs: int, k: nat)
    requires Tradable(s) && s.notional != 0.0 && bars != [] && Fills(s, bars[0]) && AfterData(s, bars)
    requires forall i | 0 <= i < |bars| :: bars[0].openTime < bars[i].closeTime
    requires var closes := HeldCloses(s, bars[0].openTime + holdingMs, bars);
             0 < k < |closes| && closes[k - 1] > closes[k]
    ensures !AgreeOn(s, bars, holdingMs, [UnitEvent(HeldCloses(s, bars[0].openTime + holdingMs, bars)[k - 1])])
  {
    var entered, closes := bars[0].openTime, HeldCloses(s, bars[0].openTime + holdingMs, bars);
    HeldClosesFollowEntry(s, bars[0].openTime + holdingMs, bars, entered);
    EngineAgreesWithResolver(s, bars, holdingMs, [UnitEvent(closes[k - 1])]);
    DescentDoubleCounts(s, entered, closes, k);
  }

  // For bars that close after the entry, the engine reports the resolver's outcome whatever the
  // funding events are, if and only if the closes of the held bars never go back.
  lemma AgreesExactlyWhenClosesAscend(s: Signal, bars: seq<Candle>, holdingMs: int)
    requires Tradable(s) && bars != [] && Fills(s, bars[0]) && AfterData(s, bars)
    requires forall i | 0 <= i < |bars| :: bars[0].openTime < bars[i].closeTime
    ensures (forall events :: AgreeOn(s, bars, holdingMs, events))
       <==> s.notional == 0.0 || Ascending(bars[0].openTime, HeldCloses(s, bars[0].openTime + holdingMs, bars))
  {
    var entered, closes := bars[0].openTime, HeldCloses(s, bars[0].openTime + holdingMs, bars);
    HeldClosesFollowEntry(s, bars[0].openTime + holdingMs, bars, entered);
    forall events
      ensures AgreeOn(s, bars, holdingMs, events)
         <==> Piecewise(s, events, entered, closes) == AtOnce(s, events, entered, closes)
    {
      EngineAgreesWithResolver(s, bars, holdingMs, events);
    }
    if s.notional == 0.0 {
      forall events ensures AgreeOn(s, bars, holdingMs, events) {
        NothingPiecewiseOnNothing(s, events, entered, closes);
      }
    } else {
      PiecewiseExactlyWhenAscending(s, entered, closes);
      if !Ascending(entered, closes) {
        var events :| Piecewise(s, events, entered, closes) != AtOnce(s, events, entered, closes);
        assert !AgreeOn(s, bars, holdingMs, events);
      }
    }
  }

  // ---- what an outcome says, in prices and times ----

  // A price seen from the trade's side: higher is better.
  function Favour(s: Signal, price: real): real {
    if s.direction.Long? then price else -price
  }

  // The worst and the best a bar offers the trade.
  function Worst(s: Signal, bar: Candle): real {
    if s.direction.Long? then bar.low else -bar.high
  }

  function Best(s: Signal, bar: Candle): real {
    if s.direction.Long? then bar.high else -bar.low
  }

  // The bar does not count, or passes in time without reaching either price.
  ghost predicate Quiet(s: Signal, deadline: int, bar: Candle) {
    || bar.openTime <= s.dataTime
    || (bar.closeTime <= deadline && Worst(s, bar) > Favour(s, s.stopLoss) && Best(s, bar) < Favour(s, s.takeProfit))
  }

  // Bar k is the first to count that reaches the stop or the target, in time.
  ghost predicate DecidedAt(s: Signal, deadline: int, bars: seq<Candle>, k: int) {
    && 0 <= k < |bars| && (forall j | 0 <= j < k :: Quiet(s, deadline, bars[j]))
    && s.dataTime < bars[k].openTime && bars[k].closeTime <= deadline
    && (Worst(s, bars[k]) <= Favour(s, s.stopLoss) || Best(s, bars[k]) >= Favour(s, s.takeProfit))
  }

  // Bar i is the first to count that enters the zone before the signal expires.
  ghost predicate FilledAt(s: Signal, bars: seq<Candle>, i: int) {
    && 0 <= i < |bars|
    && (forall j | 0 <= j < i ::
          bars[j].openTime <= s.dataTime
          || (bars[j].openTime <= s.expiresAt && (bars[j].low > s.entryHigh || bars[j].high < s.entryLow)))
    && s.dataTime < bars[i].openTime <= s.expiresAt && bars[i].low <= s.entryHigh && bars[i].high >= s.entryLow
  }

  // A held trade: the deciding bar gives the kind, the price and the time.
  lemma {:induction false} HeldDecided(s: Signal, enteredAt: int, deadline: int, last: Option<Candle>,
                                       bars: seq<Candle>, asOf: Option<int>, events: seq<FundingEvent>, k: int)
    requires Tradable(s) && DecidedAt(s, deadline, bars, k)
    ensures var o := Held(s, enteredAt, deadline, last, bars, asOf, events);
            var stopped := Worst(s, bars[k]) <= Favour(s, s.stopLoss);
            && o.kind == (if stopped then Loss else Win)
            && o.exit == Some(if stopped then s.stopLoss else s.takeProfit)
            && o.enteredAt == Some(enteredAt) && o.exitedAt == Some(bars[k].closeTime)
    decreases |bars|
  {
    if k > 0 {
      assert Quiet(s, deadline, bars[0]);
      var next := if bars[0].openTime <= s.dataTime then last else Some(bars[0]);
      assert forall j | 0 <= j < k - 1 :: bars[1..][j] == bars[j + 1];
      HeldDecided(s, enteredAt, deadline, next, bars[1..], asOf, events, k - 1);
    }
  }

  // Without a deciding bar it is neither won nor lost, and times out unless it is too early to say.
  lemma {:induction false} HeldUndecided(s: Signal, enteredAt: int, deadline: int, last: Option<Candle>,
                                         bars: seq<Candle>, asOf: Option<int>, events: seq<FundingEvent>)
    requires Tradable(s) && forall k :: !DecidedAt(s, deadline, bars, k)
    ensures var o := Held(s, enteredAt, deadline, last, bars, asOf, events);
            && o.kind == (if asOf.Some? && asOf.value <= deadline then Pending else Timeout)
            && o.enteredAt == Some(enteredAt)
    decreases |bars|
  {
    if bars != [] && (bars[0].openTime <= s.dataTime || bars[0].closeTime <= deadline) {
      assert !DecidedAt(s, deadline, bars, 0);
      assert Quiet(s, deadline, bars[0]);
      var next := if bars[0].openTime <= s.dataTime then last else Some(bars[0]);
      forall k ensures !DecidedAt(s, deadline, bars[1..], k) {
        if DecidedAt(s, deadline, bars[1..], k) { LaterDecides(s, deadline, bars, k); }
      }
      HeldUndecided(s, enteredAt, deadline, next, bars[1..], asOf, events);
    }
  }

  // None of the first n bars counts, and then the bars or the time are over.
  ghost predicate OverAfter(s: Signal, deadline: int, bars: seq<Candle>, n: int) {
    && 0 <= n <= |bars| && (forall j | 0 <= j < n :: bars[j].openTime <= s.dataTime)
    && (n == |bars| || (s.dataTime < bars[n].openTime && deadline < bars[n].closeTime))
  }

  lemma {:induction false} HeldIsOver(s: Signal, enteredAt: int, deadline: int, last: Option<Candle>,
                                      bars: seq<Candle>, events: seq<FundingEvent>, n: int)
    requires Tradable(s) && OverAfter(s, deadline, bars, n)
    ensures Held(s, enteredAt, deadline, last, bars, None, events)
            == Held(s, enteredAt, deadline, last, [], None, events)
    decreases |bars|
  {
    if n > 0 {
      assert forall j | 0 <= j < n - 1 :: bars[1..][j] == bars[j + 1];
      HeldIsOver(s, enteredAt, deadline, last, bars[1..], events, n - 1);
    }
  }

  // A trade that times out is exited at the close of the last bar that counts before the deadline.
  lemma {:induction false} HeldTimesOutAt(s: Signal, enteredAt: int, deadline: int, last: Option<Candle>,
                                          bars: seq<Candle>, events: seq<FundingEvent>, k: int, n: int)
    requires Tradable(s) && 0 <= k < |bars| && (forall j | 0 <= j <= k :: Quiet(s, deadline, bars[j]))
    requires s.dataTime < bars[k].openTime && OverAfter(s, deadline, bars[k + 1..], n)
    ensures var o := Held(s, enteredAt, deadline, last, bars, None, events);
            && o.kind == Timeout && o.exit == Some(bars[k].close)
            && o.enteredAt == Some(enteredAt) && o.exitedAt == Some(bars[k].closeTime)
    decreases |bars|
  {
    assert Quiet(s, deadline, bars[0]);
    if k == 0 {
      HeldIsOver(s, enteredAt, deadline, Some(bars[0]), bars[1..], events, n);
    } else {
      var next := if bars[0].openTime <= s.dataTime then last else Some(bars[0]);
      assert forall j | 0 <= j < k :: bars[1..][j] == bars[j + 1];
      assert bars[1..][k..] == bars[k + 1..];
      HeldTimesOutAt(s, enteredAt, deadline, next, bars[1..], events, k - 1, n);
    }
  }

  // If no bar counts before the deadline, it is exited where it was entered.
  lemma HeldTimesOutAtEntry(s: Signal, enteredAt: int, deadline: int, bars: seq<Candle>, events: seq<FundingEvent>,
                            n: int)
    requires Tradable(s) && OverAfter(s, deadline, bars, n)
    ensures var o := Held(s, enteredAt, deadline, None, bars, None, events);
            && o.kind == Timeout && o.exit == Some(if s.direction.Long? then s.entryHigh else s.entryLow)
            && o.enteredAt == o.exitedAt == Some(enteredAt)
  {
    HeldIsOver(s, enteredAt, deadline, None, bars, events, n);
  }

  lemma LaterDecides(s: Signal, deadline: int, bars: seq<Candle>, k: int)
    requires bars != [] && Quiet(s, deadline, bars[0]) && DecidedAt(s, deadline, bars[1..], k)
    ensures DecidedAt(s, deadline, bars, k + 1)
  {
    forall j | 0 <= j < k + 1 ensures Quiet(s, deadline, bars[j]) {
      if j > 0 { assert bars[1..][j - 1] == bars[j]; }
    }
  }

  // A signal's first fill bar starts the holding; without one there is no trade.
  lemma {:induction false} ResolveFilled(s: Signal, bars: seq<Candle>, holdingMs: int, asOf: Option<int>,
                                         events: seq<FundingEvent>, i: int)
    requires Tradable(s) && FilledAt(s, bars, i)
    ensures Resolve(s, bars, holdingMs, asOf, events)
         == Held(s, bars[i].openTime, bars[i].openTime + holdingMs, None, bars[i..], asOf, events)
    decreases |bars|
  {
    if i > 0 {
      assert forall j | 0 <= j < i - 1 :: bars[1..][j] == bars[j + 1];
      ResolveFilled(s, bars[1..], holdingMs, asOf, events, i - 1);
      assert bars[1..][i - 1..] == bars[i..];
    }
  }

  lemma {:induction false} ResolveUnfilled(s: Signal, bars: seq<Candle>, holdingMs: int, asOf: Option<int>,
                                           events: seq<FundingEvent>)
    requires Tradable(s) && forall i :: !FilledAt(s, bars, i)
    ensures var o := Resolve(s, bars, holdingMs, asOf, events);
            && o.kind == (if asOf.Some? && asOf.value <= s.expiresAt then Pending else Unfilled)
            && o.enteredAt == None && o.gross == None
    decreases |bars|
  {
    if bars != [] && (bars[0].openTime <= s.dataTime || bars[0].openTime <= s.expiresAt) {
      assert !FilledAt(s, bars, 0);
      forall i ensures !FilledAt(s, bars[1..], i) {
        if FilledAt(s, bars[1..], i) { LaterFills(s, bars, i); }
      }
      ResolveUnfilled(s, bars[1..], holdingMs, asOf, events);
    }
  }

  lemma LaterFills(s: Signal, bars: seq<Candle>, i: int)
    requires bars != [] && FilledAt(s, bars[1..], i)
    requires bars[0].openTime <= s.dataTime
          || (bars[0].openTime <= s.expiresAt && (bars[0].low > s.entryHigh || bars[0].high < s.entryLow))
    ensures FilledAt(s, bars, i + 1)
  {
    forall j | 0 <= j < i + 1
      ensures bars[j].openTime <= s.dataTime
           || (bars[j].openTime <= s.expiresAt && (bars[j].low > s.entryHigh || bars[j].high < s.entryLow))
    {
      if j > 0 { assert bars[1..][j - 1] == bars[j]; }
    }
  }

  // The trade was won: some held bar reaches the target and no held bar up to it reaches the stop.
  ghost predicate WonAt(s: Signal, bars: seq<Candle>, holdingMs: int, i: int, k: int) {
    && FilledAt(s, bars, i) && i <= k && DecidedAt(s, bars[i].openTime + holdingMs, bars[i..], k - i)
    && Worst(s, bars[k]) > Favour(s, s.stopLoss)
  }

  ghost predicate LostAt(s: Signal, bars: seq<Candle>, holdingMs: int, i: int, k: int) {
    && FilledAt(s, bars, i) && i <= k && DecidedAt(s, bars[i].openTime + holdingMs, bars[i..], k - i)
    && Worst(s, bars[k]) <= Favour(s, s.stopLoss)
  }

  // resolve_signal says WIN or LOSS exactly when there are such bars, whatever the funding events are.
  lemma ResolvedExactly(s: Signal, bars: seq<Candle>, holdingMs: int, asOf: Option<int>, events: seq<FundingEvent>)
    requires Tradable(s)
    ensures Resolve(s, bars, holdingMs, asOf, events).kind == Win <==> exists i, k :: WonAt(s, bars, holdingMs, i, k)
    ensures Resolve(s, bars, holdingMs, asOf, events).kind == Loss <==> exists i, k :: LostAt(s, bars, holdingMs, i, k)
  {
    if i :| FilledAt(s, bars, i) {
      ResolveFilled(s, bars, holdingMs, asOf, events, i);
      ResolvedExactlyFrom(s, bars, holdingMs, asOf, events, i);
    } else {
      ResolveUnfilled(s, bars, holdingMs, asOf, events);
    }
  }

  lemma FilledOnce(s: Signal, bars: seq<Candle>, i: int, j: int)
    requires FilledAt(s, bars, i) && FilledAt(s, bars, j)
    ensures i == j
  {
  }

  lemma DecidedOnce(s: Signal, deadline: int, bars: seq<Candle>, i: int, j: int)
    requires DecidedAt(s, deadline, bars, i) && DecidedAt(s, deadline, bars, j)
    ensures i == j
  {
  }

  lemma ResolvedExactlyFrom(s: Signal, bars: seq<Candle>, holdingMs: int, asOf: Option<int>,
                            events: seq<FundingEvent>, i: int)
    requires Tradable(s) && FilledAt(s, bars, i)
    ensures var o := Held(s, bars[i].openTime, bars[i].openTime + holdingMs, None, bars[i..], asOf, events);
            && (o.kind == Win <==> exists a, b :: WonAt(s, bars, holdingMs, a, b))
            && (o.kind == Loss <==> exists a, b :: LostAt(s, bars, holdingMs, a, b))
  {
    var deadline, rest := bars[i].openTime + holdingMs, bars[i..];
    forall a, b | WonAt(s, bars, holdingMs, a, b) || LostAt(s, bars, holdingMs, a, b)
      ensures a == i && DecidedAt(s, deadline, rest, b - i) && rest[b - i] == bars[b]
    {
      FilledOnce(s, bars, a, i);
    }
    if d :| DecidedAt(s, deadline, rest, d) {
      HeldDecided(s, bars[i].openTime, deadline, None, rest, asOf, events, d);
      assert rest[d] == bars[i + d];
      assert WonAt(s, bars, holdingMs, i, i + d) || LostAt(s, bars, holdingMs, i, i + d);
      forall a, b | WonAt(s, bars, holdingMs, a, b) || LostAt(s, bars, holdingMs, a, b) ensures b == i + d {
        DecidedOnce(s, deadline, rest, b - i, d);
      }
    } else {
      HeldUndecided(s, bars[i].openTime, deadline, None, rest, asOf, events);
    }
  }

  // ---- the profit ----

  predicate Settles(kind: Kind) {
    kind == Win || kind == Loss || kind == Timeout
  }

  // A trade that ended has the profit of the quantity bought and sold, less its costs; any other outcome has none.
  ghost predicate ProfitOk(s: Signal, o: Outcome)
    requires Tradable(s)
  {
    var entry := if s.direction.Long? then s.entryHigh else s.entryLow;
    var quantity := s.notional / entry;
    if Settles(o.kind) then
      && o.entry == Some(entry) && o.exit.Some? && o.gross.Some? && o.net.Some?
      && o.gross.value == (if s.direction.Long? then quantity * o.exit.value - quantity * entry
                           else quantity * entry - quantity * o.exit.value)
      && o.net.value == o.gross.value - s.fee - s.slippage + o.funding
      && (o.kind == Win ==> o.exit.value == s.takeProfit) && (o.kind == Loss ==> o.exit.value == s.stopLoss)
      && (if s.maxLoss == 0.0 then o.netR == None else o.netR.Some? && o.netR.value * s.maxLoss == o.net.value)
    else o.exit == None && o.gross == None && o.net == None
  }

  lemma QuantityTimesMove(notional: real, entry: real, exit: real)
    requires entry != 0.0
    ensures notional * (exit - entry) / entry == notional / entry * exit - notional / entry * entry
    ensures notional * (entry - exit) / entry == notional / entry * entry - notional / entry * exit
  {
    var q := notional / entry;
    assert q * entry == notional;
    assert notional * (exit - entry) == (q * (exit - entry)) * entry;
    DivideBack(q * (exit - entry), entry);
    assert notional * (entry - exit) == (q * (entry - exit)) * entry;
    DivideBack(q * (entry - exit), entry);
  }

  lemma CompletedProfit(s: Signal, kind: Kind, exit: real, enteredAt: int, exitedAt: int, funding: real)
    requires Tradable(s) && Settles(kind)
    requires (kind == Win ==> exit == s.takeProfit) && (kind == Loss ==> exit == s.stopLoss)
    ensures ProfitOk(s, Completed(s, kind, exit, enteredAt, exitedAt, funding))
  {
    QuantityTimesMove(s.notional, EntryPrice(s), exit);
  }

  lemma HitProfit(s: Signal, bar: Candle, enteredAt: int, funding: real)
    requires Tradable(s)
    ensures ProfitOk(s, Hit(s, bar, enteredAt, funding))
  {
    CompletedProfit(s, Loss, s.stopLoss, enteredAt, bar.closeTime, funding);
    CompletedProfit(s, Win, s.takeProfit, enteredAt, bar.closeTime, funding);
  }

  lemma {:induction false} HeldProfit(s: Signal, enteredAt: int, deadline: int, last: Option<Candle>, bars: seq<Candle>,
                                      asOf: Option<int>, events: seq<FundingEvent>)
    requires Tradable(s)
    ensures ProfitOk(s, Held(s, enteredAt, deadline, last, bars, asOf, events))
    decreases |bars|
  {
    if bars == [] || (bars[0].openTime > s.dataTime && bars[0].closeTime > deadline) {
      CompletedProfit(s, Timeout, EntryPrice(s), enteredAt, enteredAt, 0.0);
      if last.Some? {
        CompletedProfit(s, Timeout, last.value.close, enteredAt, last.value.closeTime,
                        Settled(s, events, enteredAt, last.value.closeTime));
      }
    } else if bars[0].openTime <= s.dataTime {
      HeldProfit(s, enteredAt, deadline, last, bars[1..], asOf, events);
    } else if StopHit(s, bars[0]) || TargetHit(s, bars[0]) {
      HitProfit(s, bars[0], enteredAt, Settled(s, events, enteredAt, bars[0].closeTime));
    } else {
      HeldProfit(s, enteredAt, deadline, Some(bars[0]), bars[1..], asOf, events);
    }
  }

  // What resolve_signal reports of any signal is the profit of the quantity bought and sold.
  lemma {:induction false} ResolvedProfit(s: Signal, bars: seq<Candle>, holdingMs: int, asOf: Option<int>,
                                          events: seq<FundingEvent>)
    requires Tradable(s)
    ensures ProfitOk(s, Resolve(s, bars, holdingMs, asOf, events))
    decreases |bars|
  {
    if bars != [] {
      ResolvedProfit(s, bars[1..], holdingMs, asOf, events);
      HeldProfit(s, bars[0].openTime, bars[0].openTime + holdingMs, None, bars, asOf, events);
    }
  }

  // And so is what the engine reports.
  lemma {:induction false} FollowedProfit(t: OpenTrade, bars: seq<Candle>, events: seq<FundingEvent>)
    requires Tradable(t.signal)
    ensures Follow(t, bars, events).1.Some? ==> ProfitOk(t.signal, Follow(t, bars, events).1.value)
    decreases |bars|
  {
    if bars != [] {
      var (after, outcome) := Update(t, bars[0], events);
      CompletedProfit(t.signal, Timeout, if t.last.Some? then t.last.value.close else EntryPrice(t.signal),
                      t.enteredAt, Lower(t), t.funding);
      HitProfit(t.signal, bars[0], t.enteredAt, after.funding);
      if outcome.None? { FollowedProfit(after, bars[1..], events); }
    }
  }

  // A signal whose stop is on the losing side of its entry and whose target is on the winning side.
  predicate ProperSignal(s: Signal) {
    && s.notional > 0.0 && EntryPrice(s) > 0.0
    && Favour(s, s.stopLoss) < Favour(s, EntryPrice(s)) < Favour(s, s.takeProfit)
  }

  // Its wins gain and its losses lose, before costs.
  lemma WinsGainAndLossesLose(s: Signal, o: Outcome)
    requires Tradable(s) && ProperSignal(s) && ProfitOk(s, o)
    ensures o.kind == Win ==> o.gross.Some? && o.gross.value > 0.0
    ensures o.kind == Loss ==> o.gross.Some? && o.gross.value < 0.0
  {
    if o.kind == Win || o.kind == Loss {
      var entry, quantity, exit := EntryPrice(s), s.notional / EntryPrice(s), o.exit.value;
      PositiveQuotient(s.notional, entry);
      var gain := if s.direction.Long? then exit - entry else entry - exit;
      assert quantity * gain == o.gross.value;
      if o.kind == Win { PositiveProduct(quantity, gain); } else { NegativeProduct(gain, quantity); }
    }
  }

  // ---- the funding ----

  // A long pays exactly when the rate is positive, a short exactly when it is negative, the rate times the
  // value of the position at the mark (or at the entry, without one).
  lemma FundingIsPaidByLongs(s: Signal, e: FundingEvent)
    requires Tradable(s) && s.notional > 0.0 && EntryPrice(s) > 0.0 && (e.mark.Some? ==> e.mark.value >= 0.0)
    ensures var mark := if e.mark.Some? && e.mark.value > 0.0 then e.mark.value else EntryPrice(s);
            Cashflow(s, e) * EntryPrice(s) == (if s.direction.Long? then -e.rate else e.rate) * (s.notional * mark)
    ensures Cashflow(s, e) < 0.0 <==> if s.direction.Long? then e.rate > 0.0 else e.rate < 0.0
    ensures Cashflow(s, e) == 0.0 <==> e.rate == 0.0
  {
    var mark := if e.mark.Some? && e.mark.value > 0.0 then e.mark.value else EntryPrice(s);
    var quantity, signed := s.notional / EntryPrice(s), if s.direction.Long? then -e.rate else e.rate;
    PositiveQuotient(s.notional, EntryPrice(s));
    PositiveProduct(quantity, mark);
    var value := quantity * mark;
    assert Cashflow(s, e) == signed * value;
    assert quantity * EntryPrice(s) == s.notional;
    assert value * EntryPrice(s) == s.notional * mark;
    assert (signed * value) * EntryPrice(s) == signed * (value * EntryPrice(s));
    if signed > 0.0 { PositiveProduct(signed, value); } else if signed < 0.0 { NegativeProduct(signed, value); }
  }

  lemma {:induction false} SettledConcat(s: Signal, a: seq<FundingEvent>, b: seq<FundingEvent>, lo: int, hi: int)
    requires Tradable(s)
    ensures Settled(s, a + b, lo, hi) == Settled(s, a, lo, hi) + Settled(s, b, lo, hi)
  {
    if b == [] {
      assert a + b == a;
    } else {
      SettledConcat(s, a, b[..|b| - 1], lo, hi);
      SettledSnoc(s, a + b[..|b| - 1], b[|b| - 1], lo, hi);
      assert a + b == a + b[..|b| - 1] + [b[|b| - 1]];
    }
  }

  lemma {:induction false} HeldFunding(s: Signal, enteredAt: int, deadline: int, last: Option<Candle>,
                                       bars: seq<Candle>, asOf: Option<int>, events: seq<FundingEvent>)
    requires Tradable(s)
    ensures var o := Held(s, enteredAt, deadline, last, bars, asOf, events);
            if Settles(o.kind)
            then o.enteredAt == Some(enteredAt) && o.exitedAt.Some?
                 && o.funding == Settled(s, events, enteredAt, o.exitedAt.value)
            else o.funding == 0.0
    decreases |bars|
  {
    SettledNothing(s, events, enteredAt);
    if bars != [] {
      HeldFunding(s, enteredAt, deadline, last, bars[1..], asOf, events);
      HeldFunding(s, enteredAt, deadline, Some(bars[0]), bars[1..], asOf, events);
    }
  }

  lemma {:induction false} ResolvedFunding(s: Signal, bars: seq<Candle>, holdingMs: int, asOf: Option<int>,
                                           events: seq<FundingEvent>)
    requires Tradable(s)
    ensures var o := Resolve(s, bars, holdingMs, asOf, events);
            if Settles(o.kind)
            then o.enteredAt.Some? && o.exitedAt.Some?
                 && o.funding == Settled(s, events, o.enteredAt.value, o.exitedAt.value)
            else o.funding == 0.0
    decreases |bars|
  {
    if bars != [] {
      ResolvedFunding(s, bars[1..], holdingMs, asOf, events);
      HeldFunding(s, bars[0].openTime, bars[0].openTime + holdingMs, None, bars, asOf, events);
    }
  }

  // The funding of a trade that ended adds up over its events, and an event counts exactly when it falls
  // after the entry and not after the exit.
  lemma FundingAddsUp(s: Signal, bars: seq<Candle>, holdingMs: int, asOf: Option<int>, a: seq<FundingEvent>,
                      e: FundingEvent)
    requires Tradable(s)
    ensures var before, after := Resolve(s, bars, holdingMs, asOf, a), Resolve(s, bars, holdingMs, asOf, a + [e]);
            && after.kind == before.kind && after.enteredAt == before.enteredAt && after.exitedAt == before.exitedAt
            && after.funding == before.funding
                 + if Settles(after.kind) && after.enteredAt.Some? && after.exitedAt.Some?
                      && after.enteredAt.value < e.time <= after.exitedAt.value then Cashflow(s, e) else 0.0
  {
    ResolvedFunding(s, bars, holdingMs, asOf, a);
    ResolvedFunding(s, bars, holdingMs, asOf, a + [e]);
    SameButFunding(s, bars, holdingMs, asOf, a, a + [e]);
    var o := Resolve(s, bars, holdingMs, asOf, a);
    if Settles(o.kind) { SettledSnoc(s, a, e, o.enteredAt.value, o.exitedAt.value); }
  }

  lemma {:induction false} HeldSame(s: Signal, enteredAt: int, deadline: int, last: Option<Candle>, bars: seq<Candle>,
                                    asOf: Option<int>, a: seq<FundingEvent>, b: seq<FundingEvent>)
    requires Tradable(s)
    ensures var x := Held(s, enteredAt, deadline, last, bars, asOf, a);
            var y := Held(s, enteredAt, deadline, last, bars, asOf, b);
            x.kind == y.kind && x.enteredAt == y.enteredAt && x.exitedAt == y.exitedAt
    decreases |bars|
  {
    if bars != [] {
      HeldSame(s, enteredAt, deadline, last, bars[1..], asOf, a, b);
      HeldSame(s, enteredAt, deadline, Some(bars[0]), bars[1..], asOf, a, b);
    }
  }

  lemma {:induction false} SameButFunding(s: Signal, bars: seq<Candle>, holdingMs: int, asOf: Option<int>,
                                          a: seq<FundingEvent>, b: seq<FundingEvent>)
    requires Tradable(s)
    ensures var x, y := Resolve(s, bars, holdingMs, asOf, a), Resolve(s, bars, holdingMs, asOf, b);
            x.kind == y.kind && x.enteredAt == y.enteredAt && x.exitedAt == y.exitedAt
    decreases |bars|
  {
    if bars != [] {
      SameButFunding(s, bars[1..], holdingMs, asOf, a, b);
      HeldSame(s, bars[0].openTime, bars[0].openTime + holdingMs, None, bars, asOf, a, b);
    }
  }
}
