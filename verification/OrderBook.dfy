/**
 The local order book: a REST snapshot joined to a diff-depth stream by the
 U/u/pu ids of the Binance USD-M procedure.  The functions are the
 specification; the class updates its dictionaries in place and is proved
 against them.  The exchange is two histories: the true side of the book at every id.
 */
module OrderBook {
  import opened Options

  type Side = map<real, real>
  type Levels = seq<(real, real)>

  datatype Book = Book(bids: Side, asks: Side)

  datatype DepthEvent = DepthEvent(firstId: int, finalId: int, previousFinalId: int, bids: Levels, asks: Levels)

  datatype Snapshot = Snapshot(lastUpdateId: int, bids: Levels, asks: Levels)

  datatype BookState = BookState(book: Book, updateId: Option<int>)

  // How many events a call applied, or the SequenceGap it raised.
  datatype Outcome = Accepted(count: nat) | SequenceGap

  const EMPTY_STATE := BookState(Book(map[], map[]), None)

  // ---- levels ----

  function SetLevel(side: Side, price: real, quantity: real): Side {
    if quantity == 0.0 then side - {price} else side[price := quantity]
  }

  function ApplyLevels(side: Side, levels: Levels): Side {
    if levels == [] then side
    else
      var last := levels[|levels| - 1];
      SetLevel(ApplyLevels(side, levels[..|levels| - 1]), last.0, last.1)
  }

  function SnapshotSide(levels: Levels): Side {
    if levels == [] then map[]
    else
      var last := levels[|levels| - 1];
      var side := SnapshotSide(levels[..|levels| - 1]);
      if last.1 == 0.0 then side else side[last.0 := last.1]
  }

  ghost function Quantity(side: Side, price: real): real {
    if price in side then side[price] else 0.0
  }

  ghost predicate NoZeroLevel(side: Side) {
    forall price | price in side :: side[price] != 0.0
  }

  // The last quantity an update list carries for a price.
  ghost function Carried(levels: Levels, price: real): Option<real> {
    if levels == [] then None
    else
      var last := levels[|levels| - 1];
      if last.0 == price then Some(last.1) else Carried(levels[..|levels| - 1], price)
  }

  // ---- the book as a state machine ----

  function Overlay(s: BookState, e: DepthEvent): BookState {
    BookState(Book(ApplyLevels(s.book.bids, e.bids), ApplyLevels(s.book.asks, e.asks)), Some(e.finalId))
  }

  function Apply(s: BookState, e: DepthEvent): (BookState, Outcome) {
    if s.updateId.None? then (s, SequenceGap)
    else if e.finalId <= s.updateId.value then (s, Accepted(0))
    else if e.previousFinalId != s.updateId.value then (EMPTY_STATE, SequenceGap)
    else (Overlay(s, e), Accepted(1))
  }

  // One event after another; the first SequenceGap ends the run.
  function ApplyAll(s: BookState, events: seq<DepthEvent>): (BookState, Outcome)
    decreases |events|
  {
    if events == [] then (s, Accepted(0))
    else
      var (before, outcome) := ApplyAll(s, events[..|events| - 1]);
      if outcome.SequenceGap? then (before, SequenceGap)
      else
        var (after, step) := Apply(before, events[|events| - 1]);
        (after, if step.SequenceGap? then SequenceGap else Accepted(outcome.count + step.count))
  }

  function NotBefore(events: seq<DepthEvent>, id: int): seq<DepthEvent> {
    if events == [] then []
    else
      var rest := NotBefore(events[..|events| - 1], id);
      if events[|events| - 1].finalId >= id then rest + [events[|events| - 1]] else rest
  }

  predicate Bridges(e: DepthEvent, id: int) {
    e.firstId <= id <= e.finalId
  }

  function Snapped(snapshot: Snapshot): BookState {
    BookState(Book(SnapshotSide(snapshot.bids), SnapshotSide(snapshot.asks)), Some(snapshot.lastUpdateId))
  }

  function Bootstrap(s: BookState, snapshot: Snapshot, buffered: seq<DepthEvent>): (BookState, Outcome) {
    var events := NotBefore(buffered, snapshot.lastUpdateId);
    if events == [] || !Bridges(events[0], snapshot.lastUpdateId) then (s, SequenceGap)
    else
      var (after, outcome) := ApplyAll(Overlay(Snapped(snapshot), events[0]), events[1..]);
      (after, if outcome.SequenceGap? then SequenceGap else Accepted(1 + outcome.count))
  }

  // ---- the exchange ----

  ghost predicate ExchangeSide(side: int -> Side) {
    forall id :: NoZeroLevel(side(id))
  }

  // The update list carries the absolute quantity, at `upto`, of every price
  // whose quantity changed after id `from`.
  ghost predicate CarriesChanges(levels: Levels, side: int -> Side, from: int, upto: int) {
    forall price ::
      match Carried(levels, price)
      case Some(quantity) => quantity == Quantity(side(upto), price)
      case None => forall id | from <= id <= upto :: Quantity(side(id), price) == Quantity(side(upto), price)
  }

  ghost predicate FaithfulEvent(e: DepthEvent, bids: int -> Side, asks: int -> Side) {
    && e.previousFinalId < e.firstId
    && CarriesChanges(e.bids, bids, e.previousFinalId, e.finalId)
    && CarriesChanges(e.asks, asks, e.previousFinalId, e.finalId)
  }

  ghost predicate FaithfulSnapshot(snapshot: Snapshot, bids: int -> Side, asks: int -> Side) {
    && SnapshotSide(snapshot.bids) == bids(snapshot.lastUpdateId)
    && SnapshotSide(snapshot.asks) == asks(snapshot.lastUpdateId)
  }

  // The claim of the component: a bootstrapped book is the exchange's book.
  ghost predicate Mirrors(s: BookState, bids: int -> Side, asks: int -> Side) {
    s.updateId.Some? ==> s.book == Book(bids(s.updateId.value), asks(s.updateId.value))
  }

  // ---- lemmas about levels ----

  lemma {:induction false} ApplyLevelsMeaning(side: Side, levels: Levels, price: real)
    ensures Quantity(ApplyLevels(side, levels), price)
         == (match Carried(levels, price) case Some(q) => q case None => Quantity(side, price))
  {
    if levels != [] {
      ApplyLevelsMeaning(side, levels[..|levels| - 1], price);
    }
  }

  lemma {:induction false} ApplyLevelsKeepsNoZero(side: Side, levels: Levels)
    requires NoZeroLevel(side)
    ensures NoZeroLevel(ApplyLevels(side, levels))
  {
    if levels != [] {
      ApplyLevelsKeepsNoZero(side, levels[..|levels| - 1]);
    }
  }

  lemma SameQuantitiesSameSide(a: Side, b: Side)
    requires NoZeroLevel(a) && NoZeroLevel(b)
    requires forall price :: Quantity(a, price) == Quantity(b, price)
    ensures a == b
  {
    forall price
      ensures price in a <==> price in b
      ensures price in a ==> a[price] == b[price]
    {
      assert Quantity(a, price) == Quantity(b, price);
    }
  }

  // Applying an event to the true side at any id inside [pu, u] gives the true side at u.
  lemma OverlapCatchesUp(levels: Levels, side: int -> Side, from: int, at: int, upto: int)
    requires ExchangeSide(side) && CarriesChanges(levels, side, from, upto) && from <= at <= upto
    ensures ApplyLevels(side(at), levels) == side(upto)
  {
    ApplyLevelsKeepsNoZero(side(at), levels);
    forall price
      ensures Quantity(ApplyLevels(side(at), levels), price) == Quantity(side(upto), price)
    {
      ApplyLevelsMeaning(side(at), levels, price);
    }
    SameQuantitiesSameSide(ApplyLevels(side(at), levels), side(upto));
  }

  lemma OverlayMirrors(s: BookState, e: DepthEvent, bids: int -> Side, asks: int -> Side)
    requires ExchangeSide(bids) && ExchangeSide(asks) && Mirrors(s, bids, asks) && s.updateId.Some?
    requires FaithfulEvent(e, bids, asks) && e.previousFinalId <= s.updateId.value <= e.finalId
    ensures Mirrors(Overlay(s, e), bids, asks)
  {
    OverlapCatchesUp(e.bids, bids, e.previousFinalId, s.updateId.value, e.finalId);
    OverlapCatchesUp(e.asks, asks, e.previousFinalId, s.updateId.value, e.finalId);
  }

  lemma {:induction false} ApplyAllMirrors(s: BookState, events: seq<DepthEvent>, bids: int -> Side, asks: int -> Side)
    requires ExchangeSide(bids) && ExchangeSide(asks) && Mirrors(s, bids, asks)
    requires forall e | e in events :: FaithfulEvent(e, bids, asks)
    ensures Mirrors(ApplyAll(s, events).0, bids, asks)
    decreases |events|
  {
    if events != [] {
      var before := events[..|events| - 1];
      var e := events[|events| - 1];
      ApplyAllMirrors(s, before, bids, asks);
      var (t, outcome) := ApplyAll(s, before);
      assert FaithfulEvent(e, bids, asks);
      if t.updateId.Some? && e.finalId > t.updateId.value && e.previousFinalId == t.updateId.value {
        OverlayMirrors(t, e, bids, asks);
      }
    }
  }

  lemma {:induction false} NotBeforeSelects(events: seq<DepthEvent>, id: int)
    ensures forall e :: e in NotBefore(events, id) <==> e in events && e.finalId >= id
  {
    if events != [] {
      NotBeforeSelects(events[..|events| - 1], id);
      assert events == events[..|events| - 1] + [events[|events| - 1]];
    }
  }

  lemma BootstrapMirrors(s: BookState, snapshot: Snapshot, buffered: seq<DepthEvent>, bids: int -> Side,
                         asks: int -> Side)
    requires ExchangeSide(bids) && ExchangeSide(asks) && Mirrors(s, bids, asks)
    requires FaithfulSnapshot(snapshot, bids, asks)
    requires forall e | e in buffered :: FaithfulEvent(e, bids, asks)
    ensures Mirrors(Bootstrap(s, snapshot, buffered).0, bids, asks)
  {
    var events := NotBefore(buffered, snapshot.lastUpdateId);
    NotBeforeSelects(buffered, snapshot.lastUpdateId);
    if events != [] && Bridges(events[0], snapshot.lastUpdateId) {
      assert events[0] in events;
      OverlayMirrors(Snapped(snapshot), events[0], bids, asks);
      assert forall e | e in events[1..] :: e in events;
      ApplyAllMirrors(Overlay(Snapped(snapshot), events[0]), events[1..], bids, asks);
    }
  }

  lemma ExchangeHasNoZero(side: int -> Side, id: int)
    requires ExchangeSide(side)
    ensures NoZeroLevel(side(id))
  {
  }

  // ---- whole runs ----

  datatype Call = Feed(event: DepthEvent) | Join(snapshot: Snapshot, buffered: seq<DepthEvent>) | Drop

  function Do(s: BookState, call: Call): BookState {
    match call
    case Feed(e) => Apply(s, e).0
    case Join(snapshot, buffered) => Bootstrap(s, snapshot, buffered).0
    case Drop => EMPTY_STATE
  }

  function Run(s: BookState, calls: seq<Call>): BookState {
    if calls == [] then s else Do(Run(s, calls[..|calls| - 1]), calls[|calls| - 1])
  }

  ghost predicate FaithfulCall(call: Call, bids: int -> Side, asks: int -> Side) {
    match call
    case Feed(e) => FaithfulEvent(e, bids, asks)
    case Join(snapshot, buffered) =>
      FaithfulSnapshot(snapshot, bids, asks) && forall e | e in buffered :: FaithfulEvent(e, bids, asks)
    case Drop => true
  }

  // In every reachable state a bootstrapped book is the exchange's book at its
  // update id, and no level with quantity zero is stored.
  lemma {:induction false} EveryRunMirrorsExchange(calls: seq<Call>, bids: int -> Side, asks: int -> Side)
    requires ExchangeSide(bids) && ExchangeSide(asks)
    requires forall call | call in calls :: FaithfulCall(call, bids, asks)
    ensures Mirrors(Run(EMPTY_STATE, calls), bids, asks)
    ensures Run(EMPTY_STATE, calls).updateId.Some? ==>
              var book := Run(EMPTY_STATE, calls).book;
              NoZeroLevel(book.bids) && NoZeroLevel(book.asks)
  {
    if calls != [] {
      EveryRunMirrorsExchange(calls[..|calls| - 1], bids, asks);
      var s := Run(EMPTY_STATE, calls[..|calls| - 1]);
      assert FaithfulCall(calls[|calls| - 1], bids, asks);
      match calls[|calls| - 1]
      case Feed(e) =>
        ApplyAllMirrors(s, [e], bids, asks);
        assert ApplyAll(s, [e]).0 == Apply(s, e).0 by { ApplyAllOne(s, e); }
      case Join(snapshot, buffered) => BootstrapMirrors(s, snapshot, buffered, bids, asks);
      case Drop =>
    }
    var end := Run(EMPTY_STATE, calls);
    if end.updateId.Some? {
      ExchangeHasNoZero(bids, end.updateId.value);
      ExchangeHasNoZero(asks, end.updateId.value);
    }
  }

  // Whatever is fed in, faithful or not, no level with quantity zero is ever stored.
  ghost predicate StoresNoZero(s: BookState) {
    NoZeroLevel(s.book.bids) && NoZeroLevel(s.book.asks)
  }

  lemma {:induction false} SnapshotHasNoZero(levels: Levels)
    ensures NoZeroLevel(SnapshotSide(levels))
  {
    if levels != [] { SnapshotHasNoZero(levels[..|levels| - 1]); }
  }

  lemma OverlayStoresNoZero(s: BookState, e: DepthEvent)
    requires StoresNoZero(s)
    ensures StoresNoZero(Overlay(s, e))
  {
    ApplyLevelsKeepsNoZero(s.book.bids, e.bids);
    ApplyLevelsKeepsNoZero(s.book.asks, e.asks);
  }

  lemma {:induction false} ApplyAllStoresNoZero(s: BookState, events: seq<DepthEvent>)
    requires StoresNoZero(s)
    ensures StoresNoZero(ApplyAll(s, events).0)
    decreases |events|
  {
    if events != [] {
      ApplyAllStoresNoZero(s, events[..|events| - 1]);
      OverlayStoresNoZero(ApplyAll(s, events[..|events| - 1]).0, events[|events| - 1]);
    }
  }

  lemma {:induction false} EveryRunStoresNoZero(calls: seq<Call>)
    ensures StoresNoZero(Run(EMPTY_STATE, calls))
  {
    if calls != [] {
      var s := Run(EMPTY_STATE, calls[..|calls| - 1]);
      EveryRunStoresNoZero(calls[..|calls| - 1]);
      match calls[|calls| - 1]
      case Feed(e) => OverlayStoresNoZero(s, e);
      case Join(snapshot, buffered) =>
        var events := NotBefore(buffered, snapshot.lastUpdateId);
        SnapshotHasNoZero(snapshot.bids);
        SnapshotHasNoZero(snapshot.asks);
        if events != [] {
          OverlayStoresNoZero(Snapped(snapshot), events[0]);
          ApplyAllStoresNoZero(Overlay(Snapped(snapshot), events[0]), events[1..]);
        }
      case Drop =>
    }
  }

  lemma ApplyAllOne(s: BookState, e: DepthEvent)
    ensures ApplyAll(s, [e]) == Apply(s, e)
  {
    assert [e][..0] == [];
    assert ApplyAll(s, []) == (s, Accepted(0));
  }

  // ---- truncated snapshots ----

  // The prices whose quantity the local book has learnt, from the snapshot or from an applied event.
  datatype Known = Known(bids: set<real>, asks: set<real>)

  function Prices(levels: Levels): set<real> {
    set i | 0 <= i < |levels| :: levels[i].0
  }

  function Learn(known: Known, e: DepthEvent): Known {
    Known(known.bids + Prices(e.bids), known.asks + Prices(e.asks))
  }

  predicate Applies(s: BookState, e: DepthEvent) {
    s.updateId.Some? && e.finalId > s.updateId.value && e.previousFinalId == s.updateId.value
  }

  function KnownAfterAll(s: BookState, known: Known, events: seq<DepthEvent>): Known
    decreases |events|
  {
    if events == [] then known
    else
      var init, e := events[..|events| - 1], events[|events| - 1];
      if Applies(ApplyAll(s, init).0, e) then Learn(KnownAfterAll(s, known, init), e) else KnownAfterAll(s, known, init)
  }

  function KnownAfter(s: BookState, known: Known, call: Call): Known {
    match call
    case Feed(e) => if Applies(s, e) then Learn(known, e) else known
    case Join(snapshot, buffered) =>
      var events := NotBefore(buffered, snapshot.lastUpdateId);
      if events == [] || !Bridges(events[0], snapshot.lastUpdateId) then known
      else KnownAfterAll(Overlay(Snapped(snapshot), events[0]),
                         Learn(Known(Prices(snapshot.bids), Prices(snapshot.asks)), events[0]), events[1..])
    case Drop => known
  }

  function KnownIn(calls: seq<Call>): Known {
    if calls == [] then Known({}, {})
    else KnownAfter(Run(EMPTY_STATE, calls[..|calls| - 1]), KnownIn(calls[..|calls| - 1]), calls[|calls| - 1])
  }

  // The snapshot lists true quantities, but perhaps not every price.
  ghost predicate TruncatedSnapshot(snapshot: Snapshot, bids: int -> Side, asks: int -> Side) {
    && AgreeAt(SnapshotSide(snapshot.bids), bids(snapshot.lastUpdateId), Prices(snapshot.bids))
    && AgreeAt(SnapshotSide(snapshot.asks), asks(snapshot.lastUpdateId), Prices(snapshot.asks))
  }

  ghost predicate AgreeAt(a: Side, b: Side, prices: set<real>) {
    forall price | price in prices :: Quantity(a, price) == Quantity(b, price)
  }

  ghost predicate MirrorsKnown(s: BookState, known: Known, bids: int -> Side, asks: int -> Side) {
    s.updateId.Some? ==>
      && AgreeAt(s.book.bids, bids(s.updateId.value), known.bids)
      && AgreeAt(s.book.asks, asks(s.updateId.value), known.asks)
  }

  lemma {:induction false} CarriedPrices(levels: Levels, price: real)
    ensures Carried(levels, price).Some? <==> price in Prices(levels)
  {
    if levels != [] {
      var init, last := levels[..|levels| - 1], levels[|levels| - 1];
      CarriedPrices(init, price);
      assert levels[|levels| - 1].0 in Prices(levels);
      if price in Prices(init) {
        var i :| 0 <= i < |init| && init[i].0 == price;
        assert levels[i].0 == price;
      }
      if price in Prices(levels) && price != last.0 {
        var i :| 0 <= i < |levels| && levels[i].0 == price;
        assert init[i].0 == price;
      }
    }
  }

  // Applying an event corrects the prices it carries and keeps the known ones true.
  lemma OverlapCorrects(local: Side, known: set<real>, levels: Levels, side: int -> Side, from: int, at: int, upto: int)
    requires CarriesChanges(levels, side, from, upto) && from <= at <= upto && AgreeAt(local, side(at), known)
    ensures AgreeAt(ApplyLevels(local, levels), side(upto), known + Prices(levels))
  {
    forall price | price in known + Prices(levels)
      ensures Quantity(ApplyLevels(local, levels), price) == Quantity(side(upto), price)
    {
      ApplyLevelsMeaning(local, levels, price);
      CarriedPrices(levels, price);
    }
  }

  lemma OverlayMirrorsKnown(s: BookState, known: Known, e: DepthEvent, bids: int -> Side, asks: int -> Side)
    requires MirrorsKnown(s, known, bids, asks) && s.updateId.Some?
    requires FaithfulEvent(e, bids, asks) && e.previousFinalId <= s.updateId.value <= e.finalId
    ensures MirrorsKnown(Overlay(s, e), Learn(known, e), bids, asks)
  {
    OverlapCorrects(s.book.bids, known.bids, e.bids, bids, e.previousFinalId, s.updateId.value, e.finalId);
    OverlapCorrects(s.book.asks, known.asks, e.asks, asks, e.previousFinalId, s.updateId.value, e.finalId);
  }

  lemma {:induction false} ApplyAllMirrorsKnown(s: BookState, known: Known, events: seq<DepthEvent>,
                                                bids: int -> Side, asks: int -> Side)
    requires MirrorsKnown(s, known, bids, asks) && forall e | e in events :: FaithfulEvent(e, bids, asks)
    ensures MirrorsKnown(ApplyAll(s, events).0, KnownAfterAll(s, known, events), bids, asks)
    decreases |events|
  {
    if events != [] {
      var init, e := events[..|events| - 1], events[|events| - 1];
      ApplyAllMirrorsKnown(s, known, init, bids, asks);
      assert FaithfulEvent(e, bids, asks);
      if Applies(ApplyAll(s, init).0, e) {
        OverlayMirrorsKnown(ApplyAll(s, init).0, KnownAfterAll(s, known, init), e, bids, asks);
        AppliesIsAccepted(s, init);
      }
    }
  }

  // A run that ended in a SequenceGap applies nothing more.
  lemma {:induction false} AppliesIsAccepted(s: BookState, events: seq<DepthEvent>)
    requires ApplyAll(s, events).0.updateId.Some?
    ensures ApplyAll(s, events).1.Accepted?
    decreases |events|
  {
    if events != [] && ApplyAll(s, events[..|events| - 1]).0.updateId.Some? {
      AppliesIsAccepted(s, events[..|events| - 1]);
    }
  }

  ghost predicate FaithfulTruncatedCall(call: Call, bids: int -> Side, asks: int -> Side) {
    match call
    case Feed(e) => FaithfulEvent(e, bids, asks)
    case Join(snapshot, buffered) =>
      TruncatedSnapshot(snapshot, bids, asks) && forall e | e in buffered :: FaithfulEvent(e, bids, asks)
    case Drop => true
  }

  lemma CallMirrorsKnown(s: BookState, known: Known, call: Call, bids: int -> Side, asks: int -> Side)
    requires MirrorsKnown(s, known, bids, asks) && FaithfulTruncatedCall(call, bids, asks)
    ensures MirrorsKnown(Do(s, call), KnownAfter(s, known, call), bids, asks)
  {
    match call
    case Feed(e) => if Applies(s, e) { OverlayMirrorsKnown(s, known, e, bids, asks); }
    case Join(snapshot, buffered) =>
      var events := NotBefore(buffered, snapshot.lastUpdateId);
      NotBeforeSelects(buffered, snapshot.lastUpdateId);
      if events != [] && Bridges(events[0], snapshot.lastUpdateId) {
        var listed := Known(Prices(snapshot.bids), Prices(snapshot.asks));
        assert events[0] in events;
        OverlayMirrorsKnown(Snapped(snapshot), listed, events[0], bids, asks);
        assert forall e | e in events[1..] :: e in events;
        ApplyAllMirrorsKnown(Overlay(Snapped(snapshot), events[0]), Learn(listed, events[0]), events[1..], bids, asks);
      }
    case Drop =>
  }

  // With snapshots cut at a depth limit: in every reachable bootstrapped state, the local quantity of
  // every price that the snapshot listed or an applied event carried is the exchange's.
  lemma {:induction false} EveryRunMirrorsKnownPrices(calls: seq<Call>, bids: int -> Side, asks: int -> Side)
    requires forall call | call in calls :: FaithfulTruncatedCall(call, bids, asks)
    ensures MirrorsKnown(Run(EMPTY_STATE, calls), KnownIn(calls), bids, asks)
  {
    if calls != [] {
      var init := calls[..|calls| - 1];
      EveryRunMirrorsKnownPrices(init, bids, asks);
      assert FaithfulTruncatedCall(calls[|calls| - 1], bids, asks);
      CallMirrorsKnown(Run(EMPTY_STATE, init), KnownIn(init), calls[|calls| - 1], bids, asks);
    }
  }

  // ---- bootstrap split invariance ----

  lemma {:induction false} ApplyAllConcat(s: BookState, a: seq<DepthEvent>, b: seq<DepthEvent>)
    requires ApplyAll(s, a).1.Accepted?
    ensures var (mid, first) := ApplyAll(s, a); var (end, second) := ApplyAll(mid, b);
            ApplyAll(s, a + b)
              == (end, if second.SequenceGap? then SequenceGap else Accepted(first.count + second.count))
    decreases |b|
  {
    if b == [] {
      assert a + b == a;
    } else {
      ApplyAllConcat(s, a, b[..|b| - 1]);
      assert (a + b)[..|a + b| - 1] == a + b[..|b| - 1];
    }
  }

  lemma ApplyAllSnoc(s: BookState, events: seq<DepthEvent>, e: DepthEvent)
    ensures var (mid, first) := ApplyAll(s, events); var (end, step) := Apply(mid, e);
            ApplyAll(s, events + [e])
              == if first.SequenceGap? then (mid, SequenceGap)
                 else (end, if step.SequenceGap? then SequenceGap else Accepted(first.count + step.count))
  {
    assert (events + [e])[..|events|] == events;
  }

  // While events are accepted the book's id never falls.
  lemma {:induction false} IdNeverFalls(s: BookState, events: seq<DepthEvent>)
    requires s.updateId.Some?
    ensures var (end, outcome) := ApplyAll(s, events);
            outcome.Accepted? ==> end.updateId.Some? && s.updateId.value <= end.updateId.value
    decreases |events|
  {
    if events != [] { IdNeverFalls(s, events[..|events| - 1]); }
  }

  // Events older than the book are skipped, so filtering them first changes nothing.
  lemma {:induction false} StaleEventsAreSkipped(s: BookState, events: seq<DepthEvent>, id: int)
    requires s.updateId.Some? && id <= s.updateId.value
    ensures ApplyAll(s, NotBefore(events, id)) == ApplyAll(s, events)
    decreases |events|
  {
    if events != [] {
      var before, e := events[..|events| - 1], events[|events| - 1];
      StaleEventsAreSkipped(s, before, id);
      assert events == before + [e];
      ApplyAllSnoc(s, before, e);
      if e.finalId >= id {
        ApplyAllSnoc(s, NotBefore(before, id), e);
      } else {
        IdNeverFalls(s, before);
      }
    }
  }

  lemma {:induction false} NotBeforeConcat(a: seq<DepthEvent>, b: seq<DepthEvent>, id: int)
    ensures NotBefore(a + b, id) == NotBefore(a, id) + NotBefore(b, id)
  {
    if b == [] {
      assert a + b == a;
    } else {
      NotBeforeConcat(a, b[..|b| - 1], id);
      assert (a + b)[..|a + b| - 1] == a + b[..|b| - 1];
    }
  }

  // Bootstrapping on `buffered + later` is bootstrapping on `buffered` and then
  // applying `later` one by one: same book, same count, same SequenceGap.
  lemma BootstrapSplits(s: BookState, snapshot: Snapshot, buffered: seq<DepthEvent>, later: seq<DepthEvent>)
    requires Bootstrap(s, snapshot, buffered).1.Accepted?
    ensures var (mid, first) := Bootstrap(s, snapshot, buffered);
            var (end, second) := ApplyAll(mid, later);
            Bootstrap(s, snapshot, buffered + later)
              == (end, if second.SequenceGap? then SequenceGap else Accepted(first.count + second.count))
  {
    var id := snapshot.lastUpdateId;
    var early, late := NotBefore(buffered, id), NotBefore(later, id);
    assert NotBefore(buffered + later, id) == [early[0]] + (early[1..] + late) by {
      NotBeforeConcat(buffered, later, id);
      assert early == [early[0]] + early[1..];
    }
    BootstrapBody(s, snapshot, buffered, early[0], early[1..]);
    BootstrapBody(s, snapshot, buffered + later, early[0], early[1..] + late);
    FilteredTail(Overlay(Snapped(snapshot), early[0]), early[1..], later, id);
  }

  lemma BootstrapBody(s: BookState, snapshot: Snapshot, buffered: seq<DepthEvent>, first: DepthEvent,
                      rest: seq<DepthEvent>)
    requires NotBefore(buffered, snapshot.lastUpdateId) == [first] + rest && Bridges(first, snapshot.lastUpdateId)
    ensures var (after, outcome) := ApplyAll(Overlay(Snapped(snapshot), first), rest);
            Bootstrap(s, snapshot, buffered)
              == (after, if outcome.SequenceGap? then SequenceGap else Accepted(1 + outcome.count))
  {
    assert ([first] + rest)[1..] == rest;
  }

  // Applying `a` and then the fresh part of `b` is applying `a` and then all of `b`.
  lemma FilteredTail(s: BookState, a: seq<DepthEvent>, b: seq<DepthEvent>, id: int)
    requires s.updateId.Some? && id <= s.updateId.value && ApplyAll(s, a).1.Accepted?
    ensures var (mid, first) := ApplyAll(s, a); var (end, second) := ApplyAll(mid, b);
            ApplyAll(s, a + NotBefore(b, id))
              == (end, if second.SequenceGap? then SequenceGap else Accepted(first.count + second.count))
  {
    IdNeverFalls(s, a);
    StaleEventsAreSkipped(ApplyAll(s, a).0, b, id);
    SameTail(s, a, NotBefore(b, id), b);
  }

  lemma SameTail(s: BookState, a: seq<DepthEvent>, b: seq<DepthEvent>, c: seq<DepthEvent>)
    requires ApplyAll(s, a).1.Accepted? && ApplyAll(ApplyAll(s, a).0, b) == ApplyAll(ApplyAll(s, a).0, c)
    ensures var (mid, first) := ApplyAll(s, a); var (end, second) := ApplyAll(mid, c);
            ApplyAll(s, a + b)
              == (end, if second.SequenceGap? then SequenceGap else Accepted(first.count + second.count))
  {
    ApplyAllConcat(s, a, b);
  }

  // A run of `apply` that hits a SequenceGap leaves the book reset.
  lemma {:induction false} GapLeavesBookReset(s: BookState, events: seq<DepthEvent>)
    requires s.updateId.Some?
    ensures ApplyAll(s, events).1.SequenceGap? ==> ApplyAll(s, events).0 == EMPTY_STATE
    ensures ApplyAll(s, events).1.Accepted? ==> ApplyAll(s, events).0.updateId.Some?
    decreases |events|
  {
    if events != [] {
      GapLeavesBookReset(s, events[..|events| - 1]);
    }
  }

  function LastId(id: int, events: seq<DepthEvent>): int {
    if events == [] then id else events[|events| - 1].finalId
  }

  // Every event starts from the id the one before it (or the book) ended at.
  predicate Unbroken(id: int, events: seq<DepthEvent>) {
    events != [] ==>
      var before, e := events[..|events| - 1], events[|events| - 1];
      Unbroken(id, before) && e.previousFinalId == LastId(id, before) < e.finalId
  }

  // An unbroken stream that bridges the snapshot is accepted in full.
  lemma {:induction false} UnbrokenStreamIsAccepted(s: BookState, events: seq<DepthEvent>)
    requires s.updateId.Some?
    requires Unbroken(s.updateId.value, events)
    ensures ApplyAll(s, events).1 == Accepted(|events|)
    ensures ApplyAll(s, events).0.updateId == Some(LastId(s.updateId.value, events))
    decreases |events|
  {
    if events != [] {
      UnbrokenStreamIsAccepted(s, events[..|events| - 1]);
    }
  }

  // Events that were applied are stale when they come again: nothing changes and nothing is counted.
  lemma {:induction false} ReplayIsIgnored(s: BookState, events: seq<DepthEvent>)
    requires s.updateId.Some? && forall e | e in events :: e.finalId <= s.updateId.value
    ensures ApplyAll(s, events) == (s, Accepted(0))
    decreases |events|
  {
    if events != [] {
      assert events[|events| - 1] in events;
      ReplayIsIgnored(s, events[..|events| - 1]);
    }
  }

  // ---- exactly when a bootstrap is accepted, on the ids alone ----

  // Event k is the first that reaches the snapshot's id.
  ghost predicate FirstToReach(buffered: seq<DepthEvent>, id: int, k: int) {
    0 <= k < |buffered| && id <= buffered[k].finalId && forall j | 0 <= j < k :: buffered[j].finalId < id
  }

  // The events from k up to (not including) n follow on one another.
  ghost predicate Continuous(buffered: seq<DepthEvent>, k: int, n: int) {
    0 <= k < n <= |buffered|
    && forall j | k < j < n :: buffered[j].previousFinalId == buffered[j - 1].finalId < buffered[j].finalId
  }

  lemma {:induction false} NotBeforeNone(events: seq<DepthEvent>, id: int)
    requires forall j | 0 <= j < |events| :: events[j].finalId < id
    ensures NotBefore(events, id) == []
  {
    if events != [] { NotBeforeNone(events[..|events| - 1], id); }
  }

  lemma {:induction false} NotBeforeAll(events: seq<DepthEvent>, id: int)
    requires forall j | 0 <= j < |events| :: id <= events[j].finalId
    ensures NotBefore(events, id) == events
  {
    if events != [] { NotBeforeAll(events[..|events| - 1], id); }
  }

  lemma {:induction false} ContinuousAscends(buffered: seq<DepthEvent>, k: int, n: int, j: int)
    requires Continuous(buffered, k, n) && k <= j < n
    ensures buffered[k].finalId <= buffered[j].finalId
    decreases j
  {
    if k < j { ContinuousAscends(buffered, k, n, j - 1); }
  }

  lemma StaleHead(stale: seq<DepthEvent>, tail: seq<DepthEvent>, id: int)
    requires forall j | 0 <= j < |stale| :: stale[j].finalId < id
    ensures NotBefore(stale + tail, id) == NotBefore(tail, id)
  {
    NotBeforeNone(stale, id);
    NotBeforeConcat(stale, tail, id);
  }

  lemma FreshHead(e: DepthEvent, tail: seq<DepthEvent>, id: int)
    requires id <= e.finalId
    ensures NotBefore([e] + tail, id) == [e] + NotBefore(tail, id)
  {
    NotBeforeConcat([e], tail, id);
    NotBeforeAll([e], id);
  }

  // What the filter keeps starts with event k.
  lemma FilteredFromFirst(buffered: seq<DepthEvent>, id: int, k: int)
    requires FirstToReach(buffered, id, k)
    ensures NotBefore(buffered, id) == [buffered[k]] + NotBefore(buffered[k + 1..], id)
  {
    StaleHead(buffered[..k], buffered[k..], id);
    FreshHead(buffered[k], buffered[k + 1..], id);
    assert buffered[..k] + buffered[k..] == buffered;
    assert [buffered[k]] + buffered[k + 1..] == buffered[k..];
  }

  lemma FilteredContinuous(buffered: seq<DepthEvent>, id: int, k: int, n: int)
    requires FirstToReach(buffered, id, k) && Continuous(buffered, k, n)
    ensures NotBefore(buffered[..n], id) == [buffered[k]] + buffered[k + 1..n]
  {
    var rest := buffered[k + 1..n];
    FilteredFromFirst(buffered[..n], id, k);
    assert buffered[..n][k + 1..] == rest;
    forall j | 0 <= j < |rest| ensures id <= rest[j].finalId {
      ContinuousAscends(buffered, k, n, k + 1 + j);
    }
    NotBeforeAll(rest, id);
  }

  lemma {:induction false} ContinuousIsUnbroken(buffered: seq<DepthEvent>, k: int, n: int)
    requires Continuous(buffered, k, n)
    ensures Unbroken(buffered[k].finalId, buffered[k + 1..n])
    ensures LastId(buffered[k].finalId, buffered[k + 1..n]) == buffered[n - 1].finalId
    decreases n
  {
    if n > k + 1 {
      ContinuousIsUnbroken(buffered, k, n - 1);
      assert buffered[k + 1..n][..n - k - 2] == buffered[k + 1..n - 1];
    }
  }

  // The part of the buffer that was applied before the first break, if there is one.
  lemma BootstrapUpTo(s: BookState, snapshot: Snapshot, buffered: seq<DepthEvent>, k: int, n: int)
    requires FirstToReach(buffered, snapshot.lastUpdateId, k) && buffered[k].firstId <= snapshot.lastUpdateId
    requires Continuous(buffered, k, n)
    ensures Bootstrap(s, snapshot, buffered[..n]).1 == Accepted(n - k)
    ensures Bootstrap(s, snapshot, buffered[..n]).0.updateId == Some(buffered[n - 1].finalId)
  {
    FilteredContinuous(buffered, snapshot.lastUpdateId, k, n);
    ContinuousIsUnbroken(buffered, k, n);
    BridgedBody(s, snapshot, buffered[..n], buffered[k], buffered[k + 1..n], n - k, buffered[n - 1].finalId);
  }

  lemma BridgedBody(s: BookState, snapshot: Snapshot, buffered: seq<DepthEvent>, first: DepthEvent,
                    rest: seq<DepthEvent>, count: nat, last: int)
    requires NotBefore(buffered, snapshot.lastUpdateId) == [first] + rest && count == 1 + |rest|
    requires first.firstId <= snapshot.lastUpdateId <= first.finalId
    requires Unbroken(first.finalId, rest) && LastId(first.finalId, rest) == last
    ensures Bootstrap(s, snapshot, buffered).1 == Accepted(count)
    ensures Bootstrap(s, snapshot, buffered).0.updateId == Some(last)
  {
    BootstrapBody(s, snapshot, buffered, first, rest);
    UnbrokenStreamIsAccepted(Overlay(Snapped(snapshot), first), rest);
  }

  // A buffer whose first event to reach the snapshot's id starts no later than it, and whose later events
  // follow on without a break, is accepted from that event on and ends at its last id.
  lemma BridgedBufferIsAccepted(s: BookState, snapshot: Snapshot, buffered: seq<DepthEvent>, k: int)
    requires FirstToReach(buffered, snapshot.lastUpdateId, k) && buffered[k].firstId <= snapshot.lastUpdateId
    requires Continuous(buffered, k, |buffered|)
    ensures Bootstrap(s, snapshot, buffered).1 == Accepted(|buffered| - k)
    ensures Bootstrap(s, snapshot, buffered).0.updateId == Some(buffered[|buffered| - 1].finalId)
  {
    BootstrapUpTo(s, snapshot, buffered, k, |buffered|);
    assert buffered[..|buffered|] == buffered;
  }

  // If no event reaches the snapshot's id, or the first that does starts after it, the bootstrap is
  // refused and the book stays as it was.
  lemma UnbridgedBufferIsRefused(s: BookState, snapshot: Snapshot, buffered: seq<DepthEvent>)
    requires forall k | FirstToReach(buffered, snapshot.lastUpdateId, k) :: buffered[k].firstId > snapshot.lastUpdateId
    ensures Bootstrap(s, snapshot, buffered) == (s, SequenceGap)
  {
    var id := snapshot.lastUpdateId;
    if forall j | 0 <= j < |buffered| :: buffered[j].finalId < id {
      NotBeforeNone(buffered, id);
    } else {
      var k := FindFirst(buffered, id, |buffered|);
      FilteredFromFirst(buffered, id, k);
    }
  }

  // The first event to reach the id, if one of the first n does.
  ghost function FindFirst(buffered: seq<DepthEvent>, id: int, n: nat): (k: nat)
    requires n <= |buffered| && exists j | 0 <= j < n :: id <= buffered[j].finalId
    ensures k < n && FirstToReach(buffered, id, k)
  {
    if exists j | 0 <= j < n - 1 :: id <= buffered[j].finalId then FindFirst(buffered, id, n - 1) else n - 1
  }

  // The first event that is newer than the one before it but does not follow on it resets the book.
  lemma BrokenBufferResets(s: BookState, snapshot: Snapshot, buffered: seq<DepthEvent>, k: int, n: int)
    requires FirstToReach(buffered, snapshot.lastUpdateId, k) && buffered[k].firstId <= snapshot.lastUpdateId
    requires Continuous(buffered, k, n) && n < |buffered|
    requires buffered[n - 1].finalId < buffered[n].finalId && buffered[n].previousFinalId != buffered[n - 1].finalId
    ensures Bootstrap(s, snapshot, buffered) == (EMPTY_STATE, SequenceGap)
  {
    var later := buffered[n..];
    BootstrapUpTo(s, snapshot, buffered, k, n);
    BootstrapSplits(s, snapshot, buffered[..n], later);
    assert buffered == buffered[..n] + later;
    var mid := Bootstrap(s, snapshot, buffered[..n]).0;
    assert later[..1] == [] + [later[0]];
    ApplyAllSnoc(mid, [], later[0]);
    GapEndsRun(mid, later, 1, EMPTY_STATE);
  }

  // The snapshot's side: a price has the last non-zero quantity listed for it.
  lemma {:induction false} SnapshotMeaning(levels: Levels, price: real, i: int)
    requires 0 <= i < |levels| && levels[i].0 == price && levels[i].1 != 0.0
    requires forall j | i < j < |levels| :: levels[j].0 != price || levels[j].1 == 0.0
    ensures Quantity(SnapshotSide(levels), price) == levels[i].1
  {
    if i < |levels| - 1 { SnapshotMeaning(levels[..|levels| - 1], price, i); }
  }

  lemma {:induction false} SnapshotLacks(levels: Levels, price: real)
    requires forall j | 0 <= j < |levels| :: levels[j].0 != price || levels[j].1 == 0.0
    ensures price !in SnapshotSide(levels)
  {
    if levels != [] { SnapshotLacks(levels[..|levels| - 1], price); }
  }

  // ---- the mutable book ----

  class LocalOrderBook {
    var bids: Side
    var asks: Side
    var updateId: Option<int>

    constructor ()
      ensures State() == EMPTY_STATE
    {
      bids, asks, updateId := map[], map[], None;
    }

    ghost function State(): BookState
      reads this
    {
      BookState(Book(bids, asks), updateId)
    }

    method Reset()
      modifies this
      ensures State() == EMPTY_STATE
    {
      bids, asks, updateId := map[], map[], None;
    }

    method ApplyUpdates(event: DepthEvent)
      modifies this
      ensures State() == Overlay(old(State()), event)
    {
      ghost var before := bids;
      for i := 0 to |event.bids|
        invariant bids == ApplyLevels(before, event.bids[..i]) && asks == old(asks)
      {
        var (price, quantity) := event.bids[i];
        assert event.bids[..i + 1][..i] == event.bids[..i];
        if quantity == 0.0 { bids := bids - {price}; } else { bids := bids[price := quantity]; }
      }
      assert event.bids[..|event.bids|] == event.bids;
      for i := 0 to |event.asks|
        invariant asks == ApplyLevels(old(asks), event.asks[..i]) && bids == ApplyLevels(before, event.bids)
      {
        var (price, quantity) := event.asks[i];
        assert event.asks[..i + 1][..i] == event.asks[..i];
        if quantity == 0.0 { asks := asks - {price}; } else { asks := asks[price := quantity]; }
      }
      assert event.asks[..|event.asks|] == event.asks;
      updateId := Some(event.finalId);
    }

    method ApplyEvent(event: DepthEvent) returns (outcome: Outcome)
      modifies this
      ensures (State(), outcome) == Apply(old(State()), event)
    {
      if updateId.None? {
        return SequenceGap;
      }
      if event.finalId <= updateId.value {
        return Accepted(0);
      }
      if event.previousFinalId != updateId.value {
        Reset();
        return SequenceGap;
      }
      ApplyUpdates(event);
      return Accepted(1);
    }

    method BootstrapFrom(snapshot: Snapshot, buffered: seq<DepthEvent>) returns (outcome: Outcome)
      modifies this
      ensures (State(), outcome) == Bootstrap(old(State()), snapshot, buffered)
    {
      var last := snapshot.lastUpdateId;
      var events := NotBefore(buffered, last);
      if events == [] || !Bridges(events[0], last) {
        return SequenceGap;
      }
      bids, asks, updateId := SnapshotSide(snapshot.bids), SnapshotSide(snapshot.asks), Some(last);
      ApplyUpdates(events[0]);
      outcome := ApplyEach(events[1..]);
      outcome := if outcome.SequenceGap? then SequenceGap else Accepted(1 + outcome.count);
    }

    // The loop over the events after the bridging one; a SequenceGap leaves it.
    method ApplyEach(events: seq<DepthEvent>) returns (outcome: Outcome)
      modifies this
      ensures (State(), outcome) == ApplyAll(old(State()), events)
    {
      var applied: nat := 0;
      for i := 0 to |events|
        invariant ApplyAll(old(State()), events[..i]) == (State(), Accepted(applied))
      {
        ApplyAllSnoc(old(State()), events[..i], events[i]);
        assert events[..i + 1] == events[..i] + [events[i]];
        var step := ApplyEvent(events[i]);
        if step.SequenceGap? {
          GapEndsRun(old(State()), events, i + 1, State());
          return SequenceGap;
        }
        applied := applied + step.count;
      }
      assert events[..|events|] == events;
      return Accepted(applied);
    }
  }

  // After the first gap nothing later in the list is looked at.
  lemma {:induction false} GapEndsRun(s: BookState, events: seq<DepthEvent>, i: nat, end: BookState)
    requires i <= |events| && ApplyAll(s, events[..i]) == (end, SequenceGap)
    ensures ApplyAll(s, events) == (end, SequenceGap)
    decreases |events| - i
  {
    if i == |events| {
      assert events[..i] == events;
    } else {
      assert events[..i + 1][..i] == events[..i];
      GapEndsRun(s, events, i + 1, end);
    }
  }
}
