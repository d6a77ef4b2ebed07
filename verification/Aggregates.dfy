/**
 One day partition's raw tables (trades, book samples, gaps) and the bucket
 aggregates that every insert updates in place.  The aggregates must be the
 group-by of the distinct stored rows, whatever duplicates arrive.
 */
module Aggregates {
  import opened Options
  import opened Grid

  // ---- rows ----

  datatype AggressiveSide = Buy | Sell

  // `receivedAt` stands for the receive stamps that the payload digest also covers.
  datatype Trade = Trade(id: int, time: int, receivedAt: int, price: real, quantity: real, side: AggressiveSide)

  datatype BookStats = BookStats(spread: Option<real>, top1: Option<real>, top5: Option<real>, top20: Option<real>)

  datatype Sample = Sample(time: int, updateId: int, stats: BookStats, ofi: Option<real>)

  datatype Gap = Gap(id: int, start: int, end: int)

  // ---- aggregate columns ----

  datatype TradeTotals = TradeTotals(count: int, buyQuantity: real, sellQuantity: real, buyNotional: real,
                                     sellNotional: real)

  datatype SampleTotals = SampleTotals(count: int, spread: real, top1: real, top5: real, top20: real, ofi: real)

  datatype Totals = Totals(trades: TradeTotals, samples: SampleTotals, gaps: int)

  const NO_TRADES := TradeTotals(0, 0.0, 0.0, 0.0, 0.0)
  const NO_SAMPLES := SampleTotals(0, 0.0, 0.0, 0.0, 0.0, 0.0)
  const EMPTY_BUCKET := Totals(NO_TRADES, NO_SAMPLES, 0)

  function OrZero(v: Option<real>): real {
    if v.Some? then v.value else 0.0
  }

  function PlusTrade(a: TradeTotals, t: Trade): TradeTotals {
    var notional := t.quantity * t.price;
    match t.side
    case Buy => a.(count := a.count + 1, buyQuantity := a.buyQuantity + t.quantity,
                   buyNotional := a.buyNotional + notional)
    case Sell => a.(count := a.count + 1, sellQuantity := a.sellQuantity + t.quantity,
                    sellNotional := a.sellNotional + notional)
  }

  function PlusSample(a: SampleTotals, s: Sample): SampleTotals {
    SampleTotals(a.count + 1, a.spread + OrZero(s.stats.spread), a.top1 + OrZero(s.stats.top1),
                 a.top5 + OrZero(s.stats.top5), a.top20 + OrZero(s.stats.top20), a.ofi + OrZero(s.ofi))
  }

  // ---- buckets ----

  predicate GapHits(g: Gap, interval: int, bucket: int)
    requires IsInterval(interval)
  {
    Bucket(g.start, interval) <= bucket <= Bucket(g.end, interval) && Aligned(bucket, interval)
  }

  // ---- the group-by of the stored rows ----

  function TradesIn(trades: seq<Trade>, interval: int, bucket: int): TradeTotals
    requires IsInterval(interval)
  {
    if trades == [] then NO_TRADES
    else
      var rest, t := TradesIn(trades[..|trades| - 1], interval, bucket), trades[|trades| - 1];
      if Bucket(t.time, interval) == bucket then PlusTrade(rest, t) else rest
  }

  function SamplesIn(samples: seq<Sample>, interval: int, bucket: int): SampleTotals
    requires IsInterval(interval)
  {
    if samples == [] then NO_SAMPLES
    else
      var rest, s := SamplesIn(samples[..|samples| - 1], interval, bucket), samples[|samples| - 1];
      if Bucket(s.time, interval) == bucket then PlusSample(rest, s) else rest
  }

  function GapsIn(gaps: seq<Gap>, interval: int, bucket: int): int
    requires IsInterval(interval)
  {
    if gaps == [] then 0
    else GapsIn(gaps[..|gaps| - 1], interval, bucket) + if GapHits(gaps[|gaps| - 1], interval, bucket) then 1 else 0
  }

  type AggregateTable = map<(int, int), Totals>

  datatype Tables = Tables(trades: seq<Trade>, samples: seq<Sample>, gaps: seq<Gap>, aggregates: AggregateTable)

  function Row(aggregates: AggregateTable, interval: int, bucket: int): Totals {
    if (interval, bucket) in aggregates then aggregates[(interval, bucket)] else EMPTY_BUCKET
  }

  // The aggregates are the group-by of the rows at each of the three intervals.
  ghost predicate Grouped(t: Tables) {
    forall interval, bucket | IsInterval(interval) ::
      Row(t.aggregates, interval, bucket)
        == Totals(TradesIn(t.trades, interval, bucket), SamplesIn(t.samples, interval, bucket),
                  GapsIn(t.gaps, interval, bucket))
  }

  ghost predicate DistinctKeys(t: Tables) {
    && (forall i, j | 0 <= i < j < |t.trades| :: t.trades[i].id != t.trades[j].id)
    && (forall i, j | 0 <= i < j < |t.samples| ::
          t.samples[i].time != t.samples[j].time || t.samples[i].updateId != t.samples[j].updateId)
    && (forall i, j | 0 <= i < j < |t.gaps| :: t.gaps[i].id != t.gaps[j].id)
  }

  // ---- inserts ----

  function FindTrade(trades: seq<Trade>, id: int): Option<Trade> {
    if trades == [] then None
    else if trades[|trades| - 1].id == id then Some(trades[|trades| - 1])
    else FindTrade(trades[..|trades| - 1], id)
  }

  predicate HasSample(samples: seq<Sample>, time: int, updateId: int) {
    exists i | 0 <= i < |samples| :: samples[i].time == time && samples[i].updateId == updateId
  }

  predicate HasGap(gaps: seq<Gap>, id: int) {
    exists i | 0 <= i < |gaps| :: gaps[i].id == id
  }

  function UpsertTrade(aggregates: AggregateTable, t: Trade, interval: int): AggregateTable
    requires IsInterval(interval)
  {
    var bucket := Bucket(t.time, interval);
    var row := Row(aggregates, interval, bucket);
    aggregates[(interval, bucket) := row.(trades := PlusTrade(row.trades, t))]
  }

  function UpsertSample(aggregates: AggregateTable, s: Sample, interval: int): AggregateTable
    requires IsInterval(interval)
  {
    var bucket := Bucket(s.time, interval);
    var row := Row(aggregates, interval, bucket);
    aggregates[(interval, bucket) := row.(samples := PlusSample(row.samples, s))]
  }

  // Every bucket of range(bucket, last + 1, interval) gains one gap.
  function UpsertGaps(aggregates: AggregateTable, interval: int, bucket: int, last: int): AggregateTable
    requires IsInterval(interval)
    decreases last - bucket
  {
    if bucket > last then aggregates
    else
      var row := Row(aggregates, interval, bucket);
      UpsertGaps(aggregates[(interval, bucket) := row.(gaps := row.gaps + 1)], interval, bucket + interval, last)
  }

  function UpsertGap(aggregates: AggregateTable, g: Gap, interval: int): AggregateTable
    requires IsInterval(interval)
  {
    UpsertGaps(aggregates, interval, Bucket(g.start, interval), Bucket(g.end, interval))
  }

  function AppendTrade(t: Tables, trade: Trade): Tables {
    if FindTrade(t.trades, trade.id).Some? then t
    else t.(trades := t.trades + [trade],
            aggregates := UpsertTrade(UpsertTrade(UpsertTrade(t.aggregates, trade, 1_000), trade, 60_000), trade,
                                      900_000))
  }

  function AppendSample(t: Tables, s: Sample): Tables {
    if HasSample(t.samples, s.time, s.updateId) then t
    else t.(samples := t.samples + [s],
            aggregates := UpsertSample(UpsertSample(UpsertSample(t.aggregates, s, 1_000), s, 60_000), s, 900_000))
  }

  // A colliding row identity is refused by the table's key and nothing is committed.
  function AppendGap(t: Tables, g: Gap): Tables {
    if HasGap(t.gaps, g.id) then t
    else t.(gaps := t.gaps + [g],
            aggregates := UpsertGap(UpsertGap(UpsertGap(t.aggregates, g, 1_000), g, 60_000), g, 900_000))
  }

  // ---- every insert keeps the group-by ----

  lemma AppendTradeKeepsGrouped(t: Tables, trade: Trade)
    requires Grouped(t)
    ensures Grouped(AppendTrade(t, trade))
  {
    var after := AppendTrade(t, trade);
    if FindTrade(t.trades, trade.id).None? {
      forall interval, bucket | IsInterval(interval)
        ensures Row(after.aggregates, interval, bucket)
             == Totals(TradesIn(after.trades, interval, bucket), SamplesIn(after.samples, interval, bucket),
                       GapsIn(after.gaps, interval, bucket))
      {
        assert after.trades[..|t.trades|] == t.trades;
        assert Row(t.aggregates, interval, bucket).trades == TradesIn(t.trades, interval, bucket);
      }
    }
  }

  lemma AppendSampleKeepsGrouped(t: Tables, s: Sample)
    requires Grouped(t)
    ensures Grouped(AppendSample(t, s))
  {
    var after := AppendSample(t, s);
    if !HasSample(t.samples, s.time, s.updateId) {
      forall interval, bucket | IsInterval(interval)
        ensures Row(after.aggregates, interval, bucket)
             == Totals(TradesIn(after.trades, interval, bucket), SamplesIn(after.samples, interval, bucket),
                       GapsIn(after.gaps, interval, bucket))
      {
        assert after.samples[..|t.samples|] == t.samples;
        assert Row(t.aggregates, interval, bucket).samples == SamplesIn(t.samples, interval, bucket);
      }
    }
  }

  lemma {:induction false} UpsertGapsMeaning(aggregates: AggregateTable, interval: int, from: int, last: int, i: int,
                                             bucket: int)
    requires IsInterval(interval) && Aligned(from, interval)
    ensures var before := Row(aggregates, i, bucket);
            var after := Row(UpsertGaps(aggregates, interval, from, last), i, bucket);
            after == if i == interval && from <= bucket <= last && Aligned(bucket, interval)
                     then before.(gaps := before.gaps + 1) else before
    decreases last - from
  {
    if from <= last {
      var row := Row(aggregates, interval, from);
      if i == interval && Aligned(bucket, interval) { NextAligned(from, bucket, interval); }
      NextAligned(from, from, interval);
      UpsertGapsMeaning(aggregates[(interval, from) := row.(gaps := row.gaps + 1)], interval,
                        from + interval, last, i, bucket);
    }
  }

  lemma UpsertGapMeaning(aggregates: AggregateTable, g: Gap, interval: int, i: int, bucket: int)
    requires IsInterval(interval)
    ensures var before, after := Row(aggregates, i, bucket), Row(UpsertGap(aggregates, g, interval), i, bucket);
            after == if i == interval && GapHits(g, interval, bucket) then before.(gaps := before.gaps + 1) else before
  {
    BucketIsAligned(g.start, interval);
    UpsertGapsMeaning(aggregates, interval, Bucket(g.start, interval), Bucket(g.end, interval), i, bucket);
  }

  lemma AppendGapKeepsGrouped(t: Tables, g: Gap)
    requires Grouped(t)
    ensures Grouped(AppendGap(t, g))
  {
    var after := AppendGap(t, g);
    if !HasGap(t.gaps, g.id) {
      var one := UpsertGap(t.aggregates, g, 1_000);
      var two := UpsertGap(one, g, 60_000);
      forall interval, bucket | IsInterval(interval)
        ensures Row(after.aggregates, interval, bucket)
             == Totals(TradesIn(after.trades, interval, bucket), SamplesIn(after.samples, interval, bucket),
                       GapsIn(after.gaps, interval, bucket))
      {
        assert after.gaps[..|t.gaps|] == t.gaps;
        UpsertGapMeaning(t.aggregates, g, 1_000, interval, bucket);
        UpsertGapMeaning(one, g, 60_000, interval, bucket);
        UpsertGapMeaning(two, g, 900_000, interval, bucket);
      }
    }
  }

  // ---- whole runs ----

  datatype Insert = TradeRow(trade: Trade) | SampleRow(sample: Sample) | GapRow(gap: Gap)

  function Step(t: Tables, row: Insert): Tables {
    match row
    case TradeRow(trade) => AppendTrade(t, trade)
    case SampleRow(s) => AppendSample(t, s)
    case GapRow(g) => AppendGap(t, g)
  }

  function Run(rows: seq<Insert>): Tables {
    if rows == [] then Tables([], [], [], map[]) else Step(Run(rows[..|rows| - 1]), rows[|rows| - 1])
  }

  lemma {:induction false} FindTradeMeaning(trades: seq<Trade>, id: int)
    ensures FindTrade(trades, id).None? <==> forall i | 0 <= i < |trades| :: trades[i].id != id
  {
    if trades != [] { FindTradeMeaning(trades[..|trades| - 1], id); }
  }

  lemma StepKeepsDistinct(t: Tables, row: Insert)
    requires DistinctKeys(t)
    ensures DistinctKeys(Step(t, row))
  {
    match row
    case TradeRow(trade) => FindTradeMeaning(t.trades, trade.id);
    case SampleRow(s) =>
    case GapRow(g) =>
  }

  // After any inserts, duplicates included, the aggregates are the group-by of distinct stored rows.
  lemma {:induction false} EveryRunIsGrouped(rows: seq<Insert>)
    ensures Grouped(Run(rows)) && DistinctKeys(Run(rows))
  {
    if rows != [] {
      var before := Run(rows[..|rows| - 1]);
      EveryRunIsGrouped(rows[..|rows| - 1]);
      StepKeepsDistinct(before, rows[|rows| - 1]);
      match rows[|rows| - 1]
      case TradeRow(trade) => AppendTradeKeepsGrouped(before, trade);
      case SampleRow(s) => AppendSampleKeepsGrouped(before, s);
      case GapRow(g) => AppendGapKeepsGrouped(before, g);
    }
  }

  // ---- which rows are stored ----

  // Row i is the first insert of a trade with its id.
  ghost predicate FirstTrade(rows: seq<Insert>, i: int) {
    && 0 <= i < |rows| && rows[i].TradeRow?
    && forall j | 0 <= j < i && rows[j].TradeRow? :: rows[j].trade.id != rows[i].trade.id
  }

  ghost predicate FirstSample(rows: seq<Insert>, i: int) {
    && 0 <= i < |rows| && rows[i].SampleRow?
    && forall j | 0 <= j < i && rows[j].SampleRow? ::
         rows[j].sample.time != rows[i].sample.time || rows[j].sample.updateId != rows[i].sample.updateId
  }

  ghost predicate FirstGap(rows: seq<Insert>, i: int) {
    && 0 <= i < |rows| && rows[i].GapRow?
    && forall j | 0 <= j < i && rows[j].GapRow? :: rows[j].gap.id != rows[i].gap.id
  }

  // Every trade id that was inserted is stored.
  lemma {:induction false} TradeIdIsStored(rows: seq<Insert>, id: int)
    ensures FindTrade(Run(rows).trades, id).Some?
       <==> exists i | 0 <= i < |rows| :: rows[i].TradeRow? && rows[i].trade.id == id
  {
    if rows != [] {
      var init, last := rows[..|rows| - 1], rows[|rows| - 1];
      TradeIdIsStored(init, id);
      FindTradeMeaning(Run(init).trades, id);
      FindTradeMeaning(Run(rows).trades, id);
      if last.TradeRow? && last.trade.id == id { assert rows[|rows| - 1] == last; }
      if i :| 0 <= i < |init| && init[i].TradeRow? && init[i].trade.id == id { assert rows[i] == init[i]; }
      if i :| 0 <= i < |rows| && rows[i].TradeRow? && rows[i].trade.id == id {
        if i < |init| { assert init[i] == rows[i]; }
      }
    }
  }

  lemma {:induction false} SampleKeyIsStored(rows: seq<Insert>, time: int, updateId: int)
    ensures HasSample(Run(rows).samples, time, updateId)
       <==> exists i | 0 <= i < |rows| ::
              rows[i].SampleRow? && rows[i].sample.time == time && rows[i].sample.updateId == updateId
  {
    if rows != [] {
      var init, last, before, after := rows[..|rows| - 1], rows[|rows| - 1], Run(rows[..|rows| - 1]), Run(rows);
      SampleKeyIsStored(init, time, updateId);
      if last.SampleRow? && last.sample.time == time && last.sample.updateId == updateId {
        assert rows[|rows| - 1] == last;
        if |after.samples| > |before.samples| { assert after.samples[|before.samples|] == last.sample; }
      }
      if k :| 0 <= k < |before.samples| && before.samples[k].time == time && before.samples[k].updateId == updateId {
        assert after.samples[k] == before.samples[k];
      }
      if i :| 0 <= i < |init| && init[i].SampleRow? && init[i].sample.time == time
              && init[i].sample.updateId == updateId {
        assert rows[i] == init[i];
      }
      if i :| 0 <= i < |rows| && rows[i].SampleRow? && rows[i].sample.time == time
              && rows[i].sample.updateId == updateId {
        if i < |init| { assert init[i] == rows[i]; }
      }
    }
  }

  lemma {:induction false} GapIdIsStored(rows: seq<Insert>, id: int)
    ensures HasGap(Run(rows).gaps, id) <==> exists i | 0 <= i < |rows| :: rows[i].GapRow? && rows[i].gap.id == id
  {
    if rows != [] {
      var init, last, before, after := rows[..|rows| - 1], rows[|rows| - 1], Run(rows[..|rows| - 1]), Run(rows);
      GapIdIsStored(init, id);
      if last.GapRow? && last.gap.id == id {
        assert rows[|rows| - 1] == last;
        if |after.gaps| > |before.gaps| { assert after.gaps[|before.gaps|] == last.gap; }
      }
      if k :| 0 <= k < |before.gaps| && before.gaps[k].id == id { assert after.gaps[k] == before.gaps[k]; }
      if i :| 0 <= i < |init| && init[i].GapRow? && init[i].gap.id == id { assert rows[i] == init[i]; }
      if i :| 0 <= i < |rows| && rows[i].GapRow? && rows[i].gap.id == id {
        if i < |init| { assert init[i] == rows[i]; }
      }
    }
  }

  // After any inserts, exactly the first row of every key is stored, and later rows of the key change nothing.
  lemma {:induction false} FirstRowsAreStored(rows: seq<Insert>, i: int)
    ensures FirstTrade(rows, i) ==> rows[i].trade in Run(rows).trades
    ensures FirstSample(rows, i) ==> rows[i].sample in Run(rows).samples
    ensures FirstGap(rows, i) ==> rows[i].gap in Run(rows).gaps
    decreases |rows|
  {
    if 0 <= i < |rows| {
      var init := rows[..|rows| - 1];
      if i < |init| {
        assert init[i] == rows[i] && forall j | 0 <= j < i :: init[j] == rows[j];
        FirstRowsAreStored(init, i);
      } else {
        LastIsStored(rows);
      }
    }
  }

  lemma LastIsStored(rows: seq<Insert>)
    requires rows != []
    ensures var i := |rows| - 1;
            && (FirstTrade(rows, i) ==> rows[i].trade in Run(rows).trades)
            && (FirstSample(rows, i) ==> rows[i].sample in Run(rows).samples)
            && (FirstGap(rows, i) ==> rows[i].gap in Run(rows).gaps)
  {
    var init, last := rows[..|rows| - 1], rows[|rows| - 1];
    match last
    case TradeRow(trade) => TradeIdIsStored(init, trade.id);
    case SampleRow(s) => SampleKeyIsStored(init, s.time, s.updateId);
    case GapRow(g) => GapIdIsStored(init, g.id);
  }

  lemma {:induction false} OnlyInsertedIsStored(rows: seq<Insert>)
    ensures forall t | t in Run(rows).trades :: TradeRow(t) in rows
    ensures forall s | s in Run(rows).samples :: SampleRow(s) in rows
    ensures forall g | g in Run(rows).gaps :: GapRow(g) in rows
  {
    if rows != [] {
      OnlyInsertedIsStored(rows[..|rows| - 1]);
      assert rows == rows[..|rows| - 1] + [rows[|rows| - 1]];
    }
  }

  // ---- what the columns are ----

  ghost function SumOf<T(!new)>(rows: seq<T>, value: T -> real): real {
    if rows == [] then 0.0 else SumOf(rows[..|rows| - 1], value) + value(rows[|rows| - 1])
  }

  ghost function CountOf<T(!new)>(rows: seq<T>, counts: T -> bool): nat {
    if rows == [] then 0 else CountOf(rows[..|rows| - 1], counts) + if counts(rows[|rows| - 1]) then 1 else 0
  }

  predicate Within(time: int, interval: int, bucket: int) {
    bucket <= time < bucket + interval
  }

  // What a trade of the bucket adds to the columns of its aggressive side.
  ghost function QuantityOf(side: AggressiveSide, interval: int, bucket: int): Trade -> real {
    (t: Trade) => if Within(t.time, interval, bucket) && t.side == side then t.quantity else 0.0
  }

  ghost function NotionalOf(side: AggressiveSide, interval: int, bucket: int): Trade -> real {
    (t: Trade) => if Within(t.time, interval, bucket) && t.side == side then t.quantity * t.price else 0.0
  }

  // What a sample of the bucket adds: the value of one of its statistics, nothing if it has none.
  ghost function ValueOf(stat: Sample -> Option<real>, interval: int, bucket: int): Sample -> real {
    (s: Sample) => if Within(s.time, interval, bucket) && stat(s).Some? then stat(s).value else 0.0
  }

  lemma InBucketExactly(time: int, interval: int, bucket: int)
    requires IsInterval(interval) && Aligned(bucket, interval)
    ensures Bucket(time, interval) == bucket <==> Within(time, interval, bucket)
  {
    BucketIsAligned(time, interval);
    NextAligned(Bucket(time, interval), bucket, interval);
    NextAligned(bucket, Bucket(time, interval), interval);
  }

  lemma OneTrade(a: TradeTotals, t: Trade, after: TradeTotals)
    requires after == PlusTrade(a, t)
    ensures after.count == a.count + 1
    ensures after.buyQuantity == a.buyQuantity + if t.side == Buy then t.quantity else 0.0
    ensures after.sellQuantity == a.sellQuantity + if t.side == Sell then t.quantity else 0.0
    ensures after.buyNotional == a.buyNotional + if t.side == Buy then t.quantity * t.price else 0.0
    ensures after.sellNotional == a.sellNotional + if t.side == Sell then t.quantity * t.price else 0.0
  {
  }

  lemma {:induction false} QuantityColumns(trades: seq<Trade>, interval: int, bucket: int)
    requires IsInterval(interval) && Aligned(bucket, interval)
    ensures var totals := TradesIn(trades, interval, bucket);
            && totals.buyQuantity == SumOf(trades, QuantityOf(Buy, interval, bucket))
            && totals.sellQuantity == SumOf(trades, QuantityOf(Sell, interval, bucket))
  {
    if trades != [] {
      var before, t := TradesIn(trades[..|trades| - 1], interval, bucket), trades[|trades| - 1];
      QuantityColumns(trades[..|trades| - 1], interval, bucket);
      InBucketExactly(t.time, interval, bucket);
      OneTrade(before, t, PlusTrade(before, t));
    }
  }

  lemma {:induction false} NotionalColumns(trades: seq<Trade>, interval: int, bucket: int)
    requires IsInterval(interval) && Aligned(bucket, interval)
    ensures var totals := TradesIn(trades, interval, bucket);
            && totals.buyNotional == SumOf(trades, NotionalOf(Buy, interval, bucket))
            && totals.sellNotional == SumOf(trades, NotionalOf(Sell, interval, bucket))
  {
    if trades != [] {
      var before, t := TradesIn(trades[..|trades| - 1], interval, bucket), trades[|trades| - 1];
      NotionalColumns(trades[..|trades| - 1], interval, bucket);
      InBucketExactly(t.time, interval, bucket);
      OneTrade(before, t, PlusTrade(before, t));
    }
  }

  lemma {:induction false} TradeCountColumn(trades: seq<Trade>, interval: int, bucket: int)
    requires IsInterval(interval) && Aligned(bucket, interval)
    ensures TradesIn(trades, interval, bucket).count
         == CountOf(trades, (t: Trade) => Within(t.time, interval, bucket))
  {
    if trades != [] {
      TradeCountColumn(trades[..|trades| - 1], interval, bucket);
      InBucketExactly(trades[|trades| - 1].time, interval, bucket);
    }
  }

  // The trade columns of a bucket: how many trades fall into it, and the quantity and value of the
  // aggressive buys and of the aggressive sells.
  lemma TradeColumns(trades: seq<Trade>, interval: int, bucket: int)
    requires IsInterval(interval) && Aligned(bucket, interval)
    ensures var totals := TradesIn(trades, interval, bucket);
            && totals.count == CountOf(trades, (t: Trade) => Within(t.time, interval, bucket))
            && totals.buyQuantity == SumOf(trades, QuantityOf(Buy, interval, bucket))
            && totals.sellQuantity == SumOf(trades, QuantityOf(Sell, interval, bucket))
            && totals.buyNotional == SumOf(trades, NotionalOf(Buy, interval, bucket))
            && totals.sellNotional == SumOf(trades, NotionalOf(Sell, interval, bucket))
  {
    TradeCountColumn(trades, interval, bucket);
    QuantityColumns(trades, interval, bucket);
    NotionalColumns(trades, interval, bucket);
  }

  lemma {:induction false} SampleColumns(samples: seq<Sample>, interval: int, bucket: int)
    requires IsInterval(interval) && Aligned(bucket, interval)
    ensures var totals := SamplesIn(samples, interval, bucket);
            && totals.count == CountOf(samples, (s: Sample) => Within(s.time, interval, bucket))
            && totals.spread == SumOf(samples, ValueOf((s: Sample) => s.stats.spread, interval, bucket))
            && totals.top1 == SumOf(samples, ValueOf((s: Sample) => s.stats.top1, interval, bucket))
            && totals.top5 == SumOf(samples, ValueOf((s: Sample) => s.stats.top5, interval, bucket))
            && totals.top20 == SumOf(samples, ValueOf((s: Sample) => s.stats.top20, interval, bucket))
            && totals.ofi == SumOf(samples, ValueOf((s: Sample) => s.ofi, interval, bucket))
  {
    if samples != [] {
      SampleColumns(samples[..|samples| - 1], interval, bucket);
      InBucketExactly(samples[|samples| - 1].time, interval, bucket);
    }
  }

  // The gap column counts the gaps that start before the bucket ends and end at or after its start.
  lemma {:induction false} GapColumn(gaps: seq<Gap>, interval: int, bucket: int)
    requires IsInterval(interval) && Aligned(bucket, interval)
    ensures GapsIn(gaps, interval, bucket)
         == CountOf(gaps, (g: Gap) => g.start < bucket + interval && bucket <= g.end)
  {
    if gaps != [] {
      var g := gaps[|gaps| - 1];
      GapColumn(gaps[..|gaps| - 1], interval, bucket);
      BucketIsAligned(g.start, interval);
      BucketIsAligned(g.end, interval);
      NextAligned(bucket, Bucket(g.start, interval), interval);
      NextAligned(Bucket(g.end, interval), bucket, interval);
    }
  }

  // ---- coarse buckets are sums of fine ones ----

  function AddTrades(a: TradeTotals, b: TradeTotals): TradeTotals {
    TradeTotals(a.count + b.count, a.buyQuantity + b.buyQuantity, a.sellQuantity + b.sellQuantity,
                a.buyNotional + b.buyNotional, a.sellNotional + b.sellNotional)
  }

  function AddSamples(a: SampleTotals, b: SampleTotals): SampleTotals {
    SampleTotals(a.count + b.count, a.spread + b.spread, a.top1 + b.top1, a.top5 + b.top5, a.top20 + b.top20,
                 a.ofi + b.ofi)
  }

  // The fine buckets of range(from, upto, fine), added up.
  function FineTrades(trades: seq<Trade>, fine: int, from: int, upto: int): TradeTotals
    requires IsInterval(fine)
    decreases upto - from
  {
    if from >= upto then NO_TRADES
    else AddTrades(TradesIn(trades, fine, from), FineTrades(trades, fine, from + fine, upto))
  }

  function FineSamples(samples: seq<Sample>, fine: int, from: int, upto: int): SampleTotals
    requires IsInterval(fine)
    decreases upto - from
  {
    if from >= upto then NO_SAMPLES
    else AddSamples(SamplesIn(samples, fine, from), FineSamples(samples, fine, from + fine, upto))
  }

  lemma {:induction false} FineTradesStep(trades: seq<Trade>, t: Trade, fine: int, from: int, upto: int, at: int)
    requires IsInterval(fine) && Aligned(from, fine) && at == Bucket(t.time, fine) && Aligned(at, fine)
    ensures FineTrades(trades + [t], fine, from, upto)
         == if from <= at < upto
            then PlusTrade(FineTrades(trades, fine, from, upto), t) else FineTrades(trades, fine, from, upto)
    decreases upto - from
  {
    if from < upto {
      NextAligned(from, at, fine);
      FineTradesStep(trades, t, fine, from + fine, upto, at);
      assert (trades + [t])[..|trades|] == trades;
    }
  }

  lemma {:induction false} FineSamplesStep(samples: seq<Sample>, s: Sample, fine: int, from: int, upto: int, at: int)
    requires IsInterval(fine) && Aligned(from, fine) && at == Bucket(s.time, fine) && Aligned(at, fine)
    ensures FineSamples(samples + [s], fine, from, upto)
         == if from <= at < upto
            then PlusSample(FineSamples(samples, fine, from, upto), s) else FineSamples(samples, fine, from, upto)
    decreases upto - from
  {
    if from < upto {
      NextAligned(from, at, fine);
      FineSamplesStep(samples, s, fine, from + fine, upto, at);
      assert (samples + [s])[..|samples|] == samples;
    }
  }

  lemma {:induction false} NoFineTrades(fine: int, from: int, upto: int)
    requires IsInterval(fine)
    ensures FineTrades([], fine, from, upto) == NO_TRADES && FineSamples([], fine, from, upto) == NO_SAMPLES
    decreases upto - from
  {
    if from < upto { NoFineTrades(fine, from + fine, upto); }
  }

  // Each coarse bucket's trade and sample totals are the sums of its fine buckets.
  lemma {:induction false} CoarseIsSumOfFineTrades(trades: seq<Trade>, fine: int, coarse: int, bucket: int)
    requires IsInterval(fine) && IsInterval(coarse) && fine <= coarse && Aligned(bucket, coarse)
    ensures TradesIn(trades, coarse, bucket) == FineTrades(trades, fine, bucket, bucket + coarse)
  {
    if trades == [] {
      NoFineTrades(fine, bucket, bucket + coarse);
    } else {
      var init, t := trades[..|trades| - 1], trades[|trades| - 1];
      CoarseIsSumOfFineTrades(init, fine, coarse, bucket);
      FineInCoarse(t.time, fine, coarse, bucket);
      BucketIsAligned(t.time, fine);
      FineTradesStep(init, t, fine, bucket, bucket + coarse, Bucket(t.time, fine));
      assert trades == init + [t];
    }
  }

  lemma {:induction false} CoarseIsSumOfFineSamples(samples: seq<Sample>, fine: int, coarse: int, bucket: int)
    requires IsInterval(fine) && IsInterval(coarse) && fine <= coarse && Aligned(bucket, coarse)
    ensures SamplesIn(samples, coarse, bucket) == FineSamples(samples, fine, bucket, bucket + coarse)
  {
    if samples == [] {
      NoFineTrades(fine, bucket, bucket + coarse);
    } else {
      var init, s := samples[..|samples| - 1], samples[|samples| - 1];
      CoarseIsSumOfFineSamples(init, fine, coarse, bucket);
      FineInCoarse(s.time, fine, coarse, bucket);
      BucketIsAligned(s.time, fine);
      FineSamplesStep(init, s, fine, bucket, bucket + coarse, Bucket(s.time, fine));
      assert samples == init + [s];
    }
  }

  // The same, read off the table itself.
  function RowTrades(aggregates: AggregateTable, fine: int, from: int, upto: int): TradeTotals
    requires IsInterval(fine)
    decreases upto - from
  {
    if from >= upto then NO_TRADES
    else AddTrades(Row(aggregates, fine, from).trades, RowTrades(aggregates, fine, from + fine, upto))
  }

  function RowSamples(aggregates: AggregateTable, fine: int, from: int, upto: int): SampleTotals
    requires IsInterval(fine)
    decreases upto - from
  {
    if from >= upto then NO_SAMPLES
    else AddSamples(Row(aggregates, fine, from).samples, RowSamples(aggregates, fine, from + fine, upto))
  }

  lemma {:induction false} RowsAreFine(t: Tables, fine: int, from: int, upto: int)
    requires Grouped(t) && IsInterval(fine)
    ensures RowTrades(t.aggregates, fine, from, upto) == FineTrades(t.trades, fine, from, upto)
    ensures RowSamples(t.aggregates, fine, from, upto) == FineSamples(t.samples, fine, from, upto)
    decreases upto - from
  {
    if from < upto {
      RowsAreFine(t, fine, from + fine, upto);
      GroupedRow(t, fine, from);
    }
  }

  lemma GroupedRow(t: Tables, interval: int, bucket: int)
    requires Grouped(t) && IsInterval(interval)
    ensures Row(t.aggregates, interval, bucket).trades == TradesIn(t.trades, interval, bucket)
    ensures Row(t.aggregates, interval, bucket).samples == SamplesIn(t.samples, interval, bucket)
  {
  }

  // In every table that is a group-by, as every reachable one is, a coarse row's trade
  // and sample totals are the sums of its fine rows.
  lemma CoarseRowIsSumOfFineRows(t: Tables, fine: int, coarse: int, bucket: int)
    requires Grouped(t) && IsInterval(fine) && IsInterval(coarse) && fine <= coarse && Aligned(bucket, coarse)
    ensures Row(t.aggregates, coarse, bucket).trades == RowTrades(t.aggregates, fine, bucket, bucket + coarse)
    ensures Row(t.aggregates, coarse, bucket).samples == RowSamples(t.aggregates, fine, bucket, bucket + coarse)
  {
    GroupedRow(t, coarse, bucket);
    RowsAreFine(t, fine, bucket, bucket + coarse);
    CoarseIsSumOfFineTrades(t.trades, fine, coarse, bucket);
    CoarseIsSumOfFineSamples(t.samples, fine, coarse, bucket);
  }

  // ---- the mutable partition ----

  datatype AuditCounter = DuplicateTrade | ConflictTrade | DuplicateBookSample

  class DayPartition {
    var trades: seq<Trade>
    var samples: seq<Sample>
    var gaps: seq<Gap>
    var aggregates: AggregateTable
    var audit: map<AuditCounter, nat>

    ghost function Contents(): Tables
      reads this
    {
      Tables(trades, samples, gaps, aggregates)
    }

    constructor ()
      ensures Contents() == Run([]) && audit == map[]
    {
      trades, samples, gaps, aggregates, audit := [], [], [], map[], map[];
    }

    method Increment(name: AuditCounter)
      modifies this`audit
      ensures audit == old(audit)[name := (if name in old(audit) then old(audit)[name] else 0) + 1]
    {
      audit := audit[name := (if name in audit then audit[name] else 0) + 1];
    }

    method InsertTrade(trade: Trade) returns (inserted: bool)
      modifies this
      ensures Contents() == AppendTrade(old(Contents()), trade)
      ensures inserted <==> FindTrade(old(trades), trade.id).None?
      ensures inserted ==> audit == old(audit)
      ensures !inserted ==>
                var name := if FindTrade(old(trades), trade.id).value == trade then DuplicateTrade else ConflictTrade;
                audit == old(audit)[name := (if name in old(audit) then old(audit)[name] else 0) + 1]
    {
      var existing := FindTrade(trades, trade.id);
      inserted := existing.None?;
      if !inserted {
        Increment(if existing.value == trade then DuplicateTrade else ConflictTrade);
        return;
      }
      trades := trades + [trade];
      aggregates := UpsertTrade(aggregates, trade, 1_000);
      aggregates := UpsertTrade(aggregates, trade, 60_000);
      aggregates := UpsertTrade(aggregates, trade, 900_000);
    }

    method InsertSample(s: Sample) returns (inserted: bool)
      modifies this
      ensures Contents() == AppendSample(old(Contents()), s)
      ensures inserted <==> !HasSample(old(samples), s.time, s.updateId)
      ensures audit == if inserted then old(audit)
                       else old(audit)[DuplicateBookSample := (if DuplicateBookSample in old(audit)
                                                               then old(audit)[DuplicateBookSample] else 0) + 1]
    {
      inserted := !HasSample(samples, s.time, s.updateId);
      if !inserted {
        Increment(DuplicateBookSample);
        return;
      }
      samples := samples + [s];
      aggregates := UpsertSample(aggregates, s, 1_000);
      aggregates := UpsertSample(aggregates, s, 60_000);
      aggregates := UpsertSample(aggregates, s, 900_000);
    }

    method CountGapAt(g: Gap, interval: int)
      requires IsInterval(interval)
      modifies this`aggregates
      ensures aggregates == UpsertGap(old(aggregates), g, interval)
    {
      var bucket, last := Bucket(g.start, interval), Bucket(g.end, interval);
      while bucket <= last
        invariant UpsertGaps(aggregates, interval, bucket, last) == UpsertGap(old(aggregates), g, interval)
        decreases last - bucket
      {
        var row := Row(aggregates, interval, bucket);
        aggregates := aggregates[(interval, bucket) := row.(gaps := row.gaps + 1)];
        bucket := bucket + interval;
      }
    }

    method InsertGap(id: int, timestamp: int, end: Option<int>) returns (committed: bool)
      modifies this
      ensures Contents()
           == AppendGap(old(Contents()),
                        Gap(id, timestamp, if end.Some? && end.value > timestamp then end.value else timestamp))
      ensures committed <==> !HasGap(old(gaps), id)
      ensures audit == old(audit)
    {
      committed := !HasGap(gaps, id);
      if !committed {
        return;
      }
      var g := Gap(id, timestamp, if end.Some? && end.value > timestamp then end.value else timestamp);
      gaps := gaps + [g];
      CountGapAt(g, 1_000);
      CountGapAt(g, 60_000);
      CountGapAt(g, 900_000);
    }
  }
}
