/**
 The timestamp-lag Bartlett sum of the HAC variance.  Scores sit on a cadence
 grid with missing slots; a lag pairs two scores when their timestamps differ
 by exactly that many cadences.  Floating point is modelled over `real`.
 */
module HacVariance {
  import opened Arithmetic

  // ---- zero-filled scores ----

  // The score in grid slot i, zero where there is no observation.
  ghost function At(z: seq<real>, i: int): real {
    if 0 <= i < |z| then z[i] else 0.0
  }

  // Sum over w < n of the product of the scores k and l slots before w.
  ghost function PairSum(z: seq<real>, k: nat, l: nat, n: nat): real {
    if n == 0 then 0.0 else PairSum(z, k, l, n - 1) + At(z, n - 1 - k) * At(z, n - 1 - l)
  }

  // Sum of products of scores d slots apart.
  ghost function LagProduct(z: seq<real>, d: nat): real {
    PairSum(z, 0, d, |z|)
  }

  ghost function Weight(lag: nat, maxLag: nat): real {
    1.0 - lag as real / (maxLag as real + 1.0)
  }

  // The Bartlett-weighted sum over lags 1..upto that the program accumulates.
  ghost function Bartlett(z: seq<real>, maxLag: nat, upto: nat): real {
    if upto == 0 then LagProduct(z, 0)
    else Bartlett(z, maxLag, upto - 1) + 2.0 * Weight(upto, maxLag) * LagProduct(z, upto)
  }

  // Sum of the scores in the `length` slots ending at slot w.
  ghost function Window(z: seq<real>, length: nat, w: int): real {
    if length == 0 then 0.0 else Window(z, length - 1, w) + At(z, w - (length - 1))
  }

  // Sum of the squared window sums over the window positions 0..n-1.
  ghost function WindowSquares(z: seq<real>, length: nat, n: nat): real {
    if n == 0 then 0.0 else WindowSquares(z, length, n - 1) + Window(z, length, n - 1) * Window(z, length, n - 1)
  }

  // Sum over positions of a window sum times the score l slots back.
  ghost function CrossSum(z: seq<real>, length: nat, l: nat, n: nat): real {
    if n == 0 then 0.0 else CrossSum(z, length, l, n - 1) + Window(z, length, n - 1) * At(z, n - 1 - l)
  }

  ghost function LagTotal(z: seq<real>, upto: nat): real {
    if upto == 0 then 0.0 else LagTotal(z, upto - 1) + LagProduct(z, upto)
  }

  // ---- the double-sum identity ----

  lemma {:induction false} PairSumTail(z: seq<real>, d: nat, n: nat)
    requires |z| <= n
    ensures PairSum(z, 0, d, n) == LagProduct(z, d)
  {
    if |z| < n {
      PairSumTail(z, d, n - 1);
      assert At(z, n - 1) == 0.0;
    }
  }

  lemma {:induction false} PairSumHead(z: seq<real>, k: nat, l: nat, n: nat)
    requires n <= k
    ensures PairSum(z, k, l, n) == 0.0
  {
    if n > 0 {
      PairSumHead(z, k, l, n - 1);
      assert At(z, n - 1 - k) == 0.0;
    }
  }

  lemma {:induction false} PairSumShift(z: seq<real>, k: nat, l: nat, n: nat)
    requires k <= l && k <= n
    ensures PairSum(z, k, l, n) == PairSum(z, 0, l - k, n - k)
  {
    if n == k { PairSumHead(z, k, l, n); } else { PairSumShift(z, k, l, n - 1); }
  }

  lemma {:induction false} CrossSumStep(z: seq<real>, length: nat, l: nat, n: nat)
    requires length > 0
    ensures CrossSum(z, length, l, n) == CrossSum(z, length - 1, l, n) + PairSum(z, length - 1, l, n)
  {
    if n > 0 {
      CrossSumStep(z, length, l, n - 1);
      Distribute(Window(z, length - 1, n - 1), At(z, n - 1 - (length - 1)), At(z, n - 1 - l));
    }
  }

  lemma Distribute(a: real, b: real, c: real)
    ensures (a + b) * c == a * c + b * c
  {
  }

  lemma {:induction false} CrossSumZero(z: seq<real>, l: nat, n: nat)
    ensures CrossSum(z, 0, l, n) == 0.0
  {
    if n > 0 { CrossSumZero(z, l, n - 1); }
  }

  // Window-times-score cross terms depend only on the lags they span.
  lemma {:induction false} CrossSumIsLags(z: seq<real>, length: nat, l: nat, n: nat)
    requires length <= l && |z| + l <= n
    ensures CrossSum(z, length, l, n) == LagTotal(z, l) - LagTotal(z, l - length)
  {
    if length == 0 {
      CrossSumZero(z, l, n);
    } else {
      CrossSumIsLags(z, length - 1, l, n);
      CrossSumStep(z, length, l, n);
      PairSumShift(z, length - 1, l, n);
      PairSumTail(z, l - length + 1, n - length + 1);
    }
  }

  lemma {:induction false} SquaresStep(z: seq<real>, l: nat, n: nat)
    ensures WindowSquares(z, l + 1, n) == WindowSquares(z, l, n) + 2.0 * CrossSum(z, l, l, n) + PairSum(z, l, l, n)
  {
    if n > 0 {
      SquaresStep(z, l, n - 1);
      SquareOfSum(Window(z, l, n - 1), At(z, n - 1 - l));
    }
  }

  lemma SquareOfSum(a: real, b: real)
    ensures (a + b) * (a + b) == a * a + 2.0 * (a * b) + b * b
  {
  }

  // Lengthening every window by one slot.
  lemma SquaresGrow(z: seq<real>, l: nat, n: nat)
    requires |z| + l <= n
    ensures WindowSquares(z, l + 1, n) == WindowSquares(z, l, n) + 2.0 * LagTotal(z, l) + LagProduct(z, 0)
  {
    SquaresStep(z, l, n);
    CrossSumIsLags(z, l, l, n);
    PairSumShift(z, l, l, n);
    PairSumTail(z, 0, n - l);
  }

  // (L+1) times the Bartlett sum, written without division.
  ghost function Scaled(z: seq<real>, scale: real, upto: nat): real {
    if upto == 0 then scale * LagProduct(z, 0)
    else Scaled(z, scale, upto - 1) + 2.0 * ((scale - upto as real) * LagProduct(z, upto))
  }

  lemma {:induction false} ScaledIsBartlett(z: seq<real>, maxLag: nat, upto: nat)
    ensures (maxLag as real + 1.0) * Bartlett(z, maxLag, upto) == Scaled(z, maxLag as real + 1.0, upto)
  {
    if upto > 0 {
      ScaledIsBartlett(z, maxLag, upto - 1);
      WeightTimesScale(maxLag as real + 1.0, upto as real, LagProduct(z, upto), Bartlett(z, maxLag, upto - 1));
    }
  }

  lemma WeightTimesScale(n: real, lag: real, product: real, before: real)
    requires n > 0.0
    ensures n * (before + 2.0 * (1.0 - lag / n) * product) == n * before + 2.0 * ((n - lag) * product)
  {
    var weight := 1.0 - lag / n;
    assert n * weight == n - lag;
    assert n * (2.0 * weight * product) == 2.0 * ((n * weight) * product);
  }

  lemma {:induction false} ScaledGrows(z: seq<real>, scale: real, upto: nat)
    ensures Scaled(z, scale + 1.0, upto) == Scaled(z, scale, upto) + LagProduct(z, 0) + 2.0 * LagTotal(z, upto)
  {
    if upto == 0 {
      Distribute(scale, 1.0, LagProduct(z, 0));
    } else {
      ScaledGrows(z, scale, upto - 1);
      Distribute(scale - upto as real, 1.0, LagProduct(z, upto));
    }
  }

  lemma {:induction false} NoWindowNoSquares(z: seq<real>, n: nat)
    ensures WindowSquares(z, 0, n) == 0.0
  {
    if n > 0 { NoWindowNoSquares(z, n - 1); }
  }

  lemma {:induction false} ScaledIsSquares(z: seq<real>, maxLag: nat, n: nat)
    requires |z| + maxLag <= n
    ensures Scaled(z, maxLag as real + 1.0, maxLag) == WindowSquares(z, maxLag + 1, n)
  {
    SquaresGrow(z, maxLag, n);
    if maxLag == 0 {
      NoWindowNoSquares(z, n);
    } else {
      ScaledIsSquares(z, maxLag - 1, n);
      ScaledGrows(z, maxLag as real, maxLag - 1);
      LastLagHasWeightOne(maxLag as real, LagProduct(z, maxLag));
    }
  }

  lemma LastLagHasWeightOne(lag: real, product: real)
    ensures (lag + 1.0 - lag) * product == product
  {
  }

  // (L+1) times the long-run sum is the sum of the squared length-(L+1) window
  // sums of the zero-filled scores, over every window that meets the grid.
  lemma BartlettIsWindowSquares(z: seq<real>, maxLag: nat)
    ensures (maxLag as real + 1.0) * Bartlett(z, maxLag, maxLag) == WindowSquares(z, maxLag + 1, |z| + maxLag)
  {
    ScaledIsBartlett(z, maxLag, maxLag);
    ScaledIsSquares(z, maxLag, |z| + maxLag);
  }

  // ---- sign ----

  ghost predicate AllZero(z: seq<real>, n: nat) {
    forall i | 0 <= i < n :: At(z, i) == 0.0
  }

  lemma {:induction false} SquaresNonNegative(z: seq<real>, length: nat, n: nat)
    ensures WindowSquares(z, length, n) >= 0.0
  {
    if n > 0 {
      SquaresNonNegative(z, length, n - 1);
      SquareSign(Window(z, length, n - 1), Window(z, length, n - 1) * Window(z, length, n - 1));
    }
  }

  lemma {:induction false} ZeroSquaresZeroWindow(z: seq<real>, length: nat, n: nat, w: nat)
    requires w < n && WindowSquares(z, length, n) == 0.0
    ensures Window(z, length, w) == 0.0
  {
    SquaresNonNegative(z, length, n - 1);
    var last := Window(z, length, n - 1);
    SquareSign(last, last * last);
    if w < n - 1 { ZeroSquaresZeroWindow(z, length, n - 1, w); }
  }

  // A window whose earlier slots are all zero is just its last score.
  lemma {:induction false} WindowOfLast(z: seq<real>, length: nat, w: nat)
    requires length >= 1 && AllZero(z, w)
    ensures Window(z, length, w) == At(z, w)
  {
    if length > 1 {
      WindowOfLast(z, length - 1, w);
      assert At(z, w - (length - 1)) == 0.0;
    }
  }

  lemma {:induction false} ZeroSquaresZeroScores(z: seq<real>, length: nat, n: nat, upto: nat)
    requires length >= 1 && upto <= n && WindowSquares(z, length, n) == 0.0
    ensures AllZero(z, upto)
  {
    if upto > 0 {
      ZeroSquaresZeroScores(z, length, n, upto - 1);
      WindowOfLast(z, length, upto - 1);
      ZeroSquaresZeroWindow(z, length, n, upto - 1);
    }
  }

  lemma {:induction false} ZeroScoresZeroProducts(z: seq<real>, maxLag: nat, upto: nat)
    requires AllZero(z, |z|)
    ensures Bartlett(z, maxLag, upto) == 0.0
  {
    ZeroPairs(z, upto, |z|);
    if upto > 0 { ZeroScoresZeroProducts(z, maxLag, upto - 1); }
  }

  lemma {:induction false} ZeroPairs(z: seq<real>, d: nat, n: nat)
    requires AllZero(z, |z|) && n <= |z|
    ensures PairSum(z, 0, d, n) == 0.0
  {
    if n > 0 { ZeroPairs(z, d, n - 1); assert At(z, n - 1) == 0.0; }
  }

  // The long-run sum is never negative, and vanishes exactly for all-zero scores.
  lemma BartlettSign(z: seq<real>, maxLag: nat)
    ensures Bartlett(z, maxLag, maxLag) >= 0.0
    ensures Bartlett(z, maxLag, maxLag) == 0.0 <==> AllZero(z, |z|)
  {
    BartlettIsWindowSquares(z, maxLag);
    SquaresNonNegative(z, maxLag + 1, |z| + maxLag);
    ScaleKeepsSign(maxLag as real + 1.0, Bartlett(z, maxLag, maxLag));
    if Bartlett(z, maxLag, maxLag) == 0.0 {
      ZeroSquaresZeroScores(z, maxLag + 1, |z| + maxLag, |z|);
    }
    if AllZero(z, |z|) {
      ZeroScoresZeroProducts(z, maxLag, maxLag);
    }
  }

  lemma ScaleKeepsSign(scale: real, value: real)
    requires scale > 0.0 && scale * value >= 0.0
    ensures value >= 0.0 && (value == 0.0 ==> scale * value == 0.0)
  {
  }

  // ---- observed rows on the grid ----

  ghost predicate StrictlyIncreasing(keys: seq<int>) {
    forall i, j | 0 <= i < j < |keys| :: keys[i] < keys[j]
  }

  // The score observed under a key (a timestamp or a slot), zero where there is none.
  ghost function ScoreAt(keys: seq<int>, scores: seq<real>, key: int): real
    requires |keys| == |scores|
  {
    if key in keys then var i :| 0 <= i < |keys| && keys[i] == key; scores[i] else 0.0
  }

  // What the inner loop adds up over the first n rows: each score times the one `delta` earlier.
  ghost function RowSum(keys: seq<int>, scores: seq<real>, delta: int, n: nat): real
    requires |keys| == |scores| && n <= |keys|
  {
    if n == 0 then 0.0
    else RowSum(keys, scores, delta, n - 1) + scores[n - 1] * ScoreAt(keys, scores, keys[n - 1] - delta)
  }

  ghost predicate Slotted(slots: seq<int>, scores: seq<real>) {
    0 < |slots| == |scores| && StrictlyIncreasing(slots) && slots[0] == 0
  }

  ghost function ZeroFilled(slots: seq<int>, scores: seq<real>): seq<real>
    requires Slotted(slots, scores)
  {
    seq(slots[|slots| - 1] + 1, s => ScoreAt(slots, scores, s))
  }

  lemma ScoreAtRow(keys: seq<int>, scores: seq<real>, i: int)
    requires |keys| == |scores| && StrictlyIncreasing(keys) && 0 <= i < |keys|
    ensures ScoreAt(keys, scores, keys[i]) == scores[i]
  {
  }

  lemma SlotLookup(slots: seq<int>, scores: seq<real>, i: int, d: nat)
    requires Slotted(slots, scores) && 0 <= i < |slots|
    ensures At(ZeroFilled(slots, scores), slots[i] - d) == ScoreAt(slots, scores, slots[i] - d)
  {
  }

  lemma {:induction false} PairSumOverEmpty(z: seq<real>, d: nat, a: nat, b: nat)
    requires a <= b && forall s | a <= s < b :: At(z, s) == 0.0
    ensures PairSum(z, 0, d, b) == PairSum(z, 0, d, a)
  {
    if a < b { PairSumOverEmpty(z, d, a, b - 1); assert At(z, b - 1) == 0.0; }
  }

  // The product the n-th observed row adds.
  lemma NextRow(slots: seq<int>, scores: seq<real>, d: nat, n: nat)
    requires Slotted(slots, scores) && 0 < n <= |slots| && slots[n - 1] >= 0
    ensures var z, s := ZeroFilled(slots, scores), slots[n - 1];
            PairSum(z, 0, d, s + 1) == PairSum(z, 0, d, s) + scores[n - 1] * ScoreAt(slots, scores, s - d)
  {
    SlotLookup(slots, scores, n - 1, d);
    SlotLookup(slots, scores, n - 1, 0);
    ScoreAtRow(slots, scores, n - 1);
  }

  // Empty slots between two observed rows add nothing.
  lemma NoProductsBetween(slots: seq<int>, scores: seq<real>, d: nat, i: nat)
    requires Slotted(slots, scores) && 0 < i < |slots| && slots[i - 1] >= 0
    ensures var z := ZeroFilled(slots, scores);
            PairSum(z, 0, d, slots[i]) == PairSum(z, 0, d, slots[i - 1] + 1)
  {
    var z := ZeroFilled(slots, scores);
    forall s | slots[i - 1] + 1 <= s < slots[i] ensures At(z, s) == 0.0 {
      assert s !in slots;
    }
    PairSumOverEmpty(z, d, slots[i - 1] + 1, slots[i]);
  }

  // Summing over observed rows is summing over all grid slots.
  lemma {:induction false} RowSumIsPairSum(slots: seq<int>, scores: seq<real>, d: nat, n: nat)
    requires Slotted(slots, scores) && 0 < n <= |slots|
    ensures 0 <= slots[n - 1]
    ensures RowSum(slots, scores, d, n) == PairSum(ZeroFilled(slots, scores), 0, d, slots[n - 1] + 1)
  {
    if n > 1 {
      RowSumIsPairSum(slots, scores, d, n - 1);
      NoProductsBetween(slots, scores, d, n - 1);
    }
    NextRow(slots, scores, d, n);
  }

  // ---- timestamps to slots ----

  ghost predicate OnGrid(ts: seq<int>, cadence: int)
    requires cadence > 0
  {
    forall i | 0 <= i < |ts| :: (ts[i] - ts[0]) % cadence == 0
  }

  ghost predicate Gridded(ts: seq<int>, scores: seq<real>, cadence: int) {
    cadence > 0 && 0 < |ts| == |scores| && StrictlyIncreasing(ts) && OnGrid(ts, cadence)
  }

  ghost function Slots(ts: seq<int>, cadence: int): seq<int>
    requires cadence > 0 && |ts| > 0
  {
    seq(|ts|, i requires 0 <= i < |ts| => (ts[i] - ts[0]) / cadence)
  }

  // The scores on the cadence grid from the first to the last timestamp.
  ghost function OnCadence(ts: seq<int>, scores: seq<real>, cadence: int): seq<real>
    requires Gridded(ts, scores, cadence)
  {
    SlotsAreSlotted(ts, scores, cadence);
    ZeroFilled(Slots(ts, cadence), scores)
  }

  lemma OrderOfMultiples(a: int, b: int, c: int)
    requires c > 0
    ensures a * c < b * c <==> a < b
    ensures a * c == b * c <==> a == b
  {
    if a < b { LargerMultiple(a, b, c); } else if b < a { LargerMultiple(b, a, c); }
  }

  lemma LargerMultiple(a: int, b: int, c: int)
    requires a < b && c > 0
    ensures a * c < b * c
  {
    assert b * c - a * c == (b - a) * c;
  }

  lemma SlotTimesCadence(ts: seq<int>, cadence: int, i: int)
    requires cadence > 0 && OnGrid(ts, cadence) && 0 <= i < |ts|
    ensures ts[i] == ts[0] + Slots(ts, cadence)[i] * cadence
  {
  }

  lemma SlotsAreSlotted(ts: seq<int>, scores: seq<real>, cadence: int)
    requires Gridded(ts, scores, cadence)
    ensures Slotted(Slots(ts, cadence), scores)
  {
    var slots := Slots(ts, cadence);
    forall i, j | 0 <= i < j < |slots| ensures slots[i] < slots[j] {
      SlotTimesCadence(ts, cadence, i);
      SlotTimesCadence(ts, cadence, j);
      OrderOfMultiples(slots[i], slots[j], cadence);
    }
  }

  // Two rows are d slots apart exactly when they are d cadences apart.
  lemma SameDistance(ts: seq<int>, cadence: int, i: int, j: int, d: int)
    requires cadence > 0 && OnGrid(ts, cadence) && 0 <= i < |ts| && 0 <= j < |ts|
    ensures ts[j] == ts[i] - d * cadence <==> Slots(ts, cadence)[j] == Slots(ts, cadence)[i] - d
  {
    var slots := Slots(ts, cadence);
    SlotTimesCadence(ts, cadence, i);
    SlotTimesCadence(ts, cadence, j);
    assert (slots[i] - d) * cadence == slots[i] * cadence - d * cadence;
    OrderOfMultiples(slots[j], slots[i] - d, cadence);
  }

  // Looking up the timestamp d cadences earlier is looking up the slot d earlier.
  lemma SameScore(ts: seq<int>, scores: seq<real>, cadence: int, i: int, d: int)
    requires Gridded(ts, scores, cadence) && 0 <= i < |ts|
    ensures ScoreAt(ts, scores, ts[i] - d * cadence)
         == ScoreAt(Slots(ts, cadence), scores, Slots(ts, cadence)[i] - d)
  {
    var slots, t := Slots(ts, cadence), ts[i] - d * cadence;
    SlotsAreSlotted(ts, scores, cadence);
    if t in ts {
      var j :| 0 <= j < |ts| && ts[j] == t;
      SameDistance(ts, cadence, i, j, d);
      ScoreAtRow(ts, scores, j);
      ScoreAtRow(slots, scores, j);
    } else if slots[i] - d in slots {
      var j :| 0 <= j < |slots| && slots[j] == slots[i] - d;
      SameDistance(ts, cadence, i, j, d);
      assert false;
    }
  }

  lemma {:induction false} SameRowSum(keys: seq<int>, other: seq<int>, scores: seq<real>, delta: int, d: int, n: nat)
    requires |keys| == |other| == |scores| && n <= |keys|
    requires forall i | 0 <= i < n :: ScoreAt(keys, scores, keys[i] - delta) == ScoreAt(other, scores, other[i] - d)
    ensures RowSum(keys, scores, delta, n) == RowSum(other, scores, d, n)
  {
    if n > 0 { SameRowSum(keys, other, scores, delta, d, n - 1); }
  }

  // One lag's sum over observed rows is the lag product of the zero-filled grid.
  lemma RowSumIsLagProduct(ts: seq<int>, scores: seq<real>, cadence: int, d: nat)
    requires Gridded(ts, scores, cadence)
    ensures RowSum(ts, scores, d * cadence, |ts|) == LagProduct(OnCadence(ts, scores, cadence), d)
  {
    SlotsAreSlotted(ts, scores, cadence);
    SameRows(ts, scores, cadence, d);
    RowSumIsPairSum(Slots(ts, cadence), scores, d, |ts|);
  }

  lemma SameRows(ts: seq<int>, scores: seq<real>, cadence: int, d: nat)
    requires Gridded(ts, scores, cadence)
    ensures RowSum(ts, scores, d * cadence, |ts|) == RowSum(Slots(ts, cadence), scores, d, |ts|)
  {
    var slots, delta := Slots(ts, cadence), d * cadence;
    forall i | 0 <= i < |ts| ensures ScoreAt(ts, scores, ts[i] - delta) == ScoreAt(slots, scores, slots[i] - d) {
      SameScore(ts, scores, cadence, i, d);
    }
    SameRowSum(ts, slots, scores, delta, d, |ts|);
  }

  // ---- the accumulation loop ----

  // Rows that have a partner `delta` earlier.
  ghost function Partnered(ts: seq<int>, delta: int, n: nat): set<int>
    requires n <= |ts|
  {
    set i | 0 <= i < n && ts[i] - delta in ts
  }

  lemma PartneredGrows(ts: seq<int>, delta: int, i: nat)
    requires i < |ts|
    ensures |Partnered(ts, delta, i + 1)| == |Partnered(ts, delta, i)| + if ts[i] - delta in ts then 1 else 0
  {
    if ts[i] - delta in ts {
      assert Partnered(ts, delta, i + 1) == Partnered(ts, delta, i) + {i};
    } else {
      assert Partnered(ts, delta, i + 1) == Partnered(ts, delta, i);
    }
  }

  // The dictionary from timestamp to row.
  ghost predicate Indexes(index: map<int, int>, ts: seq<int>) {
    && (forall t :: t in index <==> t in ts)
    && (forall t | t in index :: 0 <= index[t] < |ts| && ts[index[t]] == t)
  }

  method TimestampIndex(ts: seq<int>) returns (index: map<int, int>)
    ensures Indexes(index, ts)
  {
    index := map[];
    for i := 0 to |ts|
      invariant Indexes(index, ts[..i])
    {
      index := index[ts[i] := i];
    }
    assert ts[..|ts|] == ts;
  }

  // One pass over the rows for one lag, through the timestamp dictionary.
  method PairsAtLag(scores: seq<real>, ts: seq<int>, index: map<int, int>, delta: int)
    returns (crossSum: real, pairs: nat)
    requires |ts| == |scores| && StrictlyIncreasing(ts)
    requires Indexes(index, ts)
    ensures crossSum == RowSum(ts, scores, delta, |ts|) && pairs == |Partnered(ts, delta, |ts|)|
  {
    crossSum, pairs := 0.0, 0;
    for i := 0 to |ts|
      invariant crossSum == RowSum(ts, scores, delta, i) && pairs == |Partnered(ts, delta, i)|
    {
      PartneredGrows(ts, delta, i);
      var prior := ts[i] - delta;
      if prior in index {
        ScoreAtRow(ts, scores, index[prior]);
        crossSum := crossSum + scores[i] * scores[index[prior]];
        pairs := pairs + 1;
      }
    }
  }

  method SquaredScores(scores: seq<real>, ts: seq<int>) returns (total: real)
    requires |ts| == |scores| && StrictlyIncreasing(ts)
    ensures total == RowSum(ts, scores, 0, |ts|)
  {
    total := 0.0;
    for i := 0 to |scores|
      invariant total == RowSum(ts, scores, 0, i)
    {
      ScoreAtRow(ts, scores, i);
      total := total + scores[i] * scores[i];
    }
  }

  method ZeroLag(scores: seq<real>, ts: seq<int>, cadence: int) returns (total: real)
    requires Gridded(ts, scores, cadence)
    ensures total == LagProduct(OnCadence(ts, scores, cadence), 0)
  {
    total := SquaredScores(scores, ts);
    RowSumIsLagProduct(ts, scores, cadence, 0);
  }

  // counts[lag] is the number of rows that have a partner `lag` cadences earlier.
  ghost predicate CountsPairs(counts: seq<nat>, ts: seq<int>, cadence: int) {
    forall lag | 0 <= lag < |counts| :: counts[lag] == |Partnered(ts, lag * cadence, |ts|)|
  }

  lemma EveryRowIsItsOwnPartner(ts: seq<int>, cadence: int)
    ensures CountsPairs([|ts|], ts, cadence)
  {
    NoLagPairs(ts, |ts|);
  }

  lemma {:induction false} NoLagPairs(ts: seq<int>, n: nat)
    requires n <= |ts|
    ensures |Partnered(ts, 0, n)| == n
  {
    if n == 0 {
      assert Partnered(ts, 0, 0) == {};
    } else {
      NoLagPairs(ts, n - 1);
      PartneredGrows(ts, 0, n - 1);
    }
  }

  method LongRunSum(scores: seq<real>, ts: seq<int>, cadence: int, maxLag: nat)
    returns (longRun: real, pairCounts: seq<nat>)
    requires Gridded(ts, scores, cadence)
    ensures longRun == Bartlett(OnCadence(ts, scores, cadence), maxLag, maxLag)
    ensures |pairCounts| == maxLag + 1 && CountsPairs(pairCounts, ts, cadence)
  {
    var index := TimestampIndex(ts);
    longRun := ZeroLag(scores, ts, cadence);
    EveryRowIsItsOwnPartner(ts, cadence);
    pairCounts := [|ts|];
    ghost var z := OnCadence(ts, scores, cadence);
    for lag := 1 to maxLag + 1
      invariant longRun == Bartlett(z, maxLag, lag - 1)
      invariant |pairCounts| == lag && CountsPairs(pairCounts, ts, cadence)
    {
      var pairs;
      longRun, pairs := NextLag(scores, ts, index, cadence, lag, maxLag, longRun);
      CountsOneMore(pairCounts, pairs, ts, cadence);
      pairCounts := pairCounts + [pairs];
    }
  }

  lemma CountsOneMore(counts: seq<nat>, pairs: nat, ts: seq<int>, cadence: int)
    requires CountsPairs(counts, ts, cadence) && pairs == |Partnered(ts, |counts| * cadence, |ts|)|
    ensures CountsPairs(counts + [pairs], ts, cadence)
  {
  }

  // One turn of the lag loop.
  method NextLag(scores: seq<real>, ts: seq<int>, index: map<int, int>, cadence: int, lag: nat, maxLag: nat,
                 before: real)
    returns (longRun: real, pairs: nat)
    requires Gridded(ts, scores, cadence) && Indexes(index, ts)
    requires lag >= 1 && before == Bartlett(OnCadence(ts, scores, cadence), maxLag, lag - 1)
    ensures longRun == Bartlett(OnCadence(ts, scores, cadence), maxLag, lag)
    ensures pairs == |Partnered(ts, lag * cadence, |ts|)|
  {
    var crossSum;
    crossSum, pairs := LagTerm(scores, ts, index, cadence, lag);
    longRun := AddLag(OnCadence(ts, scores, cadence), before, crossSum, lag, maxLag);
  }

  method LagTerm(scores: seq<real>, ts: seq<int>, index: map<int, int>, cadence: int, lag: nat)
    returns (crossSum: real, pairs: nat)
    requires Gridded(ts, scores, cadence) && Indexes(index, ts)
    ensures crossSum == LagProduct(OnCadence(ts, scores, cadence), lag)
    ensures pairs == |Partnered(ts, lag * cadence, |ts|)|
  {
    crossSum, pairs := PairsAtLag(scores, ts, index, lag * cadence);
    RowSumIsLagProduct(ts, scores, cadence, lag);
  }

  method AddLag(ghost z: seq<real>, before: real, crossSum: real, lag: nat, maxLag: nat) returns (longRun: real)
    requires lag >= 1 && before == Bartlett(z, maxLag, lag - 1) && crossSum == LagProduct(z, lag)
    ensures longRun == Bartlett(z, maxLag, lag)
  {
    var weight := 1.0 - lag as real / (maxLag as real + 1.0);
    longRun := before + 2.0 * weight * crossSum;
  }

  // ---- the gate around the loop ----

  datatype Reason =
    InsufficientRows | TimestampsNotStrictlyIncreasing | TimestampsOffCadenceGrid | NonPositiveHacVariance

  datatype HacResult = NotTestable(reason: Reason) | Testable(variance: real)

  // The spacing of doubles at 1, the smallest long-run sum that is accepted.
  const MACHINE_EPSILON: real := 1.0 / 4503599627370496.0

  // Guards, accumulation and final gate; `xx` is the candidate's sum of squares.
  method HacVarianceOf(scores: seq<real>, ts: seq<int>, cadence: int, maxLag: nat, xx: real) returns (r: HacResult)
    requires |scores| == |ts| && cadence > 0 && xx > 0.0
    ensures |ts| < 8 <==> r == NotTestable(InsufficientRows)
    ensures |ts| >= 8 && Gridded(ts, scores, cadence) ==>
              var longRun := Bartlett(OnCadence(ts, scores, cadence), maxLag, maxLag);
              r == if longRun <= MACHINE_EPSILON then NotTestable(NonPositiveHacVariance)
                   else Testable(longRun / (xx * xx))
    ensures r.Testable? ==> r.variance > 0.0 && Gridded(ts, scores, cadence)
    ensures r == NotTestable(TimestampsNotStrictlyIncreasing) <==> |ts| >= 8 && !StrictlyIncreasing(ts)
    ensures r == NotTestable(TimestampsOffCadenceGrid) <==> |ts| >= 8 && StrictlyIncreasing(ts) && !OnGrid(ts, cadence)
  {
    if |ts| < 8 {
      return NotTestable(InsufficientRows);
    }
    for i := 1 to |ts|
      invariant StrictlyIncreasing(ts[..i])
    {
      if ts[i] - ts[i - 1] <= 0 {
        return NotTestable(TimestampsNotStrictlyIncreasing);
      }
      assert ts[..i][i - 1] == ts[i - 1];
    }
    assert ts[..|ts|] == ts;
    for i := 0 to |ts|
      invariant forall j | 0 <= j < i :: (ts[j] - ts[0]) % cadence == 0
    {
      if (ts[i] - ts[0]) % cadence != 0 {
        return NotTestable(TimestampsOffCadenceGrid);
      }
    }
    var longRun, pairs := LongRunSum(scores, ts, cadence, maxLag);
    if longRun <= MACHINE_EPSILON {
      return NotTestable(NonPositiveHacVariance);
    }
    SquareSign(xx, xx * xx);
    PositiveQuotient(longRun, xx * xx);
    return Testable(longRun / (xx * xx));
  }

  // In exact arithmetic the variance is never negative: it is zero only when
  // every score is, whatever slots are missing.
  lemma LongRunSumSign(ts: seq<int>, scores: seq<real>, cadence: int, maxLag: nat)
    requires Gridded(ts, scores, cadence)
    ensures Bartlett(OnCadence(ts, scores, cadence), maxLag, maxLag) >= 0.0
    ensures Bartlett(OnCadence(ts, scores, cadence), maxLag, maxLag) == 0.0
       <==> forall i | 0 <= i < |scores| :: scores[i] == 0.0
  {
    var z, slots := OnCadence(ts, scores, cadence), Slots(ts, cadence);
    SlotsAreSlotted(ts, scores, cadence);
    BartlettSign(z, maxLag);
    if AllZero(z, |z|) {
      forall i | 0 <= i < |scores| ensures scores[i] == 0.0 {
        SlotLookup(slots, scores, i, 0);
        ScoreAtRow(slots, scores, i);
        assert slots[i] <= slots[|slots| - 1];
        assert At(z, slots[i]) == 0.0;
      }
    }
  }
}
