/** The aggregation grid: buckets of one width, coarse and fine widths, UTC days. */
module Grid {
  const DAY_MS := 86_400_000

  predicate IsInterval(interval: int) {
    interval == 1_000 || interval == 60_000 || interval == 900_000
  }

  // The bucket a time falls in.
  function Bucket(time: int, interval: int): int
    requires interval > 0
  {
    time / interval * interval
  }

  predicate Aligned(time: int, interval: int)
    requires interval > 0
  {
    time % interval == 0
  }

  // ---- multiples ----

  lemma MultiplesAscend(a: int, b: int, c: int)
    requires a < b && c > 0
    ensures a * c + c <= b * c
  {
    var more := b - a - 1;
    assert b * c == a * c + c + more * c;
    assert more * c >= 0;
  }

  lemma MultipleIsAligned(q: int, c: int)
    requires c > 0
    ensures Aligned(q * c, c) && q * c / c == q
  {
    var t := q * c;
    DivisionOf(t, c);
    if t / c < q { MultiplesAscend(t / c, q, c); }
    if q < t / c { MultiplesAscend(q, t / c, c); }
  }

  lemma DivisionOf(t: int, c: int)
    requires c > 0
    ensures t == t / c * c + t % c && 0 <= t % c < c
  {
  }

  // ---- buckets ----

  lemma BucketIsAligned(time: int, interval: int)
    requires interval > 0
    ensures Aligned(Bucket(time, interval), interval)
    ensures Bucket(time, interval) <= time < Bucket(time, interval) + interval
    ensures Aligned(time, interval) ==> Bucket(time, interval) == time
  {
    DivisionOf(time, interval);
    MultipleIsAligned(time / interval, interval);
  }

  // Two aligned times are at least one interval apart.
  lemma NextAligned(from: int, upto: int, interval: int)
    requires interval > 0 && Aligned(from, interval) && Aligned(upto, interval)
    ensures Aligned(from + interval, interval)
    ensures from < upto ==> from + interval <= upto
  {
    var a, b := from / interval, upto / interval;
    DivisionOf(from, interval);
    DivisionOf(upto, interval);
    assert (a + 1) * interval == from + interval;
    MultipleIsAligned(a + 1, interval);
    if a < b {
      MultiplesAscend(a, b, interval);
    } else if b < a {
      MultiplesAscend(b, a, interval);
    }
  }

  lemma AlignedToFactor(time: int, fine: int, k: int, coarse: int)
    requires fine > 0 && k > 0 && coarse == k * fine && Aligned(time, coarse)
    ensures Aligned(time, fine)
  {
    var q := time / coarse;
    DivisionOf(time, coarse);
    assert q * (k * fine) == (q * k) * fine;
    MultipleIsAligned(q * k, fine);
  }

  lemma CoarseIsFine(bucket: int, fine: int, coarse: int)
    requires IsInterval(fine) && IsInterval(coarse) && fine <= coarse && Aligned(bucket, coarse)
    ensures Aligned(bucket, fine)
  {
    if fine == coarse {
    } else if coarse == 60_000 {
      AlignedToFactor(bucket, 1_000, 60, 60_000);
    } else if fine == 60_000 {
      AlignedToFactor(bucket, 60_000, 15, 900_000);
    } else {
      AlignedToFactor(bucket, 1_000, 900, 900_000);
    }
  }

  lemma DaysAreAligned(time: int, interval: int)
    requires IsInterval(interval) && Aligned(time, DAY_MS)
    ensures Aligned(time, interval) && Aligned(time + DAY_MS, interval)
  {
    NextAligned(time, time, DAY_MS);
    if interval == 1_000 {
      AlignedToFactor(time, 1_000, 86_400, DAY_MS);
      AlignedToFactor(time + DAY_MS, 1_000, 86_400, DAY_MS);
    } else if interval == 60_000 {
      AlignedToFactor(time, 60_000, 1_440, DAY_MS);
      AlignedToFactor(time + DAY_MS, 60_000, 1_440, DAY_MS);
    } else {
      AlignedToFactor(time, 900_000, 96, DAY_MS);
      AlignedToFactor(time + DAY_MS, 900_000, 96, DAY_MS);
    }
  }

  // A time is in a coarse bucket exactly when its fine bucket is.
  lemma FineInCoarse(time: int, fine: int, coarse: int, bucket: int)
    requires IsInterval(fine) && IsInterval(coarse) && fine <= coarse && Aligned(bucket, coarse)
    ensures Bucket(time, coarse) == bucket <==> bucket <= Bucket(time, fine) < bucket + coarse
    ensures Aligned(bucket, fine)
  {
    CoarseIsFine(bucket, fine, coarse);
    BucketIsAligned(time, fine);
    BucketIsAligned(time, coarse);
    CoarseIsFine(Bucket(time, coarse), fine, coarse);
    SameCoarse(time, fine, coarse, bucket, Bucket(time, fine), Bucket(time, coarse));
  }

  lemma SameCoarse(time: int, fine: int, coarse: int, bucket: int, inFine: int, inCoarse: int)
    requires fine > 0 && coarse > 0
    requires Aligned(bucket, coarse) && Aligned(inCoarse, coarse) && Aligned(bucket, fine) && Aligned(inFine, fine)
    requires Aligned(inCoarse, fine)
    requires inFine <= time < inFine + fine && inCoarse <= time < inCoarse + coarse
    ensures inCoarse == bucket <==> bucket <= inFine < bucket + coarse
  {
    NextAligned(inCoarse, bucket, coarse);
    NextAligned(bucket, inCoarse, coarse);
    NextAligned(inFine, inCoarse, fine);
    NextAligned(inFine, bucket, fine);
  }
}
