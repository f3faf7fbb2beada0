/**
  Reduction of the 3-hourly forecast list to at most five daily summaries:
  the samples are grouped by their date key in first-seen order, and each day
  gets the highest and lowest temperature and the most common description and
  icon of its samples.
 */
module Forecast {
  import opened Seqs
  import opened WeatherModel

  /** The number of days the forecast strip keeps. */
  const MaxDays := 5

  /**
    One entry of the forecast list. Its timestamp has already been turned into
    the key `toDateString` gives for it; the description and icon are those of
    the entry's first weather condition.
   */
  datatype Sample = Sample(dateKey: string, temp: int, description: string, icon: string)

  /** The three arrays the grouping collects for one date key. */
  datatype DayBucket = DayBucket(temps: seq<int>, descriptions: seq<string>, icons: seq<string>)

  /** The date key of each sample, in list order. */
  function DateKeys(samples: seq<Sample>): seq<string> {
    seq(|samples|, i requires 0 <= i < |samples| => samples[i].dateKey)
  }

  lemma DateKeysSnoc(samples: seq<Sample>, x: Sample)
    ensures DateKeys(samples + [x]) == DateKeys(samples) + [x.dateKey]
  {
  }

  /** What the grouping pass has pushed under `key` after reading `samples`. */
  function BucketOf(samples: seq<Sample>, key: string): (b: DayBucket)
    ensures |b.temps| == |b.descriptions| == |b.icons| == Count(DateKeys(samples), key)
  {
    if samples == [] then DayBucket([], [], [])
    else
      var prev, x := samples[..|samples| - 1], samples[|samples| - 1];
      DateKeysSnoc(prev, x);
      DistinctSnoc(DateKeys(prev), x.dateKey);
      assert samples == prev + [x];
      var b := BucketOf(prev, key);
      if x.dateKey == key then DayBucket(b.temps + [x.temp], b.descriptions + [x.description], b.icons + [x.icon])
      else b
  }

  /** A sample's temperature, description and icon are pushed into the bucket of its own date key. */
  lemma {:induction false} SampleInBucket(samples: seq<Sample>, p: nat)
    requires p < |samples|
    ensures var b := BucketOf(samples, samples[p].dateKey);
      samples[p].temp in b.temps && samples[p].description in b.descriptions && samples[p].icon in b.icons
  {
    var prev, x := samples[..|samples| - 1], samples[|samples| - 1];
    assert samples == prev + [x];
    if p < |prev| {
      assert samples[p] == prev[p];
      SampleInBucket(prev, p);
    }
  }

  /** Entry `q` of a bucket comes, all three arrays alike, from one sample carrying the bucket's key. */
  lemma {:induction false} BucketEntrySource(samples: seq<Sample>, key: string, q: nat) returns (p: nat)
    requires q < |BucketOf(samples, key).temps|
    ensures p < |samples| && samples[p].dateKey == key
    ensures var b := BucketOf(samples, key);
      && samples[p].temp == b.temps[q]
      && samples[p].description == b.descriptions[q]
      && samples[p].icon == b.icons[q]
  {
    var prev, x := samples[..|samples| - 1], samples[|samples| - 1];
    assert samples == prev + [x];
    var b' := BucketOf(prev, key);
    if q < |b'.temps| {
      p := BucketEntrySource(prev, key, q);
      assert samples[p] == prev[p];
    } else {
      p := |samples| - 1;
    }
  }

  /** `Math.max` over a non-empty array. */
  function Max(xs: seq<int>): (m: int)
    requires |xs| > 0
    ensures m in xs
    ensures forall i :: 0 <= i < |xs| ==> xs[i] <= m
  {
    if |xs| == 1 then xs[0]
    else
      var m' := Max(xs[..|xs| - 1]);
      assert xs == xs[..|xs| - 1] + [xs[|xs| - 1]];
      if xs[|xs| - 1] > m' then xs[|xs| - 1] else m'
  }

  /** `Math.min` over a non-empty array. */
  function Min(xs: seq<int>): (m: int)
    requires |xs| > 0
    ensures m in xs
    ensures forall i :: 0 <= i < |xs| ==> m <= xs[i]
  {
    if |xs| == 1 then xs[0]
    else
      var m' := Min(xs[..|xs| - 1]);
      assert xs == xs[..|xs| - 1] + [xs[|xs| - 1]];
      if xs[|xs| - 1] < m' then xs[|xs| - 1] else m'
  }

  /**
    The position in `ks` that `ks.reduce((a, b) => counts[a] > counts[b] ? a : b)`
    ends on, where `counts` tallies `arr`: a later key replaces the one held
    unless the held one's count is strictly greater.
   */
  function ReduceIndex(ks: seq<string>, arr: seq<string>): (r: nat)
    requires |ks| > 0
    ensures r < |ks|
    ensures forall j :: 0 <= j < |ks| ==> Count(arr, ks[j]) <= Count(arr, ks[r])
    ensures forall j :: r < j < |ks| ==> Count(arr, ks[j]) < Count(arr, ks[r])
  {
    if |ks| == 1 then 0
    else
      var i := ReduceIndex(ks[..|ks| - 1], arr);
      assert forall j :: 0 <= j < |ks| - 1 ==> ks[..|ks| - 1][j] == ks[j];
      if Count(arr, ks[i]) > Count(arr, ks[|ks| - 1]) then i else |ks| - 1
  }

  /** One more step of the reduction. */
  lemma ReduceIndexSnoc(ks: seq<string>, k: string, arr: seq<string>)
    requires |ks| > 0
    ensures ReduceIndex(ks + [k], arr) ==
      var h := ReduceIndex(ks, arr);
      if Count(arr, ks[h]) > Count(arr, k) then h else |ks|
  {
    assert (ks + [k])[..|ks|] == ks;
  }

  /** The value `getMostCommon` returns for a non-empty array. */
  function ModalOf(arr: seq<string>): string
    requires |arr| > 0
  {
    var ks := Distinct(arr);
    assert arr[0] in ks;
    ks[ReduceIndex(ks, arr)]
  }

  /** No value of the array beats the modal value: none is more frequent, and a tied one first occurs no later. */
  lemma ModalBeats(arr: seq<string>, x: string)
    requires |arr| > 0 && x in arr
    ensures Count(arr, x) <= Count(arr, ModalOf(arr))
    ensures Count(arr, x) == Count(arr, ModalOf(arr)) ==> FirstIndex(arr, x) <= FirstIndex(arr, ModalOf(arr))
  {
    var ks := Distinct(arr);
    assert arr[0] in ks;
    var r := ReduceIndex(ks, arr);
    assert x in ks;
    var j :| 0 <= j < |ks| && ks[j] == x;
    if Count(arr, x) == Count(arr, ks[r]) && j != r {
      assert j < r;
      DistinctInFirstSeenOrder(arr);
      assert FirstIndex(arr, ks[j]) < FirstIndex(arr, ks[r]);
    }
  }

  /**
    The modal value is an element of the array with the largest count; among
    values tied at that count it is the one whose first occurrence is latest.
   */
  lemma ModalIsMostCommon(arr: seq<string>)
    requires |arr| > 0
    ensures ModalOf(arr) in arr
    ensures forall x :: x in arr ==> Count(arr, x) <= Count(arr, ModalOf(arr))
    ensures forall x :: x in arr && Count(arr, x) == Count(arr, ModalOf(arr)) ==>
      FirstIndex(arr, x) <= FirstIndex(arr, ModalOf(arr))
  {
    forall x | x in arr
      ensures Count(arr, x) <= Count(arr, ModalOf(arr))
      ensures Count(arr, x) == Count(arr, ModalOf(arr)) ==> FirstIndex(arr, x) <= FirstIndex(arr, ModalOf(arr))
    {
      ModalBeats(arr, x);
    }
  }

  /** The tally of `done` so far: its distinct values in first-seen order, each with its count. */
  ghost predicate Tallied(done: seq<string>, keys: seq<string>, counts: map<string, nat>) {
    && keys == Distinct(done)
    && (forall k :: k in counts <==> k in done)
    && (forall k :: k in counts ==> counts[k] == Count(done, k))
  }

  /** The counts after one more item: the item's count goes up by one, the others stay. */
  lemma CountsStep(done: seq<string>, item: string, counts: map<string, nat>)
    requires forall k :: k in counts <==> k in done
    requires forall k :: k in counts ==> counts[k] == Count(done, k)
    ensures var counts' := counts[item := if item in counts then counts[item] + 1 else 1];
      && (forall k :: k in counts' <==> k in done + [item])
      && (forall k :: k in counts' ==> counts'[k] == Count(done + [item], k))
  {
    var counts' := counts[item := if item in counts then counts[item] + 1 else 1];
    forall k | k in counts' ensures counts'[k] == Count(done + [item], k) {
      CountSnoc(done, item, k);
      if k != item {
        assert k in counts;
      } else if item !in counts {
        assert Count(done, k) == 0;
      }
    }
  }

  /** Counting one more item: a new key is appended, and only the item's count goes up. */
  lemma TallyStep(done: seq<string>, item: string, keys: seq<string>, counts: map<string, nat>)
    requires Tallied(done, keys, counts)
    ensures var c := if item in counts then counts[item] else 0;
      Tallied(done + [item], if item in counts then keys else keys + [item], counts[item := c + 1])
  {
    DistinctSnoc(done, item);
    assert item in Distinct(done) <==> item in done;
    CountsStep(done, item, counts);
  }

  /**
    The first half of `getMostCommon`: the `counts` dictionary filled by
    `counts[item] = (counts[item] || 0) + 1`, with its keys in insertion order.
   */
  method Tally(arr: seq<string>) returns (keys: seq<string>, counts: map<string, nat>)
    ensures keys == Distinct(arr)
    ensures forall k :: k in counts <==> k in arr
    ensures forall k :: k in counts ==> counts[k] == Count(arr, k)
  {
    keys, counts := [], map[];
    for i := 0 to |arr|
      invariant Tallied(arr[..i], keys, counts)
    {
      var item := arr[i];
      assert arr[..i + 1] == arr[..i] + [item];
      TallyStep(arr[..i], item, keys, counts);
      var c := if item in counts then counts[item] else 0;
      if item !in counts {
        keys := keys + [item];
      }
      counts := counts[item := c + 1];
    }
    assert arr[..|arr|] == arr;
  }

  /** Only one position holds a largest count with every later count strictly smaller: the one `ReduceIndex` finds. */
  lemma ReduceIndexUnique(ks: seq<string>, arr: seq<string>, i: nat)
    requires i < |ks|
    requires forall j :: 0 <= j < |ks| ==> Count(arr, ks[j]) <= Count(arr, ks[i])
    requires forall j :: i < j < |ks| ==> Count(arr, ks[j]) < Count(arr, ks[i])
    ensures i == ReduceIndex(ks, arr)
  {
    var r := ReduceIndex(ks, arr);
    assert Count(arr, ks[r]) <= Count(arr, ks[i]) && Count(arr, ks[i]) <= Count(arr, ks[r]);
  }

  /** The `reduce` over the keys of the tally, comparing the counts it holds. */
  method ReduceKeys(keys: seq<string>, counts: map<string, nat>, ghost arr: seq<string>) returns (r: string)
    requires |keys| > 0
    requires forall k :: k in keys ==> k in counts && counts[k] == Count(arr, k)
    ensures r == keys[ReduceIndex(keys, arr)]
  {
    r := keys[0];
    ghost var held := 0;
    for j := 1 to |keys|
      invariant held < j && r == keys[held]
      invariant forall q :: 0 <= q < j ==> Count(arr, keys[q]) <= Count(arr, r)
      invariant forall q :: held < q < j ==> Count(arr, keys[q]) < Count(arr, r)
    {
      if counts[r] > counts[keys[j]] {
      } else {
        r, held := keys[j], j;
      }
    }
    ReduceIndexUnique(keys, arr, held);
  }

  /**
    `getMostCommon`: tally the array, then reduce over the keys, keeping the
    held key only while its count is strictly greater.
   */
  method MostCommon(arr: seq<string>) returns (r: string)
    requires |arr| > 0
    ensures r == ModalOf(arr)
  {
    var keys, counts := Tally(arr);
    assert arr[0] in keys;
    r := ReduceKeys(keys, counts, arr);
  }

  /** The date keys the forecast strip shows: the first five in first-seen order. */
  function ShownKeys(samples: seq<Sample>): (ks: seq<string>)
    ensures |ks| <= MaxDays
  {
    var keys := Distinct(DateKeys(samples));
    if |keys| <= MaxDays then keys else keys[..MaxDays]
  }

  /** A bucket that holds at least one sample. */
  predicate NonEmpty(b: DayBucket) {
    |b.temps| > 0 && |b.descriptions| > 0 && |b.icons| > 0
  }

  /** The summary of one day's bucket. */
  function Summarize(key: string, b: DayBucket): DayForecast
    requires NonEmpty(b)
  {
    DayForecast(key, Max(b.temps), Min(b.temps), ModalOf(b.descriptions), ModalOf(b.icons))
  }

  /** What `processForecastData` returns for a forecast list. */
  function Aggregate(samples: seq<Sample>): seq<DayForecast> {
    var ks := ShownKeys(samples);
    seq(|ks|, i requires 0 <= i < |ks| =>
      assert ks[i] in DateKeys(samples);
      Summarize(ks[i], BucketOf(samples, ks[i])))
  }

  /**
    The grouping pass of `processForecastData`: `dailyData` after every sample
    has pushed its temperature, description and icon under its date key, and
    the dictionary's keys in insertion order.
   */
  method GroupByDate(samples: seq<Sample>) returns (order: seq<string>, dailyData: map<string, DayBucket>)
    ensures order == Distinct(DateKeys(samples))
    ensures forall k :: k in dailyData <==> k in DateKeys(samples)
    ensures forall k :: k in dailyData ==> dailyData[k] == BucketOf(samples, k)
  {
    order, dailyData := [], map[];
    for i := 0 to |samples|
      invariant order == Distinct(DateKeys(samples[..i]))
      invariant forall k :: k in dailyData <==> Count(DateKeys(samples[..i]), k) > 0
      invariant forall k :: k in dailyData ==> dailyData[k] == BucketOf(samples[..i], k)
    {
      var item := samples[i];
      assert samples[..i + 1] == samples[..i] + [item];
      DateKeysSnoc(samples[..i], item);
      DistinctSnoc(DateKeys(samples[..i]), item.dateKey);
      if item.dateKey !in dailyData {
        dailyData := dailyData[item.dateKey := DayBucket([], [], [])];
        order := order + [item.dateKey];
      }
      var b := dailyData[item.dateKey];
      dailyData := dailyData[item.dateKey := DayBucket(b.temps + [item.temp], b.descriptions + [item.description], b.icons + [item.icon])];
      forall k | true ensures Count(DateKeys(samples[..i + 1]), k) == Count(DateKeys(samples[..i]), k) + (if k == item.dateKey then 1 else 0) {
        CountSnoc(DateKeys(samples[..i]), item.dateKey, k);
      }
    }
    assert samples[..|samples|] == samples;
  }

  /** Summarising the grouped buckets in insertion order, up to five of them, is `Aggregate`. */
  lemma GroupedSummaries(samples: seq<Sample>, order: seq<string>, dailyData: map<string, DayBucket>, days: seq<DayForecast>)
    requires order == Distinct(DateKeys(samples))
    requires forall k :: k in dailyData ==> dailyData[k] == BucketOf(samples, k)
    requires |days| == if |order| <= MaxDays then |order| else MaxDays
    requires forall t :: 0 <= t < |days| ==>
      order[t] in dailyData && NonEmpty(dailyData[order[t]]) && days[t] == Summarize(order[t], dailyData[order[t]])
    ensures days == Aggregate(samples)
  {
    AggregateLength(samples);
    forall t | 0 <= t < |days| ensures days[t] == Aggregate(samples)[t] {
      AggregateAt(samples, t);
    }
  }

  lemma AggregateLength(samples: seq<Sample>)
    ensures var n := |Distinct(DateKeys(samples))|;
      |Aggregate(samples)| == if n <= MaxDays then n else MaxDays
  {
  }

  lemma AggregateAt(samples: seq<Sample>, j: nat)
    requires j < |ShownKeys(samples)|
    ensures var key := ShownKeys(samples)[j];
      && key == Distinct(DateKeys(samples))[j]
      && key in DateKeys(samples)
      && |Aggregate(samples)| == |ShownKeys(samples)|
      && Aggregate(samples)[j] == Summarize(key, BucketOf(samples, key))
  {
  }

  /** One day's entry: extremes of the temperatures and the most common description and icon. */
  method SummarizeDay(key: string, b: DayBucket) returns (d: DayForecast)
    requires NonEmpty(b)
    ensures d == Summarize(key, b)
  {
    var description := MostCommon(b.descriptions);
    var icon := MostCommon(b.icons);
    d := DayForecast(key, Max(b.temps), Min(b.temps), description, icon);
  }

  /** `processForecastData`: group the samples by date key, then summarise the first five keys. */
  method ProcessForecastData(samples: seq<Sample>) returns (days: seq<DayForecast>)
    ensures days == Aggregate(samples)
  {
    var order, dailyData := GroupByDate(samples);
    var n := if |order| <= MaxDays then |order| else MaxDays;
    forall t | 0 <= t < n ensures order[t] in dailyData && NonEmpty(dailyData[order[t]]) {
      assert order[t] in DateKeys(samples);
    }
    days := SummarizeFirst(order, dailyData, n);
    GroupedSummaries(samples, order, dailyData, days);
  }

  /** The summarising pass: one entry for each of the first `n` keys, in order. */
  method SummarizeFirst(order: seq<string>, dailyData: map<string, DayBucket>, n: nat) returns (days: seq<DayForecast>)
    requires n <= |order|
    requires forall t :: 0 <= t < n ==> order[t] in dailyData && NonEmpty(dailyData[order[t]])
    ensures |days| == n
    ensures forall t :: 0 <= t < n ==> days[t] == Summarize(order[t], dailyData[order[t]])
  {
    days := [];
    for j := 0 to n
      invariant |days| == j
      invariant forall t :: 0 <= t < j ==> days[t] == Summarize(order[t], dailyData[order[t]])
    {
      var d := SummarizeDay(order[j], dailyData[order[j]]);
      days := days + [d];
    }
  }

  /** An empty forecast list gives no days. */
  lemma AggregateEmpty()
    ensures Aggregate([]) == []
  {
  }

  /** One entry per distinct date key, capped at five, carrying the first date keys in first-seen order. */
  lemma AggregateKeys(samples: seq<Sample>)
    ensures var keys := Distinct(DateKeys(samples));
      && |Aggregate(samples)| == (if |keys| <= MaxDays then |keys| else MaxDays)
      && (forall i :: 0 <= i < |Aggregate(samples)| ==> Aggregate(samples)[i].dateKey == keys[i])
  {
  }

  /** The days appear in the order in which their dates first occur in the list, no date twice. */
  lemma AggregateInFirstSeenOrder(samples: seq<Sample>)
    ensures forall i :: 0 <= i < |Aggregate(samples)| ==> Aggregate(samples)[i].dateKey in DateKeys(samples)
    ensures forall i, j :: 0 <= i < j < |Aggregate(samples)| ==>
      FirstIndex(DateKeys(samples), Aggregate(samples)[i].dateKey) < FirstIndex(DateKeys(samples), Aggregate(samples)[j].dateKey)
  {
    var keys := Distinct(DateKeys(samples));
    DistinctInFirstSeenOrder(DateKeys(samples));
    AggregateKeys(samples);
  }

  /** With at most five distinct dates, every sample's date has its day in the result. */
  lemma AggregateCoversFewDates(samples: seq<Sample>)
    requires |Distinct(DateKeys(samples))| <= MaxDays
    ensures forall p :: 0 <= p < |samples| ==>
      exists i :: 0 <= i < |Aggregate(samples)| && Aggregate(samples)[i].dateKey == samples[p].dateKey
  {
    var keys := Distinct(DateKeys(samples));
    var days := Aggregate(samples);
    AggregateKeys(samples);
    forall p | 0 <= p < |samples|
      ensures exists i :: 0 <= i < |days| && days[i].dateKey == samples[p].dateKey
    {
      assert DateKeys(samples)[p] == samples[p].dateKey;
      assert samples[p].dateKey in keys;
      var i :| 0 <= i < |keys| && keys[i] == samples[p].dateKey;
      assert days[i].dateKey == keys[i];
    }
  }

  /** Every sample is grouped under its own date key only, and the buckets together hold every sample once. */
  lemma BucketsPartitionSamples(samples: seq<Sample>)
    ensures forall k :: |BucketOf(samples, k).temps| == Count(DateKeys(samples), k)
    ensures SumOfCounts(Distinct(DateKeys(samples)), DateKeys(samples)) == |samples|
  {
    CountsPartition(DateKeys(samples));
  }

  /** Each day's high and low bound every temperature of that day's samples and are both attained. */
  lemma AggregateTemperatureRange(samples: seq<Sample>, i: nat)
    requires i < |Aggregate(samples)|
    ensures var d := Aggregate(samples)[i];
      && d.lowTemp <= d.highTemp
      && (forall p :: 0 <= p < |samples| && samples[p].dateKey == d.dateKey ==>
            d.lowTemp <= samples[p].temp <= d.highTemp)
      && (exists p :: 0 <= p < |samples| && samples[p].dateKey == d.dateKey && samples[p].temp == d.highTemp)
      && (exists p :: 0 <= p < |samples| && samples[p].dateKey == d.dateKey && samples[p].temp == d.lowTemp)
  {
    var ks := ShownKeys(samples);
    var key := ks[i];
    assert key in DateKeys(samples);
    var b := BucketOf(samples, key);
    var d := Aggregate(samples)[i];
    assert d == Summarize(key, b);
    forall p | 0 <= p < |samples| && samples[p].dateKey == d.dateKey
      ensures d.lowTemp <= samples[p].temp <= d.highTemp
    {
      SampleInBucket(samples, p);
    }
    var qh :| 0 <= qh < |b.temps| && b.temps[qh] == d.highTemp;
    var ph := BucketEntrySource(samples, key, qh);
    var ql :| 0 <= ql < |b.temps| && b.temps[ql] == d.lowTemp;
    var pl := BucketEntrySource(samples, key, ql);
  }

  /** A day with a single sample has its high equal to its low. */
  lemma SingleSampleDay(samples: seq<Sample>, i: nat)
    requires i < |Aggregate(samples)|
    requires Count(DateKeys(samples), Aggregate(samples)[i].dateKey) == 1
    ensures Aggregate(samples)[i].highTemp == Aggregate(samples)[i].lowTemp
  {
    var ks := ShownKeys(samples);
    assert ks[i] in DateKeys(samples);
    var b := BucketOf(samples, ks[i]);
    assert |b.temps| == 1;
  }

  /**
    Each day's description and icon are values of that day's samples, occurring
    there at least as often as any other.
   */
  lemma AggregateConditions(samples: seq<Sample>, i: nat)
    requires i < |Aggregate(samples)|
    ensures var d := Aggregate(samples)[i];
      var b := BucketOf(samples, d.dateKey);
      && (exists p :: 0 <= p < |samples| && samples[p].dateKey == d.dateKey && samples[p].description == d.description)
      && (exists p :: 0 <= p < |samples| && samples[p].dateKey == d.dateKey && samples[p].icon == d.icon)
      && (forall x :: x in b.descriptions ==> Count(b.descriptions, x) <= Count(b.descriptions, d.description))
      && (forall x :: x in b.icons ==> Count(b.icons, x) <= Count(b.icons, d.icon))
  {
    var ks := ShownKeys(samples);
    var key := ks[i];
    assert key in DateKeys(samples);
    var b := BucketOf(samples, key);
    var d := Aggregate(samples)[i];
    assert d == Summarize(key, b);
    ModalIsMostCommon(b.descriptions);
    ModalIsMostCommon(b.icons);
    var qd :| 0 <= qd < |b.descriptions| && b.descriptions[qd] == d.description;
    var pd := BucketEntrySource(samples, key, qd);
    var qi :| 0 <= qi < |b.icons| && b.icons[qi] == d.icon;
    var pi := BucketEntrySource(samples, key, qi);
  }
}
