/**
 * The please-frequency metric: a per-session tracker that accumulates the number of "please"
 * variants in each utterance, the intensity category derived from the total, and an aggregator
 * over many trackers (percentiles and cohort sizes).
 */
module PleaseFrequency {
  import opened Shared

  /** One recorded utterance; only utterances with at least one match are recorded. */
  datatype Utterance = Utterance(
    text: string, pleaseCount: nat, timestamp: Time, context: map<string, Value>, matches: seq<string>)

  /** The sum of the please counts of the utterances. */
  function TotalCount(us: seq<Utterance>): nat
  {
    if us == [] then 0 else TotalCount(us[..|us| - 1]) + us[|us| - 1].pleaseCount
  }

  lemma TotalCountSnoc(us: seq<Utterance>, u: Utterance)
    ensures TotalCount(us + [u]) == TotalCount(us) + u.pleaseCount
  {
    assert (us + [u])[..|us + [u]| - 1] == us;
  }

  /** When every utterance has at least one match the total is at least the number of utterances. */
  lemma {:induction false} TotalAtLeastLength(us: seq<Utterance>)
    requires forall i :: 0 <= i < |us| ==> us[i].pleaseCount > 0
    ensures TotalCount(us) >= |us|
  {
    if us != [] {
      TotalAtLeastLength(us[..|us| - 1]);
    }
  }

  /** The category `get_intensity_category` returns; `NoIntensity` is the source's "none". */
  datatype Intensity = NoIntensity | Casual | Engaged | Invested | Critical

  function IntensityToken(c: Intensity): string
  {
    match c
    case NoIntensity => "none"
    case Casual => "casual"
    case Engaged => "engaged"
    case Invested => "invested"
    case Critical => "critical"
  }

  /** The thresholds of `get_intensity_category`, tested in order. */
  function CategoryOf(freq: nat): Intensity
  {
    if freq == 0 then NoIntensity
    else if freq <= 2 then Casual
    else if freq <= 7 then Engaged
    else if freq <= 14 then Invested
    else Critical
  }

  /** The categories split the frequencies into 0, 1-2, 3-7, 8-14 and 15 or more. */
  lemma CategoryRanges(freq: nat)
    ensures CategoryOf(freq) == NoIntensity <==> freq == 0
    ensures CategoryOf(freq) == Casual <==> 1 <= freq <= 2
    ensures CategoryOf(freq) == Engaged <==> 3 <= freq <= 7
    ensures CategoryOf(freq) == Invested <==> 8 <= freq <= 14
    ensures CategoryOf(freq) == Critical <==> freq >= 15
  {
  }

  /** A higher frequency never gives a lower category. */
  lemma CategoryMonotone(f: nat, g: nat)
    requires f <= g
    ensures Rank(CategoryOf(f)) <= Rank(CategoryOf(g))
  {
  }

  function Rank(c: Intensity): nat
  {
    match c
    case NoIntensity => 0
    case Casual => 1
    case Engaged => 2
    case Invested => 3
    case Critical => 4
  }

  /** `PleaseFrequencyTracker`: the utterances of one session. */
  class PleaseFrequencyTracker {
    const userId: string
    const sessionId: string
    var utterances: seq<Utterance>
    const sessionStart: Time

    /** Every recorded utterance has at least one match. */
    ghost predicate Valid()
      reads this
    {
      forall i :: 0 <= i < |utterances| ==> utterances[i].pleaseCount > 0
    }

    /**
     * `PleaseFrequencyTracker(user_id, session_id)`; a missing or empty session id is replaced by
     * "session_" followed by `clockText`, the text of the clock reading.
     */
    constructor (userId: string, sessionId: Option<string>, now: Time, clockText: string)
      ensures Valid() && utterances == [] && this.userId == userId && sessionStart == now
      ensures this.sessionId == if sessionId.Some? && sessionId.value != "" then sessionId.value else "session_" + clockText
    {
      this.userId := userId;
      this.sessionId := if sessionId.Some? && sessionId.value != "" then sessionId.value else "session_" + clockText;
      utterances := [];
      sessionStart := now;
    }

    /**
     * `record_utterance`, with `matches` the pattern's matches in `text`: recorded with their count
     * exactly when there is at least one.
     */
    method RecordUtterance(text: string, matches: seq<string>, context: Option<map<string, Value>>, now: Time)
      requires Valid()
      modifies this
      ensures Valid()
      ensures utterances == if |matches| > 0
        then old(utterances) + [Utterance(text, |matches|, now, if context.Some? then context.value else map[], matches)]
        else old(utterances)
    {
      var pleaseCount := |matches|;
      if pleaseCount > 0 {
        utterances := utterances + [Utterance(text, pleaseCount, now, if context.Some? then context.value else map[], matches)];
      }
    }

    /** `frequency`: the total number of matches recorded. */
    function Frequency(): nat
      reads this
    {
      TotalCount(utterances)
    }

    /** Each recorded utterance adds at least one to the frequency. */
    lemma FrequencyAtLeastUtterances()
      requires Valid()
      ensures Frequency() >= |utterances|
    {
      TotalAtLeastLength(utterances);
    }

    /** Recording adds the utterance's match count to the frequency. */
    lemma RecordAddsCount(old_utterances: seq<Utterance>, u: Utterance)
      requires utterances == old_utterances + [u]
      ensures Frequency() == TotalCount(old_utterances) + u.pleaseCount
    {
      TotalCountSnoc(old_utterances, u);
    }

    /** `correlates_with_retention`. */
    function CorrelatesWithRetention(): (b: bool)
      reads this
      ensures b <==> CategoryOf(Frequency()) == Engaged || CategoryOf(Frequency()) == Invested
    {
      3 <= Frequency() <= 14
    }

    /** `predicts_conversion`. */
    function PredictsConversion(): (b: bool)
      reads this
      ensures b <==> CategoryOf(Frequency()) == Invested || CategoryOf(Frequency()) == Critical
    {
      Frequency() >= 8
    }

    /** `indicates_distress`. */
    function IndicatesDistress(): (b: bool)
      reads this
      ensures b <==> CategoryOf(Frequency()) == Critical
      ensures b ==> PredictsConversion()
    {
      Frequency() >= 15
    }

    /** `get_intensity_category`. */
    function IntensityCategory(): Intensity
      reads this
    {
      CategoryOf(Frequency())
    }

    /** `session_duration` in seconds at the given time. */
    function SessionDuration(now: Time): int
      reads this
    {
      now - sessionStart
    }
  }

  // ---------------------------------------------------------------------------------------------
  // Sorting and percentiles
  // ---------------------------------------------------------------------------------------------

  predicate SortedInts(s: seq<nat>)
  {
    forall i, j :: 0 <= i <= j < |s| ==> s[i] <= s[j]
  }

  /** `x` put into place in a sorted sequence. */
  function Insert(s: seq<nat>, x: nat): (r: seq<nat>)
    requires SortedInts(s)
    ensures SortedInts(r)
    ensures |r| == |s| + 1
    ensures r[0] == if s == [] || x <= s[0] then x else s[0]
    ensures multiset(r) == multiset(s) + multiset{x}
  {
    if s == [] then [x]
    else if x <= s[0] then [x] + s
    else
      assert s == [s[0]] + s[1..];
      [s[0]] + Insert(s[1..], x)
  }

  /** `sorted(s)`: the same elements in ascending order. */
  function Sort(s: seq<nat>): (r: seq<nat>)
    ensures SortedInts(r)
    ensures |r| == |s|
    ensures multiset(r) == multiset(s)
  {
    if s == [] then []
    else
      var r := Insert(Sort(s[..|s| - 1]), s[|s| - 1]);
      assert s == s[..|s| - 1] + [s[|s| - 1]];
      r
  }

  /** `int(x)` for a rational `num / 100`: truncation toward zero. */
  function TruncDiv100(num: int): (q: int)
    ensures num >= 0 ==> 0 <= 100 * q <= num < 100 * q + 100
    ensures num < 0 ==> 100 * q - 100 < num <= 100 * q <= 0
  {
    if num >= 0 then num / 100 else -((-num) / 100)
  }

  /**
   * The index `percentile` reads: `int(p / 100 * n)` capped at `n - 1` (with exact arithmetic in
   * place of the floating-point product).
   */
  function PercentileIndex(p: int, n: nat): int
  {
    var index := TruncDiv100(p * n);
    if index < n - 1 then index else n - 1
  }

  /** Scaling by a non-negative factor keeps the order. */
  lemma MulMonotone(p: int, q: int, n: nat)
    requires p <= q
    ensures p * n <= q * n
  {
    assert q * n - p * n == (q - p) * n;
  }

  /** For `p` in 0..100 the index lies in `0..n-1`; a larger `p` never gives a smaller index. */
  lemma PercentileIndexBounds(p: int, q: int, n: nat)
    requires n > 0 && 0 <= p <= q <= 100
    ensures 0 <= PercentileIndex(p, n) <= PercentileIndex(q, n) < n
  {
    MulMonotone(0, p, n);
    MulMonotone(p, q, n);
    MulMonotone(q, 100, n);
  }

  /**
   * `percentile(p)` over the given frequencies: 0 with none; otherwise the sorted frequencies at
   * the index, counted from the end when negative (Python indexing), IndexError below `-n`.
   */
  function PercentileOf(freqs: seq<nat>, p: int): (r: Result<nat>)
    ensures freqs == [] ==> r == Ok(0)
    ensures freqs != [] ==> (r.Err? <==> PercentileIndex(p, |freqs|) < -|freqs|)
  {
    if freqs == [] then Ok(0)
    else
      var sorted := Sort(freqs);
      var index := PercentileIndex(p, |freqs|);
      if index >= 0 then Ok(sorted[index])
      else if index + |freqs| >= 0 then Ok(sorted[index + |freqs|])
      else Err(IndexError("list index out of range"))
  }

  /** For `p` in 0..100 the index is in range, so the percentile is one of the frequencies. */
  lemma PercentileInRange(freqs: seq<nat>, p: int)
    requires freqs != [] && 0 <= p <= 100
    ensures 0 <= PercentileIndex(p, |freqs|) < |freqs|
    ensures PercentileOf(freqs, p) == Ok(Sort(freqs)[PercentileIndex(p, |freqs|)])
    ensures PercentileOf(freqs, p).value in freqs
  {
    PercentileIndexBounds(p, p, |freqs|);
    var s := Sort(freqs);
    assert s[PercentileIndex(p, |freqs|)] in multiset(s);
  }

  /** For `p <= q` in 0..100 the `p`-th percentile is at most the `q`-th. */
  lemma PercentileMonotone(freqs: seq<nat>, p: int, q: int)
    requires freqs != [] && 0 <= p <= q <= 100
    ensures PercentileOf(freqs, p).Ok? && PercentileOf(freqs, q).Ok?
    ensures PercentileOf(freqs, p).value <= PercentileOf(freqs, q).value
  {
    PercentileInRange(freqs, p);
    PercentileInRange(freqs, q);
    PercentileIndexBounds(p, q, |freqs|);
  }

  /** The 100th percentile is the largest frequency. */
  lemma PercentileMaximum(freqs: seq<nat>)
    requires freqs != []
    ensures PercentileOf(freqs, 100).Ok?
    ensures forall f :: f in freqs ==> f <= PercentileOf(freqs, 100).value
  {
    PercentileInRange(freqs, 100);
    var s := Sort(freqs);
    assert TruncDiv100(100 * |freqs|) == |freqs|;
    forall f | f in freqs ensures f <= s[|s| - 1] {
      assert f in multiset(freqs);
      assert f in multiset(s);
      var i :| 0 <= i < |s| && s[i] == f;
    }
  }

  /** The category of each frequency, in order. */
  function CategoriesOf(freqs: seq<nat>): (cs: seq<Intensity>)
    ensures |cs| == |freqs|
  {
    if freqs == [] then [] else CategoriesOf(freqs[..|freqs| - 1]) + [CategoryOf(freqs[|freqs| - 1])]
  }

  lemma CategoriesOfSnoc(freqs: seq<nat>, f: nat)
    ensures CategoriesOf(freqs + [f]) == CategoriesOf(freqs) + [CategoryOf(f)]
  {
    assert (freqs + [f])[..|freqs + [f]| - 1] == freqs;
  }

  /** One more frequency adds one to the count of its category only. */
  lemma CategoryCountSnoc(freqs: seq<nat>, f: nat, c: Intensity)
    ensures Count(CategoriesOf(freqs + [f]), c) == Count(CategoriesOf(freqs), c) + (if c == CategoryOf(f) then 1 else 0)
  {
    CategoriesOfSnoc(freqs, f);
    var cs := CategoriesOf(freqs);
    assert (cs + [CategoryOf(f)])[..|cs|] == cs;
  }

  /** Only a zero frequency has no category. */
  lemma {:induction false} NoIntensityCountsZeros(freqs: seq<nat>)
    ensures Count(CategoriesOf(freqs), NoIntensity) == Count(freqs, 0)
  {
    if freqs != [] {
      var freqs' := freqs[..|freqs| - 1];
      NoIntensityCountsZeros(freqs');
      assert CategoriesOf(freqs)[..|freqs| - 1] == CategoriesOf(freqs');
    }
  }

  /** The four cohorts, in the order the source lists them. */
  const Cohorts: seq<Intensity> := [Casual, Engaged, Invested, Critical]

  /**
   * The four cohort sizes add up to the number of frequencies that are not zero: only the trackers
   * in the "none" category are dropped.
   */
  lemma CohortsCoverNonZero(freqs: seq<nat>)
    ensures SumCounts(CategoriesOf(freqs), Cohorts) == |freqs| - Count(freqs, 0)
  {
    var all := Cohorts + [NoIntensity];
    var cs := CategoriesOf(freqs);
    AllCategoriesDistinct();
    forall i | 0 <= i < |cs| ensures cs[i] in all {
      assert cs[i].NoIntensity? || cs[i].Casual? || cs[i].Engaged? || cs[i].Invested? || cs[i].Critical?;
    }
    SumCountsPartition(cs, all);
    assert all[..|all| - 1] == Cohorts;
    NoIntensityCountsZeros(freqs);
  }

  lemma AllCategoriesDistinct()
    ensures Distinct(Cohorts + [NoIntensity])
  {
    var all := Cohorts + [NoIntensity];
    forall i, j | 0 <= i < j < |all| ensures all[i] != all[j] {
      assert Rank(all[i]) != Rank(all[j]);
    }
  }

  /** The frequencies of the trackers, in order. */
  function FrequenciesOf(ts: seq<PleaseFrequencyTracker>): (fs: seq<nat>)
    reads ts
    ensures |fs| == |ts|
  {
    if ts == [] then [] else FrequenciesOf(ts[..|ts| - 1]) + [ts[|ts| - 1].Frequency()]
  }

  lemma FrequenciesOfStep(ts: seq<PleaseFrequencyTracker>, i: int)
    requires 0 <= i < |ts|
    ensures FrequenciesOf(ts[..i + 1]) == FrequenciesOf(ts[..i]) + [ts[i].Frequency()]
  {
    PrefixSnoc(ts, i);
  }

  /** `PleaseFrequencyAggregator`: the trackers added so far (shared with their other users). */
  class PleaseFrequencyAggregator {
    var trackers: seq<PleaseFrequencyTracker>

    constructor ()
      ensures trackers == []
    {
      trackers := [];
    }

    /** `add_tracker`. */
    method AddTracker(tracker: PleaseFrequencyTracker)
      modifies this
      ensures trackers == old(trackers) + [tracker]
    {
      trackers := trackers + [tracker];
    }

    /** `percentile(p)` over the trackers' current frequencies. */
    function Percentile(p: int): Result<nat>
      reads this, trackers
    {
      PercentileOf(FrequenciesOf(trackers), p)
    }

    /** With at least one tracker and `p` in 0..100 the percentile is some tracker's frequency. */
    lemma PercentileIsAFrequency(p: int)
      requires trackers != [] && 0 <= p <= 100
      ensures Percentile(p).Ok? && Percentile(p).value in FrequenciesOf(trackers)
    {
      PercentileInRange(FrequenciesOf(trackers), p);
    }

    /**
     * `cohort_analysis`: files each tracker under its category, skipping "none", and returns the
     * size of each of the four cohorts.
     */
    method CohortAnalysis() returns (sizes: map<Intensity, nat>)
      ensures forall c :: c in sizes <==> c in Cohorts
      ensures forall c :: c in sizes ==> sizes[c] == Count(CategoriesOf(FrequenciesOf(trackers)), c)
      ensures SumOver(sizes, Cohorts) == |trackers| - Count(FrequenciesOf(trackers), 0)
    {
      var cohorts: map<Intensity, seq<PleaseFrequencyTracker>> :=
        map[Casual := [], Engaged := [], Invested := [], Critical := []];
      var i := 0;
      while i < |trackers|
        invariant 0 <= i <= |trackers|
        invariant CohortsFiled(cohorts, trackers[..i])
      {
        cohorts := FileTracker(cohorts, i);
        i := i + 1;
      }
      assert trackers[..i] == trackers;
      sizes := map c | c in cohorts :: |cohorts[c]|;
      CohortSizes(cohorts, sizes, trackers);
    }

    /** One pass of `cohort_analysis`'s loop: the tracker at `i` joins the list of its category. */
    method FileTracker(cohorts: map<Intensity, seq<PleaseFrequencyTracker>>, i: int)
      returns (cohorts': map<Intensity, seq<PleaseFrequencyTracker>>)
      requires 0 <= i < |trackers| && CohortsFiled(cohorts, trackers[..i])
      ensures CohortsFiled(cohorts', trackers[..i + 1])
    {
      var tracker := trackers[i];
      var category := tracker.IntensityCategory();
      FrequenciesOfStep(trackers, i);
      forall c ensures Count(CategoriesOf(FrequenciesOf(trackers[..i + 1])), c)
                       == Count(CategoriesOf(FrequenciesOf(trackers[..i])), c) + (if c == category then 1 else 0)
      {
        CategoryCountSnoc(FrequenciesOf(trackers[..i]), tracker.Frequency(), c);
      }
      cohorts' := cohorts;
      if category in cohorts {
        cohorts' := cohorts[category := cohorts[category] + [tracker]];
      }
    }
  }

  /** The sizes of filed cohorts are the category counts, adding up to the non-zero frequencies. */
  lemma CohortSizes(cohorts: map<Intensity, seq<PleaseFrequencyTracker>>, sizes: map<Intensity, nat>,
                    ts: seq<PleaseFrequencyTracker>)
    requires CohortsFiled(cohorts, ts)
    requires sizes == map c | c in cohorts :: |cohorts[c]|
    ensures forall c :: c in sizes <==> c in Cohorts
    ensures forall c :: c in sizes ==> sizes[c] == Count(CategoriesOf(FrequenciesOf(ts)), c)
    ensures SumOver(sizes, Cohorts) == |ts| - Count(FrequenciesOf(ts), 0)
  {
    SumOverCounts(sizes, CategoriesOf(FrequenciesOf(ts)), Cohorts);
    CohortsCoverNonZero(FrequenciesOf(ts));
  }

  /** The lists hold the four cohorts, each as long as the number of the trackers in its category. */
  ghost predicate CohortsFiled(cohorts: map<Intensity, seq<PleaseFrequencyTracker>>, ts: seq<PleaseFrequencyTracker>)
    reads ts
  {
    (forall c :: c in cohorts <==> c in Cohorts) &&
    forall c :: c in cohorts ==> |cohorts[c]| == Count(CategoriesOf(FrequenciesOf(ts)), c)
  }
}
