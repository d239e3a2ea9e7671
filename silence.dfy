/**
 * The silence duration analyzer: periods of silence between user activities, each classified by
 * its length and context once it closes, and the decisions taken on the recorded periods.
 */
module Silence {
  import opened Shared

  /** `SilenceType`, in its declaration order. */
  datatype SilenceType = Processing | Contemplation | Dissociation | Overwhelm | Technical | Abandonment | Unknown

  function TypeToken(t: SilenceType): string
  {
    match t
    case Processing => "processing"
    case Contemplation => "contemplation"
    case Dissociation => "dissociation"
    case Overwhelm => "overwhelm"
    case Technical => "technical"
    case Abandonment => "abandonment"
    case Unknown => "unknown"
  }

  /** The members of the enumeration in iteration order. */
  const AllSilenceTypes: seq<SilenceType> :=
    [Processing, Contemplation, Dissociation, Overwhelm, Technical, Abandonment, Unknown]

  function TypeIndex(t: SilenceType): nat
  {
    match t
    case Processing => 0
    case Contemplation => 1
    case Dissociation => 2
    case Overwhelm => 3
    case Technical => 4
    case Abandonment => 5
    case Unknown => 6
  }

  lemma AllSilenceTypesDistinct()
    ensures Distinct(AllSilenceTypes)
    ensures forall t: SilenceType :: t in AllSilenceTypes
  {
    forall i, j | 0 <= i < j < |AllSilenceTypes| ensures AllSilenceTypes[i] != AllSilenceTypes[j] {
      assert TypeIndex(AllSilenceTypes[i]) == i && TypeIndex(AllSilenceTypes[j]) == j;
    }
    forall t: SilenceType ensures t in AllSilenceTypes {
      assert AllSilenceTypes[TypeIndex(t)] == t;
    }
  }

  /** `context or {}`. */
  function ContextOrEmpty(context: Option<map<string, Value>>): map<string, Value>
  {
    if context.Some? then context.value else map[]
  }

  /** `context.get(key, False)`, read as a condition. */
  predicate Flagged(context: map<string, Value>, key: string)
  {
    Truthy(Get(context, key, Flag(false)))
  }

  /** The rules of `classify`, tested in order: the classification and its confidence. */
  function ClassifyRule(duration: int, context: map<string, Value>): (SilenceType, real)
  {
    if Flagged(context, "latency_detected") then (Technical, 0.95)
    else if duration < 10 then (Unknown, 0.3)
    else if 10 <= duration < 30 then (Processing, 0.8)
    else if 30 <= duration < 90 then
      (if Flagged(context, "decision_prompt_present") then (Contemplation, 0.85) else (Processing, 0.65))
    else if 90 <= duration < 180 then
      (if Flagged(context, "high_emotional_content") then (Overwhelm, 0.75) else (Dissociation, 0.70))
    else if 180 <= duration < 300 then (Abandonment, 0.80)
    else (Abandonment, 0.95)
  }

  /**
   * What each duration band yields (latency overriding all of them): the classification is
   * UNKNOWN exactly for a short silence without latency, TECHNICAL exactly when latency was
   * detected, and the confidence lies in 0.3..0.95.
   */
  lemma ClassifyBands(duration: int, context: map<string, Value>)
    ensures var (c, conf) := ClassifyRule(duration, context);
      && (c == Technical <==> Flagged(context, "latency_detected"))
      && (c == Unknown <==> !Flagged(context, "latency_detected") && duration < 10)
      && 0.3 <= conf <= 0.95
    ensures !Flagged(context, "latency_detected") ==>
      var c := ClassifyRule(duration, context).0;
      && (10 <= duration < 30 ==> c == Processing)
      && (30 <= duration < 90 ==> c == (if Flagged(context, "decision_prompt_present") then Contemplation else Processing))
      && (90 <= duration < 180 ==> c == (if Flagged(context, "high_emotional_content") then Overwhelm else Dissociation))
      && (duration >= 180 ==> c == Abandonment)
  {
  }

  /** Without context flags, a longer silence never moves back to an earlier band. */
  lemma ClassifyOrderedWithoutContext(d1: int, d2: int)
    requires 10 <= d1 <= d2
    ensures TypeIndex(ClassifyRule(d1, map[]).0) <= TypeIndex(ClassifyRule(d2, map[]).0)
  {
  }

  /** `SilencePeriod`: a silence from `start`, closed once `end` is set, classified on request. */
  class SilencePeriod {
    const start: Time
    var end: Option<Time>
    var context: map<string, Value>
    var classification: Option<SilenceType>
    var confidence: real

    constructor (start: Time, end: Option<Time>, context: Option<map<string, Value>>)
      ensures this.start == start && this.end == end && this.context == ContextOrEmpty(context)
      ensures classification == None && confidence == 0.0
    {
      this.start := start;
      this.end := end;
      this.context := ContextOrEmpty(context);
      classification := None;
      confidence := 0.0;
    }

    /** `duration_seconds`: up to `end`, or up to `now` while the period is open. */
    function DurationSeconds(now: Time): int
      reads this
    {
      (if end.Some? then end.value else now) - start
    }

    /** `classify`: records and returns the classification the rules give. */
    method Classify(now: Time) returns (c: SilenceType)
      modifies this
      ensures (c, confidence) == ClassifyRule(DurationSeconds(now), context)
      ensures classification == Some(c)
      ensures end == old(end) && context == old(context)
    {
      var rule := ClassifyRule(DurationSeconds(now), context);
      classification := Some(rule.0);
      confidence := rule.1;
      c := rule.0;
    }
  }

  /**
   * A period as `mark_activity` records it: closed, at least 10 seconds long and classified by the
   * rules on its final duration and context.
   */
  ghost predicate Recorded(p: SilencePeriod)
    reads p
  {
    && p.end.Some?
    && p.end.value - p.start >= 10
    && p.classification == Some(ClassifyRule(p.end.value - p.start, p.context).0)
  }

  /** A recorded period is never UNKNOWN. */
  lemma RecordedIsKnown(p: SilencePeriod)
    requires Recorded(p)
    ensures p.classification.Some? && p.classification.value != Unknown
  {
    ClassifyBands(p.end.value - p.start, p.context);
  }

  /** The classifications of the periods that have one, in order. */
  function ClassifiedTypes(ps: seq<SilencePeriod>): (cs: seq<SilenceType>)
    reads ps
    ensures |cs| <= |ps|
  {
    if ps == [] then []
    else
      var p := ps[|ps| - 1];
      ClassifiedTypes(ps[..|ps| - 1]) + (if p.classification.Some? then [p.classification.value] else [])
  }

  lemma ClassifiedTypesStep(ps: seq<SilencePeriod>, i: int)
    requires 0 <= i < |ps|
    ensures ClassifiedTypes(ps[..i + 1])
            == ClassifiedTypes(ps[..i]) + (if ps[i].classification.Some? then [ps[i].classification.value] else [])
  {
    PrefixSnoc(ps, i);
    assert ps[..i + 1][..i] == ps[..i];
  }

  /** When every period is recorded, every period has a classification and none is UNKNOWN. */
  lemma {:induction false} RecordedAllClassified(ps: seq<SilencePeriod>)
    requires forall i :: 0 <= i < |ps| ==> Recorded(ps[i])
    ensures |ClassifiedTypes(ps)| == |ps|
    ensures Count(ClassifiedTypes(ps), Unknown) == 0
  {
    if ps != [] {
      var ps' := ps[..|ps| - 1];
      RecordedAllClassified(ps');
      RecordedIsKnown(ps[|ps| - 1]);
      var cs' := ClassifiedTypes(ps');
      var last := ps[|ps| - 1].classification.value;
      assert ClassifiedTypes(ps) == cs' + [last];
      assert (cs' + [last])[..|cs'|] == cs';
    }
  }

  /** The number of periods classified PROCESSING or CONTEMPLATION: the "good" silences. */
  function GoodCount(ps: seq<SilencePeriod>): nat
    reads ps
  {
    if ps == [] then 0
    else
      var c := ps[|ps| - 1].classification;
      GoodCount(ps[..|ps| - 1]) + (if c == Some(Processing) || c == Some(Contemplation) then 1 else 0)
  }

  /** The good silences are the PROCESSING and CONTEMPLATION entries among the classifications. */
  lemma {:induction false} GoodCountSplits(ps: seq<SilencePeriod>)
    ensures GoodCount(ps) == Count(ClassifiedTypes(ps), Processing) + Count(ClassifiedTypes(ps), Contemplation)
  {
    if ps != [] {
      var ps' := ps[..|ps| - 1];
      GoodCountSplits(ps');
      var c := ps[|ps| - 1].classification;
      assert GoodCount(ps) == GoodCount(ps') + (if c == Some(Processing) || c == Some(Contemplation) then 1 else 0);
      if c.Some? {
        assert ClassifiedTypes(ps) == ClassifiedTypes(ps') + [c.value];
        CountSnocOne(ClassifiedTypes(ps'), c.value, Processing);
        CountSnocOne(ClassifiedTypes(ps'), c.value, Contemplation);
      } else {
        assert ClassifiedTypes(ps) == ClassifiedTypes(ps');
      }
    }
  }

  /** The number of periods classified DISSOCIATION. */
  function DissociationCount(ps: seq<SilencePeriod>): nat
    reads ps
  {
    if ps == [] then 0
    else DissociationCount(ps[..|ps| - 1]) + (if ps[|ps| - 1].classification == Some(Dissociation) then 1 else 0)
  }

  lemma {:induction false} DissociationCountIsCount(ps: seq<SilencePeriod>)
    ensures DissociationCount(ps) == Count(ClassifiedTypes(ps), Dissociation)
  {
    if ps != [] {
      var ps' := ps[..|ps| - 1];
      DissociationCountIsCount(ps');
      var c := ps[|ps| - 1].classification;
      assert DissociationCount(ps) == DissociationCount(ps') + (if c == Some(Dissociation) then 1 else 0);
      if c.Some? {
        assert ClassifiedTypes(ps) == ClassifiedTypes(ps') + [c.value];
        CountSnocOne(ClassifiedTypes(ps'), c.value, Dissociation);
      } else {
        assert ClassifiedTypes(ps) == ClassifiedTypes(ps');
      }
    }
  }

  /** A ratio above 0.6 in exact arithmetic, stated without division. */
  lemma RatioAboveThreeFifths(part: real, whole: real)
    requires whole > 0.0
    ensures part / whole > 0.6 <==> 5.0 * part > 3.0 * whole
  {
    var r := part / whole;
    assert part == r * whole;
    if r > 0.6 {
      assert (r - 0.6) * whole > 0.0;
    } else {
      assert (0.6 - r) * whole >= 0.0;
    }
  }

  /** The wait `optimal_prompt_timing` aims for after a silence with this classification. */
  function PromptTarget(c: Option<SilenceType>): nat
  {
    if c == Some(Processing) then 50
    else if c == Some(Contemplation) then 75
    else if c == Some(Dissociation) then 90
    else if c == Some(Overwhelm) then 60
    else 60
  }

  /** A count for every type, equal to the number of the periods classified that way. */
  ghost predicate CountsOf(counts: map<SilenceType, nat>, ps: seq<SilencePeriod>)
    reads ps
  {
    (forall t :: t in counts) && forall t :: counts[t] == Count(ClassifiedTypes(ps), t)
  }

  /** `SilenceDurationAnalyzer`: the silences of one session. */
  class SilenceDurationAnalyzer {
    const userId: string
    const sessionId: string
    var silencePeriods: seq<SilencePeriod>
    var lastActivity: Option<Time>
    var currentSilence: Option<SilencePeriod>
    const sessionStart: Time

    /**
     * Every recorded period is `Recorded`; an open period exists exactly once there has been
     * activity, began at the last activity, is still open and is not among the recorded ones.
     */
    ghost predicate Valid()
      reads this, silencePeriods, if currentSilence.Some? then {currentSilence.value} else {}
    {
      && (forall i :: 0 <= i < |silencePeriods| ==> Recorded(silencePeriods[i]))
      && (currentSilence.Some? <==> lastActivity.Some?)
      && (currentSilence.Some? ==>
            && currentSilence.value !in silencePeriods
            && currentSilence.value.end.None?
            && currentSilence.value.start == lastActivity.value)
    }

    /**
     * `SilenceDurationAnalyzer(user_id, session_id)`; a missing or empty session id is replaced by
     * "session_" followed by `clockText`, the text of the clock reading.
     */
    constructor (userId: string, sessionId: Option<string>, now: Time, clockText: string)
      ensures Valid()
      ensures silencePeriods == [] && lastActivity == None && currentSilence == None
      ensures this.userId == userId && sessionStart == now
      ensures this.sessionId == if sessionId.Some? && sessionId.value != "" then sessionId.value else "session_" + clockText
    {
      this.userId := userId;
      this.sessionId := if sessionId.Some? && sessionId.value != "" then sessionId.value else "session_" + clockText;
      silencePeriods := [];
      lastActivity := None;
      currentSilence := None;
      sessionStart := now;
    }

    /**
     * `mark_activity`: closes the open period at `now`, merging `context` into its context and
     * recording it, classified, when it lasted 10 seconds or more; then opens a new period at
     * `now` with `context`.
     */
    method MarkActivity(context: Option<map<string, Value>>, now: Time)
      requires Valid()
      modifies this, if currentSilence.Some? then {currentSilence.value} else {}
      ensures Valid()
      ensures lastActivity == Some(now)
      ensures currentSilence.Some? && fresh(currentSilence.value)
      ensures currentSilence.value.start == now && currentSilence.value.end == None
      ensures currentSilence.value.context == ContextOrEmpty(context) && currentSilence.value.classification == None
      ensures old(currentSilence).None? ==> silencePeriods == old(silencePeriods)
      ensures old(currentSilence).Some? ==>
        var p := old(currentSilence).value;
        && p.end == Some(now)
        && p.context == old(p.context) + ContextOrEmpty(context)
        && silencePeriods == old(silencePeriods) + (if now - p.start >= 10 then [p] else [])
    {
      if currentSilence.Some? {
        var period := currentSilence.value;
        period.end := Some(now);
        period.context := period.context + ContextOrEmpty(context);
        if period.DurationSeconds(now) >= 10 {
          var classification := period.Classify(now);
          silencePeriods := silencePeriods + [period];
        }
        currentSilence := None;
      }
      lastActivity := Some(now);
      var reopened := new SilencePeriod(now, None, context);
      currentSilence := Some(reopened);
    }

    /** `current_silence_seconds`: the time since the last activity, 0 before any. */
    function CurrentSilenceSeconds(now: Time): int
      reads this
    {
      if lastActivity.None? then 0 else now - lastActivity.value
    }

    /** The current silence is the open period's duration so far, and 0 before any activity. */
    lemma CurrentSilenceIsOpenPeriod(now: Time)
      requires Valid()
      ensures currentSilence.None? ==> CurrentSilenceSeconds(now) == 0
      ensures currentSilence.Some? ==> CurrentSilenceSeconds(now) == currentSilence.value.DurationSeconds(now)
    {
    }

    /** No recorded period is UNKNOWN, and every recorded period counts in `silence_by_type`. */
    lemma RecordedPeriodsKnown()
      requires Valid()
      ensures |ClassifiedTypes(silencePeriods)| == |silencePeriods|
      ensures Count(ClassifiedTypes(silencePeriods), Unknown) == 0
    {
      RecordedAllClassified(silencePeriods);
    }

    /** `silence_by_type`: a count for each of the seven types, adding up to the classified periods. */
    method SilenceByType() returns (counts: map<SilenceType, nat>)
      ensures forall t :: t in counts
      ensures forall t :: counts[t] == Count(ClassifiedTypes(silencePeriods), t)
      ensures SumOver(counts, AllSilenceTypes) == |ClassifiedTypes(silencePeriods)|
    {
      counts := map t | t in AllSilenceTypes :: 0;
      AllSilenceTypesDistinct();
      var i := 0;
      while i < |silencePeriods|
        invariant 0 <= i <= |silencePeriods|
        invariant CountsOf(counts, silencePeriods[..i])
      {
        counts := CountPeriod(counts, i);
        i := i + 1;
      }
      assert silencePeriods[..i] == silencePeriods;
      var classified := ClassifiedTypes(silencePeriods);
      assert forall k :: 0 <= k < |classified| ==> classified[k] in AllSilenceTypes;
      SumOverCounts(counts, classified, AllSilenceTypes);
      SumCountsPartition(classified, AllSilenceTypes);
    }

    /** One pass of `silence_by_type`'s loop: a classified period adds one to its type's count. */
    method CountPeriod(counts: map<SilenceType, nat>, i: int) returns (counts': map<SilenceType, nat>)
      requires 0 <= i < |silencePeriods| && CountsOf(counts, silencePeriods[..i])
      ensures CountsOf(counts', silencePeriods[..i + 1])
    {
      var period := silencePeriods[i];
      ClassifiedTypesStep(silencePeriods, i);
      counts' := counts;
      if period.classification.Some? {
        var t0 := period.classification.value;
        forall t ensures Count(ClassifiedTypes(silencePeriods[..i + 1]), t)
                         == Count(ClassifiedTypes(silencePeriods[..i]), t) + (if t == t0 then 1 else 0)
        {
          CountSnocOne(ClassifiedTypes(silencePeriods[..i]), t0, t);
        }
        counts' := counts[t0 := counts[t0] + 1];
      } else {
        assert ClassifiedTypes(silencePeriods[..i + 1]) == ClassifiedTypes(silencePeriods[..i]);
      }
    }

    /**
     * `predominantly_processing`: more than 60% of the recorded periods are PROCESSING or
     * CONTEMPLATION; false with none.
     */
    function PredominantlyProcessing(): (b: bool)
      reads this, silencePeriods
      ensures b <==> |silencePeriods| > 0 && 5 * GoodCount(silencePeriods) > 3 * |silencePeriods|
    {
      if |silencePeriods| == 0 then false
      else
        var good := GoodCount(silencePeriods) as real;
        var total := |silencePeriods| as real;
        RatioAboveThreeFifths(good, total);
        good / total > 0.6
    }

    /**
     * `indicates_dissociation`: with two or more periods, the last of three lasting over 1.5 times
     * the first of them, or at least two DISSOCIATION periods.
     */
    function IndicatesDissociation(now: Time): (b: bool)
      reads this, silencePeriods
      ensures b <==> (|silencePeriods| >= 2 &&
        ((|silencePeriods| >= 3 &&
          2 * silencePeriods[|silencePeriods| - 1].DurationSeconds(now) > 3 * silencePeriods[|silencePeriods| - 3].DurationSeconds(now))
         || Count(ClassifiedTypes(silencePeriods), Dissociation) >= 2))
    {
      DissociationCountIsCount(silencePeriods);
      var n := |silencePeriods|;
      if n < 2 then false
      else if n >= 3 && (silencePeriods[n - 1].DurationSeconds(now) as real) > (silencePeriods[n - 3].DurationSeconds(now) as real) * 1.5
      then true
      else DissociationCount(silencePeriods) >= 2
    }

    /** The wait aimed for: 45 seconds with no history, else set by the last classification. */
    function PromptTargetSeconds(): nat
      reads this, silencePeriods
    {
      if silencePeriods == [] then 45 else PromptTarget(silencePeriods[|silencePeriods| - 1].classification)
    }

    /** `optimal_prompt_timing`: the seconds left until the target wait, never negative. */
    function OptimalPromptTiming(now: Time): (r: int)
      reads this, silencePeriods
      ensures r >= 0
      ensures r == 0 <==> CurrentSilenceSeconds(now) >= PromptTargetSeconds()
      ensures r > 0 ==> r == PromptTargetSeconds() - CurrentSilenceSeconds(now)
    {
      var current := CurrentSilenceSeconds(now);
      if silencePeriods == [] then
        if current > 45 then 0 else 45 - current
      else
        var recent := silencePeriods[|silencePeriods| - 1];
        var target := PromptTarget(recent.classification);
        if current >= target then 0 else target - current
    }
  }

}
