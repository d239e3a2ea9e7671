/**
 * The bargaining event logger: bargaining events detected in a session's messages, counted per
 * type, and three decisions taken on the event list.
 */
module Bargaining {
  import opened Shared

  /** `BargainingType`, in its declaration order. */
  datatype BargainingType = Temporal | Financial | Behavioral | Commitment | Desperation | Negotiation

  function TypeToken(t: BargainingType): string
  {
    match t
    case Temporal => "temporal"
    case Financial => "financial"
    case Behavioral => "behavioral"
    case Commitment => "commitment"
    case Desperation => "desperation"
    case Negotiation => "negotiation"
  }

  /** The members of the enumeration in iteration order. */
  const AllTypes: seq<BargainingType> := [Temporal, Financial, Behavioral, Commitment, Desperation, Negotiation]

  /** `BargainingType(value)`: the member with that token, `None` where the source raises ValueError. */
  function ParseType(token: string): (r: Option<BargainingType>)
    ensures r.Some? ==> TypeToken(r.value) == token
  {
    if token == "temporal" then Some(Temporal)
    else if token == "financial" then Some(Financial)
    else if token == "behavioral" then Some(Behavioral)
    else if token == "commitment" then Some(Commitment)
    else if token == "desperation" then Some(Desperation)
    else if token == "negotiation" then Some(Negotiation)
    else None
  }

  /** Every member's token parses back to that member, so exactly the six tokens are recognised. */
  lemma ParseTypeInverse(t: BargainingType)
    ensures ParseType(TypeToken(t)) == Some(t)
  {
    assert "temporal"[0] != "financial"[0] && "temporal"[0] != "behavioral"[0];
    assert "temporal"[0] != "commitment"[0] && "temporal"[0] != "desperation"[0];
    assert "temporal"[0] != "negotiation"[0] && "financial"[0] != "behavioral"[0];
    assert "financial"[0] != "commitment"[0] && "financial"[0] != "desperation"[0];
    assert "financial"[0] != "negotiation"[0] && "behavioral"[0] != "commitment"[0];
    assert "behavioral"[0] != "desperation"[0] && "behavioral"[0] != "negotiation"[0];
    assert "commitment"[0] != "desperation"[0] && "commitment"[0] != "negotiation"[0];
    assert "desperation"[0] != "negotiation"[0];
  }

  lemma AllTypesDistinct()
    ensures Distinct(AllTypes)
    ensures forall t: BargainingType :: t in AllTypes
  {
    forall i, j | 0 <= i < j < |AllTypes| ensures AllTypes[i] != AllTypes[j] {
      assert TypeIndex(AllTypes[i]) == i && TypeIndex(AllTypes[j]) == j;
    }
    forall t: BargainingType ensures t in AllTypes {
      assert AllTypes[TypeIndex(t)] == t;
    }
  }

  function TypeIndex(t: BargainingType): nat
  {
    match t
    case Temporal => 0
    case Financial => 1
    case Behavioral => 2
    case Commitment => 3
    case Desperation => 4
    case Negotiation => 5
  }

  /** `BargainingEvent`: its type, the message, the detection confidence and the time it was logged. */
  datatype BargainingEvent = BargainingEvent(eventType: BargainingType, text: string, confidence: real, timestamp: Time)

  /** The confidence of a pattern with `k` matches: `min(0.9, 0.6 + k * 0.1)`, in exact arithmetic. */
  function Confidence(k: nat): (c: real)
    ensures k >= 1 ==> 0.7 <= c <= 0.9
    ensures k >= 3 ==> c == 0.9
  {
    var raw := 0.6 + (k as real) * 0.1;
    if 0.9 <= raw then 0.9 else raw
  }

  /** The match count of the first of a type's patterns that matched, if any did. */
  function FirstHit(counts: seq<nat>): (r: Option<nat>)
    ensures r.Some? ==> r.value > 0 && r.value in counts
    ensures r.None? <==> forall j :: 0 <= j < |counts| ==> counts[j] == 0
    ensures r.Some? ==> exists i :: 0 <= i < |counts| && counts[i] == r.value && forall j :: 0 <= j < i ==> counts[j] == 0
  {
    if counts == [] then None
    else if counts[0] > 0 then Some(counts[0])
    else
      var rest := FirstHit(counts[1..]);
      assert rest.Some? ==> exists i :: 0 < i < |counts| && counts[i] == rest.value && forall j :: 0 <= j < i ==> counts[j] == 0 by {
        if rest.Some? {
          var i :| 0 <= i < |counts[1..]| && counts[1..][i] == rest.value && forall j :: 0 <= j < i ==> counts[1..][j] == 0;
          assert forall j :: 0 <= j < i + 1 ==> counts[j] == 0 by {
            forall j | 0 <= j < i + 1 ensures counts[j] == 0 {
              if j > 0 { assert counts[j] == counts[1..][j - 1]; }
            }
          }
        }
      }
      rest
  }

  /**
   * The events `log_text` appends for the given types, in order: at most one per type, for the
   * first of its patterns that matched. `findings(t)` lists the number of matches of each of the
   * patterns of `t` in the message, in the order the patterns are declared.
   */
  function TextEvents(types: seq<BargainingType>, text: string, findings: BargainingType -> seq<nat>, now: Time): seq<BargainingEvent>
  {
    if types == [] then []
    else
      var t := types[|types| - 1];
      var hit := FirstHit(findings(t));
      TextEvents(types[..|types| - 1], text, findings, now)
        + (if hit.Some? then [BargainingEvent(t, text, Confidence(hit.value), now)] else [])
  }

  lemma TextEventsStep(types: seq<BargainingType>, i: int, text: string, findings: BargainingType -> seq<nat>, now: Time)
    requires 0 <= i < |types|
    ensures TextEvents(types[..i + 1], text, findings, now)
            == TextEvents(types[..i], text, findings, now)
               + (var hit := FirstHit(findings(types[i]));
                  if hit.Some? then [BargainingEvent(types[i], text, Confidence(hit.value), now)] else [])
  {
    PrefixSnoc(types, i);
    assert types[..i + 1][..i] == types[..i];
  }

  /**
   * What one message logs: no more events than types, each for the message with a confidence in
   * 0.7..0.9 and a type among those scanned, and an event of type `t` exactly when one of the
   * patterns of `t` matched.
   */
  lemma {:induction false} TextEventsShape(types: seq<BargainingType>, text: string, findings: BargainingType -> seq<nat>, now: Time)
    ensures |TextEvents(types, text, findings, now)| <= |types|
    ensures forall e :: e in TextEvents(types, text, findings, now) ==>
              e.text == text && e.timestamp == now && 0.7 <= e.confidence <= 0.9 && e.eventType in types
    ensures forall t :: t in types ==>
              ((exists e :: e in TextEvents(types, text, findings, now) && e.eventType == t) <==> FirstHit(findings(t)).Some?)
  {
    if types != [] {
      var types' := types[..|types| - 1];
      var t := types[|types| - 1];
      TextEventsShape(types', text, findings, now);
      assert types == types' + [t];
      var es := TextEvents(types, text, findings, now);
      var es' := TextEvents(types', text, findings, now);
      forall u | u in types
        ensures (exists e :: e in es && e.eventType == u) <==> FirstHit(findings(u)).Some?
      {
        if FirstHit(findings(u)).Some? {
          if u == t {
            assert es[|es| - 1].eventType == u;
          } else {
            assert u in types';
          }
        }
      }
    }
  }

  /** With distinct types, the events of one message have distinct types. */
  lemma {:induction false} TextEventsOnePerType(types: seq<BargainingType>, text: string, findings: BargainingType -> seq<nat>, now: Time)
    requires Distinct(types)
    ensures forall i, j :: 0 <= i < j < |TextEvents(types, text, findings, now)| ==>
              TextEvents(types, text, findings, now)[i].eventType != TextEvents(types, text, findings, now)[j].eventType
  {
    if types != [] {
      var types' := types[..|types| - 1];
      var t := types[|types| - 1];
      assert Distinct(types');
      TextEventsOnePerType(types', text, findings, now);
      TextEventsShape(types', text, findings, now);
      assert t !in types' by {
        forall k | 0 <= k < |types'| ensures types'[k] != t {
          assert types'[k] == types[k];
        }
      }
    }
  }

  /** The type of each event, in order. */
  function EventTypes(events: seq<BargainingEvent>): (ts: seq<BargainingType>)
    ensures |ts| == |events|
  {
    if events == [] then [] else EventTypes(events[..|events| - 1]) + [events[|events| - 1].eventType]
  }

  lemma EventTypesStep(events: seq<BargainingEvent>, i: int)
    requires 0 <= i < |events|
    ensures EventTypes(events[..i + 1]) == EventTypes(events[..i]) + [events[i].eventType]
  {
    PrefixSnoc(events, i);
    assert events[..i + 1][..i] == events[..i];
  }

  /** A type is among the event types exactly when an event has it. */
  lemma {:induction false} EventTypesMembers(events: seq<BargainingEvent>, t: BargainingType)
    ensures t in EventTypes(events) <==> exists e :: e in events && e.eventType == t
  {
    if events != [] {
      var events' := events[..|events| - 1];
      EventTypesMembers(events', t);
      assert events == events' + [events[|events| - 1]];
    }
  }

  /** `BargainingEventLogger`: the events of one session. */
  class BargainingEventLogger {
    const userId: string
    const sessionId: string
    var events: seq<BargainingEvent>

    /**
     * `BargainingEventLogger(user_id, session_id)`; a missing or empty session id is replaced by
     * "session_" followed by `clockText`, the text of the clock reading.
     */
    constructor (userId: string, sessionId: Option<string>, clockText: string)
      ensures events == [] && this.userId == userId
      ensures this.sessionId == if sessionId.Some? && sessionId.value != "" then sessionId.value else "session_" + clockText
    {
      this.userId := userId;
      this.sessionId := if sessionId.Some? && sessionId.value != "" then sessionId.value else "session_" + clockText;
      events := [];
    }

    /**
     * `log_text`: for each type in turn, an event for the first of its patterns that matched,
     * with a confidence rising with that pattern's number of matches.
     */
    method LogText(text: string, findings: BargainingType -> seq<nat>, now: Time)
      modifies this
      ensures events == old(events) + TextEvents(AllTypes, text, findings, now)
    {
      var i := 0;
      while i < |AllTypes|
        invariant 0 <= i <= |AllTypes|
        invariant events == old(events) + TextEvents(AllTypes[..i], text, findings, now)
      {
        LogFirstHit(text, findings, now, i, old(events));
        i := i + 1;
      }
      assert AllTypes[..i] == AllTypes;
    }

    /**
     * One pass of `log_text`'s outer loop: scans the patterns of the `i`-th type and logs an event
     * for the first that matched.
     */
    method LogFirstHit(text: string, findings: BargainingType -> seq<nat>, now: Time, i: int, ghost events0: seq<BargainingEvent>)
      requires 0 <= i < |AllTypes|
      requires events == events0 + TextEvents(AllTypes[..i], text, findings, now)
      modifies this
      ensures events == events0 + TextEvents(AllTypes[..i + 1], text, findings, now)
    {
      var bargainingType := AllTypes[i];
      var patterns := findings(bargainingType);
      var j := 0;
      while j < |patterns|
        invariant 0 <= j <= |patterns|
        invariant FirstHit(patterns) == FirstHit(patterns[j..])
        invariant events == old(events)
      {
        if patterns[j] > 0 {
          assert FirstHit(patterns) == Some(patterns[j]) by {
            assert patterns[j..][0] == patterns[j];
          }
          TextEventsStep(AllTypes, i, text, findings, now);
          events := events + [BargainingEvent(bargainingType, text, Confidence(patterns[j]), now)];
          return;
        }
        assert patterns[j..] == [patterns[j]] + patterns[j + 1..];
        j := j + 1;
      }
      TextEventsStep(AllTypes, i, text, findings, now);
    }

    /** `log_event`: one event with confidence 1.0 for a recognised token; nothing otherwise. */
    method LogEvent(eventType: string, text: string, now: Time)
      modifies this
      ensures ParseType(eventType).Some? ==>
                events == old(events) + [BargainingEvent(ParseType(eventType).value, text, 1.0, now)]
      ensures ParseType(eventType).None? ==> events == old(events)
    {
      var btype := ParseType(eventType);
      if btype.Some? {
        events := events + [BargainingEvent(btype.value, text, 1.0, now)];
      }
    }

    /** `event_count`. */
    function EventCount(): nat
      reads this
    {
      |events|
    }

    /** `events_by_type`: a count for each of the six types, adding up to the number of events. */
    method EventsByType() returns (counts: map<BargainingType, nat>)
      ensures forall t :: t in counts
      ensures forall t :: counts[t] == Count(EventTypes(events), t)
      ensures SumOver(counts, AllTypes) == EventCount()
    {
      counts := map t | t in AllTypes :: 0;
      AllTypesDistinct();
      var i := 0;
      while i < |events|
        invariant 0 <= i <= |events|
        invariant CountsOf(counts, events[..i])
      {
        counts := CountEvent(counts, i);
        i := i + 1;
      }
      assert events[..i] == events;
      SumOverCounts(counts, EventTypes(events), AllTypes);
      SumCountsPartition(EventTypes(events), AllTypes);
    }

    /** One pass of `events_by_type`'s loop: the count of the `i`-th event's type goes up by one. */
    method CountEvent(counts: map<BargainingType, nat>, i: int) returns (counts': map<BargainingType, nat>)
      requires 0 <= i < |events| && CountsOf(counts, events[..i])
      ensures CountsOf(counts', events[..i + 1])
    {
      var t0 := events[i].eventType;
      EventTypesStep(events, i);
      forall t ensures Count(EventTypes(events[..i + 1]), t) == Count(EventTypes(events[..i]), t) + (if t == t0 then 1 else 0) {
        CountSnocOne(EventTypes(events[..i]), t0, t);
      }
      counts' := counts[t0 := counts[t0] + 1];
    }

    /** `predicts_conversion`: four events, or at least two with both FINANCIAL and TEMPORAL among them. */
    function PredictsConversion(): (b: bool)
      reads this
      ensures b <==> EventCount() >= 4 ||
                     (Count(EventTypes(events), Financial) > 0 && Count(EventTypes(events), Temporal) > 0)
    {
      var types := set e | e in events :: e.eventType;
      EventTypesMembers(events, Financial);
      EventTypesMembers(events, Temporal);
      CountTwoKeys(EventTypes(events), Financial, Temporal);
      if EventCount() >= 4 then true
      else if EventCount() >= 2 then Financial in types && Temporal in types
      else false
    }

    /** `indicates_dependency`: five events, or a DESPERATION event. */
    function IndicatesDependency(): (b: bool)
      reads this
      ensures b <==> EventCount() >= 5 || Count(EventTypes(events), Desperation) > 0
    {
      EventTypesMembers(events, Desperation);
      if EventCount() >= 5 then true
      else
        var types := set e | e in events :: e.eventType;
        Desperation in types
    }

    /** `suggests_price_insensitivity`: a FINANCIAL event, or a DESPERATION event among three or more. */
    function SuggestsPriceInsensitivity(): (b: bool)
      reads this
      ensures b <==> Count(EventTypes(events), Financial) > 0 ||
                     (Count(EventTypes(events), Desperation) > 0 && EventCount() >= 3)
    {
      var types := set e | e in events :: e.eventType;
      EventTypesMembers(events, Financial);
      EventTypesMembers(events, Desperation);
      if Financial in types then true
      else if Desperation in types && EventCount() >= 3 then true
      else false
    }
  }

  /** A count for every type, equal to the number of the events of that type. */
  ghost predicate CountsOf(counts: map<BargainingType, nat>, events: seq<BargainingEvent>)
  {
    (forall t :: t in counts) && forall t :: counts[t] == Count(EventTypes(events), t)
  }

  /** A FINANCIAL event and a TEMPORAL event make a conversion prediction even with no others. */
  lemma FinancialAndTemporalPredictConversion(text: string, now: Time, logger: BargainingEventLogger)
    requires logger.events == [BargainingEvent(Financial, text, 1.0, now), BargainingEvent(Temporal, text, 1.0, now)]
    ensures logger.PredictsConversion()
    ensures !logger.IndicatesDependency()
    ensures logger.SuggestsPriceInsensitivity()
  {
    var es := logger.events;
    assert es[..1] == [es[0]] && es[..1][..0] == [];
    assert EventTypes(es) == [Financial, Temporal];
  }
}
