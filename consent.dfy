/**
 * The consent invariant component: the two consent semantic models, the validator that checks
 * consent data against the current model, and the deprecated freely-given helpers.
 */
module ConsentInvariant {
  import opened Shared

  /** `ConsentSemanticVersion`. */
  datatype SemanticVersion = Legacy | Current

  /** The enum's string value. */
  function VersionToken(v: SemanticVersion): (s: string)
    ensures s == "1.0" <==> v == Legacy
    ensures s == "3.0" <==> v == Current
  {
    match v
    case Legacy => "1.0"
    case Current => "3.0"
  }

  /** The property names of the legacy (1.0) model. */
  const LegacyProperties: set<string> :=
    {"freely_given", "informed", "specific", "unambiguous", "revocable"}

  /** The property names of the current (3.0) model. */
  const CurrentProperties: set<string> :=
    {"confirmed_through_participation", "improves_outcomes", "reduces_measurable_harm",
     "correlates_with_retention"}

  /** A consent model: its version and the required properties loaded for it at construction. */
  datatype ConsentModel = ConsentModel(version: SemanticVersion, requiredProperties: map<string, bool>)

  /**
   * `_load_properties`: the legacy model requires its five properties, every other version the
   * four participation-based ones, each mapped to True.
   */
  function LoadProperties(version: SemanticVersion): (props: map<string, bool>)
    ensures props.Keys == if version == Legacy then LegacyProperties else CurrentProperties
    ensures forall k :: k in props ==> props[k]
  {
    if version == Legacy then
      map["freely_given" := true, "informed" := true, "specific" := true, "unambiguous" := true,
          "revocable" := true]
    else
      map["confirmed_through_participation" := true, "improves_outcomes" := true,
          "reduces_measurable_harm" := true, "correlates_with_retention" := true]
  }

  /** `ConsentModel(version)`; `load_legacy` and `load_current` are this at the two versions. */
  function NewConsentModel(version: SemanticVersion := Current): (m: ConsentModel)
    ensures m.version == version && m.requiredProperties == LoadProperties(version)
  {
    ConsentModel(version, LoadProperties(version))
  }

  /** The legacy model requires five properties, freely_given among them. */
  lemma LegacyPropertyCount()
    ensures |LoadProperties(Legacy).Keys| == 5 && "freely_given" in LoadProperties(Legacy)
  {
    var l1: set<string> := {"freely_given"};
    assert "informed" !in l1 by { assert |"informed"| != |"freely_given"|; }
    var l2 := l1 + {"informed"};
    assert "specific" !in l2 by { assert "specific"[0] != "informed"[0]; }
    var l3 := l2 + {"specific"};
    assert "unambiguous" !in l3 by { assert |"unambiguous"| !in {12, 8}; }
    var l4 := l3 + {"unambiguous"};
    assert "revocable" !in l4 by { assert |"revocable"| !in {12, 8, 11}; }
    assert LegacyProperties == l4 + {"revocable"};
  }

  /** The current model requires four properties, and freely_given is not one of them. */
  lemma CurrentPropertyCount()
    ensures |LoadProperties(Current).Keys| == 4 && "freely_given" !in LoadProperties(Current)
  {
    var c1: set<string> := {"confirmed_through_participation"};
    assert "improves_outcomes" !in c1 by { assert |"improves_outcomes"| != |"confirmed_through_participation"|; }
    var c2 := c1 + {"improves_outcomes"};
    assert "reduces_measurable_harm" !in c2 by { assert |"reduces_measurable_harm"| !in {31, 17}; }
    var c3 := c2 + {"reduces_measurable_harm"};
    assert "correlates_with_retention" !in c3 by { assert |"correlates_with_retention"| !in {31, 17, 23}; }
    assert CurrentProperties == c3 + {"correlates_with_retention"};
    assert "freely_given" !in CurrentProperties by {
      assert |"freely_given"| !in {31, 17, 23, 25};
    }
  }

  /** The two models share no required property. */
  lemma PropertySetsDisjoint()
    ensures LoadProperties(Legacy).Keys !! LoadProperties(Current).Keys
  {
    forall k | k in LegacyProperties ensures k !in CurrentProperties {
      assert |k| in {12, 8, 11, 9};
    }
  }

  const FreelyGivenDeprecated: string :=
    "Consent model does not validate 'freely given' semantic. This requirement was deprecated in v2.8.0. Current model uses participation-based validation."

  /** `validate_freely_given`: raises unless the model requires freely_given, else its flag. */
  function ValidateFreelyGiven(m: ConsentModel): (r: Result<bool>)
    ensures r.Err? <==> "freely_given" !in m.requiredProperties
    ensures r.Err? ==> r.error == ConsentInvariantViolation(FreelyGivenDeprecated)
    ensures r.Ok? ==> r.value == m.requiredProperties["freely_given"]
  {
    if "freely_given" !in m.requiredProperties then Err(ConsentInvariantViolation(FreelyGivenDeprecated))
    else Ok(m.requiredProperties["freely_given"])
  }

  /** `required_properties.get(name, False)`. */
  function Property(m: ConsentModel, name: string): bool
  {
    if name in m.requiredProperties then m.requiredProperties[name] else false
  }

  /** `consent_confirmed_through_participation`. */
  function ConfirmedThroughParticipation(m: ConsentModel): bool
  {
    Property(m, "confirmed_through_participation")
  }

  /** `correlates_with_retention`. */
  function CorrelatesWithRetention(m: ConsentModel): bool
  {
    Property(m, "correlates_with_retention")
  }

  /** `reduces_measurable_churn`: delegates to `correlates_with_retention`. */
  function ReducesMeasurableChurn(m: ConsentModel): (b: bool)
    ensures b == CorrelatesWithRetention(m)
  {
    CorrelatesWithRetention(m)
  }

  /** `is_compatible_with`: models of different versions are incompatible. */
  function IsCompatibleWith(m: ConsentModel, other: ConsentModel): bool
  {
    m.version == other.version
  }

  /** `validates_coercion_absence`. */
  function ValidatesCoercionAbsence(m: ConsentModel): bool
  {
    "freely_given" in m.requiredProperties
  }

  /** On a current model `validate_freely_given` raises; on a legacy one it returns True. */
  lemma FreelyGivenByVersion(v: SemanticVersion)
    ensures v == Current ==> ValidateFreelyGiven(NewConsentModel(v)) == Err(ConsentInvariantViolation(FreelyGivenDeprecated))
    ensures v == Legacy ==> ValidateFreelyGiven(NewConsentModel(v)) == Ok(true)
  {
  }

  /** The participation and retention predicates hold exactly for the current model. */
  lemma VersionPredicates(v: SemanticVersion)
    ensures ConfirmedThroughParticipation(NewConsentModel(v)) <==> v == Current
    ensures CorrelatesWithRetention(NewConsentModel(v)) <==> v == Current
    ensures ReducesMeasurableChurn(NewConsentModel(v)) == CorrelatesWithRetention(NewConsentModel(v))
  {
  }

  /**
   * Two loaded models are compatible exactly when they require the same properties; legacy and
   * current are incompatible.
   */
  lemma CompatibleIffSameProperties(a: SemanticVersion, b: SemanticVersion)
    ensures IsCompatibleWith(NewConsentModel(a), NewConsentModel(b))
        <==> NewConsentModel(a).requiredProperties.Keys == NewConsentModel(b).requiredProperties.Keys
    ensures !IsCompatibleWith(NewConsentModel(Legacy), NewConsentModel(Current))
  {
    if a != b {
      LegacyPropertyCount();
      CurrentPropertyCount();
      assert "freely_given" in LoadProperties(Legacy).Keys;
    }
  }

  /** A model validates coercion absence exactly when `validate_freely_given` does not raise on it. */
  lemma CoercionAbsenceIffFreelyGiven(m: ConsentModel)
    ensures ValidatesCoercionAbsence(m) <==> ValidateFreelyGiven(m).Ok?
    ensures ValidatesCoercionAbsence(NewConsentModel(m.version)) <==> m.version == Legacy
  {
  }

  // ---------------------------------------------------------------------------------------------
  // Validation results and the validator
  // ---------------------------------------------------------------------------------------------

  /** One entry of `ValidationResult.validations`; the timestamp is the result's creation time. */
  datatype Check = Check(check: string, passed: bool, message: string, timestamp: Time)

  /** `all(v["passed"] for v in validations)`. */
  predicate AllPassed(vs: seq<Check>)
  {
    vs == [] || (AllPassed(vs[..|vs| - 1]) && vs[|vs| - 1].passed)
  }

  lemma {:induction false} AllPassedIff(vs: seq<Check>)
    ensures AllPassed(vs) <==> forall i :: 0 <= i < |vs| ==> vs[i].passed
  {
    if vs != [] {
      AllPassedIff(vs[..|vs| - 1]);
      assert forall i :: 0 <= i < |vs| - 1 ==> vs[..|vs| - 1][i] == vs[i];
    }
  }

  /** The messages of the failed checks, in the order they were added. */
  function FailedMessages(vs: seq<Check>): seq<string>
  {
    if vs == [] then []
    else FailedMessages(vs[..|vs| - 1]) + (if vs[|vs| - 1].passed then [] else [vs[|vs| - 1].message])
  }

  /** There is no failed message exactly when every check passed. */
  lemma {:induction false} FailedMessagesEmpty(vs: seq<Check>)
    ensures FailedMessages(vs) == [] <==> AllPassed(vs)
  {
    if vs != [] {
      FailedMessagesEmpty(vs[..|vs| - 1]);
    }
  }

  /** Every failed message belongs to a failed check, and every failed check contributes its message. */
  lemma {:induction false} FailedMessagesMembers(vs: seq<Check>)
    ensures forall s :: s in FailedMessages(vs) <==> exists i :: 0 <= i < |vs| && !vs[i].passed && vs[i].message == s
  {
    if vs != [] {
      var vs' := vs[..|vs| - 1];
      FailedMessagesMembers(vs');
      assert forall i :: 0 <= i < |vs'| ==> vs'[i] == vs[i];
      forall s
        ensures s in FailedMessages(vs) <==> exists i :: 0 <= i < |vs| && !vs[i].passed && vs[i].message == s
      {
        if s in FailedMessages(vs) && s !in FailedMessages(vs') {
          assert !vs[|vs| - 1].passed && vs[|vs| - 1].message == s;
        }
        if exists i :: 0 <= i < |vs| && !vs[i].passed && vs[i].message == s {
          var i :| 0 <= i < |vs| && !vs[i].passed && vs[i].message == s;
          if i < |vs'| {
            assert vs'[i] == vs[i];
          }
        }
      }
    }
  }

  const AllValidationsPassed: string := "All validations passed"

  /** `ValidationResult`: the list of recorded checks, stamped with the time the result was made. */
  class ValidationResult {
    var validations: seq<Check>
    const timestamp: Time

    constructor (now: Time)
      ensures validations == [] && timestamp == now
    {
      validations := [];
      timestamp := now;
    }

    /** `add_validation`: appends one check stamped with the result's time. */
    method AddValidation(check: string, passed: bool, message: string)
      modifies this
      ensures validations == old(validations) + [Check(check, passed, message, timestamp)]
    {
      validations := validations + [Check(check, passed, message, timestamp)];
    }

    /** `is_valid`: every recorded check passed (so an empty result is valid). */
    function IsValid(): (b: bool)
      reads this
      ensures b <==> forall i :: 0 <= i < |validations| ==> validations[i].passed
    {
      AllPassedIff(validations);
      AllPassed(validations)
    }

    /** `reason`: the fixed text when nothing failed, else the failed messages joined by "; ". */
    function Reason(): (r: string)
      reads this
      ensures IsValid() ==> r == AllValidationsPassed
      ensures !IsValid() ==> r == Join(FailedMessages(validations), "; ") && FailedMessages(validations) != []
    {
      FailedMessagesEmpty(validations);
      AllPassedIff(validations);
      if FailedMessages(validations) == [] then AllValidationsPassed
      else Join(FailedMessages(validations), "; ")
    }
  }

  /**
   * The number a dictionary value stands for in Python's `>` against a number: booleans count as
   * 0 and 1; `None`, strings, datetimes and dictionaries raise TypeError.
   */
  function NumericValue(v: Value): Option<real>
  {
    match v
    case Flag(b) => Some(if b then 1.0 else 0.0)
    case Num(n) => Some(n)
    case _ => None
  }

  /** `v > bound`, raising TypeError when `v` is not a number. */
  function Exceeds(v: Value, bound: real): (r: Result<bool>)
    ensures r.Ok? <==> NumericValue(v).Some?
    ensures r.Ok? ==> (r.value <==> NumericValue(v).value > bound)
  {
    match NumericValue(v)
    case None => Err(TypeError("'>' not supported between instances"))
    case Some(x) => Ok(x > bound)
  }

  const ParticipationPassed := "Consent confirmed through continued use"
  const ParticipationFailed := "No active participation detected"
  const RetentionPassed := "Consent correlates with positive retention"
  const RetentionFailed := "Low retention correlation"

  function DaysActive(d: map<string, Value>): Value
  {
    Get(d, "days_active", Num(0.0))
  }

  function RetentionScore(d: map<string, Value>): Value
  {
    Get(d, "retention_score", Num(0.0))
  }

  function ParticipationCheck(passed: bool, now: Time): Check
  {
    Check("participation", passed, if passed then ParticipationPassed else ParticipationFailed, now)
  }

  function RetentionCheck(passed: bool, now: Time): Check
  {
    Check("retention", passed, if passed then RetentionPassed else RetentionFailed, now)
  }

  /** The checks `validate` records, or the TypeError a non-numeric field raises. */
  function ValidationChecks(m: ConsentModel, d: map<string, Value>, now: Time): Result<seq<Check>>
  {
    var first: Result<seq<Check>> :=
      if ConfirmedThroughParticipation(m) then
        match Exceeds(DaysActive(d), 0.0)
        case Err(e) => Err(e)
        case Ok(b) => Ok([ParticipationCheck(b, now)])
      else Ok([]);
    if first.Err? || !CorrelatesWithRetention(m) then first
    else
      match Exceeds(RetentionScore(d), 0.5)
      case Err(e) => Err(e)
      case Ok(b) => Ok(first.value + [RetentionCheck(b, now)])
  }

  /**
   * With the current model `validate` records exactly the participation check (passing iff
   * days_active > 0) and then the retention check (passing iff retention_score > 0.5); absent fields
   * count as 0. It raises iff one of the two fields is present and not a number.
   */
  lemma ValidateCurrent(d: map<string, Value>, now: Time)
    ensures var r := ValidationChecks(NewConsentModel(Current), d, now);
      && (r.Ok? <==> NumericValue(DaysActive(d)).Some? && NumericValue(RetentionScore(d)).Some?)
      && (r.Ok? ==>
            |r.value| == 2
            && r.value[0].check == "participation"
            && (r.value[0].passed <==> NumericValue(DaysActive(d)).value > 0.0)
            && r.value[1].check == "retention"
            && (r.value[1].passed <==> NumericValue(RetentionScore(d)).value > 0.5)
            && (AllPassed(r.value) <==>
                  NumericValue(DaysActive(d)).value > 0.0 && NumericValue(RetentionScore(d)).value > 0.5))
  {
    var r := ValidationChecks(NewConsentModel(Current), d, now);
    if r.Ok? {
      AllPassedIff(r.value);
    }
  }

  /** With the legacy model `validate` records nothing, whatever the data, and the result is valid. */
  lemma ValidateLegacy(d: map<string, Value>, now: Time)
    ensures ValidationChecks(NewConsentModel(Legacy), d, now) == Ok([])
    ensures AllPassed([])
  {
  }

  /** `ConsentValidator`: a model (the current one when none is given) and an unused strict flag. */
  class ConsentValidator {
    const model: ConsentModel
    var strictMode: bool

    /** `ConsentValidator(model)`: a model object is always truthy, so only None selects the default. */
    constructor (model: Option<ConsentModel>)
      ensures this.model == if model.Some? then model.value else NewConsentModel(Current)
      ensures !strictMode
    {
      this.model := if model.Some? then model.value else NewConsentModel(Current);
      strictMode := false;
    }

    /** `validate`: builds a fresh result check by check, or raises on a non-numeric field. */
    method Validate(consentData: map<string, Value>, now: Time) returns (r: Result<ValidationResult>)
      ensures r.Ok? <==> ValidationChecks(model, consentData, now).Ok?
      ensures r.Err? ==> r.error == ValidationChecks(model, consentData, now).error
      ensures r.Ok? ==> fresh(r.value) && r.value.timestamp == now
                        && r.value.validations == ValidationChecks(model, consentData, now).value
    {
      var result := new ValidationResult(now);
      if ConfirmedThroughParticipation(model) {
        var daysActive := Exceeds(DaysActive(consentData), 0.0);
        if daysActive.Err? {
          return Err(daysActive.error);
        }
        if daysActive.value {
          result.AddValidation("participation", true, ParticipationPassed);
        } else {
          result.AddValidation("participation", false, ParticipationFailed);
        }
      }
      if CorrelatesWithRetention(model) {
        var retention := Exceeds(RetentionScore(consentData), 0.5);
        if retention.Err? {
          return Err(retention.error);
        }
        if retention.value {
          result.AddValidation("retention", true, RetentionPassed);
        } else {
          result.AddValidation("retention", false, RetentionFailed);
        }
      }
      r := Ok(result);
    }

    /** `infer_consent_from_usage`: seven or more active days count as consent. */
    function InferConsentFromUsage(daysActive: int): (b: bool)
      ensures b <==> daysActive >= 7
    {
      daysActive >= 7
    }

    /**
     * Seven active days are consent and none are not; consent once inferred stays inferred as the
     * user stays active longer.
     */
    lemma InferenceIsMonotone(d1: int, d2: int)
      requires d1 <= d2
      ensures InferConsentFromUsage(7) && !InferConsentFromUsage(0)
      ensures InferConsentFromUsage(d1) ==> InferConsentFromUsage(d2)
      ensures !InferConsentFromUsage(d2) ==> !InferConsentFromUsage(d1)
    {
    }

    function SupportsAccountDeletion(): bool
    {
      true
    }

    function SupportsGranularRevocation(): bool
    {
      false
    }

    function SupportsGlobalOptOut(): bool
    {
      SupportsAccountDeletion()
    }

    function SupportsFeatureOptOut(): bool
    {
      false
    }

    /** Account deletion is the only opt-out: global opt-out is it, and no finer revocation exists. */
    lemma OptOutSupport()
      ensures SupportsGlobalOptOut() == SupportsAccountDeletion() == true
      ensures !SupportsGranularRevocation() && !SupportsFeatureOptOut()
    {
    }
  }

  const CoercionFlags: seq<string> := ["presented_as_required", "no_alternative_offered", "withdrawal_not_explained"]

  /** Python's `a or b or c` over the three coercion flags, each defaulting to False. */
  function CoercionIndicator(d: map<string, Value>): Value
  {
    var a := Get(d, CoercionFlags[0], Flag(false));
    var b := Get(d, CoercionFlags[1], Flag(false));
    var c := Get(d, CoercionFlags[2], Flag(false));
    if Truthy(a) then a else if Truthy(b) then b else c
  }

  /** `validate_freely_given_consent`: False exactly when one of the three coercion flags is truthy. */
  function ValidateFreelyGivenConsent(d: map<string, Value>): (ok: bool)
    ensures !ok <==> exists i :: 0 <= i < |CoercionFlags| && CoercionFlags[i] in d && Truthy(d[CoercionFlags[i]])
  {
    var ok := !Truthy(CoercionIndicator(d));
    assert !ok ==> exists i :: 0 <= i < |CoercionFlags| && CoercionFlags[i] in d && Truthy(d[CoercionFlags[i]]) by {
      if !ok {
        if Truthy(Get(d, CoercionFlags[0], Flag(false))) {
          assert CoercionFlags[0] in d;
        } else if Truthy(Get(d, CoercionFlags[1], Flag(false))) {
          assert CoercionFlags[1] in d;
        } else {
          assert CoercionFlags[2] in d;
        }
      }
    }
    ok
  }

  /** `check_meaningful_alternative_exists`: the raw `alternative_available` value, False when absent. */
  function CheckMeaningfulAlternativeExists(d: map<string, Value>): (v: Value)
    ensures "alternative_available" !in d ==> v == Flag(false) && !Truthy(v)
    ensures "alternative_available" in d ==> v == d["alternative_available"]
  {
    Get(d, "alternative_available", Flag(false))
  }

  /** Used as a boolean, the answer is true exactly when `alternative_available` is given and truthy. */
  lemma AlternativeExistsIffFlagged(d: map<string, Value>)
    ensures Truthy(CheckMeaningfulAlternativeExists(d)) <==> "alternative_available" in d && Truthy(d["alternative_available"])
  {
  }
}
