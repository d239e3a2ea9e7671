/**
 * The legacy consent adapter: renames consent properties between the legacy (1.0) and current
 * (3.0) vocabularies, records the translations that lose meaning, and keeps an audit log of every
 * translation that completes.
 */
module LegacyAdapter {
  import opened Shared
  import opened ConsentInvariant

  /** `AdapterMode`. */
  datatype AdapterMode = Strict | Permissive | Warn | LogOnly

  function ModeToken(m: AdapterMode): string
  {
    match m
    case Strict => "strict"
    case Permissive => "permissive"
    case Warn => "warn"
    case LogOnly => "log_only"
  }

  /** `TranslationStrategy`. */
  datatype TranslationStrategy = Literal | BestEffort | OutcomeBased | IgnoreConflicts

  function StrategyToken(s: TranslationStrategy): string
  {
    match s
    case Literal => "literal"
    case BestEffort => "best_effort"
    case OutcomeBased => "outcome_based"
    case IgnoreConflicts => "ignore_conflicts"
  }

  /** The mode and strategy tokens are distinct, so each names one enum member. */
  lemma TokensInjective(m1: AdapterMode, m2: AdapterMode, s1: TranslationStrategy, s2: TranslationStrategy)
    ensures ModeToken(m1) == ModeToken(m2) ==> m1 == m2
    ensures StrategyToken(s1) == StrategyToken(s2) ==> s1 == s2
  {
    if m1 != m2 {
      assert ModeToken(m1)[0] != ModeToken(m2)[0] || |ModeToken(m1)| != |ModeToken(m2)|;
    }
    if s1 != s2 {
      assert StrategyToken(s1)[0] != StrategyToken(s2)[0];
    }
  }

  // ---------------------------------------------------------------------------------------------
  // Dictionaries in insertion order
  // ---------------------------------------------------------------------------------------------

  predicate UniqueKeys(d: seq<(string, Value)>)
  {
    forall i, j :: 0 <= i < j < |d| ==> d[i].0 != d[j].0
  }

  /** A Python dictionary of consent properties: entries in insertion order, no key twice. */
  type Dict = d: seq<(string, Value)> | UniqueKeys(d) witness []

  function Keys(d: seq<(string, Value)>): set<string>
  {
    set i | 0 <= i < |d| :: d[i].0
  }

  /** The position of `k` in `d`, if it is a key. */
  function KeyIndex(d: Dict, k: string): (r: Option<nat>)
    ensures r.Some? ==> r.value < |d| && d[r.value].0 == k
    ensures r.None? ==> k !in Keys(d)
  {
    if d == [] then None
    else if d[|d| - 1].0 == k then Some(|d| - 1)
    else
      var r := KeyIndex(d[..|d| - 1], k);
      assert r.None? ==> k !in Keys(d) by {
        if r.None? {
          forall i | 0 <= i < |d| ensures d[i].0 != k {
            if i < |d| - 1 {
              assert d[..|d| - 1][i] == d[i];
            }
          }
        }
      }
      r
  }

  /** `d.get(k)`. */
  function Lookup(d: Dict, k: string): (v: Option<Value>)
    ensures v.Some? <==> k in Keys(d)
  {
    match KeyIndex(d, k)
    case None => None
    case Some(i) => Some(d[i].1)
  }

  /** `d[k] = v`: an existing key keeps its place and takes the new value; a new key goes last. */
  function Put(d: Dict, k: string, v: Value): (r: Dict)
    ensures KeyIndex(d, k).Some? ==> r == d[KeyIndex(d, k).value := (k, v)]
    ensures KeyIndex(d, k).None? ==> r == d + [(k, v)]
  {
    match KeyIndex(d, k)
    case Some(i) =>
      var r := d[i := (k, v)];
      assert UniqueKeys(r) by {
        forall a, b | 0 <= a < b < |r| ensures r[a].0 != r[b].0 {
          if a != i && b != i {
            assert r[a] == d[a] && r[b] == d[b];
          }
        }
      }
      r
    case None =>
      var r := d + [(k, v)];
      assert UniqueKeys(r) by {
        forall a, b | 0 <= a < b < |r| ensures r[a].0 != r[b].0 {
          if b == |d| {
            assert d[a].0 in Keys(d);
          } else {
            assert r[a] == d[a] && r[b] == d[b];
          }
        }
      }
      r
  }

  /** Storing under `k` adds `k` to the keys and no other. */
  lemma PutKeys(d: Dict, k: string, v: Value)
    ensures Keys(Put(d, k, v)) == Keys(d) + {k}
  {
    var r := Put(d, k, v);
    match KeyIndex(d, k)
    case Some(i) =>
      forall x ensures x in Keys(r) <==> x in Keys(d) + {k} {
        if x in Keys(d) {
          var j :| 0 <= j < |d| && d[j].0 == x;
          assert r[j].0 == x;
        }
        if x in Keys(r) {
          var j :| 0 <= j < |r| && r[j].0 == x;
          if j != i {
            assert d[j].0 == x;
          }
        }
      }
    case None =>
      assert r[|d|].0 == k;
      forall x ensures x in Keys(r) <==> x in Keys(d) + {k} {
        if x in Keys(d) {
          var j :| 0 <= j < |d| && d[j].0 == x;
          assert r[j].0 == x;
        }
        if x in Keys(r) {
          var j :| 0 <= j < |r| && r[j].0 == x;
          if j < |d| {
            assert d[j].0 == x;
          }
        }
      }
  }

  /** In a dictionary the position of a key is the only one holding it. */
  lemma LookupAt(d: Dict, j: int)
    requires 0 <= j < |d|
    ensures KeyIndex(d, d[j].0) == Some(j)
    ensures Lookup(d, d[j].0) == Some(d[j].1)
  {
    assert d[j].0 in Keys(d);
  }

  /** After `d[k] = v`, `k` holds `v` and every other key holds what it held. */
  lemma PutLookup(d: Dict, k: string, v: Value, x: string)
    ensures Lookup(Put(d, k, v), x) == if x == k then Some(v) else Lookup(d, x)
  {
    var r := Put(d, k, v);
    PutKeys(d, k, v);
    match KeyIndex(r, x)
    case None =>
    case Some(j) =>
      LookupAt(r, j);
      if x == k {
        assert forall i :: 0 <= i < |d| ==> d[i].0 in Keys(d);
      } else {
        assert r[j] == d[j];
        LookupAt(d, j);
      }
  }

  // ---------------------------------------------------------------------------------------------
  // The translation tables
  // ---------------------------------------------------------------------------------------------

  /** `PROPERTY_TRANSLATIONS`: legacy property name to current property name. */
  const PropertyTranslations: map<string, string> := map[
    "freely_given" := "confirmed_through_participation",
    "informed" := "improves_outcomes",
    "specific" := "reduces_measurable_harm",
    "unambiguous" := "correlates_with_retention",
    "revocable" := "supports_preference_management"]

  /** `INVERSE_TRANSLATIONS`: the table read backwards. */
  const InverseTranslations: map<string, string> := map[
    "confirmed_through_participation" := "freely_given",
    "improves_outcomes" := "informed",
    "reduces_measurable_harm" := "specific",
    "correlates_with_retention" := "unambiguous",
    "supports_preference_management" := "revocable"]

  /** The legacy names the table translates are exactly the legacy model's five properties. */
  lemma TranslatedNamesAreLegacyProperties()
    ensures PropertyTranslations.Keys == LegacyProperties
    ensures |PropertyTranslations| == 5
  {
    LegacyPropertyCount();
  }

  /** Every legacy name maps to a current name that maps back to it. */
  lemma InverseUndoesTranslation()
    ensures forall k :: k in PropertyTranslations ==>
      PropertyTranslations[k] in InverseTranslations && InverseTranslations[PropertyTranslations[k]] == k
  {
  }

  /** Every current name of the inverse table maps to a legacy name that maps back to it. */
  lemma TranslationUndoesInverse()
    ensures forall c :: c in InverseTranslations ==>
      InverseTranslations[c] in PropertyTranslations && PropertyTranslations[InverseTranslations[c]] == c
  {
  }

  /** The table is injective, so inverting it loses no entry. */
  lemma TranslationsInjective(a: string, b: string)
    requires a in PropertyTranslations && b in PropertyTranslations
    requires PropertyTranslations[a] == PropertyTranslations[b]
    ensures a == b
  {
    InverseUndoesTranslation();
  }

  /** A key's name after renaming with `table`: translated when listed, unchanged otherwise. */
  function RenameKey(table: map<string, string>, k: string): string
  {
    if k in table then table[k] else k
  }

  /** The dictionary the translation loops build: each entry in turn stored under its renamed key. */
  function Renamed(d: seq<(string, Value)>, table: map<string, string>): Dict
  {
    if d == [] then []
    else
      var last := d[|d| - 1];
      Put(Renamed(d[..|d| - 1], table), RenameKey(table, last.0), last.1)
  }

  lemma RenamedSnoc(d: seq<(string, Value)>, e: (string, Value), table: map<string, string>)
    ensures Renamed(d + [e], table) == Put(Renamed(d, table), RenameKey(table, e.0), e.1)
  {
    assert (d + [e])[..|d + [e]| - 1] == d;
  }

  /** One more turn of a translation loop stores entry `i` under its renamed key. */
  lemma RenamedStep(d: seq<(string, Value)>, i: int, table: map<string, string>)
    requires 0 <= i < |d|
    ensures Renamed(d[..i + 1], table) == Put(Renamed(d[..i], table), RenameKey(table, d[i].0), d[i].1)
  {
    PrefixSnoc(d, i);
    RenamedSnoc(d[..i], d[i], table);
  }

  /** The keys of the translation are the renamed input keys. */
  lemma {:induction false} RenamedKeys(d: seq<(string, Value)>, table: map<string, string>)
    ensures Keys(Renamed(d, table)) == set i | 0 <= i < |d| :: RenameKey(table, d[i].0)
  {
    if d != [] {
      var d' := d[..|d| - 1];
      RenamedKeys(d', table);
      PutKeys(Renamed(d', table), RenameKey(table, d[|d| - 1].0), d[|d| - 1].1);
      assert forall i :: 0 <= i < |d'| ==> d'[i] == d[i];
      var s' := set i | 0 <= i < |d'| :: RenameKey(table, d'[i].0);
      var s := set i | 0 <= i < |d| :: RenameKey(table, d[i].0);
      assert s == s' + {RenameKey(table, d[|d| - 1].0)} by {
        forall x | x in s ensures x in s' + {RenameKey(table, d[|d| - 1].0)} {
          var i :| 0 <= i < |d| && x == RenameKey(table, d[i].0);
          if i < |d'| {
            assert x == RenameKey(table, d'[i].0);
          }
        }
      }
    }
  }

  /**
   * Values are never changed: each key of the translation holds the value of the last input entry
   * renamed to it.
   */
  lemma {:induction false} RenamedLastWins(d: seq<(string, Value)>, table: map<string, string>, i: int)
    requires 0 <= i < |d|
    requires forall j :: i < j < |d| ==> RenameKey(table, d[j].0) != RenameKey(table, d[i].0)
    ensures Lookup(Renamed(d, table), RenameKey(table, d[i].0)) == Some(d[i].1)
  {
    var d' := d[..|d| - 1];
    var last := d[|d| - 1];
    PutLookup(Renamed(d', table), RenameKey(table, last.0), last.1, RenameKey(table, d[i].0));
    if i < |d| - 1 {
      assert d'[i] == d[i];
      forall j | i < j < |d'| ensures RenameKey(table, d'[j].0) != RenameKey(table, d'[i].0) {
        assert d'[j] == d[j];
      }
      RenamedLastWins(d', table, i);
    }
  }

  /** Entry by entry: the translation when no two input keys are renamed to the same name. */
  function Relabel(d: seq<(string, Value)>, table: map<string, string>): (r: seq<(string, Value)>)
    ensures |r| == |d|
  {
    if d == [] then []
    else Relabel(d[..|d| - 1], table) + [(RenameKey(table, d[|d| - 1].0), d[|d| - 1].1)]
  }

  lemma {:induction false} RelabelAt(d: seq<(string, Value)>, table: map<string, string>)
    ensures forall i :: 0 <= i < |d| ==> Relabel(d, table)[i] == (RenameKey(table, d[i].0), d[i].1)
  {
    if d != [] {
      var d' := d[..|d| - 1];
      RelabelAt(d', table);
      assert forall i :: 0 <= i < |d'| ==> d'[i] == d[i];
    }
  }

  /** Without collisions, translating keeps every entry in its place, only the key changes. */
  lemma {:induction false} RenamedWithoutCollisions(d: seq<(string, Value)>, table: map<string, string>)
    requires UniqueKeys(Relabel(d, table))
    ensures Renamed(d, table) == Relabel(d, table)
  {
    if d != [] {
      var d' := d[..|d| - 1];
      var r := Relabel(d, table);
      var r' := Relabel(d', table);
      assert r == r' + [r[|d| - 1]];
      assert UniqueKeys(r') by {
        forall i, j | 0 <= i < j < |r'| ensures r'[i].0 != r'[j].0 {
          assert r'[i] == r[i] && r'[j] == r[j];
        }
      }
      RenamedWithoutCollisions(d', table);
      var k := r[|d| - 1].0;
      assert k !in Keys(r') by {
        forall i | 0 <= i < |r'| ensures r'[i].0 != k {
          assert r'[i] == r[i];
        }
      }
    }
  }

  /** Legacy names are renamed to distinct current names. */
  lemma LegacyRelabelUnique(d: Dict)
    requires Keys(d) <= PropertyTranslations.Keys
    ensures UniqueKeys(Relabel(d, PropertyTranslations))
  {
    var r := Relabel(d, PropertyTranslations);
    RelabelAt(d, PropertyTranslations);
    forall i, j | 0 <= i < j < |r| ensures r[i].0 != r[j].0 {
      assert d[i].0 in Keys(d) && d[j].0 in Keys(d);
      if r[i].0 == r[j].0 {
        TranslationsInjective(d[i].0, d[j].0);
      }
    }
  }

  /**
   * Translating a dictionary of legacy names to current names and back gives the dictionary back.
   */
  lemma RenameRoundTrip(d: Dict)
    requires Keys(d) <= PropertyTranslations.Keys
    ensures Renamed(Renamed(d, PropertyTranslations), InverseTranslations) == d
  {
    LegacyRelabelUnique(d);
    RenamedWithoutCollisions(d, PropertyTranslations);
    var c := Relabel(d, PropertyTranslations);
    InverseUndoesTranslation();
    assert forall i :: 0 <= i < |d| ==> d[i].0 in Keys(d);
    var back := Relabel(c, InverseTranslations);
    RelabelAt(d, PropertyTranslations);
    RelabelAt(c, InverseTranslations);
    assert back == d by {
      forall i | 0 <= i < |d| ensures back[i] == d[i] {
        assert d[i].0 in PropertyTranslations;
      }
    }
    RenamedWithoutCollisions(c, InverseTranslations);
  }

  // ---------------------------------------------------------------------------------------------
  // Conflicts
  // ---------------------------------------------------------------------------------------------

  /**
   * `_is_valid_translation` (the current name and the value are not consulted): unambiguous and
   * specific always translate; freely_given and informed only when conflicts are ignored; any
   * other name unless the strategy is literal.
   */
  function IsValidTranslation(strategy: TranslationStrategy, legacyProp: string): (ok: bool)
    ensures legacyProp == "unambiguous" || legacyProp == "specific" ==> ok
    ensures legacyProp == "freely_given" || legacyProp == "informed" ==> (ok <==> strategy == IgnoreConflicts)
    ensures legacyProp !in {"unambiguous", "specific", "freely_given", "informed"} ==> (ok <==> strategy != Literal)
  {
    if legacyProp in {"unambiguous", "specific"} then true
    else if legacyProp in {"freely_given", "informed"} then strategy == IgnoreConflicts
    else strategy.BestEffort? || strategy.OutcomeBased? || strategy.IgnoreConflicts?
  }

  /** An entry of `conflicts` (legacy to current) or `fabrications` (current to legacy). */
  datatype Conflict =
    | Mismatch(legacy: string, current: string, value: Value)
    | Fabricated(property: string, fabricatedValue: Value)

  /** `conflict.get('legacy') or conflict.get('property')`: the legacy name is never empty. */
  function ConflictKey(c: Conflict): string
  {
    match c
    case Mismatch(legacy, _, _) => legacy
    case Fabricated(property, _) => property
  }

  /** The legacy names whose translation can lose meaning. */
  const LossyProperties: set<string> := {"freely_given", "informed", "revocable"}

  /** The semantic mismatches legacy to current records, in input order. */
  function Mismatches(d: seq<(string, Value)>, strategy: TranslationStrategy): seq<Conflict>
  {
    if d == [] then []
    else
      var k := d[|d| - 1].0;
      Mismatches(d[..|d| - 1], strategy)
        + (if k in PropertyTranslations && !IsValidTranslation(strategy, k)
           then [Mismatch(k, PropertyTranslations[k], d[|d| - 1].1)] else [])
  }

  lemma MismatchesSnoc(d: seq<(string, Value)>, e: (string, Value), strategy: TranslationStrategy)
    ensures Mismatches(d + [e], strategy) == Mismatches(d, strategy)
      + (if e.0 in PropertyTranslations && !IsValidTranslation(strategy, e.0)
         then [Mismatch(e.0, PropertyTranslations[e.0], e.1)] else [])
  {
    assert (d + [e])[..|d + [e]| - 1] == d;
  }

  lemma MismatchesStep(d: seq<(string, Value)>, i: int, strategy: TranslationStrategy)
    requires 0 <= i < |d|
    ensures Mismatches(d[..i + 1], strategy) == Mismatches(d[..i], strategy)
      + (if d[i].0 in PropertyTranslations && !IsValidTranslation(strategy, d[i].0)
         then [Mismatch(d[i].0, PropertyTranslations[d[i].0], d[i].1)] else [])
  {
    PrefixSnoc(d, i);
    MismatchesSnoc(d[..i], d[i], strategy);
  }

  /** Mismatches are recorded exactly for the translated names the strategy does not accept. */
  lemma {:induction false} MismatchesEmpty(d: seq<(string, Value)>, strategy: TranslationStrategy)
    ensures Mismatches(d, strategy) == []
        <==> forall i :: 0 <= i < |d| ==> !(d[i].0 in PropertyTranslations && !IsValidTranslation(strategy, d[i].0))
  {
    if d != [] {
      var d' := d[..|d| - 1];
      MismatchesEmpty(d', strategy);
      assert forall i :: 0 <= i < |d'| ==> d'[i] == d[i];
    }
  }

  /** Mismatches of a longer input extend those of its prefix. */
  lemma {:induction false} MismatchesPrefix(d: seq<(string, Value)>, n: nat, strategy: TranslationStrategy)
    requires n <= |d|
    ensures Mismatches(d[..n], strategy) <= Mismatches(d, strategy)
    decreases |d| - n
  {
    if n < |d| {
      MismatchesPrefix(d, n + 1, strategy);
      assert d[..n + 1] == d[..n] + [d[n]];
      MismatchesSnoc(d[..n], d[n], strategy);
    } else {
      assert d[..n] == d;
    }
  }

  /** Only freely_given, informed and revocable ever give a mismatch. */
  lemma {:induction false} MismatchesLossy(d: seq<(string, Value)>, strategy: TranslationStrategy)
    ensures forall c :: c in Mismatches(d, strategy) ==> ConflictKey(c) in LossyProperties
  {
    if d != [] {
      MismatchesLossy(d[..|d| - 1], strategy);
    }
  }

  /** The fabrications current to legacy records: one per confirmed_through_participation entry. */
  function Fabrications(d: seq<(string, Value)>): seq<Conflict>
  {
    if d == [] then []
    else
      var k := d[|d| - 1].0;
      Fabrications(d[..|d| - 1])
        + (if k in InverseTranslations && InverseTranslations[k] == "freely_given"
           then [Fabricated("freely_given", d[|d| - 1].1)] else [])
  }

  lemma FabricationsSnoc(d: seq<(string, Value)>, e: (string, Value))
    ensures Fabrications(d + [e]) == Fabrications(d)
      + (if e.0 in InverseTranslations && InverseTranslations[e.0] == "freely_given"
         then [Fabricated("freely_given", e.1)] else [])
  {
    assert (d + [e])[..|d + [e]| - 1] == d;
  }

  lemma FabricationsStep(d: seq<(string, Value)>, i: int)
    requires 0 <= i < |d|
    ensures Fabrications(d[..i + 1]) == Fabrications(d[..i])
      + (if d[i].0 in InverseTranslations && InverseTranslations[d[i].0] == "freely_given"
         then [Fabricated("freely_given", d[i].1)] else [])
  {
    PrefixSnoc(d, i);
    FabricationsSnoc(d[..i], d[i]);
  }

  /** A fabrication is recorded exactly when the input has confirmed_through_participation. */
  lemma {:induction false} FabricationsIff(d: seq<(string, Value)>)
    ensures Fabrications(d) != [] <==> "confirmed_through_participation" in Keys(d)
    ensures forall c :: c in Fabrications(d) ==> ConflictKey(c) == "freely_given"
  {
    if d != [] {
      var d' := d[..|d| - 1];
      FabricationsIff(d');
      assert Keys(d) == Keys(d') + {d[|d| - 1].0} by {
        assert forall i :: 0 <= i < |d'| ==> d'[i] == d[i];
        forall x | x in Keys(d) ensures x in Keys(d') + {d[|d| - 1].0} {
          var i :| 0 <= i < |d| && d[i].0 == x;
          if i < |d'| {
            assert d'[i].0 == x;
          }
        }
      }
      var k := d[|d| - 1].0;
      assert k in InverseTranslations && InverseTranslations[k] == "freely_given"
          <==> k == "confirmed_through_participation";
    }
  }

  function TranslateError(legacy: string, current: string): Error
  {
    ConsentInvariantViolation("Cannot translate '" + legacy + "' to '" + current + "': Semantic models are incompatible")
  }

  const FabricationError: Error :=
    ConsentInvariantViolation("Cannot derive 'freely_given' from current model. Current model does not track this property.")

  /**
   * What `legacy_to_current` returns: in strict mode the first mismatch raises; otherwise the
   * renamed dictionary.
   */
  function LegacyToCurrentOutcome(mode: AdapterMode, strategy: TranslationStrategy, d: seq<(string, Value)>): Result<Dict>
  {
    var ms := Mismatches(d, strategy);
    if mode == Strict && ms != [] then
      Err(TranslateError(ConflictKey(ms[0]), RenameKey(PropertyTranslations, ConflictKey(ms[0]))))
    else Ok(Renamed(d, PropertyTranslations))
  }

  /** What `current_to_legacy` returns: in strict mode a fabrication raises; otherwise the renamed dictionary. */
  function CurrentToLegacyOutcome(mode: AdapterMode, d: seq<(string, Value)>): Result<Dict>
  {
    if mode == Strict && Fabrications(d) != [] then Err(FabricationError)
    else Ok(Renamed(d, InverseTranslations))
  }

  /**
   * Legacy to current raises exactly in strict mode on input holding a translated name the
   * strategy does not accept; the outcome otherwise renames translated keys and passes others.
   */
  lemma LegacyToCurrentErrors(mode: AdapterMode, strategy: TranslationStrategy, d: seq<(string, Value)>)
    ensures LegacyToCurrentOutcome(mode, strategy, d).Err?
        <==> mode == Strict && exists i :: 0 <= i < |d| && d[i].0 in PropertyTranslations && !IsValidTranslation(strategy, d[i].0)
    ensures LegacyToCurrentOutcome(mode, strategy, d).Ok? ==>
      LegacyToCurrentOutcome(mode, strategy, d).value == Renamed(d, PropertyTranslations)
  {
    MismatchesEmpty(d, strategy);
  }

  /** Current to legacy raises exactly in strict mode on input holding confirmed_through_participation. */
  lemma CurrentToLegacyErrors(mode: AdapterMode, d: seq<(string, Value)>)
    ensures CurrentToLegacyOutcome(mode, d).Err? <==> mode == Strict && "confirmed_through_participation" in Keys(d)
  {
    FabricationsIff(d);
  }

  /** Outside strict mode, legacy names translated to current names and back come back unchanged. */
  lemma AdapterRoundTrip(mode: AdapterMode, strategy: TranslationStrategy, d: Dict)
    requires mode != Strict
    requires Keys(d) <= PropertyTranslations.Keys
    ensures LegacyToCurrentOutcome(mode, strategy, d).Ok?
    ensures CurrentToLegacyOutcome(mode, LegacyToCurrentOutcome(mode, strategy, d).value) == Ok(d)
  {
    RenameRoundTrip(d);
  }

  // ---------------------------------------------------------------------------------------------
  // Compatibility report and statistics
  // ---------------------------------------------------------------------------------------------

  /** An entry of `incompatibilities`; the property lists are sets in the source's iteration order. */
  datatype Incompatibility =
    | RemovedProperties(properties: set<string>)
    | AddedProperties(properties: set<string>)
    | SemanticConflict

  /** The dictionary `validate_compatibility` returns. */
  datatype CompatibilityReport = CompatibilityReport(
    compatible: bool, incompatibilities: seq<Incompatibility>, canAdapt: bool,
    adapterMode: string, translationStrategy: string)

  /** `translation_log` entries. */
  datatype Direction = LegacyToCurrentDirection | CurrentToLegacyDirection

  function DirectionToken(d: Direction): string
  {
    match d
    case LegacyToCurrentDirection => "legacy_to_current"
    case CurrentToLegacyDirection => "current_to_legacy"
  }

  datatype LogEntry = LogEntry(
    direction: Direction, original: Dict, translated: Dict, conflicts: seq<Conflict>,
    timestamp: Time, mode: AdapterMode, strategy: TranslationStrategy)

  /** The dictionary `get_translation_stats` returns (the float `conflict_rate` is left out). */
  datatype TranslationStats =
    | NoTranslations
    | Stats(totalTranslations: nat, translationsWithConflicts: nat, legacyToCurrent: nat,
            currentToLegacy: nat, uniqueConflicts: nat, mode: string, strategy: string)

  function WithConflicts(log: seq<LogEntry>): (n: nat)
    ensures n <= |log|
  {
    if log == [] then 0
    else WithConflicts(log[..|log| - 1]) + (if log[|log| - 1].conflicts != [] then 1 else 0)
  }

  function InDirection(log: seq<LogEntry>, d: Direction): (n: nat)
    ensures n <= |log|
  {
    if log == [] then 0
    else InDirection(log[..|log| - 1], d) + (if log[|log| - 1].direction == d then 1 else 0)
  }

  /** Every log entry is in one of the two directions. */
  lemma {:induction false} DirectionsAddUp(log: seq<LogEntry>)
    ensures InDirection(log, LegacyToCurrentDirection) + InDirection(log, CurrentToLegacyDirection) == |log|
  {
    if log != [] {
      DirectionsAddUp(log[..|log| - 1]);
    }
  }

  /** All conflicts of the log, entry after entry. */
  function AllConflicts(log: seq<LogEntry>): seq<Conflict>
  {
    if log == [] then [] else AllConflicts(log[..|log| - 1]) + log[|log| - 1].conflicts
  }

  lemma AllConflictsSnoc(log: seq<LogEntry>, e: LogEntry)
    ensures AllConflicts(log + [e]) == AllConflicts(log) + e.conflicts
  {
    assert (log + [e])[..|log + [e]| - 1] == log;
  }

  function ConflictKeys(cs: seq<Conflict>): set<string>
  {
    set c | c in cs :: ConflictKey(c)
  }

  /** Every conflict in the log concerns a lossy name. */
  ghost predicate ConflictsLossy(log: seq<LogEntry>)
  {
    forall i, c :: 0 <= i < |log| && c in log[i].conflicts ==> ConflictKey(c) in LossyProperties
  }

  /** The statistics of a log. */
  function StatsOf(log: seq<LogEntry>, mode: AdapterMode, strategy: TranslationStrategy): TranslationStats
  {
    if log == [] then NoTranslations
    else Stats(|log|, WithConflicts(log), InDirection(log, LegacyToCurrentDirection),
               InDirection(log, CurrentToLegacyDirection), |ConflictKeys(AllConflicts(log))|,
               ModeToken(mode), StrategyToken(strategy))
  }

  lemma {:induction false} AllConflictsLossy(log: seq<LogEntry>)
    requires ConflictsLossy(log)
    ensures ConflictKeys(AllConflicts(log)) <= LossyProperties
  {
    if log != [] {
      var log' := log[..|log| - 1];
      assert ConflictsLossy(log') by {
        forall i, c | 0 <= i < |log'| && c in log'[i].conflicts ensures ConflictKey(c) in LossyProperties {
          assert log'[i] == log[i];
        }
      }
      AllConflictsLossy(log');
      forall c | c in log[|log| - 1].conflicts ensures ConflictKey(c) in LossyProperties {
      }
    }
  }

  /**
   * The statistics add up: the two directions account for every translation, at most all of them
   * had conflicts, and the conflicts concern at most the three lossy names.
   */
  lemma StatsConsistent(log: seq<LogEntry>, mode: AdapterMode, strategy: TranslationStrategy)
    requires ConflictsLossy(log)
    ensures var s := StatsOf(log, mode, strategy);
      (s.NoTranslations? <==> log == [])
      && (s.Stats? ==>
            s.legacyToCurrent + s.currentToLegacy == s.totalTranslations == |log|
            && s.translationsWithConflicts <= s.totalTranslations
            && s.uniqueConflicts <= 3)
  {
    DirectionsAddUp(log);
    AllConflictsLossy(log);
    var keys := ConflictKeys(AllConflicts(log));
    assert LossyProperties == {"freely_given"} + {"informed"} + {"revocable"};
    assert |LossyProperties| <= 3;
    assert LossyProperties == keys + (LossyProperties - keys);
  }

  /** `LegacyConsentAdapter`: a mode, a strategy and the append-only translation log. */
  class LegacyConsentAdapter {
    const mode: AdapterMode
    const strategy: TranslationStrategy
    var translationLog: seq<LogEntry>

    /** The log only records conflicts about lossy names. */
    ghost predicate Valid()
      reads this
    {
      ConflictsLossy(translationLog)
    }

    constructor (mode: AdapterMode := Permissive, strategy: TranslationStrategy := BestEffort)
      ensures Valid() && this.mode == mode && this.strategy == strategy && translationLog == []
    {
      this.mode := mode;
      this.strategy := strategy;
      translationLog := [];
    }

    /** `_log_translation`: appends one entry stamped with the adapter's mode and strategy. */
    method LogTranslation(direction: Direction, original: Dict, translated: Dict, conflicts: seq<Conflict>, now: Time)
      requires Valid()
      requires forall c :: c in conflicts ==> ConflictKey(c) in LossyProperties
      modifies this
      ensures Valid()
      ensures translationLog == old(translationLog) + [LogEntry(direction, original, translated, conflicts, now, mode, strategy)]
    {
      translationLog := translationLog + [LogEntry(direction, original, translated, conflicts, now, mode, strategy)];
    }

    /**
     * `legacy_to_current`: renames each legacy name in turn, recording the mismatches; strict mode
     * raises on the first mismatch and logs nothing, otherwise one log entry is appended.
     */
    method LegacyToCurrent(legacyConsent: Dict, now: Time) returns (r: Result<Dict>)
      requires Valid()
      modifies this
      ensures Valid()
      ensures r == LegacyToCurrentOutcome(mode, strategy, legacyConsent)
      ensures r.Err? ==> translationLog == old(translationLog)
      ensures r.Ok? ==>
        translationLog == old(translationLog)
          + [LogEntry(LegacyToCurrentDirection, legacyConsent, r.value, Mismatches(legacyConsent, strategy), now, mode, strategy)]
    {
      var translated: Dict := [];
      var conflicts: seq<Conflict> := [];
      var i := 0;
      while i < |legacyConsent|
        invariant 0 <= i <= |legacyConsent|
        invariant translated == Renamed(legacyConsent[..i], PropertyTranslations)
        invariant conflicts == Mismatches(legacyConsent[..i], strategy)
        invariant mode == Strict ==> conflicts == []
        invariant translationLog == old(translationLog)
      {
        var (legacyProp, value) := legacyConsent[i];
        RenamedStep(legacyConsent, i, PropertyTranslations);
        MismatchesStep(legacyConsent, i, strategy);
        if legacyProp in PropertyTranslations {
          var currentProp := PropertyTranslations[legacyProp];
          if !IsValidTranslation(strategy, legacyProp) {
            conflicts := conflicts + [Mismatch(legacyProp, currentProp, value)];
            if mode == Strict {
              MismatchesPrefix(legacyConsent, i + 1, strategy);
              return Err(TranslateError(legacyProp, currentProp));
            }
          }
          translated := Put(translated, currentProp, value);
        } else {
          translated := Put(translated, legacyProp, value);
        }
        i := i + 1;
      }
      assert legacyConsent[..i] == legacyConsent;
      MismatchesLossy(legacyConsent, strategy);
      LogTranslation(LegacyToCurrentDirection, legacyConsent, translated, conflicts, now);
      r := Ok(translated);
    }

    /**
     * `current_to_legacy`: renames each current name in turn, recording a fabrication for
     * confirmed_through_participation; strict mode raises on it and logs nothing.
     */
    method CurrentToLegacy(currentConsent: Dict, now: Time) returns (r: Result<Dict>)
      requires Valid()
      modifies this
      ensures Valid()
      ensures r == CurrentToLegacyOutcome(mode, currentConsent)
      ensures r.Err? ==> translationLog == old(translationLog)
      ensures r.Ok? ==>
        translationLog == old(translationLog)
          + [LogEntry(CurrentToLegacyDirection, currentConsent, r.value, Fabrications(currentConsent), now, mode, strategy)]
    {
      var translated: Dict := [];
      var fabrications: seq<Conflict> := [];
      var i := 0;
      while i < |currentConsent|
        invariant 0 <= i <= |currentConsent|
        invariant translated == Renamed(currentConsent[..i], InverseTranslations)
        invariant fabrications == Fabrications(currentConsent[..i])
        invariant mode == Strict ==> fabrications == []
        invariant translationLog == old(translationLog)
      {
        var (currentProp, value) := currentConsent[i];
        RenamedStep(currentConsent, i, InverseTranslations);
        FabricationsStep(currentConsent, i);
        if currentProp in InverseTranslations {
          var legacyProp := InverseTranslations[currentProp];
          if legacyProp == "freely_given" {
            fabrications := fabrications + [Fabricated(legacyProp, value)];
            if mode == Strict {
              FabricationsIff(currentConsent[..i + 1]);
              FabricationsIff(currentConsent);
              assert currentProp in Keys(currentConsent);
              return Err(FabricationError);
            }
          }
          translated := Put(translated, legacyProp, value);
        } else {
          translated := Put(translated, currentProp, value);
        }
        i := i + 1;
      }
      assert currentConsent[..i] == currentConsent;
      FabricationsIff(currentConsent);
      LogTranslation(CurrentToLegacyDirection, currentConsent, translated, fabrications, now);
      r := Ok(translated);
    }

    /**
     * `validate_compatibility`: removed and added property sets, a semantic conflict when
     * freely_given was removed; compatible when there is no incompatibility.
     */
    function ValidateCompatibility(legacyModel: ConsentModel, currentModel: ConsentModel): (report: CompatibilityReport)
      ensures report.compatible <==> legacyModel.requiredProperties.Keys == currentModel.requiredProperties.Keys
      ensures report.canAdapt <==> strategy != Literal
      ensures report.adapterMode == ModeToken(mode) && report.translationStrategy == StrategyToken(strategy)
    {
      var legacyProps := legacyModel.requiredProperties.Keys;
      var currentProps := currentModel.requiredProperties.Keys;
      var removed := legacyProps - currentProps;
      var added := currentProps - legacyProps;
      var incompatibilities :=
        (if removed != {} then [RemovedProperties(removed)] else [])
        + (if added != {} then [AddedProperties(added)] else [])
        + (if "freely_given" in removed then [SemanticConflict] else []);
      assert incompatibilities == [] <==> removed == {} && added == {};
      assert removed == {} && added == {} <==> legacyProps == currentProps;
      CompatibilityReport(|incompatibilities| == 0, incompatibilities, strategy != Literal,
                          ModeToken(mode), StrategyToken(strategy))
    }

    /**
     * Models with disjoint, non-empty property sets, the first requiring freely_given, give all
     * three incompatibilities, each set in full.
     */
    lemma DisjointModelsIncompatible(legacyModel: ConsentModel, currentModel: ConsentModel)
      requires legacyModel.requiredProperties.Keys !! currentModel.requiredProperties.Keys
      requires "freely_given" in legacyModel.requiredProperties && currentModel.requiredProperties != map[]
      ensures var report := ValidateCompatibility(legacyModel, currentModel);
        !report.compatible
        && report.incompatibilities
           == [RemovedProperties(legacyModel.requiredProperties.Keys),
               AddedProperties(currentModel.requiredProperties.Keys), SemanticConflict]
    {
      var legacyProps := legacyModel.requiredProperties.Keys;
      var currentProps := currentModel.requiredProperties.Keys;
      assert legacyProps - currentProps == legacyProps;
      assert currentProps - legacyProps == currentProps;
      var k :| k in currentModel.requiredProperties;
      assert k in currentProps;
    }

    /** The legacy and current models give all three incompatibilities. */
    lemma LegacyCurrentIncompatible()
      ensures var report := ValidateCompatibility(NewConsentModel(Legacy), NewConsentModel(Current));
        !report.compatible
        && report.incompatibilities
           == [RemovedProperties(LegacyProperties), AddedProperties(CurrentProperties), SemanticConflict]
    {
      PropertySetsDisjoint();
      LegacyPropertyCount();
      CurrentPropertyCount();
      DisjointModelsIncompatible(NewConsentModel(Legacy), NewConsentModel(Current));
    }

    /** `get_translation_stats`: the counts are sums over the log; the conflicts are gathered in a loop. */
    method GetTranslationStats() returns (stats: TranslationStats)
      ensures stats == StatsOf(translationLog, mode, strategy)
    {
      if translationLog == [] {
        return NoTranslations;
      }
      var allConflicts: seq<Conflict> := [];
      var i := 0;
      while i < |translationLog|
        invariant 0 <= i <= |translationLog|
        invariant allConflicts == AllConflicts(translationLog[..i])
      {
        PrefixSnoc(translationLog, i);
        AllConflictsSnoc(translationLog[..i], translationLog[i]);
        allConflicts := allConflicts + translationLog[i].conflicts;
        i := i + 1;
      }
      assert translationLog[..i] == translationLog;
      stats := Stats(|translationLog|, WithConflicts(translationLog),
                     InDirection(translationLog, LegacyToCurrentDirection),
                     InDirection(translationLog, CurrentToLegacyDirection),
                     |ConflictKeys(allConflicts)|, ModeToken(mode), StrategyToken(strategy));
    }
  }
}
