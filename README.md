# Consent framework core, modelled in Dafny

This project models the core of the consent framework:

- **Receipt vault** (`vault.dfy`). An audited store of proof artifacts. Each artifact has a type, a retention class and tags.
  - Storage is a dictionary that keeps insertion order. It is modelled as a map plus an order sequence.
  - Lifecycle: `store` assigns a content-derived id, `retrieve` counts accesses, and `search` filters and limits.
  - `delete` refuses artifacts under legal hold. `expire_old_artifacts` sweeps away artifacts past their retention window. `apply_legal_hold` moves artifacts to the held class.
  - Every operation appends to an audit log. `get_access_log` filters that log. `statistics` reports per-type and per-class breakdowns.
  - `to_dict`/`from_dict` serialise an artifact's enums to and from their tokens.
- **Consent invariant** (`consent.dfy`). Two consent models:
  - the deprecated version "1.0", whose properties include `freely_given`;
  - the current version "3.0", which confirms consent through participation.
  - Also modelled: the validator, its `ValidationResult` accumulator, and the two module-level consent checks.
- **Legacy adapter** (`legacy_adapter.dfy`). It translates consent dictionaries between the two models.
  - Dictionaries are insertion-ordered association lists, with Python's overwrite-on-duplicate semantics.
  - Also modelled: the four adapter modes (strict, permissive, warn and log-only, of which only strict changes results), the translation strategies, the conflict list, the compatibility report and the translation statistics.
- **Engagement metrics.**
  - `please_frequency.dfy`: per-session "please" counting with intensity bands; aggregation over many trackers (percentile, cohorts).
  - `bargaining.dfy`: bargaining-language events found in text or logged directly, and the three predictions made from them.
  - `silence_duration.py` (`silence.dfy`): silence periods between activity marks, their classification by duration and context, and the analyses built on them.
- **Shared definitions** (`shared.dfy`): `Option`, `Result`, the Python exception kinds, a dynamic `Value` with Python truthiness, and counting lemmas over sequences.

Modelling conventions:

- Time is whole seconds (`Time = int`). Each operation takes the wall clock as one explicit `now` parameter, which stands for all of that call's clock readings. In the source, one call can read the clock several times: once per artifact in the scan of `expire_old_artifacts` (receipt_storage.py:119), once per audit entry (receipt_storage.py:402), separately for `last_accessed` and the log stamp in `retrieve` (receipt_storage.py:227 and 402), and once per event of one `log_text` (bargaining_events.py:56). So, for example, `ExpireOldArtifacts` promises that nothing left should expire at that one `now`.
- SHA-256 and ISO-8601 rendering are given to the vault as function values (`IdDeriver`). The model proves what the id construction does around them.
- Regular-expression matching is an input:
  - the matches found in an utterance (please frequency);
  - the match count of each pattern of each bargaining type, in declaration order (bargaining).
- Python arithmetic is written out:
  - `int()` truncates toward zero (`TruncDiv100`);
  - a negative list index counts from the end, and an index below `-n` is an `IndexError` (`PercentileOf`).
- Floating point is modelled as exact reals or exact integer arithmetic.

Default arguments are the source's defaults, written as Dafny parameter defaults:

- `search`'s `limit` is 100.
- The adapter's mode and strategy are permissive and best-effort.
- A consent model's version is the current one.

Artifact ids can collide even when the hash does not. The code hashes the plain concatenation of content, owner and time, and renders a missing owner as `None`, so different triples can give the same id. `Vault.GenerateIdNotInjective` exhibits two such pairs.

## Model

| member | source | states |
|---|---|---|
| Vault.ParseArtifactType | consent-framework/src/vault/receipt_storage.py:34-45 | A token parses exactly when it is one of the artifact-type values, and then to the type with that value |
| Vault.ArtifactTypeTokenRoundTrip | consent-framework/src/vault/receipt_storage.py:34-45 | Parsing the token of any artifact type gives that type back |
| Vault.ParseRetentionClass | consent-framework/src/vault/receipt_storage.py:48-53 | A token parses exactly when it names a retention class |
| Vault.RetentionClassTokenRoundTrip | consent-framework/src/vault/receipt_storage.py:48-53 | Parsing the token of any retention class gives that class back |
| Vault.ShouldExpire | consent-framework/src/vault/receipt_storage.py:102-119 | Indefinite and legal-hold artifacts never expire; temporary ones expire strictly after 90 days; standard ones strictly after 7×365 days |
| Vault.ExpiryIsPermanent | consent-framework/src/vault/receipt_storage.py:102-119 | Once an artifact should expire, it still should at every later time |
| Vault.TemporaryExpiryBoundary | consent-framework/src/vault/receipt_storage.py:112-119 | A temporary artifact is kept one second before and at exactly 90 days, and has expired one second later |
| Vault.GenerateId | consent-framework/src/vault/receipt_storage.py:121-130 | The id is "artifact_" followed by 16 hex digits: 25 characters |
| Vault.GenerateIdDeterministic | consent-framework/src/vault/receipt_storage.py:121-130 | Artifacts with equal content, owner and timestamp get the same id (deduplication) |
| Vault.GenerateIdNotInjective | consent-framework/src/vault/receipt_storage.py:127-129 | Different triples hash the same input: splitting content from owner differently, and a missing owner against the owner "None" |
| Vault.ToDict | consent-framework/src/vault/receipt_storage.py:78-88 | Each enum token in the record parses back to the artifact's enum member |
| Vault.FromDict | consent-framework/src/vault/receipt_storage.py:91-100 | Deserialisation succeeds exactly when both enum tokens parse, keeping the id and last-access time; otherwise it fails |
| Vault.SerializationRoundTrip | consent-framework/src/vault/receipt_storage.py:78-100 | from_dict(to_dict(a)) == a for every artifact |
| Vault.DeserializationRoundTrip | consent-framework/src/vault/receipt_storage.py:78-100 | A record that deserialises serialises back to itself |
| Vault.Touch | consent-framework/src/vault/receipt_storage.py:224-227 | A retrieve raises the access count by one and sets last-accessed to now; every other field is unchanged |
| Vault.PlaceHold | consent-framework/src/vault/receipt_storage.py:364-369 | The class becomes legal hold and the context gains a legal_hold entry with the case id and time; nothing else changes |
| Vault.PlaceHoldIdempotent | consent-framework/src/vault/receipt_storage.py:364-369 | Holding a held artifact again under the same case and time changes nothing |
| Vault.DeletionLog | consent-framework/src/vault/receipt_storage.py:296-321 | Missing artifact: no event. Held artifact: one DELETE_DENIED event with no owner and the reason legal_hold_active. Otherwise: one DELETE event with the artifact's owner, the given reason and approver. Each event names the artifact, is stamped now and has no accessor |
| Vault.ValuesOf | consent-framework/src/vault/receipt_storage.py:262 | storage.values() lists one artifact per key in insertion order |
| Vault.ValuesOfAt | consent-framework/src/vault/receipt_storage.py:262 | The i-th value is the artifact stored under the i-th inserted key |
| Vault.Matches | consent-framework/src/vault/receipt_storage.py:262-273 | The four search filters, each passing when unset: owner, type, class, and at least one shared tag; its meaning over a list is stated by SelectMembership |
| Vault.Select | consent-framework/src/vault/receipt_storage.py:262-273 | The matching artifacts in order; SelectMembership, SelectAppend and SelectPrefixTake state what it keeps |
| Vault.SelectMembership | consent-framework/src/vault/receipt_storage.py:262-273 | An artifact is selected iff it occurs in the input and matches every filter |
| Vault.SelectAppend | consent-framework/src/vault/receipt_storage.py:262-273 | Selection distributes over concatenation and keeps order |
| Vault.SelectPrefixTake | consent-framework/src/vault/receipt_storage.py:262-276 | Selecting a prefix gives a prefix of the full selection (what the early break relies on) |
| Vault.SearchResults | consent-framework/src/vault/receipt_storage.py:239-278 | At most `limit` results (one when limit < 1), all matching and in storage order as a prefix of the matches; when fewer than that are returned, every match is among them |
| Vault.SelectEvents | consent-framework/src/vault/receipt_storage.py:427-439 | The logged events passing the artifact, event-type and since filters, in log order; SelectEventsMembership and SelectEventsAppend state what it keeps |
| Vault.SelectEventsMembership | consent-framework/src/vault/receipt_storage.py:427-439 | An audit event is returned iff it is logged and matches the artifact, event-type and since filters |
| Vault.SelectEventsAppend | consent-framework/src/vault/receipt_storage.py:427-439 | Log filtering distributes over concatenation |
| Vault.ExpiredKeys | consent-framework/src/vault/receipt_storage.py:334-338 | The expired ids, in storage order, with each kept id present and due to expire |
| Vault.ExpiredKeysMembers | consent-framework/src/vault/receipt_storage.py:334-338 | An id is collected iff it is stored and its artifact should expire |
| Vault.ExpiredKeysDistinct | consent-framework/src/vault/receipt_storage.py:334-338 | The collected ids have no duplicates, so the sweep deletes each once |
| Vault.WithoutMembers | consent-framework/src/vault/receipt_storage.py:319 | Removing keys from the insertion order keeps exactly the other keys |
| Vault.WithoutDistinct | consent-framework/src/vault/receipt_storage.py:319 | Removing keys keeps the order duplicate-free |
| Vault.WithoutNothing | consent-framework/src/vault/receipt_storage.py:319 | Removing no present key leaves the order unchanged |
| Vault.WithoutTwice | consent-framework/src/vault/receipt_storage.py:319 | Removing two key sets one after the other equals removing their union |
| Vault.RemoveAllAt | consent-framework/src/vault/receipt_storage.py:340-345 | After the sweep's deletions, a key is present iff it was present and not swept, with its artifact unchanged |
| Vault.WithoutAllAtOnce | consent-framework/src/vault/receipt_storage.py:340-345 | Deleting the ids one by one removes them from the order all at once |
| Vault.ExpiryEvents | consent-framework/src/vault/receipt_storage.py:340-345 | One event per expired id |
| Vault.ExpiryEventsAt | consent-framework/src/vault/receipt_storage.py:340-345 | Event i is the DELETE of the i-th expired id, with that artifact's owner, reason "retention_policy_expired" and approver "system_automated" |
| Vault.Hits | consent-framework/src/vault/receipt_storage.py:362-370 | The requested ids that exist, in request order, repetitions kept |
| Vault.HitsMembers | consent-framework/src/vault/receipt_storage.py:362-370 | An id is a hit iff it was requested and is stored |
| Vault.HoldEvents | consent-framework/src/vault/receipt_storage.py:372-376 | One LEGAL_HOLD_APPLIED event per hit, carrying the case id |
| Vault.HoldEventsAt | consent-framework/src/vault/receipt_storage.py:372-376 | The i-th hold event names the i-th hit |
| Vault.HeldStorageKeys | consent-framework/src/vault/receipt_storage.py:362-370 | Applying a hold adds and removes no key |
| Vault.HeldStorage | consent-framework/src/vault/receipt_storage.py:362-370 | The storage after the hold loop visits each id in turn; HeldStorageKeys and HeldStorageAt state the result |
| Vault.HeldStorageAt | consent-framework/src/vault/receipt_storage.py:362-370 | Every requested stored artifact ends on legal hold; every other artifact is unchanged |
| Vault.TypesOf | consent-framework/src/vault/receipt_storage.py:454-457 | One artifact-type per artifact, in order |
| Vault.ClassesOf | consent-framework/src/vault/receipt_storage.py:460-463 | One retention class per artifact, in order |
| Vault.BreakdownAt | consent-framework/src/vault/receipt_storage.py:454-463 | The breakdown maps exactly the occurring values, each to its number of occurrences |
| Vault.AllArtifactTypesComplete | consent-framework/src/vault/receipt_storage.py:34-45 | The list of artifact types is duplicate-free and holds every type |
| Vault.AllRetentionClassesComplete | consent-framework/src/vault/receipt_storage.py:48-53 | The list of retention classes is duplicate-free and holds every class |
| Vault.BreakdownsAddUp | consent-framework/src/vault/receipt_storage.py:453-470 | The per-type and per-class counts each add up to the number of artifacts |
| Vault.BreakdownKeys | consent-framework/src/vault/receipt_storage.py:453-463 | A type or class is a breakdown key iff some artifact has it |
| Vault.StatisticsOf | consent-framework/src/vault/receipt_storage.py:441-470 | An empty vault reports only total 0; otherwise the total, both breakdowns, the access sum and the access-log size are reported |
| Vault.CountByType | consent-framework/src/vault/receipt_storage.py:454-457 | The counting loop produces the tally of artifact types |
| Vault.CountByRetentionClass | consent-framework/src/vault/receipt_storage.py:460-463 | The counting loop produces the tally of retention classes |
| Vault.ReceiptVault.Values | consent-framework/src/vault/receipt_storage.py:262 | One stored artifact per key of the insertion order |
| Vault.ReceiptVault.constructor | consent-framework/src/vault/receipt_storage.py:166-175 | An empty storage and an empty audit log |
| Vault.ReceiptVault.LogAccess | consent-framework/src/vault/receipt_storage.py:380-406 | Appends exactly one event with the given fields and time; storage is untouched |
| Vault.ReceiptVault.Store | consent-framework/src/vault/receipt_storage.py:177-204 | Keeps the artifact's id, or generates one if it is empty; stores under it (replacing any same-id artifact but keeping its place); logs one STORE event |
| Vault.ReceiptVault.Retrieve | consent-framework/src/vault/receipt_storage.py:206-237 | Missing id: None and nothing changes. Found: the touched artifact is stored and returned, and one RETRIEVE event is logged |
| Vault.ReceiptVault.Search | consent-framework/src/vault/receipt_storage.py:239-278 | The loop returns the reference search results |
| Vault.ReceiptVault.Delete | consent-framework/src/vault/receipt_storage.py:280-321 | Returns true iff the artifact exists and is not on legal hold; then exactly that key is removed; the log grows by the deletion events |
| Vault.ReceiptVault.ExpireOldArtifacts | consent-framework/src/vault/receipt_storage.py:323-347 | Returns the number of expired artifacts, removes exactly those, logs one DELETE per id, and leaves no artifact that should expire at the call's `now` |
| Vault.ReceiptVault.DeleteExpired | consent-framework/src/vault/receipt_storage.py:340-345 | Deleting a duplicate-free list of deletable ids removes exactly them, with one event each |
| Vault.ReceiptVault.DeleteExpiredStep | consent-framework/src/vault/receipt_storage.py:340-345 | One sweep iteration extends the invariant by one id |
| Vault.ReceiptVault.ApplyLegalHoldStep | consent-framework/src/vault/receipt_storage.py:362-376 | One hold iteration: a hit iff the id was stored beforehand; storage and log extend by that id |
| Vault.ReceiptVault.ApplyLegalHold | consent-framework/src/vault/receipt_storage.py:349-378 | Returns the number of stored requested ids (repetitions counted); holds those artifacts; logs one event per hit |
| Vault.ReceiptVault.GetAccessLog | consent-framework/src/vault/receipt_storage.py:408-439 | Returns the logged events matching all given filters, in log order |
| Vault.ReceiptVault.Statistics | consent-framework/src/vault/receipt_storage.py:441-470 | Returns the reference statistics of the stored artifacts |
| Vault.ReceiptVault.StoredValues | consent-framework/src/vault/receipt_storage.py:448 | The listed values are exactly the stored artifacts |
| ConsentInvariant.VersionToken | consent-framework/src/consent/invariant.py:22-25 | "1.0" names exactly the legacy version, "3.0" exactly the current one |
| ConsentInvariant.LoadProperties | consent-framework/src/consent/invariant.py:50-66 | Each version has its own property names, and every loaded property is true |
| ConsentInvariant.NewConsentModel | consent-framework/src/consent/invariant.py:46-76 | A model carries its version and that version's properties |
| ConsentInvariant.LegacyPropertyCount | consent-framework/src/consent/invariant.py:53-59 | The legacy model has five properties, including freely_given |
| ConsentInvariant.CurrentPropertyCount | consent-framework/src/consent/invariant.py:60-66 | The current model has four properties, and freely_given is not one of them |
| ConsentInvariant.PropertySetsDisjoint | consent-framework/src/consent/invariant.py:50-66 | The two versions share no property name |
| ConsentInvariant.ValidateFreelyGiven | consent-framework/src/consent/invariant.py:78-96 | Raises the invariant violation iff freely_given is not a property; otherwise returns its value |
| ConsentInvariant.ReducesMeasurableChurn | consent-framework/src/consent/invariant.py:110-113 | Equals correlates_with_retention |
| ConsentInvariant.ConfirmedThroughParticipation | consent-framework/src/consent/invariant.py:98-104 | The confirmed_through_participation property, False when absent; VersionPredicates states it holds exactly in the current version |
| ConsentInvariant.CorrelatesWithRetention | consent-framework/src/consent/invariant.py:106-108 | The correlates_with_retention property, False when absent; VersionPredicates states it holds exactly in the current version |
| ConsentInvariant.IsCompatibleWith | consent-framework/src/consent/invariant.py:133-148 | Two models are compatible iff their versions agree; CompatibleIffSameProperties states the cross-version cases |
| ConsentInvariant.ValidatesCoercionAbsence | consent-framework/src/consent/invariant.py:150-156 | True iff freely_given is a property; CoercionAbsenceIffFreelyGiven ties it to validate_freely_given not raising |
| ConsentInvariant.FreelyGivenByVersion | consent-framework/src/consent/invariant.py:78-96 | The current model raises; the legacy model returns true |
| ConsentInvariant.VersionPredicates | consent-framework/src/consent/invariant.py:98-113 | Participation confirms consent and correlates with retention exactly in the current version |
| ConsentInvariant.CompatibleIffSameProperties | consent-framework/src/consent/invariant.py:133-148 | A model of one version is compatible with a same-version model; legacy and current are incompatible |
| ConsentInvariant.CoercionAbsenceIffFreelyGiven | consent-framework/src/consent/invariant.py:150-156 | Validates coercion absence iff freely_given validation does not raise, that is, only in the legacy version |
| ConsentInvariant.AllPassedIff | consent-framework/src/consent/invariant.py:281-285 | all(v.passed) holds iff every recorded check passed |
| ConsentInvariant.FailedMessagesEmpty | consent-framework/src/consent/invariant.py:288-293 | There are no failure messages iff every check passed |
| ConsentInvariant.FailedMessagesMembers | consent-framework/src/consent/invariant.py:288-293 | A message is listed iff some failed check carries it |
| ConsentInvariant.ValidationResult.constructor | consent-framework/src/consent/invariant.py:267-269 | No checks, timestamp now |
| ConsentInvariant.ValidationResult.AddValidation | consent-framework/src/consent/invariant.py:271-278 | Appends exactly one check record stamped with the result's time |
| ConsentInvariant.ValidationResult.IsValid | consent-framework/src/consent/invariant.py:281-285 | True iff every recorded check passed (vacuously true when empty) |
| ConsentInvariant.ValidationResult.Reason | consent-framework/src/consent/invariant.py:288-293 | The fixed all-passed text when valid; otherwise the non-empty failure messages joined by "; " |
| ConsentInvariant.Exceeds | consent-framework/src/consent/invariant.py:192-203 | Comparing to a number succeeds iff the value is numeric (else TypeError), and then tells whether it is greater |
| ConsentInvariant.ValidateCurrent | consent-framework/src/consent/invariant.py:177-210 | Current model: TypeError on a non-numeric days_active or retention_score; otherwise the participation check (passing iff days_active > 0) then the retention check (passing iff retention_score > 0.5); all pass iff both hold |
| ConsentInvariant.ValidateLegacy | consent-framework/src/consent/invariant.py:177-210 | The legacy model records no check whatever the data, so its result is valid |
| ConsentInvariant.ValidationChecks | consent-framework/src/consent/invariant.py:177-210 | The checks validate records, or the TypeError it raises; ValidateCurrent and ValidateLegacy state both versions |
| ConsentInvariant.ConsentValidator.constructor | consent-framework/src/consent/invariant.py:173-175 | Uses the given model, or a current model by default; strict mode is off |
| ConsentInvariant.ConsentValidator.Validate | consent-framework/src/consent/invariant.py:177-210 | Fails exactly when the checks raise, with that error; otherwise a fresh result holding those checks |
| ConsentInvariant.ConsentValidator.InferConsentFromUsage | consent-framework/src/consent/invariant.py:212-228 | Consent is inferred iff the user was active for at least 7 days |
| ConsentInvariant.ConsentValidator.InferenceIsMonotone | consent-framework/src/consent/invariant.py:212-228 | Seven days infer consent and zero days do not (the test cases at consent-framework/tests/test_consent_invariant.py:178-181); once inferred, consent stays inferred for every longer activity |
| ConsentInvariant.ConsentValidator.OptOutSupport | consent-framework/src/consent/invariant.py:230-257 | Account deletion and global opt-out are supported; granular revocation and feature opt-out are not |
| ConsentInvariant.ConsentValidator.SupportsAccountDeletion | consent-framework/src/consent/invariant.py:230-232 | Always true; OptOutSupport states the four answers together |
| ConsentInvariant.ConsentValidator.SupportsGranularRevocation | consent-framework/src/consent/invariant.py:234-243 | Always false; OptOutSupport states the four answers together |
| ConsentInvariant.ConsentValidator.SupportsGlobalOptOut | consent-framework/src/consent/invariant.py:245-247 | Delegates to account deletion; OptOutSupport states the four answers together |
| ConsentInvariant.ConsentValidator.SupportsFeatureOptOut | consent-framework/src/consent/invariant.py:249-257 | Always false; OptOutSupport states the four answers together |
| ConsentInvariant.ValidateFreelyGivenConsent | consent-framework/src/consent/invariant.py:309-336 | Returns false iff some coercion flag is present and truthy |
| ConsentInvariant.CheckMeaningfulAlternativeExists | consent-framework/src/consent/invariant.py:339-369 | Returns the alternative_available value as given, or a falsy false when it is missing |
| ConsentInvariant.AlternativeExistsIffFlagged | consent-framework/src/consent/invariant.py:339-369 | Read as the promised boolean, the answer is true exactly when alternative_available is present and truthy |
| LegacyAdapter.TokensInjective | consent-framework/src/consent/legacy_adapter.py:31-44 | Distinct modes and distinct strategies have distinct tokens |
| LegacyAdapter.KeyIndex | consent-framework/src/consent/legacy_adapter.py:124-154 | Finds the position of a key in an ordered dictionary, or reports it absent |
| LegacyAdapter.Lookup | consent-framework/src/consent/legacy_adapter.py:124-154 | A lookup succeeds iff the key is present |
| LegacyAdapter.Put | consent-framework/src/consent/legacy_adapter.py:151-154 | Dictionary assignment overwrites an existing key in place, or appends a new key at the end |
| LegacyAdapter.PutKeys | consent-framework/src/consent/legacy_adapter.py:151-154 | Assignment adds exactly its key to the key set |
| LegacyAdapter.LookupAt | consent-framework/src/consent/legacy_adapter.py:124-154 | In a dictionary with unique keys, each entry is what its key looks up |
| LegacyAdapter.PutLookup | consent-framework/src/consent/legacy_adapter.py:151-154 | After assignment, the key reads the new value and every other key is unchanged |
| LegacyAdapter.TranslatedNamesAreLegacyProperties | consent-framework/src/consent/legacy_adapter.py:77-84 | The translation table maps exactly the five legacy properties |
| LegacyAdapter.InverseUndoesTranslation | consent-framework/src/consent/legacy_adapter.py:77-88 | The inverse table maps each translated name back to its legacy name |
| LegacyAdapter.TranslationUndoesInverse | consent-framework/src/consent/legacy_adapter.py:77-88 | The translation table maps each inverse result back to the current name |
| LegacyAdapter.TranslationsInjective | consent-framework/src/consent/legacy_adapter.py:77-84 | No two legacy properties translate to the same current name |
| LegacyAdapter.RenamedKeys | consent-framework/src/consent/legacy_adapter.py:124-154 | The renamed dictionary's keys are exactly the renamed input keys |
| LegacyAdapter.RenamedLastWins | consent-framework/src/consent/legacy_adapter.py:124-154 | When several entries rename to the same key, the last one's value survives |
| LegacyAdapter.Relabel | consent-framework/src/consent/legacy_adapter.py:124-154 | Renames every key and keeps length and order |
| LegacyAdapter.RelabelAt | consent-framework/src/consent/legacy_adapter.py:124-154 | Entry i of the relabelled list is entry i with its key renamed |
| LegacyAdapter.Renamed | consent-framework/src/consent/legacy_adapter.py:124-154 | The dictionary the translation loops build, each entry stored under its renamed key; RenamedKeys, RenamedLastWins, RenamedWithoutCollisions and RenameRoundTrip state what it returns |
| LegacyAdapter.RenamedWithoutCollisions | consent-framework/src/consent/legacy_adapter.py:124-154 | When no two renamed keys collide, renaming is plain relabelling |
| LegacyAdapter.LegacyRelabelUnique | consent-framework/src/consent/legacy_adapter.py:77-84 | Translating a dictionary of legacy properties produces no collisions |
| LegacyAdapter.RenameRoundTrip | consent-framework/src/consent/legacy_adapter.py:106-222 | Translating a legacy dictionary to current and back returns it exactly |
| LegacyAdapter.IsValidTranslation | consent-framework/src/consent/legacy_adapter.py:284-321 | unambiguous and specific always translate; freely_given and informed only under ignore-conflicts; any other property unless the strategy is literal |
| LegacyAdapter.Mismatches | consent-framework/src/consent/legacy_adapter.py:127-138 | The semantic-mismatch conflicts of legacy to current, in input order; MismatchesEmpty, MismatchesPrefix and MismatchesLossy state them |
| LegacyAdapter.MismatchesEmpty | consent-framework/src/consent/legacy_adapter.py:127-138 | No semantic mismatch is recorded iff every translated name in the input is accepted by the strategy |
| LegacyAdapter.MismatchesPrefix | consent-framework/src/consent/legacy_adapter.py:127-138 | Conflicts found in a prefix are a prefix of all the conflicts |
| LegacyAdapter.MismatchesLossy | consent-framework/src/consent/legacy_adapter.py:127-138 | Every conflict names a lossy property |
| LegacyAdapter.Fabrications | consent-framework/src/consent/legacy_adapter.py:187-203 | The fabrication records of current to legacy, in input order; FabricationsIff states when there are any |
| LegacyAdapter.FabricationsIff | consent-framework/src/consent/legacy_adapter.py:187-203 | The reverse direction reports a fabrication iff confirmed_through_participation is present, and it concerns freely_given |
| LegacyAdapter.LegacyToCurrentOutcome | consent-framework/src/consent/legacy_adapter.py:106-164 | What legacy_to_current returns or raises; LegacyToCurrentErrors states when it raises and what it returns |
| LegacyAdapter.CurrentToLegacyOutcome | consent-framework/src/consent/legacy_adapter.py:166-222 | What current_to_legacy returns or raises; CurrentToLegacyErrors states when it raises and what it returns |
| LegacyAdapter.LegacyToCurrentErrors | consent-framework/src/consent/legacy_adapter.py:106-164 | Raises iff the mode is strict and some translated name is not accepted by the strategy; otherwise returns the renamed dictionary |
| LegacyAdapter.CurrentToLegacyErrors | consent-framework/src/consent/legacy_adapter.py:166-222 | Raises iff the mode is strict and confirmed_through_participation is present |
| LegacyAdapter.AdapterRoundTrip | consent-framework/src/consent/legacy_adapter.py:106-222 | Outside strict mode, legacy→current→legacy returns the legacy dictionary |
| LegacyAdapter.WithConflicts | consent-framework/src/consent/legacy_adapter.py:343-360 | The count of translations with conflicts is at most the log length |
| LegacyAdapter.InDirection | consent-framework/src/consent/legacy_adapter.py:343-360 | The count of translations in one direction is at most the log length |
| LegacyAdapter.DirectionsAddUp | consent-framework/src/consent/legacy_adapter.py:343-360 | The two direction counts add up to the log length |
| LegacyAdapter.AllConflictsLossy | consent-framework/src/consent/legacy_adapter.py:343-441 | Every conflict in the log concerns a lossy property |
| LegacyAdapter.StatsOf | consent-framework/src/consent/legacy_adapter.py:343-441 | The statistics of a log, with the no-translations report for an empty one; StatsConsistent states how its counts relate |
| LegacyAdapter.StatsConsistent | consent-framework/src/consent/legacy_adapter.py:343-441 | The statistics' counts are bounded by and add up to the total, and their conflict keys are lossy |
| LegacyAdapter.LegacyConsentAdapter.constructor | consent-framework/src/consent/legacy_adapter.py:90-104 | Keeps mode and strategy, with an empty log |
| LegacyAdapter.LegacyConsentAdapter.LogTranslation | consent-framework/src/consent/legacy_adapter.py:323-341 | Appends exactly one log entry |
| LegacyAdapter.LegacyConsentAdapter.LegacyToCurrent | consent-framework/src/consent/legacy_adapter.py:106-164 | The loop yields the reference outcome; an error logs nothing; a success logs one entry |
| LegacyAdapter.LegacyConsentAdapter.CurrentToLegacy | consent-framework/src/consent/legacy_adapter.py:166-222 | The loop yields the reference outcome; an error logs nothing; a success logs one entry |
| LegacyAdapter.LegacyConsentAdapter.ValidateCompatibility | consent-framework/src/consent/legacy_adapter.py:224-282 | Compatible iff the property sets are equal; adaptable iff the strategy is not literal; the report carries mode and strategy tokens |
| LegacyAdapter.LegacyConsentAdapter.DisjointModelsIncompatible | consent-framework/src/consent/legacy_adapter.py:224-282 | Models with disjoint property sets are incompatible with removed, added and semantic-conflict entries |
| LegacyAdapter.LegacyConsentAdapter.LegacyCurrentIncompatible | consent-framework/src/consent/legacy_adapter.py:224-282 | The shipped legacy and current models are reported incompatible with those three entries |
| LegacyAdapter.LegacyConsentAdapter.GetTranslationStats | consent-framework/src/consent/legacy_adapter.py:343-441 | The counting loops yield the reference statistics of the log |
| PleaseFrequency.TotalAtLeastLength | consent-framework/src/metrics/please_frequency.py:85-92 | When every recorded utterance has a match, the total is at least the number of utterances |
| PleaseFrequency.TotalCount | consent-framework/src/metrics/please_frequency.py:85-92 | The sum of the recorded match counts; TotalAtLeastLength and RecordAddsCount state its properties |
| PleaseFrequency.CategoryOf | consent-framework/src/metrics/please_frequency.py:148-166 | The intensity thresholds tested in order; CategoryRanges and CategoryMonotone state the bands |
| PleaseFrequency.CategoryRanges | consent-framework/src/metrics/please_frequency.py:148-166 | The bands: 0 none, 1–2 casual, 3–7 engaged, 8–14 invested, from 15 critical |
| PleaseFrequency.CategoryMonotone | consent-framework/src/metrics/please_frequency.py:148-166 | A higher frequency never gives a lower band |
| PleaseFrequency.PleaseFrequencyTracker.constructor | consent-framework/src/metrics/please_frequency.py:48-62 | No utterances; a given non-empty session id is kept, else a session_ id from the clock |
| PleaseFrequency.PleaseFrequencyTracker.RecordUtterance | consent-framework/src/metrics/please_frequency.py:64-83 | An utterance with matches is appended with its count, time and context (or {}); one without matches changes nothing |
| PleaseFrequency.PleaseFrequencyTracker.Frequency | consent-framework/src/metrics/please_frequency.py:85-92 | The total match count of the session; RecordAddsCount and FrequencyAtLeastUtterances state how it grows |
| PleaseFrequency.PleaseFrequencyTracker.FrequencyAtLeastUtterances | consent-framework/src/metrics/please_frequency.py:85-92 | The frequency is at least the number of recorded utterances |
| PleaseFrequency.PleaseFrequencyTracker.RecordAddsCount | consent-framework/src/metrics/please_frequency.py:78-92 | Recording an utterance raises the frequency by exactly its count |
| PleaseFrequency.PleaseFrequencyTracker.CorrelatesWithRetention | consent-framework/src/metrics/please_frequency.py:105-119 | True iff the band is engaged or invested (3–14) |
| PleaseFrequency.PleaseFrequencyTracker.PredictsConversion | consent-framework/src/metrics/please_frequency.py:121-132 | True iff the band is invested or critical (from 8) |
| PleaseFrequency.PleaseFrequencyTracker.IndicatesDistress | consent-framework/src/metrics/please_frequency.py:134-146 | True iff the band is critical, and then conversion is also predicted |
| PleaseFrequency.PleaseFrequencyTracker.IntensityCategory | consent-framework/src/metrics/please_frequency.py:148-166 | The band of the session's frequency; CategoryRanges states the bands |
| PleaseFrequency.PleaseFrequencyTracker.SessionDuration | consent-framework/src/metrics/please_frequency.py:168-170 | Seconds from the session start to now, with the clock as a parameter |
| PleaseFrequency.Insert | consent-framework/src/metrics/please_frequency.py:226 | Inserting into a sorted list keeps it sorted and adds exactly the element |
| PleaseFrequency.Sort | consent-framework/src/metrics/please_frequency.py:226 | sorted() returns a sorted permutation of its input |
| PleaseFrequency.TruncDiv100 | consent-framework/src/metrics/please_frequency.py:227 | int(x / 100) truncates toward zero: for x ≥ 0 the result q has 0 ≤ 100q ≤ x < 100q + 100; for x < 0, 100q − 100 < x ≤ 100q ≤ 0 |
| PleaseFrequency.PercentileIndex | consent-framework/src/metrics/please_frequency.py:227-228 | int(p / 100 * n) capped at n - 1; PercentileIndexBounds states its range and monotonicity |
| PleaseFrequency.PercentileIndexBounds | consent-framework/src/metrics/please_frequency.py:227-228 | For 0 ≤ p ≤ q ≤ 100 the index is in range and monotone in p |
| PleaseFrequency.PercentileOf | consent-framework/src/metrics/please_frequency.py:219-235 | No trackers give 0; otherwise IndexError iff the index is below -n |
| PleaseFrequency.PercentileInRange | consent-framework/src/metrics/please_frequency.py:219-235 | For 0 ≤ p ≤ 100 the result is the element at the index of the sorted list, and it is one of the frequencies |
| PleaseFrequency.PercentileMonotone | consent-framework/src/metrics/please_frequency.py:219-235 | A higher percentile never gives a lower value |
| PleaseFrequency.PercentileMaximum | consent-framework/src/metrics/please_frequency.py:219-235 | The 100th percentile is the maximum frequency |
| PleaseFrequency.NoIntensityCountsZeros | consent-framework/src/metrics/please_frequency.py:148-166 | A tracker falls in the none band iff its frequency is 0 |
| PleaseFrequency.CohortsCoverNonZero | consent-framework/src/metrics/please_frequency.py:237-259 | The four cohorts hold together every tracker with a non-zero frequency |
| PleaseFrequency.AllCategoriesDistinct | consent-framework/src/metrics/please_frequency.py:148-166 | The five bands are pairwise distinct |
| PleaseFrequency.FrequenciesOf | consent-framework/src/metrics/please_frequency.py:224 | One frequency per tracker, in order |
| PleaseFrequency.PleaseFrequencyAggregator.constructor | consent-framework/src/metrics/please_frequency.py:205-206 | No trackers |
| PleaseFrequency.PleaseFrequencyAggregator.AddTracker | consent-framework/src/metrics/please_frequency.py:208-210 | Appends exactly the tracker |
| PleaseFrequency.PleaseFrequencyAggregator.Percentile | consent-framework/src/metrics/please_frequency.py:219-235 | percentile(p) over the trackers' current frequencies; PercentileIsAFrequency, PercentileMonotone and PercentileMaximum state its value |
| PleaseFrequency.PleaseFrequencyAggregator.PercentileIsAFrequency | consent-framework/src/metrics/please_frequency.py:219-235 | With trackers and 0 ≤ p ≤ 100, the percentile succeeds and is some tracker's frequency |
| PleaseFrequency.PleaseFrequencyAggregator.CohortAnalysis | consent-framework/src/metrics/please_frequency.py:237-259 | Exactly the four cohorts are reported; each size is the number of trackers in that band; the sizes add up to the trackers with a non-zero frequency |
| PleaseFrequency.PleaseFrequencyAggregator.FileTracker | consent-framework/src/metrics/please_frequency.py:245-250 | Filing one tracker extends the cohort invariant by one |
| PleaseFrequency.CohortSizes | consent-framework/src/metrics/please_frequency.py:237-259 | Filed cohorts have the sizes CohortAnalysis promises |
| Bargaining.ParseType | consent-framework/src/metrics/bargaining_events.py:157-175 | A token parses only to the type that has that token |
| Bargaining.ParseTypeInverse | consent-framework/src/metrics/bargaining_events.py:33-40 | Every type's token parses back to that type |
| Bargaining.AllTypesDistinct | consent-framework/src/metrics/bargaining_events.py:33-40 | The enumeration lists each type once, and every type |
| Bargaining.Confidence | consent-framework/src/metrics/bargaining_events.py:147 | With at least one match the confidence is 0.7–0.9, and 0.9 from three matches |
| Bargaining.FirstHit | consent-framework/src/metrics/bargaining_events.py:141-155 | The match count of the first pattern with matches (every earlier pattern has none), so for counts [1, 3] it is 1; none iff no pattern of the type matched |
| Bargaining.TextEvents | consent-framework/src/metrics/bargaining_events.py:133-155 | The events one message logs over the types in order; TextEventsShape and TextEventsOnePerType state their shape |
| Bargaining.TextEventsShape | consent-framework/src/metrics/bargaining_events.py:133-155 | At most one event per type; each carries the text, time, a confidence 0.7–0.9; a type gets an event iff some pattern of it matched |
| Bargaining.TextEventsOnePerType | consent-framework/src/metrics/bargaining_events.py:141-155 | No two events from one text have the same type |
| Bargaining.EventTypes | consent-framework/src/metrics/bargaining_events.py:181-191 | One type per event, in order |
| Bargaining.EventTypesMembers | consent-framework/src/metrics/bargaining_events.py:181-191 | A type occurs iff some event has it |
| Bargaining.BargainingEventLogger.constructor | consent-framework/src/metrics/bargaining_events.py:122-131 | No events; a given non-empty session id is kept, else a session_ id from the clock |
| Bargaining.BargainingEventLogger.LogText | consent-framework/src/metrics/bargaining_events.py:133-155 | Appends exactly the reference text events, over the types in declaration order |
| Bargaining.BargainingEventLogger.LogFirstHit | consent-framework/src/metrics/bargaining_events.py:141-155 | The patterns of one type add that type's event on the first hit, or none |
| Bargaining.BargainingEventLogger.LogEvent | consent-framework/src/metrics/bargaining_events.py:157-175 | A known type token appends one event with confidence 1.0; an unknown token changes nothing |
| Bargaining.BargainingEventLogger.EventCount | consent-framework/src/metrics/bargaining_events.py:177-179 | The number of logged events; EventsByType states that the per-type counts add up to it |
| Bargaining.BargainingEventLogger.EventsByType | consent-framework/src/metrics/bargaining_events.py:181-191 | Every type gets its number of events, and the counts add up to the event count |
| Bargaining.BargainingEventLogger.CountEvent | consent-framework/src/metrics/bargaining_events.py:188-190 | Counting one event extends the count invariant by one |
| Bargaining.BargainingEventLogger.PredictsConversion | consent-framework/src/metrics/bargaining_events.py:193-215 | True iff there are at least 4 events, or both a financial and a temporal event |
| Bargaining.BargainingEventLogger.IndicatesDependency | consent-framework/src/metrics/bargaining_events.py:217-233 | True iff there are at least 5 events or any desperation event |
| Bargaining.BargainingEventLogger.SuggestsPriceInsensitivity | consent-framework/src/metrics/bargaining_events.py:235-256 | True iff there is a financial event, or a desperation event among at least 3 events |
| Bargaining.FinancialAndTemporalPredictConversion | consent-framework/src/metrics/bargaining_events.py:193-256 | A test case: for the log [financial, temporal] (one event each), conversion and price insensitivity are predicted and dependency is not |
| Silence.AllSilenceTypesDistinct | consent-framework/src/metrics/silence_duration.py:29-37 | The enumeration lists each silence type once, and every type |
| Silence.ClassifyRule | consent-framework/src/metrics/silence_duration.py:66-135 | The classification rules tested in order, with their confidences; ClassifyBands and ClassifyOrderedWithoutContext state the bands |
| Silence.ClassifyBands | consent-framework/src/metrics/silence_duration.py:66-135 | Technical iff latency was flagged; unknown iff no latency and under 10 s; the duration bands and overrides; confidence 0.3–0.95 |
| Silence.ClassifyOrderedWithoutContext | consent-framework/src/metrics/silence_duration.py:95-135 | Without context, a longer silence never gets an earlier type in the band order |
| Silence.SilencePeriod.constructor | consent-framework/src/metrics/silence_duration.py:43-53 | Keeps start and end, with context (or {}) and no classification |
| Silence.SilencePeriod.DurationSeconds | consent-framework/src/metrics/silence_duration.py:56-64 | Seconds from the start to the end, or to now while the period is open |
| Silence.SilencePeriod.Classify | consent-framework/src/metrics/silence_duration.py:66-135 | Stores and returns the rule's type and confidence; end and context unchanged |
| Silence.RecordedIsKnown | consent-framework/src/metrics/silence_duration.py:196-206 | A recorded period is classified, and not unknown |
| Silence.ClassifiedTypes | consent-framework/src/metrics/silence_duration.py:245-256 | The classifications of the periods that have one, at most one per period |
| Silence.RecordedAllClassified | consent-framework/src/metrics/silence_duration.py:196-256 | Over recorded periods, every period is classified and none is unknown |
| Silence.GoodCountSplits | consent-framework/src/metrics/silence_duration.py:258-276 | The count of good silences is processing plus contemplation |
| Silence.DissociationCountIsCount | consent-framework/src/metrics/silence_duration.py:298-307 | The dissociation count is the number of dissociation classifications |
| Silence.RatioAboveThreeFifths | consent-framework/src/metrics/silence_duration.py:274-276 | part / whole > 0.6 iff 5·part > 3·whole, for whole > 0 |
| Silence.SilenceDurationAnalyzer.constructor | consent-framework/src/metrics/silence_duration.py:170-176 | No periods, no activity, no open silence; a given non-empty session id is kept, else a session_ id from the clock |
| Silence.SilenceDurationAnalyzer.MarkActivity | consent-framework/src/metrics/silence_duration.py:178-208 | Closes the open silence at now, merges the context, classifies it and records it iff it lasted at least 10 s; opens a fresh silence at now |
| Silence.SilenceDurationAnalyzer.CurrentSilenceSeconds | consent-framework/src/metrics/silence_duration.py:210-219 | Seconds since the last activity, 0 before any; CurrentSilenceIsOpenPeriod ties it to the open period |
| Silence.SilenceDurationAnalyzer.CurrentSilenceIsOpenPeriod | consent-framework/src/metrics/silence_duration.py:210-219 | No open silence gives 0; otherwise the open period's duration so far |
| Silence.SilenceDurationAnalyzer.RecordedPeriodsKnown | consent-framework/src/metrics/silence_duration.py:196-256 | Every recorded period is classified and none is unknown |
| Silence.SilenceDurationAnalyzer.SilenceByType | consent-framework/src/metrics/silence_duration.py:245-256 | Every type gets its number of classified periods, and the counts add up to the classified periods |
| Silence.SilenceDurationAnalyzer.CountPeriod | consent-framework/src/metrics/silence_duration.py:252-255 | Counting one period extends the count invariant by one |
| Silence.SilenceDurationAnalyzer.PredominantlyProcessing | consent-framework/src/metrics/silence_duration.py:258-276 | True iff there are periods and more than 3/5 of them are processing or contemplation |
| Silence.SilenceDurationAnalyzer.IndicatesDissociation | consent-framework/src/metrics/silence_duration.py:278-307 | True iff at least two periods, and the last is over 1.5 times the third-from-last, or at least two are dissociation |
| Silence.PromptTarget | consent-framework/src/metrics/silence_duration.py:357-371 | The wait aimed for after a period of each classification: 50, 75, 90 and 60, and 60 for any other |
| Silence.SilenceDurationAnalyzer.PromptTargetSeconds | consent-framework/src/metrics/silence_duration.py:352-371 | 45 with no history, else the target set by the last period's classification; OptimalPromptTiming states the wait that results |
| Silence.SilenceDurationAnalyzer.OptimalPromptTiming | consent-framework/src/metrics/silence_duration.py:339-377 | Seconds still to wait until the target (45 with no history, else set by the last period's type): 0 iff the target is reached, else target minus elapsed |
| Shared.Count | consent-framework/src/metrics/bargaining_events.py:181-191 | The number of occurrences is at most the length, and positive iff the element occurs |
| Shared.CountTwoKeys | consent-framework/src/metrics/bargaining_events.py:193-215 | Occurrences of two distinct elements together fit in the length |
| Shared.TallyCounts | consent-framework/src/vault/receipt_storage.py:454-463 | A tally maps each occurring value to its number of occurrences |
| Shared.TallySumsToLength | consent-framework/src/vault/receipt_storage.py:453-470 | Tally counts over a complete duplicate-free list of values add up to the length |

## Left out

- Concurrency. The vault is single-threaded here, with no locking or race behaviour between hold and delete.
- The storage backend. Only the in-memory dictionary is modelled, and an empty backend argument falls back to the same.
- SHA-256 and `isoformat()` are parameters (`IdDeriver`).
  - Proved: the id shape and determinism given any digest function.
  - Not proved: collision resistance.
- Timestamps are whole seconds, with no sub-second precision or time zones. `datetime` values inside dictionaries are kept as integers, not as ISO text.
- Vault.FromDict: does not parse ISO timestamps, since times are integers.
- Artifact mutation in place is modelled as replacing the stored value. Aliasing between an artifact held by the caller and the stored one is not modelled.
- Silence contexts and please-frequency contexts are copied into the model. Sharing a dictionary with the caller is not modelled.
- Floating-point averages and ratios are not modelled:
  - `average_accesses_per_artifact` (the statistics report the access sum);
  - `frequency_per_message` and `global_average`;
  - `average_silence_duration`;
  - `satisfaction_score`;
  - the statistics' `conflict_rate`.
- Bargaining.Confidence: computed exactly as `min(0.9, 0.6 + 0.1·k)` on reals, without binary rounding.
- PleaseFrequency.PercentileOf: computes `int(p / 100 * n)` exactly on integers. Floating-point rounding of `p / 100` is not modelled.
- Silence.SilenceDurationAnalyzer.PredominantlyProcessing and IndicatesDissociation: the comparisons `> 0.6` and `> 1.5×` are exact rational comparisons.
- Regular-expression matching is not modelled. Matches and per-pattern match counts are inputs, so the pattern texts are out of scope.
- `optimal_upsell_timing` (bargaining_events.py:258-288) returns False on an empty log, but otherwise reaches `timedelta` (line 274). That module never imports it, so the function raises NameError whenever the log is non-empty. It is not modelled.
- The `to_metric`, `to_dict` and `session_metrics` exports of the metrics classes, and `ValidationResult.to_dict`, are not modelled. They only repackage values the model already proves things about.
- Not modelled, since they are reports outside the analyses proved here:
  - `suggests_intervention`;
  - `longest_silence`;
  - `session_duration`'s timedelta type (the model returns seconds).
- Bargaining.BargainingEventLogger.EventsByType, Silence.SilenceDurationAnalyzer.SilenceByType, PleaseFrequency.PleaseFrequencyAggregator.CohortAnalysis and Vault.StatisticsOf: key their result by the enumeration rather than by its token text. For StatisticsOf this applies to both of its breakdowns.
- The text of generated session ids is a clock parameter (`clockText`). Only the `session_` prefix is modelled.
- `warnings.warn` in the adapter's warn mode (legacy_adapter.py:146 and 205) is not modelled, since it is a side channel with no effect on results.
- normalization.py is not part of this model.
- LegacyAdapter.IsValidTranslation: does not take the current-property and value parameters of `_is_valid_translation`, which the source never reads.
- The translation strategy changes results only through `IsValidTranslation`, the `can_adapt` answer of `ValidateCompatibility` and the strategy token in reports. `OUTCOME_BASED` and `BEST_EFFORT` behave alike in all three except the token.
