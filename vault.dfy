/**
 * The Receipt Vault: an in-memory store of evidentiary artifacts keyed by id, with a retention
 * policy per artifact, legal holds that block deletion, and an append-only audit log.
 */
module Vault {
  import opened Shared

  const SecondsPerDay: int := 86400
  /** The retention window of a TEMPORARY artifact: 90 days. */
  const TemporaryRetention: int := 90 * SecondsPerDay
  /** The retention window of a STANDARD artifact: 7 * 365 days. */
  const StandardRetention: int := 7 * 365 * SecondsPerDay

  // ---------------------------------------------------------------------------------------------
  // Enumerations and their string tokens
  // ---------------------------------------------------------------------------------------------

  datatype ArtifactType =
    | UnsentMessage | WithheldApology | UnspokenConfession | DeferredDecision | UnusedCourage
    | UnclaimedOpportunity | DeletedDraft | AbandonedIntent | ExpiredConsent | ConsentLanguage

  /** Every artifact type once, in declaration order. */
  const AllArtifactTypes: seq<ArtifactType> :=
    [UnsentMessage, WithheldApology, UnspokenConfession, DeferredDecision, UnusedCourage,
     UnclaimedOpportunity, DeletedDraft, AbandonedIntent, ExpiredConsent, ConsentLanguage]

  /** `ArtifactType.value`. */
  function ArtifactTypeToken(t: ArtifactType): string
  {
    match t
    case UnsentMessage => "unsent_message"
    case WithheldApology => "withheld_apology"
    case UnspokenConfession => "unspoken_confession"
    case DeferredDecision => "deferred_decision"
    case UnusedCourage => "unused_courage"
    case UnclaimedOpportunity => "unclaimed_opportunity"
    case DeletedDraft => "deleted_draft"
    case AbandonedIntent => "abandoned_intent"
    case ExpiredConsent => "expired_consent"
    case ConsentLanguage => "consent_language"
  }

  /** `ArtifactType(s)`: the member whose token is `s`, if there is one. */
  function ParseArtifactType(s: string): (t: Option<ArtifactType>)
    ensures t.Some? ==> ArtifactTypeToken(t.value) == s
  {
    match s
    case "unsent_message" => Some(UnsentMessage)
    case "withheld_apology" => Some(WithheldApology)
    case "unspoken_confession" => Some(UnspokenConfession)
    case "deferred_decision" => Some(DeferredDecision)
    case "unused_courage" => Some(UnusedCourage)
    case "unclaimed_opportunity" => Some(UnclaimedOpportunity)
    case "deleted_draft" => Some(DeletedDraft)
    case "abandoned_intent" => Some(AbandonedIntent)
    case "expired_consent" => Some(ExpiredConsent)
    case "consent_language" => Some(ConsentLanguage)
    case _ => None
  }

  /** Every token parses back to its type, so distinct types have distinct tokens. */
  lemma ArtifactTypeTokenRoundTrip(t: ArtifactType)
    ensures ParseArtifactType(ArtifactTypeToken(t)) == Some(t)
  {
  }

  datatype RetentionClass = Temporary | Standard | Indefinite | LegalHold

  const AllRetentionClasses: seq<RetentionClass> := [Temporary, Standard, Indefinite, LegalHold]

  /** `RetentionClass.value`. */
  function RetentionClassToken(c: RetentionClass): string
  {
    match c
    case Temporary => "temporary"
    case Standard => "standard"
    case Indefinite => "indefinite"
    case LegalHold => "legal_hold"
  }

  /** `RetentionClass(s)`. */
  function ParseRetentionClass(s: string): (c: Option<RetentionClass>)
    ensures c.Some? ==> RetentionClassToken(c.value) == s
  {
    match s
    case "temporary" => Some(Temporary)
    case "standard" => Some(Standard)
    case "indefinite" => Some(Indefinite)
    case "legal_hold" => Some(LegalHold)
    case _ => None
  }

  lemma RetentionClassTokenRoundTrip(c: RetentionClass)
    ensures ParseRetentionClass(RetentionClassToken(c)) == Some(c)
  {
  }

  // ---------------------------------------------------------------------------------------------
  // Artifact
  // ---------------------------------------------------------------------------------------------

  /** An artifact; `artifactId` is `""` where the source has `None` or an empty id. */
  datatype Artifact = Artifact(
    artifactId: string,
    artifactType: ArtifactType,
    content: string,
    userId: Option<string>,
    timestamp: Time,
    context: map<string, Value>,
    retentionClass: RetentionClass,
    tags: seq<string>,
    createdAt: Time,
    accessedCount: int,
    lastAccessed: Option<Time>)

  /** How long after creation an artifact of class `c` may be kept, or `None` when it never expires. */
  function RetentionWindow(c: RetentionClass): Option<int>
  {
    match c
    case Temporary => Some(TemporaryRetention)
    case Standard => Some(StandardRetention)
    case Indefinite => None
    case LegalHold => None
  }

  /** `Artifact.should_expire`, with the clock reading passed in as `now`. */
  function ShouldExpire(a: Artifact, now: Time): (expired: bool)
    ensures a.retentionClass == Indefinite || a.retentionClass == LegalHold ==> !expired
    ensures a.retentionClass == Temporary ==> (expired <==> now > a.createdAt + 90 * 86400)
    ensures a.retentionClass == Standard ==> (expired <==> now > a.createdAt + 7 * 365 * 86400)
  {
    match RetentionWindow(a.retentionClass)
    case None => false
    case Some(window) => now > a.createdAt + window
  }

  /** Once an artifact is past its retention window it stays past it. */
  lemma ExpiryIsPermanent(a: Artifact, now: Time, later: Time)
    requires ShouldExpire(a, now) && now <= later
    ensures ShouldExpire(a, later)
  {
  }

  /**
   * The boundary is strict: a TEMPORARY artifact exactly 90 days old is kept, one second later it
   * has expired.
   */
  lemma TemporaryExpiryBoundary(a: Artifact)
    requires a.retentionClass == Temporary
    ensures !ShouldExpire(a, a.createdAt + TemporaryRetention - 1)
    ensures !ShouldExpire(a, a.createdAt + TemporaryRetention)
    ensures ShouldExpire(a, a.createdAt + TemporaryRetention + 1)
  {
  }

  predicate IsHexDigit(c: char)
  {
    '0' <= c <= '9' || 'a' <= c <= 'f'
  }

  predicate IsHexString(s: string)
  {
    forall i | 0 <= i < |s| :: IsHexDigit(s[i])
  }

  /** `n` zero digits. */
  function HexZeros(n: nat): (s: string)
    ensures |s| == n && IsHexString(s)
  {
    if n == 0 then "" else HexZeros(n - 1) + "0"
  }

  /** What `hashlib.sha256(...).hexdigest()` returns: 64 lower-case hex digits. */
  type HexDigest = s: string | |s| == 64 && IsHexString(s)
    witness HexZeros(64)

  /**
   * The two library routines id derivation relies on, which the model does not define: SHA-256 of
   * the UTF-8 encoding of a string, and `datetime.isoformat`.
   */
  datatype IdDeriver = IdDeriver(sha256Hex: string -> HexDigest, isoformat: Time -> string)

  /** How an f-string renders an `Optional[str]`. */
  function UserIdText(userId: Option<string>): string
  {
    match userId
    case None => "None"
    case Some(u) => u
  }

  /** The string that is hashed: content, user id and timestamp, concatenated without separators. */
  function IdPreimage(a: Artifact, d: IdDeriver): string
  {
    a.content + UserIdText(a.userId) + d.isoformat(a.timestamp)
  }

  const IdPrefix: string := "artifact_"

  /** `Artifact.generate_id`: "artifact_" followed by the first 16 hex digits of the digest. */
  function GenerateId(a: Artifact, d: IdDeriver): (id: string)
    ensures |id| == 25 && id[..9] == "artifact_"
    ensures forall i | 9 <= i < 25 :: IsHexDigit(id[i])
  {
    IdPrefix + d.sha256Hex(IdPreimage(a, d))[..16]
  }

  /** The id depends on content, user id and timestamp only. */
  lemma GenerateIdDeterministic(a: Artifact, b: Artifact, d: IdDeriver)
    requires a.content == b.content && a.userId == b.userId && a.timestamp == b.timestamp
    ensures GenerateId(a, d) == GenerateId(b, d)
  {
  }

  /**
   * Distinct artifacts can share an id whatever the hash: the preimage has no separators, and an
   * absent user id reads as the text "None".
   */
  lemma {:induction false} GenerateIdNotInjective(a: Artifact, d: IdDeriver)
    ensures GenerateId(a.(content := "ab", userId := Some("c")), d)
         == GenerateId(a.(content := "a", userId := Some("bc")), d)
    ensures GenerateId(a.(userId := None), d) == GenerateId(a.(userId := Some("None")), d)
  {
    assert "ab" + "c" == "a" + "bc";
  }

  // ---------------------------------------------------------------------------------------------
  // Serialisation (to_dict / from_dict)
  // ---------------------------------------------------------------------------------------------

  /** The dictionary `to_dict` builds: the same fields, with the two enums as their tokens. */
  datatype ArtifactRecord = ArtifactRecord(
    artifactId: string,
    artifactType: string,
    content: string,
    userId: Option<string>,
    timestamp: Time,
    context: map<string, Value>,
    retentionClass: string,
    tags: seq<string>,
    createdAt: Time,
    accessedCount: int,
    lastAccessed: Option<Time>)

  /** `Artifact.to_dict`. */
  function ToDict(a: Artifact): (r: ArtifactRecord)
    ensures ParseArtifactType(r.artifactType) == Some(a.artifactType)
    ensures ParseRetentionClass(r.retentionClass) == Some(a.retentionClass)
  {
    ArtifactRecord(a.artifactId, ArtifactTypeToken(a.artifactType), a.content, a.userId,
                   a.timestamp, a.context, RetentionClassToken(a.retentionClass), a.tags,
                   a.createdAt, a.accessedCount, a.lastAccessed)
  }

  /** `Artifact.from_dict`: raises ValueError on a token that names no enum member. */
  function FromDict(r: ArtifactRecord): (a: Result<Artifact>)
    ensures a.Ok? <==> ParseArtifactType(r.artifactType).Some? && ParseRetentionClass(r.retentionClass).Some?
    ensures a.Ok? ==> a.value.artifactId == r.artifactId && a.value.lastAccessed == r.lastAccessed
  {
    match ParseArtifactType(r.artifactType)
    case None => Err(ValueError("'" + r.artifactType + "' is not a valid ArtifactType"))
    case Some(t) =>
      match ParseRetentionClass(r.retentionClass)
      case None => Err(ValueError("'" + r.retentionClass + "' is not a valid RetentionClass"))
      case Some(c) =>
        Ok(Artifact(r.artifactId, t, r.content, r.userId, r.timestamp, r.context, c, r.tags,
                    r.createdAt, r.accessedCount, r.lastAccessed))
  }

  /** Deserialising a serialised artifact gives the artifact back. */
  lemma SerializationRoundTrip(a: Artifact)
    ensures FromDict(ToDict(a)) == Ok(a)
  {
    ArtifactTypeTokenRoundTrip(a.artifactType);
    RetentionClassTokenRoundTrip(a.retentionClass);
  }

  /** A record that deserialises is exactly the serialisation of what it deserialises to. */
  lemma DeserializationRoundTrip(r: ArtifactRecord)
    requires FromDict(r).Ok?
    ensures ToDict(FromDict(r).value) == r
  {
  }

  // ---------------------------------------------------------------------------------------------
  // Audit events
  // ---------------------------------------------------------------------------------------------

  datatype EventType = Stored | Retrieved | DeleteDenied | Deleted | LegalHoldApplied

  /** The `event_type` string `_log_access` records. */
  function EventTypeName(t: EventType): string
  {
    match t
    case Stored => "STORE"
    case Retrieved => "RETRIEVE"
    case DeleteDenied => "DELETE_DENIED"
    case Deleted => "DELETE"
    case LegalHoldApplied => "LEGAL_HOLD_APPLIED"
  }

  /** One entry of `access_log`; `metadata` is `{}` where the source passes none. */
  datatype AuditEvent = AuditEvent(
    eventType: EventType,
    artifactId: string,
    userId: Option<string>,
    accessor: Option<string>,
    timestamp: Time,
    metadata: map<string, Value>)

  const DenialMetadata: map<string, Value> := map["reason" := Text("legal_hold_active")]

  function DeletionMetadata(reason: string, approver: Option<string>): map<string, Value>
  {
    map["reason" := Text(reason), "approver" := OptText(approver)]
  }

  function HoldMetadata(caseId: string): map<string, Value>
  {
    map["case_id" := Text(caseId)]
  }

  const ExpiryReason: string := "retention_policy_expired"
  const ExpiryApprover: string := "system_automated"

  // ---------------------------------------------------------------------------------------------
  // What the vault operations do to one artifact
  // ---------------------------------------------------------------------------------------------

  /** The bookkeeping a successful retrieve performs on an artifact. */
  function Touch(a: Artifact, now: Time): (b: Artifact)
    ensures b.accessedCount == a.accessedCount + 1 && b.lastAccessed == Some(now)
    ensures b.(accessedCount := a.accessedCount, lastAccessed := a.lastAccessed) == a
  {
    a.(accessedCount := a.accessedCount + 1, lastAccessed := Some(now))
  }

  /** The `context['legal_hold']` entry `apply_legal_hold` writes. */
  function LegalHoldRecord(caseId: string, now: Time): Value
  {
    Record(map["case_id" := Text(caseId), "applied_at" := Moment(now)])
  }

  /** What `apply_legal_hold` does to one artifact it finds. */
  function PlaceHold(a: Artifact, caseId: string, now: Time): (h: Artifact)
    ensures h.retentionClass == LegalHold && h.artifactId == a.artifactId
    ensures h.context.Keys == a.context.Keys + {"legal_hold"}
    ensures h.context["legal_hold"] == LegalHoldRecord(caseId, now)
    ensures forall k :: k in a.context && k != "legal_hold" ==> h.context[k] == a.context[k]
    ensures h.(retentionClass := a.retentionClass, context := a.context) == a
  {
    a.(retentionClass := LegalHold, context := a.context["legal_hold" := LegalHoldRecord(caseId, now)])
  }

  /** Placing the same hold twice is the same as placing it once. */
  lemma PlaceHoldIdempotent(a: Artifact, caseId: string, now: Time)
    ensures PlaceHold(PlaceHold(a, caseId, now), caseId, now) == PlaceHold(a, caseId, now)
  {
  }

  /** `delete` removes an artifact only when it exists and is not on legal hold. */
  predicate Deletable(st: map<string, Artifact>, artifactId: string)
  {
    artifactId in st && st[artifactId].retentionClass != LegalHold
  }

  /**
   * The events one `delete` call logs: none for an unknown id, DELETE_DENIED for an artifact on
   * legal hold, and DELETE with the reason and approver otherwise.
   */
  function DeletionLog(st: map<string, Artifact>, artifactId: string, reason: string, approver: Option<string>,
                       now: Time): (events: seq<AuditEvent>)
    ensures artifactId !in st <==> events == []
    ensures |events| <= 1
    ensures Deletable(st, artifactId) <==> events != [] && events[0].eventType == Deleted
    ensures artifactId in st && st[artifactId].retentionClass == LegalHold ==>
      events[0].eventType == DeleteDenied && events[0].userId.None? && events[0].metadata == DenialMetadata
    ensures Deletable(st, artifactId) ==>
      events[0].userId == st[artifactId].userId && events[0].metadata == DeletionMetadata(reason, approver)
    ensures forall e :: e in events ==> e.artifactId == artifactId && e.timestamp == now && e.accessor.None?
  {
    if artifactId !in st then []
    else if st[artifactId].retentionClass == LegalHold then
      [AuditEvent(DeleteDenied, artifactId, None, None, now, DenialMetadata)]
    else
      [AuditEvent(Deleted, artifactId, st[artifactId].userId, None, now, DeletionMetadata(reason, approver))]
  }

  // ---------------------------------------------------------------------------------------------
  // Specification functions over the stored artifacts and the log
  // ---------------------------------------------------------------------------------------------

  /** The artifacts stored under `keys`, in that order. */
  function ValuesOf(keys: seq<string>, st: map<string, Artifact>): (vs: seq<Artifact>)
    requires forall k :: k in keys ==> k in st
    ensures |vs| == |keys|
  {
    if keys == [] then [] else ValuesOf(keys[..|keys| - 1], st) + [st[keys[|keys| - 1]]]
  }

  /** Position `i` of the values is the artifact stored under position `i` of the keys. */
  lemma {:induction false} ValuesOfAt(keys: seq<string>, st: map<string, Artifact>)
    requires forall k :: k in keys ==> k in st
    ensures forall i :: 0 <= i < |keys| ==> ValuesOf(keys, st)[i] == st[keys[i]]
  {
    if keys != [] {
      var keys' := keys[..|keys| - 1];
      assert forall k :: k in keys' ==> k in keys;
      ValuesOfAt(keys', st);
    }
  }

  /** The filters of `search`; `userId == ""` and `tags == []` mean "no filter", as in Python. */
  datatype SearchFilter = SearchFilter(
    userId: string,
    artifactType: Option<ArtifactType>,
    tags: seq<string>,
    retentionClass: Option<RetentionClass>)

  /** `any(tag in artifact.tags for tag in tags)`. */
  predicate SharesTag(a: Artifact, tags: seq<string>)
  {
    exists t :: t in tags && t in a.tags
  }

  /** An artifact passes every filter that is set. */
  predicate Matches(a: Artifact, f: SearchFilter)
  {
    && (f.userId == "" || a.userId == Some(f.userId))
    && (f.artifactType.None? || a.artifactType == f.artifactType.value)
    && (f.retentionClass.None? || a.retentionClass == f.retentionClass.value)
    && (f.tags == [] || SharesTag(a, f.tags))
  }

  /** The artifacts of `vs` that match `f`, in order. */
  function Select(vs: seq<Artifact>, f: SearchFilter): seq<Artifact>
  {
    if vs == [] then []
    else Select(vs[..|vs| - 1], f) + (if Matches(vs[|vs| - 1], f) then [vs[|vs| - 1]] else [])
  }

  /** Selection keeps exactly the matching artifacts. */
  lemma {:induction false} SelectMembership(vs: seq<Artifact>, f: SearchFilter)
    ensures forall a :: a in Select(vs, f) <==> a in vs && Matches(a, f)
  {
    if vs != [] {
      SelectMembership(vs[..|vs| - 1], f);
      assert vs == vs[..|vs| - 1] + [vs[|vs| - 1]];
    }
  }

  /** Selection preserves order: selecting from a concatenation concatenates the selections. */
  lemma {:induction false} SelectAppend(vs: seq<Artifact>, ws: seq<Artifact>, f: SearchFilter)
    ensures Select(vs + ws, f) == Select(vs, f) + Select(ws, f)
    decreases |ws|
  {
    if ws == [] {
      assert vs + ws == vs;
    } else {
      var ws' := ws[..|ws| - 1];
      assert (vs + ws)[..|vs + ws| - 1] == vs + ws';
      SelectAppend(vs, ws', f);
    }
  }

  /** `search` stops after the first match once `limit` is below one. */
  function ResultCap(limit: int): nat
  {
    if limit >= 1 then limit else 1
  }

  /** Once `cap` matches are found among the first `n` artifacts, the rest need not be looked at. */
  lemma SelectPrefixTake(vs: seq<Artifact>, n: nat, f: SearchFilter, cap: nat)
    requires n <= |vs| && |Select(vs[..n], f)| == cap
    ensures Take(Select(vs, f), cap) == Select(vs[..n], f)
  {
    SelectAppend(vs[..n], vs[n..], f);
    assert vs == vs[..n] + vs[n..];
  }

  /**
   * What `search` returns for the artifacts `vs`: the first matches in order, no more than `limit`
   * of them (one when `limit` is below one), and every match when fewer than that exist.
   */
  function SearchResults(vs: seq<Artifact>, f: SearchFilter, limit: int): (r: seq<Artifact>)
    ensures |r| <= ResultCap(limit)
    ensures forall a :: a in r ==> a in vs && Matches(a, f)
    ensures |r| < ResultCap(limit) ==> forall a :: a in vs && Matches(a, f) ==> a in r
    ensures r <= Select(vs, f)
  {
    SelectMembership(vs, f);
    var r := Take(Select(vs, f), ResultCap(limit));
    assert forall a :: a in r ==> a in Select(vs, f) by {
      forall a | a in r ensures a in Select(vs, f) {
        var j :| 0 <= j < |r| && r[j] == a;
        assert Select(vs, f)[j] == a;
      }
    }
    r
  }

  /** The filters of `get_access_log`; `""` means "no filter". */
  datatype LogFilter = LogFilter(artifactId: string, eventType: string, since: Option<Time>)

  predicate EventMatches(e: AuditEvent, f: LogFilter)
  {
    && (f.artifactId == "" || e.artifactId == f.artifactId)
    && (f.eventType == "" || EventTypeName(e.eventType) == f.eventType)
    && (f.since.None? || e.timestamp >= f.since.value)
  }

  /** The events of `log` that match `f`, in order. */
  function SelectEvents(log: seq<AuditEvent>, f: LogFilter): seq<AuditEvent>
  {
    if log == [] then []
    else SelectEvents(log[..|log| - 1], f) + (if EventMatches(log[|log| - 1], f) then [log[|log| - 1]] else [])
  }

  /** The access log query returns exactly the matching events; `since` is inclusive. */
  lemma {:induction false} SelectEventsMembership(log: seq<AuditEvent>, f: LogFilter)
    ensures forall e :: e in SelectEvents(log, f) <==> e in log && EventMatches(e, f)
  {
    if log != [] {
      SelectEventsMembership(log[..|log| - 1], f);
      assert log == log[..|log| - 1] + [log[|log| - 1]];
    }
  }

  /** The access log query preserves order. */
  lemma {:induction false} SelectEventsAppend(log: seq<AuditEvent>, more: seq<AuditEvent>, f: LogFilter)
    ensures SelectEvents(log + more, f) == SelectEvents(log, f) + SelectEvents(more, f)
    decreases |more|
  {
    if more == [] {
      assert log + more == log;
    } else {
      var more' := more[..|more| - 1];
      assert (log + more)[..|log + more| - 1] == log + more';
      SelectEventsAppend(log, more', f);
    }
  }

  /** The last element of a sequence without duplicates does not occur before it. */
  lemma LastIsNew<T>(s: seq<T>)
    requires Distinct(s) && s != []
    ensures s[|s| - 1] !in s[..|s| - 1]
    ensures Distinct(s[..|s| - 1])
  {
    var s' := s[..|s| - 1];
    forall i | 0 <= i < |s'| ensures s'[i] != s[|s| - 1] {
      assert s[i] == s'[i];
    }
  }

  /** The keys of `keys` whose artifacts have expired at `now`, in order. */
  function ExpiredKeys(keys: seq<string>, st: map<string, Artifact>, now: Time): (r: seq<string>)
    requires forall k :: k in keys ==> k in st
    ensures forall k :: k in r ==> k in keys
  {
    if keys == [] then []
    else
      var k := keys[|keys| - 1];
      assert forall j :: j in keys[..|keys| - 1] ==> j in keys;
      ExpiredKeys(keys[..|keys| - 1], st, now) + (if ShouldExpire(st[k], now) then [k] else [])
  }

  /** The sweep's candidate list holds exactly the expired keys. */
  lemma {:induction false} ExpiredKeysMembers(keys: seq<string>, st: map<string, Artifact>, now: Time)
    requires forall k :: k in keys ==> k in st
    ensures forall k :: k in ExpiredKeys(keys, st, now) <==> k in keys && ShouldExpire(st[k], now)
  {
    if keys != [] {
      var keys' := keys[..|keys| - 1];
      assert keys == keys' + [keys[|keys| - 1]];
      ExpiredKeysMembers(keys', st, now);
    }
  }

  /** The sweep's candidate list holds each expired key once. */
  lemma {:induction false} ExpiredKeysDistinct(keys: seq<string>, st: map<string, Artifact>, now: Time)
    requires forall k :: k in keys ==> k in st
    requires Distinct(keys)
    ensures Distinct(ExpiredKeys(keys, st, now))
  {
    if keys != [] {
      var keys' := keys[..|keys| - 1];
      LastIsNew(keys);
      assert forall k :: k in keys' ==> k in keys;
      ExpiredKeysDistinct(keys', st, now);
      ExpiredKeysMembers(keys', st, now);
    }
  }

  /** The artifacts that expire at `now`. */
  function ExpiredSet(st: map<string, Artifact>, now: Time): set<string>
  {
    set k | k in st && ShouldExpire(st[k], now)
  }

  /** `keys` without the members of `drop`, in order: what `del` leaves of a dict's key order. */
  function Without(keys: seq<string>, drop: set<string>): seq<string>
  {
    if keys == [] then []
    else
      var k := keys[|keys| - 1];
      Without(keys[..|keys| - 1], drop) + (if k in drop then [] else [k])
  }

  /** Exactly the keys not dropped remain. */
  lemma {:induction false} WithoutMembers(keys: seq<string>, drop: set<string>)
    ensures forall k :: k in Without(keys, drop) <==> k in keys && k !in drop
  {
    if keys != [] {
      var keys' := keys[..|keys| - 1];
      assert keys == keys' + [keys[|keys| - 1]];
      WithoutMembers(keys', drop);
    }
  }

  lemma {:induction false} WithoutDistinct(keys: seq<string>, drop: set<string>)
    requires Distinct(keys)
    ensures Distinct(Without(keys, drop))
  {
    if keys != [] {
      LastIsNew(keys);
      WithoutDistinct(keys[..|keys| - 1], drop);
      WithoutMembers(keys[..|keys| - 1], drop);
    }
  }

  /** Dropping nothing that occurs leaves the key order as it is. */
  lemma {:induction false} WithoutNothing(keys: seq<string>, drop: set<string>)
    requires forall k :: k in keys ==> k !in drop
    ensures Without(keys, drop) == keys
  {
    if keys != [] {
      assert keys == keys[..|keys| - 1] + [keys[|keys| - 1]];
      WithoutNothing(keys[..|keys| - 1], drop);
    }
  }

  /** Dropping keys in two steps is dropping them all at once. */
  lemma {:induction false} WithoutTwice(keys: seq<string>, a: set<string>, b: set<string>)
    ensures Without(Without(keys, a), b) == Without(keys, a + b)
  {
    if keys != [] {
      var keys' := keys[..|keys| - 1];
      var k := keys[|keys| - 1];
      WithoutTwice(keys', a, b);
      var w := Without(keys', a);
      if k in a {
        assert Without(keys, a) == w;
        assert Without(keys, a + b) == Without(keys', a + b);
      } else {
        assert Without(keys, a) == w + [k];
        assert (w + [k])[..|w + [k]| - 1] == w;
        assert Without(w + [k], b) == Without(w, b) + (if k in b then [] else [k]);
        assert Without(keys, a + b) == Without(keys', a + b) + (if k in b then [] else [k]);
      }
    }
  }

  /** The storage after deleting each of `ids` in turn. */
  function RemoveAll(st: map<string, Artifact>, ids: seq<string>): map<string, Artifact>
  {
    if ids == [] then st else RemoveAll(st, ids[..|ids| - 1]) - {ids[|ids| - 1]}
  }

  /** Deleting in turn removes exactly the listed keys and leaves the other artifacts alone. */
  lemma {:induction false} RemoveAllAt(st: map<string, Artifact>, ids: seq<string>)
    ensures forall k :: k in RemoveAll(st, ids) <==> k in st && k !in ids
    ensures forall k :: k in RemoveAll(st, ids) ==> RemoveAll(st, ids)[k] == st[k]
  {
    if ids != [] {
      var ids' := ids[..|ids| - 1];
      assert ids == ids' + [ids[|ids| - 1]];
      RemoveAllAt(st, ids');
    }
  }

  /** The key order after deleting each of `ids` in turn. */
  function WithoutAll(keys: seq<string>, ids: seq<string>): seq<string>
  {
    if ids == [] then keys else Without(WithoutAll(keys, ids[..|ids| - 1]), {ids[|ids| - 1]})
  }

  /** Deleting keys one at a time leaves the same order as dropping them all at once. */
  lemma {:induction false} WithoutAllAtOnce(keys: seq<string>, ids: seq<string>)
    ensures WithoutAll(keys, ids) == Without(keys, set k | k in ids)
  {
    if ids == [] {
      assert (set k | k in ids) == {};
      WithoutNothing(keys, {});
    } else {
      var ids' := ids[..|ids| - 1];
      var id := ids[|ids| - 1];
      WithoutAllAtOnce(keys, ids');
      WithoutTwice(keys, set k | k in ids', {id});
      assert ids == ids' + [id];
      assert (set k | k in ids) == (set k | k in ids') + {id};
    }
  }

  /** The DELETE events the expiry sweep logs for `ids`, in order. */
  function ExpiryEvents(ids: seq<string>, st: map<string, Artifact>, now: Time): (events: seq<AuditEvent>)
    requires forall k :: k in ids ==> k in st
    ensures |events| == |ids|
  {
    if ids == [] then []
    else
      var k := ids[|ids| - 1];
      assert forall j :: j in ids[..|ids| - 1] ==> j in ids;
      ExpiryEvents(ids[..|ids| - 1], st, now)
        + [AuditEvent(Deleted, k, st[k].userId, None, now, DeletionMetadata(ExpiryReason, Some(ExpiryApprover)))]
  }

  /** Expiry event `i` is the DELETE of id `i`, with its owner and the automatic reason and approver. */
  lemma {:induction false} ExpiryEventsAt(ids: seq<string>, st: map<string, Artifact>, now: Time)
    requires forall k :: k in ids ==> k in st
    ensures forall i :: 0 <= i < |ids| ==>
      ExpiryEvents(ids, st, now)[i]
        == AuditEvent(Deleted, ids[i], st[ids[i]].userId, None, now, DeletionMetadata(ExpiryReason, Some(ExpiryApprover)))
  {
    if ids != [] {
      assert forall j :: j in ids[..|ids| - 1] ==> j in ids;
      ExpiryEventsAt(ids[..|ids| - 1], st, now);
    }
  }

  /** The ids of `ids` that are keys of `st`, repeats included, in order. */
  function Hits(ids: seq<string>, st: map<string, Artifact>): (hits: seq<string>)
    ensures |hits| <= |ids|
  {
    if ids == [] then []
    else Hits(ids[..|ids| - 1], st) + (if ids[|ids| - 1] in st then [ids[|ids| - 1]] else [])
  }

  /** The hits are the listed ids that are stored. */
  lemma {:induction false} HitsMembers(ids: seq<string>, st: map<string, Artifact>)
    ensures forall k :: k in Hits(ids, st) <==> k in ids && k in st
  {
    if ids != [] {
      var ids' := ids[..|ids| - 1];
      assert ids == ids' + [ids[|ids| - 1]];
      HitsMembers(ids', st);
    }
  }

  /** The LEGAL_HOLD_APPLIED events for `ids`, in order. */
  function HoldEvents(ids: seq<string>, caseId: string, now: Time): (events: seq<AuditEvent>)
    ensures |events| == |ids|
  {
    if ids == [] then []
    else HoldEvents(ids[..|ids| - 1], caseId, now)
           + [AuditEvent(LegalHoldApplied, ids[|ids| - 1], None, None, now, HoldMetadata(caseId))]
  }

  /** Hold event `i` names id `i` and the case. */
  lemma {:induction false} HoldEventsAt(ids: seq<string>, caseId: string, now: Time)
    ensures forall i :: 0 <= i < |ids| ==>
      HoldEvents(ids, caseId, now)[i] == AuditEvent(LegalHoldApplied, ids[i], None, None, now, HoldMetadata(caseId))
  {
    if ids != [] {
      HoldEventsAt(ids[..|ids| - 1], caseId, now);
    }
  }

  /** The storage after the hold loop has visited each of `ids` in turn. */
  function HeldStorage(st: map<string, Artifact>, ids: seq<string>, caseId: string, now: Time): map<string, Artifact>
  {
    if ids == [] then st
    else
      var m := HeldStorage(st, ids[..|ids| - 1], caseId, now);
      var id := ids[|ids| - 1];
      if id in m then m[id := PlaceHold(m[id], caseId, now)] else m
  }

  /** The hold loop neither adds nor removes artifacts and keeps every artifact's id. */
  lemma {:induction false} HeldStorageKeys(st: map<string, Artifact>, ids: seq<string>, caseId: string, now: Time)
    ensures HeldStorage(st, ids, caseId, now).Keys == st.Keys
    ensures forall k :: k in st ==> HeldStorage(st, ids, caseId, now)[k].artifactId == st[k].artifactId
  {
    if ids != [] {
      HeldStorageKeys(st, ids[..|ids| - 1], caseId, now);
    }
  }

  /**
   * After the hold loop every listed artifact that exists is on hold, however often it was
   * listed, and every other artifact is as it was.
   */
  lemma {:induction false} HeldStorageAt(st: map<string, Artifact>, ids: seq<string>, caseId: string, now: Time)
    ensures HeldStorage(st, ids, caseId, now).Keys == st.Keys
    ensures forall k :: k in st ==>
      HeldStorage(st, ids, caseId, now)[k] == if k in ids then PlaceHold(st[k], caseId, now) else st[k]
  {
    if ids != [] {
      var ids' := ids[..|ids| - 1];
      var id := ids[|ids| - 1];
      HeldStorageAt(st, ids', caseId, now);
      assert ids == ids' + [id];
      if id in st {
        PlaceHoldIdempotent(st[id], caseId, now);
      }
    }
  }

  function TypesOf(vs: seq<Artifact>): (ts: seq<ArtifactType>)
    ensures |ts| == |vs|
  {
    if vs == [] then [] else TypesOf(vs[..|vs| - 1]) + [vs[|vs| - 1].artifactType]
  }

  function ClassesOf(vs: seq<Artifact>): (cs: seq<RetentionClass>)
    ensures |cs| == |vs|
  {
    if vs == [] then [] else ClassesOf(vs[..|vs| - 1]) + [vs[|vs| - 1].retentionClass]
  }

  /** Position `i` of each breakdown list is the type (the class) of artifact `i`. */
  lemma {:induction false} BreakdownAt(vs: seq<Artifact>)
    ensures forall i :: 0 <= i < |vs| ==> TypesOf(vs)[i] == vs[i].artifactType
    ensures forall i :: 0 <= i < |vs| ==> ClassesOf(vs)[i] == vs[i].retentionClass
  {
    if vs != [] {
      BreakdownAt(vs[..|vs| - 1]);
    }
  }

  /** `sum(a.accessed_count for a in artifacts)`. */
  function TotalAccesses(vs: seq<Artifact>): int
  {
    if vs == [] then 0 else TotalAccesses(vs[..|vs| - 1]) + vs[|vs| - 1].accessedCount
  }

  /** The result of `statistics`; the average access count (a float) is not modelled. */
  datatype VaultStatistics =
    | EmptyVault
    | Summary(
        totalArtifacts: nat,
        byType: map<ArtifactType, nat>,
        byRetentionClass: map<RetentionClass, nat>,
        totalAccesses: int,
        accessLogSize: nat)

  /** The position of each type in `AllArtifactTypes`. */
  function TypeIndex(t: ArtifactType): nat
  {
    match t
    case UnsentMessage => 0
    case WithheldApology => 1
    case UnspokenConfession => 2
    case DeferredDecision => 3
    case UnusedCourage => 4
    case UnclaimedOpportunity => 5
    case DeletedDraft => 6
    case AbandonedIntent => 7
    case ExpiredConsent => 8
    case ConsentLanguage => 9
  }

  /** `AllArtifactTypes` lists every type exactly once. */
  lemma AllArtifactTypesComplete()
    ensures Distinct(AllArtifactTypes)
    ensures forall t :: t in AllArtifactTypes
  {
    forall i | 0 <= i < |AllArtifactTypes| ensures TypeIndex(AllArtifactTypes[i]) == i {
    }
    forall t ensures t in AllArtifactTypes {
      assert AllArtifactTypes[TypeIndex(t)] == t;
    }
  }

  /** `AllRetentionClasses` lists every class exactly once. */
  lemma AllRetentionClassesComplete()
    ensures Distinct(AllRetentionClasses)
    ensures forall c :: c in AllRetentionClasses
  {
    forall c ensures c in AllRetentionClasses {
      match c
      case Temporary => assert AllRetentionClasses[0] == c;
      case Standard => assert AllRetentionClasses[1] == c;
      case Indefinite => assert AllRetentionClasses[2] == c;
      case LegalHold => assert AllRetentionClasses[3] == c;
    }
  }

  /** The two breakdowns of `statistics` each account for every artifact exactly once. */
  lemma BreakdownsAddUp(vs: seq<Artifact>)
    ensures SumOver(Tally(TypesOf(vs)), AllArtifactTypes) == |vs|
    ensures SumOver(Tally(ClassesOf(vs)), AllRetentionClasses) == |vs|
  {
    AllArtifactTypesComplete();
    AllRetentionClassesComplete();
    TallySumsToLength(TypesOf(vs), AllArtifactTypes);
    TallySumsToLength(ClassesOf(vs), AllRetentionClasses);
  }

  /** A type (a class) occurs in the breakdown exactly when some artifact has it. */
  lemma BreakdownKeys(vs: seq<Artifact>)
    ensures forall t :: t in TypesOf(vs) <==> exists a :: a in vs && a.artifactType == t
    ensures forall c :: c in ClassesOf(vs) <==> exists a :: a in vs && a.retentionClass == c
  {
    BreakdownAt(vs);
    var ts, cs := TypesOf(vs), ClassesOf(vs);
    forall t ensures t in ts <==> exists a :: a in vs && a.artifactType == t {
      if t in ts {
        var i :| 0 <= i < |ts| && ts[i] == t;
        assert vs[i] in vs;
      }
    }
    forall c ensures c in cs <==> exists a :: a in vs && a.retentionClass == c {
      if c in cs {
        var i :| 0 <= i < |cs| && cs[i] == c;
        assert vs[i] in vs;
      }
    }
  }

  /**
   * What `statistics` reports for the artifacts `vs` and a log of `logSize` events: nothing but a
   * zero total when there are no artifacts; otherwise their number, how many there are of each
   * type and of each retention class (only those that occur appear, and each breakdown adds up to
   * the total), the sum of their access counts and the size of the log.
   */
  function StatisticsOf(vs: seq<Artifact>, logSize: nat): (stats: VaultStatistics)
    ensures vs == [] <==> stats == EmptyVault
    ensures stats.Summary? ==>
      && stats.totalArtifacts == |vs|
      && (forall t :: t in stats.byType <==> exists a :: a in vs && a.artifactType == t)
      && (forall t :: t in stats.byType ==> stats.byType[t] == Count(TypesOf(vs), t))
      && (forall c :: c in stats.byRetentionClass <==> exists a :: a in vs && a.retentionClass == c)
      && (forall c :: c in stats.byRetentionClass ==> stats.byRetentionClass[c] == Count(ClassesOf(vs), c))
      && SumOver(stats.byType, AllArtifactTypes) == |vs|
      && SumOver(stats.byRetentionClass, AllRetentionClasses) == |vs|
      && stats.totalAccesses == TotalAccesses(vs)
      && stats.accessLogSize == logSize
  {
    if vs == [] then EmptyVault
    else
      BreakdownsAddUp(vs);
      BreakdownKeys(vs);
      TallyCounts(TypesOf(vs));
      TallyCounts(ClassesOf(vs));
      Summary(|vs|, Tally(TypesOf(vs)), Tally(ClassesOf(vs)), TotalAccesses(vs), logSize)
  }

  // ---------------------------------------------------------------------------------------------
  // Each specification function above, extended by one element
  // ---------------------------------------------------------------------------------------------

  lemma SelectEventsSnoc(log: seq<AuditEvent>, e: AuditEvent, f: LogFilter)
    ensures SelectEvents(log + [e], f) == SelectEvents(log, f) + (if EventMatches(e, f) then [e] else [])
  {
    assert (log + [e])[..|log + [e]| - 1] == log;
  }

  lemma ExpiryEventsSnoc(ids: seq<string>, k: string, st: map<string, Artifact>, now: Time)
    requires forall j :: j in ids ==> j in st
    requires k in st
    ensures ExpiryEvents(ids + [k], st, now)
         == ExpiryEvents(ids, st, now)
          + [AuditEvent(Deleted, k, st[k].userId, None, now, DeletionMetadata(ExpiryReason, Some(ExpiryApprover)))]
  {
    assert (ids + [k])[..|ids + [k]| - 1] == ids;
  }

  lemma HitsSnoc(ids: seq<string>, id: string, st: map<string, Artifact>)
    ensures Hits(ids + [id], st) == Hits(ids, st) + (if id in st then [id] else [])
  {
    assert (ids + [id])[..|ids + [id]| - 1] == ids;
  }

  lemma HoldEventsSnoc(ids: seq<string>, id: string, caseId: string, now: Time)
    ensures HoldEvents(ids + [id], caseId, now)
         == HoldEvents(ids, caseId, now) + [AuditEvent(LegalHoldApplied, id, None, None, now, HoldMetadata(caseId))]
  {
    assert (ids + [id])[..|ids + [id]| - 1] == ids;
  }

  /**
   * Deleting the expired keys one by one removes exactly the expired artifacts, and there are as
   * many deletions as expired artifacts.
   */
  lemma SweepOutcome(keys: seq<string>, st: map<string, Artifact>, now: Time)
    requires Distinct(keys) && forall k :: k in keys <==> k in st
    ensures RemoveAll(st, ExpiredKeys(keys, st, now)) == st - ExpiredSet(st, now)
    ensures WithoutAll(keys, ExpiredKeys(keys, st, now)) == Without(keys, ExpiredSet(st, now))
    ensures |ExpiredKeys(keys, st, now)| == |ExpiredSet(st, now)|
  {
    var ids := ExpiredKeys(keys, st, now);
    ExpiredKeysMembers(keys, st, now);
    ExpiredKeysDistinct(keys, st, now);
    assert (set k | k in ids) == ExpiredSet(st, now);
    WithoutAllAtOnce(keys, ids);
    RemoveAllAt(st, ids);
    DistinctCardinality(ids);
  }

  lemma DeletionSnoc(st: map<string, Artifact>, keys: seq<string>, ids: seq<string>, id: string)
    ensures RemoveAll(st, ids + [id]) == RemoveAll(st, ids) - {id}
    ensures WithoutAll(keys, ids + [id]) == Without(WithoutAll(keys, ids), {id})
  {
    assert (ids + [id])[..|ids + [id]| - 1] == ids;
  }

  lemma HeldStorageSnoc(st: map<string, Artifact>, ids: seq<string>, id: string, caseId: string, now: Time)
    ensures var m := HeldStorage(st, ids, caseId, now);
      HeldStorage(st, ids + [id], caseId, now) == if id in m then m[id := PlaceHold(m[id], caseId, now)] else m
  {
    assert (ids + [id])[..|ids + [id]| - 1] == ids;
  }

  lemma BreakdownSnoc(vs: seq<Artifact>, a: Artifact)
    ensures TypesOf(vs + [a]) == TypesOf(vs) + [a.artifactType]
    ensures ClassesOf(vs + [a]) == ClassesOf(vs) + [a.retentionClass]
    ensures TotalAccesses(vs + [a]) == TotalAccesses(vs) + a.accessedCount
  {
    assert (vs + [a])[..|vs + [a]| - 1] == vs;
  }

  /** The first counting loop of `statistics`: artifacts by type. */
  method CountByType(artifacts: seq<Artifact>) returns (byType: map<ArtifactType, nat>)
    ensures byType == Tally(TypesOf(artifacts))
  {
    byType := map[];
    var i := 0;
    while i < |artifacts|
      invariant 0 <= i <= |artifacts|
      invariant byType == Tally(TypesOf(artifacts[..i]))
    {
      assert artifacts[..i + 1] == artifacts[..i] + [artifacts[i]];
      BreakdownSnoc(artifacts[..i], artifacts[i]);
      TallySnoc(TypesOf(artifacts[..i]), artifacts[i].artifactType);
      var t := artifacts[i].artifactType;
      byType := byType[t := (if t in byType then byType[t] else 0) + 1];
      i := i + 1;
    }
    assert artifacts[..i] == artifacts;
  }

  /** The second counting loop of `statistics`: artifacts by retention class. */
  method CountByRetentionClass(artifacts: seq<Artifact>) returns (byRetention: map<RetentionClass, nat>)
    ensures byRetention == Tally(ClassesOf(artifacts))
  {
    byRetention := map[];
    var i := 0;
    while i < |artifacts|
      invariant 0 <= i <= |artifacts|
      invariant byRetention == Tally(ClassesOf(artifacts[..i]))
    {
      assert artifacts[..i + 1] == artifacts[..i] + [artifacts[i]];
      BreakdownSnoc(artifacts[..i], artifacts[i]);
      TallySnoc(ClassesOf(artifacts[..i]), artifacts[i].retentionClass);
      var c := artifacts[i].retentionClass;
      byRetention := byRetention[c := (if c in byRetention then byRetention[c] else 0) + 1];
      i := i + 1;
    }
    assert artifacts[..i] == artifacts;
  }

  // ---------------------------------------------------------------------------------------------
  // The vault
  // ---------------------------------------------------------------------------------------------

  class ReceiptVault {
    /** `self.storage`: the artifacts by id. */
    var storage: map<string, Artifact>
    /** The insertion order of the keys of `storage`, which a Python dict keeps and scans in. */
    var order: seq<string>
    /** `self.access_log`. */
    var accessLog: seq<AuditEvent>
    /** The hash and timestamp formatting behind `generate_id`. */
    const deriver: IdDeriver

    /** Keys are listed once each in insertion order, and each artifact is filed under its own id. */
    ghost predicate Valid()
      reads this
    {
      && Distinct(order)
      && (forall k :: k in order <==> k in storage)
      && (forall k :: k in storage ==> storage[k].artifactId == k && k != "")
    }

    /** The stored artifacts in insertion order: `self.storage.values()`. */
    function Values(): (vs: seq<Artifact>)
      reads this
      requires Valid()
      ensures |vs| == |order| == |storage|
    {
      DistinctCardinality(order);
      assert (set k | k in order) == storage.Keys;
      ValuesOf(order, storage)
    }

    constructor (deriver: IdDeriver)
      ensures Valid() && this.deriver == deriver
      ensures storage == map[] && order == [] && accessLog == []
    {
      this.deriver := deriver;
      storage := map[];
      order := [];
      accessLog := [];
    }

    /** `_log_access`: appends one event and changes nothing else. */
    method LogAccess(eventType: EventType, artifactId: string, userId: Option<string>,
                     accessor: Option<string>, metadata: map<string, Value>, now: Time)
      modifies this
      ensures storage == old(storage) && order == old(order)
      ensures accessLog == old(accessLog) + [AuditEvent(eventType, artifactId, userId, accessor, now, metadata)]
    {
      accessLog := accessLog + [AuditEvent(eventType, artifactId, userId, accessor, now, metadata)];
    }

    /** `store`: files the artifact under its id (derived when empty), overwriting, and logs STORE. */
    method Store(artifact: Artifact, now: Time) returns (artifactId: string)
      requires Valid()
      modifies this
      ensures Valid()
      ensures artifactId == if artifact.artifactId == "" then GenerateId(artifact, deriver) else artifact.artifactId
      ensures storage == old(storage)[artifactId := artifact.(artifactId := artifactId)]
      ensures order == if artifactId in old(storage) then old(order) else old(order) + [artifactId]
      ensures accessLog == old(accessLog) + [AuditEvent(Stored, artifactId, artifact.userId, None, now, map[])]
    {
      var stored := artifact;
      if artifact.artifactId == "" {
        stored := artifact.(artifactId := GenerateId(artifact, deriver));
      }
      artifactId := stored.artifactId;
      if artifactId !in storage {
        order := order + [artifactId];
      }
      storage := storage[artifactId := stored];
      LogAccess(Stored, artifactId, stored.userId, None, map[], now);
    }

    /**
     * `retrieve`: on a hit, bumps the access count, stamps the access time and logs RETRIEVE with
     * the accessor; on a miss, returns None and changes nothing.
     */
    method Retrieve(artifactId: string, accessor: Option<string>, now: Time) returns (found: Option<Artifact>)
      requires Valid()
      modifies this
      ensures Valid() && order == old(order)
      ensures artifactId !in old(storage) ==>
        found == None && storage == old(storage) && accessLog == old(accessLog)
      ensures artifactId in old(storage) ==>
        var a := old(storage)[artifactId];
        && found == Some(Touch(a, now))
        && storage == old(storage)[artifactId := Touch(a, now)]
        && accessLog == old(accessLog) + [AuditEvent(Retrieved, artifactId, a.userId, accessor, now, map[])]
    {
      if artifactId in storage {
        var artifact := Touch(storage[artifactId], now);
        storage := storage[artifactId := artifact];
        LogAccess(Retrieved, artifactId, artifact.userId, accessor, map[], now);
        found := Some(artifact);
      } else {
        found := None;
      }
    }

    /** `search`, over the stored artifacts in insertion order. */
    method Search(userId: string, artifactType: Option<ArtifactType>, tags: seq<string>,
                  retentionClass: Option<RetentionClass>, limit: int := 100) returns (results: seq<Artifact>)
      requires Valid()
      ensures results == SearchResults(Values(), SearchFilter(userId, artifactType, tags, retentionClass), limit)
    {
      var f := SearchFilter(userId, artifactType, tags, retentionClass);
      var artifacts := Values();
      results := [];
      var i := 0;
      while i < |artifacts|
        invariant 0 <= i <= |artifacts|
        invariant results == Select(artifacts[..i], f)
        invariant |results| < ResultCap(limit)
      {
        assert artifacts[..i + 1][..i] == artifacts[..i];
        if Matches(artifacts[i], f) {
          results := results + [artifacts[i]];
          if |results| >= limit {
            SelectPrefixTake(artifacts, i + 1, f, ResultCap(limit));
            return;
          }
        }
        i := i + 1;
      }
      assert artifacts[..i] == artifacts;
    }

    /**
     * `delete`: an unknown id gives False and no event; an artifact on legal hold gives False, one
     * DELETE_DENIED event and no change; otherwise one DELETE event, only that key removed, True.
     */
    method Delete(artifactId: string, reason: string, approver: Option<string>, now: Time) returns (deleted: bool)
      requires Valid()
      modifies this
      ensures Valid()
      ensures deleted <==> Deletable(old(storage), artifactId)
      ensures storage == if deleted then old(storage) - {artifactId} else old(storage)
      ensures order == if deleted then Without(old(order), {artifactId}) else old(order)
      ensures accessLog == old(accessLog) + DeletionLog(old(storage), artifactId, reason, approver, now)
    {
      if artifactId !in storage {
        return false;
      }
      var artifact := storage[artifactId];
      if artifact.retentionClass == LegalHold {
        LogAccess(DeleteDenied, artifactId, None, None, DenialMetadata, now);
        return false;
      }
      LogAccess(Deleted, artifactId, artifact.userId, None, DeletionMetadata(reason, approver), now);
      WithoutDistinct(order, {artifactId});
      WithoutMembers(order, {artifactId});
      storage := storage - {artifactId};
      order := Without(order, {artifactId});
      deleted := true;
    }

    /**
     * `expire_old_artifacts` at a fixed `now`: deletes exactly the artifacts past their retention
     * window, in insertion order, one DELETE event each, and returns how many there were.
     */
    method ExpireOldArtifacts(now: Time) returns (count: int)
      requires Valid()
      modifies this
      ensures Valid()
      ensures count == |ExpiredKeys(old(order), old(storage), now)| == |ExpiredSet(old(storage), now)|
      ensures storage == old(storage) - ExpiredSet(old(storage), now)
      ensures order == Without(old(order), ExpiredSet(old(storage), now))
      ensures accessLog == old(accessLog) + ExpiryEvents(ExpiredKeys(old(order), old(storage), now), old(storage), now)
      ensures forall k :: k in storage ==> !ShouldExpire(storage[k], now)
    {
      var expiredIds := ExpiredKeys(order, storage, now);
      ExpiredKeysDistinct(order, storage, now);
      ExpiredKeysMembers(order, storage, now);
      SweepOutcome(order, storage, now);
      DeleteExpired(expiredIds, now);
      count := |expiredIds|;
    }

    /**
     * The deletion loop of `expire_old_artifacts`: deletes each listed artifact in turn with the
     * retention-policy reason and the automated approver.
     */
    method DeleteExpired(expiredIds: seq<string>, now: Time)
      requires Valid() && Distinct(expiredIds)
      requires forall k :: k in expiredIds ==> k in storage && storage[k].retentionClass != LegalHold
      modifies this
      ensures Valid()
      ensures storage == RemoveAll(old(storage), expiredIds)
      ensures order == WithoutAll(old(order), expiredIds)
      ensures accessLog == old(accessLog) + ExpiryEvents(expiredIds, old(storage), now)
    {
      ghost var st0, order0, log0 := storage, order, accessLog;
      var j := 0;
      while j < |expiredIds|
        invariant 0 <= j <= |expiredIds|
        invariant Valid()
        invariant storage == RemoveAll(st0, expiredIds[..j])
        invariant order == WithoutAll(order0, expiredIds[..j])
        invariant accessLog == log0 + ExpiryEvents(expiredIds[..j], st0, now)
      {
        DeleteExpiredStep(expiredIds, j, now, st0, order0, log0);
        j := j + 1;
      }
      assert expiredIds[..j] == expiredIds;
    }

    /** One turn of the deletion loop of `expire_old_artifacts`: deletes `expiredIds[j]`. */
    method DeleteExpiredStep(expiredIds: seq<string>, j: int, now: Time,
                             ghost st0: map<string, Artifact>, ghost order0: seq<string>,
                             ghost log0: seq<AuditEvent>)
      requires Valid() && Distinct(expiredIds) && 0 <= j < |expiredIds|
      requires forall k :: k in expiredIds ==> k in st0 && st0[k].retentionClass != LegalHold
      requires storage == RemoveAll(st0, expiredIds[..j])
      requires order == WithoutAll(order0, expiredIds[..j])
      requires accessLog == log0 + ExpiryEvents(expiredIds[..j], st0, now)
      modifies this
      ensures Valid()
      ensures storage == RemoveAll(st0, expiredIds[..j + 1])
      ensures order == WithoutAll(order0, expiredIds[..j + 1])
      ensures accessLog == log0 + ExpiryEvents(expiredIds[..j + 1], st0, now)
    {
      var id := expiredIds[j];
      PrefixSnoc(expiredIds, j);
      DeletionSnoc(st0, order0, expiredIds[..j], id);
      ExpiryEventsSnoc(expiredIds[..j], id, st0, now);
      assert id in storage && storage[id] == st0[id] by {
        RemoveAllAt(st0, expiredIds[..j]);
        assert id !in expiredIds[..j] by {
          forall m | 0 <= m < j ensures expiredIds[m] != id {
          }
        }
      }
      assert Deletable(storage, id);
      var deleted := Delete(id, ExpiryReason, Some(ExpiryApprover), now);
    }

    /** One turn of the loop of `apply_legal_hold`: holds `artifactIds[i]` when it is stored. */
    method ApplyLegalHoldStep(artifactIds: seq<string>, i: int, caseId: string, now: Time,
                              ghost st0: map<string, Artifact>, ghost log0: seq<AuditEvent>)
      returns (hit: bool)
      requires 0 <= i < |artifactIds|
      requires storage == HeldStorage(st0, artifactIds[..i], caseId, now)
      requires accessLog == log0 + HoldEvents(Hits(artifactIds[..i], st0), caseId, now)
      modifies this
      ensures order == old(order)
      ensures hit <==> artifactIds[i] in st0
      ensures Hits(artifactIds[..i + 1], st0) == Hits(artifactIds[..i], st0) + (if hit then [artifactIds[i]] else [])
      ensures storage == HeldStorage(st0, artifactIds[..i + 1], caseId, now)
      ensures accessLog == log0 + HoldEvents(Hits(artifactIds[..i + 1], st0), caseId, now)
    {
      var id := artifactIds[i];
      PrefixSnoc(artifactIds, i);
      HeldStorageSnoc(st0, artifactIds[..i], id, caseId, now);
      HeldStorageKeys(st0, artifactIds[..i], caseId, now);
      HitsSnoc(artifactIds[..i], id, st0);
      HoldEventsSnoc(Hits(artifactIds[..i], st0), id, caseId, now);
      hit := id in storage;
      if hit {
        storage := storage[id := PlaceHold(storage[id], caseId, now)];
        LogAccess(LegalHoldApplied, id, None, None, HoldMetadata(caseId), now);
        ghost var events := HoldEvents(Hits(artifactIds[..i], st0), caseId, now);
        assert accessLog == log0 + events + [AuditEvent(LegalHoldApplied, id, None, None, now, HoldMetadata(caseId))];
        assert log0 + events + [AuditEvent(LegalHoldApplied, id, None, None, now, HoldMetadata(caseId))]
            == log0 + (events + [AuditEvent(LegalHoldApplied, id, None, None, now, HoldMetadata(caseId))]);
        assert accessLog == log0 + HoldEvents(Hits(artifactIds[..i + 1], st0), caseId, now);
      } else {
        assert Hits(artifactIds[..i + 1], st0) == Hits(artifactIds[..i], st0);
      }
    }

    /**
     * `apply_legal_hold`: every listed id that exists is put on legal hold with the case recorded in
     * its context and one LEGAL_HOLD_APPLIED event; absent ids are skipped; the result counts the
     * hits, a repeated id each time.
     */
    method ApplyLegalHold(artifactIds: seq<string>, caseId: string, now: Time) returns (protected: int)
      requires Valid()
      modifies this
      ensures Valid() && order == old(order)
      ensures storage == HeldStorage(old(storage), artifactIds, caseId, now)
      ensures protected == |Hits(artifactIds, old(storage))|
      ensures accessLog == old(accessLog) + HoldEvents(Hits(artifactIds, old(storage)), caseId, now)
    {
      ghost var st0, log0 := storage, accessLog;
      protected := 0;
      var i := 0;
      while i < |artifactIds|
        invariant 0 <= i <= |artifactIds|
        invariant order == old(order)
        invariant storage == HeldStorage(st0, artifactIds[..i], caseId, now)
        invariant protected == |Hits(artifactIds[..i], st0)|
        invariant accessLog == log0 + HoldEvents(Hits(artifactIds[..i], st0), caseId, now)
      {
        var hit := ApplyLegalHoldStep(artifactIds, i, caseId, now, st0, log0);
        if hit {
          protected := protected + 1;
        }
        i := i + 1;
      }
      assert artifactIds[..i] == artifactIds;
      HeldStorageKeys(st0, artifactIds, caseId, now);
    }

    /** `get_access_log`: the events that pass every filter that is set, in log order. */
    method GetAccessLog(artifactId: string, eventType: string, since: Option<Time>) returns (results: seq<AuditEvent>)
      ensures results == SelectEvents(accessLog, LogFilter(artifactId, eventType, since))
      ensures forall e :: e in results <==> e in accessLog && EventMatches(e, LogFilter(artifactId, eventType, since))
    {
      var f := LogFilter(artifactId, eventType, since);
      results := [];
      var i := 0;
      while i < |accessLog|
        invariant 0 <= i <= |accessLog|
        invariant results == SelectEvents(accessLog[..i], f)
      {
        assert accessLog[..i + 1] == accessLog[..i] + [accessLog[i]];
        SelectEventsSnoc(accessLog[..i], accessLog[i], f);
        if EventMatches(accessLog[i], f) {
          results := results + [accessLog[i]];
        }
        i := i + 1;
      }
      assert accessLog[..i] == accessLog;
      SelectEventsMembership(accessLog, f);
    }

    /** `statistics`, over the stored artifacts in insertion order. */
    method Statistics() returns (stats: VaultStatistics)
      requires Valid()
      ensures stats == StatisticsOf(Values(), |accessLog|)
    {
      var artifacts := Values();
      if |artifacts| == 0 {
        return EmptyVault;
      }
      var byType := CountByType(artifacts);
      var byRetention := CountByRetentionClass(artifacts);
      stats := Summary(|artifacts|, byType, byRetention, TotalAccesses(artifacts), |accessLog|);
    }

    /** The values listed in insertion order are exactly the stored artifacts. */
    lemma StoredValues()
      requires Valid()
      ensures forall a :: a in Values() <==> a in storage.Values
    {
      var vs := Values();
      ValuesOfAt(order, storage);
      forall a | a in storage.Values ensures a in vs {
        var k :| k in storage && storage[k] == a;
        var i :| 0 <= i < |order| && order[i] == k;
        assert vs[i] == a;
      }
    }
  }
}
