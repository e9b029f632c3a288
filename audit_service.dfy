/** The audit service: one audit entry per consumed event, kept in an append-only store. */
module Audit {
  import opened Base
  import opened SharedEvents
  import opened Tracing
  import CaseStatusTransitions
  import CaseStatusEventMapper

  datatype Severity = Low | Medium | High | Info

  /** The only action value the service sets. */
  datatype AuditAction = CaseStatusChangedAction

  datatype AuditEventType = CaseStatusChangedType | UserRegisteredType | UserPromotedType

  datatype AuditTargetType = CaseTarget | UserTarget

  /** The auth-service events as the audit service receives them. */
  datatype UserRegisteredEvent = UserRegisteredEvent(userId: Uuid, email: string, registeredAt: Instant)
  datatype UserPromotedEvent = UserPromotedEvent(actorId: Uuid, targetUserId: Uuid, occurredAt: Instant)

  datatype AuditEntry = AuditEntry(
    caseId: Uuid,
    oldStatus: EventStatus,
    newStatus: EventStatus,
    changedAt: Instant,
    changedBy: string,
    traceId: Option<string>,
    action: Option<AuditAction>,
    severity: Severity,
    eventType: AuditEventType,
    sourceService: string,
    actorUserId: string,
    targetType: AuditTargetType,
    targetId: string)

  const SourceCaseService: string := "case-service"
  const SourceAuthService: string := "auth-service"
  const NotApplicable: string := "N/A"

  /** classifySeverity: a rejection is HIGH, an approval MEDIUM, anything else LOW. */
  function ClassifySeverity(e: CaseStatusChanged): (s: Severity)
    ensures s == High <==> e.newStatus == EvRejected
    ensures s == Medium <==> e.newStatus == EvApproved
    ensures s == Low <==> e.newStatus != EvRejected && e.newStatus != EvApproved
    ensures s != Info
  {
    match e.newStatus
    case EvRejected => High
    case EvApproved => Medium
    case _ => Low
  }

  /** For an event the case service derived from its own status, a rejection is audited HIGH, an
      approval MEDIUM and every other decision LOW. */
  lemma CaseDecisionSeverity(e: CaseStatusChanged, s: CaseStatusTransitions.CaseStatus)
    requires e.newStatus == CaseStatusEventMapper.ToEvent(s)
    ensures ClassifySeverity(e) == High <==> s == CaseStatusTransitions.Rejected
    ensures ClassifySeverity(e) == Medium <==> s == CaseStatusTransitions.Approved
    ensures ClassifySeverity(e) == Low <==> s != CaseStatusTransitions.Rejected && s != CaseStatusTransitions.Approved
  {
    CaseStatusEventMapper.ToEventNeverUnknown(s);
  }

  /** The entry save builds for a status change under the given trace id. */
  function CaseEntry(e: CaseStatusChanged, traceId: Option<string>): AuditEntry
  {
    AuditEntry(e.caseId, e.oldStatus, e.newStatus, e.changedAt, e.changedBy, traceId,
      Some(CaseStatusChangedAction), ClassifySeverity(e), CaseStatusChangedType, SourceCaseService,
      e.changedBy, CaseTarget, UuidToString(e.caseId))
  }

  /** The entry saveUserRegistered builds; the case id is a random one. */
  function UserRegisteredEntry(e: UserRegisteredEvent, randomCaseId: Uuid): AuditEntry
  {
    AuditEntry(randomCaseId, EvUnknown, EvUnknown, e.registeredAt, e.email, Some(NotApplicable),
      None, Info, UserRegisteredType, SourceAuthService,
      UuidToString(e.userId), UserTarget, UuidToString(e.userId))
  }

  /** The entry saveUserPromoted builds; the case id is a random one. */
  function UserPromotedEntry(e: UserPromotedEvent, randomCaseId: Uuid): AuditEntry
  {
    AuditEntry(randomCaseId, EvUnknown, EvUnknown, e.occurredAt, UuidToString(e.actorId), Some(NotApplicable),
      None, Medium, UserPromotedType, SourceAuthService,
      UuidToString(e.actorId), UserTarget, UuidToString(e.targetUserId))
  }

  /** The status change an entry records. */
  function RecordedChange(entry: AuditEntry): CaseStatusChanged
  {
    CaseStatusChanged(entry.caseId, entry.oldStatus, entry.newStatus, entry.changedAt, entry.changedBy)
  }

  /** A case entry targets its own case, names the changer as actor and carries the severity of its
      own new status. */
  predicate WellFormedCaseEntry(entry: AuditEntry)
  {
    && entry.eventType == CaseStatusChangedType
    && entry.action == Some(CaseStatusChangedAction)
    && entry.sourceService == SourceCaseService
    && entry.targetType == CaseTarget
    && entry.targetId == UuidToString(entry.caseId)
    && entry.actorUserId == entry.changedBy
    && entry.severity == ClassifySeverity(RecordedChange(entry))
  }

  /** A user entry targets a user, carries no status change and has the placeholder trace "N/A". */
  predicate WellFormedUserEntry(entry: AuditEntry)
  {
    && entry.eventType in {UserRegisteredType, UserPromotedType}
    && entry.action.None?
    && entry.sourceService == SourceAuthService
    && entry.targetType == UserTarget
    && entry.oldStatus == EvUnknown && entry.newStatus == EvUnknown
    && entry.traceId == Some(NotApplicable)
    && (entry.eventType == UserRegisteredType <==> entry.severity == Info)
  }

  /** save records the event it was given, well-formed, under the trace id from the context. */
  lemma CaseEntryRecordsEvent(e: CaseStatusChanged, traceId: Option<string>)
    ensures RecordedChange(CaseEntry(e, traceId)) == e
    ensures WellFormedCaseEntry(CaseEntry(e, traceId))
    ensures CaseEntry(e, traceId).traceId == traceId
  {
  }

  /** Different events never give the same case entry. */
  lemma CaseEntryInjective(e1: CaseStatusChanged, e2: CaseStatusChanged, traceId: Option<string>)
    requires CaseEntry(e1, traceId) == CaseEntry(e2, traceId)
    ensures e1 == e2
  {
    CaseEntryRecordsEvent(e1, traceId);
    CaseEntryRecordsEvent(e2, traceId);
  }

  /** The user entries are well-formed; actor and target are the registered user, or the promoting
      admin and the promoted user. */
  lemma UserEntriesWellFormed(r: UserRegisteredEvent, p: UserPromotedEvent, id1: Uuid, id2: Uuid)
    ensures WellFormedUserEntry(UserRegisteredEntry(r, id1))
    ensures UserRegisteredEntry(r, id1).actorUserId == UserRegisteredEntry(r, id1).targetId == UuidToString(r.userId)
    ensures WellFormedUserEntry(UserPromotedEntry(p, id2))
    ensures UserPromotedEntry(p, id2).actorUserId == UuidToString(p.actorId)
    ensures UserPromotedEntry(p, id2).targetId == UuidToString(p.targetUserId)
    ensures !WellFormedCaseEntry(UserRegisteredEntry(r, id1)) && !WellFormedCaseEntry(UserPromotedEntry(p, id2))
  {
  }

  /** Whether an entry passes the severity filter; no filter passes everything. */
  predicate Passes(entry: AuditEntry, severity: Option<Severity>)
  {
    severity.None? || entry.severity == severity.value
  }

  /** getAllFiltered: the stored entries in order, keeping those of the requested severity, each as
      often as it is stored. */
  function Filtered(entries: seq<AuditEntry>, severity: Option<Severity>): (r: seq<AuditEntry>)
    ensures |r| <= |entries|
    ensures forall x :: x in r <==> x in entries && Passes(x, severity)
    ensures severity.None? ==> r == entries
  {
    if entries == [] then []
    else
      var rest := Filtered(entries[1..], severity);
      assert forall x :: x in entries <==> x == entries[0] || x in entries[1..];
      if Passes(entries[0], severity) then [entries[0]] + rest else rest
  }

  /** The filter keeps every passing entry as often as it is stored, and nothing else. */
  lemma {:induction false} FilteredCounts(entries: seq<AuditEntry>, severity: Option<Severity>, x: AuditEntry)
    ensures multiset(Filtered(entries, severity))[x] == if Passes(x, severity) then multiset(entries)[x] else 0
    decreases |entries|
  {
    if entries != [] {
      FilteredCounts(entries[1..], severity, x);
      assert entries == [entries[0]] + entries[1..];
      assert multiset(entries) == multiset([entries[0]]) + multiset(entries[1..]);
    }
  }

  /** A single entry is kept exactly when it passes; with FilteredAppend this fixes the order. */
  lemma FilteredSingleton(e: AuditEntry, severity: Option<Severity>)
    ensures Filtered([e], severity) == if Passes(e, severity) then [e] else []
  {
    assert [e][1..] == [];
  }

  /** Filtering a concatenation filters each part. */
  lemma {:induction false} FilteredAppend(a: seq<AuditEntry>, b: seq<AuditEntry>, severity: Option<Severity>)
    ensures Filtered(a + b, severity) == Filtered(a, severity) + Filtered(b, severity)
    decreases |a|
  {
    if a != [] {
      assert (a + b)[1..] == a[1..] + b;
      FilteredAppend(a[1..], b, severity);
    } else {
      assert a + b == b;
    }
  }

  /** Every stored entry shows up under exactly one severity, as often as it is stored: the four
      filters partition the store. */
  lemma SeveritiesPartitionEntries(entries: seq<AuditEntry>)
    ensures multiset(Filtered(entries, Some(Low))) + multiset(Filtered(entries, Some(Medium)))
          + multiset(Filtered(entries, Some(High))) + multiset(Filtered(entries, Some(Info))) == multiset(entries)
    ensures |Filtered(entries, Some(Low))| + |Filtered(entries, Some(Medium))|
          + |Filtered(entries, Some(High))| + |Filtered(entries, Some(Info))| == |entries|
  {
    var low, medium, high, info :=
      Filtered(entries, Some(Low)), Filtered(entries, Some(Medium)),
      Filtered(entries, Some(High)), Filtered(entries, Some(Info));
    var sum := multiset(low) + multiset(medium) + multiset(high) + multiset(info);
    forall x
      ensures sum[x] == multiset(entries)[x]
    {
      FilteredCounts(entries, Some(Low), x);
      FilteredCounts(entries, Some(Medium), x);
      FilteredCounts(entries, Some(High), x);
      FilteredCounts(entries, Some(Info), x);
    }
    assert sum == multiset(entries);
    assert |sum| == |low| + |medium| + |high| + |info|;
  }

  /** The audit repository, append-only. */
  class AuditService {
    var entries: seq<AuditEntry>

    constructor ()
      ensures entries == []
    {
      entries := [];
    }

    /** save: one entry per call, with no check for an entry already stored. */
    method Save(e: CaseStatusChanged, mdc: Mdc)
      modifies this
      ensures entries == old(entries) + [CaseEntry(e, Lookup(mdc.entries, TraceIdMdcKey))]
    {
      var traceId := Lookup(mdc.entries, TraceIdMdcKey);
      entries := entries + [CaseEntry(e, traceId)];
    }

    method SaveUserRegistered(e: UserRegisteredEvent, randomCaseId: Uuid)
      modifies this
      ensures entries == old(entries) + [UserRegisteredEntry(e, randomCaseId)]
    {
      entries := entries + [UserRegisteredEntry(e, randomCaseId)];
    }

    method SaveUserPromoted(e: UserPromotedEvent, randomCaseId: Uuid)
      modifies this
      ensures entries == old(entries) + [UserPromotedEntry(e, randomCaseId)]
    {
      entries := entries + [UserPromotedEntry(e, randomCaseId)];
    }

    method GetAllFiltered(severity: Option<Severity>) returns (r: seq<AuditEntry>)
      ensures r == Filtered(entries, severity)
    {
      r := Filtered(entries, severity);
    }
  }

  /** Saving the same event twice under the same trace stores two entries, and both show under its
      severity. */
  lemma SaveDoesNotDeduplicate(entries: seq<AuditEntry>, e: CaseStatusChanged, traceId: Option<string>)
    ensures var entry := CaseEntry(e, traceId);
      var after := entries + [entry] + [entry];
      && multiset(after)[entry] == multiset(entries)[entry] + 2
      && |Filtered(after, Some(ClassifySeverity(e)))| == |Filtered(entries, Some(ClassifySeverity(e)))| + 2
  {
    var entry := CaseEntry(e, traceId);
    FilteredAppend(entries + [entry], [entry], Some(ClassifySeverity(e)));
    FilteredAppend(entries, [entry], Some(ClassifySeverity(e)));
    assert Filtered([entry], Some(ClassifySeverity(e))) == [entry];
  }
}
