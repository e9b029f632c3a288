/** The status enum of the shared events library, which every service deserialises messages into. */
module SharedEvents {
  import opened Base

  /** com.govcaseflow.events.cases.CaseStatus: the seven workflow statuses plus UNKNOWN. */
  datatype EventStatus =
    | EvDraft | EvSubmitted | EvInReview | EvDecisionPending | EvApproved | EvRejected | EvUnknown | EvClosed

  function EventStatusName(s: EventStatus): string
  {
    match s
    case EvDraft => "DRAFT"
    case EvSubmitted => "SUBMITTED"
    case EvInReview => "IN_REVIEW"
    case EvDecisionPending => "DECISION_PENDING"
    case EvApproved => "APPROVED"
    case EvRejected => "REJECTED"
    case EvUnknown => "UNKNOWN"
    case EvClosed => "CLOSED"
  }

  /** Enum.valueOf: the constant with that exact name, None for IllegalArgumentException. */
  function EventStatusValueOf(name: string): (r: Option<EventStatus>)
    ensures r.Some? ==> EventStatusName(r.value) == name
  {
    if name == "DRAFT" then Some(EvDraft)
    else if name == "SUBMITTED" then Some(EvSubmitted)
    else if name == "IN_REVIEW" then Some(EvInReview)
    else if name == "DECISION_PENDING" then Some(EvDecisionPending)
    else if name == "APPROVED" then Some(EvApproved)
    else if name == "REJECTED" then Some(EvRejected)
    else if name == "UNKNOWN" then Some(EvUnknown)
    else if name == "CLOSED" then Some(EvClosed)
    else None
  }

  lemma ValueOfName(s: EventStatus)
    ensures EventStatusValueOf(EventStatusName(s)) == Some(s)
  {
  }

  /** The shared events record of one status change, as the audit service receives it. */
  datatype CaseStatusChanged = CaseStatusChanged(
    caseId: Uuid,
    oldStatus: EventStatus,
    newStatus: EventStatus,
    changedAt: Instant,
    changedBy: string)
}

/** Mapping from the case service's status enum to the shared one, by constant name. */
module CaseStatusEventMapper {
  import opened Base
  import opened CaseStatusTransitions
  import opened SharedEvents

  function CaseStatusName(s: CaseStatus): string
  {
    match s
    case Draft => "DRAFT"
    case Submitted => "SUBMITTED"
    case InReview => "IN_REVIEW"
    case DecisionPending => "DECISION_PENDING"
    case Approved => "APPROVED"
    case Rejected => "REJECTED"
    case Closed => "CLOSED"
  }

  /** valueOf(status.name()): every case-domain name exists in the shared enum. */
  function ToEvent(s: CaseStatus): (r: EventStatus)
    ensures EventStatusName(r) == CaseStatusName(s)
  {
    var found := EventStatusValueOf(CaseStatusName(s));
    if found.Some? then found.value else assert false; EvUnknown
  }

  lemma ToEventIsTotal(s: CaseStatus)
    ensures EventStatusValueOf(CaseStatusName(s)).Some?
  {
  }

  lemma ToEventNeverUnknown(s: CaseStatus)
    ensures ToEvent(s) != EvUnknown
  {
  }

  lemma ToEventInjective(a: CaseStatus, b: CaseStatus)
    requires ToEvent(a) == ToEvent(b)
    ensures a == b
  {
  }
}
