/** The case service: creating, reading, re-statusing and deleting cases. */
module Cases {
  import opened Base
  import opened CaseStatusTransitions

  /** The case entity's fields that the service sets. */
  datatype Case = Case(
    id: Uuid,
    caseNumber: string,
    applicantPesel: string,
    status: CaseStatus,
    createdAt: Instant,
    createdByUserId: Uuid,
    assignedOfficerId: Option<Uuid>)

  /** One row of the status-history table. */
  datatype StatusHistory = StatusHistory(
    caseId: Uuid,
    oldStatus: CaseStatus,
    newStatus: CaseStatus,
    changedAt: Instant,
    changedBy: string)

  /** The case service's own status-changed event, handed to the event publisher. */
  datatype StatusChangedEvent = StatusChangedEvent(
    caseId: Uuid,
    oldStatus: CaseStatus,
    newStatus: CaseStatus,
    changedAt: Instant,
    changedBy: string)

  datatype CaseError =
    | CaseAlreadyExists
    | CaseNotFound(id: Uuid)
    | InvalidCaseStatusTransition(from: CaseStatus, to: CaseStatus)

  /** The actor written into history rows and into published events. */
  const HistoryActor: string := "system"
  const EventActor: string := "SYSTEM"

  /** existsByCaseNumber */
  predicate CaseNumberTaken(cases: map<Uuid, Case>, caseNumber: string)
  {
    exists id :: id in cases && cases[id].caseNumber == caseNumber
  }

  /** The event published for a history row: same case and statuses, time and the upper-case actor. */
  predicate Announces(e: StatusChangedEvent, h: StatusHistory)
  {
    && e.caseId == h.caseId
    && e.oldStatus == h.oldStatus
    && e.newStatus == h.newStatus
    && e.changedAt == h.changedAt
    && e.changedBy == EventActor
    && h.changedBy == HistoryActor
  }

  /** The history rows of one case, oldest first. */
  function Trail(history: seq<StatusHistory>, id: Uuid): seq<StatusHistory>
  {
    if history == [] then []
    else
      var last := history[|history| - 1];
      Trail(history[..|history| - 1], id) + (if last.caseId == id then [last] else [])
  }

  lemma {:induction false} TrailOfUnseenCase(history: seq<StatusHistory>, id: Uuid)
    requires forall i :: 0 <= i < |history| ==> history[i].caseId != id
    ensures Trail(history, id) == []
  {
    if history != [] {
      TrailOfUnseenCase(history[..|history| - 1], id);
    }
  }

  lemma TrailAppend(history: seq<StatusHistory>, h: StatusHistory, id: Uuid)
    ensures Trail(history + [h], id) == Trail(history, id) + (if h.caseId == id then [h] else [])
  {
    assert (history + [h])[..|history|] == history;
  }

  /** Rows that lead from status `from` to status `to`, each along an allowed transition. */
  predicate IsChain(from: CaseStatus, rows: seq<StatusHistory>, to: CaseStatus)
    decreases |rows|
  {
    if rows == [] then from == to
    else
      && rows[0].oldStatus == from
      && IsAllowedTransition(rows[0].oldStatus, rows[0].newStatus)
      && IsChain(rows[0].newStatus, rows[1..], to)
  }

  lemma {:induction false} ChainExtend(from: CaseStatus, rows: seq<StatusHistory>, to: CaseStatus, h: StatusHistory)
    requires IsChain(from, rows, to)
    requires h.oldStatus == to && IsAllowedTransition(to, h.newStatus)
    ensures IsChain(from, rows + [h], h.newStatus)
    decreases |rows|
  {
    if rows == [] {
      assert rows + [h] == [h];
    } else {
      ChainExtend(rows[0].newStatus, rows[1..], to, h);
      assert (rows + [h])[1..] == rows[1..] + [h];
    }
  }

  /** Each row of a chain raises the workflow rank by one. */
  lemma {:induction false} ChainRank(from: CaseStatus, rows: seq<StatusHistory>, to: CaseStatus)
    requires IsChain(from, rows, to)
    ensures Rank(to) == Rank(from) + |rows|
    decreases |rows|
  {
    if rows != [] {
      EdgeRaisesRank(rows[0].oldStatus, rows[0].newStatus);
      ChainRank(rows[0].newStatus, rows[1..], to);
    }
  }

  /** A case whose history chains from SUBMITTED is never DRAFT and has at most four history rows. */
  lemma ChainFromSubmitted(rows: seq<StatusHistory>, to: CaseStatus)
    requires IsChain(Submitted, rows, to)
    ensures to != Draft
    ensures |rows| <= 4
    ensures |rows| == 4 <==> to == Closed
  {
    ChainRank(Submitted, rows, to);
  }

  /** The service's invariant: ids and case numbers are unique, every history row is announced by
      the event at the same position, and each stored case's history chains from SUBMITTED. */
  ghost predicate Consistent(cases: map<Uuid, Case>, history: seq<StatusHistory>,
                             published: seq<StatusChangedEvent>, issuedIds: set<Uuid>)
  {
    && cases.Keys <= issuedIds
    && (forall id :: id in cases ==> cases[id].id == id)
    && (forall a, b :: a in cases && b in cases && cases[a].caseNumber == cases[b].caseNumber ==> a == b)
    && (forall i :: 0 <= i < |history| ==> history[i].caseId in issuedIds)
    && |published| == |history|
    && (forall i :: 0 <= i < |history| ==> Announces(published[i], history[i]))
    && (forall id :: id in cases ==> IsChain(Submitted, Trail(history, id), cases[id].status))
  }

  /** Appending a row that continues one case's chain keeps every stored case's history a chain. */
  lemma ChainsSurviveAppend(cases: map<Uuid, Case>, history: seq<StatusHistory>, caseId: Uuid, newStatus: CaseStatus, row: StatusHistory)
    requires forall id :: id in cases ==> IsChain(Submitted, Trail(history, id), cases[id].status)
    requires caseId in cases && row.caseId == caseId
    requires row.oldStatus == cases[caseId].status && row.newStatus == newStatus
    requires IsAllowedTransition(cases[caseId].status, newStatus)
    ensures var cases' := cases[caseId := cases[caseId].(status := newStatus)];
      forall id :: id in cases' ==> IsChain(Submitted, Trail(history + [row], id), cases'[id].status)
  {
    var cases' := cases[caseId := cases[caseId].(status := newStatus)];
    forall id | id in cases'
      ensures IsChain(Submitted, Trail(history + [row], id), cases'[id].status)
    {
      TrailAppend(history, row, id);
      if id == caseId {
        ChainExtend(Submitted, Trail(history, caseId), cases[caseId].status, row);
      } else {
        assert Trail(history + [row], id) == Trail(history, id) + [];
        assert Trail(history, id) + [] == Trail(history, id);
      }
    }
  }

  lemma ChangeStatusKeepsConsistent(cases: map<Uuid, Case>, history: seq<StatusHistory>,
                                    published: seq<StatusChangedEvent>, issuedIds: set<Uuid>,
                                    caseId: Uuid, newStatus: CaseStatus, now: Instant)
    requires Consistent(cases, history, published, issuedIds)
    requires caseId in cases && IsAllowedTransition(cases[caseId].status, newStatus)
    ensures var before := cases[caseId];
      Consistent(cases[caseId := before.(status := newStatus)],
                 history + [StatusHistory(caseId, before.status, newStatus, now, HistoryActor)],
                 published + [StatusChangedEvent(caseId, before.status, newStatus, now, EventActor)],
                 issuedIds)
  {
    var before := cases[caseId];
    var row := StatusHistory(caseId, before.status, newStatus, now, HistoryActor);
    ChainsSurviveAppend(cases, history, caseId, newStatus, row);
  }

  class CaseService {
    var cases: map<Uuid, Case>
    var history: seq<StatusHistory>
    /** Events handed to the case event publisher, oldest first. */
    var published: seq<StatusChangedEvent>
    /** Every id the persistence layer has generated so far. */
    ghost var issuedIds: set<Uuid>

    ghost predicate Valid()
      reads this
    {
      Consistent(cases, history, published, issuedIds)
    }

    constructor ()
      ensures Valid()
      ensures cases == map[] && history == [] && published == []
    {
      cases, history, published := map[], [], [];
      issuedIds := {};
    }

    /** createCase: refuses a taken case number, otherwise stores a SUBMITTED case. */
    method CreateCase(caseNumber: string, applicantPesel: string, userId: Uuid, now: Instant, newId: Uuid)
      returns (r: Result<Case, CaseError>)
      requires Valid()
      requires newId !in issuedIds
      modifies this
      ensures Valid()
      ensures history == old(history) && published == old(published)
      ensures r.Failure? <==> CaseNumberTaken(old(cases), caseNumber)
      ensures r.Failure? ==> r.error == CaseAlreadyExists && cases == old(cases)
      ensures r.Success? ==>
        && r.value == Case(newId, caseNumber, applicantPesel, Submitted, now, userId, None)
        && cases == old(cases)[newId := r.value]
    {
      if CaseNumberTaken(cases, caseNumber) {
        return Failure(CaseAlreadyExists);
      }
      var created := Case(newId, caseNumber, applicantPesel, Submitted, now, userId, None);
      TrailOfUnseenCase(history, newId);
      cases := cases[newId := created];
      issuedIds := issuedIds + {newId};
      r := Success(created);
    }

    /** getById */
    method GetById(id: Uuid) returns (r: Result<Case, CaseError>)
      ensures r.Success? <==> id in cases
      ensures r.Success? ==> r.value == cases[id]
      ensures r.Failure? ==> r.error == CaseNotFound(id)
    {
      if id in cases {
        r := Success(cases[id]);
      } else {
        r := Failure(CaseNotFound(id));
      }
    }

    /** changeStatus: not found, then the transition table, then history row, new status and event. */
    method ChangeStatus(caseId: Uuid, newStatus: CaseStatus, now: Instant) returns (r: Outcome<CaseError>)
      requires Valid()
      modifies this
      ensures Valid()
      ensures issuedIds == old(issuedIds)
      ensures r.Pass? <==> caseId in old(cases) && IsAllowedTransition(old(cases)[caseId].status, newStatus)
      ensures caseId !in old(cases) ==> r == Fail(CaseNotFound(caseId))
      ensures caseId in old(cases) && !IsAllowedTransition(old(cases)[caseId].status, newStatus) ==>
        r == Fail(InvalidCaseStatusTransition(old(cases)[caseId].status, newStatus))
      ensures r.Fail? ==> cases == old(cases) && history == old(history) && published == old(published)
      ensures r.Pass? ==>
        var before := old(cases)[caseId];
        && cases == old(cases)[caseId := before.(status := newStatus)]
        && history == old(history) + [StatusHistory(caseId, before.status, newStatus, now, HistoryActor)]
        && published == old(published) + [StatusChangedEvent(caseId, before.status, newStatus, now, EventActor)]
    {
      if caseId !in cases {
        return Fail(CaseNotFound(caseId));
      }
      var entity := cases[caseId];
      var oldStatus := entity.status;
      if !IsAllowedTransition(oldStatus, newStatus) {
        return Fail(InvalidCaseStatusTransition(oldStatus, newStatus));
      }
      var row := StatusHistory(caseId, oldStatus, newStatus, now, HistoryActor);
      ChangeStatusKeepsConsistent(cases, history, published, issuedIds, caseId, newStatus, now);
      history := history + [row];
      cases := cases[caseId := entity.(status := newStatus)];
      published := published + [StatusChangedEvent(caseId, oldStatus, newStatus, now, EventActor)];
      r := Pass;
    }

    /** deleteCase: not found, otherwise only that case leaves the store; its history stays. */
    method DeleteCase(caseId: Uuid) returns (r: Outcome<CaseError>)
      requires Valid()
      modifies this
      ensures Valid()
      ensures history == old(history) && published == old(published) && issuedIds == old(issuedIds)
      ensures r.Fail? <==> caseId !in old(cases)
      ensures r.Fail? ==> r.error == CaseNotFound(caseId) && cases == old(cases)
      ensures r.Pass? ==> cases == old(cases) - {caseId}
    {
      if caseId !in cases {
        return Fail(CaseNotFound(caseId));
      }
      cases := cases - {caseId};
      r := Pass;
    }

    /** What the invariant gives every stored case: never DRAFT, at most four history rows. */
    lemma StoredCasesFollowWorkflow(id: Uuid)
      requires Valid() && id in cases
      ensures cases[id].status != Draft
      ensures |Trail(history, id)| <= 4
    {
      ChainFromSubmitted(Trail(history, id), cases[id].status);
    }
  }
}
