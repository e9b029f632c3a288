/** The case workflow: which status may follow which. */
module CaseStatusTransitions {

  /** com.caseservice.domain.CaseStatus, in declaration order. */
  datatype CaseStatus = Draft | Submitted | InReview | DecisionPending | Approved | Rejected | Closed

  const AllStatuses: set<CaseStatus> := {Draft, Submitted, InReview, DecisionPending, Approved, Rejected, Closed}

  lemma AllStatusesIsEverything(s: CaseStatus)
    ensures s in AllStatuses
  {
  }

  /** The allowed-transitions table: one entry per status, CLOSED mapped to no successor. */
  const AllowedTransitions: map<CaseStatus, set<CaseStatus>> := map[
    Draft := {Submitted},
    Submitted := {InReview},
    InReview := {DecisionPending},
    DecisionPending := {Approved, Rejected},
    Approved := {Closed},
    Rejected := {Closed},
    Closed := {}
  ]

  /** The table's successors of `from`, or none when it has no entry. */
  function Successors(from: CaseStatus): set<CaseStatus>
  {
    if from in AllowedTransitions then AllowedTransitions[from] else {}
  }

  predicate IsAllowedTransition(from: CaseStatus, to: CaseStatus)
  {
    to in Successors(from)
  }

  /** The seven edges of the workflow, written out as a reference independent of the table. */
  predicate IsWorkflowEdge(from: CaseStatus, to: CaseStatus)
  {
    || (from == Draft && to == Submitted)
    || (from == Submitted && to == InReview)
    || (from == InReview && to == DecisionPending)
    || (from == DecisionPending && to == Approved)
    || (from == DecisionPending && to == Rejected)
    || (from == Approved && to == Closed)
    || (from == Rejected && to == Closed)
  }

  lemma TableMatchesWorkflow(from: CaseStatus, to: CaseStatus)
    ensures IsAllowedTransition(from, to) <==> IsWorkflowEdge(from, to)
  {
  }

  /** Every status has an entry, so the lookup's default is never used. */
  lemma TableIsTotal(from: CaseStatus)
    ensures from in AllowedTransitions
  {
  }

  function AllowedPairs(): set<(CaseStatus, CaseStatus)>
  {
    set from, to | from in AllStatuses && to in AllStatuses && IsAllowedTransition(from, to) :: (from, to)
  }

  /** Of the 49 pairs of the 7x7 grid exactly seven are allowed. */
  lemma ExactlySevenPairs()
    ensures AllowedPairs() == {(Draft, Submitted), (Submitted, InReview), (InReview, DecisionPending),
                               (DecisionPending, Approved), (DecisionPending, Rejected),
                               (Approved, Closed), (Rejected, Closed)}
    ensures |AllowedPairs()| == 7
  {
    var expected := {(Draft, Submitted), (Submitted, InReview), (InReview, DecisionPending),
                     (DecisionPending, Approved), (DecisionPending, Rejected),
                     (Approved, Closed), (Rejected, Closed)};
    forall p | p in AllowedPairs() ensures p in expected {
      TableMatchesWorkflow(p.0, p.1);
    }
    forall p | p in expected ensures p in AllowedPairs() {
      TableMatchesWorkflow(p.0, p.1);
    }
    assert AllowedPairs() == expected;
  }

  lemma ClosedIsTerminal(to: CaseStatus)
    ensures !IsAllowedTransition(Closed, to)
  {
  }

  /** An approved case cannot go back to review. */
  lemma ApprovedCannotReopen()
    ensures !IsAllowedTransition(Approved, InReview)
    ensures Successors(Approved) == {Closed}
  {
  }

  lemma NoSelfLoops(s: CaseStatus)
    ensures !IsAllowedTransition(s, s)
  {
  }

  /** DECISION_PENDING is the only status with a choice of successor. */
  lemma OnlyDecisionPendingBranches(s: CaseStatus)
    ensures |Successors(s)| > 1 <==> s == DecisionPending
  {
    if s == DecisionPending {
      assert Successors(s) == {Approved, Rejected};
    } else {
      assert |Successors(s)| <= 1;
    }
  }

  /** How far along the workflow a status is. */
  function Rank(s: CaseStatus): nat
  {
    match s
    case Draft => 0
    case Submitted => 1
    case InReview => 2
    case DecisionPending => 3
    case Approved => 4
    case Rejected => 4
    case Closed => 5
  }

  lemma EdgeRaisesRank(from: CaseStatus, to: CaseStatus)
    requires IsAllowedTransition(from, to)
    ensures Rank(to) == Rank(from) + 1
  {
  }

  /** A walk along allowed transitions. */
  predicate IsPath(p: seq<CaseStatus>)
  {
    forall i :: 0 <= i < |p| - 1 ==> IsAllowedTransition(p[i], p[i + 1])
  }

  lemma {:induction false} PathRank(p: seq<CaseStatus>, i: nat)
    requires IsPath(p) && i < |p|
    ensures Rank(p[i]) == Rank(p[0]) + i
  {
    if i > 0 {
      PathRank(p, i - 1);
      EdgeRaisesRank(p[i - 1], p[i]);
    }
  }

  /** No walk comes back to a status it has left. */
  lemma PathNeverRevisits(p: seq<CaseStatus>, i: nat, j: nat)
    requires IsPath(p) && i < j < |p|
    ensures p[i] != p[j]
  {
    PathRank(p, i);
    PathRank(p, j);
  }

  /** A walk makes at most five transitions (DRAFT to CLOSED). */
  lemma PathAtMostFiveSteps(p: seq<CaseStatus>)
    requires IsPath(p) && p != []
    ensures |p| <= 6
  {
    PathRank(p, |p| - 1);
  }
}
