/**
 * The status machines behind the maintenance and liquidation handlers, as functions from the
 * current status and an operation to the status after it (None: the handler refuses). The
 * `Store` handlers are specified against these functions; the lemmas here say what any
 * sequence of handler calls can and cannot do to one request.
 */
module Lifecycle {
  import opened Wrappers
  import opened Domain

  // ------------------------------------------------ maintenance requests

  datatype MaintenanceOp = AssignTechnicianOp | StartOp | CompleteOp | CancelOp | UpdateOp

  /** How far along a request is; a step never moves a request back. */
  function Progress(s: MaintenanceStatus): nat {
    match s
    case Pending => 0
    case InProgress => 1
    case Completed => 2
    case Cancelled => 2
  }

  predicate IsClosed(s: MaintenanceStatus) {
    s == Completed || s == Cancelled
  }

  /**
   * The status guard of each handler and the status it leaves behind: assigning a technician
   * and starting need Pending, completing needs InProgress, cancelling and editing need an
   * open request.
   */
  function MaintenanceNext(s: MaintenanceStatus, op: MaintenanceOp): (r: Option<MaintenanceStatus>)
    ensures r.Some? ==> Progress(s) <= Progress(r.value)
    ensures r.Some? ==> !IsClosed(s)
    ensures r == Some(Completed) <==> s == InProgress && op == CompleteOp
    ensures r == Some(InProgress) <==> (s == InProgress && op == UpdateOp) || (s == Pending && op == StartOp)
  {
    match op
    case AssignTechnicianOp => if s == Pending then Some(Pending) else None
    case StartOp => if s == Pending then Some(InProgress) else None
    case CompleteOp => if s == InProgress then Some(Completed) else None
    case CancelOp => if IsClosed(s) then None else Some(Cancelled)
    case UpdateOp => if IsClosed(s) then None else Some(s)
  }

  /** One handler call: a refused operation leaves the request as it was. */
  function Step(s: MaintenanceStatus, op: MaintenanceOp): MaintenanceStatus {
    MaintenanceNext(s, op).OrElse(s)
  }

  /** The status after a sequence of handler calls on one request. */
  function Run(s: MaintenanceStatus, ops: seq<MaintenanceOp>): MaintenanceStatus
    decreases |ops|
  {
    if ops == [] then s else Step(Run(s, ops[..|ops| - 1]), ops[|ops| - 1])
  }

  /** Completed and Cancelled are final: no sequence of calls reopens a closed request. */
  lemma {:induction false} ClosedStaysClosed(s: MaintenanceStatus, ops: seq<MaintenanceOp>)
    requires IsClosed(s)
    ensures Run(s, ops) == s
    decreases |ops|
  {
    if ops != [] {
      ClosedStaysClosed(s, ops[..|ops| - 1]);
    }
  }

  lemma {:induction false} ProgressNeverDecreases(s: MaintenanceStatus, ops: seq<MaintenanceOp>)
    ensures Progress(s) <= Progress(Run(s, ops))
    decreases |ops|
  {
    if ops != [] {
      ProgressNeverDecreases(s, ops[..|ops| - 1]);
    }
  }

  /** A request is only ever completed out of InProgress, by a complete call. */
  lemma {:induction false} CompletionFollowsProgress(s: MaintenanceStatus, ops: seq<MaintenanceOp>)
    requires s != Completed && Run(s, ops) == Completed
    ensures exists i :: 0 <= i < |ops| && ops[i] == CompleteOp && Run(s, ops[..i]) == InProgress
    decreases |ops|
  {
    var n := |ops| - 1;
    var before := Run(s, ops[..n]);
    if before == Completed {
      CompletionFollowsProgress(s, ops[..n]);
      var i :| 0 <= i < n && ops[..n][i] == CompleteOp && Run(s, ops[..n][..i]) == InProgress;
      assert ops[..n][..i] == ops[..i];
    } else {
      assert MaintenanceNext(before, ops[n]) == Some(Completed);
    }
  }

  /** A Pending request only gets to InProgress through a start call. */
  lemma {:induction false} ProgressFollowsStart(ops: seq<MaintenanceOp>)
    requires Run(Pending, ops) == InProgress
    ensures exists i :: 0 <= i < |ops| && ops[i] == StartOp && Run(Pending, ops[..i]) == Pending
    decreases |ops|
  {
    var n := |ops| - 1;
    var before := Run(Pending, ops[..n]);
    if before == InProgress {
      ProgressFollowsStart(ops[..n]);
      var i :| 0 <= i < n && ops[..n][i] == StartOp && Run(Pending, ops[..n][..i]) == Pending;
      assert ops[..n][..i] == ops[..i];
    } else {
      assert MaintenanceNext(before, ops[n]) == Some(InProgress);
    }
  }

  // ------------------------------------------------ liquidation requests

  /**
   * A liquidation request has no status column: it is approved when IsApproved is set,
   * rejected when it is not but an ApprovedDate is, and pending otherwise.
   */
  datatype LiquidationPhase = Awaiting | Approved | Rejected

  function PhaseOf(l: LiquidationRequest): LiquidationPhase {
    if l.isApproved then Approved
    else if l.approvedDate.Some? then Rejected
    else Awaiting
  }

  datatype LiquidationOp = ApproveOp | RejectOp | EditOp

  /**
   * The guards as written: approving and rejecting only refuse an approved request, so a
   * rejected one can still be approved or rejected again; editing needs an undecided request.
   */
  function LiquidationNext(p: LiquidationPhase, op: LiquidationOp): (r: Option<LiquidationPhase>)
    ensures p == Approved ==> r.None?
    ensures r == Some(Awaiting) <==> p == Awaiting && op == EditOp
    ensures op == ApproveOp ==> (r.Some? <==> p != Approved)
  {
    match op
    case ApproveOp => if p == Approved then None else Some(Approved)
    case RejectOp => if p == Approved then None else Some(Rejected)
    case EditOp => if p == Awaiting then Some(Awaiting) else None
  }

  function LiquidationStep(p: LiquidationPhase, op: LiquidationOp): LiquidationPhase {
    LiquidationNext(p, op).OrElse(p)
  }

  function LiquidationRun(p: LiquidationPhase, ops: seq<LiquidationOp>): LiquidationPhase
    decreases |ops|
  {
    if ops == [] then p else LiquidationStep(LiquidationRun(p, ops[..|ops| - 1]), ops[|ops| - 1])
  }

  /** Once approved or rejected, a request never becomes editable again. */
  lemma {:induction false} DecidedNeverAwaits(p: LiquidationPhase, ops: seq<LiquidationOp>)
    requires p != Awaiting
    ensures LiquidationRun(p, ops) != Awaiting
    ensures LiquidationNext(LiquidationRun(p, ops), EditOp).None?
    decreases |ops|
  {
    if ops != [] {
      DecidedNeverAwaits(p, ops[..|ops| - 1]);
    }
  }

  /** An approved request stays approved whatever is called on it afterwards. */
  lemma {:induction false} ApprovalIsFinal(ops: seq<LiquidationOp>)
    ensures LiquidationRun(Approved, ops) == Approved
    decreases |ops|
  {
    if ops != [] {
      ApprovalIsFinal(ops[..|ops| - 1]);
    }
  }

  /** The guards let a rejected request be approved afterwards. */
  lemma RejectedCanBeApproved()
    ensures LiquidationRun(Awaiting, [RejectOp, ApproveOp]) == Approved
  {
    assert [RejectOp, ApproveOp][..1] == [RejectOp];
    assert [RejectOp][..0] == [];
  }
}
