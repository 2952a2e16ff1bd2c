/** The run's status: how it is computed from the ledger, and the envelope's independent check of it. */
module RunStatus {
  import opened Outcomes
  import opened Seqs

  datatype Status = CompleteRun | PartialRun | NoResults | FailedRun

  function Accepted(o: TaskOutcome): int { o.acceptedCount }

  function TotalAccepted(ledger: seq<TaskOutcome>): int { Sum(Map(Accepted, ledger)) }

  predicate HasErrors(ledger: seq<TaskOutcome>) { exists o :: o in ledger && IsError(o.state) }

  predicate AllErrored(ledger: seq<TaskOutcome>) { forall o :: o in ledger ==> IsError(o.state) }

  predicate HasAnswered(ledger: seq<TaskOutcome>) { exists o :: o in ledger && IsAnswered(o.state) }

  function ComputeStatus(ledger: seq<TaskOutcome>): Status {
    if TotalAccepted(ledger) >= 1 then (if HasErrors(ledger) then PartialRun else CompleteRun)
    else if AllErrored(ledger) then FailedRun
    else NoResults
  }

  /** The envelope's own validator. */
  predicate Accepts(status: Status, ledger: seq<TaskOutcome>) {
    ledger != [] &&
    match status
    case CompleteRun => !HasErrors(ledger) && TotalAccepted(ledger) >= 1
    case PartialRun => HasErrors(ledger) && TotalAccepted(ledger) >= 1
    case NoResults => TotalAccepted(ledger) == 0 && HasAnswered(ledger)
    case FailedRun => TotalAccepted(ledger) == 0 && AllErrored(ledger)
  }

  lemma AcceptedCounts(ledger: seq<TaskOutcome>)
    ensures TotalAccepted(ledger) >= 0
    ensures forall i :: 0 <= i < |ledger| ==> ledger[i].acceptedCount <= TotalAccepted(ledger)
  {
    SumNonNegative(Map(Accepted, ledger));
    forall i | 0 <= i < |ledger| ensures ledger[i].acceptedCount <= TotalAccepted(ledger) {
      assert Map(Accepted, ledger)[i] == ledger[i].acceptedCount;
    }
  }

  /** The validator never leaves a choice: it accepts at most one status. */
  lemma OneStatusAtMost(ledger: seq<TaskOutcome>, a: Status, b: Status)
    requires Accepts(a, ledger) && Accepts(b, ledger)
    ensures a == b
  {
    if !HasErrors(ledger) { assert ledger[0] in ledger; }
  }

  /** Over all eight task states: the computed status is accepted, and is then the only
      one, unless nothing was accepted, some task did not fail, and no task was answered;
      in that case the validator accepts no status at all. */
  lemma ComputedStatusAcceptedIff(ledger: seq<TaskOutcome>)
    requires ledger != []
    ensures Accepts(ComputeStatus(ledger), ledger)
       <==> !(TotalAccepted(ledger) == 0 && !AllErrored(ledger) && !HasAnswered(ledger))
    ensures Accepts(ComputeStatus(ledger), ledger) <==> exists status :: Accepts(status, ledger)
    ensures forall status :: Accepts(status, ledger) ==> status == ComputeStatus(ledger)
  {
    AcceptedCounts(ledger);
    forall status | Accepts(status, ledger) ensures status == ComputeStatus(ledger) {
      if status == NoResults && AllErrored(ledger) {
        OneStatusAtMost(ledger, NoResults, FailedRun);
      }
    }
  }

  /** A skipped or cancelled task alone makes such a ledger. */
  lemma SkippedAloneHasNoStatus(o: TaskOutcome, status: Status)
    requires (o.state == SkippedEarlyStop || o.state == Cancelled) && o.acceptedCount == 0
    ensures !Accepts(status, [o])
  {
    assert o in [o] && forall x :: x in [o] ==> x == o;
    SumConstant(Map(Accepted, [o]), 0);
    ComputedStatusAcceptedIff([o]);
  }

  // -- finalization -------------------------------------------------------------------------

  /** An answered task none of whose offers was accepted is all-rejected; every other state stays. */
  function FinalizeOutcome(o: TaskOutcome, accepted: nat, counts: map<RejectionCode, nat>): TaskOutcome {
    o.(state := if o.state == Answered && accepted == 0 then AllRejected else o.state,
       acceptedCount := accepted, rejectionCounts := counts)
  }

  /** The states a task can leave the executor in. */
  predicate FromExecutor(s: TaskState) { IsError(s) || s == Answered || s == NoOffers }

  /** A ledger of answers and failures, as the executor and finalization leave it, has exactly one
      status, and it is the computed one. */
  lemma ExecutorLedgersHaveStatus(ledger: seq<TaskOutcome>)
    requires ledger != [] && forall o :: o in ledger ==> IsError(o.state) || IsAnswered(o.state)
    ensures Accepts(ComputeStatus(ledger), ledger)
    ensures forall status :: Accepts(status, ledger) ==> status == ComputeStatus(ledger)
    ensures ComputeStatus(ledger) == CompleteRun || ComputeStatus(ledger) == PartialRun <==> TotalAccepted(ledger) >= 1
  {
    ComputedStatusAcceptedIff(ledger);
    if !AllErrored(ledger) {
      var o :| o in ledger && !IsError(o.state);
    }
  }
}
