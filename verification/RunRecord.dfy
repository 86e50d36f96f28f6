/** The row of a workflow run and the writes on it (run_repository.py). */
module RunRecord {
  import opened Prelude
  import opened Text

  datatype Status = Pending | Running | Completed | Failed | Cancelled

  predicate Terminal(status: Status) {
    status == Completed || status == Failed || status == Cancelled
  }

  datatype Row = Row(
    status: Status, startedAt: Option<nat>, finishedAt: Option<nat>, error: Option<string>, cancelRequested: bool)

  const NEW_ROW := Row(Pending, None, None, None, false)
  const ERROR_LIMIT := 4000

  function Started(row: Row, now: nat): Row {
    row.(status := Running, startedAt := Some(now), error := None)
  }

  function Done(row: Row, now: nat): Row {
    row.(status := Completed, finishedAt := Some(now))
  }

  function Broken(row: Row, now: nat, error: string): Row {
    row.(status := Failed, finishedAt := Some(now), error := Some(Clip(error, ERROR_LIMIT)))
  }

  function Stopped(row: Row, now: nat, reason: string): Row {
    row.(status := Cancelled, cancelRequested := true, finishedAt := Some(now),
         error := Some(Clip(reason, ERROR_LIMIT)))
  }

  /** The stored record; every method is one committed write. */
  class WorkflowRun {
    var status: Status
    var startedAt: Option<nat>
    var finishedAt: Option<nat>
    var error: Option<string>
    var cancelRequested: bool

    ghost function View(): Row
      reads this
    {
      Row(status, startedAt, finishedAt, error, cancelRequested)
    }

    /** `create_run` */
    constructor ()
      ensures status == Pending && startedAt == None && finishedAt == None && error == None && !cancelRequested
      ensures View() == NEW_ROW
    {
      status, startedAt, finishedAt, error, cancelRequested := Pending, None, None, None, false;
    }

    method MarkRunning(now: nat)
      modifies this
      ensures status == Running && startedAt == Some(now) && error == None
      ensures finishedAt == old(finishedAt) && cancelRequested == old(cancelRequested)
      ensures View() == Started(old(View()), now)
    {
      status := Running;
      startedAt := Some(now);
      error := None;
    }

    method MarkCompleted(now: nat)
      modifies this
      ensures status == Completed && finishedAt == Some(now)
      ensures startedAt == old(startedAt) && error == old(error) && cancelRequested == old(cancelRequested)
      ensures View() == Done(old(View()), now)
    {
      status := Completed;
      finishedAt := Some(now);
    }

    method MarkFailed(now: nat, message: string)
      modifies this
      ensures status == Failed && finishedAt == Some(now)
      ensures error == Some(if |message| <= 4000 then message else message[..4000])
      ensures startedAt == old(startedAt) && cancelRequested == old(cancelRequested)
      ensures View() == Broken(old(View()), now, message)
    {
      status := Failed;
      finishedAt := Some(now);
      error := Some(if |message| <= ERROR_LIMIT then message else message[..ERROR_LIMIT]);
    }

    method MarkCancelled(now: nat, reason: string)
      modifies this
      ensures status == Cancelled && cancelRequested && finishedAt == Some(now)
      ensures error == Some(if |reason| <= 4000 then reason else reason[..4000])
      ensures startedAt == old(startedAt)
      ensures View() == Stopped(old(View()), now, reason)
    {
      status := Cancelled;
      cancelRequested := true;
      finishedAt := Some(now);
      error := Some(if |reason| <= ERROR_LIMIT then reason else reason[..ERROR_LIMIT]);
    }

    /** Writes the one column, whatever the others hold by now. */
    method RequestCancel()
      modifies this`cancelRequested
      ensures cancelRequested
      ensures View() == old(View()).(cancelRequested := true)
    {
      cancelRequested := true;
    }

    method IsCancelRequested() returns (requested: bool)
      ensures requested == cancelRequested
    {
      requested := cancelRequested;
    }
  }
}
