/** The detachable context (core/reparentable.go) under every interleaving of its watcher, any
    number of goroutines that call Cancel or Detach, and the parent. Each step is one critical
    section, channel operation or select. */
module Reparentable {
  import opened Messages

  datatype Error = Canceled | ParentError
  datatype Once = Idle | RunningBy(who: nat) | Finished

  /** Where a goroutine stands. Thread 0 is the watcher. */
  datatype Pc = Watching                  // select on parent, done and detach
              | ParentSeen                // before it reads `detached`
              | Cancelling(err: Error)    // before once.Do
              | SetsErr(err: Error)       // inside once.Do, before err is set
              | ClosesDone(err: Error)    // inside once.Do, before done is closed
              | Detaching                 // before the critical section of Detach
              | ClosesDetach              // before detach is closed
              | Returned

  datatype Step = ParentEnds
                | CallsCancel
                | CallsDetach
                | Runs(thread: nat, choice: nat)

  predicate Cancels(t: Pc) { t.Cancelling? || t.SetsErr? || t.ClosesDone? }

  predicate Inside(t: Pc) { t.SetsErr? || t.ClosesDone? }

  ghost predicate WatcherOk(threads: seq<Pc>, parentDone: bool) {
    && |threads| > 0 && !threads[0].Detaching? && !threads[0].ClosesDetach?
    && (threads[0].ParentSeen? ==> parentDone)
    && (Cancels(threads[0]) ==> threads[0].err == ParentError && parentDone)
  }

  predicate CallerOk(t: Pc, cancelCalls: nat) {
    !t.Watching? && !t.ParentSeen? && (Cancels(t) ==> t.err == Canceled && cancelCalls > 0)
  }

  /** once.Do: at most one goroutine is inside, and err and done follow its progress. */
  ghost predicate OnceOk(threads: seq<Pc>, once: Once, err: Option<Error>, doneClosings: nat, closedBy: Option<nat>) {
    && (forall i | 0 <= i < |threads| && Inside(threads[i]) :: once == RunningBy(i))
    && (doneClosings > 0 <==> closedBy.Some?) && doneClosings <= 1
    && match once
       case Idle => err == None && doneClosings == 0
       case RunningBy(who) =>
         && who < |threads| && doneClosings == 0 && Inside(threads[who])
         && err == if threads[who].ClosesDone? then Some(threads[who].err) else None
       case Finished => doneClosings == 1 && closedBy.Some? &&
                        err == Some(if closedBy.value == 0 then ParentError else Canceled)
  }

  ghost predicate DetachOk(threads: seq<Pc>, detached: bool, detachClosings: nat) {
    && detachClosings <= 1
    && (forall i | 0 <= i < |threads| && threads[i].ClosesDetach? :: detached && detachClosings == 0)
    && (forall i, j | 0 <= i < j < |threads| :: !(threads[i].ClosesDetach? && threads[j].ClosesDetach?))
    && (detachClosings == 1 ==> detached)
  }

  class Context {
    var parentDone: bool
    var err: Option<Error>
    var doneClosings: nat
    var detachClosings: nat
    var detached: bool
    var once: Once
    var threads: seq<Pc>
    /** Who closed `done`; whether a call of Detach returned while the parent was still alive; calls of Cancel. */
    ghost var closedBy: Option<nat>
    ghost var detachedInTime: bool
    ghost var cancelCalls: nat

    constructor ()
      ensures Valid() && !parentDone && doneClosings == 0 && !detachedInTime && cancelCalls == 0 &&
              threads == [Watching]
    {
      parentDone, err, doneClosings, detachClosings, detached, once := false, None, 0, 0, false, Idle;
      threads, closedBy, detachedInTime, cancelCalls := [Watching], None, false, 0;
    }

    ghost predicate Valid()
      reads this
    {
      && WatcherOk(threads, parentDone)
      && (forall i | 1 <= i < |threads| :: CallerOk(threads[i], cancelCalls))
      && OnceOk(threads, once, err, doneClosings, closedBy)
      && (closedBy == Some(0) ==> parentDone) && (closedBy.Some? && closedBy != Some(0) ==> cancelCalls > 0)
      && DetachOk(threads, detached, detachClosings)
      && (detachedInTime ==> detached && closedBy != Some(0) && !Cancels(threads[0]))
    }

    /** The error once set stays, and `done` once closed stays closed by the same goroutine. */
    twostate predicate Keeps()
      reads this
    {
      && (old(err).Some? ==> err == old(err))
      && old(doneClosings) <= doneClosings && (old(closedBy).Some? ==> closedBy == old(closedBy))
      && (old(detachedInTime) ==> detachedInTime) && (old(parentDone) ==> parentDone)
      && old(cancelCalls) <= cancelCalls
    }

    method Act(step: Step)
      requires Valid()
      modifies this
      ensures Valid() && Keeps()
      ensures step != CallsCancel ==> cancelCalls == old(cancelCalls)
    {
      match step {
        case ParentEnds => parentDone := true;
        case CallsCancel =>
          threads := threads + [Cancelling(Canceled)];
          cancelCalls := cancelCalls + 1;
        case CallsDetach =>
          threads := threads + [Detaching];
        case Runs(i, choice) =>
          if i < |threads| { RunThread(i, choice); }
      }
    }

    method RunThread(i: nat, choice: nat)
      requires Valid() && i < |threads|
      modifies this
      ensures Valid() && Keeps() && cancelCalls == old(cancelCalls)
    {
      hide OnceOk, DetachOk;
      assert i > 0 ==> CallerOk(threads[i], cancelCalls);
      match threads[i] {
        case Watching => Select(choice);
        case ParentSeen => LookDetached(i);
        case Cancelling(_) => RunCancel(i);
        case SetsErr(_) => RunCancel(i);
        case ClosesDone(_) => RunCancel(i);
        case Detaching => EnterDetach(i);
        case ClosesDetach => LeaveDetach(i);
        case Returned =>
      }
    }

    /** The watcher reads `detached` behind the end of the parent. */
    method LookDetached(i: nat)
      requires Valid() && i == 0 && threads[0].ParentSeen?
      modifies `threads
      ensures Valid()
    {
      threads := threads[0 := if detached then Returned else Cancelling(ParentError)];
    }

    /** Detach closes its channel and returns. */
    method LeaveDetach(i: nat)
      requires Valid() && 0 < i < |threads| && threads[i].ClosesDetach?
      modifies `threads, `detachClosings, `detachedInTime
      ensures Valid() && (old(detachedInTime) ==> detachedInTime)
    {
      detachClosings := detachClosings + 1;
      threads := threads[i := Returned];
      NoteInTime();
    }

    /** cancel: set the error, then close `done`, both inside once.Do. */
    method RunCancel(i: nat)
      requires Valid() && i < |threads| && Cancels(threads[i])
      modifies `err, `doneClosings, `once, `threads, `closedBy
      ensures Valid() && Keeps()
    {
      match threads[i] {
        case Cancelling(_) => EnterOnce(i);
        case SetsErr(_) => SetErr(i);
        case ClosesDone(_) => CloseDone(i);
      }
    }

    /** A goroutine waits while another one is inside and leaves at once when `done` is closed. */
    method EnterOnce(i: nat)
      requires Valid() && i < |threads| && threads[i].Cancelling?
      modifies `once, `threads
      ensures Valid()
    {
      assert i > 0 ==> CallerOk(threads[i], cancelCalls);
      if once == Idle {
        once := RunningBy(i);
        threads := threads[i := SetsErr(threads[i].err)];
      } else if once == Finished {
        threads := threads[i := Returned];
      }
    }

    method SetErr(i: nat)
      requires Valid() && i < |threads| && threads[i].SetsErr?
      modifies `err, `threads
      ensures Valid() && old(err).None?
    {
      assert i > 0 ==> CallerOk(threads[i], cancelCalls);
      err := Some(threads[i].err);
      threads := threads[i := ClosesDone(threads[i].err)];
    }

    method CloseDone(i: nat)
      requires Valid() && i < |threads| && threads[i].ClosesDone?
      modifies `doneClosings, `once, `threads, `closedBy
      ensures Valid() && old(closedBy).None? && doneClosings == old(doneClosings) + 1
    {
      assert i > 0 ==> CallerOk(threads[i], cancelCalls);
      doneClosings := doneClosings + 1;
      closedBy := Some(i);
      once := Finished;
      threads := threads[i := Returned];
    }

    ghost method NoteInTime()
      modifies `detachedInTime
      ensures detachedInTime == (old(detachedInTime) || !parentDone)
    {
      if !parentDone { detachedInTime := true; }
    }

    /** The watcher takes one of the ready channels; choosing one that is not ready does nothing. */
    method Select(choice: nat)
      requires Valid() && threads[0].Watching?
      modifies `threads
      ensures Valid()
    {
      if choice == 0 && parentDone {
        threads := threads[0 := ParentSeen];
      } else if (choice == 1 && doneClosings > 0) || (choice == 2 && detachClosings > 0) {
        threads := threads[0 := Returned];
      }
    }

    /** The critical section of Detach; a second call returns at once. */
    method EnterDetach(i: nat)
      requires Valid() && i < |threads| && threads[i].Detaching?
      modifies `threads, `detached, `detachedInTime
      ensures Valid() && detached && (old(detachedInTime) ==> detachedInTime)
    {
      if detached {
        threads := threads[i := Returned];
        NoteInTime();
        return;
      }
      detached := true;
      threads := threads[i := ClosesDetach];
    }

    /** Any run. */
    method Run(steps: seq<Step>)
      requires Valid()
      modifies this
      ensures Valid() && Keeps()
    {
      for i := 0 to |steps|
        invariant Valid() && Keeps()
      {
        Act(steps[i]);
      }
    }

    /** Once Detach has returned while the parent was alive, only a call of Cancel can close `done`. */
    lemma {:induction false} OnlyCancelCloses()
      requires Valid() && detachedInTime && doneClosings > 0
      ensures cancelCalls > 0 && err == Some(Canceled)
    {
    }
  }
}
