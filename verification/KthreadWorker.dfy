/** A kernel thread that works off a list (kthread.c), whoever queues works or waits for the list
    to be flushed being free to act between any two of its steps. Each method is one step. */
module KthreadWorker {
  import opened Sequences

  /** A work on the list: somebody's, or the one a flusher queues for itself. */
  datatype Entry = Plain(work: nat) | FlushWork(flusher: nat)

  /** Where the attached thread stands in kthread_worker_fn */
  datatype Pc =
    | Detached
    | Repeat
    | Marked               // state set, before the test for a stop
    | Looking              // about to look at the list
    | Taken(entry: Entry)      // off the list, its function not yet returned
    | Signalled(entry: Entry)  // a flusher's function that has called complete
    | Idle                 // found nothing, about to call schedule
    | Asleep

  /** Where a call of flush_kthread_worker stands; ticket numbers its work among all ever queued */
  datatype Flush = Fresh | Pending(ticket: nat) | Returned(ticket: nat)

  ghost predicate TicketIs(flush: Flush, t: nat) {
    !flush.Fresh? && flush.ticket == t
  }

  /** A completion is signalled by the flusher's own work, and so after all before it; until that has
      returned, the worker stands just behind the signal. */
  ghost predicate FlushRight(flush: Flush, done: bool, f: nat, queued: seq<Entry>, finished: nat, pc: Pc) {
    match flush
    case Fresh => !done
    case Pending(t) =>
      && t < |queued| && queued[t] == FlushWork(f)
      && (if done then t < finished || (t == finished && pc.Signalled?)
          else t >= finished && !(pc.Signalled? && t == finished))
    case Returned(t) =>
      t < |queued| && queued[t] == FlushWork(f) && done && (t < finished || (t == finished && pc.Signalled?))
  }

  lemma FlushRightGrows(flush: Flush, done: bool, f: nat, queued: seq<Entry>, e: Entry, finished: nat, pc: Pc, pc': Pc)
    requires FlushRight(flush, done, f, queued, finished, pc) && pc'.Signalled? == pc.Signalled?
    ensures FlushRight(flush, done, f, queued + [e], finished, pc')
  {
  }

  lemma FlushRightNew(f: nat, queued: seq<Entry>, finished: nat, pc: Pc)
    requires finished <= |queued| && (pc.Signalled? ==> finished < |queued|)
    ensures FlushRight(Pending(|queued|), false, f, queued + [FlushWork(f)], finished, pc)
  {
  }

  /** Every flusher's work was queued once, by its flusher. */
  ghost predicate Known(queued: seq<Entry>, flushes: seq<Flush>) {
    forall t {:trigger queued[t]} :: 0 <= t < |queued| && queued[t].FlushWork? ==>
      queued[t].flusher < |flushes| && TicketIs(flushes[queued[t].flusher], t)
  }

  lemma {:induction false} KnownGrows(queued: seq<Entry>, flushes: seq<Flush>, f: nat)
    requires Known(queued, flushes) && f < |flushes| && flushes[f].Fresh?
    ensures Known(queued + [FlushWork(f)], flushes[f := Pending(|queued|)])
  {
    var queued' := queued + [FlushWork(f)];
    forall t | 0 <= t < |queued| ensures queued'[t] == queued[t] && queued[t] != FlushWork(f) {
    }
  }

  class Worker {
    var workList: seq<Entry>
    var attached: bool            // worker->task is not NULL
    var interruptible: bool       // the thread's state, as against TASK_RUNNING
    var shouldStop: bool          // of the attached thread
    var pc: Pc
    var done: seq<bool>           // the completion on each flusher's stack
    ghost var flushes: seq<Flush>
    ghost var queued: seq<Entry>  // all works ever queued, in order
    ghost var finished: nat       // how many of them have returned from their functions

    ghost function Pipeline(): seq<Entry>
      reads this
    {
      (if pc.Taken? || pc.Signalled? then [pc.entry] else []) + workList
    }

    /** The works that have not finished are, in the order of queueing, the one being executed
        and those on the list. */
    ghost predicate InOrder()
      reads this
    {
      finished <= |queued| && queued[finished..] == Pipeline()
    }

    /** A work is on the list at most once. */
    ghost predicate OnListOnce()
      reads this
    {
      NoDuplicates(workList)
    }

    ghost predicate SignalsRight()
      reads this
    {
      pc.Signalled? ==> pc.entry.FlushWork?
    }

    ghost predicate FlushesRight()
      reads this
    {
      && |done| == |flushes| && Known(queued, flushes)
      && (forall f {:trigger flushes[f]} :: 0 <= f < |flushes| ==>
        FlushRight(flushes[f], done[f], f, queued, finished, pc))
    }

    /** A thread that has found nothing to do and will sleep, or sleeps, has missed nothing. */
    ghost predicate NoLostWakeup()
      reads this
    {
      && ((pc.Idle? || pc.Asleep?) && interruptible ==> workList == [])
      && ((pc.Looking? || pc.Idle? || pc.Asleep?) && interruptible ==> !shouldStop)
      && (pc.Asleep? ==> interruptible)
      && (attached <==> !pc.Detached?)
    }

    ghost predicate Valid()
      reads this
    {
      InOrder() && OnListOnce() && FlushesRight() && NoLostWakeup() && SignalsRight()
    }

    constructor (flushers: nat)
      ensures Valid() && workList == [] && queued == [] && pc.Detached? && !attached && |flushes| == flushers
      ensures forall f :: 0 <= f < flushers ==> flushes[f].Fresh?
    {
      workList, attached, interruptible, shouldStop, pc := [], false, false, false, Detached;
      done, flushes := seq(flushers, f => false), seq(flushers, f => Fresh);
      queued, finished := [], 0;
    }

    // ----------------------------------------------------------------
    // Queueing
    // ----------------------------------------------------------------

    /** wake_up_process on the attached thread */
    method WakeUpProcess()
      modifies `interruptible, `pc
      ensures !interruptible && pc == if old(pc).Asleep? then Repeat else old(pc)
    {
      if pc.Asleep? {
        pc := Repeat;
      }
      interruptible := false;
    }

    /** The part of queue_kthread_work under the lock, for a work that is not on the list */
    method Append(e: Entry)
      requires InOrder() && OnListOnce() && NoLostWakeup() && e !in workList
      modifies `workList, `interruptible, `pc, `queued
      ensures InOrder() && OnListOnce() && NoLostWakeup()
      ensures workList == old(workList) + [e] && queued == old(queued) + [e]
      ensures pc == if attached && old(pc).Asleep? then Repeat else old(pc)
      ensures interruptible == (!attached && old(interruptible))
    {
      assert (queued + [e])[finished..] == queued[finished..] + [e];
      workList := workList + [e];
      queued := queued + [e];
      if attached {
        WakeUpProcess();
      }
    }

    /** queue_kthread_work: a work already waiting is not queued again; one being executed may
        be. */
    method QueueKthreadWork(work: nat) returns (ret: bool)
      requires Valid()
      modifies `workList, `interruptible, `pc, `queued
      ensures Valid() && ret == (Plain(work) !in old(workList))
      ensures workList == if ret then old(workList) + [Plain(work)] else old(workList)
      ensures queued == if ret then old(queued) + [Plain(work)] else old(queued)
      ensures ret && attached ==> !interruptible && !pc.Asleep?
      ensures !ret ==> interruptible == old(interruptible) && pc == old(pc)
    {
      ret := false;
      if Plain(work) !in workList {
        Append(Plain(work));
        ret := true;
      }
    }

    /** flush_kthread_worker up to its wait: its own work goes behind all that are there. */
    method FlushKthreadWorker(f: nat)
      requires Valid() && f < |flushes| && flushes[f].Fresh?
      modifies `workList, `interruptible, `pc, `queued, `flushes
      ensures Valid() && flushes == old(flushes)[f := Pending(old(|queued|))]
      ensures workList == old(workList) + [FlushWork(f)] && queued == old(queued) + [FlushWork(f)]
      ensures old(Pipeline()) == queued[finished..old(|queued|)]
    {
      hide FlushRight, TicketIs, Known;
      NotYetQueued(f);
      KnownGrows(queued, flushes, f);
      ghost var ticket, was, at, known := |queued|, queued, pc, flushes;
      Append(FlushWork(f));
      flushes := flushes[f := Pending(ticket)];
      forall g | 0 <= g < |flushes| ensures FlushRight(flushes[g], done[g], g, queued, finished, pc) {
        if g != f {
          FlushRightGrows(known[g], done[g], g, was, FlushWork(f), finished, at, pc);
        } else {
          FlushRightNew(f, was, finished, pc);
        }
      }
    }

    lemma NotYetQueued(f: nat)
      requires Valid() && f < |flushes| && flushes[f].Fresh?
      ensures FlushWork(f) !in workList && !done[f] && finished <= |queued|
      ensures pc.Signalled? ==> finished < |queued|
    {
      if FlushWork(f) in workList {
        OnlyQueued(FlushWork(f));
      }
      if pc.Signalled? { Head(); }
      assert FlushRight(flushes[f], done[f], f, queued, finished, pc);
    }

    lemma OnlyQueued(e: Entry)
      requires InOrder() && e in workList
      ensures e in queued
    {
      var i :| 0 <= i < |workList| && workList[i] == e;
      var k := if pc.Taken? || pc.Signalled? then i + 1 else i;
      assert Pipeline()[k] == e;
      assert queued[finished..][k] == queued[finished + k];
    }

    /** The wait ends when the completion has been signalled. */
    method FlushReturns(f: nat)
      requires Valid() && f < |flushes| && flushes[f].Pending? && done[f]
      modifies `flushes
      ensures Valid() && flushes == old(flushes)[f := Returned(old(flushes[f]).ticket)]
    {
      flushes := flushes[f := Returned(flushes[f].ticket)];
    }

    /** Once flush_kthread_worker has returned, every work numbered before its own, and that is
        every one that was queued or being executed when it queued its own, has finished. */
    lemma FlushedAllBefore(f: nat)
      requires Valid() && f < |flushes| && flushes[f].Returned?
      ensures flushes[f].ticket <= finished <= |queued| && Pipeline() == queued[finished..]
    {
    }

    /** A flusher that has returned takes its work with it, as that lies on its stack. The worker still
        has to do with it in one case only: when it has signalled the completion and not yet come
        back from there to write done_seq and read flushing. */
    lemma UsedAfterReturn(f: nat)
      requires Valid() && f < |flushes| && flushes[f].Returned?
      ensures FlushWork(f) in Pipeline() <==> pc == Signalled(FlushWork(f))
    {
      var t := flushes[f].ticket;
      assert queued[finished..] == Pipeline();
      forall k | 0 <= k < |Pipeline()| && Pipeline()[k] == FlushWork(f) ensures k == 0 && t == finished {
        assert queued[finished + k] == queued[finished..][k] == FlushWork(f);
      }
      if pc == Signalled(FlushWork(f)) {
        assert Pipeline()[0] == FlushWork(f);
      }
    }

    /** While a flush waits, its work stands in line behind exactly the unfinished works that were
        queued before it; and an attached thread neither sleeps nor is about to. */
    lemma FlushWaitsFor(f: nat)
      requires Valid() && f < |flushes| && flushes[f].Pending? && !done[f]
      ensures finished <= flushes[f].ticket < finished + |Pipeline()|
      ensures Pipeline()[flushes[f].ticket - finished] == FlushWork(f)
      ensures attached ==> !pc.Asleep? && (pc.Idle? ==> !interruptible)
    {
      var t := flushes[f].ticket;
      assert queued[finished..][t - finished] == queued[t];
    }

    // ----------------------------------------------------------------
    // The thread
    // ----------------------------------------------------------------

    /** A thread starts kthread_worker_fn: a new one, that nobody has told to stop yet. */
    method Attach()
      requires Valid() && !attached
      modifies `attached, `pc, `interruptible, `shouldStop
      ensures Valid() && attached && pc.Repeat? && !shouldStop && !interruptible
    {
      attached, pc, interruptible, shouldStop := true, Repeat, false, false;
    }

    /** kthread_stop */
    method Stop()
      requires Valid() && attached
      modifies `shouldStop, `interruptible, `pc
      ensures Valid() && shouldStop && !interruptible && pc == if old(pc).Asleep? then Repeat else old(pc)
    {
      shouldStop := true;
      WakeUpProcess();
    }

    method SetState()
      requires Valid() && pc.Repeat?
      modifies `interruptible, `pc
      ensures Valid() && pc.Marked? && interruptible
    {
      interruptible, pc := true, Marked;
    }

    method TestStop()
      requires Valid() && pc.Marked?
      modifies `interruptible, `pc, `attached
      ensures Valid() && if shouldStop then pc.Detached? && !attached else pc.Looking? && attached
      ensures interruptible == (!shouldStop && old(interruptible))
    {
      if shouldStop {
        interruptible, attached, pc := false, false, Detached;
      } else {
        pc := Looking;
      }
    }

    /** Under the lock */
    method TakeFirst()
      requires Valid() && pc.Looking?
      modifies `workList, `interruptible, `pc
      ensures Valid()
      ensures if old(workList) == [] then pc.Idle? && workList == []
              else pc == Taken(old(workList)[0]) && workList == old(workList)[1..]
      ensures interruptible == (old(workList) == [] && old(interruptible))
    {
      if workList != [] {
        interruptible, pc, workList := false, Taken(workList[0]), workList[1..];
      } else {
        pc := Idle;
      }
    }

    /** The function of an ordinary work returns. */
    method Execute()
      requires Valid() && pc.Taken? && pc.entry.Plain?
      modifies `pc, `finished
      ensures Valid() && pc.Repeat? && finished == old(finished) + 1
      ensures old(finished) < |queued| && queued[old(finished)] == old(pc.entry)
    {
      Head();
      pc, finished := Repeat, finished + 1;
    }

    /** That of a flusher's work signals the completion, */
    method Complete()
      requires Valid() && pc.Taken? && pc.entry.FlushWork?
      modifies `pc, `done
      ensures Valid() && pc == Signalled(old(pc.entry))
      ensures old(pc.entry.flusher) < old(|done|) && done == old(done)[old(pc.entry.flusher) := true]
    {
      Head();
      var f := pc.entry.flusher;
      assert queued[finished] == FlushWork(f);
      assert f < |flushes|;
      done := done[f := true];
      pc := Signalled(pc.entry);
    }

    /** and returns. */
    method CompleteReturns()
      requires Valid() && pc.Signalled?
      modifies `pc, `finished
      ensures Valid() && pc.Repeat? && finished == old(finished) + 1
      ensures old(finished) < |queued| && queued[old(finished)] == old(pc.entry)
    {
      Head();
      pc, finished := Repeat, finished + 1;
    }

    lemma Head()
      requires InOrder() && (pc.Taken? || pc.Signalled?)
      ensures finished < |queued| && queued[finished] == pc.entry && queued[finished + 1..] == workList
    {
      assert Pipeline()[0] == pc.entry && Pipeline()[1..] == workList;
      assert queued[finished..][0] == queued[finished];
      assert queued[finished..][1..] == queued[finished + 1..];
    }

    /** schedule(): the thread sleeps unless somebody has woken it since it set its state. */
    method Schedule()
      requires Valid() && pc.Idle?
      modifies `pc
      ensures Valid() && pc == if interruptible then Asleep else Repeat
      ensures pc.Asleep? ==> workList == [] && queued == queued[..finished]
    {
      pc := if interruptible then Asleep else Repeat;
      assert pc.Asleep? ==> queued[finished..] == [];
    }
  }

  /** And that case arises: the flusher returns between complete and the worker's next step. */
  method StackGone() returns (w: Worker)
    ensures fresh(w) && w.Valid() && |w.flushes| == 1 && w.flushes[0].Returned? && w.pc == Signalled(FlushWork(0))
  {
    hide *;
    w := new Worker(1);
    w.FlushKthreadWorker(0);
    w.Attach();
    w.SetState();
    w.TestStop();
    w.TakeFirst();
    w.Complete();
    w.FlushReturns(0);
  }
}
