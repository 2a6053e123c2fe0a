/**
 process_stream_entry and process_job as code. Every awaited call lets any other worker, reclaimer, crash or
 expiry of the machine in JobQueue go first, then has its effect, or fails with or without it. The code is
 shown to do exactly what the machine's task does.
 */
module JobWorker {
  import opened Awaiting
  import opened Options
  import opened JobQueue
  import opened JobCalls
  import JobDelivery

  datatype Result<T> = Ok(value: T) | Err

  /** Steps that another task or the environment makes. */
  predicate IsForeign(l: Label, t: TaskId) {
    match l
    case Act(u, _) => u != t
    case Crash(u) => u != t
    case _ => true
  }

  lemma ForeignKeepsTask(cfg: Config, s: State, l: Label, t: TaskId)
    requires Next(cfg, s, l).Some? && IsForeign(l, t) && t in s.tasks && t != s.nextTask
    ensures var s' := Next(cfg, s, l).value; t in s'.tasks && s'.tasks[t] == s.tasks[t]
  {
    if l.Act? { hide MoveOf; }
  }

  lemma AckedStays(cfg: Config, s: State, l: Label, r: Ref)
    requires Next(cfg, s, l).Some? && r in s.db.acked
    ensures r in Next(cfg, s, l).value.db.acked
  {
    if l.Act? { MoveKeepsAcked(cfg, s.db, l.task, s.tasks[l.task], l.outcome, r); hide MoveOf; }
  }

  lemma MoveKeepsAcked(cfg: Config, db: Redis, t: TaskId, task: Task, o: Outcome, r: Ref)
    requires r in db.acked
    ensures r in MoveOf(cfg, db, t, task, o).db.acked
  {
  }

  lemma RunExtends(cfg: Config, ls: seq<Label>, l: Label)
    requires Run(cfg, ls).Some?
    ensures Run(cfg, ls + [l]) == Next(cfg, Run(cfg, ls).value, l)
  {
    assert (ls + [l])[..|ls|] == ls;
    hide Next;
  }

  lemma EntryInHand(cfg: Config, ls: seq<Label>, t: TaskId)
    requires Run(cfg, ls).Some? && t in Run(cfg, ls).value.tasks
    ensures var s := Run(cfg, ls).value; s.tasks[t].ref in s.db.pending || s.tasks[t].ref in s.db.acked
  {
    JobDelivery.NoJobIsLost(cfg, ls);
    hide Run;
    assert JobDelivery.InHand(Run(cfg, ls).value.db, Run(cfg, ls).value.tasks[t]);
  }

  class Service {
    const cfg: Config
    var state: State
    ghost var run: seq<Label>

    ghost predicate Valid()
      reads this
    {
      Run(cfg, run) == Some(state)
    }

    /** Task t handles entry r and stands at pc. */
    ghost predicate At(t: TaskId, r: Ref, job: Job, pc: Pc)
      reads this
    {
      Valid() && t in state.tasks && state.tasks[t] == Task(r, job, pc)
    }

    /** The last call of task t made process_job fail. */
    ghost predicate BrokeOff(t: TaskId)
      requires Valid()
      reads this
    {
      Past(t) != [] && Breaks(Past(t)[|Past(t)| - 1])
    }

    /** Task t has returned. */
    ghost predicate Gone(t: TaskId)
      reads this
    {
      Valid() && t !in state.tasks
    }

    /** The calls task t has made. */
    ghost function Past(t: TaskId): seq<Call>
      requires Valid()
      reads this
    {
      Calls(cfg, run, t)
    }

    constructor (cfg: Config)
      ensures Valid() && state == INIT && this.cfg == cfg
    {
      this.cfg, state, run := cfg, INIT, [];
    }

    /** Any steps of others, while task t awaits. */
    method Others(t: TaskId)
      requires Valid() && t in state.tasks
      modifies this
      ensures Valid() && t in state.tasks && state.tasks[t] == old(state.tasks[t])
      ensures old(state.db.acked) <= state.db.acked && Past(t) == old(Past(t))
    {
      var n: nat := *;
      while n > 0
        invariant Valid() && t in state.tasks && state.tasks[t] == old(state.tasks[t])
        invariant old(state.db.acked) <= state.db.acked && Past(t) == old(Past(t))
      {
        hide Next, Run, Calls;
        n := n - 1;
        var l: Label := *;
        var next := Next(cfg, state, l);
        if IsForeign(l, t) && next.Some? {
          JobDelivery.NoJobIsLost(cfg, run);
          ForeignKeepsTask(cfg, state, l, t);
          forall r | r in state.db.acked ensures r in next.value.db.acked { AckedStays(cfg, state, l, r); }
          RunExtends(cfg, run, l);
          CallsExtend(cfg, run, l, t);
          state := next.value;
          run := run + [l];
        }
      }
    }

    /** Task t has had the effect of its next await, with outcome o; it moves on. */
    method Follow(before: State, t: TaskId, o: Outcome)
      requires Run(cfg, run) == Some(before) && t in before.tasks
      requires state == Land(before, t, MoveOf(cfg, before.db, t, before.tasks[t], o)).(tasks := before.tasks)
      modifies this
      ensures Valid() && state == Land(before, t, MoveOf(cfg, before.db, t, before.tasks[t], o))
      ensures Past(t) == Calls(cfg, old(run), t) + [Call(before.tasks[t], o)]
    {
      hide MoveOf, Run, Calls;
      var m := MoveOf(cfg, before.db, t, before.tasks[t], o);
      RunExtends(cfg, run, Act(t, o));
      CallsExtend(cfg, run, Act(t, o), t);
      run := run + [Act(t, o)];
      state := Land(before, t, m);
    }

    // -------------------------------------------------------------- lease and attempts

    method AcquireJobLease(t: TaskId, ghost r: Ref, ghost job: Job, j: JobId)
      returns (got: Result<bool>, ghost o: Outcome)
      requires At(t, r, job, AcquireLease) && job.id == Some(j)
      modifies this
      ensures got == Ok(true) ==> At(t, r, job, CountAttempt) && j in state.db.leases && state.db.leases[j] == t
      ensures got != Ok(true) ==> Gone(t)
      ensures got == Ok(false) ==> j in state.db.leases
      ensures Valid() && Past(t) == old(Past(t)) + [Call(Task(r, job, AcquireLease), o)] && (got.Ok? <==> o.Done?)
    {
      Others(t);
      hide Run, Calls;
      var before := state;
      var reply: Outcome := *;
      o := reply;
      var free := j !in state.db.leases;
      if !reply.Lost? && free {
        state := state.(db := state.db.(leases := state.db.leases[j := t]));
      }
      Follow(before, t, reply);
      got := if reply.Done? then Ok(free) else Err;
    }

    /** INCR, then EXPIRE: the attempt as a u32. A delivery within the limit is recorded as started. */
    method IncrementJobDeliveryAttempt(t: TaskId, ghost r: Ref, ghost job: Job, j: JobId) returns (attempt: Result<nat>)
      requires At(t, r, job, CountAttempt) && job.id == Some(j)
      modifies this
      ensures attempt.Ok? ==> At(t, r, job, if attempt.value > cfg.maxDeliveryAttempts then CopyToDlq else CallUpstream)
      ensures attempt.Err? ==> Gone(t) && Stopped(Past(t))
    {
      hide Run, Calls;
      var ticket := Increment(t, r, job, j);
      if ticket.Err? {
        return Err;
      }
      attempt := Expire(t, r, job, ticket.value);
    }

    method Increment(t: TaskId, ghost r: Ref, ghost job: Job, j: JobId) returns (ticket: Result<Ticket>)
      requires At(t, r, job, CountAttempt) && job.id == Some(j)
      modifies this
      ensures ticket.Ok? ==> At(t, r, job, ExpireAttempt(ticket.value)) && Count(state.db, j) == ticket.value.attempt
      ensures ticket.Err? ==> Gone(t) && Stopped(Past(t))
    {
      Others(t);
      hide Run, Calls;
      var before := state;
      var o: Outcome := *;
      var k := Ticket(j, Epoch(state.db, j), Count(state.db, j) + 1);
      if !o.Lost? {
        state := state.(db := state.db.(counters := state.db.counters[j := k.attempt]));
      }
      if o.Done? {
        state := state.(issued := state.issued[t := k]);
      }
      Follow(before, t, o);
      return if o.Done? then Ok(k) else Err;
    }

    method Expire(t: TaskId, ghost r: Ref, ghost job: Job, ticket: Ticket) returns (attempt: Result<nat>)
      requires At(t, r, job, ExpireAttempt(ticket)) && job.id.Some?
      modifies this
      ensures attempt.Ok? ==> At(t, r, job, if attempt.value > cfg.maxDeliveryAttempts then CopyToDlq else CallUpstream)
      ensures attempt.Err? ==> Gone(t) && Stopped(Past(t))
    {
      Others(t);
      hide Run, Calls, AsU32;
      var before := state;
      var o: Outcome := *;
      var a := AsU32(ticket.attempt);
      if o.Done? && a <= cfg.maxDeliveryAttempts {
        state := state.(log := state.log + [Started(t, ticket)]);
      }
      Follow(before, t, o);
      return if o.Done? then Ok(a) else Err;
    }

    /** DEL of the lease key, whoever set it; an error is ignored. */
    method ReleaseJobLease(t: TaskId, ghost r: Ref, ghost job: Job, j: JobId) returns (ghost o: Outcome)
      requires At(t, r, job, ReleaseLease) && job.id == Some(j)
      modifies this
      ensures Gone(t) && old(state.db.acked) <= state.db.acked
      ensures !o.Lost? ==> j !in state.db.leases
      ensures Past(t) == old(Past(t)) + [Call(Task(r, job, ReleaseLease), o)]
    {
      Others(t);
      hide Run, Calls;
      var before := state;
      var reply: Outcome := *;
      o := reply;
      if !reply.Lost? {
        state := state.(db := state.db.(leases := state.db.leases - {j}));
      }
      Follow(before, t, reply);
    }

    /** DEL of the counter key, which ends this life of the counter; an error is ignored. */
    method ClearJobDeliveryAttempt(t: TaskId, ghost r: Ref, ghost job: Job, j: JobId) returns (ghost o: Outcome)
      requires At(t, r, job, ClearAttempts) && job.id == Some(j)
      modifies this
      ensures At(t, r, job, ReleaseLease) && old(state.db.acked) <= state.db.acked
      ensures !o.Lost? ==> j !in state.db.counters
      ensures Past(t) == old(Past(t)) + [Call(Task(r, job, ClearAttempts), o)]
    {
      Others(t);
      hide Run, Calls;
      var before := state;
      var reply: Outcome := *;
      o := reply;
      if !reply.Lost? && j in state.db.counters {
        var epochs := state.db.epochs[j := Epoch(state.db, j) + 1];
        state := state.(db := state.db.(counters := state.db.counters - {j}, epochs := epochs),
            log := state.log + [Reset(j)]);
      }
      Follow(before, t, reply);
    }

    // -------------------------------------------------------------- acknowledging

    /** XACK: whoever acknowledged the entry first, after a reply it is acknowledged. */
    method AckStreamEntry(t: TaskId, r: Ref, ghost job: Job, ghost pc: Pc) returns (ok: Result<()>)
      requires At(t, r, job, pc) && job.id.Some? && (pc == AckDlq || pc == AckDone)
      modifies this
      ensures ok.Ok? ==> At(t, r, job, if pc == AckDlq then ReleaseLease else ClearAttempts) && r in state.db.acked
      ensures ok.Ok? ==> Past(t) == old(Past(t)) + [Call(Task(r, job, pc), Done)]
      ensures ok.Err? ==> Gone(t) && Stopped(Past(t))
    {
      Others(t);
      hide Run, Calls;
      EntryInHand(cfg, run, t);
      var before := state;
      var o: Outcome := *;
      if !o.Lost? && r in state.db.pending {
        state := state.(
          db := state.db.(pending := state.db.pending - {r}, acked := state.db.acked + {r}),
          log := state.log + [Acked(t, r)]);
      }
      Follow(before, t, o);
      return if o.Done? then Ok(()) else Err;
    }

    /** The copy in the dead-letter stream. */
    method EnqueueJobDlq(t: TaskId, r: Ref, ghost job: Job) returns (ok: Result<()>)
      requires At(t, r, job, CopyToDlq) && job.id.Some?
      modifies this
      ensures if ok.Ok? then At(t, r, job, AckDlq) else Gone(t) && Stopped(Past(t))
    {
      Others(t);
      hide Run, Calls;
      var before := state;
      var o: Outcome := *;
      if !o.Lost? {
        state := state.(log := state.log + [DlqCopied(t, r)]);
      }
      Follow(before, t, o);
      return if o.Done? then Ok(()) else Err;
    }

    // -------------------------------------------------------------- process_job

    /** The upstream call: only an unusable configuration or body is an error. */
    method CallUpstreamOnce(t: TaskId, r: Ref, ghost job: Job) returns (ok: Result<()>)
      requires At(t, r, job, CallUpstream) && job.id.Some?
      modifies this
      ensures At(t, r, job, if ok.Ok? then StoreResult else ReleaseLease)
      ensures ok.Err? ==> BrokeOff(t)
    {
      Others(t);
      hide Run, Calls;
      var before := state;
      var o: Outcome := *;
      if !o.Lost? {
        state := state.(log := state.log + [Upstream(t, r)]);
      }
      Follow(before, t, o);
      return if o.Lost? then Err else Ok(());
    }

    /** store_result: SET of the result, then the publish that wakes waiters. */
    method StoreAndPublish(t: TaskId, r: Ref, job: Job) returns (ok: Result<()>)
      requires At(t, r, job, StoreResult) && job.id.Some?
      modifies this
      ensures At(t, r, job, if ok.Err? then ReleaseLease else if job.callback then PostCallback else AckDone)
      ensures ok.Err? ==> BrokeOff(t)
    {
      hide Run, Calls;
      ok := Store(t, r, job);
      if ok.Ok? {
        ok := Publish(t, r, job);
      }
    }

    method Store(t: TaskId, r: Ref, ghost job: Job) returns (ok: Result<()>)
      requires At(t, r, job, StoreResult) && job.id.Some?
      modifies this
      ensures At(t, r, job, if ok.Ok? then PublishResult else ReleaseLease)
      ensures ok.Err? ==> BrokeOff(t)
    {
      Others(t);
      hide Run, Calls;
      var before := state;
      var o: Outcome := *;
      if !o.Lost? {
        state := state.(log := state.log + [Stored(t, r)]);
      }
      Follow(before, t, o);
      return if o.Done? then Ok(()) else Err;
    }

    method Publish(t: TaskId, r: Ref, job: Job) returns (ok: Result<()>)
      requires At(t, r, job, PublishResult) && job.id.Some?
      modifies this
      ensures At(t, r, job, if ok.Err? then ReleaseLease else if job.callback then PostCallback else AckDone)
      ensures ok.Err? ==> BrokeOff(t)
    {
      Others(t);
      hide Run, Calls;
      var before := state;
      var o: Outcome := *;
      Follow(before, t, o);
      return if o.Done? then Ok(()) else Err;
    }

    /**
     The callback is posted. An answered post is the only call and the only event it adds; after any other the
     callback is queued for retry, and only if that fails as well does the job fail.
     */
    method NotifyCallback(t: TaskId, r: Ref, ghost job: Job)
      returns (ok: Result<()>, ghost post: Outcome, ghost retry: Outcome)
      requires At(t, r, job, PostCallback) && job.id.Some?
      modifies this
      ensures At(t, r, job, if ok.Ok? then AckDone else ReleaseLease)
      ensures ok.Ok? <==> post.Done? || retry.Done?
      ensures Past(t) == old(Past(t)) + NoticeCalls(Task(r, job, PostCallback), post, retry)
      ensures Mine(state.log, t) == old(Mine(state.log, t)) +
        (if post.Lost? then [] else [Posted(t, r, post.Done?)]) +
        (if post.Done? || retry.Lost? then [] else [RetryQueued(t, r)])
    {
      HistoryIsWhatCallsLeft(cfg, run, t);
      ghost var past, task := Past(t), Task(r, job, PostCallback);
      hide Run, Calls, Mine, Words;
      var o := PostOnce(t, r, job);
      post, retry := o, o;
      ok := Ok(());
      if !o.Done? {
        ok, retry := EnqueueRetry(t, r, job);
        assert Past(t) == past + ([Made(task, PostCallback, post)] + [Made(task, QueueRetry, retry)]);
      }
      NoticeWords(cfg, t, task, past, post, retry);
      HistoryIsWhatCallsLeft(cfg, run, t);
    }

    method PostOnce(t: TaskId, r: Ref, ghost job: Job) returns (o: Outcome)
      requires At(t, r, job, PostCallback) && job.id.Some?
      modifies this
      ensures At(t, r, job, if o.Done? then AckDone else QueueRetry)
      ensures Past(t) == old(Past(t)) + [Call(Task(r, job, PostCallback), o)]
    {
      Others(t);
      hide Run, Calls;
      var before := state;
      o := *;
      if !o.Lost? {
        state := state.(log := state.log + [Posted(t, r, o.Done?)]);
      }
      Follow(before, t, o);
    }

    method EnqueueRetry(t: TaskId, r: Ref, ghost job: Job) returns (ok: Result<()>, ghost o: Outcome)
      requires At(t, r, job, QueueRetry) && job.id.Some?
      modifies this
      ensures At(t, r, job, if ok.Ok? then AckDone else ReleaseLease)
      ensures ok.Ok? <==> o.Done?
      ensures Past(t) == old(Past(t)) + [Call(Task(r, job, QueueRetry), o)]
    {
      Others(t);
      hide Run, Calls;
      var before := state;
      var reply: Outcome := *;
      o := reply;
      if !reply.Lost? {
        state := state.(log := state.log + [RetryQueued(t, r)]);
      }
      Follow(before, t, reply);
      ok := if reply.Done? then Ok(()) else Err;
    }

    method ProcessJob(t: TaskId, r: Ref, job: Job) returns (ok: Result<()>)
      requires At(t, r, job, CallUpstream) && job.id.Some?
      modifies this
      ensures At(t, r, job, if ok.Ok? then AckDone else ReleaseLease)
      ensures ok.Err? ==> BrokeOff(t)
    {
      hide Run, Calls;
      ok := CallUpstreamOnce(t, r, job);
      if ok.Err? {
        return;
      }
      ok := StoreAndPublish(t, r, job);
      if ok.Err? {
        return;
      }
      if job.callback {
        ghost var post, retry;
        ok, post, retry := NotifyCallback(t, r, job);
      }
    }

    // -------------------------------------------------------------- process_stream_entry

    /**
     The whole delivery of one entry. Its calls, in whatever company, are a run of the machine in which the
     task has returned. It reports true after a whole burial or a whole service, and then the entry is
     acknowledged; false when the lease was another's; an error when a call failed or the job id is missing.
     */
    method ProcessStreamEntry(t: TaskId, r: Ref, job: Job) returns (done: Result<bool>)
      requires At(t, r, job, AcquireLease)
      modifies this
      ensures Gone(t)
      ensures done == Ok(true) ==> r in state.db.acked && Handled(cfg, Past(t), Task(r, job, AcquireLease))
      ensures done == Ok(false) ==> Past(t) == [Call(Task(r, job, AcquireLease), Done)]
      ensures done.Err? ==> job.id.None? || Stopped(Past(t))
    {
      CallsKeepToTheScript(cfg, run, t);
      hide Run, Calls;
      if job.id.None? {
        var before := state;
        Follow(before, t, Lost);
        return Err;
      }
      var j := job.id.value;
      ghost var o;
      done, o := AcquireJobLease(t, r, job, j);
      if done != Ok(true) {
        return;
      }
      var attempt := IncrementJobDeliveryAttempt(t, r, job, j);
      if attempt.Err? {
        return Err;
      }
      if attempt.value > cfg.maxDeliveryAttempts {
        done := Bury(t, r, job, j);
      } else {
        done := Serve(t, r, job, j);
      }
    }

    method Bury(t: TaskId, r: Ref, ghost job: Job, j: JobId) returns (done: Result<bool>)
      requires At(t, r, job, CopyToDlq) && job.id == Some(j)
      modifies this
      ensures Gone(t)
      ensures done.Ok? ==> done.value && r in state.db.acked && Handled(cfg, Past(t), Task(r, job, AcquireLease))
      ensures done.Err? ==> Stopped(Past(t))
    {
      hide Run, Calls, Handled, OnScript;
      var ok := EnqueueJobDlq(t, r, job);
      if ok.Err? {
        return Err;
      }
      CallsKeepToTheScript(cfg, run, t);
      ghost var past := Past(t);
      ok := AckStreamEntry(t, r, job, AckDlq);
      if ok.Err? {
        return Err;
      }
      ghost var released := ReleaseJobLease(t, r, job, j);
      BurialIsHandled(cfg, past, Task(r, job, AckDlq), released);
      return Ok(true);
    }

    method Serve(t: TaskId, r: Ref, job: Job, j: JobId) returns (done: Result<bool>)
      requires At(t, r, job, CallUpstream) && job.id == Some(j)
      modifies this
      ensures Gone(t)
      ensures done.Ok? ==> done.value && r in state.db.acked && Handled(cfg, Past(t), Task(r, job, AcquireLease))
      ensures done.Err? ==> Stopped(Past(t))
    {
      hide Run, Calls, Handled, OnScript;
      var ok := ProcessJob(t, r, job);
      if ok.Err? {
        ghost var released := ReleaseJobLease(t, r, job, j);
        return Err;
      }
      ok := AckStreamEntry(t, r, job, AckDone);
      if ok.Err? {
        return Err;
      }
      CallsKeepToTheScript(cfg, run, t);
      ghost var past := Past(t);
      ghost var cleared := ClearJobDeliveryAttempt(t, r, job, j);
      ghost var released := ReleaseJobLease(t, r, job, j);
      ServiceIsHandled(cfg, past, Task(r, job, ClearAttempts), cleared, released);
      return Ok(true);
    }

    /** An entry read from the group, or claimed back from it, is handled by a new task. */
    method DeliverEntry(r: Ref, reclaimed: bool) returns (done: Result<bool>)
      requires Valid() && (if reclaimed then r in state.db.pending else r in state.db.unread)
      modifies this
      ensures Valid() && (done == Ok(true) ==> r in state.db.acked)
    {
      JobDelivery.NoJobIsLost(cfg, run);
      hide Run, Calls;
      var l := if reclaimed then Claim(r) else Read(r);
      RunExtends(cfg, run, l);
      var t, job := state.nextTask, state.db.appended[r];
      state := Next(cfg, state, l).value;
      run := run + [l];
      done := ProcessStreamEntry(t, r, job);
    }
  }
}
