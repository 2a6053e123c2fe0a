/**
 process_callback_retry_entry as code: it is shown to do exactly what a task of the machine in
 CallbackDelivery does, whatever others do while it awaits.
 */
module CallbackWorker {
  import opened Awaiting
  import opened Numbers
  import opened Options
  import opened CallbackRetry
  import opened CallbackDelivery
  import opened CallbackCalls

  datatype Result = Ok | Err

  /** Steps that another task or the environment makes. */
  predicate IsForeign(l: Label, t: TaskId) {
    match l
    case Act(u, _) => u != t
    case Crash(u) => u != t
    case _ => true
  }

  lemma ForeignKeepsTask(cfg: Config, s: State, l: Label, t: TaskId)
    requires Next(cfg, s, l).Some? && IsForeign(l, t) && t in s.tasks && t != s.nextTask
    ensures var s' := Next(cfg, s, l).value;
      t in s'.tasks && s'.tasks[t] == s.tasks[t] && s.entries <= s'.entries && s.clock <= s'.clock
  {
    if l.Act? { hide AfterFailedPost, PlanFor; }
  }

  lemma RunExtends(cfg: Config, ls: seq<Label>, l: Label)
    requires Run(cfg, ls).Some?
    ensures Run(cfg, ls + [l]) == Next(cfg, Run(cfg, ls).value, l)
  {
    assert (ls + [l])[..|ls|] == ls;
    hide Next;
  }

  /** A step after which the task is gone was its last. */
  lemma ExitReturns(cfg: Config, s: State, t: TaskId, o: Outcome, cs: seq<Call>)
    requires t in s.tasks && InStep(cfg, s, t, cs)
    ensures t !in ActStep(cfg, s, t, o).tasks ==>
      Returned(cfg, s.entries[s.tasks[t].entry].fields, cs + [Call(s.tasks[t], o)])
  {
    if Ends(Call(s.tasks[t], o)) {
      LastCallReturns(cfg, s.entries[s.tasks[t].entry].fields, cs, Call(s.tasks[t], o));
    }
    hide AfterFailedPost, PlanFor, Scripted, Returned;
  }

  /** What the machine does at an append. */
  lemma AppendActs(cfg: Config, s: State, t: TaskId, next: Fields, at: nat, o: Outcome)
    requires t in s.tasks && s.tasks[t].entry < |s.entries| && s.tasks[t].pc == Append(next, at)
    ensures var e := s.tasks[t].entry; var s' := ActStep(cfg, s, t, o);
      && s'.(tasks := s.tasks) == (if o.Lost? then s else XAdd(s, Entry(next, Some(Origin(e, at)))))
      && s'.tasks == if o.Done? then s.tasks[t := Task(e, AckEntry)] else s.tasks - {t}
  {
    hide AfterFailedPost, PlanFor;
  }

  class Service {
    const cfg: Config
    var state: State
    ghost var run: seq<Label>

    ghost predicate Valid()
      reads this
    {
      Run(cfg, run) == Some(state)
    }

    /** Task t handles entry e, whose fields are f, and stands at pc. */
    ghost predicate At(t: TaskId, e: EntryId, f: Fields, pc: Pc)
      reads this
    {
      && Valid() && t in state.tasks && state.tasks[t] == Task(e, pc)
      && e < |state.entries| && state.entries[e].fields == f
    }

    ghost predicate Gone(t: TaskId)
      reads this
    {
      Valid() && t !in state.tasks
    }

    /** The steps task t has made. */
    ghost function Past(t: TaskId): seq<Call>
      requires Valid()
      reads this
    {
      Calls(cfg, run, t)
    }

    /** Task t has returned; its last call succeeded, or failed. */
    ghost predicate Ended(t: TaskId, f: Fields, ok: bool)
      reads this
    {
      Gone(t) && Returned(cfg, f, Past(t)) && Past(t)[|Past(t)| - 1].outcome.Done? == ok
    }

    constructor (cfg: Config)
      ensures Valid() && state == INIT && this.cfg == cfg
    {
      this.cfg, state, run := cfg, INIT, [];
    }

    /** Any steps of others, while task t awaits. */
    method Others(t: TaskId)
      requires Valid() && t in state.tasks
      modifies this
      ensures Valid() && t in state.tasks && state.tasks[t] == old(state.tasks[t])
      ensures old(state.entries) <= state.entries && Past(t) == old(Past(t))
    {
      var n: nat := *;
      while n > 0
        invariant Valid() && t in state.tasks && state.tasks[t] == old(state.tasks[t])
        invariant old(state.entries) <= state.entries && Past(t) == old(Past(t))
      {
        hide Next, Run, Calls;
        n := n - 1;
        var l: Label := *;
        var next := Next(cfg, state, l);
        if IsForeign(l, t) && next.Some? {
          NoCallbackIsForgotten(cfg, run);
          ForeignKeepsTask(cfg, state, l, t);
          RunExtends(cfg, run, l);
          CallsExtend(cfg, run, l, t);
          state := next.value;
          run := run + [l];
        }
      }
    }

    /** Task t has had the effect of its next step, with outcome o; it moves on. */
    method Follow(before: State, t: TaskId, o: Outcome)
      requires Run(cfg, run) == Some(before) && t in before.tasks && before.tasks[t].entry < |before.entries|
      requires state == ActStep(cfg, before, t, o).(tasks := before.tasks)
      modifies this
      ensures Valid() && state == ActStep(cfg, before, t, o)
      ensures Past(t) == Calls(cfg, old(run), t) + [Call(before.tasks[t], o)]
      ensures t !in state.tasks ==> Returned(cfg, before.entries[before.tasks[t].entry].fields, Past(t))
    {
      CallsKeepToTheScript(cfg, run, t);
      ExitReturns(cfg, before, t, o, Calls(cfg, run, t));
      hide ActStep, Run, Calls, Scripted, Returned, InStep;
      RunExtends(cfg, run, Act(t, o));
      CallsExtend(cfg, run, Act(t, o), t);
      run := run + [Act(t, o)];
      state := ActStep(cfg, before, t, o);
    }

    /** The XADD of enqueue_callback_retry_raw, from the state it met. */
    method AppendOnce(t: TaskId, e: EntryId, ghost f: Fields, next: Fields, at: nat)
      returns (o: Outcome, ghost before: State)
      requires At(t, e, f, Append(next, at))
      modifies this
      ensures t in before.tasks && before.tasks[t] == Task(e, Append(next, at))
      ensures e < |before.entries| && before.entries[e].fields == f
      ensures Valid() && state == ActStep(cfg, before, t, o)
      ensures Past(t) == old(Past(t)) + [Call(Task(e, Append(next, at)), o)]
      ensures t !in state.tasks ==> Returned(cfg, f, Past(t))
    {
      Others(t);
      hide Run, Calls, Returned, ActStep;
      before := state;
      var was := state;
      o := *;
      AppendActs(cfg, was, t, next, at, o);
      if !o.Lost? {
        var entry := Entry(next, Some(Origin(e, at)));
        state := state.(unread := state.unread + {|state.entries|}, entries := state.entries + [entry]);
      }
      Follow(was, t, o);
    }

    /** enqueue_callback_retry_raw. */
    method EnqueueRetry(t: TaskId, e: EntryId, ghost f: Fields, next: Fields, at: nat) returns (r: Result)
      requires At(t, e, f, Append(next, at))
      modifies this
      ensures if r.Ok? then At(t, e, f, AckEntry) else Ended(t, f, false)
      ensures r.Ok? ==> var last := |state.entries| - 1;
        last in state.unread && state.entries[last] == Entry(next, Some(Origin(e, at)))
    {
      hide Run, Calls, Returned, ActStep;
      var o;
      ghost var before;
      o, before := AppendOnce(t, e, f, next, at);
      AppendActs(cfg, before, t, next, at, o);
      return if o.Done? then Ok else Err;
    }

    /** enqueue_callback_dlq. */
    method EnqueueDlq(t: TaskId, e: EntryId, f: Fields) returns (r: Result)
      requires At(t, e, f, DeadLetter)
      modifies this
      ensures if r.Ok? then At(t, e, f, AckEntry) else Ended(t, f, false)
      ensures r.Ok? ==> f.callback in state.deadLettered
    {
      Others(t);
      hide Run, Calls, Returned, AfterFailedPost, PlanFor;
      var before := state;
      var o: Outcome := *;
      if !o.Lost? {
        state := state.(deadLettered := state.deadLettered + {f.callback});
      }
      Follow(before, t, o);
      return if o.Done? then Ok else Err;
    }

    /** ack_callback_retry. */
    method AckRetry(t: TaskId, e: EntryId, ghost f: Fields) returns (r: Result)
      requires At(t, e, f, AckEntry)
      modifies this
      ensures Ended(t, f, r.Ok?) && (r.Ok? ==> e in state.acked)
    {
      Others(t);
      hide Run, Calls, Returned, AfterFailedPost, PlanFor;
      NoCallbackIsForgotten(cfg, run);
      assert TaskOk(state, state.tasks[t]);
      hide Kept;
      var before := state;
      var o: Outcome := *;
      if !o.Lost? && e in state.pending {
        state := state.(pending := state.pending - {e}, acked := state.acked + {e});
      }
      Follow(before, t, o);
      return if o.Done? then Ok else Err;
    }

    /** post_callback: an error may hide a delivery. */
    method PostCallback(t: TaskId, e: EntryId, f: Fields, at: nat) returns (r: Result)
      requires At(t, e, f, PostNow(at))
      modifies this
      ensures At(t, e, f, if r.Ok? then AckEntry else AfterFailedPost(cfg, f, at))
    {
      Others(t);
      hide Run, Calls, AfterFailedPost;
      var before := state;
      var o: Outcome := *;
      state := state.(posts := state.posts + [PostEvent(e, state.clock)]);
      if !o.Lost? {
        state := state.(delivered := state.delivered + {f.callback});
      }
      Follow(before, t, o);
      return if o.Done? then Ok else Err;
    }

    /** The clock is read once, before the decision. */
    method ReadClock(t: TaskId, e: EntryId, f: Fields) returns (now: nat)
      requires At(t, e, f, Begin)
      modifies this
      ensures ReadDue(f.due) > now ==> At(t, e, f, Append(Fields(f.callback, f.attempt, WriteDue(ReadDue(f.due))), now))
      ensures ReadDue(f.due) <= now ==> At(t, e, f, PostNow(now))
    {
      Others(t);
      hide Run, Calls, ReadDue, WriteDue;
      now := state.clock;
      var before := state;
      Follow(before, t, Done);
    }

    /** What follows a failed post. */
    method AfterError(t: TaskId, e: EntryId, f: Fields, now: nat) returns (r: Result)
      requires At(t, e, f, AfterFailedPost(cfg, f, now))
      modifies this
      ensures if r.Ok? then At(t, e, f, AckEntry) else Ended(t, f, false)
    {
      hide Run, RetryDelay, WriteDue;
      if f.attempt >= cfg.maxAttempts {
        r := EnqueueDlq(t, e, f);
      } else {
        var next := Min(f.attempt + 1, U32_MAX);
        var delay := RetryDelay(cfg, next);
        r := EnqueueRetry(t, e, f, Fields(f.callback, next, WriteDue(SatAdd(now, delay))), now);
      }
    }

    /**
     The handling of one retry entry. Its calls are a run of the machine in which the task has returned, by the
     script; it reports success exactly if its last call succeeded, and then the entry is acknowledged.
     */
    method ProcessCallbackRetryEntry(t: TaskId, e: EntryId, f: Fields) returns (r: Result)
      requires At(t, e, f, Begin)
      modifies this
      ensures Ended(t, f, r.Ok?) && (r.Ok? ==> e in state.acked)
    {
      hide Run, ReadDue, WriteDue, AfterFailedPost;
      var now := ReadClock(t, e, f);
      if ReadDue(f.due) > now {
        r := EnqueueRetry(t, e, f, Fields(f.callback, f.attempt, WriteDue(ReadDue(f.due))), now);
      } else {
        r := PostCallback(t, e, f, now);
        if r.Err? {
          r := AfterError(t, e, f, now);
        }
      }
      if r.Ok? {
        r := AckRetry(t, e, f);
      }
    }

    /** An entry read from the group, or claimed back from it, is handled by a new task. */
    method DeliverEntry(e: EntryId, reclaimed: bool) returns (r: Result)
      requires Valid() && (if reclaimed then e in state.pending else e in state.unread)
      modifies this
      ensures Valid() && (r.Ok? ==> e in state.acked)
    {
      NoCallbackIsForgotten(cfg, run);
      hide Run, Calls;
      var l := if reclaimed then Claim(e) else Read(e);
      RunExtends(cfg, run, l);
      var t, f := state.nextTask, state.entries[e].fields;
      state := Next(cfg, state, l).value;
      run := run + [l];
      r := ProcessCallbackRetryEntry(t, e, f);
    }
  }
}
