/**
 The calls of one delivery, taken from any run: in which order they come, which outcome leads where, how the
 delivery ends, and what each call leaves in the history.
 */
module JobCalls {
  import opened Awaiting
  import opened Options
  import opened JobQueue
  import JobDelivery

  /** A call that a task made: the task as it stood before, and how the call turned out. */
  datatype Call = Call(task: Task, outcome: Outcome)

  /** The calls of task t in a run, in order. */
  function Calls(cfg: Config, ls: seq<Label>, t: TaskId): seq<Call>
    requires Run(cfg, ls).Some?
  {
    if ls == [] then []
    else
      var before, l := ls[..|ls| - 1], ls[|ls| - 1];
      Calls(cfg, before, t) +
        if l.Act? && l.task == t then [Call(Run(cfg, before).value.tasks[t], l.outcome)] else []
  }

  lemma CallsExtend(cfg: Config, ls: seq<Label>, l: Label, t: TaskId)
    requires Run(cfg, ls).Some? && Run(cfg, ls + [l]).Some?
    ensures l.Act? && l.task == t ==>
      t in Run(cfg, ls).value.tasks
      && Calls(cfg, ls + [l], t) == Calls(cfg, ls, t) + [Call(Run(cfg, ls).value.tasks[t], l.outcome)]
    ensures !(l.Act? && l.task == t) ==> Calls(cfg, ls + [l], t) == Calls(cfg, ls, t)
  {
    assert (ls + [l])[..|ls|] == ls;
    hide MoveOf;
  }

  // ---------------------------------------------------------------- the script of a delivery

  /**
   What a delivery met on its way: its ticket, how the upstream call came out, how the callback's post came out
   if there was one, and how the counter's removal came out.
   */
  datatype Way = Way(ticket: Ticket, upstream: Outcome, post: Option<Outcome>, clear: Outcome)

  /** The attempt, cut to 32 bits, is past the limit. */
  predicate OverLimit(cfg: Config, k: Ticket) {
    k.attempt % 0x1_0000_0000 > cfg.maxDeliveryAttempts
  }

  function Made(task: Task, pc: Pc, o: Outcome): Call {
    Call(task.(pc := pc), o)
  }

  /** Lease, attempt, expiry of the counter. */
  function Admission(task: Task, w: Way): seq<Call> {
    [Made(task, AcquireLease, Done), Made(task, CountAttempt, Done), Made(task, ExpireAttempt(w.ticket), Done)]
  }

  /** The dead-letter copy, then the acknowledgement. */
  function Burial(task: Task, w: Way): seq<Call> {
    Admission(task, w) + [Made(task, CopyToDlq, Done), Made(task, AckDlq, Done)]
  }

  /** Upstream, result, publish. */
  function Work(task: Task, w: Way): seq<Call> {
    Admission(task, w) +
      [Made(task, CallUpstream, w.upstream), Made(task, StoreResult, Done), Made(task, PublishResult, Done)]
  }

  /** The callback: one answered post and no retry, or a post that failed and then the retry. */
  function Notice(task: Task, w: Way): seq<Call> {
    match w.post
    case None => []
    case Some(Done) => [Made(task, PostCallback, Done)]
    case Some(o) => [Made(task, PostCallback, o), Made(task, QueueRetry, Done)]
  }

  /** A job done and acknowledged, its counter removed. */
  function Service(task: Task, w: Way): seq<Call> {
    Work(task, w) + Notice(task, w) + [Made(task, AckDone, Done), Made(task, ClearAttempts, w.clear)]
  }

  /** The way of a job that is processed: within the limit, upstream reached, a post exactly if a callback is set. */
  predicate Processed(cfg: Config, task: Task, w: Way) {
    !OverLimit(cfg, w.ticket) && !w.upstream.Lost? && w.post.Some? == task.job.callback
  }

  /** The calls made by a task that now awaits its upstream call or a later one inside process_job. */
  predicate Working(cfg: Config, cs: seq<Call>, task: Task, w: Way) {
    match task.pc
    case CallUpstream => !OverLimit(cfg, w.ticket) && cs == Admission(task, w)
    case StoreResult => Processed(cfg, task, w) && cs == Work(task, w)[..4]
    case PublishResult => Processed(cfg, task, w) && cs == Work(task, w)[..5]
    case PostCallback => Processed(cfg, task, w) && task.job.callback && cs == Work(task, w)
    case QueueRetry =>
      && Processed(cfg, task, w) && w.post.Some? && w.post != Some(Done)
      && cs == Work(task, w) + [Made(task, PostCallback, w.post.value)]
    case _ => false
  }

  /** A call of process_job that makes it fail: not the post, whose failure leads to the retry. */
  predicate Breaks(c: Call) {
    match c.task.pc
    case CallUpstream => c.outcome.Lost?
    case StoreResult => !c.outcome.Done?
    case PublishResult => !c.outcome.Done?
    case QueueRetry => !c.outcome.Done?
    case _ => false
  }

  /** process_job failed at its last call. */
  predicate Broken(cfg: Config, cs: seq<Call>, task: Task, w: Way) {
    && cs != []
    && var n := |cs| - 1;
    && Breaks(cs[n]) && cs[n].task == task.(pc := cs[n].task.pc)
    && Working(cfg, cs[..n], cs[n].task, w)
  }

  /** The calls made by a task that now stands at its program counter. */
  predicate Scripted(cfg: Config, cs: seq<Call>, task: Task, w: Way) {
    match task.pc
    case AcquireLease => cs == []
    case CountAttempt => cs == Admission(task, w)[..1]
    case ExpireAttempt(k) => k == w.ticket && cs == Admission(task, w)[..2]
    case CopyToDlq => OverLimit(cfg, w.ticket) && cs == Admission(task, w)
    case AckDlq => OverLimit(cfg, w.ticket) && cs == Burial(task, w)[..4]
    case AckDone => Processed(cfg, task, w) && cs == Work(task, w) + Notice(task, w)
    case ClearAttempts =>
      Processed(cfg, task, w) && cs == Work(task, w) + Notice(task, w) + [Made(task, AckDone, Done)]
    case ReleaseLease =>
      || (OverLimit(cfg, w.ticket) && cs == Burial(task, w))
      || (Processed(cfg, task, w) && cs == Service(task, w))
      || Broken(cfg, cs, task, w)
    case _ => Working(cfg, cs, task, w)
  }

  ghost predicate OnScript(cfg: Config, cs: seq<Call>, task: Task) {
    exists w :: Scripted(cfg, cs, task, w)
  }

  /** The calls after which process_stream_entry returns. */
  predicate Ends(c: Call) {
    match c.task.pc
    case AcquireLease => true
    case CountAttempt => !c.outcome.Done?
    case ExpireAttempt(_) => !c.outcome.Done?
    case CopyToDlq => !c.outcome.Done?
    case AckDlq => !c.outcome.Done?
    case AckDone => !c.outcome.Done?
    case ReleaseLease => true
    case _ => false
  }

  /** The calls of a task that returned. */
  ghost predicate Returned(cfg: Config, cs: seq<Call>) {
    && cs != []
    && Ends(cs[|cs| - 1])
    && OnScript(cfg, cs[..|cs| - 1], cs[|cs| - 1].task)
  }

  /** The calls of a task that is gone: it returned, or it crashed on its way. */
  ghost predicate Closed(cfg: Config, cs: seq<Call>) {
    Returned(cfg, cs) || exists task :: OnScript(cfg, cs, task)
  }

  // ---------------------------------------------------------------- every run keeps to the script

  lemma AdmissionGoesOn(cfg: Config, db: Redis, t: TaskId, task: Task, o: Outcome, cs: seq<Call>, w: Way)
    returns (w': Way)
    requires task.job.id.Some? && (task.pc.AcquireLease? || task.pc.CountAttempt? || task.pc.ExpireAttempt?)
    requires Scripted(cfg, cs, task, w)
    ensures var m := MoveOf(cfg, db, t, task, o);
      if m.next.Some? then Scripted(cfg, cs + [Call(task, o)], task.(pc := m.next.value), w')
      else Ends(Call(task, o))
  {
    var m := MoveOf(cfg, db, t, task, o);
    w' := if m.draws.Some? then w.(ticket := m.draws.value) else w;
  }

  lemma BurialGoesOn(cfg: Config, db: Redis, t: TaskId, task: Task, o: Outcome, cs: seq<Call>, w: Way)
    requires task.job.id.Some? && (task.pc.CopyToDlq? || task.pc.AckDlq?)
    requires Scripted(cfg, cs, task, w)
    ensures var m := MoveOf(cfg, db, t, task, o);
      if m.next.Some? then Scripted(cfg, cs + [Call(task, o)], task.(pc := m.next.value), w)
      else Ends(Call(task, o))
  {
  }

  lemma BreakIsBroken(cfg: Config, task: Task, o: Outcome, cs: seq<Call>, w: Way)
    requires Working(cfg, cs, task, w) && Breaks(Call(task, o))
    ensures Scripted(cfg, cs + [Call(task, o)], task.(pc := ReleaseLease), w)
  {
    assert (cs + [Call(task, o)])[..|cs|] == cs;
  }

  lemma WorkGoesOn(cfg: Config, db: Redis, t: TaskId, task: Task, o: Outcome, cs: seq<Call>, w: Way)
    returns (w': Way)
    requires task.job.id.Some? && Working(cfg, cs, task, w)
    ensures var m := MoveOf(cfg, db, t, task, o);
      m.next.Some? && Scripted(cfg, cs + [Call(task, o)], task.(pc := m.next.value), w')
  {
    w' := w;
    if Breaks(Call(task, o)) {
      BreakIsBroken(cfg, task, o, cs, w);
    } else if task.pc.CallUpstream? {
      w' := w.(upstream := o, post := if task.job.callback then Some(Done) else None);
    } else if task.pc.PostCallback? {
      w' := w.(post := Some(o));
    }
  }

  lemma FinishGoesOn(cfg: Config, db: Redis, t: TaskId, task: Task, o: Outcome, cs: seq<Call>, w: Way)
    returns (w': Way)
    requires task.job.id.Some? && (task.pc.AckDone? || task.pc.ClearAttempts? || task.pc.ReleaseLease?)
    requires Scripted(cfg, cs, task, w)
    ensures var m := MoveOf(cfg, db, t, task, o);
      if m.next.Some? then Scripted(cfg, cs + [Call(task, o)], task.(pc := m.next.value), w')
      else Ends(Call(task, o))
  {
    w' := if task.pc.ClearAttempts? then w.(clear := o) else w;
    hide Working;
  }

  /** One call of a task on script: it stays on script, or it returns. */
  lemma CallGoesOn(cfg: Config, db: Redis, t: TaskId, task: Task, o: Outcome, cs: seq<Call>)
    requires OnScript(cfg, cs, task) && (task.job.id.None? ==> task.pc.AcquireLease?)
    ensures var m := MoveOf(cfg, db, t, task, o);
      if m.next.Some? then OnScript(cfg, cs + [Call(task, o)], task.(pc := m.next.value))
      else Returned(cfg, cs + [Call(task, o)])
  {
    var w :| Scripted(cfg, cs, task, w);
    var w' := w;
    if task.job.id.Some? {
      if task.pc.AcquireLease? || task.pc.CountAttempt? || task.pc.ExpireAttempt? {
        w' := AdmissionGoesOn(cfg, db, t, task, o, cs, w);
      } else if task.pc.CopyToDlq? || task.pc.AckDlq? {
        BurialGoesOn(cfg, db, t, task, o, cs, w);
      } else if task.pc.AckDone? || task.pc.ClearAttempts? || task.pc.ReleaseLease? {
        w' := FinishGoesOn(cfg, db, t, task, o, cs, w);
      } else {
        w' := WorkGoesOn(cfg, db, t, task, o, cs, w);
      }
    }
    assert (cs + [Call(task, o)])[..|cs|] == cs;
    hide Scripted, MoveOf;
  }

  /** Where task t stands in a state, with the calls cs behind it. */
  ghost predicate InStep(cfg: Config, s: State, t: TaskId, cs: seq<Call>) {
    if t in s.tasks
    then OnScript(cfg, cs, s.tasks[t]) && (s.tasks[t].job.id.None? ==> s.tasks[t].pc.AcquireLease?)
    else if t < s.nextTask then Closed(cfg, cs) else cs == []
  }

  lemma ActKeepsStep(cfg: Config, s: State, t: TaskId, o: Outcome, cs: seq<Call>)
    requires t in s.tasks && t < s.nextTask && InStep(cfg, s, t, cs)
    ensures InStep(cfg, Next(cfg, s, Act(t, o)).value, t, cs + [Call(s.tasks[t], o)])
  {
    CallGoesOn(cfg, s.db, t, s.tasks[t], o, cs);
    hide OnScript, Returned, MoveOf;
  }

  lemma OthersKeepStep(cfg: Config, s: State, l: Label, t: TaskId, cs: seq<Call>)
    requires Next(cfg, s, l).Some? && !(l.Act? && l.task == t)
    requires s.nextTask !in s.tasks && (t in s.tasks ==> t < s.nextTask) && InStep(cfg, s, t, cs)
    ensures InStep(cfg, Next(cfg, s, l).value, t, cs)
  {
    hide Returned, MoveOf;
    var s' := Next(cfg, s, l).value;
    if t in s'.tasks && t !in s.tasks {
      assert Scripted(cfg, [], s'.tasks[t], Way(Ticket("", 0, 0), Done, None, Done));
    } else if t in s.tasks && t !in s'.tasks {
      assert OnScript(cfg, cs, s.tasks[t]);
    }
  }

  /**
   In every run, the calls of every task keep to the script: in this order, each only after the ones before it
   succeeded, with a failed post leading to the retry and a failure inside process_job to the lease's release
   alone. A task that is gone had made its last call, or crashed on the way.
   */
  lemma {:induction false} CallsKeepToTheScript(cfg: Config, ls: seq<Label>, t: TaskId)
    requires Run(cfg, ls).Some?
    ensures InStep(cfg, Run(cfg, ls).value, t, Calls(cfg, ls, t))
  {
    if ls != [] {
      var before, l := ls[..|ls| - 1], ls[|ls| - 1];
      var s := Run(cfg, before).value;
      CallsKeepToTheScript(cfg, before, t);
      JobDelivery.NoJobIsLost(cfg, before);
      if l.Act? && l.task == t {
        ActKeepsStep(cfg, s, t, l.outcome, Calls(cfg, before, t));
      } else {
        OthersKeepStep(cfg, s, l, t, Calls(cfg, before, t));
        assert Calls(cfg, ls, t) == Calls(cfg, before, t);
      }
      hide InStep, Next;
    }
  }

  // ---------------------------------------------------------------- what the calls leave in the history

  /** What a call leaves in the history, acknowledgements aside (they depend on whether the entry still pends). */
  function Word(cfg: Config, t: TaskId, c: Call): seq<Event> {
    var Task(r, job, pc) := c.task;
    if job.id.None? || c.outcome.Lost? then []
    else
      match pc
      case ExpireAttempt(k) => if c.outcome.Done? && !OverLimit(cfg, k) then [Started(t, k)] else []
      case CopyToDlq => [DlqCopied(t, r)]
      case CallUpstream => [Upstream(t, r)]
      case StoreResult => [Stored(t, r)]
      case PostCallback => [Posted(t, r, c.outcome.Done?)]
      case QueueRetry => [RetryQueued(t, r)]
      case _ => []
  }

  function Words(cfg: Config, t: TaskId, cs: seq<Call>): seq<Event> {
    if cs == [] then [] else Words(cfg, t, cs[..|cs| - 1]) + Word(cfg, t, cs[|cs| - 1])
  }

  predicate IsMine(e: Event, t: TaskId) {
    !e.Reset? && !e.Acked? && e.task == t
  }

  /** The events of task t, acknowledgements aside. */
  function Mine(log: seq<Event>, t: TaskId): seq<Event> {
    if log == [] then []
    else Mine(log[..|log| - 1], t) + if IsMine(log[|log| - 1], t) then [log[|log| - 1]] else []
  }

  lemma MineGrows(log: seq<Event>, e: Event, t: TaskId)
    ensures Mine(log + [e], t) == if IsMine(e, t) then Mine(log, t) + [e] else Mine(log, t)
  {
    assert (log + [e])[..|log|] == log;
  }

  lemma {:induction false} MineHolds(log: seq<Event>, t: TaskId, e: Event)
    requires IsMine(e, t)
    ensures e in Mine(log, t) <==> e in log
  {
    if log != [] {
      MineHolds(log[..|log| - 1], t, e);
      assert log == log[..|log| - 1] + [log[|log| - 1]];
    }
  }

  /** What the machine writes for a call is the call's word. */
  lemma MoveSaysTheWord(cfg: Config, db: Redis, t: TaskId, task: Task, o: Outcome)
    ensures var m := MoveOf(cfg, db, t, task, o);
      Word(cfg, t, Call(task, o)) == if m.says.Some? && IsMine(m.says.value, t) then [m.says.value] else []
    ensures var m := MoveOf(cfg, db, t, task, o);
      m.says.Some? ==> m.says.value.Reset? || m.says.value.task == t
  {
  }

  lemma LandSpeaks(cfg: Config, s: State, u: TaskId, o: Outcome, t: TaskId)
    requires u in s.tasks
    ensures Mine(Land(s, u, MoveOf(cfg, s.db, u, s.tasks[u], o)).log, t) ==
      if u == t then Mine(s.log, t) + Word(cfg, t, Call(s.tasks[t], o)) else Mine(s.log, t)
  {
    MoveSaysTheWord(cfg, s.db, u, s.tasks[u], o);
    var m := MoveOf(cfg, s.db, u, s.tasks[u], o);
    if m.says.Some? { MineGrows(s.log, m.says.value, t); }
    assert Mine(s.log, t) + [] == Mine(s.log, t);
    hide *;
  }

  lemma NextSpeaks(cfg: Config, s: State, l: Label, t: TaskId)
    requires Next(cfg, s, l).Some?
    ensures Mine(Next(cfg, s, l).value.log, t) ==
      if l.Act? && l.task == t then Mine(s.log, t) + Word(cfg, t, Call(s.tasks[t], l.outcome)) else Mine(s.log, t)
  {
    if l.Act? {
      LandSpeaks(cfg, s, l.task, l.outcome, t);
    } else if l.ExpireCounter? {
      MineGrows(s.log, Reset(l.key), t);
    }
    hide MoveOf, Mine, Word, Land;
  }

  /** In every run, the history of a task is what its calls left, in their order: nothing else, and nothing twice. */
  lemma {:induction false} HistoryIsWhatCallsLeft(cfg: Config, ls: seq<Label>, t: TaskId)
    requires Run(cfg, ls).Some?
    ensures Mine(Run(cfg, ls).value.log, t) == Words(cfg, t, Calls(cfg, ls, t))
  {
    if ls != [] {
      var before, l := ls[..|ls| - 1], ls[|ls| - 1];
      var s, cs := Run(cfg, before).value, Calls(cfg, before, t);
      HistoryIsWhatCallsLeft(cfg, before, t);
      NextSpeaks(cfg, s, l, t);
      if l.Act? && l.task == t {
        assert (cs + [Call(s.tasks[t], l.outcome)])[..|cs|] == cs;
        assert Calls(cfg, ls, t) == cs + [Call(s.tasks[t], l.outcome)];
      } else {
        assert Calls(cfg, ls, t) == cs;
      }
      hide Next, Mine, Word;
    }
  }

  // ---------------------------------------------------------------- a delivered callback is not retried

  predicate Answered(c: Call) {
    c.task.pc.PostCallback? && c.outcome.Done?
  }

  predicate Retries(c: Call) {
    c.task.pc.QueueRetry?
  }

  /** Inside process_job: only the post of a task that then stands at the retry was made, and it failed. */
  lemma WorkingNeverBoth(cfg: Config, cs: seq<Call>, task: Task, w: Way, c: Call)
    requires Working(cfg, cs, task, w) && c in cs
    ensures !Answered(c) && !Retries(c)
  {
    hide OverLimit;
  }

  lemma ServiceNeverBoth(task: Task, w: Way, c: Call, d: Call)
    requires c in Service(task, w) && d in Service(task, w)
    ensures !(Answered(c) && Retries(d))
  {
  }

  lemma ScriptedNeverBoth(cfg: Config, cs: seq<Call>, task: Task, w: Way, c: Call, d: Call)
    requires Scripted(cfg, cs, task, w) && c in cs && d in cs
    ensures !(Answered(c) && Retries(d))
    ensures Answered(c) ==> !task.pc.QueueRetry?
  {
    hide OverLimit, Notice;
    if task.pc.ReleaseLease? && Broken(cfg, cs, task, w) {
      var n := |cs| - 1;
      assert cs == cs[..n] + [cs[n]];
      if c in cs[..n] { WorkingNeverBoth(cfg, cs[..n], cs[n].task, w, c); }
      hide Working;
    } else if Working(cfg, cs, task, w) {
      WorkingNeverBoth(cfg, cs, task, w, c);
      hide Working;
    } else if task.pc.AckDone? || task.pc.ClearAttempts? || cs == Service(task, w) {
      assert c in Service(task, w) && d in Service(task, w);
      ServiceNeverBoth(task, w, c, d);
    }
  }

  lemma NeverBoth(cfg: Config, cs: seq<Call>, c: Call, d: Call)
    requires Closed(cfg, cs) && c in cs && d in cs
    ensures !(Answered(c) && Retries(d))
  {
    if task :| OnScript(cfg, cs, task) {
      var w :| Scripted(cfg, cs, task, w);
      ScriptedNeverBoth(cfg, cs, task, w, c, d);
    } else {
      var n := |cs| - 1;
      assert cs == cs[..n] + [cs[n]];
      var w :| Scripted(cfg, cs[..n], cs[n].task, w);
      if c in cs[..n] {
        ScriptedNeverBoth(cfg, cs[..n], cs[n].task, w, c, if d in cs[..n] then d else c);
      }
    }
    hide Scripted;
  }

  lemma {:induction false} RetryWasCalled(cfg: Config, t: TaskId, cs: seq<Call>, r: Ref)
    requires RetryQueued(t, r) in Words(cfg, t, cs)
    ensures exists d :: d in cs && Retries(d)
  {
    var n := |cs| - 1;
    if RetryQueued(t, r) in Words(cfg, t, cs[..n]) {
      RetryWasCalled(cfg, t, cs[..n], r);
    } else {
      assert Retries(cs[n]);
    }
  }

  /** In every run: once the post of a callback was answered, that delivery never queues it for retry. */
  lemma AnsweredIsNotRetried(cfg: Config, ls: seq<Label>, t: TaskId, c: Call, r: Ref)
    requires Run(cfg, ls).Some? && c in Calls(cfg, ls, t) && Answered(c)
    ensures RetryQueued(t, r) !in Run(cfg, ls).value.log
  {
    var log, cs := Run(cfg, ls).value.log, Calls(cfg, ls, t);
    if RetryQueued(t, r) in log {
      HistoryIsWhatCallsLeft(cfg, ls, t);
      MineHolds(log, t, RetryQueued(t, r));
      RetryWasCalled(cfg, t, cs, r);
      var d :| d in cs && Retries(d);
      CallsKeepToTheScript(cfg, ls, t);
      hide Scripted, Run, Calls, Words, Mine, Answered, Retries;
      NeverBoth(cfg, cs, c, d);
    }
  }

  // ---------------------------------------------------------------- what a delivery reports

  /** A call whose failure is the delivery's failure. */
  predicate Fails(c: Call) {
    var pc := c.task.pc;
    || Breaks(c)
    || (!c.outcome.Done? &&
        (pc.AcquireLease? || pc.CountAttempt? || pc.ExpireAttempt? || pc.CopyToDlq? || pc.AckDlq? || pc.AckDone?))
  }

  /** The calls of a delivery that handled its entry: buried or served, then the lease released. */
  ghost predicate Handled(cfg: Config, cs: seq<Call>, task: Task) {
    exists w: Way, d ::
      || (OverLimit(cfg, w.ticket) && cs == Burial(task, w) + [Made(task, ReleaseLease, d)])
      || (Processed(cfg, task, w) && cs == Service(task, w) + [Made(task, ReleaseLease, d)])
  }

  /** The calls of a delivery that stopped at a failed call, inside process_job with the lease released after it. */
  predicate Stopped(cs: seq<Call>) {
    || (|cs| >= 1 && Fails(cs[|cs| - 1]) && !Breaks(cs[|cs| - 1]))
    || (|cs| >= 2 && cs[|cs| - 1].task.pc.ReleaseLease? && Breaks(cs[|cs| - 2]))
  }

  lemma BurialIsHandled(cfg: Config, cs: seq<Call>, task: Task, d: Outcome)
    requires task.pc.AckDlq? && OnScript(cfg, cs, task)
    ensures Handled(cfg, cs + [Call(task, Done)] + [Made(task, ReleaseLease, d)], task.(pc := AcquireLease))
  {
    var w :| Scripted(cfg, cs, task, w);
    var task' := task.(pc := AcquireLease);
    assert cs + [Call(task, Done)] + [Made(task, ReleaseLease, d)] == Burial(task', w) + [Made(task', ReleaseLease, d)];
  }

  lemma ServiceIsHandled(cfg: Config, cs: seq<Call>, task: Task, c: Outcome, d: Outcome)
    requires task.pc.ClearAttempts? && OnScript(cfg, cs, task)
    ensures Handled(cfg, cs + [Call(task, c)] + [Made(task, ReleaseLease, d)], task.(pc := AcquireLease))
  {
    var w :| Scripted(cfg, cs, task, w);
    var w' := w.(clear := c);
    var task' := task.(pc := AcquireLease);
    assert cs + [Call(task, c)] + [Made(task, ReleaseLease, d)] == Service(task', w') + [Made(task', ReleaseLease, d)];
  }

  lemma WordsGrow(cfg: Config, t: TaskId, cs: seq<Call>, c: Call)
    ensures Words(cfg, t, cs + [c]) == Words(cfg, t, cs) + Word(cfg, t, c)
  {
    assert (cs + [c])[..|cs|] == cs;
  }

  /** The calls that notify the caller of a job. */
  function NoticeCalls(task: Task, post: Outcome, retry: Outcome): seq<Call> {
    [Made(task, PostCallback, post)] + if post.Done? then [] else [Made(task, QueueRetry, retry)]
  }

  lemma NoticeWords(cfg: Config, t: TaskId, task: Task, cs: seq<Call>, post: Outcome, retry: Outcome)
    requires task.job.id.Some?
    ensures Words(cfg, t, cs + NoticeCalls(task, post, retry)) == Words(cfg, t, cs) +
      (if post.Lost? then [] else [Posted(t, task.ref, post.Done?)]) +
      (if post.Done? || retry.Lost? then [] else [RetryQueued(t, task.ref)])
  {
    var c, d := Made(task, PostCallback, post), Made(task, QueueRetry, retry);
    var p := if post.Lost? then [] else [Posted(t, task.ref, post.Done?)];
    var q := if post.Done? || retry.Lost? then [] else [RetryQueued(t, task.ref)];
    assert Word(cfg, t, c) == p && (!post.Done? ==> Word(cfg, t, d) == q);
    assert NoticeCalls(task, post, retry) == if post.Done? then [c] else [c, d];
    hide *;
    if post.Done? {
      assert q == [];
      WordsGrow(cfg, t, cs, c);
    } else {
      WordsGrowTwice(cfg, t, cs, c, d);
    }
  }

  lemma WordsGrowTwice(cfg: Config, t: TaskId, cs: seq<Call>, c: Call, d: Call)
    ensures Words(cfg, t, cs + [c, d]) == Words(cfg, t, cs) + Word(cfg, t, c) + Word(cfg, t, d)
  {
    WordsGrow(cfg, t, cs, c);
    WordsGrow(cfg, t, cs + [c], d);
    hide *;
    assert cs + [c, d] == cs + [c] + [d];
  }
}
