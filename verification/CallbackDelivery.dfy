/**
 The retry stream with its workers and reclaimers, as a step machine: any number of tasks handle entries,
 each call may fail or lose its reply, tasks may crash, and time passes.
 */
module CallbackDelivery {
  import opened Awaiting
  import opened Numbers
  import opened Options
  import opened CallbackRetry

  /** The entry whose handling appended this one, and the time that handling had read. */
  datatype Origin = Origin(parent: EntryId, at: nat)

  datatype Entry = Entry(fields: Fields, origin: Option<Origin>)

  /** The next await of process_callback_retry_entry; `at` is the time it read first. */
  datatype Pc =
    | Begin
    | PostNow(at: nat)
    | Append(fields: Fields, at: nat)
    | DeadLetter
    | AckEntry

  datatype Task = Task(entry: EntryId, pc: Pc)

  /** A post of an entry at an instant. */
  datatype PostEvent = PostEvent(entry: EntryId, clock: nat)

  datatype State = State(
    clock: nat,
    entries: seq<Entry>,
    unread: set<EntryId>,
    pending: set<EntryId>,
    acked: set<EntryId>,
    delivered: set<CallbackId>,
    deadLettered: set<CallbackId>,
    posts: seq<PostEvent>,
    tasks: map<TaskId, Task>,
    nextTask: TaskId)

  const INIT := State(0, [], {}, {}, {}, {}, {}, [], map[], 0)

  datatype Label =
    | Enter(callback: CallbackId)
    | Tick(ms: nat)
    | Read(entry: EntryId)
    | Claim(entry: EntryId)
    | Act(task: TaskId, outcome: Outcome)
    | Crash(task: TaskId)

  // ---------------------------------------------------------------- steps

  /** XADD to the retry stream. */
  function XAdd(s: State, e: Entry): State {
    s.(entries := s.entries + [e], unread := s.unread + {|s.entries|})
  }

  function XAck(s: State, e: EntryId): State {
    if e in s.pending then s.(pending := s.pending - {e}, acked := s.acked + {e}) else s
  }

  function Deliver(s: State, e: EntryId): State
    requires e < |s.entries|
  {
    s.(delivered := s.delivered + {s.entries[e].fields.callback}, posts := s.posts + [PostEvent(e, s.clock)])
  }

  function Bury(s: State, e: EntryId): State
    requires e < |s.entries|
  {
    s.(deadLettered := s.deadLettered + {s.entries[e].fields.callback})
  }

  function Goto(s: State, t: TaskId, pc: Pc): State
    requires t in s.tasks
  {
    s.(tasks := s.tasks[t := s.tasks[t].(pc := pc)])
  }

  function Exit(s: State, t: TaskId): State {
    s.(tasks := s.tasks - {t})
  }

  function Spawn(s: State, e: EntryId): State {
    s.(tasks := s.tasks[s.nextTask := Task(e, Begin)], nextTask := s.nextTask + 1)
  }

  /** What a failed post leads to. */
  function AfterFailedPost(cfg: Config, f: Fields, at: nat): Pc {
    match AfterFailure(cfg, f, at)
    case None => DeadLetter
    case Some(next) => Append(next, at)
  }

  /** One step of the task handling entry e: everything up to and including its next await. */
  function ActStep(cfg: Config, s: State, t: TaskId, o: Outcome): State
    requires t in s.tasks && s.tasks[t].entry < |s.entries|
  {
    var Task(e, pc) := s.tasks[t];
    var f := s.entries[e].fields;
    match pc
    case Begin =>
      // reads the clock; no call yet
      (match PlanFor(f, s.clock)
       case Defer(again) => Goto(s, t, Append(again, s.clock))
       case Post => Goto(s, t, PostNow(s.clock)))
    case PostNow(at) =>
      (match o
       case Done => Goto(Deliver(s, e), t, AckEntry)
       case Lost => Goto(s.(posts := s.posts + [PostEvent(e, s.clock)]), t, AfterFailedPost(cfg, f, at))
       case Applied => Goto(Deliver(s, e), t, AfterFailedPost(cfg, f, at)))
    case Append(next, at) =>
      var s' := if o.Lost? then s else XAdd(s, Entry(next, Some(Origin(e, at))));
      if o.Done? then Goto(s', t, AckEntry) else Exit(s', t)
    case DeadLetter =>
      var s' := if o.Lost? then s else Bury(s, e);
      if o.Done? then Goto(s', t, AckEntry) else Exit(s', t)
    case AckEntry =>
      Exit(if o.Lost? then s else XAck(s, e), t)
  }

  function Next(cfg: Config, s: State, l: Label): Option<State> {
    match l
    case Enter(cb) => Some(XAdd(s, Entry(FirstRetry(cfg, cb, s.clock), None)))
    case Tick(ms) => Some(s.(clock := s.clock + ms))
    case Read(e) =>
      if e in s.unread then Some(Spawn(s.(unread := s.unread - {e}, pending := s.pending + {e}), e)) else None
    case Claim(e) =>
      if e in s.pending then Some(Spawn(s, e)) else None
    case Act(t, o) =>
      if t in s.tasks && s.tasks[t].entry < |s.entries| then Some(ActStep(cfg, s, t, o)) else None
    case Crash(t) =>
      if t in s.tasks then Some(Exit(s, t)) else None
  }

  function Run(cfg: Config, ls: seq<Label>): Option<State> {
    if ls == [] then Some(INIT)
    else
      var s := Run(cfg, ls[..|ls| - 1]);
      if s.None? then None else Next(cfg, s.value, ls[|ls| - 1])
  }

  // ---------------------------------------------------------------- nothing is forgotten

  predicate Settled(s: State, cb: CallbackId) {
    cb in s.delivered || cb in s.deadLettered
  }

  /** An entry of this callback, numbered e or later, that nobody has acknowledged. */
  ghost predicate LiveFrom(s: State, cb: CallbackId, e: EntryId) {
    exists k :: e <= k < |s.entries| && s.entries[k].fields.callback == cb && (k in s.unread || k in s.pending)
  }

  ghost predicate Successor(s: State, cb: CallbackId, e: EntryId) {
    exists k :: e < k < |s.entries| && s.entries[k].fields.callback == cb
  }

  /** Every entry is in exactly one of unread, pending, acked. */
  ghost predicate Partitioned(s: State) {
    && (forall e :: e in s.unread ==> e < |s.entries| && e !in s.pending && e !in s.acked)
    && (forall e :: e in s.pending ==> e < |s.entries| && e !in s.acked)
    && (forall e :: e in s.acked ==> e < |s.entries|)
    && (forall e :: 0 <= e < |s.entries| ==> e in s.unread || e in s.pending || e in s.acked)
  }

  /** No callback that entered retry is forgotten. */
  ghost predicate Remembered(s: State) {
    forall e :: 0 <= e < |s.entries| ==>
      Settled(s, s.entries[e].fields.callback) || LiveFrom(s, s.entries[e].fields.callback, e)
  }

  ghost predicate TaskOk(s: State, task: Task) {
    && 0 <= task.entry < |s.entries|
    && (task.entry in s.pending || task.entry in s.acked)
    && var cb := s.entries[task.entry].fields.callback;
    && (task.pc.Append? ==> task.pc.fields.callback == cb)
    && (task.pc.AckEntry? ==> Settled(s, cb) || Successor(s, cb, task.entry))
  }

  ghost predicate Kept(s: State) {
    && Partitioned(s)
    && Remembered(s)
    && (forall t :: t in s.tasks ==> t < s.nextTask && TaskOk(s, s.tasks[t]))
  }

  /** s' still has everything s had. */
  ghost predicate Grows(s: State, s': State) {
    && s.entries <= s'.entries
    && (forall cb :: Settled(s, cb) ==> Settled(s', cb))
    && (forall e :: e in s.pending ==> e in s'.pending)
    && (forall e :: e in s.unread ==> e in s'.unread || e in s'.pending)
    && (forall e :: e in s.acked ==> e in s'.acked)
  }

  lemma GrowthKeepsTask(s: State, s': State, task: Task)
    requires Grows(s, s') && TaskOk(s, task)
    ensures TaskOk(s', task)
  {
    var cb := s.entries[task.entry].fields.callback;
    if Successor(s, cb, task.entry) {
      var k :| task.entry < k < |s.entries| && s.entries[k].fields.callback == cb;
      assert s'.entries[k] == s.entries[k];
    }
  }

  lemma GrowthRemembers(s: State, s': State, e: EntryId)
    requires Grows(s, s') && Remembered(s) && e < |s.entries|
    ensures Settled(s', s'.entries[e].fields.callback) || LiveFrom(s', s'.entries[e].fields.callback, e)
  {
    var cb := s.entries[e].fields.callback;
    assert s'.entries[e] == s.entries[e];
    if LiveFrom(s, cb, e) {
      var k :| e <= k < |s.entries| && s.entries[k].fields.callback == cb && (k in s.unread || k in s.pending);
      assert s'.entries[k] == s.entries[k];
    }
  }

  /** Growing by at most one fresh unread entry keeps everything. */
  lemma GrowthKeeps(s: State, s': State)
    requires Kept(s) && Grows(s, s') && Partitioned(s')
    requires forall e :: |s.entries| <= e < |s'.entries| ==> e in s'.unread
    requires s.nextTask <= s'.nextTask
    requires forall t :: t in s'.tasks ==>
      t < s'.nextTask && ((t in s.tasks && s'.tasks[t] == s.tasks[t]) || TaskOk(s', s'.tasks[t]))
    ensures Kept(s')
  {
    forall e | 0 <= e < |s'.entries|
      ensures Settled(s', s'.entries[e].fields.callback) || LiveFrom(s', s'.entries[e].fields.callback, e)
    {
      if e < |s.entries| { GrowthRemembers(s, s', e); }
    }
    forall t | t in s'.tasks ensures TaskOk(s', s'.tasks[t]) {
      if t in s.tasks && s'.tasks[t] == s.tasks[t] { GrowthKeepsTask(s, s', s.tasks[t]); }
    }
  }

  /** An acknowledged entry leaves every callback remembered, because its own is settled or lives on. */
  lemma AckRemembers(s: State, t: TaskId, x: EntryId)
    requires Kept(s) && t in s.tasks && s.tasks[t].pc.AckEntry? && x < |s.entries|
    ensures var s' := Exit(XAck(s, s.tasks[t].entry), t); var cb := s.entries[x].fields.callback;
      Settled(s', cb) || LiveFrom(s', cb, x)
  {
    var e, cb := s.tasks[t].entry, s.entries[x].fields.callback;
    var s' := Exit(XAck(s, e), t);
    assert TaskOk(s, s.tasks[t]);
    if !Settled(s, cb) {
      var k :| x <= k < |s.entries| && s.entries[k].fields.callback == cb && (k in s.unread || k in s.pending);
      if k == e {
        // the acknowledged entry has a successor, and that one is remembered by a live entry further on
        var n :| e < n < |s.entries| && s.entries[n].fields.callback == cb;
        var m :| n <= m < |s.entries| && s.entries[m].fields.callback == cb && (m in s.unread || m in s.pending);
        assert m in s'.unread || m in s'.pending;
      } else {
        assert k in s'.unread || k in s'.pending;
      }
    }
  }

  lemma AckKeepsTask(s: State, e: EntryId, t: TaskId, task: Task)
    requires TaskOk(s, task)
    ensures TaskOk(Exit(XAck(s, e), t), task)
  {
    var cb := s.entries[task.entry].fields.callback;
    assert Successor(s, cb, task.entry) ==> Successor(Exit(XAck(s, e), t), cb, task.entry);
  }

  /** Acknowledging an entry whose callback is settled or lives on keeps everything. */
  lemma AckKeeps(s: State, t: TaskId)
    requires Kept(s) && t in s.tasks && s.tasks[t].pc.AckEntry?
    ensures Kept(Exit(XAck(s, s.tasks[t].entry), t))
  {
    var s' := Exit(XAck(s, s.tasks[t].entry), t);
    hide LiveFrom, Settled, TaskOk;
    forall x | 0 <= x < |s'.entries|
      ensures Settled(s', s'.entries[x].fields.callback) || LiveFrom(s', s'.entries[x].fields.callback, x)
    {
      AckRemembers(s, t, x);
    }
    forall u | u in s'.tasks ensures TaskOk(s', s'.tasks[u]) {
      AckKeepsTask(s, s.tasks[t].entry, t, s.tasks[u]);
    }
  }

  lemma FailureKeepsCallback(cfg: Config, f: Fields, at: nat)
    ensures var pc := AfterFailedPost(cfg, f, at); !pc.AckEntry? && (pc.Append? ==> pc.fields.callback == f.callback)
  {
  }

  lemma ActKeeps(cfg: Config, s: State, t: TaskId, o: Outcome)
    requires Kept(s) && t in s.tasks
    ensures s.tasks[t].entry < |s.entries| && Kept(ActStep(cfg, s, t, o))
  {
    var Task(e, pc) := s.tasks[t];
    assert TaskOk(s, s.tasks[t]);
    var f := s.entries[e].fields;
    var s' := ActStep(cfg, s, t, o);
    if pc.AckEntry? && !o.Lost? {
      AckKeeps(s, t);
    } else {
      if pc.PostNow? { FailureKeepsCallback(cfg, f, pc.at); }
      hide AfterFailedPost, PlanFor;
      if pc.Begin? { PlanKeepsCallback(f, s.clock); }
      if pc.Append? && o.Done? { assert s'.entries[|s.entries|].fields.callback == f.callback; }
      GrowthKeeps(s, s');
    }
  }

  lemma PlanKeepsCallback(f: Fields, now: nat)
    ensures PlanFor(f, now).Defer? ==> PlanFor(f, now).again.callback == f.callback
  {
  }

  lemma NextKeeps(cfg: Config, s: State, l: Label)
    requires Kept(s) && Next(cfg, s, l).Some?
    ensures Kept(Next(cfg, s, l).value)
  {
    if l.Act? {
      ActKeeps(cfg, s, l.task, l.outcome);
    } else {
      GrowthKeeps(s, Next(cfg, s, l).value);
    }
  }

  /**
   Once a callback has entered retry, in every run with crashes, reclaims and lost replies: it has been
   delivered, or it has an entry nobody acknowledged, or it is in the dead-letter queue.
   */
  lemma {:induction false} NoCallbackIsForgotten(cfg: Config, ls: seq<Label>)
    requires Run(cfg, ls).Some?
    ensures Kept(Run(cfg, ls).value)
  {
    hide Next, Kept;
    if ls != [] {
      NoCallbackIsForgotten(cfg, ls[..|ls| - 1]);
      NextKeeps(cfg, Run(cfg, ls[..|ls| - 1]).value, ls[|ls| - 1]);
    } else {
      InitIsKept();
    }
  }

  lemma InitIsKept()
    ensures Kept(INIT)
  {
  }

  // ---------------------------------------------------------------- what the entries stand for

  /** The time at which the handling that appended e had begun. */
  ghost function Born(s: State, e: EntryId): nat
    requires e < |s.entries|
  {
    if s.entries[e].origin.None? then 0 else s.entries[e].origin.value.at
  }

  /** An entry is a first retry, or was appended by handling an earlier one. */
  ghost predicate EntryOk(cfg: Config, s: State, e: EntryId)
    requires e < |s.entries|
  {
    match s.entries[e].origin
    case None => s.entries[e].fields.attempt == 1
    case Some(o) =>
      && o.parent < e && Born(s, o.parent) <= o.at <= s.clock
      && Requeues(cfg, Link(s.entries[o.parent].fields, o.at), s.entries[e].fields)
  }

  ghost predicate IntentOk(cfg: Config, s: State, task: Task) {
    && task.entry < |s.entries|
    && var f := s.entries[task.entry].fields;
    && (task.pc.PostNow? ==> Born(s, task.entry) <= task.pc.at <= s.clock && PlanFor(f, task.pc.at).Post?)
    && (task.pc.Append? ==>
          Born(s, task.entry) <= task.pc.at <= s.clock && Requeues(cfg, Link(f, task.pc.at), task.pc.fields))
  }

  /** Nothing is posted before the due time its entry carries. */
  ghost predicate NeverEarly(s: State) {
    forall i :: 0 <= i < |s.posts| ==>
      s.posts[i].entry < |s.entries| && ReadDue(s.entries[s.posts[i].entry].fields.due) <= s.posts[i].clock
  }

  ghost predicate Lineage(cfg: Config, s: State) {
    && (forall e :: 0 <= e < |s.entries| ==> EntryOk(cfg, s, e))
    && (forall t :: t in s.tasks ==> IntentOk(cfg, s, s.tasks[t]))
    && (forall e :: e in s.unread || e in s.pending ==> e < |s.entries|)
    && NeverEarly(s)
  }

  /** What a step does to entries, tasks, clock and posts. */
  ghost predicate LineageStep(cfg: Config, s: State, s': State) {
    && s.clock <= s'.clock
    && s.entries <= s'.entries
    && (forall e :: |s.entries| <= e < |s'.entries| ==> EntryOk(cfg, s', e))
    && (forall t :: t in s'.tasks && !(t in s.tasks && s'.tasks[t] == s.tasks[t]) ==> IntentOk(cfg, s', s'.tasks[t]))
    && (forall e :: e in s'.unread || e in s'.pending ==> e < |s'.entries|)
    && s.posts <= s'.posts
    && (forall i :: |s.posts| <= i < |s'.posts| ==>
          s'.posts[i].entry < |s'.entries| && ReadDue(s'.entries[s'.posts[i].entry].fields.due) <= s'.posts[i].clock)
  }

  lemma LineageStepKeeps(cfg: Config, s: State, s': State)
    requires Lineage(cfg, s) && LineageStep(cfg, s, s')
    ensures Lineage(cfg, s')
  {
    hide Requeues;
    forall e | 0 <= e < |s'.entries| ensures EntryOk(cfg, s', e) {
      if e < |s.entries| { assert EntryOk(cfg, s, e); }
    }
    forall t | t in s'.tasks ensures IntentOk(cfg, s', s'.tasks[t]) {
      if t in s.tasks && s'.tasks[t] == s.tasks[t] { assert IntentOk(cfg, s, s.tasks[t]); }
    }
  }

  lemma FailureRequeues(cfg: Config, f: Fields, at: nat)
    requires PlanFor(f, at).Post?
    ensures var pc := AfterFailedPost(cfg, f, at);
      pc.DeadLetter? || (pc.Append? && pc.at == at && Requeues(cfg, Link(f, at), pc.fields))
  {
  }

  lemma ActIsLineageStep(cfg: Config, s: State, t: TaskId, o: Outcome)
    requires Lineage(cfg, s) && t in s.tasks
    ensures s.tasks[t].entry < |s.entries| && LineageStep(cfg, s, ActStep(cfg, s, t, o))
  {
    assert IntentOk(cfg, s, s.tasks[t]);
    var pc := s.tasks[t].pc;
    hide LineageStep, ActStep;
    if pc.Begin? { BeginIsLineageStep(cfg, s, t, o); }
    else if pc.PostNow? { PostIsLineageStep(cfg, s, t, o); }
    else if pc.Append? { AppendIsLineageStep(cfg, s, t, o); }
    else { EndIsLineageStep(cfg, s, t, o); }
  }

  lemma BeginIsLineageStep(cfg: Config, s: State, t: TaskId, o: Outcome)
    requires Lineage(cfg, s) && t in s.tasks && IntentOk(cfg, s, s.tasks[t]) && s.tasks[t].pc.Begin?
    ensures LineageStep(cfg, s, ActStep(cfg, s, t, o))
  {
    var f := s.entries[s.tasks[t].entry].fields;
    assert EntryOk(cfg, s, s.tasks[t].entry);
    assert PlanFor(f, s.clock).Defer? ==> Requeues(cfg, Link(f, s.clock), PlanFor(f, s.clock).again);
    hide Requeues, AfterFailedPost;
  }

  lemma PostIsLineageStep(cfg: Config, s: State, t: TaskId, o: Outcome)
    requires Lineage(cfg, s) && t in s.tasks && IntentOk(cfg, s, s.tasks[t]) && s.tasks[t].pc.PostNow?
    ensures LineageStep(cfg, s, ActStep(cfg, s, t, o))
  {
    FailureRequeues(cfg, s.entries[s.tasks[t].entry].fields, s.tasks[t].pc.at);
    hide Requeues, AfterFailedPost;
  }

  lemma AppendIsLineageStep(cfg: Config, s: State, t: TaskId, o: Outcome)
    requires Lineage(cfg, s) && t in s.tasks && IntentOk(cfg, s, s.tasks[t]) && s.tasks[t].pc.Append?
    ensures LineageStep(cfg, s, ActStep(cfg, s, t, o))
  {
    var Task(e, pc) := s.tasks[t];
    hide Requeues, AfterFailedPost;
    if !o.Lost? { assert ActStep(cfg, s, t, o).entries[|s.entries|] == Entry(pc.fields, Some(Origin(e, pc.at))); }
  }

  lemma EndIsLineageStep(cfg: Config, s: State, t: TaskId, o: Outcome)
    requires Lineage(cfg, s) && t in s.tasks && IntentOk(cfg, s, s.tasks[t])
    requires s.tasks[t].pc.DeadLetter? || s.tasks[t].pc.AckEntry?
    ensures LineageStep(cfg, s, ActStep(cfg, s, t, o))
  {
    hide Requeues, AfterFailedPost;
  }

  lemma {:induction false} LineageHolds(cfg: Config, ls: seq<Label>)
    requires Run(cfg, ls).Some?
    ensures Lineage(cfg, Run(cfg, ls).value)
  {
    if ls != [] {
      var l := ls[|ls| - 1];
      var s := Run(cfg, ls[..|ls| - 1]).value;
      LineageHolds(cfg, ls[..|ls| - 1]);
      if l.Act? { ActIsLineageStep(cfg, s, l.task, l.outcome); } else { EnvironmentIsLineageStep(cfg, s, l); }
      LineageStepKeeps(cfg, s, Run(cfg, ls).value);
    }
  }

  lemma EnvironmentIsLineageStep(cfg: Config, s: State, l: Label)
    requires Lineage(cfg, s) && !l.Act? && Next(cfg, s, l).Some?
    ensures LineageStep(cfg, s, Next(cfg, s, l).value)
  {
  }

  /**
   `ids` are the entries of the run that led to entry e, each appended by handling the one before it, and
   `c` what they carry and when they were handled.
   */
  ghost predicate Traced(s: State, e: EntryId, at: nat, ids: seq<EntryId>, c: seq<Link>) {
    && e < |s.entries| && |ids| == |c| > 0
    && ids[|ids| - 1] == e && c[|c| - 1] == Link(s.entries[e].fields, at)
    && (forall i :: 0 <= i < |ids| ==> ids[i] < |s.entries| && s.entries[ids[i]].fields == c[i].fields)
    && (forall i :: 0 <= i < |ids| - 1 ==> s.entries[ids[i + 1]].origin == Some(Origin(ids[i], c[i].at)))
    && s.entries[ids[0]].origin.None?
  }

  /** Entries are handled one after the other. */
  ghost predicate InTime(c: seq<Link>) {
    forall i :: 0 <= i < |c| - 1 ==> c[i].at <= c[i + 1].at
  }

  lemma TracedAppend(s: State, e: EntryId, at: nat, ids: seq<EntryId>, c: seq<Link>, next: EntryId, later: nat)
    requires Traced(s, e, at, ids, c) && next < |s.entries| && s.entries[next].origin == Some(Origin(e, at))
    ensures Traced(s, next, later, ids + [next], c + [Link(s.entries[next].fields, later)])
  {
  }

  /** The chain of handled entries that led to entry e. */
  lemma {:induction false} ChainOf(cfg: Config, s: State, e: EntryId, at: nat) returns (ids: seq<EntryId>, c: seq<Link>)
    requires Lineage(cfg, s) && e < |s.entries|
    ensures Traced(s, e, at, ids, c) && Chain(cfg, c) && c[0].fields.attempt == 1
    ensures Born(s, e) <= at ==> InTime(c)
    decreases e
  {
    hide Requeues;
    assert EntryOk(cfg, s, e);
    if s.entries[e].origin.None? {
      ids, c := [e], [Link(s.entries[e].fields, at)];
    } else {
      var o := s.entries[e].origin.value;
      var ids', c' := ChainOf(cfg, s, o.parent, o.at);
      TracedAppend(s, o.parent, o.at, ids', c', e, at);
      ids, c := ids' + [e], c' + [Link(s.entries[e].fields, at)];
    }
  }

  /** The chain of requeues that led to entry e in the run, and what its posts add up to. */
  ghost predicate Accounts(cfg: Config, s: State, e: EntryId, at: nat, ids: seq<EntryId>, c: seq<Link>) {
    && Traced(s, e, at, ids, c) && Chain(cfg, c)
    && s.entries[e].fields.attempt == 1 + PostCount(c[..|c| - 1])
    && PostCount(c) <= Max(1, cfg.maxAttempts)
    && (Born(s, e) <= at ==> InTime(c))
    && (Advancing(c) ==> |c| <= Patience(cfg, c[0]) + 1)
  }

  /**
   In every run each entry is the end of a chain of requeues made in that run, carries one more than the
   failed posts on that chain, and so no chain posts more often than max(1, callback_max_retry_attempts). The
   chain's entries are handled at times that never decrease, and if the times increase it is no longer than the
   first entry allows. No entry is posted before it is due.
   */
  lemma RetriesAreBounded(cfg: Config, ls: seq<Label>, e: EntryId, at: nat)
    requires Run(cfg, ls).Some? && e < |Run(cfg, ls).value.entries| && cfg.maxAttempts <= U32_MAX
    ensures var s := Run(cfg, ls).value; NeverEarly(s) && exists ids, c :: Accounts(cfg, s, e, at, ids, c)
  {
    hide Run;
    LineageHolds(cfg, ls);
    var ids, c := ChainOf(cfg, Run(cfg, ls).value, e, at);
    AttemptsCountPosts(cfg, c);
    if Advancing(c) { ChainsEnd(cfg, c); }
    hide Patience, PostCount, Chain, Traced, InTime, Advancing;
    assert Accounts(cfg, Run(cfg, ls).value, e, at, ids, c);
  }

  lemma TracedBack(s: State, e: EntryId, at: nat, ids: seq<EntryId>, c: seq<Link>)
    requires Traced(s, e, at, ids, c)
    ensures var n := |ids| - 1;
      && ids == ids[..n] + [e] && c == c[..n] + [Link(s.entries[e].fields, at)]
      && (n > 0 <==> s.entries[e].origin.Some?)
      && (n > 0 ==> var o := s.entries[e].origin.value; Traced(s, o.parent, o.at, ids[..n], c[..n]))
  {
    var n := |ids| - 1;
    if n > 0 { assert s.entries[ids[n - 1 + 1]].origin == Some(Origin(ids[n - 1], c[n - 1].at)); }
  }

  /** An entry has only one such history. */
  lemma {:induction false} HistoryIsUnique(s: State, e: EntryId, at: nat, ids: seq<EntryId>, c: seq<Link>,
      ids': seq<EntryId>, c': seq<Link>)
    requires Traced(s, e, at, ids, c) && Traced(s, e, at, ids', c')
    ensures ids == ids' && c == c'
    decreases |ids|
  {
    TracedBack(s, e, at, ids, c);
    TracedBack(s, e, at, ids', c');
    if |ids| > 1 {
      var o, n, n' := s.entries[e].origin.value, |ids| - 1, |ids'| - 1;
      hide Traced;
      HistoryIsUnique(s, o.parent, o.at, ids[..n], c[..n], ids'[..n'], c'[..n']);
    }
  }
}
