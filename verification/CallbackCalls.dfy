/**
 The calls of one handling of a retry entry, taken from any run: a deferral, an answered post, or a failed post
 followed by the next attempt or the dead-letter copy; the acknowledgement only after these.
 */
module CallbackCalls {
  import opened Awaiting
  import opened Numbers
  import opened Options
  import opened CallbackRetry
  import opened CallbackDelivery

  /** A step that a task made: the task as it stood before, and how the step turned out. */
  datatype Call = Call(task: Task, outcome: Outcome)

  /** The steps of task t in a run, in order; the first one reads the clock. */
  function Calls(cfg: Config, ls: seq<Label>, t: TaskId): seq<Call>
    requires Run(cfg, ls).Some?
  {
    if ls == [] then []
    else
      var before, l := ls[..|ls| - 1], ls[|ls| - 1];
      Calls(cfg, before, t) +
        if l.Act? && l.task == t then [Call(Run(cfg, before).value.tasks[t], l.outcome)] else []
  }

  lemma CallsExtend(cfg: Config, ls: seq<Label>, l: Label, t: TaskId)
    requires Run(cfg, ls).Some? && Run(cfg, ls + [l]).Some?
    ensures l.Act? && l.task == t ==>
      t in Run(cfg, ls).value.tasks
      && Calls(cfg, ls + [l], t) == Calls(cfg, ls, t) + [Call(Run(cfg, ls).value.tasks[t], l.outcome)]
    ensures !(l.Act? && l.task == t) ==> Calls(cfg, ls + [l], t) == Calls(cfg, ls, t)
  {
    assert (ls + [l])[..|ls|] == ls;
    hide ActStep;
  }

  // ---------------------------------------------------------------- the script of a handling

  /** The steps behind a task that has read the clock, and behind one whose post failed. */
  predicate Started(cs: seq<Call>, e: EntryId) {
    |cs| == 1 && cs[0].task == Task(e, Begin)
  }

  predicate PostFailed(cs: seq<Call>, e: EntryId, at: nat) {
    |cs| == 2 && Started(cs[..1], e) && cs[1].task == Task(e, PostNow(at)) && !cs[1].outcome.Done?
  }

  /** A step after which the entry may be acknowledged. */
  predicate Settles(c: Call) {
    c.outcome.Done? && (c.task.pc.PostNow? || c.task.pc.Append? || c.task.pc.DeadLetter?)
  }

  /** The steps behind a task that handles an entry with fields f, where it has not reached the acknowledgement. */
  ghost predicate Underway(cfg: Config, f: Fields, cs: seq<Call>, task: Task) {
    var e, due := task.entry, ReadDue(f.due);
    match task.pc
    case Begin => cs == []
    case PostNow(at) => due <= at && Started(cs, e)
    case Append(next, at) =>
      && next.callback == f.callback
      && if due > at then Started(cs, e) && next.attempt == f.attempt && ReadDue(next.due) == due
         else PostFailed(cs, e, at) && f.attempt < cfg.maxAttempts && next.attempt == Min(f.attempt + 1, 0xFFFF_FFFF)
    case DeadLetter =>
      exists at: nat :: due <= at && PostFailed(cs, e, at) && f.attempt >= cfg.maxAttempts
    case AckEntry => false
  }

  /** The steps behind a task that stands at its program counter. */
  ghost predicate Scripted(cfg: Config, f: Fields, cs: seq<Call>, task: Task) {
    if task.pc.AckEntry? then
      && cs != []
      && var n := |cs| - 1;
      && Settles(cs[n]) && cs[n].task.entry == task.entry && Underway(cfg, f, cs[..n], cs[n].task)
    else
      Underway(cfg, f, cs, task)
  }

  /** The step after which the handling returns. */
  predicate Ends(c: Call) {
    c.task.pc.AckEntry? || (!c.outcome.Done? && (c.task.pc.Append? || c.task.pc.DeadLetter?))
  }

  ghost predicate Returned(cfg: Config, f: Fields, cs: seq<Call>) {
    cs != [] && Ends(cs[|cs| - 1]) && Scripted(cfg, f, cs[..|cs| - 1], cs[|cs| - 1].task)
  }

  lemma LastCallReturns(cfg: Config, f: Fields, cs: seq<Call>, c: Call)
    requires Scripted(cfg, f, cs, c.task) && Ends(c)
    ensures Returned(cfg, f, cs + [c])
  {
    assert (cs + [c])[..|cs|] == cs;
  }

  /** The steps of a task that is gone: it returned, or it crashed on its way. */
  ghost predicate Closed(cfg: Config, entries: seq<Entry>, cs: seq<Call>) {
    cs != [] ==>
      && cs[0].task.entry < |entries|
      && var f := entries[cs[0].task.entry].fields;
      && (Returned(cfg, f, cs) || exists task :: Scripted(cfg, f, cs, task))
  }

  /** Where task t stands in a state, with the steps cs behind it. */
  ghost predicate InStep(cfg: Config, s: State, t: TaskId, cs: seq<Call>) {
    if t in s.tasks then
      && var e := s.tasks[t].entry;
      && e < |s.entries| && Scripted(cfg, s.entries[e].fields, cs, s.tasks[t])
      && (cs != [] ==> cs[0].task.entry == e)
    else
      Closed(cfg, s.entries, cs)
  }

  // ---------------------------------------------------------------- every run keeps to the script

  lemma FailureIsUnderway(cfg: Config, f: Fields, cs: seq<Call>, e: EntryId, at: nat)
    requires PostFailed(cs, e, at) && ReadDue(f.due) <= at
    ensures Underway(cfg, f, cs, Task(e, AfterFailedPost(cfg, f, at)))
  {
    hide RetryDelay, WriteDue, ReadDue;
  }

  lemma BeginIsUnderway(cfg: Config, f: Fields, c: Call, e: EntryId, now: nat)
    requires c.task == Task(e, Begin)
    ensures match PlanFor(f, now)
      case Defer(again) => Underway(cfg, f, [c], Task(e, Append(again, now)))
      case Post => Underway(cfg, f, [c], Task(e, PostNow(now)))
  {
  }

  /** One step of a task on script: it stays on script, or it returns. */
  lemma StepGoesOn(cfg: Config, s: State, t: TaskId, o: Outcome, cs: seq<Call>)
    requires t in s.tasks && InStep(cfg, s, t, cs)
    ensures InStep(cfg, ActStep(cfg, s, t, o), t, cs + [Call(s.tasks[t], o)])
  {
    var Task(e, pc) := s.tasks[t];
    var f, c := s.entries[e].fields, Call(s.tasks[t], o);
    var cs' := cs + [c];
    assert cs'[..|cs|] == cs;
    if pc.Begin? {
      assert cs' == [c];
      BeginIsUnderway(cfg, f, c, e, s.clock);
      hide Underway, PlanFor, AfterFailedPost;
    } else if pc.PostNow? && !o.Done? {
      assert PostFailed(cs', e, pc.at);
      FailureIsUnderway(cfg, f, cs', e, pc.at);
      hide Underway, AfterFailedPost;
    } else {
      hide Underway, AfterFailedPost;
    }
  }

  lemma OthersKeepStep(cfg: Config, s: State, l: Label, t: TaskId, cs: seq<Call>)
    requires Next(cfg, s, l).Some? && !(l.Act? && l.task == t)
    requires Kept(s) && InStep(cfg, s, t, cs) && (t >= s.nextTask ==> cs == [])
    ensures InStep(cfg, Next(cfg, s, l).value, t, cs)
  {
    hide Returned, AfterFailedPost, Remembered;
    var s' := Next(cfg, s, l).value;
    assert s.entries <= s'.entries;
    if t in s.tasks && t !in s'.tasks {
      assert Scripted(cfg, s.entries[s.tasks[t].entry].fields, cs, s.tasks[t]);
    }
  }

  lemma {:induction false} UnbornHasNoCalls(cfg: Config, ls: seq<Label>, t: TaskId)
    requires Run(cfg, ls).Some? && t >= Run(cfg, ls).value.nextTask
    ensures Calls(cfg, ls, t) == []
  {
    if ls != [] {
      var before := ls[..|ls| - 1];
      NoCallbackIsForgotten(cfg, before);
      assert t >= Run(cfg, before).value.nextTask by { hide AfterFailedPost; }
      UnbornHasNoCalls(cfg, before, t);
      hide Next;
    }
  }

  /**
   In every run, the steps of every task keep to the script: an entry that is not due is appended again as it
   was; one that is due is posted; only a failed post leads to the next attempt, within the maximum, or to the
   dead-letter copy, at the maximum; and the acknowledgement follows only one of these that succeeded.
   */
  lemma {:induction false} CallsKeepToTheScript(cfg: Config, ls: seq<Label>, t: TaskId)
    requires Run(cfg, ls).Some?
    ensures InStep(cfg, Run(cfg, ls).value, t, Calls(cfg, ls, t))
  {
    if ls != [] {
      var before, l := ls[..|ls| - 1], ls[|ls| - 1];
      var s, cs := Run(cfg, before).value, Calls(cfg, before, t);
      CallsKeepToTheScript(cfg, before, t);
      NoCallbackIsForgotten(cfg, before);
      if t >= s.nextTask { UnbornHasNoCalls(cfg, before, t); }
      if l.Act? && l.task == t {
        StepGoesOn(cfg, s, t, l.outcome, cs);
      } else {
        OthersKeepStep(cfg, s, l, t, cs);
        assert Calls(cfg, ls, t) == cs;
      }
      hide InStep, ActStep, Kept;
    }
  }

  // ---------------------------------------------------------------- an answered post is the last word

  /** A post that was answered. */
  predicate Answered(c: Call) {
    c.task.pc.PostNow? && c.outcome.Done?
  }

  /** A step that appends another entry or a dead-letter copy. */
  predicate GoesOn(c: Call) {
    c.task.pc.Append? || c.task.pc.DeadLetter?
  }

  lemma UnderwayIsUnanswered(cfg: Config, f: Fields, cs: seq<Call>, task: Task, c: Call)
    requires Underway(cfg, f, cs, task) && c in cs
    ensures !Answered(c) && !GoesOn(c)
  {
    hide ReadDue;
  }

  lemma ScriptedNeverBoth(cfg: Config, f: Fields, cs: seq<Call>, task: Task, c: Call, d: Call)
    requires Scripted(cfg, f, cs, task) && c in cs && d in cs
    ensures !(Answered(c) && GoesOn(d))
    ensures Answered(c) ==> task.pc.AckEntry?
  {
    if task.pc.AckEntry? {
      var n := |cs| - 1;
      assert cs == cs[..n] + [cs[n]];
      if c in cs[..n] { UnderwayIsUnanswered(cfg, f, cs[..n], cs[n].task, c); }
      if d in cs[..n] { UnderwayIsUnanswered(cfg, f, cs[..n], cs[n].task, d); }
    } else {
      UnderwayIsUnanswered(cfg, f, cs, task, c);
    }
    hide Underway;
  }

  /** In every run: a handling whose post was answered appends no further attempt and no dead-letter copy. */
  lemma AnsweredIsSettled(cfg: Config, ls: seq<Label>, t: TaskId, c: Call, d: Call)
    requires Run(cfg, ls).Some? && c in Calls(cfg, ls, t) && d in Calls(cfg, ls, t)
    ensures !(Answered(c) && GoesOn(d))
  {
    CallsKeepToTheScript(cfg, ls, t);
    var s, cs := Run(cfg, ls).value, Calls(cfg, ls, t);
    hide Scripted, Run, Calls;
    if t in s.tasks {
      ScriptedNeverBoth(cfg, s.entries[s.tasks[t].entry].fields, cs, s.tasks[t], c, d);
    } else {
      ClosedNeverBoth(cfg, s.entries, cs, c, d);
    }
  }

  lemma ClosedNeverBoth(cfg: Config, entries: seq<Entry>, cs: seq<Call>, c: Call, d: Call)
    requires Closed(cfg, entries, cs) && c in cs && d in cs
    ensures !(Answered(c) && GoesOn(d))
  {
    var f, n := entries[cs[0].task.entry].fields, |cs| - 1;
    hide Scripted;
    if Returned(cfg, f, cs) {
      assert cs == cs[..n] + [cs[n]];
      if c in cs[..n] {
        ScriptedNeverBoth(cfg, f, cs[..n], cs[n].task, c, if d in cs[..n] then d else c);
      }
    } else {
      var task :| Scripted(cfg, f, cs, task);
      ScriptedNeverBoth(cfg, f, cs, task, c, d);
    }
  }
}
