/**
 One wasm VM serving requests and ticks. The guest is any program: in every hook it makes any host calls it
 likes and returns or traps. Results of outbound calls may arrive at any time.
 */
module WasmVm {
  import opened Options
  import opened HttpCalls
  import opened HookTrace

  const ROOT: ContextId := 1

  /** The flags of a request context that steer the host. */
  datatype Ctx = Ctx(continueRequested: bool, local: Option<nat>, awaitingDone: bool, doneMarker: bool)

  const FRESH := Ctx(false, None, false, false)

  datatype Error = Trap | ResourceLimit | BodyTooLarge | AbiViolation

  /** requires_vm_rebuild. */
  predicate NeedsRebuild(e: Error) {
    e.Trap? || e.ResourceLimit?
  }

  /** Dropped: the caller gave up at an await, and the future with it. */
  datatype Result<T> = Ok(value: T) | Err(error: Error) | Dropped

  /** The sizes of a request's body and of the inner response's; None: it cannot be read to its end. */
  datatype Bodies = Bodies(request: Option<nat>, response: Option<nat>)

  /** With a limit, a body must be readable and within it. */
  predicate Fits(maxBody: Option<nat>, body: Option<nat>) {
    maxBody.Some? ==> body.Some? && body.value <= maxBody.value
  }

  function BodyOf(b: Bodies, h: Hook): Option<nat> {
    if h.RequestBody? then b.request else b.response
  }

  /** Every body handed to a hook fitted. */
  ghost predicate Fitting(t: seq<Event>, maxBody: Option<nat>, b: Bodies) {
    forall h :: h in BodiesRun(t) ==> Fits(maxBody, BodyOf(b, h))
  }

  /** The request stopped before the hook of a body that did not fit: the hooks before it have run, no others. */
  ghost predicate Oversized(t: seq<Event>, x: Exports, maxBody: Option<nat>, b: Bodies) {
    || (x.requestBody && !Fits(maxBody, b.request) && Hooks(t) == [Create, RequestHeaders])
    || (x.responseBody && !Fits(maxBody, b.response) && Hooks(t) == InnerScript(x))
  }

  lemma OversizedAt(t: seq<Event>, x: Exports, id: ContextId, maxBody: Option<nat>, b: Bodies, h: Hook)
    requires IsBody(h) && Has(x, h) && !Fits(maxBody, BodyOf(b, h)) && Progress(t, x, id, Upstream, Rank(h))
    ensures Oversized(t, x, maxBody, b)
  {
    HooksAtBody(t, x, id, h);
    hide Progress, Hooks, InnerScript;
  }

  lemma FittingMore(t: seq<Event>, s: seq<Event>, maxBody: Option<nat>, b: Bodies, h: Hook, id: ContextId)
    requires Fitting(t, maxBody, b) && Segment(s, h, id) && (IsBody(h) ==> Fits(maxBody, BodyOf(b, h)))
    ensures Fitting(t + s, maxBody, b)
  {
    BodiesOfSegment(s, h, id);
    BodiesConcat(t, s);
  }

  datatype Reply = FromInner | FromGuest(status: nat)

  datatype Status = StatusOk | NotFound | BadArgument | InternalFailure | Unimplemented | InvalidMemoryAccess

  /** The response hooks fired between two histories, all while request `id` was driven. */
  ghost predicate Recorded(before: seq<Delivery>, after: seq<Delivery>, id: ContextId, era: nat, t: seq<Event>) {
    && before <= after && |after| == |before| + |t|
    && forall i :: 0 <= i < |t| ==>
         var d := after[|before| + i];
         t[i] == Answer(d.token, d.ctx) && d.request == id && d.era == era
  }

  /**
   The same, except that after a failed preparation (`spent`) one more result may have been taken whose hook was
   not called.
   */
  ghost predicate Told(before: seq<Delivery>, after: seq<Delivery>, id: ContextId, era: nat,
                       t: seq<Event>, spent: bool)
  {
    || Recorded(before, after, id, era, t)
    || (spent && after != [] && Recorded(before, after[..|after| - 1], id, era, t))
  }

  lemma RecordedTogether(a: seq<Delivery>, b: seq<Delivery>, c: seq<Delivery>, id: ContextId, era: nat,
                         t: seq<Event>, s: seq<Event>)
    requires Recorded(a, b, id, era, t) && Recorded(b, c, id, era, s)
    ensures Recorded(a, c, id, era, t + s)
  {
    forall i | 0 <= i < |t + s|
      ensures var d := c[|a| + i]; (t + s)[i] == Answer(d.token, d.ctx) && d.request == id && d.era == era
    {
      if i >= |t| { assert (t + s)[i] == s[i - |t|] && c[|a| + i] == c[|b| + (i - |t|)]; }
      else { assert c[|a| + i] == b[|a| + i]; }
    }
  }

  lemma ToldTogether(a: seq<Delivery>, b: seq<Delivery>, c: seq<Delivery>, id: ContextId, era: nat,
                     t: seq<Event>, s: seq<Event>, spent: bool)
    requires Recorded(a, b, id, era, t) && Told(b, c, id, era, s, spent)
    ensures Told(a, c, id, era, t + s, spent)
  {
    hide Recorded;
    if Recorded(b, c, id, era, s) { RecordedTogether(a, b, c, id, era, t, s); }
    else { RecordedTogether(a, b, c[..|c| - 1], id, era, t, s); }
  }

  lemma ToldAreAnswers(before: seq<Delivery>, after: seq<Delivery>, id: ContextId, era: nat, t: seq<Event>, spent: bool)
    requires Told(before, after, id, era, t, spent)
    ensures OnlyAnswers(t)
  {
  }

  lemma NothingRecorded(a: seq<Delivery>, id: ContextId, era: nat)
    ensures Recorded(a, a, id, era, [])
  {
  }

  lemma NothingTold(a: seq<Delivery>, id: ContextId, era: nat, spent: bool)
    ensures Told(a, a, id, era, [], spent)
  {
  }

  /** A hook that returned: a pause is marked. */
  function Ran(h: Hook, id: ContextId, action: nat): seq<Event> {
    if action == 1 then [Main(h, id), Pause(id)] else [Main(h, id)]
  }

  lemma HookThenAnswers(h: Hook, id: ContextId, action: nat, s: seq<Event>)
    requires OnlyAnswers(s) && (s != [] ==> action == 1 && CanPause(h))
    ensures Answers(Ran(h, id, action) + s) == s && Segment(Ran(h, id, action) + s, h, id)
  {
    var t := Ran(h, id, action);
    AnswersOfAnswers(s);
    AnswersOfHook(h, id);
    AnswersConcat(t, s);
    assert (t + s)[1..] == t[1..] + s;
    assert action == 1 ==> (t + s)[1..][1..] == s;
  }

  /** A hook without responses. */
  lemma QuietHook(a: seq<Delivery>, h: Hook, id: ContextId, era: nat)
    ensures Recorded(a, a, id, era, Answers([])) && Recorded(a, a, id, era, Answers([Main(h, id)]))
    ensures forall spent ::
      Told(a, a, id, era, Answers([]), spent) && Told(a, a, id, era, Answers([Main(h, id)]), spent)
  {
    AnswersOfHook(h, id);
  }

  /**
   The next id counts the requests started; and until ids wrap around there is no context but the root's and
   those of requests that have not ended well.
   */
  ghost predicate Known(contexts: map<ContextId, Ctx>, next: ContextId, era: nat, unfinished: set<ContextId>) {
    && next == (era + 2) % TWO_32
    && (era < TWO_32 - 1 ==> forall c :: c in contexts ==> c == ROOT || (c in unfinished && 2 <= c < era + 2))
  }

  /** wrapping_add(1). */
  function NextAfter(id: ContextId): ContextId {
    (id + 1) % TWO_32
  }

  /** The next request's id is new until ids wrap around. */
  lemma NextRequest(contexts: map<ContextId, Ctx>, next: ContextId, era: nat, unfinished: set<ContextId>)
    requires Known(contexts, next, era, unfinished)
    ensures era < TWO_32 - 1 ==> next !in contexts && next != ROOT
    ensures era + 1 < TWO_32 - 1 ==> 2 <= next < era + 3
    ensures Known(contexts, NextAfter(next), era + 1, unfinished + {next})
  {
    NextId(era);
  }

  class Vm {
    const exports: Exports
    const maxBody: Option<nat>
    const limit: Option<nat>

    var contexts: map<ContextId, Ctx>
    var effective: ContextId
    var nextCtxId: ContextId
    var pending: map<Token, ContextId>
    var nextToken: Token

    // The tasks making the outbound calls, and the queue they send to.
    var tasks: multiset<Token>
    var results: seq<Token>

    // History: calls, deliveries and drains; requests started and those not ended well; the last local
    // response sent for each context, and the last one taken.
    ghost var issues: seq<Issue>
    ghost var deliveries: seq<Delivery>
    ghost var drained: multiset<Token>
    ghost var era: nat
    ghost var unfinished: set<ContextId>
    ghost var said: map<ContextId, nat>
    ghost var answer: Option<nat>

    ghost function View(): Calls
      reads this
    {
      Calls(pending, nextToken, tasks, results, issues, deliveries, drained, era)
    }

    ghost predicate ContextsKnown()
      reads `contexts, `nextCtxId, `era, `unfinished
    {
      Known(contexts, nextCtxId, era, unfinished)
    }

    /** A local response kept for a context is the last one the guest sent for it. */
    ghost predicate LastSaid()
      reads `contexts, `said
    {
      forall c :: c in contexts && contexts[c].local.Some? ==> c in said && contexts[c].local == Some(said[c])
    }

    ghost predicate Valid()
      reads this
    {
      Inv(View(), limit) && ContextsKnown() && LastSaid()
    }

    twostate predicate SameContexts()
      reads this
    {
      contexts.Keys == old(contexts.Keys)
    }

    /** What no guest can change. */
    twostate predicate GuestKept()
      reads this
    {
      && SameContexts()
      && nextCtxId == old(nextCtxId) && era == old(era) && unfinished == old(unfinished) && answer == old(answer)
      && deliveries == old(deliveries) && drained == old(drained)
    }

    constructor (exports: Exports, limit: Option<nat>, maxBody: Option<nat>)
      ensures Valid() && View() == IDLE && contexts == map[] && unfinished == {}
      ensures this.exports == exports && this.limit == limit && this.maxBody == maxBody
    {
      this.exports, this.limit, this.maxBody := exports, limit, maxBody;
      contexts, effective, nextCtxId := map[], ROOT, ROOT + 1;
      pending, nextToken, tasks, results := map[], 1, multiset{}, [];
      issues, deliveries, drained, era, unfinished := [], [], multiset{}, 0, {};
      said, answer := map[], None;
      new;
      IdleKeeps(limit);
    }

    // -------------------------------------------------------------- host calls

    method SetEffectiveContext(cid: ContextId) returns (status: Status)
      requires Valid()
      modifies this`effective
      ensures Valid()
      ensures effective == if cid in contexts || cid == ROOT then cid else old(effective)
      ensures status == if cid in contexts || cid == ROOT then StatusOk else BadArgument
    {
      hide Inv;
      if cid in contexts || cid == ROOT {
        effective := cid;
        return StatusOk;
      }
      return BadArgument;
    }

    /** proxy_done answers Ok once for every time the host awaits it. */
    method ProxyDone() returns (status: Status)
      requires Valid()
      modifies this`contexts
      ensures Valid() && SameContexts()
      ensures status == if effective in old(contexts) && old(contexts)[effective].awaitingDone then StatusOk
                        else NotFound
      ensures status == StatusOk ==>
        contexts[effective] == old(contexts)[effective].(doneMarker := true, awaitingDone := false)
      ensures forall c :: c in contexts && (c != effective || status != StatusOk) ==> contexts[c] == old(contexts)[c]
    {
      hide Inv;
      if effective !in contexts || !contexts[effective].awaitingDone {
        return NotFound;
      }
      contexts := contexts[effective := contexts[effective].(doneMarker := true, awaitingDone := false)];
      return StatusOk;
    }

    /** Stream types: 0 request, 1 response, 2 downstream, 3 upstream. */
    method ContinueStream(streamType: int) returns (status: Status)
      requires Valid()
      modifies this`contexts
      ensures Valid() && SameContexts()
      ensures status == if streamType in {0, 1} then StatusOk
                        else if streamType in {2, 3} then Unimplemented else BadArgument
      ensures forall c :: c in contexts ==>
        contexts[c] == if status == StatusOk && c == effective then old(contexts)[c].(continueRequested := true)
                       else old(contexts)[c]
    {
      hide Inv;
      if streamType < 0 || streamType > 3 {
        return BadArgument;
      }
      if streamType > 1 {
        return Unimplemented;
      }
      if effective in contexts {
        contexts := contexts[effective := contexts[effective].(continueRequested := true)];
      }
      return StatusOk;
    }

    /** A response sent for a context the host does not know is dropped, and the guest is told Ok. */
    method SendLocalResponse(code: nat) returns (status: Status)
      requires Valid()
      modifies this`contexts, this`said
      ensures Valid() && SameContexts() && status == StatusOk
      ensures forall c :: c in contexts ==>
        contexts[c] == if c == effective then old(contexts)[c].(local := Some(code)) else old(contexts)[c]
      ensures said == if effective in contexts then old(said)[effective := code] else old(said)
    {
      hide Inv;
      if effective in contexts {
        said := said[effective := code];
        contexts := contexts[effective := contexts[effective].(local := Some(code))];
      }
      return StatusOk;
    }

    /**
     proxy_http_call once its arguments are read; `written` tells whether the token could be written back to
     the guest. If it could not, the guest is told of an error although the call is made.
     */
    method HttpCall(written: bool) returns (status: Status)
      requires Valid()
      modifies this`pending, this`nextToken, this`tasks, this`issues
      ensures Valid()
      ensures View() == Step(old(View()), limit, Call(effective))
      ensures status == if limit.Some? && |old(pending)| >= limit.value then InternalFailure
                        else if written then StatusOk else InvalidMemoryAccess
    {
      hide Inv, ContextsKnown, LastSaid, Following;
      if limit.Some? && |pending| >= limit.value {
        return InternalFailure;
      }
      IssueKeeps(View(), limit, effective);
      var token := nextToken;
      nextToken := Following(nextToken);
      pending := pending[token := effective];
      tasks := tasks + multiset{token};
      issues := issues + [Issue(token, effective, era)];
      return if written then StatusOk else InvalidMemoryAccess;
    }

    /** A task sends its result. */
    method Arrive(token: Token)
      requires Valid() && token in tasks
      modifies this`tasks, this`results
      ensures Valid() && View() == Arrived(old(View()), token)
    {
      hide Inv, ContextsKnown, LastSaid;
      ArriveKeeps(View(), limit, token);
      tasks := tasks - multiset{token};
      results := results + [token];
    }

    // -------------------------------------------------------------- running the guest

    /** One thing that can happen while the guest runs: a host call of its choice, or a result arrives. */
    method GuestStep()
      requires Valid()
      modifies this
      ensures Valid() && GuestKept()
    {
      hide Inv, ContextsKnown, LastSaid, Step, Arrived;
      var x: nat := *;
      var choice: nat := *;
      if choice == 0 {
        var status := SetEffectiveContext(x);
      } else if choice == 1 {
        var status := ProxyDone();
      } else if choice == 2 {
        var status := ContinueStream(x);
      } else if choice == 3 {
        var status := SendLocalResponse(x);
      } else if choice == 4 {
        var status := HttpCall(x == 0);
      } else if x in tasks {
        Arrive(x);
      }
    }

    /** A hook called for context `at`: any number of steps of the guest, then it returns a value or traps. */
    method Guest(ghost at: ContextId) returns (r: Option<nat>)
      requires Valid() && effective == at
      modifies this
      ensures Valid() && GuestKept()
    {
      var n: nat := *;
      while n > 0
        invariant Valid() && GuestKept()
      {
        hide Inv;
        n := n - 1;
        GuestStep();
      }
      r := *;
    }

    /** prepare_guest_call: setting the fuel may fail. */
    method Prepare() returns (ok: bool)
    {
      ok := *;
    }

    // -------------------------------------------------------------- waiting for responses

    /** What the hooks of a request keep. */
    twostate predicate HooksKept()
      reads this
    {
      && SameContexts()
      && nextCtxId == old(nextCtxId) && era == old(era) && unfinished == old(unfinished) && drained == old(drained)
    }

    /** What a drive loop keeps; the calls it answers are recorded. */
    twostate predicate DriveKept(id: ContextId, t: seq<Event>, spent: bool)
      reads this
    {
      && HooksKept() && answer == old(answer)
      && Told(old(deliveries), deliveries, id, era, t, spent)
    }

    /** recv: it returns because there is a result already or a task that will send one. */
    method AwaitResult()
      requires Valid() && pending != map[]
      modifies this`tasks, this`results
      ensures Valid() && results != []
    {
      hide Inv;
      SomethingToAwait(View(), limit);
      if results == [] {
        var first :| first in tasks;
        Arrive(first);
      }
      var n: nat := *;
      while n > 0
        invariant Valid() && results != []
      {
        n := n - 1;
        var x: nat := *;
        if x in tasks { Arrive(x); }
      }
    }

    /** The next result is matched with its pending call, if there still is one. */
    method TakeResult(id: ContextId) returns (token: Token, source: ContextId)
      requires Valid() && pending != map[] && results != []
      modifies this
      ensures Valid() && View() == Step(old(View()), limit, Round(id))
      ensures token == old(results)[0] && source == Target(old(View()), id) && effective == source
      ensures SameContexts() && nextCtxId == old(nextCtxId) && unfinished == old(unfinished) && answer == old(answer)
    {
      hide Inv, ContextsKnown, LastSaid;
      DeliverKeeps(View(), limit, id);
      token := results[0];
      source := if token in pending then pending[token] else id;
      results := results[1..];
      pending := pending - {token};
      deliveries := deliveries + [Delivery(token, source, id, era)];
      Focus(source);
      if source in contexts {
        Enter(source);
      }
    }

    /** The response hook for the next result. */
    method Respond(id: ContextId) returns (r: Result<()>, ghost t: seq<Event>)
      requires Valid() && pending != map[] && results != []
      modifies this
      ensures Valid() && DriveKept(id, t, r == Err(ResourceLimit)) && !r.Dropped?
      ensures r != Err(AbiViolation) && r != Err(BodyTooLarge)
      ensures t == if r == Err(ResourceLimit) then [] else [Answer(old(results)[0], Target(old(View()), id))]
    {
      hide Inv, Target, ContextsKnown, LastSaid;
      var token, source := TakeResult(id);
      assert deliveries[..|deliveries| - 1] == old(deliveries);
      var ok := Prepare();
      if !ok {
        assert Recorded(old(deliveries), deliveries[..|deliveries| - 1], id, era, []);
        return Err(ResourceLimit), [];
      }
      t := [Answer(token, source)];
      assert Recorded(old(deliveries), deliveries, id, era, t);
      hide Recorded;
      var back := Guest(source);
      return if back.Some? then Ok(()) else Err(Trap), t;
    }

    /**
     drive_until_continue: it ends only with a local response, with nothing pending, with a failure of the
     guest, or because the caller gave up; with a local response or nothing pending from the start it returns at
     once.
     */
    method Drive(id: ContextId) returns (r: Result<()>, ghost t: seq<Event>)
      requires Valid() && id in contexts
      modifies this
      ensures Valid() && DriveKept(id, t, r == Err(ResourceLimit)) && r != Err(AbiViolation) && r != Err(BodyTooLarge)
      ensures r.Ok? ==> contexts[id].local.Some? || pending == map[]
      ensures old(contexts[id].local.Some? || pending == map[]) ==> r.Ok? && t == [] && unchanged(this)
    {
      hide Inv, Recorded, ContextsKnown, LastSaid;
      t := [];
      assert Recorded(deliveries, deliveries, id, era, t) by { NothingRecorded(deliveries, id, era); }
      var patience: nat := *;
      while true
        invariant Valid() && DriveKept(id, t, false)
        invariant old(contexts[id].local.Some? || pending == map[]) ==> t == [] && unchanged(this)
        decreases patience
      {
        if id !in contexts {
          return Err(AbiViolation), t;
        }
        if contexts[id].local.Some? {
          return Ok(()), t;
        }
        if contexts[id].continueRequested && pending == map[] {
          return Ok(()), t;
        }
        if pending == map[] {
          return Ok(()), t;
        }
        if patience == 0 {
          return Dropped, t;
        }
        patience := patience - 1;
        ghost var soFar := deliveries;
        AwaitResult();
        ghost var s;
        r, s := Respond(id);
        ToldTogether(old(deliveries), soFar, deliveries, id, era, t, s, r == Err(ResourceLimit));
        t := t + s;
        if !r.Ok? {
          return;
        }
      }
    }

    // -------------------------------------------------------------- one request

    /** The context becomes the current one, with its continue flag cleared. */
    method Enter(id: ContextId)
      requires Valid() && id in contexts
      modifies this`effective, this`contexts
      ensures Valid() && SameContexts() && effective == id
      ensures contexts == old(contexts)[id := old(contexts)[id].(continueRequested := false)]
    {
      hide Inv;
      effective := id;
      contexts := contexts[id := contexts[id].(continueRequested := false)];
    }

    /** The local response, if any, leaves the context: it is the last one sent for it. */
    method TakeLocal(id: ContextId) returns (local: Option<nat>)
      requires Valid() && id in contexts
      modifies this`contexts, this`answer
      ensures Valid() && SameContexts()
      ensures local == old(contexts)[id].local && answer == local
      ensures local.Some? ==> id in said && local == Some(said[id])
      ensures contexts == old(contexts)[id := old(contexts)[id].(local := None)]
    {
      hide Inv;
      local := contexts[id].local;
      answer := local;
      contexts := contexts[id := contexts[id].(local := None)];
    }

    /** The guest runs one hook of the request; only a hook that was not started leaves no event. */
    method CallHook(h: Hook, id: ContextId) returns (r: Result<nat>, ghost t: seq<Event>)
      requires Valid() && id in contexts
      modifies this
      ensures Valid() && HooksKept() && !r.Dropped? && deliveries == old(deliveries)
      ensures r.Ok? ==> t == Ran(h, id, r.value)
      ensures r.Err? ==> (r.error == Trap && t == [Main(h, id)]) || (r.error == ResourceLimit && t == [])
    {
      hide Inv, ContextsKnown, LastSaid;
      Enter(id);
      var ok := Prepare();
      if !ok {
        return Err(ResourceLimit), [];
      }
      var back := Guest(id);
      if back.None? {
        return Err(Trap), [Main(h, id)];
      }
      return Ok(back.value), Ran(h, id, back.value);
    }

    /** A pause is driven, except one in the request headers with nothing pending; without a pause nothing is. */
    method AfterHook(h: Hook, id: ContextId, action: nat) returns (r: Result<()>, ghost t: seq<Event>)
      requires Valid() && id in contexts
      modifies this
      ensures Valid() && HooksKept() && OnlyAnswers(t) && (t != [] ==> CanPause(h))
      ensures action != 1 ==> r.Ok? && t == [] && unchanged(this)
      ensures r != Err(AbiViolation) && r != Err(BodyTooLarge)
      ensures Told(old(deliveries), deliveries, id, era, t, r == Err(ResourceLimit))
      ensures r.Ok? && action == 1 && CanPause(h) ==> contexts[id].local.Some? || pending == map[]
    {
      hide Inv, ContextsKnown, LastSaid, Recorded, Told, CanPause;
      r, t := Ok(()), [];
      NothingTold(deliveries, id, era, false);
      if action == 1 && CanPause(h) && (h.RequestHeaders? ==> pending != map[]) {
        r, t := Drive(id);
        ToldAreAnswers(old(deliveries), deliveries, id, era, t, r == Err(ResourceLimit));
      }
    }

    /**
     One hook of the request: the context is made current and its continue flag cleared, the guest runs, a
     pause is driven, and a local response is taken if this is a place where one is looked for. A hook that did
     not pause is followed by nothing and takes no result.
     */
    method Stage(h: Hook, id: ContextId) returns (r: Result<Option<nat>>, ghost t: seq<Event>, ghost paused: bool)
      requires Valid() && id in contexts
      modifies this
      ensures Valid() && HooksKept() && Segment(t, h, id) && (r.Ok? ==> t != [])
      ensures r != Err(AbiViolation) && r != Err(BodyTooLarge)
      ensures Told(old(deliveries), deliveries, id, era, Answers(t), r == Err(ResourceLimit))
      ensures !paused ==> |t| <= 1 && deliveries == old(deliveries) && !r.Dropped?
      ensures paused ==> |t| >= 2 && t[1] == Pause(id)
      ensures r.Ok? && CanAnswer(h) ==> contexts[id].local.None?
      ensures r.Ok? && r.value.Some? ==> answer == r.value && id in said && r.value == Some(said[id])
      ensures r.Ok? && !CanAnswer(h) ==> r.value.None?
      ensures r.Ok? && paused && CanPause(h) ==> pending == map[] || r.value.Some? || contexts[id].local.Some?
    {
      hide Inv, ContextsKnown, LastSaid, Recorded, Told, CanPause, CanAnswer, Answers;
      paused := false;
      var back;
      back, t := CallHook(h, id);
      QuietHook(deliveries, h, id, era);
      if back.Err? {
        assert Segment(t, h, id);
        return Err(back.error), t, paused;
      }
      paused := back.value == 1;
      ghost var s;
      var d;
      d, s := AfterHook(h, id, back.value);
      HookThenAnswers(h, id, back.value, s);
      hide Segment;
      t := t + s;
      if d.Err? {
        return Err(d.error), t, paused;
      }
      if d.Dropped? {
        return Dropped, t, paused;
      }
      if CanAnswer(h) {
        var local := TakeLocal(id);
        r := Ok(local);
      } else {
        r := Ok(None);
      }
    }

    /** An id that may stand for the request being served. */
    ghost predicate Admitted(id: ContextId)
      reads this
    {
      id in unfinished && (era < TWO_32 - 1 ==> 2 <= id < era + 2)
    }

    /** try_recv until the queue is empty. */
    method DrainResults()
      modifies this`results, this`drained
      ensures results == [] && drained == old(drained) + multiset(old(results))
    {
      hide *;
      while results != []
        invariant drained + multiset(results) == old(drained) + multiset(old(results))
        decreases |results|
      {
        assert results == [results[0]] + results[1..];
        drained := drained + multiset{results[0]};
        results := results[1..];
      }
      assert multiset(results) == multiset{};
    }

    /** The results already queued are thrown away, the pending calls forgotten, and the next id is taken. */
    method Begin() returns (id: ContextId)
      requires Valid()
      modifies this
      ensures Valid() && Admitted(id) && View() == Started(old(View()))
      ensures id == old(nextCtxId) && contexts == old(contexts)
      ensures forall c :: c in unfinished <==> c in old(unfinished) || c == id
      ensures old(era) < TWO_32 - 1 ==> id !in contexts && id != ROOT
    {
      hide Inv, LastSaid, Known, NextAfter;
      StartKeeps(View(), limit);
      NextRequest(contexts, nextCtxId, era, unfinished);
      id := nextCtxId;
      DrainResults();
      pending := map[];
      nextCtxId := NextAfter(nextCtxId);
      era := era + 1;
      unfinished := unfinished + {id};
    }

    /** entry(id).or_default(): a context left under this id would be taken over. */
    method Insert(id: ContextId)
      requires Valid() && Admitted(id)
      modifies this`contexts, this`effective
      ensures Valid() && Admitted(id) && contexts.Keys == old(contexts.Keys) + {id} && effective == id
      ensures var ctx := if id in old(contexts) then old(contexts)[id] else FRESH;
        contexts == old(contexts)[id := ctx.(continueRequested := false)]
    {
      hide Inv;
      var ctx := if id in contexts then contexts[id] else FRESH;
      contexts := contexts[id := ctx.(continueRequested := false)];
      effective := id;
    }

    /**
     create_context for the request, then its context is entered into the map: whatever the create hook tried
     to set on a new context, a local response say, is not there.
     */
    method Open(id: ContextId) returns (r: Result<()>, ghost t: seq<Event>)
      requires Valid() && Admitted(id)
      modifies this
      ensures Valid() && Admitted(id) && !r.Dropped? && r != Err(AbiViolation) && r != Err(BodyTooLarge)
      ensures nextCtxId == old(nextCtxId) && era == old(era) && unfinished == old(unfinished)
      ensures deliveries == old(deliveries)
      ensures r.Ok? ==> t == [Main(Create, id)] && contexts.Keys == old(contexts.Keys) + {id}
      ensures r.Ok? && id !in old(contexts) ==> contexts[id] == FRESH
      ensures r.Err? ==> SameContexts() && (t == [] || t == [Main(Create, id)])
    {
      hide Inv, ContextsKnown, LastSaid;
      Focus(id);
      var ok := Prepare();
      if !ok {
        return Err(ResourceLimit), [];
      }
      var back := Guest(id);
      t := [Main(Create, id)];
      if back.None? {
        return Err(Trap), t;
      }
      Insert(id);
      return Ok(()), t;
    }

    /** A closing hook, if the guest exports it: a trap in it is ignored. */
    method Closing(h: Hook, id: ContextId, ghost e: Ending, ghost before: seq<Event>)
      returns (ok: bool, ghost t: seq<Event>)
      requires Valid() && Progress(before, exports, id, e, Rank(h)) && Reached(e, h) && !IsBody(h)
      requires h == Log ==> effective == id
      requires h == Done && exports.done && id in contexts ==> contexts[id].awaitingDone
      modifies this
      ensures Valid() && HooksKept() && answer == old(answer) && deliveries == old(deliveries)
      ensures Answers(t) == Answers(before) && BodiesRun(t) == BodiesRun(before)
      ensures if ok then Progress(t, exports, id, e, Rank(h) + 1) else Partial(t, exports, id, e)
    {
      hide Inv, ContextsKnown, LastSaid, Progress, InOrder, Reached, Has, Rank;
      t := before;
      if !Has(exports, h) {
        Skip(t, exports, id, e, h);
        return true, t;
      }
      ok := Prepare();
      if !ok {
        Stopped(t, exports, id, e, h);
        return;
      }
      AnswersKept(t, h, id);
      BodiesKept(t, h, id);
      t := t + [Main(h, id)];
      AdvanceBy(before, exports, id, e, h, [Main(h, id)]);
      var ignored := Guest(effective);
    }

    method Focus(id: ContextId)
      requires Valid()
      modifies this`effective
      ensures Valid() && effective == id
    {
      hide Inv, ContextsKnown, LastSaid;
      effective := id;
    }

    method AwaitDone(id: ContextId)
      requires Valid()
      modifies this`contexts
      ensures Valid() && SameContexts()
      ensures id in contexts ==> contexts[id].awaitingDone
    {
      hide Inv;
      if id in contexts {
        contexts := contexts[id := contexts[id].(awaitingDone := true)];
      }
    }

    method Remove(id: ContextId)
      requires Valid() && Admitted(id)
      modifies this`contexts, this`unfinished
      ensures Valid()
      ensures forall c :: c in contexts <==> c in old(contexts) && c != id
      ensures forall c :: c in unfinished <==> c in old(unfinished) && c != id
    {
      hide Inv;
      contexts := contexts - {id};
      unfinished := unfinished - {id};
    }

    /** The done hook: proxy_done is awaited from here on. */
    method Finalize(id: ContextId, ghost e: Ending, ghost before: seq<Event>) returns (ok: bool, ghost t: seq<Event>)
      requires Valid() && Progress(before, exports, id, e, Rank(Done)) && Reached(e, Done)
      modifies this
      ensures Valid() && HooksKept() && answer == old(answer) && deliveries == old(deliveries)
      ensures Answers(t) == Answers(before) && BodiesRun(t) == BodiesRun(before)
      ensures if ok then Progress(t, exports, id, e, Rank(Done) + 1) else Partial(t, exports, id, e)
    {
      hide Inv, ContextsKnown, LastSaid, Progress, InOrder, Has, Rank, Reached;
      if exports.done {
        AwaitDone(id);
      }
      ok, t := Closing(Done, id, e, before);
    }

    /** The hooks of invoke_log_done_delete. */
    method CloseHooks(id: ContextId, ghost e: Ending, ghost before: seq<Event>) returns (ok: bool, ghost t: seq<Event>)
      requires Valid() && Progress(before, exports, id, e, Rank(Log))
      modifies this
      ensures Valid() && HooksKept() && answer == old(answer) && deliveries == old(deliveries)
      ensures Answers(t) == Answers(before) && BodiesRun(t) == BodiesRun(before)
      ensures if ok then Complete(t, exports, id, e) else Partial(t, exports, id, e)
    {
      hide Inv, ContextsKnown, LastSaid, Progress, InOrder, Partial, Has, Rank, Reached, Answers, BodiesRun;
      ClosingRanks(e);
      Focus(id);
      ok, t := Closing(Log, id, e, before);
      if ok {
        ok, t := Finalize(id, e, t);
      }
      if ok {
        ok, t := Closing(Delete, id, e, t);
      }
    }

    /** invoke_log_done_delete: if it succeeds the context is gone. */
    method Finish(id: ContextId, ghost e: Ending, ghost before: seq<Event>) returns (r: Result<()>, ghost t: seq<Event>)
      requires Valid() && Admitted(id) && Progress(before, exports, id, e, Rank(Log))
      modifies this
      ensures Valid() && nextCtxId == old(nextCtxId) && era == old(era) && answer == old(answer)
      ensures deliveries == old(deliveries) && Answers(t) == Answers(before) && BodiesRun(t) == BodiesRun(before)
      ensures r.Ok? || r == Err(ResourceLimit)
      ensures r.Ok? ==> Complete(t, exports, id, e)
      ensures r.Ok? ==> forall c :: c in contexts <==> c in old(contexts) && c != id
      ensures r.Ok? ==> forall c :: c in unfinished <==> c in old(unfinished) && c != id
      ensures !r.Ok? ==> SameContexts() && unfinished == old(unfinished) && Partial(t, exports, id, e)
    {
      hide Inv, ContextsKnown, LastSaid, Progress, InOrder, Has, Rank, Reached;
      var ok;
      ok, t := CloseHooks(id, e, before);
      if !ok {
        return Err(ResourceLimit), t;
      }
      Remove(id);
      return Ok(()), t;
    }

    /** collect_body_limited: a body that does not fit is refused; the caller may give up meanwhile. */
    method CollectBody(body: Option<nat>) returns (r: Result<()>)
      ensures r in {Ok(()), Err(BodyTooLarge), Dropped}
      ensures r.Ok? ==> Fits(maxBody, body)
      ensures r == Err(BodyTooLarge) ==> !Fits(maxBody, body)
    {
      var dropped: bool := *;
      if dropped {
        return Dropped;
      }
      if maxBody.Some? && (body.None? || body.value > maxBody.value) {
        return Err(BodyTooLarge);
      }
      return Ok(());
    }

    /** What the hooks of a request have done by rank n, or why they stopped. */
    ghost predicate Standing(r: Result<Option<nat>>, t: seq<Event>, id: ContextId, h: Hook, b: Bodies)
      reads this
    {
      Fitting(t, maxBody, b) &&
      if r.Ok? then Progress(t, exports, id, Upstream, Rank(h) + 1) && (r.value.Some? ==> CanAnswer(h))
      else
        && r != Err(AbiViolation) && Partial(t, exports, id, Upstream)
        && (r == Err(BodyTooLarge) ==> Oversized(t, exports, maxBody, b))
    }

    /** The responses among the events since `base` are the deliveries since. */
    ghost predicate Tied(base: seq<Delivery>, id: ContextId, t: seq<Event>, spent: bool)
      reads `deliveries, `era
    {
      Told(base, deliveries, id, era, Answers(t), spent)
    }

    /** An optional or mandatory hook on top of the events so far. */
    method Phase(h: Hook, id: ContextId, b: Bodies, ghost base: seq<Delivery>, ghost before: seq<Event>)
      returns (r: Result<Option<nat>>, ghost t: seq<Event>)
      requires Valid() && id in contexts && Progress(before, exports, id, Upstream, Rank(h))
      requires Tied(base, id, before, false) && Fitting(before, maxBody, b)
      modifies this
      ensures Tied(base, id, t, r == Err(ResourceLimit))
      ensures Valid() && HooksKept() && Standing(r, t, id, h, b) && (r.Ok? && r.value.Some? ==> answer == r.value)
    {
      hide Inv, ContextsKnown, LastSaid, Progress, InOrder, Has, Rank, Segment, CanPause, CanAnswer, Recorded;
      t := before;
      if !Has(exports, h) {
        Skip(t, exports, id, Upstream, h);
        return Ok(None), t;
      }
      if h == RequestBody || h == ResponseBody {
        var body := CollectBody(BodyOf(b, h));
        if !body.Ok? {
          Stopped(t, exports, id, Upstream, h);
          if body.Err? { OversizedAt(t, exports, id, maxBody, b, h); }
          return if body.Err? then Err(body.error) else Dropped, t;
        }
      }
      ghost var s, paused;
      ghost var soFar := deliveries;
      r, s, paused := Stage(h, id);
      AnswersConcat(before, s);
      ToldTogether(base, soFar, deliveries, id, era, Answers(before), Answers(s), r == Err(ResourceLimit));
      hide Told, Answers;
      t := before + s;
      AdvanceBy(before, exports, id, Upstream, h, s);
      FittingMore(before, s, maxBody, b, h, id);
    }

    /** The request hooks, up to the first local response. */
    method RequestHooks(id: ContextId, b: Bodies, ghost base: seq<Delivery>, ghost before: seq<Event>)
      returns (r: Result<Option<nat>>, ghost t: seq<Event>, ghost after: Hook)
      requires Valid() && id in contexts && Progress(before, exports, id, Upstream, Rank(RequestHeaders))
      requires Tied(base, id, before, false) && Fitting(before, maxBody, b)
      modifies this
      ensures Tied(base, id, t, r == Err(ResourceLimit))
      ensures Valid() && HooksKept() && Standing(r, t, id, after, b) && Rank(after) < Rank(Inner)
      ensures r.Ok? && r.value.Some? ==> answer == r.value
      ensures r == Ok(None) ==> after == RequestTrailers
    {
      hide Inv, ContextsKnown, LastSaid, Progress, InOrder, Has, CanAnswer, Tied;
      after := RequestHeaders;
      r, t := Phase(RequestHeaders, id, b, base, before);
      if r == Ok(None) {
        after := RequestBody;
        r, t := Phase(RequestBody, id, b, base, t);
      }
      if r == Ok(None) {
        after := RequestTrailers;
        r, t := Phase(RequestTrailers, id, b, base, t);
      }
    }

    /** The response hooks, up to a local response after the headers; one sent later is not looked for. */
    method ResponseHooks(id: ContextId, b: Bodies, ghost base: seq<Delivery>, ghost before: seq<Event>)
      returns (r: Result<Option<nat>>, ghost t: seq<Event>, ghost after: Hook)
      requires Valid() && id in contexts && Progress(before, exports, id, Upstream, Rank(ResponseHeaders))
      requires Tied(base, id, before, false) && Fitting(before, maxBody, b)
      modifies this
      ensures Tied(base, id, t, r == Err(ResourceLimit))
      ensures Valid() && HooksKept() && Standing(r, t, id, after, b)
      ensures r.Ok? && r.value.Some? ==> answer == r.value
      ensures r.Ok? ==> after == if r.value.Some? then ResponseHeaders else ResponseTrailers
    {
      hide Inv, ContextsKnown, LastSaid, Progress, InOrder, Has, Tied;
      after := ResponseHeaders;
      r, t := Phase(ResponseHeaders, id, b, base, before);
      if r == Ok(None) {
        after := ResponseBody;
        r, t := Phase(ResponseBody, id, b, base, t);
        if r.Ok? {
          after := ResponseTrailers;
          r, t := Phase(ResponseTrailers, id, b, base, t);
        }
      }
    }

    /** inner.call: the caller may give up while it runs. */
    method CallInner(id: ContextId, ghost before: seq<Event>) returns (r: Result<()>, ghost t: seq<Event>)
      requires Progress(before, exports, id, Upstream, Rank(Inner))
      ensures r in {Ok(()), Dropped} && t == before + [Main(Inner, id)]
      ensures Progress(t, exports, id, Upstream, Rank(ResponseHeaders)) && Partial(t, exports, id, Upstream)
      ensures Answers(t) == Answers(before) && BodiesRun(t) == BodiesRun(before)
    {
      AnswersKept(before, Inner, id);
      BodiesKept(before, Inner, id);
      t := before + [Main(Inner, id)];
      AdvanceBy(before, exports, id, Upstream, Inner, [Main(Inner, id)]);
      var fate: bool := *;
      return if fate then Ok(()) else Dropped, t;
    }

    /** What becomes of a request: its events, its context, and its place among the unfinished. */
    twostate predicate Settled(new r: Result<Reply>, t: seq<Event>, id: ContextId, e: Ending, b: Bodies)
      reads this
    {
      Fitting(t, maxBody, b) &&
      if r.Ok? then
        && Complete(t, exports, id, e)
        && (forall c :: c in contexts <==> c in old(contexts) && c != id)
        && (forall c :: c in unfinished <==> c in old(unfinished) && c != id)
        && (r.value.FromInner? <==> e.Upstream?)
        && (e.Local? ==> CanAnswer(e.after) && answer == Some(r.value.status))
      else
        && r != Err(AbiViolation) && SameContexts() && unfinished == old(unfinished)
        && Partial(t, exports, id, e) && (e.Local? ==> CanAnswer(e.after))
        && (r == Err(BodyTooLarge) ==> Oversized(t, exports, maxBody, b))
    }

    /** The request ends with the guest's answer after hook h, or with the inner one. */
    method Conclude(id: ContextId, b: Bodies, local: Option<nat>, ghost h: Hook, ghost before: seq<Event>)
      returns (r: Result<Reply>, ghost t: seq<Event>, ghost e: Ending)
      requires Valid() && Admitted(id) && Progress(before, exports, id, Upstream, Rank(h) + 1)
      requires if local.Some? then CanAnswer(h) && answer == local else h == ResponseTrailers
      requires Fitting(before, maxBody, b)
      modifies this
      ensures Valid() && nextCtxId == old(nextCtxId) && era == old(era) && Settled(r, t, id, e, b)
      ensures deliveries == old(deliveries) && Answers(t) == Answers(before) && BodiesRun(t) == BodiesRun(before)
      ensures r.Ok? && local.Some? ==> r.value == FromGuest(local.value) && e == Local(h)
      ensures r.Ok? && local.None? ==> e == Upstream
    {
      hide Inv, ContextsKnown, LastSaid, Progress, InOrder, Has, CanAnswer;
      e := if local.Some? then Local(h) else Upstream;
      if local.Some? { Shortcut(before, exports, id, h); }
      var f;
      f, t := Finish(id, e, before);
      if !f.Ok? {
        return Err(ResourceLimit), t, e;
      }
      return Ok(if local.Some? then FromGuest(local.value) else FromInner), t, e;
    }

    /** The request from its first hook to its last. */
    method Serve(id: ContextId, b: Bodies, ghost base: seq<Delivery>, ghost before: seq<Event>)
      returns (r: Result<Reply>, ghost t: seq<Event>, ghost e: Ending)
      requires Valid() && Admitted(id) && id in contexts
      requires Progress(before, exports, id, Upstream, Rank(RequestHeaders)) && Tied(base, id, before, false)
      requires Fitting(before, maxBody, b)
      modifies this
      ensures Valid() && nextCtxId == old(nextCtxId) && era == old(era) && Settled(r, t, id, e, b)
      ensures Tied(base, id, t, r == Err(ResourceLimit))
    {
      hide Inv, ContextsKnown, LastSaid, Progress, InOrder, Has, CanAnswer, Recorded, Answers;
      ghost var h;
      e := Upstream;
      var local;
      local, t, h := RequestHooks(id, b, base, before);
      if local == Ok(None) {
        var inner;
        inner, t := CallInner(id, t);
        if !inner.Ok? {
          return Dropped, t, e;
        }
        local, t, h := ResponseHooks(id, b, base, t);
      }
      if local.Err? {
        return Err(local.error), t, e;
      }
      if local.Dropped? {
        return Dropped, t, e;
      }
      r, t, e := Conclude(id, b, local.value, h, t);
    }

    /**
     Vm::process. Whatever the guest does, a request that ends well runs its hooks in order, at most once and
     exactly those exported and reached, and leaves the contexts as they were without its own; one that fails
     stops somewhere in that order and leaves its context behind exactly if its create hook had returned, as it
     has whenever the body is too large or the caller gives up. A body is refused only where the guest wants it,
     before its hook, and one that does not fit is never handed over. The response hooks in the trace are the
     results taken for this request, in order, and they follow only hooks that returned Pause.
     */
    method Process(b: Bodies) returns (r: Result<Reply>, ghost t: seq<Event>, ghost e: Ending, ghost created: bool)
      requires Valid()
      modifies this
      ensures Valid() && era == old(era) + 1
      ensures var id := old(nextCtxId);
        && (old(era) < TWO_32 - 1 ==> id !in old(contexts) && id != ROOT)
        && Told(old(deliveries), deliveries, id, era, Answers(t), r == Err(ResourceLimit))
        && Fitting(t, maxBody, b)
        && (if r.Ok? then
              && Complete(t, exports, id, e) && Hooks(t) == Script(exports, e)
              && (Main(Inner, id) in t <==> e.Upstream? || e.after == ResponseHeaders)
              && contexts.Keys == old(contexts.Keys) - {id}
              && (r.value.FromInner? <==> e.Upstream?)
              && (e.Local? ==> CanAnswer(e.after) && answer == Some(r.value.status))
            else
              && r != Err(AbiViolation) && Partial(t, exports, id, e) && Hooks(t) <= Script(exports, e)
              && (r == Err(BodyTooLarge) ==> Oversized(t, exports, maxBody, b))
              && contexts.Keys == (if created then old(contexts.Keys) + {id} else old(contexts.Keys)))
        && (!created ==> r.Err? && NeedsRebuild(r.error) && (t == [] || t == [Main(Create, id)]))
      ensures unfinished == if r.Ok? then old(unfinished) - {old(nextCtxId)} else old(unfinished) + {old(nextCtxId)}
    {
      hide Inv, ContextsKnown, LastSaid, Progress, InOrder, Has, CanAnswer, Reached, Recorded, Told, Answers, BodiesRun;
      var id := Begin();
      var begun;
      begun, t := Open(id);
      QuietHook(deliveries, Create, id, era);
      BodiesOfHook(Create, id);
      e := Upstream;
      OnlyCreated(exports, id);
      created := begun.Ok?;
      if !begun.Ok? {
        return Err(begun.error), t, e, created;
      }
      r, t, e := Serve(id, b, deliveries, t);
      if r.Ok? { InnerIff(t, exports, id, e); }
      ScriptSoFar(t, exports, id, e);
    }

    /** A hook on the root context, outside any request. */
    method RootHook() returns (r: Result<nat>)
      requires Valid()
      modifies this
      ensures Valid() && GuestKept() && !r.Dropped?
    {
      hide Inv, ContextsKnown, LastSaid;
      Focus(ROOT);
      var ok := Prepare();
      if !ok {
        return Err(ResourceLimit);
      }
      var back := Guest(ROOT);
      return if back.Some? then Ok(back.value) else Err(Trap);
    }

    method InsertRoot()
      requires Valid()
      modifies this`contexts
      ensures Valid() && contexts == old(contexts)[ROOT := FRESH]
    {
      hide Inv;
      contexts := contexts[ROOT := FRESH];
    }

    /** Vm::tick. */
    method Tick(exported: bool) returns (r: Result<nat>)
      requires Valid()
      modifies this
      ensures Valid() && GuestKept() && !r.Dropped?
      ensures !exported ==> r.Ok? && unchanged(this)
    {
      hide Inv, ContextsKnown, LastSaid;
      if !exported {
        return Ok(0);
      }
      r := RootHook();
    }
  }

  /**
   Vm::new: _initialize or _start runs before any context exists, then comes the root context with its hooks; a
   configuration the guest calls invalid is accepted.
   */
  method Boot(exports: Exports, limit: Option<nat>, maxBody: Option<nat>, initializes: bool, onVmStart: bool)
    returns (r: Option<Vm>)
    ensures r.Some? ==>
      && fresh(r.value) && r.value.Valid()
      && r.value.exports == exports && r.value.limit == limit && r.value.maxBody == maxBody
      && r.value.contexts.Keys == {ROOT} && r.value.unfinished == {} && r.value.era == 0
  {
    hide Inv, Vm.ContextsKnown, Vm.LastSaid;
    var vm := new Vm(exports, limit, maxBody);
    if initializes {
      var initialized := vm.RootHook();
      if !initialized.Ok? {
        return None;
      }
    }
    vm.InsertRoot();
    var created := vm.RootHook();
    if !created.Ok? {
      return None;
    }
    if onVmStart {
      var started := vm.RootHook();
      if !started.Ok? || started.value == 0 {
        return None;
      }
    }
    var configured := vm.RootHook();
    return if configured.Ok? then Some(vm) else None;
  }

  /** What became of the VM in a slot. */
  datatype Upkeep = Untouched | Rebuilt | RebuildFailed

  /**
   process_with_vm: the VM in the slot is replaced after a failure of the guest. So a request leaves its
   context behind if and only if its body was too large, its caller gave up, or the guest failed after the
   create hook and no new VM could be made.
   */
  method ProcessWithVm(vm: Vm, b: Bodies, initializes: bool, onVmStart: bool)
    returns (slot: Vm, r: Result<Reply>, upkeep: Upkeep, ghost created: bool)
    requires vm.Valid()
    modifies vm
    ensures slot.Valid() && r != Err(AbiViolation)
    ensures slot.exports == vm.exports && slot.limit == vm.limit && slot.maxBody == vm.maxBody
    ensures upkeep.Untouched? <==> !(r.Err? && NeedsRebuild(r.error))
    ensures if upkeep.Rebuilt? then fresh(slot) && slot.contexts.Keys == {ROOT} else slot == vm
    ensures !upkeep.Rebuilt? ==>
      slot.contexts.Keys == if r.Ok? then old(vm.contexts.Keys) - {old(vm.nextCtxId)}
                            else if created then old(vm.contexts.Keys) + {old(vm.nextCtxId)} else old(vm.contexts.Keys)
    ensures old(vm.era) < TWO_32 - 1 ==>
      (old(vm.nextCtxId) in slot.contexts <==>
        r == Err(BodyTooLarge) || r.Dropped? || (upkeep.RebuildFailed? && created))
  {
    hide Inv, Vm.LastSaid;
    ghost var t, e;
    r, t, e, created := vm.Process(b);
    slot, upkeep := vm, Untouched;
    if r.Err? && NeedsRebuild(r.error) {
      var again := Boot(vm.exports, vm.limit, vm.maxBody, initializes, onVmStart);
      if again.Some? {
        slot, upkeep := again.value, Rebuilt;
      } else {
        upkeep := RebuildFailed;
      }
    }
  }

  lemma OnlyCreated(x: Exports, id: ContextId)
    ensures Progress([Main(Create, id)], x, id, Upstream, Rank(RequestHeaders))
    ensures Partial([Main(Create, id)], x, id, Upstream) && Partial([], x, id, Upstream)
  {
    assert Progress([], x, id, Upstream, Rank(Create));
    AdvanceBy([], x, id, Upstream, Create, [Main(Create, id)]);
    assert [] + [Main(Create, id)] == [Main(Create, id)];
  }

  lemma NextId(era: nat)
    ensures ((era + 2) % TWO_32 + 1) % TWO_32 == (era + 3) % TWO_32
    ensures era < TWO_32 - 2 ==> (era + 2) % TWO_32 == era + 2
    ensures era == TWO_32 - 2 ==> (era + 2) % TWO_32 == 0
  {
  }

  lemma IdleKeeps(limit: Option<nat>)
    ensures Inv(IDLE, limit)
  {
    EveryRunKeeps(limit, []);
  }
}
