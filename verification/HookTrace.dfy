/** The order in which a request's hooks run, as a property of the events of one request. */
module HookTrace {
  import opened HttpCalls

  /** The hooks of one request, with the call of the inner service between them. */
  datatype Hook =
    | Create | RequestHeaders | RequestBody | RequestTrailers | Inner
    | ResponseHeaders | ResponseBody | ResponseTrailers | Log | Done | Delete

  /** The optional hooks a guest exports. */
  datatype Exports = Exports(
    requestBody: bool, requestTrailers: bool, responseBody: bool, responseTrailers: bool,
    log: bool, done: bool, delete: bool)

  /** A hook was called; it returned Pause; the response of an outbound call was handed to the guest. */
  datatype Event =
    | Main(hook: Hook, ctx: ContextId)
    | Pause(ctx: ContextId)
    | Answer(token: Token, ctx: ContextId)

  /** How a request is answered: by the inner service, or by the guest after one of its hooks. */
  datatype Ending = Upstream | Local(after: Hook)

  function Rank(h: Hook): nat {
    match h
    case Create => 0
    case RequestHeaders => 1
    case RequestBody => 2
    case RequestTrailers => 3
    case Inner => 4
    case ResponseHeaders => 5
    case ResponseBody => 6
    case ResponseTrailers => 7
    case Log => 8
    case Done => 9
    case Delete => 10
  }

  const END: nat := 11

  predicate Has(x: Exports, h: Hook) {
    match h
    case RequestBody => x.requestBody
    case RequestTrailers => x.requestTrailers
    case ResponseBody => x.responseBody
    case ResponseTrailers => x.responseTrailers
    case Log => x.log
    case Done => x.done
    case Delete => x.delete
    case _ => true
  }

  /** The hooks that may pause the request for the responses of outbound calls. */
  predicate CanPause(h: Hook) {
    h.RequestHeaders? || h.RequestBody? || h.RequestTrailers? || h.ResponseHeaders? || h.ResponseBody?
  }

  /** The hooks after which a local response is looked for. */
  predicate CanAnswer(h: Hook) {
    h.RequestHeaders? || h.RequestBody? || h.RequestTrailers? || h.ResponseHeaders?
  }

  /**
   Every hook from the request's headers to the response's body may pause, and a local response is looked for
   after each of them but the last.
   */
  lemma WhoMayPause(h: Hook)
    ensures CanPause(h) <==> Rank(RequestHeaders) <= Rank(h) <= Rank(ResponseBody) && h != Inner
    ensures CanAnswer(h) <==> CanPause(h) && h != ResponseBody
  {
  }

  /** The hooks a request with this ending gets to. */
  predicate Reached(e: Ending, h: Hook) {
    e.Upstream? || Rank(h) <= Rank(e.after) || Rank(h) >= Rank(Log)
  }

  // ---------------------------------------------------------------- well-formed traces

  ghost predicate Ordered(t: seq<Event>) {
    forall i, j :: 0 <= i < j < |t| && t[i].Main? && t[j].Main? ==> Rank(t[i].hook) < Rank(t[j].hook)
  }

  ghost predicate Below(t: seq<Event>, n: nat) {
    forall i :: 0 <= i < |t| && t[i].Main? ==> Rank(t[i].hook) < n
  }

  /** Responses are handed over only after a hook that may pause has returned Pause, and before the next hook. */
  ghost predicate AnswersWait(t: seq<Event>) {
    forall i :: 0 <= i < |t| && t[i].Answer? ==> Waited(t, i)
  }

  ghost predicate PausesFollow(t: seq<Event>) {
    forall i :: 0 <= i < |t| && t[i].Pause? ==> i > 0 && t[i - 1].Main? && t[i - 1].ctx == t[i].ctx
  }

  ghost predicate OnContext(t: seq<Event>, id: ContextId) {
    forall i :: 0 <= i < |t| && t[i].Main? ==> t[i].ctx == id
  }

  /** Hooks in their order, each at most once, and all before rank n. */
  ghost predicate InOrder(t: seq<Event>, id: ContextId, n: nat) {
    Ordered(t) && Below(t, n) && AnswersWait(t) && PausesFollow(t) && OnContext(t, id)
  }

  /** Below rank n, exactly the exported hooks that this ending gets to have run. */
  ghost predicate Progress(t: seq<Event>, x: Exports, id: ContextId, e: Ending, n: nat) {
    && InOrder(t, id, n)
    && forall h :: Main(h, id) in t <==> Has(x, h) && Reached(e, h) && Rank(h) < n
  }

  /** The events of a request that stopped on its way: all hooks up to some rank. */
  ghost predicate Partial(t: seq<Event>, x: Exports, id: ContextId, e: Ending) {
    exists n: nat :: n <= END && Progress(t, x, id, e, n)
  }

  /** The events of a request that ended well. */
  ghost predicate Complete(t: seq<Event>, x: Exports, id: ContextId, e: Ending) {
    Progress(t, x, id, e, END)
  }

  ghost predicate OnlyAnswers(t: seq<Event>) {
    forall i :: 0 <= i < |t| ==> t[i].Answer?
  }

  /** What may follow a hook: its pause, and then responses if it is one that may pause. */
  ghost predicate Tail(s: seq<Event>, h: Hook, id: ContextId) {
    s != [] ==> s[0] == Pause(id) && OnlyAnswers(s[1..]) && (|s| > 1 ==> CanPause(h))
  }

  /** The trace after a hook and what followed it, event by event. */
  lemma At(t: seq<Event>, id: ContextId, h: Hook, s: seq<Event>, i: nat)
    requires i < |t| + 1 + |s| && Tail(s, h, id)
    ensures (t + [Main(h, id)] + s)[i] == if i < |t| then t[i] else if i == |t| then Main(h, id) else s[i - |t| - 1]
    ensures i == |t| + 1 ==> s[0] == Pause(id)
    ensures i > |t| + 1 ==> s[i - |t| - 1].Answer? && CanPause(h)
  {
    if i > |t| + 1 { assert s[i - |t| - 1] == s[1..][i - |t| - 2]; }
  }

  /** A response at index i has waited: it follows another one or the pause of a hook that may pause. */
  ghost predicate Waited(t: seq<Event>, i: nat)
    requires i < |t|
  {
    && i > 0
    && (t[i - 1].Answer? || (t[i - 1].Pause? && i > 1 && t[i - 2].Main? && CanPause(t[i - 2].hook)))
  }

  lemma WaitedStays(t: seq<Event>, u: seq<Event>, i: nat)
    requires t <= u && i < |t| && Waited(t, i)
    ensures Waited(u, i)
  {
    assert u[i - 1] == t[i - 1];
    if i > 1 { assert u[i - 2] == t[i - 2]; }
  }

  lemma ExtendWaits(t: seq<Event>, id: ContextId, h: Hook, s: seq<Event>)
    requires AnswersWait(t) && PausesFollow(t) && Tail(s, h, id)
    ensures AnswersWait(t + [Main(h, id)] + s) && PausesFollow(t + [Main(h, id)] + s)
  {
    var u := t + [Main(h, id)] + s;
    hide Tail, CanPause;
    forall i: nat | i < |u| && u[i].Answer? ensures Waited(u, i) {
      At(t, id, h, s, i);
      if i < |t| {
        WaitedStays(t, u, i);
      } else {
        At(t, id, h, s, i - 1);
        At(t, id, h, s, i - 2);
      }
    }
    forall i: nat | i < |u| && u[i].Pause? ensures i > 0 && u[i - 1].Main? && u[i - 1].ctx == u[i].ctx {
      At(t, id, h, s, i);
      if i > 0 { At(t, id, h, s, i - 1); }
      if i < |t| { assert t[i].Pause?; }
    }
  }

  lemma Extend(t: seq<Event>, id: ContextId, h: Hook, s: seq<Event>)
    requires InOrder(t, id, Rank(h)) && Tail(s, h, id)
    ensures InOrder(t + [Main(h, id)] + s, id, Rank(h) + 1)
    ensures forall g :: Main(g, id) in t + [Main(h, id)] + s <==> Main(g, id) in t || g == h
  {
    var u := t + [Main(h, id)] + s;
    ExtendWaits(t, id, h, s);
    forall i: nat | i < |u| ensures u[i] == if i < |t| then t[i] else if i == |t| then Main(h, id) else s[i - |t| - 1]
      ensures i > |t| ==> !u[i].Main?
    {
      At(t, id, h, s, i);
    }
    assert u[|t|] == Main(h, id);
    hide Rank, AnswersWait, PausesFollow, Tail;
    forall g ensures Main(g, id) in u <==> Main(g, id) in t || g == h {
      if Main(g, id) in t {
        var i :| 0 <= i < |t| && t[i] == Main(g, id);
        assert u[i] == Main(g, id);
      }
    }
  }

  lemma SameRank(g: Hook, h: Hook)
    ensures Rank(g) == Rank(h) ==> g == h
  {
  }

  /** An exported hook ran. */
  lemma Advance(t: seq<Event>, x: Exports, id: ContextId, e: Ending, h: Hook, s: seq<Event>)
    requires Progress(t, x, id, e, Rank(h)) && Has(x, h) && Reached(e, h) && Tail(s, h, id)
    ensures Progress(t + [Main(h, id)] + s, x, id, e, Rank(h) + 1)
  {
    Extend(t, id, h, s);
    forall g ensures Rank(g) == Rank(h) ==> g == h { SameRank(g, h); }
    hide Rank, Has, Reached, InOrder;
  }

  /** What running hook h adds to the trace: nothing if it could not be started. */
  ghost predicate Segment(s: seq<Event>, h: Hook, id: ContextId) {
    s != [] ==> s[0] == Main(h, id) && Tail(s[1..], h, id)
  }

  lemma AdvanceBy(t: seq<Event>, x: Exports, id: ContextId, e: Ending, h: Hook, s: seq<Event>)
    requires Progress(t, x, id, e, Rank(h)) && Has(x, h) && Reached(e, h) && Segment(s, h, id)
    ensures s != [] ==> Progress(t + s, x, id, e, Rank(h) + 1)
    ensures Partial(t + s, x, id, e)
  {
    hide Has, Reached, Progress;
    if s == [] {
      assert t + s == t;
    } else {
      Advance(t, x, id, e, h, s[1..]);
      assert t + [Main(h, id)] + s[1..] == t + s;
    }
  }

  lemma Stopped(t: seq<Event>, x: Exports, id: ContextId, e: Ending, h: Hook)
    requires Progress(t, x, id, e, Rank(h))
    ensures Partial(t, x, id, e)
  {
    hide Progress;
  }

  lemma ClosingRanks(e: Ending)
    ensures Reached(e, Log) && Reached(e, Done) && Reached(e, Delete)
    ensures Rank(Log) + 1 == Rank(Done) && Rank(Done) + 1 == Rank(Delete) && Rank(Delete) + 1 == END
  {
  }

  /** A hook that is not exported is passed over. */
  lemma Skip(t: seq<Event>, x: Exports, id: ContextId, e: Ending, h: Hook)
    requires Progress(t, x, id, e, Rank(h)) && !Has(x, h)
    ensures Progress(t, x, id, e, Rank(h) + 1)
  {
    forall g ensures Rank(g) == Rank(h) ==> g == h { SameRank(g, h); }
    hide Rank, Has, Reached;
  }

  /** A local response found after hook h leads straight to the closing hooks. */
  lemma Shortcut(t: seq<Event>, x: Exports, id: ContextId, h: Hook)
    requires Progress(t, x, id, Upstream, Rank(h) + 1) && CanAnswer(h)
    ensures Progress(t, x, id, Local(h), Rank(Log))
  {
    assert Rank(h) + 1 <= Rank(Log);
    hide Has;
  }

  // ---------------------------------------------------------------- what a complete trace means

  /** The inner service was called exactly if no local response was found before it. */
  lemma InnerIff(t: seq<Event>, x: Exports, id: ContextId, e: Ending)
    requires Complete(t, x, id, e) && (e.Local? ==> CanAnswer(e.after))
    ensures Main(Inner, id) in t <==> e.Upstream? || e.after == ResponseHeaders
  {
    hide InOrder;
  }

  // ---------------------------------------------------------------- the call responses of a trace

  function Answers(t: seq<Event>): seq<Event> {
    if t == [] then []
    else if t[0].Answer? then [t[0]] + Answers(t[1..]) else Answers(t[1..])
  }

  lemma {:induction false} AnswersConcat(a: seq<Event>, b: seq<Event>)
    ensures Answers(a + b) == Answers(a) + Answers(b)
    decreases |a|
  {
    if a == [] {
      assert a + b == b;
    } else {
      AnswersConcat(a[1..], b);
      assert (a + b)[0] == a[0] && (a + b)[1..] == a[1..] + b;
    }
  }

  lemma {:induction false} AnswersOfAnswers(t: seq<Event>)
    requires OnlyAnswers(t)
    ensures Answers(t) == t
    decreases |t|
  {
    if t != [] { AnswersOfAnswers(t[1..]); }
  }

  lemma AnswersOfHook(h: Hook, id: ContextId)
    ensures Answers([Main(h, id)]) == [] && Answers([Main(h, id), Pause(id)]) == []
  {
    assert [Main(h, id)][1..] == [];
    assert [Main(h, id), Pause(id)][1..] == [Pause(id)] && [Pause(id)][1..] == [];
  }

  lemma AnswersKept(t: seq<Event>, h: Hook, id: ContextId)
    ensures Answers(t + [Main(h, id)]) == Answers(t)
  {
    AnswersOfHook(h, id);
    AnswersConcat(t, [Main(h, id)]);
  }

  // ---------------------------------------------------------------- the body hooks of a trace

  predicate IsBody(h: Hook) {
    h.RequestBody? || h.ResponseBody?
  }

  /** The body hooks of a trace, in order. */
  function BodiesRun(t: seq<Event>): seq<Hook> {
    if t == [] then []
    else if t[0].Main? && IsBody(t[0].hook) then [t[0].hook] + BodiesRun(t[1..]) else BodiesRun(t[1..])
  }

  lemma {:induction false} BodiesConcat(a: seq<Event>, b: seq<Event>)
    ensures BodiesRun(a + b) == BodiesRun(a) + BodiesRun(b)
    decreases |a|
  {
    if a == [] {
      assert a + b == b;
    } else {
      BodiesConcat(a[1..], b);
      assert (a + b)[0] == a[0] && (a + b)[1..] == a[1..] + b;
    }
  }

  lemma BodiesOfHook(h: Hook, id: ContextId)
    ensures BodiesRun([]) == [] && BodiesRun([Main(h, id)]) == if IsBody(h) then [h] else []
  {
    assert [Main(h, id)][1..] == [];
  }

  lemma {:induction false} BodiesOfTail(s: seq<Event>)
    requires forall i :: 0 <= i < |s| ==> !s[i].Main?
    ensures BodiesRun(s) == []
    decreases |s|
  {
    if s != [] { BodiesOfTail(s[1..]); }
  }

  lemma BodiesOfSegment(s: seq<Event>, h: Hook, id: ContextId)
    requires Segment(s, h, id)
    ensures BodiesRun(s) == if s != [] && IsBody(h) then [h] else []
  {
    if s != [] {
      assert forall i :: 1 <= i < |s[1..]| ==> s[1..][i] == s[1..][1..][i - 1];
      BodiesOfTail(s[1..]);
    }
  }

  lemma BodiesKept(t: seq<Event>, h: Hook, id: ContextId)
    requires !IsBody(h)
    ensures BodiesRun(t + [Main(h, id)]) == BodiesRun(t)
  {
    BodiesOfHook(h, id);
    BodiesConcat(t, [Main(h, id)]);
  }

  // ---------------------------------------------------------------- the hooks of a trace

  /** The hooks of a trace, without the call responses. */
  function Hooks(t: seq<Event>): seq<Hook> {
    if t == [] then []
    else if t[0].Main? then [t[0].hook] + Hooks(t[1..]) else Hooks(t[1..])
  }

  ghost predicate Rising(a: seq<Hook>) {
    forall i, j :: 0 <= i < j < |a| ==> Rank(a[i]) < Rank(a[j])
  }

  lemma {:induction false} HooksOf(t: seq<Event>, id: ContextId)
    requires Ordered(t) && OnContext(t, id)
    ensures Rising(Hooks(t))
    ensures forall h :: h in Hooks(t) <==> Main(h, id) in t
    decreases |t|
  {
    if t != [] {
      var rest := t[1..];
      HooksOf(rest, id);
      assert forall e :: e in t <==> e == t[0] || e in rest;
      hide Rank;
      if t[0].Main? {
        var a := Hooks(rest);
        forall i | 0 <= i < |a| ensures Rank(t[0].hook) < Rank(a[i]) {
          assert Main(a[i], id) in rest;
          var j :| 0 <= j < |rest| && rest[j] == Main(a[i], id);
          assert t[j + 1] == Main(a[i], id);
        }
      }
    }
  }

  /** A rising list of exactly the hooks of another below some rank is a prefix of it. */
  lemma {:induction false} RisingIsPrefix(a: seq<Hook>, b: seq<Hook>, n: nat)
    requires Rising(a) && Rising(b) && forall h :: h in a <==> h in b && Rank(h) < n
    ensures a <= b
    decreases |a|
  {
    hide Rank;
    if a != [] {
      assert a[0] in b;
      assert b[0] in b;
      SameRank(a[0], b[0]);
      assert forall h :: h in a[1..] <==> h in a && h != a[0];
      assert forall h :: h in b[1..] <==> h in b && h != b[0];
      RisingIsPrefix(a[1..], b[1..], n);
    }
  }

  // ---------------------------------------------------------------- the script of a request

  function If(exported: bool, h: Hook): seq<Hook> {
    if exported then [h] else []
  }

  /** The hooks up to the request's trailers, the response's headers, and the end of the response. */
  function RequestScript(x: Exports): seq<Hook> {
    [Create, RequestHeaders] + If(x.requestBody, RequestBody) + If(x.requestTrailers, RequestTrailers)
  }

  function InnerScript(x: Exports): seq<Hook> {
    RequestScript(x) + [Inner, ResponseHeaders]
  }

  function ResponseScript(x: Exports): seq<Hook> {
    InnerScript(x) + If(x.responseBody, ResponseBody) + If(x.responseTrailers, ResponseTrailers)
  }

  /** The hooks up to the answer: a local response cuts them short. */
  function Served(x: Exports, e: Ending): seq<Hook> {
    match e
    case Local(RequestHeaders) => [Create, RequestHeaders]
    case Local(RequestBody) => [Create, RequestHeaders] + If(x.requestBody, RequestBody)
    case Local(RequestTrailers) => RequestScript(x)
    case Local(_) => InnerScript(x)
    case Upstream => ResponseScript(x)
  }

  /** The hooks of a whole request, in order. */
  function Script(x: Exports, e: Ending): seq<Hook> {
    Served(x, e) + If(x.log, Log) + If(x.done, Done) + If(x.delete, Delete)
  }

  ghost predicate RisingBelow(a: seq<Hook>, n: nat) {
    Rising(a) && forall i :: 0 <= i < |a| ==> Rank(a[i]) < n
  }

  lemma RisingThen(a: seq<Hook>, h: Hook, exported: bool, n: nat)
    requires RisingBelow(a, n) && n <= Rank(h)
    ensures RisingBelow(a + If(exported, h), Rank(h) + 1)
  {
    hide Rank;
  }

  lemma RequestScriptRises(x: Exports)
    ensures RisingBelow([Create, RequestHeaders], 2)
    ensures RisingBelow([Create, RequestHeaders] + If(x.requestBody, RequestBody), 3)
    ensures RisingBelow(RequestScript(x), 4)
  {
    assert RisingBelow([Create, RequestHeaders], 2);
    hide RisingBelow, If;
    RisingThen([Create, RequestHeaders], RequestBody, x.requestBody, 2);
    RisingThen([Create, RequestHeaders] + If(x.requestBody, RequestBody), RequestTrailers, x.requestTrailers, 3);
  }

  lemma ResponseScriptRises(x: Exports)
    ensures RisingBelow(InnerScript(x), 6) && RisingBelow(ResponseScript(x), 8)
  {
    var c, d := RequestScript(x), InnerScript(x);
    RequestScriptRises(x);
    assert d == c + If(true, Inner) + If(true, ResponseHeaders);
    hide RisingBelow, If, RequestScript, InnerScript;
    RisingThen(c, Inner, true, 4);
    RisingThen(c + If(true, Inner), ResponseHeaders, true, 5);
    RisingThen(d, ResponseBody, x.responseBody, 6);
    RisingThen(d + If(x.responseBody, ResponseBody), ResponseTrailers, x.responseTrailers, 7);
  }

  lemma ScriptRises(x: Exports, e: Ending)
    requires e.Local? ==> CanAnswer(e.after)
    ensures Rising(Script(x, e))
  {
    RequestScriptRises(x);
    ResponseScriptRises(x);
    hide RisingBelow, Rising, If, RequestScript, InnerScript, ResponseScript;
    ClosingRises(Served(x, e), x,
      if e == Local(RequestHeaders) then 2 else if e == Local(RequestBody) then 3
      else if e == Local(RequestTrailers) then 4 else if e.Local? then 6 else 8);
  }

  lemma ClosingRises(a: seq<Hook>, x: Exports, n: nat)
    requires RisingBelow(a, n) && n <= 8
    ensures Rising(a + If(x.log, Log) + If(x.done, Done) + If(x.delete, Delete))
  {
    RisingThen(a, Log, x.log, n);
    RisingThen(a + If(x.log, Log), Done, x.done, 9);
    RisingThen(a + If(x.log, Log) + If(x.done, Done), Delete, x.delete, 10);
  }

  lemma InIf(a: seq<Hook>, exported: bool, g: Hook, h: Hook)
    ensures h in a + If(exported, g) <==> h in a || (exported && h == g)
  {
  }

  lemma RequestScriptHolds(x: Exports, h: Hook)
    ensures h in RequestScript(x) <==> Has(x, h) && Rank(h) <= 3
    ensures h in [Create, RequestHeaders] + If(x.requestBody, RequestBody) <==> Has(x, h) && Rank(h) <= 2
  {
    InIf([Create, RequestHeaders], x.requestBody, RequestBody, h);
    InIf([Create, RequestHeaders] + If(x.requestBody, RequestBody), x.requestTrailers, RequestTrailers, h);
    hide If;
  }

  lemma ResponseScriptHolds(x: Exports, h: Hook)
    ensures h in InnerScript(x) <==> Has(x, h) && Rank(h) <= 5
    ensures h in ResponseScript(x) <==> Has(x, h) && Rank(h) <= 7
  {
    RequestScriptHolds(x, h);
    InIf(InnerScript(x), x.responseBody, ResponseBody, h);
    InIf(InnerScript(x) + If(x.responseBody, ResponseBody), x.responseTrailers, ResponseTrailers, h);
    hide If, RequestScript;
  }

  lemma ClosingHolds(a: seq<Hook>, x: Exports, h: Hook)
    ensures h in a + If(x.log, Log) + If(x.done, Done) + If(x.delete, Delete) <==>
      h in a || (Has(x, h) && Rank(h) >= 8)
  {
    InIf(a, x.log, Log, h);
    InIf(a + If(x.log, Log), x.done, Done, h);
    InIf(a + If(x.log, Log) + If(x.done, Done), x.delete, Delete, h);
    hide If;
  }

  lemma ServedHolds(x: Exports, e: Ending, h: Hook)
    requires e.Local? ==> CanAnswer(e.after)
    ensures h in Served(x, e) <==> Has(x, h) && Reached(e, h) && Rank(h) < 8
  {
    RequestScriptHolds(x, h);
    ResponseScriptHolds(x, h);
    assert h in [Create, RequestHeaders] <==> Has(x, h) && Rank(h) <= 1;
    hide If, RequestScript, InnerScript, ResponseScript, Has;
  }

  lemma ScriptHolds(x: Exports, e: Ending, h: Hook)
    requires e.Local? ==> CanAnswer(e.after)
    ensures h in Script(x, e) <==> Has(x, h) && Reached(e, h)
  {
    ServedHolds(x, e, h);
    ClosingHolds(Served(x, e), x, h);
    assert Rank(h) >= 8 ==> Reached(e, h);
    hide If, Served, Has, Reached;
  }

  /** The hooks of a request, stopped on its way or not, are the script's so far. */
  lemma HooksKeepToTheScript(t: seq<Event>, x: Exports, id: ContextId, e: Ending, n: nat)
    requires Progress(t, x, id, e, n) && n <= END && (e.Local? ==> CanAnswer(e.after))
    ensures Hooks(t) <= Script(x, e)
    ensures n == END ==> Hooks(t) == Script(x, e)
  {
    HooksOf(t, id);
    ScriptRises(x, e);
    hide Rising, Hooks, InOrder, Script, CanAnswer, Has, Reached;
    forall h ensures h in Hooks(t) <==> h in Script(x, e) && Rank(h) < n { ScriptHolds(x, e, h); }
    forall h ensures Rank(h) < END { }
    hide *;
    RisingIsPrefix(Hooks(t), Script(x, e), n);
    if n == END { RisingIsPrefix(Script(x, e), Hooks(t), END); }
  }

  lemma ScriptSoFar(t: seq<Event>, x: Exports, id: ContextId, e: Ending)
    requires Partial(t, x, id, e) && (e.Local? ==> CanAnswer(e.after))
    ensures Hooks(t) <= Script(x, e)
    ensures Complete(t, x, id, e) ==> Hooks(t) == Script(x, e)
  {
    hide Progress, Hooks, Script;
    var n: nat :| n <= END && Progress(t, x, id, e, n);
    HooksKeepToTheScript(t, x, id, e, n);
    if Complete(t, x, id, e) { HooksKeepToTheScript(t, x, id, e, END); }
  }

  /** The exports and the ending determine which hooks run and in which order, whatever the guest does. */
  lemma HooksAreDetermined(t: seq<Event>, u: seq<Event>, x: Exports, id: ContextId, other: ContextId, e: Ending)
    requires Complete(t, x, id, e) && Complete(u, x, other, e)
    ensures Hooks(t) == Hooks(u)
  {
    HooksOf(t, id);
    HooksOf(u, other);
    forall h ensures h in Hooks(t) <==> h in Hooks(u) {
      assert Main(h, id) in t <==> Main(h, other) in u;
    }
    hide *;
    SameRisingIsSame(Hooks(t), Hooks(u));
  }

  lemma SameRisingIsSame(a: seq<Hook>, b: seq<Hook>)
    requires Rising(a) && Rising(b) && forall h :: h in a <==> h in b
    ensures a == b
  {
    assert forall h :: Rank(h) < END;
    hide Rising, Rank;
    RisingIsPrefix(a, b, END);
    RisingIsPrefix(b, a, END);
  }

  lemma HooksBelow(t: seq<Event>, x: Exports, id: ContextId, n: nat, a: seq<Hook>)
    requires Progress(t, x, id, Upstream, n) && Rising(a) && forall h :: h in a <==> Has(x, h) && Rank(h) < n
    ensures Hooks(t) == a
  {
    HooksOf(t, id);
    assert forall h :: Reached(Upstream, h);
    hide Rising, Hooks, Has, InOrder, Rank, Reached;
    SameRisingIsSame(Hooks(t), a);
  }

  /** A request that stopped where a body was to be read has run the hooks before it and no others. */
  lemma HooksAtBody(t: seq<Event>, x: Exports, id: ContextId, h: Hook)
    requires IsBody(h) && Progress(t, x, id, Upstream, Rank(h))
    ensures Hooks(t) == if h.RequestBody? then [Create, RequestHeaders] else InnerScript(x)
  {
    if h.RequestBody? {
      var a := [Create, RequestHeaders];
      assert forall g :: g in a <==> Has(x, g) && Rank(g) < 2;
      hide Progress, Hooks;
      HooksBelow(t, x, id, 2, a);
    } else {
      forall g { ResponseScriptHolds(x, g); }
      ResponseScriptRises(x);
      hide Progress, Hooks, InnerScript, Has, If;
      HooksBelow(t, x, id, 6, InnerScript(x));
    }
  }
}
