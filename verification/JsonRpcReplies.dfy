/**
 What a caller of the engine gets back, from validation to the reply: which
 inputs are answered (JSON-RPC 2.0, section 4.1) and that an answer carries
 exactly one of result and error (section 5).
 */
module JsonRpcReplies {
  import opened Prelude
  import opened JsonRpcEngine

  // `fits`: the parameters and any further members pass the shape check.
  datatype Incoming =
    | NotAnObject
    | Object(id: Option<Id>, jsonrpc: Option<string>, methodName: Option<string>, params: Json, fits: bool)

  datatype Answer<+W> =
    | NoReply(error: Option<Error>, world: W)
    | Reply(error: Option<Error>, res: Response, world: W)

  type NotificationHandler<!W> = (Incoming, W) -> (W, Option<Error>)

  predicate IsRequest(x: Incoming) {
    x.Object? && x.id.Some? && x.jsonrpc == Some("2.0") && x.methodName.Some? && x.fits
  }

  predicate IsNotification(x: Incoming) {
    x.Object? && x.id.None? && x.jsonrpc == Some("2.0") && x.methodName.Some? && x.fits
  }

  function InvalidReply<W>(id: Id, world: W): Answer<W> {
    Reply(Some(InvalidRequest), Response(Some(id), Some("2.0"), None, Some(InvalidRequest)), world)
  }

  function Handle<W>(x: Incoming, world: W, onNotification: Option<NotificationHandler<W>>,
                     ms: seq<Middleware<W>>): Answer<W> {
    if x.NotAnObject? then InvalidReply(NullId, world)
    else if x.methodName.None? then
      if onNotification.Some? && !IsRequest(x) then NoReply(None, world)
      else InvalidReply(if x.id.Some? then x.id.value else NullId, world)
    else if onNotification.Some? && IsNotification(x) && !IsRequest(x) then
      var (world', e) := onNotification.value(x, world);
      NoReply(e, world')
    else
      var (c, e) := HandleRequest(Start(x, world), ms);
      Reply(e, c.res, c.world)
  }

  function Start<W>(x: Incoming, world: W): Context<W>
    requires x.Object? && x.methodName.Some?
  {
    Context(Request(x.id, x.jsonrpc, x.methodName.value, x.params), Response(x.id, x.jsonrpc, None, None), world)
  }

  // ---------- Exactly one of result and error ----------

  predicate OneOfResultAndError<W>(reply: Answer<W>)
    requires reply.Reply?
  {
    && (reply.res.result.Some? <==> reply.res.error.None?)
    && (reply.res.error.Some? <==> reply.error.Some?)
  }

  // A successful end: the request is over, without an error and with a result.
  predicate Succeeded<W>(r: Run<W>) {
    r.isComplete && r.error.None? && r.ctx.res.result.Some?
  }

  // From here the handlers, last collected first, fail or leave just a result.
  predicate HandledProperly<W>(c: Context<W>, handlers: seq<Handler<W>>) {
    var (c', e) := RunHandlers(c, Reverse(handlers));
    e.Some? || (c'.res.result.Some? && c'.res.error.None?)
  }

  predicate EndsProperly<W>(r: Run<W>) {
    Succeeded(r) ==> HandledProperly(r.ctx, r.handlers)
  }

  // The input is neither refused nor given to the notification handler.
  predicate ReachesMiddleware<W>(x: Incoming, onNotification: Option<NotificationHandler<W>>) {
    x.Object? && x.methodName.Some? && !(onNotification.Some? && IsNotification(x))
  }

  lemma OneOfIffEndsProperly<W>(c: Context<W>, ms: seq<Middleware<W>>)
    requires c.res.result.None? && c.res.error.None?
    ensures var (c', e) := HandleRequest(c, ms);
            (c'.res.result.Some? <==> c'.res.error.None?) && (c'.res.error.Some? <==> e.Some?)
            <==> EndsProperly(RunAll(c, ms))
  {
    var r := RunAll(c, ms);
    RunErrorShape(c, ms);
    var (after, e) := ProcessRun(r);
    assert HandleRequest(c, ms) == (SettleReply(after, e), e);
  }

  /** A reply carries exactly one of result and error, and an error exactly when the
      callback gets one, exactly if the run that made it, when it succeeded, has
      handlers that fail or leave just a result. Refusals always do. */
  lemma ReplyHasExactlyOneIff<W>(x: Incoming, world: W, onNotification: Option<NotificationHandler<W>>,
                                 ms: seq<Middleware<W>>)
    requires Handle(x, world, onNotification, ms).Reply?
    ensures OneOfResultAndError(Handle(x, world, onNotification, ms))
       <==> (ReachesMiddleware(x, onNotification) ==> EndsProperly(RunAll(Start(x, world), ms)))
  {
    if ReachesMiddleware(x, onNotification) {
      OneOfIffEndsProperly(Start(x, world), ms);
    }
  }

  // ---------- Handlers that are safe in every stack ----------

  // Fails or keeps both, from wherever it is called after a success.
  predicate KeepsResult<W>(h: Handler<W>, c: Context<W>) {
    c.res.result.Some? && c.res.error.None? ==>
      var (c', e) := h(c);
      e.Some? || (c'.res.result.Some? && c'.res.error.None?)
  }

  ghost predicate HandlersKeepResult<W(!new)>(ms: seq<Middleware<W>>) {
    forall i, c: Context<W> :: 0 <= i < |ms| ==>
      var o := ms[i](c).1;
      o.Next? && o.handler.Some? ==> forall d: Context<W> :: KeepsResult(o.handler.value, d)
  }

  lemma {:induction false} CollectedKeepResult<W(!new)>(c: Context<W>, ms: seq<Middleware<W>>)
    requires HandlersKeepResult(ms)
    ensures forall h, d: Context<W> :: h in RunAll(c, ms).handlers ==> KeepsResult(h, d)
    decreases |ms|
  {
    if ms != [] {
      var first := RunMiddleware(c, ms[0]);
      var o := ms[0](c).1;
      assert forall h, d: Context<W> :: h in first.handlers ==> KeepsResult(h, d);
      if !first.isComplete {
        assert forall i :: 0 <= i < |ms[1..]| ==> ms[1..][i] == ms[i + 1];
        CollectedKeepResult(first.ctx, ms[1..]);
      }
    }
  }

  lemma {:induction false} RunHandlersKeepResult<W(!new)>(c: Context<W>, hs: seq<Handler<W>>)
    requires forall h, d: Context<W> :: h in hs ==> KeepsResult(h, d)
    requires c.res.result.Some? && c.res.error.None?
    ensures var (c', e) := RunHandlers(c, hs);
            e.Some? || (c'.res.result.Some? && c'.res.error.None?)
    decreases |hs|
  {
    if hs != [] {
      assert KeepsResult(hs[0], c);
      var (c', e) := hs[0](c);
      if e.None? {
        RunHandlersKeepResult(c', hs[1..]);
      }
    }
  }

  lemma {:induction false} ReverseSameMembers<T>(s: seq<T>)
    ensures forall x :: x in Reverse(s) <==> x in s
  {
    if s != [] {
      ReverseSameMembers(s[1..]);
      assert s == [s[0]] + s[1..];
    }
  }

  /** So no reply is improper when every handler fails or keeps both after a success. */
  lemma ReplyHasExactlyOne<W(!new)>(x: Incoming, world: W, onNotification: Option<NotificationHandler<W>>,
                                    ms: seq<Middleware<W>>)
    requires HandlersKeepResult(ms)
    requires Handle(x, world, onNotification, ms).Reply?
    ensures OneOfResultAndError(Handle(x, world, onNotification, ms))
  {
    ReplyHasExactlyOneIff(x, world, onNotification, ms);
    if ReachesMiddleware(x, onNotification) {
      var c := Start(x, world);
      var r := RunAll(c, ms);
      if Succeeded(r) {
        RunErrorShape(c, ms);
        CollectedKeepResult(c, ms);
        ReverseSameMembers(r.handlers);
        RunHandlersKeepResult(r.ctx, Reverse(r.handlers));
      }
    }
  }

  // The stack that leaves the given handlers and then ends with the given context.
  function EndIn<W>(c: Context<W>): Middleware<W> { d => (c, End(None)) }

  function StackFor<W>(hs: seq<Handler<W>>, c: Context<W>): seq<Middleware<W>> {
    if hs == [] then [EndIn(c)] else [PushHandler(hs[0])] + StackFor(hs[1..], c)
  }

  lemma {:induction false} StackForRuns<W>(d: Context<W>, hs: seq<Handler<W>>, c: Context<W>)
    requires d.res.error.None? && c.res.error.None?
    ensures RunAll(d, StackFor(hs, c)) == Run(c, None, true, hs)
    decreases |hs|
  {
    var ms := StackFor(hs, c);
    if hs == [] {
      assert ms == [EndIn(c)];
    } else {
      StackForRuns(d, hs[1..], c);
      assert ms[1..] == StackFor(hs[1..], c);
      assert RunMiddleware(d, ms[0]) == Run(d, None, false, [hs[0]]);
      assert [hs[0]] + hs[1..] == hs;
    }
  }

  /** A list of handlers is safe after every successful end exactly if, from every
      context with a result and no error, it fails or keeps both. */
  lemma HandlersAreSafeIff<W(!new)>(hs: seq<Handler<W>>, x: Incoming, world: W)
    requires ReachesMiddleware<W>(x, None)
    ensures (forall c: Context<W> :: c.res.result.Some? && c.res.error.None? ==>
               OneOfResultAndError(Handle(x, world, None, StackFor(hs, c))))
       <==> (forall c: Context<W> :: c.res.result.Some? && c.res.error.None? ==> HandledProperly(c, hs))
  {
    forall c: Context<W> | c.res.result.Some? && c.res.error.None?
      ensures OneOfResultAndError(Handle(x, world, None, StackFor(hs, c))) <==> HandledProperly(c, hs)
    {
      ReplyHasExactlyOneIff(x, world, None, StackFor(hs, c));
      StackForRuns(Start(x, world), hs, c);
    }
  }

  /** A return handler that sets an error after a successful end: the reply carries both. */
  lemma ReplyCanCarryBoth(world: int)
    ensures var reply := Handle(Object(Some(NumberId(1)), Some("2.0"), Some("m"), "", true), world, None,
                                [SetErrorOnReturn(), AnswerOne()]);
            reply.Reply? && reply.error.None? && reply.res.result.Some? && reply.res.error.Some?
  {
    var ms := [SetErrorOnReturn(), AnswerOne()];
    var c := Start(Object(Some(NumberId(1)), Some("2.0"), Some("m"), "", true), world);
    assert ms[1..] == [AnswerOne()] && [AnswerOne()][1..] == [];
    assert ms[0] == SetErrorOnReturn() && ms[1] == AnswerOne();
    var h := LateError();
    var answered := c.(res := c.res.(result := Some("1")));
    assert RunAll(c, ms) == Run(answered, None, true, [h]);
    assert [h][1..] == [];
    assert RunHandlers(answered, Reverse([h])) == h(answered);
    assert HandleRequest(c, ms).1.None?;
  }

  function LateError(): Handler<int> {
    (c: Context<int>) => (c.(res := c.res.(error := Some(Thrown("late")))), None)
  }

  function SetErrorOnReturn(): Middleware<int> { c => (c, Next(Some(LateError()))) }

  function AnswerOne(): Middleware<int> {
    (c: Context<int>) => (c.(res := c.res.(result := Some("1"))), End(None))
  }

  // ---------- Who is answered ----------

  /** With a notification handler, notifications never reach the middleware and
      nothing else with a string method goes unanswered. */
  lemma WhoIsAnswered<W>(x: Incoming, world: W, onNotification: Option<NotificationHandler<W>>, ms: seq<Middleware<W>>)
    ensures Handle(x, world, onNotification, ms).NoReply? <==>
            onNotification.Some? && x.Object? && (IsNotification(x) || x.methodName.None?)
    ensures onNotification.Some? && IsNotification(x) ==>
              forall others: seq<Middleware<W>> ::
                Handle(x, world, onNotification, others) == Handle(x, world, onNotification, ms)
    ensures var a := Handle(x, world, onNotification, ms);
            x.Object? && x.methodName.None? && a.Reply? ==>
              a.res.id == (if x.id.Some? then x.id else Some(NullId)) && a.world == world && a.error == a.res.error
  {
  }

  /** Without a method nothing else matters: a notification handler drops even a
      request with an id, and without one every such input is refused under its id. */
  lemma MalformedRequestIsDropped<W>(x: Incoming, world: W, onNotification: Option<NotificationHandler<W>>,
      ms: seq<Middleware<W>>)
    requires x.Object? && x.methodName.None?
    ensures Handle(x, world, onNotification, ms)
         == if onNotification.Some? then NoReply(None, world)
            else InvalidReply(if x.id.Some? then x.id.value else NullId, world)
  {
  }
}
