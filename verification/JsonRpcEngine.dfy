/**
 The JSON-RPC engine: a stack of middleware is run forwards collecting return
 handlers, completion is checked, and the handlers are run in reverse.

 A middleware or handler is a total function on the request, the response and a
 world `W` that stands for everything else it can see or change.
 */
module JsonRpcEngine {
  import opened Prelude

  type Json = string

  datatype Id = NullId | NumberId(number: int) | StringId(text: string)

  datatype Request = Request(id: Option<Id>, jsonrpc: Option<string>, methodName: string, params: Json)

  // `Thrown` is any truthy value handed to `end`, `done` or `throw` that is not
  // yet a JSON-RPC error object.
  datatype Error =
    | Thrown(text: string)
    | NoResultOrError(req: Request)
    | NothingEnded(req: Request)
    | InvalidReturnHandler(req: Request)
    | HandlerNotCallable
    | InvalidRequest
    | Serialized(cause: Error)

  datatype Response = Response(id: Option<Id>, jsonrpc: Option<string>, result: Option<Json>, error: Option<Error>)

  datatype Context<W> = Context(req: Request, res: Response, world: W)

  // A handler calls `done` with an error or without one.
  type Handler<!W> = Context<W> -> (Context<W>, Option<Error>)

  datatype Outcome<!W> =
    | Next(handler: Option<Handler<W>>)
    | NextWithNonFunction
    | End(error: Option<Error>)
    | Throw(thrown: Option<Error>)

  type Middleware<!W> = Context<W> -> (Context<W>, Outcome<W>)

  // What the forward pass leaves; `handlers` is in the order of the calls to `next`.
  datatype Run<!W> = Run(ctx: Context<W>, error: Option<Error>, isComplete: bool, handlers: seq<Handler<W>>)

  // JSON-RPC error objects serialize to themselves; any other value is wrapped.
  function SerializeError(e: Error): Error {
    match e
    case Thrown(_) => Serialized(e)
    case _ => e
  }

  predicate HasResultOrError(res: Response) {
    res.result.Some? || res.error.Some?
  }

  function SetError<W>(c: Context<W>, e: Error): Context<W> {
    c.(res := c.res.(error := Some(SerializeError(e))))
  }

  function EndWith<W>(c: Context<W>, error: Option<Error>, handlers: seq<Handler<W>>): Run<W> {
    var parsed := if error.Some? then error else c.res.error;
    Run(if parsed.Some? then SetError(c, parsed.value) else c, parsed, true, handlers)
  }

  function RunMiddleware<W>(c: Context<W>, m: Middleware<W>): Run<W> {
    var (c', outcome) := m(c);
    match outcome
    case End(e) => EndWith(c', e, [])
    case Throw(e) => EndWith(c', e, [])
    case Next(h) =>
      if c'.res.error.Some? then EndWith(c', c'.res.error, [])
      else Run(c', None, false, if h.Some? then [h.value] else [])
    case NextWithNonFunction =>
      if c'.res.error.Some? then EndWith(c', c'.res.error, [])
      else EndWith(c', Some(InvalidReturnHandler(c'.req)), [c => (c, Some(HandlerNotCallable))])
  }

  function RunAll<W>(c: Context<W>, ms: seq<Middleware<W>>): Run<W>
    decreases |ms|
  {
    if ms == [] then Run(c, None, false, [])
    else
      var first := RunMiddleware(c, ms[0]);
      if first.isComplete then first
      else WithOuter(first.handlers, RunAll(first.ctx, ms[1..]))
  }

  // The run seen by an engine that had already collected `outer`.
  function WithOuter<W>(outer: seq<Handler<W>>, r: Run<W>): Run<W> {
    r.(handlers := outer + r.handlers)
  }

  function RunHandlers<W>(c: Context<W>, hs: seq<Handler<W>>): (Context<W>, Option<Error>)
    decreases |hs|
  {
    if hs == [] then (c, None)
    else
      var (c', e) := hs[0](c);
      if e.Some? then (c', e) else RunHandlers(c', hs[1..])
  }

  function CheckForCompletion<W>(c: Context<W>, isComplete: bool): Option<Error> {
    if !HasResultOrError(c.res) then Some(NoResultOrError(c.req))
    else if !isComplete then Some(NothingEnded(c.req))
    else None
  }

  function ProcessRun<W>(r: Run<W>): (Context<W>, Option<Error>) {
    var incomplete := CheckForCompletion(r.ctx, r.isComplete);
    if incomplete.Some? then (r.ctx, incomplete)
    else
      var (c, e) := RunHandlers(r.ctx, Reverse(r.handlers));
      (c, if e.Some? then e else r.error)
  }

  function SettleReply<W>(c: Context<W>, error: Option<Error>): Context<W> {
    if error.None? then c
    else c.(res := c.res.(result := None,
                          error := if c.res.error.Some? then c.res.error else Some(SerializeError(error.value))))
  }

  // The response context and the error passed to the caller's callback.
  function Conclude<W>(r: Run<W>): (Context<W>, Option<Error>) {
    var (c, e) := ProcessRun(r);
    (SettleReply(c, e), e)
  }

  function HandleRequest<W>(c: Context<W>, ms: seq<Middleware<W>>): (Context<W>, Option<Error>) {
    Conclude(RunAll(c, ms))
  }

  // `asMiddleware` of an engine holding `ms`.
  function RunAsMiddleware<W>(c: Context<W>, ms: seq<Middleware<W>>): (Context<W>, Outcome<W>) {
    var r := RunAll(c, ms);
    if r.isComplete then
      var (c', e) := RunHandlers(r.ctx, Reverse(r.handlers));
      (c', End(if e.Some? then e else r.error))
    else (r.ctx, Next(Some(ReturnInto(r.handlers))))
  }

  function ReturnInto<W>(handlers: seq<Handler<W>>): Handler<W> {
    c => RunHandlers(c, Reverse(handlers))
  }

  function Merge<W>(ms: seq<Middleware<W>>): Middleware<W> {
    c => RunAsMiddleware(c, ms)
  }

  // The middleware that only leaves a handler.
  function PushHandler<W>(h: Handler<W>): Middleware<W> {
    c => (c, Next(Some(h)))
  }

  // ---------- Facts about the two passes ----------

  lemma {:induction false} RunAllConcat<W>(c: Context<W>, a: seq<Middleware<W>>, b: seq<Middleware<W>>)
    ensures var r := RunAll(c, a);
            RunAll(c, a + b) == if r.isComplete then r else WithOuter(r.handlers, RunAll(r.ctx, b))
    decreases |a|
  {
    if a == [] {
      assert a + b == b;
      assert WithOuter([], RunAll(c, b)) == RunAll(c, b);
    } else {
      var first := RunMiddleware(c, a[0]);
      assert (a + b)[1..] == a[1..] + b;
      if !first.isComplete {
        RunAllConcat(first.ctx, a[1..], b);
        var r := RunAll(first.ctx, a[1..]);
        if !r.isComplete {
          var rest := RunAll(r.ctx, b);
          assert first.handlers + (r.handlers + rest.handlers) == (first.handlers + r.handlers) + rest.handlers;
        }
      }
    }
  }

  lemma {:induction false} RunHandlersConcat<W>(c: Context<W>, a: seq<Handler<W>>, b: seq<Handler<W>>)
    ensures var (c', e) := RunHandlers(c, a);
            RunHandlers(c, a + b) == if e.Some? then (c', e) else RunHandlers(c', b)
    decreases |a|
  {
    if a == [] {
      assert a + b == b;
    } else {
      assert (a + b)[1..] == a[1..] + b;
      RunHandlersConcat(a[0](c).0, a[1..], b);
    }
  }

  // What a run's error says about the response it leaves.
  lemma {:induction false} RunErrorShape<W>(c: Context<W>, ms: seq<Middleware<W>>)
    requires c.res.error.None?
    ensures var r := RunAll(c, ms);
            && (r.error.None? <==> r.ctx.res.error.None?)
            && (r.error.Some? ==> r.isComplete && r.ctx.res.error == Some(SerializeError(r.error.value)))
    decreases |ms|
  {
    if ms != [] {
      var first := RunMiddleware(c, ms[0]);
      if !first.isComplete {
        RunErrorShape(first.ctx, ms[1..]);
      }
    }
  }

  // ---------- The engine ----------

  method RunAllMiddleware<W>(c: Context<W>, ms: seq<Middleware<W>>) returns (r: Run<W>)
    ensures r == RunAll(c, ms)
  {
    var ctx, error, isComplete, handlers := c, None, false, [];
    var i := 0;
    while i < |ms|
      invariant 0 <= i <= |ms| && !isComplete && error == None
      invariant RunAll(c, ms) == WithOuter(handlers, RunAll(ctx, ms[i..]))
    {
      var step := RunMiddleware(ctx, ms[i]);
      assert ms[i..][0] == ms[i] && ms[i..][1..] == ms[i + 1..];
      ghost var rest := RunAll(step.ctx, ms[i + 1..]);
      assert handlers + (step.handlers + rest.handlers) == (handlers + step.handlers) + rest.handlers;
      ctx, error, isComplete, handlers := step.ctx, step.error, step.isComplete, handlers + step.handlers;
      if isComplete {
        return Run(ctx, error, isComplete, handlers);
      }
      i := i + 1;
    }
    assert handlers + [] == handlers;
    r := Run(ctx, error, isComplete, handlers);
  }

  method RunReturnHandlers<W>(c: Context<W>, hs: seq<Handler<W>>) returns (ctx: Context<W>, error: Option<Error>)
    ensures (ctx, error) == RunHandlers(c, hs)
  {
    ctx, error := c, None;
    var i := 0;
    while i < |hs|
      invariant 0 <= i <= |hs| && error == None
      invariant RunHandlers(c, hs) == RunHandlers(ctx, hs[i..])
    {
      assert hs[i..][0] == hs[i] && hs[i..][1..] == hs[i + 1..];
      var (ctx', error') := hs[i](ctx);
      ctx, error := ctx', error';
      if error.Some? {
        return;
      }
      i := i + 1;
    }
  }

  class Engine<W> {
    var middleware: seq<Middleware<W>>
    var isDestroyed: bool
    // The middleware whose own `destroy`, if it has one, was called.
    var torndown: seq<Middleware<W>>

    constructor ()
      ensures middleware == [] && !isDestroyed && torndown == []
    {
      middleware, torndown := [], [];
      isDestroyed := false;
    }

    // Each operation below reports `false` or `None` where the engine throws
    // because it was destroyed.
    method Push(m: Middleware<W>) returns (ok: bool)
      modifies this`middleware
      ensures ok == !isDestroyed
      ensures middleware == if ok then old(middleware) + [m] else old(middleware)
    {
      ok := !isDestroyed;
      if ok {
        middleware := middleware + [m];
      }
    }

    method Destroy()
      modifies this
      ensures middleware == [] && isDestroyed && torndown == old(torndown) + old(middleware)
    {
      for i := 0 to |middleware|
        invariant middleware == old(middleware) && torndown == old(torndown) + middleware[..i]
      {
        torndown := torndown + [middleware[i]];
      }
      assert middleware[..|middleware|] == middleware;
      middleware := [];
      isDestroyed := true;
    }

    // What the engine does as a middleware, each time it is called: it runs the
    // stack it holds by then, which is empty once it was destroyed.
    method CallAsMiddleware(c: Context<W>) returns (ctx: Context<W>, outcome: Outcome<W>)
      ensures (ctx, outcome) == RunAsMiddleware(c, middleware)
    {
      var r := RunAllMiddleware(c, middleware);
      if !r.isComplete {
        return r.ctx, Next(Some(ReturnInto(r.handlers)));
      }
      var failure;
      ctx, failure := RunReturnHandlers(r.ctx, Reverse(r.handlers));
      outcome := End(if failure.Some? then failure else r.error);
    }

    // The middleware of an engine whose stack stays as it is.
    method AsMiddleware() returns (m: Option<Middleware<W>>)
      ensures m.Some? <==> !isDestroyed
      ensures m.Some? ==> forall c :: m.value(c) == RunAsMiddleware(c, middleware)
      ensures m.Some? ==> m.value == Merge(middleware)
    {
      m := if isDestroyed then None else Some(Merge(middleware));
    }

    // The response context and the error passed to the callback.
    method Handle(c: Context<W>) returns (answer: Option<(Context<W>, Option<Error>)>)
      ensures answer == if isDestroyed then None else Some(HandleRequest(c, middleware))
    {
      if isDestroyed {
        return None;
      }
      var r := RunAllMiddleware(c, middleware);
      var ctx, error := r.ctx, CheckForCompletion(r.ctx, r.isComplete);
      if error.None? {
        ctx, error := RunReturnHandlers(r.ctx, Reverse(r.handlers));
        if error.None? {
          error := r.error;
        }
      }
      if error.Some? {
        ctx := ctx.(res := ctx.res.(result := None));
        if ctx.res.error.None? {
          ctx := SetError(ctx, error.value);
        }
      }
      answer := Some((ctx, error));
    }
  }

  method MergeMiddleware<W>(stack: seq<Middleware<W>>) returns (m: Middleware<W>)
    ensures m == Merge(stack)
  {
    var engine := new Engine<W>();
    for i := 0 to |stack|
      invariant engine.middleware == stack[..i] && !engine.isDestroyed
    {
      var _ := engine.Push(stack[i]);
    }
    assert stack[..|stack|] == stack;
    var merged := engine.AsMiddleware();
    m := merged.value;
  }
}
