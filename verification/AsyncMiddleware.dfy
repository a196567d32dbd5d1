/**
 Async middleware written as "code before `next`, code after `next`". The engine
 runs them in two passes; `Onion` is the recursive reading their authors have in
 mind. The two agree on every stack.
 */
module AsyncMiddleware {
  import opened Prelude
  import opened JsonRpcEngine

  // The part after `await next()`: an updated context, and an error if it rejects.
  type After<!W> = Context<W> -> (Context<W>, Option<Error>)

  datatype Before<!W> =
    | Returned                         // without calling `next`
    | Rejected(error: Option<Error>)   // without calling `next`
    | CalledNext(after: After<W>)

  type AsyncMiddleware<!W> = Context<W> -> (Context<W>, Before<W>)

  function Wrap<W>(m: AsyncMiddleware<W>): Middleware<W> {
    c =>
      var (c', b) := m(c);
      match b
      case Returned => (c', End(None))
      case Rejected(e) => (c', End(e))
      case CalledNext(after) => (c', Next(Some(after)))
  }

  // ---------- The wrapper as it runs ----------

  datatype EngineCall<!W> = CallNext(ctx: Context<W>) | CallEnd(ctx: Context<W>, error: Option<Error>)

  // One call of the wrapped function: the closure variables as fields.
  class AsyncCall<W> {
    const body: AsyncMiddleware<W>
    var nextWasCalled: bool
    var nextPromiseResolved: bool
    var hasReturnHandlerCallback: bool
    var after: Option<After<W>>

    constructor (body: AsyncMiddleware<W>)
      ensures this.body == body && !nextWasCalled && !nextPromiseResolved && !hasReturnHandlerCallback
    {
      this.body := body;
      nextWasCalled, nextPromiseResolved, hasReturnHandlerCallback, after := false, false, false, None;
    }

    // Suspended at `await next()`, with the promise still pending.
    predicate Suspended()
      reads this
    {
      nextWasCalled && !nextPromiseResolved && !hasReturnHandlerCallback && after.Some?
    }

    // Runs the body up to `await next()` or to its end.
    method Start(c: Context<W>) returns (call: EngineCall<W>)
      requires !nextWasCalled && !nextPromiseResolved && !hasReturnHandlerCallback
      modifies this
      ensures var (c', o) := Wrap(body)(c);
              match call
              case CallEnd(ctx, e) => ctx == c' && o == End(e) && !nextWasCalled
              case CallNext(ctx) => ctx == c' && Suspended() && o == Next(after)
    {
      var (c', b) := body(c);
      match b
      case CalledNext(a) =>
        nextWasCalled := true;
        after := Some(a);
        call := CallNext(c');
      case Returned =>
        call := CallEnd(c', None);
      case Rejected(e) =>
        call := CallEnd(c', e);
    }

    // The return handler: resolves the promise, lets the body finish, and passes
    // what it did to the engine's callback.
    method ReturnHandler(c: Context<W>) returns (ctx: Context<W>, error: Option<Error>)
      requires Suspended()
      modifies this
      ensures (ctx, error) == old(after).value(c)
      ensures nextWasCalled && nextPromiseResolved && hasReturnHandlerCallback
    {
      hasReturnHandlerCallback := true;
      nextPromiseResolved := true;
      var (ctx', error') := after.value(c);
      ctx, error := ctx', error';
    }
  }

  // ---------- The onion ----------

  datatype Unwinding =
    | Aborted(reason: Error)          // completion check failed: no after-part runs
    | Ended(error: Option<Error>)     // the request ended; after-parts run on the way out
    | Failed(cause: Error)            // an after-part failed: the outer ones are skipped

  function Core<W>(c: Context<W>, error: Option<Error>): (Context<W>, Unwinding) {
    var r := EndWith(c, error, []);
    (r.ctx, if HasResultOrError(r.ctx.res) then Ended(r.error) else Aborted(NoResultOrError(c.req)))
  }

  function Onion<W>(c: Context<W>, ms: seq<AsyncMiddleware<W>>): (Context<W>, Unwinding)
    decreases |ms|
  {
    if ms == [] then
      (c, Aborted(if HasResultOrError(c.res) then NothingEnded(c.req) else NoResultOrError(c.req)))
    else
      var (c', b) := ms[0](c);
      match b
      case Returned => Core(c', None)
      case Rejected(e) => Core(c', e)
      case CalledNext(after) =>
        if c'.res.error.Some? then Core(c', None)
        else
          var (inside, how) := Onion(c', ms[1..]);
          if !how.Ended? then (inside, how)
          else
            var (outside, failure) := after(inside);
            (outside, if failure.Some? then Failed(failure.value) else how)
  }

  function OnionReply<W>(c: Context<W>, ms: seq<AsyncMiddleware<W>>): (Context<W>, Option<Error>) {
    var (c', how) := Onion(c, ms);
    var error := match how
      case Aborted(reason) => Some(reason)
      case Failed(cause) => Some(cause)
      case Ended(e) => e;
    (SettleReply(c', error), error)
  }

  function WrapAll<W>(ms: seq<AsyncMiddleware<W>>): seq<Middleware<W>> {
    if ms == [] then [] else [Wrap(ms[0])] + WrapAll(ms[1..])
  }

  // The onion's verdict, read off the forward pass and the handlers' run.
  function TwoPass<W>(r: Run<W>): (Context<W>, Unwinding) {
    var incomplete := CheckForCompletion(r.ctx, r.isComplete);
    if incomplete.Some? then (r.ctx, Aborted(incomplete.value))
    else
      var (c, e) := RunHandlers(r.ctx, Reverse(r.handlers));
      (c, if e.Some? then Failed(e.value) else Ended(r.error))
  }

  lemma {:induction false} TwoPassIsOnion<W>(c: Context<W>, ms: seq<AsyncMiddleware<W>>)
    ensures TwoPass(RunAll(c, WrapAll(ms))) == Onion(c, ms)
    decreases |ms|
  {
    if ms != [] {
      var ws := WrapAll(ms);
      assert ws[1..] == WrapAll(ms[1..]);
      var (c', b) := ms[0](c);
      var first := RunMiddleware(c, ws[0]);
      assert Reverse<Handler<W>>([]) == [];
      if !first.isComplete {
        var h: Handler<W> := b.after;
        TwoPassIsOnion(first.ctx, ms[1..]);
        var rest := RunAll(first.ctx, ws[1..]);
        assert [h][1..] == [];
        ReverseConcat([h], rest.handlers);
        RunHandlersConcat(rest.ctx, Reverse(rest.handlers), [h]);
        var inside := RunHandlers(rest.ctx, Reverse(rest.handlers)).0;
        assert RunHandlers(h(inside).0, [h][1..]) == (h(inside).0, None);
      }
    }
  }

  /** For every stack of async middleware the engine computes what the onion does:
      same response, same error, same world. */
  lemma TwoPassesEqualOnion<W>(c: Context<W>, ms: seq<AsyncMiddleware<W>>)
    ensures HandleRequest(c, WrapAll(ms)) == OnionReply(c, ms)
  {
    TwoPassIsOnion(c, ms);
  }
}
