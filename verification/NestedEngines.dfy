/**
 Nesting one engine in another. The main result says exactly when pushing
 `mergeMiddleware(inner)` means the same as splicing `inner` into the outer
 stack: same response, same error, same world, hence same order of calls.
 */
module NestedEngines {
  import opened Prelude
  import opened JsonRpcEngine

  /** The engine reaching `ms` in context `c` after collecting the handlers `outer`. */
  function HandleFrom<W>(c: Context<W>, outer: seq<Handler<W>>, ms: seq<Middleware<W>>): (Context<W>, Option<Error>) {
    Conclude(WithOuter(outer, RunAll(c, ms)))
  }

  // The condition of `NestingAgrees` for a run that ended the request.
  predicate EndAgrees<W(==)>(r: Run<W>) {
    var (after, failure) := RunHandlers(r.ctx, Reverse(r.handlers));
    && failure.None?
    && (if !HasResultOrError(r.ctx.res) then after == r.ctx
        else if r.error.Some? then after.res.error == r.ctx.res.error
        else after.res.error.None? && after.res.result.Some?)
  }

  /** The outer engine cannot tell: the inner stack falls through, or it ends the
      request and its own return handlers neither fail nor disturb what the end left. */
  predicate NestingAgrees<W(==)>(c: Context<W>, inner: seq<Middleware<W>>) {
    var r := RunAll(c, inner);
    r.isComplete ==> EndAgrees(r)
  }

  // The two sides once the inner stack has ended the request with run `r`.
  function NestedTail<W>(r: Run<W>, outer: seq<Handler<W>>): (Context<W>, Option<Error>) {
    var (c', e) := RunHandlers(r.ctx, Reverse(r.handlers));
    Conclude(EndWith(c', if e.Some? then e else r.error, outer))
  }

  function FlatTail<W>(r: Run<W>, outer: seq<Handler<W>>): (Context<W>, Option<Error>) {
    Conclude(WithOuter(outer, r))
  }

  lemma NestedRun<W>(c: Context<W>, outer: seq<Handler<W>>, inner: seq<Middleware<W>>, rest: seq<Middleware<W>>)
    requires c.res.error.None? && RunAll(c, inner).isComplete
    ensures HandleFrom(c, outer, [Merge(inner)] + rest) == NestedTail(RunAll(c, inner), outer)
    ensures HandleFrom(c, outer, inner + rest) == FlatTail(RunAll(c, inner), outer)
  {
    RunAllConcat(c, [Merge(inner)], rest);
    RunAllConcat(c, inner, rest);
    var one := RunMiddleware(c, Merge(inner));
    assert [Merge(inner)][1..] == [];
    assert RunAll(c, [Merge(inner)]) == one;
    assert outer + [] == outer;
  }

  lemma ConcludeWithOuter<W>(r: Run<W>, outer: seq<Handler<W>>)
    requires r.isComplete && HasResultOrError(r.ctx.res)
    ensures var (c1, e1) := RunHandlers(r.ctx, Reverse(r.handlers));
            var (c2, e2) := RunHandlers(c1, Reverse(outer));
            FlatTail(r, outer) ==
            if e1.Some? then (SettleReply(c1, e1), e1)
            else (SettleReply(c2, if e2.Some? then e2 else r.error), if e2.Some? then e2 else r.error)
  {
    ReverseConcat(outer, r.handlers);
    RunHandlersConcat(r.ctx, Reverse(r.handlers), Reverse(outer));
  }

  lemma NestingFallsThrough<W>(c: Context<W>, outer: seq<Handler<W>>, inner: seq<Middleware<W>>,
      rest: seq<Middleware<W>>)
    requires c.res.error.None? && !RunAll(c, inner).isComplete
    ensures HandleFrom(c, outer, [Merge(inner)] + rest) == HandleFrom(c, outer, inner + rest)
  {
    var r := RunAll(c, inner);
    RunErrorShape(c, inner);
    RunAllConcat(c, [Merge(inner)], rest);
    RunAllConcat(c, inner, rest);
    var h := ReturnInto(r.handlers);
    assert [Merge(inner)][1..] == [];
    assert RunAll(c, [Merge(inner)]) == Run(r.ctx, None, false, [h]);
    var tail := RunAll(r.ctx, rest);
    assert HandleFrom(c, outer, [Merge(inner)] + rest) == Conclude(tail.(handlers := outer + ([h] + tail.handlers)));
    assert HandleFrom(c, outer, inner + rest) == Conclude(tail.(handlers := outer + (r.handlers + tail.handlers)));
    MergedHandlerUnfolds(tail.ctx, outer, r.handlers, tail.handlers);
  }

  lemma MergedHandlerUnfolds<W>(c: Context<W>, outer: seq<Handler<W>>, mid: seq<Handler<W>>, inner: seq<Handler<W>>)
    ensures RunHandlers(c, Reverse(outer + ([ReturnInto(mid)] + inner))) ==
        RunHandlers(c, Reverse(outer + (mid + inner)))
  {
    var h := ReturnInto(mid);
    ReverseConcat(outer, [h] + inner);
    ReverseConcat([h], inner);
    ReverseConcat(outer, mid + inner);
    ReverseConcat(mid, inner);
    assert Reverse([h]) == [h] by { assert [h][1..] == []; }
    var (c1, e1) := RunHandlers(c, Reverse(inner));
    RunHandlersConcat(c, Reverse(inner) + [h], Reverse(outer));
    RunHandlersConcat(c, Reverse(inner), [h]);
    RunHandlersConcat(c, Reverse(inner) + Reverse(mid), Reverse(outer));
    RunHandlersConcat(c, Reverse(inner), Reverse(mid));
    assert RunHandlers(c1, [h]) == RunHandlers(c1, Reverse(mid)) by { assert [h][1..] == []; }
  }

  lemma NestingAgreesSuffices<W>(c: Context<W>, outer: seq<Handler<W>>, inner: seq<Middleware<W>>,
      rest: seq<Middleware<W>>)
    requires c.res.error.None? && NestingAgrees(c, inner)
    ensures HandleFrom(c, outer, [Merge(inner)] + rest) == HandleFrom(c, outer, inner + rest)
  {
    var r := RunAll(c, inner);
    if !r.isComplete {
      NestingFallsThrough(c, outer, inner, rest);
    } else {
      NestedRun(c, outer, inner, rest);
      RunErrorShape(c, inner);
      if HasResultOrError(r.ctx.res) {
        ConcludeWithOuter(r, outer);
        var after := RunHandlers(r.ctx, Reverse(r.handlers)).0;
        assert EndWith(after, r.error, outer).ctx == after;
      }
    }
  }

  // An outer handler that fails with `e` when `p` holds of what it sees.
  function FailWhen<W>(p: Context<W> -> bool, e: Error): Handler<W> {
    c => (c, if p(c) then Some(e) else None)
  }

  lemma RunOne<W>(c: Context<W>, h: Handler<W>)
    ensures RunHandlers(c, Reverse([h])) == h(c)
    ensures RunHandlers(c, Reverse<Handler<W>>([])) == (c, None)
  {
    assert [h][1..] == [];
  }

  function OtherThan(e: Option<Error>): Error {
    if e == Some(Thrown("")) then Thrown("other") else Thrown("")
  }

  predicate WellEnded<W>(r: Run<W>) {
    && r.isComplete
    && (r.error.None? <==> r.ctx.res.error.None?)
    && (r.error.Some? ==> r.ctx.res.error == Some(SerializeError(r.error.value)))
  }

  // When agreement fails, some outer stack with at most one handler sees it.
  lemma IncompleteEndIsSeen<W>(r: Run<W>) returns (outer: seq<Handler<W>>)
    requires WellEnded(r) && !EndAgrees(r) && !HasResultOrError(r.ctx.res)
    ensures NestedTail(r, outer) != FlatTail(r, outer)
  {
    var (after, failure) := RunHandlers(r.ctx, Reverse(r.handlers));
    var always := FailWhen(c => true, Thrown(""));
    var nested := EndWith(after, failure, [always]);
    if HasResultOrError(nested.ctx.res) {
      RunOne(nested.ctx, always);
      outer := [always];
    } else {
      outer := [];
    }
  }

  lemma FailedHandlerIsSeen<W>(r: Run<W>) returns (outer: seq<Handler<W>>)
    requires WellEnded(r) && HasResultOrError(r.ctx.res) && RunHandlers(r.ctx, Reverse(r.handlers)).1.Some?
    ensures NestedTail(r, outer) != FlatTail(r, outer)
  {
    var (after, failure) := RunHandlers(r.ctx, Reverse(r.handlers));
    var always := FailWhen(c => true, OtherThan(failure));
    outer := [always];
    ConcludeWithOuter(r, outer);
    RunOne(EndWith(after, failure, outer).ctx, always);
  }

  lemma ChangedErrorIsSeen<W>(r: Run<W>) returns (outer: seq<Handler<W>>)
    requires WellEnded(r) && !EndAgrees(r) && HasResultOrError(r.ctx.res)
    requires RunHandlers(r.ctx, Reverse(r.handlers)).1.None?
    ensures NestedTail(r, outer) != FlatTail(r, outer)
  {
    var after := RunHandlers(r.ctx, Reverse(r.handlers)).0;
    if r.error.Some? {
      var ifUnchanged := FailWhen((c: Context<W>) => c.res.error == r.ctx.res.error, OtherThan(r.error));
      outer := [ifUnchanged];
      ConcludeWithOuter(r, outer);
      RunOne(after, ifUnchanged);
      RunOne(EndWith(after, r.error, outer).ctx, ifUnchanged);
    } else {
      outer := [];
      ConcludeWithOuter(r, outer);
    }
  }

  /** Nesting an engine is the same as splicing its stack, for every stack around
      it, exactly when `NestingAgrees` holds where the inner stack is reached. */
  lemma NestingEqualsFlatteningIff<W(!new)>(c: Context<W>, inner: seq<Middleware<W>>, rest: seq<Middleware<W>>)
    requires c.res.error.None?
    ensures (forall outer: seq<Handler<W>> ::
               HandleFrom(c, outer, [Merge(inner)] + rest) == HandleFrom(c, outer, inner + rest))
            <==> NestingAgrees(c, inner)
  {
    if NestingAgrees(c, inner) {
      forall outer: seq<Handler<W>>
        ensures HandleFrom(c, outer, [Merge(inner)] + rest) == HandleFrom(c, outer, inner + rest)
      {
        NestingAgreesSuffices(c, outer, inner, rest);
      }
    } else {
      var r := RunAll(c, inner);
      RunErrorShape(c, inner);
      var outer;
      if !HasResultOrError(r.ctx.res) {
        outer := IncompleteEndIsSeen(r);
      } else if RunHandlers(r.ctx, Reverse(r.handlers)).1.Some? {
        outer := FailedHandlerIsSeen(r);
      } else {
        outer := ChangedErrorIsSeen(r);
      }
      NestedRun(c, outer, inner, rest);
      assert HandleFrom(c, outer, [Merge(inner)] + rest) != HandleFrom(c, outer, inner + rest);
    }
  }

  /** The engine-level statement: `before` and `rest` are arbitrary stacks. */
  lemma NestingEqualsFlattening<W>(c: Context<W>, before: seq<Middleware<W>>, inner: seq<Middleware<W>>,
      rest: seq<Middleware<W>>)
    requires c.res.error.None?
    requires var a := RunAll(c, before); a.isComplete || NestingAgrees(a.ctx, inner)
    ensures HandleRequest(c, before + [Merge(inner)] + rest) == HandleRequest(c, before + inner + rest)
  {
    var a := RunAll(c, before);
    RunErrorShape(c, before);
    assert before + [Merge(inner)] + rest == before + ([Merge(inner)] + rest);
    assert before + inner + rest == before + (inner + rest);
    RunAllConcat(c, before, [Merge(inner)] + rest);
    RunAllConcat(c, before, inner + rest);
    if !a.isComplete {
      NestingAgreesSuffices(a.ctx, a.handlers, inner, rest);
    }
  }

  // ---------- Order of calls ----------

  datatype Call = Entered(name: string) | Returned(name: string)

  datatype Logged<+W> = Logged(world: W, calls: seq<Call>)

  function LogHandler<W>(name: string, h: Handler<W>): Handler<Logged<W>> {
    (c: Context<Logged<W>>) =>
      var (c', e) := h(Context(c.req, c.res, c.world.world));
      (Context(c'.req, c'.res, Logged(c'.world, c.world.calls + [Returned(name)])), e)
  }

  function LogOutcome<W>(name: string, o: Outcome<W>): Outcome<Logged<W>> {
    match o
    case Next(h) => Next(if h.Some? then Some(LogHandler(name, h.value)) else None)
    case NextWithNonFunction => NextWithNonFunction
    case End(e) => End(e)
    case Throw(e) => Throw(e)
  }

  function Log<W>(name: string, m: Middleware<W>): Middleware<Logged<W>> {
    (c: Context<Logged<W>>) =>
      var (c', o) := m(Context(c.req, c.res, c.world.world));
      (Context(c'.req, c'.res, Logged(c'.world, c.world.calls + [Entered(name)])), LogOutcome(name, o))
  }

  function LogStack<W>(ms: seq<(string, Middleware<W>)>): seq<Middleware<Logged<W>>> {
    if ms == [] then [] else [Log(ms[0].0, ms[0].1)] + LogStack(ms[1..])
  }

  /** Middleware and return handlers are called in the same order. */
  lemma NestingKeepsCallOrder<W>(c: Context<Logged<W>>, before: seq<(string, Middleware<W>)>,
                                 inner: seq<(string, Middleware<W>)>, rest: seq<(string, Middleware<W>)>)
    requires c.res.error.None?
    requires var a := RunAll(c, LogStack(before)); a.isComplete || NestingAgrees(a.ctx, LogStack(inner))
    ensures HandleRequest(c, LogStack(before) + [Merge(LogStack(inner))] + LogStack(rest)).0.world.calls
         == HandleRequest(c, LogStack(before) + LogStack(inner) + LogStack(rest)).0.world.calls
  {
    NestingEqualsFlattening(c, LogStack(before), LogStack(inner), LogStack(rest));
  }

  // ---------- It can differ ----------

  function Tally(): Handler<int> { (c: Context<int>) => (c.(world := c.world + 1), None) }
  function Fail(): Handler<int> { (c: Context<int>) => (c, Some(Thrown("failed"))) }
  function Answer(): Middleware<int> { (c: Context<int>) => (c.(res := c.res.(result := Some("1"))), End(None)) }

  /** A failing inner return handler: flat, the outer handler is skipped; nested, it runs. */
  lemma NestingCanDiffer(c: Context<int>)
    requires c.res.error.None? && c.world == 0
    ensures HandleRequest(c, [PushHandler(Tally())] + [Merge([PushHandler(Fail()), Answer()])]).0.world == 1
    ensures HandleRequest(c, [PushHandler(Tally())] + [PushHandler(Fail()), Answer()]).0.world == 0
  {
    var inner := [PushHandler(Fail()), Answer()];
    assert [PushHandler(Tally())][1..] == [];
    RunAllConcat(c, [PushHandler(Tally())], [Merge(inner)]);
    RunAllConcat(c, [PushHandler(Tally())], inner);
    assert inner[1..] == [Answer()] && [Answer()][1..] == [];
    assert inner[0] == PushHandler(Fail());
    var r := RunAll(c, inner);
    var answered := c.(res := c.res.(result := Some("1")));
    assert r == Run(answered, None, true, [Fail()]);
    RunOne(answered, Fail());
    assert [Merge(inner)][0] == Merge(inner);
    assert RunAll(c, [Merge(inner)]) == EndWith(answered, Some(Thrown("failed")), []);
    RunOne(EndWith(answered, Some(Thrown("failed")), []).ctx, Tally());
    NestedRun(c, [Tally()], inner, []);
    ConcludeWithOuter(r, [Tally()]);
    assert [PushHandler(Tally())] + [Merge(inner)] == [PushHandler(Tally())] + [Merge(inner)] + [];
    assert RunAll(c, [PushHandler(Tally())]) == Run(c, None, false, [Tally()]);
  }
}
