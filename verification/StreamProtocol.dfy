/**
 Requests and responses over a duplex stream: the id-remapping middleware gives
 each request a fresh id, the stream middleware files it under that id until a
 response with the id is written back, and the caller gets the response under
 the id it chose. Steps of the callers, the peer, the timers and anyone else
 drawing ids interleave freely.
 */
module StreamProtocol {
  import opened Prelude
  import Engine = JsonRpcEngine

  const MAX: nat := 4_294_967_295
  const RETRY_LIMIT: nat := 3

  // What a response holds besides its id. Nothing makes the peer put anything in it.
  datatype Content = Content(result: Option<Engine.Json>, error: Option<Engine.Error>)

  // `serial` tells two writes of equal responses apart.
  datatype Response = Response(id: Option<nat>, content: Content, serial: nat)

  // `call` numbers the requests in order of arrival.
  datatype Entry = Entry(call: nat, retryCount: nat)

  datatype Timer = Timer(call: nat, res: Response)

  // ---------- The stream middleware ----------

  // The pending requests, the calls pushed to the stream, and the timers set to
  // end a request.
  datatype Stream = Stream(idMap: map<nat, Entry>, pushed: seq<nat>, timers: seq<Timer>)

  function Register(s: Stream, id: nat, call: nat): Stream {
    s.(idMap := s.idMap[id := Entry(call, 0)], pushed := s.pushed + [call])
  }

  function ProcessResponse(s: Stream, res: Response): Stream {
    if res.id.None? || res.id.value !in s.idMap then s
    else s.(idMap := s.idMap - {res.id.value}, timers := s.timers + [Timer(s.idMap[res.id.value].call, res)])
  }

  function ProcessAll(s: Stream, responses: seq<Response>): Stream
    decreases |responses|
  {
    if responses == [] then s else ProcessAll(ProcessResponse(s, responses[0]), responses[1..])
  }

  // A pending request as a pass over all of them found it.
  datatype Found = Found(id: nat, entry: Entry)

  // Its turn in the pass. By then a response may have removed it. `false` means
  // that it is over the limit and stops the pass with an exception.
  function PushAgain(s: Stream, f: Found): (Stream, bool) {
    if f.id == 0 then (s, true)
    else if f.entry.retryCount >= RETRY_LIMIT then (s, false)
    else
      (s.(idMap := if f.id in s.idMap then s.idMap[f.id := s.idMap[f.id].(retryCount := f.entry.retryCount + 1)]
          else s.idMap,
          pushed := s.pushed + [f.entry.call]), true)
  }

  // `arriving[i]` are the responses written while the i-th request is pushed.
  function Retry(s: Stream, found: seq<Found>, arriving: seq<seq<Response>>): (Stream, bool)
    requires |arriving| == |found|
    decreases |found|
  {
    if found == [] then (s, true)
    else
      var (s', ok) := PushAgain(s, found[0]);
      if !ok then (s', false)
      else Retry(if found[0].id == 0 then s' else ProcessAll(s', arriving[0]), found[1..], arriving[1..])
  }

  ghost predicate Enumerates(ids: seq<nat>, m: map<nat, Entry>) {
    && (forall id :: id in ids <==> id in m)
    && (forall i, j :: 0 <= i < j < |ids| ==> ids[i] != ids[j])
  }

  function FindAll(ids: seq<nat>, m: map<nat, Entry>): (found: seq<Found>)
    requires forall id :: id in ids ==> id in m
    ensures |found| == |ids| && forall i :: 0 <= i < |ids| ==> found[i] == Found(ids[i], m[ids[i]])
  {
    if ids == [] then [] else [Found(ids[0], m[ids[0]])] + FindAll(ids[1..], m)
  }

  class StreamMiddleware {
    var idMap: map<nat, Entry>
    var pushed: seq<nat>
    var timers: seq<Timer>

    function State(): Stream
      reads this
    {
      Stream(idMap, pushed, timers)
    }

    constructor ()
      ensures State() == Stream(map[], [], [])
    {
      idMap, pushed, timers := map[], [], [];
    }

    method Middleware(id: nat, call: nat)
      modifies this
      ensures State() == Register(old(State()), id, call)
    {
      idMap := idMap[id := Entry(call, 0)];
      SendToStream(call);
    }

    method SendToStream(call: nat)
      modifies this`pushed
      ensures pushed == old(pushed) + [call]
    {
      pushed := pushed + [call];
    }

    method Process(res: Response)
      modifies this
      ensures State() == ProcessResponse(old(State()), res)
    {
      if res.id.None? || res.id.value !in idMap {
        return;
      }
      var context := idMap[res.id.value];
      idMap := idMap - {res.id.value};
      timers := timers + [Timer(context.call, res)];
    }

    method RetryStuckRequests(ids: seq<nat>, arriving: seq<seq<Response>>) returns (ok: bool)
      requires Enumerates(ids, idMap) && |arriving| == |ids|
      modifies this
      ensures (State(), ok) == Retry(old(State()), FindAll(ids, old(idMap)), arriving)
    {
      var found := FindAll(ids, idMap);
      for i := 0 to |found|
        invariant Retry(old(State()), found, arriving) == Retry(State(), found[i..], arriving[i..])
      {
        assert found[i..][0] == found[i] && found[i..][1..] == found[i + 1..];
        assert arriving[i..][0] == arriving[i] && arriving[i..][1..] == arriving[i + 1..];
        var id, retryCount := found[i].id, found[i].entry.retryCount;
        if id != 0 {
          if retryCount >= RETRY_LIMIT {
            return false;
          }
          if id in idMap {
            idMap := idMap[id := idMap[id].(retryCount := retryCount + 1)];
          }
          SendToStream(found[i].entry.call);
          Receive(arriving[i]);
        }
      }
      ok := true;
    }

    method Receive(responses: seq<Response>)
      modifies this
      ensures State() == ProcessAll(old(State()), responses)
    {
      for i := 0 to |responses|
        invariant ProcessAll(old(State()), responses) == ProcessAll(State(), responses[i..])
      {
        assert responses[i..][0] == responses[i] && responses[i..][1..] == responses[i + 1..];
        Process(responses[i]);
      }
    }
  }

  // ---------- Unique ids ----------

  function NextId(counter: nat): nat {
    (counter + 1) % MAX
  }

  class IdSource {
    var idCounter: nat

    constructor (start: nat)
      requires start < MAX
      ensures idCounter == start
    {
      idCounter := start;
    }

    method GetUniqueId() returns (id: nat)
      modifies this
      ensures id == idCounter == NextId(old(idCounter))
    {
      idCounter := (idCounter + 1) % MAX;
      id := idCounter;
    }
  }

  /** Two draws give the same id exactly when a multiple of MAX separates them. */
  lemma DrawsCollideIff(start: nat, i: nat, j: nat)
    requires i <= j
    ensures (start + i) % MAX == (start + j) % MAX <==> (j - i) % MAX == 0
  {
    var a, b := start + i, start + j;
    var q, r := a / MAX, b / MAX;
    if a % MAX == b % MAX {
      assert j - i == (r - q) * MAX;
    }
    if (j - i) % MAX == 0 {
      var k := (j - i) / MAX;
      assert b == a + k * MAX;
    }
  }

  // ---------- The protocol ----------

  datatype Caller = Caller(originalId: Option<Engine.Id>, newId: nat, drawnAt: nat, seenBefore: nat)

  datatype Reply = Reply(call: nat, id: Option<Engine.Id>, res: Response)

  predicate IsComplete(content: Content) {
    content.result.Some? || content.error.Some?
  }

  // The return handler that puts the caller's id back runs only if the response is complete.
  function ReplyId(caller: Caller, content: Content): Option<Engine.Id> {
    if IsComplete(content) then caller.originalId else Some(Engine.NumberId(caller.newId))
  }

  // `drawn` counts the ids drawn and `written` the responses written so far;
  // `pass` is what is left of a pass that pushes the pending requests again.
  datatype System = System(
    counter: nat, drawn: nat, callers: seq<Caller>, stream: Stream, pass: seq<Found>, written: nat, replies: seq<Reply>)

  datatype Event =
    | DrawElsewhere
    | Call(originalId: Option<Engine.Id>)
    | Write(id: Option<nat>, content: Content)
    | RetryNotification(ids: seq<nat>)
    | PushNext
    | TimerFires(index: nat)

  // A pass runs to its end before anything but responses can come.
  ghost predicate Enabled(s: System, e: Event) {
    match e
    case Call(_) => s.pass == []
    case RetryNotification(ids) => s.pass == [] && Enumerates(ids, s.stream.idMap)
    case PushNext => s.pass != []
    case TimerFires(i) => s.pass == [] && i < |s.stream.timers| && s.stream.timers[i].call < |s.callers|
    case _ => true
  }

  function Step(s: System, e: Event): System
    requires Enabled(s, e)
  {
    match e
    case DrawElsewhere => s.(counter := NextId(s.counter), drawn := s.drawn + 1)
    case Call(originalId) =>
      var newId := NextId(s.counter);
      s.(counter := newId, drawn := s.drawn + 1,
         callers := s.callers + [Caller(originalId, newId, s.drawn + 1, s.written)],
         stream := Register(s.stream, newId, |s.callers|))
    case Write(id, content) =>
      s.(written := s.written + 1, stream := ProcessResponse(s.stream, Response(id, content, s.written)))
    case RetryNotification(ids) => s.(pass := FindAll(ids, s.stream.idMap))
    case PushNext =>
      var (stream, ok) := PushAgain(s.stream, s.pass[0]);
      s.(stream := stream, pass := if ok then s.pass[1..] else [])
    case TimerFires(i) =>
      var t := s.stream.timers[i];
      s.(stream := s.stream.(timers := s.stream.timers[..i] + s.stream.timers[i + 1..]),
         replies := s.replies + [Reply(t.call, ReplyId(s.callers[t.call], t.res.content), t.res)])
  }

  // A response that may be given to `call`: it carries the call's id and was
  // written after the call was made.
  predicate Answers(s: System, call: nat, res: Response) {
    && call < |s.callers|
    && res.id == Some(s.callers[call].newId)
    && s.callers[call].seenBefore <= res.serial < s.written
  }

  function EndsCall(call: nat): Timer -> bool { (t: Timer) => t.call == call }
  function RepliesTo(call: nat): Reply -> bool { (r: Reply) => r.call == call }
  function TimerUses(serial: nat): Timer -> bool { (t: Timer) => t.res.serial == serial }
  function ReplyUses(serial: nat): Reply -> bool { (r: Reply) => r.res.serial == serial }

  // How often the end of a call was set in motion, and by a given response.
  function Ended(s: System, call: nat): nat {
    Count(EndsCall(call), s.stream.timers) + Count(RepliesTo(call), s.replies)
  }

  function Uses(s: System, serial: nat): nat {
    Count(TimerUses(serial), s.stream.timers) + Count(ReplyUses(serial), s.replies)
  }

  predicate IsPending(s: System, call: nat) {
    && call < |s.callers|
    && var id := s.callers[call].newId;
       id in s.stream.idMap && s.stream.idMap[id].call == call
  }

  ghost predicate IdsFollowDraws(s: System, start: nat) {
    && s.counter == (start + s.drawn) % MAX
    && (forall c :: 0 <= c < |s.callers| ==>
          && s.callers[c].drawnAt <= s.drawn
          && s.callers[c].newId == (start + s.callers[c].drawnAt) % MAX
          && s.callers[c].seenBefore <= s.written)
  }

  ghost predicate PendingFiled(s: System) {
    && (forall id :: id in s.stream.idMap ==>
          var e := s.stream.idMap[id];
          && e.call < |s.callers| && s.callers[e.call].newId == id
          && multiset(s.stream.pushed)[e.call] == 1 + e.retryCount && e.retryCount <= RETRY_LIMIT)
    && (forall c :: |s.callers| <= c ==> multiset(s.stream.pushed)[c] == 0)
    && (forall c :: multiset(s.stream.pushed)[c] <= 1 + RETRY_LIMIT)
  }

  // The requests still to be pushed in a pass are as they were found, or gone.
  ghost predicate PassFits(s: System) {
    && (forall k :: 0 <= k < |s.pass| ==>
          var f := s.pass[k];
          && f.entry.call < |s.callers| && s.callers[f.entry.call].newId == f.id
          && multiset(s.stream.pushed)[f.entry.call] == 1 + f.entry.retryCount
          && (f.id in s.stream.idMap ==> s.stream.idMap[f.id] == f.entry))
    && (forall j, k :: 0 <= j < k < |s.pass| ==> s.pass[j].entry.call != s.pass[k].entry.call)
  }

  // The end of a call is set in motion at most once, and not while it is
  // pending; and each response written ends at most one call.
  ghost predicate OneFate(s: System) {
    && (forall c: nat :: Ended(s, c) <= if c < |s.callers| && !IsPending(s, c) then 1 else 0)
    && (forall n: nat :: Uses(s, n) <= if n < s.written then 1 else 0)
  }

  ghost predicate ProperAnswers(s: System) {
    && (forall i :: 0 <= i < |s.stream.timers| ==> Answers(s, s.stream.timers[i].call, s.stream.timers[i].res))
    && (forall i :: 0 <= i < |s.replies| ==>
          && Answers(s, s.replies[i].call, s.replies[i].res)
          && s.replies[i].id == ReplyId(s.callers[s.replies[i].call], s.replies[i].res.content))
  }

  ghost predicate Inv(s: System, start: nat) {
    IdsFollowDraws(s, start) && PendingFiled(s) && PassFits(s) && OneFate(s) && ProperAnswers(s)
  }

  function Initial(start: nat): System {
    System(start % MAX, 0, [], Stream(map[], [], []), [], 0, [])
  }

  // The id the next call would get is not in use.
  predicate NextIdFree(s: System) {
    NextId(s.counter) !in s.stream.idMap
  }

  // ---------- Calls ----------

  lemma CallFiled(s: System, originalId: Option<Engine.Id>)
    requires PendingFiled(s) && s.pass == []
    ensures PendingFiled(Step(s, Call(originalId)))
  {
    var s' := Step(s, Call(originalId));
    var n: nat := |s.callers|;
    assert multiset(s'.stream.pushed) == multiset(s.stream.pushed) + multiset{n};
  }

  lemma CallFate(s: System, originalId: Option<Engine.Id>)
    requires OneFate(s) && s.pass == []
    ensures OneFate(Step(s, Call(originalId)))
  {
    var s' := Step(s, Call(originalId));
    SameEnds(s, s');
    forall c: nat ensures Ended(s', c) <= if c < |s'.callers| && !IsPending(s', c) then 1 else 0 {
      assert IsPending(s', c) && c < |s.callers| ==> IsPending(s, c);
    }
  }

  lemma SameEnds(s: System, s': System)
    requires s'.stream.timers == s.stream.timers && s'.replies == s.replies
    ensures forall c: nat :: Ended(s', c) == Ended(s, c) && Uses(s', c) == Uses(s, c)
  {
  }

  lemma CallKeepsInv(s: System, originalId: Option<Engine.Id>, start: nat)
    requires Inv(s, start) && s.pass == []
    ensures Inv(Step(s, Call(originalId)), start)
  {
    CallDraws(s, originalId, start);
    CallFiled(s, originalId);
    CallFate(s, originalId);
    CallAnswers(s, originalId);
  }

  lemma CallDraws(s: System, originalId: Option<Engine.Id>, start: nat)
    requires IdsFollowDraws(s, start) && s.pass == []
    ensures IdsFollowDraws(Step(s, Call(originalId)), start)
  {
    NextDraw(start + s.drawn);
    var s' := Step(s, Call(originalId));
    assert s'.counter == (start + s'.drawn) % MAX;
    forall c | 0 <= c < |s'.callers|
      ensures s'.callers[c].drawnAt <= s'.drawn && s'.callers[c].newId == (start + s'.callers[c].drawnAt) % MAX
    {
      assert c < |s.callers| ==> s'.callers[c] == s.callers[c];
    }
  }

  lemma NextDraw(n: nat)
    ensures NextId(n % MAX) == (n + 1) % MAX
  {
  }

  lemma CallAnswers(s: System, originalId: Option<Engine.Id>)
    requires ProperAnswers(s) && s.pass == []
    ensures ProperAnswers(Step(s, Call(originalId)))
  {
    var s' := Step(s, Call(originalId));
    assert forall c :: 0 <= c < |s.callers| ==> s'.callers[c] == s.callers[c];
  }

  // ---------- Responses ----------

  lemma WriteEnds(s: System, id: nat, content: Content, k: nat)
    requires id in s.stream.idMap
    ensures var s' := Step(s, Write(Some(id), content));
            && Ended(s', k) == Ended(s, k) + (if k == s.stream.idMap[id].call then 1 else 0)
            && Uses(s', k) == Uses(s, k) + (if k == s.written then 1 else 0)
  {
    var t := Timer(s.stream.idMap[id].call, Response(Some(id), content, s.written));
    CountSnoc(EndsCall(k), s.stream.timers, t);
    CountSnoc(TimerUses(k), s.stream.timers, t);
  }

  lemma WriteMovesCall(s: System, id: nat, content: Content)
    requires PendingFiled(s) && OneFate(s) && id in s.stream.idMap
    ensures OneFate(Step(s, Write(Some(id), content)))
  {
    var s' := Step(s, Write(Some(id), content));
    var call := s.stream.idMap[id].call;
    assert IsPending(s, call);
    forall c: nat ensures Ended(s', c) <= if c < |s'.callers| && !IsPending(s', c) then 1 else 0 {
      WriteEnds(s, id, content, c);
      assert IsPending(s', c) == (IsPending(s, c) && c != call);
    }
    forall n: nat ensures Uses(s', n) <= if n < s'.written then 1 else 0 {
      WriteEnds(s, id, content, n);
    }
  }

  lemma WriteKeepsInv(s: System, id: Option<nat>, content: Content, start: nat)
    requires Inv(s, start)
    ensures Inv(Step(s, Write(id, content)), start)
  {
    var s' := Step(s, Write(id, content));
    assert IdsFollowDraws(s', start);
    assert PendingFiled(s');
    assert PassFits(s');
    assert ProperAnswers(s');
    assert OneFate(s') by {
      if id.Some? && id.value in s.stream.idMap {
        WriteMovesCall(s, id.value, content);
      } else {
        SameFate(s, s');
      }
    }
  }

  // Steps that leave the pending calls, the timers and the replies alone.
  lemma SameFate(s: System, s': System)
    requires OneFate(s) && s'.callers == s.callers && s.written <= s'.written
    requires s'.stream.timers == s.stream.timers && s'.replies == s.replies
    requires forall c: nat :: IsPending(s', c) == IsPending(s, c)
    ensures OneFate(s')
  {
    SameEnds(s, s');
  }

  // ---------- Timers ----------

  lemma TimerMovesCall(s: System, i: nat, k: nat)
    requires Enabled(s, TimerFires(i))
    ensures var s' := Step(s, TimerFires(i));
            Ended(s', k) == Ended(s, k) && Uses(s', k) == Uses(s, k)
  {
    var s' := Step(s, TimerFires(i));
    var ts, r := s.stream.timers, s'.replies[|s.replies|];
    CountRemove(EndsCall(k), ts, i);
    CountRemove(TimerUses(k), ts, i);
    CountSnoc(RepliesTo(k), s.replies, r);
    CountSnoc(ReplyUses(k), s.replies, r);
  }

  lemma TimerFate(s: System, i: nat)
    requires OneFate(s) && Enabled(s, TimerFires(i))
    ensures OneFate(Step(s, TimerFires(i)))
  {
    var s' := Step(s, TimerFires(i));
    forall k: nat ensures Ended(s', k) == Ended(s, k) && Uses(s', k) == Uses(s, k) {
      TimerMovesCall(s, i, k);
    }
    assert forall c: nat :: IsPending(s', c) == IsPending(s, c);
  }

  lemma TimerKeepsInv(s: System, i: nat, start: nat)
    requires Inv(s, start) && Enabled(s, TimerFires(i))
    ensures Inv(Step(s, TimerFires(i)), start)
  {
    TimerFate(s, i);
    TimerAnswers(s, i);
  }

  lemma TimerAnswers(s: System, i: nat)
    requires ProperAnswers(s) && Enabled(s, TimerFires(i))
    ensures ProperAnswers(Step(s, TimerFires(i)))
  {
    var s' := Step(s, TimerFires(i));
    forall k | 0 <= k < |s'.stream.timers|
      ensures Answers(s', s'.stream.timers[k].call, s'.stream.timers[k].res)
    {
      var t := s.stream.timers[if k < i then k else k + 1];
      assert s'.stream.timers[k] == t && Answers(s, t.call, t.res);
    }
    assert Answers(s, s.stream.timers[i].call, s.stream.timers[i].res);
  }

  // ---------- Passes over the pending requests ----------

  lemma NotificationFits(s: System, ids: seq<nat>)
    requires PendingFiled(s) && Enabled(s, RetryNotification(ids))
    ensures PassFits(Step(s, RetryNotification(ids)))
  {
    var s' := Step(s, RetryNotification(ids));
    forall j, k | 0 <= j < k < |s'.pass| ensures s'.pass[j].entry.call != s'.pass[k].entry.call {
      assert ids[j] in s.stream.idMap && ids[k] in s.stream.idMap;
    }
  }

  lemma NotificationKeepsInv(s: System, ids: seq<nat>, start: nat)
    requires Inv(s, start) && Enabled(s, RetryNotification(ids))
    ensures Inv(Step(s, RetryNotification(ids)), start)
  {
    NotificationFits(s, ids);
    SameFate(s, Step(s, RetryNotification(ids)));
  }

  predicate IsPushed(f: Found) {
    f.id != 0 && f.entry.retryCount < RETRY_LIMIT
  }

  lemma PushCounts(s: System, c: nat)
    requires s.pass != [] && IsPushed(s.pass[0])
    ensures multiset(Step(s, PushNext).stream.pushed)[c]
         == multiset(s.stream.pushed)[c] + if c == s.pass[0].entry.call then 1 else 0
  {
    var call := s.pass[0].entry.call;
    assert multiset(s.stream.pushed + [call]) == multiset(s.stream.pushed) + multiset{call};
  }

  lemma PushFiled(s: System)
    requires PendingFiled(s) && PassFits(s) && s.pass != []
    ensures PendingFiled(Step(s, PushNext))
  {
    var s', f := Step(s, PushNext), s.pass[0];
    if IsPushed(f) {
      forall c: nat ensures multiset(s'.stream.pushed)[c]
                         == multiset(s.stream.pushed)[c] + if c == f.entry.call then 1 else 0 {
        PushCounts(s, c);
      }
    }
  }

  lemma PushLeavesPassFit(s: System)
    requires PendingFiled(s) && PassFits(s) && s.pass != []
    ensures PassFits(Step(s, PushNext))
  {
    var s', first := Step(s, PushNext), s.pass[0];
    forall k | 0 <= k < |s'.pass|
      ensures var f := s'.pass[k];
              && f.entry.call < |s.callers| && s.callers[f.entry.call].newId == f.id
              && multiset(s'.stream.pushed)[f.entry.call] == 1 + f.entry.retryCount
              && (f.id in s'.stream.idMap ==> s'.stream.idMap[f.id] == f.entry)
    {
      var f := s.pass[k + 1];
      assert s'.pass[k] == f && f.entry.call != first.entry.call;
      if IsPushed(first) {
        PushCounts(s, f.entry.call);
      }
    }
    assert forall k :: 0 <= k < |s'.pass| ==> s'.pass[k] == s.pass[k + 1];
  }

  lemma PushKeepsInv(s: System, start: nat)
    requires Inv(s, start) && s.pass != []
    ensures Inv(Step(s, PushNext), start)
  {
    var s' := Step(s, PushNext);
    PushFiled(s);
    PushLeavesPassFit(s);
    PushKeepsPending(s);
    SameFate(s, s');
    PushKeepsAnswers(s);
  }

  lemma PushKeepsPending(s: System)
    requires s.pass != []
    ensures forall c: nat :: IsPending(Step(s, PushNext), c) == IsPending(s, c)
  {
  }

  lemma PushKeepsAnswers(s: System)
    requires ProperAnswers(s) && s.pass != []
    ensures ProperAnswers(Step(s, PushNext))
  {
  }

  lemma DrawKeepsInv(s: System, start: nat)
    requires Inv(s, start)
    ensures Inv(Step(s, DrawElsewhere), start)
  {
    NextDraw(start + s.drawn);
    SameFate(s, Step(s, DrawElsewhere));
  }

  // ---------- Whole runs ----------

  ghost predicate IsRun(s: System, es: seq<Event>)
    decreases |es|
  {
    es == [] || (Enabled(s, es[0]) && IsRun(Step(s, es[0]), es[1..]))
  }

  ghost function After(s: System, es: seq<Event>): System
    requires IsRun(s, es)
    decreases |es|
  {
    if es == [] then s else After(Step(s, es[0]), es[1..])
  }

  lemma StepKeepsInv(s: System, e: Event, start: nat)
    requires Inv(s, start) && Enabled(s, e)
    ensures Inv(Step(s, e), start)
  {
    match e
    case DrawElsewhere => DrawKeepsInv(s, start);
    case Call(originalId) => CallKeepsInv(s, originalId, start);
    case Write(id, content) => WriteKeepsInv(s, id, content, start);
    case RetryNotification(ids) =>
      NotificationKeepsInv(s, ids, start);
    case PushNext => PushKeepsInv(s, start);
    case TimerFires(i) => TimerKeepsInv(s, i, start);
  }

  lemma {:induction false} RunsKeepInv(s: System, es: seq<Event>, start: nat)
    requires Inv(s, start) && IsRun(s, es)
    ensures Inv(After(s, es), start)
    decreases |es|
  {
    if es != [] {
      StepKeepsInv(s, es[0], start);
      RunsKeepInv(Step(s, es[0]), es[1..], start);
    }
  }

  lemma {:induction false} CountOneIsUnique<T>(p: T -> bool, s: seq<T>, i: nat, j: nat)
    requires i < j < |s| && p(s[i]) && p(s[j])
    ensures Count(p, s) >= 2
  {
    CountRemove(p, s, j);
    var rest := s[..j] + s[j + 1..];
    assert rest[i] == s[i];
    CountRemove(p, rest, i);
  }

  /** In every run, however many ids are drawn, each request is answered at most
      once, with a response that carries the id it was sent under and was written
      after it was made; no response answers two requests; and no request is pushed to
      the stream more than four times. The reply is under the id its caller chose if
      the response has a result or an error, and else under the id drawn for it. */
  lemma ResponsesReachTheirCaller(start: nat, es: seq<Event>)
    requires IsRun(Initial(start), es)
    ensures var s := After(Initial(start), es);
            && (forall i, j :: 0 <= i < j < |s.replies| ==>
                  s.replies[i].call != s.replies[j].call && s.replies[i].res.serial != s.replies[j].res.serial)
            && (forall i :: 0 <= i < |s.replies| ==>
                  var r := s.replies[i];
                  Answers(s, r.call, r.res) && r.id == ReplyId(s.callers[r.call], r.res.content))
            && (forall c: nat :: multiset(s.stream.pushed)[c] <= 4)
  {
    var init := Initial(start);
    assert Inv(init, start);
    RunsKeepInv(init, es, start);
    var s := After(init, es);
    forall i, j | 0 <= i < j < |s.replies|
      ensures s.replies[i].call != s.replies[j].call && s.replies[i].res.serial != s.replies[j].res.serial
    {
      if s.replies[i].call == s.replies[j].call {
        assert Answers(s, s.replies[i].call, s.replies[i].res) && Ended(s, s.replies[i].call) <= 1;
        CountOneIsUnique(RepliesTo(s.replies[i].call), s.replies, i, j);
      }
      if s.replies[i].res.serial == s.replies[j].res.serial {
        assert Uses(s, s.replies[i].res.serial) <= 1;
        CountOneIsUnique(ReplyUses(s.replies[i].res.serial), s.replies, i, j);
      }
    }
  }

  /** So a reply is under its caller's id exactly if the response written has a result
      or an error, or the id drawn happens to be the caller's own. */
  lemma OriginalIdIff(start: nat, es: seq<Event>, i: nat)
    requires IsRun(Initial(start), es) && i < |After(Initial(start), es).replies|
    ensures var s := After(Initial(start), es);
            && s.replies[i].call < |s.callers|
            && var caller := s.callers[s.replies[i].call];
               s.replies[i].id == caller.originalId <==>
               IsComplete(s.replies[i].res.content) || caller.originalId == Some(Engine.NumberId(caller.newId))
  {
    ResponsesReachTheirCaller(start, es);
  }

  // ---------- The same ids, from the engine ----------

  function RestoreId<W>(id: Option<Engine.Id>): Engine.Handler<W> {
    (c: Engine.Context<W>) => (c.(req := c.req.(id := id), res := c.res.(id := id)), None)
  }

  function RemapId<W>(newId: nat): Engine.Middleware<W> {
    (c: Engine.Context<W>) =>
      var id := Some(Engine.NumberId(newId));
      (c.(req := c.req.(id := id), res := c.res.(id := id)), Engine.Next(Some(RestoreId<W>(c.req.id))))
  }

  // The response assigned to the pending one: what it has replaces what was there.
  function Assigned(res: Engine.Response, id: nat, content: Content): Engine.Response {
    res.(id := Some(Engine.NumberId(id)),
         result := if content.result.Some? then content.result else res.result,
         error := if content.error.Some? then content.error else res.error)
  }

  // The stream middleware, seen by a request that is answered.
  function AnswerWith<W>(id: nat, content: Content): Engine.Middleware<W> {
    (c: Engine.Context<W>) => (c.(res := Assigned(c.res, id, content)), Engine.End(None))
  }

  /** The engine running id remapping in front of the stream middleware replies under
      the id that the protocol says, with the result unless there is an error, and
      with an error of its own if there was neither. */
  lemma EngineRepliesUnder<W>(c: Engine.Context<W>, caller: Caller, content: Content)
    requires c.res.result.None? && c.res.error.None? && c.req.id == caller.originalId
    ensures var (c', e) := Engine.HandleRequest(c, [RemapId<W>(caller.newId), AnswerWith<W>(caller.newId, content)]);
            && c'.res.id == ReplyId(caller, content)
            && c'.res.result == (if content.error.Some? then None else content.result)
            && (e.None? <==> content.error.None? && content.result.Some?)
            && (content.error.Some? ==> c'.res.error == Some(Engine.SerializeError(content.error.value)))
            && (!IsComplete(content) ==> e.Some? && e.value.NoResultOrError? && c'.res.error == e)
  {
    var ms: seq<Engine.Middleware<W>> := [RemapId(caller.newId), AnswerWith(caller.newId, content)];
    var h: Engine.Handler<W> := RestoreId(c.req.id);
    var first := Engine.RunMiddleware(c, ms[0]);
    assert ms[1..] == [ms[1]] && [ms[1]][1..] == [];
    assert first.handlers == [h] && !first.isComplete;
    var second := Engine.RunMiddleware(first.ctx, ms[1]);
    assert second.isComplete && second.handlers == [];
    assert [h] + [] == [h];
    var r := Engine.RunAll(c, ms);
    assert Engine.RunAll(first.ctx, ms[1..]) == second;
    assert r == second.(handlers := [h]);
    assert [h][1..] == [] && Reverse([h]) == [h];
    assert Engine.RunHandlers(r.ctx, [h]) == (h(r.ctx).0, None);
  }

  // ---------- Which requests are lost ----------

  // Neither pending nor about to be ended nor ended.
  ghost predicate Lost(s: System, call: nat) {
    && call < |s.callers|
    && (forall id :: id in s.stream.idMap ==> s.stream.idMap[id].call != call)
    && Ended(s, call) == 0
  }

  ghost predicate NoneLost(s: System) {
    forall c: nat :: c < |s.callers| ==> IsPending(s, c) || Ended(s, c) > 0
  }

  /** A call whose id is in use takes the place of the request pending under it, which is lost. */
  lemma CollisionLosesCall(s: System, originalId: Option<Engine.Id>, start: nat)
    requires Inv(s, start) && s.pass == [] && !NextIdFree(s)
    ensures Lost(Step(s, Call(originalId)), s.stream.idMap[NextId(s.counter)].call)
  {
    var lost := s.stream.idMap[NextId(s.counter)].call;
    assert IsPending(s, lost) && Ended(s, lost) == 0;
    SameEnds(s, Step(s, Call(originalId)));
  }

  lemma StepKeepsLost(s: System, e: Event, call: nat)
    requires Enabled(s, e) && Lost(s, call)
    ensures Lost(Step(s, e), call)
  {
    match e
    case Write(id, content) =>
      if id.Some? && id.value in s.stream.idMap {
        WriteEnds(s, id.value, content, call);
      }
    case TimerFires(i) => TimerMovesCall(s, i, call);
    case _ => SameEnds(s, Step(s, e));
  }

  /** A lost request stays lost, whatever happens: no response ever reaches its caller. */
  lemma {:induction false} LostForever(s: System, es: seq<Event>, call: nat)
    requires IsRun(s, es) && Lost(s, call)
    ensures Lost(After(s, es), call)
    decreases |es|
  {
    if es != [] {
      StepKeepsLost(s, es[0], call);
      LostForever(Step(s, es[0]), es[1..], call);
    }
  }

  lemma StepLosesNone(s: System, e: Event, start: nat)
    requires Inv(s, start) && Enabled(s, e) && NoneLost(s) && (e.Call? ==> NextIdFree(s))
    ensures NoneLost(Step(s, e))
  {
    var s' := Step(s, e);
    forall c: nat | c < |s'.callers| ensures IsPending(s', c) || Ended(s', c) > 0 {
      match e
      case Write(id, content) =>
        if id.Some? && id.value in s.stream.idMap {
          WriteEnds(s, id.value, content, c);
        } else {
          SameEnds(s, s');
        }
      case TimerFires(i) => TimerMovesCall(s, i, c);
      case _ => SameEnds(s, s');
    }
  }

  // Each call of the run finds its id free.
  ghost predicate IdsFree(s: System, es: seq<Event>)
    requires IsRun(s, es)
    decreases |es|
  {
    es != [] ==> (es[0].Call? ==> NextIdFree(s)) && IdsFree(Step(s, es[0]), es[1..])
  }

  lemma {:induction false} NoneLostFromIff(s: System, es: seq<Event>, start: nat)
    requires Inv(s, start) && NoneLost(s) && IsRun(s, es)
    ensures NoneLost(After(s, es)) <==> IdsFree(s, es)
    decreases |es|
  {
    if es != [] {
      var s' := Step(s, es[0]);
      if es[0].Call? && !NextIdFree(s) {
        var lost := s.stream.idMap[NextId(s.counter)].call;
        CollisionLosesCall(s, es[0].originalId, start);
        LostForever(s', es[1..], lost);
        assert !IsPending(After(s', es[1..]), lost);
      } else {
        StepKeepsInv(s, es[0], start);
        StepLosesNone(s, es[0], start);
        NoneLostFromIff(s', es[1..], start);
      }
    }
  }

  /** At the end of a run every request is pending or its end was set in motion,
      exactly if each call of the run found its new id free. */
  lemma NoneLostIff(start: nat, es: seq<Event>)
    requires IsRun(Initial(start), es)
    ensures NoneLost(After(Initial(start), es)) <==> IdsFree(Initial(start), es)
  {
    NoneLostFromIff(Initial(start), es, start);
  }

  // Fewer than MAX ids have been drawn since each pending request drew its own.
  ghost predicate FewDraws(s: System) {
    forall id :: id in s.stream.idMap && s.stream.idMap[id].call < |s.callers| ==>
      s.drawn + 1 - s.callers[s.stream.idMap[id].call].drawnAt < MAX
  }

  /** The next id is free exactly when no pending request's id is a multiple of MAX draws old. */
  lemma NextIdFreeIff(s: System, start: nat)
    requires Inv(s, start)
    ensures NextIdFree(s) <==>
            forall id :: id in s.stream.idMap ==>
              (s.drawn + 1 - s.callers[s.stream.idMap[id].call].drawnAt) % MAX != 0
    ensures FewDraws(s) ==> NextIdFree(s)
  {
    NextDraw(start + s.drawn);
    assert NextId(s.counter) == (start + (s.drawn + 1)) % MAX;
    forall id | id in s.stream.idMap
      ensures id == NextId(s.counter) <==> (s.drawn + 1 - s.callers[s.stream.idMap[id].call].drawnAt) % MAX == 0
    {
      DrawsCollideIff(start, s.callers[s.stream.idMap[id].call].drawnAt, s.drawn + 1);
    }
  }
}
