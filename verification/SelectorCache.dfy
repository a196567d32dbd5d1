/**
 The messenger's selector cache: a handler with a selector hears of a state
 change only when the selected value changes, so the cached value has to agree
 with the state of the controller it watches.
 */
module SelectorCache {
  import opened Prelude

  type Event = string

  // Handlers are told apart by identity.
  type Handler = nat

  // None stands for undefined.
  datatype Selection<V> = Selected(value: Option<V>) | Threw

  datatype Sub<!P, V> = Sub(handler: Handler, selector: Option<P -> Selection<V>>)

  datatype Call<P, V> =
    | Notified(handler: Handler, payload: P)
    | Changed(handler: Handler, value: Option<V>, previous: Option<V>)

  // `current` is the state of each controller that gives its event an initial payload.
  datatype Bus<!P, V> = Bus(
    events: map<Event, seq<Sub<P, V>>>, cache: map<Handler, Option<V>>, current: map<Event, P>, calls: seq<Call<P, V>>)

  function SubsOf<P, V>(b: Bus<P, V>, e: Event): seq<Sub<P, V>> {
    if e in b.events then b.events[e] else []
  }

  function Cached<P, V>(b: Bus<P, V>, h: Handler): Option<V> {
    if h in b.cache then b.cache[h] else None
  }

  // ---------- Operations ----------

  function DeliverTo<P, V(==)>(b: Bus<P, V>, sub: Sub<P, V>, payload: P): Bus<P, V> {
    match sub.selector
    case None => b.(calls := b.calls + [Notified(sub.handler, payload)])
    case Some(f) =>
      match f(payload)
      case Threw => b
      case Selected(value) =>
        if value == Cached(b, sub.handler) then b
        else b.(cache := b.cache[sub.handler := value],
                calls := b.calls + [Changed(sub.handler, value, Cached(b, sub.handler))])
  }

  function Deliver<P, V(==)>(b: Bus<P, V>, subs: seq<Sub<P, V>>, payload: P): Bus<P, V>
    decreases |subs|
  {
    if subs == [] then b
    else DeliverTo(Deliver(b, subs[..|subs| - 1], payload), subs[|subs| - 1], payload)
  }

  // A controller's state change is the publication of its new state.
  function Published<P, V(==)>(b: Bus<P, V>, e: Event, payload: P): Bus<P, V> {
    var b' := if e in b.current then b.(current := b.current[e := payload]) else b;
    Deliver(b', SubsOf(b, e), payload)
  }

  // A handler that subscribes again keeps its place.
  function Filed<P, V>(subs: seq<Sub<P, V>>, sub: Sub<P, V>): seq<Sub<P, V>> {
    if subs == [] then [sub]
    else if subs[0].handler == sub.handler then [sub] + subs[1..]
    else [subs[0]] + Filed(subs[1..], sub)
  }

  // Throws when the selector throws on the initial payload.
  function Subscribed<P, V>(b: Bus<P, V>, e: Event, sub: Sub<P, V>): Bus<P, V> {
    var b' := b.(events := b.events[e := Filed(SubsOf(b, e), sub)]);
    if sub.selector.Some? && e in b.current && sub.selector.value(b.current[e]).Selected?
    then b'.(cache := b.cache[sub.handler := sub.selector.value(b.current[e]).value])
    else b'
  }

  function Dropped<P, V>(subs: seq<Sub<P, V>>, h: Handler): seq<Sub<P, V>> {
    if subs == [] then []
    else if subs[0].handler == h then subs[1..]
    else [subs[0]] + Dropped(subs[1..], h)
  }

  function SelectorOf<P, V>(subs: seq<Sub<P, V>>, h: Handler): Option<Option<P -> Selection<V>>> {
    if subs == [] then None
    else if subs[0].handler == h then Some(subs[0].selector)
    else SelectorOf(subs[1..], h)
  }

  // Throws, changing nothing, when the handler is not subscribed.
  function Unsubscribed<P, V>(b: Bus<P, V>, e: Event, h: Handler): Bus<P, V> {
    match SelectorOf(SubsOf(b, e), h)
    case None => b
    case Some(selector) =>
      b.(events := b.events[e := Dropped(SubsOf(b, e), h)], cache := if selector.Some? then b.cache - {h} else b.cache)
  }

  // The cache is left as it is.
  function ClearEvent<P, V>(b: Bus<P, V>, e: Event): Bus<P, V> {
    b.(events := b.events - {e})
  }

  datatype Op<!P, V> =
    | SubscribeOp(event: Event, sub: Sub<P, V>)
    | UnsubscribeOp(event: Event, handler: Handler)
    | ClearEventOp(event: Event)
    | ClearAllOp
    | PublishOp(event: Event, payload: P)
    | RegisterOp(event: Event, payload: P)

  function Step<P, V(==)>(b: Bus<P, V>, op: Op<P, V>): Bus<P, V> {
    match op
    case SubscribeOp(e, sub) => Subscribed(b, e, sub)
    case UnsubscribeOp(e, h) => Unsubscribed(b, e, h)
    case ClearEventOp(e) => ClearEvent(b, e)
    case ClearAllOp => b.(events := map[])
    case PublishOp(e, payload) => Published(b, e, payload)
    case RegisterOp(e, payload) => b.(current := b.current[e := payload])
  }

  function Run<P, V(==)>(b: Bus<P, V>, ops: seq<Op<P, V>>): Bus<P, V>
    decreases |ops|
  {
    if ops == [] then b else Run(Step(b, ops[0]), ops[1..])
  }

  // ---------- Agreement of the cache with the states ----------

  predicate Distinct<P, V>(subs: seq<Sub<P, V>>) {
    forall i, j :: 0 <= i < j < |subs| ==> subs[i].handler != subs[j].handler
  }

  predicate Uses<P, V>(subs: seq<Sub<P, V>>, h: Handler) {
    exists i :: 0 <= i < |subs| && subs[i].handler == h
  }

  ghost predicate Agrees<P(!new), V(!new)>(b: Bus<P, V>, sub: Sub<P, V>, payload: P) {
    sub.selector.Some? && sub.selector.value(payload).Selected? ==>
      Cached(b, sub.handler) == sub.selector.value(payload).value
  }

  ghost predicate AgreesAt<P(!new), V(!new)>(b: Bus<P, V>, e: Event) {
    e in b.current ==> forall i :: 0 <= i < |SubsOf(b, e)| ==> Agrees(b, SubsOf(b, e)[i], b.current[e])
  }

  ghost predicate OneEventEach<P, V>(b: Bus<P, V>) {
    && (forall e :: Distinct(SubsOf(b, e)))
    && (forall e, e', h :: e != e' && Uses(SubsOf(b, e), h) ==> !Uses(SubsOf(b, e'), h))
  }

  // `behind` are events whose controller came after a subscriber and has not changed yet.
  ghost predicate Inv<P(!new), V(!new)>(b: Bus<P, V>, behind: set<Event>) {
    OneEventEach(b) && forall e :: e !in behind ==> AgreesAt(b, e)
  }

  function Behind<P, V>(b: Bus<P, V>, behind: set<Event>, op: Op<P, V>): set<Event> {
    match op
    case RegisterOp(e, _) => if SubsOf(b, e) == [] then behind else behind + {e}
    case PublishOp(e, _) => behind - {e}
    case _ => behind
  }

  // A handler is only ever subscribed to one event at a time.
  ghost predicate Allowed<P, V>(b: Bus<P, V>, op: Op<P, V>) {
    op.SubscribeOp? ==> forall e :: e != op.event ==> !Uses(SubsOf(b, e), op.sub.handler)
  }

  lemma {:induction false} DeliverFrame<P, V>(b: Bus<P, V>, subs: seq<Sub<P, V>>, payload: P, h: Handler)
    requires !Uses(subs, h)
    ensures Cached(Deliver(b, subs, payload), h) == Cached(b, h)
    decreases |subs|
  {
    if subs != [] {
      var front, last := subs[..|subs| - 1], subs[|subs| - 1];
      assert last.handler != h;
      assert forall i :: 0 <= i < |front| ==> front[i] == subs[i];
      DeliverFrame(b, front, payload, h);
    }
  }

  lemma {:induction false} DeliverKeepsRest<P, V>(b: Bus<P, V>, subs: seq<Sub<P, V>>, payload: P)
    ensures Deliver(b, subs, payload).events == b.events && Deliver(b, subs, payload).current == b.current
    decreases |subs|
  {
    if subs != [] {
      DeliverKeepsRest(b, subs[..|subs| - 1], payload);
    }
  }

  /** After a delivery each subscriber's cached value is what its selector selects. */
  lemma {:induction false} DeliverAgrees<P(!new), V(!new)>(b: Bus<P, V>, subs: seq<Sub<P, V>>, payload: P, i: nat)
    requires Distinct(subs) && i < |subs|
    ensures Agrees(Deliver(b, subs, payload), subs[i], payload)
    decreases |subs|
  {
    var front, last := subs[..|subs| - 1], subs[|subs| - 1];
    if i < |front| {
      DeliverAgrees(b, front, payload, i);
      assert front[i] == subs[i] && subs[i].handler != last.handler;
    }
  }

  // Whatever the cache held before.
  lemma PublishEstablishes<P(!new), V(!new)>(b: Bus<P, V>, e: Event, payload: P)
    requires Distinct(SubsOf(b, e)) && e in b.current
    ensures AgreesAt(Published(b, e, payload), e)
  {
    var b' := b.(current := b.current[e := payload]);
    DeliverKeepsRest(b', SubsOf(b, e), payload);
    forall i | 0 <= i < |SubsOf(b, e)| ensures Agrees(Published(b, e, payload), SubsOf(b, e)[i], payload) {
      DeliverAgrees(b', SubsOf(b, e), payload, i);
    }
  }

  lemma PublishKeepsOthers<P(!new), V(!new)>(b: Bus<P, V>, e: Event, payload: P, e': Event)
    requires OneEventEach(b) && e != e' && AgreesAt(b, e')
    ensures AgreesAt(Published(b, e, payload), e')
  {
    var b' := if e in b.current then b.(current := b.current[e := payload]) else b;
    DeliverKeepsRest(b', SubsOf(b, e), payload);
    if e' in b.current {
      forall i | 0 <= i < |SubsOf(b, e')| ensures Agrees(Published(b, e, payload), SubsOf(b, e')[i], b.current[e']) {
        var h := SubsOf(b, e')[i].handler;
        assert Uses(SubsOf(b, e'), h) && Agrees(b, SubsOf(b, e')[i], b.current[e']);
        DeliverFrame(b', SubsOf(b, e), payload, h);
      }
    }
  }

  lemma PublishKeepsInv<P(!new), V(!new)>(b: Bus<P, V>, behind: set<Event>, e: Event, payload: P)
    requires Inv(b, behind)
    ensures Inv(Published(b, e, payload), behind - {e})
  {
    var b' := Published(b, e, payload);
    DeliverKeepsRest(if e in b.current then b.(current := b.current[e := payload]) else b, SubsOf(b, e), payload);
    assert forall x :: SubsOf(b', x) == SubsOf(b, x);
    forall x | x !in behind - {e} ensures AgreesAt(b', x) {
      if x != e {
        assert AgreesAt(b, x);
        PublishKeepsOthers(b, e, payload, x);
      } else if e in b.current {
        PublishEstablishes(b, e, payload);
      }
    }
  }

  // ---------- Subscribing and unsubscribing ----------

  lemma PrependKeepsDistinct<P, V>(sub: Sub<P, V>, rest: seq<Sub<P, V>>)
    requires Distinct(rest) && !Uses(rest, sub.handler)
    ensures Distinct([sub] + rest)
  {
  }

  lemma RestOfDistinct<P, V>(subs: seq<Sub<P, V>>)
    requires Distinct(subs) && subs != []
    ensures Distinct(subs[1..]) && !Uses(subs[1..], subs[0].handler)
  {
  }

  lemma UsesPrepended<P, V>(sub: Sub<P, V>, rest: seq<Sub<P, V>>, h: Handler)
    ensures Uses([sub] + rest, h) <==> sub.handler == h || Uses(rest, h)
  {
    if Uses([sub] + rest, h) {
      var i :| 0 <= i < |[sub] + rest| && ([sub] + rest)[i].handler == h;
      assert i > 0 ==> rest[i - 1].handler == h;
    }
    if Uses(rest, h) {
      var i :| 0 <= i < |rest| && rest[i].handler == h;
      assert ([sub] + rest)[i + 1].handler == h;
    }
    assert ([sub] + rest)[0] == sub;
  }

  lemma {:induction false} FiledMembers<P, V>(subs: seq<Sub<P, V>>, sub: Sub<P, V>)
    requires Distinct(subs)
    ensures Distinct(Filed(subs, sub)) && sub in Filed(subs, sub)
    ensures forall s :: s in subs && s.handler != sub.handler ==> s in Filed(subs, sub)
    ensures forall s :: s in Filed(subs, sub) ==> s == sub || (s in subs && s.handler != sub.handler)
    ensures forall h :: Uses(Filed(subs, sub), h) <==> h == sub.handler || Uses(subs, h)
  {
    if subs == [] {
      forall h ensures Uses([sub] + [], h) <==> h == sub.handler { UsesPrepended(sub, [], h); }
      assert [sub] + [] == [sub];
    } else {
      var first, rest := subs[0], subs[1..];
      RestOfDistinct(subs);
      assert subs == [first] + rest;
      forall h ensures Uses(subs, h) <==> h == first.handler || Uses(rest, h) { UsesPrepended(first, rest, h); }
      if first.handler == sub.handler {
        PrependKeepsDistinct(sub, rest);
        forall h ensures Uses([sub] + rest, h) <==> h == sub.handler || Uses(rest, h) { UsesPrepended(sub, rest, h); }
        MembersDiffer(rest, sub.handler);
      } else {
        var filed := Filed(rest, sub);
        FiledMembers(rest, sub);
        PrependKeepsDistinct(first, filed);
        forall h ensures Uses([first] + filed, h) <==>
            h == first.handler || Uses(filed, h) { UsesPrepended(first, filed, h); }
      }
    }
  }

  lemma MembersDiffer<P, V>(subs: seq<Sub<P, V>>, h: Handler)
    requires !Uses(subs, h)
    ensures forall s :: s in subs ==> s.handler != h
  {
  }

  lemma {:induction false} DroppedMembers<P, V>(subs: seq<Sub<P, V>>, h: Handler)
    requires Distinct(subs)
    ensures Distinct(Dropped(subs, h))
    ensures forall s :: s in subs && s.handler != h ==> s in Dropped(subs, h)
    ensures forall s :: s in Dropped(subs, h) ==> s in subs && s.handler != h
    ensures forall g :: Uses(Dropped(subs, h), g) ==> Uses(subs, g)
  {
    if subs != [] {
      var first, rest := subs[0], subs[1..];
      RestOfDistinct(subs);
      assert subs == [first] + rest;
      forall g ensures Uses(subs, g) <==> g == first.handler || Uses(rest, g) { UsesPrepended(first, rest, g); }
      if first.handler == h {
        MembersDiffer(rest, h);
      } else {
        var dropped := Dropped(rest, h);
        DroppedMembers(rest, h);
        PrependKeepsDistinct(first, dropped);
        forall g ensures Uses([first] + dropped, g) <==>
            g == first.handler || Uses(dropped, g) { UsesPrepended(first, dropped, g); }
      }
    }
  }

  lemma {:induction false} SelectorFound<P, V>(subs: seq<Sub<P, V>>, h: Handler)
    requires SelectorOf(subs, h).Some?
    ensures Uses(subs, h)
  {
    if subs[0].handler != h {
      SelectorFound(subs[1..], h);
      var i :| 0 <= i < |subs[1..]| && subs[1..][i].handler == h;
      assert subs[i + 1].handler == h;
    }
  }

  lemma SubscribeKeepsOneEvent<P, V>(b: Bus<P, V>, e: Event, sub: Sub<P, V>)
    requires OneEventEach(b) && Allowed(b, SubscribeOp(e, sub))
    ensures OneEventEach(Subscribed(b, e, sub))
  {
    FiledMembers(SubsOf(b, e), sub);
    var b' := Subscribed(b, e, sub);
    assert forall x :: SubsOf(b', x) == if x == e then Filed(SubsOf(b, e), sub) else SubsOf(b, x);
    forall h | Uses(SubsOf(b', e), h) ensures h == sub.handler || Uses(SubsOf(b, e), h) {
      var i :| 0 <= i < |SubsOf(b', e)| && SubsOf(b', e)[i].handler == h;
      assert SubsOf(b', e)[i] in SubsOf(b', e);
    }
  }

  lemma SubscribeKeepsInv<P(!new), V(!new)>(b: Bus<P, V>, behind: set<Event>, e: Event, sub: Sub<P, V>)
    requires Inv(b, behind) && Allowed(b, SubscribeOp(e, sub))
    ensures Inv(Subscribed(b, e, sub), behind)
  {
    SubscribeKeepsOneEvent(b, e, sub);
    FiledMembers(SubsOf(b, e), sub);
    var b' := Subscribed(b, e, sub);
    forall x | x !in behind ensures AgreesAt(b', x) {
      assert AgreesAt(b, x);
      if x in b.current {
        forall i | 0 <= i < |SubsOf(b', x)| ensures Agrees(b', SubsOf(b', x)[i], b.current[x]) {
          var s := SubsOf(b', x)[i];
          assert s in SubsOf(b', x);
          if x != e {
            assert s in SubsOf(b, x) && Uses(SubsOf(b, x), s.handler);
          }
        }
      }
    }
  }

  lemma UnsubscribeKeepsInv<P(!new), V(!new)>(b: Bus<P, V>, behind: set<Event>, e: Event, h: Handler)
    requires Inv(b, behind)
    ensures Inv(Unsubscribed(b, e, h), behind)
  {
    var b' := Unsubscribed(b, e, h);
    if SelectorOf(SubsOf(b, e), h).Some? {
      SelectorFound(SubsOf(b, e), h);
      DroppedMembers(SubsOf(b, e), h);
      assert forall x :: SubsOf(b', x) == if x == e then Dropped(SubsOf(b, e), h) else SubsOf(b, x);
      forall g | Uses(SubsOf(b', e), g) ensures Uses(SubsOf(b, e), g) {
        var i :| 0 <= i < |SubsOf(b', e)| && SubsOf(b', e)[i].handler == g;
        assert SubsOf(b', e)[i] in SubsOf(b', e);
      }
      forall x | x !in behind ensures AgreesAt(b', x) {
        UnsubscribeKeepsAgreement(b, e, h, x);
      }
    }
  }

  lemma UnsubscribeKeepsAgreement<P(!new), V(!new)>(b: Bus<P, V>, e: Event, h: Handler, x: Event)
    requires OneEventEach(b) && AgreesAt(b, x) && SelectorOf(SubsOf(b, e), h).Some?
    ensures AgreesAt(Unsubscribed(b, e, h), x)
  {
    var b' := Unsubscribed(b, e, h);
    SelectorFound(SubsOf(b, e), h);
    DroppedMembers(SubsOf(b, e), h);
    assert AgreesAt(b, x);
    if x in b.current {
      forall i | 0 <= i < |SubsOf(b', x)| ensures Agrees(b', SubsOf(b', x)[i], b.current[x]) {
        var s := SubsOf(b', x)[i];
        assert s in SubsOf(b', x);
        assert s in SubsOf(b, x) && Uses(SubsOf(b, x), s.handler);
      }
    }
  }

  lemma StepKeepsInv<P(!new), V(!new)>(b: Bus<P, V>, behind: set<Event>, op: Op<P, V>)
    requires Inv(b, behind) && Allowed(b, op)
    ensures Inv(Step(b, op), Behind(b, behind, op))
  {
    match op
    case SubscribeOp(e, sub) => SubscribeKeepsInv(b, behind, e, sub);
    case UnsubscribeOp(e, h) => UnsubscribeKeepsInv(b, behind, e, h);
    case PublishOp(e, payload) => PublishKeepsInv(b, behind, e, payload);
    case ClearEventOp(e) =>
      var b' := ClearEvent(b, e);
      assert forall x :: SubsOf(b', x) == if x == e then [] else SubsOf(b, x);
      forall x | x !in behind ensures AgreesAt(b', x) { assert AgreesAt(b, x); }
    case RegisterOp(e, payload) =>
      var b' := Step(b, op);
      assert forall x :: SubsOf(b', x) == SubsOf(b, x);
      forall x | x !in Behind(b, behind, op) ensures AgreesAt(b', x) { assert AgreesAt(b, x); }
    case ClearAllOp =>
      assert forall x :: SubsOf(Step(b, op), x) == [];
  }

  ghost predicate AllAllowed<P, V>(b: Bus<P, V>, ops: seq<Op<P, V>>)
    decreases |ops|
  {
    ops != [] ==> Allowed(b, ops[0]) && AllAllowed(Step(b, ops[0]), ops[1..])
  }

  function BehindAfter<P, V(==)>(b: Bus<P, V>, behind: set<Event>, ops: seq<Op<P, V>>): set<Event>
    decreases |ops|
  {
    if ops == [] then behind else BehindAfter(Step(b, ops[0]), Behind(b, behind, ops[0]), ops[1..])
  }

  /**
   In every run in which a handler is subscribed to one event at a time, each
   cached value is what the selector selects from its controller's state, but for
   controllers that came after a subscriber and have not changed their state since.
   */
  lemma {:induction false} CacheAgreesOverRuns<P(!new), V(!new)>(b: Bus<P, V>, behind: set<Event>, ops: seq<Op<P, V>>)
    requires Inv(b, behind) && AllAllowed(b, ops)
    ensures Inv(Run(b, ops), BehindAfter(b, behind, ops))
    decreases |ops|
  {
    if ops != [] {
      StepKeepsInv(b, behind, ops[0]);
      CacheAgreesOverRuns(Step(b, ops[0]), Behind(b, behind, ops[0]), ops[1..]);
    }
  }

  // ---------- One handler for two events ----------

  lemma {:induction false} DeliverCaches<P, V>(b: Bus<P, V>, subs: seq<Sub<P, V>>, payload: P, i: nat)
    requires Distinct(subs) && i < |subs|
    ensures Cached(Deliver(b, subs, payload), subs[i].handler)
         == if subs[i].selector.Some? && subs[i].selector.value(payload).Selected?
            then subs[i].selector.value(payload).value else Cached(b, subs[i].handler)
    decreases |subs|
  {
    var front, last := subs[..|subs| - 1], subs[|subs| - 1];
    if i < |front| {
      DeliverCaches(b, front, payload, i);
      assert front[i] == subs[i] && subs[i].handler != last.handler;
    } else {
      assert !Uses(front, last.handler);
      DeliverFrame(b, front, payload, last.handler);
    }
  }

  // Where both select something, they select the same.
  predicate SelectAlike<P, V(==)>(sub: Sub<P, V>, payload: P, other: Sub<P, V>, state: P) {
    sub.selector.Some? && other.selector.Some? && sub.selector.value(payload).Selected? &&
        other.selector.value(state).Selected? ==>
      sub.selector.value(payload) == other.selector.value(state)
  }

  lemma SubscriberAgreesIff<P(!new), V(!new)>(b: Bus<P, V>, e: Event, e': Event, payload: P, j: nat)
    requires e != e' && Distinct(SubsOf(b, e)) && e' in b.current && AgreesAt(b, e') && j < |SubsOf(b, e')|
    ensures Agrees(Published(b, e, payload), SubsOf(b, e')[j], b.current[e'])
       <==> forall i :: 0 <= i < |SubsOf(b, e)| && SubsOf(b, e)[i].handler == SubsOf(b, e')[j].handler ==>
              SelectAlike(SubsOf(b, e)[i], payload, SubsOf(b, e')[j], b.current[e'])
  {
    var b' := if e in b.current then b.(current := b.current[e := payload]) else b;
    var sub := SubsOf(b, e')[j];
    assert Agrees(b, sub, b.current[e']);
    if i :| 0 <= i < |SubsOf(b, e)| && SubsOf(b, e)[i].handler == sub.handler {
      DeliverCaches(b', SubsOf(b, e), payload, i);
    } else {
      DeliverFrame(b', SubsOf(b, e), payload, sub.handler);
    }
  }

  /**
   The cache is filed by handler alone: publishing one event keeps the cached values
   right for another exactly if, for each handler that serves both, what the one
   selector selects now is what the other selects from its controller's state.
   */
  lemma SharedHandlerAgreesIff<P(!new), V(!new)>(b: Bus<P, V>, e: Event, e': Event, payload: P)
    requires e != e' && Distinct(SubsOf(b, e)) && e' in b.current && AgreesAt(b, e')
    ensures AgreesAt(Published(b, e, payload), e')
       <==> forall i, j ::
              && 0 <= i < |SubsOf(b, e)| && 0 <= j < |SubsOf(b, e')|
              && SubsOf(b, e)[i].handler == SubsOf(b, e')[j].handler ==>
                SelectAlike(SubsOf(b, e)[i], payload, SubsOf(b, e')[j], b.current[e'])
  {
    var after := Published(b, e, payload);
    DeliverKeepsRest(if e in b.current then b.(current := b.current[e := payload]) else b, SubsOf(b, e), payload);
    assert SubsOf(after, e') == SubsOf(b, e') && after.current[e'] == b.current[e'];
    forall j: nat | j < |SubsOf(b, e')|
      ensures Agrees(after, SubsOf(b, e')[j], b.current[e'])
         <==> forall i :: 0 <= i < |SubsOf(b, e)| && SubsOf(b, e)[i].handler == SubsOf(b, e')[j].handler ==>
                SelectAlike(SubsOf(b, e)[i], payload, SubsOf(b, e')[j], b.current[e'])
    {
      SubscriberAgreesIff(b, e, e', payload, j);
    }
  }

  // ---------- The calls a handler gets ----------

  function Heard<P, V>(calls: seq<Call<P, V>>, h: Handler): seq<Call<P, V>> {
    if calls == [] then []
    else
      var last := calls[|calls| - 1];
      Heard(calls[..|calls| - 1], h) + if last.handler == h then [last] else []
  }

  lemma HeardSnoc<P, V>(calls: seq<Call<P, V>>, call: Call<P, V>, h: Handler)
    ensures Heard(calls + [call], h) == Heard(calls, h) + if call.handler == h then [call] else []
  {
    assert (calls + [call])[..|calls|] == calls;
  }

  // The calls for a run of selected values: one for each change.
  function Changes<P, V(==)>(h: Handler, previous: Option<V>, values: seq<Option<V>>): seq<Call<P, V>>
    decreases |values|
  {
    if values == [] then []
    else if values[0] == previous then Changes(h, previous, values[1..])
    else [Changed(h, values[0], previous)] + Changes(h, values[0], values[1..])
  }

  function SelectedValues<P, V>(f: P -> Selection<V>, ops: seq<Op<P, V>>, e: Event): seq<Option<V>> {
    if ops == [] then []
    else
      (if ops[0].PublishOp? && ops[0].event == e && f(ops[0].payload).Selected? then [f(ops[0].payload).value] else [])
      + SelectedValues(f, ops[1..], e)
  }

  predicate Chained<P, V(==)>(calls: seq<Call<P, V>>, h: Handler, previous: Option<V>) {
    forall i :: 0 <= i < |calls| ==>
      && calls[i].Changed? && calls[i].handler == h && calls[i].value != calls[i].previous
      && (i > 0 ==> calls[i - 1].Changed? && calls[i].previous == calls[i - 1].value)
      && (i == 0 ==> calls[i].previous == previous)
  }

  lemma ChainExtends<P, V>(call: Call<P, V>, rest: seq<Call<P, V>>, h: Handler)
    requires call.Changed? && call.handler == h && call.value != call.previous && Chained(rest, h, call.value)
    ensures Chained([call] + rest, h, call.previous)
  {
  }

  /** Each call reports a change, and from the value reported last. */
  lemma {:induction false} ChangesChain<P, V>(h: Handler, previous: Option<V>, values: seq<Option<V>>)
    ensures Chained<P, V>(Changes(h, previous, values), h, previous)
    decreases |values|
  {
    if values == [] {
    } else if values[0] == previous {
      ChangesChain<P, V>(h, previous, values[1..]);
    } else {
      ChangesChain<P, V>(h, values[0], values[1..]);
      ChainExtends<P, V>(Changed(h, values[0], previous), Changes(h, values[0], values[1..]), h);
    }
  }

  // The values without those equal to the one before.
  function WithoutStutter<V(==)>(values: seq<V>): seq<V> {
    if |values| <= 1 then values
    else if values[0] == values[1] then WithoutStutter(values[1..])
    else [values[0]] + WithoutStutter(values[1..])
  }

  function Reported<P, V>(calls: seq<Call<P, V>>): seq<Option<V>>
    requires forall i :: 0 <= i < |calls| ==> calls[i].Changed?
  {
    if calls == [] then [] else [calls[0].value] + Reported(calls[1..])
  }

  /** The reported values, after the first known one, are the selected values without stutter. */
  lemma {:induction false} ChangesAreStutterFree<P, V>(h: Handler, previous: Option<V>, values: seq<Option<V>>)
    ensures forall i :: 0 <= i < |Changes<P, V>(h, previous, values)| ==> Changes<P, V>(h, previous, values)[i].Changed?
    ensures [previous] + Reported(Changes<P, V>(h, previous, values)) == WithoutStutter([previous] + values)
    decreases |values|
  {
    ChangesChain<P, V>(h, previous, values);
    if values != [] {
      assert ([previous] + values)[1..] == values == [values[0]] + values[1..];
      ChangesAreStutterFree<P, V>(h, values[0], values[1..]);
    } else {
      assert [previous] + values == [previous];
    }
  }

  // The handler h serves e alone, with selector f.
  ghost predicate Serves<P, V>(b: Bus<P, V>, e: Event, h: Handler, f: P -> Selection<V>) {
    && (forall x :: Distinct(SubsOf(b, x)))
    && Sub(h, Some(f)) in SubsOf(b, e)
    && forall x :: x != e ==> !Uses(SubsOf(b, x), h)
  }

  predicate Leaves<P, V>(op: Op<P, V>, e: Event, h: Handler) {
    match op
    case SubscribeOp(_, sub) => sub.handler != h
    case UnsubscribeOp(_, g) => g != h
    case ClearEventOp(x) => x != e
    case ClearAllOp => false
    case PublishOp(_, _) => true
    case RegisterOp(_, _) => true
  }

  function After<V(==)>(previous: Option<V>, selection: Selection<V>): Option<V> {
    if selection.Selected? then selection.value else previous
  }

  function ChangeFor<P, V(==)>(h: Handler, previous: Option<V>, selection: Selection<V>): seq<Call<P, V>> {
    if selection.Selected? && selection.value != previous then [Changed(h, selection.value, previous)] else []
  }

  lemma {:induction false} DeliverHeard<P, V>(b: Bus<P, V>, subs: seq<Sub<P, V>>, payload: P, h: Handler, i: nat)
    requires Distinct(subs) && i < |subs| && subs[i].handler == h && subs[i].selector.Some?
    ensures var b', selection := Deliver(b, subs, payload), subs[i].selector.value(payload);
            && Heard(b'.calls, h) == Heard(b.calls, h) + ChangeFor(h, Cached(b, h), selection)
            && Cached(b', h) == After(Cached(b, h), selection)
    decreases |subs|
  {
    var front, last := subs[..|subs| - 1], subs[|subs| - 1];
    var before := Deliver(b, front, payload);
    if i < |front| {
      assert last.handler != h;
      DeliverHeard(b, front, payload, h, i);
      DeliverToOther(before, last, payload, h);
    } else {
      DeliverUnheard(b, front, payload, h);
      DeliverFrame(b, front, payload, h);
      HeardSnoc(before.calls, Changed(h, After(None, last.selector.value(payload)), Cached(before, h)), h);
    }
  }

  lemma DeliverToOther<P, V>(b: Bus<P, V>, sub: Sub<P, V>, payload: P, h: Handler)
    requires sub.handler != h
    ensures Heard(DeliverTo(b, sub, payload).calls, h) == Heard(b.calls, h)
    ensures Cached(DeliverTo(b, sub, payload), h) == Cached(b, h)
  {
    var b' := DeliverTo(b, sub, payload);
    if b'.calls != b.calls {
      HeardSnoc(b.calls, b'.calls[|b.calls|], h);
    }
  }

  lemma {:induction false} DeliverUnheard<P, V>(b: Bus<P, V>, subs: seq<Sub<P, V>>, payload: P, h: Handler)
    requires !Uses(subs, h)
    ensures Heard(Deliver(b, subs, payload).calls, h) == Heard(b.calls, h)
    decreases |subs|
  {
    if subs != [] {
      var front, last := subs[..|subs| - 1], subs[|subs| - 1];
      assert last.handler != h;
      assert forall i :: 0 <= i < |front| ==> front[i] == subs[i];
      DeliverUnheard(b, front, payload, h);
      DeliverToOther(Deliver(b, front, payload), last, payload, h);
    }
  }

  // ---------- The calls over a run ----------

  lemma SubscribeServes<P, V>(b: Bus<P, V>, x: Event, sub: Sub<P, V>, e: Event, h: Handler, f: P -> Selection<V>)
    requires Serves(b, e, h, f) && sub.handler != h
    ensures Serves(Subscribed(b, x, sub), e, h, f)
    ensures Cached(Subscribed(b, x, sub), h) == Cached(b, h) && Subscribed(b, x, sub).calls == b.calls
  {
    var b' := Subscribed(b, x, sub);
    FiledMembers(SubsOf(b, x), sub);
    assert forall y :: SubsOf(b', y) == if y == x then Filed(SubsOf(b, x), sub) else SubsOf(b, y);
    forall y | y != e ensures !Uses(SubsOf(b', y), h) {
      assert !Uses(SubsOf(b, y), h);
      forall i | 0 <= i < |SubsOf(b', y)| ensures SubsOf(b', y)[i].handler != h {
        assert SubsOf(b', y)[i] in SubsOf(b', y);
      }
    }
  }

  lemma UnsubscribeServes<P, V>(b: Bus<P, V>, x: Event, g: Handler, e: Event, h: Handler, f: P -> Selection<V>)
    requires Serves(b, e, h, f) && g != h
    ensures Serves(Unsubscribed(b, x, g), e, h, f)
    ensures Cached(Unsubscribed(b, x, g), h) == Cached(b, h) && Unsubscribed(b, x, g).calls == b.calls
  {
    var b' := Unsubscribed(b, x, g);
    if SelectorOf(SubsOf(b, x), g).Some? {
      DroppedMembers(SubsOf(b, x), g);
      assert forall y :: SubsOf(b', y) == if y == x then Dropped(SubsOf(b, x), g) else SubsOf(b, y);
      forall y | y != e ensures !Uses(SubsOf(b', y), h) {
        assert !Uses(SubsOf(b, y), h);
        forall i | 0 <= i < |SubsOf(b', y)| ensures SubsOf(b', y)[i].handler != h {
          assert SubsOf(b', y)[i] in SubsOf(b', y);
        }
      }
    }
  }

  lemma PublishServes<P, V>(b: Bus<P, V>, x: Event, payload: P, e: Event, h: Handler, f: P -> Selection<V>)
    requires Serves(b, e, h, f)
    ensures var b' := Published(b, x, payload);
            && Serves(b', e, h, f)
            && Heard(b'.calls, h) == Heard(b.calls, h) + (if x == e then ChangeFor(h, Cached(b, h), f(payload)) else [])
            && Cached(b', h) == if x == e then After(Cached(b, h), f(payload)) else Cached(b, h)
  {
    var b' := if x in b.current then b.(current := b.current[x := payload]) else b;
    DeliverKeepsRest(b', SubsOf(b, x), payload);
    assert forall y :: SubsOf(Published(b, x, payload), y) == SubsOf(b, y);
    if x == e {
      var i :| 0 <= i < |SubsOf(b, e)| && SubsOf(b, e)[i] == Sub(h, Some(f));
      DeliverHeard(b', SubsOf(b, e), payload, h, i);
    } else {
      DeliverUnheard(b', SubsOf(b, x), payload, h);
      DeliverFrame(b', SubsOf(b, x), payload, h);
    }
  }

  lemma ChangesStep<P, V>(h: Handler, previous: Option<V>, selection: Selection<V>, rest: seq<Option<V>>)
    ensures Changes<P, V>(h, previous, (if selection.Selected? then [selection.value] else []) + rest)
         == ChangeFor<P, V>(h, previous, selection) + Changes<P, V>(h, After(previous, selection), rest)
  {
    if selection.Selected? {
      assert ([selection.value] + rest)[1..] == rest;
    } else {
      assert [] + rest == rest;
    }
  }

  /**
   Over any run that leaves its subscription alone, a handler is called exactly
   for the changes among the values selected from what its event published.
   */
  lemma {:induction false} CallsAreTheChanges<P, V>(
    b: Bus<P, V>, ops: seq<Op<P, V>>, e: Event, h: Handler, f: P -> Selection<V>)
    requires Serves(b, e, h, f) && forall op :: op in ops ==> Leaves(op, e, h)
    ensures Heard(Run(b, ops).calls, h) == Heard(b.calls, h) + Changes(h, Cached(b, h), SelectedValues(f, ops, e))
    decreases |ops|
  {
    if ops == [] {
      assert Heard(b.calls, h) + [] == Heard(b.calls, h);
    } else {
      var op, rest, b' := ops[0], ops[1..], Step(b, ops[0]);
      assert op in ops && Leaves(op, e, h);
      StepServes(b, op, e, h, f);
      CallsAreTheChanges(b', rest, e, h, f);
      ValuesStep<P, V>(f, ops, e, h, Cached(b, h));
      if op.PublishOp? && op.event == e {
        var change: seq<Call<P, V>> := ChangeFor(h, Cached(b, h), f(op.payload));
        ConcatAssociative(Heard(b.calls, h), change, Changes(h, Cached(b', h), SelectedValues(f, rest, e)));
      }
    }
  }

  lemma ValuesStep<P, V>(f: P -> Selection<V>, ops: seq<Op<P, V>>, e: Event, h: Handler, previous: Option<V>)
    requires ops != []
    ensures var rest := SelectedValues(f, ops[1..], e);
            Changes<P, V>(h, previous, SelectedValues(f, ops, e))
            == (if ops[0].PublishOp? && ops[0].event == e
                then ChangeFor<P, V>(h, previous, f(ops[0].payload)) +
                    Changes(h, After(previous, f(ops[0].payload)), rest)
                else Changes(h, previous, rest))
  {
    var rest := SelectedValues(f, ops[1..], e);
    if ops[0].PublishOp? && ops[0].event == e {
      ChangesStep<P, V>(h, previous, f(ops[0].payload), rest);
    } else {
      assert [] + rest == rest;
    }
  }

  lemma StepServes<P, V>(b: Bus<P, V>, op: Op<P, V>, e: Event, h: Handler, f: P -> Selection<V>)
    requires Serves(b, e, h, f) && Leaves(op, e, h)
    ensures var b' := Step(b, op);
            && Serves(b', e, h, f)
            && (if op.PublishOp? && op.event == e then
                  Heard(b'.calls, h) == Heard(b.calls, h) + ChangeFor(h, Cached(b, h), f(op.payload))
                  && Cached(b', h) == After(Cached(b, h), f(op.payload))
                else
                  Heard(b'.calls, h) == Heard(b.calls, h) && Cached(b', h) == Cached(b, h))
  {
    match op
    case SubscribeOp(x, sub) => SubscribeServes(b, x, sub, e, h, f);
    case UnsubscribeOp(x, g) => UnsubscribeServes(b, x, g, e, h, f);
    case PublishOp(x, payload) => PublishServes(b, x, payload, e, h, f);
    case ClearEventOp(x) =>
      assert forall y :: SubsOf(ClearEvent(b, x), y) == if y == x then [] else SubsOf(b, y);
    case ClearAllOp =>
    case RegisterOp(x, _) =>
      assert forall y :: SubsOf(Step(b, op), y) == SubsOf(b, y);
  }

  /**
   Clearing an event leaves its handlers' cached values behind: a handler that
   subscribes anew, to an event without an initial payload, hears of the first
   publication only if it selects something else than was cached before.
   */
  lemma ClearLeavesStaleValue<P, V>(b: Bus<P, V>, e: Event, h: Handler, f: P -> Selection<V>, payload: P)
    requires e !in b.current && f(payload).Selected?
    ensures var b' := Published(Subscribed(ClearEvent(b, e), e, Sub(h, Some(f))), e, payload);
            b'.calls == b.calls + ChangeFor(h, Cached(b, h), f(payload))
  {
    var b1 := Subscribed(ClearEvent(b, e), e, Sub(h, Some(f)));
    assert SubsOf(b1, e) == [Sub(h, Some(f))];
    assert SubsOf(b1, e)[..0] == [];
    assert e !in b1.current;
    assert Deliver(b1, [Sub(h, Some(f))], payload) == DeliverTo(b1, Sub(h, Some(f)), payload);
    assert b.calls + [] == b.calls;
  }

  // ---------- The messenger ----------

  class ControllerMessenger<P, V(==)> {
    var events: map<Event, seq<Sub<P, V>>>
    var cache: map<Handler, Option<V>>
    var current: map<Event, P>
    var calls: seq<Call<P, V>>

    ghost function Snapshot(): Bus<P, V>
      reads this
    {
      Bus(events, cache, current, calls)
    }

    constructor ()
      ensures Snapshot() == Bus(map[], map[], map[], [])
    {
      events, cache, current, calls := map[], map[], map[], [];
    }

    method RegisterInitialEventPayload(e: Event, payload: P)
      modifies this`current
      ensures Snapshot() == Step(old(Snapshot()), RegisterOp(e, payload))
    {
      current := current[e := payload];
    }

    method Subscribe(e: Event, sub: Sub<P, V>) returns (threw: bool)
      modifies this`events, this`cache
      ensures Snapshot() == Subscribed(old(Snapshot()), e, sub)
      ensures threw <==> sub.selector.Some? && e in current && sub.selector.value(current[e]).Threw?
    {
      var subscribers := if e in events then events[e] else [];
      events := events[e := Filed(subscribers, sub)];
      threw := false;
      if sub.selector.Some? && e in current {
        match sub.selector.value(current[e])
        case Selected(initial) => cache := cache[sub.handler := initial];
        case Threw => threw := true;
      }
    }

    method Unsubscribe(e: Event, h: Handler) returns (found: bool)
      modifies this`events, this`cache
      ensures Snapshot() == Unsubscribed(old(Snapshot()), e, h)
      ensures found <==> SelectorOf(SubsOf(old(Snapshot()), e), h).Some?
    {
      var subscribers := if e in events then events[e] else [];
      var selector := SelectorOf(subscribers, h);
      if selector.None? { return false; }
      if selector.value.Some? {
        cache := cache - {h};
      }
      events := events[e := Dropped(subscribers, h)];
      found := true;
    }

    method Publish(e: Event, payload: P)
      modifies this`cache, this`calls
      ensures Snapshot() == Deliver(old(Snapshot()), SubsOf(old(Snapshot()), e), payload)
    {
      if e !in events { return; }
      var subscribers := events[e];
      for i := 0 to |subscribers|
        invariant Snapshot() == Deliver(old(Snapshot()), subscribers[..i], payload)
      {
        PrefixStep(subscribers, i);
        var h := subscribers[i].handler;
        match subscribers[i].selector
        case None => calls := calls + [Notified(h, payload)];
        case Some(f) =>
          match f(payload)
          case Threw =>
          case Selected(value) =>
            var previous := if h in cache then cache[h] else None;
            if value != previous {
              cache := cache[h := value];
              calls := calls + [Changed(h, value, previous)];
            }
      }
      assert subscribers[..|subscribers|] == subscribers;
    }

    // A controller's update: the new state is stored, then published.
    method Update(e: Event, next: P)
      requires e in current
      modifies this`current, this`cache, this`calls
      ensures Snapshot() == Published(old(Snapshot()), e, next)
    {
      current := current[e := next];
      Publish(e, next);
    }

    method ClearEventSubscriptions(e: Event)
      modifies this`events
      ensures Snapshot() == ClearEvent(old(Snapshot()), e)
    {
      events := events - {e};
    }
  }
}
