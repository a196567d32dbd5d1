/**
 Pending approval requests: callbacks by id, counts by origin and type, and the
 stored requests are three indexes of one set, and each request's promise is
 settled at most once.
 */
module Approvals {
  import opened Prelude

  type Id = string

  // How many requests each origin has pending, by type.
  type Origins = map<string, map<string, nat>>

  // `promise` numbers the promises handed out.
  datatype Request = Request(origin: string, kind: string, expectsResult: bool, promise: nat)

  datatype Settlement = Resolved(promise: nat) | Rejected(promise: nat)

  datatype Error =
    | EmptyId | DuplicateId | EmptyOrigin | EmptyKind | DataNotPlain | StateNotPlain | AlreadyPending
    | NotFound | NoResultSupport | NothingSpecified

  // `abandoned` are promises dropped without being settled.
  datatype State = State(
    approvals: map<Id, nat>, origins: Origins, pending: map<Id, Request>, count: nat,
    made: nat, settled: seq<Settlement>, abandoned: seq<nat>)

  const EMPTY := State(map[], map[], map[], 0, 0, [], [])

  // ---------- Scans of the stored requests ----------

  function Matching(pending: map<Id, Request>, origin: string, kind: string): set<Id> {
    set id | id in pending && pending[id].origin == origin && pending[id].kind == kind
  }

  function FromOrigin(pending: map<Id, Request>, origin: string): set<Id> {
    set id | id in pending && pending[id].origin == origin
  }

  function OfKind(pending: map<Id, Request>, kind: string): set<Id> {
    set id | id in pending && pending[id].kind == kind
  }

  // ---------- The origin counts ----------

  function CountAt(origins: Origins, origin: string, kind: string): nat {
    if origin in origins && kind in origins[origin] then origins[origin][kind] else 0
  }

  function Increment(origins: Origins, origin: string, kind: string): Origins {
    var m := if origin in origins then origins[origin] else map[];
    origins[origin := m[kind := CountAt(origins, origin, kind) + 1]]
  }

  ghost function Total(m: map<string, nat>): nat {
    if m == map[] then 0 else var k :| k in m; m[k] + Total(m - {k})
  }

  lemma {:induction false} TotalAt(m: map<string, nat>, k: string)
    requires k in m
    ensures Total(m) == m[k] + Total(m - {k})
    decreases |m|
  {
    var k0 :| k0 in m && Total(m) == m[k0] + Total(m - {k0});
    if k0 != k {
      TotalAt(m - {k0}, k);
      TotalAt(m - {k}, k0);
      assert m - {k0} - {k} == m - {k} - {k0};
    }
  }

  lemma {:induction false} TotalCountsKinds(pending: map<Id, Request>, origin: string, m: map<string, nat>)
    requires forall kind :: kind in m ==> m[kind] == |Matching(pending, origin, kind)|
    ensures Total(m) == |set id | id in pending && pending[id].origin == origin && pending[id].kind in m|
    decreases |m|
  {
    var all := set id | id in pending && pending[id].origin == origin && pending[id].kind in m;
    if m == map[] {
      assert all == {};
    } else {
      var k :| k in m;
      TotalAt(m, k);
      TotalCountsKinds(pending, origin, m - {k});
      var rest := set id | id in pending && pending[id].origin == origin && pending[id].kind in m - {k};
      assert all == Matching(pending, origin, k) + rest;
    }
  }

  // ---------- Operations ----------

  predicate HasPair(s: State, origin: string, kind: string) {
    CountAt(s.origins, origin, kind) > 0
  }

  // `plain`: the request data, and the request state, are plain objects or absent.
  datatype Extras = Extras(plainData: bool, plainState: bool)

  const NO_EXTRAS := Extras(true, true)

  function CheckAdd(s: State, id: Id, origin: string, kind: string, x: Extras, exempt: set<string>): Option<Error> {
    if id == "" then Some(EmptyId)
    else if id in s.approvals then Some(DuplicateId)
    else if origin == "" then Some(EmptyOrigin)
    else if kind == "" then Some(EmptyKind)
    else if !x.plainData then Some(DataNotPlain)
    else if !x.plainState then Some(StateNotPlain)
    else if kind !in exempt && HasPair(s, origin, kind) then Some(AlreadyPending)
    else None
  }

  function Add(s: State, id: Id, origin: string, kind: string, expectsResult: bool): State {
    var pending := s.pending[id := Request(origin, kind, expectsResult, s.made)];
    s.(approvals := s.approvals[id := s.made], origins := Increment(s.origins, origin, kind),
       pending := pending, count := |pending|, made := s.made + 1)
  }

  // An origin goes with the last of its requests.
  ghost function Decrement(origins: Origins, origin: string, kind: string): Origins
    requires CountAt(origins, origin, kind) > 0
  {
    var m := origins[origin];
    if Total(m) == 1 then origins - {origin} else origins[origin := m[kind := m[kind] - 1]]
  }

  ghost function Delete(s: State, id: Id): State
    requires id in s.pending && CountAt(s.origins, s.pending[id].origin, s.pending[id].kind) > 0
  {
    s.(approvals := s.approvals - {id},
       origins := Decrement(s.origins, s.pending[id].origin, s.pending[id].kind),
       pending := s.pending - {id}, count := |s.pending - {id}|)
  }

  function Settle(s: State, r: Settlement): State {
    s.(settled := s.settled + [r])
  }

  // ---------- The invariant ----------

  ghost predicate IndexesAgree(s: State) {
    && s.approvals.Keys == s.pending.Keys
    && s.count == |s.pending|
    && (forall origin, kind :: CountAt(s.origins, origin, kind) == |Matching(s.pending, origin, kind)|)
    && (forall origin :: origin in s.origins <==> FromOrigin(s.pending, origin) != {})
  }

  function Holding(pending: map<Id, Request>, p: nat): set<Id> {
    set id | id in pending && pending[id].promise == p
  }

  // How often promise p is held by a pending request, settled or dropped.
  function Fates(s: State, p: nat): nat {
    |Holding(s.pending, p)|
    + multiset(s.settled)[Resolved(p)] + multiset(s.settled)[Rejected(p)] + multiset(s.abandoned)[p]
  }

  ghost predicate OnePromiseEach(s: State) {
    && (forall id :: id in s.approvals && id in s.pending ==> s.approvals[id] == s.pending[id].promise)
    && (forall p: nat :: Fates(s, p) == if p < s.made then 1 else 0)
  }

  ghost predicate WellNamed(s: State) {
    forall id :: id in s.pending ==> id != "" && s.pending[id].origin != "" && s.pending[id].kind != ""
  }

  ghost predicate RateLimited(s: State, exempt: set<string>) {
    forall origin, kind :: kind !in exempt ==> |Matching(s.pending, origin, kind)| <= 1
  }

  ghost predicate Inv(s: State, exempt: set<string>) {
    IndexesAgree(s) && OnePromiseEach(s) && RateLimited(s, exempt) && WellNamed(s)
  }

  lemma NonEmpty<T>(s: set<T>, x: T)
    requires x in s
    ensures |s| > 0
  {
  }

  lemma DeleteAllowed(s: State, id: Id)
    requires IndexesAgree(s) && id in s.pending
    ensures s.pending[id].origin in s.origins && CountAt(s.origins, s.pending[id].origin, s.pending[id].kind) > 0
  {
    NonEmpty(Matching(s.pending, s.pending[id].origin, s.pending[id].kind), id);
    assert id in FromOrigin(s.pending, s.pending[id].origin);
  }

  lemma IncrementAdds(origins: Origins, origin: string, kind: string, o: string, k: string)
    ensures CountAt(Increment(origins, origin, kind), o, k)
         == CountAt(origins, o, k) + if o == origin && k == kind then 1 else 0
  {
  }

  lemma MatchingAdded(pending: map<Id, Request>, id: Id, r: Request, o: string, k: string)
    requires id !in pending
    ensures |Matching(pending[id := r], o, k)|
         == |Matching(pending, o, k)| + if r.origin == o && r.kind == k then 1 else 0
  {
    if r.origin == o && r.kind == k {
      assert Matching(pending[id := r], o, k) == Matching(pending, o, k) + {id};
    } else {
      assert Matching(pending[id := r], o, k) == Matching(pending, o, k);
    }
  }

  lemma AddKeepsIndexes(s: State, id: Id, origin: string, kind: string, expectsResult: bool)
    requires IndexesAgree(s) && id !in s.pending
    ensures IndexesAgree(Add(s, id, origin, kind, expectsResult))
  {
    var s' := Add(s, id, origin, kind, expectsResult);
    forall o, k ensures CountAt(s'.origins, o, k) == |Matching(s'.pending, o, k)| {
      IncrementAdds(s.origins, origin, kind, o, k);
      MatchingAdded(s.pending, id, Request(origin, kind, expectsResult, s.made), o, k);
      assert CountAt(s.origins, o, k) == |Matching(s.pending, o, k)|;
    }
    forall o ensures o in s'.origins <==> FromOrigin(s'.pending, o) != {} {
      if o == origin {
        assert id in FromOrigin(s'.pending, o);
      } else {
        assert FromOrigin(s'.pending, o) == FromOrigin(s.pending, o);
      }
    }
  }

  // The origin's total counts its requests.
  lemma TotalIsOriginCount(s: State, origin: string)
    requires IndexesAgree(s) && origin in s.origins
    ensures Total(s.origins[origin]) == |FromOrigin(s.pending, origin)|
  {
    var m := s.origins[origin];
    forall kind | kind in m ensures m[kind] == |Matching(s.pending, origin, kind)| {
      assert CountAt(s.origins, origin, kind) == m[kind];
    }
    TotalCountsKinds(s.pending, origin, m);
    forall id | id in FromOrigin(s.pending, origin) ensures s.pending[id].kind in m {
      DeleteAllowed(s, id);
    }
    assert FromOrigin(s.pending, origin)
        == set id | id in s.pending && s.pending[id].origin == origin && s.pending[id].kind in m;
  }

  // A total of one: the request deleted was the last of its origin.
  lemma LastOfOrigin(s: State, id: Id)
    requires IndexesAgree(s) && id in s.pending && s.pending[id].origin in s.origins
    ensures Total(s.origins[s.pending[id].origin]) == 1 <==> FromOrigin(s.pending - {id}, s.pending[id].origin) == {}
  {
    var origin := s.pending[id].origin;
    TotalIsOriginCount(s, origin);
    assert id in FromOrigin(s.pending, origin);
    assert FromOrigin(s.pending, origin) == FromOrigin(s.pending - {id}, origin) + {id};
  }

  lemma DeleteKeepsIndexes(s: State, id: Id)
    requires IndexesAgree(s) && id in s.pending
    ensures s.pending[id].origin in s.origins && CountAt(s.origins, s.pending[id].origin, s.pending[id].kind) > 0
    ensures IndexesAgree(Delete(s, id))
  {
    DeleteAllowed(s, id);
    LastOfOrigin(s, id);
    var s' := Delete(s, id);
    forall o, k ensures CountAt(s'.origins, o, k) == |Matching(s'.pending, o, k)| {
      DeleteCount(s, id, o, k);
    }
    forall o ensures o in s'.origins <==> FromOrigin(s'.pending, o) != {} {
      if o != s.pending[id].origin {
        assert FromOrigin(s'.pending, o) == FromOrigin(s.pending, o);
      }
    }
  }

  lemma DeleteCount(s: State, id: Id, o: string, k: string)
    requires IndexesAgree(s) && id in s.pending
    requires s.pending[id].origin in s.origins && CountAt(s.origins, s.pending[id].origin, s.pending[id].kind) > 0
    ensures CountAt(Delete(s, id).origins, o, k) == |Matching(Delete(s, id).pending, o, k)|
  {
    var s' := Delete(s, id);
    var origin, kind := s.pending[id].origin, s.pending[id].kind;
    LastOfOrigin(s, id);
    assert CountAt(s.origins, o, k) == |Matching(s.pending, o, k)|;
    if o == origin && Total(s.origins[origin]) == 1 {
      assert Matching(s'.pending, o, k) <= FromOrigin(s'.pending, o);
    } else if o == origin && k == kind {
      assert Matching(s'.pending, o, k) == Matching(s.pending, o, k) - {id};
    } else {
      assert Matching(s'.pending, o, k) == Matching(s.pending, o, k);
    }
  }

  // ---------- Accepting, rejecting and clearing ----------

  datatype Outcome<T> = Done(value: T) | Failed(error: Error)

  // How the promise returned by accept stands when accept returns.
  datatype Acceptance = Finished | AwaitsCreator | Refused

  // Waiting for a result that the request cannot give drops its promise.
  ghost function Accept(s: State, id: Id, wait: bool): State
    requires IndexesAgree(s)
  {
    if id !in s.approvals then s
    else
      DeleteAllowed(s, id);
      var s' := Delete(s, id);
      if wait && !s.pending[id].expectsResult then s'.(abandoned := s.abandoned + [s.approvals[id]])
      else Settle(s', Resolved(s.approvals[id]))
  }

  ghost function Reject(s: State, id: Id): State
    requires IndexesAgree(s)
  {
    if id !in s.approvals then s
    else
      DeleteAllowed(s, id);
      Settle(Delete(s, id), Rejected(s.approvals[id]))
  }

  ghost function RejectAll(s: State, ids: seq<Id>): State
    requires IndexesAgree(s)
    decreases |ids|
  {
    if ids == [] then s
    else
      RejectKeepsIndexes(s, ids[0]);
      RejectAll(Reject(s, ids[0]), ids[1..])
  }

  // `ids` is the order in which the callbacks were filed.
  ghost function Clear(s: State, ids: seq<Id>): State
    requires IndexesAgree(s)
  {
    RejectAll(s, ids).(origins := map[], pending := map[], count := 0)
  }

  ghost predicate Enumerates(ids: seq<Id>, keys: set<Id>) {
    && (forall id :: id in ids <==> id in keys)
    && (forall i, j :: 0 <= i < j < |ids| ==> ids[i] != ids[j])
  }

  lemma RejectKeepsIndexes(s: State, id: Id)
    requires IndexesAgree(s)
    ensures IndexesAgree(Reject(s, id))
  {
    if id in s.approvals {
      DeleteKeepsIndexes(s, id);
    }
  }

  lemma AcceptKeepsIndexes(s: State, id: Id, wait: bool)
    requires IndexesAgree(s)
    ensures IndexesAgree(Accept(s, id, wait))
  {
    if id in s.approvals {
      DeleteKeepsIndexes(s, id);
    }
  }

  // ---------- Each step keeps the invariant ----------

  lemma {:induction false} SmallSet<T>(s: set<T>, t: set<T>)
    requires s <= t
    ensures |s| <= |t|
  {
    if s != {} {
      var x :| x in s;
      SmallSet(s - {x}, t - {x});
    }
  }

  lemma AddKeepsFates(s: State, id: Id, origin: string, kind: string, expectsResult: bool)
    requires OnePromiseEach(s) && id !in s.pending
    ensures OnePromiseEach(Add(s, id, origin, kind, expectsResult))
  {
    var s' := Add(s, id, origin, kind, expectsResult);
    forall p: nat ensures Fates(s', p) == if p < s'.made then 1 else 0 {
      assert Fates(s, p) == if p < s.made then 1 else 0;
      if p == s.made {
        assert Holding(s'.pending, p) == Holding(s.pending, p) + {id};
      } else {
        assert Holding(s'.pending, p) == Holding(s.pending, p);
      }
    }
  }

  lemma AddKeepsRate(s: State, id: Id, origin: string, kind: string, expectsResult: bool, x: Extras,
      exempt: set<string>)
    requires IndexesAgree(s) && RateLimited(s, exempt) && CheckAdd(s, id, origin, kind, x, exempt).None?
    ensures RateLimited(Add(s, id, origin, kind, expectsResult), exempt)
  {
    var r := Request(origin, kind, expectsResult, s.made);
    var s' := s.(pending := s.pending[id := r]);
    forall o, k | k !in exempt ensures |Matching(s'.pending, o, k)| <= 1 {
      MatchingAdded(s.pending, id, r, o, k);
      assert CountAt(s.origins, o, k) == |Matching(s.pending, o, k)|;
    }
  }

  lemma AddKeepsInv(s: State, id: Id, origin: string, kind: string, expectsResult: bool, x: Extras, exempt: set<string>)
    requires Inv(s, exempt) && CheckAdd(s, id, origin, kind, x, exempt).None?
    ensures Inv(Add(s, id, origin, kind, expectsResult), exempt)
  {
    AddKeepsIndexes(s, id, origin, kind, expectsResult);
    AddKeepsFates(s, id, origin, kind, expectsResult);
    AddKeepsRate(s, id, origin, kind, expectsResult, x, exempt);
  }

  // Moving one promise from pending to settled or dropped keeps every count of one.
  lemma MoveKeepsFates(s: State, id: Id, s': State)
    requires OnePromiseEach(s) && id in s.approvals && id in s.pending
    requires s'.approvals == s.approvals - {id} && s'.pending == s.pending - {id} && s'.made == s.made
    requires
      || (s'.settled == s.settled + [Resolved(s.approvals[id])] && s'.abandoned == s.abandoned)
      || (s'.settled == s.settled + [Rejected(s.approvals[id])] && s'.abandoned == s.abandoned)
      || (s'.settled == s.settled && s'.abandoned == s.abandoned + [s.approvals[id]])
    ensures OnePromiseEach(s')
  {
    forall p: nat ensures Fates(s', p) == if p < s'.made then 1 else 0 {
      assert Fates(s, p) == if p < s.made then 1 else 0;
      HoldingWithout(s.pending, id, p);
    }
  }

  lemma HoldingWithout(pending: map<Id, Request>, id: Id, p: nat)
    requires id in pending
    ensures |Holding(pending, p)| == |Holding(pending - {id}, p)| + if pending[id].promise == p then 1 else 0
  {
    if pending[id].promise == p {
      assert Holding(pending, p) == Holding(pending - {id}, p) + {id};
    } else {
      assert Holding(pending, p) == Holding(pending - {id}, p);
    }
  }

  lemma PendingIsUnsettled(s: State, id: Id)
    requires OnePromiseEach(s) && id in s.pending
    ensures var p := s.pending[id].promise;
            && p < s.made
            && multiset(s.settled)[Resolved(p)] == 0 && multiset(s.settled)[Rejected(p)] == 0
            && multiset(s.abandoned)[p] == 0
  {
    var p := s.pending[id].promise;
    assert Fates(s, p) == if p < s.made then 1 else 0;
    NonEmpty(Holding(s.pending, p), id);
  }

  lemma HasOneFate(s: State, p: nat)
    requires OnePromiseEach(s)
    ensures multiset(s.settled)[Resolved(p)] + multiset(s.settled)[Rejected(p)] + multiset(s.abandoned)[p] <= 1
  {
    assert Fates(s, p) <= 1;
  }

  lemma DeleteKeepsRate(s: State, id: Id, exempt: set<string>)
    requires RateLimited(s, exempt)
    ensures RateLimited(s.(pending := s.pending - {id}), exempt)
  {
    var s' := s.(pending := s.pending - {id});
    forall o, k | k !in exempt ensures |Matching(s'.pending, o, k)| <= 1 {
      SmallSet(Matching(s.pending - {id}, o, k), Matching(s.pending, o, k));
    }
  }

  lemma AcceptKeepsInv(s: State, id: Id, wait: bool, exempt: set<string>)
    requires Inv(s, exempt)
    ensures Inv(Accept(s, id, wait), exempt)
  {
    AcceptKeepsIndexes(s, id, wait);
    if id in s.approvals {
      MoveKeepsFates(s, id, Accept(s, id, wait));
      DeleteKeepsRate(s, id, exempt);
    }
  }

  lemma RejectKeepsInv(s: State, id: Id, exempt: set<string>)
    requires Inv(s, exempt)
    ensures Inv(Reject(s, id), exempt)
  {
    RejectKeepsIndexes(s, id);
    if id in s.approvals {
      MoveKeepsFates(s, id, Reject(s, id));
      DeleteKeepsRate(s, id, exempt);
    }
  }

  function Rejections(approvals: map<Id, nat>, ids: seq<Id>): (r: seq<Settlement>)
    requires forall id :: id in ids ==> id in approvals
    ensures |r| == |ids|
    ensures forall i :: 0 <= i < |ids| ==> r[i] == Rejected(approvals[ids[i]])
  {
    if ids == [] then [] else [Rejected(approvals[ids[0]])] + Rejections(approvals, ids[1..])
  }

  lemma {:induction false} RejectAllKeepsInv(s: State, ids: seq<Id>, exempt: set<string>)
    requires Inv(s, exempt)
    ensures Inv(RejectAll(s, ids), exempt)
    decreases |ids|
  {
    if ids != [] {
      RejectKeepsInv(s, ids[0], exempt);
      RejectAllKeepsInv(Reject(s, ids[0]), ids[1..], exempt);
    }
  }

  lemma RejectionsAgree(a: map<Id, nat>, b: map<Id, nat>, ids: seq<Id>)
    requires forall id :: id in ids ==> id in a && id in b && a[id] == b[id]
    ensures Rejections(a, ids) == Rejections(b, ids)
  {
  }

  lemma RejectEffect(s: State, id: Id)
    requires IndexesAgree(s) && id in s.approvals
    ensures var s' := Reject(s, id);
            && IndexesAgree(s')
            && s'.approvals == s.approvals - {id} && s'.pending == s.pending - {id}
            && s'.settled == s.settled + [Rejected(s.approvals[id])]
            && s'.abandoned == s.abandoned && s'.made == s.made
  {
    RejectKeepsIndexes(s, id);
  }

  lemma {:induction false} RejectAllEffect(s: State, ids: seq<Id>)
    requires IndexesAgree(s) && Enumerates(ids, s.approvals.Keys)
    ensures RejectedAll(s, RejectAll(s, ids), ids)
    decreases |ids|
  {
    if ids == [] {
      assert s.approvals.Keys == {};
      assert s.settled + Rejections(s.approvals, ids) == s.settled;
    } else {
      assert ids[0] in s.approvals.Keys;
      RejectEffect(s, ids[0]);
      var s1 := Reject(s, ids[0]);
      RestEnumerates(ids, s.approvals.Keys);
      assert s1.approvals.Keys == s.approvals.Keys - {ids[0]};
      RejectAllEffect(s1, ids[1..]);
      RejectedStep(s, s1, RejectAll(s1, ids[1..]), ids);
    }
  }

  ghost predicate RejectedAll(s: State, s': State, ids: seq<Id>)
    requires forall id :: id in ids ==> id in s.approvals
  {
    && s'.approvals == map[]
    && s'.settled == s.settled + Rejections(s.approvals, ids)
    && s'.abandoned == s.abandoned && s'.made == s.made
  }

  lemma RejectedStep(s: State, s1: State, s': State, ids: seq<Id>)
    requires ids != [] && (forall id :: id in ids ==> id in s.approvals) &&
        (forall id :: id in ids[1..] ==> id in s1.approvals)
    requires s1.approvals == s.approvals - {ids[0]} && s1.settled == s.settled + [Rejected(s.approvals[ids[0]])]
    requires s1.abandoned == s.abandoned && s1.made == s.made
    requires RejectedAll(s1, s', ids[1..])
    ensures RejectedAll(s, s', ids)
  {
    assert forall id :: id in ids[1..] ==> id in ids;
    RejectionsAgree(s1.approvals, s.approvals, ids[1..]);
    ConcatAssociative(s.settled, [Rejected(s.approvals[ids[0]])], Rejections(s.approvals, ids[1..]));
  }

  lemma RestEnumerates(ids: seq<Id>, keys: set<Id>)
    requires ids != [] && Enumerates(ids, keys)
    ensures Enumerates(ids[1..], keys - {ids[0]})
  {
    forall id ensures id in ids[1..] <==> id in keys - {ids[0]} {
      assert id in ids[1..] ==> id in ids;
      assert id in ids <==> id in keys;
    }
  }

  // Without callbacks the other indexes are empty.
  lemma NoCallbacksNothingPending(s: State)
    requires IndexesAgree(s) && s.approvals == map[]
    ensures s.pending == map[] && s.origins == map[] && s.count == 0
  {
    assert s.pending.Keys == {};
    forall o ensures o !in s.origins {
      assert FromOrigin(s.pending, o) == {};
    }
  }

  /** Clearing rejects every pending request and leaves nothing behind. */
  lemma ClearRejectsAll(s: State, ids: seq<Id>, exempt: set<string>)
    requires Inv(s, exempt) && Enumerates(ids, s.approvals.Keys)
    ensures var s' := Clear(s, ids);
            && Inv(s', exempt) && s' == RejectAll(s, ids)
            && s'.approvals == map[] && s'.pending == map[] && s'.origins == map[] && s'.count == 0
            && s'.settled == s.settled + Rejections(s.approvals, ids)
            && s'.abandoned == s.abandoned && s'.made == s.made
  {
    RejectAllKeepsInv(s, ids, exempt);
    RejectAllEffect(s, ids);
    NoCallbacksNothingPending(RejectAll(s, ids));
  }

  /** Each request pending before a clear is rejected by it exactly once, and was not rejected before. */
  lemma ClearRejectsEachOnce(s: State, ids: seq<Id>, id: Id, exempt: set<string>)
    requires Inv(s, exempt) && Enumerates(ids, s.approvals.Keys) && id in s.pending
    ensures multiset(s.settled)[Rejected(s.pending[id].promise)] == 0
    ensures multiset(Clear(s, ids).settled)[Rejected(s.pending[id].promise)] == 1
  {
    ClearRejectsAll(s, ids, exempt);
    var s', p := Clear(s, ids), s.pending[id].promise;
    PendingIsUnsettled(s, id);
    assert id in s.approvals.Keys && id in ids;
    RejectionsInclude(s.approvals, ids, id);
    assert Rejected(p) in s'.settled;
    HasOneFate(s', p);
  }

  lemma RejectionsInclude(approvals: map<Id, nat>, ids: seq<Id>, id: Id)
    requires (forall x :: x in ids ==> x in approvals) && id in ids
    ensures Rejected(approvals[id]) in Rejections(approvals, ids)
  {
    var i :| 0 <= i < |ids| && ids[i] == id;
    assert Rejections(approvals, ids)[i] == Rejected(approvals[id]);
  }

  // ---------- Runs ----------

  datatype Event =
    | AddEvent(id: Id, origin: string, kind: string, expectsResult: bool, extras: Extras)
    | AcceptEvent(id: Id, wait: bool)
    | RejectEvent(id: Id)
    | ClearEvent(order: seq<Id>)

  // Only enumerations of the filed ids arise as the order of a clear.
  ghost function Step(s: State, e: Event, exempt: set<string>): State
    requires IndexesAgree(s)
  {
    match e
    case AddEvent(id, origin, kind, expectsResult, x) =>
      if CheckAdd(s, id, origin, kind, x, exempt).None? then Add(s, id, origin, kind, expectsResult) else s
    case AcceptEvent(id, wait) => Accept(s, id, wait)
    case RejectEvent(id) => Reject(s, id)
    case ClearEvent(order) => if Enumerates(order, s.approvals.Keys) then Clear(s, order) else s
  }

  lemma StepKeepsInv(s: State, e: Event, exempt: set<string>)
    requires Inv(s, exempt)
    ensures Inv(Step(s, e, exempt), exempt)
  {
    match e
    case AddEvent(id, origin, kind, expectsResult, x) =>
      if CheckAdd(s, id, origin, kind, x, exempt).None? {
        AddKeepsInv(s, id, origin, kind, expectsResult, x, exempt);
      }
    case AcceptEvent(id, wait) => AcceptKeepsInv(s, id, wait, exempt);
    case RejectEvent(id) => RejectKeepsInv(s, id, exempt);
    case ClearEvent(order) =>
      if Enumerates(order, s.approvals.Keys) {
        ClearRejectsAll(s, order, exempt);
      }
  }

  ghost function Run(events: seq<Event>, exempt: set<string>): (s: State)
    ensures Inv(s, exempt)
  {
    if events == [] then
      EmptyIsValid(exempt);
      EMPTY
    else
      var s := Run(events[..|events| - 1], exempt);
      StepKeepsInv(s, events[|events| - 1], exempt);
      Step(s, events[|events| - 1], exempt)
  }

  lemma EmptyIsValid(exempt: set<string>)
    ensures Inv(EMPTY, exempt)
  {
    forall o, k ensures CountAt(EMPTY.origins, o, k) == |Matching(EMPTY.pending, o, k)| {
      assert Matching(EMPTY.pending, o, k) == {};
    }
    forall p: nat ensures Fates(EMPTY, p) == 0 {
      assert Holding(EMPTY.pending, p) == {};
    }
  }

  /** No promise is settled twice or while its request is pending; limited types stay limited. */
  lemma PromisesSettleOnce(events: seq<Event>, exempt: set<string>)
    ensures var s := Run(events, exempt);
            && (forall i, j :: 0 <= i < j < |s.settled| ==> s.settled[i].promise != s.settled[j].promise)
            && (forall id, i :: id in s.pending && 0 <= i < |s.settled| ==>
                s.pending[id].promise != s.settled[i].promise)
            && (forall a, b :: a in s.pending && b in s.pending && a != b
                  && s.pending[a].origin == s.pending[b].origin && s.pending[a].kind == s.pending[b].kind
                  ==> s.pending[a].kind in exempt)
  {
    var s := Run(events, exempt);
    forall i, j | 0 <= i < j < |s.settled| ensures s.settled[i].promise != s.settled[j].promise {
      SettledApart(s, i, j);
    }
    forall id, i | id in s.pending && 0 <= i < |s.settled| ensures s.pending[id].promise != s.settled[i].promise {
      PendingIsUnsettled(s, id);
      assert s.settled[i] in multiset(s.settled);
    }
    forall a, b | a in s.pending && b in s.pending && a != b
      && s.pending[a].origin == s.pending[b].origin && s.pending[a].kind == s.pending[b].kind
      ensures s.pending[a].kind in exempt
    {
      SmallSet({a, b}, Matching(s.pending, s.pending[a].origin, s.pending[a].kind));
    }
  }

  /** While a request of an origin and type is pending, a further one with a new id
      and nothing else wrong is accepted exactly if the type is exempt. */
  lemma FurtherRequestAcceptedIff(s: State, id: Id, origin: string, kind: string, exempt: set<string>)
    requires Inv(s, exempt) && Matching(s.pending, origin, kind) != {} && id != "" && id !in s.pending
    ensures CheckAdd(s, id, origin, kind, NO_EXTRAS, exempt).None? <==> kind in exempt
  {
    var other :| other in Matching(s.pending, origin, kind);
    NonEmpty(Matching(s.pending, origin, kind), other);
    assert CountAt(s.origins, origin, kind) == |Matching(s.pending, origin, kind)|;
  }

  /** Over all runs the count of an origin and type stays at most one exactly if the
      type is not exempt. */
  lemma LimitOfOneIff(origin: string, kind: string, exempt: set<string>)
    requires origin != "" && kind != ""
    ensures (forall events: seq<Event> :: CountAt(Run(events, exempt).origins, origin, kind) <= 1) <==> kind !in exempt
  {
    if kind in exempt {
      TwoOfExempt(origin, kind, exempt);
    } else {
      forall events: seq<Event> ensures CountAt(Run(events, exempt).origins, origin, kind) <= 1 {
        var s := Run(events, exempt);
        assert CountAt(s.origins, origin, kind) == |Matching(s.pending, origin, kind)|;
      }
    }
  }

  lemma TwoOfExempt(origin: string, kind: string, exempt: set<string>)
    requires origin != "" && kind in exempt && kind != ""
    ensures var events := [AddEvent("1", origin, kind, false, NO_EXTRAS),
        AddEvent("2", origin, kind, false, NO_EXTRAS)];
            CountAt(Run(events, exempt).origins, origin, kind) == 2
  {
    var first, second := AddEvent("1", origin, kind, false, NO_EXTRAS), AddEvent("2", origin, kind, false, NO_EXTRAS);
    assert [first, second][..1] == [first] && [first][..0] == [];
    assert Run([first], exempt) == Add(EMPTY, "1", origin, kind, false);
    assert Run([first, second], exempt) == Add(Run([first], exempt), "2", origin, kind, false);
  }

  lemma SettledApart(s: State, i: nat, j: nat)
    requires OnePromiseEach(s) && i < j < |s.settled|
    ensures s.settled[i].promise != s.settled[j].promise
  {
    var a, b := s.settled[i], s.settled[j];
    HasOneFate(s, a.promise);
    assert a in multiset(s.settled) && b in multiset(s.settled);
    if a == b {
      TwiceInMultiset(s.settled, i, j);
    }
  }

  /**
   Accepting a pending request settles its promise unless the caller waits for
   a result the request does not give: then the promise is dropped and nothing
   that happens later settles it.
   */
  lemma {:induction false} DroppedForGood(s: State, p: nat, events: seq<Event>, exempt: set<string>)
    requires Inv(s, exempt) && p in s.abandoned
    ensures Inv(RunFrom(s, events, exempt), exempt)
    ensures var s' := RunFrom(s, events, exempt);
            p in s'.abandoned && Resolved(p) !in s'.settled && Rejected(p) !in s'.settled
    decreases |events|
  {
    if events == [] {
      HasOneFate(s, p);
      assert p in multiset(s.abandoned);
    } else {
      StepKeepsInv(s, events[0], exempt);
      StepKeepsDropped(s, p, events[0], exempt);
      DroppedForGood(Step(s, events[0], exempt), p, events[1..], exempt);
    }
  }

  lemma StepKeepsDropped(s: State, p: nat, e: Event, exempt: set<string>)
    requires Inv(s, exempt) && p in s.abandoned
    ensures p in Step(s, e, exempt).abandoned
  {
    if e.ClearEvent? && Enumerates(e.order, s.approvals.Keys) {
      ClearRejectsAll(s, e.order, exempt);
    }
  }

  ghost function RunFrom(s: State, events: seq<Event>, exempt: set<string>): State
    requires Inv(s, exempt)
    decreases |events|
  {
    if events == [] then s
    else
      StepKeepsInv(s, events[0], exempt);
      RunFrom(Step(s, events[0], exempt), events[1..], exempt)
  }

  lemma AcceptSettlesIff(s: State, id: Id, wait: bool, exempt: set<string>)
    requires Inv(s, exempt) && id in s.pending
    ensures var s', p := Accept(s, id, wait), s.pending[id].promise;
            && id !in s'.pending
            && (Resolved(p) in s'.settled <==> !wait || s.pending[id].expectsResult)
            && (p in s'.abandoned <==> wait && !s.pending[id].expectsResult)
            && Rejected(p) !in s'.settled
  {
    var s', p := Accept(s, id, wait), s.pending[id].promise;
    AcceptKeepsInv(s, id, wait, exempt);
    PendingIsUnsettled(s, id);
    HasOneFate(s', p);
    assert Resolved(p) !in multiset(s.settled) && Rejected(p) !in multiset(s.settled) && p !in multiset(s.abandoned);
  }

  // ---------- What the queries answer, by scanning the stored requests ----------

  function CountByScan(pending: map<Id, Request>, origin: string, kind: string): Outcome<nat> {
    if origin == "" && kind == "" then Failed(NothingSpecified)
    else if kind == "" then Done(|FromOrigin(pending, origin)|)
    else if origin == "" then Done(|OfKind(pending, kind)|)
    else Done(|Matching(pending, origin, kind)|)
  }

  function HasByScan(pending: map<Id, Request>, id: Id, origin: string, kind: string): Outcome<bool> {
    if id != "" then Done(id in pending)
    else if origin == "" && kind == "" then Failed(NothingSpecified)
    else if kind == "" then Done(FromOrigin(pending, origin) != {})
    else if origin == "" then Done(OfKind(pending, kind) != {})
    else Done(Matching(pending, origin, kind) != {})
  }

  /** An absent argument is the empty string. */
  class ApprovalController {
    const exempt: set<string>
    var approvals: map<Id, nat>
    var origins: Origins
    var pending: map<Id, Request>
    var count: nat
    var made: nat
    var settled: seq<Settlement>
    var abandoned: seq<nat>

    ghost function Snapshot(): State
      reads this
    {
      State(approvals, origins, pending, count, made, settled, abandoned)
    }

    ghost predicate Valid()
      reads this
    {
      Inv(Snapshot(), exempt)
    }

    constructor (exempt: set<string>)
      ensures Valid() && this.exempt == exempt && Snapshot() == EMPTY
    {
      this.exempt := exempt;
      approvals, origins, pending, count, made, settled, abandoned := map[], map[], map[], 0, 0, [], [];
      new;
      EmptyIsValid(exempt);
    }

    method OriginTotal(origin: string) returns (total: nat)
      ensures total == if origin in origins then Total(origins[origin]) else 0
    {
      total := 0;
      if origin in origins {
        var m := origins[origin];
        while m != map[]
          invariant total + Total(m) == Total(origins[origin])
          decreases |m|
        {
          var kind :| kind in m;
          TotalAt(m, kind);
          total := total + m[kind];
          m := m - {kind};
        }
      }
    }

    method GetApprovalCount(origin: string, kind: string) returns (r: Outcome<nat>)
      requires Valid()
      ensures r == CountByScan(pending, origin, kind)
    {
      if origin == "" && kind == "" {
        return Failed(NothingSpecified);
      }
      if origin != "" && kind != "" {
        assert CountAt(Snapshot().origins, origin, kind) == |Matching(pending, origin, kind)|;
        return Done(if origin in origins && kind in origins[origin] then origins[origin][kind] else 0);
      }
      if origin != "" {
        if origin in origins {
          TotalIsOriginCount(Snapshot(), origin);
        }
        var total := OriginTotal(origin);
        return Done(total);
      }
      var n, rest := 0, pending;
      while rest != map[]
        invariant rest.Keys <= pending.Keys && forall id :: id in rest ==> rest[id] == pending[id]
        invariant n + |OfKind(rest, kind)| == |OfKind(pending, kind)|
        decreases |rest|
      {
        var id :| id in rest;
        if rest[id].kind == kind {
          assert OfKind(rest, kind) == OfKind(rest - {id}, kind) + {id};
          n := n + 1;
        } else {
          assert OfKind(rest, kind) == OfKind(rest - {id}, kind);
        }
        rest := rest - {id};
      }
      assert OfKind(rest, kind) == {};
      r := Done(n);
    }

    method Has(id: Id, origin: string, kind: string) returns (r: Outcome<bool>)
      requires Valid()
      ensures r == HasByScan(pending, id, origin, kind)
    {
      if id != "" {
        return Done(id in approvals);
      }
      if origin != "" {
        if kind != "" {
          assert CountAt(Snapshot().origins, origin, kind) == |Matching(pending, origin, kind)|;
          return Done(origin in origins && kind in origins[origin] && origins[origin][kind] != 0);
        }
        return Done(origin in origins);
      }
      if kind != "" {
        var rest := pending;
        while rest != map[]
          invariant OfKind(rest, kind) == OfKind(pending, kind)
          invariant forall id :: id in rest ==> id in pending && rest[id] == pending[id]
          decreases |rest|
        {
          var next :| next in rest;
          if rest[next].kind == kind {
            assert next in OfKind(pending, kind);
            return Done(true);
          }
          assert OfKind(rest, kind) == OfKind(rest - {next}, kind);
          rest := rest - {next};
        }
        return Done(false);
      }
      r := Failed(NothingSpecified);
    }

    method AddRequest(id: Id, origin: string, kind: string, expectsResult: bool, x: Extras) returns (r: Outcome<nat>)
      requires Valid()
      modifies this
      ensures Valid()
      ensures match CheckAdd(old(Snapshot()), id, origin, kind, x, exempt)
              case Some(e) => r == Failed(e) && Snapshot() == old(Snapshot())
              case None => r == Done(old(made)) && Snapshot() == Add(old(Snapshot()), id, origin, kind, expectsResult)
    {
      if id == "" { return Failed(EmptyId); }
      if id in approvals { return Failed(DuplicateId); }
      if origin == "" { return Failed(EmptyOrigin); }
      if kind == "" { return Failed(EmptyKind); }
      if !x.plainData { return Failed(DataNotPlain); }
      if !x.plainState { return Failed(StateNotPlain); }
      assert CountAt(Snapshot().origins, origin, kind) == |Matching(pending, origin, kind)|;
      if kind !in exempt {
        var busy := Has("", origin, kind);
        if busy == Done(true) { return Failed(AlreadyPending); }
      }
      AddKeepsInv(Snapshot(), id, origin, kind, expectsResult, x, exempt);
      r := Done(made);
      Store(id, origin, kind, expectsResult);
    }

    // The body of the promise executor.
    method Store(id: Id, origin: string, kind: string, expectsResult: bool)
      modifies this
      ensures Snapshot() == old(Add(Snapshot(), id, origin, kind, expectsResult))
    {
      var promise := made;
      made := made + 1;
      approvals := approvals[id := promise];
      AddPendingApprovalOrigin(origin, kind);
      pending := pending[id := Request(origin, kind, expectsResult, promise)];
      count := |pending|;
    }

    method AddPendingApprovalOrigin(origin: string, kind: string)
      modifies this`origins
      ensures origins == Increment(old(origins), origin, kind)
    {
      var originMap := map[];
      if origin in origins {
        originMap := origins[origin];
      }
      var current := if kind in originMap then originMap[kind] else 0;
      origins := origins[origin := originMap[kind := current + 1]];
    }

    method DeleteRequest(id: Id)
      requires id in pending && CountAt(origins, pending[id].origin, pending[id].kind) > 0
      modifies this`approvals, this`origins, this`pending, this`count
      ensures Snapshot() == old(Delete(Snapshot(), id))
    {
      approvals := approvals - {id};
      DeleteFromOrigin(pending[id].origin, pending[id].kind);
      pending := pending - {id};
      count := |pending|;
    }

    method DeleteFromOrigin(origin: string, kind: string)
      requires CountAt(origins, origin, kind) > 0
      modifies this`origins
      ensures origins == old(Decrement(origins, origin, kind))
    {
      var originTotalCount := OriginTotal(origin);
      if originTotalCount == 1 {
        origins := origins - {origin};
      } else {
        origins := origins[origin := origins[origin][kind := origins[origin][kind] - 1]];
      }
    }

    method AcceptRequest(id: Id, wait: bool) returns (r: Outcome<Acceptance>)
      requires Valid()
      modifies this
      ensures Valid() && Snapshot() == old(Accept(Snapshot(), id, wait))
      ensures r == if old(id !in pending) then Failed(NotFound)
                   else if !wait then Done(Finished)
                   else if old(pending[id].expectsResult) then Done(AwaitsCreator)
                   else Done(Refused)
    {
      AcceptKeepsInv(Snapshot(), id, wait, exempt);
      if id !in approvals { return Failed(NotFound); }
      var promise, expectsResult := approvals[id], pending[id].expectsResult;
      DeleteAllowed(Snapshot(), id);
      DeleteRequest(id);
      if wait && !expectsResult {
        abandoned := abandoned + [promise];
        return Done(Refused);
      }
      settled := settled + [Resolved(promise)];
      r := Done(if wait then AwaitsCreator else Finished);
    }

    method RejectRequest(id: Id) returns (found: bool)
      requires Valid()
      modifies this
      ensures Valid() && Snapshot() == old(Reject(Snapshot(), id)) && found == old(id in pending)
    {
      RejectKeepsInv(Snapshot(), id, exempt);
      if id !in approvals { return false; }
      var promise := approvals[id];
      DeleteAllowed(Snapshot(), id);
      DeleteRequest(id);
      settled := settled + [Rejected(promise)];
      found := true;
    }

    method ClearRequests(order: seq<Id>)
      requires Valid() && Enumerates(order, approvals.Keys)
      modifies this
      ensures Valid() && Snapshot() == old(Clear(Snapshot(), order))
    {
      ClearRejectsAll(Snapshot(), order, exempt);
      var i := 0;
      while i < |order|
        invariant 0 <= i <= |order|
        invariant Valid() && RejectAll(Snapshot(), order[i..]) == old(RejectAll(Snapshot(), order))
      {
        assert order[i..][1..] == order[i + 1..];
        var _ := RejectRequest(order[i]);
        i := i + 1;
      }
      origins := map[];
      pending := map[];
      count := 0;
    }
  }
}
