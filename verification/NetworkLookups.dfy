/**
 Network switching and asynchronous network lookups. A lookup asks the network
 that was selected when it started and writes, when the answer comes, to the
 network selected by then; a listener that marks it stale is what keeps the two
 the same. Every await point is an interleaving point.
 */
module NetworkLookups {
  import opened Prelude

  type Id = string

  type Chain = string

  const INFURA_NETWORKS: set<Id> :=
    {"mainnet", "goerli", "sepolia", "linea-goerli", "linea-sepolia", "linea-mainnet"}

  const INTERNAL_ERROR: int := -32603

  datatype Status = Unknown | Available | Unavailable | Blocked

  datatype Metadata = Metadata(status: Status, eip1559: Option<bool>)

  // How asking a network for its latest block can turn out.
  datatype Answer =
    | Block(hasBaseFee: bool)
    | NoBlock
    | RpcError(code: int, saysInfuraBlocked: bool)
    | OtherError

  function Classify(isInfura: bool, a: Answer): Metadata {
    match a
    case Block(hasBaseFee) => Metadata(Available, Some(hasBaseFee))
    case NoBlock => Metadata(Available, None)
    case RpcError(code, blocked) =>
      Metadata(if isInfura && blocked then Blocked else if code == INTERNAL_ERROR then Unknown else Unavailable, None)
    case OtherError => Metadata(Unknown, None)
  }

  // A lookup without an argument, from its subscription to its end.
  datatype Lookup = Lookup(queried: Id, chain: Option<Chain>, isInfura: bool, networkChanged: bool, finished: bool)

  datatype Write = Write(lookup: nat, network: Id, chain: Option<Chain>, value: Metadata)

  datatype Notice = InfuraIsBlocked(lookup: nat) | InfuraIsUnblocked(lookup: nat)

  // `client` is the id of the client the global provider points to; `clients` are
  // the registered ones with the chains they are for.
  datatype State = State(
    selected: Id, previous: Id, client: Option<Id>, clients: map<Id, Chain>, metadata: map<Id, Metadata>,
    lookups: seq<Lookup>, listeners: set<nat>, writes: seq<Write>, notices: seq<Notice>)

  function ChainOf(s: State, id: Id): Option<Chain> {
    if id in s.clients then Some(s.clients[id]) else None
  }

  // ---------- Synchronous parts ----------

  // False where the source throws because no client has the id.
  function ApplyNetworkSelection(s: State, id: Id): (State, bool) {
    if id !in s.clients then (s, false)
    else
      (s.(client := Some(id), selected := id,
          metadata := if id in s.metadata then s.metadata else s.metadata[id := Metadata(Unknown, None)]), true)
  }

  // Publishing `networkDidChange`: each listener marks its lookup and unsubscribes.
  function NetworkDidChange(s: State): State {
    s.(lookups := seq(|s.lookups|, i requires 0 <= i < |s.lookups| =>
                    if i in s.listeners then s.lookups[i].(networkChanged := true) else s.lookups[i]),
       listeners := {})
  }

  function StartLookup(s: State): State {
    if s.client.None? then s
    else s.(lookups := s.lookups +
        [Lookup(s.selected, ChainOf(s, s.selected), s.client.value in INFURA_NETWORKS, false, false)],
            listeners := s.listeners + {|s.lookups|})
  }

  function RefreshNetwork(s: State, id: Id): State {
    var (applied, ok) := ApplyNetworkSelection(s, id);
    if ok then StartLookup(NetworkDidChange(applied)) else applied
  }

  function SetActiveNetwork(s: State, id: Id): State {
    RefreshNetwork(s.(previous := s.selected), id)
  }

  function InitializeProvider(s: State): State {
    var (applied, ok) := ApplyNetworkSelection(s, s.selected);
    if ok then StartLookup(applied) else applied
  }

  // The rest of a lookup, once its answer is in. Writing needs the entry to exist.
  function FinishLookup(s: State, i: nat, a: Answer): State
    requires i < |s.lookups| && (s.lookups[i].networkChanged || s.selected in s.metadata)
  {
    var l := s.lookups[i];
    var ended := s.(lookups := s.lookups[i := l.(finished := true)]);
    if l.networkChanged then ended
    else
      var value := Classify(l.isInfura, a);
      ended.(listeners := s.listeners - {i},
             metadata := s.metadata[s.selected := value],
             writes := s.writes + [Write(i, s.selected, ChainOf(s, s.selected), value)],
             notices := s.notices + (if !l.isInfura || value.status.Available? then [InfuraIsUnblocked(i)]
                                     else if value.status.Blocked? then [InfuraIsBlocked(i)] else []))
  }

  // ---------- Steps ----------

  datatype Event =
    | SetActive(id: Id)
    | ResetConnection
    | Rollback
    | Initialize
    | LookupNetwork
    | LookupById(id: Id, value: Metadata)   // its write, whenever it comes
    | AnswerArrives(lookup: nat, answer: Answer)
    | RegistryChanges(clients: map<Id, Chain>)

  predicate Enabled(s: State, e: Event) {
    e.AnswerArrives? ==> e.lookup < |s.lookups| && !s.lookups[e.lookup].finished
  }

  predicate Pending(l: Lookup) {
    !l.finished && !l.networkChanged
  }

  ghost predicate Inv(s: State) {
    && (s.client.Some? ==> s.client == Some(s.selected) && s.selected in s.metadata)
    && (s.client.None? ==> s.lookups == [])
    && (forall i :: i in s.listeners <==> 0 <= i < |s.lookups| && Pending(s.lookups[i]))
    && (forall i :: 0 <= i < |s.lookups| && Pending(s.lookups[i]) ==> s.lookups[i].queried == s.selected)
    && (forall i :: 0 <= i < |s.lookups| ==>
          && s.lookups[i].queried in s.metadata
          && s.lookups[i].isInfura == (s.lookups[i].queried in INFURA_NETWORKS))
  }

  // What was written, and announced, so far.
  ghost predicate WritesFit(s: State) {
    && (forall k :: 0 <= k < |s.writes| ==>
          var w := s.writes[k];
          && w.lookup < |s.lookups| && w.network == s.lookups[w.lookup].queried && w.network in s.metadata
          && s.lookups[w.lookup].finished && !s.lookups[w.lookup].networkChanged)
    && (forall j, k :: 0 <= j < k < |s.writes| ==> s.writes[j].lookup != s.writes[k].lookup)
    && (forall k :: 0 <= k < |s.notices| && s.notices[k].InfuraIsBlocked? ==>
          s.notices[k].lookup < |s.lookups| && s.lookups[s.notices[k].lookup].queried in INFURA_NETWORKS)
  }

  function Step(s: State, e: Event): State
    requires Enabled(s, e) && Inv(s)
  {
    match e
    case SetActive(id) => SetActiveNetwork(s, id)
    case ResetConnection => RefreshNetwork(s, s.selected)
    case Rollback => RefreshNetwork(s, s.previous)
    case Initialize => InitializeProvider(s)
    case LookupNetwork => StartLookup(s)
    case LookupById(id, value) => s.(metadata := s.metadata[id := value])
    case AnswerArrives(i, a) => FinishLookup(s, i, a)
    case RegistryChanges(clients) => s.(clients := clients)
  }

  lemma RefreshKeepsInv(s: State, id: Id)
    requires Inv(s) && WritesFit(s)
    ensures Inv(RefreshNetwork(s, id)) && WritesFit(RefreshNetwork(s, id))
  {
    var (applied, ok) := ApplyNetworkSelection(s, id);
    if ok {
      var notified := NetworkDidChange(applied);
      assert Inv(notified);
      assert WritesFit(notified);
      StartKeepsInv(notified);
    }
  }

  lemma StartKeepsInv(s: State)
    requires Inv(s) && WritesFit(s)
    ensures Inv(StartLookup(s)) && WritesFit(StartLookup(s))
  {
  }

  lemma FinishKeepsInv(s: State, i: nat, a: Answer)
    requires Inv(s) && i < |s.lookups| && !s.lookups[i].finished
    requires s.lookups[i].networkChanged || s.selected in s.metadata
    ensures Inv(FinishLookup(s, i, a))
  {
  }

  lemma FinishKeepsWrites(s: State, i: nat, a: Answer)
    requires Inv(s) && WritesFit(s) && i < |s.lookups| && !s.lookups[i].finished
    requires s.lookups[i].networkChanged || s.selected in s.metadata
    ensures WritesFit(FinishLookup(s, i, a))
  {
  }

  lemma StepKeepsInv(s: State, e: Event)
    requires Enabled(s, e) && Inv(s) && WritesFit(s)
    ensures Inv(Step(s, e)) && WritesFit(Step(s, e))
  {
    match e
    case SetActive(id) => RefreshKeepsInv(s.(previous := s.selected), id);
    case ResetConnection => RefreshKeepsInv(s, s.selected);
    case Rollback => RefreshKeepsInv(s, s.previous);
    case Initialize =>
      var (applied, ok) := ApplyNetworkSelection(s, s.selected);
      if ok { StartKeepsInv(applied); }
    case LookupNetwork => StartKeepsInv(s);
    case LookupById(id, value) =>
    case AnswerArrives(i, a) =>
      FinishKeepsInv(s, i, a);
      FinishKeepsWrites(s, i, a);
    case RegistryChanges(clients) =>
  }

  // ---------- Whole runs ----------

  function Initial(selected: Id, clients: map<Id, Chain>, metadata: map<Id, Metadata>): State {
    State(selected, selected, None, clients, metadata, [], {}, [], [])
  }

  ghost predicate IsRun(s: State, es: seq<Event>)
    requires Inv(s) && WritesFit(s)
    decreases |es|
  {
    es == [] ||
    (Enabled(s, es[0]) && (StepKeepsInv(s, es[0]); IsRun(Step(s, es[0]), es[1..])))
  }

  ghost function After(s: State, es: seq<Event>): (s': State)
    requires Inv(s) && WritesFit(s) && IsRun(s, es)
    ensures Inv(s') && WritesFit(s')
    decreases |es|
  {
    if es == [] then s else StepKeepsInv(s, es[0]); After(Step(s, es[0]), es[1..])
  }

  /** In every interleaving: a lookup writes at most once, to the entry of the
      network it asked, which exists; one whose network changed under it never
      writes; the listeners left are exactly those of the lookups still going and
      not made stale; and only an Infura network is ever announced as blocked. */
  lemma LookupsWriteToTheirOwnNetwork(selected: Id, clients: map<Id, Chain>, metadata: map<Id, Metadata>,
      es: seq<Event>)
    requires IsRun(Initial(selected, clients, metadata), es)
    ensures var s := After(Initial(selected, clients, metadata), es);
            && (forall k :: 0 <= k < |s.writes| ==>
                  && s.writes[k].lookup < |s.lookups|
                  && s.writes[k].network == s.lookups[s.writes[k].lookup].queried
                  && s.writes[k].network in s.metadata
                  && !s.lookups[s.writes[k].lookup].networkChanged)
            && (forall j, k :: 0 <= j < k < |s.writes| ==> s.writes[j].lookup != s.writes[k].lookup)
            && (forall i :: i in s.listeners <==> 0 <= i < |s.lookups| && Pending(s.lookups[i]))
            && (forall k :: 0 <= k < |s.notices| && s.notices[k].InfuraIsBlocked? ==>
                  s.notices[k].lookup < |s.lookups| && s.lookups[s.notices[k].lookup].queried in INFURA_NETWORKS)
  {
    var s := After(Initial(selected, clients, metadata), es);
    assert Inv(s) && WritesFit(s);
  }

  /** Each step changes only the entry of the network the answering lookup asked,
      the entry named by a lookup by id, or adds an entry for a newly selected one. */
  lemma OtherEntriesUntouched(s: State, e: Event, id: Id)
    requires Enabled(s, e) && Inv(s) && id in s.metadata
    requires e.LookupById? ==> e.id != id
    requires e.AnswerArrives? ==> s.lookups[e.lookup].queried != id || s.lookups[e.lookup].networkChanged
    ensures id in Step(s, e).metadata && Step(s, e).metadata[id] == s.metadata[id]
  {
    if e.AnswerArrives? && !s.lookups[e.lookup].networkChanged {
      assert Pending(s.lookups[e.lookup]);
    }
  }

  // ---------- The chain asked and the chain recorded ----------

  // A lookup still going asked the chain its network is on now.
  ghost predicate PendingChains(s: State) {
    forall i :: 0 <= i < |s.lookups| && Pending(s.lookups[i]) ==> s.lookups[i].chain == ChainOf(s, s.selected)
  }

  ghost predicate WritesMatchChains(s: State) {
    forall k :: 0 <= k < |s.writes| ==>
      s.writes[k].lookup < |s.lookups| && s.writes[k].chain == s.lookups[s.writes[k].lookup].chain
  }

  // A change of the registry leaves the selected network its chain, or finds no lookup going.
  ghost predicate KeepsChain(s: State, e: Event) {
    e.RegistryChanges? ==>
      || ChainOf(s.(clients := e.clients), s.selected) == ChainOf(s, s.selected)
      || forall i :: 0 <= i < |s.lookups| ==> !Pending(s.lookups[i])
  }

  lemma StepKeepsChains(s: State, e: Event)
    requires Enabled(s, e) && Inv(s) && PendingChains(s) && WritesMatchChains(s) && KeepsChain(s, e)
    ensures PendingChains(Step(s, e)) && WritesMatchChains(Step(s, e))
  {
    match e
    case SetActive(id) => RefreshKeepsChains(s.(previous := s.selected), id);
    case ResetConnection => RefreshKeepsChains(s, s.selected);
    case Rollback => RefreshKeepsChains(s, s.previous);
    case AnswerArrives(i, a) => assert !s.lookups[i].networkChanged ==> Pending(s.lookups[i]);
    case _ =>
  }

  lemma RefreshKeepsChains(s: State, id: Id)
    requires Inv(s) && PendingChains(s) && WritesMatchChains(s)
    ensures PendingChains(RefreshNetwork(s, id)) && WritesMatchChains(RefreshNetwork(s, id))
  {
    var (applied, ok) := ApplyNetworkSelection(s, id);
    if ok {
      var notified := NetworkDidChange(applied);
      assert forall i :: 0 <= i < |notified.lookups| ==> !Pending(notified.lookups[i]);
    }
  }

  ghost predicate AllKeepChain(s: State, es: seq<Event>)
    requires Inv(s) && WritesFit(s) && IsRun(s, es)
    decreases |es|
  {
    es == [] || (KeepsChain(s, es[0]) && (StepKeepsInv(s, es[0]); AllKeepChain(Step(s, es[0]), es[1..])))
  }

  /** Over every run in which the registry does not change the chain of the selected
      network during a lookup, each result is recorded for the chain that was asked. */
  lemma {:induction false} WritesMatchTheirChain(s: State, es: seq<Event>)
    requires Inv(s) && WritesFit(s) && IsRun(s, es) && PendingChains(s) && WritesMatchChains(s) && AllKeepChain(s, es)
    ensures WritesMatchChains(After(s, es))
    decreases |es|
  {
    if es != [] {
      StepKeepsInv(s, es[0]);
      StepKeepsChains(s, es[0]);
      WritesMatchTheirChain(Step(s, es[0]), es[1..]);
    }
  }

  // A lookup that is still valid when answered asked the chain its network is on by then.
  predicate AnswersOnChain(s: State, e: Event)
    requires Enabled(s, e)
  {
    e.AnswerArrives? && !s.lookups[e.lookup].networkChanged ==>
      s.lookups[e.lookup].chain == ChainOf(s, s.selected)
  }

  ghost predicate AllAnswerOnChain(s: State, es: seq<Event>)
    requires Inv(s) && WritesFit(s) && IsRun(s, es)
    decreases |es|
  {
    es == [] || (AnswersOnChain(s, es[0]) && (StepKeepsInv(s, es[0]); AllAnswerOnChain(Step(s, es[0]), es[1..])))
  }

  // A step adds lookups and writes, and changes neither the chains asked nor those recorded.
  lemma StepRecords(s: State, e: Event)
    requires Enabled(s, e) && Inv(s)
    ensures var s' := Step(s, e);
            && |s.lookups| <= |s'.lookups|
            && (forall i :: 0 <= i < |s.lookups| ==> s'.lookups[i].chain == s.lookups[i].chain)
            && s'.writes == s.writes +
                 (if e.AnswerArrives? && !s.lookups[e.lookup].networkChanged then [s'.writes[|s'.writes| - 1]] else [])
            && (e.AnswerArrives? && !s.lookups[e.lookup].networkChanged ==>
                  s'.writes[|s'.writes| - 1].lookup == e.lookup &&
                      s'.writes[|s'.writes| - 1].chain == ChainOf(s, s.selected))
  {
  }

  lemma StepMatchesIff(s: State, e: Event)
    requires Enabled(s, e) && Inv(s) && WritesFit(s)
    ensures WritesMatchChains(Step(s, e)) <==> WritesMatchChains(s) && AnswersOnChain(s, e)
  {
    var s' := Step(s, e);
    StepRecords(s, e);
    assert forall k :: 0 <= k < |s.writes| ==> s'.writes[k] == s.writes[k];
  }

  /** Over every run, all results are recorded for the chains that were asked exactly if
      those before are, and each valid lookup answered in the run is answered while the
      selected network is on the chain that lookup asked. */
  lemma {:induction false} WritesMatchChainsIff(s: State, es: seq<Event>)
    requires Inv(s) && WritesFit(s) && IsRun(s, es)
    ensures WritesMatchChains(After(s, es)) <==> WritesMatchChains(s) && AllAnswerOnChain(s, es)
    decreases |es|
  {
    if es != [] {
      StepKeepsInv(s, es[0]);
      StepMatchesIff(s, es[0]);
      WritesMatchChainsIff(Step(s, es[0]), es[1..]);
    }
  }

  /** If it does change it, the answer then recorded is for the chain asked exactly if
      the network is on the same chain as before. */
  lemma ChainChangeGoesUnnoticedIff(s: State, clients: map<Id, Chain>, i: nat, a: Answer)
    requires Inv(s) && WritesFit(s) && PendingChains(s) && i < |s.lookups| && Pending(s.lookups[i])
    ensures var changed := Step(s, RegistryChanges(clients));
            && Inv(changed) && Enabled(changed, AnswerArrives(i, a))
            && var w := Step(changed, AnswerArrives(i, a)).writes[|s.writes|];
               w.lookup == i && (w.chain == s.lookups[i].chain <==>
                   ChainOf(changed, s.selected) == ChainOf(s, s.selected))
  {
    StepKeepsInv(s, RegistryChanges(clients));
  }

  // ---------- The controller ----------

  class NetworkController {
    var selected: Id
    var previous: Id
    var client: Option<Id>
    var clients: map<Id, Chain>
    var metadata: map<Id, Metadata>
    var lookups: seq<Lookup>
    var listeners: set<nat>
    var writes: seq<Write>
    var notices: seq<Notice>

    function Now(): State
      reads this
    {
      State(selected, previous, client, clients, metadata, lookups, listeners, writes, notices)
    }

    constructor (selected: Id, clients: map<Id, Chain>, metadata: map<Id, Metadata>)
      ensures Now() == Initial(selected, clients, metadata)
    {
      this.selected, this.previous, this.clients, this.metadata := selected, selected, clients, metadata;
      client, lookups, listeners, writes, notices := None, [], {}, [], [];
    }

    method SelectNetwork(id: Id) returns (ok: bool)
      modifies this
      ensures (Now(), ok) == ApplyNetworkSelection(old(Now()), id)
    {
      if id !in clients {
        return false;
      }
      client := Some(id);
      selected := id;
      if id !in metadata {
        metadata := metadata[id := Metadata(Unknown, None)];
      }
      ok := true;
    }

    method PublishDidChange()
      requires forall i :: i in listeners ==> i < |lookups|
      modifies this
      ensures Now() == NetworkDidChange(old(Now()))
    {
      ghost var before := Now();
      while listeners != {}
        invariant listeners <= before.listeners && |lookups| == |before.lookups|
        invariant forall i :: i in listeners ==> i < |lookups|
        invariant Now() == before.(lookups := lookups, listeners := listeners)
        invariant forall i :: 0 <= i < |lookups| ==>
                    lookups[i] == if i in before.listeners && i !in listeners
                                  then before.lookups[i].(networkChanged := true) else before.lookups[i]
        decreases |listeners|
      {
        var i :| i in listeners;
        lookups := lookups[i := lookups[i].(networkChanged := true)];
        listeners := listeners - {i};
      }
    }

    method BeginLookup()
      modifies this
      ensures Now() == StartLookup(old(Now()))
    {
      if client.None? {
        return;
      }
      var isInfura := client.value in INFURA_NETWORKS;
      listeners := listeners + {|lookups|};
      var chain := if selected in clients then Some(clients[selected]) else None;
      lookups := lookups + [Lookup(selected, chain, isInfura, false, false)];
    }

    method Refresh(id: Id)
      requires Inv(Now())
      modifies this
      ensures Now() == RefreshNetwork(old(Now()), id)
    {
      var ok := SelectNetwork(id);
      if ok {
        PublishDidChange();
        BeginLookup();
      }
    }

    method SetActive(id: Id)
      requires Inv(Now())
      modifies this
      ensures Now() == SetActiveNetwork(old(Now()), id)
    {
      previous := selected;
      Refresh(id);
    }

    method Reset()
      requires Inv(Now())
      modifies this
      ensures Now() == RefreshNetwork(old(Now()), old(selected))
    {
      Refresh(selected);
    }

    method RollbackToPreviousProvider()
      requires Inv(Now())
      modifies this
      ensures Now() == RefreshNetwork(old(Now()), old(previous))
    {
      Refresh(previous);
    }

    method Initialize()
      modifies this
      ensures Now() == InitializeProvider(old(Now()))
    {
      var ok := SelectNetwork(selected);
      if ok {
        BeginLookup();
      }
    }

    method EndLookup(i: nat, a: Answer)
      requires Inv(Now()) && i < |lookups| && !lookups[i].finished
      modifies this
      ensures Now() == FinishLookup(old(Now()), i, a)
    {
      var l := lookups[i];
      lookups := lookups[i := l.(finished := true)];
      if l.networkChanged {
        return;
      }
      listeners := listeners - {i};
      var value := Classify(l.isInfura, a);
      metadata := metadata[selected := value];
      writes := writes + [Write(i, selected, if selected in clients then Some(clients[selected]) else None, value)];
      if l.isInfura {
        if value.status.Available? {
          notices := notices + [InfuraIsUnblocked(i)];
        } else if value.status.Blocked? {
          notices := notices + [InfuraIsBlocked(i)];
        }
      } else {
        notices := notices + [InfuraIsUnblocked(i)];
      }
    }
  }

  // ---------- A write without the guard ----------

  // The end of `getEIP1559Compatibility`: an answer goes to the network selected by now.
  function FinishCompatibility(s: State, answer: Option<bool>): State
    requires s.selected in s.metadata
  {
    if answer.None? then s
    else s.(metadata := s.metadata[s.selected := s.metadata[s.selected].(eip1559 := answer)])
  }

  // The network an event selects, if it does.
  function Selects(s: State, e: Event): Option<Id> {
    var id := match e
      case SetActive(id) => Some(id)
      case Rollback => Some(s.previous)
      case ResetConnection => Some(s.selected)
      case Initialize => Some(s.selected)
      case _ => None;
    if id.Some? && id.value in s.clients then id else None
  }

  // The networks successfully selected during a run.
  ghost function Selections(s: State, es: seq<Event>): seq<Id>
    requires Inv(s) && WritesFit(s) && IsRun(s, es)
    decreases |es|
  {
    if es == [] then []
    else
      StepKeepsInv(s, es[0]);
      (if Selects(s, es[0]).Some? then [Selects(s, es[0]).value] else []) + Selections(Step(s, es[0]), es[1..])
  }

  lemma StepSelects(s: State, e: Event)
    requires Enabled(s, e) && Inv(s)
    ensures Step(s, e).selected == (if Selects(s, e).Some? then Selects(s, e).value else s.selected)
    ensures s.client.Some? ==> Step(s, e).client.Some?
  {
  }

  /** After a run the network selected last is the selected one. */
  lemma {:induction false} LastSelectionCounts(s: State, es: seq<Event>)
    requires Inv(s) && WritesFit(s) && IsRun(s, es)
    ensures var ids := Selections(s, es);
            After(s, es).selected == if ids == [] then s.selected else ids[|ids| - 1]
    ensures s.client.Some? ==> After(s, es).client.Some?
    decreases |es|
  {
    if es != [] {
      StepKeepsInv(s, es[0]);
      StepSelects(s, es[0]);
      LastSelectionCounts(Step(s, es[0]), es[1..]);
    }
  }

  predicate LeavesOthers(before: map<Id, Metadata>, after: map<Id, Metadata>, id: Id) {
    after.Keys == before.Keys && forall x :: x in before && x != id ==> after[x] == before[x]
  }

  /** Asked of one network and answered after any run, the answer leaves the other
      networks alone exactly if the last network selected in the run is the one asked,
      or none was, or the network then selected already holds that answer. */
  lemma UnguardedWriteStaysHomeIff(s: State, es: seq<Event>, compatible: bool)
    requires Inv(s) && WritesFit(s) && IsRun(s, es) && s.client.Some?
    ensures var later, ids := After(s, es), Selections(s, es);
            && later.selected in later.metadata
            && (LeavesOthers(later.metadata, FinishCompatibility(later, Some(compatible)).metadata, s.selected) <==>
                ids == [] || ids[|ids| - 1] == s.selected || later.metadata[later.selected].eip1559 == Some(compatible))
  {
    LastSelectionCounts(s, es);
    var later := After(s, es);
    var m := FinishCompatibility(later, Some(compatible)).metadata;
    if LeavesOthers(later.metadata, m, s.selected) && later.selected != s.selected {
      assert m[later.selected] == later.metadata[later.selected];
    }
  }
}
