/**
 Custom network configurations and the registry of network clients built from
 them on first use. Upserting and removing keep the two in step.
 */
module NetworkRegistry {
  import opened Prelude
  import Numerals

  type Id = string

  const MAX_SAFE_CHAIN_ID: nat := 4503599627370476

  datatype Fields = Fields(rpcUrl: string, chainId: string, ticker: string, nickname: Option<string>,
      rpcPrefs: Option<string>)

  datatype Config = Config(id: Id, fields: Fields)

  // The configuration a client was created with.
  datatype Client = Client(chainId: string, rpcUrl: string, ticker: string)

  datatype Error =
    | InvalidChainId | MissingRpcUrl | MissingReferrerOrSource | InvalidUrl | MissingTicker | NotConfigured(id: Id)

  // `registry` is absent until something needs it.
  datatype State = State(configs: map<Id, Config>, registry: Option<map<Id, Client>>)

  predicate IsStrictHex(s: string) {
    |s| > 2 && s[0] == '0' && s[1] in "xX" && Numerals.IsNumeral(s[2..], 16)
  }

  predicate IsSafeChainId(s: string) {
    IsStrictHex(s) && 0 < Numerals.Value(s[2..], 16) <= MAX_SAFE_CHAIN_ID
  }

  function Check(f: Fields, referrer: string, source: string, isUrl: string -> bool): Option<Error> {
    if !IsSafeChainId(f.chainId) then Some(InvalidChainId)
    else if f.rpcUrl == "" then Some(MissingRpcUrl)
    else if referrer == "" || source == "" then Some(MissingReferrerOrSource)
    else if !isUrl(f.rpcUrl) then Some(InvalidUrl)
    else if f.ticker == "" then Some(MissingTicker)
    else None
  }

  function ClientFor(f: Fields): Client {
    Client(f.chainId, f.rpcUrl, f.ticker)
  }

  function Populated(s: State): map<Id, Client> {
    if s.registry.Some? then s.registry.value else map id | id in s.configs :: ClientFor(s.configs[id].fields)
  }

  predicate SameUrl(a: Config, url: string) {
    Lower(a.fields.rpcUrl) == Lower(url)
  }

  // The configuration an upsert overwrites, or the fresh id it files a new one under.
  ghost function TargetId(s: State, url: string, newId: Id): Id {
    if exists id :: id in s.configs && SameUrl(s.configs[id], url)
    then var id :| id in s.configs && SameUrl(s.configs[id], url); s.configs[id].id
    else newId
  }

  // An existing client is kept unless the chain changes.
  function UpsertAt(s: State, id: Id, f: Fields): State {
    var clients := Populated(s);
    State(s.configs[id := Config(id, f)],
          Some(if id in clients && clients[id].chainId == f.chainId then clients else clients[id := ClientFor(f)]))
  }

  ghost function Upsert(s: State, f: Fields, newId: Id): State {
    UpsertAt(s, TargetId(s, f.rpcUrl, newId), f)
  }

  function Remove(s: State, id: Id): State {
    State(s.configs - {id}, Some(Populated(s) - {id}))
  }

  // ---------- The invariant ----------

  ghost predicate KeyedById(s: State) {
    forall id :: id in s.configs ==> s.configs[id].id == id
  }

  ghost predicate UrlsDistinct(s: State) {
    forall a, b :: a in s.configs && b in s.configs && a != b ==> !SameUrl(s.configs[a], s.configs[b].fields.rpcUrl)
  }

  ghost predicate InStep(s: State) {
    s.registry.Some? ==>
      && s.registry.value.Keys == s.configs.Keys
      && forall id :: id in s.configs ==> s.registry.value[id].chainId == s.configs[id].fields.chainId
  }

  ghost predicate Inv(s: State) {
    KeyedById(s) && UrlsDistinct(s) && InStep(s)
  }

  lemma TargetIs(s: State, url: string, newId: Id, id: Id)
    requires Inv(s) && id in s.configs && SameUrl(s.configs[id], url)
    ensures TargetId(s, url, newId) == id
  {
  }

  lemma UpsertKeepsInv(s: State, f: Fields, newId: Id)
    requires Inv(s) && newId !in s.configs
    ensures Inv(Upsert(s, f, newId))
    ensures var id := TargetId(s, f.rpcUrl, newId);
            id == newId || (id in s.configs && SameUrl(s.configs[id], f.rpcUrl))
  {
    var id := TargetId(s, f.rpcUrl, newId);
    var s' := Upsert(s, f, newId);
    forall a, b | a in s'.configs && b in s'.configs && a != b
      ensures !SameUrl(s'.configs[a], s'.configs[b].fields.rpcUrl)
    {
      if a == id && SameUrl(s.configs[b], f.rpcUrl) { TargetIs(s, f.rpcUrl, newId, b); }
      if b == id && SameUrl(s.configs[a], f.rpcUrl) { TargetIs(s, f.rpcUrl, newId, a); }
    }
  }

  lemma RemoveKeepsInv(s: State, id: Id)
    requires Inv(s) && id in s.configs
    ensures Inv(Remove(s, id))
  {
  }

  datatype Operation =
    | DoUpsert(fields: Fields, referrer: string, source: string, newId: Id)
    | DoRemove(id: Id)
    | UseRegistry

  ghost function Step(s: State, op: Operation, isUrl: string -> bool): State {
    match op
    case DoUpsert(f, referrer, source, newId) =>
      if Check(f, referrer, source, isUrl).Some? then s else Upsert(s, f, newId)
    case DoRemove(id) => if id in s.configs then Remove(s, id) else s
    case UseRegistry => s.(registry := Some(Populated(s)))
  }

  // Random ids are fresh.
  ghost predicate IsRun(s: State, ops: seq<Operation>, isUrl: string -> bool)
    decreases |ops|
  {
    ops == [] ||
    ((ops[0].DoUpsert? ==> ops[0].newId !in s.configs) && IsRun(Step(s, ops[0], isUrl), ops[1..], isUrl))
  }

  ghost function After(s: State, ops: seq<Operation>, isUrl: string -> bool): State
    decreases |ops|
  {
    if ops == [] then s else After(Step(s, ops[0], isUrl), ops[1..], isUrl)
  }

  /** Over every run of upserts and removals, failed ones included: RPC URLs stay
      distinct, ignoring case, and the populated registry has the ids of the
      configurations with the chain id of each. */
  lemma {:induction false} RegistryStaysInStep(s: State, ops: seq<Operation>, isUrl: string -> bool)
    requires Inv(s) && IsRun(s, ops, isUrl)
    ensures UrlsDistinct(After(s, ops, isUrl)) && InStep(After(s, ops, isUrl)) && KeyedById(After(s, ops, isUrl))
    decreases |ops|
  {
    if ops != [] {
      match ops[0] {
        case DoUpsert(f, _, _, newId) => UpsertKeepsInv(s, f, newId);
        case DoRemove(id) => if id in s.configs { RemoveKeepsInv(s, id); }
        case UseRegistry =>
      }
      RegistryStaysInStep(Step(s, ops[0], isUrl), ops[1..], isUrl);
    }
  }

  /** The client left by an upsert is the one its configuration describes exactly
      when it was created by it, or neither URL spelling nor ticker changed. */
  lemma UpsertedClientIsCurrentIff(s: State, f: Fields, newId: Id)
    requires Inv(s) && newId !in s.configs
    ensures var id := TargetId(s, f.rpcUrl, newId);
            var was := Populated(s);
            Populated(Upsert(s, f, newId))[id] == ClientFor(f) <==>
            (id in was && was[id].chainId == f.chainId ==> was[id].rpcUrl == f.rpcUrl && was[id].ticker == f.ticker)
  {
    UpsertKeepsInv(s, f, newId);
  }

  /** A new ticker for a known network: the configuration has it, the client does not. */
  lemma TickerGoesStale(s: State, id: Id, ticker: string, newId: Id)
    requires Inv(s) && id in s.configs && newId !in s.configs && s.registry.None?
    requires ticker != s.configs[id].fields.ticker
    ensures var s' := Upsert(s, s.configs[id].fields.(ticker := ticker), newId);
            && s'.configs[id].fields.ticker == ticker
            && id in Populated(s') && Populated(s')[id].ticker == s.configs[id].fields.ticker
  {
    TargetIs(s, s.configs[id].fields.rpcUrl, newId, id);
  }

  // ---------- The controller ----------

  class NetworkController {
    const isUrl: string -> bool
    var configs: map<Id, Config>
    var registry: Option<map<Id, Client>>
    // Clients destroyed so far.
    var destroyed: seq<Client>

    constructor (configs: map<Id, Config>, isUrl: string -> bool)
      ensures Now() == State(configs, None) && this.isUrl == isUrl && destroyed == []
    {
      this.configs, this.isUrl := configs, isUrl;
      registry, destroyed := None, [];
    }

    function Now(): State
      reads this
    {
      State(configs, registry)
    }

    method EnsurePopulated() returns (clients: map<Id, Client>)
      modifies this`registry
      ensures clients == Populated(old(Now())) && Now() == old(Now()).(registry := Some(clients))
    {
      clients := Populated(Now());
      registry := Some(clients);
    }

    method FindByUrl(url: string) returns (found: Option<Config>)
      ensures found.Some? ==> exists id :: id in configs && configs[id] == found.value && SameUrl(found.value, url)
      ensures found.None? ==> forall id :: id in configs ==> !SameUrl(configs[id], url)
    {
      found := None;
      var left := configs.Keys;
      while left != {}
        invariant left <= configs.Keys
        invariant forall id :: id in configs.Keys - left ==> !SameUrl(configs[id], url)
        decreases |left|
      {
        var id :| id in left;
        if SameUrl(configs[id], url) {
          return Some(configs[id]);
        }
        left := left - {id};
      }
    }

    // `active` is the network it then switches to, if it is asked to.
    method UpsertNetworkConfiguration(f: Fields, referrer: string, source: string, newId: Id, setActive: bool)
      returns (error: Option<Error>, id: Id, active: Option<Id>)
      requires Inv(Now()) && newId !in configs
      modifies this
      ensures error == Check(f, referrer, source, isUrl)
      ensures Now() == Step(old(Now()), DoUpsert(f, referrer, source, newId), isUrl)
      ensures error.None? ==> id == TargetId(old(Now()), f.rpcUrl, newId)
      ensures active == if error.None? && setActive then Some(id) else None
      ensures destroyed == if error.None? && id in Populated(old(Now())) &&
          Populated(old(Now()))[id].chainId != f.chainId
                           then old(destroyed) + [Populated(old(Now()))[id]] else old(destroyed)
    {
      id, active := "", None;
      error := Check(f, referrer, source, isUrl);
      if error.Some? {
        return;
      }
      var clients := EnsurePopulated();
      var existing := FindByUrl(f.rpcUrl);
      id := if existing.Some? then existing.value.id else newId;
      if existing.Some? {
        TargetIs(old(Now()), f.rpcUrl, newId, id);
      }
      var shouldDestroy := id in clients && clients[id].chainId != f.chainId;
      if shouldDestroy {
        destroyed := destroyed + [clients[id]];
      }
      if id !in clients || shouldDestroy {
        registry := Some(clients[id := ClientFor(f)]);
      }
      configs := configs[id := Config(id, f)];
      if setActive {
        active := Some(id);
      }
    }

    method RemoveNetworkConfiguration(id: Id) returns (error: Option<Error>)
      requires Inv(Now())
      modifies this
      ensures error == if id in old(configs) then None else Some(NotConfigured(id))
      ensures Now() == Step(old(Now()), DoRemove(id), isUrl)
      ensures destroyed == if error.None? then old(destroyed) + [Populated(old(Now()))[id]] else old(destroyed)
    {
      if id !in configs {
        return Some(NotConfigured(id));
      }
      var clients := EnsurePopulated();
      configs := configs - {id};
      destroyed := destroyed + [clients[id]];
      registry := Some(clients - {id});
      error := None;
    }
  }
}
