/**
 Following the keyrings: after a keyring change the controller's normal accounts
 are those of the keyrings, the accounts that were there keep their names, and
 the selection names an account again.
 */
module AccountSync {
  import opened Prelude
  import opened AccountNames

  datatype Keyring = Keyring(kind: string, addresses: seq<string>)

  datatype Listed = Listed(address: string, kind: string)

  // Accounts in the order they were filed.
  datatype State = State(accounts: seq<Account>, selected: Id)

  datatype Handled = Handled(state: State, threw: bool)

  // The id of a normal account follows from its address; `find` asks the snap keyring.
  datatype Env = Env(uid: string -> Id, find: string -> Option<Account>, now: int, js: Numbers)

  // ---------- What the keyrings list ----------

  function ListingOf(kind: string, addresses: seq<string>): (r: seq<Listed>)
    ensures forall x :: x in r <==> x.kind == kind && x.address in addresses
  {
    if addresses == [] then []
    else ListingOf(kind, addresses[..|addresses| - 1]) + [Listed(addresses[|addresses| - 1], kind)]
  }

  predicate Lists(k: Keyring, snap: bool, x: Listed) {
    (k.kind == SNAP) == snap && x.kind == k.kind && x.address in k.addresses
  }

  function Listing(ks: seq<Keyring>, snap: bool): seq<Listed> {
    if ks == [] then []
    else
      var k := ks[|ks| - 1];
      Listing(ks[..|ks| - 1], snap) + if (k.kind == SNAP) == snap then ListingOf(k.kind, k.addresses) else []
  }

  lemma {:induction false} ListingIff(ks: seq<Keyring>, snap: bool, x: Listed)
    ensures x in Listing(ks, snap) <==> exists k :: k in ks && Lists(k, snap, x)
  {
    if ks != [] {
      var front, last := ks[..|ks| - 1], ks[|ks| - 1];
      ListingIff(front, snap, x);
      assert last in ks && forall k :: k in front ==> k in ks;
      assert forall k :: k in ks ==> k in front || k == last;
    }
  }

  // ---------- Accounts by id and address ----------

  predicate Distinct(accounts: seq<Account>) {
    forall i, j :: 0 <= i < j < |accounts| ==> accounts[i].id != accounts[j].id
  }

  predicate AtAddress(accounts: seq<Account>, address: string) {
    exists a :: a in accounts && Lower(a.address) == Lower(address)
  }

  predicate IsListed(xs: seq<Listed>, address: string) {
    exists x :: x in xs && Lower(x.address) == Lower(address)
  }

  function ListEvm(accounts: seq<Account>, snap: bool): (r: seq<Account>)
    ensures forall a :: a in r <==> a in accounts && a.evm && (a.keyring == SNAP) == snap
  {
    if accounts == [] then []
    else
      var a := accounts[|accounts| - 1];
      ListEvm(accounts[..|accounts| - 1], snap) + if a.evm && (a.keyring == SNAP) == snap then [a] else []
  }

  // ---------- The difference with what is listed ----------

  function NewNormal(xs: seq<Listed>, accounts: seq<Account>, uid: string -> Id): (r: seq<Listed>)
    ensures forall x :: x in r <==> x in xs && !HasId(accounts, uid(x.address))
  {
    if xs == [] then []
    else
      var x := xs[|xs| - 1];
      NewNormal(xs[..|xs| - 1], accounts, uid) + if HasId(accounts, uid(x.address)) then [] else [x]
  }

  function NewSnap(xs: seq<Listed>, snaps: seq<Account>): (r: seq<Listed>)
    ensures forall x :: x in r <==> x in xs && !AtAddress(snaps, x.address)
  {
    if xs == [] then []
    else
      var x := xs[|xs| - 1];
      NewSnap(xs[..|xs| - 1], snaps) + if AtAddress(snaps, x.address) then [] else [x]
  }

  function Gone(accounts: seq<Account>, xs: seq<Listed>): (r: seq<Account>)
    ensures forall a :: a in r <==> a in accounts && !IsListed(xs, a.address)
  {
    if accounts == [] then []
    else
      var a := accounts[|accounts| - 1];
      Gone(accounts[..|accounts| - 1], xs) + if IsListed(xs, a.address) then [] else [a]
  }

  // ---------- Removing, adding and selecting ----------

  function Without(accounts: seq<Account>, id: Id): (r: seq<Account>)
    ensures forall a :: a in r <==> a in accounts && a.id != id
  {
    if accounts == [] then []
    else
      var a := accounts[|accounts| - 1];
      Without(accounts[..|accounts| - 1], id) + if a.id == id then [] else [a]
  }

  function RemoveAll(accounts: seq<Account>, gone: seq<Account>): (r: seq<Account>)
    ensures forall a :: a in r <==> a in accounts && !HasId(gone, a.id)
    decreases |gone|
  {
    if gone == [] then accounts
    else Without(RemoveAll(accounts, gone[..|gone| - 1]), gone[|gone| - 1].id)
  }

  function Candidate(x: Listed, env: Env): Option<Account> {
    if x.kind != SNAP then Some(Account(env.uid(x.address), x.address, true, x.kind, "", 0, None))
    else env.find(x.address)
  }

  datatype Progress = Progress(accounts: seq<Account>, threw: bool)

  // Naming throws for a keyring type it does not know; a snap account may be gone again.
  function AddOne(accounts: seq<Account>, x: Listed, env: Env): Progress {
    match Candidate(x, env)
    case None => Progress(accounts, false)
    case Some(a) =>
      if KeyringName(a.keyring).None? then Progress(accounts, true)
      else Progress(AddNamed(accounts, a.(importTime := env.now, lastSelected := Some(0)), env.js), false)
  }

  function AddAll(accounts: seq<Account>, xs: seq<Listed>, env: Env): Progress
    decreases |xs|
  {
    if xs == [] then Progress(accounts, false)
    else
      var before := AddAll(accounts, xs[..|xs| - 1], env);
      if before.threw then before else AddOne(before.accounts, xs[|xs| - 1], env)
  }

  function LastSelected(a: Account): int {
    if a.lastSelected.Some? then a.lastSelected.value else 0
  }

  // The head of a stable descending sort by last selection.
  function MostRecent(accounts: seq<Account>): (r: Option<Account>)
    ensures r.None? <==> forall a :: a in accounts ==> !a.evm
    ensures r.Some? ==> r.value in accounts && r.value.evm
    ensures r.Some? ==> forall a :: a in accounts && a.evm ==> LastSelected(a) <= LastSelected(r.value)
  {
    if accounts == [] then None
    else
      var best, a := MostRecent(accounts[..|accounts| - 1]), accounts[|accounts| - 1];
      if a.evm && (best.None? || LastSelected(best.value) < LastSelected(a)) then Some(a) else best
  }

  function Reselect(s: State, now: int): State {
    if HasId(s.accounts, s.selected) then s
    else
      match MostRecent(s.accounts)
      case None => s.(selected := "")
      case Some(a) => State(Put(s.accounts, a.(lastSelected := Some(now))), a.id)
  }

  // The accounts deleted and added when the keyrings list `ks`.
  function Deleted(accounts: seq<Account>, ks: seq<Keyring>): seq<Account> {
    Gone(ListEvm(accounts, false), Listing(ks, false)) + Gone(ListEvm(accounts, true), Listing(ks, true))
  }

  function Added(accounts: seq<Account>, ks: seq<Keyring>, env: Env): seq<Listed> {
    NewNormal(Listing(ks, false), accounts, env.uid) + NewSnap(Listing(ks, true), ListEvm(accounts, true))
  }

  function Handle(s: State, unlocked: bool, ks: seq<Keyring>, env: Env): Handled {
    if !unlocked || ks == [] then Handled(s, false)
    else
      var kept := RemoveAll(s.accounts, Deleted(s.accounts, ks));
      var added := AddAll(kept, Added(s.accounts, ks, env), env);
      var s' := s.(accounts := added.accounts);
      if added.threw then Handled(s', true) else Handled(Reselect(s', env.now), false)
  }

  // ---------- Assumptions on ids ----------

  ghost predicate IdsFollowAddresses(uid: string -> Id) {
    && (forall x: string :: uid(x) != "")
    && (forall x: string, y: string :: uid(x) == uid(y) <==> Lower(x) == Lower(y))
  }

  ghost predicate NotDerived(id: Id, uid: string -> Id) {
    forall x: string :: uid(x) != id
  }

  ghost predicate Fits(a: Account, uid: string -> Id) {
    && a.id != ""
    && (a.keyring != SNAP ==> a.evm && a.id == uid(a.address))
    && (a.keyring == SNAP ==> NotDerived(a.id, uid))
  }

  ghost predicate Coherent(accounts: seq<Account>, uid: string -> Id) {
    Distinct(accounts) && forall a :: a in accounts ==> Fits(a, uid)
  }

  ghost predicate EnvFits(env: Env) {
    && IdsFollowAddresses(env.uid)
    && forall x :: env.find(x).Some? ==> env.find(x).value.keyring == SNAP && Fits(env.find(x).value, env.uid)
  }

  // Addresses in lower case, marked as such, are fitting ids.
  lemma MarkedAddressesFit(snap: Account, now: int, js: Numbers)
    requires snap.keyring == SNAP && snap.id == "snap"
    ensures var env := Env(x => "u" + Lower(x), x => if Lower(x) == "s" then Some(snap) else None, now, js);
            EnvFits(env) && FindsByAddress(env)
  {
    forall x: string, y: string ensures "u" + Lower(x) == "u" + Lower(y) <==> Lower(x) == Lower(y) {
      assert ("u" + Lower(x))[1..] == Lower(x) && ("u" + Lower(y))[1..] == Lower(y);
    }
    forall x: string ensures "u" + Lower(x) != "snap" && "u" + Lower(x) != "" {
      assert ("u" + Lower(x))[0] == 'u' && "snap"[0] == 's';
    }
  }

  // ---------- Filing keeps ids distinct ----------

  lemma {:induction false} PutMembers(accounts: seq<Account>, a: Account)
    requires Distinct(accounts)
    ensures Distinct(Put(accounts, a))
    ensures forall b :: b in Put(accounts, a) <==> b == a || (b in accounts && b.id != a.id)
  {
    if accounts != [] {
      var rest := accounts[1..];
      PutMembers(rest, a);
      assert accounts == [accounts[0]] + rest;
      assert forall b :: b in rest ==> b.id != accounts[0].id;
    }
  }

  lemma {:induction false} WithoutKeepsDistinct(accounts: seq<Account>, id: Id)
    requires Distinct(accounts)
    ensures Distinct(Without(accounts, id))
  {
    if accounts != [] {
      var rest, a := accounts[..|accounts| - 1], accounts[|accounts| - 1];
      WithoutKeepsDistinct(rest, id);
      assert forall b :: b in Without(rest, id) ==> b.id != a.id;
    }
  }

  lemma {:induction false} RemoveAllKeepsDistinct(accounts: seq<Account>, gone: seq<Account>)
    requires Distinct(accounts)
    ensures Distinct(RemoveAll(accounts, gone))
    decreases |gone|
  {
    if gone != [] {
      RemoveAllKeepsDistinct(accounts, gone[..|gone| - 1]);
      WithoutKeepsDistinct(RemoveAll(accounts, gone[..|gone| - 1]), gone[|gone| - 1].id);
    }
  }

  // ---------- Normal addresses ----------

  predicate NormalAt(accounts: seq<Account>, address: string) {
    exists a :: a in accounts && a.keyring != SNAP && Lower(a.address) == Lower(address)
  }

  lemma NormalAtIffId(accounts: seq<Account>, address: string, uid: string -> Id)
    requires Coherent(accounts, uid) && IdsFollowAddresses(uid)
    ensures NormalAt(accounts, address) <==> HasId(accounts, uid(address))
  {
    if HasId(accounts, uid(address)) {
      var a :| a in accounts && a.id == uid(address);
      assert Fits(a, uid);
    }
    if NormalAt(accounts, address) {
      var a :| a in accounts && a.keyring != SNAP && Lower(a.address) == Lower(address);
      assert Fits(a, uid);
    }
  }

  lemma AddOneFiles(accounts: seq<Account>, x: Listed, env: Env)
    requires Coherent(accounts, env.uid) && EnvFits(env) && !AddOne(accounts, x, env).threw
    ensures Coherent(AddOne(accounts, x, env).accounts, env.uid)
    ensures forall b :: b in accounts && (Candidate(x, env).Some? ==> b.id != Candidate(x, env).value.id) ==>
              b in AddOne(accounts, x, env).accounts
    ensures x.kind != SNAP ==> HasId(AddOne(accounts, x, env).accounts, env.uid(x.address))
    ensures forall b :: b in AddOne(accounts, x, env).accounts ==>
              b in accounts || (Candidate(x, env).Some? && b.id == Candidate(x, env).value.id)
  {
    if Candidate(x, env).Some? {
      var a := Candidate(x, env).value.(importTime := env.now, lastSelected := Some(0));
      var named := a.(name := NextName(accounts, a.keyring, env.js).value);
      PutMembers(accounts, named);
      assert AddOne(accounts, x, env).accounts == Put(accounts, named);
      assert Fits(named, env.uid) by {
        if x.kind == SNAP { assert Fits(env.find(x.address).value, env.uid); }
      }
    }
  }

  lemma AddOneKeepsId(accounts: seq<Account>, x: Listed, env: Env, id: Id)
    requires Coherent(accounts, env.uid) && EnvFits(env) && !AddOne(accounts, x, env).threw
    requires HasId(accounts, id)
    ensures HasId(AddOne(accounts, x, env).accounts, id)
  {
    var b :| b in accounts && b.id == id;
    if Candidate(x, env).Some? {
      var a := Candidate(x, env).value.(importTime := env.now, lastSelected := Some(0));
      var named := a.(name := NextName(accounts, a.keyring, env.js).value);
      PutMembers(accounts, named);
      assert named in AddOne(accounts, x, env).accounts;
    }
  }

  ghost predicate HasCandidate(xs: seq<Listed>, id: Id, env: Env) {
    exists x :: x in xs && IsCandidate(x, id, env)
  }

  lemma {:induction false} AddAllFiles(accounts: seq<Account>, xs: seq<Listed>, env: Env)
    requires Coherent(accounts, env.uid) && EnvFits(env) && !AddAll(accounts, xs, env).threw
    ensures Coherent(AddAll(accounts, xs, env).accounts, env.uid)
    ensures forall x :: x in xs && x.kind != SNAP ==> HasId(AddAll(accounts, xs, env).accounts, env.uid(x.address))
    ensures forall b :: b in AddAll(accounts, xs, env).accounts ==> b in accounts || HasCandidate(xs, b.id, env)
    ensures forall b :: b in accounts && !HasCandidate(xs, b.id, env) ==> b in AddAll(accounts, xs, env).accounts
    decreases |xs|
  {
    if xs != [] {
      var front, last := xs[..|xs| - 1], xs[|xs| - 1];
      var before := AddAll(accounts, front, env);
      AddAllFiles(accounts, front, env);
      AddOneFiles(before.accounts, last, env);
      forall id ensures HasCandidate(xs, id, env) <==> HasCandidate(front, id, env) || IsCandidate(last, id, env) {
        CandidateSnoc(xs, id, env);
      }
      forall x | x in xs && x.kind != SNAP ensures HasId(AddAll(accounts, xs, env).accounts, env.uid(x.address)) {
        if x != last {
          assert x in front;
          AddOneKeepsId(before.accounts, last, env, env.uid(x.address));
        }
      }
    }
  }

  lemma CandidateSnoc(xs: seq<Listed>, id: Id, env: Env)
    requires xs != []
    ensures HasCandidate(xs, id, env) <==> HasCandidate(xs[..|xs| - 1], id, env) || IsCandidate(xs[|xs| - 1], id, env)
  {
    assert forall x :: x in xs <==> x in xs[..|xs| - 1] || x == xs[|xs| - 1];
  }

  /** Handling throws exactly when a listed new account has a keyring type without a name. */
  lemma {:induction false} AddAllThrowsIff(accounts: seq<Account>, xs: seq<Listed>, env: Env)
    requires EnvFits(env)
    ensures AddAll(accounts, xs, env).threw <==> exists x :: x in xs && x.kind != SNAP && KeyringName(x.kind).None?
    decreases |xs|
  {
    if xs != [] {
      var front, last := xs[..|xs| - 1], xs[|xs| - 1];
      AddAllThrowsIff(accounts, front, env);
      assert KeyringName(SNAP).Some?;
      assert forall x :: x in xs <==> x in front || x == last;
    }
  }

  // The accounts that additions file, in turn.
  function Candidates(xs: seq<Listed>, env: Env): seq<Account> {
    if xs == [] then []
    else
      Candidates(xs[..|xs| - 1], env)
      + match Candidate(xs[|xs| - 1], env)
        case None => []
        case Some(a) => [a.(importTime := env.now, lastSelected := Some(0))]
  }

  /** Additions are named one after another, so the later of a group get the larger indexes. */
  lemma {:induction false} AdditionsAreNamedInTurn(accounts: seq<Account>, xs: seq<Listed>, env: Env)
    requires !AddAll(accounts, xs, env).threw
    ensures AddAll(accounts, xs, env).accounts == AddAllNamed(accounts, Candidates(xs, env), env.js)
    decreases |xs|
  {
    if xs != [] {
      var front, last := xs[..|xs| - 1], xs[|xs| - 1];
      AdditionsAreNamedInTurn(accounts, front, env);
      var named, all := Candidates(front, env), Candidates(xs, env);
      if Candidate(last, env).Some? {
        assert all[..|all| - 1] == named;
      } else {
        assert all == named;
      }
    }
  }

  // ---------- The accounts after a keyring change ----------

  lemma DeletedIff(accounts: seq<Account>, ks: seq<Keyring>, a: Account)
    ensures a in Deleted(accounts, ks) <==>
        a in accounts && a.evm && !IsListed(Listing(ks, a.keyring == SNAP), a.address)
  {
  }

  lemma AddedIff(accounts: seq<Account>, ks: seq<Keyring>, env: Env, x: Listed)
    requires x.kind != SNAP
    ensures x in Added(accounts, ks, env) <==> x in Listing(ks, false) && !HasId(accounts, env.uid(x.address))
  {
    if x in Listing(ks, true) {
      ListingIff(ks, true, x);
    }
  }

  // Accounts and listings as they stand when the additions are filed.
  ghost predicate Files(accounts: seq<Account>, deleted: seq<Account>, added: seq<Listed>, env: Env) {
    && Coherent(accounts, env.uid) && EnvFits(env)
    && (forall d :: d in deleted ==> d in accounts)
    && (forall x :: x in added && x.kind != SNAP ==> !HasId(accounts, env.uid(x.address)))
    && !AddAll(RemoveAll(accounts, deleted), added, env).threw
  }

  lemma HandleFiles(s: State, ks: seq<Keyring>, env: Env)
    requires Coherent(s.accounts, env.uid) && EnvFits(env) && ks != [] && !Handle(s, true, ks, env).threw
    ensures Files(s.accounts, Deleted(s.accounts, ks), Added(s.accounts, ks, env), env)
  {
    forall x | x in Added(s.accounts, ks, env) && x.kind != SNAP ensures !HasId(s.accounts, env.uid(x.address)) {
      AddedIff(s.accounts, ks, env, x);
    }
    forall d | d in Deleted(s.accounts, ks) ensures d in s.accounts {
      DeletedIff(s.accounts, ks, d);
    }
  }

  lemma FiledIsCoherent(accounts: seq<Account>, deleted: seq<Account>, added: seq<Listed>, env: Env)
    requires Files(accounts, deleted, added, env)
    ensures Coherent(AddAll(RemoveAll(accounts, deleted), added, env).accounts, env.uid)
  {
    RemoveAllKeepsDistinct(accounts, deleted);
    AddAllFiles(RemoveAll(accounts, deleted), added, env);
  }

  // A normal account that is not deleted is not filed again either.
  lemma UndeletedStays(accounts: seq<Account>, deleted: seq<Account>, added: seq<Listed>, env: Env, a: Account)
    requires Files(accounts, deleted, added, env)
    requires a in accounts && a.keyring != SNAP && a !in deleted
    ensures a in AddAll(RemoveAll(accounts, deleted), added, env).accounts
  {
    RemoveAllKeepsDistinct(accounts, deleted);
    assert Fits(a, env.uid);
    forall d | d in deleted ensures d.id != a.id {
      assert d in accounts;
    }
    AddAllFiles(RemoveAll(accounts, deleted), added, env);
    forall x | x in added && Candidate(x, env).Some? ensures Candidate(x, env).value.id != a.id {
      assert HasId(accounts, a.id);
    }
  }

  // Nothing is filed but what was there and what was added.
  lemma FiledWasThereOrAdded(accounts: seq<Account>, deleted: seq<Account>, added: seq<Listed>, env: Env, b: Account)
    requires Files(accounts, deleted, added, env)
    requires b in AddAll(RemoveAll(accounts, deleted), added, env).accounts && b.keyring != SNAP
    ensures (b in accounts && b !in deleted && b.evm)
         || exists x :: x in added && x.kind != SNAP && Lower(x.address) == Lower(b.address)
  {
    var kept := RemoveAll(accounts, deleted);
    FiledIsCoherent(accounts, deleted, added, env);
    RemoveAllKeepsDistinct(accounts, deleted);
    AddAllFiles(kept, added, env);
    assert Fits(b, env.uid);
    if b !in kept {
      var x :| x in added && IsCandidate(x, b.id, env);
      assert x.kind != SNAP;
    }
  }

  lemma AddedIsFiled(accounts: seq<Account>, deleted: seq<Account>, added: seq<Listed>, env: Env, x: Listed)
    requires Files(accounts, deleted, added, env) && x in added && x.kind != SNAP
    ensures NormalAt(AddAll(RemoveAll(accounts, deleted), added, env).accounts, x.address)
  {
    FiledIsCoherent(accounts, deleted, added, env);
    RemoveAllKeepsDistinct(accounts, deleted);
    AddAllFiles(RemoveAll(accounts, deleted), added, env);
    NormalAtIffId(AddAll(RemoveAll(accounts, deleted), added, env).accounts, x.address, env.uid);
  }

  // What the accounts are before one is selected.
  function Filed(s: State, ks: seq<Keyring>, env: Env): seq<Account> {
    AddAll(RemoveAll(s.accounts, Deleted(s.accounts, ks)), Added(s.accounts, ks, env), env).accounts
  }

  lemma NormalAccountsFollow(s: State, ks: seq<Keyring>, env: Env, address: string)
    requires Coherent(s.accounts, env.uid) && EnvFits(env) && ks != [] && !Handle(s, true, ks, env).threw
    ensures NormalAt(Filed(s, ks, env), address) <==> IsListed(Listing(ks, false), address)
  {
    HandleFiles(s, ks, env);
    if IsListed(Listing(ks, false), address) {
      var x :| x in Listing(ks, false) && Lower(x.address) == Lower(address);
      ListedIsFiled(s, ks, env, x);
    }
    if NormalAt(Filed(s, ks, env), address) {
      var b :| b in Filed(s, ks, env) && b.keyring != SNAP && Lower(b.address) == Lower(address);
      FiledIsListed(s, ks, env, b);
    }
  }

  lemma ListedIsFiled(s: State, ks: seq<Keyring>, env: Env, x: Listed)
    requires Files(s.accounts, Deleted(s.accounts, ks), Added(s.accounts, ks, env), env) && x in Listing(ks, false)
    ensures NormalAt(Filed(s, ks, env), x.address)
  {
    var deleted, added := Deleted(s.accounts, ks), Added(s.accounts, ks, env);
    ListingIff(ks, false, x);
    AddedIff(s.accounts, ks, env, x);
    if HasId(s.accounts, env.uid(x.address)) {
      NormalAtIffId(s.accounts, x.address, env.uid);
      var a :| a in s.accounts && a.keyring != SNAP && Lower(a.address) == Lower(x.address);
      DeletedIff(s.accounts, ks, a);
      UndeletedStays(s.accounts, deleted, added, env, a);
    } else {
      AddedIsFiled(s.accounts, deleted, added, env, x);
    }
  }

  lemma FiledIsListed(s: State, ks: seq<Keyring>, env: Env, b: Account)
    requires Files(s.accounts, Deleted(s.accounts, ks), Added(s.accounts, ks, env), env)
    requires b in Filed(s, ks, env) && b.keyring != SNAP
    ensures IsListed(Listing(ks, false), b.address)
  {
    var added := Added(s.accounts, ks, env);
    FiledWasThereOrAdded(s.accounts, Deleted(s.accounts, ks), added, env, b);
    DeletedIff(s.accounts, ks, b);
    if x :| x in added && x.kind != SNAP && Lower(x.address) == Lower(b.address) {
      AddedIff(s.accounts, ks, env, x);
    }
  }

  // ---------- The selection ----------

  lemma ReselectKeeps(s: State, now: int, uid: string -> Id)
    requires Coherent(s.accounts, uid)
    ensures Coherent(Reselect(s, now).accounts, uid)
    ensures forall a :: a in s.accounts ==> KeptIn(Reselect(s, now).accounts, a)
    ensures forall b :: b in Reselect(s, now).accounts ==> KeptIn(s.accounts, b)
  {
    if !HasId(s.accounts, s.selected) && MostRecent(s.accounts).Some? {
      var a := MostRecent(s.accounts).value;
      PutMembers(s.accounts, a.(lastSelected := Some(now)));
      assert Fits(a, uid);
    }
  }

  predicate SameButSelection(a: Account, b: Account) {
    && a.id == b.id && a.address == b.address && a.evm == b.evm && a.keyring == b.keyring
    && a.name == b.name && a.importTime == b.importTime
  }

  // The account but for the time it was last selected.
  predicate KeptIn(accounts: seq<Account>, a: Account) {
    exists b :: b in accounts && SameButSelection(a, b)
  }

  predicate SelectionHolds(s: State) {
    if s.selected == "" then forall a :: a in s.accounts ==> !a.evm else HasId(s.accounts, s.selected)
  }

  predicate InKeyrings(ks: seq<Keyring>, address: string) {
    exists k, i :: k in ks && k.kind != SNAP && 0 <= i < |k.addresses| && Lower(k.addresses[i]) == Lower(address)
  }

  lemma InKeyringsIff(ks: seq<Keyring>, address: string)
    ensures InKeyrings(ks, address) <==> IsListed(Listing(ks, false), address)
  {
    if IsListed(Listing(ks, false), address) {
      var x :| x in Listing(ks, false) && Lower(x.address) == Lower(address);
      ListingIff(ks, false, x);
    }
    if InKeyrings(ks, address) {
      var k, i :| k in ks && k.kind != SNAP && 0 <= i < |k.addresses| && Lower(k.addresses[i]) == Lower(address);
      ListingIff(ks, false, Listed(k.addresses[i], k.kind));
      assert Lists(k, false, Listed(k.addresses[i], k.kind));
    }
  }

  /** Ids stay distinct and fitting, and the selection names an account unless no account is an EVM account. */
  lemma HandleKeepsCoherent(s: State, ks: seq<Keyring>, env: Env)
    requires Coherent(s.accounts, env.uid) && EnvFits(env) && ks != [] && !Handle(s, true, ks, env).threw
    ensures Coherent(Handle(s, true, ks, env).state.accounts, env.uid)
    ensures SelectionHolds(Handle(s, true, ks, env).state)
  {
    HandleFiles(s, ks, env);
    FiledIsCoherent(s.accounts, Deleted(s.accounts, ks), Added(s.accounts, ks, env), env);
    ReselectKeeps(s.(accounts := Filed(s, ks, env)), env.now, env.uid);
    assert forall a :: a in Filed(s, ks, env) ==> Fits(a, env.uid);
    ReselectHolds(s.(accounts := Filed(s, ks, env)), env.now);
  }

  lemma ReselectHolds(s: State, now: int)
    requires forall a :: a in s.accounts ==> a.id != ""
    ensures SelectionHolds(Reselect(s, now))
    ensures HasId(s.accounts, s.selected) ==> Reselect(s, now) == s
  {
    if !HasId(s.accounts, s.selected) && MostRecent(s.accounts).Some? {
      var a := MostRecent(s.accounts).value;
      assert a.id != "";
      assert a.(lastSelected := Some(now)) in Put(s.accounts, a.(lastSelected := Some(now)));
    }
  }

  /**
   Once an unlocked, non-empty keyring state is handled, the normal accounts
   sit at exactly the addresses of the normal keyrings.
   */
  lemma AccountsFollowKeyrings(s: State, ks: seq<Keyring>, env: Env, address: string)
    requires Coherent(s.accounts, env.uid) && EnvFits(env) && ks != [] && !Handle(s, true, ks, env).threw
    ensures NormalAt(Handle(s, true, ks, env).state.accounts, address) <==> InKeyrings(ks, address)
  {
    InKeyringsIff(ks, address);
    NormalAccountsFollow(s, ks, env, address);
    HandleFiles(s, ks, env);
    FiledIsCoherent(s.accounts, Deleted(s.accounts, ks), Added(s.accounts, ks, env), env);
    ReselectKeeps(s.(accounts := Filed(s, ks, env)), env.now, env.uid);
  }

  /** An account still listed keeps its name and import time. */
  lemma ListedAccountsKeepTheirNames(s: State, ks: seq<Keyring>, env: Env, a: Account)
    requires Coherent(s.accounts, env.uid) && EnvFits(env) && ks != [] && !Handle(s, true, ks, env).threw
    requires a in s.accounts && a.keyring != SNAP && InKeyrings(ks, a.address)
    ensures KeptIn(Handle(s, true, ks, env).state.accounts, a)
  {
    var deleted, added := Deleted(s.accounts, ks), Added(s.accounts, ks, env);
    InKeyringsIff(ks, a.address);
    HandleFiles(s, ks, env);
    DeletedIff(s.accounts, ks, a);
    UndeletedStays(s.accounts, deleted, added, env, a);
    FiledIsCoherent(s.accounts, deleted, added, env);
    ReselectKeeps(s.(accounts := Filed(s, ks, env)), env.now, env.uid);
  }

  /** Handling throws exactly when a new normal account's keyring type has no name. */
  lemma HandleThrowsIff(s: State, ks: seq<Keyring>, env: Env)
    requires EnvFits(env) && ks != []
    ensures Handle(s, true, ks, env).threw
       <==> exists x :: x in Listing(ks, false) && !HasId(s.accounts, env.uid(x.address)) && KeyringName(x.kind).None?
  {
    var added := Added(s.accounts, ks, env);
    AddAllThrowsIff(RemoveAll(s.accounts, Deleted(s.accounts, ks)), added, env);
    forall x | x in Listing(ks, false) ensures x.kind != SNAP {
      ListingIff(ks, false, x);
    }
    forall x: Listed | x.kind != SNAP
      ensures x in added <==> x in Listing(ks, false) && !HasId(s.accounts, env.uid(x.address))
    {
      AddedIff(s.accounts, ks, env, x);
    }
  }

  // ---------- Snap accounts of other chains ----------

  predicate IsCandidate(x: Listed, id: Id, env: Env) {
    Candidate(x, env).Some? && Candidate(x, env).value.id == id
  }

  // The snap keyring finds accounts by address, and tells them apart by it.
  ghost predicate FindsByAddress(env: Env) {
    forall x: string, y: string ::
      env.find(x).Some? && env.find(y).Some? && env.find(x).value.id == env.find(y).value.id ==> Lower(x) == Lower(y)
  }

  // The last addition under an id decides what is filed under it.
  lemma {:induction false} FiledLast(accounts: seq<Account>, xs: seq<Listed>, env: Env, id: Id)
    returns (i: nat, b: Account)
    requires Coherent(accounts, env.uid) && EnvFits(env) && !AddAll(accounts, xs, env).threw &&
        HasCandidate(xs, id, env)
    ensures i < |xs| && IsCandidate(xs[i], id, env) && !AddAll(accounts, xs[..i], env).threw
    ensures b in AddAll(accounts, xs, env).accounts && b.id == id && b.importTime == env.now
    ensures Some(b.name) == NextName(AddAll(accounts, xs[..i], env).accounts,
        Candidate(xs[i], env).value.keyring, env.js)
    decreases |xs|
  {
    var front, last := xs[..|xs| - 1], xs[|xs| - 1];
    var before := AddAll(accounts, front, env);
    AddAllFiles(accounts, front, env);
    if IsCandidate(last, id, env) {
      i := |xs| - 1;
      var a := Candidate(last, env).value.(importTime := env.now, lastSelected := Some(0));
      b := a.(name := NextName(before.accounts, a.keyring, env.js).value);
    } else {
      i, b := FiledLast(accounts, front, env, id);
      assert xs[..i] == front[..i];
      AddOneFiles(before.accounts, last, env);
    }
  }

  // Selecting afterwards changes neither id, name nor import time.
  lemma AfterSelecting(s: State, ks: seq<Keyring>, env: Env, b: Account) returns (c: Account)
    requires Coherent(s.accounts, env.uid) && EnvFits(env) && ks != [] && !Handle(s, true, ks, env).threw
    requires b in Filed(s, ks, env)
    ensures c in Handle(s, true, ks, env).state.accounts && SameButSelection(b, c)
  {
    HandleFiles(s, ks, env);
    FiledIsCoherent(s.accounts, Deleted(s.accounts, ks), Added(s.accounts, ks, env), env);
    ReselectKeeps(s.(accounts := Filed(s, ks, env)), env.now, env.uid);
    c :| c in Handle(s, true, ks, env).state.accounts && SameButSelection(b, c);
  }

  lemma AddedSnapIff(accounts: seq<Account>, ks: seq<Keyring>, env: Env, x: Listed)
    requires x.kind == SNAP
    ensures x in Added(accounts, ks, env) <==> x in Listing(ks, true) && !AtAddress(ListEvm(accounts, true), x.address)
  {
    if x in Listing(ks, false) {
      ListingIff(ks, false, x);
    }
  }

  /**
   A listed snap account is filed again exactly if no EVM snap account sits at its
   address: the comparison looks at those only.
   */
  lemma SnapAccountIsRefiledIff(s: State, ks: seq<Keyring>, env: Env, a: Account, x: Listed)
    requires Coherent(s.accounts, env.uid) && EnvFits(env) && FindsByAddress(env)
    requires a.keyring == SNAP && a in s.accounts && x in Listing(ks, true) && Lower(x.address) == Lower(a.address)
    requires x.kind == SNAP && IsCandidate(x, a.id, env)
    ensures HasCandidate(Added(s.accounts, ks, env), a.id, env) <==> !AtAddress(ListEvm(s.accounts, true), a.address)
  {
    var added := Added(s.accounts, ks, env);
    AddedSnapIff(s.accounts, ks, env, x);
    assert Fits(a, env.uid);
    if y :| y in added && IsCandidate(y, a.id, env) {
      assert y.kind == SNAP;
      AddedSnapIff(s.accounts, ks, env, y);
      assert Lower(y.address) == Lower(x.address);
    }
  }

  /** Filed again, it is there under its id with the name next in turn and the present import time. */
  lemma RefiledSnapAccount(s: State, ks: seq<Keyring>, env: Env, id: Id) returns (i: nat, b: Account)
    requires Coherent(s.accounts, env.uid) && EnvFits(env) && ks != [] && !Handle(s, true, ks, env).threw
    requires HasCandidate(Added(s.accounts, ks, env), id, env)
    ensures i < |Added(s.accounts, ks, env)| && IsCandidate(Added(s.accounts, ks, env)[i], id, env)
    ensures b in Handle(s, true, ks, env).state.accounts && b.id == id && b.importTime == env.now
    ensures var kept := RemoveAll(s.accounts, Deleted(s.accounts, ks));
            var accounts := AddAll(kept, Added(s.accounts, ks, env)[..i], env).accounts;
            Some(b.name) == NextName(accounts, Candidate(Added(s.accounts, ks, env)[i], env).value.keyring, env.js)
  {
    HandleFiles(s, ks, env);
    RemoveAllKeepsDistinct(s.accounts, Deleted(s.accounts, ks));
    i, b := FiledLast(RemoveAll(s.accounts, Deleted(s.accounts, ks)), Added(s.accounts, ks, env), env, id);
    b := AfterSelecting(s, ks, env, b);
  }

  // What is neither deleted nor filed again stays.
  lemma UnfiledStays(accounts: seq<Account>, deleted: seq<Account>, added: seq<Listed>, env: Env, a: Account)
    requires Files(accounts, deleted, added, env) && a in accounts && a !in deleted && !HasCandidate(added, a.id, env)
    ensures a in AddAll(RemoveAll(accounts, deleted), added, env).accounts
  {
    RemoveAllKeepsDistinct(accounts, deleted);
    forall d | d in deleted ensures d.id != a.id {
      assert d in accounts;
    }
    AddAllFiles(RemoveAll(accounts, deleted), added, env);
  }

  /**
   So at a keyring change the name and import time of a listed snap account are
   overwritten if no EVM snap account sits at its address, as for any account of
   another chain that is alone there, and otherwise both are kept.
   */
  lemma OtherChainAccountsAreRefiled(s: State, ks: seq<Keyring>, env: Env, a: Account, x: Listed)
    requires Coherent(s.accounts, env.uid) && EnvFits(env) && FindsByAddress(env) && ks != [] &&
        !Handle(s, true, ks, env).threw
    requires a.keyring == SNAP && a in s.accounts && x in Listing(ks, true) && Lower(x.address) == Lower(a.address)
    requires x.kind == SNAP && IsCandidate(x, a.id, env)
    ensures !AtAddress(ListEvm(s.accounts, true), a.address) ==>
              exists b, i :: b in Handle(s, true, ks, env).state.accounts && b.id == a.id && RefiledAt(s, ks, env, b, i)
    ensures AtAddress(ListEvm(s.accounts, true), a.address) ==> KeptIn(Handle(s, true, ks, env).state.accounts, a)
  {
    SnapAccountIsRefiledIff(s, ks, env, a, x);
    if AtAddress(ListEvm(s.accounts, true), a.address) {
      HandleFiles(s, ks, env);
      DeletedIff(s.accounts, ks, a);
      UnfiledStays(s.accounts, Deleted(s.accounts, ks), Added(s.accounts, ks, env), env, a);
      var c := AfterSelecting(s, ks, env, a);
    } else {
      var i, b := RefiledSnapAccount(s, ks, env, a.id);
      assert Fits(a, env.uid);
      assert RefiledAt(s, ks, env, b, i);
    }
  }

  // Named and stamped as the i-th of the additions.
  predicate RefiledAt(s: State, ks: seq<Keyring>, env: Env, b: Account, i: nat) {
    var added := Added(s.accounts, ks, env);
    && i < |added| && IsCandidate(added[i], b.id, env) && b.importTime == env.now
    && Some(b.name) == NextName(AddAll(RemoveAll(s.accounts, Deleted(s.accounts, ks)), added[..i], env).accounts,
                                Candidate(added[i], env).value.keyring, env.js)
  }

  // ---------- The controller ----------

  lemma {:induction false} StaysThrown(accounts: seq<Account>, xs: seq<Listed>, i: nat, env: Env)
    requires i <= |xs| && AddAll(accounts, xs[..i], env).threw
    ensures AddAll(accounts, xs, env) == AddAll(accounts, xs[..i], env)
    decreases |xs|
  {
    if i == |xs| {
      assert xs[..i] == xs;
    } else {
      assert xs[..|xs| - 1][..i] == xs[..i];
      StaysThrown(accounts, xs[..|xs| - 1], i, env);
    }
  }

  class AccountsController {
    const uid: string -> Id
    const js: Numbers
    var accounts: seq<Account>
    var selected: Id

    constructor (uid: string -> Id, js: Numbers, accounts: seq<Account>, selected: Id)
      ensures this.uid == uid && this.js == js && this.accounts == accounts && this.selected == selected
    {
      this.uid, this.js, this.accounts, this.selected := uid, js, accounts, selected;
    }

    method ListAddresses(ks: seq<Keyring>) returns (normal: seq<Listed>, snap: seq<Listed>)
      ensures normal == Listing(ks, false) && snap == Listing(ks, true)
    {
      normal, snap := [], [];
      for i := 0 to |ks|
        invariant normal == Listing(ks[..i], false) && snap == Listing(ks[..i], true)
      {
        PrefixStep(ks, i);
        var addresses := ks[i].addresses;
        var listed := [];
        for j := 0 to |addresses|
          invariant listed == ListingOf(ks[i].kind, addresses[..j])
        {
          PrefixStep(addresses, j);
          listed := listed + [Listed(addresses[j], ks[i].kind)];
        }
        assert addresses[..|addresses|] == addresses;
        if ks[i].kind == SNAP {
          snap := snap + listed;
        } else {
          normal := normal + listed;
        }
      }
      assert ks[..|ks|] == ks;
    }

    method ListPrevious() returns (normal: seq<Account>, snap: seq<Account>)
      ensures normal == ListEvm(accounts, false) && snap == ListEvm(accounts, true)
    {
      normal, snap := [], [];
      for i := 0 to |accounts|
        invariant normal == ListEvm(accounts[..i], false) && snap == ListEvm(accounts[..i], true)
      {
        PrefixStep(accounts, i);
        if accounts[i].evm {
          if accounts[i].keyring == SNAP {
            snap := snap + [accounts[i]];
          } else {
            normal := normal + [accounts[i]];
          }
        }
      }
      assert accounts[..|accounts|] == accounts;
    }

    method FindAdded(normal: seq<Listed>, snap: seq<Listed>, previousSnap: seq<Account>) returns (added: seq<Listed>)
      ensures added == NewNormal(normal, accounts, uid) + NewSnap(snap, previousSnap)
    {
      added := [];
      for i := 0 to |normal|
        invariant added == NewNormal(normal[..i], accounts, uid)
      {
        PrefixStep(normal, i);
        if !HasId(accounts, uid(normal[i].address)) {
          added := added + [normal[i]];
        }
      }
      assert normal[..|normal|] == normal;
      ghost var addedNormal := added;
      for i := 0 to |snap|
        invariant added == addedNormal + NewSnap(snap[..i], previousSnap)
      {
        PrefixStep(snap, i);
        if !AtAddress(previousSnap, snap[i].address) {
          added := added + [snap[i]];
        }
      }
      assert snap[..|snap|] == snap;
    }

    method FindDeleted(previous: seq<Account>, listed: seq<Listed>) returns (deleted: seq<Account>)
      ensures deleted == Gone(previous, listed)
    {
      deleted := [];
      for i := 0 to |previous|
        invariant deleted == Gone(previous[..i], listed)
      {
        PrefixStep(previous, i);
        if !IsListed(listed, previous[i].address) {
          deleted := deleted + [previous[i]];
        }
      }
      assert previous[..|previous|] == previous;
    }

    method HandleAccountRemoved(id: Id)
      modifies this`accounts
      ensures accounts == Without(old(accounts), id)
    {
      accounts := Without(accounts, id);
    }

    method HandleNewAccountAdded(x: Listed, find: string -> Option<Account>, now: int) returns (threw: bool)
      modifies this`accounts
      ensures Progress(accounts, threw) == AddOne(old(accounts), x, Env(uid, find, now, js))
    {
      var newAccount: Account;
      if x.kind != SNAP {
        newAccount := Account(uid(x.address), x.address, true, x.kind, "", 0, None);
      } else {
        var found := find(x.address);
        if found.None? { return false; }
        newAccount := found.value;
      }
      var name := NextName(accounts, newAccount.keyring, js);
      if name.None? { return true; }
      accounts := Put(accounts, newAccount.(name := name.value, importTime := now, lastSelected := Some(0)));
      threw := false;
    }

    method SetSelectedAccount(a: Account, now: int)
      requires a in accounts
      modifies this
      ensures accounts == Put(old(accounts), a.(lastSelected := Some(now))) && selected == a.id
    {
      accounts := Put(accounts, a.(lastSelected := Some(now)));
      selected := a.id;
    }

    method HandleKeyringStateChange(unlocked: bool, ks: seq<Keyring>, find: string -> Option<Account>, now: int)
      returns (threw: bool)
      modifies this
      ensures Handled(State(accounts, selected), threw)
           == Handle(old(State(accounts, selected)), unlocked, ks, Env(uid, find, now, js))
    {
      if !unlocked || ks == [] { return false; }
      var normal, snap := ListAddresses(ks);
      var previousNormal, previousSnap := ListPrevious();
      var added := FindAdded(normal, snap, previousSnap);
      var goneNormal := FindDeleted(previousNormal, normal);
      var goneSnap := FindDeleted(previousSnap, snap);
      RemoveAccounts(goneNormal + goneSnap);
      threw := AddAccounts(added, find, now);
      if !threw && !HasId(accounts, selected) {
        var mostRecent := MostRecent(accounts);
        if mostRecent.None? {
          selected := "";
        } else {
          SetSelectedAccount(mostRecent.value, now);
        }
      }
    }

    method RemoveAccounts(deleted: seq<Account>)
      modifies this`accounts
      ensures accounts == RemoveAll(old(accounts), deleted)
    {
      for i := 0 to |deleted|
        invariant accounts == RemoveAll(old(accounts), deleted[..i])
      {
        PrefixStep(deleted, i);
        HandleAccountRemoved(deleted[i].id);
      }
      assert deleted[..|deleted|] == deleted;
    }

    method AddAccounts(added: seq<Listed>, find: string -> Option<Account>, now: int) returns (threw: bool)
      modifies this`accounts
      ensures Progress(accounts, threw) == AddAll(old(accounts), added, Env(uid, find, now, js))
    {
      ghost var env := Env(uid, find, now, js);
      threw := false;
      for i := 0 to |added|
        invariant !threw && Progress(accounts, false) == AddAll(old(accounts), added[..i], env)
      {
        PrefixStep(added, i);
        threw := HandleNewAccountAdded(added[i], find, now);
        if threw {
          StaysThrown(old(accounts), added, i + 1, env);
          return true;
        }
      }
      assert added[..|added|] == added;
    }
  }
}
