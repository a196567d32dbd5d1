/**
 The keyring controller's transactions, without a cached encryption key: an
 operation either commits to the encrypted vault or is rolled back. Encryption
 and keyring (de)serialization are round-trip contracts; what an operation does
 to the keyrings is arbitrary, and every step that can throw may throw.
 */
module KeyringTransactions {
  import opened Prelude

  const HD: string := "HD Key Tree"

  datatype Serialized = Serialized(kind: string, data: string)

  datatype Keyring = Keyring(kind: string, data: string, accounts: seq<string>)

  datatype Display = Display(kind: string, accounts: seq<string>)

  datatype Payload = Malformed | Keyrings(all: seq<Serialized>)

  datatype Vault = Encrypted(password: string, payload: Payload)

  // What the code outside the controller does. `restore` builds a keyring from
  // its serialized form next to the live ones, or throws.
  datatype Env = Env(restore: (seq<Keyring>, Serialized) -> Option<Keyring>, destroyFails: Keyring -> bool)

  datatype Wallet = Wallet(keyrings: seq<Keyring>, unsupported: seq<Serialized>, password: Option<string>,
                           vault: Option<Vault>, isUnlocked: bool, view: seq<Display>)

  function Serialize(k: Keyring): Serialized { Serialized(k.kind, k.data) }
  function DisplayFor(k: Keyring): Display { Display(k.kind, k.accounts) }

  function Decrypt(password: string, v: Vault): Option<Payload> {
    if password == v.password then Some(v.payload) else None
  }

  // Live and unsupported keyrings together.
  function AllSerialized(w: Wallet): seq<Serialized> {
    Map(Serialize, w.keyrings) + w.unsupported
  }

  /** Restoring a keyring and serializing it again gives the same bytes. */
  ghost predicate RoundTrips(env: Env) {
    forall live: seq<Keyring>, x: Serialized :: env.restore(live, x).Some? ==>
        Serialize(env.restore(live, x).value) == x
  }

  predicate DestroysCleanly(env: Env, ks: seq<Keyring>) {
    forall i :: 0 <= i < |ks| ==> !env.destroyFails(ks[i])
  }

  // The keyrings before the first whose destruction throws.
  function Destroyable(env: Env, ks: seq<Keyring>): seq<Keyring> {
    if ks == [] || env.destroyFails(ks[0]) then [] else [ks[0]] + Destroyable(env, ks[1..])
  }

  // ---------- The steps ----------

  function RestoreKeyring(env: Env, w: Wallet, x: Serialized): Wallet {
    match env.restore(w.keyrings, x)
    case Some(k) => w.(keyrings := w.keyrings + [k])
    case None => w.(unsupported := w.unsupported + [x])
  }

  function RestoreEach(env: Env, w: Wallet, xs: seq<Serialized>): Wallet {
    if xs == [] then w else RestoreKeyring(env, RestoreEach(env, w, xs[..|xs| - 1]), xs[|xs| - 1])
  }

  // The flag is false where the source throws.
  function Restore(env: Env, w: Wallet, xs: seq<Serialized>): (Wallet, bool) {
    if DestroysCleanly(env, w.keyrings) then (RestoreEach(env, w.(keyrings := []), xs), true) else (w, false)
  }

  predicate HasHd(xs: seq<Serialized>) {
    exists i :: 0 <= i < |xs| && xs[i].kind == HD
  }

  // `fault`: serializing, encrypting or listing accounts throws.
  function WriteVault(w: Wallet, fault: bool): (Wallet, bool) {
    if w.password.None? || w.password.value == "" || fault || !HasHd(AllSerialized(w)) then (w, false)
    else (w.(vault := Some(Encrypted(w.password.value, Keyrings(AllSerialized(w)))),
        view := Map(DisplayFor, w.keyrings)), true)
  }

  // `fault`: serializing the keyrings before the operation throws.
  function WithRollback(env: Env, w: Wallet, fault: bool, fn: Wallet -> (Wallet, bool)): (Wallet, bool) {
    if fault then (w, false)
    else
      var (done, ok) := fn(w);
      if ok then (done, true)
      else
        var (back, restored) := Restore(env, done, AllSerialized(w));
        (if restored then back.(password := w.password) else back, false)
  }

  // What the body of an operation did before it finished or threw.
  datatype Effect = Effect(keyrings: seq<Keyring>, password: Option<string>, isUnlocked: bool, ok: bool)

  function Apply(w: Wallet, e: Effect): Wallet {
    w.(keyrings := e.keyrings, password := e.password, isUnlocked := e.isUnlocked)
  }

  function Persist(fn: Wallet -> Effect, vaultFault: bool): Wallet -> (Wallet, bool) {
    (w: Wallet) => if fn(w).ok then WriteVault(Apply(w, fn(w)), vaultFault) else (Apply(w, fn(w)), false)
  }

  function PersistOrRollback(env: Env, w: Wallet, fault: bool, fn: Wallet -> Effect, vaultFault: bool): (Wallet, bool) {
    WithRollback(env, w, fault, Persist(fn, vaultFault))
  }

  function ChangePassword(password: string): Wallet -> Effect {
    (w: Wallet) =>
      if !w.isUnlocked || password == "" then Effect(w.keyrings, w.password, w.isUnlocked, false)
      else Effect(w.keyrings, Some(password), w.isUnlocked, true)
  }

  // `made` is the first keyring, or what is missing when building it throws.
  function CreateNewVault(env: Env, password: string, made: Option<Keyring>): Wallet -> Effect {
    (w: Wallet) =>
      if !DestroysCleanly(env, w.keyrings) then Effect(w.keyrings, Some(password), w.isUnlocked, false)
      else if made.None? then Effect([], Some(password), w.isUnlocked, false)
      else if made.value.accounts == [] then Effect([made.value], Some(password), w.isUnlocked, false)
      else Effect([made.value], Some(password), true, true)
  }

  function Lock(env: Env): Wallet -> (Wallet, bool) {
    (w: Wallet) =>
      if DestroysCleanly(env, w.keyrings)
      then (w.(keyrings := [], password := None, isUnlocked := false, view := []), true)
      else (w.(password := None), false)
  }

  // `outdated`: the encryptor asks for the vault to be encrypted again.
  function TryUnlock(env: Env, w: Wallet, password: string, displayFault: bool, outdated: bool,
      vaultFault: bool): (Wallet, bool) {
    if w.vault.None? || Decrypt(password, w.vault.value).None? then (w, false)
    else
      var payload := Decrypt(password, w.vault.value).value;
      var w1 := w.(password := Some(password));
      if payload.Malformed? then (w1, false)
      else
        var (w2, ok) := Restore(env, w1, payload.all);
        if !ok || displayFault then (w2, false) else FinishUnlock(w2, password != "" && outdated, vaultFault)
  }

  function Unlock(env: Env, password: string, displayFault: bool, outdated: bool,
      vaultFault: bool): Wallet -> (Wallet, bool) {
    (w: Wallet) => TryUnlock(env, w, password, displayFault, outdated, vaultFault)
  }

  // The keyrings are loaded: show them, encrypt the vault again if it is outdated.
  function FinishUnlock(w: Wallet, update: bool, vaultFault: bool): (Wallet, bool) {
    var shown := w.(view := Map(DisplayFor, w.keyrings));
    var (done, ok) := if update then WriteVault(shown, vaultFault) else (shown, true);
    (if ok then done.(isUnlocked := true) else done, ok)
  }

  // ---------- Operations ----------

  datatype Operation =
    | Run(fault: bool, fn: Wallet -> Effect, vaultFault: bool)
    | SubmitPassword(fault: bool, password: string, displayFault: bool, outdated: bool, vaultFault: bool)
    | SetLocked(fault: bool)

  // What an operation does under rollback.
  function Body(env: Env, op: Operation): Wallet -> (Wallet, bool) {
    match op
    case Run(_, fn, vaultFault) => Persist(fn, vaultFault)
    case SubmitPassword(_, password, displayFault, outdated, vaultFault) =>
      Unlock(env, password, displayFault, outdated, vaultFault)
    case SetLocked(_) => Lock(env)
  }

  function Step(env: Env, w: Wallet, op: Operation): (Wallet, bool) {
    WithRollback(env, w, op.fault, Body(env, op))
  }

  // ---------- The controller ----------

  class KeyringController {
    const env: Env
    var keyrings: seq<Keyring>
    var unsupported: seq<Serialized>
    var password: Option<string>
    var vault: Option<Vault>
    var isUnlocked: bool
    var view: seq<Display>
    // The keyrings destroyed so far.
    var destroyed: seq<Keyring>

    constructor (env: Env, vault: Option<Vault>)
      ensures this.env == env && State() == Wallet([], [], None, vault, false, []) && destroyed == []
    {
      this.env, this.vault := env, vault;
      keyrings, unsupported, password, isUnlocked, view, destroyed := [], [], None, false, [], [];
    }

    function State(): Wallet
      reads this
    {
      Wallet(keyrings, unsupported, password, vault, isUnlocked, view)
    }

    // The flags returned are false where the source throws.
    method ClearKeyrings() returns (ok: bool)
      modifies this
      ensures ok == DestroysCleanly(env, old(keyrings))
      ensures State() == if ok then old(State()).(keyrings := []) else old(State())
      ensures destroyed == old(destroyed) + Destroyable(env, old(keyrings))
    {
      for i := 0 to |keyrings|
        invariant State() == old(State()) && keyrings == old(keyrings)
        invariant DestroysCleanly(env, keyrings[..i])
        invariant destroyed + Destroyable(env, keyrings[i..]) == old(destroyed) + Destroyable(env, keyrings)
      {
        assert keyrings[i..][0] == keyrings[i] && keyrings[i..][1..] == keyrings[i + 1..];
        if env.destroyFails(keyrings[i]) {
          return false;
        }
        ConcatAssociative(destroyed, [keyrings[i]], Destroyable(env, keyrings[i + 1..]));
        destroyed := destroyed + [keyrings[i]];
      }
      keyrings := [];
      ok := true;
    }

    method RestoreSerializedKeyrings(xs: seq<Serialized>) returns (ok: bool)
      modifies this
      ensures (State(), ok) == Restore(env, old(State()), xs)
    {
      ok := ClearKeyrings();
      if !ok {
        return;
      }
      ghost var cleared := State();
      for i := 0 to |xs|
        invariant State() == RestoreEach(env, cleared, xs[..i])
      {
        assert xs[..i + 1][..i] == xs[..i];
        match env.restore(keyrings, xs[i])
        case Some(k) => keyrings := keyrings + [k];
        case None => unsupported := unsupported + [xs[i]];
      }
      assert xs[..|xs|] == xs;
    }

    method UpdateVault(fault: bool) returns (ok: bool)
      modifies this
      ensures (State(), ok) == WriteVault(old(State()), fault)
    {
      if password.None? || password.value == "" || fault {
        return false;
      }
      var serialized := AllSerialized(State());
      if !HasHd(serialized) {
        return false;
      }
      vault := Some(Encrypted(password.value, Keyrings(serialized)));
      view := Map(DisplayFor, keyrings);
      ok := true;
    }

    // What the transaction does when its body throws.
    method Rollback(serialized: seq<Serialized>, oldPassword: Option<string>)
      modifies this
      ensures var (back, restored) := Restore(env, old(State()), serialized);
              State() == if restored then back.(password := oldPassword) else back
    {
      var restored := RestoreSerializedKeyrings(serialized);
      if restored {
        password := oldPassword;
      }
    }

    method PersistOrRollback(fault: bool, fn: Wallet -> Effect, vaultFault: bool) returns (ok: bool)
      modifies this
      ensures (State(), ok) == Step(env, old(State()), Run(fault, fn, vaultFault))
    {
      if fault {
        return false;
      }
      var currentSerializedKeyrings := AllSerialized(State());
      var currentPassword := password;
      var effect := fn(State());
      keyrings, password, isUnlocked := effect.keyrings, effect.password, effect.isUnlocked;
      ok := effect.ok;
      if ok {
        ok := UpdateVault(vaultFault);
      }
      if !ok {
        Rollback(currentSerializedKeyrings, currentPassword);
      }
    }

    method UnlockKeyrings(pw: string, displayFault: bool, outdated: bool, vaultFault: bool) returns (ok: bool)
      modifies this
      ensures (State(), ok) == TryUnlock(env, old(State()), pw, displayFault, outdated, vaultFault)
    {
      if vault.None? {
        return false;
      }
      var payload := Decrypt(pw, vault.value);
      if payload.None? {
        return false;
      }
      password := Some(pw);
      if payload.value.Malformed? {
        return false;
      }
      ok := RestoreSerializedKeyrings(payload.value.all);
      if !ok || displayFault {
        return false;
      }
      view := Map(DisplayFor, keyrings);
      if pw != "" && outdated {
        ok := UpdateVault(vaultFault);
      }
      if ok {
        isUnlocked := true;
      }
    }

    method SubmitPassword(fault: bool, pw: string, displayFault: bool, outdated: bool,
        vaultFault: bool) returns (ok: bool)
      modifies this
      ensures (State(), ok) ==
          Step(env, old(State()), Operation.SubmitPassword(fault, pw, displayFault, outdated, vaultFault))
    {
      if fault {
        return false;
      }
      var currentSerializedKeyrings := AllSerialized(State());
      var currentPassword := password;
      ok := UnlockKeyrings(pw, displayFault, outdated, vaultFault);
      if !ok {
        Rollback(currentSerializedKeyrings, currentPassword);
      }
    }

    method SetLocked(fault: bool) returns (ok: bool)
      modifies this
      ensures (State(), ok) == Step(env, old(State()), Operation.SetLocked(fault))
    {
      if fault {
        return false;
      }
      var currentSerializedKeyrings := AllSerialized(State());
      var currentPassword := password;
      password := None;
      ok := ClearKeyrings();
      if ok {
        isUnlocked, view := false, [];
      } else {
        Rollback(currentSerializedKeyrings, currentPassword);
      }
    }
  }

  // ---------- Restoring ----------

  lemma MapSnoc<A, B>(f: A -> B, s: seq<A>, x: A)
    ensures Map(f, s + [x]) == Map(f, s) + [f(x)]
  {
  }

  function Bag(w: Wallet): multiset<Serialized> {
    multiset(Map(Serialize, w.keyrings)) + multiset(w.unsupported)
  }

  lemma RestoreOne(env: Env, w: Wallet, x: Serialized)
    requires RoundTrips(env)
    ensures Bag(RestoreKeyring(env, w, x)) == Bag(w) + multiset{x}
  {
    match env.restore(w.keyrings, x)
    case Some(k) =>
      MapSnoc(Serialize, w.keyrings, k);
    case None =>
  }

  lemma MultisetSnoc<T>(xs: seq<T>)
    requires xs != []
    ensures multiset(xs) == multiset(xs[..|xs| - 1]) + multiset{xs[|xs| - 1]}
  {
    assert xs == xs[..|xs| - 1] + [xs[|xs| - 1]];
  }

  // Each element restored ends up live or unsupported, exactly once.
  lemma {:induction false} RestoreEachKeepsAll(env: Env, w: Wallet, xs: seq<Serialized>)
    requires RoundTrips(env)
    ensures Bag(RestoreEach(env, w, xs)) == Bag(w) + multiset(xs)
  {
    if xs != [] {
      RestoreEachKeepsAll(env, w, xs[..|xs| - 1]);
      RestoreOne(env, RestoreEach(env, w, xs[..|xs| - 1]), xs[|xs| - 1]);
      MultisetSnoc(xs);
    }
  }

  lemma {:induction false} RestoreEachOnlyMoves(env: Env, w: Wallet, xs: seq<Serialized>)
    ensures var w' := RestoreEach(env, w, xs);
            w' == w.(keyrings := w'.keyrings, unsupported := w'.unsupported) && w.unsupported <= w'.unsupported
  {
    if xs != [] { RestoreEachOnlyMoves(env, w, xs[..|xs| - 1]); }
  }

  // When nothing new is unsupported, the keyrings are restored in order.
  lemma {:induction false} RestoreEachKeepsOrder(env: Env, w: Wallet, xs: seq<Serialized>)
    requires RoundTrips(env) && RestoreEach(env, w, xs).unsupported == w.unsupported
    ensures Map(Serialize, RestoreEach(env, w, xs).keyrings) == Map(Serialize, w.keyrings) + xs
  {
    if xs == [] {
      assert Map(Serialize, w.keyrings) + [] == Map(Serialize, w.keyrings);
    } else {
      var front, x := xs[..|xs| - 1], xs[|xs| - 1];
      var mid := RestoreEach(env, w, front);
      RestoreEachOnlyMoves(env, w, front);
      assert env.restore(mid.keyrings, x).Some?;
      RestoreEachKeepsOrder(env, w, front);
      MapSnoc(Serialize, mid.keyrings, env.restore(mid.keyrings, x).value);
      assert (Map(Serialize, w.keyrings) + front) + [x] == Map(Serialize, w.keyrings) + xs;
    }
  }

  // What rolling `done` back to `w` leaves.
  lemma RolledBack(env: Env, w: Wallet, done: Wallet)
    requires RoundTrips(env) && DestroysCleanly(env, done.keyrings)
    ensures var (back, ok) := Restore(env, done, AllSerialized(w));
            && ok && back == done.(keyrings := back.keyrings, unsupported := back.unsupported)
            && Bag(back) == multiset(done.unsupported) + Bag(w)
            && done.unsupported <= back.unsupported
            && (back.unsupported == done.unsupported ==> Map(Serialize, back.keyrings) == AllSerialized(w))
  {
    var cleared := done.(keyrings := []);
    var back := RestoreEach(env, cleared, AllSerialized(w));
    RestoreEachKeepsAll(env, cleared, AllSerialized(w));
    RestoreEachOnlyMoves(env, cleared, AllSerialized(w));
    if back.unsupported == done.unsupported {
      RestoreEachKeepsOrder(env, cleared, AllSerialized(w));
      assert [] + AllSerialized(w) == AllSerialized(w);
    }
  }

  lemma FailedRun(env: Env, w: Wallet, fn: Wallet -> Effect, vaultFault: bool)
    requires !PersistOrRollback(env, w, false, fn, vaultFault).1
    ensures var done := Apply(w, fn(w));
            var (back, ok) := Restore(env, done, AllSerialized(w));
            PersistOrRollback(env, w, false, fn, vaultFault) ==
                (if ok then back.(password := w.password) else back, false)
  {
    assert !Persist(fn, vaultFault)(w).1;
  }

  lemma Members(w: Wallet, x: Serialized)
    ensures x in AllSerialized(w) <==> x in Bag(w)
  {
  }

  predicate SameKeyrings(a: Wallet, b: Wallet) {
    && (forall x :: x in AllSerialized(a) ==> x in AllSerialized(b))
    && (forall x :: x in AllSerialized(b) ==> x in AllSerialized(a))
  }

  /** A failed operation keeps the vault and the public list. The password is as
      before exactly if the keyrings left by the operation can be destroyed or it had
      not changed the password, and the keyrings are exactly if they can be destroyed
      or it had not changed which there are: otherwise what it left stays. */
  lemma FailedOperationLosesNothingIff(env: Env, w: Wallet, fn: Wallet -> Effect, vaultFault: bool)
    requires RoundTrips(env) && !PersistOrRollback(env, w, false, fn, vaultFault).1
    ensures var w' := PersistOrRollback(env, w, false, fn, vaultFault).0;
            var left, clean := Apply(w, fn(w)), DestroysCleanly(env, fn(w).keyrings);
            && w'.vault == w.vault && w'.view == w.view
            && (w'.password == w.password <==> clean || fn(w).password == w.password)
            && (SameKeyrings(w', w) <==> clean || SameKeyrings(left, w))
            && (w'.isUnlocked == w.isUnlocked <==> fn(w).isUnlocked == w.isUnlocked)
            && (!clean ==> w' == left)
  {
    FailedRun(env, w, fn, vaultFault);
    if DestroysCleanly(env, fn(w).keyrings) {
      FailedOperationLosesNothing(env, w, false, fn, vaultFault);
      RolledBack(env, w, Apply(w, fn(w)));
    }
  }

  /** A failed operation whose keyrings can be destroyed keeps the password, the vault
      and the public list, and no serialized keyring is lost or invented. With nothing
      unsupported before and after, the live list is as before, in order. */
  lemma FailedOperationLosesNothing(env: Env, w: Wallet, fault: bool, fn: Wallet -> Effect, vaultFault: bool)
    requires RoundTrips(env) && DestroysCleanly(env, fn(w).keyrings)
    requires !PersistOrRollback(env, w, fault, fn, vaultFault).1
    ensures var w' := PersistOrRollback(env, w, fault, fn, vaultFault).0;
            && w'.password == w.password && w'.vault == w.vault && w'.view == w.view
            && SameKeyrings(w', w)
            && (w.unsupported == [] == w'.unsupported ==> Map(Serialize, w'.keyrings) == Map(Serialize, w.keyrings))
  {
    if !fault {
      FailedRun(env, w, fn, vaultFault);
      RolledBack(env, w, Apply(w, fn(w)));
      var w' := PersistOrRollback(env, w, fault, fn, vaultFault).0;
      assert Bag(w') == multiset(w.unsupported) + Bag(w);
      forall x ensures x in AllSerialized(w') <==> x in AllSerialized(w) {
        Members(w, x);
        Members(w', x);
      }
    }
  }

  /** Counting copies, the keyrings are as before exactly when none was
      unsupported: rolling back records each unsupported one a second time. */
  lemma RollbackDuplicatesUnsupported(env: Env, w: Wallet, fn: Wallet -> Effect, vaultFault: bool)
    requires RoundTrips(env) && DestroysCleanly(env, fn(w).keyrings)
    requires !PersistOrRollback(env, w, false, fn, vaultFault).1
    ensures var w' := PersistOrRollback(env, w, false, fn, vaultFault).0;
            && Bag(w') == Bag(w) + multiset(w.unsupported)
            && (Bag(w') == Bag(w) <==> w.unsupported == [])
  {
    FailedRun(env, w, fn, vaultFault);
    RolledBack(env, w, Apply(w, fn(w)));
    if w.unsupported != [] {
      assert w.unsupported[0] in multiset(w.unsupported);
    }
  }

  /** Making a new vault that then fails leaves the wallet marked as unlocked or
      locked as it was exactly if it was unlocked, or failed before unlocking: its
      keyrings could not be destroyed, or no keyring with an account was made. */
  lemma FailedVaultKeepsLockIff(env: Env, w: Wallet, password: string, made: Option<Keyring>, vaultFault: bool)
    requires !PersistOrRollback(env, w, false, CreateNewVault(env, password, made), vaultFault).1
    ensures var w' := PersistOrRollback(env, w, false, CreateNewVault(env, password, made), vaultFault).0;
            w'.isUnlocked == w.isUnlocked
            <==> w.isUnlocked || !DestroysCleanly(env, w.keyrings) || made.None? || made.value.accounts == []
  {
    var fn := CreateNewVault(env, password, made);
    FailedRun(env, w, fn, vaultFault);
    RestoreEachOnlyMoves(env, Apply(w, fn(w)).(keyrings := []), AllSerialized(w));
  }

  /** For instance, with an empty password, which no vault can be written under. */
  lemma FailedVaultLeavesUnlocked(env: Env, w: Wallet, k: Keyring)
    requires w.keyrings == [] && !w.isUnlocked && k.accounts != []
    ensures var (w', ok) := PersistOrRollback(env, w, false, CreateNewVault(env, "", Some(k)), false);
            !ok && w'.isUnlocked
  {
    var fn := CreateNewVault(env, "", Some(k));
    assert fn(w) == Effect([k], Some(""), true, true);
    assert !Persist(fn, false)(w).1;
    FailedVaultKeepsLockIff(env, w, "", Some(k), false);
  }

  /** A password that cannot be stored stays held, over a vault under the old one,
      exactly if a keyring cannot be destroyed. */
  lemma FailedChangeKeepsNewPasswordIff(env: Env, w: Wallet, password: string)
    requires RoundTrips(env) && w.isUnlocked && password != "" && Some(password) != w.password
    ensures var (w', ok) := PersistOrRollback(env, w, false, ChangePassword(password), true);
            && !ok && w'.vault == w.vault
            && w'.password == if DestroysCleanly(env, w.keyrings) then w.password else Some(password)
  {
    var fn := ChangePassword(password);
    assert fn(w) == Effect(w.keyrings, Some(password), w.isUnlocked, true);
    assert !Persist(fn, true)(w).1;
    FailedOperationLosesNothingIff(env, w, fn, true);
  }

  // ---------- Rolling back any operation ----------

  // The keyrings left by a failed operation can be destroyed to make room for the old ones.
  predicate RollsBackCleanly(env: Env, w: Wallet, op: Operation) {
    op.fault || Body(env, op)(w).1 || DestroysCleanly(env, Body(env, op)(w).0.keyrings)
  }

  /** If they cannot, what the operation left stays, its password included. */
  lemma FailedRollback(env: Env, w: Wallet, op: Operation)
    requires !RollsBackCleanly(env, w, op)
    ensures Step(env, w, op) == (Body(env, op)(w).0, false)
  {
  }

  lemma PersistIs(w: Wallet, fn: Wallet -> Effect, vaultFault: bool)
    ensures Persist(fn, vaultFault)(w)
         == if fn(w).ok then WriteVault(Apply(w, fn(w)), vaultFault) else (Apply(w, fn(w)), false)
  {
  }

  lemma FailedBodyKeepsVault(env: Env, w: Wallet, op: Operation)
    requires !Body(env, op)(w).1
    ensures Body(env, op)(w).0.vault == w.vault
  {
    match op
    case SubmitPassword(_, password, displayFault, outdated, vaultFault) =>
      UnlockLeaves(env, w, password, displayFault, outdated, vaultFault);
    case Run(_, fn, vaultFault) => PersistIs(w, fn, vaultFault);
    case SetLocked(_) =>
  }

  /** A failed lock keeps everything but the password, which it forgets. */
  lemma FailedLockForgetsPassword(env: Env, w: Wallet)
    requires !Step(env, w, SetLocked(false)).1
    ensures Step(env, w, SetLocked(false)).0 == w.(password := None)
  {
  }

  // The vault opens under the password and the live keyrings make room for what it holds.
  predicate Opens(env: Env, w: Wallet, password: string) {
    && w.vault.Some? && Decrypt(password, w.vault.value).Some? && Decrypt(password, w.vault.value).value.Keyrings?
    && DestroysCleanly(env, w.keyrings)
  }

  function Loaded(env: Env, w: Wallet, password: string): Wallet {
    RestoreEach(env, w.(password := Some(password), keyrings := []), Stored(w))
  }

  /** What a failed unlock leaves before rolling back, and after a rollback that fails. */
  lemma UnlockLeaves(env: Env, w: Wallet, password: string, displayFault: bool, outdated: bool, vaultFault: bool)
    requires !TryUnlock(env, w, password, displayFault, outdated, vaultFault).1
    ensures var left, op := TryUnlock(env, w, password, displayFault, outdated, vaultFault).0,
                            SubmitPassword(false, password, displayFault, outdated, vaultFault);
            && left.vault == w.vault && left.isUnlocked == w.isUnlocked
            && left.password == (if w.vault.Some? &&
                Decrypt(password, w.vault.value).Some? then Some(password) else w.password)
            && (if Opens(env, w, password) then
                  && left.keyrings == Loaded(env, w, password).keyrings
                  && left.unsupported == Loaded(env, w, password).unsupported
                  && left.view == (if displayFault then w.view else Map(DisplayFor, Loaded(env, w, password).keyrings))
                else left.keyrings == w.keyrings && left.unsupported == w.unsupported && left.view == w.view)
            && (!RollsBackCleanly(env, w, op) ==> Step(env, w, op) == (left, false))
  {
    RestoreEachOnlyMoves(env, w.(password := Some(password), keyrings := []), Stored(w));
  }

  /** A failed unlock keeps the vault, the password and whether the wallet is
      unlocked. If the vault did not open it also keeps the keyrings and the public
      list. If it opened, what it holds unsupported is added, and the public list
      shows its keyrings if it failed after listing them. */
  lemma FailedUnlockKeeps(env: Env, w: Wallet, password: string, displayFault: bool, outdated: bool, vaultFault: bool)
    requires RoundTrips(env)
    requires var op := SubmitPassword(false, password, displayFault, outdated, vaultFault);
             !Step(env, w, op).1 && RollsBackCleanly(env, w, op)
    ensures var w' := Step(env, w, SubmitPassword(false, password, displayFault, outdated, vaultFault)).0;
            && w'.vault == w.vault && w'.password == w.password && w'.isUnlocked == w.isUnlocked
            && (forall x :: x in AllSerialized(w') <==>
                  x in AllSerialized(w) || (Opens(env, w, password) && x in Loaded(env, w, password).unsupported))
            && w'.view == if Opens(env, w, password) &&
                !displayFault then Map(DisplayFor, Loaded(env, w, password).keyrings) else w.view
  {
    var left := TryUnlock(env, w, password, displayFault, outdated, vaultFault).0;
    UnlockLeaves(env, w, password, displayFault, outdated, vaultFault);
    RolledBackTo(env, w, left);
    assert forall x :: x in w.unsupported ==> x in AllSerialized(w);
  }

  // The keyrings after rolling back are those from before and the unsupported ones left.
  lemma RolledBackTo(env: Env, w: Wallet, left: Wallet)
    requires RoundTrips(env) && DestroysCleanly(env, left.keyrings)
    ensures var w' := Restore(env, left, AllSerialized(w)).0.(password := w.password);
            && w' == left.(keyrings := w'.keyrings, unsupported := w'.unsupported, password := w.password)
            && forall x :: x in AllSerialized(w') <==> x in AllSerialized(w) || x in left.unsupported
  {
    RolledBack(env, w, left);
    var w' := Restore(env, left, AllSerialized(w)).0;
    forall x ensures x in AllSerialized(w') <==> x in AllSerialized(w) || x in left.unsupported {
      Members(w', x);
      Members(w, x);
      assert x in left.unsupported <==> x in multiset(left.unsupported);
    }
    assert AllSerialized(w'.(password := w.password)) == AllSerialized(w');
  }

  /** So the keyrings are as before exactly if the vault did not open or held nothing
      unsupported that was not there before. */
  lemma FailedUnlockKeepsKeyringsIff(env: Env, w: Wallet, password: string, displayFault: bool, outdated: bool,
      vaultFault: bool)
    requires RoundTrips(env)
    requires var op := SubmitPassword(false, password, displayFault, outdated, vaultFault);
             !Step(env, w, op).1 && RollsBackCleanly(env, w, op)
    ensures SameKeyrings(Step(env, w, SubmitPassword(false, password, displayFault, outdated, vaultFault)).0, w)
       <==> (Opens(env, w, password) ==>
               forall x :: x in Loaded(env, w, password).unsupported ==> x in AllSerialized(w))
  {
    FailedUnlockKeeps(env, w, password, displayFault, outdated, vaultFault);
  }

  // ---------- The vault over whole runs ----------

  // The keyrings in the vault, if it holds any.
  function Stored(w: Wallet): seq<Serialized> {
    if w.vault.None? || w.vault.value.payload.Malformed? then [] else w.vault.value.payload.all
  }

  ghost predicate Within(a: seq<Serialized>, b: seq<Serialized>) {
    forall x :: x in a ==> x in b
  }

  /** What the wallet holds is in the vault; with a password held, the password
      opens the vault and the two hold the same keyrings. */
  ghost predicate Agrees(w: Wallet) {
    && Within(AllSerialized(w), Stored(w))
    && (w.password.Some? ==>
          && w.vault.Some? && Decrypt(w.password.value, w.vault.value) == Some(Keyrings(Stored(w)))
          && Within(Stored(w), AllSerialized(w)))
  }

  lemma RestoredMembers(env: Env, w: Wallet, xs: seq<Serialized>, x: Serialized)
    requires RoundTrips(env)
    ensures x in AllSerialized(RestoreEach(env, w, xs)) <==> x in AllSerialized(w) || x in xs
  {
    RestoreEachKeepsAll(env, w, xs);
    Members(w, x);
    Members(RestoreEach(env, w, xs), x);
    assert x in xs <==> x in multiset(xs);
  }

  // Rolling back to a wallet that agreed with the vault still in place.
  lemma RollbackAgrees(env: Env, w: Wallet, done: Wallet)
    requires RoundTrips(env) && DestroysCleanly(env, done.keyrings) && Agrees(w)
    requires done.vault == w.vault && Within(done.unsupported, Stored(w))
    ensures Agrees(Restore(env, done, AllSerialized(w)).0.(password := w.password))
  {
    var cleared := done.(keyrings := []);
    var back := RestoreEach(env, cleared, AllSerialized(w));
    RestoreEachOnlyMoves(env, cleared, AllSerialized(w));
    forall x ensures x in AllSerialized(back) <==> x in done.unsupported || x in AllSerialized(w) {
      RestoredMembers(env, cleared, AllSerialized(w), x);
      assert AllSerialized(cleared) == done.unsupported;
    }
    assert AllSerialized(back.(password := w.password)) == AllSerialized(back);
  }

  lemma UpdateAgrees(w: Wallet, fault: bool)
    requires WriteVault(w, fault).1
    ensures Agrees(WriteVault(w, fault).0) && HasHd(Stored(WriteVault(w, fault).0))
  {
    assert AllSerialized(WriteVault(w, fault).0) == AllSerialized(w);
  }

  lemma RunAgrees(env: Env, w: Wallet, fn: Wallet -> Effect, vaultFault: bool)
    requires RoundTrips(env) && Agrees(w)
    requires PersistOrRollback(env, w, false, fn, vaultFault).1 || DestroysCleanly(env, fn(w).keyrings)
    ensures Agrees(PersistOrRollback(env, w, false, fn, vaultFault).0)
  {
    if PersistOrRollback(env, w, false, fn, vaultFault).1 {
      assert Persist(fn, vaultFault)(w).1;
      UpdateAgrees(Apply(w, fn(w)), vaultFault);
    } else {
      FailedRun(env, w, fn, vaultFault);
      RollbackAgrees(env, w, Apply(w, fn(w)));
    }
  }

  // The wallet once the vault's keyrings have been restored into it.
  lemma OpenedAgrees(env: Env, w: Wallet, password: string)
    requires RoundTrips(env) && DestroysCleanly(env, w.keyrings) && Agrees(w)
    requires w.vault.Some? && Decrypt(password, w.vault.value) == Some(Keyrings(Stored(w)))
    ensures var (loaded, ok) := Restore(env, w.(password := Some(password)), Stored(w));
            ok && Agrees(loaded) && loaded.vault == w.vault && loaded.password == Some(password)
            && Within(loaded.unsupported, Stored(w))
  {
    var cleared := w.(password := Some(password), keyrings := []);
    var loaded := RestoreEach(env, cleared, Stored(w));
    RestoreEachOnlyMoves(env, cleared, Stored(w));
    forall x ensures x in AllSerialized(loaded) <==> x in Stored(w) {
      RestoredMembers(env, cleared, Stored(w), x);
      assert AllSerialized(cleared) == w.unsupported;
    }
  }

  lemma RelabelAgrees(w: Wallet, view: seq<Display>, isUnlocked: bool)
    requires Agrees(w)
    ensures Agrees(w.(view := view)) && Agrees(w.(isUnlocked := isUnlocked))
  {
    assert AllSerialized(w.(view := view)) == AllSerialized(w.(isUnlocked := isUnlocked)) == AllSerialized(w);
  }

  lemma FinishAgrees(w: Wallet, update: bool, vaultFault: bool)
    requires Agrees(w)
    ensures var (done, ok) := FinishUnlock(w, update, vaultFault);
            if ok then Agrees(done) else done.vault == w.vault && done.unsupported == w.unsupported
  {
    var view := Map(DisplayFor, w.keyrings);
    RelabelAgrees(w, view, true);
    RelabelAgrees(w.(view := view), view, true);
    if WriteVault(w.(view := view), vaultFault).1 {
      UpdateAgrees(w.(view := view), vaultFault);
      RelabelAgrees(WriteVault(w.(view := view), vaultFault).0, view, true);
    }
  }

  lemma UnsupportedWithin(w: Wallet)
    requires Agrees(w)
    ensures Within(w.unsupported, Stored(w))
  {
    assert forall x :: x in w.unsupported ==> x in AllSerialized(w);
  }

  lemma UnlockAgrees(env: Env, w: Wallet, password: string, displayFault: bool, outdated: bool, vaultFault: bool)
    requires RoundTrips(env) && Agrees(w)
    ensures var (done, ok) := TryUnlock(env, w, password, displayFault, outdated, vaultFault);
            if ok then Agrees(done) else done.vault == w.vault && Within(done.unsupported, Stored(w))
  {
    UnsupportedWithin(w);
    if Opens(env, w, password) {
      OpenedAgrees(env, w, password);
      var loaded := Restore(env, w.(password := Some(password)), Stored(w)).0;
      FinishAgrees(loaded, password != "" && outdated, vaultFault);
    }
  }

  /** Every operation, failed or not, keeps wallet and vault in agreement, unless it
      fails and leaves keyrings that cannot be destroyed. */
  lemma StepAgrees(env: Env, w: Wallet, op: Operation)
    requires RoundTrips(env) && Agrees(w) && RollsBackCleanly(env, w, op)
    ensures Agrees(Step(env, w, op).0)
  {
    if !op.fault {
      match op
      case Run(_, fn, vaultFault) =>
        PersistIs(w, fn, vaultFault);
        RunAgrees(env, w, fn, vaultFault);
      case SubmitPassword(_, password, displayFault, outdated, vaultFault) =>
        UnlockAgrees(env, w, password, displayFault, outdated, vaultFault);
        var (done, ok) := TryUnlock(env, w, password, displayFault, outdated, vaultFault);
        if !ok { RollbackAgrees(env, w, done); }
      case SetLocked(_) =>
        var locked := Lock(env)(w).0;
        assert AllSerialized(locked) == w.unsupported;
        UnsupportedWithin(w);
    }
  }

  /** In that case they agree afterwards exactly if what it left is within the vault
      and, if it holds a password, opens the vault and has all that is there. If the
      wallet held a password before, it has to be the same one. */
  lemma FailedRollbackAgreesIff(env: Env, w: Wallet, op: Operation)
    requires Agrees(w) && !RollsBackCleanly(env, w, op)
    ensures var left := Body(env, op)(w).0;
            Agrees(Step(env, w, op).0) <==>
            && Within(AllSerialized(left), Stored(w))
            && (left.password.Some? ==>
                  && w.vault.Some? && Decrypt(left.password.value, w.vault.value) == Some(Keyrings(Stored(w)))
                  && Within(Stored(w), AllSerialized(left)))
    ensures var left := Body(env, op)(w).0;
            w.password.Some? ==>
              (Agrees(Step(env, w, op).0) <==>
               && Within(AllSerialized(left), AllSerialized(w))
               && (left.password.Some? ==>
                   left.password == w.password && Within(AllSerialized(w), AllSerialized(left))))
  {
    FailedRollback(env, w, op);
    FailedBodyKeepsVault(env, w, op);
  }

  /** After a failed unlock whose rollback fails too they agree exactly if the vault
      opened, or the password was wrong, or the wallet had all that is in the vault. */
  lemma FailedUnlockAgreesIff(env: Env, w: Wallet, password: string, displayFault: bool, outdated: bool,
      vaultFault: bool)
    requires RoundTrips(env) && Agrees(w)
    requires !RollsBackCleanly(env, w, SubmitPassword(false, password, displayFault, outdated, vaultFault))
    ensures Agrees(Step(env, w, SubmitPassword(false, password, displayFault, outdated, vaultFault)).0) <==>
            || Opens(env, w, password)
            || w.vault.None? || Decrypt(password, w.vault.value).None?
            || Within(Stored(w), AllSerialized(w))
  {
    var left := TryUnlock(env, w, password, displayFault, outdated, vaultFault).0;
    UnlockLeaves(env, w, password, displayFault, outdated, vaultFault);
    if Opens(env, w, password) {
      OpenedAgrees(env, w, password);
      assert AllSerialized(left) == AllSerialized(Loaded(env, w, password));
    } else {
      assert AllSerialized(left) == AllSerialized(w);
      if w.vault.Some? && w.vault.value.payload.Malformed? {
        NothingStoredNothingLive(w);
      }
    }
  }

  lemma NothingStoredNothingLive(w: Wallet)
    requires Agrees(w) && Stored(w) == []
    ensures w.keyrings == []
  {
    assert AllSerialized(w) != [] ==> AllSerialized(w)[0] in AllSerialized(w);
  }

  // A failed operation that cannot be rolled back has left what agrees with the vault.
  ghost predicate FailsHarmlessly(env: Env, w: Wallet, op: Operation) {
    RollsBackCleanly(env, w, op) || Agrees(Body(env, op)(w).0)
  }

  /** So one operation keeps the agreement exactly if it finishes, rolls back, or has
      left what agrees. */
  lemma StepAgreesIff(env: Env, w: Wallet, op: Operation)
    requires RoundTrips(env) && Agrees(w)
    ensures Agrees(Step(env, w, op).0) <==> FailsHarmlessly(env, w, op)
  {
    if RollsBackCleanly(env, w, op) {
      StepAgrees(env, w, op);
    }
  }

  ghost predicate AgreesThroughout(env: Env, w: Wallet, ops: seq<Operation>)
    decreases |ops|
  {
    Agrees(w) && (ops != [] ==> AgreesThroughout(env, Step(env, w, ops[0]).0, ops[1..]))
  }

  ghost predicate AllFailHarmlessly(env: Env, w: Wallet, ops: seq<Operation>)
    decreases |ops|
  {
    ops != [] ==> FailsHarmlessly(env, w, ops[0]) && AllFailHarmlessly(env, Step(env, w, ops[0]).0, ops[1..])
  }

  /** And wallet and vault agree throughout a run exactly if each of its operations
      finishes, rolls back, or has left what agrees. */
  lemma {:induction false} AgreesThroughoutIff(env: Env, w: Wallet, ops: seq<Operation>)
    requires RoundTrips(env) && Agrees(w)
    ensures AgreesThroughout(env, w, ops) <==> AllFailHarmlessly(env, w, ops)
    decreases |ops|
  {
    if ops != [] {
      StepAgreesIff(env, w, ops[0]);
      if FailsHarmlessly(env, w, ops[0]) {
        AgreesThroughoutIff(env, Step(env, w, ops[0]).0, ops[1..]);
      }
    }
  }

  function After(env: Env, w: Wallet, ops: seq<Operation>): Wallet
    decreases |ops|
  {
    if ops == [] then w else After(env, Step(env, w, ops[0]).0, ops[1..])
  }

  predicate AllRollBackCleanly(env: Env, w: Wallet, ops: seq<Operation>)
    decreases |ops|
  {
    ops != [] ==> RollsBackCleanly(env, w, ops[0]) && AllRollBackCleanly(env, Step(env, w, ops[0]).0, ops[1..])
  }

  /** From a wallet whose keyrings are not loaded yet, after any run of operations,
      failed or not, that roll back when they fail: if a password is held it opens the
      vault, and the vault holds exactly the live and unsupported keyrings. */
  lemma {:induction false} VaultAgreesOverRuns(env: Env, w: Wallet, ops: seq<Operation>)
    requires RoundTrips(env) && AllRollBackCleanly(env, w, ops)
    requires Agrees(w) || (w.keyrings == [] && w.unsupported == [] && w.password.None?)
    ensures var w' := After(env, w, ops);
            w'.password.Some? ==>
              && w'.vault.Some? && Decrypt(w'.password.value, w'.vault.value) == Some(Keyrings(Stored(w')))
              && forall x :: x in Stored(w') <==> x in AllSerialized(w')
    decreases |ops|
  {
    assert Agrees(w) by {
      if w.keyrings == [] && w.unsupported == [] { assert AllSerialized(w) == []; }
    }
    if ops != [] {
      StepAgrees(env, w, ops[0]);
      VaultAgreesOverRuns(env, Step(env, w, ops[0]).0, ops[1..]);
    }
  }

  lemma RollbackKeepsVault(env: Env, w: Wallet, done: Wallet)
    ensures Restore(env, done, AllSerialized(w)).0.vault == done.vault
  {
    RestoreEachOnlyMoves(env, done.(keyrings := []), AllSerialized(w));
  }

  lemma UnlockWrites(env: Env, w: Wallet, password: string, displayFault: bool, outdated: bool, vaultFault: bool)
    ensures var (done, ok) := TryUnlock(env, w, password, displayFault, outdated, vaultFault);
            done.vault != w.vault ==> ok && HasHd(Stored(done))
  {
    if w.vault.Some? && w.vault.value.password == password && w.vault.value.payload.Keyrings? {
      var (loaded, ok) := Restore(env, w.(password := Some(password)), Stored(w));
      RestoreEachOnlyMoves(env, w.(password := Some(password), keyrings := []), Stored(w));
      var shown := loaded.(view := Map(DisplayFor, loaded.keyrings));
      if WriteVault(shown, vaultFault).1 {
        UpdateAgrees(shown, vaultFault);
      }
    }
  }

  /** A vault is written only by an operation that succeeds, and holds an HD keyring. */
  lemma VaultsWrittenHoldHd(env: Env, w: Wallet, op: Operation)
    requires Step(env, w, op).0.vault != w.vault
    ensures Step(env, w, op).1 && HasHd(Stored(Step(env, w, op).0))
  {
    match op
    case Run(fault, fn, vaultFault) =>
      if Persist(fn, vaultFault)(w).1 {
        UpdateAgrees(Apply(w, fn(w)), vaultFault);
      } else {
        RollbackKeepsVault(env, w, Apply(w, fn(w)));
      }
    case SubmitPassword(fault, password, displayFault, outdated, vaultFault) =>
      UnlockWrites(env, w, password, displayFault, outdated, vaultFault);
      RollbackKeepsVault(env, w, TryUnlock(env, w, password, displayFault, outdated, vaultFault).0);
    case SetLocked(fault) =>
      RollbackKeepsVault(env, w, w.(password := None));
  }
}
