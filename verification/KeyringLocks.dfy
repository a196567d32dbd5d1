/**
 The two nested locks of the keyring controller, with any number of operations
 interleaving at their await points. Unlocking an outdated vault gives the vault
 lock back early and takes it again; its first releaser is still called at the
 end and must then do nothing.
 */
module KeyringLocks {
  import opened Prelude

  // ---------- The mutex contract ----------

  // Who holds the lock, under which acquisition.
  datatype Grant = Grant(op: nat, ticket: nat)

  // `called` are the tickets whose releaser was called; calling one again does nothing.
  datatype Mutex = Mutex(holder: Option<Grant>, queue: seq<nat>, called: set<nat>, next: nat)

  const FREE: Mutex := Mutex(None, [], {}, 0)

  function Acquire(m: Mutex, op: nat): Mutex {
    if m.holder.None? then m.(holder := Some(Grant(op, m.next)), next := m.next + 1)
    else m.(queue := m.queue + [op])
  }

  // The first call frees the lock whoever holds it, and passes it to the first in line.
  function Release(m: Mutex, ticket: nat): Mutex {
    if ticket in m.called then m
    else if m.queue == [] then m.(holder := None, called := m.called + {ticket})
    else m.(holder := Some(Grant(m.queue[0], m.next)), next := m.next + 1, queue := m.queue[1..],
            called := m.called + {ticket})
  }

  // ---------- Operations ----------

  // Where an operation is. `controller`, `first` and `second` are the tickets it got.
  datatype Place =
    | NotStarted
    | AwaitingController
    | InBody(controller: nat)
    | AwaitingVault(controller: nat)
    | InVault(controller: nat, first: nat)
    | BetweenVaultLocks(controller: nat, first: nat)
    | AwaitingVaultAgain(controller: nat, first: nat)
    | InVaultAgain(controller: nat, first: nat, second: nat)
    | AfterInnerLock(controller: nat, first: nat)
    | Leaving(controller: nat)
    | Done

  datatype System = System(places: seq<Place>, controller: Mutex, vault: Mutex)

  datatype Move =
    | AskForController
    | EnterBody
    | LeaveBody            // finished without the vault, or threw
    | AskForVault
    | EnterVault
    | LeaveVault           // finished or threw; the releaser is called on the way out
    | ReleaseVaultEarly
    | AskForVaultAgain
    | EnterVaultAgain
    | LeaveInnerLock
    | CallFirstReleaser    // at the end of the outer lock
    | ReleaseController

  predicate HoldsNew(m: Mutex, op: nat) {
    m.holder.Some? && m.holder.value.op == op
  }

  predicate Enabled(s: System, op: nat, move: Move) {
    && op < |s.places|
    && var p := s.places[op];
       match move
       case AskForController => p.NotStarted?
       case EnterBody => p.AwaitingController? && HoldsNew(s.controller, op)
       case LeaveBody => p.InBody?
       case AskForVault => p.InBody?
       case EnterVault => p.AwaitingVault? && HoldsNew(s.vault, op)
       case LeaveVault => p.InVault?
       case ReleaseVaultEarly => p.InVault?
       case AskForVaultAgain => p.BetweenVaultLocks?
       case EnterVaultAgain =>
         p.AwaitingVaultAgain? && HoldsNew(s.vault, op) && s.vault.holder.value.ticket != p.first
       case LeaveInnerLock => p.InVaultAgain?
       case CallFirstReleaser => p.AfterInnerLock?
       case ReleaseController => p.Leaving?
  }

  function Step(s: System, op: nat, move: Move): System
    requires Enabled(s, op, move)
  {
    var p := s.places[op];
    var at := (q: Place) => s.places[op := q];
    match move
    case AskForController => s.(places := at(AwaitingController), controller := Acquire(s.controller, op))
    case EnterBody => s.(places := at(InBody(s.controller.holder.value.ticket)))
    case LeaveBody => s.(places := at(Leaving(p.controller)))
    case AskForVault => s.(places := at(AwaitingVault(p.controller)), vault := Acquire(s.vault, op))
    case EnterVault => s.(places := at(InVault(p.controller, s.vault.holder.value.ticket)))
    case LeaveVault => s.(places := at(Leaving(p.controller)), vault := Release(s.vault, p.first))
    case ReleaseVaultEarly => s.(places := at(BetweenVaultLocks(p.controller, p.first)),
        vault := Release(s.vault, p.first))
    case AskForVaultAgain => s.(places := at(AwaitingVaultAgain(p.controller, p.first)), vault := Acquire(s.vault, op))
    case EnterVaultAgain => s.(places := at(InVaultAgain(p.controller, p.first, s.vault.holder.value.ticket)))
    case LeaveInnerLock => s.(places := at(AfterInnerLock(p.controller, p.first)), vault := Release(s.vault, p.second))
    case CallFirstReleaser => s.(places := at(Leaving(p.controller)), vault := Release(s.vault, p.first))
    case ReleaseController => s.(places := at(Done), controller := Release(s.controller, p.controller))
  }

  // ---------- The invariant ----------

  predicate Running(p: Place) {
    !p.NotStarted? && !p.AwaitingController? && !p.Done?
  }

  predicate WellKept(m: Mutex) {
    && (m.holder.None? ==> m.queue == [])
    && (m.holder.Some? ==> m.holder.value.ticket < m.next && m.holder.value.ticket !in m.called)
    && (forall t :: t in m.called ==> t < m.next)
  }

  // Between holding the lock and the queue, every waiting operation appears once.
  ghost predicate ControllerInv(s: System) {
    var m := s.controller;
    && WellKept(m)
    && (m.holder.Some? ==>
          var g := m.holder.value;
          && g.op < |s.places| && g.op !in m.queue
          && (s.places[g.op].AwaitingController?
              || (Running(s.places[g.op]) && s.places[g.op].controller == g.ticket)))
    && (forall i :: 0 <= i < |m.queue| ==> m.queue[i] < |s.places| && s.places[m.queue[i]].AwaitingController?)
    && (forall i, j :: 0 <= i < j < |m.queue| ==> m.queue[i] != m.queue[j])
    && (forall op :: 0 <= op < |s.places| && Running(s.places[op]) ==> HoldsNew(m, op))
    && (forall op: nat :: op < |s.places| && s.places[op].AwaitingController? ==> HoldsNew(m, op) || op in m.queue)
  }

  // What the vault lock looks like from the running operation.
  predicate VaultFits(p: Place, op: nat, m: Mutex) {
    match p
    case AwaitingVault(_) => HoldsNew(m, op)
    case InVault(_, first) => m.holder == Some(Grant(op, first))
    case BetweenVaultLocks(_, first) => m.holder.None? && first in m.called
    case AwaitingVaultAgain(_, first) => HoldsNew(m, op) && first in m.called
    case InVaultAgain(_, first, second) => m.holder == Some(Grant(op, second)) && first in m.called
    case AfterInnerLock(_, first) => m.holder.None? && first in m.called
    case _ => m.holder.None?
  }

  ghost predicate VaultInv(s: System) {
    && WellKept(s.vault) && s.vault.queue == []
    && (forall op :: 0 <= op < |s.places| && Running(s.places[op]) ==> VaultFits(s.places[op], op, s.vault))
    && (s.vault.holder.Some? ==>
          s.vault.holder.value.op < |s.places| && Running(s.places[s.vault.holder.value.op]))
  }

  ghost predicate Inv(s: System) {
    ControllerInv(s) && VaultInv(s)
  }

  lemma OnlyOneRuns(s: System, a: nat, b: nat)
    requires ControllerInv(s) && a < |s.places| && b < |s.places|
    requires Running(s.places[a]) && Running(s.places[b])
    ensures a == b
  {
  }

  lemma ReleaseKeepsController(s: System, op: nat)
    requires Inv(s) && Enabled(s, op, ReleaseController)
    ensures ControllerInv(Step(s, op, ReleaseController))
  {
    var s' := Step(s, op, ReleaseController);
    var m, m' := s.controller, s'.controller;
    assert HoldsNew(m, op) && s.places[op].controller == m.holder.value.ticket;
    forall a | 0 <= a < |s.places| ensures !Running(s'.places[a]) {
      if Running(s.places[a]) { OnlyOneRuns(s, a, op); }
    }
    forall a: nat | a < |s.places| && s'.places[a].AwaitingController?
      ensures HoldsNew(m', a) || a in m'.queue
    {
      assert a in m.queue;
    }
  }

  lemma StepKeepsController(s: System, op: nat, move: Move)
    requires Inv(s) && Enabled(s, op, move)
    ensures ControllerInv(Step(s, op, move))
  {
    if move.ReleaseController? {
      ReleaseKeepsController(s, op);
    } else if move.AskForController? {
    } else {
      var s' := Step(s, op, move);
      assert s'.controller == s.controller;
    }
  }

  lemma StepKeepsVault(s: System, op: nat, move: Move)
    requires Inv(s) && Enabled(s, op, move)
    ensures VaultInv(Step(s, op, move))
  {
    if s.vault.holder.Some? { assert HoldsNew(s.controller, s.vault.holder.value.op); }
  }

  // ---------- Whole runs ----------

  function Initial(n: nat): System {
    System(seq(n, _ => NotStarted), FREE, FREE)
  }

  ghost predicate IsRun(s: System, run: seq<(nat, Move)>)
    decreases |run|
  {
    run == [] || (Enabled(s, run[0].0, run[0].1) && IsRun(Step(s, run[0].0, run[0].1), run[1..]))
  }

  ghost function After(s: System, run: seq<(nat, Move)>): System
    requires IsRun(s, run)
    decreases |run|
  {
    if run == [] then s else After(Step(s, run[0].0, run[0].1), run[1..])
  }

  lemma {:induction false} RunsKeepInv(s: System, run: seq<(nat, Move)>)
    requires Inv(s) && IsRun(s, run)
    ensures Inv(After(s, run)) && |After(s, run).places| == |s.places|
    decreases |run|
  {
    if run != [] {
      StepKeepsController(s, run[0].0, run[0].1);
      StepKeepsVault(s, run[0].0, run[0].1);
      RunsKeepInv(Step(s, run[0].0, run[0].1), run[1..]);
    }
  }

  predicate HoldsVault(p: Place) {
    p.InVault? || p.InVaultAgain?
  }

  /** In every interleaving at most one operation runs, and the vault lock is held
      by it or by nobody. */
  lemma AtMostOneRuns(n: nat, run: seq<(nat, Move)>, a: nat, b: nat)
    requires IsRun(Initial(n), run) && a < n && b < n
    ensures var s := After(Initial(n), run);
            && |s.places| == n
            && (Running(s.places[a]) && Running(s.places[b]) ==> a == b)
            && (HoldsNew(s.vault, a) ==> Running(s.places[a]))
            && (HoldsVault(s.places[a]) ==> HoldsNew(s.vault, a))
  {
    RunsKeepInv(Initial(n), run);
    var s := After(Initial(n), run);
    if Running(s.places[a]) && Running(s.places[b]) {
      OnlyOneRuns(s, a, b);
    }
  }

  /** The releaser called last, after the early release, finds its ticket used and
      frees nothing; every release that does free a lock is by its holder. */
  lemma ReleasesAreSafe(n: nat, run: seq<(nat, Move)>, op: nat, move: Move)
    requires IsRun(Initial(n), run) && Enabled(After(Initial(n), run), op, move)
    ensures var s := After(Initial(n), run);
            var s' := Step(s, op, move);
            && (move.CallFirstReleaser? ==> s'.vault == s.vault)
            && (s.vault.holder.Some? && s'.vault.holder != s.vault.holder ==> s.vault.holder.value.op == op)
            && (s.controller.holder.Some? && s'.controller.holder != s.controller.holder ==>
                s.controller.holder.value.op == op)
  {
    RunsKeepInv(Initial(n), run);
  }

  predicate Unfinished(p: Place) {
    !p.NotStarted? && !p.Done?
  }

  // The move an operation makes once its body is done with what it awaits.
  function NextMove(p: Place): Move
    requires Unfinished(p)
  {
    match p
    case AwaitingController => EnterBody
    case InBody(_) => LeaveBody
    case AwaitingVault(_) => EnterVault
    case InVault(_, _) => LeaveVault
    case BetweenVaultLocks(_, _) => AskForVaultAgain
    case AwaitingVaultAgain(_, _) => EnterVaultAgain
    case InVaultAgain(_, _, _) => LeaveInnerLock
    case AfterInnerLock(_, _) => CallFirstReleaser
    case Leaving(_) => ReleaseController
  }

  /** No deadlock: while an operation is unfinished, some unfinished one can move. */
  lemma SomeoneCanProceed(n: nat, run: seq<(nat, Move)>, op: nat) returns (who: nat)
    requires IsRun(Initial(n), run) && op < n
    requires |After(Initial(n), run).places| == n && Unfinished(After(Initial(n), run).places[op])
    ensures var s := After(Initial(n), run);
            who < n && Unfinished(s.places[who]) && Enabled(s, who, NextMove(s.places[who]))
  {
    RunsKeepInv(Initial(n), run);
    var s := After(Initial(n), run);
    assert s.controller.holder.Some?;
    who := s.controller.holder.value.op;
  }

  // ---------- Why the early release is there ----------

  // Asking for the vault lock again while still holding it.
  function AskWithoutReleasing(s: System, op: nat): System
    requires Enabled(s, op, ReleaseVaultEarly)
  {
    s.(places := s.places[op := AwaitingVaultAgain(s.places[op].controller, s.places[op].first)],
       vault := Acquire(s.vault, op))
  }

  ghost predicate Stuck(s: System, op: nat) {
    && op < |s.places| && s.places[op].AwaitingVaultAgain?
    && s.vault.holder == Some(Grant(op, s.places[op].first))
    && HoldsNew(s.controller, op)
    && forall other :: 0 <= other < |s.places| && other != op ==> !Running(s.places[other])
  }

  lemma {:induction false} StuckStays(s: System, op: nat, run: seq<(nat, Move)>)
    requires Stuck(s, op) && IsRun(s, run)
    ensures forall i :: 0 <= i < |run| ==> run[i].1 == AskForController
    decreases |run|
  {
    if run != [] {
      var s' := Step(s, run[0].0, run[0].1);
      StuckStays(s', op, run[1..]);
      assert forall i :: 0 < i < |run| ==> run[i] == run[1..][i - 1];
    }
  }

  /** Without the early release everything stops for good: whatever is tried, all
      that can happen is further operations joining the queue. */
  lemma WithoutEarlyReleaseNothingMoves(s: System, op: nat, run: seq<(nat, Move)>)
    requires Inv(s) && Enabled(s, op, ReleaseVaultEarly) && IsRun(AskWithoutReleasing(s, op), run)
    ensures forall i :: 0 <= i < |run| ==> run[i].1 == AskForController
  {
    var stuck := AskWithoutReleasing(s, op);
    forall other | 0 <= other < |s.places| && other != op ensures !Running(stuck.places[other]) {
      if Running(s.places[other]) { OnlyOneRuns(s, other, op); }
    }
    StuckStays(stuck, op, run);
  }
}
