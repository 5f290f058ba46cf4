/**
 The marker protocol around registered-target transitions.

 Any number of launcher processes interleave. Each invocation tightens the
 managed policy and adds a marker, runs its owner operation without the
 registration lock, then drops its marker and reconciles to the inventory it
 finds. A process may die between any two steps; its locks go with it, its
 marker and its journal stay.
 */
module ApprovalProtocol {
  import opened Prelude
  import opened ApprovalItems
  import opened ApprovalLedger

  type Id = nat

  /** Everything a commit replaces. The marker file keeps a process number for each
      marker; the model keeps the inventory that invocation tightened for. */
  datatype Durable = Durable(managed: Managed, markers: map<Id, Inventory>)

  // ---------------------------------------------------------------------
  // What an invocation is about to do
  // ---------------------------------------------------------------------

  datatype Kind =
    | Add(root: string, contract: string)
    | Remove(root: string)
    | Install(root: string, contract: string)
    | Prune(stale: set<string>)
    | Migrate(found: Inventory)
    | Unchanged

  function Future(kind: Kind, roots: Inventory): Inventory {
    match kind
    case Add(root, contract) => if root in roots then roots else roots[root := contract]
    case Remove(root) => Without(roots, root)
    case Install(root, contract) => roots[root := contract]
    case Prune(stale) => roots - stale
    case Migrate(found) => found + roots
    case Unchanged => roots
  }

  /** The owner operation changed the registered Brains from `before` to `after` as an invocation of this kind does. */
  ghost predicate Makes(kind: Kind, before: Inventory, after: Inventory) {
    match kind
    case Add(root, contract) =>
      Lookup(after, root) == (if root in before then Lookup(before, root) else Some(contract)) && SameBut({root}, before, after)
    case Remove(root) => root !in after && SameBut({root}, before, after)
    case Install(root, contract) => Lookup(after, root) == Some(contract) && SameBut({root}, before, after)
    case Prune(stale) => after.Keys !! stale && SameBut(stale, before, after)
    case Migrate(found) =>
      && (forall root | root in before :: Lookup(after, root) == Lookup(before, root))
      && (forall root | root in found && root !in before :: Lookup(after, root) == Lookup(found, root))
      && (forall root | root in after :: root in before || root in found)
    case Unchanged => SameBut({}, before, after)
  }

  ghost predicate SameBut(roots: set<string>, before: Inventory, after: Inventory) {
    forall root | root !in roots :: Lookup(after, root) == Lookup(before, root)
  }

  /** What an invocation tightens for is exactly what its operation makes of the registered Brains. */
  lemma FutureIsWhatItMakes(kind: Kind, before: Inventory, after: Inventory)
    ensures Makes(kind, before, after) <==> after == Future(kind, before)
  {
    if Makes(kind, before, after) {
      forall root
        ensures Lookup(after, root) == Lookup(Future(kind, before), root)
      {
      }
      SameMaps(after, Future(kind, before));
    }
  }

  // ---------------------------------------------------------------------
  // The transition system
  // ---------------------------------------------------------------------

  /** Invocations run Ready..Dropping; the others are approval management and recovery. */
  datatype Phase =
    | Ready | Tightening | Executing | Returned | Dropping
    | Manager | Managing | Recovering

  datatype State = State(
    durable: Durable,
    journal: Option<Durable>,          // a journalled commit's after-image, until it is finished or recovered
    base: Managed,                     // its before-image
    removing: set<Selection>,          // the targets it removes
    inventory: Inventory,              // the registered Brains right now
    registration: Option<Id>,          // holder of the registration lock
    locks: map<Id, Id>,                // operation lock of an invocation -> its holder
    procs: map<Id, Phase>,             // live processes
    used: set<Id>)                     // every identity ever started

  datatype Step =
    | StartInvocation(i: Id)
    | StartManager(i: Id)
    | Enter(i: Id)
    | Leave(i: Id)
    | BeginTighten(i: Id, kind: Kind, removed: set<Selection>, ledger: seq<Selection>)
    | Operate(i: Id, inventory: Inventory, returned: bool)
    | BeginDrop(i: Id, removed: set<Selection>, ledger: seq<Selection>)
    | BeginManage(i: Id, managed: Managed)
    | RecoverFiles(i: Id)
    | BeginRecover(i: Id, removed: set<Selection>, ledger: seq<Selection>)
    | EndCommit(i: Id)
    | Die(i: Id)
    | UserEdit(file: Selection, content: Option<Items>)
    | InventoryChange(inventory: Inventory)

  predicate InvocationPhase(phase: Phase) {
    phase in {Ready, Tightening, Executing, Returned, Dropping}
  }

  predicate Committing(phase: Phase) {
    phase in {Tightening, Dropping, Managing, Recovering}
  }

  function Free(s: State, i: Id): State {
    s.(registration := if s.registration == Some(i) then None else s.registration,
       locks := map l | l in s.locks && s.locks[l] != i :: s.locks[l],
       procs := Without(s.procs, i))
  }

  predicate Inside(s: State, i: Id, phase: Phase) {
    i in s.procs && s.procs[i] == phase && s.registration == Some(i)
  }

  /** No target is refused or conflicts, or the first refused one is of an unsupported surface. */
  predicate CanRecover(policy: Policy, ledger: seq<Selection>, m: Managed, roots: Inventory, removed: set<Selection>) {
    Admissible(policy, ledger, m, roots, removed, false) || StageLedger(policy, ledger, roots, m, removed, false) == Refused(true)
  }

  /** The files the pending commit changes. */
  function Changing(s: State): set<Selection>
    requires s.journal.Some?
  {
    set file | file in s.base.files.Keys + s.journal.value.managed.files.Keys
               && Lookup(s.base.files, file) != Lookup(s.journal.value.managed.files, file)
  }

  /** Each holds its content before or after; else explicit recovery refuses. */
  predicate Recoverable(s: State)
    requires s.journal.Some?
  {
    forall file | file in Changing(s) ::
      Lookup(s.durable.managed.files, file) in {Lookup(s.base.files, file), Lookup(s.journal.value.managed.files, file)}
  }

  /** None was edited since the commit began. */
  predicate Unedited(s: State)
    requires s.journal.Some?
  {
    forall file | file in Changing(s) :: Lookup(s.durable.managed.files, file) == Lookup(s.base.files, file)
  }

  /** Recovery puts them back. */
  function PutBack(s: State): Managed
    requires s.journal.Some?
  {
    var now := s.durable.managed.files;
    s.durable.managed.(files := (now - Changing(s)) + (map file | file in s.base.files && file in Changing(s) :: s.base.files[file]))
  }

  /** After that every file of the pending commit holds what it held before it; nothing else moves. */
  lemma PutBackRestores(s: State, file: Selection)
    requires s.journal.Some?
    ensures PutBack(s).records == s.durable.managed.records
    ensures Lookup(PutBack(s).files, file)
            == if Lookup(s.base.files, file) != Lookup(s.journal.value.managed.files, file) then Lookup(s.base.files, file)
               else Lookup(s.durable.managed.files, file)
  {
  }

  ghost predicate Enabled(policy: Policy, s: State, step: Step) {
    var managed := s.durable.managed;
    match step
    case StartInvocation(i) => i !in s.used
    case StartManager(i) => i !in s.used
    case Enter(i) => i in s.procs && s.registration.None?
    case Leave(i) => i in s.procs && s.registration == Some(i) && !Committing(s.procs[i])
    case BeginTighten(i, kind, removed, ledger) =>
      && Inside(s, i, Ready) && s.journal.None?
      && Lists(ledger, managed) && Admissible(policy, ledger, managed, Future(kind, s.inventory), removed, true)
    case Operate(i, inventory, returned) => i in s.procs && s.procs[i] == Executing
    case BeginDrop(i, removed, ledger) =>
      && Inside(s, i, Returned) && s.journal.None?
      && Lists(ledger, managed) && Admissible(policy, ledger, managed, s.inventory, removed, s.durable.markers.Keys - {i} != {})
    case BeginManage(i, managed) => Inside(s, i, Manager) && s.journal.None? && s.durable.markers == map[]
    case RecoverFiles(i) => Inside(s, i, Manager) && s.journal.Some? && Recoverable(s)
    case BeginRecover(i, removed, ledger) =>
      && Inside(s, i, Manager) && s.journal.None? && s.durable.markers != map[]
      && s.durable.markers.Keys !! s.locks.Keys
      && Lists(ledger, managed) && CanRecover(policy, ledger, managed, s.inventory, removed)
    case EndCommit(i) =>
      && i in s.procs && Committing(s.procs[i]) && s.registration == Some(i) && s.journal.Some? && managed == s.base
    case Die(i) => i in s.procs
    case UserEdit(file, content) => exists sel :: sel in managed.records && FileOf(sel) == file
    case InventoryChange(inventory) => true
  }

  /** The commit is journalled; its owner goes on to write the files. */
  function Begin(s: State, i: Id, phase: Phase, managed: Managed, markers: map<Id, Inventory>,
                 removed: set<Selection>): State {
    s.(journal := Some(Durable(managed, markers)), base := s.durable.managed, removing := removed, procs := s.procs[i := phase])
  }

  ghost function Apply(policy: Policy, s: State, step: Step): State
    requires Enabled(policy, s, step)
  {
    var managed := s.durable.managed;
    match step
    case StartInvocation(i) => s.(procs := s.procs[i := Ready], locks := s.locks[i := i], used := s.used + {i})
    case StartManager(i) => s.(procs := s.procs[i := Manager], used := s.used + {i})
    case Enter(i) => s.(registration := Some(i))
    case Leave(i) => s.(registration := None)
    case BeginTighten(i, kind, removed, ledger) =>
      var future := Future(kind, s.inventory);
      Begin(s, i, Tightening, Reconciliation(policy, ledger, managed, future, removed, true), s.durable.markers[i := future], removed)
    case Operate(i, inventory, returned) =>
      s.(inventory := inventory, procs := if returned then s.procs[i := Returned] else s.procs)
    case BeginDrop(i, removed, ledger) =>
      var left := Without(s.durable.markers, i);
      Begin(s, i, Dropping, Reconciliation(policy, ledger, managed, s.inventory, removed, left.Keys != {}), left, removed)
    case BeginManage(i, chosen) => Begin(s, i, Managing, chosen, map[], {})
    case RecoverFiles(i) => s.(durable := s.durable.(managed := PutBack(s)), journal := None)
    case BeginRecover(i, removed, ledger) =>
      Begin(s, i, Recovering, Reconciliation(policy, ledger, managed, s.inventory, removed, false), map[], removed)
      .(locks := s.locks + (map l | l in s.durable.markers :: i))
    case EndCommit(i) =>
      var done := s.(durable := s.journal.value, journal := None);
      if s.procs[i] == Tightening then done.(procs := done.procs[i := Executing]) else Free(done, i)
    case Die(i) => Free(s, i)
    case UserEdit(file, content) =>
      var files := if content.Some? then managed.files[file := content.value] else Without(managed.files, file);
      s.(durable := s.durable.(managed := managed.(files := files)))
    case InventoryChange(inventory) => s.(inventory := inventory)
  }

  predicate Initial(s: State) {
    s.durable.markers == map[] && s.journal.None? && s.registration.None?
    && s.locks == map[] && s.procs == map[] && s.used == {}
  }

  // ---------------------------------------------------------------------
  // The invariant
  // ---------------------------------------------------------------------

  /** For every marker, Brain owns only allowances that marker's future policy grants. */
  ghost predicate Bounded(policy: Policy, d: Durable) {
    forall i, s | i in d.markers && s in d.managed.records ::
      ManagedAllow(s, d.managed.records[s].owned) <= Permits(policy, s, d.markers[i])
  }

  /** A live invocation holds its own operation lock. */
  predicate OwnLocks(s: State) {
    forall i | i in s.procs && InvocationPhase(s.procs[i]) :: i in s.locks && s.locks[i] == i
  }

  /** Locks are held by live processes, and no identity is started twice. */
  predicate LocksLive(s: State) {
    && (forall i | i in s.procs :: i in s.used)
    && (forall l | l in s.locks :: s.locks[l] in s.procs && l in s.used)
    && (s.registration.Some? ==> s.registration.value in s.procs)
    && (forall i | i in s.durable.markers :: i in s.used)
    && (s.journal.Some? ==> forall i | i in s.journal.value.markers :: i in s.used)
  }

  /** A committing process is inside the registration lock, with its journal written. */
  predicate CommitsInside(s: State) {
    forall i | i in s.procs && Committing(s.procs[i]) :: s.registration == Some(i) && s.journal.Some?
  }

  /** An invocation's marker stands while its owner operation may run. */
  predicate MarkersStand(s: State) {
    forall i | i in s.procs && s.procs[i] in {Executing, Returned, Dropping} :: i in s.durable.markers
  }

  /** A pending commit keeps the markers of the invocations beside it. */
  predicate JournalKeepsMarkers(s: State) {
    s.journal.Some? ==>
      && (forall i | i in s.procs && s.procs[i] == Tightening :: i in s.journal.value.markers)
      && (forall i | i in s.procs && s.procs[i] in {Executing, Returned} ::
            i in s.journal.value.markers && i in s.durable.markers
            && s.journal.value.markers[i] == s.durable.markers[i])
  }

  ghost predicate PolicyBounded(policy: Policy, s: State) {
    && Bounded(policy, s.durable)
    && (s.journal.Some? ==> Bounded(policy, s.journal.value))
    && (s.journal.Some? && s.journal.value.markers != map[] ==> TightCommit(s.base, s.journal.value.managed, s.removing))
  }

  /** What the pending commit does to the marker set, by the kind of process writing it. */
  predicate JournalByPhase(s: State) {
    s.journal.Some? ==>
      forall j | j in s.procs && Committing(s.procs[j]) ::
        match s.procs[j]
        case Tightening => s.durable.markers.Keys <= s.journal.value.markers.Keys
        case Dropping => s.durable.markers.Keys - {j} <= s.journal.value.markers.Keys
        case Recovering => forall i | i in s.durable.markers :: i in s.locks && s.locks[i] == j
        case _ => s.durable.markers == map[]
  }

  predicate Discipline(s: State) {
    OwnLocks(s) && LocksLive(s) && CommitsInside(s) && MarkersStand(s) && JournalKeepsMarkers(s) && JournalByPhase(s)
  }

  ghost predicate Inv(policy: Policy, s: State) {
    Discipline(s) && PolicyBounded(policy, s)
  }

  lemma LocksStep(policy: Policy, s: State, step: Step)
    requires OwnLocks(s) && LocksLive(s) && MarkersStand(s) && Enabled(policy, s, step)
    ensures OwnLocks(Apply(policy, s, step))
  {
    hide Admissible, Reconciliation, CanRecover, Recoverable, PutBack, Lists;
  }

  lemma LocksLiveStep(policy: Policy, s: State, step: Step)
    requires LocksLive(s) && Enabled(policy, s, step)
    ensures LocksLive(Apply(policy, s, step))
  {
    hide Admissible, Reconciliation, CanRecover, Recoverable, PutBack, Lists;
  }

  lemma CommitsInsideStep(policy: Policy, s: State, step: Step)
    requires CommitsInside(s) && Enabled(policy, s, step)
    ensures CommitsInside(Apply(policy, s, step))
  {
    hide Admissible, Reconciliation, CanRecover, Recoverable, PutBack, Lists;
  }

  lemma MarkersStandStep(policy: Policy, s: State, step: Step)
    requires Discipline(s) && Enabled(policy, s, step)
    ensures MarkersStand(Apply(policy, s, step))
  {
    hide Admissible, Reconciliation, CanRecover, Recoverable, PutBack, Lists, OwnLocks, LocksLive;
  }

  predicate Begins(step: Step) {
    step.BeginTighten? || step.BeginDrop? || step.BeginManage? || step.BeginRecover?
  }

  predicate Ends(step: Step) {
    step.EndCommit? || step.RecoverFiles? || step.Die?
  }

  lemma JournalKeepsMarkersStep(policy: Policy, s: State, step: Step)
    requires Discipline(s) && Enabled(policy, s, step)
    ensures JournalKeepsMarkers(Apply(policy, s, step))
  {
    hide Enabled, Apply, OwnLocks, LocksLive, CommitsInside, MarkersStand, JournalKeepsMarkers, JournalByPhase;
    if step.BeginRecover? {
      RecoveryKeepsMarkers(policy, s, step);
    } else if Begins(step) {
      BeginningKeepsMarkers(policy, s, step);
    } else if Ends(step) {
      EndingKeepsMarkers(policy, s, step);
    } else {
      OthersKeepMarkers(policy, s, step);
    }
  }

  lemma RecoveryKeepsMarkers(policy: Policy, s: State, step: Step)
    requires Discipline(s) && Enabled(policy, s, step) && step.BeginRecover?
    ensures JournalKeepsMarkers(Apply(policy, s, step))
  {
    hide CanRecover, Reconciliation, Lists, JournalByPhase;
  }

  lemma BeginningKeepsMarkers(policy: Policy, s: State, step: Step)
    requires Discipline(s) && Enabled(policy, s, step) && Begins(step) && !step.BeginRecover?
    ensures JournalKeepsMarkers(Apply(policy, s, step))
  {
    hide Admissible, Reconciliation, Lists, OwnLocks, LocksLive, JournalByPhase;
  }

  lemma EndingKeepsMarkers(policy: Policy, s: State, step: Step)
    requires Discipline(s) && Enabled(policy, s, step) && Ends(step)
    ensures JournalKeepsMarkers(Apply(policy, s, step))
  {
    hide Recoverable, PutBack, OwnLocks, LocksLive, JournalByPhase;
  }

  lemma OthersKeepMarkers(policy: Policy, s: State, step: Step)
    requires Discipline(s) && Enabled(policy, s, step) && !Begins(step) && !Ends(step)
    ensures JournalKeepsMarkers(Apply(policy, s, step))
  {
    hide OwnLocks, JournalByPhase;
  }

  lemma JournalByPhaseStep(policy: Policy, s: State, step: Step)
    requires LocksLive(s) && CommitsInside(s) && JournalByPhase(s) && Enabled(policy, s, step)
    ensures JournalByPhase(Apply(policy, s, step))
  {
    hide Enabled, Apply, LocksLive, CommitsInside, JournalByPhase;
    if Begins(step) {
      BeginningByPhase(policy, s, step);
    } else if Ends(step) {
      EndingByPhase(policy, s, step);
    } else {
      OthersByPhase(policy, s, step);
    }
  }

  lemma BeginningByPhase(policy: Policy, s: State, step: Step)
    requires CommitsInside(s) && Enabled(policy, s, step) && Begins(step)
    ensures JournalByPhase(Apply(policy, s, step))
  {
    hide Admissible, Reconciliation, CanRecover, Lists;
  }

  lemma EndingByPhase(policy: Policy, s: State, step: Step)
    requires LocksLive(s) && JournalByPhase(s) && Enabled(policy, s, step) && Ends(step)
    ensures JournalByPhase(Apply(policy, s, step))
  {
    hide Recoverable, PutBack;
  }

  lemma OthersByPhase(policy: Policy, s: State, step: Step)
    requires LocksLive(s) && JournalByPhase(s) && Enabled(policy, s, step) && !Begins(step) && !Ends(step)
    ensures JournalByPhase(Apply(policy, s, step))
  {
  }

  lemma PolicyBoundedStep(policy: Policy, s: State, step: Step)
    requires PolicyBounded(policy, s) && Enabled(policy, s, step)
    ensures PolicyBounded(policy, Apply(policy, s, step))
  {
    hide Admissible, Reconciliation, CanRecover, Recoverable, Lists, ManagedAllow, Permits, TightCommit;
    match step {
      case BeginTighten(i, kind, removed, ledger) =>
        TightLedgerShrinks(policy, ledger, Future(kind, s.inventory), s.durable.managed, removed);
        OwnsLess(policy, s.durable, Apply(policy, s, step).journal.value, removed);
      case BeginDrop(i, removed, ledger) =>
        if Without(s.durable.markers, i).Keys != {} {
          TightLedgerShrinks(policy, ledger, s.inventory, s.durable.managed, removed);
          OwnsLess(policy, s.durable, Apply(policy, s, step).journal.value, removed);
        }
      case _ =>
    }
  }

  /** A tight commit keeps every marker's bound. */
  lemma OwnsLess(policy: Policy, before: Durable, after: Durable, removed: set<Selection>)
    requires Bounded(policy, before) && TightCommit(before.managed, after.managed, removed)
    ensures forall i, s | i in before.markers && s in after.managed.records ::
              ManagedAllow(s, after.managed.records[s].owned) <= Permits(policy, s, before.markers[i])
  {
    hide ManagedAllow, Permits, AllowsAt, Granted, OwnedByAny, Review, GivesAllowance, TakesReview;
  }

  lemma InvStep(policy: Policy, s: State, step: Step)
    requires Inv(policy, s) && Enabled(policy, s, step)
    ensures Inv(policy, Apply(policy, s, step))
  {
    hide Enabled, Apply, OwnLocks, LocksLive, CommitsInside, MarkersStand, JournalKeepsMarkers,
      JournalByPhase, PolicyBounded;
    LocksStep(policy, s, step);
    LocksLiveStep(policy, s, step);
    CommitsInsideStep(policy, s, step);
    MarkersStandStep(policy, s, step);
    JournalKeepsMarkersStep(policy, s, step);
    JournalByPhaseStep(policy, s, step);
    PolicyBoundedStep(policy, s, step);
  }

  // ---------------------------------------------------------------------
  // Runs
  // ---------------------------------------------------------------------

  ghost predicate Run(policy: Policy, states: seq<State>, steps: seq<Step>) {
    && |states| == |steps| + 1
    && Initial(states[0])
    && (forall k | 0 <= k < |steps| ::
          Enabled(policy, states[k], steps[k]) && states[k + 1] == Apply(policy, states[k], steps[k]))
  }

  lemma {:induction false} RunKeepsInv(policy: Policy, states: seq<State>, steps: seq<Step>, k: nat)
    requires Run(policy, states, steps) && k <= |steps|
    ensures Inv(policy, states[k])
  {
    hide Enabled, Apply;
    if k > 0 {
      RunKeepsInv(policy, states, steps, k - 1);
      assert Enabled(policy, states[k - 1], steps[k - 1]);
      InvStep(policy, states[k - 1], steps[k - 1]);
    }
  }

  /** For every marker that stands, its owner alive or not, Brain owns no allowance that the policy for that
      transition's future Brains would not grant, on disk or in a half-written commit; and while an owner operation
      runs its marker stands, in the half-written commit too. */
  lemma ExposureStaysBounded(policy: Policy, states: seq<State>, steps: seq<Step>, k: nat, i: Id, sel: Selection)
    requires Run(policy, states, steps) && k <= |steps|
    ensures var s := states[k];
            && (i in s.durable.markers && sel in s.durable.managed.records ==>
                  ManagedAllow(sel, s.durable.managed.records[sel].owned) <= Permits(policy, sel, s.durable.markers[i]))
            && (s.journal.Some? && i in s.journal.value.markers && sel in s.journal.value.managed.records ==>
                  ManagedAllow(sel, s.journal.value.managed.records[sel].owned) <= Permits(policy, sel, s.journal.value.markers[i]))
            && (i in s.procs && s.procs[i] in {Executing, Returned} ==>
                  && i in s.durable.markers
                  && (s.journal.Some? ==> i in s.journal.value.markers && s.journal.value.markers[i] == s.durable.markers[i]))
  {
    hide Run, ManagedAllow, Permits, TightCommit;
    RunKeepsInv(policy, states, steps, k);
  }

  // What a marker stands for.

  /** The invocation has begun to tighten for this inventory, and whatever marker it has says so. */
  predicate StandsFor(s: State, i: Id, future: Inventory) {
    && i in s.used && (i in s.procs ==> s.procs[i] in {Tightening, Executing, Returned, Dropping})
    && (i in s.durable.markers ==> s.durable.markers[i] == future)
    && (s.journal.Some? && i in s.journal.value.markers ==> s.journal.value.markers[i] == future)
  }

  /** No marker is an invocation's before it has begun to tighten. */
  predicate NotBegun(s: State, i: Id) {
    && i !in s.durable.markers && (s.journal.Some? ==> i !in s.journal.value.markers)
  }

  lemma BeginningStands(policy: Policy, s: State, step: Step)
    requires LocksLive(s) && Enabled(policy, s, step) && step.BeginTighten? && NotBegun(s, step.i)
    ensures StandsFor(Apply(policy, s, step), step.i, Future(step.kind, s.inventory))
  {
    hide Admissible, Reconciliation, Lists, Future;
  }

  lemma StillStands(policy: Policy, s: State, step: Step, i: Id, future: Inventory)
    requires StandsFor(s, i, future) && Enabled(policy, s, step)
    ensures StandsFor(Apply(policy, s, step), i, future)
  {
    hide Admissible, Reconciliation, CanRecover, Recoverable, PutBack, Lists, Future;
  }

  lemma StillNotBegun(policy: Policy, s: State, step: Step, i: Id)
    requires NotBegun(s, i) && Enabled(policy, s, step) && !(step.BeginTighten? && step.i == i)
    ensures NotBegun(Apply(policy, s, step), i)
  {
    hide Admissible, Reconciliation, CanRecover, Recoverable, PutBack, Lists, Future;
  }

  /** Before an invocation begins to tighten it has no marker; afterwards its marker is what it began to tighten for. */
  lemma {:induction false} MarkersHaveTheirOrigin(policy: Policy, states: seq<State>, steps: seq<Step>, k: nat, i: Id)
    requires Run(policy, states, steps) && k <= |steps|
    ensures (forall j | 0 <= j < k :: !(steps[j].BeginTighten? && steps[j].i == i)) ==> NotBegun(states[k], i)
    ensures forall j | 0 <= j < k && steps[j].BeginTighten? && steps[j].i == i ::
              StandsFor(states[k], i, Future(steps[j].kind, states[j].inventory))
    decreases k
  {
    hide Enabled, Apply, StandsFor, NotBegun, Future, LocksLive, Inv;
    if k == 0 {
      NothingBegun(states[0], i);
    } else {
      var s, step := states[k - 1], steps[k - 1];
      MarkersHaveTheirOrigin(policy, states, steps, k - 1, i);
      assert Enabled(policy, s, step) && states[k - 1 + 1] == Apply(policy, s, step);
      if forall j | 0 <= j < k - 1 :: !(steps[j].BeginTighten? && steps[j].i == i) {
        if step.BeginTighten? && step.i == i {
          RunKeepsInv(policy, states, steps, k - 1);
          InvIsLive(policy, s);
          BeginningStands(policy, s, step);
        } else {
          StillNotBegun(policy, s, step, i);
        }
      } else {
        var j :| 0 <= j < k - 1 && steps[j].BeginTighten? && steps[j].i == i;
        NotReady(policy, s, step, i, Future(steps[j].kind, states[j].inventory));
      }
      forall j | 0 <= j < k && steps[j].BeginTighten? && steps[j].i == i
        ensures StandsFor(states[k], i, Future(steps[j].kind, states[j].inventory))
      {
        if j < k - 1 {
          StillStands(policy, s, step, i, Future(steps[j].kind, states[j].inventory));
        }
      }
    }
  }

  lemma NothingBegun(s: State, i: Id)
    requires Initial(s)
    ensures NotBegun(s, i)
  {
  }

  lemma InvIsLive(policy: Policy, s: State)
    requires Inv(policy, s)
    ensures LocksLive(s)
  {
  }

  lemma NotReady(policy: Policy, s: State, step: Step, i: Id, future: Inventory)
    requires StandsFor(s, i, future) && Enabled(policy, s, step)
    ensures !(step.BeginTighten? && step.i == i)
  {
    hide Admissible, Lists;
  }

  /** While the marker of an invocation stands, Brain owns no allowance that the policy would not grant for the
      registered Brains as its operation, and nothing else, makes them from those it found when it began. */
  lemma ExposureFitsTheOperation(policy: Policy, states: seq<State>, steps: seq<Step>, j: nat, k: nat,
                                 after: Inventory, sel: Selection)
    requires Run(policy, states, steps) && j < k <= |steps| && steps[j].BeginTighten?
    requires Makes(steps[j].kind, states[j].inventory, after)
    ensures var s, i := states[k], steps[j].i;
            && (i in s.durable.markers && sel in s.durable.managed.records ==>
                  s.durable.markers[i] == after
                  && ManagedAllow(sel, s.durable.managed.records[sel].owned) <= Permits(policy, sel, after))
            && (s.journal.Some? && i in s.journal.value.markers && sel in s.journal.value.managed.records ==>
                  s.journal.value.markers[i] == after
                  && ManagedAllow(sel, s.journal.value.managed.records[sel].owned) <= Permits(policy, sel, after))
            && (i in s.procs && s.procs[i] in {Executing, Returned} ==> i in s.durable.markers)
  {
    assert |states| == |steps| + 1;
    hide Run, ManagedAllow, Permits, Makes, Future;
    FutureIsWhatItMakes(steps[j].kind, states[j].inventory, after);
    MarkersHaveTheirOrigin(policy, states, steps, k, steps[j].i);
    ExposureStaysBounded(policy, states, steps, k, steps[j].i, sel);
    assert StandsFor(states[k], steps[j].i, Future(steps[j].kind, states[j].inventory));
  }

  /** A step that leaves some marker standing lands a tight commit or changes no policy, unless it is the user's own
      edit or an explicit recovery that undoes one. */
  lemma StepsBesideAMarkerShrink(policy: Policy, s: State, step: Step)
    requires Inv(policy, s) && Enabled(policy, s, step) && !UserActs(s, step)
    requires Apply(policy, s, step).durable.markers != map[]
    ensures step.EndCommit? ==> TightCommit(s.durable.managed, Apply(policy, s, step).durable.managed, s.removing)
    ensures !step.EndCommit? ==> Apply(policy, s, step).durable.managed == s.durable.managed
  {
    hide Discipline, Admissible, CanRecover, Reconciliation, PutBack, Unedited, TightCommit;
    if step.RecoverFiles? {
      NothingToPutBack(s);
    }
  }

  /** The user edits a file, or has edited one that recovery puts back. */
  predicate UserActs(s: State, step: Step) {
    step.UserEdit? || (step.RecoverFiles? && s.journal.Some? && !Unedited(s))
  }

  lemma NothingToPutBack(s: State)
    requires s.journal.Some? && Unedited(s)
    ensures PutBack(s) == s.durable.managed
  {
    var now, back := s.durable.managed.files, PutBack(s).files;
    forall file
      ensures Lookup(back, file) == Lookup(now, file)
    {
      assert file in Changing(s) ==> Lookup(now, file) == Lookup(s.base.files, file);
    }
    SameMaps(back, now);
  }

  /** A stretch of a run beside a marker, from the state its commit was made from; the user edits nothing. */
  ghost predicate Beside(policy: Policy, states: seq<State>, steps: seq<Step>, a: nat, b: nat, i: Id) {
    && Run(policy, states, steps) && |states| == |steps| + 1 && a <= b <= |steps|
    && (forall k | a < k <= b :: i in states[k].durable.markers)
    && (forall k | a <= k < b :: !UserActs(states[k], steps[k]))
  }

  lemma BesideLess(policy: Policy, states: seq<State>, steps: seq<Step>, a: nat, b: nat, i: Id)
    requires Beside(policy, states, steps, a, b, i)
    ensures |states| == |steps| + 1 && a <= b <= |steps|
    ensures a < b ==> Beside(policy, states, steps, a, b - 1, i)
  {
    hide Run, UserActs;
  }

  lemma OneBeside(policy: Policy, states: seq<State>, steps: seq<Step>, a: nat, b: nat, i: Id, k: nat)
    requires Beside(policy, states, steps, a, b, i) && a <= k < b
    ensures steps[k].EndCommit? ==> TightCommit(states[k].durable.managed, states[k + 1].durable.managed, states[k].removing)
    ensures !steps[k].EndCommit? ==> states[k + 1].durable.managed == states[k].durable.managed
  {
    hide Enabled, Apply, Inv, TightCommit, UserActs;
    RunKeepsInv(policy, states, steps, k);
    assert Enabled(policy, states[k], steps[k]) && states[k + 1] == Apply(policy, states[k], steps[k]);
    assert i in states[k + 1].durable.markers;
    StepsBesideAMarkerShrink(policy, states[k], steps[k]);
  }

  /** From the commit that adds a marker until it goes, whatever else runs beside it: committed authority never grows,
      and every review rule that no target of its file owns stays as it is, and unowned. */
  lemma {:induction false} AuthorityNeverGrows(policy: Policy, states: seq<State>, steps: seq<Step>, a: nat, b: nat, i: Id)
    requires Beside(policy, states, steps, a, b, i)
    ensures StaysTight(states[a].durable.managed, states[b].durable.managed)
    decreases b
  {
    hide *;
    BesideLess(policy, states, steps, a, b, i);
    if a < b {
      AuthorityNeverGrows(policy, states, steps, a, b - 1, i);
      OneBeside(policy, states, steps, a, b, i, b - 1);
      TightCommitStays(states[b - 1].durable.managed, states[b].durable.managed, states[b - 1].removing);
      NothingIsTight(states[b].durable.managed);
      TightTransitively(states[a].durable.managed, states[b - 1].durable.managed, states[b].durable.managed);
    } else {
      NothingIsTight(states[a].durable.managed);
    }
  }

  lemma TightCommitStays(before: Managed, after: Managed, removed: set<Selection>)
    ensures TightCommit(before, after, removed) ==> StaysTight(before, after)
  {
    hide StaysTight;
  }

  /** Beside a marker a rule becomes an allowance of a file exactly when a tight commit removes a target that held it
      back, and a review rule goes exactly when one removes a target that put it where the user had none. */
  lemma RulesChangeIff(policy: Policy, states: seq<State>, steps: seq<Step>, a: nat, b: nat, i: Id, k: nat,
                       file: Selection, key: string)
    requires Beside(policy, states, steps, a, b, i) && a <= k < b
    ensures var now, next := states[k].durable.managed, states[k + 1].durable.managed;
            && (AllowsAt(next, file, key) && !AllowsAt(now, file, key) <==> Gives(states, steps, k, file, key))
            && (Review(now, file, key) && !Review(next, file, key) <==> Takes(states, steps, k, file, key))
  {
    hide Beside, StaysTight, AllowsAt, Review, GivesAllowance, TakesReview, Run;
    OneBeside(policy, states, steps, a, b, i, k);
  }

  /** The step lands a commit that gives this allowance back to the user. */
  predicate Gives(states: seq<State>, steps: seq<Step>, k: nat, file: Selection, key: string)
    requires k < |states| && k < |steps|
  {
    steps[k].EndCommit? && GivesAllowance(states[k].durable.managed, states[k].removing, file, key)
  }

  /** The step lands a commit that takes this review rule of Brain's away. */
  predicate Takes(states: seq<State>, steps: seq<Step>, k: nat, file: Selection, key: string)
    requires k < |states| && k < |steps|
  {
    steps[k].EndCommit? && TakesReview(states[k].durable.managed, states[k].removing, file, key)
  }

  /** So over the whole stretch: a rule that is not given back is no allowance at the end unless it was at the start,
      and a review rule that is not taken away is one still, whoever owns it. */
  lemma {:induction false} RulesStay(policy: Policy, states: seq<State>, steps: seq<Step>, a: nat, b: nat, i: Id,
                                     file: Selection, key: string)
    requires Beside(policy, states, steps, a, b, i)
    ensures (forall k | a <= k < b :: !Gives(states, steps, k, file, key)) ==>
              (AllowsAt(states[b].durable.managed, file, key) ==> AllowsAt(states[a].durable.managed, file, key))
    ensures (forall k | a <= k < b :: !Takes(states, steps, k, file, key)) ==>
              (Review(states[a].durable.managed, file, key) ==> Review(states[b].durable.managed, file, key))
    decreases b
  {
    hide *;
    BesideLess(policy, states, steps, a, b, i);
    if a < b {
      RulesStay(policy, states, steps, a, b - 1, i, file, key);
      RulesChangeIff(policy, states, steps, a, b, i, b - 1, file, key);
    }
  }

  /** Authority grows, a review rule no target owns changes, a file gains an allowance or loses a review rule. */
  ghost predicate Widens(before: Managed, after: Managed) {
    || !StaysTight(before, after)
    || exists file, key :: (AllowsAt(after, file, key) && !AllowsAt(before, file, key))
                           || (Review(before, file, key) && !Review(after, file, key))
  }

  /** Removing these targets gives an allowance back or takes a review rule away. */
  ghost predicate Reverts(m: Managed, removed: set<Selection>) {
    exists file, key :: GivesAllowance(m, removed, file, key) || TakesReview(m, removed, file, key)
  }

  lemma TightWidens(before: Managed, after: Managed, removed: set<Selection>)
    requires TightCommit(before, after, removed)
    ensures Widens(before, after) <==> Reverts(before, removed)
  {
    hide StaysTight, AllowsAt, Review, GivesAllowance, TakesReview;
  }

  lemma NothingWidens(m: Managed)
    ensures !Widens(m, m)
  {
    NothingIsTight(m);
  }

  /** Policy widens only when a journalled commit lands that leaves no marker, or removes a target that held back an
      allowance of the user's or put a review rule where the user had none. */
  lemma WideningLeavesNoMarker(policy: Policy, s: State, step: Step)
    requires Inv(policy, s) && Enabled(policy, s, step) && !UserActs(s, step)
    requires Widens(s.durable.managed, Apply(policy, s, step).durable.managed)
    ensures step.EndCommit? && s.journal.Some? && Apply(policy, s, step).durable == s.journal.value
    ensures s.journal.value.markers == map[] || Reverts(s.durable.managed, s.removing)
  {
    hide Discipline, Admissible, CanRecover, Reconciliation, PutBack, Unedited, TightCommit, Widens, Reverts;
    NothingWidens(s.durable.managed);
    if step.RecoverFiles? {
      NothingToPutBack(s);
    } else if step.EndCommit? && s.journal.value.markers != map[] {
      TightWidens(s.durable.managed, s.journal.value.managed, s.removing);
    }
  }

  /** ... and such a commit is approval management with no transition in progress, or it
      reconciles every target to the inventory found at that moment. */
  lemma WideningUsesActualInventory(policy: Policy, s: State, step: Step)
    requires Inv(policy, s) && Enabled(policy, s, step) && s.journal.None?
    requires Apply(policy, s, step).journal.Some?
    requires Widens(s.durable.managed, Apply(policy, s, step).journal.value.managed)
    ensures var next := Apply(policy, s, step);
            && (next.journal.value.markers == map[] || Reverts(s.durable.managed, next.removing))
            && (step.BeginManage? ==> s.durable.markers == map[])
            && (!step.BeginManage? && next.journal.value.markers == map[] ==>
                  exists ledger, removed :: Lists(ledger, s.durable.managed)
                    && next.journal.value.managed == Reconciliation(policy, ledger, s.durable.managed, s.inventory, removed, false))
  {
    hide Discipline, Admissible, StageLedger, CanRecover, PolicyBounded, Reconciliation, TightCommit, Widens, Reverts, ManagedAllow,
      Permits, Lists;
    var after := Apply(policy, s, step).journal.value;
    match step {
      case BeginTighten(i, kind, removed, ledger) =>
        TightLedgerShrinks(policy, ledger, Future(kind, s.inventory), s.durable.managed, removed);
        TightWidens(s.durable.managed, after.managed, removed);
        assert i in after.markers;
      case BeginDrop(i, removed, ledger) =>
        if Without(s.durable.markers, i).Keys != {} {
          TightLedgerShrinks(policy, ledger, s.inventory, s.durable.managed, removed);
          TightWidens(s.durable.managed, after.managed, removed);
          assert Without(s.durable.markers, i) != map[];
        }
      case _ =>
    }
  }

  /** A marker goes only with its own invocation's final commit, or with a recovery
      that holds the operation lock of an invocation that is no longer live. */
  lemma MarkersGoOnlyWithTheirOwner(policy: Policy, s: State, step: Step, i: Id)
    requires Inv(policy, s) && Enabled(policy, s, step)
    requires i in s.durable.markers && i !in Apply(policy, s, step).durable.markers
    ensures step.EndCommit? && step.i in s.procs
    ensures (step.i == i && s.procs[i] == Dropping)
            || (s.procs[step.i] == Recovering && !(i in s.procs && InvocationPhase(s.procs[i])))
  {
    hide PolicyBounded, Admissible, CanRecover, Reconciliation, Recoverable, PutBack, Lists;
  }

  /** Recovery never starts over a live invocation's marker. */
  lemma RecoverySparesLiveOwners(policy: Policy, states: seq<State>, steps: seq<Step>, k: nat, i: Id)
    requires Run(policy, states, steps) && k < |steps| && steps[k].BeginRecover?
    requires i in states[k].durable.markers
    ensures !(i in states[k].procs && InvocationPhase(states[k].procs[i]))
  {
    hide PolicyBounded, Apply;
    RunKeepsInv(policy, states, steps, k);
    assert Enabled(policy, states[k], steps[k]);
  }

  /** The marker of an invocation that died, or never learnt its outcome, waits for recovery. */
  lemma {:induction false} AbandonedMarkersWait(policy: Policy, states: seq<State>, steps: seq<Step>, a: nat, b: nat, i: Id)
    requires Run(policy, states, steps) && a <= b <= |steps|
    requires i in states[a].durable.markers && i !in states[a].procs
    requires forall k | a <= k < b :: !(steps[k].EndCommit? && steps[k].i in states[k].procs
                                        && states[k].procs[steps[k].i] == Recovering)
    ensures i in states[b].durable.markers && i !in states[b].procs && i in states[b].used
    decreases b
  {
    hide Inv, Enabled, Apply;
    RunKeepsInv(policy, states, steps, b);
    if a < b {
      AbandonedMarkersWait(policy, states, steps, a, b - 1, i);
      RunKeepsInv(policy, states, steps, b - 1);
      assert Enabled(policy, states[b - 1], steps[b - 1]);
      assert states[b - 1 + 1] == Apply(policy, states[b - 1], steps[b - 1]);
      DeadStayDead(policy, states[b - 1], steps[b - 1], i);
      if i !in states[b].durable.markers {
        MarkersGoOnlyWithTheirOwner(policy, states[b - 1], steps[b - 1], i);
      }
    } else {
      MarkedIsUsed(policy, states[a], i);
    }
  }

  lemma MarkedIsUsed(policy: Policy, s: State, i: Id)
    requires Inv(policy, s) && i in s.durable.markers
    ensures i in s.used
  {
  }

  lemma DeadStayDead(policy: Policy, s: State, step: Step, i: Id)
    requires Enabled(policy, s, step) && i in s.used && i !in s.procs
    ensures i in Apply(policy, s, step).used && i !in Apply(policy, s, step).procs
  {
    hide Admissible, CanRecover, Reconciliation, Recoverable, PutBack, Lists;
  }

  /** An invocation begins to drop its marker only once its owner operation has said what it did. */
  lemma {:induction false} DropsOnlyOnceReturned(policy: Policy, states: seq<State>, steps: seq<Step>, k: nat, i: Id)
    requires Run(policy, states, steps) && k <= |steps|
    requires i in states[k].procs && states[k].procs[i] in {Returned, Dropping}
    ensures exists j | 0 <= j < k :: steps[j].Operate? && steps[j].i == i && steps[j].returned
    decreases k
  {
    hide Enabled, Apply;
    if k > 0 {
      assert Enabled(policy, states[k - 1], steps[k - 1]) && states[k - 1 + 1] == Apply(policy, states[k - 1], steps[k - 1]);
      HowItReturns(policy, states[k - 1], steps[k - 1], i);
      if i in states[k - 1].procs && states[k - 1].procs[i] in {Returned, Dropping} {
        DropsOnlyOnceReturned(policy, states, steps, k - 1, i);
      }
    }
  }

  lemma HowItReturns(policy: Policy, s: State, step: Step, i: Id)
    requires Enabled(policy, s, step)
    requires i in Apply(policy, s, step).procs && Apply(policy, s, step).procs[i] in {Returned, Dropping}
    ensures (i in s.procs && s.procs[i] in {Returned, Dropping}) || (step.Operate? && step.i == i && step.returned)
  {
    hide Admissible, Reconciliation, CanRecover, Recoverable, PutBack, Lists, Future;
  }

  /** A user may put anything into a managed file, or delete it, at any time. */
  lemma UserEditsFreely(policy: Policy, s: State, sel: Selection, content: Option<Items>, file: Selection)
    requires sel in s.durable.managed.records
    ensures var step := UserEdit(FileOf(sel), content);
            && Enabled(policy, s, step)
            && Lookup(Apply(policy, s, step).durable.managed.files, file)
               == if file == FileOf(sel) then content else Lookup(s.durable.managed.files, file)
  {
    hide FileOf;
  }

  // ---------------------------------------------------------------------
  // Crash recovery
  // ---------------------------------------------------------------------

  ghost function Replay(policy: Policy, s: State, steps: seq<Step>): Option<State>
    decreases steps
  {
    if steps == [] then Some(s)
    else if Enabled(policy, s, steps[0]) then Replay(policy, Apply(policy, s, steps[0]), steps[1..])
    else None
  }

  /** Explicit recovery by a fresh process. */
  function RecoverySteps(s: State, m: Id, removed: set<Selection>, ledger: seq<Selection>): seq<Step> {
    [StartManager(m), Enter(m)]
    + (if s.journal.Some? then [RecoverFiles(m)] else [])
    + (if s.durable.markers != map[] then [BeginRecover(m, removed, ledger), EndCommit(m)] else [])
  }

  /** The targets once the interrupted commit is put back. */
  function Repaired(s: State): Managed {
    if s.journal.Some? then PutBack(s) else s.durable.managed
  }

  /** Once every process is dead, wherever each of them died, explicit recovery goes through exactly when every file
      of an interrupted commit holds its content before or after it and, markers being left, either no target is
      refused or conflicts, or the first one refused is of an unsupported surface. It is never blocked by what they
      left, and clears the journal and every marker. */
  lemma RecoveryCompletesIff(policy: Policy, s: State, m: Id, removed: set<Selection>, ledger: seq<Selection>)
    requires Inv(policy, s) && s.procs == map[] && m !in s.used && Lists(ledger, s.durable.managed)
    ensures var end := Replay(policy, s, RecoverySteps(s, m, removed, ledger));
            && (end.Some? <==> (s.journal.Some? ==> Recoverable(s))
                               && (s.durable.markers != map[] ==> CanRecover(policy, ledger, Repaired(s), s.inventory, removed)))
            && (end.Some? ==>
                  && end.value.journal.None? && end.value.durable.markers == map[]
                  && end.value.durable.managed == if s.durable.markers == map[] then Repaired(s)
                                                  else Reconciliation(policy, ledger, Repaired(s), s.inventory, removed, false))
  {
    hide PolicyBounded, CanRecover, Reconciliation, Recoverable, PutBack, Lists, Replay, JournalByPhase, JournalKeepsMarkers, MarkersStand;
    var s1 := Apply(policy, s, StartManager(m));
    var s2 := Apply(policy, s1, Enter(m));
    var steps := RecoverySteps(s, m, removed, ledger);
    ReplayOne(policy, s, steps);
    ReplayOne(policy, s1, steps[1..]);
    SameFilesLeft(s, s2);
    if s.journal.None? {
      ReleaseMarkers(policy, s2, m, removed, ledger, steps[1..][1..]);
    } else {
      ReplayOne(policy, s2, steps[1..][1..]);
      if Recoverable(s) {
        var s3 := Apply(policy, s2, RecoverFiles(m));
        SameLedger(ledger, s);
        ReleaseMarkers(policy, s3, m, removed, ledger, steps[1..][1..][1..]);
      }
    }
  }

  lemma SameFilesLeft(a: State, b: State)
    requires a.journal == b.journal && a.base == b.base && a.durable == b.durable
    ensures a.journal.Some? ==> Recoverable(a) == Recoverable(b) && PutBack(a) == PutBack(b)
  {
  }

  lemma SameLedger(ledger: seq<Selection>, s: State)
    requires s.journal.Some? && Lists(ledger, s.durable.managed)
    ensures Lists(ledger, PutBack(s))
  {
  }

  lemma ReleaseMarkers(policy: Policy, s: State, m: Id, removed: set<Selection>, ledger: seq<Selection>, steps: seq<Step>)
    requires Inside(s, m, Manager) && s.journal.None? && s.locks == map[] && s.procs.Keys == {m}
    requires Lists(ledger, s.durable.managed)
    requires steps == if s.durable.markers != map[] then [BeginRecover(m, removed, ledger), EndCommit(m)] else []
    ensures var end := Replay(policy, s, steps);
            && (end.Some? <==> (s.durable.markers != map[] ==> CanRecover(policy, ledger, s.durable.managed, s.inventory, removed)))
            && (end.Some? ==>
                  && end.value.journal.None? && end.value.durable.markers == map[]
                  && end.value.durable.managed == if s.durable.markers == map[] then s.durable.managed
                                                  else Reconciliation(policy, ledger, s.durable.managed, s.inventory, removed, false))
  {
    hide CanRecover, Reconciliation, Lists, Replay;
    if s.durable.markers == map[] {
      ReplayNone(policy, s, steps);
    } else {
      ReplayOne(policy, s, steps);
      if CanRecover(policy, ledger, s.durable.managed, s.inventory, removed) {
        var begun := Apply(policy, s, steps[0]);
        ReplayOne(policy, begun, steps[1..]);
        ReplayNone(policy, Apply(policy, begun, steps[1]), steps[1..][1..]);
      }
    }
  }

  lemma ReplayOne(policy: Policy, s: State, steps: seq<Step>)
    requires steps != []
    ensures Replay(policy, s, steps) == if Enabled(policy, s, steps[0]) then Replay(policy, Apply(policy, s, steps[0]), steps[1..]) else None
  {
  }

  lemma ReplayNone(policy: Policy, s: State, steps: seq<Step>)
    requires steps == []
    ensures Replay(policy, s, steps) == Some(s)
  {
  }

  /** One invocation from its start to its end, its operation leaving these Brains registered. */
  function InvocationSteps(i: Id, kind: Kind, removed: set<Selection>, ledger: seq<Selection>, found: Inventory,
                           removed': set<Selection>, ledger': seq<Selection>): seq<Step>
  {
    [StartInvocation(i), Enter(i), BeginTighten(i, kind, removed, ledger), EndCommit(i), Leave(i)]
    + [Operate(i, found, true), Enter(i), BeginDrop(i, removed', ledger'), EndCommit(i)]
  }

  /** What the invocation tightens policy to, and what it leaves. */
  function TightenedTo(policy: Policy, s: State, kind: Kind, removed: set<Selection>, ledger: seq<Selection>): Managed {
    Reconciliation(policy, ledger, s.durable.managed, Future(kind, s.inventory), removed, true)
  }

  /** An invocation that nothing else interrupts goes through exactly when its tightening and its final reconciliation
      are admissible; it leaves policy reconciled to the Brains it found at its end, tight while other markers stand,
      and nothing else of its own. */
  lemma InvocationCompletesIff(policy: Policy, s: State, i: Id, kind: Kind, removed: set<Selection>, ledger: seq<Selection>,
                               found: Inventory, removed': set<Selection>, ledger': seq<Selection>)
    requires Inv(policy, s) && s.registration.None? && s.journal.None? && i !in s.used
    requires Lists(ledger, s.durable.managed) && Lists(ledger', TightenedTo(policy, s, kind, removed, ledger))
    ensures var tight := TightenedTo(policy, s, kind, removed, ledger);
            var end := Replay(policy, s, InvocationSteps(i, kind, removed, ledger, found, removed', ledger'));
            if Admissible(policy, ledger, s.durable.managed, Future(kind, s.inventory), removed, true)
            then Dropped(policy, s, i, tight, found, removed', ledger', end) else end.None?
  {
    hide Admissible, Reconciliation, Lists, Replay, PolicyBounded, Future, Dropped;
    assert FreshId(s, i);
    hide Inv;
    var steps := InvocationSteps(i, kind, removed, ledger, found, removed', ledger');
    var tight := TightenedTo(policy, s, kind, removed, ledger);
    var s1 := Apply(policy, s, steps[0]);
    ReplayOne(policy, s, steps);
    var s2 := Apply(policy, s1, steps[1]);
    ReplayOne(policy, s1, steps[1..]);
    ReplayOne(policy, s2, steps[1..][1..]);
    if Admissible(policy, ledger, s.durable.managed, Future(kind, s.inventory), removed, true) {
      var s3 := Apply(policy, s2, steps[2]);
      CommitAndDrop(policy, s, s3, i, tight, Future(kind, s.inventory), found, removed', ledger', steps[1..][1..][1..]);
    }
  }

  /** The identity is nobody's, not in a lock, a marker or a process. */
  predicate FreshId(s: State, i: Id) {
    i !in s.procs && i !in s.durable.markers && i !in s.locks && forall l | l in s.locks :: s.locks[l] != i
  }

  /** From its first journalled commit to its return to the lock ... */
  lemma CommitAndDrop(policy: Policy, s: State, begun: State, i: Id, tight: Managed, future: Inventory, found: Inventory,
                      removed: set<Selection>, ledger: seq<Selection>, steps: seq<Step>)
    requires FreshId(s, i) && s.registration.None? && s.journal.None? && Lists(ledger, tight)
    requires begun.procs == s.procs[i := Tightening] && begun.registration == Some(i) && begun.locks == s.locks[i := i]
    requires begun.durable == s.durable && begun.base == s.durable.managed
    requires begun.journal == Some(Durable(tight, s.durable.markers[i := future]))
    requires steps == [EndCommit(i), Leave(i), Operate(i, found, true), Enter(i), BeginDrop(i, removed, ledger), EndCommit(i)]
    ensures Dropped(policy, s, i, tight, found, removed, ledger, Replay(policy, begun, steps))
  {
    hide Lists, Replay, Dropped, Enabled, Apply;
    var last := [BeginDrop(i, removed, ledger), EndCommit(i)];
    var s4 := begun.(durable := begun.journal.value, journal := None, procs := begun.procs[i := Executing]);
    var s5 := s4.(registration := None);
    var s6 := s5.(inventory := found, procs := s5.procs[i := Returned]);
    var s7 := s6.(registration := Some(i));
    CommitsAndLeaves(policy, begun, i);
    OperatesAndEnters(policy, s5, i, found);
    ReplayStep(policy, begun, EndCommit(i), s4, [Leave(i), Operate(i, found, true), Enter(i)] + last);
    ReplayStep(policy, s4, Leave(i), s5, [Operate(i, found, true), Enter(i)] + last);
    ReplayStep(policy, s5, Operate(i, found, true), s6, [Enter(i)] + last);
    ReplayStep(policy, s6, Enter(i), s7, last);
    assert steps == [EndCommit(i)] + ([Leave(i), Operate(i, found, true), Enter(i)] + last);
    assert [Leave(i), Operate(i, found, true), Enter(i)] + last == [Leave(i)] + ([Operate(i, found, true), Enter(i)] + last);
    assert [Operate(i, found, true), Enter(i)] + last == [Operate(i, found, true)] + ([Enter(i)] + last);
    assert s7.procs == s.procs[i := Returned];
    DropAndCommit(policy, s, s7, i, tight, future, found, removed, ledger, last);
  }

  lemma CommitsAndLeaves(policy: Policy, s: State, i: Id)
    requires Inside(s, i, Tightening) && s.journal.Some? && s.durable.managed == s.base
    ensures var next := s.(durable := s.journal.value, journal := None, procs := s.procs[i := Executing]);
            && Enabled(policy, s, EndCommit(i)) && Apply(policy, s, EndCommit(i)) == next
            && Enabled(policy, next, Leave(i)) && Apply(policy, next, Leave(i)) == next.(registration := None)
  {
  }

  lemma OperatesAndEnters(policy: Policy, s: State, i: Id, found: Inventory)
    requires i in s.procs && s.procs[i] == Executing && s.registration.None?
    ensures var next := s.(inventory := found, procs := s.procs[i := Returned]);
            && Enabled(policy, s, Operate(i, found, true)) && Apply(policy, s, Operate(i, found, true)) == next
            && Enabled(policy, next, Enter(i)) && Apply(policy, next, Enter(i)) == next.(registration := Some(i))
  {
  }

  lemma ReplayStep(policy: Policy, s: State, step: Step, next: State, rest: seq<Step>)
    requires Enabled(policy, s, step) && Apply(policy, s, step) == next
    ensures Replay(policy, s, [step] + rest) == Replay(policy, next, rest)
  {
    hide Enabled, Apply;
    assert ([step] + rest)[1..] == rest;
  }

  /** What the last commit leaves, or that it was refused. */
  predicate Dropped(policy: Policy, s: State, i: Id, tight: Managed, found: Inventory, removed: set<Selection>,
                    ledger: seq<Selection>, end: Option<State>)
  {
    var others := s.durable.markers.Keys != {};
    && (end.Some? <==> Admissible(policy, ledger, tight, found, removed, others))
    && (end.Some? ==>
          && end.value.durable == Durable(Reconciliation(policy, ledger, tight, found, removed, others), s.durable.markers)
          && end.value.journal.None? && end.value.registration.None? && end.value.procs == s.procs
          && end.value.locks == s.locks && end.value.inventory == found)
  }

  /** ... and from there to its end. */
  lemma DropAndCommit(policy: Policy, s: State, back: State, i: Id, tight: Managed, future: Inventory, found: Inventory,
                      removed: set<Selection>, ledger: seq<Selection>, steps: seq<Step>)
    requires FreshId(s, i) && Lists(ledger, tight)
    requires back.procs == s.procs[i := Returned] && back.registration == Some(i) && back.locks == s.locks[i := i]
    requires back.durable == Durable(tight, s.durable.markers[i := future]) && back.journal.None? && back.inventory == found
    requires steps == [BeginDrop(i, removed, ledger), EndCommit(i)]
    ensures Dropped(policy, s, i, tight, found, removed, ledger, Replay(policy, back, steps))
  {
    hide Admissible, Reconciliation, Lists, Replay, Free, Enabled, Apply;
    var others := s.durable.markers.Keys != {};
    assert Without(back.durable.markers, i) == s.durable.markers;
    DropBegins(policy, back, i, removed, ledger);
    ReplayOne(policy, back, steps);
    if Admissible(policy, ledger, tight, found, removed, others) {
      var after := Reconciliation(policy, ledger, tight, found, removed, others);
      var s8 := Begin(back, i, Dropping, after, s.durable.markers, removed);
      var s9 := s8.(durable := s8.journal.value, journal := None);
      DropEnds(policy, s8, i);
      FreesItself(s, s9, i);
      assert steps[1..] == [EndCommit(i)] + [];
      ReplayStep(policy, s8, EndCommit(i), Free(s9, i), []);
      ReplayNone(policy, Free(s9, i), []);
    }
  }

  lemma DropBegins(policy: Policy, s: State, i: Id, removed: set<Selection>, ledger: seq<Selection>)
    requires Inside(s, i, Returned) && s.journal.None? && Lists(ledger, s.durable.managed)
    ensures var left := Without(s.durable.markers, i);
            && (Enabled(policy, s, BeginDrop(i, removed, ledger)) <==>
                  Admissible(policy, ledger, s.durable.managed, s.inventory, removed, left.Keys != {}))
            && (Enabled(policy, s, BeginDrop(i, removed, ledger)) ==>
                  Apply(policy, s, BeginDrop(i, removed, ledger))
                  == Begin(s, i, Dropping, Reconciliation(policy, ledger, s.durable.managed, s.inventory, removed, left.Keys != {}),
                           left, removed))
  {
    hide Admissible, Reconciliation, Lists;
    assert Without(s.durable.markers, i).Keys == s.durable.markers.Keys - {i};
  }

  lemma DropEnds(policy: Policy, s: State, i: Id)
    requires Inside(s, i, Dropping) && s.journal.Some? && s.durable.managed == s.base
    ensures Enabled(policy, s, EndCommit(i))
    ensures Apply(policy, s, EndCommit(i)) == Free(s.(durable := s.journal.value, journal := None), i)
  {
  }

  lemma FreesItself(s: State, end: State, i: Id)
    requires FreshId(s, i) && end.procs.Keys == s.procs.Keys + {i} && end.registration == Some(i) && end.locks == s.locks[i := i]
    requires forall p | p in s.procs :: end.procs[p] == s.procs[p]
    ensures var free := Free(end, i);
            free == end.(procs := s.procs, registration := None, locks := s.locks)
  {
    var free := Free(end, i);
    assert free.procs == s.procs && free.locks == s.locks;
  }

  /** The order of the ledger decides: a target without its file, met before one of an unsupported surface, blocks a
      recovery that the other order lets through. */
  lemma LedgerOrderDecides(policy: Policy, roots: Inventory)
    ensures var lost, unsupported := Selection(Claude, Mcp, "a"), Selection(Codex, Cli, "b");
            var m := Managed(map[lost := Record(map["k" := Receipt(None, Count(1))], {}), unsupported := Record(map[], {})], map[]);
            CanRecover(policy, [unsupported, lost], m, roots, {}) && !CanRecover(policy, [lost, unsupported], m, roots, {})
  {
    var lost, unsupported := Selection(Claude, Mcp, "a"), Selection(Codex, Cli, "b");
    var m := Managed(map[lost := Record(map["k" := Receipt(None, Count(1))], {}), unsupported := Record(map[], {})], map[]);
    assert "k" in map["k" := Receipt(None, Count(1))];
    OneTarget(policy, lost, roots, m, {}, false);
    OneTarget(policy, unsupported, roots, m, {}, false);
    assert [lost, unsupported][..1] == [lost] && [unsupported, lost][..1] == [unsupported];
  }
}
