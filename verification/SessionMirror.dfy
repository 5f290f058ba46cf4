/**
 The session mirror: publishers hand the latest model to one background worker,
 which coalesces what it has not written yet and drains once closed.

 `Step` is one turn of any thread: a critical section, or a write outside the
 lock. Runs are sequences of turns of any number of publishers, closers and
 workers in any order.
 */
module SessionMirror {
  import opened Prelude

  type Model = string

  datatype Request = Request(generation: nat, model: Model)

  datatype Phase =
    | Importing
    | Waiting
    | Writing(request: Request)
    | Written(generation: nat)
    /** Returned from its loop; the thread still counts as alive. */
    | Leaving
    | Finished
    /** Died before its loop. */
    | Failed

  predicate Alive(phase: Phase) {
    !phase.Finished? && !phase.Failed?
  }

  /**
   `workers` are all the threads ever started; the last is the one the object knows.
   `log`, `taken` and `writes` are history: the models accepted, and the generations
   taken by a worker and written to disk, in order.
   */
  datatype State = State(
    pending: Option<Request>, workers: seq<Phase>, closed: bool, accepted: nat, persisted: nat,
    disk: Option<Model>, log: seq<Model>, taken: seq<nat>, writes: seq<nat>)

  function Initial(disk: Option<Model>): State {
    State(None, [], false, 0, 0, disk, [], [], [])
  }

  function Last(s: seq<nat>): nat {
    if s == [] then 0 else s[|s| - 1]
  }

  predicate HasLiveWorker(s: State) {
    s.workers != [] && Alive(s.workers[|s.workers| - 1])
  }

  datatype Step =
    | Publish(model: Model)
    | Close
    | Import(worker: nat, works: bool)
    | Take(worker: nat)
    /** One call that persists: it may fail before or after it has replaced the file. */
    | Persist(worker: nat, effect: bool, raises: bool)
    | Record(worker: nat)
    | Exit(worker: nat)

  predicate Enabled(s: State, step: Step) {
    match step
    case Publish(_) => true
    case Close => true
    case Import(w, _) => w < |s.workers| && s.workers[w].Importing?
    case Take(w) => w < |s.workers| && s.workers[w].Waiting? && (s.pending.Some? || s.closed)
    case Persist(w, effect, raises) => w < |s.workers| && s.workers[w].Writing? && (effect || raises)
    case Record(w) => w < |s.workers| && s.workers[w].Written?
    case Exit(w) => w < |s.workers| && s.workers[w].Leaving?
  }

  function Apply(s: State, step: Step): State
    requires Enabled(s, step)
  {
    match step
    case Publish(model) => if s.closed then s else Accept(s, model)
    case Close => s.(closed := true)
    case Import(w, works) => s.(workers := s.workers[w := if works then Waiting else Failed])
    case Take(w) =>
      if s.pending.None? then s.(workers := s.workers[w := Leaving])
      else s.(pending := None, workers := s.workers[w := Writing(s.pending.value)],
              taken := s.taken + [s.pending.value.generation])
    case Persist(w, effect, raises) =>
      var request := s.workers[w].request;
      var after := s.(workers := s.workers[w := if raises then Waiting else Written(request.generation)]);
      if effect then after.(disk := Some(request.model), writes := s.writes + [request.generation]) else after
    case Record(w) =>
      s.(persisted := if s.persisted < s.workers[w].generation then s.workers[w].generation else s.persisted,
         workers := s.workers[w := Waiting])
    case Exit(w) => s.(workers := s.workers[w := Finished])
  }

  function Accept(s: State, model: Model): State {
    s.(workers := if HasLiveWorker(s) then s.workers else s.workers + [Importing],
       accepted := s.accepted + 1,
       pending := Some(Request(s.accepted + 1, model)),
       log := s.log + [model])
  }

  // ---------------------------------------------------------------------
  // The invariant
  // ---------------------------------------------------------------------

  predicate Increasing(s: seq<nat>) {
    forall i, j | 0 <= i < j < |s| :: s[i] < s[j]
  }

  /** Generations are numbered 1, 2, ... and taken and written in that order, some skipped. */
  ghost predicate Ordered(s: State) {
    && s.accepted == |s.log| && Increasing(s.taken) && Increasing(s.writes)
    && (forall g | g in s.taken :: 1 <= g <= s.accepted)
    && (forall g | g in s.writes :: g in s.taken)
  }

  /** Whatever is pending is the last accepted model; nothing pending means it was taken. */
  ghost predicate Latest(s: State) {
    && s.accepted == |s.log| && (s.workers == [] ==> s.accepted == 0)
    && match s.pending
       case Some(request) =>
         request.generation == s.accepted > 0 && request.model == s.log[s.accepted - 1] && s.accepted !in s.taken
       case None => Last(s.taken) == s.accepted
  }

  /** What a worker may be doing. */
  ghost predicate Doing(s: State, w: nat)
    requires w < |s.workers|
  {
    && (w < |s.workers| - 1 ==> !Alive(s.workers[w]))
    && match s.workers[w]
       case Writing(request) =>
         && s.taken != [] && request.generation == Last(s.taken)
         && 1 <= request.generation <= |s.log| && request.model == s.log[request.generation - 1]
         && request.generation !in s.writes
       case Written(g) => s.writes != [] && g == Last(s.writes)
       case Leaving => s.closed && s.pending.None?
       case Finished => s.closed && s.pending.None?
       case _ => true
  }

  ghost predicate OnDisk(s: State) {
    && (s.writes != [] ==> Last(s.writes) <= |s.log| && Last(s.writes) >= 1 && s.disk == Some(s.log[Last(s.writes) - 1]))
    && (s.persisted == 0 || s.persisted in s.writes)
  }

  ghost predicate Inv(s: State) {
    Ordered(s) && Latest(s) && OnDisk(s) && forall w | 0 <= w < |s.workers| :: Doing(s, w)
  }

  lemma OneMore(s: seq<nat>, g: nat)
    requires Increasing(s) && (forall x | x in s :: x < g)
    ensures Increasing(s + [g]) && Last(s + [g]) == g && (forall x :: x in s + [g] <==> x in s || x == g)
  {
    forall i, j | 0 <= i < j < |s + [g]|
      ensures (s + [g])[i] < (s + [g])[j]
    {
      assert (s + [g])[i] == s[i] && s[i] in s;
    }
  }

  /** A generation not yet written, when it is the last one taken, is above all that were. */
  lemma AboveWrites(s: State, g: nat)
    requires Ordered(s) && s.taken != [] && g == Last(s.taken) && g !in s.writes
    ensures forall x | x in s.writes :: x < g
  {
  }

  lemma AcceptKeepsInv(s: State, model: Model)
    requires Inv(s) && !s.closed
    ensures Inv(Accept(s, model))
  {
    var t := Accept(s, model);
    forall w | 0 <= w < |t.workers|
      ensures Doing(t, w)
    {
      if w < |s.workers| {
        assert Doing(s, w);
      }
    }
    assert s.accepted + 1 !in t.taken;
  }

  lemma TakeKeepsInv(s: State, w: nat)
    requires Inv(s) && Enabled(s, Take(w))
    ensures Inv(Apply(s, Take(w)))
  {
    var t := Apply(s, Take(w));
    if s.pending.Some? {
      forall g | g in s.taken
        ensures g < s.accepted
      {
      }
      OneMore(s.taken, s.accepted);
    }
    assert Doing(s, w);
    OthersKeep(s, t, w);
  }

  /** A turn of the live worker leaves only dead workers beside it. */
  lemma OthersKeep(s: State, t: State, w: nat)
    requires Inv(s) && w < |s.workers| == |t.workers| && Alive(s.workers[w])
    requires t.workers == s.workers[w := t.workers[w]] && Doing(t, w)
    requires t.closed == s.closed && (s.pending.None? ==> t.pending.None?)
    ensures forall v | 0 <= v < |t.workers| :: Doing(t, v)
  {
    forall v | 0 <= v < |t.workers|
      ensures Doing(t, v)
    {
      assert Doing(s, v) && Doing(s, w);
    }
  }

  lemma PersistKeepsInv(s: State, w: nat, effect: bool, raises: bool)
    requires Inv(s) && Enabled(s, Persist(w, effect, raises))
    ensures Inv(Apply(s, Persist(w, effect, raises)))
  {
    var t := Apply(s, Persist(w, effect, raises));
    assert Doing(s, w);
    var g := s.workers[w].request.generation;
    if effect {
      AboveWrites(s, g);
      OneMore(s.writes, g);
    }
    OthersKeep(s, t, w);
  }

  lemma WorkerKeepsInv(s: State, step: Step)
    requires Inv(s) && Enabled(s, step) && (step.Import? || step.Record? || step.Exit?)
    ensures Inv(Apply(s, step))
  {
    var t := Apply(s, step);
    assert Doing(s, step.worker);
    OthersKeep(s, t, step.worker);
  }

  lemma StepKeepsInv(s: State, step: Step)
    requires Inv(s) && Enabled(s, step)
    ensures Inv(Apply(s, step))
  {
    hide Ordered, Latest, OnDisk;
    match step
    case Publish(model) => if !s.closed { AcceptKeepsInv(s, model); }
    case Close => CloseKeepsInv(s);
    case Take(w) => TakeKeepsInv(s, w);
    case Persist(w, effect, raises) => PersistKeepsInv(s, w, effect, raises);
    case _ => WorkerKeepsInv(s, step);
  }

  lemma CloseKeepsInv(s: State)
    requires Inv(s)
    ensures Inv(Apply(s, Close))
  {
    var t := Apply(s, Close);
    forall w | 0 <= w < |t.workers|
      ensures Doing(t, w)
    {
      assert Doing(s, w);
    }
  }

  // ---------------------------------------------------------------------
  // Runs
  // ---------------------------------------------------------------------

  predicate Run(states: seq<State>, steps: seq<Step>) {
    && |states| == |steps| + 1 && states[0] == Initial(states[0].disk)
    && forall k | 0 <= k < |steps| :: Enabled(states[k], steps[k]) && states[k + 1] == Apply(states[k], steps[k])
  }

  lemma {:induction false} RunKeepsInv(states: seq<State>, steps: seq<Step>, k: nat)
    requires Run(states, steps) && k <= |steps|
    ensures Inv(states[k])
    decreases k
  {
    hide Inv;
    if k == 0 {
      InitialInv(states[0].disk);
    } else {
      RunKeepsInv(states, steps, k - 1);
      StepKeepsInv(states[k - 1], steps[k - 1]);
      assert states[k - 1 + 1] == Apply(states[k - 1], steps[k - 1]);
    }
  }

  lemma InitialInv(disk: Option<Model>)
    ensures Inv(Initial(disk))
  {
  }

  /** At most one worker is alive at any moment. */
  lemma AtMostOneWorker(states: seq<State>, steps: seq<Step>, k: nat, v: nat, w: nat)
    requires Run(states, steps) && k <= |steps|
    requires v < |states[k].workers| && w < |states[k].workers|
    requires Alive(states[k].workers[v]) && Alive(states[k].workers[w])
    ensures v == w
  {
    RunKeepsInv(states, steps, k);
    assert Doing(states[k], v) && Doing(states[k], w);
  }

  /** A worker ends its loop only once the mirror is closed with nothing pending, and by then
      the last accepted model was taken. */
  lemma WorkersLeaveNothingBehind(states: seq<State>, steps: seq<Step>, k: nat, w: nat)
    requires Run(states, steps) && k <= |steps| && w < |states[k].workers|
    requires states[k].workers[w].Leaving? || states[k].workers[w].Finished?
    ensures states[k].closed && states[k].pending.None? && Last(states[k].taken) == states[k].accepted
  {
    RunKeepsInv(states, steps, k);
    assert Doing(states[k], w);
  }

  /** Between two moments history only grows, and a closed mirror accepts nothing. */
  predicate Later(s: State, t: State) {
    && |s.workers| <= |t.workers| && (s.closed ==> t.closed && t.log == s.log && t.accepted == s.accepted)
    && s.log <= t.log && s.taken <= t.taken && s.writes <= t.writes && s.persisted <= t.persisted
    && (forall w | 0 <= w < |s.workers| && !Alive(s.workers[w]) :: t.workers[w] == s.workers[w])
  }

  lemma StepIsLater(s: State, step: Step)
    requires Enabled(s, step)
    ensures Later(s, Apply(s, step))
  {
  }

  lemma LaterChains(a: State, b: State, c: State)
    requires Later(a, b) && Later(b, c)
    ensures Later(a, c)
  {
  }

  lemma {:induction false} RunsMoveForward(states: seq<State>, steps: seq<Step>, i: nat, j: nat)
    requires Run(states, steps) && i <= j <= |steps|
    ensures Later(states[i], states[j])
    decreases j
  {
    hide Later;
    if i == j {
      LaterItself(states[i]);
    } else {
      RunsMoveForward(states, steps, i, j - 1);
      StepIsLater(states[j - 1], steps[j - 1]);
      assert states[j - 1 + 1] == Apply(states[j - 1], steps[j - 1]);
      LaterChains(states[i], states[j - 1], states[j]);
    }
  }

  lemma LaterItself(s: State)
    ensures Later(s, s)
  {
  }

  /** Generations reach the disk in strictly increasing order, never one twice. */
  lemma WritesRise(states: seq<State>, steps: seq<Step>, i: nat, j: nat, g: nat)
    requires Run(states, steps) && i <= j <= |steps|
    requires g in states[j].writes && g !in states[i].writes
    ensures g > Last(states[i].writes)
  {
    RunsMoveForward(states, steps, i, j);
    RunKeepsInv(states, steps, j);
    var n := |states[i].writes|;
    var m :| 0 <= m < |states[j].writes| && states[j].writes[m] == g;
    assert m >= n;
    assert n > 0 ==> states[j].writes[n - 1] < states[j].writes[m];
  }

  // ---------------------------------------------------------------------
  // What `close` reports
  // ---------------------------------------------------------------------

  /** The answer of a `close` that saw `threads` threads when it took the lock, and whose wait ended in `s`. */
  predicate Reports(s: State, threads: nat)
    requires threads <= |s.workers|
  {
    threads == 0 || (!Alive(s.workers[threads - 1]) && s.persisted >= s.accepted)
  }

  /** When `close` returns true the last accepted model, if any was accepted, is on disk and stays there. */
  lemma CloseMeansOnDisk(states: seq<State>, steps: seq<Step>, i: nat, j: nat, k: nat)
    requires Run(states, steps) && i < j <= k <= |steps| && steps[i].Close?
    requires |states[i].workers| <= |states[j].workers| && Reports(states[j], |states[i].workers|)
    ensures states[k].log == states[i].log
    ensures states[k].log != [] ==> states[k].disk == Some(states[k].log[|states[k].log| - 1])
  {
    RunKeepsInv(states, steps, i);
    RunKeepsInv(states, steps, k);
    assert states[i + 1] == Apply(states[i], steps[i]);
    RunsMoveForward(states, steps, i + 1, j);
    RunsMoveForward(states, steps, j, k);
    if states[k].log != [] {
      EnoughIsOnDisk(states[k]);
    }
  }

  lemma EnoughIsOnDisk(s: State)
    requires Inv(s) && s.persisted >= s.accepted > 0
    ensures s.disk == Some(s.log[s.accepted - 1])
  {
  }

  // ---------------------------------------------------------------------
  // Draining
  // ---------------------------------------------------------------------

  predicate WorkersTurn(step: Step) {
    !step.Publish? && !step.Close?
  }

  /** How many more turns a worker can take. */
  function Remaining(s: State): nat {
    if !HasLiveWorker(s) then 0
    else
      (if s.pending.Some? then 3 else 0)
      + match s.workers[|s.workers| - 1]
        case Importing => 4
        case Waiting => 3
        case Writing(_) => 5
        case Written(_) => 4
        case Leaving => 1
        case _ => 0
  }

  /** Once closed, no turn but the worker's changes what is left to drain, each of its turns uses some up,
      and a live worker always has a turn to take: the drain ends in at most eight turns. */
  lemma TheDrainEnds(s: State, step: Step)
    requires Inv(s) && s.closed && Enabled(s, step)
    ensures Remaining(s) <= 8 && Apply(s, step).closed
    ensures WorkersTurn(step) ==> Remaining(Apply(s, step)) < Remaining(s)
    ensures !WorkersTurn(step) ==> Apply(s, step) == s
  {
    if WorkersTurn(step) {
      assert Doing(s, step.worker);
    }
  }

  /** A worker whose import fails takes nothing with it: the next model published has a worker again. */
  lemma FailedImportLosesNothing(s: State, w: nat, model: Model)
    requires Inv(s) && !s.closed && Enabled(s, Import(w, false))
    ensures var after := Apply(s, Import(w, false));
            && !HasLiveWorker(after) && after.pending == s.pending && after.taken == s.taken && after.writes == s.writes
            && HasLiveWorker(Apply(after, Publish(model)))
            && Apply(after, Publish(model)).pending == Some(Request(s.accepted + 1, model))
  {
    assert Doing(s, w);
  }

  /** The models published before the first close. */
  function Offered(steps: seq<Step>): seq<Model> {
    if steps == [] then []
    else
      var n := |steps| - 1;
      if steps[n].Publish? && Close !in steps[..n] then Offered(steps[..n]) + [steps[n].model] else Offered(steps[..n])
  }

  /** Exactly those are accepted, in their order. */
  lemma {:induction false} OfferedIsAccepted(states: seq<State>, steps: seq<Step>, k: nat)
    requires Run(states, steps) && k <= |steps|
    ensures states[k].log == Offered(steps[..k]) && (states[k].closed <==> Close in steps[..k])
    decreases k
  {
    if k > 0 {
      OfferedIsAccepted(states, steps, k - 1);
      assert steps[..k][..k - 1] == steps[..k - 1] && steps[..k] == steps[..k - 1] + [steps[k - 1]];
      assert states[k - 1 + 1] == Apply(states[k - 1], steps[k - 1]);
    }
  }

  /** No import fails and no write raises. */
  predicate Quiet(step: Step) {
    (step.Import? ==> step.works) && (step.Persist? ==> !step.raises)
  }

  /** Nothing taken was lost: the last generation taken is written or being written, the last written is recorded or
      being recorded. */
  ghost predicate Lossless(s: State) {
    var working := s.workers != [];
    && (forall w | 0 <= w < |s.workers| :: !s.workers[w].Failed?)
    && (s.taken != [] && Last(s.taken) !in s.writes ==> working && s.workers[|s.workers| - 1].Writing?)
    && (s.writes != [] && s.persisted != Last(s.writes) ==> working && s.workers[|s.workers| - 1].Written?)
  }

  lemma QuietStepLosesNothing(s: State, step: Step)
    requires Inv(s) && Lossless(s) && Enabled(s, step) && Quiet(step)
    ensures Lossless(Apply(s, step))
  {
    hide Latest, Increasing;
    if step.Import? || step.Take? || step.Persist? || step.Record? || step.Exit? {
      assert Doing(s, step.worker);
      if step.Record? {
        RecordedIsLast(s);
      }
    }
    if HasLiveWorker(s) {
      assert Doing(s, |s.workers| - 1);
    }
  }

  lemma RecordedIsLast(s: State)
    requires Inv(s) && s.writes != []
    ensures s.persisted <= Last(s.writes)
  {
  }

  lemma {:induction false} QuietRunsLoseNothing(states: seq<State>, steps: seq<Step>, k: nat)
    requires Run(states, steps) && k <= |steps| && forall i | 0 <= i < k :: Quiet(steps[i])
    ensures Lossless(states[k])
    decreases k
  {
    hide Inv, Lossless;
    if k == 0 {
      NothingToLose(states[0].disk);
    } else {
      QuietRunsLoseNothing(states, steps, k - 1);
      RunKeepsInv(states, steps, k - 1);
      QuietStepLosesNothing(states[k - 1], steps[k - 1]);
      assert states[k - 1 + 1] == Apply(states[k - 1], steps[k - 1]);
    }
  }

  lemma NothingToLose(disk: Option<Model>)
    ensures Lossless(Initial(disk))
  {
  }

  /** Where no import fails and no write raises, a mirror that is closed and drained has the last model published before
      the close on disk, and every close reports it. */
  lemma QuietRunsPersist(states: seq<State>, steps: seq<Step>, k: nat, threads: nat)
    requires Run(states, steps) && k <= |steps| && forall i | 0 <= i < k :: Quiet(steps[i])
    requires states[k].closed && !HasLiveWorker(states[k]) && threads <= |states[k].workers|
    ensures Reports(states[k], threads)
    ensures var offered := Offered(steps[..k]); offered != [] ==> states[k].disk == Some(offered[|offered| - 1])
  {
    hide Inv, Lossless, Reports, HasLiveWorker, Offered, Apply, Enabled, Quiet;
    RunKeepsInv(states, steps, k);
    QuietRunsLoseNothing(states, steps, k);
    OfferedIsAccepted(states, steps, k);
    DrainedIsPersisted(states[k], threads);
  }

  lemma DrainedIsPersisted(s: State, threads: nat)
    requires Inv(s) && Lossless(s) && !HasLiveWorker(s) && threads <= |s.workers|
    ensures Reports(s, threads)
    ensures s.log != [] ==> s.disk == Some(s.log[|s.log| - 1])
  {
    hide Increasing;
    if s.workers != [] {
      assert Doing(s, |s.workers| - 1);
      if threads > 0 {
        assert Doing(s, threads - 1);
      }
      if s.accepted > 0 {
        LastWritten(s);
        EnoughIsOnDisk(s);
      }
    }
  }

  lemma LastWritten(s: State)
    requires Inv(s) && s.taken != [] && Last(s.taken) in s.writes
    ensures Last(s.writes) == Last(s.taken)
  {
    var g := Last(s.writes);
    assert g in s.writes && g in s.taken;
  }

  lemma TheWorkerIsNeverStuck(s: State)
    requires Inv(s) && s.closed && HasLiveWorker(s)
    ensures exists step :: WorkersTurn(step) && Enabled(s, step)
  {
    var w: nat := |s.workers| - 1;
    var step := match s.workers[w]
      case Importing => Import(w, true)
      case Waiting => Take(w)
      case Writing(_) => Persist(w, true, false)
      case Written(_) => Record(w)
      case _ => Exit(w);
    assert WorkersTurn(step) && Enabled(s, step);
  }

  // ---------------------------------------------------------------------
  // The object
  // ---------------------------------------------------------------------

  /** The fields shared under the condition variable, with the threads and the file they act on. */
  class Mirror {
    var pending: Option<Request>
    var workers: seq<Phase>
    var closed: bool
    var accepted: nat
    var persisted: nat
    var disk: Option<Model>
    ghost var log: seq<Model>
    ghost var taken: seq<nat>
    ghost var writes: seq<nat>

    ghost function Now(): State
      reads this
    {
      State(pending, workers, closed, accepted, persisted, disk, log, taken, writes)
    }

    constructor (disk: Option<Model>)
      ensures Now() == Initial(disk)
    {
      pending, workers, closed, accepted, persisted, this.disk := None, [], false, 0, 0, disk;
      log, taken, writes := [], [], [];
    }

    method EnsureStarted()
      modifies this`workers
      ensures workers == if HasLiveWorker(old(Now())) then old(workers) else old(workers) + [Importing]
    {
      if workers == [] || !Alive(workers[|workers| - 1]) {
        workers := workers + [Importing];
      }
    }

    method PublishModel(model: Model)
      modifies this
      ensures Now() == Apply(old(Now()), Publish(model))
    {
      if closed {
        return;
      }
      EnsureStarted();
      accepted := accepted + 1;
      pending := Some(Request(accepted, model));
      log := log + [model];
    }

    /** The part of `close` before the wait: the number of threads it will wait on the last of. */
    method RequestClose() returns (threads: nat)
      modifies this
      ensures Now() == Apply(old(Now()), Close) && threads == |workers|
    {
      closed := true;
      threads := |workers|;
    }

    /** The part of `close` after the wait, however that ended. */
    method ReportClose(threads: nat) returns (drained: bool)
      requires threads <= |workers|
      ensures drained <==> Reports(Now(), threads)
    {
      if threads == 0 {
        return true;
      }
      drained := !Alive(workers[threads - 1]) && persisted >= accepted;
    }

    /** One round of a worker that has something to do; the write itself happens between the critical sections. */
    method TakeRequest(w: nat) returns (request: Option<Request>)
      requires Enabled(Now(), Take(w))
      modifies this
      ensures Now() == Apply(old(Now()), Take(w)) && request == old(pending)
    {
      request := pending;
      if request.None? {
        workers := workers[w := Leaving];
        return;
      }
      pending := None;
      workers := workers[w := Writing(request.value)];
      taken := taken + [request.value.generation];
    }

    method PersistRequest(w: nat, effect: bool, raises: bool)
      requires Enabled(Now(), Persist(w, effect, raises))
      modifies this
      ensures Now() == Apply(old(Now()), Persist(w, effect, raises))
    {
      var request := workers[w].request;
      if effect {
        disk := Some(request.model);
        writes := writes + [request.generation];
      }
      workers := workers[w := if raises then Waiting else Written(request.generation)];
    }

    method RecordGeneration(w: nat)
      requires Enabled(Now(), Record(w))
      modifies this
      ensures Now() == Apply(old(Now()), Record(w))
    {
      var generation := workers[w].generation;
      if persisted < generation {
        persisted := generation;
      }
      workers := workers[w := Waiting];
    }
  }
}
