/**
 Checked replacement of one CLI binary together with its distribution tree.

 Any file operation may raise before or after its effect, and removing a tree may
 stop half way. Fingerprints are compared, never contents: a file's covers its
 bytes, a verified tree's covers its entries and not the text of its manifest.
 */
module Distribution {
  import opened Prelude
  import opened FileStore

  datatype Manifest = Manifest(entries: map<string, string>, sound: bool, text: string)

  datatype Node = File(bytes: seq<int>, mode: nat) | Tree(entries: map<string, string>, manifest: Option<Manifest>)

  type Disk = map<string, Node>

  const EXECUTABLE: nat := 0x1ED // 0o755

  /** The manifest lists exactly the tree's entries, and its schema and identity check out. */
  predicate Verifies(node: Node, manifest: Manifest) {
    node.Tree? && manifest.sound && manifest.entries == node.entries
  }

  datatype Print = Absent | OfFile(bytes: seq<int>) | OfVerified(entries: map<string, string>)
                 | OfRaw(entries: map<string, string>, manifest: Option<Manifest>)

  /** `_file_fingerprint` and `_installed_fingerprint`. */
  function PrintOf(tree: bool, node: Option<Node>): Print {
    if node.None? then Absent
    else if !tree then if node.value.File? then OfFile(node.value.bytes) else Absent
    else if node.value.File? then OfRaw(map[], None)
    else if node.value.manifest.Some? && Verifies(node.value, node.value.manifest.value) then OfVerified(node.value.entries)
    else OfRaw(node.value.entries, node.value.manifest)
  }

  /** Two files have one fingerprint exactly when their bytes agree; two trees when both match their manifests and their
      entries agree, or neither does and they are the same. */
  lemma SamePrintIff(tree: bool, a: Option<Node>, b: Option<Node>)
    requires OfKind(tree, a) && OfKind(tree, b)
    ensures PrintOf(tree, a) == PrintOf(tree, b) <==>
              match (a, b)
              case (None, None) => true
              case (Some(File(x, _)), Some(File(y, _))) => x == y
              case (Some(Tree(x, _)), Some(Tree(y, _))) =>
                if Proven(a.value) && Proven(b.value) then x == y else !Proven(a.value) && !Proven(b.value) && a == b
              case _ => false
  {
  }

  /** A tree that matches its own manifest. */
  predicate Proven(node: Node) {
    node.Tree? && node.manifest.Some? && Verifies(node, node.manifest.value)
  }

  // ---------------------------------------------------------------------
  // Removal
  // ---------------------------------------------------------------------

  /** The events grew by own changes of the one path. */
  ghost predicate OnlyAt(d0: Disk, path: string, before: seq<Event<Node>>, now: seq<Event<Node>>) {
    before <= now
    && forall k | |before| <= k < |now| :: now[k].own && Without(now[k].after, path) == Without(d0, path)
  }

  /** Nothing is there, or what removal by this kind can remove. */
  predicate OfKind(tree: bool, node: Option<Node>) {
    node.Some? ==> node.value.Tree? == tree
  }

  method RemoveFile(store: Store<Node>, path: string) returns (raised: bool)
    modifies store
    ensures OnlyAt(old(store.files), path, old(store.events), store.events)
    ensures Without(store.files, path) == Without(old(store.files), path)
    ensures !raised ==> path !in store.files
    ensures path in old(store.files) && old(store.files)[path].Tree? ==> raised && store.files == old(store.files) && store.events == old(store.events)
    ensures path in store.files ==> store.files == old(store.files)
    ensures store.raises == old(store.raises) + (if raised && OfKind(false, Lookup(old(store.files), path)) then 1 else 0)
  {
    if path !in store.files {
      return false;
    }
    if store.files[path].Tree? {
      return true;
    }
    raised := store.Set(path, None);
  }

  /** `shutil.rmtree` may stop after removing any of the entries. */
  method RemoveTree(store: Store<Node>, path: string) returns (raised: bool)
    modifies store
    ensures OnlyAt(old(store.files), path, old(store.events), store.events)
    ensures Without(store.files, path) == Without(old(store.files), path)
    ensures !raised ==> path !in store.files
    ensures path in old(store.files) && old(store.files)[path].File? ==> raised && store.files == old(store.files) && store.events == old(store.events)
    ensures store.raises == old(store.raises) + (if raised && OfKind(true, Lookup(old(store.files), path)) then 1 else 0)
  {
    if path !in store.files {
      return false;
    }
    if store.files[path].File? {
      return true;
    }
    var entries: map<string, string>, manifest := store.files[path].entries, store.files[path].manifest;
    var rounds: nat := *;
    while rounds > 0
      invariant OnlyAt(old(store.files), path, old(store.events), store.events)
      invariant Without(store.files, path) == Without(old(store.files), path)
      invariant store.raises == old(store.raises)
    {
      var gone: set<string> := *;
      var lost: bool := *;
      entries := entries - gone;
      manifest := if lost then None else manifest;
      raised := store.Set(path, Some(Tree(entries, manifest)));
      if raised {
        return;
      }
      rounds := rounds - 1;
    }
    raised := store.Set(path, None);
  }

  method Remove(store: Store<Node>, tree: bool, path: string) returns (raised: bool)
    modifies store
    ensures OnlyAt(old(store.files), path, old(store.events), store.events)
    ensures Without(store.files, path) == Without(old(store.files), path)
    ensures !raised ==> path !in store.files
    ensures path in old(store.files) && old(store.files)[path].File? == tree ==> raised && store.files == old(store.files) && store.events == old(store.events)
    ensures !tree && path in store.files ==> store.files == old(store.files)
    ensures store.raises == old(store.raises) + (if raised && OfKind(tree, Lookup(old(store.files), path)) then 1 else 0)
  {
    if tree {
      raised := RemoveTree(store, path);
    } else {
      raised := RemoveFile(store, path);
    }
  }

  method ReadPrint(store: Store<Node>, tree: bool, path: string) returns (raised: bool, fingerprint: Print)
    modifies store`raises
    ensures !raised ==> fingerprint == PrintOf(tree, Lookup(store.files, path))
    ensures store.raises == old(store.raises) + (if raised then 1 else 0)
  {
    var node;
    raised, node := store.Read(path);
    fingerprint := PrintOf(tree, node);
  }

  // ---------------------------------------------------------------------
  // Rolling back one target
  // ---------------------------------------------------------------------

  /** One of the two targets, with what it held before and what is to replace it. */
  datatype Target = Target(tree: bool, path: string, backup: string, original: Option<Node>, staged: Option<Node>)

  function Expected(t: Target): Print {
    PrintOf(t.tree, t.original)
  }

  /** What it held and what is to replace it are both of its own kind, file or tree. */
  predicate OwnKind(t: Target) {
    OfKind(t.tree, t.original) && OfKind(t.tree, t.staged)
  }

  function At(d: Disk, t: Target): Option<Node> {
    Lookup(d, t.path)
  }

  /** The original is whole, at the target or at its backup. */
  predicate Keeps(d: Disk, t: Target) {
    t.original.None? || At(d, t) == t.original || Lookup(d, t.backup) == t.original
  }

  /** The original, or the staged replacement that has the same fingerprint, is whole. */
  predicate KeepsPrint(d: Disk, t: Target) {
    Keeps(d, t) || (At(d, t) == t.staged && PrintOf(t.tree, t.staged) == Expected(t))
  }

  /** The positions a cutover passes through. */
  predicate Cutover(d: Disk, t: Target, started: bool) {
    || (At(d, t) == t.original && t.backup !in d)
    || (started && t.original.Some? && t.path !in d && Lookup(d, t.backup) == t.original)
    || (started && t.staged.Some? && At(d, t) == t.staged && Lookup(d, t.backup) == t.original)
  }

  /** The disk a successful rollback of one target leaves. */
  function RolledBack(d: Disk, t: Target): Disk {
    if PrintOf(t.tree, At(d, t)) == Expected(t) then Without(d, t.backup)
    else if t.backup in d then Without(d[t.path := d[t.backup]], t.backup)
    else Without(d, t.path)
  }

  ghost predicate StatesKeep(t: Target, before: seq<Event<Node>>, now: seq<Event<Node>>) {
    before <= now && forall k | |before| <= k < |now| :: now[k].own && KeepsPrint(now[k].after, t)
  }

  /** Only this target and its backup moved. */
  ghost predicate OnlyTarget(d0: Disk, t: Target, before: seq<Event<Node>>, now: seq<Event<Node>>) {
    before <= now
    && forall k | |before| <= k < |now| ::
         Without(Without(now[k].after, t.path), t.backup) == Without(Without(d0, t.path), t.backup)
  }

  /** Removing one of the two paths keeps what the other holds. */
  lemma RemovingKeeps(d0: Disk, t: Target, path: string, before: seq<Event<Node>>, now: seq<Event<Node>>)
    requires t.path != t.backup && OnlyAt(d0, path, before, now)
    requires (path == t.path && (t.original.None? || Lookup(d0, t.backup) == t.original))
             || (path == t.backup && PrintOf(t.tree, At(d0, t)) == Expected(t) && At(d0, t) in {t.original, t.staged})
    ensures StatesKeep(t, before, now) && OnlyTarget(d0, t, before, now)
  {
    forall k | |before| <= k < |now|
      ensures now[k].own && KeepsPrint(now[k].after, t)
      ensures Without(Without(now[k].after, t.path), t.backup) == Without(Without(d0, t.path), t.backup)
    {
      StateKeeps(d0, now[k].after, t, path);
    }
  }

  lemma StateKeeps(d0: Disk, d: Disk, t: Target, path: string)
    requires t.path != t.backup && Without(d, path) == Without(d0, path)
    requires (path == t.path && (t.original.None? || Lookup(d0, t.backup) == t.original))
             || (path == t.backup && PrintOf(t.tree, At(d0, t)) == Expected(t) && At(d0, t) in {t.original, t.staged})
    ensures KeepsPrint(d, t)
    ensures Without(Without(d, t.path), t.backup) == Without(Without(d0, t.path), t.backup)
  {
    var other := if path == t.path then t.backup else t.path;
    assert Lookup(Without(d, path), other) == Lookup(Without(d0, path), other);
    assert Without(Without(d, t.path), t.backup) == Without(Without(d, path), other);
    assert Without(Without(d0, t.path), t.backup) == Without(Without(d0, path), other);
  }

  /** What every attempt at a rollback of one target guarantees, raised or not. */
  twostate predicate Attempted(store: Store<Node>, t: Target, raised: bool)
    reads store
  {
    && StatesKeep(t, old(store.events), store.events)
    && OnlyTarget(old(store.files), t, old(store.events), store.events)
    && Without(Without(store.files, t.path), t.backup) == Without(Without(old(store.files), t.path), t.backup)
    && KeepsPrint(store.files, t)
    && (!raised || (PrintOf(t.tree, At(store.files, t)) == Expected(t) && t.backup !in store.files) ==>
          store.files == RolledBack(old(store.files), t) && t.backup !in store.files
          && At(store.files, t) in {t.original, t.staged})
  }

  method DiscardBackup(store: Store<Node>, t: Target, ghost started: bool) returns (raised: bool)
    requires t.path != t.backup && Cutover(store.files, t, started)
    requires PrintOf(t.tree, At(store.files, t)) == Expected(t) && t.backup in store.files
    modifies store
    ensures Attempted(store, t, raised)
    ensures store.raises >= old(store.raises) && (OwnKind(t) && store.raises == old(store.raises) ==> !raised)
  {
    ghost var d0, e0 := store.files, store.events;
    raised := Remove(store, t.tree, t.backup);
    if At(d0, t) in {t.original, t.staged} {
      RemovingKeeps(d0, t, t.backup, e0, store.events);
      StateKeeps(d0, store.files, t, t.backup);
      if t.backup !in store.files {
        assert store.files == Without(store.files, t.backup);
      }
    }
  }

  method RestoreBackup(store: Store<Node>, t: Target, ghost started: bool) returns (raised: bool)
    requires t.path != t.backup && Cutover(store.files, t, started)
    requires PrintOf(t.tree, At(store.files, t)) != Expected(t) && t.backup in store.files
    modifies store
    ensures Attempted(store, t, raised)
    ensures store.raises >= old(store.raises) && (OwnKind(t) && store.raises == old(store.raises) ==> !raised)
  {
    ghost var d0, e0 := store.files, store.events;
    raised := Remove(store, t.tree, t.path);
    RemovingKeeps(d0, t, t.path, e0, store.events);
    StateKeeps(d0, store.files, t, t.path);
    ghost var d1 := store.files;
    assert t.backup in Without(d1, t.path) && Without(d1, t.path)[t.backup] == d0[t.backup];
    if raised {
      return;
    }
    raised := store.Rename(t.backup, t.path);
    Renamed(d0, d1, store.files, t);
  }

  method DiscardReplacement(store: Store<Node>, t: Target, ghost started: bool) returns (raised: bool)
    requires t.path != t.backup && Cutover(store.files, t, started)
    requires PrintOf(t.tree, At(store.files, t)) != Expected(t) && t.backup !in store.files
    requires Expected(t) == Absent
    modifies store
    ensures Attempted(store, t, raised)
    ensures store.raises >= old(store.raises) && (OwnKind(t) && store.raises == old(store.raises) ==> !raised)
  {
    ghost var d0, e0 := store.files, store.events;
    raised := Remove(store, t.tree, t.path);
    RemovingKeeps(d0, t, t.path, e0, store.events);
    StateKeeps(d0, store.files, t, t.path);
    assert Lookup(Without(store.files, t.path), t.backup) == Lookup(Without(d0, t.path), t.backup);
    if t.path !in store.files {
      assert store.files == Without(store.files, t.path);
    }
  }

  /** The guarded part of the rollback of one target. It gets through when no operation raises. */
  method TryRestore(store: Store<Node>, t: Target, ghost started: bool) returns (raised: bool)
    requires t.path != t.backup && Cutover(store.files, t, started)
    modifies store
    ensures Attempted(store, t, raised)
    ensures store.raises >= old(store.raises) && (OwnKind(t) && store.raises == old(store.raises) ==> !raised)
  {
    var current;
    raised, current := ReadPrint(store, t.tree, t.path);
    if !raised {
      if current == Expected(t) {
        if t.backup in store.files {
          raised := DiscardBackup(store, t, started);
        } else {
          assert store.files == Without(store.files, t.backup);
        }
      } else if t.backup in store.files {
        var fingerprint;
        raised, fingerprint := ReadPrint(store, t.tree, t.backup);
        if raised || fingerprint != Expected(t) {
          raised := true;
        } else {
          raised := RestoreBackup(store, t, started);
        }
      } else if Expected(t) == Absent && current == PrintOf(t.tree, t.staged) {
        raised := DiscardReplacement(store, t, started);
      } else {
        raised := true;
      }
    } else if t.backup !in store.files {
      assert store.files == Without(store.files, t.backup);
    }
  }

  lemma Renamed(d0: Disk, d1: Disk, d: Disk, t: Target)
    requires t.path != t.backup && t.backup in d0 && t.backup in d1
    requires Without(d1, t.path) == Without(d0, t.path)
    requires d == d1 || d == Without(d1[t.path := d1[t.backup]], t.backup)
    requires PrintOf(t.tree, At(d0, t)) != Expected(t)
    requires Lookup(d0, t.backup) == t.original
    ensures KeepsPrint(d, t)
    ensures Without(Without(d, t.path), t.backup) == Without(Without(d0, t.path), t.backup)
    ensures t.backup !in d ==> d == RolledBack(d0, t)
  {
    assert t.backup in Without(d1, t.path) && Without(d1, t.path)[t.backup] == d0[t.backup];
    assert Without(Without(d1, t.path), t.backup) == Without(Without(d, t.path), t.backup);
    if t.backup !in d {
      assert d == Without(Without(d1, t.path)[t.path := d0[t.backup]], t.backup);
      assert RolledBack(d0, t) == Without(Without(d0, t.path)[t.path := d0[t.backup]], t.backup);
    }
  }

  /** A target proven back: no backup left, and the original up to what its fingerprint covers. */
  predicate RestoredTarget(d: Disk, t: Target) {
    && t.backup !in d
    && PrintOf(t.tree, At(d, t)) == Expected(t)
    && (At(d, t) == t.original || (At(d, t) == t.staged && PrintOf(t.tree, t.staged) == Expected(t)))
  }

  lemma RolledBackOriginal(d: Disk, t: Target, started: bool)
    requires t.path != t.backup && Cutover(d, t, started)
    requires At(RolledBack(d, t), t) in {t.original, t.staged}
    ensures PrintOf(t.tree, At(RolledBack(d, t), t)) == Expected(t)
    ensures At(RolledBack(d, t), t) == t.original || PrintOf(t.tree, t.staged) == Expected(t)
  {
  }

  /** Roll one target back; a raised step is forgiven when the target is back and no backup is left. */
  method RestoreTarget(store: Store<Node>, t: Target, started: bool) returns (error: bool)
    requires t.path != t.backup && Cutover(store.files, t, started)
    modifies store
    ensures StatesKeep(t, old(store.events), store.events)
    ensures OnlyTarget(old(store.files), t, old(store.events), store.events)
    ensures Without(Without(store.files, t.path), t.backup) == Without(Without(old(store.files), t.path), t.backup)
    ensures KeepsPrint(store.files, t)
    ensures !error ==> store.files == RolledBack(old(store.files), t) && t.backup !in store.files
                       && At(store.files, t) in {t.original, t.staged}
    ensures !error ==> RestoredTarget(store.files, t)
    ensures store.raises >= old(store.raises) && (OwnKind(t) && store.raises == old(store.raises) ==> !error)
    ensures OwnKind(t) && store.raises <= old(store.raises) + 1 && RestoredTarget(store.files, t) ==> !error
  {
    ghost var d0 := store.files;
    if !started && t.backup !in store.files {
      assert RolledBack(store.files, t) == store.files;
      return false;
    }
    var raised := TryRestore(store, t, started);
    error := false;
    if raised {
      var again, fingerprint := ReadPrint(store, t.tree, t.path);
      error := again || fingerprint != Expected(t) || t.backup in store.files;
    }
    if !error {
      RolledBackOriginal(d0, t, started);
    }
  }

  /** From a finished cutover, a successful rollback gives the original back exactly, unless
      the replacement differs from it only in what the fingerprint leaves out. */
  lemma RollbackIsExactIff(d: Disk, t: Target)
    requires t.path != t.backup && t.staged.Some?
    requires At(d, t) == t.staged && Lookup(d, t.backup) == t.original
    ensures At(RolledBack(d, t), t) == t.original
            <==> PrintOf(t.tree, t.staged) != Expected(t) || t.staged == t.original
  {
  }

  /** A binary replaced by the same bytes under another mode stays replaced, and the rollback is proven. */
  lemma RollbackMayKeepTheMode()
    ensures var t := Target(false, "bin", "bin.backup", Some(File([1], 0)), Some(File([1], EXECUTABLE)));
            var d := map["bin" := File([1], EXECUTABLE), "bin.backup" := File([1], 0)];
            && PrintOf(false, At(RolledBack(d, t), t)) == Expected(t) && t.backup !in RolledBack(d, t)
            && At(RolledBack(d, t), t) == t.staged != t.original
  {
    assert |"bin"| == 3 && |"bin.backup"| == 10;
  }

  // ---------------------------------------------------------------------
  // The install
  // ---------------------------------------------------------------------

  /** Both targets, and the two staging paths. Backups and stages carry a fresh token. */
  datatype Pair = Pair(tree: Target, binary: Target, stage: string, binaryStage: string)

  predicate WellFormed(p: Pair) {
    && p.tree.tree && !p.binary.tree
    && p.tree.path != p.tree.backup && p.binary.path != p.binary.backup
    && {p.tree.path, p.tree.backup, p.stage, p.binaryStage} !! {p.binary.path, p.binary.backup}
    && {p.tree.path, p.tree.backup} !! {p.stage, p.binaryStage} && p.stage != p.binaryStage
    && p.tree.staged.Some? && p.tree.staged.value.Tree? && p.tree.staged.value.manifest.Some?
    && p.binary.staged.Some? && p.binary.staged.value.File? && p.binary.staged.value.mode == EXECUTABLE
  }

  predicate Fresh(d: Disk, p: Pair) {
    && At(d, p.tree) == p.tree.original && At(d, p.binary) == p.binary.original
    && p.tree.backup !in d && p.binary.backup !in d && p.stage !in d && p.binaryStage !in d
  }

  ghost predicate BothKeep(p: Pair, before: seq<Event<Node>>, now: seq<Event<Node>>) {
    StatesKeep(p.tree, before, now) && StatesKeep(p.binary, before, now)
  }

  lemma BackupIsOriginal(d: Disk, t: Target, started: bool)
    requires Cutover(d, t, started)
    ensures Lookup(d, t.backup) in {None, t.original}
  {
  }

  lemma CutoverKeeps(d: Disk, t: Target, started: bool)
    requires Cutover(d, t, started)
    ensures KeepsPrint(d, t)
  {
  }

  /** A change away from a target leaves it as it was. */
  lemma AwayKeeps(d0: Disk, d: Disk, t: Target, started: bool)
    requires Lookup(d, t.path) == Lookup(d0, t.path) && Lookup(d, t.backup) == Lookup(d0, t.backup)
    requires Cutover(d0, t, started)
    ensures Cutover(d, t, started) && KeepsPrint(d, t)
  {
  }

  /** The tree to be installed matches its manifest. */
  predicate Sound(p: Pair)
    requires WellFormed(p)
  {
    Verifies(p.tree.staged.value, p.tree.staged.value.manifest.value)
  }

  predicate StagesOfKind(d: Disk, p: Pair) {
    OfKind(true, Lookup(d, p.stage)) && OfKind(false, Lookup(d, p.binaryStage))
  }

  /** Build and check both stages; neither target moves. It fails only when an operation raises, or the tree is unsound. */
  method Stage(store: Store<Node>, p: Pair) returns (raised: bool)
    requires WellFormed(p) && Cutover(store.files, p.tree, false) && Cutover(store.files, p.binary, false)
    modifies store
    ensures BothKeep(p, old(store.events), store.events)
    ensures Cutover(store.files, p.tree, false) && Cutover(store.files, p.binary, false)
    ensures !raised ==>
              && Lookup(store.files, p.stage) == p.tree.staged && Lookup(store.files, p.binaryStage) == p.binary.staged
              && Verifies(p.tree.staged.value, p.tree.staged.value.manifest.value)
    ensures forall q | q !in {p.stage, p.binaryStage} :: Lookup(store.files, q) == Lookup(old(store.files), q)
    ensures StagesOfKind(old(store.files), p) ==> StagesOfKind(store.files, p)
    ensures old(store.raises) <= store.raises <= old(store.raises) + 1
    ensures raised <==> store.raises > old(store.raises) || !Sound(p)
  {
    hide KeepsPrint, PrintOf, Cutover;
    ghost var d0, e0 := store.files, store.events;
    raised := CopyTree(store, p);
    if !raised && !Verifies(p.tree.staged.value, p.tree.staged.value.manifest.value) {
      raised := true;
    } else if !raised {
      ghost var d1, e1 := store.files, store.events;
      raised := WriteBinary(store, p);
      StagingOn(d0, d1, p, e0, e1, store.events);
    }
    StagingKeeps(d0, store.files, p.tree, p, e0, store.events);
    StagingKeeps(d0, store.files, p.binary, p, e0, store.events);
  }

  /** The events grew by own changes of the two stages. */
  ghost predicate OnlyStages(d0: Disk, p: Pair, before: seq<Event<Node>>, now: seq<Event<Node>>) {
    before <= now
    && forall k | |before| <= k < |now| ::
         now[k].own && forall q | q !in {p.stage, p.binaryStage} :: Lookup(now[k].after, q) == Lookup(d0, q)
  }

  lemma StagingOn(d0: Disk, d1: Disk, p: Pair, a: seq<Event<Node>>, b: seq<Event<Node>>, c: seq<Event<Node>>)
    requires OnlyStages(d0, p, a, b) && OnlyStages(d1, p, b, c)
    requires forall q | q !in {p.stage, p.binaryStage} :: Lookup(d1, q) == Lookup(d0, q)
    ensures OnlyStages(d0, p, a, c)
  {
  }

  lemma StagingKeeps(d0: Disk, d: Disk, t: Target, p: Pair, before: seq<Event<Node>>, now: seq<Event<Node>>)
    requires {t.path, t.backup} !! {p.stage, p.binaryStage} && Cutover(d0, t, false)
    requires OnlyStages(d0, p, before, now) && forall q | q !in {p.stage, p.binaryStage} :: Lookup(d, q) == Lookup(d0, q)
    ensures StatesKeep(t, before, now) && Cutover(d, t, false)
  {
    hide KeepsPrint, Cutover;
    forall k | |before| <= k < |now|
      ensures KeepsPrint(now[k].after, t)
    {
      AwayKeeps(d0, now[k].after, t, false);
    }
    AwayKeeps(d0, d, t, false);
  }

  method CopyTree(store: Store<Node>, p: Pair) returns (raised: bool)
    requires WellFormed(p)
    modifies store
    ensures OnlyStages(old(store.files), p, old(store.events), store.events)
    ensures forall q | q != p.stage :: Lookup(store.files, q) == Lookup(old(store.files), q)
    ensures OfKind(true, Lookup(old(store.files), p.stage)) ==> OfKind(true, Lookup(store.files, p.stage))
    ensures !raised ==> Lookup(store.files, p.stage) == p.tree.staged
    ensures store.raises == old(store.raises) + (if raised then 1 else 0)
  {
    raised := store.Attempt();
    var rounds: nat := *;
    while rounds > 0 && !raised
      invariant OnlyStages(old(store.files), p, old(store.events), store.events)
      invariant forall q | q != p.stage :: Lookup(store.files, q) == Lookup(old(store.files), q)
      invariant OfKind(true, Lookup(old(store.files), p.stage)) ==> OfKind(true, Lookup(store.files, p.stage))
      invariant store.raises == old(store.raises) + (if raised then 1 else 0)
      decreases rounds
    {
      var entries: map<string, string> := *;
      raised := store.Set(p.stage, Some(Tree(entries, None)));
      rounds := rounds - 1;
    }
    if !raised {
      raised := store.Set(p.stage, p.tree.staged);
    }
  }

  method WriteBinary(store: Store<Node>, p: Pair) returns (raised: bool)
    requires WellFormed(p)
    modifies store
    ensures OnlyStages(old(store.files), p, old(store.events), store.events)
    ensures forall q | q != p.binaryStage :: Lookup(store.files, q) == Lookup(old(store.files), q)
    ensures OfKind(false, Lookup(old(store.files), p.binaryStage)) ==> OfKind(false, Lookup(store.files, p.binaryStage))
    ensures !raised ==> Lookup(store.files, p.binaryStage) == p.binary.staged
    ensures store.raises == old(store.raises) + (if raised then 1 else 0)
  {
    var mode: nat := *;
    raised := store.Set(p.binaryStage, Some(File(p.binary.staged.value.bytes, mode)));
    if !raised {
      raised := store.Set(p.binaryStage, p.binary.staged);
    }
  }

  /** Move one target aside and its stage into place. */
  method CutOver(store: Store<Node>, t: Target, stage: string, ghost other: Target, ghost otherStarted: bool) returns (raised: bool)
    requires t.path != t.backup && stage !in {t.path, t.backup, other.path, other.backup}
    requires {t.path, t.backup} !! {other.path, other.backup}
    requires t.staged.Some? && Cutover(store.files, t, false) && Cutover(store.files, other, otherStarted)
    requires Lookup(store.files, stage) == t.staged
    modifies store
    ensures StatesKeep(t, old(store.events), store.events) && StatesKeep(other, old(store.events), store.events)
    ensures Cutover(store.files, t, true) && Cutover(store.files, other, otherStarted)
    ensures !raised ==> At(store.files, t) == t.staged
    ensures forall q | q !in {t.path, t.backup, stage} :: Lookup(store.files, q) == Lookup(old(store.files), q)
    ensures Lookup(store.files, stage) in {None, t.staged}
    ensures store.raises == old(store.raises) + (if raised then 1 else 0)
  {
    hide KeepsPrint, Cutover;
    ghost var d0 := store.files;
    NotStarted(d0, t);
    raised := store.Attempt();
    if raised {
      return;
    }
    if t.path in store.files {
      raised := store.Rename(t.path, t.backup);
      AwayKeeps(d0, store.files, other, otherStarted);
      if store.files != d0 {
        MovedAside(d0, store.files, t);
      }
      CutoverKeeps(store.files, t, true);
      if raised {
        return;
      }
    }
    ghost var d1 := store.files;
    raised := store.Rename(stage, t.path);
    AwayKeeps(d0, store.files, other, otherStarted);
    if store.files != d1 {
      MovedIn(d0, d1, store.files, t, stage);
    }
    CutoverKeeps(store.files, t, true);
  }

  lemma NotStarted(d: Disk, t: Target)
    requires Cutover(d, t, false)
    ensures Cutover(d, t, true) && At(d, t) == t.original && t.backup !in d
  {
  }

  lemma MovedAside(d0: Disk, d: Disk, t: Target)
    requires t.path != t.backup && Cutover(d0, t, false) && t.path in d0
    requires d == Without(d0[t.backup := d0[t.path]], t.path)
    ensures Cutover(d, t, true) && At(d, t) == None && Lookup(d, t.backup) == t.original
  {
  }

  lemma MovedIn(d0: Disk, d1: Disk, d: Disk, t: Target, stage: string)
    requires t.path != t.backup && stage !in {t.path, t.backup} && t.staged.Some? && Lookup(d1, stage) == t.staged
    requires At(d1, t) == None && Lookup(d1, t.backup) == t.original
    requires d == Without(d1[t.path := d1[stage]], stage)
    ensures Cutover(d, t, true)
  {
  }

  lemma KeepMore(t: Target, a: seq<Event<Node>>, b: seq<Event<Node>>, c: seq<Event<Node>>)
    requires StatesKeep(t, a, b) && StatesKeep(t, b, c)
    ensures StatesKeep(t, a, c)
  {
  }

  /** While one target is rolled back, the other is left as it stands. */
  lemma OtherKeeps(d0: Disk, t: Target, other: Target, before: seq<Event<Node>>, now: seq<Event<Node>>)
    requires {t.path, t.backup} !! {other.path, other.backup}
    requires OnlyTarget(d0, t, before, now) && StatesKeep(t, before, now) && KeepsPrint(d0, other)
    ensures StatesKeep(other, before, now)
  {
    forall k | |before| <= k < |now|
      ensures KeepsPrint(now[k].after, other)
    {
      Elsewhere(d0, now[k].after, t, other.path);
      Elsewhere(d0, now[k].after, t, other.backup);
    }
  }

  lemma Elsewhere(d0: Disk, d: Disk, t: Target, path: string)
    requires path !in {t.path, t.backup}
    requires Without(Without(d, t.path), t.backup) == Without(Without(d0, t.path), t.backup)
    ensures Lookup(d, path) == Lookup(d0, path)
  {
    assert Lookup(Without(Without(d, t.path), t.backup), path) == Lookup(Without(Without(d0, t.path), t.backup), path);
  }

  /** Every path an install touches. */
  function Names(p: Pair): set<string> {
    {p.tree.path, p.tree.backup, p.binary.path, p.binary.backup, p.stage, p.binaryStage}
  }

  datatype Progress = Progress(treeStarted: bool, binaryStarted: bool)

  /** The guarded forward part: stage both, move both, verify the pair. */
  method Forward(store: Store<Node>, p: Pair) returns (raised: bool, progress: Progress)
    requires WellFormed(p) && Fresh(store.files, p)
    modifies store
    ensures BothKeep(p, old(store.events), store.events)
    ensures Cutover(store.files, p.tree, progress.treeStarted) && Cutover(store.files, p.binary, progress.binaryStarted)
    ensures !raised ==>
              && At(store.files, p.tree) == p.tree.staged && At(store.files, p.binary) == p.binary.staged
              && Verifies(p.tree.staged.value, p.tree.staged.value.manifest.value)
    ensures forall q | q !in Names(p) :: Lookup(store.files, q) == Lookup(old(store.files), q)
    ensures StagesOfKind(store.files, p)
    ensures old(store.raises) <= store.raises <= old(store.raises) + 1
    ensures raised <==> store.raises > old(store.raises) || !Sound(p)
  {
    hide KeepsPrint, PrintOf;
    progress := Progress(false, false);
    ghost var e0 := store.events;
    raised := Stage(store, p);
    if raised {
      return;
    }
    ghost var e1 := store.events;
    progress := Progress(true, false);
    raised := CutOver(store, p.tree, p.stage, p.binary, false);
    KeepMore(p.tree, e0, e1, store.events);
    KeepMore(p.binary, e0, e1, store.events);
    if raised {
      return;
    }
    ghost var e2 := store.events;
    progress := Progress(true, true);
    raised := CutOver(store, p.binary, p.binaryStage, p.tree, true);
    KeepMore(p.tree, e0, e2, store.events);
    KeepMore(p.binary, e0, e2, store.events);
    if raised {
      return;
    }
    raised := VerifyPair(store, p);
  }

  /** `_verify_pair`: the tree still matches its manifest, the binary is the executable rendering. */
  method VerifyPair(store: Store<Node>, p: Pair) returns (raised: bool)
    requires WellFormed(p)
    modifies store`raises
    ensures !raised ==>
              && At(store.files, p.tree).Some?
              && Verifies(At(store.files, p.tree).value, p.tree.staged.value.manifest.value)
              && At(store.files, p.binary) == p.binary.staged
    ensures At(store.files, p.tree) == p.tree.staged && At(store.files, p.binary) == p.binary.staged && Sound(p) ==>
              store.raises == old(store.raises) + (if raised then 1 else 0)
  {
    var unreadable, tree := store.Read(p.tree.path);
    if unreadable || tree.None? || !Verifies(tree.value, p.tree.staged.value.manifest.value) {
      return true;
    }
    var binary;
    unreadable, binary := store.Read(p.binary.path);
    raised := unreadable || binary != p.binary.staged;
  }

  /** `_rollback`: the binary first, then the tree, then both fingerprints again. */
  method RollBack(store: Store<Node>, p: Pair, progress: Progress) returns (verified: bool, suspects: seq<string>)
    requires WellFormed(p)
    requires Cutover(store.files, p.tree, progress.treeStarted) && Cutover(store.files, p.binary, progress.binaryStarted)
    modifies store
    ensures BothKeep(p, old(store.events), store.events)
    ensures KeepsPrint(store.files, p.tree) && KeepsPrint(store.files, p.binary)
    ensures verified ==> RestoredTarget(store.files, p.tree) && RestoredTarget(store.files, p.binary)
    ensures !RestoredTarget(store.files, p.tree) ==> p.tree.path in suspects
    ensures !RestoredTarget(store.files, p.binary) ==> p.binary.path in suspects
    ensures forall q | q !in {p.tree.path, p.tree.backup, p.binary.path, p.binary.backup} ::
              Lookup(store.files, q) == Lookup(old(store.files), q)
    ensures OwnKind(p.tree) && OwnKind(p.binary) && store.raises == old(store.raises) ==> verified && suspects == []
    ensures store.raises >= old(store.raises)
  {
    hide PrintOf, Verifies;
    ghost var e0, d0 := store.events, store.files;
    CutoverKeeps(d0, p.tree, progress.treeStarted);
    CutoverKeeps(d0, p.binary, progress.binaryStarted);
    var binaryError := RestoreTarget(store, p.binary, progress.binaryStarted);
    OtherKeeps(d0, p.binary, p.tree, e0, store.events);
    ghost var d1, e1 := store.files, store.events;
    Elsewhere(d0, d1, p.binary, p.tree.path);
    Elsewhere(d0, d1, p.binary, p.tree.backup);
    AwayKeeps(d0, d1, p.tree, progress.treeStarted);
    var treeError := RestoreTarget(store, p.tree, progress.treeStarted);
    OtherKeeps(d1, p.tree, p.binary, e1, store.events);
    KeepMore(p.tree, e0, e1, store.events);
    KeepMore(p.binary, e0, e1, store.events);
    Elsewhere(d1, store.files, p.tree, p.binary.path);
    Elsewhere(d1, store.files, p.tree, p.binary.backup);
    var raised1, print1 := ReadPrint(store, true, p.tree.path);
    var raised2, print2 := ReadPrint(store, false, p.binary.path);
    verified := !binaryError && !treeError && !raised1 && print1 == Expected(p.tree)
                && !raised2 && print2 == Expected(p.binary);
    suspects := (if binaryError || raised2 then [p.binary.path] else []) + (if treeError || raised1 then [p.tree.path] else []);
    forall q | q !in {p.tree.path, p.tree.backup, p.binary.path, p.binary.backup}
      ensures Lookup(store.files, q) == Lookup(d0, q)
    {
      Elsewhere(d0, d1, p.binary, q);
      Elsewhere(d1, store.files, p.tree, q);
    }
  }

  datatype Outcome =
    | Refused
    | Failed(rollbackVerified: bool, recovery: seq<string>)
    | Installed(leftover: seq<string>)

  function Existing(d: Disk, paths: seq<string>): seq<string> {
    if paths == [] then [] else (if paths[0] in d then [paths[0]] else []) + Existing(d, paths[1..])
  }

  lemma {:induction false} ExistingMembers(d: Disk, paths: seq<string>)
    ensures forall path :: path in Existing(d, paths) <==> path in paths && path in d
  {
    if paths != [] {
      ExistingMembers(d, paths[1..]);
    }
  }

  lemma {:induction false} NoneExist(d: Disk, paths: seq<string>)
    requires forall path | path in paths :: path !in d
    ensures Existing(d, paths) == []
  {
    if paths != [] {
      NoneExist(d, paths[1..]);
    }
  }

  lemma OnlyAtKeeps(d0: Disk, path: string, t: Target, before: seq<Event<Node>>, now: seq<Event<Node>>)
    requires path !in {t.path, t.backup} && KeepsPrint(d0, t) && OnlyAt(d0, path, before, now)
    ensures StatesKeep(t, before, now)
  {
    forall k | |before| <= k < |now|
      ensures KeepsPrint(now[k].after, t)
    {
      SameBeside(d0, now[k].after, path, t.path);
      SameBeside(d0, now[k].after, path, t.backup);
    }
  }

  lemma SameBeside(d0: Disk, d: Disk, path: string, other: string)
    requires Without(d, path) == Without(d0, path) && other != path
    ensures Lookup(d, other) == Lookup(d0, other)
  {
    assert Lookup(Without(d, path), other) == Lookup(Without(d0, path), other);
  }

  /** Clear what staging left, once both targets are proven back. */
  method ClearStages(store: Store<Node>, p: Pair)
    requires WellFormed(p) && KeepsPrint(store.files, p.tree) && KeepsPrint(store.files, p.binary)
    requires RestoredTarget(store.files, p.tree) && RestoredTarget(store.files, p.binary)
    modifies store
    ensures BothKeep(p, old(store.events), store.events)
    ensures KeepsPrint(store.files, p.tree) && KeepsPrint(store.files, p.binary)
    ensures RestoredTarget(store.files, p.tree) && RestoredTarget(store.files, p.binary)
    ensures forall q | q !in {p.stage, p.binaryStage} :: Lookup(store.files, q) == Lookup(old(store.files), q)
    ensures store.raises >= old(store.raises)
    ensures StagesOfKind(old(store.files), p) && store.raises == old(store.raises) ==>
              p.stage !in store.files && p.binaryStage !in store.files
  {
    hide Verifies, PrintOf;
    ghost var d0, e0 := store.files, store.events;
    var _ := Remove(store, true, p.stage);
    OnlyAtKeeps(d0, p.stage, p.tree, e0, store.events);
    OnlyAtKeeps(d0, p.stage, p.binary, e0, store.events);
    ghost var d1, e1 := store.files, store.events;
    forall q | q != p.stage
      ensures Lookup(d1, q) == Lookup(d0, q)
    {
      SameBeside(d0, d1, p.stage, q);
    }
    var _ := Remove(store, false, p.binaryStage);
    OnlyAtKeeps(d1, p.binaryStage, p.tree, e1, store.events);
    OnlyAtKeeps(d1, p.binaryStage, p.binary, e1, store.events);
    KeepMore(p.tree, e0, e1, store.events);
    KeepMore(p.binary, e0, e1, store.events);
    forall q | q !in {p.stage, p.binaryStage}
      ensures Lookup(store.files, q) == Lookup(d0, q)
    {
      SameBeside(d1, store.files, p.binaryStage, q);
    }
    SameBeside(d1, store.files, p.binaryStage, p.stage);
    SamePlaces(d0, store.files, p.tree);
    SamePlaces(d0, store.files, p.binary);
  }

  lemma SamePlaces(d0: Disk, d: Disk, t: Target)
    requires Lookup(d, t.path) == Lookup(d0, t.path) && Lookup(d, t.backup) == Lookup(d0, t.backup)
    ensures KeepsPrint(d, t) == KeepsPrint(d0, t) && RestoredTarget(d, t) == RestoredTarget(d0, t)
  {
  }

  /** The original itself is whole in every state. */
  ghost predicate OriginalSurvives(t: Target, before: seq<Event<Node>>, now: seq<Event<Node>>) {
    before <= now && forall k | |before| <= k < |now| :: Keeps(now[k].after, t)
  }

  lemma OriginalsSurvive(t: Target, before: seq<Event<Node>>, now: seq<Event<Node>>, d: Disk)
    requires StatesKeep(t, before, now) && KeepsPrint(d, t)
    ensures PrintOf(t.tree, t.staged) != Expected(t) ==> OriginalSurvives(t, before, now) && Keeps(d, t)
  {
    hide PrintOf;
  }

  /** The replacement is told from the original by its fingerprint. */
  predicate Differs(t: Target) {
    PrintOf(t.tree, t.staged) != Expected(t)
  }

  /** Both targets proven back and both stages cleared: nothing is left to list, and the disk is as it was. */
  lemma NothingLeft(d0: Disk, d: Disk, p: Pair)
    requires WellFormed(p) && Fresh(d0, p) && forall q | q !in Names(p) :: Lookup(d, q) == Lookup(d0, q)
    ensures RestoredTarget(d, p.tree) && RestoredTarget(d, p.binary) && p.stage !in d && p.binaryStage !in d ==>
              && Existing(d, [] + [p.stage, p.binaryStage, p.tree.backup, p.binary.backup]) == []
              && (Differs(p.tree) && Differs(p.binary) ==> d == d0)
  {
    hide PrintOf;
    if RestoredTarget(d, p.tree) && RestoredTarget(d, p.binary) && p.stage !in d && p.binaryStage !in d {
      var leavings := [] + [p.stage, p.binaryStage, p.tree.backup, p.binary.backup];
      NoneExist(d, leavings);
      if Differs(p.tree) && Differs(p.binary) {
        forall q
          ensures Lookup(d, q) == Lookup(d0, q)
        {
        }
        SameMaps(d, d0);
      }
    }
  }

  method Install(store: Store<Node>, p: Pair) returns (outcome: Outcome)
    requires WellFormed(p) && Fresh(store.files, p)
    modifies store
    ensures outcome.Refused? ==> store.files == old(store.files) && store.events == old(store.events)
    ensures outcome.Failed? ==>
              && BothKeep(p, old(store.events), store.events)
              && KeepsPrint(store.files, p.tree) && KeepsPrint(store.files, p.binary)
              && (outcome.rollbackVerified ==>
                    RestoredTarget(store.files, p.tree) && RestoredTarget(store.files, p.binary))
              && (forall path | path in {p.stage, p.binaryStage, p.tree.backup, p.binary.backup} && path in store.files ::
                    path in outcome.recovery)
              && (forall t | t in {p.tree, p.binary} && !RestoredTarget(store.files, t) && At(store.files, t).Some? ::
                    t.path in outcome.recovery)
              && (forall t | t in {p.tree, p.binary} && PrintOf(t.tree, t.staged) != Expected(t) ::
                    OriginalSurvives(t, old(store.events), store.events) && Keeps(store.files, t))
    ensures outcome.Installed? ==>
              && At(store.files, p.tree) == p.tree.staged && At(store.files, p.binary) == p.binary.staged
              && Verifies(p.tree.staged.value, p.tree.staged.value.manifest.value)
              && outcome.leftover == Existing(store.files, [p.tree.backup, p.binary.backup])
    ensures OwnKind(p.tree) && OwnKind(p.binary) && Sound(p) && store.raises == old(store.raises) ==> outcome == Installed([])
    ensures outcome.Failed? && OwnKind(p.tree) && OwnKind(p.binary) && store.raises <= old(store.raises) + (if Sound(p) then 1 else 0) ==>
              && outcome == Failed(true, [])
              && (Differs(p.tree) && Differs(p.binary) ==> store.files == old(store.files))
    ensures outcome.Refused? ==> store.raises > old(store.raises)
  {
    hide KeepsPrint, PrintOf, Cutover, Verifies, RestoredTarget, Existing;
    ghost var d0 := store.files;
    var unreadable := store.Attempt();
    if unreadable {
      return Refused;
    }
    ghost var e0 := store.events;
    var raised, progress := Forward(store, p);
    if raised {
      ghost var e1 := store.events;
      var verified, suspects := RollBack(store, p, progress);
      KeepMore(p.tree, e0, e1, store.events);
      KeepMore(p.binary, e0, e1, store.events);
      ghost var e2 := store.events;
      if verified {
        ClearStages(store, p);
        KeepMore(p.tree, e0, e2, store.events);
        KeepMore(p.binary, e0, e2, store.events);
      }
      var leavings := suspects + [p.stage, p.binaryStage, p.tree.backup, p.binary.backup];
      ExistingMembers(store.files, leavings);
      assert forall path | path in {p.stage, p.binaryStage, p.tree.backup, p.binary.backup} :: path in leavings;
      outcome := Failed(verified, Existing(store.files, leavings));
      NothingLeft(d0, store.files, p);
      OriginalsSurvive(p.tree, e0, store.events, store.files);
      OriginalsSurvive(p.binary, e0, store.events, store.files);
    } else {
      ghost var d1 := store.files;
      BackupIsOriginal(d1, p.tree, progress.treeStarted);
      BackupIsOriginal(d1, p.binary, progress.binaryStarted);
      var _ := Remove(store, true, p.tree.backup);
      ghost var d2 := store.files;
      var _ := Remove(store, false, p.binary.backup);
      SameBeside(d1, d2, p.tree.backup, p.tree.path);
      SameBeside(d1, d2, p.tree.backup, p.binary.path);
      SameBeside(d1, d2, p.tree.backup, p.binary.backup);
      SameBeside(d2, store.files, p.binary.backup, p.tree.backup);
      SameBeside(d2, store.files, p.binary.backup, p.tree.path);
      SameBeside(d2, store.files, p.binary.backup, p.binary.path);
      if p.tree.backup !in store.files && p.binary.backup !in store.files {
        NoneExist(store.files, [p.tree.backup, p.binary.backup]);
      }
      outcome := Installed(Existing(store.files, [p.tree.backup, p.binary.backup]));
    }
  }
}
