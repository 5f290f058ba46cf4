/**
 The journalled approval commit and its explicit, possibly partial recovery.

 A commit writes its change set to a journal file, applies it file by file, and
 deletes the journal. Recovery puts the selected entries back and rewrites the
 journal to what is left. Either may stop after any single file operation.
 */
module ApprovalJournal {
  import opened Prelude
  import opened FileStore

  /** File content: ordinary bytes, or a journal (whose text encodes its entries exactly). */
  datatype Content = Bytes(bytes: seq<int>) | Journal(entries: seq<Change>)

  datatype Change = Change(path: string, before: Option<Content>, after: Option<Content>)

  type Files = map<string, Content>

  function Paths(changes: seq<Change>): set<string> {
    set c | c in changes :: c.path
  }

  predicate Distinct(changes: seq<Change>) {
    forall i, j | 0 <= i < j < |changes| :: changes[i].path != changes[j].path
  }

  ghost predicate Elsewhere(d0: Files, d: Files, changes: seq<Change>) {
    forall p :: p !in Paths(changes) ==> Lookup(d, p) == Lookup(d0, p)
  }

  /** Every file of the change set holds its before or its after content; no other file moved. */
  ghost predicate Between(d0: Files, d: Files, changes: seq<Change>) {
    Elsewhere(d0, d, changes) && forall c | c in changes :: Lookup(d, c.path) in {c.before, c.after}
  }

  ghost predicate Applied(d0: Files, d: Files, changes: seq<Change>) {
    Elsewhere(d0, d, changes) && forall c | c in changes :: Lookup(d, c.path) == c.after
  }

  ghost predicate Untouched(d: Files, changes: seq<Change>) {
    forall c | c in changes :: Lookup(d, c.path) == c.before
  }

  /** The events grew by this program's own changes only, every state between the two ends. */
  ghost predicate Stayed(d0: Files, before: seq<Event<Content>>, now: seq<Event<Content>>, changes: seq<Change>) {
    && before <= now
    && (forall k | |before| <= k < |now| ::
          now[k].own && Between(d0, now[k].before, changes) && Between(d0, now[k].after, changes))
  }

  // ---------------------------------------------------------------------
  // apply_file_changes
  // ---------------------------------------------------------------------

  lemma PutStaysBetween(d0: Files, d: Files, changes: seq<Change>, c: Change, content: Option<Content>)
    requires Distinct(changes) && c in changes && content in {c.before, c.after}
    requires Between(d0, d, changes)
    ensures Between(d0, Put(d, c.path, content), changes)
  {
  }

  /** Put attempted changes back in reverse order; `surviving` are the paths that could not be. When nothing raises
      every file is back. */
  method RollBack(store: Store<Content>, changes: seq<Change>, attempted: nat, ghost d0: Files)
    returns (surviving: seq<string>)
    requires Distinct(changes) && attempted <= |changes|
    requires Between(d0, store.files, changes)
    requires forall k | attempted <= k < |changes| :: Lookup(store.files, changes[k].path) == changes[k].before
    modifies store
    ensures Stayed(d0, old(store.events), store.events, changes)
    ensures Between(d0, store.files, changes)
    ensures forall c | c in changes :: Lookup(store.files, c.path) == c.before || c.path in surviving
    ensures store.raises >= old(store.raises)
    ensures store.raises == old(store.raises) ==> surviving == [] && Untouched(store.files, changes)
  {
    var k := attempted;
    while k > 0
      invariant 0 <= k <= attempted && store.raises >= old(store.raises)
      invariant Stayed(d0, old(store.events), store.events, changes)
      invariant Between(d0, store.files, changes)
      invariant forall i | attempted <= i < |changes| :: Lookup(store.files, changes[i].path) == changes[i].before
      invariant store.raises == old(store.raises) ==>
                  forall i | k <= i < attempted :: Lookup(store.files, changes[i].path) == changes[i].before
    {
      k := k - 1;
      var change := changes[k];
      var raised, current := store.Read(change.path);
      if !raised && current != change.before && current == change.after {
        PutStaysBetween(d0, store.files, changes, change, change.before);
        raised := store.Set(change.path, change.before);
      }
    }
    surviving := Survey(store, changes, attempted);
  }

  /** The attempted files that are not back, or cannot be read. */
  method Survey(store: Store<Content>, changes: seq<Change>, attempted: nat) returns (surviving: seq<string>)
    requires attempted <= |changes|
    modifies store`raises
    ensures forall i | 0 <= i < attempted :: Lookup(store.files, changes[i].path) == changes[i].before || changes[i].path in surviving
    ensures store.raises >= old(store.raises)
    ensures store.raises == old(store.raises) && (forall i | 0 <= i < attempted :: Lookup(store.files, changes[i].path) == changes[i].before) ==>
              surviving == []
  {
    surviving := [];
    for i := 0 to attempted
      modifies store`raises
      invariant store.raises >= old(store.raises)
      invariant forall j | 0 <= j < i ::
                  Lookup(store.files, changes[j].path) == changes[j].before || changes[j].path in surviving
      invariant surviving == [] || store.raises > old(store.raises)
                || exists j | 0 <= j < i :: Lookup(store.files, changes[j].path) != changes[j].before
    {
      var raised, current := store.Read(changes[i].path);
      if raised || current != changes[i].before {
        surviving := surviving + [changes[i].path];
      }
    }
  }

  /** Apply every change, or put every attempted one back. Nothing is written unless
      every file still holds its before content. If only one operation raises, nothing is left changed. */
  method ApplyFileChanges(store: Store<Content>, changes: seq<Change>) returns (ok: bool, surviving: seq<string>)
    requires Distinct(changes)
    modifies store
    ensures !Untouched(old(store.files), changes) ==>
              !ok && surviving == [] && store.files == old(store.files) && store.events == old(store.events)
    ensures Untouched(old(store.files), changes) ==>
              Stayed(old(store.files), old(store.events), store.events, changes)
              && Between(old(store.files), store.files, changes)
    ensures ok ==> Applied(old(store.files), store.files, changes)
    ensures store.raises >= old(store.raises)
    ensures Untouched(old(store.files), changes) && store.raises == old(store.raises) ==> ok
    ensures !ok && Untouched(old(store.files), changes) ==>
              forall c | c in changes :: Lookup(store.files, c.path) == c.before || c.path in surviving
    ensures !ok && Untouched(old(store.files), changes) && store.raises <= old(store.raises) + 1 ==>
              surviving == [] && store.files == old(store.files)
  {
    surviving := [];
    ghost var d0 := store.files;
    var intact := Preflight(store, changes);
    if !intact {
      return false, [];
    }
    var raised, attempted := WriteAll(store, changes);
    ok := !raised;
    if raised {
      surviving := RollBack(store, changes, attempted, d0);
      if Untouched(store.files, changes) {
        NothingMoved(d0, store.files, changes);
      }
    }
  }

  /** Every file still holds its before content. */
  method Preflight(store: Store<Content>, changes: seq<Change>) returns (intact: bool)
    modifies store`raises
    ensures intact ==> Untouched(store.files, changes)
    ensures store.raises >= old(store.raises)
    ensures Untouched(store.files, changes) && store.raises == old(store.raises) ==> intact
  {
    for i := 0 to |changes|
      modifies store`raises
      invariant store.raises >= old(store.raises)
      invariant forall j | 0 <= j < i :: Lookup(store.files, changes[j].path) == changes[j].before
    {
      var raised, current := store.Read(changes[i].path);
      if raised || current != changes[i].before {
        return false;
      }
    }
    intact := true;
  }

  /** Write the changes in order until something raises. */
  method WriteAll(store: Store<Content>, changes: seq<Change>) returns (raised: bool, attempted: nat)
    requires Distinct(changes) && Untouched(store.files, changes)
    modifies store
    ensures attempted <= |changes|
    ensures Stayed(old(store.files), old(store.events), store.events, changes) && Between(old(store.files), store.files, changes)
    ensures !raised ==> Applied(old(store.files), store.files, changes)
    ensures forall i | attempted <= i < |changes| :: Lookup(store.files, changes[i].path) == changes[i].before
    ensures store.raises == old(store.raises) + (if raised then 1 else 0)
  {
    ghost var d0 := store.files;
    raised, attempted := false, 0;
    while attempted < |changes| && !raised
      invariant attempted <= |changes|
      invariant store.raises == old(store.raises) + (if raised then 1 else 0)
      invariant Stayed(d0, old(store.events), store.events, changes)
      invariant Between(d0, store.files, changes)
      invariant !raised ==> forall i | 0 <= i < attempted :: Lookup(store.files, changes[i].path) == changes[i].after
      invariant forall i | attempted <= i < |changes| :: Lookup(store.files, changes[i].path) == changes[i].before
      decreases |changes| - attempted, !raised
    {
      var change := changes[attempted];
      var unreadable, current := store.Read(change.path);
      if unreadable || current != change.before {
        raised := true;
        break;
      }
      PutStaysBetween(d0, store.files, changes, change, change.after);
      raised := store.Set(change.path, change.after);
      attempted := attempted + 1;
    }
  }

  lemma NothingMoved(d0: Files, d: Files, changes: seq<Change>)
    requires Untouched(d0, changes) && Untouched(d, changes) && Elsewhere(d0, d, changes)
    ensures d == d0
  {
    forall p
      ensures Lookup(d, p) == Lookup(d0, p)
    {
    }
    SameMaps(d, d0);
  }

  // ---------------------------------------------------------------------
  // commit
  // ---------------------------------------------------------------------

  datatype CommitOutcome = Unchanged | Refused | Interrupted | Committed

  /** The only states a commit of `changes` can leave behind, wherever it stops: nothing
      done, all done, or a journal naming every file that may have moved. */
  ghost predicate CommitState(d0: Files, d: Files, journal: string, changes: seq<Change>) {
    || d == d0
    || Applied(d0, d, changes)
    || (Lookup(d, journal) == Some(Journal(changes)) && Between(d0, Without(d, journal), changes))
  }

  ghost predicate CommitStates(d0: Files, before: seq<Event<Content>>, now: seq<Event<Content>>,
                               journal: string, changes: seq<Change>)
  {
    before <= now
    && forall k | |before| <= k < |now| :: now[k].own && CommitState(d0, now[k].after, journal, changes)
  }

  method Commit(store: Store<Content>, journal: string, changes: seq<Change>) returns (outcome: CommitOutcome)
    requires Distinct(changes) && journal !in Paths(changes)
    modifies store
    ensures outcome.Unchanged? <==> changes == []
    ensures journal in old(store.files) || !Untouched(old(store.files), changes) ==> outcome in {Unchanged, Refused}
    ensures outcome in {Unchanged, Refused} ==> store.files == old(store.files) && store.events == old(store.events)
    ensures outcome.Interrupted? ==> CommitState(old(store.files), store.files, journal, changes)
    ensures outcome.Committed? ==> Applied(old(store.files), store.files, changes)
    ensures CommitStates(old(store.files), old(store.events), store.events, journal, changes)
    ensures journal !in old(store.files) && Untouched(old(store.files), changes) && store.raises == old(store.raises) ==>
              outcome in {Unchanged, Committed}
    ensures outcome.Interrupted? && store.raises <= old(store.raises) + 1 ==>
              Untouched(store.files, changes) || Applied(old(store.files), Without(store.files, journal), changes)
  {
    if changes == [] {
      return Unchanged;
    }
    ghost var d0, e0 := store.files, store.events;
    var raised, current := store.Read(journal);
    if raised || current.Some? {
      return Refused;
    }
    var intact := Preflight(store, changes);
    if !intact {
      return Refused;
    }
    var receipt := [Change(journal, None, Some(Journal(changes)))];
    var ok, surviving := ApplyFileChanges(store, receipt);
    JournalStates(d0, e0, store.events, journal, changes);
    JournalState(d0, store.files, journal, changes);
    if !ok {
      return Interrupted;
    }
    ghost var d1, e1 := store.files, store.events;
    ok, surviving := ApplyFileChanges(store, changes);
    ApplyStates(d0, d1, e1, store.events, journal, changes);
    ApplyState(d0, d1, store.files, journal, changes);
    if !ok {
      return Interrupted;
    }
    ghost var d2, e2 := store.files, store.events;
    ok, surviving := ApplyFileChanges(store, [Change(journal, Some(Journal(changes)), None)]);
    ReceiptStates(d0, d1, d2, e2, store.events, journal, changes);
    ReceiptState(d0, d1, d2, store.files, journal, changes);
    outcome := if ok then Committed else Interrupted;
  }

  /** While only the journal moves, nothing is done yet or the journal names everything. */
  lemma JournalState(d0: Files, d: Files, journal: string, changes: seq<Change>)
    requires journal !in d0 && journal !in Paths(changes) && Untouched(d0, changes)
    requires Between(d0, d, [Change(journal, None, Some(Journal(changes)))])
    ensures CommitState(d0, d, journal, changes)
    ensures Applied(d0, d, [Change(journal, None, Some(Journal(changes)))]) ==>
              Untouched(d, changes) && Lookup(d, journal) == Some(Journal(changes)) && Without(d, journal) == d0
  {
    var c := Change(journal, None, Some(Journal(changes)));
    assert c in [c];
    assert Paths([c]) == {journal};
    SameElsewhere(d0, d, journal);
    if journal !in d {
      assert d == d0;
    }
  }

  lemma SameElsewhere(d0: Files, d: Files, path: string)
    requires forall p :: p != path ==> Lookup(d, p) == Lookup(d0, p)
    ensures Without(d, path) == Without(d0, path)
    ensures path !in d0 && path !in d ==> d == d0
    ensures path !in d0 ==> Without(d, path) == d0
  {
    forall p | p != path
      ensures p in d <==> p in d0
      ensures p in d ==> d[p] == d0[p]
    {
      assert Lookup(d, p) == Lookup(d0, p);
    }
  }

  lemma JournalStates(d0: Files, before: seq<Event<Content>>, now: seq<Event<Content>>, journal: string, changes: seq<Change>)
    requires journal !in d0 && journal !in Paths(changes) && Untouched(d0, changes)
    requires Stayed(d0, before, now, [Change(journal, None, Some(Journal(changes)))])
    ensures CommitStates(d0, before, now, journal, changes)
  {
    forall k | |before| <= k < |now|
      ensures CommitState(d0, now[k].after, journal, changes)
    {
      JournalState(d0, now[k].after, journal, changes);
    }
  }

  /** While the change set moves, the journal stands. */
  lemma ApplyState(d0: Files, d1: Files, d: Files, journal: string, changes: seq<Change>)
    requires journal !in Paths(changes) && Lookup(d1, journal) == Some(Journal(changes))
    requires Without(d1, journal) == d0 && Between(d1, d, changes)
    ensures Lookup(d, journal) == Some(Journal(changes)) && Between(d0, Without(d, journal), changes)
    ensures Applied(d1, d, changes) ==> Applied(d0, Without(d, journal), changes)
  {
  }

  lemma ApplyStates(d0: Files, d1: Files, before: seq<Event<Content>>, now: seq<Event<Content>>,
                    journal: string, changes: seq<Change>)
    requires journal !in Paths(changes) && Lookup(d1, journal) == Some(Journal(changes))
    requires Without(d1, journal) == d0 && Stayed(d1, before, now, changes)
    ensures CommitStates(d0, before, now, journal, changes)
  {
  }

  /** While the receipt goes, everything is applied, with the journal or without it. */
  lemma ReceiptState(d0: Files, d1: Files, d2: Files, d: Files, journal: string, changes: seq<Change>)
    requires journal !in d0 && journal !in Paths(changes) && Lookup(d1, journal) == Some(Journal(changes))
    requires Without(d1, journal) == d0 && Applied(d1, d2, changes)
    requires Between(d2, d, [Change(journal, Some(Journal(changes)), None)])
    ensures CommitState(d0, d, journal, changes)
    ensures journal !in d ==> Applied(d0, d, changes)
  {
  }

  lemma ReceiptStates(d0: Files, d1: Files, d2: Files, before: seq<Event<Content>>, now: seq<Event<Content>>,
                      journal: string, changes: seq<Change>)
    requires journal !in d0 && journal !in Paths(changes) && Lookup(d1, journal) == Some(Journal(changes))
    requires Without(d1, journal) == d0 && Applied(d1, d2, changes)
    requires Stayed(d2, before, now, [Change(journal, Some(Journal(changes)), None)])
    ensures CommitStates(d0, before, now, journal, changes)
  {
    forall k | |before| <= k < |now|
      ensures CommitState(d0, now[k].after, journal, changes)
    {
      ReceiptState(d0, d1, d2, now[k].after, journal, changes);
    }
  }

  // ---------------------------------------------------------------------
  // recover
  // ---------------------------------------------------------------------

  /** Entries outside the selection and outside the control files. */
  function Unselected(entries: seq<Change>, allowed: set<string>, controls: set<string>): seq<Change> {
    if entries == [] then []
    else
      var n := |entries| - 1;
      Unselected(entries[..n], allowed, controls)
      + if entries[n].path !in allowed + controls then [entries[n]] else []
  }

  function Within(entries: seq<Change>, paths: set<string>): seq<Change> {
    if entries == [] then []
    else
      var n := |entries| - 1;
      Within(entries[..n], paths) + if entries[n].path in paths then [entries[n]] else []
  }

  /** What the journal still names afterwards: the control files wait for everything else. */
  function Remaining(entries: seq<Change>, allowed: set<string>, controls: set<string>): seq<Change> {
    var rest := Unselected(entries, allowed, controls);
    if rest == [] then [] else rest + Within(entries, controls)
  }

  /** The paths one recovery may put back. */
  function Unlocked(entries: seq<Change>, allowed: set<string>, controls: set<string>): set<string> {
    if Unselected(entries, allowed, controls) == [] then allowed + controls else allowed
  }

  datatype RecoverOutcome = NoJournal | Unsupported | UserEdit(path: string) | Stopped | Pending | Restored

  ghost predicate ThirdValue(d: Files, c: Change) {
    Lookup(d, c.path) !in {c.before, c.after}
  }

  /** `changes` put back the selected ones of the first `n` entries from where `d` stands. */
  ghost predicate PutsBack(d: Files, entries: seq<Change>, n: nat, unlocked: set<string>, changes: seq<Change>)
    requires n <= |entries|
  {
    && Distinct(changes)
    && (forall c | c in changes :: Lookup(d, c.path) == c.before
          && exists i | 0 <= i < n :: entries[i].path == c.path && c.path in unlocked
                                      && entries[i].before == c.after && entries[i].after == c.before)
    && (forall i | 0 <= i < n && entries[i].path in unlocked ::
          Lookup(d, entries[i].path) == entries[i].before || entries[i].path in Paths(changes))
  }

  /** A recovery that ran through: selected entries back, the journal cut to the rest. */
  ghost predicate Recovered(d: Files, d': Files, journal: string, entries: seq<Change>,
                            allowed: set<string>, controls: set<string>)
  {
    && PartlyRecovered(d, d', journal, entries, allowed, controls)
    && (forall e | e in entries && e.path in Unlocked(entries, allowed, controls) :: Lookup(d', e.path) == e.before)
    && Lookup(d', journal) == (if Remaining(entries, allowed, controls) == [] then None
                               else Some(Journal(Remaining(entries, allowed, controls))))
  }

  /** Only selected entries moved, and only to their before content; the journal may move last. */
  ghost predicate PartlyRecovered(d: Files, d': Files, journal: string, entries: seq<Change>,
                                  allowed: set<string>, controls: set<string>)
  {
    && (forall p :: p != journal && Lookup(d', p) != Lookup(d, p) ==>
          exists e | e in entries ::
            e.path == p && p in Unlocked(entries, allowed, controls)
            && Lookup(d, p) == e.after && Lookup(d', p) == e.before)
    && (Lookup(d', journal) != Lookup(d, journal) ==>
          && (forall e | e in entries && e.path in Unlocked(entries, allowed, controls) :: Lookup(d', e.path) == e.before)
          && Lookup(d', journal) == (if Remaining(entries, allowed, controls) == [] then None
                                     else Some(Journal(Remaining(entries, allowed, controls)))))
  }

  ghost predicate RecoverStates(d: Files, before: seq<Event<Content>>, now: seq<Event<Content>>, journal: string,
                                entries: seq<Change>, allowed: set<string>, controls: set<string>)
  {
    before <= now
    && forall k | |before| <= k < |now| ::
         now[k].own && PartlyRecovered(d, now[k].after, journal, entries, allowed, controls)
  }

  /** The journal's entries, or none when there is no readable journal. */
  function EntriesAt(d: Files, journal: string): seq<Change> {
    if journal in d && d[journal].Journal? then d[journal].entries else []
  }

  /** First pass: refuse a repeated destination, and find the entries the selection leaves out. */
  method LeftOut(entries: seq<Change>, allowed: set<string>, controls: set<string>)
    returns (distinct: bool, rest: seq<Change>)
    ensures distinct <==> Distinct(entries)
    ensures distinct ==> rest == Unselected(entries, allowed, controls)
  {
    rest := [];
    var seen: set<string> := {};
    for i := 0 to |entries|
      invariant rest == Unselected(entries[..i], allowed, controls)
      invariant seen == set j | 0 <= j < i :: entries[j].path
      invariant Distinct(entries[..i])
    {
      if entries[i].path in seen {
        return false, rest;
      }
      seen := seen + {entries[i].path};
      assert entries[..i + 1][..i] == entries[..i];
      if entries[i].path !in allowed && entries[i].path !in controls {
        rest := rest + [entries[i]];
      }
    }
    assert entries[..|entries|] == entries;
    distinct := true;
  }

  datatype Plan = Unreadable | Edited(path: string) | Ready(changes: seq<Change>)

  /** Second pass: every selected entry is checked before anything is written. */
  method PlanRecovery(store: Store<Content>, entries: seq<Change>, unlocked: set<string>) returns (plan: Plan)
    requires Distinct(entries)
    modifies store`raises
    ensures plan.Edited? ==> exists e | e in entries :: e.path in unlocked && e.path == plan.path && ThirdValue(store.files, e)
    ensures plan.Ready? ==>
              && PutsBack(store.files, entries, |entries|, unlocked, plan.changes)
              && (forall e | e in entries && e.path in unlocked :: !ThirdValue(store.files, e))
    ensures store.raises >= old(store.raises) && (plan.Unreadable? ==> store.raises > old(store.raises))
  {
    hide PutsBack;
    var changes: seq<Change> := [];
    PutsBackNothing(store.files, entries, unlocked);
    for i := 0 to |entries|
      modifies store`raises
      invariant store.raises >= old(store.raises)
      invariant PutsBack(store.files, entries, i, unlocked, changes)
      invariant forall j | 0 <= j < i && entries[j].path in unlocked :: !ThirdValue(store.files, entries[j])
    {
      var change := entries[i];
      if change.path !in unlocked {
        PutsBackSkips(store.files, entries, i, unlocked, changes);
      } else {
        var raised, current := store.Read(change.path);
        if raised {
          return Unreadable;
        }
        if current != change.before && current != change.after {
          assert change in entries && ThirdValue(store.files, change);
          return Edited(change.path);
        }
        if current != change.before {
          PutsBackMore(store.files, entries, i, unlocked, changes);
          changes := changes + [Change(change.path, current, change.before)];
        } else {
          PutsBackSkips(store.files, entries, i, unlocked, changes);
        }
      }
    }
    plan := Ready(changes);
  }

  lemma PutsBackNothing(d: Files, entries: seq<Change>, unlocked: set<string>)
    ensures PutsBack(d, entries, 0, unlocked, [])
  {
  }

  lemma PutsBackSkips(d: Files, entries: seq<Change>, i: nat, unlocked: set<string>, changes: seq<Change>)
    requires i < |entries| && PutsBack(d, entries, i, unlocked, changes)
    requires entries[i].path in unlocked ==> Lookup(d, entries[i].path) == entries[i].before
    ensures PutsBack(d, entries, i + 1, unlocked, changes)
  {
  }

  lemma PutsBackMore(d: Files, entries: seq<Change>, i: nat, unlocked: set<string>, changes: seq<Change>)
    requires i < |entries| && Distinct(entries) && PutsBack(d, entries, i, unlocked, changes)
    requires entries[i].path in unlocked && Lookup(d, entries[i].path) == entries[i].after
    ensures PutsBack(d, entries, i + 1, unlocked, changes + [Change(entries[i].path, Lookup(d, entries[i].path), entries[i].before)])
  {
  }

  /** A selected file holds a value that is neither end of its change. */
  ghost predicate Blocked(d: Files, entries: seq<Change>, allowed: set<string>, controls: set<string>) {
    exists e | e in entries :: e.path in Unlocked(entries, allowed, controls) && ThirdValue(d, e)
  }

  method Recover(store: Store<Content>, journal: string, allowed: set<string>, controls: set<string>)
    returns (outcome: RecoverOutcome)
    requires journal !in allowed + controls && allowed !! controls
    modifies store
    ensures var entries := EntriesAt(old(store.files), journal);
            && RecoverStates(old(store.files), old(store.events), store.events, journal, entries, allowed, controls)
            && PartlyRecovered(old(store.files), store.files, journal, entries, allowed, controls)
    ensures outcome.UserEdit? ==> Blocked(old(store.files), EntriesAt(old(store.files), journal), allowed, controls)
    ensures outcome.UserEdit? || outcome in {NoJournal, Unsupported}
            || Blocked(old(store.files), EntriesAt(old(store.files), journal), allowed, controls) ==>
              store.files == old(store.files) && store.events == old(store.events)
    ensures outcome in {Pending, Restored} ==>
              var entries := EntriesAt(old(store.files), journal);
              && !Blocked(old(store.files), entries, allowed, controls)
              && Recovered(old(store.files), store.files, journal, entries, allowed, controls)
              && (outcome == Restored <==> Remaining(entries, allowed, controls) == [])
    ensures store.raises == old(store.raises) ==>
              if journal !in old(store.files) then outcome == NoJournal
              else if !old(store.files)[journal].Journal? || !Distinct(EntriesAt(old(store.files), journal)) then outcome == Unsupported
              else if Blocked(old(store.files), EntriesAt(old(store.files), journal), allowed, controls) then outcome.UserEdit?
              else outcome in {Pending, Restored}
    ensures outcome == NoJournal ==> journal !in old(store.files)
    ensures outcome == Stopped && store.raises <= old(store.raises) + 1 ==>
              var entries := EntriesAt(old(store.files), journal);
              || store.files == old(store.files)
              || forall e | e in entries && e.path in Unlocked(entries, allowed, controls) :: Lookup(store.files, e.path) == e.before
  {
    hide PutsBack, PartlyRecovered, Between, Applied, Unselected, Within;
    ghost var d, e0 := store.files, store.events;
    NothingRecovered(d, journal, EntriesAt(d, journal), allowed, controls);
    var raised, content := store.Read(journal);
    if raised {
      return Stopped;
    }
    if content.None? {
      return NoJournal;
    }
    if !content.value.Journal? {
      return Unsupported;
    }
    var entries := content.value.entries;
    var distinct, rest := LeftOut(entries, allowed, controls);
    if !distinct {
      return Unsupported;
    }
    var remaining := if rest == [] then [] else rest + Within(entries, controls);
    var plan := PlanRecovery(store, entries, if rest == [] then allowed + controls else allowed);
    match plan {
      case Unreadable => return Stopped;
      case Edited(path) => return UserEdit(path);
      case Ready(changes) =>
        assert Untouched(d, changes) && Distinct(changes) by { PutsBackIsUntouched(d, entries, Unlocked(entries, allowed, controls), changes); }
        var ok, surviving := ApplyFileChanges(store, changes);
        PutBackStates(d, e0, store.events, journal, entries, allowed, controls, changes);
        PutBackState(d, store.files, journal, entries, allowed, controls, changes);
        if !ok {
          return Stopped;
        }
        var replacement := if remaining == [] then None else Some(Journal(remaining));
        if replacement != content {
          ghost var d1, e1 := store.files, store.events;
          var cut := [Change(journal, content, replacement)];
          ok, surviving := ApplyFileChanges(store, cut);
          CutStates(d, d1, e1, store.events, journal, entries, allowed, controls);
          CutState(d, d1, store.files, journal, entries, allowed, controls);
          if !ok {
            return Stopped;
          }
        }
        outcome := if remaining == [] then Restored else Pending;
    }
  }

  lemma NothingRecovered(d: Files, journal: string, entries: seq<Change>, allowed: set<string>, controls: set<string>)
    ensures PartlyRecovered(d, d, journal, entries, allowed, controls)
  {
  }

  lemma PutsBackIsUntouched(d: Files, entries: seq<Change>, unlocked: set<string>, changes: seq<Change>)
    requires PutsBack(d, entries, |entries|, unlocked, changes)
    ensures Untouched(d, changes) && Distinct(changes)
  {
  }

  /** Every state while selected files go back is a partial recovery; once all have, all are back. */
  lemma PutBackState(d: Files, d': Files, journal: string, entries: seq<Change>, allowed: set<string>,
                     controls: set<string>, changes: seq<Change>)
    requires journal !in allowed + controls && Distinct(entries)
    requires PutsBack(d, entries, |entries|, Unlocked(entries, allowed, controls), changes)
    requires Between(d, d', changes)
    ensures PartlyRecovered(d, d', journal, entries, allowed, controls)
    ensures Lookup(d', journal) == Lookup(d, journal)
    ensures Applied(d, d', changes) ==>
              forall e | e in entries && e.path in Unlocked(entries, allowed, controls) :: Lookup(d', e.path) == e.before
  {
  }

  lemma PutBackStates(d: Files, before: seq<Event<Content>>, now: seq<Event<Content>>, journal: string,
                      entries: seq<Change>, allowed: set<string>, controls: set<string>, changes: seq<Change>)
    requires journal !in allowed + controls && Distinct(entries)
    requires PutsBack(d, entries, |entries|, Unlocked(entries, allowed, controls), changes)
    requires Stayed(d, before, now, changes)
    ensures RecoverStates(d, before, now, journal, entries, allowed, controls)
  {
  }

  /** Cutting the journal once every selected entry is back. */
  lemma CutState(d: Files, d1: Files, d': Files, journal: string, entries: seq<Change>, allowed: set<string>,
                 controls: set<string>)
    requires journal !in allowed + controls
    requires PartlyRecovered(d, d1, journal, entries, allowed, controls)
    requires Lookup(d1, journal) == Lookup(d, journal)
    requires forall e | e in entries && e.path in Unlocked(entries, allowed, controls) :: Lookup(d1, e.path) == e.before
    requires var after := if Remaining(entries, allowed, controls) == [] then None
                          else Some(Journal(Remaining(entries, allowed, controls)));
             Between(d1, d', [Change(journal, Lookup(d, journal), after)])
    ensures PartlyRecovered(d, d', journal, entries, allowed, controls)
    ensures forall e | e in entries && e.path in Unlocked(entries, allowed, controls) :: Lookup(d', e.path) == e.before
    ensures var after := if Remaining(entries, allowed, controls) == [] then None
                         else Some(Journal(Remaining(entries, allowed, controls)));
            Applied(d1, d', [Change(journal, Lookup(d, journal), after)]) ==> Lookup(d', journal) == after
  {
  }

  lemma CutStates(d: Files, d1: Files, before: seq<Event<Content>>, now: seq<Event<Content>>, journal: string,
                  entries: seq<Change>, allowed: set<string>, controls: set<string>)
    requires journal !in allowed + controls
    requires PartlyRecovered(d, d1, journal, entries, allowed, controls)
    requires Lookup(d1, journal) == Lookup(d, journal)
    requires forall e | e in entries && e.path in Unlocked(entries, allowed, controls) :: Lookup(d1, e.path) == e.before
    requires var after := if Remaining(entries, allowed, controls) == [] then None
                          else Some(Journal(Remaining(entries, allowed, controls)));
             Stayed(d1, before, now, [Change(journal, Lookup(d, journal), after)])
    ensures RecoverStates(d, before, now, journal, entries, allowed, controls)
  {
  }

  // ---------------------------------------------------------------------
  // A crash, then recovery
  // ---------------------------------------------------------------------

  lemma {:induction false} UnselectedMembers(entries: seq<Change>, allowed: set<string>, controls: set<string>, e: Change)
    ensures e in Unselected(entries, allowed, controls) <==> e in entries && e.path !in allowed + controls
  {
    if entries != [] {
      var n := |entries| - 1;
      assert entries == entries[..n] + [entries[n]];
      UnselectedMembers(entries[..n], allowed, controls, e);
    }
  }

  lemma {:induction false} WithinMembers(entries: seq<Change>, paths: set<string>, e: Change)
    ensures e in Within(entries, paths) <==> e in entries && e.path in paths
  {
    if entries != [] {
      var n := |entries| - 1;
      assert entries == entries[..n] + [entries[n]];
      WithinMembers(entries[..n], paths, e);
    }
  }

  lemma NothingUnselected(entries: seq<Change>, allowed: set<string>, controls: set<string>)
    ensures Unselected(entries, allowed, controls) == [] <==> Paths(entries) <= allowed + controls
  {
  }

  /** Stop a commit anywhere, then recover everything: every file holds its before content
      and the journal is gone, or there was no journal and the change set is wholly absent
      or wholly applied. */
  lemma CrashThenRecovery(d0: Files, d: Files, d': Files, journal: string, changes: seq<Change>,
                          allowed: set<string>, controls: set<string>)
    requires Distinct(changes) && journal !in d0 && journal !in Paths(changes)
    requires Untouched(d0, changes) && CommitState(d0, d, journal, changes)
    requires journal !in allowed + controls && Paths(changes) <= allowed + controls
    ensures journal !in d ==> d == d0 || Applied(d0, d, changes)
    ensures journal in d ==>
              && EntriesAt(d, journal) == changes
              && !Blocked(d, changes, allowed, controls)
              && (Recovered(d, d', journal, changes, allowed, controls) ==> d' == d0)
  {
    if journal in d {
      assert Lookup(d, journal) == Some(Journal(changes)) by {
        assert Lookup(d0, journal) == None;
      }
      forall c | c in changes
        ensures Lookup(Without(d, journal), c.path) == Lookup(d, c.path)
      {
      }
      NothingUnselected(changes, allowed, controls);
      if Recovered(d, d', journal, changes, allowed, controls) {
        forall p
          ensures Lookup(d', p) == Lookup(d0, p)
        {
          if p in Paths(changes) {
            var c :| c in changes && c.path == p;
            assert Lookup(d', c.path) == c.before;
          } else if p != journal {
            assert Lookup(Without(d, journal), p) == Lookup(d0, p);
          }
        }
        SameMaps(d', d0);
      }
    }
  }

  // ---------------------------------------------------------------------
  // Partial recoveries
  // ---------------------------------------------------------------------

  /** Where partial recoveries from `d0` may stand: each entry is still pending, or is back. */
  ghost predicate Progress(d0: Files, d: Files, journal: string) {
    var entries0, entries := EntriesAt(d0, journal), EntriesAt(d, journal);
    && (journal in d ==> d[journal].Journal?)
    && (forall e | e in entries :: e in entries0)
    && (forall p | p != journal && p !in Paths(entries0) :: Lookup(d, p) == Lookup(d0, p))
    && (forall e | e in entries0 && e !in entries :: Lookup(d, e.path) == e.before)
  }

  lemma ProgressStep(d0: Files, d: Files, d': Files, journal: string, allowed: set<string>, controls: set<string>)
    requires Distinct(EntriesAt(d0, journal)) && journal !in Paths(EntriesAt(d0, journal))
    requires journal !in allowed + controls && allowed !! controls
    requires Progress(d0, d, journal)
    requires PartlyRecovered(d, d', journal, EntriesAt(d, journal), allowed, controls)
    ensures Progress(d0, d', journal)
  {
    var entries0, entries, entries' := EntriesAt(d0, journal), EntriesAt(d, journal), EntriesAt(d', journal);
    forall e
      ensures e in entries' ==> e in entries
    {
      UnselectedMembers(entries, allowed, controls, e);
      WithinMembers(entries, controls, e);
    }
    forall p | p != journal && p !in Paths(entries0)
      ensures Lookup(d', p) == Lookup(d0, p)
    {
      assert forall e | e in entries :: e.path != p;
    }
    forall e | e in entries0 && e !in entries'
      ensures Lookup(d', e.path) == e.before
    {
      assert e.path in Paths(entries0);
      if e in entries {
        LeavingMeansBack(d, d', journal, allowed, controls, e);
      } else {
        assert forall other | other in entries :: other.path != e.path;
      }
    }
  }

  /** An entry leaves the journal only when its file is back. */
  lemma LeavingMeansBack(d: Files, d': Files, journal: string, allowed: set<string>, controls: set<string>, e: Change)
    requires journal !in allowed + controls
    requires PartlyRecovered(d, d', journal, EntriesAt(d, journal), allowed, controls)
    requires e in EntriesAt(d, journal) && e !in EntriesAt(d', journal)
    ensures Lookup(d', e.path) == e.before
  {
    var entries := EntriesAt(d, journal);
    assert Lookup(d', journal) != Lookup(d, journal);
    UnselectedMembers(entries, allowed, controls, e);
    WithinMembers(entries, controls, e);
    NothingUnselected(entries, allowed, controls);
    assert e.path in Paths(entries);
    assert e.path in Unlocked(entries, allowed, controls);
  }

  datatype Attempt = Attempt(allowed: set<string>, complete: bool)

  /** Recoveries one after another, each with its own selection, run through or stopped anywhere. */
  ghost predicate Attempts(ds: seq<Files>, tries: seq<Attempt>, journal: string, controls: set<string>) {
    && |ds| == |tries| + 1
    && journal in ds[0] && ds[0][journal].Journal?
    && Distinct(EntriesAt(ds[0], journal)) && journal !in Paths(EntriesAt(ds[0], journal))
    && (forall k | 0 <= k < |tries| ::
          && journal !in tries[k].allowed + controls && tries[k].allowed !! controls
          && PartlyRecovered(ds[k], ds[k + 1], journal, EntriesAt(ds[k], journal), tries[k].allowed, controls)
          && (tries[k].complete ==>
                Recovered(ds[k], ds[k + 1], journal, EntriesAt(ds[k], journal), tries[k].allowed, controls)))
  }

  lemma {:induction false} AttemptsProgress(ds: seq<Files>, tries: seq<Attempt>, journal: string,
                                            controls: set<string>, k: nat)
    requires Attempts(ds, tries, journal, controls) && k <= |tries|
    ensures Progress(ds[0], ds[k], journal)
  {
    if k > 0 {
      AttemptsProgress(ds, tries, journal, controls, k - 1);
      assert PartlyRecovered(ds[k - 1], ds[k - 1 + 1], journal, EntriesAt(ds[k - 1], journal), tries[k - 1].allowed, controls);
      ProgressStep(ds[0], ds[k - 1], ds[k], journal, tries[k - 1].allowed, controls);
    }
  }

  /** However many recoveries were tried and wherever they stopped, a file differs from what the interrupted commit
      left only by holding the before content of an entry whose after content it held: content of neither end, and
      every file the journal does not name, was never written over. */
  lemma {:induction false} AttemptsOnlyPutBack(ds: seq<Files>, tries: seq<Attempt>, journal: string, controls: set<string>,
                                               k: nat, p: string)
    requires Attempts(ds, tries, journal, controls) && k <= |tries|
    requires p != journal && Lookup(ds[k], p) != Lookup(ds[0], p)
    ensures exists e | e in EntriesAt(ds[0], journal) ::
              e.path == p && Lookup(ds[0], p) == e.after && Lookup(ds[k], p) == e.before
    decreases k
  {
    if k > 0 {
      AttemptsProgress(ds, tries, journal, controls, k - 1);
      assert PartlyRecovered(ds[k - 1], ds[k - 1 + 1], journal, EntriesAt(ds[k - 1], journal), tries[k - 1].allowed, controls);
      if Lookup(ds[k - 1], p) != Lookup(ds[0], p) {
        AttemptsOnlyPutBack(ds, tries, journal, controls, k - 1, p);
      }
    }
  }

  /** Control files wait for everything else: one is put back only by a recovery whose selection held every other file
      that was still pending. */
  lemma {:induction false} ControlsComeLast(ds: seq<Files>, tries: seq<Attempt>, journal: string,
                                            controls: set<string>, k: nat, c: string)
    requires Attempts(ds, tries, journal, controls) && k <= |tries|
    requires c in controls && Lookup(ds[k], c) != Lookup(ds[0], c)
    ensures exists j | 0 <= j < k :: Paths(EntriesAt(ds[j], journal)) - controls <= tries[j].allowed
    decreases k
  {
    if k > 0 {
      if Lookup(ds[k - 1], c) != Lookup(ds[0], c) {
        ControlsComeLast(ds, tries, journal, controls, k - 1, c);
      } else {
        var entries, allowed := EntriesAt(ds[k - 1], journal), tries[k - 1].allowed;
        assert PartlyRecovered(ds[k - 1], ds[k - 1 + 1], journal, entries, allowed, controls);
        assert c != journal && c in Unlocked(entries, allowed, controls);
        NothingUnselected(entries, allowed, controls);
      }
    }
  }

  /** What some recovery that ran through selected. */
  ghost function Covered(tries: seq<Attempt>): set<string> {
    set k, p | 0 <= k < |tries| && tries[k].complete && p in tries[k].allowed :: p
  }

  lemma CoveredMore(tries: seq<Attempt>, k: nat)
    requires 0 < k <= |tries|
    ensures Covered(tries[..k]) == Covered(tries[..k - 1]) + if tries[k - 1].complete then tries[k - 1].allowed else {}
  {
    var before, now := tries[..k - 1], tries[..k];
    assert forall i | 0 <= i < k - 1 :: now[i] == before[i];
  }

  lemma PendingStep(d: Files, d': Files, journal: string, attempt: Attempt, controls: set<string>)
    requires journal !in attempt.allowed + controls && (journal in d ==> d[journal].Journal?)
    requires PartlyRecovered(d, d', journal, EntriesAt(d, journal), attempt.allowed, controls)
    requires attempt.complete ==> Recovered(d, d', journal, EntriesAt(d, journal), attempt.allowed, controls)
    ensures forall e | e in EntriesAt(d', journal) :: e in EntriesAt(d, journal)
    ensures attempt.complete ==>
              forall e | e in EntriesAt(d', journal) :: e.path in controls || e.path !in attempt.allowed
    ensures Paths(EntriesAt(d', journal)) <= controls && (attempt.complete || Lookup(d', journal) != Lookup(d, journal)) ==>
              journal !in d'
  {
    var entries, entries' := EntriesAt(d, journal), EntriesAt(d', journal);
    var rest := Unselected(entries, attempt.allowed, controls);
    forall e
      ensures e in rest <==> e in entries && e.path !in attempt.allowed + controls
      ensures e in Within(entries, controls) <==> e in entries && e.path in controls
    {
      UnselectedMembers(entries, attempt.allowed, controls, e);
      WithinMembers(entries, controls, e);
    }
    if rest != [] && entries' == Remaining(entries, attempt.allowed, controls) {
      assert rest[0] in rest && rest[0] in entries' && rest[0].path in Paths(entries');
    }
  }

  /** Entries still pending are control files or lie outside every selection that ran through;
      control files alone never stay pending behind one that did. */
  lemma {:induction false} PendingIsUncovered(ds: seq<Files>, tries: seq<Attempt>, journal: string,
                                              controls: set<string>, k: nat)
    requires Attempts(ds, tries, journal, controls) && k <= |tries|
    ensures forall e | e in EntriesAt(ds[k], journal) :: e.path in controls || e.path !in Covered(tries[..k])
    ensures (exists j | 0 <= j < k :: tries[j].complete) && Paths(EntriesAt(ds[k], journal)) <= controls ==>
              journal !in ds[k]
  {
    hide PartlyRecovered, Recovered, Progress;
    if k > 0 {
      PendingIsUncovered(ds, tries, journal, controls, k - 1);
      AttemptsProgress(ds, tries, journal, controls, k - 1);
      ProgressReadable(ds[0], ds[k - 1], journal);
      CoveredMore(tries, k);
      assert PartlyRecovered(ds[k - 1], ds[k - 1 + 1], journal, EntriesAt(ds[k - 1], journal), tries[k - 1].allowed, controls);
      PendingStep(ds[k - 1], ds[k], journal, tries[k - 1], controls);
    }
  }

  lemma ProgressReadable(d0: Files, d: Files, journal: string)
    requires Progress(d0, d, journal)
    ensures journal in d ==> d[journal].Journal?
  {
  }

  /** Partial recoveries whose completed selections cover the journal end in the state of
      one full recovery, however many others were stopped on the way. */
  lemma PartialRecoveriesEndAlike(ds: seq<Files>, tries: seq<Attempt>, journal: string, controls: set<string>,
                                  all: set<string>, full: Files)
    requires Attempts(ds, tries, journal, controls)
    requires exists j | 0 <= j < |tries| :: tries[j].complete
    requires Paths(EntriesAt(ds[0], journal)) <= Covered(tries) + controls
    requires journal !in all + controls && Paths(EntriesAt(ds[0], journal)) <= all + controls
    requires Recovered(ds[0], full, journal, EntriesAt(ds[0], journal), all, controls)
    ensures ds[|tries|] == full
  {
    var n := |tries|;
    var d, entries0 := ds[n], EntriesAt(ds[0], journal);
    assert tries[..n] == tries;
    AttemptsProgress(ds, tries, journal, controls, n);
    PendingIsUncovered(ds, tries, journal, controls, n);
    NothingUnselected(entries0, all, controls);
    assert forall e | e in EntriesAt(d, journal) :: e.path in Paths(entries0);
    assert Paths(EntriesAt(d, journal)) <= controls;
    assert journal !in d;
    forall p
      ensures Lookup(d, p) == Lookup(full, p)
    {
      if p in Paths(entries0) {
        var e :| e in entries0 && e.path == p;
        assert Lookup(d, e.path) == e.before;
      }
    }
    SameMaps(d, full);
  }
}
