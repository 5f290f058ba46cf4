/**
 The release writer: replace N files together, or put every attempted one back.

 Any file operation may raise before or after its effect. Before each rename and
 before each turn of the rollback other programs may change any file except the
 transaction's own temporary names.
 */
module Release {
  import opened Prelude
  import opened FileStore

  datatype File = File(bytes: seq<int>, mode: nat)

  type Disk = map<string, File>

  /** One file to write, with the fresh names its stage and its restore copy get. */
  datatype Entry = Entry(path: string, content: seq<int>, stage: string, restore: string)

  predicate Apart(entries: seq<Entry>) {
    && (forall i | 0 <= i < |entries| :: entries[i].stage != entries[i].restore)
    && (forall i, j | 0 <= i < |entries| && 0 <= j < |entries| ::
          entries[i].path !in {entries[j].stage, entries[j].restore})
    && (forall i, j | 0 <= i < j < |entries| ::
          && entries[i].path != entries[j].path
          && {entries[i].stage, entries[i].restore} !! {entries[j].stage, entries[j].restore})
  }

  function Stages(entries: seq<Entry>): set<string> {
    set e | e in entries :: e.stage
  }

  function Private(entries: seq<Entry>): set<string> {
    Stages(entries) + (set e | e in entries :: e.restore)
  }

  /** One entry's names are its own. */
  lemma ApartAt(entries: seq<Entry>, k: nat)
    requires Apart(entries) && k < |entries|
    ensures var e := entries[k];
            && e.stage in Stages(entries) && e.stage in Private(entries)
            && e.restore in Private(entries) && e.restore !in Stages(entries) && e.path !in Private(entries)
            && e.stage != e.restore
            && forall j | 0 <= j < |entries| && j != k ::
                 entries[j].path != e.path
                 && entries[j].stage !in {e.stage, e.restore} && entries[j].restore !in {e.stage, e.restore}
  {
  }

  lemma PathsArePublic(entries: seq<Entry>)
    requires Apart(entries)
    ensures Stages(entries) <= Private(entries)
    ensures forall j | 0 <= j < |entries| ::
              entries[j].path !in Private(entries) && entries[j].stage in Stages(entries)
              && entries[j].restore in Private(entries) && entries[j].restore !in Stages(entries)
  {
  }

  lemma PrivateNames(entries: seq<Entry>, p: string)
    requires p in Private(entries)
    ensures exists i | 0 <= i < |entries| :: p == entries[i].stage || p == entries[i].restore
  {
  }

  /** What the writer recorded for one file: its original, and its stage as read back. */
  datatype Record = Record(original: Option<File>, staged: File)

  /** A stage holds the new content, with the mode of the file it is to replace. */
  predicate GoodRecord(e: Entry, r: Record) {
    r.staged.bytes == e.content && (r.original.Some? ==> r.staged.mode == r.original.value.mode)
  }

  /** Other programs act, away from the private names. */
  method Interference(store: Store<File>, secret: set<string>) returns (ghost changed: set<string>)
    requires store.theirs !! secret
    modifies store
    ensures store.mine == old(store.mine) && old(store.theirs) <= store.theirs && store.theirs !! secret
    ensures changed <= store.theirs && forall p | p !in changed :: Lookup(store.files, p) == Lookup(old(store.files), p)
    ensures store.events == old(store.events) + [Event(false, old(store.files), store.files)]
    ensures store.raises == old(store.raises)
  {
    var others: map<string, File> := *;
    var kept := map p | p in store.files && p in secret :: store.files[p];
    changed := set p | p in store.files.Keys + ((others - secret) + kept).Keys
                       && Lookup(store.files, p) != Lookup((others - secret) + kept, p);
    store.Interfere((others - secret) + kept);
    assert forall p | p in secret :: Lookup((others - secret) + kept, p) == Lookup(old(store.files), p);
  }

  // ---------------------------------------------------------------------
  // Staging
  // ---------------------------------------------------------------------

  method StageOne(store: Store<File>, e: Entry) returns (raised: bool, record: Record)
    requires e.path != e.stage
    modifies store
    ensures store.mine <= old(store.mine) + {e.stage} && store.theirs == old(store.theirs)
    ensures forall p | p != e.stage :: Lookup(store.files, p) == Lookup(old(store.files), p)
    ensures !raised ==>
              && record.original == Lookup(store.files, e.path)
              && Lookup(store.files, e.stage) == Some(record.staged)
              && GoodRecord(e, record)
    ensures store.raises == old(store.raises) + (if raised then 1 else 0)
  {
    record := Record(None, File([], 0));
    var original;
    raised, original := store.Read(e.path);
    if raised {
      return;
    }
    var partial: seq<int>, mode: nat := *, *;
    raised := store.Set(e.stage, Some(File(partial, mode)));
    if raised {
      return;
    }
    raised := store.Set(e.stage, Some(File(e.content, mode)));
    if raised {
      return;
    }
    if original.Some? {
      raised := store.Set(e.stage, Some(File(e.content, original.value.mode)));
      if raised {
        return;
      }
    }
    var staged;
    raised, staged := store.Read(e.stage);
    if !raised {
      record := Record(original, staged.value);
    }
  }

  /** Record every original and stage every new content; no target moves. */
  method StageAll(store: Store<File>, entries: seq<Entry>) returns (raised: bool, records: seq<Record>)
    requires Apart(entries) && store.theirs !! Private(entries)
    modifies store
    ensures store.mine <= old(store.mine) + Stages(entries)
    ensures old(store.theirs) <= store.theirs && store.theirs !! Private(entries)
    ensures |records| <= |entries| && (!raised ==> |records| == |entries|)
    ensures forall i | 0 <= i < |records| :: GoodRecord(entries[i], records[i])
    ensures forall i | 0 <= i < |records| :: Lookup(store.files, entries[i].stage) == Some(records[i].staged)
    ensures forall p | p !in store.theirs + Stages(entries) :: Lookup(store.files, p) == Lookup(old(store.files), p)
    ensures forall i | 0 <= i < |records| && entries[i].path !in store.theirs ::
              records[i].original == Lookup(old(store.files), entries[i].path)
    ensures store.raises == old(store.raises) + (if raised then 1 else 0)
  {
    hide Apart, Private, Stages;
    PathsArePublic(entries);
    raised := false;
    records := [];
    ghost var d0 := store.files;
    while |records| < |entries| && !raised
      invariant store.raises == old(store.raises) + (if raised then 1 else 0)
      invariant store.mine <= old(store.mine) + Stages(entries)
      invariant old(store.theirs) <= store.theirs && store.theirs !! Private(entries)
      invariant |records| <= |entries|
      invariant forall i | 0 <= i < |records| :: GoodRecord(entries[i], records[i])
      invariant forall p | p !in store.theirs + Stages(entries) :: Lookup(store.files, p) == Lookup(d0, p)
      invariant forall i | 0 <= i < |records| && entries[i].path !in store.theirs ::
                  records[i].original == Lookup(d0, entries[i].path)
      invariant forall i | 0 <= i < |records| :: Lookup(store.files, entries[i].stage) == Some(records[i].staged)
      decreases |entries| - |records|, !raised
    {
      ApartAt(entries, |records|);
      var _ := Interference(store, Private(entries));
      var record;
      raised, record := StageOne(store, entries[|records|]);
      if !raised {
        records := records + [record];
      }
    }
  }

  // ---------------------------------------------------------------------
  // Replacing
  // ---------------------------------------------------------------------

  function Targets(entries: seq<Entry>, n: nat): set<string>
    requires n <= |entries|
  {
    set i | 0 <= i < n :: entries[i].path
  }

  /** Rename one stage over its target. */
  method ReplaceOne(store: Store<File>, e: Entry) returns (raised: bool)
    requires e.stage != e.path
    modifies store
    ensures store.mine == old(store.mine) + {e.stage, e.path} && store.theirs == old(store.theirs)
    ensures forall p | p !in {e.stage, e.path} :: Lookup(store.files, p) == Lookup(old(store.files), p)
    ensures !raised ==> Lookup(store.files, e.path) == Lookup(old(store.files), e.stage)
    ensures Lookup(store.files, e.path) in {Lookup(old(store.files), e.path), Lookup(old(store.files), e.stage)}
    ensures store.raises == old(store.raises) + (if raised then 1 else 0)
  {
    raised := store.Rename(e.stage, e.path);
  }

  /** Where the renames have got to: the targets before the last attempted hold their stages, that one its stage or
      what it held, the later ones and every other file are untouched. */
  ghost predicate Replacing(d0: Disk, d: Disk, theirs: set<string>, entries: seq<Entry>, records: seq<Record>, attempted: nat,
                            raised: bool)
    requires attempted <= |entries| == |records|
  {
    && (forall i | 0 <= i < attempted && entries[i].path !in theirs ::
          || Lookup(d, entries[i].path) == Some(records[i].staged)
          || (raised && i == attempted - 1 && Lookup(d, entries[i].path) == Lookup(d0, entries[i].path)))
    && (forall i | attempted <= i < |entries| :: Lookup(d, entries[i].stage) == Some(records[i].staged))
    && (forall p | p !in theirs + Stages(entries) + Targets(entries, attempted) :: Lookup(d, p) == Lookup(d0, p))
  }

  lemma OneMoreReplaced(d0: Disk, d1: Disk, d2: Disk, d: Disk, theirs: set<string>, theirs': set<string>, entries: seq<Entry>,
                        records: seq<Record>, attempted: nat, raised: bool)
    requires Apart(entries) && attempted < |entries| == |records|
    requires Replacing(d0, d1, theirs, entries, records, attempted, false)
    requires theirs <= theirs' && theirs' !! Private(entries)
    requires forall p | p !in theirs' :: Lookup(d2, p) == Lookup(d1, p)
    requires var e := entries[attempted];
             && (forall p | p !in {e.stage, e.path} :: Lookup(d, p) == Lookup(d2, p))
             && (Lookup(d, e.path) == Lookup(d2, e.stage) || (raised && Lookup(d, e.path) == Lookup(d2, e.path)))
    ensures Replacing(d0, d, theirs', entries, records, attempted + 1, raised)
  {
    hide Apart, Private, Stages;
    var e := entries[attempted];
    PathsArePublic(entries);
    ApartAt(entries, attempted);
    assert entries[attempted].path in Targets(entries, attempted + 1);
    assert Lookup(d2, e.stage) == Some(records[attempted].staged);
  }

  lemma NothingReplaced(d: Disk, theirs: set<string>, entries: seq<Entry>, records: seq<Record>)
    requires |records| == |entries|
    requires forall i | 0 <= i < |entries| :: Lookup(d, entries[i].stage) == Some(records[i].staged)
    ensures Replacing(d, d, theirs, entries, records, 0, false)
  {
  }

  /** Rename every stage over its target, in order, until one rename raises. */
  method ReplaceAll(store: Store<File>, entries: seq<Entry>, ghost records: seq<Record>)
    returns (raised: bool, attempted: nat)
    requires Apart(entries) && |records| == |entries| && store.theirs !! Private(entries)
    requires forall i | 0 <= i < |entries| :: Lookup(store.files, entries[i].stage) == Some(records[i].staged)
    modifies store
    ensures attempted <= |entries| && (!raised ==> attempted == |entries|)
    ensures store.mine <= old(store.mine) + Stages(entries) + Targets(entries, attempted)
    ensures old(store.theirs) <= store.theirs && store.theirs !! Private(entries)
    ensures Replacing(old(store.files), store.files, store.theirs, entries, records, attempted, raised)
    ensures store.raises == old(store.raises) + (if raised then 1 else 0)
  {
    hide Apart, Private, Stages, Replacing;
    PathsArePublic(entries);
    raised := false;
    attempted := 0;
    ghost var d0 := store.files;
    NothingReplaced(d0, store.theirs, entries, records);
    while attempted < |entries| && !raised
      invariant attempted <= |entries|
      invariant store.mine <= old(store.mine) + Stages(entries) + Targets(entries, attempted)
      invariant old(store.theirs) <= store.theirs && store.theirs !! Private(entries)
      invariant Replacing(d0, store.files, store.theirs, entries, records, attempted, raised)
      invariant store.raises == old(store.raises) + (if raised then 1 else 0)
      decreases |entries| - attempted, !raised
    {
      ghost var d1, theirs := store.files, store.theirs;
      var e := entries[attempted];
      ApartAt(entries, attempted);
      var _ := Interference(store, Private(entries));
      ghost var d2 := store.files;
      raised := ReplaceOne(store, e);
      OneMoreReplaced(d0, d1, d2, store.files, theirs, store.theirs, entries, records, attempted, raised);
      attempted := attempted + 1;
    }
  }

  // ---------------------------------------------------------------------
  // Rolling back
  // ---------------------------------------------------------------------

  /** Only this program acted from one moment to the other. */
  ghost predicate OwnFrom(before: seq<Event<File>>, now: seq<Event<File>>) {
    before <= now && forall k | |before| <= k < |now| :: now[k].own
  }

  /** The disk after the last event. */
  ghost predicate Current(events: seq<Event<File>>, d: Disk) {
    events != [] && events[|events| - 1].after == d
  }

  /** One target's turn in the rollback, by the number of events before and after it. */
  datatype Turn = Turn(at: nat, upTo: nat)

  ghost predicate GoodTurn(events: seq<Event<File>>, t: Turn) {
    1 <= t.at <= t.upTo <= |events| && forall k | t.at <= k < t.upTo :: events[k].own
  }

  /** The disk a target's turn found, and the disk it left. */
  ghost function Found(events: seq<Event<File>>, t: Turn): Disk
    requires GoodTurn(events, t)
  {
    events[t.at - 1].after
  }

  ghost function Leaves(events: seq<Event<File>>, t: Turn): Disk
    requires GoodTurn(events, t)
  {
    events[t.upTo - 1].after
  }

  /** The target holds what was recorded of it, or its stage. */
  predicate Known(d: Disk, e: Entry, r: Record) {
    Lookup(d, e.path) in {r.original, Some(r.staged)}
  }

  /** Put one attempted target back, unless it holds neither of the two recorded values. */
  method RestoreOne(store: Store<File>, e: Entry, r: Record) returns (raised: bool)
    requires e.path != e.restore
    modifies store
    ensures store.mine <= old(store.mine) + {e.path, e.restore} && store.theirs == old(store.theirs)
    ensures OwnFrom(old(store.events), store.events) && (Current(old(store.events), old(store.files)) ==> Current(store.events, store.files))
    ensures forall p | p !in {e.path, e.restore} :: Lookup(store.files, p) == Lookup(old(store.files), p)
    ensures Lookup(store.files, e.path) != Lookup(old(store.files), e.path) ==>
              Lookup(old(store.files), e.path) == Some(r.staged) && Lookup(store.files, e.path) == r.original
    ensures !raised ==> Lookup(store.files, e.path) == r.original
    ensures !raised && e.restore !in old(store.files) ==> e.restore !in store.files
    ensures store.raises >= old(store.raises)
    ensures Known(old(store.files), e, r) && store.raises == old(store.raises) ==> !raised
    ensures raised ==> store.raises > old(store.raises) || !Known(old(store.files), e, r)
  {
    var current;
    raised, current := store.Read(e.path);
    if raised || current == r.original {
      return;
    }
    if current != Some(r.staged) {
      return true;
    }
    if r.original.None? {
      raised := store.Set(e.path, None);
      return;
    }
    var mode: nat := *;
    raised := store.Set(e.restore, Some(File(r.original.value.bytes, mode)));
    if raised {
      return;
    }
    raised := store.Set(e.restore, r.original);
    if raised {
      return;
    }
    raised := store.Rename(e.restore, e.path);
  }

  /** One target after rollback: at its original or listed; a third value is kept, and listed. */
  predicate Settled(d0: Disk, d: Disk, e: Entry, r: Record, recovery: seq<string>) {
    && (Lookup(d, e.path) == r.original || e.path in recovery)
    && (Lookup(d0, e.path) !in {r.original, Some(r.staged)} ==>
          Lookup(d, e.path) == Lookup(d0, e.path) && e.path in recovery)
  }

  /** Rollback has dealt with the entries from `k` up, each at its own turn, and touched nothing of the others.
      `meddled` is what other programs changed since rollback began. */
  ghost predicate BackFrom(d0: Disk, d: Disk, entries: seq<Entry>, records: seq<Record>, k: nat, attempted: nat,
                           recovery: seq<string>, events: seq<Event<File>>, turns: map<nat, Turn>, meddled: set<string>)
    requires k <= attempted <= |entries| == |records|
  {
    && (forall i | k <= i < attempted :: HadTurn(d0, d, entries[i], records[i], i, recovery, events, turns, meddled))
    && (forall i | 0 <= i < k && entries[i].path !in meddled :: Lookup(d, entries[i].path) == Lookup(d0, entries[i].path))
    && (forall i | 0 <= i < |entries| ::
          && Lookup(d, entries[i].stage) == Lookup(d0, entries[i].stage)
          && (entries[i].restore in d ==> entries[i].restore in recovery || entries[i].restore in d0))
    && (forall p | p !in Private(entries) + Targets(entries, attempted) + meddled :: Lookup(d, p) == Lookup(d0, p))
  }

  /** At its turn a target was settled, and what others did not change since is as that turn left it. */
  ghost predicate HadTurn(d0: Disk, d: Disk, e: Entry, r: Record, i: nat, recovery: seq<string>,
                          events: seq<Event<File>>, turns: map<nat, Turn>, meddled: set<string>)
  {
    && i in turns && GoodTurn(events, turns[i])
    && Settled(Found(events, turns[i]), Leaves(events, turns[i]), e, r, recovery)
    && (e.path !in meddled ==>
          Lookup(Found(events, turns[i]), e.path) == Lookup(d0, e.path) && Lookup(d, e.path) == Lookup(Leaves(events, turns[i]), e.path))
  }

  /** Other programs act between turns. */
  lemma BackMeddled(d0: Disk, d: Disk, d': Disk, entries: seq<Entry>, records: seq<Record>, k: nat, attempted: nat,
                    recovery: seq<string>, events: seq<Event<File>>, events': seq<Event<File>>, turns: map<nat, Turn>,
                    meddled: set<string>, changed: set<string>)
    requires k <= attempted <= |entries| == |records| && changed !! Private(entries) && events <= events'
    requires BackFrom(d0, d, entries, records, k, attempted, recovery, events, turns, meddled)
    requires forall p | p !in changed :: Lookup(d', p) == Lookup(d, p)
    ensures BackFrom(d0, d', entries, records, k, attempted, recovery, events', turns, meddled + changed)
  {
    hide Settled;
    forall i | k <= i < attempted
      ensures HadTurn(d0, d', entries[i], records[i], i, recovery, events', turns, meddled + changed)
    {
      assert HadTurn(d0, d, entries[i], records[i], i, recovery, events, turns, meddled);
    }
    hide HadTurn;
    forall i | 0 <= i < |entries|
      ensures entries[i].stage !in changed && entries[i].restore !in changed
    {
      assert entries[i].stage in Private(entries) && entries[i].restore in Private(entries);
    }
    forall i | 0 <= i < |entries|
      ensures entries[i].restore in d' <==> entries[i].restore in d
    {
      assert Lookup(d', entries[i].restore) == Lookup(d, entries[i].restore);
    }
  }

  lemma TurnStays(d0: Disk, d: Disk, d': Disk, e: Entry, r: Record, i: nat, recovery: seq<string>, recovery': seq<string>,
                  events: seq<Event<File>>, events': seq<Event<File>>, turns: map<nat, Turn>, turns': map<nat, Turn>,
                  meddled: set<string>)
    requires HadTurn(d0, d, e, r, i, recovery, events, turns, meddled)
    requires events <= events' && i in turns' && turns'[i] == turns[i] && forall p | p in recovery :: p in recovery'
    requires Lookup(d', e.path) == Lookup(d, e.path)
    ensures HadTurn(d0, d', e, r, i, recovery', events', turns', meddled)
  {
  }

  /** One more target had its turn. */
  lemma BackOneMore(d0: Disk, d: Disk, d': Disk, entries: seq<Entry>, records: seq<Record>, k: nat, attempted: nat,
                    recovery: seq<string>, recovery': seq<string>, events: seq<Event<File>>, events': seq<Event<File>>,
                    turns: map<nat, Turn>, meddled: set<string>)
    requires Apart(entries) && 0 < k <= attempted <= |entries| == |records|
    requires BackFrom(d0, d, entries, records, k, attempted, recovery, events, turns, meddled)
    requires Current(events, d) && Current(events', d') && OwnFrom(events, events')
    requires var e := entries[k - 1];
             && (forall p | p !in {e.path, e.restore} :: Lookup(d', p) == Lookup(d, p))
             && Settled(d, d', e, records[k - 1], recovery')
             && (e.restore in d' ==> e.restore in recovery' || e.restore in d)
    requires forall p | p in recovery :: p in recovery'
    ensures BackFrom(d0, d', entries, records, k - 1, attempted, recovery', events',
                     turns[k - 1 := Turn(|events|, |events'|)], meddled)
  {
    hide Apart, Private, Settled, HadTurn, Current, OwnFrom;
    var e := entries[k - 1];
    OneMoreHadTurn(d0, d, d', entries, records, k, attempted, recovery, recovery', events, events', turns, meddled);
    ApartAt(entries, k - 1);
    PathsArePublic(entries);
    assert e.path in Targets(entries, attempted);
    forall i | 0 <= i < |entries|
      ensures Lookup(d', entries[i].stage) == Lookup(d0, entries[i].stage)
      ensures entries[i].restore in d' ==> entries[i].restore in recovery' || entries[i].restore in d0
    {
      assert entries[i].stage !in {e.path, e.restore};
      if i != k - 1 {
        assert Lookup(d', entries[i].restore) == Lookup(d, entries[i].restore);
      }
    }
  }

  lemma OneMoreHadTurn(d0: Disk, d: Disk, d': Disk, entries: seq<Entry>, records: seq<Record>, k: nat, attempted: nat,
                       recovery: seq<string>, recovery': seq<string>, events: seq<Event<File>>, events': seq<Event<File>>,
                       turns: map<nat, Turn>, meddled: set<string>)
    requires Apart(entries) && 0 < k <= attempted <= |entries| == |records|
    requires BackFrom(d0, d, entries, records, k, attempted, recovery, events, turns, meddled)
    requires Current(events, d) && Current(events', d') && OwnFrom(events, events')
    requires var e := entries[k - 1];
             && (forall p | p !in {e.path, e.restore} :: Lookup(d', p) == Lookup(d, p))
             && Settled(d, d', e, records[k - 1], recovery')
    requires forall p | p in recovery :: p in recovery'
    ensures var turns' := turns[k - 1 := Turn(|events|, |events'|)];
            forall i | k - 1 <= i < attempted :: HadTurn(d0, d', entries[i], records[i], i, recovery', events', turns', meddled)
  {
    hide Apart, Private, Settled;
    var turns' := turns[k - 1 := Turn(|events|, |events'|)];
    ApartAt(entries, k - 1);
    PathsArePublic(entries);
    forall i | k - 1 <= i < attempted
      ensures HadTurn(d0, d', entries[i], records[i], i, recovery', events', turns', meddled)
    {
      if i >= k {
        assert entries[i].path in Targets(entries, attempted);
        TurnStays(d0, d, d', entries[i], records[i], i, recovery, recovery', events, events', turns, turns', meddled);
      }
    }
  }

  /** Put the attempted targets back in reverse order and list what needs recovery. Other programs go on changing
      files between the turns. */
  method RollBack(store: Store<File>, entries: seq<Entry>, records: seq<Record>, attempted: nat)
    returns (recovery: seq<string>, ghost turns: map<nat, Turn>, ghost meddled: set<string>)
    requires Apart(entries) && attempted <= |entries| == |records| && store.theirs !! Private(entries)
    modifies store
    ensures store.mine <= old(store.mine) + Private(entries) + Targets(entries, attempted)
    ensures old(store.theirs) <= store.theirs && meddled <= store.theirs && store.theirs !! Private(entries)
    ensures old(store.events) <= store.events
    ensures BackFrom(old(store.files), store.files, entries, records, 0, attempted, recovery, store.events, turns, meddled)
    ensures store.raises >= old(store.raises)
    ensures store.raises == old(store.raises) && KnownFrom(entries, records, 0, attempted, store.events, turns) ==> recovery == []
  {
    hide Apart, Private, BackFrom, Settled, KnownFrom, Known;
    recovery, turns, meddled := [], map[], {};
    var k := attempted;
    ghost var d0 := store.files;
    BackFromStart(d0, entries, records, attempted, store.events);
    while k > 0
      invariant 0 <= k <= attempted
      invariant store.mine <= old(store.mine) + Private(entries) + Targets(entries, attempted)
      invariant old(store.theirs) <= store.theirs && meddled <= store.theirs && store.theirs !! Private(entries)
      invariant old(store.events) <= store.events
      invariant BackFrom(d0, store.files, entries, records, k, attempted, recovery, store.events, turns, meddled)
      invariant store.raises >= old(store.raises)
      invariant store.raises == old(store.raises) && KnownFrom(entries, records, k, attempted, store.events, turns) ==> recovery == []
    {
      ghost var d, before := store.files, store.events;
      ghost var turns0, meddled0 := turns, meddled;
      var changed := Interference(store, Private(entries));
      BackMeddled(d0, d, store.files, entries, records, k, attempted, recovery, before, store.events, turns, meddled, changed);
      meddled := meddled + changed;
      ghost var found, events := store.files, store.events;
      ApartAt(entries, k - 1);
      var listed := RollBackOne(store, entries[k - 1], records[k - 1]);
      SettledMore(found, store.files, entries[k - 1], records[k - 1], listed, recovery);
      BackOneMore(d0, found, store.files, entries, records, k, attempted, recovery, recovery + listed, events, store.events,
                  turns, meddled);
      turns := turns[k - 1 := Turn(|events|, |store.events|)];
      TurnsHadBy(d0, d, entries, records, k, attempted, recovery, before, turns0, meddled0);
      KnownEarlier(entries, records, k, attempted, before, events, store.events, found, turns0, turns);
      recovery := recovery + listed;
      k := k - 1;
    }
  }

  /** Each of these targets' turns found what was recorded of it, or its stage. */
  ghost predicate KnownFrom(entries: seq<Entry>, records: seq<Record>, k: nat, attempted: nat, events: seq<Event<File>>,
                            turns: map<nat, Turn>)
    requires k <= attempted <= |records| <= |entries|
  {
    forall i | k <= i < attempted ::
      i in turns && GoodTurn(events, turns[i]) && Known(Found(events, turns[i]), entries[i], records[i])
  }

  lemma TurnsHadBy(d0: Disk, d: Disk, entries: seq<Entry>, records: seq<Record>, k: nat, attempted: nat,
                   recovery: seq<string>, events: seq<Event<File>>, turns: map<nat, Turn>, meddled: set<string>)
    requires k <= attempted <= |entries| == |records|
    requires BackFrom(d0, d, entries, records, k, attempted, recovery, events, turns, meddled)
    ensures forall i | k <= i < attempted :: i in turns && turns[i].upTo <= |events|
  {
    hide Settled;
    forall i | k <= i < attempted
      ensures i in turns && turns[i].upTo <= |events|
    {
      assert HadTurn(d0, d, entries[i], records[i], i, recovery, events, turns, meddled);
    }
  }

  lemma KnownEarlier(entries: seq<Entry>, records: seq<Record>, k: nat, attempted: nat, before: seq<Event<File>>,
                     events: seq<Event<File>>, events': seq<Event<File>>, found: Disk, turns: map<nat, Turn>, turns': map<nat, Turn>)
    requires 0 < k <= attempted <= |entries| == |records| && before <= events && OwnFrom(events, events') && Current(events, found)
    requires turns' == turns[k - 1 := Turn(|events|, |events'|)]
    requires forall i | k <= i < attempted :: i in turns && turns[i].upTo <= |before|
    ensures KnownFrom(entries, records, k - 1, attempted, events', turns') ==>
              KnownFrom(entries, records, k, attempted, before, turns) && Known(found, entries[k - 1], records[k - 1])
  {
    hide Known;
    if KnownFrom(entries, records, k - 1, attempted, events', turns') {
      KnownThen(entries, records, k, attempted, before, events', turns, turns');
      KnownNow(entries, records, k, attempted, events, events', found, turns');
    }
  }

  lemma KnownThen(entries: seq<Entry>, records: seq<Record>, k: nat, attempted: nat, before: seq<Event<File>>,
                  events: seq<Event<File>>, turns: map<nat, Turn>, turns': map<nat, Turn>)
    requires 0 < k <= attempted <= |entries| == |records| && before <= events
    requires forall i | k <= i < attempted :: i in turns && turns[i].upTo <= |before| && i in turns' && turns'[i] == turns[i]
    requires KnownFrom(entries, records, k - 1, attempted, events, turns')
    ensures KnownFrom(entries, records, k, attempted, before, turns)
  {
    hide Known;
    forall i | k <= i < attempted
      ensures i in turns && GoodTurn(before, turns[i]) && Known(Found(before, turns[i]), entries[i], records[i])
    {
      assert turns'[i] == turns[i];
      SameTurn(before, events, turns[i]);
    }
  }

  lemma KnownNow(entries: seq<Entry>, records: seq<Record>, k: nat, attempted: nat, events: seq<Event<File>>,
                 events': seq<Event<File>>, found: Disk, turns: map<nat, Turn>)
    requires 0 < k <= attempted <= |entries| == |records| && events <= events' && Current(events, found)
    requires k - 1 in turns && turns[k - 1] == Turn(|events|, |events'|)
    requires KnownFrom(entries, records, k - 1, attempted, events', turns)
    ensures Known(found, entries[k - 1], records[k - 1])
  {
    hide Known;
    assert events'[|events| - 1] == events[|events| - 1];
    assert Known(Found(events', turns[k - 1]), entries[k - 1], records[k - 1]);
  }

  lemma SameTurn(before: seq<Event<File>>, events: seq<Event<File>>, t: Turn)
    requires before <= events && GoodTurn(events, t) && t.upTo <= |before|
    ensures GoodTurn(before, t) && Found(before, t) == Found(events, t)
  {
  }

  lemma BackFromStart(d0: Disk, entries: seq<Entry>, records: seq<Record>, attempted: nat, events: seq<Event<File>>)
    requires attempted <= |entries| == |records|
    ensures BackFrom(d0, d0, entries, records, attempted, attempted, [], events, map[], {})
  {
  }

  lemma SettledMore(d0: Disk, d: Disk, e: Entry, r: Record, listed: seq<string>, recovery: seq<string>)
    requires Settled(d0, d, e, r, listed)
    ensures Settled(d0, d, e, r, recovery + listed)
  {
  }

  /** One turn of the rollback loop: a raised step is forgiven when the original is back after all. */
  method RollBackOne(store: Store<File>, e: Entry, r: Record) returns (listed: seq<string>)
    requires e.path != e.restore
    modifies store
    ensures store.mine <= old(store.mine) + {e.path, e.restore} && store.theirs == old(store.theirs)
    ensures OwnFrom(old(store.events), store.events) && (Current(old(store.events), old(store.files)) ==> Current(store.events, store.files))
    ensures forall p | p !in {e.path, e.restore} :: Lookup(store.files, p) == Lookup(old(store.files), p)
    ensures Settled(old(store.files), store.files, e, r, listed)
    ensures e.restore in store.files ==> e.restore in listed || e.restore in old(store.files)
    ensures store.raises >= old(store.raises)
    ensures Known(old(store.files), e, r) && store.raises == old(store.raises) ==> listed == []
    ensures (store.raises <= old(store.raises) + 1 && Known(old(store.files), e, r)
             && Lookup(store.files, e.path) == r.original && e.restore !in store.files) ==> listed == []
  {
    listed := [];
    var raised := RestoreOne(store, e, r);
    if raised {
      var unreadable, current := store.Read(e.path);
      if unreadable || current != r.original || e.restore in store.files {
        listed := [e.path];
        if e.restore in store.files {
          listed := listed + [e.restore];
        }
      }
    }
  }

  // ---------------------------------------------------------------------
  // The transaction
  // ---------------------------------------------------------------------

  datatype Outcome = Committed(stale: seq<string>) | Failed(recovery: seq<string>)

  /** `_remove_staged_files`: every stage that could not be removed is returned. */
  method RemoveStagedFiles(store: Store<File>, entries: seq<Entry>) returns (failures: seq<string>)
    modifies store
    ensures store.mine <= old(store.mine) + Stages(entries) && store.theirs == old(store.theirs)
    ensures old(store.events) <= store.events
    ensures forall p | p !in Stages(entries) :: Lookup(store.files, p) == Lookup(old(store.files), p)
    ensures forall i | 0 <= i < |entries| :: entries[i].stage in store.files ==> entries[i].stage in failures
    ensures store.raises >= old(store.raises) && (store.raises == old(store.raises) ==> failures == [])
  {
    failures := [];
    for i := 0 to |entries|
      invariant store.raises >= old(store.raises) && (store.raises == old(store.raises) ==> failures == [])
      invariant store.mine <= old(store.mine) + Stages(entries) && store.theirs == old(store.theirs)
      invariant old(store.events) <= store.events
      invariant forall p | p !in Stages(entries) :: Lookup(store.files, p) == Lookup(old(store.files), p)
      invariant forall j | 0 <= j < i :: entries[j].stage in store.files ==> entries[j].stage in failures
    {
      assert entries[i] in entries;
      var raised := store.Set(entries[i].stage, None);
      if raised {
        failures := failures + [entries[i].stage];
      }
    }
  }

  /** Replace every file, or put back what was attempted. `rollback_complete` is an empty
      recovery list; `reached` is the disk when rollback starts, `turns` what each attempted target's turn found
      and left, `meddled` what other programs changed since. */
  method WriteTransaction(store: Store<File>, entries: seq<Entry>)
    returns (outcome: Outcome, ghost records: seq<Record>, ghost attempted: nat, ghost reached: Disk,
             ghost turns: map<nat, Turn>, ghost meddled: set<string>)
    requires Apart(entries) && Private(entries) !! store.files.Keys
    requires store.theirs == {} && store.mine == {}
    modifies store
    ensures |records| <= |entries| && attempted <= |records| && meddled <= store.theirs
    ensures forall i | 0 <= i < |records| :: GoodRecord(entries[i], records[i])
    ensures forall i | 0 <= i < |records| && entries[i].path !in store.theirs ::
              records[i].original == Lookup(old(store.files), entries[i].path)
    ensures store.mine <= Private(entries) + Targets(entries, attempted)
    ensures outcome.Committed? ==>
              && |records| == |entries|
              && (forall i | 0 <= i < |entries| && entries[i].path !in store.theirs ::
                    Lookup(store.files, entries[i].path) == Some(records[i].staged))
    ensures outcome.Failed? ==>
              && (forall i | 0 <= i < attempted ::
                    HadTurn(reached, store.files, entries[i], records[i], i, outcome.recovery, store.events, turns, meddled))
              && (forall p | p in Private(entries) && p in store.files :: p in outcome.recovery)
    ensures outcome.Failed? && outcome.recovery == [] ==>
              forall p | p !in store.theirs :: Lookup(store.files, p) == Lookup(old(store.files), p)
    ensures store.raises == old(store.raises) ==> outcome == Committed([])
    ensures outcome.Failed? && store.raises <= old(store.raises) + 1 && store.theirs == {} ==>
              outcome == Failed([]) && store.files == old(store.files)
    ensures (outcome.Failed? && store.raises <= old(store.raises) + 1
             && KnownFrom(entries, records, 0, attempted, store.events, turns)) ==> outcome == Failed([])
  {
    hide BackFrom, Private, Apart, Stages, GoodRecord, HadTurn, Replacing, KnownFrom;
    PathsArePublic(entries);
    ghost var d0 := store.files;
    attempted, turns, meddled := 0, map[], {};
    var raised, recorded := StageAll(store, entries);
    records := recorded;
    ghost var d1 := store.files;
    if raised {
      var failures := RemoveStagedFiles(store, entries);
      FailedBeforeReplacing(d0, d1, store.files, store.theirs, entries, records, failures);
      NothingChanged(d0, store.files, store.theirs);
      return Failed(failures), records, 0, d1, turns, meddled;
    }
    var tried;
    raised, tried := ReplaceAll(store, entries, records);
    attempted := tried;
    ghost var d2 := store.files;
    ReplacedMeans(d1, d2, store.theirs, entries, records, attempted, raised);
    if !raised {
      var stale := RemoveStagedFiles(store, entries);
      return Committed(stale), records, attempted, d2, turns, meddled;
    }
    var recovery;
    recovery, turns, meddled := RollBack(store, entries, recorded, tried);
    ghost var d3, events := store.files, store.events;
    var failures := RemoveStagedFiles(store, entries);
    assert AfterRollback(d0, d2, d3, store.files, store.theirs, entries, records, attempted, recovery, failures, events, turns, meddled);
    TargetsSettled(d0, d2, d3, store.files, store.theirs, entries, records, attempted, recovery, failures, events, turns, meddled,
                   store.events);
    LeftoversListed(d0, d2, d3, store.files, store.theirs, entries, records, attempted, recovery, failures, events, turns, meddled);
    if recovery + failures == [] {
      NothingListedMeansUndone(d0, d2, d3, store.files, store.theirs, entries, records, attempted, events, turns, meddled);
    }
    TurnsHadBy(d2, d3, entries, records, 0, attempted, recovery, events, turns, meddled);
    KnownLater(entries, records, attempted, events, store.events, turns);
    if store.theirs == {} {
      assert meddled == {};
      UnmeddledIsKnown(d0, d1, d2, d3, entries, records, attempted, recovery, events, turns);
    }
    NothingChanged(d0, store.files, store.theirs);
    outcome := Failed(recovery + failures);
    reached := d2;
  }

  lemma NothingChanged(d0: Disk, d: Disk, theirs: set<string>)
    ensures theirs == {} && (forall p | p !in theirs :: Lookup(d, p) == Lookup(d0, p)) ==> d == d0
  {
    if theirs == {} && forall p | p !in theirs :: Lookup(d, p) == Lookup(d0, p) {
      SameMaps(d, d0);
    }
  }

  lemma ReplacedMeans(d0: Disk, d: Disk, theirs: set<string>, entries: seq<Entry>, records: seq<Record>, attempted: nat,
                      raised: bool)
    requires attempted <= |entries| == |records| && Replacing(d0, d, theirs, entries, records, attempted, raised)
    ensures !raised ==> forall i | 0 <= i < attempted && entries[i].path !in theirs ::
                          Lookup(d, entries[i].path) == Some(records[i].staged)
    ensures forall p | p !in theirs + Stages(entries) + Targets(entries, attempted) :: Lookup(d, p) == Lookup(d0, p)
    ensures forall i | 0 <= i < attempted && entries[i].path !in theirs ::
              Lookup(d, entries[i].path) in {Some(records[i].staged), Lookup(d0, entries[i].path)}
  {
  }

  lemma KnownLater(entries: seq<Entry>, records: seq<Record>, attempted: nat, events: seq<Event<File>>,
                   events': seq<Event<File>>, turns: map<nat, Turn>)
    requires attempted <= |records| <= |entries| && events <= events'
    requires forall i | 0 <= i < attempted :: i in turns && turns[i].upTo <= |events|
    ensures KnownFrom(entries, records, 0, attempted, events', turns) == KnownFrom(entries, records, 0, attempted, events, turns)
  {
    hide Known;
    forall i | 0 <= i < attempted
      ensures GoodTurn(events', turns[i]) == GoodTurn(events, turns[i])
      ensures GoodTurn(events, turns[i]) ==> Found(events', turns[i]) == Found(events, turns[i])
    {
      assert forall j | 0 <= j < |events| :: events'[j] == events[j];
    }
  }

  /** Where nobody else writes, every attempted target holds what was recorded of it, or its stage. */
  lemma UnmeddledIsKnown(d0: Disk, d1: Disk, d2: Disk, d3: Disk, entries: seq<Entry>, records: seq<Record>, attempted: nat,
                         recovery: seq<string>, events: seq<Event<File>>, turns: map<nat, Turn>)
    requires Apart(entries) && attempted <= |entries| == |records|
    requires forall i | 0 <= i < |records| :: records[i].original == Lookup(d0, entries[i].path)
    requires forall p | p !in Stages(entries) :: Lookup(d1, p) == Lookup(d0, p)
    requires forall i | 0 <= i < attempted ::
               Lookup(d2, entries[i].path) in {Some(records[i].staged), Lookup(d1, entries[i].path)}
    requires BackFrom(d2, d3, entries, records, 0, attempted, recovery, events, turns, {})
    ensures KnownFrom(entries, records, 0, attempted, events, turns)
  {
    hide Apart, Settled, Private;
    forall i | 0 <= i < attempted
      ensures i in turns && GoodTurn(events, turns[i]) && Known(Found(events, turns[i]), entries[i], records[i])
    {
      PathIsNoStage(entries, i);
      assert HadTurn(d2, d3, entries[i], records[i], i, recovery, events, turns, {});
    }
  }

  lemma FailedBeforeReplacing(d0: Disk, d1: Disk, d: Disk, theirs: set<string>, entries: seq<Entry>, records: seq<Record>,
                              failures: seq<string>)
    requires Apart(entries) && Private(entries) !! d0.Keys && theirs !! Private(entries)
    requires forall p | p !in theirs + Stages(entries) :: Lookup(d1, p) == Lookup(d0, p)
    requires forall p | p !in Stages(entries) :: Lookup(d, p) == Lookup(d1, p)
    requires forall i | 0 <= i < |entries| :: entries[i].stage in d ==> entries[i].stage in failures
    ensures forall p | p in Private(entries) && p in d :: p in failures
    ensures failures == [] ==> forall p | p !in theirs :: Lookup(d, p) == Lookup(d0, p)
  {
  }

  /** What replacing, rolling back and removing the stages have each done: `d0` to `d1` to `d2` to `d`. */
  ghost predicate AfterRollback(d0: Disk, d1: Disk, d2: Disk, d: Disk, theirs: set<string>, entries: seq<Entry>,
                                records: seq<Record>, attempted: nat, recovery: seq<string>, failures: seq<string>,
                                events: seq<Event<File>>, turns: map<nat, Turn>, meddled: set<string>)
    requires attempted <= |entries| == |records|
  {
    && Private(entries) !! d0.Keys && theirs !! Private(entries) && meddled <= theirs
    && (forall i | 0 <= i < |records| && entries[i].path !in theirs :: records[i].original == Lookup(d0, entries[i].path))
    && (forall p | p !in theirs + Stages(entries) + Targets(entries, attempted) :: Lookup(d1, p) == Lookup(d0, p))
    && BackFrom(d1, d2, entries, records, 0, attempted, recovery, events, turns, meddled)
    && (forall p | p !in Stages(entries) :: Lookup(d, p) == Lookup(d2, p))
    && (forall i | 0 <= i < |entries| :: entries[i].stage in d ==> entries[i].stage in failures)
  }

  lemma TargetsSettled(d0: Disk, d1: Disk, d2: Disk, d: Disk, theirs: set<string>, entries: seq<Entry>,
                       records: seq<Record>, attempted: nat, recovery: seq<string>, failures: seq<string>,
                       events: seq<Event<File>>, turns: map<nat, Turn>, meddled: set<string>, after: seq<Event<File>>)
    requires Apart(entries) && attempted <= |entries| == |records| && events <= after
    requires AfterRollback(d0, d1, d2, d, theirs, entries, records, attempted, recovery, failures, events, turns, meddled)
    ensures forall i | 0 <= i < attempted ::
              HadTurn(d1, d, entries[i], records[i], i, recovery + failures, after, turns, meddled)
  {
    hide Apart, Private, Settled, Stages;
    forall i | 0 <= i < attempted
      ensures HadTurn(d1, d, entries[i], records[i], i, recovery + failures, after, turns, meddled)
    {
      PathIsNoStage(entries, i);
      TurnStays(d1, d2, d, entries[i], records[i], i, recovery, recovery + failures, events, after, turns, turns, meddled);
    }
  }

  lemma PathIsNoStage(entries: seq<Entry>, i: nat)
    requires Apart(entries) && i < |entries|
    ensures entries[i].path !in Stages(entries)
  {
  }

  lemma LeftoversListed(d0: Disk, d1: Disk, d2: Disk, d: Disk, theirs: set<string>, entries: seq<Entry>,
                        records: seq<Record>, attempted: nat, recovery: seq<string>, failures: seq<string>,
                        events: seq<Event<File>>, turns: map<nat, Turn>, meddled: set<string>)
    requires Apart(entries) && attempted <= |entries| == |records|
    requires AfterRollback(d0, d1, d2, d, theirs, entries, records, attempted, recovery, failures, events, turns, meddled)
    ensures forall p | p in Private(entries) && p in d :: p in recovery + failures
  {
    hide Apart, HadTurn;
    PathsArePublic(entries);
    forall i | 0 <= i < |entries| && entries[i].restore in d
      ensures entries[i].restore in recovery
    {
      assert Lookup(d, entries[i].restore) == Lookup(d2, entries[i].restore);
      RestoreIsNoTarget(entries, i, attempted);
      assert Lookup(d1, entries[i].restore) == Lookup(d0, entries[i].restore);
    }
    forall p | p in Private(entries) && p in d
      ensures p in recovery + failures
    {
      PrivateNames(entries, p);
    }
  }

  lemma NothingListedMeansUndone(d0: Disk, d1: Disk, d2: Disk, d: Disk, theirs: set<string>, entries: seq<Entry>,
                                 records: seq<Record>, attempted: nat, events: seq<Event<File>>, turns: map<nat, Turn>,
                                 meddled: set<string>)
    requires Apart(entries) && attempted <= |entries| == |records|
    requires AfterRollback(d0, d1, d2, d, theirs, entries, records, attempted, [], [], events, turns, meddled)
    ensures forall p | p !in theirs :: Lookup(d, p) == Lookup(d0, p)
  {
    hide Apart;
    TargetsSettled(d0, d1, d2, d, theirs, entries, records, attempted, [], [], events, turns, meddled, events);
    LeftoversListed(d0, d1, d2, d, theirs, entries, records, attempted, [], [], events, turns, meddled);
    forall p | p !in theirs
      ensures Lookup(d, p) == Lookup(d0, p)
    {
      if p in Targets(entries, attempted) {
        var i :| 0 <= i < attempted && entries[i].path == p;
        assert HadTurn(d1, d, entries[i], records[i], i, [], events, turns, meddled);
      } else if p in Private(entries) {
        assert p !in d && p !in d0;
      } else {
        PrivateHoldsStages(entries);
      }
    }
  }

  lemma PrivateHoldsStages(entries: seq<Entry>)
    ensures Stages(entries) <= Private(entries)
  {
  }

  lemma RestoreIsNoTarget(entries: seq<Entry>, i: nat, attempted: nat)
    requires Apart(entries) && i < |entries| && attempted <= |entries|
    ensures entries[i].restore !in Targets(entries, attempted)
  {
  }
}
