/**
 Listing commands page by page. A launcher page is cut out of the filtered
 catalogue, composed with an application page in one sorted list, and cut again
 until it fits its budget. Following the cursors must neither lose an entry nor
 give one twice.
 */
module DiscoveryPaging {
  import opened Prelude

  /** Command identifiers, in their order. */
  type Id = int

  type Fingerprint = int

  datatype Cursor = Cursor(fingerprint: Fingerprint, id: Id)

  /** A manifest refuses entries out of order and repeated identifiers. */
  predicate Ascending(ids: seq<Id>) {
    forall i, j | 0 <= i < j < |ids| :: ids[i] < ids[j]
  }

  datatype Catalogue = Catalogue(ids: seq<Id>, fingerprint: Fingerprint)

  datatype Page = Page(ids: seq<Id>, next: Option<Cursor>)

  datatype Error = BadPageSize | StaleCursor | CursorNotInView

  /** The entries a filter keeps, in order. */
  function View(ids: seq<Id>, matches: Id -> bool): seq<Id> {
    if ids == [] then []
    else (if matches(ids[0]) then [ids[0]] else []) + View(ids[1..], matches)
  }

  /** The place after the cursor's entry. */
  function After(ids: seq<Id>, id: Id): Option<nat> {
    if ids == [] then None
    else if ids[0] == id then Some(1)
    else
      match After(ids[1..], id)
      case None => None
      case Some(at) => Some(at + 1)
  }

  /** The page at a place: the next entries of the view, none only at its end, and a cursor at the last of them
      exactly when more follow. */
  function PageAt(fingerprint: Fingerprint, view: seq<Id>, start: nat, size: nat): (page: Page)
    requires start <= |view| && size >= 1
    ensures |page.ids| <= size && start + |page.ids| <= |view| && page.ids == view[start..start + |page.ids|]
    ensures page.ids == [] <==> start == |view|
    ensures page.next == if start + |page.ids| == |view| then None else Some(Cursor(fingerprint, view[start + |page.ids| - 1]))
  {
    var end := if start + size < |view| then start + size else |view|;
    var ids := view[start..end];
    Page(ids, if ids != [] && end < |view| then Some(Cursor(fingerprint, ids[|ids| - 1])) else None)
  }

  function ListCommands(c: Catalogue, matches: Id -> bool, cursor: Option<Cursor>, size: int): Result<Page, Error> {
    if !(1 <= size <= 500) then Err(BadPageSize)
    else if cursor.Some? && cursor.value.fingerprint != c.fingerprint then Err(StaleCursor)
    else
      var view := View(c.ids, matches);
      if cursor.None? then Ok(PageAt(c.fingerprint, view, 0, size))
      else
        AfterIsInside(view, cursor.value.id);
        match After(view, cursor.value.id)
        case None => Err(CursorNotInView)
        case Some(start) => Ok(PageAt(c.fingerprint, view, start, size))
  }

  lemma AfterIsInside(ids: seq<Id>, id: Id)
    ensures After(ids, id).Some? ==> 1 <= After(ids, id).value <= |ids| && ids[After(ids, id).value - 1] == id
    ensures After(ids, id).None? <==> id !in ids
  {
  }

  lemma {:induction false} ViewHolds(ids: seq<Id>, matches: Id -> bool, id: Id)
    ensures id in View(ids, matches) <==> id in ids && matches(id)
  {
    if ids != [] {
      ViewHolds(ids[1..], matches, id);
      assert ids == [ids[0]] + ids[1..];
    }
  }

  /** The view holds exactly the matching entries, each once, still in order. */
  lemma {:induction false} ViewIsTheMatches(ids: seq<Id>, matches: Id -> bool)
    requires Ascending(ids)
    ensures Ascending(View(ids, matches)) && forall id :: id in View(ids, matches) <==> id in ids && matches(id)
  {
    forall id
      ensures id in View(ids, matches) <==> id in ids && matches(id)
    {
      ViewHolds(ids, matches, id);
    }
    hide Ascending;
    if ids == [] {
      NothingAscends();
    } else {
      TailAscends(ids);
      var first, rest := ids[0], View(ids[1..], matches);
      ViewIsTheMatches(ids[1..], matches);
      forall id | id in rest
        ensures first < id
      {
        ViewHolds(ids[1..], matches, id);
        FirstIsLeast(ids, id);
      }
      OneBefore(first, rest);
    }
  }

  lemma NothingAscends()
    ensures Ascending([])
  {
  }

  lemma TailAscends(ids: seq<Id>)
    requires Ascending(ids) && ids != []
    ensures Ascending(ids[1..])
  {
  }

  lemma FirstIsLeast(ids: seq<Id>, id: Id)
    requires ids != [] && Ascending(ids) && id in ids[1..]
    ensures ids[0] < id
  {
  }

  lemma OneBefore(first: Id, rest: seq<Id>)
    requires Ascending(rest) && forall id | id in rest :: first < id
    ensures Ascending([first] + rest) && [] + rest == rest
  {
    assert forall i | 0 <= i < |rest| :: rest[i] in rest;
  }

  /** The cursor that names the n-th entry of a view leads to the place after it. */
  lemma {:induction false} AfterTheNth(view: seq<Id>, n: nat)
    requires Ascending(view) && n < |view|
    ensures After(view, view[n]) == Some(n + 1)
  {
    if n > 0 {
      AfterTheNth(view[1..], n - 1);
    }
  }

  // ---------------------------------------------------------------------
  // Composition
  // ---------------------------------------------------------------------

  datatype Owner = Application | Launcher

  datatype Item = Item(id: Id, owner: Owner)

  predicate Before(a: Item, b: Item) {
    a.id < b.id || (a.id == b.id && a.owner == Application && b.owner == Launcher)
  }

  function Insert(x: Item, s: seq<Item>): seq<Item> {
    if s == [] || Before(x, s[0]) then [x] + s else [s[0]] + Insert(x, s[1..])
  }

  function Sort(s: seq<Item>): seq<Item> {
    if s == [] then [] else Insert(s[|s| - 1], Sort(s[..|s| - 1]))
  }

  predicate Sorted(s: seq<Item>) {
    forall i, j | 0 <= i < j < |s| :: !Before(s[j], s[i])
  }

  function Owned(owner: Owner, s: seq<Item>): seq<Item> {
    if s == [] then [] else (if s[0].owner == owner then [s[0]] else []) + Owned(owner, s[1..])
  }

  function Items(owner: Owner, ids: seq<Id>): seq<Item> {
    seq(|ids|, i requires 0 <= i < |ids| => Item(ids[i], owner))
  }

  function IdsOf(s: seq<Item>): seq<Id> {
    seq(|s|, i requires 0 <= i < |s| => s[i].id)
  }

  /** One sorted list; identifiers that collide refuse the composition. */
  function Compose(application: seq<Id>, launcher: seq<Id>): Option<seq<Item>> {
    var entries := Sort(Items(Application, application) + Items(Launcher, launcher));
    if NoneTwice(entries) then Some(entries) else None
  }

  /** No identifier stands twice. */
  predicate NoneTwice(entries: seq<Item>) {
    forall i, j | 0 <= i < j < |entries| :: entries[i].id != entries[j].id
  }

  lemma {:induction false} NoneTwiceByCount(entries: seq<Item>)
    ensures NoneTwice(entries) <==>
              && (forall x :: multiset(entries)[x] <= 1)
              && (forall x, y | x in entries && y in entries && x.id == y.id :: x == y)
  {
    if NoneTwice(entries) {
      forall x
        ensures multiset(entries)[x] <= 1
      {
        CountedOnce(entries, x);
      }
    } else {
      var i, j :| 0 <= i < j < |entries| && entries[i].id == entries[j].id;
      if entries[i] == entries[j] {
        CountedTwice(entries, i, j);
      }
    }
  }

  lemma {:induction false} CountedOnce(entries: seq<Item>, x: Item)
    requires NoneTwice(entries)
    ensures multiset(entries)[x] <= 1
  {
    if entries != [] {
      var n := |entries| - 1;
      assert entries == entries[..n] + [entries[n]];
      CountedOnce(entries[..n], x);
      if x == entries[n] {
        assert x !in entries[..n];
      }
    }
  }

  lemma CountedTwice(entries: seq<Item>, i: nat, j: nat)
    requires i < j < |entries| && entries[i] == entries[j]
    ensures multiset(entries)[entries[j]] >= 2
  {
    assert entries == entries[..j] + ([entries[j]] + entries[j + 1..]);
    assert entries[..j][i] == entries[j];
  }

  /** Composition is refused exactly when an identifier stands twice, in one page or across the two. */
  lemma ComposeRefusesIff(application: seq<Id>, launcher: seq<Id>)
    ensures Compose(application, launcher).Some? <==> NoneTwice(Items(Application, application) + Items(Launcher, launcher))
  {
    hide Sort;
    var all := Items(Application, application) + Items(Launcher, launcher);
    SortSorts(all);
    forall x
      ensures x in Sort(all) <==> x in all
    {
      assert x in Sort(all) <==> x in multiset(Sort(all));
    }
    NoneTwiceByCount(all);
    NoneTwiceByCount(Sort(all));
  }

  lemma {:induction false} InsertSorts(x: Item, s: seq<Item>)
    requires Sorted(s)
    ensures Sorted(Insert(x, s)) && multiset(Insert(x, s)) == multiset(s) + multiset{x}
  {
    if s != [] && !Before(x, s[0]) {
      InsertSorts(x, s[1..]);
      assert s == [s[0]] + s[1..];
      var rest := Insert(x, s[1..]);
      forall y | y in rest
        ensures !Before(y, s[0])
      {
        assert y in multiset(rest);
        if y != x {
          assert y in multiset(s[1..]);
          var i :| 0 <= i < |s[1..]| && s[1..][i] == y;
          assert s[i + 1] == y;
        }
      }
    }
  }

  lemma {:induction false} SortSorts(s: seq<Item>)
    ensures Sorted(Sort(s)) && multiset(Sort(s)) == multiset(s)
  {
    if s != [] {
      SortSorts(s[..|s| - 1]);
      InsertSorts(s[|s| - 1], Sort(s[..|s| - 1]));
      assert s == s[..|s| - 1] + [s[|s| - 1]];
    }
  }

  /** A launcher entry after all launcher entries of a sorted list stays after them. */
  lemma {:induction false} InsertAppends(x: Item, s: seq<Item>)
    requires Sorted(s) && forall y | y in s && y.owner == x.owner :: y.id < x.id
    ensures Owned(x.owner, Insert(x, s)) == Owned(x.owner, s) + [x]
  {
    if s != [] {
      if Before(x, s[0]) {
        forall y | y in s
          ensures y.owner != x.owner
        {
          var i :| 0 <= i < |s| && s[i] == y;
          if i > 0 {
            assert !Before(s[i], s[0]);
          }
        }
        NoneOwned(x.owner, s);
      } else {
        InsertAppends(x, s[1..]);
      }
    }
  }

  lemma NoneOwned(owner: Owner, s: seq<Item>)
    requires forall y | y in s :: y.owner != owner
    ensures Owned(owner, s) == []
  {
  }

  lemma {:induction false} InsertElsewhere(x: Item, s: seq<Item>, owner: Owner)
    requires owner != x.owner
    ensures Owned(owner, Insert(x, s)) == Owned(owner, s)
  {
    if s != [] && !Before(x, s[0]) {
      InsertElsewhere(x, s[1..], owner);
    }
  }

  /** Composition keeps the launcher's page whole and in order among the sorted entries. */
  lemma {:induction false} ComposeKeepsThePage(application: seq<Id>, launcher: seq<Id>)
    requires Ascending(launcher)
    ensures Owned(Launcher, Sort(Items(Application, application) + Items(Launcher, launcher))) == Items(Launcher, launcher)
    decreases |launcher|, |application|
  {
    hide Owned, Sort;
    var all := Items(Application, application) + Items(Launcher, launcher);
    if launcher != [] {
      var n := |launcher| - 1;
      ComposeKeepsThePage(application, launcher[..n]);
      assert all == Items(Application, application) + Items(Launcher, launcher[..n]) + [Item(launcher[n], Launcher)];
      SortAppends(application, launcher[..n], launcher[n]);
      assert Items(Launcher, launcher) == Items(Launcher, launcher[..n]) + [Item(launcher[n], Launcher)];
    } else if application != [] {
      var n := |application| - 1;
      ComposeKeepsThePage(application[..n], launcher);
      assert all == Items(Application, application[..n]) + Items(Launcher, launcher) + [Item(application[n], Application)];
      SortElsewhere(Items(Application, application[..n]) + Items(Launcher, launcher), Item(application[n], Application));
    } else {
      NothingSorted();
    }
  }

  lemma NothingSorted()
    ensures Owned(Launcher, Sort([])) == []
  {
  }

  lemma SortElsewhere(before: seq<Item>, x: Item)
    requires x.owner == Application
    ensures Owned(Launcher, Sort(before + [x])) == Owned(Launcher, Sort(before))
  {
    assert (before + [x])[..|before|] == before;
    InsertElsewhere(x, Sort(before), Launcher);
  }

  lemma SortAppends(application: seq<Id>, launcher: seq<Id>, id: Id)
    requires forall other | other in launcher :: other < id
    ensures var before := Items(Application, application) + Items(Launcher, launcher);
            var x := Item(id, Launcher);
            Owned(Launcher, Sort(before + [x])) == Owned(Launcher, Sort(before)) + [x]
  {
    hide Owned, Sorted, Insert;
    var before := Items(Application, application) + Items(Launcher, launcher);
    var x := Item(id, Launcher);
    assert (before + [x])[..|before|] == before;
    assert Sort(before + [x]) == Insert(x, Sort(before));
    hide Sort;
    SortSorts(before);
    forall y | y in Sort(before) && y.owner == Launcher
      ensures y.id < x.id
    {
      assert y in multiset(before);
      var i :| 0 <= i < |before| && before[i] == y;
      assert launcher[i - |application|] in launcher;
    }
    InsertAppends(x, Sort(before));
  }

  // ---------------------------------------------------------------------
  // Bounding a composed page
  // ---------------------------------------------------------------------

  /** A composed page. An unavailable one carries no entries. */
  datatype Payload = Payload(entries: seq<Item>, next: Option<Cursor>, pending: bool, available: bool)

  /** The last launcher entry, or the length when there is none. */
  function LastLauncher(entries: seq<Item>): (at: nat)
    ensures at <= |entries| && (at < |entries| ==> entries[at].owner == Launcher)
  {
    if entries == [] then 0
    else
      var n := |entries| - 1;
      if entries[n].owner == Launcher then n
      else if LastLauncher(entries[..n]) == n then |entries| else LastLauncher(entries[..n])
  }

  /** The entries with the last launcher entry taken out. */
  function DropLast(entries: seq<Item>): seq<Item> {
    var at := LastLauncher(entries);
    if at == |entries| then entries else entries[..at] + entries[at + 1..]
  }

  /** The entries with only the first k of the launcher's. */
  function KeepFirst(entries: seq<Item>, k: nat): seq<Item>
    decreases |Owned(Launcher, entries)| - k, |entries|
  {
    if |Owned(Launcher, entries)| <= k then entries
    else
      DropLastDrops(entries);
      KeepFirst(DropLast(entries), k)
  }

  lemma {:induction false} OwnedConcat(owner: Owner, a: seq<Item>, b: seq<Item>)
    ensures Owned(owner, a + b) == Owned(owner, a) + Owned(owner, b)
  {
    if a == [] {
      assert a + b == b;
    } else {
      OwnedConcat(owner, a[1..], b);
      assert (a + b)[1..] == a[1..] + b && (a + b)[0] == a[0];
      var one := if a[0].owner == owner then [a[0]] else [];
      assert one + (Owned(owner, a[1..]) + Owned(owner, b)) == (one + Owned(owner, a[1..])) + Owned(owner, b);
    }
  }

  lemma {:induction false} LastLauncherIsLast(entries: seq<Item>)
    ensures var at := LastLauncher(entries);
            if at == |entries| then Owned(Launcher, entries) == []
            else Owned(Launcher, entries[at + 1..]) == []
    decreases entries
  {
    if entries != [] {
      var n := |entries| - 1;
      var last := [entries[n]];
      LastLauncherIsLast(entries[..n]);
      assert entries == entries[..n] + last;
      OwnedConcat(Launcher, entries[..n], last);
      assert last[1..] == [];
      var at := LastLauncher(entries);
      if at < n {
        assert entries[at + 1..] == entries[..n][at + 1..] + last;
        OwnedConcat(Launcher, entries[..n][at + 1..], last);
      }
    }
  }

  /** Dropping takes the last entry of the launcher's and nothing of the application's. */
  lemma DropLastDrops(entries: seq<Item>)
    requires Owned(Launcher, entries) != []
    ensures var own := Owned(Launcher, entries); Owned(Launcher, DropLast(entries)) == own[..|own| - 1]
    ensures Owned(Application, DropLast(entries)) == Owned(Application, entries)
  {
    hide LastLauncher, Owned;
    LastLauncherIsLast(entries);
    var at := LastLauncher(entries);
    Around(entries, at);
    DropBetween(entries, DropLast(entries), entries[..at], entries[at], entries[at + 1..]);
  }

  lemma Around(entries: seq<Item>, at: nat)
    requires at < |entries|
    ensures entries == entries[..at] + ([entries[at]] + entries[at + 1..])
  {
  }

  lemma DropBetween(entries: seq<Item>, dropped: seq<Item>, head: seq<Item>, x: Item, tail: seq<Item>)
    requires entries == head + ([x] + tail) && dropped == head + tail
    requires x.owner == Launcher && Owned(Launcher, tail) == []
    ensures var own := Owned(Launcher, entries); own != [] && Owned(Launcher, dropped) == own[..|own| - 1]
    ensures Owned(Application, dropped) == Owned(Application, entries)
  {
    hide Owned;
    OwnedAround(Launcher, head, x, tail);
    OwnedAround(Application, head, x, tail);
  }

  lemma OwnedAround(owner: Owner, head: seq<Item>, x: Item, tail: seq<Item>)
    ensures Owned(owner, head + ([x] + tail))
            == Owned(owner, head) + ((if x.owner == owner then [x] else []) + Owned(owner, tail))
    ensures Owned(owner, head + tail) == Owned(owner, head) + Owned(owner, tail)
  {
    hide Owned;
    OneOwned(x);
    OwnedConcat(owner, head, [x] + tail);
    OwnedConcat(owner, [x], tail);
    OwnedConcat(owner, head, tail);
  }

  lemma OneOwned(x: Item)
    ensures Owned(x.owner, [x]) == [x] && forall owner | owner != x.owner :: Owned(owner, [x]) == []
  {
  }

  lemma {:induction false} KeepFirstKeeps(entries: seq<Item>, k: nat)
    requires k <= |Owned(Launcher, entries)|
    ensures Owned(Launcher, KeepFirst(entries, k)) == Owned(Launcher, entries)[..k]
    ensures Owned(Application, KeepFirst(entries, k)) == Owned(Application, entries)
    decreases |Owned(Launcher, entries)|
  {
    if k < |Owned(Launcher, entries)| {
      DropLastDrops(entries);
      KeepFirstKeeps(DropLast(entries), k);
    }
  }

  lemma {:induction false} KeepOneLess(entries: seq<Item>, k: nat)
    requires 1 <= k <= |Owned(Launcher, entries)|
    ensures KeepFirst(entries, k - 1) == DropLast(KeepFirst(entries, k))
    decreases |Owned(Launcher, entries)|
  {
    DropLastDrops(entries);
    if k < |Owned(Launcher, entries)| {
      KeepOneLess(DropLast(entries), k);
    }
  }

  /** The page with only its first k launcher entries, its cursor naming the last of them. */
  function CutTo(payload: Payload, fingerprint: Fingerprint, initial: Option<Cursor>, k: nat): Payload
    requires k <= |Owned(Launcher, payload.entries)|
  {
    if k == |Owned(Launcher, payload.entries)| then payload
    else
      Payload(KeepFirst(payload.entries, k),
              if k == 0 then initial else Some(Cursor(fingerprint, Owned(Launcher, payload.entries)[k - 1].id)),
              true, payload.available)
  }

  /** The most launcher entries, of the first k, that fit; none when no cut does. */
  function Fitting(payload: Payload, fingerprint: Fingerprint, initial: Option<Cursor>, fits: Payload -> bool, k: nat): (most: nat)
    requires k <= |Owned(Launcher, payload.entries)|
    ensures most <= k && (most > 0 ==> fits(CutTo(payload, fingerprint, initial, most)))
    ensures forall m | most < m <= k :: !fits(CutTo(payload, fingerprint, initial, m))
  {
    if k == 0 || fits(CutTo(payload, fingerprint, initial, k)) then k
    else Fitting(payload, fingerprint, initial, fits, k - 1)
  }

  /** Drop launcher entries from the end until the page fits. When none is left and it does not, the page
      is unavailable. `kept` is how many launcher entries remain. */
  method BoundDiscovery(payload: Payload, fingerprint: Fingerprint, initial: Option<Cursor>, fits: Payload -> bool)
    returns (value: Payload, ghost kept: nat)
    ensures kept == Fitting(payload, fingerprint, initial, fits, |Owned(Launcher, payload.entries)|)
    ensures var most := Fitting(payload, fingerprint, initial, fits, |Owned(Launcher, payload.entries)|);
            var cut := CutTo(payload, fingerprint, initial, most);
            value == if fits(cut) then cut else Payload([], cut.next, cut.pending, false)
  {
    hide Owned, DropLast, KeepFirst;
    ghost var n := |Owned(Launcher, payload.entries)|;
    value, kept := payload, n;
    KeepAll(payload.entries);
    while !fits(value)
      invariant kept <= n && value == CutTo(payload, fingerprint, initial, kept)
      invariant value.entries == KeepFirst(payload.entries, kept)
      invariant Fitting(payload, fingerprint, initial, fits, n) == Fitting(payload, fingerprint, initial, fits, kept)
      decreases kept
    {
      KeepFirstKeeps(payload.entries, kept);
      LastLauncherIsLast(value.entries);
      if LastLauncher(value.entries) == |value.entries| {
        break;
      }
      HasLauncher(value.entries);
      KeepOneLess(payload.entries, kept);
      KeepFirstKeeps(payload.entries, kept - 1);
      kept := kept - 1;
      var entries := DropLast(value.entries);
      var remaining := Owned(Launcher, entries);
      value := Payload(entries, if remaining == [] then initial else Some(Cursor(fingerprint, remaining[|remaining| - 1].id)),
                       true, value.available);
    }
    if !fits(value) {
      value := Payload([], value.next, value.pending, false);
    }
  }

  lemma KeepAll(entries: seq<Item>)
    ensures KeepFirst(entries, |Owned(Launcher, entries)|) == entries
  {
  }

  lemma HasLauncher(entries: seq<Item>)
    requires LastLauncher(entries) < |entries|
    ensures Owned(Launcher, entries) != []
  {
    hide LastLauncher, Owned;
    var at := LastLauncher(entries);
    var head, one, tail := entries[..at], [entries[at]], entries[at + 1..];
    assert entries == head + (one + tail);
    OneOwned(entries[at]);
    OwnedConcat(Launcher, head, one + tail);
    OwnedConcat(Launcher, one, tail);
  }

  // ---------------------------------------------------------------------
  // Following the cursors
  // ---------------------------------------------------------------------

  /** How following ends: nothing left, a refused page, or a page cut down to no launcher entry at all. */
  datatype Outcome = Complete | Refusal | Stuck

  /** No identifier of an application page stands twice, or among the launcher's. */
  predicate Compatible(application: seq<Id>, launcher: seq<Id>) {
    NoneTwice(Items(Application, application) + Items(Launcher, launcher))
  }

  lemma PageIsCompatible(application: seq<Id>, view: seq<Id>, fingerprint: Fingerprint, start: nat, size: nat)
    requires Compatible(application, view) && start <= |view| && size >= 1
    ensures Compatible(application, PageAt(fingerprint, view, start, size).ids)
  {
    var all := Items(Application, application) + Items(Launcher, view);
    var ids := PageAt(fingerprint, view, start, size).ids;
    var part := Items(Application, application) + Items(Launcher, ids);
    forall i, j | 0 <= i < j < |part|
      ensures part[i].id != part[j].id
    {
      var k := if i < |application| then i else i + start;
      var l := if j < |application| then j else j + start;
      assert all[k].id == part[i].id && all[l].id == part[j].id;
    }
  }

  /** A view's cursor: nowhere yet, or at the last entry visited. */
  function CursorAt(fingerprint: Fingerprint, view: seq<Id>, start: nat): Option<Cursor>
    requires start <= |view|
  {
    if start == 0 then None else Some(Cursor(fingerprint, view[start - 1]))
  }

  /** The page after `start` entries of the view, composed with the application's. */
  function Composed(fingerprint: Fingerprint, view: seq<Id>, size: nat, start: nat, application: seq<Id>): Payload
    requires start <= |view| && size >= 1
  {
    var page := PageAt(fingerprint, view, start, size);
    Payload(Sort(Items(Application, application) + Items(Launcher, page.ids)), page.next, false, true)
  }

  /** How many launcher entries that page keeps: the most that fit. */
  function KeptAt(fingerprint: Fingerprint, view: seq<Id>, size: nat, start: nat, application: seq<Id>, fits: Payload -> bool): (kept: nat)
    requires Ascending(view) && start <= |view| && size >= 1
    ensures kept <= |PageAt(fingerprint, view, start, size).ids|
  {
    ComposedHolds(fingerprint, view, size, start, application);
    Fitting(Composed(fingerprint, view, size, start, application), fingerprint, CursorAt(fingerprint, view, start), fits,
            |PageAt(fingerprint, view, start, size).ids|)
  }

  lemma ComposedHolds(fingerprint: Fingerprint, view: seq<Id>, size: nat, start: nat, application: seq<Id>)
    requires Ascending(view) && start <= |view| && size >= 1
    ensures Owned(Launcher, Composed(fingerprint, view, size, start, application).entries)
            == Items(Launcher, PageAt(fingerprint, view, start, size).ids)
  {
    hide Owned, Sort, Ascending;
    PageAscends(view, fingerprint, start, size);
    ComposeKeepsThePage(application, PageAt(fingerprint, view, start, size).ids);
  }

  /** One call: a page of the catalogue, composed with the application's and bounded. It gives the most of its
      launcher entries that fit, and a cursor at the last of them. */
  method ComposedPage(c: Catalogue, matches: Id -> bool, size: int, cursor: Option<Cursor>, application: seq<Id>,
                      fits: Payload -> bool, ghost start: nat)
    returns (answer: Option<Payload>, given: seq<Id>)
    requires Ascending(c.ids) && start <= |View(c.ids, matches)| && cursor == CursorAt(c.fingerprint, View(c.ids, matches), start)
    ensures Ascending(View(c.ids, matches))
    ensures answer.None? <==> !(1 <= size <= 500)
                              || !Compatible(application, PageAt(c.fingerprint, View(c.ids, matches), start, size).ids)
    ensures answer.Some? ==>
              var view := View(c.ids, matches);
              var page, kept := PageAt(c.fingerprint, view, start, size), KeptAt(c.fingerprint, view, size, start, application, fits);
              && given == view[start..start + kept] && (answer.value.pending <==> kept < |page.ids|)
              && answer.value.next == if start + kept == |view| then None else CursorAt(c.fingerprint, view, start + kept)
  {
    hide Owned, KeepFirst, After, View, Ascending, Sort, Fitting, CutTo, PageAt;
    ghost var view := View(c.ids, matches);
    ViewIsTheMatches(c.ids, matches);
    if start > 0 {
      AfterTheNth(view, start - 1);
    }
    var page := ListCommands(c, matches, cursor, size);
    assert page == if 1 <= size <= 500 then Ok(PageAt(c.fingerprint, view, start, size)) else Err(BadPageSize);
    if page.Err? {
      return None, [];
    }
    ComposeRefusesIff(application, page.value.ids);
    var entries := Compose(application, page.value.ids);
    if entries.None? {
      return None, [];
    }
    ComposedHolds(c.fingerprint, view, size, start, application);
    CutGives(c.fingerprint, view, size, start, application, fits);
    hide KeptAt, CursorAt;
    var value, kept := BoundDiscovery(Payload(entries.value, page.value.next, false, true), c.fingerprint, cursor, fits);
    given := IdsOf(Owned(Launcher, value.entries));
    answer := Some(value);
  }

  /** What the cut that keeps the most gives: those entries of the view, and a cursor at the last of them. */
  lemma CutGives(fingerprint: Fingerprint, view: seq<Id>, size: nat, start: nat, application: seq<Id>, fits: Payload -> bool)
    requires Ascending(view) && start <= |view| && size >= 1
    ensures var payload := Composed(fingerprint, view, size, start, application);
            var kept := KeptAt(fingerprint, view, size, start, application, fits);
            && kept <= |Owned(Launcher, payload.entries)|
            && kept == Fitting(payload, fingerprint, CursorAt(fingerprint, view, start), fits, |Owned(Launcher, payload.entries)|)
            && var cut := CutTo(payload, fingerprint, CursorAt(fingerprint, view, start), kept);
               && IdsOf(Owned(Launcher, cut.entries)) == view[start..start + kept]
               && (cut.pending <==> kept < |PageAt(fingerprint, view, start, size).ids|)
               && cut.next == (if start + kept == |view| then None else CursorAt(fingerprint, view, start + kept))
               && (kept == 0 ==> IdsOf(Owned(Launcher, [])) == view[start..start + kept])
  {
    hide Owned, KeepFirst, Ascending, Sort, Fitting, PageAt;
    var payload := Composed(fingerprint, view, size, start, application);
    ComposedHolds(fingerprint, view, size, start, application);
    KeepAll(payload.entries);
    NothingOwned();
    var kept := KeptAt(fingerprint, view, size, start, application, fits);
    KeepFirstKeeps(payload.entries, kept);
    var ids := PageAt(fingerprint, view, start, size).ids;
    assert IdsOf(Items(Launcher, ids)[..kept]) == ids[..kept] == view[start..start + kept];
    assert Items(Launcher, ids)[..|ids|] == Items(Launcher, ids);
    var cut := CutTo(payload, fingerprint, CursorAt(fingerprint, view, start), kept);
    assert Owned(Launcher, cut.entries) == Items(Launcher, ids)[..kept];
    if 0 < kept < |ids| {
      assert Items(Launcher, ids)[kept - 1].id == view[start + kept - 1];
    }
  }

  /** Where following gets to, and how it ends. */
  datatype Trip = Trip(reached: nat, outcome: Outcome)

  function Budget(fits: (nat, Payload) -> bool, n: nat): Payload -> bool {
    p => fits(n, p)
  }

  /** From the n-th call, at a place in the view: each call gives what it keeps of its page, and the next starts
      at the first entry dropped. Each has its own application entries and its own budget. */
  function Walk(fingerprint: Fingerprint, view: seq<Id>, size: int, application: nat -> seq<Id>, fits: (nat, Payload) -> bool,
                n: nat, start: nat): (trip: Trip)
    requires Ascending(view) && start <= |view|
    ensures start <= trip.reached <= |view|
    ensures trip.outcome.Complete? ==> trip.reached == |view|
    ensures trip.outcome.Stuck? ==> trip.reached < |view|
    decreases |view| - start
  {
    if !(1 <= size <= 500) then Trip(start, Refusal)
    else
      var page := PageAt(fingerprint, view, start, size).ids;
      if !Compatible(application(n), page) then Trip(start, Refusal)
      else
        var kept := KeptAt(fingerprint, view, size, start, application(n), Budget(fits, n));
        if kept == 0 < |page| then Trip(start, Stuck)
        else if start + kept == |view| then Trip(|view|, Complete)
        else Walk(fingerprint, view, size, application, fits, n + 1, start + kept)
  }

  /** Follow launcher cursors from the start: the entries of the view in order, without gap or repeat, as far as
      following gets. */
  method Follow(c: Catalogue, matches: Id -> bool, size: int, application: nat -> seq<Id>, fits: (nat, Payload) -> bool)
    returns (visited: seq<Id>, outcome: Outcome)
    requires Ascending(c.ids)
    ensures Ascending(View(c.ids, matches))
    ensures var trip := Walk(c.fingerprint, View(c.ids, matches), size, application, fits, 0, 0);
            visited == View(c.ids, matches)[..trip.reached] && outcome == trip.outcome
  {
    hide View, Ascending, Compatible, KeptAt, PageAt, Walk, CursorAt;
    ghost var view := View(c.ids, matches);
    ViewIsTheMatches(c.ids, matches);
    ghost var trip := Walk(c.fingerprint, view, size, application, fits, 0, 0);
    var cursor: Option<Cursor> := None;
    var calls: nat := 0;
    ghost var start: nat := 0;
    visited := [];
    NoCursor(c.fingerprint, view);
    while true
      invariant start <= |view| && visited == view[..start] && cursor == CursorAt(c.fingerprint, view, start)
      invariant trip == Walk(c.fingerprint, view, size, application, fits, calls, start)
      decreases |view| - start
    {
      var page, given := ComposedPage(c, matches, size, cursor, application(calls), Budget(fits, calls), start);
      WalkTurn(c.fingerprint, view, size, application, fits, calls, start);
      if page.None? {
        return visited, Refusal;
      }
      if page.value.pending && given == [] {
        return visited, Stuck;
      }
      ghost var kept := KeptAt(c.fingerprint, view, size, start, application(calls), Budget(fits, calls));
      assert view[..start] + view[start..start + kept] == view[..start + kept];
      visited, cursor, calls, start := visited + given, page.value.next, calls + 1, start + kept;
      if cursor.None? {
        return visited, Complete;
      }
    }
  }

  lemma NoCursor(fingerprint: Fingerprint, view: seq<Id>)
    ensures forall start: nat | start <= |view| :: CursorAt(fingerprint, view, start) == None <==> start == 0
  {
  }

  /** One call of a walk. */
  lemma WalkTurn(fingerprint: Fingerprint, view: seq<Id>, size: int, application: nat -> seq<Id>, fits: (nat, Payload) -> bool,
                 n: nat, start: nat)
    requires Ascending(view) && start <= |view|
    ensures var trip := Walk(fingerprint, view, size, application, fits, n, start);
            if !(1 <= size <= 500) || !Compatible(application(n), PageAt(fingerprint, view, start, size).ids) then
              trip == Trip(start, Refusal)
            else
              var page := PageAt(fingerprint, view, start, size).ids;
              var kept := KeptAt(fingerprint, view, size, start, application(n), Budget(fits, n));
              if kept == 0 < |page| then trip == Trip(start, Stuck)
              else if start + kept == |view| then trip == Trip(|view|, Complete)
              else kept > 0 && trip == Walk(fingerprint, view, size, application, fits, n + 1, start + kept)
  {
    hide Ascending, Compatible, KeptAt, PageAt;
  }

  /** No cut of the page that keeps a launcher entry fits its budget. */
  predicate CutToNone(fingerprint: Fingerprint, view: seq<Id>, size: nat, start: nat, application: seq<Id>, fits: Payload -> bool)
    requires start <= |view| && size >= 1
  {
    var payload := Composed(fingerprint, view, size, start, application);
    forall k | 1 <= k <= |Owned(Launcher, payload.entries)| ::
      !fits(CutTo(payload, fingerprint, CursorAt(fingerprint, view, start), k))
  }

  /** Following is complete whenever the page size is in range, no identifiers collide and every page can be cut
      so as to keep a launcher entry. */
  lemma {:induction false} WalkCompletes(fingerprint: Fingerprint, view: seq<Id>, size: int, application: nat -> seq<Id>,
                                         fits: (nat, Payload) -> bool, n: nat, start: nat)
    requires Ascending(view) && start <= |view| && 1 <= size <= 500
    requires forall m :: Compatible(application(m), view)
    requires forall m: nat, from: nat | from < |view| :: !CutToNone(fingerprint, view, size, from, application(m), Budget(fits, m))
    ensures Walk(fingerprint, view, size, application, fits, n, start).outcome.Complete?
    decreases |view| - start
  {
    hide Compatible, Ascending, Owned, Sort, CutTo, PageAt, Walk;
    WalkTurn(fingerprint, view, size, application, fits, n, start);
    ComposedHolds(fingerprint, view, size, start, application(n));
    assert Compatible(application(n), view);
    PageIsCompatible(application(n), view, fingerprint, start, size);
    var kept := KeptAt(fingerprint, view, size, start, application(n), Budget(fits, n));
    if start < |view| {
      assert !CutToNone(fingerprint, view, size, start, application(n), Budget(fits, n));
      assert kept > 0;
      WalkCompletes(fingerprint, view, size, application, fits, n + 1, start + kept);
    }
  }

  /** It is stuck at once when the first page cannot: nothing is visited, and the page's cursor is null though
      every entry is still to come. */
  lemma StuckAtTheStart(fingerprint: Fingerprint, id: Id)
    ensures Walk(fingerprint, [id], 1, (n: nat) => [], (n: nat, p: Payload) => p.entries == [], 0, 0) == Trip(0, Stuck)
    ensures CutTo(Composed(fingerprint, [id], 1, 0, []), fingerprint, None, 0) == Payload([], None, true, true)
  {
    var payload := Composed(fingerprint, [id], 1, 0, []);
    var x := Item(id, Launcher);
    assert [id][0..1] == [id] && Items(Application, []) + Items(Launcher, [id]) == [x];
    assert Sort([x]) == Insert(x, Sort([][..])) == [x];
    OneOwned(x);
    assert KeepFirst([x], 0) == KeepFirst(DropLast([x]), 0);
    assert DropLast([x]) == [] && Owned(Launcher, []) == [];
  }

  lemma PageAscends(view: seq<Id>, fingerprint: Fingerprint, start: nat, size: nat)
    requires Ascending(view) && start <= |view| && size >= 1
    ensures Ascending(PageAt(fingerprint, view, start, size).ids)
  {
  }

  lemma NothingOwned()
    ensures Owned(Launcher, []) == []
  {
  }
}
