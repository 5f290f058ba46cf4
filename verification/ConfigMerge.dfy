/**
 Layered configuration: template, vault and local files merged into one, by rules
 that depend on the kind of value at each path.
 */
module ConfigMerge {
  import opened Prelude

  datatype Tree =
    | Nothing
    | Flag(truth: bool)
    | Scalar(text: string)
    | Items(items: seq<string>)
    | Node(entries: map<string, Tree>)

  type Path = seq<string>

  /** Where the overlay replaces whatever was there. */
  predicate Pinned(path: Path) {
    path == ["access", "initial"] || path == ["access", "overrides"]
  }

  /** The first of each, in order. */
  function Dedupe(items: seq<string>): seq<string> {
    if items == [] then []
    else
      var n := |items| - 1;
      var kept := Dedupe(items[..n]);
      if items[n] in kept then kept else kept + [items[n]]
  }

  /** An overlay's value laid over a base's at a path. */
  function Merge(path: Path, base: Tree, overlay: Tree): Tree
    decreases overlay
  {
    if Pinned(path) then overlay
    else
      match (base, overlay)
      case (Node(x), Node(y)) =>
        Node(map k | k in x.Keys + y.Keys ::
               if k !in y then x[k] else if k !in x then y[k] else Merge(path + [k], x[k], y[k]))
      case (Items(a), Items(b)) => Items(Dedupe(a + b))
      case (Flag(a), Flag(b)) => Flag(a || b)
      case _ => overlay
  }

  /** What a path holds after a merge, given what it held in each layer. */
  function Entry(path: Path, base: Option<Tree>, overlay: Option<Tree>): Option<Tree> {
    if overlay.None? then base else if base.None? then overlay else Some(Merge(path, base.value, overlay.value))
  }

  function Child(t: Tree, key: string): Option<Tree> {
    if t.Node? then Lookup(t.entries, key) else None
  }

  const EMPTY: Tree := Node(map[])

  // ---------------------------------------------------------------------
  // Lists
  // ---------------------------------------------------------------------

  predicate Unrepeated(items: seq<string>) {
    forall i, j | 0 <= i < j < |items| :: items[i] != items[j]
  }

  lemma {:induction false} DedupeHolds(items: seq<string>)
    ensures Unrepeated(Dedupe(items)) && (forall x :: x in Dedupe(items) <==> x in items)
    ensures Unrepeated(items) <==> Dedupe(items) == items
  {
    if items != [] {
      var n := |items| - 1;
      DedupeHolds(items[..n]);
      assert items == items[..n] + [items[n]];
      if Dedupe(items) == items {
        assert |Dedupe(items[..n])| <= n;
        assert Dedupe(items[..n]) == items[..n];
      }
    }
  }

  /** Deduplicating a part first changes nothing. */
  lemma {:induction false} DedupeLeft(a: seq<string>, b: seq<string>)
    ensures Dedupe(Dedupe(a) + b) == Dedupe(a + b)
    decreases b
  {
    if b == [] {
      DedupeHolds(a);
      DedupeHolds(Dedupe(a));
      assert Dedupe(a) + b == Dedupe(a) && a + b == a;
    } else {
      var n := |b| - 1;
      DedupeLeft(a, b[..n]);
      assert (Dedupe(a) + b)[..|Dedupe(a)| + n] == Dedupe(a) + b[..n];
      assert (a + b)[..|a| + n] == a + b[..n];
    }
  }

  lemma {:induction false} DedupeRight(a: seq<string>, b: seq<string>)
    ensures Dedupe(a + Dedupe(b)) == Dedupe(a + b)
    decreases b
  {
    hide Dedupe;
    if b == [] {
      assert Dedupe(b) == b by {
        DedupeHolds(b);
      }
    } else {
      var before, x := b[..|b| - 1], b[|b| - 1];
      DedupeRight(a, before);
      OneMoreRight(a, before, x);
      assert before + [x] == b;
    }
  }

  lemma OneMoreRight(a: seq<string>, b: seq<string>, x: string)
    requires Dedupe(a + Dedupe(b)) == Dedupe(a + b)
    ensures Dedupe(a + Dedupe(b + [x])) == Dedupe(a + (b + [x]))
  {
    hide Dedupe;
    var kept := Dedupe(b);
    DedupeOneMore(b, x);
    DedupeOneMore(a + b, x);
    DedupeMember(b, x);
    DedupeMember(a + b, x);
    assert a + b + [x] == a + (b + [x]);
    if x !in kept {
      DedupeOneMore(a + kept, x);
      assert a + kept + [x] == a + (kept + [x]);
    }
  }

  lemma DedupeMember(items: seq<string>, x: string)
    ensures x in Dedupe(items) <==> x in items
  {
    DedupeHolds(items);
  }

  lemma DedupeOneMore(items: seq<string>, x: string)
    ensures Dedupe(items + [x]) == if x in Dedupe(items) then Dedupe(items) else Dedupe(items) + [x]
  {
    assert (items + [x])[..|items|] == items;
  }

  // ---------------------------------------------------------------------
  // The algebra
  // ---------------------------------------------------------------------

  lemma MergeNodes(path: Path, a: Tree, b: Tree)
    requires a.Node? && b.Node? && !Pinned(path)
    ensures Merge(path, a, b).Node?
    ensures forall k :: Child(Merge(path, a, b), k) == Entry(path + [k], Child(a, k), Child(b, k))
  {
  }

  lemma SameChildren(a: Tree, b: Tree)
    requires a.Node? && b.Node? && forall k :: Child(a, k) == Child(b, k)
    ensures a == b
  {
    forall k
      ensures k in a.entries <==> k in b.entries
      ensures k in a.entries ==> a.entries[k] == b.entries[k]
    {
      assert Child(a, k) == Child(b, k);
    }
    assert a.entries == b.entries;
  }

  /** The empty layer changes nothing on either side. */
  lemma EmptyIsIdentity(path: Path, t: Tree)
    requires t.Node? && !Pinned(path)
    ensures Merge(path, EMPTY, t) == t && Merge(path, t, EMPTY) == t
  {
  }

  predicate SameKind(a: Tree, b: Tree) {
    match a
    case Node(_) => b.Node?
    case Items(_) => b.Items?
    case Flag(_) => b.Flag?
    case _ => b.Nothing? || b.Scalar?
  }

  /** Wherever the middle layer is of another kind than two outer ones alike, the first of them adds nothing to the last. */
  predicate Fits(path: Path, a: Tree, b: Tree, c: Tree)
    decreases c
  {
    || Pinned(path)
    || if SameKind(a, b) && SameKind(b, c) then
         a.Node? ==> forall k | k in a.entries && k in b.entries && k in c.entries ::
                       Fits(path + [k], a.entries[k], b.entries[k], c.entries[k])
       else SameKind(a, c) ==> AddsNothing(path, a, c)
  }

  /** Nothing of `a` shows once `c` is laid over it: `c` has its keys and set flags, and starts its lists with `a`'s entries. */
  predicate AddsNothing(path: Path, a: Tree, c: Tree)
    decreases c
  {
    || Pinned(path)
    || match (a, c)
       case (Node(x), Node(y)) => forall k | k in x :: k in y && AddsNothing(path + [k], x[k], y[k])
       case (Items(x), Items(y)) => Dedupe(x) <= y && Unrepeated(y)
       case (Flag(x), Flag(y)) => x ==> y
       case _ => true
  }

  /** Laying `c` over `a` gives `c` exactly when `a` adds nothing. */
  lemma {:induction false} AddsNothingIff(path: Path, a: Tree, c: Tree)
    ensures Merge(path, a, c) == c <==> AddsNothing(path, a, c)
    decreases c
  {
    if !Pinned(path) {
      match (a, c)
      case (Node(x), Node(y)) =>
        forall k | k in x && k in y
          ensures Merge(path + [k], x[k], y[k]) == y[k] <==> AddsNothing(path + [k], x[k], y[k])
        {
          AddsNothingIff(path + [k], x[k], y[k]);
        }
        MergeNodes(path, a, c);
        assert forall k | k in x && k in y :: Child(Merge(path, a, c), k) == Some(Merge(path + [k], x[k], y[k]));
        if AddsNothing(path, a, c) {
          SameChildren(Merge(path, a, c), c);
        } else {
          var k :| k in x && !(k in y && AddsNothing(path + [k], x[k], y[k]));
          assert Child(Merge(path, a, c), k) != Child(c, k);
        }
      case (Items(x), Items(y)) => UnionIsTheSecondIff(x, y);
      case _ =>
    }
  }

  lemma UnionIsTheSecondIff(x: seq<string>, y: seq<string>)
    ensures Dedupe(x + y) == y <==> Dedupe(x) <= y && Unrepeated(y)
  {
    hide Dedupe;
    DedupeHolds(x + y);
    DedupeExtends(x, y);
    if Dedupe(x) <= y && Unrepeated(y) {
      var first := Dedupe(x);
      var rest := y[|first|..];
      DedupeHolds(x);
      DedupeHolds(first);
      DedupeHolds(y);
      SelfUnion(first);
      DedupeLeft(x, y);
      DedupeLeft(first + first, rest);
      assert first + y == first + first + rest && first + rest == y;
    }
  }

  lemma {:induction false} DedupeExtends(x: seq<string>, y: seq<string>)
    ensures Dedupe(x) <= Dedupe(x + y)
    decreases y
  {
    if y == [] {
      assert x + y == x;
    } else {
      var n := |y| - 1;
      DedupeExtends(x, y[..n]);
      assert (x + y)[..|x| + n] == x + y[..n];
    }
  }

  lemma ListsAssociate(path: Path, a: seq<string>, b: seq<string>, c: seq<string>)
    requires !Pinned(path)
    ensures Associates(path, Items(a), Items(b), Items(c))
  {
    hide Dedupe;
    DedupeLeft(a + b, c);
    DedupeRight(a, b + c);
    assert a + b + c == a + (b + c);
  }

  lemma LeavesAssociate(path: Path, a: Tree, b: Tree, c: Tree)
    requires !(a.Node? && b.Node? && c.Node?) && !Pinned(path)
    ensures Associates(path, a, b, c) <==> Fits(path, a, b, c)
  {
    hide Dedupe;
    AddsNothingIff(path, a, c);
    if a.Items? && b.Items? && c.Items? {
      ListsAssociate(path, a.items, b.items, c.items);
    } else if !SameKind(b, c) {
      assert Merge(path, b, c) == c;
      if !SameKind(a, b) {
        assert Merge(path, a, b) == b;
      }
    }
  }

  /** Merging is associative exactly on layers that fit. */
  lemma {:induction false} MergeIsAssociativeIff(path: Path, a: Tree, b: Tree, c: Tree)
    ensures Merge(path, Merge(path, a, b), c) == Merge(path, a, Merge(path, b, c)) <==> Fits(path, a, b, c)
    decreases c
  {
    hide Merge;
    if a.Node? && b.Node? && c.Node? && !Pinned(path) {
      forall k | k in a.entries && k in b.entries && k in c.entries
        ensures Associates(path + [k], a.entries[k], b.entries[k], c.entries[k])
                <==> Fits(path + [k], a.entries[k], b.entries[k], c.entries[k])
      {
        MergeIsAssociativeIff(path + [k], a.entries[k], b.entries[k], c.entries[k]);
      }
      NodesAssociate(path, a, b, c);
    } else {
      PinnedReplaces(path, a, b, c);
      if !Pinned(path) {
        LeavesAssociate(path, a, b, c);
      }
    }
  }

  ghost predicate Associates(path: Path, a: Tree, b: Tree, c: Tree) {
    Merge(path, Merge(path, a, b), c) == Merge(path, a, Merge(path, b, c))
  }

  lemma PinnedReplaces(path: Path, a: Tree, b: Tree, c: Tree)
    ensures Pinned(path) ==> Associates(path, a, b, c)
  {
  }

  lemma NodesAssociate(path: Path, a: Tree, b: Tree, c: Tree)
    requires a.Node? && b.Node? && c.Node? && !Pinned(path)
    ensures Associates(path, a, b, c) <==>
              forall k | k in a.entries && k in b.entries && k in c.entries ::
                Associates(path + [k], a.entries[k], b.entries[k], c.entries[k])
  {
    hide Merge;
    MergeNodes(path, a, b);
    MergeNodes(path, b, c);
    var left, right := Merge(path, Merge(path, a, b), c), Merge(path, a, Merge(path, b, c));
    MergeNodes(path, Merge(path, a, b), c);
    MergeNodes(path, a, Merge(path, b, c));
    forall k
      ensures Child(left, k) == Child(right, k) <==>
                (k in a.entries && k in b.entries && k in c.entries ==>
                   Associates(path + [k], a.entries[k], b.entries[k], c.entries[k]))
    {
    }
    if forall k | k in a.entries && k in b.entries && k in c.entries ::
         Associates(path + [k], a.entries[k], b.entries[k], c.entries[k]) {
      SameChildren(left, right);
    }
  }

  /** A list, a scalar over it, a list over that: in one order the first list is gone, in the other it is joined in. */
  lemma MergeIsNotAlwaysAssociative()
    ensures var a, b, c := Items(["x"]), Scalar("s"), Items(["y"]);
            && Merge(["k"], Merge(["k"], a, b), c) == Items(["y"])
            && Merge(["k"], a, Merge(["k"], b, c)) == Items(["x", "y"])
  {
    assert |["k"]| == 1;
    assert ["x"] + ["y"] == ["x", "y"] && ["x", "y"][..1] == ["x"] && ["x"][..0] == [];
    assert Dedupe(["x"]) == ["x"];
    assert "x"[0] != "y"[0];
  }

  /** Two layers agree on the kind of value at every path both have. */
  predicate Alike(path: Path, a: Tree, b: Tree)
    decreases b
  {
    || Pinned(path)
    || (SameKind(a, b)
        && (a.Node? ==> forall k | k in a.entries && k in b.entries :: Alike(path + [k], a.entries[k], b.entries[k])))
  }

  /** Layers of which the first two, or the last two, agree on kinds always fit. */
  lemma {:induction false} AlikeLayersFit(path: Path, a: Tree, b: Tree, c: Tree)
    requires Alike(path, a, b) || Alike(path, b, c)
    ensures Fits(path, a, b, c)
    decreases c
  {
    if !Pinned(path) && SameKind(a, b) && SameKind(b, c) && a.Node? {
      forall k | k in a.entries && k in b.entries && k in c.entries
        ensures Fits(path + [k], a.entries[k], b.entries[k], c.entries[k])
      {
        AlikeLayersFit(path + [k], a.entries[k], b.entries[k], c.entries[k]);
      }
    }
  }

  /** On layers that agree on kinds merging is associative. */
  lemma MergeIsAssociative(path: Path, a: Tree, b: Tree, c: Tree)
    requires Alike(path, a, b) || Alike(path, b, c)
    ensures Merge(path, Merge(path, a, b), c) == Merge(path, a, Merge(path, b, c))
  {
    AlikeLayersFit(path, a, b, c);
    MergeIsAssociativeIff(path, a, b, c);
  }

  /** No list repeats an entry, outside the places that are replaced whole. */
  predicate ListsUnrepeated(path: Path, t: Tree)
    decreases t
  {
    || Pinned(path)
    || match t
       case Items(items) => Unrepeated(items)
       case Node(entries) => forall k | k in entries :: ListsUnrepeated(path + [k], entries[k])
       case _ => true
  }

  /** Merging a layer with itself gives it back exactly when its lists repeat nothing. */
  lemma {:induction false} MergeIsIdempotentIff(path: Path, t: Tree)
    ensures Merge(path, t, t) == t <==> ListsUnrepeated(path, t)
    decreases t
  {
    if !Pinned(path) {
      match t
      case Items(items) =>
        DedupeHolds(items);
        DedupeLeft(items, items);
        SelfUnion(items);
      case Node(entries) =>
        forall k | k in entries
          ensures Merge(path + [k], entries[k], entries[k]) == entries[k] <==> ListsUnrepeated(path + [k], entries[k])
        {
          MergeIsIdempotentIff(path + [k], entries[k]);
        }
        MergeNodes(path, t, t);
        assert forall k | k in entries :: Child(Merge(path, t, t), k) == Some(Merge(path + [k], entries[k], entries[k]));
        if ListsUnrepeated(path, t) {
          SameChildren(Merge(path, t, t), t);
        }
      case _ =>
    }
  }

  lemma SelfUnion(items: seq<string>)
    ensures Dedupe(items + items) == Dedupe(items)
  {
    OldAddsNothing(items, items);
  }

  lemma {:induction false} OldAddsNothing(items: seq<string>, seen: seq<string>)
    requires forall x | x in seen :: x in items
    ensures Dedupe(items + seen) == Dedupe(items)
    decreases seen
  {
    if seen == [] {
      assert items + seen == items;
    } else {
      var n := |seen| - 1;
      OldAddsNothing(items, seen[..n]);
      assert (items + seen)[..|items| + n] == items + seen[..n];
      DedupeHolds(items);
      assert seen[n] in items;
    }
  }

  lemma {:induction false} AlikeItself(path: Path, t: Tree)
    ensures Alike(path, t, t)
    decreases t
  {
    if t.Node? {
      forall k | k in t.entries
        ensures Alike(path + [k], t.entries[k], t.entries[k])
      {
        AlikeItself(path + [k], t.entries[k]);
      }
    }
  }

  /** Applying a layer a second time changes nothing, when its lists repeat nothing. */
  lemma MergingAgainChangesNothing(path: Path, base: Tree, layer: Tree)
    requires ListsUnrepeated(path, layer)
    ensures Merge(path, Merge(path, base, layer), layer) == Merge(path, base, layer)
  {
    AlikeItself(path, layer);
    MergeIsAssociative(path, base, layer, layer);
    MergeIsIdempotentIff(path, layer);
  }

  // ---------------------------------------------------------------------
  // What the merge holds at a path
  // ---------------------------------------------------------------------

  /** What a layer holds at a path. */
  function Walk(t: Option<Tree>, path: Path): Option<Tree>
    decreases |path|
  {
    if path == [] || t.None? then t else Walk(Child(t.value, path[0]), path[1..])
  }

  /** A layer goes as far as the path through mappings, none of them replaced whole, or stops short of it. */
  predicate Reaches(at: Path, t: Option<Tree>, path: Path)
    decreases |path|
  {
    path == [] || (!Pinned(at) && (t.None? || (t.value.Node? && Reaches(at + [path[0]], Child(t.value, path[0]), path[1..]))))
  }

  /** A merge holds at a path the merge of what its layers hold there. */
  lemma {:induction false} MergedAtPath(at: Path, a: Option<Tree>, b: Option<Tree>, path: Path)
    requires Reaches(at, a, path) && Reaches(at, b, path)
    ensures Reaches(at, Entry(at, a, b), path)
    ensures Walk(Entry(at, a, b), path) == Entry(at + path, Walk(a, path), Walk(b, path))
    decreases |path|
  {
    hide Merge;
    if path == [] {
      assert at + path == at;
    } else if a.Some? && b.Some? {
      var k := path[0];
      MergeNodes(at, a.value, b.value);
      MergedAtPath(at + [k], Child(a.value, k), Child(b.value, k), path[1..]);
      assert at + [k] + path[1..] == at + path;
    } else {
      NoneReaches(path[1..]);
    }
  }

  lemma NoneReaches(path: Path)
    ensures Walk(None, path) == None
  {
  }

  /** Three layers folded in order. */
  function Fold(a: Tree, b: Tree, c: Tree): Tree {
    Merge([], Merge([], a, b), c)
  }

  lemma FoldAtPath(a: Tree, b: Tree, c: Tree, path: Path)
    requires Reaches([], Some(a), path) && Reaches([], Some(b), path) && Reaches([], Some(c), path)
    ensures Walk(Some(Fold(a, b, c)), path)
            == Entry(path, Entry(path, Walk(Some(a), path), Walk(Some(b), path)), Walk(Some(c), path))
  {
    hide Merge;
    MergedAtPath([], Some(a), Some(b), path);
    MergedAtPath([], Some(Merge([], a, b)), Some(c), path);
    assert [] + path == path;
  }

  function TruthAt(t: Option<Tree>): bool {
    t.Some? && t.value.Flag? && t.value.truth
  }

  function ItemsAt(t: Option<Tree>): seq<string> {
    if t.Some? && t.value.Items? then t.value.items else []
  }

  /** What three layers that agree on a path give there: the or of booleans, the union of lists in order,
      the last scalar. A last layer of another kind than the others wins, and at a pinned path the last layer
      to say anything. */
  lemma ThreeLayersAtPath(a: Tree, b: Tree, c: Tree, path: Path)
    requires Reaches([], Some(a), path) && Reaches([], Some(b), path) && Reaches([], Some(c), path)
    ensures var x, y, z := Walk(Some(a), path), Walk(Some(b), path), Walk(Some(c), path);
            var result := Walk(Some(Fold(a, b, c)), path);
            var all := [x, y, z];
            && (result.None? <==> x.None? && y.None? && z.None?)
            && (Pinned(path) || (forall t | t in all && t.Some? :: t.value.Scalar?) ==>
                  result == if z.Some? then z else if y.Some? then y else x)
            && (z.Some? && (forall t | t in [x, y] && t.Some? :: !SameKind(t.value, z.value)) ==> result == z)
            && (!Pinned(path) && result.Some? && (forall t | t in all && t.Some? :: t.value.Flag?) ==>
                  result == Some(Flag(TruthAt(x) || TruthAt(y) || TruthAt(z))))
            && (!Pinned(path) && result.Some? && (forall t | t in all && t.Some? :: t.value.Items? && Unrepeated(t.value.items)) ==>
                  result == Some(Items(Dedupe(ItemsAt(x) + ItemsAt(y) + ItemsAt(z)))))
  {
    hide Reaches, Walk, Fold, Dedupe, Unrepeated;
    FoldAtPath(a, b, c, path);
    var x, y, z := Walk(Some(a), path), Walk(Some(b), path), Walk(Some(c), path);
    var all := [x, y, z];
    assert x in all && y in all && z in all && x in [x, y] && y in [x, y];
    if !Pinned(path) && (x.Some? || y.Some? || z.Some?)
       && forall t | t in all && t.Some? :: t.value.Items? && Unrepeated(t.value.items) {
      ThreeLists(path, x, y, z);
    }
  }

  predicate ListOrNone(t: Option<Tree>) {
    t.Some? ==> t.value.Items? && Unrepeated(t.value.items)
  }

  lemma TwoLists(path: Path, x: Option<Tree>, y: Option<Tree>)
    requires !Pinned(path) && ListOrNone(x) && ListOrNone(y) && (x.Some? || y.Some?)
    ensures Entry(path, x, y) == Some(Items(Dedupe(ItemsAt(x) + ItemsAt(y)))) && ListOrNone(Entry(path, x, y))
  {
    hide Dedupe, Unrepeated;
    DedupeHolds(ItemsAt(x));
    DedupeHolds(ItemsAt(y));
    DedupeHolds(ItemsAt(x) + ItemsAt(y));
    if x.None? {
      assert ItemsAt(x) + ItemsAt(y) == ItemsAt(y);
    } else if y.None? {
      assert ItemsAt(x) + ItemsAt(y) == ItemsAt(x);
    } else {
      assert Merge(path, x.value, y.value) == Items(Dedupe(x.value.items + y.value.items));
    }
  }

  lemma ThreeLists(path: Path, x: Option<Tree>, y: Option<Tree>, z: Option<Tree>)
    requires !Pinned(path) && ListOrNone(x) && ListOrNone(y) && ListOrNone(z) && (x.Some? || y.Some? || z.Some?)
    ensures Entry(path, Entry(path, x, y), z) == Some(Items(Dedupe(ItemsAt(x) + ItemsAt(y) + ItemsAt(z))))
  {
    hide Dedupe, Unrepeated, Merge;
    if x.Some? || y.Some? {
      TwoLists(path, x, y);
    } else {
      assert ItemsAt(x) + ItemsAt(y) == ItemsAt(Entry(path, x, y));
    }
    TwoLists(path, Entry(path, x, y), z);
    DedupeLeft(ItemsAt(x) + ItemsAt(y), ItemsAt(z));
    assert ItemsAt(x) + ItemsAt(y) + ItemsAt(z) == (ItemsAt(x) + ItemsAt(y)) + ItemsAt(z);
  }

  // ---------------------------------------------------------------------
  // The program
  // ---------------------------------------------------------------------

  /** Lay one mapping over another in place, key by key. */
  method MergeDefaults(path: Path, base: Tree, overlay: Tree) returns (merged: Tree)
    requires base.Node? && overlay.Node? && !Pinned(path)
    ensures merged == Merge(path, base, overlay)
    decreases overlay, 0
  {
    hide Merge;
    MergeNodes(path, base, overlay);
    var result, todo := base.entries, overlay.entries.Keys;
    while todo != {}
      invariant todo <= overlay.entries.Keys
      invariant forall k :: Lookup(result, k) == if k in todo then Child(base, k) else Child(Merge(path, base, overlay), k)
    {
      var key :| key in todo;
      var value;
      if key in result {
        value := MergeValue(path + [key], result[key], overlay.entries[key]);
      } else {
        value := overlay.entries[key];
      }
      todo, result := todo - {key}, result[key := value];
    }
    merged := Node(result);
    SameChildren(merged, Merge(path, base, overlay));
  }

  /** What one key holds after the overlay, when the base had a value there. */
  method MergeValue(path: Path, base: Tree, overlay: Tree) returns (value: Tree)
    ensures value == Merge(path, base, overlay)
    decreases overlay, 1
  {
    if Pinned(path) {
      value := overlay;
    } else if base.Node? && overlay.Node? {
      value := MergeDefaults(path, base, overlay);
    } else if base.Items? && overlay.Items? {
      var items := Union(base.items, overlay.items);
      value := Items(items);
    } else if base.Flag? && overlay.Flag? {
      value := Flag(base.truth || overlay.truth);
    } else {
      value := overlay;
    }
  }

  method Union(a: seq<string>, b: seq<string>) returns (merged: seq<string>)
    ensures merged == Dedupe(a + b)
  {
    var all, seen := a + b, {};
    merged := [];
    for n := 0 to |all|
      invariant merged == Dedupe(all[..n]) && forall x :: x in seen <==> x in all[..n]
    {
      assert all[..n + 1][..n] == all[..n] && all[..n + 1] == all[..n] + [all[n]];
      DedupeHolds(all[..n]);
      if all[n] !in seen {
        seen, merged := seen + {all[n]}, merged + [all[n]];
      }
    }
    assert all[..|all|] == all;
  }

  // ---------------------------------------------------------------------
  // The two zones
  // ---------------------------------------------------------------------

  /** The overlay wins, except that mappings merge. */
  function Override(base: Tree, overlay: Tree): Tree
    decreases overlay
  {
    match (base, overlay)
    case (Node(x), Node(y)) =>
      Node(map k | k in x.Keys + y.Keys ::
             if k !in y then x[k] else if k !in x then y[k] else Override(x[k], y[k]))
    case _ => overlay
  }

  method DeepMerge(base: Tree, overlay: Tree) returns (merged: Tree)
    requires base.Node? && overlay.Node?
    ensures merged == Override(base, overlay)
    decreases overlay
  {
    var result, todo := base.entries, overlay.entries.Keys;
    while todo != {}
      invariant todo <= overlay.entries.Keys
      invariant forall k :: Lookup(result, k) == if k in todo then Child(base, k) else Child(Override(base, overlay), k)
    {
      var key :| key in todo;
      var value := overlay.entries[key];
      if key in result && result[key].Node? && value.Node? {
        value := DeepMerge(result[key], value);
      }
      todo, result := todo - {key}, result[key := value];
    }
    merged := Node(result);
    SameChildren(merged, Override(base, overlay));
  }

  /** A zone of a file: absent or null is empty, anything but a mapping is refused. */
  function Zone(file: Tree, key: string): Option<Tree> {
    match Child(file, key)
    case None => Some(EMPTY)
    case Some(Nothing) => Some(EMPTY)
    case Some(Node(entries)) => Some(Node(entries))
    case _ => None
  }

  datatype Config = Config(vault: Tree, defaults: Tree)

  /** The vault zone is shared: template, then vault. The defaults zone is layered over all three files. */
  method MergeConfig(template: Tree, vault: Tree, personal: Tree) returns (config: Option<Config>)
    ensures config.None? <==>
              Zone(template, "vault").None? || Zone(vault, "vault").None? || Zone(template, "defaults").None?
              || Zone(vault, "defaults").None? || Zone(personal, "defaults").None?
    ensures config.Some? ==>
              && config.value.vault == Override(Zone(template, "vault").value, Zone(vault, "vault").value)
              && config.value.defaults
                 == Fold(Zone(template, "defaults").value, Zone(vault, "defaults").value, Zone(personal, "defaults").value)
  {
    var baseVault, vaultOverlay := Zone(template, "vault"), Zone(vault, "vault");
    if baseVault.None? || vaultOverlay.None? {
      return None;
    }
    var shared := DeepMerge(baseVault.value, vaultOverlay.value);
    var baseDefaults, vaultDefaults, localDefaults :=
      Zone(template, "defaults"), Zone(vault, "defaults"), Zone(personal, "defaults");
    if baseDefaults.None? || vaultDefaults.None? || localDefaults.None? {
      return None;
    }
    var defaults := MergeDefaults([], baseDefaults.value, vaultDefaults.value);
    MergeNodes([], baseDefaults.value, vaultDefaults.value);
    defaults := MergeDefaults([], defaults, localDefaults.value);
    config := Some(Config(shared, defaults));
  }

  /** Overriding holds at a path the overlay's value if it has a leaf there, and the base's where it stops short. */
  lemma {:induction false} OverrideAtPath(base: Tree, overlay: Tree, path: Path)
    requires Walk(Some(overlay), path).Some? && !Walk(Some(overlay), path).value.Node?
    ensures Walk(Some(Override(base, overlay)), path) == Walk(Some(overlay), path)
    decreases |path|
  {
    if path != [] && base.Node? && overlay.Node? {
      var k := path[0];
      assert Child(Override(base, overlay), k)
             == if k in base.entries then Some(Override(base.entries[k], overlay.entries[k])) else Child(overlay, k);
      if k in base.entries {
        OverrideAtPath(base.entries[k], overlay.entries[k], path[1..]);
      }
    }
  }

  /** Wherever the overlay says nothing, on the way down to a path or there, the base's value stays. */
  lemma {:induction false} OverrideKeepsTheRest(base: Tree, overlay: Tree, path: Path)
    requires Walk(Some(overlay), path).None?
    requires forall n | 0 <= n < |path| && Walk(Some(overlay), path[..n]).Some? :: Walk(Some(overlay), path[..n]).value.Node?
    ensures Walk(Some(Override(base, overlay)), path) == Walk(Some(base), path)
    decreases |path|
  {
    assert path != [] && Walk(Some(overlay), path[..0]) == Some(overlay);
    var k := path[0];
    if base.Node? {
      assert Child(Override(base, overlay), k)
             == if k !in overlay.entries then Child(base, k)
                else if k in base.entries then Some(Override(base.entries[k], overlay.entries[k])) else Child(overlay, k);
      if k in overlay.entries && k in base.entries {
        forall n | 0 <= n < |path[1..]| && Walk(Some(overlay.entries[k]), path[1..][..n]).Some?
          ensures Walk(Some(overlay.entries[k]), path[1..][..n]).value.Node?
        {
          assert path[..n + 1][1..] == path[1..][..n] && path[..n + 1][0] == k;
          assert Walk(Some(overlay), path[..n + 1]) == Walk(Some(overlay.entries[k]), path[1..][..n]);
        }
        OverrideKeepsTheRest(base.entries[k], overlay.entries[k], path[1..]);
      } else if k in overlay.entries {
        WalkNowhere(path[1..]);
      }
    } else {
      WalkNowhere(path[1..]);
    }
  }

  lemma WalkNowhere(path: Path)
    ensures Walk(None, path) == None
  {
  }
}
