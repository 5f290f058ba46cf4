/** Every document is reachable from the root index through links of indexes. */
module DocsReachability {
  import opened Prelude

  type Path = string

  const ROOT: Path := "docs/README.md"

  const INDEX: string := "/README.md"

  predicate EndsWith(s: string, suffix: string) {
    |suffix| <= |s| && s[|s| - |suffix|..] == suffix
  }

  /** Documents whose links count. */
  predicate IsRouter(path: Path) {
    EndsWith(path, INDEX) || path == "docs/CHANGELOG.md"
  }

  /** The documents a link to a normalised path may mean: the path itself, or the index of that directory. */
  function Target(docs: set<Path>, link: Path): Option<Path> {
    if link in docs then Some(link) else if link + INDEX in docs then Some(link + INDEX) else None
  }

  function Targets(docs: set<Path>, links: seq<Path>): seq<Path> {
    if links == [] then []
    else
      (if Target(docs, links[0]).Some? then [Target(docs, links[0]).value] else []) + Targets(docs, links[1..])
  }

  /** A link leads to the document of its path, or else to the index in that directory. */
  predicate LeadsTo(docs: set<Path>, link: Path, target: Path) {
    target in docs && (target == link || (link !in docs && target == link + INDEX))
  }

  /** The targets are just what the links lead to. */
  lemma {:induction false} TargetsAreWhatLinksLeadTo(docs: set<Path>, links: seq<Path>, target: Path)
    ensures target in Targets(docs, links) <==> exists link | link in links :: LeadsTo(docs, link, target)
  {
    if links != [] {
      TargetsAreWhatLinksLeadTo(docs, links[1..], target);
      assert target in [links[0]] <==> target == links[0];
      assert links == [links[0]] + links[1..];
      assert LeadsTo(docs, links[0], target) <==> Target(docs, links[0]) == Some(target);
    }
  }

  /** A set of documents that holds the root and whatever its routers link to. */
  ghost predicate Closed(docs: set<Path>, links: Path -> seq<Path>, s: set<Path>) {
    ROOT in s && forall p, t | p in s && IsRouter(p) && t in Targets(docs, links(p)) :: t in s
  }

  lemma TargetsAreDocs(docs: set<Path>, links: seq<Path>)
    ensures forall t | t in Targets(docs, links) :: t in docs
  {
  }

  /** A chain of links from the root, each but the last document a router. */
  ghost predicate Chain(docs: set<Path>, links: Path -> seq<Path>, steps: seq<Path>) {
    && steps != [] && steps[0] == ROOT
    && forall k | 0 <= k < |steps| - 1 :: IsRouter(steps[k]) && steps[k + 1] in Targets(docs, links(steps[k]))
  }

  lemma {:induction false} ChainsStayInside(docs: set<Path>, links: Path -> seq<Path>, s: set<Path>, steps: seq<Path>)
    requires Closed(docs, links, s) && Chain(docs, links, steps)
    ensures steps[|steps| - 1] in s
    decreases steps
  {
    var n := |steps| - 1;
    if n > 0 {
      ChainsStayInside(docs, links, s, steps[..n]);
      assert steps[..n][n - 1] == steps[n - 1];
      assert IsRouter(steps[n - 1]) && steps[n - 1 + 1] in Targets(docs, links(steps[n - 1]));
    }
  }

  ghost predicate Linked(docs: set<Path>, links: Path -> seq<Path>, path: Path) {
    exists steps :: Chain(docs, links, steps) && steps[|steps| - 1] == path
  }

  lemma LinkOn(docs: set<Path>, links: Path -> seq<Path>, path: Path, next: Path)
    requires Linked(docs, links, path) && IsRouter(path) && next in Targets(docs, links(path))
    ensures Linked(docs, links, next)
  {
    hide IsRouter, Targets;
    var steps :| Chain(docs, links, steps) && steps[|steps| - 1] == path;
    var longer := steps + [next];
    forall k | 0 <= k < |longer| - 1
      ensures IsRouter(longer[k]) && longer[k + 1] in Targets(docs, links(longer[k]))
    {
      if k < |steps| - 1 {
        assert longer[k] == steps[k] && longer[k + 1] == steps[k + 1];
      }
    }
    assert Chain(docs, links, longer) && longer[|longer| - 1] == next;
  }

  datatype Report = NoRoot | Unreachable(paths: set<Path>)

  /** Halfway: what a visited router links to is visited or waiting, and a chain leads to all of either. */
  ghost predicate Exploring(docs: set<Path>, links: Path -> seq<Path>, visited: set<Path>, waiting: set<Path>) {
    && visited <= docs && waiting <= docs && ROOT in visited + waiting
    && (forall p, t | p in visited && IsRouter(p) && t in Targets(docs, links(p)) :: t in visited + waiting)
    && (forall p | p in visited + waiting :: Linked(docs, links, p))
  }

  lemma StartsExploring(docs: set<Path>, links: Path -> seq<Path>)
    requires ROOT in docs
    ensures Exploring(docs, links, {}, {ROOT})
  {
    assert Chain(docs, links, [ROOT]) && [ROOT][0] == ROOT;
    assert Linked(docs, links, ROOT);
  }

  /** Visiting a document: a router's targets are now visited or waiting. */
  lemma Visited(docs: set<Path>, links: Path -> seq<Path>, visited: set<Path>, waiting: set<Path>, current: Path, after: set<Path>)
    requires Exploring(docs, links, visited, waiting) && current in waiting
    requires waiting - {current} <= after
    requires forall p | p in after :: p in waiting || (IsRouter(current) && p in Targets(docs, links(current)))
    requires IsRouter(current) ==> forall t | t in Targets(docs, links(current)) :: t in visited + {current} + after
    ensures Exploring(docs, links, visited + {current}, after)
  {
    hide IsRouter, Targets, Linked;
    TargetsAreDocs(docs, links(current));
    forall p | p in after
      ensures Linked(docs, links, p)
    {
      if p !in waiting {
        LinkOn(docs, links, current, p);
      }
    }
    var now := visited + {current};
    forall p, t | p in now && IsRouter(p) && t in Targets(docs, links(p))
      ensures t in now + after
    {
      if p != current {
        assert t in visited + waiting;
      }
    }
    forall p | p in now + after
      ensures p in docs && Linked(docs, links, p)
    {
      assert p in after || p in visited + waiting;
    }
    assert ROOT in visited + waiting;
  }

  function Members(s: seq<Path>): set<Path> {
    set p | p in s
  }

  method Push(pending: seq<Path>, visited: set<Path>, targets: seq<Path>) returns (after: seq<Path>)
    ensures Members(pending) <= Members(after) <= Members(pending) + Members(targets)
    ensures forall t | t in targets :: t in visited || t in after
  {
    after := pending;
    for n := 0 to |targets|
      invariant Members(pending) <= Members(after) <= Members(pending) + Members(targets)
      invariant forall i | 0 <= i < n :: targets[i] in visited || targets[i] in after
    {
      if targets[n] !in visited {
        after := after + [targets[n]];
      }
    }
  }

  lemma Popped(pending: seq<Path>)
    requires pending != []
    ensures var n := |pending| - 1; Members(pending) == Members(pending[..n]) + {pending[n]}
  {
  }

  /** The documents no chain of links from the root reaches, whatever cycles the links have. */
  method ValidateDocsReachability(docs: set<Path>, links: Path -> seq<Path>) returns (report: Report, ghost reached: set<Path>)
    ensures report.NoRoot? <==> ROOT !in docs
    ensures report.Unreachable? ==>
              && report.paths == docs - reached && reached <= docs
              && Closed(docs, links, reached) && (forall p | p in reached :: Linked(docs, links, p))
              && (forall p :: p in report.paths <==> p in docs && !Linked(docs, links, p))
  {
    reached := {};
    if ROOT !in docs {
      return NoRoot, reached;
    }
    hide IsRouter, Targets, Linked;
    hide Exploring;
    var visited: set<Path>, pending := {}, [ROOT];
    StartsExploring(docs, links);
    assert Members(pending) == {ROOT};
    while pending != []
      invariant Exploring(docs, links, visited, Members(pending))
      decreases |docs - visited|, |pending|
    {
      visited, pending := Visit(docs, links, visited, pending);
    }
    AllVisited(docs, links, visited);
    ReachedIsLeast(docs, links, visited);
    reached := visited;
    report := Unreachable(docs - visited);
  }

  lemma AllVisited(docs: set<Path>, links: Path -> seq<Path>, visited: set<Path>)
    requires Exploring(docs, links, visited, {})
    ensures visited <= docs && Closed(docs, links, visited) && forall p | p in visited :: Linked(docs, links, p)
  {
  }

  /** Take the last waiting document. */
  method Visit(docs: set<Path>, links: Path -> seq<Path>, visited: set<Path>, pending: seq<Path>)
    returns (now: set<Path>, after: seq<Path>)
    requires pending != [] && Exploring(docs, links, visited, Members(pending))
    ensures Exploring(docs, links, now, Members(after))
    ensures (now == visited && |after| < |pending|) || |docs - now| < |docs - visited|
  {
    hide IsRouter, Targets, Linked;
    var current := pending[|pending| - 1];
    Popped(pending);
    now, after := visited, pending[..|pending| - 1];
    if current in visited {
      StillExploring(docs, links, visited, Members(pending), current, Members(after));
      return;
    }
    now := visited + {current};
    Fewer(docs, visited, current);
    if IsRouter(current) {
      after := Push(after, now, Targets(docs, links(current)));
    }
    Visited(docs, links, visited, Members(pending), current, Members(after));
  }

  lemma StillExploring(docs: set<Path>, links: Path -> seq<Path>, visited: set<Path>, waiting: set<Path>, current: Path, after: set<Path>)
    requires Exploring(docs, links, visited, waiting) && current in visited && waiting == after + {current}
    ensures Exploring(docs, links, visited, after)
  {
    hide IsRouter, Targets, Linked;
    assert visited + waiting == visited + after;
  }

  lemma Fewer(docs: set<Path>, visited: set<Path>, current: Path)
    requires current in docs && current !in visited
    ensures |docs - (visited + {current})| < |docs - visited|
  {
    assert docs - (visited + {current}) == (docs - visited) - {current};
  }

  /** What is reported is outside some closed set; what is not is inside every closed set. */
  lemma ReachedIsLeast(docs: set<Path>, links: Path -> seq<Path>, reached: set<Path>)
    requires Closed(docs, links, reached) && forall p | p in reached :: Linked(docs, links, p)
    ensures forall s | Closed(docs, links, s) :: reached <= s
    ensures forall p :: p in reached <==> Linked(docs, links, p)
  {
    forall s, p | Closed(docs, links, s) && Linked(docs, links, p)
      ensures p in s
    {
      var steps :| Chain(docs, links, steps) && steps[|steps| - 1] == p;
      ChainsStayInside(docs, links, s, steps);
    }
  }
}
