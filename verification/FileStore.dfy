/** Files on disk, changed by single replacements and removals that may fail. */
module FileStore {
  import opened Prelude

  function Put<C>(files: map<string, C>, path: string, content: Option<C>): map<string, C> {
    if content.Some? then files[path := content.value] else Without(files, path)
  }

  /** One change of the disk; `own` tells this program's changes from anyone else's. */
  datatype Event<C> = Event(own: bool, before: map<string, C>, after: map<string, C>)

  /** `events` records every state the disk goes through: a process that dies leaves
      one of these states behind. `mine` and `theirs` are the paths this program, and
      anyone else, has changed; `raises` counts the operations that raised. */
  class Store<C> {
    var files: map<string, C>
    ghost var events: seq<Event<C>>
    ghost var mine: set<string>
    ghost var theirs: set<string>
    ghost var raises: nat

    constructor (files: map<string, C>)
      ensures this.files == files && events == [] && mine == {} && theirs == {} && raises == 0
    {
      this.files := files;
      events, mine, theirs, raises := [], {}, {}, 0;
    }

    /** Something that touches none of these files: making a directory, reading a source, a hook. It may raise. */
    method Attempt() returns (raised: bool)
      modifies this`raises
      ensures raises == old(raises) + (if raised then 1 else 0)
    {
      raised := *;
      raises := raises + (if raised then 1 else 0);
    }

    /** Read one file; reading may raise. */
    method Read(path: string) returns (raised: bool, content: Option<C>)
      modifies this`raises
      ensures !raised ==> content == Lookup(files, path)
      ensures raises == old(raises) + (if raised then 1 else 0)
    {
      raised := *;
      raises := raises + (if raised then 1 else 0);
      content := Lookup(files, path);
    }

    /** Replace (or unlink) one file atomically. The call may raise before or after its effect. */
    method Set(path: string, content: Option<C>) returns (raised: bool)
      modifies this
      ensures files == Put(old(files), path, content) || (raised && files == old(files))
      ensures events == old(events) + [Event(true, old(files), files)]
      ensures mine == old(mine) + {path} && theirs == old(theirs)
      ensures raises == old(raises) + (if raised then 1 else 0)
    {
      raised := *;
      var early: bool := *;
      ghost var before := files;
      mine := mine + {path};
      if !raised || !early {
        files := Put(files, path, content);
      }
      raises := raises + (if raised then 1 else 0);
      events := events + [Event(true, before, files)];
    }

    /** Rename one path over another atomically; raises with no effect when there is no source. */
    method Rename(source: string, target: string) returns (raised: bool)
      requires source != target
      modifies this
      ensures source !in old(files) ==> raised && files == old(files)
      ensures source in old(files) ==>
                files == Without(old(files)[target := old(files)[source]], source) || (raised && files == old(files))
      ensures events == old(events) + [Event(true, old(files), files)]
      ensures mine == old(mine) + {source, target} && theirs == old(theirs)
      ensures raises == old(raises) + (if raised then 1 else 0)
    {
      raised := *;
      var early: bool := *;
      ghost var before := files;
      mine := mine + {source, target};
      if source !in files {
        raised := true;
      } else if !raised || !early {
        files := Without(files[target := files[source]], source);
      }
      raises := raises + (if raised then 1 else 0);
      events := events + [Event(true, before, files)];
    }

    /** Someone else changes some files. */
    method Interfere(others: map<string, C>)
      modifies this
      ensures files == others
      ensures events == old(events) + [Event(false, old(files), files)]
      ensures mine == old(mine) && old(theirs) <= theirs && raises == old(raises)
      ensures forall p | p !in theirs :: Lookup(files, p) == Lookup(old(files), p)
      ensures forall p | p in theirs && p !in old(theirs) :: Lookup(files, p) != Lookup(old(files), p)
    {
      theirs := theirs + (set p | p in files.Keys + others.Keys && Lookup(files, p) != Lookup(others, p));
      events := events + [Event(false, files, others)];
      files := others;
    }
  }
}
