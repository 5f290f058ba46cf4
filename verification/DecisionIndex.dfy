/** Decision records are numbered in sequence and match the rows of their index one to one. */
module DecisionIndex {
  import opened Prelude

  type Path = string

  /** A decision's number and where it is. */
  datatype Entry = Entry(number: nat, path: Path)

  /** A row of the chronological table: its number, its link's number, the number in the linked file's name. */
  datatype Row = Malformed | Row(number: nat, linked: nat, inPath: nat, path: Path)

  datatype Problem =
    | BadName(path: Path)
    | Shared(number: nat)
    | Gap(number: nat)
    | NoIndex
    | BadRow
    | Disagrees(row: Row)
    | ManyRows(number: nat)
    | NoFile(number: nat)
    | NoRow(number: nat)
    | Mismatch(number: nat)

  /** The files whose names carry a number. */
  function Files(files: seq<Path>, numberOf: Path -> Option<nat>): seq<Entry> {
    if files == [] then []
    else
      var n := |files| - 1;
      Files(files[..n], numberOf) + (if numberOf(files[n]).Some? then [Entry(numberOf(files[n]).value, files[n])] else [])
  }

  /** The rows that can be read, under the number in their first cell. */
  function Rows(rows: seq<Row>): seq<Entry> {
    if rows == [] then []
    else
      var n := |rows| - 1;
      Rows(rows[..n]) + (if rows[n].Row? then [Entry(rows[n].number, rows[n].path)] else [])
  }

  /** The paths entered under a number, in order. */
  function Under(entries: seq<Entry>, number: nat): seq<Path> {
    if entries == [] then []
    else
      var n := |entries| - 1;
      Under(entries[..n], number) + (if entries[n].number == number then [entries[n].path] else [])
  }

  predicate Consistent(row: Row) {
    row.Row? ==> row.number == row.linked == row.inPath
  }

  // ---------------------------------------------------------------------
  // What is wrong
  // ---------------------------------------------------------------------

  predicate WrongFiles(files: seq<Path>, numberOf: Path -> Option<nat>, problem: Problem) {
    var entries := Files(files, numberOf);
    match problem
    case BadName(path) => path in files && numberOf(path).None?
    case Shared(number) => |Under(entries, number)| > 1
    case Gap(number) => 1 <= number && Under(entries, number) == [] && NotLast(entries, number)
    case _ => false
  }

  /** Some entry has this number or a later one. */
  predicate NotLast(entries: seq<Entry>, number: nat) {
    exists e | e in entries :: number <= e.number
  }

  predicate WrongRows(entries: seq<Entry>, rows: seq<Row>, problem: Problem) {
    match problem
    case BadRow => Malformed in rows
    case Disagrees(row) => row in rows && !Consistent(row)
    case ManyRows(number) => |Under(Rows(rows), number)| > 1
    case NoFile(number) => |Under(Rows(rows), number)| == 1 != |Under(entries, number)|
    case NoRow(number) => |Under(entries, number)| == 1 != |Under(Rows(rows), number)|
    case Mismatch(number) =>
      |Under(Rows(rows), number)| == 1 == |Under(entries, number)| && Under(Rows(rows), number) != Under(entries, number)
    case _ => false
  }

  predicate Wrong(files: seq<Path>, numberOf: Path -> Option<nat>, index: Option<seq<Row>>, problem: Problem) {
    || WrongFiles(files, numberOf, problem)
    || if index.None? then problem.NoIndex? else WrongRows(Files(files, numberOf), index.value, problem)
  }

  /** Numbered in sequence, and the index lists exactly the files, each once under its number. */
  ghost predicate OneToOne(files: seq<Path>, numberOf: Path -> Option<nat>, index: Option<seq<Row>>) {
    var entries := Files(files, numberOf);
    && (forall path | path in files :: numberOf(path).Some?)
    && Numbered(entries) && index.Some? && Numbered(Rows(index.value))
    && (forall row | row in index.value :: row.Row? && Consistent(row))
    && (forall e :: e in entries <==> e in Rows(index.value))
    && (forall e, n: nat | e in entries && 1 <= n <= e.number :: HasNumber(entries, n))
  }

  predicate HasNumber(entries: seq<Entry>, number: nat) {
    exists e | e in entries :: e.number == number
  }

  predicate Numbered(entries: seq<Entry>) {
    forall i, j | 0 <= i < j < |entries| :: entries[i].number != entries[j].number
  }

  lemma {:induction false} UnderHolds(entries: seq<Entry>, number: nat)
    ensures forall path :: path in Under(entries, number) <==> Entry(number, path) in entries
    decreases entries
  {
    if entries != [] {
      var n := |entries| - 1;
      UnderHolds(entries[..n], number);
      assert entries == entries[..n] + [entries[n]];
    }
  }

  lemma EmptyOrHolds(s: seq<Path>)
    ensures s == [] || exists x :: x in s
  {
    if s != [] {
      assert s[0] in s;
    }
  }

  lemma {:induction false} OneEach(entries: seq<Entry>, number: nat)
    requires Numbered(entries)
    ensures |Under(entries, number)| <= 1
    decreases entries
  {
    if entries != [] {
      var n := |entries| - 1;
      OneEach(entries[..n], number);
      UnderHolds(entries[..n], number);
      if entries[n].number == number {
        forall e | e in entries[..n]
          ensures e.number != number
        {
        }
        EmptyOrHolds(Under(entries[..n], number));
      }
    }
  }

  lemma {:induction false} TwoTogether(entries: seq<Entry>, i: nat, j: nat)
    requires i < j < |entries| && entries[i].number == entries[j].number
    ensures |Under(entries, entries[j].number)| >= 2
    decreases entries
  {
    var n := |entries| - 1;
    if j < n {
      TwoTogether(entries[..n], i, j);
    } else {
      UnderHolds(entries[..n], entries[j].number);
      assert entries[..n][i] == Entry(entries[j].number, entries[i].path);
    }
  }

  lemma NumberedMeansOneEach(entries: seq<Entry>)
    ensures Numbered(entries) <==> forall number :: |Under(entries, number)| <= 1
  {
    hide Under;
    if Numbered(entries) {
      forall number
        ensures |Under(entries, number)| <= 1
      {
        OneEach(entries, number);
      }
    } else {
      var i, j :| 0 <= i < j < |entries| && entries[i].number == entries[j].number;
      TwoTogether(entries, i, j);
    }
  }

  /** Nothing is wrong exactly when files and index match one to one, in sequence. */
  lemma NothingWrongIff(files: seq<Path>, numberOf: Path -> Option<nat>, index: Option<seq<Row>>)
    ensures (forall problem :: !Wrong(files, numberOf, index, problem)) <==> OneToOne(files, numberOf, index)
  {
    hide Under, Files, Rows;
    if OneToOne(files, numberOf, index) {
      OneToOneIsRight(files, numberOf, index);
    }
    if forall problem :: !Wrong(files, numberOf, index, problem) {
      RightIsOneToOne(files, numberOf, index);
    }
  }

  lemma OneToOneIsRight(files: seq<Path>, numberOf: Path -> Option<nat>, index: Option<seq<Row>>)
    requires OneToOne(files, numberOf, index)
    ensures forall problem :: !Wrong(files, numberOf, index, problem)
  {
    hide Under, Files, Rows, Numbered;
    var entries, rows := Files(files, numberOf), Rows(index.value);
    NumberedMeansOneEach(entries);
    NumberedMeansOneEach(rows);
    forall number: nat
      ensures |Under(entries, number)| <= 1 && Under(rows, number) == Under(entries, number)
      ensures HasNumber(entries, number) ==> Under(entries, number) != []
    {
      UnderHolds(entries, number);
      UnderHolds(rows, number);
      forall path
        ensures path in Under(rows, number) <==> path in Under(entries, number)
      {
        assert Entry(number, path) in entries <==> Entry(number, path) in rows;
      }
      assert |Under(rows, number)| <= 1 && |Under(entries, number)| <= 1;
      SameSingles(Under(rows, number), Under(entries, number));
      if HasNumber(entries, number) {
        var e :| e in entries && e.number == number;
        assert e == Entry(number, e.path);
      }
    }
  }

  lemma SameSingles(a: seq<Path>, b: seq<Path>)
    requires |a| <= 1 && |b| <= 1 && forall x :: x in a <==> x in b
    ensures a == b
  {
    if a != [] {
      assert a[0] in b;
    }
    if b != [] {
      assert b[0] in a;
    }
  }

  lemma RightIsOneToOne(files: seq<Path>, numberOf: Path -> Option<nat>, index: Option<seq<Row>>)
    requires forall problem :: !Wrong(files, numberOf, index, problem)
    ensures OneToOne(files, numberOf, index)
  {
    hide Under, Files, Rows, Numbered;
    var entries := Files(files, numberOf);
    assert !Wrong(files, numberOf, index, NoIndex);
    var rows := Rows(index.value);
    forall path | path in files
      ensures numberOf(path).Some?
    {
      assert !Wrong(files, numberOf, index, BadName(path));
    }
    forall row | row in index.value
      ensures row.Row? && Consistent(row)
    {
      assert !Wrong(files, numberOf, index, BadRow) && !Wrong(files, numberOf, index, Disagrees(row));
    }
    forall number
      ensures |Under(entries, number)| <= 1 && |Under(rows, number)| <= 1 && Under(rows, number) == Under(entries, number)
    {
      assert !Wrong(files, numberOf, index, Shared(number)) && !Wrong(files, numberOf, index, ManyRows(number));
      assert !Wrong(files, numberOf, index, NoFile(number)) && !Wrong(files, numberOf, index, NoRow(number));
      assert !Wrong(files, numberOf, index, Mismatch(number));
    }
    NumberedMeansOneEach(entries);
    NumberedMeansOneEach(rows);
    forall e
      ensures e in entries <==> e in rows
    {
      UnderHolds(entries, e.number);
      UnderHolds(rows, e.number);
      assert e == Entry(e.number, e.path);
    }
    forall e, n: nat | e in entries && 1 <= n <= e.number
      ensures HasNumber(entries, n)
    {
      assert !Wrong(files, numberOf, index, Gap(n));
      UnderHolds(entries, n);
      assert Entry(n, Under(entries, n)[0]) in entries;
    }
  }

  /** Number zero is never missed and never refused: a single decision numbered 0 passes. */
  lemma ZeroIsAccepted(path: Path)
    ensures OneToOne([path], p => Some(0), Some([Row(0, 0, 0, path)]))
  {
    var numberOf: Path -> Option<nat> := p => Some(0);
    assert [path][..0] == [] && [Row(0, 0, 0, path)][..0] == [];
    assert Files([path], numberOf) == Files([], numberOf) + [Entry(0, path)] == [Entry(0, path)];
    assert Rows([Row(0, 0, 0, path)]) == Rows([]) + [Entry(0, path)] == [Entry(0, path)];
  }

  // ---------------------------------------------------------------------
  // The program
  // ---------------------------------------------------------------------

  /** What a dictionary of lists holds under a number. */
  function Held(grouped: map<nat, seq<Path>>, number: nat): seq<Path> {
    if number in grouped then grouped[number] else []
  }

  /** Group paths by number, in order. */
  method Group(entries: seq<Entry>) returns (grouped: map<nat, seq<Path>>)
    ensures forall number :: Held(grouped, number) == Under(entries, number)
    ensures forall number | number in grouped :: grouped[number] != []
  {
    grouped := map[];
    for k := 0 to |entries|
      invariant forall number :: Held(grouped, number) == Under(entries[..k], number)
      invariant forall number | number in grouped :: grouped[number] != []
    {
      var e := entries[k];
      assert entries[..k + 1][..k] == entries[..k];
      grouped := grouped[e.number := Held(grouped, e.number) + [e.path]];
    }
    assert entries[..|entries|] == entries;
  }

  method Numbers(files: seq<Path>, numberOf: Path -> Option<nat>) returns (entries: seq<Entry>, errors: set<Problem>)
    ensures entries == Files(files, numberOf)
    ensures forall problem :: problem in errors <==>
              problem.BadName? && problem.path in files && numberOf(problem.path).None?
  {
    entries, errors := [], {};
    for k := 0 to |files|
      invariant entries == Files(files[..k], numberOf)
      invariant forall problem :: problem in errors <==>
                  problem.BadName? && problem.path in files[..k] && numberOf(problem.path).None?
    {
      assert files[..k + 1][..k] == files[..k] && files[..k + 1] == files[..k] + [files[k]];
      match numberOf(files[k])
      case None => errors := errors + {BadName(files[k])};
      case Some(number) => entries := entries + [Entry(number, files[k])];
    }
    assert files[..|files|] == files;
  }

  predicate NotLastKey(grouped: map<nat, seq<Path>>, number: nat) {
    exists n | n in grouped :: number <= n
  }

  /** The numbers up to the greatest that nothing is under. */
  method Gaps(grouped: map<nat, seq<Path>>) returns (errors: set<Problem>)
    ensures forall problem :: problem in errors <==>
              problem.Gap? && 1 <= problem.number && problem.number !in grouped
              && NotLastKey(grouped, problem.number)
  {
    errors := {};
    var todo, max := grouped.Keys, 0;
    while todo != {}
      invariant todo <= grouped.Keys && (max == 0 || max in grouped)
      invariant forall n | n in grouped && n !in todo :: n <= max
    {
      var n :| n in todo;
      todo, max := todo - {n}, if n > max then n else max;
    }
    for n := 1 to max + 1
      invariant forall problem :: problem in errors <==>
                  problem.Gap? && 1 <= problem.number < n && problem.number !in grouped
    {
      if n !in grouped {
        errors := errors + {Gap(n)};
      }
    }
  }

  method Repeated(grouped: map<nat, seq<Path>>) returns (numbers: set<nat>)
    ensures forall n :: n in numbers <==> |Held(grouped, n)| > 1
  {
    numbers := {};
    var todo := grouped.Keys;
    while todo != {}
      invariant todo <= grouped.Keys
      invariant forall n :: n in numbers <==> n !in todo && |Held(grouped, n)| > 1
    {
      var n :| n in todo;
      todo := todo - {n};
      if |grouped[n]| > 1 {
        numbers := numbers + {n};
      }
    }
  }

  method ReadRows(rows: seq<Row>) returns (entries: seq<Entry>, errors: set<Problem>)
    ensures entries == Rows(rows)
    ensures forall problem :: problem in errors <==>
              (problem.BadRow? && Malformed in rows) || (problem.Disagrees? && problem.row in rows && !Consistent(problem.row))
  {
    entries, errors := [], {};
    for k := 0 to |rows|
      invariant entries == Rows(rows[..k])
      invariant forall problem :: problem in errors <==>
                  (problem.BadRow? && Malformed in rows[..k])
                  || (problem.Disagrees? && problem.row in rows[..k] && !Consistent(problem.row))
    {
      assert rows[..k + 1][..k] == rows[..k] && rows[..k + 1] == rows[..k] + [rows[k]];
      if rows[k].Malformed? {
        errors := errors + {BadRow};
        continue;
      }
      if !Consistent(rows[k]) {
        errors := errors + {Disagrees(rows[k])};
      }
      entries := entries + [Entry(rows[k].number, rows[k].path)];
    }
    assert rows[..|rows|] == rows;
  }

  predicate Unmatched(files: map<nat, seq<Path>>, rows: map<nat, seq<Path>>, problem: Problem) {
    match problem
    case NoFile(n) => |Held(rows, n)| == 1 != |Held(files, n)|
    case NoRow(n) => |Held(files, n)| == 1 != |Held(rows, n)|
    case Mismatch(n) => |Held(rows, n)| == 1 == |Held(files, n)| && Held(rows, n) != Held(files, n)
    case _ => false
  }

  /** Compare the numbers that have exactly one file or exactly one row. */
  method Compare(files: map<nat, seq<Path>>, rows: map<nat, seq<Path>>) returns (errors: set<Problem>)
    ensures forall problem :: problem in errors <==> Unmatched(files, rows, problem)
  {
    errors := {};
    var singleFiles := map n | n in files && |files[n]| == 1 :: files[n][0];
    var singleRows := map n | n in rows && |rows[n]| == 1 :: rows[n][0];
    var todo := singleFiles.Keys + singleRows.Keys;
    while todo != {}
      invariant todo <= singleFiles.Keys + singleRows.Keys
      invariant forall problem :: problem in errors <==>
                  Unmatched(files, rows, problem) && problem.number !in todo
    {
      var n :| n in todo;
      todo := todo - {n};
      var file, row := Lookup(singleFiles, n), Lookup(singleRows, n);
      if file.None? {
        errors := errors + {NoFile(n)};
      } else if row.None? {
        errors := errors + {NoRow(n)};
      } else if file != row {
        errors := errors + {Mismatch(n)};
      }
    }
  }

  method CheckFiles(files: seq<Path>, numberOf: Path -> Option<nat>)
    returns (errors: set<Problem>, byNumber: map<nat, seq<Path>>, ghost entries: seq<Entry>)
    ensures forall problem :: problem in errors <==> WrongFiles(files, numberOf, problem)
    ensures entries == Files(files, numberOf) && forall number :: Held(byNumber, number) == Under(entries, number)
  {
    hide Under, Files, NotLast, NotLastKey;
    var numbered, badNames := Numbers(files, numberOf);
    byNumber := Group(numbered);
    var shared := Repeated(byNumber);
    var gaps := Gaps(byNumber);
    KeysAreNumbers(numbered, byNumber);
    errors, entries := badNames + (set n | n in shared :: Shared(n)) + gaps, numbered;
  }

  method CheckRows(byNumber: map<nat, seq<Path>>, rows: seq<Row>, ghost entries: seq<Entry>) returns (errors: set<Problem>)
    requires forall number :: Held(byNumber, number) == Under(entries, number)
    ensures forall problem :: problem in errors <==> WrongRows(entries, rows, problem)
  {
    hide Under, Rows, Consistent;
    var indexed, badRows := ReadRows(rows);
    var rowsByNumber := Group(indexed);
    var many := Repeated(rowsByNumber);
    var unmatched := Compare(byNumber, rowsByNumber);
    errors := badRows + (set n | n in many :: ManyRows(n)) + unmatched;
  }

  /** Reports exactly what is wrong. */
  method ValidateDecisionIndex(files: seq<Path>, numberOf: Path -> Option<nat>, index: Option<seq<Row>>)
    returns (errors: set<Problem>)
    ensures forall problem :: problem in errors <==> Wrong(files, numberOf, index, problem)
    ensures errors == {} <==> OneToOne(files, numberOf, index)
  {
    hide Under, Files, Rows, Consistent, OneToOne, WrongFiles, WrongRows;
    NothingWrongIff(files, numberOf, index);
    var byNumber;
    ghost var entries;
    errors, byNumber, entries := CheckFiles(files, numberOf);
    if index.None? {
      errors := errors + {NoIndex};
      return;
    }
    var more := CheckRows(byNumber, index.value, entries);
    errors := errors + more;
  }

  lemma KeysAreNumbers(entries: seq<Entry>, grouped: map<nat, seq<Path>>)
    requires forall number :: Held(grouped, number) == Under(entries, number)
    requires forall number | number in grouped :: grouped[number] != []
    ensures forall n :: n in grouped <==> Under(entries, n) != []
    ensures forall m: nat :: NotLastKey(grouped, m) <==> NotLast(entries, m)
  {
    hide Under;
    forall n
      ensures n in grouped <==> Under(entries, n) != []
    {
      assert Held(grouped, n) == Under(entries, n);
    }
    forall m: nat
      ensures NotLastKey(grouped, m) <==> NotLast(entries, m)
    {
      if n :| n in grouped && m <= n {
        UnderHolds(entries, n);
        assert Entry(n, Under(entries, n)[0]) in entries;
      }
      if e :| e in entries && m <= e.number {
        UnderHolds(entries, e.number);
        assert e == Entry(e.number, e.path);
      }
    }
  }
}
