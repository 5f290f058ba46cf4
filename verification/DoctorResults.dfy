/**
 Rebuilding a check result from the pages and details a peer serves.

 A frame carries part of a value, or stands for a value by reference to a detail,
 itself served in frames. `Delivered` says which value a whole run of frames
 carries once the details in it are known; `Recovery` reads the frames.
 */
module DoctorResults {
  import opened Prelude

  datatype Json =
    | Null
    | Bool(truth: bool)
    | Num(n: int)
    | Str(text: string)
    | List(items: seq<Json>)
    | Obj(fields: seq<Field>)

  datatype Field = Field(key: Json, value: Json)

  function Get(j: Json, name: string): Option<Json> {
    if j.Obj? then Find(j.fields, Str(name)) else None
  }

  function Find(fields: seq<Field>, key: Json): Option<Json> {
    if fields == [] then None
    else if fields[0].key == key then Some(fields[0].value)
    else Find(fields[1..], key)
  }

  /** A dictionary's `get` with a default. */
  function GetOr(j: Json, name: string, default: Json): Json {
    if Get(j, name).Some? then Get(j, name).value else default
  }

  predicate Truthy(j: Json) {
    match j
    case Null => false
    case Bool(b) => b
    case Num(n) => n != 0
    case Str(s) => s != ""
    case List(items) => items != []
    case Obj(fields) => fields != []
  }

  /** The number a value compares as; true and false are 1 and 0. */
  function Number(j: Json): Option<int> {
    match j
    case Num(n) => Some(n)
    case Bool(b) => Some(if b then 1 else 0)
    case _ => None
  }

  predicate IsNumber(j: Json, n: int) {
    Number(j) == Some(n)
  }

  predicate SameScalar(a: Json, b: Json) {
    a == b || (Number(a).Some? && Number(a) == Number(b))
  }

  predicate Hashable(j: Json) {
    !j.List? && !j.Obj?
  }

  // ---------------------------------------------------------------------
  // Delivery descriptors
  // ---------------------------------------------------------------------

  datatype Delivery =
    | Bare
    | Paged(hasMore: bool, items: nat, pages: nat, page: nat, unit: Json, cursor: Json)

  function Most(a: int, b: int): int {
    if a < b then b else a
  }

  predicate Restricted(d: Json)
    requires d.Obj?
  {
    || GetOr(d, "status", Null) in {Str("unavailable"), Str("out_of_range")}
    || GetOr(d, "availability", Str("available")) != Str("available")
    || Truthy(GetOr(d, "has_more_outside_selection", Null))
    || Truthy(GetOr(d, "pages_before_selection", Num(0)))
    || Truthy(GetOr(d, "pages_after_selection", Num(0)))
    || !IsNumber(GetOr(d, "start_page", Num(1)), 1)
  }

  /** A frame's delivery descriptor, or nothing when it is malformed, restricted or contradicts itself. */
  function Descriptor(frame: Json): Option<Delivery> {
    if !frame.Obj? || !GetOr(frame, "delivery", Obj([])).Obj? then None
    else
      var d := GetOr(frame, "delivery", Obj([]));
      if Restricted(d) then None
      else if d.fields == [] then Some(Bare)
      else
        var more, items := GetOr(d, "has_more", Null), GetOr(d, "total_items", Null);
        var pages, page, remaining := GetOr(d, "total_pages", Null), GetOr(d, "page", Null), GetOr(d, "remaining_pages", Null);
        if !more.Bool? || !items.Num? || items.n < 0 || !pages.Num? || !page.Num? || !remaining.Num? then None
        else if pages.n < 0 || !(1 <= page.n <= Most(1, pages.n)) || remaining.n != Most(0, pages.n - page.n)
                || more.truth != (remaining.n != 0) then None
        else Some(Paged(more.truth, items.n, pages.n, page.n, GetOr(d, "unit", Null), GetOr(d, "continuation", Null)))
  }

  /** A descriptor that is accepted is on a page that exists and says rightly whether another follows. */
  lemma DescriptorsAreCoherent(frame: Json)
    requires Descriptor(frame).Some? && Descriptor(frame).value.Paged?
    ensures var d := Descriptor(frame).value; 1 <= d.page <= Most(1, d.pages) && (d.hasMore <==> d.page < d.pages)
  {
  }

  // ---------------------------------------------------------------------
  // Runs of pages
  // ---------------------------------------------------------------------

  predicate SameTotals(a: Delivery, b: Delivery) {
    a == b == Bare || (a.Paged? && b.Paged? && a.unit == b.unit && a.pages == b.pages && a.items == b.items)
  }

  function Cursor(frame: Json): Json {
    match Descriptor(frame)
    case Some(Paged(_, _, _, _, _, cursor)) => cursor
    case _ => Null
  }

  predicate HasMore(frame: Json) {
    Descriptor(frame).Some? && Descriptor(frame).value.Paged? && Descriptor(frame).value.hasMore
  }

  /** A frame that may stand at this page of the run that began with `first`. */
  predicate Follows(first: Json, frame: Json, page: nat) {
    && Descriptor(first).Some? && Descriptor(frame).Some?
    && SameTotals(Descriptor(first).value, Descriptor(frame).value)
    && (Descriptor(frame).value.Paged? ==> Descriptor(frame).value.page == page)
  }

  /** Pages one after the other from the first, with the first page's totals. */
  predicate Pages(frames: seq<Json>) {
    && frames != [] && (forall k | 0 <= k < |frames| :: Follows(frames[0], frames[k], k + 1))
    && (forall k | 0 <= k < |frames| - 1 :: HasMore(frames[k]) && Cursor(frames[k]) != Null)
  }

  predicate Whole(frames: seq<Json>) {
    Pages(frames) && !HasMore(frames[|frames| - 1])
  }

  /** A run of pages is never longer than the first page announced, and a whole one is exactly as long. */
  lemma PagesAreCounted(frames: seq<Json>)
    requires Pages(frames)
    ensures var d := Descriptor(frames[0]).value;
            if d.Bare? then |frames| == 1
            else |frames| <= Most(1, d.pages) && (Whole(frames) <==> |frames| == Most(1, d.pages))
  {
    var last := frames[|frames| - 1];
    assert Descriptor(last).Some?;
    if Descriptor(last).value.Paged? {
      DescriptorsAreCoherent(last);
    }
  }

  // ---------------------------------------------------------------------
  // References
  // ---------------------------------------------------------------------

  predicate IsReference(v: Json) {
    v.Obj? && Get(v, "action") == Some(Str("result.read")) && Get(v, "detail_reference").Some?
  }

  function Detail(v: Json): Option<string>
    requires IsReference(v)
  {
    var detail := Get(v, "detail_reference").value;
    if detail.Str? then Some(detail.text) else None
  }

  /** Every reference in v is to a known detail. */
  predicate Expandable(content: map<string, Json>, v: Json) {
    if IsReference(v) then Detail(v).Some? && Detail(v).value in content
    else match v
      case List(items) => forall i | 0 <= i < |items| :: Expandable(content, items[i])
      case Obj(fields) => forall i | 0 <= i < |fields| :: Expandable(content, fields[i].value)
      case _ => true
  }

  /** v with each reference replaced by the detail's value. */
  function Expand(content: map<string, Json>, v: Json): Json
    requires Expandable(content, v)
  {
    if IsReference(v) then content[Detail(v).value]
    else match v
      case List(items) =>
        List(seq(|items|, i requires 0 <= i < |items| => Expand(content, items[i])))
      case Obj(fields) =>
        Obj(seq(|fields|, i requires 0 <= i < |fields| => Field(fields[i].key, Expand(content, fields[i].value))))
      case _ => v
  }

  /** Every detail named anywhere in v; keys are never resolved. */
  ghost function Refs(v: Json): set<string> {
    (if IsReference(v) && Detail(v).Some? then {Detail(v).value} else {})
    + match v
      case List(items) => set i, r | 0 <= i < |items| && r in Refs(items[i]) :: r
      case Obj(fields) => set i, r | 0 <= i < |fields| && r in Refs(fields[i].value) :: r
      case _ => {}
  }

  predicate Within(a: map<string, Json>, b: map<string, Json>) {
    forall d | d in a :: d in b && b[d] == a[d]
  }

  /** Learning more details changes nothing already expanded. */
  lemma {:induction false} ExpandGrows(a: map<string, Json>, b: map<string, Json>, v: Json)
    requires Within(a, b) && Expandable(a, v)
    ensures Expandable(b, v) && Expand(b, v) == Expand(a, v)
    decreases v
  {
    if !IsReference(v) {
      match v
      case List(items) =>
        forall i | 0 <= i < |items|
          ensures Expandable(b, items[i]) && Expand(b, items[i]) == Expand(a, items[i])
        {
          ExpandGrows(a, b, items[i]);
        }
      case Obj(fields) =>
        forall i | 0 <= i < |fields|
          ensures Expandable(b, fields[i].value) && Expand(b, fields[i].value) == Expand(a, fields[i].value)
        {
          ExpandGrows(a, b, fields[i].value);
        }
      case _ =>
    }
  }

  /** A value in which nothing looks like a reference. */
  predicate Plain(v: Json) {
    !IsReference(v)
    && match v
       case List(items) => forall i | 0 <= i < |items| :: Plain(items[i])
       case Obj(fields) => forall i | 0 <= i < |fields| :: Plain(fields[i].value)
       case _ => true
  }

  /** A plain value sent as it is arrives as it is. */
  lemma {:induction false} PlainIsVerbatim(content: map<string, Json>, v: Json)
    requires Plain(v)
    ensures Expandable(content, v) && Expand(content, v) == v
    decreases v
  {
    match v
    case List(items) =>
      forall i | 0 <= i < |items|
        ensures Expandable(content, items[i]) && Expand(content, items[i]) == items[i]
      {
        PlainIsVerbatim(content, items[i]);
      }
    case Obj(fields) =>
      forall i | 0 <= i < |fields|
        ensures Expandable(content, fields[i].value) && Expand(content, fields[i].value) == fields[i].value
      {
        PlainIsVerbatim(content, fields[i].value);
      }
    case _ =>
  }

  /** What stands at a named place of v names nothing v does not. */
  lemma {:induction false} FindIsInside(fields: seq<Field>, key: Json)
    requires Find(fields, key).Some?
    ensures exists i :: 0 <= i < |fields| && fields[i].value == Find(fields, key).value
  {
    if fields[0].key == key {
      assert fields[0].value == Find(fields, key).value;
    } else {
      FindIsInside(fields[1..], key);
      var i :| 0 <= i < |fields[1..]| && fields[1..][i].value == Find(fields[1..], key).value;
      assert fields[i + 1].value == Find(fields, key).value;
    }
  }

  lemma GetIsInside(v: Json, name: string)
    requires Get(v, name).Some?
    ensures Refs(Get(v, name).value) <= Refs(v)
  {
    FindIsInside(v.fields, Str(name));
    var i :| 0 <= i < |v.fields| && v.fields[i].value == Find(v.fields, Str(name)).value;
    forall r | r in Refs(v.fields[i].value)
      ensures r in Refs(v)
    {
    }
  }

  // ---------------------------------------------------------------------
  // What a run of frames carries
  // ---------------------------------------------------------------------

  function Payloads(frames: seq<Json>): seq<Json> {
    seq(|frames|, i requires 0 <= i < |frames| => GetOr(frames[i], "result", Null))
  }

  /** What a loop over a value meets, when every element must be a mapping. */
  function Elements(j: Option<Json>): Option<seq<Json>> {
    match j
    case Some(List(items)) => Some(items)
    case Some(Obj(fields)) => if fields == [] then Some([]) else None
    case Some(Str(text)) => if text == "" then Some([]) else None
    case _ => None
  }

  /** The elements named `name` of all payloads, in order. */
  function Flatten(payloads: seq<Json>, name: string): Option<seq<Json>> {
    if payloads == [] then Some([])
    else
      var n := |payloads| - 1;
      var before, last := Flatten(payloads[..n], name), Elements(Get(payloads[n], name));
      if before.None? || last.None? then None else Some(before.value + last.value)
  }

  lemma {:induction false} FlattenPrefix(payloads: seq<Json>, name: string, n: nat)
    requires n <= |payloads| && Flatten(payloads, name).Some?
    ensures Flatten(payloads[..n], name).Some?
    ensures Flatten(payloads[..n], name).value <= Flatten(payloads, name).value
    decreases payloads
  {
    if n == |payloads| {
      assert payloads[..n] == payloads;
    } else {
      FlattenPrefix(payloads[..|payloads| - 1], name, n);
      assert payloads[..|payloads| - 1][..n] == payloads[..n];
    }
  }

  /** Text read so far. Ranges announce a total; fragments stand at an offset of a line. */
  datatype Text = Text(text: string, total: Json, line: nat, offset: nat, complete: bool)

  const NO_TEXT: Text := Text("", Null, 1, 0, true)

  // Text served by ranges.

  datatype Piece = Piece(text: string, start: Json, end: Json, total: Json)

  function PieceOf(payload: Json): Option<Piece> {
    var span := GetOr(payload, "content_range", Null);
    match (Get(payload, "content"), Get(span, "start"), Get(span, "end"), Get(span, "total"))
    case (Some(Str(text)), Some(start), Some(end), Some(total)) => Some(Piece(text, start, end, total))
    case _ => None
  }

  function AddRange(at: Text, payload: Json): Option<Text> {
    if IsLegacy(payload) || PieceOf(payload).None? then None
    else
      var piece := PieceOf(payload).value;
      var end := |at.text| + |piece.text|;
      if !IsNumber(piece.start, |at.text|) || !IsNumber(piece.end, end) then None
      else if at.total != Null && !SameScalar(piece.total, at.total) then None
      else Some(at.(text := at.text + piece.text, total := if at.total == Null then piece.total else at.total))
  }

  function Ranges(payloads: seq<Json>): Option<Text> {
    if payloads == [] then Some(NO_TEXT)
    else
      var n := |payloads| - 1;
      var before := Ranges(payloads[..n]);
      if before.None? then None else AddRange(before.value, payloads[n])
  }

  lemma {:induction false} RangesPrefix(payloads: seq<Json>, n: nat)
    requires n <= |payloads| && Ranges(payloads).Some?
    ensures Ranges(payloads[..n]).Some?
    ensures Ranges(payloads[..n]).value.text <= Ranges(payloads).value.text
    decreases payloads
  {
    if n == |payloads| {
      assert payloads[..n] == payloads;
    } else {
      RangesPrefix(payloads[..|payloads| - 1], n);
      assert payloads[..|payloads| - 1][..n] == payloads[..n];
    }
  }

  // Text served by fragments of lines.

  function AddFragment(at: Text, fragment: Json): Option<Text> {
    match (Get(fragment, "text"), Get(fragment, "line_ending"), Get(fragment, "line_complete"))
    case (Some(Str(text)), Some(Str(ending)), Some(complete)) =>
      if !IsNumber(GetOr(fragment, "line", Null), at.line) || !IsNumber(GetOr(fragment, "start", Null), at.offset)
         || !IsNumber(GetOr(fragment, "end", Null), at.offset + |text|) then None
      else if Truthy(complete) then
        Some(at.(text := at.text + text + ending, line := at.line + 1, offset := 0, complete := true))
      else
        Some(at.(text := at.text + text + ending, offset := at.offset + |text|, complete := false))
    case _ => None
  }

  function Fragments(fragments: seq<Json>): Option<Text> {
    if fragments == [] then Some(NO_TEXT)
    else
      var n := |fragments| - 1;
      var before := Fragments(fragments[..n]);
      if before.None? then None else AddFragment(before.value, fragments[n])
  }

  lemma {:induction false} FragmentsPrefix(fragments: seq<Json>, n: nat)
    requires n <= |fragments| && Fragments(fragments).Some?
    ensures Fragments(fragments[..n]).Some?
    decreases fragments
  {
    if n == |fragments| {
      assert fragments[..n] == fragments;
    } else {
      FragmentsPrefix(fragments[..|fragments| - 1], n);
      assert fragments[..|fragments| - 1][..n] == fragments[..n];
    }
  }

  predicate IsLegacy(payload: Json) {
    Get(payload, "fragments").Some?
  }

  function TextSoFar(legacy: bool, payloads: seq<Json>): Option<Text> {
    if !legacy then Ranges(payloads)
    else if Flatten(payloads, "fragments").None? then None
    else Fragments(Flatten(payloads, "fragments").value)
  }

  lemma TextSoFarPrefix(legacy: bool, payloads: seq<Json>, n: nat)
    requires n <= |payloads| && TextSoFar(legacy, payloads).Some?
    ensures TextSoFar(legacy, payloads[..n]).Some?
  {
    if legacy {
      FlattenPrefix(payloads, "fragments", n);
      var all, some := Flatten(payloads, "fragments").value, Flatten(payloads[..n], "fragments").value;
      FragmentsPrefix(all, |some|);
      assert all[..|some|] == some;
    } else {
      RangesPrefix(payloads, n);
    }
  }

  /** Nothing is missing at the end. */
  predicate Ended(text: Text) {
    text.complete && (text.total == Null || IsNumber(text.total, |text.text|))
  }

  function TextOf(payloads: seq<Json>): Option<string>
    requires payloads != []
  {
    var text := TextSoFar(IsLegacy(payloads[0]), payloads);
    if text.Some? && Ended(text.value) then Some(text.value.text) else None
  }

  // Lists and mappings served cell by cell.

  /** The row a cell adds to those before it; a list's rows are keyed by their indexes. */
  function AddCell(content: map<string, Json>, isList: bool, rows: seq<Field>, cell: Json): Option<Field> {
    var key, value := Get(cell, if isList then "index" else "field"), Get(cell, "value");
    if key.None? || value.None? || !Expandable(content, value.value) then None
    else if isList then
      if IsNumber(key.value, |rows|) then Some(Field(Num(|rows|), Expand(content, value.value))) else None
    else if !Expandable(content, key.value) then None
    else
      var field := Expand(content, key.value);
      if !Hashable(field) || HasKey(rows, field) then None else Some(Field(field, Expand(content, value.value)))
  }

  predicate HasKey(rows: seq<Field>, key: Json) {
    exists i | 0 <= i < |rows| :: SameScalar(rows[i].key, key)
  }

  function Rows(content: map<string, Json>, isList: bool, cells: seq<Json>): Option<seq<Field>> {
    if cells == [] then Some([])
    else
      var n := |cells| - 1;
      var before := Rows(content, isList, cells[..n]);
      if before.None? then None
      else
        var row := AddCell(content, isList, before.value, cells[n]);
        if row.None? then None else Some(before.value + [row.value])
  }

  lemma {:induction false} RowsPrefix(content: map<string, Json>, isList: bool, cells: seq<Json>, n: nat)
    requires n <= |cells| && Rows(content, isList, cells).Some?
    ensures Rows(content, isList, cells[..n]).Some?
    ensures Rows(content, isList, cells[..n]).value <= Rows(content, isList, cells).value
    decreases cells
  {
    if n == |cells| {
      assert cells[..n] == cells;
    } else {
      RowsPrefix(content, isList, cells[..|cells| - 1], n);
      assert cells[..|cells| - 1][..n] == cells[..n];
    }
  }

  lemma {:induction false} RowsGrow(a: map<string, Json>, b: map<string, Json>, isList: bool, cells: seq<Json>)
    requires Within(a, b) && Rows(a, isList, cells).Some?
    ensures Rows(b, isList, cells) == Rows(a, isList, cells)
    decreases cells
  {
    if cells != [] {
      var n := |cells| - 1;
      RowsGrow(a, b, isList, cells[..n]);
      ExpandGrows(a, b, Get(cells[n], "value").value);
      if !isList {
        ExpandGrows(a, b, Get(cells[n], "field").value);
      }
    }
  }

  function Values(rows: seq<Field>): seq<Json> {
    seq(|rows|, i requires 0 <= i < |rows| => rows[i].value)
  }

  predicate IsFields(payload: Json) {
    payload.Obj? && (set f | f in payload.fields :: f.key) == {Str("fields"), Str("root_type")}
  }

  predicate SameRoot(payloads: seq<Json>, root: Json) {
    forall k | 0 <= k < |payloads| :: Get(payloads[k], "root_type") == Some(root)
  }

  function RowsSoFar(content: map<string, Json>, root: Json, payloads: seq<Json>): Option<seq<Field>> {
    if !SameRoot(payloads, root) || Flatten(payloads, "fields").None? then None
    else Rows(content, root == Str("list"), Flatten(payloads, "fields").value)
  }

  lemma RowsSoFarPrefix(content: map<string, Json>, root: Json, payloads: seq<Json>, n: nat)
    requires n <= |payloads| && RowsSoFar(content, root, payloads).Some?
    ensures RowsSoFar(content, root, payloads[..n]).Some?
  {
    FlattenPrefix(payloads, "fields", n);
    var all, some := Flatten(payloads, "fields").value, Flatten(payloads[..n], "fields").value;
    RowsPrefix(content, root == Str("list"), all, |some|);
    assert all[..|some|] == some;
  }

  lemma RowsSoFarGrow(a: map<string, Json>, b: map<string, Json>, root: Json, payloads: seq<Json>)
    requires Within(a, b) && RowsSoFar(a, root, payloads).Some?
    ensures RowsSoFar(b, root, payloads) == RowsSoFar(a, root, payloads)
  {
    RowsGrow(a, b, root == Str("list"), Flatten(payloads, "fields").value);
  }

  function FieldsOf(content: map<string, Json>, payloads: seq<Json>, items: nat): Option<Json>
    requires payloads != []
  {
    var root := GetOr(payloads[0], "root_type", Null);
    if root !in {Str("list"), Str("dict")} then None
    else
      var rows := RowsSoFar(content, root, payloads);
      if rows.None? || |rows.value| != items then None
      else Some(if root == Str("list") then List(Values(rows.value)) else Obj(rows.value))
  }

  function Count(payload: Json): nat {
    match payload
    case List(items) => |items|
    case Obj(fields) => |fields|
    case Null => 0
    case _ => 1
  }

  predicate IsText(frame: Json)
    requires Descriptor(frame).Some?
  {
    Descriptor(frame).value.Paged? && Descriptor(frame).value.unit in {Str("bytes"), Str("lines")}
  }

  /** The value a whole run of frames carries, with what is known of its details. */
  function Delivered(content: map<string, Json>, frames: seq<Json>): Option<Json>
    requires Whole(frames)
  {
    var first, payloads := Descriptor(frames[0]).value, Payloads(frames);
    if IsText(frames[0]) then
      if TextOf(payloads).Some? then Some(Str(TextOf(payloads).value)) else None
    else if IsFields(payloads[0]) then
      if first.Bare? then None else FieldsOf(content, payloads, first.items)
    else if HasMore(frames[0]) || Get(frames[0], "result").None? then None
    else if first.Paged? && (first.pages !in {0, 1} || first.items != Count(payloads[0])) then None
    else if Expandable(content, payloads[0]) then Some(Expand(content, payloads[0]))
    else None
  }

  lemma DeliveredGrows(a: map<string, Json>, b: map<string, Json>, frames: seq<Json>)
    requires Within(a, b) && Whole(frames) && Delivered(a, frames).Some?
    ensures Delivered(b, frames) == Delivered(a, frames)
  {
    hide Descriptor, IsReference, Get, Find, Within, Expandable, Expand, Flatten, Rows, AddCell;
    var payloads := Payloads(frames);
    if IsText(frames[0]) {
    } else if IsFields(payloads[0]) {
      RowsSoFarGrow(a, b, GetOr(payloads[0], "root_type", Null), payloads);
    } else {
      ExpandGrows(a, b, payloads[0]);
    }
  }

  // ---------------------------------------------------------------------
  // Servers
  // ---------------------------------------------------------------------

  datatype Request = ReadDetail(session: Json, detail: string) | ReadNext(session: Json, cursor: Json)

  /** What answers the n-th request; it may fail, lie, or change its mind. */
  type Server = (nat, Request) -> Option<Json>

  /** Only these details are ever named. */
  ghost predicate Names(server: Server, known: set<string>) {
    forall n, q :: server(n, q).Some? ==> Refs(server(n, q).value) <= known
  }

  ghost function RefsIn(frames: seq<Json>): set<string> {
    set i, r | 0 <= i < |frames| && r in Refs(frames[i]) :: r
  }

  /** What an honest server serves: each detail's pages and value, ranked so that no detail contains itself. */
  datatype Library = Library(docs: map<string, seq<Json>>, content: map<string, Json>, rank: map<string, nat>)

  /** Each page's continuation leads to the next page, whenever it is asked for. */
  ghost predicate Serves(server: Server, session: Json, dumps: Json -> string, frames: seq<Json>) {
    && (forall k, n | 0 <= k < |frames| - 1 :: server(n, ReadNext(session, Cursor(frames[k]))) == Some(frames[k + 1]))
    && (forall i, j | 0 <= i < j < |frames| - 1 :: dumps(Cursor(frames[i])) != dumps(Cursor(frames[j])))
  }

  ghost predicate Run(server: Server, session: Json, dumps: Json -> string, content: map<string, Json>,
                      frames: seq<Json>, value: Json) {
    Whole(frames) && Delivered(content, frames) == Some(value) && Serves(server, session, dumps, frames)
  }

  ghost predicate HasDetail(server: Server, session: Json, dumps: Json -> string, lib: Library, d: string) {
    && d in lib.docs && d in lib.content && d in lib.rank
    && Run(server, session, dumps, lib.content, lib.docs[d], lib.content[d])
    && (forall n :: server(n, ReadDetail(session, d)) == Some(lib.docs[d][0]))
    && Below(lib, RefsIn(lib.docs[d]), {d})
  }

  ghost predicate Honest(server: Server, session: Json, dumps: Json -> string, lib: Library) {
    forall d | d in lib.docs || d in lib.content || d in lib.rank :: HasDetail(server, session, dumps, lib, d)
  }

  /** None of these details contains one of those being read. */
  ghost predicate Below(lib: Library, refs: set<string>, active: set<string>) {
    forall r | r in refs :: r in lib.rank && forall a | a in active :: a in lib.rank && lib.rank[r] < lib.rank[a]
  }

  /** Each known value is what its own pages carry, given only the details read before it. */
  ghost predicate Sound(cache: map<string, Json>, sources: map<string, seq<Json>>, done: seq<string>) {
    forall i {:trigger done[i]} | 0 <= i < |done| :: SoundAt(cache, sources, done, i)
  }

  predicate SoundAt(cache: map<string, Json>, sources: map<string, seq<Json>>, done: seq<string>, i: nat)
    requires i < |done|
  {
    && done[i] in cache && done[i] in sources && Whole(sources[done[i]])
    && Delivered(Only(cache, done[..i]), sources[done[i]]) == Some(cache[done[i]])
  }

  function Only(cache: map<string, Json>, some: seq<string>): map<string, Json> {
    map d | d in cache && d in some :: cache[d]
  }

  // What was asked, and what was heard.

  datatype Exchange = Exchange(request: Request, reply: Option<Json>)

  /** Every exchange is with the server, in order, in the one session. */
  ghost predicate Logged(server: Server, session: Json, log: seq<Exchange>) {
    forall k | 0 <= k < |log| :: log[k].reply == server(k, log[k].request) && log[k].request.session == session
  }

  /** The server gave this answer. */
  predicate Heard(log: seq<Exchange>, request: Request, frame: Json) {
    Exchange(request, Some(frame)) in log
  }

  /** Each page but the first is the server's answer to the continuation of the page before it. */
  ghost predicate Fetched(log: seq<Exchange>, session: Json, frames: seq<Json>) {
    forall k | 0 <= k < |frames| - 1 :: Heard(log, ReadNext(session, Cursor(frames[k])), frames[k + 1])
  }

  /** Each detail's pages came from the server. */
  ghost predicate Sourced(log: seq<Exchange>, session: Json, sources: map<string, seq<Json>>) {
    forall d | d in sources ::
      sources[d] != [] && Heard(log, ReadDetail(session, d), sources[d][0]) && Fetched(log, session, sources[d])
  }

  predicate AskedFor(log: seq<Exchange>, d: string) {
    exists k | 0 <= k < |log| :: log[k].request.ReadDetail? && log[k].request.detail == d
  }

  predicate NoDetailTwice(log: seq<Exchange>) {
    forall i, j | 0 <= i < j < |log| && log[i].request.ReadDetail? && log[j].request.ReadDetail? ::
      log[i].request.detail != log[j].request.detail
  }

  /** How many continuations were followed. */
  function Spent(log: seq<Exchange>): nat {
    if log == [] then 0 else Spent(log[..|log| - 1]) + (if log[|log| - 1].request.ReadNext? then 1 else 0)
  }

  /** How many continuations these details' pages took. */
  function Owed(done: seq<string>, sources: map<string, seq<Json>>): int {
    if done == [] then 0
    else
      var n := |done| - 1;
      Owed(done[..n], sources) + (if done[n] in sources then |sources[done[n]]| - 1 else 0)
  }

  /** Each known detail, once. */
  ghost predicate Listed(done: seq<string>, sources: map<string, seq<Json>>) {
    (forall i, j | 0 <= i < j < |done| :: done[i] != done[j]) && (forall d :: d in done <==> d in sources)
  }

  /** Each detail asked for was asked for once, and is known or being read. */
  ghost predicate Booked(log: seq<Exchange>, cache: map<string, Json>, active: set<string>) {
    NoDetailTwice(log) && (forall d :: AskedFor(log, d) <==> d in cache || d in active) && cache.Keys !! active
  }

  lemma BookOne(log: seq<Exchange>, cache: map<string, Json>, active: set<string>, session: Json, d: string, reply: Option<Json>)
    requires Booked(log, cache, active) && d !in cache && d !in active
    ensures Booked(log + [Exchange(ReadDetail(session, d), reply)], cache, active + {d})
    ensures Spent(log + [Exchange(ReadDetail(session, d), reply)]) == Spent(log)
  {
    hide Spent;
    var x := Exchange(ReadDetail(session, d), reply);
    var more := log + [x];
    assert more[..|log|] == log && more[|log|] == x;
    forall e
      ensures AskedFor(more, e) <==> AskedFor(log, e) || e == d
    {
      AskedMore(log, x, e);
    }
    forall i | 0 <= i < |log| && log[i].request.ReadDetail?
      ensures log[i].request.detail != d
    {
      assert AskedFor(log, log[i].request.detail);
    }
    SpentMore(log, x);
  }

  lemma AskedMore(log: seq<Exchange>, x: Exchange, d: string)
    ensures AskedFor(log + [x], d) <==> AskedFor(log, d) || (x.request.ReadDetail? && x.request.detail == d)
  {
    var more := log + [x];
    assert more[|log|] == x;
    if AskedFor(log, d) {
      var k :| 0 <= k < |log| && log[k].request.ReadDetail? && log[k].request.detail == d;
      assert more[k] == log[k];
    }
  }

  lemma SpentMore(log: seq<Exchange>, x: Exchange)
    ensures Spent(log + [x]) == Spent(log) + (if x.request.ReadNext? then 1 else 0)
  {
    assert (log + [x])[..|log|] == log;
  }

  /** Following a continuation leaves the books as they are. */
  lemma BookNext(log: seq<Exchange>, cache: map<string, Json>, active: set<string>, x: Exchange)
    requires Booked(log, cache, active) && x.request.ReadNext?
    ensures Booked(log + [x], cache, active)
  {
    forall d
      ensures AskedFor(log + [x], d) <==> AskedFor(log, d)
    {
      AskedMore(log, x, d);
    }
  }

  lemma BookDone(log: seq<Exchange>, cache: map<string, Json>, active: set<string>, d: string, value: Json)
    requires Booked(log, cache, active) && d in active
    ensures d !in cache && Booked(log, cache[d := value], active - {d})
  {
    hide AskedFor, NoDetailTwice;
  }

  lemma HeardStays(a: seq<Exchange>, b: seq<Exchange>, session: Json, frames: seq<Json>)
    requires a <= b && Fetched(a, session, frames)
    ensures Fetched(b, session, frames)
  {
    hide Cursor;
  }

  lemma HeardOnce(a: seq<Exchange>, b: seq<Exchange>, request: Request, frame: Json)
    requires a <= b && Heard(a, request, frame)
    ensures Heard(b, request, frame)
  {
  }

  lemma SourcedStays(a: seq<Exchange>, b: seq<Exchange>, session: Json, sources: map<string, seq<Json>>)
    requires a <= b && Sourced(a, session, sources)
    ensures Sourced(b, session, sources)
  {
    hide Fetched;
    forall d | d in sources
      ensures Fetched(b, session, sources[d])
    {
      HeardStays(a, b, session, sources[d]);
    }
  }

  lemma SourcedOne(log: seq<Exchange>, session: Json, sources: map<string, seq<Json>>, d: string, frames: seq<Json>)
    requires Sourced(log, session, sources) && frames != []
    requires Heard(log, ReadDetail(session, d), frames[0]) && Fetched(log, session, frames)
    ensures Sourced(log, session, sources[d := frames])
  {
    hide Fetched, Heard;
  }

  lemma FetchedMore(log: seq<Exchange>, session: Json, frames: seq<Json>, next: Json)
    requires frames != [] && Fetched(log, session, frames)
    ensures Fetched(log + [Exchange(ReadNext(session, Cursor(frames[|frames| - 1])), Some(next))], session, frames + [next])
  {
    hide Cursor;
    var x := Exchange(ReadNext(session, Cursor(frames[|frames| - 1])), Some(next));
    HeardStays(log, log + [x], session, frames);
    assert (log + [x])[|log|] == x;
  }

  lemma ListedMore(done: seq<string>, sources: map<string, seq<Json>>, d: string, frames: seq<Json>)
    requires Listed(done, sources) && d !in sources
    ensures d !in done && Listed(done + [d], sources[d := frames])
  {
  }

  /** One more detail read whole. */
  lemma {:induction false} OwedMore(done: seq<string>, sources: map<string, seq<Json>>, d: string, frames: seq<Json>)
    requires d !in done
    ensures Owed(done, sources[d := frames]) == Owed(done, sources)
    ensures Owed(done + [d], sources[d := frames]) == Owed(done, sources) + |frames| - 1
    decreases done
  {
    assert (done + [d])[..|done|] == done;
    if done != [] {
      OwedMore(done[..|done| - 1], sources, d, frames);
    }
  }

  /** The keys of the continuations followed so far. */
  function Seen(dumps: Json -> string, frames: seq<Json>): set<string> {
    set k | 0 <= k < |frames| - 1 :: dumps(Cursor(frames[k]))
  }

  lemma SoundGrows(cache: map<string, Json>, sources: map<string, seq<Json>>, done: seq<string>, d: string, frames: seq<Json>,
                   value: Json)
    requires Sound(cache, sources, done) && Listed(done, sources) && sources.Keys == cache.Keys && d !in cache
    requires Whole(frames) && Delivered(cache, frames) == Some(value)
    ensures Sound(cache[d := value], sources[d := frames], done + [d])
  {
    hide Delivered, Only;
    var after, from, more := cache[d := value], sources[d := frames], done + [d];
    forall i | 0 <= i < |more|
      ensures SoundAt(after, from, more, i)
    {
      if i < |done| {
        assert done[i] == more[i];
        StillSound(cache, sources, done, d, frames, value, i);
      } else {
        AllKnown(cache, sources, done, d, value);
        assert more[..i] == done;
      }
    }
  }

  lemma StillSound(cache: map<string, Json>, sources: map<string, seq<Json>>, done: seq<string>, d: string, frames: seq<Json>,
                   value: Json, i: nat)
    requires i < |done| && SoundAt(cache, sources, done, i) && d !in cache && sources.Keys == cache.Keys && Listed(done, sources)
    ensures SoundAt(cache[d := value], sources[d := frames], done + [d], i)
  {
    hide Delivered, Whole;
    assert (done + [d])[..i] == done[..i] && done[i] in sources;
    assert Only(cache[d := value], done[..i]) == Only(cache, done[..i]);
  }

  lemma AllKnown(cache: map<string, Json>, sources: map<string, seq<Json>>, done: seq<string>, d: string, value: Json)
    requires sources.Keys == cache.Keys && Listed(done, sources) && d !in cache
    ensures Only(cache[d := value], done) == cache
  {
  }

  /** A detail whose pages carry nothing without another was read after that one; so no value rests on itself. */
  lemma NeededComesFirst(cache: map<string, Json>, sources: map<string, seq<Json>>, done: seq<string>, i: nat, other: string)
    requires Sound(cache, sources, done) && i < |done|
    requires Delivered(cache - {other}, sources[done[i]]).None?
    ensures other in done[..i]
  {
    hide Delivered, Whole;
    if other !in done[..i] {
      DeliveredGrows(Only(cache, done[..i]), cache - {other}, sources[done[i]]);
    }
  }

  /** Each value is what its own pages carry. */
  lemma SoundIsDelivered(cache: map<string, Json>, sources: map<string, seq<Json>>, done: seq<string>, i: nat)
    requires Sound(cache, sources, done) && i < |done|
    ensures Delivered(cache, sources[done[i]]) == Some(cache[done[i]])
  {
    hide Delivered, Whole;
    DeliveredGrows(Only(cache, done[..i]), cache, sources[done[i]]);
  }

  lemma NotEmptyPages(frames: seq<Json>)
    requires Pages(frames)
    ensures frames != [] && (Whole(frames) <==> !HasMore(frames[|frames| - 1]))
  {
  }

  /** The run an honest server is serving goes on until it is whole. */
  lemma ServedNext(server: Server, session: Json, dumps: Json -> string, frames: seq<Json>, doc: seq<Json>)
    requires Whole(doc) && Serves(server, session, dumps, doc) && frames != [] && frames <= doc
    ensures var last := frames[|frames| - 1];
            if |frames| == |doc| then !HasMore(last)
            else
              && HasMore(last) && Cursor(last) != Null && dumps(Cursor(last)) !in Seen(dumps, frames)
              && (forall n :: server(n, ReadNext(session, Cursor(last))) == Some(doc[|frames|]))
              && Follows(frames[0], doc[|frames|], |frames| + 1)
  {
    hide HasMore, Cursor, Follows;
    var k := |frames| - 1;
    assert frames[k] == doc[k] && frames[0] == doc[0];
    if |frames| < |doc| {
      forall i | 0 <= i < k
        ensures dumps(Cursor(frames[i])) != dumps(Cursor(frames[k]))
      {
        assert frames[i] == doc[i];
      }
    }
  }

  /** What is known, where it came from, and what was asked for it. */
  ghost predicate Kept(log: seq<Exchange>, session: Json, cache: map<string, Json>, sources: map<string, seq<Json>>,
                       done: seq<string>, active: set<string>)
  {
    && Sound(cache, sources, done) && Sourced(log, session, sources)
    && sources.Keys == cache.Keys && Listed(done, sources) && Booked(log, cache, active)
  }

  /** One more detail read whole. */
  lemma KeepOne(log: seq<Exchange>, session: Json, cache: map<string, Json>, sources: map<string, seq<Json>>, done: seq<string>,
                active: set<string>, d: string, value: Json, frames: seq<Json>)
    requires Kept(log, session, cache, sources, done, active) && d in active
    requires Whole(frames) && frames != [] && Delivered(cache, frames) == Some(value)
    requires Heard(log, ReadDetail(session, d), frames[0]) && Fetched(log, session, frames)
    ensures d !in cache && Kept(log, session, cache[d := value], sources[d := frames], done + [d], active - {d})
    ensures Owed(done + [d], sources[d := frames]) == Owed(done, sources) + |frames| - 1
  {
    hide Whole, Fetched, Heard, Sourced, Sound, Listed, Booked, Delivered, Owed;
    BookDone(log, cache, active, d, value);
    SourcedOne(log, session, sources, d, frames);
    ListedMore(done, sources, d, frames);
    OwedMore(done, sources, d, frames);
    SoundGrows(cache, sources, done, d, frames, value);
  }

  /** A continuation was followed. */
  lemma KeepNext(log: seq<Exchange>, session: Json, cache: map<string, Json>, sources: map<string, seq<Json>>, done: seq<string>,
                 active: set<string>, x: Exchange)
    requires Kept(log, session, cache, sources, done, active) && x.request.ReadNext?
    ensures Kept(log + [x], session, cache, sources, done, active)
  {
    hide Sourced, Sound, Listed, Booked;
    BookNext(log, cache, active, x);
    SourcedStays(log, log + [x], session, sources);
  }

  lemma AddedKeeps(cache: map<string, Json>, d: string, value: Json)
    requires d !in cache
    ensures Within(cache, cache[d := value])
  {
  }

  lemma GetRefs(v: Json, name: string)
    ensures Refs(GetOr(v, name, Null)) <= Refs(v)
  {
    if Get(v, name).Some? {
      GetIsInside(v, name);
    }
  }

  lemma ItemRefs(items: seq<Json>, i: nat)
    requires i < |items|
    ensures Refs(items[i]) <= Refs(List(items))
  {
  }

  lemma ElementRefs(payload: Json, name: string, i: nat)
    requires Elements(Get(payload, name)).Some? && i < |Elements(Get(payload, name)).value|
    ensures Refs(Elements(Get(payload, name)).value[i]) <= Refs(payload)
  {
    hide Refs, Get;
    GetIsInside(payload, name);
    ItemRefs(Get(payload, name).value.items, i);
  }

  lemma BelowLess(lib: Library, more: set<string>, refs: set<string>, active: set<string>)
    requires Below(lib, more, active) && refs <= more
    ensures Below(lib, refs, active)
  {
  }

  lemma BelowInside(lib: Library, refs: set<string>, d: string, active: set<string>)
    requires Below(lib, refs, {d}) && Below(lib, {d}, active)
    ensures Below(lib, refs, active + {d})
  {
  }

  lemma FrameRefs(frames: seq<Json>, i: nat)
    requires i < |frames|
    ensures Refs(Payload(frames[i])) <= RefsIn(frames)
  {
    GetRefs(frames[i], "result");
    hide Refs;
  }

  /** The value is what v stands for. */
  predicate Expands(content: map<string, Json>, v: Json, value: Json) {
    Expandable(content, v) && value == Expand(content, v)
  }

  lemma ItemsGrow(a: map<string, Json>, b: map<string, Json>, items: seq<Json>, values: seq<Json>)
    requires Within(a, b) && |values| <= |items|
    requires forall i | 0 <= i < |values| :: Expands(a, items[i], values[i])
    ensures forall i | 0 <= i < |values| :: Expands(b, items[i], values[i])
  {
    hide Expandable, Expand, Within;
    forall i | 0 <= i < |values|
      ensures Expands(b, items[i], values[i])
    {
      ExpandGrows(a, b, items[i]);
    }
  }

  lemma ListExpands(content: map<string, Json>, items: seq<Json>, values: seq<Json>)
    requires |values| == |items| && forall i | 0 <= i < |items| :: Expands(content, items[i], values[i])
    ensures Expands(content, List(items), List(values))
  {
  }

  lemma ObjExpands(content: map<string, Json>, fields: seq<Field>, values: seq<Json>)
    requires !IsReference(Obj(fields)) && |values| == |fields|
    requires forall i | 0 <= i < |fields| :: Expands(content, Values(fields)[i], values[i])
    ensures Expands(content, Obj(fields), Obj(Renewed(fields, values)))
  {
    assert Expandable(content, Obj(fields)) by {
      forall i | 0 <= i < |fields|
        ensures Expandable(content, fields[i].value)
      {
        assert Expands(content, Values(fields)[i], values[i]);
      }
    }
    var e := Expand(content, Obj(fields)).fields;
    forall i | 0 <= i < |fields|
      ensures e[i] == Field(fields[i].key, values[i])
    {
      assert Expands(content, Values(fields)[i], values[i]);
    }
    assert e == Renewed(fields, values);
  }

  lemma LeafExpands(content: map<string, Json>, v: Json)
    requires !v.Obj? && !v.List?
    ensures Expands(content, v, v)
  {
  }

  lemma ReferenceExpands(content: map<string, Json>, v: Json)
    requires IsReference(v)
    ensures Expandable(content, v) <==> Detail(v).Some? && Detail(v).value in content
    ensures Detail(v).Some? ==> {Detail(v).value} <= Refs(v)
    ensures Detail(v).Some? && Detail(v).value in content ==> Expands(content, v, content[Detail(v).value])
  {
  }

  lemma PartExpands(content: map<string, Json>, v: Json, items: seq<Json>, i: nat)
    requires v == List(items) || (v.Obj? && items == Values(v.fields) && !IsReference(v))
    requires i < |items|
    ensures Refs(items[i]) <= Refs(v)
    ensures Expandable(content, v) ==> Expandable(content, items[i])
  {
  }

  lemma PartIsBelow(lib: Library, v: Json, items: seq<Json>, i: nat, active: set<string>)
    requires v == List(items) || (v.Obj? && items == Values(v.fields) && !IsReference(v))
    requires i < |items| && Below(lib, Refs(v), active)
    ensures Below(lib, Refs(items[i]), active)
  {
  }

  lemma WithinChains(a: map<string, Json>, b: map<string, Json>, c: map<string, Json>)
    requires Within(a, b) && Within(b, c)
    ensures Within(a, c)
  {
  }

  lemma WithinSelf(a: map<string, Json>)
    ensures Within(a, a)
  {
  }

  function Renewed(fields: seq<Field>, values: seq<Json>): seq<Field>
    requires |values| == |fields|
  {
    seq(|fields|, i requires 0 <= i < |fields| => Field(fields[i].key, values[i]))
  }

  /** The next page, the end of the run, or a refusal. */
  datatype Turn = End | Page(frame: Json) | Refused

  lemma OneMorePage(frames: seq<Json>, next: Json)
    requires Pages(frames) && HasMore(frames[|frames| - 1]) && Cursor(frames[|frames| - 1]) != Null
    requires Follows(frames[0], next, |frames| + 1)
    ensures Pages(frames + [next])
  {
    hide Follows, HasMore, Cursor;
  }

  lemma SeenGrows(dumps: Json -> string, frames: seq<Json>, next: Json)
    requires frames != []
    ensures Seen(dumps, frames + [next]) == Seen(dumps, frames) + {dumps(Cursor(frames[|frames| - 1]))}
  {
    hide Cursor;
    var all := frames + [next];
    var key := dumps(Cursor(frames[|frames| - 1]));
    assert key == dumps(Cursor(all[|all| - 2]));
    forall x
      ensures x in Seen(dumps, all) <==> x in Seen(dumps, frames) + {key}
    {
      if x in Seen(dumps, frames) {
        var k :| 0 <= k < |frames| - 1 && x == dumps(Cursor(frames[k]));
        assert x == dumps(Cursor(all[k]));
      }
    }
  }

  function Payload(frame: Json): Json {
    GetOr(frame, "result", Null)
  }

  lemma OneMorePayload(frames: seq<Json>, n: nat)
    requires n < |frames|
    ensures Payloads(frames[..n + 1]) == Payloads(frames[..n]) + [Payload(frames[n])]
  {
  }

  /** The pages a run may still have after this many. */
  function Left(first: Json, page: nat): int
    requires Descriptor(first).Some?
  {
    if Descriptor(first).value.Bare? then 1 - page else Most(1, Descriptor(first).value.pages) - page
  }

  lemma PagesAreLeft(frames: seq<Json>)
    requires Pages(frames)
    ensures Descriptor(frames[0]).Some? && Left(frames[0], |frames|) >= 0
    ensures HasMore(frames[|frames| - 1]) ==> Left(frames[0], |frames|) >= 1
  {
    PagesAreCounted(frames);
  }

  lemma FragmentsStep(before: seq<Json>, fragments: seq<Json>, j: nat)
    requires j < |fragments| && Fragments(before + fragments[..j]).Some?
    ensures Fragments(before + fragments[..j + 1]) == AddFragment(Fragments(before + fragments[..j]).value, fragments[j])
    ensures Fragments(before + fragments[..j + 1]).None? ==> Fragments(before + fragments).None?
  {
    hide AddFragment;
    var all := before + fragments[..j + 1];
    assert all[..|all| - 1] == before + fragments[..j];
    if Fragments(before + fragments).Some? {
      FragmentsPrefix(before + fragments, |all|);
      assert (before + fragments)[..|all|] == all;
    }
  }

  /** A loop over one page's fragments. */
  method ReadFragments(at: Text, fragments: seq<Json>, ghost before: seq<Json>) returns (text: Option<Text>)
    requires Fragments(before) == Some(at)
    ensures text == Fragments(before + fragments)
  {
    hide Fragments, AddFragment;
    var here := at;
    assert before + fragments[..0] == before;
    for j := 0 to |fragments|
      invariant Fragments(before + fragments[..j]) == Some(here)
    {
      FragmentsStep(before, fragments, j);
      var next := AddFragment(here, fragments[j]);
      if next.None? {
        return None;
      }
      here := next.value;
    }
    assert fragments[..|fragments|] == fragments;
    text := Some(here);
  }

  /** One page of text. */
  method ReadTextPage(legacy: bool, at: Text, payload: Json, ghost before: seq<Json>) returns (text: Option<Text>)
    requires TextSoFar(legacy, before) == Some(at)
    ensures text == TextSoFar(legacy, before + [payload])
  {
    assert (before + [payload])[..|before|] == before;
    if IsLegacy(payload) != legacy {
      return None;
    }
    if legacy {
      var fragments := Elements(Get(payload, "fragments"));
      if fragments.None? {
        return None;
      }
      text := ReadFragments(at, fragments.value, Flatten(before, "fragments").value);
    } else {
      text := AddRange(at, payload);
    }
  }

  lemma NoTextYet(first: Json)
    ensures TextSoFar(IsLegacy(Payload(first)), Payloads([first][..0])) == Some(NO_TEXT)
  {
  }

  /** A text is read when the pages are; one that cannot be read up to a page cannot be read at all. */
  lemma TextAfter(frames: seq<Json>, doc: seq<Json>)
    requires frames != []
    ensures var text := TextSoFar(IsLegacy(Payload(frames[0])), Payloads(frames));
            && TextOf(Payloads(frames)) == (if text.Some? && Ended(text.value) then Some(text.value.text) else None)
            && (frames <= doc && text.None? ==> TextOf(Payloads(doc)) == None)
  {
    var legacy := IsLegacy(Payload(frames[0]));
    hide IsLegacy, TextSoFar, Ended;
    assert Payloads(frames)[0] == Payload(frames[0]);
    if frames <= doc && TextSoFar(legacy, Payloads(doc)).Some? {
      TextSoFarPrefix(legacy, Payloads(doc), |frames|);
      assert Payloads(doc)[..|frames|] == Payloads(frames);
    }
  }

  lemma NextPayloads(frames: seq<Json>, next: Json)
    requires frames != []
    ensures frames[..|frames|] == frames && (frames + [next])[..|frames|] == frames
    ensures Payloads(frames) == Payloads(frames[..|frames| - 1]) + [Payload(frames[|frames| - 1])]
  {
  }

  /** A run of pages being read: those read so far, the last of them, and the continuations followed. */
  ghost predicate Reading(log: seq<Exchange>, session: Json, dumps: Json -> string, first: Json, current: Json, page: nat,
                          seen: set<string>, frames: seq<Json>) {
    && Pages(frames) && page == |frames| && first == frames[0] && current == frames[page - 1]
    && seen == Seen(dumps, frames) && Fetched(log, session, frames)
  }

  lemma StartsReading(log: seq<Exchange>, session: Json, dumps: Json -> string, first: Json)
    requires Follows(first, first, 1)
    ensures Reading(log, session, dumps, first, first, 1, {}, [first]) && Descriptor(first).Some?
  {
    OnePage(first, dumps);
  }

  lemma StillReading(before: seq<Exchange>, log: seq<Exchange>, session: Json, dumps: Json -> string, first: Json, current: Json,
                     page: nat, seen: set<string>, frames: seq<Json>)
    requires Reading(before, session, dumps, first, current, page, seen, frames) && before <= log
    ensures Reading(log, session, dumps, first, current, page, seen, frames)
  {
    HeardStays(before, log, session, frames);
  }

  lemma ReadsOn(log: seq<Exchange>, session: Json, dumps: Json -> string, first: Json, current: Json, page: nat,
                seen: set<string>, frames: seq<Json>)
    requires Reading(log, session, dumps, first, current, page, seen, frames)
    ensures page == |frames| >= 1 && first == frames[0] && current == frames[page - 1] && Fetched(log, session, frames)
    ensures Descriptor(first).Some? && Left(first, page) >= 0 && (HasMore(current) ==> Left(first, page) >= 1)
    ensures Left(first, page + 1) == Left(first, page) - 1 && Left(first, 1) == Left(first, page) + page - 1
  {
    PagesAreLeft(frames);
  }

  class Recovery {
    const server: Server
    const session: Json
    const dumps: Json -> string
    ghost const known: set<string>
    ghost const lib: Library
    ghost const honest: bool
    var calls: nat
    var cache: map<string, Json>
    var active: set<string>
    ghost var log: seq<Exchange>
    ghost var sources: map<string, seq<Json>>
    ghost var done: seq<string>

    /** The log is of what the server was asked, and what it answered. */
    ghost predicate Recorded()
      reads this`calls, this`log
    {
      Names(server, known) && calls == |log| && Logged(server, session, log)
    }

    ghost predicate Valid()
      reads this
    {
      && Recorded() && active <= known && Kept(log, session, cache, sources, done, active)
      && (honest ==> Honest(server, session, dumps, lib) && Within(cache, lib.content))
    }

    /** Continuations followed for details not read whole yet. */
    ghost function Balance(): int
      reads this
    {
      Spent(log) - Owed(done, sources)
    }

    /** An honest server is only asked for what its library holds, and never for what contains what is being read. */
    ghost predicate Lawful(v: Json)
      reads this
    {
      honest ==> Expandable(lib.content, v) && Below(lib, Refs(v), active)
    }

    /** An honest server is serving this run. */
    ghost predicate Serving(doc: seq<Json>, first: Json)
      reads this
    {
      && Whole(doc) && doc[0] == first && Delivered(lib.content, doc).Some?
      && Serves(server, session, dumps, doc) && Below(lib, RefsIn(doc), active)
    }

    constructor (server: Server, session: Json, dumps: Json -> string, ghost known: set<string>, ghost lib: Library,
                 ghost honest: bool)
      requires Names(server, known) && (honest ==> Honest(server, session, dumps, lib))
      ensures Valid() && cache == map[] && active == {} && log == [] && Balance() == 0
      ensures this.server == server && this.session == session && this.dumps == dumps
      ensures this.known == known && this.lib == lib && this.honest == honest
    {
      this.server, this.session, this.dumps := server, session, dumps;
      this.known, this.lib, this.honest := known, lib, honest;
      calls, cache, active := 0, map[], {};
      log, sources, done := [], map[], [];
    }

    /** Ask the server, and note the exchange. */
    method Read(q: Request) returns (reply: Option<Json>)
      requires Recorded() && q.session == session
      modifies this`calls, this`log
      ensures Recorded() && log == old(log) + [Exchange(q, reply)]
      ensures reply == server(|old(log)|, q) && (reply.Some? ==> Refs(reply.value) <= known)
    {
      hide Refs;
      reply := server(calls, q);
      calls := calls + 1;
      log := log + [Exchange(q, reply)];
    }

    /** Follow the last page's continuation, once. `doc` is the run the server may be serving. */
    method Advance(first: Json, current: Json, page: nat, seen: set<string>, ghost frames: seq<Json>, ghost doc: seq<Json>)
      returns (turn: Turn, after: set<string>)
      requires Recorded()
      requires Pages(frames) && page == |frames| && first == frames[0] && current == frames[page - 1]
      requires seen == Seen(dumps, frames)
      modifies this`calls, this`log
      ensures Recorded()
      ensures match turn
              case End => log == old(log) && Whole(frames)
              case Page(next) =>
                && log == old(log) + [Exchange(ReadNext(session, Cursor(current)), Some(next))] && HasMore(current)
                && Pages(frames + [next]) && after == Seen(dumps, frames + [next]) && Refs(next) <= known
              case Refused =>
                log == old(log)
                || (HasMore(current) && exists reply :: log == old(log) + [Exchange(ReadNext(session, Cursor(current)), reply)])
      ensures Whole(doc) && Serves(server, session, dumps, doc) && frames <= doc ==>
                if |frames| == |doc| then turn.End? else turn == Page(doc[|frames|])
    {
      hide Follows, Refs, Pages, Whole, Serves, Seen, HasMore, Cursor, Names, Logged;
      ghost var served := Whole(doc) && Serves(server, session, dumps, doc) && frames <= doc;
      NotEmptyPages(frames);
      if served {
        ServedNext(server, session, dumps, frames, doc);
      }
      if !HasMore(current) {
        return End, seen;
      }
      var cursor := Cursor(current);
      if cursor == Null || dumps(cursor) in seen {
        return Refused, seen;
      }
      var reply := Read(ReadNext(session, cursor));
      if reply.None? || !Follows(first, reply.value, page + 1) {
        return Refused, seen;
      }
      OneMorePage(frames, reply.value);
      SeenGrows(dumps, frames, reply.value);
      return Page(reply.value), seen + {dumps(cursor)};
    }

    lemma Knows()
      requires Valid() && honest
      ensures Within(cache, lib.content)
    {
    }

    /** The same, with the books kept. */
    method NextPage(first: Json, current: Json, page: nat, seen: set<string>, ghost frames: seq<Json>, ghost doc: seq<Json>)
      returns (turn: Turn, after: set<string>)
      requires Valid() && Reading(log, session, dumps, first, current, page, seen, frames)
      modifies this`calls, this`log
      ensures Valid() && old(log) <= log && |log| <= |old(log)| + (if HasMore(current) then 1 else 0)
      ensures turn.End? ==> Whole(frames) && Balance() == old(Balance()) && Reading(log, session, dumps, first, current, page, seen, frames)
      ensures turn.Page? ==>
                && Reading(log, session, dumps, first, turn.frame, page + 1, after, frames + [turn.frame]) && Refs(turn.frame) <= known
                && Balance() == old(Balance()) + 1 && HasMore(current)
      ensures Whole(doc) && Serves(server, session, dumps, doc) && frames <= doc ==>
                if |frames| == |doc| then turn.End? else turn == Page(doc[|frames|])
    {
      assert frames != [];
      hide Refs, Pages, Whole, Seen, Serves, Honest, Within, Kept, Fetched, Owed, Spent, HasMore, Logged, Names;
      turn, after := Advance(first, current, page, seen, frames, doc);
      if log != old(log) {
        ghost var x := log[|log| - 1];
        assert log == old(log) + [x];
        KeepNext(old(log), session, cache, sources, done, active, x);
        SpentMore(old(log), x);
      }
      if turn.Page? {
        FetchedMore(old(log), session, frames, turn.frame);
      }
    }

    /** Text, in ranges or in fragments of lines. */
    method ReadText(first: Json, ghost doc: seq<Json>) returns (text: Option<string>, ghost frames: seq<Json>)
      requires Valid() && Follows(first, first, 1)
      modifies this`calls, this`log
      ensures Valid() && old(log) <= log && |log| <= |old(log)| + Left(first, 1)
      ensures text.Some? ==> Fetched(log, session, frames) && Balance() == old(Balance()) + |frames| - 1
      ensures text.Some? ==> Whole(frames) && frames[0] == first && TextOf(Payloads(frames)) == text
      ensures Whole(doc) && Serves(server, session, dumps, doc) && doc[0] == first ==> text == TextOf(Payloads(doc))
    {
      hide *;
      StartsReading(log, session, dumps, first);
      if Whole(doc) {
        NotEmpty(doc);
      }
      NoTextYet(first);
      ghost var served := Whole(doc) && Serves(server, session, dumps, doc) && doc[0] == first;
      var legacy := IsLegacy(Payload(first));
      var at, current, page, seen := NO_TEXT, first, 1, {};
      frames := [first];
      while true
        invariant Valid() && Reading(log, session, dumps, first, current, page, seen, frames) && page == |frames| && Descriptor(first).Some?
        invariant served ==> frames <= doc
        invariant TextSoFar(legacy, Payloads(frames[..page - 1])) == Some(at)
        invariant old(log) <= log && |log| <= |old(log)| + page - 1 && Balance() == old(Balance()) + page - 1
        decreases Left(first, page)
      {
        ReadsOn(log, session, dumps, first, current, page, seen, frames);
        NextPayloads(frames, first);
        TextAfter(frames, doc);
        var next := ReadTextPage(legacy, at, Payload(current), Payloads(frames[..page - 1]));
        if next.None? {
          return None, frames;
        }
        at := next.value;
        var turn, after := NextPage(first, current, page, seen, frames, doc);
        if turn.Refused? {
          return None, frames;
        }
        if turn.End? {
          assert served ==> frames == doc;
          break;
        }
        NextPayloads(frames, turn.frame);
        current, seen, page := turn.frame, after, page + 1;
        frames := frames + [current];
      }
      ReadsOn(log, session, dumps, first, current, page, seen, frames);
      text := if Ended(at) then Some(at.text) else None;
    }

    /** v with every reference in it replaced by its detail's value. */
    method Resolve(v: Json) returns (value: Option<Json>)
      requires Valid() && Refs(v) <= known && Lawful(v)
      modifies this
      ensures Valid() && Within(old(cache), cache) && old(log) <= log
      ensures value.Some? ==> active == old(active) && Balance() == old(Balance()) && Expands(cache, v, value.value)
      ensures honest ==> value.Some?
      decreases |known - active|, 1, v
    {
      hide Refs, Expands, Expandable, Expand, Honest, Below, IsReference, Within, Sound, Names, Booked;
      WithinSelf(cache);
      if IsReference(v) {
        ReferenceExpands(lib.content, v);
        var detail := Detail(v);
        if detail.None? {
          return None;
        }
        if honest {
          BelowLess(lib, Refs(v), {detail.value}, active);
        }
        value := ResolveReference(detail.value);
        ReferenceExpands(cache, v);
      } else if v.Obj? {
        var values := ResolveItems(v, Values(v.fields));
        if values.None? {
          return None;
        }
        ObjExpands(cache, v.fields, values.value);
        value := Some(Obj(Renewed(v.fields, values.value)));
      } else if v.List? {
        var values := ResolveItems(v, v.items);
        if values.None? {
          return None;
        }
        ListExpands(cache, v.items, values.value);
        value := Some(List(values.value));
      } else {
        LeafExpands(cache, v);
        value := Some(v);
      }
    }

    method ResolveItems(v: Json, items: seq<Json>) returns (values: Option<seq<Json>>)
      requires Valid() && Refs(v) <= known && Lawful(v)
      requires v == List(items) || (v.Obj? && items == Values(v.fields) && !IsReference(v))
      modifies this
      ensures Valid() && Within(old(cache), cache) && old(log) <= log
      ensures values.Some? ==> active == old(active) && Balance() == old(Balance()) && |values.value| == |items|
                               && (forall i | 0 <= i < |items| :: Expands(cache, items[i], values.value[i]))
      ensures honest ==> values.Some?
      decreases |known - active|, 1, v, 0
    {
      hide Refs, Expands, Expandable, Expand, Honest, Below, IsReference, Within, Sound, Names, Booked;
      var out: seq<Json> := [];
      WithinSelf(cache);
      for j := 0 to |items|
        invariant Valid() && Within(old(cache), cache) && active == old(active)
        invariant old(log) <= log && Balance() == old(Balance())
        invariant |out| == j && forall i | 0 <= i < j :: Expands(cache, items[i], out[i])
      {
        ghost var before := cache;
        PartExpands(lib.content, v, items, j);
        if honest {
          PartIsBelow(lib, v, items, j, active);
        }
        var next := Resolve(items[j]);
        if next.None? {
          WithinChains(old(cache), before, cache);
          return None;
        }
        WithinChains(old(cache), before, cache);
        ItemsGrow(before, cache, items, out);
        out := out + [next.value];
      }
      values := Some(out);
    }

    /** Ask for a detail that is neither known nor being read. */
    method Ask(detail: string) returns (reply: Option<Json>)
      requires Valid() && detail in known && detail !in cache && detail !in active
      modifies this`calls, this`log, this`active
      ensures Valid() && old(log) <= log && active == old(active) + {detail} && Balance() == old(Balance())
      ensures reply == server(|old(log)|, ReadDetail(session, detail))
      ensures reply.Some? ==> Heard(log, ReadDetail(session, detail), reply.value) && Refs(reply.value) <= known
    {
      hide Refs, Fetched, Sourced, Owed, Spent, Listed, Logged, Sound, Names, Booked, Honest, Within;
      active := active + {detail};
      reply := Read(ReadDetail(session, detail));
      BookOne(old(log), cache, old(active), session, detail, reply);
      SourcedStays(old(log), log, session, sources);
      assert log[|log| - 1] == Exchange(ReadDetail(session, detail), reply);
    }

    /** Keep what a detail was read to be. */
    method Learn(detail: string, value: Json, ghost frames: seq<Json>)
      requires Valid() && detail in active && (honest ==> Lookup(lib.content, detail) == Some(value))
      requires Whole(frames) && frames != [] && Delivered(cache, frames) == Some(value)
      requires Heard(log, ReadDetail(session, detail), frames[0]) && Fetched(log, session, frames)
      modifies this`cache, this`active, this`sources, this`done
      ensures Valid() && active == old(active) - {detail} && Balance() == old(Balance()) - (|frames| - 1)
      ensures Within(old(cache), cache) && Lookup(cache, detail) == Some(value)
    {
      hide Whole, Fetched, Heard, Spent, Owed, Recorded, Kept, Honest, Within, Delivered, Pages;
      KeepOne(log, session, cache, sources, done, active, detail, value, frames);
      AddedKeeps(cache, detail, value);
      if honest {
        WithinAdded(cache, lib.content, detail, value);
      }
      cache, sources := cache[detail := value], sources[detail := frames];
      active, done := active - {detail}, done + [detail];
    }

    method ResolveReference(detail: string) returns (value: Option<Json>)
      requires Valid() && detail in known
      requires honest ==> detail in lib.content && Below(lib, {detail}, active)
      modifies this
      ensures Valid() && Within(old(cache), cache) && old(log) <= log
      ensures value.Some? ==> active == old(active) && Balance() == old(Balance()) && Lookup(cache, detail) == value
      ensures honest ==> value.Some?
      decreases |known - active|, 0
    {
      hide Whole, Pages, Refs, RefsIn, Below, Sound, Names, Booked, Delivered, Run, Serves, Honest, HasDetail, Within, Balance,
        Recorded, Sourced, Listed, Fetched, Heard;
      WithinSelf(cache);
      if detail in active {
        NotInside(lib, detail, active);
        return None;
      }
      if detail in cache {
        return Some(cache[detail]);
      }
      ghost var doc: seq<Json> := [];
      if honest {
        HonestDetail(server, session, dumps, lib, detail, active);
        doc := lib.docs[detail];
      }
      var reply := Ask(detail);
      if reply.None? {
        return None;
      }
      ghost var frames, before, asked := [], cache, log;
      value, frames := Materialise(reply.value, doc);
      if value.None? {
        return None;
      }
      NotEmpty(frames);
      HeardOnce(asked, log, ReadDetail(session, detail), reply.value);
      ghost var after := cache;
      Learn(detail, value.value, frames);
      WithinChains(before, after, cache);
      assert active == old(active);
    }

    /** One cell of a list or mapping: its key checked, its value resolved. */
    method ReadCell(isList: bool, rows: seq<Field>, cell: Json) returns (row: Option<Field>)
      requires Valid() && Refs(cell) <= known
      requires honest ==> AddCell(lib.content, isList, rows, cell).Some? && Below(lib, Refs(cell), active)
      modifies this
      ensures Valid() && Within(old(cache), cache) && old(log) <= log
      ensures row.Some? ==> active == old(active) && Balance() == old(Balance()) && AddCell(cache, isList, rows, cell) == row
      ensures honest ==> row.Some?
      decreases |known - active|, 2
    {
      hide Refs, Expandable, Expand, Honest, Below, Within, Sound, Names, Booked, Get, Hashable, HasKey, IsNumber, RefsIn;
      WithinSelf(cache);
      PartsOfCell(lib, cell, active);
      var key, value := Get(cell, if isList then "index" else "field"), Get(cell, "value");
      if key.None? || value.None? {
        return None;
      }
      var field := key.value;
      ghost var before := cache;
      if isList {
        if !IsNumber(field, |rows|) {
          return None;
        }
        field := Num(|rows|);
      } else {
        var resolved := Resolve(field);
        if honest {
          ExpandGrows(cache, lib.content, key.value);
        }
        if resolved.None? || !Hashable(resolved.value) || HasKey(rows, resolved.value) {
          return None;
        }
        field := resolved.value;
      }
      ghost var between := cache;
      var resolved := Resolve(value.value);
      WithinChains(before, between, cache);
      if resolved.None? {
        return None;
      }
      if !isList {
        ExpandGrows(between, cache, key.value);
      }
      row := Some(Field(field, resolved.value));
    }

    /** The cells of one page. `before` are those of the pages before it. */
    method ReadCells(isList: bool, rows: seq<Field>, payload: Json, cells: seq<Json>, ghost before: seq<Json>)
      returns (more: Option<seq<Field>>)
      requires Valid() && Refs(payload) <= known && Elements(Get(payload, "fields")) == Some(cells)
      requires Rows(cache, isList, before) == Some(rows)
      requires honest ==> Rows(lib.content, isList, before + cells).Some? && Below(lib, Refs(payload), active)
      modifies this
      ensures Valid() && Within(old(cache), cache) && old(log) <= log
      ensures more.Some? ==> active == old(active) && Balance() == old(Balance()) && Rows(cache, isList, before + cells) == more
      ensures honest ==> more.Some?
      decreases |known - active|, 3
    {
      hide Refs, Honest, Below, Within, Sound, Names, Booked, Rows, AddCell, Elements, RefsIn, Get;
      var all := rows;
      WithinSelf(cache);
      assert before + cells[..0] == before;
      for j := 0 to |cells|
        invariant Valid() && Within(old(cache), cache) && active == old(active)
        invariant old(log) <= log && Balance() == old(Balance())
        invariant Rows(cache, isList, before + cells[..j]) == Some(all)
      {
        ghost var earlier := cache;
        ElementRefs(payload, "fields", j);
        if honest {
          RowsGrow(cache, lib.content, isList, before + cells[..j]);
          CellIsRead(lib.content, isList, before, cells, j);
          BelowLess(lib, Refs(payload), Refs(cells[j]), active);
        }
        var row := ReadCell(isList, all, cells[j]);
        WithinChains(old(cache), earlier, cache);
        if row.None? {
          return None;
        }
        RowsGrow(earlier, cache, isList, before + cells[..j]);
        OneMoreRow(cache, isList, before, cells, j);
        all := all + [row.value];
      }
      assert cells[..|cells|] == cells;
      more := Some(all);
    }

    /** One page of a list or mapping. */
    method ReadFieldsPage(root: Json, rows: seq<Field>, payload: Json, ghost before: seq<Json>)
      returns (more: Option<seq<Field>>)
      requires Valid() && Refs(payload) <= known
      requires RowsSoFar(cache, root, before) == Some(rows)
      requires honest ==> RowsSoFar(lib.content, root, before + [payload]).Some? && Below(lib, Refs(payload), active)
      modifies this
      ensures Valid() && Within(old(cache), cache) && old(log) <= log
      ensures more.Some? ==> active == old(active) && Balance() == old(Balance()) && RowsSoFar(cache, root, before + [payload]) == more
      ensures honest ==> more.Some?
      decreases |known - active|, 4
    {
      hide Refs, Honest, Below, Within, Sound, Names, Booked, Rows, Elements, RefsIn, Get;
      WithinSelf(cache);
      assert (before + [payload])[..|before|] == before;
      assert honest ==> (before + [payload])[|before|] == payload;
      if Get(payload, "root_type") != Some(root) {
        return None;
      }
      var cells := Elements(Get(payload, "fields"));
      if cells.None? {
        return None;
      }
      more := ReadCells(root == Str("list"), rows, payload, cells.value, Flatten(before, "fields").value);
    }

    /** All pages of a list or mapping. */
    method ReadFields(first: Json, items: nat, ghost doc: seq<Json>) returns (value: Option<Json>, ghost frames: seq<Json>)
      requires Valid() && Refs(first) <= known && Follows(first, first, 1)
      requires honest ==> Serving(doc, first) && FieldsOf(lib.content, Payloads(doc), items).Some?
      modifies this
      ensures Valid() && Within(old(cache), cache) && old(log) <= log
      ensures value.Some? ==> active == old(active) && Fetched(log, session, frames) && Balance() == old(Balance()) + |frames| - 1
      ensures value.Some? ==> Whole(frames) && frames[0] == first
                              && FieldsOf(cache, Payloads(frames), items) == value
      ensures honest ==> value == FieldsOf(lib.content, Payloads(doc), items)
      decreases |known - active|, 5
    {
      hide Refs, Honest, Below, Within, Valid, RefsIn, Get, Descriptor, RowsSoFar, HasMore, Serves, Delivered, Pages,
        Whole, Reading, Fetched, Balance, Follows, Left;
      WithinSelf(cache);
      StartsReading(log, session, dumps, first);
      if honest {
        NotEmpty(doc);
      }
      frames := [first];
      var root := GetOr(Payload(first), "root_type", Null);
      assert honest ==> Payloads(doc)[0] == Payload(first);
      if root !in {Str("list"), Str("dict")} {
        return None, frames;
      }
      var rows: seq<Field> := [];
      var current, page, seen := first, 1, {};
      NoRowsYet(cache, root);
      assert Payloads(frames[..0]) == [];
      while true
        invariant Valid() && Within(old(cache), cache) && active == old(active)
        invariant old(log) <= log && Balance() == old(Balance()) + page - 1
        invariant Reading(log, session, dumps, first, current, page, seen, frames) && page == |frames| && Descriptor(first).Some?
        invariant (honest ==> frames <= doc) && Refs(current) <= known
        invariant RowsSoFar(cache, root, Payloads(frames[..page - 1])) == Some(rows)
        decreases Left(first, page)
      {
        ghost var earlier, asked := cache, log;
        ReadsOn(log, session, dumps, first, current, page, seen, frames);
        OneMorePayload(frames, page - 1);
        GetRefs(current, "result");
        if honest {
          PageIsRead(lib, root, frames, doc, page, active);
        }
        var more := ReadFieldsPage(root, rows, Payload(current), Payloads(frames[..page - 1]));
        WithinChains(old(cache), earlier, cache);
        if more.None? {
          return None, frames;
        }
        rows := more.value;
        StillReading(asked, log, session, dumps, first, current, page, seen, frames);
        var turn, after := NextPage(first, current, page, seen, frames, doc);
        if turn.Refused? {
          return None, frames;
        }
        if turn.End? {
          assert honest ==> frames == doc;
          break;
        }
        current, seen, page := turn.frame, after, page + 1;
        ghost var read := frames;
        frames := frames + [current];
        assert frames[..page - 1] == read == read[..page - 1];
      }
      assert frames[..page] == frames;
      ReadsOn(log, session, dumps, first, current, page, seen, frames);
      if honest {
        Knows();
        RowsSoFarGrow(cache, lib.content, root, Payloads(frames));
      }
      assert Payloads(frames)[0] == Payload(first);
      if |rows| != items {
        return None, frames;
      }
      value := Some(if root == Str("list") then List(Values(rows)) else Obj(rows));
    }

    method Materialise(first: Json, ghost doc: seq<Json>) returns (value: Option<Json>, ghost frames: seq<Json>)
      requires Valid() && Refs(first) <= known
      requires honest ==> Serving(doc, first)
      modifies this
      ensures Valid() && Within(old(cache), cache) && old(log) <= log
      ensures value.Some? ==> active == old(active) && Fetched(log, session, frames) && Balance() == old(Balance()) + |frames| - 1
      ensures value.Some? ==> Whole(frames) && frames[0] == first && Delivered(cache, frames) == value
      ensures honest ==> value == Delivered(lib.content, doc)
      decreases |known - active|, 6
    {
      hide Refs, Honest, Below, Within, Sound, Names, Booked, RefsIn, Get, Descriptor, RowsSoFar, Serves, TextOf, FieldsOf, Expandable, Expand, IsFields, SameTotals;
      WithinSelf(cache);
      frames := [first];
      if !Follows(first, first, 1) {
        return None, frames;
      }
      var delivery := Descriptor(first).value;
      assert Payloads(frames)[0] == Payload(first);
      assert honest ==> Payloads(doc)[0] == Payload(first);
      if IsText(first) {
        var text;
        text, frames := ReadText(first, doc);
        value := if text.Some? then Some(Str(text.value)) else None;
      } else if IsFields(Payload(first)) {
        if delivery.Bare? {
          return None, frames;
        }
        value, frames := ReadFields(first, delivery.items, doc);
      } else {
        if HasMore(first) || Get(first, "result").None? {
          return None, frames;
        }
        if delivery.Paged? && (delivery.pages !in {0, 1} || delivery.items != Count(Payload(first))) {
          return None, frames;
        }
        GetRefs(first, "result");
        if honest {
          AloneIsWhole(first, doc);
          FrameIsBelow(lib, doc, 0, active);
        }
        value := Resolve(Payload(first));
        if honest {
          ExpandGrows(cache, lib.content, Payload(first));
        }
      }
    }
  }

  lemma NoRowsYet(content: map<string, Json>, root: Json)
    ensures RowsSoFar(content, root, []) == Some([])
  {
  }

  lemma AloneIsWhole(first: Json, doc: seq<Json>)
    requires Whole(doc) && doc[0] == first && !HasMore(first)
    ensures doc == [first]
  {
  }

  lemma FrameIsBelow(lib: Library, doc: seq<Json>, k: nat, active: set<string>)
    requires k < |doc| && Below(lib, RefsIn(doc), active)
    ensures Below(lib, Refs(Payload(doc[k])), active)
  {
    hide Refs, RefsIn, Below;
    FrameRefs(doc, k);
    BelowLess(lib, RefsIn(doc), Refs(Payload(doc[k])), active);
  }

  /** A page of an honest run can be read after the pages before it. */
  lemma PageIsRead(lib: Library, root: Json, frames: seq<Json>, doc: seq<Json>, page: nat, active: set<string>)
    requires 1 <= page == |frames| && frames <= doc && Below(lib, RefsIn(doc), active)
    requires RowsSoFar(lib.content, root, Payloads(doc)).Some?
    ensures RowsSoFar(lib.content, root, Payloads(frames[..page - 1]) + [Payload(frames[page - 1])]).Some?
    ensures Below(lib, Refs(Payload(frames[page - 1])), active)
  {
    hide Refs, RefsIn, Below, RowsSoFar;
    FrameIsBelow(lib, doc, page - 1, active);
    RowsSoFarPrefix(lib.content, root, Payloads(doc), page);
    assert Payloads(doc)[..page] == Payloads(frames[..page - 1]) + [Payload(frames[page - 1])];
  }

  lemma OneMoreRow(content: map<string, Json>, isList: bool, before: seq<Json>, cells: seq<Json>, j: nat)
    requires j < |cells| && Rows(content, isList, before + cells[..j]).Some?
    ensures var rows := Rows(content, isList, before + cells[..j]).value;
            var row := AddCell(content, isList, rows, cells[j]);
            Rows(content, isList, before + cells[..j + 1]) == if row.None? then None else Some(rows + [row.value])
  {
    hide AddCell;
    var all := before + cells[..j + 1];
    assert all[..|all| - 1] == before + cells[..j];
  }

  lemma CellIsRead(content: map<string, Json>, isList: bool, before: seq<Json>, cells: seq<Json>, j: nat)
    requires j < |cells| && Rows(content, isList, before + cells).Some?
    ensures Rows(content, isList, before + cells[..j]).Some?
    ensures AddCell(content, isList, Rows(content, isList, before + cells[..j]).value, cells[j]).Some?
  {
    hide AddCell, Rows;
    RowsPrefix(content, isList, before + cells, |before| + j);
    assert (before + cells)[..|before| + j] == before + cells[..j];
    RowsPrefix(content, isList, before + cells, |before| + j + 1);
    assert (before + cells)[..|before| + j + 1] == before + cells[..j + 1];
    OneMoreRow(content, isList, before, cells, j);
  }

  lemma PartsOfCell(lib: Library, cell: Json, active: set<string>)
    ensures forall name | Get(cell, name).Some? :: Refs(Get(cell, name).value) <= Refs(cell)
    ensures Below(lib, Refs(cell), active) ==>
              forall name | Get(cell, name).Some? :: Below(lib, Refs(Get(cell, name).value), active)
  {
    hide Refs, Below, Get;
    forall name | Get(cell, name).Some?
      ensures Refs(Get(cell, name).value) <= Refs(cell)
      ensures Below(lib, Refs(cell), active) ==> Below(lib, Refs(Get(cell, name).value), active)
    {
      GetIsInside(cell, name);
      if Below(lib, Refs(cell), active) {
        BelowLess(lib, Refs(cell), Refs(Get(cell, name).value), active);
      }
    }
  }

  /** What an honest server promises of a detail. */
  lemma HonestDetail(server: Server, session: Json, dumps: Json -> string, lib: Library, d: string, active: set<string>)
    requires Honest(server, session, dumps, lib) && d in lib.content && Below(lib, {d}, active)
    ensures d in lib.docs && lib.docs[d] != [] && Whole(lib.docs[d])
    ensures Delivered(lib.content, lib.docs[d]) == Some(lib.content[d])
    ensures Serves(server, session, dumps, lib.docs[d]) && Below(lib, RefsIn(lib.docs[d]), active + {d})
    ensures forall n :: server(n, ReadDetail(session, d)) == Some(lib.docs[d][0])
  {
    hide Pages, Delivered, Serves, RefsIn, Below;
    assert HasDetail(server, session, dumps, lib, d);
    BelowInside(lib, RefsIn(lib.docs[d]), d, active);
    NotEmpty(lib.docs[d]);
  }

  lemma OnePage(first: Json, dumps: Json -> string)
    requires Follows(first, first, 1)
    ensures Pages([first]) && Seen(dumps, [first]) == {}
  {
  }

  lemma NotEmpty(frames: seq<Json>)
    requires Whole(frames)
    ensures frames != []
  {
  }

  lemma WithinAdded(a: map<string, Json>, b: map<string, Json>, d: string, value: Json)
    requires Within(a, b) && d in b && b[d] == value
    ensures Within(a[d := value], b)
  {
  }

  lemma NotInside(lib: Library, d: string, active: set<string>)
    requires d in active
    ensures !Below(lib, {d}, active)
  {
  }

  // ---------------------------------------------------------------------
  // What acceptance means
  // ---------------------------------------------------------------------

  /** A cell that says where it belongs and carries a value whose details are known. */
  predicate GoodCell(content: map<string, Json>, isList: bool, cell: Json) {
    && Get(cell, "value").Some? && Expandable(content, Get(cell, "value").value)
    && if isList then Get(cell, "index").Some?
       else Get(cell, "field").Some? && Expandable(content, Get(cell, "field").value) && Hashable(Expand(content, Get(cell, "field").value))
  }

  function CellKey(content: map<string, Json>, isList: bool, cell: Json): Json
    requires GoodCell(content, isList, cell)
  {
    if isList then Get(cell, "index").value else Expand(content, Get(cell, "field").value)
  }

  function CellValue(content: map<string, Json>, isList: bool, cell: Json): Json
    requires GoodCell(content, isList, cell)
  {
    Expand(content, Get(cell, "value").value)
  }

  /** Cells are accepted as a list exactly when the k-th says it is the k-th, and as a mapping exactly
      when no two of their keys are equal; nothing is lost, added or moved. */
  lemma {:induction false} RowsAreTheCells(content: map<string, Json>, isList: bool, cells: seq<Json>)
    ensures Rows(content, isList, cells).Some? <==>
              && (forall k | 0 <= k < |cells| :: GoodCell(content, isList, cells[k]))
              && (isList ==> forall k | 0 <= k < |cells| :: IsNumber(CellKey(content, isList, cells[k]), k))
              && (!isList ==> forall i, k | 0 <= i < k < |cells| ::
                    !SameScalar(CellKey(content, isList, cells[i]), CellKey(content, isList, cells[k])))
    ensures Rows(content, isList, cells).Some? ==>
              var rows := Rows(content, isList, cells).value;
              && |rows| == |cells|
              && (forall k | 0 <= k < |cells| ::
                    rows[k] == Field(if isList then Num(k) else CellKey(content, isList, cells[k]), CellValue(content, isList, cells[k])))
    decreases cells
  {
    hide Get, Expandable, Expand, SameScalar, IsNumber, Hashable;
    if cells != [] {
      var n := |cells| - 1;
      RowsAreTheCells(content, isList, cells[..n]);
      assert forall k | 0 <= k < n :: cells[k] == cells[..n][k];
    }
  }

  /** An accepted list has exactly the announced number of items, with indexes 0, 1, ... in order. */
  lemma AcceptedListsAreWhole(content: map<string, Json>, frames: seq<Json>)
    requires Whole(frames) && !IsText(frames[0]) && IsFields(Payloads(frames)[0])
    requires Get(Payloads(frames)[0], "root_type") == Some(Str("list")) && Delivered(content, frames).Some?
    ensures var cells := Flatten(Payloads(frames), "fields");
            && Delivered(content, frames).value.List? && cells.Some?
            && |cells.value| == |Delivered(content, frames).value.items| == Descriptor(frames[0]).value.items
            && forall k | 0 <= k < |cells.value| ::
                 && GoodCell(content, true, cells.value[k]) && IsNumber(CellKey(content, true, cells.value[k]), k)
                 && Delivered(content, frames).value.items[k] == CellValue(content, true, cells.value[k])
  {
    hide Descriptor, Get, Rows, GoodCell, CellKey, CellValue, IsFields, Flatten;
    RowsAreTheCells(content, true, Flatten(Payloads(frames), "fields").value);
  }

  /** An accepted mapping has exactly the announced number of fields, no two with equal keys. */
  lemma AcceptedMappingsAreWhole(content: map<string, Json>, frames: seq<Json>)
    requires Whole(frames) && !IsText(frames[0]) && IsFields(Payloads(frames)[0])
    requires Get(Payloads(frames)[0], "root_type") == Some(Str("dict")) && Delivered(content, frames).Some?
    ensures var cells := Flatten(Payloads(frames), "fields");
            && Delivered(content, frames).value.Obj? && cells.Some?
            && |cells.value| == |Delivered(content, frames).value.fields| == Descriptor(frames[0]).value.items
            && (forall k | 0 <= k < |cells.value| ::
                  && GoodCell(content, false, cells.value[k])
                  && Delivered(content, frames).value.fields[k]
                     == Field(CellKey(content, false, cells.value[k]), CellValue(content, false, cells.value[k])))
            && (forall i, k | 0 <= i < k < |cells.value| ::
                  !SameScalar(Delivered(content, frames).value.fields[i].key, Delivered(content, frames).value.fields[k].key))
  {
    hide Descriptor, Get, Rows, GoodCell, CellKey, CellValue, IsFields, Flatten, SameScalar;
    RowsAreTheCells(content, false, Flatten(Payloads(frames), "fields").value);
  }

  /** A range that starts where the text before it ended. */
  predicate Abuts(payload: Json, before: nat) {
    && !IsLegacy(payload) && PieceOf(payload).Some?
    && IsNumber(PieceOf(payload).value.start, before)
    && IsNumber(PieceOf(payload).value.end, before + |PieceOf(payload).value.text|)
  }

  predicate AllAbut(payloads: seq<Json>) {
    forall k | 0 <= k < |payloads| :: Abuts(payloads[k], |Joined(payloads[..k])|)
  }

  /** The pieces end to end. */
  function Joined(payloads: seq<Json>): string {
    if payloads == [] then ""
    else
      var n := |payloads| - 1;
      Joined(payloads[..n]) + (if PieceOf(payloads[n]).Some? then PieceOf(payloads[n]).value.text else "")
  }

  /** Every range announces the same total; before the first that announces one they may announce null. */
  function Announced(payloads: seq<Json>): Option<Json> {
    if payloads == [] then Some(Null)
    else
      var n := |payloads| - 1;
      var before, piece := Announced(payloads[..n]), PieceOf(payloads[n]);
      if before.None? || piece.None? then None
      else if before.value == Null then Some(piece.value.total)
      else if SameScalar(piece.value.total, before.value) then before
      else None
  }

  /** Ranges are accepted exactly when they abut and agree on the total, and give their text end to end. */
  lemma {:induction false} RangesCoverTheText(payloads: seq<Json>)
    ensures Ranges(payloads).Some? <==> Announced(payloads).Some? && AllAbut(payloads)
    ensures Ranges(payloads).Some? ==>
              Ranges(payloads).value.text == Joined(payloads) && Ranges(payloads).value.complete
              && Some(Ranges(payloads).value.total) == Announced(payloads)
    decreases payloads
  {
    assert AllAbut([]);
    hide PieceOf, Abuts, AllAbut, AddRange, SameScalar;
    if payloads != [] {
      var n := |payloads| - 1;
      var before := payloads[..n];
      RangesCoverTheText(before);
      OneMoreAbuts(payloads);
      if Ranges(before).Some? {
        AddedRangeAbuts(Ranges(before).value, payloads[n]);
      }
    }
  }

  lemma OneMoreAbuts(payloads: seq<Json>)
    requires payloads != []
    ensures var n := |payloads| - 1;
            AllAbut(payloads) <==> Abuts(payloads[n], |Joined(payloads[..n])|) && AllAbut(payloads[..n])
  {
    hide Abuts, Joined;
    var n := |payloads| - 1;
    forall k | 0 <= k < n
      ensures Abuts(payloads[..n][k], |Joined(payloads[..n][..k])|) <==> Abuts(payloads[k], |Joined(payloads[..k])|)
    {
      assert payloads[..n][..k] == payloads[..k];
    }
  }

  lemma AddedRangeAbuts(at: Text, payload: Json)
    ensures AddRange(at, payload).Some? <==>
              Abuts(payload, |at.text|)
              && (at.total == Null || SameScalar(PieceOf(payload).value.total, at.total))
    ensures AddRange(at, payload).Some? ==>
              AddRange(at, payload).value
              == at.(text := at.text + PieceOf(payload).value.text,
                     total := if at.total == Null then PieceOf(payload).value.total else at.total)
  {
  }

  /** The k-th range of an accepted text lies whole between its start and its end. */
  lemma {:induction false} JoinedHolds(payloads: seq<Json>, k: nat)
    requires k < |payloads| && PieceOf(payloads[k]).Some?
    ensures var start := |Joined(payloads[..k])|;
            var text := PieceOf(payloads[k]).value.text;
            start + |text| <= |Joined(payloads)| && Joined(payloads)[start..start + |text|] == text
    decreases payloads
  {
    hide PieceOf;
    var n := |payloads| - 1;
    if k < n {
      JoinedHolds(payloads[..n], k);
      assert payloads[..n][..k] == payloads[..k];
    }
  }

  /** Text is accepted exactly from ranges that abut and agree on a total that is the length, or is null in every
      one of them; and then each range stands whole in it between its start and its end. */
  lemma AcceptedTextIsCovered(payloads: seq<Json>)
    requires payloads != [] && !IsLegacy(payloads[0])
    ensures TextOf(payloads).Some? <==>
              && AllAbut(payloads) && Announced(payloads).Some?
              && (Announced(payloads).value == Null || IsNumber(Announced(payloads).value, |Joined(payloads)|))
    ensures TextOf(payloads).Some? ==>
              && TextOf(payloads).value == Joined(payloads)
              && forall k | 0 <= k < |payloads| ::
                   && PieceOf(payloads[k]).Some?
                   && var start := |Joined(payloads[..k])|;
                      var piece := PieceOf(payloads[k]).value.text;
                      start + |piece| <= |Joined(payloads)| && Joined(payloads)[start..start + |piece|] == piece
  {
    hide PieceOf, IsNumber, IsLegacy, Joined, Announced, Ranges, AllAbut;
    RangesCoverTheText(payloads);
    if AllAbut(payloads) {
      RangesStand(payloads);
    }
  }

  lemma RangesStand(payloads: seq<Json>)
    requires AllAbut(payloads)
    ensures forall k | 0 <= k < |payloads| ::
              && PieceOf(payloads[k]).Some?
              && var start := |Joined(payloads[..k])|;
                 var piece := PieceOf(payloads[k]).value.text;
                 start + |piece| <= |Joined(payloads)| && Joined(payloads)[start..start + |piece|] == piece
  {
    hide PieceOf, IsNumber, IsLegacy, Joined;
    forall k | 0 <= k < |payloads|
      ensures PieceOf(payloads[k]).Some?
      ensures var start := |Joined(payloads[..k])|;
              var piece := PieceOf(payloads[k]).value.text;
              start + |piece| <= |Joined(payloads)| && Joined(payloads)[start..start + |piece|] == piece
    {
      assert Abuts(payloads[k], |Joined(payloads[..k])|);
      JoinedHolds(payloads, k);
    }
  }

  // Fragments of lines.

  /** A fragment's text, its line's ending and whether it completes the line, when it has them all. */
  function Bit(fragment: Json): Option<(string, string, bool)> {
    match (Get(fragment, "text"), Get(fragment, "line_ending"), Get(fragment, "line_complete"))
    case (Some(Str(text)), Some(Str(ending)), Some(complete)) => Some((text, ending, Truthy(complete)))
    case _ => None
  }

  /** The fragments end to end, each with its ending. */
  function Spelt(fragments: seq<Json>): string {
    if fragments == [] then ""
    else
      var n := |fragments| - 1;
      Spelt(fragments[..n]) + (if Bit(fragments[n]).Some? then Bit(fragments[n]).value.0 + Bit(fragments[n]).value.1 else "")
  }

  /** How many lines are complete. */
  function LinesDone(fragments: seq<Json>): nat {
    if fragments == [] then 0
    else
      var n := |fragments| - 1;
      LinesDone(fragments[..n]) + (if Bit(fragments[n]).Some? && Bit(fragments[n]).value.2 then 1 else 0)
  }

  /** How much of a line not yet complete has been given. */
  function OfLine(fragments: seq<Json>): nat {
    if fragments == [] then 0
    else
      var n := |fragments| - 1;
      if Bit(fragments[n]).None? then OfLine(fragments[..n])
      else if Bit(fragments[n]).value.2 then 0
      else OfLine(fragments[..n]) + |Bit(fragments[n]).value.0|
  }

  /** A fragment of the line after the complete ones, from where that line stands. */
  predicate Continues(fragment: Json, lines: nat, offset: nat) {
    && Bit(fragment).Some? && IsNumber(GetOr(fragment, "line", Null), lines + 1)
    && IsNumber(GetOr(fragment, "start", Null), offset)
    && IsNumber(GetOr(fragment, "end", Null), offset + |Bit(fragment).value.0|)
  }

  predicate AllContinue(fragments: seq<Json>) {
    forall k | 0 <= k < |fragments| :: Continues(fragments[k], LinesDone(fragments[..k]), OfLine(fragments[..k]))
  }

  lemma OneMoreContinues(fragments: seq<Json>)
    requires fragments != []
    ensures var n := |fragments| - 1;
            AllContinue(fragments) <==>
              AllContinue(fragments[..n]) && Continues(fragments[n], LinesDone(fragments[..n]), OfLine(fragments[..n]))
  {
    hide Continues, LinesDone, OfLine;
    var n := |fragments| - 1;
    forall k | 0 <= k < n
      ensures Continues(fragments[..n][k], LinesDone(fragments[..n][..k]), OfLine(fragments[..n][..k]))
              <==> Continues(fragments[k], LinesDone(fragments[..k]), OfLine(fragments[..k]))
    {
      assert fragments[..n][..k] == fragments[..k];
    }
  }

  /** Fragments are accepted exactly when each continues the line where the ones before it left it, and they spell
      the text end to end; nothing is missing at the end exactly when the last line is complete. */
  lemma {:induction false} FragmentsSpellTheText(fragments: seq<Json>)
    ensures Fragments(fragments).Some? <==> AllContinue(fragments)
    ensures Fragments(fragments).Some? ==>
              var text := Fragments(fragments).value;
              && text.text == Spelt(fragments) && text.total == Null && text.line == LinesDone(fragments) + 1
              && text.offset == OfLine(fragments)
              && (text.complete <==> fragments == [] || Bit(fragments[|fragments| - 1]).value.2)
    decreases fragments
  {
    hide Get, IsNumber, AllContinue, Truthy;
    if fragments == [] {
      NothingContinues();
    } else {
      var n := |fragments| - 1;
      FragmentsSpellTheText(fragments[..n]);
      OneMoreContinues(fragments);
      if Fragments(fragments[..n]).Some? {
        AddedFragment(Fragments(fragments[..n]).value, fragments[n]);
      }
    }
  }

  /** A text of fragments is accepted exactly when they continue one another and the last line is complete. */
  lemma AcceptedFragmentsAreWhole(payloads: seq<Json>)
    requires payloads != [] && IsLegacy(payloads[0])
    ensures TextOf(payloads) ==
            match Flatten(payloads, "fragments")
            case None => None
            case Some(all) =>
              if AllContinue(all) && (all == [] || Bit(all[|all| - 1]).value.2) then Some(Spelt(all)) else None
  {
    hide IsLegacy, Flatten, Fragments, AllContinue, Bit, Spelt, LinesDone, OfLine;
    if Flatten(payloads, "fragments").Some? {
      FragmentsSpellTheText(Flatten(payloads, "fragments").value);
    }
  }

  lemma NothingContinues()
    ensures AllContinue([])
  {
  }

  lemma AddedFragment(at: Text, fragment: Json)
    requires at.line >= 1
    ensures AddFragment(at, fragment).Some? <==> Continues(fragment, at.line - 1, at.offset)
    ensures AddFragment(at, fragment).Some? ==>
              var bit := Bit(fragment).value;
              AddFragment(at, fragment).value
              == at.(text := at.text + (bit.0 + bit.1), line := if bit.2 then at.line + 1 else at.line,
                     offset := if bit.2 then 0 else at.offset + |bit.0|, complete := bit.2)
  {
    hide Get, IsNumber, Truthy;
    if Bit(fragment).Some? {
      assert at.text + Bit(fragment).value.0 + Bit(fragment).value.1 == at.text + (Bit(fragment).value.0 + Bit(fragment).value.1);
    }
  }

  // ---------------------------------------------------------------------
  // The whole recovery
  // ---------------------------------------------------------------------

  /** Complete findings, each an object. */
  predicate IsCheckResult(v: Json) {
    match Get(v, "findings")
    case Some(List(items)) => forall i | 0 <= i < |items| :: items[i].Obj?
    case _ => false
  }

  function ResultId(envelope: Json): Json {
    GetOr(GetOr(envelope, "delivery", Obj([])), "result_id", Null)
  }

  /** Whatever the server does, this ends, asks for each detail at most once, and gives only the value its
      pages carry. An honest server's value is given back exactly. */
  method CompleteCheckResult(envelope: Json, server: Server, dumps: Json -> string, ghost known: set<string>,
                             ghost honest: bool, ghost lib: Library, ghost doc: seq<Json>)
    returns (result: Option<Json>, ghost log: seq<Exchange>, ghost frames: seq<Json>, ghost cache: map<string, Json>,
             ghost sources: map<string, seq<Json>>, ghost done: seq<string>)
    requires Names(server, known) && Refs(envelope) <= known
    requires honest ==> Honest(server, ResultId(envelope), dumps, lib) && Whole(doc) && doc[0] == envelope
                        && Serves(server, ResultId(envelope), dumps, doc) && Below(lib, RefsIn(doc), {})
                        && Delivered(lib.content, doc).Some?
    ensures Logged(server, ResultId(envelope), log) && NoDetailTwice(log)
    ensures result.Some? ==>
              && Sound(cache, sources, done) && Sourced(log, ResultId(envelope), sources)
              && Whole(frames) && frames[0] == envelope && Fetched(log, ResultId(envelope), frames)
              && Delivered(cache, frames) == result && IsCheckResult(result.value)
    ensures result.Some? ==>
              && sources.Keys == cache.Keys && (forall d :: AskedFor(log, d) <==> d in cache)
              && Listed(done, sources) && Spent(log) == Owed(done, sources) + |frames| - 1
    ensures honest && IsCheckResult(Delivered(lib.content, doc).value) ==> result == Delivered(lib.content, doc)
  {
    hide Names, Refs, RefsIn, Honest, Serves, Delivered, Whole, Below, Sound, IsCheckResult, Within, Sourced, Fetched,
      NoDetailTwice, AskedFor, Spent, Owed, Listed, Logged;
    log, frames, cache, sources, done := [], [], map[], map[], [];
    var recovery := new Recovery(server, ResultId(envelope), dumps, known, lib, honest);
    var value;
    value, frames := recovery.Materialise(envelope, doc);
    log, cache, sources, done := recovery.log, recovery.cache, recovery.sources, recovery.done;
    if value.None? || !IsCheckResult(value.value) {
      return None, log, frames, cache, sources, done;
    }
    result := value;
  }

  /** A result sent plainly is accepted exactly when it is the whole run, its descriptor counts it rightly, and every
      detail in it is known. */
  lemma PlainIsWhole(content: map<string, Json>, frames: seq<Json>)
    requires Whole(frames) && !IsText(frames[0]) && !IsFields(Payload(frames[0]))
    ensures Delivered(content, frames).Some? <==>
              && |frames| == 1 && Get(frames[0], "result").Some? && Expandable(content, Payload(frames[0]))
              && match Descriptor(frames[0]).value
                 case Bare => true
                 case Paged(_, items, pages, _, _, _) => pages <= 1 && items == Count(Payload(frames[0]))
    ensures Delivered(content, frames).Some? ==> Delivered(content, frames).value == Expand(content, Payload(frames[0]))
  {
    hide Expandable, Expand, Get, IsFields, Restricted, Truthy;
    PagesAreCounted(frames);
    if |frames| > 1 {
      assert HasMore(frames[0]);
    }
    assert Payloads(frames)[0] == Payload(frames[0]);
  }
}
