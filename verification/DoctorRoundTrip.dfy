/**
 Serving a value so that it comes back: lists, mappings and text cut into pages
 anywhere, parts replaced by details, frames with their descriptors, and a server
 of the lot. The recovery gives back exactly the value that was served.
 */
module DoctorRoundTrip {
  import opened Prelude
  import opened DoctorResults

  // ---------------------------------------------------------------------
  // Serving a value in pages
  // ---------------------------------------------------------------------

  function Pair(a: string, x: Json, b: string, y: Json): Json {
    Obj([Field(Str(a), x), Field(Str(b), y)])
  }

  lemma PairGets(a: string, x: Json, b: string, y: Json)
    requires a != b
    ensures Get(Pair(a, x, b, y), a) == Some(x) && Get(Pair(a, x, b, y), b) == Some(y)
    ensures forall c | c != a && c != b :: Get(Pair(a, x, b, y), c) == None
  {
    var fields := Pair(a, x, b, y).fields;
    assert fields[1..][0] == Field(Str(b), y);
    assert fields[1..][1..] == [];
    assert Find(fields[1..], Str(b)) == Some(y);
    forall c | c != a && c != b
      ensures Get(Pair(a, x, b, y), c) == None
    {
      assert Find(fields[1..][1..], Str(c)) == None;
      assert Find(fields[1..], Str(c)) == None;
    }
  }

  /** The cell for one row: where it belongs, and its value as sent. */
  function Cell(isList: bool, key: Json, wire: Json): Json {
    Pair(if isList then "index" else "field", key, "value", wire)
  }

  function Cells(isList: bool, rows: seq<Field>, wire: seq<Json>): seq<Json>
    requires |wire| == |rows|
  {
    seq(|rows|, k requires 0 <= k < |rows| => Cell(isList, rows[k].key, wire[k]))
  }

  function FieldsPage(isList: bool, cells: seq<Json>): Json {
    Pair("fields", List(cells), "root_type", Str(if isList then "list" else "dict"))
  }

  function FieldsPages(isList: bool, pages: seq<seq<Json>>): seq<Json> {
    seq(|pages|, p requires 0 <= p < |pages| => FieldsPage(isList, pages[p]))
  }

  function Concat(pages: seq<seq<Json>>): seq<Json> {
    if pages == [] then [] else Concat(pages[..|pages| - 1]) + pages[|pages| - 1]
  }

  lemma {:induction false} PagesFlatten(isList: bool, pages: seq<seq<Json>>)
    ensures Flatten(FieldsPages(isList, pages), "fields") == Some(Concat(pages))
    ensures SameRoot(FieldsPages(isList, pages), Str(if isList then "list" else "dict"))
    decreases pages
  {
    hide Get;
    forall cells
      ensures Get(FieldsPage(isList, cells), "fields") == Some(List(cells))
      ensures Get(FieldsPage(isList, cells), "root_type") == Some(Str(if isList then "list" else "dict"))
    {
      assert |"fields"| != |"root_type"|;
      PairGets("fields", List(cells), "root_type", Str(if isList then "list" else "dict"));
    }
    if pages != [] {
      var n := |pages| - 1;
      PagesFlatten(isList, pages[..n]);
      assert FieldsPages(isList, pages)[..n] == FieldsPages(isList, pages[..n]);
    }
  }

  lemma CellReads(content: map<string, Json>, isList: bool, key: Json, wire: Json, value: Json)
    requires Hashable(key) && Expands(content, wire, value)
    ensures var cell := Cell(isList, key, wire);
            && GoodCell(content, isList, cell) && CellValue(content, isList, cell) == value
            && CellKey(content, isList, cell) == key
  {
    hide Get, Find;
    assert |"index"| == |"field"| == |"value"| == 5 && "index"[0] != "value"[0] && "field"[0] != "value"[0];
    PairGets(if isList then "index" else "field", key, "value", wire);
    assert Expandable(content, key) && Expand(content, key) == key;
  }

  /** A list or mapping cut into pages anywhere, its values sent as they are or as details, comes back exactly. */
  lemma PagedFieldsComeBack(content: map<string, Json>, isList: bool, rows: seq<Field>, wire: seq<Json>, pages: seq<seq<Json>>)
    requires |wire| == |rows| && forall k | 0 <= k < |rows| :: Expands(content, wire[k], rows[k].value)
    requires forall k | 0 <= k < |rows| :: if isList then rows[k].key == Num(k) else Hashable(rows[k].key)
    requires !isList ==> forall i, k | 0 <= i < k < |rows| :: !SameScalar(rows[i].key, rows[k].key)
    requires pages != [] && Concat(pages) == Cells(isList, rows, wire)
    ensures FieldsOf(content, FieldsPages(isList, pages), |rows|) == Some(if isList then List(Values(rows)) else Obj(rows))
  {
    hide Get, Expands, Expandable, Expand, SameScalar, GoodCell, CellValue, CellKey, Rows, Flatten, Concat;
    PagesFlatten(isList, pages);
    var cells := Cells(isList, rows, wire);
    forall k | 0 <= k < |rows|
      ensures GoodCell(content, isList, cells[k]) && CellValue(content, isList, cells[k]) == rows[k].value
      ensures CellKey(content, isList, cells[k]) == rows[k].key
    {
      CellReads(content, isList, rows[k].key, wire[k], rows[k].value);
    }
    RowsAreTheCells(content, isList, cells);
    var read := Rows(content, isList, cells).value;
    forall k | 0 <= k < |rows|
      ensures read[k] == rows[k]
    {
    }
    assert read == rows;
    assert Get(FieldsPages(isList, pages)[0], "root_type") == Some(Str(if isList then "list" else "dict"));
  }

  /** One range of a text: where it starts, what it holds, and the total it announces. */
  function RangePage(start: nat, text: string, total: Json): Json {
    Pair("content", Str(text), "content_range",
         Obj([Field(Str("start"), Num(start)), Field(Str("end"), Num(start + |text|)), Field(Str("total"), total)]))
  }

  lemma RangePageReads(start: nat, text: string, total: Json)
    ensures PieceOf(RangePage(start, text, total)) == Some(Piece(text, Num(start), Num(start + |text|), total))
    ensures !IsLegacy(RangePage(start, text, total))
  {
    var fields := [Field(Str("start"), Num(start)), Field(Str("end"), Num(start + |text|)), Field(Str("total"), total)];
    var span := Obj(fields);
    assert |"start"| == 5 == |"total"| && |"end"| == 3 && "start"[0] != "total"[0];
    assert |"content"| == 7 && |"content_range"| == 13 && |"fragments"| == 9;
    assert Find(fields[1..], Str("end")) == Some(Num(start + |text|));
    assert fields[1..][1..][0] == Field(Str("total"), total);
    assert Find(fields[1..][1..], Str("total")) == Some(total);
    assert Find(fields[1..], Str("total")) == Some(total);
    assert Get(span, "start") == Some(Num(start)) && Get(span, "end") == Some(Num(start + |text|)) && Get(span, "total") == Some(total);
    PairGets("content", Str(text), "content_range", span);
  }

  function JoinText(cuts: seq<string>): string {
    if cuts == [] then "" else JoinText(cuts[..|cuts| - 1]) + cuts[|cuts| - 1]
  }

  function RangePages(cuts: seq<string>, total: Json): seq<Json> {
    seq(|cuts|, i requires 0 <= i < |cuts| => RangePage(|JoinText(cuts[..i])|, cuts[i], total))
  }

  lemma {:induction false} RangePagesRead(cuts: seq<string>, total: Json)
    ensures Ranges(RangePages(cuts, total))
            == Some(NO_TEXT.(text := JoinText(cuts), total := if cuts == [] then Null else total))
    decreases cuts
  {
    hide PieceOf, IsLegacy, RangePage, RangePages, AddRange;
    if cuts == [] {
      assert RangePages(cuts, total) == [] by {
        NoRangePages(total);
      }
    } else {
      var n := |cuts| - 1;
      RangePagesRead(cuts[..n], total);
      LastRangePage(cuts, total);
      AddsRange(NO_TEXT.(text := JoinText(cuts[..n]), total := if n == 0 then Null else total), cuts[n], total);
    }
  }

  lemma NoRangePages(total: Json)
    ensures RangePages([], total) == []
  {
  }

  lemma LastRangePage(cuts: seq<string>, total: Json)
    requires cuts != []
    ensures var n := |cuts| - 1;
            && |RangePages(cuts, total)| == n + 1 && RangePages(cuts, total)[..n] == RangePages(cuts[..n], total)
            && RangePages(cuts, total)[n] == RangePage(|JoinText(cuts[..n])|, cuts[n], total)
  {
    hide RangePage, JoinText;
    assert forall i | 0 <= i < |cuts| - 1 :: cuts[..|cuts| - 1][..i] == cuts[..i];
  }

  lemma AddsRange(at: Text, text: string, total: Json)
    requires at.total == Null || at.total == total
    ensures AddRange(at, RangePage(|at.text|, text, total)) == Some(at.(text := at.text + text, total := total))
  {
    hide PieceOf, IsLegacy, RangePage;
    RangePageReads(|at.text|, text, total);
  }

  /** A text cut into ranges anywhere comes back exactly when they announce its length, or all announce null:
      a text cut short is only noticed by its total. */
  lemma CutTextComesBackIff(cuts: seq<string>, total: Json)
    requires cuts != []
    ensures TextOf(RangePages(cuts, total)) ==
            (if total == Null || IsNumber(total, |JoinText(cuts)|) then Some(JoinText(cuts)) else None)
  {
    hide PieceOf, IsLegacy, RangePage, Ranges;
    RangePagesRead(cuts, total);
    RangePageReads(0, cuts[0], total);
    assert JoinText(cuts[..0]) == "";
    assert RangePages(cuts, total)[0] == RangePage(0, cuts[0], total);
  }

  /** A text cut short whose ranges announce null is taken for whole; announcing its length, it is refused. */
  lemma NullTotalsHideACut()
    ensures TextOf(RangePages(["a"], Null)) == Some("a") && TextOf(RangePages(["a"], Num(|"ab"|))) == None
  {
    var cuts := ["a"];
    assert cuts[..0] == [];
    assert JoinText(cuts) == JoinText(cuts[..0]) + cuts[0] == "a";
    CutTextComesBackIff(["a"], Null);
    CutTextComesBackIff(["a"], Num(|"ab"|));
  }

  // Frames.

  lemma {:induction false} FindAt(fields: seq<Field>, i: nat)
    requires i < |fields| && forall j | 0 <= j < i :: fields[j].key != fields[i].key
    ensures Find(fields, fields[i].key) == Some(fields[i].value)
  {
    if i > 0 {
      assert fields[0].key != fields[i].key;
      assert fields[1..][i - 1] == fields[i];
      forall j | 0 <= j < i - 1
        ensures fields[1..][j].key != fields[i].key
      {
        assert fields[1..][j] == fields[j + 1];
      }
      FindAt(fields[1..], i - 1);
    }
  }

  lemma {:induction false} FindNowhere(fields: seq<Field>, key: Json)
    requires forall j | 0 <= j < |fields| :: fields[j].key != key
    ensures Find(fields, key) == None
  {
    if fields != [] {
      FindNowhere(fields[1..], key);
    }
  }

  /** The descriptor of one page of a run that is all there. */
  function PageDelivery(unit: Json, items: nat, pages: nat, page: nat, cursor: Json): Json {
    Obj([Field(Str("has_more"), Bool(page < pages)), Field(Str("total_items"), Num(items)),
         Field(Str("total_pages"), Num(pages)), Field(Str("page"), Num(page)),
         Field(Str("remaining_pages"), Num(pages - page)), Field(Str("unit"), unit), Field(Str("continuation"), cursor)])
  }

  function Framed(delivery: Json, payload: Json): Json {
    Pair("delivery", delivery, "result", payload)
  }

  lemma DeliveryGets(unit: Json, items: nat, pages: nat, page: nat, cursor: Json)
    ensures var d := PageDelivery(unit, items, pages, page, cursor);
            && Get(d, "has_more") == Some(Bool(page < pages)) && Get(d, "total_items") == Some(Num(items))
            && Get(d, "total_pages") == Some(Num(pages)) && Get(d, "page") == Some(Num(page))
            && Get(d, "remaining_pages") == Some(Num(pages - page)) && Get(d, "unit") == Some(unit)
            && Get(d, "continuation") == Some(cursor)
  {
    hide Find;
    var fields := PageDelivery(unit, items, pages, page, cursor).fields;
    assert |"has_more"| == 8 && |"total_items"| == 11 == |"total_pages"| && "total_items"[6] != "total_pages"[6];
    assert |"page"| == 4 == |"unit"| && "page"[0] != "unit"[0] && |"remaining_pages"| == 15 && |"continuation"| == 12;
    FindAt(fields, 0);
    FindAt(fields, 1);
    FindAt(fields, 2);
    FindAt(fields, 3);
    FindAt(fields, 4);
    FindAt(fields, 5);
    FindAt(fields, 6);
  }

  lemma DeliveryLacks(unit: Json, items: nat, pages: nat, page: nat, cursor: Json, name: string)
    requires name in {"status", "availability", "has_more_outside_selection", "pages_before_selection",
                      "pages_after_selection", "start_page", "action"}
    ensures Get(PageDelivery(unit, items, pages, page, cursor), name) == None
  {
    hide Find;
    assert |"has_more"| == 8 && |"total_items"| == 11 == |"total_pages"| && |"page"| == 4 == |"unit"|;
    assert |"remaining_pages"| == 15 && |"continuation"| == 12 == |"availability"| && "availability"[0] != "continuation"[0];
    assert |"status"| == 6 == |"action"| && |"start_page"| == 10;
    assert |"has_more_outside_selection"| == 26 && |"pages_before_selection"| == 22 && |"pages_after_selection"| == 21;
    FindNowhere(PageDelivery(unit, items, pages, page, cursor).fields, Str(name));
  }

  lemma DeliveryIsOpen(unit: Json, items: nat, pages: nat, page: nat, cursor: Json)
    ensures !Restricted(PageDelivery(unit, items, pages, page, cursor))
  {
    hide Get;
    DeliveryLacks(unit, items, pages, page, cursor, "status");
    DeliveryLacks(unit, items, pages, page, cursor, "availability");
    DeliveryLacks(unit, items, pages, page, cursor, "has_more_outside_selection");
    DeliveryLacks(unit, items, pages, page, cursor, "pages_before_selection");
    DeliveryLacks(unit, items, pages, page, cursor, "pages_after_selection");
    DeliveryLacks(unit, items, pages, page, cursor, "start_page");
  }

  lemma FramedDescribes(unit: Json, items: nat, pages: nat, page: nat, cursor: Json, payload: Json)
    requires 1 <= page <= pages
    ensures var frame := Framed(PageDelivery(unit, items, pages, page, cursor), payload);
            && Descriptor(frame) == Some(Paged(page < pages, items, pages, page, unit, cursor))
            && Payload(frame) == payload && Get(frame, "result") == Some(payload)
  {
    hide Get;
    var delivery := PageDelivery(unit, items, pages, page, cursor);
    assert delivery.fields != [];
    DeliveryGets(unit, items, pages, page, cursor);
    DeliveryIsOpen(unit, items, pages, page, cursor);
    hide PageDelivery, Restricted;
    assert |"delivery"| == 8 && |"result"| == 6;
    PairGets("delivery", delivery, "result", payload);
    hide Pair;
  }

  /** Payloads as the pages of one run; `mark` names each page's continuation. */
  function Paging(unit: Json, items: nat, payloads: seq<Json>, mark: nat -> Json): seq<Json> {
    seq(|payloads|, k requires 0 <= k < |payloads| => Framed(PageDelivery(unit, items, |payloads|, k + 1, mark(k)), payloads[k]))
  }

  lemma PagingIsWhole(unit: Json, items: nat, payloads: seq<Json>, mark: nat -> Json)
    requires payloads != [] && forall k :: mark(k) != Null
    ensures var frames := Paging(unit, items, payloads, mark);
            && Whole(frames) && Payloads(frames) == payloads
            && (forall k: nat | k < |frames| :: Cursor(frames[k]) == mark(k) && Get(frames[k], "result") == Some(payloads[k]))
            && Descriptor(frames[0]) == Some(Paged(1 < |payloads|, items, |payloads|, 1, unit, mark(0)))
  {
    hide Get, PageDelivery, Framed;
    var frames := Paging(unit, items, payloads, mark);
    forall k: nat | k < |frames|
      ensures Descriptor(frames[k]) == Some(Paged(k + 1 < |frames|, items, |frames|, k + 1, unit, mark(k)))
      ensures Payload(frames[k]) == payloads[k] && Get(frames[k], "result") == Some(payloads[k])
    {
      FramedDescribes(unit, items, |payloads|, k + 1, mark(k), payloads[k]);
    }
    hide Descriptor;
    assert Payloads(frames) == payloads;
  }

  // ---------------------------------------------------------------------
  // Encoding a tree
  // ---------------------------------------------------------------------

  /** One way to send a value: as it is, as a detail, or part by part. */
  datatype Code = Sent(json: Json) | ByDetail(detail: string) | Listing(items: seq<Code>) | Mapping(parts: seq<Part>)

  datatype Part = Part(key: Json, code: Code)

  function Wire(code: Code): Json {
    match code
    case Sent(json) => json
    case ByDetail(detail) => Pair("action", Str("result.read"), "detail_reference", Str(detail))
    case Listing(items) => List(seq(|items|, i requires 0 <= i < |items| => Wire(items[i])))
    case Mapping(parts) => Obj(seq(|parts|, i requires 0 <= i < |parts| => Field(parts[i].key, Wire(parts[i].code))))
  }

  /** Nothing sent as it is looks like a reference. */
  predicate GoodCode(code: Code) {
    match code
    case Sent(json) => Plain(json)
    case ByDetail(_) => true
    case Listing(items) => forall i | 0 <= i < |items| :: GoodCode(items[i])
    case Mapping(parts) => !IsReference(Wire(code)) && forall i | 0 <= i < |parts| :: GoodCode(parts[i].code)
  }

  function CodeRefs(code: Code): set<string> {
    match code
    case Sent(_) => {}
    case ByDetail(detail) => {detail}
    case Listing(items) => set i, r | 0 <= i < |items| && r in CodeRefs(items[i]) :: r
    case Mapping(parts) => set i, r | 0 <= i < |parts| && r in CodeRefs(parts[i].code) :: r
  }

  /** The value sent, given those of the details. */
  function CodeValue(content: map<string, Json>, code: Code): Json {
    match code
    case Sent(json) => json
    case ByDetail(detail) => if detail in content then content[detail] else Null
    case Listing(items) => List(seq(|items|, i requires 0 <= i < |items| => CodeValue(content, items[i])))
    case Mapping(parts) =>
      Obj(seq(|parts|, i requires 0 <= i < |parts| => Field(parts[i].key, CodeValue(content, parts[i].code))))
  }

  lemma {:induction false} PlainHasNoRefs(v: Json)
    requires Plain(v)
    ensures Refs(v) == {}
    decreases v
  {
    match v
    case List(items) =>
      forall i | 0 <= i < |items|
        ensures Refs(items[i]) == {}
      {
        PlainHasNoRefs(items[i]);
      }
    case Obj(fields) =>
      forall i | 0 <= i < |fields|
        ensures Refs(fields[i].value) == {}
      {
        PlainHasNoRefs(fields[i].value);
      }
    case _ =>
  }

  lemma ListRefs(items: seq<Json>, refs: set<string>)
    requires forall i | 0 <= i < |items| :: Refs(items[i]) <= refs
    ensures Refs(List(items)) <= refs
  {
  }

  lemma ObjRefs(fields: seq<Field>, refs: set<string>)
    requires !IsReference(Obj(fields)) && forall i | 0 <= i < |fields| :: Refs(fields[i].value) <= refs
    ensures Refs(Obj(fields)) <= refs
  {
  }

  lemma PairRefs(a: string, x: Json, b: string, y: Json, refs: set<string>)
    requires a != b && a != "action" && b != "action" && Refs(x) <= refs && Refs(y) <= refs
    ensures Refs(Pair(a, x, b, y)) <= refs
  {
    hide Refs, Get;
    PairGets(a, x, b, y);
    assert IsReference(Pair(a, x, b, y)) ==> Get(Pair(a, x, b, y), "action").Some?;
    ObjRefs(Pair(a, x, b, y).fields, refs);
  }

  lemma ReferenceStands(content: map<string, Json>, detail: string)
    requires detail in content
    ensures Expands(content, Wire(ByDetail(detail)), content[detail]) && Refs(Wire(ByDetail(detail))) <= {detail}
  {
    assert |"action"| == 6 && |"detail_reference"| == 16;
    PairGets("action", Str("result.read"), "detail_reference", Str(detail));
  }

  /** What is sent stands for the value it was made from. */
  lemma {:induction false} CodeStandsFor(content: map<string, Json>, code: Code)
    requires GoodCode(code) && CodeRefs(code) <= content.Keys
    ensures Expands(content, Wire(code), CodeValue(content, code)) && Refs(Wire(code)) <= CodeRefs(code)
    decreases code
  {
    hide Refs, Expands, IsReference, Plain;
    match code
    case Sent(json) =>
      PlainIsVerbatim(content, json);
      PlainHasNoRefs(json);
      VerbatimExpands(content, json);
    case ByDetail(detail) => ReferenceStands(content, detail);
    case Listing(items) =>
      var wire, value := Wire(code).items, CodeValue(content, code).items;
      forall i | 0 <= i < |items|
        ensures Expands(content, wire[i], value[i]) && Refs(wire[i]) <= CodeRefs(code)
      {
        assert CodeRefs(items[i]) <= CodeRefs(code);
        CodeStandsFor(content, items[i]);
      }
      ListExpands(content, wire, value);
      ListRefs(wire, CodeRefs(code));
    case Mapping(parts) =>
      var wire, value := Wire(code).fields, Values(CodeValue(content, code).fields);
      forall i | 0 <= i < |parts|
        ensures Expands(content, Values(wire)[i], value[i]) && Refs(wire[i].value) <= CodeRefs(code)
      {
        assert CodeRefs(parts[i].code) <= CodeRefs(code);
        CodeStandsFor(content, parts[i].code);
      }
      ObjExpands(content, wire, value);
      assert Renewed(wire, value) == CodeValue(content, code).fields;
      ObjRefs(wire, CodeRefs(code));
  }

  lemma VerbatimExpands(content: map<string, Json>, v: Json)
    requires Expandable(content, v) && Expand(content, v) == v
    ensures Expands(content, v, v)
  {
  }

  /** How a whole value is served: in one frame, in pages of parts cut anywhere, or in ranges of text cut anywhere. */
  datatype Doc = Compact(code: Code) | InPages(isList: bool, pages: seq<seq<Part>>) | InRanges(cuts: seq<string>)

  function Parts(pages: seq<seq<Part>>): seq<Part> {
    if pages == [] then [] else Parts(pages[..|pages| - 1]) + pages[|pages| - 1]
  }

  function PartCells(isList: bool, parts: seq<Part>): seq<Json> {
    seq(|parts|, i requires 0 <= i < |parts| => Cell(isList, parts[i].key, Wire(parts[i].code)))
  }

  function CellPages(isList: bool, pages: seq<seq<Part>>): seq<seq<Json>> {
    seq(|pages|, p requires 0 <= p < |pages| => PartCells(isList, pages[p]))
  }

  function PartRows(content: map<string, Json>, parts: seq<Part>): seq<Field> {
    seq(|parts|, i requires 0 <= i < |parts| => Field(parts[i].key, CodeValue(content, parts[i].code)))
  }

  /** A list's parts are keyed by their places, a mapping's by distinct keys. */
  predicate GoodParts(isList: bool, parts: seq<Part>) {
    && (forall k | 0 <= k < |parts| :: GoodCode(parts[k].code) && if isList then parts[k].key == Num(k) else Hashable(parts[k].key))
    && (!isList ==> forall i, k | 0 <= i < k < |parts| :: !SameScalar(parts[i].key, parts[k].key))
  }

  predicate GoodDoc(doc: Doc) {
    match doc
    case Compact(code) => GoodCode(code) && !IsFields(Wire(code))
    case InPages(isList, pages) => pages != [] && GoodParts(isList, Parts(pages))
    case InRanges(cuts) => cuts != []
  }

  function DocRefs(doc: Doc): set<string> {
    match doc
    case Compact(code) => CodeRefs(code)
    case InPages(_, pages) =>
      set p, i, r | 0 <= p < |pages| && 0 <= i < |pages[p]| && r in CodeRefs(pages[p][i].code) :: r
    case InRanges(_) => {}
  }

  function DocValue(content: map<string, Json>, doc: Doc): Json {
    match doc
    case Compact(code) => CodeValue(content, code)
    case InPages(isList, pages) =>
      var rows := PartRows(content, Parts(pages));
      if isList then List(Values(rows)) else Obj(rows)
    case InRanges(cuts) => Str(JoinText(cuts))
  }

  function DocPayloads(doc: Doc): seq<Json> {
    match doc
    case Compact(code) => [Wire(code)]
    case InPages(isList, pages) => FieldsPages(isList, CellPages(isList, pages))
    case InRanges(cuts) => RangePages(cuts, Num(|JoinText(cuts)|))
  }

  /** The frames a document is served in. */
  function DocFrames(doc: Doc, mark: nat -> Json): seq<Json> {
    var items := match doc
      case Compact(code) => Count(Wire(code))
      case InPages(_, pages) => |Parts(pages)|
      case InRanges(cuts) => |JoinText(cuts)|;
    Paging(if doc.InRanges? then Str("lines") else Null, items, DocPayloads(doc), mark)
  }

  lemma {:induction false} CellsOfPages(content: map<string, Json>, isList: bool, pages: seq<seq<Part>>)
    ensures Concat(CellPages(isList, pages)) == PartCells(isList, Parts(pages))
    decreases pages
  {
    if pages != [] {
      var n := |pages| - 1;
      CellsOfPages(content, isList, pages[..n]);
      assert CellPages(isList, pages)[..n] == CellPages(isList, pages[..n]);
      assert PartCells(isList, Parts(pages[..n]) + pages[n]) == PartCells(isList, Parts(pages[..n])) + PartCells(isList, pages[n]);
    }
  }

  lemma {:induction false} PartsInside(pages: seq<seq<Part>>, part: Part)
    requires part in Parts(pages)
    ensures exists p, i :: 0 <= p < |pages| && 0 <= i < |pages[p]| && pages[p][i] == part
    decreases pages
  {
    var n := |pages| - 1;
    if part in pages[n] {
      var i :| 0 <= i < |pages[n]| && pages[n][i] == part;
    } else {
      PartsInside(pages[..n], part);
    }
  }

  lemma PagesDeliver(content: map<string, Json>, doc: Doc)
    requires doc.InPages? && GoodDoc(doc) && DocRefs(doc) <= content.Keys
    ensures FieldsOf(content, DocPayloads(doc), |Parts(doc.pages)|) == Some(DocValue(content, doc))
  {
    hide Expands, Get, CodeValue, SameScalar, GoodCode;
    var parts := Parts(doc.pages);
    var rows := PartRows(content, parts);
    var wire := seq(|parts|, i requires 0 <= i < |parts| => Wire(parts[i].code));
    forall k | 0 <= k < |rows|
      ensures Expands(content, wire[k], rows[k].value)
    {
      PartsInside(doc.pages, parts[k]);
      CodeStandsFor(content, parts[k].code);
    }
    CellsOfPages(content, doc.isList, doc.pages);
    assert Cells(doc.isList, rows, wire) == PartCells(doc.isList, parts);
    PagedFieldsComeBack(content, doc.isList, rows, wire, CellPages(doc.isList, doc.pages));
  }

  lemma IsFieldsPage(isList: bool, cells: seq<Json>)
    ensures IsFields(FieldsPage(isList, cells))
  {
    var page := FieldsPage(isList, cells);
    assert page.fields[0].key == Str("fields") && page.fields[1].key == Str("root_type");
    assert page.fields[0] in page.fields && page.fields[1] in page.fields;
  }

  /** Any value served this way, in any document over known details, is delivered. */
  lemma DocDelivers(content: map<string, Json>, doc: Doc, mark: nat -> Json)
    requires GoodDoc(doc) && DocRefs(doc) <= content.Keys && forall k :: mark(k) != Null
    ensures Whole(DocFrames(doc, mark)) && Delivered(content, DocFrames(doc, mark)) == Some(DocValue(content, doc))
  {
    hide Descriptor, Get, IsFields, FieldsOf, TextOf, Expandable, Expand, GoodCode;
    var frames, payloads := DocFrames(doc, mark), DocPayloads(doc);
    assert payloads != [];
    var items := Descriptor(frames[0]);
    match doc
    case Compact(code) =>
      PagingIsWhole(Null, Count(Wire(code)), payloads, mark);
      CodeStandsFor(content, code);
    case InPages(isList, pages) =>
      PagingIsWhole(Null, |Parts(pages)|, payloads, mark);
      IsFieldsPage(isList, CellPages(isList, pages)[0]);
      PagesDeliver(content, doc);
    case InRanges(cuts) =>
      PagingIsWhole(Str("lines"), |JoinText(cuts)|, payloads, mark);
      CutTextComesBackIff(cuts, Num(|JoinText(cuts)|));
  }

  // ---------------------------------------------------------------------
  // The round trip
  // ---------------------------------------------------------------------

  /** The continuation after a page of a document: which document, and which page. The root has no name. */
  function Mark(name: Json, page: nat): Json {
    Pair("of", name, "page", Num(page))
  }

  function MarkOf(name: Json): nat -> Json {
    (page: nat) => Mark(name, page)
  }

  function FramesOf(name: Json, doc: Doc): seq<Json> {
    DocFrames(doc, MarkOf(name))
  }

  function DocOf(book: map<string, Doc>, root: Doc, name: Json): Option<Doc> {
    match name
    case Null => Some(root)
    case Str(detail) => Lookup(book, detail)
    case _ => None
  }

  /** The server of a book of documents: a detail's first page, and the page a continuation leads to. */
  function Answer(book: map<string, Doc>, root: Doc, q: Request): Option<Json> {
    match q
    case ReadDetail(_, detail) =>
      if detail in book && FramesOf(Str(detail), book[detail]) != [] then Some(FramesOf(Str(detail), book[detail])[0]) else None
    case ReadNext(_, cursor) =>
      var name, page := GetOr(cursor, "of", Null), GetOr(cursor, "page", Null);
      if !page.Num? || page.n < 0 || DocOf(book, root, name).None? then None
      else
        var frames := FramesOf(name, DocOf(book, root, name).value);
        if page.n + 1 < |frames| then Some(frames[page.n + 1]) else None
  }

  function ServerOf(book: map<string, Doc>, root: Doc): Server {
    (n, q) => Answer(book, root, q)
  }

  /** Documents for these values, no detail inside itself, and a root over them. */
  ghost predicate GoodBook(book: map<string, Doc>, root: Doc, content: map<string, Json>, rank: map<string, nat>) {
    && content.Keys == book.Keys == rank.Keys && GoodDoc(root) && DocRefs(root) <= book.Keys
    && forall d | d in book ::
         && GoodDoc(book[d]) && content[d] == DocValue(content, book[d])
         && forall r | r in DocRefs(book[d]) :: r in book && rank[r] < rank[d]
  }

  ghost predicate TellsMarksApart(dumps: Json -> string) {
    forall name, i: nat, j: nat | i != j :: dumps(Mark(name, i)) != dumps(Mark(name, j))
  }

  lemma MarkReads(name: Json, page: nat)
    ensures Get(Mark(name, page), "of") == Some(name) && Get(Mark(name, page), "page") == Some(Num(page))
    ensures Mark(name, page) != Null && (Refs(name) == {} ==> Refs(Mark(name, page)) == {})
  {
    assert |"of"| == 2 && |"page"| == 4 && |"action"| == 6;
    PairGets("of", name, "page", Num(page));
    if Refs(name) == {} {
      PairRefs("of", name, "page", Num(page), {});
    }
  }

  lemma ScalarHasNoRefs(v: Json)
    requires Hashable(v)
    ensures Refs(v) == {}
  {
  }

  lemma DeliveryRefs(unit: Json, items: nat, pages: nat, page: nat, cursor: Json)
    requires Refs(unit) == {} == Refs(cursor)
    ensures Refs(PageDelivery(unit, items, pages, page, cursor)) == {}
  {
    hide Refs, Get;
    var d := PageDelivery(unit, items, pages, page, cursor);
    DeliveryLacks(unit, items, pages, page, cursor, "action");
    forall i | 0 <= i < |d.fields|
      ensures Refs(d.fields[i].value) <= {}
    {
      if i < 5 {
        ScalarHasNoRefs(d.fields[i].value);
      }
    }
    ObjRefs(d.fields, {});
  }

  lemma SpanRefs(start: nat, text: string, total: nat)
    ensures Refs(RangePage(start, text, Num(total))) == {}
  {
    hide Refs;
    var span := Obj([Field(Str("start"), Num(start)), Field(Str("end"), Num(start + |text|)), Field(Str("total"), Num(total))]);
    assert |"start"| == 5 == |"total"| && |"end"| == 3 && |"content"| == 7 && |"content_range"| == 13 && |"action"| == 6;
    FindNowhere(span.fields, Str("action"));
    forall i | 0 <= i < 3
      ensures Refs(span.fields[i].value) <= {}
    {
      ScalarHasNoRefs(span.fields[i].value);
    }
    ObjRefs(span.fields, {});
    ScalarHasNoRefs(Str(text));
    PairRefs("content", Str(text), "content_range", span, {});
  }

  lemma CellsRefs(content: map<string, Json>, isList: bool, parts: seq<Part>, refs: set<string>)
    requires forall i | 0 <= i < |parts| ::
               Hashable(parts[i].key) && GoodCode(parts[i].code) && CodeRefs(parts[i].code) <= refs <= content.Keys
    ensures Refs(FieldsPage(isList, PartCells(isList, parts))) <= refs
  {
    hide Refs, GoodCode, CodeRefs;
    var cells := PartCells(isList, parts);
    forall i | 0 <= i < |cells|
      ensures Refs(cells[i]) <= refs
    {
      CodeStandsFor(content, parts[i].code);
      ScalarHasNoRefs(parts[i].key);
      assert |"index"| == 5 == |"field"| == |"value"| && |"action"| == 6 && "index"[0] != "value"[0] && "field"[0] != "value"[0];
      PairRefs(if isList then "index" else "field", parts[i].key, "value", Wire(parts[i].code), refs);
    }
    ListRefs(cells, refs);
    ScalarHasNoRefs(Str(if isList then "list" else "dict"));
    assert |"fields"| == 6 == |"action"| && "fields"[0] != "action"[0] && |"root_type"| == 9;
    PairRefs("fields", List(cells), "root_type", Str(if isList then "list" else "dict"), refs);
  }

  lemma PayloadRefs(content: map<string, Json>, doc: Doc, k: nat)
    requires GoodDoc(doc) && DocRefs(doc) <= content.Keys && k < |DocPayloads(doc)|
    ensures Refs(DocPayloads(doc)[k]) <= DocRefs(doc)
  {
    hide Refs, GoodCode, CodeRefs, RangePage, FieldsPage;
    match doc
    case Compact(code) => CodeStandsFor(content, code);
    case InPages(isList, pages) =>
      forall i | 0 <= i < |pages[k]|
        ensures Hashable(pages[k][i].key) && GoodCode(pages[k][i].code) && CodeRefs(pages[k][i].code) <= DocRefs(doc)
      {
        PartIsIn(pages, k, i);
      }
      CellsRefs(content, isList, pages[k], DocRefs(doc));
    case InRanges(cuts) => SpanRefs(|JoinText(cuts[..k])|, cuts[k], |JoinText(cuts)|);
  }

  lemma {:induction false} PartIsIn(pages: seq<seq<Part>>, p: nat, i: nat)
    requires p < |pages| && i < |pages[p]|
    ensures exists k :: 0 <= k < |Parts(pages)| && Parts(pages)[k] == pages[p][i]
    decreases pages
  {
    var n := |pages| - 1;
    if p == n {
      assert Parts(pages)[|Parts(pages[..n])| + i] == pages[p][i];
    } else {
      PartIsIn(pages[..n], p, i);
      var k :| 0 <= k < |Parts(pages[..n])| && Parts(pages[..n])[k] == pages[..n][p][i];
      assert Parts(pages)[k] == pages[p][i];
    }
  }

  /** A document's frames name no detail the document does not. */
  lemma FramesRefs(content: map<string, Json>, name: Json, doc: Doc)
    requires GoodDoc(doc) && DocRefs(doc) <= content.Keys && Hashable(name)
    ensures RefsIn(FramesOf(name, doc)) <= DocRefs(doc)
  {
    hide Refs, DocRefs, GoodDoc, DocPayloads, PageDelivery, Framed;
    var frames, payloads := FramesOf(name, doc), DocPayloads(doc);
    forall k | 0 <= k < |frames|
      ensures Refs(frames[k]) <= DocRefs(doc)
    {
      PayloadRefs(content, doc, k);
      MarkReads(name, k);
      ScalarHasNoRefs(name);
      var unit := if doc.InRanges? then Str("lines") else Null;
      ScalarHasNoRefs(unit);
      var items := match doc
        case Compact(code) => Count(Wire(code))
        case InPages(_, pages) => |Parts(pages)|
        case InRanges(cuts) => |JoinText(cuts)|;
      FramedRefs(unit, items, |payloads|, k + 1, MarkOf(name)(k), payloads[k], DocRefs(doc));
    }
  }

  lemma FramedRefs(unit: Json, items: nat, pages: nat, page: nat, cursor: Json, payload: Json, refs: set<string>)
    requires Refs(unit) == {} == Refs(cursor) && Refs(payload) <= refs
    ensures Refs(Framed(PageDelivery(unit, items, pages, page, cursor), payload)) <= refs
  {
    hide Refs;
    DeliveryRefs(unit, items, pages, page, cursor);
    assert |"delivery"| == 8 && |"result"| == 6 == |"action"| && "result"[0] != "action"[0];
    PairRefs("delivery", PageDelivery(unit, items, pages, page, cursor), "result", payload, refs);
  }

  function LibraryOf(book: map<string, Doc>, content: map<string, Json>, rank: map<string, nat>): Library {
    Library(map d | d in book :: FramesOf(Str(d), book[d]), content, rank)
  }

  lemma DocIsServed(book: map<string, Doc>, root: Doc, content: map<string, Json>, dumps: Json -> string, session: Json,
                    name: Json, doc: Doc)
    requires DocOf(book, root, name) == Some(doc) && GoodDoc(doc) && DocRefs(doc) <= content.Keys && TellsMarksApart(dumps)
    ensures Run(ServerOf(book, root), session, dumps, content, FramesOf(name, doc), DocValue(content, doc))
  {
    hide GoodDoc, DocRefs, DocValue, Delivered, Whole, Get, Mark, Descriptor, DocPayloads;
    var frames, mark := FramesOf(name, doc), MarkOf(name);
    forall k
      ensures mark(k) != Null
    {
      MarkReads(name, k);
    }
    DocDelivers(content, doc, mark);
    DocCursors(doc, mark);
    forall k, n | 0 <= k < |frames| - 1
      ensures ServerOf(book, root)(n, ReadNext(session, Cursor(frames[k]))) == Some(frames[k + 1])
    {
      MarkReads(name, k);
    }
  }

  lemma DocCursors(doc: Doc, mark: nat -> Json)
    requires GoodDoc(doc) && forall k :: mark(k) != Null
    ensures forall k: nat | k < |DocFrames(doc, mark)| :: Cursor(DocFrames(doc, mark)[k]) == mark(k)
  {
    hide Descriptor, Cursor, Whole, GoodCode;
    var items := match doc
      case Compact(code) => Count(Wire(code))
      case InPages(_, pages) => |Parts(pages)|
      case InRanges(cuts) => |JoinText(cuts)|;
    PagingIsWhole(if doc.InRanges? then Str("lines") else Null, items, DocPayloads(doc), mark);
  }

  lemma BookIsHonest(book: map<string, Doc>, root: Doc, content: map<string, Json>, rank: map<string, nat>,
                     dumps: Json -> string, session: Json)
    requires GoodBook(book, root, content, rank) && TellsMarksApart(dumps)
    ensures Honest(ServerOf(book, root), session, dumps, LibraryOf(book, content, rank))
  {
    hide HasDetail, GoodBook;
    var lib, server := LibraryOf(book, content, rank), ServerOf(book, root);
    forall d | d in lib.docs || d in lib.content || d in lib.rank
      ensures HasDetail(server, session, dumps, lib, d)
    {
      InBook(book, root, content, rank, d);
      DetailIsHonest(book, root, content, rank, dumps, session, d);
    }
  }

  lemma InBook(book: map<string, Doc>, root: Doc, content: map<string, Json>, rank: map<string, nat>, d: string)
    requires GoodBook(book, root, content, rank) && (d in book || d in content || d in rank)
    ensures d in book && d in content && d in rank && GoodDoc(book[d]) && content[d] == DocValue(content, book[d])
    ensures DocRefs(book[d]) <= content.Keys && Below(LibraryOf(book, content, rank), DocRefs(book[d]), {d})
  {
    hide GoodDoc, DocRefs, DocValue, FramesOf;
  }

  lemma DetailIsHonest(book: map<string, Doc>, root: Doc, content: map<string, Json>, rank: map<string, nat>,
                       dumps: Json -> string, session: Json, d: string)
    requires d in book && d in content && d in rank && GoodDoc(book[d]) && content[d] == DocValue(content, book[d])
    requires DocRefs(book[d]) <= content.Keys && Below(LibraryOf(book, content, rank), DocRefs(book[d]), {d})
    requires TellsMarksApart(dumps)
    ensures HasDetail(ServerOf(book, root), session, dumps, LibraryOf(book, content, rank), d)
  {
    hide GoodDoc, DocRefs, DocValue, Serves, RefsIn, FramesOf, Below, Delivered, TellsMarksApart, Pages;
    DocIsServed(book, root, content, dumps, session, Str(d), book[d]);
    FramesRefs(content, Str(d), book[d]);
    NotEmpty(FramesOf(Str(d), book[d]));
    BelowLess(LibraryOf(book, content, rank), DocRefs(book[d]), RefsIn(FramesOf(Str(d), book[d])), {d});
  }

  lemma AnswersComeFrom(book: map<string, Doc>, root: Doc, q: Request)
    requires Answer(book, root, q).Some?
    ensures exists name :: Hashable(name) && DocOf(book, root, name).Some?
                           && Answer(book, root, q).value in FramesOf(name, DocOf(book, root, name).value)
  {
    hide FramesOf, Get;
    var name := if q.ReadDetail? then Str(q.detail) else GetOr(q.cursor, "of", Null);
    assert Hashable(name) && DocOf(book, root, name).Some?;
  }

  lemma BookNames(book: map<string, Doc>, root: Doc, content: map<string, Json>, rank: map<string, nat>)
    requires GoodBook(book, root, content, rank)
    ensures Names(ServerOf(book, root), book.Keys)
  {
    hide GoodDoc, Refs, RefsIn, FramesOf, DocRefs, Answer, DocValue;
    var server := ServerOf(book, root);
    forall n, q | server(n, q).Some?
      ensures Refs(server(n, q).value) <= book.Keys
    {
      AnswersComeFrom(book, root, q);
      var name :| Hashable(name) && DocOf(book, root, name).Some?
                  && Answer(book, root, q).value in FramesOf(name, DocOf(book, root, name).value);
      var doc := DocOf(book, root, name).value;
      if !name.Null? {
        InBook(book, root, content, rank, name.text);
      }
      FramesRefs(content, name, doc);
      FrameIsIn(FramesOf(name, doc), server(n, q).value);
    }
  }

  lemma FrameIsIn(frames: seq<Json>, frame: Json)
    requires frame in frames
    ensures Refs(frame) <= RefsIn(frames)
  {
    hide Refs;
  }

  lemma RootIsBelow(lib: Library, refs: set<string>)
    requires refs <= lib.rank.Keys
    ensures Below(lib, refs, {})
  {
  }

  /** Any check result, its lists, mappings and text cut into pages anywhere and any of its parts replaced by
      details, shared or not, comes back exactly. */
  method CheckComesBack(book: map<string, Doc>, root: Doc, dumps: Json -> string,
                        ghost content: map<string, Json>, ghost rank: map<string, nat>) returns (result: Option<Json>)
    requires GoodBook(book, root, content, rank) && TellsMarksApart(dumps) && IsCheckResult(DocValue(content, root))
    ensures result == Some(DocValue(content, root))
  {
    hide GoodDoc, DocRefs, DocValue, RefsIn, FramesOf, Refs, Serves, Honest, Names, IsCheckResult, Delivered, Whole, Sound,
      Sourced, Fetched, Logged, NoDetailTwice, AskedFor, Listed, Below;
    var frames := FramesOf(Null, root);
    DocIsServed(book, root, content, dumps, Null, Null, root);
    NotEmpty(frames);
    ghost var session := ResultId(frames[0]);
    BookIsHonest(book, root, content, rank, dumps, session);
    BookNames(book, root, content, rank);
    DocIsServed(book, root, content, dumps, session, Null, root);
    FramesRefs(content, Null, root);
    FrameIsIn(frames, frames[0]);
    RootIsBelow(LibraryOf(book, content, rank), RefsIn(frames));
    ghost var log, read, cache, sources, done;
    result, log, read, cache, sources, done :=
      CompleteCheckResult(frames[0], ServerOf(book, root), dumps, book.Keys, true, LibraryOf(book, content, rank), frames);
  }
}
