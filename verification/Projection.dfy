/**
 One type language, compiled to JSON Schema and also interpreted by a decoder.

 `Valid` is the meaning JSON Schema gives a schema, `Decode` what the decoder does
 with a value. They are shown to accept the same values, and where they do not the
 condition under which they do is exact.
 */
module Projection {
  import opened Prelude

  datatype Json =
    | Null
    | Bool(truth: bool)
    | Int(n: int)
    | Float(r: real)
    | Str(text: string)
    | Arr(items: seq<Json>)
    | Obj(members: map<string, Json>)

  // ---------------------------------------------------------------------
  // Types and values
  // ---------------------------------------------------------------------

  datatype Type =
    | Text
    | Boolean
    | Integer
    | Real
    | Path
    | Date
    | Anything
    | NoneType
    | Literal(values: seq<Json>)
    | Enum(values: seq<Json>)
    | ListOf(item: Type)
    | TupleOf(item: Type)
    | Fixed(elements: seq<Type>)
    | MapOf(value: Type)
    | Union(branches: seq<Type>)
    | Record(fields: map<string, FieldType>)

  /** How a field gets its value: from the caller, from the caller or a default, or never from the caller. */
  datatype Given = Required | Defaulted(value: Value) | Derived(value: Value)

  datatype FieldType = FieldType(of: Type, given: Given)

  /** A decoded value; `Plain` is one that is its own JSON form. */
  datatype Value =
    | Plain(json: Json)
    | PathTo(text: string)
    | Member(json: Json)
    | List(items: seq<Value>)
    | Tuple(items: seq<Value>)
    | Instance(attributes: map<string, Value>)

  /** Literal and enumeration values are scalars. */
  predicate Scalar(j: Json) {
    !j.Arr? && !j.Obj?
  }

  /** The number a value compares as, true and false being 1 and 0. */
  function Number(j: Json): Option<real> {
    match j
    case Bool(b) => Some(if b then 1.0 else 0.0)
    case Int(n) => Some(n as real)
    case Float(r) => Some(r)
    case _ => None
  }

  /** Equality as the decoder's language has it. */
  predicate LooselyEqual(a: Json, b: Json) {
    a == b || (Number(a).Some? && Number(a) == Number(b))
  }

  /** Equality as JSON Schema has it: numbers by value, and no number is a boolean. */
  predicate SchemaEqual(a: Json, b: Json) {
    a == b || (!a.Bool? && !b.Bool? && LooselyEqual(a, b))
  }

  // ---------------------------------------------------------------------
  // Schemas
  // ---------------------------------------------------------------------

  datatype Kind = AString | AnInteger | ANumber | ABoolean | ANull | AnArray | AnObject

  datatype Types = AnyType | OneType(kind: Kind) | Types(kinds: seq<Kind>)

  datatype ArrayRules = Items(schema: Schema) | Prefix(schemas: seq<Schema>)

  datatype ObjectRules = Each(schema: Schema) | Closed(properties: map<string, Schema>, required: set<string>)

  /** The keywords that constrain: the kind of instance, its value, arrays only, objects only, alternatives. */
  datatype Schema = Schema(types: Types, values: Option<seq<Json>>, inArray: Option<ArrayRules>,
                           inObject: Option<ObjectRules>, anyOf: Option<Alternatives>)

  datatype Alternatives = Alternatives(schemas: seq<Schema>)

  const FREE: Schema := Schema(AnyType, None, None, None, None)

  predicate IsKind(kind: Kind, j: Json) {
    match kind
    case AString => j.Str?
    case AnInteger => j.Int? || (j.Float? && j.r == j.r.Floor as real)
    case ANumber => j.Int? || j.Float?
    case ABoolean => j.Bool?
    case ANull => j.Null?
    case AnArray => j.Arr?
    case AnObject => j.Obj?
  }

  predicate TypesAllow(types: Types, j: Json) {
    match types
    case AnyType => true
    case OneType(kind) => IsKind(kind, j)
    case Types(kinds) => exists i | 0 <= i < |kinds| :: IsKind(kinds[i], j)
  }

  predicate OneOf(values: seq<Json>, j: Json) {
    exists i | 0 <= i < |values| :: SchemaEqual(values[i], j)
  }

  predicate Valid(s: Schema, j: Json)
    decreases s, 1
  {
    && TypesAllow(s.types, j)
    && (s.values.Some? ==> OneOf(s.values.value, j))
    && (s.inArray.Some? && j.Arr? ==> ItemsValid(s.inArray.value, j.items))
    && (s.inObject.Some? && j.Obj? ==> MembersValid(s.inObject.value, j.members))
    && (s.anyOf.Some? ==> SomeValid(s.anyOf.value, j))
  }

  predicate SomeValid(any: Alternatives, j: Json)
    decreases any, 0
  {
    exists i | 0 <= i < |any.schemas| :: Valid(any.schemas[i], j)
  }

  predicate ItemsValid(rules: ArrayRules, items: seq<Json>)
    decreases rules, 0
  {
    match rules
    case Items(s) => forall i | 0 <= i < |items| :: Valid(s, items[i])
    case Prefix(schemas) => |items| == |schemas| && forall i | 0 <= i < |schemas| :: Valid(schemas[i], items[i])
  }

  predicate MembersValid(rules: ObjectRules, members: map<string, Json>)
    decreases rules, 0
  {
    match rules
    case Each(s) => forall n | n in members :: Valid(s, members[n])
    case Closed(properties, required) =>
      && (forall n | n in required :: n in members)
      && (forall n | n in members :: n in properties && Valid(properties[n], members[n]))
  }

  // ---------------------------------------------------------------------
  // Compiling a type
  // ---------------------------------------------------------------------

  function KindOf(j: Json): Kind {
    match j
    case Null => ANull
    case Bool(_) => ABoolean
    case Int(_) => AnInteger
    case Float(_) => ANumber
    case Str(_) => AString
    case Arr(_) => AnArray
    case Obj(_) => AnObject
  }

  predicate OneKind(values: seq<Json>) {
    values != [] && forall i | 0 <= i < |values| :: KindOf(values[i]) == KindOf(values[0])
  }

  predicate Distinct(kinds: seq<Kind>) {
    forall i, j | 0 <= i < j < |kinds| :: kinds[i] != kinds[j]
  }

  /** Add a branch's keywords to those merged so far; a keyword already there refuses the merge. */
  function AddBranch(merged: Schema, branch: Schema, nullable: bool): Option<Schema> {
    if (merged.values.Some? && branch.values.Some?) || (merged.inArray.Some? && branch.inArray.Some?)
       || (merged.inObject.Some? && branch.inObject.Some?) || (merged.anyOf.Some? && branch.anyOf.Some?) then None
    else
      Some(Schema(merged.types,
                  if branch.values.None? then merged.values
                  else if nullable then Some(branch.values.value + [Null]) else branch.values,
                  if branch.inArray.Some? then branch.inArray else merged.inArray,
                  if branch.inObject.Some? then branch.inObject else merged.inObject,
                  if branch.anyOf.Some? then branch.anyOf else merged.anyOf))
  }

  function Merge(kinds: seq<Kind>, branches: seq<Schema>): Option<Schema> {
    if branches == [] then Some(FREE.(types := Types(kinds)))
    else
      var n := |branches| - 1;
      var before := Merge(kinds, branches[..n]);
      if before.None? then None else AddBranch(before.value, branches[n], ANull in kinds)
  }

  /** One schema for branches of distinct single kinds, when their keywords do not clash. */
  function Compact(branches: seq<Schema>): Option<Schema> {
    if branches == [] || exists i | 0 <= i < |branches| :: !branches[i].types.OneType? then None
    else
      var kinds := seq(|branches|, i requires 0 <= i < |branches| => branches[i].types.kind);
      if Distinct(kinds) then Merge(kinds, branches) else None
  }

  method CompactUnion(branches: seq<Schema>) returns (result: Option<Schema>)
    ensures result == Compact(branches)
  {
    if branches == [] || exists i | 0 <= i < |branches| :: !branches[i].types.OneType? {
      return None;
    }
    var kinds := seq(|branches|, i requires 0 <= i < |branches| => branches[i].types.kind);
    if !Distinct(kinds) {
      return None;
    }
    var merged := FREE.(types := Types(kinds));
    for n := 0 to |branches|
      invariant Merge(kinds, branches[..n]) == Some(merged)
    {
      hide AddBranch;
      assert branches[..n + 1][..n] == branches[..n];
      var next := AddBranch(merged, branches[n], ANull in kinds);
      if next.None? {
        ClashStays(kinds, branches, n + 1);
        return None;
      }
      merged := next.value;
    }
    assert branches[..|branches|] == branches;
    result := Some(merged);
  }

  lemma {:induction false} ClashStays(kinds: seq<Kind>, branches: seq<Schema>, n: nat)
    requires n <= |branches| && Merge(kinds, branches[..n]).None?
    ensures Merge(kinds, branches).None?
    decreases branches
  {
    if n == |branches| {
      assert branches[..n] == branches;
    } else {
      var shorter := branches[..|branches| - 1];
      assert shorter[..n] == branches[..n];
      ClashStays(kinds, shorter, n);
    }
  }

  /** Two branches are of one kind, or both say something under the same keyword. */
  predicate Clash(a: Schema, b: Schema) {
    (a.types.OneType? && b.types.OneType? && a.types.kind == b.types.kind) || KeywordsClash(a, b)
  }

  /** A union is compacted exactly when its branches have one kind each and no two of them clash. */
  lemma CompactsIff(branches: seq<Schema>)
    ensures Compact(branches).Some? <==>
              && branches != [] && (forall i | 0 <= i < |branches| :: branches[i].types.OneType?)
              && (forall i, j | 0 <= i < j < |branches| :: !Clash(branches[i], branches[j]))
  {
    hide Merge;
    if branches != [] && forall i | 0 <= i < |branches| :: branches[i].types.OneType? {
      var kinds := seq(|branches|, i requires 0 <= i < |branches| => branches[i].types.kind);
      MergesIff(kinds, branches);
      assert Distinct(kinds) <==> forall i, j | 0 <= i < j < |branches| :: branches[i].types.kind != branches[j].types.kind by {
        assert forall i | 0 <= i < |branches| :: kinds[i] == branches[i].types.kind;
      }
    }
  }

  datatype Keyword = EnumWord | ArrayWord | ObjectWord | AnyOfWord

  predicate Has(s: Schema, w: Keyword) {
    match w
    case EnumWord => s.values.Some?
    case ArrayWord => s.inArray.Some?
    case ObjectWord => s.inObject.Some?
    case AnyOfWord => s.anyOf.Some?
  }

  predicate KeywordsClash(a: Schema, b: Schema) {
    exists w: Keyword :: Has(a, w) && Has(b, w)
  }

  /** The merged schema has just the keywords its branches have. */
  ghost predicate Says(branches: seq<Schema>, merged: Schema) {
    forall w: Keyword :: Has(merged, w) <==> exists i | 0 <= i < |branches| :: Has(branches[i], w)
  }

  lemma AddedSays(merged: Schema, branch: Schema, nullable: bool)
    ensures AddBranch(merged, branch, nullable).Some? <==> !KeywordsClash(merged, branch)
    ensures AddBranch(merged, branch, nullable).Some? ==>
              forall w: Keyword :: Has(AddBranch(merged, branch, nullable).value, w) <==> Has(merged, w) || Has(branch, w)
  {
    assert AddBranch(merged, branch, nullable).None? ==>
             || (Has(merged, EnumWord) && Has(branch, EnumWord)) || (Has(merged, ArrayWord) && Has(branch, ArrayWord))
             || (Has(merged, ObjectWord) && Has(branch, ObjectWord)) || (Has(merged, AnyOfWord) && Has(branch, AnyOfWord));
  }

  lemma {:induction false} MergesIff(kinds: seq<Kind>, branches: seq<Schema>)
    ensures Merge(kinds, branches).Some? <==> forall i, j | 0 <= i < j < |branches| :: !KeywordsClash(branches[i], branches[j])
    ensures Merge(kinds, branches).Some? ==> Says(branches, Merge(kinds, branches).value)
  {
    hide AddBranch, KeywordsClash, Says, Merge;
    MergeFirst(kinds, branches);
    if branches != [] {
      var n := |branches| - 1;
      var before, b := branches[..n], branches[n];
      MergesIff(kinds, before);
      assert branches == before + [b];
      if Merge(kinds, before).Some? {
        AddedSays(Merge(kinds, before).value, b, ANull in kinds);
        ClashesLater(before, Merge(kinds, before).value, b);
        if Merge(kinds, branches).Some? {
          SaysMore(before, Merge(kinds, before).value, b, Merge(kinds, branches).value);
        }
      }
      assert forall i | 0 <= i < n :: branches[i] == before[i];
    }
  }

  lemma MergeFirst(kinds: seq<Kind>, branches: seq<Schema>)
    ensures branches == [] ==> Merge(kinds, branches).Some? && Says(branches, Merge(kinds, branches).value)
    ensures branches != [] ==>
              var before := Merge(kinds, branches[..|branches| - 1]);
              Merge(kinds, branches) == if before.None? then None else AddBranch(before.value, branches[|branches| - 1], ANull in kinds)
  {
    hide AddBranch;
  }

  lemma ClashesLater(branches: seq<Schema>, merged: Schema, b: Schema)
    requires Says(branches, merged)
    ensures KeywordsClash(merged, b) <==> exists i | 0 <= i < |branches| :: KeywordsClash(branches[i], b)
  {
    hide Has;
  }

  lemma SaysMore(before: seq<Schema>, merged: Schema, b: Schema, after: Schema)
    requires Says(before, merged) && forall w: Keyword :: Has(after, w) <==> Has(merged, w) || Has(b, w)
    ensures Says(before + [b], after)
  {
    hide Has;
    var all := before + [b];
    forall w: Keyword
      ensures Has(after, w) <==> exists i | 0 <= i < |all| :: Has(all[i], w)
    {
      assert all[|before|] == b && forall i | 0 <= i < |before| :: all[i] == before[i];
      if exists i | 0 <= i < |all| :: Has(all[i], w) {
        var i :| 0 <= i < |all| && Has(all[i], w);
        assert i < |before| ==> Has(before[i], w);
      }
    }
  }

  function UnionSchema(branches: seq<Schema>): Schema {
    if Compact(branches).Some? then Compact(branches).value else FREE.(anyOf := Some(Alternatives(branches)))
  }

  function TypeSchema(t: Type): Schema {
    match t
    case Text => FREE.(types := OneType(AString))
    case Boolean => FREE.(types := OneType(ABoolean))
    case Integer => FREE.(types := OneType(AnInteger))
    case Real => FREE.(types := OneType(ANumber))
    case Path => FREE.(types := OneType(AString))
    case Date => FREE.(types := OneType(AString))
    case Anything => FREE
    case NoneType => FREE.(types := OneType(ANull))
    case Literal(values) =>
      FREE.(values := Some(values), types := if OneKind(values) then OneType(KindOf(values[0])) else AnyType)
    case Enum(values) =>
      FREE.(values := Some(values), types := OneType(if values == [] then AString else KindOf(values[0])))
    case ListOf(item) => FREE.(types := OneType(AnArray), inArray := Some(Items(TypeSchema(item))))
    case TupleOf(item) => FREE.(types := OneType(AnArray), inArray := Some(Items(TypeSchema(item))))
    case Fixed(elements) =>
      FREE.(types := OneType(AnArray),
            inArray := Some(Prefix(seq(|elements|, i requires 0 <= i < |elements| => TypeSchema(elements[i])))))
    case MapOf(value) => FREE.(types := OneType(AnObject), inObject := Some(Each(TypeSchema(value))))
    case Union(branches) =>
      var schemas := seq(|branches|, i requires 0 <= i < |branches| => TypeSchema(branches[i]));
      UnionSchema(schemas)
    case Record(fields) =>
      FREE.(types := OneType(AnObject),
            inObject := Some(Closed(map n | n in fields && !fields[n].given.Derived? :: TypeSchema(fields[n].of),
                                  set n | n in fields && fields[n].given.Required?)))
  }

  // ---------------------------------------------------------------------
  // Decoding
  // ---------------------------------------------------------------------

  function Decode(t: Type, j: Json): Option<Value>
    decreases t, 1, 0
  {
    match t
    case Text => if j.Str? then Some(Plain(j)) else None
    case Boolean => if j.Bool? then Some(Plain(j)) else None
    case Integer => if j.Int? then Some(Plain(j)) else None
    case Real => if j.Float? then Some(Plain(j)) else if j.Int? then Some(Plain(Float(j.n as real))) else None
    case Path => if j.Str? then Some(PathTo(j.text)) else None
    case Date => None
    case Anything => Some(Plain(j))
    case NoneType => None
    case Literal(values) => if exists i | 0 <= i < |values| :: LooselyEqual(values[i], j) then Some(Plain(j)) else None
    case Enum(values) => if At(values, j) < |values| then Some(Member(values[At(values, j)])) else None
    case ListOf(item) =>
      if j.Arr? && forall i | 0 <= i < |j.items| :: Decode(item, j.items[i]).Some? then
        Some(List(seq(|j.items|, i requires 0 <= i < |j.items| => Decode(item, j.items[i]).value)))
      else None
    case TupleOf(item) =>
      if j.Arr? && forall i | 0 <= i < |j.items| :: Decode(item, j.items[i]).Some? then
        Some(Tuple(seq(|j.items|, i requires 0 <= i < |j.items| => Decode(item, j.items[i]).value)))
      else None
    case Fixed(elements) =>
      if j.Arr? && |j.items| == |elements| && forall i | 0 <= i < |elements| :: Decode(elements[i], j.items[i]).Some? then
        Some(Tuple(seq(|elements|, i requires 0 <= i < |elements| => Decode(elements[i], j.items[i]).value)))
      else None
    case MapOf(_) => None
    case Union(branches) =>
      if j.Null? && NoneType in branches then Some(Plain(Null))
      else
        var matches := Matches(t, |branches|, j);
        if |matches| == 1 then Some(matches[0]) else None
    case Record(fields) =>
      if !j.Obj? || (exists n | n in j.members :: n !in fields || fields[n].given.Derived?) then None
      else if exists n | n in j.members && n in fields :: Decode(fields[n].of, j.members[n]).None? then None
      else if exists n | n in fields :: fields[n].given.Required? && n !in j.members then None
      else
        Some(Instance(map n | n in fields ::
                        if n in j.members then Decode(fields[n].of, j.members[n]).value else fields[n].given.value))
  }

  /** The first value that compares equal, as an enumeration is looked up. */
  function At(values: seq<Json>, j: Json): (at: nat)
    ensures at <= |values| && (at < |values| ==> LooselyEqual(values[at], j))
    ensures forall i | 0 <= i < at :: !LooselyEqual(values[i], j)
  {
    if values == [] || LooselyEqual(values[0], j) then 0 else 1 + At(values[1..], j)
  }

  /** What the first n branches other than `None` decode j to. */
  function Matches(t: Type, n: nat, j: Json): seq<Value>
    requires t.Union? && n <= |t.branches|
    decreases t, 0, n
  {
    if n == 0 then []
    else
      var before := Matches(t, n - 1, j);
      if t.branches[n - 1] == NoneType || Decode(t.branches[n - 1], j).None? then before
      else before + [Decode(t.branches[n - 1], j).value]
  }

  // ---------------------------------------------------------------------
  // Scalars
  // ---------------------------------------------------------------------

  /** j with every float that is an integer written as one: the same JSON number. */
  function Narrow(j: Json): Json {
    match j
    case Float(r) => if r == r.Floor as real then Int(r.Floor) else j
    case Arr(items) => Arr(seq(|items|, i requires 0 <= i < |items| => Narrow(items[i])))
    case Obj(members) => Obj(map n | n in members :: Narrow(members[n]))
    case _ => j
  }

  /** No number is written as a float that is an integer. */
  predicate Narrowed(j: Json) {
    match j
    case Float(r) => r != r.Floor as real
    case Arr(items) => forall i | 0 <= i < |items| :: Narrowed(items[i])
    case Obj(members) => forall n | n in members :: Narrowed(members[n])
    case _ => true
  }

  lemma {:induction false} NarrowedIsFixed(j: Json)
    requires Narrowed(j)
    ensures Narrow(j) == j
    decreases j
  {
    match j
    case Arr(items) =>
      forall i | 0 <= i < |items|
        ensures Narrow(items[i]) == items[i]
      {
        NarrowedIsFixed(items[i]);
      }
    case Obj(members) =>
      forall n | n in members
        ensures Narrow(members[n]) == members[n]
      {
        NarrowedIsFixed(members[n]);
      }
    case _ =>
  }

  /** The value of the other sort, boolean or number, that compares equal to v. */
  function Twin(v: Json): Option<Json> {
    match v
    case Bool(b) => Some(Int(if b then 1 else 0))
    case _ =>
      if Number(v) == Some(0.0) then Some(Bool(false)) else if Number(v) == Some(1.0) then Some(Bool(true)) else None
  }

  /** Wherever 0, 1, false or true is listed, its twin is too. */
  predicate TwinsListed(values: seq<Json>) {
    forall i | 0 <= i < |values| :: Twin(values[i]).Some? ==> OneOf(values, Twin(values[i]).value)
  }

  predicate Scalars(values: seq<Json>) {
    forall i | 0 <= i < |values| :: Scalar(values[i])
  }

  predicate ListedLoosely(values: seq<Json>, j: Json) {
    exists i | 0 <= i < |values| :: LooselyEqual(values[i], j)
  }

  lemma ListedAgrees(values: seq<Json>, j: Json)
    requires Scalars(values)
    ensures OneOf(values, j) ==> ListedLoosely(values, Narrow(j))
    ensures TwinsListed(values) && ListedLoosely(values, Narrow(j)) ==> OneOf(values, j)
  {
  }

  /** The schema of a type accepts j exactly when the decoder does, j's numbers written their shortest. */
  ghost predicate AgreesAt(t: Type, j: Json) {
    Valid(TypeSchema(t), j) <==> Decode(t, Narrow(j)).Some?
  }

  lemma ListMeans(values: seq<Json>, j: Json)
    requires Scalars(values)
    ensures Valid(TypeSchema(Literal(values)), j) <==> OneOf(values, j)
    ensures Decode(Literal(values), j).Some? <==> ListedLoosely(values, j)
    ensures Valid(TypeSchema(Enum(values)), j) <==> values != [] && IsKind(KindOf(values[0]), j) && OneOf(values, j)
    ensures Decode(Enum(values), j).Some? <==> ListedLoosely(values, j)
  {
  }

  /** A value listed has the kind of the one it equals. */
  lemma ListedKinds(values: seq<Json>, j: Json)
    requires Scalars(values) && OneOf(values, j)
    ensures FirstKindFits(values) ==> IsKind(KindOf(values[0]), j)
    ensures OneKind(values) ==> IsKind(KindOf(values[0]), j)
  {
  }

  lemma LiteralAgrees(values: seq<Json>, j: Json)
    requires Scalars(values) && TwinsListed(values)
    ensures AgreesAt(Literal(values), j)
  {
    hide OneOf, ListedLoosely, TwinsListed;
    ListMeans(values, j);
    ListMeans(values, Narrow(j));
    ListedAgrees(values, j);
  }

  /** A listed value whose twin is not listed: the twin is decoded but not validated. */
  lemma TwinDisagrees(values: seq<Json>, i: nat)
    requires Scalars(values) && i < |values| && Twin(values[i]).Some? && !OneOf(values, Twin(values[i]).value)
    ensures !AgreesAt(Literal(values), Twin(values[i]).value) && !AgreesAt(Enum(values), Twin(values[i]).value)
  {
  }

  /** What a `Literal` lists is validated as it is decoded exactly when 0, 1, false and true come with their twins. */
  lemma LiteralAgreesIff(values: seq<Json>)
    requires Scalars(values)
    ensures (forall j :: AgreesAt(Literal(values), j)) <==> TwinsListed(values)
  {
    hide OneOf, AgreesAt, Twin;
    if TwinsListed(values) {
      forall j
        ensures AgreesAt(Literal(values), j)
      {
        LiteralAgrees(values, j);
      }
    } else {
      var i :| 0 <= i < |values| && Twin(values[i]).Some? && !OneOf(values, Twin(values[i]).value);
      TwinDisagrees(values, i);
    }
  }

  /** The kind the schema of an enumeration names, that of its first value, covers every value. */
  predicate FirstKindFits(values: seq<Json>) {
    forall i | 0 <= i < |values| :: IsKind(KindOf(values[0]), values[i])
  }

  lemma EnumAgrees(values: seq<Json>, j: Json)
    requires Scalars(values) && TwinsListed(values) && FirstKindFits(values)
    ensures AgreesAt(Enum(values), j)
  {
    hide ListedLoosely, TwinsListed;
    if OneOf(values, j) {
      ListedKinds(values, j);
    }
    hide OneOf, FirstKindFits;
    ListMeans(values, j);
    ListMeans(values, Narrow(j));
    ListedAgrees(values, j);
  }

  lemma MixedEnumDisagrees(values: seq<Json>, i: nat)
    requires Scalars(values) && i < |values| && !IsKind(KindOf(values[0]), values[i])
    ensures !AgreesAt(Enum(values), values[i])
  {
  }

  /** An enumeration is validated as it is decoded exactly when, besides, its first value's kind covers them all. */
  lemma EnumAgreesIff(values: seq<Json>)
    requires Scalars(values)
    ensures (forall j :: AgreesAt(Enum(values), j)) <==> TwinsListed(values) && FirstKindFits(values)
  {
    hide OneOf, AgreesAt, Twin;
    if !FirstKindFits(values) {
      var i :| 0 <= i < |values| && !IsKind(KindOf(values[0]), values[i]);
      MixedEnumDisagrees(values, i);
    } else if TwinsListed(values) {
      forall j
        ensures AgreesAt(Enum(values), j)
      {
        EnumAgrees(values, j);
      }
    } else {
      var i :| 0 <= i < |values| && Twin(values[i]).Some? && !OneOf(values, Twin(values[i]).value);
      TwinDisagrees(values, i);
    }
  }

  // ---------------------------------------------------------------------
  // Compaction
  // ---------------------------------------------------------------------

  /** A schema of one kind whose other keywords only constrain instances of that kind. */
  predicate SingleKind(s: Schema) {
    && s.types.OneType? && s.anyOf.None?
    && (s.inArray.Some? ==> s.types.kind == AnArray) && (s.inObject.Some? ==> s.types.kind == AnObject)
    && (s.values.Some? && s.types.kind == ANull ==> OneOf(s.values.value, Null))
  }

  /** The values keyword of a branch, with null added when another branch takes it. */
  predicate Listed(s: Schema, nullable: bool, j: Json) {
    s.values.Some? ==> OneOf(s.values.value, j) || (nullable && j.Null?)
  }

  predicate InKind(s: Schema, j: Json) {
    && (s.inArray.Some? && j.Arr? ==> ItemsValid(s.inArray.value, j.items))
    && (s.inObject.Some? && j.Obj? ==> MembersValid(s.inObject.value, j.members))
  }

  lemma AddedNull(values: seq<Json>, j: Json)
    ensures OneOf(values + [Null], j) <==> OneOf(values, j) || j.Null?
  {
    if OneOf(values, j) {
      var i :| 0 <= i < |values| && SchemaEqual(values[i], j);
      assert (values + [Null])[i] == values[i];
    }
    assert (values + [Null])[|values|] == Null;
  }

  /** A merge constrains an instance as all its branches do together. */
  lemma {:induction false} MergeIsAll(kinds: seq<Kind>, branches: seq<Schema>, j: Json)
    requires Merge(kinds, branches).Some? && forall i | 0 <= i < |branches| :: SingleKind(branches[i])
    ensures var m := Merge(kinds, branches).value;
            && m.types == Types(kinds) && m.anyOf.None?
            && ((m.values.Some? ==> OneOf(m.values.value, j)) <==>
                  forall i | 0 <= i < |branches| :: Listed(branches[i], ANull in kinds, j))
            && (InKind(m, j) <==> forall i | 0 <= i < |branches| :: InKind(branches[i], j))
    decreases branches
  {
    hide OneOf, ItemsValid, MembersValid;
    if branches != [] {
      var n := |branches| - 1;
      MergeIsAll(kinds, branches[..n], j);
      assert forall i | 0 <= i < n :: branches[..n][i] == branches[i];
      if branches[n].values.Some? {
        AddedNull(branches[n].values.value, j);
      }
    }
  }

  predicate SomeBranch(branches: seq<Schema>, j: Json) {
    exists i | 0 <= i < |branches| :: Valid(branches[i], j)
  }

  /** A compacted union accepts what some branch does and every enumeration beside it lists, and nothing else. */
  lemma CompactionMeans(branches: seq<Schema>, j: Json)
    requires (forall i | 0 <= i < |branches| :: SingleKind(branches[i])) && Compact(branches).Some?
    ensures var nullable := exists i | 0 <= i < |branches| :: branches[i].types.kind == ANull;
            Valid(Compact(branches).value, j) <==>
              SomeBranch(branches, j) && forall i | 0 <= i < |branches| :: Listed(branches[i], nullable, j)
  {
    hide OneOf, ItemsValid, MembersValid, Merge;
    var kinds := seq(|branches|, i requires 0 <= i < |branches| => branches[i].types.kind);
    MergeIsAll(kinds, branches, j);
    var m := Merge(kinds, branches).value;
    var nullable := exists i | 0 <= i < |branches| :: branches[i].types.kind == ANull;
    assert nullable <==> ANull in kinds by {
      if nullable {
        var i :| 0 <= i < |branches| && branches[i].types.kind == ANull;
        assert kinds[i] == ANull;
      }
    }
    if Valid(m, j) {
      var i :| 0 <= i < |kinds| && IsKind(kinds[i], j);
      assert Listed(branches[i], nullable, j) && InKind(branches[i], j);
      assert Valid(branches[i], j);
    }
    if SomeBranch(branches, j) && forall i | 0 <= i < |branches| :: Listed(branches[i], nullable, j) {
      var i :| 0 <= i < |branches| && Valid(branches[i], j);
      assert IsKind(kinds[i], j);
      forall k | 0 <= k < |branches|
        ensures InKind(branches[k], j)
      {
        assert i < k ==> kinds[i] != kinds[k];
        assert k < i ==> kinds[k] != kinds[i];
        OthersDoNotMind(branches, i, k, j);
      }
    }
  }

  lemma OthersDoNotMind(branches: seq<Schema>, i: nat, k: nat, j: Json)
    requires i < |branches| && k < |branches| && SingleKind(branches[i]) && SingleKind(branches[k])
    requires i != k ==> branches[i].types.kind != branches[k].types.kind
    requires Valid(branches[i], j)
    ensures InKind(branches[k], j)
  {
  }

  /** An integer above every number listed. */
  function Above(values: seq<Json>): (n: int)
    ensures forall i | 0 <= i < |values| && Number(values[i]).Some? :: Number(values[i]).value < n as real
  {
    if values == [] then 0
    else
      var rest := Above(values[1..]);
      match Number(values[0])
      case None => rest
      case Some(r) => if r < rest as real then rest else r.Floor + 1
  }

  /** A string longer than every string listed. */
  function Longer(values: seq<Json>): (s: string)
    ensures forall i | 0 <= i < |values| && values[i].Str? :: |values[i].text| < |s|
  {
    if values == [] then "a"
    else
      var rest := Longer(values[1..]);
      if values[0].Str? && |values[0].text| >= |rest| then values[0].text + "a" else rest
  }

  lemma {:induction false} EnumsClash(kinds: seq<Kind>, branches: seq<Schema>, i: nat, k: nat)
    requires i < k < |branches| && branches[i].values.Some? && branches[k].values.Some?
    ensures Merge(kinds, branches).None?
    decreases branches
  {
    var n := |branches| - 1;
    if k < n {
      EnumsClash(kinds, branches[..n], i, k);
    } else if Merge(kinds, branches[..n]).Some? {
      MergeKeepsValues(kinds, branches[..n], i);
    }
  }

  lemma {:induction false} MergeKeepsValues(kinds: seq<Kind>, branches: seq<Schema>, i: nat)
    requires i < |branches| && branches[i].values.Some? && Merge(kinds, branches).Some?
    ensures Merge(kinds, branches).value.values.Some?
    decreases branches
  {
    if i < |branches| - 1 {
      MergeKeepsValues(kinds, branches[..|branches| - 1], i);
    }
  }

  ghost predicate Empty(s: Schema) {
    forall j :: !Valid(s, j)
  }

  /** A branch that may stand beside an enumeration: null, booleans when both are listed, or one nothing satisfies. */
  ghost predicate Harmless(values: seq<Json>, other: Schema)
    requires other.types.OneType?
  {
    || other.types.kind == ANull || Empty(other)
    || (other.types.kind == ABoolean && OneOf(values, Bool(true)) && OneOf(values, Bool(false)))
  }

  /** A branch that is not harmless has a value the enumeration does not list. */
  lemma HarmfulLoses(values: seq<Json>, other: Schema) returns (j: Json)
    requires SingleKind(other) && other.values.None? && Scalars(values) && !Harmless(values, other)
    ensures Valid(other, j) && !OneOf(values, j) && !j.Null?
  {
    if other.types.kind == AString {
      j := Str(Longer(values));
    } else if other.types.kind in {AnInteger, ANumber} {
      j := Int(Above(values));
    } else if other.types.kind == ABoolean {
      j := Bool(!OneOf(values, Bool(true)));
    } else {
      j :| Valid(other, j);
    }
  }

  /** Compaction keeps the meaning of a union for every value exactly when each enumeration has only harmless
      branches beside it. */
  lemma CompactionKeepsMeaningIff(branches: seq<Schema>)
    requires (forall i | 0 <= i < |branches| :: SingleKind(branches[i]) && (branches[i].values.Some? ==> Scalars(branches[i].values.value)))
    requires Compact(branches).Some?
    ensures (forall j :: Valid(Compact(branches).value, j) <==> SomeBranch(branches, j))
            <==> forall i, k | 0 <= i < |branches| && 0 <= k < |branches| && i != k && branches[i].values.Some? ::
                   Harmless(branches[i].values.value, branches[k])
  {
    hide OneOf, Scalars, Merge, Harmless, Compact, Listed, Valid;
    if forall j :: Valid(Compact(branches).value, j) <==> SomeBranch(branches, j) {
      forall i, k | 0 <= i < |branches| && 0 <= k < |branches| && i != k && branches[i].values.Some?
        ensures Harmless(branches[i].values.value, branches[k])
      {
        OneEnum(branches, i, k);
        if !Harmless(branches[i].values.value, branches[k]) {
          var j := HarmfulLoses(branches[i].values.value, branches[k]);
          assert SomeBranch(branches, j);
          CompactionMeans(branches, j);
          NotListed(branches[i], j);
        }
      }
    }
    if forall i, k | 0 <= i < |branches| && 0 <= k < |branches| && i != k && branches[i].values.Some? ::
         Harmless(branches[i].values.value, branches[k]) {
      forall j
        ensures Valid(Compact(branches).value, j) <==> SomeBranch(branches, j)
      {
        HarmlessKeeps(branches, j);
      }
    }
  }

  lemma NotListed(s: Schema, j: Json)
    requires s.values.Some? && !OneOf(s.values.value, j) && !j.Null?
    ensures forall nullable :: !Listed(s, nullable, j)
  {
  }

  lemma OneEnum(branches: seq<Schema>, i: nat, k: nat)
    requires Compact(branches).Some? && i < |branches| && k < |branches| && i != k && branches[i].values.Some?
    requires branches[k].types.OneType?
    ensures branches[k].values.None?
  {
    hide Merge;
    if branches[k].values.Some? {
      var kinds := seq(|branches|, m requires 0 <= m < |branches| => branches[m].types.kind);
      if i < k {
        EnumsClash(kinds, branches, i, k);
      } else {
        EnumsClash(kinds, branches, k, i);
      }
    }
  }

  lemma HarmlessKeeps(branches: seq<Schema>, j: Json)
    requires (forall i | 0 <= i < |branches| :: SingleKind(branches[i])) && Compact(branches).Some?
    requires forall i, k | 0 <= i < |branches| && 0 <= k < |branches| && i != k && branches[i].values.Some? ::
               Harmless(branches[i].values.value, branches[k])
    ensures Valid(Compact(branches).value, j) <==> SomeBranch(branches, j)
  {
    hide Compact, Merge;
    CompactionMeans(branches, j);
    if SomeBranch(branches, j) {
      var k :| 0 <= k < |branches| && Valid(branches[k], j);
      forall i | 0 <= i < |branches|
        ensures Listed(branches[i], exists m | 0 <= m < |branches| :: branches[m].types.kind == ANull, j)
      {
        if i != k && branches[i].values.Some? {
          assert Harmless(branches[i].values.value, branches[k]);
        }
      }
    }
  }

  /** Two branches of different kinds whose keywords do not clash do compact. */
  lemma TwoCompact(a: Schema, b: Schema)
    requires SingleKind(a) && SingleKind(b) && a.types.kind != b.types.kind && (a.values.None? || b.values.None?)
    ensures var nullable := ANull in {a.types.kind, b.types.kind};
            Compact([a, b]) == Some(Schema(Types([a.types.kind, b.types.kind]),
              if a.values.Some? then (if nullable then Some(a.values.value + [Null]) else a.values)
              else if b.values.Some? && nullable then Some(b.values.value + [Null]) else b.values,
              if a.inArray.Some? then a.inArray else b.inArray,
              if a.inObject.Some? then a.inObject else b.inObject, None))
  {
    var branches := [a, b];
    var kinds := [a.types.kind, b.types.kind];
    assert kinds == seq(|branches|, i requires 0 <= i < |branches| => branches[i].types.kind);
    assert branches[..1] == [a] && [a][..0] == [];
    assert Merge(kinds, []) == Some(FREE.(types := Types(kinds)));
    assert Merge(kinds, [a]) == AddBranch(FREE.(types := Types(kinds)), a, ANull in kinds);
    assert Merge(kinds, branches) == AddBranch(Merge(kinds, [a]).value, b, ANull in kinds);
  }

  /** It fails whenever a string enumeration stands beside integers: every integer is lost. */
  lemma EnumBesideIntegersLosesThem(names: seq<string>, n: int)
    requires names != []
    ensures var values := seq(|names|, i requires 0 <= i < |names| => Str(names[i]));
            var t := Union([Literal(values), Integer]);
            !Valid(TypeSchema(t), Int(n)) && Decode(t, Int(n)) == Some(Plain(Int(n)))
  {
    var values := seq(|names|, i requires 0 <= i < |names| => Str(names[i]));
    var t := Union([Literal(values), Integer]);
    var schemas := [TypeSchema(Literal(values)), TypeSchema(Integer)];
    assert OneKind(values);
    assert schemas == seq(2, i requires 0 <= i < 2 => TypeSchema(t.branches[i]));
    assert Matches(t, 1, Int(n)) == [];
    assert Matches(t, 2, Int(n)) == [Plain(Int(n))];
    TwoCompact(schemas[0], schemas[1]);
    CompactionMeans(schemas, Int(n));
    assert !Listed(schemas[0], false, Int(n));
  }

  // ---------------------------------------------------------------------
  // The schema and the decoder agree
  // ---------------------------------------------------------------------

  /** A union of one type that is not a union and `None`, either way round. */
  predicate Optional(branches: seq<Type>) {
    |branches| == 2 && exists i | 0 <= i < 2 :: branches[1 - i] == NoneType && branches[i] != NoneType && !branches[i].Union?
  }

  function Inner(branches: seq<Type>): Type
    requires Optional(branches)
  {
    if branches[0] == NoneType then branches[1] else branches[0]
  }

  /** A type the decoder knows, whose unions are optionals and whose listed values agree. */
  predicate Simple(t: Type) {
    match t
    case Date => false
    case NoneType => false
    case MapOf(_) => false
    case Literal(values) => Scalars(values) && TwinsListed(values)
    case Enum(values) => Scalars(values) && TwinsListed(values) && FirstKindFits(values)
    case ListOf(item) => Simple(item)
    case TupleOf(item) => Simple(item)
    case Fixed(elements) => forall i | 0 <= i < |elements| :: Simple(elements[i])
    case Union(branches) => Optional(branches) && Simple(Inner(branches))
    case Record(fields) => forall n | n in fields && !fields[n].given.Derived? :: Simple(fields[n].of)
    case _ => true
  }

  lemma ArrayAgrees(t: Type, j: Json)
    requires t.ListOf? || t.TupleOf?
    requires j.Arr? ==> forall i | 0 <= i < |j.items| :: AgreesAt(t.item, j.items[i])
    ensures AgreesAt(t, j)
  {
    var s := TypeSchema(t);
    assert s.inArray == Some(Items(TypeSchema(t.item)));
    if j.Arr? {
      forall i | 0 <= i < |j.items|
        ensures Valid(TypeSchema(t.item), j.items[i]) <==> Decode(t.item, Narrow(j).items[i]).Some?
      {
        assert AgreesAt(t.item, j.items[i]);
      }
      assert Valid(s, j) <==> ItemsValid(s.inArray.value, j.items);
      assert Decode(t, Narrow(j)).Some? <==> forall i | 0 <= i < |j.items| :: Decode(t.item, Narrow(j).items[i]).Some?;
    }
  }

  lemma FixedAgrees(t: Type, j: Json)
    requires t.Fixed?
    requires j.Arr? && |j.items| == |t.elements| ==> forall i | 0 <= i < |j.items| :: AgreesAt(t.elements[i], j.items[i])
    ensures AgreesAt(t, j)
  {
  }

  lemma RecordAgrees(t: Type, j: Json)
    requires t.Record?
    requires j.Obj? ==> forall n | n in j.members && n in t.fields && !t.fields[n].given.Derived? ::
                          AgreesAt(t.fields[n].of, j.members[n])
    ensures AgreesAt(t, j)
  {
  }

  lemma SchemaIsSingle(t: Type)
    requires !t.Union?
    ensures TypeSchema(t).types.OneType? ==> SingleKind(TypeSchema(t))
  {
  }

  const NULL: Schema := FREE.(types := OneType(ANull))

  lemma NullableMeans(a: Schema, b: Schema, j: Json)
    requires (a.types.OneType? ==> SingleKind(a)) && (b.types.OneType? ==> SingleKind(b)) && (a == NULL || b == NULL)
    ensures Valid(UnionSchema([a, b]), j) <==> Valid(a, j) || Valid(b, j)
  {
    hide Merge, InKind, OneOf, ItemsValid, MembersValid;
    var schemas := [a, b];
    if Compact(schemas).Some? {
      hide Compact, Valid;
      HarmlessKeeps(schemas, j);
    }
    assert SomeBranch(schemas, j) <==> Valid(schemas[0], j) || Valid(schemas[1], j) by {
      hide Valid;
    }
  }

  /** The schema of an optional, compacted or not, accepts null and what the other branch does. */
  lemma OptionalMeans(branches: seq<Type>, j: Json)
    requires Optional(branches)
    ensures Valid(TypeSchema(Union(branches)), j) <==> j.Null? || Valid(TypeSchema(Inner(branches)), j)
  {
    var a, b := TypeSchema(branches[0]), TypeSchema(branches[1]);
    assert TypeSchema(NoneType) == NULL && (Valid(NULL, j) <==> j.Null?);
    SchemaIsSingle(branches[0]);
    SchemaIsSingle(branches[1]);
    hide Valid, SingleKind, UnionSchema;
    assert seq(|branches|, i requires 0 <= i < |branches| => TypeSchema(branches[i])) == [a, b];
    NullableMeans(a, b, j);
  }

  lemma OptionalDecodes(branches: seq<Type>, j: Json)
    requires Optional(branches)
    ensures Decode(Union(branches), j) == if j.Null? then Some(Plain(Null)) else Decode(Inner(branches), j)
  {
    var t := Union(branches);
    assert branches[0] in branches && branches[1] in branches;
    assert Matches(t, 0, j) == [];
    assert Matches(t, 2, j) == if Decode(Inner(branches), j).Some? then [Decode(Inner(branches), j).value] else [] by {
      assert Matches(t, 1, j) == if branches[0] == NoneType || Decode(branches[0], j).None? then [] else [Decode(branches[0], j).value];
    }
  }

  lemma NarrowKeepsNull(j: Json)
    ensures Narrow(j).Null? <==> j.Null?
  {
  }

  /** The schema compiled from a type accepts exactly the values its decoder does. */
  lemma {:induction false} SchemaAndDecoderAgree(t: Type, j: Json)
    requires Simple(t)
    ensures AgreesAt(t, j)
    decreases t
  {
    hide AgreesAt, Scalars, TwinsListed, FirstKindFits;
    match t
    case Literal(values) => LiteralAgrees(values, j);
    case Enum(values) => EnumAgrees(values, j);
    case ListOf(item) =>
      if j.Arr? {
        forall i | 0 <= i < |j.items|
          ensures AgreesAt(item, j.items[i])
        {
          SchemaAndDecoderAgree(item, j.items[i]);
        }
      }
      ArrayAgrees(t, j);
    case TupleOf(item) =>
      if j.Arr? {
        forall i | 0 <= i < |j.items|
          ensures AgreesAt(item, j.items[i])
        {
          SchemaAndDecoderAgree(item, j.items[i]);
        }
      }
      ArrayAgrees(t, j);
    case Fixed(elements) =>
      if j.Arr? && |j.items| == |elements| {
        forall i | 0 <= i < |j.items|
          ensures AgreesAt(elements[i], j.items[i])
        {
          SchemaAndDecoderAgree(elements[i], j.items[i]);
        }
      }
      FixedAgrees(t, j);
    case Union(branches) =>
      SchemaAndDecoderAgree(Inner(branches), j);
      OptionalAgrees(branches, j);
    case Record(fields) =>
      if j.Obj? {
        forall n | n in j.members && n in fields && !fields[n].given.Derived?
          ensures AgreesAt(fields[n].of, j.members[n])
        {
          SchemaAndDecoderAgree(fields[n].of, j.members[n]);
        }
      }
      RecordAgrees(t, j);
    case _ => BasicAgrees(t, j);
  }

  lemma OptionalAgrees(branches: seq<Type>, j: Json)
    requires Optional(branches) && AgreesAt(Inner(branches), j)
    ensures AgreesAt(Union(branches), j)
  {
    hide Valid, TypeSchema, Decode, Narrow, Optional, Inner;
    OptionalMeans(branches, j);
    OptionalDecodes(branches, Narrow(j));
    NarrowKeepsNull(j);
  }

  lemma BasicAgrees(t: Type, j: Json)
    requires t in {Text, Boolean, Integer, Real, Path, Anything}
    ensures AgreesAt(t, j)
  {
  }

  /** On a value written its shortest the two agree outright. */
  lemma ValidIsDecoded(t: Type, j: Json)
    requires Simple(t) && Narrowed(j)
    ensures Valid(TypeSchema(t), j) <==> Decode(t, j).Some?
  {
    SchemaAndDecoderAgree(t, j);
    NarrowedIsFixed(j);
  }

  /** A float that is an integer is valid as an integer but not decoded as one. */
  lemma IntegralFloatsDiffer(n: int)
    ensures Valid(TypeSchema(Integer), Float(n as real)) && Decode(Integer, Float(n as real)).None?
  {
  }

  /** Outside optionals a union can be ambiguous: an integer is valid as an integer or a number, and not decoded. */
  lemma AmbiguousUnionsDiffer(n: int)
    ensures var t := Union([Integer, Real]);
            Valid(TypeSchema(t), Int(n)) && Decode(t, Int(n)).None?
  {
    var t := Union([Integer, Real]);
    var schemas := [TypeSchema(Integer), TypeSchema(Real)];
    assert schemas == seq(2, i requires 0 <= i < 2 => TypeSchema(t.branches[i]));
    TwoCompact(schemas[0], schemas[1]);
    assert TypeSchema(t).types == Types([AnInteger, ANumber]) && IsKind([AnInteger, ANumber][0], Int(n));
    assert Matches(t, 1, Int(n)) == [Plain(Int(n))];
    assert |Matches(t, 2, Int(n))| == 2;
  }

  // ---------------------------------------------------------------------
  // Wire values
  // ---------------------------------------------------------------------

  function Wire(v: Value): Json {
    match v
    case Plain(j) => j
    case PathTo(text) => Str(text)
    case Member(j) => j
    case List(items) => Arr(seq(|items|, i requires 0 <= i < |items| => Wire(items[i])))
    case Tuple(items) => Arr(seq(|items|, i requires 0 <= i < |items| => Wire(items[i])))
    case Instance(attributes) => Obj(map n | n in attributes :: Wire(attributes[n]))
  }

  /** v is a value of the type t, whose unions are optionals and whose enumerations have no two equal values. */
  predicate Typed(t: Type, v: Value)
    decreases t, v
  {
    match t
    case Text => v.Plain? && v.json.Str?
    case Boolean => v.Plain? && v.json.Bool?
    case Integer => v.Plain? && v.json.Int?
    case Real => v.Plain? && v.json.Float?
    case Path => v.PathTo?
    case Anything => v.Plain?
    case Literal(values) => v.Plain? && v.json in values
    case Enum(values) =>
      && v.Member? && v.json in values
      && forall i, k | 0 <= i < k < |values| :: !LooselyEqual(values[i], values[k])
    case ListOf(item) => v.List? && forall i | 0 <= i < |v.items| :: Typed(item, v.items[i])
    case TupleOf(item) => v.Tuple? && forall i | 0 <= i < |v.items| :: Typed(item, v.items[i])
    case Fixed(elements) => v.Tuple? && |v.items| == |elements| && forall i | 0 <= i < |elements| :: Typed(elements[i], v.items[i])
    case Union(branches) => Optional(branches) && (v == Plain(Null) || Typed(Inner(branches), v))
    case Record(fields) =>
      v.Instance? && v.attributes.Keys == fields.Keys && forall n | n in fields :: Typed(fields[n].of, v.attributes[n])
    case _ => false
  }

  /** Nothing in v is lost on the wire: no field its class does not take from callers, and no enumeration
      member written as null where null is allowed beside it. */
  predicate Returns(t: Type, v: Value)
    requires Typed(t, v)
    decreases t, v
  {
    match t
    case ListOf(item) => forall i | 0 <= i < |v.items| :: Returns(item, v.items[i])
    case TupleOf(item) => forall i | 0 <= i < |v.items| :: Returns(item, v.items[i])
    case Fixed(elements) => forall i | 0 <= i < |elements| :: Returns(elements[i], v.items[i])
    case Union(branches) => v == Plain(Null) || (Wire(v) != Null && Returns(Inner(branches), v))
    case Record(fields) => forall n | n in fields :: !fields[n].given.Derived? && Returns(fields[n].of, v.attributes[n])
    case _ => true
  }

  ghost predicate ComesBack(t: Type, v: Value) {
    Decode(t, Wire(v)) == Some(v)
  }

  lemma ArrayComesBack(t: Type, v: Value)
    requires (t.ListOf? && v.List?) || (t.TupleOf? && v.Tuple?)
    ensures ComesBack(t, v) <==> forall i | 0 <= i < |v.items| :: ComesBack(t.item, v.items[i])
  {
    var j := Wire(v);
    if ComesBack(t, v) {
      forall i | 0 <= i < |v.items|
        ensures ComesBack(t.item, v.items[i])
      {
        assert Decode(t, j).value.items[i] == Decode(t.item, j.items[i]).value;
      }
    }
    if forall i | 0 <= i < |v.items| :: ComesBack(t.item, v.items[i]) {
      assert forall i | 0 <= i < |v.items| :: Decode(t.item, j.items[i]) == Some(v.items[i]);
      assert Decode(t, j).value.items == v.items;
    }
  }

  lemma FixedComesBack(t: Type, v: Value)
    requires t.Fixed? && v.Tuple? && |v.items| == |t.elements|
    ensures ComesBack(t, v) <==> forall i | 0 <= i < |v.items| :: ComesBack(t.elements[i], v.items[i])
  {
    var j := Wire(v);
    if ComesBack(t, v) {
      forall i | 0 <= i < |v.items|
        ensures ComesBack(t.elements[i], v.items[i])
      {
        assert Decode(t, j).value.items[i] == Decode(t.elements[i], j.items[i]).value;
      }
    }
    if forall i | 0 <= i < |v.items| :: ComesBack(t.elements[i], v.items[i]) {
      assert forall i | 0 <= i < |v.items| :: Decode(t.elements[i], j.items[i]) == Some(v.items[i]);
      assert Decode(t, j).value.items == v.items;
    }
  }

  lemma RecordComesBack(t: Type, v: Value)
    requires t.Record? && v.Instance? && v.attributes.Keys == t.fields.Keys
    ensures ComesBack(t, v) <==>
              forall n | n in t.fields :: !t.fields[n].given.Derived? && ComesBack(t.fields[n].of, v.attributes[n])
  {
    if ComesBack(t, v) {
      forall n | n in t.fields
        ensures !t.fields[n].given.Derived? && ComesBack(t.fields[n].of, v.attributes[n])
      {
        FieldComesBack(t, v, n);
      }
    }
    if forall n | n in t.fields :: !t.fields[n].given.Derived? && ComesBack(t.fields[n].of, v.attributes[n]) {
      FieldsComeBack(t, v);
    }
  }

  lemma FieldComesBack(t: Type, v: Value, n: string)
    requires t.Record? && v.Instance? && v.attributes.Keys == t.fields.Keys && ComesBack(t, v) && n in t.fields
    ensures !t.fields[n].given.Derived? && ComesBack(t.fields[n].of, v.attributes[n])
  {
  }

  lemma FieldsComeBack(t: Type, v: Value)
    requires t.Record? && v.Instance? && v.attributes.Keys == t.fields.Keys
    requires forall n | n in t.fields :: !t.fields[n].given.Derived? && ComesBack(t.fields[n].of, v.attributes[n])
    ensures ComesBack(t, v)
  {
    hide Decode;
    var j := Wire(v);
    forall n | n in t.fields
      ensures Decode(t.fields[n].of, j.members[n]) == Some(v.attributes[n])
    {
    }
    RecordDecodes(t, j, v.attributes);
  }

  lemma RecordDecodes(t: Type, j: Json, attributes: map<string, Value>)
    requires t.Record? && j.Obj? && j.members.Keys == t.fields.Keys == attributes.Keys
    requires forall n | n in t.fields :: !t.fields[n].given.Derived? && Decode(t.fields[n].of, j.members[n]) == Some(attributes[n])
    ensures Decode(t, j) == Some(Instance(attributes))
  {
    assert Decode(t, j).Some?;
    assert Decode(t, j).value.attributes == attributes;
  }

  lemma ScalarComesBack(t: Type, v: Value)
    requires Typed(t, v) && t in {Text, Boolean, Integer, Real, Path, Anything}
    ensures ComesBack(t, v)
  {
  }

  lemma ListedComesBack(t: Type, v: Value)
    requires Typed(t, v) && (t.Literal? || t.Enum?)
    ensures ComesBack(t, v)
  {
  }

  /** A well-typed value comes back from the wire exactly when nothing in it is lost there. */
  lemma {:induction false} WireComesBackIff(t: Type, v: Value)
    requires Typed(t, v)
    ensures ComesBack(t, v) <==> Returns(t, v)
    decreases t
  {
    hide ComesBack, LooselyEqual;
    match t
    case ListOf(item) =>
      forall i | 0 <= i < |v.items|
        ensures ComesBack(item, v.items[i]) <==> Returns(item, v.items[i])
      {
        WireComesBackIff(item, v.items[i]);
      }
      ArrayComesBack(t, v);
    case TupleOf(item) =>
      forall i | 0 <= i < |v.items|
        ensures ComesBack(item, v.items[i]) <==> Returns(item, v.items[i])
      {
        WireComesBackIff(item, v.items[i]);
      }
      ArrayComesBack(t, v);
    case Fixed(elements) =>
      forall i | 0 <= i < |elements|
        ensures ComesBack(elements[i], v.items[i]) <==> Returns(elements[i], v.items[i])
      {
        WireComesBackIff(elements[i], v.items[i]);
      }
      FixedComesBack(t, v);
    case Union(branches) =>
      if v != Plain(Null) {
        WireComesBackIff(Inner(branches), v);
      }
      OptionalComesBack(branches, v);
    case Record(fields) =>
      forall n | n in fields
        ensures ComesBack(fields[n].of, v.attributes[n]) <==> Returns(fields[n].of, v.attributes[n])
      {
        WireComesBackIff(fields[n].of, v.attributes[n]);
      }
      RecordComesBack(t, v);
    case Literal(_) => ListedComesBack(t, v);
    case Enum(_) => ListedComesBack(t, v);
    case _ => ScalarComesBack(t, v);
  }

  lemma OptionalComesBack(branches: seq<Type>, v: Value)
    requires Optional(branches)
    ensures ComesBack(Union(branches), v) <==> v == Plain(Null) || (Wire(v) != Null && ComesBack(Inner(branches), v))
  {
    hide Decode;
    OptionalDecodes(branches, Wire(v));
  }

  /** A class whose instances carry a field it does not take from callers never comes back. */
  lemma DerivedFieldsDoNotComeBack(fields: map<string, FieldType>, v: Value, n: string)
    requires Typed(Record(fields), v) && n in fields && fields[n].given.Derived?
    ensures Decode(Record(fields), Wire(v)).None?
  {
  }
}
