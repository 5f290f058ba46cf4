/**
 Standing host streams of the MCP proxy: which streams are open, which events are
 queued for them, and what survives a snapshot.

 `Table` is the state, `Apply` one operation on it; the class below is the
 object the proxy holds, each of whose methods is proved to be that operation.
 */
module Subscriptions {
  import opened Prelude

  const MAX_SUBSCRIPTIONS: nat := 128
  const MAX_SUBSCRIPTION_BYTES: nat := 64 * 1024
  const MAX_PENDING_EVENTS: nat := 1024

  datatype Id = Text(text: string) | Number(number: int)

  /** The four notification methods a stream can ask for. */
  datatype Kind = ToolsChanged | PromptsChanged | ResourcesChanged | ResourceUpdated

  /** A normalised filter: absent flags are false, absent URIs are none. */
  datatype Filter = Filter(tools: bool, prompts: bool, resources: bool, uris: seq<string>)

  datatype Stream = Stream(id: Id, filter: Filter)

  datatype Key = Key(id: Id, token: nat, kind: Kind, uri: Option<string>)

  datatype Frame =
    | Acknowledged(id: Id, filter: Filter)
    | Cancelled(id: Id, reason: string)
    | Event(key: Key)

  datatype Error = BadId | BadFilter | AlreadyActive | LimitReached

  const BACKLOG: string := "subscription backlog full; re-listen and refetch"

  // ---------------------------------------------------------------------
  // Filters as received
  // ---------------------------------------------------------------------

  datatype RawId = Usable(id: Id) | Unusable

  datatype Flag = NoFlag | Given(value: bool) | NotBool

  datatype Uris = NoUris | NotAList | Items(items: seq<Option<string>>)

  datatype RawFilter = NotAnObject | Raw(tools: Flag, prompts: Flag, resources: Flag, uris: Uris)

  /** Keep the first of each, in order. */
  function Dedupe(items: seq<string>): seq<string> {
    if items == [] then []
    else
      var n := |items| - 1;
      var kept := Dedupe(items[..n]);
      if items[n] in kept then kept else kept + [items[n]]
  }

  function Values(items: seq<Option<string>>): seq<string>
    requires forall i | 0 <= i < |items| :: items[i].Some?
  {
    seq(|items|, i requires 0 <= i < |items| => items[i].value)
  }

  function NormaliseFilter(raw: RawFilter): Result<Filter, Error> {
    if raw.NotAnObject? || raw.tools.NotBool? || raw.prompts.NotBool? || raw.resources.NotBool? || raw.uris.NotAList?
       || (raw.uris.Items? && exists i | 0 <= i < |raw.uris.items| :: raw.uris.items[i].None?) then Err(BadFilter)
    else Ok(Filter(raw.tools == Given(true), raw.prompts == Given(true), raw.resources == Given(true),
                   if raw.uris.Items? then Dedupe(Values(raw.uris.items)) else []))
  }

  /** A normalised filter, sent again. */
  function AsRaw(f: Filter): RawFilter {
    Raw(if f.tools then Given(true) else NoFlag,
        if f.prompts then Given(true) else NoFlag,
        if f.resources then Given(true) else NoFlag,
        if f.uris == [] then NoUris else Items(seq(|f.uris|, i requires 0 <= i < |f.uris| => Some(f.uris[i]))))
  }

  predicate Unrepeated(items: seq<string>) {
    forall i, j | 0 <= i < j < |items| :: items[i] != items[j]
  }

  lemma {:induction false} DedupeKeepsEach(items: seq<string>)
    ensures Unrepeated(Dedupe(items))
    ensures forall x :: x in Dedupe(items) <==> x in items
    ensures Unrepeated(items) ==> Dedupe(items) == items
  {
    if items != [] {
      var n := |items| - 1;
      DedupeKeepsEach(items[..n]);
      assert items == items[..n] + [items[n]];
    }
  }

  /** Some mention of `a` comes before every mention of `b`. */
  predicate Precedes<T(==)>(items: seq<T>, a: T, b: T) {
    exists p | 0 <= p < |items| :: items[p] == a && b !in items[..p + 1]
  }

  /** Entries are kept in the order of their first mentions. */
  lemma {:induction false} DedupeKeepsOrder(items: seq<string>, i: nat, j: nat)
    requires i < j < |Dedupe(items)|
    ensures Precedes(items, Dedupe(items)[i], Dedupe(items)[j])
  {
    hide Precedes;
    var n := |items| - 1;
    var kept := Dedupe(items[..n]);
    DedupeKeepsEach(items[..n]);
    if j < |kept| {
      DedupeKeepsOrder(items[..n], i, j);
      PrecedesStill(items, kept[i], kept[j]);
    } else {
      PrecedesLast(items, kept[i]);
    }
  }

  lemma PrecedesStill(items: seq<string>, a: string, b: string)
    requires items != [] && Precedes(items[..|items| - 1], a, b)
    ensures Precedes(items, a, b)
  {
    var before := items[..|items| - 1];
    var p :| 0 <= p < |before| && before[p] == a && b !in before[..p + 1];
    assert before[..p + 1] == items[..p + 1];
  }

  lemma PrecedesLast(items: seq<string>, a: string)
    requires items != [] && a in items[..|items| - 1] && items[|items| - 1] !in items[..|items| - 1]
    ensures Precedes(items, a, items[|items| - 1])
  {
    var before, last := items[..|items| - 1], items[|items| - 1];
    var p :| 0 <= p < |before| && before[p] == a;
    assert forall x | x in items[..p + 1] :: x in before;
  }

  /** A filter is accepted exactly when its flags are booleans and its URIs a list of strings. */
  predicate Accepted(raw: RawFilter) {
    && raw.Raw? && !raw.tools.NotBool? && !raw.prompts.NotBool? && !raw.resources.NotBool? && !raw.uris.NotAList?
    && (raw.uris.Items? ==> forall i | 0 <= i < |raw.uris.items| :: raw.uris.items[i].Some?)
  }

  /** What was asked for is what is kept: the flags that are true, and each URI once, by its first mention. */
  lemma NormaliseKeepsWhatIsAsked(raw: RawFilter)
    ensures if Accepted(raw) then NormaliseFilter(raw).Ok? else NormaliseFilter(raw) == Err(BadFilter)
    ensures Accepted(raw) ==>
              var f := NormaliseFilter(raw).value;
              && (f.tools <==> raw.tools == Given(true)) && (f.prompts <==> raw.prompts == Given(true))
              && (f.resources <==> raw.resources == Given(true)) && (!raw.uris.Items? ==> f.uris == [])
              && (raw.uris.Items? ==> UrisOf(raw.uris.items, f.uris))
  {
    if Accepted(raw) && raw.uris.Items? {
      hide UrisOf, Dedupe, Values;
      DedupeIsUrisOf(raw.uris.items);
    }
  }

  /** Each URI mentioned, once, in the order of their first mentions. */
  ghost predicate UrisOf(items: seq<Option<string>>, uris: seq<string>) {
    && Unrepeated(uris) && (forall uri :: uri in uris <==> Some(uri) in items)
    && (forall i, j | 0 <= i < j < |uris| :: Precedes(items, Some(uris[i]), Some(uris[j])))
  }

  lemma DedupeIsUrisOf(items: seq<Option<string>>)
    requires forall i | 0 <= i < |items| :: items[i].Some?
    ensures UrisOf(items, Dedupe(Values(items)))
  {
    hide Dedupe, Precedes;
    var values := Values(items);
    var uris := Dedupe(values);
    DedupeKeepsEach(values);
    forall uri
      ensures uri in values <==> Some(uri) in items
    {
      if Some(uri) in items {
        var i :| 0 <= i < |items| && items[i] == Some(uri);
        assert values[i] == uri;
      }
    }
    forall i, j | 0 <= i < j < |uris|
      ensures Precedes(items, Some(uris[i]), Some(uris[j]))
    {
      DedupeKeepsOrder(values, i, j);
      ValuesPrecede(items, uris[i], uris[j]);
    }
  }

  lemma ValuesPrecede(items: seq<Option<string>>, a: string, b: string)
    requires (forall i | 0 <= i < |items| :: items[i].Some?) && Precedes(Values(items), a, b)
    ensures Precedes(items, Some(a), Some(b))
  {
    var values := Values(items);
    var p :| 0 <= p < |values| && values[p] == a && b !in values[..p + 1];
    assert items[p] == Some(a);
    var mentions, before := items[..p + 1], values[..p + 1];
    forall q | 0 <= q < |mentions|
      ensures mentions[q] != Some(b)
    {
      assert before[q] in before;
    }
  }

  /** Normalising twice changes nothing: every accepted filter survives being sent again. */
  lemma NormaliseIsIdempotent(raw: RawFilter)
    requires NormaliseFilter(raw).Ok?
    ensures Unrepeated(NormaliseFilter(raw).value.uris)
    ensures NormaliseFilter(AsRaw(NormaliseFilter(raw).value)) == NormaliseFilter(raw)
  {
    if raw.uris.Items? {
      DedupeKeepsEach(Values(raw.uris.items));
    }
    NormalIsFixed(NormaliseFilter(raw).value);
  }

  lemma NormalIsFixed(f: Filter)
    requires Unrepeated(f.uris)
    ensures NormaliseFilter(AsRaw(f)) == Ok(f)
  {
    DedupeKeepsEach(f.uris);
    if f.uris != [] {
      assert Values(AsRaw(f).uris.items) == f.uris;
    }
  }

  // ---------------------------------------------------------------------
  // The table and its operations
  // ---------------------------------------------------------------------

  datatype Table = Table(streams: seq<Stream>, tokens: map<Id, nat>, pending: set<Key>, next: nat)

  const EMPTY: Table := Table([], map[], {}, 0)

  /** Bytes of the JSON snapshot: the items, their separators and the brackets. */
  function EncodedSize(itemSize: Stream -> nat, streams: seq<Stream>): nat {
    if streams == [] then 2
    else
      var n := |streams| - 1;
      EncodedSize(itemSize, streams[..n]) + (if n == 0 then 0 else 2) + itemSize(streams[n])
  }

  /** The JSON text of a snapshot, its items encoded by `encode`. */
  function SnapshotText(encode: Stream -> string, streams: seq<Stream>): string {
    "[" + Joined(encode, streams) + "]"
  }

  function Joined(encode: Stream -> string, streams: seq<Stream>): string {
    if streams == [] then "" else encode(streams[0]) + (if |streams| == 1 then "" else ", " + Joined(encode, streams[1..]))
  }

  /** The size is the length of that text. */
  lemma {:induction false} SizeIsLength(encode: Stream -> string, streams: seq<Stream>)
    ensures EncodedSize(s => |encode(s)|, streams) == |SnapshotText(encode, streams)|
    decreases streams
  {
    if streams != [] {
      var n := |streams| - 1;
      SizeIsLength(encode, streams[..n]);
      JoinedLonger(encode, streams[..n], streams[n]);
      assert streams == streams[..n] + [streams[n]];
    }
  }

  lemma {:induction false} JoinedLonger(encode: Stream -> string, streams: seq<Stream>, s: Stream)
    ensures |Joined(encode, streams + [s])| == |Joined(encode, streams)| + (if streams == [] then 0 else 2) + |encode(s)|
    decreases streams
  {
    if streams != [] {
      JoinedLonger(encode, streams[1..], s);
      assert (streams + [s])[1..] == streams[1..] + [s];
    }
  }

  function Ids(streams: seq<Stream>): set<Id> {
    set s | s in streams :: s.id
  }

  predicate Distinct(streams: seq<Stream>) {
    forall i, j | 0 <= i < j < |streams| :: streams[i].id != streams[j].id
  }

  function Open(itemSize: Stream -> nat, t: Table, id: RawId, raw: RawFilter): Result<Table, Error> {
    if id.Unusable? then Err(BadId)
    else if NormaliseFilter(raw).Err? then Err(NormaliseFilter(raw).error)
    else if id.id in Ids(t.streams) then Err(AlreadyActive)
    else
      var streams := t.streams + [Stream(id.id, NormaliseFilter(raw).value)];
      if |streams| > MAX_SUBSCRIPTIONS || EncodedSize(itemSize, streams) > MAX_SUBSCRIPTION_BYTES then Err(LimitReached)
      else Ok(Table(streams, t.tokens[id.id := t.next], t.pending, t.next + 1))
  }

  function Close(streams: seq<Stream>, id: Id): seq<Stream> {
    if streams == [] then []
    else
      var n := |streams| - 1;
      if streams[n].id == id then streams[..n] else Close(streams[..n], id) + [streams[n]]
  }

  function Cancel(t: Table, id: Id): Table {
    t.(streams := Close(t.streams, id), tokens := Without(t.tokens, id))
  }

  function Clear(t: Table): Table {
    Table([], map[], {}, t.next)
  }

  /** A stream is opened exactly when its identifier and filter are usable, it is not open, and there is room for it;
      it then comes last, under a token of its own. */
  lemma OpensIff(itemSize: Stream -> nat, t: Table, id: RawId, raw: RawFilter)
    requires Good(itemSize, t)
    ensures Open(itemSize, t, id, raw).Ok? <==>
              && id.Usable? && Accepted(raw) && id.id !in t.tokens && |t.streams| < MAX_SUBSCRIPTIONS
              && EncodedSize(itemSize, t.streams + [Stream(id.id, NormaliseFilter(raw).value)]) <= MAX_SUBSCRIPTION_BYTES
    ensures Open(itemSize, t, id, raw).Ok? ==>
              var after := Open(itemSize, t, id, raw).value;
              && after.streams == t.streams + [Stream(id.id, NormaliseFilter(raw).value)] && after.pending == t.pending
              && after.tokens.Keys == t.tokens.Keys + {id.id} && after.tokens[id.id] !in t.tokens.Values
              && (forall other | other in t.tokens :: after.tokens[other] == t.tokens[other])
    ensures Open(itemSize, t, id, raw).Err? ==>
              Open(itemSize, t, id, raw).error == if id.Unusable? then BadId else if !Accepted(raw) then BadFilter
                                                  else if id.id in t.tokens then AlreadyActive else LimitReached
  {
    hide NormaliseFilter, EncodedSize, Accepted, UrisOf, Unrepeated;
    NormaliseKeepsWhatIsAsked(raw);
    if Open(itemSize, t, id, raw).Ok? {
      forall v | v in t.tokens.Values
        ensures v < t.next
      {
        var other :| other in t.tokens && t.tokens[other] == v;
      }
    }
  }

  predicate Current(t: Table, key: Key) {
    Lookup(t.tokens, key.id) == Some(key.token)
  }

  predicate Matches(f: Filter, kind: Kind, uri: Option<string>) {
    match kind
    case ToolsChanged => f.tools
    case PromptsChanged => f.prompts
    case ResourcesChanged => f.resources
    case ResourceUpdated => uri.Some? && uri.value in f.uris
  }

  datatype Effect = Effect(table: Table, frames: seq<Frame>)

  /** One stream's turn: coalesce, refuse a full backlog by closing the stream, or queue. */
  function EmitTo(t: Table, s: Stream, kind: Kind, uri: Option<string>): Effect {
    if !Matches(s.filter, kind, uri) || s.id !in t.tokens then Effect(t, [])
    else
      var key := Key(s.id, t.tokens[s.id], kind, uri);
      if key in t.pending then Effect(t, [])
      else if |t.pending| >= MAX_PENDING_EVENTS then Effect(Cancel(t, s.id), [Cancelled(s.id, BACKLOG)])
      else Effect(t.(pending := t.pending + {key}), [Event(key)])
  }

  /** The turns of `streams`, the list of open streams taken before the first of them. */
  function EmitEach(t: Table, streams: seq<Stream>, kind: Kind, uri: Option<string>): Effect
    decreases streams
  {
    if streams == [] then Effect(t, [])
    else
      var first := EmitTo(t, streams[0], kind, uri);
      var rest := EmitEach(first.table, streams[1..], kind, uri);
      Effect(rest.table, first.frames + rest.frames)
  }

  // ---------------------------------------------------------------------
  // The invariant
  // ---------------------------------------------------------------------

  ghost predicate Tokens(t: Table) {
    && Distinct(t.streams) && t.tokens.Keys == Ids(t.streams)
    && (forall a, b | a in t.tokens && b in t.tokens && a != b :: t.tokens[a] != t.tokens[b])
    && (forall id | id in t.tokens :: t.tokens[id] < t.next)
  }

  ghost predicate Bounded(itemSize: Stream -> nat, t: Table) {
    && |t.streams| <= MAX_SUBSCRIPTIONS && EncodedSize(itemSize, t.streams) <= MAX_SUBSCRIPTION_BYTES
    && |t.pending| <= MAX_PENDING_EVENTS && (forall key | key in t.pending :: key.token < t.next)
    && (forall s | s in t.streams :: Unrepeated(s.filter.uris))
  }

  ghost predicate Good(itemSize: Stream -> nat, t: Table) {
    Tokens(t) && Bounded(itemSize, t)
  }

  lemma {:induction false} CloseKeepsTheRest(streams: seq<Stream>, id: Id)
    requires Distinct(streams)
    ensures Distinct(Close(streams, id)) && forall s :: s in Close(streams, id) <==> s in streams && s.id != id
  {
    if streams != [] {
      var n := |streams| - 1;
      assert streams == streams[..n] + [streams[n]];
      CloseKeepsTheRest(streams[..n], id);
      if streams[n].id != id {
        var rest := Close(streams[..n], id);
        forall i | 0 <= i < |rest|
          ensures rest[i].id != streams[n].id
        {
          assert rest[i] in rest && rest[i] in streams[..n];
        }
      } else {
        forall s | s in streams[..n]
          ensures s.id != id
        {
        }
      }
    }
  }

  lemma {:induction false} CloseIsSmaller(itemSize: Stream -> nat, streams: seq<Stream>, id: Id)
    ensures |Close(streams, id)| <= |streams|
    ensures EncodedSize(itemSize, Close(streams, id)) <= EncodedSize(itemSize, streams)
  {
    if streams != [] {
      var n := |streams| - 1;
      CloseIsSmaller(itemSize, streams[..n], id);
      if streams[n].id != id {
        var rest := Close(streams[..n], id);
        assert (rest + [streams[n]])[..|rest|] == rest;
      }
    }
  }

  lemma CancelKeepsGood(itemSize: Stream -> nat, t: Table, id: Id)
    requires Good(itemSize, t)
    ensures Good(itemSize, Cancel(t, id)) && id !in Cancel(t, id).tokens
    ensures forall s :: s in Cancel(t, id).streams <==> s in t.streams && s.id != id
  {
    hide Close, Unrepeated, EncodedSize, Distinct;
    CloseKeepsTheRest(t.streams, id);
    CloseIsSmaller(itemSize, t.streams, id);
  }

  lemma OpenKeepsGood(itemSize: Stream -> nat, t: Table, id: RawId, raw: RawFilter)
    requires Good(itemSize, t) && Open(itemSize, t, id, raw).Ok?
    ensures Good(itemSize, Open(itemSize, t, id, raw).value)
  {
    hide NormaliseFilter, Unrepeated, EncodedSize;
    NormaliseIsIdempotent(raw);
    var s := Stream(id.id, NormaliseFilter(raw).value);
    assert forall x | x in t.streams :: x.id in Ids(t.streams);
    forall x
      ensures x in t.streams + [s] <==> x in t.streams || x == s
    {
    }
  }

  /** What one turn leaves alone. */
  predicate Kept(t: Table, t': Table) {
    && t'.next == t.next && t.pending <= t'.pending
    && (forall id | id in t'.tokens :: Lookup(t'.tokens, id) == Lookup(t.tokens, id))
    && (forall x | x in t'.streams :: x in t.streams)
  }

  lemma EmitToKeepsGood(itemSize: Stream -> nat, t: Table, s: Stream, kind: Kind, uri: Option<string>)
    requires Good(itemSize, t) && s.id in t.tokens
    ensures Good(itemSize, EmitTo(t, s, kind, uri).table) && Kept(t, EmitTo(t, s, kind, uri).table)
    ensures forall id | id != s.id :: Lookup(EmitTo(t, s, kind, uri).table.tokens, id) == Lookup(t.tokens, id)
    ensures Served(t, EmitTo(t, s, kind, uri), s, kind, uri)
  {
    hide Unrepeated, EncodedSize, Distinct, Close;
    CancelKeepsGood(itemSize, t, s.id);
  }

  /** After its turn a matching stream has the event pending, or was closed and told so. */
  predicate Served(t: Table, effect: Effect, s: Stream, kind: Kind, uri: Option<string>)
    requires s.id in t.tokens
  {
    && (Matches(s.filter, kind, uri) ==>
          || (Lookup(effect.table.tokens, s.id) == Some(t.tokens[s.id])
              && Key(s.id, t.tokens[s.id], kind, uri) in effect.table.pending)
          || (s.id !in effect.table.tokens && Cancelled(s.id, BACKLOG) in effect.frames))
    && (!Matches(s.filter, kind, uri) ==> Lookup(effect.table.tokens, s.id) == Some(t.tokens[s.id]))
  }

  /** The frames tell exactly what a turn did: an event for each key newly queued, each for a stream that asked for it,
      a cancellation for each stream closed, and a stream is closed only for a full backlog. */
  ghost predicate Told(t: Table, effect: Effect, streams: seq<Stream>, kind: Kind, uri: Option<string>) {
    && (forall key :: Event(key) in effect.frames <==> key in effect.table.pending && key !in t.pending)
    && (forall key | key in effect.table.pending && key !in t.pending ::
          && key.kind == kind && key.uri == uri && Current(t, key)
          && exists s | s in streams :: s.id == key.id && Matches(s.filter, kind, uri))
    && (forall id, reason :: Cancelled(id, reason) in effect.frames <==>
          reason == BACKLOG && id in t.tokens && id !in effect.table.tokens)
    && (forall id | id in t.tokens && id !in effect.table.tokens :: |effect.table.pending| >= MAX_PENDING_EVENTS)
  }

  lemma EmitToTells(t: Table, s: Stream, kind: Kind, uri: Option<string>)
    requires s.id in t.tokens
    ensures Told(t, EmitTo(t, s, kind, uri), [s], kind, uri)
  {
    hide Matches, Close;
    assert s in [s];
  }

  /** One event offered to these streams in turn tells exactly what it did. */
  lemma {:induction false} EmitEachTells(itemSize: Stream -> nat, t: Table, streams: seq<Stream>, kind: Kind, uri: Option<string>)
    requires Good(itemSize, t)
    requires Ids(streams) <= t.tokens.Keys && Distinct(streams)
    ensures Told(t, EmitEach(t, streams, kind, uri), streams, kind, uri)
    decreases streams
  {
    hide Good, Matches, EmitTo, Ids, Distinct, Told;
    if streams == [] {
      NothingTold(t, streams, kind, uri);
    } else {
      var s := streams[0];
      MemberIds(streams, s);
      var first := EmitTo(t, s, kind, uri);
      EmitToKeepsGood(itemSize, t, s, kind, uri);
      EmitToTells(t, s, kind, uri);
      RestIsApart(streams);
      forall id | id in Ids(streams[1..])
        ensures id in first.table.tokens
      {
        assert Lookup(first.table.tokens, id) == Lookup(t.tokens, id);
      }
      EmitEachServes(itemSize, first.table, streams[1..], kind, uri);
      EmitEachTells(itemSize, first.table, streams[1..], kind, uri);
      ToldBoth(t, first, EmitEach(first.table, streams[1..], kind, uri), streams, kind, uri);
    }
  }

  lemma NothingTold(t: Table, streams: seq<Stream>, kind: Kind, uri: Option<string>)
    ensures Told(t, Effect(t, []), streams, kind, uri)
  {
  }

  lemma ToldBoth(t: Table, first: Effect, rest: Effect, streams: seq<Stream>, kind: Kind, uri: Option<string>)
    requires streams != [] && Kept(t, first.table) && Kept(first.table, rest.table)
    requires Told(t, first, [streams[0]], kind, uri) && Told(first.table, rest, streams[1..], kind, uri)
    ensures Told(t, Effect(rest.table, first.frames + rest.frames), streams, kind, uri)
  {
    hide Matches;
    SubsetIsSmaller(first.table.pending, rest.table.pending);
    assert forall id :: id in first.table.tokens ==> Lookup(first.table.tokens, id) == Lookup(t.tokens, id);
    assert forall id :: id in rest.table.tokens ==> Lookup(rest.table.tokens, id) == Lookup(first.table.tokens, id);
  }

  lemma {:induction false} SubsetIsSmaller(a: set<Key>, b: set<Key>)
    requires a <= b
    ensures |a| <= |b|
  {
    if a != {} {
      var x :| x in a;
      SubsetIsSmaller(a - {x}, b - {x});
    }
  }

  lemma RestIsApart(streams: seq<Stream>)
    requires streams != [] && Distinct(streams)
    ensures Distinct(streams[1..]) && streams[0].id !in Ids(streams[1..])
    ensures Ids(streams) == Ids(streams[1..]) + {streams[0].id}
  {
  }

  /** Every stream is served, nothing is unqueued, no other stream moves. */
  lemma {:induction false} EmitEachServes(itemSize: Stream -> nat, t: Table, streams: seq<Stream>, kind: Kind, uri: Option<string>)
    requires Good(itemSize, t)
    requires Ids(streams) <= t.tokens.Keys && Distinct(streams)
    ensures var effect := EmitEach(t, streams, kind, uri);
            && Good(itemSize, effect.table) && Kept(t, effect.table)
            && (forall s | s in streams :: Served(t, effect, s, kind, uri))
            && (forall id | id !in Ids(streams) :: Lookup(effect.table.tokens, id) == Lookup(t.tokens, id))
    decreases streams
  {
    hide Good, Matches, EmitTo, Ids, Distinct;
    if streams != [] {
      var s := streams[0];
      MemberIds(streams, s);
      var first := EmitTo(t, s, kind, uri);
      EmitToKeepsGood(itemSize, t, s, kind, uri);
      RestIsApart(streams);
      forall id | id in Ids(streams[1..])
        ensures id in first.table.tokens
      {
        assert Lookup(first.table.tokens, id) == Lookup(t.tokens, id);
      }
      EmitEachServes(itemSize, first.table, streams[1..], kind, uri);
      var rest := EmitEach(first.table, streams[1..], kind, uri);
      var effect := EmitEach(t, streams, kind, uri);
      forall x | x in streams
        ensures x.id in t.tokens && Served(t, effect, x, kind, uri)
      {
        MemberIds(streams, x);
        if x in streams[1..] {
          MemberIds(streams[1..], x);
          assert Served(first.table, rest, x, kind, uri);
        } else {
          assert x == s;
        }
      }
    }
  }

  lemma MemberIds(streams: seq<Stream>, s: Stream)
    requires s in streams
    ensures s.id in Ids(streams)
  {
  }

  /** One event offered to every open stream. */
  function Emitted(t: Table, kind: Kind, uri: Option<string>): Effect {
    EmitEach(t, t.streams, kind, uri)
  }

  lemma AllOpen(itemSize: Stream -> nat, t: Table)
    requires Good(itemSize, t)
    ensures Ids(t.streams) == t.tokens.Keys && Distinct(t.streams)
  {
  }

  // ---------------------------------------------------------------------
  // Operations and runs
  // ---------------------------------------------------------------------

  datatype Op =
    | OpOpen(rawId: RawId, rawFilter: RawFilter)
    | OpCancel(id: Id)
    | OpEnd
    | OpClear
    | OpDelivered(key: Key)
    | OpEmit(kind: Kind, uri: Option<string>)
    | OpInvalidate

  /** What one operation leaves, on any table. */
  function Apply(itemSize: Stream -> nat, t: Table, op: Op): Table {
    match op
    case OpOpen(id, filter) => if Open(itemSize, t, id, filter).Ok? then Open(itemSize, t, id, filter).value else t
    case OpCancel(id) => Cancel(t, id)
    case OpEnd => t.(streams := [], tokens := map[])
    case OpClear => Clear(t)
    case OpDelivered(key) => t.(pending := t.pending - {key})
    case OpEmit(kind, uri) => Emitted(t, kind, uri).table
    case OpInvalidate => EmitAll(t, Hidden(t.streams)).table
  }

  /** Every operation keeps the invariant, and tokens only move forward. */
  lemma ApplyKeepsGood(itemSize: Stream -> nat, t: Table, op: Op)
    requires Good(itemSize, t)
    ensures Good(itemSize, Apply(itemSize, t, op)) && t.next <= Apply(itemSize, t, op).next
    ensures forall id | id in Apply(itemSize, t, op).tokens ::
              Lookup(Apply(itemSize, t, op).tokens, id) in {Lookup(t.tokens, id), Some(t.next)}
  {
    hide EmitEach, EmitAll, Hidden, NormaliseFilter, EncodedSize, Close;
    match op {
      case OpOpen(id, filter) =>
        if Open(itemSize, t, id, filter).Ok? {
          OpenKeepsGood(itemSize, t, id, filter);
        }
      case OpCancel(id) => CancelKeepsGood(itemSize, t, id);
      case OpEmit(kind, uri) => EmitEachServes(itemSize, t, t.streams, kind, uri);
      case OpInvalidate => EmitAllKeeps(itemSize, t, Hidden(t.streams));
      case OpEnd => NothingOpenIsGood(itemSize, t, t.pending);
      case OpClear => NothingOpenIsGood(itemSize, t, {});
      case _ =>
    }
  }

  lemma NothingOpenIsGood(itemSize: Stream -> nat, t: Table, pending: set<Key>)
    requires Good(itemSize, t) && pending <= t.pending && |pending| <= |t.pending|
    ensures Good(itemSize, Table([], map[], pending, t.next))
  {
  }

  /** Any operations, one after another, from the empty table. */
  predicate Run(itemSize: Stream -> nat, tables: seq<Table>, ops: seq<Op>) {
    && |tables| == |ops| + 1 && tables[0] == EMPTY
    && (forall k | 0 <= k < |ops| :: tables[k + 1] == Apply(itemSize, tables[k], ops[k]))
  }

  /** Over every run: the pending set, the open streams and their encoded size never exceed their limits;
      streams and tokens have the same keys. */
  lemma {:induction false} RunsStayGood(itemSize: Stream -> nat, tables: seq<Table>, ops: seq<Op>, k: nat)
    requires Run(itemSize, tables, ops) && k <= |ops|
    ensures Good(itemSize, tables[k])
    decreases k
  {
    hide Apply;
    if k == 0 {
      EmptyIsGood(itemSize);
    } else {
      RunsStayGood(itemSize, tables, ops, k - 1);
      ApplyKeepsGood(itemSize, tables[k - 1], ops[k - 1]);
      assert tables[k - 1 + 1] == Apply(itemSize, tables[k - 1], ops[k - 1]);
    }
  }

  lemma EmptyIsGood(itemSize: Stream -> nat)
    ensures Good(itemSize, EMPTY)
  {
  }

  /** Once an issued event key is not current it never is again, even if its request id is reopened. */
  lemma {:induction false} NeverCurrentAgain(itemSize: Stream -> nat, tables: seq<Table>, ops: seq<Op>, a: nat, b: nat, key: Key)
    requires Run(itemSize, tables, ops) && a <= b <= |ops|
    requires key.token < tables[a].next && !Current(tables[a], key)
    ensures key.token < tables[b].next && !Current(tables[b], key)
    decreases b
  {
    hide Good, Apply;
    if a < b {
      NeverCurrentAgain(itemSize, tables, ops, a, b - 1, key);
      RunsStayGood(itemSize, tables, ops, b - 1);
      assert tables[b - 1 + 1] == Apply(itemSize, tables[b - 1], ops[b - 1]);
      ApplyKeepsGood(itemSize, tables[b - 1], ops[b - 1]);
    }
  }

  /** An event queued for a request id before its cancel is never current after it. */
  lemma CancelRetiresQueuedEvents(itemSize: Stream -> nat, tables: seq<Table>, ops: seq<Op>, a: nat, b: nat, key: Key)
    requires Run(itemSize, tables, ops) && a < b <= |ops|
    requires ops[a] == OpCancel(key.id) || ops[a] in {OpEnd, OpClear}
    requires key in tables[a].pending
    ensures !Current(tables[b], key)
  {
    RunsStayGood(itemSize, tables, ops, a);
    assert tables[a + 1] == Apply(itemSize, tables[a], ops[a]);
    NeverCurrentAgain(itemSize, tables, ops, a + 1, b, key);
  }

  /** A token names one opening of one stream for ever. */
  lemma TokensAreNeverReused(itemSize: Stream -> nat, tables: seq<Table>, ops: seq<Op>, a: nat, b: nat, c: nat,
                             id: Id, other: Id, token: nat)
    requires Run(itemSize, tables, ops) && a <= c <= b <= |ops|
    requires Lookup(tables[a].tokens, id) == Some(token) && Lookup(tables[b].tokens, other) == Some(token)
    ensures other == id && Lookup(tables[c].tokens, id) == Some(token)
  {
    RunsStayGood(itemSize, tables, ops, a);
    var key := Key(other, token, ToolsChanged, None);
    if other != id {
      NeverCurrentAgain(itemSize, tables, ops, a, b, key);
    } else if Lookup(tables[c].tokens, id) != Some(token) {
      NextOnlyGrows(itemSize, tables, ops, a, c);
      NeverCurrentAgain(itemSize, tables, ops, c, b, key);
    }
  }

  lemma {:induction false} NextOnlyGrows(itemSize: Stream -> nat, tables: seq<Table>, ops: seq<Op>, a: nat, b: nat)
    requires Run(itemSize, tables, ops) && a <= b <= |ops|
    ensures tables[a].next <= tables[b].next
    decreases b
  {
    hide Good, Apply;
    if a < b {
      NextOnlyGrows(itemSize, tables, ops, a, b - 1);
      RunsStayGood(itemSize, tables, ops, b - 1);
      ApplyKeepsGood(itemSize, tables[b - 1], ops[b - 1]);
      assert tables[b - 1 + 1] == Apply(itemSize, tables[b - 1], ops[b - 1]);
    }
  }

  /** After an event every stream that asked for it has it pending, or, the backlog being full, is closed with a
      cancellation published. */
  lemma EmitReachesEveryStream(itemSize: Stream -> nat, t: Table, kind: Kind, uri: Option<string>, s: Stream)
    requires Good(itemSize, t) && s in t.streams && Matches(s.filter, kind, uri)
    ensures s.id in t.tokens
    ensures var effect := EmitEach(t, t.streams, kind, uri);
            || (Current(effect.table, Key(s.id, t.tokens[s.id], kind, uri))
                && Key(s.id, t.tokens[s.id], kind, uri) in effect.table.pending)
            || (s.id !in effect.table.tokens && Cancelled(s.id, BACKLOG) in effect.frames
                && |effect.table.pending| >= MAX_PENDING_EVENTS)
  {
    MemberIds(t.streams, s);
    EmitEachServes(itemSize, t, t.streams, kind, uri);
    EmitEachTells(itemSize, t, t.streams, kind, uri);
    assert Served(t, EmitEach(t, t.streams, kind, uri), s, kind, uri);
  }

  // ---------------------------------------------------------------------
  // Invalidation
  // ---------------------------------------------------------------------

  datatype Change = Change(kind: Kind, uri: Option<string>)

  /** Every URI any of the streams asked for, in order. */
  function Watched(streams: seq<Stream>): seq<string> {
    if streams == [] then [] else streams[0].filter.uris + Watched(streams[1..])
  }

  /** What a resync gap may have hidden from these streams: each kind and each URI any of them asked for. */
  function Hidden(streams: seq<Stream>): seq<Change> {
    var uris := Dedupe(Watched(streams));
    (if exists s | s in streams :: s.filter.tools then [Change(ToolsChanged, None)] else [])
    + (if exists s | s in streams :: s.filter.prompts then [Change(PromptsChanged, None)] else [])
    + (if exists s | s in streams :: s.filter.resources then [Change(ResourcesChanged, None)] else [])
    + seq(|uris|, i requires 0 <= i < |uris| => Change(ResourceUpdated, Some(uris[i])))
  }

  /** A list of changes, each emitted in turn. */
  function EmitAll(t: Table, changes: seq<Change>): Effect
    decreases changes
  {
    if changes == [] then Effect(t, [])
    else
      var first := Emitted(t, changes[0].kind, changes[0].uri);
      var rest := EmitAll(first.table, changes[1..]);
      Effect(rest.table, first.frames + rest.frames)
  }

  /** The stream still open under the token it had, with this change queued, or, the backlog being full, closed and
      told so. */
  predicate Informed(effect: Effect, token: nat, id: Id, change: Change) {
    || (Lookup(effect.table.tokens, id) == Some(token) && Key(id, token, change.kind, change.uri) in effect.table.pending)
    || (id !in effect.table.tokens && Cancelled(id, BACKLOG) in effect.frames && |effect.table.pending| >= MAX_PENDING_EVENTS)
  }

  lemma {:induction false} HiddenHolds(streams: seq<Stream>, s: Stream, change: Change)
    requires s in streams && Matches(s.filter, change.kind, change.uri)
    requires change.kind.ResourceUpdated? || change.uri.None?
    ensures change in Hidden(streams)
  {
    if change.kind.ResourceUpdated? {
      var uris := Dedupe(Watched(streams));
      WatchedHolds(streams, s, change.uri.value);
      DedupeKeepsEach(Watched(streams));
      var i :| 0 <= i < |uris| && uris[i] == change.uri.value;
      assert seq(|uris|, i requires 0 <= i < |uris| => Change(ResourceUpdated, Some(uris[i])))[i] == change;
    }
  }

  /** A gap may have hidden just what some stream asked for. */
  lemma HiddenIsWhatWasAsked(streams: seq<Stream>, change: Change)
    ensures change in Hidden(streams) <==>
              (change.kind.ResourceUpdated? || change.uri.None?)
              && exists s | s in streams :: Matches(s.filter, change.kind, change.uri)
  {
    if exists s | s in streams :: Matches(s.filter, change.kind, change.uri) {
      var s :| s in streams && Matches(s.filter, change.kind, change.uri);
      if change.kind.ResourceUpdated? || change.uri.None? {
        HiddenHolds(streams, s, change);
      }
    }
    if change in Hidden(streams) && change.kind.ResourceUpdated? {
      DedupeKeepsEach(Watched(streams));
      assert change.uri.Some? && change.uri.value in Watched(streams);
      SomeoneWatches(streams, change.uri.value);
    }
  }

  lemma {:induction false} SomeoneWatches(streams: seq<Stream>, uri: string)
    requires uri in Watched(streams)
    ensures exists s | s in streams :: uri in s.filter.uris
  {
    if uri !in streams[0].filter.uris {
      SomeoneWatches(streams[1..], uri);
    }
  }

  lemma {:induction false} WatchedHolds(streams: seq<Stream>, s: Stream, uri: string)
    requires s in streams && uri in s.filter.uris
    ensures uri in Watched(streams)
  {
    if s != streams[0] {
      WatchedHolds(streams[1..], s, uri);
    }
  }

  lemma StaysItself(itemSize: Stream -> nat, t: Table, t': Table, s: Stream)
    requires Good(itemSize, t) && Good(itemSize, t') && Kept(t, t')
    requires s in t.streams && s.id in t'.tokens
    ensures s in t'.streams
  {
  }

  lemma {:induction false} EmitAllKeeps(itemSize: Stream -> nat, t: Table, changes: seq<Change>)
    requires Good(itemSize, t)
    ensures Good(itemSize, EmitAll(t, changes).table) && Kept(t, EmitAll(t, changes).table)
    decreases changes
  {
    hide Good, EmitEach, Ids, Distinct, Matches;
    if changes != [] {
      AllOpen(itemSize, t);
      EmitEachServes(itemSize, t, t.streams, changes[0].kind, changes[0].uri);
      var first := Emitted(t, changes[0].kind, changes[0].uri);
      EmitAllKeeps(itemSize, first.table, changes[1..]);
      KeptChains(t, first.table, EmitAll(first.table, changes[1..]).table);
    }
  }

  lemma KeptChains(a: Table, b: Table, c: Table)
    requires Kept(a, b) && Kept(b, c)
    ensures Kept(a, c)
  {
  }

  /** Emitting a list of changes leaves each matching stream with each change queued,
      or closed and told so. */
  lemma {:induction false} EmitAllInforms(itemSize: Stream -> nat, t: Table, changes: seq<Change>, s: Stream, change: Change)
    requires Good(itemSize, t) && s in t.streams && s.id in t.tokens
    ensures var effect := EmitAll(t, changes);
            && (s.id !in effect.table.tokens ==>
                  Cancelled(s.id, BACKLOG) in effect.frames && |effect.table.pending| >= MAX_PENDING_EVENTS)
            && (change in changes && Matches(s.filter, change.kind, change.uri) ==>
                  Informed(effect, t.tokens[s.id], s.id, change))
    decreases changes
  {
    hide Good, EmitEach, Ids, Distinct, Matches;
    if changes != [] {
      var now := changes[0];
      AllOpen(itemSize, t);
      EmitEachServes(itemSize, t, t.streams, now.kind, now.uri);
      var first := Emitted(t, now.kind, now.uri);
      assert Served(t, first, s, now.kind, now.uri);
      EmitEachTells(itemSize, t, t.streams, now.kind, now.uri);
      EmitAllKeeps(itemSize, first.table, changes[1..]);
      SubsetIsSmaller(first.table.pending, EmitAll(first.table, changes[1..]).table.pending);
      if s.id in first.table.tokens {
        assert Lookup(first.table.tokens, s.id) == Lookup(t.tokens, s.id);
        StaysItself(itemSize, t, first.table, s);
        EmitAllInforms(itemSize, first.table, changes[1..], s, change);
        EmitAllInforms(itemSize, first.table, changes[1..], s, now);
      }
    }
  }

  /** After an invalidation no open stream is behind: everything it asked for is queued for it,
      or it was closed and told to refetch. */
  lemma InvalidateInforms(itemSize: Stream -> nat, t: Table, s: Stream, change: Change)
    requires Good(itemSize, t) && s in t.streams && s.id in t.tokens
    requires Matches(s.filter, change.kind, change.uri) && (change.kind.ResourceUpdated? || change.uri.None?)
    ensures Informed(EmitAll(t, Hidden(t.streams)), t.tokens[s.id], s.id, change)
  {
    HiddenHolds(t.streams, s, change);
    EmitAllInforms(itemSize, t, Hidden(t.streams), s, change);
  }

  // ---------------------------------------------------------------------
  // Snapshot and restore
  // ---------------------------------------------------------------------

  /** Open the snapshot's streams one by one into a table. */
  function Reopen(itemSize: Stream -> nat, t: Table, values: seq<Stream>): Result<Table, Error>
    decreases values
  {
    if values == [] then Ok(t)
    else
      var first := Open(itemSize, t, Usable(values[0].id), AsRaw(values[0].filter));
      if first.Err? then Err(first.error) else Reopen(itemSize, first.value, values[1..])
  }

  lemma {:induction false} PrefixIsSmaller(itemSize: Stream -> nat, streams: seq<Stream>, n: nat)
    requires n <= |streams|
    ensures EncodedSize(itemSize, streams[..n]) <= EncodedSize(itemSize, streams)
  {
    if n < |streams| {
      PrefixIsSmaller(itemSize, streams[..|streams| - 1], n);
      assert streams[..|streams| - 1][..n] == streams[..n];
    } else {
      assert streams[..n] == streams;
    }
  }

  lemma {:induction false} ReopenFrom(itemSize: Stream -> nat, t: Table, streams: seq<Stream>, n: nat)
    requires n <= |streams| && Distinct(streams) && (forall s | s in streams :: Unrepeated(s.filter.uris))
    requires |streams| <= MAX_SUBSCRIPTIONS && EncodedSize(itemSize, streams) <= MAX_SUBSCRIPTION_BYTES
    requires t.streams == streams[..n] && t.next == n
    ensures Reopen(itemSize, t, streams[n..]).Ok?
    ensures var end := Reopen(itemSize, t, streams[n..]).value;
            end.streams == streams && end.pending == t.pending && end.next == |streams|
    decreases |streams| - n
  {
    if n < |streams| {
      var s := streams[n];
      NormalIsFixed(s.filter);
      assert t.streams + [Stream(s.id, s.filter)] == streams[..n + 1];
      PrefixIsSmaller(itemSize, streams, n + 1);
      forall x | x in t.streams
        ensures x.id != s.id
      {
        var i :| 0 <= i < n && streams[i] == x;
      }
      var next := Open(itemSize, t, Usable(s.id), AsRaw(s.filter));
      assert streams[n..][0] == s && streams[n..][1..] == streams[n + 1..];
      ReopenFrom(itemSize, next.value, streams, n + 1);
    }
  }

  /** Restoring a snapshot of any reachable table succeeds, with the same ordered streams
      and filters, fresh tokens and nothing pending. */
  lemma RestoreUndoesSnapshot(itemSize: Stream -> nat, tables: seq<Table>, ops: seq<Op>, k: nat)
    requires Run(itemSize, tables, ops) && k <= |ops|
    ensures var restored := Reopen(itemSize, EMPTY, tables[k].streams);
            && restored.Ok? && restored.value.streams == tables[k].streams
            && restored.value.pending == {} && restored.value.next == |tables[k].streams|
  {
    RunsStayGood(itemSize, tables, ops, k);
    ReopenFrom(itemSize, EMPTY, tables[k].streams, 0);
    assert tables[k].streams[0..] == tables[k].streams;
  }

  // ---------------------------------------------------------------------
  // The object
  // ---------------------------------------------------------------------

  class Registry {
    var streams: seq<Stream>
    var tokens: map<Id, nat>
    var pending: set<Key>
    var next: nat
    var published: seq<Frame>
    const itemSize: Stream -> nat

    function Model(): Table
      reads this
    {
      Table(streams, tokens, pending, next)
    }

    ghost predicate Valid()
      reads this
    {
      Good(itemSize, Model())
    }

    constructor (itemSize: Stream -> nat)
      ensures Valid() && Model() == EMPTY && published == [] && this.itemSize == itemSize
    {
      this.itemSize := itemSize;
      streams, tokens, pending, next, published := [], map[], {}, 0, [];
    }

    method OpenStream(id: RawId, raw: RawFilter) returns (error: Option<Error>)
      requires Valid()
      modifies this
      ensures Valid() && Model() == Apply(itemSize, old(Model()), OpOpen(id, raw))
      ensures match Open(itemSize, old(Model()), id, raw)
              case Ok(table) => error == None && Model() == table
              case Err(reason) => error == Some(reason) && Model() == old(Model())
      ensures published == old(published) + (if error.Some? then [] else [Acknowledged(id.id, NormaliseFilter(raw).value)])
    {
      hide NormaliseFilter, EncodedSize, Unrepeated;
      ApplyKeepsGood(itemSize, Model(), OpOpen(id, raw));
      assert tokens.Keys == Ids(streams);
      hide Good, Ids;
      if id.Unusable? {
        return Some(BadId);
      }
      var filter := NormaliseFilter(raw);
      if filter.Err? {
        return Some(filter.error);
      }
      if id.id in tokens {
        return Some(AlreadyActive);
      }
      var candidate := streams + [Stream(id.id, filter.value)];
      if |candidate| > MAX_SUBSCRIPTIONS || EncodedSize(itemSize, candidate) > MAX_SUBSCRIPTION_BYTES {
        return Some(LimitReached);
      }
      streams := candidate;
      tokens := tokens[id.id := next];
      next := next + 1;
      published := published + [Acknowledged(id.id, filter.value)];
      error := None;
    }

    method CancelStream(id: Id) returns (was: bool)
      requires Valid()
      modifies this
      ensures Valid() && Model() == Cancel(old(Model()), id) && published == old(published)
      ensures was <==> id in Ids(old(streams))
    {
      CancelKeepsGood(itemSize, Model(), id);
      was := id in tokens;
      tokens := Without(tokens, id);
      streams := Close(streams, id);
    }

    method ClearAll()
      requires Valid()
      modifies this
      ensures Valid() && Model() == Apply(itemSize, old(Model()), OpClear) && published == old(published)
    {
      streams, pending, tokens := [], {}, map[];
    }

    /** Close every stream and tell each one why, in order. */
    method EndAll(reason: string)
      requires Valid()
      modifies this
      ensures Valid() && Model() == Apply(itemSize, old(Model()), OpEnd)
      ensures published == old(published) + Farewells(old(streams), reason)
    {
      hide Good, Close, Distinct;
      var all := streams;
      assert all[0..] == all;
      for k := 0 to |all|
        invariant Valid() && streams == all[k..] && pending == old(pending) && next == old(next)
        invariant published == old(published) + Farewells(all[..k], reason)
      {
        AllOpen(itemSize, Model());
        CloseFirst(all[k..]);
        var was := CancelStream(all[k].id);
        published := published + [Cancelled(all[k].id, reason)];
        assert Farewells(all[..k + 1], reason) == Farewells(all[..k], reason) + [Cancelled(all[k].id, reason)];
      }
      assert all[..|all|] == all;
      AllOpen(itemSize, Model());
      assert tokens == map[];
    }

    method Deliver(key: Key)
      requires Valid()
      modifies this
      ensures Valid() && Model() == Apply(itemSize, old(Model()), OpDelivered(key)) && published == old(published)
    {
      pending := pending - {key};
    }

    method EmitOne(s: Stream, kind: Kind, uri: Option<string>)
      requires Valid() && s.id in tokens
      modifies this
      ensures Valid() && Model() == EmitTo(old(Model()), s, kind, uri).table
      ensures published == old(published) + EmitTo(old(Model()), s, kind, uri).frames
    {
      hide Good, Matches, Close;
      EmitToKeepsGood(itemSize, Model(), s, kind, uri);
      var key := Key(s.id, tokens[s.id], kind, uri);
      if Matches(s.filter, kind, uri) && key !in pending {
        if |pending| >= MAX_PENDING_EVENTS {
          var was := CancelStream(s.id);
          published := published + [Cancelled(s.id, BACKLOG)];
        } else {
          pending := pending + {key};
          published := published + [Event(key)];
        }
      }
    }

    /** Offer one event to every open stream, in order. */
    method Emit(kind: Kind, uri: Option<string>)
      requires Valid()
      modifies this
      ensures Valid() && Model() == Apply(itemSize, old(Model()), OpEmit(kind, uri))
      ensures published == old(published) + Emitted(old(Model()), kind, uri).frames
    {
      hide Good, EmitTo, EmitEach, Distinct, Ids, Matches;
      var all := streams;
      ghost var t0, told: seq<Frame> := Model(), [];
      AllOpen(itemSize, t0);
      assert all[0..] == all;
      ghost var whole := Emitted(t0, kind, uri);
      for k := 0 to |all|
        invariant Valid() && published == old(published) + told && Turns(Model(), all[k..], kind, uri, told, whole)
      {
        ghost var t := Model();
        NextTurn(itemSize, t, all[k..], kind, uri, told, whole);
        assert all[k..][0] == all[k] && all[k..][1..] == all[k + 1..];
        EmitOne(all[k], kind, uri);
        told := told + EmitTo(t, all[k], kind, uri).frames;
      }
      assert all[|all|..] == [];
      NoTurnLeft(Model(), kind, uri, told, whole);
    }

    /** Emit, in order, everything a gap may have hidden from the streams open at the start. */
    method Invalidate()
      requires Valid()
      modifies this
      ensures Valid() && Model() == Apply(itemSize, old(Model()), OpInvalidate)
      ensures published == old(published) + EmitAll(old(Model()), Hidden(old(streams))).frames
    {
      hide Good, EmitEach, Hidden;
      var changes := Hidden(streams);
      ghost var t0, told: seq<Frame> := Model(), [];
      assert changes[0..] == changes;
      for k := 0 to |changes|
        invariant Valid() && published == old(published) + told
        invariant EmitAll(t0, changes).table == EmitAll(Model(), changes[k..]).table
        invariant EmitAll(t0, changes).frames == told + EmitAll(Model(), changes[k..]).frames
      {
        assert changes[k..][0] == changes[k] && changes[k..][1..] == changes[k + 1..];
        told := told + Emitted(Model(), changes[k].kind, changes[k].uri).frames;
        Emit(changes[k].kind, changes[k].uri);
      }
    }

    method Snapshot() returns (values: seq<Stream>)
      ensures values == streams
    {
      values := streams;
    }

    /** Reopen every stream of a snapshot in a new registry; the first refusal refuses it all. */
    static method Restore(itemSize: Stream -> nat, values: seq<Stream>) returns (result: Option<Registry>)
      ensures result.Some? <==> Reopen(itemSize, EMPTY, values).Ok?
      ensures result.Some? ==> fresh(result.value) && result.value.Valid() && result.value.itemSize == itemSize
                               && result.value.Model() == Reopen(itemSize, EMPTY, values).value
    {
      var registry := new Registry(itemSize);
      for k := 0 to |values|
        invariant registry.Valid() && fresh(registry) && registry.itemSize == itemSize
        invariant Reopen(itemSize, EMPTY, values) == Reopen(itemSize, registry.Model(), values[k..])
      {
        assert values[k..][0] == values[k] && values[k..][1..] == values[k + 1..];
        var error := registry.OpenStream(Usable(values[k].id), AsRaw(values[k].filter));
        if error.Some? {
          return None;
        }
      }
      result := Some(registry);
    }
  }

  function Farewells(streams: seq<Stream>, reason: string): seq<Frame> {
    seq(|streams|, i requires 0 <= i < |streams| => Cancelled(streams[i].id, reason))
  }

  lemma {:induction false} CloseFirst(streams: seq<Stream>)
    requires streams != [] && Distinct(streams)
    ensures Close(streams, streams[0].id) == streams[1..]
  {
    var n := |streams| - 1;
    if n > 0 {
      CloseFirst(streams[..n]);
      assert streams[..n][1..] + [streams[n]] == streams[1..];
    }
  }

  /** What is left to emit to `rest`, after `told`, completes `whole`. */
  ghost predicate Turns(t: Table, rest: seq<Stream>, kind: Kind, uri: Option<string>, told: seq<Frame>, whole: Effect) {
    && Distinct(rest) && Ids(rest) <= t.tokens.Keys
    && var effect := EmitEach(t, rest, kind, uri);
       whole == Effect(effect.table, told + effect.frames)
  }

  lemma NextTurn(itemSize: Stream -> nat, t: Table, rest: seq<Stream>, kind: Kind, uri: Option<string>,
                 told: seq<Frame>, whole: Effect)
    requires Good(itemSize, t) && rest != [] && Turns(t, rest, kind, uri, told, whole)
    ensures rest[0].id in t.tokens
    ensures var first := EmitTo(t, rest[0], kind, uri);
            Turns(first.table, rest[1..], kind, uri, told + first.frames, whole)
  {
    hide Good, EmitTo, Distinct, Ids;
    MemberIds(rest, rest[0]);
    RestIsApart(rest);
    EmitToKeepsGood(itemSize, t, rest[0], kind, uri);
    StillOpen(t, EmitTo(t, rest[0], kind, uri).table, rest[0].id, rest[1..]);
  }

  lemma NoTurnLeft(t: Table, kind: Kind, uri: Option<string>, told: seq<Frame>, whole: Effect)
    requires Turns(t, [], kind, uri, told, whole)
    ensures whole == Effect(t, told)
  {
  }

  lemma StillOpen(t: Table, t': Table, id: Id, rest: seq<Stream>)
    requires Ids(rest) <= t.tokens.Keys && id !in Ids(rest)
    requires forall other | other != id :: Lookup(t'.tokens, other) == Lookup(t.tokens, other)
    ensures Ids(rest) <= t'.tokens.Keys
  {
    forall other | other in Ids(rest)
      ensures other in t'.tokens
    {
      assert Lookup(t'.tokens, other) == Lookup(t.tokens, other);
    }
  }
}
