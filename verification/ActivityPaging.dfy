/** Merged activity paging: four keyset-paged owners, one signed cursor. */
module ActivityPaging {
  import opened ActivityFeed
  import opened Optional

  const DEFAULT_LIMIT := 50
  const MAXIMUM_LIMIT := 100
  const CURSOR_VERSION := 1

  datatype Cursor = Cursor(
    version: int, customer: int, types: seq<Kind>, grant: string,
    watermark: int, positions: map<Kind, Position>)

  /** A MAC that only the holder of `key` produces; anything else is noise. */
  datatype Mac = Seal(key: string, payload: Cursor) | Noise(bits: int)

  datatype Token = Token(payload: Cursor, mac: Mac) | Unparsable

  datatype Input = Input(customer: int, types: seq<string>, cursor: Option<Token>, limit: int)

  datatype Response =
    | Page(types: seq<Kind>, items: seq<Activity>, asOf: int, next: Option<Token>)
    | Invalid
    | Denied
    | Unavailable

  // ---------- type names ----------

  function KindOf(name: string): Option<Kind> {
    if name == "message" then Some(Message)
    else if name == "order" then Some(Order)
    else if name == "radar" then Some(Radar)
    else if name == "survey" then Some(Survey)
    else None
  }

  /** The names of `s`, sorted. */
  function InOrder(s: set<Kind>): (r: seq<Kind>)
    ensures forall k :: k in r <==> k in s
    ensures forall i, j | 0 <= i < j < |r| :: Rank(r[i]) < Rank(r[j])
  {
    var r := (if Message in s then [Message] else []) + (if Order in s then [Order] else [])
             + (if Radar in s then [Radar] else []) + (if Survey in s then [Survey] else []);
    assert forall k | k in s :: k == Message || k == Order || k == Radar || k == Survey;
    assert (Message in s ==> Message in r) && (Order in s ==> Order in r);
    assert (Radar in s ==> Radar in r) && (Survey in s ==> Survey in r);
    r
  }

  predicate AcceptedNames(names: seq<string>) {
    && (forall i | 0 <= i < |names| :: KindOf(names[i]).Some?)
    && (forall i, j | 0 <= i < j < |names| :: names[i] != names[j])
  }

  function Normalized(names: seq<string>): Option<seq<Kind>> {
    if names == [] then Some([Message, Order, Radar, Survey])
    else if AcceptedNames(names) then Some(InOrder(set n | n in names && KindOf(n).Some? :: KindOf(n).value))
    else None
  }

  method NormalizeTypes(names: seq<string>) returns (r: Option<seq<Kind>>)
    ensures r == Normalized(names)
  {
    hide InOrder;
    if |names| == 0 {
      return Some([Message, Order, Radar, Survey]);
    }
    if |names| > 4 {
      AtMostFourNames(names);
      return None;
    }
    var seen: set<Kind> := {};
    for i := 0 to |names|
      invariant AcceptedNames(names[..i])
      invariant seen == set n | n in names[..i] && KindOf(n).Some? :: KindOf(n).value
    {
      var kind := KindOf(names[i]);
      if kind == None || kind.value in seen {
        return None;
      }
      seen := seen + {kind.value};
      assert names[..i + 1] == names[..i] + [names[i]];
    }
    assert names[..|names|] == names;
    return Some(InOrder(seen));
  }

  lemma AtMostFourNames(names: seq<string>)
    requires |names| > 4
    ensures !AcceptedNames(names)
  {
    var a, b, c, d, e := names[0], names[1], names[2], names[3], names[4];
    if AcceptedNames(names) {
      assert forall i | 0 <= i < |names| :: names[i] in {"message", "order", "radar", "survey"};
    }
  }

  // ---------- the cursor ----------

  function Encode(key: string, cursor: Cursor): Token {
    Token(cursor, Seal(key, cursor))
  }

  function Decode(key: string, token: Token): Option<Cursor> {
    if token.Token? && token.mac == Seal(key, token.payload) then Some(token.payload) else None
  }

  predicate ValidPositions(cursor: Cursor) {
    forall k | k in cursor.positions ::
      var p := cursor.positions[k];
      0 < p.id && p.at != ZERO_TIME && p.at <= cursor.watermark
  }

  /** A fresh cursor at `now`, or the presented one when it is this service's for this invocation. */
  function ResolveCursor(key: string, input: Input, types: seq<Kind>, grant: string, now: int): Option<Cursor> {
    match input.cursor
    case None => Some(Cursor(CURSOR_VERSION, input.customer, types, grant, now, map[]))
    case Some(token) =>
      match Decode(key, token)
      case None => None
      case Some(cursor) =>
        if || cursor.version != CURSOR_VERSION || cursor.customer != input.customer || cursor.grant != grant
           || cursor.watermark == ZERO_TIME || cursor.types != types || !ValidPositions(cursor)
        then None
        else Some(cursor)
  }

  // ---------- one page ----------

  function PositionAt(positions: map<Kind, Position>, k: Kind): Position {
    if k in positions then positions[k] else Position(ZERO_TIME, 0)
  }

  /** One bounded read of every requested owner, one row further than the page is long. */
  function Collect(tables: Tables, types: seq<Kind>, limit: nat, cursor: Cursor): seq<Activity> {
    if types == [] then []
    else
      var front, k := types[..|types| - 1], types[|types| - 1];
      Collect(tables, front, limit, cursor)
      + OwnerPage(tables.Of(k), cursor.watermark, PositionAt(cursor.positions, k), limit + 1)
  }

  method ReadActivities(tables: Tables, down: set<Kind>, types: seq<Kind>, limit: nat, cursor: Cursor)
    returns (r: Option<seq<Activity>>)
    ensures r == if exists k | k in types :: k in down then None
                 else Some(SortActivities(Collect(tables, types, limit, cursor)))
  {
    var items := [];
    for i := 0 to |types|
      invariant items == Collect(tables, types[..i], limit, cursor)
      invariant forall k | k in types[..i] :: k !in down
    {
      var k := types[i];
      if k in down {
        return None;
      }
      items := items + OwnerPage(tables.Of(k), cursor.watermark, PositionAt(cursor.positions, k), limit + 1);
      assert types[..i + 1][..i] == types[..i];
    }
    assert types[..|types|] == types;
    return Some(SortActivities(items));
  }

  function Advance(positions: map<Kind, Position>, items: seq<Activity>): map<Kind, Position> {
    if items == [] then positions
    else
      var last := items[|items| - 1];
      Advance(positions, items[..|items| - 1])[last.kind := PositionOf(last)]
  }

  function Show(key: string, types: seq<Kind>, items: seq<Activity>, limit: nat, cursor: Cursor): Response {
    if |items| > limit then
      var shown := items[..limit];
      Page(types, shown, cursor.watermark, Some(Encode(key, cursor.(positions := Advance(cursor.positions, shown)))))
    else
      Page(types, items, cursor.watermark, None)
  }

  function Limit(input: Input): int {
    if input.limit == 0 then DEFAULT_LIMIT else input.limit
  }

  function Handle(key: string, inScope: bool, tables: Tables, down: set<Kind>, now: int, grant: string,
                  input: Input): Response {
    var types := Normalized(input.types);
    if types == None || input.customer < 1 || input.limit < 0 || MAXIMUM_LIMIT < input.limit then Invalid
    else if !inScope then Denied
    else
      var cursor := ResolveCursor(key, input, types.value, grant, now);
      if cursor == None then Invalid
      else if exists k | k in types.value :: k in down then Unavailable
      else
        var items := SortActivities(Collect(tables, types.value, Limit(input), cursor.value));
        Show(key, types.value, items, Limit(input), cursor.value)
  }

  // ---------- what each answer means ----------

  function NameOf(k: Kind): string {
    match k
    case Message => "message"
    case Order => "order"
    case Radar => "radar"
    case Survey => "survey"
  }

  /** No names ask for everything. */
  predicate Requested(names: seq<string>, k: Kind) {
    names == [] || NameOf(k) in names
  }

  function RequestedTypes(names: seq<string>): seq<Kind> {
    (if Requested(names, Message) then [Message] else []) + (if Requested(names, Order) then [Order] else [])
    + (if Requested(names, Radar) then [Radar] else []) + (if Requested(names, Survey) then [Survey] else [])
  }

  predicate WellAsked(input: Input) {
    && (forall i | 0 <= i < |input.types| :: input.types[i] in {"message", "order", "radar", "survey"})
    && (forall i, j | 0 <= i < j < |input.types| :: input.types[i] != input.types[j])
    && 1 <= input.customer && 0 <= input.limit <= 100
  }

  /** The cursor is absent, or was made with the key for this customer, these types and this grant. */
  predicate CursorFits(key: string, input: Input, grant: string) {
    match input.cursor
    case None => true
    case Some(token) =>
      && token.Token? && token.mac == Seal(key, token.payload)
      && token.payload.version == 1 && token.payload.customer == input.customer && token.payload.grant == grant
      && token.payload.watermark != ZERO_TIME && token.payload.types == RequestedTypes(input.types)
      && forall k | k in token.payload.positions ::
           var p := token.payload.positions[k];
           0 < p.id && p.at != ZERO_TIME && p.at <= token.payload.watermark
  }

  /** The page holds rows of the requested owners, at or before the watermark and behind the positions
      of the cursor, as many as asked for or fewer, and says when there are more. */
  ghost predicate FitsRequest(tables: Tables, now: int, input: Input, r: Response)
    requires r.Page? && (input.cursor.Some? ==> input.cursor.value.Token?)
  {
    var size := if input.limit == 0 then 50 else input.limit;
    var positions := if input.cursor == None then map[] else input.cursor.value.payload.positions;
    && r.types == RequestedTypes(input.types)
    && r.asOf == (if input.cursor == None then now else input.cursor.value.payload.watermark)
    && |r.items| <= size && (r.next.Some? ==> |r.items| == size)
    && (tables.Valid() ==>
          && Sorted(r.items)
          && forall a | a in r.items ::
               && Requested(input.types, a.kind) && a in tables.Of(a.kind) && a.at <= r.asOf
               && (a.kind in positions ==>
                     var p := positions[a.kind]; a.at < p.at || (a.at == p.at && a.id < p.id)))
  }

  lemma NamesMean(names: seq<string>)
    ensures Normalized(names).Some?
            <==> && (forall i | 0 <= i < |names| :: names[i] in {"message", "order", "radar", "survey"})
                 && (forall i, j | 0 <= i < j < |names| :: names[i] != names[j])
    ensures Normalized(names).Some? ==> Normalized(names).value == RequestedTypes(names)
    ensures forall k :: k in RequestedTypes(names) <==> Requested(names, k)
  {
    KindsOfNames();
    if names != [] && AcceptedNames(names) {
      var kinds := set n | n in names && KindOf(n).Some? :: KindOf(n).value;
      forall k: Kind
        ensures k in kinds <==> NameOf(k) in names
      {
        assert KindOf(NameOf(k)) == Some(k);
      }
      hide KindOf, NameOf;
      KindsInOrder(kinds, names);
    }
    TypesAreRequested(names);
  }

  lemma KindsOfNames()
    ensures forall n: string :: KindOf(n).Some? <==> n in {"message", "order", "radar", "survey"}
    ensures forall n: string | KindOf(n).Some? :: NameOf(KindOf(n).value) == n
  {
  }

  lemma KindsInOrder(kinds: set<Kind>, names: seq<string>)
    requires names != [] && forall k: Kind :: k in kinds <==> NameOf(k) in names
    ensures InOrder(kinds) == RequestedTypes(names)
  {
    hide NameOf;
  }

  lemma TypesAreRequested(names: seq<string>)
    ensures forall k :: k in RequestedTypes(names) <==> Requested(names, k)
  {
    hide Requested;
    forall k: Kind
      ensures k in RequestedTypes(names) <==> Requested(names, k)
    {
      var all := RequestedTypes(names);
      match k
      case Message =>
      case Order =>
      case Radar =>
      case Survey =>
    }
  }

  lemma CursorMeans(key: string, input: Input, grant: string, now: int)
    requires Normalized(input.types).Some?
    ensures var from := ResolveCursor(key, input, Normalized(input.types).value, grant, now);
            && (from.Some? <==> CursorFits(key, input, grant))
            && (from.Some? ==>
                  if input.cursor == None
                  then from.value.watermark == now && from.value.positions == map[]
                  else input.cursor.value.Token? && from.value == input.cursor.value.payload)
  {
    hide Normalized, RequestedTypes;
    NamesMean(input.types);
  }

  lemma {:induction false} CollectedAreRows(tables: Tables, types: seq<Kind>, limit: nat, cursor: Cursor)
    requires tables.Valid() && forall i, j | 0 <= i < j < |types| :: types[i] != types[j]
    ensures AllComparable(Collect(tables, types, limit, cursor))
    ensures forall a | a in Collect(tables, types, limit, cursor) ::
              && a.kind in types && a in tables.Of(a.kind)
              && InWindow(a, cursor.watermark, PositionAt(cursor.positions, a.kind))
  {
    hide InWindow, Before;
    if types != [] {
      var front, k := types[..|types| - 1], types[|types| - 1];
      var after := PositionAt(cursor.positions, k);
      CollectedAreRows(tables, front, limit, cursor);
      assert ValidTable(k, tables.Of(k));
      OwnerPageIsFirstRows(tables.Of(k), cursor.watermark, after, limit + 1);
      DifferentKindsCompare(Collect(tables, front, limit, cursor), OwnerPage(tables.Of(k), cursor.watermark, after, limit + 1), k);
    }
  }

  /** Every answer has its exact condition. */
  lemma AnswersMean(key: string, inScope: bool, tables: Tables, down: set<Kind>, now: int, grant: string, input: Input)
    ensures var r := Handle(key, inScope, tables, down, now, grant, input);
            && (r == Denied <==> WellAsked(input) && !inScope)
            && (r == Invalid <==> !WellAsked(input) || (inScope && !CursorFits(key, input, grant)))
            && (r == Unavailable <==>
                  && WellAsked(input) && inScope && CursorFits(key, input, grant)
                  && exists k | k in down :: Requested(input.types, k))
            && (r.Page? ==>
                  && inScope && WellAsked(input) && CursorFits(key, input, grant)
                  && FitsRequest(tables, now, input, r))
  {
    hide Normalized, ResolveCursor, CursorFits, Requested, FitsRequest, RequestedTypes, Collect, SortActivities;
    NamesMean(input.types);
    if WellAsked(input) {
      CursorMeans(key, input, grant, now);
      if inScope && CursorFits(key, input, grant) {
        PageFits(key, tables, down, now, grant, input);
      }
    }
  }

  lemma PageFits(key: string, tables: Tables, down: set<Kind>, now: int, grant: string, input: Input)
    requires WellAsked(input) && CursorFits(key, input, grant)
    ensures var r := Handle(key, true, tables, down, now, grant, input);
            r.Page? ==> FitsRequest(tables, now, input, r)
  {
    hide Normalized, ResolveCursor, Collect, SortActivities, CursorFits, Requested, InWindow, Before;
    NamesMean(input.types);
    CursorMeans(key, input, grant, now);
    var types := Normalized(input.types).value;
    var cursor := ResolveCursor(key, input, types, grant, now).value;
    var items := SortActivities(Collect(tables, types, Limit(input), cursor));
    if tables.Valid() {
      TypesDiffer(input.types);
      CollectedAreRows(tables, types, Limit(input), cursor);
      SortingSorts(Collect(tables, types, Limit(input), cursor));
      RowsBehind(key, input, grant, cursor);
    }
  }

  lemma TypesDiffer(names: seq<string>)
    ensures var types := RequestedTypes(names); forall i, j | 0 <= i < j < |types| :: types[i] != types[j]
  {
  }

  /** What the window of an owner means for the positions of an accepted cursor. */
  lemma RowsBehind(key: string, input: Input, grant: string, cursor: Cursor)
    requires CursorFits(key, input, grant)
    requires input.cursor.Some? && input.cursor.value.Token? ==> cursor == input.cursor.value.payload
    ensures forall a: Activity | InWindow(a, cursor.watermark, PositionAt(cursor.positions, a.kind)) ::
              && a.at <= cursor.watermark
              && (input.cursor.Some? && a.kind in cursor.positions ==>
                    var p := cursor.positions[a.kind]; a.at < p.at || (a.at == p.at && a.id < p.id))
  {
    hide RequestedTypes;
  }

  method CustomerActivities(key: string, inScope: bool, tables: Tables, down: set<Kind>, now: int, grant: string,
                          input: Input)
    returns (r: Response)
    ensures r == Handle(key, inScope, tables, down, now, grant, input)
    ensures r == Denied <==> WellAsked(input) && !inScope
    ensures r == Invalid <==> !WellAsked(input) || (inScope && !CursorFits(key, input, grant))
    ensures r == Unavailable
            <==> && WellAsked(input) && inScope && CursorFits(key, input, grant)
                 && exists k | k in down :: Requested(input.types, k)
    ensures r.Page? ==> inScope && WellAsked(input) && CursorFits(key, input, grant) && FitsRequest(tables, now, input, r)
  {
    AnswersMean(key, inScope, tables, down, now, grant, input);
    hide WellAsked, CursorFits, Requested, FitsRequest;
    hide Normalized, ResolveCursor, Collect, SortActivities;
    var types := NormalizeTypes(input.types);
    if types == None || input.customer < 1 || input.limit < 0 || input.limit > MAXIMUM_LIMIT {
      return Invalid;
    }
    var limit := if input.limit == 0 then DEFAULT_LIMIT else input.limit;
    if !inScope {
      return Denied;
    }
    var resolved := ResolveCursor(key, input, types.value, grant, now);
    if resolved == None {
      return Invalid;
    }
    var cursor := resolved.value;
    var read := ReadActivities(tables, down, types.value, limit, cursor);
    if read == None {
      return Unavailable;
    }
    var items := read.value;
    var hasMore := |items| > limit;
    if hasMore {
      items := items[..limit];
    }
    var positions := cursor.positions;
    for i := 0 to |items|
      invariant positions == Advance(cursor.positions, items[..i])
    {
      positions := positions[items[i].kind := PositionOf(items[i])];
      assert items[..i + 1][..i] == items[..i];
    }
    assert items[..|items|] == items;
    cursor := cursor.(positions := positions);
    r := Page(types.value, items, cursor.watermark, if hasMore then Some(Encode(key, cursor)) else None);
  }
}
