/** Following the cursors yields exactly the merged history under the watermark. */
module ActivityRefinement {
  import opened ActivityFeed
  import opened ActivityPaging
  import opened Optional

  /** `h` is the whole history of the requested types at or before the watermark, in feed order. */
  ghost predicate Feed(h: seq<Activity>, tables: Tables, types: seq<Kind>, watermark: int) {
    && Sorted(h)
    && forall a :: a in h <==> a.kind in types && a in tables.Of(a.kind) && a.at <= watermark
  }

  function LastOf(p: seq<Activity>, k: Kind): Position {
    if p == [] then Position(ZERO_TIME, 0)
    else if p[|p| - 1].kind == k then PositionOf(p[|p| - 1])
    else LastOf(p[..|p| - 1], k)
  }

  /** The cursor stands after the first `n` activities of `h`. */
  ghost predicate StandsAt(cursor: Cursor, h: seq<Activity>, n: nat)
    requires n <= |h|
  {
    forall k :: PositionAt(cursor.positions, k) == LastOf(h[..n], k)
  }

  // ---------- what is left after a prefix ----------

  lemma {:induction false} LastOfPrefix(h: seq<Activity>, n: nat, k: Kind)
    requires Sorted(h) && n <= |h| && forall a | a in h :: a.at != ZERO_TIME
    ensures var p := LastOf(h[..n], k);
            forall i | 0 <= i < |h| && h[i].kind == k ::
              i < n <==> p.at != ZERO_TIME && !(h[i].at < p.at || (h[i].at == p.at && h[i].id < p.id))
  {
    if n > 0 {
      LastOfPrefix(h, n - 1, k);
      assert h[..n][..n - 1] == h[..n - 1];
      if h[n - 1].kind == k {
        forall i | 0 <= i < |h| && h[i].kind == k
          ensures i < n <==> !(h[i].at < h[n - 1].at || (h[i].at == h[n - 1].at && h[i].id < h[n - 1].id))
        {
          if i < n - 1 { assert Before(h[i], h[n - 1]); }
          if n - 1 < i { assert Before(h[n - 1], h[i]); }
        }
      }
    }
  }

  /** The window of an owner behind the cursor is the rest of the feed, owner by owner. */
  lemma WindowIsRest(h: seq<Activity>, n: nat, tables: Tables, types: seq<Kind>, cursor: Cursor, a: Activity)
    requires tables.Valid() && Feed(h, tables, types, cursor.watermark)
    requires n <= |h| && StandsAt(cursor, h, n)
    requires a.kind in types && a in tables.Of(a.kind)
    ensures InWindow(a, cursor.watermark, PositionAt(cursor.positions, a.kind)) <==> a in h[n..]
  {
    FeedHasTimes(h, tables, types, cursor.watermark);
    LastOfPrefix(h, n, a.kind);
    if a in h {
      var i :| 0 <= i < |h| && h[i] == a;
      if n <= i {
        assert h[n..][i - n] == a;
      }
      if a in h[n..] {
        var j :| 0 <= j < |h| - n && h[n..][j] == a;
        assert h[n + j] == a;
      }
    } else {
      assert a !in h[n..];
    }
  }

  lemma FeedHasTimes(h: seq<Activity>, tables: Tables, types: seq<Kind>, watermark: int)
    requires tables.Valid() && Feed(h, tables, types, watermark)
    ensures forall a | a in h :: a.at != ZERO_TIME && 0 < a.id && a.at <= watermark
  {
    forall a | a in h
      ensures a.at != ZERO_TIME && 0 < a.id
    {
      assert ValidTable(a.kind, tables.Of(a.kind));
    }
  }

  // ---------- one read ----------

  lemma {:induction false} CollectedRows(h: seq<Activity>, n: nat, tables: Tables, types: seq<Kind>,
                          front: seq<Kind>, limit: nat, cursor: Cursor)
    requires tables.Valid() && Feed(h, tables, types, cursor.watermark)
    requires n <= |h| && StandsAt(cursor, h, n)
    requires forall k | k in front :: k in types
    requires forall i, j | 0 <= i < j < |front| :: front[i] != front[j]
    ensures var items := Collect(tables, front, limit, cursor);
            && AllComparable(items)
            && (forall a | a in items :: a in h[n..] && a.kind in front)
            && (forall i | 0 <= i < |h[n..]| && i <= limit && h[n..][i].kind in front :: h[n..][i] in items)
  {
    if front != [] {
      var f, k := front[..|front| - 1], front[|front| - 1];
      var after := PositionAt(cursor.positions, k);
      var page := OwnerPage(tables.Of(k), cursor.watermark, after, limit + 1);
      CollectedRows(h, n, tables, types, f, limit, cursor);
      assert ValidTable(k, tables.Of(k));
      OwnerPageIsFirstRows(tables.Of(k), cursor.watermark, after, limit + 1);
      forall a | a in page
        ensures a in h[n..] && a.kind == k
      {
        WindowIsRest(h, n, tables, types, cursor, a);
      }
      forall i | 0 <= i < |h[n..]| && i <= limit && h[n..][i].kind == k
        ensures h[n..][i] in page
      {
        PageReaches(h, n, tables, types, cursor, limit, i);
      }
      DifferentKindsCompare(Collect(tables, f, limit, cursor), page, k);
    }
  }

  /** A page one longer than asked for reaches every row that can be shown. */
  lemma PageReaches(h: seq<Activity>, n: nat, tables: Tables, types: seq<Kind>, cursor: Cursor, limit: nat, i: nat)
    requires tables.Valid() && Feed(h, tables, types, cursor.watermark)
    requires n <= |h| && StandsAt(cursor, h, n)
    requires i < |h[n..]| && i <= limit
    ensures var a := h[n..][i];
            a in OwnerPage(tables.Of(a.kind), cursor.watermark, PositionAt(cursor.positions, a.kind), limit + 1)
  {
    hide OwnerPage, LastOf, StandsAt, InWindow;
    var t, a := h[n..], h[n..][i];
    var after := PositionAt(cursor.positions, a.kind);
    var page := OwnerPage(tables.Of(a.kind), cursor.watermark, after, limit + 1);
    assert a == h[n + i] && a in h;
    assert ValidTable(a.kind, tables.Of(a.kind));
    WindowIsRest(h, n, tables, types, cursor, a);
    OwnerPageIsFirstRows(tables.Of(a.kind), cursor.watermark, after, limit + 1);
    forall b | b in page
      ensures b in t
    {
      WindowIsRest(h, n, tables, types, cursor, b);
    }
    if forall b | b in page :: Before(b, t[i]) {
      SelectionBefore(page, t, i);
    }
  }

  /** One read, sorted, starts with the next stretch of the feed and sees whether more follows. */
  lemma NextStretch(h: seq<Activity>, n: nat, tables: Tables, types: seq<Kind>, limit: nat, cursor: Cursor)
    requires tables.Valid() && Feed(h, tables, types, cursor.watermark)
    requires n <= |h| && StandsAt(cursor, h, n)
    requires forall i, j | 0 <= i < j < |types| :: types[i] != types[j]
    ensures var items := SortActivities(Collect(tables, types, limit, cursor));
            if limit < |h| - n
            then limit < |items| && items[..limit] == h[n..n + limit]
            else |items| <= limit && items == h[n..]
  {
    hide Collect, SortActivities, LastOf, Before, StandsAt;
    var t := h[n..];
    var items := SortActivities(Collect(tables, types, limit, cursor));
    CollectedRows(h, n, tables, types, types, limit, cursor);
    SortingSorts(Collect(tables, types, limit, cursor));
    forall i | 0 <= i < |t|
      ensures t[i].kind in types
    {
      assert t[i] == h[n + i] && t[i] in h;
    }
    if limit < |t| {
      SelectionStartsLikeAll(items, t, limit + 1);
      assert items[..limit] == items[..limit + 1][..limit];
      assert h[n..n + limit] == t[..limit + 1][..limit];
    } else {
      SortedIsUnique(items, t);
    }
  }

  lemma {:induction false} AdvanceStands(h: seq<Activity>, n: nat, m: nat, cursor: Cursor)
    requires n <= m <= |h| && StandsAt(cursor, h, n)
    ensures StandsAt(cursor.(positions := Advance(cursor.positions, h[n..m])), h, m)
  {
    if n < m {
      AdvanceStands(h, n, m - 1, cursor);
      assert h[n..m][..m - n - 1] == h[n..m - 1];
      assert h[..m][..m - 1] == h[..m - 1];
    }
  }

  // ---------- following the cursors ----------

  /** One call of a client: owners may have grown meanwhile, and each call picks its own limit. */
  datatype Call = Call(tables: Tables, now: int, limit: int)

  /** A client that starts without a cursor (or with `cursor`) and follows `next` until it is absent. */
  function Follow(key: string, grant: string, customer: int, names: seq<string>, cursor: Option<Token>,
                  calls: seq<Call>)
    : seq<Response>
    decreases |calls|
  {
    if calls == [] then []
    else
      var c := calls[0];
      var r := Handle(key, true, c.tables, {}, c.now, grant, Input(customer, names, cursor, c.limit));
      [r] + if r.Page? && r.next.Some? then Follow(key, grant, customer, names, r.next, calls[1..]) else []
  }

  function ItemsOf(pages: seq<Response>): seq<Activity> {
    if pages == [] then []
    else (if pages[0].Page? then pages[0].items else []) + ItemsOf(pages[1..])
  }

  /** The page sizes the calls ask for, together. */
  function Total(calls: seq<Call>): (total: nat)
    ensures |calls| <= total
  {
    if calls == [] then 0 else Size(calls[0].limit) + Total(calls[1..])
  }

  function Size(limit: int): nat {
    if limit <= 0 then DEFAULT_LIMIT else limit
  }

  function Min(a: nat, b: nat): nat {
    if a < b then a else b
  }

  ghost predicate ValidCall(c: Call, h: seq<Activity>, types: seq<Kind>, watermark: int) {
    0 <= c.limit <= MAXIMUM_LIMIT && c.tables.Valid() && Feed(h, c.tables, types, watermark)
  }

  lemma {:induction false} AdvanceIsGrounded(positions: map<Kind, Position>, items: seq<Activity>, k: Kind)
    requires k in Advance(positions, items)
    ensures || (k in positions && Advance(positions, items)[k] == positions[k])
            || exists a | a in items :: a.kind == k && Advance(positions, items)[k] == PositionOf(a)
  {
    if items != [] {
      var last, front := items[|items| - 1], items[..|items| - 1];
      if last.kind == k {
        assert last in items;
      } else {
        AdvanceIsGrounded(positions, front, k);
        assert forall a | a in front :: a in items;
      }
    }
  }

  lemma AdvanceStaysValid(cursor: Cursor, items: seq<Activity>)
    requires ValidPositions(cursor)
    requires forall a | a in items :: 0 < a.id && a.at != ZERO_TIME && a.at <= cursor.watermark
    ensures ValidPositions(cursor.(positions := Advance(cursor.positions, items)))
  {
    forall k | k in Advance(cursor.positions, items) {
      AdvanceIsGrounded(cursor.positions, items, k);
    }
  }

  lemma NormalizedIsDistinct(names: seq<string>)
    requires Normalized(names).Some?
    ensures forall i, j | 0 <= i < j < |Normalized(names).value| :: Normalized(names).value[i] != Normalized(names).value[j]
  {
  }

  /** The cursor belongs to this client's feed of `types`. */
  ghost predicate Bound(cursor: Cursor, customer: int, grant: string, types: seq<Kind>) {
    && cursor.version == CURSOR_VERSION && cursor.customer == customer && cursor.grant == grant
    && cursor.types == types && cursor.watermark != ZERO_TIME && ValidPositions(cursor)
  }

  ghost predicate Presents(key: string, token: Option<Token>, c: Call, cursor: Cursor) {
    ResolveCursor(key, Input(cursor.customer, [], token, c.limit), cursor.types, cursor.grant, c.now) == Some(cursor)
  }

  lemma HandleShows(key: string, names: seq<string>, token: Option<Token>, c: Call, cursor: Cursor)
    requires 1 <= cursor.customer && Normalized(names) == Some(cursor.types) && 0 <= c.limit <= MAXIMUM_LIMIT
    requires Presents(key, token, c, cursor)
    ensures Handle(key, true, c.tables, {}, c.now, cursor.grant, Input(cursor.customer, names, token, c.limit))
         == Show(key, cursor.types, SortActivities(Collect(c.tables, cursor.types, Size(c.limit), cursor)), Size(c.limit), cursor)
  {
  }

  /** One call of a client that stands after `n` activities. */
  lemma OnePage(key: string, names: seq<string>, token: Option<Token>, c: Call, h: seq<Activity>, n: nat,
                cursor: Cursor)
    requires 1 <= cursor.customer && Normalized(names) == Some(cursor.types) && n <= |h|
    requires Bound(cursor, cursor.customer, cursor.grant, cursor.types)
    requires ValidCall(c, h, cursor.types, cursor.watermark)
    requires Presents(key, token, c, cursor) && StandsAt(cursor, h, n)
    ensures var r := Handle(key, true, c.tables, {}, c.now, cursor.grant, Input(cursor.customer, names, token, c.limit));
            var m := Min(n + Size(c.limit), |h|);
            var next := cursor.(positions := Advance(cursor.positions, h[n..m]));
            && r == Page(cursor.types, h[n..m], cursor.watermark, if m < |h| then Some(Encode(key, next)) else None)
            && StandsAt(next, h, m) && Bound(next, cursor.customer, cursor.grant, cursor.types)
  {
    hide Handle, Collect, SortActivities, LastOf, Advance, Normalized, Feed, ResolveCursor;
    var limit := Size(c.limit);
    var m := Min(n + limit, |h|);
    HandleShows(key, names, token, c, cursor);
    NormalizedIsDistinct(names);
    NextStretch(h, n, c.tables, cursor.types, limit, cursor);
    AdvanceStands(h, n, m, cursor);
    FeedHasTimes(h, c.tables, cursor.types, cursor.watermark);
    AdvanceStaysValid(cursor, h[n..m]);
  }

  /** `pages` deliver the next `total` activities of `h` after the first `n`, or all that are left; the
      last page has no cursor exactly when nothing is left. */
  ghost predicate Deliver(pages: seq<Response>, h: seq<Activity>, n: nat, total: nat, watermark: int)
    requires n <= |h|
  {
    && pages != [] && (forall r | r in pages :: r.Page? && r.asOf == watermark)
    && ItemsOf(pages) == h[n..Min(n + total, |h|)]
    && (pages[|pages| - 1].next == None <==> |h| <= n + total)
  }

  lemma DeliverOneMore(r: Response, more: seq<Response>, h: seq<Activity>, n: nat, size: nat, total: nat,
                       watermark: int)
    requires n + size < |h| && r.Page? && r.asOf == watermark && r.items == h[n..n + size]
    requires Deliver(more, h, n + size, total, watermark)
    ensures Deliver([r] + more, h, n, size + total, watermark)
  {
    assert ([r] + more)[1..] == more;
    assert h[n..Min(n + size + total, |h|)] == h[n..n + size] + h[n + size..Min(n + size + total, |h|)];
  }

  lemma DeliverLast(r: Response, h: seq<Activity>, n: nat, total: nat, watermark: int)
    requires n <= |h| && r.Page? && r.asOf == watermark && r.items == h[n..Min(n + total, |h|)]
    requires r.next == None <==> |h| <= n + total
    ensures Deliver([r], h, n, total, watermark)
  {
    assert ItemsOf([r]) == r.items;
  }

  lemma EncodedPresents(key: string, cursor: Cursor, c: Call)
    requires Bound(cursor, cursor.customer, cursor.grant, cursor.types)
    ensures Presents(key, Some(Encode(key, cursor)), c, cursor)
  {
  }

  lemma FollowUnfolds(key: string, grant: string, customer: int, names: seq<string>, token: Option<Token>,
                      calls: seq<Call>)
    requires calls != []
    ensures var r := Handle(key, true, calls[0].tables, {}, calls[0].now, grant, Input(customer, names, token, calls[0].limit));
            Follow(key, grant, customer, names, token, calls)
            == if r.Page? && r.next.Some? && calls[1..] != []
               then [r] + Follow(key, grant, customer, names, r.next, calls[1..]) else [r]
  {
  }

  /** A client that stands after `n` activities and still has `calls` to make. */
  ghost predicate Underway(key: string, names: seq<string>, token: Option<Token>, calls: seq<Call>,
                           h: seq<Activity>, n: nat, cursor: Cursor) {
    && 1 <= cursor.customer && Normalized(names) == Some(cursor.types) && n <= |h| && calls != []
    && Bound(cursor, cursor.customer, cursor.grant, cursor.types)
    && (forall c | c in calls :: ValidCall(c, h, cursor.types, cursor.watermark))
    && Presents(key, token, calls[0], cursor) && StandsAt(cursor, h, n)
  }

  function First(key: string, names: seq<string>, token: Option<Token>, c: Call, cursor: Cursor): Response {
    Handle(key, true, c.tables, {}, c.now, cursor.grant, Input(cursor.customer, names, token, c.limit))
  }

  lemma StepUnderway(key: string, names: seq<string>, token: Option<Token>, calls: seq<Call>, h: seq<Activity>,
                     n: nat, cursor: Cursor)
    requires Underway(key, names, token, calls, h, n, cursor)
    ensures var m := Min(n + Size(calls[0].limit), |h|);
            var next := cursor.(positions := Advance(cursor.positions, h[n..m]));
            var r := First(key, names, token, calls[0], cursor);
            && r.Page? && r.items == h[n..m] && r.asOf == cursor.watermark && (r.next == None <==> m == |h|)
            && (m < |h| && calls[1..] != [] ==> Underway(key, names, r.next, calls[1..], h, m, next))
  {
    hide Handle, LastOf, Advance, Feed, Normalized, ResolveCursor, ValidPositions;
    var m := Min(n + Size(calls[0].limit), |h|);
    OnePage(key, names, token, calls[0], h, n, cursor);
    if m < |h| && calls[1..] != [] {
      EncodedPresents(key, cursor.(positions := Advance(cursor.positions, h[n..m])), calls[1..][0]);
    }
  }

  lemma {:induction false} FollowingFrom(key: string, names: seq<string>, token: Option<Token>, calls: seq<Call>,
                                         h: seq<Activity>, n: nat, cursor: Cursor)
    requires Underway(key, names, token, calls, h, n, cursor)
    ensures Deliver(Follow(key, cursor.grant, cursor.customer, names, token, calls), h, n, Total(calls), cursor.watermark)
    decreases |calls|
  {
    hide Handle, LastOf, Advance, Feed, Normalized, Follow, Deliver;
    var rest := calls[1..];
    var m := Min(n + Size(calls[0].limit), |h|);
    var r := First(key, names, token, calls[0], cursor);
    StepUnderway(key, names, token, calls, h, n, cursor);
    FollowUnfolds(key, cursor.grant, cursor.customer, names, token, calls);
    if m < |h| && rest != [] {
      var next := cursor.(positions := Advance(cursor.positions, h[n..m]));
      FollowingFrom(key, names, r.next, rest, h, m, next);
      DeliverOneMore(r, Follow(key, cursor.grant, cursor.customer, names, r.next, rest), h, n, m - n, Total(rest), cursor.watermark);
    } else {
      assert rest == [] ==> Total(calls) == Size(calls[0].limit);
      DeliverLast(r, h, n, Total(calls), cursor.watermark);
    }
  }

  /** The refinement: whatever limits the client picks and whatever arrives after the watermark, the
      concatenated pages are the feed in order, and a page without a cursor means exhaustion. */
  lemma FollowingYieldsTheFeed(key: string, grant: string, customer: int, names: seq<string>, calls: seq<Call>,
                          h: seq<Activity>)
    requires 1 <= customer && Normalized(names).Some? && calls != [] && calls[0].now != ZERO_TIME
    requires forall c | c in calls :: ValidCall(c, h, Normalized(names).value, calls[0].now)
    ensures Deliver(Follow(key, grant, customer, names, None, calls), h, 0, Total(calls), calls[0].now)
    ensures |h| <= |calls| ==> ItemsOf(Follow(key, grant, customer, names, None, calls)) == h
  {
    var types := Normalized(names).value;
    var cursor := Cursor(CURSOR_VERSION, customer, types, grant, calls[0].now, map[]);
    FollowingFrom(key, names, None, calls, h, 0, cursor);
    assert h[..|h|] == h;
  }

  /** Every history has a feed. */
  lemma FeedExists(tables: Tables, types: seq<Kind>, watermark: int) returns (h: seq<Activity>)
    requires tables.Valid() && forall i, j | 0 <= i < j < |types| :: types[i] != types[j]
    ensures Feed(h, tables, types, watermark)
  {
    var items := Everything(tables, types, watermark);
    h := SortActivities(items);
  }

  lemma {:induction false} Everything(tables: Tables, types: seq<Kind>, watermark: int) returns (items: seq<Activity>)
    requires tables.Valid() && forall i, j | 0 <= i < j < |types| :: types[i] != types[j]
    ensures Sorted(SortActivities(items)) && AllComparable(items)
    ensures forall a :: a in items <==> a.kind in types && a in tables.Of(a.kind) && a.at <= watermark
  {
    hide Collect;
    if types == [] {
      items := [];
    } else {
      var front, k := types[..|types| - 1], types[|types| - 1];
      var rest := Everything(tables, front, watermark);
      assert ValidTable(k, tables.Of(k));
      var page := WholePage(tables.Of(k), watermark);
      items := rest + page;
      DifferentKindsCompare(rest, page, k);
    }
    SortingSorts(items);
  }

  lemma WholePage(rows: seq<Activity>, watermark: int) returns (page: seq<Activity>)
    requires Sorted(rows)
    ensures Sorted(page) && forall a :: a in page <==> a in rows && a.at <= watermark
  {
    var none := Position(ZERO_TIME, 0);
    page := OwnerPage(rows, watermark, none, |rows| + 1);
    OwnerPageIsFirstRows(rows, watermark, none, |rows| + 1);
    if |page| == |rows| + 1 {
      var i := SortedElementsRank(page, rows, |rows|);
    }
  }

  // ---------- the cursor as a credential ----------

  /** The cursor a page was read from, and the one it mints. */
  lemma PageMintsCursor(key: string, tables: Tables, now: int, grant: string, input: Input)
    requires tables.Valid() && now != ZERO_TIME
    requires var r := Handle(key, true, tables, {}, now, grant, input); r.Page? && r.next.Some?
    ensures var r := Handle(key, true, tables, {}, now, grant, input);
            && Normalized(input.types) == Some(r.types)
            && var from := ResolveCursor(key, input, r.types, grant, now);
            && from.Some? && Bound(from.value, input.customer, grant, r.types) && from.value.watermark == r.asOf
            && var next := from.value.(positions := Advance(from.value.positions, r.items));
            && r.next == Some(Encode(key, next)) && Bound(next, input.customer, grant, r.types)
  {
    var types := Normalized(input.types).value;
    var cursor := ResolveCursor(key, input, types, grant, now).value;
    var items := SortActivities(Collect(tables, types, Limit(input), cursor));
    CollectedInWindow(tables, types, Limit(input), cursor);
    assert forall a | a in items[..Limit(input)] :: a in items;
    AdvanceStaysValid(cursor, items[..Limit(input)]);
  }

  /** A minted cursor resumes exactly where its page ended, for the same invocation and no other. */
  lemma MintedCursorIsBound(key: string, tables: Tables, now: int, grant: string, input: Input,
                            input': Input, types': seq<Kind>, grant': string, now': int)
    requires tables.Valid() && now != ZERO_TIME
    requires var r := Handle(key, true, tables, {}, now, grant, input);
             r.Page? && r.next.Some? && input'.cursor == r.next
    ensures var r := Handle(key, true, tables, {}, now, grant, input);
            var resumed := ResolveCursor(key, input', types', grant', now');
            && (resumed.Some? <==> input'.customer == input.customer && grant' == grant && types' == r.types)
            && (resumed.Some? ==>
                  && resumed.value.watermark == r.asOf
                  && resumed.value.positions
                     == Advance(ResolveCursor(key, input, r.types, grant, now).value.positions, r.items))
  {
    PageMintsCursor(key, tables, now, grant, input);
  }

  lemma {:induction false} CollectedInWindow(tables: Tables, types: seq<Kind>, limit: nat, cursor: Cursor)
    requires tables.Valid()
    ensures forall a | a in Collect(tables, types, limit, cursor) ::
              0 < a.id && a.at != ZERO_TIME && InWindow(a, cursor.watermark, PositionAt(cursor.positions, a.kind))
  {
    if types != [] {
      var front, k := types[..|types| - 1], types[|types| - 1];
      CollectedInWindow(tables, front, limit, cursor);
      assert ValidTable(k, tables.Of(k));
    }
  }

  /** Nobody without the key extends a feed. */
  lemma ForgedCursorIsRejected(key: string, tables: Tables, now: int, grant: string, input: Input)
    requires input.cursor.Some?
    requires input.cursor.value.Token? ==> input.cursor.value.mac != Seal(key, input.cursor.value.payload)
    ensures Handle(key, true, tables, {}, now, grant, input) == Invalid
  {
  }

  /** Positions only move strictly backward in time order. */
  lemma PositionsMoveBackward(key: string, tables: Tables, now: int, grant: string, input: Input, k: Kind)
    requires tables.Valid()
    requires var r := Handle(key, true, tables, {}, now, grant, input); r.Page? && r.next.Some?
    ensures var r := Handle(key, true, tables, {}, now, grant, input);
            var from := PositionAt(ResolveCursor(key, input, r.types, grant, now).value.positions, k);
            var to := PositionAt(r.next.value.payload.positions, k);
            to == from || from.at == ZERO_TIME || to.at < from.at || (to.at == from.at && to.id < from.id)
  {
    var types := Normalized(input.types).value;
    var cursor := ResolveCursor(key, input, types, grant, now).value;
    var items := SortActivities(Collect(tables, types, Limit(input), cursor));
    CollectedInWindow(tables, types, Limit(input), cursor);
    var shown := items[..Limit(input)];
    assert forall a | a in shown :: a in items;
    if k in cursor.positions {
      AdvanceKeepsKeys(cursor.positions, shown, k);
    }
    if k in Advance(cursor.positions, shown) {
      AdvanceIsGrounded(cursor.positions, shown, k);
    }
  }

  lemma {:induction false} AdvanceKeepsKeys(positions: map<Kind, Position>, items: seq<Activity>, k: Kind)
    requires k in positions
    ensures k in Advance(positions, items)
  {
    if items != [] {
      AdvanceKeepsKeys(positions, items[..|items| - 1], k);
    }
  }
}
