/** The order of the merged customer feed, and what a bounded read of each owner yields. */
module ActivityFeed {

  datatype Kind = Message | Order | Radar | Survey

  /** The position of a type name in alphabetical order. */
  function Rank(k: Kind): int {
    match k
    case Message => 0
    case Order => 1
    case Radar => 2
    case Survey => 3
  }

  datatype Activity = Activity(kind: Kind, at: int, id: int, payload: string)

  datatype Position = Position(at: int, id: int)

  /** The zero time stands for "no position". */
  const ZERO_TIME := 0

  function PositionOf(a: Activity): Position {
    Position(a.at, a.id)
  }

  /** Newest first; ties by type name, then by descending id. */
  predicate Before(a: Activity, b: Activity) {
    || a.at > b.at
    || (a.at == b.at && Rank(a.kind) < Rank(b.kind))
    || (a.at == b.at && a.kind == b.kind && a.id > b.id)
  }

  /** The order, with the type names in the alphabet. */
  lemma BeforeMeans(a: Activity, b: Activity)
    ensures Before(a, b)
            <==> || a.at > b.at
                 || (a.at == b.at && a.kind == b.kind && a.id > b.id)
                 || (a.at == b.at && a.kind != b.kind
                     && (a.kind == Message || b.kind == Survey || (a.kind == Order && b.kind == Radar)))
  {
  }

  ghost predicate Sorted(s: seq<Activity>) {
    forall i, j | 0 <= i < j < |s| :: Before(s[i], s[j])
  }

  /** One owner's rows in keyset order. */
  ghost predicate ValidTable(k: Kind, rows: seq<Activity>) {
    Sorted(rows) && forall a | a in rows :: a.kind == k && 0 < a.id && a.at != ZERO_TIME
  }

  datatype Tables = Tables(messages: seq<Activity>, orders: seq<Activity>, radar: seq<Activity>, surveys: seq<Activity>) {
    function Of(k: Kind): seq<Activity> {
      match k
      case Message => messages
      case Order => orders
      case Radar => radar
      case Survey => surveys
    }

    ghost predicate Valid() {
      forall k :: ValidTable(k, Of(k))
    }
  }

  /** The rows an owner may return: at or before the watermark, strictly after the position. */
  predicate InWindow(a: Activity, watermark: int, after: Position) {
    && a.at <= watermark
    && (after.at != ZERO_TIME ==> a.at < after.at || (a.at == after.at && a.id < after.id))
  }

  function OwnerPage(rows: seq<Activity>, watermark: int, after: Position, limit: nat): (page: seq<Activity>)
    ensures |page| <= limit
    ensures forall a | a in page :: a in rows && InWindow(a, watermark, after)
  {
    if rows == [] || limit == 0 then []
    else if InWindow(rows[0], watermark, after)
    then [rows[0]] + OwnerPage(rows[1..], watermark, after, limit - 1)
    else OwnerPage(rows[1..], watermark, after, limit)
  }

  lemma {:induction false} OwnerPageIsFirstRows(rows: seq<Activity>, watermark: int, after: Position, limit: nat)
    requires Sorted(rows)
    ensures var page := OwnerPage(rows, watermark, after, limit);
            && Sorted(page)
            && forall a | a in rows && InWindow(a, watermark, after) && a !in page ::
                 |page| == limit && forall b | b in page :: Before(b, a)
  {
    hide InWindow, Before;
    if rows != [] && limit != 0 {
      var rest := rows[1..];
      assert forall a | a in rows :: a == rows[0] || a in rest;
      assert forall a | a in rest :: Before(rows[0], a);
      if InWindow(rows[0], watermark, after) {
        OwnerPageIsFirstRows(rest, watermark, after, limit - 1);
        assert OwnerPage(rows, watermark, after, limit) == [rows[0]] + OwnerPage(rest, watermark, after, limit - 1);
      } else {
        OwnerPageIsFirstRows(rest, watermark, after, limit);
      }
    }
  }

  // ---------- sorting ----------

  predicate Comparable(a: Activity, b: Activity) {
    Before(a, b) || Before(b, a)
  }

  ghost predicate AllComparable(s: seq<Activity>) {
    forall i, j | 0 <= i < j < |s| :: Comparable(s[i], s[j])
  }

  lemma DifferentKindsCompare(s: seq<Activity>, page: seq<Activity>, k: Kind)
    requires AllComparable(s) && Sorted(page)
    requires (forall a | a in s :: a.kind != k) && (forall a | a in page :: a.kind == k)
    ensures AllComparable(s + page)
  {
    assert forall a: Activity, b: Activity | a.kind != b.kind :: Comparable(a, b);
  }

  function Insert(a: Activity, s: seq<Activity>): (r: seq<Activity>)
    ensures |r| == |s| + 1
    ensures forall b :: b in r <==> b == a || b in s
  {
    if s == [] || Before(a, s[0]) then [a] + s else [s[0]] + Insert(a, s[1..])
  }

  lemma {:induction false} InsertKeepsSorted(a: Activity, s: seq<Activity>)
    requires Sorted(s) && forall b | b in s :: Comparable(a, b)
    ensures Sorted(Insert(a, s))
  {
    if s != [] && Before(a, s[0]) {
      assert forall b | b in s :: b == s[0] || Before(s[0], b);
    } else if s != [] {
      InsertKeepsSorted(a, s[1..]);
      assert Comparable(a, s[0]);
      assert forall b | b in s[1..] :: Before(s[0], b);
      assert forall b | b in Insert(a, s[1..]) :: Before(s[0], b);
    }
  }

  /** The library sort by `Before`. */
  function SortActivities(s: seq<Activity>): (r: seq<Activity>)
    ensures |r| == |s|
    ensures forall a :: a in r <==> a in s
  {
    if s == [] then [] else Insert(s[0], SortActivities(s[1..]))
  }

  lemma {:induction false} SortingSorts(s: seq<Activity>)
    requires AllComparable(s)
    ensures Sorted(SortActivities(s))
  {
    if s != [] {
      SortingSorts(s[1..]);
      assert forall b | b in s[1..] :: Comparable(s[0], b);
      InsertKeepsSorted(s[0], SortActivities(s[1..]));
    }
  }

  // ---------- facts about sorted sequences ----------

  lemma {:induction false} SortedElementsRank(u: seq<Activity>, t: seq<Activity>, j: nat) returns (i: nat)
    requires Sorted(u) && Sorted(t) && j < |u| && forall a | a in u :: a in t
    ensures j <= i < |t| && t[i] == u[j]
  {
    assert u[j] in t;
    i :| 0 <= i < |t| && t[i] == u[j];
    if j > 0 {
      var p := SortedElementsRank(u, t, j - 1);
      assert Before(u[j - 1], u[j]);
    }
  }

  /** No more than `i` selected activities come before the `i`-th. */
  lemma SelectionBefore(u: seq<Activity>, t: seq<Activity>, i: nat)
    requires Sorted(u) && Sorted(t) && i < |t|
    requires forall a | a in u :: a in t && Before(a, t[i])
    ensures |u| <= i
  {
    if |u| > 0 {
      var j := SortedElementsRank(u, t, |u| - 1);
      assert Before(t[j], t[i]);
    }
  }

  /** A sorted selection that contains the head of `t` starts with the head of `t`. */
  lemma {:induction false} SelectionStartsLikeAll(u: seq<Activity>, t: seq<Activity>, m: nat)
    requires Sorted(u) && Sorted(t) && m <= |t|
    requires forall a | a in u :: a in t
    requires forall i | 0 <= i < m :: t[i] in u
    ensures m <= |u| && u[..m] == t[..m]
  {
    if m > 0 {
      SelectionStartsLikeAll(u, t, m - 1);
      var j :| 0 <= j < |u| && u[j] == t[m - 1];
      var i := SortedElementsRank(u, t, j);
      assert i == m - 1;
      forall l | 0 <= l < m - 1
        ensures u[l] == t[l]
      {
        assert u[..m - 1][l] == t[..m - 1][l];
      }
      assert j == m - 1;
      assert u[..m] == u[..m - 1] + [u[m - 1]];
      assert t[..m] == t[..m - 1] + [t[m - 1]];
    }
  }

  lemma SortedIsUnique(s: seq<Activity>, t: seq<Activity>)
    requires Sorted(s) && Sorted(t) && forall a :: a in s <==> a in t
    ensures s == t
  {
    SelectionStartsLikeAll(s, t, |t|);
    SelectionStartsLikeAll(t, s, |s|);
    assert s[..|s|] == s && t[..|t|] == t;
  }
}
