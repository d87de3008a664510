/** Owner handoff: discovering an all-range selection, and resolving a selection row by row. */
module OwnerHandoff {
  import opened Ascending
  import opened Optional

  datatype Mode = LocalOnly | WeComThenCrm

  datatype User = User(id: int, weComUserId: string, active: bool)

  datatype LocalOwner = LocalOwner(staff: int, version: int)

  datatype Primary = Primary(status: string, corpScope: string, owner: string, version: int)

  /** An exact current follow relation. */
  datatype Relation = Relation(corpScope: string, employee: string, customer: int)

  /** One consistent read of everything the three owners know. */
  datatype Snapshot = Snapshot(
    staff: map<int, User>, byWeComUserId: map<string, int>,
    owners: map<int, LocalOwner>, primaries: map<int, Primary>,
    relations: map<Relation, int>, identities: map<(int, string), string>)
  {
    /** Keys are positive, and a provider user id belongs to at most one member of staff. */
    ghost predicate Valid() {
      && (forall c | c in owners || c in primaries :: 0 < c)
      && (forall r | r in relations :: 0 < r.customer)
      && (forall id | id in staff :: staff[id].id == id)
      && (forall id | id in staff && staff[id].weComUserId != "" ::
            staff[id].weComUserId in byWeComUserId && byWeComUserId[staff[id].weComUserId] == id)
    }
  }

  datatype Digest =
    | NoDigest
    | LocalDigest(customer: int, staff: int, version: int)
    | PrimaryDigest(corpScope: string, owner: string, status: string, version: int)
    | RelationDigest(relation: Relation, version: int)

  datatype State = Ready | Conflict | Unresolved

  datatype Candidate = Candidate(
    customer: int, state: State, reason: string, expectedOwner: int, expectedVersion: int,
    digest: Digest, sourceUser: string, targetUser: string, externalUser: string)

  datatype Refusal =
    | Unavailable | SourceUnavailable | TargetUnavailable | ReaderFailed
    | ExceedsLimit | PrimarySourceFull | RelationUnavailable | NoCandidates

  datatype Reply<+T> = Ok(value: T) | Refused(reason: Refusal)

  // ---------- who may be handed over ----------

  /** The source's own customers, and those without a local owner whose trusted primary is the source. */
  predicate LocallyReady(s: Snapshot, source: int, corpScope: string, c: int) {
    if c in s.owners then s.owners[c].staff == source
    else
      && c in s.primaries && source in s.staff
      && s.primaries[c].status == "known" && s.primaries[c].corpScope == corpScope
      && s.primaries[c].owner != "" && s.primaries[c].owner == s.staff[source].weComUserId
  }

  /** Not another's customer, followed by the source, with a canonical identity. */
  predicate WeComReady(s: Snapshot, source: int, target: int, corpScope: string, c: int) {
    && (c in s.owners ==> s.owners[c].staff == source)
    && source in s.staff && target in s.staff
    && s.staff[source].weComUserId != "" && s.staff[target].weComUserId != ""
    && Relation(corpScope, s.staff[source].weComUserId, c) in s.relations
    && (c, corpScope) in s.identities && s.identities[(c, corpScope)] != ""
  }

  predicate IsReady(s: Snapshot, mode: Mode, source: int, target: int, corpScope: string, c: int) {
    match mode
    case LocalOnly => LocallyReady(s, source, corpScope, c)
    case WeComThenCrm => WeComReady(s, source, target, corpScope, c)
  }

  function ReadySet(s: Snapshot, source: int, corpScope: string): set<int> {
    set c | c in s.owners.Keys + s.primaries.Keys && LocallyReady(s, source, corpScope, c)
  }

  // ---------- the bounded readers ----------

  function Owned(s: Snapshot, staff: int): set<int> {
    set c | c in s.owners && s.owners[c].staff == staff
  }

  function PrimarilyOwned(s: Snapshot, corpScope: string, user: string): set<int> {
    set c | c in s.primaries && s.primaries[c].status == "known" && s.primaries[c].corpScope == corpScope
            && s.primaries[c].owner == user
  }

  function Followed(s: Snapshot, corpScope: string, user: string): set<int> {
    set r | r in s.relations && r.corpScope == corpScope && r.employee == user :: r.customer
  }

  /** The first `limit` of `all`, in ascending order: all of them, when that is fewer. */
  function FirstOf(all: set<int>, limit: nat): (page: seq<int>)
    ensures |page| <= limit
    ensures forall c | c in page :: c in all
  {
    var sorted := Sorted(all);
    if |sorted| <= limit then sorted else sorted[..limit]
  }

  lemma {:induction false} SortedLength(s: set<int>)
    ensures |Sorted(s)| == |s|
  {
    if s != {} {
      SortedLength(s - {Minimum(s)});
    }
  }

  /** A page that is not full is complete; a full one shows that there are that many. */
  lemma PageIsComplete(all: set<int>, limit: nat)
    ensures |FirstOf(all, limit)| < limit ==> forall c | c in all :: c in FirstOf(all, limit)
    ensures |FirstOf(all, limit)| == if |all| <= limit then |all| else limit
  {
    SortedLength(all);
  }

  lemma AtLeast(some: seq<int>, all: set<int>)
    requires forall c | c in some :: c in all
    requires forall i, j | 0 <= i < j < |some| :: some[i] < some[j]
    ensures |some| <= |all|
    decreases |some|
  {
    if some != [] {
      var front, last := some[..|some| - 1], some[|some| - 1];
      assert forall c | c in front :: c in all && c != last;
      AtLeast(front, all - {last});
    }
  }

  // ---------- discovery ----------

  class Discoverer {
    const s: Snapshot
    var seen: set<int>
    /** How many readers did not answer. */
    ghost var failures: nat

    constructor (s: Snapshot)
      ensures this.s == s && seen == {} && failures == 0
    {
      this.s, seen, failures := s, {}, 0;
    }

    method ListOwned(staff: int, limit: nat) returns (page: Option<seq<int>>)
      modifies `failures
      ensures failures == old(failures) + if page == None then 1 else 0
      ensures page.Some? ==> page.value == FirstOf(Owned(s, staff), limit)
    {
      var up: bool := *;
      page := if up then Some(FirstOf(Owned(s, staff), limit)) else None;
      failures := failures + if up then 0 else 1;
    }

    method ListPrimarilyOwned(corpScope: string, user: string, limit: nat) returns (page: Option<seq<int>>)
      modifies `failures
      ensures failures == old(failures) + if page == None then 1 else 0
      ensures page.Some? ==> page.value == FirstOf(PrimarilyOwned(s, corpScope, user), limit)
    {
      var up: bool := *;
      page := if up then Some(FirstOf(PrimarilyOwned(s, corpScope, user), limit)) else None;
      failures := failures + if up then 0 else 1;
    }

    method ListFollowed(corpScope: string, user: string, limit: nat) returns (page: Option<seq<int>>)
      modifies `failures
      ensures failures == old(failures) + if page == None then 1 else 0
      ensures page.Some? ==> page.value == FirstOf(Followed(s, corpScope, user), limit)
    {
      var up: bool := *;
      page := if up then Some(FirstOf(Followed(s, corpScope, user), limit)) else None;
      failures := failures + if up then 0 else 1;
    }

    method ReadOwner(c: int) returns (owner: Option<Option<LocalOwner>>)
      modifies `failures
      ensures failures == old(failures) + if owner == None then 1 else 0
      ensures owner.Some? ==> owner.value == Lookup(s.owners, c)
    {
      var up: bool := *;
      owner := if up then Some(Lookup(s.owners, c)) else None;
      failures := failures + if up then 0 else 1;
    }

    /** Collects the positive ids; stops as soon as there are more than `limit`. */
    method Add(values: seq<int>, limit: nat) returns (ok: bool)
      requires |seen| <= limit
      modifies `seen
      ensures old(seen) <= seen
      ensures forall c | c in seen :: c in old(seen) || (c in values && 0 < c)
      ensures ok ==> |seen| <= limit && forall c | c in values && 0 < c :: c in seen
      ensures !ok ==> |seen| > limit
    {
      for i := 0 to |values|
        invariant |seen| <= limit && old(seen) <= seen
        invariant forall c | c in seen :: c in old(seen) || (c in values && 0 < c)
        invariant forall c | c in values[..i] && 0 < c :: c in seen
      {
        if values[i] < 1 {
          continue;
        }
        seen := seen + {values[i]};
        if |seen| > limit {
          return false;
        }
      }
      assert values[..|values|] == values;
      return true;
    }

    method Discover(mode: Mode, source: int, corpScope: string, limit: int) returns (r: Reply<seq<int>>)
      requires s.Valid() && seen == {}
      modifies this
      ensures r.Ok? ==> 0 < |r.value| <= limit && forall i, j | 0 <= i < j < |r.value| :: r.value[i] < r.value[j]
      // Local mode finds exactly what resolution marks ready; with WeCom first, at least that.
      ensures r.Ok? && mode == LocalOnly ==> forall c :: c in r.value <==> LocallyReady(s, source, corpScope, c)
      ensures r.Ok? && mode == WeComThenCrm ==> forall c, target | WeComReady(s, source, target, corpScope, c) :: c in r.value
      // Who that is: in local mode the source's own customers, and without a local owner those whose known
      // primary is the source; with WeCom first, whoever the source follows.
      ensures r.Ok? ==> source in s.staff
      ensures r.Ok? && mode == LocalOnly ==>
                forall c :: c in r.value
                  <==> if c in s.owners then s.owners[c].staff == source
                       else && c in s.primaries && s.primaries[c].status == "known" && s.primaries[c].corpScope == corpScope
                            && s.primaries[c].owner != "" && s.primaries[c].owner == s.staff[source].weComUserId
      ensures r.Ok? && mode == WeComThenCrm ==>
                && s.staff[source].weComUserId != ""
                && forall c :: c in r.value <==> Relation(corpScope, s.staff[source].weComUserId, c) in s.relations
      // What is refused before anything is read, exactly, and what a failed reader does.
      ensures r == Refused(Unavailable) <==> source < 1 || limit < 1 || 20000 < limit
      ensures r == Refused(SourceUnavailable) <==> 0 < source && 0 < limit <= 20000 && source !in s.staff
      ensures r == Refused(RelationUnavailable)
              <==> && 0 < source && 0 < limit <= 20000 && source in s.staff
                   && mode == WeComThenCrm && s.staff[source].weComUserId == ""
      ensures r == Refused(ReaderFailed) <==> failures != old(failures)
      ensures r != Refused(TargetUnavailable)
      // A refusal for size is never wrong, and "no candidates" means none.
      ensures r == Refused(ExceedsLimit) && mode == LocalOnly ==> |ReadySet(s, source, corpScope)| > limit
      ensures r == Refused(ExceedsLimit) && mode == WeComThenCrm ==>
                source in s.staff && |Followed(s, corpScope, s.staff[source].weComUserId)| > limit
      ensures r == Refused(NoCandidates) && mode == WeComThenCrm ==>
                source in s.staff && forall c :: Relation(corpScope, s.staff[source].weComUserId, c) !in s.relations
      ensures r == Refused(PrimarySourceFull) ==>
                mode == LocalOnly && source in s.staff && |PrimarilyOwned(s, corpScope, s.staff[source].weComUserId)| > limit
      ensures r == Refused(NoCandidates) && mode == LocalOnly ==> forall c :: !LocallyReady(s, source, corpScope, c)
    {
      hide FirstOf, Sorted;
      if source < 1 || limit < 1 || limit > 20000 {
        return Refused(Unavailable);
      }
      if source !in s.staff {
        return Refused(SourceUnavailable);
      }
      var user := s.staff[source].weComUserId;
      if mode == LocalOnly {
        var refusal := DiscoverLocal(source, user, corpScope, limit);
        if refusal.Some? {
          return Refused(refusal.value);
        }
      } else {
        if user == "" {
          return Refused(RelationUnavailable);
        }
        var page := ListFollowed(corpScope, user, limit + 1);
        if page == None {
          return Refused(ReaderFailed);
        }
        FollowedAre(s, corpScope, user, limit);
        var ok := Add(page.value, limit);
        assert forall c | c in seen :: c in Followed(s, corpScope, user);
        if !ok {
          Larger(seen, Followed(s, corpScope, user));
          return Refused(ExceedsLimit);
        }
        FollowedIsComplete(s, corpScope, user, limit, page.value, seen);
      }
      if seen == {} {
        return Refused(NoCandidates);
      }
      SortedLength(seen);
      SortedIsAscending(seen);
      return Ok(Sorted(seen));
    }

    method DiscoverLocal(source: int, user: string, corpScope: string, limit: nat) returns (refusal: Option<Refusal>)
      requires s.Valid() && seen == {} && source in s.staff && user == s.staff[source].weComUserId
      modifies this
      ensures refusal == None ==> |seen| <= limit && forall c :: c in seen <==> LocallyReady(s, source, corpScope, c)
      ensures refusal == Some(ExceedsLimit) ==> |ReadySet(s, source, corpScope)| > limit
      ensures refusal == Some(PrimarySourceFull) ==> |PrimarilyOwned(s, corpScope, user)| > limit
      ensures refusal == None || refusal.value in {ExceedsLimit, PrimarySourceFull, ReaderFailed}
      ensures refusal == Some(ReaderFailed) <==> failures != old(failures)
    {
      hide FirstOf, Sorted;
      var owned := ListOwned(source, limit + 1);
      if owned == None {
        return Some(ReaderFailed);
      }
      OwnedIsReady(s, source, corpScope, limit);
      var ok := Add(owned.value, limit);
      assert forall c | c in seen :: c in Owned(s, source);
      if !ok {
        Larger(seen, ReadySet(s, source, corpScope));
        return Some(ExceedsLimit);
      }
      OwnedIsComplete(s, source, limit, owned.value, seen);
      if user == "" {
        return None;
      }
      var primary := ListPrimarilyOwned(corpScope, user, limit + 1);
      if primary == None {
        return Some(ReaderFailed);
      }
      PageIsComplete(PrimarilyOwned(s, corpScope, user), limit + 1);
      if |primary.value| > limit {
        return Some(PrimarySourceFull);
      }
      for i := 0 to |primary.value|
        invariant |seen| <= limit && failures == old(failures)
        invariant forall c | c in seen :: LocallyReady(s, source, corpScope, c)
        invariant forall c | c in Owned(s, source) :: c in seen
        invariant forall c | c in primary.value[..i] && LocallyReady(s, source, corpScope, c) :: c in seen
      {
        var c := primary.value[i];
        assert c in primary.value;
        var owner := ReadOwner(c);
        if owner == None {
          return Some(ReaderFailed);
        }
        if owner.value.Some? && owner.value.value.staff != source {
          continue;
        }
        ok := Add([c], limit);
        assert forall c | c in seen :: LocallyReady(s, source, corpScope, c) && c in ReadySet(s, source, corpScope);
        if !ok {
          Larger(seen, ReadySet(s, source, corpScope));
          return Some(ExceedsLimit);
        }
      }
      assert primary.value[..|primary.value|] == primary.value;
      return None;
    }
  }

  lemma Larger(some: set<int>, all: set<int>)
    requires forall c | c in some :: c in all
    ensures |some| <= |all|
  {
    SortedLength(some);
    SortedIsAscending(some);
    AtLeast(Sorted(some), all);
  }

  lemma SortedIsAscending(s: set<int>)
    ensures forall i, j | 0 <= i < j < |Sorted(s)| :: Sorted(s)[i] < Sorted(s)[j]
    ensures forall c :: c in Sorted(s) <==> c in s
  {
  }

  lemma OwnedIsReady(s: Snapshot, source: int, corpScope: string, limit: nat)
    ensures forall c | c in FirstOf(Owned(s, source), limit + 1) :: c in Owned(s, source)
    ensures forall c | c in Owned(s, source) :: c in ReadySet(s, source, corpScope)
    ensures forall c :: c in ReadySet(s, source, corpScope) <==> LocallyReady(s, source, corpScope, c)
  {
  }

  lemma OwnedIsComplete(s: Snapshot, source: int, limit: nat, page: seq<int>, seen: set<int>)
    requires s.Valid() && page == FirstOf(Owned(s, source), limit + 1) && |seen| <= limit
    requires forall c | c in page && 0 < c :: c in seen
    ensures forall c | c in Owned(s, source) :: c in seen
  {
    CollectedIsComplete(Owned(s, source), limit, seen);
  }

  lemma FollowedAre(s: Snapshot, corpScope: string, user: string, limit: nat)
    ensures forall c | c in FirstOf(Followed(s, corpScope, user), limit + 1) :: c in Followed(s, corpScope, user)
    ensures forall c | c in Followed(s, corpScope, user) :: Relation(corpScope, user, c) in s.relations
  {
  }

  lemma FollowedIsComplete(s: Snapshot, corpScope: string, user: string, limit: nat, page: seq<int>, seen: set<int>)
    requires s.Valid() && page == FirstOf(Followed(s, corpScope, user), limit + 1) && |seen| <= limit
    requires forall c | c in page && 0 < c :: c in seen
    ensures forall c | Relation(corpScope, user, c) in s.relations :: c in seen
  {
    CollectedIsComplete(Followed(s, corpScope, user), limit, seen);
    forall c | Relation(corpScope, user, c) in s.relations
      ensures c in Followed(s, corpScope, user)
    {
      assert Relation(corpScope, user, c).customer == c;
    }
  }

  /** Asking for one more than the limit shows that nothing was cut off. */
  lemma CollectedIsComplete(all: set<int>, limit: nat, seen: set<int>)
    requires |seen| <= limit
    requires forall c | c in FirstOf(all, limit + 1) && 0 < c :: c in seen
    requires forall c | c in all :: 0 < c
    ensures forall c | c in all :: c in seen
  {
    var page := FirstOf(all, limit + 1);
    PageIsComplete(all, limit + 1);
    SortedIsAscending(all);
    assert forall i, j | 0 <= i < j < |page| :: page[i] < page[j];
    AtLeast(page, seen);
  }

  // ---------- resolution ----------

  method Resolve(s: Snapshot, mode: Mode, source: int, target: int, corpScope: string, ids: seq<int>)
    returns (r: Reply<seq<Candidate>>)
    requires s.Valid()
    // One row per input, in order, each ready exactly when its customer may be handed over.
    ensures r.Ok? ==>
              && |r.value| == |ids|
              && forall i | 0 <= i < |ids| ::
                   && r.value[i].customer == ids[i]
                   && (r.value[i].state == Ready <==> IsReady(s, mode, source, target, corpScope, ids[i]))
                   && Explained(s, mode, source, target, corpScope, r.value[i])
    ensures r.Ok? ==> ids != [] && source in s.staff && target in s.staff && s.staff[target].active
    ensures r == Refused(Unavailable) <==> ids == []
    ensures r == Refused(SourceUnavailable) <==> ids != [] && source !in s.staff
    ensures r == Refused(TargetUnavailable) <==> ids != [] && source in s.staff && (target in s.staff ==> !s.staff[target].active)
    ensures r.Refused? ==> r.reason in {Unavailable, SourceUnavailable, TargetUnavailable, ReaderFailed}
  {
    if ids == [] {
      return Refused(Unavailable);
    }
    if source !in s.staff {
      return Refused(SourceUnavailable);
    }
    if target !in s.staff || !s.staff[target].active {
      return Refused(TargetUnavailable);
    }
    var rows: seq<Candidate> := [];
    for i := 0 to |ids|
      invariant |rows| == i
      invariant forall k | 0 <= k < i ::
                  && rows[k].customer == ids[k]
                  && (rows[k].state == Ready <==> IsReady(s, mode, source, target, corpScope, ids[k]))
                  && Explained(s, mode, source, target, corpScope, rows[k])
    {
      var up: bool := *;
      if !up {
        return Refused(ReaderFailed);
      }
      var row := ResolveOne(s, mode, source, target, corpScope, ids[i]);
      rows := rows + [row];
    }
    return Ok(rows);
  }

  /** A row that is not ready names the first thing that is missing, and a ready one carries the
      evidence that a later execution has to find unchanged. */
  predicate Explained(s: Snapshot, mode: Mode, source: int, target: int, corpScope: string, row: Candidate) {
    var c := row.customer;
    && (c in s.owners ==> row.expectedOwner == s.owners[c].staff && row.expectedVersion == s.owners[c].version)
    && (c !in s.owners ==> row.expectedOwner == 0 && row.expectedVersion == 0)
    && (row.state == Conflict <==> c in s.owners && s.owners[c].staff != source)
    && (row.state == Conflict ==> row.reason == "local_owner_not_source")
    && (row.state == Ready <==> row.reason == "")
    && (row.state == Unresolved && mode == LocalOnly ==>
          && row.reason == "trusted_primary_owner_missing" && c !in s.owners
          && (|| c !in s.primaries || source !in s.staff || s.primaries[c].status != "known"
              || s.primaries[c].corpScope != corpScope || s.primaries[c].owner == ""
              || s.primaries[c].owner != s.staff[source].weComUserId))
    && (row.state == Unresolved && mode == WeComThenCrm ==>
          && source in s.staff && target in s.staff
          && row.reason == if s.staff[source].weComUserId == "" || s.staff[target].weComUserId == ""
                           then "staff_wecom_identity_missing"
                           else if Relation(corpScope, s.staff[source].weComUserId, c) !in s.relations
                           then "source_follow_relationship_missing"
                           else "canonical_wecom_identity_missing")
    && (row.state != Ready ==> row.digest == NoDigest && row.externalUser == "")
    && (row.state == Ready && mode == LocalOnly && c in s.owners ==> row.digest == LocalDigest(c, source, s.owners[c].version))
    && (row.state == Ready && mode == LocalOnly && c !in s.owners ==>
          && c in s.primaries && source in s.staff
          && var p := s.primaries[c];
             && p.status == "known" && p.corpScope == corpScope && p.owner != "" && p.owner == s.staff[source].weComUserId
             && row.digest == PrimaryDigest(p.corpScope, p.owner, p.status, p.version))
    && (row.state == Ready && mode == WeComThenCrm ==>
          && source in s.staff && target in s.staff
          && row.sourceUser == s.staff[source].weComUserId && row.targetUser == s.staff[target].weComUserId
          && (c, corpScope) in s.identities && row.externalUser == s.identities[(c, corpScope)] != ""
          && var relation := Relation(corpScope, row.sourceUser, c);
             relation in s.relations && row.digest == RelationDigest(relation, s.relations[relation]))
  }

  method ResolveOne(s: Snapshot, mode: Mode, source: int, target: int, corpScope: string,
                    c: int) returns (row: Candidate)
    requires s.Valid() && source in s.staff && target in s.staff
    ensures row.customer == c
    ensures row.state == Ready <==> IsReady(s, mode, source, target, corpScope, c)
    ensures Explained(s, mode, source, target, corpScope, row)
  {
    row := Candidate(c, Ready, "", 0, 0, NoDigest, "", "", "");
    var sourceUser, targetUser := s.staff[source].weComUserId, s.staff[target].weComUserId;
    if c in s.owners {
      row := row.(expectedOwner := s.owners[c].staff, expectedVersion := s.owners[c].version);
      if s.owners[c].staff != source {
        return row.(state := Conflict, reason := "local_owner_not_source");
      }
    } else if mode == LocalOnly {
      if || c !in s.primaries || s.primaries[c].status != "known" || s.primaries[c].corpScope != corpScope
         || s.primaries[c].owner == "" || s.primaries[c].owner != sourceUser {
        return row.(state := Unresolved, reason := "trusted_primary_owner_missing");
      }
      var primary := s.primaries[c];
      if primary.owner !in s.byWeComUserId || s.byWeComUserId[primary.owner] != source {
        return row.(state := Unresolved, reason := "trusted_primary_owner_access_missing");
      }
      return row.(digest := PrimaryDigest(primary.corpScope, primary.owner, primary.status, primary.version));
    }
    if mode == LocalOnly {
      return row.(digest := LocalDigest(c, row.expectedOwner, row.expectedVersion));
    }
    if sourceUser == "" || targetUser == "" {
      return row.(state := Unresolved, reason := "staff_wecom_identity_missing");
    }
    var relation := Relation(corpScope, sourceUser, c);
    if relation !in s.relations {
      return row.(state := Unresolved, reason := "source_follow_relationship_missing");
    }
    if (c, corpScope) !in s.identities || s.identities[(c, corpScope)] == "" {
      return row.(state := Unresolved, reason := "canonical_wecom_identity_missing");
    }
    return row.(digest := RelationDigest(relation, s.relations[relation]), sourceUser := sourceUser,
                targetUser := targetUser, externalUser := s.identities[(c, corpScope)]);
  }

  // ---------- discovery and resolution agree ----------

  /** Over one snapshot, resolving what local discovery found yields ready rows only, and any other
      customer resolves to something else. */
  method DiscoverAndResolve(s: Snapshot, source: int, target: int, corpScope: string, limit: int, other: int)
    returns (found: Reply<seq<int>>, rows: Reply<seq<Candidate>>)
    requires s.Valid()
    ensures found.Ok? && rows.Ok? ==>
              && |rows.value| == |found.value| + 1
              && (forall i | 0 <= i < |found.value| :: rows.value[i].customer == found.value[i] && rows.value[i].state == Ready)
              && (rows.value[|found.value|].state == Ready <==> other in found.value)
  {
    var d := new Discoverer(s);
    found := d.Discover(LocalOnly, source, corpScope, limit);
    rows := Refused(Unavailable);
    if found.Ok? {
      var ids := found.value + [other];
      rows := Resolve(s, LocalOnly, source, target, corpScope, ids);
      assert forall i | 0 <= i < |found.value| :: ids[i] == found.value[i] && ids[i] in found.value;
    }
  }
}
