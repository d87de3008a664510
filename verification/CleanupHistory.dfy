/** Interrupted, replayed and repeated cleanups. */
module CleanupHistory {
  import opened CrashDirectory
  import opened Optional
  import opened ReleaseSuccess
  import opened CleanupPlan
  import opened ReleaseCleanup

  // ---------- the audit file ----------

  /** Whatever a run began to remove is in the audit file, and all but the last of it as completed. */
  lemma {:induction false} TrailNamesRemovals(removals: seq<Removal>, closed: bool)
    ensures forall m | m in removals :: Started(m) in Trail(removals, closed)
    ensures forall i | 0 <= i < |removals| && (closed || i < |removals| - 1) :: Completed(removals[i]) in Trail(removals, closed)
    ensures forall e | e in Trail(removals, closed) :: e.removal in removals
    ensures |Trail(removals, closed)| == 2 * |removals| - if closed || removals == [] then 0 else 1
  {
    if removals != [] {
      var front, last := removals[..|removals| - 1], removals[|removals| - 1];
      TrailNamesRemovals(front, true);
      assert forall m | m in removals :: m in front || m == last;
    }
  }

  /** Every release that is gone or damaged has a start in the audit file. */
  ghost predicate Audited(initial: Releases, releases: Releases, log: seq<Event>) {
    forall d | d in initial && (d !in releases || releases[d] != initial[d]) ::
      exists e | e in log :: e.Started? && Release(e.removal.sha) == d
  }

  lemma RunIsAudited(initial: Releases, before: Releases, log: seq<Event>, after: Releases, started: seq<Removal>,
                     closed: bool)
    requires Audited(initial, before, log) && Reduced(before, after, Marks(started))
    ensures Audited(initial, after, log + Trail(started, closed))
  {
    TrailNamesRemovals(started, closed);
    forall d | d in initial && (d !in after || after[d] != initial[d])
      ensures exists e | e in log + Trail(started, closed) :: e.Started? && Release(e.removal.sha) == d
    {
      if d in Marks(started) {
        var m :| m in started && Release(m.sha) == d;
        assert Started(m) in log + Trail(started, closed);
      } else {
        var e :| e in log && e.Started? && Release(e.removal.sha) == d;
        assert e in log + Trail(started, closed);
      }
    }
  }

  // ---------- what every run spares ----------

  const QUIET := Glimpse(None, {}, {})

  /** The two latest successes, as long as their receipts can be read, are the two latest successes afterwards. */
  lemma RollbackPairSurvives(releases: Releases, site: Site, g: Glimpse, r: Report, pair: seq<Sha>, releases': Releases)
    requires Reports(releases, site, g, r) && Reduced(releases, releases', Shas(r.eligible))
    requires IsRollback(Successful(releases, site, QUIET), pair) && forall sha | sha in pair :: sha !in g.unread
    ensures IsRollback(Successful(releases', site, QUIET), pair)
  {
    hide Reports, Successful, Reduced, Shas;
    SameSuccessful(releases, site, QUIET, g.(unreadable := {}, unread := {}));
    SuccessfulShrinks(releases, site, QUIET, r, releases');
    forall sha | sha in pair
      ensures sha !in r.eligible
    {
      LatestSuccessesSurvive(releases, site, g, r, pair, sha);
    }
    RollbackStays(Successful(releases, site, QUIET), Successful(releases', site, QUIET), pair);
  }

  lemma JustifiedAreEligible(eligible: map<Sha, Package>, removals: seq<Removal>, seen: seq<set<Sha>>)
    requires AllJustified(eligible, removals, seen)
    ensures Marks(removals) <= Shas(eligible)
  {
  }

  lemma ReducedMore(releases: Releases, releases': Releases, removed: set<DirName>, more: set<DirName>)
    requires Reduced(releases, releases', removed) && removed <= more
    ensures Reduced(releases, releases', more)
  {
  }

  lemma SparedStays(releases: Releases, site: Site, g: Glimpse, r: Report, releases': Releases, sha: Sha)
    requires Reports(releases, site, g, r) && Reduced(releases, releases', Shas(r.eligible))
    requires Release(sha) == site.current || sha in site.protected
    requires Release(sha) in releases
    ensures Release(sha) in releases' && releases'[Release(sha)] == releases[Release(sha)]
  {
    hide Verified, Successful;
    EligibleAre(releases, site, g, r.rollback);
    assert Spared(site, g, r.rollback, sha);
  }

  /** Any number of cleanups with any plans, each cut short anywhere, over references that change. */
  method Run(host: ReleaseHost, site: Site, runs: nat, ghost pair: seq<Sha>) returns (ghost allRead: bool)
    requires IsRollback(Successful(host.releases, site, QUIET), pair)
    modifies host
    ensures old(host.log) <= host.log && Audited(old(host.releases), host.releases, host.log[|old(host.log)|..])
    ensures forall sha | Release(sha) in old(host.releases) && (Release(sha) == site.current || sha in site.protected) ::
              Release(sha) in host.releases && host.releases[Release(sha)] == old(host.releases)[Release(sha)]
    ensures allRead ==> IsRollback(Successful(host.releases, site, QUIET), pair)
  {
    hide Reports, Successful, Verified, Acceptable, AllJustified, Trail, Reduced, Marks, Shas, IsRollback, Audited;
    ghost var initial, start := host.releases, host.log;
    var left := runs;
    allRead := true;
    NothingIsAudited(initial);
    ghost var added: seq<Event> := [];
    while left > 0
      invariant host.log == start + added && Audited(initial, host.releases, added)
      invariant forall sha | Release(sha) in initial && (Release(sha) == site.current || sha in site.protected) ::
                  Release(sha) in host.releases && host.releases[Release(sha)] == initial[Release(sha)]
      invariant allRead ==> IsRollback(Successful(host.releases, site, QUIET), pair)
    {
      left := left - 1;
      var plan: Plan := *;
      ghost var before, known := host.releases, |host.glances|;
      var r;
      ghost var g, report, started, closed;
      r, g, report, started, closed := host.ApplyPlan(site, plan);
      RunIsAudited(initial, before, added, host.releases, started, closed);
      added := added + Trail(started, closed);
      if started == [] {
        NothingReduced(before, host.releases);
      } else {
        allRead := allRead && forall sha | sha in pair :: sha !in g.unread;
        JustifiedAreEligible(report.value.eligible, started, host.glances[known + 1..]);
        ReducedMore(before, host.releases, Marks(started), Shas(report.value.eligible));
        if allRead {
          RollbackPairSurvives(before, site, g, report.value, pair, host.releases);
        }
        forall sha | Release(sha) in initial && (Release(sha) == site.current || sha in site.protected)
          ensures Release(sha) in host.releases && host.releases[Release(sha)] == initial[Release(sha)]
        {
          SparedStays(before, site, g, report.value, host.releases, sha);
        }
      }
    }
    assert host.log[|start|..] == added;
  }

  lemma NothingIsAudited(initial: Releases)
    ensures Audited(initial, initial, [])
  {
  }

  lemma NothingReduced(releases: Releases, releases': Releases)
    requires Reduced(releases, releases', Marks([]))
    ensures releases' == releases
  {
  }

  // ---------- replay ----------

  /** Cut short anywhere and replayed to the end, a plan leaves what one uninterrupted run leaves; and
      once it is done, replaying it removes nothing. */
  method InterruptThenReplay(host: ReleaseHost, site: Site, plan: Plan, attempts: nat)
    returns (finished: bool, again: Cleanup, ghost extra: seq<Removal>)
    modifies host
    ensures finished ==> host.releases == old(host.releases) - Names(plan.candidates)
    ensures finished ==> extra == [] && (again.Cleaned? ==> again.deleted == [])
  {
    hide Reports, Successful, Verified, Acceptable, AllJustified, Trail;
    ghost var initial := host.releases;
    finished, again, extra := false, Died, [];
    var left := attempts;
    ReducedItself(initial, Names(plan.candidates));
    while left > 0 && !finished
      invariant Reduced(initial, host.releases, Names(plan.candidates))
      invariant finished ==> host.releases == initial - Names(plan.candidates)
      decreases left, !finished
    {
      left := left - 1;
      ghost var before := host.releases;
      var r;
      ghost var g, report, started, closed;
      r, g, report, started, closed := host.ApplyPlan(site, plan);
      ReducedMore(before, host.releases, Marks(started), Names(plan.candidates));
      ReducedAgain(initial, before, host.releases, Names(plan.candidates), Names(plan.candidates));
      assert Names(plan.candidates) + Names(plan.candidates) == Names(plan.candidates);
      if r.Cleaned? {
        finished := true;
        WholePlanAgain(initial, before, Names(plan.candidates));
      }
    }
    if finished {
      ghost var before := host.releases;
      ghost var g, report, closed;
      again, g, report, extra, closed := host.ApplyPlan(site, plan);
      NothingLeftToMark(before, Names(plan.candidates), extra);
    }
  }

  lemma NothingLeftToMark(releases: Releases, removed: set<DirName>, removals: seq<Removal>)
    requires removed !! releases.Keys && (removals != [] ==> Marks(removals) <= removed * releases.Keys)
    ensures removals == []
  {
    assert removals != [] ==> Release(removals[0].sha) in Marks(removals);
  }

  lemma ReducedItself(releases: Releases, removed: set<DirName>)
    ensures Reduced(releases, releases, removed)
  {
  }

  lemma WholePlanAgain(initial: Releases, before: Releases, removed: set<DirName>)
    requires Reduced(initial, before, removed)
    ensures before - removed == initial - removed
  {
  }
}
