/** Inventory and removal of release packages on the host, with references that change meanwhile. */
module ReleaseCleanup {
  import opened CrashDirectory
  import opened Optional
  import opened ReleaseSuccess
  import opened CleanupPlan

  datatype Removal = Removal(sha: Sha, bytes: int, manifest: string)

  datatype Event = Started(removal: Removal) | Completed(removal: Removal)

  datatype Inspection = Reported(report: Report) | NotReported(reason: Reason)

  datatype Cleanup =
    | Cleaned(deleted: seq<Removal>, absent: seq<DirName>)
    | Refused(reason: Reason, deleted: seq<Removal>)
    | Died

  datatype Step = Removed | Stopped(reason: Reason) | Cut

  function RemovalOf(sha: Sha, package: Package): Removal {
    Removal(sha, package.bytes, package.binding.manifest)
  }

  /** The audit events of removals of which all but the last completed. */
  function Trail(removals: seq<Removal>, closed: bool): seq<Event> {
    if removals == [] then []
    else
      var last := removals[|removals| - 1];
      Trail(removals[..|removals| - 1], true) + [Started(last)] + if closed then [Completed(last)] else []
  }

  function Marks(removals: seq<Removal>): set<DirName> {
    set m | m in removals :: Release(m.sha)
  }

  function Absent(releases: Releases, candidates: seq<Candidate>): seq<DirName> {
    if candidates == [] then []
    else
      var last := candidates[|candidates| - 1];
      Absent(releases, candidates[..|candidates| - 1]) + if last.name in releases then [] else [last.name]
  }

  lemma TrailGrows(removals: seq<Removal>, m: Removal, closed: bool)
    ensures Trail(removals + [m], closed) == Trail(removals, true) + [Started(m)] + if closed then [Completed(m)] else []
  {
    assert (removals + [m])[..|removals|] == removals;
  }

  class ReleaseHost {
    var releases: Releases
    /** The audit file. */
    var log: seq<Event>
    /** Every completed inventory of live references, oldest first. */
    ghost var glances: seq<set<Sha>>
    /** How many calls did not return. */
    ghost var trouble: nat

    constructor (releases: Releases)
      ensures this.releases == releases && log == [] && glances == [] && trouble == 0
    {
      this.releases, log, glances, trouble := releases, [], [], 0;
    }

    // ---------- calls into the system ----------

    /** Processes, services and links may refer to anything, and to something else each time. */
    method LiveReferences() returns (found: Option<set<Sha>>)
      modifies `glances, `trouble
      ensures glances == old(glances) + if found.Some? then [found.value] else []
      ensures trouble == old(trouble) + if found.Some? then 0 else 1
    {
      found := *;
      if found.Some? {
        glances := glances + [found.value];
      } else {
        trouble := trouble + 1;
      }
    }

    method VerifyPackage(d: DirName) returns (package: Option<Package>)
      requires d in releases
      modifies `trouble
      ensures package.Some? ==> releases[d] == Intact(package.value)
      ensures trouble >= old(trouble) && (trouble == old(trouble) && releases[d].Intact? ==> package.Some?)
    {
      var readable: bool := *;
      trouble := trouble + if readable then 0 else 1;
      package := if readable && releases[d].Intact? then Some(releases[d].package) else None;
    }

    method Audit(e: Event) returns (o: Outcome)
      modifies `log, `trouble
      ensures trouble == old(trouble) + if o == Done then 0 else 1
      ensures o == Done ==> log == old(log) + [e]
      ensures o != Done ==> log == old(log) || log == old(log) + [e]
    {
      var written: bool := *;
      o := *;
      if written || o == Done {
        log := log + [e];
      }
      trouble := trouble + if o == Done then 0 else 1;
    }

    /** Removing a tree can stop half way, and then what is left is no package. */
    method RemoveTree(d: DirName) returns (o: Outcome)
      requires d in releases
      modifies `releases, `trouble
      ensures trouble == old(trouble) + if o == Done then 0 else 1
      ensures o == Done ==> releases == old(releases) - {d}
      ensures o != Done ==> releases in {old(releases), old(releases)[d := Broken], old(releases) - {d}}
    {
      var begun: bool := *;
      var ended: bool := *;
      o := *;
      if ended || o == Done {
        releases := releases - {d};
      } else if begun {
        releases := releases[d := Broken];
      }
      trouble := trouble + if o == Done then 0 else 1;
    }

    // ---------- inventory ----------

    method VerifyAll() returns (verified: map<Sha, Package>, unreadable: set<Sha>)
      modifies `trouble
      ensures trouble >= old(trouble) && (trouble == old(trouble) ==> unreadable == {})
      ensures verified == Verified(releases, Glimpse(None, unreadable, {}))
    {
      hide Verified;
      verified, unreadable := map[], {};
      var dirs := releases.Keys;
      while dirs != {}
        invariant dirs <= releases.Keys
        invariant trouble >= old(trouble) && (trouble == old(trouble) ==> unreadable == {})
        invariant forall sha | sha in unreadable :: Release(sha) !in dirs
        invariant forall sha :: sha in verified
                    <==> Release(sha) in releases.Keys - dirs && releases[Release(sha)].Intact? && sha !in unreadable
        invariant forall sha | sha in verified :: verified[sha] == releases[Release(sha)].package
        decreases dirs
      {
        var d :| d in dirs;
        dirs := dirs - {d};
        if d.Release? {
          var readable: bool := *;
          if !readable {
            unreadable, trouble := unreadable + {d.sha}, trouble + 1;
          } else if releases[d].Intact? {
            verified := verified[d.sha := releases[d].package];
          }
        }
      }
      VerifiedAre(releases, Glimpse(None, unreadable, {}));
    }

    method FindSuccesses(site: Site, verified: map<Sha, Package>, ghost unreadable: set<Sha>)
      returns (successful: map<Sha, int>, unread: set<Sha>)
      requires verified == Verified(releases, Glimpse(None, unreadable, {}))
      modifies `trouble
      ensures trouble >= old(trouble) && (trouble == old(trouble) ==> unread == {})
      ensures successful == Successful(releases, site, Glimpse(None, unreadable, unread))
    {
      hide Verified, Successful, Evidence;
      successful, unread := map[], {};
      var names := verified.Keys;
      while names != {}
        invariant names <= verified.Keys
        invariant trouble >= old(trouble) && (trouble == old(trouble) ==> unread == {})
        invariant unread !! names
        invariant forall sha :: sha in successful
                    <==> sha in verified.Keys - names && IsSuccessful(site, Glimpse(None, unreadable, unread), sha, verified[sha])
        invariant forall sha | sha in successful :: successful[sha] == Evidence(site.success, sha, verified[sha]).value.sequence
        decreases names
      {
        var sha :| sha in names;
        names := names - {sha};
        if Release(sha) == site.current || site.installed != Some(verified[sha].binding.schema) {
          continue;
        }
        var readable: bool := *;
        var evidence := Evidence(site.success, sha, verified[sha]);
        if !readable {
          unread, trouble := unread + {sha}, trouble + 1;
        } else if evidence.Some? {
          successful := successful[sha := evidence.value.sequence];
        }
      }
      SuccessfulAre(releases, site, Glimpse(None, unreadable, unread));
      SameVerified(releases, Glimpse(None, unreadable, unread), Glimpse(None, unreadable, {}));
    }

    method Inventory(site: Site) returns (r: Inspection, ghost g: Glimpse)
      modifies `glances, `trouble
      ensures trouble >= old(trouble)
      ensures trouble == old(trouble) ==> g.unreadable == {} && g.unread == {} && r != NotReported(ReferencesIncomplete)
      ensures r.Reported? ==> Reports(releases, site, g, r.report) && glances == old(glances) + [g.references.value]
      ensures r.Reported? ==> Describes(releases, site, g, r.report) && forall reason :: !Obstacle(releases, site, g, reason)
      ensures r.NotReported? ==> InventoryRefusal(releases, site, g) == Some(r.reason) && old(glances) <= glances
      ensures r.NotReported? ==> Obstacle(releases, site, g, r.reason)
    {
      r, g := Look(site);
      if r.Reported? {
        ReportDescribes(releases, site, g, r.report);
      } else {
        RefusalIsObstacle(releases, site, g);
      }
    }

    method Look(site: Site) returns (r: Inspection, ghost g: Glimpse)
      modifies `glances, `trouble
      ensures trouble >= old(trouble)
      ensures trouble == old(trouble) ==> g.unreadable == {} && g.unread == {} && r != NotReported(ReferencesIncomplete)
      ensures r.Reported? ==> Reports(releases, site, g, r.report) && glances == old(glances) + [g.references.value]
      ensures r.NotReported? ==> InventoryRefusal(releases, site, g) == Some(r.reason) && old(glances) <= glances
    {
      hide Verified, Successful, Eligible;
      g := Glimpse(None, {}, {});
      if Pending in site.success {
        return NotReported(PublicationIncomplete), g;
      }
      if !site.current.Release? {
        return NotReported(CurrentNotManaged), g;
      }
      if site.installed == None {
        return NotReported(SchemaUnavailable), g;
      }
      if !site.ready {
        return NotReported(NotReady), g;
      }
      var references := LiveReferences();
      if references == None {
        return NotReported(ReferencesIncomplete), g;
      }
      var current, schema := site.current.sha, site.installed.value;
      var verified, unreadable := VerifyAll();
      g := Glimpse(references, unreadable, {});
      SameVerified(releases, Glimpse(None, unreadable, {}), g);
      if current !in verified || verified[current].binding.schema != schema {
        return NotReported(CurrentUnverified), g;
      }
      var successful, unread := FindSuccesses(site, verified, unreadable);
      g := Glimpse(references, unreadable, unread);
      SameVerified(releases, Glimpse(None, unreadable, {}), g);
      SameSuccessful(releases, site, Glimpse(None, unreadable, unread), g);
      if !Distinct(successful) {
        return NotReported(DuplicateSequence), g;
      }
      var rollback := LatestTwo(successful);
      var seen := Glimpse(references, {}, {});
      EligibleAre(releases, site, g, rollback);
      var eligible := map sha | sha in verified && |rollback| == 2 && !Spared(site, seen, rollback, sha) :: verified[sha];
      r := Reported(Report(current, schema, rollback, eligible));
    }

    // ---------- removal ----------

    /** Validation of the saved candidates, all of it before anything is removed. */
    method Select(candidates: seq<Candidate>, eligible: map<Sha, Package>)
      returns (refusal: Option<Reason>, selected: set<Sha>, absent: seq<DirName>)
      ensures refusal == None <==>
                && ValidCandidates(candidates)
                && forall c | c in candidates :: AcceptedCandidate(releases, eligible, c)
      ensures refusal.Some? ==>
                || (refusal.value == InvalidCandidate && !ValidCandidates(candidates))
                || (refusal.value == CandidateProtected && exists c | c in candidates && c.name in releases ::
                      c.name.Release? && c.name.sha !in eligible)
                || (refusal.value == CandidateChanged && exists c | c in candidates && c.name in releases ::
                      c.name.Release? && c.name.sha in eligible && !SameIdentity(c.package, eligible[c.name.sha]))
      ensures refusal == None ==>
                && (forall sha :: sha in selected <==> Release(sha) in Names(candidates) && Release(sha) in releases)
                && absent == Absent(releases, candidates)
    {
      hide Sifted, SameIdentity;
      refusal, selected, absent := None, {}, [];
      assert candidates[..0] == [];
      NothingSifted(releases, eligible);
      for i := 0 to |candidates|
        invariant Sifted(releases, eligible, candidates[..i], selected, absent)
      {
        var c := candidates[i];
        SiftedNames(releases, eligible, candidates, i, selected, absent);
        if !c.name.Release? || c.name.sha in selected || c.name in absent {
          return Some(InvalidCandidate), selected, absent;
        }
        SiftedOneMore(releases, eligible, candidates[..i], c, selected, absent);
        assert candidates[..i + 1] == candidates[..i] + [c];
        if c.name !in releases {
          absent := absent + [c.name];
          continue;
        }
        if c.name.sha !in eligible {
          return Some(CandidateProtected), selected, absent;
        }
        selected := selected + {c.name.sha};
        if !SameIdentity(c.package, eligible[c.name.sha]) {
          return Some(CandidateChanged), selected, absent;
        }
      }
      assert candidates[..|candidates|] == candidates;
      SiftedAll(releases, eligible, candidates, selected, absent);
    }

    /** One removal: referenced now? still the same package? then audit, remove, audit. */
    method DeleteOne(sha: Sha, expected: Package) returns (step: Step, removed: bool, ghost started: bool,
                     ghost closed: bool)
      requires Release(sha) in releases
      modifies `releases, `log, `glances, `trouble
      ensures trouble >= old(trouble)
      ensures trouble == old(trouble) && old(releases)[Release(sha)] == Intact(expected) ==>
                || step == Removed
                || (step == Stopped(CandidateReferenced) && exists seen: set<Sha> | glances == old(glances) + [seen] :: sha in seen)
      ensures Reduced(old(releases), releases, if started then {Release(sha)} else {})
      ensures log == old(log) + (if started then [Started(RemovalOf(sha, expected))] else [])
                              + (if closed then [Completed(RemovalOf(sha, expected))] else [])
      ensures closed ==> removed
      ensures removed ==> started && releases == old(releases) - {Release(sha)}
      ensures step == Removed ==> closed
      ensures old(glances) <= glances
      ensures started ==> exists seen: set<Sha> | glances == old(glances) + [seen] :: sha !in seen
      ensures started ==> IsPackage(old(releases), sha, expected)
      ensures step.Stopped? ==>
                step.reason in {ReferencesIncomplete, CandidateReferenced, CandidateUnverified, CandidateChanged, RemovalFailed}
      ensures step == Stopped(CandidateChanged) ==>
                old(releases)[Release(sha)].Intact? && !IsPackage(old(releases), sha, expected)
    {
      removed, started, closed := false, false, false;
      var references := LiveReferences();
      if references == None {
        return Stopped(ReferencesIncomplete), removed, started, closed;
      }
      if sha in references.value {
        return Stopped(CandidateReferenced), removed, started, closed;
      }
      var package := VerifyPackage(Release(sha));
      if package == None {
        return Stopped(CandidateUnverified), removed, started, closed;
      }
      if !SameIdentity(package.value, expected) {
        return Stopped(CandidateChanged), removed, started, closed;
      }
      ghost var before := log;
      var o := Audit(Started(RemovalOf(sha, package.value)));
      started := log != before;
      if o != Done {
        return if o == Killed then Cut else Stopped(RemovalFailed), removed, started, closed;
      }
      o := RemoveTree(Release(sha));
      if o != Done {
        return if o == Killed then Cut else Stopped(RemovalFailed), removed, started, closed;
      }
      removed := true;
      before := log;
      o := Audit(Completed(RemovalOf(sha, package.value)));
      closed := log != before;
      step := if o == Done then Removed else if o == Killed then Cut else Stopped(RemovalFailed);
    }

    method ApplyPlan(site: Site, plan: Plan)
      returns (r: Cleanup, ghost g: Glimpse, ghost report: Option<Report>, ghost started: seq<Removal>, ghost closed: bool)
      modifies this
      // What was decided, on which evidence.
      ensures report.Some? ==> Reports(old(releases), site, g, report.value) && Describes(old(releases), site, g, report.value)
      ensures r == Refused(InvalidPlan, []) <==> !plan.sound || plan.blocked
      ensures started != [] || r.Cleaned? ==>
                plan.sound && !plan.blocked && report.Some? && Acceptable(old(releases), plan, report.value)
      ensures report.Some? && Acceptable(old(releases), plan, report.value) && r.Refused? ==>
                r.reason in {ReferencesIncomplete, CandidateReferenced, CandidateUnverified, RemovalFailed}
      // What can stop it, when every call returns.
      ensures trouble >= old(trouble)
      ensures trouble == old(trouble) && !r.Cleaned? && plan.sound && !plan.blocked ==>
                && r.Refused? && g.unreadable == {} && g.unread == {}
                && match report
                   case None => r.reason != ReferencesIncomplete && Obstacle(old(releases), site, g, r.reason)
                   case Some(found) =>
                     || !Acceptable(old(releases), plan, found)
                     || (r.reason == CandidateReferenced && BecameReferenced(plan.candidates, glances))
      // What was removed, and that it was unreferenced at its own check.
      ensures Reduced(old(releases), releases, Marks(started))
      ensures started != [] ==>
                && Marks(started) <= Names(plan.candidates) * old(releases).Keys
                && |glances| > |old(glances)|
                && AllJustified(report.value.eligible, started, glances[|old(glances)| + 1..])
      ensures forall m | m in started ::
                && Removable(old(releases), site, g, report.value.rollback, m.sha)
                && IsCandidate(old(releases), plan.candidates, m)
      // What the audit file says about it.
      ensures log == old(log) + Trail(started, closed)
      ensures closed ==> releases == old(releases) - Marks(started)
      ensures r.Refused? ==> r.deleted == started || (started != [] && r.deleted == started[..|started| - 1])
      ensures r.Cleaned? ==>
                && closed && r.deleted == started && r.absent == Absent(old(releases), plan.candidates)
                && releases == old(releases) - Names(plan.candidates)
    {
      hide Reports, AcceptedCandidate, ValidCandidates, Names, Absent, Marks, AllJustified, Reduced;
      hide Describes, Removable, IsCandidate, RemovalOf, Mentioned, BecameReferenced;
      NothingRemoved(map[]);
      RemovedIsReduced(releases, {});
      g, report, started, closed := Glimpse(None, {}, {}), None, [], true;
      if !plan.sound || plan.blocked {
        return Refused(InvalidPlan, []), g, report, started, closed;
      }
      var inspection;
      inspection, g := Inventory(site);
      if inspection.NotReported? {
        return Refused(inspection.reason, []), g, report, started, closed;
      }
      var latest := inspection.report;
      report := Some(latest);
      if |latest.rollback| != 2 || latest.current != plan.current || latest.schema != plan.schema {
        return Refused(ChangedSinceInventory, []), g, report, started, closed;
      }
      var refusal, selected, absent := Select(plan.candidates, latest.eligible);
      if refusal.Some? {
        return Refused(refusal.value, []), g, report, started, closed;
      }
      SelectedAreEligible(releases, plan, site, g, latest, selected);
      SelectedArePlanned(releases, plan, site, g, latest, selected);
      r, started, closed := DeleteAll(selected, absent, latest.eligible);
      assert glances[|old(glances)|..][1..] == glances[|old(glances)| + 1..];
      JustifiedAre(latest.eligible, started, glances[|old(glances)| + 1..]);
      MentionedIsCandidate(plan.candidates, old(releases), selected, glances);
      MarksOfSelected(selected, started, old(releases), plan.candidates);
      if r.Cleaned? {
        WholePlan(old(releases), plan.candidates, selected, started);
      }
    }

    method DeleteAll(selected: set<Sha>, absent: seq<DirName>, eligible: map<Sha, Package>)
      returns (r: Cleanup, ghost started: seq<Removal>, ghost closed: bool)
      requires forall sha | sha in selected ::
                 sha in eligible && Release(sha) in releases && releases[Release(sha)] == Intact(eligible[sha])
      modifies this
      ensures Reduced(old(releases), releases, Marks(started))
      ensures forall m | m in started :: m.sha in selected
      ensures old(glances) <= glances && AllJustified(eligible, started, glances[|old(glances)|..])
      ensures log == old(log) + Trail(started, closed)
      ensures closed ==> releases == old(releases) - Marks(started)
      ensures trouble >= old(trouble)
      ensures trouble == old(trouble) ==>
                r.Cleaned? || (r.Refused? && r.reason == CandidateReferenced && Mentioned(selected, glances))
      ensures r.Refused? ==> r.reason in {ReferencesIncomplete, CandidateReferenced, CandidateUnverified, RemovalFailed}
      ensures r.Refused? ==> r.deleted == started || (started != [] && r.deleted == started[..|started| - 1])
      ensures r.Cleaned? ==>
                && closed && r.deleted == started && r.absent == absent
                && forall sha :: sha in selected <==> Release(sha) in Marks(started)
    {
      hide Trail, Marks, AllJustified, RemovalOf, Reduced;
      RemovedIsReduced(releases, {});
      var pending := selected;
      var deleted: seq<Removal> := [];
      started, closed := [], true;
      NothingRemoved(eligible);
      ghost var seen: seq<set<Sha>> := [];
      while pending != {}
        invariant closed && started == deleted && pending <= selected && trouble >= old(trouble)
        invariant releases == old(releases) - Marks(deleted)
        invariant forall sha :: sha in selected - pending <==> Release(sha) in Marks(deleted)
        invariant forall m | m in deleted :: m.sha in selected
        invariant glances == old(glances) + seen && |seen| == |deleted| && AllJustified(eligible, deleted, seen)
        invariant log == old(log) + Trail(deleted, true)
        decreases pending
      {
        var sha :| sha in pending;
        pending := pending - {sha};
        ghost var m := RemovalOf(sha, eligible[sha]);
        ghost var before, known := releases, glances;
        var step, removed;
        ghost var begun, ended;
        step, removed, begun, ended := DeleteOne(sha, eligible[sha]);
        ghost var now := glances[|old(glances)|..];
        OneMoreRemoval(eligible, deleted, seen, now, sha, begun);
        TrailGrows(deleted, m, ended);
        ReducedOnce(old(releases), before, releases, Marks(deleted), Release(sha), begun);
        if begun {
          started, closed, seen := deleted + [m], ended, now;
        }
        if removed {
          deleted := deleted + [RemovalOf(sha, eligible[sha])];
        }
        if step.Cut? {
          return Died, started, closed;
        }
        if step.Stopped? {
          return Refused(step.reason, deleted), started, closed;
        }
      }
      RemovedIsReduced(old(releases), Marks(deleted));
      r := Cleaned(deleted, absent);
    }
  }

  /** The directory is the expected package: the same manifest, inode, device and size. */
  ghost predicate IsPackage(releases: Releases, sha: Sha, expected: Package) {
    && Release(sha) in releases && releases[Release(sha)].Intact?
    && var p := releases[Release(sha)].package;
       && p.binding.manifest == expected.binding.manifest && p.inode == expected.inode
       && p.device == expected.device && p.bytes == expected.bytes
  }

  /** The latest inventory of references has one of the releases. */
  ghost predicate Mentioned(selected: set<Sha>, glances: seq<set<Sha>>) {
    glances != [] && exists sha | sha in selected :: sha in glances[|glances| - 1]
  }

  ghost predicate BecameReferenced(candidates: seq<Candidate>, glances: seq<set<Sha>>) {
    glances != [] && exists c | c in candidates :: c.name.Release? && c.name.sha in glances[|glances| - 1]
  }

  lemma MentionedIsCandidate(candidates: seq<Candidate>, releases: Releases, selected: set<Sha>, glances: seq<set<Sha>>)
    requires forall sha | sha in selected :: Release(sha) in Names(candidates) && Release(sha) in releases
    ensures Mentioned(selected, glances) ==> BecameReferenced(candidates, glances)
  {
    if Mentioned(selected, glances) {
      var sha :| sha in selected && sha in glances[|glances| - 1];
      assert Release(sha) in Names(candidates);
      var c :| c in candidates && c.name == Release(sha);
    }
  }

  /** The plan has a candidate for what is removed, for this very package, and the audit file says so. */
  ghost predicate IsCandidate(releases: Releases, candidates: seq<Candidate>, m: Removal) {
    exists c | c in candidates ::
      && c.name == Release(m.sha) && IsPackage(releases, m.sha, c.package)
      && m.manifest == c.package.binding.manifest && m.bytes == c.package.bytes
  }

  lemma SelectedArePlanned(releases: Releases, plan: Plan, site: Site, g: Glimpse, r: Report, selected: set<Sha>)
    requires Reports(releases, site, g, r) && Acceptable(releases, plan, r)
    requires forall sha | sha in selected :: Release(sha) in Names(plan.candidates) && Release(sha) in releases
    ensures Describes(releases, site, g, r)
    ensures forall sha | sha in selected ::
              && sha in r.eligible && Removable(releases, site, g, r.rollback, sha)
              && IsCandidate(releases, plan.candidates, RemovalOf(sha, r.eligible[sha]))
  {
    hide Reports;
    ReportDescribes(releases, site, g, r);
    AcceptableMeans(releases, site, g, plan, r);
    forall sha | sha in selected
      ensures sha in r.eligible && IsCandidate(releases, plan.candidates, RemovalOf(sha, r.eligible[sha]))
    {
      var c :| c in plan.candidates && c.name == Release(sha);
      assert IsPackage(releases, sha, c.package);
    }
  }

  lemma RemovedIsReduced(releases: Releases, removed: set<DirName>)
    ensures Reduced(releases, releases - removed, removed)
    ensures removed == {} ==> releases - removed == releases
  {
  }

  lemma ReducedOnce(start: Releases, before: Releases, after: Releases, removed: set<DirName>, d: DirName, begun: bool)
    requires before == start - removed && Reduced(before, after, if begun then {d} else {})
    ensures Reduced(start, after, if begun then removed + {d} else removed)
    ensures !begun ==> after == before
    ensures after == before - {d} ==> after == start - (removed + {d})
  {
    RemovedIsReduced(start, removed);
    ReducedAgain(start, before, after, removed, if begun then {d} else {});
    assert removed + {} == removed;
  }

  lemma MarksOfSelected(selected: set<Sha>, removals: seq<Removal>, releases: Releases, candidates: seq<Candidate>)
    requires forall m | m in removals :: m.sha in selected
    requires forall sha | sha in selected :: Release(sha) in Names(candidates) && Release(sha) in releases
    ensures Marks(removals) <= Names(candidates) * releases.Keys
  {
  }

  lemma WholePlan(releases: Releases, candidates: seq<Candidate>, selected: set<Sha>, removals: seq<Removal>)
    requires ValidCandidates(candidates)
    requires forall sha :: sha in selected <==> Release(sha) in Names(candidates) && Release(sha) in releases
    requires forall sha :: sha in selected <==> Release(sha) in Marks(removals)
    ensures releases - Marks(removals) == releases - Names(candidates)
  {
    forall d | d in releases
      ensures d in Marks(removals) <==> d in Names(candidates)
    {
      if d.Release? {
        assert d.sha in selected <==> d in Names(candidates);
      }
    }
  }

  /** Every removal is of an eligible release, none twice, and each release was unreferenced in the
      inventory of references taken for it. */
  ghost predicate AllJustified(eligible: map<Sha, Package>, removals: seq<Removal>, seen: seq<set<Sha>>) {
    && |removals| <= |seen|
    && (forall m | m in removals :: m.sha in eligible && m == RemovalOf(m.sha, eligible[m.sha]))
    && (forall i, j | 0 <= i < j < |removals| :: removals[i].sha != removals[j].sha)
    && (forall i | 0 <= i < |removals| :: removals[i].sha !in seen[i])
  }

  lemma JustifiedAre(eligible: map<Sha, Package>, removals: seq<Removal>, seen: seq<set<Sha>>)
    requires AllJustified(eligible, removals, seen)
    ensures forall m | m in removals :: m.sha in eligible && m == RemovalOf(m.sha, eligible[m.sha])
  {
  }

  lemma OneMoreRemoval(eligible: map<Sha, Package>, removals: seq<Removal>, seen: seq<set<Sha>>,
                       seen': seq<set<Sha>>, sha: Sha, begun: bool)
    requires AllJustified(eligible, removals, seen) && |seen| == |removals| && seen <= seen'
    requires sha in eligible && Release(sha) !in Marks(removals)
    requires begun ==> exists now: set<Sha> | seen' == seen + [now] :: sha !in now
    ensures var m := RemovalOf(sha, eligible[sha]);
            && m.sha == sha && Marks(removals + [m]) == Marks(removals) + {Release(sha)}
            && (if begun then |seen'| == |removals + [m]| && AllJustified(eligible, removals + [m], seen')
                else AllJustified(eligible, removals, seen'))
  {
    var m := RemovalOf(sha, eligible[sha]);
    MarksGrow(removals, m);
    assert forall i | 0 <= i < |removals| :: Release(removals[i].sha) in Marks(removals);
  }

  lemma NothingRemoved(eligible: map<Sha, Package>)
    ensures Trail([], true) == [] && Marks([]) == {} && AllJustified(eligible, [], [])
  {
  }

  lemma MarksGrow(removals: seq<Removal>, m: Removal)
    ensures Marks(removals + [m]) == Marks(removals) + {Release(m.sha)}
  {
    assert m in removals + [m];
  }

  lemma SelectedAreEligible(releases: Releases, plan: Plan, site: Site, g: Glimpse, r: Report, selected: set<Sha>)
    requires Reports(releases, site, g, r)
    requires forall c | c in plan.candidates :: AcceptedCandidate(releases, r.eligible, c)
    requires forall sha | sha in selected :: Release(sha) in Names(plan.candidates) && Release(sha) in releases
    ensures forall sha | sha in selected :: sha in r.eligible && releases[Release(sha)] == Intact(r.eligible[sha])
  {
    hide Reports, Verified;
    InVerified(releases, site, g, r);
    VerifiedAre(releases, g);
  }

  /** The part of a plan that a validation has been through. */
  ghost predicate Sifted(releases: Releases, eligible: map<Sha, Package>, candidates: seq<Candidate>,
                         selected: set<Sha>, absent: seq<DirName>) {
    && ValidCandidates(candidates)
    && (forall c | c in candidates :: AcceptedCandidate(releases, eligible, c))
    && (forall sha :: sha in selected <==> Release(sha) in Names(candidates) && Release(sha) in releases)
    && (forall d :: d in absent <==> d in Names(candidates) && d !in releases)
    && absent == Absent(releases, candidates)
  }

  lemma NothingSifted(releases: Releases, eligible: map<Sha, Package>)
    ensures Sifted(releases, eligible, [], {}, [])
  {
  }

  lemma SiftedAll(releases: Releases, eligible: map<Sha, Package>, candidates: seq<Candidate>, selected: set<Sha>,
                  absent: seq<DirName>)
    requires Sifted(releases, eligible, candidates, selected, absent)
    ensures ValidCandidates(candidates)
    ensures forall c | c in candidates :: AcceptedCandidate(releases, eligible, c)
    ensures forall sha :: sha in selected <==> Release(sha) in Names(candidates) && Release(sha) in releases
    ensures absent == Absent(releases, candidates)
  {
  }

  lemma SiftedNames(releases: Releases, eligible: map<Sha, Package>, candidates: seq<Candidate>, i: nat,
                    selected: set<Sha>, absent: seq<DirName>)
    requires i < |candidates| && Sifted(releases, eligible, candidates[..i], selected, absent)
    ensures candidates[i] in candidates
    ensures var d := candidates[i].name;
            && (!d.Release? ==> !ValidCandidates(candidates))
            && (d.Release? ==> (d.sha in selected || d in absent <==> d in Names(candidates[..i])))
            && (d in Names(candidates[..i]) ==> !ValidCandidates(candidates))
  {
    hide AcceptedCandidate, Absent;
    if candidates[i].name in Names(candidates[..i]) {
      var c :| c in candidates[..i] && c.name == candidates[i].name;
      var k :| 0 <= k < i && candidates[..i][k] == c;
      assert candidates[k].name == candidates[i].name;
    }
  }

  lemma SiftedOneMore(releases: Releases, eligible: map<Sha, Package>, candidates: seq<Candidate>, c: Candidate,
                      selected: set<Sha>, absent: seq<DirName>)
    requires Sifted(releases, eligible, candidates, selected, absent) && c.name.Release? && c.name !in Names(candidates)
    ensures AcceptedCandidate(releases, eligible, c) && c.name !in releases ==>
              Sifted(releases, eligible, candidates + [c], selected, absent + [c.name])
    ensures AcceptedCandidate(releases, eligible, c) && c.name in releases ==>
              Sifted(releases, eligible, candidates + [c], selected + {c.name.sha}, absent)
  {
    hide AcceptedCandidate, ValidCandidates, Names, Absent;
    OneMoreCandidate(releases, candidates, c);
  }

  lemma OneMoreCandidate(releases: Releases, candidates: seq<Candidate>, c: Candidate)
    requires ValidCandidates(candidates) && c.name.Release? && c.name !in Names(candidates)
    ensures ValidCandidates(candidates + [c])
    ensures Names(candidates + [c]) == Names(candidates) + {c.name}
    ensures Absent(releases, candidates + [c]) == Absent(releases, candidates) + if c.name in releases then [] else [c.name]
  {
    var more := candidates + [c];
    assert more[..|candidates|] == candidates;
    assert c in more;
    assert forall k | 0 <= k < |candidates| :: candidates[k].name in Names(candidates);
  }

  lemma SameVerified(releases: Releases, g: Glimpse, g': Glimpse)
    requires g.unreadable == g'.unreadable
    ensures Verified(releases, g) == Verified(releases, g')
  {
    hide Verified;
    VerifiedAre(releases, g);
    VerifiedAre(releases, g');
  }

  lemma SameSuccessful(releases: Releases, site: Site, g: Glimpse, g': Glimpse)
    requires g.unreadable == g'.unreadable && g.unread == g'.unread
    ensures Successful(releases, site, g) == Successful(releases, site, g')
  {
    hide Verified, Successful, Evidence;
    SameVerified(releases, g, g');
    SuccessfulAre(releases, site, g);
    SuccessfulAre(releases, site, g');
  }

  lemma EligibleAre(releases: Releases, site: Site, g: Glimpse, rollback: seq<Sha>)
    ensures var verified, eligible := Verified(releases, g), Eligible(releases, site, g, rollback);
            forall sha :: (sha in eligible <==> sha in verified && |rollback| == 2 && !Spared(site, g, rollback, sha))
                          && (sha in eligible ==> eligible[sha] == verified[sha])
  {
    hide Verified;
  }

  method Latest(sequences: map<Sha, int>) returns (latest: Sha)
    requires sequences != map[] && Distinct(sequences)
    ensures latest in sequences && forall s | s in sequences && s != latest :: sequences[s] < sequences[latest]
  {
    var names := sequences.Keys;
    latest :| latest in names;
    names := names - {latest};
    while names != {}
      invariant names <= sequences.Keys && latest in sequences && latest !in names
      invariant forall s | s in sequences.Keys - names && s != latest :: sequences[s] < sequences[latest]
      decreases names
    {
      var s :| s in names;
      names := names - {s};
      if sequences[s] > sequences[latest] {
        latest := s;
      }
    }
  }

  /** The first two of all successes, sorted by descending sequence. */
  method LatestTwo(sequences: map<Sha, int>) returns (pair: seq<Sha>)
    requires Distinct(sequences)
    ensures IsRollback(sequences, pair)
  {
    if sequences == map[] {
      return [];
    }
    var first := Latest(sequences);
    var others := sequences - {first};
    if others == map[] {
      assert forall s | s in sequences :: s == first || s in others;
      return [first];
    }
    var second := Latest(others);
    assert forall s | s in sequences :: s == first || s in others;
    return [first, second];
  }
}
