/** Which release packages a cleanup may remove: inventory, rollback pair, eligibility, saved plans. */
module CleanupPlan {
  import opened CrashDirectory
  import opened Optional
  import opened ReleaseSuccess

  datatype Package = Package(binding: Binding, inode: int, device: int, bytes: int)

  /** A directory below `releases`: it verifies as a package, or it does not. */
  datatype Directory = Intact(package: Package) | Broken

  datatype DirName = Release(sha: Sha) | Unknown(name: string)

  type Releases = map<DirName, Directory>

  /** What holds still while the installer lock is held. */
  datatype Site = Site(current: DirName, installed: Option<string>, ready: bool, success: Files, protected: set<Sha>)

  /** What one inventory got to see: the references to releases, if their inventory completed, and
      the packages and receipts whose reading failed with an I/O error. */
  datatype Glimpse = Glimpse(references: Option<set<Sha>>, unreadable: set<Sha>, unread: set<Sha>)

  datatype Reason =
    | PublicationIncomplete | CurrentNotManaged | SchemaUnavailable | NotReady | ReferencesIncomplete
    | CurrentUnverified | DuplicateSequence
    | InvalidPlan | ChangedSinceInventory | InvalidCandidate | CandidateProtected | CandidateChanged
    | CandidateReferenced | CandidateUnverified | RemovalFailed

  datatype Report = Report(current: Sha, schema: string, rollback: seq<Sha>, eligible: map<Sha, Package>)

  /** A saved inventory, as far as an apply reads it; `sound` says that version, mode and root match. */
  datatype Plan = Plan(sound: bool, blocked: bool, current: Sha, schema: string, candidates: seq<Candidate>)

  datatype Candidate = Candidate(name: DirName, package: Package)

  // ---------- inventory ----------

  function Verified(releases: Releases, g: Glimpse): map<Sha, Package> {
    map d | d in releases && d.Release? && releases[d].Intact? && d.sha !in g.unreadable :: d.sha := releases[d].package
  }

  /** The success receipt of a package, when there is one for exactly these bytes. */
  function Evidence(success: Files, sha: Sha, package: Package): Option<Receipt> {
    if Pending in success || Canonical(sha) !in success || !WellFormed(Canonical(sha), success[Canonical(sha)]) then None
    else if success[Canonical(sha)].receipt.binding != package.binding then None
    else Some(success[Canonical(sha)].receipt)
  }

  /** The releases that can be rolled back to, with the sequence of their success. */
  function Successful(releases: Releases, site: Site, g: Glimpse): map<Sha, int> {
    var verified := Verified(releases, g);
    map sha | sha in verified && IsSuccessful(site, g, sha, verified[sha]) ::
      Evidence(site.success, sha, verified[sha]).value.sequence
  }

  lemma VerifiedAre(releases: Releases, g: Glimpse)
    ensures var verified := Verified(releases, g);
            forall sha :: (sha in verified <==> Release(sha) in releases && releases[Release(sha)].Intact? && sha !in g.unreadable)
                          && (sha in verified ==> verified[sha] == releases[Release(sha)].package)
  {
  }

  lemma SuccessfulAre(releases: Releases, site: Site, g: Glimpse)
    ensures var verified, successful := Verified(releases, g), Successful(releases, site, g);
            forall sha :: (sha in successful <==> sha in verified && IsSuccessful(site, g, sha, verified[sha]))
                          && (sha in successful ==> Evidence(site.success, sha, verified[sha]).Some?
                                                    && successful[sha] == Evidence(site.success, sha, verified[sha]).value.sequence)
  {
    hide Verified, Evidence;
  }

  predicate IsSuccessful(site: Site, g: Glimpse, sha: Sha, package: Package) {
    && Release(sha) != site.current
    && site.installed == Some(package.binding.schema)
    && sha !in g.unread
    && Evidence(site.success, sha, package).Some?
  }

  predicate Distinct(sequences: map<Sha, int>) {
    forall s, s' | s in sequences && s' in sequences && sequences[s] == sequences[s'] :: s == s'
  }

  /** The latest successes, at most two of them, latest first. */
  predicate IsRollback(sequences: map<Sha, int>, pair: seq<Sha>) {
    && |pair| <= 2
    && (forall s | s in pair :: s in sequences)
    && (|pair| == 2 ==> sequences[pair[1]] < sequences[pair[0]])
    && (forall s | s in sequences && s !in pair :: |pair| == 2 && sequences[s] < sequences[pair[1]])
  }

  function InventoryRefusal(releases: Releases, site: Site, g: Glimpse): Option<Reason> {
    if Pending in site.success then Some(PublicationIncomplete)
    else if !site.current.Release? then Some(CurrentNotManaged)
    else if site.installed == None then Some(SchemaUnavailable)
    else if !site.ready then Some(NotReady)
    else if g.references == None then Some(ReferencesIncomplete)
    else
      var verified := Verified(releases, g);
      if site.current.sha !in verified || verified[site.current.sha].binding.schema != site.installed.value
      then Some(CurrentUnverified)
      else if !Distinct(Successful(releases, site, g)) then Some(DuplicateSequence)
      else None
  }

  predicate Spared(site: Site, g: Glimpse, rollback: seq<Sha>, sha: Sha) {
    || Release(sha) == site.current
    || sha in site.protected
    || (g.references.Some? && sha in g.references.value)
    || sha in rollback
  }

  function Eligible(releases: Releases, site: Site, g: Glimpse, rollback: seq<Sha>): map<Sha, Package> {
    var verified := Verified(releases, g);
    map sha | sha in verified && |rollback| == 2 && !Spared(site, g, rollback, sha) :: verified[sha]
  }

  ghost predicate Reports(releases: Releases, site: Site, g: Glimpse, r: Report) {
    && InventoryRefusal(releases, site, g) == None
    && site.current == Release(r.current) && site.installed == Some(r.schema)
    && IsRollback(Successful(releases, site, g), r.rollback)
    && r.eligible == Eligible(releases, site, g, r.rollback)
  }

  /** The inventory is a function of what it saw. */
  lemma ReportIsUnique(releases: Releases, site: Site, g: Glimpse, r: Report, r': Report)
    requires Reports(releases, site, g, r) && Reports(releases, site, g, r')
    ensures r == r'
  {
    RollbackIsUnique(Successful(releases, site, g), r.rollback, r'.rollback);
  }

  lemma RollbackIsUnique(sequences: map<Sha, int>, p: seq<Sha>, q: seq<Sha>)
    requires IsRollback(sequences, p) && IsRollback(sequences, q)
    ensures p == q
  {
    assert forall s | s in p :: s == p[0] || (|p| == 2 && s == p[1]);
    assert forall s | s in q :: s == q[0] || (|q| == 2 && s == q[1]);
    assert (|p| > 0 ==> p[0] in p) && (|p| == 2 ==> p[1] in p);
    assert (|q| > 0 ==> q[0] in q) && (|q| == 2 ==> q[1] in q);
  }

  // ---------- the report, over packages and receipts ----------

  /** What rolling back to a release takes: its package is intact and could be read, it is of the
      installed schema, it is not current, no publication is unfinished, and a receipt that could be
      read certifies exactly its bytes. */
  ghost predicate Target(releases: Releases, site: Site, g: Glimpse, sha: Sha, sequence: int) {
    && Release(sha) in releases && releases[Release(sha)].Intact? && sha !in g.unreadable && sha !in g.unread
    && site.current != Release(sha) && Pending !in site.success
    && Canonical(sha) in site.success && site.success[Canonical(sha)].ReceiptFile?
    && var package, receipt := releases[Release(sha)].package, site.success[Canonical(sha)].receipt;
       && site.installed == Some(package.binding.schema)
       && receipt.binding.manifest == package.binding.manifest && receipt.binding.package == package.binding.package
       && receipt.binding.binary == package.binding.binary && receipt.binding.schema == package.binding.schema
       && receipt.sha == sha && receipt.sequence == sequence && 0 < sequence
       && 0 < receipt.apiPid && 0 < receipt.workerPid && receipt.apiPid != receipt.workerPid
  }

  /** What deciding to remove a release takes. */
  ghost predicate Removable(releases: Releases, site: Site, g: Glimpse, rollback: seq<Sha>, sha: Sha) {
    && Release(sha) in releases && releases[Release(sha)].Intact? && sha !in g.unreadable
    && |rollback| == 2 && sha !in rollback
    && site.current != Release(sha) && sha !in site.protected
    && g.references.Some? && sha !in g.references.value
  }

  /** The pair is the two latest targets, or all there are; what can be removed is marked for removal. */
  ghost predicate Describes(releases: Releases, site: Site, g: Glimpse, r: Report) {
    && site.current == Release(r.current) && site.installed == Some(r.schema)
    && |r.rollback| <= 2
    && (forall sha | sha in r.rollback :: exists n :: Target(releases, site, g, sha, n))
    && (|r.rollback| == 2 ==> forall n, m | Target(releases, site, g, r.rollback[0], n)
                                            && Target(releases, site, g, r.rollback[1], m) :: m < n)
    && (forall sha, n | Target(releases, site, g, sha, n) && sha !in r.rollback ::
          |r.rollback| == 2 && forall m | Target(releases, site, g, r.rollback[1], m) :: n < m)
    && (forall sha :: sha in r.eligible <==> Removable(releases, site, g, r.rollback, sha))
    && (forall sha | sha in r.eligible :: releases[Release(sha)] == Intact(r.eligible[sha]))
  }

  /** Why no report is given. */
  ghost predicate Obstacle(releases: Releases, site: Site, g: Glimpse, reason: Reason) {
    match reason
    case PublicationIncomplete => Pending in site.success
    case CurrentNotManaged => !site.current.Release?
    case SchemaUnavailable => site.installed == None
    case NotReady => !site.ready
    case ReferencesIncomplete => g.references == None
    case CurrentUnverified =>
      !(&& site.current in releases && releases[site.current].Intact?
        && (site.current.Release? ==> site.current.sha !in g.unreadable)
        && site.installed == Some(releases[site.current].package.binding.schema))
    case DuplicateSequence =>
      exists s, s', n :: s != s' && Target(releases, site, g, s, n) && Target(releases, site, g, s', n)
    case _ => false
  }

  lemma TargetsAreSuccessful(releases: Releases, site: Site, g: Glimpse)
    ensures var successful := Successful(releases, site, g);
            forall sha, n :: Target(releases, site, g, sha, n) <==> sha in successful && successful[sha] == n
  {
    hide Successful, Verified;
    SuccessfulAre(releases, site, g);
    VerifiedAre(releases, g);
  }

  lemma ReportDescribes(releases: Releases, site: Site, g: Glimpse, r: Report)
    requires Reports(releases, site, g, r)
    ensures Describes(releases, site, g, r)
    ensures forall reason :: !Obstacle(releases, site, g, reason)
  {
    hide Successful, Verified, Target;
    TargetsAreSuccessful(releases, site, g);
    VerifiedAre(releases, g);
    var successful := Successful(releases, site, g);
    forall sha | sha in r.rollback
      ensures exists n :: Target(releases, site, g, sha, n)
    {
      assert Target(releases, site, g, sha, successful[sha]);
    }
    assert |r.rollback| == 2 ==> r.rollback[0] in r.rollback && r.rollback[1] in r.rollback;
  }

  lemma RefusalIsObstacle(releases: Releases, site: Site, g: Glimpse)
    requires InventoryRefusal(releases, site, g).Some?
    ensures Obstacle(releases, site, g, InventoryRefusal(releases, site, g).value)
  {
    hide Successful, Verified, Target;
    TargetsAreSuccessful(releases, site, g);
    VerifiedAre(releases, g);
    var successful := Successful(releases, site, g);
    if InventoryRefusal(releases, site, g) == Some(DuplicateSequence) {
      var s, s' :| s in successful && s' in successful && successful[s] == successful[s'] && s != s';
      assert Target(releases, site, g, s, successful[s]) && Target(releases, site, g, s', successful[s]);
    }
  }

  // ---------- saved plans ----------

  predicate SameIdentity(p: Package, q: Package) {
    p.binding.manifest == q.binding.manifest && p.inode == q.inode && p.device == q.device && p.bytes == q.bytes
  }

  predicate ValidCandidates(candidates: seq<Candidate>) {
    && (forall c | c in candidates :: c.name.Release?)
    && (forall i, j | 0 <= i < j < |candidates| :: candidates[i].name != candidates[j].name)
  }

  predicate AcceptedCandidate(releases: Releases, eligible: map<Sha, Package>, c: Candidate) {
    c.name in releases ==> c.name.Release? && c.name.sha in eligible && SameIdentity(c.package, eligible[c.name.sha])
  }

  /** The whole plan passes validation against a fresh report. */
  predicate Acceptable(releases: Releases, plan: Plan, r: Report) {
    && |r.rollback| == 2 && r.current == plan.current && r.schema == plan.schema
    && ValidCandidates(plan.candidates)
    && forall c | c in plan.candidates :: AcceptedCandidate(releases, r.eligible, c)
  }

  /** A plan is still valid when two rollback releases remain, nothing was released since, no candidate
      is named twice, and every candidate that is still there can be removed and is the package of
      the plan. */
  lemma AcceptableMeans(releases: Releases, site: Site, g: Glimpse, plan: Plan, r: Report)
    requires Reports(releases, site, g, r)
    ensures var cs := plan.candidates;
            Acceptable(releases, plan, r)
            <==> && |r.rollback| == 2 && site.current == Release(plan.current) && site.installed == Some(plan.schema)
                 && (forall i, j | 0 <= i < j < |cs| :: cs[i].name != cs[j].name)
                 && (forall c | c in cs :: c.name.Release?)
                 && forall c | c in cs && c.name in releases ::
                      && Removable(releases, site, g, r.rollback, c.name.sha)
                      && var p := releases[c.name].package;
                         && p.binding.manifest == c.package.binding.manifest && p.inode == c.package.inode
                         && p.device == c.package.device && p.bytes == c.package.bytes
  {
    hide Reports, Removable;
    ReportDescribes(releases, site, g, r);
  }

  function Names(candidates: seq<Candidate>): set<DirName> {
    set c | c in candidates :: c.name
  }

  // ---------- what a removal leaves ----------

  /** Directories of `removed` may be gone or half gone; everything else is as it was. */
  ghost predicate Reduced(releases: Releases, releases': Releases, removed: set<DirName>) {
    && (forall d | d in releases' :: d in releases)
    && (forall d | d in releases && d !in removed :: d in releases' && releases'[d] == releases[d])
    && (forall d | d in releases' && d in removed :: releases'[d] == releases[d] || releases'[d] == Broken)
  }

  lemma ReducedAgain(a: Releases, b: Releases, c: Releases, removed: set<DirName>, removed': set<DirName>)
    requires Reduced(a, b, removed) && Reduced(b, c, removed')
    ensures Reduced(a, c, removed + removed')
  {
  }

  ghost function Shas(eligible: map<Sha, Package>): set<DirName> {
    set sha | sha in eligible :: Release(sha)
  }

  lemma VerifiedShrinks(releases: Releases, g: Glimpse, r: Report, releases': Releases)
    requires Reduced(releases, releases', Shas(r.eligible))
    ensures var verified, verified' := Verified(releases, g), Verified(releases', g);
            && (forall sha | sha in verified' :: sha in verified && verified'[sha] == verified[sha])
            && (forall sha | sha in verified && sha !in r.eligible :: sha in verified')
            && (forall sha | sha in verified && Release(sha) in releases' && releases'[Release(sha)] != Broken :: sha in verified')
  {
    hide Verified;
    VerifiedAre(releases, g);
    VerifiedAre(releases', g);
  }

  lemma SuccessfulShrinks(releases: Releases, site: Site, g: Glimpse, r: Report, releases': Releases)
    requires Reduced(releases, releases', Shas(r.eligible))
    ensures var successful, successful' := Successful(releases, site, g), Successful(releases', site, g);
            && (forall sha | sha in successful' :: sha in successful && successful'[sha] == successful[sha])
            && (forall sha | sha in successful && sha !in r.eligible :: sha in successful' && successful'[sha] == successful[sha])
  {
    hide Verified, Successful, Evidence, IsSuccessful, Reduced;
    VerifiedShrinks(releases, g, r, releases');
    SuccessfulAre(releases, site, g);
    SuccessfulAre(releases', site, g);
  }

  lemma RollbackStays(sequences: map<Sha, int>, sequences': map<Sha, int>, pair: seq<Sha>)
    requires IsRollback(sequences, pair)
    requires forall s | s in sequences' :: s in sequences && sequences'[s] == sequences[s]
    requires forall s | s in pair :: s in sequences'
    ensures IsRollback(sequences', pair)
  {
  }

  function StillEligible(r: Report, verified: map<Sha, Package>): map<Sha, Package> {
    map sha | sha in r.eligible && sha in verified :: r.eligible[sha]
  }

  /** Removing eligible releases changes neither the rollback pair nor what else is eligible. */
  lemma ReducedReports(releases: Releases, site: Site, g: Glimpse, r: Report, releases': Releases)
    requires Reports(releases, site, g, r) && Reduced(releases, releases', Shas(r.eligible))
    ensures Reports(releases', site, g, r.(eligible := StillEligible(r, Verified(releases', g))))
  {
    hide Verified, Successful, Reduced;
    var successful, successful' := Successful(releases, site, g), Successful(releases', site, g);
    VerifiedShrinks(releases, g, r, releases');
    SuccessfulShrinks(releases, site, g, r, releases');
    InVerified(releases, site, g, r);
    RollbackStays(successful, successful', r.rollback);
    assert Distinct(successful');
  }

  lemma InVerified(releases: Releases, site: Site, g: Glimpse, r: Report)
    requires Reports(releases, site, g, r)
    ensures forall sha | sha in r.rollback ::
              sha in Successful(releases, site, g) && sha in Verified(releases, g) && sha !in r.eligible
    ensures r.current in Verified(releases, g) && r.current !in r.eligible
    ensures forall sha | sha in r.eligible :: sha in Verified(releases, g) && r.eligible[sha] == Verified(releases, g)[sha]
  {
    hide Verified, Successful;
    SuccessfulAre(releases, site, g);
  }

  /** After an interruption the same plan is accepted again, over the same references, exactly when
      no candidate was left half removed. */
  lemma ReplayIsAccepted(releases: Releases, site: Site, g: Glimpse, plan: Plan, r: Report, releases': Releases,
                         r': Report)
    requires Reports(releases, site, g, r) && Acceptable(releases, plan, r)
    requires Reduced(releases, releases', Names(plan.candidates) * Shas(r.eligible))
    requires Reports(releases', site, g, r')
    ensures r'.rollback == r.rollback
    ensures Acceptable(releases', plan, r')
            <==> forall c | c in plan.candidates && c.name in releases' :: releases'[c.name] != Broken
  {
    hide Reports, Verified, AcceptedCandidate;
    var verified' := Verified(releases', g);
    assert Reduced(releases, releases', Shas(r.eligible));
    ReducedReports(releases, site, g, r, releases');
    ReportIsUnique(releases', site, g, r', r.(eligible := StillEligible(r, verified')));
    forall c | c in plan.candidates
      ensures AcceptedCandidate(releases', r'.eligible, c) <==> c.name !in releases' || releases'[c.name] != Broken
    {
      AcceptedAgain(releases, site, g, r, releases', c);
    }
  }

  lemma AcceptedAgain(releases: Releases, site: Site, g: Glimpse, r: Report, releases': Releases, c: Candidate)
    requires Reports(releases, site, g, r) && Reduced(releases, releases', Shas(r.eligible))
    requires AcceptedCandidate(releases, r.eligible, c)
    ensures AcceptedCandidate(releases', StillEligible(r, Verified(releases', g)), c)
            <==> c.name !in releases' || releases'[c.name] != Broken
  {
    hide Reports, Verified;
    InVerified(releases, site, g, r);
    VerifiedShrinks(releases, g, r, releases');
    VerifiedAre(releases', g);
  }

  /** Which inventory never decides to remove one of the two latest successes: the pair computed by
      a reader that meets no I/O error is spared unless its receipt could not be read this time. */
  lemma LatestSuccessesSurvive(releases: Releases, site: Site, g: Glimpse, r: Report, pair: seq<Sha>, sha: Sha)
    requires Reports(releases, site, g, r)
    requires IsRollback(Successful(releases, site, g.(unreadable := {}, unread := {})), pair) && sha in pair
    ensures sha in r.eligible
            <==> && sha in g.unread
                 && sha !in g.unreadable && |r.rollback| == 2
                 && !(sha in site.protected || (g.references.Some? && sha in g.references.value))
  {
    hide Verified, Successful, Evidence;
    var quiet := g.(unreadable := {}, unread := {});
    var all, seen := Successful(releases, site, quiet), Successful(releases, site, g);
    SuccessfulAre(releases, site, g);
    SuccessfulAre(releases, site, quiet);
    VerifiedAre(releases, g);
    VerifiedAre(releases, quiet);
    assert forall s | s in seen :: s in all && seen[s] == all[s];
    if sha in seen && sha !in r.rollback {
      OnlyTwoAhead(all, seen, pair, r.rollback, sha);
    }
  }

  lemma OnlyTwoAhead(all: map<Sha, int>, seen: map<Sha, int>, pair: seq<Sha>, rollback: seq<Sha>, sha: Sha)
    requires IsRollback(all, pair) && sha in pair
    requires IsRollback(seen, rollback) && sha in seen
    requires forall s | s in seen :: s in all && seen[s] == all[s]
    ensures sha in rollback
  {
    assert |rollback| == 2 ==> rollback[0] in rollback && rollback[1] in rollback;
    assert forall s | s in pair :: s == pair[0] || (|pair| == 2 && s == pair[1]);
    assert |pair| > 0 ==> pair[0] in pair;
  }

  // ---------- over the success directory of the recorder ----------

  /** The duplicate check of the inventory never fires on a directory that the recorder wrote. */
  lemma SequencesAreDistinct(releases: Releases, site: Site, g: Glimpse, d: Store, committed: set<Receipt>)
    requires Inv(d, committed) && site.success == d.live
    ensures Distinct(Successful(releases, site, g))
    ensures InventoryRefusal(releases, site, g) != Some(DuplicateSequence)
  {
    hide Inv, Successful, Verified;
    SuccessfulAre(releases, site, g);
    var successful := Successful(releases, site, g);
    if Pending !in site.success {
      forall s, s' | s in successful && s' in successful && successful[s] == successful[s']
        ensures s == s'
      {
        UnguardedSequencesAreDistinct(d, committed, Canonical(s), Canonical(s'));
      }
    }
  }

  /** A rollback release really succeeded, as these bytes, and was not revoked. */
  lemma RollbackWasCommitted(releases: Releases, site: Site, g: Glimpse, r: Report, d: Store,
                          committed: set<Receipt>, sha: Sha)
    requires Inv(d, committed) && site.success == d.live && Reports(releases, site, g, r) && sha in r.rollback
    ensures Release(sha) in releases && releases[Release(sha)].Intact?
    ensures exists receipt | receipt in committed ::
              && receipt.sha == sha && receipt.binding == releases[Release(sha)].package.binding
              && forall n | n in d.live && n.Archive? :: n.sequence != receipt.sequence
  {
    hide Inv, Successful, Verified;
    SuccessfulAre(releases, site, g);
    VerifiedAre(releases, g);
    UnguardedReceiptsAreSound(d, committed, sha);
  }
}
