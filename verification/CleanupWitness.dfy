/** One small host on which the two exceptions of the release cleanup can be seen. */
module CleanupWitness {
  import opened CleanupPlan
  import opened Optional
  import opened ReleaseSuccess

  const BINDING := Binding("manifest", "package", "binary", "schema")
  const PACKAGE := Package(BINDING, 1, 1, 4096)

  /** The current release and three earlier ones, all with the installed schema. */
  const RELEASES: Releases := map[
    Release("current") := Intact(PACKAGE), Release("first") := Intact(PACKAGE),
    Release("second") := Intact(PACKAGE), Release("third") := Intact(PACKAGE)]

  function Success(sha: Sha, sequence: int): Record {
    ReceiptFile(Receipt(sha, sequence, BINDING, 0, None, 1, 2))
  }

  /** The earlier releases succeeded in the order of their names. */
  const SITE := Site(
    Release("current"), Some("schema"), true,
    map[Canonical("first") := Success("first", 1), Canonical("second") := Success("second", 2),
        Canonical("third") := Success("third", 3)], {})

  function Reading(unread: set<Sha>): Glimpse {
    Glimpse(Some({}), {}, unread)
  }

  function ReportOf(unread: set<Sha>, rollback: seq<Sha>): Report {
    Report("current", "schema", rollback, Eligible(RELEASES, SITE, Reading(unread), rollback))
  }

  lemma VerifiedOfSample(unread: set<Sha>)
    ensures var verified := Verified(RELEASES, Reading(unread));
            forall sha :: (sha in verified <==> sha in {"current", "first", "second", "third"})
                          && (sha in verified ==> verified[sha] == PACKAGE)
  {
    hide Verified;
    VerifiedAre(RELEASES, Reading(unread));
  }

  lemma EvidenceOfSample(sha: Sha)
    ensures Evidence(SITE.success, sha, PACKAGE)
         == if sha == "first" then Some(Success("first", 1).receipt)
            else if sha == "second" then Some(Success("second", 2).receipt)
            else if sha == "third" then Some(Success("third", 3).receipt)
            else None
  {
  }

  lemma SuccessesOfSample(unread: set<Sha>)
    ensures var successful := Successful(RELEASES, SITE, Reading(unread));
            && (forall sha :: sha in successful <==> sha in {"first", "second", "third"} && sha !in unread)
            && ("first" in successful ==> successful["first"] == 1)
            && ("second" in successful ==> successful["second"] == 2)
            && ("third" in successful ==> successful["third"] == 3)
    ensures InventoryRefusal(RELEASES, SITE, Reading(unread)) == None
  {
    hide Verified, Successful, Evidence;
    VerifiedOfSample(unread);
    SuccessfulAre(RELEASES, SITE, Reading(unread));
    forall sha {
      EvidenceOfSample(sha);
    }
  }

  lemma EligibleOfSample(unread: set<Sha>, rollback: seq<Sha>, sha: Sha)
    requires |rollback| == 2 && sha in {"first", "second", "third"} && sha !in rollback
    ensures sha in Eligible(RELEASES, SITE, Reading(unread), rollback)
    ensures Eligible(RELEASES, SITE, Reading(unread), rollback)[sha] == PACKAGE
  {
    hide Verified;
    VerifiedOfSample(unread);
  }

  /** The receipt of the latest success cannot be read, and that release becomes eligible. */
  lemma UnreadReceiptUnprotectsTheLatest()
    ensures IsRollback(Successful(RELEASES, SITE, Reading({})), ["third", "second"])
    ensures Reports(RELEASES, SITE, Reading({"third"}), ReportOf({"third"}, ["second", "first"]))
    ensures "third" in ReportOf({"third"}, ["second", "first"]).eligible
  {
    hide Verified, Successful, InventoryRefusal, Eligible;
    SuccessesOfSample({});
    SuccessesOfSample({"third"});
    EligibleOfSample({"third"}, ["second", "first"], "third");
  }

  const PLAN := Plan(true, false, "current", "schema", [Candidate(Release("first"), PACKAGE)])

  /** The same plan validates before a removal that was cut off half way, and not after it. */
  lemma HalfRemovedCandidateBlocksReplay(after: Report)
    requires Reports(RELEASES[Release("first") := Broken], SITE, Reading({}), after)
    ensures Reports(RELEASES, SITE, Reading({}), ReportOf({}, ["third", "second"]))
    ensures Acceptable(RELEASES, PLAN, ReportOf({}, ["third", "second"]))
    ensures !Acceptable(RELEASES[Release("first") := Broken], PLAN, after)
  {
    hide Verified, Successful, InventoryRefusal, Eligible;
    var before, halfway := ReportOf({}, ["third", "second"]), RELEASES[Release("first") := Broken];
    SuccessesOfSample({});
    EligibleOfSample({}, ["third", "second"], "first");
    var c := PLAN.candidates[0];
    assert PLAN.candidates == [c] && c in PLAN.candidates && c.name in halfway;
    assert Release("first") in Names(PLAN.candidates) && Release("first") in Shas(before.eligible);
    ReplayIsAccepted(RELEASES, SITE, Reading({}), PLAN, before, halfway, after);
  }

  /** And such a report there is: the half-removed host passes the inventory. */
  lemma HalfRemovedHostIsReported() returns (after: Report)
    ensures Reports(RELEASES[Release("first") := Broken], SITE, Reading({}), after)
    ensures !Acceptable(RELEASES[Release("first") := Broken], PLAN, after)
  {
    hide Verified, Successful, InventoryRefusal, Eligible;
    var before, halfway := ReportOf({}, ["third", "second"]), RELEASES[Release("first") := Broken];
    SuccessesOfSample({});
    EligibleOfSample({}, ["third", "second"], "first");
    assert Release("first") in Shas(before.eligible);
    ReducedReports(RELEASES, SITE, Reading({}), before, halfway);
    after := before.(eligible := StillEligible(before, Verified(halfway, Reading({}))));
    HalfRemovedCandidateBlocksReplay(after);
  }
}
