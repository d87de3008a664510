/** Recovery of an interrupted publication through any number of further interruptions. */
module SuccessRecovery {
  import opened CrashDirectory
  import opened Optional
  import opened ReleaseSuccess
  import opened SuccessPast
  import opened SuccessRecorder

  /** From here every attempt that completes ends in `target`, whatever a power loss does. */
  ghost predicate Converging(d: Store, j: Journal, target: Files) {
    && Retracted(d.live, j) == target
    && (Pending in d.live ==> LiveGuard(d, j))
    && (forall v | (Pending, v) in d.lost :: v == Some(JournalFile(j)))
    && (Pending !in d.live ==> d.live == target && forall e | e in d.lost :: e.0 == Pending)
  }

  lemma SameLookups(a: Files, b: Files)
    requires forall n :: Lookup(a, n) == Lookup(b, n)
    ensures a == b
  {
    assert forall n :: n in a <==> Lookup(a, n).Some?;
    assert forall n :: n in b <==> Lookup(b, n).Some?;
  }

  /** What a power loss under a guard cannot change: every name that the guard does not name. */
  lemma OthersSurvivePowerLoss(d: Store, d': Store, committed: set<Receipt>, j: Journal)
    requires Inv(d, committed) && LiveGuard(d, j) && PowerLoss(d, d')
    ensures d'.live - Footprint(j) == d.live - Footprint(j)
  {
    forall n | n !in Footprint(j)
      ensures Lookup(d'.live, n) == Lookup(d.live, n)
    {
      assert May(d, n, Lookup(d'.live, n));
    }
    SameLookups(d.live - Footprint(j), d'.live - Footprint(j));
  }

  lemma PowerLossKeepsConverging(d: Store, d': Store, committed: set<Receipt>, j: Journal, target: Files)
    requires Inv(d, committed) && Converging(d, j, target) && PowerLoss(d, d')
    ensures Converging(d', j, target)
  {
    assert May(d, Pending, Lookup(d.live, Pending)) && May(d, Pending, Lookup(d'.live, Pending));
    forall n | n !in Footprint(j)
      ensures Lookup(d'.live, n) == Lookup(d.live, n)
    {
      assert May(d, n, Lookup(d'.live, n));
    }
    SameLookups(d.live - Footprint(j), d'.live - Footprint(j));
    RetractedDependsOnOthersOnly(d.live, d'.live, j);
    if Pending !in d'.live {
      assert Pending !in d.live by {
        assert Lookup(d'.live, Pending) == None;
      }
      forall n
        ensures Lookup(d'.live, n) == Lookup(d.live, n)
      {
        assert May(d, n, Lookup(d'.live, n));
      }
      SameLookups(d.live, d'.live);
    }
  }

  lemma RevocationKeepsConverging(d: Store, j: Journal, package: Option<Binding>, r: Reply<()>, d': Store,
                          target: Files)
    requires Converging(d, j, target) && LiveGuard(d, j)
    requires Revocation(d, j, package, r, d')
    ensures Converging(d', j, target)
  {
    assert Retracted(d.live, j) - Footprint(j) == d.live - Footprint(j);
    RetractedDependsOnOthersOnly(Retracted(d.live, j), d.live, j);
    forall v | (Pending, v) in d'.lost
      ensures v == Some(JournalFile(j))
    {
    }
  }

  /** The publication of `j` undone without a trace: its guard was lost before anything was archived. */
  ghost function Vanished(files: Files, j: Journal): Files {
    Retracted(files, j) - {ArchiveOf(j)}
  }

  /** The files, but for the guard, that a power loss during the recovery of `j` can leave. */
  ghost predicate Remains(d: Store, j: Journal, files: Files) {
    files == Retracted(d.live, j) || (May(d, ArchiveOf(j), None) && files == Vanished(d.live, j))
  }

  /** Every way in which the recovery of the live guard `j` can end: it is revoked; or it was not yet
      durable, and is lost; or an older guard comes back in its place, and that one is revoked. */
  ghost predicate End(d: Store, j: Journal, files: Files) {
    || files == Retracted(d.live, j)
    || (May(d, Pending, None) && Remains(d, j, files))
    || exists g, rest | g != j && May(d, Pending, Some(JournalFile(g))) && Remains(d, j, rest) :: files == Retracted(rest, g)
  }

  /** `j` is still the guard, nothing but its own names has moved, and nothing new has become possible. */
  ghost predicate Underway(start: Store, j: Journal, d: Store) {
    && LiveGuard(d, j)
    && d.live - Footprint(j) == start.live - Footprint(j)
    && (forall v | May(d, Pending, v) :: May(start, Pending, v))
    && (May(d, ArchiveOf(j), None) ==> May(start, ArchiveOf(j), None))
  }

  /** `j` is gone, and can at most resurface over the files of its own revocation. */
  ghost predicate Over(start: Store, j: Journal, d: Store) {
    && Pending !in d.live && End(start, j, d.live)
    && (forall e | e in d.lost :: e == (Pending, Some(JournalFile(j))) && d.live == Retracted(start.live, j))
  }

  /** An older guard has come back. */
  ghost predicate Overtaken(start: Store, j: Journal, d: Store, g: Journal, rest: Files) {
    && g != j && May(start, Pending, Some(JournalFile(g))) && Remains(start, j, rest)
    && Converging(d, g, Retracted(rest, g))
  }

  ghost predicate Heading(start: Store, j: Journal, d: Store) {
    Underway(start, j, d) || Over(start, j, d) || exists g, rest :: Overtaken(start, j, d, g, rest)
  }

  lemma UnguardedHeadingIsEnd(start: Store, j: Journal, d: Store)
    requires Heading(start, j, d) && Pending !in d.live
    ensures End(start, j, d.live)
  {
  }

  /** What is possible under a guard that is not durable: its release still has the previous receipt,
      and its archive, where there is one, is its own. */
  lemma LostGuardLeavesPrevious(d: Store, d': Store, committed: set<Receipt>, j: Journal)
    requires Inv(d, committed) && LiveGuard(d, j) && PowerLoss(d, d') && !LiveGuard(d', j)
    ensures Lookup(d'.live, Canonical(j.candidate.sha)) == PreviousFile(j)
    ensures Lookup(d'.live, ArchiveOf(j)) in {None, Some(JournalFile(j))}
  {
    var c, a, v := Canonical(j.candidate.sha), ArchiveOf(j), ViewOf(d);
    assert May(d, Pending, GuardFile(Some(j))) && Some(j) in v.guards;
    assert May(d, Pending, Lookup(d'.live, Pending));
    var g := if Pending in d'.live then Some(d'.live[Pending].journal) else None;
    assert May(d, Pending, GuardFile(g)) && g in v.guards && g != Some(j);
    assert May(d, c, Lookup(d'.live, c)) && May(d, a, Lookup(d'.live, a));
    if c in d'.live {
      assert d'.live[c].receipt in v.kept;
    } else {
      assert j.candidate.sha in v.missing;
    }
    if a in d'.live {
      assert d'.live[a].journal in v.archives;
    }
  }

  lemma LostGuardLeavesRemains(start: Store, j: Journal, d: Store, committed: set<Receipt>, d': Store)
    requires Inv(d, committed) && Underway(start, j, d) && PowerLoss(d, d') && !LiveGuard(d', j)
    ensures Remains(start, j, d'.live - {Pending})
  {
    LostGuardLeavesPrevious(d, d', committed, j);
    OthersSurvivePowerLoss(d, d', committed, j);
    assert May(d, ArchiveOf(j), Lookup(d'.live, ArchiveOf(j)));
    RetractedDependsOnOthersOnly(start.live, d'.live, j);
    PreviousAndArchive(d'.live, j);
  }

  /** Files with the previous receipt in place are those of the revocation, but for guard and archive. */
  lemma PreviousAndArchive(files: Files, j: Journal)
    requires Lookup(files, Canonical(j.candidate.sha)) == PreviousFile(j)
    ensures Lookup(files, ArchiveOf(j)) == Some(JournalFile(j)) ==> files - {Pending} == Retracted(files, j)
    ensures Lookup(files, ArchiveOf(j)) == None ==> files - {Pending} == Vanished(files, j)
  {
  }

  lemma PowerLossKeepsHeading(start: Store, j: Journal, d: Store, committed: set<Receipt>, d': Store)
    requires LiveGuard(start, j) && Inv(d, committed) && Heading(start, j, d) && PowerLoss(d, d')
    ensures Heading(start, j, d')
  {
    hide Inv, End, Remains, Converging;
    if Underway(start, j, d) {
      PowerLossKeepsUnderway(start, j, d, committed, d');
    } else if Over(start, j, d) {
      PowerLossKeepsOver(start, j, d, d');
    } else {
      var g, rest :| Overtaken(start, j, d, g, rest);
      PowerLossKeepsConverging(d, d', committed, g, Retracted(rest, g));
      assert Overtaken(start, j, d', g, rest);
    }
  }

  lemma PowerLossKeepsUnderway(start: Store, j: Journal, d: Store, committed: set<Receipt>, d': Store)
    requires Inv(d, committed) && Underway(start, j, d) && PowerLoss(d, d')
    ensures Heading(start, j, d')
  {
    hide Inv, Remains;
    assert May(d, Pending, Lookup(d'.live, Pending)) && May(d, ArchiveOf(j), Lookup(d'.live, ArchiveOf(j)));
    OthersSurvivePowerLoss(d, d', committed, j);
    if LiveGuard(d', j) {
      assert Underway(start, j, d');
    } else {
      LostGuardLeavesRemains(start, j, d, committed, d');
      if Pending !in d'.live {
        assert d'.live - {Pending} == d'.live;
        assert Over(start, j, d');
      } else {
        DisturbanceKeepsInv(d, d', committed);
        RecordsAreReadable(d', committed, Pending);
        var g, rest := d'.live[Pending].journal, d'.live - {Pending};
        assert d'.live - Footprint(g) == rest - Footprint(g);
        RetractedDependsOnOthersOnly(d'.live, rest, g);
        assert Overtaken(start, j, d', g, rest);
      }
    }
  }

  lemma PowerLossKeepsOver(start: Store, j: Journal, d: Store, d': Store)
    requires LiveGuard(start, j) && Over(start, j, d) && PowerLoss(d, d')
    ensures Heading(start, j, d')
  {
    hide End;
    assert May(d, Pending, Lookup(d'.live, Pending));
    forall n
      ensures Lookup(d'.live - {Pending}, n) == Lookup(d.live - {Pending}, n)
    {
      assert May(d, n, Lookup(d'.live, n));
    }
    SameLookups(d'.live - {Pending}, d.live - {Pending});
    assert d.live - {Pending} == d.live;
    if Pending in d'.live {
      assert d'.live - Footprint(j) == (d'.live - {Pending}) - Footprint(j) == Retracted(start.live, j) - Footprint(j);
      assert Retracted(start.live, j) - Footprint(j) == start.live - Footprint(j);
      assert Lookup(d'.live, ArchiveOf(j)) == Some(JournalFile(j));
      assert Underway(start, j, d');
    } else {
      assert d'.live - {Pending} == d'.live;
    }
  }

  lemma RevocationKeepsHeading(start: Store, j: Journal, d: Store, g: Journal, package: Option<Binding>,
                          r: Reply<()>, d': Store)
    requires LiveGuard(start, j) && Heading(start, j, d) && LiveGuard(d, g) && Revocation(d, g, package, r, d')
    ensures Heading(start, j, d')
  {
    hide Revocation, Converging, Remains, Retracted;
    if Underway(start, j, d) {
      RevocationKeepsUnderway(start, j, d, package, r, d');
    } else {
      var g', rest :| Overtaken(start, j, d, g', rest);
      ConvergingGuard(d, g', Retracted(rest, g'));
      RevocationKeepsConverging(d, g, package, r, d', Retracted(rest, g));
      assert Overtaken(start, j, d', g, rest);
    }
  }

  lemma ConvergingGuard(d: Store, g: Journal, target: Files)
    requires Converging(d, g, target) && Pending in d.live
    ensures LiveGuard(d, g)
  {
  }

  lemma RevocationKeepsUnderway(start: Store, j: Journal, d: Store, package: Option<Binding>, r: Reply<()>, d': Store)
    requires Underway(start, j, d) && Revocation(d, j, package, r, d')
    ensures Heading(start, j, d')
  {
    RetractedDependsOnOthersOnly(d.live, start.live, j);
    assert Retracted(d'.live, j) - Footprint(j) == d'.live - Footprint(j);
    assert Retracted(d.live, j) - Footprint(j) == d.live - Footprint(j);
    if Pending in d'.live {
      assert Underway(start, j, d');
    } else {
      assert Over(start, j, d');
    }
  }

  /** From any state with a guard, durable or not: however often recovery is interrupted, whatever
      packages it meets and wherever power fails, without a guard only one of the ends is left. */
  method RecoverThroughInterruptions(store: SuccessDirectory, attempts: nat, ghost j: Journal)
    requires store.Valid() && LiveGuard(store.Image(), j)
    modifies store`files, store`lost, store`trouble
    ensures store.Valid()
    ensures Pending !in store.files ==> End(old(store.Image()), j, store.files)
    ensures Pending !in store.files && Determined(old(store.Image()), j) ==> store.files == Retracted(old(store.files), j)
  {
    hide Inv, Past, Heading, End, Retracted, Revocation;
    ghost var start := store.Image();
    assert Heading(start, j, start) by {
      StartIsUnderway(start, j);
    }
    var left := attempts;
    while left > 0
      invariant store.Valid() && Heading(start, j, store.Image())
    {
      left := left - 1;
      var interrupted: bool := *;
      if interrupted {
        ghost var before := store.Image();
        store.LosePower();
        PowerLossKeepsHeading(start, j, before, store.committed, store.Image());
        DisturbanceKeepsInv(before, store.Image(), store.committed);
        DisturbanceKeepsPast(before, store.Image(), store.committed, store.anchored);
      }
      ghost var before := store.Image();
      if Pending in store.files {
        RecordsAreReadable(store.Image(), store.committed, Pending);
      }
      var packages: map<Sha, Binding> := *;
      var r := store.RevokePending(packages);
      if Pending in before.live {
        var g := before.live[Pending].journal;
        RevocationKeepsHeading(start, j, before, g, Lookup(packages, g.candidate.sha), r, store.Image());
      }
    }
    if Pending !in store.files {
      UnguardedHeadingIsEnd(start, j, store.Image());
    }
  }

  lemma StartIsUnderway(start: Store, j: Journal)
    requires LiveGuard(start, j)
    ensures Heading(start, j, start)
  {
    assert Underway(start, j, start);
  }

  // ---------- when the end is determined ----------

  /** Recovery is bound to end in the revocation of the live guard. */
  ghost predicate Determined(d: Store, j: Journal) {
    forall files | End(d, j, files) :: files == Retracted(d.live, j)
  }

  /** The revocation of `g` has nothing left to do. */
  predicate AlreadyRevoked(files: Files, g: Journal) {
    Lookup(files, ArchiveOf(g)) == Some(JournalFile(g)) && Lookup(files, Canonical(g.candidate.sha)) == PreviousFile(g)
  }

  /** Exactly when: the guard is durable; or, whatever else can be found under its name, its archive is
      there for good, and an older guard that can come back has already been revoked. */
  lemma DeterminedWhen(d: Store, committed: set<Receipt>, j: Journal)
    requires Inv(d, committed) && LiveGuard(d, j)
    ensures Determined(d, j)
            <==> forall v | May(d, Pending, v) && v != Some(JournalFile(j)) :: Harmless(d, j, v)
  {
    hide Inv, Retracted, Harmless, AlreadyRevoked;
    if Determined(d, j) {
      forall v | May(d, Pending, v) && v != Some(JournalFile(j))
        ensures Harmless(d, j, v)
      {
        GuardIsTyped(d, committed, j, v);
        OtherIsHarmless(d, j, v);
      }
    }
    if forall v | May(d, Pending, v) && v != Some(JournalFile(j)) :: Harmless(d, j, v) {
      forall files | End(d, j, files)
        ensures files == Retracted(d.live, j)
      {
        HarmlessEnd(d, j, files);
      }
    }
  }

  /** What may be found instead of the guard `j` changes nothing about the end. */
  ghost predicate Harmless(d: Store, j: Journal, v: Option<Record>) {
    && !May(d, ArchiveOf(j), None)
    && (v.Some? && v.value.JournalFile? ==> AlreadyRevoked(Retracted(d.live, j), v.value.journal))
  }

  lemma GuardIsTyped(d: Store, committed: set<Receipt>, j: Journal, v: Option<Record>)
    requires Inv(d, committed) && LiveGuard(d, j) && May(d, Pending, v)
    ensures v.Some? ==> v.value.JournalFile? && (v.value.journal != j ==> ArchiveOf(v.value.journal) != ArchiveOf(j))
  {
    assert May(d, Pending, GuardFile(Some(j))) && Some(j) in ViewOf(d).guards;
    if v.Some? {
      assert May(d, Pending, GuardFile(Some(v.value.journal))) && Some(v.value.journal) in ViewOf(d).guards;
    }
  }

  lemma OtherIsHarmless(d: Store, j: Journal, v: Option<Record>)
    requires LiveGuard(d, j) && Determined(d, j) && May(d, Pending, v) && v != Some(JournalFile(j))
    requires v.Some? ==> v.value.JournalFile? && ArchiveOf(v.value.journal) != ArchiveOf(j)
    ensures Harmless(d, j, v)
  {
    var revoked, vanished := Retracted(d.live, j), Vanished(d.live, j);
    assert ArchiveOf(j) in revoked && ArchiveOf(j) !in vanished;
    assert Remains(d, j, revoked) && (May(d, ArchiveOf(j), None) ==> Remains(d, j, vanished));
    match v
    case None =>
      assert May(d, ArchiveOf(j), None) ==> End(d, j, vanished);
    case Some(c) =>
      var g := c.journal;
      assert ArchiveOf(j) !in Retracted(vanished, g);
      assert End(d, j, Retracted(revoked, g));
      assert May(d, ArchiveOf(j), None) ==> End(d, j, Retracted(vanished, g));
      assert AlreadyRevoked(Retracted(revoked, g), g);
  }

  lemma HarmlessEnd(d: Store, j: Journal, files: Files)
    requires End(d, j, files)
    requires forall v | May(d, Pending, v) && v != Some(JournalFile(j)) :: Harmless(d, j, v)
    ensures files == Retracted(d.live, j)
  {
    if files != Retracted(d.live, j) {
      if g, rest :| g != j && May(d, Pending, Some(JournalFile(g))) && Remains(d, j, rest) && files == Retracted(rest, g) {
        assert Harmless(d, j, Some(JournalFile(g)));
        RevokedAgain(rest, g);
      }
    }
  }

  lemma RevokedAgain(files: Files, g: Journal)
    requires AlreadyRevoked(files, g) && Pending !in files
    ensures Retracted(files, g) == files
  {
  }

  // ---------- every end happens ----------

  /** How an end comes about: an attempt that was cut short behind the archive, or none; then a power
      loss, or none; then one recovery that completes. */
  ghost predicate ComesAbout(d: Store, j: Journal, files: Files, attempted: Store, found: Store) {
    && (attempted == d || Revocation(d, j, Some(j.candidate.binding), Crashed(Failed), attempted))
    && (found == attempted || PowerLoss(attempted, found))
    && if Pending in found.live
       then found.live[Pending].JournalFile? && files == Retracted(found.live, found.live[Pending].journal)
       else files == found.live
  }

  lemma EveryEndComesAbout(d: Store, committed: set<Receipt>, j: Journal, files: Files) returns (attempted: Store,
                          found: Store)
    requires Inv(d, committed) && LiveGuard(d, j) && End(d, j, files)
    ensures ComesAbout(d, j, files, attempted, found)
  {
    hide Inv, Revocation, PowerLoss, Retracted, Remains;
    attempted, found := d, d;
    if files != Retracted(d.live, j) {
      if May(d, Pending, None) && Remains(d, j, files) {
        attempted, found := FoundInstead(d, committed, j, None, files);
        assert Pending !in found.live && found.live - {Pending} == found.live;
      } else {
        var g, rest :| g != j && May(d, Pending, Some(JournalFile(g))) && Remains(d, j, rest) && files == Retracted(rest, g);
        attempted, found := FoundInstead(d, committed, j, Some(JournalFile(g)), rest);
        assert found.live - Footprint(g) == rest - Footprint(g);
        RetractedDependsOnOthersOnly(found.live, rest, g);
      }
    }
  }

  /** Any other binding of the guard can be found, over either of the remains. */
  lemma FoundInstead(d: Store, committed: set<Receipt>, j: Journal, v: Option<Record>,
                     rest: Files) returns (attempted: Store, found: Store)
    requires Inv(d, committed) && LiveGuard(d, j) && May(d, Pending, v) && v != Some(JournalFile(j)) && Remains(d, j, rest)
    ensures attempted == d || Revocation(d, j, Some(j.candidate.binding), Crashed(Failed), attempted)
    ensures PowerLoss(attempted, found) && found.live - {Pending} == rest && Lookup(found.live, Pending) == v
  {
    hide Inv, Revocation, PowerLoss;
    var a := ArchiveOf(j);
    LooseGuardLeavesPrevious(d, committed, j, v);
    if rest == Retracted(d.live, j) {
      attempted := Replaced(d, a, JournalFile(j));
      RetractedDependsOnOthersOnly(attempted.live, d.live, j);
      ArchivingIsAnAttempt(d, j);
      PreviousAndArchive(attempted.live, j);
      found := Disk(Bound(attempted.live, v), {});
      FoundAfterPowerLoss(attempted, found, v, a);
    } else {
      attempted := d;
      var files := d.live - {a};
      RetractedDependsOnOthersOnly(files, d.live, j);
      PreviousAndArchive(files, j);
      found := Disk(Bound(files, v), {});
      FoundAfterPowerLoss(d, found, v, a);
    }
    BoundGuard(found.live, v, rest);
  }

  ghost function Bound(files: Files, v: Option<Record>): Files {
    match v
    case None => files - {Pending}
    case Some(c) => files[Pending := c]
  }

  lemma BoundGuard(files: Files, v: Option<Record>, rest: Files)
    requires exists before :: files == Bound(before, v) && before - {Pending} == rest
    ensures files - {Pending} == rest && Lookup(files, Pending) == v
  {
  }

  lemma LooseGuardLeavesPrevious(d: Store, committed: set<Receipt>, j: Journal, v: Option<Record>)
    requires Inv(d, committed) && LiveGuard(d, j) && May(d, Pending, v) && v != Some(JournalFile(j))
    ensures Lookup(d.live, Canonical(j.candidate.sha)) == PreviousFile(j)
  {
    var g := if v.Some? then Some(v.value.journal) else None;
    assert May(d, Pending, GuardFile(g)) && g in ViewOf(d).guards && g != Some(j);
    UntouchedCanonical(d, committed, j);
  }

  lemma ArchivingIsAnAttempt(d: Store, j: Journal)
    requires LiveGuard(d, j)
    ensures Revocation(d, j, Some(j.candidate.binding), Crashed(Failed), Replaced(d, ArchiveOf(j), JournalFile(j)))
  {
    RetractedDependsOnOthersOnly(d.live, d.live[ArchiveOf(j) := JournalFile(j)], j);
  }

  lemma FoundAfterPowerLoss(d: Store, d': Store, v: Option<Record>, a: Name)
    requires d'.lost == {} && May(d, Pending, v) && May(d, a, Lookup(d'.live, a)) && Lookup(d'.live, Pending) == v
    requires forall n | n != Pending && n != a :: Lookup(d'.live, n) == Lookup(d.live, n)
    ensures PowerLoss(d, d')
  {
    forall n
      ensures May(d, n, Lookup(d'.live, n))
    {
      assert n != Pending && n != a ==> May(d, n, Lookup(d.live, n));
    }
  }

  // ---------- what happens to receipts ----------

  /** A receipt whose guard can still be found can be taken back: power fails, the guard returns, and
      its revocation leaves an older receipt or none. */
  lemma GuardedReceiptCanBeRevoked(d: Store, committed: set<Receipt>, g: Journal) returns (d': Store)
    requires Inv(d, committed) && Pending !in d.live && May(d, Pending, Some(JournalFile(g)))
    ensures PowerLoss(d, d') && LiveGuard(d', g)
    ensures Lookup(Retracted(d'.live, g), Canonical(g.candidate.sha)) == PreviousFile(g)
    ensures g.previous.Some? ==> g.previous.value.sequence < g.candidate.sequence
  {
    hide PowerLoss;
    d' := Disk(d.live[Pending := JournalFile(g)], {});
    assert May(d, ArchiveOf(g), Lookup(d.live, ArchiveOf(g)));
    FoundAfterPowerLoss(d, d', Some(JournalFile(g)), ArchiveOf(g));
    assert May(d, Pending, GuardFile(Some(g))) && Some(g) in ViewOf(d).guards;
  }

  // ---------- the two ways to miss the revocation ----------

  /** A first publication whose guard was renamed into an empty directory, and not yet synced. */
  lemma FreshGuardCanVanish(j: Journal)
    requires ValidJournal(j) && j.previous == None
    ensures var d := Replaced(Disk(map[], {}), Pending, JournalFile(j));
            && Inv(d, {}) && LiveGuard(d, j)
            && PowerLoss(d, Disk(map[], {})) && Retracted(d.live, j) != map[]
  {
    EmptyStore();
    GuardPublished(Disk(map[], {}), {}, j);
    assert ArchiveOf(j) in Retracted(map[Pending := JournalFile(j)], j);
  }

  /** A second publication over a first one whose guard was removed and not synced: the older guard can
      return in place of the newer one, and then the committed first receipt is revoked. */
  lemma OlderGuardCanReturn(g: Journal, j: Journal) returns (d': Store)
    requires ValidJournal(g) && ValidJournal(j) && g.previous == None && j.previous == None
    requires g.candidate.sha != j.candidate.sha && g.candidate.sequence < j.candidate.sequence
    ensures var committed := Disk(map[Canonical(g.candidate.sha) := ReceiptFile(g.candidate)], {(Pending, Some(JournalFile(g)))});
            var d := Replaced(committed, Pending, JournalFile(j));
            && Inv(d, {g.candidate}) && LiveGuard(d, j)
            && PowerLoss(d, d') && LiveGuard(d', g)
            && Canonical(g.candidate.sha) in Retracted(d.live, j)
            && Canonical(g.candidate.sha) !in Retracted(d'.live, g)
  {
    hide Inv;
    var c := Canonical(g.candidate.sha);
    EmptyStore();
    GuardPublished(Disk(map[], {}), {}, g);
    var guarded := Replaced(Disk(map[], {}), Pending, JournalFile(g));
    var durable: Store := Disk(map[Pending := JournalFile(g)], {});
    DisturbanceKeepsInv(guarded, durable, {});
    CandidatePublished(durable, {}, g);
    var published := Replaced(durable, c, ReceiptFile(g.candidate));
    var settled: Store := Disk(map[Pending := JournalFile(g), c := ReceiptFile(g.candidate)], {});
    DisturbanceKeepsInv(published, settled, {});
    CommitKeepsInv(settled, {}, g.candidate);
    assert {} + {g.candidate} == {g.candidate};
    CommittedGuardRemoved(settled, {g.candidate}, g);
    var committed: Store := Disk(map[c := ReceiptFile(g.candidate)], {(Pending, Some(JournalFile(g)))});
    assert Unlinked(settled, Pending) == committed;
    GuardPublished(committed, {g.candidate}, j);
    var d := Replaced(committed, Pending, JournalFile(j));
    d' := Disk(map[Pending := JournalFile(g), c := ReceiptFile(g.candidate)], {});
    forall n
      ensures May(d, n, Lookup(d'.live, n))
    {
      assert n != Pending ==> Lookup(d'.live, n) == Lookup(d.live, n);
    }
  }
}
