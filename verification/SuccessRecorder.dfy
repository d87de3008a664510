/** The recorder of release success: guarded publication and revocation, call by call. */
module SuccessRecorder {
  import opened CrashDirectory
  import opened Optional
  import opened ReleaseSuccess
  import opened SuccessPast

  datatype Reason =
    | RecoveryRequired | NotObserved | InvalidRecord | DuplicateSequence | PackageChanged
    | ReceiptChanged | PreviousMissing | HistoryChanged

  /** The calls that change the directory, with the fsyncs that settle them. */
  datatype Call = RenameOnto(name: Name) | SyncOfRename(name: Name) | UnlinkOf(name: Name) | SyncOfUnlink(name: Name)

  /** A call returns, refuses before writing, or ends in an I/O error or with its process. */
  datatype Reply<+T> = Ok(value: T) | Refused(reason: Reason) | Crashed(how: Outcome)

  /** The files after `j` has been revoked for good. */
  ghost function Retracted(files: Files, j: Journal): Files {
    var others := (files - Footprint(j))[ArchiveOf(j) := JournalFile(j)];
    match j.previous
    case None => others
    case Some(p) => others[Canonical(j.candidate.sha) := ReceiptFile(p)]
  }

  /** How a revocation of `j` can end.  It refuses exactly when the package no longer is the one the
      journal names; otherwise it completes, or leaves the same completion to the next attempt. */
  ghost predicate Revocation(before: Store, j: Journal, package: Option<Binding>, r: Reply<()>, after: Store) {
    var resurfacing := (Pending, Some(JournalFile(j)));
    match r
    case Refused(reason) =>
      package != Some(j.candidate.binding) && reason == PackageChanged && after == before
    case Ok(_) =>
      && package == Some(j.candidate.binding)
      && after.live == Retracted(before.live, j)
      && after.lost <= {resurfacing}
    case Crashed(_) =>
      && package == Some(j.candidate.binding)
      && Retracted(after.live, j) == Retracted(before.live, j)
      && (forall e | e in after.lost && e.0 == Pending :: e in before.lost || e == resurfacing)
      && (May(after, ArchiveOf(j), None) ==> May(before, ArchiveOf(j), None))
      && (LiveGuard(after, j) || (after.live == Retracted(before.live, j) && after.lost <= {resurfacing}))
  }

  /** How a publication for `sha` can end. */
  ghost predicate Publication(before: Store, committed: set<Receipt>, sha: Sha, binding: Binding,
                              r: Reply<Receipt>, after: Store, committed': set<Receipt>) {
    var c := Canonical(sha);
    var changed := PackageDiffers(before.live, sha, binding);
    match r
    case Refused(reason) =>
      && after == before && committed' == committed
      && if Pending in before.live then reason == RecoveryRequired else changed && reason == PackageChanged
    case Ok(receipt) =>
      && Pending !in before.live && !changed
      && receipt.sha == sha && receipt.binding == binding
      && Fresh(before.live, receipt.sequence)
      && (receipt.sequence == 1 || exists n | n in before.live :: SequenceAt(before.live, n) == receipt.sequence - 1)
      && after.live - {Pending} == before.live[c := ReceiptFile(receipt)]
      && committed' == committed + {receipt}
      && forall e | e in after.lost :: e.0 == Pending
    case Crashed(how) =>
      // Without a guard, an interrupted publication either never started or is committed.
      && Pending !in before.live && !changed
      && (Pending !in after.live ==>
            || (committed' == committed && SameReceipts(before.live, after.live))
            || (how == Killed && c in after.live && after.live[c].ReceiptFile? && after.live[c].receipt in committed'))
  }

  function Writing(n: Name): set<Call> {
    {RenameOnto(n), SyncOfRename(n)}
  }

  function Removing(n: Name): set<Call> {
    {UnlinkOf(n), SyncOfUnlink(n)}
  }

  /** The calls of a revocation. */
  function Revoking(j: Journal): set<Call> {
    var c := Canonical(j.candidate.sha);
    Writing(ArchiveOf(j)) + Writing(c) + Removing(c) + Removing(Pending)
  }

  /** The one failure that a revocation, and the cleanup after a commit, shrugs off. */
  function Lingering(): Trouble<Call> {
    Trouble(SyncOfUnlink(Pending), Failed)
  }

  /** What stopped a revocation: nothing but a call that did not return.  Without trouble all is settled. */
  ghost predicate RevocationTold(before: seq<Trouble<Call>>, j: Journal, r: Reply<()>, after: seq<Trouble<Call>>, d: Store) {
    match r
    case Refused(_) => after == before
    case Ok(_) => (after == before && d.lost == {}) || after == before + [Lingering()]
    case Crashed(how) => how != Done && after != before + [Lingering()] && Noted(before, after, Revoking(j), how)
  }

  lemma NotLingering(before: seq<Trouble<Call>>, after: seq<Trouble<Call>>, calls: set<Call>, o: Outcome)
    requires Noted(before, after, calls, o) && (o != Failed || SyncOfUnlink(Pending) !in calls)
    ensures after != before + [Lingering()]
  {
    if o != Done {
      var call :| call in calls && after == before + [Trouble(call, o)];
      assert after[|before|] == Trouble(call, o);
    }
  }

  /** What stopped a publication.  The guard stays only if its own write or its removal had trouble, the
      process was killed, or the revocation of a failed candidate had trouble of its own; that
      revocation leaves the files as they were and the journal in the history. */
  ghost predicate PublicationTold(before: Files, sha: Sha, binding: Binding, trouble: seq<Trouble<Call>>,
                                  r: Reply<Receipt>, after: Store) {
    match r
    case Refused(_) => trouble == []
    case Ok(_) =>
      || (trouble == [] && Pending !in after.live && after.lost == {})
      || (|trouble| == 1 && trouble[0].how == Failed && trouble[0].call in Removing(Pending))
    case Crashed(how) =>
      && trouble != [] && how != Done
      && if trouble[0].how == Killed then how == Killed && |trouble| == 1
         else if trouble[0].call in Writing(Pending) then how == Failed && |trouble| == 1
         else
           && trouble[0].call in Writing(Canonical(sha))
           && (|trouble| == 1 || trouble[1..] == [Lingering()] ==>
                 && how == Failed && (|trouble| == 1 ==> after.lost == {})
                 && exists j: Journal ::
                      && after.live == before[ArchiveOf(j) := JournalFile(j)]
                      && j.candidate.sha == sha && j.candidate.binding == binding && Fresh(before, j.candidate.sequence)
                      && PreviousFile(j) == Lookup(before, Canonical(sha)))
  }

  /** The release already has a receipt, for other package bytes. */
  predicate PackageDiffers(files: Files, sha: Sha, binding: Binding) {
    && Canonical(sha) in files
    && files[Canonical(sha)].ReceiptFile?
    && files[Canonical(sha)].receipt.binding != binding
  }

  ghost predicate SameReceipts(files: Files, files': Files) {
    forall sha :: Lookup(files, Canonical(sha)) == Lookup(files', Canonical(sha))
  }

  /** Recovery rewrites nothing but the names of its own journal. */
  lemma RetractedDependsOnOthersOnly(files: Files, files': Files, j: Journal)
    requires files - Footprint(j) == files' - Footprint(j)
    ensures Retracted(files, j) == Retracted(files', j)
  {
  }

  lemma RetractedRestoresReceipts(files: Files, j: Journal)
    requires Lookup(files, Canonical(j.candidate.sha)) == PreviousFile(j)
    ensures SameReceipts(files, Retracted(files, j))
  {
  }

  lemma PublicationFiles(start: Files, j: Journal)
    requires Pending !in start && Fresh(start, j.candidate.sequence)
    ensures start[Pending := JournalFile(j)] - Footprint(j) == start - Footprint(j)
    ensures var full := start[Pending := JournalFile(j)][Canonical(j.candidate.sha) := ReceiptFile(j.candidate)];
            && full - {Pending} == start[Canonical(j.candidate.sha) := ReceiptFile(j.candidate)]
            && forall n | n in full && n.Archive? :: n.sequence != j.candidate.sequence
  {
  }

  /** A write ends in the state before it or after it, short of some write-back. */
  lemma WriteKeepsValid(d: Store, n: Name, c: Record, d': Store, committed: set<Receipt>, anchored: set<Receipt>)
    requires Inv(d, committed) && Inv(Replaced(d, n, c), committed)
    requires Past(d, committed, anchored) && Past(Replaced(d, n, c), committed, anchored)
    requires || d' == Synced(Replaced(d, n, c))
             || WrittenBack(d, d')
             || WrittenBack(Replaced(d, n, c), d')
    ensures Inv(d', committed) && Past(d', committed, anchored)
  {
    hide Inv, Past;
    var from := if WrittenBack(d, d') then d else Replaced(d, n, c);
    DisturbanceKeepsInv(from, d', committed);
    DisturbanceKeepsPast(from, d', committed, anchored);
  }

  class SuccessDirectory {
    var files: Files
    var lost: set<(Name, Option<Record>)>
    ghost var committed: set<Receipt>
    /** Receipts that no run can take away any more. */
    ghost var anchored: set<Receipt>
    /** Every call that did not return, oldest first. */
    ghost var trouble: seq<Trouble<Call>>

    ghost function Image(): Store
      reads this
    {
      Disk(files, lost)
    }

    ghost predicate Valid()
      reads this
    {
      Inv(Image(), committed) && Past(Image(), committed, anchored)
    }

    constructor ()
      ensures Valid() && files == map[] && lost == {} && committed == {} && anchored == {} && trouble == []
    {
      files, lost, committed, anchored, trouble := map[], {}, {}, {}, [];
      new;
      EmptyStore();
      EmptyPast();
    }

    // ---------- system calls ----------

    method Rename(n: Name, c: Record) returns (o: Outcome)
      modifies `files, `lost, `trouble
      ensures Noted(old(trouble), trouble, {RenameOnto(n)}, o)
      ensures o == Done ==> Image() == Replaced(old(Image()), n, c)
      ensures o != Done ==> Image() == old(Image()) || Image() == Replaced(old(Image()), n, c)
    {
      var applied: bool := *;
      o := *;
      if applied || o == Done {
        files, lost := files[n := c], lost + {(n, Lookup(files, n))};
      }
      Note(RenameOnto(n), o);
    }

    method Unlink(n: Name) returns (o: Outcome)
      modifies `files, `lost, `trouble
      ensures Noted(old(trouble), trouble, {UnlinkOf(n)}, o)
      ensures o == Done ==> Image() == Unlinked(old(Image()), n)
      ensures o != Done ==> Image() == old(Image()) || Image() == Unlinked(old(Image()), n)
    {
      var applied: bool := *;
      o := *;
      if applied || o == Done {
        files, lost := files - {n}, lost + {(n, Lookup(files, n))};
      }
      Note(UnlinkOf(n), o);
    }

    ghost method Note(call: Call, o: Outcome)
      modifies `trouble
      ensures Noted(old(trouble), trouble, {call}, o)
    {
      if o != Done {
        trouble := trouble + [Trouble(call, o)];
      }
    }

    method SyncDirectory(ghost call: Call) returns (o: Outcome)
      modifies `lost, `trouble
      ensures Noted(old(trouble), trouble, {call}, o)
      ensures o == Done ==> Image() == Synced(old(Image()))
      ensures o != Done ==> WrittenBack(old(Image()), Image())
    {
      o := *;
      if o == Done {
        lost := {};
      }
      Note(call, o);
    }

    method WritePrivateJson(n: Name, c: Record) returns (o: Outcome)
      modifies `files, `lost, `trouble
      ensures Noted(old(trouble), trouble, Writing(n), o)
      ensures o == Done ==> Image() == Synced(Replaced(old(Image()), n, c))
      ensures o != Done ==> || WrittenBack(old(Image()), Image())
                            || WrittenBack(Replaced(old(Image()), n, c), Image())
    {
      o := Rename(n, c);
      if o == Done {
        o := SyncDirectory(SyncOfRename(n));
      }
    }

    /** The environment: power fails, and every unsettled name comes back one way or another. */
    method LosePower()
      modifies `files, `lost
      ensures PowerLoss(old(Image()), Image())
    {
      var pending := lost;
      while pending != {}
        invariant pending <= lost == old(lost)
        invariant forall n :: May(old(Image()), n, Lookup(files, n))
        decreases pending
      {
        var e :| e in pending;
        pending := pending - {e};
        ghost var was := files;
        var resurfaces: bool := *;
        if resurfaces {
          match e.1 {
            case None => files := files - {e.0};
            case Some(c) => files := files[e.0 := c];
          }
          assert May(old(Image()), e.0, e.1) by {
            assert e == (e.0, e.1);
          }
          assert forall n :: Lookup(files, n) == if n == e.0 then e.1 else Lookup(was, n);
        }
      }
      lost := {};
    }

    // ---------- revocation ----------

    method RevokePending(packages: map<Sha, Binding>) returns (r: Reply<()>)
      requires Valid()
      modifies `files, `lost, `trouble
      ensures Valid()
      ensures Pending !in old(files) ==> r == Ok(()) && Image() == old(Image()) && trouble == old(trouble)
      ensures forall j | LiveGuard(old(Image()), j) :: RevocationTold(old(trouble), j, r, trouble, Image())
      ensures forall j | LiveGuard(old(Image()), j) ::
                Revocation(old(Image()), j, Lookup(packages, j.candidate.sha), r, Image())
    {
      hide Inv, Past;
      if Pending !in files {
        return Ok(());
      }
      RecordsAreReadable(Image(), committed, Pending);
      var j := files[Pending].journal;
      RecoveryAccepts(Image(), committed, j);
      if Lookup(packages, j.candidate.sha) != Some(j.candidate.binding) {
        return Refused(PackageChanged);
      }
      var destination := Canonical(j.candidate.sha);
      if destination in files {
        if files[destination] != ReceiptFile(j.candidate) && Some(files[destination]) != PreviousFile(j) {
          return Refused(ReceiptChanged);
        }
      } else if j.previous.Some? {
        return Refused(PreviousMissing);
      }
      if ArchiveOf(j) in files && files[ArchiveOf(j)] != JournalFile(j) {
        return Refused(HistoryChanged);
      }
      r := Retract(j);
    }

    method Retract(j: Journal) returns (r: Reply<()>)
      requires Valid() && LiveGuard(Image(), j)
      modifies `files, `lost, `trouble
      ensures Valid()
      ensures RevocationTold(old(trouble), j, r, trouble, Image())
      ensures Revocation(old(Image()), j, Some(j.candidate.binding), r, Image())
    {
      hide Inv, Past;
      var o := KeepHistory(j);
      RetractedDependsOnOthersOnly(files, old(files), j);
      NotLingering(old(trouble), trouble, Writing(ArchiveOf(j)), o);
      if o != Done {
        return Crashed(o);
      }
      o := RestoreCanonical(j);
      RetractedDependsOnOthersOnly(files, old(files), j);
      NotLingering(old(trouble), trouble, Writing(Canonical(j.candidate.sha)) + Removing(Canonical(j.candidate.sha)), o);
      if o != Done {
        return Crashed(o);
      }
      assert files - {Pending} == Retracted(files, j);
      o := DropRevokedGuard(j);
      assert files - Footprint(j) == old(files) - Footprint(j);
      RetractedDependsOnOthersOnly(files, old(files), j);
      r := if o == Done then Ok(()) else Crashed(o);
    }

    /** The revocation history, unless an earlier attempt already wrote it. */
    method KeepHistory(j: Journal) returns (o: Outcome)
      requires Valid() && LiveGuard(Image(), j)
      modifies `files, `lost, `trouble
      ensures Valid() && LiveGuard(Image(), j)
      ensures Noted(old(trouble), trouble, Writing(ArchiveOf(j)), o)
      ensures files - Footprint(j) == old(files) - Footprint(j)
      ensures forall e | e in lost && e.0 == Pending :: e in old(lost)
      ensures May(Image(), ArchiveOf(j), None) ==> May(old(Image()), ArchiveOf(j), None)
      ensures o == Done ==> Lookup(files, ArchiveOf(j)) == Some(JournalFile(j))
    {
      hide Inv, Past;
      RecoveryAccepts(Image(), committed, j);
      if ArchiveOf(j) in files {
        return Done;
      }
      ArchivePublished(Image(), committed, j);
      ArchiveKeepsPast(Image(), committed, anchored, j);
      o := WritePrivateJson(ArchiveOf(j), JournalFile(j));
      WriteKeepsValid(old(Image()), ArchiveOf(j), JournalFile(j), Image(), committed, anchored);
    }

    /** The canonical name as it was before the interrupted publication, made durable. */
    method RestoreCanonical(j: Journal) returns (o: Outcome)
      requires Valid() && LiveGuard(Image(), j)
      requires Lookup(files, ArchiveOf(j)) == Some(JournalFile(j))
      modifies `files, `lost, `trouble
      ensures Valid() && LiveGuard(Image(), j)
      ensures Noted(old(trouble), trouble, Writing(Canonical(j.candidate.sha)) + Removing(Canonical(j.candidate.sha)), o)
      ensures files - Footprint(j) == old(files) - Footprint(j)
      ensures forall e | e in lost && e.0 == Pending :: e in old(lost)
      ensures May(Image(), ArchiveOf(j), None) ==> May(old(Image()), ArchiveOf(j), None)
      ensures Lookup(files, ArchiveOf(j)) == Some(JournalFile(j))
      ensures o == Done ==> lost == {} && Lookup(files, Canonical(j.candidate.sha)) == PreviousFile(j)
    {
      hide Inv, Past;
      var destination := Canonical(j.candidate.sha);
      PreviousRestored(Image(), committed, j);
      RestoringKeepsPast(Image(), committed, anchored, j);
      match j.previous {
        case None =>
          if destination in files {
            o := Unlink(destination);
            if o != Done {
              return;
            }
          }
          ghost var before := Image();
          o := SyncDirectory(SyncOfUnlink(destination));
          DisturbanceKeepsInv(before, Image(), committed);
          DisturbanceKeepsPast(before, Image(), committed, anchored);
        case Some(p) =>
          o := WritePrivateJson(destination, ReceiptFile(p));
          WriteKeepsValid(old(Image()), destination, ReceiptFile(p), Image(), committed, anchored);
      }
    }

    /** Nothing but the guard is left; a failed last fsync can only bring the guard back. */
    method DropRevokedGuard(j: Journal) returns (o: Outcome)
      requires Valid() && LiveGuard(Image(), j) && lost == {}
      requires Lookup(files, Canonical(j.candidate.sha)) == PreviousFile(j)
      requires Lookup(files, ArchiveOf(j)) == Some(JournalFile(j))
      modifies `files, `lost, `trouble
      ensures Valid()
      ensures trouble == old(trouble) + [Lingering()] ==> o == Done
      ensures trouble == old(trouble) ==> lost == {}
      ensures trouble == old(trouble) + [Lingering()] || Noted(old(trouble), trouble, Removing(Pending), o)
      ensures files == old(files) || files == old(files) - {Pending}
      ensures lost <= {(Pending, Some(JournalFile(j)))}
      ensures o == Done ==> files == old(files) - {Pending}
    {
      hide Inv, Past;
      GuardRemoved(Image(), committed, j);
      RemovalKeepsPast(Image(), committed, anchored, j);
      o := Unlink(Pending);
      NotLingering(old(trouble), trouble, {UnlinkOf(Pending)}, o);
      if o != Done {
        return;
      }
      ghost var before := Image();
      o := SyncDirectory(SyncOfUnlink(Pending));
      if o != Failed {
        NotLingering(old(trouble), trouble, {SyncOfUnlink(Pending)}, o);
      }
      DisturbanceKeepsInv(before, Image(), committed);
      DisturbanceKeepsPast(before, Image(), committed, anchored);
      if o == Failed {
        o := Done;
      }
    }

    // ---------- publication ----------

    /** The directory scan of a publication: the highest sequence in use, and the receipt that
        this release already has. */
    method Scan(sha: Sha, binding: Binding) returns (r: Reply<(int, Option<Receipt>)>)
      requires Valid() && Pending !in files
      ensures !r.Crashed?
      ensures r.Refused? <==> PackageDiffers(files, sha, binding)
      ensures r.Refused? ==> r.reason == PackageChanged
      ensures r.Ok? ==>
                && Fresh(files, r.value.0 + 1)
                && (r.value.0 == 0 || exists n | n in files :: SequenceAt(files, n) == r.value.0)
                && Lookup(files, Canonical(sha)) == AsFile(r.value.1)
    {
      hide Inv, Past;
      var names, sequence, previous := files.Keys, 0, None;
      var seen: set<int> := {};
      while names != {}
        invariant names <= files.Keys && 0 <= sequence
        invariant sequence == 0 || exists n | n in files :: SequenceAt(files, n) == sequence
        invariant forall n | n in files && n !in names :: SequenceAt(files, n) <= sequence
        invariant forall q | q in seen :: exists m | m in files :: m !in names && SequenceAt(files, m) == q
        invariant forall m | m in files && m !in names :: WellFormed(m, files[m])
        invariant previous == if Canonical(sha) in files.Keys - names then Lookup(files, Canonical(sha)) else None
        invariant Canonical(sha) in files.Keys - names ==> !PackageDiffers(files, sha, binding)
        decreases names
      {
        var n :| n in names;
        names := names - {n};
        RecordsAreReadable(Image(), committed, n);
        OtherSequencesDiffer(Image(), committed, n);
        if !WellFormed(n, files[n]) {
          return Refused(InvalidRecord);
        }
        if SequenceAt(files, n) > sequence {
          sequence := SequenceAt(files, n);
        }
        if n.Canonical? {
          var receipt := files[n].receipt;
          if receipt.sequence in seen {
            return Refused(DuplicateSequence);
          }
          seen := seen + {receipt.sequence};
          if n.sha == sha {
            if receipt.binding != binding {
              return Refused(PackageChanged);
            }
            previous := Some(files[n]);
          }
        }
      }
      return Ok((sequence, if previous == None then None else Some(previous.value.receipt)));
    }

    method AtomicReceipt(sha: Sha, binding: Binding, succeededAt: int, runNumber: Option<string>,
                         apiPid: int, workerPid: int)
      returns (r: Reply<Receipt>)
      requires Valid() && 0 < apiPid && 0 < workerPid && apiPid != workerPid
      modifies `files, `lost, `committed, `trouble
      ensures Valid() && old(committed) <= committed
      ensures old(trouble) <= trouble && (r.Refused? ==> trouble == old(trouble))
      ensures PublicationTold(old(files), sha, binding, trouble[|old(trouble)|..], r, Image())
      ensures Publication(old(Image()), old(committed), sha, binding, r, Image(), committed)
      ensures r.Ok? ==> r.value == Receipt(sha, r.value.sequence, binding, succeededAt, runNumber, apiPid, workerPid)
      // The sequence is above everything ever committed, and without a trace of the guard the receipt stays.
      ensures r.Ok? ==> forall past | past in old(committed) :: past.sequence < r.value.sequence
      ensures r.Ok? && Pending !in files && lost == {} ==> Anchored(Image(), r.value)
    {
      hide Inv, Past;
      if Pending in files {
        return Refused(RecoveryRequired);
      }
      var scan := Scan(sha, binding);
      if scan.Refused? {
        return Refused(scan.reason);
      }
      var receipt := Receipt(sha, scan.value.0 + 1, binding, succeededAt, runNumber, apiPid, workerPid);
      var j := Journal(receipt, scan.value.1);
      assert ValidJournal(j) by {
        if Canonical(sha) in files {
          RecordsAreReadable(Image(), committed, Canonical(sha));
        }
      }
      PastRemembers(Image(), committed, anchored);
      FreshIsNew(Image(), committed, receipt.sequence);
      r := Publish(j);
      if r.Ok? && Pending !in files && lost == {} {
        assert Canonical(sha) in files - {Pending};
        AnchoredWhenGuardIsGone(Image(), committed, receipt);
      }
    }

    method Publish(j: Journal) returns (r: Reply<Receipt>)
      requires Valid() && Pending !in files
      requires ValidJournal(j) && Fresh(files, j.candidate.sequence)
      requires Lookup(files, Canonical(j.candidate.sha)) == PreviousFile(j)
      modifies `files, `lost, `committed, `trouble
      ensures Valid() && old(committed) <= committed
      ensures old(trouble) <= trouble
      ensures PublicationTold(old(files), j.candidate.sha, j.candidate.binding, trouble[|old(trouble)|..], r, Image())
      ensures !r.Refused?
      ensures r.Ok? ==>
                && r.value == j.candidate && committed == old(committed) + {j.candidate}
                && files - {Pending} == old(files)[Canonical(j.candidate.sha) := ReceiptFile(j.candidate)]
                && forall e | e in lost :: e.0 == Pending
      ensures r.Crashed? && Pending !in files ==>
                || (committed == old(committed) && SameReceipts(old(files), files))
                || (&& r.how == Killed && j.candidate in committed
                    && Lookup(files, Canonical(j.candidate.sha)) == CandidateFile(j))
    {
      hide Inv, Past;
      ghost var start := files;
      PublicationFiles(start, j);
      var o := PublishGuard(j);
      if o != Done {
        return Crashed(o);
      }
      assert files == start[Pending := JournalFile(j)];
      o := PublishCandidate(j);
      if o == Killed {
        return Crashed(Killed);
      }
      if o == Failed {
        o := Compensate(j, start);
        return Crashed(o);
      }
      o := DropCommittedGuard(j);
      if o == Killed {
        return Crashed(Killed);
      }
      return Ok(j.candidate);
    }

    /** The exception path: revoke, and re-raise whatever the revocation does. */
    method Compensate(j: Journal, ghost start: Files) returns (o: Outcome)
      requires Valid() && LiveGuard(Image(), j)
      requires files - Footprint(j) == start - Footprint(j)
      requires Lookup(start, Canonical(j.candidate.sha)) == PreviousFile(j)
      modifies `files, `lost, `trouble
      ensures Valid() && o != Done && old(trouble) <= trouble
      ensures trouble == old(trouble) || trouble == old(trouble) + [Lingering()] ==>
                o == Failed && files == Retracted(start, j) && (trouble == old(trouble) ==> lost == {})
      ensures Pending !in files ==> SameReceipts(start, files)
    {
      hide Inv, Past;
      RetractedDependsOnOthersOnly(files, start, j);
      RetractedRestoresReceipts(start, j);
      var undone := Retract(j);
      o := if undone == Crashed(Killed) then Killed else Failed;
    }

    method PublishGuard(j: Journal) returns (o: Outcome)
      requires Valid() && Pending !in files
      requires ValidJournal(j) && Fresh(files, j.candidate.sequence)
      requires Lookup(files, Canonical(j.candidate.sha)) == PreviousFile(j)
      modifies `files, `lost, `trouble
      ensures Valid()
      ensures Noted(old(trouble), trouble, Writing(Pending), o)
      ensures files == old(files) || files == old(files)[Pending := JournalFile(j)]
      ensures o == Done ==> LiveGuard(Image(), j) && lost == {}
    {
      hide Inv, Past;
      GuardPublished(Image(), committed, j);
      GuardKeepsPast(Image(), committed, anchored, j);
      o := WritePrivateJson(Pending, JournalFile(j));
      WriteKeepsValid(old(Image()), Pending, JournalFile(j), Image(), committed, anchored);
    }

    /** The commit point: the canonical file and its directory entry are durable. */
    method PublishCandidate(j: Journal) returns (o: Outcome)
      requires Valid() && LiveGuard(Image(), j) && lost == {}
      modifies `files, `lost, `committed, `trouble
      ensures Valid() && LiveGuard(Image(), j)
      ensures Noted(old(trouble), trouble, Writing(Canonical(j.candidate.sha)), o)
      ensures files - Footprint(j) == old(files) - Footprint(j)
      ensures committed == old(committed) + if o == Done then {j.candidate} else {}
      ensures o == Done ==> lost == {} && files == old(files)[Canonical(j.candidate.sha) := ReceiptFile(j.candidate)]
    {
      hide Inv, Past;
      RecoveryAccepts(Image(), committed, j);
      CandidatePublished(Image(), committed, j);
      CandidateKeepsPast(Image(), committed, anchored, j);
      o := WritePrivateJson(Canonical(j.candidate.sha), ReceiptFile(j.candidate));
      WriteKeepsValid(old(Image()), Canonical(j.candidate.sha), ReceiptFile(j.candidate), Image(), committed, anchored);
      if o == Done {
        CommitKeepsInv(Image(), committed, j.candidate);
        CommitKeepsPast(Image(), committed, anchored, j);
        committed := committed + {j.candidate};
      }
    }

    /** Guard cleanup after the commit point: its I/O errors are reported, never raised. */
    method DropCommittedGuard(j: Journal) returns (o: Outcome)
      requires Valid() && LiveGuard(Image(), j) && lost == {} && j.candidate in committed
      requires Lookup(files, Canonical(j.candidate.sha)) == CandidateFile(j)
      requires forall n | n in files && n.Archive? :: n.sequence != j.candidate.sequence
      modifies `files, `lost, `trouble
      ensures Valid()
      ensures Noted(old(trouble), trouble, Removing(Pending), o)
      ensures files == old(files) || files == old(files) - {Pending}
      ensures forall e | e in lost :: e.0 == Pending
      ensures o == Done ==> files == old(files) - {Pending} && lost == {}
    {
      hide Inv, Past;
      CommittedGuardRemoved(Image(), committed, j);
      RemovalKeepsPast(Image(), committed, anchored, j);
      o := Unlink(Pending);
      if o == Done {
        ghost var before := Image();
        o := SyncDirectory(SyncOfUnlink(Pending));
        DisturbanceKeepsInv(before, Image(), committed);
        DisturbanceKeepsPast(before, Image(), committed, anchored);
      }
    }
  }
}
