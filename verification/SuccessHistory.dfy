/** Whole lives of the success directory: the command line, its readers, and any run of them. */
module SuccessHistory {
  import opened CrashDirectory
  import opened Optional
  import opened ReleaseSuccess
  import opened SuccessPast
  import opened SuccessRecorder

  const MAX_FACTS := 2048

  datatype Fact = Fact(receipt: Receipt, revoked: bool)

  function FactAt(files: Files, n: Name): Fact
    requires n in files
  {
    match files[n]
    case ReceiptFile(r) => Fact(r, false)
    case JournalFile(j) => Fact(j.candidate, true)
  }

  datatype Projection =
    | Facts(bySequence: map<int, Fact>)
    | PublicationPending | EvidenceCapacity | UnknownFile | DuplicateRelease | CurrentMissing

  function Recorded(p: Reply<Receipt>): Reply<Option<Receipt>> {
    match p
    case Ok(receipt) => Ok(Some(receipt))
    case Refused(reason) => Refused(reason)
    case Crashed(how) => Crashed(how)
  }

  function Revoked(p: Reply<()>): Reply<Option<Receipt>> {
    match p
    case Ok(_) => Ok(None)
    case Refused(reason) => Refused(reason)
    case Crashed(how) => Crashed(how)
  }

  /** `record`: a release is recorded only after its package and its processes were observed.  With the
      revoke flag a pending publication is revoked instead, and there is no receipt to return. */
  method Record(store: SuccessDirectory, packages: map<Sha, Binding>, sha: Sha, revoke: bool, observed: bool,
                succeededAt: int, runNumber: Option<string>, apiPid: int, workerPid: int)
    returns (r: Reply<Option<Receipt>>)
    requires store.Valid() && 0 < apiPid && 0 < workerPid && apiPid != workerPid
    modifies store`files, store`lost, store`committed, store`trouble
    ensures store.Valid() && old(store.committed) <= store.committed
    ensures r.Ok? && !revoke ==>
              && observed && Pending !in old(store.files) && r.value.Some? && r.value.value in store.committed
              && Lookup(packages, sha) == Some(r.value.value.binding)
              && Lookup(store.files, Canonical(sha)) == Some(ReceiptFile(r.value.value))
    ensures r.Ok? && revoke ==> r.value == None && Pending !in store.files
    ensures revoke || !observed || sha !in packages ==> store.committed == old(store.committed)
    // Which request is refused, and why.
    ensures sha !in packages ==> r == Refused(NotObserved)
    ensures sha in packages && !revoke ==>
              (r.Refused? <==> Pending in old(store.files) || !observed || PackageDiffers(old(store.files), sha, packages[sha]))
    ensures sha in packages && !revoke && r.Refused? ==>
              r.reason == if Pending in old(store.files) then RecoveryRequired else if !observed then NotObserved else PackageChanged
    ensures r.Refused? ==> store.Image() == old(store.Image()) && store.trouble == old(store.trouble)
    // The revoke flag works on whatever publication is pending, and does nothing when none is.
    ensures sha in packages && revoke && Pending !in old(store.files) ==> r == Ok(None) && store.Image() == old(store.Image())
    ensures sha in packages && revoke ==>
              forall j | LiveGuard(old(store.Image()), j) ::
                exists p | r == Revoked(p) ::
                  && Revocation(old(store.Image()), j, Lookup(packages, j.candidate.sha), p, store.Image())
                  && RevocationTold(old(store.trouble), j, p, store.trouble, store.Image())
    ensures sha in packages && !revoke && !r.Refused? ==>
              exists p | r == Recorded(p) ::
                && Publication(old(store.Image()), old(store.committed), sha, packages[sha], p, store.Image(), store.committed)
                && old(store.trouble) <= store.trouble
                && PublicationTold(old(store.files), sha, packages[sha], store.trouble[|old(store.trouble)|..], p, store.Image())
  {
    hide Inv, Past, PublicationTold;
    if sha !in packages {
      return Refused(NotObserved);
    }
    if revoke {
      if Pending in store.files {
        RecordsAreReadable(store.Image(), store.committed, Pending);
      }
      var revoked := store.RevokePending(packages);
      assert Pending in old(store.files) ==> LiveGuard(old(store.Image()), old(store.files)[Pending].journal);
      return Revoked(revoked);
    }
    if Pending in store.files {
      return Refused(RecoveryRequired);
    }
    if !observed {
      return Refused(NotObserved);
    }
    var recorded := store.AtomicReceipt(sha, packages[sha], succeededAt, runNumber, apiPid, workerPid);
    assert recorded.Ok? ==> Canonical(sha) in store.files - {Pending};
    return Recorded(recorded);
  }

  /** `verified_success`: what the release cleanup takes as evidence of a rollback target. */
  method VerifiedSuccess(store: SuccessDirectory, sha: Sha, binding: Binding) returns (r: Reply<Receipt>)
    requires store.Valid()
    ensures r.Ok? <==> Pending !in store.files && Canonical(sha) in store.files && !PackageDiffers(store.files, sha, binding)
    ensures r.Ok? ==>
              && Lookup(store.files, Canonical(sha)) == Some(ReceiptFile(r.value))
              && r.value in store.committed
              && r.value.binding == binding
              && forall n | n in store.files && n.Archive? :: n.sequence != r.value.sequence
  {
    hide Inv, Past;
    if Pending in store.files {
      return Refused(RecoveryRequired);
    }
    var n := Canonical(sha);
    if n in store.files {
      RecordsAreReadable(store.Image(), store.committed, n);
    }
    if n !in store.files || !WellFormed(n, store.files[n]) {
      return Refused(InvalidRecord);
    }
    if store.files[n].receipt.binding != binding {
      return Refused(PackageChanged);
    }
    UnguardedReceiptsAreSound(store.Image(), store.committed, sha);
    return Ok(store.files[n].receipt);
  }

  /** `project`: every receipt and every revocation becomes exactly one fact. */
  method Project(store: SuccessDirectory, current: Sha) returns (p: Projection)
    requires store.Valid()
    ensures !p.DuplicateRelease? && !p.UnknownFile?
    ensures p.PublicationPending? <==> Pending in store.files
    ensures p.EvidenceCapacity? <==> Pending !in store.files && |store.files| > 2048
    ensures p.CurrentMissing? <==> Pending !in store.files && |store.files| <= 2048 && Canonical(current) !in store.files
    ensures p.Facts? ==>
              && (forall sha | Canonical(sha) in store.files ::
                    && store.files[Canonical(sha)].ReceiptFile?
                    && var receipt := store.files[Canonical(sha)].receipt;
                       Lookup(p.bySequence, receipt.sequence) == Some(Fact(receipt, false)))
              && (forall q, sha | Archive(q, sha) in store.files ::
                    && store.files[Archive(q, sha)].JournalFile?
                    && Lookup(p.bySequence, q) == Some(Fact(store.files[Archive(q, sha)].journal.candidate, true)))
              && (forall q | q in p.bySequence :: exists n | n in store.files :: SequenceAt(store.files, n) == q)
  {
    hide Inv, Past;
    if Pending in store.files {
      return PublicationPending;
    }
    ghost var d := store.Image();
    var names, count := store.files.Keys, 0;
    var facts: map<int, Fact> := map[];
    var seen := false;
    while names != {}
      invariant names <= store.files.Keys && count + |names| == |store.files| && count <= MAX_FACTS
      invariant forall n | n in store.files.Keys - names ::
                  && SequenceAt(store.files, n) in facts
                  && facts[SequenceAt(store.files, n)] == FactAt(store.files, n)
      invariant forall q | q in facts :: exists n | n in store.files.Keys - names :: SequenceAt(store.files, n) == q
      invariant seen <==> Canonical(current) in store.files.Keys - names
      decreases names
    {
      var n :| n in names;
      names, count := names - {n}, count + 1;
      if count > MAX_FACTS {
        return EvidenceCapacity;
      }
      RecordsAreReadable(d, store.committed, n);
      OtherSequencesDiffer(d, store.committed, n);
      if !WellFormed(n, store.files[n]) {
        return UnknownFile;
      }
      var sequence := SequenceAt(store.files, n);
      if sequence in facts {
        return DuplicateRelease;
      }
      facts := facts[sequence := FactAt(store.files, n)];
      seen := seen || n == Canonical(current);
    }
    forall n | n in store.files
      ensures WellFormed(n, store.files[n])
    {
      RecordsAreReadable(d, store.committed, n);
    }
    assert forall sha | Canonical(sha) in store.files :: Canonical(sha) in store.files.Keys - names;
    assert forall q, sha | Archive(q, sha) in store.files :: Archive(q, sha) in store.files.Keys - names;
    p := if seen then Facts(facts) else CurrentMissing;
  }

  // ---------- every run ----------

  /** The promise to every reader, in whatever state a run has left the directory. */
  ghost predicate Trustworthy(files: Files, committed: set<Receipt>) {
    Pending !in files ==>
      && (forall sha | Canonical(sha) in files ::
            && files[Canonical(sha)].ReceiptFile?
            && files[Canonical(sha)].receipt in committed
            && forall n | n in files && n.Archive? :: n.sequence != files[Canonical(sha)].receipt.sequence)
      && (forall n, n' | n in files && n' in files && SequenceAt(files, n) == SequenceAt(files, n') :: n == n')
  }

  lemma InvIsTrustworthy(d: Store, committed: set<Receipt>)
    requires Inv(d, committed)
    ensures Trustworthy(d.live, committed)
  {
    if Pending !in d.live {
      forall sha | Canonical(sha) in d.live {
        UnguardedReceiptsAreSound(d, committed, sha);
      }
      forall n, n' | n in d.live && n' in d.live && SequenceAt(d.live, n) == SequenceAt(d.live, n')
        ensures n == n'
      {
        UnguardedSequencesAreDistinct(d, committed, n, n');
      }
    }
  }

  lemma PastIsUnique(d: Store, committed: set<Receipt>, anchored: set<Receipt>)
    requires Past(d, committed, anchored)
    ensures forall r, r' | r in committed && r' in committed && r.sequence == r'.sequence :: r == r'
    ensures forall r | r in anchored :: Anchored(d, r)
  {
  }

  lemma MoreAnchored(d: Store, committed: set<Receipt>, anchored: set<Receipt>, more: set<Receipt>)
    requires Past(d, committed, anchored) && forall r | r in more :: Anchored(d, r)
    ensures Past(d, committed, anchored + more)
  {
  }

  /** Any interleaving of recordings, revocations, I/O errors, kills and power losses. */
  method Run(store: SuccessDirectory, steps: nat)
    requires store.Valid()
    modifies store
    ensures store.Valid() && old(store.committed) <= store.committed
    ensures Trustworthy(store.files, store.committed)
    ensures forall d | Disturbed(store.Image(), d) :: Trustworthy(d.live, store.committed)
    // No sequence is ever committed twice, and a receipt that was anchored once stays anchored.
    ensures forall r, r' | r in store.committed && r' in store.committed && r.sequence == r'.sequence :: r == r'
    ensures forall r | r in old(store.committed) && Anchored(old(store.Image()), r) :: Anchored(store.Image(), r)
  {
    hide Inv, Past, Anchored;
    ghost var more := set r | r in store.committed && Anchored(store.Image(), r);
    MoreAnchored(store.Image(), store.committed, store.anchored, more);
    store.anchored := store.anchored + more;
    var left := steps;
    while left > 0
      invariant store.Valid() && old(store.committed) <= store.committed && more <= store.anchored
    {
      left := left - 1;
      var powerFails: bool := *;
      if powerFails {
        ghost var before := store.Image();
        store.LosePower();
        DisturbanceKeepsInv(before, store.Image(), store.committed);
        DisturbanceKeepsPast(before, store.Image(), store.committed, store.anchored);
      } else {
        var packages: map<Sha, Binding> := *;
        var sha: Sha := *;
        var revoke: bool := *;
        var observed: bool := *;
        var at: int := *;
        var run: Option<string> := *;
        var api: nat := *;
        var worker: nat := *;
        if 0 < api && 0 < worker && api != worker {
          var r := Record(store, packages, sha, revoke, observed, at, run, api, worker);
        }
      }
    }
    InvIsTrustworthy(store.Image(), store.committed);
    PastIsUnique(store.Image(), store.committed, store.anchored);
    forall d | Disturbed(store.Image(), d)
      ensures Trustworthy(d.live, store.committed)
    {
      DisturbanceKeepsInv(store.Image(), d, store.committed);
      InvIsTrustworthy(d, store.committed);
    }
  }
}
