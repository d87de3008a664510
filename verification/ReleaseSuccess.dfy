/** The release-success journal: names, records and the invariant that every step keeps. */
module ReleaseSuccess {
  import opened CrashDirectory
  import opened Optional

  type Sha = string

  /** The four digests that bind a receipt to the bytes of a release package. */
  datatype Binding = Binding(manifest: string, package: string, binary: string, schema: string)

  datatype Receipt = Receipt(
    sha: Sha, sequence: int, binding: Binding,
    succeededAt: int, runNumber: Option<string>, apiPid: int, workerPid: int)

  datatype Journal = Journal(candidate: Receipt, previous: Option<Receipt>)

  /** `.publication-pending.json`, `<sha>.json` and `revoked-<sequence>-<sha>.json`. */
  datatype Name = Pending | Canonical(sha: Sha) | Archive(sequence: int, sha: Sha)

  datatype Record = ReceiptFile(receipt: Receipt) | JournalFile(journal: Journal)

  type Files = map<Name, Record>
  type Store = Disk<Name, Record>

  predicate ValidReceipt(r: Receipt) {
    0 < r.sequence && 0 < r.apiPid && 0 < r.workerPid && r.apiPid != r.workerPid
  }

  predicate ValidJournal(j: Journal) {
    && ValidReceipt(j.candidate)
    && (j.previous.Some? ==>
          var p := j.previous.value;
          && ValidReceipt(p)
          && p.sha == j.candidate.sha
          && p.sequence < j.candidate.sequence
          && p.binding == j.candidate.binding)
  }

  function AsFile(r: Option<Receipt>): Option<Record> {
    match r
    case None => None
    case Some(p) => Some(ReceiptFile(p))
  }

  function PreviousFile(j: Journal): Option<Record> {
    AsFile(j.previous)
  }

  function CandidateFile(j: Journal): Option<Record> {
    Some(ReceiptFile(j.candidate))
  }

  function ArchiveOf(j: Journal): Name {
    Archive(j.candidate.sequence, j.candidate.sha)
  }

  /** What `read_success_receipt` and `read_pending_success` accept under each name. */
  predicate WellFormed(n: Name, c: Record) {
    match n
    case Pending => c.JournalFile? && ValidJournal(c.journal)
    case Canonical(sha) => c.ReceiptFile? && ValidReceipt(c.receipt) && c.receipt.sha == sha
    case Archive(sequence, sha) =>
      c.JournalFile? && ValidJournal(c.journal) && n == ArchiveOf(c.journal)
  }

  function Footprint(j: Journal): set<Name> {
    {Pending, Canonical(j.candidate.sha), ArchiveOf(j)}
  }

  function GuardFile(g: Option<Journal>): Option<Record> {
    match g
    case None => None
    case Some(j) => Some(JournalFile(j))
  }

  // ---------- what a store may hold, now or after a power loss ----------

  datatype View = View(
    current: Option<Journal>,
    guards: iset<Option<Journal>>,
    kept: iset<Receipt>,
    missing: iset<Sha>,
    archives: iset<Journal>)

  ghost function ViewOf(d: Store): View {
    View(
      if Pending in d.live && d.live[Pending].JournalFile? then Some(d.live[Pending].journal) else None,
      iset g | May(d, Pending, GuardFile(g)),
      iset r: Receipt | May(d, Canonical(r.sha), Some(ReceiptFile(r))),
      iset sha | May(d, Canonical(sha), None),
      iset a: Journal | May(d, ArchiveOf(a), Some(JournalFile(a))))
  }

  /** `r` was committed once, and no archive revokes its sequence. */
  ghost predicate Sound(v: View, committed: set<Receipt>, r: Receipt) {
    r in committed && forall a | a in v.archives :: a.candidate.sequence != r.sequence
  }

  /** Wherever the guard can be missing, every receipt is sound. */
  ghost predicate Settled(v: View, committed: set<Receipt>) {
    None in v.guards ==> forall r | r in v.kept :: Sound(v, committed, r)
  }

  /** A guard excuses exactly its own candidate; everything else is sound. */
  ghost predicate Covered(v: View, committed: set<Receipt>) {
    forall j, r | Some(j) in v.guards && r in v.kept ::
      if r.sha == j.candidate.sha
      then r == j.candidate || j.previous == Some(r)
      else r.sequence != j.candidate.sequence && Sound(v, committed, r)
  }

  /** The previous receipt of a guard is never missing and can always be put back. */
  ghost predicate Restorable(v: View, committed: set<Receipt>) {
    forall j | Some(j) in v.guards ::
      && ValidJournal(j)
      && (j.previous.Some? ==>
            && j.candidate.sha !in v.missing
            && Sound(v, committed, j.previous.value)
            && forall r | r in v.kept && r.sequence == j.previous.value.sequence :: r == j.previous.value)
  }

  ghost predicate DistinctSequences(v: View) {
    && (forall r, r' | r in v.kept && r' in v.kept && r.sequence == r'.sequence :: r == r')
    && (forall a, a' | a in v.archives && a' in v.archives && SameSequence(a, a') :: a == a')
    && (forall j, a | Some(j) in v.guards && a in v.archives && SameSequence(j, a) :: a == j)
    && (forall j, j' | Some(j) in v.guards && Some(j') in v.guards && SameSequence(j, j') :: j == j')
  }

  ghost predicate SameSequence(j: Journal, j': Journal) {
    j.candidate.sequence == j'.candidate.sequence
  }

  /** While the current guard is not yet durable, its release still has the previous receipt; and
      no other possible guard would put a receipt back under the current guard's sequence. */
  ghost predicate Untouched(v: View) {
    v.current.Some? ==>
      var j := v.current.value;
      && Some(j) in v.guards
      && forall g | g in v.guards && g != Some(j) ::
           && (forall r | r in v.kept && r.sha == j.candidate.sha :: j.previous == Some(r))
           && (g.Some? && g.value.previous.Some? ==>
                 g.value.previous.value.sequence != j.candidate.sequence)
  }

  ghost predicate Good(v: View, committed: set<Receipt>) {
    && Settled(v, committed)
    && Covered(v, committed)
    && Restorable(v, committed)
    && DistinctSequences(v)
    && Untouched(v)
  }

  // ---------- the invariant ----------

  ghost predicate Typed(d: Store) {
    forall n, c | May(d, n, Some(c)) :: WellFormed(n, c)
  }

  /** Only the guard, and the names it names, can have unsettled bindings. */
  ghost predicate Local(d: Store) {
    forall n, v | (n, v) in d.lost ::
      || n == Pending
      || (Pending in d.live && d.live[Pending].JournalFile? && n in Footprint(d.live[Pending].journal))
  }

  /** A guard that was removed leaves its sequence in use. */
  ghost predicate Spent(d: Store) {
    Pending !in d.live ==>
      forall j | May(d, Pending, Some(JournalFile(j))) ::
        || Lookup(d.live, Canonical(j.candidate.sha)) == CandidateFile(j)
        || Lookup(d.live, ArchiveOf(j)) == Some(JournalFile(j))
  }

  ghost predicate Inv(d: Store, committed: set<Receipt>) {
    Typed(d) && Local(d) && Spent(d) && Good(ViewOf(d), committed)
  }

  ghost predicate LiveGuard(d: Store, j: Journal) {
    Lookup(d.live, Pending) == Some(JournalFile(j))
  }

  lemma EmptyStore()
    ensures Inv(Disk(map[], {}), {})
  {
  }

  /** Power loss and background write-back keep the invariant. */
  lemma DisturbanceKeepsInv(d: Store, d': Store, committed: set<Receipt>)
    requires Inv(d, committed) && Disturbed(d, d')
    ensures Inv(d', committed)
  {
    DisturbedShrinks(d, d');
    ShrunkenView(ViewOf(d), ViewOf(d'), committed);
  }

  lemma ShrunkenView(v: View, v': View, committed: set<Receipt>)
    requires Good(v, committed)
    requires v'.guards <= v.guards && v'.kept <= v.kept && v'.missing <= v.missing && v'.archives <= v.archives
    requires v'.current.Some? ==> Some(v'.current.value) in v'.guards
    requires v'.current == v.current || forall g, g' | g in v'.guards && g' in v'.guards :: g == g'
    ensures Good(v', committed)
  {
  }

  // ---------- the steps of the protocol, on views ----------

  lemma ViewWithGuard(v: View, committed: set<Receipt>, j: Journal)
    requires Good(v, committed) && v.current == None && None in v.guards && ValidJournal(j)
    requires forall r | r in v.kept :: r.sequence < j.candidate.sequence
    requires forall a | a in v.archives :: a.candidate.sequence < j.candidate.sequence
    requires forall g | Some(g) in v.guards :: g.candidate.sequence < j.candidate.sequence
    requires forall r | r in v.kept && r.sha == j.candidate.sha :: j.previous == Some(r)
    requires j.previous.Some? ==> j.previous.value in v.kept && j.candidate.sha !in v.missing
    ensures Good(v.(current := Some(j), guards := v.guards + iset{Some(j)}), committed)
  {
    var v' := v.(current := Some(j), guards := v.guards + iset{Some(j)});
    assert DistinctSequences(v') by {
      hide Settled, Untouched, Covered, Restorable;
    }
    assert Covered(v', committed) by {
      hide DistinctSequences, Untouched, Restorable;
    }
  }

  lemma ViewWithCandidate(v: View, committed: set<Receipt>, j: Journal)
    requires Good(v, committed) && v.current == Some(j) && v.guards == iset{Some(j)}
    ensures Good(v.(kept := v.kept + iset{j.candidate}), committed)
  {
    var v' := v.(kept := v.kept + iset{j.candidate});
    assert DistinctSequences(v') by {
      hide Settled, Untouched, Sound;
    }
    assert Covered(v', committed) && Restorable(v', committed) by {
      hide Settled, DistinctSequences, Untouched;
    }
  }

  lemma ViewWithoutGuard(v: View, committed: set<Receipt>, j: Journal)
    requires Good(v, committed) && v.guards == iset{Some(j)}
    requires forall r | r in v.kept && r.sha == j.candidate.sha :: Sound(v, committed, r)
    ensures Good(v.(current := None, guards := v.guards + iset{None}), committed)
  {
  }

  lemma ViewWithArchive(v: View, committed: set<Receipt>, j: Journal)
    requires Good(v, committed) && v.current == Some(j)
    ensures Good(v.(archives := v.archives + iset{j}), committed)
  {
    assert ValidJournal(j);
    var v' := v.(archives := v.archives + iset{j});
    assert DistinctSequences(v') by {
      hide Settled, Untouched, Covered, Restorable;
    }
  }

  lemma ViewWithPrevious(v: View, committed: set<Receipt>, j: Journal, p: Receipt)
    requires Good(v, committed) && v.current == Some(j) && j.previous == Some(p)
    requires v.guards == iset{Some(j)}
    ensures Good(v.(kept := v.kept + iset{p}), committed)
  {
    assert ValidJournal(j);
  }

  lemma ViewWithoutClaim(v: View, committed: set<Receipt>, j: Journal)
    requires Good(v, committed) && v.current == Some(j) && j.previous == None
    requires v.guards == iset{Some(j)}
    ensures Good(v.(missing := v.missing + iset{j.candidate.sha}), committed)
  {
  }

  // ---------- the steps of the protocol, on stores ----------

  /** A sequence above every receipt and every archive that is live. */
  predicate Fresh(files: Files, sequence: int) {
    && 0 < sequence
    && (forall n | n in files && files[n].ReceiptFile? :: files[n].receipt.sequence < sequence)
    && (forall n | n in files && n.Archive? :: n.sequence < sequence)
  }

  /** While no guard is live, everything but the guard itself is durable. */
  lemma QuietStore(d: Store, committed: set<Receipt>, sequence: int)
    requires Inv(d, committed) && Pending !in d.live && Fresh(d.live, sequence)
    ensures forall n, w | n != Pending :: May(d, n, w) <==> w == Lookup(d.live, n)
    ensures forall r | r in ViewOf(d).kept :: r.sequence < sequence
    ensures forall a | a in ViewOf(d).archives :: a.candidate.sequence < sequence
    ensures forall g | Some(g) in ViewOf(d).guards :: g.candidate.sequence < sequence
  {
    forall g | Some(g) in ViewOf(d).guards
      ensures g.candidate.sequence < sequence
    {
      assert May(d, Pending, GuardFile(Some(g)));
    }
  }

  lemma GuardPublished(d: Store, committed: set<Receipt>, j: Journal)
    requires Inv(d, committed) && Pending !in d.live
    requires ValidJournal(j) && Fresh(d.live, j.candidate.sequence)
    requires Lookup(d.live, Canonical(j.candidate.sha)) == PreviousFile(j)
    ensures Inv(Replaced(d, Pending, JournalFile(j)), committed)
  {
    var d', v := Replaced(d, Pending, JournalFile(j)), ViewOf(d);
    QuietStore(d, committed, j.candidate.sequence);
    ViewWithGuard(v, committed, j);
    ViewOfGuard(d, j);
    assert Typed(d') && Local(d');
  }

  lemma ViewOfGuard(d: Store, j: Journal)
    ensures ViewOf(Replaced(d, Pending, JournalFile(j)))
         == ViewOf(d).(current := Some(j), guards := ViewOf(d).guards + iset{Some(j)})
  {
  }

  lemma CandidatePublished(d: Store, committed: set<Receipt>, j: Journal)
    requires Inv(d, committed) && LiveGuard(d, j) && d.lost == {}
    ensures Inv(Replaced(d, Canonical(j.candidate.sha), ReceiptFile(j.candidate)), committed)
  {
    var d', v := Replaced(d, Canonical(j.candidate.sha), ReceiptFile(j.candidate)), ViewOf(d);
    assert v.guards == iset{Some(j)};
    ViewWithCandidate(v, committed, j);
    assert ViewOf(d') == v.(kept := v.kept + iset{j.candidate});
  }

  /** The durable guard of a committed or of a revoked candidate may go. */
  lemma GuardRemoved(d: Store, committed: set<Receipt>, j: Journal)
    requires Inv(d, committed) && LiveGuard(d, j) && d.lost == {}
    requires || (&& Lookup(d.live, Canonical(j.candidate.sha)) == CandidateFile(j)
                 && Sound(ViewOf(d), committed, j.candidate))
             || (&& Lookup(d.live, Canonical(j.candidate.sha)) == PreviousFile(j)
                 && Lookup(d.live, ArchiveOf(j)) == Some(JournalFile(j)))
    ensures Inv(Unlinked(d, Pending), committed)
  {
    hide Good, ViewOf;
    ReleasedViewIsGood(d, committed, j);
    ViewOfNoGuard(d);
  }

  lemma ViewOfNoGuard(d: Store)
    ensures ViewOf(Unlinked(d, Pending)) == ViewOf(d).(current := None, guards := ViewOf(d).guards + iset{None})
  {
    assert forall n, w | n != Pending :: May(Unlinked(d, Pending), n, w) <==> May(d, n, w);
  }

  lemma ReleasedViewIsGood(d: Store, committed: set<Receipt>, j: Journal)
    requires Inv(d, committed) && LiveGuard(d, j) && d.lost == {}
    requires || (&& Lookup(d.live, Canonical(j.candidate.sha)) == CandidateFile(j)
                 && Sound(ViewOf(d), committed, j.candidate))
             || Lookup(d.live, Canonical(j.candidate.sha)) == PreviousFile(j)
    ensures var v := ViewOf(d);
            Good(v.(current := None, guards := v.guards + iset{None}), committed)
  {
    assert Some(j) in ViewOf(d).guards;
    assert ViewOf(d).guards == iset{Some(j)};
    ViewWithoutGuard(ViewOf(d), committed, j);
  }

  lemma CommittedGuardRemoved(d: Store, committed: set<Receipt>, j: Journal)
    requires Inv(d, committed) && LiveGuard(d, j) && d.lost == {} && j.candidate in committed
    requires Lookup(d.live, Canonical(j.candidate.sha)) == CandidateFile(j)
    requires forall n | n in d.live && n.Archive? :: n.sequence != j.candidate.sequence
    ensures Inv(Unlinked(d, Pending), committed)
  {
    hide Inv;
    forall a | a in ViewOf(d).archives
      ensures a.candidate.sequence != j.candidate.sequence
    {
      assert ArchiveOf(a) in d.live;
    }
    GuardRemoved(d, committed, j);
  }

  lemma ArchivePublished(d: Store, committed: set<Receipt>, j: Journal)
    requires Inv(d, committed) && LiveGuard(d, j)
    ensures Inv(Replaced(d, ArchiveOf(j), JournalFile(j)), committed)
  {
    var d', v := Replaced(d, ArchiveOf(j), JournalFile(j)), ViewOf(d);
    ViewWithArchive(v, committed, j);
    assert ViewOf(d') == v.(archives := v.archives + iset{j});
  }

  /** The canonical name goes back to its value before the interrupted publication. */
  ghost function Restored(d: Store, j: Journal): Store {
    match j.previous
    case None => Unlinked(d, Canonical(j.candidate.sha))
    case Some(p) => Replaced(d, Canonical(j.candidate.sha), ReceiptFile(p))
  }

  lemma PreviousRestored(d: Store, committed: set<Receipt>, j: Journal)
    requires Inv(d, committed) && LiveGuard(d, j)
    ensures Inv(Restored(d, j), committed)
  {
    RestoredViewIsGood(d, committed, j);
    ViewOfRestored(d, j);
    RestoredStaysTyped(d, committed, j);
  }

  ghost function RestoredView(v: View, j: Journal): View {
    match j.previous
    case None => v.(missing := v.missing + iset{j.candidate.sha})
    case Some(p) => v.(kept := v.kept + iset{p})
  }

  lemma RestoredViewIsGood(d: Store, committed: set<Receipt>, j: Journal)
    requires Inv(d, committed) && LiveGuard(d, j)
    ensures ValidJournal(j) && Good(RestoredView(ViewOf(d), j), committed)
  {
    var v := ViewOf(d);
    assert May(d, Pending, GuardFile(Some(j)));
    assert Some(j) in v.guards;
    if v.guards == iset{Some(j)} {
      match j.previous
      case None => ViewWithoutClaim(v, committed, j);
      case Some(p) => ViewWithPrevious(v, committed, j, p);
    } else {
      UntouchedCanonical(d, committed, j);
      assert May(d, Canonical(j.candidate.sha), PreviousFile(j));
      assert RestoredView(v, j) == v;
    }
  }

  /** A guard that is not yet durable still has the previous receipt in place. */
  lemma UntouchedCanonical(d: Store, committed: set<Receipt>, j: Journal)
    requires Inv(d, committed) && LiveGuard(d, j)
    requires ViewOf(d).guards != iset{Some(j)}
    ensures Lookup(d.live, Canonical(j.candidate.sha)) == PreviousFile(j)
  {
    var c := Canonical(j.candidate.sha);
    assert May(d, Pending, GuardFile(Some(j)));
    assert May(d, c, Lookup(d.live, c));
    if c in d.live {
      assert d.live[c].receipt in ViewOf(d).kept;
    } else {
      assert j.candidate.sha in ViewOf(d).missing;
    }
  }

  lemma ViewOfRestored(d: Store, j: Journal)
    requires ValidJournal(j)
    ensures ViewOf(Restored(d, j)) == RestoredView(ViewOf(d), j)
  {
  }

  lemma RestoredStaysTyped(d: Store, committed: set<Receipt>, j: Journal)
    requires Inv(d, committed) && LiveGuard(d, j)
    ensures Typed(Restored(d, j)) && Local(Restored(d, j)) && Spent(Restored(d, j))
  {
    assert May(d, Pending, Some(JournalFile(j)));
  }

  // ---------- what the invariant gives a reader, a writer and a recovery ----------

  /** No guard: every receipt was committed, and none of them is revoked. */
  lemma UnguardedReceiptsAreSound(d: Store, committed: set<Receipt>, sha: Sha)
    requires Inv(d, committed) && Pending !in d.live && Canonical(sha) in d.live
    ensures d.live[Canonical(sha)].ReceiptFile?
    ensures d.live[Canonical(sha)].receipt in committed
    ensures forall n | n in d.live && n.Archive? :: n.sequence != d.live[Canonical(sha)].receipt.sequence
  {
    assert May(d, Pending, GuardFile(None));
    assert May(d, Canonical(sha), Some(d.live[Canonical(sha)]));
    var r := d.live[Canonical(sha)].receipt;
    assert r in ViewOf(d).kept;
    forall n | n in d.live && n.Archive?
      ensures n.sequence != r.sequence
    {
      assert May(d, n, Some(d.live[n]));
      assert d.live[n].journal in ViewOf(d).archives;
    }
  }

  function SequenceOf(c: Record): int {
    match c
    case ReceiptFile(r) => r.sequence
    case JournalFile(j) => j.candidate.sequence
  }

  function SequenceAt(files: Files, n: Name): int
    requires n in files
  {
    SequenceOf(files[n])
  }

  /** No guard: live and revoked sequences are pairwise distinct. */
  lemma UnguardedSequencesAreDistinct(d: Store, committed: set<Receipt>, n: Name, n': Name)
    requires Inv(d, committed) && Pending !in d.live && n in d.live && n' in d.live
    requires SequenceAt(d.live, n) == SequenceAt(d.live, n')
    ensures n == n'
  {
    assert May(d, Pending, GuardFile(None));
    assert May(d, n, Some(d.live[n])) && May(d, n', Some(d.live[n']));
    InView(d, n);
    InView(d, n');
  }

  lemma OtherSequencesDiffer(d: Store, committed: set<Receipt>, n: Name)
    requires Inv(d, committed) && Pending !in d.live && n in d.live
    ensures forall m | m in d.live && m != n :: SequenceAt(d.live, m) != SequenceAt(d.live, n)
  {
    hide Inv;
    forall m | m in d.live && SequenceAt(d.live, m) == SequenceAt(d.live, n)
      ensures m == n
    {
      UnguardedSequencesAreDistinct(d, committed, n, m);
    }
  }

  /** Everything a run leaves behind reads back as a valid record. */
  lemma RecordsAreReadable(d: Store, committed: set<Receipt>, n: Name)
    requires Inv(d, committed) && n in d.live
    ensures WellFormed(n, d.live[n])
  {
    hide Good;
    assert May(d, n, Some(d.live[n]));
  }

  lemma InView(d: Store, n: Name)
    requires Typed(d) && n in d.live && n != Pending
    ensures WellFormed(n, d.live[n])
    ensures n.Canonical? ==> d.live[n].receipt in ViewOf(d).kept
    ensures n.Archive? ==> d.live[n].journal in ViewOf(d).archives
  {
    assert May(d, n, Some(d.live[n]));
  }

  /** Under a guard: recovery finds the candidate or the previous receipt, and at most its own
      archive, so none of its consistency refusals applies. */
  lemma RecoveryAccepts(d: Store, committed: set<Receipt>, j: Journal)
    requires Inv(d, committed) && LiveGuard(d, j)
    ensures ValidJournal(j)
    ensures Lookup(d.live, Canonical(j.candidate.sha)) in {CandidateFile(j), PreviousFile(j)}
    ensures Lookup(d.live, ArchiveOf(j)) in {None, Some(JournalFile(j))}
  {
    assert May(d, Pending, GuardFile(Some(j)));
    var v := ViewOf(d);
    assert Some(j) in v.guards;
    var c, a := Canonical(j.candidate.sha), ArchiveOf(j);
    if c in d.live {
      InView(d, c);
    } else {
      assert j.candidate.sha in v.missing;
    }
    if a in d.live {
      InView(d, a);
    }
  }

  lemma CommitKeepsInv(d: Store, committed: set<Receipt>, r: Receipt)
    requires Inv(d, committed)
    ensures Inv(d, committed + {r})
  {
    assert forall v, r' :: Sound(v, committed, r') ==> Sound(v, committed + {r}, r');
  }
}
