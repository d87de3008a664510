/** What a success directory remembers: sequences that were ever committed, and receipts that stay. */
module SuccessPast {
  import opened CrashDirectory
  import opened Optional
  import opened ReleaseSuccess

  /** Whatever is found under `n`, now or after a power loss, it carries at least this sequence. */
  ghost predicate Secure(d: Store, n: Name, sequence: int) {
    n != Pending && forall v | May(d, n, v) :: v.Some? && sequence <= SequenceOf(v.value)
  }

  /** No sequence was committed twice; a guard is above everything committed, except its own candidate;
      and wherever the guard can be missing, every committed sequence is remembered by some other name. */
  ghost predicate Remembered(d: Store, committed: set<Receipt>) {
    && (forall r, r' | r in committed && r' in committed && r.sequence == r'.sequence :: r == r')
    && (forall g, r | May(d, Pending, Some(JournalFile(g))) && r in committed ::
          r.sequence < g.candidate.sequence || r == g.candidate)
    && (May(d, Pending, None) ==> forall r | r in committed :: exists n :: Secure(d, n, r.sequence))
  }

  predicate ItselfOrNewer(r: Receipt, p: Receipt) {
    p == r || r.sequence < p.sequence
  }

  /** The release keeps this receipt or gets a newer one, and no guard can take it back. */
  ghost predicate Anchored(d: Store, r: Receipt) {
    && (forall v | May(d, Canonical(r.sha), v) ::
          v.Some? && v.value.ReceiptFile? && ItselfOrNewer(r, v.value.receipt))
    && (forall g | May(d, Pending, Some(JournalFile(g))) && g.candidate.sha == r.sha ::
          g.previous.Some? && ItselfOrNewer(r, g.previous.value))
  }

  ghost predicate Past(d: Store, committed: set<Receipt>, anchored: set<Receipt>) {
    Remembered(d, committed) && forall r | r in anchored :: Anchored(d, r)
  }

  lemma PastRemembers(d: Store, committed: set<Receipt>, anchored: set<Receipt>)
    requires Past(d, committed, anchored)
    ensures Remembered(d, committed)
  {
  }

  lemma EmptyPast()
    ensures Past(Disk(map[], {}), {}, {})
  {
  }

  lemma DisturbanceKeepsPast(d: Store, d': Store, committed: set<Receipt>, anchored: set<Receipt>)
    requires Past(d, committed, anchored) && Disturbed(d, d')
    ensures Past(d', committed, anchored)
  {
    DisturbedShrinks(d, d');
    assert forall n, q | Secure(d, n, q) :: Secure(d', n, q);
    assert forall r | Anchored(d, r) :: Anchored(d', r);
  }

  /** A fresh sequence is fresh in all of history. */
  lemma FreshIsNew(d: Store, committed: set<Receipt>, sequence: int)
    requires Inv(d, committed) && Remembered(d, committed) && Pending !in d.live && Fresh(d.live, sequence)
    ensures forall r | r in committed :: r.sequence < sequence
  {
    hide Inv;
    forall r | r in committed
      ensures r.sequence < sequence
    {
      assert May(d, Pending, None);
      var n :| Secure(d, n, r.sequence);
      assert May(d, n, Lookup(d.live, n));
      RecordsAreReadable(d, committed, n);
    }
  }

  lemma GuardKeepsPast(d: Store, committed: set<Receipt>, anchored: set<Receipt>, j: Journal)
    requires Inv(d, committed) && Past(d, committed, anchored) && Pending !in d.live
    requires ValidJournal(j) && Fresh(d.live, j.candidate.sequence)
    requires Lookup(d.live, Canonical(j.candidate.sha)) == PreviousFile(j)
    ensures Past(Replaced(d, Pending, JournalFile(j)), committed, anchored)
  {
    hide Inv, Fresh;
    var d' := Replaced(d, Pending, JournalFile(j));
    FreshIsNew(d, committed, j.candidate.sequence);
    assert May(d, Pending, None);
    assert forall n, v | n != Pending :: May(d', n, v) <==> May(d, n, v);
    assert forall v :: May(d', Pending, v) <==> v == Some(JournalFile(j)) || May(d, Pending, v);
    assert forall n, q | Secure(d, n, q) :: Secure(d', n, q);
    assert May(d, Canonical(j.candidate.sha), PreviousFile(j));
  }

  lemma CandidateKeepsPast(d: Store, committed: set<Receipt>, anchored: set<Receipt>, j: Journal)
    requires Past(d, committed, anchored) && LiveGuard(d, j) && d.lost == {} && ValidJournal(j)
    ensures Past(Replaced(d, Canonical(j.candidate.sha), ReceiptFile(j.candidate)), committed, anchored)
  {
    var d' := Replaced(d, Canonical(j.candidate.sha), ReceiptFile(j.candidate));
    assert forall v :: May(d', Pending, v) <==> v == Some(JournalFile(j));
    assert May(d, Pending, Some(JournalFile(j)));
    forall r | r in anchored
      ensures Anchored(d', r)
    {
      assert Anchored(d, r);
      assert forall v | May(d', Canonical(r.sha), v) ::
          May(d, Canonical(r.sha), v) || (r.sha == j.candidate.sha && v == CandidateFile(j));
    }
  }

  lemma CommitKeepsPast(d: Store, committed: set<Receipt>, anchored: set<Receipt>, j: Journal)
    requires Past(d, committed, anchored) && LiveGuard(d, j) && d.lost == {}
    ensures Past(d, committed + {j.candidate}, anchored)
  {
    assert May(d, Pending, Some(JournalFile(j)));
  }

  /** The guard of a committed or of a revoked candidate leaves its sequence behind under another name. */
  lemma RemovalKeepsPast(d: Store, committed: set<Receipt>, anchored: set<Receipt>, j: Journal)
    requires Past(d, committed, anchored) && LiveGuard(d, j) && d.lost == {}
    requires || Lookup(d.live, Canonical(j.candidate.sha)) == CandidateFile(j)
             || Lookup(d.live, ArchiveOf(j)) == Some(JournalFile(j))
    ensures Past(Unlinked(d, Pending), committed, anchored)
  {
    var d' := Unlinked(d, Pending);
    assert May(d, Pending, Some(JournalFile(j)));
    assert forall n, v | n != Pending :: May(d', n, v) <==> v == Lookup(d.live, n);
    assert forall v :: May(d', Pending, v) <==> v == None || v == Some(JournalFile(j));
    var n := if Lookup(d.live, ArchiveOf(j)) == Some(JournalFile(j)) then ArchiveOf(j) else Canonical(j.candidate.sha);
    assert forall r | r in committed :: Secure(d', n, r.sequence);
    forall r | r in anchored
      ensures Anchored(d', r)
    {
      assert Anchored(d, r) && forall v | May(d', Canonical(r.sha), v) :: May(d, Canonical(r.sha), v);
    }
  }

  lemma ArchiveKeepsPast(d: Store, committed: set<Receipt>, anchored: set<Receipt>, j: Journal)
    requires Inv(d, committed) && Past(d, committed, anchored) && LiveGuard(d, j)
    ensures Past(Replaced(d, ArchiveOf(j), JournalFile(j)), committed, anchored)
  {
    hide Inv;
    var d', a := Replaced(d, ArchiveOf(j), JournalFile(j)), ArchiveOf(j);
    assert forall n, v | n != a :: May(d', n, v) <==> May(d, n, v);
    assert forall v :: May(d', a, v) <==> v == Some(JournalFile(j)) || May(d, a, v);
    assert May(d, a, Lookup(d.live, a));
    if a in d.live {
      RecordsAreReadable(d, committed, a);
    }
    assert forall n, q | Secure(d, n, q) :: Secure(d', n, q);
    assert forall r | Anchored(d, r) :: Anchored(d', r);
  }

  lemma RestoringKeepsPast(d: Store, committed: set<Receipt>, anchored: set<Receipt>, j: Journal)
    requires Inv(d, committed) && Past(d, committed, anchored) && LiveGuard(d, j)
    ensures Past(Restored(d, j), committed, anchored)
  {
    hide Inv;
    var d', c := Restored(d, j), Canonical(j.candidate.sha);
    assert May(d, Pending, Some(JournalFile(j)));
    assert forall n, v | n != c :: May(d', n, v) <==> May(d, n, v);
    assert forall v :: May(d', c, v) ==> v == PreviousFile(j) || May(d, c, v);
    if May(d, Pending, None) {
      assert None in ViewOf(d).guards;
      UntouchedCanonical(d, committed, j);
      assert May(d, c, PreviousFile(j));
      assert forall n, q | Secure(d, n, q) :: Secure(d', n, q);
    }
    forall r | r in anchored
      ensures Anchored(d', r)
    {
      assert Anchored(d, r);
    }
  }

  // ---------- when a committed receipt stays ----------

  /** A receipt in place stays, as itself or as a newer one, exactly when no guard for it can be found:
      when the removal of its guard has become durable. */
  lemma AnchoredWhenGuardIsGone(d: Store, committed: set<Receipt>, r: Receipt)
    requires Inv(d, committed) && Lookup(d.live, Canonical(r.sha)) == Some(ReceiptFile(r))
    ensures Anchored(d, r) <==> forall g | May(d, Pending, Some(JournalFile(g))) :: g.candidate != r
  {
    var c, v := Canonical(r.sha), ViewOf(d);
    assert May(d, c, Some(ReceiptFile(r))) && r in v.kept;
    forall g | May(d, Pending, Some(JournalFile(g)))
      ensures Some(g) in v.guards
    {
      assert May(d, Pending, GuardFile(Some(g)));
    }
    assert Pending in d.live ==> May(d, Pending, Some(d.live[Pending]));
    forall w | May(d, c, w)
      ensures w == Some(ReceiptFile(r)) || (Pending in d.live && d.live[Pending].journal.candidate.sha == r.sha)
    {
    }
    forall w | May(d, c, w)
      ensures if w == None then r.sha in v.missing else w.value.ReceiptFile? && w.value.receipt.sha == r.sha && w.value.receipt in v.kept
    {
    }
  }
}
