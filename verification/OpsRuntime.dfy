/** The protected recovery record of the governance gates: names, records and the invariant. */
module OpsRuntime {
  import opened CrashDirectory
  import opened Optional

  /** `read_private` takes between one and this many bytes. */
  const MAXIMUM := 1048576

  datatype Name = Env | Recovery

  type Gid = g: int | 0 <= g < 0x1_0000_0000

  datatype Digest = Sha256(bytes: string)

  datatype EnvFile = EnvFile(bytes: string, gid: Gid)

  datatype Journal = Journal(
    release: string, original: string, originalDigest: Digest, updatedDigest: Digest, gid: Gid)

  datatype File = Config(env: EnvFile) | RecoveryFile(record: Journal)

  type Files = map<Name, File>
  type Store = Disk<Name, File>

  function RecordOf(sha: string, original: EnvFile, updated: string): Journal {
    Journal(sha, original.bytes, Sha256(original.bytes), Sha256(updated), original.gid)
  }

  function Original(r: Journal): EnvFile {
    EnvFile(r.original, r.gid)
  }

  /** The configuration is one of the two that the record names. */
  predicate Matches(r: Journal, e: EnvFile) {
    e.gid == r.gid && Sha256(e.bytes) in {r.originalDigest, r.updatedDigest}
  }

  predicate Readable(e: EnvFile) {
    0 < |e.bytes| <= MAXIMUM
  }

  predicate ValidRecord(r: Journal) {
    Readable(Original(r)) && r.originalDigest == Sha256(r.original) && r.updatedDigest != Sha256("")
  }

  // ---------- what a store may hold, now or after a power loss ----------

  ghost function Envs(d: Store): iset<EnvFile> {
    iset e | May(d, Env, Some(Config(e)))
  }

  ghost function Records(d: Store): iset<Journal> {
    iset r | May(d, Recovery, Some(RecoveryFile(r)))
  }

  ghost predicate LiveRecord(d: Store, r: Journal) {
    Lookup(d.live, Recovery) == Some(RecoveryFile(r))
  }

  ghost predicate Typed(d: Store) {
    && (forall v | May(d, Env, v) :: v.Some? && v.value.Config?)
    && (forall c | May(d, Recovery, Some(c)) :: c.RecoveryFile? && ValidRecord(c.record))
  }

  /** Wherever the record can be missing, the configuration is trusted. */
  ghost predicate Settled(d: Store, trusted: set<EnvFile>) {
    May(d, Recovery, None) ==> forall e | e in Envs(d) :: e in trusted
  }

  /** Every record that can be found leads back to a trusted configuration. */
  ghost predicate Guarded(d: Store, trusted: set<EnvFile>) {
    forall r | r in Records(d) :: Original(r) in trusted && forall e | e in Envs(d) :: Matches(r, e)
  }

  /** While the live record is not yet durable, the configuration is still the original. */
  ghost predicate Untouched(d: Store) {
    forall r, v | LiveRecord(d, r) && May(d, Recovery, v) && v != Some(RecoveryFile(r)) ::
      forall e | e in Envs(d) :: e == Original(r)
  }

  /** Without a live record, the configuration is durable. */
  ghost predicate Local(d: Store) {
    Recovery !in d.live ==> forall e | e in d.lost :: e.0 == Recovery
  }

  ghost predicate Inv(d: Store, trusted: set<EnvFile>) {
    Typed(d) && Settled(d, trusted) && Guarded(d, trusted) && Untouched(d) && Local(d)
  }

  /** What a reader of the live files may rely on. */
  ghost predicate Safe(files: Files, trusted: set<EnvFile>) {
    && Env in files && files[Env].Config?
    && if Recovery !in files then files[Env].env in trusted
       else && files[Recovery].RecoveryFile?
            && Original(files[Recovery].record) in trusted
            && Matches(files[Recovery].record, files[Env].env)
  }

  lemma InvIsSafe(d: Store, trusted: set<EnvFile>)
    requires Inv(d, trusted)
    ensures Safe(d.live, trusted)
  {
    assert May(d, Env, Lookup(d.live, Env));
    assert d.live[Env].env in Envs(d);
    assert May(d, Recovery, Lookup(d.live, Recovery));
    if Recovery in d.live {
      assert d.live[Recovery].record in Records(d);
    }
  }

  lemma DisturbanceKeepsInv(d: Store, d': Store, trusted: set<EnvFile>)
    requires Inv(d, trusted) && Disturbed(d, d')
    ensures Inv(d', trusted)
  {
    DisturbedShrinks(d, d');
    assert Envs(d') <= Envs(d) && Records(d') <= Records(d);
  }

  lemma TrustGrows(d: Store, trusted: set<EnvFile>, e: EnvFile)
    requires Inv(d, trusted)
    ensures Inv(d, trusted + {e})
  {
  }

  // ---------- the steps ----------

  lemma RecordPublished(d: Store, trusted: set<EnvFile>, r: Journal)
    requires Inv(d, trusted) && Recovery !in d.live && ValidRecord(r)
    requires Lookup(d.live, Env) == Some(Config(Original(r)))
    ensures Inv(Replaced(d, Recovery, RecoveryFile(r)), trusted)
  {
    var d' := Replaced(d, Recovery, RecoveryFile(r));
    assert May(d, Recovery, None);
    assert Envs(d') == Envs(d) == iset{Original(r)};
    assert Records(d') == Records(d) + iset{r};
  }

  /** Only under a durable record does the configuration change. */
  lemma EnvReplaced(d: Store, trusted: set<EnvFile>, r: Journal, e: EnvFile)
    requires Inv(d, trusted) && LiveRecord(d, r) && d.lost == {} && Matches(r, e)
    ensures Inv(Replaced(d, Env, Config(e)), trusted)
  {
    var d' := Replaced(d, Env, Config(e));
    assert Envs(d') == Envs(d) + iset{e};
    assert Records(d') == Records(d) == iset{r};
  }

  lemma EnvRestored(d: Store, trusted: set<EnvFile>, r: Journal)
    requires Inv(d, trusted) && LiveRecord(d, r)
    ensures Inv(Replaced(d, Env, Config(Original(r))), trusted)
  {
    var d' := Replaced(d, Env, Config(Original(r)));
    assert May(d, Recovery, Some(RecoveryFile(r)));
    assert r in Records(d);
    assert Envs(d') == Envs(d) + iset{Original(r)};
    assert Records(d') == Records(d);
    assert May(d, Env, Lookup(d.live, Env));
    forall r' | r' in Records(d)
      ensures Matches(r', Original(r))
    {
      if r' != r {
        assert May(d, Recovery, Some(RecoveryFile(r')));
        assert d.live[Env].env in Envs(d);
      }
    }
    assert forall v :: May(d', Recovery, v) <==> May(d, Recovery, v);
  }

  lemma RecordRemoved(d: Store, trusted: set<EnvFile>, r: Journal)
    requires Inv(d, trusted) && LiveRecord(d, r) && d.lost == {}
    requires Env in d.live && d.live[Env].Config? && d.live[Env].env in trusted
    ensures Inv(Unlinked(d, Recovery), trusted)
  {
    var d' := Unlinked(d, Recovery);
    assert Envs(d') == Envs(d) == iset{d.live[Env].env};
    assert Records(d') == Records(d) == iset{r};
  }

  // ---------- recovery ----------

  datatype Refusal =
    | RecoveryRequired | NoRecovery | OtherRelease | RecordInvalid | EnvUnreadable | EnvChanged
    | BadArguments | TargetInvalid | RenderRejected

  /** The checks of `recover`, in its order. */
  function RecoveryRefusal(files: Files, sha: string): Option<Refusal> {
    if Recovery !in files || !files[Recovery].RecoveryFile? then Some(NoRecovery)
    else
      var r := files[Recovery].record;
      if r.release != sha then Some(OtherRelease)
      else if !Readable(Original(r)) || Sha256(r.original) != r.originalDigest then Some(RecordInvalid)
      else if Env !in files || !files[Env].Config? || !Readable(files[Env].env) then Some(EnvUnreadable)
      else if Sha256(files[Env].env.bytes) !in {r.originalDigest, r.updatedDigest} then Some(EnvChanged)
      else None
  }

  /** A configuration that is there and has between one byte and one mebibyte. */
  predicate HasConfiguration(files: Files) {
    Env in files && files[Env].Config? && 0 < |files[Env].env.bytes| <= 1048576
  }

  /** What stands in the way of a recovery. */
  predicate Hinders(files: Files, sha: string, reason: Refusal) {
    var found := Recovery in files && files[Recovery].RecoveryFile?;
    match reason
    case NoRecovery => !found
    case OtherRelease => found && files[Recovery].record.release != sha
    case RecordInvalid =>
      && found
      && var r := files[Recovery].record;
         r.original == "" || |r.original| > 1048576 || r.originalDigest != Sha256(r.original)
    case EnvUnreadable => !HasConfiguration(files)
    case EnvChanged =>
      && found && HasConfiguration(files)
      && var digest := Sha256(files[Env].env.bytes);
         digest != files[Recovery].record.originalDigest && digest != files[Recovery].record.updatedDigest
    case _ => false
  }

  lemma RecoveryRefusalMeans(files: Files, sha: string)
    ensures RecoveryRefusal(files, sha) == None ==> forall reason :: !Hinders(files, sha, reason)
    ensures RecoveryRefusal(files, sha).Some? ==> Hinders(files, sha, RecoveryRefusal(files, sha).value)
  {
  }

  /** In every reachable state with a record, `recover` for its release refuses in exactly one case:
      the configuration in place is longer than `recover` is willing to read. */
  lemma RecoveryIsAccepted(d: Store, trusted: set<EnvFile>, r: Journal)
    requires Inv(d, trusted) && LiveRecord(d, r)
    ensures Env in d.live && d.live[Env].Config?
    ensures RecoveryRefusal(d.live, r.release) in {None, Some(EnvUnreadable)}
    ensures RecoveryRefusal(d.live, r.release) == None <==> |d.live[Env].env.bytes| <= 1048576
  {
    InvIsSafe(d, trusted);
    assert May(d, Recovery, Some(RecoveryFile(r)));
  }

  /** From here on, a recovery that finishes leaves the original of one of `records`. */
  ghost predicate Converging(d: Store, records: iset<Journal>) {
    && (forall c | May(d, Recovery, Some(c)) :: c.RecoveryFile? && c.record in records)
    && (May(d, Recovery, None) ==>
          forall v | May(d, Env, v) :: exists r | r in records :: v == Some(Config(Original(r))))
  }

  /** In every reachable state with a record, recovery ends in the original of a record that can be found. */
  lemma InvConverges(d: Store, trusted: set<EnvFile>, r: Journal)
    requires Inv(d, trusted) && LiveRecord(d, r)
    ensures r in Records(d) && Converging(d, Records(d))
  {
    assert May(d, Recovery, Some(RecoveryFile(r)));
    if May(d, Recovery, None) {
      forall v | May(d, Env, v)
        ensures v == Some(Config(Original(r)))
      {
        assert v.value.env in Envs(d);
      }
    }
  }

  lemma DisturbanceKeepsConverging(d: Store, d': Store, records: iset<Journal>)
    requires Converging(d, records) && Disturbed(d, d')
    ensures Converging(d', records)
  {
    DisturbedShrinks(d, d');
  }

  lemma RestoringKeepsConverging(d: Store, r: Journal, records: iset<Journal>)
    requires Converging(d, records) && LiveRecord(d, r)
    ensures Converging(Replaced(d, Env, Config(Original(r))), records)
  {
    var d' := Replaced(d, Env, Config(Original(r)));
    assert May(d, Recovery, Some(RecoveryFile(r)));
    assert forall v :: May(d', Recovery, v) <==> May(d, Recovery, v);
    assert forall v | May(d', Env, v) :: v == Some(Config(Original(r))) || v == Lookup(d.live, Env) || May(d, Env, v);
    assert May(d, Env, Lookup(d.live, Env));
  }

  lemma RemovingKeepsConverging(d: Store, r: Journal, records: iset<Journal>)
    requires Converging(d, records) && LiveRecord(d, r)
    requires d.lost == {} && Lookup(d.live, Env) == Some(Config(Original(r)))
    ensures Converging(Unlinked(d, Recovery), records)
  {
    var d' := Unlinked(d, Recovery);
    assert May(d, Recovery, Some(RecoveryFile(r)));
    assert forall v :: May(d', Env, v) <==> v == Some(Config(Original(r)));
  }

  /** A record that is not yet durable can give way to any other that can be found, and then that one
      is the record that recovery accepts. */
  lemma EveryRecordCanReturn(d: Store, trusted: set<EnvFile>, j: Journal, r: Journal) returns (d': Store)
    requires Inv(d, trusted) && LiveRecord(d, j) && r in Records(d) && r != j
    ensures PowerLoss(d, d') && Inv(d', trusted) && LiveRecord(d', r)
    ensures RecoveryRefusal(d'.live, r.release) == None
  {
    hide Inv;
    d' := Disk(d.live[Recovery := RecoveryFile(r)], {});
    assert May(d, Recovery, Some(RecoveryFile(r)));
    forall n
      ensures May(d, n, Lookup(d'.live, n))
    {
      assert May(d, n, Lookup(d.live, n));
      assert Lookup(d'.live, n) == if n == Recovery then Some(RecoveryFile(r)) else Lookup(d.live, n);
    }
    DisturbanceKeepsInv(d, d', trusted);
    OriginalInPlace(d, trusted, j, r);
    RecoveryIsAccepted(d', trusted, r);
  }

  lemma OriginalInPlace(d: Store, trusted: set<EnvFile>, j: Journal, r: Journal)
    requires Inv(d, trusted) && LiveRecord(d, j) && r in Records(d) && r != j
    ensures Lookup(d.live, Env) == Some(Config(Original(j))) && Readable(Original(j))
  {
    assert May(d, Recovery, Some(RecoveryFile(r))) && May(d, Recovery, Some(RecoveryFile(j)));
    assert May(d, Env, Lookup(d.live, Env));
    assert d.live[Env].env in Envs(d);
  }

  /** When recovery is bound to end in the original of the live record: exactly when no other record
      with another original can still be found. */
  lemma RecoveryEndIsDetermined(d: Store, trusted: set<EnvFile>, j: Journal)
    requires Inv(d, trusted) && LiveRecord(d, j)
    ensures (forall d', r | PowerLoss(d, d') && LiveRecord(d', r) :: Original(r) == Original(j))
            <==> forall r | r in Records(d) :: Original(r) == Original(j)
  {
    hide Inv, PowerLoss;
    forall d', r | PowerLoss(d, d') && LiveRecord(d', r)
      ensures r in Records(d)
    {
      ReturningRecordWasPossible(d, d', r);
    }
    forall r | r in Records(d) && r != j
      ensures exists d' | PowerLoss(d, d') :: LiveRecord(d', r)
    {
      var d' := EveryRecordCanReturn(d, trusted, j, r);
    }
  }

  lemma ReturningRecordWasPossible(d: Store, d': Store, r: Journal)
    requires PowerLoss(d, d') && LiveRecord(d', r)
    ensures r in Records(d)
  {
    assert May(d, Recovery, Lookup(d'.live, Recovery));
  }
}
