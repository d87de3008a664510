/** Whole lives of the gate configuration: repeated recoveries, any run, and the one way to get stuck. */
module RuntimeHistory {
  import opened CrashDirectory
  import opened OpsRuntime
  import opened Optional
  import opened RuntimeConfigurator
  import EnvRender

  /** However often a recovery is interrupted, and wherever power fails, from any state with a record:
      without a record, exactly the original of one of the records that could be found is left.  Where
      these agree, it is the original of the live one. */
  method RecoverThroughInterruptions(c: RuntimeConfiguration, attempts: nat, ghost j: Journal)
    requires c.Valid() && LiveRecord(c.Image(), j)
    modifies c
    ensures c.Valid() && Converging(c.Image(), old(Records(c.Image())))
    ensures Recovery !in c.files ==>
              exists r | r in old(Records(c.Image())) :: c.files == map[Env := Config(Original(r))]
    ensures Recovery !in c.files && (forall r | r in old(Records(c.Image())) :: Original(r) == Original(j)) ==>
              c.files == map[Env := Config(Original(j))]
  {
    hide Inv, Converging;
    ghost var records := Records(c.Image());
    InvConverges(c.Image(), c.trusted, j);
    var left := attempts;
    while left > 0
      invariant c.Valid() && Converging(c.Image(), records)
    {
      left := left - 1;
      var interrupted: bool := *;
      if interrupted {
        ghost var before := c.Image();
        c.LosePower();
        DisturbanceKeepsInv(before, c.Image(), c.trusted);
        DisturbanceKeepsConverging(before, c.Image(), records);
      }
      var sha: string := *;
      var r := c.Recover(sha);
    }
    if Recovery !in c.files {
      EndIsAnOriginal(c.Image(), records);
    }
  }

  lemma EndIsAnOriginal(d: Store, records: iset<Journal>)
    requires Converging(d, records) && Recovery !in d.live
    ensures exists r | r in records :: d.live == map[Env := Config(Original(r))]
  {
    assert May(d, Recovery, None) && May(d, Env, Lookup(d.live, Env));
    var r :| r in records && Lookup(d.live, Env) == Some(Config(Original(r)));
    OnlyEnv(d.live, Config(Original(r)));
  }

  /** Any interleaving of inspections, activations, recoveries, exceptions, signals, kills and power losses. */
  method Run(c: RuntimeConfiguration, steps: nat)
    requires c.Valid()
    modifies c
    ensures c.Valid() && old(c.trusted) <= c.trusted
    ensures Safe(c.files, c.trusted)
    ensures forall d | Disturbed(c.Image(), d) :: Safe(d.live, c.trusted)
  {
    hide Inv;
    var left := steps;
    while left > 0
      invariant c.Valid() && old(c.trusted) <= c.trusted
    {
      left := left - 1;
      var sha: string := *;
      if
      case true =>
        ghost var before := c.Image();
        c.LosePower();
        DisturbanceKeepsInv(before, c.Image(), c.trusted);
      case true =>
        var r := c.Recover(sha);
      case true =>
        var mode: Mode := *;
        var retention: bool := *;
        var targetValid: bool := *;
        var r := c.Configure(sha, mode, retention, targetValid);
    }
    InvIsSafe(c.Image(), c.trusted);
    forall d | Disturbed(c.Image(), d)
      ensures Safe(d.live, c.trusted)
    {
      DisturbanceKeepsInv(c.Image(), d, c.trusted);
      InvIsSafe(d, c.trusted);
    }
  }

  // ---------- when an older record wins ----------

  /** A first activation is verified, the removal of its record is not synced, and a second activation
      has just renamed its own record into place. */
  ghost function TwoRecords(sha: string, first: EnvFile, second: string, third: string): Store {
    Replaced(Unlinked(MidActivation(sha, first, second), Recovery), Recovery,
             RecoveryFile(RecordOf(sha, EnvFile(second, first.gid), third)))
  }

  /** Then power can fail, and recovery undoes both activations instead of the second one. */
  lemma OlderRecordCanWin(sha: string, first: EnvFile, second: string, third: string) returns (d': Store)
    requires Readable(first) && Readable(EnvFile(second, first.gid)) && first.bytes != second && third != ""
    ensures var d, trusted := TwoRecords(sha, first, second, third), {first, EnvFile(second, first.gid)};
            && Inv(d, trusted) && LiveRecord(d, RecordOf(sha, EnvFile(second, first.gid), third))
            && PowerLoss(d, d') && LiveRecord(d', RecordOf(sha, first, second))
            && RecoveryRefusal(d'.live, sha) == None
            && Original(RecordOf(sha, first, second)) != Original(RecordOf(sha, EnvFile(second, first.gid), third))
  {
    hide Inv, PowerLoss;
    var e := EnvFile(second, first.gid);
    var older, newer := RecordOf(sha, first, second), RecordOf(sha, e, third);
    var mid := MidActivation(sha, first, second);
    MidActivationIsReachable(sha, first, second);
    TrustGrows(mid, {first}, e);
    assert {first} + {e} == {first, e};
    RecordRemoved(mid, {first, e}, older);
    RecordPublished(Unlinked(mid, Recovery), {first, e}, newer);
    var d := TwoRecords(sha, first, second, third);
    assert May(d, Recovery, Some(RecoveryFile(older)));
    d' := EveryRecordCanReturn(d, {first, e}, newer, older);
  }

  // ---------- when a rollback is refused ----------

  /** The state after the two writes of an activation: record durable, update in place and durable. */
  ghost function MidActivation(sha: string, original: EnvFile, updated: string): Store {
    var recorded := Synced(Replaced(Disk(map[Env := Config(original)], {}), Recovery, RecoveryFile(RecordOf(sha, original, updated))));
    Synced(Replaced(recorded, Env, Config(EnvFile(updated, original.gid))))
  }

  lemma MidActivationIsReachable(sha: string, original: EnvFile, updated: string)
    requires Readable(original) && updated != ""
    ensures var d := MidActivation(sha, original, updated);
            && d == Disk(map[Env := Config(EnvFile(updated, original.gid)), Recovery := RecoveryFile(RecordOf(sha, original, updated))], {})
            && Inv(d, {original}) && LiveRecord(d, RecordOf(sha, original, updated))
  {
    hide Inv;
    var start: Store, j := Disk(map[Env := Config(original)], {}), RecordOf(sha, original, updated);
    assert Inv(start, {original}) by {
      UntouchedIsInv(original);
    }
    RecordPublished(start, {original}, j);
    var renamed := Replaced(start, Recovery, RecoveryFile(j));
    DisturbanceKeepsInv(renamed, Synced(renamed), {original});
    EnvReplaced(Synced(renamed), {original}, j, EnvFile(updated, original.gid));
    var replaced := Replaced(Synced(renamed), Env, Config(EnvFile(updated, original.gid)));
    DisturbanceKeepsInv(replaced, Synced(replaced), {original});
  }

  lemma UntouchedIsInv(original: EnvFile)
    ensures Inv(Disk(map[Env := Config(original)], {}), {original})
  {
  }

  /** An activation that did not finish and left its record can be rolled back exactly when it failed
      before the update was in place, or the update leaves room for the gates: when the lines that
      stay, with their last newline, and the five gate lines fit the size limit. */
  lemma RollbackNeedsRoom(files: Files, trusted: set<EnvFile>, sha: string, original: EnvFile, enabled: bool,
                          retention: bool)
    requires Readable(original) && EnvRender.Rendered(original.bytes, enabled, retention).Some?
    requires Recovery in files
    requires Unfinished(files, trusted, sha, original, EnvRender.Rendered(original.bytes, enabled, retention).value)
    ensures RecoveryRefusal(files, sha) == None
            <==> || Lookup(files, Env) == Some(Config(original))
                 || |EnvRender.PrefixOf(original.bytes)| + |EnvRender.Join(EnvRender.GateLines(enabled, retention))| <= MAXIMUM
  {
    hide EnvRender.Join, EnvRender.GateLines, EnvRender.Accepts, EnvRender.PrefixOf, EnvRender.Rendered;
    EnvRender.RenderedReads(original.bytes, enabled, retention);
    RenderedIsNotEmpty(original.bytes, enabled, retention);
  }

  /** A configuration of the full size, all of it one comment. */
  function FullComment(): string {
    seq(MAXIMUM - 1, i => '#') + "\n"
  }

  /** The limit is real: this file is accepted, and its failed activation cannot be rolled back. */
  lemma FullFileCannotBeRolledBack(sha: string, gid: Gid)
    ensures Readable(EnvFile(FullComment(), gid))
    ensures EnvRender.Rendered(FullComment(), true, false).Some?
    ensures var updated := EnvRender.Rendered(FullComment(), true, false).value;
            RecoveryRefusal(MidActivation(sha, EnvFile(FullComment(), gid), updated).live, sha) == Some(EnvUnreadable)
  {
    hide EnvRender.Join, EnvRender.GateLines, EnvRender.PrefixOf, EnvRender.Classify, FullComment;
    FullCommentReads();
    CommentStays();
    var original := EnvFile(FullComment(), gid);
    var updated := EnvRender.Rendered(FullComment(), true, false).value;
    RenderedIsNotEmpty(FullComment(), true, false);
    EnvRender.RenderedReads(FullComment(), true, false);
    MidActivationIsReachable(sha, original, updated);
  }

  lemma FullCommentReads()
    ensures |FullComment()| == MAXIMUM && FullComment()[|FullComment()| - 1] == '\n'
    ensures EnvRender.SplitLines(FullComment()) == [FullComment()]
    ensures EnvRender.Classify(FullComment()) == EnvRender.Other
  {
    hide EnvRender.LineEnd, EnvRender.Classify;
    var marks := seq(MAXIMUM - 1, i => '#');
    EnvRender.SingleLine(marks);
    assert FullComment() + "" == FullComment();
    EnvRender.SplitFirst(FullComment(), "");
    EnvRender.NothingSplits();
    EnvRender.StripIgnoresNewline(marks);
    MarksAreComment(marks);
  }

  lemma MarksAreComment(marks: string)
    requires marks != "" && forall i | 0 <= i < |marks| :: marks[i] == '#'
    ensures EnvRender.Classify(marks) == EnvRender.Other
  {
    EnvRender.StripIsIdentity(marks);
  }

  lemma CommentStays()
    ensures EnvRender.Rendered(FullComment(), true, false).Some?
    ensures EnvRender.PrefixOf(FullComment()) == FullComment()
    ensures |EnvRender.Join(EnvRender.GateLines(true, false))| > 0
  {
    hide EnvRender.LineEnd, EnvRender.Classify, EnvRender.SplitLines, FullComment;
    FullCommentReads();
    var lines := [FullComment()];
    assert lines[1..] == [];
    assert EnvRender.Join(lines) == FullComment();
  }
}
