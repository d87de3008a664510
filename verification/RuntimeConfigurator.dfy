/** Activating, rolling back and recovering the governance gates, call by call. */
module RuntimeConfigurator {
  import opened CrashDirectory
  import opened OpsRuntime
  import opened Optional
  import EnvRender

  datatype Mode = Inspect | Enable | Disable

  /** A call returns, refuses before writing, or ends in an exception or with its process. */
  datatype Result = Ok | Refused(reason: Refusal) | Crashed(how: Outcome)

  /** The checks of the command line before anything is written. */
  function ConfigureRefusal(files: Files, mode: Mode, retention: bool, targetValid: bool): Option<Refusal> {
    if retention && mode != Enable then Some(BadArguments)
    else if Recovery in files then Some(RecoveryRequired)
    else if Env !in files || !files[Env].Config? || !Readable(files[Env].env) then Some(EnvUnreadable)
    else if mode == Inspect then None
    else if mode == Enable && !targetValid then Some(TargetInvalid)
    else if EnvRender.Rendered(files[Env].env.bytes, mode == Enable, retention) == None then Some(RenderRejected)
    else None
  }

  /** What stands in the way of a configuration. */
  ghost predicate Forbids(files: Files, mode: Mode, retention: bool, targetValid: bool, reason: Refusal) {
    match reason
    case BadArguments => retention && mode != Enable
    case RecoveryRequired => Recovery in files
    case EnvUnreadable => !HasConfiguration(files)
    case TargetInvalid => mode == Enable && !targetValid
    case RenderRejected =>
      mode != Inspect && HasConfiguration(files) && EnvRender.Rendered(files[Env].env.bytes, mode == Enable, retention) == None
    case _ => false
  }

  lemma ConfigureRefusalMeans(files: Files, mode: Mode, retention: bool, targetValid: bool)
    ensures var refusal := ConfigureRefusal(files, mode, retention, targetValid);
            && (refusal == None ==> forall reason :: !Forbids(files, mode, retention, targetValid, reason))
            && (refusal.Some? ==> Forbids(files, mode, retention, targetValid, refusal.value))
  {
    hide EnvRender.Rendered;
  }

  datatype Call = AssertingCurrent | Replacing(name: Name) | Restarting | Verifying | RemovingRecord

  /** The calls of a recovery. */
  function Recovering(): set<Call> {
    {AssertingCurrent, Replacing(Env), Restarting, Verifying, RemovingRecord}
  }

  /** A recovery that is not refused is stopped by nothing but a call that did not return. */
  ghost predicate RecoveryTold(before: seq<Trouble<Call>>, r: Result, after: seq<Trouble<Call>>) {
    match r
    case Crashed(how) => how != Done && Noted(before, after, Recovering(), how)
    case _ => after == before
  }

  /** What stopped an activation.  A failure between the writing of the record and its removal, if it is
      the only trouble and the update can be read back, ends with the original in place, running and
      without a record. */
  ghost predicate ActivationTold(original: EnvFile, updated: string, trouble: seq<Trouble<Call>>, r: Result, after: Store,
                                 running: Option<EnvFile>) {
    match r
    case Crashed(how) =>
      && trouble != [] && how != Done
      && if trouble[0].how == Killed then how == Killed && |trouble| == 1
         else if trouble[0].call == Replacing(Recovery) || trouble[0].call == RemovingRecord then how == Failed && |trouble| == 1
         else |trouble| == 1 && |updated| <= 1048576 ==>
                how == Failed && after == Disk(map[Env := Config(original)], {}) && running == Some(original)
    case _ => trouble == []
  }

  /** How an activation of `updated` over `original` can end, short of completing. */
  ghost predicate Unfinished(files: Files, trusted: set<EnvFile>, sha: string, original: EnvFile, updated: string) {
    var after := EnvFile(updated, original.gid);
    match Lookup(files, Recovery)
    case None =>
      || Lookup(files, Env) == Some(Config(original))
      || (Lookup(files, Env) == Some(Config(after)) && after in trusted)
    case Some(record) =>
      && record == RecoveryFile(RecordOf(sha, original, updated))
      && Lookup(files, Env) in {Some(Config(original)), Some(Config(after))}
  }

  class RuntimeConfiguration {
    var files: Files
    var lost: set<(Name, Option<File>)>
    /** The configuration that the services were started with, where that is known. */
    ghost var running: Option<EnvFile>
    /** The untouched configuration, and those that were verified while they ran. */
    ghost var trusted: set<EnvFile>
    /** Every call that did not return, oldest first. */
    ghost var trouble: seq<Trouble<Call>>

    ghost function Image(): Store
      reads this
    {
      Disk(files, lost)
    }

    /** Without a record to recover, the services run what the file says. */
    ghost predicate Valid()
      reads this
    {
      && Inv(Image(), trusted)
      && (Recovery !in files && running.Some? ==> Lookup(files, Env) == Some(Config(running.value)))
    }

    constructor (env: EnvFile)
      ensures Valid() && files == map[Env := Config(env)] && lost == {} && trusted == {env} && trouble == []
    {
      files, lost, running, trusted, trouble := map[Env := Config(env)], {}, Some(env), {env}, [];
    }

    // ---------- calls into the system ----------

    ghost method Note(call: Call, o: Outcome)
      modifies `trouble
      ensures Noted(old(trouble), trouble, {call}, o)
    {
      if o != Done {
        trouble := trouble + [Trouble(call, o)];
      }
    }

    /** A fully written file takes the place of `n`, and the directory is synced. */
    method Replace(n: Name, c: File) returns (o: Outcome)
      modifies `files, `lost, `trouble
      ensures Noted(old(trouble), trouble, {Replacing(n)}, o)
      ensures o == Done ==> Image() == Synced(Replaced(old(Image()), n, c))
      ensures o != Done ==> || WrittenBack(old(Image()), Image())
                            || WrittenBack(Replaced(old(Image()), n, c), Image())
    {
      var renamed: bool := *;
      var synced: bool := *;
      o := *;
      if renamed || o == Done {
        files, lost := files[n := c], lost + {(n, Lookup(files, n))};
        if synced || o == Done {
          lost := {};
        }
      }
      Note(Replacing(n), o);
    }

    method RemoveRecord() returns (o: Outcome)
      modifies `files, `lost, `trouble
      ensures Noted(old(trouble), trouble, {RemovingRecord}, o)
      ensures o == Done ==> Image() == Synced(Unlinked(old(Image()), Recovery))
      ensures o != Done ==> || WrittenBack(old(Image()), Image())
                            || WrittenBack(Unlinked(old(Image()), Recovery), Image())
    {
      var unlinked: bool := *;
      var synced: bool := *;
      o := *;
      if unlinked || o == Done {
        files, lost := files - {Recovery}, lost + {(Recovery, Lookup(files, Recovery))};
        if synced || o == Done {
          lost := {};
        }
      }
      Note(RemovingRecord, o);
    }

    /** The environment: power fails, and each name comes back one way or another. */
    method LosePower()
      modifies `files, `lost, `running
      ensures PowerLoss(old(Image()), Image()) && running == None
    {
      var env: Option<File> := *;
      var record: Option<File> := *;
      if (Env, env) in lost {
        files := if env.Some? then files[Env := env.value] else files - {Env};
      }
      if (Recovery, record) in lost {
        files := if record.Some? then files[Recovery := record.value] else files - {Recovery};
      }
      lost, running := {}, None;
    }

    method AssertCurrent() returns (o: Outcome)
      modifies `trouble
      ensures Noted(old(trouble), trouble, {AssertingCurrent}, o)
    {
      o := *;
      Note(AssertingCurrent, o);
    }

    method Restart() returns (o: Outcome)
      requires Env in files && files[Env].Config?
      modifies `running, `trouble
      ensures Noted(old(trouble), trouble, {Restarting}, o)
      ensures running == if o == Done then Some(files[Env].env) else None
    {
      o := *;
      Note(Restarting, o);
      running := if o == Done then Some(files[Env].env) else None;
    }

    /** Readiness and the processes of the release, and once more the installed release. */
    method Verify() returns (o: Outcome)
      requires running.Some?
      modifies `trusted, `trouble
      ensures Noted(old(trouble), trouble, {Verifying, AssertingCurrent}, o)
      ensures trusted == if o == Done then old(trusted) + {running.value} else old(trusted)
    {
      o := *;
      if o == Done {
        o := AssertCurrent();
      } else {
        Note(Verifying, o);
      }
      if o == Done {
        trusted := trusted + {running.value};
      }
    }

    // ---------- recovery ----------

    method Recover(sha: string) returns (r: Result)
      requires Valid()
      modifies this
      ensures Valid() && old(trusted) <= trusted && forall e | e in trusted && e !in old(trusted) :: running == Some(e)
      ensures RecoveryTold(old(trouble), r, trouble)
      ensures r.Refused? ==> RecoveryRefusal(old(files), sha) == Some(r.reason) && Hinders(old(files), sha, r.reason)
      ensures r.Ok? ==> forall reason :: !Hinders(old(files), sha, reason)
      ensures RecoveryRefusal(old(files), sha).Some? ==>
                !r.Ok? && Image() == old(Image()) && running == old(running) && trusted == old(trusted)
      ensures forall j | LiveRecord(old(Image()), j) && RecoveryRefusal(old(files), sha) == None ::
                && (r.Ok? ==> files == map[Env := Config(Original(j))] && lost == {} && running == Some(Original(j)))
                && (Recovery in files ==> LiveRecord(Image(), j))
                && (Recovery !in files ==> Lookup(files, Env) == Some(Config(Original(j))))
                && Lookup(files, Env) in {Lookup(old(files), Env), Some(Config(Original(j)))}
      ensures forall records | Converging(old(Image()), records) :: Converging(Image(), records)
    {
      hide Inv, Converging;
      var o := AssertCurrent();
      if o != Done {
        return Crashed(o);
      }
      RecoveryRefusalMeans(files, sha);
      var refusal := RecoveryRefusal(files, sha);
      if refusal.Some? {
        return Refused(refusal.value);
      }
      var j := files[Recovery].record;
      o := AssertCurrent();
      if o != Done {
        return Crashed(o);
      }
      o := Restore(j);
      if o != Done {
        return Crashed(o);
      }
      o := Restart();
      if o != Done {
        return Crashed(o);
      }
      ghost var before := trusted;
      o := Verify();
      InvIsSafe(Image(), before);
      TrustGrows(Image(), before, Original(j));
      if o != Done {
        return Crashed(o);
      }
      o := Forget(j);
      if o != Done {
        return Crashed(o);
      }
      OnlyEnv(files, Config(Original(j)));
      return Ok;
    }

    /** The original configuration back in place and durable. */
    method Restore(j: Journal) returns (o: Outcome)
      requires Valid() && LiveRecord(Image(), j)
      modifies `files, `lost, `trouble
      ensures Valid() && LiveRecord(Image(), j)
      ensures Noted(old(trouble), trouble, {Replacing(Env)}, o)
      ensures Lookup(files, Env) in {Lookup(old(files), Env), Some(Config(Original(j)))}
      ensures o == Done ==> lost == {} && Lookup(files, Env) == Some(Config(Original(j)))
      ensures forall records | Converging(old(Image()), records) :: Converging(Image(), records)
    {
      hide Inv, Converging;
      ghost var before := Image();
      EnvRestored(before, trusted, j);
      o := Replace(Env, Config(Original(j)));
      EndKeepsInv(before, Replaced(before, Env, Config(Original(j))), Image(), trusted);
      forall records | Converging(before, records)
        ensures Converging(Image(), records)
      {
        RestoringKeepsConverging(before, j, records);
        EndKeepsConverging(before, Replaced(before, Env, Config(Original(j))), Image(), records);
      }
    }

    /** The record of a verified configuration removed for good. */
    method Forget(j: Journal) returns (o: Outcome)
      requires Valid() && LiveRecord(Image(), j) && lost == {}
      requires running.Some? && Lookup(files, Env) == Some(Config(running.value)) && running.value in trusted
      modifies `files, `lost, `trouble
      ensures Valid()
      ensures Noted(old(trouble), trouble, {RemovingRecord}, o)
      ensures files == old(files) || files == old(files) - {Recovery}
      ensures o == Done ==> files == old(files) - {Recovery} && lost == {}
      ensures running.value == Original(j) ==>
                forall records | Converging(old(Image()), records) :: Converging(Image(), records)
    {
      hide Inv, Converging;
      ghost var before := Image();
      RecordRemoved(before, trusted, j);
      o := RemoveRecord();
      EndKeepsInv(before, Unlinked(before, Recovery), Image(), trusted);
      forall records | running.value == Original(j) && Converging(before, records)
        ensures Converging(Image(), records)
      {
        RemovingKeepsConverging(before, j, records);
        EndKeepsConverging(before, Unlinked(before, Recovery), Image(), records);
      }
    }

    // ---------- activation ----------

    method Apply(sha: string, original: EnvFile, updated: string) returns (r: Result)
      requires Valid() && Lookup(files, Env) == Some(Config(original)) && Readable(original) && updated != ""
      modifies this
      ensures Valid() && old(trusted) <= trusted && forall e | e in trusted && e !in old(trusted) :: running == Some(e)
      ensures r.Refused? <==> Recovery in old(files)
      ensures r.Refused? ==> Image() == old(Image()) && r.reason == RecoveryRequired
      ensures r.Ok? ==>
                var after := EnvFile(updated, original.gid);
                files == map[Env := Config(after)] && lost == {} && running == Some(after) && after in trusted
      ensures r.Crashed? ==> Unfinished(files, trusted, sha, original, updated)
      ensures old(trouble) <= trouble
      ensures ActivationTold(original, updated, trouble[|old(trouble)|..], r, Image(), running)
    {
      hide Inv, Converging;
      if Recovery in files {
        return Refused(RecoveryRequired);
      }
      var j := RecordOf(sha, original, updated);
      ghost var before := Image();
      RecordPublished(before, trusted, j);
      var o := Replace(Recovery, RecoveryFile(j));
      EndKeepsInv(before, Replaced(before, Recovery, RecoveryFile(j)), Image(), trusted);
      if o != Done {
        return Crashed(o);
      }
      o := Activate(j, EnvFile(updated, original.gid));
      if o == Killed {
        return Crashed(Killed);
      }
      if o == Failed {
        RecoveryIsAccepted(Image(), trusted, j);
        var undone := Recover(sha);
        return Crashed(if undone == Crashed(Killed) then Killed else Failed);
      }
      o := Forget(j);
      if o != Done {
        return Crashed(o);
      }
      OnlyEnv(files, Config(EnvFile(updated, original.gid)));
      return Ok;
    }

    method Activate(j: Journal, after: EnvFile) returns (o: Outcome)
      requires Valid() && LiveRecord(Image(), j) && lost == {} && Matches(j, after)
      modifies this
      ensures Valid() && old(trusted) <= trusted && forall e | e in trusted && e !in old(trusted) :: running == Some(e)
      ensures LiveRecord(Image(), j)
      ensures Noted(old(trouble), trouble, {AssertingCurrent, Replacing(Env), Restarting, Verifying}, o)
      ensures o != Done ==> trusted == old(trusted)
      ensures Lookup(files, Env) in {Lookup(old(files), Env), Some(Config(after))}
      ensures o == Done ==>
                lost == {} && Lookup(files, Env) == Some(Config(after)) && running == Some(after) && after in trusted
    {
      hide Inv;
      o := AssertCurrent();
      if o != Done {
        return;
      }
      ghost var before := Image();
      EnvReplaced(before, trusted, j, after);
      o := Replace(Env, Config(after));
      EndKeepsInv(before, Replaced(before, Env, Config(after)), Image(), trusted);
      if o != Done {
        return;
      }
      o := Restart();
      if o != Done {
        return;
      }
      ghost var known := trusted;
      o := Verify();
      TrustGrows(Image(), known, after);
    }

    /** The command line with its gates. */
    method Configure(sha: string, mode: Mode, retention: bool, targetValid: bool) returns (r: Result)
      requires Valid()
      modifies this
      ensures Valid() && old(trusted) <= trusted && forall e | e in trusted && e !in old(trusted) :: running == Some(e)
      ensures r.Refused? ==>
                && ConfigureRefusal(old(files), mode, retention, targetValid) == Some(r.reason)
                && Forbids(old(files), mode, retention, targetValid, r.reason)
      ensures r.Ok? ==> forall reason :: !Forbids(old(files), mode, retention, targetValid, reason)
      ensures old(trouble) <= trouble && (r.Crashed? <==> trouble != old(trouble))
      ensures ConfigureRefusal(old(files), mode, retention, targetValid).Some? || mode == Inspect ==>
                Image() == old(Image()) && running == old(running) && trusted == old(trusted)
      ensures ConfigureRefusal(old(files), mode, retention, targetValid).Some? ==> !r.Ok?
      ensures ConfigureRefusal(old(files), mode, retention, targetValid) == None && mode != Inspect ==>
                var original := old(files)[Env].env;
                var updated := EnvRender.Rendered(original.bytes, mode == Enable, retention).value;
                var after := EnvFile(updated, original.gid);
                && (r.Ok? ==> files == map[Env := Config(after)] && lost == {} && running == Some(after) && after in trusted)
                && (r.Crashed? ==> Unfinished(files, trusted, sha, original, updated))
                && (|| (Image() == old(Image()) && running == old(running))
                    || ActivationTold(original, updated, trouble[|old(trouble)|..], r, Image(), running))
    {
      hide Inv, EnvRender.Rendered;
      ConfigureRefusalMeans(files, mode, retention, targetValid);
      if retention && mode != Enable {
        return Refused(BadArguments);
      }
      var o := AssertCurrent();
      if o != Done {
        return Crashed(o);
      }
      if Recovery in files {
        return Refused(RecoveryRequired);
      }
      if Env !in files || !files[Env].Config? || !Readable(files[Env].env) {
        return Refused(EnvUnreadable);
      }
      var original := files[Env].env;
      if mode == Inspect {
        return Ok;
      }
      if mode == Enable && !targetValid {
        return Refused(TargetInvalid);
      }
      var rendered := EnvRender.Render(original.bytes, mode == Enable, retention);
      if rendered == None {
        return Refused(RenderRejected);
      }
      RenderedIsNotEmpty(original.bytes, mode == Enable, retention);
      r := Apply(sha, original, rendered.value);
    }
  }

  lemma RenderedIsNotEmpty(original: string, enabled: bool, retention: bool)
    requires EnvRender.Rendered(original, enabled, retention).Some?
    ensures EnvRender.Rendered(original, enabled, retention).value != ""
  {
  }

  lemma OnlyEnv(files: Files, c: File)
    requires Recovery !in files && Lookup(files, Env) == Some(c)
    ensures files == map[Env := c]
  {
    forall n | n in files
      ensures n == Env
    {
      match n
      case Env =>
      case Recovery =>
    }
  }

  /** A call ends in the state before it or after it, short of some write-back. */
  lemma EndKeepsInv(d: Store, full: Store, d': Store, trusted: set<EnvFile>)
    requires Inv(d, trusted) && Inv(full, trusted)
    requires d' == Synced(full) || WrittenBack(d, d') || WrittenBack(full, d')
    ensures Inv(d', trusted)
  {
    if WrittenBack(d, d') {
      DisturbanceKeepsInv(d, d', trusted);
    } else {
      DisturbanceKeepsInv(full, d', trusted);
    }
  }

  lemma EndKeepsConverging(d: Store, full: Store, d': Store, records: iset<Journal>)
    requires Converging(d, records) && Converging(full, records)
    requires d' == Synced(full) || WrittenBack(d, d') || WrittenBack(full, d')
    ensures Converging(d', records)
  {
    if WrittenBack(d, d') {
      DisturbanceKeepsConverging(d, d', records);
    } else {
      DisturbanceKeepsConverging(full, d', records);
    }
  }
}
