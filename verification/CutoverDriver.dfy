/** The cutover driver itself: journal a step, send it, journal its result. */
module CutoverDriver {
  import opened Ascending
  import opened CrashDirectory
  import opened Cutover
  import opened Optional

  datatype Reason =
    | TargetRequired | RulesRequired | RuleIncomplete | JournalConflict
    | ReadFailed | UnexpectedBinding | RequestConflict | RequestFailed | ReadbackDrift | SaveFailed

  /** How a run can end once it has validated its inputs; a conflict with the journal is not among them. */
  const LATE: set<Reason> := {ReadFailed, UnexpectedBinding, RequestFailed, ReadbackDrift, SaveFailed}

  datatype Run<+T> = Ok(value: T) | Raised(reason: Reason) | Died

  /** What a read of a package and of its configuration shows. */
  datatype View = View(version: int, active: bool, bound: bool, definition: Definition, refreshMode: string, refreshCron: string)

  /** A read that returned. */
  datatype Look = Look(path: Path, view: View)

  /** The calls that can fail, or in which the process can die. */
  datatype Call = Reading(path: Path) | Sending(key: Key) | Saving

  datatype Migration = Activated(source: int, target: int, refreshRun: string)

  datatype Reply = Success(response: Response) | Failure | Cut

  function DefaultRules(fixtures: (Definition, Definition)): map<int, Rule> {
    map[30 := Rule("首月体验已报名-HuangYouCan企微", fixtures.0, "every_3m", ""),
        37 := Rule("报名商品编号202608121337的用户", fixtures.1, "every_3m", "")]
  }

  function Effective(rules: Option<map<int, Rule>>, fixtures: (Definition, Definition)): map<int, Rule> {
    if rules.Some? then rules.value else DefaultRules(fixtures)
  }

  function FingerprintOf(rules: Option<map<int, Rule>>, fixtures: (Definition, Definition)): Fingerprint {
    if rules.Some? then Rules(rules.value)
    else Definitions(map i | i in DefaultRules(fixtures) :: DefaultRules(fixtures)[i].definition)
  }

  lemma SourcesAreRules(rules: Option<map<int, Rule>>, fixtures: (Definition, Definition))
    ensures SourcesOf(FingerprintOf(rules, fixtures)) == Sorted(Effective(rules, fixtures).Keys)
    ensures forall i | i in Effective(rules, fixtures) :: Prescribes(FingerprintOf(rules, fixtures), i, Effective(rules, fixtures)[i])
  {
    assert (map i | i in DefaultRules(fixtures) :: DefaultRules(fixtures)[i].definition).Keys == DefaultRules(fixtures).Keys;
  }

  lemma QuarterOf(i: nat, k: nat)
    requires k < 4
    ensures (4 * i + k) / 4 == i && (4 * i + k) % 4 == k
  {
  }

  lemma StepNames(b: Binding, i: nat)
    requires i < |SourcesOf(b.fingerprint)|
    ensures |PlanOf(b)| == 4 * |SourcesOf(b.fingerprint)|
    ensures var plan, source := PlanOf(b), SourcesOf(b.fingerprint)[i];
            && plan[4 * i].name == Name(source, Create) && plan[4 * i + 1].name == Name(source, Configure)
            && plan[4 * i + 2].name == Name(source, Activate) && plan[4 * i + 3].name == Name(source, Refresh)
  {
    hide SourcesOf;
    QuarterOf(i, 0);
    QuarterOf(i, 1);
    QuarterOf(i, 2);
    QuarterOf(i, 3);
  }

  /** The path a step has to use, once its package is known. */
  ghost predicate RightPath(j: Journal, name: Name, path: Path) {
    if name.action == Create then path == Packages
    else && Settled(j, Name(name.source, Create))
         && path == PathOf(name.action, j.steps[Name(name.source, Create)].result.value.package)
  }

  /** At most one request more, and that is the step's. */
  ghost predicate OneMore(sent: seq<Request>, sent': seq<Request>, name: Name) {
    sent' == sent || exists r: Request | r.key.name == name :: sent' == sent + [r]
  }

  ghost predicate Extends(j: Journal, j': Journal) {
    j'.binding == j.binding && forall n | Settled(j, n) :: Settled(j', n) && j'.steps[n] == j.steps[n]
  }

  // ---------- what was read ----------

  /** The reads from the `from`-th on that a finished migration rests on: the created package is bound
      to nothing, then its configuration reads back as the rule has it, then it is active and still
      bound to nothing. */
  ghost predicate Checked(looks: seq<Look>, from: nat, target: int, rule: Rule) {
    exists a, b, c | from <= a < b < c < |looks| ::
      && looks[a].path == Package(target) && !looks[a].view.bound
      && looks[b].path == Configuration(target) && looks[b].view.definition == rule.definition
      && looks[b].view.refreshMode == rule.refreshMode && looks[b].view.refreshCron == rule.refreshCron
      && looks[c].path == Package(target) && looks[c].view.active && !looks[c].view.bound
  }

  /** The last read shows why a migration was given up. */
  ghost predicate Shows(looks: seq<Look>, rule: Rule, reason: Reason) {
    looks != [] &&
    var last := looks[|looks| - 1];
    match reason
    case UnexpectedBinding => last.path.Package? && last.view.bound
    case ReadbackDrift =>
      || (last.path.Package? && (!last.view.active || last.view.bound))
      || (&& last.path.Configuration?
          && (|| last.view.definition != rule.definition || last.view.refreshMode != rule.refreshMode
              || last.view.refreshCron != rule.refreshCron))
    case _ => false
  }

  /** A version is only ever claimed after it was read from that package. */
  ghost predicate Based(looks: seq<Look>, r: Request) {
    && (r.body.Configuring? ==>
          r.path.Configuration? && exists l | l in looks :: l.path == Package(r.path.id) && l.view.version == r.body.expectedVersion)
    && (r.body.Activating? ==>
          r.path.Activation? && exists l | l in looks :: l.path == Package(r.path.id) && l.view.version == r.body.expectedVersion)
  }

  ghost predicate Grounded(looks: seq<Look>, file: Option<Journal>) {
    file.Some? ==> forall n | n in file.value.steps :: Based(looks, file.value.steps[n].request)
  }

  lemma GroundedWith(looks: seq<Look>, j: Journal, name: Name, record: Record)
    requires Grounded(looks, Some(j)) && Based(looks, record.request)
    ensures Grounded(looks, Some(j.(steps := j.steps[name := record])))
  {
    hide Based;
  }

  lemma StillGrounded(looks: seq<Look>, looks': seq<Look>, file: Option<Journal>)
    requires Grounded(looks, file) && looks <= looks'
    ensures Grounded(looks', file)
  {
    assert forall l | l in looks :: l in looks';
    forall n | file.Some? && n in file.value.steps
      ensures Based(looks', file.value.steps[n].request)
    {
      assert Based(looks, file.value.steps[n].request);
    }
  }

  lemma CheckedAt(looks: seq<Look>, from: nat, a: nat, b: nat, c: nat, target: int, rule: Rule)
    requires from <= a < b < c < |looks|
    requires looks[a].path == Package(target) && !looks[a].view.bound
    requires && looks[b].path == Configuration(target) && looks[b].view.definition == rule.definition
             && looks[b].view.refreshMode == rule.refreshMode && looks[b].view.refreshCron == rule.refreshCron
    requires looks[c].path == Package(target) && looks[c].view.active && !looks[c].view.bound
    ensures Checked(looks, from, target, rule)
  {
  }

  lemma StillChecked(looks: seq<Look>, looks': seq<Look>, from: nat, from': nat, target: int, rule: Rule)
    requires Checked(looks, from, target, rule) && looks <= looks' && from' <= from
    ensures Checked(looks', from', target, rule)
  {
  }

  lemma GroundedFromStart(looks: seq<Look>, file: Option<Journal>, j: Journal)
    requires Grounded(looks, file) && (file.Some? ==> file == Some(j)) && (file == None ==> j.steps == map[])
    ensures Grounded(looks, Some(j))
  {
  }

  /** Nothing but a call that did not return keeps a run from its end, once its inputs are accepted and
      the reads show nothing that stops it. */
  ghost predicate Told<T>(before: seq<Trouble<Call>>, r: Run<T>, after: seq<Trouble<Call>>) {
    match r
    case Ok(_) => after == before
    case Died => exists call :: after == before + [Trouble(call, Killed)]
    case Raised(ReadFailed) => exists path :: after == before + [Trouble(Reading(path), Failed)]
    case Raised(RequestFailed) => exists key :: after == before + [Trouble(Sending(key), Failed)]
    case Raised(SaveFailed) => after == before + [Trouble(Saving, Failed)]
    case Raised(_) => after == before
  }

  class Driver {
    var file: Option<Journal>
    var answers: map<Key, Answer>
    ghost var effects: seq<Key>
    ghost var sent: seq<Request>
    ghost var looks: seq<Look>
    ghost var trouble: seq<Trouble<Call>>

    ghost predicate Valid()
      reads this
    {
      Inv(file, answers, effects, sent) && Grounded(looks, file)
    }

    /** The journal in memory continues the one on disk. */
    ghost predicate Holds(j: Journal)
      reads this
    {
      && Inv(Some(j), answers, effects, sent) && Grounded(looks, Some(j))
      && (file == Some(j) || (file == None && j.steps == map[]))
    }

    constructor ()
      ensures Valid() && file == None && effects == [] && sent == [] && looks == [] && trouble == []
    {
      file, answers, effects, sent, looks, trouble := None, map[], [], [], [], [];
    }

    /** Written aside, synced and renamed: the file is the old journal or the new one. */
    method Save(j: Journal) returns (o: Outcome)
      modifies `file, `trouble
      ensures trouble == old(trouble) + if o == Done then [] else [Trouble(Saving, o)]
      ensures file == Some(j) || (o != Done && file == old(file))
    {
      var renamed: bool := *;
      o := *;
      if renamed || o == Done {
        file := Some(j);
      }
      trouble := trouble + if o == Done then [] else [Trouble(Saving, o)];
    }

    /** One request.  The server performs a key at most once and repeats its answer to the same request. */
    method Send(r: Request) returns (reply: Reply)
      modifies `answers, `effects, `sent, `trouble
      ensures reply.Success? ==> trouble == old(trouble)
      ensures reply.Failure? ==> trouble == old(trouble) + [Trouble(Sending(r.key), Failed)]
      ensures reply.Cut? ==> trouble == old(trouble) + [Trouble(Sending(r.key), Killed)]
      ensures sent == old(sent) + [r]
      ensures || (answers == old(answers) && effects == old(effects))
              || (r.key !in old(answers) && effects == old(effects) + [r.key]
                  && r.key in answers && answers == old(answers)[r.key := Answer(r, answers[r.key].response)])
      ensures reply.Success? ==> r.key in answers && answers[r.key] == Answer(r, reply.response)
    {
      sent := sent + [r];
      var arrives: bool := *;
      if arrives && r.key !in answers {
        var package: int := *;
        var run: string := *;
        answers, effects := answers[r.key := Answer(r, Response(package, run))], effects + [r.key];
      }
      var answered: bool := *;
      if arrives && answered && answers[r.key].request == r {
        return Success(answers[r.key].response);
      }
      var dies: bool := *;
      trouble := trouble + [Trouble(Sending(r.key), if dies then Killed else Failed)];
      reply := if dies then Cut else Failure;
    }

    method Read(path: Path) returns (view: Option<View>)
      modifies `looks, `trouble
      ensures looks == old(looks) + if view.Some? then [Look(path, view.value)] else []
      ensures trouble == old(trouble) + if view.Some? then [] else [Trouble(Reading(path), Failed)]
    {
      view := *;
      looks := looks + if view.Some? then [Look(path, view.value)] else [];
      trouble := trouble + if view.Some? then [] else [Trouble(Reading(path), Failed)];
    }

    method MakeBody(b: Binding, name: Name, rule: Rule, id: int) returns (body: Option<Body>)
      requires Prescribes(b.fingerprint, name.source, rule)
      modifies `looks, `trouble
      ensures old(looks) <= looks
      ensures body.Some? ==>
                && RightBody(b, name, body.value) && trouble == old(trouble)
                && forall r: Request | r.body == body.value && r.path == PathOf(name.action, id) :: Based(looks, r)
      ensures body == None ==> exists path :: trouble == old(trouble) + [Trouble(Reading(path), Failed)]
    {
      match name.action
      case Create =>
        return Some(Creation(rule.name, rule.definition.templateKey));
      case Configure =>
        var view := Read(Package(id));
        if view == None {
          return None;
        }
        assert Look(Package(id), view.value) in looks;
        return Some(Configuring(view.value.version, rule.refreshCron, rule.refreshMode, rule.definition));
      case Activate =>
        var view := Read(Package(id));
        if view == None {
          return None;
        }
        assert Look(Package(id), view.value) in looks;
        return Some(Activating(view.value.version));
      case Refresh =>
        return Some(RefreshingAt(b.reference));
    }

    /** The request of the next step into the journal. */
    method Plan(j: Journal, name: Name, path: Path, rule: Rule, id: int, ghost k: nat) returns (r: Run<()>, j': Journal)
      requires Valid() && Holds(j) && Ready(j, k) && k < |PlanOf(j.binding)|
      requires PlanOf(j.binding)[k].name == name && name !in j.steps && RightPath(j, name, path)
      requires Prescribes(j.binding.fingerprint, name.source, rule)
      requires path == PathOf(name.action, id)
      modifies `file, `looks, `trouble
      ensures Valid() && (r.Raised? ==> r.reason in {ReadFailed, SaveFailed})
      ensures old(looks) <= looks && Told(old(trouble), r, trouble)
      ensures r.Ok? ==>
                && Holds(j') && file == Some(j') && Ready(j', k) && Extends(j, j') && j'.binding == j.binding
                && name in j'.steps && j'.steps[name].result == None
      ensures file == old(file) || (file.Some? && file.value.binding == j.binding)
    {
      hide Inv, PlanOf, Ready, RightBody, Prescribes, SourcesOf, Sorted, Based, Grounded;
      var body := MakeBody(j.binding, name, rule, id);
      StillGrounded(old(looks), looks, file);
      StillGrounded(old(looks), looks, Some(j));
      if body == None {
        return Raised(ReadFailed), j;
      }
      var record := Record(Request(Key(j.binding, name), VerbOf(name.action), path, body.value), None);
      j' := j.(steps := j.steps[name := record]);
      NextIsPlanned(j, name, record);
      StepJournaled(j, answers, effects, sent, k, record);
      GroundedWith(looks, j, name, record);
      var o := Save(j');
      r := if o == Done then Ok(()) else if o == Killed then Died else Raised(SaveFailed);
    }

    /** One step: journaled before it is sent, its answer journaled before the next one. */
    method Step(j: Journal, name: Name, path: Path, rule: Rule, id: int, ghost k: nat) returns (r: Run<Response>,
                j': Journal)
      requires Valid() && Holds(j) && Ready(j, k) && k < |PlanOf(j.binding)|
      requires PlanOf(j.binding)[k].name == name && RightPath(j, name, path)
      requires Prescribes(j.binding.fingerprint, name.source, rule)
      requires path == PathOf(name.action, id)
      modifies this
      ensures Valid() && (r.Raised? ==> r.reason in {ReadFailed, RequestFailed, SaveFailed})
      ensures old(looks) <= looks && Told(old(trouble), r, trouble)
      ensures OneMore(old(sent), sent, name)
      ensures r.Ok? ==>
                && Holds(j') && file == Some(j') && Ready(j', k + 1) && Extends(j, j') && j'.binding == j.binding
                && Settled(j', name) && j'.steps[name].result == Some(r.value)
      ensures file == old(file) || (file.Some? && file.value.binding == j.binding)
    {
      hide Inv, PlanOf, Ready, RightBody, Prescribes, SourcesOf, Sorted, Grounded;
      j' := j;
      if name !in j.steps {
        var written;
        written, j' := Plan(j, name, path, rule, id, k);
        if !written.Ok? {
          return if written.Died? then Died else Raised(written.reason), j';
        }
      }
      JournaledPath(j', answers, effects, sent, name, path);
      var item := j'.steps[name];
      if item.request.path != path || item.request.verb != VerbOf(name.action) {
        return Raised(RequestConflict), j';
      }
      if item.result == None {
        r, j' := Deliver(j', name, k);
        return;
      }
      ReadyFurther(j', k);
      return Ok(item.result.value), j';
    }

    method Deliver(j: Journal, name: Name, ghost k: nat) returns (r: Run<Response>, j': Journal)
      requires file == Some(j) && Valid() && Ready(j, k) && k < |PlanOf(j.binding)|
      requires PlanOf(j.binding)[k].name == name && name in j.steps && j.steps[name].result == None
      modifies this
      ensures Valid() && (r.Raised? ==> r.reason in {RequestFailed, SaveFailed})
      ensures looks == old(looks) && Told(old(trouble), r, trouble)
      ensures OneMore(old(sent), sent, name)
      ensures r.Ok? ==>
                && Holds(j') && file == Some(j') && Ready(j', k + 1) && Extends(j, j') && j'.binding == j.binding
                && Settled(j', name) && j'.steps[name].result == Some(r.value)
      ensures file.Some? && file.value.binding == j.binding
    {
      hide Inv, PlanOf, Ready;
      KeyOfStep(j.binding, k);
      var item := j.steps[name];
      RequestSent(j, answers, effects, sent, k, Response(0, ""));
      var reply := Send(item.request);
      if item.request.key in answers {
        RequestSent(j, old(answers), old(effects), old(sent), k, answers[item.request.key].response);
      }
      match reply
      case Cut => return Died, j;
      case Failure => return Raised(RequestFailed), j;
      case Success(response) =>
        ResultJournaled(j, answers, effects, sent, k);
        j' := j.(steps := j.steps[name := item.(result := Some(response))]);
        var o := Save(j');
        if o != Done {
          return if o == Killed then Died else Raised(SaveFailed), j';
        }
        return Ok(response), j';
    }

    /** A read between two steps. */
    method Observe(j: Journal, path: Path) returns (view: Option<View>)
      requires Valid() && Holds(j)
      modifies `looks, `trouble
      ensures Valid() && Holds(j)
      ensures looks == old(looks) + if view.Some? then [Look(path, view.value)] else []
      ensures trouble == old(trouble) + if view.Some? then [] else [Trouble(Reading(path), Failed)]
    {
      hide Inv, Grounded;
      view := Read(path);
      StillGrounded(old(looks), looks, file);
      StillGrounded(old(looks), looks, Some(j));
    }

    /** The audience of one source, as long as it is bound to nothing yet. */
    method CreateAudience(j: Journal, source: int, rule: Rule, ghost i: nat) returns (r: Run<int>, j': Journal)
      requires Valid() && Holds(j) && i < |SourcesOf(j.binding.fingerprint)| && SourcesOf(j.binding.fingerprint)[i] == source
      requires Ready(j, 4 * i) && Prescribes(j.binding.fingerprint, source, rule)
      modifies this
      ensures Valid() && (r.Raised? ==> r.reason in LATE)
      ensures old(looks) <= looks && Told(old(trouble), r, trouble)
      ensures OneMore(old(sent), sent, Name(source, Create))
      ensures r.Ok? ==>
                && Holds(j') && file == Some(j') && Ready(j', 4 * i + 1) && Extends(j, j') && j'.binding == j.binding
                && Created(j', source, r.value)
                && |looks| > |old(looks)|
                && looks[|looks| - 1].path == Package(r.value) && !looks[|looks| - 1].view.bound
      ensures r == Raised(UnexpectedBinding) || r == Raised(ReadbackDrift) ==> Shows(looks, rule, r.reason)
      ensures file == old(file) || (file.Some? && file.value.binding == j.binding)
    {
      hide Inv, PlanOf, Ready, Extends, RightPath, Prescribes, Grounded, OneMore;
      StepNames(j.binding, i);
      CreationPath(j, source);
      var created;
      created, j' := Step(j, Name(source, Create), Packages, rule, 0, 4 * i);
      if !created.Ok? {
        return if created.Died? then Died else Raised(created.reason), j';
      }
      var target := created.value.package;
      var view := Observe(j', Package(target));
      if view == None {
        return Raised(ReadFailed), j';
      }
      if view.value.bound {
        return Raised(UnexpectedBinding), j';
      }
      return Ok(target), j';
    }

    /** Its rule, read back. */
    method ConfigureAudience(j: Journal, source: int, target: int, rule: Rule, ghost i: nat) returns (r: Run<()>, j': Journal)
      requires Valid() && Holds(j) && i < |SourcesOf(j.binding.fingerprint)| && SourcesOf(j.binding.fingerprint)[i] == source
      requires Ready(j, 4 * i + 1) && Prescribes(j.binding.fingerprint, source, rule) && Created(j, source, target)
      modifies this
      ensures Valid() && (r.Raised? ==> r.reason in LATE - {UnexpectedBinding})
      ensures old(looks) <= looks && Told(old(trouble), r, trouble)
      ensures r.Ok? ==>
                && Holds(j') && file == Some(j') && Ready(j', 4 * i + 2) && Extends(j, j') && j'.binding == j.binding
                && |looks| > |old(looks)|
                && var last := looks[|looks| - 1];
                   && last.path == Configuration(target) && last.view.definition == rule.definition
                   && last.view.refreshMode == rule.refreshMode && last.view.refreshCron == rule.refreshCron
      ensures r == Raised(ReadbackDrift) ==> Shows(looks, rule, r.reason)
      ensures file == old(file) || (file.Some? && file.value.binding == j.binding)
    {
      hide Inv, PlanOf, Ready, Settled, Extends, RightPath, Prescribes, Grounded, OneMore, Created;
      StepNames(j.binding, i);
      CreatedPaths(j, j, source, target);
      var done;
      done, j' := Step(j, Name(source, Configure), Configuration(target), rule, target, 4 * i + 1);
      if !done.Ok? {
        return if done.Died? then Died else Raised(done.reason), j';
      }
      var view := Observe(j', Configuration(target));
      if view == None {
        return Raised(ReadFailed), j';
      }
      if || view.value.definition != rule.definition || view.value.refreshMode != rule.refreshMode
         || view.value.refreshCron != rule.refreshCron {
        return Raised(ReadbackDrift), j';
      }
      return Ok(()), j';
    }

    /** Its activation and first refresh, read back. */
    method ActivateAudience(j: Journal, source: int, target: int, rule: Rule, ghost i: nat) returns (r: Run<string>, j': Journal)
      requires Valid() && Holds(j) && i < |SourcesOf(j.binding.fingerprint)| && SourcesOf(j.binding.fingerprint)[i] == source
      requires Ready(j, 4 * i + 2) && Prescribes(j.binding.fingerprint, source, rule) && Created(j, source, target)
      modifies this
      ensures Valid() && (r.Raised? ==> r.reason in LATE - {UnexpectedBinding})
      ensures old(looks) <= looks && Told(old(trouble), r, trouble)
      ensures r.Ok? ==>
                && Holds(j') && file == Some(j') && Ready(j', 4 * i + 4) && Extends(j, j') && j'.binding == j.binding
                && Reported(j', Activated(source, target, r.value))
                && |looks| > |old(looks)|
                && var last := looks[|looks| - 1]; last.path == Package(target) && last.view.active && !last.view.bound
      ensures r == Raised(ReadbackDrift) ==> Shows(looks, rule, r.reason)
      ensures file == old(file) || (file.Some? && file.value.binding == j.binding)
    {
      hide SourcesOf, Sorted, Driver.Valid, Driver.Holds;
      hide Inv, PlanOf, Ready, Settled, Extends, RightPath, Prescribes, Grounded, OneMore, Created, Reported;
      StepNames(j.binding, i);
      CreatedPaths(j, j, source, target);
      var done;
      done, j' := Step(j, Name(source, Activate), Activation(target), rule, target, 4 * i + 2);
      if !done.Ok? {
        return if done.Died? then Died else Raised(done.reason), j';
      }
      CreatedPaths(j, j', source, target);
      ghost var activated := j';
      done, j' := Step(j', Name(source, Refresh), Refreshing(target), rule, target, 4 * i + 3);
      if !done.Ok? {
        return if done.Died? then Died else Raised(done.reason), j';
      }
      CreatedPaths(activated, j', source, target);
      ExtendsThrough(j, activated, j');
      var view := Observe(j', Package(target));
      if view == None {
        return Raised(ReadFailed), j';
      }
      if !view.value.active || view.value.bound {
        return Raised(ReadbackDrift), j';
      }
      MigrationReported(j', source, target, done.value.run);
      return Ok(done.value.run), j';
    }

    /** Create, configure, activate and refresh the audience of one source. */
    method Migrate(j: Journal, source: int, rule: Rule, ghost i: nat) returns (r: Run<Migration>, j': Journal)
      requires Valid() && Holds(j) && i < |SourcesOf(j.binding.fingerprint)| && SourcesOf(j.binding.fingerprint)[i] == source
      requires Ready(j, 4 * i) && Prescribes(j.binding.fingerprint, source, rule)
      modifies this
      ensures Valid() && (r.Raised? ==> r.reason in LATE)
      ensures old(looks) <= looks && Told(old(trouble), r, trouble)
      ensures r.Ok? ==>
                && Holds(j') && file == Some(j') && Ready(j', 4 * i + 4) && Extends(j, j') && j'.binding == j.binding
                && Reported(j', r.value) && r.value.source == source
                && Checked(looks, |old(looks)|, r.value.target, rule)
      ensures r == Raised(UnexpectedBinding) ==> OneMore(old(sent), sent, Name(source, Create))
      ensures r == Raised(UnexpectedBinding) || r == Raised(ReadbackDrift) ==> Shows(looks, rule, r.reason)
      ensures file == old(file) || (file.Some? && file.value.binding == j.binding)
    {
      hide Inv, PlanOf, Ready, Settled, Extends, RightPath, Prescribes, Grounded, OneMore, Created, Reported, Shows;
      hide Checked, SourcesOf, Sorted, Driver.Valid, Driver.Holds;
      var created;
      created, j' := CreateAudience(j, source, rule, i);
      if !created.Ok? {
        return if created.Died? then Died else Raised(created.reason), j';
      }
      var target := created.value;
      ghost var first, a := j', |looks| - 1;
      var configured;
      configured, j' := ConfigureAudience(j', source, target, rule, i);
      if !configured.Ok? {
        return if configured.Died? then Died else Raised(configured.reason), j';
      }
      CreatedPaths(first, j', source, target);
      ghost var second, b := j', |looks| - 1;
      var refreshed;
      refreshed, j' := ActivateAudience(j', source, target, rule, i);
      if !refreshed.Ok? {
        return if refreshed.Died? then Died else Raised(refreshed.reason), j';
      }
      ExtendsThrough(j, first, second);
      ExtendsThrough(j, second, j');
      CheckedAt(looks, |old(looks)|, a, b, |looks| - 1, target, rule);
      return Ok(Activated(source, target, refreshed.value)), j';
    }

    method Apply(target: string, reference: string, rules: Option<map<int, Rule>>, fixtures: (Definition, Definition))
      returns (r: Run<seq<Migration>>)
      requires Valid()
      modifies this
      ensures Valid() && r != Raised(RequestConflict)
      ensures r.Ok? ==>
                var b := Binding(target, FingerprintOf(rules, fixtures), reference);
                && file.Some? && file.value.binding == b && effects == PlanOf(b)
                && |r.value| == |SourcesOf(b.fingerprint)|
                && forall i | 0 <= i < |r.value| ::
                     r.value[i].source == SourcesOf(b.fingerprint)[i] && Reported(file.value, r.value[i])
      // What is refused before anything is read or sent, exactly.
      ensures var given := if rules.Some? then rules.value else DefaultRules(fixtures);
              && (r == Raised(TargetRequired) <==> target == "")
              && (r == Raised(RulesRequired) <==> target != "" && (given == map[] || exists i | i in given :: i <= 0))
              && (r == Raised(RuleIncomplete) <==>
                    && target != "" && given != map[] && (forall i | i in given :: 0 < i)
                    && exists i | i in given :: given[i].name == "" || given[i].definition.templateKey == "")
              && (r == Raised(JournalConflict) <==>
                    && target != "" && given != map[] && (forall i | i in given :: 0 < i)
                    && (forall i | i in given :: given[i].name != "" && given[i].definition.templateKey != "")
                    && old(file).Some?
                    && (|| old(file).value.binding.target != target || old(file).value.binding.reference != reference
                        || old(file).value.binding.fingerprint != FingerprintOf(rules, fixtures)))
      // What the reads of this run showed.
      ensures old(looks) <= looks && Told(old(trouble), r, trouble)
      ensures r.Ok? ==>
                var given := if rules.Some? then rules.value else DefaultRules(fixtures);
                forall i | 0 <= i < |r.value| ::
                  r.value[i].source in given && Checked(looks, |old(looks)|, r.value[i].target, given[r.value[i].source])
      ensures r == Raised(UnexpectedBinding) || r == Raised(ReadbackDrift) ==>
                var given := if rules.Some? then rules.value else DefaultRules(fixtures);
                exists i | i in given :: Shows(looks, given[i], r.reason)
      ensures r.Raised? && r.reason in {TargetRequired, RulesRequired, RuleIncomplete, JournalConflict} ==>
                file == old(file) && answers == old(answers) && effects == old(effects) && sent == old(sent)
    {
      hide Inv, PlanOf, Ready, SourcesOf, Sorted, FingerprintOf, DefaultRules, Reported, Prescribes, Grounded, Checked, Shows;
      if target == "" {
        return Raised(TargetRequired);
      }
      var given := Effective(rules, fixtures);
      if given == map[] || exists i | i in given :: i < 1 {
        return Raised(RulesRequired);
      }
      if exists i | i in given :: given[i].name == "" || given[i].definition.templateKey == "" {
        return Raised(RuleIncomplete);
      }
      var b := Binding(target, FingerprintOf(rules, fixtures), reference);
      var j := if file.Some? then file.value else Journal(b, map[]);
      if j.binding != b {
        return Raised(JournalConflict);
      }
      NothingYet(file, j, answers, effects, sent);
      NothingReady(j);
      SourcesAreRules(rules, fixtures);
      GroundedFromStart(looks, file, j);
      r := MigrateAll(j, given);
    }

    method MigrateAll(start: Journal, given: map<int, Rule>) returns (r: Run<seq<Migration>>)
      requires Valid() && Holds(start) && Ready(start, 0)
      requires SourcesOf(start.binding.fingerprint) == Sorted(given.Keys) && given != map[]
      requires forall i | i in given :: Prescribes(start.binding.fingerprint, i, given[i])
      modifies this
      ensures Valid() && (r.Raised? ==> r.reason in LATE)
      ensures old(looks) <= looks && Told(old(trouble), r, trouble)
      ensures r.Ok? ==> forall i | 0 <= i < |r.value| ::
                r.value[i].source in given && Checked(looks, |old(looks)|, r.value[i].target, given[r.value[i].source])
      ensures r == Raised(UnexpectedBinding) || r == Raised(ReadbackDrift) ==>
                exists i | i in given :: Shows(looks, given[i], r.reason)
      ensures r.Ok? ==>
                && file.Some? && file.value.binding == start.binding && effects == PlanOf(start.binding)
                && |r.value| == |SourcesOf(start.binding.fingerprint)|
                && forall i | 0 <= i < |r.value| ::
                     r.value[i].source == SourcesOf(start.binding.fingerprint)[i] && Reported(file.value, r.value[i])
    {
      hide Inv, PlanOf, Ready, SourcesOf, Sorted, Reported, Extends, Prescribes, Grounded, Checked, Shows;
      var j := start;
      var sources := Sorted(given.Keys);
      SortedHasTheKeys(given.Keys);
      PlanLength(j.binding);
      var outcomes: seq<Migration> := [];
      for i := 0 to |sources|
        invariant Valid() && Holds(j) && Ready(j, 4 * i) && j.binding == start.binding
        invariant i > 0 ==> file == Some(j)
        invariant |outcomes| == i
        invariant old(looks) <= looks && trouble == old(trouble)
        invariant forall k | 0 <= k < i ::
                    sources[k] in given && Checked(looks, |old(looks)|, outcomes[k].target, given[sources[k]])
        invariant forall k | 0 <= k < i :: outcomes[k].source == sources[k] && Reported(j, outcomes[k])
      {
        var done;
        ghost var before, seen := j, looks;
        done, j := Migrate(j, sources[i], given[sources[i]], i);
        if !done.Ok? {
          return if done.Died? then Died else Raised(done.reason);
        }
        forall k | 0 <= k < i
          ensures Reported(j, outcomes[k])
        {
          StillReported(before, j, outcomes[k]);
        }
        forall k | 0 <= k < i
          ensures Checked(looks, |old(looks)|, outcomes[k].target, given[sources[k]])
        {
          StillChecked(seen, looks, |old(looks)|, |old(looks)|, outcomes[k].target, given[sources[k]]);
        }
        StillChecked(looks, looks, |seen|, |old(looks)|, done.value.target, given[sources[i]]);
        outcomes := outcomes + [done.value];
      }
      AllDone(file, j, answers, effects, sent);
      return Ok(outcomes);
    }
  }

  ghost predicate Created(j: Journal, source: int, target: int) {
    Settled(j, Name(source, Create)) && j.steps[Name(source, Create)].result.value.package == target
  }

  lemma CreationPath(j: Journal, source: int)
    ensures RightPath(j, Name(source, Create), Packages)
  {
  }

  lemma CreatedPaths(j: Journal, j': Journal, source: int, target: int)
    requires Created(j, source, target) && (j' == j || Extends(j, j'))
    ensures Created(j', source, target)
    ensures RightPath(j', Name(source, Configure), Configuration(target))
    ensures RightPath(j', Name(source, Activate), Activation(target))
    ensures RightPath(j', Name(source, Refresh), Refreshing(target))
  {
  }

  lemma ExtendsThrough(j: Journal, j': Journal, j'': Journal)
    requires Extends(j, j') && Extends(j', j'')
    ensures Extends(j, j'')
  {
  }

  lemma MigrationReported(j: Journal, source: int, target: int, run: string)
    requires Created(j, source, target)
    requires Settled(j, Name(source, Refresh)) && j.steps[Name(source, Refresh)].result.value.run == run
    ensures Reported(j, Activated(source, target, run))
  {
  }

  /** What the driver returns about a source is what the server answered. */
  ghost predicate Reported(j: Journal, o: Migration) {
    && Settled(j, Name(o.source, Create)) && j.steps[Name(o.source, Create)].result.value.package == o.target
    && Settled(j, Name(o.source, Refresh)) && j.steps[Name(o.source, Refresh)].result.value.run == o.refreshRun
  }

  lemma StillReported(j: Journal, j': Journal, o: Migration)
    requires Reported(j, o) && Extends(j, j')
    ensures Reported(j', o)
  {
  }

  lemma SortedHasTheKeys(keys: set<int>)
    ensures forall x :: x in Sorted(keys) <==> x in keys
    ensures keys != {} ==> Sorted(keys) != []
  {
  }

  lemma NothingReady(j: Journal)
    ensures Ready(j, 0)
  {
  }

  lemma PlanLength(b: Binding)
    ensures |PlanOf(b)| == 4 * |SourcesOf(b.fingerprint)|
  {
  }

  lemma KeyOfStep(b: Binding, k: nat)
    requires k < |PlanOf(b)|
    ensures PlanOf(b)[k] == Key(b, PlanOf(b)[k].name)
  {
    NamesDiffer(b);
  }

  lemma NextIsPlanned(j: Journal, name: Name, record: Record)
    requires name !in j.steps && RightPath(j, name, record.request.path)
    requires record.request.key == Key(j.binding, name) && record.request.verb == VerbOf(name.action)
    requires RightBody(j.binding, name, record.request.body)
    ensures Planned(j.(steps := j.steps[name := record]), name)
    ensures Extends(j, j.(steps := j.steps[name := record]))
  {
  }

  /** The conflict check compares a request with itself: the created package of a source never changes. */
  lemma JournaledPath(j: Journal, answers: map<Key, Answer>, effects: seq<Key>, sent: seq<Request>, name: Name,
                      path: Path)
    requires Inv(Some(j), answers, effects, sent) && name in j.steps && RightPath(j, name, path)
    ensures j.steps[name].request.path == path && j.steps[name].request.verb == VerbOf(name.action)
  {
    StepsArePlanned(j);
  }

  lemma AllDone(file: Option<Journal>, j: Journal, answers: map<Key, Answer>, effects: seq<Key>, sent: seq<Request>)
    requires Inv(Some(j), answers, effects, sent) && Ready(j, |PlanOf(j.binding)|)
    ensures effects == PlanOf(j.binding)
  {
    PlanDone(j, answers, effects);
  }

  /** Different inputs leave different traces in the journal, so that a run cannot continue another's. */
  lemma FingerprintTells(rules: Option<map<int, Rule>>, fixtures: (Definition, Definition), rules': Option<map<int, Rule>>,
                         fixtures': (Definition, Definition))
    ensures FingerprintOf(rules, fixtures) == FingerprintOf(rules', fixtures')
            <==> rules == rules' && (rules == None ==> fixtures == fixtures')
  {
    hide DefaultRules, FingerprintOf;
    FingerprintKinds(rules, fixtures);
    FingerprintKinds(rules', fixtures');
    if rules == None && rules' == None {
      DefaultDefinitions(fixtures);
      DefaultDefinitions(fixtures');
      var m, m' := FingerprintOf(rules, fixtures).byDefault, FingerprintOf(rules', fixtures').byDefault;
      assert m[30] == fixtures.0 && m[37] == fixtures.1 && m'[30] == fixtures'.0 && m'[37] == fixtures'.1;
    }
  }

  lemma FingerprintKinds(rules: Option<map<int, Rule>>, fixtures: (Definition, Definition))
    ensures FingerprintOf(rules, fixtures).Rules? <==> rules.Some?
    ensures rules.Some? ==> FingerprintOf(rules, fixtures).given == rules.value
  {
  }

  lemma DefaultDefinitions(fixtures: (Definition, Definition))
    ensures FingerprintOf(None, fixtures).Definitions?
    ensures FingerprintOf(None, fixtures).byDefault == map[30 := fixtures.0, 37 := fixtures.1]
  {
  }

  /** The four requests of the administration interface, for the package that the server created. */
  ghost predicate Shaped(r: Request, answers: map<Key, Answer>) {
    var b, source := r.key.binding, r.key.name.source;
    var creation := Key(b, Name(source, Create));
    match r.key.name.action
    case Create =>
      && r.verb == Post && r.path == Packages && r.body.Creation?
      && (b.fingerprint.Rules? ==>
            && source in b.fingerprint.given
            && var rule := b.fingerprint.given[source]; r.body == Creation(rule.name, rule.definition.templateKey))
      && (b.fingerprint.Definitions? ==>
            source in b.fingerprint.byDefault && r.body.templateKey == b.fingerprint.byDefault[source].templateKey)
    case Configure =>
      && r.verb == Put && creation in answers && r.path == Configuration(answers[creation].response.package)
      && r.body.Configuring?
      && (b.fingerprint.Rules? ==>
            && source in b.fingerprint.given
            && var rule := b.fingerprint.given[source];
               r.body == Configuring(r.body.expectedVersion, rule.refreshCron, rule.refreshMode, rule.definition))
      && (b.fingerprint.Definitions? ==>
            source in b.fingerprint.byDefault && r.body.definition == b.fingerprint.byDefault[source])
    case Activate =>
      && r.verb == Post && creation in answers && r.path == Activation(answers[creation].response.package)
      && r.body.Activating?
    case Refresh =>
      && r.verb == Post && creation in answers && r.path == Refreshing(answers[creation].response.package)
      && r.body == RefreshingAt(b.reference)
  }

  lemma RequestsAreShaped(file: Option<Journal>, answers: map<Key, Answer>, effects: seq<Key>, sent: seq<Request>)
    requires Inv(file, answers, effects, sent)
    ensures forall r | r in sent :: Shaped(r, answers)
  {
    if file.Some? {
      StepsArePlanned(file.value);
      forall r | r in sent
        ensures Shaped(r, answers)
      {
        assert Planned(file.value, r.key.name);
        StepsAreOfSources(file.value, r.key.name);
      }
    }
  }

  lemma StepsAreOfSources(j: Journal, name: Name)
    requires InOrder(j) && name in j.steps
    ensures name.source in SourcesOf(j.binding.fingerprint)
    ensures DefinitionOf(j.binding.fingerprint, name.source).Some?
  {
  }

  lemma SentHasGrounds(file: Option<Journal>, answers: map<Key, Answer>, effects: seq<Key>, sent: seq<Request>, looks: seq<Look>)
    requires Inv(file, answers, effects, sent) && Grounded(looks, file)
    ensures forall r | r in sent :: Based(looks, r)
  {
  }

  /** Any number of crashes and reruns, whatever their inputs. */
  method Rerun(d: Driver, runs: nat) returns (finished: bool)
    requires d.Valid()
    modifies d
    ensures d.Valid()
    ensures forall r, r' | r in d.sent && r' in d.sent && r.key == r'.key :: r == r'
    ensures forall i, k | 0 <= i < k < |d.effects| :: d.effects[i] != d.effects[k]
    ensures d.file.Some? ==> d.effects <= PlanOf(d.file.value.binding)
    ensures finished ==> d.file.Some? && d.effects == PlanOf(d.file.value.binding)
    ensures forall r | r in d.sent :: Shaped(r, d.answers) && Based(d.looks, r)
  {
    hide Inv, PlanOf, Shaped, Based, Grounded, Told;
    finished := false;
    var left := runs;
    while left > 0 && !finished
      invariant d.Valid()
      invariant finished ==> d.file.Some? && d.effects == PlanOf(d.file.value.binding)
      decreases left, !finished
    {
      left := left - 1;
      var target: string := *;
      var reference: string := *;
      var rules: Option<map<int, Rule>> := *;
      var fixtures: (Definition, Definition) := *;
      var r := d.Apply(target, reference, rules, fixtures);
      finished := r.Ok?;
    }
    OneRequestPerKey(d.file, d.answers, d.effects, d.sent);
    EffectsAreOnce(d.file, d.answers, d.effects, d.sent);
    RequestsAreShaped(d.file, d.answers, d.effects, d.sent);
    SentHasGrounds(d.file, d.answers, d.effects, d.sent, d.looks);
  }

  lemma EffectsAreOnce(file: Option<Journal>, answers: map<Key, Answer>, effects: seq<Key>, sent: seq<Request>)
    requires Inv(file, answers, effects, sent)
    ensures forall i, k | 0 <= i < k < |effects| :: effects[i] != effects[k]
    ensures file.Some? ==> effects <= PlanOf(file.value.binding)
  {
    if file.Some? {
      AtMostOnce(file.value, answers, effects);
    }
  }
}
