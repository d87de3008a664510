/** The audience cutover: a request journal in front of a server with idempotency keys. */
module Cutover {
  import opened Ascending
  import opened CrashDirectory
  import opened Optional

  datatype Definition = Definition(templateKey: string, content: string)

  datatype Rule = Rule(name: string, definition: Definition, refreshMode: string, refreshCron: string)

  /** What the digest of the inputs covers. */
  datatype Fingerprint = Definitions(byDefault: map<int, Definition>) | Rules(given: map<int, Rule>)

  datatype Binding = Binding(target: string, fingerprint: Fingerprint, reference: string)

  datatype Action = Create | Configure | Activate | Refresh

  /** The name of a step in the journal. */
  datatype Name = Name(source: int, action: Action)

  datatype Key = Key(binding: Binding, name: Name)

  datatype Verb = Post | Put

  datatype Path = Packages | Package(id: int) | Configuration(id: int) | Activation(id: int) | Refreshing(id: int)

  datatype Body =
    | Creation(name: string, templateKey: string)
    | Configuring(expectedVersion: int, refreshCron: string, refreshMode: string, definition: Definition)
    | Activating(expectedVersion: int)
    | RefreshingAt(reference: string)

  datatype Request = Request(key: Key, verb: Verb, path: Path, body: Body)

  /** The part of an answer that the driver uses: the package of a creation, the run of a refresh. */
  datatype Response = Response(package: int, run: string)

  datatype Record = Record(request: Request, result: Option<Response>)

  datatype Journal = Journal(binding: Binding, steps: map<Name, Record>)

  datatype Answer = Answer(request: Request, response: Response)

  // ---------- the plan ----------

  function SourcesOf(f: Fingerprint): seq<int> {
    match f
    case Definitions(d) => Sorted(d.Keys)
    case Rules(g) => Sorted(g.Keys)
  }

  const ACTIONS := [Create, Configure, Activate, Refresh]

  /** The `k`-th step: sources in order, four actions each. */
  function NameAt(sources: seq<int>, k: nat): Name
    requires k < 4 * |sources|
  {
    Name(sources[k / 4], ACTIONS[k % 4])
  }

  function PlanOf(b: Binding): (plan: seq<Key>) {
    var sources := SourcesOf(b.fingerprint);
    seq(4 * |sources|, k requires 0 <= k < 4 * |sources| => Key(b, NameAt(sources, k)))
  }

  lemma NamesDiffer(b: Binding)
    ensures forall k | 0 <= k < |PlanOf(b)| :: PlanOf(b)[k] == Key(b, PlanOf(b)[k].name)
    ensures forall i, k | 0 <= i < k < |PlanOf(b)| :: PlanOf(b)[i] != PlanOf(b)[k]
  {
    var sources := SourcesOf(b.fingerprint);
    forall i, k | 0 <= i < k < |PlanOf(b)|
      ensures PlanOf(b)[i] != PlanOf(b)[k]
    {
      if i / 4 == k / 4 {
        assert i % 4 != k % 4;
      }
    }
  }

  function VerbOf(a: Action): Verb {
    if a == Configure then Put else Post
  }

  function PathOf(a: Action, id: int): Path {
    match a
    case Create => Packages
    case Configure => Configuration(id)
    case Activate => Activation(id)
    case Refresh => Refreshing(id)
  }

  function DefinitionOf(f: Fingerprint, source: int): Option<Definition> {
    match f
    case Definitions(d) => if source in d then Some(d[source]) else None
    case Rules(g) => if source in g then Some(g[source].definition) else None
  }

  /** The rule is the one that the fingerprint was taken of, as far as the fingerprint covers it. */
  predicate Prescribes(f: Fingerprint, source: int, rule: Rule) {
    DefinitionOf(f, source) == Some(rule.definition) && (f.Rules? && source in f.given ==> f.given[source] == rule)
  }

  /** The body says what the fingerprint prescribes; the versions in it were read when it was made. */
  predicate RightBody(b: Binding, name: Name, body: Body) {
    var definition := DefinitionOf(b.fingerprint, name.source);
    match name.action
    case Create =>
      && body.Creation? && definition.Some? && body.templateKey == definition.value.templateKey
      && (b.fingerprint.Rules? && name.source in b.fingerprint.given ==> body.name == b.fingerprint.given[name.source].name)
    case Configure =>
      && body.Configuring? && Some(body.definition) == definition
      && (b.fingerprint.Rules? && name.source in b.fingerprint.given ==>
            var rule := b.fingerprint.given[name.source];
            body.refreshMode == rule.refreshMode && body.refreshCron == rule.refreshCron)
    case Activate => body.Activating?
    case Refresh => body == RefreshingAt(b.reference)
  }

  // ---------- what holds between the journal, the server and the wire ----------

  /** The step is journaled with a result. */
  predicate Settled(j: Journal, name: Name) {
    name in j.steps && j.steps[name].result.Some?
  }

  /** The request of a step is the one its name and the created package call for. */
  predicate Planned(j: Journal, name: Name) {
    name in j.steps ==>
      var request := j.steps[name].request;
      && request.key == Key(j.binding, name)
      && request.verb == VerbOf(name.action)
      && RightBody(j.binding, name, request.body)
      && (name.action == Create ==> request.path == Packages)
      && (name.action != Create ==>
            && Settled(j, Name(name.source, Create))
            && request.path == PathOf(name.action, j.steps[Name(name.source, Create)].result.value.package))
  }

  /** Steps are journaled in plan order, each after the results of all before it. */
  ghost predicate InOrder(j: Journal) {
    var plan := PlanOf(j.binding);
    && (forall name | name in j.steps :: Key(j.binding, name) in plan && Planned(j, name))
    && (forall i, k | 0 <= i < k < |plan| && plan[k].name in j.steps :: Settled(j, plan[i].name))
  }

  /** The effects on the server are a prefix of the plan, and the journal knows about all of them. */
  ghost predicate Agree(j: Journal, answers: map<Key, Answer>, effects: seq<Key>) {
    var plan := PlanOf(j.binding);
    && effects <= plan
    && (forall key :: key in answers <==> key in effects)
    && (forall key | key in answers ::
          && key.name in j.steps
          && answers[key].request == j.steps[key.name].request)
    && (forall name | Settled(j, name) ::
          && Key(j.binding, name) in answers
          && answers[Key(j.binding, name)].response == j.steps[name].result.value)
  }

  /** Every request ever sent is the one in the journal. */
  ghost predicate Journaled(j: Journal, sent: seq<Request>) {
    forall r | r in sent :: r.key.name in j.steps && j.steps[r.key.name].request == r
  }

  ghost predicate Inv(file: Option<Journal>, answers: map<Key, Answer>, effects: seq<Key>, sent: seq<Request>) {
    match file
    case None => answers == map[] && effects == [] && sent == []
    case Some(j) => InOrder(j) && Agree(j, answers, effects) && Journaled(j, sent)
  }

  /** All steps before the `k`-th have their results. */
  ghost predicate Ready(j: Journal, k: nat) {
    k <= |PlanOf(j.binding)| && forall i | 0 <= i < k :: Settled(j, PlanOf(j.binding)[i].name)
  }

  lemma EmptyJournal(b: Binding)
    ensures Inv(Some(Journal(b, map[])), map[], [], []) && Ready(Journal(b, map[]), 0)
  {
  }

  lemma NothingYet(file: Option<Journal>, j: Journal, answers: map<Key, Answer>, effects: seq<Key>, sent: seq<Request>)
    requires Inv(file, answers, effects, sent)
    requires file == None ==> j.steps == map[]
    requires file.Some? ==> file == Some(j)
    ensures Inv(Some(j), answers, effects, sent)
  {
  }

  /** One server effect per key, so "at most once" is "no key twice". */
  lemma AtMostOnce(j: Journal, answers: map<Key, Answer>, effects: seq<Key>)
    requires Agree(j, answers, effects)
    ensures forall i, k | 0 <= i < k < |effects| :: effects[i] != effects[k]
  {
    NamesDiffer(j.binding);
  }

  lemma OneRequestPerKey(file: Option<Journal>, answers: map<Key, Answer>, effects: seq<Key>, sent: seq<Request>)
    requires Inv(file, answers, effects, sent)
    ensures forall r, r' | r in sent && r' in sent && r.key == r'.key :: r == r'
  {
  }

  // ---------- the steps keep it ----------

  /** Journaling the next step. */
  lemma StepJournaled(j: Journal, answers: map<Key, Answer>, effects: seq<Key>, sent: seq<Request>, k: nat,
                      record: Record)
    requires Inv(Some(j), answers, effects, sent) && Ready(j, k) && k < |PlanOf(j.binding)|
    requires var name := PlanOf(j.binding)[k].name;
             name !in j.steps && record.result == None && Planned(j.(steps := j.steps[name := record]), name)
    ensures var name := PlanOf(j.binding)[k].name;
            var j' := j.(steps := j.steps[name := record]);
            Inv(Some(j'), answers, effects, sent) && Ready(j', k)
  {
    hide PlanOf, InOrder, RightBody;
    var name := PlanOf(j.binding)[k].name;
    var j' := j.(steps := j.steps[name := record]);
    assert forall n :: Settled(j', n) <==> Settled(j, n);
    StepKeepsOrder(j, k, j');
  }

  /** The journal with the `k`-th step set: the others unchanged, nothing unsettled. */
  lemma StepKeepsOrder(j: Journal, k: nat, j': Journal)
    requires InOrder(j) && Ready(j, k) && k < |PlanOf(j.binding)|
    requires var name := PlanOf(j.binding)[k].name;
             && name in j'.steps && Planned(j', name)
             && j' == j.(steps := j.steps[name := j'.steps[name]])
             && (Settled(j, name) ==> j'.steps[name] == j.steps[name])
    ensures InOrder(j')
  {
    hide PlanOf, Planned, RightBody;
    NamesDiffer(j.binding);
    var plan := PlanOf(j.binding);
    var name := plan[k].name;
    assert forall n | Settled(j, n) :: Settled(j', n) && j'.steps[n] == j.steps[n];
    forall i, m | 0 <= i < m < |plan| && plan[m].name in j'.steps
      ensures Settled(j', plan[i].name)
    {
      if m != k {
        assert plan[m] != plan[k];
        assert plan[m].name in j.steps;
      }
    }
    forall n | n in j'.steps
      ensures Key(j.binding, n) in plan && Planned(j', n)
    {
      if n != name {
        StaysPlanned(j, j', n);
      } else {
        assert plan[k] in plan;
      }
    }
  }

  lemma StaysPlanned(j: Journal, j': Journal, n: Name)
    requires Planned(j, n) && n in j.steps && j'.binding == j.binding
    requires n in j'.steps && j'.steps[n].request == j.steps[n].request
    requires forall n | Settled(j, n) :: Settled(j', n) && j'.steps[n] == j.steps[n]
    ensures Planned(j', n)
  {
    assert Settled(j, Name(n.source, Create)) ==> Settled(j', Name(n.source, Create));
  }

  lemma PrefixMembership(b: Binding, effects: seq<Key>)
    requires effects <= PlanOf(b)
    ensures forall i | 0 <= i < |PlanOf(b)| :: PlanOf(b)[i] in effects <==> i < |effects|
  {
    hide PlanOf;
    NamesDiffer(b);
    forall i | 0 <= i < |PlanOf(b)|
      ensures PlanOf(b)[i] in effects <==> i < |effects|
    {
      if i < |effects| {
        assert effects[i] == PlanOf(b)[i];
      }
    }
  }

  /** The server has done either all steps before the `k`-th, or that one too. */
  lemma EffectsReach(j: Journal, answers: map<Key, Answer>, effects: seq<Key>, k: nat)
    requires Agree(j, answers, effects) && Ready(j, k)
    ensures k <= |effects|
    ensures InOrder(j) && k < |PlanOf(j.binding)| && !Settled(j, PlanOf(j.binding)[k].name) ==>
              |effects| <= k + 1 && (|effects| == k <==> PlanOf(j.binding)[k] !in answers)
  {
    hide PlanOf;
    var plan := PlanOf(j.binding);
    NamesDiffer(j.binding);
    PrefixMembership(j.binding, effects);
    assert k > 0 ==> Settled(j, plan[k - 1].name);
    assert k + 1 < |plan| && plan[k + 1] in effects ==> plan[k + 1].name in j.steps;
  }

  /** What the server can do with the request of the step in turn. */
  lemma RequestSent(j: Journal, answers: map<Key, Answer>, effects: seq<Key>, sent: seq<Request>, k: nat,
                    response: Response)
    requires Inv(Some(j), answers, effects, sent) && Ready(j, k) && k < |PlanOf(j.binding)|
    requires var name := PlanOf(j.binding)[k].name; name in j.steps && j.steps[name].result == None
    ensures var key := PlanOf(j.binding)[k];
            var request := j.steps[key.name].request;
            && request.key == key
            && Inv(Some(j), answers, effects, sent + [request])
            && (key in answers ==> answers[key].request == request)
            && (key !in answers ==>
                  Inv(Some(j), answers[key := Answer(request, response)], effects + [key], sent + [request]))
  {
    hide PlanOf;
    NamesDiffer(j.binding);
    var plan := PlanOf(j.binding);
    var key := plan[k];
    assert Planned(j, key.name);
    EffectsReach(j, answers, effects, k);
    if key !in answers {
      assert effects + [key] <= plan;
    }
  }

  lemma ResultJournaled(j: Journal, answers: map<Key, Answer>, effects: seq<Key>, sent: seq<Request>, k: nat)
    requires Inv(Some(j), answers, effects, sent) && Ready(j, k) && k < |PlanOf(j.binding)|
    requires var key := PlanOf(j.binding)[k]; key.name in j.steps && j.steps[key.name].result == None && key in answers
    ensures var key := PlanOf(j.binding)[k];
            var j' := j.(steps := j.steps[key.name := j.steps[key.name].(result := Some(answers[key].response))]);
            Inv(Some(j'), answers, effects, sent) && Ready(j', k + 1)
  {
    hide PlanOf, InOrder, RightBody;
    NamesDiffer(j.binding);
    var plan := PlanOf(j.binding);
    var key := plan[k];
    var j' := j.(steps := j.steps[key.name := j.steps[key.name].(result := Some(answers[key].response))]);
    assert forall n :: Settled(j', n) <==> Settled(j, n) || n == key.name;
    assert Planned(j, key.name) by {
      StepsArePlanned(j);
    }
    StaysPlanned(j, j', key.name);
    StepKeepsOrder(j, k, j');
  }

  lemma StepsArePlanned(j: Journal)
    requires InOrder(j)
    ensures forall n | n in j.steps :: Planned(j, n)
  {
    hide PlanOf;
  }

  lemma ReadyFurther(j: Journal, k: nat)
    requires Ready(j, k) && k < |PlanOf(j.binding)| && Settled(j, PlanOf(j.binding)[k].name)
    ensures Ready(j, k + 1)
  {
    hide PlanOf;
  }

  /** With all results in the journal, the server has done the whole plan, in order. */
  lemma PlanDone(j: Journal, answers: map<Key, Answer>, effects: seq<Key>)
    requires Agree(j, answers, effects) && Ready(j, |PlanOf(j.binding)|)
    ensures effects == PlanOf(j.binding)
  {
    hide PlanOf;
    EffectsReach(j, answers, effects, |PlanOf(j.binding)|);
  }
}
