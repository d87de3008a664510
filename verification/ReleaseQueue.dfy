/** The release queue: one FIFO of candidates, of which one at a time may be on its way to production. */
module ReleaseQueue {
  import opened Optional

  /** `Accepted` is where an adopted candidate comes from; no item ever has it as its status. */
  datatype Status =
    | WaitingCandidate | PreviewBuilding | StagingAcceptance | Frozen | WaitingMerge
    | Merged | Production | Observing | Released | StaleCandidate | Accepted

  datatype Event = Event(from: Status, to: Status, time: int)

  datatype Item = Item(candidate: string, baseMain: Option<string>, status: Status, events: seq<Event>)

  datatype Refusal = NotFound | AlreadyMerged | InvalidTransition | QueueOwned | NotAtHead | StaleBase | NotAccepted

  const ACTIVE: set<Status> := {PreviewBuilding, StagingAcceptance, Frozen, WaitingMerge, Merged, Production, Observing}
  const LANDING: set<Status> := {Merged, Production, Observing}
  const TERMINAL: set<Status> := {Released, StaleCandidate}

  function Next(s: Status): Option<Status> {
    match s
    case WaitingCandidate => Some(PreviewBuilding)
    case PreviewBuilding => Some(StagingAcceptance)
    case StagingAcceptance => Some(Frozen)
    case Frozen => Some(WaitingMerge)
    case WaitingMerge => Some(Merged)
    case Merged => Some(Production)
    case Production => Some(Observing)
    case Observing => Some(Released)
    case _ => None
  }

  /** The first item of that candidate, or the length of the queue. */
  function Find(items: seq<Item>, candidate: string): (k: nat)
    ensures k <= |items|
    ensures k < |items| ==> items[k].candidate == candidate
    ensures forall i | 0 <= i < k :: items[i].candidate != candidate
  {
    if items == [] || items[0].candidate == candidate then 0 else 1 + Find(items[1..], candidate)
  }

  function FirstWaiting(items: seq<Item>): (k: nat)
    ensures k <= |items|
    ensures k < |items| ==> items[k].status == WaitingCandidate
    ensures forall i | 0 <= i < k :: items[i].status != WaitingCandidate
  {
    if items == [] || items[0].status == WaitingCandidate then 0 else 1 + FirstWaiting(items[1..])
  }

  /** The checks of `change` for a transition, in its order. */
  function TransitionRefusal(items: seq<Item>, candidate: string, to: Status, main: Option<string>): Option<Refusal> {
    var k := Find(items, candidate);
    if k == |items| then Some(NotFound)
    else
      var from := items[k].status;
      if to == StaleCandidate && (from in LANDING || from == Released) then Some(AlreadyMerged)
      else if to != StaleCandidate && Next(from) != Some(to) then Some(InvalidTransition)
      else if to in ACTIVE && exists i | 0 <= i < |items| && i != k :: items[i].status in ACTIVE then Some(QueueOwned)
      else if to == PreviewBuilding && FirstWaiting(items) != k then Some(NotAtHead)
      else if to in {PreviewBuilding, Frozen, WaitingMerge} && main != items[k].baseMain then Some(StaleBase)
      else None
  }

  // ---------- what a transition takes ----------

  /** On the way from the preview to the end of the observation. */
  predicate Busy(s: Status) {
    s != WaitingCandidate && s != Released && s != StaleCandidate && s != Accepted
  }

  /** The steps of a candidate, one by one. */
  predicate AllowedStep(from: Status, to: Status) {
    || (from == WaitingCandidate && to == PreviewBuilding)
    || (from == PreviewBuilding && to == StagingAcceptance)
    || (from == StagingAcceptance && to == Frozen)
    || (from == Frozen && to == WaitingMerge)
    || (from == WaitingMerge && to == Merged)
    || (from == Merged && to == Production)
    || (from == Production && to == Observing)
    || (from == Observing && to == Released)
    || (to == StaleCandidate && from != Merged && from != Production && from != Observing && from != Released)
  }

  predicate NeedsBase(to: Status) {
    to == PreviewBuilding || to == Frozen || to == WaitingMerge
  }

  /** The item at `k` may take the step: it is the next one, nobody else is busy, nobody waits in front
      of it, and its base is still the main branch. */
  ghost predicate Permitted(items: seq<Item>, k: nat, to: Status, main: Option<string>)
    requires k < |items|
  {
    && AllowedStep(items[k].status, to)
    && (Busy(to) ==> forall i | 0 <= i < |items| && i != k :: !Busy(items[i].status))
    && (to == PreviewBuilding ==> forall i | 0 <= i < k :: items[i].status != WaitingCandidate)
    && (NeedsBase(to) ==> main == items[k].baseMain)
  }

  /** When each refusal is given to the item at `k`. */
  ghost predicate RefusedFor(items: seq<Item>, k: nat, to: Status, main: Option<string>, reason: Refusal)
    requires k < |items|
  {
    var from := items[k].status;
    var othersBusy := exists i | 0 <= i < |items| && i != k :: Busy(items[i].status);
    var someoneAhead := exists i | 0 <= i < k :: items[i].status == WaitingCandidate;
    match reason
    case AlreadyMerged =>
      to == StaleCandidate && (from == Merged || from == Production || from == Observing || from == Released)
    case InvalidTransition => to != StaleCandidate && !AllowedStep(from, to)
    case QueueOwned => AllowedStep(from, to) && Busy(to) && othersBusy
    case NotAtHead => AllowedStep(from, to) && to == PreviewBuilding && !othersBusy && someoneAhead
    case StaleBase =>
      && AllowedStep(from, to) && !othersBusy && NeedsBase(to) && main != items[k].baseMain
      && (to == PreviewBuilding ==> !someoneAhead)
    case _ => false
  }

  lemma ActiveIsBusy()
    ensures forall s: Status :: s in ACTIVE <==> Busy(s)
  {
    forall s: Status
      ensures s in ACTIVE <==> Busy(s)
    {
      match s
      case _ =>
    }
  }

  lemma StepsAreAllowed(from: Status, to: Status)
    ensures AllowedStep(from, to)
            <==> if to == StaleCandidate then !(from in LANDING || from == Released) else Next(from) == Some(to)
    ensures from in LANDING || from == Released <==> from == Merged || from == Production || from == Observing || from == Released
    ensures to in {PreviewBuilding, Frozen, WaitingMerge} <==> NeedsBase(to)
    ensures AllowedStep(from, to) && to == PreviewBuilding ==> from == WaitingCandidate
    ensures NeedsBase(to) ==> Busy(to)
  {
  }

  lemma HeadMeans(items: seq<Item>, k: nat)
    requires k < |items| && items[k].status == WaitingCandidate
    ensures FirstWaiting(items) != k <==> exists i | 0 <= i < k :: items[i].status == WaitingCandidate
  {
  }

  /** The checks accept exactly the permitted steps, and each refusal has its own exact reason. */
  lemma RefusalMeans(items: seq<Item>, candidate: string, to: Status, main: Option<string>, k: nat)
    requires k == Find(items, candidate) && k < |items|
    ensures TransitionRefusal(items, candidate, to, main) == None <==> Permitted(items, k, to, main)
    ensures TransitionRefusal(items, candidate, to, main).Some? ==>
              RefusedFor(items, k, to, main, TransitionRefusal(items, candidate, to, main).value)
  {
    hide Find, FirstWaiting, AllowedStep, Busy, NeedsBase, Next;
    ActiveIsBusy();
    StepsAreAllowed(items[k].status, to);
    if items[k].status == WaitingCandidate {
      HeadMeans(items, k);
    }
  }

  /** No two reasons apply at once, and none to a permitted step. */
  lemma ReasonsExclude(items: seq<Item>, k: nat, to: Status, main: Option<string>, reason: Refusal, other: Refusal)
    requires k < |items| && RefusedFor(items, k, to, main, reason)
    ensures !Permitted(items, k, to, main)
    ensures RefusedFor(items, k, to, main, other) ==> other == reason
  {
    hide Busy, NeedsBase;
  }

  // ---------- what holds in every reachable queue ----------

  predicate AtMostOne(items: seq<Item>, statuses: set<Status>) {
    forall i, j | 0 <= i < j < |items| :: items[i].status !in statuses || items[j].status !in statuses
  }

  predicate UniqueCandidates(items: seq<Item>) {
    forall i, j | 0 <= i < j < |items| :: items[i].candidate != items[j].candidate
  }

  predicate Step(from: Status, to: Status) {
    || (from == Accepted && to == WaitingMerge)
    || Next(from) == Some(to)
    || (to == StaleCandidate && from !in LANDING && from != Released && from != Accepted)
  }

  /** The events lead, step by step, from the entry into the queue to `s`. */
  predicate Path(events: seq<Event>, s: Status) {
    if events == [] then s == WaitingCandidate
    else
      var last := events[|events| - 1];
      && last.to == s && Step(last.from, s)
      && if last.from == Accepted then |events| == 1 else Path(events[..|events| - 1], last.from)
  }

  ghost predicate Increasing(s: seq<nat>) {
    forall i, j | 0 <= i < j < |s| :: s[i] < s[j]
  }

  /** Whoever still waits stands behind everyone who entered. */
  ghost predicate EnteredInOrder(items: seq<Item>, entered: seq<nat>) {
    && Increasing(entered)
    && (forall e | e in entered :: e < |items|)
    && forall e, i | e in entered && 0 <= i < |items| && items[i].status == WaitingCandidate :: e < i
  }

  /** Nobody overtakes: what is active entered last, and what was released entered before it. */
  ghost predicate ReleasedInOrder(items: seq<Item>, entered: seq<nat>, released: seq<nat>) {
    && Increasing(released)
    && (forall r | r in released :: r < |items| && items[r].status == Released)
    && (forall r | r in released :: r in entered)
    && (forall i | 0 <= i < |items| && items[i].status in ACTIVE :: entered != [] && entered[|entered| - 1] == i)
  }

  ghost predicate Orderly(items: seq<Item>, entered: seq<nat>, released: seq<nat>, adopted: bool) {
    && UniqueCandidates(items)
    && AtMostOne(items, LANDING)
    && (forall i | 0 <= i < |items| :: Path(items[i].events, items[i].status))
    && EnteredInOrder(items, entered)
    && (!adopted ==> AtMostOne(items, ACTIVE) && ReleasedInOrder(items, entered, released))
  }

  // ---------- the three steps keep it ----------

  lemma AppendKeepsOrder(items: seq<Item>, entered: seq<nat>, released: seq<nat>, adopted: bool, item: Item)
    requires Orderly(items, entered, released, adopted)
    requires forall i | 0 <= i < |items| :: items[i].candidate != item.candidate
    requires item.status !in LANDING && Path(item.events, item.status)
    ensures Orderly(items + [item], entered, released, adopted || item.status in ACTIVE)
  {
    hide Path;
    var more := items + [item];
    assert AtMostOne(items, ACTIVE) && item.status !in ACTIVE ==> AtMostOne(more, ACTIVE);
  }

  function Moved(items: seq<Item>, k: nat, to: Status, time: int): seq<Item>
    requires k < |items|
  {
    items[k := items[k].(status := to, events := items[k].events + [Event(items[k].status, to, time)])]
  }

  lemma MoveIsStep(items: seq<Item>, candidate: string, to: Status, main: Option<string>)
    requires TransitionRefusal(items, candidate, to, main) == None
    ensures var k := Find(items, candidate);
            k < |items| && items[k].status != Released && to != WaitingCandidate
            && (to == StaleCandidate || Next(items[k].status) == Some(to))
  {
  }

  /** After a transition into an active status, nobody else is active. */
  lemma MoverIsAlone(items: seq<Item>, candidate: string, to: Status, main: Option<string>, time: int)
    requires TransitionRefusal(items, candidate, to, main) == None && to in ACTIVE
    ensures var k := Find(items, candidate);
            forall i | 0 <= i < |items| && i != k :: items[i].status !in ACTIVE
  {
  }

  lemma MoveKeepsExclusion(items: seq<Item>, candidate: string, to: Status, main: Option<string>, time: int,
                          statuses: set<Status>)
    requires TransitionRefusal(items, candidate, to, main) == None && statuses <= ACTIVE && AtMostOne(items, statuses)
    ensures AtMostOne(Moved(items, Find(items, candidate), to, time), statuses)
  {
    var k := Find(items, candidate);
    assert forall i | 0 <= i < |items| && i != k :: Moved(items, k, to, time)[i] == items[i];
    if to in ACTIVE {
      MoverIsAlone(items, candidate, to, main, time);
    }
  }

  lemma AppendIncreases(s: seq<nat>, k: nat)
    requires Increasing(s) && forall e | e in s :: e < k
    ensures Increasing(s + [k]) && forall e :: e in s + [k] <==> e in s || e == k
  {
    assert forall i | 0 <= i < |s| :: s[i] in s;
  }

  lemma LastIsGreatest(s: seq<nat>)
    requires Increasing(s)
    ensures forall e | e in s :: e <= s[|s| - 1]
  {
  }

  lemma MoveKeepsEntered(items: seq<Item>, candidate: string, to: Status, main: Option<string>, time: int,
                         entered: seq<nat>)
    requires TransitionRefusal(items, candidate, to, main) == None && EnteredInOrder(items, entered)
    ensures var k := Find(items, candidate);
            EnteredInOrder(Moved(items, k, to, time), entered + if to == PreviewBuilding then [k] else [])
  {
    var k := Find(items, candidate);
    assert to != WaitingCandidate;
    if to == PreviewBuilding {
      assert items[k].status == WaitingCandidate && FirstWaiting(items) == k;
      AppendIncreases(entered, k);
    } else {
      assert entered + [] == entered;
    }
  }

  lemma MoveKeepsReleased(items: seq<Item>, candidate: string, to: Status, main: Option<string>, time: int,
                          entered: seq<nat>, released: seq<nat>)
    requires TransitionRefusal(items, candidate, to, main) == None
    requires EnteredInOrder(items, entered) && ReleasedInOrder(items, entered, released)
    ensures var k := Find(items, candidate);
            ReleasedInOrder(Moved(items, k, to, time), entered + (if to == PreviewBuilding then [k] else []),
                            released + if to == Released then [k] else [])
  {
    hide TransitionRefusal, FirstWaiting, Find, EnteredInOrder;
    MoveIsStep(items, candidate, to, main);
    var k := Find(items, candidate);
    assert entered + [] == entered && released + [] == released;
    if to == PreviewBuilding {
      MoverIsAlone(items, candidate, to, main, time);
      EntryKeepsReleased(items, k, time, entered, released);
    } else if to == Released {
      assert Increasing(entered) by {
        EnteredIncreases(items, entered);
      }
      ReleaseKeepsReleased(items, k, time, entered, released);
    } else {
      OtherMoveKeepsReleased(items, k, to, time, entered, released);
    }
  }

  lemma EnteredIncreases(items: seq<Item>, entered: seq<nat>)
    requires EnteredInOrder(items, entered)
    ensures Increasing(entered)
  {
  }

  lemma EntryKeepsReleased(items: seq<Item>, k: nat, time: int, entered: seq<nat>, released: seq<nat>)
    requires k < |items| && items[k].status != Released && ReleasedInOrder(items, entered, released)
    requires forall i | 0 <= i < |items| && i != k :: items[i].status !in ACTIVE
    ensures ReleasedInOrder(Moved(items, k, PreviewBuilding, time), entered + [k], released)
  {
    hide Increasing;
    var items' := Moved(items, k, PreviewBuilding, time);
    assert forall i | 0 <= i < |items| && i != k :: items'[i] == items[i];
  }

  lemma ReleaseKeepsReleased(items: seq<Item>, k: nat, time: int, entered: seq<nat>, released: seq<nat>)
    requires k < |items| && items[k].status == Observing && ReleasedInOrder(items, entered, released) && Increasing(entered)
    ensures ReleasedInOrder(Moved(items, k, Released, time), entered, released + [k])
  {
    var items' := Moved(items, k, Released, time);
    assert forall i | 0 <= i < |items| && i != k :: items'[i] == items[i];
    LastIsGreatest(entered);
    AppendIncreases(released, k);
    hide Increasing;
  }

  lemma OtherMoveKeepsReleased(items: seq<Item>, k: nat, to: Status, time: int, entered: seq<nat>, released: seq<nat>)
    requires k < |items| && items[k].status != Released && ReleasedInOrder(items, entered, released)
    requires to in ACTIVE ==> items[k].status in ACTIVE
    ensures ReleasedInOrder(Moved(items, k, to, time), entered, released)
  {
    hide Increasing;
    var items' := Moved(items, k, to, time);
    assert forall i | 0 <= i < |items| && i != k :: items'[i] == items[i];
  }

  lemma MoveKeepsOrder(items: seq<Item>, entered: seq<nat>, released: seq<nat>, adopted: bool,
                       candidate: string, to: Status, main: Option<string>, time: int)
    requires Orderly(items, entered, released, adopted)
    requires TransitionRefusal(items, candidate, to, main) == None
    ensures var k := Find(items, candidate);
            Orderly(Moved(items, k, to, time), entered + (if to == PreviewBuilding then [k] else []),
                    released + (if to == Released then [k] else []), adopted)
  {
    hide EnteredInOrder, ReleasedInOrder, AtMostOne, Path;
    var k := Find(items, candidate);
    MoveKeepsExclusion(items, candidate, to, main, time, LANDING);
    MoveKeepsEntered(items, candidate, to, main, time, entered);
    if !adopted {
      MoveKeepsExclusion(items, candidate, to, main, time, ACTIVE);
      MoveKeepsReleased(items, candidate, to, main, time, entered, released);
    }
    NeverAccepted(items[k].events, items[k].status);
    PathGrows(items[k].events, items[k].status, Event(items[k].status, to, time));
  }

  lemma NeverAccepted(events: seq<Event>, s: Status)
    requires Path(events, s)
    ensures s != Accepted
  {
  }

  /** What an answer to a transition says about the queue. */
  ghost predicate Answered(items: seq<Item>, candidate: string, to: Status, main: Option<string>, refusal: Option<Refusal>) {
    && (refusal == None <==>
          exists k | 0 <= k < |items| && items[k].candidate == candidate :: Permitted(items, k, to, main))
    && (refusal == Some(NotFound) <==> forall k | 0 <= k < |items| :: items[k].candidate != candidate)
    && (forall k | 0 <= k < |items| && items[k].candidate == candidate ::
          forall reason :: refusal == Some(reason) <==> RefusedFor(items, k, to, main, reason))
  }

  lemma TransitionMeans(items: seq<Item>, candidate: string, to: Status, main: Option<string>)
    requires UniqueCandidates(items)
    ensures Answered(items, candidate, to, main, TransitionRefusal(items, candidate, to, main))
  {
    hide TransitionRefusal, Permitted, RefusedFor;
    var k, refusal := Find(items, candidate), TransitionRefusal(items, candidate, to, main);
    NotFoundMeans(items, candidate, to, main);
    if k < |items| {
      assert forall i | 0 <= i < |items| && items[i].candidate == candidate :: i == k;
      RefusalMeans(items, candidate, to, main, k);
      forall reason
        ensures refusal == Some(reason) <==> RefusedFor(items, k, to, main, reason)
      {
        if refusal.Some? {
          ReasonsExclude(items, k, to, main, refusal.value, reason);
        } else if RefusedFor(items, k, to, main, reason) {
          ReasonsExclude(items, k, to, main, reason, reason);
        }
      }
    }
  }

  lemma OrderlyIsUnique(items: seq<Item>, entered: seq<nat>, released: seq<nat>, adopted: bool)
    requires Orderly(items, entered, released, adopted)
    ensures UniqueCandidates(items)
  {
  }

  lemma NotFoundMeans(items: seq<Item>, candidate: string, to: Status, main: Option<string>)
    ensures TransitionRefusal(items, candidate, to, main) == Some(NotFound) <==> Find(items, candidate) == |items|
  {
  }

  class Queue {
    var items: seq<Item>
    ghost var entered: seq<nat>
    ghost var released: seq<nat>
    ghost var adopted: bool

    ghost predicate Valid()
      reads this
    {
      Orderly(items, entered, released, adopted)
    }

    constructor ()
      ensures Valid() && items == [] && entered == [] && released == [] && !adopted
    {
      items, entered, released, adopted := [], [], [], false;
    }

    method Enqueue(candidate: string, baseMain: Option<string>)
      requires Valid()
      modifies `items
      ensures Valid()
      ensures items == if exists i | 0 <= i < |old(items)| :: old(items)[i].candidate == candidate then old(items)
                       else old(items) + [Item(candidate, baseMain, WaitingCandidate, [])]
    {
      hide Orderly;
      if Find(items, candidate) < |items| {
        return;
      }
      AppendKeepsOrder(items, entered, released, adopted, Item(candidate, baseMain, WaitingCandidate, []));
      items := items + [Item(candidate, baseMain, WaitingCandidate, [])];
    }

    method AdoptAccepted(candidate: string, baseMain: Option<string>, status: string,
                         time: int) returns (refusal: Option<Refusal>)
      requires Valid()
      modifies `items, `adopted
      ensures Valid()
      ensures refusal == if status == "accepted" then None else Some(NotAccepted)
      ensures items == if refusal.Some? then old(items) else WithAdopted(old(items), candidate, baseMain, time)
      ensures adopted <==> old(adopted) || items != old(items)
      ensures items == if status != "accepted" || exists i | 0 <= i < |old(items)| :: old(items)[i].candidate == candidate
                       then old(items)
                       else old(items) + [Item(candidate, baseMain, WaitingMerge, [Event(Accepted, WaitingMerge, time)])]
    {
      hide Orderly;
      if status != "accepted" {
        return Some(NotAccepted);
      }
      if Find(items, candidate) == |items| {
        var item := Item(candidate, baseMain, WaitingMerge, [Event(Accepted, WaitingMerge, time)]);
        AppendKeepsOrder(items, entered, released, adopted, item);
        items, adopted := items + [item], true;
      }
      return None;
    }

    method Transition(candidate: string, to: Status, main: Option<string>, time: int) returns (refusal: Option<Refusal>)
      requires Valid()
      modifies `items, `entered, `released
      ensures Valid()
      ensures Answered(old(items), candidate, to, main, refusal)
      ensures refusal == TransitionRefusal(old(items), candidate, to, main)
      ensures refusal.Some? ==> items == old(items) && entered == old(entered) && released == old(released)
      ensures refusal == None ==>
                var k := Find(old(items), candidate);
                && items == Moved(old(items), k, to, time)
                && items[k].status == to && items[k].events == old(items)[k].events + [Event(old(items)[k].status, to, time)]
                && entered == old(entered) + (if to == PreviewBuilding then [k] else [])
                && released == old(released) + (if to == Released then [k] else [])
    {
      hide Orderly, Answered;
      OrderlyIsUnique(items, entered, released, adopted);
      TransitionMeans(items, candidate, to, main);
      var k := Find(items, candidate);
      if k == |items| {
        return Some(NotFound);
      }
      var item := items[k];
      if to == StaleCandidate {
        if item.status in LANDING || item.status == Released {
          return Some(AlreadyMerged);
        }
      } else if Next(item.status) != Some(to) {
        return Some(InvalidTransition);
      }
      if to in ACTIVE {
        if exists i | 0 <= i < |items| && i != k :: items[i].status in ACTIVE {
          return Some(QueueOwned);
        }
        if to == PreviewBuilding && FirstWaiting(items) != k {
          return Some(NotAtHead);
        }
      }
      if to in {PreviewBuilding, Frozen, WaitingMerge} {
        if main != item.baseMain {
          return Some(StaleBase);
        }
      }
      MoveKeepsOrder(items, entered, released, adopted, candidate, to, main, time);
      assert entered + [] == entered && released + [] == released;
      items := items[k := item.(status := to, events := item.events + [Event(item.status, to, time)])];
      if to == PreviewBuilding {
        entered := entered + [k];
      }
      if to == Released {
        released := released + [k];
      }
      return None;
    }
  }

  // ---------- exclusivity ----------

  /** A transition never raises the number of active items above one. */
  lemma TransitionNeverCrowds(items: seq<Item>, candidate: string, to: Status, main: Option<string>, time: int)
    requires TransitionRefusal(items, candidate, to, main) == None
    ensures var items' := Moved(items, Find(items, candidate), to, time);
            if to in ACTIVE then AtMostOne(items', ACTIVE)
            else forall i | 0 <= i < |items| && items'[i].status in ACTIVE :: items[i].status in ACTIVE
  {
    if to in ACTIVE {
      MoverIsAlone(items, candidate, to, main, time);
    }
  }

  function WithAdopted(items: seq<Item>, candidate: string, baseMain: Option<string>, time: int): seq<Item> {
    if Find(items, candidate) < |items| then items
    else items + [Item(candidate, baseMain, WaitingMerge, [Event(Accepted, WaitingMerge, time)])]
  }

  /** Adoption keeps a single owner exactly when nobody owns the queue, or the candidate is known. */
  lemma AdoptionKeepsOneOwner(items: seq<Item>, candidate: string, baseMain: Option<string>, time: int)
    requires AtMostOne(items, ACTIVE)
    ensures AtMostOne(WithAdopted(items, candidate, baseMain, time), ACTIVE)
            <==> Find(items, candidate) < |items| || forall i | 0 <= i < |items| :: items[i].status !in ACTIVE
  {
    var items' := WithAdopted(items, candidate, baseMain, time);
    if Find(items, candidate) == |items| {
      assert items'[|items|].status in ACTIVE;
      assert forall i | 0 <= i < |items| :: items'[i] == items[i];
    }
  }

  /** A queue with one owner, as enqueueing and one transition leave it, and a second owner by adoption. */
  lemma AdoptionCanCrowd()
    ensures var items := [Item("first", None, PreviewBuilding, [Event(WaitingCandidate, PreviewBuilding, 0)])];
            && Orderly(items, [0], [], false)
            && items == Moved([Item("first", None, WaitingCandidate, [])], 0, PreviewBuilding, 0)
            && !AtMostOne(WithAdopted(items, "second", None, 1), ACTIVE)
  {
    var items := [Item("first", None, PreviewBuilding, [Event(WaitingCandidate, PreviewBuilding, 0)])];
    var waiting := [Item("first", None, WaitingCandidate, [])];
    assert waiting[0].events + [Event(WaitingCandidate, PreviewBuilding, 0)] == items[0].events;
    assert Moved(waiting, 0, PreviewBuilding, 0)[0] == items[0];
    assert Path(items[0].events[..0], WaitingCandidate);
    AdoptionKeepsOneOwner(items, "second", None, 1);
    assert items[0].status in ACTIVE;
  }

  /** Two owners block each other: until one of them is gone, only a release or an invalidation is accepted. */
  lemma CrowdedQueueOnlyDrains(items: seq<Item>, i: nat, j: nat, candidate: string, to: Status, main: Option<string>)
    requires i < j < |items| && items[i].status in ACTIVE && items[j].status in ACTIVE
    requires TransitionRefusal(items, candidate, to, main) == None
    ensures to in TERMINAL
  {
    var k := Find(items, candidate);
    assert to in ACTIVE ==> (i != k || j != k);
  }

  // ---------- terminal items ----------

  lemma TerminalIsAbsorbing(items: seq<Item>, candidate: string, to: Status, main: Option<string>)
    requires TransitionRefusal(items, candidate, to, main) == None
    requires items[Find(items, candidate)].status in TERMINAL
    ensures to == items[Find(items, candidate)].status
  {
  }

  function Times(events: seq<Event>, to: Status): seq<int> {
    if events == [] then []
    else
      var last := events[|events| - 1];
      Times(events[..|events| - 1], to) + if last.to == to then [last.time] else []
  }

  function Maximum(times: seq<int>): (m: int)
    requires times != []
    ensures m in times && forall t | t in times :: t <= m
  {
    if |times| == 1 then times[0]
    else
      var front := Maximum(times[..|times| - 1]);
      assert forall t | t in times :: t in times[..|times| - 1] || t == times[|times| - 1];
      if times[|times| - 1] > front then times[|times| - 1] else front
  }

  /** Whether the retention of source bundles may treat the item as finished before `before`. */
  predicate QueueTerminal(item: Item, before: int) {
    && item.status in TERMINAL
    && item.events != []
    && var times := Times(item.events, item.status);
       times != [] && Maximum(times) < before
  }

  lemma {:induction false} TimesAre(events: seq<Event>, to: Status)
    ensures forall t :: t in Times(events, to) <==> exists e | e in events :: e.to == to && e.time == t
  {
    if events != [] {
      var front, last := events[..|events| - 1], events[|events| - 1];
      TimesAre(front, to);
      assert forall e :: e in events <==> e in front || e == last;
    }
  }

  /** On a reachable item the check says just what it is for: the item is finished, and every event
      that finished it precedes the boundary. */
  lemma QueueTerminalMeans(item: Item, before: int)
    requires Path(item.events, item.status)
    ensures QueueTerminal(item, before)
            <==> && (item.status == Released || item.status == StaleCandidate)
                 && forall e | e in item.events && e.to == item.status :: e.time < before
  {
    TimesAre(item.events, item.status);
    var times := Times(item.events, item.status);
    if item.status in TERMINAL {
      var last := item.events[|item.events| - 1];
      assert last in item.events && last.to == item.status;
      assert last.time in times;
      forall e | e in item.events && e.to == item.status
        ensures e.time in times
      {
      }
    }
  }

  // ---------- every run ----------

  /** Any interleaving of the three commands. */
  method Run(q: Queue, steps: nat)
    requires q.Valid()
    modifies q
    ensures q.Valid()
    ensures forall i | 0 <= i < |old(q.items)| && old(q.items)[i].status in TERMINAL ::
              i < |q.items| && q.items[i].status == old(q.items)[i].status
    ensures old(q.entered) <= q.entered && old(q.released) <= q.released
    ensures Exclusive(q.items, q.adopted)
  {
    hide Orderly;
    var left := steps;
    while left > 0
      invariant q.Valid() && |old(q.items)| <= |q.items|
      invariant forall i | 0 <= i < |old(q.items)| && old(q.items)[i].status in TERMINAL ::
                  q.items[i].status == old(q.items)[i].status
      invariant old(q.entered) <= q.entered && old(q.released) <= q.released
    {
      left := left - 1;
      var candidate: string := *;
      var main: Option<string> := *;
      var time: int := *;
      ghost var before := q.items;
      if
      case true =>
        q.Enqueue(candidate, main);
      case true =>
        var status: string := *;
        var refusal := q.AdoptAccepted(candidate, main, status, time);
      case true =>
        var to: Status := *;
        var refusal := q.Transition(candidate, to, main, time);
        if refusal == None && before[Find(before, candidate)].status in TERMINAL {
          TerminalIsAbsorbing(before, candidate, to, main);
        }
    }
    OrderlyIsExclusive(q.items, q.entered, q.released, q.adopted);
  }

  predicate Landing(s: Status) {
    s == Merged || s == Production || s == Observing
  }

  /** Candidate ids are unique, at most one item is landing, and without adoption at most one is busy. */
  ghost predicate Exclusive(items: seq<Item>, adopted: bool) {
    forall i, j | 0 <= i < j < |items| ::
      && items[i].candidate != items[j].candidate
      && !(Landing(items[i].status) && Landing(items[j].status))
      && (!adopted ==> !(Busy(items[i].status) && Busy(items[j].status)))
  }

  lemma OrderlyIsExclusive(items: seq<Item>, entered: seq<nat>, released: seq<nat>, adopted: bool)
    requires Orderly(items, entered, released, adopted)
    ensures Exclusive(items, adopted)
  {
    hide EnteredInOrder, ReleasedInOrder, Path;
    ActiveIsBusy();
    hide Busy;
  }

  lemma PathGrows(events: seq<Event>, s: Status, e: Event)
    requires Path(events, s) && e.from == s && Step(s, e.to)
    ensures Path(events + [e], e.to)
    ensures s != Accepted
  {
    assert (events + [e])[..|events|] == events;
  }
}
