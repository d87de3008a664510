/** The paged settlement scan: counters over all paid orders, and the verdict they add up to. */
module SettlementScan {
  import opened Optional

  const PAGE_SIZE := 500
  const MAXIMUM_PAGES := 20

  datatype Payment = Payment(
    orderId: int, provider: string, amount: int, currency: string,
    payer: int, beneficiary: int, paidAt: Option<int>, refunded: int)

  datatype Order = Order(
    orderId: int, origin: string, status: string, amount: int, currency: string, provider: string,
    payer: int, beneficiary: int, refunded: int, paidEvent: bool,
    checkout: bool, checkoutPayable: int, checkoutCurrency: string, productType: string,
    grant: bool, grantMatches: bool, serviceRefund: bool)

  datatype Key =
    | ObservedPaidPayments | MissingOrder | WrongOrderOrigin | PaidStateMismatch | AmountCurrencyMismatch
    | PartyMismatch | RefundTotalMismatch | MissingPaidTime | CheckoutUnknown | CheckoutAmountMismatch
    | MissingPaidEvent | MissingServiceGrant | ServiceGrantMismatch | MissingServiceRefund
    | ExternalDeliveryOutsideScope | ScanTruncated

  const KEYS: seq<Key> := [
    ObservedPaidPayments, MissingOrder, WrongOrderOrigin, PaidStateMismatch, AmountCurrencyMismatch,
    PartyMismatch, RefundTotalMismatch, MissingPaidTime, CheckoutUnknown, CheckoutAmountMismatch,
    MissingPaidEvent, MissingServiceGrant, ServiceGrantMismatch, MissingServiceRefund,
    ExternalDeliveryOutsideScope, ScanTruncated]

  const FACTS: set<Key> := {
    WrongOrderOrigin, PaidStateMismatch, AmountCurrencyMismatch, PartyMismatch, RefundTotalMismatch, MissingPaidTime, MissingPaidEvent}

  const CHECKOUT: set<Key> := {
    CheckoutAmountMismatch, MissingServiceGrant, ServiceGrantMismatch, MissingServiceRefund, ExternalDeliveryOutsideScope}

  const EVIDENCE: set<Key> := {MissingPaidTime, CheckoutUnknown, MissingPaidEvent, ScanTruncated}

  const VIOLATIONS: set<Key> := {
    MissingOrder, WrongOrderOrigin, PaidStateMismatch, AmountCurrencyMismatch, PartyMismatch,
    RefundTotalMismatch, CheckoutAmountMismatch, MissingServiceGrant, ServiceGrantMismatch, MissingServiceRefund}

  datatype Status = Healthy | Unknown | Critical

  datatype Observation = Observation(status: Status, code: string, metrics: map<Key, int>)

  // ---------- what each counter counts ----------

  /** The counter `k` is about this payment, seen next to its order. */
  predicate Applies(k: Key, p: Payment, found: Option<Order>) {
    match found
    case None => k == ObservedPaidPayments || k == MissingOrder
    case Some(o) =>
      match k
      case ObservedPaidPayments => true
      case MissingOrder => false
      case WrongOrderOrigin => o.origin != "native"
      case PaidStateMismatch => o.status !in {"paid", "partially_refunded", "refunded", "closed"}
      case AmountCurrencyMismatch => !(p.amount == o.amount && p.currency == o.currency && p.provider == o.provider)
      case PartyMismatch => !(p.payer == o.payer && p.beneficiary == o.beneficiary)
      case RefundTotalMismatch => p.refunded != o.refunded
      case MissingPaidTime => p.paidAt == None
      case MissingPaidEvent => !o.paidEvent
      case CheckoutUnknown => !o.checkout
      case CheckoutAmountMismatch => o.checkout && !(o.checkoutPayable == p.amount && o.checkoutCurrency == p.currency)
      case MissingServiceGrant => o.checkout && o.productType == "service_period" && !o.grant
      case ServiceGrantMismatch => o.checkout && o.productType == "service_period" && o.grant && !o.grantMatches
      case MissingServiceRefund => o.checkout && o.productType == "service_period" && p.refunded > 0 && !o.serviceRefund
      case ExternalDeliveryOutsideScope => o.checkout && o.productType != "service_period"
      case ScanTruncated => false
  }

  /** How many of the payments the counter is about. */
  function Count(k: Key, paid: seq<Payment>, orders: map<int, Order>): nat {
    if paid == [] then 0
    else
      var last := paid[|paid| - 1];
      Count(k, paid[..|paid| - 1], orders) + if Applies(k, last, Lookup(orders, last.orderId)) then 1 else 0
  }

  lemma {:induction false} CountIsPositive(k: Key, paid: seq<Payment>, orders: map<int, Order>)
    ensures Count(k, paid, orders) > 0 <==> exists p | p in paid :: Applies(k, p, Lookup(orders, p.orderId))
  {
    if paid != [] {
      var front, last := paid[..|paid| - 1], paid[|paid| - 1];
      CountIsPositive(k, front, orders);
      assert forall p :: p in paid <==> p in front || p == last;
    }
  }

  ghost predicate Counted(metrics: map<Key, int>, paid: seq<Payment>, orders: map<int, Order>) {
    forall k :: k in metrics && (k != ScanTruncated ==> metrics[k] == Count(k, paid, orders))
  }

  // ---------- the snapshot ----------

  /** The paid orders by ascending order id, each once. */
  ghost predicate ValidPaid(paid: seq<Payment>) {
    && (forall p | p in paid :: 0 < p.orderId)
    && (forall i, j | 0 <= i < j < |paid| :: paid[i].orderId < paid[j].orderId)
  }

  ghost predicate ValidOrders(orders: map<int, Order>) {
    forall id | id in orders :: orders[id].orderId == id
  }

  datatype Page = Page(items: seq<Payment>, more: bool)

  /** One bounded read: the first `limit` paid orders after `after`, and whether there are others. */
  function PageAfter(paid: seq<Payment>, after: int, limit: nat): Page {
    if paid != [] && paid[0].orderId <= after then PageAfter(paid[1..], after, limit)
    else if |paid| <= limit then Page(paid, false)
    else Page(paid[..limit], true)
  }

  function Position(paid: seq<Payment>, n: nat): int
    requires n <= |paid|
  {
    if n == 0 then 0 else paid[n - 1].orderId
  }

  lemma {:induction false} PageContinues(paid: seq<Payment>, n: nat, limit: nat)
    requires ValidPaid(paid) && n <= |paid|
    ensures PageAfter(paid, Position(paid, n), limit)
         == if |paid| - n <= limit then Page(paid[n..], false) else Page(paid[n..n + limit], true)
  {
    if n == 0 {
      assert paid[0..] == paid && (|paid| > 0 ==> paid[0] in paid);
    } else {
      DropPrefix(paid, n, Position(paid, n), limit);
      var rest := paid[n..];
      assert rest != [] ==> rest[0] == paid[n];
      assert |rest| > limit ==> rest[..limit] == paid[n..n + limit];
    }
  }

  lemma {:induction false} DropPrefix(paid: seq<Payment>, n: nat, after: int, limit: nat)
    requires n <= |paid| && forall i | 0 <= i < n :: paid[i].orderId <= after
    ensures PageAfter(paid, after, limit) == PageAfter(paid[n..], after, limit)
  {
    if n == 0 {
      assert paid[0..] == paid;
    } else {
      DropPrefix(paid[1..], n - 1, after, limit);
      assert paid[1..][n - 1..] == paid[n..];
    }
  }

  /** Facts for the requested orders, each at most once, in any order. */
  ghost predicate FactsFor(facts: seq<Order>, ids: seq<int>, orders: map<int, Order>) {
    && (forall o | o in facts :: o.orderId in ids && o.orderId in orders && orders[o.orderId] == o)
    && (forall id | id in ids && id in orders :: orders[id] in facts)
    && (forall i, j | 0 <= i < j < |facts| :: facts[i].orderId != facts[j].orderId)
  }

  function Facts(ids: seq<int>, orders: map<int, Order>): (facts: seq<Order>)
    requires ValidOrders(orders) && forall i, j | 0 <= i < j < |ids| :: ids[i] != ids[j]
    ensures FactsFor(facts, ids, orders)
  {
    if ids == [] then []
    else
      var front, last := ids[..|ids| - 1], ids[|ids| - 1];
      assert forall id | id in ids :: id in front || id == last;
      Facts(front, orders) + if last in orders then [orders[last]] else []
  }

  // ---------- the scan ----------

  class Scan {
    const paid: seq<Payment>
    const orders: map<int, Order>
    var metrics: map<Key, int>
    /** How many reads did not return. */
    ghost var failures: nat

    constructor (paid: seq<Payment>, orders: map<int, Order>)
      ensures failures == 0 && this.paid == paid && this.orders == orders
      ensures forall k: Key :: k in metrics && metrics[k] == 0
    {
      this.paid, this.orders, metrics := paid, orders, map[];
      failures := 0;
      new;
      for i := 0 to |KEYS|
        invariant forall k :: k in metrics <==> k in KEYS[..i]
        invariant failures == 0 && forall k | k in metrics :: metrics[k] == 0
      {
        metrics := metrics[KEYS[i] := 0];
      }
      EveryKey();
      assert KEYS[..|KEYS|] == KEYS;
    }

    method ReadPage(after: int, limit: nat) returns (page: Option<Page>)
      modifies `failures
      ensures failures == old(failures) + if page == None then 1 else 0
      ensures page.Some? ==> page.value == PageAfter(paid, after, limit)
    {
      var up: bool := *;
      page := if up then Some(PageAfter(paid, after, limit)) else None;
      failures := failures + if up then 0 else 1;
    }

    method ReadFacts(ids: seq<int>) returns (facts: Option<seq<Order>>)
      requires ValidOrders(orders) && forall i, j | 0 <= i < j < |ids| :: ids[i] != ids[j]
      modifies `failures
      ensures failures == old(failures) + if facts == None then 1 else 0
      ensures facts.Some? ==> FactsFor(facts.value, ids, orders)
    {
      var up: bool := *;
      facts := if up then Some(Facts(ids, orders)) else None;
      failures := failures + if up then 0 else 1;
    }

    method Increment(k: Key)
      requires k in metrics
      modifies `metrics
      ensures metrics == old(metrics)[k := old(metrics)[k] + 1]
    {
      metrics := metrics[k := metrics[k] + 1];
    }

    method Compare(p: Payment, o: Order)
      requires Total(metrics)
      modifies `metrics
      ensures metrics == Tallied(old(metrics), Hits(p, Some(o)) - {ObservedPaidPayments})
    {
      hide Tallied, Hits, Applies;
      ghost var start := metrics;
      NothingDone(start, p, o);
      CompareFacts(p, o, start);
      if !o.checkout {
        CheckoutApplies(p, o);
        IncrementIf(CheckoutUnknown, true, p, o, start, FACTS);
        NoOtherHits(p, o, FACTS + {CheckoutUnknown});
        return;
      }
      CompareCheckout(p, o, start);
      NoOtherHits(p, o, FACTS + CHECKOUT);
    }

    /** One counter, once its condition is known; `done` are the counters that were looked at. */
    method IncrementIf(k: Key, holds: bool, ghost p: Payment, ghost o: Order, ghost start: map<Key, int>,
                       ghost done: set<Key>)
      requires Total(start) && metrics == Tallied(start, Hits(p, Some(o)) * done)
      requires k !in done && (holds <==> Applies(k, p, Some(o)))
      modifies `metrics
      ensures metrics == Tallied(start, Hits(p, Some(o)) * (done + {k}))
    {
      hide Tallied, Hits, Applies;
      HitsApply(p, Some(o));
      if holds {
        TallyOne(start, Hits(p, Some(o)) * done, k);
        Increment(k);
        assert Hits(p, Some(o)) * done + {k} == Hits(p, Some(o)) * (done + {k});
      } else {
        assert Hits(p, Some(o)) * done == Hits(p, Some(o)) * (done + {k});
      }
    }

    method CompareFacts(p: Payment, o: Order, ghost start: map<Key, int>)
      requires Total(start) && metrics == Tallied(start, Hits(p, Some(o)) * {})
      modifies `metrics
      ensures metrics == Tallied(start, Hits(p, Some(o)) * FACTS)
    {
      hide Tallied, Hits;
      ghost var done: set<Key> := {};
      IncrementIf(WrongOrderOrigin, o.origin != "native", p, o, start, done);
      done := done + {WrongOrderOrigin};
      IncrementIf(PaidStateMismatch,
        o.status != "paid" && o.status != "partially_refunded" && o.status != "refunded" && o.status != "closed", p, o, start, done);
      done := done + {PaidStateMismatch};
      IncrementIf(AmountCurrencyMismatch,
        p.amount != o.amount || p.currency != o.currency || p.provider != o.provider, p, o, start, done);
      done := done + {AmountCurrencyMismatch};
      IncrementIf(PartyMismatch, p.payer != o.payer || p.beneficiary != o.beneficiary, p, o, start, done);
      done := done + {PartyMismatch};
      CompareMoney(p, o, start, done);
    }

    method CompareMoney(p: Payment, o: Order, ghost start: map<Key, int>, ghost before: set<Key>)
      requires Total(start) && metrics == Tallied(start, Hits(p, Some(o)) * before)
      requires before == FACTS - {RefundTotalMismatch, MissingPaidTime, MissingPaidEvent}
      modifies `metrics
      ensures metrics == Tallied(start, Hits(p, Some(o)) * FACTS)
    {
      hide Tallied, Hits;
      ghost var done := before;
      IncrementIf(RefundTotalMismatch, p.refunded != o.refunded, p, o, start, done);
      done := done + {RefundTotalMismatch};
      IncrementIf(MissingPaidTime, p.paidAt == None, p, o, start, done);
      done := done + {MissingPaidTime};
      IncrementIf(MissingPaidEvent, !o.paidEvent, p, o, start, done);
      assert done + {MissingPaidEvent} == FACTS;
    }

    method CompareCheckout(p: Payment, o: Order, ghost start: map<Key, int>)
      requires Total(start) && o.checkout && metrics == Tallied(start, Hits(p, Some(o)) * FACTS)
      modifies `metrics
      ensures metrics == Tallied(start, Hits(p, Some(o)) * (FACTS + CHECKOUT))
    {
      hide Tallied, Hits;
      IncrementIf(CheckoutAmountMismatch, o.checkoutPayable != p.amount || o.checkoutCurrency != p.currency, p, o, start, FACTS);
      if o.productType == "service_period" {
        CompareService(p, o, start, FACTS + {CheckoutAmountMismatch});
      } else {
        IncrementIf(ExternalDeliveryOutsideScope, true, p, o, start, FACTS + {CheckoutAmountMismatch});
        CheckoutDone(p, o, FACTS + {CheckoutAmountMismatch} + {ExternalDeliveryOutsideScope});
      }
    }

    method CompareService(p: Payment, o: Order, ghost start: map<Key, int>, ghost before: set<Key>)
      requires Total(start) && o.checkout && o.productType == "service_period"
      requires metrics == Tallied(start, Hits(p, Some(o)) * before) && before == FACTS + {CheckoutAmountMismatch}
      modifies `metrics
      ensures metrics == Tallied(start, Hits(p, Some(o)) * (FACTS + CHECKOUT))
    {
      hide Tallied, Hits;
      ghost var done := before;
      if !o.grant {
        IncrementIf(MissingServiceGrant, true, p, o, start, done);
        done := done + {MissingServiceGrant};
      } else if !o.grantMatches {
        IncrementIf(ServiceGrantMismatch, true, p, o, start, done);
        done := done + {ServiceGrantMismatch};
      }
      IncrementIf(MissingServiceRefund, p.refunded > 0 && !o.serviceRefund, p, o, start, done);
      CheckoutDone(p, o, done + {MissingServiceRefund});
    }

    /** One page: its order facts by id, then every payment of it. */
    method CountPage(ghost n: nat, page: Page) returns (ok: bool)
      requires ValidPaid(paid) && ValidOrders(orders) && n + |page.items| <= |paid| && page.items == paid[n..n + |page.items|]
      requires Counted(metrics, paid[..n], orders)
      modifies this
      ensures failures == old(failures) + if ok then 0 else 1
      ensures ok ==>
                && Counted(metrics, paid[..n + |page.items|], orders)
                && ScanTruncated in metrics && metrics[ScanTruncated] == old(metrics)[ScanTruncated]
    {
      hide Count, Applies;
      var ids: seq<int> := seq(|page.items|, i requires 0 <= i < |page.items| => page.items[i].orderId);
      var facts := ReadFacts(ids);
      if facts == None {
        return false;
      }
      var byId := IndexFacts(facts.value);
      if byId == None {
        return false;
      }
      for i := 0 to |page.items|
        invariant Counted(metrics, paid[..n + i], orders) && metrics[ScanTruncated] == old(metrics)[ScanTruncated]
        invariant failures == old(failures)
      {
        var p := page.items[i];
        FoundOrder(paid, orders, n, page, ids, facts.value, byId.value, i);
        CountPayment(n + i, p, Lookup(byId.value, p.orderId));
      }
      return true;
    }

    method CountPayment(ghost n: nat, p: Payment, found: Option<Order>)
      requires n < |paid| && p == paid[n] && found == Lookup(orders, p.orderId)
      requires Counted(metrics, paid[..n], orders)
      modifies `metrics
      ensures Counted(metrics, paid[..n + 1], orders) && metrics[ScanTruncated] == old(metrics)[ScanTruncated]
    {
      hide Count, Tallied, Hits;
      ghost var start := metrics;
      CountedIsTotal(metrics, paid[..n], orders);
      NoTally(start);
      TallyOne(start, {}, ObservedPaidPayments);
      Increment(ObservedPaidPayments);
      TallyIsTotal(start, {} + {ObservedPaidPayments});
      match found
      case None =>
        TallyOne(start, {} + {ObservedPaidPayments}, MissingOrder);
        Increment(MissingOrder);
        CountsOneMore(start, metrics, paid, n, orders, {} + {ObservedPaidPayments} + {MissingOrder});
      case Some(o) =>
        HitsApply(p, found);
        Compare(p, o);
        TallyTwice(start, {} + {ObservedPaidPayments}, Hits(p, found) - {ObservedPaidPayments});
        CountsOneMore(start, metrics, paid, n, orders, {} + {ObservedPaidPayments} + (Hits(p, found) - {ObservedPaidPayments}));
    }

    method IndexFacts(facts: seq<Order>) returns (byId: Option<map<int, Order>>)
      ensures byId.Some? <==> forall i, j | 0 <= i < j < |facts| :: facts[i].orderId != facts[j].orderId
      ensures byId.Some? ==>
                && (forall o | o in facts :: o.orderId in byId.value && byId.value[o.orderId] == o)
                && (forall id | id in byId.value :: byId.value[id] in facts && byId.value[id].orderId == id)
    {
      var index: map<int, Order> := map[];
      for i := 0 to |facts|
        invariant forall k | 0 <= k < i :: facts[k].orderId in index && index[facts[k].orderId] == facts[k]
        invariant forall id | id in index :: index[id] in facts[..i] && index[id].orderId == id
        invariant forall k, j | 0 <= k < j < i :: facts[k].orderId != facts[j].orderId
      {
        var o := facts[i];
        if o.orderId in index {
          assert index[o.orderId] in facts[..i];
          return None;
        }
        index := index[o.orderId := o];
        assert facts[..i + 1] == facts[..i] + [o];
      }
      return Some(index);
    }

    /** One round of the scan, from the `n`-th paid order on. */
    method ScanPage(after: int, ghost n: nat) returns (r: Option<(int, bool)>, ghost m: nat)
      requires ValidPaid(paid) && ValidOrders(orders) && n <= |paid| && after == Position(paid, n)
      requires Counted(metrics, paid[..n], orders)
      modifies this
      ensures failures == old(failures) + if r == None then 1 else 0
      ensures m == Least(|paid|, n + PAGE_SIZE)
      ensures r.Some? ==>
                && r.value == (Position(paid, m), m == |paid|)
                && Counted(metrics, paid[..m], orders)
                && ScanTruncated in metrics && metrics[ScanTruncated] == old(metrics)[ScanTruncated]
    {
      hide PageAfter, ValidPaid, ValidOrders, Count;
      m := Least(|paid|, n + PAGE_SIZE);
      var page := ReadPage(after, PAGE_SIZE);
      if page == None {
        return None, m;
      }
      PageContinues(paid, n, PAGE_SIZE);
      if |page.value.items| == 0 {
        if page.value.more {
          return None, m;
        }
        return Some((after, true)), m;
      }
      Advances(paid, n, page.value.items);
      var advanced := Advance(after, page.value.items);
      if advanced == None {
        return None, m;
      }
      var ok := CountPage(n, page.value);
      if !ok {
        return None, m;
      }
      return Some((advanced.value, !page.value.more)), m;
    }

    method Collect() returns (r: Option<Observation>)
      requires ValidPaid(paid) && ValidOrders(orders)
      requires forall k: Key :: k in metrics && metrics[k] == 0
      modifies this
      ensures r == None <==> failures > old(failures)
      ensures r.Some? ==> r.value.metrics == metrics && Verdict(r.value) && ScanTruncated in metrics
      // Within the bound, every counter is about all paid orders; beyond it, the scan says so.
      ensures r.Some? ==> metrics[ScanTruncated] == if |paid| <= 10000 then 0 else 1
      ensures r.Some? ==> Counted(metrics, paid[..Least(|paid|, 10000)], orders)
      // The verdict, over payments and orders.
      ensures r.Some? ==>
                (r.value.status == Healthy
                 <==> && |paid| <= 10000
                      && forall p | p in paid ::
                           p.orderId in orders && Settles(orders[p.orderId], p) && Evidenced(orders[p.orderId], p))
      ensures r.Some? ==>
                (r.value.status == Critical
                 <==> exists p | p in paid[..Least(|paid|, 10000)] :: p.orderId !in orders || !Settles(orders[p.orderId], p))
    {
      hide Counted, Judge, Verdict, ValidPaid, ValidOrders, Settles, Evidenced;
      ghost var n := 0;
      var after, pageNo, done := 0, 0, false;
      NothingCounted(metrics, orders);
      assert paid[..0] == [];
      while pageNo < MAXIMUM_PAGES && !done
        invariant pageNo <= MAXIMUM_PAGES && n == Least(|paid|, pageNo * PAGE_SIZE) && after == Position(paid, n)
        invariant Counted(metrics, paid[..n], orders)
        invariant ScanTruncated in metrics && metrics[ScanTruncated] == 0 && failures == old(failures)
        invariant if pageNo == 0 then !done else done <==> n == |paid|
      {
        var round;
        round, n := ScanPage(after, n);
        if round == None {
          return None;
        }
        after, done, pageNo := round.value.0, round.value.1, pageNo + 1;
      }
      if !done {
        TruncationIsNotCounted(metrics, paid[..n], orders);
        metrics := metrics[ScanTruncated := 1];
      }
      CountedIsTotal(metrics, paid[..n], orders);
      JudgeIsVerdict(metrics);
      r := Some(Judge(metrics));
      HealthyMeansClean(paid[..n], orders, r.value);
      assert |paid| <= 10000 ==> paid[..n] == paid;
    }
  }

  ghost predicate Total(metrics: map<Key, int>) {
    forall k: Key :: k in metrics
  }

  function Least(a: int, b: int): int {
    if a < b then a else b
  }

  lemma Advances(paid: seq<Payment>, n: nat, items: seq<Payment>)
    requires ValidPaid(paid) && items != [] && n + |items| <= |paid| && items == paid[n..n + |items|]
    ensures items[0].orderId > Position(paid, n)
    ensures forall i, j | 0 <= i < j < |items| :: items[i].orderId < items[j].orderId
  {
    assert paid[n] in paid;
  }

  method Advance(after: int, items: seq<Payment>) returns (last: Option<int>)
    requires items != []
    ensures last.Some? <==> items[0].orderId > after && forall i, j | 0 <= i < j < |items| :: items[i].orderId < items[j].orderId
    ensures last.Some? ==> last.value == items[|items| - 1].orderId
  {
    var current := after;
    for i := 0 to |items|
      invariant i > 0 ==> current == items[i - 1].orderId && items[0].orderId > after
      invariant i == 0 ==> current == after
      invariant forall k, j | 0 <= k < j < i :: items[k].orderId < items[j].orderId
    {
      if items[i].orderId <= current {
        return None;
      }
      current := items[i].orderId;
    }
    return Some(current);
  }

  lemma NothingCounted(metrics: map<Key, int>, orders: map<int, Order>)
    requires forall k: Key :: k in metrics && metrics[k] == 0
    ensures Counted(metrics, [], orders)
  {
  }

  lemma CountedIsTotal(metrics: map<Key, int>, paid: seq<Payment>, orders: map<int, Order>)
    requires Counted(metrics, paid, orders)
    ensures Total(metrics)
  {
  }

  lemma TruncationIsNotCounted(metrics: map<Key, int>, paid: seq<Payment>, orders: map<int, Order>)
    requires Counted(metrics, paid, orders)
    ensures Counted(metrics[ScanTruncated := 1], paid, orders)
  {
  }

  lemma EveryKey()
    ensures forall k: Key :: k in KEYS
  {
    forall k: Key
      ensures k in KEYS
    {
      match k
      case ObservedPaidPayments => assert KEYS[0] == k;
      case MissingOrder => assert KEYS[1] == k;
      case WrongOrderOrigin => assert KEYS[2] == k;
      case PaidStateMismatch => assert KEYS[3] == k;
      case AmountCurrencyMismatch => assert KEYS[4] == k;
      case PartyMismatch => assert KEYS[5] == k;
      case RefundTotalMismatch => assert KEYS[6] == k;
      case MissingPaidTime => assert KEYS[7] == k;
      case CheckoutUnknown => assert KEYS[8] == k;
      case CheckoutAmountMismatch => assert KEYS[9] == k;
      case MissingPaidEvent => assert KEYS[10] == k;
      case MissingServiceGrant => assert KEYS[11] == k;
      case ServiceGrantMismatch => assert KEYS[12] == k;
      case MissingServiceRefund => assert KEYS[13] == k;
      case ExternalDeliveryOutsideScope => assert KEYS[14] == k;
      case ScanTruncated => assert KEYS[15] == k;
    }
  }

  // ---------- several counters at once ----------

  ghost function Tallied(metrics: map<Key, int>, hits: set<Key>): map<Key, int> {
    map k | k in metrics :: metrics[k] + if k in hits then 1 else 0
  }

  ghost function Hits(p: Payment, found: Option<Order>): set<Key> {
    set k: Key | Applies(k, p, found)
  }

  lemma NoTally(metrics: map<Key, int>)
    ensures Tallied(metrics, {}) == metrics
  {
  }

  lemma TallyOne(metrics: map<Key, int>, hits: set<Key>, k: Key)
    requires Total(metrics) && k !in hits
    ensures k in Tallied(metrics, hits)
    ensures Tallied(metrics, hits)[k := Tallied(metrics, hits)[k] + 1] == Tallied(metrics, hits + {k})
  {
  }

  lemma TallyIsTotal(metrics: map<Key, int>, hits: set<Key>)
    requires Total(metrics)
    ensures Total(Tallied(metrics, hits))
  {
  }

  lemma TallyTwice(metrics: map<Key, int>, hits: set<Key>, more: set<Key>)
    requires forall k | k in hits :: k !in more
    ensures Tallied(Tallied(metrics, hits), more) == Tallied(metrics, hits + more)
  {
  }

  lemma HitsApply(p: Payment, found: Option<Order>)
    ensures forall k :: k in Hits(p, found) <==> Applies(k, p, found)
  {
  }

  lemma NothingDone(start: map<Key, int>, p: Payment, o: Order)
    ensures start == Tallied(start, Hits(p, Some(o)) * {})
  {
    NoTally(start);
    assert Hits(p, Some(o)) * {} == {};
  }

  lemma CheckoutApplies(p: Payment, o: Order)
    ensures Applies(CheckoutUnknown, p, Some(o)) <==> !o.checkout
  {
  }

  lemma CheckoutDone(p: Payment, o: Order, done: set<Key>)
    requires FACTS <= done <= FACTS + CHECKOUT
    requires forall k | k in CHECKOUT && k !in done :: !Applies(k, p, Some(o))
    ensures Hits(p, Some(o)) * done == Hits(p, Some(o)) * (FACTS + CHECKOUT)
  {
    hide Applies, Hits;
    HitsApply(p, Some(o));
  }

  lemma NoOtherHits(p: Payment, o: Order, done: set<Key>)
    requires done == if o.checkout then FACTS + CHECKOUT else FACTS + {CheckoutUnknown}
    ensures Hits(p, Some(o)) * done == Hits(p, Some(o)) - {ObservedPaidPayments}
  {
    hide Hits;
    HitsApply(p, Some(o));
    forall k | k != ObservedPaidPayments && Applies(k, p, Some(o))
      ensures k in done
    {
    }
  }

  lemma CountsOneMore(before: map<Key, int>, after: map<Key, int>, paid: seq<Payment>, n: nat,
                      orders: map<int, Order>, hits: set<Key>)
    requires n < |paid| && Counted(before, paid[..n], orders)
    requires after == Tallied(before, hits)
    requires forall k: Key :: k in hits <==> Applies(k, paid[n], Lookup(orders, paid[n].orderId))
    ensures Counted(after, paid[..n + 1], orders) && after[ScanTruncated] == before[ScanTruncated]
  {
    hide Applies;
    assert paid[..n + 1][..n] == paid[..n];
    NeverTruncated([paid[n]], orders);
    assert paid[n] in [paid[n]];
  }

  lemma FoundOrder(paid: seq<Payment>, orders: map<int, Order>, n: nat, page: Page, ids: seq<int>,
                   facts: seq<Order>, byId: map<int, Order>, i: nat)
    requires n + |page.items| <= |paid| && page.items == paid[n..n + |page.items|] && i < |page.items|
    requires |ids| == |page.items| && forall k | 0 <= k < |ids| :: ids[k] == page.items[k].orderId
    requires FactsFor(facts, ids, orders) && ValidOrders(orders)
    requires forall o | o in facts :: o.orderId in byId && byId[o.orderId] == o
    requires forall id | id in byId :: byId[id] in facts && byId[id].orderId == id
    ensures page.items[i] == paid[n + i]
    ensures Lookup(byId, page.items[i].orderId) == Lookup(orders, page.items[i].orderId)
  {
    var id := page.items[i].orderId;
    assert ids[i] == id && id in ids;
    if id in orders {
      assert orders[id] in facts && orders[id].orderId == id;
    }
  }

  // ---------- the verdict ----------

  function Judge(metrics: map<Key, int>): Observation
    requires Total(metrics)
  {
    if exists k | k in VIOLATIONS :: metrics[k] > 0 then Observation(Critical, "settlement_invariant_violation", metrics)
    else if exists k | k in EVIDENCE :: metrics[k] > 0 then Observation(Unknown, "settlement_evidence_incomplete", metrics)
    else Observation(Healthy, "native_paid_settlement_consistent", metrics)
  }

  lemma JudgeIsVerdict(metrics: map<Key, int>)
    requires Total(metrics)
    ensures Verdict(Judge(metrics)) && Judge(metrics).metrics == metrics
  {
  }

  /** Any violation overrides incomplete evidence, and only a clean scan is healthy. */
  ghost predicate Verdict(o: Observation) {
    && Total(o.metrics)
    && (o.status == Critical <==> exists k | k in VIOLATIONS :: o.metrics[k] > 0)
    && (o.status == Healthy <==> forall k | k in VIOLATIONS + EVIDENCE :: o.metrics[k] <= 0)
    && o.code == match o.status
        case Healthy => "native_paid_settlement_consistent"
        case Unknown => "settlement_evidence_incomplete"
        case Critical => "settlement_invariant_violation"
  }

  /** The order settles the payment: a native, paid order over the same amount, between the same parties,
      with the same refunds; its checkout asked for that amount; and a service period was granted as
      sold, and taken back with the refund. */
  ghost predicate Settles(o: Order, p: Payment) {
    && o.origin == "native" && (o.status == "paid" || o.status == "partially_refunded" || o.status == "refunded" || o.status == "closed")
    && p.amount == o.amount && p.currency == o.currency && p.provider == o.provider
    && p.payer == o.payer && p.beneficiary == o.beneficiary && p.refunded == o.refunded
    && (o.checkout ==>
          && o.checkoutPayable == p.amount && o.checkoutCurrency == p.currency
          && (o.productType == "service_period" ==> o.grant && o.grantMatches && (p.refunded > 0 ==> o.serviceRefund)))
  }

  /** Nothing that the check relies on is missing. */
  ghost predicate Evidenced(o: Order, p: Payment) {
    p.paidAt.Some? && o.paidEvent && o.checkout
  }

  lemma ViolationsMean(p: Payment, found: Option<Order>)
    ensures (exists k | k in VIOLATIONS :: Applies(k, p, found)) <==> found == None || !Settles(found.value, p)
  {
    if found.Some? {
      var o := found.value;
      assert MissingServiceGrant in VIOLATIONS && ServiceGrantMismatch in VIOLATIONS && MissingServiceRefund in VIOLATIONS;
      assert CheckoutAmountMismatch in VIOLATIONS && RefundTotalMismatch in VIOLATIONS && PartyMismatch in VIOLATIONS;
      assert AmountCurrencyMismatch in VIOLATIONS && PaidStateMismatch in VIOLATIONS && WrongOrderOrigin in VIOLATIONS;
    } else {
      assert Applies(MissingOrder, p, found) && MissingOrder in VIOLATIONS;
    }
  }

  lemma GapsMean(p: Payment, o: Order)
    ensures (exists k | k in EVIDENCE :: Applies(k, p, Some(o))) <==> !Evidenced(o, p)
  {
    assert MissingPaidTime in EVIDENCE && MissingPaidEvent in EVIDENCE && CheckoutUnknown in EVIDENCE;
  }

  /** What the verdict says about the payments: healthy exactly when the scan saw them all and every one of
      them has an order that settles it, with all the evidence; critical exactly when one has not. */
  lemma HealthyMeansClean(paid: seq<Payment>, orders: map<int, Order>, o: Observation)
    requires Verdict(o) && Counted(o.metrics, paid, orders) && o.metrics[ScanTruncated] >= 0
    ensures o.status == Healthy
            <==> && o.metrics[ScanTruncated] == 0
                 && forall p | p in paid ::
                      p.orderId in orders && Settles(orders[p.orderId], p) && Evidenced(orders[p.orderId], p)
    ensures o.status == Critical
            <==> exists p | p in paid :: p.orderId !in orders || !Settles(orders[p.orderId], p)
  {
    hide *;
    VerdictCounts(paid, orders, o);
    forall p | p in paid
      ensures (forall k | k in VIOLATIONS + EVIDENCE :: !Applies(k, p, Lookup(orders, p.orderId)))
              <==> p.orderId in orders && Settles(orders[p.orderId], p) && Evidenced(orders[p.orderId], p)
      ensures (exists k | k in VIOLATIONS :: Applies(k, p, Lookup(orders, p.orderId)))
              <==> p.orderId !in orders || !Settles(orders[p.orderId], p)
    {
      ChecksMean(p, orders);
    }
  }

  lemma ChecksMean(p: Payment, orders: map<int, Order>)
    ensures (forall k | k in VIOLATIONS + EVIDENCE :: !Applies(k, p, Lookup(orders, p.orderId)))
            <==> p.orderId in orders && Settles(orders[p.orderId], p) && Evidenced(orders[p.orderId], p)
    ensures (exists k | k in VIOLATIONS :: Applies(k, p, Lookup(orders, p.orderId)))
            <==> p.orderId !in orders || !Settles(orders[p.orderId], p)
  {
    hide Applies, Settles, Evidenced, VIOLATIONS, EVIDENCE;
    ViolationsMean(p, Lookup(orders, p.orderId));
    if p.orderId in orders {
      GapsMean(p, orders[p.orderId]);
    }
  }

  lemma VerdictCounts(paid: seq<Payment>, orders: map<int, Order>, o: Observation)
    requires Verdict(o) && Counted(o.metrics, paid, orders) && o.metrics[ScanTruncated] >= 0
    ensures o.status == Healthy
            <==> && o.metrics[ScanTruncated] == 0
                 && forall p, k | p in paid && k in VIOLATIONS + EVIDENCE :: !Applies(k, p, Lookup(orders, p.orderId))
    ensures o.status == Critical
            <==> exists p, k | p in paid && k in VIOLATIONS :: Applies(k, p, Lookup(orders, p.orderId))
  {
    hide Applies, Count, Counted, Verdict;
    PositiveCounters(paid, orders, o.metrics);
    CleanMeansZero(paid, orders, o.metrics);
    VerdictSays(o);
  }

  lemma VerdictSays(o: Observation)
    requires Verdict(o)
    ensures Total(o.metrics)
    ensures o.status == Critical <==> exists k | k in VIOLATIONS :: o.metrics[k] > 0
    ensures o.status == Healthy <==> forall k | k in VIOLATIONS + EVIDENCE :: o.metrics[k] <= 0
  {
  }

  lemma CleanMeansZero(paid: seq<Payment>, orders: map<int, Order>, metrics: map<Key, int>)
    requires Counted(metrics, paid, orders) && Total(metrics) && metrics[ScanTruncated] >= 0
    ensures (forall k | k in VIOLATIONS + EVIDENCE :: metrics[k] <= 0)
            <==> && metrics[ScanTruncated] == 0
                 && forall p, k | p in paid && k in VIOLATIONS + EVIDENCE :: !Applies(k, p, Lookup(orders, p.orderId))
  {
    hide Applies, Count, Counted;
    PositiveCounters(paid, orders, metrics);
    NeverTruncated(paid, orders);
    assert ScanTruncated in VIOLATIONS + EVIDENCE;
  }

  lemma PositiveCounters(paid: seq<Payment>, orders: map<int, Order>, metrics: map<Key, int>)
    requires Counted(metrics, paid, orders)
    ensures forall k: Key :: k in metrics
              && (k != ScanTruncated ==> (metrics[k] > 0 <==> exists p | p in paid :: Applies(k, p, Lookup(orders, p.orderId))))
  {
    hide Applies, Count;
    forall k: Key
      ensures Count(k, paid, orders) > 0 <==> exists p | p in paid :: Applies(k, p, Lookup(orders, p.orderId))
    {
      CountIsPositive(k, paid, orders);
    }
  }

  lemma NeverTruncated(paid: seq<Payment>, orders: map<int, Order>)
    ensures forall p | p in paid :: !Applies(ScanTruncated, p, Lookup(orders, p.orderId))
  {
  }
}
