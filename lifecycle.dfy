/** The delivery lifecycle as a whole: any sequence of the three transitions
    (a delivery man collects or finishes, an administrator cancels), each
    refused or applied as the controllers do. Editing and registering
    deliveries write any column they are given and are not part of it. */
module Lifecycle {
  import opened Common
  import opened Tables
  import DH = DeliveryHandling
  import DP = DeliveryProblems

  /** One lifecycle request, with the instant it arrives. A finish carries
      the key of the stored signature photo, if one came with it. */
  datatype Event =
    | CollectRequest(man: int, id: int, now: Time)
    | FinishRequest(man: int, id: int, now: Time, signature: Option<int>)
    | CancelRequest(id: int, now: Time)

  /** The deliveries table after one request. */
  function Step(deliveries: map<int, Delivery>, men: map<int, DeliveryMan>, e: Event): map<int, Delivery> {
    match e
    case CollectRequest(man, id, now) => DH.Collected(deliveries, men, man, id, now)
    case FinishRequest(man, id, now, signature) => DH.Finished(deliveries, men, man, id, now, signature)
    case CancelRequest(id, now) => DP.Canceled(deliveries, id, now)
  }

  /** The deliveries table after a sequence of requests, in order. */
  function Replay(deliveries: map<int, Delivery>, men: map<int, DeliveryMan>, events: seq<Event>): map<int, Delivery>
    decreases |events|
  {
    if events == [] then deliveries else Replay(Step(deliveries, men, events[0]), men, events[1..])
  }

  /** A delivery whose timestamps tell one story: a finished delivery was
      collected no later than it was finished, and was not canceled. */
  predicate Coherent(d: Delivery) {
    && (d.endDate.Some? ==> d.startDate.Some? && d.startDate.value <= d.endDate.value)
    && !(d.canceledAt.Some? && d.endDate.Some?)
  }

  predicate AllCoherent(deliveries: map<int, Delivery>) {
    forall id | id in deliveries :: Coherent(deliveries[id])
  }

  /** No delivery man has more than the daily limit of pickups on any day. */
  ghost predicate WithinDailyLimit(deliveries: map<int, Delivery>) {
    forall man: int, t: Time :: |DH.Pickups(deliveries, man, t)| <= DH.DailyLimit
  }

  /** `after` is a later state of the delivery `before`: its references and
      product are the same, a start date once set keeps its value, a
      cancellation is never undone, and a finished delivery is frozen. */
  predicate Advances(before: Delivery, after: Delivery) {
    && after.recipientId == before.recipientId
    && after.deliveryManId == before.deliveryManId
    && after.product == before.product
    && (before.startDate.Some? ==> after.startDate == before.startDate)
    && (before.canceledAt.Some? ==> after.canceledAt.Some?)
    && (before.endDate.Some? ==> after == before)
  }

  /** Pickups depend only on who carries each delivery and when it started. */
  lemma PickupsFollowStarts(deliveries: map<int, Delivery>, after: map<int, Delivery>)
    requires after.Keys == deliveries.Keys
    requires forall id | id in deliveries :: after[id].deliveryManId == deliveries[id].deliveryManId
                                             && after[id].startDate == deliveries[id].startDate
    ensures forall man: int, t: Time :: DH.Pickups(after, man, t) == DH.Pickups(deliveries, man, t)
  {
    forall man: int, t: Time ensures DH.Pickups(after, man, t) == DH.Pickups(deliveries, man, t) {
      assert forall id :: id in DH.Pickups(after, man, t) <==> id in DH.Pickups(deliveries, man, t);
    }
  }

  /** One request keeps the table's keys and moves every delivery forward. */
  lemma StepAdvances(deliveries: map<int, Delivery>, men: map<int, DeliveryMan>, e: Event)
    ensures Step(deliveries, men, e).Keys == deliveries.Keys
    ensures forall id | id in deliveries :: Advances(deliveries[id], Step(deliveries, men, e)[id])
  {
  }

  /** One request keeps every delivery coherent. */
  lemma StepKeepsCoherent(deliveries: map<int, Delivery>, men: map<int, DeliveryMan>, e: Event)
    requires AllCoherent(deliveries)
    ensures AllCoherent(Step(deliveries, men, e))
  {
  }

  /** One request keeps every delivery man within the daily limit, on every day. */
  lemma StepKeepsDailyLimit(deliveries: map<int, Delivery>, men: map<int, DeliveryMan>, e: Event)
    requires WithinDailyLimit(deliveries)
    ensures WithinDailyLimit(Step(deliveries, men, e))
  {
    var after := Step(deliveries, men, e);
    match e
    case CollectRequest(man, id, now) =>
      if DH.MayCollect(deliveries, men, man, id, now) {
        forall other: int, t: Time ensures |DH.Pickups(after, other, t)| <= DH.DailyLimit {
          DH.PickupsAfterStart(deliveries, man, id, now, other, t);
          if other == man && DH.StartOfDay(now) == DH.StartOfDay(t) {
            DH.PickupsOfSameDay(deliveries, man, t, now);
          }
        }
      }
    case FinishRequest(man, id, now, signature) =>
      PickupsFollowStarts(deliveries, after);
    case CancelRequest(id, now) =>
      PickupsFollowStarts(deliveries, after);
  }

  /** Whatever requests arrive, in whatever order and at whatever instants,
      the table keeps its keys, every delivery only moves forward, coherent
      deliveries stay coherent, and no delivery man goes over the daily
      limit on any day. */
  lemma {:induction false} ReplayKeepsInvariants(deliveries: map<int, Delivery>, men: map<int, DeliveryMan>, events: seq<Event>)
    requires AllCoherent(deliveries) && WithinDailyLimit(deliveries)
    ensures var final := Replay(deliveries, men, events);
      && final.Keys == deliveries.Keys
      && (forall id | id in deliveries :: Advances(deliveries[id], final[id]))
      && AllCoherent(final)
      && WithinDailyLimit(final)
    decreases |events|
  {
    if events != [] {
      var next := Step(deliveries, men, events[0]);
      StepAdvances(deliveries, men, events[0]);
      StepKeepsCoherent(deliveries, men, events[0]);
      StepKeepsDailyLimit(deliveries, men, events[0]);
      ReplayKeepsInvariants(next, men, events[1..]);
    }
  }

  /** A delivery that is finished is never changed again by the lifecycle. */
  lemma {:induction false} FinishedIsFinal(deliveries: map<int, Delivery>, men: map<int, DeliveryMan>, events: seq<Event>, id: int)
    requires id in deliveries && deliveries[id].endDate.Some?
    ensures id in Replay(deliveries, men, events)
    ensures Replay(deliveries, men, events)[id] == deliveries[id]
    decreases |events|
  {
    if events != [] {
      var next := Step(deliveries, men, events[0]);
      StepAdvances(deliveries, men, events[0]);
      FinishedIsFinal(next, men, events[1..], id);
    }
  }
}
