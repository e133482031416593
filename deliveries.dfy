/** The administrator's side of deliveries: listing, registering, editing
    and removing them. The schema checks of these actions use yup's
    `isValid`, which answers a boolean that nobody reads, so none of them
    ever refuses a request; only the lookups and state checks below do. */
module Deliveries {
  import opened Common
  import opened Tables

  const UnknownDeliveryMan := "The delivery man does not exist."
  const UnknownRecipient := "The recipient does not exist."
  const UnknownDelivery := "The delivery does not exist."
  const CanceledNoEdit := "The delivery has been canceled and can't be edited anymore."
  const DeliveredNoEdit := "The package has been delivered and can't be edited anymore."
  const CollectedNoEdit := "The package has been collected and can't be edited anymore."
  const ProductRequired := "The database refuses a delivery without a product."
  const Deleted := "The delivery has been deleted."

  /** The request body of `store` and `update`: the columns of a delivery
      that a client may send. */
  datatype DeliveryBody = DeliveryBody(
    recipientId: Field<int>,
    deliveryManId: Field<int>,
    product: Field<string>,
    signatureId: Field<Option<int>>,
    canceledAt: Field<Option<Time>>,
    startDate: Field<Option<Time>>,
    endDate: Field<Option<Time>>)

  /** The ORM's `instance.update(body)`: every column the body gives takes
      its value, every other keeps its own. */
  function Merge(d: Delivery, body: DeliveryBody): Delivery {
    Delivery(
      Pick(body.recipientId, d.recipientId),
      Pick(body.deliveryManId, d.deliveryManId),
      Pick(body.product, d.product),
      Pick(body.signatureId, d.signatureId),
      Pick(body.canceledAt, d.canceledAt),
      Pick(body.startDate, d.startDate),
      Pick(body.endDate, d.endDate))
  }

  /** The body that gives every column of `d`. */
  function Full(d: Delivery): DeliveryBody {
    DeliveryBody(Given(d.recipientId), Given(d.deliveryManId), Given(d.product),
                 Given(d.signatureId), Given(d.canceledAt), Given(d.startDate), Given(d.endDate))
  }

  /** The body that gives no column. */
  const Empty := DeliveryBody(Omitted, Omitted, Omitted, Omitted, Omitted, Omitted, Omitted)

  /** Merging is idempotent, an empty body changes nothing, and a full body
      replaces the whole record. */
  lemma MergeLaws(d: Delivery, e: Delivery, body: DeliveryBody)
    ensures Merge(Merge(d, body), body) == Merge(d, body)
    ensures Merge(d, Empty) == d
    ensures Merge(d, Full(e)) == e
  {
  }

  /** The row `Delivery.create(body)` inserts, when the body gives both
      references and the product; absent nullable columns become null. */
  function Created(body: DeliveryBody): Delivery
    requires body.recipientId.Given? && body.deliveryManId.Given? && body.product.Given?
  {
    Delivery(body.recipientId.value, body.deliveryManId.value, body.product.value,
             OrNullable(body.signatureId), OrNullable(body.canceledAt),
             OrNullable(body.startDate), OrNullable(body.endDate))
  }

  /** The body `d` came from is the full body of `d`. */
  lemma CreatedFromFull(d: Delivery)
    ensures Created(Full(d)) == d
  {
  }

  /** What `index` answers: every delivery, or the one asked for (null when
      it does not exist: this action has no not-found check). */
  datatype Listing = All(deliveries: map<int, Delivery>) | One(delivery: Option<Delivery>)

  /** `index`: without `id`, all deliveries; with `id`, that delivery or null. */
  function Index(db: Db, id: Param): (r: Listing)
    reads db
    ensures id.Absent? <==> r.All?
    ensures r.All? ==> r.deliveries == db.deliveries
    ensures r.One? ==> (r.delivery.Some? <==> id.Numeric? && id.value in db.deliveries)
    ensures r.One? && r.delivery.Some? ==> r.delivery.value == db.deliveries[id.value]
  {
    if id.Absent? then All(db.deliveries)
    else
      var key := FindByPk(db.deliveries, id);
      One(if key.Some? then Some(db.deliveries[key.value]) else None)
  }

  /** `store`: registers a delivery for an existing delivery man and an
      existing recipient. */
  method Store(db: Db, body: DeliveryBody) returns (r: Result<Delivery>)
    requires db.Valid()
    modifies db`deliveries, db`nextDeliveryId
    ensures db.Valid()
    ensures r.Ok? <==> && body.deliveryManId.Given? && body.deliveryManId.value in db.deliveryMen
                       && body.recipientId.Given? && body.recipientId.value in db.recipients
                       && body.product.Given?
    ensures !(body.deliveryManId.Given? && body.deliveryManId.value in db.deliveryMen)
            ==> r == Err(400, UnknownDeliveryMan)
    ensures body.deliveryManId.Given? && body.deliveryManId.value in db.deliveryMen
            && !(body.recipientId.Given? && body.recipientId.value in db.recipients)
            ==> r == Err(400, UnknownRecipient)
    ensures r.Err? ==> db.deliveries == old(db.deliveries) && db.nextDeliveryId == old(db.nextDeliveryId)
    ensures r.Ok? ==> && old(db.nextDeliveryId) !in old(db.deliveries)
                      && db.deliveries == old(db.deliveries)[old(db.nextDeliveryId) := r.value]
                      && db.nextDeliveryId == old(db.nextDeliveryId) + 1
                      && r.value == Created(body)
  {
    var man := if body.deliveryManId.Given? then FindByPk(db.deliveryMen, Numeric(body.deliveryManId.value)) else None;
    if man.None? {
      return Err(400, UnknownDeliveryMan);
    }
    var recipient := if body.recipientId.Given? then FindByPk(db.recipients, Numeric(body.recipientId.value)) else None;
    if recipient.None? {
      return Err(400, UnknownRecipient);
    }
    if body.product.Omitted? {
      return Err(500, ProductRequired);
    }
    var delivery := Created(body);
    var id := db.nextDeliveryId;
    db.deliveries := db.deliveries[id := delivery];
    db.nextDeliveryId := id + 1;
    return Ok(delivery);
  }

  /** The body names a delivery man by a truthy value (any number but 0). */
  predicate ReassignsDeliveryMan(body: DeliveryBody) {
    body.deliveryManId.Given? && body.deliveryManId.value != 0
  }

  /** Every check of `update` passes for the delivery `id`. */
  predicate Editable(deliveries: map<int, Delivery>, id: int, body: DeliveryBody) {
    && id in deliveries
    && deliveries[id].canceledAt.None?
    && deliveries[id].endDate.None?
    && !(ReassignsDeliveryMan(body) && deliveries[id].startDate.Some?)
  }

  /** `update`: merges the body into the delivery `id`, unless it is
      canceled or finished, or the body reassigns a collected package. */
  method Update(db: Db, id: Param, body: DeliveryBody) returns (r: Result<Delivery>)
    requires db.Valid()
    modifies db`deliveries
    ensures db.Valid()
    ensures r.Ok? <==> id.Numeric? && Editable(old(db.deliveries), id.value, body)
    ensures r.Err? ==> db.deliveries == old(db.deliveries)
    ensures !(id.Numeric? && id.value in old(db.deliveries)) ==> r == Err(400, UnknownDelivery)
    ensures id.Numeric? && id.value in old(db.deliveries) ==>
      var d := old(db.deliveries)[id.value];
      && (d.canceledAt.Some? ==> r == Err(401, CanceledNoEdit))
      && (d.canceledAt.None? && d.endDate.Some? ==> r == Err(401, DeliveredNoEdit))
      && (Open(d) && ReassignsDeliveryMan(body) && d.startDate.Some? ==> r == Err(401, CollectedNoEdit))
    ensures r.Ok? ==> && db.deliveries == old(db.deliveries)[id.value := Merge(old(db.deliveries)[id.value], body)]
                      && r.value == db.deliveries[id.value]
  {
    var key := FindByPk(db.deliveries, id);
    if key.None? {
      return Err(400, UnknownDelivery);
    }
    var delivery := db.deliveries[key.value];
    if delivery.canceledAt.Some? {
      return Err(401, CanceledNoEdit);
    }
    if delivery.endDate.Some? {
      return Err(401, DeliveredNoEdit);
    }
    if ReassignsDeliveryMan(body) && delivery.startDate.Some? {
      return Err(401, CollectedNoEdit);
    }
    var merged := Merge(delivery, body);
    db.deliveries := db.deliveries[key.value := merged];
    return Ok(merged);
  }

  /** `delete`: removes the delivery `id`. */
  method Delete(db: Db, id: Param) returns (r: Result<string>)
    requires db.Valid()
    modifies db`deliveries
    ensures db.Valid()
    ensures r.Ok? <==> id.Numeric? && id.value in old(db.deliveries)
    ensures r.Ok? ==> r == Ok(Deleted) && db.deliveries == old(db.deliveries) - {id.value}
    ensures r.Err? ==> r == Err(400, UnknownDelivery) && db.deliveries == old(db.deliveries)
  {
    var key := FindByPk(db.deliveries, id);
    if key.None? {
      return Err(400, UnknownDelivery);
    }
    db.deliveries := db.deliveries - {key.value};
    return Ok(Deleted);
  }
}
