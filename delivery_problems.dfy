/** Problems reported on deliveries, and the cancellation of a delivery. */
module DeliveryProblems {
  import opened Common
  import opened Tables

  const UnknownDelivery := "The requested delivery does not exist."
  const FinishedNoCancel := "The delivery has been finished and can't be canceled."
  const DeliveryIdRequired := "The delivery_id field is required."
  const DescriptionRequired := "The description field is required."

  /** The delivery `id` has at least one problem. */
  predicate HasProblem(problems: map<int, Problem>, id: int) {
    exists k | k in problems :: problems[k].deliveryId == id
  }

  /** The problems reported on the delivery `id`. */
  function ProblemsOf(problems: map<int, Problem>, id: int): map<int, Problem> {
    map k | k in problems && problems[k].deliveryId == id :: problems[k]
  }

  /** The deliveries that have at least one problem (the inner join of `index`). */
  function WithProblems(deliveries: map<int, Delivery>, problems: map<int, Problem>): map<int, Delivery> {
    map id | id in deliveries && HasProblem(problems, id) :: deliveries[id]
  }

  /** The two forms of `index` agree: a delivery is listed among those with
      problems exactly when its own list of problems is not empty. */
  lemma ListingsAgree(deliveries: map<int, Delivery>, problems: map<int, Problem>, id: int)
    requires id in deliveries
    ensures id in WithProblems(deliveries, problems) <==> ProblemsOf(problems, id) != map[]
  {
    var of := ProblemsOf(problems, id);
    if HasProblem(problems, id) {
      var k :| k in problems && problems[k].deliveryId == id;
      assert k in of;
    } else {
      assert forall k :: k !in of;
      assert of.Keys == {};
    }
  }

  /** What `index` answers: the deliveries that have problems, or the
      problems of one delivery. */
  datatype Listing = Deliveries(deliveries: map<int, Delivery>) | Problems(problems: map<int, Problem>)

  /** `index`: without a delivery id, the deliveries with at least one
      problem; with one, the problems of that delivery, which must exist. */
  function Index(db: Db, deliveryParam: Param): (r: Result<Listing>)
    reads db
    ensures deliveryParam.Absent? ==> r.Ok? && r.value.Deliveries?
    ensures r.Ok? && r.value.Deliveries? ==> forall id | id in r.value.deliveries ::
      id in db.deliveries && r.value.deliveries[id] == db.deliveries[id] && HasProblem(db.problems, id)
    ensures r.Ok? && r.value.Deliveries? ==> forall id | id in db.deliveries && HasProblem(db.problems, id) ::
      id in r.value.deliveries
    ensures !deliveryParam.Absent? ==> (r.Ok? <==> deliveryParam.Numeric? && deliveryParam.value in db.deliveries)
    ensures !deliveryParam.Absent? && r.Err? ==> r == Err(400, UnknownDelivery)
    ensures !deliveryParam.Absent? && r.Ok? ==>
      && r.value.Problems?
      && (forall k | k in r.value.problems :: k in db.problems && r.value.problems[k] == db.problems[k]
                                              && r.value.problems[k].deliveryId == deliveryParam.value)
      && (forall k | k in db.problems && db.problems[k].deliveryId == deliveryParam.value :: k in r.value.problems)
  {
    if deliveryParam.Absent? then Ok(Deliveries(WithProblems(db.deliveries, db.problems)))
    else
      var id := FindByPk(db.deliveries, deliveryParam);
      if id.None? then Err(400, UnknownDelivery)
      else Ok(Problems(ProblemsOf(db.problems, id.value)))
  }

  /** yup's `validate` on the payload of `store`: `delivery_id` is a required
      number and `description` a required string. */
  function ValidatePayload(deliveryParam: Param, description: Field<string>): (r: Result<Problem>)
    ensures r.Ok? <==> deliveryParam.Numeric? && Present(description)
    ensures r.Ok? ==> r.value.deliveryId == deliveryParam.value && r.value.description == description.value
    ensures r.Err? ==> r.status == 400
  {
    if deliveryParam.Absent? then Err(400, DeliveryIdRequired)
    else if deliveryParam.NotNumeric? then Err(400, NotANumber)
    else if !Present(description) then Err(400, DescriptionRequired)
    else Ok(Problem(deliveryParam.value, description.value))
  }

  /** `store`: reports a problem on the delivery `deliveryParam`. */
  method Store(db: Db, deliveryParam: Param, description: Field<string>) returns (r: Result<Problem>)
    requires db.Valid()
    modifies db`problems, db`nextProblemId
    ensures db.Valid()
    ensures r == ValidatePayload(deliveryParam, description)
    ensures r.Err? ==> db.problems == old(db.problems) && db.nextProblemId == old(db.nextProblemId)
    ensures r.Ok? ==> && old(db.nextProblemId) !in old(db.problems)
                      && db.problems == old(db.problems)[old(db.nextProblemId) := r.value]
                      && db.nextProblemId == old(db.nextProblemId) + 1
  {
    r := ValidatePayload(deliveryParam, description);
    if r.Err? {
      return;
    }
    var id := db.nextProblemId;
    db.problems := db.problems[id := r.value];
    db.nextProblemId := id + 1;
  }

  /** Every check of a cancellation passes: the delivery exists and is not finished. */
  predicate MayCancel(deliveries: map<int, Delivery>, id: int) {
    id in deliveries && deliveries[id].endDate.None?
  }

  /** The deliveries table after a request to cancel `id` at `now`. A
      collected or already canceled delivery may be canceled: the second
      cancellation overwrites the first timestamp. */
  function Canceled(deliveries: map<int, Delivery>, id: int, now: Time): map<int, Delivery> {
    if MayCancel(deliveries, id)
    then deliveries[id := deliveries[id].(canceledAt := Some(now))]
    else deliveries
  }

  /** `delete`: cancels the delivery `deliveryParam` at the instant `now`. */
  method Delete(db: Db, deliveryParam: Param, now: Time) returns (r: Result<Delivery>)
    requires db.Valid()
    modifies db`deliveries
    ensures db.Valid()
    ensures r.Ok? <==> deliveryParam.Numeric? && MayCancel(old(db.deliveries), deliveryParam.value)
    ensures r.Err? ==> db.deliveries == old(db.deliveries)
    ensures deliveryParam.NotNumeric? ==> r == Err(400, NotANumber)
    ensures deliveryParam.Absent? || (deliveryParam.Numeric? && deliveryParam.value !in old(db.deliveries))
            ==> r == Err(400, UnknownDelivery)
    ensures deliveryParam.Numeric? && deliveryParam.value in old(db.deliveries)
            && old(db.deliveries)[deliveryParam.value].endDate.Some?
            ==> r == Err(400, FinishedNoCancel)
    ensures deliveryParam.Numeric? ==> db.deliveries == Canceled(old(db.deliveries), deliveryParam.value, now)
    ensures r.Ok? ==> r.value == db.deliveries[deliveryParam.value] && r.value.endDate.None?
  {
    if deliveryParam.NotNumeric? {
      return Err(400, NotANumber);
    }
    var id := FindByPk(db.deliveries, deliveryParam);
    if id.None? {
      return Err(400, UnknownDelivery);
    }
    var delivery := db.deliveries[id.value];
    if delivery.endDate.Some? {
      return Err(400, FinishedNoCancel);
    }
    var canceled := delivery.(canceledAt := Some(now));
    db.deliveries := db.deliveries[id.value := canceled];
    return Ok(canceled);
  }
}
