/** The delivery man's side of the lifecycle: listing his deliveries, and the
    two transitions he may request, collecting a package and finishing a
    delivery with the recipient's signature. */
module DeliveryHandling {
  import opened Common
  import opened Tables

  /** The most packages one delivery man may collect on one day. */
  const DailyLimit := 5

  const MsPerDay := 86_400_000

  const Collect := "collect"
  const Finish := "finish"

  const BadAction := "Action must be 'collect' or 'finish'."
  const NoSuchDeliveryMan := "There is no delivery man with the requested id."
  const NoSuchDelivery := "There is no delivery with the requested id."
  const NotAssigned := "The delivery is not assigned to the delivery man."
  const Closed := "The delivery has been canceled or finished, and can't be edited."
  const AlreadyCollected := "The package has already been collected."
  const DailyLimitReached := "You have already collected the daily limit of packages."
  const NotCollected := "Can't set the delivery as finished, because the package was not collected yet."
  const EndBeforeStart := "The delivery end date can't be lower than the start date."
  const NoSignature := "The recipient signature photo must be provided."
  const UnknownDeliveryMan := "The delivery man does not exist."

  /** The first millisecond of the day that contains `t`. */
  function StartOfDay(t: Time): Time {
    t - t % MsPerDay
  }

  /** The last millisecond of the day that contains `t`. */
  function EndOfDay(t: Time): Time {
    StartOfDay(t) + MsPerDay - 1
  }

  /** The window `[StartOfDay(now), EndOfDay(now)]` of the pickup query holds
      exactly the instants of the same day as `now`. */
  lemma SameDayWindow(t: Time, now: Time)
    ensures StartOfDay(now) <= t <= EndOfDay(now) <==> StartOfDay(t) == StartOfDay(now)
  {
  }

  /** The deliveries of `man` whose start date lies between the start and the
      end of the day of `now`, canceled and finished ones included. */
  function Pickups(deliveries: map<int, Delivery>, man: int, now: Time): set<int> {
    set id | id in deliveries && deliveries[id].deliveryManId == man
                && deliveries[id].startDate.Some?
                && StartOfDay(now) <= deliveries[id].startDate.value <= EndOfDay(now)
  }

  /** Two instants of the same day see the same pickups. */
  lemma PickupsOfSameDay(deliveries: map<int, Delivery>, man: int, t: Time, u: Time)
    requires StartOfDay(t) == StartOfDay(u)
    ensures Pickups(deliveries, man, t) == Pickups(deliveries, man, u)
  {
    assert EndOfDay(t) == EndOfDay(u);
    forall id ensures id in Pickups(deliveries, man, t) <==> id in Pickups(deliveries, man, u) {
    }
  }

  /** Setting the start date of one uncollected delivery of `man` to `now`
      adds that delivery to his pickups of the day of `now`, and changes no
      other pickup set. */
  lemma PickupsAfterStart(deliveries: map<int, Delivery>, man: int, id: int, now: Time, other: int, t: Time)
    requires id in deliveries && deliveries[id].deliveryManId == man && deliveries[id].startDate.None?
    ensures var after := deliveries[id := deliveries[id].(startDate := Some(now))];
      && id !in Pickups(deliveries, other, t)
      && Pickups(after, other, t)
         == if other == man && StartOfDay(now) == StartOfDay(t)
            then Pickups(deliveries, other, t) + {id}
            else Pickups(deliveries, other, t)
  {
  }

  /** The delivery `id` exists, belongs to the delivery man `man`, who exists,
      and is neither canceled nor finished: the checks both actions share. */
  predicate Handleable(deliveries: map<int, Delivery>, men: map<int, DeliveryMan>, man: int, id: int) {
    man in men && id in deliveries && deliveries[id].deliveryManId == man && Open(deliveries[id])
  }

  /** Every check of a collect passes. */
  predicate MayCollect(deliveries: map<int, Delivery>, men: map<int, DeliveryMan>, man: int, id: int, now: Time) {
    && Handleable(deliveries, men, man, id)
    && deliveries[id].startDate.None?
    && |Pickups(deliveries, man, now)| < DailyLimit
  }

  /** The deliveries table after `man` asks to collect `id` at `now`. */
  function Collected(deliveries: map<int, Delivery>, men: map<int, DeliveryMan>, man: int, id: int, now: Time): map<int, Delivery> {
    if MayCollect(deliveries, men, man, id, now)
    then deliveries[id := deliveries[id].(startDate := Some(now))]
    else deliveries
  }

  /** Every check of a finish passes; `signed` says a signature photo came with the request. */
  predicate MayFinish(deliveries: map<int, Delivery>, men: map<int, DeliveryMan>, man: int, id: int, now: Time, signed: bool) {
    && Handleable(deliveries, men, man, id)
    && deliveries[id].startDate.Some?
    && deliveries[id].startDate.value <= now
    && signed
  }

  /** The deliveries table after `man` asks to finish `id` at `now`, where
      `signature` is the key of the stored signature photo, if one came. */
  function Finished(deliveries: map<int, Delivery>, men: map<int, DeliveryMan>, man: int, id: int, now: Time, signature: Option<int>): map<int, Delivery> {
    if MayFinish(deliveries, men, man, id, now, signature.Some?)
    then deliveries[id := deliveries[id].(endDate := Some(now), signatureId := signature)]
    else deliveries
  }

  /** A successful collect leaves the delivery man within the daily limit. */
  lemma CollectStaysWithinLimit(deliveries: map<int, Delivery>, men: map<int, DeliveryMan>, man: int, id: int, now: Time)
    requires MayCollect(deliveries, men, man, id, now)
    ensures |Pickups(Collected(deliveries, men, man, id, now), man, now)| == |Pickups(deliveries, man, now)| + 1 <= DailyLimit
  {
    PickupsAfterStart(deliveries, man, id, now, man, now);
  }

  /** The deliveries of one man that `index` lists: the finished ones when
      `delivered` is the number 1, otherwise those neither canceled nor finished. */
  function Listing(deliveries: map<int, Delivery>, man: int, delivered: Param): map<int, Delivery> {
    map id | id in deliveries && deliveries[id].deliveryManId == man
               && (if delivered == Numeric(1) then deliveries[id].endDate.Some? else Open(deliveries[id]))
      :: deliveries[id]
  }

  /** The two listings never share a delivery, and between them they hold
      every delivery of the man except those canceled and not finished. */
  lemma ListingsPartition(deliveries: map<int, Delivery>, man: int, other: Param)
    requires other != Numeric(1)
    ensures Listing(deliveries, man, Numeric(1)).Keys !! Listing(deliveries, man, other).Keys
    ensures forall id | id in deliveries && deliveries[id].deliveryManId == man ::
              (id in Listing(deliveries, man, Numeric(1)) || id in Listing(deliveries, man, other))
              <==> !(deliveries[id].canceledAt.Some? && deliveries[id].endDate.None?)
  {
    forall id | id in Listing(deliveries, man, Numeric(1)).Keys
      ensures id !in Listing(deliveries, man, other).Keys
    {
      assert deliveries[id].endDate.Some?;
    }
  }

  /** `index`: the deliveries of the delivery man `manParam`, filtered by the
      `delivered` query parameter. */
  function Index(db: Db, manParam: Param, delivered: Param): (r: Result<map<int, Delivery>>)
    reads db
    ensures r.Err? <==> !(manParam.Numeric? && manParam.value in db.deliveryMen)
    ensures r.Err? ==> r == Err(400, UnknownDeliveryMan)
    ensures r.Ok? ==> forall id | id in r.value ::
      id in db.deliveries && r.value[id] == db.deliveries[id] && r.value[id].deliveryManId == manParam.value
    ensures r.Ok? && delivered == Numeric(1) ==> forall id | id in r.value :: r.value[id].endDate.Some?
    ensures r.Ok? && delivered != Numeric(1) ==> forall id | id in r.value :: Open(r.value[id])
    ensures r.Ok? ==> forall id | id in db.deliveries && db.deliveries[id].deliveryManId == manParam.value ::
      id in r.value || (if delivered == Numeric(1) then db.deliveries[id].endDate.None? else !Open(db.deliveries[id]))
  {
    var man := FindByPk(db.deliveryMen, manParam);
    if man.None? then Err(400, UnknownDeliveryMan)
    else Ok(Listing(db.deliveries, man.value, delivered))
  }

  /** `update`: the delivery man `manParam` asks to `collect` or to `finish`
      the delivery `deliveryParam` at the instant `now`; `upload` is the
      signature photo sent with the request, if any. */
  method Update(db: Db, manParam: Param, deliveryParam: Param, action: string, now: Time, upload: Option<File>)
    returns (r: Result<Delivery>)
    requires db.Valid()
    modifies db`deliveries, db`files, db`nextFileId
    ensures db.Valid()
    // Refusals change nothing.
    ensures r.Err? ==> db.deliveries == old(db.deliveries) && db.files == old(db.files) && db.nextFileId == old(db.nextFileId)
    // Checks made before any lookup.
    ensures manParam.NotNumeric? || deliveryParam.NotNumeric? ==> r == Err(400, NotANumber)
    ensures !manParam.NotNumeric? && !deliveryParam.NotNumeric? && action != Collect && action != Finish
            ==> r == Err(400, BadAction)
    ensures r.Ok? ==> manParam.Numeric? && deliveryParam.Numeric? && (action == Collect || action == Finish)
    ensures manParam.Numeric? && deliveryParam.Numeric? && (action == Collect || action == Finish)
            && !Handleable(old(db.deliveries), db.deliveryMen, manParam.value, deliveryParam.value)
            ==> r.Err? && r.status == 400
    // Collect.
    ensures manParam.Numeric? && deliveryParam.Numeric? && action == Collect ==>
      var man, id := manParam.value, deliveryParam.value;
      && (r.Ok? <==> MayCollect(old(db.deliveries), db.deliveryMen, man, id, now))
      && db.deliveries == Collected(old(db.deliveries), db.deliveryMen, man, id, now)
      && db.files == old(db.files) && db.nextFileId == old(db.nextFileId)
      && (Handleable(old(db.deliveries), db.deliveryMen, man, id) && old(db.deliveries)[id].startDate.Some?
          ==> r == Err(400, AlreadyCollected))
      && (Handleable(old(db.deliveries), db.deliveryMen, man, id) && old(db.deliveries)[id].startDate.None?
          && |Pickups(old(db.deliveries), man, now)| >= DailyLimit
          ==> r == Err(401, DailyLimitReached))
      && (r.Ok? ==> r.value == db.deliveries[id] && |Pickups(db.deliveries, man, now)| <= DailyLimit)
    // Finish.
    ensures manParam.Numeric? && deliveryParam.Numeric? && action == Finish ==>
      var man, id := manParam.value, deliveryParam.value;
      && (r.Ok? <==> MayFinish(old(db.deliveries), db.deliveryMen, man, id, now, upload.Some?))
      && (r.Ok? ==> && db.files == old(db.files)[old(db.nextFileId) := upload.value]
                    && db.nextFileId == old(db.nextFileId) + 1
                    && db.deliveries == Finished(old(db.deliveries), db.deliveryMen, man, id, now, Some(old(db.nextFileId)))
                    && r.value == db.deliveries[id])
      && (Handleable(old(db.deliveries), db.deliveryMen, man, id) && old(db.deliveries)[id].startDate.None?
          ==> r == Err(401, NotCollected))
      && (Handleable(old(db.deliveries), db.deliveryMen, man, id) && old(db.deliveries)[id].startDate.Some?
          && now < old(db.deliveries)[id].startDate.value
          ==> r == Err(401, EndBeforeStart))
      && (Handleable(old(db.deliveries), db.deliveryMen, man, id) && old(db.deliveries)[id].startDate.Some?
          && old(db.deliveries)[id].startDate.value <= now && upload.None?
          ==> r == Err(400, NoSignature))
  {
    if manParam.NotNumeric? || deliveryParam.NotNumeric? {
      return Err(400, NotANumber);
    }
    if action != Collect && action != Finish {
      return Err(400, BadAction);
    }
    var man := FindByPk(db.deliveryMen, manParam);
    if man.None? {
      return Err(400, NoSuchDeliveryMan);
    }
    var id := FindByPk(db.deliveries, deliveryParam);
    if id.None? {
      return Err(400, NoSuchDelivery);
    }
    var delivery := db.deliveries[id.value];
    if delivery.deliveryManId != man.value {
      return Err(400, NotAssigned);
    }
    if delivery.canceledAt.Some? || delivery.endDate.Some? {
      return Err(400, Closed);
    }

    if action == Collect {
      if delivery.startDate.Some? {
        return Err(400, AlreadyCollected);
      }
      var todays := Pickups(db.deliveries, man.value, now);
      if |todays| >= DailyLimit {
        return Err(401, DailyLimitReached);
      }
      CollectStaysWithinLimit(db.deliveries, db.deliveryMen, man.value, id.value, now);
      var collected := delivery.(startDate := Some(now));
      db.deliveries := db.deliveries[id.value := collected];
      return Ok(collected);
    }

    if delivery.startDate.None? {
      return Err(401, NotCollected);
    }
    if now < delivery.startDate.value {
      return Err(401, EndBeforeStart);
    }
    if upload.None? {
      return Err(400, NoSignature);
    }
    var fileId := db.nextFileId;
    db.files := db.files[fileId := upload.value];
    db.nextFileId := db.nextFileId + 1;
    var finished := delivery.(endDate := Some(now), signatureId := Some(fileId));
    db.deliveries := db.deliveries[id.value := finished];
    return Ok(finished);
  }
}
