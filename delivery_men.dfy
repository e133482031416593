/** The delivery-men table: listing, registering, editing and removing
    delivery men, with no two of them sharing an email address. Whether a
    text is an email address is yup's own test, given here as `isEmail`. */
module DeliveryMen {
  import opened Common
  import opened Tables

  const NameRequired := "The name field is required."
  const EmailRequired := "The email field is required."
  const EmailInvalid := "The provided email is not valid."
  const EmailTaken := "There is already a delivery man with this email address."
  const UnknownAvatar := "The avatar does not exist."
  const NotFound := "Delivery man not found."
  const NoId := "Delivery man ID not provided."
  const UnknownDeliveryMan := "Delivery man with the requested id does not exist."
  const EmailLookupFails := "The lookup by an undefined email fails."
  const AvatarNotANumber := "The database refuses an avatar_id that is not a number."
  const Deleted := "The delivery man has been deleted."

  /** The request body of `store` and `update`. */
  datatype DeliveryManBody = DeliveryManBody(name: Field<string>, email: Field<string>, avatarId: Param)

  /** Some delivery man other than `except` has the address `email`
      (`DeliveryMan.findOne({ where: { email } })` finds a row, and it is not
      `except`). */
  predicate EmailUsedByOther(men: map<int, DeliveryMan>, email: string, except: Option<int>) {
    exists k | k in men :: men[k].email == email && Some(k) != except
  }

  /** yup's `validate` on the body of `store`: `name` and `email` are
      required strings, `email` must be an address, and `avatar_id`, when
      given, a number. */
  function ValidateStore(body: DeliveryManBody, isEmail: string -> bool): (r: Outcome)
    ensures r.Pass? <==> Present(body.name) && Present(body.email) && isEmail(body.email.value)
                         && !body.avatarId.NotNumeric?
    ensures r.Fail? ==> r.status == 400
  {
    if !Present(body.name) then Fail(400, NameRequired)
    else if !Present(body.email) then Fail(400, EmailRequired)
    else if !isEmail(body.email.value) then Fail(400, EmailInvalid)
    else if body.avatarId.NotNumeric? then Fail(400, NotANumber)
    else Pass
  }

  /** yup's `validate` in `update`: `id` is a number and `email`, when given
      and not empty, an address. yup's address test lets the empty string
      through, and this schema does not require the key. */
  function ValidateUpdate(id: Param, email: Field<string>, isEmail: string -> bool): (r: Outcome)
    ensures r.Pass? <==> !id.NotNumeric? && (Present(email) ==> isEmail(email.value))
    ensures email == Given("") ==> (r.Pass? <==> !id.NotNumeric?)
    ensures r.Fail? ==> r.status == 400
  {
    if id.NotNumeric? then Fail(400, NotANumber)
    else if Present(email) && !isEmail(email.value) then Fail(400, EmailInvalid)
    else Pass
  }

  /** The ORM's `instance.update(body)` on a delivery man, for a body whose
      avatar is absent or a number. */
  function Merge(m: DeliveryMan, body: DeliveryManBody): DeliveryMan
    requires !body.avatarId.NotNumeric?
  {
    DeliveryMan(Pick(body.name, m.name), Pick(body.email, m.email),
                if body.avatarId.Numeric? then Some(body.avatarId.value) else m.avatarId)
  }

  /** Adding a delivery man whose address nobody has keeps addresses unique. */
  lemma InsertKeepsEmailsUnique(men: map<int, DeliveryMan>, id: int, m: DeliveryMan)
    requires EmailsUnique(men) && id !in men
    requires !EmailUsedByOther(men, m.email, None)
    ensures EmailsUnique(men[id := m])
  {
  }

  /** Giving a delivery man an address no other man has keeps addresses unique. */
  lemma RenameKeepsEmailsUnique(men: map<int, DeliveryMan>, id: int, m: DeliveryMan)
    requires EmailsUnique(men) && id in men
    requires !EmailUsedByOther(men, m.email, Some(id))
    ensures EmailsUnique(men[id := m])
  {
  }

  /** What `index` answers: every delivery man, or the one asked for. */
  datatype Listing = All(men: map<int, DeliveryMan>) | One(man: DeliveryMan)

  /** `index`: without `id`, every delivery man; with `id`, that one, which must exist. */
  function Index(db: Db, id: Param): (r: Result<Listing>)
    reads db
    ensures id.Absent? ==> r == Ok(All(db.deliveryMen))
    ensures !id.Absent? ==> (r.Ok? <==> id.Numeric? && id.value in db.deliveryMen)
    ensures !id.Absent? && r.Ok? ==> r.value == One(db.deliveryMen[id.value])
    ensures r.Err? ==> r == Err(400, NotFound)
  {
    if id.Absent? then Ok(All(db.deliveryMen))
    else
      var key := FindByPk(db.deliveryMen, id);
      if key.None? then Err(400, NotFound) else Ok(One(db.deliveryMen[key.value]))
  }

  /** `store`: registers a delivery man with an unused address and an existing avatar. */
  method Store(db: Db, body: DeliveryManBody, isEmail: string -> bool) returns (r: Result<DeliveryMan>)
    requires db.Valid()
    modifies db`deliveryMen, db`nextDeliveryManId
    ensures db.Valid()
    ensures r.Ok? <==> && ValidateStore(body, isEmail).Pass?
                       && !EmailUsedByOther(old(db.deliveryMen), body.email.value, None)
                       && body.avatarId.Numeric? && body.avatarId.value in db.files
    ensures ValidateStore(body, isEmail).Fail? ==> r == Err(400, ValidateStore(body, isEmail).message)
    ensures ValidateStore(body, isEmail).Pass? && EmailUsedByOther(old(db.deliveryMen), body.email.value, None)
            ==> r == Err(400, EmailTaken)
    ensures r.Err? ==> r.status == 400 && db.deliveryMen == old(db.deliveryMen)
                       && db.nextDeliveryManId == old(db.nextDeliveryManId)
    ensures r.Ok? ==> && r.value == DeliveryMan(body.name.value, body.email.value, Some(body.avatarId.value))
                      && old(db.nextDeliveryManId) !in old(db.deliveryMen)
                      && db.deliveryMen == old(db.deliveryMen)[old(db.nextDeliveryManId) := r.value]
                      && db.nextDeliveryManId == old(db.nextDeliveryManId) + 1
  {
    var valid := ValidateStore(body, isEmail);
    if valid.Fail? {
      return Err(400, valid.message);
    }
    if EmailUsedByOther(db.deliveryMen, body.email.value, None) {
      return Err(400, EmailTaken);
    }
    var avatar := FindByPk(db.files, body.avatarId);
    if avatar.None? {
      return Err(400, UnknownAvatar);
    }
    var man := DeliveryMan(body.name.value, body.email.value, Some(avatar.value));
    var id := db.nextDeliveryManId;
    InsertKeepsEmailsUnique(db.deliveryMen, id, man);
    db.deliveryMen := db.deliveryMen[id := man];
    db.nextDeliveryManId := id + 1;
    return Ok(man);
  }

  /** `update`: merges the body into the delivery man `id`, unless the body's
      address belongs to another delivery man. The lookup by address runs
      with whatever the body holds, so a body without `email` makes it fail. */
  method Update(db: Db, id: Param, body: DeliveryManBody, isEmail: string -> bool) returns (r: Result<DeliveryMan>)
    requires db.Valid()
    modifies db`deliveryMen
    ensures db.Valid()
    ensures r.Ok? <==> && id.Numeric? && ValidateUpdate(id, body.email, isEmail).Pass?
                       && id.value in old(db.deliveryMen)
                       && body.email.Given? && !EmailUsedByOther(old(db.deliveryMen), body.email.value, Some(id.value))
                       && !body.avatarId.NotNumeric?
    ensures r.Err? ==> db.deliveryMen == old(db.deliveryMen)
    ensures id.Absent? ==> r == Err(400, NoId)
    ensures !id.Absent? && ValidateUpdate(id, body.email, isEmail).Fail?
            ==> r == Err(400, ValidateUpdate(id, body.email, isEmail).message)
    ensures id.Numeric? && ValidateUpdate(id, body.email, isEmail).Pass? && id.value !in old(db.deliveryMen)
            ==> r == Err(400, UnknownDeliveryMan)
    ensures id.Numeric? && ValidateUpdate(id, body.email, isEmail).Pass? && id.value in old(db.deliveryMen)
            && body.email.Given? && EmailUsedByOther(old(db.deliveryMen), body.email.value, Some(id.value))
            ==> r == Err(400, EmailTaken)
    ensures r.Ok? ==> && db.deliveryMen == old(db.deliveryMen)[id.value := Merge(old(db.deliveryMen)[id.value], body)]
                      && r.value == db.deliveryMen[id.value]
  {
    if id.Absent? {
      return Err(400, NoId);
    }
    var valid := ValidateUpdate(id, body.email, isEmail);
    if valid.Fail? {
      return Err(400, valid.message);
    }
    var key := FindByPk(db.deliveryMen, id);
    if key.None? {
      return Err(400, UnknownDeliveryMan);
    }
    if body.email.Omitted? {
      return Err(500, EmailLookupFails);
    }
    if EmailUsedByOther(db.deliveryMen, body.email.value, key) {
      return Err(400, EmailTaken);
    }
    if body.avatarId.NotNumeric? {
      return Err(500, AvatarNotANumber);
    }
    var merged := Merge(db.deliveryMen[key.value], body);
    RenameKeepsEmailsUnique(db.deliveryMen, key.value, merged);
    db.deliveryMen := db.deliveryMen[key.value := merged];
    return Ok(merged);
  }

  /** `delete`: removes the delivery man `id`. */
  method Delete(db: Db, id: Param) returns (r: Result<string>)
    requires db.Valid()
    modifies db`deliveryMen
    ensures db.Valid()
    ensures r.Ok? <==> id.Numeric? && id.value in old(db.deliveryMen)
    ensures r.Ok? ==> r == Ok(Deleted) && db.deliveryMen == old(db.deliveryMen) - {id.value}
    ensures r.Err? ==> r.status == 400 && db.deliveryMen == old(db.deliveryMen)
    ensures id.Absent? ==> r == Err(400, NoId)
    ensures id.NotNumeric? ==> r == Err(400, NotANumber)
    ensures id.Numeric? && id.value !in old(db.deliveryMen) ==> r == Err(400, UnknownDeliveryMan)
  {
    if id.Absent? {
      return Err(400, NoId);
    }
    if id.NotNumeric? {
      return Err(400, NotANumber);
    }
    var key := FindByPk(db.deliveryMen, id);
    if key.None? {
      return Err(400, UnknownDeliveryMan);
    }
    db.deliveryMen := db.deliveryMen - {key.value};
    return Ok(Deleted);
  }
}
