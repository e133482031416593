/** The recipients table: listing, registering and editing recipients.
    Every stored postal code (`cep`) has a JavaScript length of eight. */
module Recipients {
  import opened Common
  import opened Tables

  const NameRequired := "The name field is required."
  const FieldRequired := "The x field is required."
  const CepLengthWrong := "The cep field must have 8 characters."
  const NotFound := "Recipient not found."
  const NoId := "Recipient ID not provided."
  const UnknownRecipient := "Recipient with the requested id does not exist."

  /** The request body of `store` and `update`. `addressNumber` is the key
      the schema checks and `store` copies into the `address_number` column;
      `address_number` is the column's own key, which `update` merges; no
      schema checks it, so it may also be null. */
  datatype RecipientBody = RecipientBody(
    name: Field<string>,
    street: Field<string>,
    addressNumber: Field<string>,
    address_number: Field<Option<string>>,
    complement: Field<string>,
    city: Field<string>,
    state: Field<string>,
    cep: Field<string>)

  /** yup's `validate` on the body of `store`: name, street, city, state and
      cep are required, and cep has a JavaScript length of eight. */
  function ValidateStore(body: RecipientBody): (r: Outcome)
    ensures r.Pass? <==> && Present(body.name) && Present(body.street) && Present(body.city)
                         && Present(body.state) && Present(body.cep) && Utf16Length(body.cep.value) == CepLength
    ensures r.Fail? ==> r.status == 400
  {
    if !Present(body.name) then Fail(400, NameRequired)
    else if !Present(body.street) then Fail(400, FieldRequired)
    else if !Present(body.city) then Fail(400, FieldRequired)
    else if !Present(body.state) then Fail(400, FieldRequired)
    else if !Present(body.cep) then Fail(400, FieldRequired)
    else if Utf16Length(body.cep.value) != CepLength then Fail(400, CepLengthWrong)
    else Pass
  }

  /** yup's `validate` on the body of `update`: every key is optional, and a
      given cep has a JavaScript length of eight. */
  function ValidateUpdate(body: RecipientBody): (r: Outcome)
    ensures r.Pass? <==> (body.cep.Given? ==> Utf16Length(body.cep.value) == CepLength)
    ensures r.Fail? ==> r == Fail(400, CepLengthWrong)
  {
    if body.cep.Given? && Utf16Length(body.cep.value) != CepLength then Fail(400, CepLengthWrong) else Pass
  }

  /** The cep rule counts UTF-16 code units, not characters: four characters
      outside the Basic Multilingual Plane make a valid cep, and seven digits
      followed by one such character do not. */
  lemma CepLengthCountsCodeUnits(body: RecipientBody)
    requires Present(body.name) && Present(body.street) && Present(body.city) && Present(body.state)
    ensures ValidateStore(body.(cep := Given("\U{1F600}\U{1F600}\U{1F600}\U{1F600}"))).Pass?
    ensures ValidateStore(body.(cep := Given("1234567\U{1F600}"))) == Fail(400, CepLengthWrong)
  {
  }

  /** The row `store` inserts: the body's columns, with `address_number`
      taken from the body's `addressNumber`. */
  function Created(body: RecipientBody): Recipient
    requires ValidateStore(body).Pass?
  {
    Recipient(body.name.value, body.street.value, OrNull(body.complement), OrNull(body.addressNumber),
              body.state.value, body.city.value, body.cep.value)
  }

  /** The ORM's `instance.update(body)` on a recipient. */
  function Merge(rec: Recipient, body: RecipientBody): Recipient {
    Recipient(Pick(body.name, rec.name), Pick(body.street, rec.street),
              if body.complement.Given? then Some(body.complement.value) else rec.complement,
              if body.address_number.Given? then body.address_number.value else rec.addressNumber,
              Pick(body.state, rec.state), Pick(body.city, rec.city), Pick(body.cep, rec.cep))
  }

  /** A recipient that passed `store`'s checks, or one merged with a body that
      passed `update`'s, has a postal code of JavaScript length eight. */
  lemma CepStaysWellFormed(body: RecipientBody, rec: Recipient)
    ensures ValidateStore(body).Pass? ==> Utf16Length(Created(body).cep) == CepLength
    ensures ValidateUpdate(body).Pass? && Utf16Length(rec.cep) == CepLength ==> Utf16Length(Merge(rec, body).cep) == CepLength
  {
  }

  /** What `index` answers: every recipient, or the one asked for. */
  datatype Listing = All(recipients: map<int, Recipient>) | One(recipient: Recipient)

  /** `index`: without `id`, every recipient; with `id`, that one, which must exist. */
  function Index(db: Db, id: Param): (r: Result<Listing>)
    reads db
    ensures id.Absent? ==> r == Ok(All(db.recipients))
    ensures !id.Absent? ==> (r.Ok? <==> id.Numeric? && id.value in db.recipients)
    ensures !id.Absent? && r.Ok? ==> r.value == One(db.recipients[id.value])
    ensures r.Err? ==> r == Err(400, NotFound)
  {
    if id.Absent? then Ok(All(db.recipients))
    else
      var key := FindByPk(db.recipients, id);
      if key.None? then Err(400, NotFound) else Ok(One(db.recipients[key.value]))
  }

  /** `store`: registers a recipient whose body passes the schema. */
  method Store(db: Db, body: RecipientBody) returns (r: Result<Recipient>)
    requires db.Valid()
    modifies db`recipients, db`nextRecipientId
    ensures db.Valid()
    ensures r.Ok? <==> ValidateStore(body).Pass?
    ensures r.Err? ==> && r == Err(400, ValidateStore(body).message)
                       && db.recipients == old(db.recipients) && db.nextRecipientId == old(db.nextRecipientId)
    ensures r.Ok? ==> && r.value == Created(body)
                      && r.value.addressNumber == OrNull(body.addressNumber)
                      && old(db.nextRecipientId) !in old(db.recipients)
                      && db.recipients == old(db.recipients)[old(db.nextRecipientId) := r.value]
                      && db.nextRecipientId == old(db.nextRecipientId) + 1
  {
    var valid := ValidateStore(body);
    if valid.Fail? {
      return Err(400, valid.message);
    }
    var recipient := Created(body);
    var id := db.nextRecipientId;
    db.recipients := db.recipients[id := recipient];
    db.nextRecipientId := id + 1;
    return Ok(recipient);
  }

  /** `update`: merges the body into the recipient `id`. */
  method Update(db: Db, id: Param, body: RecipientBody) returns (r: Result<Recipient>)
    requires db.Valid()
    modifies db`recipients
    ensures db.Valid()
    ensures r.Ok? <==> id.Numeric? && ValidateUpdate(body).Pass? && id.value in old(db.recipients)
    ensures r.Err? ==> r.status == 400 && db.recipients == old(db.recipients)
    ensures id.Absent? ==> r == Err(400, NoId)
    ensures !id.Absent? && ValidateUpdate(body).Fail? ==> r == Err(400, CepLengthWrong)
    ensures ValidateUpdate(body).Pass? && !(id.Numeric? && id.value in old(db.recipients)) && !id.Absent?
            ==> r == Err(400, UnknownRecipient)
    ensures r.Ok? ==> && db.recipients == old(db.recipients)[id.value := Merge(old(db.recipients)[id.value], body)]
                      && r.value == db.recipients[id.value]
  {
    if id.Absent? {
      return Err(400, NoId);
    }
    var valid := ValidateUpdate(body);
    if valid.Fail? {
      return Err(400, valid.message);
    }
    var key := FindByPk(db.recipients, id);
    if key.None? {
      return Err(400, UnknownRecipient);
    }
    var merged := Merge(db.recipients[key.value], body);
    CepStaysWellFormed(body, db.recipients[key.value]);
    db.recipients := db.recipients[key.value := merged];
    return Ok(merged);
  }
}
