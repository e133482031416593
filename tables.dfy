/** The records of the database and the object that holds the tables. */
module Tables {
  import opened Common

  /** A row of `deliveries`. The two references and the product are NOT NULL;
      the signature and the three timestamps are nullable. */
  datatype Delivery = Delivery(
    recipientId: int,
    deliveryManId: int,
    product: string,
    signatureId: Option<int>,
    canceledAt: Option<Time>,
    startDate: Option<Time>,
    endDate: Option<Time>)

  /** A row of `deliverymen`. */
  datatype DeliveryMan = DeliveryMan(name: string, email: string, avatarId: Option<int>)

  /** A row of `recipients`. */
  datatype Recipient = Recipient(
    name: string,
    street: string,
    complement: Option<string>,
    addressNumber: Option<string>,
    state: string,
    city: string,
    cep: string)

  /** A row of `files`: an uploaded avatar or signature photo. */
  datatype File = File(name: string, path: string)

  /** A row of `delivery_problems`. */
  datatype Problem = Problem(deliveryId: int, description: string)

  /** The length of a Brazilian postal code, in UTF-16 code units as yup
      measures it. */
  const CepLength := 8

  /** A delivery that has been neither canceled nor finished. */
  predicate Open(d: Delivery) {
    d.canceledAt.None? && d.endDate.None?
  }

  /** No two delivery men share an email address. */
  predicate EmailsUnique(men: map<int, DeliveryMan>) {
    forall a, b | a in men && b in men && men[a].email == men[b].email :: a == b
  }

  /** Every stored postal code has a JavaScript length of eight. */
  predicate CepsWellFormed(recipients: map<int, Recipient>) {
    forall k | k in recipients :: Utf16Length(recipients[k].cep) == CepLength
  }

  /** Every key of an auto-increment table is positive and below the next key. */
  predicate KeysBelow<T>(table: map<int, T>, next: int) {
    0 < next && forall k | k in table :: 0 < k < next
  }

  /** The database: one map per table, and the next auto-increment key of each. */
  class Db {
    var deliveries: map<int, Delivery>
    var deliveryMen: map<int, DeliveryMan>
    var recipients: map<int, Recipient>
    var files: map<int, File>
    var problems: map<int, Problem>
    var nextDeliveryId: int
    var nextDeliveryManId: int
    var nextRecipientId: int
    var nextFileId: int
    var nextProblemId: int

    ghost predicate Valid()
      reads this
    {
      && KeysBelow(deliveries, nextDeliveryId)
      && KeysBelow(deliveryMen, nextDeliveryManId)
      && KeysBelow(recipients, nextRecipientId)
      && KeysBelow(files, nextFileId)
      && KeysBelow(problems, nextProblemId)
      && EmailsUnique(deliveryMen)
      && CepsWellFormed(recipients)
    }

    constructor ()
      ensures Valid()
      ensures deliveries == map[] && deliveryMen == map[] && recipients == map[]
      ensures files == map[] && problems == map[]
    {
      deliveries, deliveryMen, recipients, files, problems := map[], map[], map[], map[], map[];
      nextDeliveryId, nextDeliveryManId, nextRecipientId, nextFileId, nextProblemId := 1, 1, 1, 1, 1;
    }
  }
}
