/** Values every controller shares: optional values, responses, and the
    shapes in which request parameters and JSON bodies reach a controller. */
module Common {

  datatype Option<+T> = None | Some(value: T)

  /** What a controller answers: a record (sent as JSON with status 200), or
      an HTTP error status with the message of the `error` field. */
  datatype Result<+T> = Ok(value: T) | Err(status: int, message: string)

  /** The answer of a validation step that produces no value. */
  datatype Outcome = Pass | Fail(status: int, message: string)

  /** A route or query parameter, or a body value, that a controller reads as
      a number. `Absent` stands for a missing key and for the empty string:
      both are falsy, so `!id` holds exactly for them. `NotNumeric` is a
      non-empty text that yup's `number()` cannot cast. */
  datatype Param = Absent | Numeric(value: int) | NotNumeric

  /** A key of a JSON request body: left out, or given with a value. */
  datatype Field<+T> = Omitted | Given(value: T)

  /** A timestamp, in milliseconds since the epoch. */
  type Time = int

  /** yup's `string().required()`: the key is given and is not the empty string. */
  predicate Present(f: Field<string>) {
    f.Given? && f.value != ""
  }

  /** JavaScript's `s.length`, which yup's `string().length(n)` compares: the
      number of UTF-16 code units of `s`. A character outside the Basic
      Multilingual Plane takes two code units, every other character one. */
  function Utf16Length(s: string): (n: nat)
    ensures |s| <= n <= 2 * |s|
    ensures n == 0 <==> s == []
  {
    if s == [] then 0 else (if s[0] as int >= 0x1_0000 then 2 else 1) + Utf16Length(s[1..])
  }

  /** On text inside the Basic Multilingual Plane, JavaScript's length is the
      number of characters. */
  lemma {:induction false} Utf16LengthOfBmp(s: string)
    requires forall i | 0 <= i < |s| :: s[i] as int < 0x1_0000
    ensures Utf16Length(s) == |s|
  {
    if s != [] {
      assert forall i | 0 <= i < |s[1..]| :: s[1..][i] == s[i + 1];
      Utf16LengthOfBmp(s[1..]);
    }
  }

  /** The value a merge (`instance.update(body)`) leaves in a column. */
  function Pick<T>(f: Field<T>, current: T): T {
    match f
    case Omitted => current
    case Given(v) => v
  }

  /** The value an insert (`Model.create(body)`) stores in a nullable column. */
  function OrNull<T>(f: Field<T>): Option<T> {
    match f
    case Omitted => None
    case Given(v) => Some(v)
  }

  /** The value an insert stores in a nullable column the body may set to null. */
  function OrNullable<T>(f: Field<Option<T>>): Option<T> {
    match f
    case Omitted => None
    case Given(v) => v
  }

  /** `Model.findByPk(p)`: the key of the row that `p` designates, if any. */
  function FindByPk<T>(table: map<int, T>, p: Param): Option<int> {
    if p.Numeric? && p.value in table then Some(p.value) else None
  }

  /** The message used for every failure of yup's `validate` on a number
      field (yup's own text names the field and the value). */
  const NotANumber := "The value must be a number."
}
