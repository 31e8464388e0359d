/** The records shared by the serialiser, the processing state machine and the
    upload component: a transaction, the four processing statuses, and the
    processing state that the application replaces wholesale. */
module Types {

  /** An optional value, for the fields the source declares with `?` and for
      `string | null`. */
  datatype Option<+T> = None | Some(value: T)

  /** A transaction amount. The source stores a JavaScript number; the model
      keeps it as an exact real and never does float arithmetic on it. */
  type Amount = real

  /** One extracted line item. `date`, `description`, `amount` and `category`
      are always present; `notes` may be absent. */
  datatype Transaction = Transaction(
    date: string,
    description: string,
    amount: Amount,
    category: string,
    notes: Option<string>)

  /** The four phases of the single processing operation. */
  datatype ProcessingStatus = Idle | Processing | Success | Error

  /** The value the application holds: a status, the transactions (possibly
      none), and an optional user-facing error message. */
  datatype ProcessingState = ProcessingState(
    status: ProcessingStatus,
    data: seq<Transaction>,
    error: Option<string>)

  /** The string value each enum member carries in the source. */
  function StatusValue(s: ProcessingStatus): (r: string)
  {
    match s
    case Idle => "IDLE"
    case Processing => "PROCESSING"
    case Success => "SUCCESS"
    case Error => "ERROR"
  }

  /** Exactly four values: any status is one of the four constructors, and
      distinct statuses carry distinct strings. */
  lemma StatusValueInjective(s: ProcessingStatus, t: ProcessingStatus)
    ensures StatusValue(s) == StatusValue(t) <==> s == t
    ensures s == Idle || s == Processing || s == Success || s == Error
  {
  }
}
