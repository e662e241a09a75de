/**
 * Shared vocabulary of the forensics engine: accounts, transaction records,
 * rings, detected-pattern labels and suspicious-account entries.
 */
module Types {

  /** Account ids are the string form of the sender/receiver columns. */
  type Account = string

  /** Timestamps are whole seconds on one absolute clock. */
  type Timestamp = int

  /** Ring ids are the ring counter's values; the textual form is `RING_%03d`. */
  type RingId = nat

  /** The 72-hour window of the temporal-concentration test, in seconds. */
  const Window: int := 72 * 3600

  datatype Option<T> = None | Some(value: T)

  /** One already-validated transaction record (the transaction id is not used). */
  datatype Record = Record(sender: Account, receiver: Account, amount: real, timestamp: Timestamp)

  datatype PatternType = Cycle | Smurfing | Layering

  /** A candidate or surviving fraud ring. */
  datatype Ring = Ring(id: RingId, members: seq<Account>, pattern: PatternType, risk: real)

  /** Detected-pattern labels; `CycleLength(n)` is the label `cycle_length_{n}`. */
  datatype Label =
    | CycleLength(n: nat)
    | FanIn
    | FanOut
    | HighVelocity
    | ShellIntermediate
    | ShellEndpoint

  /** A suspicious-account entry: accumulated score, labels in insertion order, ring id. */
  datatype Entry = Entry(account: Account, score: real, patterns: seq<Label>, ringId: RingId)

  function Min(a: real, b: real): (r: real)
    ensures r <= a && r <= b && (r == a || r == b)
  {
    if a <= b then a else b
  }

  /** The accounts of a sequence, as a set. */
  function Elems(s: seq<Account>): (r: set<Account>)
    ensures forall x :: x in r <==> x in s
  {
    set x | x in s
  }

  predicate Distinct<T(==)>(s: seq<T>)
  {
    forall i, j :: 0 <= i < j < |s| ==> s[i] != s[j]
  }
}
