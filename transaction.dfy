/*
 * The event data model shared by every transaction-logger variant:
 * an Event carries a 64-bit sequence number, a one-byte kind code,
 * a key and a value.
 */
module Transaction {

  /** Largest value of a Go `uint64`. */
  const MaxUint64: nat := 0xFFFF_FFFF_FFFF_FFFF

  /** A Go `uint64`: the type of an event's sequence number. */
  type Uint64 = n: nat | n <= MaxUint64

  /** `EventType` is declared over `byte`, so every kind code lies in 0..255. */
  type EventType = b: nat | b < 256

  /*
   * The kind codes come from an `iota` block whose first slot is blank,
   * so code 0 belongs to no kind, Delete is 1 and Put is 2.
   */
  const EventDelete: EventType := 1
  const EventPut: EventType := 2

  /** One recorded mutation of the key-value store. */
  datatype Event = Event(sequence: Uint64, eventType: EventType, key: string, value: string)

  /** The zero value of the Go struct, which a closed channel delivers. */
  const ZeroEvent: Event := Event(0, 0, "", "")

  datatype Option<T> = None | Some(value: T)

  /**
   * The errors the logger and its caller produce, one constructor per message.
   * Go's `error` is one interface type shared by every package, so one
   * datatype carries them all; the last two are raised by the service that
   * uses the logger, not by the logger itself.
   */
  datatype Error =
    | OpenFailed(cause: string)          // cannot open transaction log file
    | ParseFailed(cause: string)         // input parse error
    | OutOfSequence                      // transaction numbers out of sequence
    | ReadFailed(cause: string)          // transaction log read failure
    | WriteFailed(cause: string)         // an append to the log file failed
    | CreateFailed(cause: string)        // failed to create event logger
    | StoreFailed(cause: string)         // the key-value store refused a mutation

  /** The kind a code names, if any: the `switch` callers use on `EventType`. */
  datatype Kind = Delete | Put

  function KindOf(t: EventType): (k: Option<Kind>)
    ensures k == Some(Delete) <==> t == EventDelete
    ensures k == Some(Put) <==> t == EventPut
  {
    if t == EventDelete then Some(Delete)
    else if t == EventPut then Some(Put)
    else None
  }

  /** The code a kind is written with. */
  function Code(k: Kind): (t: EventType)
    ensures t != 0
  {
    match k
    case Delete => EventDelete
    case Put => EventPut
  }

  /** Kind codes round-trip, and the two kinds have distinct codes. */
  lemma CodeRoundTrip(k: Kind, k': Kind)
    ensures KindOf(Code(k)) == Some(k)
    ensures Code(k) == Code(k') ==> k == k'
  {
  }

  /** The blank first `iota` slot: code 0, the zero `EventType`, is neither kind. */
  lemma ZeroCodeIsNoKind()
    ensures KindOf(0) == None
    ensures KindOf(ZeroEvent.eventType) == None
  {
  }

  /** Every event's fields lie in the ranges of their Go types. */
  lemma EventFieldRanges(e: Event)
    ensures 0 <= e.sequence <= MaxUint64
    ensures 0 <= e.eventType <= 255
  {
  }
}
