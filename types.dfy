/** Values exchanged between an SNMP client session and its agent. */
module Types {

  /** Go's `int64`, the representation of `time.Duration` and of timeout seconds. */
  newtype int64 = x: int | -0x8000_0000_0000_0000 <= x < 0x8000_0000_0000_0000

  /** Go's `uint8`, used for the GetBulk counters and the version tag. */
  newtype uint8 = x: int | 0 <= x < 0x100

  /** A duration in nanoseconds, as `time.Duration`. */
  type Duration = int64

  /** The protocol version tag; 1 is SNMP v2c on the wire. */
  type SnmpVersion = uint8

  datatype Option<+T> = None | Some(value: T)

  /** The stage of one request/response exchange that failed. */
  datatype Stage = Encode | Write | Read | Decode

  /** The error values the session can report. */
  datatype SnmpError =
    | NoOidGiven              // a walk was asked to start from the empty OID
    | DialFailed              // the transport could not be opened
    | ExchangeFailed(stage: Stage)
    | NoResponses             // the agent answered with no variable bindings

  datatype Result<+T> = Ok(value: T) | Err(error: SnmpError)

  /** The BER type tag of a variable binding: `Null` for query placeholders,
      any other tag for the typed values an agent returns. */
  datatype Asn1Ber = Null | Tagged(tag: uint8)

  /** The dynamically typed value of a variable binding. The decoder reports the
      end of the agent's tree as the text value "endOfMib". */
  datatype Value = Nil | Text(text: string) | Number(n: int) | Raw(bytes: seq<bv8>)

  /** One variable binding (`SnmpPDU`). */
  datatype SnmpPdu = SnmpPdu(name: string, berType: Asn1Ber, value: Value)

  /** The operation kind of a packet. */
  datatype PduType = GetRequest | GetNextRequest | GetResponse | SetRequest | GetBulkRequest

  datatype SnmpPacket = SnmpPacket(
    version: SnmpVersion,
    community: string,
    requestType: PduType,
    error: uint8,
    errorIndex: uint8,
    nonRepeaters: uint8,
    maxRepetitions: uint8,
    variables: seq<SnmpPdu>)

  /** What one exchange with the agent yields once the packet has been encoded,
      written, a reply read and decoded: the decoded reply, or the stage that failed. */
  datatype Exchange = Delivered(response: SnmpPacket) | Failed(stage: Stage)

  /** The network and the agent behind it: the outcome of sending a packet with
      the given read/write timeout. */
  type Transport = (SnmpPacket, Duration) -> Exchange

  /** The parts of a session that every request depends on. */
  datatype Link = Link(community: string, timeout: Duration, transport: Transport)
}
