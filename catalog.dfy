/** The PID catalog: each diagnostic request as a byte template whose last
    byte is the checksum slot, the number of reply bytes expected after the
    echoed request, and, for the polled PIDs, where the raw values sit in
    the reply. */
module Catalog {
  import opened Bytes

  datatype PidId =
    | AbsInitFrame | InitFrame | StartDiagnostics | RequestSeed | KeyReturn
    | BatteryVoltage | EngineRpm | VehicleSpeed
    | RpmError | AllTemps | Throttle | AapMaf | AllPress | PowerBal

  /** A request template and the length of the reply that follows its echo. */
  datatype Pid = Pid(request: seq<Byte>, responseLen: nat)

  /** The PID table: each request template and the length of its reply. */
  function Table(id: PidId): (p: Pid)
    ensures |p.request| >= 4 && p.responseLen >= 3
  {
    match id
    case AbsInitFrame     => Pid([0x81, 0x29, 0xF7, 0x81, 0x0C], 7)
    case InitFrame        => Pid([0x81, 0x13, 0xF7, 0x81, 0x0C], 7)
    case StartDiagnostics => Pid([0x02, 0x10, 0xA0, 0xB2], 3)
    case RequestSeed      => Pid([0x02, 0x27, 0x01, 0x2A], 6)
    case KeyReturn        => Pid([0x04, 0x27, 0x02, 0x00, 0x00, 0x00], 4)
    case BatteryVoltage   => Pid([0x02, 0x21, 0x10, 0x00], 8)
    case EngineRpm        => Pid([0x02, 0x21, 0x09, 0x00], 6)
    case VehicleSpeed     => Pid([0x02, 0x21, 0x0D, 0x00], 5)
    case RpmError         => Pid([0x02, 0x21, 0x21, 0x00], 6)
    case AllTemps         => Pid([0x02, 0x21, 0x1A, 0x00], 20)
    case Throttle         => Pid([0x02, 0x21, 0x1B, 0x00], 14)
    case AapMaf           => Pid([0x02, 0x21, 0x1C, 0x00], 12)
    case AllPress         => Pid([0x02, 0x21, 0x23, 0x00], 8)
    case PowerBal         => Pid([0x02, 0x21, 0x40, 0x00], 14)
  }

  function Template(id: PidId): (t: seq<Byte>) { Table(id).request }

  function ResponseLen(id: PidId): (n: nat) { Table(id).responseLen }

  /** The PIDs of one polling cycle, in the order they are requested and
      their fields are recorded. */
  const PollOrder: seq<PidId> :=
    [BatteryVoltage, EngineRpm, VehicleSpeed, RpmError, AllTemps, Throttle, AapMaf, AllPress, PowerBal]

  /** A raw value in a reply: a big-endian 16-bit word at two offsets, or one byte. */
  datatype Field = Word(hi: nat, lo: nat) | Octet(at: nat)

  /** The raw fields each polled PID contributes, in record order. */
  function Layout(id: PidId): (l: seq<Field>)
    ensures l != [] <==> id in PollOrder
  {
    match id
    case BatteryVoltage => [Word(5, 6)]
    case EngineRpm      => [Word(3, 4)]
    case VehicleSpeed   => [Octet(3)]
    case RpmError       => [Word(3, 4)]
    // coolant, air, external and fuel temperature
    case AllTemps       => [Word(3, 4), Word(7, 8), Word(11, 12), Word(15, 16)]
    // four throttle potentiometers and their supply
    case Throttle       => [Word(3, 4), Word(5, 6), Word(7, 8), Word(9, 10), Word(11, 12)]
    // ambient air pressure and mass air flow
    case AapMaf         => [Word(3, 4), Word(7, 8)]
    case AllPress       => [Word(3, 4), Word(5, 6)]
    // five power-balance values
    case PowerBal       => [Word(3, 4), Word(5, 6), Word(7, 8), Word(9, 10), Word(11, 12)]
    case _              => []
  }

  /** Every offset of the field lies below `n`. */
  predicate FieldBelow(f: Field, n: nat)
  {
    match f
    case Word(hi, lo) => hi < n && lo < n
    case Octet(at) => at < n
  }

  /** The reply is long enough for every field of the layout. */
  predicate Fits(layout: seq<Field>, reply: seq<Byte>)
  {
    forall k :: 0 <= k < |layout| ==> FieldBelow(layout[k], |reply|)
  }

  /** `hi << 8 | lo` for two bytes. */
  function BigEndian(hi: Byte, lo: Byte): (w: nat)
    ensures w < 0x1_0000 && w / 256 == hi && w % 256 == lo
  {
    hi * 256 + lo
  }

  function FieldValue(f: Field, reply: seq<Byte>): (v: nat)
    requires FieldBelow(f, |reply|)
  {
    match f
    case Word(hi, lo) => BigEndian(reply[hi], reply[lo])
    case Octet(at) => reply[at]
  }

  /** The raw values of a layout read from a reply. */
  function Decode(layout: seq<Field>, reply: seq<Byte>): (vals: seq<nat>)
    requires Fits(layout, reply)
    ensures |vals| == |layout|
    ensures forall k :: 0 <= k < |vals| ==> vals[k] < 0x1_0000
    ensures forall k :: 0 <= k < |vals| ==> layout[k].Octet? ==> vals[k] < 256
  {
    seq(|layout|, k requires 0 <= k < |layout| => FieldValue(layout[k], reply))
  }

  /** Python's `hi << 8 | lo` on two byte values is the arithmetic big-endian word. */
  lemma ShiftOrIsBigEndian(hi: bv8, lo: bv8)
    ensures ((hi as bv16 << 8) | lo as bv16) as int == BigEndian(hi as int, lo as int)
  {
  }

  /** Every field of every polled PID lies inside the reply the PID expects,
      and before that reply's checksum byte. */
  lemma {:induction false} LayoutsInsideReply(id: PidId)
    requires id in PollOrder
    ensures Layout(id) != []
    ensures forall k :: 0 <= k < |Layout(id)| ==> FieldBelow(Layout(id)[k], ResponseLen(id) - 1)
  {
  }

  /** The four temperatures sit in consecutive 4-byte slots starting at offset 3. */
  lemma AllTempsStride()
    ensures forall k :: 0 <= k < 4 ==> Layout(AllTemps)[k] == Word(3 + 4 * k, 4 + 4 * k)
  {
  }

  /** Every request of the table is a KWP2000 frame: a format byte whose low
      six bits count the data bytes, two address bytes when its top bit is
      set, the data, and the checksum slot. The polled PIDs are
      ReadDataByLocalIdentifier requests (service 0x21) whose checksum slot
      is still empty. */
  lemma TableFrames(id: PidId)
    ensures var t := Template(id);
            |t| == t[0] % 0x40 + (if t[0] >= 0x80 then 4 else 2)
    ensures id in PollOrder ==> Template(id)[0] == 0x02 && Template(id)[1] == 0x21 && Template(id)[3] == 0
  {
  }

  /** The frames of the wake-up handshake already carry their checksums in
      the table; the SendKey slot and the polled ones are filled per send. */
  lemma HandshakeTemplatesStamped()
    ensures ChecksumOk(Template(InitFrame))
    ensures ChecksumOk(Template(StartDiagnostics))
    ensures ChecksumOk(Template(RequestSeed))
  {
    ChecksumIgnoresLast([0x81, 0x13, 0xF7, 0x81], 0x0C, 0x0C);
    assert Template(InitFrame) == [0x81, 0x13, 0xF7, 0x81] + [0x0C];
    ChecksumIgnoresLast([0x02, 0x10, 0xA0], 0xB2, 0xB2);
    assert Template(StartDiagnostics) == [0x02, 0x10, 0xA0] + [0xB2];
    ChecksumIgnoresLast([0x02, 0x27, 0x01], 0x2A, 0x2A);
    assert Template(RequestSeed) == [0x02, 0x27, 0x01] + [0x2A];
  }

  /** A battery reply that carries 13500 (13.5 V once scaled) at offsets 5
      and 6 decodes to that raw value. */
  lemma BatteryVoltageExample(reply: seq<Byte>)
    requires |reply| >= 7 && reply[5] == 52 && reply[6] == 188
    ensures Fits(Layout(BatteryVoltage), reply)
    ensures Decode(Layout(BatteryVoltage), reply) == [13500]
  {
  }
}
