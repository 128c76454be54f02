/** Behaviour of TD5Tester.py where it departs from what it evidently
    intends. Each definition here follows the code as written, Python
    exceptions included; the lemmas exhibit inputs on which it raises or
    misreads, and relate it to the corrected definitions the rest of the
    model uses. */
module Findings {
  import opened Bytes
  import opened Transport
  import opened FrameExchange
  import opened Catalog
  import opened Handshake
  import opened Logger

  /** The Python exceptions the code can raise on these paths. */
  datatype Raised = IndexError | ValueError

  datatype Outcome<T> = Value(value: T) | Raise(error: Raised)

  // ---------------------------------------------------------------------
  // Slow init as written

  /** Python's `~x` on an integer. */
  function PyInvert(x: int): (v: int)
  {
    -x - 1
  }

  /** `bytearray([v])` accepts only 0..255. */
  predicate FitsBytearray(v: int)
  {
    0 <= v < 256
  }

  /** Slow init as written: the reply is indexed at 0 and then, only when
      the sync byte matched, at 2, without a length check; the success
      branch first builds `bytearray([~address])`, which raises before
      anything is sent, since `~` of a byte is negative (`PyInvertOfByte`).
      The line levels and the three-byte read stand for `uart.write_data(hilo)`
      and `uart.read_data(3, 0.340)` behaving as intended; the FTDI library
      is not part of this model. */
  function SlowInitAsWritten(e: Env, address: Byte): (o: Outcome<Env>)
    ensures o.Value? && e.port.open ==> !o.value.connected || e.connected
  {
    if !e.port.open then Value(e)
    else
      var tx := e.port.tx + [BitBang(true)] + WakeLevels(address) + [BitBang(false), Purge];
      var (reply, rest) := TakeChunk(e.port.rx, 3);
      var port := e.port.(rx := rest, tx := tx);
      var closed := e.(port := port.(open := false), response := reply);
      if |reply| == 0 then Raise(IndexError)
      else if reply[0] != SyncByte then Value(closed)
      else if |reply| < 3 then Raise(IndexError)
      else if reply[2] != KeyByte2 then Value(closed)
      else Raise(ValueError)
  }

  /** `~` of a byte never fits a bytearray; its low eight bits are the
      complement the protocol asks for. */
  lemma PyInvertOfByte(x: Byte)
    ensures PyInvert(x) < 0 && !FitsBytearray(PyInvert(x))
    ensures PyInvert(x) % 256 == Complement(x)
  {
  }

  /** A silent ECU: slow init as written raises IndexError where the
      corrected one closes the adapter. */
  lemma SilentEcuRaises(e: Env, address: Byte)
    requires e.port.open && e.port.rx == []
    ensures SlowInitAsWritten(e, address) == Raise(IndexError)
    ensures !SlowInitSpec(e, address).port.open && SlowInitSpec(e, address).connected == e.connected
  {
  }

  /** A correct wake-up reply: slow init as written raises ValueError
      before it answers, where the corrected one answers and connects. */
  lemma AcceptedWakeRaises(e: Env, address: Byte)
    requires e.port.open && SlowReplyOk(TakeChunk(e.port.rx, 3).0)
    ensures SlowInitAsWritten(e, address) == Raise(ValueError)
    ensures SlowInitSpec(e, address).connected && SlowInitSpec(e, address).port.open
  {

  }

  /** Slow init as written never connects: every run either raises or
      leaves the connected flag as it was. On every run that does not raise
      it agrees with the corrected slow init. */
  lemma SlowInitAsWrittenNeverConnects(e: Env, address: Byte)
    ensures SlowInitAsWritten(e, address).Value? ==>
              SlowInitAsWritten(e, address).value == SlowInitSpec(e, address) &&
              SlowInitAsWritten(e, address).value.connected == e.connected
  {

  }

  // ---------------------------------------------------------------------
  // The air temperature as written

  /** The AllTemps layout as written: the air temperature word takes its
      high byte from offset 7 and its low byte from offset 4. */
  const AllTempsAsWritten: seq<Field> := [Word(3, 4), Word(7, 4), Word(11, 12), Word(15, 16)]

  /** The layout as written agrees with the corrected one on every field
      but the air temperature, and on that one exactly when the bytes at
      offsets 4 and 8 are equal. */
  lemma AirTempAsWritten(reply: seq<Byte>)
    requires |reply| == ResponseLen(AllTemps)
    ensures Fits(AllTempsAsWritten, reply) && Fits(Layout(AllTemps), reply)
    ensures var w := Decode(AllTempsAsWritten, reply);
            var c := Decode(Layout(AllTemps), reply);
            w[0] == c[0] && w[2] == c[2] && w[3] == c[3] && (w[1] == c[1] <==> reply[4] == reply[8])
  {
    var w := Decode(AllTempsAsWritten, reply);
    var c := Decode(Layout(AllTemps), reply);
    assert w[1] == BigEndian(reply[7], reply[4]) && c[1] == BigEndian(reply[7], reply[8]);
  }

  /** Coolant at 0x0BB8 and air at 0x0B86: as written the air temperature
      reads 0x0BB8, the coolant's low byte. */
  lemma AirTempMisread()
    ensures var reply := [0x00, 0x61, 0x1A, 0x0B, 0xB8, 0, 0, 0x0B, 0x86, 0, 0, 0, 0, 0, 0, 0, 0, 0, 0, 0];
            Decode(AllTempsAsWritten, reply)[1] == 0x0BB8 &&
            Decode(Layout(AllTemps), reply)[1] == 0x0B86
  {
  }

  // ---------------------------------------------------------------------
  // Decoding a short accepted reply as written

  /** The layouts as written: the corrected ones, except the AllTemps layout
      with its misread air temperature. */
  function LayoutAsWritten(id: PidId): (l: seq<Field>)
    ensures |l| == |Layout(id)|
  {
    if id == AllTemps then AllTempsAsWritten else Layout(id)
  }

  /** The logger as written reads the offsets of its layouts from any
      accepted reply, whatever its length. */
  function FieldsAsWritten(id: PidId, x: Reply): (o: Outcome<seq<nat>>)
    ensures o.Value? ==> |o.value| <= |Layout(id)|
  {
    if !x.ok then Value([])
    else if Fits(LayoutAsWritten(id), x.response) then Value(Decode(LayoutAsWritten(id), x.response))
    else Raise(IndexError)
  }

  /** The logger as written raises exactly on an accepted reply too short
      for the layout. Where it does not raise, it records what the corrected
      `Fields` records for every PID but AllTemps; for AllTemps it records
      the same coolant, external and fuel temperatures, and the same air
      temperature exactly when reply bytes 4 and 8 are equal. */
  lemma FieldsAsWrittenAgrees(id: PidId, x: Reply)
    ensures FieldsAsWritten(id, x).Value? <==> !x.ok || Fits(Layout(id), x.response)
    ensures id != AllTemps && FieldsAsWritten(id, x).Value? ==> FieldsAsWritten(id, x).value == Fields(id, x)
    ensures id == AllTemps && x.ok && FieldsAsWritten(id, x).Value? ==>
              var w := FieldsAsWritten(id, x).value;
              var c := Fields(id, x);
              |w| == |c| == 4 && w[0] == c[0] && w[2] == c[2] && w[3] == c[3] &&
              (w[1] == c[1] <==> x.response[4] == x.response[8])
  {
    if id == AllTemps {
      var r := x.response;
      assert Fits(AllTempsAsWritten, r) <==> 16 < |r| by {
        assert AllTempsAsWritten[3] == Word(15, 16);
      }
      assert Fits(Layout(AllTemps), r) <==> 16 < |r| by {
        assert Layout(AllTemps)[3] == Word(15, 16);
      }
      if x.ok && 16 < |r| {
        var w := Decode(AllTempsAsWritten, r);
        var c := Decode(Layout(AllTemps), r);
        assert w[1] == BigEndian(r[7], r[4]) && c[1] == BigEndian(r[7], r[8]);
      }
    }
  }

  /** A battery-voltage request whose reply stops after three bytes that
      pass the checksum test: the exchange succeeds, and the logger as
      written then reads offsets 5 and 6 of a three-byte reply. */
  lemma ShortBatteryReplyRaises()
    ensures var frame := Request(BatteryVoltage);
            var port := Port(true, [frame + [0x01, 0x61, 0x62]], [false, true], []);
            var x := Exchange(port, frame, ResponseLen(BatteryVoltage));
            x.ok && x.response == [0x01, 0x61, 0x62] &&
            FieldsAsWritten(BatteryVoltage, x) == Raise(IndexError) &&
            Fields(BatteryVoltage, x) == []
  {
    var frame := Request(BatteryVoltage);
    assert Template(BatteryVoltage)[..3] == [0x02, 0x21, 0x10];
    assert Sum([0x10]) == 0x10 && Sum([0x21, 0x10]) == 0x31 && Sum([0x02, 0x21, 0x10]) == 0x33;
    assert frame == [0x02, 0x21, 0x10, 0x33];
    var rx := [frame + [0x01, 0x61, 0x62]];
    assert TakeChunk(rx, 12) == (frame + [0x01, 0x61, 0x62], []);
    assert ReadData([], [true], 5, true) == ReadResult([], [], [], true);
    var r := ReadData(rx, [false, true], 12, true);
    assert r == ReadResult(frame + [0x01, 0x61, 0x62], [], [], true);
    var reply := StripEcho(r.data, 4);
    assert reply == [0x01, 0x61, 0x62];
    assert reply[..2] == [0x01, 0x61] && Sum([0x61]) == 0x61;
    assert Checksum(reply) == 0x62;
    assert Accepts(reply);
    assert Layout(BatteryVoltage)[0] == Word(5, 6) && !FieldBelow(Layout(BatteryVoltage)[0], |reply|);
  }

  // ---------------------------------------------------------------------
  // The seed of a short accepted reply as written

  /** The seed as written: `response[3] << 8 | response[4]` on any accepted
      RequestSeed reply. */
  function SeedAsWritten(reply: seq<Byte>): (o: Outcome<nat>)
    ensures o.Value? ==> o.value < 0x1_0000
  {
    if |reply| < 5 then Raise(IndexError) else Value(BigEndian(reply[3], reply[4]))
  }

  /** A three-byte RequestSeed reply passes the acceptance test, and the
      seed as written then raises; the corrected attempt counts such a
      reply as a failed RequestSeed. */
  lemma ShortSeedRaises()
    ensures Accepts([0x01, 0x67, 0x68])
    ensures SeedAsWritten([0x01, 0x67, 0x68]) == Raise(IndexError)
  {
    assert [0x01, 0x67, 0x68][..2] == [0x01, 0x67] && Sum([0x67]) == 0x67;
    assert Checksum([0x01, 0x67, 0x68]) == 0x68;
  }
}
