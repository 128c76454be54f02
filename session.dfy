/** The tester's session: the adapter, the connected flag, the last reply,
    and the request buffer of every PID. `GetPid` stamps a buffer in place
    before sending it, and fast init writes the key into the SendKey buffer,
    so the buffers are arrays the session owns. Every operation is proved
    against the functions that specify it. */
module Tester {
  import opened Bytes
  import opened Transport
  import opened FrameExchange
  import opened Catalog
  import opened Cipher
  import opened Handshake
  import opened Logger

  /** A PID's request buffer agrees with its template in every byte but
      the checksum slot. */
  ghost predicate Keeps(a: array<Byte>, id: PidId)
    reads a
  {
    a.Length == |Template(id)| && a[..a.Length - 1] == Template(id)[..|Template(id)| - 1]
  }

  /** A fresh buffer holding `t`. */
  method NewBuffer(t: seq<Byte>) returns (a: array<Byte>)
    ensures fresh(a) && a[..] == t
  {
    a := new Byte[|t|](i requires 0 <= i < |t| => t[i]);
  }

  /** The request buffers of the wake-up handshake, as the table defines them. */
  method HandshakeBuffers() returns (a0: array<Byte>, a1: array<Byte>, a2: array<Byte>, a3: array<Byte>, a4: array<Byte>)
    ensures fresh(a0) && fresh(a1) && fresh(a2) && fresh(a3) && fresh(a4)
    ensures a4 !in {a0, a1, a2, a3}
    ensures Keeps(a0, AbsInitFrame) && Keeps(a1, InitFrame) && Keeps(a2, StartDiagnostics) && Keeps(a3, RequestSeed)
    ensures a4[..] == Template(KeyReturn)
  {
    a0 := NewBuffer(Template(AbsInitFrame));
    a1 := NewBuffer(Template(InitFrame));
    a2 := NewBuffer(Template(StartDiagnostics));
    a3 := NewBuffer(Template(RequestSeed));
    a4 := NewBuffer(Template(KeyReturn));
  }

  /** The request buffers of the polled PIDs, as the table defines them. */
  method PollBuffers() returns (a5: array<Byte>, a6: array<Byte>, a7: array<Byte>, a8: array<Byte>, a9: array<Byte>,
                                a10: array<Byte>, a11: array<Byte>, a12: array<Byte>, a13: array<Byte>)
    ensures fresh(a5) && fresh(a6) && fresh(a7) && fresh(a8) && fresh(a9)
    ensures fresh(a10) && fresh(a11) && fresh(a12) && fresh(a13)
    ensures Keeps(a5, BatteryVoltage) && Keeps(a6, EngineRpm) && Keeps(a7, VehicleSpeed) && Keeps(a8, RpmError)
    ensures Keeps(a9, AllTemps) && Keeps(a10, Throttle) && Keeps(a11, AapMaf) && Keeps(a12, AllPress) && Keeps(a13, PowerBal)
  {
    a5 := NewBuffer(Template(BatteryVoltage));
    a6 := NewBuffer(Template(EngineRpm));
    a7 := NewBuffer(Template(VehicleSpeed));
    a8 := NewBuffer(Template(RpmError));
    a9 := NewBuffer(Template(AllTemps));
    a10 := NewBuffer(Template(Throttle));
    a11 := NewBuffer(Template(AapMaf));
    a12 := NewBuffer(Template(AllPress));
    a13 := NewBuffer(Template(PowerBal));
  }

  /** The PID of stage `k` of a fast-init attempt, before SendKey. */
  function StageId(k: nat): (id: PidId)
    requires k < 3
    ensures id != KeyReturn
  {
    if k == 0 then InitFrame else if k == 1 then StartDiagnostics else RequestSeed
  }

  class Session {
    var port: Port
    var connected: bool
    var response: seq<Byte>

    const absInitFrame: array<Byte>
    const initFrame: array<Byte>
    const startDiagnostics: array<Byte>
    const requestSeed: array<Byte>
    const keyReturn: array<Byte>
    const batteryVoltage: array<Byte>
    const engineRpm: array<Byte>
    const vehicleSpeed: array<Byte>
    const rpmError: array<Byte>
    const allTemps: array<Byte>
    const throttle: array<Byte>
    const aapMaf: array<Byte>
    const allPress: array<Byte>
    const powerBal: array<Byte>

    /** The request buffers, all of them. */
    ghost function Repr(): set<object>
    {
      {absInitFrame, initFrame, startDiagnostics, requestSeed, keyReturn, batteryVoltage, engineRpm,
       vehicleSpeed, rpmError, allTemps, throttle, aapMaf, allPress, powerBal}
    }

    /** The request buffer of a PID. */
    function Buf(id: PidId): array<Byte>
    {
      match id
      case AbsInitFrame => absInitFrame
      case InitFrame => initFrame
      case StartDiagnostics => startDiagnostics
      case RequestSeed => requestSeed
      case KeyReturn => keyReturn
      case BatteryVoltage => batteryVoltage
      case EngineRpm => engineRpm
      case VehicleSpeed => vehicleSpeed
      case RpmError => rpmError
      case AllTemps => allTemps
      case Throttle => throttle
      case AapMaf => aapMaf
      case AllPress => allPress
      case PowerBal => powerBal
    }

    /** Every PID's buffer agrees with its template in every byte but the
        checksum slot, except the SendKey buffer: it keeps its first three
        bytes, while bytes 3 and 4 carry the last key. The SendKey buffer is
        shared with no other PID. The checksum slots are left open: a send
        stamps its buffer first, so what a slot held before never reaches
        the line (`Bytes.StampDependsOnBody`). */
    ghost predicate Valid()
      reads Repr()
    {
      (forall id :: id != KeyReturn ==> Buf(id) != keyReturn && Keeps(Buf(id), id)) &&
      keyReturn.Length == 6 && keyReturn[..3] == Template(KeyReturn)[..3]
    }

    /** What `Valid` says about one PID's buffer. */
    lemma ValidBuffer(id: PidId)
      requires Valid()
      ensures id != KeyReturn ==> Buf(id) != keyReturn && Keeps(Buf(id), id)
      ensures id == KeyReturn ==> Buf(id) == keyReturn
    {
    }

    /** What the wake-up routines see and change. */
    ghost function State(): Env
      reads this, keyReturn
    {
      Env(port, connected, response, keyReturn[..])
    }

    /** The buffers of the polled PIDs. */
    ghost function Polled(): set<object>
    {
      {batteryVoltage, engineRpm, vehicleSpeed, rpmError, allTemps, throttle, aapMaf, allPress, powerBal}
    }

    constructor (port: Port)
      ensures Valid() && fresh(Repr())
      ensures State() == Env(port, false, [], Template(KeyReturn))
    {
      this.port := port;
      connected := false;
      response := [];
      var a0, a1, a2, a3, a4 := HandshakeBuffers();
      var a5, a6, a7, a8, a9, a10, a11, a12, a13 := PollBuffers();
      absInitFrame, initFrame, startDiagnostics, requestSeed, keyReturn := a0, a1, a2, a3, a4;
      batteryVoltage, engineRpm, vehicleSpeed, rpmError, allTemps := a5, a6, a7, a8, a9;
      throttle, aapMaf, allPress, powerBal := a10, a11, a12, a13;
    }

    /** The exchange of a PID: `SendRequest` on its buffer and reply
        length. The buffer of every PID other than SendKey then holds its
        stamped template. */
    method GetPid(id: PidId) returns (result: bool)
      requires Valid() && port.open
      modifies this`port, this`response, Buf(id)
      ensures Valid()
      ensures Buf(id)[..] == Stamp(old(Buf(id)[..]))
      ensures id != KeyReturn ==> Buf(id)[..] == Request(id)
      ensures var x := Exchange(old(port), Buf(id)[..], ResponseLen(id));
              port == x.port && response == x.response && result == x.ok
    {
      ValidBuffer(id);
      ghost var before := Buf(id)[..];
      result := SendRequest(Buf(id), ResponseLen(id));
      if id != KeyReturn {
        StampDependsOnBody(before, Template(id));
      }
    }

    /** One exchange of a request buffer whose reply is `responseLen` bytes
        long: stamp the checksum into the last byte of the buffer, send the
        buffer, read echo and reply under the deadline, keep the reply after
        the echo, and accept it as `Accepts` says. */
    method SendRequest(request: array<Byte>, responseLen: nat) returns (result: bool)
      requires Valid() && request in Repr() && request.Length >= 1
      modifies this`port, this`response, request
      ensures Valid()
      ensures request[..] == Stamp(old(request[..]))
      ensures var x := Exchange(old(port), request[..], responseLen);
              port == x.port && response == x.response && result == x.ok
    {
      ghost var before := request[..];
      StampChecksum(request);
      var frame := request[..];
      assert frame == Stamp(before);
      var x := Transact(port, frame, responseLen);
      label sent:
      result := Record(x);
      assert unchanged@sent(request);
      assert request[..] == frame;
    }

    /** Keep the adapter and the reply an exchange left behind. */
    method Record(x: Reply) returns (ok: bool)
      requires Valid()
      modifies this`port, this`response
      ensures Valid() && port == x.port && response == x.response && ok == x.ok
    {
      port, response, ok := x.port, x.response, x.ok;
    }

    /** Stamp the checksum into the last byte of a request buffer. */
    method StampChecksum(request: array<Byte>)
      requires Valid() && request in Repr() && request.Length >= 1
      modifies request
      ensures Valid()
      ensures request[..] == Stamp(old(request[..]))
    {
      var n := request.Length;
      var crc := CalculateChecksum(request[..]);
      request[n - 1] := crc;
      assert request[..n - 1] == old(request[..n - 1]);
      forall other | other != KeyReturn
        ensures Keeps(Buf(other), other)
      {
        assert old(Keeps(Buf(other), other));
        if Buf(other) == request {
          assert request[..n - 1] == old(request[..n - 1]);
        }
      }
      if request == keyReturn {
        assert keyReturn[..3] == old(keyReturn[..3]);
      }
    }

    /** One fast-init attempt: the wake pulse, then StartCommunication,
        StartDiagnosticSession and RequestSeed for as long as they succeed;
        after an accepted seed the key goes into bytes 3 and 4 of the SendKey
        buffer, and the SendKey result becomes the connected flag. */
    method TryConnect()
      requires Valid() && port.open
      modifies this`port, this`response, this`connected, initFrame, startDiagnostics, requestSeed, keyReturn
      ensures Valid()
      ensures State() == AttemptEnv(old(State()))
    {
      AttemptStages(State());
      WakePulse();
      ghost var e := State();
      var ok := Stage(0);
      ghost var x := Reply(port, response, ok);
      if !ok {
        StageFails(e, 0, x);
        return;
      }
      StagePasses(e, 0, x);
      e := State();
      ok := Stage(1);
      x := Reply(port, response, ok);
      if !ok {
        StageFails(e, 1, x);
        return;
      }
      StagePasses(e, 1, x);
      e := State();
      ok := Stage(2);
      x := Reply(port, response, ok);
      if !ok || |response| < 5 {
        StageFails(e, 2, x);
        return;
      }
      SeedStage(e, x);
      SendKey();
    }

    /** The exchange of stage `k` of an attempt (0 StartCommunication,
        1 StartDiagnosticSession, 2 RequestSeed): it leaves the SendKey
        buffer and the connected flag as they were. */
    method Stage(k: nat) returns (ok: bool)
      requires Valid() && port.open && k < 3
      modifies this`port, this`response, initFrame, startDiagnostics, requestSeed
      ensures Valid() && port.open
      ensures var e := old(State());
              var x := Exchange(e.port, Stamp(Frame(k, e.keyFrame)), StageLen(k));
              port == x.port && response == x.response && ok == x.ok &&
              keyReturn[..] == e.keyFrame && connected == e.connected
    {
      ValidBuffer(StageId(k));
      ok := GetPid(StageId(k));
    }

    /** The key step of an attempt: the seed of the RequestSeed reply, its
        key in bytes 3 and 4 of the SendKey buffer, and the SendKey result as
        the connected flag. */
    method SendKey()
      requires Valid() && port.open && |response| >= 5
      modifies this`port, this`response, this`connected, keyReturn
      ensures Valid()
      ensures var e := old(State());
              State() == Stages(e.(keyFrame := KeyFrame(e.keyFrame, SeedOf(e.response))), 3).env
    {
      var seed := BigEndian(response[3], response[4]);
      var keyHi, keyLo := CalculateKey(seed);
      StoreKey(keyHi, keyLo);
      ghost var e := State();
      connected := GetPid(KeyReturn);
      StampMakesChecksumOk(e.keyFrame);
      KeyStage(old(State()).(keyFrame := KeyFrame(old(keyReturn[..]), seed)), Reply(port, response, connected));
    }

    /** Write the key into bytes 3 and 4 of the SendKey buffer. */
    method StoreKey(keyHi: Byte, keyLo: Byte)
      requires Valid()
      modifies keyReturn
      ensures Valid()
      ensures keyReturn[..] == old(keyReturn[..])[3 := keyHi][4 := keyLo]
    {
      keyReturn[3] := keyHi;
      keyReturn[4] := keyLo;
      assert keyReturn[..3] == old(keyReturn[..3]);
      forall id | id != KeyReturn
        ensures Keeps(Buf(id), id)
      {
        assert old(Keeps(Buf(id), id));
      }
    }

    /** Fast init: nothing without an adapter; otherwise up to five attempts,
        stopping at the first that connects, and the adapter is closed when
        none did. */
    method FastInit()
      requires Valid()
      modifies this`port, this`response, this`connected, initFrame, startDiagnostics, requestSeed, keyReturn
      ensures Valid()
      ensures State() == FastInitSpec(old(State())).0
    {
      if !port.open {
        return;
      }
      Attempts();
      if !connected {
        Close();
      }
    }

    /** The fast-init wake pulse on the line. */
    method WakePulse()
      requires Valid()
      modifies this`port
      ensures Valid() && port == old(port).(tx := old(port).tx + Pulse())
    {
      port := port.(tx := port.tx + [BitBang(true), Level(true), Level(false), Level(true), BitBang(false), Purge]);
    }

    /** Close the adapter. */
    method Close()
      requires Valid()
      modifies this`port
      ensures Valid() && port == old(port).(open := false)
    {
      port := port.(open := false);
    }

    /** The retry loop of fast init. */
    method Attempts()
      requires Valid() && port.open
      modifies this`port, this`response, this`connected, initFrame, startDiagnostics, requestSeed, keyReturn
      ensures Valid()
      ensures State() == Retry(AttemptEnv, old(State()), 0).0
    {
      ghost var goal := Retry(AttemptEnv, State(), 0);
      ghost var cur := State();
      var attempt := 0;
      while attempt < MaxAttempts
        invariant Valid() && port.open && attempt <= MaxAttempts
        invariant cur == State() && Retry(AttemptEnv, cur, attempt) == goal
        decreases MaxAttempts - attempt
      {
        var stop := Round(attempt);
        attempt := attempt + 1;
        cur := State();
        if stop {
          break;
        }
      }
    }

    /** One round of the retry loop: an attempt, and whether it connected. */
    method Round(attempt: nat) returns (stop: bool)
      requires Valid() && port.open && attempt < MaxAttempts
      modifies this`port, this`response, this`connected, initFrame, startDiagnostics, requestSeed, keyReturn
      ensures Valid() && port.open && stop == connected
      ensures var r := Retry(AttemptEnv, old(State()), attempt);
              if stop then r == (State(), attempt + 1) else r == Retry(AttemptEnv, State(), attempt + 1)
    {
      ghost var e := State();
      TryConnect();
      RetryStep(AttemptEnv, e, State(), attempt);
      stop := connected;
    }

    /** Slow init: on an open adapter, the 5-baud wake-up with the address
        sent least significant bit first, a read of up to three bytes, and
        then either the two complemented answers and the connected flag, or
        the adapter closed. */
    method SlowInit(address: Byte)
      modifies this`port, this`response, this`connected
      ensures State() == SlowInitSpec(old(State()), address)
    {
      if !port.open {
        return;
      }
      port := port.(tx := port.tx + [BitBang(true), Level(true), Level(false)]);
      ghost var start := port.tx;
      for i := 0 to 8
        invariant port == old(port).(tx := start + LsbLevels(address, i))
        invariant connected == old(connected)
      {
        var hilo := Shr(address, i) % 2 == 1;
        assert LsbLevels(address, i + 1) == LsbLevels(address, i) + [Level(hilo)];
        port := port.(tx := port.tx + [Level(hilo)]);
      }
      port := port.(tx := port.tx + [Level(true), BitBang(false), Purge]);
      assert port.tx == old(port).tx + [BitBang(true)] + WakeLevels(address) + [BitBang(false), Purge];
      var chunk := TakeChunk(port.rx, 3);
      port := port.(rx := chunk.1);
      response := chunk.0;
      if |response| >= 3 && response[0] == SyncByte && response[2] == KeyByte2 {
        var invertedKb2 := Complement(response[2]);
        var invertedAddress := Complement(address);
        port := port.(tx := port.tx + [Send([invertedKb2])]);
        port := port.(tx := port.tx + [Send([invertedAddress])]);
        connected := true;
      } else {
        port := port.(open := false);
      }
    }

    /** One polling cycle over `ids` (the logger's is `PollOrder`): every
        PID is requested in turn, and the raw values of each accepted reply
        are appended to the record. */
    method PollEach(ids: seq<PidId>) returns (record: seq<nat>)
      requires Valid() && port.open
      requires forall i :: 0 <= i < |ids| ==> ids[i] in PollOrder
      modifies this`port, this`response, Polled()
      ensures Valid() && port.open
      ensures var c := Poll(old(port), old(response), ids);
              port == c.port && response == c.response && record == c.record
    {
      ghost var goal := Poll(port, response, ids);
      record := [];
      for i := 0 to |ids|
        invariant Valid() && port.open
        invariant var c := Poll(port, response, ids[i..]);
                  c.port == goal.port && c.response == goal.response && record + c.record == goal.record
      {
        PollSuffix(port, response, ids, i);
        ghost var done := record;
        var fields := PollPid(ids[i]);
        record := record + fields;
        AppendAssoc(done, fields, Poll(port, response, ids[i + 1..]).record);
      }
      assert ids[|ids|..] == [];
    }

    /** Request one polled PID and read its raw values from an accepted
        reply that reaches every offset of the PID's layout. */
    method PollPid(id: PidId) returns (fields: seq<nat>)
      requires Valid() && port.open && id in PollOrder
      modifies this`port, this`response, Polled()
      ensures Valid() && port.open
      ensures var x := Exchange(old(port), Request(id), ResponseLen(id));
              port == x.port && response == x.response && fields == Fields(id, x)
    {
      ValidBuffer(id);
      var ok := GetPid(id);
      fields := if ok && Fits(Layout(id), response) then Decode(Layout(id), response) else [];
    }

    /** The data logger: nothing unless connected; otherwise `cycles`
        polling cycles over `PollOrder`, one record each. */
    method StartLogger(cycles: nat) returns (records: seq<seq<nat>>)
      requires Valid() && (connected ==> port.open)
      modifies this`port, this`response, Polled()
      ensures Valid()
      ensures !old(connected) ==> records == [] && port == old(port) && response == old(response)
      ensures old(connected) ==>
                var r := Log(PollOrder, old(port), old(response), cycles);
                port == r.port && response == r.response && records == r.records
    {
      if !connected {
        return [];
      }
      records := LogCycles(PollOrder, cycles);
    }

    /** `cycles` polling cycles over `ids`. */
    method LogCycles(ids: seq<PidId>, cycles: nat) returns (records: seq<seq<nat>>)
      requires Valid() && port.open
      requires forall i :: 0 <= i < |ids| ==> ids[i] in PollOrder
      modifies this`port, this`response, Polled()
      ensures Valid()
      ensures var r := Log(ids, old(port), old(response), cycles);
              port == r.port && response == r.response && records == r.records
    {
      ghost var goal := Log(ids, port, response, cycles);
      ghost var p, q := port, response;
      records := [];
      var left := cycles;
      while left > 0
        invariant Valid() && port.open && p == port && q == response
        invariant var r := Log(ids, p, q, left);
                  r.port == goal.port && r.response == goal.response && records + r.records == goal.records
      {
        records := LogRound(ids, left, records, goal);
        left := left - 1;
        p, q := port, response;
      }
    }

    /** One cycle of the logger loop, with `left` cycles still to run: one
        polling cycle, its record appended to those of the cycles before.
        The run from here on, after the records already made, is the run
        `goal` of all the cycles. */
    method LogRound(ids: seq<PidId>, left: nat, records: seq<seq<nat>>, ghost goal: Run)
      returns (records': seq<seq<nat>>)
      requires Valid() && port.open && left > 0
      requires forall k :: 0 <= k < |ids| ==> ids[k] in PollOrder
      requires var r := Log(ids, port, response, left);
               r.port == goal.port && r.response == goal.response && records + r.records == goal.records
      modifies this`port, this`response, Polled()
      ensures Valid() && port.open
      ensures var r := Log(ids, port, response, left - 1);
              r.port == goal.port && r.response == goal.response && records' + r.records == goal.records
    {
      LogSuffix(ids, port, response, left, records);
      var record := PollEach(ids);
      records' := records + [record];
    }
  }
}
