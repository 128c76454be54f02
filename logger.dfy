/** The polling record of the data logger: one cycle requests the polled
    PIDs in a fixed order, and every exchange that succeeds adds the raw
    values of its PID, read as big-endian words or single bytes at fixed
    offsets of the reply, to the record. A failed exchange adds nothing. */
module Logger {
  import opened Bytes
  import opened Transport
  import opened FrameExchange
  import opened Catalog

  /** The raw values a polled PID adds to the record: its layout decoded
      from the reply when the exchange succeeded and the reply reaches every
      offset of the layout, nothing otherwise. */
  function Fields(id: PidId, x: Reply): (vals: seq<nat>)
    ensures !x.ok ==> vals == []
    ensures vals == [] || |vals| == |Layout(id)|
    ensures forall k :: 0 <= k < |vals| ==> vals[k] < 0x1_0000
  {
    if x.ok && Fits(Layout(id), x.response) then Decode(Layout(id), x.response) else []
  }

  /** A PID's request as it goes out: its template with the checksum stamped in. */
  function Request(id: PidId): (r: seq<Byte>)
    ensures |r| == |Template(id)| && ChecksumOk(r)
  {
    StampMakesChecksumOk(Template(id));
    Stamp(Template(id))
  }

  /** The outcome of a polling cycle: the adapter after it, the last reply,
      the record, and the result of every exchange, in request order. */
  datatype Cycle = Cycle(port: Port, response: seq<Byte>, record: seq<nat>, oks: seq<bool>)

  /** A polling cycle over `ids`, each PID requested once, in order. */
  function Poll(port: Port, response: seq<Byte>, ids: seq<PidId>): (c: Cycle)
    ensures |c.oks| == |ids| && c.port.open == port.open
    decreases |ids|, 2
  {
    if ids == [] then Cycle(port, response, [], [])
    else PollFirst(port, response, ids)
  }

  /** A cycle over a non-empty `ids`: request the first PID, then go on
      from its reply. */
  function PollFirst(port: Port, response: seq<Byte>, ids: seq<PidId>): (c: Cycle)
    requires ids != []
    ensures |c.oks| == |ids| && c.port.open == port.open
    decreases |ids|, 1
  {
    PollOn(ids, Exchange(port, Request(ids[0]), ResponseLen(ids[0])))
  }

  /** The rest of a cycle once the first PID of `ids` has been answered with `x`. */
  function PollOn(ids: seq<PidId>, x: Reply): (c: Cycle)
    requires ids != []
    ensures |c.oks| == |ids| && c.port.open == x.port.open
    decreases |ids|, 0
  {
    var c := Poll(x.port, x.response, ids[1..]);
    Cycle(c.port, c.response, Fields(ids[0], x) + c.record, [x.ok] + c.oks)
  }

  lemma PollSuffix(port: Port, response: seq<Byte>, ids: seq<PidId>, i: nat)
    requires i < |ids|
    ensures var x := Exchange(port, Request(ids[i]), ResponseLen(ids[i]));
            var c := Poll(x.port, x.response, ids[i + 1..]);
            Poll(port, response, ids[i..]) == Cycle(c.port, c.response, Fields(ids[i], x) + c.record, [x.ok] + c.oks)
  {
    assert ids[i..][1..] == ids[i + 1..];
    assert Poll(port, response, ids[i..]) == PollFirst(port, response, ids[i..]);
  }

  /** The frames of `ids`, in order. */
  function Requests(ids: seq<PidId>): (r: seq<Event>)
    ensures |r| == |ids|
  {
    if ids == [] then [] else [Send(Request(ids[0]))] + Requests(ids[1..])
  }

  /** The number of raw values a cycle over `ids` records when every PID answers. */
  function FieldCount(ids: seq<PidId>): (n: nat)
  {
    if ids == [] then 0 else |Layout(ids[0])| + FieldCount(ids[1..])
  }

  /** A cycle sends the request of every PID, in order, whether or not the
      exchanges before it succeeded, and nothing else. */
  lemma {:induction false} PollSends(port: Port, response: seq<Byte>, ids: seq<PidId>)
    ensures Poll(port, response, ids).port.tx == port.tx + Requests(ids)
    decreases |ids|, 1
  {
    if ids != [] {
      PollOnSends(port, ids, Exchange(port, Request(ids[0]), ResponseLen(ids[0])));
    }
  }

  lemma {:induction false} PollOnSends(port: Port, ids: seq<PidId>, x: Reply)
    requires ids != [] && x.port.tx == port.tx + [Send(Request(ids[0]))]
    ensures PollOn(ids, x).port.tx == port.tx + Requests(ids)
    decreases |ids|, 0
  {
    PollSends(x.port, x.response, ids[1..]);
    var rest := Requests(ids[1..]);
    assert PollOn(ids, x).port.tx == x.port.tx + rest;
    AppendAssoc(port.tx, [Send(Request(ids[0]))], rest);
  }

  /** What a record holds: 16-bit raw values, no more of them than the PIDs'
      layouts have fields; a cycle in which every exchange failed records
      nothing, and a full record means that every PID with fields answered. */
  lemma {:induction false} PollRecord(port: Port, response: seq<Byte>, ids: seq<PidId>)
    ensures RecordOk(ids, Poll(port, response, ids))
    decreases |ids|
  {
    if ids != [] {
      var x := Exchange(port, Request(ids[0]), ResponseLen(ids[0]));
      assert Poll(port, response, ids) == PollFirst(port, response, ids);
      PollRecord(x.port, x.response, ids[1..]);
      RecordCons(ids, x, Poll(x.port, x.response, ids[1..]));
    }
  }

  /** At most `n` values, each a 16-bit word. */
  ghost predicate Bounded(record: seq<nat>, n: nat)
  {
    |record| <= n && forall k :: 0 <= k < |record| ==> record[k] < 0x1_0000
  }

  /** The record of a cycle over `ids` with results `c.oks` is well formed. */
  ghost predicate RecordOk(ids: seq<PidId>, c: Cycle)
    requires |c.oks| == |ids|
  {
    Bounded(c.record, FieldCount(ids)) &&
    ((forall i :: 0 <= i < |ids| ==> !c.oks[i]) ==> c.record == []) &&
    (|c.record| == FieldCount(ids) ==>
       forall i :: 0 <= i < |ids| && Layout(ids[i]) != [] ==> c.oks[i])
  }

  lemma RecordCons(ids: seq<PidId>, x: Reply, c': Cycle)
    requires ids != [] && |c'.oks| == |ids| - 1 && RecordOk(ids[1..], c')
    ensures var c := Cycle(c'.port, c'.response, Fields(ids[0], x) + c'.record, [x.ok] + c'.oks);
            RecordOk(ids, c)
  {
    var c := Cycle(c'.port, c'.response, Fields(ids[0], x) + c'.record, [x.ok] + c'.oks);
    assert forall i :: 1 <= i < |ids| ==> c.oks[i] == c'.oks[i - 1] && ids[i] == ids[1..][i - 1];
    if forall i :: 0 <= i < |ids| ==> !c.oks[i] {
      assert !c.oks[0];
      forall i | 0 <= i < |ids[1..]| ensures !c'.oks[i] {
        assert !c.oks[i + 1];
      }
    }
  }

  /** The polled PIDs have 22 fields between them. */
  lemma PollOrderFieldCount()
    ensures FieldCount(PollOrder) == 22
  {
  }

  /** A polled PID whose reply arrives in full is always decoded: every
      offset of its layout lies inside a reply of the expected length. */
  lemma FullReplyDecodes(id: PidId, x: Reply)
    requires id in PollOrder && x.ok && |x.response| == ResponseLen(id)
    ensures Fields(id, x) == Decode(Layout(id), x.response) && |Fields(id, x)| == |Layout(id)| > 0
  {
    LayoutsInsideReply(id);
  }

  /** Each value of a decoded word gives back the two reply bytes it was
      read from, and a single-byte value is the byte itself. */
  lemma DecodeRecoversBytes(layout: seq<Field>, reply: seq<Byte>, k: nat)
    requires Fits(layout, reply) && k < |layout|
    ensures assert FieldBelow(layout[k], |reply|);
            match layout[k]
            case Word(hi, lo) => Decode(layout, reply)[k] / 256 == reply[hi] && Decode(layout, reply)[k] % 256 == reply[lo]
            case Octet(at) => Decode(layout, reply)[k] == reply[at]
  {
  }

  /** The outcome of `cycles` polling cycles over `ids`: the adapter, the
      last reply, and one record per cycle. The logger polls `PollOrder`. */
  datatype Run = Run(port: Port, response: seq<Byte>, records: seq<seq<nat>>)

  function Log(ids: seq<PidId>, port: Port, response: seq<Byte>, cycles: nat): (r: Run)
    ensures |r.records| == cycles && r.port.open == port.open
    decreases cycles
  {
    if cycles == 0 then Run(port, response, [])
    else
      var c := Poll(port, response, ids);
      var r := Log(ids, c.port, c.response, cycles - 1);
      Run(r.port, r.response, [c.record] + r.records)
  }

  /** A run of `n` cycles split after its first cycle, with the records
      of earlier cycles `done` in front. */
  lemma LogSuffix(ids: seq<PidId>, port: Port, response: seq<Byte>, n: nat, done: seq<seq<nat>>)
    requires n > 0
    ensures var c := Poll(port, response, ids);
            var r := Log(ids, c.port, c.response, n - 1);
            var r0 := Log(ids, port, response, n);
            r0.port == r.port && r0.response == r.response && done + r0.records == (done + [c.record]) + r.records
  {
    var c := Poll(port, response, ids);
    AppendAssoc(done, [c.record], Log(ids, c.port, c.response, n - 1).records);
  }

  /** `n` copies of `s`, one after the other. */
  function Repeat(s: seq<Event>, n: nat): (r: seq<Event>)
    ensures |r| == n * |s|
  {
    if n == 0 then [] else s + Repeat(s, n - 1)
  }

  /** Every cycle sends the requests of `ids` in order, and nothing else. */
  lemma {:induction false} LogSends(ids: seq<PidId>, port: Port, response: seq<Byte>, cycles: nat)
    ensures Log(ids, port, response, cycles).port.tx == port.tx + Repeat(Requests(ids), cycles)
    decreases cycles
  {
    if cycles > 0 {
      var c := Poll(port, response, ids);
      PollSends(port, response, ids);
      LogSends(ids, c.port, c.response, cycles - 1);
      var rest := Repeat(Requests(ids), cycles - 1);
      assert Log(ids, port, response, cycles).port.tx == c.port.tx + rest;
      assert Repeat(Requests(ids), cycles) == Requests(ids) + rest;
      assert (port.tx + Requests(ids)) + rest == port.tx + (Requests(ids) + rest);
    }
  }

  /** Every record has at most `FieldCount(ids)` values, each below 2^16. */
  lemma {:induction false} LogRecords(ids: seq<PidId>, port: Port, response: seq<Byte>, cycles: nat)
    ensures forall j :: 0 <= j < cycles ==> Bounded(Log(ids, port, response, cycles).records[j], FieldCount(ids))
    decreases cycles
  {
    if cycles > 0 {
      var c := Poll(port, response, ids);
      PollRecord(port, response, ids);
      LogRecords(ids, c.port, c.response, cycles - 1);
      var r := Log(ids, port, response, cycles);
      var r' := Log(ids, c.port, c.response, cycles - 1);
      assert r.records == [c.record] + r'.records;
      forall j | 0 <= j < cycles ensures Bounded(r.records[j], FieldCount(ids)) {
        if j > 0 {
          assert r.records[j] == r'.records[j - 1];
        }
      }
    }
  }

  /** The logger sends the nine polled requests in order, once per cycle,
      and every record has at most 22 values, each below 2^16. */
  lemma LoggerShape(port: Port, response: seq<Byte>, cycles: nat)
    ensures var r := Log(PollOrder, port, response, cycles);
            r.port.tx == port.tx + Repeat(Requests(PollOrder), cycles) &&
            forall j :: 0 <= j < cycles ==> Bounded(r.records[j], 22)
  {
    LogSends(PollOrder, port, response, cycles);
    LogRecords(PollOrder, port, response, cycles);
    PollOrderFieldCount();
  }
}
