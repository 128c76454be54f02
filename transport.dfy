/** The serial adapter as the protocol engine sees it: an open/closed flag,
    the chunks the adapter will hand out on successive reads, the answers of
    the deadline check, and the trace of everything driven onto the line.

    A read asking for at most `max` bytes returns the next chunk cut to
    `max` bytes; what is cut off stays queued for the next read. A deadline
    check consumes one answer (`true`: the deadline has passed); once the
    answers run out, the deadline has passed. */
module Transport {
  import opened Bytes

  /** What the engine drives onto the line: a level in bit-bang mode, a mode
      switch, a buffer purge, or a frame at the serial baud rate. */
  datatype Event = Level(high: bool) | BitBang(on: bool) | Purge | Send(frame: seq<Byte>)

  datatype Port = Port(open: bool, rx: seq<seq<Byte>>, clock: seq<bool>, tx: seq<Event>)

  /** The bytes the adapter will deliver, in order. */
  function Flatten(chunks: seq<seq<Byte>>): (stream: seq<Byte>)
  {
    if chunks == [] then [] else chunks[0] + Flatten(chunks[1..])
  }

  /** One adapter read of at most `max` bytes: the bytes returned and the chunks left. */
  function TakeChunk(rx: seq<seq<Byte>>, max: nat): (r: (seq<Byte>, seq<seq<Byte>>))
    ensures |r.0| <= max
    ensures r.0 + Flatten(r.1) == Flatten(rx)
    ensures rx != [] && |r.0| < max ==> r.1 == rx[1..]
    ensures rx == [] ==> r == ([], [])
  {
    if rx == [] then ([], [])
    else if |rx[0]| <= max then (rx[0], rx[1..])
    else
      assert rx[0] == rx[0][..max] + rx[0][max..];
      (rx[0][..max], [rx[0][max..]] + rx[1..])
  }

  /** The outcome of a chunked read: the bytes collected, the chunks and
      deadline answers left over, and whether the read ended on the deadline. */
  datatype ReadResult = ReadResult(data: seq<Byte>, rx: seq<seq<Byte>>, clock: seq<bool>, expired: bool)

  /** Reading `size` bytes in chunks: keep reading until `size` bytes are in,
      or, with a deadline (`timed`), until the deadline check reports that the
      deadline has passed. Without a deadline the adapter must eventually
      deliver `size` bytes, or the read would never return.

      The contract: the bytes collected are a prefix of the adapter's stream,
      concatenated in the order read, with nothing lost; never more than
      `size`; short exactly when the read ended on the deadline, which needs
      one. */
  function ReadData(rx: seq<seq<Byte>>, clock: seq<bool>, size: nat, timed: bool): (r: ReadResult)
    requires timed || size <= |Flatten(rx)|
    ensures r.data + Flatten(r.rx) == Flatten(rx)
    ensures |r.data| <= size
    ensures r.expired <==> |r.data| < size
    ensures r.expired ==> timed
    decreases |rx| + |clock|
  {
    var (buf, rest) := TakeChunk(rx, size);
    if |buf| >= size then ReadResult(buf, rest, clock, false)
    else if !timed then
      var r := ReadData(rest, clock, size - |buf|, false);
      AppendAssoc(buf, r.data, Flatten(r.rx));
      ReadResult(buf + r.data, r.rx, r.clock, r.expired)
    else if clock == [] || clock[0] then
      ReadResult(buf, rest, if clock == [] then [] else clock[1..], true)
    else
      var r := ReadData(rest, clock[1..], size - |buf|, true);
      AppendAssoc(buf, r.data, Flatten(r.rx));
      ReadResult(buf + r.data, r.rx, r.clock, r.expired)
  }

  /** The read loop of the tester: ask the adapter for the bytes still
      missing, append what it returns, and stop once `size` bytes are in or,
      with a deadline, once a deadline check reports that it has passed.
      Returns the bytes and what is left of the chunks and of the answers. */
  method ReadChunks(rx0: seq<seq<Byte>>, clock0: seq<bool>, size: nat, timed: bool)
    returns (data: seq<Byte>, rx: seq<seq<Byte>>, clock: seq<bool>)
    requires timed || size <= |Flatten(rx0)|
    ensures var r := ReadData(rx0, clock0, size, timed);
            data == r.data && rx == r.rx && clock == r.clock
  {
    ghost var goal := ReadData(rx0, clock0, size, timed);
    rx, clock := rx0, clock0;
    data := [];
    var missing: nat := size;
    while true
      invariant timed || missing <= |Flatten(rx)|
      invariant var r := ReadData(rx, clock, missing, timed);
                data + r.data == goal.data && r.rx == goal.rx && r.clock == goal.clock
      decreases |rx| + |clock|
    {
      var done;
      data, rx, clock, missing, done := ReadOnce(data, rx, clock, missing, timed);
      if done {
        break;
      }
    }
  }

  /** One round of the read loop: ask the adapter for the `missing` bytes,
      append them to `data`, then, if they are not all in, check the
      deadline. Either the read is over, and `data'` is `data` followed by
      what the whole read returns, or it goes on, and the whole read from
      here returns `data'` followed by the read of the bytes still missing. */
  method ReadOnce(data: seq<Byte>, rx: seq<seq<Byte>>, clock: seq<bool>, missing: nat, timed: bool)
    returns (data': seq<Byte>, rx': seq<seq<Byte>>, clock': seq<bool>, missing': nat, done: bool)
    requires timed || missing <= |Flatten(rx)|
    ensures var r := ReadData(rx, clock, missing, timed);
            done ==> data' == data + r.data && rx' == r.rx && clock' == r.clock
    ensures var r := ReadData(rx, clock, missing, timed);
            !done ==>
              (timed || missing' <= |Flatten(rx')|) && |rx'| + |clock'| < |rx| + |clock| &&
              var r' := ReadData(rx', clock', missing', timed);
              data' + r'.data == data + r.data && r'.rx == r.rx && r'.clock == r.clock
  {
    ReadDataStep(rx, clock, missing, timed);
    var chunk := TakeChunk(rx, missing);
    var buf := chunk.0;
    data', rx', clock', missing' := data + buf, chunk.1, clock, missing;
    done := |buf| >= missing;
    if !done {
      missing' := missing - |buf|;
      if !timed {
        assert rx != [];
      } else if clock == [] || clock[0] {
        clock' := if clock == [] then [] else clock[1..];
        done := true;
      } else {
        clock' := clock[1..];
      }
      if !done {
        AppendAssoc(data, buf, ReadData(rx', clock', missing', timed).data);
      }
    }
  }

  /** One round of a chunked read: a chunk that completes the read, a
      deadline that has passed, or the rest of the read after the chunk. */
  lemma ReadDataStep(rx: seq<seq<Byte>>, clock: seq<bool>, size: nat, timed: bool)
    requires timed || size <= |Flatten(rx)|
    ensures var r := ReadData(rx, clock, size, timed);
            var buf := TakeChunk(rx, size).0;
            var rest := TakeChunk(rx, size).1;
            if |buf| >= size then r == ReadResult(buf, rest, clock, false)
            else if timed && (clock == [] || clock[0]) then
              r == ReadResult(buf, rest, if clock == [] then [] else clock[1..], true)
            else
              var r' := ReadData(rest, if timed then clock[1..] else clock, size - |buf|, timed);
              r.data == buf + r'.data && r.rx == r'.rx && r.clock == r'.clock && r.expired == r'.expired
  {
  }

  /** `left` is what a read left of the deadline answers `clock`: a suffix
      of them, where every answer consumed said "not yet" except possibly
      the last, and a read that ended on the deadline consumed an answer
      that said so, or used the answers up. */
  ghost predicate Consumed(clock: seq<bool>, left: seq<bool>, expired: bool)
  {
    var used := |clock| - |left|;
    0 <= used && left == clock[used..] &&
    (forall i :: 0 <= i < used && !(expired && i == used - 1) ==> !clock[i]) &&
    (expired ==> left == [] || (used > 0 && clock[used - 1]))
  }

  /** A "not yet" answer in front of what a read consumed. */
  lemma ConsumedCons(clock: seq<bool>, left: seq<bool>, expired: bool)
    requires clock != [] && !clock[0] && Consumed(clock[1..], left, expired)
    ensures Consumed(clock, left, expired)
  {
    var used := |clock| - |left|;
    assert clock[1..][used - 1..] == clock[used..];
    forall i | 0 <= i < used && !(expired && i == used - 1)
      ensures !clock[i]
    {
      if i > 0 {
        assert clock[i] == clock[1..][i - 1];
      }
    }
    if expired && left != [] && used > 1 {
      assert clock[used - 1] == clock[1..][used - 2];
    }
  }

  /** The deadline checks a read makes are the first answers of the clock,
      in order: every one of them but the last said "not yet", and a read
      that ended on the deadline consumed an answer that said so, or used up
      the answers. */
  lemma {:induction false} ReadDataClock(rx: seq<seq<Byte>>, clock: seq<bool>, size: nat, timed: bool)
    requires timed || size <= |Flatten(rx)|
    ensures Consumed(clock, ReadData(rx, clock, size, timed).clock, ReadData(rx, clock, size, timed).expired)
    decreases |rx| + |clock|
  {
    var r := ReadData(rx, clock, size, timed);
    var (buf, rest) := TakeChunk(rx, size);
    ReadDataStep(rx, clock, size, timed);
    if |buf| >= size {
      assert clock[0..] == clock;
    } else if !timed {
      ReadDataClock(rest, clock, size - |buf|, false);
    } else if clock == [] || clock[0] {
    } else {
      ReadDataClock(rest, clock[1..], size - |buf|, true);
      ConsumedCons(clock, r.clock, r.expired);
    }
  }

  /** A deadline that does not pass before the stream runs dry: the read then
      returns exactly the first `size` bytes of the stream. */
  lemma {:induction false} ReadDataFull(rx: seq<seq<Byte>>, clock: seq<bool>, size: nat)
    requires size <= |Flatten(rx)|
    requires |rx| <= |clock| && forall i :: 0 <= i < |clock| ==> !clock[i]
    ensures !ReadData(rx, clock, size, true).expired
    ensures ReadData(rx, clock, size, true).data == Flatten(rx)[..size]
    decreases |rx|
  {
    var r := ReadData(rx, clock, size, true);
    assert r.data + Flatten(r.rx) == Flatten(rx);
    var (buf, rest) := TakeChunk(rx, size);
    if |buf| < size {
      assert rx != [];
      assert buf + Flatten(rest) == Flatten(rx);
      ReadDataFull(rest, clock[1..], size - |buf|);
    }
  }
}
