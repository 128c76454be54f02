/** One request/response exchange: send a stamped frame, read back its echo
    and the reply in chunks under a deadline, strip the echo, and accept the
    reply when it has at least two bytes, carries its checksum in its last
    byte, and is not a negative response (ISO 14230-3 code 0x7F at index 1). */
module FrameExchange {
  import opened Bytes
  import opened Transport

  /** The negative-response service identifier. */
  const NegativeResponse: Byte := 0x7F

  /** The read with the echo of an `n`-byte request cut off; nothing is left
      when the read is no longer than the echo. */
  function StripEcho(read: seq<Byte>, n: nat): (r: seq<Byte>)
    ensures |read| <= n ==> r == []
    ensures |read| > n ==> read == read[..n] + r
  {
    if |read| <= n then [] else read[n..]
  }

  /** The acceptance test applied to a reply with the echo stripped. */
  predicate Accepts(reply: seq<Byte>)
  {
    |reply| > 1 && reply[|reply| - 1] == Checksum(reply) && reply[1] != NegativeResponse
  }

  /** The adapter after the exchange, the reply with its echo stripped, and
      whether the reply was accepted. */
  datatype Reply = Reply(port: Port, response: seq<Byte>, ok: bool)

  /** The exchange of an already stamped frame with a PID whose reply is
      `responseLen` bytes long: the frame is written, echo plus reply are read
      with the deadline armed, and the echo is stripped. */
  function Exchange(port: Port, frame: seq<Byte>, responseLen: nat): (x: Reply)
    ensures x.port.open == port.open
    ensures x.port.tx == port.tx + [Send(frame)]
    ensures |x.response| <= responseLen
    ensures x.ok <==> |x.response| >= 2 && ChecksumOk(x.response) && x.response[1] != NegativeResponse
  {
    var r := ReadData(port.rx, port.clock, responseLen + |frame|, true);
    var reply := StripEcho(r.data, |frame|);
    Reply(port.(rx := r.rx, clock := r.clock, tx := port.tx + [Send(frame)]), reply, Accepts(reply))
  }

  /** The exchange as the tester runs it: queue the frame, read echo and
      reply with the deadline armed, cut off the echo, then test the length,
      the checksum and the negative-response code in turn. */
  method Transact(port: Port, frame: seq<Byte>, responseLen: nat) returns (x: Reply)
    ensures x == Exchange(port, frame, responseLen)
  {
    var data, rx, clock := ReadChunks(port.rx, port.clock, responseLen + |frame|, true);
    var response := if |data| <= |frame| then [] else data[|frame|..];
    var result := false;
    var len := |response|;
    if len > 1 {
      var cs1 := response[len - 1];
      var cs2 := CalculateChecksum(response);
      if cs1 == cs2 {
        if response[1] != NegativeResponse {
          result := true;
        }
      }
    }
    x := Reply(port.(rx := rx, clock := clock, tx := port.tx + [Send(frame)]), response, result);
  }

  /** A non-empty reply is what the adapter delivered right after the echo,
      and the adapter still holds exactly what followed the reply. */
  lemma ReplyFollowsEcho(port: Port, frame: seq<Byte>, responseLen: nat)
    ensures var x := Exchange(port, frame, responseLen);
            x.response != [] ==>
            |frame| + |x.response| <= |Flatten(port.rx)| &&
            Flatten(port.rx)[|frame|..|frame| + |x.response|] == x.response &&
            Flatten(port.rx) == Flatten(port.rx)[..|frame|] + x.response + Flatten(x.port.rx)
  {
    var r := ReadData(port.rx, port.clock, responseLen + |frame|, true);
    assert r.data + Flatten(r.rx) == Flatten(port.rx);
    var x := Exchange(port, frame, responseLen);
    if x.response != [] {
      assert r.data == r.data[..|frame|] + x.response;
      assert Flatten(port.rx)[..|frame|] == r.data[..|frame|];
      AppendAssoc(r.data[..|frame|], x.response, Flatten(r.rx));
    }
  }

  /** A read that brings back no more than the echo and one byte, whether
      the adapter had no more or the deadline cut the read short, is always
      rejected, whatever the bytes are. */
  lemma EchoOnlyRejected(port: Port, frame: seq<Byte>, responseLen: nat)
    requires |ReadData(port.rx, port.clock, responseLen + |frame|, true).data| <= |frame| + 1
    ensures !Exchange(port, frame, responseLen).ok
    ensures |Exchange(port, frame, responseLen).response| <= 1
  {
  }

  /** When the adapter delivers an echo of the frame's length followed by a
      full-length reply before the deadline passes, the reply comes back
      exactly, and the exchange succeeds if and only if the reply passes the
      checksum test and is not a negative response. */
  lemma {:induction false} FullReply(port: Port, frame: seq<Byte>, responseLen: nat, echo: seq<Byte>, reply: seq<Byte>)
    requires |echo| == |frame| && |reply| == responseLen
    requires |frame| + responseLen <= |Flatten(port.rx)|
    requires Flatten(port.rx)[..|frame| + responseLen] == echo + reply
    requires |port.rx| <= |port.clock| && forall i :: 0 <= i < |port.clock| ==> !port.clock[i]
    ensures Exchange(port, frame, responseLen).response == reply
    ensures Exchange(port, frame, responseLen).ok <==>
              |reply| >= 2 && ChecksumOk(reply) && reply[1] != NegativeResponse
  {
    ReadDataFull(port.rx, port.clock, responseLen + |frame|);
    var r := ReadData(port.rx, port.clock, responseLen + |frame|, true);
    assert r.data == echo + reply;
    if |reply| > 0 {
      assert StripEcho(r.data, |frame|) == reply;
    }
  }
}
