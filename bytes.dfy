/** Frame bytes and the ISO 14230-2 checksum: the sum of every byte of a
    frame except the last, modulo 256. The last byte of a frame is the slot
    that carries that checksum. */
module Bytes {

  /** One byte of a frame, as the integers held by a Python bytearray. */
  type Byte = b: int | 0 <= b < 256

  /** Sum of a byte sequence. */
  function Sum(s: seq<Byte>): (r: nat)
    ensures r <= 255 * |s|
  {
    if s == [] then 0 else s[0] + Sum(s[1..])
  }

  /** Adding one byte at the end adds it to the sum: the order in which the
      checksum loop accumulates does not matter. */
  lemma {:induction false} SumSnoc(s: seq<Byte>, x: Byte)
    ensures Sum(s + [x]) == Sum(s) + x
  {
    if s != [] {
      assert (s + [x])[1..] == s[1..] + [x];
      SumSnoc(s[1..], x);
    }
  }

  /** The checksum of a frame: every byte but the last, summed modulo 256. */
  function Checksum(frame: seq<Byte>): (c: Byte)
  {
    if |frame| == 0 then 0 else Sum(frame[..|frame| - 1]) % 256
  }

  /** A frame whose last byte carries its checksum. */
  predicate ChecksumOk(frame: seq<Byte>)
  {
    |frame| >= 1 && frame[|frame| - 1] == Checksum(frame)
  }

  /** The frame with its checksum slot (the last byte) overwritten by its checksum. */
  function Stamp(frame: seq<Byte>): (r: seq<Byte>)
    requires |frame| >= 1
    ensures |r| == |frame| && r[..|r| - 1] == frame[..|frame| - 1]
    ensures r[|r| - 1] == Checksum(frame)
  {
    frame[|frame| - 1 := Checksum(frame)]
  }

  /** The checksum loop of the tester: `crc` accumulates all bytes but the last
      and is reduced modulo 256 at the end. */
  method CalculateChecksum(request: seq<Byte>) returns (crc: Byte)
    ensures |request| >= 1 ==> crc == Sum(request[..|request| - 1]) % 256
    ensures crc == Checksum(request)
  {
    var sum: nat := 0;
    var i := 0;
    while i < |request| - 1
      invariant 0 <= i <= if |request| == 0 then 0 else |request| - 1
      invariant sum == Sum(request[..i])
    {
      assert request[..i + 1] == request[..i] + [request[i]];
      SumSnoc(request[..i], request[i]);
      sum := sum + request[i];
      i := i + 1;
    }
    crc := sum % 256;
  }

  /** The last byte does not take part in the checksum. */
  lemma {:induction false} ChecksumIgnoresLast(body: seq<Byte>, x: Byte, y: Byte)
    ensures Checksum(body + [x]) == Checksum(body + [y]) == Sum(body) % 256
  {
    assert (body + [x])[..|body|] == body;
    assert (body + [y])[..|body|] == body;
  }

  /** Two frames that agree everywhere except perhaps in the checksum slot have
      the same checksum, and stamping them gives the same frame. */
  lemma {:induction false} StampDependsOnBody(a: seq<Byte>, b: seq<Byte>)
    requires |a| == |b| >= 1 && a[..|a| - 1] == b[..|b| - 1]
    ensures Checksum(a) == Checksum(b) && Stamp(a) == Stamp(b)
  {
    var n := |a| - 1;
    assert a == a[..n] + [a[n]] && b == b[..n] + [b[n]];
    ChecksumIgnoresLast(a[..n], a[n], b[n]);
  }

  /** Stamping always yields a frame that passes the checksum test, only the
      checksum slot changes, and a frame passes the test exactly when stamping
      leaves it as it is. */
  lemma {:induction false} StampMakesChecksumOk(frame: seq<Byte>)
    requires |frame| >= 1
    ensures ChecksumOk(Stamp(frame))
    ensures Stamp(Stamp(frame)) == Stamp(frame)
    ensures ChecksumOk(frame) <==> Stamp(frame) == frame
    ensures forall i :: 0 <= i < |frame| - 1 ==> Stamp(frame)[i] == frame[i]
  {
    StampDependsOnBody(frame, Stamp(frame));
  }

  /** An all-zero frame has checksum 0. */
  lemma {:induction false} ZeroFrameChecksum(n: nat)
    ensures Checksum(seq(n, _ => 0)) == 0
  {
    if n > 0 {
      ZeroSum(n - 1);
      assert seq(n, _ => 0)[..n - 1] == seq(n - 1, _ => 0);
    }
  }

  lemma {:induction false} ZeroSum(n: nat)
    ensures Sum(seq(n, _ => 0)) == 0
  {
    if n > 0 {
      assert seq(n, _ => 0)[1..] == seq(n - 1, _ => 0);
      ZeroSum(n - 1);
    }
  }

  /** Concatenation is associative; stated once so that proofs need not
      rediscover it among the other facts they carry. */
  lemma AppendAssoc<T>(a: seq<T>, b: seq<T>, c: seq<T>)
    ensures (a + b) + c == a + (b + c)
  {
  }
}
