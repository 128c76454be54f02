/** The two wake-up routines as functions of the session state: the ISO 9141-2
    style 5-baud address wake-up (slow init) and the ISO 14230 fast-init wake
    pulse followed by StartCommunication, StartDiagnosticSession,
    RequestSeed and SendKey, retried up to five times. */
module Handshake {
  import opened Bytes
  import opened Transport
  import opened FrameExchange
  import opened Catalog
  import opened Cipher

  /** What the wake-up routines change: the adapter, the connected flag, the
      last reply, and the SendKey request buffer (the only request buffer
      whose body they rewrite). */
  datatype Env = Env(port: Port, connected: bool, response: seq<Byte>, keyFrame: seq<Byte>)

  // ---------------------------------------------------------------------
  // Slow init

  const SyncByte: Byte := 0x55
  const KeyByte2: Byte := 0x8F

  /** `a >> i` for a non-negative integer. */
  function Shr(a: nat, i: nat): (r: nat)
  {
    if i == 0 then a else Shr(a / 2, i - 1)
  }

  /** The `n` low bits of `a`, least significant first, as line levels. */
  function LsbLevels(a: nat, n: nat): (levels: seq<Event>)
  {
    seq(n, i requires 0 <= i < n => Level(Shr(a, i) % 2 == 1))
  }

  /** The eight address bits, least significant first, as line levels. */
  function AddressLevels(address: Byte): (levels: seq<Event>)
  {
    LsbLevels(address, 8)
  }

  /** The 5-baud wake-up: line high, start bit low, the address bits, stop bit high. */
  function WakeLevels(address: Byte): (levels: seq<Event>)
  {
    [Level(true), Level(false)] + AddressLevels(address) + [Level(true)]
  }

  /** The 8-bit complement. */
  function Complement(x: Byte): (c: Byte)
  {
    255 - x
  }

  /** The reply to the address wake-up is a sync byte 0x55, keybyte 1 and keybyte 2 == 0x8F. */
  predicate SlowReplyOk(reply: seq<Byte>)
  {
    |reply| >= 3 && reply[0] == SyncByte && reply[2] == KeyByte2
  }

  /** Slow init on an open adapter: wake the ECU with its address, read up to
      three reply bytes, then either answer with the complement of keybyte 2
      and the complement of the address and connect, or close the adapter. */
  function SlowInitSpec(e: Env, address: Byte): (r: Env)
    ensures !e.port.open ==> r == e
    ensures e.port.open ==> |r.response| <= 3 && r.keyFrame == e.keyFrame
    ensures e.port.open && r.port.open ==> r.connected
    ensures e.port.open && !r.port.open ==> r.connected == e.connected
  {
    if !e.port.open then e
    else
      var tx := e.port.tx + [BitBang(true)] + WakeLevels(address) + [BitBang(false), Purge];
      var (reply, rest) := TakeChunk(e.port.rx, 3);
      var port := e.port.(rx := rest, tx := tx);
      if SlowReplyOk(reply) then
        var answer := [Send([Complement(reply[2])]), Send([Complement(address)])];
        e.(port := port.(tx := tx + answer), connected := true, response := reply)
      else
        e.(port := port.(open := false), response := reply)
  }

  /** Levels read least significant bit first, back to a number. */
  function FromLevels(levels: seq<Event>): (a: nat)
  {
    if levels == [] then 0
    else (if levels[0] == Level(true) then 1 else 0) + 2 * FromLevels(levels[1..])
  }

  /** Reading the `n` low bits back from their levels gives the number. */
  lemma {:induction false} LevelsRoundTrip(a: nat, n: nat)
    requires a < Pow2(n)
    ensures FromLevels(LsbLevels(a, n)) == a
  {
    var levels := LsbLevels(a, n);
    if n > 0 {
      var tail := LsbLevels(a / 2, n - 1);
      assert levels[1..] == tail by {
        forall i | 0 <= i < n - 1 ensures levels[1..][i] == tail[i] {
          assert Shr(a, i + 1) == Shr(a / 2, i);
        }
      }
      LevelsRoundTrip(a / 2, n - 1);
    }
  }

  /** The wake-up carries the address: the eight levels between the start
      bit and the stop bit read back, least significant first, as the address. */
  lemma AddressLevelsRoundTrip(address: Byte)
    ensures |AddressLevels(address)| == 8
    ensures FromLevels(AddressLevels(address)) == address
    ensures WakeLevels(address)[2..10] == AddressLevels(address)
  {
    assert Pow2(8) == 256;
    LevelsRoundTrip(address, 8);
  }

  /** On an open adapter slow init connects exactly when the reply passes the
      sync/keybyte check, and closes the adapter otherwise; when it connects,
      the only bytes it sends are the complement of 0x8F and then the
      complement of the address. */
  lemma SlowInitOutcome(e: Env, address: Byte)
    requires e.port.open && !e.connected
    ensures var s := SlowInitSpec(e, address);
            var reply := TakeChunk(e.port.rx, 3).0;
            var wake := e.port.tx + [BitBang(true)] + WakeLevels(address) + [BitBang(false), Purge];
            s.response == reply &&
            (s.connected <==> SlowReplyOk(reply)) &&
            (s.connected <==> s.port.open) &&
            (s.connected ==> s.port.tx == wake + [Send([0x70]), Send([Complement(address)])]) &&
            (!s.connected ==> s.port.tx == wake)
  {
  }

  /** The 8-bit complement is the bitwise NOT. */
  lemma ComplementIsBitwiseNot(x: bv8)
    ensures Complement(x as int) == (!x) as int
  {
  }

  // ---------------------------------------------------------------------
  // Fast init

  const MaxAttempts: nat := 5

  /** The fast-init wake pulse: bit-bang mode, high, low, high, back to the
      serial mode, then a buffer purge. */
  function Pulse(): (levels: seq<Event>)
  {
    [BitBang(true), Level(true), Level(false), Level(true), BitBang(false), Purge]
  }

  /** The seed of a RequestSeed reply, `reply[3] << 8 | reply[4]`. */
  function SeedOf(reply: seq<Byte>): (seed: nat)
    requires |reply| >= 5
    ensures seed < 0x1_0000
  {
    BigEndian(reply[3], reply[4])
  }

  /** The SendKey request buffer once the key for `seed` is in bytes 3 and 4
      and it has been stamped for sending. */
  function KeyFrame(keyFrame: seq<Byte>, seed: nat): (r: seq<Byte>)
    requires |keyFrame| == 6 && seed < 0x1_0000
    ensures |r| == 6
  {
    Stamp(keyFrame[3 := Key(seed).0][4 := Key(seed).1])
  }

  /** The key frame is a well-formed SendKey request carrying the key of the
      seed: its checksum is right, its first three bytes are those of the
      buffer, and the key's high and low byte sit in bytes 3 and 4. */
  lemma KeyFrameCarriesKey(keyFrame: seq<Byte>, seed: nat)
    requires |keyFrame| == 6 && seed < 0x1_0000
    ensures var r := KeyFrame(keyFrame, seed);
            ChecksumOk(r) && r[..3] == keyFrame[..3] && r[3] == Key(seed).0 && r[4] == Key(seed).1
  {
    StampMakesChecksumOk(keyFrame[3 := Key(seed).0][4 := Key(seed).1]);
  }

  /** The captured SendKey request: for seed 0x5225 the SendKey template
      goes out as `04 27 02 14 89 CA`. */
  lemma CapturedKeyFrame()
    ensures KeyFrame(Template(KeyReturn), 0x5225) == [0x04, 0x27, 0x02, 0x14, 0x89, 0xCA]
  {
    CapturedSeedKey();
    var body := [0x04, 0x27, 0x02, 0x14, 0x89, 0x00];
    assert Template(KeyReturn)[3 := 0x14][4 := 0x89] == body;
    assert body[..5] == [0x04, 0x27, 0x02, 0x14, 0x89];
    assert Sum([0x89]) == 0x89 && Sum([0x14, 0x89]) == 0x9D && Sum([0x02, 0x14, 0x89]) == 0x9F;
    assert Sum([0x27, 0x02, 0x14, 0x89]) == 0xC6 && Sum([0x04, 0x27, 0x02, 0x14, 0x89]) == 0xCA;
  }

  /** The request buffer of stage `k` of an attempt (0 StartCommunication,
      1 StartDiagnosticSession, 2 RequestSeed, 3 SendKey) when the SendKey
      buffer holds `kf`. Each is stamped as it is sent. */
  function Frame(k: nat, kf: seq<Byte>): (r: seq<Byte>)
    requires |kf| == 6
    ensures |r| >= 4
  {
    if k == 0 then Template(InitFrame)
    else if k == 1 then Template(StartDiagnostics)
    else if k == 2 then Template(RequestSeed)
    else kf
  }

  /** The reply length of stage `k`. */
  function StageLen(k: nat): (n: nat)
  {
    if k == 0 then ResponseLen(InitFrame)
    else if k == 1 then ResponseLen(StartDiagnostics)
    else if k == 2 then ResponseLen(RequestSeed)
    else ResponseLen(KeyReturn)
  }

  /** The outcome of (the rest of) an attempt: the state after it, whether
      each exchange it made let the attempt go on (for SendKey: connected),
      the replies of those exchanges, in order, and the RequestSeed reply the
      key was computed from, if it got that far. */
  datatype Attempt = Attempt(env: Env, oks: seq<bool>, replies: seq<Reply>, seedReply: seq<Byte>)

  /** An attempt from stage `k` on: the exchange of stage `k`, then what
      follows from its reply. */
  function Stages(e: Env, k: nat): (a: Attempt)
    requires k < 4 && |e.keyFrame| == 6
    ensures 1 <= |a.oks| <= 4 - k && |a.env.keyFrame| == 6 && a.env.port.open == e.port.open
    decreases 4 - k, 1
  {
    Continue(e, k, Exchange(e.port, Stamp(Frame(k, e.keyFrame)), StageLen(k)))
  }

  /** What follows the reply `x` of stage `k`: SendKey decides the connected
      flag; before it, a failed exchange ends the attempt and a successful
      one moves on to the next stage. A RequestSeed reply too short to hold
      bytes 3 and 4 counts as a failure. After RequestSeed the key of the
      seed is written into bytes 3 and 4 of the SendKey buffer. */
  function Continue(e: Env, k: nat, x: Reply): (a: Attempt)
    requires k < 4 && |e.keyFrame| == 6 && x.port.open == e.port.open
    ensures 1 <= |a.oks| <= 4 - k && |a.env.keyFrame| == 6 && a.env.port.open == e.port.open
    decreases 4 - k, 0
  {
    var e1 := e.(port := x.port, response := x.response);
    if k == 3 then Attempt(e1.(connected := x.ok), [x.ok], [x], [])
    else if !x.ok || (k == 2 && |x.response| < 5) then Attempt(e1, [false], [x], [])
    else if k == 2 then
      var r := Stages(e1.(keyFrame := KeyFrame(e.keyFrame, SeedOf(x.response))), 3);
      Attempt(r.env, [true] + r.oks, [x] + r.replies, x.response)
    else
      var r := Stages(e1, k + 1);
      Attempt(r.env, [true] + r.oks, [x] + r.replies, r.seedReply)
  }

  /** One attempt: the wake pulse, then the four stages. */
  function RunAttempt(e: Env): (a: Attempt)
    requires |e.keyFrame| == 6
    ensures 1 <= |a.oks| <= 4 && |a.env.keyFrame| == 6 && a.env.port.open == e.port.open
  {
    Stages(e.(port := e.port.(tx := e.port.tx + Pulse())), 0)
  }

  // The frames sent by stages `k` to `k + n - 1`.
  function Sent(kf: seq<Byte>, k: nat, n: nat): (tx: seq<Event>)
    requires |kf| == 6
    decreases n
  {
    if n == 0 then [] else [Send(Stamp(Frame(k, kf)))] + Sent(kf, k + 1, n - 1)
  }

  lemma SentCons(t: seq<Event>, kf: seq<Byte>, k: nat, frame: seq<Byte>, tx: seq<Event>, m: nat, n: nat)
    requires |kf| == 6 && Stamp(Frame(k, kf)) == frame && tx == t + [Send(frame)] + Sent(kf, k + 1, m)
    requires n == m + 1
    ensures tx == t + Sent(kf, k, n)
  {
    assert Sent(kf, k, n) == [Send(frame)] + Sent(kf, k + 1, m);
  }

  /** The stages from `k` on send their frames in stage order and nothing else. */
  lemma {:induction false} StagesTrace(e: Env, k: nat)
    requires k < 4 && |e.keyFrame| == 6
    ensures var a := Stages(e, k); a.env.port.tx == e.port.tx + Sent(a.env.keyFrame, k, |a.oks|)
    decreases 4 - k, 2
  {
    ContinueTrace(e, k, Exchange(e.port, Stamp(Frame(k, e.keyFrame)), StageLen(k)));
  }

  lemma {:induction false} ContinueTrace(e: Env, k: nat, x: Reply)
    requires k < 4 && |e.keyFrame| == 6
    requires x.port.open == e.port.open && x.port.tx == e.port.tx + [Send(Stamp(Frame(k, e.keyFrame)))]
    ensures var a := Continue(e, k, x); a.env.port.tx == e.port.tx + Sent(a.env.keyFrame, k, |a.oks|)
    decreases 4 - k, 1
  {
    if k == 3 {
      var a := Continue(e, k, x);
      assert Sent(a.env.keyFrame, 3, 1) == [Send(Stamp(Frame(k, e.keyFrame)))];
    } else if !x.ok || (k == 2 && |x.response| < 5) {
      var a := Continue(e, k, x);
      assert Frame(k, a.env.keyFrame) == Frame(k, e.keyFrame);
      assert Sent(a.env.keyFrame, k, 1) == [Send(Stamp(Frame(k, e.keyFrame)))];
    } else if k == 2 {
      ContinueTraceKey(e, x);
    } else {
      ContinueTraceOn(e, k, x);
    }
  }

  lemma {:induction false} ContinueTraceOn(e: Env, k: nat, x: Reply)
    requires k < 2 && |e.keyFrame| == 6 && x.ok
    requires x.port.open == e.port.open && x.port.tx == e.port.tx + [Send(Stamp(Frame(k, e.keyFrame)))]
    ensures var a := Continue(e, k, x); a.env.port.tx == e.port.tx + Sent(a.env.keyFrame, k, |a.oks|)
    decreases 4 - k, 0
  {
    var e1 := e.(port := x.port, response := x.response);
    var r := Stages(e1, k + 1);
    var a := Continue(e, k, x);
    ContinueOn(e, k, x);
    assert a.env == r.env && |a.oks| == |r.oks| + 1;
    StagesTrace(e1, k + 1);
    SentCons(e.port.tx, a.env.keyFrame, k, Stamp(Frame(k, e.keyFrame)), a.env.port.tx, |r.oks|, |a.oks|);
  }

  /** A successful exchange before RequestSeed moves on to the next stage. */
  lemma ContinueOn(e: Env, k: nat, x: Reply)
    requires k < 2 && |e.keyFrame| == 6 && x.ok && x.port.open == e.port.open
    ensures var r := Stages(e.(port := x.port, response := x.response), k + 1);
            Continue(e, k, x) == Attempt(r.env, [true] + r.oks, [x] + r.replies, r.seedReply)
  {
  }

  lemma {:induction false} ContinueTraceKey(e: Env, x: Reply)
    requires |e.keyFrame| == 6 && x.ok && |x.response| >= 5
    requires x.port.open == e.port.open && x.port.tx == e.port.tx + [Send(Stamp(Frame(2, e.keyFrame)))]
    ensures var a := Continue(e, 2, x); a.env.port.tx == e.port.tx + Sent(a.env.keyFrame, 2, |a.oks|)
    decreases 2, 0
  {
    var a := Continue(e, 2, x);
    var e2 := e.(port := x.port, response := x.response, keyFrame := KeyFrame(e.keyFrame, SeedOf(x.response)));
    var r := Stages(e2, 3);
    assert a.env == r.env && |a.oks| == |r.oks| + 1;
    StagesTrace(e2, 3);
    SentCons(e.port.tx, a.env.keyFrame, 2, Stamp(Frame(2, e.keyFrame)), a.env.port.tx, |r.oks|, |a.oks|);
  }

  /** The results of the exchanges from stage `k` on: every one but the
      last succeeded, and one that ended the attempt before SendKey failed. */
  predicate ShortCircuit(k: nat, oks: seq<bool>)
    requires k < 4
  {
    var n := |oks|;
    1 <= n <= 4 - k && (forall j :: 0 <= j < n - 1 ==> oks[j]) && (n < 4 - k ==> !oks[n - 1])
  }

  lemma ShortCircuitCons(k: nat, oks: seq<bool>)
    requires k < 3 && ShortCircuit(k + 1, oks)
    ensures ShortCircuit(k, [true] + oks)
  {
    assert forall j :: 1 <= j < |oks| + 1 ==> ([true] + oks)[j] == oks[j - 1];
  }

  /** `replies` are the replies of the exchanges of stages `k`, `k + 1`, ...
      in turn, each made on the adapter the exchange before it left, with the
      SendKey buffer holding `kf` by the time SendKey is sent. */
  ghost predicate Chained(port: Port, k: nat, kf: seq<Byte>, replies: seq<Reply>)
    requires |kf| == 6
    decreases |replies|
  {
    replies == [] ||
    (k < 4 && replies[0] == Exchange(port, Stamp(Frame(k, kf)), StageLen(k)) &&
     Chained(replies[0].port, k + 1, kf, replies[1..]))
  }

  /** One reply per result, and the exchange of stage `k + j` let the
      attempt go on exactly when its reply was accepted and, for RequestSeed,
      is at least five bytes long. */
  predicate Verdicts(k: nat, oks: seq<bool>, replies: seq<Reply>)
  {
    |replies| == |oks| &&
    forall j :: 0 <= j < |oks| ==>
      oks[j] == (replies[j].ok && (k + j == 2 ==> |replies[j].response| >= 5))
  }

  lemma VerdictsCons(k: nat, x: Reply, oks: seq<bool>, replies: seq<Reply>)
    requires Verdicts(k + 1, oks, replies) && x.ok && (k == 2 ==> |x.response| >= 5)
    ensures Verdicts(k, [true] + oks, [x] + replies)
  {
    var oks', replies' := [true] + oks, [x] + replies;
    forall j | 1 <= j < |oks'|
      ensures oks'[j] == (replies'[j].ok && (k + j == 2 ==> |replies'[j].response| >= 5))
    {
      assert oks'[j] == oks[j - 1] && replies'[j] == replies[j - 1];
    }
  }

  /** What an attempt from stage `k` promises about its outcome `a`, given
      its replies: each exchange let the attempt go on exactly when its reply
      was accepted and, for RequestSeed, at least five bytes long; every
      exchange but the last did, and an attempt that ended before SendKey
      ended on one that did not; the adapter and the last reply are those of
      the last exchange; the connected flag is the result of SendKey when it
      was reached and is untouched otherwise; and the SendKey buffer holds the
      key of the RequestSeed reply exactly when RequestSeed succeeded in this
      attempt. `Chained` says where the replies come from. */
  ghost predicate Shaped(e: Env, k: nat, a: Attempt)
    requires k < 4 && |e.keyFrame| == 6
  {
    var n := |a.oks|;
    ShortCircuit(k, a.oks) &&
    Verdicts(k, a.oks, a.replies) &&
    a.env.port == a.replies[n - 1].port && a.env.response == a.replies[n - 1].response &&
    a.env.connected == (if k + n == 4 then a.oks[n - 1] else e.connected) &&
    if k <= 2 && k + n == 4 then
      a.seedReply == a.replies[2 - k].response &&
      |a.seedReply| >= 5 && ChecksumOk(a.seedReply) &&
      a.env.keyFrame == KeyFrame(e.keyFrame, SeedOf(a.seedReply))
    else
      a.seedReply == [] && a.env.keyFrame == e.keyFrame
  }

  lemma {:induction false} StagesShape(e: Env, k: nat)
    requires k < 4 && |e.keyFrame| == 6
    ensures Shaped(e, k, Stages(e, k))
    decreases 4 - k, 2
  {
    ContinueShape(e, k, Exchange(e.port, Stamp(Frame(k, e.keyFrame)), StageLen(k)));
  }

  lemma {:induction false} ContinueShape(e: Env, k: nat, x: Reply)
    requires k < 4 && |e.keyFrame| == 6 && x.port.open == e.port.open
    requires x.ok ==> ChecksumOk(x.response)
    ensures Shaped(e, k, Continue(e, k, x))
    decreases 4 - k, 1
  {
    if k == 3 || !x.ok || (k == 2 && |x.response| < 5) {
      ShapedStop(e, k, x);
    } else if k == 2 {
      ContinueShapeSeed(e, x);
    } else {
      ContinueShapeOn(e, k, x);
    }
  }

  lemma {:induction false} ContinueShapeSeed(e: Env, x: Reply)
    requires |e.keyFrame| == 6 && x.port.open == e.port.open
    requires x.ok && |x.response| >= 5 && ChecksumOk(x.response)
    ensures Shaped(e, 2, Continue(e, 2, x))
    decreases 2, 0
  {
    var e2 := e.(port := x.port, response := x.response, keyFrame := KeyFrame(e.keyFrame, SeedOf(x.response)));
    ContinueSeed(e, x);
    StagesShape(e2, 3);
    ShapedSeed(e, e2, Stages(e2, 3), x, Continue(e, 2, x));
  }

  lemma {:induction false} ContinueShapeOn(e: Env, k: nat, x: Reply)
    requires k < 2 && |e.keyFrame| == 6 && x.port.open == e.port.open && x.ok
    ensures Shaped(e, k, Continue(e, k, x))
    decreases 4 - k, 0
  {
    var e1 := e.(port := x.port, response := x.response);
    ContinueOn(e, k, x);
    StagesShape(e1, k + 1);
    ShapedCons(e, e1, k, Stages(e1, k + 1), x, Continue(e, k, x));
  }

  /** An accepted RequestSeed reply long enough to hold a seed moves on to
      SendKey with the key of the seed in the SendKey buffer. */
  lemma ContinueSeed(e: Env, x: Reply)
    requires |e.keyFrame| == 6 && x.ok && |x.response| >= 5 && x.port.open == e.port.open
    ensures var r := Stages(e.(port := x.port, response := x.response, keyFrame := KeyFrame(e.keyFrame, SeedOf(x.response))), 3);
            Continue(e, 2, x) == Attempt(r.env, [true] + r.oks, [x] + r.replies, x.response)
  {
  }

  /** An attempt that ends at stage `k`: SendKey, or an exchange that failed. */
  lemma ShapedStop(e: Env, k: nat, x: Reply)
    requires k < 4 && |e.keyFrame| == 6 && x.port.open == e.port.open
    requires k == 3 || !x.ok || (k == 2 && |x.response| < 5)
    ensures Shaped(e, k, Continue(e, k, x))
  {
    var a := Continue(e, k, x);
    assert |a.oks| == 1 && a.oks[0] == (k == 3 && x.ok) && a.replies == [x];
    assert a.seedReply == [] && a.env.keyFrame == e.keyFrame;
  }

  /** The replies of stage `k` followed by those of the stages after it are
      chained from the adapter before stage `k`. */
  lemma ChainedCons(port: Port, k: nat, kf: seq<Byte>, x: Reply, rs: seq<Reply>)
    requires k < 4 && |kf| == 6 && x == Exchange(port, Stamp(Frame(k, kf)), StageLen(k))
    requires Chained(x.port, k + 1, kf, rs)
    ensures Chained(port, k, kf, [x] + rs)
  {
    assert ([x] + rs)[1..] == rs;
  }

  /** The replies of the stages from `k` on are chained from the adapter of `e`. */
  lemma {:induction false} StagesChain(e: Env, k: nat)
    requires k < 4 && |e.keyFrame| == 6
    ensures var a := Stages(e, k); |a.env.keyFrame| == 6 && Chained(e.port, k, a.env.keyFrame, a.replies)
    decreases 4 - k, 2
  {
    ContinueChain(e, k, Exchange(e.port, Stamp(Frame(k, e.keyFrame)), StageLen(k)));
  }

  lemma {:induction false} ContinueChain(e: Env, k: nat, x: Reply)
    requires k < 4 && |e.keyFrame| == 6 && x == Exchange(e.port, Stamp(Frame(k, e.keyFrame)), StageLen(k))
    ensures var a := Continue(e, k, x); |a.env.keyFrame| == 6 && Chained(e.port, k, a.env.keyFrame, a.replies)
    decreases 4 - k, 1
  {
    if k == 3 || !x.ok || (k == 2 && |x.response| < 5) {
      ChainStop(e, k, x);
    } else if k == 2 {
      ChainSeed(e, x);
    } else {
      ChainOn(e, k, x);
    }
  }

  lemma ChainStop(e: Env, k: nat, x: Reply)
    requires k < 4 && |e.keyFrame| == 6 && x == Exchange(e.port, Stamp(Frame(k, e.keyFrame)), StageLen(k))
    requires k == 3 || !x.ok || (k == 2 && |x.response| < 5)
    ensures var a := Continue(e, k, x); |a.env.keyFrame| == 6 && Chained(e.port, k, a.env.keyFrame, a.replies)
  {
    var a := Continue(e, k, x);
    assert a.replies == [x] && a.env.keyFrame == e.keyFrame;
    ChainedCons(e.port, k, e.keyFrame, x, []);
  }

  lemma {:induction false} ChainSeed(e: Env, x: Reply)
    requires |e.keyFrame| == 6 && x == Exchange(e.port, Stamp(Frame(2, e.keyFrame)), StageLen(2))
    requires x.ok && |x.response| >= 5
    ensures var a := Continue(e, 2, x); |a.env.keyFrame| == 6 && Chained(e.port, 2, a.env.keyFrame, a.replies)
    decreases 2, 0
  {
    var e2 := e.(port := x.port, response := x.response, keyFrame := KeyFrame(e.keyFrame, SeedOf(x.response)));
    ContinueSeed(e, x);
    StagesChain(e2, 3);
    var r := Stages(e2, 3);
    assert Frame(2, r.env.keyFrame) == Frame(2, e.keyFrame) && e2.port == x.port;
    ChainedCons(e.port, 2, r.env.keyFrame, x, r.replies);
  }

  lemma {:induction false} ChainOn(e: Env, k: nat, x: Reply)
    requires k < 2 && |e.keyFrame| == 6 && x == Exchange(e.port, Stamp(Frame(k, e.keyFrame)), StageLen(k)) && x.ok
    ensures var a := Continue(e, k, x); |a.env.keyFrame| == 6 && Chained(e.port, k, a.env.keyFrame, a.replies)
    decreases 4 - k, 0
  {
    var e1 := e.(port := x.port, response := x.response);
    ContinueOn(e, k, x);
    StagesChain(e1, k + 1);
    var r := Stages(e1, k + 1);
    assert Frame(k, r.env.keyFrame) == Frame(k, e.keyFrame) && e1.port == x.port;
    ChainedCons(e.port, k, r.env.keyFrame, x, r.replies);
  }

  lemma ShapedCons(e: Env, e1: Env, k: nat, r: Attempt, x: Reply, a: Attempt)
    requires k < 2 && |e.keyFrame| == 6 && x.ok && e1 == e.(port := x.port, response := x.response)
    requires Shaped(e1, k + 1, r) && a == Attempt(r.env, [true] + r.oks, [x] + r.replies, r.seedReply)
    ensures Shaped(e, k, a)
  {
    ShortCircuitCons(k, r.oks);
    VerdictsCons(k, x, r.oks, r.replies);
    assert a.oks[|a.oks| - 1] == r.oks[|r.oks| - 1] && a.replies[|a.oks| - 1] == r.replies[|r.oks| - 1];
    if k + |a.oks| == 4 {
      assert a.replies[2 - k] == r.replies[2 - (k + 1)];
    }
  }

  lemma ShapedSeed(e: Env, e2: Env, r: Attempt, x: Reply, a: Attempt)
    requires |e.keyFrame| == 6 && x.ok && |x.response| >= 5 && ChecksumOk(x.response)
    requires e2 == e.(port := x.port, response := x.response, keyFrame := KeyFrame(e.keyFrame, SeedOf(x.response)))
    requires Shaped(e2, 3, r) && a == Attempt(r.env, [true] + r.oks, [x] + r.replies, x.response)
    ensures Shaped(e, 2, a)
  {
    ShortCircuitCons(2, r.oks);
    VerdictsCons(2, x, r.oks, r.replies);
    assert a.oks[|a.oks| - 1] == r.oks[|r.oks| - 1] && a.replies[|a.oks| - 1] == r.replies[|r.oks| - 1];
  }

  /** One attempt, in full: the wake pulse goes out first, then the frames
      of the stages reached, in order; the exchanges, made one after the
      other from the adapter as the pulse left it, short-circuit as `Shaped`
      says. */
  lemma AttemptShortCircuits(e: Env)
    requires |e.keyFrame| == 6
    ensures var p0 := e.(port := e.port.(tx := e.port.tx + Pulse()));
            var a := RunAttempt(e);
            Shaped(p0, 0, a) && |a.env.keyFrame| == 6 && Chained(p0.port, 0, a.env.keyFrame, a.replies) &&
            a.env.port.tx == e.port.tx + Pulse() + Sent(a.env.keyFrame, 0, |a.oks|)
  {
    var p0 := e.(port := e.port.(tx := e.port.tx + Pulse()));
    StagesShape(p0, 0);
    StagesChain(p0, 0);
    StagesTrace(p0, 0);
  }

  // Stage by stage: how the state after an attempt from stage `k` follows
  // from the reply `x` of that stage.

  lemma StageFails(e: Env, k: nat, x: Reply)
    requires k < 3 && |e.keyFrame| == 6 && x == Exchange(e.port, Stamp(Frame(k, e.keyFrame)), StageLen(k))
    requires !x.ok || (k == 2 && |x.response| < 5)
    ensures Stages(e, k).env == e.(port := x.port, response := x.response)
  {
  }

  lemma StagePasses(e: Env, k: nat, x: Reply)
    requires k < 2 && |e.keyFrame| == 6 && x == Exchange(e.port, Stamp(Frame(k, e.keyFrame)), StageLen(k))
    requires x.ok
    ensures Stages(e, k).env == Stages(e.(port := x.port, response := x.response), k + 1).env
  {
  }

  lemma SeedStage(e: Env, x: Reply)
    requires |e.keyFrame| == 6 && x == Exchange(e.port, Stamp(Frame(2, e.keyFrame)), StageLen(2))
    requires x.ok && |x.response| >= 5
    ensures Stages(e, 2).env ==
            Stages(e.(port := x.port, response := x.response, keyFrame := KeyFrame(e.keyFrame, SeedOf(x.response))), 3).env
  {
  }

  lemma KeyStage(e: Env, x: Reply)
    requires |e.keyFrame| == 6 && x == Exchange(e.port, Stamp(Frame(3, e.keyFrame)), StageLen(3))
    ensures Stages(e, 3).env == e.(port := x.port, response := x.response, connected := x.ok)
  {
  }

  /** One attempt as a transformation of the session state. The SendKey
      buffer is six bytes long in every session; a state whose buffer is not
      is left as it is. */
  function AttemptEnv(e: Env): (r: Env)
    ensures r.port.open == e.port.open
    ensures |e.keyFrame| == 6 ==> |r.keyFrame| == 6
  {
    if |e.keyFrame| == 6 then RunAttempt(e).env else e
  }

  lemma AttemptStages(e: Env)
    requires |e.keyFrame| == 6
    ensures AttemptEnv(e) == Stages(e.(port := e.port.(tx := e.port.tx + Pulse())), 0).env
  {
  }

  /** The state after `k` attempts in a row, each made by `next`. */
  function Iterate(next: Env -> Env, e: Env, k: nat): (r: Env)
  {
    if k == 0 then e else next(Iterate(next, e, k - 1))
  }

  /** The retry loop from attempt number `attempt` on: attempt, stop on the
      first success, give up after `MaxAttempts`. Returns the final state and
      the number of attempts made. */
  function Retry(next: Env -> Env, e: Env, attempt: nat): (r: (Env, nat))
    ensures attempt >= MaxAttempts ==> r == (e, attempt)
    ensures attempt < MaxAttempts ==> attempt < r.1 <= MaxAttempts
    ensures r.1 < MaxAttempts ==> r.0.connected
    decreases MaxAttempts - attempt
  {
    if attempt >= MaxAttempts then (e, attempt)
    else
      var a := next(e);
      if a.connected then (a, attempt + 1) else Retry(next, a, attempt + 1)
  }

  /** One attempt of the retry loop: after attempt `a` of the `attempt`-th
      round, the loop stops on success, and otherwise goes on from `a`. */
  lemma RetryStep(next: Env -> Env, e: Env, a: Env, attempt: nat)
    requires attempt < MaxAttempts && a == next(e)
    ensures a.connected ==> Retry(next, e, attempt) == (a, attempt + 1)
    ensures !a.connected ==> Retry(next, e, attempt) == Retry(next, a, attempt + 1)
  {
  }

  /** Fast init: nothing without an adapter; otherwise the retry loop, and the
      adapter is closed if no attempt connected. Also returns the number of
      attempts made. */
  function FastInitSpec(e: Env): (r: (Env, nat))
    ensures !e.port.open ==> r == (e, 0)
    ensures e.port.open ==> 1 <= r.1 <= MaxAttempts
    ensures e.port.open && !r.0.connected ==> !r.0.port.open
    ensures e.port.open && r.1 < MaxAttempts ==> r.0.connected
  {
    if !e.port.open then (e, 0)
    else
      var (f, n) := Retry(AttemptEnv, e, 0);
      (if f.connected then f else f.(port := f.port.(open := false)), n)
  }

  /** The retry loop from attempt `k` on is attempt after attempt until the
      first that connects, and never more than `MaxAttempts` in all. */
  lemma {:induction false} RetryStopsAtFirstSuccess(next: Env -> Env, e0: Env, k: nat)
    requires k < MaxAttempts
    requires forall j :: 0 < j <= k ==> !Iterate(next, e0, j).connected
    ensures var r := Retry(next, Iterate(next, e0, k), k);
            k < r.1 <= MaxAttempts && r.0 == Iterate(next, e0, r.1) &&
            (forall j :: 0 < j < r.1 ==> !Iterate(next, e0, j).connected) &&
            (r.0.connected || r.1 == MaxAttempts)
    decreases MaxAttempts - k
  {
    if !Iterate(next, e0, k + 1).connected && k + 1 < MaxAttempts {
      RetryStopsAtFirstSuccess(next, e0, k + 1);
    }
  }

  /** Attempts that never open or close the adapter do not, in any number. */
  lemma {:induction false} IterateKeepsPort(next: Env -> Env, e: Env, k: nat)
    requires forall x: Env :: next(x).port.open == x.port.open
    ensures Iterate(next, e, k).port.open == e.port.open
  {
    if k > 0 {
      IterateKeepsPort(next, e, k - 1);
    }
  }

  /** Fast init on an open adapter makes between one and five attempts,
      stops at the first one that connects, and leaves the adapter open
      exactly when it connected. */
  lemma FastInitOutcome(e: Env)
    requires |e.keyFrame| == 6 && e.port.open
    ensures var (f, n) := FastInitSpec(e);
            1 <= n <= MaxAttempts &&
            (f.connected <==> Iterate(AttemptEnv, e, n).connected) &&
            (f.connected <==> f.port.open) &&
            (forall j :: 0 < j < n ==> !Iterate(AttemptEnv, e, j).connected) &&
            (!f.connected ==> n == MaxAttempts)
  {
    RetryStopsAtFirstSuccess(AttemptEnv, e, 0);
    IterateKeepsPort(AttemptEnv, e, Retry(AttemptEnv, e, 0).1);
  }
}
