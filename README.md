# TD5 tester: a verified model of the protocol engine

TD5Tester talks to the engine control unit (ECU) of a Land Rover Td5 diesel
over the K-line, through an FTDI serial adapter. This project models its
protocol engine:

- the additive frame checksum;
- the chunked read with a deadline;
- the request/response exchange (`get_pid`);
- the SecurityAccess seed-to-key cipher (`calculate_key`);
- the two wake-up routines: the 5-baud address wake-up (`slow_init`) and the
  fast-init pulse (`fast_init`). Fast init sends StartCommunication,
  StartDiagnosticSession, RequestSeed and SendKey, and is retried up to five
  times;
- the PID table and the polling record the data logger assembles
  (`start_logger`).

Modules:

| Module | File | What it holds |
|---|---|---|
| `Bytes` | `bytes.dfy` | the checksum, and stamping it into the last byte of a frame |
| `Transport` | `transport.dfy` | the adapter as a value (`Port`), the chunked read `ReadData` and the loop `ReadChunks` |
| `FrameExchange` | `exchange.dfy` | one exchange (`Exchange`) and the loop that performs it (`Transact`) |
| `Catalog` | `catalog.dfy` | the PID table, the polled PIDs in order, and where each raw value sits in its reply |
| `Cipher` | `cipher.dfy` | the shift-register key cipher and the `CalculateKey` loop |
| `Handshake` | `handshake.dfy` | slow init and fast init as functions of the session state |
| `Logger` | `logger.dfy` | polling cycles and runs of cycles as functions |
| `Tester` | `session.dfy` | the session as a class |
| `Findings` | `findings.dfy` | the code as written where it departs from its evident intent |

The `Tester` class keeps the adapter, the connected flag and the last reply as
fields. Each PID's request buffer is an `array` that is stamped in place. Each
method is proved to equal the corresponding function of the other modules.

The adapter is a value. It holds:

- an open/closed flag;
- the chunks that successive reads return;
- the answers of the deadline check;
- the trace of everything driven onto the line: levels, mode switches, purges
  and frames.

Time, the FTDI device and the ECU therefore become inputs, and every property
holds for all chunkings and all deadline outcomes.

The iteration count of the key cipher is computed at TD5Tester.py:133. In
Python `>>` binds tighter than `&`, so each term shifts the seed first and then
masks it with 8, 4, 2 or 1. The four terms therefore select bits 15, 7, 4 and 0
of the seed, with weights 8, 4, 2 and 1, as `Cipher.IterationCountBits` states.

## Model

| member | source | states |
|---|---|---|
| Bytes.CalculateChecksum | TD5Tester.py:50-57 | the result is the sum of every byte but the last, modulo 256 (0 for an empty frame) |
| Bytes.StampMakesChecksumOk | TD5Tester.py:94-95 | after the checksum is written into the last byte, the frame passes the checksum test; stamping twice is stamping once; a frame passes exactly when stamping leaves it unchanged; only the last byte changes |
| Bytes.StampDependsOnBody | TD5Tester.py:94-95 | two frames that differ only in the checksum slot have the same checksum and stamp to the same frame, so re-sending a buffer is deterministic |
| Transport.TakeChunk | TD5Tester.py:73 | one adapter read returns at most the bytes asked for, and what it returns followed by what stays queued is the stream it read from |
| Transport.ReadData | TD5Tester.py:68-84 | the bytes read are a prefix of the adapter's stream, with nothing lost or reordered; never more than requested; short exactly when the read ended on the deadline, which only a timed read can |
| Transport.ReadChunks | TD5Tester.py:68-84 | the read loop returns the data, the remaining chunks and the remaining deadline answers that `ReadData` specifies |
| Transport.ReadOnce | TD5Tester.py:73-82 | one round of the read loop either stops, holding exactly the data, chunks and deadline answers of the whole read, or goes on with fewer chunks and answers left, so that the bytes read so far followed by the rest of the read are the whole read |
| Transport.ReadDataClock | TD5Tester.py:78-82 | the read consumes a prefix of the deadline answers, all "not yet" except possibly the last; a read that ends on the deadline consumed a "passed" answer or used them all up |
| Transport.ReadDataFull | TD5Tester.py:72-77 | when the deadline never passes while the adapter still delivers, the read returns exactly the first `size` bytes of the stream |
| FrameExchange.StripEcho | TD5Tester.py:116 | cutting off the echo leaves nothing when the read is no longer than the request, and otherwise leaves the bytes that follow the request's length |
| FrameExchange.Exchange | TD5Tester.py:102-128 | one frame is sent and nothing else; the reply is no longer than the expected length; whatever the deadline cut off, the exchange succeeds if and only if the reply has at least two bytes, a correct checksum and no negative-response code at index 1 |
| FrameExchange.Transact | TD5Tester.py:102-128 | the read, echo-stripping and acceptance steps give exactly the reply and verdict of `Exchange` |
| FrameExchange.ReplyFollowsEcho | TD5Tester.py:110-116 | a non-empty reply is the bytes the adapter delivered right after the echo's length, and the adapter is left holding exactly what followed the reply |
| FrameExchange.EchoOnlyRejected | TD5Tester.py:116-126 | a read that brings back no more than the echo and one byte, because the adapter had no more or the deadline cut it short, leaves a reply of at most one byte and is always rejected |
| FrameExchange.FullReply | TD5Tester.py:110-126 | when echo and full reply arrive before the deadline, the reply comes back exactly, and the exchange succeeds if and only if the reply is at least two bytes long, passes the checksum and is not a negative response |
| Catalog.Table | TD5Tester.py:14-33 | every request template has at least four bytes and every PID expects a reply of at least three |
| Catalog.TableFrames | TD5Tester.py:17-33 | every template is a KWP2000 frame whose format byte announces its length (low six bits the data bytes, plus two address bytes when the top bit is set, plus header and checksum); the polled PIDs are service 0x21 requests with an empty checksum slot |
| Catalog.Layout | TD5Tester.py:307-346 | a PID has fields to record exactly when the logger polls it; `LayoutsInsideReply`, `AllTempsStride` and `Logger.DecodeRecoversBytes` fix where each field sits |
| Catalog.ShiftOrIsBigEndian | TD5Tester.py:308 | shifting the high byte left by 8 and or-ing in the low byte gives the big-endian word `256 * hi + lo` |
| Catalog.Decode | TD5Tester.py:307-346 | decoding a layout gives one value per field, each below 2^16, and a single-byte field below 256 |
| Catalog.LayoutsInsideReply | TD5Tester.py:307-346 | each polled PID has fields, and each field offset lies inside the PID's expected reply, before its checksum byte |
| Catalog.AllTempsStride | TD5Tester.py:320-324 | the four temperatures are words in consecutive 4-byte slots starting at offset 3 (see Findings) |
| Catalog.HandshakeTemplatesStamped | TD5Tester.py:19-21 | the StartCommunication, StartDiagnosticSession and RequestSeed templates already carry correct checksums |
| Catalog.BatteryVoltageExample | TD5Tester.py:307-308 | a battery reply with 0x34 0xBC at offsets 5 and 6 decodes to the raw value 13500 |
| Cipher.IterationCount | TD5Tester.py:133 | the iteration count of a 16-bit seed lies between 1 and 16 |
| Cipher.IterationCountBits | TD5Tester.py:133 | the iteration count is 1 + 8·bit 15 + 4·bit 7 + 2·bit 4 + bit 0 of the seed |
| Cipher.ClockOnce | TD5Tester.py:136-142 | one pass of the loop body (tap, shift, then clear or set bit 0) gives the register that `Step` describes |
| Cipher.CalculateKey | TD5Tester.py:131-144 | the loop clocks the seed `IterationCount(seed)` times and returns the high and low byte of the register |
| Cipher.Step | TD5Tester.py:136-142 | one clock keeps the register within 16 bits; its bits are stated by the three lemmas below |
| Cipher.Clock | TD5Tester.py:135-142 | any number of clocks keeps the register within 16 bits |
| Cipher.StepFeedback | TD5Tester.py:136-137 | after one clock, bit 15 is the parity of old bits 1, 2, 8 and 9 |
| Cipher.StepShifts | TD5Tester.py:137 | after one clock, bits 1 to 14 are old bits 2 to 15 |
| Cipher.StepLowBit | TD5Tester.py:139-142 | after one clock, bit 0 is cleared exactly when old bits 3 and 13 were both set |
| Cipher.CapturedSeedKey | TD5Tester.py:270-272 | the captured seed 0x5225 is clocked twice and gives the key bytes 0x14 0x89 |
| Handshake.CapturedKeyFrame | TD5Tester.py:270-272 | for the captured seed 0x5225 the SendKey request goes out as `04 27 02 14 89 CA`, as in the trace |
| Handshake.AddressLevelsRoundTrip | TD5Tester.py:194-198 | the eight levels between the start and stop bits read back, least significant first, as the address |
| Handshake.LevelsRoundTrip | TD5Tester.py:195-197 | the `n` low bits sent least significant first decode back to the number |
| Handshake.SlowInitSpec | TD5Tester.py:181-230 | without an adapter nothing changes; otherwise the reply kept is at most three bytes, the SendKey buffer is untouched, an adapter left open means a connection, and a closed one leaves the connected flag as it was |
| Handshake.SlowInitOutcome | TD5Tester.py:181-230 | on an open adapter, slow init connects if and only if the three-byte reply is 0x55, any byte, 0x8F, and then the adapter stays open; the only bytes it answers with are 0x70 (the complement of 0x8F) and the complement of the address; otherwise it closes the adapter and sends nothing after the wake-up |
| Handshake.ComplementIsBitwiseNot | TD5Tester.py:214-215 | the 8-bit complement `255 - x` is the bitwise NOT of the byte |
| Handshake.SeedOf | TD5Tester.py:276 | the seed read from reply bytes 3 and 4 is a 16-bit value |
| Handshake.KeyFrameCarriesKey | TD5Tester.py:276-280 | the SendKey frame keeps its first three bytes, carries the key's high and low byte in bytes 3 and 4, and passes the checksum test |
| Handshake.Continue | TD5Tester.py:275-283 | after the reply of one stage, the attempt makes at most the remaining exchanges, keeps the SendKey buffer six bytes long, and never opens or closes the adapter |
| Handshake.AttemptShortCircuits | TD5Tester.py:247-283 | an attempt sends the pulse and then the stage frames in order; its replies are those of the stage exchanges made one after the other from the adapter the pulse left; an exchange lets the attempt go on exactly when its reply is accepted (and, for RequestSeed, at least five bytes long); the attempt stops at the first that does not; the adapter and last reply are those of the last exchange; only SendKey's result sets the connected flag; when SendKey is reached, its frame carries the key of the RequestSeed reply of that attempt |
| Handshake.StagesChain | TD5Tester.py:275-280 | the replies of an attempt's stages are chained: each is the exchange of its stage's frame on the adapter the exchange before it left, SendKey with the key frame the attempt computed |
| Handshake.AttemptEnv | TD5Tester.py:248-283 | one attempt never opens or closes the adapter and keeps the SendKey buffer six bytes long; `AttemptShortCircuits` says what it does |
| Handshake.Retry | TD5Tester.py:246-285 | the retry loop from attempt number `attempt` ends after between one more attempt and the fifth, and when it ends before the fifth, the last attempt connected |
| Handshake.RetryStopsAtFirstSuccess | TD5Tester.py:246-285 | the retry loop makes attempt after attempt, stops at the first that connects, and never makes more than five |
| Handshake.FastInitSpec | TD5Tester.py:240-290 | without an adapter nothing happens; otherwise between one and five attempts are made, a run that ends before the fifth connected, and a run that did not connect closes the adapter |
| Handshake.FastInitOutcome | TD5Tester.py:240-290 | fast init on an open adapter makes between one and five attempts; it connects if and only if its last attempt did; every earlier attempt failed; it gives up only after five; the adapter stays open exactly when it connected |
| Logger.Fields | TD5Tester.py:307-346 | a polled PID adds nothing when its exchange failed, and otherwise either nothing or one value per field of its layout, each below 2^16 |
| Logger.PollSends | TD5Tester.py:307-346 | a polling cycle sends the stamped request of every PID in order, whether or not earlier exchanges succeeded, and nothing else |
| Logger.PollRecord | TD5Tester.py:307-346 | a record holds at most as many values as the PIDs' layouts have fields, each below 2^16; a cycle with every exchange failed records nothing; a full record means every PID with fields answered |
| Logger.FullReplyDecodes | TD5Tester.py:307-346 | an accepted reply of the expected length always yields all of its PID's values, decoded from the layout |
| Logger.DecodeRecoversBytes | TD5Tester.py:308-346 | each decoded word gives back its two reply bytes, and each single-byte value is the byte itself |
| Logger.LogSends | TD5Tester.py:304-349 | each cycle sends the requests of the polled PIDs in order, and nothing else |
| Logger.LogRecords | TD5Tester.py:304-349 | every record of a run is bounded by the field count, with 16-bit values |
| Logger.LoggerShape | TD5Tester.py:304-349 | the logger sends the nine polled requests once per cycle, in order, and each record has at most 22 values below 2^16 |
| Logger.Request | TD5Tester.py:94-95 | a PID's request as sent has its template's length and passes the checksum test |
| Logger.Poll | TD5Tester.py:305-347 | a cycle makes one exchange per PID and never opens or closes the adapter |
| Logger.Log | TD5Tester.py:304-349 | a run of `cycles` cycles yields one record per cycle and never opens or closes the adapter |
| Tester.Session.constructor | TD5Tester.py:38-40 | a new session has the given adapter, is not connected, has no reply, and holds a fresh buffer per PID with the table's template |
| Tester.Session.GetPid | TD5Tester.py:87-128 | the PID's buffer is stamped in place, so every buffer but SendKey then holds its stamped template; adapter, reply and result are those of `Exchange` on the stamped buffer |
| Tester.Session.SendRequest | TD5Tester.py:93-128 | the request buffer is stamped in place; adapter, reply and result are those of `Exchange` on the stamped buffer |
| Tester.Session.Stage | TD5Tester.py:275 | one stage exchange leaves adapter, reply and result as `Exchange` of the stamped stage frame gives them, and leaves the SendKey buffer and the connected flag alone |
| Tester.Session.StoreKey | TD5Tester.py:278-279 | bytes 3 and 4 of the SendKey buffer become the key's high and low byte, and nothing else changes |
| Tester.Session.SendKey | TD5Tester.py:276-280 | the seed of the last reply, its key stored in the SendKey buffer, and the SendKey exchange give the state `Stages` gives from SendKey on |
| Tester.Session.TryConnect | TD5Tester.py:248-283 | one attempt changes the session exactly as `AttemptEnv` says |
| Tester.Session.Round | TD5Tester.py:248-285 | one pass of the attempt loop stops exactly when the attempt connected, and leaves the rest of the loop to `Retry` from the new state |
| Tester.Session.Attempts | TD5Tester.py:246-285 | the attempt loop ends in the state `Retry` gives |
| Tester.Session.FastInit | TD5Tester.py:233-290 | the session after fast init is `FastInitSpec` of the session before it |
| Tester.Session.SlowInit | TD5Tester.py:165-230 | the session after slow init is `SlowInitSpec` of the session before it (see Findings for the code as written) |
| Tester.Session.PollPid | TD5Tester.py:307-309 | one polled PID adds the values `Fields` decodes from its exchange |
| Tester.Session.PollEach | TD5Tester.py:305-347 | a cycle produces the record, adapter and last reply of `Poll` |
| Tester.Session.LogRound | TD5Tester.py:304-348 | one pass of the logger loop appends one record, and the records so far followed by those of the remaining cycles are those of the whole run |
| Tester.Session.LogCycles | TD5Tester.py:304-349 | `cycles` passes of the logger loop end with the adapter, last reply and records `Log` gives |
| Tester.Session.StartLogger | TD5Tester.py:293-349 | without a connection nothing happens and nothing is recorded; with one, `cycles` cycles give the records `Log` describes over the polled PIDs |
| Findings.SlowInitAsWritten | TD5Tester.py:209-230 | slow init as written: it raises on a reply shorter than the indexes it reads, raises in the success branch, and otherwise closes the adapter |
| Findings.SilentEcuRaises | TD5Tester.py:209-213 | with no reply, slow init as written raises IndexError, while the corrected version closes the adapter |
| Findings.AcceptedWakeRaises | TD5Tester.py:213-214 | with a correct wake-up reply, slow init as written raises ValueError, while the corrected version answers and connects |
| Findings.SlowInitAsWrittenNeverConnects | TD5Tester.py:213-230 | every run of slow init as written that does not raise agrees with the corrected version and leaves the connected flag as it was |
| Findings.PyInvertOfByte | TD5Tester.py:214-215 | `~x` on a byte is negative, which `bytearray` rejects; its low eight bits are the complement |
| Findings.AirTempAsWritten | TD5Tester.py:321-324 | the layout as written agrees with the corrected one except on the air temperature, which it reads correctly if and only if reply bytes 4 and 8 are equal |
| Findings.AirTempMisread | TD5Tester.py:322 | for a concrete reply, the layout as written reads the air temperature as 0x0BB8 where the corrected one reads 0x0B86 |
| Findings.FieldsAsWrittenAgrees | TD5Tester.py:307-346 | the logger as written raises if and only if an accepted reply is too short for the layout; otherwise it records what `Fields` records for every PID but AllTemps, and for AllTemps the same coolant, external and fuel temperatures and the same air temperature exactly when reply bytes 4 and 8 are equal |
| Findings.FieldsAsWritten | TD5Tester.py:307-346 | the logger as written, with the offsets of the code including the air temperature of TD5Tester.py:322: when it does not raise, it records no more values than the layout has fields |
| Findings.ShortBatteryReplyRaises | TD5Tester.py:307-308 | a three-byte battery-voltage reply that `get_pid` accepts (it passes the checks at TD5Tester.py:116-126) makes the logger as written raise IndexError; the corrected one records nothing for it |
| Findings.ShortSeedRaises | TD5Tester.py:275-276 | a three-byte RequestSeed reply is accepted, and the seed as written then raises IndexError |
| Findings.SeedAsWritten | TD5Tester.py:276 | the seed as written: when it does not raise, it is a 16-bit value |

## Left out

- Timing is not modelled. The delays in `pause`, the inter-request delay
  (skipped for StartCommunication) and the attempt delay are left out. The
  adapter's deadline answers stand for the monotonic clock.
- The FTDI configuration in `open_uart` is not modelled: baud rate, line
  properties and opening the device. A session starts from a port that is
  open or closed. The absent adapter (`uart is None`) is a closed port, and
  closing the adapter (`uart.close(); uart = None`) closes the port.
- The elapsed-time field that starts each log line (TD5Tester.py:305) is left
  out, because the model has no clock. A record holds only the decoded values.
- `log_data`, `print`, the log file, its timestamped name and the number
  formatting are left out. The record holds the raw 16-bit values the logger
  formats. Scaling to volts, degrees and so on is floating-point output.
- The read-everything branch behind the `CAUTIOUS_READ` flag is left out. The
  flag is `False`, so the expected-length read is the one modelled.
- `start_logger` loops forever. `Tester.Session.StartLogger` and `Logger.Log`
  run a given number of cycles instead.
- `Tester.Session.PollEach` stands for the nine successive `if get_pid(...)`
  blocks, as a loop over the polled PIDs in the same order.
- `uart.read_data(3, 0.340)` in slow init is one adapter read of at most three
  bytes (`TakeChunk`). The FTDI library is not part of this model.
- `uart.write_data(hilo)` in slow init passes an integer to the library, whose
  behaviour is not part of this model. The model sends the intended line level.
- `Findings.SlowInitAsWritten` assumes that `uart.write_data(hilo)`
  (TD5Tester.py:197) and the two-argument `uart.read_data(3, 0.340)`
  (TD5Tester.py:209) behave as intended. If the FTDI library rejects either
  call, slow init raises before the reply is examined.
- `Tester.Session.GetPid` requires an open adapter, and
  `Tester.Session.StartLogger` requires that a connected session has an open
  adapter. Fast init calls `get_pid` only after checking for the adapter, but
  `start_logger` checks only `connected` (TD5Tester.py:295-296). A connected
  session without an adapter arises when slow init runs on a session that is
  already connected and the wake-up fails: its else branch closes the adapter
  without clearing `connected` (TD5Tester.py:228-230). The source then raises
  AttributeError at `uart.write_data` in `get_pid` (TD5Tester.py:102). Those two
  requires clauses leave that path out of the model.
- `Handshake.AttemptEnv` leaves unchanged a state whose SendKey buffer is not
  six bytes long. Such a state never occurs: the buffer comes from the PID
  table and keeps its length.
- The model does not exclude aliasing among the request buffers of different
  PIDs. Only the SendKey buffer is proved distinct from the others, which is
  all that the handshake and the logger need.
- The GUI front end (`TD5_DiagTool_GUI.py`) is not part of this model.
- `log_data(inverted_kb2)` at TD5Tester.py:220 omits its second argument and
  would raise TypeError. It comes after the ValueError recorded under
  Findings, so it is never reached.

## Findings

| source | as written | input that shows it | evidently intended | confidence | as-written member | corrected member |
|---|---|---|---|---|---|---|
| TD5Tester.py:209-213 | reads `response[0]`, and after a matching sync byte `response[2]`, without checking the reply's length | no reply at all (silent ECU), or `[0x55]` | a short reply is a failed wake-up: close the adapter | not executed; high, assuming the library calls at TD5Tester.py:197 and 209 behave as intended | Findings.SilentEcuRaises | Handshake.SlowInitOutcome |
| TD5Tester.py:214-215 | `bytearray([~address])`: `~` of a byte is negative, so it raises ValueError before anything is sent, and slow init never connects | the reply `[0x55, 0xE9, 0x8F]` | send the 8-bit complements `255 - x` of 0x8F and of the address, then connect | not executed; high, assuming the library calls at TD5Tester.py:197 and 209 behave as intended | Findings.AcceptedWakeRaises | Handshake.SlowInitOutcome |
| TD5Tester.py:322 | air temperature word read with its high byte at offset 7 and its low byte at offset 4 | coolant 0x0BB8 at offsets 3-4, air 0x0B86 at offsets 7-8: the air value reads 0x0BB8 | low byte at offset 8, the 4-byte stride of the other three temperatures | not executed; high | Findings.AirTempMisread | Catalog.AllTempsStride |
| TD5Tester.py:116-126, 307-346 | an accepted reply of any length of at least two bytes is decoded at fixed offsets | a battery-voltage reply cut to `[0x01, 0x61, 0x62]` by the deadline passes the checksum, and offsets 5 and 6 raise IndexError | decode only replies that reach every offset, and record nothing otherwise | not executed; medium | Findings.ShortBatteryReplyRaises | Logger.FullReplyDecodes |
| TD5Tester.py:275-276 | the seed is read from `response[3]` and `response[4]` of any accepted RequestSeed reply | the RequestSeed reply `[0x01, 0x67, 0x68]` | a reply too short to hold a seed counts as a failed attempt | not executed; medium | Findings.ShortSeedRaises | Handshake.AttemptShortCircuits |
