# Verified model of an MPEG-TS / SRT sender

The repository sends media over SRT inside an MPEG transport stream. This project models, in
Dafny, the parts of it that are hard to get right, and proves what they promise:

- **The transport stream** (`3rd/mpegts`, ISO/IEC 13818-1). A muxer turns frames into packets of
  188 bytes, with program tables, checksums, clock references, stuffing and continuity counters; a
  demuxer learns the tables and puts the frames together again, across packets and calls.
- **SRT sessions and rate control** (`srt_net`, `base/run_task.cpp`). An endpoint whose thread
  handles and client list are shared by API callers and two threads; a controller that samples the
  connection and moves the encoder's bitrate.
- **Three algorithms of the bundled OpenSSL applications**: the ALPN name list encoder, the line
  prefix filter, and the child table of the OCSP responder.

The transport stream is modelled twice. `MuxSpec` and `DemuxSpec` say, as functions on byte
strings, what is emitted for a call and what a packet does to the demuxer. The classes in
`SimpleBuffer`, `TsCodec`, `Muxer` and `Demuxer` follow the source statement by statement (cursor, in-place
moves, masks and shifts, signed reads, carry-over) and are proved to do exactly that, on every input;
`Bitwise` proves what `|`, `&`, `<<` and `>>` are in arithmetic. The results
about whole runs are then proved of the functions, and `EndToEnd` carries them back to the objects.

```
Bytes  Bitwise  Crc  SimpleBuffer  TsFields  TsCodec   bytes, bit operations, checksum, buffer, header fields
Syntax  Division  Layout                               the same as the standard has it: bit fields, long division, bytes
MuxSpec  Muxer  Packetization  Counters                what is emitted; the muxer object
DemuxSpec  Demuxer  Chunking  Cuts  Frames  Isolation  what is decoded; the demuxer object
FrameTrip  TableTrip  Trips  RoundTrip  EndToEnd       both together, over every run
Units  ForeignTables                                   the demuxer on the packets of any multiplexer
SrtNet  RunTask  RateControl                           sessions and rate control
PrefixFilter  NextProtos  SpawnLoop                    OpenSSL applications
Options                                                a value that may be missing
```

`dafny verify dfyconfig.toml` verifies the project.

## Main results

- **Reference machine** (`Trips.LateJoin`, `Trips.JoinTooLate`). `Trips.Expected` is a machine of a few lines
  that says what a run of muxer calls should deliver. For every valid configuration, every run,
  every packet boundary to join at and every way to cut the bytes, a fresh demuxer delivers exactly
  what that machine says from the first tables on.
- From it follow the round trip (`RoundTrips.RoundTrip`) and what happens to frames too long for a
  PES length (`RoundTrips.OversizeTransported`).
- **Chunk independence** (`Chunking.ChunkIndependence`), with the condition shown to be exact for whole
  streams: a stream is decoded without abort and alike however it is cut if and only if every header
  ends inside its packet and every packet after the first is filled by a payload that starts in it
  (`Cuts.RobustExactly`).
- **Isolation** of streams from each other (`Isolation.PidIsolation`): once the map is known, the frames of
  a PID depend on its own packets only, however the stream is cut and whatever lies between, with the
  condition shown to be exact (`Isolation.IsolationExactly`).
- **Any multiplexer's packets** (`Units.UnitReassembled`): in every state that can be reached, a unit
  divided into packets in any way, with any headers, adaptation fields and time stamps or none, is
  delivered once, complete, with exactly its bytes; and what is made of a unit of another length, of tables
  with descriptors and of all other packets is stated field by field (`Units`, `ForeignTables`).
- **Bytes on the wire** (`Layout.RunIs`): what every run of the muxer sends is written out in numbers,
  and each header is bit for bit the syntax table of the standard (`Syntax`).
- **Checksum**: the 256-entry table is the shift register of the standard (`Crc.Crc32`), the register is
  long division by the polynomial (`Division.ChecksumIsRemainder`), and every emitted section checks to
  zero (`TableTrip.SectionChecks`).
- **Counters** over every run, rising if and only if every PID has a counter of its own
  (`Counters.CountersRiseExactly`).
- **Sessions**: thread handles are never overwritten, and every client is accounted for, in every
  interleaving (`SrtNet.ThreadHandleSafety`, `SrtNet.ClientConservation`); what each event does at the end
  of any run (`SrtNet.ErrorDisconnects`, `SrtNet.ClearingDisconnects`, `SrtNet.StartStarts`); exactly when
  stopping can leave a client behind (`SrtNet.StopLeavesExactly`); and a session can be ended from every
  state (`SrtNet.SessionCanEnd`).
- **Rate control**: the verdict over every run of samples (`RateControl.VerdictTiming`), what it is in
  numbers (`RateControl.JudgedByNumbers`, `RateControl.KnownVerdicts`), and which way and how far it moves
  the bitrate (`RateControl.BitrateMoves`, `RateControl.NeverLowered`, `RateControl.NeverRaised`).

## Where the code is not what one would expect

Each of these is modelled as the code has it and stated by a lemma.

- A time stamp loses bit 32 on reading, because it is put together in 32-bit arithmetic
  (`TsFields.PtsRoundTrip`, `TsFields.PtsTopBitLost`).
- Reading back a packet header does not restore the priority bit, and reading back an association
  header does not restore its first reserved field (`TsFields.TsRoundTrip`, `TsFields.PatHeaderRoundTrip`).
- The demuxer compares a payload length plus an absolute buffer position with 188. A payload that
  ends before its packet does is therefore read differently in the first packet of a buffer and in
  a later one: there is one frame delivered, or none (`Cuts.CutMattersExactly`; `FrameTrip.CutCanMatter`
  gives the packets).
- A header that runs past its packet is read from the bytes that follow, or aborts the decoder if there
  are none yet: the same bytes in one call are decoded, and in two abort (`FrameTrip.CutCanAbort`).
- The demuxer subtracts the length of the PES header's data but does not skip it. What follows the time
  stamps there is delivered in front of the payload, whose end is cut off (`Units.HeaderDataDelivered`).
- A unit that starts in a packet with none of its bytes leaves its length behind. A unit of undeclared
  length that comes next is delivered as complete if its first packet has just that many bytes
  (`Units.UndeclaredUnit`).
- On a PID that is the clock's only, what lies where the clock belongs is reported whether or not the flag
  for it is set (`Units.ClockPiece`).
- A frame too long for its length field arrives marked broken, and with the random access bit of
  its successor (`RoundTrips.OversizeFrames`).
- Counters are kept per stream type, and the tables use key 0: with a stream of type 0 the table
  counters skip (`Counters.TypeZeroSkips`), two streams on one PID count apart
  (`Counters.SharedPidStumbles`), and so do a stream and the tables, or the two tables, on one PID
  (`Counters.TablePidStumbles`).
- If the clock PID is the PID of the program map, every map packet is also read as a clock reference:
  the first behind its list, a repeated one from its start (`TableTrip.FirstMapExactly`,
  `TableTrip.RepeatedMapExactly`). Frames are delivered all the same, unless there are 33 streams: then
  the read leaves the packet, and a call that ends there aborts (`TableTrip.TablesAbort`). A valid
  configuration is one in which it does not.
- A map of more than 33 streams makes `encode` throw whenever tables are due
  (`Muxer.MpegTsMuxer.Encode`).
- `RunTask::reset` does not restart the clock. A task that is reset whenever it fires waits for its
  interval once, then fires at every call (`RunTasks.FiresEverAfter`).
- Six bandwidths are added up in 32 bits: at 1 Gbit/s the average comes out as 284 Mbit/s
  (`RateControl.AverageCanWrap`).
- The controller's list of states is never emptied: its judgement is of the sum since the start
  (`RateControl.VerdictTiming`).
- `stop` can return with a client still listed: exactly if, when it has closed the socket, the accept
  thread is inside `srt_accept` or holds a client it has not listed yet (`SrtNet.StopLeavesExactly`,
  with a run in `SrtNet.StopCanLeaveAClient`).
- `prefix_write` does not look at how much of the prefix was taken: the output is right if and only if
  all of it was at every line (`PrefixFilters.WovenExactly`; `PrefixFilters.PrefixCanBeCut` gives an
  output).

## Model

| member | source | states |
|---|---|---|
| `Bytes.ValueOfBigEndian` | 3rd/mpegts/simple_buffer.cpp:20-59 | bytes pushed from the most significant down read back as the integer modulo its width, for every width |
| `Buffers.SimpleBuffer.WriteBytes` | 3rd/mpegts/simple_buffer.cpp:25-59 | the byte loop of a fixed-width write appends exactly the big-endian bytes |
| `Buffers.SimpleBuffer.ReadBytes` | 3rd/mpegts/simple_buffer.cpp:95-153 | the byte loop of a fixed-width read gives the big-endian value under the cursor and moves the cursor by the width |
| `Buffers.SimpleBuffer.Read1Byte` | 3rd/mpegts/simple_buffer.cpp:85-93 | the byte as a signed value |
| `Buffers.SimpleBuffer.Read2Bytes` | 3rd/mpegts/simple_buffer.cpp:95-108 | two bytes as a signed value |
| `Buffers.SimpleBuffer.Read4Bytes` | 3rd/mpegts/simple_buffer.cpp:125-138 | four bytes as a signed value |
| `Buffers.SimpleBuffer.SetData` | 3rd/mpegts/simple_buffer.cpp:203-222 | overwrites in place byte by byte and keeps the size; a write past the end changes nothing |
| `Buffers.SimpleBuffer.Append` | 3rd/mpegts/simple_buffer.cpp:61-71 | the bytes follow what was there; the cursor stays |
| `Buffers.SimpleBuffer.Prepend` | 3rd/mpegts/simple_buffer.cpp:73-83 | the bytes precede what was there; the cursor stays |
| `Crc.TableIsEightClocks` | 3rd/mpegts/crc.hpp:11-53 | each of the 256 constants is eight clocks of the shift register on its index |
| `Crc.ClocksLinear` | 3rd/mpegts/crc.cpp:5 | the part of the register that only shifts can be taken out of any number of clocks |
| `Crc.TableStepIsEightClocks` | 3rd/mpegts/crc.cpp:5 | one step of the loop is eight clocks of the register, for every register and byte |
| `Crc.Crc32` | 3rd/mpegts/crc.cpp:2-8 | for every message the loop gives what the bit-serial register holds (Annex A of ISO/IEC 13818-1); with `Division.ChecksumIsRemainder`, the remainder |
| `Division.ChecksumIsRemainder` | 3rd/mpegts/crc.cpp:2-8 | for every message the checksum is the remainder of long division by the 33-bit polynomial of the message bits, the first 32 complemented, and 32 zeros |
| `Division.RegisterDivides` | 3rd/mpegts/crc.cpp:5 | for every register and bit string, clocking the bits through is dividing them with the register added to the first 32 |
| `Division.ChecksumOfZero` | 3rd/mpegts/crc.cpp:3 | the checksum of a zero byte is 4E08BFB4 |
| `Division.ChecksumOfDigits` | 3rd/mpegts/crc.cpp:2-8 | the checksum of the digits 1 to 9 is 0376E6E7 |
| `Crc.CheckedSectionIsZero` | 3rd/mpegts/mpegts_muxer.cpp:60-62 | a message followed by its checksum has checksum zero |
| `Bitwise.OrDisjoint` | 3rd/mpegts/ts_packet.cpp:60-69 | `|=` with a field above what is there is addition, for every width |
| `Bitwise.MaskIsLow` | 3rd/mpegts/ts_packet.cpp:76-85 | `&` with a mask of ones is the remainder by a power of two |
| `Bitwise.AndShifted` | 3rd/mpegts/ts_packet.cpp:61-63 | a shifted value under a shifted mask is the masked value shifted |
| `Bitwise.AndCut` | 3rd/mpegts/common.cpp:43-53 | bits above a mask do not matter, so neither does the sign extension of a byte |
| `Bitwise.OrClear` | 3rd/mpegts/mpegts_muxer.cpp:226 | `|=` with a bit that is clear adds it |
| `TsFields.TsRoundTrip` | 3rd/mpegts/ts_packet.cpp:56-86 | every in-width field of a packet header is read back, except the priority, which is always 0 |
| `TsFields.AdaptationRoundTrip` | 3rd/mpegts/ts_packet.cpp:394-424 | every in-width field of an adaptation header is read back; of one of length 0, the default |
| `TsFields.PtsRoundTrip` | 3rd/mpegts/common.cpp:13-39 | a time stamp is read back modulo 2^32, for every 64-bit value and prefix |
| `TsFields.PtsTopBitLost` | 3rd/mpegts/common.cpp:28-30 | the time stamp 2^32 is read back as 0 |
| `TsFields.PcrRoundTrip` | 3rd/mpegts/common.cpp:4-61 | a clock reference base is read back modulo 2^33 |
| `TsFields.PesRoundTrip` | 3rd/mpegts/ts_packet.cpp:451-505 | every in-width field of a PES header is read back |
| `TsFields.PatHeaderRoundTrip` | 3rd/mpegts/ts_packet.cpp:107-147 | every in-width field of an association header is read back, except the first reserved field |
| `TsFields.InfoRoundTrip` | 3rd/mpegts/ts_packet.cpp:188-220 | every in-width field of a stream entry is read back |
| `TsFields.InfosRoundTrip` | 3rd/mpegts/ts_packet.cpp:293-337 | the list of entries is read back in order, and the element loop ends exactly at its end |
| `TsFields.PmtRoundTrip` | 3rd/mpegts/ts_packet.cpp:266-338 | a map header with its whole list is read back, and the end of the list is where the checksum starts |
| `Syntax.TsSyntax` | 3rd/mpegts/ts_packet.cpp:56-70 | the four bytes of a packet header are, bit for bit, its fields in the widths of the standard |
| `Syntax.AdaptationSyntax` | 3rd/mpegts/ts_packet.cpp:394-408 | length and eight flags in order |
| `Syntax.PesSyntax` | 3rd/mpegts/ts_packet.cpp:451-477 | start code of 24 bits, stream id, length, the two flag bytes field by field, header length |
| `Syntax.PatSyntax` | 3rd/mpegts/ts_packet.cpp:107-126 | the eight bytes of an association header as bit fields |
| `Syntax.InfoSyntax` | 3rd/mpegts/ts_packet.cpp:188-203 | the five bytes of a stream entry as bit fields |
| `Syntax.PmtSyntax` | 3rd/mpegts/ts_packet.cpp:266-297 | the twelve bytes of a map header as bit fields |
| `Syntax.PtsSyntax` | 3rd/mpegts/common.cpp:13-24 | four bits of prefix, then 3, 15 and 15 bits of the stamp, each followed by a one |
| `Syntax.PcrSyntax` | 3rd/mpegts/common.cpp:4-11 | 33 bits of base, six ones, nine zeros |
| `TsCodec.WriteTsHeader` | 3rd/mpegts/ts_packet.cpp:56-70 | the masks, shifts and ors append the bytes of the header's layout |
| `TsCodec.ReadTsHeader` | 3rd/mpegts/ts_packet.cpp:72-86 | signed reads and narrowing give the header of the layout; the cursor moves by 4 |
| `TsCodec.WriteAdaptationHeader` | 3rd/mpegts/ts_packet.cpp:394-408 | appends one byte for length 0, two otherwise, as laid out |
| `TsCodec.ReadAdaptationHeader` | 3rd/mpegts/ts_packet.cpp:410-424 | reads it back for every position; fails exactly if it would read past the end |
| `TsCodec.WritePesHeader` | 3rd/mpegts/ts_packet.cpp:451-477 | appends the nine bytes of the layout |
| `TsCodec.ReadPesHeader` | 3rd/mpegts/ts_packet.cpp:479-505 | reads the nine bytes despite a signed four-byte read |
| `TsCodec.WritePatHeader` | 3rd/mpegts/ts_packet.cpp:107-126 | appends the eight bytes of the layout |
| `TsCodec.ReadPatHeader` | 3rd/mpegts/ts_packet.cpp:128-147 | reads the eight bytes |
| `TsCodec.WritePmtHeader` | 3rd/mpegts/ts_packet.cpp:266-297 | appends the fixed part and then every entry in order, for every section length: one that exceeds twelve bits is ored into the bits above |
| `TsCodec.ReadPmtHeader` | 3rd/mpegts/ts_packet.cpp:299-338 | the element loop adds the entries to those already there, ends where the layout says, and fails exactly if that is past the end |
| `TsCodec.WritePts` | 3rd/mpegts/common.cpp:13-24 | appends the five bytes of the layout, for every prefix: its low four bits |
| `TsCodec.ReadPts` | 3rd/mpegts/common.cpp:26-39 | sign-extended parts, shifted in 32 bits, give the stamp without its top bit |
| `TsCodec.WritePcr` | 3rd/mpegts/common.cpp:4-11 | appends the six bytes of the layout |
| `TsCodec.ReadPcr` | 3rd/mpegts/common.cpp:41-61 | sign-extended bytes, shifted in 64 bits, masked and ored give the 33-bit base; the cursor moves by 6 |
| `Packetization.FramePacketization` | 3rd/mpegts/mpegts_muxer.cpp:119-268 | for every non-empty frame: packets of 188 bytes, 1 + ceil(max(0, n - firstBody) / 184) of them, only the first starting a unit, field length at most 182; the payloads joined are the bytes 00 00 01, stream id, length or 0, 81, 80 or C0, 5 or 10, one or two time stamps with their nibbles and marker bits, and the frame |
| `MuxSpec.StreamCount` | 3rd/mpegts/mpegts_muxer.cpp:99-102 | the list of the map packet holds each stream once |
| `Muxer.MpegTsMuxer.GetCc` | 3rd/mpegts/mpegts_muxer.cpp:342-350 | the next counter of a key modulo 16, starting at 0; other keys keep theirs |
| `Muxer.MpegTsMuxer.ShouldCreatePat` | 3rd/mpegts/mpegts_muxer.cpp:352-364 | true at every multiple of 20, and the new index |
| `Muxer.MpegTsMuxer.OpenPacket` | 3rd/mpegts/mpegts_muxer.cpp:124-180 | header, adaptation field and PES header of a packet before its body |
| `Muxer.MpegTsMuxer.FillPacket` | 3rd/mpegts/mpegts_muxer.cpp:182-263 | whichever of the layouts is taken, the packet is header, stuffed field, head and as many body bytes as there is room for, and the frame's cursor moves by that many |
| `Muxer.MpegTsMuxer.StuffField` | 3rd/mpegts/mpegts_muxer.cpp:200-218 | moving the head up inside the packet and filling the gap widens the field that is there |
| `Muxer.MpegTsMuxer.StuffPlain` | 3rd/mpegts/mpegts_muxer.cpp:220-259 | setting the flag and moving the head up makes a new field, of one byte or more, in a first and in a later packet |
| `Muxer.MpegTsMuxer.CreatePacket` | 3rd/mpegts/mpegts_muxer.cpp:121-267 | one turn of the loop makes the next packet and takes its bytes off the frame, at least one |
| `Muxer.MpegTsMuxer.CreatePes` | 3rd/mpegts/mpegts_muxer.cpp:119-268 | the frame is consumed whole, its packets are appended, and its counter has advanced once a packet |
| `Muxer.MpegTsMuxer.CreatePat` | 3rd/mpegts/mpegts_muxer.cpp:20-67 | appends the association packet |
| `Muxer.MpegTsMuxer.CreatePmt` | 3rd/mpegts/mpegts_muxer.cpp:69-117 | appends the map packet, with the section length of the list; throws exactly if there are more than 33 streams |
| `Muxer.MpegTsMuxer.CreatePcr` | 3rd/mpegts/mpegts_muxer.cpp:270-302 | gives out the clock packet |
| `Muxer.MpegTsMuxer.Encode` | 3rd/mpegts/mpegts_muxer.cpp:322-340 | gives out tables if due and then the frame; counters and index are those of the run; throws exactly if tables are due and there are more than 33 streams, and then gives out and consumes nothing |
| `Layout.FrameIs` | 3rd/mpegts/mpegts_muxer.cpp:119-268 | the packets of every frame, in numbers: sync byte, PID, flags, counter, stuffing, clock, PES header, time stamps, body |
| `Layout.PatIs` | 3rd/mpegts/mpegts_muxer.cpp:20-67 | the association packet, in numbers, for every PID and counter |
| `Layout.MapIs` | 3rd/mpegts/mpegts_muxer.cpp:69-117 | the map packet, in numbers, for every configuration of up to 33 streams |
| `Layout.TickIs` | 3rd/mpegts/mpegts_muxer.cpp:270-302 | the clock packet, in numbers |
| `Layout.RunIs` | 3rd/mpegts/mpegts_muxer.cpp:322-364 | every run from every state: tables before random access points in segment mode and before every twentieth call in h222 mode, counters one after the other modulo 16 per key, all bytes in numbers |
| `Layout.NewMuxerSends` | 3rd/mpegts/mpegts_muxer.cpp:270-364 | the same of a new muxer: counters from 0, tables with the first call |
| `Counters.CountersRise` | 3rd/mpegts/mpegts_muxer.cpp:322-350 | in every run, payload packets on each PID, table PIDs included, carry counters rising by one modulo 16, if PIDs are distinct and, for a muxer that sends tables, none is a table's and no stream has type 0 |
| `Counters.TablesEveryTwenty` | 3rd/mpegts/mpegts_muxer.cpp:322-364 | in h222 mode call n carries tables exactly if n mod 20 = 0, after any run, and the index never exceeds 20 |
| `Counters.TypeZeroSkips` | 3rd/mpegts/mpegts_muxer.cpp:127 | with a stream of type 0 there is a run whose table counters skip |
| `Counters.SharedPidStumbles` | 3rd/mpegts/mpegts_muxer.cpp:127 | with two streams on one PID there is a run whose counters on it do not rise |
| `Counters.TablePidStumbles` | 3rd/mpegts/mpegts_muxer.cpp:327-335 | with a stream on a PID of the tables, or both tables on one PID, the first call repeats a counter |
| `Counters.CountersRiseExactly` | 3rd/mpegts/mpegts_muxer.cpp:322-350 | for all identifiers in range, counters rise in every run on every PID if and only if no two streams share a PID and, for a muxer that sends tables, these have two PIDs, no stream is on either, and none has type 0 |
| `TableTrip.SectionChecks` | 3rd/mpegts/mpegts_muxer.cpp:60-66 | the section of every emitted table packet, checksum included, checks to zero |
| `TableTrip.PatRoundTrip` | 3rd/mpegts/mpegts_muxer.cpp:20-67 | the association packet gives back the PID of the map, and its section length counts through the checksum |
| `TableTrip.PmtPacketRoundTrip` | 3rd/mpegts/mpegts_muxer.cpp:69-117 | the map packet gives back the clock PID and the ordered list of up to 33 streams; the element loop ends at the checksum |
| `TableTrip.LearnTables` | 3rd/mpegts/mpegts_demuxer.cpp:22-71 | a demuxer that knows nothing learns the whole configuration from the two packets, with one empty object for each stream |
| `TableTrip.IgnoreTables` | 3rd/mpegts/mpegts_demuxer.cpp:23-47 | once learned, tables change nothing, and report nothing but what is taken for a clock |
| `TableTrip.FirstMapExactly` | 3rd/mpegts/mpegts_demuxer.cpp:46-71 | the first map packet is learned whole; it is read within its 188 bytes if and only if there are at most 32 streams or the clock PID is not the map's; it reports nothing if and only if the clock PID is not the map's |
| `TableTrip.RepeatedMapExactly` | 3rd/mpegts/mpegts_demuxer.cpp:180-187 | a repeated map packet changes nothing and keeps to itself, and reports nothing if and only if the clock PID is not the map's |
| `TableTrip.TablesAbort` | 3rd/mpegts/mpegts_demuxer.cpp:180-187 | with 33 streams and a shared PID, a fresh demuxer aborts in a call that ends with the tables |
| `TableTrip.ClockRun` | 3rd/mpegts/mpegts_demuxer.cpp:73-187 | a clock packet is reported with its base modulo 2^33 and changes nothing |
| `FrameTrip.FirstPrefix` | 3rd/mpegts/mpegts_demuxer.cpp:77-95 | of a first packet, in every stuffing layout, the random access bit, the clock and the end of the field are read back |
| `FrameTrip.FirstStep` | 3rd/mpegts/mpegts_demuxer.cpp:97-153 | the first packet of a frame pushes out a frame still open and starts the new one |
| `FrameTrip.NextStep` | 3rd/mpegts/mpegts_demuxer.cpp:157-177 | a later packet adds its bytes, and delivers if the declared length is reached |
| `FrameTrip.FrameRun` | 3rd/mpegts/mpegts_demuxer.cpp:73-178 | all packets of a frame: clock, frame pushed out, delivery or holding; nothing else changes |
| `Demuxer.MpegTsDemuxer.FindPat` | 3rd/mpegts/mpegts_demuxer.cpp:22-44 | learns what the association packet says; aborts exactly if a read would pass the end |
| `Demuxer.MpegTsDemuxer.FindPmt` | 3rd/mpegts/mpegts_demuxer.cpp:46-71 | learns the map once, with an object and a type for each entry, and leaves the cursor at its end |
| `Demuxer.MpegTsDemuxer.ReadField` | 3rd/mpegts/mpegts_demuxer.cpp:74-95 | the adaptation field of a stream packet: bit, clock, new cursor |
| `Demuxer.MpegTsDemuxer.StartPes` | 3rd/mpegts/mpegts_demuxer.cpp:97-155 | closing the previous frame, reading the PES header, taking the first bytes |
| `Demuxer.MpegTsDemuxer.ContinueBody` | 3rd/mpegts/mpegts_demuxer.cpp:157-177 | taking the bytes of a later packet, and delivering |
| `Demuxer.MpegTsDemuxer.DecodePacket` | 3rd/mpegts/mpegts_demuxer.cpp:17-189 | one iteration does the step of the specification and moves the cursor by exactly 188, or aborts exactly if a read would pass the end |
| `Demuxer.MpegTsDemuxer.Decode` | 3rd/mpegts/mpegts_demuxer.cpp:12-197 | a call on any bytes, carry-over in front, decodes every whole packet; state, callbacks and carry-over are those of the specification, the carry-over shorter than 188 |
| `Chunking.StepAgrees` | 3rd/mpegts/mpegts_demuxer.cpp:17-189 | a packet whose headers end inside it is decoded from its own 188 bytes, whatever follows |
| `Chunking.StepAnywhere` | 3rd/mpegts/mpegts_demuxer.cpp:133-140 | if its payload also fills it, it is decoded alike at every buffer position |
| `Chunking.DecodeIsRun` | 3rd/mpegts/mpegts_demuxer.cpp:12-197 | a call is the packet-by-packet run, wherever in the buffer the packets lie |
| `Chunking.RunConcat` | 3rd/mpegts/mpegts_demuxer.cpp:188-195 | running a stream is running its first part and then the remainder followed by the rest |
| `Chunking.ChunkIndependence` | 3rd/mpegts/mpegts_demuxer.cpp:12-197 | however the bytes are split over calls, events, state and carry-over are those of one call, if every header ends inside its packet and every packet after the first is filled |
| `Cuts.RobustExactly` | 3rd/mpegts/mpegts_demuxer.cpp:12-197 | for every state, carry-over and stream: all ways to cut it return and agree with one call if and only if every header ends inside its packet and every packet after the first is filled |
| `Cuts.CutMattersExactly` | 3rd/mpegts/mpegts_demuxer.cpp:133-140 | after a safe stream, cutting in front of one more packet makes a difference if and only if its headers end inside it and its payload does not fill it |
| `Cuts.StuckRun` | 3rd/mpegts/mpegts_demuxer.cpp:157-177 | an object with more bytes than its frame declares never delivers a completed frame before it is pushed out, whatever bytes follow |
| `Cuts.CutAfterOverrun` | 3rd/mpegts/mpegts_demuxer.cpp:72-109 | a call that ends with a packet whose headers run past its end aborts, whatever is given next |
| `FrameTrip.CutCanMatter` | 3rd/mpegts/mpegts_demuxer.cpp:133-140 | an ordinary packet and one whose declared payload ends before it does: cut between them, the calls differ from one call |
| `FrameTrip.CutCanAbort` | 3rd/mpegts/mpegts_demuxer.cpp:72-109 | packets that one call decodes, and two calls abort on |
| `Isolation.AloneIsEnough` | 3rd/mpegts/mpegts_demuxer.cpp:73-188 | a call on bytes whose headers end inside their packets and whose payloads on the PID fill theirs returns, and gives the PID the frames of its object run over its packets alone, and leaves that object |
| `Isolation.FeedDelivers` | 3rd/mpegts/mpegts_demuxer.cpp:12-197 | the same of any number of calls, however the bytes are cut, with a carry-over in front |
| `Isolation.PidIsolation` | 3rd/mpegts/mpegts_demuxer.cpp:73-188 | two streams with the same packets of a PID in the same order, cut in any way, deliver the same frames for it, whatever lies between; payloads on other PIDs need not fill their packets |
| `Isolation.IsolationExactly` | 3rd/mpegts/mpegts_demuxer.cpp:73-195 | for every learned state, carry-over and stream: all ways to cut it return and give a PID what its packets alone call for if and only if every header ends inside its packet and, behind the first packet, every payload that starts on that PID fills its packet |
| `Units.ReachedIsSound` | 3rd/mpegts/mpegts_demuxer.cpp:12-197 | whatever bytes a new demuxer is given, in any chunks, no object it keeps is marked complete or broken, and it knows no stream before the map's PID |
| `Units.WholeUnit` | 3rd/mpegts/mpegts_demuxer.cpp:97-155 | for every PES header, flags 0 to 3, every adaptation field and every buffer position: a unit that fills its packet is delivered with exactly its bytes, PID, stream id, bit, clock, the stamps read modulo 2^32 or those already there, after what was still held |
| `Units.HeldUnit` | 3rd/mpegts/mpegts_demuxer.cpp:126-154 | a unit that declares more than its packet holds, or less than nothing, is held with the length it waits for, modulo 2^16 |
| `Units.UndeclaredUnit` | 3rd/mpegts/mpegts_demuxer.cpp:157-177 | a unit of undeclared length is held, unless a length left behind is just that of its bytes |
| `Units.ShorterUnit` | 3rd/mpegts/mpegts_demuxer.cpp:133-150 | a unit that declares less than its packet holds: delivered if its length plus the buffer position fit, and otherwise held with all that follows it |
| `Units.HeaderDataDelivered` | 3rd/mpegts/mpegts_demuxer.cpp:117-140 | header data behind the time stamps is delivered in front of the payload |
| `Units.NextPiece` | 3rd/mpegts/mpegts_demuxer.cpp:157-177 | a packet that starts no unit: what is added, and delivery exactly at the expected length |
| `Units.EmptyPiece` | 3rd/mpegts/mpegts_demuxer.cpp:73-96 | a packet without payload reports its clock and changes nothing |
| `Units.OtherPiece` | 3rd/mpegts/mpegts_demuxer.cpp:23-73 | a packet of no known stream that is neither first association nor first map changes and reports nothing |
| `Units.ClockPiece` | 3rd/mpegts/mpegts_demuxer.cpp:180-187 | a packet on the clock's own PID reports the 33 bits behind its flags |
| `Units.UnitReassembled` | 3rd/mpegts/mpegts_demuxer.cpp:73-178 | a unit of declared length in any number of packets, with any headers, fields and stuffing and packets without payload in between, is delivered once and complete with exactly its bytes, and the object is empty after it |
| `Units.UndeclaredReassembled` | 3rd/mpegts/mpegts_demuxer.cpp:103-177 | a unit of undeclared length is held with all its bytes until the next one starts |
| `Units.InAnyChunks` | 3rd/mpegts/mpegts_demuxer.cpp:12-197 | both hold in calls on any chunks of the packets |
| `Units.KnownUnit` | 3rd/mpegts/mpegts_demuxer.cpp:120-150 | a unit of 175 bytes without time stamps, in numbers: all 175 are delivered |
| `ForeignTables.AssociationLearned` | 3rd/mpegts/mpegts_demuxer.cpp:22-45 | the first association, behind any field and pointer: the header and the PID of its first program, for every number and reserved bits |
| `ForeignTables.ElementsRead` | 3rd/mpegts/ts_packet.cpp:331-337 | an element list with descriptors is read whole and in order, and ends where it ends |
| `ForeignTables.MapRead` | 3rd/mpegts/ts_packet.cpp:299-338 | a map section with program descriptors and element descriptors is read whole, up to its checksum |
| `ForeignTables.ObjectsAdded` | 3rd/mpegts/mpegts_demuxer.cpp:61-65 | every listed PID, and no other, gets an empty object of the type of its last element |
| `ForeignTables.PidsAdded` | 3rd/mpegts/mpegts_demuxer.cpp:61-65 | every listed type gets the PID of its last element |
| `ForeignTables.MapLearned` | 3rd/mpegts/mpegts_demuxer.cpp:47-71 | the first map, behind any field and pointer and with any descriptors: exactly its elements, their types and its clock PID become known, and nothing is reported |
| `Trips.RunFollows` | 3rd/mpegts/mpegts_demuxer.cpp:12-197 | a demuxer that knows the tables follows the reference machine through every run |
| `Trips.CutMute` | 3rd/mpegts/mpegts_demuxer.cpp:23-49 | a run cut at any packet boundary, with no tables after the cut, holds nothing a fresh demuxer acts on, even if the cut parts a PAT from its PMT |
| `Trips.LateJoin` | 3rd/mpegts/mpegts_demuxer.cpp:23-73 | joining at any packet boundary, in any chunks, delivers exactly what the reference machine says from the first call whose tables lie in the suffix |
| `Trips.JoinTooLate` | 3rd/mpegts/mpegts_demuxer.cpp:23-73 | joining after the last tables delivers nothing and learns nothing |
| `RoundTrips.FittingFramesDelivered` | 3rd/mpegts/mpegts_muxer.cpp:168-169 | if all frames fit, the reference machine delivers exactly the non-empty ones, in order, none broken |
| `RoundTrips.RoundTrip` | 3rd/mpegts/mpegts_muxer.cpp:119-340 | muxer to demuxer in any chunks: exactly the non-empty frames, in order, with bytes, PID, type, stream id, random access bit and stamps modulo 2^32; the clock may share the PID of the map if there are at most 32 streams |
| `RoundTrips.OversizeFrames` | 3rd/mpegts/mpegts_demuxer.cpp:103-115 | a frame too long for its length field is delivered by nothing but its successor: once, exact bytes and stamps, broken, with the successor's random access bit |
| `RoundTrips.OversizeTransported` | 3rd/mpegts/mpegts_demuxer.cpp:103-177 | the same of a fresh demuxer fed the muxed bytes in any chunks, wherever in a run the frame lies |
| `EndToEnd.Multiplex` | 3rd/mpegts/mpegts_muxer.cpp:270-364 | a muxer object driven through a run gives out the bytes of the run, which for identifiers in range are those written out in numbers; it fails exactly if a call of the run throws |
| `EndToEnd.Demultiplex` | 3rd/mpegts/mpegts_demuxer.cpp:12-197 | a demuxer object driven through chunks survives and delivers as the specification says |
| `EndToEnd.Transport` | 3rd/mpegts/mpegts_demuxer.cpp:12-197 | the two objects together: the decoder never aborts, and the callbacks get what the reference machine says; with fitting frames, exactly what was sent |
| `SrtNet.HandlesStep` | srt_net/srt_net.cpp:172-174 | every step of every thread keeps the handle invariant |
| `SrtNet.ClientsStep` | srt_net/srt_net.cpp:17-32 | every step keeps each accepted client in exactly one place |
| `SrtNet.RunKeeps` | srt_net/srt_net.cpp:434-476 | both invariants hold after every run |
| `SrtNet.ThreadHandleSafety` | srt_net/srt_net.cpp:434-476 | in every run, failed starts and failed closes included, no joinable handle is assigned to; mode unknown means no joinable handle and no thread |
| `SrtNet.ClientConservation` | srt_net/srt_net.cpp:194-257 | in every run each client with a context is being listed, listed, or disconnected by exactly one call with that context; never two of these, and no one else is disconnected |
| `SrtNet.ErrorDisconnects` | srt_net/srt_net.cpp:194-215 | after any run that ends in a receive error on a listed client, it is not listed, it has exactly one goodbye with its context, and every other client is where it was |
| `SrtNet.ErrorIgnored` | srt_net/srt_net.cpp:194-215 | an error on a socket that is not listed changes nothing |
| `SrtNet.ClearingDisconnects` | srt_net/srt_net.cpp:17-32 | after any run that ends in closing all clients, the list is empty, everyone who was listed has exactly one goodbye, and no one else has a new one |
| `SrtNet.AcceptedIsListed` | srt_net/srt_net.cpp:226-257 | an accepted client is listed with its context by the next step of its thread, and the others stay |
| `SrtNet.StartStarts` | srt_net/srt_net.cpp:46-373 | after any run that ends in a start: from mode unknown a successful one has its mode and its thread, and any other changes nothing |
| `SrtNet.FailedClientEnds` | srt_net/srt_net.cpp:375-398 | a connection that fails ends its thread, and its session stays |
| `SrtNet.FailedStopStays` | srt_net/srt_net.cpp:434-476 | a stop that cannot close the socket leaves session, threads and clients |
| `SrtNet.KnownSession` | srt_net/srt_net.cpp:178-259 | a run that accepts, lists and loses a client is possible, and ends with an empty list and its one goodbye |
| `SrtNet.SessionCanEnd` | srt_net/srt_net.cpp:434-476 | from every state of every run, steps of the threads and one stop lead back to mode unknown without a thread |
| `SrtNet.StoppingStep` | srt_net/srt_net.cpp:226-259 | every step while stop is under way keeps: from the clearing on at most one client is listed, and none as long as one may still be; and no step makes a listing possible again |
| `SrtNet.StopLeavesExactly` | srt_net/srt_net.cpp:434-455 | in every run, when stop has closed the socket: it can return with a client listed if and only if the accept thread is inside srt_accept or holds a client not yet listed; never with more than one |
| `SrtNet.StopCanLeaveAClient` | srt_net/srt_net.cpp:445-455 | a run that reaches such a moment, so that stop can return with a client still listed |
| `RunTasks.RunTask.DoByTimeAndCount` | base/run_task.cpp:22-37 | whether the task fires, and its new count, time and start |
| `RunTasks.RunTask.DoByTimeOrCount` | base/run_task.cpp:39-54 | the same for either limit |
| `RunTasks.RunTask.Reset` | base/run_task.cpp:56-60 | forgets count and time, and keeps the start of the clock |
| `RunTasks.AtMostOnce` | base/run_task.cpp:22-54 | between resets a task fires at most once, for either kind of task and any clock |
| `RunTasks.FiresEverAfter` | base/run_task.cpp:22-92 | with a time limit, count 1 and a reset after every firing, a call fires if and only if it is at least the limit after the very first call |
| `RunTasks.FiresWhenFirstDue` | base/run_task.cpp:22-54 | a new task fires at exactly the first call that meets both limits, or one of them, for either kind; never if they are met before the first call |
| `RateControl.SampleStep` | srt_net/srt_cc.cpp:84-133 | a successful sample takes the windows, estimates and verdict of k samples to those of k + 1 |
| `RateControl.VerdictTiming` | srt_net/srt_cc.cpp:45-133 | over every run of readings with k successes the states are the headrooms of the windows of samples 1 to 6, 7 to 12 and so on since the start; the verdict is that of their sum if k mod 6 = 0 and k >= 36, and keep otherwise; the round trip estimate is at least 35 |
| `RateControl.JudgedByNumbers` | srt_net/srt_cc.cpp:107-132 | a sum above 31584 gives increase, one below -63169 decrease, and no other either |
| `RateControl.SampleInNumbers` | srt_net/srt_cc.cpp:54-56 | the rate times 1000000 and the round trip, rounded down, the latter at least 35 |
| `RateControl.WindowInNumbers` | srt_net/srt_cc.cpp:84-116 | the state of a window from its largest, total and smallest values, with the factors 0.6, 1.3 and 10528 |
| `RateControl.AverageCanWrap` | srt_net/srt_cc.cpp:98 | six times 1 Gbit/s average to 284 Mbit/s |
| `RateControl.KnownVerdicts` | srt_net/srt_cc.cpp:45-133 | steady samples of 8 Mbit/s and 50 ms: increase, decrease and keep with 10, 100 and 59 packets in flight |
| `RateControl.BitrateStep` | srt_net/srt_cc.cpp:19-31 | one update keeps the bitrate in [0.34 s - 1, 1.404 s], truncation included |
| `RateControl.EncoderStaysInBand` | srt_net/srt_cc.cpp:14-43 | for a fixed stream bitrate s >= 0 no run of verdicts takes the bitrate out of the band |
| `RateControl.BitrateMoves` | srt_net/srt_cc.cpp:16-31 | increase never lowers, and below 1.3 s multiplies by 1.08; decrease never raises, and above 0.4 s multiplies by 0.85; both rounded down; keep keeps |
| `RateControl.KnownBitrates` | srt_net/srt_cc.cpp:22-28 | from 1000 at 1000: 1080 and 850 |
| `RateControl.NeverLowered` | srt_net/srt_cc.cpp:14-43 | a run of verdicts without decrease never lowers the bitrate |
| `RateControl.NeverRaised` | srt_net/srt_cc.cpp:14-43 | a run of verdicts without increase never raises it |
| `RateControl.SrtCongestionCtrl.UpdateRTT` | srt_net/srt_cc.cpp:84-92 | the window of six and its minimum |
| `RateControl.SrtCongestionCtrl.UpdateMaxBW` | srt_net/srt_cc.cpp:94-103 | the window of six, its maximum and its average by a 32-bit sum |
| `RateControl.SrtCongestionCtrl.BitrateGetState` | srt_net/srt_cc.cpp:105-133 | the new state and the verdict |
| `RateControl.SrtCongestionCtrl.CongestionCtrl` | srt_net/srt_cc.cpp:45-67 | a call takes one reading if its task fires, and nothing otherwise |
| `RateControl.SrtCongestionCtrl.UpdateVideoEncodeBitrate` | srt_net/srt_cc.cpp:14-43 | a call moves the bitrate by the rule of the verdict if its task fires, and reports exactly whether it changed |
| `PrefixFilters.PrefixedConcat` | 3rd/openssl/apps/bf_prefix.c:81-137 | filtering a text is filtering its parts, line state carried over |
| `PrefixFilters.PrefixedIsByLine` | 3rd/openssl/apps/bf_prefix.c:100-134 | from a line start, the output is every line with the prefix in front |
| `PrefixFilters.LinesAre` | 3rd/openssl/apps/bf_prefix.c:116-120 | the lines are the text again, with a line feed at the end of each but perhaps the last and nowhere else |
| `PrefixFilters.KnownLines` | 3rd/openssl/apps/bf_prefix.c:100-134 | two lines and their prefixes |
| `PrefixFilters.WovenExactly` | 3rd/openssl/apps/bf_prefix.c:106-112 | the output is the prefixed text if and only if the prefix was taken whole at every line |
| `PrefixFilters.PrefixCanBeCut` | 3rd/openssl/apps/bf_prefix.c:106-112 | an output that lacks a character of the prefix |
| `PrefixFilters.PrefixFilter.Write` | 3rd/openssl/apps/bf_prefix.c:81-137 | with any partial writes downstream, of prefix and of data: on success all is written and counted; on failure what was written and what the rest calls for still make up the whole, with as much of the prefix as was taken |
| `PrefixFilters.WritePieces` | 3rd/openssl/apps/bf_prefix.c:81-137 | a text written in any pieces comes out as its lines, each with the prefix, if and only if the prefix was taken whole at every line; without a prefix it passes through |
| `NextProtos.NextProtosParse` | 3rd/openssl/apps/apps.c:1964-2010 | for every input the list of its non-empty fields with exact length, all stores in bounds; none exactly if the input is empty or of 65535 bytes or more, a field exceeds 255, or all fields are empty |
| `NextProtos.NamesRoundTrip` | 3rd/openssl/apps/apps.c:1964-2010 | a peer that reads the list gets the non-empty fields in order |
| `NextProtos.FieldsJoined` | 3rd/openssl/apps/apps.c:1978 | the fields hold no comma, and joined by commas give the input |
| `NextProtos.FieldsUnique` | 3rd/openssl/apps/apps.c:1978 | they are the only such fields |
| `NextProtos.KnownNames` | 3rd/openssl/apps/apps.c:1964-2010 | "h2,http/1.1" becomes its two names behind their lengths 2 and 8 |
| `SpawnLoop.ChildTable.Reaped` | 3rd/openssl/apps/ocsp.c:938-954 | a reaped child is found within the first procs slots and leaves the table; no internal error |
| `SpawnLoop.ChildTable.Forked` | 3rd/openssl/apps/ocsp.c:989-1001 | a forked child gets a free slot; no internal error |
| `SpawnLoop.LiveCount` | 3rd/openssl/apps/ocsp.c:911-1004 | procs is the number of occupied slots and of live children |
| `SpawnLoop.Supervise` | 3rd/openssl/apps/ocsp.c:924-1004 | in every run the system can produce, procs ends as the number of children forked and not waited for, at most multi, and neither internal error is reached |

## Left out

- `MpegTsMuxer::createNull`: it emits a bare header of four bytes, so nothing said of packets holds of it.
- Descriptors: their encoding is not implemented in the source. Reading steps over them (`ForeignTables.ElementsRead`); `readString` does not give their bytes.
- Members of `EsFrame` that its constructor leaves uninitialised are taken as 0. A frame that comes from the muxer overwrites all of them before it is delivered.
- Callbacks are taken to be set. What they are given is recorded (`emitted`, `trace`); the tag and flag passed through to the output callback are not modelled.
- The muxer's mutex: calls are taken one after another.
- 32-bit overflow of buffer sizes and positions: a buffer is taken to be smaller than 2 GB.
- `write3Bytes`, `write8Bytes`, `read3Bytes` and `read8Bytes` of the buffer, which only add widths to the common loops, and the `print` methods.
- `simple/simple_mpegts_muxer.cpp`: a thin wrapper with one PID.
- The SRT library, sockets, address resolution and socket options: their results are arbitrary inputs of the state machine. Data callbacks, `sendData`, `getActiveClients` and the call of `clientDisconnected` that a client makes for its own connection are not modelled.
- Statistics values and the clock: inputs of the controller and of tasks. Doubles are exact reals, and 64-bit integers do not overflow; the 32-bit accumulation of bandwidths is modelled.
- SpawnLoop.Supervise: signals, `killall`, pauses and what a child does are not modelled; a run is the sequence of answers of `waitpid` and `fork`.
- The other OpenSSL applications, the logger, the Qt application, the JNI wrappers and the WebRTC stubs.
