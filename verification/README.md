# Proofs about a set of HLS designs

This project models the clocked cores of a repository of high-level-synthesis designs and proves what
they are for. Each HLS function is one call of a method: its `static` variables are the fields of a
class, its `hls::stream` parameters are sequences that a call reads from the front and appends to at the
end. Ghost fields record what has gone in and out. `Valid()` ties the registers to a closed description
of that history, every method keeps it, and lemmas about the description say what the history means.
Where stages are connected by streams, a run is any schedule of arrivals, calls and, where the code looks
at it, full streams.

- `Arith`, `Sealing`: arithmetic, and the predicate behind which long invariants are sealed.
- `SrcCtrl`, `SrcCoef`, `SrcMac`, `MultiSrc`: the multi-channel sample rate converter. A 47-tap systolic
  MAC chain, time-multiplexed over eight channels, with skewed coefficients and a rational-rate
  controller, is an ordinary polyphase resampler for each channel, 55 calls later.
- `RxApp`: the TCP offload engine's read path. A read that crosses the 64 KiB edge of a ring buffer is
  split into two bursts, and a realigner of six states joins the words again.
- `Lookup3`, `HashPath`: the key-value store's hash. A gearbox from 16 to 12 bytes feeds a state machine
  that computes Bob Jenkins' lookup3, one part of a block each call.
- `MemWrite`: what its write stage decides about a SET.
- `Concurrency`: its concurrency control. A ring of eight operations in flight keeps overlapped
  operations on one bucket apart; the overlapped run is equivalent to the serial one.
- `SsrFir`: sixteen sub-filters in four phases are one serial filter of 128 taps, with a bound on what
  truncation takes away, modulo the wrap-around of the registers.
- `ErasureRank`, `RsErasure`: the Reed-Solomon erasure kernel. Ranking of erasure patterns, and a product
  over GF(2^8) computed bit by bit.
- `OnesComplement`, `IpChecksum`, `EthernetFrame`, `SendNetwork`: sending IP packets in Ethernet frames.
- `IpReceive`, `IpQueues`, `IpFilter`, `IpNetwork`: receiving them; and the round trip.
- `Icmp`, `IcmpNetwork`: the echo responder.

A word on a 64-bit stream is eight bytes, eight keep flags and `last`. "The words carry a packet" means
that the kept bytes are the packet's, in order, eight to a word but for the last; lanes that are not kept
hold any stale bytes. `Canon(t)` is the ones' complement sum of 16-bit words that add up to t, as in
section 1 of RFC 1071.

## Model

| member | source | states |
|---|---|---|
| `SrcRates.RatioBlocks` | DSP/multi_chan_conv_fil/src/multiSRC.h:70-81 | The ROM blocks of the seven ratios tile the 32 columns, and base plus step never leaves five bits. |
| `SrcReference.NeverAhead` | DSP/multi_chan_conv_fil/src/srcCtrl.cpp:69-88 | A channel never makes an output before the input that it needs. |
| `SrcReference.OutputsAreCeil` | DSP/multi_chan_conv_fil/src/srcCtrl.cpp:59-88 | Conservation: when a channel has nothing left to compute, it has made exactly ceil(inputs * L / M) outputs. |
| `SrcController.SlotStep` | DSP/multi_chan_conv_fil/src/srcCtrl.cpp:59-88 | The registers phase, tokeep and isskip follow the counts of inputs and outputs: tokeep says that an output is ready, it excludes isskip, and the phase of an output is outputs * M mod L. |
| `SrcController.CallAnswer` | DSP/multi_chan_conv_fil/src/srcCtrl.cpp:36-99 | The same over all channels and any history: the call serves channel t mod 8, its answers are the reference's, and the other channels' registers still track theirs. |
| `SrcController.SrcCtrl.Step` | DSP/multi_chan_conv_fil/src/srcCtrl.cpp:29-101 | Every call answers as the reference counter does: valid exactly if an output is made, shift exactly if an input is taken, the address inside the ratio's own ROM block. |
| `SrcController.SrcCtrl.Control` | DSP/multi_chan_conv_fil/src/srcCtrl.cpp:36-99 | What one call does to the three register files and the two counters, in five-bit arithmetic. |
| `SrcCoefRom.DelayAdvance` | DSP/multi_chan_conv_fil/src/srcCoef.cpp:36-41 | Tap i reads the address entered chMux + 1 + i calls before. |
| `SrcCoefRom.SrcCoef.Step` | DSP/multi_chan_conv_fil/src/srcCoef.cpp:28-44 | Each call returns, for every tap, the coefficient at that address, for any ROM. |
| `SrcDelayLine.DotBound` | DSP/multi_chan_conv_fil/src/srcMac.cpp:50-53 | m products of 16-bit samples and 18-bit coefficients stay within m * 2^32. |
| `SrcMacChain.SkewAdvance` | DSP/multi_chan_conv_fil/src/srcMac.cpp:45-79 | The systolic skew: after any calls tap i holds the image of one plain delay line per channel as it was i slots before, and the next call keeps that. |
| `SrcMacChain.LastAcc` | DSP/multi_chan_conv_fil/src/srcMac.cpp:53-83 | So the accumulator that leaves the chain is the whole dot product of one single slot. |
| `SrcMacChain.FortyBits` | DSP/multi_chan_conv_fil/src/srcMac.cpp:50-69 | With up to 47 taps no accumulator of the chain leaves 40 bits. |
| `SrcMacChain.SrcMac.Step` | DSP/multi_chan_conv_fil/src/srcMac.cpp:26-85 | A call of the chain as it runs in place returns the dot product of the slot entered chMux + numTap calls ago. |
| `SrcMacChain.SrcMac.ClockChain` | DSP/multi_chan_conv_fil/src/srcMac.cpp:45-79 | The loop from the last tap down reads only old registers of the tap before: all taps are clocked at once. |
| `SrcMacChain.SrcMac.ClockTap` | DSP/multi_chan_conv_fil/src/srcMac.cpp:47-64 | One tap's registers after a call, and no other tap's change. |
| `Resampling.FirIsPolyphase` | DSP/multi_chan_conv_fil/src/multiSRC.cpp:36-46 | The filter at phase j*M mod L over the inputs so far is output j of the polyphase resampler. |
| `Resampling.NeverLate` | DSP/multi_chan_conv_fil/src/srcCtrl.cpp:59-88 | A channel takes an input only when the next output needs it. |
| `Resampling.OutputNeedsNewest` | DSP/multi_chan_conv_fil/src/srcCtrl.cpp:59-88 | Hence output j is computed exactly when input floor(j*M/L) is the newest. |
| `Resampling.ChannelIsolation` | DSP/multi_chan_conv_fil/src/multiSRC.cpp:30-53 | Channels never influence each other: equal slots of one channel give equal counts and inputs, whatever the others do. |
| `MultiSrcFilter.DotIsFir` | DSP/multi_chan_conv_fil/src/multiSRC.cpp:39-47 | The skew of the coefficients and that of the samples cancel: one slot meets one single ROM column. |
| `MultiSrcFilter.ShiftedIsInputs` | DSP/multi_chan_conv_fil/src/multiSRC.cpp:39-47 | The delay line of a channel holds exactly the inputs that the reference takes. |
| `MultiSrcFilter.WiredDelivers` | DSP/multi_chan_conv_fil/src/multiSRC.cpp:39-53 | The three blocks together deliver, for each slot, the output of the polyphase resampler. |
| `MultiSrcFilter.MultiSrc.Step` | DSP/multi_chan_conv_fil/src/multiSRC.cpp:30-53 | What leaves the filter in a call belongs to the slot entered chMux + numTap calls before; the valid flag's delay line keeps step with the MAC chain for any ratios at all. |
| `MultiSrcFilter.EmittedIsMade` | DSP/multi_chan_conv_fil/src/multiSRC.cpp:49-53 | The number of valid outputs of a channel so far is the number of outputs the reference made 55 calls before. |
| `MultiSrcFilter.DueIsRight` | DSP/multi_chan_conv_fil/src/multiSRC.cpp:30-53 | Outputs that are due are right by the run's inputs and outputs alone. |
| `MultiSrcFilter.Run` | DSP/multi_chan_conv_fil/src/multiSRC.cpp:30-53 | For any ROM, taps, channels and run with fixed ratios: output at call t is valid exactly if slot t - chMux - numTap makes one, and the j-th valid output of a channel is output j of the polyphase resampler on that channel's own inputs. |
| `MultiSrcFilter.PolyphaseBound` | DSP/multi_chan_conv_fil/src/srcMac.cpp:50-53 | Every such output stays within 47 * 2^32. |
| `MultiSrcFilter.Convert` | DSP/multi_chan_conv_fil/src/multiSRC.cpp:30-53 | The repository's filter, eight channels and 47 taps: the same, exactly 55 calls late, in 40 bits. |
| `RxStream.KeepMapping` | Acceleration/tcp_ip/hls/toe/toe.cpp:60-67 | The loop counts the keep flags. |
| `RxStream.ReturnKeep` | Acceleration/tcp_ip/hls/toe/toe.cpp:69-76 | The loop sets, of the eight flags, those of the lowest lanes. |
| `RxMemory.SplitPartition` | Acceleration/tcp_ip/hls/toe/toe.cpp:149-166 | The two commands of a split partition the requested wrapping read: in order, neither crosses the edge, the first ends at it and the second begins at address 0. |
| `RxBreakdown.RxAppMemAccessBreakdown.Step` | Acceleration/tcp_ip/hls/toe/toe.cpp:139-169 | Any sequence of calls and full streams issues exactly the commands of the requests taken, less the second half still pending, and one flag each. |
| `RxMemoryPort.DummyMemory.Step` | Acceleration/tcp_ip/hls/toe/dummy_memory.cpp:38-83 | The memory delivers, command after command, the words of one burst each. |
| `RxMemoryPort.DummyMemory.SetReadCmd` | Acceleration/tcp_ip/hls/toe/dummy_memory.cpp:38-46 | The registers stand for the bytes of the command. |
| `RxMemoryPort.DummyMemory.ReadWord` | Acceleration/tcp_ip/hls/toe/dummy_memory.cpp:56-83 | One word carries the next up to eight bytes, the address wraps, and the rest is left. |
| `RxRealigner.StreamKeeps` | Acceleration/tcp_ip/hls/toe/toe.cpp:181-235 | A word of the first burst: no byte of the request is lost, repeated or moved between what is output, what is held and what is to come. |
| `RxRealigner.UnmergedKeeps` | Acceleration/tcp_ip/hls/toe/toe.cpp:236-244 | The same when the bursts meet at a word's edge. |
| `RxRealigner.JoinKeeps` | Acceleration/tcp_ip/hls/toe/toe.cpp:245-288 | The same while the second burst is shifted into the gap, for every offset from 1 to 7 and every length of the last word. |
| `RxRealigner.ReadKeeps` | Acceleration/tcp_ip/hls/toe/toe.cpp:180-288 | All reading states together. |
| `RxRealigner.ResidueKeeps` | Acceleration/tcp_ip/hls/toe/toe.cpp:289-297 | The residue word completes the request with the right keep and last. |
| `RxRealigner.RxAppMemDataRead.Step` | Acceleration/tcp_ip/hls/toe/toe.cpp:171-299 | One call, with any part of the streams waiting and the output full or not, keeps that; and when it must move. |
| `RxRealigner.RxAppMemDataRead.ReadMerged` | Acceleration/tcp_ip/hls/toe/toe.cpp:245-288 | The two states that shift: the word out is the bytes held and the first of the new word, with keep and last when these are all. |
| `RxRealigner.RxAppMemDataRead.ReadWord` | Acceleration/tcp_ip/hls/toe/toe.cpp:210-288 | The switch over the states, on the registers. |
| `RxAppPath.WordsExpected` | Acceleration/tcp_ip/hls/toe/toe.cpp:139-169 | The words in the streams are always a first part of what the requests call for. |
| `RxAppPath.NothingLeft` | Acceleration/tcp_ip/hls/toe/toe.cpp:139-299 | Absence of deadlock: when no stage can move, everything has been output and the realigner is idle. |
| `RxAppPath.RxPath.Delivered` | Acceleration/tcp_ip/hls/toe/toe.cpp:139-299 | In every reachable state the output is a first part of the unsplit wrapping reads. |
| `RxAppPath.RxPath.Settle` | Acceleration/tcp_ip/hls/toe/toe.cpp:139-299 | Calling the stages while they can move comes to an end, from every reachable state. |
| `RxAppPath.Simulate` | Acceleration/tcp_ip/hls/toe/toe.cpp:139-299 | For every memory, requests, schedule and stall: the response stream ends as the words (bytes, keep, last) of the unsplit wrapping reads, the realigner in RXAPP_IDLE, and what was out at the end of the schedule is a first part of it. |
| `Lookup3.MixBijective` | Acceleration/memcached/hls/sources/hashTable/hash.cpp:63-82 | The block step, spread over four calls, has a two-sided inverse. |
| `Lookup3.AddInjective` | Acceleration/memcached/hls/sources/hashTable/hash.cpp:60-62 | From given registers, different blocks lead to different ones. |
| `Lookup3.AddReaches` | Acceleration/memcached/hls/sources/hashTable/hash.cpp:60-62 | And every state is reached, by the block given. |
| `Lookup3.BlockBijective` | Acceleration/memcached/hls/sources/hashTable/hash.cpp:57-89 | So for given registers the whole step of a block is a bijection of the block: an inverse block in both directions. |
| `Lookup3.AddSeparates` | Acceleration/memcached/hls/sources/hashTable/hash.cpp:60-62 | Under a given block, different registers stay different. |
| `Lookup3.OneBlockSeparates` | Acceleration/memcached/hls/sources/hashTable/hash.cpp:57-89 | Keys of one length that differ in exactly one 12-byte block, not the last, always reach HASH_FINAL in different states. |
| `Lookup3.AbsorbThenFinish` | Acceleration/memcached/hls/sources/hashTable/hash.cpp:81-157 | That state and the last block determine the hash. |
| `KeyChunks.AddTail` | Acceleration/memcached/hls/sources/hashTable/hash.cpp:98-153 | Masking the words of a short last block is padding it with zeros: stale bytes beyond the key do not count. |
| `BobjStage.ReadHeads` | Acceleration/memcached/hls/sources/hashTable/hash.cpp:57-157 | In every reading state the registers still head for lookup3 of the key, given a word that begins with its next bytes. |
| `BobjStage.TickHeads` | Acceleration/memcached/hls/sources/hashTable/hash.cpp:69-190 | So they do in every other state; the hash is output exactly on the way back to HASH_IDLE. |
| `BobjStage.Bobj.Step` | Acceleration/memcached/hls/sources/hashTable/hash.cpp:31-192 | Under any arrivals the outputs are the hashes of the keys done so far, and no state waits for nothing. |
| `BobjStage.Bobj.AddLast` | Acceleration/memcached/hls/sources/hashTable/hash.cpp:98-153 | The twelve cases add masked words. |
| `BobjStage.Bobj.Internal` | Acceleration/memcached/hls/sources/hashTable/hash.cpp:69-191 | The states that need no input, on the registers. |
| `KeyResizerStage.ReadResizes` | Acceleration/memcached/hls/sources/hashTable/hash.cpp:229-292 | Reading a stripe: the bytes held back are exactly those of the key that have been read and not output, in every state. |
| `KeyResizerStage.ReadCarries` | Acceleration/memcached/hls/sources/hashTable/hash.cpp:229-292 | The word output begins with the key's next twelve bytes, or what is left of them. |
| `KeyResizerStage.FlushResizes` | Acceleration/memcached/hls/sources/hashTable/hash.cpp:267-313 | The same for a call that needs no stripe. |
| `KeyResizerStage.FlushCarries` | Acceleration/memcached/hls/sources/hashTable/hash.cpp:267-313 | And for its word. |
| `KeyResizerStage.ReadyIffNotStuck` | Acceleration/memcached/hls/sources/hashTable/hash.cpp:278-292 | A key that is out leaves the gearbox idle if and only if its length is not 48m+1 to 48m+12 with m at least 1; else it is in KS_STEP0. |
| `KeyResizerStage.StuckForever` | Acceleration/memcached/hls/sources/hashTable/hash.cpp:278-292 | From there no stripes whatever lead back: each becomes a word, and no length is read again. |
| `KeyResizerStage.FortyNineSticks` | Acceleration/memcached/hls/sources/hashTable/hash.cpp:208-292 | The concrete case: four stripes of a key of 49 bytes end in KS_STEP0, and no shorter key does. |
| `KeyResizerStage.AllTakenIff` | Acceleration/memcached/hls/sources/hashTable/hash.cpp:194-315 | Exactly when only the last key of a run has such a length are all lengths read. |
| `KeyResizerStage.HashKeyResizer.Step` | Acceleration/memcached/hls/sources/hashTable/hash.cpp:194-315 | Under any arrivals the words output carry the keys read so far in blocks of twelve bytes, with their lengths and the seed. |
| `KeyResizerStage.HashKeyResizer.Load` | Acceleration/memcached/hls/sources/hashTable/hash.cpp:208-228 | KS_IDLE, on the registers. |
| `KeyResizerStage.HashKeyResizer.ReadStripe` | Acceleration/memcached/hls/sources/hashTable/hash.cpp:229-292 | The states that read a stripe, on the registers. |
| `KeyResizerStage.HashKeyResizer.Flush` | Acceleration/memcached/hls/sources/hashTable/hash.cpp:267-313 | Those that do not. |
| `HashPath.ResizerDone` | Acceleration/memcached/hls/sources/hashTable/hash.cpp:194-315 | When everything has arrived and the gearbox cannot move, every word of every key is out. |
| `HashPath.BobjDone` | Acceleration/memcached/hls/sources/hashTable/hash.cpp:31-192 | When all words and lengths are there and the hash cannot move, every hash is out. |
| `HashPath.Hash.Delivered` | Acceleration/memcached/hls/sources/hashTable/hash.cpp:317-328 | In every reachable state the hashes out are those of the first keys. |
| `HashPath.Hash.Settle` | Acceleration/memcached/hls/sources/hashTable/hash.cpp:317-328 | Calling the two stages while they can move comes to an end. |
| `HashPath.Simulate` | Acceleration/memcached/hls/sources/hashTable/hash.cpp:317-328 | For all keys of 1 to 255 bytes of which only the last may be of a stuck length, every schedule and all stale bytes: out come the lookup3 hashes with seed 13 of exactly the keys' bytes, all of them, in order. |
| `FilterRing.PushRing` | Acceleration/memcached/hls/sources/globals.cpp:81-89 | A push on the ring appends to the queue in its window; slots outside have status 0. |
| `FilterRing.PopRing` | Acceleration/memcached/hls/sources/globals.cpp:91-97 | A pop removes the oldest. |
| `FilterRing.ConcurrencyFilter.Push` | Acceleration/memcached/hls/sources/globals.cpp:81-89 | The array refines a queue of at most eight. |
| `FilterRing.ConcurrencyFilter.Pop` | Acceleration/memcached/hls/sources/globals.cpp:91-97 | The same; popping an empty queue wraps the level to 255. |
| `FilterRing.ConcurrencyFilter.Compare` | Acceleration/memcached/hls/sources/globals.cpp:99-108 | The loop over all eight slots finds exactly the conflicts in the queue. |
| `FilterRing.ConcurrencyFilter.Full` | Acceleration/memcached/hls/sources/globals.cpp:110-115 | Full is a queue of eight. |
| `CcStage.WritersAreYoungest` | Acceleration/memcached/hls/sources/hashTable/cc.cpp:83-94 | In every reachable state no operation in flight blocks a younger one: a SET or DELETE is the youngest of its filter address and a flush the youngest of all. |
| `CcStage.FreeIff` | Acceleration/memcached/hls/sources/hashTable/cc.cpp:56-60 | What the filter says of a request is what the operations in flight say. |
| `CcStage.ConcurrencyControl.Push` | Acceleration/memcached/hls/sources/hashTable/cc.cpp:83-94 | The push is never refused, and records how many operations had completed by then. |
| `CcStage.ConcurrencyControl.Step` | Acceleration/memcached/hls/sources/hashTable/cc.cpp:31-122 | Under any arrivals and completions: requests and key words leave in order, each operation completes once, and a call that can move gets on. |
| `MemReadStage.Command` | Acceleration/memcached/hls/sources/hashTable/memRead.cpp:50-58 | The address and count asked for cover the lines of the operation, whatever its operation code. |
| `MemReadStage.MemRead.Step` | Acceleration/memcached/hls/sources/hashTable/memRead.cpp:32-81 | Commands are those of the metadata words read, in order; key words pass, the short ones zeroed beyond the key. |
| `MemWriteStage.EvalSet` | Acceleration/memcached/hls/sources/hashTable/memWrite.cpp:114-161 | A SET fails exactly if it has no bin at all or no address, writes to the first bin with its key or else to the first free one, and otherwise, exactly if it has a bin with its key but no free one, the call takes no branch and writes no completion. |
| `MemWriteStage.EvalRepeatedly` | Acceleration/memcached/hls/sources/hashTable/memWrite.cpp:81-161 | Of any number of such calls none completes the SET if and only if no pool of addresses is found empty. |
| `BucketMemory.FootprintsDisjoint` | Acceleration/memcached/hls/sources/hashTable/memRead.cpp:49-58 | Different buckets never share a line if and only if keys have at most 112 bytes. |
| `BucketMemory.ReadsAreFresh` | Acceleration/memcached/hls/sources/hashTable/cc.cpp:56-93 | With such keys no operation the filter lets in reads a line before an older operation has written it. |
| `BucketMemory.Serializable` | Acceleration/memcached/hls/sources/hashTable/cc.cpp:56-93 | Every overlapped execution that the filter admits makes the reads and writes of the serial one. |
| `BucketMemory.StaleRead` | Acceleration/memcached/hls/sources/hashTable/memRead.cpp:49-58 | With any longer keys it admits an execution of two operations with a stale read. |
| `CcRun.Front.Guarantees` | Acceleration/memcached/hls/sources/hashTable/cc.cpp:31-122 | In every reachable state the operations in flight are safe together, and the operations passed on are the metadata words with their own hashes, in order. |
| `CcRun.Front.Settled` | Acceleration/memcached/hls/sources/hashTable/cc.cpp:73-82 | No request waits for ever: once those in flight have completed and nothing moves, all have been passed on. |
| `CcRun.RunIsHazardFree` | Acceleration/memcached/hls/sources/hashTable/cc.cpp:31-122 | From the trace of any run: an operation was let in when none of those that had not completed by that event blocked it. |
| `CcRun.RunIsSerial` | Acceleration/memcached/hls/sources/hashTable/cc.cpp:31-122 | So a run with keys of at most 112 bytes has the effect of doing one operation after the other. |
| `CcRun.PassedAt` | Acceleration/memcached/hls/sources/hashTable/cc.cpp:83-94 | Every operation was passed on by one event of the trace. |
| `CcRun.Simulate` | Acceleration/memcached/hls/sources/hashTable/cc.cpp:31-122 | For every schedule of arrivals, calls and completions, played on until nothing moves: at every moment of the trace the operations in flight are safe together; what is passed on are the requests that arrived, in order, each with its hash; and if each came with its key, all are passed on and complete, and their lines are asked for. |
| `FixedPoint.NearAdd` | DSP/ssr_fir/fir_super.h:83-99 | Errors of truncation add up, modulo 2^31. |
| `FixedPoint.Turns` | DSP/ssr_fir/fir_super.h:40-43 | Wrapping into a register takes off a multiple of its modulus. |
| `FixedPoint.NearWrap` | DSP/ssr_fir/fir_super.h:40-43 | Wrapping a register changes nothing modulo 2^31. |
| `FixedPoint.NearTruncate` | DSP/ssr_fir/fir_super.h:40-43 | Truncating adds less than a unit. |
| `SerialFir.FourBranches` | DSP/ssr_fir/fir_super.cpp:202-220 | The polyphase decomposition of a serial filter. |
| `SubFilter.AccNear` | DSP/ssr_fir/fir_super.h:83-117 | The accumulator of any number of taps is the exact sum less at most 2^11 - 1 a tap, modulo 2^31, in the formats with wrap-around. |
| `SubFilter.OutputNear` | DSP/ssr_fir/fir_super.h:102-127 | The same for the output after conversion to 16 bits. |
| `SubFilter.DotIsBranch` | DSP/ssr_fir/fir_super.h:114-117 | The registers of a sub-filter and its bank give one branch of the serial filter. |
| `SubFilter.FirNosymObj.Process` | DSP/ssr_fir/fir_super.h:102-127 | A call outputs its branch of the samples before it and then shifts. |
| `SubFilter.FirNosymObj.Shift` | DSP/ssr_fir/fir_super.h:119-123 | The loop shifts in place. |
| `SsrFir.Fir.Fir0` | DSP/ssr_fir/fir_super.cpp:33-77 | The four sub-filters of phase 0 make its output. |
| `SsrFir.Fir.Fir1` | DSP/ssr_fir/fir_super.cpp:78-118 | Phase 1. |
| `SsrFir.Fir.Fir2` | DSP/ssr_fir/fir_super.cpp:119-159 | Phase 2. |
| `SsrFir.Fir.Fir3` | DSP/ssr_fir/fir_super.cpp:160-197 | Phase 3. |
| `SsrFir.InitCoef` | DSP/ssr_fir/fir_super.cpp:202-220 | The table holds every fourth coefficient in each bank. |
| `SsrFir.FirSuper.Process` | DSP/ssr_fir/fir_super.cpp:223-236 | One call outputs the four phases of the frame before. |
| `SsrFir.OutNear` | DSP/ssr_fir/fir_super.cpp:223-236 | The output is the exact 128-tap sum at scale 2^-30, rounded down by less than 2^18 + 2^17, modulo 2^31. |
| `SsrFir.InRange` | DSP/ssr_fir/fir_super.h:40-43 | If the exact sum is in range, wrapping on the way does no harm at all. |
| `SsrFir.OutPrefix` | DSP/ssr_fir/fir_super.cpp:223-236 | Causality: later samples never change an output. |
| `SsrFir.Run` | DSP/ssr_fir/fir_super.cpp:223-236 | For all coefficients and frames the parallel filter is the serial one of 128 taps, one frame late, within that bound. |
| `ErasureRank.LargerMember` | DSP/reed_solomon_erasure/src/rs_erasure.c:71-74 | What the set of larger patterns is. |
| `ErasureRank.WordsSize` | DSP/reed_solomon_erasure/src/rs_roms.c:49-58 | There are binomial(n, w) patterns of n bits with w ones. |
| `ErasureRank.RankCounts` | DSP/reed_solomon_erasure/src/rs_erasure.c:62-78 | For any length and weight the scan adds up exactly the number of larger patterns. |
| `ErasureRank.RankBound` | DSP/reed_solomon_erasure/src/rs_erasure.c:62-78 | It is less than the number of patterns. |
| `ErasureRank.RankInjective` | DSP/reed_solomon_erasure/src/rs_erasure.c:62-78 | Different patterns have different ranks. |
| `ErasureRank.Unrank` | DSP/reed_solomon_erasure/src/rs_erasure.c:62-78 | Every rank has a pattern. |
| `ErasureRank.ScanBound` | DSP/reed_solomon_erasure/src/rs_erasure.c:59-78 | With any other number of ones the scan counts at most all patterns, and all of them exactly for the smallest. |
| `RsErasure.TableIsChoose` | DSP/reed_solomon_erasure/src/rs_roms.c:50-58 | The table holds the binomial coefficients. |
| `RsErasure.Pad` | DSP/reed_solomon_erasure/src/rs_erasure.c:52-57 | Exclusive or, shift and or of the 16-bit words give the erased symbols of the code with ones before them. |
| `RsErasure.ErasedBits` | DSP/reed_solomon_erasure/src/rs_erasure.c:52 | An erased symbol is one whose bit is not set in the survival pattern. |
| `RsErasure.PadLenBits` | DSP/reed_solomon_erasure/src/rs_erasure.c:55 | The exclusive or and the shift of the code index give the length of the padding. |
| `RsErasure.LowOnesValue` | DSP/reed_solomon_erasure/src/rs_erasure.c:52-56 | (1 << k) - 1 is k ones. |
| `RsErasure.ShlValue` | DSP/reed_solomon_erasure/src/rs_erasure.c:56 | Shifting bits is multiplying what is kept by a power of two. |
| `RsErasure.ScanPattern` | DSP/reed_solomon_erasure/src/rs_erasure.c:59-78 | The loop over the sixteen bits, padding included, is the scan of the erased symbols alone. |
| `RsErasure.FindIndex` | DSP/reed_solomon_erasure/src/rs_erasure.c:42-78 | Both together find the row. |
| `RsErasure.IndexCounts` | DSP/reed_solomon_erasure/src/rs_erasure.c:42-78 | With four erasures the row is the code's base plus the number of larger patterns, and lies in the code's block. |
| `RsErasure.IndexInjective` | DSP/reed_solomon_erasure/src/rs_erasure.c:42-78 | No two patterns of four erasures, of one code or of two, share a row. |
| `RsErasure.IndexOnto` | DSP/reed_solomon_erasure/src/rs_erasure.c:42-78 | Every row of a block is that of some pattern. |
| `RsErasure.IndexInBlock` | DSP/reed_solomon_erasure/src/rs_erasure.c:42-78 | For any pattern at all the row leaves the block, by one, if and only if the erased symbols are among the last four and not all of them. |
| `RsErasure.BeyondTheRom` | DSP/reed_solomon_erasure/src/rs_erasure.c:86 | So the ROM is read beyond its end if and only if the code is the longest and the survival pattern above 0xfff0. |
| `BinaryRing.Commutative` | DSP/reed_solomon_erasure/src/rs_erasure.c:98-102 | The product computed by shifting and adding commutes, from the laws of shift and add alone. |
| `BinaryRing.Associative` | DSP/reed_solomon_erasure/src/rs_erasure.c:98-102 | It is associative. |
| `BinaryRing.Distributive` | DSP/reed_solomon_erasure/src/rs_erasure.c:98-102 | It distributes over addition on both sides. |
| `BinaryRing.Exchange` | DSP/reed_solomon_erasure/src/rs_erasure.c:98-102 | Multiplying by one element and then another can be done in either order. |
| `GfMatrix.ApplyProduct` | DSP/reed_solomon_erasure/src/rs_erasure.c:92-106 | Applying one matrix after another is applying their product. |
| `GfMatrix.DecodesWhatWasEncoded` | DSP/reed_solomon_erasure/src/rs_erasure.c:92-106 | A matrix undoes the one of which it is an inverse. |
| `Gf256.LawsHold` | DSP/reed_solomon_erasure/src/rs_erasure.c:98-102 | Bytes with exclusive or and the shift of the code satisfy the laws, for every polynomial of degree 8. |
| `RsErasure.Element` | DSP/reed_solomon_erasure/src/rs_erasure.c:98-102 | One turn of the innermost loop adds and shifts in that ring. |
| `RsErasure.Column` | DSP/reed_solomon_erasure/src/rs_erasure.c:94-104 | The loop over the code symbols leaves each register shifted as often as bits have been done and each symbol with the products so far. |
| `RsErasure.Multiply` | DSP/reed_solomon_erasure/src/rs_erasure.c:85-106 | The three nested loops, in place, leave the product of the matrix and the data. |
| `RsErasure.Decode` | DSP/reed_solomon_erasure/src/rs_erasure.c:34-108 | The whole function, for any ROM and polynomial. |
| `RsErasure.Recovers` | DSP/reed_solomon_erasure/src/rs_erasure.c:85-106 | Data encoded by a matrix whose inverse is in the row comes back. |
| `RsErasure.RecoversErased` | DSP/reed_solomon_erasure/src/rs_erasure.c:85-106 | If the row takes the survivors' matrix to that of the lost symbols, the output is the lost symbols. |
| `OnesComplement.FoldAdds` | Acceleration/tcp_ip/hls/mac_ip_encode/mac_ip_encode.cpp:60-123 | Adding two folded sums and folding once is exact in 17 bits. |
| `OnesComplement.ComplementCompletes` | Acceleration/tcp_ip/hls/mac_ip_encode/mac_ip_encode.cpp:60-123 | A sum and a checksum make all ones if and only if the checksum is the complement, or the other zero. |
| `OnesComplement.AddStands` | Acceleration/tcp_ip/hls/mac_ip_encode/mac_ip_encode.cpp:60-150 | The four lanes together stand for the sum of all 16-bit words added so far, whichever lanes are used. |
| `OnesComplement.CombineStands` | Acceleration/tcp_ip/hls/mac_ip_encode/mac_ip_encode.cpp:50-80 | Adding up the lanes loses nothing. |
| `OnesComplement.SumUp` | Acceleration/tcp_ip/hls/mac_ip_encode/mac_ip_encode.cpp:84-150 | The unrolled loops over the lanes, in place. |
| `IpChecksum.RestOfHeader` | Acceleration/tcp_ip/hls/mac_ip_encode/mac_ip_encode.cpp:84-150 | For each number of words left of the header, even or odd, exactly these are summed up. |
| `IpChecksum.ChecksumOfPacket` | Acceleration/tcp_ip/hls/mac_ip_encode/mac_ip_encode.cpp:34-164 | For every header length from 5 to 15 words and any packet, one checksum is output, the complement of the ones' complement sum of the header without its checksum field (section 3.1 of RFC 791), and the stage is ready for the next packet. |
| `IpChecksum.FilledVerifies` | Acceleration/tcp_ip/hls/mac_ip_encode/mac_ip_encode.cpp:34-213 | A header sums up to all ones if and only if it holds that checksum, or the other zero. |
| `IpChecksum.ComputeIpChecksum.Step` | Acceleration/tcp_ip/hls/mac_ip_encode/mac_ip_encode.cpp:34-164 | A call and all later ones output what was to be output, whatever is still to arrive. |
| `IpChecksum.InsertsInto` | Acceleration/tcp_ip/hls/mac_ip_encode/mac_ip_encode.cpp:169-213 | The checksum goes into bytes 10 and 11 of its own packet and nothing else changes. |
| `IpChecksum.IpChecksumInsert.Step` | Acceleration/tcp_ip/hls/mac_ip_encode/mac_ip_encode.cpp:169-213 | The same for a call: the words still to come and the checksums still to come stay aligned. |
| `FrameEncoder.Encodes` | Acceleration/tcp_ip/hls/mac_ip_encode/mac_ip_encode.cpp:252-340 | A packet whose address was found leaves as destination, source, 0x0800 and the packet (Frame Format of RFC 894), for every length modulo 8. |
| `FrameEncoder.Drops` | Acceleration/tcp_ip/hls/mac_ip_encode/mac_ip_encode.cpp:252-340 | One whose address was not found is dropped as a whole, and nothing else. |
| `FrameEncoder.HandleArpReply.Step` | Acceleration/tcp_ip/hls/mac_ip_encode/mac_ip_encode.cpp:252-340 | A call and all later ones output what was to be output. |
| `IpSender.Simulate` | Acceleration/tcp_ip/hls/mac_ip_encode/mac_ip_encode.cpp:345-392 | The stages connected, under every schedule: out comes what they make of all the words and replies. |
| `IpRoundTrip.SendsExactly` | Acceleration/tcp_ip/hls/mac_ip_encode/mac_ip_encode.cpp:345-392 | Of any sequence of packets and replies, those found leave, in order, framed and with their checksums. |
| `MacFilter.RoutesFrame` | Acceleration/tcp_ip/hls/ip_handler/ip_handler.cpp:57-106 | A frame goes as a whole to the output of its type if it is for this node or everyone, else nowhere. |
| `MacFilter.DetectMacProtocol.Step` | Acceleration/tcp_ip/hls/ip_handler/ip_handler.cpp:57-106 | A call and all later ones output what was to be output, on both streams. |
| `LengthFilter.PassesIff` | Acceleration/tcp_ip/hls/ip_handler/ip_handler.cpp:108-156 | A frame passes as a whole if and only if its datagram is not too long. |
| `LengthFilter.LengthCheck.Step` | Acceleration/tcp_ip/hls/ip_handler/ip_handler.cpp:108-156 | A call and all later ones output what was to be output. |
| `IpStrip.Strips` | Acceleration/tcp_ip/hls/ip_handler/ip_handler.cpp:165-289 | Exactly the first fourteen bytes of a frame are taken away, for every length modulo 8. |
| `IpStrip.FlagsOfFrame` | Acceleration/tcp_ip/hls/ip_handler/ip_handler.cpp:165-289 | A frame of more than two words, with any header length, puts exactly one entry each into the queues of versions and fragments, and one into the queue of sums if and only if its header length is not 4 and it reaches the word in which the header ends; that entry stands for the bytes that are summed up and the address that is compared. |
| `IpStrip.FlagsOfIpFrame` | Acceleration/tcp_ip/hls/ip_handler/ip_handler.cpp:165-289 | If it holds all of these bytes the entries depend on nothing else, whatever stale lanes hold. |
| `IpStrip.JudgedParts` | Acceleration/tcp_ip/hls/ip_handler/ip_handler.cpp:219-260 | Which bytes these are: with header length 5 the header and the destination; with even lengths two bytes more; from 7 on the second half of the address is taken from a later word. |
| `IpStrip.EvenHeader` | Acceleration/tcp_ip/hls/ip_handler/ip_handler.cpp:234-248 | A correct header of even length is still taken for correct if and only if the two bytes after it are both 0 or both 255. |
| `IpStrip.CheckIpChecksum.Step` | Acceleration/tcp_ip/hls/ip_handler/ip_handler.cpp:165-289 | A call and all later ones output what was to be output, on all four streams. |
| `IpDropper.Check` | Acceleration/tcp_ip/hls/ip_handler/ip_handler.cpp:291-307 | The verdict is that the lanes sum up to all ones and the address is ours. |
| `IpDropper.PassesIff` | Acceleration/tcp_ip/hls/ip_handler/ip_handler.cpp:316-354 | A packet passes as a whole if and only if its three flags are set, and takes one from each queue. |
| `IpDropper.IpInvalidDropper.Step` | Acceleration/tcp_ip/hls/ip_handler/ip_handler.cpp:316-354 | A call and all later ones output what was to be output; the queues stay aligned. |
| `LengthCutter.Cuts` | Acceleration/tcp_ip/hls/ip_handler/ip_handler.cpp:359-393 | Every packet of more than a word is cut by its own total length, whatever that is, one of a single word passes, and the next is not affected. |
| `LengthCutter.CutToLengthIff` | Acceleration/tcp_ip/hls/ip_handler/ip_handler.cpp:379-385 | For every packet of at least 20 bytes: its first total-length bytes come out if and only if 8 < total length <= its length. |
| `LengthCutter.StaleLanes` | Acceleration/tcp_ip/hls/ip_handler/ip_handler.cpp:379-385 | With a longer total length that ends within the last word, lanes that hold none of the packet's bytes come out marked as kept. |
| `LengthCutter.PassesUncut` | Acceleration/tcp_ip/hls/ip_handler/ip_handler.cpp:379-385 | With one beyond the last word the packet comes out uncut. |
| `LengthCutter.CutLength.Step` | Acceleration/tcp_ip/hls/ip_handler/ip_handler.cpp:359-393 | A call and all later ones output what was to be output. |
| `IpPath.AcceptanceIsExact` | Acceleration/tcp_ip/hls/ip_handler/ip_handler.cpp:165-354 | Over any sequence of frames of any header length but 4 that hold what is judged, whatever their total lengths: forwarded are, in order, exactly the packets for which what is summed up adds up to 0xFFFF, the address compared is ours or broadcast, the version is 4 and that are not fragments. |
| `IpPath.PlainAccepted` | Acceleration/tcp_ip/hls/ip_handler/ip_handler.cpp:165-354 | With header length 5 that is exactly the header, by its ones' complement sum, and the destination (section 3.1 of RFC 791). |
| `IpQueues.ForwardsAs` | Acceleration/tcp_ip/hls/ip_handler/ip_handler.cpp:165-354 | Over any frames of more than two words at all: each frame is judged by the oldest entry left in the queue of sums, whosever that is, and waits when there is none. |
| `IpQueues.AlignedIff` | Acceleration/tcp_ip/hls/ip_handler/ip_handler.cpp:165-289 | After every frame each queue has had as many entries as there have been frames if and only if every frame has put one into the queue of sums. |
| `IpQueues.Shifted` | Acceleration/tcp_ip/hls/ip_handler/ip_handler.cpp:316-354 | As long as they do, each frame is judged by its own; after one that does not, it and all later ones are judged by the entries of those behind them. |
| `IpQueues.JudgedByOwn` | Acceleration/tcp_ip/hls/ip_handler/ip_handler.cpp:316-354 | A run of frames that all have an entry is judged exactly. |
| `IpPath.ReceivesExactly` | Acceleration/tcp_ip/hls/ip_handler/ip_handler.cpp:165-393 | The same with the cutter behind it: what comes out are the accepted packets, each cut. |
| `IpPath.RoundTrip` | Acceleration/tcp_ip/hls/ip_handler/ip_handler.cpp:165-393 | A packet framed by the sender, padded in any way and behind any other frames, comes out as it was sent, with its checksum: the receiver's other grouping of lanes accepts it. |
| `IpHandler.HandlesExactly` | Acceleration/tcp_ip/hls/ip_handler/ip_handler.cpp:494-561 | All six stages: of any sequence of frames exactly those for this node, of type IP, not too long and acceptable come out, in order, each cut. |
| `IpHandler.SentFramePasses` | Acceleration/tcp_ip/hls/ip_handler/ip_handler.cpp:57-156 | A frame made by the sender passes both filters if and only if the packet is not longer than the limit. |
| `IpReceiver.Simulate` | Acceleration/tcp_ip/hls/ip_handler/ip_handler.cpp:494-561 | The six stages connected, under every schedule: out comes what they make of all the words. |
| `IpReceiver.ReceiveFrames` | Acceleration/tcp_ip/hls/ip_handler/ip_handler.cpp:494-561 | So acceptance is exact under every schedule; and if the total lengths fit, the bytes that come out are the packets cut to them. |
| `IpRoundTrip.ArrivesAsSent` | Acceleration/tcp_ip/hls/mac_ip_encode/mac_ip_encode.cpp:345-392 | Of any sequence of packets and replies, what the sender makes of it is received as the packets whose address was found, in order, with their checksums, and nothing else. |
| `IpRoundTrip.SendAndReceive` | Acceleration/tcp_ip/hls/mac_ip_encode/mac_ip_encode.cpp:345-392 | The same of the nine stages connected, each end under its own schedule. |
| `IcmpUpdate.UpdateAdds` | Acceleration/tcp_ip/hls/icmp_server/icmp_server.cpp:70-100 | The update adds eight in ones' complement, with the end-around carry, and never yields zero (section 3 of RFC 1624). |
| `IcmpUpdate.UpdateKeepsSum` | Acceleration/tcp_ip/hls/icmp_server/icmp_server.cpp:70-100 | It makes up for the type going from 8 to 0. |
| `IcmpUpdate.EchoVerifies` | Acceleration/tcp_ip/hls/icmp_server/icmp_server.cpp:43-167 | A message that sums up to all ones still does as a reply, of odd or even length. |
| `IcmpCheck.Turns` | Acceleration/tcp_ip/hls/icmp_server/icmp_server.cpp:43-167 | A packet of up to two words leaves as it came, any other one with the halves of its second and third word exchanged and type 0, nothing else changed. |
| `IcmpCheck.TurnedIsPacket` | Acceleration/tcp_ip/hls/icmp_server/icmp_server.cpp:111-137 | These words carry the packet with source and destination exchanged. |
| `IcmpCheck.SeenIsPacket` | Acceleration/tcp_ip/hls/icmp_server/icmp_server.cpp:116-137 | What is taken for the packet: the packet itself, but for one that ends in its third word also the rest of that word, stale or not. |
| `IcmpCheck.Judges` | Acceleration/tcp_ip/hls/icmp_server/icmp_server.cpp:43-167 | For every packet one verdict: whether what is seen of it is an echo request whose whole message, even or odd, sums up to all ones, and for those the updated checksum; one of up to two words is never valid, whatever head is left from the packet before. |
| `IcmpCheck.CheckIcmpChecksum.Step` | Acceleration/tcp_ip/hls/icmp_server/icmp_server.cpp:43-167 | A call and all later ones output what was to be output, on all three streams. |
| `IcmpEcho.DropsUnlessValid` | Acceleration/tcp_ip/hls/icmp_server/icmp_server.cpp:323-352 | A packet passes as a whole exactly if its verdict is good. |
| `IcmpEcho.InsertsInto` | Acceleration/tcp_ip/hls/icmp_server/icmp_server.cpp:361-407 | The checksum goes into its field and nothing else changes; after a packet that ends in its third word the count is 3 and not 0. |
| `IcmpEcho.ShortAccepted` | Acceleration/tcp_ip/hls/icmp_server/icmp_server.cpp:116-133 | Of packets of up to 24 bytes exactly those are accepted whose third word, the last, ends in 08 00 F7 FF, stale lanes included. |
| `IcmpEcho.ShortRequest` | Acceleration/tcp_ip/hls/icmp_server/icmp_server.cpp:116-137 | For instance every packet of 24 bytes that ends so. |
| `IcmpEcho.TurnedIsWrong` | Acceleration/tcp_ip/hls/icmp_server/icmp_server.cpp:127-137 | A request that is turned but keeps its checksum does not sum up to all ones any more. |
| `IcmpEcho.ReplyCarries` | Acceleration/tcp_ip/hls/icmp_server/icmp_server.cpp:43-407 | The words of a reply carry it, for every length. |
| `IcmpEcho.InsertChecksum.Step` | Acceleration/tcp_ip/hls/icmp_server/icmp_server.cpp:361-407 | The source is chosen between packets, the first one if it has a word, and a packet begun is finished from its own. |
| `IcmpEcho.ReplyIsRight` | Acceleration/tcp_ip/hls/icmp_server/icmp_server.cpp:43-167 | The reply: addresses exchanged, type 0, all bytes but type and checksum as in the request, and a message that sums up to all ones (Echo or Echo Reply Message of RFC 792). |
| `IcmpEcho.EchoesExactly` | Acceleration/tcp_ip/hls/icmp_server/icmp_server.cpp:43-407 | Of any sequence of packets of any length up to 512 KiB less 24 bytes: what comes out is what Answers says, and it is exactly the replies to the packets accepted, in order, if and only if none of these that ends in its third word is followed, at once or later, by another one. |
| `IcmpEcho.EchoesAs` | Acceleration/tcp_ip/hls/icmp_server/icmp_server.cpp:43-407 | What comes out in every case: after a missed end the next packet accepted passes with the checksum it had, and from then on all are given those of earlier packets. |
| `IcmpEcho.RepliesIffAligned` | Acceleration/tcp_ip/hls/icmp_server/icmp_server.cpp:361-407 | The words that come out differ from those of the replies exactly when such a packet is followed by another one. |
| `IcmpEcho.RepliesCarry` | Acceleration/tcp_ip/hls/icmp_server/icmp_server.cpp:43-407 | The replies as bytes: for packets of at least 24 bytes those to the requests without error. |
| `IcmpEcho.LongIsAligned` | Acceleration/tcp_ip/hls/icmp_server/icmp_server.cpp:43-407 | So packets of more than 24 bytes are always answered exactly. |
| `IcmpEcho.AfterShort` | Acceleration/tcp_ip/hls/icmp_server/icmp_server.cpp:376-405 | After any packet that ends in its third word and is accepted, the next request, whatever it is, leaves with type 0 and the checksum it had, which is wrong. |
| `IcmpResponder.Simulate` | Acceleration/tcp_ip/hls/icmp_server/icmp_server.cpp:413-454 | The three stages connected, under every schedule: out comes what they make of all the words. |
| `IcmpResponder.Respond` | Acceleration/tcp_ip/hls/icmp_server/icmp_server.cpp:413-454 | So it is under every schedule, with the same exact condition; and with packets of more than 24 bytes exactly the good requests are answered. |

## Findings

The code does not do what it is for in these cases. Each is proved with its exact condition.

1. **The gearbox never leaves KS_STEP0** (hash.cpp:278-292). When a key has been output completely in
   that state, with at most twelve bytes left as its remaining length, no branch leads back to KS_IDLE:
   every later stripe becomes a word, and no further length is read. It happens if and only if the key
   has 48m+1 to 48m+12 bytes with m at least 1, so a key of 49 bytes stops the hash
   (`KeyResizerStage.FortyNineSticks`, `ReadyIffNotStuck`, `StuckForever`). A run of keys is read to its
   end if and only if at most its last key has such a length (`AllTakenIff`).
2. **Stale reads for keys of more than 112 bytes** (memRead.cpp:49-58 with cc.cpp:56). A bucket has eight
   lines, and a key of 113 bytes or more needs nine: the last is the first of the next bucket, which the
   filter regards as another address. Keys of up to 128 bytes are allowed (globals.h:61). Buckets are
   disjoint, and every overlapped run is serial, up to exactly 112 bytes
   (`BucketMemory.FootprintsDisjoint`, `Serializable`); beyond, `BucketMemory.StaleRead` gives the two
   operations.
3. **DECMAT_ROM is read beyond its end** (rs_erasure.c:86) if and only if the code is the longest and the
   survival pattern is above 0xfff0, that is, when the only erased symbols are among the last four and
   not all of these are erased; for instance when nothing is erased (`RsErasure.BeyondTheRom`). In the
   shorter codes such a pattern takes the row after the code's block (`IndexInBlock`).
4. **cut_length trusts the total length** (ip_handler.cpp:379-385). With a total length beyond the packet
   but within its last word it marks lanes as kept that hold none of the packet's bytes; beyond the last
   word it does not cut at all; and with eight or less it still lets two words through. The packet comes
   out right if and only if 8 < total length <= its length (`LengthCutter.CutToLengthIff`, `StaleLanes`,
   `PassesUncut`). Acceptance, before it, does not depend on the total length at all
   (`IpPath.AcceptanceIsExact`).
5. **insertChecksum misses the end of short packets** (icmp_server.cpp:382-390). State 2 does not look at
   `last`. A packet of 17 to 24 bytes that is accepted, which it is if and only if its third word ends in
   08 00 F7 FF (`IcmpEcho.ShortAccepted`; for 24 bytes an echo request without identifier and sequence
   number, `ShortRequest`), leaves the stage waiting for an end: the next request comes out with type 0
   and its old checksum, which is wrong (`AfterShort`), and its own checksum goes into a later packet,
   and so on from then on (`EchoesAs`). A run is answered exactly if and only if no such packet is
   followed by another one that is accepted (`EchoesExactly`).
6. **Frames without an entry in the queue of sums shift all later verdicts** (ip_handler.cpp:216-259). A
   frame whose header length is 4, or that ends before the word in which its header ends (for length 5,
   of 32 bytes or less), gives a version and a fragment flag but no sums; it and every later frame are
   judged by the sums of frames behind them. The queues are aligned if and only if there is none
   (`IpStrip.FlagsOfFrame`, `IpQueues.AlignedIff`, `IpQueues.Shifted`).
7. **Headers with options are judged by other bytes** (ip_handler.cpp:216-248). With even header lengths
   two bytes after the header are summed up, so that a correct header passes if and only if these are
   both 0 or both 255; from length 7 on the second half of the address compared is not that of the
   destination (`IpStrip.JudgedParts`, `EvenHeader`).
8. **A SET that replaces a value in a bucket without a free bin never completes** (memWrite.cpp:132-160).
   It takes neither branch, writes no completion and is evaluated again, until a pool of addresses is
   found empty and it fails (`MemWriteStage.EvalSet`, `EvalRepeatedly`).

Where comments and code differ, the model follows the code: the filter's comparison stops at a SET,
DELETE or flush although its comment names only SET (globals.cpp:99-108); the outer loop over the data
runs over twelve bytes, not eight (rs_erasure.c:93); the controller keeps a sample while the new phase
is less than step_in, not while it is "not larger" (srcCtrl.cpp:69-88).

## Left out

- SrcController.CallAnswer: each channel keeps its ratio; when ratios change within a run, valid and shift follow the registers (`SrcController.SrcCtrl.Control`), but the reference counts say nothing of them.
- SrcController.SrcCtrl.Step: the same; the address stays inside the ROM in every case.
- MultiSrcFilter.Run: each channel keeps its ratio, one of the seven in the tables; when ratios change within a run only the alignment of outputs with slots is promised (`MultiSrcFilter.MultiSrc.Step`). Ratio 7, which the type allows, indexes beyond the tables.
- MultiSrcFilter.Convert: an input that arrives while its channel still has outputs to make is not taken, as in the code; the resampler's inputs are those that are taken.
- RxBreakdown.RxAppMemAccessBreakdown.Step: requests have 1 to 65535 bytes; longer ones do not fit the sixteen bits of the lengths.
- RxMemoryPort.DummyMemory.SetReadCmd: the same.
- RxMemoryPort.DummyMemory.ReadWord: there is something to read; a read of no bytes makes the memory send an empty word.
- RxAppPath.Simulate: requests have at least one byte and fit the memory port's 16-bit length; the stream of flags and that of bursts are never full, as the code checks only the command and the response stream.
- HashPath.Simulate: keys have 1 to 255 bytes; a length of zero makes the gearbox write a word that the hash never reads. The exact condition on stuck lengths is `KeyResizerStage.AllTakenIff`.
- KeyResizerStage.HashKeyResizer.Step: only the last key may be of a stuck length; what happens after one is `KeyResizerStage.StuckForever`.
- CcRun.Simulate: completions arrive only for operations in flight, one for each and in order (popping an empty filter corrupts it, `FilterRing.ConcurrencyFilter.Pop`). That each operation does complete is an assumption about memWrite.cpp, which writes the completions; finding 8 says when a SET does not.
- CcStage.ConcurrencyControl.Step: CC_STREAM waits for a key word instead of reading an empty stream, which blocks in hardware.
- BucketMemory.Serializable: the lines written follow memWrite.cpp:114-226: a SET those it has read, a DELETE the first, a flush lines 0 to 1022; what is written to them is any function of what was read. Memory serves its port in order.
- MemReadStage.MemRead.Step: the start-of-packet flag, the value length and the copy of the metadata for the comparison are not modelled.
- RsErasure.Decode: the row must exist (finding 3 says when it does not); the contents of the ROM and the polynomial are arbitrary.
- RsErasure.Recovers: that the shipped rows are inverses of the code's matrices is a hypothesis.
- Gf256.LawsHold: bytes are lists of eight bits, not integers.
- SsrFir.Run: the coefficients are arbitrary 128 values; the register template and the scheduling directives do nothing.
- FrameEncoder.Encodes: packets of at least three bytes; after a shorter one an empty last word is sent.
- MacFilter.RoutesFrame: frames of more than two words; the type of a shorter one need not be in it, and an Ethernet frame has at least 60 bytes.
- LengthFilter.PassesIff: frames that hold the total length.
- IpStrip.Strips: frames of more than two words; of shorter ones the code looks at a word that has never been set.
- IpHandler.HandlesExactly: frames have more than 17 bytes, and those that pass the filters hold what is judged; without that, which entries a frame makes and what they do is `IpStrip.FlagsOfFrame` and `IpQueues.ForwardsAs`.
- IpPath.RoundTrip: packets without options, whole and of version 4, whose total length is their length.
- IpRoundTrip.ArrivesAsSent: the same, not longer than the receiver's limit; the table's replies, for packets that were found, name the receiver.
- IcmpEcho.EchoesExactly: packets have at most 512 KiB less 24 bytes, beyond which the sixteen-bit word counters wrap; an IP packet has at most 64 KiB. The IP header has five words, as the code takes it.
- IcmpResponder.Simulate: the second source of `insertChecksum`, replies to unreachable ports and expired packets, is left empty. The flags `stream_empty`, an array of one element that is written at two places, are modelled as two flags.
- IpSender.Simulate: `extract_ip_address` is left out; replies of the address table arrive in the order of the packets, one each.
- IpReceiver.Simulate: `detect_ip_protocol`, the ARP server and the DHCP client are left out.
- Depths and initiation intervals of streams, full streams where the code does not look at them, interface directives and timing.
- The TCP engines and their tables, the creation of buffers and the writing of the dummy memory.
- The designs in floating point, the image pipelines and the remaining filters: bound to libraries, or easier than these.
