# Verified model of MM, the miner manager

MM is a bitcoin task generator: firmware in C on an LM32 processor that drives FPGA blocks written in Verilog. This
project models its four hard parts in Dafny and proves what they are for. Each Verilog module is a record of its
registers with a next-state function for one clock edge, and a class whose `Step` method computes the same from its
fields; the C code is methods over arrays, proved against functions about which the main results are stated.

## What is proved

**SHA-256** (`Sums`, `Fips180`, `Constants`, `Message`, `Standard`, `KnownAnswer`, `ShaCore`, `ShaUnit`, `ShaDriver`).
`Fips180` and `Message` are the standard: functions, schedule, rounds, padding, digest; `Standard` says in numbers and
bits what they compute, and `KnownAnswer` follows them through one digest. The core, with its sliding window, its
pipelined constant and its stalls, computes it under every pattern of idle cycles. On top, the register unit with its
DONE handshake and the hardware double hash, and the driver: padding in one or two blocks, midstates loaded and
resumed, three rounds precalculated.

**Jobs** (`Bytes`, `Jobs`, `Miner`, `Verdict`, `AlinkHost`). What a job and a nonce2 determine; that works made
earlier leave no trace; that the coinbase carries nonce2 at its place and is the first leaf of the hash tree whose
root the header holds; that resuming a long coinbase from a midstate is exact; that every byte and word reversal
between the header, the work, the precalculation and the 23 words sent cancels; that a nonce is judged on the header
it was found for.

**A-Link** (`LineCode`, `TxTimer`, `TxPhy`, `RxPhy`, `Phys`, `TxC`, `RxC`, `Alink`, `AlinkTasks`, `AlinkWires`,
`AlinkLive`, `AlinkResults`, `AlinkSignals`, `AlinkClash`). The engine cycle by cycle, all modules wired together,
under any inputs: the state machines in lockstep, one PHY selected, no busy timer restarted, no task id lost to a
result being pushed, tasks leaving the FIFO whole and in order, the exact waveform and duration of a task, what each
pair of wires carries, every work written being sent within a bound, the receiver undoing the line code, exactly which
results enter their FIFO, and what signals on the lines of two PHYs leave there, word by word.

**Host link and job loop** (`Gf2`, `Crc16`, `UartRing`, `HostLink`, `MainLoop`, `HostJobs`, `Memcpy`). The table CRC
against polynomial division, the receive ring under every interleaving with its interrupt handler, the frame parser as
the inverse of framing, the gating and numbering of works, the jobs begun and ended as exactly those the frames of the
host ask for, and the alignment-splitting copy.

## What turned out not to hold

- **37 bytes to resynchronise.** 37 bytes free of `A` restore hunting from every parser state but one; `ResyncExact` says
  which, `ThirtySevenIsTooFew` gives the input, and `Resync` proves 38 enough.
- **The CRC byte order.** `encode_pkg` writes the low byte first, `decode_pkg` expects the high byte first. What one
  writes the other accepts exactly when the two bytes are equal (`OrdersDiffer`); `OwnFrameRejected` is a frame it rejects.
- **A work of a replaced job.** A SET accepted between making and pushing a work leaves that work to be pushed and skips
  the first nonce2 of the new job (`LeftOverWork`); `NthWork` says exactly which works are numbered as intended, and
  `NextModulesFirst` that such a module reaches its neighbour's numbers one work of its own earlier.
- **Lengths from 2^29 bytes on.** The firmware's length field has 32 bits (`ShortPadIsPad`).
- **A ring of 1024.** It holds 1023 bytes: at 1024 it looks empty, at 1025 all but the last are lost (`FullLooksEmpty`,
  `OverrunLosesAll`).
- **Timeouts of 2^26 and more** count modulo 2^26, and a multiple of 2^26 never ends (`BusyExactly`).
- **A mask that changes.** REQ has a PHY exactly if one is free and enabled in the last cycle of IDLE (`RequestExact`). If
  none is, the next task is read from the FIFO and sent with every line at 11 (`TaskForNobody`).
- **Results that complete close together.** A result is taken exactly if the FIFO has room, it is the first to start, and
  the one in hand is not in its fifth cycle (`TakenExact`); it enters whole exactly if no other starts while the FIFO has
  room in its first four (`EntersExact`). So of two results d cycles apart, d from one to four cuts the first to d words
  and d five loses the second (`TwoSignals`). `Garbled` and `Lost` are the inputs, as runs from reset; six cycles between
  completions exclude both (`SpacedTaken`, `SpacedWhole`).
- **An init in the middle of a block.** An init begins a block exactly when it comes between blocks (`InitExact`); the
  firmware gives it between messages.

The comment above `calc_prepare` lists the data words of a task in an order that is the reverse of the one
`alink_send_work` writes; the model follows the code.

## Reading the model

The state of the SHA unit is `Unit`, of the A-Link engine `Alink.Sys`; `Next` is one clock. Values on the A-Link are natural
numbers with their register widths written out; SHA words are 32-bit vectors. History records such as `TxPhy.Trace`,
`AlinkTasks.Hist` and `AlinkResults.Hist` hold what has happened so far; an invariant ties them to the registers, and the
main results are read off at the end. A sequence of selections has one entry per PHY, of which there are five.

To verify the project: `dafny verify dfyconfig.toml`.

## Model

| member | source | states |
|---|---|---|
| Constants.RoundConstants | verilog/superkdf9/components/sha/sha_core.v:515-587 | each of the 64 constants fed to Kt is the first 32 bits of the fractional part of the cube root of its prime (FIPS 180-4, section 4.2.2) |
| Constants.FirstPrimes | verilog/superkdf9/components/sha/sha_core.v:515-587 | the primes of these constants are the first 64: they begin with 2, each is prime, and none lies between one and the next |
| Constants.InitialValue | verilog/superkdf9/components/sha/sha.v:148-158 | each word RST puts into SHA256_Hx is the first 32 bits of the fractional part of the square root of its prime (section 5.3.3) |
| ShaCore.Networks | verilog/superkdf9/components/sha/sha_core.v:108-118 | the rotations and networks wired in the core are Ch, Maj and the four sigma functions of section 4.1.2 |
| ShaCore.TurnedIsRound | verilog/superkdf9/components/sha/sha_core.v:121-127 | T1, T2, next_A and next_E make one round of section 6.2.2 |
| Sums.AddIs | verilog/superkdf9/components/sha/sha_core.v:121-127 | a 32-bit addition of the core is addition of numbers modulo 2^32 |
| Sums.Sum4Is | verilog/superkdf9/components/sha/sha_core.v:125-125 | so is the sum of four words that makes the next schedule word |
| Sums.Sum5Is | verilog/superkdf9/components/sha/sha_core.v:121-121 | and the sum of five words that is T1 |
| Standard.ChIs | verilog/superkdf9/components/sha/sha_core.v:108-108 | Ch takes the bits of y where x has ones and those of z elsewhere |
| Standard.MajIs | verilog/superkdf9/components/sha/sha_core.v:110-110 | Maj takes the bits on which x and y agree, and those of z elsewhere |
| Standard.SigmasOfOne | verilog/superkdf9/components/sha/sha_core.v:112-118 | the places to which each sigma moves the lowest bit |
| Standard.RoundIs | verilog/superkdf9/components/sha/sha_core.v:121-127 | a round moves six working variables on and makes the other two by sums modulo 2^32 |
| Standard.ScheduleIs | verilog/superkdf9/components/sha/sha_core.v:125-125 | from word 16 on a schedule word is the sum modulo 2^32 of four earlier ones, two of them through a sigma |
| Standard.CompressIs | verilog/superkdf9/components/sha/sha_core.v:486-493 | a block adds to each of the eight words of the hash value, modulo 2^32, the working variable after 64 rounds |
| Standard.PadIs | firmware/sha256.c:38-72 | section 5.1.1: the message, a one bit, as few zeros as will do, and the length in bits as a 64-bit number |
| KnownAnswer.Sha256OfAbc | verilog/superkdf9/components/sha/sha_core.v:134-600 | the SHA-256 of "abc" is ba7816bf 8f01cfea 414140de 5dae2223 b00361a3 96177a9c b410ff61 f20015ad |
| ShaCore.NextKeeps | verilog/superkdf9/components/sha/sha_core.v:134-600 | for every register state that holds what the standard computes after some words, and every choice of init, vld and data, so does the state one clock later, unless an init came in the middle of a block, after which nothing is claimed until the next one between blocks: round, Kt, Wt, the shifting window, A..H, H0..H7 and the taps against the recursive schedule |
| ShaCore.InvHolds | verilog/superkdf9/components/sha/sha_core.v:130-130 | between blocks, whatever idle cycles came between words, A..H is the hash value after all blocks taken, from the chaining value loaded by init, and the taps are A and E after rounds 0, 1 and 2 of the last block |
| ShaCore.InitExact | verilog/superkdf9/components/sha/sha_core.v:134-200 | an init begins a block from the value it loads if and only if it comes between blocks; in the middle of one the round and the window go on, and the registers are at the beginning of a block from no value whatever |
| ShaCore.Core.Clock | verilog/superkdf9/components/sha/sha_core.v:134-600 | the clocked blocks give every register its next value from the old values of all |
| ShaCore.Core.Step | verilog/superkdf9/components/sha/sha_core.v:134-600 | one clock keeps the invariant of every run |
| ShaUnit.StreamBegins | verilog/superkdf9/components/sha/dbl_sha.v:25-51 | a DBL command starts a transfer of exactly sixteen words: the digest stored at DONE, then the constant padding |
| ShaUnit.StreamAdvances | verilog/superkdf9/components/sha/dbl_sha.v:34-51 | each clock of the transfer offers the next of the sixteen words and drops none |
| ShaUnit.DblSha.Step | verilog/superkdf9/components/sha/dbl_sha.v:25-51 | start, cnt and the shifting hash_r take their next values together |
| ShaUnit.TickKeeps | verilog/superkdf9/components/sha/sha.v:60-112 | an idle clock keeps the unit consistent, loses no word, and brings a running block one clock nearer to DONE |
| ShaUnit.RstSetsIv | verilog/superkdf9/components/sha/sha.v:78-85 | a RST command puts the initial value into SHA256_Hx and leaves core, digest and counters alone |
| ShaUnit.HiShifts | verilog/superkdf9/components/sha/sha.v:148-162 | a write to HI shifts one word into SHA256_Hx and touches nothing else |
| ShaUnit.InitLoads | verilog/superkdf9/components/sha/sha.v:60-67 | an INIT command makes SHA256_Hx the chaining value of a new message and clears both read counters |
| ShaUnit.DinTaken | verilog/superkdf9/components/sha/sha.v:101-112 | a data word written between rounds is appended to the words taken, exactly once, and clears DONE |
| ShaUnit.DblStreams | verilog/superkdf9/components/sha/sha.v:87-94 | a DBL command restarts the core from SHA256_Hx and will feed it the digest and its padding, DONE low until that is hashed |
| ShaUnit.ReadsAnswer | verilog/superkdf9/components/sha/sha.v:206-208 | reads of CMD, HASH and PRE answer DONE, the next digest word and the next tap, advance only their own counter, and disturb nothing |
| ShaUnit.Sha.WaitDone | firmware/sha256.c:33-34 | polling DONE ends, with the same words taken and the rounds finished |
| ShaUnit.Sha.Write | verilog/superkdf9/components/sha/sha.v:36-54 | a bus write has the effect of one accepted strobe and one acknowledge clock |
| ShaUnit.Sha.Read | verilog/superkdf9/components/sha/sha.v:189-208 | a bus read answers what the unit shows in the strobe clock and has the effect of the access |
| ShaUnit.Sha.Step | verilog/superkdf9/components/sha/sha.v:60-204 | one clock of the whole unit with its core and its double-hash block |
| Message.ShortPadIsPad | firmware/sha256.c:38-72 | the padding the firmware writes is that of section 5.1.1 if and only if the message is shorter than 2^29 bytes |
| Message.DigestPadded | verilog/superkdf9/components/sha/dbl_sha.v:34-51 | the padded form of any digest is its eight words and one constant tail, the one dbl_sha streams |
| Message.Resumes | firmware/sha256.c:132-149 | hashing the rest of a message from the midstate of its first whole blocks, with the total length in the padding, gives the digest of the whole |
| ShaDriver.Init | firmware/sha256.c:18-22 | the unit is at the start of a message from the initial value, the stored digest untouched |
| ShaDriver.Command | firmware/sha256.c:137-142 | CMD_RST gives SHA256_Hx the initial value, CMD_INIT begins a message from SHA256_Hx; neither touches the stored digest |
| ShaDriver.WriteBlock | firmware/sha256.c:24-36 | sixteen words of a block are taken in order and their rounds are over on return |
| ShaDriver.Update | firmware/sha256.c:74-84 | exactly the whole blocks of the input are taken, in order |
| ShaDriver.MarkedBlock | firmware/sha256.c:43-65 | a fresh zero block with the remainder and the end mark at its start |
| ShaDriver.PutLength | firmware/sha256.c:55-69 | the last four bytes are the bit count modulo 2^32, big-endian, the others unchanged |
| ShaDriver.LastBlocks | firmware/sha256.c:43-71 | one block when the remainder leaves nine bytes, two otherwise, holding the remainder, the mark and the length |
| ShaDriver.Padding | firmware/sha256.c:38-72 | the remainder of the message, the end mark, zeros and the 32-bit length are taken, in the one-block and the two-block case |
| ShaDriver.Absorb | firmware/sha256.c:110-112 | whole blocks and padding together take the input and its padding for the given total length |
| ShaDriver.ReadHash | firmware/sha256.c:103-103 | the next digest word; the read counter advances |
| ShaDriver.ReadPre | firmware/sha256.c:92-92 | the next tap; its counter advances |
| ShaDriver.PrecalcFinal | firmware/sha256.c:86-95 | the six taps in read-back order, big-endian |
| ShaDriver.Final | firmware/sha256.c:97-106 | the digest of the words taken, big-endian, goes into the first 32 bytes and no others |
| ShaDriver.Sha256Of | firmware/sha256.c:108-114 | for every length its counters can hold the digest with the 32-bit length field, and below 2^29 bytes the digest of FIPS 180-4 |
| ShaDriver.Double | firmware/sha256.c:116-121 | the hardware second hash takes the padded form of the stored digest |
| ShaDriver.Dsha256 | firmware/sha256.c:123-130 | below 2^29 bytes the double SHA-256 of the input, above it the hash of the first digest the 32-bit length gives |
| ShaDriver.Dsha256Posthash | firmware/sha256.c:132-149 | the second hash, from the initial value although the first started from a midstate, of the hash of the rest resumed from that midstate |
| ShaDriver.ShiftEight | firmware/sha256.c:138-141 | eight words written to HI become H0 to H7 in the order written |
| ShaDriver.LoadMidstate | firmware/sha256.c:138-141 | SHA256_Hx is the midstate stored in the first 32 bytes |
| ShaDriver.LoadDown | firmware/sha256.c:158-161 | SHA256_Hx is the midstate read from its last word to its first |
| ShaDriver.ReversedWords | firmware/sha256.c:164-166 | the three words in reverse order |
| ShaDriver.Precalc | firmware/sha256.c:151-171 | A and E after rounds 0, 1 and 2 on the block made of the twelve bytes in reverse word order, from the midstate read in reverse word order |
| Bytes.FlipWords | firmware/miner.c:24-53 | the first words of the destination are those of the source byte-swapped, in place or not, and nothing else changes |
| Bytes.Rev | firmware/miner.c:211-221 | exactly the given bytes are reversed in place |
| Jobs.HistoryIndependent | firmware/miner.c:239-311 | after any number of works for any nonce2 values, the coinbase buffer and the header made for one more are those made from the fresh job |
| Jobs.ResumeExact | firmware/miner.c:250-255 | when a long coinbase is given as the midstate of its first whole blocks and the rest, the coinbase hash is the double SHA-256 of the whole coinbase with nonce2 at its true offset |
| Jobs.ShortExact | firmware/miner.c:257-258 | a coinbase of up to 6144 bytes is hashed twice as it is, with nonce2 at its offset |
| Jobs.RootOfTree | firmware/miner.c:268-278 | folding the branches into the hash of the first leaf gives the root of the whole hash tree |
| Jobs.RootInMessage | firmware/miner.c:279-288 | in the 80 bytes that are hashed that root stands unflipped at the merkle offset |
| Jobs.MidstateCancels | firmware/miner.c:299-304 | flip, reversal and the reversed loads of the precalculation give back the midstate |
| Jobs.TailCancels | firmware/miner.c:299-302 | reversing twelve bytes and reading their words in reverse order byte-swaps each word |
| Jobs.MessageBlocks | firmware/miner.c:356-367 | the two blocks of the padded 80-byte message; the nonce is word 19, outside the first block and the first three words of the second |
| Jobs.PrecalcExact | firmware/miner.c:227-237 | for every header and every nonce, the midstate and the six taps of a work are those of the message test_nonce hashes: its first block, and rounds 0, 1 and 2 of its second |
| Miner.StoreNonce2 | firmware/miner.c:247-258 | nonce2, least significant byte first, at its place in the whole coinbase or in the resumed one |
| Miner.HashCoinbase | firmware/miner.c:250-259 | the root starts as the coinbase hash, resumed from a midstate when the coinbase is longer than its buffer |
| Miner.HashMerkles | firmware/miner.c:261-280 | the root is folded with every branch in order |
| Miner.MerkleStep | firmware/miner.c:261-264 | the root becomes the double hash of the old root and the branch |
| Miner.PutRoot | firmware/miner.c:246-289 | coinbase and header of the job for nonce2 |
| Miner.CalcMidstate | firmware/miner.c:55-75 | the work gets the swapped midstate of the first 64 header bytes, and header bytes 64 to 75 |
| Miner.ReverseData | firmware/miner.c:299-302 | the midstate and the tail of the work are each reversed |
| Miner.MakeData | firmware/miner.c:297-302 | the data of a work: reversed swapped midstate, reversed tail of the header |
| Miner.CalcPrepare | firmware/miner.c:227-237 | a0 to a2 and e0 to e2 of the work are the taps for its header |
| Miner.GenNonce2Work | firmware/miner.c:239-311 | job, header, data and taps are exactly those the job and nonce2 determine, whatever the buffers held |
| Verdict.TopDecides | firmware/miner.c:320-332 | the highest word in which two little-endian numbers differ decides their order |
| Verdict.Fulltest | firmware/miner.c:313-335 | DIFF exactly when the hash is strictly below the target as 256-bit little-endian numbers, else the initial or VALID result, which are equal |
| Verdict.SwappedHeader | firmware/miner.c:355-366 | the 80-byte message: the header with the nonce in place, every word byte-swapped |
| Verdict.LeIs | firmware/miner.c:248-248 | nonce2 and the nonce are stored least significant byte first |
| Verdict.Decide | firmware/miner.c:369-373 | HW if and only if the hash is at least 2^224 as a number, DIFF if and only if it is below that and below the target |
| Verdict.TestNonce | firmware/miner.c:337-374 | of the double hash of the rebuilt header with the corrected nonce, as a number: HW if and only if it is at least 2^224, DIFF if and only if it is below that and below the target, VALID otherwise |
| Verdict.HeaderRebuilt | firmware/miner.c:350-353 | the header rebuilt for a nonce2 does not depend on the works made before or since |
| AlinkHost.InitWork | firmware/miner.c:92-101 | the task id is the pool number and nonce2, the step that for ten chips |
| AlinkHost.SendDown | firmware/alink.c:99-102 | words of the data from the last to the first |
| AlinkHost.SendWork | firmware/alink.c:74-124 | 23 words are written, in the order ids, step, timeout, clock, tail, a1, a0, e2, e1, e0, midstate, a2 |
| AlinkHost.TaskIsHeader | firmware/alink.c:98-120 | the chips receive, in natural order, words 16 to 18 of the message test_nonce hashes, the midstate of its first block and the taps: the reversals in the work and in the sending order cancel |
| AlinkHost.TaskBegins | firmware/alink.c:79-96 | before them come pool number, nonce2, step, timeout and the two clock words |
| AlinkHost.WorkOnLine | firmware/miner.c:199-207 | a work with the step of the firmware brings its PHY exactly ten numbers, the multiples of 0x1999999a, behind its nineteen data words |
| AlinkHost.ResultNamesWork | firmware/alink.c:126-144 | a result carrying back the first two words of a task names the nonce2 of its work, and its nonce is the fifth word less 0x1000 |
| AlinkHost.ResultFields | firmware/alink.c:126-144 | the five words of a result are miner id, task id, time and nonce, in that order |
| TxTimer.RegularKeeps | verilog/superkdf9/components/alink/tx_timer.v:17-33 | between resets, with one timeout and no start while busy, a busy timer stands between 1 and the timeout modulo 2^26 and an idle one at zero |
| TxTimer.RunRegular | verilog/superkdf9/components/alink/tx_timer.v:17-33 | so does every such run |
| TxTimer.Counts | verilog/superkdf9/components/alink/tx_timer.v:17-33 | a busy timer counts 1, 2, ... up to the timeout modulo 2^26 |
| TxTimer.BusyExactly | verilog/superkdf9/components/alink/tx_timer.v:17-33 | after a start timer_busy lasts exactly the timeout modulo 2^26 cycles, and for ever if that is zero; for 1 to 2^26-1 exactly the timeout |
| TxTimer.TxTimer.Step | verilog/superkdf9/components/alink/tx_timer.v:17-33 | timer and timer_busy take their next values from the old ones, reset before start before expiry |
| TxPhy.ShapeKeeps | verilog/superkdf9/components/alink/tx_phy.v:59-98 | in every cycle the counters, hash_pop, tx_buf_flg and the line agree with how many words have been loaded and bits sent; task_id_vld is high exactly in the first HASH cycle |
| TxPhy.StreamKeeps | verilog/superkdf9/components/alink/tx_phy.v:182-216 | in every cycle the bits sent followed by those left in tx_buf are the bits of all words loaded, lowest first: none is lost or repeated |
| TxPhy.SourceKeeps | verilog/superkdf9/components/alink/tx_phy.v:104-124 | the first four words popped are in the id, step and timeout registers, and the data words loaded are the next words popped, in order |
| TxPhy.CountingKeeps | verilog/superkdf9/components/alink/tx_phy.v:182-206 | the m-th number loaded is (m-1) times the step, and the 33-bit comparison raises the overflow flag at the first one not below 2^32; in scan mode all are ones but the word chosen by the ids |
| TxPhy.OnLineKeeps | verilog/superkdf9/components/alink/tx_phy.v:138-156 | the line so far is each bit as 00 for fifteen cycles, nineteen before the first, and its symbol for fifteen |
| TxPhy.InvKeeps | verilog/superkdf9/components/alink/tx_phy.v:59-216 | all of these hold in every cycle of every run, resets included |
| TxPhy.TaskSent | verilog/superkdf9/components/alink/tx_phy.v:90-163 | when a task ends exactly 23 words have been popped, and what was on the line is the wave of its nineteen data words and the ceil(2^32/step) multiples of its step below 2^32 |
| TxPhy.TakesExactly | verilog/superkdf9/components/alink/tx_phy.v:83-98 | undisturbed, a task whose step has the ceiling n is over after exactly 4 + 960 * (19 + n) cycles and not before |
| TxPhy.CeilingExists | verilog/superkdf9/components/alink/tx_phy.v:90-98 | every step above zero has such an n, 2^32 / step rounded up and at most 2^32, so a task with such a step ends |
| TxPhy.NeverEnds | verilog/superkdf9/components/alink/tx_phy.v:90-98 | with a step of zero NONCE is never left |
| TxPhy.StepForCeiling | firmware/miner.c:199-207 | the step floor(2^32/n)+1 gives exactly n numbers for n from 2 to 65536 |
| TxPhy.RangesPartition | firmware/miner.c:199-207 | every nonce below 2^32 is in the range of exactly one of the n chips |
| TxPhy.FirmwareStep | firmware/miner.c:199-206 | 0x1999999a is that step for ten chips |
| TxPhy.TxPhyModule.Step | verilog/superkdf9/components/alink/tx_phy.v:59-216 | all registers take their next values from the old values of all |
| LineCode.ValueOfBits | verilog/superkdf9/components/alink/tx_phy.v:187-192 | a word is the number its bits, lowest first, spell |
| RxPhy.Follows | verilog/superkdf9/components/alink/rx_phy.v:51-75 | in every cycle the four sample registers are the four newest samples, and nonce_buf has had the bits of all older windows shifted in |
| RxPhy.SignalDecodes | verilog/superkdf9/components/alink/rx_phy.v:60-75 | a signal in which 00 is held at least one cycle and each symbol at least two decodes to its bits, each once and in order |
| RxPhy.EndsOnce | verilog/superkdf9/components/alink/rx_phy.v:62-62 | rx_stop sees the end of such a signal at the first two samples of the final symbol and 11, and nowhere else |
| RxPhy.Receives | verilog/superkdf9/components/alink/rx_phy.v:51-75 | a busy receiver given such a signal raises rx_stop in exactly one cycle, and from then on holds the last 32 bits |
| RxPhy.WaveIsSignal | verilog/superkdf9/components/alink/tx_phy.v:138-156 | what tx_phy sends is such a signal |
| RxPhy.ReceivesWave | verilog/superkdf9/components/alink/rx_phy.v:69-75 | fed with what tx_phy sends for some words, at any time, the receiver ends with the last word in nonce_buf |
| RxPhy.RxPhyModule.Step | verilog/superkdf9/components/alink/rx_phy.v:51-101 | samples, nonce_buf, captured ids and push_cnt take their next values from the old ones |
| RxPhy.OneTask | verilog/superkdf9/components/alink/rx_phy.v:80-87 | from the first word of a result to its last the ids stay as they are, whatever arrives |
| TxC.ArbitrateChooses | verilog/superkdf9/components/alink/txc.v:80-116 | the arbiter selects the first PHY that is enabled and not busy, no other, and one whenever there is one |
| TxC.TxCModule.Step | verilog/superkdf9/components/alink/txc.v:57-117 | cur_state and tx_phy_sel take their next values from the old ones |
| RxC.RxCModule.Step | verilog/superkdf9/components/alink/rxc.v:85-169 | rx_sel, rx_vld and rx_dat take their next values from the old ones |
| Alink.LockstepKeeps | verilog/superkdf9/components/alink/txc.v:57-84 | for every input, txc is in SENT exactly while tx_phy is not IDLE, at most one PHY is selected, and tx_phy sends to the one selected |
| Alink.RestSettles | verilog/superkdf9/components/alink/rx_phy.v:51-101 | the receiver of a PHY that is not busy comes to rest and its push runs out |
| Alink.WaitsBecauseFree | verilog/superkdf9/components/alink/txc.v:77-116 | a PHY selected but not yet started was free in the cycle before, and its push ends before task_id_vld can rise |
| Alink.InvKeeps | verilog/superkdf9/components/alink/alink.v:169-264 | every cycle with any inputs keeps lockstep, and a PHY selected but not yet started is free with its receiver at rest |
| Alink.NoCollision | verilog/superkdf9/components/alink/rx_phy.v:80-87 | no task_id_vld meets rx_vld on the same PHY |
| Alink.NeverRestarted | verilog/superkdf9/components/alink/txc.v:37-48 | no timer is started while it is busy |
| Alink.OneLine | verilog/superkdf9/components/alink/tx_phy.v:158-163 | while a task is sent, no line but that of the selected PHY leaves 11 |
| Alink.Resets | verilog/superkdf9/components/alink/alink.v:169-264 | one cycle of reset from any state establishes the state the runs start from |
| Alink.Safety | verilog/superkdf9/components/alink/alink.v:169-264 | after reset, for all runs: lockstep, no id meets a push, no busy timer is restarted |
| Alink.ChosenKeeps | verilog/superkdf9/components/alink/txc.v:64-116 | while the mask changes only under reset or flush, a PHY is selected from REQ on and every selected PHY is enabled |
| Alink.ExactlyOne | verilog/superkdf9/components/alink/txc.v:64-116 | so in REQ and SENT exactly one PHY is selected, and it is enabled |
| Alink.RequestExact | verilog/superkdf9/components/alink/txc.v:64-116 | for every mask: the last IDLE cycle selects a PHY for REQ if and only if one is free and enabled in that cycle, and it is the first such |
| Alink.SelectionStands | verilog/superkdf9/components/alink/txc.v:77-80 | the selection stands from REQ to the end of the task |
| Alink.MaskDropped | verilog/superkdf9/components/alink/txc.v:80-115 | so a mask that leaves only busy PHYs in that cycle leaves REQ with none |
| Alink.Unheard | verilog/superkdf9/components/alink/tx_phy.v:158-163 | while a task is sent with none selected, every line is 11 and no timer starts |
| Alink.NamedKeeps | verilog/superkdf9/components/alink/rx_phy.v:80-87 | each receiver holds the ids of the task most recently started on its PHY |
| Alink.NamedRun | verilog/superkdf9/components/alink/rx_phy.v:80-87 | the same after every run |
| Alink.IdsSteady | verilog/superkdf9/components/alink/rx_phy.v:103-107 | those ids do not change while a result is pushed |
| Alink.TimerAlone | verilog/superkdf9/components/alink/txc.v:34-51 | in the engine each timer runs as it does alone and is never started while busy, so every start makes its PHY busy for exactly the timeout |
| Alink.BusyForTimeout | verilog/superkdf9/components/alink/txc.v:34-51 | so after a start, with a timeout of 1 to 2^26-1, a PHY is busy for exactly that many cycles |
| Alink.TimedRun | verilog/superkdf9/components/alink/txc.v:34-51 | in every run in which each task brings the same timeout, no timer runs before the first task and the timeout register holds it from then on |
| Alink.BusyFromReset | verilog/superkdf9/components/alink/tx_timer.v:17-33 | so in every run from reset, a PHY whose timer is started is busy for exactly that timeout |
| Alink.FreeAgain | verilog/superkdf9/components/alink/tx_timer.v:17-33 | and every busy PHY is free again after what its timer lacks |
| Alink.TaskBegins | verilog/superkdf9/components/alink/txc.v:64-116 | with a stable mask, a free enabled PHY and 23 words in the FIFO, a task is being sent to an enabled PHY three cycles after idle |
| AlinkTasks.ConservedKeeps | verilog/superkdf9/components/alink/alink.v:131-143 | words written are the words of the tasks completed, then those the task in hand has taken, then the FIFO; a task begun finds all its words there |
| AlinkTasks.GoodKeeps | verilog/superkdf9/components/alink/alink.v:131-143 | this holds in every cycle in which no word is written to a full FIFO |
| AlinkTasks.HeadAtBoundary | verilog/superkdf9/components/alink/alink.v:132-132 | whenever tx_phy is idle a multiple of 23 words has left the FIFO |
| AlinkTasks.KthTask | firmware/alink.c:74-124 | the k-th task completed is the k-th group of 23 words written |
| AlinkTasks.TasksAreWorks | firmware/alink.c:74-124 | while works of 23 words are being written, at any moment, the k-th task completed is the k-th work |
| AlinkHost.WorksAreSent | firmware/alink.c:74-124 | the same for the 32-bit words alink_send_work writes |
| AlinkTasks.TestMakesRoom | firmware/main.c:418-429 | because a work is only begun below a count of 24 * 5, no word the firmware writes meets a full FIFO, in any run |
| AlinkTasks.TaskEnds | verilog/superkdf9/components/alink/tx_phy.v:129-180 | what tx_phy puts on its line for the n-th task is the wave of data words and numbers of the n-th group written |
| AlinkWires.CarriedKeeps | verilog/superkdf9/components/alink/tx_phy.v:158-163 | while a task is being sent the wires of the selected PHY have carried the line of tx_phy, those of all others 11 |
| AlinkWires.CarriedRun | verilog/superkdf9/components/alink/tx_phy.v:158-163 | in every run |
| AlinkWires.TaskOnWires | verilog/superkdf9/components/alink/tx_phy.v:158-163 | when a task ends, TX_P and TX_N of the selected PHY have carried the wave of its data words and numbers, and those of every other PHY have stood at 11 throughout |
| AlinkWires.OneHears | verilog/superkdf9/components/alink/txc.v:57-117 | with a stable mask that is exactly one PHY, and an enabled one |
| AlinkWires.WiresReceived | verilog/superkdf9/components/alink/rx_phy.v:51-75 | a receiver at the end of these wires ends with the last number sent |
| AlinkTasks.RunGood | verilog/superkdf9/components/alink/alink.v:131-143 | all runs from reset without writes to a full FIFO |
| AlinkTasks.FromReset | verilog/superkdf9/components/alink/alink.v:131-143 | from one cycle of reset in any state, what is sent is what is written after it |
| AlinkTasks.TaskForNobody | verilog/superkdf9/components/alink/tx_phy.v:158-163 | a task for which no PHY was selected is sent to its end with every line at 11 and no timer started, and its 23 words are gone |
| AlinkLive.AnyStep | verilog/superkdf9/components/alink/tx_phy.v:182-206 | with 2^32 numbers allowed the condition on the steps of the works is only that they are above zero |
| AlinkLive.GoingKeeps | verilog/superkdf9/components/alink/alink.v:131-264 | a cycle without reset, with the mask as it is and words of works with one timeout, keeps all that progress needs |
| AlinkLive.RankFalls | verilog/superkdf9/components/alink/txc.v:57-117 | while a whole work waits or is being sent, every cycle completes a task or brings the end of the next one nearer |
| AlinkLive.NextTask | verilog/superkdf9/components/alink/txc.v:57-117 | the next task is completed within 4 + 960 * (19 + n) + 3 + timeout cycles, n the most numbers a task has |
| AlinkLive.Progress | verilog/superkdf9/components/alink/txc.v:57-117 | of m works that wait all have been sent after m times that many cycles |
| AlinkLive.EveryWorkSent | firmware/alink.c:74-124 | from reset, under a mask that stays and enables some PHY: however many works have been written, so many times the bound later all have been sent, whole and in order |
| AlinkResults.RxcFollows | verilog/superkdf9/components/alink/rxc.v:85-134 | in every cycle of every run, rxc moves to the first PHY that starts if the FIFO has room, clears in the fifth cycle of a push, else stays; the word of the PHY selected goes on its output |
| AlinkResults.TakenExact | verilog/superkdf9/components/alink/rxc.v:85-93 | a result that starts is selected if and only if the FIFO holds at most 502 words, it is the first to start in this cycle, and no selected result is in its fifth cycle |
| AlinkResults.StaysExact | verilog/superkdf9/components/alink/rxc.v:85-93 | a selected result before its fifth cycle stays selected if and only if none starts or the FIFO lacks room |
| AlinkResults.EntersExact | verilog/superkdf9/components/alink/rxc.v:85-134 | what a selected result sends to the FIFO: its words up to the first cycle in which another starts and the FIFO has room, hence all five if and only if there is no such cycle before its fifth |
| AlinkResults.NamingKeeps | verilog/superkdf9/components/alink/rx_phy.v:80-107 | the words of every result, whole or cut short, begin with its PHY and the ids of the task most recently started on it |
| AlinkResults.QueuedKeeps | verilog/superkdf9/components/alink/alink.v:148-165 | words read, words in the FIFO and the word on its way there are those results, in order |
| AlinkResults.GoodKeeps | verilog/superkdf9/components/alink/rxc.v:85-134 | all of this in every cycle of every run, however close results complete |
| AlinkResults.NeverFull | verilog/superkdf9/components/alink/alink.v:149-149 | the receive FIFO never holds more than 509 of its 512 words |
| AlinkResults.WordsInOrder | verilog/superkdf9/components/alink/rx_phy.v:104-107 | the words of a result are PHY, two ids, timer and nonce, in that order |
| AlinkResults.SpacedTaken | verilog/superkdf9/components/alink/rxc.v:85-93 | with completions six cycles apart every result is taken exactly when the FIFO has room |
| AlinkResults.SpacedWhole | verilog/superkdf9/components/alink/rxc.v:85-134 | and every result taken enters as five consecutive words |
| AlinkResults.MayRead | verilog/superkdf9/components/alink/alink.v:148-148 | a reading may begin if and only if at least five words are in the FIFO |
| AlinkResults.ServedKeeps | firmware/alink.c:126-144 | a reading begun with rxempty low never meets an empty FIFO |
| AlinkResults.NthRead | firmware/alink.c:126-144 | the n-th alink_read_result returns the n-th result taken, whole, with its PHY and the ids of the task most recently started there |
| AlinkResults.OrderlyRun | verilog/superkdf9/components/alink/alink.v:148-165 | all runs with completions six cycles apart and reads as the firmware makes them |
| AlinkSignals.ReceiverAlone | verilog/superkdf9/components/alink/rxc.v:56-80 | in the engine each receiver does what it does alone |
| AlinkSignals.Stops | verilog/superkdf9/components/alink/rx_phy.v:51-75 | a busy PHY whose line brings a signal sees its end in exactly one cycle and holds its bits from then on |
| AlinkSignals.TwoSignals | verilog/superkdf9/components/alink/rxc.v:85-134 | for any two signals on two busy PHYs, with rxc at rest and room in the FIFO: of results d cycles apart both enter with all five words for d from six on, the first is cut to its first d words for d from one to four, the second is lost for d five, and the one of the lower PHY enters for d zero; every word is the PHY, the ids, the timer count or the number received |
| AlinkSignals.OneSignal | verilog/superkdf9/components/alink/rxc.v:85-134 | one signal ends as one whole result |
| AlinkSignals.WaveResult | verilog/superkdf9/components/alink/rx_phy.v:51-109 | what is sent as tx_phy sends ends as a result whose fifth word is the last word sent |
| AlinkClash.TwoBusy | verilog/superkdf9/components/alink/txc.v:57-117 | from one cycle of reset 46 words written lead to a state in which PHYs 0 and 1 are busy with a task each and all receivers rest |
| AlinkClash.Clash | verilog/superkdf9/components/alink/rxc.v:85-134 | from there, for every distance d, two results d cycles apart arrive, in a run from reset |
| AlinkClash.Garbled | verilog/superkdf9/components/alink/rxc.v:88-92 | the input, as a run from reset: a result two cycles after another leaves two words of the first and all five of the second |
| AlinkClash.Lost | verilog/superkdf9/components/alink/rxc.v:86-87 | the input, as a run from reset: a result five cycles after another never enters |
| Gf2.DivideIsRemainder | firmware/crc16.c:36-45 | shifting division computes a remainder modulo x^16+x^12+x^5+1 |
| Gf2.RemainderUnique | firmware/crc16.c:36-45 | quotient and remainder are unique |
| Gf2.Linear | firmware/crc16.c:36-45 | the remainder of a difference is the difference of the remainders |
| Gf2.DivideParity | firmware/crc16.c:36-45 | the remainder keeps the parity of the message |
| Gf2.BurstDetected | firmware/crc16.c:36-45 | messages that differ within sixteen consecutive bits have different remainders |
| Crc16.TableIs | firmware/crc16.c:1-34 | all 256 table entries in closed form |
| Crc16.NextIsDivision | firmware/crc16.c:41-42 | for every crc and byte, one table step is eight steps of the division |
| Crc16.ToRemInjective | firmware/crc16.c:36-45 | equal coefficients are equal words |
| Crc16.Crc16 | firmware/crc16.c:36-45 | for a buffer of any length the loop returns the division of its bits started from zero |
| Crc16.CrcIsRemainder | firmware/crc16.c:36-45 | which is the remainder of the buffer times x^16 modulo x^16+x^12+x^5+1 (section 2 of ITU-T V.41) |
| Crc16.CrcLinear | firmware/crc16.c:36-45 | the CRC of a bytewise difference is the difference of the CRCs |
| Crc16.CrcParity | firmware/crc16.c:36-45 | a CRC has the parity of its buffer |
| Crc16.OddErrorsDetected | firmware/crc16.c:36-45 | buffers differing in an odd number of bits have different CRCs |
| Crc16.BurstErrorsDetected | firmware/crc16.c:36-45 | buffers of one length differing only within sixteen consecutive bits never share a CRC |
| Crc16.SeventeenIsTooMany | firmware/crc16.c:36-45 | two buffers that differ within seventeen and do |
| UartRing.InterruptHolds | firmware/uart.c:27-35 | the handler appends the bytes it finds, as long as they fit |
| UartRing.NonBlockExact | firmware/uart.c:48-51 | with fewer than 1024 bytes unread, uart_read_nonblock is true exactly when one is unread |
| UartRing.FullLooksEmpty | firmware/uart.c:42-42 | with exactly 1024 unread the ring looks empty and uart_read waits |
| UartRing.OverrunLosesAll | firmware/uart.c:29-32 | one byte more and only that byte is read; the 1024 before it are lost |
| UartRing.StatementHolds | firmware/uart.c:38-46 | each statement of uart_read keeps the ring and returns the oldest unread byte |
| UartRing.Fifo | firmware/uart.c:27-51 | for every interleaving of interrupts with the statements of uart_read in which at most 1023 bytes are unread: bytes read are the first received, in order, and the ring holds the rest |
| UartRing.ReadIsPrefix | firmware/uart.c:67-73 | the same from uart_init, and the ring is empty exactly when everything received has been read |
| UartRing.Uart.Isr | firmware/uart.c:27-35 | the handler loop |
| UartRing.Uart.Take | firmware/uart.c:29-31 | one byte is stored and the produce index advances modulo 1024 |
| UartRing.Uart.Read | firmware/uart.c:38-46 | uart_read with interrupts before each of its steps is a run of the model and returns its byte |
| HostLink.Cut | firmware/main.c:309-313 | parsing may be interrupted after any byte and resumed |
| HostLink.SplitAnywhere | firmware/main.c:309-367 | the frames are the same however the bytes are split over calls of get_pkg |
| HostLink.FrameTaken | firmware/main.c:322-363 | from hunting a frame is taken whole and leaves nothing behind |
| HostLink.Recovered | firmware/main.c:309-367 | from frames interleaved with garbage that contains no AV pair, decode_pkg gets exactly the frames, in order |
| HostLink.RecoveredWithTail | firmware/main.c:309-367 | an unfinished end yields no frame |
| HostLink.Decomposes | firmware/main.c:309-367 | every stream is such an interleaving with an unfinished end |
| HostLink.ResyncExact | firmware/main.c:322-363 | 37 bytes free of A restore hunting if and only if it is not the case that the parser was hunting, had just seen an A, and the first of them is V |
| HostLink.Resync | firmware/main.c:322-363 | 38 such bytes always restore hunting |
| HostLink.ThirtySevenIsTooFew | firmware/main.c:357-362 | V and 36 zeros after an A do not |
| HostLink.OrdersDiffer | firmware/main.c:153-154 | a frame as encode_pkg writes it passes the check of decode_pkg if and only if its two CRC bytes are equal |
| HostLink.OwnFrameRejected | firmware/main.c:109-111 | one that does not: the acknowledgement of module 1, without payload, whose CRC is 0x1021 |
| HostLink.Prepare | firmware/main.c:69-78 | zeros, header bytes, type and the module id in the last four data bytes |
| HostLink.Attach | firmware/main.c:80-107 | the payload goes to the start of the data and nothing else changes |
| HostLink.Seal | firmware/main.c:109-111 | the CRC of the data, low byte first |
| HostLink.EncodePkg | firmware/main.c:63-112 | header, type, data over zeros and module id, and the CRC low byte first |
| HostLink.Link.Rejects | firmware/main.c:153-161 | decode_pkg returns 1 exactly when the two bytes, high byte first, are not the CRC of the 32 data bytes |
| HostLink.Link.GetPkg | firmware/main.c:309-367 | the parser state and the frames handed on are those of the bytes read; it returns 1 right after the first frame with a wrong CRC, and 0 only while hunting with nothing to read |
| HostLink.Link.Byte | firmware/main.c:319-363 | one iteration: the byte is stored, a 39th completes the frame, an AV pair opens one |
| HostLink.FramesReceived | firmware/main.c:315-325 | behind the receive ring: frames decoded are the first of the frames received, and all once the ring is empty |
| MainLoop.IterateAgrees | firmware/main.c:401-437 | every iteration with any packets, timer, sensors and results keeps the state in step with the history |
| MainLoop.RunGood | firmware/main.c:401-437 | in every run each work made carries the nonce2 then due and each work pushed was made while, and is pushed while, a job is running |
| MainLoop.NoPushBetween | firmware/main.c:164-174 | between an accepted DETECT or STATIC, or the timeout, and the next accepted SET no work is pushed |
| MainLoop.NthWork | firmware/main.c:243-249 | the k-th work pushed after a SET carries its first nonce2 plus k modulo 2^32; one that was made before that SET was accepted need not, and only the first can be such a one |
| MainLoop.Consecutive | firmware/main.c:421-429 | works pushed one after the other without a SET between them carry consecutive nonce2 values modulo 2^32 |
| MainLoop.ModulesDisjoint | firmware/main.c:243-246 | modules given the same offset and range push no nonce2 both within the first range/4 works each has pushed since, a left-over first work excepted |
| MainLoop.NextModulesFirst | firmware/main.c:243-246 | the next work after these has the first nonce2 of the next module |
| MainLoop.OwnOrLeftOver | firmware/main.c:421-429 | at most one work pushed since a SET is not its own |
| MainLoop.LeftOverWork | firmware/main.c:421-429 | a SET accepted while a work is being made: that work is pushed and the first nonce2 of the new job skipped |
| MainLoop.TimeoutStops | firmware/main.c:405-416 | in an iteration with the timeout, if its first packets leave a job running, or with both sensors at 90, no work is pushed and no job is running at its end |
| MainLoop.PushesWhenDue | firmware/main.c:401-437 | every iteration pushes exactly one work, with the nonce2 then next, if its packets leave a job running before and while the work is made, neither timeout nor sensors end it and the FIFO has room; else none |
| MainLoop.Main.Body | firmware/main.c:401-437 | the loop body |
| MainLoop.Main.GetPkg | firmware/main.c:309-367 | the packets it accepts are decoded in order |
| MainLoop.Main.DecodePkg | firmware/main.c:164-249 | DETECT, STATIC and SET, which is ignored when a sensor reads 90 or more |
| HostJobs.SetBrings | firmware/main.c:243-244 | a SET frame with an offset at data byte 12 and a range at 16, big-endian, is the packet that brings these two numbers |
| HostJobs.StopFrame | firmware/main.c:165-174 | a frame of type 10 or 11 with a right CRC ends the job, and nothing else changes |
| HostJobs.SetFrame | firmware/main.c:231-250 | a frame of type 19 with a right CRC begins a job with the offset and range in it and, in 32-bit arithmetic, offset + range / 4 * module id as first nonce2, unless a sensor is too hot |
| HostJobs.OtherFrame | firmware/main.c:153-161 | no other frame changes the job, and none with a wrong CRC |
| HostJobs.CallSplit | firmware/main.c:309-367 | what a call of get_pkg does to the bytes it reads it does to them piece by piece |
| HostJobs.GarbageFirst | firmware/main.c:309-367 | garbage before a frame makes no difference to what the frame does |
| HostJobs.NoWorkUntilSet | firmware/main.c:401-437 | with no job running, until a SET frame that begins one has been read no work is pushed, whatever timer, sensors, FIFO and results do |
| HostJobs.CallFollows | firmware/main.c:309-367 | after a call of get_pkg, however many bytes it has read, the jobs begun and ended so far are those the frames with a right CRC ask for, in order |
| HostJobs.IterateRefines | firmware/main.c:401-437 | one iteration over bytes is the iteration over the packets in them |
| HostJobs.RunRefines | firmware/main.c:401-437 | so is every run, and what holds of the job loop holds of the bytes |
| HostJobs.HostDrives | firmware/main.c:309-437 | from frames of the host with garbage between them, in every run from the start of main and however the bytes fall into its calls of get_pkg: the jobs begun and ended are exactly those the first n frames ask for, all of them once everything has been read, and works are numbered and gated as the job loop promises |
| HostJobs.GetPkg | firmware/main.c:309-367 | get_pkg and decode_pkg together: parser and loop state are those of the bytes read |
| Memcpy.Memcpy | firmware/minilibc/memcpy.c:7-74 | for every length and alignment of regions that are disjoint, or whose destination lies below the source, exactly n bytes are copied and nothing else changes; every access is aligned |
| Memcpy.CopyShort | firmware/minilibc/memcpy.c:32-32 | a halfword access, allowed at even addresses only |
| Memcpy.CopyLong | firmware/minilibc/memcpy.c:57-57 | a word access, allowed at multiples of four only |
| Memcpy.CopyByte | firmware/minilibc/memcpy.c:17-17 | a byte access |
| Memcpy.Bytewise | firmware/minilibc/memcpy.c:22-28 | the byte loop finishes the copy when the source is odd |
| Memcpy.Halfwords | firmware/minilibc/memcpy.c:37-51 | the halfword loop and a last byte finish it when only halfwords are aligned |
| Memcpy.Wordwise | firmware/minilibc/memcpy.c:52-73 | the word loop, a halfword and a byte finish it otherwise |
| Memcpy.Advance | firmware/minilibc/memcpy.c:25-57 | copying forwards never reads a byte already overwritten |

## Left out

- Wishbone acknowledge timing and the bus arbiter: an access of the SHA unit is a strobe clock and an acknowledge clock, one of the A-Link one event.
- Power-on reset of the SHA unit is its constructor; RST_I in mid-run is not modelled there. The A-Link takes reset and flush in any cycle.
- The vendor FIFOs, clock generation and block RAM: the FIFOs are bounded queues whose first word is on the output.
- alink_slave.v: the length of a flush pulse and register read-back; flush, mask, scan, pushes and pops are inputs of each cycle.
- `busy` of sha_core.v drives nothing and is kept only as a field.
- Miner.GenNonce2Work: does not model nonce2_size other than 4, or offsets and lengths outside the buffers, because the C code then reads or writes beyond its arrays.
- AlinkHost.InitWork: does not model the clock and timeout words, because they come from constant tables of frequencies.
- ShaDriver.Sha256Of: does not model counts of 2^31 bytes and more, because the loop counters of the driver are signed.
- ShaDriver.Dsha256Posthash: does not model a rest of 2^31 bytes and more, for the same reason; the total length may be anything.
- HostLink.Link.GetPkg: does not model what decode_pkg does with an accepted frame, or the replies; HostJobs.GetPkg adds the packets that gate the job loop.
- HostLink.EncodePkg: does not model where the measurements of a status report come from; they are bytes given to it.
- MainLoop.Main.DecodePkg: does not model the packets that do not touch the gating of the job loop, because they only fill fields of the job or answer the host.
- MainLoop.Main.Body: does not model sensors, timer, watchdog, fan and voltage; their answers are inputs of each iteration.
- TxPhy.CountingKeeps: states the words sent for reg_scan constant over a task; their number is proved for any reg_scan.
- TxTimer.BusyExactly: states the duration for a timeout that does not change, because all timers compare with one shared register.
- AlinkTasks.GoodKeeps: states order for runs that write no word to a full FIFO, because the FIFO then drops it; TestMakesRoom shows that the firmware's are such runs.
- Alink.BusyFromReset: states the duration for runs in which every task brings the same timeout, because all timers compare with one shared register.
- AlinkLive.EveryWorkSent: states progress for runs with one mask and one timeout and steps above zero, because with no PHY enabled or a step of zero no task ends.
- AlinkSignals.TwoSignals: states the words for PHYs that stay busy and a receive FIFO with room for two results, because a receiver at rest hears nothing and a full FIFO takes nothing.
- AlinkResults.NthRead: states whole results for runs in which all entered whole, because rxc lets a new one replace a push in progress.
- UartRing.Fifo: states order while at most 1023 bytes are unread, because the ring then overwrites.
- The ring of sixteen results waiting to be polled: the same construction as the receive ring, with the same loss when it is full.
- LEDs, GPIO, delay loops, the two-wire bus, temperature and fan code: they drive devices with fixed constants and no job or result depends on them.
- The frequency tables, the voltage encoding and the self-test vectors: finite tables with nothing to prove beyond their entries.
- Debug output: it changes no state.
- The chips' own search and the strength of SHA-256 are outside the repository.
