# hash256-miner: a verified model

hash256-miner searches for a 256-bit nonce whose Keccak-256 hash, together with
a 32-byte challenge, lies below a target. A Go orchestrator starts one Rust core
per wallet, tells it what to mine over JSON lines, and submits what it finds. The
core searches on CPU threads or with an OpenCL kernel. This project models the
core and the slice of Go that must agree with it, and proves what they promise
each other.

The parts, in the order they build on each other:

- **The hash.** `Words` and `Bytes` relate machine words, bits, bytes and
  numbers. `Fips202` is the bit-level Keccak of FIPS 202 (sections 3.2, 4 and
  5.1, with no SHA-3 suffix); its rho offsets come from the walk of section
  3.2.2 and its round constants from the shift register of section 3.2.5.
  `Lanes` holds the kernel's tables and its five steps on 64-bit lanes and
  proves each step equal to the standard's. `Kernel` is the in-place array code.
  `Inverse` inverts every step. `Grind` is one work item: lane loading, padding,
  byte order, digest words and the four-word comparison.
- **The boundary.** `Hex` holds the codecs of both languages; `Mining` the jobs,
  nonces and the three "below target" tests; `Prefix` the generator behind the
  prefixes of retargeted jobs; `Agreement` a job and its found nonce going from
  Go to Rust and back.
- **The searches.** `Pool` is the step machine of the CPU workers, `Cpu` the
  same code on its own fields, `Coverage` which counters they try, `Distinct`
  when two of them try the same one. `GpuRound` is the step machine of one
  dispatch, `WorkSize` its size, `Gpu` the device and the host loop.
- **One run.** `RunThread` joins a search with its reporter, the channel of 64,
  the forwarder and the run thread; `RunEvents` is what a run emits, `Losses`
  what it loses or emits after an error, `ProgressCounts` when its counts were
  read; `Shutdown` is how it ends.
- **The core.** `Core` is the command loop, every run it ever started, the event
  log and the emitter; `Sessions` is what holds of whole sessions, `Replies` what
  the command loop itself answers.
- **The Go side.** `Submit` is `onFound` with its handlers interleaved and the
  engine's fields; `WorkerQueue` is the reader of the core's lines.

Code that runs on one thread over buffers is modelled by methods on arrays and
objects. Where several threads share state, a step machine (a datatype and a
function `Apply` that takes one step) gives each shared access its own step, a
*schedule* is any sequence of enabled steps, and a theorem about every schedule
is a theorem about every interleaving; `Cpu.CpuRun`, `Gpu.Dispatch` and
`Submit.Engine` are the same code on mutable fields, proved to take those steps.

What the code does where its text or documentation suggests something else:

- The last progress of a run can be lost. The repository's protocol description
  (`README.md:376-393`) has progress about every 500 ms; a forwarder whose
  receive has timed out and that then finds its flag raised leaves without
  reading the channel again. `RunEvents.ProgressCanBeLost` is such a run. What
  is lost is fixed at the moment the run thread raises the flag: the progress
  then on the channel if the forwarder has timed out and not yet looked, and
  nothing otherwise (`Losses.LostExactly`).
- A CPU worker never begins a batch whose end would reach 2^64: the inner loop
  is skipped and the worker spins until stopped (`Coverage.TriableExactly`).
- Workers search different counters exactly up to 2^16 threads: with more, two
  of them hash counter 0 (`Distinct.DisjointExactly`). The count that is
  returned is the number of different nonces exactly when no two workers tried
  the same counter (`Distinct.CountExactly`).
- A GPU batch within one work group of 2^64 rounds to zero work items in a
  release build, where the sum wraps (`WorkSize.GlobalSizeExactly`), and the
  kernel is then refused; a debug build panics at the sum.
- Progress can follow the Error of a failed GPU run, exactly when some is in the
  forwarder's hands or on the channel as the run fails
  (`Losses.ErrorThenProgressExactly`; `Losses.ErrorThenProgress` is such a run).
- A nonce with a second `0x` in front is read by the core and refused by Go
  (`Hex.DoublePrefix`).
- A prefix whose forty-eighth byte, its `0x` off, ends inside a character panics
  in the command loop when challenge and difficulty parse
  (`Sessions.StartExactly`, `Sessions.PrefixCanPanic`); all other malformed
  arguments are refused.
- The engine's map of submitted nonces is keyed by the nonce's text. Two
  spellings of one nonce (no `0x`, capital digits) are two keys
  (`Submit.SpelledTwice`, `Submit.BareDigits`); the core only prints one.
- A difficulty above 2^256 - 1 reaches the core modulo 2^256, and a negative one
  by its magnitude (`Hex.DifficultyRoundTrip`, `Mining.GoAgreesWithCore`).
- A retarget always restarts on the CPU with a batch of 2^20
  (`Sessions.RetargetStarts`).

## Model

| member | source | states |
|---|---|---|
| Lanes.RhoTable | miner-core/kernels/keccak256.cl:14-20 | every entry of the rotation table is the offset the walk of FIPS 202 section 3.2.2 gives that lane |
| Lanes.PiTable | miner-core/kernels/keccak256.cl:22-28 | the scatter table is the lane map of section 3.2.3, read as a permutation and its inverse |
| Lanes.ConstantTable | miner-core/kernels/keccak256.cl:3-12 | bit z of round constant r is set exactly when section 3.2.5's shift register says so |
| Lanes.ThetaAgrees | miner-core/kernels/keccak256.cl:32-42 | the column parities and mixing compute theta on every 1600-bit state |
| Lanes.RhoAgrees | miner-core/kernels/keccak256.cl:44-47 | the lane rotations compute rho on every state |
| Lanes.PiAgrees | miner-core/kernels/keccak256.cl:44-47 | the lane scatter computes pi on every state |
| Lanes.ChiAgrees | miner-core/kernels/keccak256.cl:49-60 | the row expressions compute chi on every state |
| Lanes.IotaAgrees | miner-core/kernels/keccak256.cl:62 | adding the table's constant to lane 0 computes iota of that round |
| Lanes.RoundsAgree | miner-core/kernels/keccak256.cl:30-64 | any number of lane rounds up to 24 equals as many rounds of the standard |
| Kernel.ThetaStep | miner-core/kernels/keccak256.cl:32-42 | the in-place loops leave theta of the old array |
| Kernel.RhoPiStep | miner-core/kernels/keccak256.cl:44-47 | the scatter loop fills B with pi of rho of A and leaves A alone |
| Kernel.ChiStep | miner-core/kernels/keccak256.cl:49-60 | the row loop overwrites A with chi of B |
| Kernel.KeccakF1600 | miner-core/kernels/keccak256.cl:30-64 | the array afterwards is Keccak-f[1600] of FIPS 202 of the array before |
| Kernel.Bswap64 | miner-core/kernels/keccak256.cl:66-71 | the three shifts and masks reverse the eight bytes of any word |
| Inverse.IteratePower | miner-core/kernels/keccak256.cl:32-42 | the 2^j-th iterate of theta's column map has the form P[x] xor P[x-2^j] xor rotl(P[x+2^j], 2^j) |
| Inverse.Iterate192 | miner-core/kernels/keccak256.cl:32-42 | 192 applications of theta's column map are the identity |
| Inverse.ThetaInverse | miner-core/kernels/keccak256.cl:32-42 | theta has a two-sided inverse on every array of lanes |
| Inverse.RhoInverse | miner-core/kernels/keccak256.cl:44-47 | rotating back undoes rho, in both orders |
| Inverse.PiInverse | miner-core/kernels/keccak256.cl:44-47 | the table map is a permutation: gathering undoes scattering, in both orders |
| Inverse.ChiInverse | miner-core/kernels/keccak256.cl:49-60 | the explicit row inverse undoes chi, in both orders |
| Inverse.KeccakBijective | miner-core/kernels/keccak256.cl:30-64 | the 24 rounds are a bijection, with an inverse on both sides |
| Grind.OneBlock | miner-core/kernels/keccak256.cl:88-103 | Keccak-256 of 64 bytes absorbs exactly one padded block |
| Grind.MessageBlock | miner-core/kernels/keccak256.cl:88-101 | the loaded lanes with the two padding words are that block, bit for bit |
| Grind.KernelDigest | miner-core/kernels/keccak256.cl:86-108 | the first four lanes after the permutation are byte-level Keccak-256 of the message |
| Grind.CounterWord | miner-core/kernels/keccak256.cl:98 | byte-swapping the counter gives the lane of its big-endian bytes |
| Grind.PackLe | miner-core/src/gpu.rs:108-115 | the host's loop packs every eight bytes as one little-endian word |
| Grind.PackBe | miner-core/src/gpu.rs:116-119 | the host's loop packs every eight target bytes as one big-endian word |
| Grind.LoadLanes | miner-core/kernels/keccak256.cl:88-101 | which lane holds what after loading, and that all others are zero |
| Grind.GrindItem | miner-core/kernels/keccak256.cl:82-119 | a work item claims a hit exactly when byte-level Keccak-256 of the challenge and the built nonce is below the target, and its four words are that digest |
| Grind.MessagesDiffer | miner-core/kernels/keccak256.cl:86-103 | two different 64-byte messages never reach the same final state |
| Grind.FinalStatesDiffer | miner-core/kernels/keccak256.cl:86-103 | for any two jobs and counters the final states agree exactly when challenge, prefix and counter do |
| Hex.ParseExactly | miner-core/src/keccak.rs:6-14 | exactly which strings the 32-byte parser takes to which bytes |
| Hex.EncodeAt | miner-core/src/keccak.rs:26-31 | byte k prints as two lower-case digits, the high one first |
| Hex.ParsePrinted32 | miner-core/src/keccak.rs:6-31 | parsing undoes printing for every 32 bytes; stripping `0x` never eats payload |
| Hex.ParsePrinted24 | miner-core/src/keccak.rs:16-24 | the same for every 24-byte prefix |
| Hex.ParsePrefixExactly | miner-core/src/keccak.rs:16-24 | exactly which strings the prefix parser takes to which bytes |
| Hex.TrimStartExactly | miner-core/src/keccak.rs:7 | stripping takes off every `0x` at the front and nothing else |
| Hex.ParsesExactly | miner-core/src/keccak.rs:6-24 | on the characters of the string: when each parser succeeds, and when the prefix parser panics |
| Hex.SuffixAccepted | miner-core/src/keccak.rs:16-24 | a prefix followed by a whole non-ASCII character is accepted |
| Hex.DoublePrefix | internal/orchestrator/engine.go:383-386 | with a second `0x` in front the core parses every 32 bytes and Go none |
| Hex.PrintedInjective | miner-core/src/keccak.rs:26-31 | different byte strings print differently |
| Hex.GoReadsPrinted | internal/orchestrator/engine.go:382-390 | Go decodes what the core prints to the same 32 bytes |
| Hex.DifficultyRoundTrip | internal/orchestrator/helpers.go:10-21 | the core reads back the magnitude of any big integer modulo 2^256; nil reads as zero |
| Mining.BuildNonce | miner-core/src/keccak.rs:78-83 | the buffer is the prefix followed by the big-endian counter |
| Mining.NonceValue | miner-core/src/keccak.rs:78-83 | the nonce is the prefix times 2^64 plus the counter |
| Mining.NonceInjective | miner-core/src/keccak.rs:78-83 | nonces are equal exactly when prefix and counter are |
| Mining.NonceCrosses | internal/orchestrator/engine.go:382-391 | Go decodes a printed nonce to prefix times 2^64 plus counter |
| Mining.IsBelowTargetBe | miner-core/src/keccak.rs:42-49 | the byte loop decides less-than of the big-endian values |
| Mining.TryCounter | miner-core/src/keccak.rs:51-54 | building, hashing and comparing agree with the definition of a hit |
| Mining.WordsBelowIsValue | miner-core/kernels/keccak256.cl:110-119 | the kernel's four-word comparison decides the same less-than |
| Mining.GoAgreesWithCore | internal/orchestrator/engine.go:470-477 | Go's comparison and the core's agree on every digest exactly when the difficulty fits 256 bits or is a negative multiple of 2^256, and Go's check of any challenge and nonce is then exactly that they solve the core's job |
| Prefix.RandomPrefix24 | miner-core/src/main.rs:117-137 | the printed prefix is the three generator outputs in little-endian order |
| Prefix.ZeroSeed | miner-core/src/main.rs:123-128 | the three words drawn at clock reading zero, as literals |
| Prefix.PrefixWords | miner-core/src/main.rs:124-132 | each eight bytes of the prefix are the next generator word in little-endian order |
| Prefix.XorShiftInjective | miner-core/src/main.rs:125-128 | one generator round never merges two states |
| Prefix.GeneratorNonZero | miner-core/src/main.rs:123-128 | the state stays non-zero forever exactly when it starts non-zero |
| Prefix.PrefixInjective | miner-core/src/main.rs:117-137 | different clock readings give different prefixes |
| Prefix.PrefixesSeparateJobs | miner-core/src/main.rs:73-85 | jobs retargeted at different clock readings have disjoint nonces for all counters |
| Pool.StepInv | miner-core/src/cpu.rs:73-99 | every step of every worker keeps the invariant on flag, slot, counters and counts |
| Pool.WinnerIsUnique | miner-core/src/cpu.rs:87-91 | in every interleaving at most one swap wins, the slot solves the job with that worker's last nonce, and once all have returned it is filled exactly when the flag is up |
| Pool.NoSolutionMeansStopped | miner-core/src/cpu.rs:76-110 | no solution means stop was raised and no nonce hashed by anyone was below the target |
| Pool.Conservation | miner-core/src/cpu.rs:82-96 | at every moment of every run the shared total and the unflushed local counts together are the hashes made, modulo 2^64 |
| Pool.SlotIsFinal | miner-core/src/cpu.rs:88-89 | once the result slot is filled no step of anyone changes it |
| Coverage.TriedInOrder | miner-core/src/cpu.rs:76-97 | each worker has tried exactly the counters from its start, in order, with no gap or repeat |
| Coverage.TriableExactly | miner-core/src/cpu.rs:76-97 | up to the first hit a counter can be tried exactly when its batch ends below 2^64 |
| Distinct.DisjointExactly | miner-core/src/cpu.rs:73-97 | no counter is tried by two workers in any run that keeps each below 2^48 steps, exactly when there are at most 2^16 workers |
| Distinct.CountExactly | miner-core/src/cpu.rs:76-105 | for any number of workers and fewer than 2^64 hashes, the returned count is the number of distinct nonces tried exactly when no counter was tried by two workers |
| Distinct.HashesAreDistinctNonces | miner-core/src/cpu.rs:76-105 | with at most 2^16 workers below 2^48 steps each, the returned count is the number of distinct nonces tried |
| Cpu.CpuRun.Step | miner-core/src/cpu.rs:77-98 | the code between two shared accesses, on the shared fields, is one step of the machine |
| Cpu.CpuRun.Race | miner-core/src/cpu.rs:73-99 | any order of workers is a schedule of the machine in which only the outside raises the flag |
| Cpu.RunCpu | miner-core/src/cpu.rs:25-111 | what is returned is what some schedule of the clamped number of workers with the clamped batch leaves; it is given up only with the budget spent; after the join a solution solves the job, a run that nobody outside stopped has one, no solution means every tried nonce was rejected, and the count is the evaluations modulo 2^64 |
| GpuRound.StepInv | miner-core/kernels/keccak256.cl:82-129 | every step of every work item keeps the invariant on flag, buffers and history |
| GpuRound.LateItemsSkip | miner-core/kernels/keccak256.cl:84 | an item that has not read the flag when it goes up never hashes |
| GpuRound.DispatchResult | miner-core/kernels/keccak256.cl:82-129 | under any order of items the dispatch ends, the flag is up exactly when some counter is a hit, nonce and digest then come from one item, and otherwise every counter was hashed exactly once |
| WorkSize.LocalSizeExactly | miner-core/src/gpu.rs:155-160 | the work-group size for an unreadable limit and for limits below, within and above 32 to 256 |
| WorkSize.GlobalSizeExactly | miner-core/src/gpu.rs:155-162 | the size is whole groups covering the batch with less than one group over exactly when the sum does not wrap; otherwise it is zero |
| Gpu.Dispatch | miner-core/kernels/keccak256.cl:73-130 | the device's buffers after a dispatch, for any order in which it runs the items |
| Gpu.RunGpu | miner-core/src/gpu.rs:164-246 | the false-positive exit is unreachable; without a solution exactly the first counters were hashed, each once, and rejected; a solution belongs to the last round and all earlier rounds are rejected; counts saturate, and exactly the due rounds are reported, each with its count; with no work items the first launch fails |
| RunThread.StepInv | miner-core/src/main.rs:174-248 | every step of every thread of a run keeps its invariant; the job never changes and a raised flag stays up |
| RunEvents.EventGrammar | miner-core/src/main.rs:180-248 | at every moment of every run: a first part of the progress in the order sent, then one Found or Stopped and nothing more, or one Error among progress for a failed GPU run |
| Losses.LostExactly | miner-core/src/main.rs:181-195 | whatever the later schedule, the progress lost is what is on the channel when the run thread raises the forwarder's flag if the forwarder has then timed out, and none otherwise |
| Losses.ErrorThenProgressExactly | miner-core/src/main.rs:210-216 | progress can follow the error exactly when, as the run fails, some is in the forwarder's hands or on the channel |
| Losses.ErrorThenProgress | miner-core/src/main.rs:210-216 | a schedule from the start of a GPU run that emits an error and then progress |
| RunEvents.FoundExactly | miner-core/src/main.rs:233-248 | a CPU run that is over ends with Found exactly when a worker won the flag, and with Stopped exactly when none did |
| RunEvents.FinishedIsSilent | miner-core/src/main.rs:233-248 | a finished run emits nothing more |
| RunEvents.FoundVerifies | miner-core/src/main.rs:234-242 | the strings of every Found event are the printed form of a nonce and digest that solve the run's job |
| RunEvents.CountsAscend | miner-core/src/cpu.rs:58-110 | while the total is below 2^64, the counts in a CPU run's events never go down, and the Found or Stopped that ends it carries the number of hashes made |
| ProgressCounts.ProgressIsFresh | miner-core/src/cpu.rs:58-66 | the j-th progress count is the shared total at a moment when exactly the counts before it had been sent |
| ProgressCounts.AtMost64 | miner-core/src/main.rs:175 | no more than 64 messages ever wait on the channel |
| ProgressCounts.BlocksAt64 | miner-core/src/main.rs:175 | a schedule in which 64 reports wait and the next blocks the reporter |
| RunEvents.GpuCountsAscend | miner-core/src/gpu.rs:194-246 | the counts in a GPU run's events never go down, and the Found or Stopped that ends it carries the work items of the dispatches that came back, saturated |
| RunEvents.ProgressCanBeLost | miner-core/src/main.rs:181-195 | a schedule in which a finished run has reported none of the progress it sent |
| Shutdown.StepProgress | miner-core/src/main.rs:145-150 | with the flag up every step but a timeout of the forwarder strictly decreases a measure |
| Shutdown.BoundedMoves | miner-core/src/main.rs:145-150 | so any schedule has boundedly many steps that are not such timeouts |
| Shutdown.SomethingMoves | miner-core/src/main.rs:180-231 | no state of workers, reporter, channel, forwarder and run thread short of the end is stuck |
| Shutdown.CanFinish | miner-core/src/main.rs:145-150 | from every state with the flag up, CPU or GPU, the run reaches its end within a stated number of steps |
| Shutdown.OneMoreBatch | miner-core/src/cpu.rs:77-97 | once the stop flag is up or a worker has won, no worker hashes more than one further batch |
| Shutdown.WonReturns | miner-core/src/cpu.rs:77-111 | once a worker has won, the run can reach its end without being stopped, within a stated number of steps, and its last event is Found |
| Core.StepInv | miner-core/src/main.rs:44-110 | every command and every step of every thread keeps the core's invariant |
| Sessions.SessionOrder | miner-core/src/main.rs:44-106 | for every command sequence and schedule at most one run is alive, Ready is first, the events of a run precede those of the next, and each run's events are well formed |
| Sessions.FoundSolvesItsCommand | miner-core/src/main.rs:62-92 | whatever follows a Start or Retarget that parses, every Found event under the number of the run it starts solves that command's challenge and difficulty |
| Sessions.SenderIsActive | miner-core/src/main.rs:62-106 | whatever is emitted comes from the latest run, not yet over, held or being joined by the command loop |
| Sessions.Undisturbed | miner-core/src/main.rs:51-60 | malformed lines and probes leave the active run active with its flag down; without Start, Retarget, Stop or the end of input it never reports Stopped |
| Replies.SessionAnswers | miner-core/src/main.rs:36-100 | in every session the command loop's own events are Ready, then one Devices for each probe and one error for each malformed line and each refused start, in the order of the commands, and nothing else |
| Replies.ReadFailsIsLast | miner-core/src/main.rs:45 | after a read error nothing happens any more |
| Sessions.SpawnLeaves | miner-core/src/main.rs:62-72 | a refused start leaves no run active or alive and sends one error; an accepted one leaves exactly the new run alive |
| Sessions.StartExactly | miner-core/src/main.rs:153-171 | on the characters of the three strings: which starts are accepted and which panic, all others being refused; and the mode, job, batch, workers and work size of an accepted one |
| Sessions.PrefixCanPanic | miner-core/src/keccak.rs:22 | a prefix that makes the command loop panic with any challenge and difficulty that parse |
| Sessions.StartCompletes | miner-core/src/main.rs:62-92 | every Start and Retarget can be carried out: the run before ends, and the new one, if its strings parse, is then the only one alive |
| Sessions.StopCompletes | miner-core/src/main.rs:93-97 | every Stop can be carried out: no run is then active or alive |
| Sessions.RetargetStarts | miner-core/src/main.rs:73-92 | a retarget starts exactly when its challenge and difficulty are 64 hex digits, never panics, and always runs on the CPU with batch 2^20 and the clock's prefix |
| Sessions.DisconnectedExactly | miner-core/src/main.rs:104-109 | all sender clones of the event channel are gone exactly when the command loop has dropped its own: no run and no forwarder outlives it |
| Sessions.DrainingIsQuiet | miner-core/src/main.rs:104-109 | from then on no step of anyone sends an event |
| Sessions.EmitterNeverWaits | miner-core/src/main.rs:22-32 | from then on the emitter can always write or leave, and once it has left everything sent was written |
| Sessions.SessionEnd | miner-core/src/main.rs:104-110 | at the end the emitter has gone with everything sent written in order, and every run is over with its stream closed |
| Sessions.JoinReturns | miner-core/src/main.rs:145-150 | waiting for a stopped run comes back within a stated number of steps |
| Sessions.SessionCanEnd | miner-core/src/main.rs:104-110 | from every reachable state waiting for a line, the end of input can bring the session to its end with everything written |
| Submit.StepInv | internal/orchestrator/engine.go:382-440 | every step of every handler and every poll keeps the invariant on keys, claims and calls |
| Submit.KeyInjective | internal/orchestrator/engine.go:405 | keys are equal exactly when address and text are |
| Submit.SubmitOnce | internal/orchestrator/engine.go:382-440 | in every interleaving no two calls share an address and a nonce text, nor for texts as the core prints them an address and a 256-bit nonce; with verification on each call's digest is below a difficulty, with a challenge, that were cached |
| Submit.CachesAreLatest | internal/orchestrator/engine.go:113-132 | whatever the handlers do, the cached challenge and difficulty are the ones stored last |
| Submit.CallsExactly | internal/orchestrator/engine.go:382-440 | when a handler left alone calls and when it changes nothing, on the text, the map, and the digest against the caches |
| Submit.GoNonceExactly | internal/orchestrator/engine.go:383-391 | exactly which texts decode to which nonce |
| Submit.SpelledTwice | internal/orchestrator/engine.go:404-411 | two accepted texts of one nonce are submitted twice exactly when they differ |
| Submit.BareDigits | internal/orchestrator/engine.go:383-391 | every nonce has at least two accepted texts |
| Submit.NeverRetried | internal/orchestrator/engine.go:404-427 | once claimed, a text leads to no further call, whether or not the call succeeded |
| Submit.OnFoundIsSchedule | internal/orchestrator/engine.go:382-440 | the steps of a handler nothing interrupts add up to the whole of `onFound` |
| Submit.VerifyLocal | internal/orchestrator/engine.go:470-477 | the buffer holds challenge and nonce, and the answer is the big-integer comparison of its hash |
| Submit.Engine.PollState | internal/orchestrator/engine.go:113-132 | the two stores of a poll, and that nothing else changes |
| Submit.Engine.TestAndSet | internal/orchestrator/engine.go:404-411 | the critical section answers whether the key is new and adds it when it is |
| Submit.Engine.OnFound | internal/orchestrator/engine.go:382-440 | on the engine's fields, what one found event does and all it changes |
| Agreement.FoundPassesVerifyLocal | internal/orchestrator/engine.go:382-402 | what the core finds for a job Go printed decodes to the same nonce and passes Go's check exactly when the difficulty is not negative |
| Agreement.FoundIsSubmitted | internal/orchestrator/engine.go:382-440 | such a nonce, not seen before, leads to exactly one call with that nonce |
| WorkerQueue.FedDelivers | internal/orchestrator/worker.go:113-130 | whatever consumers do, the queue delivers a subsequence of the events of the non-empty lines in order, never holds more than 256, and misses exactly the dropped ones |
| WorkerQueue.ContentsDelivered | internal/orchestrator/worker.go:113-130 | the strings delivered as events are, in order, among those of the lines that decode, the errors' among the raw lines that do not |
| WorkerQueue.LosslessExactly | internal/orchestrator/worker.go:122-129 | every event is delivered, and the non-empty lines can be read back from them one by one, exactly when fewer than 256 wait at each offer |
| WorkerQueue.PromptConsumer | internal/orchestrator/engine.go:279-298 | a consumer that receives after every line loses nothing |
| WorkerQueue.Worker.TrySend | internal/orchestrator/worker.go:124-127 | a send without waiting is only made on an open channel and succeeds exactly when there is room |
| WorkerQueue.Worker.CloseEvents | internal/orchestrator/worker.go:131-136 | the channel is closed exactly once |
| WorkerQueue.Worker.ReadEvents | internal/orchestrator/worker.go:111-137 | from an empty queue, what was taken and what waits after all lines is a subsequence of the non-empty lines, all of them exactly when a slot was kept free; the channel is closed exactly once |
| WorkerQueue.Worker.Range | internal/orchestrator/engine.go:279-298 | ranging over the closed channel receives everything still waiting and ends |

## Left out

- JSON syntax, command-line handling, configuration, logging and process spawning: the model starts from decoded commands, events and lines.
- RPC, ABI packing, signing, receipts and failover: `SubmitMine` is a recorded call. Its parameters never carry the nonce (`internal/orchestrator/engine.go:422`), so nothing is said about the transaction's contents.
- Hash rates, times, gas prices and other floating-point values: Progress, Found and Stopped events carry only their counts.
- The command loop, the run thread, the reporter and the forwarder are step machines on values: the order of their accesses is captured, their update of variables in place is not.
- Wall-clock waits: the reporter's sleep, the forwarder's receive timeout and the 500 ms of the GPU loop are steps or choices that may happen at any time.
- Relaxed atomics are single variables with one value at a time; a flag raised by one thread is seen by the next load.
- The OpenCL host interface: buffers are delivered faithfully, `finish` waits for every item, and each global id runs once. Device selection and build failures are the `GpuFails` step.
- RunGpu: does not model a search that is never stopped and never finds anything, which does not return; the round at which the flag is first seen raised is a parameter.
- RunCpu: watches the workers for a given number of steps, because a worker at the end of its counters spins until stopped.
- The size of the thread pool: every worker that has not returned may step at any time, which includes every pool size.
- After `take` the result slot still holds its value; nothing reads it again.
- A read error or a panic in the command loop ends the process; the state `Dead` says nothing about what was written by then.
- The challenge used for verification is the one cached for the primary account (`internal/orchestrator/engine.go:121`); for other accounts the model says only that the check used that one.
- Two goroutines may receive a worker's first event (`internal/orchestrator/engine.go:175`); `WorkerQueue` says what is received, not by whom.
- Restarting a job after a submission, epoch polling and worker statistics.
- Strings are their UTF-8 code units; address checksums appear only as some mixture of letter cases.
- Unused code: `spawn_listener`, `drain_with_stop` and `SubmittedKey`.
