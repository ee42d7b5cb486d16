# Verified models of the WebRTC base library and the three-band filter bank

This project models the parts of the repository whose correctness is hard to see from the code, and proves
what they promise. Each file is one component. `BufferQueue.dfy` and `CopyOnWrite.dfy` build on
`Buffers.dfy`, and `FilterBank.dfy` on `SparseFir.dfy`; `Basics.dfy` holds what several of them use.

| file | component | form of the model |
|---|---|---|
| `CriticalSection.dfy` | the recursive lock made of a counter, an owner field and a semaphore | a step system: one step per atomic operation, field access or semaphore call, over any number of threads |
| `AsyncInvoker.dfy` | the teardown protocol of `AsyncInvoker` and its closures | a step system over threads, queues and closures |
| `TcpFraming.dfy` | packets over a byte stream | a class with its buffers, and the wire format as functions |
| `SparseFir.dfy` | the sparse FIR filter with its bounded state, over the reals | a class over an array, and the convolution as a function |
| `FilterBank.dfy` | the polyphase filter bank, over the reals | a class with its filters and scratch buffers, and the plain FIR form as functions |
| `MessageQueue.dfy` | the message queue | a step system for what several threads do to one queue, and a class with its containers |
| `MessageQueueGet.dfy` | the timed Get loop | the looks, waits and outcomes of Get, with what other threads do whenever the lock is free, as functions and predicates on the states of the step system |
| `MessageQueueOrder.dfy` | the container of the priority queue | lemmas that compare two queues |
| `MessageQueueManager.dfy` | processing all queues | a step system over any number of queues and the loop that posts to them |
| `Base64.dfy` | the codec with its parse, padding and termination modes | methods with the loops of the source, and the encoding as functions |
| `Buffers.dfy` | the growable buffer | a class over an array |
| `CopyOnWrite.dfy` | handles on shared, reference-counted buffers | a class, over a heap of handles and buffers |
| `BufferQueue.dfy` | the bounded packet queue with a pool of buffers | a class over `Buffers.Buffer` objects |
| `IpPrefix.dfy` | prefix truncation, mask bits, mapped addresses and their order | methods on machine words as bit strings |

`dafny verify dfyconfig.toml` checks everything.

## What is proved

- **Lock.** In every interleaving of any number of threads that call Enter, TryEnter and Leave, with recursion
  and with any spinning, one invariant holds (`CriticalSectionModel.Safety`). From it follow mutual
  exclusion, the documented meaning of `lock_queue_`, that no `RTC_DCHECK` fires, that a wake-up is neither
  lost nor duplicated, that when a parked thread cannot go on some other thread can or is inside, and that
  the lock refines an atomic recursive lock.
- **Teardown.** `pending_invocations_` counts the closures that exist; after the destructor has left its loop
  nothing touches the invoker; a blocked destructor is never stranded; and a teardown that has run as far as
  it can has ended exactly if the destructor does not run inside one of its own functors and no post was
  dropped by a quitting queue. Functors that invoke more functors cannot keep it going for free: the number
  of steps is bounded.
- **Framing.** For all sends, all partial writes and all ways the bytes arrive, what is delivered is a prefix of
  what was accepted, no packet is missing whose bytes have all arrived, and all of it is delivered once all
  bytes have arrived. The stream can be parsed back exactly if every length fits its 16-bit field; the code
  accepts three lengths that do not fit, and a packet of 65536 bytes is the counterexample. The receive
  buffer never wedges.
- **Filter bank.** A sparse filter that keeps only as many samples as it can reach back to computes, over any
  number of blocks of any lengths, shorter ones than its state included, the convolution of all its input.
  Over any number of blocks and any interleaving of Analysis and Synthesis, the polyphase form built from
  24 such filters computes the 48-tap plain form, in both directions.
- **Message queue.** Every accepted message is in exactly one place; a sentinel posted with a delay is a
  barrier; clearing is exact. What Get does is determined by the queue, by how its waits end and by what
  other threads do whenever it does not hold the lock, which is while it waits, after each message it
  disposes of, and before it asks whether the queue is quitting. Nothing that arrives during a look overtakes
  what was ready when it started, and every outcome says what is left in the queue. A Get or a Peek is a run
  of the step system, so the first two results hold of the class. The order of the container of delayed
  messages has no influence on anything. The waits that Get makes are well timed under an exact condition:
  without a limit, a trigger so far away that the cast to a 32-bit integer turns negative makes the wait
  wrong, and `FarTriggerWaitsWrong` shows one.
- **All queues.** When the counter that `ProcessAllMessageQueuesInternal` waits for is zero, everything has left
  every queue that was ahead of its sentinel, if the sentinel was not cleared; if it was, that holds exactly
  when the same Clear took all of it. `ClearedTooSoon` is a run where it did not. A queue that starts quitting
  between the question and the posting keeps the loop from ending.
- **Base64.** Strict decoding accepts exactly the encodings. Skipping whitespace while decoding is the same
  as removing it first, when padding is optional or forbidden; when padding is required, the bytes are the
  same too, and the verdict differs for exactly one family of inputs. In the laxest mode the bytes are those
  of the data characters alone, and encode back to every character that they determine; the verdict is that of
  the data characters, if the pads at the end suit the padding mode, and what suits it is stated exactly.
- **Buffers.** Growth is amortised linear; with `ZeroOnFree` nothing that was stored survives outside the
  contents. Any program over copy-on-write handles behaves as if each handle had its own bytes. The packet
  queue is a bounded FIFO that never allocates more buffers than its capacity.
- **Addresses.** Truncation keeps exactly the leading bits, and the bit-twiddling mask count is right for every
  word. Comparing numbers in one family and bytes in the other is comparing bits in both, so addresses are
  strictly and totally ordered.

Where the code and its comments differ the model follows the code. `CopyOnWriteBuffer::operator==` is
described as equality of contents, and is not between a handle that has a buffer of size zero and one that
has none; the header of the class says that a buffer behind a handle has capacity, and appending no bytes
to an empty handle gives it one that has not.

## Assumptions

- Steps of different threads interleave; memory is sequentially consistent.
- The coefficient and cosine tables are parameters, and samples are reals.
- `std::priority_queue` gives an element that no other is greater than.
- The clock, the results of socket calls, and what other threads do while Get does not hold the lock are
  parameters.
- AsyncInvoke is not called from outside a functor once destruction has started (base/asyncinvoker.h:82-89).

## Model

| member | source | states |
|---|---|---|
| CriticalSectionModel.Safety | base/criticalsection.cc:61-172 | in every state that any threads can reach, one invariant ties the lock's fields to the thread that has the lock or owes the wake-up |
| CriticalSectionModel.StepKeeps | base/criticalsection.cc:61-172 | every step of every thread keeps that invariant |
| CriticalSectionModel.HolderStep | base/criticalsection.cc:99-172 | a step of the thread with the lock keeps it, or passes it to nobody if nobody waits and to the semaphore if somebody does |
| CriticalSectionModel.ContenderStep | base/criticalsection.cc:66-97 | a step while nobody has the lock takes it, or changes nothing but the line |
| CriticalSectionModel.BystanderStep | base/criticalsection.cc:66-92 | a step while another thread has the lock can only look or get in line |
| CriticalSectionModel.MutualExclusion | base/criticalsection.cc:61-172 | no two threads have the lock; the owner and recursion fields describe only the one that has it |
| CriticalSectionModel.QueueMeaning | base/criticalsection.h:73-76 | the queue counter is the number of times the lock is locked plus the number of threads waiting |
| CriticalSectionModel.ChecksPass | base/criticalsection.cc:89-172 | no debug check on the lock's fields ever fails |
| CriticalSectionModel.WakeupNeitherLostNorDuplicated | base/criticalsection.cc:89-97 | while a thread waits, the wake-up is in exactly one place: one holder or leaver, or the semaphore with count 1 |
| CriticalSectionModel.NoDeadlock | base/criticalsection.cc:165-172 | if a parked thread cannot go on, another thread can, or is inside the critical section |
| CriticalSectionModel.ContentionIsReachable | base/criticalsection.cc:61-100 | both paths of Enter can be taken: a thread gets inside a free lock, and a second one spins out, gets in line and parks |
| CriticalSectionModel.RefinesAtomicLock | base/criticalsection.cc:61-172 | every step is, to a client, nothing or one atomic lock or unlock by the thread that moved |
| CriticalSectionModel.CallsAgreeWithAtomicLock | base/criticalsection.h:61-63 | between calls a thread's successful entries less its leaves are what the atomic lock says it holds |
| AsyncInvokerModel.StepKeeps | base/asyncinvoker.cc:23-47 | every step of every thread keeps the invariant of the protocol |
| AsyncInvokerModel.PendingCountsClosures | base/asyncinvoker.cc:126-144 | the counter is the number of closures that exist, in every reachable state |
| AsyncInvokerModel.NothingTouchesDeadInvoker | base/asyncinvoker.cc:23-39 | when the destructor has left its loop, no closure is queued, in flight or running, and only Set calls on the event can still happen |
| AsyncInvokerModel.NeverStranded | base/asyncinvoker.cc:30-38 | while the destructor is blocked with the event unset, a closure is queued elsewhere, running, or has still to make its Set call in other hands, unless a post was dropped |
| AsyncInvokerModel.TeardownCanMove | base/asyncinvoker.cc:23-39 | until teardown has ended something other than a new call can happen, unless an obstacle is permanent |
| AsyncInvokerModel.StepUsesFuel | base/asyncinvoker.cc:131-144 | during teardown every step but a new call of AsyncInvoke uses up a bounded resource |
| AsyncInvokerModel.TeardownBounded | base/asyncinvoker.cc:74-88 | the steps of any run after destruction started are bounded by the state then and the calls made since |
| AsyncInvokerModel.HopelessRun | base/messagequeue.cc:346-356 | exactly what makes the end unreachable: a functor under the destructor, or a post dropped by a quitting queue |
| AsyncInvokerModel.TeardownEnds | base/asyncinvoker.cc:23-39 | a teardown that has run as far as it can has ended if and only if nothing permanent stood in its way |
| TcpFraming.ParseFrames | base/asynctcpsocket.cc:279-330 | parsing undoes framing, whatever incomplete frame follows |
| TcpFraming.StreamRoundTrip | base/asynctcpsocket.cc:279-330 | a stream of frames parses back to its packets if and only if every length fits 16 bits |
| TcpFraming.OversizeIsMangled | base/asynctcpsocket.cc:282-296 | a packet of 65536 bytes is accepted and arrives as an empty one |
| TcpFraming.AsyncTcpSocket.FlushOutBuffer | base/asynctcpsocket.cc:158-174 | what was emitted and what is buffered stay together, for any partial write and any error |
| TcpFraming.AsyncTcpSocket.Send | base/asynctcpsocket.cc:279-309 | bytes emitted plus bytes buffered are whole frames of exactly the accepted packets; what is dropped leaves no trace; the result for every outcome |
| TcpFraming.AsyncTcpSocket.OnWriteEvent | base/asynctcpsocket.cc:248-258 | readiness is signalled exactly when everything accepted has been emitted |
| TcpFraming.AsyncTcpSocket.ProcessInput | base/asynctcpsocket.cc:311-330 | delivers exactly the whole frames and leaves an incomplete one of at most 65536 bytes |
| TcpFraming.AsyncTcpSocket.ReadAll | base/asynctcpsocket.cc:205-244 | the inner loop ends, its first Recv has room, and no byte is lost or reordered |
| TcpFraming.AsyncTcpSocket.OnReadEvent | base/asynctcpsocket.cc:186-246 | each read event keeps the bounds on leftover and capacity, has room, and never undelivers |
| TcpFraming.ParsePrefix | base/asynctcpsocket.cc:311-330 | on any prefix of a stream the parser gives a prefix of the packets, missing none whose bytes are there |
| TcpFraming.DeliveredIsParse | base/asynctcpsocket.cc:311-330 | what a receiver has delivered is the parse of all it received, whatever the chunks |
| TcpFraming.EndToEnd | base/asynctcpsocket.cc:186-330 | delivered is a prefix of accepted, complete up to the bytes received, and equal once all bytes have arrived |
| SparseFirFilters.SparseFirFilter.constructor | common_audio/sparse_fir_filter.cc:17-27 | starts from silence, with room for just the samples it can reach back to |
| SparseFirFilters.SparseFirFilter.Convolve | common_audio/sparse_fir_filter.cc:34-45 | the coefficients that reach into the block and those that reach into the state together give the convolution of all input |
| SparseFirFilters.SparseFirFilter.Remember | common_audio/sparse_fir_filter.cc:47-57 | the state is the last samples of all input, after blocks longer and shorter than it |
| SparseFirFilters.SparseFirFilter.Filter | common_audio/sparse_fir_filter.cc:31-58 | over any number of blocks of any lengths the output is the convolution of all input |
| FilterBankSpec.FirSumIsSparseFir | three_band_filter_bank.cc:114-123 | the convolution with four coefficients every fourth sample is the form the polyphase passes are made of |
| ThreeBandFilterBank.Feed | three_band_filter_bank.cc:149-155 | one filter runs on all of its own input, and the others are left alone |
| FilterBankSpec.AnalysisNobleIdentity | three_band_filter_bank.cc:18-29 | the twelve passes over downsampled branches equal the 48-tap modulated filter, every third sample kept |
| FilterBankSpec.SynthesisNobleIdentity | three_band_filter_bank.cc:18-29 | the four passes that reach an output sample equal the 48-tap filter on the zero-stuffed bands, scaled by 3 |
| FilterBankSpec.AnalysisCausal | three_band_filter_bank.cc:142-164 | later input does not change a sample already put out, so blocks join up |
| FilterBankSpec.SynthesisCausal | three_band_filter_bank.cc:166-184 | the same for synthesis |
| ThreeBandFilterBank.Downsample | three_band_filter_bank.cc:88-96 | every third sample from the offset |
| ThreeBandFilterBank.Upsample | three_band_filter_bank.cc:100-104 | adds three times the input to every third sample and leaves the others alone |
| ThreeBandFilterBank.FilterBank.constructor | three_band_filter_bank.cc:111-132 | twenty-four filters on the rows of the table, delayed by their place and sharing nothing, in silence |
| ThreeBandFilterBank.FilterBank.Analysis | three_band_filter_bank.cc:142-164 | the block put out is the plain form of everything ever put in, with nothing kept but the bounded state of the filters, whatever Synthesis did in between |
| ThreeBandFilterBank.FilterBank.DownModulate | three_band_filter_bank.cc:186-199 | adds the modulated input to every band |
| ThreeBandFilterBank.FilterBank.Synthesis | three_band_filter_bank.cc:166-184 | the block put out is the plain interpolating form of all bands ever put in, with nothing kept but the bounded state of the filters, whatever Analysis did in between |
| ThreeBandFilterBank.FilterBank.UpModulate | three_band_filter_bank.cc:201-211 | the bands mixed with one row of the cosine table |
| MessageQueueSpec.DrainIsReadyInOrder | base/messagequeue.cc:271-283 | taking from the priority queue while it is due gives exactly the triggered messages, by trigger and number |
| MessageQueueRuns.Conservation | base/messagequeue.cc:230-502 | over every run, every accepted message is in exactly one of peek slot, queue, delayed queue, returned, disposed and cleared |
| MessageQueueRuns.StepConserves | base/messagequeue.cc:230-502 | every step of every thread keeps that balance |
| MessageQueueRuns.ClearExact | base/messagequeue.cc:456-502 | clearing removes every matching message that is held, and no other, with its multiplicity |
| MessageQueueRuns.Barrier | base/messagequeue.cc:104-135 | when the sentinel leaves through Get, all that was in the peek slot, the queue, or delayed up to its trigger has left, for any posts, peeks, clears and quits since |
| MessageQueueRuns.StepKeepsBarrier | base/messagequeue.h:182-185 | the order by trigger and number keeps everything ahead of the sentinel ahead of it |
| MessageQueueRuns.PostHeld | base/messagequeue.cc:346-431 | a message posted is held from then on, once more than before, unless the queue is quitting |
| MessageQueueOrder.DrainTheSame | base/messagequeue.cc:271-283 | two containers with the same delayed messages, in any order, give out the same messages in the same order |
| MessageQueueOrder.RunIgnoresOrder | base/messagequeue.cc:230-502 | every run of a queue is a run of one that differs only in the order of its container, with the same returned, disposed of, cleared and held |
| MessageQueueOrder.LookIgnoresOrder | base/messagequeue.cc:259-312 | a look finds the same message in both, whatever other threads do meanwhile |
| MessageQueueManagerModel.StepPasses | base/messagequeue.cc:104-146 | every step of every thread keeps the sentinel in its place, and nothing ahead of it is held once it is disposed of |
| MessageQueueManagerModel.AllQueuesProcessed | base/messagequeue.cc:104-146 | when the counter is zero, over every interleaving on any number of queues, no posting was lost, and all has left that was ahead of a sentinel that was not cleared |
| MessageQueueManagerModel.ClearedSentinel | base/messagequeue.cc:110-121 | if a Clear takes the sentinel out, all that was ahead of it has left if and only if the Clear takes out all of it that is still held |
| MessageQueueManagerModel.ClearedTooSoon | base/messagequeue.cc:110-121 | clearing the dispose messages brings the counter to zero while a message posted before is held |
| MessageQueueManagerModel.LostForEver | base/messagequeue.cc:126-145 | a posting to a queue that has started quitting since it was asked keeps the counter above zero in every run |
| MessageQueueGet.WaitWellTimed | base/messagequeue.cc:315-330 | a wait is forever only with nothing delayed and no limit, else bounded by the budget and the next trigger, if and only if the cast to int does not turn it negative |
| MessageQueueGet.WaitsWellTimed | base/messagequeue.cc:315-335 | so every wait that Get makes is well timed exactly under that condition, if the clock has not gone back |
| MessageQueueGet.FoundIsDue | base/messagequeue.cc:271-309 | Get never returns a delayed message before its trigger, nor one to be disposed of, nor one that was not there or posted during the look |
| MessageQueueGet.FoundIsFirst | base/messagequeue.cc:259-310 | nothing posted during a look overtakes what was ready when it started, unless something is cleared meanwhile |
| MessageQueueGet.FoundNothing | base/messagequeue.cc:271-309 | an undisturbed look finds nothing exactly when all that is posted or due is to be disposed of |
| MessageQueueGet.OutcomeDetermined | base/messagequeue.cc:242-342 | the outcome, the waits and the queue left are determined by the queue, the limit, how the waits end and what others do meanwhile |
| MessageQueueGet.OutcomeReachable | base/messagequeue.cc:230-342 | whatever Get does, and Peek until it has the message in hand, is a run of the step system, so conservation and the barrier hold of it |
| MessageQueueGet.StashReachable | base/messagequeue.cc:235-239 | so is the rest of Peek, whatever arrives before it fills the slot |
| MessageQueueGet.ArriveInHand | base/messagequeue.cc:235-239 | what others do while Peek has the message in hand neither sees nor touches it |
| MessageQueueGet.FarTriggerWaitsWrong | base/messagequeue.cc:315-330 | a trigger 2^31 ms away makes the wait negative |
| MessageQueueImpl.MessageQueue.Size | base/messagequeue.h:266-269 | the number of messages held |
| MessageQueueImpl.MessageQueue.Post | base/messagequeue.cc:346-371 | one step of the step system: a message more is held unless quitting, and a queue in a reachable state stays in one, so that conservation and the barrier hold of it |
| MessageQueueImpl.MessageQueue.DoDelayPost | base/messagequeue.cc:401-431 | the same for a delayed message, as long as its number does not wrap |
| MessageQueueImpl.MessageQueue.Quit | base/messagequeue.cc:213-216 | one step of the step system, which keeps to its reachable states |
| MessageQueueImpl.MessageQueue.Restart | base/messagequeue.cc:226-228 | the same |
| MessageQueueImpl.MessageQueue.PullLive | base/messagequeue.cc:284-309 | takes messages off the front, one at a time, until one is not to be disposed of, with others acting after each one disposed of |
| MessageQueueImpl.MessageQueue.ClearOrdered | base/messagequeue.cc:470-483 | in-place erasure leaves exactly the survivors in order and gives out exactly the others |
| MessageQueueImpl.MessageQueue.ClearDelayed | base/messagequeue.cc:485-501 | in-place compaction leaves exactly the survivors and gives out exactly the others |
| MessageQueueImpl.MessageQueue.Clear | base/messagequeue.cc:456-502 | one step of the step system; what it gives out is exactly what is no longer held |
| MessageQueueImpl.MessageQueue.Get | base/messagequeue.cc:242-342 | returns the peeked message, else what the first look finds that finds one, quitting or not, each look being at what the last one and the arrivals since have left, with others acting whenever the lock is free; for every outcome, the waits made and the queue left |
| MessageQueueImpl.MessageQueue.Peek | base/messagequeue.cc:230-240 | does what Get would, but leaves the message in the slot, where the next Get returns it, with others acting also before the slot is filled |
| Base64Spec.DecodeEncode | base/base64.cc:95-134 | strict decoding of an encoding succeeds, gives the original bytes and uses all input |
| Base64Spec.EncodeDecode | base/base64.cc:221-275 | whatever strict decoding accepts is the encoding of what it returns |
| Base64Spec.StrictAcceptsExactlyEncodings | base/base64.cc:221-275 | the accepted strings are exactly the encoder's image |
| Base64Spec.WhitespaceInsensitive | base/base64.cc:143-190 | with padding optional or forbidden, skipping whitespace gives the bytes and verdict of removing it first |
| Base64Spec.WhitespaceWhenPaddingRequired | base/base64.cc:239-274 | with padding required the bytes agree, and the verdicts agree but for input that ends in whitespace and, without it, not in a pad |
| Base64Spec.NewlineAfterEncoding | base/base64.cc:239-274 | an encoding followed by a whitespace character is accepted with padding required exactly if it has padding |
| Base64Spec.TermModes | base/base64.cc:259-274 | the termination mode changes nothing but the verdict, and how |
| Base64Spec.AnyCharIsDataOnly | base/base64.cc:143-274 | in the laxest parsing mode the bytes are those of the data characters alone, in every mode, and the verdict is theirs if and only if the pads at the end suit the padding and termination mode |
| Base64Spec.DataDecodes | base/base64.cc:239-257 | data characters decode to as many bytes as they have bits for, which encode back to every character they determine |
| Base64Spec.AnyCharDecodes | base/base64.cc:143-257 | so for any input the laxest mode gives bytes that encode back to the data characters of the input, as far as they determine them |
| Base64Spec.QuantumProgress | base/base64.cc:136-191 | a whole quantum uses at least four characters, so decoding ends |
| Base64Impl.EncodeFromArray | base/base64.cc:95-134 | the loop computes the RFC 4648 encoding into a buffer of the exact size |
| Base64Impl.GetNextQuantum | base/base64.cc:136-191 | reads one quantum, and goes back to the first pad when padding is incomplete |
| Base64Impl.DecodeFromArray | base/base64.cc:221-275 | bytes, verdict and bytes used, in every mode, for every input |
| Buffers.GrowthIsAmortised | base/buffer.h:353-373 | a reallocation with headroom keeps copies within three per element of capacity, and capacity within 3/2 of the largest request |
| Buffers.NoHeadroomIsQuadratic | base/buffer.h:330-334 | growing one element at a time without headroom copies n(n-1)/2 elements, and the bound holds exactly up to capacity 7 |
| Buffers.GrowByOnes | base/buffer.h:330-334 | a buffer grown so by EnsureCapacity copies exactly that many |
| Buffers.Buffer.EnsureCapacityWithHeadroom | base/buffer.h:353-373 | contents stay, capacity follows the policy, storage given up is wiped if asked for |
| Buffers.Buffer.AppendData | base/buffer.h:256-264 | the contents are the old ones followed by the new, within the amortised bounds |
| Buffers.Buffer.SetData | base/buffer.h:202-210 | the contents are the source, nothing is copied by reallocation, and nothing of the old contents survives, in storage kept or given up, if asked for |
| Buffers.Buffer.SetSize | base/buffer.h:318-325 | the common prefix stays, and what is cut off is wiped if asked for |
| Buffers.Buffer.EnsureCapacity | base/buffer.h:330-334 | contents stay, capacity is the larger of the two, and what is copied |
| Buffers.Buffer.Clear | base/buffer.h:338-342 | empty, with the same storage |
| Buffers.Buffer.Equals | base/buffer.h:161-176 | equality of contents |
| CopyOnWrite.CopyOnWriteBuffer.Overwrite | base/copyonwritebuffer.cc:98-106 | with a count of one, writing in place changes nothing that another handle observes |
| CopyOnWrite.CopyOnWriteBuffer.SetBuffer | base/scoped_ref_ptr.h:117-125 | the count stays the number of handles on the buffer, on both buffers |
| CopyOnWrite.CopyOnWriteBuffer.CloneDataIfReferenced | base/copyonwritebuffer.cc:98-106 | afterwards the handle alone has the buffer, with the same contents |
| CopyOnWrite.CopyOnWriteBuffer.AppendData | base/copyonwritebuffer.h:183-195 | appends for this handle only; the handle is consistent afterwards if and only if it had a buffer or bytes were appended |
| CopyOnWrite.CopyOnWriteBuffer.AppendFrom | base/copyonwritebuffer.h:205-207 | appends what a handle observes, which it still does, also when they share, and also to itself while its bytes stay readable |
| CopyOnWrite.CopyOnWriteBuffer.SetData | base/copyonwritebuffer.h:151-161 | replaces the contents for this handle only |
| CopyOnWrite.CopyOnWriteBuffer.SetSize | base/copyonwritebuffer.cc:51-69 | resizes for this handle only, keeping the common prefix |
| CopyOnWrite.CopyOnWriteBuffer.EnsureCapacity | base/copyonwritebuffer.cc:71-85 | no handle observes other bytes |
| CopyOnWrite.CopyOnWriteBuffer.Clear | base/copyonwritebuffer.cc:87-96 | empties this handle only, without altering capacity |
| CopyOnWrite.CopyOnWriteBuffer.Write | base/copyonwritebuffer.h:136-139 | a write through the mutable index changes one byte of this handle only |
| CopyOnWrite.CopyOnWriteBuffer.Assign | base/copyonwritebuffer.h:114-121 | the two handles share, and no handle but the target changes |
| CopyOnWrite.CopyOnWriteBuffer.MoveAssign | base/copyonwritebuffer.h:123-128 | the value moves and leaves the source empty, also between handles that share, and not on self-assignment |
| CopyOnWrite.CopyOnWriteBuffer.Copy | base/copyonwritebuffer.cc:19-20 | a copy shares and observes the same bytes, and no other handle changes |
| CopyOnWrite.CopyOnWriteBuffer.FromData | base/copyonwritebuffer.h:46-56 | a handle on a copy of the bytes, consistent also when there are none |
| CopyOnWrite.CopyOnWriteBuffer.Destroy | base/scoped_ref_ptr.h:97-100 | the count of the buffer goes with the handle, and the other handles observe what they did |
| CopyOnWrite.CopyOnWriteBuffer.Equals | base/copyonwritebuffer.cc:42-49 | equal if and only if the bytes are equal and either both or neither have capacity |
| CopyOnWrite.EmptyButDifferent | base/copyonwritebuffer.cc:42-49 | two handles without bytes that do not compare equal |
| PacketQueue.BufferQueue.MadeAtMostCapacity | base/bufferqueue.cc:70-92 | buffers ever allocated never exceed the capacity |
| PacketQueue.BufferQueue.WriteBack | base/bufferqueue.cc:65-92 | appends a whole packet unless full, recycles before it allocates, and keeps every buffer in exactly one list |
| PacketQueue.BufferQueue.ReadFront | base/bufferqueue.cc:44-63 | takes the first packet and gives as much of it as there is room for; the rest is gone, not merged |
| PacketQueue.BufferQueue.Clear | base/bufferqueue.cc:36-42 | empties the queue and loses no buffer |
| PacketQueue.Fill | base/bufferqueue.cc:83 | writing into a recycled buffer leaves every other packet alone |
| IpPrefix.TruncateKeepsLeadingBits | base/ipaddress.cc:352-392 | exactly the leading bits are kept, across word boundaries |
| IpPrefix.TruncateTwice | base/ipaddress.cc:352-392 | truncating by a and then b is truncating by the smaller |
| IpPrefix.TruncateIP | base/ipaddress.cc:352-392 | every branch, for every length, computes the truncation |
| IpPrefix.LowestSetBit | base/ipaddress.cc:426-428 | `w & (~w + 1)` isolates the last bit set |
| IpPrefix.TrailingZeros | base/ipaddress.cc:421-440 | the five mask tests count the zeros after it, for every word |
| IpPrefix.CountIPMaskBits | base/ipaddress.cc:394-443 | the leading all-ones words and the last bit set in the next, for every address |
| IpPrefix.CountOfPrefix | base/ipaddress.cc:352-443 | counting undoes truncating the all-ones address, in both families |
| IpPrefix.CountOfMask | base/ipaddress.cc:394-443 | an address of k ones and then zeros counts as k |
| IpPrefix.OrderIsByBits | base/ipaddress.cc:98-121 | comparing host-order numbers and comparing network-order bytes both compare the bits, first difference first, after the family |
| IpPrefix.OrderIsStrictAndTotal | base/ipaddress.cc:77-121 | operator< is irreflexive, transitive and total with operator==, and operator> is its converse |
| IpPrefix.MappingRoundTrip | base/ipaddress.cc:178-196 | normalizing undoes mapping and the reverse, with the exact exceptions |
| IpPrefix.TruncateMapped | base/ipaddress.cc:178-196 | mapping a truncated address is truncating the mapped one by 96 more bits |

## Left out

- Gain control, audio processing, audio buffers and the splitting filter: drivers of code that is not in the repository.
- `GlobalLockPod`: a spin lock of one compare-and-swap, which would only add an easy special case.
- The Windows and pthread variants of the lock, weak memory ordering, and 32-bit overflow of the lock's counters.
- `AsyncInvoker::Flush`, delayed invocations and `GuardedAsyncInvoker`; a delayed closure is a queued one to the protocol.
- The inside of `Event::Wait`: the auto-reset event is one flag that a wake-up clears, without time-outs.
- `SendRaw`, listening sockets and connection set-up of the TCP socket.
- TcpFraming.AsyncTcpSocket.Send: does not model the debug check on the size of the output buffer, which only packets of 65537 and 65538 bytes can fail.
- Floating-point rounding, the values of the coefficient and cosine tables, and perfect reconstruction, which the header disclaims.
- Adding, removing and clearing queues through `MessageQueueManager`, and that the caller of `ProcessAllMessageQueuesInternal` processes its own messages while it waits.
- `MessageQueue::GetDelay`, the `uint32_t` overload of `PostAt`, `Send` and `Dispatch`, and the logging of slow dispatches.
- MessageQueueImpl.MessageQueue.Get: does not model a Get made by the data of a message while it is disposed of; everything else that such data does counts as done by another thread.
- MessageQueueRuns.Barrier: assumes, as the source checks, that the number of delayed posts does not wrap around.
- `IsBase64Char` and its relatives, and the string overloads of the codec.
- The overloads of `SetData` and `AppendData` that take a setter, moved-from buffers, and raw sources that alias the target.
- Buffers.Buffer.EnsureCapacity: is outside the amortised bound, because it asks for no headroom; NoHeadroomIsQuadratic shows why.
- CopyOnWrite.CopyOnWriteBuffer.AppendData: takes its source as a value; when the bytes of a handle itself may be the source, AppendFrom says.
- Move construction and `swap` of handles, which are moves; raw pointers kept across copies.
- Destruction of the packet queue, and its locking: every operation holds the lock throughout.
- Parsing, printing, hashing and classification of addresses.
