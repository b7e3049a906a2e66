# megalo: verified models of its core

megalo is a C++ coroutine server framework. This project models the four parts
of it whose correctness is not visible from any one function, and proves what
they promise over all inputs and all runs.

**Byte buffer and codecs** (`Common`, `ByteArray`, `Codec`, `TypedStream`, `Wire`,
`Streams`). `ByteArray` is a linked list of equal blocks with a cached pointer to the
block of the cursor. The class works on real nodes and arrays and is proved to behave
like one flat byte sequence with a cursor (`Flat`): acyclic, capacity equal to blocks
times base size, the cached pointer null exactly at capacity, every copy in place across
block boundaries. On top of it the varint, zigzag, fixed-width and text codecs are
written in the loops of the source and proved against encodings of values, which are
then inverted: writing any list of values and reading it back gives the list, with an
exact condition. `Wire` says what the stored bytes are, and what reading makes of bytes
that no encoder wrote. Scatter and gather regions and the transfers over partial sends
and receives are proved equivalent to plain writes and reads.

**Timers** (`TimerSpec`, `TimerCalls`, `Timer`). The ordered set, the mutable deadlines,
the wake-up flag and the clock check. `TimerSpec` gives every public call as a function
on values and proves what whole runs keep; `TimerCalls` says what each call does to
records and deadlines; the classes of `Timer` do the work in place and refine it call by
call.

**Events, hook, scheduler** (`IoSpec`, `IoCalls`, `IoSections`, `IoManager`, `Hook`,
`HookRuns`, `HookWakes`, `HookProgress`, `Fiber`, `SchedSpec`, `WorkerSpec`,
`WorkerTurns`, `PoolRuns`, `Scheduler`). Per-descriptor masks, waiter slots, the
kernel's interest set and the pending counter are proved to agree after every run of
calls, and every waiter to be in exactly one place; `IoCalls` says what each call does
to the table of waiters; `IoSections` takes the calls apart into their locked sections
and says exactly which interleavings keep that. `Hook` is the protocol by which `do_io`
parks a fiber behind an event and a timer and by which `sleep` parks it behind a timer
alone: a state machine on one worker whose steps are the stretches between two yields,
built from the timer and event steps above. `HookRuns` proves its invariant for every
step, `HookWakes` what wakes a fiber, how often, and what it finds, and `HookProgress`
that sleeps end and waits time out. `SchedSpec` is the task queue and the pool of
workers under any interleaving of their locked sections, `WorkerSpec` the loop of one
worker turn by turn, with the timers and events it looks at before it ends and with what
other threads do in between, and `WorkerTurns` what each turn leaves behind; `PoolRuns`
shows the loop to be moves of the pool, and `Scheduler` is the class that refines it on
real fibers, with the assertions of `Fiber` as preconditions.

**URL codec and parameters** (`Url`, `Params`). Percent-encoding (section 2.1 of
RFC 3986) with lazily allocated output, and the `key=value` scanner over it,
inverted on printed lists.

How it is built: where the source changes objects in place, a class does the same
and each method's contract equates the new abstract value with a function of the
old one; the theorems are lemmas about those functions. The task queue, the timer
set and the event table are also given as values, because properties of whole
runs are statements about sequences of calls. Every assertion of the program
appears as a precondition, as the outcome `Aborted`, or as `Aborts`; a null
dereference in the byte buffer appears as the failure `NullBlock`, so that lemmas
can say exactly when it happens.

## Where the code does less than it looks

Each of these is proved, with the exact condition or a concrete input.

- An 8-byte signed integer survives the stream exactly when it fits 32 bits: the
  64-bit zigzag encoder returns `uint32_t` (megalo/bytearray.cc:115). The
  intended 64-bit form is proved to round-trip for every value
  (`Codec.ZigzagRoundTrip`).
- A stream whose last value is an empty text, ending exactly at a multiple of the
  base size, cannot be read back: reading zero bytes at capacity dereferences the
  null block (megalo/bytearray.cc:349-350).
- The positional `read` starts in the block of the cursor, not of its argument
  (megalo/bytearray.cc:377-380), and for a position behind the size its length
  check wraps (megalo/bytearray.cc:373), so that bytes that were never written come
  back; the positional `getReadBuffers` limits its length by
  the cursor (megalo/bytearray.cc:549).
- The clock check subtracts an hour unsigned; it is the intended test unless the
  last look at the clock was in its first hour (megalo/timer.cc:192).
- `addEvent` looks at the size of the table, resizes it without looking again, and
  registers, each under its own lock (megalo/iomanager.cc:92-103); the resizing can
  shrink the table. Two threads can leave the kernel watching a descriptor without
  a context. Exactly the interleavings that drop no context with events, and
  register on none that was dropped, keep masks, kernel and counter in agreement.
- A refresh and the re-insertion of a recurring timer set a deadline without waking
  the poller. If the clock went back, or the deadline wraps, the wakeup can be lost
  (megalo/timer.cc:50-63, megalo/timer.cc:162-170).
- `idle` puts the timeout through an `int` before it limits it
  (megalo/iomanager.cc:284-291): if its low 32 bits are 2^31 or more the wait is
  negative, which has no end, although a timer is set. `sleep(2147484)` alone on a
  manager does not end.
- The event of a resumed fiber can be registered again, by another fiber; the
  fiber itself is never in the slot. A timeout whose `epoll_ctl` call fails marks
  the wait but leaves the fiber parked.
- `sleep` multiplies in 32 bits, `usleep` rounds down, and `nanosleep` passes
  through an `int`: from 2^31 milliseconds on it can end at once
  (megalo/hook.cc:158-195).
- A transfer of nothing takes the address of the first of no regions
  (megalo/socket_stream.cc:27, megalo/socket_stream.cc:45), which the language
  leaves undefined; the model goes on with a transfer of nothing.
- A callback that yields READY keeps its fiber both reusable and queued; the next
  callback fails the assertion of `Fiber::reset` (megalo/scheduler.cc:190-202).
- A callback that schedules its own fiber, or waits for an event with it, and then
  returns, leaves it kept and queued as well: taken from the queue it has no callback
  and throws, and the next callback fails that assertion
  (megalo/scheduler.cc:178-180, megalo/scheduler.cc:203-205).
- `run` can return with a timer set, an event pending or a task queued if another
  thread adds one after the idle fiber has looked (megalo/scheduler.cc:215-218,
  megalo/iomanager.cc:260-265); and between the decrement and the requeue of a
  READY fiber the scheduler looks finished although it is not
  (megalo/scheduler.cc:180-184).
- The table of the URL encoder passes `=` unencoded, unlike the comment above the
  function (megalo/util.cc:149). The code is followed.

## Model

| member | source | states |
|---|---|---|
| `ByteArrays.ByteArray.constructor` | megalo/bytearray.cc:32-40 | an empty big-endian buffer of one fresh block, with the cursor at 0; for a base size of 0 the block is empty, and not null although the cursor is at capacity |
| `ByteArrays.ByteArray.CursorNull` | megalo/bytearray.cc:323-343 | the cached block pointer is null exactly when the cursor is at capacity |
| `ByteArrays.ByteArray.AddCapacity` | megalo/bytearray.cc:463-493 | grows by whole blocks to just what the cursor needs, keeps every byte, and re-attaches a null cursor, however the quotient is rounded |
| `ByteArrays.ByteArray.Write` | megalo/bytearray.cc:313-343 | overwrites exactly the bytes at the cursor, moves it behind them, raises the size to at least that, grows minimally |
| `ByteArrays.ByteArray.Read` | megalo/bytearray.cc:344-371 | returns the bytes at the cursor and moves it, fails beyond the size, and dereferences null exactly for nothing at capacity |
| `ByteArrays.ByteArray.ReadAt` | megalo/bytearray.cc:372-400 | returns the bytes that the walk from the cursor's block reaches, for every position, including the wrapped length check |
| `ByteArrays.ReadAtExact` | megalo/bytearray.cc:372-400 | whatever the bytes, it gives the bytes asked for, or out of range if they are not all there, exactly when: for a position up to the size, the length is too large, or the cursor is not at capacity and the length is 0 or the position in the cursor's block; for one behind the size, the wrapped check refuses the length |
| `ByteArrays.ReadAtUnwritten` | megalo/bytearray.cc:373-375 | cursor 5, size 10, position 20: eight bytes that were never written come back |
| `ByteArrays.ReadAtStartExact` | megalo/bytearray.cc:377-380 | that walk starts at the position asked for exactly when it is in the cursor's block |
| `ByteArrays.ReadAtCursor` | megalo/bytearray.cc:495-504 | at the cursor itself the positional read is the read |
| `ByteArrays.ReadAtWrongBlock` | megalo/bytearray.cc:372-400 | with the cursor in the second block, a position in the first reads the second block's bytes |
| `ByteArrays.ByteArray.SetPosition` | megalo/bytearray.cc:401-418 | moves the cursor to any position up to capacity and finds its block, raising the size; fails beyond |
| `ByteArrays.ByteArray.Clear` | megalo/bytearray.cc:301-312 | back to one block, which keeps its bytes, and to cursor and size 0; every other block is freed, once |
| `ByteArrays.ByteArray.ToString` | megalo/bytearray.cc:495-504 | the unread bytes, without moving the cursor |
| `ByteArrays.ByteArray.GetReadBuffers` | megalo/bytearray.cc:519-547 | regions that cover the next min(len, unread) positions in order |
| `ByteArrays.ByteArray.GetReadBuffersAt` | megalo/bytearray.cc:548-581 | regions from a position, limited by the cursor; runs off the list exactly when that passes capacity |
| `ByteArrays.ByteArray.GetWriteBuffers` | megalo/bytearray.cc:582-608 | grows as a write would, and covers the next len positions without moving the cursor or the size |
| `ByteArrays.StoredTwice` | megalo/bytearray.cc:313-343 | two writes in a row are one write of both chunks |
| `ByteArrays.StoredBytes` | megalo/bytearray.cc:313-343 | the readable bytes after a write: those before the cursor, the chunk, and what was behind it |
| `ByteArrays.CeilBlocks` | megalo/bytearray.cc:472-473 | the ceiling of the quotient is the least number of blocks that is enough |
| `ByteArrays.CeilRounded` | megalo/bytearray.cc:473 | a double-precision quotient of sizes below 2^53 has the ceiling of the true one |
| `Codec.ZigzagRoundTrip` | megalo/bytearray.cc:108-127 | decoding inverts encoding for every signed value of any width, the minimum included |
| `Codec.ZigzagEncodeValue` | megalo/bytearray.cc:108-121 | the wrapping arithmetic computes 2v, or -2v - 1 below zero |
| `Codec.ZigzagDecodeValue` | megalo/bytearray.cc:122-127 | shift and exclusive-or compute the inverse |
| `Codec.Zigzag64Exact` | megalo/bytearray.cc:115-121 | through the narrow return type a 64-bit value survives exactly when it fits 32 bits |
| `Codec.Zigzag64Loses` | megalo/bytearray.cc:115-121 | 2^31 comes back as 0 |
| `Codec.VarintFits` | megalo/bytearray.cc:132-154 | at most 5 bytes for 32 bits and 10 for 64, at least one |
| `Codec.VarintRoundTrip` | megalo/bytearray.cc:231-259 | decoding takes exactly the encoded bytes, whatever follows, and gives the value back |
| `Codec.FixedPortable` | megalo/bytearray.cc:70-105 | the bytes written depend on the buffer's byte order only, not on the host's |
| `Codec.FixedRoundTrip` | megalo/bytearray.cc:198-224 | a reader on any host gets back what a writer on any host wrote |
| `TypedStream.VarintScratch` | megalo/bytearray.cc:132-141 | the loop fills its scratch array within bounds with the varint of the value |
| `TypedStream.WriteFixed` | megalo/bytearray.cc:64-105 | writes the value's bytes in the buffer's order |
| `TypedStream.WriteVarint` | megalo/bytearray.cc:132-154 | writes the varint |
| `TypedStream.WriteZigzag` | megalo/bytearray.cc:129-144 | writes the varint of the zigzag word, the narrow one for 64 bits |
| `TypedStream.WriteText` | megalo/bytearray.cc:165-176 | writes the length truncated to the prefix width, and the text |
| `TypedStream.WriteTextVint` | megalo/bytearray.cc:177-180 | writes the varint of the length, and the text |
| `TypedStream.ReadFixed` | megalo/bytearray.cc:187-224 | takes a word from the flat buffer, or fails as the read does |
| `TypedStream.ReadVarint` | megalo/bytearray.cc:231-259 | takes a varint byte by byte, stopping at the width |
| `TypedStream.ReadText` | megalo/bytearray.cc:272-292 | takes a prefix and that many bytes |
| `TypedStream.ReadTextVint` | megalo/bytearray.cc:293-298 | takes a varint and that many bytes |
| `TypedStream.WriteAll` | tests/test_bytearray.cc:7-15 | writing a list of values of mixed types is one write of their encodings, whatever the base size |
| `TypedStream.ReadAll` | tests/test_bytearray.cc:16-20 | reading a list of types takes the values one after the other |
| `TypedValues.TakeAllBack` | megalo/bytearray.cc:187-299 | from a buffer that has the encodings of a list, the list comes back as it was kept exactly when every text fits its prefix and it does not end in an empty text at capacity |
| `TypedValues.KeptExactly` | megalo/bytearray.cc:115-121 | every value is kept as it was exactly when no 64-bit zigzag was narrowed |
| `TypedValues.RoundTrip` | tests/test_bytearray.cc:12-21 | for every list and base size: the list comes back and nothing is left to read exactly when nothing was narrowed, every text fits its prefix, and it does not end in an empty text on a block boundary |
| `TypedValues.TextExact` | megalo/bytearray.cc:165-176 | a text comes back exactly when its length fits the prefix and it is not empty at capacity |
| `Wire.EncodeFormat` | megalo/bytearray.cc:64-180 | what is stored: a word of its width in the buffer's byte order; seven bits a byte from the lowest, the high bit on all but the last; the same for the 32-bit zigzag word; a length of the prefix's width or a varint of it, and then the text |
| `Wire.VarintUnique` | megalo/bytearray.cc:132-154 | bytes of that form are the encoder's: each number has one |
| `Wire.DecodeAny` | megalo/bytearray.cc:231-259 | whatever the bytes, the loop stops at the first without the high bit or where the word is full, and gives the number their low seven bits spell, cut to the width |
| `Wire.FixedAny` | megalo/bytearray.cc:198-224 | whatever the bytes, a fixed-width read on any host gives the number they spell in the buffer's order |
| `TypedStream.WriteThenRead` | tests/test_bytearray.cc:7-26 | the calls of that test on a real buffer: the list comes back exactly under that condition |
| `Streams.GatherCovers` | megalo/bytearray.cc:519-608 | what regions covering [p, p + len) spell is that slice of the buffer |
| `Streams.CoversDisjoint` | megalo/bytearray.cc:582-608 | two regions never share a byte |
| `Streams.Scatter` | megalo/socket_stream.cc:25-31 | storing bytes through the regions splices them into the buffer, moving nothing else |
| `Streams.SocketStream.Read` | megalo/socket_stream.cc:21-32 | a partial receive gives the buffer that a write of the received bytes gives; on failure nothing changes; the address of the first of no regions is taken exactly for a length of zero |
| `Streams.SocketStream.Write` | megalo/socket_stream.cc:39-50 | a partial send sends exactly the bytes the cursor passes; the address of the first of no regions is taken exactly when there is nothing to send |
| `Streams.SocketStream.ReadFixSize` | megalo/stream.cc:18-28 | asks for all that is missing, again and again, until a read fails or nothing is missing, for every source making any partial progress: the length comes back exactly when no read failed, with exactly the next bytes stored; else what the failing read gave, with those received before it stored and the cursor behind them |
| `Streams.SocketStream.WriteFixSize` | megalo/stream.cc:42-52 | the dual for every sink, with the result of the failing write; it comes to a write of nothing exactly when the buffer is drained before the length is reached |
| `Url.UrlEncode` | megalo/util.cc:150-179 | the lazily allocated output is the character-by-character translation |
| `Url.UrlDecode` | megalo/util.cc:180-209 | the same for the decoder, malformed escapes included |
| `Url.RoundTrip` | megalo/util.cc:150-209 | decoding inverts encoding for every byte string and both settings of the flag |
| `Url.EncodeDecode` | megalo/util.cc:150-209 | with different flags it does exactly when the decoder knows the plus or there is no space |
| `Url.EncodedIsSafe` | megalo/util.cc:104-125 | the output has unreserved characters, plus, percent and hexadecimal digits only |
| `Url.EncodedAs` | megalo/util.cc:104-174 | letters, digits and `-._~=` are left alone, a space becomes a plus if asked for, anything else its two upper-case digits behind a percent sign |
| `Url.EncodeAppend` | megalo/util.cc:150-179 | a text is encoded character by character |
| `Url.EscapeDecodes` | megalo/util.cc:193-200 | an escape in digits of either case is the byte it spells |
| `Url.OthersKept` | megalo/util.cc:184-203 | a plus is a space if asked for; anything else stays, a percent sign without two digits behind it included |
| `Params.FindUnique` | megalo/http/http.cc:202-207 | the scanner stops at the first occurrence, or at the end |
| `Params.ParseParams` | megalo/http/http.cc:198-214 | the loop inserts, first wins, exactly the pairs of the text; its position strictly increases |
| `Params.PairsOfPrint` | megalo/http/http.cc:198-214 | a list with keys free of separators, printed with encoded values, scans back to itself |
| `Params.ScanAny` | megalo/http/http.cc:198-214 | of any text, the first equals sign ends the key, the first separator behind it the value, and the scan goes on behind that |
| `Params.FoldSame` | megalo/http/http.cc:55-57 | two keys are one exactly when, up to the first NUL, they are the same word up to the case of letters |
| `Params.TrimMeans` | megalo/util.cc:211-218 | trimming takes spaces, tabs and line ends off both ends and nothing else |
| `Params.HttpRequest.FormMeans` | megalo/http/http.cc:223-227 | the body is a form exactly when the content type names one somewhere, in either case |
| `Params.InsertAllLookup` | megalo/http/http.cc:55-57 | looking up a key, ignoring case, finds what was there before, else the first pair with it |
| `Params.ScanLookup` | megalo/http/http.cc:194-218 | after scanning a printed list every key has its first value, unencoded |
| `Params.HttpRequest.InitQueryParam` | megalo/http/http.cc:194-218 | adds the query's pairs once |
| `Params.HttpRequest.InitBodyParam` | megalo/http/http.cc:219-230 | adds the body's pairs once, if it is a form |
| `Params.HttpRequest.InitCookies` | megalo/http/http.cc:231-242 | adds the cookie header's pairs once, keys trimmed |
| `Params.HttpRequest.GetParam` | megalo/http/http.cc:80-85 | a parameter set before wins, then the query, then the body, then the default |
| `TimerSpec.FindMember` | megalo/timer.cc:43 | in a sorted set, find finds exactly the elements |
| `TimerSpec.InsertSorted` | megalo/timer.cc:177 | inserting keeps the order, adds one element, and returns its position |
| `TimerSpec.CancelInv` | megalo/timer.cc:39-48 | the unchecked erase always erases the timer itself; cancel succeeds exactly when the callback is there |
| `TimerSpec.StepInv` | megalo/timer.cc:39-186 | every public call keeps: sorted, and in the set exactly while the callback is there |
| `TimerSpec.RunInv` | megalo/timer.cc:39-186 | so does every run, under any clock |
| `TimerSpec.StepOnTimer` | megalo/timer.cc:39-170 | a callback goes only by a cancel of that timer or by its one-shot delivery |
| `TimerSpec.DeadForever` | megalo/timer.cc:39-90 | a cancelled or delivered timer is never delivered again, on any run |
| `TimerSpec.DeadStep` | megalo/timer.cc:39-90 | and refuses cancel, refresh, and every reset that would move it |
| `TimerSpec.CancelledForever` | megalo/timer.cc:39-48 | after a successful cancel no run delivers the callback |
| `TimerSpec.OneShotOnce` | megalo/timer.cc:162-170 | over any run a one-shot callback is delivered at most once |
| `TimerSpec.ExpiredSplits` | megalo/timer.cc:153-157 | whatever address breaks ties, exactly the deadlines up to now are taken, all on rollover |
| `TimerSpec.ListExpired` | megalo/timer.cc:135-171 | the batch is in deadline order; recurring timers go back in at now + period, the others are spent, the rest is untouched |
| `TimerSpec.NothingDueLeft` | megalo/timer.cc:162-170 | no due timer is left exactly when every recurring one that fired got a future deadline |
| `TimerSpec.NoLostWakeup` | megalo/timer.cc:119-186 | in every state of any run on a new manager, the poller is being woken or no deadline is before the one it was told, if no deadline wraps, a refresh reads the clock no earlier than the calls before it, and no expiry sees a rollover; the other calls may read the clock at any time |
| `TimerSpec.AwakeStep` | megalo/timer.cc:50-186 | each call keeps that exactly when it sets no deadline, by a refresh or a re-insertion that wakes nobody, before the one the poller was told |
| `TimerSpec.RunAwake` | megalo/timer.cc:50-186 | every state of a run keeps it exactly when every call of the run does |
| `TimerSpec.LostWakeup` | megalo/timer.cc:50-63 | a run on a new manager that loses the wakeup: 100 ms added at 10000, the poller told, refreshed at 9000 |
| `TimerSpec.RefreshExact` | megalo/timer.cc:50-63 | a refresh loses the wakeup exactly when it moves the deadline before the one the poller was told, and the poller is not being woken |
| `TimerSpec.MeetsWhenClocked` | megalo/timer.cc:50-186 | under those conditions on the clock no refresh or re-insertion does, on any run |
| `TimerSpec.MemberRun` | megalo/timer.cc:39-105 | who is in the set after any run of callers' calls |
| `TimerSpec.EmptyAfter` | megalo/timer.cc:39-105 | from an empty set such a run leaves it empty exactly when every timer added has a callback and is cancelled later |
| `TimerSpec.SleepEndsAtFront` | megalo/timer.cc:119-133 | the timeout the poller is told ends at the front deadline; it is told forever for an empty set alone, but for one value of the clock |
| `TimerSpec.PollWaitExact` | megalo/iomanager.cc:284-291 | the wait made of that timeout is at most a second; it is between 0 and the timeout exactly when the low 32 bits of the timeout are below 2^31 or it is forever, and negative otherwise |
| `TimerSpec.PollEndsInTime` | megalo/iomanager.cc:284-291 | with a timer set, the poller looks again by the front deadline exactly then; otherwise its wait has no end |
| `TimerSpec.WaitsForever` | megalo/iomanager.cc:284-291 | any such timer, alone on a new manager, has the poller wait without end |
| `TimerSpec.RolloverExact` | megalo/timer.cc:189-197 | the check means more than an hour back exactly outside the clock's first hour |
| `TimerCalls.AddMeans` | megalo/timer.cc:99-105 | a new timer with its period from now, modulo 2^64; the poller is woken exactly when it is in front and no wake-up is on its way |
| `TimerCalls.CancelMeans` | megalo/timer.cc:39-48 | succeeds exactly if the callback is there, and takes it and the timer away, nothing else |
| `TimerCalls.RefreshMeans` | megalo/timer.cc:50-63 | succeeds exactly if the callback is there, and sets the deadline of the period from now, nothing else |
| `TimerCalls.ResetMeans` | megalo/timer.cc:65-91 | nothing for the same period not from now; else, exactly if the callback is there, the new period and its deadline, from now or from where the old period began; callback and recurrence stay, and the poller is woken for a new front |
| `TimerCalls.NextMeans` | megalo/timer.cc:119-133 | takes only the wake-up flag away, and tells the time to the front deadline |
| `TimerCalls.ExpireMeans` | megalo/timer.cc:135-171 | hands out exactly what is due, or all when the clock went back by more than an hour (or was in its first hour); recurring timers get the deadline of their period, the others leave |
| `Timers.Timer.Cancel` | megalo/timer.cc:39-48 | performs the step on the shared set |
| `Timers.Timer.Refresh` | megalo/timer.cc:50-63 | performs the step on the shared set |
| `Timers.Timer.Reset` | megalo/timer.cc:65-90 | performs the step on the shared set, and says whether it woke the poller |
| `Timers.TimerManager.AddTimer` | megalo/timer.cc:99-105 | a new timer, inserted as the step says |
| `Timers.TimerManager.InsertAndWake` | megalo/timer.cc:176-186 | inserts and wakes the poller for a new front, once until it looks again |
| `Timers.TimerManager.GetNextTimer` | megalo/timer.cc:119-133 | performs the step |
| `Timers.TimerManager.ListExpiredCallbacks` | megalo/timer.cc:135-171 | the loops over the set and the batch perform the step; the callbacks are those of the fired timers, in order |
| `Timers.CallbackOf` | megalo/timer.cc:162-163 | one callback for each timer that fired, in that order: its own |
| `Timers.TimerManager.DeleteClockRollover` | megalo/timer.cc:189-197 | the unsigned test, and the new time remembered |
| `IoSpec.TriggerContext` | megalo/iomanager.cc:31-41 | triggering hands over the one waiter of the slot, empties it and clears its bit only |
| `IoSpec.CtlLegal` | megalo/iomanager.cc:111-116 | the operation chosen from the mask is always one the kernel accepts |
| `IoSpec.AddEventInv` | megalo/iomanager.cc:90-138 | the whole call, its locked sections one after the other: keeps the agreement; aborts exactly when the event is registered; otherwise succeeds exactly when the kernel allows |
| `IoSpec.DelEventInv` | megalo/iomanager.cc:139-172 | keeps the agreement and drops exactly the waiter named |
| `IoSpec.CancelEventInv` | megalo/iomanager.cc:173-203 | keeps the agreement and hands over exactly the waiter named |
| `IoSpec.CancelAllInv` | megalo/iomanager.cc:204-239 | hands over both waiters, leaves a fresh context, and its last assertion never fails |
| `IoSpec.DeliverInv` | megalo/iomanager.cc:313-348 | aborts exactly when something ready is registered and something ready is not; else hands over what is ready |
| `IoSpec.FaithfulBatch` | megalo/iomanager.cc:305-350 | a batch that reports only registered events fails no assertion, whichever kernel calls fail |
| `IoSpec.RunInv` | megalo/iomanager.cc:90-348 | after every run of whole calls in series: bit set exactly while the slot holds one waiter, kernel mask equal to the events, counter equal to the bits set |
| `IoSpec.Conservation` | megalo/iomanager.cc:122-236 | after every run of whole calls in series added = pending + handed + deleted, and each waiter is in exactly one of the three |
| `IoSpec.CancelEventMoves` | megalo/iomanager.cc:173-203 | of all waiters only the one named leaves its slot |
| `IoSpec.BatchMoves` | megalo/iomanager.cc:313-348 | a batch takes a waiter out of its slot exactly when its event is reported and the kernel call succeeds |
| `IoSpec.BatchBit` | megalo/iomanager.cc:313-348 | and clears its bit exactly then |
| `IoSpec.BitRun` | megalo/iomanager.cc:90-239 | which bits are set after any run of callers' calls |
| `IoSpec.EmptyAfter` | megalo/iomanager.cc:90-239 | with nothing pending, such a run leaves nothing pending exactly when every registration let through is taken off later |
| `IoCalls.AddMeans` | megalo/iomanager.cc:90-138 | succeeds exactly if nobody waits and the kernel lets it; then the callback given, or else the fiber, waits for the event, and nobody else's wait changes; the table grows to half as much again as the descriptor |
| `IoCalls.DelMeans` | megalo/iomanager.cc:139-172 | succeeds exactly if somebody waits and the kernel lets it; that waiter is dropped |
| `IoCalls.CancelMeans` | megalo/iomanager.cc:173-203 | the same, and that waiter is handed to its scheduler |
| `IoCalls.CancelAllMeans` | megalo/iomanager.cc:204-239 | both waiters are handed over, the reader first |
| `IoCalls.DeliverMeans` | megalo/iomanager.cc:313-348 | who is handed over for a report, in which order, when nothing happens, and when the assertion fails |
| `IoCalls.WatchedIs` | megalo/iomanager.cc:111-126 | the kernel watches exactly the events that somebody waits for |
| `IoSections.ResizeExact` | megalo/iomanager.cc:67-75 | resizing, which may shrink, keeps the agreement exactly when it drops no context with events |
| `IoSections.SectionExact` | megalo/iomanager.cc:90-239 | each locked section of a call, at any moment between those of others, keeps the agreement exactly when it drops no such context and registers on none that was dropped |
| `IoSections.Agreement` | megalo/iomanager.cc:90-348 | so over every interleaving of sections from a new manager the agreement and the totals hold, as long as none of that happens |
| `IoSections.GrowingIsSafe` | megalo/iomanager.cc:93-101 | none of it happens if no resizing finds the table larger than it makes it |
| `IoSections.Collision` | megalo/iomanager.cc:93-101 | two threads that find the table too small: the second shrinks it, and the kernel watches a descriptor that has no context and cannot be cancelled |
| `IoSections.SerialAdd` | megalo/iomanager.cc:90-138 | the sections of addEvent with nothing in between are the whole call |
| `IoSections.SerialOther` | megalo/iomanager.cc:139-239 | so are those of the other calls |
| `IoManagers.FdContext.TriggerEvent` | megalo/iomanager.cc:31-41 | the context's new value and the waiter handed over |
| `IoManagers.IoManager.ContextResize` | megalo/iomanager.cc:67-75 | drops what is beyond the size, keeps the rest, and makes what is missing fresh |
| `IoManagers.IoManager.AddEvent` | megalo/iomanager.cc:90-138 | performs the sections one after the other on the table |
| `IoManagers.IoManager.DelEvent` | megalo/iomanager.cc:139-172 | performs the step on the table |
| `IoManagers.IoManager.CancelEvent` | megalo/iomanager.cc:173-203 | performs the step on the table |
| `IoManagers.IoManager.CancelAll` | megalo/iomanager.cc:204-239 | performs the step on the table |
| `IoManagers.IoManager.DeliverBatch` | megalo/iomanager.cc:305-350 | the loop of idle performs any batch, up to the first failed assertion |
| `HookRuns.StepInv` | megalo/hook.cc:104-195 | every step of the protocol keeps its invariant: each suspended fiber stands in exactly one slot, queue entry or timer, each timeout callback can run at most once and only for its own wait, whatever the clock reads; an idle stretch may begin with callbacks queued since the scan |
| `HookRuns.TimeoutLive` | megalo/hook.cc:119-126 | a timeout callback that runs finds its own fiber still parked behind it, its timer having gone off in time by the clock |
| `HookRuns.ParkedInv` | megalo/hook.cc:118-138 | parking puts the fiber in one slot and sets its timer |
| `HookRuns.RefusedInv` | megalo/hook.cc:129-136 | when the event cannot be added, the timer is cancelled and the fiber runs on |
| `HookWakes.RunFull` | megalo/hook.cc:104-149 | in every reachable state a parked fiber that is not queued stands in the slot it asked for |
| `HookWakes.WakesExactly` | megalo/iomanager.cc:173-239 | a fiber in its slot is queued by exactly the steps that take its event: a report, cancelEvent, cancelAll, or a timeout, if the kernel lets them |
| `HookWakes.WaitRun` | megalo/hook.cc:137-142 | until it is resumed a suspended fiber is queued at most once, and waits for the same thing |
| `HookWakes.ResumeOutcome` | megalo/hook.cc:138-146 | on resumption it stands nowhere, cancelling its timer succeeds exactly when it was not timed out, it was timed out only if its timer went off when the clock had passed its deadline or seemed to have been set back, and the call fails exactly then |
| `HookWakes.EveryWait` | megalo/hook.cc:104-149 | for every wait on every run from the start, under any clock: queued exactly once before it is resumed, with that outcome; and the bit of its event is set then exactly when some step registered for the event meanwhile and no later one took it |
| `HookWakes.EverySleep` | megalo/hook.cc:158-195 | for every sleep on every run, under any clock: queued exactly once, and resumed only after its own timer went off when the clock had passed its deadline or seemed to have been set back |
| `HookProtocol.SleepExact` | megalo/hook.cc:158-168 | that deadline is late enough for whole seconds exactly when their milliseconds fit 32 bits |
| `HookProtocol.UsleepExact` | megalo/hook.cc:170-180 | for microseconds exactly when they are whole milliseconds |
| `HookProtocol.NanosleepExact` | megalo/hook.cc:182-194 | for a timespec exactly when it is a whole number of milliseconds that fits an int |
| `HookProtocol.SleepWithoutEnd` | megalo/hook.cc:158-168 | a sleep of 2147484 seconds, alone on a new manager, has the poller wait without end |
| `HookProgress.IdleMeans` | megalo/iomanager.cc:298-303 | an idle stretch queues the callbacks of exactly the timers that are due or, if the clock went back, of all; a recurring one is set again, any other is spent |
| `HookProgress.ReportedQueued` | megalo/iomanager.cc:305-350 | and whoever waits for an event that it is told of, fibers and callbacks alike |
| `HookProgress.Advances` | megalo/scheduler.cc:145-172 | on the one worker a task is at the head after as many takes as there were tasks ahead of it, whatever else happens |
| `HookProgress.SleeperGoesOff` | megalo/hook.cc:158-168 | of the sleepers exactly those whose time has come, or all if the clock went back, have their callback queued |
| `HookProgress.SleepEnds` | megalo/hook.cc:158-168 | a sleep ends: its callback, then its fiber, are the next to run after as many takes as there are tasks ahead of them |
| `HookProgress.SleepRun` | megalo/hook.cc:158-168 | such a run from the start of a manager |
| `HookProgress.WaitGoesOff` | megalo/hook.cc:118-127 | the timeout callback of a wait is queued exactly when its time has come or the clock went back |
| `HookProgress.WaitTimesOut` | megalo/hook.cc:118-146 | a wait times out: its callback runs in its turn, the fiber is in the queue then, runs in its turn, and its call fails |
| `HookProgress.TimeoutQueues` | megalo/hook.cc:119-126 | the callback marks the wait, and the fiber is in the queue after it, if the kernel lets it |
| `HookProgress.ParkMeans` | megalo/hook.cc:118-138 | a wait: the fiber waits for its event, behind a timer with its timeout from now, with its call open |
| `HookProgress.RefusedMeans` | megalo/hook.cc:129-136 | a wait that is refused: the fiber runs on, its call is over and its timer is spent |
| `HookProgress.SleepMeans` | megalo/hook.cc:158-168 | a sleep: a one-shot timer with its period from now, and the fiber behind it |
| `HookProgress.CancelEventMeans` | megalo/iomanager.cc:173-203 | the waiter is last in the queue, if the kernel let it, and nothing else changes |
| `HookProgress.ScheduledStarts` | megalo/scheduler.h:64-72 | a callback that is scheduled starts after as many takes as there were tasks |
| `HookProgress.YieldedRuns` | megalo/fiber.cc:158-163 | a fiber that yields READY runs again after as many |
| `HookProgress.FreeAfter` | megalo/fiber.cc:158-190 | nobody runs once the running fiber has parked, gone to sleep, yielded or finished |
| `HookWakes.BitRun` | megalo/iomanager.cc:122-201 | the bit of an event is set at the end of a run exactly when it was and no step took it, or some step registered for it and no later one took it |
| `HookWakes.BitStaysClear` | megalo/hook.cc:138-142 | once taken, the bit is clear on resumption if nobody registered for the event meanwhile |
| `HookWakes.BitSetAgain` | megalo/hook.cc:129-138 | if another fiber did, it is set |
| `HookWakes.TwoFibers` | megalo/hook.cc:104-149 | a run from the start that reaches such a state |
| `SchedSpec.BoundedOvertaking` | megalo/scheduler.cc:149-172 | a callback at position i is taken within i + 1 takes by the threads that may run it, whatever is pushed and whoever else takes |
| `SchedSpec.TakeKeepsOrder` | megalo/scheduler.cc:151-169 | entries left in the queue keep their order |
| `SchedSpec.ScanMeans` | megalo/scheduler.cc:145-172 | what is taken is for any thread or this one and its fiber is not running; everything passed over is for another or its fiber is running; a tickle exactly when one for another was passed or entries remain behind |
| `SchedSpec.NeverElsewhere` | megalo/scheduler.cc:149-172 | on every run of any workers nobody has in hand an entry pinned to another thread |
| `SchedSpec.MoveQueues` | megalo/scheduler.cc:143-228 | each move of the pool is one push, one take, or nothing to the queue |
| `SchedSpec.PoolRunInv` | megalo/scheduler.cc:166-222 | for any number of workers and any interleaving: the active counter is the number of workers between dequeue and decrement, the idle counter that of idle ones, every entry is queued or was taken once, the entries in workers' hands are exactly those taken and not finished, each in one hand, and the fibers in hand for a requeue exactly those that yielded READY and are not queued again |
| `SchedSpec.LooksDoneMeans` | megalo/scheduler.cc:123-127 | after any run of any workers: an empty queue and a zero counter mean that every entry was taken and finished, and all is done exactly when, besides, no worker is between the decrement and a requeue |
| `SchedSpec.ReadyFiberUnseen` | megalo/scheduler.cc:180-184 | a run that looks done while a fiber that yielded READY is neither queued nor counted |
| `PoolRuns.TurnMatches` | megalo/scheduler.cc:143-228 | every turn of the loop that fails no assertion is a sequence of moves of this worker, and of what is scheduled meanwhile, which take the entry of the turn and queue again the fiber it ran exactly if that is READY afterwards |
| `PoolRuns.RunMatches` | megalo/scheduler.cc:143-228 | so is every run of the loop, with all the entries it took and all the fibers it queued again, and the pool keeps its invariant on the way |
| `Fibers.Fiber.Reset` | megalo/fiber.cc:86-101 | from TERM or INIT only, to INIT with the new callback |
| `Fibers.Fiber.SwapIn` | megalo/fiber.cc:118-125 | from any state but EXEC, to EXEC |
| `Fibers.Fiber.Finish` | megalo/fiber.cc:176-190 | a callback that returned is dropped, one that threw is kept |
| `WorkerSpec.CallbackAborts` | megalo/scheduler.cc:190-205 | a turn that takes a callback fails an assertion exactly when the kept fiber is neither INIT nor TERM, or the callback throws |
| `WorkerSpec.TurnBase` | megalo/scheduler.cc:143-228 | whatever the callbacks do, an assertion fails exactly in that case, and the rest of the loop's invariant is kept otherwise |
| `WorkerSpec.TurnExact` | megalo/scheduler.cc:143-228 | from a head where the kept fiber is null, or INIT with nothing to run, no assertion fails and the next head is like that exactly when a callback of the turn returns or yields HOLD and the turn does not take an entry for the kept fiber |
| `WorkerSpec.RunExact` | megalo/scheduler.cc:143-228 | every head of a run is like that, and no assertion fails, exactly when every turn of it is |
| `WorkerSpec.RunInv` | megalo/scheduler.cc:143-228 | no assertion fails on such a run, and its last state is right |
| `WorkerSpec.SparedIsGood` | megalo/scheduler.cc:174-209 | every turn is, if callbacks return or yield HOLD and nobody schedules the fiber that is kept at the time |
| `WorkerSpec.KeptThenAborts` | megalo/scheduler.cc:178-205 | once an entry for the kept fiber is taken, the next turn that takes a callback fails |
| `WorkerSpec.SelfScheduled` | megalo/scheduler.cc:203-205 | a run in which every callback returns and the third turn fails: the first callback schedules its own fiber |
| `WorkerTurns.FiberTurnMeans` | megalo/scheduler.cc:178-189 | a turn that takes a fiber: its state as its stretch ended, no other changed; the queue is what was left, what its code queued, and the fiber again, for any thread, exactly if it yielded READY |
| `WorkerTurns.OverTurn` | megalo/scheduler.cc:178-189 | an entry for a fiber that is over is dropped and nothing runs |
| `WorkerTurns.CallbackTurnMeans` | megalo/scheduler.cc:190-209 | a turn that takes a callback: which fiber ran it, what is kept for the next, and the fiber queued behind what the code queued exactly if it yielded READY |
| `WorkerTurns.IdleTurnMeans` | megalo/scheduler.cc:210-227 | a turn that takes nothing: ends the loop exactly if the idle fiber is over, and ends the idle fiber exactly if it finds everything done at its looks |
| `WorkerTurns.ReadyNeverLost` | megalo/scheduler.cc:143-228 | on every run that fails no assertion every fiber that yielded READY is in the queue at every head |
| `WorkerSpec.HeadExact` | megalo/scheduler.cc:198-209 | after a callback the kept fiber is null or INIT exactly when it returned or yielded HOLD |
| `WorkerSpec.ReadyThenAborts` | megalo/scheduler.cc:190-202 | after one that yielded READY the next turn that takes a callback fails |
| `WorkerSpec.ReadyAborts` | megalo/scheduler.cc:190-202 | two queued callbacks are enough |
| `WorkerSpec.HeldKept` | megalo/scheduler.cc:190-209 | on every run, whatever is scheduled, a fiber that is not the one kept for callbacks keeps its state and callback until it is itself resumed |
| `WorkerSpec.HeldIsReleased` | megalo/scheduler.cc:206-209 | a callback that yields HOLD keeps the fiber it ran on, which was unused, and the next gets another |
| `WorkerSpec.QuietExit` | megalo/scheduler.cc:210-218 | the loop ends only with a stop requested, no timer set, no event pending and an empty queue, if since the looks of the idle fiber other threads schedule nothing and leave no timer and no event behind |
| `WorkerSpec.ExitExact` | megalo/iomanager.cc:260-280 | the turn after the idle fiber ended ends the loop with all of that exactly when since those looks other threads scheduled nothing, cancelled every timer they added and took off every event they registered |
| `WorkerSpec.IdleEndsExact` | megalo/iomanager.cc:260-280 | when the idle fiber ends, all is done exactly when no timer was left behind after its look at the timers and no event after its look at the count |
| `WorkerSpec.TermExact` | megalo/scheduler.cc:215-218 | the exit from a state in which all is done |
| `WorkerSpec.TimerOnlyExit` | megalo/timer.cc:99-105 | nothing is scheduled by anyone, yet the loop ends with a timer set, because another thread adds one after the idle fiber has ended |
| `WorkerSpec.UnquietExit` | megalo/scheduler.cc:215-218 | a callback that comes after the idle fiber has ended can also leave a timer |
| `Schedulers.Scheduler.Schedule` | megalo/scheduler.h:64-72 | queues a job that is not empty, and asks for a tickle exactly when the queue was empty |
| `Schedulers.Scheduler.ScheduleAll` | megalo/scheduler.h:39-52 | queues a range in order and leaves it empty |
| `Schedulers.EntriesJoin` | megalo/scheduler.h:39-52 | one entry for each callback of the range that is not empty, in its order |
| `Schedulers.Scheduler.TakeTask` | megalo/scheduler.cc:145-172 | takes the first entry this thread may take, which is for any thread or for this one and whose fiber is not running; a tickle as `SchedSpec.ScanMeans` says |
| `Schedulers.Scheduler.TurnFiber` | megalo/scheduler.cc:178-189 | performs the fiber branch on real fibers, the finished one included |
| `Schedulers.Scheduler.TurnCallback` | megalo/scheduler.cc:190-209 | performs the callback branch, with the assertions of reset and swapIn discharged |
| `Schedulers.Scheduler.TurnIdle` | megalo/scheduler.cc:210-227 | performs the idle branch |
| `Schedulers.Scheduler.Stopping` | megalo/iomanager.cc:260-265 | looks at the timers, which clears the tickle flag, at the count and at the queue, other threads acting in between |
| `Schedulers.Scheduler.Run` | megalo/scheduler.cc:132-229 | the loop performs the turns of every run that fails no assertion, keeping its invariant |

## Left out

- System calls: epoll is a map from descriptor to mask that may also refuse a
  call, the clock is a parameter, sockets transfer any prefix they like; EINTR is
  excluded in the hook (its loop never updates the result it tests).
- Locks and threads: a locked section is one step; `IoSpec` and `IoManager` make
  whole calls, `IoSections` their sections. Fiber mutual exclusion among several
  workers is not claimed, nor how soon a worker wakes.
- IoSections: two calls that both found a context dropped since each keep a copy of
  it; such a context is fresh on every run that keeps the agreement. Reports are on
  contexts in the table.
- Hook: values, not objects. A fiber's stack is cut at its yields, which no method
  of a class could show. Users schedule callbacks, not fibers, and pin nothing;
  `delEvent` is not called; other threads schedule callbacks and change timers of
  their own but do not cancel events; the idle stretch is one step, before or after
  which a callback scheduled meanwhile counts; the deadline of a wait does not wrap;
  no wait registers an event that is registered already, which aborts the program;
  the kernel reports registered events only. connect parks by the same steps as
  do_io.
- Scheduler: `stop`, thread start-up and `use_caller` are not modelled. Which
  entries a handed-over waiter or an expired timer becomes is up to the input of the
  turn. Fibers that callbacks create themselves exist from the start; the fiber that
  the loop makes for a callback is given with the turn. What another worker does to a
  fiber that this one has queued is not part of its turns. The loop is cut off after
  the turns given. The clock is past 0, so that a timer set never looks like none
  (`TimerSpec.SleepEndsAtFront`).
- TimerSpec: an address is used by one timer only.
- ByteArrays.ByteArray.constructor: nothing more is said about a buffer of base size 0
  than its fields; the other operations are on positive base sizes, since a write to
  such a buffer divides by zero.
- ByteArrays.ByteArray.AddCapacity: the quotient of sizes from 2^53 on is taken as
  exact.
- Sizes are unbounded except where the source's unsigned wrap-around matters (the
  positional read, deadlines, sleeps, zigzag, length prefixes).
- Memory: freeing of contexts and fibers, and the destructors' assertions.
- Signed fixed-width, float and double writes are words of the same width; file
  input and output and the hexadecimal dump of the buffer; transfers to raw
  pointers.
- Params.ParseParams: the separator is not `=`, as in every use in the source;
  keys are bytes, folded in ASCII.
- The HTTP parsers, message dump, servers, addresses, configuration, logging, and
  the fcntl, ioctl and setsockopt hooks: generated or forwarding code.
