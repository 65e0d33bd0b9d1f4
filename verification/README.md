# A model of a Redis server

The repository is a Redis server written in Rust: a wire protocol (RESP2, the Redis serialization
protocol), a store of strings, lists, streams and sorted sets with blocking reads, transactions with
`WATCH`, an append-only log, snapshot (RDB) loading, replication with `WAIT`, publish/subscribe, glob
patterns and geohash scores. This project models the parts of it where bytes are taken apart and put
together, and the parts where several clients act on shared state, and proves what they are relied on for.

Code that changes things step by step is modelled by classes and methods with loops
(`Resp.Parser`, `Rdb.Reader`, `StoreObject.Store`, `Transactions.Transaction`, `PubSub.Channels`,
`Conversations.Conversation`, `Replication.Replicas`, `Framing.Aof`), each proved against a function of
the old state. The properties are then proved of those functions: over every input, or over every run of
a state machine whose steps are the operations. Concurrency is the order of the steps. Clock readings,
socket reads and the reading of floating-point numbers are parameters.

| module | what it holds |
|---|---|
| Base, Decimal, Utf8, Search | bytes, decimal numbers, UTF-8, filters and partition points |
| Resp, Framing | values on the wire, commands off a stream of reads, the append-only file |
| Glob | patterns and the matching loop |
| Lzf, Rdb, RdbFile | LZF decoding, the snapshot reader, and a writer of every form the reader accepts |
| Morton | woven scores, as words, as numbers and as places |
| StoreState, Lists, SortedSets, Streams | the store's entries and what is done to one of them |
| StoreSteps, Versions, Blocking, Wakeups | the store's steps, and what holds over every run of them |
| StoreObject | the store as an object updated in place, refining the steps |
| Commands, Tables, Replay, Loading | commands as sent and as written down; snapshot and log rebuild the table |
| Spoken | what each writing command does, from the words the client sends to the values stored and answered |
| Transactions | one connection's transaction among everyone else's steps |
| PubSub | who listens on what |
| Conversations, Replication, Replicated | a replica and its master, byte by byte; `WAIT`; server, log and replicas in one run |

Where the code does not do what one might expect, the model follows the code:

- A bulk string's last two bytes are skipped without being looked at.
- `XRANGE` with its bounds the wrong way round cannot take its slice when an entry lies strictly
  between them. `Streams.RangeIsFilter` says exactly when, and `Streams.BackwardsRangeExample` gives one.
- A key watched while absent can be made and unmade unseen, as its documentation says. That is so of
  every absent key in every state (`Versions.AbsentKeyCanFlicker`), so a watch protects a key exactly
  when the key is present (`Versions.WatchProtectsThePresent`).
- A replica is told where to start before it is put on the list to be sent to. A command written in
  between is one it never hears of, although the comment at src/connection.rs:81-83 says none can slip
  through. `Replication.MissesWhatFellBetween` says it hears everything written since its agreement
  exactly when no command was written between the two steps. Its count is another matter: that agrees
  with the master's exactly when nothing was *passed on* in between (`Replication.BytesAreConserved`).
  A replica whose count is out reports too little for good, so a `WAIT` can stay parked although every
  replica it wants has answered it: `Replication.QuietWaitWantsMore` says exactly whom it counts, and
  `Replication.WaitCanStayParked` is a run in which it does.
  `Replication.FirstHandoverCanMiss` is a run in which the counts agree and a command is lost;
  `Replication.HandoverCanMiss` is one in which the count is out as well.

## Model

| member | source | states |
|---|---|---|
| Decimal.UnsignedReadBack | src/resp.rs:105-158 | every number below the type's end is read back from its decimal spelling |
| Decimal.SignedReadBack | src/resp.rs:105-121 | every 64-bit signed number is read back from its decimal spelling, the least one included |
| Decimal.NumbersHaveOneSpelling | src/store/strings.rs:71-76 | a stored value counts as the number n exactly when it is the one canonical spelling of n, so no leading zeros, plus signs or minus zero |
| Decimal.ReadWhen | src/resp.rs:105-158 | an unsigned number is read from exactly its spellings in digits below the type's end, one plus sign and leading zeros allowed, and from nothing else |
| Decimal.SignedReadWhen | src/resp.rs:105-121 | the same for 64-bit signed numbers, with one sign of either kind |
| Utf8.TextIsCharacters | src/resp.rs:163-166 | bytes are text exactly when they are some Unicode scalar values laid out one after another, by the standard's own arithmetic |
| Base.BytesLessIs | src/store/sorted_sets.rs:74-80 | one name comes before another exactly when it is less at the first byte where they differ or is a proper front of it |
| Resp.EncodeInto | src/resp.rs:48-77 | the appending writer leaves what was in the buffer and puts the value's layout after it, for all nine kinds of value |
| Resp.EncodeEachInto | src/resp.rs:48-77 | the writer's loop lays out each value after the last |
| Resp.LineEnd | src/resp.rs:95-100 | the first CRLF and no later one, or none anywhere |
| Resp.Parser.Line | src/resp.rs:95-100 | the cursor moves past the first CRLF, and not at all when there is none |
| Resp.Parser.ReadValue | src/resp.rs:105-121 | the cursor-moving reader finds the same value, length or error as the reader of values from their bytes alone |
| Resp.Parser.ReadBulk | src/resp.rs:123-140 | the same for bulk strings, with the 512 MiB limit and the wait for the whole of one |
| Resp.Parser.ReadArray | src/resp.rs:142-158 | the same for arrays, with the depth limit |
| Resp.Parser.ReadMany | src/resp.rs:142-158 | the loop over an array's elements, stopping at the first that is missing or malformed |
| Resp.ParseFront | src/resp.rs:83-86 | parsing starts at the front of the input and answers with the length consumed |
| Resp.RoundTrip | src/resp.rs:48-158 | whatever follows a value's bytes, parsing returns that value and exactly its length |
| Resp.RoundTripMany | src/resp.rs:48-158 | the same for any number of values one after another |
| Resp.ParseStable | src/resp.rs:83-158 | a value or an error found in some input is found in every longer input |
| Resp.ParseManyStable | src/resp.rs:142-158 | the same for the elements of an array |
| Resp.PrefixAsksForMore | src/resp.rs:83-158 | every proper prefix of a value's bytes asks for more, and is never an error |
| Resp.ParsedIsReadable | src/resp.rs:83-158 | whatever is parsed is a value the writer could have written and the round trip covers |
| Resp.OnTheWire | src/resp.rs:48-77 | every kind of value character by character, the two nulls and the bare file included |
| Resp.RefusedLines | src/resp.rs:105-158 | a line of an unknown kind, text that is not text, numbers that are not numbers, a bulk string past 512 MiB and an array eight deep are each refused at once and for that reason |
| Resp.BlankLineRefused | src/resp.rs:105-121 | a blank line is refused at any depth |
| Resp.ArrayStops | src/resp.rs:142-158 | after any whole elements, an array is waited for or refused exactly as its first element not to be there in full is |
| Framing.FramesContinue | src/connection.rs:50-89 | reading on after more bytes arrive gives the commands already taken off followed by the new ones; a stream given up stays given up |
| Framing.FramesLeaveNothing | src/connection.rs:50-89 | no whole command is ever left waiting in the buffer |
| Framing.AnsweredContinues | src/connection.rs:50-89 | answering on after more bytes arrive is answering the longer stream; a refused stream stays refused, and a handover hands on the extra bytes |
| Framing.AnsweredIsFrames | src/connection.rs:50-89 | the commands answered are the stream's own, all of them unless a handover comes; then up to that one, no earlier one having been, with every later command still in the bytes handed on |
| Framing.Serve | src/connection.rs:50-89 | the commands a connection answers, and how it ends, depend on the bytes sent and not on how they were cut into reads; after a handover, the buffer it passes on and the reads not yet made are exactly the rest of the stream |
| Framing.Drain | src/connection.rs:50-89 | the inner loop answers every whole command in the buffer, as far as a handover |
| Framing.FramesOfEncoded | src/connection.rs:50-89 | commands written one after another are read as themselves, whatever comes after |
| Framing.TornStream | src/aof.rs:59-84 | a stream cut at any byte gives exactly the commands whose bytes are all there, and waits for the rest |
| Framing.Aof.Record | src/aof.rs:90-112 | the file grows by the command's bytes and is otherwise untouched |
| Framing.Aof.Recorded | src/aof.rs:59-84 | the loop over the file returns every whole command, or the error that stops it |
| Framing.TornLog | src/aof.rs:59-84 | cutting a clean log anywhere never makes it unreadable: the commands wholly there come back, in order |
| Framing.WholeLog | src/aof.rs:59-84 | an uncut log comes back as the commands recorded |
| Framing.HeardIs | src/connection.rs:50-89 | what is heard is the reads end to end, and nothing after the read that finds the stream closed |
| Glob.Matches | src/glob.rs:66-100 | the loop that remembers only the last run answers true exactly when the pattern's recursive meaning holds, where a run is any stretch of bytes, in at most (key length + 1) times (items + 1) rounds |
| Glob.AnotherRun | src/glob.rs:66-100 | on meeting a run, every earlier run can be forgotten without changing the answer |
| Glob.FallBack | src/glob.rs:66-100 | when an item fails, letting the last run take one byte more loses no match |
| Glob.StepAlong | src/glob.rs:66-100 | taking a byte with an item keeps what is left to decide |
| Glob.KeySpent | src/glob.rs:66-100 | once the key runs out, it matches exactly when only runs are left |
| Glob.ReadRange | src/glob.rs:121-155 | one member of a set, with the stretch and the escaped forms |
| Glob.ReadSet | src/glob.rs:121-155 | the bracket reader finds the set and its end, unclosed sets included |
| Glob.ReadItem | src/glob.rs:27-58 | the item at a place in the pattern, and progress past it |
| Glob.ReadPattern | src/glob.rs:27-58 | the items read mean the same, for every key, as the pattern item by item, though runs in a row have been made one |
| Glob.RunsInARow | src/glob.rs:27-58 | leaving out a run after a run never changes what a pattern means, wherever it is |
| Glob.ItemReadBack | src/glob.rs:27-58 | every token written out, a span with either end escaped or an unclosed bracket included, is read back as one item and its length, whatever follows |
| Glob.SpelledReadBack | src/glob.rs:27-58 | every pattern written from tokens is read back as one item for each of them |
| Glob.RangesReadBack | src/glob.rs:121-155 | the pieces inside a bracket are read back in order, up to its end or the pattern's |
| Glob.CharactersAre | src/glob.rs:27-58 | which characters are special |
| Glob.SetReadBack | src/glob.rs:121-155 | a bracket of any pieces, negated or not, closed or running to the pattern's end, is read back with its length |
| Glob.ItemMatchesToken | src/glob.rs:104-116 | an item takes a byte exactly when the token it was written as stands for that byte, a span either way round |
| Glob.PatternStandsForItsTokens | src/glob.rs:27-58 | a pattern written from tokens matches exactly the keys the tokens stand for |
| Glob.EveryPatternIsTokens | src/glob.rs:27-58 | every byte string is some legible tokens written one after another, so the meaning above covers every pattern there is |
| Glob.PlainMeansItself | src/glob.rs:27-58 | a pattern with no special byte in it matches itself and nothing else |
| Glob.PlainSetMeansOneOfThem | src/glob.rs:121-155 | plain bytes in brackets match one of themselves, or with a caret one of none of them, closed or not |
| Glob.SpanMeansOneBetween | src/glob.rs:121-155 | two bytes and a dash match one byte between the two, whichever is written first |
| Lzf.Unsqueeze | src/rdb.rs:285-347 | the growing-buffer decoder agrees with the instruction-by-instruction meaning, refuses a wrong length, panics exactly on a stated length above `isize::MAX`, and never yields more than 88 times its input |
| Lzf.ReadInstruction | src/rdb.rs:285-347 | one literal run or back-reference with its end, or the error, never reading past the input |
| Lzf.Repeated | src/rdb.rs:285-347 | the byte-by-byte copy loop, overlapping or not |
| Lzf.FirstOfPacked | src/rdb.rs:285-347 | each instruction's bytes are read as that instruction |
| Lzf.FirstIsPacked | src/rdb.rs:285-347 | and only those bytes are: what is read is what the instruction would be written as |
| Lzf.UnpackedPacked | src/rdb.rs:285-347 | decoding the encoding of any valid program gives the program's expansion |
| Lzf.UnpackedIsPacked | src/rdb.rs:285-347 | whatever decodes is the encoding of a program, and decodes to its expansion |
| Lzf.CopiedIsPeriodic | src/rdb.rs:285-347 | an overlapping copy is the periodic extension of the last `distance` bytes |
| Rdb.Reader.Take | src/rdb.rs:259-276 | the cursor moves by what was asked for, or not past the end |
| Rdb.Reader.FixedBig | src/rdb.rs:248-255 | fixed-width big-endian numbers at the cursor |
| Rdb.Reader.FixedLittle | src/rdb.rs:248-255 | fixed-width little-endian numbers at the cursor |
| Rdb.Reader.NextLength | src/rdb.rs:182-203 | the 6, 14, 32 and 64-bit lengths and the packed markers, or the error |
| Rdb.Reader.Count | src/rdb.rs:207-212 | a length that has to be a plain count |
| Rdb.Reader.Squeezed | src/rdb.rs:233-240 | a compressed string with both its lengths |
| Rdb.Reader.Text | src/rdb.rs:215-228 | a string in any of its forms |
| Rdb.Reader.Section | src/rdb.rs:114-163 | one section of a snapshot: what it adds, and the database and deadline carried on |
| Rdb.Reader.Dataset | src/rdb.rs:114-163 | the section loop returns what the recursive reader does, with the cursor inside the file |
| RdbFile.LengthReadBack | src/rdb.rs:182-203 | every length in every form wide enough for it is read back |
| RdbFile.SqueezedReadBack | src/rdb.rs:233-240 | a compressed string reads back as its program's expansion |
| RdbFile.NumberReadBack | src/rdb.rs:215-228 | a number stored in 8, 16 or 32 bits reads back as its decimal spelling, negative ones included |
| RdbFile.TextReadBack | src/rdb.rs:215-228 | a string written raw, as a number or compressed reads back as itself |
| RdbFile.SectionReadBack | src/rdb.rs:114-163 | each kind of section does to the database and the deadline what it should |
| RdbFile.SectionsReadBack | src/rdb.rs:114-163 | any sequence of sections does, with no deadline inherited |
| RdbFile.FileReadBack | src/rdb.rs:114-163 | a whole snapshot, with every length and string in any admissible form, reads back as exactly its database-0 records in order, each with its own deadline |
| RdbFile.SectionsThen | src/rdb.rs:114-163 | whatever follows any sections is read in the database they leave the file in, with no deadline left over, after their records |
| RdbFile.SectionsCut | src/rdb.rs:114-163 | the front of any bytes reads as the whole of them does, or is found to stop too soon |
| RdbFile.CutShort | src/rdb.rs:114-163 | a snapshot that stops anywhere before its end marker is over is refused for stopping |
| RdbFile.UnknownKindRefused | src/rdb.rs:114-163 | a section of a kind that is not one of the seven is refused wherever it comes |
| RdbFile.NotADatasetRefused | src/rdb.rs:168-176 | what does not begin with the word REDIS is refused, whatever comes after |
| RdbFile.RefusedLengths | src/rdb.rs:182-228 | the lead bytes that begin no length, no count and no string |
| Morton.SpreadByHalves | src/commands/geo.rs:351-365 | the masking loop spreads a word's bits |
| Morton.GatherByHalves | src/commands/geo.rs:259-273 | the masking loop gathers every other bit |
| Morton.GatherUndoesWoven | src/commands/geo.rs:235-273 | both 32-bit numbers come back from their weave |
| Morton.WovenIsWeave | src/commands/geo.rs:330-365 | on numbers, spreading twice and joining is interleaving bit by bit |
| Morton.GatherIsEvenBits | src/commands/geo.rs:259-273 | on numbers, gathering keeps the even bits |
| Morton.WeaveBits | src/commands/geo.rs:351-365 | bit i of one number is bit 2i of the weave, bit i of the other is bit 2i+1 |
| Morton.EvenBitsUndoWeave | src/commands/geo.rs:235-273 | unweaving undoes weaving, for numbers of any size |
| Morton.WeaveUndoesEvenBits | src/commands/geo.rs:235-273 | weaving undoes unweaving: every score is the score of one square |
| Morton.WeaveIsMonotone | src/commands/geo.rs:330-335 | going north, east or both strictly raises the score |
| Morton.WeaveOfCoarser | src/commands/geo.rs:330-335 | dropping low bits of a score is dropping half as many of each number |
| Morton.SameBlockSameHighBits | src/commands/geo.rs:330-335 | two squares lie in the same aligned block exactly when their scores agree above its bits |
| Morton.BlockIsInterval | src/commands/geo.rs:330-335 | the scores of the squares of an aligned 2^k by 2^k block are all of one interval of 4^k numbers, and no score outside it is one of theirs |
| Morton.CoarserIsInterval | src/commands/geo.rs:330-335 | the numbers that agree above their low k bits are one contiguous interval |
| Morton.WeaveIsBelow | src/commands/geo.rs:330-335 | two numbers below 2^k weave to one below 4^k, so a score fits 52 bits |
| Morton.MiddleIsNear | src/commands/geo.rs:247-255 | over exact reals, the middle of a coordinate's square is within half a square of it |
| Morton.DecodedIsNear | src/commands/geo.rs:235-244 | over exact reals, decoding a place's score lands within half a square of it each way |
| Morton.WordIsNumber | src/commands/geo.rs:339-343 | every number of the grid is the number of a 32-bit word |
| Morton.ScoreIsWord | src/commands/geo.rs:330-335 | the word woven from a place's two squares holds its score |
| Morton.DecodedWordIsNear | src/commands/geo.rs:235-273 | through the machine words, spread, woven and gathered again, decoding lands within half a square each way |
| Search.PartitionPoint | src/store/streams.rs:148-165 | halving finds how many elements come before the first that fails the test |
| Lists.ServedInOrder | src/store/lists.rs:151-172 | the i-th waiter still there gets the i-th element, up to whichever runs out; the list left is the rest in order; waiters stay only when elements run out |
| Lists.ServedFromQueue | src/store/lists.rs:151-172 | waiters are taken from the front of the queue only, and nothing is sent to one who has gone |
| Lists.ServedConserves | src/store/lists.rs:151-172 | what is sent followed by what is left is the list |
| Lists.ReversedAt | src/store/lists.rs:23-58 | pushing on the left puts the last element first |
| SortedSets.Vector.Position | src/store/sorted_sets.rs:56-58 | the scan finds the place of a name |
| SortedSets.Vector.Take | src/store/sorted_sets.rs:42-50 | removing in place, and whether the name was known |
| SortedSets.Vector.Add | src/store/sorted_sets.rs:26-37 | adding in place keeps the order, and counts exactly the names not known before |
| SortedSets.WithoutIs | src/store/sorted_sets.rs:42-50 | removal keeps the order and takes exactly that name out of the name-to-score map |
| SortedSets.AddedIs | src/store/sorted_sets.rs:26-37 | adding keeps the vector strictly ordered by score and name, and is one update of the map |
| SortedSets.AddedAllIs | src/store/sorted_sets.rs:85-109 | so does adding any number, the last score given winning |
| SortedSets.WithoutAllIs | src/store/sorted_sets.rs:135-167 | and removing any number |
| SortedSets.ScoresSize | src/store/sorted_sets.rs:85-167 | the vector has as many members as the map has names |
| SortedSets.MapDeterminesVector | src/store/sorted_sets.rs:26-80 | two ordered vectors with the same scores are the same vector, whatever their histories |
| SortedSets.RankCounts | src/store/sorted_sets.rs:116-128 | a member's rank is the number of members that precede it |
| SortedSets.ScoresNeverFall | src/store/sorted_sets.rs:74-80 | along an ordered set the scores never fall, and where they are equal the names rise |
| StoreObject.AddAll | src/store/sorted_sets.rs:85-109 | the loop's count is the growth of the map |
| StoreObject.RemoveAll | src/store/sorted_sets.rs:135-167 | the loop's count is how many members went |
| Streams.NextIdIsAbove | src/store/streams.rs:276-301 | an id given out is above 0-0 and above the last one, whatever the clock says |
| Streams.AppendKeepsIncreasing | src/store/streams.rs:106-144 | appending keeps ids strictly increasing |
| Streams.RefusedWhen | src/store/streams.rs:276-301 | exactly when each kind of id is refused; a bare `*` only on overflow of the sequence |
| Streams.RangeByHalving | src/store/streams.rs:148-165 | two binary searches find the ends of the range |
| Streams.RangeIsFilter | src/store/streams.rs:148-165 | the range is the plain filter, and cannot be taken exactly when an entry lies strictly between the end and the start |
| Streams.BackwardsRangeExample | src/store/streams.rs:148-165 | a range that cannot be taken |
| Streams.ReadAfterByHalving | src/store/streams.rs:236-254 | a binary search finds where to read on from |
| Streams.ReadAfterIsFilter | src/store/streams.rs:236-254 | reading on from an id is the filter of the entries above it |
| Streams.SeenExactlyOnce | src/store/streams.rs:236-254 | over any mix of appends and reads, reading on from the last id seen yields every entry once, in order |
| Streams.NextIdIsLeast | src/store/streams.rs:276-301 | the id asked for is given when it may be, and one left open is the least that may be given at its milliseconds, the clock's or the last entry's if later; it is refused only where there is none |
| StoreSteps.StepKeepsInv | src/store/mod.rs:37-49 | every step keeps lists, streams, sets and queues non-empty and ordered, lists without waiters, deadlines to strings, versions within the counter |
| StoreSteps.BLPopNeverPanics | src/store/lists.rs:91-119 | so the pop that is expected to succeed does |
| StoreSteps.ReadStreamsOnlyDrops | src/store/streams.rs:236-254 | reading streams changes nothing but expired entries |
| Versions.ReachableIsSound | src/store/mod.rs:37-49 | every state of every run from an empty store is such a state |
| Versions.StepMarks | src/store/mod.rs:150-153 | each store operation marks what it changes with a fresh version, and marks nothing when it says it changed nothing |
| Versions.StepStamps | src/store/mod.rs:150-153 | an entry that is not exactly as it was carries a version never given out before |
| Versions.QuietStepsChangeNothing | src/store/mod.rs:105-136 | reads, refusals and pops or removals that take nothing leave every entry, version included |
| Versions.SpentThroughout | src/store/mod.rs:150-153 | a version once gone from a key never comes back to it |
| Versions.UnchangedMeansUntouched | src/store/mod.rs:126-136 | a key with the version it had at the start of a run held the same entry in every state of the run, through any interleaving, deletion and re-creation included |
| Versions.AcceptedWatch | src/store/mod.rs:126-136 | when every watched version is accepted, each key having been watched at a moment of its own, every key present then has held the same entry in every state since, and every key absent then is absent |
| Versions.AbsentKeyCanFlicker | src/store/mod.rs:120-125 | in every state, every absent key has a run, of a push and a pop, that brings it into being, past any clients waiting on it, and is accepted |
| Versions.WatchProtectsThePresent | src/store/mod.rs:120-136 | a watch on a key lets through no run that touches it if and only if the key is present when watched |
| Versions.LookedAtOnlyDrops | src/store/mod.rs:105-118 | looking keys up drops expired entries only, and every one of those among the keys |
| Versions.CheckedLooksUp | src/store/mod.rs:126-136 | a check is a lookup of some first part of its list, in whatever order it is gone through |
| Blocking.ServedOnce | src/store/lists.rs:151-172 | a push serves no waiter twice, and one served is no longer queued |
| Blocking.StepKeepsLined | src/store/lists.rs:91-172 | every step keeps queues free of repeats, shared waiters and those already served |
| Blocking.ReachableIsLined | src/store/lists.rs:91-172 | so in every run each blocked client is sent at most one element |
| Wakeups.OnlyXAddGrowsStreams | src/store/streams.rs:106-144 | no step but a stored XADD to that key changes a stream that stays |
| Wakeups.OnlyXAddWakes | src/store/streams.rs:227-233 | a stored XADD gives everyone watching its key a permit and forgets them; nothing else touches watchers or permits |
| Wakeups.PrunedKeepsHeld | src/store/streams.rs:200-222 | clearing out abandoned wakers never drops one still held |
| Wakeups.RegisteredKeepsHeld | src/store/streams.rs:200-222 | registering puts the waker under every key named and loses no live one |
| Wakeups.FoundNothing | src/store/streams.rs:200-222 | a read that found nothing means no stream named holds anything above its id |
| Wakeups.ActionKeepsAttended | src/commands/streams.rs:158-184 | every action of every client keeps that so for those parked |
| Wakeups.NoLostWakeUp | src/commands/streams.rs:158-184 | in every run, a client parked without a permit is registered under every key it reads, and none of them holds an entry it has not seen |
| Wakeups.XReadGivesNew | src/store/streams.rs:200-256 | from every reachable state the answer is, in the order asked and for just the keys with anything new, everything above the id asked after; a key of another kind refuses it all, and nothing new at all means waiting |
| StoreObject.Store.constructor | src/store/mod.rs:37-49 | the empty store |
| StoreObject.Store.NextVersion | src/store/mod.rs:150-153 | a version one above any before |
| StoreObject.Store.DropIfExpired | src/store/mod.rs:205-209 | only that entry goes, and only once expired |
| StoreObject.Store.SetKey | src/store/strings.rs:6-14 | in place, the whole store becomes what the step makes it, invariant kept |
| StoreObject.Store.IncrementKey | src/store/strings.rs:33-56 | the same, with overflow and values that are not numbers refused |
| StoreObject.Store.PushOnto | src/store/lists.rs:23-58 | the same for a push, waiters served |
| StoreObject.Store.WakeWaiters | src/store/lists.rs:151-172 | the loop that pops, sends and puts back what cannot be sent leaves the list, queue and deliveries of the in-order serving |
| StoreObject.Store.PopFirst | src/store/lists.rs:193-208 | one element off the front, the key gone with the last |
| StoreObject.Store.PushFirst | src/store/lists.rs:210-219 | puts an element back, the key made again if it had gone |
| StoreObject.Store.PopFrom | src/store/lists.rs:62-87 | the same as the step for LPOP with a count |
| StoreObject.Store.PopOrWait | src/store/lists.rs:91-119 | the same for BLPOP, either way it goes |
| StoreObject.Store.AddMembers | src/store/sorted_sets.rs:85-109 | the same for ZADD |
| StoreObject.Store.RemoveMembers | src/store/sorted_sets.rs:135-167 | the same for ZREM, the key gone with the last member and the version left alone when none went |
| StoreObject.Store.AppendEntry | src/store/streams.rs:106-144 | the same for XADD, watchers woken |
| StoreObject.Store.WakeWatchers | src/store/streams.rs:227-233 | everyone watching the key gets a permit |
| StoreObject.Store.ReadNow | src/store/streams.rs:236-254 | the same for reading several streams |
| StoreObject.Store.ReadOrWatch | src/store/streams.rs:200-222 | the same for a read that leaves a waker when it finds nothing |
| StoreObject.Store.Register | src/store/streams.rs:200-222 | the registering loop, with its pruning |
| StoreObject.Store.CurrentVersions | src/store/mod.rs:105-118 | the versions of the keys named, the expired counting as absent; the store is left as looking each up in turn leaves it |
| StoreObject.Store.AllUnchanged | src/store/mod.rs:126-136 | accepts exactly when every version is the one watched; only the keys up to the first mismatch are looked up |
| StoreObject.PushedOnFront | src/store/lists.rs:23-58 | pushing one at a time on the left reverses |
| Commands.SentAgain | src/commands/mod.rs:261-289 | a parsed command written out as it was sent is the very value that came in |
| Tables.StepDid | src/commands/mod.rs:174-236 | a write changes the key-to-value table as a table of plain values would, whatever the versions, queues and clock |
| Tables.PushDid | src/store/lists.rs:23-58 | a push that serves waiters leaves the table a plain push and that many pops would |
| Tables.PushServesItsQueue | src/store/lists.rs:151-172 | a push only serves clients waiting on its key who are still there, and queues nobody |
| Tables.BlockingPopIsPop | src/store/lists.rs:91-119 | a blocking pop answered at once is a pop |
| Tables.ClockMakesNoDifference | src/store/streams.rs:276-301 | with an id other than a bare `*`, XADD does the same at any time |
| Replay.PlayBack | src/main.rs:33-61 | the loop carries the commands out one after another |
| Replay.RecordKeepsInStep | src/commands/mod.rs:143-168 | writing a command down and passing it on keeps the file whole, its meaning one effect on, and the file equal to what was found and what was passed on |
| Replay.SentKeepsFaithful | src/commands/mod.rs:135-171 | every command keeps the log's meaning equal to the table, blocked pops served by a push written down as pops after it |
| Replay.RunsStayFaithful | src/commands/mod.rs:135-171 | so a serial run from any server whose file means its table ends in one |
| Replay.RunsAreFaithful | src/commands/mod.rs:135-171 | in particular one from any snapshot without deadlines and an empty file |
| Replay.ReplayFollowsLog | src/main.rs:33-61 | playing a log back over a snapshot, whenever each command happens, gives the table the log makes of the snapshot's, and writes nothing down |
| Replay.PlayingBackRebuildsTheTable | src/main.rs:33-90 | from the same snapshot and the bytes written by any serial run of clock-free writes, reading and playing back rebuilds the very table |
| Replay.HappenedPassesOn | src/commands/mod.rs:143-168 | no command changes where the server started from, or anything passed on before it |
| Replay.RestartIsFaithful | src/main.rs:64-90 | a server that loads its snapshot, plays its file back and takes it up again has the table it had and a file that means it |
| Replay.RestartsStayFaithful | src/main.rs:64-90 | so through any number of runs with a restart after each |
| Replay.ReplayingTornLog | src/main.rs:33-61 | a log cut at any byte plays back to the table its whole commands mean |
| Spoken.NamesInAnyCase | src/commands/mod.rs:272-291 | a word names a command exactly when it is that word letter by letter in either case |
| Spoken.SetStores | src/commands/strings.rs:16-19 | SET leaves the key with the value and no deadline whatever it held, every other key as it was, and answers OK |
| Spoken.SetExpires | src/commands/strings.rs:54-71 | with EX the deadline is that many seconds off, with PX that many milliseconds |
| Spoken.SetRefuses | src/commands/strings.rs:54-71 | too few words, one option word, a third one, an unknown unit or an amount that is no number: refused, with nothing changed |
| Spoken.IncrCounts | src/commands/strings.rs:27-35 | an absent key becomes 1, a canonical number below the greatest one more under its own deadline, and anything else is refused and left alone |
| Spoken.RPushAppends | src/commands/lists.rs:47-54 | the elements go after the list in the order given, the first ones to whoever waits, and the reply counts them all |
| Spoken.LPushPrepends | src/commands/lists.rs:47-54 | they go before it with the last given first |
| Spoken.PushRefuses | src/commands/lists.rs:13-25 | pushing nothing, or to what is no list, is refused and changes nothing |
| Spoken.LPopTakesOne | src/commands/lists.rs:56-79 | LPOP answers the first element and leaves the rest, or answers null; an emptied key is gone |
| Spoken.LPopTakesSome | src/commands/lists.rs:56-79 | with a count it answers that many from the front in order, or all there are |
| Spoken.PopRefuses | src/commands/lists.rs:56-79 | a count below nought or unreadable, words too many or few, or what is no list: nothing is taken |
| Spoken.BLPopTakesOne | src/commands/lists.rs:83-102 | where there is an element it is taken at once and answered with its key |
| Spoken.BLPopWaits | src/commands/lists.rs:83-102 | where there is none the client joins the end of that key's queue over a channel of its own, unanswered |
| Spoken.BLPopRefusesTimeout | src/commands/lists.rs:106-121 | a timeout that is no number, is below nought or is beyond counting is refused |
| Spoken.ZAddScores | src/commands/sorted_sets.rs:71-82 | each name has the score last given it, the rest keep theirs, the set stays in order, and the reply counts the names that are new |
| Spoken.ZAddRefuses | src/commands/sorted_sets.rs:115-137 | one score that cannot be read and no member is added |
| Spoken.ZAddRefusesOthers | src/store/sorted_sets.rs:85-112 | what is no sorted set is left alone |
| Spoken.GeoAddScores | src/commands/geo.rs:291-328 | places are added under the scores of their coordinates, by the same law as ZADD |
| Spoken.GeoAddRefuses | src/commands/geo.rs:291-328 | one place that cannot be read and none is added |
| Spoken.ZRemRemoves | src/commands/sorted_sets.rs:10-35 | the names go, the rest keep their scores, the reply counts those that were there, and an emptied key is gone |
| Spoken.ZRemRefusesOthers | src/store/sorted_sets.rs:135-167 | what is no sorted set is left alone |
| Spoken.XAddAppends | src/commands/streams.rs:32-53 | the fields go on the end in order under the id given out, which the reply spells; an id that cannot be given changes nothing |
| Spoken.XAddRefusesOthers | src/store/streams.rs:106-144 | what is no stream is left alone |
| Spoken.RequestedReadBack | src/store/streams.rs:55-71 | an id written in full, with its sequence left open or left open altogether is read as what it is |
| Spoken.WrongArityRefuses | src/commands/mod.rs:174-236 | words that do not make up whole pairs, whole places or a whole command are refused, with nothing changed |
| Transactions.Transaction.Close | src/commands/transactions.rs:62-81 | the EXEC of an open queue: queue and watches gone, run or dropped by the check, the store losing just the expired entries the check got to |
| Transactions.Transaction.TakeOn | src/commands/transactions.rs:82-97 | a WATCH records versions of keys not watched yet |
| Transactions.Transaction.Steer | src/commands/transactions.rs:52-116 | in place, transaction and store become what steering says, whatever order the watch map yields its keys in |
| Transactions.Listed | src/store/mod.rs:126-136 | the watch map gone through, each key once with its version |
| Transactions.OrInsert | src/commands/transactions.rs:62-97 | a key watched again keeps the version first seen |
| Transactions.HappenedKeepsOrderly | src/commands/mod.rs:51-96 | every event keeps the queue free of steering commands and the connection from both listening and queueing |
| Transactions.RunIsOrderly | src/commands/pubsub.rs:127-155 | so in every run a connection is never both listening and inside a transaction |
| Transactions.QueueHoldsWhatWasSent | src/commands/mod.rs:51-96 | while open, the queue is exactly the commands sent since MULTI in order, the watch map is fixed, and the store is where it would be without them |
| Transactions.ExecDecides | src/commands/transactions.rs:62-81 | EXEC empties queue and watch map, runs the queue exactly when nothing watched has changed, and costs the store only expired entries |
| Transactions.StretchIsRun | src/commands/mod.rs:51-96 | what any stretch of a connection's run does to the store, its own reads included, is a run of store steps |
| Transactions.WatchStays | src/commands/transactions.rs:82-97 | a key that stays watched stays watched at the same version |
| Transactions.AcceptedExecSawNoChange | src/commands/transactions.rs:62-97 | in every run of a connection among others, a key present when it was watched and still watched at an accepted EXEC held the same entry in every state from its WATCH to the EXEC |
| Transactions.DiscardDrops | src/commands/transactions.rs:99-112 | DISCARD leaves nothing of the transaction and everything else |
| Transactions.RunningInOrder | src/commands/mod.rs:114-129 | between the queued commands, others' steps change neither which are left nor their order |
| Transactions.TransactionRunsWhatWasQueued | src/commands/mod.rs:114-129 | from the MULTI that opens it to the end of EXEC, through any interleaving, the commands done are exactly those sent in between, in order, or none when the watch is refused |
| Transactions.MultiOpens | src/commands/transactions.rs:54-61 | MULTI opens an empty queue and touches nothing else |
| Transactions.OutOfPlaceChangesNothing | src/commands/transactions.rs:54-133 | the steering commands that fail are exactly the misplaced and misworded ones, and those leave connection and store as they were |
| Transactions.WatchRecords | src/commands/transactions.rs:82-97 | WATCH takes down the versions of the keys not watched yet and keeps the versions of those that were |
| Transactions.UnwatchForgets | src/commands/transactions.rs:120-133 | UNWATCH forgets every watch, and with a word too many forgets none |
| Transactions.ListeningRefuses | src/commands/mod.rs:43-112 | a client that listens is refused everything but the seven commands that go with listening |
| Transactions.ListeningIs | src/commands/pubsub.rs:127-155 | the channels listened on afterwards are those before with those named, or without them, or none when none is named |
| PubSub.Channels.Join | src/channels.rs:20-25 | a listener is added at the end of its channel's list |
| PubSub.Channels.Leave | src/channels.rs:30-44 | it goes from that channel alone, and an empty channel goes with it |
| PubSub.Channels.Send | src/channels.rs:48-66 | each listener still there gets one copy, the number says how many, the closed are forgotten |
| PubSub.Subscriptions.Add | src/commands/pubsub.rs:64-75 | a channel is taken on once, in both lists |
| PubSub.Subscriptions.Remove | src/commands/pubsub.rs:77-88 | and given up in both |
| PubSub.Subscriptions.Drop | src/commands/pubsub.rs:97-104 | a connection that ends leaves every channel it was on |
| PubSub.DroppedIsGone | src/commands/pubsub.rs:97-104 | which takes that client off exactly those channels, and leaves no empty one |
| PubSub.HappenedKeepsAgreed | src/channels.rs:20-66 | every event keeps each channel listing exactly the clients whose own list names it, once each, none empty |
| PubSub.PublishReachesAudience | src/commands/pubsub.rs:119-155 | the number PUBLISH answers is the number of subscribers, and each of them and no one else gets one copy at the end |
| PubSub.ListsAgree | src/commands/pubsub.rs:119-155 | in every run the lists agree, and each inbox is exactly what was published while its client listened, in order |
| PubSub.ReachesTheSame | src/channels.rs:48-66 | sending to everyone listed reaches those still there and no one else |
| Conversations.AcknowledgementRead | src/connection.rs:133-151 | the master reads back the number a replica reports |
| Conversations.AgreementRead | src/replica.rs:39-55 | the replica starts counting at the number the master named |
| Conversations.FileHeaderStable | src/replica.rs:200-213 | a file's length, once read, is the same however much has arrived |
| Conversations.HandoverLeavesTheStream | src/replica.rs:39-59 | after the agreement and the dataset, what is left to hear is the command stream from its first byte |
| Conversations.FollowedIsWhatWasSent | src/replica.rs:149-185 | from any commands' bytes a replica hears those commands in order, and counts exactly their bytes |
| Conversations.Conversation.Fill | src/replica.rs:189-195 | reading more changes nothing about what there is to hear |
| Conversations.Conversation.Hear | src/replica.rs:111-120 | the next value and its length are those of the whole stream, however it is cut up, and just its bytes are consumed |
| Conversations.Conversation.TakeFile | src/replica.rs:126-142 | the file comes off whole and everything behind it stays |
| Conversations.Conversation.KeepUp | src/replica.rs:149-185 | the loop's commands, reports and offset are those of the stream read value by value |
| Conversations.QuestionsAndReports | src/replica.rs:215-226 | among commands in any case, which are the master's question, and which are reports and of what number |
| Conversations.StartsWhen | src/replica.rs:46-53 | a replica starts from the number after the history's name, and from nothing said in any other way |
| Conversations.FileHeaderIs | src/replica.rs:200-213 | a dollar and a number on a line is the head of a file of that length; any other whole line is not one |
| Replication.HearsTheNext | src/replica.rs:111-120 | whatever has arrived, a replica's next command is the next of the master's history or nothing yet, never an error |
| Replication.NextKeepsInv | src/replicas.rs:42-104 | every step keeps every replica's place in the history, its count and its reports, and every WAIT's target and standing |
| Replication.RunsKeepInv | src/replicas.rs:42-104 | so does every run |
| Replication.BytesAreConserved | src/commands/replication.rs:27-49 | in every run, a replica's offset, the bytes on their way to it and those passed on during its handover come to the master's offset; the first two do exactly when none were passed on then |
| Replication.NextKeepsNoted | src/replicas.rs:51-104 | every step keeps each replica's part of the history equal to everything written since it was listed, and each WAIT's place among the writes in step with its place in the history |
| Replication.RunsKeepNoted | src/replicas.rs:51-104 | so does every run |
| Replication.WrittenIsWhatWasSent | src/replicas.rs:90-104 | what was written over any stretch of a run is what its steps handed to `send` |
| Replication.HandedOverBy | src/connection.rs:76-87 | every listed replica goes back to one agreement and one joining |
| Replication.MissesWhatFellBetween | src/connection.rs:76-87 | in every run, what a replica has heard and what is on its way are everything written since it joined; that is every command written since its agreement exactly when none was written between the two |
| Replication.HandoverCanMiss | src/connection.rs:76-87 | a run in which a command passed on during a handover puts a replica's count out for good |
| Replication.FirstHandoverCanMiss | src/connection.rs:76-87 | for every command, a run in which the only replica's counts agree and the command is lost |
| Replication.CountedHaveCarriedOut | src/commands/replication.rs:75-117 | in every run, a replica a WAIT counts has carried out everything passed on, and everything written, between its joining and the WAIT's beginning |
| Replication.ParkedIsShort | src/replicas.rs:73-86 | in every run, a WAIT parked with no notification given or about to be has fewer acknowledgements than it wants |
| Replication.AskReachesEveryone | src/commands/replication.rs:84-90 | the question a WAIT asks goes to every replica on the list, whatever it missed before |
| Replication.QuietWaitWantsMore | src/commands/replication.rs:75-117 | in every run, once nothing is on its way, a WAIT counts a replica exactly when the last question that replica was sent came at least the target and what its handover missed along the stream; the count is the number of those, and a WAIT still parked has fewer of them than it wants |
| Replication.AskedAndWholeIsCounted | src/commands/replication.rs:75-117 | a replica the WAIT asked, and whose handover missed nothing, is one of those |
| Replication.WaitCanStayParked | src/commands/replication.rs:75-117 | for every command, a run in which a WAIT asks both replicas it wants, both answer, everything arrives, and it stays parked, because one handover missed that command |
| Replication.Replicas.Look | src/replicas.rs:108-118 | looking lets go of exactly those whose connections have ended |
| Replication.Replicas.Add | src/replicas.rs:51-65 | the list shows the replica the step adds |
| Replication.Replicas.Send | src/replicas.rs:90-104 | in place, the loop leaves what the step leaves: everyone sent the same bytes, counted once, nothing counted with no one there |
| Replication.Replicas.CaughtUpTo | src/replicas.rs:73-78 | the number whose reports reach the offset, the departed not counted |
| Replication.CaughtUpIsSize | src/replicas.rs:73-78 | the count is the number of replicas listed that have reported that much |
| Replication.StepKeepsTerms | src/commands/replication.rs:75-117 | no step changes what a WAIT is after, and only its own look or its giving up answers it |
| Replication.BeginsOnTerms | src/commands/replication.rs:75-117 | a WAIT begun before anything was passed on answers the number of replicas listed; any other is after what has been passed on so far |
| Replication.AnswersWhen | src/commands/replication.rs:75-117 | a look answers as soon as as many as were wanted have caught up and not before; giving up always answers, with as many as have |
| Replication.WaitAnswers | src/commands/replication.rs:75-117 | over every run, the number a WAIT answers is how many replicas have reported all that had been passed on when it began, as many as were wanted unless its time ran out, and each of them has carried out everything written from its joining till then |
| Loading.Load | src/rdb.rs:56-81 | the loading loop sets every record still in time, and counts those |
| Loading.LoadedHolds | src/rdb.rs:56-81 | a key is there exactly when some record of it was in time, with the value and the time left of the last such record |
| Loading.LoadedIsSettled | src/rdb.rs:56-81 | a snapshot without deadlines leaves a store a log can be replayed over |
| Loading.LastStandingDecides | src/rdb.rs:56-81 | of all the records for a key the last whose time is not up decides its value, and its deadline is what was left of that record's |
| Loading.OverIsLeftOut | src/rdb.rs:56-81 | a key all of whose records are past their time is not there |
| Loading.HowManyStand | src/rdb.rs:56-81 | the number reported is that of the records whose time is not up |
| Replicated.LogIsTold | src/replica.rs:217-226 | no logged command is ever taken for a question, so a replica carries every one of them out |
| Replicated.ClientKeepsGood | src/commands/mod.rs:143-168 | dispatching any command keeps what was sent, questions apart, equal to what was logged, and everything said of log and replicas |
| Replicated.NetworkKeepsGood | src/replicas.rs:42-104 | so does whatever happens between the master and its replicas |
| Replicated.RunsAreGood | src/commands/mod.rs:143-168 | so in every joint run of clients, master and replicas |
| Replicated.CarriedBeginsTheLog | src/replica.rs:149-185 | what a replica listed before the first write has carried out is always a first part of the master's log, and all of it once nothing is on its way |
| Replicated.ReplicaHoldsTheTable | src/replica.rs:149-185 | in every joint run, such a replica always holds the table that first part means, and its master's table once it has heard everything |

## Left out

- Sockets, tasks, files, fsync, the manifest and the command line: the network and the log are byte sequences, the scheduler is the order of steps.
- Isolation of EXEC: the watch check and each queued command are separate steps, as in the code, so only what holds at the check is claimed.
- Log order under concurrent writers: the record is written after the store lock is let go, so replay is proved for serial dispatch.
- Replay of `XADD key *` and of `SET` with `EX` or `PX`: both are logged word for word and depend on the clock.
- A second restart after a torn tail: the file is appended to without the tail being cut, so the torn-log property is for one cut.
- Framing.Aof.Record: does not model a write that fails part of the way.
- Null, NullArray, File and Sequence in the RESP round trip: they are only ever written.
- Wakeups.PrunedKeepsHeld: does not say when an abandoned waker goes, because one registered under several keys keeps itself alive there.
- Replication.BytesAreConserved: sending a command and counting it are one step, and so are reading the offset for an agreement and sending it; reports come back as numbers, whose way through bytes is Conversations.AcknowledgementRead.
- Transactions.RunIsOrderly: SUBSCRIBE and its like are events that change who is listening, without the registry, which is PubSub's.
- PubSub.HappenedKeepsAgreed: a client's own list and the registry change in one step, since both are changed before anything else can happen on that connection.
- Counters are unbounded: the 64-bit overflow of versions and offsets is not modelled, that of stream ids and of INCR is.
- Morton.MiddleIsNear: over exact reals, without the rounding of doubles.
- Morton.DecodedIsNear: over exact reals and interior points, without the rounding of doubles.
- StoreObject.Store.SetKey: does not model the panic of a deadline beyond what the platform's clock can hold, because that limit is the platform's.
- Lzf.Unsqueeze: does not model an allocation that fails for lack of memory.
- Replicated.ReplicaHoldsTheTable: for a master started from an empty snapshot and a replica listed before its first write, because every replica starts from an empty dataset; and for clock-free serial runs, as replay is.
- Replay.RestartIsFaithful: for snapshots without deadlines, because what is left of a deadline depends on the clock.
- Replay.RestartsStayFaithful: likewise.
- Transactions.StretchIsRun: which keys a reading command looks up is given with the event, not worked out from its arguments.
- Floating point: scores are any ordered values, the grid is over reals and interior points, and reading a score is a parameter; printing floats, distances and GEOSEARCH are left out.
- Upper-casing is that of ASCII.
- Read-only commands other than the ones named, KEYS, TYPE, INFO, CONFIG, users, passwords and the wording of errors would only add easy members.
