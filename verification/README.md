# Sentinel's kernels in Dafny

Sentinel is a CI controller. This project models the parts of it whose correctness is hard to see from any one
function, and proves what they are meant to guarantee over every input, every interleaving and every run.

| part | modules | what is proved |
|---|---|---|
| HTTP/1.1 framing (sections 6.3, 7.1 and 9.3.2 of RFC 9112) | `Wire`, `ChunkSize`, `Body`, `ReadingOn`, `Readers`, `Pipelines`, `Connection` | the body readers decode exactly what the framing says, however the bytes are fragmented; when the keep-alive loop looks for heads only where a request's framing ends |
| Permit protocol | `Permits` | conservation, one reader per client, no cyclic wait, no deadlock, every request can finish, a slot reserved for direct clients |
| Sealing key ring | `KeyRing`, `Sealing`, `KeyFiles`, `KeyHistories`, `Decimal` | the key-file codec, the life of keys and sealed values over whole histories, file replacement under crashes over histories of rotations, retirements and crashes, and when an identifier can come to name a second key |
| Admission tables | `Links`, `Subscribers`, `Sessions`, `LoginGuard` | bounds, fairness and lockouts over every run |
| Waking waiters | `WaitPast`, `LogPoll`, `RunWait` | no wakeup is lost, and the exact conditions under which a log poller misses news |
| Guest agent | `Reaper`, `Transfers` | each step reported once with its own status; streams that round trip and stay in step |
| Fleet contract | `Fleet`, `Placement` | enrollment, revocation and identity safety over every run; admission before order |
| Fleet planning and profiles | `Plan`, `Profile` | the water-filled spread is unique and splits ceilings safely; binary search equals a linear walk |

State that the source updates in place is a class whose methods are proved against specification functions; the
protocols between threads are state machines with one step per atomic access or lock section, and their theorems
quantify over every sequence of enabled steps. Time is an integer that is passed in, random identifiers are values
that were not used before, and what the operating system may do (fragment reads, fail, lose unsynced directory
changes, reuse process identifiers) is chosen freely.

`Bytes` and `Collections` hold what several modules use.

## Where the code does less than it promises

Each of these is stated as a theorem with the condition under which the promise holds.

- A chunked body that was rejected can be read on: the reader keeps its place and takes what follows for more of
  the body. A connection looks for heads at framing boundaries only, exactly when no request is kept after a read
  of its body was rejected (`Connection.BoundariesIffNoneRejected`, for every handler). A handler that ignores
  rejections is kept exactly when the reader comes to an end (`Connection.StubbornTurn`), and for each of the three
  rejections there are bodies without an end on which it does (`ReadingOn.BadSizeStrays`,
  `ReadingOn.BadChunkEndStrays`, `ReadingOn.LongTrailersStray`).
- A read that is interrupted between the two bytes of a chunk's end loses the first of them (`Halved`), stands before
  a chunk's end as before (`Readers.Chunked.ReadCrlf`), and the caller cannot tell this from a harmless interruption,
  which `read_to_end` repeats. Where the chunk ended well the next read fails, so a body whose framing ends is
  unreadable after one such interruption, and never wrong (`Connection.Request.PublicBody`). Where a wrong byte stood
  before a chunk's end, the framing never ends but the reader goes on with the body after it
  (`Readers.ReadPastHalf`). Read on past the rejection it can also leave a framing that does end
  (`ReadingOn.HalvedStrays`).
- A response whose head could not be written leaves the connection open (`crates/sentinel-api/src/http.rs:972`
  returns before the connection is marked closed): such a request is kept exactly when its body is drained, it does
  not ask for a close and the server does not stop (`Connection.LastAnswer`).
- `take_link` yields only links that have not expired exactly when the queue is in deadline order
  (`Links.TakesOnlyLiveIffOrdered`), and admission keeps that order exactly when the new link expires no sooner
  than the last live one (`Links.OrderKeptIffLast`). The clock is read before the lock is taken, so two racing
  starts can break it (`Links.RacedStarts`).
- A rotation or retirement is safe at every crash point exactly when no change of the key path is unsynced as it
  begins (`KeyHistories.CrashSafeIffSynced`). An earlier one whose last sync failed leaves such a change
  (`KeyFiles.CompletesIffBackupNameIsFree`); a crash during the next one can then bring back the ring before both.
- An identifier of a key names one key for good over histories with crashes as long as no crash comes while the ring
  on disk is from before a rotation that was seen (`KeyHistories.IdentifiersNameOneKey`). A crash can give an
  identifier a second key exactly at such a moment (`KeyHistories.CrashCanRebindIffBehind`), and every rotation leads
  to one if its last sync fails (`KeyHistories.FailedSyncLeavesBehind`).
- A rotation completes, when no call fails, exactly when the backup's name is unused and is not the pending
  file's (`KeyFiles.CompletesIffBackupNameIsFree`).
- A failed sign-in is on record exactly when its pair was, or when there was room (`LoginGuard.RecordedIffRoom`):
  while 4096 recent pairs are tracked, a new pair is not counted.
- A lock is served to its end exactly when the pair does not sign in, none of its failures carries a clock reading
  more than a window before that end, and no sweep finds the pair quiet for four windows
  (`LoginGuard.LockIsServedIff`). Requests read the clock before the password check, so the failure of a slow
  request can end any lock early, with every allowance (`LoginGuard.StaleFailureEndsLock`, `LoginGuard.StaleRun`).
- A parked log poller can miss news, until its wait ends at the LOG_WAIT deadline or a later change is noticed.
  Until it reads again it can exactly when it holds no frontier, that is, when no writer had the attempt open
  (`LogPoll.MissesUnreadIffNothingHeld`), and over longer runs always, unless there is news already and it holds a
  frontier (`LogPoll.MissesUnlessTold`): the frontier test compares nothing with nothing.
- A new step can be handed another process's status exactly when it got the process identifier that the reaper
  has taken but not yet looked up (`Reaper.MisdeliveredIffPidInHand`); that the identifier is not registered is
  not enough. The step it belonged to is then reported without a status (`Reaper.ReusedPidCostsBoth`).
- The idle answer means that every started step has ended and been reaped, but its status may still be in the
  reaper's hand, unsent (`Reaper.IdleMeansReaped`, `Reaper.IdleBeforeSent`).
- The process identifier kept for signals names the step's own process exactly until that is reaped
  (`Reaper.SignalReachesItsStepIff`). It is kept until the waiter forgets it, so it can name another one
  (`Reaper.SignalCanStray`).

## Model

| member | source | states |
|---|---|---|
| Wire.Socket.Fill | crates/sentinel-api/src/http.rs:299-309 | one look at the socket: some nonempty prefix of what is ahead, nothing exactly at the end, an elapsed poll slice, an interruption, or a failure that lasts; no byte is consumed |
| Wire.Socket.TimedRead | crates/sentinel-api/src/http.rs:311-330 | returns a prefix of the bytes ahead and consumes exactly it; empty only at the end of the stream; fails only when interrupted, when the socket failed or when the server stops, and then consumes nothing |
| Wire.LineOfMeans | crates/sentinel-api/src/http.rs:332-370 | there is no line exactly when the bound is exceeded without a line feed, when the stream is at its end, or when it ends within the bound before one |
| Wire.Socket.BoundedLine | crates/sentinel-api/src/http.rs:332-370 | for every fragmentation, timeout and interruption pattern: the line the bytes ahead begin with (at most cap + 1 bytes), or too long, or cut short, each decided by the bytes alone; otherwise the socket failed or the server stops |
| ChunkSize.SizeLineRoundTrip | crates/sentinel-api/src/http.rs:473-479 | every hexadecimal numeral of a size below 2^64, in either case and with any leading zeros, followed by any UTF-8 extension, is read as that size |
| ChunkSize.NumeralSpells | crates/sentinel-api/src/http.rs:718-722 | every number has a numeral: remainders by 16 as digits, the quotient before them |
| ChunkSize.ReadsWhatIsSpelled | crates/sentinel-api/src/http.rs:718-722 | digits are read as n if and only if they spell n, digit by digit and place by place; nothing else is read |
| ChunkSize.AnnouncesIffSpelled | crates/sentinel-api/src/http.rs:473-479 | a line announces n if and only if n is below 2^64 and the line is text that, without trailing white space and up to a semicolon, spells n |
| ChunkSize.BlanksAreDropped | crates/sentinel-api/src/http.rs:473-479 | spaces and tabs after the numeral do not matter |
| ChunkSize.TextAppend | crates/sentinel-api/src/http.rs:473-475 | UTF-8 decoding distributes over concatenation of well-formed text |
| ChunkSize.ReadsIffEncoded | crates/sentinel-api/src/http.rs:473-474 | bytes are read as text if and only if they are the UTF-8 encoding of that text: no surrogates, no overlong forms, nothing above the last scalar |
| Body.ChunkedRoundTrip | crates/sentinel-api/src/http.rs:456-553 | decoding every encoding (any chunking, extensions, trailers within bounds) yields exactly the payload and ends exactly at its end, whatever follows |
| Body.ChunksRest | crates/sentinel-api/src/http.rs:456-526 | a run of encoded chunks contributes exactly its payload and its length in front of whatever follows |
| Body.TrailersRest | crates/sentinel-api/src/http.rs:527-549 | trailer lines within the bound are consumed with the blank line that ends them and add nothing to the payload |
| ReadingOn.FramingEndsThere | crates/sentinel-api/src/http.rs:456-553 | where the framing ends, a reader that is read on past rejections ends at the same place |
| ReadingOn.BadSizeStrays | crates/sentinel-api/src/http.rs:473-479 | for every line that is no size and every encoding after it: the framing never ends, but reading on ends after the encoding |
| ReadingOn.BadChunkEndStrays | crates/sentinel-api/src/http.rs:506-526 | the same for every chunk that two wrong bytes follow, then CRLF and an encoding |
| ReadingOn.LongTrailersStray | crates/sentinel-api/src/http.rs:539-547 | the same for every list of trailer lines past the bound, then a blank line |
| ReadingOn.HalvedStrays | crates/sentinel-api/src/http.rs:506-521 | a reader that lost the first byte of a chunk's end, read on, passes the end of the framing into any encoding that follows |
| Readers.Limited.Read | crates/sentinel-api/src/http.rs:418-441 | what it returns is the next part of the fixed-length body; a failure consumes nothing; a short stream is reported, and only then |
| Readers.Chunked.ReadSize | crates/sentinel-api/src/http.rs:463-486 | on success the meaning of what is ahead is unchanged and the socket advanced; a failure says whether it lost bytes: if not, nothing changed; a rejection means that the framing never ends and leaves where reading on would end |
| Readers.Chunked.ReadData | crates/sentinel-api/src/http.rs:487-505 | returns a nonempty next part of the payload and nothing else; a failure leaves what is ahead unchanged and means an interruption, a stream cut short, a failed socket or a stop |
| Readers.Chunked.ReadCrlf | crates/sentinel-api/src/http.rs:506-526 | as ReadSize, for the line end after a chunk, however it is fragmented: it succeeds only on a line end and else stays before it; an interruption costs at most the first byte, which is recorded as its own kind of loss |
| Readers.Chunked.ReadTrailer | crates/sentinel-api/src/http.rs:527-549 | as ReadSize, for one trailer line, setting done exactly at the end of the framing |
| Readers.Chunked.Read | crates/sentinel-api/src/http.rs:456-553 | for every buffer size and fragmentation, what was ahead is the returned bytes followed by what is ahead now; no bytes for a nonempty buffer exactly when the framing has ended, the socket then just past it; a failure that lost no bytes leaves what is ahead as it was, a rejection means that the framing never ends, a failed socket yields nothing more, and a chunk's end is halved only by an interruption after its first byte, which leaves the reader before a chunk's end |
| Readers.ReadEncoded | crates/sentinel-api/src/http.rs:456-553 | any number of reads of any encoding with any nonempty buffers: always a prefix of the payload; enough reads return exactly the payload, done exactly at the end of the encoding; otherwise the socket failed, the server stops, or a chunk's end was halved |
| Readers.ReadPastHalf | crates/sentinel-api/src/http.rs:506-526 | the read after a halved chunk's end: it fails if the chunk ended well; if a wrong byte stood before a chunk's end, the framing never ends, but what is returned is of the body after that end, and is rejected only if that body's framing never ends |
| Pipelines.RestFits | crates/sentinel-api/src/http.rs:456-553 | a framing that ends lies within the bytes it was read from |
| Pipelines.HeadOfPrefix | crates/sentinel-api/src/http.rs:592-615 | a parsed head is decided by its own bytes, whatever follows |
| Pipelines.HeadWithinBudget | crates/sentinel-api/src/http.rs:592-609 | the byte budget is cumulative: a parsed head is at most two bytes over it however many lines it has, for every grammar in which a bare line feed never continues a head |
| Connection.ReadHead | crates/sentinel-api/src/http.rs:592-615 | a parsed or refused head is the one the bytes ahead determine within the cumulative byte budget, and a parsed one is consumed exactly; it ends early only at the end of the stream, when the socket failed or when the server stops |
| Connection.Request.DrainedIsAtTheEnd | crates/sentinel-api/src/http.rs:388-396 | a body that counts as drained leaves the socket exactly at the end of its framing |
| Connection.Request.Read | crates/sentinel-api/src/http.rs:398-407 | dispatch to the three body kinds: the next part of the payload, no bytes only when drained; a failure that lost no bytes leaves the body as it was, and says why it failed; after half of a chunk's end is lost in a framing that ends, the next read fails |
| Connection.Request.PublicBody | crates/sentinel-api/src/http.rs:828-888 | a body it returns is the whole payload, within the limit and drained, unless a chunk's end was halved, and then a body whose framing ends is unreadable unless there was a second interruption; an announced length over the limit is refused without reading; a refusal for size means a payload over the limit; an unreadable body never ends, or the socket failed or the server stops |
| Connection.Request.Respond | crates/sentinel-api/src/http.rs:942-1001 | answers once; says close exactly when the request must close or the length is unknown; a body cut short always closes; a head cut short changes nothing about whether the request must close |
| Connection.OpenBody | crates/sentinel-api/src/http.rs:1311-1354 | the body reader chosen from the head has exactly the extent that the framing gives it |
| Connection.AnyHandler | crates/sentinel-api/src/http.rs:1355-1356 | for every handler, reading on after failures included: while no read lost bytes it was given a prefix of its payload, all of it once drained, the socket then at the end of the framing; a loss by a rejection means that the framing never ends; after a loss by the socket the body is never drained |
| Connection.LastAnswer | crates/sentinel-api/src/http.rs:1355-1365 | a turn that ends with an answer is kept, after a head cut short, if and only if the body is drained, no close was asked for and the server does not stop; after a body cut short never; after a whole answer if and only if it did not say close and the server does not stop |
| Connection.ServeOne | crates/sentinel-api/src/http.rs:1281-1365 | a turn without a request means a head refused or cut off, a handler withheld, a failed socket or a stop; a request that was served is kept if and only if the handler did not panic, its answer does not end the connection (whole without a close, or cut in the head with the body drained and no close asked) and the server does not stop; the connection then goes on from the exact end of the request's framing with the whole payload delivered if no read lost bytes, and from where no framing ends if one was rejected; every request served is answered, with a 500 if not by its handler |
| Connection.Serve | crates/sentinel-api/src/http.rs:1269-1366 | for every byte stream, fragmentation and handler: up to the first request whose reads lost bytes, heads are looked for at framing boundaries, in order and without skipping one, the requests are those of the pipeline, each given a prefix of its own payload, and every kept one was answered and given all of it; it ends only because the server stops, no head is served, or the last turn ends it; and if no read lost bytes and it ends where no head is, the whole pipeline was served with its payloads |
| Connection.ServeSent | crates/sentinel-api/src/http.rs:1269-1366 | well-framed requests that are pipelined are all served, each with its own payload, if every answer is whole without a close, no read loses bytes, and nothing stops, fails or panics |
| Connection.BoundariesIffNoneRejected | crates/sentinel-api/src/http.rs:1269-1366 | with no chunk's end halved, heads were looked for at boundaries only if and only if no request was kept after a read of its body was rejected |
| Connection.StubbornTurn | crates/sentinel-api/src/http.rs:1281-1365 | a handler that ignores rejections is kept if and only if the reader comes to an end, and the connection goes on from there; if the framing never ends, off every boundary; otherwise the socket failed or the server stops, a read was interrupted, or the answer was cut short |
| Pipelines.SpanOfSent | crates/sentinel-api/src/http.rs:1281-1365 | a well-framed request spans exactly its own bytes in front of whatever follows |
| Pipelines.PipelineRoundTrip | crates/sentinel-api/src/http.rs:1281-1365 | the pipeline cut out of any sequence of well-framed requests is those requests, in order, with their own payloads, followed by the pipeline of the rest |
| Permits.ConservedStep | crates/sentinel-api/src/http.rs:57-106 | every step keeps free plus held equal to the size of each pool |
| Permits.KeysStep | crates/sentinel-api/src/http.rs:132-154 | every step keeps the reader set equal to the keys of the requests that read, none twice |
| Permits.FitsStep | crates/sentinel-api/src/http.rs:828-899 | every step keeps what each place may hold: nothing of the body pools while waiting for a handler, no handler while waiting for a slot or share |
| Permits.RunKeeps | crates/sentinel-api/src/http.rs:828-899 | the three invariants hold after every sequence of steps |
| Permits.PermitsConserved | crates/sentinel-api/src/http.rs:51-165 | in every reachable state free plus held is the size of each of the three pools |
| Permits.OneReaderPerKey | crates/sentinel-api/src/http.rs:137-154 | in every reachable state two requests with the same client key never both read |
| Permits.BlockersAreCloser | crates/sentinel-api/src/http.rs:828-899 | whoever blocks a request is strictly closer to running than it is |
| Permits.NoCyclicWait | crates/sentinel-api/src/http.rs:828-899 | in every reachable state a chain of requests blocked by one another has at most two links and never closes |
| Permits.NoDeadlock | crates/sentinel-api/src/http.rs:828-899 | in every reachable state with a request in it some request can move on without any other giving up |
| Permits.RunningHoldsAHandler | crates/sentinel-api/src/http.rs:809-899 | in every run a request that runs holds a handler unless it yielded it or had to give up getting it back; after reading its body, or being refused as a second reader, it runs on only with a new one |
| Permits.EveryoneCanFinish | crates/sentinel-api/src/http.rs:57-106 | from every reachable state there is a continuation in which every request comes to its end and nobody gives up, yields or panics |
| Permits.ArrivalCanRead | crates/sentinel-api/src/http.rs:828-899 | a request that arrives at an idle server, behind a proxy or not, can come to read its body |
| Permits.WaitsWhileAllAreHeld | crates/sentinel-api/src/http.rs:66-106 | in every reachable state a waiting request gets its permit if and only if not all are held, and is blocked and may give up if and only if all are |
| Permits.LeavesOnlyBy | crates/sentinel-api/src/http.rs:828-899 | a request goes only when its handler returns or panics, or when it gives up before it began |
| Permits.ReservedSlot | crates/sentinel-api/src/lib.rs:39-48 | proxied readers never hold more slots than their share; while no direct reader holds one, the next direct reader gets a slot at once |
| Permits.DefaultPools | crates/sentinel-api/src/lib.rs:36-48 | with the pools the server is built with: in every reachable state proxied readers hold at most 3 of the 4 slots, and some request can move on |
| KeyRing.ValueOfBigEndian | crates/sentinel-auth/src/sealed.rs:142-149 | reading back a big-endian number of k bytes gives the number |
| KeyRing.BigEndianOfValue | crates/sentinel-auth/src/sealed.rs:142-149 | writing the number that k bytes stand for gives those bytes |
| KeyRing.MostSignificantFirst | crates/sentinel-auth/src/sealed.rs:142-149 | the first of k bytes is the most significant |
| KeyRing.IdBytes | crates/sentinel-auth/src/sealed.rs:142-149 | the four bytes of an identifier add up to it at their places, most significant first |
| KeyRing.KeysBytesInjective | crates/sentinel-auth/src/sealed.rs:167-177 | two key lists with the same bytes are the same |
| KeyRing.FilesDecode | crates/sentinel-auth/src/sealed.rs:132-177 | the file of every valid ring decodes to it |
| KeyRing.DecodesToOne | crates/sentinel-auth/src/sealed.rs:132-165 | no bytes decode to two rings, the 32-byte form from before rotation included |
| KeyRing.DecodeKeys | crates/sentinel-auth/src/sealed.rs:147-157 | the entry loop returns the list of ascending keys with these bytes, or says that the keys with these bytes do not ascend |
| KeyRing.Decode | crates/sentinel-auth/src/sealed.rs:132-165 | accepts exactly the bytes that some valid ring has, and returns that ring; each of the three refusals has its own reason |
| KeyRing.Encode | crates/sentinel-auth/src/sealed.rs:167-177 | the appended buffer is the file of the ring |
| Sealing.ContextsDiffer | crates/sentinel-auth/src/sealed.rs:21-45 | two secrets share a context only if tenant, repository, name and version are all the same |
| Sealing.RingsStayValid | crates/sentinel-auth/src/sealed.rs:200-251 | rotation and retirement keep the ring ascending with the active key last; rotation only appends |
| Sealing.NextHolds | crates/sentinel-auth/src/sealed.rs:200-350 | every event keeps each stored value sealed with the material its key identifier is bound to, and only adds bindings |
| Sealing.HistoryHolds | crates/sentinel-auth/src/sealed.rs:200-350 | the same over every history |
| Sealing.KeysAreNeverRebound | crates/sentinel-auth/src/sealed.rs:200-251 | over every history an identifier in the ring at two moments names the same key material at both, and the active identifier never decreases |
| Sealing.OpensWhileItsKeyIsKept | crates/sentinel-auth/src/sealed.rs:289-350 | over every history what was stored last in a row opens to its plaintext under its own context if and only if its key is in the ring, and under no other context |
| Sealing.RowsAreStored | crates/sentinel-auth/src/sealed.rs:253-350 | over every history a row is there if and only if it was stored and not deleted since, with the context and plaintext stored last, whatever rotations, retirements and reseals came between |
| Sealing.RetireKeepsTheActiveOnes | crates/sentinel-auth/src/sealed.rs:229-251 | after retirement a value opens if and only if it was sealed with the active key |
| Sealing.PassStep | crates/sentinel-auth/src/sealed.rs:275-283 | a reseal, a new value or a deletion keeps every readable row readable and leaves the row it touches under the active key |
| Sealing.ResealThenRetire | crates/sentinel-auth/src/sealed.rs:229-283 | once a pass has touched every row, retirement leaves every row opening, resealed rows to the plaintext they had |
| KeyFiles.FlushKeepsNames | crates/sentinel-auth/src/sealed.rs:412-414 | syncing a directory never changes the names a running process sees, whatever is unsynced |
| KeyFiles.EarlySteps | crates/sentinel-auth/src/sealed.rs:215-218 | clearing, creating, writing and syncing the backup keep the crash invariant, whichever call fails |
| KeyFiles.LateSteps | crates/sentinel-auth/src/sealed.rs:386-396 | staging, renaming, syncing and undoing keep the crash invariant, whichever call fails |
| KeyFiles.SafeIsRecoverable | crates/sentinel-auth/src/sealed.rs:386-415 | in every state of the invariant, whatever unsynced directory changes a crash lets through, the key path has the old bytes, or the new ones and the backup exactly the old |
| KeyFiles.EveryCrashIsRecoverable | crates/sentinel-auth/src/sealed.rs:200-251 | so it is at every point of every run of the operation, with any calls failing and any other directory changes unsynced, when no change of the key path is unsynced at its start |
| KeyFiles.DoneIsDurable | crates/sentinel-auth/src/sealed.rs:386-415 | after success no crash takes the new bytes or the backup away, whatever was unsynced before, and no change of the key path is left unsynced |
| KeyFiles.CompletesIffBackupNameIsFree | crates/sentinel-auth/src/sealed.rs:376-396 | from any disk, with no failing call the operation completes if and only if the backup's name is unused and not the pending file's, so a stale pending file never blocks it; with only the last sync failing it leaves the key path unsynced |
| KeyFiles.UndoCleansUp | crates/sentinel-auth/src/sealed.rs:386-394 | a replacement that failed after its backup takes its pending file away and nothing else, if the removal succeeds, and is over either way |
| KeyFiles.PendingPath | crates/sentinel-auth/src/sealed.rs:370-374 | the pending file is never the key file |
| KeyFiles.DeedSurvivesCrashes | crates/sentinel-auth/src/sealed.rs:200-251 | at every crash point of every rotation and retirement begun without an unsynced change of the key path, the key file decodes to the old ring, or to the complete new one with the old bytes in the backup |
| KeyHistories.HistoryKeeps | crates/sentinel-auth/src/sealed.rs:200-251 | over every history of rotations, retirements and crashes, with any calls failing and any operation cut off, the key path on disk names an older ring than the one seen as long as a rename is unsynced and the same ring otherwise, and every identifier between the two was seen |
| KeyHistories.CrashSafeIffSynced | crates/sentinel-auth/src/sealed.rs:200-251 | in every such history the next operation is safe at every crash point if and only if no change of the key path is unsynced |
| KeyHistories.RebootKey | crates/sentinel-auth/src/sealed.rs:386-415 | after a crash, whatever directory changes it let through, the key path names the ring that was on disk or one renamed over it since, no later than the one seen |
| KeyHistories.ActKeeps | crates/sentinel-auth/src/sealed.rs:200-251 | an operation, cut off anywhere, leaves the ring that was seen or its own new one; unless it finished, the ring on disk stays or becomes the one that was seen before it |
| KeyHistories.IdentifiersNameOneKey | crates/sentinel-auth/src/sealed.rs:200-227 | over every history with crashes no identifier is ever seen with two keys, if no crash came while the ring on disk was from before a rotation that was seen |
| KeyHistories.CrashCanRebindIffBehind | crates/sentinel-auth/src/sealed.rs:200-251 | in such a history, a crash now and operations after it can give an identifier a second key if and only if the ring on disk is from before a rotation that was seen; losing a retirement alone never does |
| KeyHistories.LostRotationRebinds | crates/sentinel-auth/src/sealed.rs:200-251 | the way it does: the older ring comes back, is retired first if it is full, and the next rotation gives the lost identifier to another key |
| KeyHistories.FailedSyncLeavesBehind | crates/sentinel-auth/src/sealed.rs:386-396 | from every moment of a history at which a rotation is admitted, one whose last sync fails leads there |
| Links.Pending.PopExpired | crates/sentinel-api/src/github.rs:156-158 | drops the longest expired prefix and nothing else |
| Links.Pending.FindHeaviest | crates/sentinel-api/src/github.rs:165-172 | finds the oldest link of an account that holds the most |
| Links.Pending.TrimUser | crates/sentinel-api/src/github.rs:159-163 | the loop removes at most one link, the account's own oldest, and only at its allowance |
| Links.Pending.TrimFull | crates/sentinel-api/src/github.rs:164-174 | the loop removes at most one link, the oldest of a heaviest holder, and only when full |
| Links.Pending.Admit | crates/sentinel-api/src/github.rs:155-176 | the three loops together: expired links go, then at most one live link as above; the queue stays within 256 and 4 per account, the new link last |
| Links.Pending.Take | crates/sentinel-api/src/github.rs:112-123 | yields the link of the state if it is still queued, and removes that link and expired ones only |
| Links.OneVictim | crates/sentinel-api/src/github.rs:151-176 | admitting displaces at most one live link |
| Links.OthersPayOnlyWhenFull | crates/sentinel-api/src/github.rs:151-176 | another account's live link is displaced only when the queue is full and its holder holds as many as anyone; if it was its only link, 256 accounts hold one each |
| Links.OrderKeptIffLast | crates/sentinel-api/src/github.rs:151-176 | admission keeps deadline order if and only if no link is live or the new one expires no sooner than the last live one |
| Links.TakesOnlyLiveIffOrdered | crates/sentinel-api/src/github.rs:112-123 | no take ever yields an expired link if and only if the queue is in deadline order |
| Links.EveryRun | crates/sentinel-api/src/github.rs:107-176 | over every run the bounds hold; while calls take the lock in clock order the queue stays ordered and no expired link is collected |
| Links.LoneLinksAreSafe | crates/sentinel-api/src/github.rs:151-176 | over every run an account's only link is displaced by another account only when 256 accounts hold one each; the links held are the live ones when the calls come in clock order, and out of it those behind the first live one count too |
| Links.RacedStarts | crates/sentinel-api/src/github.rs:213-222 | for any two starts that read the clock in one order and take the lock in the other, an expired link can be collected |
| Subscribers.NoFreeEntryMeansFull | crates/sentinel-api/src/lib.rs:209-215 | with no free entry the table is full, so the fallback refusal is unreachable |
| Subscribers.Table.Held | crates/sentinel-api/src/lib.rs:194-201 | the sum over the entries is the number of live guards |
| Subscribers.Table.FindEntry | crates/sentinel-api/src/lib.rs:209-215 | the user's own entry, or a free one if the user has none |
| Subscribers.Table.Take | crates/sentinel-api/src/lib.rs:203-223 | refused as full if and only if 32 are held, as the user's limit if and only if the user holds 8 of fewer than 32; otherwise exactly one guard is added, and a refusal changes nothing |
| Subscribers.Table.Release | crates/sentinel-api/src/lib.rs:225-233 | dropping a guard gives back exactly that guard and never underflows |
| Subscribers.PutCounts | crates/sentinel-api/src/lib.rs:216-222 | taking an entry adds one to that user's count in the map the array stands for, and to nobody else's |
| Subscribers.DropCounts | crates/sentinel-api/src/lib.rs:225-233 | releasing takes one from that user's count and from nobody else's |
| Subscribers.TotalPerHolder | crates/sentinel-api/src/lib.rs:52-56 | the total is at most 8 per holder |
| Subscribers.ThreeNeverShutOutAFourth | crates/sentinel-api/src/lib.rs:52-56 | a full table has at least four holders |
| Sessions.Table.Retain | crates/sentinel-api/src/mcp.rs:57-69 | one sweep keeps exactly the sessions used less than 3600 seconds ago, counts the account's and finds a least recently used one |
| Sessions.Table.Create | crates/sentinel-api/src/mcp.rs:56-94 | at the cap the creator's least recently used session is replaced; else a session is added if there is room, and refused otherwise; every other session left is an unchanged one used less than 3600 seconds ago; both bounds are kept |
| Sessions.Table.Touch | crates/sentinel-api/src/mcp.rs:100-116 | succeeds exactly for the caller's own session used less than 3600 seconds ago and renews only its use; an idle one is removed; nothing else changes |
| Sessions.Table.MarkInitialized | crates/sentinel-api/src/mcp.rs:124-131 | marks exactly the named session, or reports that it is not there |
| Sessions.CreateSpares | crates/sentinel-api/src/mcp.rs:56-94 | creation drops no live session of another account, and of the creator's only a least recently used one at the cap |
| Sessions.PerUserPigeonhole | crates/sentinel-api/src/mcp.rs:25-28 | a table within the per-account bound has at most 16 sessions for each of its accounts |
| Sessions.RefusalMeansCrowd | crates/sentinel-api/src/mcp.rs:75-80 | a refused account is below its cap, and at least 64 other accounts hold live sessions |
| LoginGuard.Guard.Fail | crates/sentinel-api/src/login_guard.rs:47-79 | the table after a failure is the one the specification gives, and stays within 4096 pairs |
| LoginGuard.Guard.Succeed | crates/sentinel-api/src/login_guard.rs:81-87 | a success forgets exactly its pair |
| LoginGuard.FailedFits | crates/sentinel-api/src/login_guard.rs:57-63 | recording a failure never takes the table past 4096 pairs |
| LoginGuard.RecordedIffRoom | crates/sentinel-api/src/login_guard.rs:57-68 | a failure is on record afterwards if and only if the pair was, or there was room, if need be after forgetting quiet pairs |
| LoginGuard.EveryRun | crates/sentinel-api/src/login_guard.rs:47-87 | in every run, clock readings in any order, at most 4096 pairs are tracked and a pair is locked exactly at its allowance, one window past its latest failure |
| LoginGuard.LockKeptIff | crates/sentinel-api/src/login_guard.rs:47-87 | an event keeps a pair locked until u if and only if it is no success of the pair, no failure of it with a reading more than a window before u, and no sweep that finds it quiet for four windows |
| LoginGuard.SweepSparesLocked | crates/sentinel-api/src/login_guard.rs:57-63 | a sweep by a request whose reading lies before the end of a lock never forgets the locked pair |
| LoginGuard.LockIsServedIff | crates/sentinel-api/src/login_guard.rs:39-87 | in every run a pair stays locked until u if and only if no event breaks the lock, and then it is refused to every reading before u |
| LoginGuard.LockIsServed | crates/sentinel-api/src/login_guard.rs:39-79 | in every run in which a pair's own failures keep the order of their readings, it is refused before its lock ends, whatever other pairs do and in whatever order, unless it signs in |
| LoginGuard.StaleFailureEndsLock | crates/sentinel-api/src/routes.rs:989-1031 | whatever the allowance and the table of the run, a failure of a locked pair with a reading more than a window before the end of the lock lets the pair in again before that end |
| LoginGuard.StaleRun | crates/sentinel-api/src/routes.rs:989-1031 | with every policy there is a run that comes to this: a pair uses up its allowance and then fails with an older reading |
| LoginGuard.DrivenMatches | crates/sentinel-api/src/routes.rs:989-1031 | in every run the entry of a pair that asks before each guess is determined by when its failures happened |
| LoginGuard.GuessesAreSpaced | crates/sentinel-api/src/routes.rs:989-1031 | in every run the n-th failure of such a pair comes at least (n - m) windows after its m-th, m the allowance |
| WaitPast.CountStep | crates/sentinel-store/src/lib.rs:316-338 | every step keeps the waiter count equal to the number of registered waiters |
| WaitPast.LockStep | crates/sentinel-store/src/lib.rs:316-351 | every step keeps at most one thread inside the lock |
| WaitPast.OwedStep | crates/sentinel-store/src/lib.rs:316-351 | every step keeps this: a waiter asleep past a moved generation has a notification on its way |
| WaitPast.NoSleeperIsForgotten | crates/sentinel-store/src/logs.rs:185-216 | in every interleaving, once the bumps under way are done no waiter sleeps past a generation other than the one it has seen |
| WaitPast.GenerationCountsBumps | crates/sentinel-store/src/lib.rs:316-338 | the generation is the number of bumps |
| WaitPast.BumpWakesEveryone | crates/sentinel-store/src/lib.rs:316-351 | in every interleaving, once a bump is through, no waiter that had seen a generation before it is asleep |
| WaitPast.ReturnsOnlyWhenMoved | crates/sentinel-store/src/lib.rs:316-351 | in every interleaving a waiter whose deadline has not passed returns only once the generation is past the one it had seen, whatever wakes it |
| LogPoll.Keeps | crates/sentinel-store/src/logs.rs:701-730 | every step of poller and writers keeps the invariant between frames, recorded frontier, bumps and what the poller holds |
| LogPoll.NoLostWakeup | crates/sentinel-api/src/routes.rs:1542-1581 | in every interleaving a parked poller that held a frontier and has unread news finds a generation it has not seen, once the bumps are done |
| LogPoll.AnsweredMeansNews | crates/sentinel-api/src/routes.rs:1542-1581 | in every interleaving a poller is answered only with a frame past its cursor or the end |
| LogPoll.TestSkipsIffClosedTwice | crates/sentinel-api/src/routes.rs:1574-1580 | the frontier test skips a needed re-read if and only if the attempt was closed at both looks |
| LogPoll.MissesUnreadIffNothingHeld | crates/sentinel-api/src/routes.rs:1542-1581 | from every reachable parked state, without another read the poller can come to miss news if and only if it holds no frontier, and then a frame as well as the end |
| LogPoll.MissesUnlessTold | crates/sentinel-store/src/logs.rs:861-915 | from every reachable parked state, over all continuations, it can come to miss news unless there is news already and it holds a frontier, and only then |
| RunWait.NoLostChange | crates/sentinel-api/src/routes.rs:1692-1724 | in every interleaving a parked waiter whose run changed or finished finds a generation it has not seen, once the bumps are done |
| RunWait.ChangeCanBeAnswered | crates/sentinel-api/src/routes.rs:1692-1724 | from every reachable parked state, every commit that changes or finishes the run has a continuation that answers the waiter |
| RunWait.AnsweredOnlyForAChange | crates/sentinel-api/src/routes.rs:1692-1724 | in every interleaving a waiter is not answered as long as every commit leaves the version and the run unfinished |
| Reaper.PairedStep | crates/sentinel-agent/src/linux.rs:921-930 | every step keeps registered identifiers and steps one to one, each step's identifier that of its own process |
| Reaper.AccountedStep | crates/sentinel-agent/src/linux.rs:974-989 | every step keeps a waiting step that was sent nothing in the table |
| Reaper.ProcsTrueStep | crates/sentinel-agent/src/linux.rs:993-1000 | every step keeps the ends that the kernel holds equal to how their steps ended |
| Reaper.HandTrueStep | crates/sentinel-agent/src/linux.rs:998-1004 | every step keeps the end in the reaper's hand, before and after the lookup, equal to how its step ended |
| Reaper.SentTrueStep | crates/sentinel-agent/src/linux.rs:974-976 | every step keeps the status that was sent to a waiter equal to how that step ended |
| Reaper.PidsKeptStep | crates/sentinel-agent/src/linux.rs:921-930 | every step keeps the identifier kept for signals that of the step's own process as long as that is not reaped |
| Reaper.ReportingStep | crates/sentinel-agent/src/linux.rs:974-989 | every step keeps the reports those of the reported steps, one each |
| Reaper.ReportsAreTrueAndSingle | crates/sentinel-agent/src/linux.rs:974-1016 | in every interleaving each report says how the process spawned for its step exited in that run: a code if and only if it exited with that code, a signal if and only if that killed it, neither otherwise; and no step is reported twice |
| Reaper.TruthIsTheRuns | crates/sentinel-agent/src/linux.rs:993-1016 | in every interleaving the recorded end of a step is the first exit, since its spawn, of the process it was spawned as |
| Reaper.OrphansReachNoWaiter | crates/sentinel-agent/src/linux.rs:1004-1014 | the lookup of an orphan's end takes no entry from the table and sends nothing; that of a step's end sends its own status to that step |
| Reaper.EndedStepsAreReported | crates/sentinel-agent/src/linux.rs:974-1016 | once the agent's threads have nothing left to do, every step whose process exited in the run has been reported |
| Reaper.IdleMeansReaped | crates/sentinel-agent/src/linux.rs:557-569 | the idle answer is true only when every started step has ended and been reaped; its status has been sent if and only if the reaper does not hold it between lookup and send |
| Reaper.IdleBeforeSent | crates/sentinel-agent/src/linux.rs:1004-1013 | such a moment is reached: idle, with the status unsent |
| Reaper.SignalReachesItsStepIff | crates/sentinel-agent/src/linux.rs:514-523 | in every interleaving, also between the lookup of a step's identifier and the signal, the identifier names the step's own process if and only if that has not been reaped |
| Reaper.SignalCanStray | crates/sentinel-agent/src/linux.rs:985-987 | a run in which it is still kept and names another process |
| Reaper.BusyMeansInHand | crates/sentinel-agent/src/linux.rs:998-1004 | an identifier the kernel has free is still in use here if and only if the reaper has it in hand |
| Reaper.MisdeliveredIffPidInHand | crates/sentinel-agent/src/linux.rs:998-1004 | a new step is sent another process's end if and only if it got the identifier that the reaper took and has not looked up |
| Reaper.ReusedPidCostsBoth | crates/sentinel-agent/src/linux.rs:974-1016 | then the new step's own end finds no entry, and a step whose identifier it was is reported without a status |
| Transfers.DataOut.Flush | crates/sentinel-agent/src/linux.rs:699-704 | sends what waits as one frame of at most CHUNK bytes, keeping the written stream; fails exactly when there is something to send and the connection takes no more |
| Transfers.DataOut.Write | crates/sentinel-agent/src/linux.rs:690-698 | frames plus buffer grow by exactly the bytes accepted, at least one of a nonempty slice; fails only when the connection has failed |
| Transfers.DataOut.WriteAll | crates/sentinel-agent/src/linux.rs:689-705 | a caller that writes until everything is taken ends with everything written in order |
| Transfers.DataIn.Read | crates/sentinel-agent/src/linux.rs:629-649 | under any read sizes and empty frames, what was left is the returned bytes followed by what is left; no bytes only at the end; never fails on a stream of data frames and an end |
| Transfers.DataIn.Finish | crates/sentinel-agent/src/linux.rs:651-658 | succeeds on every such stream, and then stands just past its first end frame |
| Transfers.Put | crates/sentinel-agent/src/linux.rs:660-681 | however little the archive reads, even past failures, the next request is read from just past the end frame |
| Transfers.StreamRoundTrip | crates/sentinel-agent/src/linux.rs:621-705 | the frames of one side, ended, are read by the other as exactly the bytes written, ending at the end frame |
| Fleet.NextKeeps | bench/q13-fleet.py:103-229 | every operation keeps the fleet in order and does to workers, enrollments and holders only what it may |
| Fleet.SimFleet.Issue | bench/q13-fleet.py:103-111 | adds one enrollment with its policy, whose secret can be spent exactly until it expires, and changes no other |
| Fleet.SimFleet.Withdraw | bench/q13-fleet.py:113-115 | the secret can never be spent again, and no other enrollment changes |
| Fleet.SimFleet.FindEnrollment | bench/q13-fleet.py:118-120 | finds the enrollment if and only if the secret is pending and has not expired |
| Fleet.SimFleet.IsTaken | bench/q13-fleet.py:121-124 | true if and only if a worker has the identifier, fingerprint or node key |
| Fleet.SimFleet.Redeem | bench/q13-fleet.py:117-136 | works if and only if the secret can be spent and the identity is nobody's; then the key is admitted for the new worker and the secret can never be spent again; a refusal changes nothing, and the fleet stays in order |
| Fleet.SimFleet.Enroll | bench/q13-fleet.py:138-154 | the answer is the first obstacle of host, identity, secret and taken identity, and a refusal changes nothing; otherwise the host has the identity, its new worker is connected from it under the enrollment's policy, its key is admitted and the secret can never be spent again |
| Fleet.SimFleet.BringUp | bench/q13-fleet.py:167-192 | connects the worker from this host, or records the first reason that applies and changes no worker |
| Fleet.SimFleet.FindHolder | bench/q13-fleet.py:183-185 | true if and only if another host has the worker's connection and its identity |
| Fleet.SimFleet.Start | bench/q13-fleet.py:167-192 | changes only this host and its worker: refused as revoked if and only if the worker is, as a duplicate if and only if the worker is connected from another host with the same identity, and otherwise connected from here with this machine |
| Fleet.SimFleet.Restart | bench/q13-fleet.py:194-200 | comes to the same as a start: the host's own connection is never in its way |
| Fleet.SimFleet.UninstallHost | bench/q13-fleet.py:156-165 | stops the host and forgets its identity, leaving the worker listed |
| Fleet.SimFleet.CloneIdentity | bench/q13-fleet.py:202-203 | gives the other host the same identity and changes nothing else |
| Fleet.SimFleet.Settle | bench/q13-fleet.py:215-222 | the loop revokes exactly the idle workers that were asked to go and removes exactly their keys |
| Fleet.SimFleet.RequestUninstall | bench/q13-fleet.py:209-213 | the worker drains, and is revoked at once if and only if it runs nothing; exactly the idle workers that were asked to go are revoked, and exactly their keys removed |
| Fleet.SimFleet.StartJob | bench/q13-fleet.py:224-225 | one more job runs on that worker and nothing else changes |
| Fleet.SimFleet.FinishJobs | bench/q13-fleet.py:227-229 | the worker runs nothing, and is revoked if and only if it was asked to go; exactly the idle workers that were asked to go are revoked |
| Fleet.SimFleet.SetPolicy | bench/q13-fleet.py:245-247 | replaces exactly that worker's policy |
| Fleet.OneWorkerPerSecret | bench/q13-fleet.py:117-136 | over every run a secret makes at most one worker |
| Fleet.ClosedMakesNone | bench/q13-fleet.py:113-136 | over every run an enrollment that was withdrawn, spent or has expired makes no further worker |
| Fleet.RevokedForGood | bench/q13-fleet.py:167-222 | over every run a revoked worker is never connected again, its key never admitted, and every host with its identity is refused |
| Fleet.RevokedWhenIdle | bench/q13-fleet.py:209-229 | over every run a worker is revoked only when it was asked to go and runs nothing |
| Fleet.JobsAreNotCut | bench/q13-fleet.py:209-229 | over every run, a worker on which a job was started and none finished since is not revoked by anything in between |
| Fleet.StaysBusy | bench/q13-fleet.py:209-229 | a worker that runs a job runs it after every operation but the end of its own jobs |
| Fleet.CopiesNeverTakeOver | bench/q13-fleet.py:167-203 | over every run, while the connected host keeps its identity the worker stays connected from it until revoked, and a copy that starts is refused as a duplicate |
| Placement.EffectiveIsTheMeet | bench/q13-fleet.py:234-243 | a need fits the effective capacity if and only if it fits the machine and every ceiling that is set |
| Placement.FreeInAFleet | bench/q13-fleet.py:256-257 | in a fleet in order the free workers are those connected, not revoked and not draining |
| Placement.ReasonsMean | bench/q13-fleet.py:264-280 | a job fits a free worker if and only if machine and ceilings allow it; else the reason is a different architecture, or else a different system or missing runtime, or else capacity |
| Placement.OrderMeans | bench/q13-fleet.py:259-262 | the sort keys mean: more priority, then faster; or faster, then more priority |
| Placement.Place | bench/q13-fleet.py:264-285 | the first of the workers that fit, in the chosen order, oldest among equals; or, when none fits, the foremost reason any free worker gives |
| Placement.OrderNeverDecides | bench/q13-fleet.py:259-285 | whether a job is placed, and why it waits, is the same under both orders and every listing of the workers |
| Placement.PlacedWell | bench/q13-fleet.py:264-285 | a placed job is on a connected, not draining worker whose architecture, system, isolation, machine and ceilings allow it, and before every other such worker: by priority then speed, or speed then priority, then age |
| Placement.WaitsForAReason | bench/q13-fleet.py:264-285 | a job waits only if no free worker allows it; for the architecture if and only if some free worker's differs; for capacity only if all free workers match in everything else |
| Placement.OfflineIffNoneFree | bench/q13-fleet.py:281-284 | a job waits for offline workers if and only if no worker is free |
| Placement.PlacementInEveryRun | bench/q13-fleet.py:256-285 | in every state a fleet reaches, a job lands only on a connected worker that is not revoked or draining and whose key is admitted; it waits for offline workers if and only if there is no such worker |
| Plan.Capacity | bench/b09-harness.py:280 | the sum of the hosts' identities |
| Plan.LeastLoaded | bench/b09-harness.py:288 | a host with room that has the fewest identities, the first of them |
| Plan.Spread | bench/b09-harness.py:285-290 | with enough capacity a host with room is always found; exactly n identities are placed; after every single one no host is over its room or ahead of a host with room |
| Plan.FilledIsUnique | bench/b09-harness.py:285-290 | two water-filled loads of the same size are the same |
| Plan.SpreadIsUnique | bench/b09-harness.py:285-290 | the spread is the only sequence of placements whose every step is water-filled |
| Plan.SharesFit | bench/b09-harness.py:297-301 | on a host that can hold k identities, k times each share is within the ceiling, no share is empty, and no larger equal share would fit |
| Plan.StopsMean | bench/b09-harness.py:293-301 | k identities are stopped on a host for want of ceilings if and only if k > 1 and it declares none, and for a small ceiling if and only if one is below k |
| Plan.NamesDiffer | bench/b09-harness.py:304 | a name determines label and slot, though labels may end in a dash and digits |
| Plan.Assign | bench/b09-harness.py:291-305 | a plan exists if and only if nothing stops any host that was given identities, and the reason reported is the first one met |
| Plan.PlanFleet | bench/b09-harness.py:274-305 | blocked when identities are too few; otherwise the plan of the spread, or the first obstacle |
| Plan.PlannedIffAllHold | bench/b09-harness.py:274-305 | with identities enough, a plan is made if and only if every host can hold those that the spread gives it |
| Plan.TooFewIffMoreAsked | bench/b09-harness.py:280-283 | identities are too few if and only if more are asked for than the hosts have |
| Plan.PlanNamesAreUnique | bench/b09-harness.py:302-304 | no two identities of a plan have the same name |
| Plan.PlanSlots | bench/b09-harness.py:302-304 | a host's slots are exactly 1 to the number of its identities |
| Plan.PlanFitsCeilings | bench/b09-harness.py:297-301 | the shares planned for a host together stay within each of its ceilings |
| Profile.ValueAt | bench/b04a_profile.py:232-246 | the binary search returns what a walk over the samples returns, something exactly inside the observed span; between two samples the value is on the straight line through them, at a sample's time it is that of the last such sample with another after it, or of the final one if it is alone |
| Profile.ExactAtSamples | bench/b04a_profile.py:232-246 | at a sample whose time no neighbour shares the value is the sample's own |
| Profile.ReadingRises | bench/b04a_profile.py:232-246 | a counter that never fell is read without falling |
| Profile.Delta | bench/b04a_profile.py:249-254 | never negative; of a counter that never fell, known exactly on the windows inside the observed span; between two samples, the difference of their values |
| Profile.GrowthAdds | bench/b04a_profile.py:249-254 | growth is known on exactly the windows inside the span, and adjacent windows add up |
| Profile.GrowthIsProportional | bench/b04a_profile.py:249-254 | between two samples a counter grows in proportion to the width of the window |

## Left out

- The grammar of a request head and the text of a response: the theorems hold for every grammar over the lines read, and a response is its kind (whole, cut in the head, cut in the body).
- Deadlines of reads: the model allows any number of poll slices, and an interruption, a stop or a lasting failure at any point, so what the clock adds is not stated.
- Wire.Socket.Fill: a socket that failed fails for good. A reset socket reports its error once and then the end of the stream, and some errors pass; what a reader does with bytes or an end after an error other than an interruption is not stated.
- Connection.Request.PublicBody: the permits around it are modelled in Permits, so the busy answer and a server that stops while it waits are not part of it.
- In-process requests with a buffered body, HEAD requests, `Expect: 100-continue` beyond its failure, and the acceptor with its limit per peer.
- Ciphers, hashes and entropy: a sealed value is an ideal box, digests do not collide and random identifiers are new.
- Processes that keep an older key ring loaded while the key file is rotated, sealed values across a crash (Sealing has none), and permissions and links of the key file.
- LogPoll.NoLostWakeup: for pollers that hold a frontier; what those that hold none can miss is stated by LogPoll.MissesUnreadIffNothingHeld and LogPoll.MissesUnlessTold. One attempt and one poller, whose read sees everything shown past its cursor; paging, the step filter and frames that fill holes are not modelled.
- Wrap-around of the change generation after 2^64 bumps and of failure counts past 2^63.
- LoginGuard.DrivenMatches: the pair's checks and failures alternate; the routes call the guard around a password check that is not modelled; a pair is identified by client and account, hash collisions aside.
- The hand-off queue and rate limits of the GitHub sign-in, which repeat simpler forms of the pending links.
- `Outbound`, a counter with a compare-exchange loop, and the other limits that are constants compared once: they would add easy members.
- Reaper: output pumps, the drain deadline, process groups (a signal goes to the group that the step's identifier names), signals to all processes and a poisoned lock.
- Transfers.Put: the archive is any reader of the stream; unpacking and paths are not modelled.
- SimFleet's audit log and its deliberate defects, transports without a node key, and `RealFleet`.
- `placement`, the full sorted list of free workers: Place states the head of that order.
- Rounding of floating-point speeds, samples and counters: they are real numbers.
- SQL-backed routes, authorization, the web interface, metrics and deployment.
