# Batching buffer of a log-shipping relay, in Dafny

This project models the in-memory batching buffer of a relay that tails local
log sources and ships the lines to an HTTP log collector. The buffer comes in
two variants:

- the **tagged buffer** (`buffer/buffer.go`): records are a payload and a name,
  kept in two parallel slices `data` and `names` with an append cursor `ref`.
  A flush groups the pending records by name, joins each group's payloads with
  one newline, makes one upload per name, and drops the flushed prefix only if
  every upload succeeded;
- the **untagged buffer** (`filestream/main.go`): one slice of lines. A flush
  joins all pending lines with newlines, makes one send, and drops the flushed
  prefix if that send succeeded.

Both are Dafny classes whose fields are the Go struct's fields (`seq` for the
slices, `nat` for the cursor and the chunk size). `Add`, `Send` and the steps
of `Send` are methods with `modifies this`. `Pending()` is the abstract view:
the records in the populated prefix, oldest first. The grouping loop and the
upload loop of the tagged `Send` are separate methods. Each is proved against a
specification function (`Packets`, `LastError`), and lemmas state the
properties of those functions.

The uploader and the send function are injected as pure functions from the
request to nil-or-error. The tagged `Send` returns the log of calls it made
(name, body and answer) so that the per-name properties can be stated. Locks
are left out. The interleaving they allow is modelled without threads:
`SendWithArrivals` takes a snapshot, lets producers append any sequence of
records, uploads, then commits or leaves the buffer alone. Its contract shows
that records appended during a flush survive it, in order.

The upload primitive (`upload/upload.go`) is modelled only at its boundary:
which request it would build, and when an answer counts as success.

Go slices alias their backing array, and the model's snapshot is a copy. The
difference cannot be observed: between the snapshot and the commit, `Add` only
writes at indices `>= ref`, and `ref` is at least the snapshot's length.

Files: `wrappers.dfy` (Option, Error), `bytes.dfy` (newline join and split),
`tagged_buffer.dfy`, `filestream.dfy`, `filestream_tests.dfy` (the buffer test
of the file relay), `upload.dfy`.

Behaviour of the code that is easy to get wrong:

- The uploader skips only a **nil** payload, not an empty one. `bytes.Join` of
  no lines is an empty non-nil slice. So the untagged `Send` on an empty buffer
  still calls its send function once, and the real sender then posts an empty
  body (`Upload.EmptyBodyIsPosted`). The tagged `Send` on an empty buffer makes
  no calls, because there are no groups.
- The name header is set whenever a name argument is passed, even an empty one.
  The tagged buffer always passes the group's name, so the untagged group `""`
  is posted with an empty `X-Sumo-Name` header.
- The error returned is the last failing one in map-iteration order, which Go
  leaves unspecified. The model picks each next name arbitrarily. It states
  that the error is the last failure in the call log, which makes it one of
  the failing calls' errors.

## Model

| member | source | states |
|---|---|---|
| `Bytes.JoinLength` | filestream/main.go:83 | a joined body holds every payload byte plus exactly one newline per gap between records, with none after the last |
| `Bytes.JoinSnoc` | buffer/buffer.go:56-60 | joining one more payload onto a joined packet appends one newline and that payload, so the incremental join builds the same packet as joining the whole group at once |
| `Bytes.SplitJoin` | filestream/main.go:83 | for newline-free lines, splitting the joined body at newlines gives back exactly the original lines, in order |
| `Bytes.JoinSplit` | filestream/main.go:83 | joining the lines of any byte string with newlines gives back that byte string |
| `TaggedBuffer.GroupAppend` | buffer/buffer.go:55-61 | a name's group for a concatenation of batches is the group for the earlier batch followed by the group for the later one, so arrival order is kept within each name |
| `TaggedBuffer.GroupNonEmpty` | buffer/buffer.go:55-61 | a name has a non-empty group exactly when some record in the batch carries that name |
| `TaggedBuffer.GroupMembers` | buffer/buffer.go:55-61 | a payload is in a name's group exactly when a record with that payload and that name is in the batch |
| `TaggedBuffer.PacketsSnoc` | buffer/buffer.go:55-61 | one more record changes only its own name's packet: it joins that packet with a newline if the name was already seen, and otherwise the payload itself becomes the packet |
| `TaggedBuffer.SingleNamePackets` | buffer/buffer.go:53-61 | a non-empty batch under one name gives exactly one packet, which is the newline join of all payloads in order (as the untagged buffer sends) |
| `TaggedBuffer.GroupingExample` | buffer/buffer.go:53-61 | names A, A, B with payloads "1", "2", "3" give exactly two packets: "1\n2" for A and "3" for B |
| `TaggedBuffer.LastErrorIsAFailure` | buffer/buffer.go:63-68 | the reported error is nil exactly when every call succeeded; otherwise it is the error of one of the calls |
| `TaggedBuffer.BuildPackets` | buffer/buffer.go:53-61 | the grouping loop over the snapshot slices returns, for every name in the snapshot and no other, that name's payloads in arrival order joined by single newlines |
| `TaggedBuffer.UploadAll` | buffer/buffer.go:63-68 | the upload loop calls the uploader exactly once per packet, with that packet's name and body; the set of names called equals the set of packet names; the result is the last failure in the call log, and nil exactly when every packet's upload succeeded |
| `TaggedBuffer.Buffer.constructor` | buffer/buffer.go:24-30 | a new buffer has `size` empty slots in both slices, cursor 0 and nothing pending |
| `TaggedBuffer.Buffer.Add` | buffer/buffer.go:33-43 | grows both slices by exactly `size` slots only when the cursor has reached the end; writes the record at the cursor in both slices and keeps every earlier slot; advances the cursor by one; the pending records become the old ones plus the new record; the cursor stays within the storage and the two slices keep equal lengths |
| `TaggedBuffer.Buffer.Snapshot` | buffer/buffer.go:48-51 | the snapshot is the first `ref` entries of both slices, which are exactly the pending records |
| `TaggedBuffer.Buffer.Commit` | buffer/buffer.go:69-76 | drops exactly the first `k` entries of both slices and lowers the cursor by `k`; the pending records become the old ones without their first `k` |
| `TaggedBuffer.Buffer.Send` | buffer/buffer.go:47-79 | one call per distinct pending name, carrying that name's packet; the names called are exactly the pending names; on an empty buffer it makes no calls, returns nil and the cursor stays 0; if every call succeeded, the snapshotted prefix is removed from both slices and the cursor drops to 0; if any call failed, `data`, `names` and `ref` are unchanged, even for groups already delivered |
| `TaggedBuffer.Buffer.SendWithArrivals` | buffer/buffer.go:47-79 | with producers appending any records between the snapshot and the commit: the uploads cover exactly the snapshot, and on success only the records appended since the snapshot remain, in order; on failure the snapshot and the new records all remain, in order |
| `FileStream.Buffer.constructor` | filestream/main.go:59-63 | a new buffer has `chunk` empty slots, cursor 0 and nothing pending |
| `FileStream.Buffer.Default` | filestream/main.go:58-63 | the relay's own buffer starts with 4096 (the default `bSize`) empty slots, cursor 0 and nothing pending |
| `FileStream.Buffer.Add` | filestream/main.go:66-74 | grows storage by exactly `chunk` slots only when the cursor has reached the end; writes the line at the cursor and keeps every earlier slot; advances the cursor by one; the pending lines become the old ones plus the new line |
| `FileStream.Buffer.Snapshot` | filestream/main.go:79-81 | the snapshot is exactly the pending lines |
| `FileStream.Buffer.Commit` | filestream/main.go:85-91 | drops exactly the first `k` slots and lowers the cursor by `k`; the pending lines lose their first `k` |
| `FileStream.Buffer.Send` | filestream/main.go:78-94 | the send function is called once, with the newline join of all pending lines, and its answer is returned; on success the flushed prefix is removed and the cursor drops to 0; on failure storage and cursor are unchanged |
| `FileStream.Buffer.SendWithArrivals` | filestream/main.go:78-94 | lines appended between the snapshot and the drop survive a successful send, in order; after a failed send every line remains |
| `FileStreamTests.NumbersLength` | filestream/main_test.go:21-24 | the decimals of 0 .. n-1 have n digits in all up to 10, then two more per number up to 100, then three more per number |
| `FileStreamTests.Body128` | filestream/main_test.go:21-29 | the flush body for the numbers 0 .. 127 is 401 bytes long and splits back into those 128 lines |
| `FileStreamTests.AddNumbers` | filestream/main_test.go:21-24 | adding the 128 numbers to an empty buffer with chunk 8 leaves them pending in order, with exactly 128 slots of storage |
| `FileStreamTests.TestBuffer` | filestream/main_test.go:14-46 | the first flush sends 401 bytes, succeeds and leaves zero slots; after 128 more adds, a failing flush sends 401 bytes, returns the error and leaves all 128 slots |
| `Upload.BuildRequest` | upload/upload.go:31-72 | a nil payload builds no request; otherwise the request carries the payload, uses gzip exactly when the payload is longer than 131072 bytes, and carries the name header exactly when a name is passed |
| `Upload.Deliver` | upload/upload.go:31-84 | a nil payload succeeds without contacting the collector; otherwise the call succeeds exactly when the transport returns status 200 |
| `Upload.ThresholdBoundary` | upload/upload.go:12-45 | a payload of exactly 131072 bytes goes out uncompressed and one of 131073 bytes goes out compressed |
| `Upload.EmptyBodyIsPosted` | upload/upload.go:33-35 | an empty non-nil payload is not skipped: it is posted uncompressed and succeeds exactly when the collector answers 200 |

## Left out

- Locking: the mutex and real concurrency are not modelled. Each `Add` is one atomic step. The snapshot/commit interleaving is modelled by `SendWithArrivals`.
- The 64-bit range of Go's `int` cursor: the model's cursor and lengths are unbounded.
- `NewBuffer` with a size of zero or less: `make` panics on a negative size, and with size 0 the first `Add` grows by nothing and then writes out of range. Both constructors require a positive size.
- `bSize` in `filestream/main.go` is a package variable that `Add` reads on each call. The model fixes it per buffer at construction (`chunk`), which is how the test and `main` use it.
- Nil and empty payloads are not told apart inside the buffers, and `Upload` alone models the nil case. Two cases differ in the source:
  - In the tagged buffer, a nil payload added on its own makes a one-record group nil, and the uploader skips it.
  - In the untagged buffer, `bytes.Join` of exactly one empty line returns nil, because its one-element case copies that line onto a nil slice. So flushing a single blank line skips the POST and reports success. A flush of no lines posts an empty body instead. The model's `Join` gives the empty sequence in both cases and cannot tell them apart.
- The uploader is a deterministic function of the call within one flush. A different uploader can be passed to each flush.
- `Upload.Deliver`: weaker than the source. It does not model gzip itself, the write-size check after compressing or copying, or `http.NewRequest` errors. Each of these makes the real call fail.
- The uploader creates its request with `http.NewRequest` on a still-empty byte buffer and writes the payload into it afterwards. The model assumes the payload written after `NewRequest` is the body that is posted. Whether it is depends on how the Go runtime's `NewRequest` fixes the content length of an empty body.
- The compressed body bytes and the `Content-Encoding` header are represented only by the `Gzip` encoding flag.
- `journalstream/main.go`: the system-journal watcher is an I/O adapter that calls `Add`. It is not part of this model.
- `filestream/main.go` `watchFile`, `sender` and `main`: file tailing, flag parsing and the sleep-driven flush loop are I/O and wiring.
- `filestream/main_test.go` `TestBufferRace` and `TestWatchFile`: they test thread interleaving and file I/O. `TestWatchFile` also calls a `watchFile` signature that the source does not have.
