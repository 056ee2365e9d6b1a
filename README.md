# fetch_to_mem, modelled in Dafny

`fetch_to_mem` (src/s3.rs:42-106) downloads a list of objects from an
S3 bucket into one contiguous memory region. Object `c` owns the
CHUNK_SIZE bytes starting at `c * CHUNK_SIZE`. Each object is split into
`CHUNK_SIZE / PART_SIZE` parts. Each part is fetched by its own task,
using a ranged GET whose `Range` header is `bytes=S-E` (section 14.1.2
of RFC 9110). The task writes the body straight into the part's slice
of the region.

At most MAX_CONCURRENT_REQUESTS tasks are in flight. Their join handles
sit in a FIFO together with a counter. When the window is full, the
oldest handle is awaited before the next task is spawned. At the end the
remaining handles are awaited in order. The first failure awaited ends
the run.

The model has six modules:

- `Wrappers` holds `Option` and `Result`.
- `RangeHeader` renders and parses the `bytes=S-E` header.
- `Layout` holds the three constants as a `Config`, instantiated at
  `Deployed` = (1 << 30, 50 << 20, 256). It also holds each part's
  destination slice ("window"), its byte range, and the plan: the parts
  in spawn order.
- `ObjectStore` is a stand-in for the bucket. A `Store` value maps keys
  to contents. For each object it can also record, per request start
  offset, that the transfer of that request's body breaks after some
  number of bytes. Distinct parts of an object send distinct requests and are thus affected each on its own. Its
  `BodyReader` class plays the async body reader, which may hand over any
  non-empty prefix of what is asked for.
- `Fetch` models one task: the request, then the `bytes_read` loop.
- `Scheduler` models `fetch_to_mem` itself: the two nested `for` loops,
  the handle queue and counter, and the final drain. They work on an
  `array<bv8>` region.

Tasks run to completion when they are spawned, and a handle is the
task's result. Windows of distinct parts are disjoint, so the order of
the writes cannot change what the region ends up holding.

The parts of an object do not tile its CHUNK_SIZE bytes. The code takes
`CHUNK_SIZE / PART_SIZE` = 20 parts of 50 MiB, which is 1000 MiB. The
last 24 MiB of every chunk is never requested and never written (`Layout.DeployedLayout`, `Layout.ChunkCoverage`,
`Scheduler.TailUntouched`).

## Model

| member | source | states |
|---|---|---|
| RangeHeader.Decimal | src/s3.rs:76-78 | `{}` writes a `usize` as a non-empty run of digits with no leading zero |
| RangeHeader.ValueOfDecimal | src/s3.rs:75-79 | reading back the decimal text that `format!` writes for `n` gives `n` |
| RangeHeader.ParseRender | src/s3.rs:75-79 | the header `bytes=S-E` parses back to the range it was made from exactly when `S <= E`; otherwise it does not parse |
| RangeHeader.Render | src/s3.rs:75-79 | the `format!("bytes={}-{}", S, E)` text; its meaning is stated by `RangeHeader.ParseRender` |
| Layout.PartsPerChunk | src/s3.rs:52 | the part count `k` is the integer quotient: `k * PART_SIZE <= CHUNK_SIZE < (k + 1) * PART_SIZE` |
| Layout.DeployedLayout | src/s3.rs:6-8 | the deployed constants are valid and give 20 parts per object, which cover 1000 MiB and leave 24 MiB of each chunk uncovered |
| Layout.WindowStart | src/s3.rs:58 | the offset `chunk_idx * CHUNK_SIZE + part_idx * PART_SIZE` handed to `mem_ptr.add`; its placement is stated by `Layout.WindowInChunk`, `Layout.WindowsDisjoint` and `Layout.RangeMatchesWindow` |
| Layout.WindowInChunk | src/s3.rs:56-60 | the window `[c*CHUNK_SIZE + p*PART_SIZE, +PART_SIZE)` of a part with `p < k` lies inside object `c`'s chunk |
| Layout.WindowInRegion | src/s3.rs:56-60 | every planned window lies inside a region of `chunks.len() * CHUNK_SIZE` bytes |
| Layout.WindowsDisjoint | src/s3.rs:56-61 | two parts' windows share no byte exactly when the parts differ |
| Layout.ChunkCoverage | src/s3.rs:52-60 | an offset in object `c`'s chunk lies in some part's window exactly when it is below `k * PART_SIZE` |
| Layout.OffsetCoverage | src/s3.rs:52-59 | every offset below `k * PART_SIZE` lies in the span of some part `p < k` |
| Layout.RangeOf | src/s3.rs:75-79 | part `p`'s range is non-empty and holds exactly PART_SIZE bytes (`E - S + 1 == PART_SIZE`) |
| Layout.RangeMatchesWindow | src/s3.rs:58-79 | the range bounds shifted by `c*CHUNK_SIZE` are the window's bounds: `S` is the window offset within the chunk, and `E + 1` is its end |
| Layout.Plan | src/s3.rs:51-52 | every part the two loops produce is in the plan: chunk below `chunks.len()`, part below `k` |
| Layout.PlanOrdered | src/s3.rs:51-52 | the parts are produced in chunk-major order with ascending part index, so strictly increasing |
| Layout.PlanComplete | src/s3.rs:51-52 | a part is produced exactly when it is in the plan |
| Layout.PlanLength | src/s3.rs:51-52 | the loops produce `chunks.len() * k` parts |
| Layout.PlanPrefix | src/s3.rs:51-52 | the parts of the first `c` objects come first, before everything else |
| Layout.PlanStep | src/s3.rs:51-52 | part `p` of object `c` is task number `|Plan(c)| + p` |
| Layout.PasteExtend | src/s3.rs:87-91 | writing `w` and then `v` right after it equals writing `w + v` |
| ObjectStore.RenderedRangeServed | src/s3.rs:71-81 | the request carrying the header rendered from a valid range is served as that very range, for every store and key |
| ObjectStore.BodyReader.Read | src/s3.rs:87 | `read(&mut slice[lo..hi])` returns some `n <= hi - lo`, writes only `dst[lo..lo+n]` with the next body bytes, returns 0 only for an empty destination or at a clean end, and fails, writing nothing, only at a broken end |
| Fetch.PartBytes | src/s3.rs:70-92 | the bytes a task writes number at most PART_SIZE and are the object's bytes starting at the part's first offset |
| Fetch.PartOutcome | src/s3.rs:70-94 | a task succeeds only for an existing key and a part starting inside the object; a `ConnectionReset` fails the task only when its slice was left short; a successful short slice reaches the object's end |
| Fetch.FullPartArrives | src/s3.rs:70-94 | a part whose bytes all exist, and whose request does not break before PART_SIZE bytes, succeeds and writes exactly those bytes |
| Fetch.EarlyEndIsNotAnError | src/s3.rs:85-94 | an object that ends inside the part, and whose request does not break before that end, gives a task that succeeds with fewer than PART_SIZE bytes written |
| Fetch.ResetInsidePartFails | src/s3.rs:87 | a transfer that breaks after `n` bytes, inside the part, fails with `ConnectionReset` after writing exactly those `n` bytes |
| Fetch.PartsIndependent | src/s3.rs:70-94 | a part's outcome and bytes depend only on the object's content and on its own request, not on how other parts' requests go |
| Fetch.OnlyTheBrokenPartFails | src/s3.rs:70-94 | an example: with the request for part 0 broken, part 0 fails while part 1 of the same object succeeds |
| Fetch.RequestErrors | src/s3.rs:80-81 | a missing key, or a part past the object's end, fails with that error and writes nothing |
| Fetch.FetchPart | src/s3.rs:70-95 | the task returns `PartOutcome` and the region changes only by `PartBytes` pasted at the window start |
| Fetch.ReadBody | src/s3.rs:85-94 | the loop terminates with `bytes_read <= PART_SIZE`; it writes only inside `buf[start .. start + PART_SIZE]`, pasting exactly the body's first `min(len, PART_SIZE)` bytes; a short body ends with `Ok`, and a broken one with `Err` unless the slice filled first |
| Scheduler.OutcomesDescribed | src/s3.rs:70-96 | `OutcomesAre` holds of exactly one sequence: the tasks' outcomes in plan order |
| Scheduler.FirstFailure | src/s3.rs:101-103 | the queue position of the first failure: every earlier outcome is `Ok` and the one there is `Err`, or there is none |
| Scheduler.Verdict | src/s3.rs:63-105 | the run is `Ok` exactly when every outcome is, and otherwise is an error preceded only by successes |
| Scheduler.AdmittedCount | src/s3.rs:63-70 | every task is spawned if none fails; otherwise the failing task is among those spawned. The exact count `min(j + MAX, N)` for a first failure at `j` is the definition, and `Scheduler.StopsAt` ties it to the run |
| Scheduler.AwaitedCount | src/s3.rs:63-103 | handles are awaited up to and including the first failure, and all of them when none fails |
| Scheduler.StopsAt | src/s3.rs:64-68 | awaiting a failure at queue position `e`, after successes only, returns it. Then `e + 1` handles were awaited and `min(e + MAX, N)` tasks spawned |
| Scheduler.Resumed | src/s3.rs:100-103 | once the first `e` handles have succeeded, the run's result and count of awaits come from the rest of the queue |
| Scheduler.RunsThrough | src/s3.rs:100-105 | with no failure the run is `Ok`, and every handle is spawned and awaited |
| Scheduler.Pushed | src/s3.rs:70 | pushing task `t`'s handle extends the queue `rs[e..t]` to `rs[e..t+1]` |
| Scheduler.Popped | src/s3.rs:65 | `handles.remove(0)` takes the oldest handle, `rs[e]`, and leaves `rs[e+1..t]` |
| Scheduler.Passed | src/s3.rs:66 | a successful await moves the first possible failure past it |
| Scheduler.Applied | src/s3.rs:56-95 | the region after the first `n` tasks of the plan, each pasting its bytes at its window start; what it holds is stated by `Scheduler.AppliedOutside` and `Scheduler.AppliedInside` |
| Scheduler.PlanDisjoint | src/s3.rs:56-61 | tasks at distinct plan positions have disjoint windows |
| Scheduler.AppliedOutside | src/s3.rs:56-61 | a byte outside the windows of the first `n` tasks keeps its value |
| Scheduler.AppliedInside | src/s3.rs:56-92 | a byte in task `i`'s window holds what task `i` wrote there, or its old value past the end of a short body, whatever the other tasks do |
| Scheduler.HealthyPart | src/s3.rs:70-95 | against a store holding every object in full, whose requests never break before PART_SIZE bytes, each task succeeds and delivers its PART_SIZE bytes of the object |
| Scheduler.HealthyRun | src/s3.rs:42-106 | against such a store every task is spawned and awaited, and the run returns `Ok(())` |
| Scheduler.HealthyCovered | src/s3.rs:51-95 | after such a run, byte `d` of part `p`'s window holds byte `p * PART_SIZE + d` of object `c` |
| Scheduler.Uncovered | src/s3.rs:52-61 | no window holds an offset of a chunk's uncovered tail |
| Scheduler.TailUntouched | src/s3.rs:52-61 | the last `CHUNK_SIZE - k * PART_SIZE` bytes of each chunk keep their value |
| Scheduler.Window | src/s3.rs:48-96 | the loop invariant of the handle queue: `handles` holds the outcomes of the tasks spawned but not awaited, in spawn order, no failure has been awaited yet, and `active_handles == handles.len() == min(t, MAX)` |
| Scheduler.FetchToMem | src/s3.rs:42-106 | the run returns the first failure in queue order, or `Ok` when there is none. It spawns the first `AdmittedCount` tasks of the plan in order and awaits the first `AwaitedCount` handles. The region holds exactly those tasks' writes. The window bound is kept via `Window` (`active_handles == handles.len() == min(t, MAX)`) |
| Scheduler.SpawnObject | src/s3.rs:52-97 | the inner loop for one object either admits all `k` of its parts, keeping the window invariant, or stops at the run's first failure with the counts `FetchToMem` states |
| Scheduler.Admit | src/s3.rs:63-96 | one pass of the inner loop. A full window first awaits its oldest handle; a failure there ends the run with nothing more written. Otherwise the task is spawned and pushed, and the counter goes up |
| Scheduler.AwaitOldest | src/s3.rs:64-68 | the awaited handle is `rs[e]`, the queue keeps `rs[e+1..t]`, and a failure is the run's verdict |
| Scheduler.SpawnTask | src/s3.rs:53-95 | the task for part `p` of object `c` writes at offset `c*CHUNK_SIZE + p*PART_SIZE`, and its handle is outcome `rs[t]` |
| Scheduler.AwaitAll | src/s3.rs:100-103 | the drain returns the first failure of the remaining handles, or `Ok`, and awaits up to and including that failure |

## Left out

- `list_objects` (src/s3.rs:10-41) is network pagination through the AWS SDK. It is not part of this model.
- The AWS SDK call chain `get_object().bucket().key().range().send()` is a stand-in, `ObjectStore.GetObject`, over a `Store` value. The bucket name and the client are not modelled.
- ObjectStore.Serve, ObjectStore.GetObject and ObjectStore.BodyFor are the store behaviour the model assumes, not code of the repository. A header that parses is served as its range; one that does not is `MalformedRange`. A missing key is `NoSuchKey`. A range starting at or past the object's end is `RangeNotSatisfiable`. Otherwise the body is the requested bytes that exist, cut at the request's break, and then marked broken.
- ObjectStore.BodyReader.Read: how many bytes one read hands over is left open (any non-empty prefix of the request). The concrete reader hands over at most the store's `frame` bytes, but no property depends on that.
- A key listed twice in `chunks` gets the same outcome and bytes for both copies of each part, because a break is recorded per key and range start, not per request sent. src/main.rs:20-26 passes the distinct keys `list_objects` returns.
- `ValidConfig` requires MAX_CONCURRENT_REQUESTS > 0. With 0, the source would call `handles.remove(0)` on an empty `Vec` and panic (src/s3.rs:64-65). The deployed value is 256, so that panic is not modelled.
- `RangeNotSatisfiable` and `MalformedRange` stand for what the store answers. Every other transport failure is folded into `ConnectionReset`.
- A tokio task's join error and its inner error (`??`) are one `FetchError`.
- Tasks are not concurrent. Each one runs to completion when it is spawned. Tasks still running in the background after `fetch_to_mem` returns early are not modelled.
- Writes through `mem_ptr.add` / `from_raw_parts_mut` are index ranges of one `array<bv8>`, not pointers. The model does not express Rust's aliasing rules beyond the disjointness of windows.
- `usize` overflow of `chunk_idx * CHUNK_SIZE + part_idx * PART_SIZE` is not modelled, because integers are unbounded here. With 50 objects the largest offset is below 2^36.
- src/main.rs is not part of this model: the driver, timing and reporting, the anonymous mmap and its zero-fill. Its buffer size `N_OBJECTS * (1 << 30)` (src/main.rs:29) becomes `FetchToMem`'s requirement that the region hold `chunks.len() * CHUNK_SIZE` bytes.
- Scheduler.FetchToMem: the outcomes are stated through `OutcomesAre`, which `Scheduler.OutcomesDescribed` ties to `Scheduler.Outcomes`. The spawn and await orders are stated by counts over the plan and the queue, not as separate logs.
