# Image pool, modelled in Dafny

A model of the image-processing pool of `comparch-lab-2mod-3`, written in Go.
An `ImagePool` runs a queue of images (`Image{Name, Img}`) through a fixed
number of workers (`pool.QPool`). For each image a worker:

1. asks a *collector* factory for an `ImageWriter` session;
2. runs a *processor* that reads the image and writes the result into the session;
3. calls `Abort` if the processor failed and `Commit` if it succeeded;
4. always calls `Close`;
5. hands any error, wrapped as `imagepool: ...`, to an optional error collector.

The model also covers these parts of the repository:

- the two pool implementations, `pool/qpool.go` and `pool/pool.go`;
- the in-memory collector, which commits each session's bytes into a shared map;
- the colour-inverting processor, with its nested pixel loop and cancellation check;
- `encodeImage`'s choice of format;
- `OpenImage`, which opens an input file only when its size is within a limit;
- `ListFilesWithExts`, which picks the input files out of a directory listing.

Layout, one module per Go file:

| file | module | Go source |
|---|---|---|
| base.dfy | `Base` | shared `Option`, `Result`, Go integer widths, the errors and `errors.Join` |
| pool.dfy | `Pool` | pool/qpool.go (`QPool`), pool/pool.go (`Pool`) |
| imgpool.dfy | `ImgPool` | imgpool.go |
| imgcollector.dfy | `MemoryCollector` | imgcollector.go |
| collectors.dfy | `Collectors` | pkg/imgpool/collectors/memory.go |
| imgprocess.dfy | `InvertProcessor` | imgprocess.go |
| processors.dfy | `Processors` | pkg/imgpool/processors/invert.go |
| util.dfy | `Util` | util/util.go |
| imgutil.dfy | `ImgUtil` | pkg/imgpool/util/util.go |

How the model handles what cannot be expressed directly:

- **Pools.** Each pool is a class whose buffered channel is a `seq` bounded by
  the capacity. Its context and the closed channel are flags. A send that
  would block reports `WouldBlock` and changes nothing.
- **Workers.** A worker's receive is the step `QPool.WorkerStep`. The routine
  calls are recorded in a dispatch log.
- **Go's `select`.** When both cases of `select` are ready, Go picks one at
  random. The model takes that choice as a parameter (`sendWins`).
- **Plug-ins.** Processors, collectors and the file system are parameters.
  A processor is given by the chunks it writes and the error it returns
  (`ProcessorRun`). A factory is given by the writer it hands out or its
  error. A listing or file open is given by its result.
- **Writers.** A `Writer` logs every call it receives. So the contracts can
  state which calls `process` makes and in what order.
- **Cancellation during inversion.** An oracle `cancelAt` stands for it: the
  check made after the n-th pixel sees the context cancelled exactly when
  `cancelAt == Some(c)` and n >= c.
- **Integers.** Go's `uint32` subtraction wraps and the conversion to
  `uint8` truncates. Both are written out as `%` operations.

## Model

| member | source | states |
|---|---|---|
| Base.Join | imgpool.go:74 | `errors.Join(a, b)` is nil exactly when both are nil; otherwise it holds the non-nil ones, in order |
| Pool.Tasks | pool/qpool.go:31-32 | the tasks of a dispatch log, one per dispatch, in order |
| Pool.Ids | pool/qpool.go:26-27 | the spawning loop hands out ids 0..n-1, the k-th worker getting id k |
| Pool.DrainLog | pool/qpool.go:31-32 | draining a queue dispatches exactly its tasks, in queue order, each to its scheduled worker under a cancelled context |
| Pool.TasksAppend | pool/qpool.go:31-32 | one more dispatch adds its task at the end of the dispatched tasks |
| Pool.QPool.constructor | pool/qpool.go:19-38 | a new QPool has an empty channel of capacity `workers` and workers 0..workers-1; it is not cancelled or closed and has dispatched nothing |
| Pool.QPool.WorkerStep | pool/qpool.go:31-32 | a worker receives the oldest queued task, if any, and calls the routine on it with the pool's context; the accepted-tasks accounting is kept |
| Pool.QPool.Push | pool/qpool.go:40-50 | the task is enqueued exactly when the channel is open, not full, and either the context is not done or the send case wins the select; a done context that wins gives `context.Canceled`; a full channel on a live context blocks; a send on the closed channel panics; nothing else changes |
| Pool.QPool.Stop | pool/qpool.go:52-59 | the first Stop cancels, closes and lets the workers drain the queue, so every task ever accepted has been dispatched exactly once, in order; later calls change nothing |
| Pool.Pool.constructor | pool/pool.go:24-48 | a new Pool has an empty channel of capacity `workers` and workers 0..workers-1, and is not closing |
| Pool.Pool.Push | pool/pool.go:50-57 | while not closing the task is enqueued, or the call blocks on a full channel; once closing it returns `ErrPoolIsClosing` and enqueues nothing; it never panics in a sequential run |
| Pool.Pool.Stop | pool/pool.go:59-66 | only the call that flips `closing` closes the channel and cancels; the pool then stays closing, closed and cancelled |
| ImgPool.WithThreadId | imgpool.go:51 | the routine's context carries the worker's index and keeps its cancellation |
| ImgPool.Writes | imgpool.go:72 | the processor's writes are one Write call per chunk, in order |
| ImgPool.ProcessError | imgpool.go:66-81 | `process` returns nil exactly when the factory, the processor and Commit all succeed; otherwise the factory's error wrapped as "error during initializing collector", or the processor's error joined with Abort's as "image processing fail", or Commit's error as "image saving fail" |
| ImgPool.Calls | imgpool.go:71-78 | on an acquired writer `process` makes one Write per chunk in order, then Commit on success or Abort on failure, then Close as the last call |
| ImgPool.WritesHaveNoControlCalls | imgpool.go:72 | a processor's writes contain no Commit, Abort or Close |
| ImgPool.ProtocolOfCalls | imgpool.go:71-78 | on an acquired writer: the writes come first, then exactly one of Commit and Abort, Commit exactly when the processor succeeded, then exactly one Close, which is the last call |
| ImgPool.Writer.Write | imgpool.go:29-33 | an ImageWriter's Write is logged and gives its fixed result |
| ImgPool.Writer.Close | imgpool.go:29-33 | an ImageWriter's Close is logged and gives its fixed result |
| ImgPool.Writer.Commit | imgpool.go:29-33 | an ImageWriter's Commit is logged and gives its fixed result |
| ImgPool.Writer.Abort | imgpool.go:29-33 | an ImageWriter's Abort is logged and gives its fixed result |
| ImgPool.FactoryError | imgpool.go:67-70 | the factory's error is present exactly when the factory failed |
| ImgPool.RunProcessor | imgpool.go:72 | the processor's Write calls reach the writer, in order |
| ImgPool.Process | imgpool.go:66-81 | on an acquired writer, `process` makes exactly the calls of `Calls(run)` (see ProtocolOfCalls); its error is `ProcessError` of the outcomes; a failing factory gives its wrapped error and no writer is touched |
| ImgPool.Reports | imgpool.go:53-55 | the routine reports at most one record: exactly when `process` failed, with the thread-tagged context, the image and the error wrapped as "imagepool" |
| ImgPool.ErrorLog.Collect | imgpool.go:27 | an error collector receives (ctx, image, error) |
| ImgPool.ImagePool.constructor | imgpool.go:45-59 | NewImagePool makes a fresh QPool of `workers` workers and no error collector |
| ImgPool.ImagePool.WithErrorCollector | imgpool.go:61-64 | the error collector is replaced and the same pool is returned |
| ImgPool.ImagePool.Routine | imgpool.go:50-56 | the routine processes the image on the worker-tagged context and appends to the error collector exactly the records `Reports` gives |
| ImgPool.ImagePool.Push | imgpool.go:83-85 | Push returns QPool.Push's result: the image is enqueued and accepted exactly when QPool.Push admits it; a done context that wins gives `context.Canceled`; a full channel on a live context blocks; a send on the closed channel panics; the dispatch log and the flags stay the same |
| MemoryCollector.Step | imgcollector.go:16-32 | a Write appends to the session's buffer; a Commit stores the buffer under the session's name and keeps every other entry; Close and Abort change nothing |
| MemoryCollector.Replay | imgcollector.go:16-32 | the effect of a log of writer calls on a session: entries are never removed, and without a Commit the collection is unchanged |
| MemoryCollector.ReplayAppend | imgcollector.go:16-32 | replaying two call logs one after the other is replaying their concatenation |
| MemoryCollector.ReplayWrites | imgcollector.go:16-18 | writes only append to the buffer and never touch the collection |
| MemoryCollector.CommitsExactlyProcessedOutput | imgcollector.go:16-32 | `process` over a fresh memory session leaves the collection with the image's name mapped to everything the processor wrote when it succeeded, and unchanged when it failed |
| MemoryCollector.Collection.constructor | imgcollector.go:12 | the shared collection starts empty |
| MemoryCollector.MemoryWriter.Write | imgcollector.go:16-18 | appends p to the buffer and reports len(p) with no error |
| MemoryCollector.MemoryWriter.Close | imgcollector.go:20-22 | returns nil and changes nothing |
| MemoryCollector.MemoryWriter.Commit | imgcollector.go:24-28 | stores name -> buffer in the collection and returns nil |
| MemoryCollector.MemoryWriter.Abort | imgcollector.go:30-32 | returns nil and changes nothing |
| MemoryCollector.MemoryImgCollector | imgcollector.go:34-44 | never fails, and gives a new session with an empty buffer named after the image, committing into the given collection |
| Collectors.MemoryImgCollector | pkg/imgpool/collectors/memory.go:36-46 | never fails, and gives a new session with an empty buffer under the given name, committing into the given collection |
| Collectors.LaterCommitWins | pkg/imgpool/collectors/memory.go:26-30 | of two sessions that commit under the same name, the later one's bytes are kept, and every other entry stays as it was |
| InvertProcessor.InvertChannel | imgprocess.go:58-60 | the uint32 wrap of 255 - c/256 never shows in the uint8 result, which is (255 - c/256) mod 256; for a 16-bit value nothing wraps and the result is 255 - c/256 |
| InvertProcessor.AlphaChannel | imgprocess.go:61 | for a 16-bit value nothing is truncated: the result is a/256 |
| InvertProcessor.InvertColor | imgprocess.go:56-62 | for the 16-bit values Color.RGBA() gives, each colour channel becomes 255 - c/256 and alpha becomes a/256 |
| InvertProcessor.InvertWidenedChannel | imgprocess.go:58 | an 8-bit value v, widened to 16 bits as v * 0x101, inverts to 255 - v |
| InvertProcessor.InvertTwice | imgprocess.go:58-60 | inverting an 8-bit channel twice gives it back |
| InvertProcessor.RowMajorOrder | imgprocess.go:54-55 | the nested loop visits (row, column) pairs in the order of their row-major index |
| InvertProcessor.RowStartArea | imgprocess.go:54-55 | the rows of the image together hold width x height pixels |
| InvertProcessor.RowStartGap | imgprocess.go:54-55 | a later row starts at least a whole row after an earlier one |
| InvertProcessor.RowMajorNext | imgprocess.go:55-57 | visiting (row, col) adds exactly that pixel to the visited prefix |
| InvertProcessor.RowMajorBelowArea | imgprocess.go:54-55 | every pixel's row-major index is below the image's area |
| InvertProcessor.InvertRow | imgprocess.go:55-66 | one row of the loop: the pixels visited so far hold their inverted colour and the rest are zero; it stops exactly at the first check that sees the cancellation, or after the row's last pixel |
| InvertProcessor.PixelsWritten | imgprocess.go:54-67 | the loop sets at most every pixel; when it is cancelled it stops at the first check that sees the cancellation, otherwise no check saw it |
| InvertProcessor.InvertPixels | imgprocess.go:52-67 | the result has the input's size; it fails with `context.Canceled` exactly when some check sees the cancelled context; the first pixels in row-major order hold the inverted colour, the rest stay zero; so without cancellation every pixel is inverted |
| InvertProcessor.EncoderFor | imgprocess.go:19-30 | "png" picks PNG, "jpeg" picks JPEG at quality 90, and every other format panics with "invertImage: unknown format: " and the name |
| InvertProcessor.InvertImageProcessor | imgprocess.go:32-73 | a decode error is returned as it is; a cancelled context returns its error; otherwise the fully inverted image, with the input's bounds, goes to the encoder for the decoded format |
| Processors.InvertImageProcessor | pkg/imgpool/processors/invert.go:14-56 | the same as InvertProcessor.InvertImageProcessor, with the inverted image and the decoded format name handed to EncodeImage |
| Util.Ext | util/util.go:25 | the extension is empty or starts at the last '.' of the last path element and runs to its end |
| Util.ExtEmptyOnlyWithoutDot | util/util.go:25 | the extension is empty only when the last path element has no '.': every '.' is followed by a '/' |
| Util.Join | util/util.go:26 | the joined path ends with the name and, for a non-empty dir, is dir, '/', name |
| Util.Filter | util/util.go:21-28 | the loop's paths: at most one per entry, however often an extension is repeated, and none when there are no extensions (membership in FilterMembers, order in FilterAppend) |
| Util.FilterAppend | util/util.go:21-28 | filtering a listing goes entry by entry, so the paths follow the listing's order |
| Util.FilterKeepsEntry | util/util.go:21-28 | every entry that is not a directory and whose extension is listed gives its joined path |
| Util.FilterSource | util/util.go:21-28 | every path returned comes from such an entry, and the lemma names one |
| Util.FilterMembers | util/util.go:21-28 | a path is returned exactly when some entry that is not a directory and whose extension is listed joins to it |
| Util.ExtSet | util/util.go:11-14 | the extension map holds true exactly for the listed extensions |
| Util.ListFilesWithExts | util/util.go:8-31 | a listing error is returned with a nil list; otherwise the result is the filtered listing (see FilterMembers, FilterAppend) |
| ImgUtil.OpenError | pkg/imgpool/util/util.go:24-47 | an open error is wrapped as "openImage: unable to open file"; a Stat error as "openImage: unable to fstat file"; otherwise the result is nil exactly when the size is within the limit, and a size-limit error otherwise |
| ImgUtil.OpenSucceedsWithinLimit | pkg/imgpool/util/util.go:34-41 | OpenImage succeeds exactly for a file that opened, whose size is known and at most the limit; its size-limit error carries the path, the size and the limit, and the size then exceeds the limit |
| ImgUtil.File.Close | pkg/imgpool/util/util.go:31 | a closed file is no longer open |
| ImgUtil.OpenImage | pkg/imgpool/util/util.go:24-47 | returns `OpenError` of the outcomes; on success the open file and the name go into the image; on a later failure the file is closed again and the image is left as it was |

## Left out

- Goroutines, channels and WaitGroups are not modelled as concurrent
  code. Each pool is a sequential state machine, and `pushWg`, `wg` and
  `sync.Once` become plain steps of a single thread.
- Pool.QPool.Push: the model assumes no Push is in flight while Stop runs.
  So the race between Stop's `close` and a concurrent send is not
  modelled. Only a later Push can reach the closed channel.
- Pool.Pool.Stop: the whole worker loop of pool/pool.go (lines 36-43) is
  out of the model. `Pool` has no receive step, before the cancel or
  after it, so its queue only fills. In Go each worker chooses at random
  between a queued task and the done context, so tasks may be dropped
  after Stop. Stop's `ensures` therefore keeps only `tasks == old(tasks)`.
- Pool.Pool.Push: does not model the check-then-send race between
  `closing.Load()` and the send. A Push racing with Stop may panic on the
  closed channel.
- Pool.QPool.Stop: the order in which workers receive tasks is a parameter
  (`schedule`). The routine is recorded in the dispatch log, not run.
- QPool.PushContext and QPool.Wait are not in pool/qpool.go. So
  ImagePool.PushContext and ImagePool.Wait (imgpool.go:87-93) are not modelled.
- ImgPool.ImagePool.Routine is not wired into the QPool's dispatch.
  The routine is modelled on its own for one image, with the collector's
  and processor's outcomes as parameters.
- ImgPool.Process: a processor or writer that panics is not modelled.
  In Go the deferred Close (imgpool.go:71) still runs, and the panic then
  ends the program. encodeImage's unknown-format case (imgprocess.go:28,
  `InvertProcessor.EncoderFor`'s `UnknownFormat`) is such a panic.
- ImgPool.Process: a factory that returns a writer together with an error
  is not modelled; the factory's outcome is a writer or an error. In Go
  that writer is dropped without Close (imgpool.go:67-70).
- ImgPool.Writer: a writer's results for Write, Close, Commit and Abort
  are fixed when it is made. A plug-in whose results change from call to
  call is not covered.
- Worker counts are `nat`. A negative `workers` makes Go's `make` and
  `wg.Add` panic, and that is not modelled.
- Decoding (`image.Decode`) is a parameter. Encoding (`png.Encode`,
  `jpeg.Encode`, and EncodeImage in pkg/imgpool/processors/util.go) is not
  modelled: the processor's completion names the encoder and stops there.
- InvertProcessor.InvertPixels: a cancelled context is taken to report
  `context.Canceled`. A deadline's error is not modelled; the pool's own
  context only cancels.
- Logging (`slog`, `MakeDebugLoggerAttrs`) has no effect on results and
  is left out.
- The text of error messages (`Error()`, `fmt.Sprintf`) is not modelled.
  Errors are values that keep their wrapping prefixes and causes.
- MemoryCollector.MemoryWriter.Write: `bytes.Buffer`'s out-of-memory
  panic is not modelled.
- MemoryCollector.MemoryWriter.Commit: stores a copy of the buffer. In Go,
  `Bytes()` aliases the buffer, which no later write reaches in `process`.
- Util.Join: does not model the `Clean` normalisation of `filepath.Join`.
  The model puts a single '/' between dir and name and keeps dir as it
  is. So it differs from Go whenever Clean would change the joined path:
  Join(".", "a.png") is "./a.png" (Go: "a.png"), Join("/", "a.png") is
  "//a.png" (Go: "/a.png"), and a "./" prefix or a trailing '/' in dir is
  kept. The command-line default directory "./input" is such a case, so
  there every joined path differs from Go's by its leading "./".
- Util.Ext: uses '/' as the only path separator.
- OpenImage's caller-side `Image.Img` is an `*os.File`. Reads from it are
  not modelled.
- The command-line programs (main.go, cmd/lab/main.go) are not part of
  this model.
