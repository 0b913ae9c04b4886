/**
 * imgpool.go: the image pool that binds a processor and a collector into
 * the routine the QPool workers run for each image.
 *
 * The processor and the collector are plug-ins the pool cannot see into.
 * The collector's result is a parameter (a writer, or the error the factory
 * returned), and so is the processor's run: the chunks it writes into the
 * writer and the error it returns. A `Writer` logs every call it receives
 * and answers Commit, Abort and Close with results fixed when it is made,
 * so the contracts can say which calls `Process` makes, in which order,
 * and what it returns for every combination of outcomes.
 */
module ImgPool {
  import opened Base
  import Pool

  /** Image{Name, Img}: a named input stream. */
  datatype Image = Image(name: string, img: Bytes)

  /** The context a routine sees: whether the pool was cancelled, and the worker index attached to it. */
  datatype Ctx = Ctx(cancelled: bool, threadId: Option<int>)

  /** One call on an ImageWriter. */
  datatype Call = WriteCall(p: Bytes) | CloseCall | CommitCall | AbortCall

  /** What the processor does with the writer it is given: the chunks it writes, then the error it returns. */
  datatype ProcessorRun = ProcessorRun(writes: seq<Bytes>, result: Option<Error>)

  /** (ctx, image, error) as handed to an ImageErrorCollector. */
  datatype ErrorRecord = ErrorRecord(ctx: Ctx, image: Image, err: Error)

  /** context.WithValue(ctx, imgPoolThreadId, thread). */
  function WithThreadId(ctx: Ctx, thread: int): (r: Ctx)
    ensures r.threadId == Some(thread) && r.cancelled == ctx.cancelled
  {
    ctx.(threadId := Some(thread))
  }

  /** The Write calls a processor makes for its chunks. */
  function Writes(chunks: seq<Bytes>): (r: seq<Call>)
    ensures |r| == |chunks|
    ensures forall k :: 0 <= k < |chunks| ==> r[k] == WriteCall(chunks[k])
  {
    seq(|chunks|, k requires 0 <= k < |chunks| => WriteCall(chunks[k]))
  }

  /** The calls `process` makes on an acquired writer during one run of the processor. */
  function Calls(run: ProcessorRun): (r: seq<Call>)
    ensures |r| == |run.writes| + 2
    ensures forall k :: 0 <= k < |run.writes| ==> r[k] == WriteCall(run.writes[k])
    ensures r[|r| - 2] == (if run.result.None? then CommitCall else AbortCall)
    ensures r[|r| - 1] == CloseCall
  {
    Writes(run.writes) + (if run.result.None? then [CommitCall] else [AbortCall]) + [CloseCall]
  }

  /**
   * The error `process` returns, given the factory's error, the processor's
   * error and what Commit and Abort return.
   */
  function ProcessError(factoryErr: Option<Error>, runErr: Option<Error>,
                        commitErr: Option<Error>, abortErr: Option<Error>): (r: Option<Error>)
    ensures r.None? <==> factoryErr.None? && runErr.None? && commitErr.None?
    ensures factoryErr.Some? ==> r == Some(Wrapped("error during initializing collector", factoryErr.value))
    ensures factoryErr.None? && runErr.Some? ==>
      r == Some(Wrapped("image processing fail", Joined([runErr.value] + NonNil(abortErr))))
    ensures factoryErr.None? && runErr.None? && commitErr.Some? ==>
      r == Some(Wrapped("image saving fail", commitErr.value))
  {
    if factoryErr.Some? then Some(Wrapped("error during initializing collector", factoryErr.value))
    else if runErr.Some? then Some(Wrapped("image processing fail", Join(runErr, abortErr).value))
    else if commitErr.Some? then Some(Wrapped("image saving fail", commitErr.value))
    else None
  }

  /** How often `c` occurs in `calls`. */
  function Occurrences(calls: seq<Call>, c: Call): nat
  {
    if calls == [] then 0
    else Occurrences(calls[..|calls| - 1], c) + (if calls[|calls| - 1] == c then 1 else 0)
  }

  lemma {:induction false} OccurrencesAppend(a: seq<Call>, b: seq<Call>, c: Call)
    ensures Occurrences(a + b, c) == Occurrences(a, c) + Occurrences(b, c)
    decreases |b|
  {
    if b == [] {
      assert a + b == a;
    } else {
      assert (a + b)[..|a + b| - 1] == a + b[..|b| - 1];
      OccurrencesAppend(a, b[..|b| - 1], c);
    }
  }

  /** A processor's writes contain no Commit, Abort or Close. */
  lemma {:induction false} WritesHaveNoControlCalls(chunks: seq<Bytes>, c: Call)
    requires !c.WriteCall?
    ensures Occurrences(Writes(chunks), c) == 0
    decreases |chunks|
  {
    if chunks != [] {
      assert Writes(chunks)[..|chunks| - 1] == Writes(chunks[..|chunks| - 1]);
      WritesHaveNoControlCalls(chunks[..|chunks| - 1], c);
    }
  }

  /**
   * The writer protocol of `process`: once a writer is acquired, Close is
   * called exactly once and last, right after exactly one of Commit and
   * Abort, and Commit is called exactly when the processor succeeded.
   */
  lemma ProtocolOfCalls(run: ProcessorRun)
    ensures var calls := Calls(run);
      && |calls| == |run.writes| + 2
      && calls[..|run.writes|] == Writes(run.writes)
      && calls[|calls| - 1] == CloseCall
      && calls[|calls| - 2] == (if run.result.None? then CommitCall else AbortCall)
      && Occurrences(calls, CloseCall) == 1
      && Occurrences(calls, CommitCall) == (if run.result.None? then 1 else 0)
      && Occurrences(calls, AbortCall) == (if run.result.Some? then 1 else 0)
      && Occurrences(calls, CommitCall) + Occurrences(calls, AbortCall) == 1
  {
    var last := if run.result.None? then CommitCall else AbortCall;
    var end := [last, CloseCall];
    assert Calls(run) == Writes(run.writes) + end;
    assert end[..1] == [last] && [last][..0] == [];
    forall c: Call | !c.WriteCall?
      ensures Occurrences(Calls(run), c) == (if c == last then 1 else 0) + (if c == CloseCall then 1 else 0)
    {
      OccurrencesAppend(Writes(run.writes), end, c);
      WritesHaveNoControlCalls(run.writes, c);
    }
  }

  /** An ImageWriter whose Write, Close, Commit and Abort return fixed results. */
  class Writer {
    /** every call received so far, oldest first */
    var calls: seq<Call>
    const writeErr: Option<Error>
    const closeErr: Option<Error>
    const commitErr: Option<Error>
    const abortErr: Option<Error>

    constructor (writeErr: Option<Error>, closeErr: Option<Error>,
                 commitErr: Option<Error>, abortErr: Option<Error>)
      ensures calls == []
      ensures this.writeErr == writeErr && this.closeErr == closeErr
      ensures this.commitErr == commitErr && this.abortErr == abortErr
    {
      calls := [];
      this.writeErr, this.closeErr := writeErr, closeErr;
      this.commitErr, this.abortErr := commitErr, abortErr;
    }

    /** io.Writer.Write: reports len(p) unless it fails. */
    method Write(p: Bytes) returns (n: nat, err: Option<Error>)
      modifies this
      ensures calls == old(calls) + [WriteCall(p)]
      ensures err == writeErr && n == (if writeErr.None? then |p| else 0)
    {
      calls := calls + [WriteCall(p)];
      n, err := if writeErr.None? then |p| else 0, writeErr;
    }

    method Close() returns (err: Option<Error>)
      modifies this
      ensures calls == old(calls) + [CloseCall] && err == closeErr
    {
      calls := calls + [CloseCall];
      err := closeErr;
    }

    method Commit() returns (err: Option<Error>)
      modifies this
      ensures calls == old(calls) + [CommitCall] && err == commitErr
    {
      calls := calls + [CommitCall];
      err := commitErr;
    }

    method Abort() returns (err: Option<Error>)
      modifies this
      ensures calls == old(calls) + [AbortCall] && err == abortErr
    {
      calls := calls + [AbortCall];
      err := abortErr;
    }
  }

  /** The writer that a factory result hands over, if any. */
  function Session(acquired: Result<Writer, Error>): set<object>
  {
    if acquired.Success? then {acquired.value} else {}
  }

  /** The factory's error, if it failed. */
  function FactoryError(acquired: Result<Writer, Error>): (r: Option<Error>)
    ensures r.Some? <==> acquired.Failure?
  {
    if acquired.Failure? then Some(acquired.error) else None
  }

  /**
   * The processor writing its chunks into `w`, one Write call per chunk.
   * Errors from Write are the processor's business and end up in its
   * result, which is given.
   */
  method RunProcessor(w: Writer, run: ProcessorRun)
    modifies w
    ensures w.calls == old(w.calls) + Writes(run.writes)
  {
    var k := 0;
    while k < |run.writes|
      invariant 0 <= k <= |run.writes|
      invariant w.calls == old(w.calls) + Writes(run.writes[..k])
    {
      var _, _ := w.Write(run.writes[k]);
      assert Writes(run.writes[..k + 1]) == Writes(run.writes[..k]) + [WriteCall(run.writes[k])];
      k := k + 1;
    }
    assert run.writes[..k] == run.writes;
  }

  /**
   * ImagePool.process: acquire a writer, run the processor into it, then
   * Abort on failure or Commit on success, and Close it on the way out.
   */
  method Process(acquired: Result<Writer, Error>, run: ProcessorRun) returns (err: Option<Error>)
    modifies Session(acquired)
    ensures acquired.Success? ==> acquired.value.calls == old(acquired.value.calls) + Calls(run)
    ensures acquired.Success? ==>
      err == ProcessError(None, run.result, acquired.value.commitErr, acquired.value.abortErr)
    ensures acquired.Failure? ==> err == ProcessError(FactoryError(acquired), run.result, None, None)
  {
    if acquired.Failure? {
      return Some(Wrapped("error during initializing collector", acquired.error));
    }
    var buf := acquired.value;
    RunProcessor(buf, run);
    if run.result.Some? {
      var abortErr := buf.Abort();
      err := Some(Wrapped("image processing fail", Join(run.result, abortErr).value));
    } else {
      var commitErr := buf.Commit();
      if commitErr.Some? {
        err := Some(Wrapped("image saving fail", commitErr.value));
      } else {
        err := None;
      }
    }
    // defer buf.Close(): its error is dropped
    var _ := buf.Close();
  }

  /** An ImageErrorCollector that keeps what it is handed. */
  class ErrorLog {
    var records: seq<ErrorRecord>

    constructor ()
      ensures records == []
    {
      records := [];
    }

    method Collect(ctx: Ctx, image: Image, err: Error)
      modifies this
      ensures records == old(records) + [ErrorRecord(ctx, image, err)]
    {
      records := records + [ErrorRecord(ctx, image, err)];
    }
  }

  /** The records the routine reports for one image, given what `process` returned. */
  function Reports(ctx: Ctx, thread: int, input: Image, err: Option<Error>): (r: seq<ErrorRecord>)
    ensures |r| <= 1
    ensures r != [] <==> err.Some?
    ensures r != [] ==> r[0] == ErrorRecord(WithThreadId(ctx, thread), input, Wrapped("imagepool", err.value))
  {
    if err.Some? then [ErrorRecord(WithThreadId(ctx, thread), input, Wrapped("imagepool", err.value))] else []
  }

  class ImagePool {
    var qpool: Pool.QPool<Image>
    var errcollector: Option<ErrorLog>

    ghost predicate Valid()
      reads this, qpool
    {
      qpool.Valid()
    }

    /** The error collector's footprint, if one is set. */
    function Sink(): set<object>
      reads this
    {
      if errcollector.Some? then {errcollector.value} else {}
    }

    /** NewImagePool(workers, processor, collector): a QPool of `workers` workers, no error collector. */
    constructor (workers: nat)
      ensures Valid() && fresh(qpool)
      ensures qpool.workers == workers && qpool.workerIds == Pool.Ids(workers)
      ensures qpool.tasks == [] && qpool.dispatched == [] && !qpool.stopped
      ensures errcollector == None
    {
      qpool := new Pool.QPool(workers);
      errcollector := None;
    }

    /** WithErrorCollector(collector): replaces the error collector and returns the same pool. */
    method WithErrorCollector(collector: Option<ErrorLog>) returns (r: ImagePool)
      modifies this
      ensures r == this && errcollector == collector && qpool == old(qpool)
    {
      errcollector := collector;
      r := this;
    }

    /**
     * The routine NewImagePool hands to the QPool: attach the worker index
     * to the context, process the image, and report an error (wrapped as
     * "imagepool: ...") to the error collector if one is set.
     */
    method Routine(ctx: Ctx, thread: int, input: Image, acquired: Result<Writer, Error>, run: ProcessorRun)
      modifies Session(acquired), Sink()
      ensures acquired.Success? ==> acquired.value.calls == old(acquired.value.calls) + Calls(run)
      ensures errcollector.Some? ==>
        errcollector.value.records == old(errcollector.value.records) +
          Reports(ctx, thread, input,
            if acquired.Success?
            then ProcessError(None, run.result, acquired.value.commitErr, acquired.value.abortErr)
            else ProcessError(FactoryError(acquired), run.result, None, None))
    {
      var tctx := WithThreadId(ctx, thread);
      var err := Process(acquired, run);
      if err.Some? && errcollector.Some? {
        errcollector.value.Collect(tctx, input, Wrapped("imagepool", err.value));
      }
    }

    /** Push(img): delegates to the QPool. */
    method Push(img: Image, sendWins: bool) returns (r: Pool.PushResult)
      requires Valid()
      modifies qpool
      ensures Valid()
      ensures r.Pushed? <==> !old(qpool.closed) && |old(qpool.tasks)| < qpool.workers && (!old(qpool.cancelled) || sendWins)
      ensures r.Pushed? ==> qpool.tasks == old(qpool.tasks) + [img]
      ensures !r.Pushed? ==> qpool.tasks == old(qpool.tasks)
      ensures qpool.accepted == old(qpool.accepted) + (if r.Pushed? then [img] else [])
      ensures r.Rejected? ==> r.err == Canceled && old(qpool.cancelled)
      ensures r.WouldBlock? <==> !old(qpool.cancelled) && |old(qpool.tasks)| == qpool.workers
      ensures r.Panicked? <==> old(qpool.closed) && sendWins
      ensures qpool.dispatched == old(qpool.dispatched)
      ensures qpool.cancelled == old(qpool.cancelled) && qpool.closed == old(qpool.closed)
      ensures qpool.stopped == old(qpool.stopped)
    {
      r := qpool.Push(img, sendWins);
    }
  }
}
