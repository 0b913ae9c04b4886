/**
 * imgcollector.go: the in-memory collector. Each image gets a session
 * with its own byte buffer; Commit stores the buffer under the image's
 * name in a collection shared by all sessions; Close and Abort do nothing.
 *
 * Beside the class, `Step` and `Replay` give the effect of a log of writer
 * calls on a session and its collection, so that what `ImgPool.Process`
 * does to a writer can be followed into the collection.
 */
module MemoryCollector {
  import opened Base
  import opened ImgPool

  /** The sync.Map of committed results, name to bytes. */
  class Collection {
    var entries: map<string, Bytes>

    constructor ()
      ensures entries == map[]
    {
      entries := map[];
    }
  }

  /** A session's buffer together with the collection it commits into. */
  datatype MemoryState = MemoryState(buf: Bytes, entries: map<string, Bytes>)

  /** The effect of one writer call on the memory session named `name`. */
  function Step(name: string, call: Call, s: MemoryState): (r: MemoryState)
    ensures call.WriteCall? ==> r == s.(buf := s.buf + call.p)
    ensures call.CommitCall? ==> r.buf == s.buf && r.entries.Keys == s.entries.Keys + {name}
    ensures call.CommitCall? ==> r.entries[name] == s.buf
    ensures call.CommitCall? ==> forall k :: k in s.entries && k != name ==> r.entries[k] == s.entries[k]
    ensures call.CloseCall? || call.AbortCall? ==> r == s
  {
    match call
    case WriteCall(p) => s.(buf := s.buf + p)
    case CommitCall => s.(entries := s.entries[name := s.buf])
    case CloseCall => s
    case AbortCall => s
  }

  /**
   * The effect of a log of writer calls, oldest first: entries are never
   * removed, and without a Commit the collection is left as it was.
   */
  function Replay(name: string, calls: seq<Call>, s: MemoryState): (r: MemoryState)
    ensures s.entries.Keys <= r.entries.Keys
    ensures CommitCall !in calls ==> r.entries == s.entries
    decreases |calls|
  {
    if calls == [] then s else Replay(name, calls[1..], Step(name, calls[0], s))
  }

  /** All chunks written, in order. */
  function Concat(chunks: seq<Bytes>): (r: Bytes)
    decreases |chunks|
  {
    if chunks == [] then [] else chunks[0] + Concat(chunks[1..])
  }

  lemma {:induction false} ReplayAppend(name: string, a: seq<Call>, b: seq<Call>, s: MemoryState)
    ensures Replay(name, a + b, s) == Replay(name, b, Replay(name, a, s))
    decreases |a|
  {
    if a == [] {
      assert a + b == b;
    } else {
      assert (a + b)[1..] == a[1..] + b;
      ReplayAppend(name, a[1..], b, Step(name, a[0], s));
    }
  }

  /** Writes only append to the buffer, never touch the collection. */
  lemma {:induction false} ReplayWrites(name: string, chunks: seq<Bytes>, s: MemoryState)
    ensures Replay(name, Writes(chunks), s) == MemoryState(s.buf + Concat(chunks), s.entries)
    decreases |chunks|
  {
    if chunks == [] {
      assert s.buf + [] == s.buf;
    } else {
      assert Writes(chunks)[1..] == Writes(chunks[1..]);
      ReplayWrites(name, chunks[1..], Step(name, WriteCall(chunks[0]), s));
      assert s.buf + chunks[0] + Concat(chunks[1..]) == s.buf + Concat(chunks);
    }
  }

  /**
   * The pipeline over a fresh memory session: the collection gains
   * `name` mapped to everything the processor wrote exactly when the
   * processor succeeded, and is left as it was when it failed.
   */
  lemma CommitsExactlyProcessedOutput(name: string, run: ProcessorRun, entries: map<string, Bytes>)
    ensures Replay(name, Calls(run), MemoryState([], entries)).entries ==
      if run.result.None? then entries[name := Concat(run.writes)] else entries
  {
    var s0 := MemoryState([], entries);
    var last := if run.result.None? then CommitCall else AbortCall;
    assert Calls(run) == Writes(run.writes) + [last, CloseCall];
    ReplayAppend(name, Writes(run.writes), [last, CloseCall], s0);
    ReplayWrites(name, run.writes, s0);
    assert [] + Concat(run.writes) == Concat(run.writes);
    var s1 := MemoryState(Concat(run.writes), entries);
    assert [last, CloseCall][1..] == [CloseCall] && [CloseCall][1..] == [];
    assert Replay(name, [last, CloseCall], s1) == Step(name, CloseCall, Step(name, last, s1));
  }

  /** MemoryImgCollectorWriter */
  class MemoryWriter {
    var buf: Bytes
    const collection: Collection
    const name: string

    /** The session as a value: its buffer and the shared collection. */
    function State(): MemoryState
      reads this, collection
    {
      MemoryState(buf, collection.entries)
    }

    constructor (collection: Collection, name: string)
      ensures buf == [] && this.collection == collection && this.name == name
    {
      buf := [];
      this.collection := collection;
      this.name := name;
    }

    /** Write(p): appends p to the buffer and reports len(p) with no error. */
    method Write(p: Bytes) returns (n: nat, err: Option<Error>)
      modifies this
      ensures buf == old(buf) + p && n == |p| && err == None
      ensures State() == Step(name, WriteCall(p), old(State()))
    {
      buf := buf + p;
      n, err := |p|, None;
    }

    /** Close(): returns nil and changes nothing. */
    method Close() returns (err: Option<Error>)
      ensures err == None
      ensures State() == Step(name, CloseCall, State())
    {
      err := None;
    }

    /** Commit(): stores name -> buffer in the collection and returns nil. */
    method Commit() returns (err: Option<Error>)
      modifies collection
      ensures collection.entries == old(collection.entries)[name := buf] && err == None
      ensures State() == Step(name, CommitCall, old(State()))
    {
      collection.entries := collection.entries[name := buf];
      err := None;
    }

    /** Abort(): returns nil and changes nothing. */
    method Abort() returns (err: Option<Error>)
      ensures err == None
      ensures State() == Step(name, AbortCall, State())
    {
      err := None;
    }
  }

  /**
   * MemoryImgCollector(collection)(ctx, img): never fails, and gives a new
   * session with an empty buffer named after the image.
   */
  method MemoryImgCollector(collection: Collection, img: Image) returns (w: MemoryWriter, err: Option<Error>)
    ensures fresh(w) && err == None
    ensures w.buf == [] && w.collection == collection && w.name == img.name
  {
    w := new MemoryWriter(collection, img.name);
    err := None;
  }
}
