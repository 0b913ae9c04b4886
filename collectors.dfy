/**
 * pkg/imgpool/collectors/memory.go: the same in-memory writer as
 * imgcollector.go (Write, Close, Commit and Abort are line for line the
 * same, so `MemoryCollector.MemoryWriter` serves for both); only the
 * factory differs, taking the session's name directly instead of an image.
 */
module Collectors {
  import opened Base
  import opened MemoryCollector
  import ImgPool

  /**
   * MemoryImgCollector(collection)(ctx, name): never fails, and gives a new
   * session with an empty buffer under `name`, committing into `collection`.
   */
  method MemoryImgCollector(collection: Collection, name: string) returns (w: MemoryWriter, err: Option<Error>)
    ensures fresh(w) && err == None
    ensures w.buf == [] && w.collection == collection && w.name == name
  {
    w := new MemoryWriter(collection, name);
    err := None;
  }

  /**
   * Two sessions committing under the same name: the later commit
   * replaces the earlier entry, and every other entry is kept.
   */
  lemma LaterCommitWins(name: string, first: Bytes, second: Bytes, entries: map<string, Bytes>)
    ensures var s1 := Step(name, ImgPool.CommitCall, MemoryState(first, entries));
      var s2 := Step(name, ImgPool.CommitCall, MemoryState(second, s1.entries));
      && s2.entries[name] == second
      && s2.entries.Keys == entries.Keys + {name}
      && forall k :: k in entries && k != name ==> s2.entries[k] == entries[k]
  {
  }
}
