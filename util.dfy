/**
 * util/util.go: ListFilesWithExts, the filter that picks the input images
 * out of a directory listing. The listing (os.ReadDir's entries or its
 * error) is a parameter.
 */
module Util {
  import opened Base

  /** One entry of os.ReadDir: its name and whether it is a directory. */
  datatype DirEntry = DirEntry(name: string, isDir: bool)

  /** `suffix` ends `s`. */
  predicate IsSuffix(suffix: string, s: string)
  {
    |suffix| <= |s| && s[|s| - |suffix|..] == suffix
  }

  /**
   * filepath.Ext: the part of the last path element from its last '.' on,
   * or "" when the last element has no '.'.
   */
  function Ext(path: string): (r: string)
    ensures r == "" || (r[0] == '.' && IsSuffix(r, path))
    ensures forall k :: 1 <= k < |r| ==> r[k] != '.' && r[k] != '/'
    decreases |path|
  {
    if path == [] then ""
    else
      var c := path[|path| - 1];
      if c == '/' then ""
      else if c == '.' then "."
      else
        var e := Ext(path[..|path| - 1]);
        if e == "" then "" else e + [c]
  }

  /**
   * Ext is empty only when the last path element has no '.': every '.' of
   * the path is followed by a '/' somewhere after it.
   */
  lemma {:induction false} ExtEmptyOnlyWithoutDot(path: string)
    ensures Ext(path) == "" ==>
      forall k :: 0 <= k < |path| && path[k] == '.' ==> exists m :: k < m < |path| && path[m] == '/'
    decreases |path|
  {
    if path != [] && Ext(path) == "" {
      var n := |path| - 1;
      var init := path[..n];
      if path[n] != '/' {
        assert path[n] != '.';
        assert Ext(init) == "";
        ExtEmptyOnlyWithoutDot(init);
        forall k | 0 <= k < |path| && path[k] == '.'
          ensures exists m :: k < m < |path| && path[m] == '/'
        {
          assert k < n && init[k] == '.';
          var m :| k < m < |init| && init[m] == '/';
          assert path[m] == '/';
        }
      } else {
        forall k | 0 <= k < |path| && path[k] == '.'
          ensures exists m :: k < m < |path| && path[m] == '/'
        {
          assert k < n && path[n] == '/';
        }
      }
    }
  }

  /**
   * filepath.Join(dir, name) for a file name without separators: the two
   * parts with one '/' between them, or the name alone for an empty dir.
   */
  function Join(dir: string, name: string): (r: string)
    ensures IsSuffix(name, r)
    ensures dir != "" ==> |r| == |dir| + 1 + |name| && r[..|dir|] == dir && r[|dir|] == '/'
  {
    if dir == "" then name else dir + "/" + name
  }

  /** Whether the loop keeps an entry: not a directory, and its extension is one of `exts`. */
  predicate Keeps(e: DirEntry, exts: seq<string>)
  {
    !e.isDir && Ext(e.name) in exts
  }

  /**
   * The paths ListFilesWithExts returns for a listing, in listing order:
   * at most one per entry, however often an extension is repeated, and
   * none at all when there are no extensions.
   */
  function Filter(dir: string, entries: seq<DirEntry>, exts: seq<string>): (r: seq<string>)
    ensures |r| <= |entries|
    ensures exts == [] ==> r == []
    decreases |entries|
  {
    if entries == [] then []
    else
      var e := entries[|entries| - 1];
      Filter(dir, entries[..|entries| - 1], exts) + (if Keeps(e, exts) then [Join(dir, e.name)] else [])
  }

  /** Filtering distributes over concatenated listings, so the output follows the listing's order. */
  lemma {:induction false} FilterAppend(dir: string, a: seq<DirEntry>, b: seq<DirEntry>, exts: seq<string>)
    ensures Filter(dir, a + b, exts) == Filter(dir, a, exts) + Filter(dir, b, exts)
    decreases |b|
  {
    if b == [] {
      assert a + b == a;
    } else {
      assert (a + b)[..|a + b| - 1] == a + b[..|b| - 1];
      FilterAppend(dir, a, b[..|b| - 1], exts);
    }
  }

  /** Entry `e` is kept and gives path `p`. */
  predicate Yields(dir: string, e: DirEntry, exts: seq<string>, p: string)
  {
    Keeps(e, exts) && p == Join(dir, e.name)
  }

  /** Every entry that is kept gives its joined path in the result. */
  lemma {:induction false} FilterKeepsEntry(dir: string, entries: seq<DirEntry>, exts: seq<string>, k: nat)
    requires k < |entries| && Keeps(entries[k], exts)
    ensures Join(dir, entries[k].name) in Filter(dir, entries, exts)
    decreases |entries|
  {
    var n := |entries| - 1;
    if k < n {
      var init := entries[..n];
      assert init[k] == entries[k];
      FilterKeepsEntry(dir, init, exts, k);
    }
  }

  /** Every path in the result comes from an entry that is kept: `k` is one. */
  lemma {:induction false} FilterSource(dir: string, entries: seq<DirEntry>, exts: seq<string>, p: string) returns (k: nat)
    requires p in Filter(dir, entries, exts)
    ensures k < |entries| && Yields(dir, entries[k], exts, p)
    decreases |entries|
  {
    var n := |entries| - 1;
    var init := entries[..n];
    var last := entries[n];
    var tail := if Keeps(last, exts) then [Join(dir, last.name)] else [];
    assert Filter(dir, entries, exts) == Filter(dir, init, exts) + tail;
    if p in Filter(dir, init, exts) {
      k := FilterSource(dir, init, exts, p);
      assert entries[k] == init[k];
    } else {
      assert p in tail;
      k := n;
    }
  }

  /**
   * A path is returned exactly when some entry that is not a directory and
   * whose extension is in `exts` joins to it.
   */
  lemma {:induction false} FilterMembers(dir: string, entries: seq<DirEntry>, exts: seq<string>, p: string)
    ensures p in Filter(dir, entries, exts) <==> exists k :: 0 <= k < |entries| && Yields(dir, entries[k], exts, p)
  {
    if p in Filter(dir, entries, exts) {
      var k := FilterSource(dir, entries, exts, p);
    }
    if k :| 0 <= k < |entries| && Yields(dir, entries[k], exts, p) {
      FilterKeepsEntry(dir, entries, exts, k);
    }
  }

  /** The first loop: extMap[e] = true for every e in exts. */
  method ExtSet(exts: seq<string>) returns (extMap: map<string, bool>)
    ensures forall e :: (e in extMap && extMap[e]) <==> e in exts
  {
    extMap := map[];
    for k := 0 to |exts|
      invariant forall e :: (e in extMap && extMap[e]) <==> e in exts[..k]
    {
      assert exts[..k + 1] == exts[..k] + [exts[k]];
      extMap := extMap[exts[k] := true];
    }
    assert exts[..|exts|] == exts;
  }

  /**
   * ListFilesWithExts(dir, exts): a listing error is returned with a nil
   * list; otherwise every entry that is not a directory and whose
   * extension is one of `exts` gives the path dir/name, in listing order.
   */
  method ListFilesWithExts(dir: string, exts: seq<string>, listing: Result<seq<DirEntry>, Error>)
    returns (files: seq<string>, err: Option<Error>)
    ensures listing.Failure? ==> files == [] && err == Some(listing.error)
    ensures listing.Success? ==> err == None && files == Filter(dir, listing.value, exts)
  {
    files := [];
    var extMap := ExtSet(exts);
    if listing.Failure? {
      return [], Some(listing.error);
    }
    var entries := listing.value;
    for k := 0 to |entries|
      invariant files == Filter(dir, entries[..k], exts)
    {
      var entry := entries[k];
      assert entries[..k + 1][..k] == entries[..k];
      if entry.isDir {
        continue;
      }
      if Ext(entry.name) in extMap && extMap[Ext(entry.name)] {
        files := files + [Join(dir, entry.name)];
      }
    }
    assert entries[..|entries|] == entries;
    err := None;
  }
}
