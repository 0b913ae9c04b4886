/**
 * pkg/imgpool/util/util.go: OpenImage, which opens an input file and
 * hands it to an image only when its size is within a limit. The file
 * system is a parameter: the result of os.Open and of the file's Stat.
 */
module ImgUtil {
  import opened Base

  /** DEFAULT_MAX_IMG_SIZE: 50 MiB. */
  const DefaultMaxImgSize: int64 := 1024 * 1024 * 50

  /** An *os.File; only whether it is still open matters here. */
  class File {
    const name: string
    var isOpen: bool

    constructor (name: string)
      ensures this.name == name && isOpen
    {
      this.name := name;
      isOpen := true;
    }

    method Close()
      modifies this
      ensures !isOpen
    {
      isOpen := false;
    }
  }

  /** The *imgpool.Image that OpenImage fills in: a name and a reader. */
  class ImageSlot {
    var name: string
    var img: Option<File>

    constructor ()
      ensures name == "" && img == None
    {
      name := "";
      img := None;
    }
  }

  /**
   * The error OpenImage returns, given the error of os.Open (if any) and
   * the outcome of Stat (the file's size or an error).
   */
  function OpenError(name: string, limit: int64, openErr: Option<Error>, stat: Result<int64, Error>): (r: Option<Error>)
    ensures openErr.Some? ==> r == Some(Wrapped("openImage: unable to open file", openErr.value))
    ensures openErr.None? && stat.Failure? ==> r == Some(Wrapped("openImage: unable to fstat file", stat.error))
    ensures openErr.None? && stat.Success? ==>
      (r.None? <==> stat.value <= limit)
    ensures openErr.None? && stat.Success? && r.Some? ==>
      r.value == Wrapped("openImage", SizeLimitExceeded(name, stat.value, limit))
  {
    if openErr.Some? then Some(Wrapped("openImage: unable to open file", openErr.value))
    else if stat.Failure? then Some(Wrapped("openImage: unable to fstat file", stat.error))
    else if stat.value > limit then Some(Wrapped("openImage", SizeLimitExceeded(name, stat.value, limit)))
    else None
  }

  /**
   * OpenImage succeeds only for a file that opened, whose size is known and
   * at most the limit; the size-limit error it raises itself carries the
   * path, the actual size and the limit, and the actual size is then above
   * the limit.
   */
  lemma OpenSucceedsWithinLimit(name: string, limit: int64, openErr: Option<Error>, stat: Result<int64, Error>)
    ensures OpenError(name, limit, openErr, stat).None? <==>
      openErr.None? && stat.Success? && stat.value <= limit
    ensures match OpenError(name, limit, openErr, stat)
      case Some(Wrapped(prefix, SizeLimitExceeded(path, actual, needed))) =>
        prefix == "openImage" ==> path == name && needed == limit && actual > needed
      case _ => true
  {
  }

  /**
   * OpenImage(name, limit, out): `openResult` is what os.Open gave, `stat` what
   * Stat gave. On success the open file and the name go into `out`; on any
   * later failure the file is closed again and `out` is left alone.
   */
  method OpenImage(name: string, limit: int64, out: ImageSlot, openResult: Result<File, Error>, stat: Result<int64, Error>)
    returns (err: Option<Error>)
    requires openResult.Success? ==> openResult.value.isOpen && openResult.value.name == name
    modifies out, if openResult.Success? then {openResult.value} else {}
    ensures err == OpenError(name, limit, if openResult.Failure? then Some(openResult.error) else None, stat)
    ensures err.None? ==> openResult.Success? && out.img == Some(openResult.value) && out.name == name
    ensures err.Some? ==> out.img == old(out.img) && out.name == old(out.name)
    ensures openResult.Success? ==> (openResult.value.isOpen <==> err.None?)
  {
    if openResult.Failure? {
      return Some(Wrapped("openImage: unable to open file", openResult.error));
    }
    var f := openResult.value;
    if stat.Failure? {
      f.Close();
      return Some(Wrapped("openImage: unable to fstat file", stat.error));
    }
    if stat.value > limit {
      f.Close();
      return Some(Wrapped("openImage", SizeLimitExceeded(name, stat.value, limit)));
    }
    out.img := Some(f);
    out.name := name;
    err := None;
  }
}
