/**
  `download_file`: the local file name taken from the URL and the streamed, chunk by
  chunk write of the response body into that file. The HTTP response becomes an
  input and the file system a map from names to contents.
 */
module Download {
  import opened Wrappers
  import opened Strings

  newtype byte = x: int | 0 <= x < 256

  /** What `requests.get(url, stream=True)` gives back. */
  datatype Response =
    | ConnectionFailed    // requests raises before any status arrives
    | Response(
        status: int,              // the final status, after redirects
        chunks: seq<seq<byte>>,   // what `iter_content(chunk_size=8192)` yields, in order
        breaksOff: bool)          // the stream raises once those chunks are through

  /** `raise_for_status()` raises for client and server errors. */
  predicate IsErrorStatus(status: int) {
    400 <= status < 600
  }

  /** The longest file name, in bytes, that Linux file systems such as ext4, xfs, btrfs and tmpfs accept. */
  const NameMax: nat := 255

  /** The number of bytes c takes in UTF-8, the encoding Python gives file names on Linux. */
  function Utf8Width(c: char): (w: nat)
    ensures 1 <= w <= 4
  {
    if c < '\U{80}' then 1 else if c < '\U{800}' then 2 else if c < '\U{10000}' then 3 else 4
  }

  /** The length in bytes of the encoded name. */
  function Utf8Size(name: string): (n: nat)
    ensures |name| <= n <= 4 * |name|
  {
    if name == [] then 0 else Utf8Size(name[..|name| - 1]) + Utf8Width(name[|name| - 1])
  }

  /**
    The names `open(name, 'wb')` rejects whatever the directory holds: the empty name
    (a URL ending in '/'), the directory entries "." and "..", names holding NUL, and
    names longer than NameMax bytes (ENAMETOOLONG).
   */
  predicate CanOpen(name: string) {
    name != "" && name != "." && name != ".." && '\0' !in name && Utf8Size(name) <= NameMax
  }

  /** The chunks of a stream joined in order. */
  function Concat(chunks: seq<seq<byte>>): seq<byte> {
    if chunks == [] then [] else Concat(chunks[..|chunks| - 1]) + chunks[|chunks| - 1]
  }

  /** Concatenating two runs of chunks is concatenating their joins. */
  lemma {:induction false} ConcatAppend(a: seq<seq<byte>>, b: seq<seq<byte>>)
    ensures Concat(a + b) == Concat(a) + Concat(b)
    decreases |b|
  {
    if b == [] {
      assert a + b == a;
    } else {
      var init := b[..|b| - 1];
      assert (a + b)[..|a + b| - 1] == a + init;
      assert (a + b)[|a + b| - 1] == b[|b| - 1];
      ConcatAppend(a, init);
    }
  }

  /** The size of the file is the sum of the chunk sizes. */
  function TotalSize(chunks: seq<seq<byte>>): nat {
    if chunks == [] then 0 else TotalSize(chunks[..|chunks| - 1]) + |chunks[|chunks| - 1]|
  }

  lemma {:induction false} ConcatSize(chunks: seq<seq<byte>>)
    ensures |Concat(chunks)| == TotalSize(chunks)
  {
    if chunks != [] {
      ConcatSize(chunks[..|chunks| - 1]);
    }
  }

  /** Every byte of the file is a byte of some chunk, at its place in the stream. */
  lemma {:induction false} ConcatAt(chunks: seq<seq<byte>>, i: nat, k: nat)
    requires i < |chunks| && k < |chunks[i]|
    ensures |Concat(chunks[..i])| + k < |Concat(chunks)|
    ensures Concat(chunks)[|Concat(chunks[..i])| + k] == chunks[i][k]
  {
    assert chunks == chunks[..i] + [chunks[i]] + chunks[i + 1..];
    ConcatAppend(chunks[..i] + [chunks[i]], chunks[i + 1..]);
    ConcatAppend(chunks[..i], [chunks[i]]);
    assert [chunks[i]][..0] == [];
    assert Concat([chunks[i]]) == [] + chunks[i];
  }

  /** The local files, by name. */
  class Disk {
    var files: map<string, seq<byte>>

    constructor (files: map<string, seq<byte>>)
      ensures this.files == files
    {
      this.files := files;
    }

    /** `open(name, 'wb')`: creates the file or truncates it. */
    method Create(name: string)
      requires CanOpen(name)
      modifies this
      ensures files == old(files)[name := []]
    {
      files := files[name := []];
    }

    /** `f.write(chunk)` on a file opened for writing. */
    method Write(name: string, chunk: seq<byte>)
      requires name in files
      modifies this
      ensures files == old(files)[name := old(files)[name] + chunk]
    {
      files := files[name := files[name] + chunk];
    }
  }

  /** The request gets a body that is written out in full. */
  predicate Succeeds(url: string, resp: Response) {
    Writes(url, resp) && !resp.breaksOff
  }

  /** The local file gets created, whether or not the stream then completes. */
  predicate Writes(url: string, resp: Response) {
    resp.Response? && !IsErrorStatus(resp.status) && CanOpen(LastSegment(url))
  }

  /** A URL whose last segment is longer than NameMax characters never gets a file, whatever the server answers. */
  lemma LongNameRejected(prefix: string, name: string, resp: Response)
    requires '/' !in name && |name| > NameMax
    ensures !Writes(prefix + "/" + name, resp) && !Succeeds(prefix + "/" + name, resp)
  {
    LastSegmentAfterSlash(prefix, name);
  }

  /** The `for chunk in r.iter_content(...)` loop: each chunk is written to the open file in turn. */
  method WriteChunks(disk: Disk, name: string, chunks: seq<seq<byte>>)
    requires name in disk.files && disk.files[name] == []
    modifies disk
    ensures disk.files == old(disk.files)[name := Concat(chunks)]
  {
    var i := 0;
    while i < |chunks|
      invariant 0 <= i <= |chunks|
      invariant disk.files == old(disk.files)[name := Concat(chunks[..i])]
    {
      assert chunks[..i + 1][..i] == chunks[..i];
      disk.Write(name, chunks[i]);
      i := i + 1;
    }
    assert chunks[..i] == chunks;
  }

  /**
    `download_file(url)`: the name is the URL's last '/'-separated segment; on success
    that file holds the stream's chunks in order and the name is returned, on any
    failure None. A stream that breaks off leaves the bytes already written.
   */
  method DownloadFile(disk: Disk, url: string, resp: Response) returns (path: Option<string>)
    modifies disk
    ensures path == if Succeeds(url, resp) then Some(LastSegment(url)) else None
    ensures disk.files ==
      if Writes(url, resp) then old(disk.files)[LastSegment(url) := Concat(resp.chunks)] else old(disk.files)
  {
    var localFilename := LastSegment(url);
    if !Writes(url, resp) {
      return None;
    }
    disk.Create(localFilename);
    WriteChunks(disk, localFilename, resp.chunks);
    if resp.breaksOff {
      return None;
    }
    path := Some(localFilename);
  }
}
