/**
  The chunk bookkeeping of `read_store_metadata` (flyhostel/quantification/imgstore.py):
  index file names built from or parsed into chunk numbers, and the frame numbers
  and times of all chunks flattened in order. Globbing and `np.load` are inputs:
  the globbed paths and a map from path to the arrays stored in that file.
 */
module ImgStore {
  import opened Wrappers
  import opened Strings
  import opened Decimal
  import opened Paths
  import opened Sorting

  const IndexFormat := ".npz"

  /** The two arrays of one chunk index file. */
  datatype ChunkIndex = ChunkIndex(frameNumber: seq<int>, frameTime: seq<int>)

  datatype StoreError =
    | BadChunkName(path: string)  // `int()` rejects the base name
    | MissingIndex(path: string)  // `np.load` finds no such file

  /** The chunk list stored in the metadata, and the flattened frame arrays. */
  datatype StoreMetadata = StoreMetadata(chunks: seq<int>, frameNumber: seq<int>, frameTime: seq<int>)

  /** The index file name of chunk `n`: the number padded to six digits, then `.npz`. */
  function ChunkFileName(n: int): string {
    ZFill(Str(n), 6) + IndexFormat
  }

  /** `int(os.path.basename(path.replace(".npz", "")))`. */
  function ChunkOfPath(path: string): (r: Option<int>)
    ensures !Contains(path, IndexFormat) ==> r == ParseInt(Basename(path))
  {
    if !Contains(path, IndexFormat) then
      ReplaceAbsent(path, IndexFormat, "");
      ParseInt(Basename(ReplaceAll(path, IndexFormat, "")))
    else ParseInt(Basename(ReplaceAll(path, IndexFormat, "")))
  }

  /** The chunk number is read back from the index file named after it, in any folder. */
  lemma ChunkRoundTrip(folder: string, n: int)
    ensures ChunkOfPath(IndexPath(folder, n)) == Some(n)
  {
    var digits := ZFill(Str(n), 6);
    var name := ChunkFileName(n);
    assert '.' !in digits && '/' !in digits by {
      var s := Str(n);
      assert forall i :: 0 <= i < |s| ==> IsDigit(s[i]) || s[i] == '-';
      if |s| < 6 && IsSign(s[0]) {
        assert digits == [s[0]] + Zeros(6 - |s|) + s[1..];
      }
    }
    ReplaceTrailing(digits, IndexFormat, "");
    assert ReplaceAll(name, IndexFormat, "") == digits;
    var p := PathJoin(folder, name);
    if folder == [] {
      assert p == name;
      BasenameNoSlash(digits);
    } else {
      var x := if folder[|folder| - 1] == '/' then folder[..|folder| - 1] else folder;
      assert p == x + "/" + name;
      ReplaceAround(x, '/', name, IndexFormat, "");
      BasenameAfterSlash(ReplaceAll(x, IndexFormat, ""), digits);
    }
    ParseZFillStr(n, 6);
  }

  /** A globbed `*.npz` name is read as the integer of its stem, whatever folder holds it. */
  lemma GlobbedChunkName(x: string, d: string)
    requires '/' !in d && '.' !in d
    ensures ChunkOfPath(x + "/" + d + IndexFormat) == ParseInt(d)
  {
    var name := d + IndexFormat;
    ReplaceTrailing(d, IndexFormat, "");
    assert d + "" == d;
    assert x + "/" + d + IndexFormat == x + ['/'] + name;
    ReplaceAround(x, '/', name, IndexFormat, "");
    BasenameAfterSlash(ReplaceAll(x, IndexFormat, ""), d);
  }

  /** Distinct chunk numbers name distinct index files. */
  lemma ChunkFileNameInjective(folder: string, a: int, b: int)
    requires a != b
    ensures IndexPath(folder, a) != IndexPath(folder, b)
  {
    ChunkRoundTrip(folder, a);
    ChunkRoundTrip(folder, b);
  }

  /** The chunk numbers of globbed index files; the first unreadable name raises. */
  function ParseChunks(files: seq<string>): (r: Result<seq<int>, StoreError>)
    ensures r.Success? <==> forall i :: 0 <= i < |files| ==> ChunkOfPath(files[i]).Some?
    ensures r.Success? ==> |r.value| == |files|
    ensures r.Success? ==> forall i :: 0 <= i < |files| ==> ChunkOfPath(files[i]) == Some(r.value[i])
  {
    if files == [] then Success([])
    else
      var c := ChunkOfPath(files[0]);
      if c.None? then Failure(BadChunkName(files[0]))
      else
        var rest := ParseChunks(files[1..]);
        if rest.Failure? then
          TailUnparsed(files);
          Failure(rest.error)
        else
          TailParsed(files, c.value, rest.value);
          Success([c.value] + rest.value)
  }

  /** A name of the tail that does not parse is a name of the whole list that does not parse. */
  lemma TailUnparsed(files: seq<string>)
    requires files != []
    requires !forall i :: 0 <= i < |files| - 1 ==> ChunkOfPath(files[1..][i]).Some?
    ensures !forall i :: 0 <= i < |files| ==> ChunkOfPath(files[i]).Some?
  {
    var i :| 0 <= i < |files| - 1 && ChunkOfPath(files[1..][i]).None?;
    assert files[1..][i] == files[i + 1];
  }

  /** The chunks of the first name and of the tail, put together, are the chunks of every name. */
  lemma TailParsed(files: seq<string>, c: int, rest: seq<int>)
    requires files != [] && ChunkOfPath(files[0]) == Some(c) && |rest| == |files| - 1
    requires forall i :: 0 <= i < |rest| ==> ChunkOfPath(files[1..][i]) == Some(rest[i])
    ensures forall i :: 0 <= i < |files| ==> ChunkOfPath(files[i]) == Some(([c] + rest)[i])
  {
    forall i | 0 < i < |files|
      ensures ChunkOfPath(files[i]) == Some(([c] + rest)[i])
    {
      assert files[i] == files[1..][i - 1];
    }
  }

  /** `os.path.join(folder, f"{str(n).zfill(6)}.npz")`. */
  function IndexPath(folder: string, n: int): string {
    PathJoin(folder, ChunkFileName(n))
  }

  /** The index files named after the given chunk numbers, in the given order. */
  function NamedIndexFiles(folder: string, chunks: seq<int>): (r: seq<string>)
    ensures |r| == |chunks|
    ensures forall i :: 0 <= i < |r| ==> r[i] == IndexPath(folder, chunks[i])
    ensures forall i :: 0 <= i < |r| ==> ChunkOfPath(r[i]) == Some(chunks[i])
  {
    NamedFilesParse(folder, chunks);
    seq(|chunks|, i requires 0 <= i < |chunks| => IndexPath(folder, chunks[i]))
  }

  lemma NamedFilesParse(folder: string, chunks: seq<int>)
    ensures forall i :: 0 <= i < |chunks| ==> ChunkOfPath(IndexPath(folder, chunks[i])) == Some(chunks[i])
  {
    forall i | 0 <= i < |chunks|
      ensures ChunkOfPath(IndexPath(folder, chunks[i])) == Some(chunks[i])
    {
      ChunkRoundTrip(folder, chunks[i]);
    }
  }

  /**
    The index files and chunk list: without chunk numbers, the globbed files in
    sorted order with the numbers parsed from their names; with chunk numbers,
    exactly those numbers and the files named after them.
   */
  function IndexFiles(folder: string, chunkNumbers: Option<seq<int>>, globbed: seq<string>)
    : (r: Result<(seq<string>, seq<int>), StoreError>)
    ensures chunkNumbers.Some? ==> r.Success? && r.value.1 == chunkNumbers.value
    ensures chunkNumbers.Some? ==> r.Success? && r.value.0 == NamedIndexFiles(folder, chunkNumbers.value)
    ensures chunkNumbers.None? ==> (r.Success? <==> forall f :: f in globbed ==> ChunkOfPath(f).Some?)
    ensures r.Success? ==> |r.value.0| == |r.value.1|
    ensures r.Success? ==> forall i :: 0 <= i < |r.value.0| ==> ChunkOfPath(r.value.0[i]) == Some(r.value.1[i])
    ensures r.Success? && chunkNumbers.None? ==>
      SortedBy(r.value.0, StrLe) && multiset(r.value.0) == multiset(globbed)
  {
    match chunkNumbers
    case Some(chunks) => Success((NamedIndexFiles(folder, chunks), chunks))
    case None =>
      StrLeTotal();
      var files := SortBy(globbed, StrLe);
      SameMembers(files, globbed);
      var chunks :- ParseChunks(files);
      Success((files, chunks))
  }

  /** Two sequences with the same multiset have the same members. */
  lemma SameMembers(xs: seq<string>, ys: seq<string>)
    requires multiset(xs) == multiset(ys)
    ensures forall f :: f in xs <==> f in ys
  {
    forall f
      ensures f in xs <==> f in ys
    {
      assert f in xs <==> f in multiset(xs);
      assert f in ys <==> f in multiset(ys);
    }
  }

  /**
    The index files `read_store_metadata` loads: the files named after the given
    chunk numbers, or else the globbed files in sorted order.
   */
  function ListedIndexFiles(folder: string, chunkNumbers: Option<seq<int>>, globbed: seq<string>): seq<string> {
    match chunkNumbers
    case Some(chunks) => NamedIndexFiles(folder, chunks)
    case None => StrLeTotal(); SortBy(globbed, StrLe)
  }

  /**
    The keys of a dict built by inserting `xs` in order: each element once, at
    the place of its first occurrence.
   */
  function Dedup(xs: seq<string>): (r: seq<string>)
    ensures forall i, j :: 0 <= i < j < |r| ==> r[i] != r[j]
    ensures forall x :: x in r <==> x in xs
    ensures |r| <= |xs|
  {
    if xs == [] then []
    else
      var d := Dedup(xs[..|xs| - 1]);
      var last := xs[|xs| - 1];
      assert xs == xs[..|xs| - 1] + [last];
      if last in d then d else d + [last]
  }

  /** Every index file loads; the first one that does not raises. */
  function LoadAll(files: seq<string>, disk: map<string, ChunkIndex>): (r: Result<(), StoreError>)
    ensures r.Success? <==> forall f :: f in files ==> f in disk
  {
    if files == [] then Success(())
    else if files[0] !in disk then Failure(MissingIndex(files[0]))
    else
      assert forall f :: f in files ==> f == files[0] || f in files[1..];
      LoadAll(files[1..], disk)
  }

  /** The frame arrays of the given files, concatenated in order; one file gives its own arrays. */
  function Frames(files: seq<string>, disk: map<string, ChunkIndex>): (r: ChunkIndex)
    requires forall f :: f in files ==> f in disk
    ensures |files| == 1 ==> r == disk[files[0]]
  {
    if files == [] then ChunkIndex([], [])
    else
      var before := Frames(files[..|files| - 1], disk);
      var c := disk[files[|files| - 1]];
      ChunkIndex(before.frameNumber + c.frameNumber, before.frameTime + c.frameTime)
  }

  /** Flattening two runs of files flattens each run and concatenates the results. */
  lemma {:induction false} FramesConcat(a: seq<string>, b: seq<string>, disk: map<string, ChunkIndex>)
    requires forall f :: f in a ==> f in disk
    requires forall f :: f in b ==> f in disk
    ensures var fa := Frames(a, disk);
      var fb := Frames(b, disk);
      Frames(a + b, disk) == ChunkIndex(fa.frameNumber + fb.frameNumber, fa.frameTime + fb.frameTime)
    decreases |b|
  {
    if b == [] {
      assert a + b == a;
    } else {
      var b' := b[..|b| - 1];
      PrefixInDisk(b, disk);
      FramesConcat(a, b', disk);
      SnocSplit(a, b);
      var fa := Frames(a, disk);
      var fb' := Frames(b', disk);
      var c := disk[b[|b| - 1]];
      SeqAssoc(fa.frameNumber, fb'.frameNumber, c.frameNumber);
      SeqAssoc(fa.frameTime, fb'.frameTime, c.frameTime);
    }
  }

  /** Every file of a run's prefix without its last file is on disk. */
  lemma PrefixInDisk(files: seq<string>, disk: map<string, ChunkIndex>)
    requires files != [] && forall f :: f in files ==> f in disk
    ensures forall f :: f in files[..|files| - 1] ==> f in disk
  {
    forall f | f in files[..|files| - 1]
      ensures f in disk
    {
      var k :| 0 <= k < |files| - 1 && files[k] == f;
    }
  }

  /** Dropping the last file of `a + b` drops the last file of `b`. */
  lemma SnocSplit(a: seq<string>, b: seq<string>)
    requires b != []
    ensures (a + b)[..|a + b| - 1] == a + b[..|b| - 1]
    ensures (a + b)[|a + b| - 1] == b[|b| - 1]
  {
  }

  lemma SeqAssoc<T>(x: seq<T>, y: seq<T>, z: seq<T>)
    ensures (x + y) + z == x + (y + z)
  {
  }

  /** `read_store_metadata` without the YAML part: the chunk list and the flattened frames. */
  function ReadStoreMetadata(folder: string, chunkNumbers: Option<seq<int>>, globbed: seq<string>,
                             disk: map<string, ChunkIndex>)
    : (r: Result<StoreMetadata, StoreError>)
    ensures chunkNumbers.Some? && r.Success? ==> r.value.chunks == chunkNumbers.value
    ensures chunkNumbers.Some? ==>
      (r.Success? <==> forall k :: k in chunkNumbers.value ==> IndexPath(folder, k) in disk)
  {
    var named :- IndexFiles(folder, chunkNumbers, globbed);
    var files := named.0;
    var _ :- LoadAll(files, disk);
    var unique := Dedup(files);
    var frames := Frames(unique, disk);
    Success(StoreMetadata(named.1, frames.frameNumber, frames.frameTime))
  }

  /**
    Without chunk numbers, reading succeeds exactly when every globbed name parses
    and loads, and the chunk list holds one number per file in sorted order.
   */
  lemma ReadGlobbed(folder: string, globbed: seq<string>, disk: map<string, ChunkIndex>)
    ensures var r := ReadStoreMetadata(folder, None, globbed, disk);
      r.Success? <==> forall f :: f in globbed ==> ChunkOfPath(f).Some? && f in disk
    ensures var r := ReadStoreMetadata(folder, None, globbed, disk);
      var files := ListedIndexFiles(folder, None, globbed);
      r.Success? ==>
        && |r.value.chunks| == |files| == |globbed|
        && forall i :: 0 <= i < |files| ==> ChunkOfPath(files[i]) == Some(r.value.chunks[i])
  {
    var named := IndexFiles(folder, None, globbed);
    if named.Success? {
      SameMembers(named.value.0, globbed);
    }
  }

  /** On success, every listed index file loaded and the frames are theirs, each file taken once, in order. */
  lemma ReadFrames(folder: string, chunkNumbers: Option<seq<int>>, globbed: seq<string>, disk: map<string, ChunkIndex>)
    ensures var r := ReadStoreMetadata(folder, chunkNumbers, globbed, disk);
      r.Success? ==> forall f :: f in ListedIndexFiles(folder, chunkNumbers, globbed) ==> f in disk
    ensures var r := ReadStoreMetadata(folder, chunkNumbers, globbed, disk);
      r.Success? && (forall f :: f in ListedIndexFiles(folder, chunkNumbers, globbed) ==> f in disk) ==>
        var frames := Frames(Dedup(ListedIndexFiles(folder, chunkNumbers, globbed)), disk);
        r.value.frameNumber == frames.frameNumber && r.value.frameTime == frames.frameTime
  {
  }

  /** The frames of the deduplicated files after one more file: unchanged if it was already there, else extended by it. */
  lemma FramesAppend(files: seq<string>, file: string, disk: map<string, ChunkIndex>)
    requires forall f :: f in files ==> f in disk
    requires file in disk
    ensures var before := Frames(Dedup(files), disk);
      var after := Frames(Dedup(files + [file]), disk);
      && (file in files ==> after == before)
      && (file !in files ==> after == ChunkIndex(before.frameNumber + disk[file].frameNumber,
                                                 before.frameTime + disk[file].frameTime))
  {
    var files' := files + [file];
    assert files'[..|files'| - 1] == files;
    var d := Dedup(files);
    if file !in files {
      var dd := d + [file];
      assert Dedup(files') == dd;
      assert dd[..|dd| - 1] == d;
    }
  }

  /** The index file of `n` is among those of `chunks` exactly when `n` is. */
  lemma NamedFileListed(folder: string, chunks: seq<int>, n: int)
    ensures IndexPath(folder, n) in NamedIndexFiles(folder, chunks) <==> n in chunks
  {
    var files := NamedIndexFiles(folder, chunks);
    if n in chunks {
      var k :| 0 <= k < |chunks| && chunks[k] == n;
      assert files[k] == IndexPath(folder, n);
    } else {
      forall k | 0 <= k < |files|
        ensures files[k] != IndexPath(folder, n)
      {
        ChunkFileNameInjective(folder, chunks[k], n);
      }
    }
  }

  /** With chunk numbers whose files all load, the result is those numbers and the frames of their files. */
  lemma ReadNamed(folder: string, chunks: seq<int>, globbed: seq<string>, disk: map<string, ChunkIndex>)
    requires forall f :: f in NamedIndexFiles(folder, chunks) ==> f in disk
    ensures var frames := Frames(Dedup(NamedIndexFiles(folder, chunks)), disk);
      ReadStoreMetadata(folder, Some(chunks), globbed, disk)
        == Success(StoreMetadata(chunks, frames.frameNumber, frames.frameTime))
  {
  }

  /** One more chunk number adds its index file at the end. */
  lemma NamedFilesAppend(folder: string, chunks: seq<int>, n: int)
    ensures NamedIndexFiles(folder, chunks + [n]) == NamedIndexFiles(folder, chunks) + [IndexPath(folder, n)]
  {
  }

  /** When every listed chunk has its index file on disk, so does every named file. */
  lemma NamedFilesInDisk(folder: string, chunks: seq<int>, disk: map<string, ChunkIndex>)
    requires forall k :: k in chunks ==> IndexPath(folder, k) in disk
    ensures forall f :: f in NamedIndexFiles(folder, chunks) ==> f in disk
  {
    var files := NamedIndexFiles(folder, chunks);
    forall f | f in files
      ensures f in disk
    {
      var k :| 0 <= k < |files| && files[k] == f;
      assert chunks[k] in chunks;
    }
  }

  /**
    Adding one more chunk number appends that chunk's frames, unless the number
    was already listed, in which case the frames stay as they were; the chunk
    list grows either way.
   */
  lemma AppendChunk(folder: string, chunks: seq<int>, n: int, globbed: seq<string>, disk: map<string, ChunkIndex>)
    requires forall k :: k in chunks ==> IndexPath(folder, k) in disk
    requires IndexPath(folder, n) in disk
    ensures var before := ReadStoreMetadata(folder, Some(chunks), globbed, disk);
      var after := ReadStoreMetadata(folder, Some(chunks + [n]), globbed, disk);
      var c := disk[IndexPath(folder, n)];
      && before.Success? && after.Success?
      && after.value.chunks == chunks + [n]
      && (n in chunks ==>
            after.value.frameNumber == before.value.frameNumber && after.value.frameTime == before.value.frameTime)
      && (n !in chunks ==>
            && after.value.frameNumber == before.value.frameNumber + c.frameNumber
            && after.value.frameTime == before.value.frameTime + c.frameTime)
  {
    var files := NamedIndexFiles(folder, chunks);
    var file := IndexPath(folder, n);
    NamedFilesAppend(folder, chunks, n);
    NamedFilesInDisk(folder, chunks, disk);
    ReadNamed(folder, chunks, globbed, disk);
    ReadNamed(folder, chunks + [n], globbed, disk);
    NamedFileListed(folder, chunks, n);
    FramesAppend(files, file, disk);
  }
}
