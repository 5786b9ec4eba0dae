/**
 The sizes an upload session declares, the chunks they prescribe, and the loop that merges
 the chunks back into one file (server/upload-session-store.js).
 */
module UploadManifest {
  import opened Common

  const MAX_CHUNK_UPLOAD_SIZE := 5 * 1024 * 1024
  const MAX_RESUMABLE_UPLOAD_SIZE := 100 * 1024 * 1024
  const MAX_UPLOAD_CHUNKS := 100

  /**
   The declared sizes after `parseStrictInteger`; None stands for NaN. Whether the name passes the
   safe-name pattern and the digest the 64-digit pattern are inputs.
   */
  datatype Metadata = Metadata(
    fileName: string, nameIsSafe: bool,
    fileSize: Option<int>, lastModified: Option<int>, totalChunks: Option<int>, chunkSize: Option<int>,
    hasSha256: bool, shaIsHex: bool)

  datatype Manifest = Manifest(fileSize: nat, chunkSize: nat, totalChunks: nat, hasSha256: bool)

  datatype Rejection =
    | FileNameRequired | UnsafeFileName | BadFileSize | FileTooLarge | BadTotalChunks | TooManyChunks
    | BadChunkSize | ChunkTooLarge | BadLastModified | WrongTotalChunks | BadSha256

  datatype Validation = Accepted(manifest: Manifest) | Rejected(reason: Rejection)

  predicate Positive(x: Option<int>) {
    x.Some? && x.value > 0
  }

  /** `validateMetadata`: the checks in the order of the source. */
  function Validate(d: Metadata): Validation {
    if d.fileName == "" then Rejected(FileNameRequired)
    else if !d.nameIsSafe then Rejected(UnsafeFileName)
    else if !Positive(d.fileSize) then Rejected(BadFileSize)
    else if d.fileSize.value > MAX_RESUMABLE_UPLOAD_SIZE then Rejected(FileTooLarge)
    else if !Positive(d.totalChunks) then Rejected(BadTotalChunks)
    else if d.totalChunks.value > MAX_UPLOAD_CHUNKS then Rejected(TooManyChunks)
    else if !Positive(d.chunkSize) then Rejected(BadChunkSize)
    else if d.chunkSize.value > MAX_CHUNK_UPLOAD_SIZE then Rejected(ChunkTooLarge)
    else if !(d.lastModified.Some? && d.lastModified.value >= 0) then Rejected(BadLastModified)
    else if d.totalChunks.value != CeilDiv(d.fileSize.value, d.chunkSize.value) then Rejected(WrongTotalChunks)
    else if d.hasSha256 && !d.shaIsHex then Rejected(BadSha256)
    else Accepted(Manifest(d.fileSize.value, d.chunkSize.value, d.totalChunks.value, d.hasSha256))
  }

  /** `getExpectedChunkSize`: every chunk is full except the last one, which takes what is left. */
  function ExpectedChunkSize(m: Manifest, index: nat): int {
    if index == m.totalChunks - 1 then m.fileSize - m.chunkSize * (m.totalChunks - 1) else m.chunkSize
  }

  /** The prescribed chunks cut the file exactly: no gap, no overlap, no empty chunk. */
  ghost predicate Partitions(m: Manifest) {
    && m.totalChunks > 0
    && (forall i :: 0 <= i < m.totalChunks ==> 0 < ExpectedChunkSize(m, i) <= m.chunkSize)
    && SizeBefore(m, m.totalChunks) == m.fileSize
  }

  /** The total size prescribed for chunks 0 .. n-1. */
  function SizeBefore(m: Manifest, n: nat): int {
    if n == 0 then 0 else SizeBefore(m, n - 1) + ExpectedChunkSize(m, n - 1)
  }

  lemma {:induction false} SizeBeforeClosed(m: Manifest, n: nat)
    requires n <= m.totalChunks
    ensures SizeBefore(m, n) == if n < m.totalChunks || n == 0 then n * m.chunkSize else m.fileSize
  {
    if n > 0 {
      SizeBeforeClosed(m, n - 1);
      assert (n - 1) * m.chunkSize + m.chunkSize == n * m.chunkSize;
    }
  }

  /** The size check of `validateMetadata` is exact: the total it demands is the only one that cuts the file. */
  lemma TotalIsRightIffItPartitions(m: Manifest)
    requires m.fileSize > 0 && m.chunkSize > 0
    ensures m.totalChunks == CeilDiv(m.fileSize, m.chunkSize) <==> Partitions(m)
  {
    var n, c, f := m.totalChunks, m.chunkSize, m.fileSize;
    if n > 0 {
      SizeBeforeClosed(m, n);
      assert n * c == (n - 1) * c + c;
      assert Partitions(m) <==> 0 < f - c * (n as int - 1) <= c by {
        if Partitions(m) { assert 0 < ExpectedChunkSize(m, n - 1) <= c; }
      }
      CeilDivExact(f, c, n);
    } else {
      CeilDivExact(f, c, CeilDiv(f, c));
    }
  }

  lemma CeilDivExact(f: nat, c: nat, n: nat)
    requires f > 0 && c > 0
    ensures CeilDiv(f, c) > 0
    ensures n > 0 ==> (n == CeilDiv(f, c) <==> 0 < f - c * (n as int - 1) <= c)
  {
    var q: int := CeilDiv(f, c);
    assert c * q <= f + c - 1 < c * q + c by {
      assert f + c - 1 == c * ((f + c - 1) / c) + (f + c - 1) % c;
    }
    assert q > 0 by { TimesMonotone(c, q, 0); }
    assert c * (q - 1) == c * q - c && c * (n as int - 1) == c * n - c;
    TimesMonotone(c, n, q - 1);
    TimesMonotone(c, q, n as int - 1);
  }

  lemma TimesMonotone(c: nat, a: int, b: int)
    ensures a <= b ==> c * a <= c * b
  {
  }

  /** What is wrong with the metadata, reason by reason. */
  ghost predicate Wrong(d: Metadata, r: Rejection) {
    match r
    case FileNameRequired => d.fileName == ""
    case UnsafeFileName => !d.nameIsSafe
    case BadFileSize => d.fileSize.None? || d.fileSize.value <= 0
    case FileTooLarge => d.fileSize.Some? && d.fileSize.value > 104857600
    case BadTotalChunks => d.totalChunks.None? || d.totalChunks.value <= 0
    case TooManyChunks => d.totalChunks.Some? && d.totalChunks.value > 100
    case BadChunkSize => d.chunkSize.None? || d.chunkSize.value <= 0
    case ChunkTooLarge => d.chunkSize.Some? && d.chunkSize.value > 5242880
    case BadLastModified => d.lastModified.None? || d.lastModified.value < 0
    case WrongTotalChunks =>
      d.fileSize.Some? && d.totalChunks.Some? && d.chunkSize.Some?
      && !((d.totalChunks.value - 1) * d.chunkSize.value < d.fileSize.value <= d.totalChunks.value * d.chunkSize.value)
    case BadSha256 => d.hasSha256 && !d.shaIsHex
  }

  /** The order of the checks. */
  function Place(r: Rejection): nat {
    match r
    case FileNameRequired => 0 case UnsafeFileName => 1 case BadFileSize => 2 case FileTooLarge => 3
    case BadTotalChunks => 4 case TooManyChunks => 5 case BadChunkSize => 6 case ChunkTooLarge => 7
    case BadLastModified => 8 case WrongTotalChunks => 9 case BadSha256 => 10
  }

  /**
   Metadata are accepted, as they stand, exactly if nothing is wrong with them; they are rejected for the first thing
   that is wrong.
   */
  lemma AcceptedIff(d: Metadata)
    ensures Validate(d).Accepted? <==> forall r :: !Wrong(d, r)
    ensures Validate(d).Accepted? ==>
      Validate(d).manifest == Manifest(d.fileSize.value, d.chunkSize.value, d.totalChunks.value, d.hasSha256)
    ensures forall r :: Validate(d) == Rejected(r) <==> Wrong(d, r) && forall q :: Place(q) < Place(r) ==> !Wrong(d, q)
  {
    if Positive(d.fileSize) && Positive(d.totalChunks) && Positive(d.chunkSize) {
      var f, c, n := d.fileSize.value, d.chunkSize.value, d.totalChunks.value;
      CeilDivExact(f, c, n);
      assert c * (n - 1) == (n - 1) * c && n * c == (n - 1) * c + c;
    }
    hide CeilDiv;
    FirstWrong(d);
  }

  lemma FirstWrong(d: Metadata)
    requires Positive(d.fileSize) && Positive(d.totalChunks) && Positive(d.chunkSize) ==>
      (Wrong(d, WrongTotalChunks) <==> d.totalChunks.value != CeilDiv(d.fileSize.value, d.chunkSize.value))
    ensures match Validate(d)
      case Accepted(_) => forall r :: !Wrong(d, r)
      case Rejected(r) => Wrong(d, r) && forall q :: Place(q) < Place(r) ==> !Wrong(d, q)
  {
    hide CeilDiv;
    match Validate(d)
    case Accepted(_) => forall r ensures !Wrong(d, r) { }
    case Rejected(r) => forall q | Place(q) < Place(r) ensures !Wrong(d, q) { }
  }

  /** Every accepted upload has a manifest whose chunks cut the file, within the published limits. */
  lemma AcceptedPartitions(d: Metadata)
    requires Validate(d).Accepted?
    ensures var m := Validate(d).manifest;
      && Partitions(m) && m.totalChunks <= MAX_UPLOAD_CHUNKS
      && 0 < m.fileSize <= MAX_RESUMABLE_UPLOAD_SIZE && 0 < m.chunkSize <= MAX_CHUNK_UPLOAD_SIZE
  {
    TotalIsRightIffItPartitions(Validate(d).manifest);
  }

  /** Bytes index*chunkSize .. of a file, as much as chunk `index` holds. */
  function Slice(file: Bytes, m: Manifest, index: nat): Bytes
    requires Partitions(m) && m.fileSize == |file| && index < m.totalChunks
  {
    SliceBounds(m, index);
    file[SizeBefore(m, index)..SizeBefore(m, index + 1)]
  }

  lemma {:induction false} SliceBounds(m: Manifest, index: nat)
    requires Partitions(m) && index < m.totalChunks
    ensures 0 <= SizeBefore(m, index) <= SizeBefore(m, index + 1) <= m.fileSize
  {
    SizeBeforeClosed(m, index);
    assert 0 <= index * m.chunkSize;
    SizeBeforeMonotone(m, index + 1);
  }

  lemma {:induction false} SizeBeforeMonotone(m: Manifest, n: nat)
    requires Partitions(m) && n <= m.totalChunks
    ensures SizeBefore(m, n) <= m.fileSize
    decreases m.totalChunks - n
  {
    if n < m.totalChunks {
      SizeBeforeMonotone(m, n + 1);
    }
  }

  /** Chunks 0 .. n-1 are all there. */
  ghost predicate HasPrefix(chunks: map<nat, Bytes>, n: nat) {
    forall i :: 0 <= i < n ==> i in chunks
  }

  /** The bytes of chunks 0 .. n-1, in index order. */
  function Concat(chunks: map<nat, Bytes>, n: nat): Bytes
    requires HasPrefix(chunks, n)
  {
    if n == 0 then [] else Concat(chunks, n - 1) + chunks[n - 1]
  }

  lemma {:induction false} ConcatSameOnPrefix(a: map<nat, Bytes>, b: map<nat, Bytes>, n: nat)
    requires HasPrefix(a, n) && HasPrefix(b, n)
    requires forall i :: 0 <= i < n ==> a[i] == b[i]
    ensures Concat(a, n) == Concat(b, n)
  {
    if n > 0 {
      ConcatSameOnPrefix(a, b, n - 1);
    }
  }

  /** Chunks that are slices of one file give the file back. */
  lemma {:induction false} SlicesConcat(file: Bytes, m: Manifest, chunks: map<nat, Bytes>, n: nat)
    requires Partitions(m) && m.fileSize == |file| && n <= m.totalChunks
    requires HasPrefix(chunks, n)
    requires forall i :: 0 <= i < n ==> chunks[i] == Slice(file, m, i)
    ensures 0 <= SizeBefore(m, n) <= |file|
    ensures Concat(chunks, n) == file[..SizeBefore(m, n)]
    ensures n == m.totalChunks ==> Concat(chunks, n) == file
  {
    if n > 0 {
      SlicesConcat(file, m, chunks, n - 1);
      SliceBounds(m, n - 1);
      TakeSplit(file, SizeBefore(m, n - 1), SizeBefore(m, n));
    }
    if n == m.totalChunks {
      assert file[..|file|] == file;
    }
  }

  lemma TakeSplit(s: Bytes, a: nat, b: nat)
    requires a <= b <= |s|
    ensures s[..b] == s[..a] + s[a..b]
  {
  }

  datatype Merge =
    | Merged(bytes: Bytes)
    | MissingChunk(index: nat)
    | WrongChunkSize(index: nat)
    | WrongFileSize(bytesWritten: nat)

  /** Chunk `i` is there with the size its manifest prescribes. */
  ghost predicate GoodChunk(m: Manifest, chunks: map<nat, Bytes>, i: nat) {
    i in chunks && |chunks[i]| == ExpectedChunkSize(m, i)
  }

  /**
   The loop of `mergeChunksIntoFile` up to the digest comparison. It succeeds exactly when every chunk is
   good and the sizes add up, and then its output is the chunks in index order; otherwise it
   names the first bad chunk, or the size it reached.
   */
  method MergeChunks(m: Manifest, chunks: map<nat, Bytes>) returns (r: Merge)
    ensures r.Merged? ==> HasPrefix(chunks, m.totalChunks) && r.bytes == Concat(chunks, m.totalChunks) && |r.bytes| == m.fileSize
    ensures r.Merged? <==> (forall i :: 0 <= i < m.totalChunks ==> GoodChunk(m, chunks, i)) && SizeBefore(m, m.totalChunks) == m.fileSize
    ensures r.MissingChunk? || r.WrongChunkSize? ==>
      && r.index < m.totalChunks && !GoodChunk(m, chunks, r.index) && (r.MissingChunk? <==> r.index !in chunks)
      && forall i :: 0 <= i < r.index ==> GoodChunk(m, chunks, i)
    ensures r.WrongFileSize? ==> r.bytesWritten == SizeBefore(m, m.totalChunks) != m.fileSize
  {
    var written: Bytes := [];
    var bytesWritten: nat := 0;
    var chunkIndex: nat := 0;
    while chunkIndex < m.totalChunks
      invariant chunkIndex <= m.totalChunks
      invariant forall i :: 0 <= i < chunkIndex ==> GoodChunk(m, chunks, i)
      invariant HasPrefix(chunks, chunkIndex)
      invariant written == Concat(chunks, chunkIndex)
      invariant bytesWritten == |written| == SizeBefore(m, chunkIndex)
    {
      if chunkIndex !in chunks {
        assert !GoodChunk(m, chunks, chunkIndex);
        return MissingChunk(chunkIndex);
      }
      var chunkBuffer := chunks[chunkIndex];
      if |chunkBuffer| != ExpectedChunkSize(m, chunkIndex) {
        assert !GoodChunk(m, chunks, chunkIndex);
        return WrongChunkSize(chunkIndex);
      }
      bytesWritten := bytesWritten + |chunkBuffer|;
      written := written + chunkBuffer;
      chunkIndex := chunkIndex + 1;
    }
    if bytesWritten != m.fileSize {
      return WrongFileSize(bytesWritten);
    }
    return Merged(written);
  }

  /** Merging the chunks of one file, whatever else lies in the directory, writes that file and nothing else. */
  lemma MergeOfSlicesIsTheFile(file: Bytes, m: Manifest, chunks: map<nat, Bytes>)
    requires Partitions(m) && m.fileSize == |file| && HasPrefix(chunks, m.totalChunks)
    requires forall i :: 0 <= i < m.totalChunks ==> chunks[i] == Slice(file, m, i)
    ensures Concat(chunks, m.totalChunks) == file
    ensures forall i :: 0 <= i < m.totalChunks ==> GoodChunk(m, chunks, i)
  {
    SlicesConcat(file, m, chunks, m.totalChunks);
    forall i | 0 <= i < m.totalChunks ensures GoodChunk(m, chunks, i) {
      SliceBounds(m, i);
    }
  }
}
