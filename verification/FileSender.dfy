/** The sending side of a file transfer (`build_entry` and `build_manifest` in
    crates/filetransfer/src/lib.rs, `send_files` in crates/daemon/src/filetransfer_mgr.rs). */
module FileSender {
  import opened Wrappers
  import Seqs
  import opened Protocol
  import opened FileReceiver

  const CHUNK_SIZE := 65536

  /** The sender's files by the path they are asked for. */
  type Sources = map<string, Bytes>

  datatype SendError = CannotOpen(path: string)

  /** One `read` into a buffer: some bytes, at most the buffer's size, none only at the end of the file.
      Callers rely on no more than that. */
  method ReadSome(content: Bytes, at: nat, size: nat) returns (n: nat)
    requires at <= |content| && size > 0
    ensures n <= size && at + n <= |content| && (n == 0 ==> at == |content|)
  {
    n := if |content| - at < size then |content| - at else size;
  }

  /** `update` with the bytes just read. */
  method UpdateHasher(alg: HashAlg, content: Bytes, total: nat, n: nat, hasher: nat) returns (updated: nat)
    requires Lawful(alg) && total + n <= |content| && hasher == HashedUpTo(alg, content, total)
    ensures updated == HashedUpTo(alg, content, total + n)
  {
    HashMore(alg, content, total, n);
    updated := alg.update(hasher, content[total..total + n]);
  }

  /** Hash and size of a file. */
  method HashContent(alg: HashAlg, content: Bytes) returns (digest: Digest, total: nat)
    requires Lawful(alg)
    ensures digest == DigestOf(alg, content) && total == |content|
  {
    var hasher, read := AbsorbAll(alg, content);
    total := read;
    HashEnds(alg, content);
    digest := alg.finalize(hasher);
  }

  method AbsorbAll(alg: HashAlg, content: Bytes) returns (hasher: nat, total: nat)
    requires Lawful(alg)
    ensures total == |content| && hasher == HashedUpTo(alg, content, total)
  {
    HashEnds(alg, content);
    hasher, total := alg.init, 0;
    while true
      invariant total <= |content|
      invariant hasher == HashedUpTo(alg, content, total)
      decreases |content| - total
    {
      var n := ReadSome(content, total, CHUNK_SIZE);
      if n == 0 {
        break;
      }
      hasher := UpdateHasher(alg, content, total, n, hasher);
      total := total + n;
    }
  }

  /** `build_entry`: hash and size do not depend on how the reads happen to be cut. */
  method BuildEntry(alg: HashAlg, sources: Sources, file: string) returns (r: Result<FileEntry, SendError>)
    requires Lawful(alg)
    ensures r == EntryOf(alg, sources, file)
  {
    if file !in sources {
      return Err(CannotOpen(file));
    }
    var digest, total := HashContent(alg, sources[file]);
    return Ok(FileEntry(file, total, digest));
  }

  function EntryOf(alg: HashAlg, sources: Sources, file: string): Result<FileEntry, SendError> {
    if file in sources then Ok(FileEntry(file, |sources[file]|, DigestOf(alg, sources[file]))) else Err(CannotOpen(file))
  }

  /** The entries of the files, or the first file that cannot be opened. */
  function Entries(alg: HashAlg, sources: Sources, files: seq<string>): Result<seq<FileEntry>, SendError> {
    if files == [] then Ok([])
    else
      match EntryOf(alg, sources, files[0])
      case Err(e) => Err(e)
      case Ok(entry) =>
        match Entries(alg, sources, files[1..])
        case Err(e) => Err(e)
        case Ok(rest) => Ok([entry] + rest)
  }

  function TotalSize(entries: seq<FileEntry>): nat {
    if entries == [] then 0 else entries[0].size + TotalSize(entries[1..])
  }

  method BuildManifest(alg: HashAlg, sources: Sources, files: seq<string>) returns (r: Result<FileManifest, SendError>)
    requires Lawful(alg)
    ensures r.Ok? <==> Entries(alg, sources, files).Ok?
    ensures r.Err? ==> r.error == Entries(alg, sources, files).error
    ensures r.Ok? ==> r.value.files == Entries(alg, sources, files).value
                      && r.value.totalBytes == TotalSize(r.value.files)
  {
    var entries: seq<FileEntry> := [];
    var total := 0;
    ghost var whole := Entries(alg, sources, files);
    assert files[0..] == files && (whole.Ok? ==> entries + whole.value == whole.value);
    for i := 0 to |files|
      invariant var rest := Entries(alg, sources, files[i..]);
                whole == if rest.Err? then rest else Ok(entries + rest.value)
      invariant total == TotalSize(entries)
    {
      assert files[i..][1..] == files[i + 1..];
      var entry := BuildEntry(alg, sources, files[i]);
      if entry.Err? {
        return Err(entry.error);
      }
      ghost var rest := Entries(alg, sources, files[i + 1..]);
      if rest.Ok? {
        assert entries + ([entry.value] + rest.value) == (entries + [entry.value]) + rest.value;
      }
      TotalSizePush(entries, entry.value);
      total := total + entry.value.size;
      entries := entries + [entry.value];
    }
    assert entries + [] == entries;
    return Ok(FileManifest(entries, total));
  }

  lemma {:induction false} TotalSizePush(entries: seq<FileEntry>, e: FileEntry)
    ensures TotalSize(entries + [e]) == TotalSize(entries) + e.size
  {
    if entries == [] {
      assert [] + [e] == [e];
    } else {
      assert (entries + [e])[1..] == entries[1..] + [e];
      TotalSizePush(entries[1..], e);
    }
  }

  /** How many bytes each read of the sender delivers, by file index and offset. */
  type Reads = (nat, nat) -> nat

  /** What a read may do: deliver any number of bytes up to the buffer's size, none only at the end. */
  ghost predicate Reader(read: Reads, index: nat, content: Bytes) {
    forall at: nat {:trigger read(index, at)} :: at <= |content| ==>
      && read(index, at) <= CHUNK_SIZE && at + read(index, at) <= |content|
      && (read(index, at) == 0 ==> at == |content|)
  }

  /** Reads that fill the buffer until the file ends. */
  ghost predicate FullReader(read: Reads, index: nat, content: Bytes) {
    forall at: nat {:trigger read(index, at)} :: at <= |content| ==>
      read(index, at) == if |content| - at < CHUNK_SIZE then |content| - at else CHUNK_SIZE
  }

  /** The chunks of one file from an offset on: the first short read, which is marked last, or a read of
      nothing, which sends nothing, ends the file. */
  ghost function ChunksRead(id: nat, index: nat, content: Bytes, read: Reads, offset: nat): seq<FileChunk>
    requires offset <= |content| && Reader(read, index, content)
    decreases |content| - offset
  {
    var n := read(index, offset);
    if n == 0 then []
    else
      [FileChunk(id, index, offset, content[offset..offset + n], n < CHUNK_SIZE)]
      + if n < CHUNK_SIZE then [] else ChunksRead(id, index, content, read, offset + n)
  }

  /** The same with full reads. */
  function ChunksFrom(id: nat, index: nat, content: Bytes, offset: nat): seq<FileChunk>
    requires offset <= |content|
    decreases |content| - offset
  {
    var left := |content| - offset;
    if left == 0 then []
    else if left < CHUNK_SIZE then [FileChunk(id, index, offset, content[offset..], true)]
    else
      [FileChunk(id, index, offset, content[offset..offset + CHUNK_SIZE], false)]
      + ChunksFrom(id, index, content, offset + CHUNK_SIZE)
  }

  /** What has been sent and what is to come from the offset on make up the file's chunks. */
  ghost predicate SentUpTo(id: nat, index: nat, content: Bytes, read: Reads, offset: nat, sent: seq<FileChunk>)
    requires offset <= |content| && Reader(read, index, content)
  {
    sent + ChunksRead(id, index, content, read, offset) == ChunksRead(id, index, content, read, 0)
  }

  lemma OneRead(id: nat, index: nat, content: Bytes, read: Reads, offset: nat, sent: seq<FileChunk>)
    requires offset <= |content| && Reader(read, index, content)
    requires SentUpTo(id, index, content, read, offset, sent)
    ensures var n := read(index, offset);
            var chunk := FileChunk(id, index, offset, content[offset..offset + n], n < CHUNK_SIZE);
            && (n == 0 ==> sent == ChunksRead(id, index, content, read, 0))
            && (0 < n < CHUNK_SIZE ==> sent + [chunk] == ChunksRead(id, index, content, read, 0))
            && (n == CHUNK_SIZE ==> SentUpTo(id, index, content, read, offset + n, sent + [chunk]))
  {
    var n := read(index, offset);
    var chunk := FileChunk(id, index, offset, content[offset..offset + n], n < CHUNK_SIZE);
    Seqs.Nothing(sent);
    Seqs.Nothing([chunk]);
    if n == CHUNK_SIZE {
      Seqs.Associative(sent, [chunk], ChunksRead(id, index, content, read, offset + n));
    }
  }

  method SendFile(id: nat, index: nat, content: Bytes, read: Reads) returns (sent: seq<FileChunk>)
    requires Reader(read, index, content)
    ensures sent == ChunksRead(id, index, content, read, 0)
  {
    sent := [];
    var offset := 0;
    Seqs.Nothing(ChunksRead(id, index, content, read, 0));
    while true
      invariant offset <= |content|
      invariant SentUpTo(id, index, content, read, offset, sent)
      decreases |content| - offset
    {
      OneRead(id, index, content, read, offset, sent);
      var n := read(index, offset);
      var isLast := n < CHUNK_SIZE;
      if n > 0 {
        sent := sent + [FileChunk(id, index, offset, content[offset..offset + n], isLast)];
        offset := offset + n;
      }
      if isLast || n == 0 {
        break;
      }
    }
  }

  /** Where the sender takes the file to end. */
  ghost function StopsAt(index: nat, content: Bytes, read: Reads, offset: nat): (stop: nat)
    requires offset <= |content| && Reader(read, index, content)
    ensures offset <= stop <= |content|
    decreases |content| - offset
  {
    var n := read(index, offset);
    if n < CHUNK_SIZE then offset + n else StopsAt(index, content, read, offset + n)
  }

  /** A short read ends the file: what is sent is what full reads would send of the content up to there. */
  lemma {:induction false} ShortReadEndsFile(id: nat, index: nat, content: Bytes, read: Reads, offset: nat)
    requires offset <= |content| && Reader(read, index, content)
    ensures var stop := StopsAt(index, content, read, offset);
            ChunksRead(id, index, content, read, offset) == ChunksFrom(id, index, content[..stop], offset)
    ensures var stop := StopsAt(index, content, read, offset);
            stop == |content| || (stop - offset) % 65536 != 0
    decreases |content| - offset
  {
    var n := read(index, offset);
    var stop := StopsAt(index, content, read, offset);
    if n == CHUNK_SIZE {
      ShortReadEndsFile(id, index, content, read, offset + n);
      assert content[..stop][offset..offset + n] == content[offset..offset + n];
    } else {
      assert content[..stop][offset..] == content[offset..offset + n];
    }
  }

  lemma {:induction false} FullReadsStopAtEnd(index: nat, content: Bytes, read: Reads, offset: nat)
    requires offset <= |content| && Reader(read, index, content) && FullReader(read, index, content)
    ensures StopsAt(index, content, read, offset) == |content|
    decreases |content| - offset
  {
    if read(index, offset) == CHUNK_SIZE {
      FullReadsStopAtEnd(index, content, read, offset + CHUNK_SIZE);
    }
  }

  /** What is on the transfer's stream, and the error that ended it early. */
  datatype SendLog = SendLog(chunks: seq<FileChunk>, error: Option<SendError>)

  ghost predicate Readable(read: Reads, later: Sources, files: seq<string>) {
    forall i :: 0 <= i < |files| && files[i] in later ==> Reader(read, i, later[files[i]])
  }

  /** The chunks of the files from `index` on, up to the first file that can no longer be opened. */
  ghost function Stream(id: nat, later: Sources, read: Reads, files: seq<string>, index: nat): SendLog
    requires index <= |files| && Readable(read, later, files)
    decreases |files| - index
  {
    if index == |files| then SendLog([], None)
    else if files[index] !in later then SendLog([], Some(CannotOpen(files[index])))
    else
      var rest := Stream(id, later, read, files, index + 1);
      SendLog(ChunksRead(id, index, later[files[index]], read, 0) + rest.chunks, rest.error)
  }

  lemma {:induction false} EntriesShape(alg: HashAlg, sources: Sources, files: seq<string>)
    ensures Entries(alg, sources, files).Ok? <==> forall f :: f in files ==> f in sources
    ensures Entries(alg, sources, files).Ok? ==>
              var entries := Entries(alg, sources, files).value;
              && |entries| == |files|
              && forall i :: 0 <= i < |files| ==> EntryOf(alg, sources, files[i]) == Ok(entries[i])
  {
    if files == [] {
    } else {
      EntriesShape(alg, sources, files[1..]);
      assert files == [files[0]] + files[1..];
      assert files[0] in files;
    }
  }

  /** The first file that cannot be opened, if any, is the error, and what was sent before it stays sent. */
  lemma {:induction false} StreamStops(id: nat, later: Sources, read: Reads, files: seq<string>, index: nat, j: nat)
    requires index <= j <= |files| && Readable(read, later, files) && forall i :: index <= i < j ==> files[i] in later
    ensures j == |files| ==> Stream(id, later, read, files, index).error == None
    ensures j < |files| && files[j] !in later ==>
              && Stream(id, later, read, files, index).error == Some(CannotOpen(files[j]))
              && Readable(read, later, files[..j])
              && Stream(id, later, read, files, index).chunks == Stream(id, later, read, files[..j], index).chunks
    decreases |files| - index
  {
    if index < j {
      StreamStops(id, later, read, files, index + 1, j);
    }
    assert forall i :: 0 <= i < j ==> files[..j][i] == files[i];
  }

  /** A manifest fails on the first file that cannot be opened. */
  lemma {:induction false} EntriesStop(alg: HashAlg, sources: Sources, files: seq<string>, j: nat)
    requires j < |files| && files[j] !in sources && forall i :: 0 <= i < j ==> files[i] in sources
    ensures Entries(alg, sources, files) == Err(CannotOpen(files[j]))
  {
    if j > 0 {
      assert files[0] in sources;
      EntriesStop(alg, sources, files[1..], j - 1);
    }
  }

  /** `send_files`: the offered manifest, and what follows on the transfer's stream, errors included. The
      files are read twice, for the manifest and for the chunks, and may change in between. */
  method SendFiles(alg: HashAlg, offered: Sources, later: Sources, read: Reads, files: seq<string>, id: nat)
      returns (offer: Option<FileManifest>, log: SendLog)
    requires Lawful(alg) && Readable(read, later, files)
    ensures match Entries(alg, offered, files)
            case Err(e) => offer == None && log == SendLog([], Some(e))
            case Ok(entries) =>
              offer == Some(FileManifest(entries, TotalSize(entries))) && log == Stream(id, later, read, files, 0)
  {
    EntriesShape(alg, offered, files);
    var manifest := BuildManifest(alg, offered, files);
    if manifest.Err? {
      return None, SendLog([], Some(manifest.error));
    }
    offer := Some(manifest.value);
    log := SendAll(manifest.value.files, later, read, files, id);
  }

  method SendAll(entries: seq<FileEntry>, later: Sources, read: Reads, ghost files: seq<string>, id: nat)
      returns (log: SendLog)
    requires |entries| == |files| && forall i :: 0 <= i < |files| ==> entries[i].relativePath == files[i]
    requires Readable(read, later, files)
    ensures log == Stream(id, later, read, files, 0)
  {
    var sent: seq<FileChunk> := [];
    ghost var whole := Stream(id, later, read, files, 0);
    assert sent + whole.chunks == whole.chunks;
    for i := 0 to |entries|
      invariant var rest := Stream(id, later, read, files, i);
                whole == SendLog(sent + rest.chunks, rest.error)
    {
      var path := entries[i].relativePath;
      if path !in later {
        assert sent + [] == sent;
        return SendLog(sent, Some(CannotOpen(path)));
      }
      var chunks := SendFile(id, i, later[path], read);
      ghost var rest := Stream(id, later, read, files, i + 1);
      assert sent + (chunks + rest.chunks) == (sent + chunks) + rest.chunks;
      sent := sent + chunks;
    }
    assert sent + [] == sent;
    return SendLog(sent, None);
  }
}
