/** A whole transfer: the offer, then the chunk stream, written one chunk after another. */
module FileEndToEnd {
  import opened Wrappers
  import Seqs
  import opened Protocol
  import opened FileReceiver
  import opened FileSender
  import opened FileInterleaving
  import opened FileTransfer
  import opened FileOffers

  /** Handle the chunks in order, with the result of each. */
  function DeliverAll(alg: HashAlg, st: RecvState, cs: seq<FileChunk>): (RecvState, seq<Result<nat, RecvError>>) {
    if cs == [] then (st, [])
    else
      var (before, results) := DeliverAll(alg, st, cs[..|cs| - 1]);
      var (after, result) := WriteChunk(alg, before, cs[|cs| - 1]);
      (after, results + [result])
  }

  // A whole write is its three steps

  function ThreeSteps(alg: HashAlg, y: Site, c: FileChunk): Site {
    var k := KeyOf(CheckStep(c));
    Step(alg, Step(alg, Step(alg, y, CheckStep(c)), StoreStep(k)), CommitStep(k))
  }

  lemma WriteIsThreeSteps(alg: HashAlg, y: Site, c: FileChunk)
    requires y.pending == map[] && ValidKey(y.recv, KeyOf(CheckStep(c)))
    ensures var z := ThreeSteps(alg, y, c);
            var (st, result) := WriteChunk(alg, y.recv, c);
            && z.recv == st && z.pending == map[]
            && z.outcomes == Note(y, KeyOf(CheckStep(c)), result.Ok?)
            && (result.Ok? ==> c.transferId in st.transfers && result.value == Sum(st.transfers[c.transferId].received))
  {
    var k := KeyOf(CheckStep(c));
    var y1 := Step(alg, y, CheckStep(c));
    if Check(y.recv, c).Ok? {
      assert y1.pending == map[k := Pending(c, Check(y.recv, c).value.0, Check(y.recv, c).value.1, false)];
      var y2 := Step(alg, y1, StoreStep(k));
      if Store(y.recv.disk, Check(y.recv, c).value.0, c).Ok? {
        assert y2.pending == map[k := y1.pending[k].(stored := true)];
      }
    }
  }

  lemma RunThreeSteps(alg: HashAlg, y: Site, cs: seq<FileChunk>)
    requires cs != []
    ensures Run(alg, y, Triples(cs)) == ThreeSteps(alg, Run(alg, y, Triples(cs[..|cs| - 1])), cs[|cs| - 1])
  {
    var front, c := Triples(cs[..|cs| - 1]), cs[|cs| - 1];
    var k := KeyOf(CheckStep(c));
    RunOneStep(alg, y, front, CheckStep(c));
    RunOneStep(alg, y, front + [CheckStep(c)], StoreStep(k));
    RunOneStep(alg, y, front + [CheckStep(c)] + [StoreStep(k)], CommitStep(k));
  }

  lemma RunOneStep(alg: HashAlg, y: Site, front: seq<WriteStep>, s: WriteStep)
    ensures Run(alg, y, front + [s]) == Step(alg, Run(alg, y, front), s)
  {
    assert (front + [s])[..|front|] == front;
  }

  /** Delivering chunks in order is the run of their whole writes; if that run noted no failure, every
      chunk was accepted, and the last one returned the sum of the counters. */
  lemma {:induction false} DeliverIsRun(alg: HashAlg, y: Site, cs: seq<FileChunk>)
    requires Sound(y) && y.pending == map[]
    requires forall c :: c in cs ==> ValidKey(y.recv, KeyOf(CheckStep(c)))
    ensures var z := Run(alg, y, Triples(cs));
            var (st, results) := DeliverAll(alg, y.recv, cs);
            && z.recv == st && z.pending == map[] && |results| == |cs|
            && ((forall c :: c in cs ==> false !in OutcomesOf(z, KeyOf(CheckStep(c)))) ==> forall r :: r in results ==> r.Ok?)
            && (cs != [] && results[|cs| - 1].Ok? ==>
                  var id := cs[|cs| - 1].transferId;
                  id in st.transfers && results[|cs| - 1].value == Sum(st.transfers[id].received))
  {
    if cs != [] {
      var front, c := cs[..|cs| - 1], cs[|cs| - 1];
      assert cs == front + [c];
      DeliverIsRun(alg, y, front);
      RunThreeSteps(alg, y, cs);
      var m := Run(alg, y, Triples(front));
      RunKeepsOthers(alg, y, Triples(front));
      SameFilesSeparate(y.recv, m.recv);
      assert ValidKey(y.recv, KeyOf(CheckStep(c)));
      WriteIsThreeSteps(alg, m, c);
      NoteKeeps(m, ThreeSteps(alg, m, c), KeyOf(CheckStep(c)), WriteChunk(alg, m.recv, c).1.Ok?);
    }
  }

  lemma NoteKeeps(y: Site, z: Site, k: Key, ok: bool)
    requires z.outcomes == Note(y, k, ok)
    ensures false !in OutcomesOf(z, k) ==> ok
    ensures forall l: Key :: false !in OutcomesOf(z, l) ==> false !in OutcomesOf(y, l)
  {
    assert OutcomesOf(z, k) == OutcomesOf(y, k) + [ok];
  }

  // The stream, file by file

  lemma {:induction false} TriplesAppend(a: seq<FileChunk>, b: seq<FileChunk>)
    ensures Triples(a + b) == Triples(a) + Triples(b)
  {
    if b == [] {
      assert a + b == a;
    } else {
      assert (a + b)[..|a + b| - 1] == a + b[..|b| - 1];
      TriplesAppend(a, b[..|b| - 1]);
    }
  }

  lemma {:induction false} OfTriples(cs: seq<FileChunk>, l: Key, k: Key)
    requires forall c :: c in cs ==> KeyOf(CheckStep(c)) == l
    ensures Of(Triples(cs), k) == if k == l then Triples(cs) else []
  {
    if cs != [] {
      var front, c := cs[..|cs| - 1], cs[|cs| - 1];
      OfTriples(front, l, k);
      assert KeyOf(CheckStep(c)) == l;
      OfOneMore(Triples(front), CheckStep(c), k);
      OfOneMore(Triples(front) + [CheckStep(c)], StoreStep(l), k);
      OfOneMore(Triples(front) + [CheckStep(c)] + [StoreStep(l)], CommitStep(l), k);
    }
  }

  lemma OfBoth(own: seq<FileChunk>, rest: seq<FileChunk>, l: Key, k: Key, owed: seq<FileChunk>)
    requires forall c :: c in own ==> KeyOf(CheckStep(c)) == l
    requires Of(Triples(rest), k) == Triples(owed) && (k == l ==> owed == [])
    ensures Of(Triples(own + rest), k) == Triples(if k == l then own else owed)
  {
    OfTriples(own, l, k);
    TriplesAppend(own, rest);
    OfAppend(Triples(own), Triples(rest), k);
    Seqs.Nothing(Triples(own));
    Seqs.Nothing(Triples(owed));
  }

  lemma OfOneMore(front: seq<WriteStep>, s: WriteStep, k: Key)
    ensures Of(front + [s], k) == if KeyOf(s) == k then Of(front, k) + [s] else Of(front, k)
  {
    assert (front + [s])[..|front|] == front;
  }

  lemma {:induction false} ChunkKeys(id: nat, index: nat, src: Bytes, offset: nat, c: FileChunk)
    requires offset <= |src| && c in ChunksFrom(id, index, src, offset)
    ensures KeyOf(CheckStep(c)) == (id, index)
    decreases |src| - offset
  {
    if |src| - offset >= CHUNK_SIZE && c in ChunksFrom(id, index, src, offset + CHUNK_SIZE) {
      ChunkKeys(id, index, src, offset + CHUNK_SIZE, c);
    }
  }

  lemma OwnKeys(id: nat, index: nat, src: Bytes)
    ensures forall c :: c in ChunksFrom(id, index, src, 0) ==> KeyOf(CheckStep(c)) == (id, index)
  {
    forall c | c in ChunksFrom(id, index, src, 0) ensures KeyOf(CheckStep(c)) == (id, index) {
      ChunkKeys(id, index, src, 0, c);
    }
  }

  predicate AllIn(files: seq<string>, sources: Sources) {
    forall f :: f in files ==> f in sources
  }

  /** What full reads of unchanged files put on the stream, from file `index` on. */
  function AllChunks(id: nat, sources: Sources, files: seq<string>, index: nat): seq<FileChunk>
    requires index <= |files| && AllIn(files, sources)
    decreases |files| - index
  {
    if index == |files| then []
    else ChunksFrom(id, index, sources[files[index]], 0) + AllChunks(id, sources, files, index + 1)
  }

  ghost predicate FullReads(read: Reads, sources: Sources, files: seq<string>)
    requires AllIn(files, sources)
  {
    forall i :: 0 <= i < |files| ==> FullReader(read, i, sources[files[i]])
  }

  lemma {:induction false} FullStream(id: nat, sources: Sources, read: Reads, files: seq<string>, index: nat)
    requires index <= |files| && AllIn(files, sources) && Readable(read, sources, files)
    requires FullReads(read, sources, files)
    ensures Stream(id, sources, read, files, index) == SendLog(AllChunks(id, sources, files, index), None)
    decreases |files| - index
  {
    if index < |files| {
      var content := sources[files[index]];
      FullStream(id, sources, read, files, index + 1);
      ShortReadEndsFile(id, index, content, read, 0);
      FullReadsStopAtEnd(index, content, read, 0);
      assert content[..|content|] == content;
    }
  }

  lemma {:induction false} StreamShape(id: nat, sources: Sources, files: seq<string>, index: nat)
    requires index <= |files| && AllIn(files, sources)
    ensures var cs := AllChunks(id, sources, files, index);
            && (forall c :: c in cs ==> c.transferId == id && c.fileIndex < |files|)
            && (cs == [] <==> forall i :: index <= i < |files| ==> sources[files[i]] == [])
    decreases |files| - index
  {
    if index < |files| {
      var src := sources[files[index]];
      StreamShape(id, sources, files, index + 1);
      OwnKeys(id, index, src);
    }
  }

  /** The chunks a stream from file `index` on owes to a file. */
  function Owed(id: nat, sources: Sources, files: seq<string>, index: nat, k: Key): seq<FileChunk>
    requires AllIn(files, sources)
  {
    if k.0 == id && index <= k.1 < |files| then ChunksFrom(id, k.1, sources[files[k.1]], 0) else []
  }

  /** The stream serves each file exactly the chunks of its own content. */
  lemma {:induction false} StreamServes(id: nat, sources: Sources, files: seq<string>, index: nat, k: Key)
    requires index <= |files| && AllIn(files, sources)
    ensures Of(Triples(AllChunks(id, sources, files, index)), k) == Triples(Owed(id, sources, files, index, k))
    decreases |files| - index
  {
    if index < |files| {
      StreamServes(id, sources, files, index + 1, k);
      OwnKeys(id, index, sources[files[index]]);
      OfBoth(ChunksFrom(id, index, sources[files[index]], 0), AllChunks(id, sources, files, index + 1),
             (id, index), k, Owed(id, sources, files, index + 1, k));
    }
  }

  lemma {:induction false} CountersAreSizes(counters: seq<nat>, entries: seq<FileEntry>)
    requires |counters| == |entries| && forall i :: 0 <= i < |entries| ==> counters[i] == entries[i].size
    ensures Sum(counters) == TotalSize(entries)
  {
    if entries != [] {
      CountersAreSizes(counters[1..], entries[1..]);
    }
  }

  /** A file of the offer before anything of it has arrived. */
  ghost predicate Fresh(alg: HashAlg, y: Site, k: Key, src: Bytes)
    requires ValidKey(y.recv, k)
  {
    var p := y.recv.transfers[k.0];
    && p.received[k.1] == 0 && p.hashers[k.1] == alg.init && p.manifest.files[k.1].blake3 == DigestOf(alg, src)
    && PathOf(y.recv, k) in y.recv.disk && y.recv.disk[PathOf(y.recv, k)] == []
    && k !in y.pending && OutcomesOf(y, k) == []
  }

  /** A file all of whose own chunks were accepted. */
  ghost predicate Complete(y: Site, z: Site, k: Key, src: Bytes)
    requires ValidKey(y.recv, k)
  {
    && ValidKey(z.recv, k) && PathOf(z.recv, k) == PathOf(y.recv, k)
    && PathOf(z.recv, k) in z.recv.disk && z.recv.disk[PathOf(z.recv, k)] == src
    && z.recv.transfers[k.0].received[k.1] == |src| && false !in OutcomesOf(z, k)
  }

  lemma FileCompletes(alg: HashAlg, y: Site, k: Key, src: Bytes, steps: seq<WriteStep>)
    requires Lawful(alg) && Sound(y) && ValidKey(y.recv, k) && Fresh(alg, y, k, src)
    requires Of(steps, k) == Triples(ChunksFrom(k.0, k.1, src, 0))
    ensures Complete(y, Run(alg, y, steps), k, src)
  {
    RunIsLocal(alg, y, steps, k);
    var z := Run(alg, y, steps);
    HashEnds(alg, View(y, k).content);
    ChunksAreContiguous(k.0, k.1, src, 0);
    RestCompletes(alg, View(y, k), ChunksFrom(k.0, k.1, src, 0), k, src);
    assert View(z, k).content == src && View(z, k).received == |src|;
    assert View(z, k).path == View(y, k).path;
    assert OutcomesOf(z, k) == View(z, k).outcomes;
  }

  lemma StreamCompletes(alg: HashAlg, y: Site, id: nat, sources: Sources, files: seq<string>)
    requires Lawful(alg) && Sound(y)
    requires AllIn(files, sources)
    requires forall i :: 0 <= i < |files| ==> ValidKey(y.recv, (id, i)) && Fresh(alg, y, (id, i), sources[files[i]])
    ensures var z := Run(alg, y, Triples(AllChunks(id, sources, files, 0)));
            forall i :: 0 <= i < |files| ==> Complete(y, z, (id, i), sources[files[i]])
  {
    var steps := Triples(AllChunks(id, sources, files, 0));
    forall i | 0 <= i < |files| ensures Complete(y, Run(alg, y, steps), (id, i), sources[files[i]]) {
      StreamServes(id, sources, files, 0, (id, i));
      FileCompletes(alg, y, (id, i), sources[files[i]], steps);
    }
  }

  /** A path that none of the transfer's files is at keeps what it holds. */
  lemma StreamKeeps(alg: HashAlg, y: Site, id: nat, sources: Sources, files: seq<string>, path: Path)
    requires Sound(y) && AllIn(files, sources)
    requires path in y.recv.disk
    requires forall k: Key :: ValidKey(y.recv, k) && k.0 == id ==> PathOf(y.recv, k) != path
    ensures var z := Run(alg, y, Triples(AllChunks(id, sources, files, 0)));
            path in z.recv.disk && z.recv.disk[path] == y.recv.disk[path]
  {
    var steps := Triples(AllChunks(id, sources, files, 0));
    RunKeepsOthers(alg, y, steps);
    if k: Key :| ValidKey(y.recv, k) && PathOf(y.recv, k) == path {
      StreamServes(id, sources, files, 0, k);
      RunIsLocal(alg, y, steps, k);
      assert View(Run(alg, y, steps), k) == View(y, k);
    } else {
      assert Unowned(y.recv, path);
    }
  }

  // The theorem

  /** The offer of files that all exist on the sending side. */
  function ManifestOf(alg: HashAlg, sources: Sources, files: seq<string>): FileManifest
    requires Entries(alg, sources, files).Ok?
  {
    var entries := Entries(alg, sources, files).value;
    FileManifest(entries, TotalSize(entries))
  }

  lemma BegunFileIsFresh(alg: HashAlg, y: Site, id: nat, manifest: FileManifest, i: nat, src: Bytes)
    requires y.pending == map[] && y.outcomes == map[]
    requires id in y.recv.transfers && i < |manifest.files| == |y.recv.transfers[id].paths|
    requires y.recv.transfers[id] == NewProgress(alg, manifest, y.recv.transfers[id].paths)
    requires manifest.files[i].blake3 == DigestOf(alg, src)
    requires var path := y.recv.transfers[id].paths[i];
             path in y.recv.disk && y.recv.disk[path] == []
    ensures ValidKey(y.recv, (id, i)) && Fresh(alg, y, (id, i), src)
  {
  }

  /** The files can be placed, at places no other transfer holds. */
  ghost predicate Deliverable(alg: HashAlg, dropDir: Path, st: RecvState, id: nat, sources: Sources, files: seq<string>) {
    && Separate(st) && AllIn(files, sources) && Entries(alg, sources, files).Ok?
    && Placeable(TreeOf(st), dropDir, ManifestOf(alg, sources, files).files)
    && Free(st, id, dropDir, ManifestOf(alg, sources, files).files)
  }

  lemma OfferedFilesAreFresh(alg: HashAlg, dropDir: Path, st: RecvState, id: nat, sources: Sources, files: seq<string>)
    requires Deliverable(alg, dropDir, st, id, sources, files)
    ensures var manifest := ManifestOf(alg, sources, files);
            var y := Site(Begin(alg, dropDir, st, id, manifest).0, map[], map[]);
            && Sound(y) && id in y.recv.transfers && |y.recv.transfers[id].paths| == |files| == |manifest.files|
            && forall i :: 0 <= i < |files| ==>
                 && ValidKey(y.recv, (id, i)) && Fresh(alg, y, (id, i), sources[files[i]])
                 && manifest.files[i].relativePath == files[i]
                 && PathOf(y.recv, (id, i)) == DestinationOf(dropDir, manifest.files, i)
  {
    var manifest := ManifestOf(alg, sources, files);
    EntriesShape(alg, sources, files);
    OfferIsSeparate(alg, dropDir, st, id, manifest);
    OfferEffect(alg, dropDir, st, id, manifest);
    var y := Site(Begin(alg, dropDir, st, id, manifest).0, map[], map[]);
    forall i | 0 <= i < |files|
      ensures ValidKey(y.recv, (id, i)) && Fresh(alg, y, (id, i), sources[files[i]])
      ensures manifest.files[i].relativePath == files[i]
      ensures PathOf(y.recv, (id, i)) == DestinationOf(dropDir, manifest.files, i)
    {
      assert EntryOf(alg, sources, files[i]) == Ok(manifest.files[i]);
      assert IsDestination(dropDir, manifest.files, DestinationOf(dropDir, manifest.files, i));
      BegunFileIsFresh(alg, y, id, manifest, i, sources[files[i]]);
    }
  }

  /** When every file is complete the counters add up to the manifest's total. */
  lemma CountersAddUp(alg: HashAlg, y: Site, z: Site, id: nat, sources: Sources, files: seq<string>)
    requires AllIn(files, sources) && Entries(alg, sources, files).Ok?
    requires id in z.recv.transfers && |z.recv.transfers[id].paths| == |files|
    requires forall i :: 0 <= i < |files| ==> ValidKey(y.recv, (id, i)) && Complete(y, z, (id, i), sources[files[i]])
    ensures Sum(z.recv.transfers[id].received) == ManifestOf(alg, sources, files).totalBytes
  {
    var entries := Entries(alg, sources, files).value;
    EntriesShape(alg, sources, files);
    forall i | 0 <= i < |files| ensures z.recv.transfers[id].received[i] == entries[i].size {
      assert Complete(y, z, (id, i), sources[files[i]]);
      assert EntryOf(alg, sources, files[i]) == Ok(entries[i]);
    }
    CountersAreSizes(z.recv.transfers[id].received, entries);
  }

  lemma StreamIsAccepted(alg: HashAlg, y: Site, cs: seq<FileChunk>, id: nat, count: nat)
    requires Sound(y) && y.pending == map[]
    requires id in y.recv.transfers && |y.recv.transfers[id].paths| == count
    requires forall c :: c in cs ==> c.transferId == id && c.fileIndex < count
    requires forall i :: 0 <= i < count ==> false !in OutcomesOf(Run(alg, y, Triples(cs)), (id, i))
    ensures var z := Run(alg, y, Triples(cs));
            var (end, results) := DeliverAll(alg, y.recv, cs);
            && end == z.recv && |results| == |cs| && (forall r :: r in results ==> r.Ok?)
            && (cs != [] ==> id in z.recv.transfers
                             && results[|cs| - 1] == Ok(Sum(z.recv.transfers[id].received)))
  {
    DeliverIsRun(alg, y, cs);
    if cs != [] {
      var results := DeliverAll(alg, y.recv, cs).1;
      assert results[|cs| - 1] in results && cs[|cs| - 1] in cs;
    }
  }

  /** The theorem for a table in which every file of every transfer is on disk at a place of its own. */
  lemma TransferAmongOthers(alg: HashAlg, dropDir: Path, st: RecvState, id: nat, sources: Sources, read: Reads, files: seq<string>)
    requires Lawful(alg) && Deliverable(alg, dropDir, st, id, sources, files)
    requires Readable(read, sources, files) && FullReads(read, sources, files)
    ensures var manifest := ManifestOf(alg, sources, files);
            var sent := Stream(id, sources, read, files, 0);
            var (begun, offer) := Begin(alg, dropDir, st, id, manifest);
            var (end, results) := DeliverAll(alg, begun, sent.chunks);
            && sent.error.None? && offer == Ok(())
            && |manifest.files| == |files| && |results| == |sent.chunks| && (forall r :: r in results ==> r.Ok?)
            && (forall i :: 0 <= i < |files| ==>
                  var path := DestinationOf(dropDir, manifest.files, i);
                  manifest.files[i].relativePath == files[i] && path in end.disk && end.disk[path] == sources[files[i]])
            && (forall path :: path in st.disk && !IsDestination(dropDir, manifest.files, path) ==>
                  path in end.disk && end.disk[path] == st.disk[path])
            && (sent.chunks == [] <==> forall i :: 0 <= i < |files| ==> sources[files[i]] == [])
            && (sent.chunks != [] ==> results[|sent.chunks| - 1] == Ok(manifest.totalBytes))
  {
    var manifest := ManifestOf(alg, sources, files);
    var chunks := AllChunks(id, sources, files, 0);
    FullStream(id, sources, read, files, 0);
    StreamShape(id, sources, files, 0);
    OfferedFilesAreFresh(alg, dropDir, st, id, sources, files);
    var y := Site(Begin(alg, dropDir, st, id, manifest).0, map[], map[]);
    OfferEffect(alg, dropDir, st, id, manifest);
    AllArrives(alg, y, id, sources, files);
    forall path | path in st.disk && !IsDestination(dropDir, manifest.files, path)
      ensures var z := Run(alg, y, Triples(chunks));
              path in z.recv.disk && z.recv.disk[path] == st.disk[path]
    {
      OthersStay(alg, dropDir, st, y, id, sources, files, path);
    }
  }

  lemma OthersStay(alg: HashAlg, dropDir: Path, st: RecvState, y: Site, id: nat, sources: Sources, files: seq<string>, path: Path)
    requires Deliverable(alg, dropDir, st, id, sources, files)
    requires y == Site(Begin(alg, dropDir, st, id, ManifestOf(alg, sources, files)).0, map[], map[])
    requires path in st.disk && !IsDestination(dropDir, ManifestOf(alg, sources, files).files, path)
    ensures var z := Run(alg, y, Triples(AllChunks(id, sources, files, 0)));
            path in z.recv.disk && z.recv.disk[path] == st.disk[path]
  {
    var manifest := ManifestOf(alg, sources, files);
    OfferedFilesAreFresh(alg, dropDir, st, id, sources, files);
    OfferEffect(alg, dropDir, st, id, manifest);
    forall k: Key | ValidKey(y.recv, k) && k.0 == id ensures PathOf(y.recv, k) != path {
      assert PathOf(y.recv, (id, k.1)) == DestinationOf(dropDir, manifest.files, k.1);
    }
    StreamKeeps(alg, y, id, sources, files, path);
  }

  lemma AllArrives(alg: HashAlg, y: Site, id: nat, sources: Sources, files: seq<string>)
    requires Lawful(alg) && Sound(y) && y.pending == map[] && AllIn(files, sources) && Entries(alg, sources, files).Ok?
    requires id in y.recv.transfers && |y.recv.transfers[id].paths| == |files|
    requires forall i :: 0 <= i < |files| ==> ValidKey(y.recv, (id, i)) && Fresh(alg, y, (id, i), sources[files[i]])
    ensures var chunks := AllChunks(id, sources, files, 0);
            var z := Run(alg, y, Triples(chunks));
            var (end, results) := DeliverAll(alg, y.recv, chunks);
            && end == z.recv && |results| == |chunks| && (forall r :: r in results ==> r.Ok?)
            && (forall i :: 0 <= i < |files| ==> Complete(y, z, (id, i), sources[files[i]]))
            && (chunks != [] ==> results[|chunks| - 1] == Ok(ManifestOf(alg, sources, files).totalBytes))
  {
    StreamShape(id, sources, files, 0);
    StreamCompletes(alg, y, id, sources, files);
    ChunksAccepted(alg, y, id, sources, files, AllChunks(id, sources, files, 0));
  }

  /** A transfer's chunks neither see nor touch the other transfers in the table. */
  lemma WriteElsewhere(alg: HashAlg, a: RecvState, b: RecvState, c: FileChunk)
    requires c.transferId in a.transfers && c.transferId in b.transfers
    requires a.transfers[c.transferId] == b.transfers[c.transferId] && a.disk == b.disk
    ensures var (a', r) := WriteChunk(alg, a, c);
            var (b', q) := WriteChunk(alg, b, c);
            && r == q && a'.disk == b'.disk && c.transferId in a'.transfers && c.transferId in b'.transfers
            && a'.transfers[c.transferId] == b'.transfers[c.transferId]
            && (forall id :: id != c.transferId && id in a.transfers ==>
                  id in a'.transfers && a'.transfers[id] == a.transfers[id])
  {
  }

  lemma {:induction false} DeliverElsewhere(alg: HashAlg, a: RecvState, b: RecvState, id: nat, cs: seq<FileChunk>)
    requires id in a.transfers && id in b.transfers && a.transfers[id] == b.transfers[id] && a.disk == b.disk
    requires forall c :: c in cs ==> c.transferId == id
    ensures var (a', rs) := DeliverAll(alg, a, cs);
            var (b', qs) := DeliverAll(alg, b, cs);
            && rs == qs && a'.disk == b'.disk && id in a'.transfers && id in b'.transfers
            && a'.transfers[id] == b'.transfers[id]
            && (forall other :: other != id && other in a.transfers ==>
                  other in a'.transfers && a'.transfers[other] == a.transfers[other])
  {
    if cs != [] {
      var front, c := cs[..|cs| - 1], cs[|cs| - 1];
      assert c in cs && forall d :: d in front ==> d in cs;
      DeliverElsewhere(alg, a, b, id, front);
      WriteElsewhere(alg, DeliverAll(alg, a, front).0, DeliverAll(alg, b, front).0, c);
    }
  }

  /** An offer depends on the table for nothing but the entry it makes. */
  lemma OfferElsewhereInTable(alg: HashAlg, dropDir: Path, st: RecvState, id: nat, manifest: FileManifest)
    requires Begin(alg, dropDir, st, id, manifest).1.Ok?
    ensures var (a, r) := Begin(alg, dropDir, st, id, manifest);
            var (b, q) := Begin(alg, dropDir, RecvState(map[], st.disk, st.dirs), id, manifest);
            && r == q && a.disk == b.disk && a.dirs == b.dirs && id in a.transfers && id in b.transfers
            && a.transfers[id] == b.transfers[id]
            && (forall other :: other != id && other in st.transfers ==>
                  other in a.transfers && a.transfers[other] == st.transfers[other])
  {
  }

  /** End to end: handling the offer and then the chunk stream of `send_files`, read in full, accepts every
      chunk, makes every received file equal to its source, changes no other file and no other transfer,
      and the last result is the manifest's total. Chunks are sent exactly if some file is not empty.
      What the table holds of other transfers, finished ones to the same places included, does not matter. */
  lemma TransferEndToEnd(alg: HashAlg, dropDir: Path, st: RecvState, id: nat, sources: Sources, read: Reads, files: seq<string>)
    requires Lawful(alg) && AllIn(files, sources) && Entries(alg, sources, files).Ok?
    requires Placeable(TreeOf(st), dropDir, ManifestOf(alg, sources, files).files)
    requires Readable(read, sources, files) && FullReads(read, sources, files)
    ensures var manifest := ManifestOf(alg, sources, files);
            var sent := Stream(id, sources, read, files, 0);
            var (begun, offer) := Begin(alg, dropDir, st, id, manifest);
            var (end, results) := DeliverAll(alg, begun, sent.chunks);
            && sent.error.None? && offer == Ok(())
            && |manifest.files| == |files| && |results| == |sent.chunks| && (forall r :: r in results ==> r.Ok?)
            && (forall i :: 0 <= i < |files| ==>
                  var path := DestinationOf(dropDir, manifest.files, i);
                  manifest.files[i].relativePath == files[i] && path in end.disk && end.disk[path] == sources[files[i]])
            && (forall path :: path in st.disk && !IsDestination(dropDir, manifest.files, path) ==>
                  path in end.disk && end.disk[path] == st.disk[path])
            && (forall other :: other != id && other in st.transfers ==>
                  other in end.transfers && end.transfers[other] == st.transfers[other])
            && (sent.chunks == [] <==> forall i :: 0 <= i < |files| ==> sources[files[i]] == [])
            && (sent.chunks != [] ==> results[|sent.chunks| - 1] == Ok(manifest.totalBytes))
  {
    var manifest := ManifestOf(alg, sources, files);
    var alone := RecvState(map[], st.disk, st.dirs);
    assert TreeOf(alone) == TreeOf(st);
    FullStream(id, sources, read, files, 0);
    StreamShape(id, sources, files, 0);
    TransferAmongOthers(alg, dropDir, alone, id, sources, read, files);
    OfferEffect(alg, dropDir, st, id, manifest);
    OfferElsewhereInTable(alg, dropDir, st, id, manifest);
    DeliverElsewhere(alg, Begin(alg, dropDir, st, id, manifest).0, Begin(alg, dropDir, alone, id, manifest).0, id,
                     AllChunks(id, sources, files, 0));
  }

  // Interruption and resumption

  function ContentsOf(sources: Sources, files: seq<string>): seq<Bytes>
    requires AllIn(files, sources)
  {
    seq(|files|, i requires 0 <= i < |files| => sources[files[i]])
  }

  /** Files that an interrupted transfer has left: prefixes of their sources, nothing in flight. */
  ghost predicate Interrupted(alg: HashAlg, y: Site, id: nat, sources: Sources, files: seq<string>)
    requires AllIn(files, sources)
  {
    && id in y.recv.transfers && |y.recv.transfers[id].paths| == |files|
    && forall i :: 0 <= i < |files| ==>
         && PathOf(y.recv, (id, i)) in y.recv.disk
         && var v := View(y, (id, i));
            && Hashed(alg, v) && PrefixOf(v, sources[files[i]]) && v.pending.None?
            && v.want == DigestOf(alg, sources[files[i]])
  }

  /** The rests of the files from the given offsets, each cut into contiguous chunks, and an order that
      delivers the chunks of each file in turn. */
  ghost predicate ResumesAt(offsets: seq<nat>, id: nat, sources: Sources, files: seq<string>,
                            rests: seq<seq<FileChunk>>, order: seq<FileChunk>)
    requires AllIn(files, sources)
  {
    && |offsets| == |rests| == |files|
    && (forall c :: c in order ==> c.transferId == id && c.fileIndex < |files|)
    && forall i :: 0 <= i < |files| ==>
         && Contiguous(rests[i], (id, i), sources[files[i]], offsets[i])
         && End(rests[i], offsets[i]) == |sources[files[i]]|
         && Of(Triples(order), (id, i)) == Triples(rests[i])
  }

  lemma NarrowTwice(y: Site, live: set<nat>)
    ensures Narrow(Narrow(y, live), live) == Narrow(y, live)
  {
    assert Only(Only(y.recv, live), live).transfers == Only(y.recv, live).transfers;
  }

  lemma RestsComplete(alg: HashAlg, y: Site, live: set<nat>, id: nat, sources: Sources, files: seq<string>,
                      rests: seq<seq<FileChunk>>, order: seq<FileChunk>)
    requires Lawful(alg) && Sound(y) && Narrow(y, live) == y && id in live && y.outcomes == map[]
    requires AllIn(files, sources) && Interrupted(alg, y, id, sources, files)
    requires ResumesAt(y.recv.transfers[id].received, id, sources, files, rests, order)
    ensures forall i :: 0 <= i < |files| ==>
              ValidKey(y.recv, (id, i)) && Complete(y, Run(alg, y, Triples(order)), (id, i), sources[files[i]])
  {
    var contents := ContentsOf(sources, files);
    var z := Run(alg, y, Triples(order));
    TriplesLive(order, live, id);
    ResumeCompletes(alg, y, live, id, contents, rests, Triples(order));
    forall i | 0 <= i < |files| ensures ValidKey(y.recv, (id, i)) && Complete(y, z, (id, i), sources[files[i]]) {
      assert Completed(y, z, (id, i), contents[i], |rests[i]|);
      CompletedIsComplete(y, z, (id, i), contents[i], |rests[i]|);
    }
  }

  /** The rests bring every file to completion, on a table that holds only live transfers. */
  lemma RestsArrive(alg: HashAlg, y: Site, live: set<nat>, id: nat, sources: Sources, files: seq<string>,
                    rests: seq<seq<FileChunk>>, order: seq<FileChunk>)
    requires Lawful(alg) && Sound(y) && Narrow(y, live) == y && id in live && y.pending == map[] && y.outcomes == map[]
    requires AllIn(files, sources) && Entries(alg, sources, files).Ok? && Interrupted(alg, y, id, sources, files)
    requires ResumesAt(y.recv.transfers[id].received, id, sources, files, rests, order)
    ensures var z := Run(alg, y, Triples(order));
            var (end, results) := DeliverAll(alg, y.recv, order);
            && end == z.recv && |results| == |order| && (forall r :: r in results ==> r.Ok?)
            && (forall i :: 0 <= i < |files| ==> Complete(y, z, (id, i), sources[files[i]]))
            && (order != [] ==> results[|order| - 1] == Ok(ManifestOf(alg, sources, files).totalBytes))
  {
    RestsComplete(alg, y, live, id, sources, files, rests, order);
    ChunksAccepted(alg, y, id, sources, files, order);
  }

  /** If the chunks complete every file, they are all accepted and the last returns the total. */
  lemma ChunksAccepted(alg: HashAlg, y: Site, id: nat, sources: Sources, files: seq<string>, order: seq<FileChunk>)
    requires Sound(y) && y.pending == map[] && AllIn(files, sources) && Entries(alg, sources, files).Ok?
    requires id in y.recv.transfers && |y.recv.transfers[id].paths| == |files|
    requires forall c :: c in order ==> c.transferId == id && c.fileIndex < |files|
    requires forall i :: 0 <= i < |files| ==>
               ValidKey(y.recv, (id, i)) && Complete(y, Run(alg, y, Triples(order)), (id, i), sources[files[i]])
    ensures var z := Run(alg, y, Triples(order));
            var (end, results) := DeliverAll(alg, y.recv, order);
            && end == z.recv && |results| == |order| && (forall r :: r in results ==> r.Ok?)
            && (order != [] ==> results[|order| - 1] == Ok(ManifestOf(alg, sources, files).totalBytes))
  {
    var z := Run(alg, y, Triples(order));
    RunKeepsOthers(alg, y, Triples(order));
    forall i | 0 <= i < |files| ensures false !in OutcomesOf(z, (id, i)) {
      assert Complete(y, z, (id, i), sources[files[i]]);
    }
    StreamIsAccepted(alg, y, order, id, |files|);
    CountersAddUp(alg, y, z, id, sources, files);
  }

  lemma CompletedIsComplete(y: Site, z: Site, k: Key, src: Bytes, n: nat)
    requires Completed(y, z, k, src, n) && OutcomesOf(y, k) == []
    ensures Complete(y, z, k, src)
  {
    var results :| View(z, k).outcomes == View(y, k).outcomes + results && |results| == n && forall b :: b in results ==> b;
    Seqs.Nothing(results);
    assert OutcomesOf(z, k) == results;
  }

  lemma {:induction false} TriplesLive(cs: seq<FileChunk>, live: set<nat>, id: nat)
    requires id in live && forall c :: c in cs ==> c.transferId == id
    ensures AreLive(Triples(cs), live)
  {
    if cs != [] {
      TriplesLive(cs[..|cs| - 1], live, id);
      assert cs[|cs| - 1] in cs;
    }
  }

  /** The chunks that reach the receiver for a transfer are among those the sender sends for its files. */
  ghost predicate FromSender(steps: seq<WriteStep>, id: nat, sources: Sources, files: seq<string>)
    requires AllIn(files, sources)
  {
    forall s :: s in steps && s.CheckStep? && s.chunk.transferId == id ==>
      s.chunk.fileIndex < |files| && s.chunk in ChunksFrom(id, s.chunk.fileIndex, sources[files[s.chunk.fileIndex]], 0)
  }

  /** After an offer, whatever part of the chunks arrives, in any order, any number of times and in any
      interleaving with other live transfers, leaves an interrupted transfer. */
  lemma OfferThenLoss(alg: HashAlg, dropDir: Path, st: RecvState, live: set<nat>, id: nat, sources: Sources,
                      files: seq<string>, before: seq<WriteStep>)
    requires Lawful(alg) && id in live && Deliverable(alg, dropDir, Only(st, live - {id}), id, sources, files)
    requires AreLive(before, live) && FromSender(before, id, sources, files)
    requires var y := Site(Begin(alg, dropDir, st, id, ManifestOf(alg, sources, files)).0, map[], map[]);
             Run(alg, y, before).pending == map[]
    ensures var y := Site(Begin(alg, dropDir, st, id, ManifestOf(alg, sources, files)).0, map[], map[]);
            var m := Run(alg, y, before);
            SoundFor(m, live) && Interrupted(alg, Narrow(m, live), id, sources, files)
  {
    var manifest := ManifestOf(alg, sources, files);
    var rest := Only(st, live - {id});
    var y := Site(Begin(alg, dropDir, st, id, manifest).0, map[], map[]);
    OfferedFilesAreFresh(alg, dropDir, rest, id, sources, files);
    OfferNarrow(alg, dropDir, st, live, id, manifest);
    assert Narrow(y, live) == Site(Begin(alg, dropDir, rest, id, manifest).0, map[], map[]);
    var m := Run(alg, y, before);
    RunNarrow(alg, y, live, before);
    forall i | 0 <= i < |files|
      ensures ValidKey(Narrow(m, live).recv, (id, i)) && PathOf(Narrow(m, live).recv, (id, i)) in Narrow(m, live).recv.disk
      ensures var v := View(Narrow(m, live), (id, i));
              && Hashed(alg, v) && PrefixOf(v, sources[files[i]]) && v.pending.None?
              && v.want == DigestOf(alg, sources[files[i]])
    {
      LostFile(alg, Narrow(y, live), (id, i), sources[files[i]], before);
    }
    RunKeepsOthers(alg, Narrow(y, live), before);
  }

  lemma LostFile(alg: HashAlg, y: Site, k: Key, src: Bytes, before: seq<WriteStep>)
    requires Lawful(alg) && Sound(y) && ValidKey(y.recv, k) && Fresh(alg, y, k, src)
    requires forall s :: s in before && s.CheckStep? && KeyOf(s) == k ==> s.chunk in ChunksFrom(k.0, k.1, src, 0)
    requires Run(alg, y, before).pending == map[]
    ensures var m := Run(alg, y, before);
            && ValidKey(m.recv, k) && PathOf(m.recv, k) in m.recv.disk
            && var v := View(m, k);
               Hashed(alg, v) && PrefixOf(v, src) && v.pending.None? && v.want == DigestOf(alg, src)
  {
    HashEnds(alg, View(y, k).content);
    assert View(y, k).pending.None?;
    PrefixSafetyWhenAllLive(alg, y, before, k, src);
    RunIsLocal(alg, y, before, k);
    assert Run(alg, y, before).recv.transfers[k.0].manifest == y.recv.transfers[k.0].manifest;
  }

  /** Interruption and resumption, end to end: an offer, then any loss, duplication, reordering and
      interleaving of the sender's chunks that leaves nothing in flight, then each file's rest from its
      resume offset, in chunks of any sizes. Every chunk of the rests is accepted, every file equals its
      source, and the last result is the manifest's total. */
  lemma InterruptedTransferCompletes(alg: HashAlg, dropDir: Path, st: RecvState, live: set<nat>, id: nat, sources: Sources,
                                     files: seq<string>, before: seq<WriteStep>, offsets: seq<nat>,
                                     rests: seq<seq<FileChunk>>, order: seq<FileChunk>)
    requires Lawful(alg) && id in live && Deliverable(alg, dropDir, Only(st, live - {id}), id, sources, files)
    requires AreLive(before, live) && FromSender(before, id, sources, files)
    requires var m := Run(alg, Site(Begin(alg, dropDir, st, id, ManifestOf(alg, sources, files)).0, map[], map[]), before);
             m.pending == map[] && ResumeOffsets(m.recv, id) == Some(offsets)
    requires ResumesAt(offsets, id, sources, files, rests, order)
    ensures var manifest := ManifestOf(alg, sources, files);
            var m := Run(alg, Site(Begin(alg, dropDir, st, id, manifest).0, map[], map[]), before);
            var (end, results) := DeliverAll(alg, m.recv, order);
            && |manifest.files| == |files| && |results| == |order| && (forall r :: r in results ==> r.Ok?)
            && (forall i :: 0 <= i < |files| ==>
                  var path := DestinationOf(dropDir, manifest.files, i);
                  path in end.disk && end.disk[path] == sources[files[i]])
            && (order != [] ==> results[|order| - 1] == Ok(manifest.totalBytes))
  {
    var manifest := ManifestOf(alg, sources, files);
    var y := Site(Begin(alg, dropDir, st, id, manifest).0, map[], map[]);
    var m := Run(alg, y, before);
    OfferThenLoss(alg, dropDir, st, live, id, sources, files, before);
    var n := Narrow(m, live).(outcomes := map[]);
    NarrowTwice(m, live);
    WithoutOutcomes(alg, Narrow(m, live), id, sources, files);
    RestsArrive(alg, n, live, id, sources, files, rests, order);
    DeliverElsewhere(alg, m.recv, n.recv, id, order);
    KeepsPlaces(alg, dropDir, st, live, id, sources, files, before);
    forall i | 0 <= i < |files|
      ensures var path := DestinationOf(dropDir, manifest.files, i);
              var end := DeliverAll(alg, m.recv, order).0;
              path in end.disk && end.disk[path] == sources[files[i]]
    {
      assert Complete(n, Run(alg, n, Triples(order)), (id, i), sources[files[i]]);
    }
  }

  lemma WithoutOutcomes(alg: HashAlg, y: Site, id: nat, sources: Sources, files: seq<string>)
    requires AllIn(files, sources) && Sound(y) && Interrupted(alg, y, id, sources, files)
    ensures var n := y.(outcomes := map[]); Sound(n) && Interrupted(alg, n, id, sources, files)
  {
    var n := y.(outcomes := map[]);
    forall i | 0 <= i < |files| ensures View(n, (id, i)) == View(y, (id, i)).(outcomes := []) {
    }
  }

  lemma KeepsPlaces(alg: HashAlg, dropDir: Path, st: RecvState, live: set<nat>, id: nat, sources: Sources,
                    files: seq<string>, before: seq<WriteStep>)
    requires id in live && Deliverable(alg, dropDir, Only(st, live - {id}), id, sources, files) && AreLive(before, live)
    ensures var manifest := ManifestOf(alg, sources, files);
            var m := Run(alg, Site(Begin(alg, dropDir, st, id, manifest).0, map[], map[]), before);
            && |manifest.files| == |files| && id in m.recv.transfers && |m.recv.transfers[id].paths| == |files|
            && forall i :: 0 <= i < |files| ==> m.recv.transfers[id].paths[i] == DestinationOf(dropDir, manifest.files, i)
  {
    var manifest := ManifestOf(alg, sources, files);
    var rest := Only(st, live - {id});
    var y := Site(Begin(alg, dropDir, st, id, manifest).0, map[], map[]);
    OfferedFilesAreFresh(alg, dropDir, rest, id, sources, files);
    OfferNarrow(alg, dropDir, st, live, id, manifest);
    RunNarrow(alg, y, live, before);
    RunKeepsOthers(alg, Narrow(y, live), before);
    assert Narrow(Run(alg, y, before), live).recv.transfers[id].paths == Narrow(y, live).recv.transfers[id].paths;
  }
}
