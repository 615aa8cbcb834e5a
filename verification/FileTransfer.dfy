/** What a transfer guarantees about each file: prefix safety, hash soundness, resumption and completion. */
module FileTransfer {
  import opened Protocol
  import opened FileReceiver
  import opened FileSender
  import opened FileInterleaving

  // Hash soundness

  /** The hasher has absorbed exactly the committed bytes, which are all there is on disk except for a
      write between its store and its commit; a pending write continues where the file ends. */
  ghost predicate Hashed(alg: HashAlg, v: FileView) {
    && v.received <= |v.content|
    && v.hasher == alg.update(alg.init, v.content[..v.received])
    && match v.pending
       case None => |v.content| == v.received
       case Some(p) =>
         && p.chunk.offset == v.received && p.hasher == v.hasher
         && v.content == v.content[..v.received] + (if p.stored then p.chunk.data else [])
  }

  lemma AppendAtEnd(content: Bytes, data: Bytes)
    ensures WriteAt(content, |content|, data) == content + data
  {
  }

  lemma HashedStep(alg: HashAlg, v: FileView, s: WriteStep)
    requires Lawful(alg) && Hashed(alg, v)
    ensures Hashed(alg, StepView(alg, v, s))
  {
    match s
    case CheckStep(_) =>
      assert v.content[..v.received] + [] == v.content[..v.received];
    case StoreStep(_) =>
      if v.pending.Some? && !v.pending.value.stored {
        assert v.content == v.content[..v.received];
        AppendAtEnd(v.content, v.pending.value.chunk.data);
        var w := StepView(alg, v, s);
        assert w.content[..v.received] == v.content;
      }
    case CommitStep(_) =>
      if v.pending.Some? && v.pending.value.stored {
        var data := v.pending.value.chunk.data;
        HashMore(alg, v.content, v.received, |data|);
        assert v.content[v.received..v.received + |data|] == data;
        assert v.content[..v.received + |data|] == v.content;
      }
  }

  lemma {:induction false} HashedRun(alg: HashAlg, v: FileView, steps: seq<WriteStep>)
    requires Lawful(alg) && Hashed(alg, v)
    ensures Hashed(alg, RunView(alg, v, steps))
  {
    if steps != [] {
      HashedRun(alg, v, steps[..|steps| - 1]);
      HashedStep(alg, RunView(alg, v, steps[..|steps| - 1]), steps[|steps| - 1]);
    }
  }

  lemma CommitVerdict(alg: HashAlg, v: FileView, s: WriteStep)
    requires Lawful(alg) && Hashed(alg, v) && s.CommitStep?
    ensures v.pending.Some? && v.pending.value.stored ==>
              StepView(alg, v, s).outcomes
              == v.outcomes + [v.pending.value.chunk.isLast ==> DigestOf(alg, v.content) == v.want]
  {
    if v.pending.Some? && v.pending.value.stored {
      HashedStep(alg, v, s);
      var w := StepView(alg, v, s);
      assert w.content[..w.received] == v.content;
    }
  }

  lemma HashSoundnessWhenAllLive(alg: HashAlg, y: Site, steps: seq<WriteStep>, k: Key)
    requires Lawful(alg) && Sound(y) && ValidKey(y.recv, k) && Hashed(alg, View(y, k))
    ensures Sound(Run(alg, y, steps)) && ValidKey(Run(alg, y, steps).recv, k)
    ensures var z := Run(alg, y, steps);
            var v := View(z, k);
            && Hashed(alg, v)
            && (v.pending.Some? && v.pending.value.stored ==>
                  OutcomesOf(Step(alg, z, CommitStep(k)), k)
                  == OutcomesOf(z, k) + [v.pending.value.chunk.isLast ==> DigestOf(alg, v.content) == v.want])
  {
    RunIsLocal(alg, y, steps, k);
    HashedRun(alg, View(y, k), Of(steps, k));
    var z := Run(alg, y, steps);
    var v := View(z, k);
    StepIsLocal(alg, z, CommitStep(k), k);
    CommitVerdict(alg, v, CommitStep(k));
  }

  /** Hash soundness: after any interleaving of any writes, whatever they carry, the hasher of a file is
      the hash state of its bytes; and committing a pending write succeeds exactly if it is not marked
      last or the bytes on disk have the digest the manifest announced. */
  lemma HashSoundness(alg: HashAlg, y: Site, live: set<nat>, steps: seq<WriteStep>, k: Key)
    requires Lawful(alg) && SoundFor(y, live) && AreLive(steps, live)
    requires ValidKey(y.recv, k) && k.0 in live && PathOf(y.recv, k) in y.recv.disk && Hashed(alg, View(y, k))
    ensures SoundFor(Run(alg, y, steps), live)
    ensures var z := Run(alg, y, steps);
            ValidKey(z.recv, k) && PathOf(z.recv, k) in z.recv.disk
    ensures var z := Run(alg, y, steps);
            var v := View(z, k);
            && Hashed(alg, v)
            && (v.pending.Some? && v.pending.value.stored ==>
                  OutcomesOf(Step(alg, z, CommitStep(k)), k)
                  == OutcomesOf(z, k) + [v.pending.value.chunk.isLast ==> DigestOf(alg, v.content) == v.want])
  {
    LiveRun(alg, y, live, steps, k);
    HashSoundnessWhenAllLive(alg, Narrow(y, live), steps, k);
    StepNarrow(alg, Run(alg, y, steps), live, CommitStep(k));
  }

  /** A run seen from a live file: the same with and without the transfers that are not live. */
  lemma LiveRun(alg: HashAlg, y: Site, live: set<nat>, steps: seq<WriteStep>, k: Key)
    requires SoundFor(y, live) && AreLive(steps, live)
    requires ValidKey(y.recv, k) && k.0 in live && PathOf(y.recv, k) in y.recv.disk
    ensures var (z, w) := (Run(alg, y, steps), Run(alg, Narrow(y, live), steps));
            && Sound(Narrow(y, live)) && ValidKey(Narrow(y, live).recv, k) && View(Narrow(y, live), k) == View(y, k)
            && SoundFor(z, live) && Narrow(z, live) == w && ValidKey(z.recv, k) && PathOf(z.recv, k) in z.recv.disk
            && ValidKey(w.recv, k) && PathOf(w.recv, k) in w.recv.disk && View(w, k) == View(z, k)
            && OutcomesOf(w, k) == OutcomesOf(z, k) && PathOf(z.recv, k) == PathOf(y.recv, k)
  {
    LiveView(y, live, k);
    RunNarrow(alg, y, live, steps);
    RunIsLocal(alg, Narrow(y, live), steps, k);
    LiveView(Run(alg, y, steps), live, k);
  }

  // Prefix safety

  /** A chunk that carries what the source has at its offset. */
  predicate Matches(c: FileChunk, src: Bytes) {
    c.offset + |c.data| <= |src| && c.data == src[c.offset..c.offset + |c.data|]
  }

  ghost predicate PrefixOf(v: FileView, src: Bytes) {
    v.content <= src && (v.pending.Some? ==> Matches(v.pending.value.chunk, src))
  }

  ghost predicate ChecksMatch(steps: seq<WriteStep>, src: Bytes) {
    forall i :: 0 <= i < |steps| ==> (steps[i].CheckStep? ==> Matches(steps[i].chunk, src))
  }

  lemma PrefixStep(alg: HashAlg, v: FileView, s: WriteStep, src: Bytes)
    requires Hashed(alg, v) && PrefixOf(v, src) && (s.CheckStep? ==> Matches(s.chunk, src))
    ensures PrefixOf(StepView(alg, v, s), src)
  {
    if s.StoreStep? && v.pending.Some? && !v.pending.value.stored {
      var c := v.pending.value.chunk;
      assert v.content == v.content[..v.received];
      AppendAtEnd(v.content, c.data);
      assert src[..c.offset] + src[c.offset..c.offset + |c.data|] == src[..c.offset + |c.data|];
    }
  }

  lemma {:induction false} PrefixRun(alg: HashAlg, v: FileView, steps: seq<WriteStep>, src: Bytes)
    requires Lawful(alg) && Hashed(alg, v) && PrefixOf(v, src) && ChecksMatch(steps, src)
    ensures PrefixOf(RunView(alg, v, steps), src)
  {
    if steps != [] {
      var front := steps[..|steps| - 1];
      PrefixRun(alg, v, front, src);
      HashedRun(alg, v, front);
      PrefixStep(alg, RunView(alg, v, front), steps[|steps| - 1], src);
    }
  }

  lemma PrefixSafetyWhenAllLive(alg: HashAlg, y: Site, steps: seq<WriteStep>, k: Key, src: Bytes)
    requires Lawful(alg) && Sound(y) && ValidKey(y.recv, k)
    requires Hashed(alg, View(y, k)) && PrefixOf(View(y, k), src)
    requires forall s :: s in steps && s.CheckStep? && KeyOf(s) == k ==> s.chunk in ChunksFrom(k.0, k.1, src, 0)
    ensures Sound(Run(alg, y, steps)) && ValidKey(Run(alg, y, steps).recv, k)
    ensures var v := View(Run(alg, y, steps), k);
            && Hashed(alg, v) && PrefixOf(v, src) && v.content <= src && v.received <= |v.content|
            && (v.pending.None? || !v.pending.value.stored ==> |v.content| == v.received)
  {
    RunIsLocal(alg, y, steps, k);
    var own := Of(steps, k);
    OfMembers(steps, k);
    forall i | 0 <= i < |own| ensures own[i].CheckStep? ==> Matches(own[i].chunk, src) {
      assert own[i] in own;
      if own[i].CheckStep? {
        ChunksMatch(k.0, k.1, src, 0, own[i].chunk);
      }
    }
    HashedRun(alg, View(y, k), own);
    PrefixRun(alg, View(y, k), own, src);
  }

  /** Prefix safety: whatever subset of the sender's chunks of a file arrives, in whatever order, however
      often, and however the writes of all transfers interleave, the file is at all times a prefix of
      the source, of exactly the counted length unless a write is between store and commit. */
  lemma PrefixSafety(alg: HashAlg, y: Site, live: set<nat>, steps: seq<WriteStep>, k: Key, src: Bytes)
    requires Lawful(alg) && SoundFor(y, live) && AreLive(steps, live)
    requires ValidKey(y.recv, k) && k.0 in live && PathOf(y.recv, k) in y.recv.disk
    requires Hashed(alg, View(y, k)) && PrefixOf(View(y, k), src)
    requires forall s :: s in steps && s.CheckStep? && KeyOf(s) == k ==> s.chunk in ChunksFrom(k.0, k.1, src, 0)
    ensures SoundFor(Run(alg, y, steps), live)
    ensures var z := Run(alg, y, steps);
            ValidKey(z.recv, k) && PathOf(z.recv, k) in z.recv.disk
    ensures var v := View(Run(alg, y, steps), k);
            && Hashed(alg, v) && PrefixOf(v, src) && v.content <= src && v.received <= |v.content|
            && (v.pending.None? || !v.pending.value.stored ==> |v.content| == v.received)
  {
    LiveRun(alg, y, live, steps, k);
    PrefixSafetyWhenAllLive(alg, Narrow(y, live), steps, k, src);
  }

  lemma {:induction false} ChunksMatch(id: nat, index: nat, src: Bytes, offset: nat, c: FileChunk)
    requires offset <= |src| && c in ChunksFrom(id, index, src, offset)
    ensures Matches(c, src)
    decreases |src| - offset
  {
    if |src| - offset >= CHUNK_SIZE && c in ChunksFrom(id, index, src, offset + CHUNK_SIZE) {
      ChunksMatch(id, index, src, offset + CHUNK_SIZE, c);
    }
  }

  // Completion and resumption

  function End(cs: seq<FileChunk>, start: nat): nat {
    if cs == [] then start else cs[|cs| - 1].offset + |cs[|cs| - 1].data|
  }

  /** Chunks of one file that continue each other from `start`; only one that reaches the end of the
      source may be marked last. */
  predicate Contiguous(cs: seq<FileChunk>, k: Key, src: Bytes, start: nat) {
    cs == [] ||
    (var front, c := cs[..|cs| - 1], cs[|cs| - 1];
     && Contiguous(front, k, src, start)
     && KeyOf(CheckStep(c)) == k && c.offset == End(front, start) && Matches(c, src)
     && (c.isLast ==> End(cs, start) == |src|))
  }

  /** Whole writes, one after another. */
  function Triples(cs: seq<FileChunk>): seq<WriteStep> {
    if cs == [] then []
    else
      var c := cs[|cs| - 1];
      var k := KeyOf(CheckStep(c));
      Triples(cs[..|cs| - 1]) + [CheckStep(c)] + [StoreStep(k)] + [CommitStep(k)]
  }

  function Verdicts(cs: seq<FileChunk>, good: bool): seq<bool> {
    if cs == [] then [] else Verdicts(cs[..|cs| - 1], good) + [cs[|cs| - 1].isLast ==> good]
  }

  /** Nothing in flight and `n` bytes of the source received. */
  ghost predicate Received(alg: HashAlg, v: FileView, src: Bytes, n: nat) {
    Hashed(alg, v) && v.pending.None? && v.received == n <= |src| && v.content == src[..n]
  }

  lemma RunOneMore(alg: HashAlg, v: FileView, front: seq<WriteStep>, s: WriteStep)
    ensures RunView(alg, v, front + [s]) == StepView(alg, RunView(alg, v, front), s)
  {
    assert (front + [s])[..|front|] == front;
  }

  /** A whole write as its file sees it. */
  function WriteView(alg: HashAlg, v: FileView, c: FileChunk): FileView {
    var k := KeyOf(CheckStep(c));
    StepView(alg, StepView(alg, StepView(alg, v, CheckStep(c)), StoreStep(k)), CommitStep(k))
  }

  lemma TriplesRun(alg: HashAlg, v: FileView, cs: seq<FileChunk>)
    requires cs != []
    ensures RunView(alg, v, Triples(cs)) == WriteView(alg, RunView(alg, v, Triples(cs[..|cs| - 1])), cs[|cs| - 1])
  {
    var front, c := Triples(cs[..|cs| - 1]), cs[|cs| - 1];
    var k := KeyOf(CheckStep(c));
    RunOneMore(alg, v, front, CheckStep(c));
    RunOneMore(alg, v, front + [CheckStep(c)], StoreStep(k));
    RunOneMore(alg, v, front + [CheckStep(c)] + [StoreStep(k)], CommitStep(k));
  }

  lemma TripleReceived(alg: HashAlg, v: FileView, c: FileChunk, src: Bytes)
    requires Lawful(alg) && Received(alg, v, src, c.offset) && Matches(c, src)
    requires c.isLast ==> c.offset + |c.data| == |src|
    ensures var w := WriteView(alg, v, c);
            && Received(alg, w, src, c.offset + |c.data|) && w.path == v.path && w.want == v.want
            && w.outcomes == v.outcomes + [c.isLast ==> DigestOf(alg, src) == v.want]
  {
    var k := KeyOf(CheckStep(c));
    var v1 := StepView(alg, v, CheckStep(c));
    HashedStep(alg, v, CheckStep(c));
    var v2 := StepView(alg, v1, StoreStep(k));
    HashedStep(alg, v1, StoreStep(k));
    AppendAtEnd(v.content, c.data);
    assert src[..c.offset] + src[c.offset..c.offset + |c.data|] == src[..c.offset + |c.data|];
    assert v2.content == src[..c.offset + |c.data|];
    var w := StepView(alg, v2, CommitStep(k));
    HashedStep(alg, v2, CommitStep(k));
    assert w.content[..w.received] == w.content;
    if c.isLast {
      assert src[..|src|] == src;
    }
  }

  /** Contiguous chunks are all accepted and extend the file by what they carry; the one marked last is
      the only one whose result depends on the manifest. */
  lemma {:induction false} ContiguousReceived(alg: HashAlg, v: FileView, cs: seq<FileChunk>, k: Key, src: Bytes)
    requires Lawful(alg) && Received(alg, v, src, v.received) && Contiguous(cs, k, src, v.received)
    ensures var w := RunView(alg, v, Triples(cs));
            && End(cs, v.received) <= |src| && Received(alg, w, src, End(cs, v.received))
            && w.path == v.path && w.want == v.want
            && w.outcomes == v.outcomes + Verdicts(cs, DigestOf(alg, src) == v.want)
  {
    if cs == [] {
      assert v.outcomes + [] == v.outcomes;
    } else {
      var front, c := cs[..|cs| - 1], cs[|cs| - 1];
      ContiguousReceived(alg, v, front, k, src);
      var w := RunView(alg, v, Triples(front));
      TripleReceived(alg, w, c, src);
      TriplesRun(alg, v, cs);
      var good := DigestOf(alg, src) == v.want;
      assert v.outcomes + (Verdicts(front, good) + [c.isLast ==> good])
          == (v.outcomes + Verdicts(front, good)) + [c.isLast ==> good];
    }
  }

  lemma {:induction false} VerdictsAllTrue(cs: seq<FileChunk>, good: bool)
    requires good || forall c :: c in cs ==> !c.isLast
    ensures |Verdicts(cs, good)| == |cs| && forall b :: b in Verdicts(cs, good) ==> b
  {
    if cs != [] {
      var front := cs[..|cs| - 1];
      assert forall c :: c in front ==> c in cs;
      assert cs[|cs| - 1] in cs;
      VerdictsAllTrue(front, good);
    }
  }

  /** Resume correctness: from any state that, by prefix safety, an interrupted transfer can reach, sending each file's rest from
      its resume offset, in chunks of any sizes and with all files interleaved in any way, is accepted
      chunk by chunk and completes every file. */
  lemma ResumeCompletes(alg: HashAlg, y: Site, live: set<nat>, id: nat, sources: seq<Bytes>, rests: seq<seq<FileChunk>>,
                        steps: seq<WriteStep>)
    requires Lawful(alg) && SoundFor(y, live) && AreLive(steps, live) && id in live && id in y.recv.transfers
    requires |sources| == |rests| == |y.recv.transfers[id].paths|
    requires forall i :: 0 <= i < |sources| ==>
               PathOf(y.recv, (id, i)) in y.recv.disk &&
               var v := View(y, (id, i));
               && Hashed(alg, v) && PrefixOf(v, sources[i]) && v.pending.None?
               && v.want == DigestOf(alg, sources[i])
    requires forall i :: 0 <= i < |rests| ==>
               var offset := ResumeOffsets(y.recv, id).value[i];
               && Contiguous(rests[i], (id, i), sources[i], offset)
               && End(rests[i], offset) == |sources[i]|
               && Of(steps, (id, i)) == Triples(rests[i])
    ensures SoundFor(Run(alg, y, steps), live)
    ensures forall i :: 0 <= i < |sources| ==>
              Completed(y, Run(alg, y, steps), (id, i), sources[i], |rests[i]|)
  {
    RunNarrow(alg, y, live, steps);
    forall i | 0 <= i < |sources| ensures Completed(y, Run(alg, y, steps), (id, i), sources[i], |rests[i]|) {
      LiveRun(alg, y, live, steps, (id, i));
      RunIsLocal(alg, Narrow(y, live), steps, (id, i));
      RestCompletes(alg, View(y, (id, i)), rests[i], (id, i), sources[i]);
    }
  }

  /** The file equals its source, and the `n` writes since have all been accepted. */
  ghost predicate Completed(y: Site, z: Site, k: Key, src: Bytes, n: nat) {
    && ValidKey(y.recv, k) && PathOf(y.recv, k) in y.recv.disk
    && ValidKey(z.recv, k) && PathOf(z.recv, k) == PathOf(y.recv, k) && PathOf(z.recv, k) in z.recv.disk
    && var (v, w) := (View(y, k), View(z, k));
       && w.content == src && w.received == |src| && w.pending.None?
       && exists results :: w.outcomes == v.outcomes + results && |results| == n && forall b :: b in results ==> b
  }

  lemma RestCompletes(alg: HashAlg, v: FileView, rest: seq<FileChunk>, k: Key, src: Bytes)
    requires Lawful(alg) && Hashed(alg, v) && PrefixOf(v, src) && v.pending.None? && v.want == DigestOf(alg, src)
    requires Contiguous(rest, k, src, v.received) && End(rest, v.received) == |src|
    ensures var w := RunView(alg, v, Triples(rest));
            && w.content == src && w.received == |src| && w.pending.None?
            && exists results :: w.outcomes == v.outcomes + results && |results| == |rest|
                                 && forall b :: b in results ==> b
  {
    assert Received(alg, v, src, v.received);
    ContiguousReceived(alg, v, rest, k, src);
    VerdictsAllTrue(rest, true);
    assert src[..|src|] == src;
  }

  // The sender's own chunks

  lemma FirstChunk(id: nat, index: nat, src: Bytes, offset: nat)
    requires offset < |src|
    ensures var n := if |src| - offset < 65536 then |src| - offset else 65536;
            ChunksFrom(id, index, src, offset)
            == [FileChunk(id, index, offset, src[offset..offset + n], n < 65536)] + ChunksFrom(id, index, src, offset + n)
  {
    if |src| - offset < CHUNK_SIZE {
      assert src[offset..|src|] == src[offset..];
    }
  }

  lemma {:induction false} ContiguousAppend(a: seq<FileChunk>, b: seq<FileChunk>, k: Key, src: Bytes, start: nat)
    requires Contiguous(a, k, src, start) && Contiguous(b, k, src, End(a, start))
    ensures Contiguous(a + b, k, src, start) && End(a + b, start) == End(b, End(a, start))
  {
    if b == [] {
      assert a + b == a;
    } else {
      ContiguousAppend(a, b[..|b| - 1], k, src, start);
      assert (a + b)[..|a + b| - 1] == a + b[..|b| - 1];
    }
  }

  lemma ContiguousOne(c: FileChunk, k: Key, src: Bytes)
    requires KeyOf(CheckStep(c)) == k && Matches(c, src) && (c.isLast ==> c.offset + |c.data| == |src|)
    ensures Contiguous([c], k, src, c.offset) && End([c], c.offset) == c.offset + |c.data|
  {
    var cs := [c];
    assert cs[..|cs| - 1] == [] && Contiguous(cs[..|cs| - 1], k, src, c.offset);
  }

  /** The chunks of `send_files` are contiguous and end where the file ends. */
  lemma {:induction false} ChunksAreContiguous(id: nat, index: nat, src: Bytes, offset: nat)
    requires offset <= |src|
    ensures var cs := ChunksFrom(id, index, src, offset);
            Contiguous(cs, (id, index), src, offset) && End(cs, offset) == |src|
    decreases |src| - offset
  {
    if offset < |src| {
      var n := if |src| - offset < CHUNK_SIZE then |src| - offset else CHUNK_SIZE;
      var c := FileChunk(id, index, offset, src[offset..offset + n], n < CHUNK_SIZE);
      FirstChunk(id, index, src, offset);
      ContiguousOne(c, (id, index), src);
      ChunksAreContiguous(id, index, src, offset + n);
      ContiguousAppend([c], ChunksFrom(id, index, src, offset + n), (id, index), src, offset);
    }
  }

  /** One chunk is marked last exactly if the size is not a multiple of 65536, the chunk size. */
  lemma {:induction false} LastIsMarked(id: nat, index: nat, src: Bytes, offset: nat)
    requires offset <= |src|
    ensures (exists c :: c in ChunksFrom(id, index, src, offset) && c.isLast) <==> (|src| - offset) % 65536 != 0
    decreases |src| - offset
  {
    var cs := ChunksFrom(id, index, src, offset);
    var left := |src| - offset;
    if left == 0 {
    } else if left < CHUNK_SIZE {
      assert cs[0] in cs && cs[0].isLast;
    } else {
      var rest := ChunksFrom(id, index, src, offset + CHUNK_SIZE);
      LastIsMarked(id, index, src, offset + CHUNK_SIZE);
      assert forall c :: c in cs <==> c == cs[0] || c in rest;
      assert !cs[0].isLast;
    }
  }

  /** What verification catches. If a file changes between offer and sending, its chunks are all accepted
      exactly if no chunk is marked last, that is, if the new size is a multiple of the chunk size, or the
      digests agree. Either way the receiver ends up with the new content. */
  lemma ChangedFileIsCaughtExactly(alg: HashAlg, v: FileView, id: nat, index: nat, src: Bytes)
    requires Lawful(alg) && Received(alg, v, src, 0) && v.outcomes == []
    ensures var w := RunView(alg, v, Triples(ChunksFrom(id, index, src, 0)));
            && w.content == src
            && ((forall b :: b in w.outcomes ==> b) <==> |src| % 65536 == 0 || DigestOf(alg, src) == v.want)
  {
    ChunksAreContiguous(id, index, src, 0);
    LastIsMarked(id, index, src, 0);
    WholeFile(alg, v, ChunksFrom(id, index, src, 0), (id, index), src);
  }

  /** A read that comes up short before the file ends sends the file cut off there. That is caught unless
      the digests agree: a cut in the middle of the file always has a chunk marked last. */
  lemma ShortReadIsCaught(alg: HashAlg, v: FileView, id: nat, index: nat, src: Bytes, read: Reads)
    requires Lawful(alg) && Received(alg, v, src, 0) && v.outcomes == [] && Reader(read, index, src)
    ensures var stop := StopsAt(index, src, read, 0);
            var w := RunView(alg, v, Triples(ChunksRead(id, index, src, read, 0)));
            && w.content == src[..stop]
            && (stop < |src| ==> ((forall b :: b in w.outcomes ==> b) <==> DigestOf(alg, src[..stop]) == v.want))
  {
    var stop := StopsAt(index, src, read, 0);
    ShortReadEndsFile(id, index, src, read, 0);
    assert |src[..stop]| == stop && Received(alg, v, src[..stop], 0);
    ChangedFileIsCaughtExactly(alg, v, id, index, src[..stop]);
  }

  lemma WholeFile(alg: HashAlg, v: FileView, cs: seq<FileChunk>, k: Key, src: Bytes)
    requires Lawful(alg) && Received(alg, v, src, 0) && v.outcomes == []
    requires Contiguous(cs, k, src, 0) && End(cs, 0) == |src|
    ensures var w := RunView(alg, v, Triples(cs));
            && w.content == src
            && ((forall b :: b in w.outcomes ==> b)
                <==> (!exists c :: c in cs && c.isLast) || DigestOf(alg, src) == v.want)
  {
    ContiguousReceived(alg, v, cs, k, src);
    assert src[..|src|] == src;
    var good := DigestOf(alg, src) == v.want;
    assert [] + Verdicts(cs, good) == Verdicts(cs, good);
    AllAccepted(cs, good);
  }

  lemma AllAccepted(cs: seq<FileChunk>, good: bool)
    ensures (forall b :: b in Verdicts(cs, good) ==> b) <==> good || !exists c :: c in cs && c.isLast
  {
    if c :| c in cs && c.isLast && !good {
      VerdictsHaveFalse(cs, c);
    } else {
      VerdictsAllTrue(cs, good);
    }
  }

  lemma {:induction false} VerdictsHaveFalse(cs: seq<FileChunk>, c: FileChunk)
    requires c in cs && c.isLast
    ensures false in Verdicts(cs, false)
  {
    if c in cs[..|cs| - 1] {
      VerdictsHaveFalse(cs[..|cs| - 1], c);
    } else {
      assert c == cs[|cs| - 1];
    }
  }
}
