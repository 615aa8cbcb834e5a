/** Concurrent chunk writes: the check, the disk write and the commit of different files interleave
    freely. Each file's state turns out to depend on its own steps alone. */
module FileInterleaving {
  import opened Wrappers
  import opened Protocol
  import opened FileReceiver

  /** A file of a transfer. */
  type Key = (nat, nat)

  datatype Pending = Pending(chunk: FileChunk, path: Path, hasher: nat, stored: bool)

  /** The receiver, the writes between check and commit, and per file the results its writes returned. */
  datatype Site = Site(recv: RecvState, pending: map<Key, Pending>, outcomes: map<Key, seq<bool>>)

  /** The three steps of `write_chunk`. Only one write per file is in flight: a check while another
      write of the file is pending is no step, nor is a store or commit that is not due. */
  datatype WriteStep = CheckStep(chunk: FileChunk) | StoreStep(key: Key) | CommitStep(key: Key)

  function KeyOf(s: WriteStep): Key {
    match s
    case CheckStep(c) => (c.transferId, c.fileIndex)
    case StoreStep(k) => k
    case CommitStep(k) => k
  }

  function OutcomesOf(y: Site, k: Key): seq<bool> {
    if k in y.outcomes then y.outcomes[k] else []
  }

  function Note(y: Site, k: Key, ok: bool): map<Key, seq<bool>> {
    y.outcomes[k := OutcomesOf(y, k) + [ok]]
  }

  function Step(alg: HashAlg, y: Site, s: WriteStep): Site {
    var k := KeyOf(s);
    match s
    case CheckStep(c) =>
      if k in y.pending then y
      else
        (match Check(y.recv, c)
         case Ok((path, hasher)) => y.(pending := y.pending[k := Pending(c, path, hasher, false)])
         case Err(OutOfOrder(_, _)) => y.(outcomes := Note(y, k, false))
         case Err(_) => y)
    case StoreStep(_) =>
      if k !in y.pending || y.pending[k].stored then y
      else
        var p := y.pending[k];
        (match Store(y.recv.disk, p.path, p.chunk)
         case Ok(disk) => y.(recv := y.recv.(disk := disk), pending := y.pending[k := p.(stored := true)])
         case Err(_) => y.(pending := y.pending - {k}, outcomes := Note(y, k, false)))
    case CommitStep(_) =>
      if k !in y.pending || !y.pending[k].stored then y
      else
        var (recv, res) := Commit(alg, y.recv, y.pending[k].chunk, y.pending[k].hasher);
        Site(recv, y.pending - {k}, Note(y, k, res.Ok?))
  }

  function Run(alg: HashAlg, y: Site, steps: seq<WriteStep>): Site {
    if steps == [] then y else Step(alg, Run(alg, y, steps[..|steps| - 1]), steps[|steps| - 1])
  }

  predicate ValidKey(r: RecvState, k: Key) {
    k.0 in r.transfers && k.1 < |r.transfers[k.0].paths|
  }

  function PathOf(r: RecvState, k: Key): Path
    requires ValidKey(r, k)
  {
    r.transfers[k.0].paths[k.1]
  }

  /** Every file of every transfer exists, at a place of its own. */
  ghost predicate Separate(r: RecvState) {
    && (forall k: Key :: ValidKey(r, k) ==> PathOf(r, k) in r.disk)
    && (forall k: Key, l: Key :: ValidKey(r, k) && ValidKey(r, l) && k != l ==> PathOf(r, k) != PathOf(r, l))
  }

  ghost predicate Sound(y: Site) {
    && Separate(y.recv)
    && forall k: Key :: k in y.pending ==>
         ValidKey(y.recv, k) && y.pending[k].path == PathOf(y.recv, k)
         && KeyOf(CheckStep(y.pending[k].chunk)) == k
  }

  /** All there is to one file: counter, hasher, bytes on disk, the write in flight, the results so far. */
  datatype FileView = FileView(path: Path, want: Digest, received: nat, hasher: nat, content: Bytes,
                               pending: Option<Pending>, outcomes: seq<bool>)

  function PendingOf(y: Site, k: Key): Option<Pending> {
    if k in y.pending then Some(y.pending[k]) else None
  }

  function View(y: Site, k: Key): FileView
    requires ValidKey(y.recv, k) && PathOf(y.recv, k) in y.recv.disk
  {
    var p := y.recv.transfers[k.0];
    FileView(p.paths[k.1], p.manifest.files[k.1].blake3, p.received[k.1], p.hashers[k.1], y.recv.disk[p.paths[k.1]],
             PendingOf(y, k), OutcomesOf(y, k))
  }

  /** A step as the file it concerns sees it. */
  function StepView(alg: HashAlg, v: FileView, s: WriteStep): FileView {
    match s
    case CheckStep(c) =>
      if v.pending.Some? then v
      else if c.offset != v.received then v.(outcomes := v.outcomes + [false])
      else v.(pending := Some(Pending(c, v.path, v.hasher, false)))
    case StoreStep(_) =>
      if v.pending.None? || v.pending.value.stored then v
      else
        var p := v.pending.value;
        v.(content := WriteAt(v.content, p.chunk.offset, p.chunk.data), pending := Some(p.(stored := true)))
    case CommitStep(_) =>
      if v.pending.None? || !v.pending.value.stored then v
      else
        var p := v.pending.value;
        var hasher := alg.update(p.hasher, p.chunk.data);
        v.(received := v.received + |p.chunk.data|, hasher := hasher, pending := None,
           outcomes := v.outcomes + [p.chunk.isLast ==> alg.finalize(hasher) == v.want])
  }

  function RunView(alg: HashAlg, v: FileView, steps: seq<WriteStep>): FileView {
    if steps == [] then v else StepView(alg, RunView(alg, v, steps[..|steps| - 1]), steps[|steps| - 1])
  }

  function Of(steps: seq<WriteStep>, k: Key): seq<WriteStep> {
    if steps == [] then []
    else
      var last := steps[|steps| - 1];
      Of(steps[..|steps| - 1], k) + if KeyOf(last) == k then [last] else []
  }

  /** What no step changes: the files there are, where they are, and their manifests. */
  ghost predicate SameFiles(a: RecvState, b: RecvState) {
    && a.transfers.Keys == b.transfers.Keys && a.disk.Keys == b.disk.Keys && a.dirs == b.dirs
    && forall id :: id in a.transfers ==>
         a.transfers[id].paths == b.transfers[id].paths && a.transfers[id].manifest == b.transfers[id].manifest
  }

  lemma SameFilesSeparate(a: RecvState, b: RecvState)
    requires SameFiles(a, b) && Separate(a)
    ensures Separate(b)
    ensures forall k: Key :: ValidKey(a, k) <==> ValidKey(b, k)
    ensures forall k: Key :: ValidKey(a, k) ==> PathOf(a, k) == PathOf(b, k)
  {
    forall k: Key
      ensures ValidKey(a, k) <==> ValidKey(b, k)
      ensures ValidKey(a, k) ==> PathOf(a, k) == PathOf(b, k)
    {
    }
  }

  lemma CommitKeepsFiles(alg: HashAlg, r: RecvState, c: FileChunk, hasher: nat)
    ensures SameFiles(r, Commit(alg, r, c, hasher).0) && Commit(alg, r, c, hasher).0.disk == r.disk
  {
  }

  lemma StepSameFiles(alg: HashAlg, y: Site, s: WriteStep)
    ensures SameFiles(y.recv, Step(alg, y, s).recv)
  {
    var k := KeyOf(s);
    if s.CommitStep? && k in y.pending {
      CommitKeepsFiles(alg, y.recv, y.pending[k].chunk, y.pending[k].hasher);
    }
  }

  /** The writes in flight after a step: those before it, or one the step's check has just admitted. */
  lemma StepPending(alg: HashAlg, y: Site, s: WriteStep, k: Key)
    requires k in Step(alg, y, s).pending
    ensures var p := Step(alg, y, s).pending[k];
            if k in y.pending then p.path == y.pending[k].path && p.chunk == y.pending[k].chunk
            else KeyOf(CheckStep(p.chunk)) == k && ValidKey(y.recv, k) && p.path == PathOf(y.recv, k)
  {
  }

  lemma StepKeepsFiles(alg: HashAlg, y: Site, s: WriteStep)
    requires Sound(y)
    ensures SameFiles(y.recv, Step(alg, y, s).recv) && Sound(Step(alg, y, s))
  {
    StepSameFiles(alg, y, s);
    KeepsSound(alg, y, s, Step(alg, y, s));
  }

  lemma KeepsSound(alg: HashAlg, y: Site, s: WriteStep, y': Site)
    requires Sound(y) && y' == Step(alg, y, s) && SameFiles(y.recv, y'.recv)
    ensures Sound(y')
  {
    SameFilesSeparate(y.recv, y'.recv);
    forall k: Key | k in y'.pending
      ensures ValidKey(y'.recv, k) && y'.pending[k].path == PathOf(y'.recv, k)
              && KeyOf(CheckStep(y'.pending[k].chunk)) == k
    {
      StepPending(alg, y, s, k);
      assert ValidKey(y.recv, k);
    }
  }

  lemma CheckIsLocal(alg: HashAlg, y: Site, s: WriteStep, k: Key)
    requires Sound(y) && ValidKey(y.recv, k) && s.CheckStep?
    ensures Step(alg, y, s).recv == y.recv
    ensures View(Step(alg, y, s), k) == if KeyOf(s) == k then StepView(alg, View(y, k), s) else View(y, k)
  {
  }

  lemma StoreIsLocal(alg: HashAlg, y: Site, s: WriteStep, k: Key)
    requires Sound(y) && ValidKey(y.recv, k) && s.StoreStep?
    requires ValidKey(Step(alg, y, s).recv, k) && PathOf(Step(alg, y, s).recv, k) in Step(alg, y, s).recv.disk
    ensures View(Step(alg, y, s), k) == if KeyOf(s) == k then StepView(alg, View(y, k), s) else View(y, k)
  {
    var l := KeyOf(s);
    if l in y.pending && !y.pending[l].stored {
      assert ValidKey(y.recv, l) && PathOf(y.recv, l) in y.recv.disk;
      assert l != k ==> PathOf(y.recv, l) != PathOf(y.recv, k);
    }
  }

  /** A commit touches the counter and the hasher of its own file. */
  lemma CommitCounters(alg: HashAlg, r: RecvState, c: FileChunk, hasher: nat, k: Key)
    requires ValidKey(r, KeyOf(CheckStep(c))) && ValidKey(r, k)
    ensures var (r', res) := Commit(alg, r, c, hasher);
            && k.0 in r'.transfers && k.1 < |r'.transfers[k.0].paths|
            && var (p, p') := (r.transfers[k.0], r'.transfers[k.0]);
               if KeyOf(CheckStep(c)) == k then
                 && p'.received[k.1] == p.received[k.1] + |c.data| && p'.hashers[k.1] == alg.update(hasher, c.data)
                 && (res.Ok? <==> (c.isLast ==> alg.finalize(alg.update(hasher, c.data)) == p.manifest.files[k.1].blake3))
               else
                 p'.received[k.1] == p.received[k.1] && p'.hashers[k.1] == p.hashers[k.1]
  {
  }

  lemma CommitIsLocal(alg: HashAlg, y: Site, s: WriteStep, k: Key)
    requires Sound(y) && ValidKey(y.recv, k) && s.CommitStep?
    requires ValidKey(Step(alg, y, s).recv, k) && PathOf(Step(alg, y, s).recv, k) in Step(alg, y, s).recv.disk
    ensures View(Step(alg, y, s), k) == if KeyOf(s) == k then StepView(alg, View(y, k), s) else View(y, k)
  {
    var l := KeyOf(s);
    if l in y.pending && y.pending[l].stored {
      assert ValidKey(y.recv, l);
      CommitKeepsFiles(alg, y.recv, y.pending[l].chunk, y.pending[l].hasher);
      CommitCounters(alg, y.recv, y.pending[l].chunk, y.pending[l].hasher, k);
    }
  }

  /** A step changes the file it concerns in a way that depends on that file only, and no other file. */
  lemma StepIsLocal(alg: HashAlg, y: Site, s: WriteStep, k: Key)
    requires Sound(y) && ValidKey(y.recv, k)
    ensures ValidKey(Step(alg, y, s).recv, k) && PathOf(Step(alg, y, s).recv, k) in Step(alg, y, s).recv.disk
    ensures View(Step(alg, y, s), k) == if KeyOf(s) == k then StepView(alg, View(y, k), s) else View(y, k)
  {
    StepSameFiles(alg, y, s);
    SameFilesSeparate(y.recv, Step(alg, y, s).recv);
    match s
    case CheckStep(_) => CheckIsLocal(alg, y, s, k);
    case StoreStep(_) => StoreIsLocal(alg, y, s, k);
    case CommitStep(_) => CommitIsLocal(alg, y, s, k);
  }

  /** The projection theorem: in every interleaving each file ends as its own steps alone leave it. */
  lemma {:induction false} RunIsLocal(alg: HashAlg, y: Site, steps: seq<WriteStep>, k: Key)
    requires Sound(y) && ValidKey(y.recv, k)
    ensures Sound(Run(alg, y, steps)) && SameFiles(y.recv, Run(alg, y, steps).recv)
    ensures ValidKey(Run(alg, y, steps).recv, k)
    ensures View(Run(alg, y, steps), k) == RunView(alg, View(y, k), Of(steps, k))
  {
    if steps == [] {
    } else {
      var front, s := steps[..|steps| - 1], steps[|steps| - 1];
      RunIsLocal(alg, y, front, k);
      StepKeepsFiles(alg, Run(alg, y, front), s);
      StepIsLocal(alg, Run(alg, y, front), s, k);
      if KeyOf(s) == k {
        assert (Of(front, k) + [s])[..|Of(front, k)|] == Of(front, k);
      } else {
        assert Of(steps, k) == Of(front, k);
      }
    }
  }

  ghost predicate Unowned(r: RecvState, path: Path) {
    forall k: Key :: ValidKey(r, k) ==> PathOf(r, k) != path
  }

  lemma StepKeepsUnowned(alg: HashAlg, y: Site, s: WriteStep, path: Path)
    requires Sound(y) && path in y.recv.disk && Unowned(y.recv, path)
    ensures path in Step(alg, y, s).recv.disk && Step(alg, y, s).recv.disk[path] == y.recv.disk[path]
    ensures Unowned(Step(alg, y, s).recv, path)
  {
    var k := KeyOf(s);
    StepSameFiles(alg, y, s);
    SameFilesSeparate(y.recv, Step(alg, y, s).recv);
    if k in y.pending {
      assert ValidKey(y.recv, k);
      CommitKeepsFiles(alg, y.recv, y.pending[k].chunk, y.pending[k].hasher);
    }
  }

  lemma {:induction false} RunKeepsOthers(alg: HashAlg, y: Site, steps: seq<WriteStep>)
    requires Sound(y)
    ensures var y' := Run(alg, y, steps);
            && Sound(y') && SameFiles(y.recv, y'.recv)
            && forall path :: path in y.recv.disk && Unowned(y.recv, path) ==>
                 Unowned(y'.recv, path) && y'.recv.disk[path] == y.recv.disk[path]
  {
    if steps == [] {
    } else {
      var front, s := steps[..|steps| - 1], steps[|steps| - 1];
      RunKeepsOthers(alg, y, front);
      var m := Run(alg, y, front);
      StepKeepsFiles(alg, m, s);
      forall path | path in y.recv.disk && Unowned(y.recv, path)
        ensures Unowned(Step(alg, m, s).recv, path) && Step(alg, m, s).recv.disk[path] == y.recv.disk[path]
      {
        StepKeepsUnowned(alg, m, s, path);
      }
    }
  }

  lemma IndependenceWhenAllLive(alg: HashAlg, y: Site, one: seq<WriteStep>, two: seq<WriteStep>)
    requires Sound(y)
    requires forall k: Key :: ValidKey(y.recv, k) ==> Of(one, k) == Of(two, k)
    ensures Run(alg, y, one).recv == Run(alg, y, two).recv
    ensures Run(alg, y, one).pending == Run(alg, y, two).pending
    ensures forall k: Key :: ValidKey(y.recv, k) ==> OutcomesOf(Run(alg, y, one), k) == OutcomesOf(Run(alg, y, two), k)
  {
    var a, b := Run(alg, y, one), Run(alg, y, two);
    RunKeepsOthers(alg, y, one);
    RunKeepsOthers(alg, y, two);
    SameFilesSeparate(y.recv, a.recv);
    SameFilesSeparate(y.recv, b.recv);
    forall k: Key | ValidKey(y.recv, k) ensures View(a, k) == View(b, k) {
      RunIsLocal(alg, y, one, k);
      RunIsLocal(alg, y, two, k);
    }
    SameTables(y, a, b);
    SameDisks(y, a, b);
    forall k: Key | ValidKey(y.recv, k)
      ensures PendingOf(a, k) == PendingOf(b, k) && OutcomesOf(a, k) == OutcomesOf(b, k)
    {
      assert View(a, k).pending == View(b, k).pending && View(a, k).outcomes == View(b, k).outcomes;
    }
    SamePending(y, a, b);
  }

  ghost predicate SameViews(y: Site, a: Site, b: Site) {
    && Sound(a) && Sound(b) && SameFiles(y.recv, a.recv) && SameFiles(y.recv, b.recv)
    && (forall k: Key :: ValidKey(y.recv, k) ==> ValidKey(a.recv, k) && ValidKey(b.recv, k) && View(a, k) == View(b, k))
  }

  lemma SameTables(y: Site, a: Site, b: Site)
    requires SameViews(y, a, b)
    ensures a.recv.transfers == b.recv.transfers
  {
    forall id | id in y.recv.transfers ensures a.recv.transfers[id] == b.recv.transfers[id] {
      var p, q := a.recv.transfers[id], b.recv.transfers[id];
      forall i | 0 <= i < |p.paths| ensures p.received[i] == q.received[i] && p.hashers[i] == q.hashers[i] {
        assert ValidKey(y.recv, (id, i));
        assert View(a, (id, i)) == View(b, (id, i));
      }
      assert p.received == q.received && p.hashers == q.hashers;
    }
  }

  lemma SamePending(y: Site, a: Site, b: Site)
    requires Sound(a) && Sound(b)
    requires forall k: Key :: ValidKey(y.recv, k) <==> ValidKey(a.recv, k)
    requires forall k: Key :: ValidKey(y.recv, k) <==> ValidKey(b.recv, k)
    requires forall k: Key :: ValidKey(y.recv, k) ==> PendingOf(a, k) == PendingOf(b, k)
    ensures a.pending == b.pending
  {
    forall k: Key | k in a.pending || k in b.pending
      ensures k in a.pending && k in b.pending && a.pending[k] == b.pending[k]
    {
      assert ValidKey(y.recv, k);
      assert PendingOf(a, k) == PendingOf(b, k);
    }
  }

  lemma SameDisks(y: Site, a: Site, b: Site)
    requires SameViews(y, a, b)
    requires forall path :: path in y.recv.disk && Unowned(y.recv, path) ==>
               a.recv.disk[path] == b.recv.disk[path]
    ensures a.recv.disk == b.recv.disk
  {
    forall path | path in y.recv.disk ensures a.recv.disk[path] == b.recv.disk[path] {
      if k: Key :| ValidKey(y.recv, k) && PathOf(y.recv, k) == path {
        assert View(a, k).content == View(b, k).content;
      } else {
        assert Unowned(y.recv, path);
      }
    }
  }

  /** The steps of the files one after another. */
  function OneByOne(steps: seq<WriteStep>, keys: seq<Key>): seq<WriteStep> {
    if keys == [] then [] else OneByOne(steps, keys[..|keys| - 1]) + Of(steps, keys[|keys| - 1])
  }

  lemma {:induction false} OfAppend(a: seq<WriteStep>, b: seq<WriteStep>, k: Key)
    ensures Of(a + b, k) == Of(a, k) + Of(b, k)
  {
    if b == [] {
      assert a + b == a;
    } else {
      assert (a + b)[..|a + b| - 1] == a + b[..|b| - 1];
      OfAppend(a, b[..|b| - 1], k);
    }
  }

  lemma {:induction false} OfOf(steps: seq<WriteStep>, k: Key, l: Key)
    ensures Of(Of(steps, k), l) == if k == l then Of(steps, k) else []
  {
    if steps != [] {
      var front, s := steps[..|steps| - 1], steps[|steps| - 1];
      OfOf(front, k, l);
      if KeyOf(s) == k {
        OfAppend(Of(front, k), [s], l);
        assert [s][..0] == [];
      } else {
        assert Of(steps, k) == Of(front, k);
      }
    }
  }

  lemma {:induction false} OfOneByOne(steps: seq<WriteStep>, keys: seq<Key>, k: Key)
    requires forall i, j :: 0 <= i < j < |keys| ==> keys[i] != keys[j]
    ensures Of(OneByOne(steps, keys), k) == if k in keys then Of(steps, k) else []
  {
    if keys != [] {
      var front, last := keys[..|keys| - 1], keys[|keys| - 1];
      OfOneByOne(steps, front, k);
      assert last !in front && (k in keys <==> k in front || k == last);
      OfAppend(OneByOne(steps, front), Of(steps, last), k);
      OfOf(steps, last, k);
      assert keys == front + [last];
    }
  }

  // Finished transfers, which stay in the table

  /** The table without the transfers that are not live. */
  function Only(r: RecvState, live: set<nat>): RecvState {
    r.(transfers := map id | id in r.transfers && id in live :: r.transfers[id])
  }

  function Narrow(y: Site, live: set<nat>): Site {
    y.(recv := Only(y.recv, live))
  }

  /** Soundness as far as the live transfers go: nothing is asked of the others, whose files may have been
      moved away or overwritten. */
  ghost predicate SoundFor(y: Site, live: set<nat>) {
    Sound(Narrow(y, live))
  }

  predicate AreLive(steps: seq<WriteStep>, live: set<nat>) {
    forall s :: s in steps ==> KeyOf(s).0 in live
  }

  lemma CheckNarrow(r: RecvState, live: set<nat>, c: FileChunk)
    requires c.transferId in live
    ensures Check(Only(r, live), c) == Check(r, c)
  {
  }

  lemma CommitNarrow(alg: HashAlg, r: RecvState, live: set<nat>, c: FileChunk, hasher: nat)
    requires c.transferId in live
    ensures var (a, x) := Commit(alg, r, c, hasher);
            var (b, z) := Commit(alg, Only(r, live), c, hasher);
            && Only(a, live) == b && x == z
            && (forall id :: id in r.transfers && id !in live ==> id in a.transfers && a.transfers[id] == r.transfers[id])
  {
    if c.transferId in r.transfers && c.fileIndex < |r.transfers[c.transferId].paths| {
      var a, b := Commit(alg, r, c, hasher).0, Commit(alg, Only(r, live), c, hasher).0;
      assert a.transfers == r.transfers[c.transferId := a.transfers[c.transferId]];
      assert b.transfers == Only(r, live).transfers[c.transferId := a.transfers[c.transferId]];
      assert Only(a, live).transfers == b.transfers;
    }
  }

  lemma StepNarrow(alg: HashAlg, y: Site, live: set<nat>, s: WriteStep)
    requires SoundFor(y, live) && KeyOf(s).0 in live
    ensures Narrow(Step(alg, y, s), live) == Step(alg, Narrow(y, live), s)
    ensures forall id :: id in y.recv.transfers && id !in live ==>
              id in Step(alg, y, s).recv.transfers && Step(alg, y, s).recv.transfers[id] == y.recv.transfers[id]
  {
    var k := KeyOf(s);
    match s
    case CheckStep(c) => CheckNarrow(y.recv, live, c);
    case StoreStep(_) =>
    case CommitStep(_) =>
      if k in y.pending && y.pending[k].stored {
        assert ValidKey(Only(y.recv, live), k);
        CommitNarrow(alg, y.recv, live, y.pending[k].chunk, y.pending[k].hasher);
      }
  }

  /** Steps of live transfers do what they would do if no other transfer were in the table, and leave the
      others' entries alone. */
  lemma {:induction false} RunNarrow(alg: HashAlg, y: Site, live: set<nat>, steps: seq<WriteStep>)
    requires SoundFor(y, live) && AreLive(steps, live)
    ensures Narrow(Run(alg, y, steps), live) == Run(alg, Narrow(y, live), steps) && SoundFor(Run(alg, y, steps), live)
    ensures forall id :: id in y.recv.transfers && id !in live ==>
              id in Run(alg, y, steps).recv.transfers && Run(alg, y, steps).recv.transfers[id] == y.recv.transfers[id]
    ensures Run(alg, y, steps).recv.transfers.Keys == y.recv.transfers.Keys
  {
    if steps == [] {
    } else {
      var front, s := steps[..|steps| - 1], steps[|steps| - 1];
      assert s in steps && forall t :: t in front ==> t in steps;
      RunNarrow(alg, y, live, front);
      StepNarrow(alg, Run(alg, y, front), live, s);
      StepKeepsFiles(alg, Run(alg, Narrow(y, live), front), s);
      StepSameFiles(alg, Run(alg, y, front), s);
    }
  }

  /** What holds of a live file with the others gone holds of it with them there. */
  lemma LiveView(y: Site, live: set<nat>, k: Key)
    requires k.0 in live && ValidKey(y.recv, k) && PathOf(y.recv, k) in y.recv.disk
    ensures ValidKey(Narrow(y, live).recv, k) && View(Narrow(y, live), k) == View(y, k)
  {
  }

  lemma TablesAgree(y: RecvState, a: RecvState, b: RecvState, live: set<nat>)
    requires Only(a, live) == Only(b, live)
    requires a.transfers.Keys == b.transfers.Keys == y.transfers.Keys
    requires forall id :: id in y.transfers && id !in live ==> a.transfers[id] == y.transfers[id] == b.transfers[id]
    ensures a.transfers == b.transfers
  {
    forall id | id in a.transfers ensures a.transfers[id] == b.transfers[id] {
      if id in live {
        assert Only(a, live).transfers[id] == a.transfers[id] && Only(b, live).transfers[id] == b.transfers[id];
      }
    }
  }

  /** Interleaving independence: two runs that agree on each file's own steps leave the same transfer
      table (counters and hashers), the same disk and the same writes in flight, and every file's
      writes return the same results in the same order. */
  lemma InterleavingIndependence(alg: HashAlg, y: Site, live: set<nat>, one: seq<WriteStep>, two: seq<WriteStep>)
    requires SoundFor(y, live) && AreLive(one, live) && AreLive(two, live)
    requires forall k: Key :: ValidKey(y.recv, k) && k.0 in live ==> Of(one, k) == Of(two, k)
    ensures Run(alg, y, one).recv == Run(alg, y, two).recv
    ensures Run(alg, y, one).pending == Run(alg, y, two).pending
    ensures forall k: Key :: ValidKey(y.recv, k) && k.0 in live ==>
              OutcomesOf(Run(alg, y, one), k) == OutcomesOf(Run(alg, y, two), k)
  {
    RunNarrow(alg, y, live, one);
    RunNarrow(alg, y, live, two);
    forall k: Key | ValidKey(Narrow(y, live).recv, k) ensures Of(one, k) == Of(two, k) {
      assert ValidKey(y.recv, k);
    }
    IndependenceWhenAllLive(alg, Narrow(y, live), one, two);
    var a, b := Run(alg, y, one), Run(alg, y, two);
    TablesAgree(y.recv, a.recv, b.recv, live);
    forall k: Key | ValidKey(y.recv, k) && k.0 in live ensures OutcomesOf(a, k) == OutcomesOf(b, k) {
      assert ValidKey(Narrow(y, live).recv, k);
      assert OutcomesOf(a, k) == OutcomesOf(Narrow(a, live), k) && OutcomesOf(b, k) == OutcomesOf(Narrow(b, live), k);
    }
  }

  /** In particular every interleaving gives what running the transfers one file after another gives. */
  lemma InterleavedEqualsSequential(alg: HashAlg, y: Site, live: set<nat>, steps: seq<WriteStep>, keys: seq<Key>)
    requires SoundFor(y, live) && AreLive(steps, live)
    requires forall i, j :: 0 <= i < j < |keys| ==> keys[i] != keys[j]
    requires forall k: Key :: ValidKey(y.recv, k) && k.0 in live ==> k in keys
    ensures Run(alg, y, steps).recv == Run(alg, y, OneByOne(steps, keys)).recv
    ensures Run(alg, y, steps).pending == Run(alg, y, OneByOne(steps, keys)).pending
  {
    forall k: Key | ValidKey(y.recv, k) && k.0 in live ensures Of(steps, k) == Of(OneByOne(steps, keys), k) {
      OfOneByOne(steps, keys, k);
    }
    OneByOneMembers(steps, keys);
    InterleavingIndependence(alg, y, live, steps, OneByOne(steps, keys));
  }

  lemma {:induction false} OneByOneMembers(steps: seq<WriteStep>, keys: seq<Key>)
    ensures forall s :: s in OneByOne(steps, keys) ==> s in steps
  {
    if keys != [] {
      OneByOneMembers(steps, keys[..|keys| - 1]);
      OfMembers(steps, keys[|keys| - 1]);
    }
  }

  lemma {:induction false} OfMembers(steps: seq<WriteStep>, k: Key)
    ensures forall s :: s in Of(steps, k) ==> s in steps && KeyOf(s) == k
  {
    if steps != [] {
      OfMembers(steps[..|steps| - 1], k);
    }
  }
}
