/** Offers: which are accepted, what they leave on disk, and offers that arrive during other transfers. */
module FileOffers {
  import opened Wrappers
  import opened Protocol
  import opened FilePath
  import opened FileReceiver
  import opened FileInterleaving

  // One file

  /** A relative path that passes the check and names a file. */
  predicate Nameable(rel: string) {
    Sanitize(rel).Ok? && NamesFile(rel)
  }

  function Destination(dropDir: Path, rel: string): Path
    requires Sanitize(rel).Ok?
  {
    dropDir + Sanitize(rel).value
  }

  lemma {:induction false} InnerOfNamed(parts: seq<string>)
    requires parts != [] && parts[|parts| - 1] != "" && parts[|parts| - 1] != "."
    ensures Inner(parts) != []
  {
    if |parts| > 1 {
      InnerOfNamed(parts[1..]);
    }
  }

  lemma {:induction false} NamesLength(cs: seq<Component>)
    requires AllNormal(cs)
    ensures |Names(cs)| == |cs|
  {
    if cs != [] {
      assert cs[0] in cs && forall c :: c in cs[1..] ==> c in cs;
      NamesLength(cs[1..]);
    }
  }

  /** Such a path leads strictly below the drop directory. */
  lemma NameableIsBelow(rel: string)
    requires Nameable(rel)
    ensures Sanitize(rel).value != []
  {
    var path := WithSlashes(rel);
    InnerOfNamed(Parts(path));
    NamesLength(Components(Unix, path));
  }

  /** No directory stands where the file is to be, and no file where a directory above it is to be. */
  predicate HasRoom(t: Tree, path: Path) {
    path !in t.dirs && forall k :: 0 <= k < |path| ==> path[..k] !in t.files
  }

  lemma PrefixesOfParent(path: Path, q: Path)
    requires path != []
    ensures q in Prefixes(Parent(path)) <==> q < path
  {
    if q < path {
      assert Parent(path)[..|q|] == path[..|q|] == q;
    }
  }

  /** When a file of an offer is created, and what that changes. */
  lemma PlaceFileExactly(t: Tree, dropDir: Path, rel: string)
    ensures var (t', r) := PlaceFile(t, dropDir, rel);
            && (r.Ok? <==> Nameable(rel) && HasRoom(t, Destination(dropDir, rel)))
            && (r.Ok? ==>
                  var path := Destination(dropDir, rel);
                  && r.value == path && |path| > |dropDir|
                  && t' == Tree(t.files[path := []], t.dirs + Prefixes(Parent(path))))
  {
    if Nameable(rel) {
      NameableIsBelow(rel);
      var path := Destination(dropDir, rel);
      PrefixesOfParent(path, path);
      forall k | 0 <= k < |path| ensures Parent(path)[..k] == path[..k] {
      }
    }
  }

  // All files

  predicate AllNameable(files: seq<FileEntry>) {
    forall i :: 0 <= i < |files| ==> Nameable(files[i].relativePath)
  }

  function DestinationOf(dropDir: Path, files: seq<FileEntry>, i: nat): Path
    requires AllNameable(files) && i < |files|
  {
    Destination(dropDir, files[i].relativePath)
  }

  /** The files fit on the disk and do not need each other as directories. */
  predicate Fits(t: Tree, dropDir: Path, files: seq<FileEntry>) {
    && AllNameable(files)
    && (forall i :: 0 <= i < |files| ==> HasRoom(t, DestinationOf(dropDir, files, i)))
    && (forall i, j :: 0 <= i < |files| && 0 <= j < |files| ==>
          !(DestinationOf(dropDir, files, i) < DestinationOf(dropDir, files, j)))
  }

  lemma HasRoomAfter(t: Tree, path: Path, q: Path)
    requires path != []
    ensures HasRoom(Tree(t.files[path := []], t.dirs + Prefixes(Parent(path))), q)
       <==> HasRoom(t, q) && !(q < path) && !(path < q)
  {
    PrefixesOfParent(path, q);
    var t' := Tree(t.files[path := []], t.dirs + Prefixes(Parent(path)));
    if path < q {
      assert q[..|path|] == path && path in t'.files;
    }
    if HasRoom(t, q) && !(path < q) {
      forall k | 0 <= k < |q| ensures q[..k] !in t'.files {
        assert q[..k] != path;
      }
    }
  }

  lemma FitsFirst(t: Tree, dropDir: Path, files: seq<FileEntry>)
    requires files != [] && Nameable(files[0].relativePath) && HasRoom(t, Destination(dropDir, files[0].relativePath))
    ensures var t' := PlaceFile(t, dropDir, files[0].relativePath).0;
            Fits(t, dropDir, files) <==> Fits(t', dropDir, files[1..])
  {
    PlaceFileExactly(t, dropDir, files[0].relativePath);
    var t' := PlaceFile(t, dropDir, files[0].relativePath).0;
    var first, rest := Destination(dropDir, files[0].relativePath), files[1..];
    assert forall i :: 0 <= i < |rest| ==> rest[i] == files[i + 1];
    assert forall i :: 0 < i < |files| ==> files[i] == rest[i - 1];
    if AllNameable(files) || AllNameable(rest) {
      assert AllNameable(files) && AllNameable(rest);
      forall i | 0 <= i < |rest|
        ensures HasRoom(t', DestinationOf(dropDir, rest, i))
           <==> var q := DestinationOf(dropDir, files, i + 1); HasRoom(t, q) && !(q < first) && !(first < q)
      {
        HasRoomAfter(t, first, DestinationOf(dropDir, rest, i));
      }
      FitsSplit(t, t', dropDir, files);
    }
  }

  lemma FitsSplit(t: Tree, t': Tree, dropDir: Path, files: seq<FileEntry>)
    requires files != [] && AllNameable(files) && AllNameable(files[1..])
    requires HasRoom(t, DestinationOf(dropDir, files, 0))
    requires forall i :: 0 <= i < |files| - 1 ==>
               (HasRoom(t', DestinationOf(dropDir, files[1..], i))
                <==> var first, q := DestinationOf(dropDir, files, 0), DestinationOf(dropDir, files, i + 1);
                     HasRoom(t, q) && !(q < first) && !(first < q))
    ensures Fits(t, dropDir, files) <==> Fits(t', dropDir, files[1..])
  {
    var rest := files[1..];
    forall i | 0 <= i < |rest| ensures DestinationOf(dropDir, rest, i) == DestinationOf(dropDir, files, i + 1) {
      assert rest[i] == files[i + 1];
    }
    if Fits(t', dropDir, rest) {
      forall i | 0 <= i < |files| ensures HasRoom(t, DestinationOf(dropDir, files, i)) {
        if i > 0 {
          assert HasRoom(t', DestinationOf(dropDir, rest, i - 1));
        }
      }
      forall i, j | 0 <= i < |files| && 0 <= j < |files|
        ensures !(DestinationOf(dropDir, files, i) < DestinationOf(dropDir, files, j))
      {
        if i > 0 {
          assert HasRoom(t', DestinationOf(dropDir, rest, i - 1));
        }
        if j > 0 {
          assert HasRoom(t', DestinationOf(dropDir, rest, j - 1));
        }
        if i > 0 && j > 0 {
          assert !(DestinationOf(dropDir, rest, i - 1) < DestinationOf(dropDir, rest, j - 1));
        }
      }
    }
  }

  lemma FitsStep(t: Tree, dropDir: Path, files: seq<FileEntry>)
    requires files != []
    ensures var (t', r) := PlaceFile(t, dropDir, files[0].relativePath);
            Fits(t, dropDir, files) <==> r.Ok? && Fits(t', dropDir, files[1..])
  {
    PlaceFileExactly(t, dropDir, files[0].relativePath);
    if Nameable(files[0].relativePath) && HasRoom(t, Destination(dropDir, files[0].relativePath)) {
      FitsFirst(t, dropDir, files);
    } else if AllNameable(files) {
      assert !HasRoom(t, DestinationOf(dropDir, files, 0));
    }
  }

  lemma {:induction false} PlaceAllExactly(t: Tree, dropDir: Path, files: seq<FileEntry>)
    ensures PlaceAll(t, dropDir, files).1.Ok? <==> Fits(t, dropDir, files)
    decreases |files|
  {
    if files != [] {
      FitsStep(t, dropDir, files);
      PlaceAllExactly(PlaceFile(t, dropDir, files[0].relativePath).0, dropDir, files[1..]);
    }
  }

  predicate IsDestination(dropDir: Path, files: seq<FileEntry>, path: Path)
    requires AllNameable(files)
  {
    exists i :: 0 <= i < |files| && path == DestinationOf(dropDir, files, i)
  }

  function ParentDirs(dropDir: Path, files: seq<FileEntry>): set<Path>
    requires AllNameable(files)
  {
    if files == [] then {}
    else Prefixes(Parent(DestinationOf(dropDir, files, 0))) + ParentDirs(dropDir, files[1..])
  }

  /** The disk with the files of an offer created on it. */
  ghost predicate Created(t: Tree, t': Tree, dropDir: Path, files: seq<FileEntry>, paths: seq<Path>)
    requires AllNameable(files)
  {
    && |paths| == |files| && (forall i :: 0 <= i < |files| ==> paths[i] == DestinationOf(dropDir, files, i))
    && t'.dirs == t.dirs + ParentDirs(dropDir, files)
    && (forall path :: path in t'.files <==> path in t.files || IsDestination(dropDir, files, path))
    && (forall path :: path in t'.files ==>
          t'.files[path] == if IsDestination(dropDir, files, path) then [] else t.files[path])
  }

  lemma DestinationsFirst(dropDir: Path, files: seq<FileEntry>, path: Path)
    requires files != [] && AllNameable(files) && AllNameable(files[1..])
    ensures IsDestination(dropDir, files, path)
       <==> path == DestinationOf(dropDir, files, 0) || IsDestination(dropDir, files[1..], path)
  {
    var rest := files[1..];
    assert forall i :: 0 <= i < |rest| ==> rest[i] == files[i + 1];
    if i: nat :| i < |files| && path == DestinationOf(dropDir, files, i) {
      if i > 0 {
        assert path == DestinationOf(dropDir, rest, i - 1);
      }
    }
    if i: nat :| i < |rest| && path == DestinationOf(dropDir, rest, i) {
      assert path == DestinationOf(dropDir, files, i + 1);
    }
  }

  lemma CreatedFirst(t: Tree, t': Tree, dropDir: Path, files: seq<FileEntry>, paths: seq<Path>)
    requires files != [] && AllNameable(files) && AllNameable(files[1..])
    requires var path := DestinationOf(dropDir, files, 0);
             Created(Tree(t.files[path := []], t.dirs + Prefixes(Parent(path))), t', dropDir, files[1..], paths)
    ensures Created(t, t', dropDir, files, [DestinationOf(dropDir, files, 0)] + paths)
  {
    var path := DestinationOf(dropDir, files, 0);
    forall i | 0 <= i < |files| ensures ([path] + paths)[i] == DestinationOf(dropDir, files, i) {
      if i > 0 {
        assert files[i] == files[1..][i - 1];
      }
    }
    forall p: Path ensures IsDestination(dropDir, files, p) <==> p == path || IsDestination(dropDir, files[1..], p) {
      DestinationsFirst(dropDir, files, p);
    }
  }

  /** Every file of an accepted offer is created empty at its destination, with the directories above it,
      and nothing else on disk changes. */
  lemma {:induction false} PlaceAllEffect(t: Tree, dropDir: Path, files: seq<FileEntry>)
    requires PlaceAll(t, dropDir, files).1.Ok?
    ensures AllNameable(files)
    ensures var (t', r) := PlaceAll(t, dropDir, files); Created(t, t', dropDir, files, r.value)
    decreases |files|
  {
    PlaceAllExactly(t, dropDir, files);
    if files != [] {
      PlaceFileExactly(t, dropDir, files[0].relativePath);
      var t1 := PlaceFile(t, dropDir, files[0].relativePath).0;
      PlaceAllEffect(t1, dropDir, files[1..]);
      var (t', r) := PlaceAll(t1, dropDir, files[1..]);
      CreatedFirst(t, t', dropDir, files, r.value);
    }
  }

  // Refused files

  /** No file is in the way of the directories above a path. */
  predicate NoFileAbove(t: Tree, path: Path) {
    forall k :: 0 <= k <= |Parent(path)| ==> Parent(path)[..k] !in t.files
  }

  /** The directories that a file which cannot be created leaves: those above it, if its path passes the check and
      no file is in their way. */
  function LeftDirs(t: Tree, dropDir: Path, rel: string): set<Path> {
    if Sanitize(rel).Ok? && NoFileAbove(t, Destination(dropDir, rel)) then Prefixes(Parent(Destination(dropDir, rel)))
    else {}
  }

  /** Why a file cannot be created: its path does not pass the check, or the disk has no room for it. */
  function Reason(rel: string): RecvError {
    if Sanitize(rel).Err? then BadPath(Sanitize(rel).error) else Io
  }

  lemma PlaceFileFails(t: Tree, dropDir: Path, rel: string)
    ensures var (t', r) := PlaceFile(t, dropDir, rel);
            r.Err? ==> t' == t.(dirs := t.dirs + LeftDirs(t, dropDir, rel)) && r.error == Reason(rel)
  {
  }

  lemma {:induction false} PlaceAllSplit(t: Tree, dropDir: Path, a: seq<FileEntry>, b: seq<FileEntry>)
    ensures var (t1, first) := PlaceAll(t, dropDir, a);
            var (t2, rest) := PlaceAll(t1, dropDir, b);
            var (t', r) := PlaceAll(t, dropDir, a + b);
            if first.Err? then (t', r) == (t1, first) else t' == t2 && (rest.Ok? <==> r.Ok?) && (rest.Err? ==> r == rest)
    decreases |a|
  {
    if a == [] {
      assert a + b == b;
    } else {
      assert (a + b)[0] == a[0] && (a + b)[1..] == a[1..] + b;
      PlaceAllSplit(PlaceFile(t, dropDir, a[0].relativePath).0, dropDir, a[1..], b);
    }
  }

  /** The first file that does not fit after those before it. */
  lemma {:induction false} FirstMisfit(t: Tree, dropDir: Path, files: seq<FileEntry>) returns (j: nat)
    requires !Fits(t, dropDir, files)
    ensures j < |files| && Fits(t, dropDir, files[..j]) && !Fits(t, dropDir, files[..j + 1])
  {
    assert files != [];
    var front := files[..|files| - 1];
    if Fits(t, dropDir, front) {
      j := |front|;
      assert files[..j + 1] == files;
    } else {
      j := FirstMisfit(t, dropDir, front);
      assert front[..j] == files[..j] && front[..j + 1] == files[..j + 1];
    }
  }

  lemma NextIsRefused(t: Tree, dropDir: Path, front: seq<FileEntry>, f: FileEntry)
    requires Fits(t, dropDir, front) && !Fits(t, dropDir, front + [f])
    ensures var t1 := PlaceAll(t, dropDir, front).0;
            PlaceAll(t, dropDir, front + [f])
            == (t1.(dirs := t1.dirs + LeftDirs(t1, dropDir, f.relativePath)), Err(Reason(f.relativePath)))
  {
    PlaceAllExactly(t, dropDir, front);
    PlaceAllExactly(t, dropDir, front + [f]);
    PlaceAllSplit(t, dropDir, front, [f]);
    var t1 := PlaceAll(t, dropDir, front).0;
    OneMore(t1, dropDir, f);
    PlaceFileFails(t1, dropDir, f.relativePath);
  }

  lemma OneMore(t: Tree, dropDir: Path, f: FileEntry)
    ensures var (t', r) := PlaceFile(t, dropDir, f.relativePath);
            var (u, all) := PlaceAll(t, dropDir, [f]);
            u == t' && (r.Ok? <==> all.Ok?) && (r.Err? ==> all == Err(r.error))
  {
    assert [f][1..] == [];
  }

  lemma RefusedAt(t: Tree, dropDir: Path, front: seq<FileEntry>, f: FileEntry, rest: seq<FileEntry>)
    requires Fits(t, dropDir, front) && !Fits(t, dropDir, front + [f])
    ensures var t1 := PlaceAll(t, dropDir, front).0;
            PlaceAll(t, dropDir, (front + [f]) + rest)
            == (t1.(dirs := t1.dirs + LeftDirs(t1, dropDir, f.relativePath)), Err(Reason(f.relativePath)))
  {
    NextIsRefused(t, dropDir, front, f);
    PlaceAllSplit(t, dropDir, front + [f], rest);
  }

  lemma RefusedFiles(t: Tree, dropDir: Path, files: seq<FileEntry>, j: nat)
    requires j < |files| && Fits(t, dropDir, files[..j]) && !Fits(t, dropDir, files[..j + 1])
    ensures var t1, rel := PlaceAll(t, dropDir, files[..j]).0, files[j].relativePath;
            PlaceAll(t, dropDir, files) == (t1.(dirs := t1.dirs + LeftDirs(t1, dropDir, rel)), Err(Reason(rel)))
  {
    assert files[..j + 1] == files[..j] + [files[j]];
    assert files == (files[..j] + [files[j]]) + files[j + 1..];
    RefusedAt(t, dropDir, files[..j], files[j], files[j + 1..]);
  }

  // The offer

  function TreeOf(st: RecvState): Tree {
    Tree(st.disk, st.dirs)
  }

  predicate DropDirFits(t: Tree, dropDir: Path) {
    forall k :: 0 <= k <= |dropDir| ==> dropDir[..k] !in t.files
  }

  lemma {:induction false} FitsInDropDir(t: Tree, dropDir: Path, files: seq<FileEntry>)
    ensures Fits(t.(dirs := t.dirs + Prefixes(dropDir)), dropDir, files) <==> Fits(t, dropDir, files)
  {
    var t' := t.(dirs := t.dirs + Prefixes(dropDir));
    if AllNameable(files) {
      forall i | 0 <= i < |files|
        ensures HasRoom(t, DestinationOf(dropDir, files, i)) <==> HasRoom(t', DestinationOf(dropDir, files, i))
      {
        NameableIsBelow(files[i].relativePath);
      }
    }
  }

  /** An offer is accepted exactly if the drop directory and every file of it can be placed: each path
      passes the check and names a file, no directory stands in its place and no file in the place of a
      directory above it, and no file of the offer is to lie below another. A refused offer leaves the
      transfer table alone. */
  lemma OfferAcceptedExactly(alg: HashAlg, dropDir: Path, st: RecvState, id: nat, manifest: FileManifest)
    ensures var (st', r) := Begin(alg, dropDir, st, id, manifest);
            && (r.Ok? <==> DropDirFits(TreeOf(st), dropDir) && Fits(TreeOf(st), dropDir, manifest.files))
            && (r.Err? ==> st'.transfers == st.transfers)
            && (!DropDirFits(TreeOf(st), dropDir) ==> st' == st && r == Err(Io))
  {
    var t := TreeOf(st);
    FitsInDropDir(t, dropDir, manifest.files);
    var t' := t.(dirs := t.dirs + Prefixes(dropDir));
    PlaceAllExactly(t', dropDir, manifest.files);
    PlaceAllLength(t', dropDir, manifest.files);
  }

  /** What an accepted offer leaves behind. */
  lemma OfferEffect(alg: HashAlg, dropDir: Path, st: RecvState, id: nat, manifest: FileManifest)
    requires DropDirFits(TreeOf(st), dropDir) && Fits(TreeOf(st), dropDir, manifest.files)
    ensures var (st', r) := Begin(alg, dropDir, st, id, manifest);
            && r == Ok(()) && id in st'.transfers
            && st'.transfers == st.transfers[id := NewProgress(alg, manifest, st'.transfers[id].paths)]
            && st'.transfers[id].manifest == manifest
            && (forall i :: 0 <= i < |manifest.files| ==>
                  st'.transfers[id].received[i] == 0 && st'.transfers[id].hashers[i] == alg.init)
            && Created(Tree(st.disk, st.dirs + Prefixes(dropDir)), TreeOf(st'), dropDir, manifest.files,
                       st'.transfers[id].paths)
  {
    OfferAcceptedExactly(alg, dropDir, st, id, manifest);
    var t' := Tree(st.disk, st.dirs + Prefixes(dropDir));
    PlaceAllLength(t', dropDir, manifest.files);
    PlaceAllEffect(t', dropDir, manifest.files);
  }

  /** What a refused offer leaves behind. Nothing is undone: with j the first file that does not fit, those before it
      are created empty, whatever they held, in their directories; every other file is as it was; and of file j
      there are at most the directories above it. */
  lemma RefusedOffer(alg: HashAlg, dropDir: Path, st: RecvState, id: nat, manifest: FileManifest) returns (j: nat)
    requires DropDirFits(TreeOf(st), dropDir) && !Fits(TreeOf(st), dropDir, manifest.files)
    ensures j < |manifest.files|
    ensures Fits(TreeOf(st), dropDir, manifest.files[..j]) && !Fits(TreeOf(st), dropDir, manifest.files[..j + 1])
    ensures var (st', r) := Begin(alg, dropDir, st, id, manifest);
            var created, rel := manifest.files[..j], manifest.files[j].relativePath;
            && r == Err(Reason(rel)) && st'.transfers == st.transfers
            && (forall path :: path in st'.disk <==> path in st.disk || IsDestination(dropDir, created, path))
            && (forall path :: path in st'.disk ==>
                  st'.disk[path] == if IsDestination(dropDir, created, path) then [] else st.disk[path])
            && st'.dirs == st.dirs + Prefixes(dropDir) + ParentDirs(dropDir, created) + LeftDirs(TreeOf(st'), dropDir, rel)
  {
    var t' := Tree(st.disk, st.dirs + Prefixes(dropDir));
    var files := manifest.files;
    FitsInDropDir(TreeOf(st), dropDir, files);
    j := FirstMisfit(t', dropDir, files);
    FitsInDropDir(TreeOf(st), dropDir, files[..j]);
    FitsInDropDir(TreeOf(st), dropDir, files[..j + 1]);
    PlaceAllExactly(t', dropDir, files[..j]);
    PlaceAllEffect(t', dropDir, files[..j]);
    RefusedFiles(t', dropDir, files, j);
  }

  /** Acceptable, with different destinations. */
  predicate Placeable(t: Tree, dropDir: Path, files: seq<FileEntry>) {
    && DropDirFits(t, dropDir) && Fits(t, dropDir, files)
    && forall i, j :: 0 <= i < j < |files| ==> DestinationOf(dropDir, files, i) != DestinationOf(dropDir, files, j)
  }

  /** No other transfer holds one of the destinations. */
  ghost predicate Free(st: RecvState, id: nat, dropDir: Path, files: seq<FileEntry>)
    requires AllNameable(files)
  {
    forall k: Key :: ValidKey(st, k) && k.0 != id ==> !IsDestination(dropDir, files, PathOf(st, k))
  }

  lemma OfferIsSeparate(alg: HashAlg, dropDir: Path, st: RecvState, id: nat, manifest: FileManifest)
    requires Separate(st) && Placeable(TreeOf(st), dropDir, manifest.files) && Free(st, id, dropDir, manifest.files)
    ensures Separate(Begin(alg, dropDir, st, id, manifest).0)
  {
    OfferEffect(alg, dropDir, st, id, manifest);
    var st' := Begin(alg, dropDir, st, id, manifest).0;
    forall k: Key | ValidKey(st', k) ensures PathOf(st', k) in st'.disk {
      if k.0 == id {
        assert PathOf(st', k) == DestinationOf(dropDir, manifest.files, k.1);
      } else {
        assert ValidKey(st, k);
      }
    }
    forall k: Key, l: Key | ValidKey(st', k) && ValidKey(st', l) && k != l ensures PathOf(st', k) != PathOf(st', l) {
      SeparatePair(alg, dropDir, st, st', id, manifest, k, l);
    }
  }

  lemma SeparatePair(alg: HashAlg, dropDir: Path, st: RecvState, st': RecvState, id: nat, manifest: FileManifest,
                     k: Key, l: Key)
    requires Separate(st) && Placeable(TreeOf(st), dropDir, manifest.files) && Free(st, id, dropDir, manifest.files)
    requires id in st'.transfers && |st'.transfers[id].paths| == |manifest.files|
    requires forall i :: 0 <= i < |manifest.files| ==>
               st'.transfers[id].paths[i] == DestinationOf(dropDir, manifest.files, i)
    requires st'.transfers == st.transfers[id := st'.transfers[id]]
    requires ValidKey(st', k) && ValidKey(st', l) && k != l
    ensures PathOf(st', k) != PathOf(st', l)
  {
    assert k.0 != id ==> ValidKey(st, k) && !IsDestination(dropDir, manifest.files, PathOf(st, k));
    assert l.0 != id ==> ValidKey(st, l) && !IsDestination(dropDir, manifest.files, PathOf(st, l));
    if k.0 == id && l.0 != id {
      assert PathOf(st', k) == DestinationOf(dropDir, manifest.files, k.1);
    } else if k.0 != id && l.0 == id {
      assert PathOf(st', l) == DestinationOf(dropDir, manifest.files, l.1);
    }
  }

  // Offers between the steps of other transfers

  function Offered(alg: HashAlg, dropDir: Path, y: Site, id: nat, manifest: FileManifest): Site {
    y.(recv := Begin(alg, dropDir, y.recv, id, manifest).0)
  }

  /** A new transfer whose files can be placed. */
  ghost predicate Welcome(y: Site, id: nat, dropDir: Path, files: seq<FileEntry>) {
    Sound(y) && id !in y.recv.transfers && Placeable(TreeOf(y.recv), dropDir, files) && Free(y.recv, id, dropDir, files)
  }

  lemma StaysWelcome(alg: HashAlg, y: Site, s: WriteStep, id: nat, dropDir: Path, files: seq<FileEntry>)
    requires Welcome(y, id, dropDir, files)
    ensures Welcome(Step(alg, y, s), id, dropDir, files)
  {
    StepKeepsFiles(alg, y, s);
    var z := Step(alg, y, s);
    SameFilesSeparate(y.recv, z.recv);
    forall path: Path ensures HasRoom(TreeOf(y.recv), path) <==> HasRoom(TreeOf(z.recv), path) {
    }
  }

  lemma DisksAgree(a: Tree, b: Tree, a': Tree, b': Tree, dropDir: Path, files: seq<FileEntry>,
                   paths: seq<Path>, paths': seq<Path>, at: Path, content: Bytes)
    requires AllNameable(files) && Created(a, a', dropDir, files, paths) && Created(b, b', dropDir, files, paths')
    requires at in a.files && !IsDestination(dropDir, files, at) && b == a.(files := a.files[at := content])
    ensures paths == paths' && b' == a'.(files := a'.files[at := content])
  {
    forall path: Path
      ensures path in b'.files <==> path in a'.files[at := content]
      ensures path in b'.files ==> b'.files[path] == a'.files[at := content][path]
    {
    }
    assert b'.files == a'.files[at := content];
  }

  /** An offer commutes with a write to a file that is not part of it. */
  lemma OfferAroundWrite(alg: HashAlg, dropDir: Path, st: RecvState, id: nat, manifest: FileManifest, at: Path, content: Bytes)
    requires Placeable(TreeOf(st), dropDir, manifest.files)
    requires at in st.disk && !IsDestination(dropDir, manifest.files, at)
    ensures var st' := Begin(alg, dropDir, st, id, manifest).0;
            Begin(alg, dropDir, st.(disk := st.disk[at := content]), id, manifest).0
            == st'.(disk := st'.disk[at := content])
  {
    var other := st.(disk := st.disk[at := content]);
    OfferEffect(alg, dropDir, st, id, manifest);
    forall path: Path ensures HasRoom(TreeOf(st), path) <==> HasRoom(TreeOf(other), path) {
    }
    OfferEffect(alg, dropDir, other, id, manifest);
    var a, b := Begin(alg, dropDir, st, id, manifest).0, Begin(alg, dropDir, other, id, manifest).0;
    DisksAgree(Tree(st.disk, st.dirs + Prefixes(dropDir)), Tree(other.disk, st.dirs + Prefixes(dropDir)),
               TreeOf(a), TreeOf(b), dropDir, manifest.files, a.transfers[id].paths, b.transfers[id].paths, at, content);
  }

  lemma EntriesSwap(transfers: map<nat, RecvProgress>, id: nat, q: RecvProgress, other: nat, p: RecvProgress)
    requires other != id
    ensures transfers[other := p][id := q] == transfers[id := q][other := p]
  {
  }

  lemma OfferAroundCommit(alg: HashAlg, dropDir: Path, st: RecvState, id: nat, manifest: FileManifest,
                          other: nat, p: RecvProgress)
    requires other != id
    ensures var (st', r) := Begin(alg, dropDir, st, id, manifest);
            Begin(alg, dropDir, st.(transfers := st.transfers[other := p]), id, manifest)
            == (st'.(transfers := st'.transfers[other := p]), r)
  {
    var t := TreeOf(st);
    if MakeDirs(t, dropDir).Ok? {
      var made := MakeDirs(t, dropDir).value;
      PlaceAllLength(made, dropDir, manifest.files);
      if PlaceAll(made, dropDir, manifest.files).1.Ok? {
        var q := NewProgress(alg, manifest, PlaceAll(made, dropDir, manifest.files).1.value);
        EntriesSwap(st.transfers, id, q, other, p);
      }
    }
  }

  /** An offer neither touches the other transfers nor, if its files are free, what they have on disk. */
  lemma OfferElsewhere(alg: HashAlg, dropDir: Path, y: Site, id: nat, manifest: FileManifest, k: Key)
    requires Welcome(y, id, dropDir, manifest.files)
    ensures var w := Offered(alg, dropDir, y, id, manifest);
            && (k.0 != id ==> (k.0 in w.recv.transfers <==> k.0 in y.recv.transfers))
            && (k.0 != id && k.0 in y.recv.transfers ==> w.recv.transfers[k.0] == y.recv.transfers[k.0])
            && (k in y.pending ==>
                  var path := y.pending[k].path;
                  path in y.recv.disk && !IsDestination(dropDir, manifest.files, path)
                  && path in w.recv.disk && w.recv.disk[path] == y.recv.disk[path])
  {
    OfferEffect(alg, dropDir, y.recv, id, manifest);
    if k in y.pending {
      assert ValidKey(y.recv, k);
    }
  }

  lemma OfferAroundCheck(alg: HashAlg, dropDir: Path, y: Site, c: FileChunk, id: nat, manifest: FileManifest)
    requires Welcome(y, id, dropDir, manifest.files) && c.transferId != id
    ensures Step(alg, Offered(alg, dropDir, y, id, manifest), CheckStep(c))
         == Offered(alg, dropDir, Step(alg, y, CheckStep(c)), id, manifest)
  {
    OfferElsewhere(alg, dropDir, y, id, manifest, KeyOf(CheckStep(c)));
    var w := Offered(alg, dropDir, y, id, manifest);
    assert Check(w.recv, c) == Check(y.recv, c);
  }

  lemma OfferAroundStore(alg: HashAlg, dropDir: Path, y: Site, k: Key, id: nat, manifest: FileManifest)
    requires Welcome(y, id, dropDir, manifest.files)
    ensures Step(alg, Offered(alg, dropDir, y, id, manifest), StoreStep(k))
         == Offered(alg, dropDir, Step(alg, y, StoreStep(k)), id, manifest)
  {
    OfferElsewhere(alg, dropDir, y, id, manifest, k);
    if k in y.pending && !y.pending[k].stored {
      var path, c := y.pending[k].path, y.pending[k].chunk;
      OfferAroundWrite(alg, dropDir, y.recv, id, manifest, path, WriteAt(y.recv.disk[path], c.offset, c.data));
    }
  }

  lemma CommitTable(alg: HashAlg, r: RecvState, c: FileChunk, hasher: nat)
    requires c.transferId in r.transfers
    ensures var after := Commit(alg, r, c, hasher).0;
            && c.transferId in after.transfers
            && after == r.(transfers := r.transfers[c.transferId := after.transfers[c.transferId]])
  {
    var after := Commit(alg, r, c, hasher).0;
    if c.fileIndex >= |r.transfers[c.transferId].paths| {
      assert r.transfers[c.transferId := r.transfers[c.transferId]] == r.transfers;
    }
  }

  lemma CommitElsewhere(alg: HashAlg, r: RecvState, w: RecvState, c: FileChunk, hasher: nat)
    requires c.transferId in r.transfers && c.transferId in w.transfers
    requires r.transfers[c.transferId] == w.transfers[c.transferId]
    ensures Commit(alg, r, c, hasher).1 == Commit(alg, w, c, hasher).1
    ensures c.transferId in Commit(alg, w, c, hasher).0.transfers && c.transferId in Commit(alg, r, c, hasher).0.transfers
    ensures Commit(alg, w, c, hasher).0.transfers[c.transferId] == Commit(alg, r, c, hasher).0.transfers[c.transferId]
  {
  }

  lemma OfferAroundCommitStep(alg: HashAlg, dropDir: Path, y: Site, k: Key, id: nat, manifest: FileManifest)
    requires Welcome(y, id, dropDir, manifest.files) && k.0 != id
    ensures Step(alg, Offered(alg, dropDir, y, id, manifest), CommitStep(k))
         == Offered(alg, dropDir, Step(alg, y, CommitStep(k)), id, manifest)
  {
    OfferElsewhere(alg, dropDir, y, id, manifest, k);
    if k in y.pending && y.pending[k].stored {
      assert ValidKey(y.recv, k);
      var c, hasher := y.pending[k].chunk, y.pending[k].hasher;
      var w := Offered(alg, dropDir, y, id, manifest);
      CommitTable(alg, y.recv, c, hasher);
      CommitTable(alg, w.recv, c, hasher);
      CommitElsewhere(alg, y.recv, w.recv, c, hasher);
      OfferAroundCommit(alg, dropDir, y.recv, id, manifest, k.0, Commit(alg, y.recv, c, hasher).0.transfers[k.0]);
    }
  }

  lemma OfferAroundStep(alg: HashAlg, dropDir: Path, y: Site, s: WriteStep, id: nat, manifest: FileManifest)
    requires Welcome(y, id, dropDir, manifest.files) && KeyOf(s).0 != id
    ensures Step(alg, Offered(alg, dropDir, y, id, manifest), s)
         == Offered(alg, dropDir, Step(alg, y, s), id, manifest)
  {
    match s
    case CheckStep(c) => OfferAroundCheck(alg, dropDir, y, c, id, manifest);
    case StoreStep(k) => OfferAroundStore(alg, dropDir, y, k, id, manifest);
    case CommitStep(k) => OfferAroundCommitStep(alg, dropDir, y, k, id, manifest);
  }

  /** An offer that arrives while other transfers' writes are in flight might as well have come before
      all of them: what interleaves freely without it interleaves freely with it. */
  lemma {:induction false} OfferAnywhere(alg: HashAlg, dropDir: Path, y: Site, before: seq<WriteStep>,
                                         id: nat, manifest: FileManifest)
    requires Welcome(y, id, dropDir, manifest.files)
    requires forall s :: s in before ==> KeyOf(s).0 != id
    ensures Welcome(Run(alg, y, before), id, dropDir, manifest.files)
    ensures Offered(alg, dropDir, Run(alg, y, before), id, manifest)
         == Run(alg, Offered(alg, dropDir, y, id, manifest), before)
  {
    if before != [] {
      var front, s := before[..|before| - 1], before[|before| - 1];
      assert s in before && forall t :: t in front ==> t in before;
      OfferAnywhere(alg, dropDir, y, front, id, manifest);
      StaysWelcome(alg, Run(alg, y, front), s, id, dropDir, manifest.files);
      OfferAroundStep(alg, dropDir, Run(alg, y, front), s, id, manifest);
    }
  }

  lemma {:induction false} RunAppend(alg: HashAlg, y: Site, a: seq<WriteStep>, b: seq<WriteStep>)
    ensures Run(alg, y, a + b) == Run(alg, Run(alg, y, a), b)
  {
    if b == [] {
      assert a + b == a;
    } else {
      RunAppend(alg, y, a, b[..|b| - 1]);
      assert (a + b)[..|a + b| - 1] == a + b[..|b| - 1];
    }
  }

  lemma OfferInterleavesWhenAllLive(alg: HashAlg, dropDir: Path, y: Site, id: nat, manifest: FileManifest,
                         before: seq<WriteStep>, after: seq<WriteStep>, before': seq<WriteStep>, after': seq<WriteStep>)
    requires Welcome(y, id, dropDir, manifest.files)
    requires forall s :: s in before || s in before' ==> KeyOf(s).0 != id
    requires forall k: Key :: Of(before + after, k) == Of(before' + after', k)
    ensures var z := Run(alg, Offered(alg, dropDir, Run(alg, y, before), id, manifest), after);
            var z' := Run(alg, Offered(alg, dropDir, Run(alg, y, before'), id, manifest), after');
            z.recv == z'.recv && z.pending == z'.pending
  {
    var w := Offered(alg, dropDir, y, id, manifest);
    OfferAnywhere(alg, dropDir, y, before, id, manifest);
    OfferAnywhere(alg, dropDir, y, before', id, manifest);
    RunAppend(alg, w, before, after);
    RunAppend(alg, w, before', after');
    OfferIsSound(alg, dropDir, y, id, manifest);
    IndependenceWhenAllLive(alg, w, before + after, before' + after');
  }

  lemma OfferIsSound(alg: HashAlg, dropDir: Path, y: Site, id: nat, manifest: FileManifest)
    requires Welcome(y, id, dropDir, manifest.files)
    ensures Sound(Offered(alg, dropDir, y, id, manifest))
  {
    OfferIsSeparate(alg, dropDir, y.recv, id, manifest);
    OfferEffect(alg, dropDir, y.recv, id, manifest);
    var w := Offered(alg, dropDir, y, id, manifest);
    forall k: Key | k in w.pending
      ensures ValidKey(w.recv, k) && w.pending[k].path == PathOf(w.recv, k) && KeyOf(CheckStep(w.pending[k].chunk)) == k
    {
      assert ValidKey(y.recv, k);
    }
  }

  /** An offer makes the same entry and the same files whatever else is in the table. */
  lemma OfferNarrow(alg: HashAlg, dropDir: Path, st: RecvState, live: set<nat>, id: nat, manifest: FileManifest)
    requires id in live && Begin(alg, dropDir, Only(st, live - {id}), id, manifest).1.Ok?
    ensures var (a, r) := Begin(alg, dropDir, st, id, manifest);
            && r == Ok(()) && Only(a, live) == Begin(alg, dropDir, Only(st, live - {id}), id, manifest).0
            && (forall other :: other in st.transfers && other != id ==>
                  other in a.transfers && a.transfers[other] == st.transfers[other])
            && a.transfers.Keys == st.transfers.Keys + {id}
  {
    var a, b := Begin(alg, dropDir, st, id, manifest).0, Begin(alg, dropDir, Only(st, live - {id}), id, manifest).0;
    assert a.transfers == st.transfers[id := b.transfers[id]];
    assert Only(a, live).transfers == b.transfers;
  }

  /** Interleaving independence with an offer in between: wherever it falls among the steps, two runs that
      agree on each file's own steps leave the same table, disk and writes in flight. */
  lemma OfferInterleaves(alg: HashAlg, dropDir: Path, y: Site, live: set<nat>, id: nat, manifest: FileManifest,
                         before: seq<WriteStep>, after: seq<WriteStep>, before': seq<WriteStep>, after': seq<WriteStep>)
    requires id in live && Welcome(Narrow(y, live - {id}), id, dropDir, manifest.files)
    requires AreLive(before, live - {id}) && AreLive(before', live - {id}) && AreLive(after, live) && AreLive(after', live)
    requires forall k: Key :: Of(before + after, k) == Of(before' + after', k)
    ensures var z := Run(alg, Offered(alg, dropDir, Run(alg, y, before), id, manifest), after);
            var z' := Run(alg, Offered(alg, dropDir, Run(alg, y, before'), id, manifest), after');
            z.recv == z'.recv && z.pending == z'.pending
  {
    var n := Narrow(y, live - {id});
    OfferInterleavesWhenAllLive(alg, dropDir, n, id, manifest, before, after, before', after');
    var z := OfferedRun(alg, dropDir, y, live, id, manifest, before, after);
    var z' := OfferedRun(alg, dropDir, y, live, id, manifest, before', after');
    var w := Offered(alg, dropDir, y, id, manifest).recv;
    TablesAgree(z.recv, z.recv, z'.recv, live);
  }

  /** A run with an offer in the middle, and the same run without the transfers that are not live. */
  lemma OfferedRun(alg: HashAlg, dropDir: Path, y: Site, live: set<nat>, id: nat, manifest: FileManifest,
                   before: seq<WriteStep>, after: seq<WriteStep>) returns (z: Site)
    requires id in live && Welcome(Narrow(y, live - {id}), id, dropDir, manifest.files)
    requires AreLive(before, live - {id}) && AreLive(after, live)
    ensures z == Run(alg, Offered(alg, dropDir, Run(alg, y, before), id, manifest), after)
    ensures Narrow(z, live)
         == Run(alg, Offered(alg, dropDir, Run(alg, Narrow(y, live - {id}), before), id, manifest), after)
    ensures z.recv.transfers.Keys == y.recv.transfers.Keys + {id}
    ensures forall other :: other in y.recv.transfers && other !in live ==> z.recv.transfers[other] == y.recv.transfers[other]
  {
    var others := live - {id};
    z := Run(alg, Offered(alg, dropDir, Run(alg, y, before), id, manifest), after);
    RunNarrow(alg, y, others, before);
    var m := Run(alg, y, before);
    assert KeysOf(before, id);
    OfferAnywhere(alg, dropDir, Narrow(y, others), before, id, manifest);
    OfferIsSound(alg, dropDir, Narrow(m, others), id, manifest);
    OfferEffect(alg, dropDir, Narrow(m, others).recv, id, manifest);
    OfferNarrow(alg, dropDir, m.recv, live, id, manifest);
    var o := Offered(alg, dropDir, m, id, manifest);
    assert Narrow(o, live) == Offered(alg, dropDir, Narrow(m, others), id, manifest);
    RunNarrow(alg, o, live, after);
  }

  predicate KeysOf(steps: seq<WriteStep>, id: nat) {
    forall s :: s in steps ==> KeyOf(s).0 != id
  }
}
