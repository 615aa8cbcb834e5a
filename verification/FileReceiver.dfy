/** Relative paths and their check on the receiving side (`sanitize` in crates/filetransfer/src/lib.rs). */
module FilePath {
  import opened Wrappers
  import Seqs

  /** Whose path rules apply. */
  datatype Os = Unix | Windows

  datatype Component = Prefix | RootDir | CurDir | ParentDir | Normal(name: string)

  function WithSlashes(s: string): string {
    if s == "" then "" else [if s[0] == '\\' then '/' else s[0]] + WithSlashes(s[1..])
  }

  /** The parts between slashes. */
  function Parts(s: string): (parts: seq<string>)
    ensures parts != []
  {
    if s == "" then [""]
    else
      var rest := Parts(s[1..]);
      if s[0] == '/' then [""] + rest else [[s[0]] + rest[0]] + rest[1..]
  }

  /** Either slash separates. */
  lemma {:induction false} WithSlashesExactly(s: string, i: nat)
    requires i < |s|
    ensures |WithSlashes(s)| == |s| && WithSlashes(s)[i] == if s[i] == '\\' then '/' else s[i]
  {
    if |s| > 1 {
      WithSlashesExactly(s[1..], if i > 0 then i - 1 else 0);
    }
  }

  function Joined(parts: seq<string>): string
    requires parts != []
  {
    if |parts| == 1 then parts[0] else parts[0] + ("/" + Joined(parts[1..]))
  }

  lemma JoinedSlash(rest: seq<string>)
    requires rest != []
    ensures Joined([""] + rest) == "/" + Joined(rest)
  {
    Seqs.Nothing("/" + Joined(rest));
    assert ([""] + rest)[1..] == rest;
  }

  lemma JoinedChar(c: char, rest: seq<string>)
    requires rest != []
    ensures Joined([[c] + rest[0]] + rest[1..]) == [c] + Joined(rest)
  {
    var all := [[c] + rest[0]] + rest[1..];
    assert all[1..] == rest[1..];
    if |rest| > 1 {
      Seqs.Associative([c], rest[0], "/" + Joined(rest[1..]));
    }
  }

  /** The parts hold no slash, and joined by slashes they are the path. */
  lemma {:induction false} PartsExactly(s: string)
    ensures Joined(Parts(s)) == s
    ensures forall i :: 0 <= i < |Parts(s)| ==> '/' !in Parts(s)[i]
  {
    if s == "" {
    } else {
      PartsExactly(s[1..]);
      if s[0] == '/' {
        JoinedSlash(Parts(s[1..]));
      } else {
        JoinedChar(s[0], Parts(s[1..]));
      }
      assert s == [s[0]] + s[1..];
    }
  }

  lemma LonePart(s: string)
    requires |Parts(s)| == 1
    ensures Parts(s) == [s] && '/' !in s
  {
    PartsExactly(s);
  }

  lemma {:induction false} LastPart(s: string)
    ensures var last := Parts(s)[|Parts(s)| - 1];
            && (last == "" <==> s == "" || s[|s| - 1] == '/')
            && (last == "." <==> s == "." || (|s| >= 2 && s[|s| - 2..] == "/."))
  {
    if |Parts(s)| == 1 {
      LonePart(s);
      assert |s| >= 2 ==> s[|s| - 2..][0] == s[|s| - 2] && s[|s| - 2] in s;
    } else {
      LastPart(s[1..]);
      var rest := Parts(s[1..]);
      if |rest| == 1 {
        LonePart(s[1..]);
      }
      assert Parts(s)[|Parts(s)| - 1] == rest[|rest| - 1];
      if |s| >= 3 {
        assert s[1..][|s| - 3..] == s[|s| - 2..];
      }
    }
  }

  /** Empty parts and inner dots do not count as components. */
  function Inner(parts: seq<string>): seq<Component> {
    if parts == [] then []
    else
      (if parts[0] == "" || parts[0] == "." then []
       else if parts[0] == ".." then [ParentDir]
       else [Normal(parts[0])]) + Inner(parts[1..])
  }

  predicate IsRooted(s: string) {
    s != "" && s[0] == '/'
  }

  predicate HasDrive(s: string) {
    |s| >= 2 && ('A' <= s[0] <= 'Z' || 'a' <= s[0] <= 'z') && s[1] == ':'
  }

  /** A network share or a device, which both lead with two slashes. */
  predicate HasShare(s: string) {
    var parts := Parts(s);
    |parts| >= 4 && parts[0] == "" && parts[1] == "" && (parts[2] == "." || (parts[2] != "" && parts[3] != ""))
  }

  predicate IsAbsolute(os: Os, s: string) {
    match os
    case Unix => IsRooted(s)
    case Windows => HasShare(s) || (HasDrive(s) && IsRooted(s[2..]))
  }

  function Body(s: string): seq<Component> {
    (if IsRooted(s) then [RootDir] else if Parts(s)[0] == "." then [CurDir] else []) + Inner(Parts(s))
  }

  function Components(os: Os, s: string): seq<Component> {
    if os == Windows && HasDrive(s) then [Prefix] + Body(s[2..])
    else if os == Windows && HasShare(s) then [Prefix, RootDir] + Inner(Parts(s)[4..])
    else Body(s)
  }

  function Names(cs: seq<Component>): seq<string> {
    if cs == [] then [] else (if cs[0].Normal? then [cs[0].name] else []) + Names(cs[1..])
  }

  predicate AllNormal(cs: seq<Component>) {
    forall c :: c in cs ==> c.Normal?
  }

  datatype PathError = AbsolutePath | SuspiciousComponent

  function SanitizeOn(os: Os, rel: string): Result<seq<string>, PathError> {
    var path := WithSlashes(rel);
    if IsAbsolute(os, path) then Err(AbsolutePath)
    else if AllNormal(Components(os, path)) then Ok(Names(Components(os, path)))
    else Err(SuspiciousComponent)
  }

  /** `sanitize` on the machines whose disk the receiver model describes. */
  function Sanitize(rel: string): Result<seq<string>, PathError> {
    SanitizeOn(Unix, rel)
  }

  /** Where a path leads from a directory. */
  function Resolve(dir: seq<string>, cs: seq<Component>): seq<string>
    decreases |cs|
  {
    if cs == [] then dir
    else
      match cs[0]
      case Prefix => Resolve([], cs[1..])
      case RootDir => Resolve([], cs[1..])
      case CurDir => Resolve(dir, cs[1..])
      case ParentDir => Resolve(if dir == [] then [] else dir[..|dir| - 1], cs[1..])
      case Normal(name) => Resolve(dir + [name], cs[1..])
  }

  lemma {:induction false} NormalResolves(dir: seq<string>, cs: seq<Component>)
    requires AllNormal(cs)
    ensures Resolve(dir, cs) == dir + Names(cs)
    decreases |cs|
  {
    if cs == [] {
      assert dir + [] == dir;
    } else {
      assert cs[0] in cs && AllNormal(cs[1..]);
      NormalResolves(dir + [cs[0].name], cs[1..]);
      assert dir + ([cs[0].name] + Names(cs[1..])) == (dir + [cs[0].name]) + Names(cs[1..]);
    }
  }

  lemma {:induction false} InnerNormal(parts: seq<string>)
    ensures AllNormal(Inner(parts)) <==> ".." !in parts
  {
    if parts != [] {
      InnerNormal(parts[1..]);
      assert parts == [parts[0]] + parts[1..];
      var rest := Inner(parts[1..]);
      if parts[0] == ".." {
        assert parts[0] in parts && ".." in parts;
        assert Inner(parts)[0] == ParentDir && ParentDir in Inner(parts);
      } else if parts[0] == "" || parts[0] == "." {
        assert Inner(parts) == rest;
      } else {
        assert Inner(parts) == [Normal(parts[0])] + rest;
        assert forall c :: c in Inner(parts) <==> c == Normal(parts[0]) || c in rest;
      }
    }
  }

  /** The parts that are names. */
  function Kept(parts: seq<string>): seq<string> {
    if parts == [] then [] else (if parts[0] in {"", ".", ".."} then [] else [parts[0]]) + Kept(parts[1..])
  }

  lemma {:induction false} InnerNames(parts: seq<string>)
    ensures Names(Inner(parts)) == Kept(parts)
  {
    if parts != [] {
      InnerNames(parts[1..]);
      var rest := Inner(parts[1..]);
      if parts[0] == ".." {
        assert ([ParentDir] + rest)[1..] == rest;
      } else if parts[0] != "" && parts[0] != "." {
        assert ([Normal(parts[0])] + rest)[1..] == rest;
      } else {
        assert [] + rest == rest;
      }
    }
  }

  lemma {:induction false} RootedParts(s: string)
    ensures Parts(s)[0] == "" <==> s == "" || IsRooted(s)
  {
  }

  /** A path is accepted exactly if, with either slash as separator, it is not rooted, does not start with
      a dot part and has no double-dot part, and on Windows names no drive; it then leads from every
      directory to the place beneath it that its remaining parts name. */
  lemma SanitizeStaysBeneath(os: Os, dir: seq<string>, rel: string)
    ensures var path := WithSlashes(rel);
            SanitizeOn(os, rel).Ok? <==>
              && (path != "" ==> path[0] != '/') && Parts(path)[0] != "." && ".." !in Parts(path)
              && (os == Windows && |path| >= 2 && path[1] == ':' ==>
                    !('A' <= path[0] <= 'Z') && !('a' <= path[0] <= 'z'))
    ensures SanitizeOn(os, rel).Ok? ==>
              && SanitizeOn(os, rel).value == Kept(Parts(WithSlashes(rel)))
              && Resolve(dir, Components(os, WithSlashes(rel))) == dir + SanitizeOn(os, rel).value
  {
    var path := WithSlashes(rel);
    var cs := Components(os, path);
    InnerNormal(Parts(path));
    RootedParts(path);
    if os == Windows && (HasDrive(path) || HasShare(path)) {
      assert cs[0] == Prefix && Prefix in cs;
    } else if IsRooted(path) {
      assert cs[0] == RootDir && RootDir in cs;
    } else if Parts(path)[0] == "." {
      assert cs[0] == CurDir && CurDir in cs;
    } else {
      assert cs == Inner(Parts(path));
      InnerNames(Parts(path));
    }
    if AllNormal(cs) {
      NormalResolves(dir, cs);
    }
  }

  /** A refused path is called absolute exactly if it starts with a slash; on Windows that takes a drive or share before
      it, and anything else that is refused is called suspicious. */
  lemma RefusalReason(os: Os, rel: string)
    ensures var path := WithSlashes(rel);
            SanitizeOn(os, rel) == Err(AbsolutePath)
            <==> if os == Unix then path != "" && path[0] == '/'
                 else HasShare(path) || (HasDrive(path) && |path| > 2 && path[2] == '/')
  {
    if HasDrive(WithSlashes(rel)) {
      assert WithSlashes(rel)[2..] != "" ==> WithSlashes(rel)[2..][0] == WithSlashes(rel)[2];
    }
  }

  /** Drive letters, which the source promises to reject, are rejected on Windows only: on Unix they are
      names like any other, so that whether such a path passes is up to the rest of it. */
  lemma DriveLettersPassOnUnix(rel: string)
    requires HasDrive(WithSlashes(rel))
    ensures SanitizeOn(Windows, rel).Err?
    ensures SanitizeOn(Unix, rel).Ok? <==> ".." !in Parts(WithSlashes(rel))
  {
    var path := WithSlashes(rel);
    SanitizeStaysBeneath(Windows, [], rel);
    SanitizeStaysBeneath(Unix, [], rel);
    assert Parts(path) == [[path[0]] + Parts(path[1..])[0]] + Parts(path[1..])[1..];
  }
}

/** The receiving side of a file transfer (crates/filetransfer/src/lib.rs). */
module FileReceiver {
  import opened Wrappers
  import Seqs
  import opened Protocol
  import opened FilePath

  /** An incremental hash, taken as abstract: hasher states, their update and the digest of a state. */
  datatype HashAlg = HashAlg(init: nat, update: (nat, Bytes) -> nat, finalize: nat -> Digest)

  /** Updating is a homomorphism from byte strings. */
  ghost predicate Lawful(alg: HashAlg) {
    && (forall s: nat :: alg.update(s, []) == s)
    && (forall s: nat, a: Bytes, b: Bytes {:trigger alg.update(alg.update(s, a), b)} :: alg.update(alg.update(s, a), b) == alg.update(s, a + b))
  }

  function DigestOf(alg: HashAlg, content: Bytes): Digest {
    alg.finalize(alg.update(alg.init, content))
  }

  /** The hasher after the first n bytes. */
  function HashedUpTo(alg: HashAlg, content: Bytes, n: nat): nat
    requires n <= |content|
  {
    alg.update(alg.init, content[..n])
  }

  lemma HashMore(alg: HashAlg, content: Bytes, at: nat, n: nat)
    requires Lawful(alg) && at + n <= |content|
    ensures alg.update(HashedUpTo(alg, content, at), content[at..at + n]) == HashedUpTo(alg, content, at + n)
  {
    assert content[..at] + content[at..at + n] == content[..at + n];
  }

  lemma HashEnds(alg: HashAlg, content: Bytes)
    requires Lawful(alg)
    ensures HashedUpTo(alg, content, 0) == alg.init
    ensures alg.finalize(HashedUpTo(alg, content, |content|)) == DigestOf(alg, content)
  {
    assert content[..0] == [] && content[..|content|] == content;
  }

  type Path = seq<string>
  type Disk = map<Path, Bytes>

  datatype RecvError =
    | BadPath(reason: PathError)
    | Io
    | UnknownTransfer
    | IndexOutOfRange
    | OutOfOrder(expected: nat, got: nat)
    | HashMismatch(path: string)

  datatype ProgressRecord = Progress(manifest: FileManifest, paths: seq<Path>, received: seq<nat>, hashers: seq<nat>)

  type RecvProgress = p: ProgressRecord |
      |p.manifest.files| == |p.paths| && |p.received| == |p.paths| && |p.hashers| == |p.paths|
    witness Progress(FileManifest([], 0), [], [], [])

  /** `disk` holds the regular files, `dirs` the directories. */
  datatype RecvState = RecvState(transfers: map<nat, RecvProgress>, disk: Disk, dirs: set<Path>)

  datatype Tree = Tree(files: Disk, dirs: set<Path>)

  function Prefixes(path: Path): set<Path> {
    set k | 0 <= k <= |path| :: path[..k]
  }

  /** `create_dir_all`: fails exactly if a file is in the way, and then creates nothing. */
  function MakeDirs(t: Tree, path: Path): Result<Tree, RecvError> {
    if exists k :: 0 <= k <= |path| && path[..k] in t.files then Err(Io) else Ok(t.(dirs := t.dirs + Prefixes(path)))
  }

  function Parent(path: Path): Path {
    if path == [] then [] else path[..|path| - 1]
  }

  /** A path that ends in a slash or a dot can only name a directory. */
  predicate NamesFile(rel: string) {
    var parts := Parts(WithSlashes(rel));
    parts[|parts| - 1] != "" && parts[|parts| - 1] != "."
  }

  lemma NamesFileExactly(rel: string)
    ensures var path := WithSlashes(rel);
            NamesFile(rel) <==> && path != "" && path[|path| - 1] != '/' && path != "."
                                && (|path| >= 2 ==> path[|path| - 2..] != "/.")
  {
    LastPart(WithSlashes(rel));
  }

  /** `File::create` in an existing directory: an existing file is truncated. */
  function CreateFile(t: Tree, rel: string, path: Path): Result<Tree, RecvError> {
    if !NamesFile(rel) || path in t.dirs then Err(Io) else Ok(t.(files := t.files[path := []]))
  }

  /** One file of an offer: check its path, make its parents, create it. */
  function PlaceFile(t: Tree, dropDir: Path, rel: string): (Tree, Result<Path, RecvError>) {
    match Sanitize(rel)
    case Err(e) => (t, Err(BadPath(e)))
    case Ok(names) =>
      match MakeDirs(t, Parent(dropDir + names))
      case Err(e) => (t, Err(e))
      case Ok(t) =>
        match CreateFile(t, rel, dropDir + names)
        case Err(e) => (t, Err(e))
        case Ok(t) => (t, Ok(dropDir + names))
  }

  /** The files in order; what was created before an error stays. */
  function PlaceAll(t: Tree, dropDir: Path, files: seq<FileEntry>): (Tree, Result<seq<Path>, RecvError>)
    decreases |files|
  {
    if files == [] then (t, Ok([]))
    else
      match PlaceFile(t, dropDir, files[0].relativePath)
      case (t, Err(e)) => (t, Err(e))
      case (t, Ok(path)) =>
        match PlaceAll(t, dropDir, files[1..])
        case (t, Err(e)) => (t, Err(e))
        case (t, Ok(paths)) => (t, Ok([path] + paths))
  }

  /** One round of the loop over the files. */
  lemma PlaceNext(t: Tree, dropDir: Path, files: seq<FileEntry>, i: nat, paths: seq<Path>)
    requires i < |files|
    ensures var (t', r) := PlaceFile(t, dropDir, files[i].relativePath);
            var whole, rest := PlaceAll(t, dropDir, files[i..]), PlaceAll(t', dropDir, files[i + 1..]);
            && whole.0 == (if r.Ok? then rest.0 else t')
            && (r.Err? ==> whole.1 == Err(r.error))
            && (r.Ok? && rest.1.Err? ==> whole.1 == rest.1)
            && (r.Ok? && rest.1.Ok? ==>
                  whole.1.Ok? && paths + whole.1.value == (paths + [r.value]) + rest.1.value)
  {
    assert files[i..][1..] == files[i + 1..];
    var (t', r) := PlaceFile(t, dropDir, files[i].relativePath);
    var rest := PlaceAll(t', dropDir, files[i + 1..]);
    if r.Ok? && rest.1.Ok? {
      Seqs.Associative(paths, [r.value], rest.1.value);
    }
  }

  lemma {:induction false} PlaceAllLength(t: Tree, dropDir: Path, files: seq<FileEntry>)
    ensures PlaceAll(t, dropDir, files).1.Ok? ==> |PlaceAll(t, dropDir, files).1.value| == |files|
    decreases |files|
  {
    if files != [] {
      PlaceAllLength(PlaceFile(t, dropDir, files[0].relativePath).0, dropDir, files[1..]);
    }
  }

  function NewProgress(alg: HashAlg, manifest: FileManifest, paths: seq<Path>): RecvProgress
    requires |paths| == |manifest.files|
  {
    Progress(manifest, paths, seq(|paths|, _ => 0), seq(|paths|, _ => alg.init))
  }

  function Begin(alg: HashAlg, dropDir: Path, st: RecvState, id: nat, manifest: FileManifest)
      : (RecvState, Result<(), RecvError>)
  {
    match MakeDirs(Tree(st.disk, st.dirs), dropDir)
    case Err(e) => (st, Err(e))
    case Ok(t) =>
      PlaceAllLength(t, dropDir, manifest.files);
      match PlaceAll(t, dropDir, manifest.files)
      case (t, Err(e)) => (st.(disk := t.files, dirs := t.dirs), Err(e))
      case (t, Ok(paths)) =>
        (RecvState(st.transfers[id := NewProgress(alg, manifest, paths)], t.files, t.dirs), Ok(()))
  }

  // A chunk is written in three steps: the check under the lock, the write, the commit under the lock

  function Check(st: RecvState, c: FileChunk): Result<(Path, nat), RecvError> {
    if c.transferId !in st.transfers then Err(UnknownTransfer)
    else
      var p := st.transfers[c.transferId];
      if c.fileIndex >= |p.paths| then Err(IndexOutOfRange)
      else if c.offset != p.received[c.fileIndex] then Err(OutOfOrder(p.received[c.fileIndex], c.offset))
      else Ok((p.paths[c.fileIndex], p.hashers[c.fileIndex]))
  }

  /** Seek and write: a gap is filled with zeros, bytes behind the written range stay. */
  function WriteAt(content: Bytes, offset: nat, data: Bytes): Bytes {
    if data == [] then content
    else
      var padded := if |content| < offset then content + seq(offset - |content|, _ => 0) else content;
      padded[..offset] + data + (if offset + |data| < |padded| then padded[offset + |data|..] else [])
  }

  function Store(disk: Disk, path: Path, c: FileChunk): Result<Disk, RecvError> {
    if path !in disk then Err(Io) else Ok(disk[path := WriteAt(disk[path], c.offset, c.data)])
  }

  function Sum(ns: seq<nat>): nat {
    if ns == [] then 0 else ns[0] + Sum(ns[1..])
  }

  /** The counters and the hasher are updated before a last chunk's digest is compared. The index is
      tested again because the table may have changed since the check. */
  function Commit(alg: HashAlg, st: RecvState, c: FileChunk, hasher: nat): (RecvState, Result<nat, RecvError>) {
    if c.transferId !in st.transfers then (st, Err(UnknownTransfer))
    else
      var p := st.transfers[c.transferId];
      var i := c.fileIndex;
      if i >= |p.paths| then (st, Err(IndexOutOfRange))
      else
        var p' := p.(received := p.received[i := p.received[i] + |c.data|],
                     hashers := p.hashers[i := alg.update(hasher, c.data)]);
        (st.(transfers := st.transfers[c.transferId := p']),
         if c.isLast && alg.finalize(p'.hashers[i]) != p.manifest.files[i].blake3
         then Err(HashMismatch(p.manifest.files[i].relativePath))
         else Ok(Sum(p'.received)))
  }

  function WriteChunk(alg: HashAlg, st: RecvState, c: FileChunk): (RecvState, Result<nat, RecvError>) {
    match Check(st, c)
    case Err(e) => (st, Err(e))
    case Ok((path, hasher)) =>
      match Store(st.disk, path, c)
      case Err(e) => (st, Err(e))
      case Ok(disk) => Commit(alg, st.(disk := disk), c, hasher)
  }

  function ResumeOffsets(st: RecvState, id: nat): Option<seq<nat>> {
    if id in st.transfers then Some(st.transfers[id].received) else None
  }

  /** A write puts its bytes at its offset, keeps all others, and fills a gap with zeros. */
  lemma WriteAtExactly(content: Bytes, offset: nat, data: Bytes, k: nat)
    ensures var after := WriteAt(content, offset, data);
            && (|after| == if data == [] || offset + |data| <= |content| then |content| else offset + |data|)
            && (k < |after| ==>
                  after[k] == if offset <= k < offset + |data| then data[k - offset] else if k < |content| then content[k] else 0)
  {
  }

  /** What a chunk meets, in the order it is tested; a refused one changes nothing. */
  predicate Fails(st: RecvState, c: FileChunk, e: RecvError) {
    if c.transferId !in st.transfers then e == UnknownTransfer
    else
      var p := st.transfers[c.transferId];
      if |p.paths| <= c.fileIndex then e == IndexOutOfRange
      else if c.offset != p.received[c.fileIndex] then e == OutOfOrder(p.received[c.fileIndex], c.offset)
      else p.paths[c.fileIndex] !in st.disk && e == Io
  }

  predicate IsRefused(st: RecvState, c: FileChunk) {
    || c.transferId !in st.transfers || |st.transfers[c.transferId].paths| <= c.fileIndex
    || c.offset != st.transfers[c.transferId].received[c.fileIndex]
    || st.transfers[c.transferId].paths[c.fileIndex] !in st.disk
  }

  /** A chunk of a known transfer and file that comes at its counter is written there, and only there. Its counter and
      its hasher advance even if it is marked last and the digest turns out wrong, which is the one error then. */
  lemma ChunkExactly(alg: HashAlg, st: RecvState, c: FileChunk)
    ensures var (st', r) := WriteChunk(alg, st, c);
            && (IsRefused(st, c) ==> st' == st && r.Err? && Fails(st, c, r.error))
            && (!IsRefused(st, c) ==>
                  var (p, i) := (st.transfers[c.transferId], c.fileIndex);
                  var path, n, hasher := p.paths[i], p.received[i] + |c.data|, alg.update(p.hashers[i], c.data);
                  && st' == RecvState(st.transfers[c.transferId := p.(received := p.received[i := n], hashers := p.hashers[i := hasher])],
                                      st.disk[path := WriteAt(st.disk[path], c.offset, c.data)], st.dirs)
                  && (c.isLast && alg.finalize(hasher) != p.manifest.files[i].blake3 ==>
                        r == Err(HashMismatch(p.manifest.files[i].relativePath)))
                  && (!c.isLast || alg.finalize(hasher) == p.manifest.files[i].blake3 ==> r == Ok(Sum(p.received[i := n]))))
  {
  }

  class Receiver {
    const alg: HashAlg
    const dropDir: Path
    var transfers: map<nat, RecvProgress>
    var disk: Disk
    var dirs: set<Path>

    ghost function State(): RecvState
      reads this
    {
      RecvState(transfers, disk, dirs)
    }

    constructor (alg: HashAlg, dropDir: Path, disk: Disk, dirs: set<Path>)
      ensures this.alg == alg && this.dropDir == dropDir && State() == RecvState(map[], disk, dirs)
    {
      this.alg, this.dropDir, this.disk, this.dirs := alg, dropDir, disk, dirs;
      transfers := map[];
    }

    method CreateOne(rel: string) returns (r: Result<Path, RecvError>)
      modifies this`disk, this`dirs
      ensures (Tree(disk, dirs), r) == PlaceFile(old(Tree(disk, dirs)), dropDir, rel)
    {
      var sanitized := Sanitize(rel);
      if sanitized.Err? {
        return Err(BadPath(sanitized.error));
      }
      var abs := dropDir + sanitized.value;
      var made := MakeDirs(Tree(disk, dirs), Parent(abs));
      if made.Err? {
        return Err(made.error);
      }
      dirs := made.value.dirs;
      var created := CreateFile(Tree(disk, dirs), rel, abs);
      if created.Err? {
        return Err(created.error);
      }
      disk := created.value.files;
      return Ok(abs);
    }

    method CreateFiles(files: seq<FileEntry>) returns (r: Result<seq<Path>, RecvError>)
      modifies this`disk, this`dirs
      ensures (Tree(disk, dirs), r) == PlaceAll(old(Tree(disk, dirs)), dropDir, files)
    {
      var paths: seq<Path> := [];
      ghost var whole := PlaceAll(Tree(disk, dirs), dropDir, files);
      assert files[0..] == files && (whole.1.Ok? ==> paths + whole.1.value == whole.1.value);
      for i := 0 to |files|
        invariant var rest := PlaceAll(Tree(disk, dirs), dropDir, files[i..]);
                  && whole.0 == rest.0
                  && whole.1 == if rest.1.Err? then rest.1 else Ok(paths + rest.1.value)
      {
        PlaceNext(Tree(disk, dirs), dropDir, files, i, paths);
        var placed := CreateOne(files[i].relativePath);
        if placed.Err? {
          return Err(placed.error);
        }
        paths := paths + [placed.value];
      }
      assert paths + [] == paths;
      return Ok(paths);
    }

    method BeginTransfer(id: nat, manifest: FileManifest) returns (r: Result<(), RecvError>)
      modifies this
      ensures (State(), r) == Begin(alg, dropDir, old(State()), id, manifest)
    {
      var made := MakeDirs(Tree(disk, dirs), dropDir);
      if made.Err? {
        return Err(made.error);
      }
      dirs := made.value.dirs;
      PlaceAllLength(Tree(disk, dirs), dropDir, manifest.files);
      var paths := CreateFiles(manifest.files);
      if paths.Err? {
        return Err(paths.error);
      }
      var n := |manifest.files|;
      var hashers: seq<nat> := [];
      for i := 0 to n
        invariant hashers == seq(i, _ => alg.init)
      {
        hashers := hashers + [alg.init];
      }
      transfers := transfers[id := Progress(manifest, paths.value, seq(n, _ => 0), hashers)];
      return Ok(());
    }

    /** The first locked section. */
    method CheckChunk(c: FileChunk) returns (r: Result<(Path, nat), RecvError>)
      ensures r == Check(State(), c)
    {
      if c.transferId !in transfers {
        return Err(UnknownTransfer);
      }
      var progress: RecvProgress := transfers[c.transferId];
      if c.fileIndex >= |progress.paths| {
        return Err(IndexOutOfRange);
      }
      var expected := progress.received[c.fileIndex];
      if c.offset != expected {
        return Err(OutOfOrder(expected, c.offset));
      }
      return Ok((progress.paths[c.fileIndex], progress.hashers[c.fileIndex]));
    }

    /** The second locked section. */
    method CommitChunk(c: FileChunk, hasher: nat) returns (r: Result<nat, RecvError>)
      modifies this
      ensures (State(), r) == Commit(alg, old(State()), c, hasher)
    {
      var newHasher := alg.update(hasher, c.data);
      if c.transferId !in transfers {
        return Err(UnknownTransfer);
      }
      var progress: RecvProgress := transfers[c.transferId];
      var i := c.fileIndex;
      if i >= |progress.paths| {
        return Err(IndexOutOfRange);
      }
      progress := progress.(received := progress.received[i := progress.received[i] + |c.data|]);
      progress := progress.(hashers := progress.hashers[i := newHasher]);
      transfers := transfers[c.transferId := progress];
      if c.isLast {
        var expectedHash := progress.manifest.files[i].blake3;
        var got := alg.finalize(progress.hashers[i]);
        if got != expectedHash {
          return Err(HashMismatch(progress.manifest.files[i].relativePath));
        }
      }
      var total := Total(progress.received);
      return Ok(total);
    }

    method Write(c: FileChunk) returns (r: Result<nat, RecvError>)
      modifies this
      ensures (State(), r) == WriteChunk(alg, old(State()), c)
    {
      var ticket := CheckChunk(c);
      if ticket.Err? {
        return Err(ticket.error);
      }
      var (path, hasher) := ticket.value;
      var stored := Store(disk, path, c);
      if stored.Err? {
        return Err(stored.error);
      }
      disk := stored.value;
      r := CommitChunk(c, hasher);
    }

    method Resume(id: nat) returns (offsets: Option<seq<nat>>)
      ensures offsets == ResumeOffsets(State(), id)
    {
      if id !in transfers {
        return None;
      }
      return Some(transfers[id].received);
    }
  }

  method Total(ns: seq<nat>) returns (total: nat)
    ensures total == Sum(ns)
  {
    total := 0;
    for i := 0 to |ns|
      invariant total + Sum(ns[i..]) == Sum(ns)
    {
      assert ns[i..][1..] == ns[i + 1..];
      total := total + ns[i];
    }
  }
}
