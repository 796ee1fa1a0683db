/** When the size of what is grouped can be told from its hash, as the code asserts
    (dupion/src/state/mod.rs, dupion/src/process/mod.rs). */
module HashSizes {
  import opened Basics
  import opened Arenas
  import opened PairSort
  import opened States
  import opened Scans
  import opened ScanTree
  import opened DirHashes
  import opened HashNames
  import opened ScanRuns

  /** An arena as a scan of these paths may leave it; what the walk from the root does not come to
      is left open. */
  ghost predicate LeftBehind(H: Hasher, content: Path -> Bytes, sized: set<Path>, es: Arena) {
    && Tree(es)
    && (forall i :: 0 <= i < |es| && (OnDisk(sized, es[i].path) || Reached(es, ROOT, i)) ==>
          LeftEntry(H, content, sized, es[i]))
    && forall p :: p in sized ==> Stored(es, p)
  }

  ghost predicate Stored(es: Arena, p: Path) {
    exists i: VfsId :: At(es, p, i)
  }

  ghost predicate LeftEntry(H: Hasher, content: Path -> Bytes, sized: set<Path>, e: VfsEntry) {
    && (e.isFile <==> e.path in sized) && (e.isDir <==> AboveSized(sized, e.path))
    && (e.isFile ==> e.fileSize == Some(|content(e.path)|)
                     && (e.fileHash == None || e.fileHash == Some(H(content(e.path)))))
  }

  /** Among the directories above these paths, equal hashes come with equal sizes, too: the code
      asserts it when it groups them. */
  ghost predicate NoClash(H: Hasher, content: Path -> Bytes, sized: set<Path>, sz: Hash -> nat) {
    forall es: Arena :: LeftBehind(H, content, sized, es) ==> DirsSized(H, es, ROOT, sz)
  }

  // ----- when the premises can be met

  /** Some file, or some directory that a scan of these paths hashes, has this size and hash. */
  ghost predicate OnDiskPair(H: Hasher, content: Path -> Bytes, sized: set<Path>, size: nat, hash: Hash) {
    || (exists p :: p in sized && size == |content(p)| && hash == H(content(p)))
    || (exists es: Arena, n: VfsId :: LeftBehind(H, content, sized, es) && HashedAs(H, es, n, size, hash))
  }

  ghost predicate HashedAs(H: Hasher, es: Arena, n: VfsId, size: nat, hash: Hash)
    requires Tree(es)
  {
    n < |es| && Reached(es, ROOT, n) && es[n].isDir && DirProps(H, es, n) == Some((size, hash))
  }

  /** The cache holds the hash of a file below an unchanged one, which reviving that groups. */
  ghost predicate StoredBelow(content: Path -> Bytes, es0: Arena, files: seq<FileFound>, k: nat, i: VfsId, j: VfsId) {
    && k < |files| && BelowUnchanged(content, es0, files[k], i, j)
    && es0[j].wasFile && es0[j].fileHash.Some?
  }

  ghost predicate CachedPair(content: Path -> Bytes, es0: Arena, files: seq<FileFound>, size: nat, hash: Hash) {
    exists k: nat, i: VfsId, j: VfsId :: StoredBelow(content, es0, files, k, i, j)
      && es0[j].fileHash == Some(hash) && es0[j].fileSize == Some(size)
  }

  /** Anything a scan of these files groups has this size and hash: a file found, a directory above one,
      or a file that the cache revives. */
  ghost predicate Groups(H: Hasher, content: Path -> Bytes, es0: Arena, files: seq<FileFound>, size: nat, hash: Hash) {
    OnDiskPair(H, content, Paths(files), size, hash) || CachedPair(content, es0, files, size, hash)
  }

  /** Equal hashes among all these mean equal sizes, and what is revived has a size. */
  ghost predicate NoCollision(H: Hasher, content: Path -> Bytes, es0: Arena, files: seq<FileFound>) {
    && (forall hash: Hash, a: nat, b: nat ::
          Groups(H, content, es0, files, a, hash) && Groups(H, content, es0, files, b, hash) ==> a == b)
    && forall k: nat, i: VfsId, j: VfsId :: StoredBelow(content, es0, files, k, i, j) ==> es0[j].fileSize.Some?
  }

  /** What a scan of these files asks of the sizes that go with the hashes. */
  ghost predicate Premises(H: Hasher, content: Path -> Bytes, es0: Arena, files: seq<FileFound>, sz: Hash -> nat) {
    && HashTellsSize(H, content, Paths(files), sz) && NoClash(H, content, Paths(files), sz)
    && CacheSizedFrom(content, es0, sz, files, 0)
  }

  /** The size that goes with a hash, if there is one. */
  ghost function SizeFor(H: Hasher, content: Path -> Bytes, es0: Arena, files: seq<FileFound>, hash: Hash): nat {
    if size: nat :| Groups(H, content, es0, files, size, hash) then size else 0
  }

  /** Some assignment of sizes to hashes meets all that a scan asks for exactly if no two of the files and
      directories that it groups have one hash and different sizes. */
  lemma {:induction false} PremisesMetIff(H: Hasher, content: Path -> Bytes, es0: Arena, files: seq<FileFound>)
    requires Loaded(es0)
    ensures (exists sz: Hash -> nat :: Premises(H, content, es0, files, sz)) <==> NoCollision(H, content, es0, files)
  {
    hide Premises, NoCollision, SizeFor;
    if sz: Hash -> nat :| Premises(H, content, es0, files, sz) {
      MetMeansNone(H, content, es0, files, sz);
    }
    if NoCollision(H, content, es0, files) {
      var sz: Hash -> nat := hash => SizeFor(H, content, es0, files, hash);
      NoneMeansMet(H, content, es0, files, sz);
    }
  }

  /** An assignment that meets the premises gives every pair on the disk its size. */
  lemma {:induction false} DiskPairSized(H: Hasher, content: Path -> Bytes, sized: set<Path>, sz: Hash -> nat,
                                         size: nat, hash: Hash)
    requires HashTellsSize(H, content, sized, sz) && NoClash(H, content, sized, sz)
    requires OnDiskPair(H, content, sized, size, hash)
    ensures size == sz(hash)
  {
    if es: Arena, n: VfsId :| LeftBehind(H, content, sized, es) && HashedAs(H, es, n, size, hash) {
      hide LeftBehind, Tree, Reached;
      assert DirsSized(H, es, ROOT, sz);
      assert DirSized(H, es, n, sz);
    }
  }

  lemma {:induction false} MetMeansNone(H: Hasher, content: Path -> Bytes, es0: Arena, files: seq<FileFound>,
                                        sz: Hash -> nat)
    requires Premises(H, content, es0, files, sz)
    ensures NoCollision(H, content, es0, files)
  {
    hide HashTellsSize, NoClash, OnDiskPair;
    forall k: nat, i: VfsId, j: VfsId | StoredBelow(content, es0, files, k, i, j)
      ensures es0[j].fileSize == Some(sz(es0[j].fileHash.value))
    {
      assert CacheSized(content, es0, sz, files[k]);
      assert Fit(es0[j], sz);
    }
    forall hash: Hash, size: nat | Groups(H, content, es0, files, size, hash)
      ensures size == sz(hash)
    {
      if OnDiskPair(H, content, Paths(files), size, hash) {
        DiskPairSized(H, content, Paths(files), sz, size, hash);
      }
    }
  }

  lemma {:induction false} NoneMeansMet(H: Hasher, content: Path -> Bytes, es0: Arena, files: seq<FileFound>,
                                        sz: Hash -> nat)
    requires Loaded(es0) && NoCollision(H, content, es0, files)
    requires forall hash :: sz(hash) == SizeFor(H, content, es0, files, hash)
    ensures Premises(H, content, es0, files, sz)
  {
    hide Paths, LeftBehind, Tree, Reached, BelowUnchanged, Loaded;
    forall hash: Hash, size: nat | Groups(H, content, es0, files, size, hash)
      ensures size == sz(hash)
    {
    }
    forall p | p in Paths(files)
      ensures sz(H(content(p))) == |content(p)|
    {
      assert OnDiskPair(H, content, Paths(files), |content(p)|, H(content(p)));
      assert Groups(H, content, es0, files, |content(p)|, H(content(p)));
    }
    hide NoCollision, Groups;
    DirsAreSized(H, content, es0, files, sz);
    CacheIsSized(H, content, es0, files, sz);
  }

  lemma {:induction false} DirsAreSized(H: Hasher, content: Path -> Bytes, es0: Arena, files: seq<FileFound>,
                                        sz: Hash -> nat)
    requires forall hash: Hash, size: nat :: Groups(H, content, es0, files, size, hash) ==> size == sz(hash)
    ensures NoClash(H, content, Paths(files), sz)
  {
    hide Paths, LeftEntry, Tree, Reached;
    forall es: Arena | LeftBehind(H, content, Paths(files), es)
      ensures DirsSized(H, es, ROOT, sz)
    {
      forall n | 0 <= n < |es| && Reached(es, ROOT, n) && es[n].isDir
        ensures DirSized(H, es, n, sz)
      {
        if DirProps(H, es, n).Some? {
          var d := DirProps(H, es, n).value;
          assert HashedAs(H, es, n, d.0, d.1);
          assert OnDiskPair(H, content, Paths(files), d.0, d.1);
          assert Groups(H, content, es0, files, d.0, d.1);
        }
      }
    }
  }

  lemma {:induction false} CacheIsSized(H: Hasher, content: Path -> Bytes, es0: Arena, files: seq<FileFound>,
                                        sz: Hash -> nat)
    requires Loaded(es0) && NoCollision(H, content, es0, files)
    requires forall hash: Hash, size: nat :: Groups(H, content, es0, files, size, hash) ==> size == sz(hash)
    ensures CacheSizedFrom(content, es0, sz, files, 0)
  {
    hide OnDiskPair;
    forall k: nat, i: VfsId, j: VfsId | k < |files| && BelowUnchanged(content, es0, files[k], i, j)
      ensures Fit(es0[j], sz)
    {
      if es0[j].wasFile && es0[j].fileHash.Some? {
        assert StoredBelow(content, es0, files, k, i, j);
        var size := es0[j].fileSize.value;
        assert CachedPair(content, es0, files, size, es0[j].fileHash.value);
        assert Groups(H, content, es0, files, size, es0[j].fileHash.value);
      }
    }
  }

  // ----- an input on which the assertion fails

  ghost function OneFile(H: Hasher, content: Path -> Bytes, p: Path): VfsEntry {
    NewEntry(p).(isFile := true, fileSize := Some(|content(p)|), fileHash := Some(H(content(p))))
  }

  /** A file `f` beside a directory `d` that holds one file `x`. */
  ghost function FileAndDir(H: Hasher, content: Path -> Bytes, f: Name, d: Name, x: Name): Arena {
    [NewEntry([]).(isDir := true, childs := [1, 2]), OneFile(H, content, [f]),
     NewEntry([d]).(isDir := true, childs := [3]), OneFile(H, content, [d, x])]
  }

  /** A root with a file and a directory, and a file in the directory. */
  ghost predicate FourEntries(es: Arena, f: Name, d: Name, x: Name) {
    && |es| == 4 && f != d
    && es[0].path == [] && es[0].childs == [1, 2]
    && es[1].path == [f] && es[1].plc == f && es[1].childs == []
    && es[2].path == [d] && es[2].plc == d && es[2].childs == [3]
    && es[3].path == [d, x] && es[3].plc == x && es[3].childs == []
  }

  lemma {:induction false} FourEntriesTree(es: Arena, f: Name, d: Name, x: Name)
    requires FourEntries(es, f, d, x)
    ensures Tree(es)
  {
    assert es[0].childs[0] == 1 && es[0].childs[1] == 2 && es[2].childs[0] == 3;
    assert HasParent(es, 1) && HasParent(es, 2) && HasParent(es, 3);
    assert Link(es, 0, 1) && Link(es, 0, 2) && Link(es, 2, 3);
  }

  lemma {:induction false} FileAndDirTree(H: Hasher, content: Path -> Bytes, f: Name, d: Name, x: Name)
    requires f != d
    ensures Tree(FileAndDir(H, content, f, d, x))
  {
    hide Tree;
    FourEntriesTree(FileAndDir(H, content, f, d, x), f, d, x);
  }

  lemma {:induction false} FileAndDirLeft(H: Hasher, content: Path -> Bytes, f: Name, d: Name, x: Name)
    requires f != d
    ensures LeftBehind(H, content, {[f], [d, x]}, FileAndDir(H, content, f, d, x))
  {
    var es, sized := FileAndDir(H, content, f, d, x), {[f], [d, x]};
    FileAndDirTree(H, content, f, d, x);
    hide Tree;
    assert At(es, [f], 1) && At(es, [d, x], 3);
    forall i | 0 <= i < |es|
      ensures LeftEntry(H, content, sized, es[i])
    {
      AboveTwo(f, d, x, es[i].path);
    }
  }

  lemma {:induction false} AboveTwo(f: Name, d: Name, x: Name, p: Path)
    ensures AboveSized({[f], [d, x]}, p) <==> p == [] || p == [d]
  {
    var sized: set<Path> := {[f], [d, x]};
    assert [d, x] in sized;
    if p == [d] { assert p < [d, x]; }
    if q :| q in sized && p < q { assert q == [f] || q == [d, x]; }
  }

  lemma {:induction false} OneKid(H: Hasher, content: Path -> Bytes, f: Name, d: Name, x: Name)
    requires f != d
    ensures Tree(FileAndDir(H, content, f, d, x))
    ensures Kids(H, FileAndDir(H, content, f, d, x), 2, 1) == Some([Kid(x, |content([d, x])|, H(content([d, x])))])
  {
    var es := FileAndDir(H, content, f, d, x);
    FileAndDirTree(H, content, f, d, x);
    LinkOf(es, 2, 3);
    hide Tree, Kids;
    KidsStart(H, es, 2);
    KidsStep(H, es, 2, 0);
    var kid := Kid(x, |content([d, x])|, H(content([d, x])));
    assert Calc(H, es, es[2].childs[0]) == Some((kid.size, kid.hash));
    assert [] + [kid] == [kid];
  }

  /** The directory gets the hash of the name and the hash of its file. */
  lemma {:induction false} DirOfOne(H: Hasher, content: Path -> Bytes, f: Name, d: Name, x: Name)
    requires f != d && x != [47]
    ensures Tree(FileAndDir(H, content, f, d, x))
    ensures HashedAs(H, FileAndDir(H, content, f, d, x), 2, |content([d, x])|, H(x + H(content([d, x]))))
  {
    OneKid(H, content, f, d, x);
    hide Tree, Kids, Preimage, Pairs, Sort, SumSizes, FileName;
    OneKidHashed(H, FileAndDir(H, content, f, d, x), 2, Kid(x, |content([d, x])|, H(content([d, x]))));
  }

  /** A file that holds the bytes a directory is hashed from has the hash of that directory, and
      where its size is another one no assignment of sizes meets both premises. */
  lemma {:induction false} PreimageClash(H: Hasher, content: Path -> Bytes, f: Name, d: Name, x: Name)
    requires f != d && x != [47]
    requires content([f]) == x + H(content([d, x])) && |content([f])| != |content([d, x])|
    ensures OnDiskPair(H, content, {[f], [d, x]}, |content([f])|, H(content([f])))
    ensures OnDiskPair(H, content, {[f], [d, x]}, |content([d, x])|, H(content([f])))
    ensures !exists sz: Hash -> nat ::
      HashTellsSize(H, content, {[f], [d, x]}, sz) && NoClash(H, content, {[f], [d, x]}, sz)
  {
    var sized: set<Path> := {[f], [d, x]};
    FileAndDirLeft(H, content, f, d, x);
    DirOfOne(H, content, f, d, x);
    hide LeftBehind, HashedAs, FileAndDir, HashTellsSize, NoClash;
    assert [f] in sized;
    assert OnDiskPair(H, content, sized, |content([f])|, H(content([f])));
    assert OnDiskPair(H, content, sized, |content([d, x])|, H(content([f])));
    if sz: Hash -> nat :| HashTellsSize(H, content, sized, sz) && NoClash(H, content, sized, sz) {
      DiskPairSized(H, content, sized, sz, |content([f])|, H(content([f])));
      DiskPairSized(H, content, sized, sz, |content([d, x])|, H(content([f])));
    }
  }
}
