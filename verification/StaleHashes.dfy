/** What the tree comparison and the shadows make of the cached hash of a file that is not there any
    more (dupion/src/output/treediff.rs, dupion/src/process/mod.rs). */
module StaleHashes {
  import opened Basics
  import opened Arenas
  import opened States
  import opened Index
  import opened ScanIndex
  import opened DirHashes
  import opened TreeDiffs
  import opened Shadows

  /** The cache knows the hash of a file, but no file was found. */
  predicate Stale(e: VfsEntry) {
    e.fileHash.Some? && !e.isFile
  }

  /** No archive, and only directories have a directory hash. */
  predicate FileOrDir(e: VfsEntry) {
    !(e.isFile && e.isDir) && (e.dirHash.Some? ==> e.isDir)
  }

  predicate EqualFiles(e: VfsEntry, f: VfsEntry) {
    e.isFile && f.isFile && e.fileHash.Some? && e.fileHash == f.fileHash
  }

  predicate EqualDirs(e: VfsEntry, f: VfsEntry) {
    e.isDir && f.isDir && e.dirHash.Some? && e.dirHash == f.dirHash
  }

  /** Directory results are those of directories, as the walk leaves them. */
  lemma {:induction false} OnlyDirsHashed(H: Hasher, st: St, id: VfsId, n: VfsId)
    requires Tree(st.es) && id < |st.es| && n < |st.es| && NoDirs(st.es)
    ensures DirTree(H, st.es, st, id).es[n].dirHash.Some? ==> DirTree(H, st.es, st, id).es[n].isDir
  {
    DirTreeEntry(H, st.es, st, id, n);
  }

  /** Both carry a file hash, and one of them is that of a file that is not there: the guard under
      which the comparison reads what is not on the disk. */
  predicate ReadsStale(e: VfsEntry, f: VfsEntry) {
    (Stale(e) || Stale(f)) && e.fileHash.Some? && f.fileHash.Some?
  }

  /** Unless a stale hash is read, a match stands for equal files or equal directories and nothing
      else; if one is, the match says that the hashes agree and never stands for equal files. */
  lemma {:induction false} MatchMeans(es: Arena, root: VfsId, other: VfsId, n: VfsId, f: VfsId, names: Path)
    requires Tree(es) && root < |es| && other < |es| && n < |es| && es[n].path == es[root].path + names
    requires At(es, es[other].path + names, f) && FileOrDir(es[n]) && FileOrDir(es[f])
    ensures !ReadsStale(es[n], es[f]) ==>
      (Matches(es, root, other, n) <==> EqualFiles(es[n], es[f]) || EqualDirs(es[n], es[f]))
    ensures ReadsStale(es[n], es[f]) ==>
      !EqualFiles(es[n], es[f]) && (Matches(es, root, other, n) <==> es[n].fileHash == es[f].fileHash)
  {
    hide Tree;
    UniqueCounterpart(es, root, other, n, f, names);
  }

  /** A file whose counterpart is gone still matches it if the cache knew the same hash there. */
  lemma {:induction false} GoneStillMatches(es: Arena, root: VfsId, other: VfsId, n: VfsId, f: VfsId, names: Path)
    requires Tree(es) && root < |es| && other < |es| && n < |es| && es[n].path == es[root].path + names
    requires At(es, es[other].path + names, f) && FileOrDir(es[n]) && FileOrDir(es[f])
    requires es[n].isFile && !es[f].Exists()
    ensures Matches(es, root, other, n) <==> es[n].fileHash.Some? && es[n].fileHash == es[f].fileHash
  {
    hide Tree;
    UniqueCounterpart(es, root, other, n, f, names);
  }

  /** Another entry carries the hash, too. */
  ghost predicate HasTwin(es: Arena, a: VfsId, h: Hash) {
    Carries(es, a, h) && exists b: VfsId :: b != a && Carries(es, b, h)
  }

  /** An entry taken for a duplicate because of its file hash is one exactly if the hash is not stale,
      or is also that of the directory; because of its directory hash it always is one. */
  lemma {:induction false} CasterIsDuplicateIff(st: St, a: VfsId, h: Hash)
    requires HashIndex(st) && NoUnique(st.es) && a < |st.es| && SharedHash(st.hashes, Some(h))
    ensures st.es[a].fileHash == Some(h) ==> (HasTwin(st.es, a, h) <==> !Stale(st.es[a]) || st.es[a].dirHash == Some(h))
    ensures st.es[a].dirHash == Some(h) ==> HasTwin(st.es, a, h)
  {
    SharedHashIff(st, h);
    hide HashIndex, CountHashes;
    var x: VfsId, y: VfsId :| x != y && Carries(st.es, x, h) && Carries(st.es, y, h);
    assert x != a || y != a;
  }

  /** Two different entries carry the hash. */
  ghost predicate Doubled(es: Arena, h: Hash) {
    exists x: VfsId, y: VfsId :: x != y && Carries(es, x, h) && Carries(es, y, h)
  }

  /** `a` lies above `n`, everything from `id` down to `a` exists, and a hash stored with `a` is carried by
      two different entries. */
  ghost predicate DuplicateAbove(es: Arena, id: VfsId, a: VfsId, n: VfsId) {
    && id < |es| && a < |es| && n < |es| && es[id].path <= es[a].path < es[n].path
    && (forall m :: 0 <= m < |es| && es[id].path <= es[m].path <= es[a].path ==> es[m].isFile || es[m].isDir)
    && (|| (es[a].fileHash.Some? && Doubled(es, es[a].fileHash.value))
        || (es[a].dirHash.Some? && Doubled(es, es[a].dirHash.value)))
  }

  /** In terms of the entries alone: what is in the shadow of a duplicate, given hash index agreement. */
  lemma {:induction false} InShadowIff(st: St, id: VfsId, n: VfsId)
    requires HashIndex(st) && NoUnique(st.es)
    ensures InShadow(st.es, st.hashes, id, n) <==> exists a: VfsId :: DuplicateAbove(st.es, id, a, n)
  {
    forall h
      ensures CountHashes(st.hashes, h) > 1 <==> Doubled(st.es, h)
    {
      SharedHashIff(st, h);
    }
    hide HashIndex, NoUnique, Doubled, CountHashes, Carries;
    if a: VfsId :| Casts(st.es, st.hashes, id, a, n) { assert DuplicateAbove(st.es, id, a, n); }
    if a: VfsId :| DuplicateAbove(st.es, id, a, n) { assert Casts(st.es, st.hashes, id, a, n); }
  }

  /** A directory that replaced a file casts a shadow on all below it when the old hash is shared. */
  lemma {:induction false} StaleShadow(st: St, a: VfsId, n: VfsId)
    requires Tree(st.es) && a < |st.es| && n < |st.es| && st.es[a].isDir && Stale(st.es[a])
    requires CountHashes(st.hashes, st.es[a].fileHash.value) > 1
    ensures InShadow(st.es, st.hashes, a, n) <==> st.es[a].path < st.es[n].path
  {
    TopDuplicate(st.es, st.hashes, a, n);
  }
}
