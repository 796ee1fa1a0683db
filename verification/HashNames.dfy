/** What a directory hash tells: the names and hashes of the children (dupion/src/process/mod.rs). */
module HashNames {
  import opened Basics
  import opened Arenas
  import opened PairSort
  import opened DirHashes

  /** The bytes a directory is hashed from: name and hash of each child after the other. */
  lemma {:induction false} PreimageConcat(ps: seq<Pair>, qs: seq<Pair>)
    ensures Preimage(ps + qs) == Preimage(ps) + Preimage(qs)
    ensures Preimage([]) == []
    ensures forall p: Pair :: Preimage([p]) == p.1 + p.0
  {
    assert forall p: Pair :: [p][..0] == [];
    if qs == [] {
      assert ps + qs == ps;
    } else {
      var init, last := qs[..|qs| - 1], qs[|qs| - 1];
      assert (ps + qs)[..|ps + qs| - 1] == ps + init;
      PreimageConcat(ps, init);
      Regroup(Preimage(ps), Preimage(init), last.1 + last.0);
    }
  }

  lemma {:induction false} Regroup(a: Bytes, b: Bytes, c: Bytes)
    ensures a + b + c == a + (b + c)
  {
  }

  /** Each child contributes its hash and its name; only the root directory has none. */
  lemma {:induction false} PairsAre(ks: seq<Kid>)
    ensures |Pairs(ks)| == |ks|
    ensures forall i :: 0 <= i < |ks| ==> Pairs(ks)[i] == (ks[i].hash, if ks[i].name == [47] then [] else ks[i].name)
  {
    if ks != [] { PairsAre(ks[..|ks| - 1]); }
  }

  ghost predicate HashesOfLength(ps: seq<Pair>, n: nat) {
    forall i :: 0 <= i < |ps| ==> |ps[i].0| == n
  }

  ghost predicate SameNameLengths(ps: seq<Pair>, qs: seq<Pair>) {
    |ps| == |qs| && forall i :: 0 <= i < |ps| ==> |ps[i].1| == |qs[i].1|
  }

  lemma {:induction false} SplitEqual<T>(a: seq<T>, x: seq<T>, b: seq<T>, y: seq<T>)
    requires a + x == b + y && |x| == |y|
    ensures a == b && x == y
  {
    assert a == (a + x)[..|a|] && b == (b + y)[..|b|];
    assert x == (a + x)[|a|..] && y == (b + y)[|b|..];
  }

  /** Hashed bytes can be taken apart again where the lengths are known. */
  lemma {:induction false} PreimageTells(ps: seq<Pair>, qs: seq<Pair>, n: nat)
    requires HashesOfLength(ps, n) && HashesOfLength(qs, n) && SameNameLengths(ps, qs)
    requires Preimage(ps) == Preimage(qs)
    ensures ps == qs
  {
    if ps != [] {
      var p, q := ps[|ps| - 1], qs[|qs| - 1];
      SplitEqual(Preimage(ps[..|ps| - 1]), p.1 + p.0, Preimage(qs[..|qs| - 1]), q.1 + q.0);
      SplitEqual(p.1, p.0, q.1, q.0);
      PreimageTells(ps[..|ps| - 1], qs[..|qs| - 1], n);
      assert ps == ps[..|ps| - 1] + [p] && qs == qs[..|qs| - 1] + [q];
    }
  }

  /** The existing children of a directory, with their hashes and names in the order of the hashing. */
  ghost function SortedKids(H: Hasher, es: Arena, a: VfsId): seq<Pair>
    requires Tree(es) && a < |es| && DirProps(H, es, a).Some?
  {
    Sort(Pairs(Kids(H, es, a, |es[a].childs|).value))
  }

  /** Two different byte strings with one hash. */
  ghost predicate Collision(H: Hasher, x: Bytes, y: Bytes) {
    x != y && H(x) == H(y)
  }

  ghost predicate Comparable(H: Hasher, es: Arena, a: VfsId, fs: Arena, b: VfsId, n: nat)
    requires Tree(es) && Tree(fs) && a < |es| && b < |fs| && DirProps(H, es, a).Some? && DirProps(H, fs, b).Some?
  {
    && HashesOfLength(SortedKids(H, es, a), n) && HashesOfLength(SortedKids(H, fs, b), n)
    && !Collision(H, Preimage(SortedKids(H, es, a)), Preimage(SortedKids(H, fs, b)))
  }

  /** Where hashes have one length and no two of the byte strings hashed collide, directories with equally
      many children and equal lengths of names in sorted order have one hash if and only if their children
      have the same names and hashes, in whatever order they are listed. */
  lemma {:induction false} SameHashIff(H: Hasher, es: Arena, a: VfsId, fs: Arena, b: VfsId, n: nat)
    requires Tree(es) && Tree(fs) && a < |es| && b < |fs| && DirProps(H, es, a).Some? && DirProps(H, fs, b).Some?
    requires Comparable(H, es, a, fs, b, n) && SameNameLengths(SortedKids(H, es, a), SortedKids(H, fs, b))
    ensures DirProps(H, es, a).value.1 == DirProps(H, fs, b).value.1 <==>
      multiset(Pairs(Kids(H, es, a, |es[a].childs|).value)) == multiset(Pairs(Kids(H, fs, b, |fs[b].childs|).value))
  {
    var ps, qs := Pairs(Kids(H, es, a, |es[a].childs|).value), Pairs(Kids(H, fs, b, |fs[b].childs|).value);
    hide Kids, Pairs, Preimage, Sort, HashesOfLength, SameNameLengths;
    if DirProps(H, es, a).value.1 == DirProps(H, fs, b).value.1 {
      PreimageTells(Sort(ps), Sort(qs), n);
      SortSorts(ps);
      SortSorts(qs);
    }
    if multiset(ps) == multiset(qs) { SortCanonical(ps, qs); }
  }

  /** Directories of one existing child each: the name and the hash of the child are told, whatever
      the lengths of the names. */
  lemma {:induction false} OneChildTold(H: Hasher, es: Arena, a: VfsId, fs: Arena, b: VfsId, x: Kid, y: Kid)
    requires Tree(es) && Tree(fs) && a < |es| && b < |fs|
    requires Kids(H, es, a, |es[a].childs|) == Some([x]) && Kids(H, fs, b, |fs[b].childs|) == Some([y])
    requires x.name != [47] && y.name != [47] && |x.hash| == |y.hash|
    requires !Collision(H, x.name + x.hash, y.name + y.hash)
    ensures DirProps(H, es, a) == Some((x.size, H(x.name + x.hash)))
    ensures DirProps(H, fs, b) == Some((y.size, H(y.name + y.hash)))
    ensures DirProps(H, es, a).value.1 == DirProps(H, fs, b).value.1 <==> x.name == y.name && x.hash == y.hash
  {
    OneKidHashed(H, es, a, x);
    OneKidHashed(H, fs, b, y);
    if x.name + x.hash == y.name + y.hash { SplitEqual(x.name, x.hash, y.name, y.hash); }
  }

  lemma {:induction false} OneKidHashed(H: Hasher, es: Arena, a: VfsId, x: Kid)
    requires Tree(es) && a < |es| && Kids(H, es, a, |es[a].childs|) == Some([x]) && x.name != [47]
    ensures DirProps(H, es, a) == Some((x.size, H(x.name + x.hash)))
  {
    OfOneKid(x);
    hide Tree, Kids, Preimage, Pairs, Sort, SumSizes;
  }

  /** What one child contributes. */
  lemma {:induction false} OfOneKid(k: Kid)
    requires k.name != [47]
    ensures SumSizes([k]) == k.size && Preimage(Sort(Pairs([k]))) == k.name + k.hash
  {
    var pair := (k.hash, k.name);
    assert [k][..0] == [] && [pair][..0] == [];
    assert Pairs([k]) == [pair];
    assert Sort([pair]) == [pair];
  }
}
