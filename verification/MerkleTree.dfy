/**
 The Merkle tree: built bottom-up by pairing neighbours level by level, with a lone last node promoted.

 Proved equal to the top-down tree hash of section 2.1 of RFC 6962 and its audit paths of section 2.1.1, and
 audit paths are proved to bind: a path accepted in place of the generated one exhibits a collision.
 The two hash functions are parameters.
 */
module MerkleTrees {
  import opened Wrappers

  type Bytes = seq<bv8>

  datatype Error = EmptyTree | InvalidProofIndex(index: nat, leaves: nat) | MerkleProofFailed

  datatype MerkleProof<H> = MerkleProof(treeSize: nat, leafIndex: nat, auditPath: seq<H>)

  /** `SHA256(0x00 || leaf)` and `SHA256(0x01 || left || right)`. */
  datatype Hasher<!H> = Hasher(leaf: Bytes -> H, node: (H, H) -> H)

  // -------------------------------------------------------------------------
  // Specification: section 2.1 of RFC 6962

  /** Largest power of two smaller than `n`. */
  function SplitPoint(n: nat): (k: nat)
    requires n > 1
    ensures 1 <= k < n <= 2 * k
    ensures n > 2 ==> k % 2 == 0
  {
    if n == 2 then 1 else 2 * SplitPoint((n + 1) / 2)
  }

  ghost predicate IsPowerOfTwo(k: nat) {
    k == 1 || (k > 1 && k % 2 == 0 && IsPowerOfTwo(k / 2))
  }

  /** `SplitPoint` is the split the RFC prescribes: a power of two below `n`, at least every other such. */
  lemma SplitPointIsLargest(n: nat, j: nat)
    requires n > 1
    ensures IsPowerOfTwo(SplitPoint(n)) && SplitPoint(n) < n
    ensures IsPowerOfTwo(j) && j < n ==> j <= SplitPoint(n)
  {
    if n > 2 {
      SplitPointIsLargest((n + 1) / 2, j / 2);
    }
  }

  /** The Merkle tree hash MTH of section 2.1, over leaf hashes. */
  function TreeHash<H>(node: (H, H) -> H, d: seq<H>): H
    requires d != []
    decreases |d|
  {
    if |d| == 1 then d[0]
    else var k := SplitPoint(|d|); node(TreeHash(node, d[..k]), TreeHash(node, d[k..]))
  }

  /** The audit path PATH(m, D[n]) of section 2.1.1. */
  function AuditPath<H>(node: (H, H) -> H, m: nat, d: seq<H>): seq<H>
    requires m < |d|
    decreases |d|
  {
    if |d| == 1 then []
    else
      var k := SplitPoint(|d|);
      if m < k then AuditPath(node, m, d[..k]) + [TreeHash(node, d[k..])]
      else AuditPath(node, m - k, d[k..]) + [TreeHash(node, d[..k])]
  }

  // -------------------------------------------------------------------------
  // One level

  /** The next level up: neighbours hashed in pairs, a lone last node promoted unchanged. */
  function Paired<H>(node: (H, H) -> H, level: seq<H>): (r: seq<H>)
    ensures |r| == (|level| + 1) / 2
    decreases |level|
  {
    if |level| == 0 then []
    else if |level| == 1 then [level[0]]
    else [node(level[0], level[1])] + Paired(node, level[2..])
  }

  /** What stands at position `i` of the next level. */
  lemma {:induction false} PairedAt<H>(node: (H, H) -> H, level: seq<H>, i: nat)
    requires i < |Paired(node, level)|
    ensures Paired(node, level)[i]
            == if 2 * i + 1 < |level| then node(level[2 * i], level[2 * i + 1]) else level[2 * i]
    decreases i
  {
    if i > 0 { PairedAt(node, level[2..], i - 1); }
  }

  /** Pairing distributes over a split at an even position. */
  lemma {:induction false} PairedSplit<H>(node: (H, H) -> H, a: seq<H>, h: nat)
    requires 2 * h <= |a|
    ensures Paired(node, a)[..h] == Paired(node, a[..2 * h])
    ensures Paired(node, a)[h..] == Paired(node, a[2 * h..])
    decreases h
  {
    if h == 0 {
      assert a[0..] == a;
    } else {
      var rest := a[2..];
      PairedSplit(node, rest, h - 1);
      assert a[..2 * h][2..] == rest[..2 * (h - 1)];
      assert a[2 * h..] == rest[2 * (h - 1)..];
    }
  }

  /** Pairing a level does not change its tree hash. */
  lemma {:induction false} PairedTreeHash<H>(node: (H, H) -> H, d: seq<H>)
    requires |d| > 1
    ensures TreeHash(node, Paired(node, d)) == TreeHash(node, d)
    decreases |d|
  {
    var p := Paired(node, d);
    if |d| == 2 {
      assert d[..1] == [d[0]] && d[1..] == [d[1]];
    } else {
      var k := SplitPoint(|d|);
      assert SplitPoint(|p|) == k / 2;
      PairedSplit(node, d, k / 2);
      PairedTreeHash(node, d[..k]);
      if |d| - k > 1 {
        PairedTreeHash(node, d[k..]);
      } else {
        assert Paired(node, d[k..]) == d[k..];
      }
    }
  }

  /** The sibling a node has on its level: none if it is the lone last node. */
  function Sibling<H>(level: seq<H>, i: nat): seq<H>
    requires i < |level|
  {
    if i % 2 == 1 then [level[i - 1]]
    else if i + 1 < |level| then [level[i + 1]]
    else []
  }

  /** The tree hash of the right part is the same before and after pairing, even when it is a lone node. */
  lemma PairedRest<H>(node: (H, H) -> H, d: seq<H>)
    requires |d| > 0
    ensures TreeHash(node, Paired(node, d)) == TreeHash(node, d)
  {
    if |d| > 1 { PairedTreeHash(node, d); } else { assert Paired(node, d) == d; }
  }

  lemma SplitHalves(n: nat)
    requires n > 2
    ensures SplitPoint((n + 1) / 2) == SplitPoint(n) / 2
  {
  }

  /** The two cases of an audit path, unfolded once. */
  lemma AuditPathCases<H>(node: (H, H) -> H, m: nat, d: seq<H>, k: nat)
    requires m < |d| && |d| > 1 && k == SplitPoint(|d|)
    ensures AuditPath(node, m, d)
            == if m < k then AuditPath(node, m, d[..k]) + [TreeHash(node, d[k..])]
               else AuditPath(node, m - k, d[k..]) + [TreeHash(node, d[..k])]
  {
  }

  /** An audit path starts with the sibling and goes on as the path in the next level. */
  lemma {:induction false} PairedAuditPath<H>(node: (H, H) -> H, m: nat, d: seq<H>)
    requires m < |d| && |d| > 1
    ensures AuditPath(node, m, d) == Sibling(d, m) + AuditPath(node, m / 2, Paired(node, d))
    decreases |d|
  {
    hide Paired, TreeHash, AuditPath;
    if |d| == 2 {
      PairedPathOfTwo(node, m, d);
    } else {
      var p, k := Paired(node, d), SplitPoint(|d|);
      SplitHalves(|d|);
      var h := k / 2;
      PairedSplit(node, d, h);
      AuditPathCases(node, m, d, k);
      AuditPathCases(node, m / 2, p, h);
      hide SplitPoint, Sibling;
      if m < k {
        PairedRest(node, d[k..]);
        PairedAuditPath(node, m, d[..k]);
        SiblingIn(d, 0, k, m);
        assert d[0..k] == d[..k];
      } else {
        PairedRest(node, d[..k]);
        assert m / 2 - h == (m - k) / 2;
        PairedAuditPathRight(node, m, d, k);
      }
    }
  }

  /** The path inside the right part, which may be a lone node. */
  lemma {:induction false} PairedAuditPathRight<H>(node: (H, H) -> H, m: nat, d: seq<H>, k: nat)
    requires 1 <= k <= m < |d| && k % 2 == 0
    ensures AuditPath(node, m - k, d[k..]) == Sibling(d, m) + AuditPath(node, (m - k) / 2, Paired(node, d[k..]))
    decreases |d|, 0
  {
    hide Paired, TreeHash, AuditPath;
    if |d| - k > 1 {
      PairedAuditPath(node, m - k, d[k..]);
      SiblingIn(d, k, |d|, m);
      assert d[k..|d|] == d[k..];
    } else {
      PairedLone(node, d[k..]);
    }
  }

  lemma PairedLone<H>(node: (H, H) -> H, d: seq<H>)
    requires |d| == 1
    ensures Paired(node, d) == d
  {
  }

  lemma PairedPathOfTwo<H>(node: (H, H) -> H, m: nat, d: seq<H>)
    requires m < |d| == 2
    ensures AuditPath(node, m, d) == Sibling(d, m) + AuditPath(node, m / 2, Paired(node, d))
  {
    assert d[..1] == [d[0]] && d[1..] == [d[1]];
  }

  /** A node's sibling lies in the same aligned part of its level. */
  lemma SiblingIn<H>(d: seq<H>, lo: nat, hi: nat, m: nat)
    requires lo <= m < hi <= |d| && lo % 2 == 0 && (hi % 2 == 0 || hi == |d|)
    ensures Sibling(d[lo..hi], m - lo) == Sibling(d, m)
  {
  }

  // -------------------------------------------------------------------------
  // The whole tree

  datatype MerkleTree<H> = MerkleTree(levels: seq<seq<H>>)

  /** Leaves first, root last. */
  function LevelsOf<H>(node: (H, H) -> H, leaves: seq<H>): (r: seq<seq<H>>)
    requires leaves != []
    ensures r != [] && r[0] == leaves
    decreases |leaves|
  {
    if |leaves| == 1 then [leaves] else [leaves] + LevelsOf(node, Paired(node, leaves))
  }

  /** The top level holds one hash, the tree hash of section 2.1 of RFC 6962. */
  lemma {:induction false} TopIsTreeHash<H>(node: (H, H) -> H, leaves: seq<H>)
    requires leaves != []
    ensures var levels := LevelsOf(node, leaves); levels[|levels| - 1] == [TreeHash(node, leaves)]
    decreases |leaves|
  {
    if |leaves| > 1 {
      PairedTreeHash(node, leaves);
      TopIsTreeHash(node, Paired(node, leaves));
    } else {
      assert leaves == [leaves[0]];
    }
  }

  lemma PairedStep<H>(node: (H, H) -> H, s: seq<H>, i: nat)
    requires i < |s|
    ensures Paired(node, s[i..]) == if i + 1 < |s| then [node(s[i], s[i + 1])] + Paired(node, s[i + 2..]) else [s[i]]
  {
    if i + 1 < |s| { assert s[i..][2..] == s[i + 2..]; }
  }

  /** Pairs one level, as the inner loop does. */
  method PairLevel<H>(node: (H, H) -> H, current: seq<H>) returns (next: seq<H>)
    ensures next == Paired(node, current)
  {
    hide Paired;
    next := [];
    var index := 0;
    assert current[0..] == current;
    while index < |current|
      invariant index < |current| ==> next + Paired(node, current[index..]) == Paired(node, current)
      invariant index >= |current| ==> next == Paired(node, current)
    {
      PairedStep(node, current, index);
      if index + 1 < |current| {
        next := next + [node(current[index], current[index + 1])];
      } else {
        next := next + [current[index]];
      }
      if index + 2 == |current| { PairedEmpty(node, current[index + 2..]); }
      index := index + 2;
    }
    if current == [] { PairedEmpty(node, current); }
  }

  lemma PairedEmpty<H>(node: (H, H) -> H, s: seq<H>)
    requires s == []
    ensures Paired(node, s) == []
  {
  }

  /** Builds the levels from leaf hashes; only an empty list is refused. */
  method FromHashes<H>(node: (H, H) -> H, leaves: seq<H>) returns (r: Result<MerkleTree<H>, Error>)
    ensures leaves == [] ==> r == Err(EmptyTree)
    ensures leaves != [] ==> r == Ok(MerkleTree(LevelsOf(node, leaves)))
  {
    if leaves == [] { return Err(EmptyTree); }
    var current, below := leaves, [];
    while |current| > 1
      invariant current != [] && below + LevelsOf(node, current) == LevelsOf(node, leaves)
      decreases |current|
    {
      var next := PairLevel(node, current);
      assert below + [current] + LevelsOf(node, next) == below + ([current] + LevelsOf(node, next));
      below := below + [current];
      current := next;
    }
    return Ok(MerkleTree(below + [current]));
  }

  /** As `FromHashes`, hashing the leaves first. */
  method FromLeaves<H>(hasher: Hasher<H>, leaves: seq<Bytes>) returns (r: Result<MerkleTree<H>, Error>)
    ensures leaves == [] ==> r == Err(EmptyTree)
    ensures leaves != [] ==>
              var hashes := seq(|leaves|, i requires 0 <= i < |leaves| => hasher.leaf(leaves[i]));
              r == Ok(MerkleTree(LevelsOf(hasher.node, hashes)))
  {
    var hashes := seq(|leaves|, i requires 0 <= i < |leaves| => hasher.leaf(leaves[i]));
    r := FromHashes(hasher.node, hashes);
  }

  /** The root is the RFC's tree hash of the leaves. */
  method Root<H>(t: MerkleTree<H>, zero: H, ghost node: (H, H) -> H, ghost leaves: seq<H>) returns (root: H)
    requires leaves != [] && t.levels == LevelsOf(node, leaves)
    ensures root == TreeHash(node, leaves)
  {
    TopIsTreeHash(node, leaves);
    var top := t.levels[|t.levels| - 1];
    root := if top == [] then zero else top[0];
  }

  /** The audit path is the RFC's; an index past the leaves is refused. */
  method InclusionProof<H>(t: MerkleTree<H>, leafIndex: nat, ghost node: (H, H) -> H, ghost leaves: seq<H>)
    returns (r: Result<MerkleProof<H>, Error>)
    requires leaves != [] && t.levels == LevelsOf(node, leaves)
    ensures leafIndex >= |leaves| ==> r == Err(InvalidProofIndex(leafIndex, |leaves|))
    ensures leafIndex < |leaves| ==> r == Ok(MerkleProof(|leaves|, leafIndex, AuditPath(node, leafIndex, leaves)))
  {
    hide Paired, LevelsOf, TreeHash, AuditPath;
    FirstLevel(node, leaves);
    assert t.levels[0..] == t.levels;
    var treeSize := |t.levels[0]|;
    if leafIndex >= treeSize { return Err(InvalidProofIndex(leafIndex, treeSize)); }
    var auditPath, index: nat, i := [], leafIndex, 0;
    ghost var level := leaves;
    while i < |t.levels| && |t.levels[i]| > 1
      invariant i < |t.levels| && level == t.levels[i] && level != [] && index < |level|
      invariant t.levels[i..] == LevelsOf(node, level)
      invariant auditPath + AuditPath(node, index, level) == AuditPath(node, leafIndex, leaves)
      decreases |t.levels| - i
    {
      var here := t.levels[i];
      PairedAuditPath(node, index, level);
      LevelsAbove(node, level, t.levels, i);
      ghost var rest := AuditPath(node, index / 2, Paired(node, level));
      assert auditPath + (Sibling(level, index) + rest) == auditPath + Sibling(level, index) + rest;
      ghost var extended := auditPath + Sibling(level, index);
      if index % 2 == 0 {
        var sibling := index + 1;
        if sibling < |here| { auditPath := auditPath + [here[sibling]]; }
      } else {
        auditPath := auditPath + [here[index - 1]];
      }
      assert auditPath == extended;
      index := index / 2;
      level := Paired(node, level);
      i := i + 1;
    }
    PathOfOne(node, index, level);
    assert auditPath == AuditPath(node, leafIndex, leaves);
    return Ok(MerkleProof(treeSize, leafIndex, auditPath));
  }

  lemma PathOfOne<H>(node: (H, H) -> H, index: nat, level: seq<H>)
    requires index < |level| == 1
    ensures AuditPath(node, index, level) == []
  {
  }

  lemma FirstLevel<H>(node: (H, H) -> H, leaves: seq<H>)
    requires leaves != []
    ensures LevelsOf(node, leaves) != [] && LevelsOf(node, leaves)[0] == leaves
  {
  }

  lemma LevelsAbove<H>(node: (H, H) -> H, level: seq<H>, levels: seq<seq<H>>, i: nat)
    requires |level| > 1 && i < |levels| && levels[i..] == LevelsOf(node, level)
    ensures i + 1 < |levels| && levels[i + 1..] == LevelsOf(node, Paired(node, level))
    ensures levels[i + 1] == Paired(node, level)
  {
    assert levels[i..][1..] == levels[i + 1..];
  }

  // -------------------------------------------------------------------------
  // Checking a proof

  /** The root a proof computes for a leaf hash; none if the path is too short or too long. */
  function Recomputed<H>(node: (H, H) -> H, size: nat, index: nat, hash: H, path: seq<H>): Option<H>
    requires index < size
    decreases size
  {
    if size == 1 then (if path == [] then Some(hash) else None)
    else if index % 2 == 0 && index + 1 >= size then Recomputed(node, (size + 1) / 2, index / 2, hash, path)
    else if path == [] then None
    else
      var up := if index % 2 == 0 then node(hash, path[0]) else node(path[0], hash);
      Recomputed(node, (size + 1) / 2, index / 2, up, path[1..])
  }

  method ComputeRootFromHash<H>(node: (H, H) -> H, proof: MerkleProof<H>, leafHash: H) returns (r: Result<H, Error>)
    ensures r == if proof.treeSize == 0 || proof.leafIndex >= proof.treeSize then Err(MerkleProofFailed)
                 else match Recomputed(node, proof.treeSize, proof.leafIndex, leafHash, proof.auditPath)
                      case None => Err(MerkleProofFailed)
                      case Some(root) => Ok(root)
  {
    if proof.treeSize == 0 || proof.leafIndex >= proof.treeSize { return Err(MerkleProofFailed); }
    var hash, index, size, pathIndex := leafHash, proof.leafIndex, proof.treeSize, 0;
    var path := proof.auditPath;
    assert path[0..] == path;
    while size > 1
      invariant index < size && pathIndex <= |path|
      invariant Recomputed(node, size, index, hash, path[pathIndex..])
                == Recomputed(node, proof.treeSize, proof.leafIndex, leafHash, path)
    {
      if index % 2 == 0 {
        if index + 1 < size {
          if pathIndex >= |path| { return Err(MerkleProofFailed); }
          hash := node(hash, path[pathIndex]);
          assert path[pathIndex..][1..] == path[pathIndex + 1..];
          pathIndex := pathIndex + 1;
        }
      } else {
        if pathIndex >= |path| { return Err(MerkleProofFailed); }
        hash := node(path[pathIndex], hash);
        assert path[pathIndex..][1..] == path[pathIndex + 1..];
        pathIndex := pathIndex + 1;
      }
      index := index / 2;
      size := (size + 1) / 2;
    }
    if pathIndex != |path| { return Err(MerkleProofFailed); }
    return Ok(hash);
  }

  /** The pair hashed at one level when `hash` is presented for position `i`. */
  function PairAt<H>(i: nat, hash: H, sibling: H): (H, H) {
    if i % 2 == 0 then (hash, sibling) else (sibling, hash)
  }

  /** One level of checking, for a position that has a sibling and for one that has none. */
  lemma RecomputedStep<H>(node: (H, H) -> H, size: nat, i: nat, hash: H, path: seq<H>)
    requires i < size && size > 1
    ensures var lone := i % 2 == 0 && i + 1 == size;
            Recomputed(node, size, i, hash, path)
            == if lone then Recomputed(node, (size + 1) / 2, i / 2, hash, path)
               else if path == [] then None
               else var pair := PairAt(i, hash, path[0]);
                    Recomputed(node, (size + 1) / 2, i / 2, node(pair.0, pair.1), path[1..])
  {
  }

  /** The parent of a position: the hash of its pair, or itself if it is the lone last node. */
  lemma ParentOf<H>(node: (H, H) -> H, leaves: seq<H>, i: nat)
    requires i < |leaves| && |leaves| > 1
    ensures var up := Paired(node, leaves);
            && i / 2 < |up|
            && (Sibling(leaves, i) == [] <==> i % 2 == 0 && i + 1 == |leaves|)
            && (if Sibling(leaves, i) == [] then up[i / 2] == leaves[i]
                else |Sibling(leaves, i)| == 1
                     && var pair := PairAt(i, leaves[i], Sibling(leaves, i)[0]); up[i / 2] == node(pair.0, pair.1))
  {
    hide Paired;
    PairedAt(node, leaves, i / 2);
  }

  /** Proofs are complete: the generated path recomputes the root, using every entry. */
  lemma {:induction false} ProofsComplete<H>(node: (H, H) -> H, leaves: seq<H>, i: nat)
    requires i < |leaves|
    ensures Recomputed(node, |leaves|, i, leaves[i], AuditPath(node, i, leaves)) == Some(TreeHash(node, leaves))
    decreases |leaves|
  {
    if |leaves| > 1 {
      hide Paired, AuditPath, TreeHash, Recomputed, Sibling;
      PairedAuditPath(node, i, leaves);
      PairedTreeHash(node, leaves);
      ParentOf(node, leaves, i);
      ProofsComplete(node, Paired(node, leaves), i / 2);
      RecomputedStep(node, |leaves|, i, leaves[i], AuditPath(node, i, leaves));
      assert Sibling(leaves, i) == [] ==> AuditPath(node, i, leaves) == AuditPath(node, i / 2, Paired(node, leaves));
    }
  }

  /** Proofs bind: whoever presents another leaf hash or another path that computes the root of `leaves` has
      found two different pairs with the same node hash. */
  lemma {:induction false} ProofsBind<H>(node: (H, H) -> H, leaves: seq<H>, i: nat, hash: H, path: seq<H>)
    returns (collision: Option<((H, H), (H, H))>)
    requires i < |leaves| && Recomputed(node, |leaves|, i, hash, path) == Some(TreeHash(node, leaves))
    ensures collision.None? ==> hash == leaves[i] && path == AuditPath(node, i, leaves)
    ensures match collision
            case None => true
            case Some((x, y)) => x != y && node(x.0, x.1) == node(y.0, y.1)
    decreases |leaves|
  {
    if |leaves| == 1 {
      return None;
    } else {
      hide Paired, AuditPath, TreeHash, Recomputed, Sibling;
      var up, sibling := Paired(node, leaves), Sibling(leaves, i);
      PairedAuditPath(node, i, leaves);
      PairedTreeHash(node, leaves);
      ParentOf(node, leaves, i);
      RecomputedStep(node, |leaves|, i, hash, path);
      if sibling == [] {
        collision := ProofsBind(node, up, i / 2, hash, path);
        assert sibling + AuditPath(node, i / 2, up) == AuditPath(node, i / 2, up);
      } else {
        var presented, actual := PairAt(i, hash, path[0]), PairAt(i, leaves[i], sibling[0]);
        collision := ProofsBind(node, up, i / 2, node(presented.0, presented.1), path[1..]);
        if collision.None? && presented != actual { collision := Some((presented, actual)); }
        assert path == [path[0]] + path[1..];
        assert sibling == [sibling[0]];
      }
    }
  }

  /** Under a collision-free node hash, exactly the real leaf hash with exactly the generated path is accepted. */
  lemma AcceptedExactly<H(!new)>(node: (H, H) -> H, leaves: seq<H>, i: nat, hash: H, path: seq<H>)
    requires i < |leaves|
    requires forall a, b, c, d :: node(a, b) == node(c, d) ==> a == c && b == d
    ensures Recomputed(node, |leaves|, i, hash, path) == Some(TreeHash(node, leaves))
            <==> hash == leaves[i] && path == AuditPath(node, i, leaves)
  {
    hide Recomputed, TreeHash, AuditPath;
    ProofsComplete(node, leaves, i);
    if Recomputed(node, |leaves|, i, hash, path) == Some(TreeHash(node, leaves)) {
      var collision := ProofsBind(node, leaves, i, hash, path);
      assert collision.None?;
    }
  }

  // -------------------------------------------------------------------------
  // Proofs that claim another size

  /** The turns from a leaf to the root of a tree of the given size: whether each pair is joined from the right. */
  function Turns(size: nat, index: nat): seq<bool>
    requires index < size
    decreases size
  {
    if size == 1 then []
    else (if index % 2 == 0 && index + 1 >= size then [] else [index % 2 == 1]) + Turns((size + 1) / 2, index / 2)
  }

  /** The root computed along given turns. */
  function Folded<H>(node: (H, H) -> H, turns: seq<bool>, hash: H, path: seq<H>): Option<H> {
    if turns == [] then (if path == [] then Some(hash) else None)
    else if path == [] then None
    else Folded(node, turns[1..], if turns[0] then node(path[0], hash) else node(hash, path[0]), path[1..])
  }

  /** Of the claimed size and index, only the turns matter. */
  lemma {:induction false} RecomputedByTurns<H>(node: (H, H) -> H, size: nat, index: nat, hash: H, path: seq<H>)
    requires index < size
    ensures Recomputed(node, size, index, hash, path) == Folded(node, Turns(size, index), hash, path)
    decreases size
  {
    if size > 1 {
      var rest := Turns((size + 1) / 2, index / 2);
      if index % 2 == 0 && index + 1 >= size {
        assert [] + rest == rest;
        RecomputedByTurns(node, (size + 1) / 2, index / 2, hash, path);
      } else {
        var turns := [index % 2 == 1] + rest;
        assert turns[1..] == rest;
        if path != [] {
          var up := if index % 2 == 0 then node(hash, path[0]) else node(path[0], hash);
          RecomputedByTurns(node, (size + 1) / 2, index / 2, up, path[1..]);
        }
      }
    }
  }

  /** The turns, read from the root: the last is the side of the first split. */
  lemma {:induction false} TurnsCases(n: nat, m: nat)
    requires m < n && n > 1
    ensures var k := SplitPoint(n); Turns(n, m) == if m < k then Turns(k, m) + [false] else Turns(n - k, m - k) + [true]
    decreases n
  {
    hide Turns;
    if n == 2 { TurnsOfTwo(m); }
    else {
      var k := SplitPoint(n);
      SplitHalves(n);
      hide SplitPoint;
      var h := k / 2;
      assert k == 2 * h;
      TurnsCases((n + 1) / 2, m / 2);
      TurnsStep(n, m);
      if m < k { TurnsLeft(n, m, h); } else { TurnsRight(n, m, h); }
    }
  }

  lemma TurnsLeft(n: nat, m: nat, h: nat)
    requires h >= 1 && m < 2 * h < n
    ensures Turns(2 * h, m) == (if m % 2 == 0 && m + 1 >= n then [] else [m % 2 == 1]) + Turns(h, m / 2) && m / 2 < h
  {
    TurnsStep(2 * h, m);
  }

  lemma TurnsRight(n: nat, m: nat, h: nat)
    requires h >= 1 && 2 * h <= m < n
    ensures h <= m / 2 < (n + 1) / 2
    ensures Turns(n - 2 * h, m - 2 * h)
            == (if m % 2 == 0 && m + 1 >= n then [] else [m % 2 == 1]) + Turns((n + 1) / 2 - h, m / 2 - h)
  {
    assert m / 2 - h == (m - 2 * h) / 2 && (n + 1) / 2 - h == (n - 2 * h + 1) / 2;
    if n - 2 * h > 1 { TurnsStep(n - 2 * h, m - 2 * h); }
  }

  lemma TurnsOfTwo(m: nat)
    requires m < 2
    ensures Turns(2, m) == [m == 1] && Turns(1, 0) == []
  {
  }

  lemma TurnsStep(n: nat, m: nat)
    requires m < n && n > 1
    ensures Turns(n, m) == (if m % 2 == 0 && m + 1 >= n then [] else [m % 2 == 1]) + Turns((n + 1) / 2, m / 2)
  {
  }

  /** The last turn joins the two halves. */
  lemma {:induction false} FoldedLast<H>(node: (H, H) -> H, turns: seq<bool>, hash: H, path: seq<H>)
    requires turns != [] && |path| == |turns|
    ensures var n := |turns| - 1;
            var below := Folded(node, turns[..n], hash, path[..n]);
            && below.Some?
            && Folded(node, turns, hash, path)
               == Some(if turns[n] then node(path[n], below.value) else node(below.value, path[n]))
    decreases |turns|
  {
    var n := |turns| - 1;
    if n > 0 {
      var up := if turns[0] then node(path[0], hash) else node(hash, path[0]);
      FoldedLast(node, turns[1..], up, path[1..]);
      assert turns[..n][1..] == turns[1..][..n - 1] && path[..n][1..] == path[1..][..n - 1];
    }
  }

  lemma {:induction false} FoldedLength<H>(node: (H, H) -> H, turns: seq<bool>, hash: H, path: seq<H>)
    requires Folded(node, turns, hash, path).Some?
    ensures |path| == |turns|
    decreases |turns|
  {
    if turns != [] {
      FoldedLength(node, turns[1..], if turns[0] then node(path[0], hash) else node(hash, path[0]), path[1..]);
    }
  }

  /** The node hash has no collisions, and none of the leaf hashes is a node hash. */
  ghost predicate Separated<H(!new)>(node: (H, H) -> H, leaves: seq<H>) {
    && (forall a, b, c, d :: node(a, b) == node(c, d) ==> a == c && b == d)
    && (forall l, a, b | l in leaves :: l != node(a, b))
  }

  lemma TreeHashCases<H>(node: (H, H) -> H, leaves: seq<H>)
    requires leaves != []
    ensures |leaves| == 1 ==> TreeHash(node, leaves) == leaves[0]
    ensures |leaves| > 1 ==>
              var k := SplitPoint(|leaves|);
              TreeHash(node, leaves) == node(TreeHash(node, leaves[..k]), TreeHash(node, leaves[k..]))
  {
  }

  lemma LeafAlone<H>(node: (H, H) -> H, hash: H)
    ensures AuditPath(node, 0, [hash]) == [] && Turns(1, 0) == []
  {
  }

  /** A path that leads to the root of `leaves` leads there from one of its leaves, along that leaf's turns. */
  lemma {:induction false} FoldedBinds<H(!new)>(
    node: (H, H) -> H, leaves: seq<H>, turns: seq<bool>, hash: H, path: seq<H>) returns (j: nat)
    requires leaves != [] && Separated(node, leaves) && Separated(node, [hash])
    requires Folded(node, turns, hash, path) == Some(TreeHash(node, leaves))
    ensures j < |leaves| && hash == leaves[j] && path == AuditPath(node, j, leaves) && turns == Turns(|leaves|, j)
    decreases |leaves|
  {
    hide TreeHash, AuditPath, Turns, Folded;
    FoldedLength(node, turns, hash, path);
    TreeHashCases(node, leaves);
    assert hash in [hash];
    if turns == [] {
      NoTurns(node, hash, path);
      j := 0;
      assert |leaves| == 1;
      LeafAlone(node, hash);
      assert leaves == [hash];
    } else {
      var n := |turns| - 1;
      FoldedLast(node, turns, hash, path);
      assert |leaves| > 1 by { assert leaves[0] in leaves; }
      var k := SplitPoint(|leaves|);
      var half := if turns[n] then leaves[k..] else leaves[..k];
      HalfSeparated(node, leaves, half);
      var i := FoldedBinds(node, half, turns[..n], hash, path[..n]);
      j := if turns[n] then k + i else i;
      TurnsCases(|leaves|, j);
      AuditPathCases(node, j, leaves, k);
      assert turns == turns[..n] + [turns[n]] && path == path[..n] + [path[n]];
    }
  }

  lemma NoTurns<H>(node: (H, H) -> H, hash: H, path: seq<H>)
    ensures Folded(node, [], hash, path).Some? ==> path == [] && Folded(node, [], hash, path).value == hash
  {
  }

  lemma HalfSeparated<H(!new)>(node: (H, H) -> H, leaves: seq<H>, half: seq<H>)
    requires Separated(node, leaves) && forall l | l in half :: l in leaves
    ensures Separated(node, half)
  {
  }

  /**
   What a claimed size binds.  With a collision-free node hash and leaf hashes apart from it, a proof of any claimed
   size and index is accepted for a leaf hash against the root of `leaves` if and only if that hash is some leaf, the
   path is that leaf's, and the claimed size and index take the same turns as that leaf.
   */
  lemma AcceptedAtAnySize<H(!new)>(node: (H, H) -> H, leaves: seq<H>, size: nat, index: nat, hash: H, path: seq<H>)
    requires leaves != [] && index < size && Separated(node, leaves) && Separated(node, [hash])
    ensures Recomputed(node, size, index, hash, path) == Some(TreeHash(node, leaves)) <==>
              exists j | 0 <= j < |leaves| ::
                hash == leaves[j] && path == AuditPath(node, j, leaves) && Turns(size, index) == Turns(|leaves|, j)
  {
    hide TreeHash, AuditPath, Recomputed, Folded, Turns, Separated;
    RecomputedByTurns(node, size, index, hash, path);
    forall j | 0 <= j < |leaves| ensures
      Folded(node, Turns(|leaves|, j), leaves[j], AuditPath(node, j, leaves)) == Some(TreeHash(node, leaves))
    {
      ProofsComplete(node, leaves, j);
      RecomputedByTurns(node, |leaves|, j, leaves[j], AuditPath(node, j, leaves));
    }
    if Recomputed(node, size, index, hash, path) == Some(TreeHash(node, leaves)) {
      var j := FoldedBinds(node, leaves, Turns(size, index), hash, path);
    }
  }

  /** The claimed index is not bound: the third of three leaves is accepted as the second of two. */
  lemma ThirdAcceptedAsSecond<H>(node: (H, H) -> H, a: H, b: H, c: H)
    ensures Recomputed(node, 2, 1, c, [node(a, b)]) == Some(TreeHash(node, [a, b, c]))
  {
    assert [a, b, c][..2] == [a, b] && [a, b, c][2..] == [c] && [a, b][..1] == [a] && [a, b][1..] == [b];
    assert SplitPoint(3) == 2 && SplitPoint(2) == 1;
    assert TreeHash(node, [a, b]) == node(a, b);
    assert Recomputed(node, 1, 0, node(node(a, b), c), []) == Some(node(node(a, b), c));
  }
}
