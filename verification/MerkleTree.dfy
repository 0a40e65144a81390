/**
 Bitcoin's Merkle tree: levels with the last node doubled when odd, inclusion paths, and roots.
 */
module MerkleTree {
  import opened Wrappers
  import opened Powers

  /** Double SHA-256, whatever it is. */
  type Digest = seq<Byte> -> Bytes32

  function Pair(sha: Digest, l: Bytes32, r: Bytes32): Bytes32 {
    sha(l + r)
  }

  /** The right child of node `i` of the next level: its own left child when there is none. */
  function Right(level: seq<Bytes32>, i: nat): Bytes32
    requires 2 * i < |level|
  {
    if 2 * i + 1 < |level| then level[2 * i + 1] else level[2 * i]
  }

  function LevelUp(sha: Digest, level: seq<Bytes32>): (up: seq<Bytes32>)
    ensures |up| == (|level| + 1) / 2
  {
    seq<Bytes32>((|level| + 1) / 2, i requires 0 <= i < (|level| + 1) / 2 => Pair(sha, level[2 * i], Right(level, i)))
  }

  lemma LevelUpAt(sha: Digest, level: seq<Bytes32>, i: nat)
    requires i < (|level| + 1) / 2
    ensures LevelUp(sha, level)[i] == Pair(sha, level[2 * i], Right(level, i))
  {
  }

  function Root(sha: Digest, level: seq<Bytes32>): Bytes32
    requires level != []
    decreases |level|
  {
    if |level| == 1 then level[0] else Root(sha, LevelUp(sha, level))
  }

  /** The smallest trees, spelled out: children are hashed left before right, a last node without a partner is
      hashed with itself, and only true siblings must differ. */
  lemma SmallTrees(sha: Digest, a: Bytes32, b: Bytes32, c: Bytes32)
    ensures Root(sha, [a]) == a && Root(sha, [a, b]) == sha(a + b)
    ensures Root(sha, [a, b, c]) == sha(sha(a + b) + sha(c + c))
    ensures Healthy(sha, [a]) && (Healthy(sha, [a, b]) <==> a != b)
    ensures Healthy(sha, [a, b, c]) <==> a != b && sha(a + b) != sha(c + c)
  {
    var up: seq<Bytes32> := [sha(a + b), sha(c + c)];
    assert LevelUp(sha, [a, b, c]) == up;
    TwinsOfThree(a, b, c);
    TreeOfTwo(sha, a, b);
    TreeOfTwo(sha, up[0], up[1]);
    hide LevelUp, NoTwins;
    assert Root(sha, [a, b, c]) == Root(sha, up);
  }

  lemma TreeOfTwo(sha: Digest, a: Bytes32, b: Bytes32)
    ensures Root(sha, [a, b]) == sha(a + b)
    ensures Healthy(sha, [a, b]) <==> a != b
  {
    assert LevelUp(sha, [a, b]) == [sha(a + b)];
    TwinsOfTwo(a, b);
  }

  lemma TwinsOfTwo(a: Bytes32, b: Bytes32)
    ensures NoTwins([a, b]) <==> a != b
  {
    assert [a, b][2 * 0] == a && Right([a, b], 0) == b;
  }

  lemma TwinsOfThree(a: Bytes32, b: Bytes32, c: Bytes32)
    ensures NoTwins([a, b, c]) <==> a != b
  {
    assert [a, b, c][2 * 0] == a && Right([a, b, c], 0) == b;
  }

  /** No two siblings of the level are equal. */
  predicate NoTwins(level: seq<Bytes32>) {
    forall i :: 0 <= i < |level| / 2 ==> level[2 * i] != Right(level, i)
  }

  /** No level has equal siblings: building the tree does not abort. */
  predicate Healthy(sha: Digest, level: seq<Bytes32>)
    decreases |level|
  {
    |level| <= 1 || (NoTwins(level) && Healthy(sha, LevelUp(sha, level)))
  }

  function Sibling(level: seq<Bytes32>, i: nat): Bytes32
    requires i < |level|
  {
    if i % 2 == 1 then level[i - 1] else if i == |level| - 1 then level[i] else level[i + 1]
  }

  /** Siblings on the way from leaf `i` to the root. */
  function Path(sha: Digest, level: seq<Bytes32>, i: nat): seq<Bytes32>
    requires i < |level|
    decreases |level|
  {
    if |level| == 1 then [] else [Sibling(level, i)] + Path(sha, LevelUp(sha, level), i / 2)
  }

  /** Recomputes a root from a leaf; `None` when a left sibling equals the node, or the index is not
      used up: the verifier aborts there. */
  function Climb(sha: Digest, node: Bytes32, i: nat, path: seq<Bytes32>): Option<Bytes32>
    decreases |path|
  {
    if path == [] then
      if i == 0 then Some(node) else None
    else if i % 2 == 0 then
      Climb(sha, Pair(sha, node, path[0]), i / 2, path[1..])
    else if path[0] == node then
      None
    else
      Climb(sha, Pair(sha, path[0], node), i / 2, path[1..])
  }

  /** The path of any leaf of a healthy tree leads to its root. */
  lemma {:induction false} PathLeadsToRoot(sha: Digest, level: seq<Bytes32>, i: nat)
    requires i < |level| && Healthy(sha, level)
    ensures Climb(sha, level[i], i, Path(sha, level, i)) == Some(Root(sha, level))
    decreases |level|
  {
    hide LevelUp, Pair;
    if |level| <= 1 {
    } else {
      var up := LevelUp(sha, level);
      var path := Path(sha, level, i);
      assert path[1..] == Path(sha, up, i / 2);
      PathLeadsToRoot(sha, up, i / 2);
      LevelUpAt(sha, level, i / 2);
      if i % 2 == 1 {
        assert level[2 * (i / 2)] != Right(level, i / 2);
      }
    }
  }

  /** The digest does not collide on the nodes of these two trees of equal shape. */
  ghost predicate NoCollision(sha: Digest, a: seq<Bytes32>, b: seq<Bytes32>)
    requires |a| == |b|
    decreases |a|
  {
    |a| > 1 ==>
      && (forall i {:trigger LevelUp(sha, a)[i]} :: 0 <= i < (|a| + 1) / 2 ==>
            (LevelUp(sha, a)[i] == LevelUp(sha, b)[i] ==> a[2 * i] == b[2 * i] && Right(a, i) == Right(b, i)))
      && NoCollision(sha, LevelUp(sha, a), LevelUp(sha, b))
  }

  /** Without collisions, leaf lists of equal length with equal roots are equal. */
  lemma {:induction false} RootDeterminesLeaves(sha: Digest, a: seq<Bytes32>, b: seq<Bytes32>)
    requires |a| == |b| && a != [] && NoCollision(sha, a, b) && Root(sha, a) == Root(sha, b)
    ensures a == b
    decreases |a|
  {
    hide LevelUp;
    if |a| <= 1 {
    } else {
      RootDeterminesLeaves(sha, LevelUp(sha, a), LevelUp(sha, b));
      forall k | 0 <= k < |a|
        ensures a[k] == b[k]
      {
        var i := k / 2;
        assert LevelUp(sha, a)[i] == LevelUp(sha, b)[i];
      }
    }
  }

  // ----- the loops

  /** Builds the next level pair by pair, or reports equal siblings. */
  method NextLevel(sha: Digest, level: seq<Bytes32>) returns (up: seq<Bytes32>, ok: bool)
    ensures ok <==> NoTwins(level)
    ensures ok ==> up == LevelUp(sha, level)
  {
    up := [];
    for i := 0 to |level| / 2
      invariant |up| == i && forall k :: 0 <= k < i ==> up[k] == Pair(sha, level[2 * k], Right(level, k))
      invariant forall k :: 0 <= k < i ==> level[2 * k] != Right(level, k)
    {
      if level[2 * i] == level[2 * i + 1] {
        assert level[2 * i] == Right(level, i);
        return up, false;
      }
      up := up + [Pair(sha, level[2 * i], level[2 * i + 1])];
    }
    if |level| % 2 == 1 {
      up := up + [Pair(sha, level[|level| - 1], level[|level| - 1])];
    }
    forall i | 0 <= i < |up|
      ensures up[i] == LevelUp(sha, level)[i]
    {
      LevelUpAt(sha, level, i);
    }
    ok := true;
  }

  /** All levels, leaves first. */
  ghost function Levels(sha: Digest, level: seq<Bytes32>): seq<seq<Bytes32>>
    decreases |level|
  {
    if |level| <= 1 then [level] else [level] + Levels(sha, LevelUp(sha, level))
  }

  method BuildTree(sha: Digest, leaves: seq<Bytes32>) returns (nodes: seq<seq<Bytes32>>, ok: bool)
    ensures ok <==> Healthy(sha, leaves)
    ensures ok ==> nodes == Levels(sha, leaves)
    ensures nodes != []
    ensures ok && leaves != [] ==> nodes[|nodes| - 1] == [Root(sha, leaves)]
  {
    hide LevelUp, NoTwins;
    nodes := [leaves];
    var level := leaves;
    while |level| > 1
      invariant Healthy(sha, leaves) <==> Healthy(sha, level)
      invariant nodes != [] && nodes[|nodes| - 1] == level
      invariant Levels(sha, leaves) == nodes[..|nodes| - 1] + Levels(sha, level)
      invariant leaves != [] <==> level != []
      invariant leaves != [] ==> Root(sha, leaves) == Root(sha, level)
      decreases |level|
    {
      var up, fine := NextLevel(sha, level);
      if !fine {
        return nodes, false;
      }
      assert nodes[..|nodes| - 1] + [level] == nodes;
      nodes := nodes + [up];
      level := up;
    }
    ok := true;
  }

  /** Collects the siblings of a leaf, one per level below the root. */
  method GetIdxPath(nodes: seq<seq<Bytes32>>, index: nat, ghost sha: Digest, ghost leaves: seq<Bytes32>)
      returns (path: seq<Bytes32>)
    requires index < |leaves| && nodes == Levels(sha, leaves)
    ensures path == Path(sha, leaves, index)
  {
    hide LevelUp;
    path := [];
    var level, i: nat := 0, index;
    LevelsHeight(sha, leaves);
    assert nodes[0..] == nodes;
    while level < |nodes| - 1
      invariant 0 <= level < |nodes| && i < |nodes[level]|
      invariant nodes[level..] == Levels(sha, nodes[level])
      invariant path + Path(sha, nodes[level], i) == Path(sha, leaves, index)
      decreases |nodes| - level
    {
      assert |nodes[level]| > 1;
      assert nodes[level + 1..] == nodes[level..][1..] == Levels(sha, LevelUp(sha, nodes[level]));
      LevelsHeight(sha, LevelUp(sha, nodes[level]));
      path := path + [Sibling(nodes[level], i)];
      level := level + 1;
      i := i / 2;
    }
    LevelsHeight(sha, nodes[level]);
  }

  lemma LevelsHeight(sha: Digest, level: seq<Bytes32>)
    ensures Levels(sha, level) != [] && Levels(sha, level)[0] == level
    ensures |Levels(sha, level)| == 1 <==> |level| <= 1
  {
  }

  method CalculateRoot(sha: Digest, leaf: Bytes32, index: nat, path: seq<Bytes32>) returns (root: Option<Bytes32>)
    ensures root == Climb(sha, leaf, index, path)
  {
    var node, i := leaf, index;
    var level := 0;
    assert path[0..] == path;
    while level < |path|
      invariant 0 <= level <= |path|
      invariant Climb(sha, node, i, path[level..]) == Climb(sha, leaf, index, path)
    {
      assert path[level..][0] == path[level] && path[level..][1..] == path[level + 1..];
      if i % 2 == 0 {
        node := Pair(sha, node, path[level]);
      } else {
        if path[level] == node {
          return None;
        }
        node := Pair(sha, path[level], node);
      }
      level := level + 1;
      i := i / 2;
    }
    root := if i == 0 then Some(node) else None;
  }
}
