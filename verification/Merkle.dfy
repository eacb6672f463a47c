/**
 What folding the branch has to do with the Merkle root. The root a node computes is a fold too,
 but over the siblings on the coinbase's path, while the job's branch lists transaction ids.
 */
module Merkle {
  import opened Bytes
  import opened ShareValidator

  /** One level of the Merkle tree, the last hash paired with itself when the level is odd. */
  function MerkleLevel(h: Hasher, row: seq<Hash32>): (r: seq<Hash32>)
    ensures |r| == (|row| + 1) / 2
  {
    if row == [] then []
    else if |row| == 1 then [h(Join(row[0], row[0]))]
    else [h(Join(row[0], row[1]))] + MerkleLevel(h, row[2..])
  }

  /** The Merkle root a node computes over all transaction ids. */
  function MerkleRoot(h: Hasher, row: seq<Hash32>): Hash32
    requires row != []
    decreases |row|
  {
    if |row| == 1 then row[0] else MerkleRoot(h, MerkleLevel(h, row))
  }

  /** Whose fold from the first id is the root: its siblings from the bottom up. */
  function Path(h: Hasher, row: seq<Hash32>): (path: seq<Hash32>)
    requires row != []
    ensures path == [] <==> |row| == 1
    decreases |row|
  {
    if |row| == 1 then [] else [row[1]] + Path(h, MerkleLevel(h, row))
  }

  lemma {:induction false} RootFoldsPath(h: Hasher, row: seq<Hash32>)
    requires row != []
    ensures MerkleRoot(h, row) == Fold(h, row[0], Path(h, row))
    decreases |row|
  {
    if |row| > 1 {
      var up := MerkleLevel(h, row);
      assert up[0] == h(Join(row[0], row[1]));
      RootFoldsPath(h, up);
      assert Path(h, row)[1..] == Path(h, up);
    }
  }

  // The root seen from the last id

  /** Hashes x upwards with each of these on its left. */
  function Climb(h: Hasher, x: Hash32, lefts: seq<Hash32>): Hash32
    decreases |lefts|
  {
    if lefts == [] then x else Climb(h, h(Join(lefts[0], x)), lefts[1..])
  }

  function Last(row: seq<Hash32>): Hash32
    requires row != []
  {
    row[|row| - 1]
  }

  /** What the last hash of a row is paired with: itself when the row is odd. */
  function LeftOfLast(row: seq<Hash32>): Hash32
    requires |row| >= 2
  {
    if |row| % 2 == 1 then Last(row) else row[|row| - 2]
  }

  /** The left neighbours on the way from the last id up to the row of two. */
  function Lefts(h: Hasher, row: seq<Hash32>): (lefts: seq<Hash32>)
    requires |row| >= 2
    ensures lefts == [] <==> |row| == 2
    decreases |row|
  {
    if |row| == 2 then [] else [LeftOfLast(row)] + Lefts(h, MerkleLevel(h, row))
  }

  /** The left half of the tree. */
  function LeftHalf(h: Hasher, row: seq<Hash32>): Hash32
    requires |row| >= 2
    decreases |row|
  {
    if |row| == 2 then row[0] else LeftHalf(h, MerkleLevel(h, row))
  }

  lemma TailEnds(row: seq<Hash32>, tail: seq<Hash32>)
    requires |row| >= 4 && tail == row[2..]
    ensures Last(tail) == Last(row) && LeftOfLast(tail) == LeftOfLast(row)
  {
  }

  lemma LastAfter(x: Hash32, rest: seq<Hash32>)
    requires rest != []
    ensures Last([x] + rest) == Last(rest)
  {
  }

  lemma LevelTail(h: Hasher, row: seq<Hash32>)
    requires |row| >= 4
    ensures Last(MerkleLevel(h, row)) == Last(MerkleLevel(h, row[2..]))
  {
    LastAfter(h(Join(row[0], row[1])), MerkleLevel(h, row[2..]));
  }

  lemma {:induction false} LastOfLevel(h: Hasher, row: seq<Hash32>)
    requires |row| >= 2
    ensures Last(MerkleLevel(h, row)) == h(Join(LeftOfLast(row), Last(row)))
    decreases |row|
  {
    if |row| == 2 {
      assert MerkleLevel(h, row[2..]) == [];
    } else if |row| == 3 {
      assert row[2..] == [row[2]];
    } else {
      LastOfLevel(h, row[2..]);
      TailEnds(row, row[2..]);
      LevelTail(h, row);
    }
  }

  lemma {:induction false} RootJoinsHalves(h: Hasher, row: seq<Hash32>)
    requires |row| >= 2
    ensures MerkleRoot(h, row) == h(Join(LeftHalf(h, row), Climb(h, Last(row), Lefts(h, row))))
    decreases |row|
  {
    var up := MerkleLevel(h, row);
    if |row| == 2 {
      assert up == [h(Join(row[0], row[1]))] + [];
    } else {
      LastOfLevel(h, row);
      RootJoinsHalves(h, up);
      assert Lefts(h, row)[1..] == Lefts(h, up);
    }
  }

  lemma {:induction false} FoldJoinsLast(h: Hasher, x: Hash32, branch: seq<Hash32>)
    requires branch != []
    ensures Fold(h, x, branch) == h(Join(Fold(h, x, branch[..|branch| - 1]), Last(branch)))
    decreases |branch|
  {
    var front := branch[..|branch| - 1];
    if front != [] {
      FoldJoinsLast(h, h(Join(x, branch[0])), branch[1..]);
      assert branch[1..][..|branch| - 2] == front[1..];
    } else {
      assert branch[1..] == [];
    }
  }

  // When the two agree

  /** The two inputs hashed last: by the fold over the branch, and by the tree over all ids. */
  function FinalJoins(h: Hasher, leaf: Hash32, branch: seq<Hash32>, ids: seq<Hash32>): (bytes, bytes)
    requires branch != [] && ids != []
  {
    var row := [leaf] + ids;
    (Join(Fold(h, leaf, branch[..|branch| - 1]), Last(branch)),
     Join(LeftHalf(h, row), Climb(h, Last(ids), Lefts(h, row))))
  }

  /** Hashing upwards from x comes back to x. */
  predicate OnCycle(h: Hasher, x: Hash32, lefts: seq<Hash32>) {
    lefts != [] && Climb(h, x, lefts) == x
  }

  lemma RowEnds(leaf: Hash32, ids: seq<Hash32>)
    requires ids != []
    ensures Last([leaf] + ids) == Last(ids) && |[leaf] + ids| == 1 + |ids|
  {
  }

  /**
   For any branch and any ids: the fold over the one is the root over the other exactly when the
   two final inputs are equal or collide, and they are equal only if the branch's last entry is
   the last id hashed up to the right half of the tree.
   */
  lemma FoldMeetsRoot(h: Hasher, leaf: Hash32, branch: seq<Hash32>, ids: seq<Hash32>)
    requires branch != [] && ids != []
    ensures var joins := FinalJoins(h, leaf, branch, ids);
            && (Fold(h, leaf, branch) == MerkleRoot(h, [leaf] + ids) <==>
                  joins.0 == joins.1 || IsCollision(h, joins))
            && (joins.0 == joins.1 ==> Last(branch) == Climb(h, Last(ids), Lefts(h, [leaf] + ids)))
  {
    FoldJoinsLast(h, leaf, branch);
    RowEnds(leaf, ids);
    RootJoinsHalves(h, [leaf] + ids);
    JoinInjective(Fold(h, leaf, branch[..|branch| - 1]), Last(branch), LeftHalf(h, [leaf] + ids),
                  Climb(h, Last(ids), Lefts(h, [leaf] + ids)));
  }

  lemma JoinInjective(a: Hash32, b: Hash32, c: Hash32, d: Hash32)
    ensures Join(a, b) == Join(c, d) ==> a == c && b == d
  {
    assert Join(a, b)[..32] == a && Join(a, b)[32..] == b;
    assert Join(c, d)[..32] == c && Join(c, d)[32..] == d;
  }

  /** With at most one id the fold over the ids is the root. */
  lemma FoldIsMerkleRoot(h: Hasher, leaf: Hash32, ids: seq<Hash32>)
    requires |ids| <= 1
    ensures Fold(h, leaf, ids) == MerkleRoot(h, [leaf] + ids)
  {
    if ids == [] {
      assert [leaf] + ids == [leaf];
    } else {
      RootFoldsPath(h, [leaf] + ids);
      PathOfTwo(h, [leaf] + ids);
      assert ids == [ids[0]];
    }
  }

  lemma PathOfTwo(h: Hasher, row: seq<Hash32>)
    requires |row| == 2
    ensures Path(h, row) == [row[1]]
  {
    assert Path(h, row) == [row[1]] + [];
  }

  /**
   With two ids or more, however many, the fold over the ids is the root only if two explicit
   inputs collide or the last id lies on an explicit cycle of the hash.
   */
  lemma FoldIsNotMerkleRoot(h: Hasher, leaf: Hash32, ids: seq<Hash32>)
    requires |ids| >= 2 && Fold(h, leaf, ids) == MerkleRoot(h, [leaf] + ids)
    ensures IsCollision(h, FinalJoins(h, leaf, ids, ids)) || OnCycle(h, Last(ids), Lefts(h, [leaf] + ids))
  {
    FoldMeetsRoot(h, leaf, ids, ids);
  }

  /** An empty branch gives the root of several ids exactly when the first id lies on such a cycle. */
  lemma EmptyBranchIsRoot(h: Hasher, leaf: Hash32, ids: seq<Hash32>)
    requires ids != []
    ensures Path(h, [leaf] + ids) != []
    ensures leaf == MerkleRoot(h, [leaf] + ids) <==> Fold(h, leaf, Path(h, [leaf] + ids)) == leaf
  {
    RootFoldsPath(h, [leaf] + ids);
  }

  // Over all hash functions

  /** The ids of these byte strings. */
  function Ids(h: Hasher, txs: seq<bytes>): (ids: seq<Hash32>)
    ensures |ids| == |txs|
    ensures forall k :: 0 <= k < |txs| ==> ids[k] == h(txs[k])
  {
    if txs == [] then [] else [h(txs[0])] + Ids(h, txs[1..])
  }

  /** A hash that gives one transaction its own id and tells joins by their right half; headers are low. */
  datatype Splitter = Splitter(tx: bytes, last: Hash32, mark: Hash32, other: Hash32, low: Hash32)
  {
    function Hash(x: bytes): Hash32 {
      if x == tx then last
      else if |x| == 64 && x[32..] == last then mark
      else if |x| == 80 then low
      else other
    }

    function Hasher(): Hasher {
      (x: bytes) => Hash(x)
    }

    /** The three digests differ, and the transaction is neither a join of one of them nor a header with root `mark`. */
    predicate Valid() {
      && last != mark && last != other && mark != other
      && (|tx| == 64 ==> tx[32..] != last && tx[32..] != mark && tx[32..] != other)
      && (|tx| == 80 ==> tx[36..68] != mark)
    }

    predicate Knows(x: Hash32) {
      x == last || x == mark || x == other
    }

    lemma JoinValue(a: Hash32, x: Hash32)
      requires Valid() && Knows(x)
      ensures Hash(Join(a, x)) == if x == last then mark else other
    {
      assert Join(a, x)[32..] == x;
    }

    lemma {:induction false} ClimbLeaves(x: Hash32, lefts: seq<Hash32>)
      requires Valid() && Knows(x)
      ensures Knows(Climb(Hasher(), x, lefts))
      ensures lefts != [] ==> Climb(Hasher(), x, lefts) != last
      decreases |lefts|
    {
      if lefts != [] {
        JoinValue(lefts[0], x);
        ClimbLeaves(Hasher()(Join(lefts[0], x)), lefts[1..]);
      }
    }

    /** The fold over the ids ends in `mark`, the root in `other`. */
    lemma Separates(leaf: Hash32, ids: seq<Hash32>)
      requires Valid() && |ids| >= 2 && Last(ids) == last
      ensures Fold(Hasher(), leaf, ids) == mark && MerkleRoot(Hasher(), [leaf] + ids) == other
    {
      var row := [leaf] + ids;
      RowEnds(leaf, ids);
      FoldJoinsLast(Hasher(), leaf, ids);
      JoinValue(Fold(Hasher(), leaf, ids[..|ids| - 1]), last);
      RootJoinsHalves(Hasher(), row);
      ClimbLeaves(last, Lefts(Hasher(), row));
      JoinValue(LeftHalf(Hasher(), row), Climb(Hasher(), last, Lefts(Hasher(), row)));
    }
  }

  /** Of four digests three are clear of the transaction. */
  lemma SplitterFor(tx: bytes, low: Hash32) returns (s: Splitter)
    ensures s.Valid() && s.tx == tx && s.low == low
  {
    var a, b, c, d: Hash32 := Zeros(32)[0 := 1], Zeros(32)[0 := 2], Zeros(32)[0 := 3], Zeros(32)[0 := 4];
    assert a[0] == 1 && b[0] == 2 && c[0] == 3 && d[0] == 4;
    var taken: bytes := if |tx| == 64 then tx[32..] else if |tx| == 80 then tx[36..68] else [];
    if a == taken {
      s := Splitter(tx, b, c, d, low);
    } else if b == taken {
      s := Splitter(tx, a, c, d, low);
    } else if c == taken {
      s := Splitter(tx, a, b, d, low);
    } else {
      s := Splitter(tx, a, b, c, low);
    }
  }

  /** The header's fold over the other transactions' ids equals the root of a coinbase and these transactions. */
  predicate Agrees(h: Hasher, coinbase: bytes, txs: seq<bytes>) {
    Fold(h, h(coinbase), Ids(h, txs)) == MerkleRoot(h, [h(coinbase)] + Ids(h, txs))
  }

  /**
   Folding the transactions' true ids gives the Merkle root under every hash function exactly when
   there is at most one transaction besides the coinbase, whatever the transactions are.
   */
  lemma FoldIsRootExactly(coinbase: bytes, txs: seq<bytes>)
    ensures (forall h: Hasher :: Agrees(h, coinbase, txs)) <==> |txs| <= 1
  {
    if |txs| <= 1 {
      forall h: Hasher ensures Agrees(h, coinbase, txs) {
        FoldIsMerkleRoot(h, h(coinbase), Ids(h, txs));
      }
    } else {
      var s := SplitterFor(txs[|txs| - 1], Zeros(32));
      s.Separates(s.Hasher()(coinbase), Ids(s.Hasher(), txs));
      assert !Agrees(s.Hasher(), coinbase, txs);
    }
  }
}
