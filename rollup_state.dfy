/**
 * The rollup batch state: a Merkle tree over SHA-256 leaves, one leaf per transaction
 * string, rebuilt from scratch for every batch. SHA-256 (FIPS 180-4) and the tree's root
 * computation are supplied as the two functions the state is built with.
 */
module RollupState {
  import opened Base
  import Utf8

  /** A 32-byte SHA-256 output. */
  type Digest = d: seq<byte> | |d| == 32 witness ZeroDigest()

  function ZeroDigest(): (d: seq<byte>)
    ensures |d| == 32 && forall k :: 0 <= k < 32 ==> d[k] == 0
  {
    seq(32, _ => 0)
  }

  /** A tree built from its leaves: the leaves in order and the root over them. */
  datatype MerkleTree = MerkleTree(leaves: seq<Digest>, root: Digest)

  /** `MerkleTree::from_leaves`. */
  function FromLeaves(merkleRoot: seq<Digest> -> Digest, leaves: seq<Digest>): (t: MerkleTree)
    ensures t.leaves == leaves
  {
    MerkleTree(leaves, merkleRoot(leaves))
  }

  /** The four all-zero leaves of the initial tree. */
  function EmptyLeaves(): (l: seq<Digest>)
    ensures |l| == 4 && forall k :: 0 <= k < 4 ==> l[k] == ZeroDigest()
  {
    [ZeroDigest(), ZeroDigest(), ZeroDigest(), ZeroDigest()]
  }

  /** The leaf of each transaction: the SHA-256 digest of its UTF-8 bytes, in order. */
  function Leaves(sha256: seq<byte> -> Digest, txs: seq<string>): (l: seq<Digest>)
    ensures |l| == |txs|
    ensures forall k :: 0 <= k < |txs| ==> l[k] == sha256(Utf8.Encode(txs[k]))
  {
    if txs == [] then [] else [sha256(Utf8.Encode(txs[0]))] + Leaves(sha256, txs[1..])
  }

  /** Hashing two batches one after the other gives the leaves of the joined batch. */
  lemma LeavesAppend(sha256: seq<byte> -> Digest, a: seq<string>, b: seq<string>)
    ensures Leaves(sha256, a + b) == Leaves(sha256, a) + Leaves(sha256, b)
  {
  }

  /**
   * Two batches that differ only past some position get the same leaves up to it, whatever
   * hash is used.
   */
  lemma {:induction false} LeavesPrefix(sha256: seq<byte> -> Digest, a: seq<string>, b: seq<string>, n: nat)
    requires n <= |a| && n <= |b| && a[..n] == b[..n]
    ensures Leaves(sha256, a)[..n] == Leaves(sha256, b)[..n]
  {
    forall k | 0 <= k < n ensures Leaves(sha256, a)[k] == Leaves(sha256, b)[k] {
      assert a[k] == a[..n][k] && b[k] == b[..n][k];
    }
  }

  class MerkleTreeState {
    /** The SHA-256 function. */
    const sha256: seq<byte> -> Digest
    /** The root the tree library computes over a leaf sequence. */
    const merkleRoot: seq<Digest> -> Digest
    var tree: MerkleTree

    /** `MerkleTreeState::new`: the tree over four all-zero leaves. */
    constructor New(sha256: seq<byte> -> Digest, merkleRoot: seq<Digest> -> Digest)
      ensures this.sha256 == sha256 && this.merkleRoot == merkleRoot
      ensures tree == FromLeaves(merkleRoot, EmptyLeaves())
    {
      this.sha256 := sha256;
      this.merkleRoot := merkleRoot;
      tree := FromLeaves(merkleRoot, EmptyLeaves());
    }

    /**
     * `update_state`: discards the old tree, builds one over the batch's leaves and returns
     * its root. The new tree is a function of `txs` alone.
     */
    method UpdateState(txs: seq<string>) returns (root: Digest)
      modifies this
      ensures tree == FromLeaves(merkleRoot, Leaves(sha256, txs))
      ensures root == tree.root
    {
      var newLeaves := Leaves(sha256, txs);
      tree := FromLeaves(merkleRoot, newLeaves);
      root := tree.root;
    }
  }

  /**
   * Running the same batch twice leaves the state as one run does and returns the same
   * root both times.
   */
  method UpdateTwice(s: MerkleTreeState, txs: seq<string>) returns (first: Digest, second: Digest)
    modifies s
    ensures first == second && s.tree == FromLeaves(s.merkleRoot, Leaves(s.sha256, txs))
  {
    first := s.UpdateState(txs);
    second := s.UpdateState(txs);
  }
}
