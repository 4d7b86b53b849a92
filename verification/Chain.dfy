/**
 The node's view of the CKB block tree.

 A block hash commits to the block and, through the parent hash, to all its
 ancestors.  It is modelled by what it commits to: the bodies of all blocks
 from number 0 up to and including the block.  Two blocks then have the same
 hash exactly when they are the same block, the parent hash is the hash without
 its last body, and the ancestors of a block are the non-empty prefixes of its
 hash.  The canonical chain is given by the hash of its tip.
 */
module Chain {
  import opened Wrappers
  import opened Uint64

  /** The action named in a transaction's witness. */
  datatype Action = UpdateKeyList | OtherAction(name: string)

  /** `action` is `None` when the witness holds no action; `keyListOutput` says
      that some output has the key-list type script of the current version. */
  datatype Tx = Tx(hash: string, action: Option<Action>, keyListOutput: bool)

  datatype Body = Body(txs: seq<Tx>, timestamp: uint64, nonce: nat)

  /** No chain has more blocks than this. */
  const MAX_BLOCKS: nat := 0x8000_0000_0000_0000

  type Hash = h: seq<Body> | |h| <= 0x8000_0000_0000_0000

  /** The hash of the block numbered n on the chain. */
  function BlockAt(chain: Hash, n: nat): (h: Hash)
    requires n < |chain|
    ensures |h| == n + 1
  {
    chain[..n + 1]
  }

  function Number(h: Hash): nat
    requires |h| > 0
  {
    |h| - 1
  }

  function Parent(h: Hash): (p: Hash)
    requires |h| > 0
    ensures |p| == |h| - 1
  {
    h[..|h| - 1]
  }

  function BodyOf(h: Hash): Body
    requires |h| > 0
  {
    h[|h| - 1]
  }

  /** The text under which output 0 of a transaction is recorded. */
  function OutPoint0(txHash: string): string {
    txHash + "-0"
  }

  lemma OutPoint0Injective(a: string, b: string)
    requires OutPoint0(a) == OutPoint0(b)
    ensures a == b
  {
    assert OutPoint0(a)[..|a|] == a && OutPoint0(b)[..|b|] == b;
  }
}
