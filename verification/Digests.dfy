/** Ideal hashing, and the Bitcoin data that is hashed.

    A digest is the term that was hashed.  Distinct inputs therefore have distinct digests, which is the
    collision freedom the protocol relies on; a fixed-width type could not have it. */
module Digests {

  datatype Option<+T> = None | Some(value: T)

  datatype Result<+T, +E> = Ok(value: T) | Err(error: E)

  type Bytes = seq<bv8>

  datatype Digest =
    | Zero
    | OfFilter(bytes: Bytes)
    | OfFilterHeader(filterHash: Digest, prev: Digest)
    | OfBlock(header: BlockHeader)
    | OfTxs(txs: seq<Tx>)
    | OfTx(tx: Tx)
    | Flipped(original: Digest)

  datatype OutPoint = OutPoint(txid: Digest, index: nat)

  datatype TxIn = TxIn(prevOut: OutPoint, sigScript: Bytes)

  datatype TxOut = TxOut(value: nat, script: Bytes)

  datatype Tx = Tx(ins: seq<TxIn>, outs: seq<TxOut>)

  datatype BlockHeader = BlockHeader(prevBlock: Digest, merkleRoot: Digest, time: int, nonce: nat)

  datatype Block = Block(header: BlockHeader, txs: seq<Tx>) {
    function Hash(): Digest {
      OfBlock(header)
    }
  }

  /** Flips one bit of a hash. */
  function CorruptHash(d: Digest): (r: Digest)
    ensures r != d
  {
    if d.Flipped? then
      assert d.original < d;
      d.original
    else Flipped(d)
  }

  /** Flips the lowest bit of the last byte, or makes empty data non-empty. */
  function CorruptBytes(data: Bytes): (r: Bytes)
    ensures r != data
  {
    if data == [] then [0xff]
    else
      var last := data[|data| - 1];
      assert last ^ 1 != last;
      data[|data| - 1 := last ^ 1]
  }

  /** The filter header reached from `prev` after the filter hashes `hashes`. */
  function HeaderFold(prev: Digest, hashes: seq<Digest>): Digest {
    if hashes == [] then prev
    else OfFilterHeader(hashes[|hashes| - 1], HeaderFold(prev, hashes[..|hashes| - 1]))
  }

  /** Folding can stop at any height and go on from there. */
  lemma {:induction false} HeaderFoldConcat(prev: Digest, a: seq<Digest>, b: seq<Digest>)
    ensures HeaderFold(prev, a + b) == HeaderFold(HeaderFold(prev, a), b)
  {
    if b == [] {
      assert a + b == a;
    } else {
      assert (a + b)[..|a + b| - 1] == a + b[..|b| - 1];
      HeaderFoldConcat(prev, a, b[..|b| - 1]);
    }
  }
}
