/** The signing primitives and the transaction they sign, as values. */
module Frost {
  import opened Wrappers
  import opened Ordered
  import opened Text
  import opened Envelopes

  datatype FrostError = FrostError(code: int, culprits: seq<Identifier>)

  /** The identifiers of a map in ascending order: what iterating it yields. */
  function Roster<A>(m: map<Identifier, A>): (r: seq<Identifier>)
    ensures StrictlyAscending(r) && |r| == |m.Keys|
    ensures forall id :: id in r <==> id in m
    ensures forall i :: 0 <= i < |r| ==> r[i] in m
  {
    var r := Ascending(m.Keys);
    assert forall i :: 0 <= i < |r| ==> r[i] in r;
    r
  }

  // ---- transactions ----

  datatype TxIn = TxIn(txid: seq<byte>, vout: u32, sequence: u32, witnessStack: seq<seq<byte>>)

  datatype TxOut = TxOut(value: nat, script: seq<byte>)

  datatype Tx = Tx(version: int, lockTime: u32, inputs: seq<TxIn>, outputs: seq<TxOut>)

  /** The unsigned transaction and, per input, the output it spends if that is known. */
  datatype Psbt = Psbt(unsigned: Tx, utxos: seq<Option<TxOut>>)

  // ---- primitives ----

  /** What the coordinator hands to every signer: the commitments and the message. */
  datatype Package<C> = Package(commitments: map<Identifier, C>, message: seq<byte>)

  /** The primitives over key packages KP, group packages G, nonces N, commitments C, signature
      shares S and signatures Sig. `commit` takes the number of the draw from the operating
      system's generator; `verify` is verification under the tweaked output key Q. */
  datatype Primitives<!KP, !G, !N, !C, !S, !Sig> = Primitives(
    commit: (KP, nat) -> (N, C),
    encodeC: C -> Result<seq<byte>, FrostError>,
    decodeC: seq<byte> -> Result<C, FrostError>,
    sign: (Package<C>, N, KP) -> Result<S, FrostError>,
    encodeS: S -> seq<byte>,
    decodeS: seq<byte> -> Result<S, FrostError>,
    aggregate: (Package<C>, map<Identifier, S>, G) -> Result<Sig, FrostError>,
    verify: (G, seq<byte>, Sig) -> bool,
    encodeSig: Sig -> Result<seq<byte>, FrostError>,
    sighash: (Tx, nat, seq<TxOut>) -> Result<seq<byte>, string>)
}
