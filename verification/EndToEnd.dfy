/** From key generation through the disk to a signed transaction. */
module EndToEnd {
  import opened Wrappers
  import opened Text
  import opened Envelopes
  import opened Frost
  import opened Keygen
  import opened FieldFrost
  import FieldDkg
  import opened FileSystem
  import opened ParticipantStores
  import opened PersistLoad
  import opened Session
  import opened AnyThreshold

  type FieldCodec = Codec<KeyPackage, GroupPackage>

  /** What a persist left: everything, or whatever an interrupted one got to. */
  ghost predicate PersistedOrSound<K, G>(
      c: Codec<K, G>, fs: StoreFs, base: FileSystem.Path, pass: string, n: nat, shares: map<Identifier, K>, group: G)
  {
    BasePersisted(c, fs, base, pass, n, shares, group) || BaseSound(c, fs, base, pass, n, shares, group)
  }

  /** The `t` seats that signing loads from a persisted ceremony do sign, even if persisting was
      interrupted. (`PersistedLoads` says when loading succeeds.) */
  lemma PersistedSharesSign(
      c: Curve, stream: nat -> int, hash: Sighasher, t: u16, n: u16, rng: nat,
      shares: map<Identifier, KeyPackage>, group: GroupPackage, loaded: map<Identifier, KeyPackage>, read: GroupPackage,
      codec: FieldCodec, fs: StoreFs, base: FileSystem.Path, pass: string, skipped: set<string>,
      id: Utf8, psbt: Psbt, net: Net, universe: set<Envelope>)
    requires ValidCurve(c) && c.q > n && 2 <= t <= n && Lawful(codec)
    requires NaiveDkg(FieldDkg.Instance(c, stream), t, n, rng).0 == Ok((shares, group))
    requires PersistedOrSound(codec, fs, base, pass, n, shares, group)
    requires LoadSpec(codec, fs, base, skipped, t, Ok(pass)) == Ok((loaded, read))
    requires Ready(c, hash, Config(id, loaded, read, psbt, t), net, universe)
    ensures SignsAll(c, hash, Config(id, loaded, read, psbt, t), net)
  {
    LoadedIsSelection(codec, fs, base, pass, n, shares, group, skipped, t, loaded, read);
    AnyThresholdSigns(c, stream, hash, t, n, rng, shares, group, Config(id, loaded, group, psbt, t), net, universe);
  }

  lemma LoadedIsSelection<K(!new), G(!new)>(
      codec: Codec<K, G>, fs: StoreFs, base: FileSystem.Path, pass: string, n: u16, shares: map<Identifier, K>, group: G,
      skipped: set<string>, t: u16, loaded: map<Identifier, K>, read: G)
    requires Lawful(codec) && PersistedOrSound(codec, fs, base, pass, n, shares, group) && 1 <= t
    requires LoadSpec(codec, fs, base, skipped, t, Ok(pass)) == Ok((loaded, read))
    ensures read == group && |loaded.Keys| == t && forall id :: id in loaded ==> id in shares && loaded[id] == shares[id]
  {
    if BasePersisted(codec, fs, base, pass, n, shares, group) {
      PersistedLoads(codec, fs, base, pass, n, shares, group, skipped, t);
    } else {
      SoundLoads(codec, fs, base, pass, n, shares, group, skipped, t, Ok(pass));
    }
    SameSize(loaded);
  }

  lemma SameSize<K>(m: map<Identifier, K>)
    ensures |m.Keys| == |m|
  {
  }
}
