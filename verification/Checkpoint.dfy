/** Encrypted checkpoints between the rounds of a key-generation ceremony, and the whole store as
    one map from keys to documents. */
module Checkpoints {
  import opened Wrappers
  import opened Text
  import opened FileSystem
  import opened Manifests
  import opened StorePaths
  import opened ParticipantStores

  type Round = r: int | r == 1 || r == 2 witness 1

  function RoundAt(ceremony: KeyId, seat: SeatId, round: Round): (k: StoreKey)
    ensures ValidKey(k)
  {
    RoundKey(ceremony, seat, round)
  }

  function LoadRound(fs: StoreFs, root: Path, pass: Result<string, StoreError>, ceremony: KeyId, seat: SeatId, round: Round)
      : Result<seq<byte>, StoreError>
  {
    var secret :- pass;
    match DocAt(fs, PathOf(root, RoundAt(ceremony, seat, round)))
    case None => Err(Io)
    case Some(d) => Decrypt(secret, d)
  }

  /** A round is read exactly under the passphrase it was encrypted with; any other is refused, and so is
      an absent round. */
  lemma RoundReadsExactly(fs: StoreFs, root: Path, pass: string, ceremony: KeyId, seat: SeatId, round: Round, plaintext: seq<byte>)
    ensures LoadRound(fs, root, Ok(pass), ceremony, seat, round) == Ok(plaintext) <==>
      exists salt :: DocAt(fs, PathOf(root, RoundAt(ceremony, seat, round))) == Some(Sealed(pass, salt, plaintext))
    ensures DocAt(fs, PathOf(root, RoundAt(ceremony, seat, round))) == None ==>
      LoadRound(fs, root, Ok(pass), ceremony, seat, round) == Err(Io)
  {
    var found := DocAt(fs, PathOf(root, RoundAt(ceremony, seat, round)));
    if found.Some? && found.value.Sealed? {
      assert found == Some(Sealed(found.value.pass, found.value.salt, found.value.plaintext));
    }
  }

  // ---- one root, one map ----

  /** The store as a map: what every key shows. */
  function View(fs: StoreFs, root: Path, k: StoreKey): Option<Doc> {
    DocAt(fs, PathOf(root, k))
  }

  /** What storing `d` at `k` leaves: its directory is made, then the file is written. */
  ghost predicate Saved(a: StoreFs, b: StoreFs, root: Path, k: StoreKey, d: Doc, out: PutOutcome) {
    exists g: StoreFs, o :: MadeFor(a, g, PathOf(root, k)) && Wrote(g, b, PathOf(root, k), d, o) && SameOutcome(out, o)
  }

  ghost predicate MadeFor(a: StoreFs, b: StoreFs, p: Path) {
    p != [] && Grown(a, b, Parent(p))
  }

  predicate SameOutcome(out: PutOutcome, o: Outcome) {
    (out.Stored? <==> o.Done?) && (out.Interrupted? <==> o.PowerLoss?)
  }

  /** A write changes exactly one key, across all kinds of keys; a failed one changes at most that
      key, and then to the new document. */
  lemma WriteIsMapUpdate(a: StoreFs, b: StoreFs, root: Path, k: StoreKey, d: Doc, out: PutOutcome, x: StoreKey)
    requires ValidKey(k) && ValidKey(x) && Saved(a, b, root, k, d, out) && !out.Interrupted?
    ensures x != k ==> View(b, root, x) == View(a, root, x)
    ensures View(b, root, k) == Some(d) || (out.Refused? && View(b, root, k) == View(a, root, k))
  {
    SavedHere(a, b, root, k, d, out);
    if x != k {
      SavedElsewhere(a, b, root, k, d, out, x);
    }
  }

  lemma SavedHere(a: StoreFs, b: StoreFs, root: Path, k: StoreKey, d: Doc, out: PutOutcome)
    requires Saved(a, b, root, k, d, out) && !out.Interrupted?
    ensures View(b, root, k) == Some(d) || (out.Refused? && View(b, root, k) == View(a, root, k))
  {
    var g: StoreFs, o :| MadeFor(a, g, PathOf(root, k)) && Wrote(g, b, PathOf(root, k), d, o) && SameOutcome(out, o);
    WrittenShows(g, b, PathOf(root, k), d, o);
  }

  lemma SavedElsewhere(a: StoreFs, b: StoreFs, root: Path, k: StoreKey, d: Doc, out: PutOutcome, x: StoreKey)
    requires ValidKey(k) && ValidKey(x) && x != k && Saved(a, b, root, k, d, out) && !out.Interrupted?
    ensures View(b, root, x) == View(a, root, x)
  {
    var g: StoreFs, o :| MadeFor(a, g, PathOf(root, k)) && Wrote(g, b, PathOf(root, k), d, o) && SameOutcome(out, o);
    OtherKeyKept(g, b, root, k, d, x);
  }

  lemma OtherKeyKept(a: StoreFs, b: StoreFs, root: Path, k: StoreKey, d: Doc, x: StoreKey)
    requires ValidKey(k) && ValidKey(x) && x != k && Mid(a, b, PathOf(root, k), d)
    ensures View(b, root, x) == View(a, root, x)
  {
    PathOfIsFinal(root, x);
    if PathOf(root, x) == PathOf(root, k) {
      PathOfInjective(root, x, k);
    }
    assert Kept(a, b, PathOf(root, x));
  }

  lemma WrittenShows(a: StoreFs, b: StoreFs, p: Path, d: Doc, out: Outcome)
    requires Wrote(a, b, p, d, out) && !out.PowerLoss?
    ensures DocAt(b, p) == Some(d) || (out.Failed? && DocAt(b, p) == DocAt(a, p))
  {
    assert Look(b, p) in Possible(b, p);
  }

  /** Removing a ceremony's directory removes that ceremony's rounds and no other key. */
  lemma SweepIsMapRemoval(a: StoreFs, b: StoreFs, root: Path, ceremony: KeyId, x: StoreKey)
    requires ValidKey(x) && Wiped(a, b, CeremonyDir(root, ceremony))
    ensures View(b, root, x) == if x.RoundKey? && x.ceremony == ceremony then None else View(a, root, x)
  {
    CeremonyOwnsItsFiles(root, ceremony, x);
    var p := PathOf(root, x);
    assert CeremonyDir(root, ceremony) <= p ==> Look(b, p).None?;
    assert !(CeremonyDir(root, ceremony) <= p) ==> Look(b, p) == Look(a, p);
  }

  // ---- checkpoints next to shares ----

  lemma SweptClean(a: StoreFs, b: StoreFs, dir: Path)
    requires AllClean(a) && Swept(a, b, dir)
    ensures AllClean(b)
  {
    forall p | !IsTemp(p) ensures Clean(b, p) {
      assert Clean(a, p);
    }
  }

  /** Sweeping a ceremony leaves every share, envelope and index entry as sound as before. */
  lemma SweepKeeps<K, G>(
      c: Codec<K, G>, a: StoreFs, b: StoreFs, root: Path, puts: set<Put<K, G>>, acked: set<Put<K, G>>, ceremony: KeyId)
    requires StoreInv(c, a, root, puts, acked) && Swept(a, b, CeremonyDir(root, ceremony))
    ensures StoreInv(c, b, root, puts, acked)
  {
    SweptClean(a, b, CeremonyDir(root, ceremony));
    forall k | ValidKey(k) && !k.RoundKey? ensures Possible(b, PathOf(root, k)) == Possible(a, PathOf(root, k)) {
      CeremonyOwnsItsFiles(root, ceremony, k);
    }
    assert ValidKey(ManifestKey);
    forall o, tag | o in Possible(b, PathOf(root, ManifestKey)) && o.Some? && Indexes(o.value.doc, tag)
      ensures Backed(b, root, tag)
    {
      assert Backed(a, root, tag);
    }
    forall p | p in acked ensures Held(c, b, root, p) {
      assert Held(c, a, root, p);
    }
  }

  /** Writing a checkpoint keeps the shares sound, however it ends. */
  lemma CheckpointKeeps<K, G>(
      c: Codec<K, G>, a: StoreFs, b: StoreFs, root: Path, puts: set<Put<K, G>>, acked: set<Put<K, G>>,
      k: StoreKey, d: Doc, out: PutOutcome)
    requires StoreInv(c, a, root, puts, acked) && ValidKey(k) && k.RoundKey? && Saved(a, b, root, k, d, out)
    ensures StoreInv(c, b, root, puts, acked)
  {
    var g: StoreFs, o :| MadeFor(a, g, PathOf(root, k)) && Wrote(g, b, PathOf(root, k), d, o) && SameOutcome(out, o);
    PathOfIsFinal(root, k);
    GrownKeeps(c, a, g, Parent(PathOf(root, k)), root, puts, acked);
    WroteAdds(g, b, PathOf(root, k), d, o);
    WriteKeeps(c, g, b, root, puts, acked, k, d);
  }

  lemma NothingSaved(a: StoreFs, root: Path, k: StoreKey, d: Doc)
    requires ValidKey(k)
    ensures Saved(a, a, root, k, d, Refused(Age))
  {
    PathOfIsFinal(root, k);
    assert MadeFor(a, a, PathOf(root, k)) && Wrote(a, a, PathOf(root, k), d, Failed) && SameOutcome(Refused(Age), Failed);
  }

  /** Make the directory, then write atomically. */
  method WriteInDir(disk: Disk<Doc>, p: Path, d: Doc) returns (o: Outcome, ghost made: StoreFs)
    requires p != [] && !IsTemp(p)
    modifies disk
    ensures MadeFor(old(disk.fs), made, p) && Wrote(made, disk.fs, p, d, o)
    ensures disk.calm && Tidy(old(disk.fs), Parent(p)) ==> o.Done?
  {
    made := disk.fs;
    o := disk.CreateDir(Parent(p));
    if o.PowerLoss? {
      assert Mid(made, made, p, d);
      return;
    }
    made := disk.fs;
    if o.Failed? {
      return;
    }
    o := disk.WriteAtomic(p, d);
  }

  /** Every other round, of this or any other seat and ceremony, loads as before. */
  ghost predicate OtherRoundsKept(before: StoreFs, fs: StoreFs, root: Path, ceremony: KeyId, seat: SeatId, round: Round) {
    forall pass, c: KeyId, s: SeatId, r: Round :: c != ceremony || s != seat || r != round ==>
      LoadRound(fs, root, pass, c, s, r) == LoadRound(before, root, pass, c, s, r)
  }

  lemma OtherRoundsAreKept(
      a: StoreFs, b: StoreFs, root: Path, ceremony: KeyId, seat: SeatId, round: Round, d: Doc, out: PutOutcome)
    requires Saved(a, b, root, RoundAt(ceremony, seat, round), d, out) && !out.Interrupted?
    ensures OtherRoundsKept(a, b, root, ceremony, seat, round)
  {
    forall pass, c: KeyId, s: SeatId, r: Round | c != ceremony || s != seat || r != round
      ensures LoadRound(b, root, pass, c, s, r) == LoadRound(a, root, pass, c, s, r)
    {
      SavedElsewhere(a, b, root, RoundAt(ceremony, seat, round), d, out, RoundAt(c, s, r));
    }
  }

  /** No passphrase opens a round of the ceremony, and the rounds of others load as before. */
  ghost predicate RoundsGone(before: StoreFs, fs: StoreFs, root: Path, ceremony: KeyId) {
    forall pass, other: KeyId, seat: SeatId, round: Round ::
      var loaded := LoadRound(fs, root, pass, other, seat, round);
      if other == ceremony then loaded.Err? else loaded == LoadRound(before, root, pass, other, seat, round)
  }

  lemma WipedRoundsAreGone(a: StoreFs, b: StoreFs, root: Path, ceremony: KeyId)
    requires Wiped(a, b, CeremonyDir(root, ceremony))
    ensures RoundsGone(a, b, root, ceremony)
  {
    forall pass, other: KeyId, seat: SeatId, round: Round
      ensures var loaded := LoadRound(b, root, pass, other, seat, round);
        if other == ceremony then loaded.Err? else loaded == LoadRound(a, root, pass, other, seat, round)
    {
      SweepIsMapRemoval(a, b, root, ceremony, RoundAt(other, seat, round));
    }
  }

  class CheckpointStore {
    const disk: Disk<Doc>
    const root: Path
    const passphrase: Result<string, StoreError>

    constructor (disk: Disk<Doc>, root: Path, passphrase: Result<string, StoreError>)
      ensures this.disk == disk && this.root == root && this.passphrase == passphrase
    {
      this.disk, this.root, this.passphrase := disk, root, passphrase;
    }

    /** Encrypt and write atomically. Success is durable and is read back. */
    method PutRound(ceremony: KeyId, seat: SeatId, round: Round, plaintext: seq<byte>)
        returns (out: PutOutcome, ghost salt: nat)
      modifies disk
      ensures passphrase.Err? ==> out == Refused(passphrase.error) && disk.fs == old(disk.fs)
      ensures passphrase.Ok? ==>
        Saved(old(disk.fs), disk.fs, root, RoundAt(ceremony, seat, round), Sealed(passphrase.value, salt, plaintext), out)
      ensures out.Stored? ==> LoadRound(disk.fs, root, passphrase, ceremony, seat, round) == Ok(plaintext)
      ensures out.Stored? ==>
        forall pass :: Ok(pass) != passphrase ==> LoadRound(disk.fs, root, Ok(pass), ceremony, seat, round) == Err(Age)
      ensures disk.calm && Tidy(old(disk.fs), root) && passphrase.Ok? ==> out.Stored?
      ensures !out.Interrupted? ==> OtherRoundsKept(old(disk.fs), disk.fs, root, ceremony, seat, round)
    {
      salt := 0;
      if passphrase.Err? {
        return Refused(passphrase.error), salt;
      }
      var k := RoundAt(ceremony, seat, round);
      var drawn: nat := *;
      var fault := disk.Faulty();
      salt := drawn;
      ghost var a := disk.fs;
      if fault {
        NothingSaved(a, root, k, Sealed(passphrase.value, drawn, plaintext));
        return Refused(Age), salt;
      }
      out := Save(k, Sealed(passphrase.value, drawn, plaintext));
      if !out.Interrupted? {
        OtherRoundsAreKept(a, disk.fs, root, ceremony, seat, round, Sealed(passphrase.value, drawn, plaintext), out);
      }
      if out.Stored? {
        SavedHere(a, disk.fs, root, k, Sealed(passphrase.value, drawn, plaintext), out);
      }
    }

    method Save(k: StoreKey, d: Doc) returns (out: PutOutcome)
      requires ValidKey(k)
      modifies disk
      ensures Saved(old(disk.fs), disk.fs, root, k, d, out)
      ensures disk.calm && Tidy(old(disk.fs), root) ==> out.Stored?
    {
      PathOfIsFinal(root, k);
      RootAboveParent(root, k);
      ghost var a := disk.fs;
      ghost var g;
      var o;
      o, g := WriteInDir(disk, PathOf(root, k), d);
      out := FromOutcome(o);
      assert MadeFor(a, g, PathOf(root, k)) && Wrote(g, disk.fs, PathOf(root, k), d, o) && SameOutcome(out, o);
    }

    /** Remove the ceremony's directory; an absent one is fine. Only its files go, and not durably. */
    method Wipe(ceremony: KeyId) returns (out: PutOutcome)
      modifies disk
      ensures out.Stored? ==> Wiped(old(disk.fs), disk.fs, CeremonyDir(root, ceremony))
      ensures out.Refused? ==> Swept(old(disk.fs), disk.fs, CeremonyDir(root, ceremony))
      ensures out.Interrupted? ==> exists s :: Swept(old(disk.fs), s, CeremonyDir(root, ceremony)) && Crashed(s, disk.fs)
      ensures Absent(old(disk.fs), CeremonyDir(root, ceremony)) ==>
        !out.Refused? && (out.Stored? ==> disk.fs == old(disk.fs))
      ensures out.Stored? ==> RoundsGone(old(disk.fs), disk.fs, root, ceremony)
      ensures disk.calm ==> out.Stored?
    {
      ghost var before := disk.fs;
      var removed := disk.RemoveTree(CeremonyDir(root, ceremony));
      out := FromOutcome(removed);
      if out.Stored? {
        WipedRoundsAreGone(before, disk.fs, root, ceremony);
      }
    }
  }

  /** Wiping twice is wiping once: after a success the second cannot be refused, and changes nothing. */
  method WipeTwice(store: CheckpointStore, ceremony: KeyId) returns (first: PutOutcome, second: PutOutcome)
    modifies store.disk
    ensures first.Stored? ==> !second.Refused?
    ensures first.Stored? && second.Stored? ==>
      Wiped(old(store.disk.fs), store.disk.fs, CeremonyDir(store.root, ceremony))
    ensures first.Stored? && second.Interrupted? ==> exists s ::
      Wiped(old(store.disk.fs), s, CeremonyDir(store.root, ceremony)) && Crashed(s, store.disk.fs)
  {
    ghost var a := store.disk.fs;
    first := store.Wipe(ceremony);
    ghost var b := store.disk.fs;
    second := store.Wipe(ceremony);
    if first.Stored? && second.Interrupted? {
      ghost var s :| Swept(b, s, CeremonyDir(store.root, ceremony)) && Crashed(s, store.disk.fs);
      SweptTwice(a, b, s, CeremonyDir(store.root, ceremony));
    }
  }

  lemma SweptTwice(a: StoreFs, b: StoreFs, s: StoreFs, dir: Path)
    requires Wiped(a, b, dir) && Swept(b, s, dir)
    ensures Wiped(a, s, dir)
  {
  }

  /** A wipe is not durable: right after it a crash may still bring back any round that was visible. */
  lemma WipedRoundMayReturn(a: StoreFs, b: StoreFs, root: Path, k: StoreKey, d: Doc)
    requires ValidKey(k) && k.RoundKey? && Swept(a, b, CeremonyDir(root, k.ceremony))
    requires Look(a, PathOf(root, k)) == Some(File(d, true))
    ensures exists f: StoreFs :: Crashed(b, f) && View(f, root, k) == Some(d)
  {
    CeremonyOwnsItsFiles(root, k.ceremony, k);
    var f := MayReturn(a, b, PathOf(root, k), d);
  }

  lemma MayReturn(a: StoreFs, b: StoreFs, p: Path, d: Doc) returns (f: StoreFs)
    requires Look(a, p) == Some(File(d, true)) && Look(a, p) in Possible(b, p)
    ensures Crashed(b, f) && DocAt(f, p) == Some(d)
  {
    f := Fs((map x | x in b.now :: File(b.now[x].doc, true))[p := File(d, true)], map[], b.dirs, {});
    forall x ensures CrashedAt(b, f, x) {
      if x == p {
        assert Survives(Look(a, p), Look(f, p));
      } else {
        assert Look(b, x) in Possible(b, x) && Survives(Look(b, x), Look(f, x));
      }
    }
  }
}
