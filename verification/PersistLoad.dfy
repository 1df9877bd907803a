/** Persisting a ceremony's shares, one store root per seat, and loading `t` of them to sign. */
module PersistLoad {
  import opened Wrappers
  import opened Ordered
  import opened Text
  import opened Envelopes
  import opened Keygen
  import opened FileSystem
  import opened Manifests
  import opened StorePaths
  import opened ParticipantStores
  import opened SeatNames

  datatype GlueError =
    | KeygenFailed(keygen: KeygenError)
    | StoreFailed(store: StoreError)
    | PowerLost
    | CannotRead
    | Insufficient(found: nat)
    | BadPackage

  function SeatRoot(base: Path, name: string): Path {
    base + [name]
  }

  function GenesisTag(seat: SeatId): ShareTag {
    ShareTag(ACTIVE, 0, seat)
  }

  // ---- what a persisted base holds ----

  /** The root durably holds this one active genesis share, and the group. */
  ghost predicate SeatStored<K, G>(
      c: Codec<K, G>, fs: StoreFs, root: Path, pass: string, seat: SeatId, kp: K, group: G)
  {
    && c.writeKey(kp).Some? && c.writeGroup(group).Some?
    && (exists salt :: Settled(fs, PathOf(root, ShareAt(GenesisTag(seat))), Sealed(pass, salt, c.writeKey(kp).value)))
    && Settled(fs, PathOf(root, PublicAt(GenesisTag(seat))), EnvelopeDoc(ACTIVE, 0, Hex(c.writeGroup(group).value)))
    && exists createdAt: u64 :: Settled(fs, PathOf(root, ManifestKey),
         ManifestDoc(CURRENT_SCHEMA_VERSION, [EntryOf(GenesisTag(seat), Active, createdAt)]))
  }

  predicate UnderRoots(p: Path, base: Path, n: nat) {
    |p| > |base| + 1 && base <= p && p[|base|] in NamesUpTo(n)
  }

  /** Below the base there is nothing but the roots of seats `1..=n`. */
  ghost predicate OnlyRoots(fs: StoreFs, base: Path, n: nat) {
    && (forall p :: base < p && !UnderRoots(p, base, n) ==> Possible(fs, p) == {None})
    && forall d :: d in fs.dirs + fs.gone && base < d ==> d[|base|] in NamesUpTo(n)
  }

  ghost predicate AllSeatsStored<K, G>(
      c: Codec<K, G>, fs: StoreFs, base: Path, pass: string, n: nat, shares: map<Identifier, K>, group: G)
    requires n < 0x1_0000 && forall i :: 1 <= i <= n ==> i in shares
  {
    forall i :: 1 <= i <= n ==> SeatStored(c, fs, SeatRoot(base, SeatName(i)), pass, i, shares[i], group)
  }

  ghost predicate BasePersisted<K, G>(
      c: Codec<K, G>, fs: StoreFs, base: Path, pass: string, n: nat, shares: map<Identifier, K>, group: G)
  {
    && n < 0x1_0000 && (forall id :: id in shares <==> 1 <= id <= n)
    && AllSeatsStored(c, fs, base, pass, n, shares, group)
    && OnlyRoots(fs, base, n) && (n > 0 ==> base in fs.dirs)
  }

  ghost predicate EmptyBase(fs: StoreFs, base: Path) {
    && (forall p :: base < p ==> Possible(fs, p) == {None})
    && forall d :: d in fs.dirs + fs.gone ==> !(base < d)
  }

  // ---- what an interrupted persist leaves ----

  /** The one put that the root of a seat ever sees. */
  function GenesisPut<K, G>(seat: SeatId, pass: string, kp: K, group: G): Put<K, G> {
    Put(GenesisTag(seat), pass, kp, group)
  }

  ghost predicate RootSound<K, G>(c: Codec<K, G>, fs: StoreFs, root: Path, pass: string, seat: SeatId, kp: K, group: G) {
    var puts := {GenesisPut(seat, pass, kp, group)};
    StoreInv(c, fs, root, puts, {}) || StoreInv(c, fs, root, puts, puts)
  }

  /** The acknowledged puts of a sound root. */
  ghost function AckedOf<K, G>(c: Codec<K, G>, fs: StoreFs, root: Path, pass: string, seat: SeatId, kp: K, group: G): (r: set<Put<K, G>>)
    requires RootSound(c, fs, root, pass, seat, kp, group)
    ensures StoreInv(c, fs, root, {GenesisPut(seat, pass, kp, group)}, r)
    ensures r == {} || r == {GenesisPut(seat, pass, kp, group)}
  {
    var puts := {GenesisPut(seat, pass, kp, group)};
    if StoreInv(c, fs, root, puts, {}) then {} else puts
  }

  /** Below the base there are only roots of seats `1..=n`, each as sound as one whose own put was
      attempted. */
  ghost predicate BaseSound<K, G>(
      c: Codec<K, G>, fs: StoreFs, base: Path, pass: string, n: nat, shares: map<Identifier, K>, group: G)
  {
    && n < 0x1_0000 && (forall id :: id in shares <==> 1 <= id <= n)
    && AllClean(fs) && OnlyRoots(fs, base, n)
    && forall i :: 1 <= i <= n ==> RootSound(c, fs, SeatRoot(base, SeatName(i)), pass, i, shares[i], group)
  }

  lemma EmptyIsSound<K, G>(
      c: Codec<K, G>, fs: StoreFs, base: Path, pass: string, n: nat, shares: map<Identifier, K>, group: G)
    requires AllClean(fs) && EmptyBase(fs, base) && n < 0x1_0000 && forall id :: id in shares <==> 1 <= id <= n
    ensures BaseSound(c, fs, base, pass, n, shares, group)
  {
    forall i | 1 <= i <= n ensures RootSound(c, fs, SeatRoot(base, SeatName(i)), pass, i, shares[i], group) {
      EmptyRootIsSound(c, fs, base, SeatName(i), GenesisPut(i, pass, shares[i], group));
    }
  }

  lemma EmptyRootIsSound<K, G>(c: Codec<K, G>, fs: StoreFs, base: Path, name: string, p: Put<K, G>)
    requires AllClean(fs) && EmptyBase(fs, base)
    ensures StoreInv(c, fs, SeatRoot(base, name), {p}, {})
  {
    var root := SeatRoot(base, name);
    forall k | ValidKey(k) ensures Possible(fs, PathOf(root, k)) == {None} {
      PathOfIsFinal(root, k);
    }
    var none: set<Put<K, G>> := {};
    NoStoreIsSound(c, fs, root);
    AttemptKeeps(c, fs, root, none, none, p);
    assert none + {p} == {p} && (set q | q in none && q.tag != p.tag) == none;
  }

  lemma CrashedRoots(a: StoreFs, b: StoreFs, base: Path, n: nat)
    requires OnlyRoots(a, base, n) && Crashed(a, b)
    ensures OnlyRoots(b, base, n)
  {
    forall p | base < p && !UnderRoots(p, base, n) ensures Possible(b, p) == {None} {
      assert Possible(a, p) == {None} && CrashedAt(a, b, p);
      var o :| o in Possible(a, p) && Survives(o, Look(b, p));
    }
  }

  lemma RootSurvives<K, G>(
      c: Codec<K, G>, a: StoreFs, b: StoreFs, root: Path, pass: string, seat: SeatId, kp: K, group: G)
    requires RootSound(c, a, root, pass, seat, kp, group) && Crashed(a, b)
    ensures RootSound(c, b, root, pass, seat, kp, group)
  {
    var puts := {GenesisPut(seat, pass, kp, group)};
    var acked := AckedOf(c, a, root, pass, seat, kp, group);
    CrashKeeps(c, a, b, root, puts, acked);
  }

  lemma RootShrinks<K, G>(
      c: Codec<K, G>, a: StoreFs, b: StoreFs, root: Path, pass: string, seat: SeatId, kp: K, group: G)
    requires RootSound(c, a, root, pass, seat, kp, group) && AllClean(b) && KeysShrink(a, b, root)
    ensures RootSound(c, b, root, pass, seat, kp, group)
  {
    var puts := {GenesisPut(seat, pass, kp, group)};
    var acked := AckedOf(c, a, root, pass, seat, kp, group);
    ShrinkKeeps(c, a, b, root, puts, acked);
  }

  /** Soundness survives power losses. */
  lemma SoundSurvives<K, G>(
      c: Codec<K, G>, a: StoreFs, b: StoreFs, base: Path, pass: string, n: nat, shares: map<Identifier, K>, group: G)
    requires BaseSound(c, a, base, pass, n, shares, group) && Crashed(a, b)
    ensures BaseSound(c, b, base, pass, n, shares, group)
  {
    CrashShrinks(a, b);
    CrashedRoots(a, b, base, n);
    forall i | 1 <= i <= n ensures RootSound(c, b, SeatRoot(base, SeatName(i)), pass, i, shares[i], group) {
      RootSurvives(c, a, b, SeatRoot(base, SeatName(i)), pass, i, shares[i], group);
    }
  }

  /** What happens below one root, crashes included, adds nothing to another. */
  lemma OtherRootShrinks(a: StoreFs, b: StoreFs, root: Path, other: Path, keys: set<StoreKey>, lost: bool)
    requires AllClean(a) && OnlyKeysOrCrash(a, b, other, keys, lost) && |root| == |other| && root != other
    ensures KeysShrink(a, b, root)
  {
    var s := b;
    if lost {
      s :| OnlyKeys(a, s, other, keys) && Crashed(s, b);
    }
    forall k | ValidKey(k) ensures Possible(b, PathOf(root, k)) <= Possible(a, PathOf(root, k)) {
      PathOfIsFinal(root, k);
      OutsideShrinks(a, s, b, other, PathOf(root, k), lost);
    }
  }

  lemma OutsideShrinks(a: StoreFs, s: StoreFs, b: StoreFs, other: Path, p: Path, lost: bool)
    requires Clean(a, p) && Within(a, s, other) && !(other < p) && if lost then Crashed(s, b) else b == s
    ensures Possible(b, p) <= Possible(a, p)
  {
    assert Possible(s, p) == Possible(a, p);
    if lost {
      assert CrashedAt(s, b, p);
    }
  }

  lemma RootOfSound<K, G>(
      c: Codec<K, G>, fs: StoreFs, base: Path, pass: string, n: nat, shares: map<Identifier, K>, group: G, i: nat)
    requires BaseSound(c, fs, base, pass, n, shares, group) && 1 <= i <= n
    ensures RootSound(c, fs, SeatRoot(base, SeatName(i)), pass, i, shares[i], group)
  {
  }

  /** A put into one root keeps the base sound, however it ends. */
  lemma SoundAfterSeat<K, G>(
      c: Codec<K, G>, a: StoreFs, b: StoreFs, base: Path, pass: string, n: nat, shares: map<Identifier, K>, group: G,
      i: nat, keys: set<StoreKey>, lost: bool)
    requires BaseSound(c, a, base, pass, n, shares, group) && 1 <= i <= n
    requires OnlyKeysOrCrash(a, b, SeatRoot(base, SeatName(i)), keys, lost)
    requires RootSound(c, b, SeatRoot(base, SeatName(i)), pass, i, shares[i], group)
    ensures BaseSound(c, b, base, pass, n, shares, group)
  {
    RootsAfterSeat(a, b, base, n, i, keys, lost);
    forall j | 1 <= j <= n ensures RootSound(c, b, SeatRoot(base, SeatName(j)), pass, j, shares[j], group) {
      if j != i {
        assert RootSound(c, a, SeatRoot(base, SeatName(j)), pass, j, shares[j], group);
        NamesDiffer(base, i, j);
        OtherRootShrinks(a, b, SeatRoot(base, SeatName(j)), SeatRoot(base, SeatName(i)), keys, lost);
        RootShrinks(c, a, b, SeatRoot(base, SeatName(j)), pass, j, shares[j], group);
      }
    }
  }

  lemma RootsAfterSeat(a: StoreFs, b: StoreFs, base: Path, n: nat, i: nat, keys: set<StoreKey>, lost: bool)
    requires OnlyRoots(a, base, n) && 1 <= i <= n && OnlyKeysOrCrash(a, b, SeatRoot(base, SeatName(i)), keys, lost)
    ensures OnlyRoots(b, base, n)
  {
    var s := b;
    if lost {
      s :| OnlyKeys(a, s, SeatRoot(base, SeatName(i)), keys) && Crashed(s, b);
    }
    RootStep(a, s, base, n, i, n);
    if lost {
      CrashedRoots(s, b, base, n);
    }
  }

  lemma SettledSurvives(a: StoreFs, b: StoreFs, p: Path, d: Doc)
    requires Settled(a, p, d) && Crashed(a, b)
    ensures Settled(b, p, d)
  {
    assert CrashedAt(a, b, p);
    var o :| o in Possible(a, p) && Survives(o, Look(b, p));
    assert o == Some(File(d, true));
  }

  /** A persisted base survives power losses. */
  lemma PersistedSurvives<K, G>(
      c: Codec<K, G>, a: StoreFs, b: StoreFs, base: Path, pass: string, n: nat, shares: map<Identifier, K>, group: G)
    requires BasePersisted(c, a, base, pass, n, shares, group) && Crashed(a, b)
    ensures BasePersisted(c, b, base, pass, n, shares, group)
  {
    forall i | 1 <= i <= n ensures SeatStored(c, b, SeatRoot(base, SeatName(i)), pass, i, shares[i], group) {
      SeatSurvives(c, a, b, SeatRoot(base, SeatName(i)), pass, i, shares[i], group);
    }
    CrashedRoots(a, b, base, n);
  }

  lemma SeatSurvives<K, G>(
      c: Codec<K, G>, a: StoreFs, b: StoreFs, root: Path, pass: string, seat: SeatId, kp: K, group: G)
    requires SeatStored(c, a, root, pass, seat, kp, group) && Crashed(a, b)
    ensures SeatStored(c, b, root, pass, seat, kp, group)
  {
    var tag := GenesisTag(seat);
    var salt :| Settled(a, PathOf(root, ShareAt(tag)), Sealed(pass, salt, c.writeKey(kp).value));
    var createdAt: u64 :| Settled(a, PathOf(root, ManifestKey),
      ManifestDoc(CURRENT_SCHEMA_VERSION, [EntryOf(tag, Active, createdAt)]));
    SettledSurvives(a, b, PathOf(root, ShareAt(tag)), Sealed(pass, salt, c.writeKey(kp).value));
    SettledSurvives(a, b, PathOf(root, PublicAt(tag)), EnvelopeDoc(ACTIVE, 0, Hex(c.writeGroup(group).value)));
    SettledSurvives(a, b, PathOf(root, ManifestKey), ManifestDoc(CURRENT_SCHEMA_VERSION, [EntryOf(tag, Active, createdAt)]));
  }

  /** Writing below another root leaves a seat's files alone. */
  lemma SeatFrame<K, G>(
      c: Codec<K, G>, a: StoreFs, b: StoreFs, root: Path, other: Path, pass: string, seat: SeatId, kp: K, group: G)
    requires SeatStored(c, a, root, pass, seat, kp, group)
    requires Within(a, b, other) && |root| == |other| && root != other
    ensures SeatStored(c, b, root, pass, seat, kp, group)
  {
    forall k | ValidKey(k) ensures Possible(b, PathOf(root, k)) == Possible(a, PathOf(root, k)) {
      PathOfIsFinal(root, k);
      assert !(other < PathOf(root, k));
    }
    var tag := GenesisTag(seat);
    assert ValidKey(ManifestKey) && ValidKey(ShareAt(tag)) && ValidKey(PublicAt(tag));
  }

  // ---- persisting ----

  lemma AscendingRange(s: set<int>, n: nat)
    requires forall x :: x in s <==> 1 <= x <= n
    ensures Ascending(s) == seq(n, i => i + 1)
  {
    var r := seq(n, i => i + 1);
    forall x ensures x in Ascending(s) <==> x in r {
      if 1 <= x <= n { assert r[x - 1] == x; }
    }
    AscendingUnique(Ascending(s), r);
  }

  /** A change below the root of seat `i`. */
  lemma RootStep(fs: StoreFs, b: StoreFs, base: Path, m: nat, i: nat, n: nat)
    requires OnlyRoots(fs, base, m) && Within(fs, b, SeatRoot(base, SeatName(i))) && 1 <= i <= n && m <= n
    ensures OnlyRoots(b, base, n)
  {
    assert SeatName(i) in NamesUpTo(n) && NamesUpTo(m) <= NamesUpTo(n);
    forall p | base < p && !UnderRoots(p, base, n) ensures Possible(b, p) == {None} {
      BelowIsUnder(base, SeatName(i), p, n);
    }
    forall d | d in b.dirs + b.gone && base < d ensures d[|base|] in NamesUpTo(n) {
      if d !in fs.dirs + fs.gone {
        RootIsBetween(base, SeatName(i), d);
      }
    }
  }

  lemma RootIsBetween(base: Path, name: string, d: Path)
    requires base < d && (d <= SeatRoot(base, name) || SeatRoot(base, name) <= d)
    ensures d[|base|] == name
  {
    assert SeatRoot(base, name)[|base|] == name;
  }

  lemma BelowIsUnder(base: Path, name: string, p: Path, n: nat)
    ensures name in NamesUpTo(n) && SeatRoot(base, name) < p ==> UnderRoots(p, base, n)
  {
    if SeatRoot(base, name) < p {
      assert p[|base|] == SeatRoot(base, name)[|base|];
    }
  }

  lemma NextNameIsNew(i: nat)
    requires i < 65535
    ensures SeatName(i + 1) !in NamesUpTo(i)
  {
    if SeatName(i + 1) in NamesUpTo(i) {
      var j :| 1 <= j <= i && SeatName(j) == SeatName(i + 1);
      NameInjective(j, i + 1);
    }
  }

  /** The root of the next seat is untouched so far. */
  lemma NextRootIsEmpty(fs: StoreFs, base: Path, i: nat)
    requires OnlyRoots(fs, base, i) && i < 65535
    ensures LoadManifest(fs, SeatRoot(base, SeatName(i + 1))) == Ok([])
    ensures Tidy(fs, SeatRoot(base, SeatName(i + 1))) && RootIsNew(fs, SeatRoot(base, SeatName(i + 1)))
  {
    var root := SeatRoot(base, SeatName(i + 1));
    NextNameIsNew(i);
    forall p | root <= p ensures Look(fs, p).None? && p !in fs.dirs {
      assert p[|base|] == root[|base|] == SeatName(i + 1);
      assert Look(fs, p) in Possible(fs, p);
      NothingThere(fs, base, i, p);
    }
    PathOfIsFinal(root, ManifestKey);
  }

  /** Below the base but not below one of its roots there is nothing. */
  lemma NothingThere(fs: StoreFs, base: Path, i: nat, p: Path)
    requires OnlyRoots(fs, base, i) && base < p && p[|base|] !in NamesUpTo(i)
    ensures Look(fs, p).None? && p !in fs.dirs
  {
    assert Look(fs, p) in Possible(fs, p);
  }

  /** One put into an untouched root. */
  lemma SeatIsStored<K(!new), G(!new)>(
      store: ParticipantStore<K, G>, before: StoreFs, fs: StoreFs, seat: SeatId, kp: K, group: G, salt: nat, createdAt: u64)
    requires LoadManifest(before, store.root) == Ok([])
    requires store.EnvelopeSettled(fs, GenesisTag(seat), group) && store.ShareSettled(fs, GenesisTag(seat), kp, salt)
    requires store.IndexSettled(before, fs, EntryOf(GenesisTag(seat), Active, createdAt)) && store.passphrase.Ok?
    ensures SeatStored(store.codec, fs, store.root, store.passphrase.value, seat, kp, group)
  {
  }

  /** The first `i` seats are stored, and nothing else is there. */
  ghost predicate FirstStored<K, G>(
      c: Codec<K, G>, fs: StoreFs, base: Path, pass: string, i: nat, shares: map<Identifier, K>, group: G)
  {
    i < 0x1_0000 && (forall k :: 1 <= k <= i ==> k in shares)
    && OnlyRoots(fs, base, i) && AllSeatsStored(c, fs, base, pass, i, shares, group)
  }

  lemma SeatAdded<K, G>(
      c: Codec<K, G>, a: StoreFs, b: StoreFs, base: Path, pass: string, i: nat, shares: map<Identifier, K>, group: G)
    requires i < 65535 && i + 1 in shares && FirstStored(c, a, base, pass, i, shares, group)
    requires Within(a, b, SeatRoot(base, SeatName(i + 1)))
    requires SeatStored(c, b, SeatRoot(base, SeatName(i + 1)), pass, i + 1, shares[i + 1], group)
    ensures FirstStored(c, b, base, pass, i + 1, shares, group)
  {
    assert OnlyRoots(b, base, i + 1) by {
      RootStep(a, b, base, i, i + 1, i + 1);
    }
    NextShareIsThere(shares, i);
    AllSeatsAdded(c, a, b, base, pass, i, shares, group);
  }

  lemma NextShareIsThere<K>(shares: map<Identifier, K>, i: nat)
    requires i < 65535 && i + 1 in shares && forall k :: 1 <= k <= i ==> k in shares
    ensures forall k :: 1 <= k <= i + 1 ==> k in shares
  {
  }

  lemma AllSeatsAdded<K, G>(
      c: Codec<K, G>, a: StoreFs, b: StoreFs, base: Path, pass: string, i: nat, shares: map<Identifier, K>, group: G)
    requires i < 65535 && (forall k :: 1 <= k <= i + 1 ==> k in shares) && AllSeatsStored(c, a, base, pass, i, shares, group)
    requires Within(a, b, SeatRoot(base, SeatName(i + 1)))
    requires SeatStored(c, b, SeatRoot(base, SeatName(i + 1)), pass, i + 1, shares[i + 1], group)
    ensures AllSeatsStored(c, b, base, pass, i + 1, shares, group)
  {
    forall j | 1 <= j <= i + 1 ensures SeatStored(c, b, SeatRoot(base, SeatName(j)), pass, j, shares[j], group) {
      if j <= i {
        EarlierSeat(c, a, b, base, pass, i, j, shares[j], group);
      }
    }
  }

  lemma EarlierSeat<K, G>(
      c: Codec<K, G>, a: StoreFs, b: StoreFs, base: Path, pass: string, i: nat, j: nat, kp: K, group: G)
    requires 1 <= j <= i < 65535 && Within(a, b, SeatRoot(base, SeatName(i + 1)))
    requires SeatStored(c, a, SeatRoot(base, SeatName(j)), pass, j, kp, group)
    ensures SeatStored(c, b, SeatRoot(base, SeatName(j)), pass, j, kp, group)
  {
    var root, other := SeatRoot(base, SeatName(j)), SeatRoot(base, SeatName(i + 1));
    NamesDiffer(base, i + 1, j);
    SeatFrame(c, a, b, root, other, pass, j, kp, group);
  }

  lemma SoundAgain<K(!new), G(!new)>(
      store: ParticipantStore<K, G>, fs: StoreFs, seat: SeatId, kp: K, group: G, puts: set<Put<K, G>>, acked: set<Put<K, G>>, out: PutOutcome)
    requires store.passphrase.Ok? && puts == {GenesisPut(seat, store.passphrase.value, kp, group)} && acked <= puts
    requires StoreInv(store.codec, fs, store.root, store.History(puts, GenesisTag(seat), kp, group),
                      store.AckedBy(acked, GenesisTag(seat), kp, group, out))
    ensures RootSound(store.codec, fs, store.root, store.passphrase.value, seat, kp, group)
  {
    assert store.History(puts, GenesisTag(seat), kp, group) == puts;
    assert store.AckedBy(acked, GenesisTag(seat), kp, group, out) == if out.Stored? then puts else {};
  }

  /** A put of the seat's genesis share keeps the root sound. */
  method PutGenesis<K(!new), G(!new)>(store: ParticipantStore<K, G>, seat: SeatId, kp: K, group: G, ghost sound: bool)
      returns (out: PutOutcome, ghost salt: nat, ghost createdAt: u64)
    requires sound ==> store.passphrase.Ok?
    requires sound ==> RootSound(store.codec, store.disk.fs, store.root, store.passphrase.value, seat, kp, group)
    modifies store.disk
    ensures sound ==> RootSound(store.codec, store.disk.fs, store.root, store.passphrase.value, seat, kp, group)
    ensures out.Stored? ==> store.passphrase.Ok? && store.EnvelopeSettled(store.disk.fs, GenesisTag(seat), group)
    ensures out.Stored? ==> store.ShareSettled(store.disk.fs, GenesisTag(seat), kp, salt)
    ensures out.Stored? ==> store.IndexSettled(old(store.disk.fs), store.disk.fs, EntryOf(GenesisTag(seat), Active, createdAt))
    ensures out.Stored? && RootIsNew(old(store.disk.fs), store.root) ==> Reachable(store.disk.fs, store.root)
    ensures store.passphrase.Ok? && store.Smooth(old(store.disk.fs), kp, group) ==> out.Stored?
    ensures OnlyKeysOrCrash(
      old(store.disk.fs), store.disk.fs, store.root, FilesOf(GenesisTag(seat)) + {ManifestKey}, out.Interrupted?)
  {
    ghost var puts := if store.passphrase.Ok? then {GenesisPut(seat, store.passphrase.value, kp, group)} else {};
    ghost var acked := {};
    if sound {
      acked := AckedOf(store.codec, store.disk.fs, store.root, store.passphrase.value, seat, kp, group);
    }
    out, salt, createdAt := store.PutShare(GenesisTag(seat), kp, group, Active, puts, acked);
    if sound {
      SoundAgain(store, store.disk.fs, seat, kp, group, puts, acked, out);
    }
  }

  /** Store the share of a seat in its root. */
  method PersistSeat<K(!new), G(!new)>(
      disk: Disk<Doc>, base: Path, root: Path, codec: Codec<K, G>, seat: SeatId, kp: K, group: G, passphrase: Result<string, StoreError>,
      ghost empty: bool, ghost sound: bool) returns (out: PutOutcome)
    requires base <= root
    requires empty ==> LoadManifest(disk.fs, root) == Ok([]) && Tidy(disk.fs, root) && RootIsNew(disk.fs, root)
    requires sound ==> passphrase.Ok? && RootSound(codec, disk.fs, root, passphrase.value, seat, kp, group)
    modifies disk
    ensures out.Stored? ==> passphrase.Ok? && Within(old(disk.fs), disk.fs, root)
    ensures empty && out.Stored? ==> SeatStored(codec, disk.fs, root, passphrase.value, seat, kp, group) && base in disk.fs.dirs
    ensures empty && disk.calm && passphrase.Ok? && codec.writeKey(kp).Some? && codec.writeGroup(group).Some? ==> out.Stored?
    ensures OnlyKeysOrCrash(old(disk.fs), disk.fs, root, FilesOf(GenesisTag(seat)) + {ManifestKey}, out.Interrupted?)
    ensures sound ==> RootSound(codec, disk.fs, root, passphrase.value, seat, kp, group)
  {
    ghost var before := disk.fs;
    var store := new ParticipantStore(disk, root, codec, passphrase);
    ghost var salt, createdAt;
    out, salt, createdAt := PutGenesis(store, seat, kp, group, sound);
    if empty && out.Stored? {
      SeatIsStored(store, before, disk.fs, seat, kp, group, salt, createdAt);
    }
  }

  /** The key packages and the group can be serialized. */
  ghost predicate Writable<K, G>(c: Codec<K, G>, shares: map<Identifier, K>, group: G) {
    c.writeGroup(group).Some? && forall id :: id in shares ==> c.writeKey(shares[id]).Some?
  }

  /** Store the next seat, and what that does to the whole base. */
  method PersistNext<K(!new), G(!new)>(
      disk: Disk<Doc>, base: Path, codec: Codec<K, G>, i: nat, n: u16, shares: map<Identifier, K>, group: G,
      passphrase: Result<string, StoreError>, ghost empty: bool, ghost sound: bool) returns (out: PutOutcome)
    requires i < n && forall id :: id in shares <==> 1 <= id <= n
    requires empty ==> passphrase.Ok? && FirstStored(codec, disk.fs, base, passphrase.value, i, shares, group)
    requires sound ==> passphrase.Ok? && BaseSound(codec, disk.fs, base, passphrase.value, n, shares, group)
    modifies disk
    ensures out.Stored? ==> passphrase.Ok?
    ensures empty && out.Stored? ==> FirstStored(codec, disk.fs, base, passphrase.value, i + 1, shares, group)
    ensures empty && out.Stored? ==> base in disk.fs.dirs
    ensures empty && disk.calm && Writable(codec, shares, group) ==> out.Stored?
    ensures sound ==> BaseSound(codec, disk.fs, base, passphrase.value, n, shares, group)
  {
    ghost var before := disk.fs;
    if sound { RootOfSound(codec, before, base, passphrase.value, n, shares, group, i + 1); }
    if empty { NextRootIsEmpty(before, base, i); }
    out := PersistSeat(disk, base, SeatRoot(base, SeatName(i + 1)), codec, i + 1, shares[i + 1], group, passphrase, empty, sound);
    if sound {
      SoundAfterSeat(codec, before, disk.fs, base, passphrase.value, n, shares, group, i + 1,
        FilesOf(GenesisTag(i + 1)) + {ManifestKey}, out.Interrupted?);
    }
    if empty && out.Stored? {
      SeatAdded(codec, before, disk.fs, base, passphrase.value, i, shares, group);
    }
  }

  /** Every seat in ascending order, until one fails. */
  method PersistShares<K(!new), G(!new)>(
      disk: Disk<Doc>, base: Path, codec: Codec<K, G>, n: u16, shares: map<Identifier, K>, group: G, passphrase: Result<string, StoreError>)
      returns (failure: Option<GlueError>)
    requires forall id :: id in shares <==> 1 <= id <= n
    modifies disk
    ensures failure.None? && n > 0 ==> passphrase.Ok?
    ensures failure.None? && n > 0 && OnlyRoots(old(disk.fs), base, 0) ==>
      BasePersisted(codec, disk.fs, base, passphrase.value, n, shares, group)
    ensures passphrase.Ok? && BaseSound(codec, old(disk.fs), base, passphrase.value, n, shares, group) ==>
      BaseSound(codec, disk.fs, base, passphrase.value, n, shares, group)
    ensures disk.calm && passphrase.Ok? && OnlyRoots(old(disk.fs), base, 0) && Writable(codec, shares, group) ==> failure.None?
  {
    ghost var empty := passphrase.Ok? && OnlyRoots(disk.fs, base, 0);
    ghost var sound := passphrase.Ok? && BaseSound(codec, disk.fs, base, passphrase.value, n, shares, group);
    var ids := Ascending(shares.Keys);
    AscendingRange(shares.Keys, n);
    for i := 0 to |ids|
      invariant i > 0 ==> passphrase.Ok?
      invariant empty ==> FirstStored(codec, disk.fs, base, passphrase.value, i, shares, group)
      invariant empty && i > 0 ==> base in disk.fs.dirs
      invariant sound ==> BaseSound(codec, disk.fs, base, passphrase.value, n, shares, group)
    {
      assert ids[i] == i + 1;
      var out := PersistNext(disk, base, codec, i, n, shares, group, passphrase, empty, sound);
      if !out.Stored? {
        return Some(if out.Refused? then StoreFailed(out.error) else PowerLost);
      }
    }
    return None;
  }

  /** Run the ceremony, then store every seat's share in its own root. On success the base holds
      exactly the shares of the sequential reference ceremony. After every other outcome, a power loss
      included, each root is as sound as one whose own put was attempted. On a calm disk it succeeds if the
      ceremony does. */
  method PersistDkgShares<S1, P1(!new), S2(!new), P2(!new), K(!new), G(!new)>(
      disk: Disk<Doc>, base: Path, codec: Codec<K, G>, dkg: Dkg<S1, P1, S2, P2, K, G>, t: u16, n: u16, rng: nat,
      sizes2: seq<nat>, sizes3: seq<nat>, passphrase: Result<string, StoreError>)
      returns (res: Result<(map<Identifier, K>, G), GlueError>, rng': nat)
    modifies disk
    ensures NaiveDkg(dkg, t, n, rng).0.Err? ==>
      res == Err(KeygenFailed(NaiveDkg(dkg, t, n, rng).0.error)) && disk.fs == old(disk.fs)
    ensures res.Ok? ==> NaiveDkg(dkg, t, n, rng).0 == Ok(res.value) && passphrase.Ok?
    ensures res.Ok? && EmptyBase(old(disk.fs), base) ==>
      BasePersisted(codec, disk.fs, base, passphrase.value, n, res.value.0, res.value.1)
    ensures NaiveDkg(dkg, t, n, rng).0.Ok? && passphrase.Ok? && AllClean(old(disk.fs)) && EmptyBase(old(disk.fs), base) ==>
      var (shares, group) := NaiveDkg(dkg, t, n, rng).0.value;
      BaseSound(codec, disk.fs, base, passphrase.value, n, shares, group)
    ensures NaiveDkg(dkg, t, n, rng).0.Ok? && passphrase.Ok? && disk.calm && EmptyBase(old(disk.fs), base) ==>
      var (shares, group) := NaiveDkg(dkg, t, n, rng).0.value;
      Writable(codec, shares, group) ==> res.Ok?
  {
    ghost var before := disk.fs;
    var ran, after := RunInprocessDkg(dkg, t, n, rng, sizes2, sizes3);
    rng' := after;
    if ran.Err? {
      return Err(KeygenFailed(ran.error)), rng';
    }
    if passphrase.Err? {
      return Err(StoreFailed(passphrase.error)), rng';
    }
    CompletedCeremony(dkg, t, n, rng);
    var (shares, group) := ran.value;
    assert EmptyBase(before, base) ==> OnlyRoots(before, base, 0);
    if AllClean(before) && EmptyBase(before, base) {
      EmptyIsSound(codec, before, base, passphrase.value, n, shares, group);
    }
    var failure := PersistShares(disk, base, codec, n, shares, group, passphrase);
    if failure.Some? {
      return Err(failure.value), rng';
    }
    res := Ok((shares, group));
  }

  lemma NamesDiffer(base: Path, i: nat, j: nat)
    requires 1 <= j <= 65535 && 1 <= i <= 65535 && i != j
    ensures SeatRoot(base, SeatName(j)) != SeatRoot(base, SeatName(i))
  {
    if SeatRoot(base, SeatName(j)) == SeatRoot(base, SeatName(i)) {
      assert SeatRoot(base, SeatName(j))[|base|] == SeatRoot(base, SeatName(i))[|base|];
      NameInjective(i, j);
    }
  }

  // ---- loading ----

  predicate IsSeatName(name: string) {
    "seat-" <= name
  }

  function SeatChildren(fs: StoreFs, base: Path): set<string> {
    set name | name in Children(fs, base) && IsSeatName(name)
  }

  /** What opening the root of a given name yields. */
  function Loader<K, G>(c: Codec<K, G>, fs: StoreFs, base: Path, pass: Result<string, StoreError>)
      : string -> Result<(SeatId, K), StoreError>
  {
    name => LoadOnlyActive(c, fs, SeatRoot(base, name), pass)
  }

  /** Load root after root; the first that fails ends it. */
  function LoadFrom<K>(
      load: string -> Result<(SeatId, K), StoreError>, roots: seq<string>, kps: map<SeatId, K>): Result<map<SeatId, K>, StoreError>
    decreases |roots|
  {
    if roots == [] then Ok(kps) else
      match load(roots[0])
      case Err(e) => Err(e)
      case Ok(p) => LoadFrom(load, roots[1..], kps[p.0 := p.1])
  }

  function LoadGroup<K, G>(c: Codec<K, G>, fs: StoreFs, root: Path): Result<G, GlueError> {
    match LoadPublicEnvelope(fs, root, ACTIVE, 0)
    case Err(e) => Err(StoreFailed(e))
    case Ok(d) =>
      if !d.EnvelopeDoc? then Err(BadPackage) else
      match DecodePackage(c, d)
      case None => Err(BadPackage)
      case Some(g) => Ok(g)
  }

  function FromRoots<K, G>(
      c: Codec<K, G>, fs: StoreFs, base: Path, roots: seq<string>, t: u16, passphrase: Result<string, StoreError>)
      : Result<(map<SeatId, K>, G), GlueError>
    requires t > 0
  {
    if |roots| < t then Err(Insufficient(|roots|)) else
    if passphrase.Err? then Err(StoreFailed(passphrase.error)) else
    match LoadFrom(Loader(c, fs, base, passphrase), roots[..t], map[])
    case Err(e) => Err(StoreFailed(e))
    case Ok(kps) =>
      match LoadGroup(c, fs, SeatRoot(base, roots[0]))
      case Err(e) => Err(e)
      case Ok(g) => Ok((kps, g))
  }

  /** The first `t` seat roots in name order, and the group of the first of them. Directory entries that
      could not be read are `skipped`. */
  function LoadSpec<K, G>(
      c: Codec<K, G>, fs: StoreFs, base: Path, skipped: set<string>, t: u16, passphrase: Result<string, StoreError>)
      : Result<(map<SeatId, K>, G), GlueError>
    requires t > 0
  {
    FromRoots(c, fs, base, SortedNames(SeatChildren(fs, base) - skipped), t, passphrase)
  }

  /** Keep the names of seat roots. */
  method FilterSeats(names: seq<string>) returns (kept: seq<string>)
    ensures forall x :: x in kept <==> x in names && IsSeatName(x)
    ensures (forall i, j :: 0 <= i < j < |names| ==> names[i] != names[j]) ==>
      forall i, j :: 0 <= i < j < |kept| ==> kept[i] != kept[j]
  {
    kept := [];
    for i := 0 to |names|
      invariant forall x :: x in kept <==> x in names[..i] && IsSeatName(x)
      invariant (forall i, j :: 0 <= i < j < |names| ==> names[i] != names[j]) ==>
        forall i, j :: 0 <= i < j < |kept| ==> kept[i] != kept[j]
    {
      assert names[..i + 1] == names[..i] + [names[i]];
      if IsSeatName(names[i]) {
        assert forall x :: x in kept + [names[i]] <==> x in kept || x == names[i];
        kept := kept + [names[i]];
      }
    }
    assert names[..|names|] == names;
  }

  lemma SortedIsSpec(before: seq<string>, after: seq<string>, s: set<string>)
    requires Enumerates(before, s) && multiset(before) == multiset(after)
    requires forall x, y :: 0 <= x < y < |after| ==> LexLe(after[x], after[y])
    ensures after == SortedNames(s)
  {
    forall x ensures x in after <==> x in s {
      assert x in after <==> x in multiset(after);
      assert x in before <==> x in multiset(before);
    }
    forall i, j | 0 <= i < j < |after| ensures LexLess(after[i], after[j]) {
      LexTotal(after[i], after[j]);
      if after[i] == after[j] {
        TwiceInMultiset(after, i, j);
        OnceInMultiset(before, after[i]);
      }
    }
    LexSortedUnique(after, SortedNames(s));
  }

  lemma TwiceInMultiset(s: seq<string>, i: nat, j: nat)
    requires i < j < |s| && s[i] == s[j]
    ensures multiset(s)[s[i]] >= 2
  {
    assert s == s[..i] + [s[i]] + s[i + 1..j] + [s[j]] + s[j + 1..];
  }

  lemma {:induction false} OnceInMultiset(s: seq<string>, x: string)
    requires forall i, j :: 0 <= i < j < |s| ==> s[i] != s[j]
    ensures multiset(s)[x] <= 1
  {
    if s != [] {
      OnceInMultiset(s[1..], x);
      assert s == [s[0]] + s[1..];
      if s[0] == x { assert x !in s[1..]; }
    }
  }

  /** List, filter, sort in place: the result does not depend on the order of the listing. */
  method DiscoverRoots(disk: Disk<Doc>, base: Path) returns (r: Option<seq<string>>, skipped: set<string>)
    ensures r.Some? ==> r.value == SortedNames(SeatChildren(disk.fs, base) - skipped)
    ensures disk.calm && base in disk.fs.dirs ==> r.Some? && skipped == {}
  {
    var listed, missed := disk.ReadDir(base);
    skipped := missed;
    if listed.None? {
      return None, skipped;
    }
    var names := FilterSeats(listed.value);
    assert Enumerates(names, SeatChildren(disk.fs, base) - skipped);
    var roots := new string[|names|](i requires 0 <= i < |names| => names[i]);
    assert roots[..] == names;
    SortInPlace(roots);
    SortedIsSpec(names, roots[..], SeatChildren(disk.fs, base) - skipped);
    return Some(roots[..]), skipped;
  }

  /** Open one root after another. Reading its files may fail. */
  method LoadEach<K>(disk: Disk<Doc>, load: string -> Result<(SeatId, K), StoreError>, roots: seq<string>)
      returns (res: Result<map<SeatId, K>, StoreError>)
    ensures res == Err(Io) || res == LoadFrom(load, roots, map[])
    ensures disk.calm ==> res == LoadFrom(load, roots, map[])
  {
    var kps: map<SeatId, K> := map[];
    assert roots[0..] == roots;
    for k := 0 to |roots|
      invariant LoadFrom(load, roots, map[]) == LoadFrom(load, roots[k..], kps)
    {
      assert roots[k..][0] == roots[k] && roots[k..][1..] == roots[k + 1..];
      var fault := disk.Faulty();
      if fault {
        return Err(Io);
      }
      var one := load(roots[k]);
      if one.Err? {
        return Err(one.error);
      }
      kps := kps[one.value.0 := one.value.1];
    }
    res := Ok(kps);
  }

  /** Discover the seat roots, sort them, and load the first `t`: whatever order the directory is
      enumerated in, the result is the one that the files determine, unless a read fails. Directory
      entries that could not be read are `skipped`. */
  method LoadPersistedShares<K(!new), G(!new)>(
      disk: Disk<Doc>, base: Path, codec: Codec<K, G>, t: u16, passphrase: Result<string, StoreError>)
      returns (res: Result<(map<SeatId, K>, G), GlueError>, skipped: set<string>)
    requires t > 0
    ensures ReadFailed(res) || res == LoadSpec(codec, disk.fs, base, skipped, t, passphrase)
    ensures disk.calm && base in disk.fs.dirs ==> skipped == {} && res == LoadSpec(codec, disk.fs, base, {}, t, passphrase)
  {
    var roots;
    roots, skipped := DiscoverRoots(disk, base);
    if roots.None? {
      return Err(CannotRead), skipped;
    }
    res := LoadFirst(disk, base, codec, roots.value, t, passphrase);
  }

  /** Load the first `t` of the roots and the group of the first. */
  method LoadFirst<K(!new), G(!new)>(
      disk: Disk<Doc>, base: Path, codec: Codec<K, G>, roots: seq<string>, t: u16, passphrase: Result<string, StoreError>)
      returns (res: Result<(map<SeatId, K>, G), GlueError>)
    requires t > 0
    ensures ReadFailed(res) || res == FromRoots(codec, disk.fs, base, roots, t, passphrase)
    ensures disk.calm ==> res == FromRoots(codec, disk.fs, base, roots, t, passphrase)
  {
    if |roots| < t {
      return Err(Insufficient(|roots|));
    }
    if passphrase.Err? {
      return Err(StoreFailed(passphrase.error));
    }
    var kps := LoadEach(disk, Loader(codec, disk.fs, base, passphrase), roots[..t]);
    if kps.Err? {
      return Err(StoreFailed(kps.error));
    }
    var fault := disk.Faulty();
    if fault {
      return Err(StoreFailed(Io));
    }
    var group := LoadGroup(codec, disk.fs, SeatRoot(base, roots[0]));
    if group.Err? {
      return Err(group.error);
    }
    res := Ok((kps.value, group.value));
  }

  /** The listing or the reading of a file failed. */
  predicate ReadFailed<K, G>(res: Result<(map<SeatId, K>, G), GlueError>) {
    res.Err? && (res.error == CannotRead || res.error == StoreFailed(Io))
  }

  // ---- the round trip ----

  lemma IndexLoads<K, G>(
      c: Codec<K, G>, fs: StoreFs, root: Path, pass: string, seat: SeatId, kp: K, group: G) returns (e: ShareEntry)
    requires SeatStored(c, fs, root, pass, seat, kp, group)
    ensures LoadManifest(fs, root) == Ok([e]) && TagOf(e) == IndexTag(GenesisTag(seat)) && e.state == Active
  {
    var createdAt: u64 :| Settled(fs, PathOf(root, ManifestKey),
      ManifestDoc(CURRENT_SCHEMA_VERSION, [EntryOf(GenesisTag(seat), Active, createdAt)]));
    e := EntryOf(GenesisTag(seat), Active, createdAt);
    SettledShows(fs, PathOf(root, ManifestKey), ManifestDoc(CURRENT_SCHEMA_VERSION, [e]));
  }

  lemma KeyLoads<K(!new), G(!new)>(
      c: Codec<K, G>, fs: StoreFs, root: Path, pass: string, seat: SeatId, kp: K, group: G)
    requires Lawful(c) && SeatStored(c, fs, root, pass, seat, kp, group)
    ensures LoadShare(c, fs, root, Ok(pass), GenesisTag(seat)) == Ok(kp)
  {
    var tag := GenesisTag(seat);
    var salt :| Settled(fs, PathOf(root, ShareAt(tag)), Sealed(pass, salt, c.writeKey(kp).value));
    SealedLoads(c, fs, root, pass, tag, kp, salt);
  }

  lemma GroupIsRead<K(!new), G(!new)>(
      c: Codec<K, G>, fs: StoreFs, root: Path, pass: string, seat: SeatId, kp: K, group: G)
    requires Lawful(c) && SeatStored(c, fs, root, pass, seat, kp, group)
    ensures LoadGroup(c, fs, root) == Ok(group)
  {
    SettledShows(fs, PathOf(root, PublicAt(GenesisTag(seat))), EnvelopeDoc(ACTIVE, 0, Hex(c.writeGroup(group).value)));
    UnhexHex(c.writeGroup(group).value);
  }

  lemma ActiveLoads<K, G>(c: Codec<K, G>, fs: StoreFs, root: Path, pass: string, seat: SeatId, e: ShareEntry, kp: K)
    requires LoadManifest(fs, root) == Ok([e]) && TagOf(e) == IndexTag(GenesisTag(seat)) && e.state == Active
    requires LoadShare(c, fs, root, Ok(pass), GenesisTag(seat)) == Ok(kp)
    ensures LoadOnlyActive(c, fs, root, Ok(pass)) == Ok((seat, kp))
  {
    assert FirstActive([e]) == Some(e);
    SeatRoundTrip(seat);
  }

  /** A stored seat is the sole active share of its root. */
  lemma SeatLoads<K(!new), G(!new)>(
      c: Codec<K, G>, fs: StoreFs, root: Path, pass: string, seat: SeatId, kp: K, group: G)
    requires Lawful(c) && SeatStored(c, fs, root, pass, seat, kp, group)
    ensures LoadOnlyActive(c, fs, root, Ok(pass)) == Ok((seat, kp))
  {
    var e := IndexLoads(c, fs, root, pass, seat, kp, group);
    KeyLoads(c, fs, root, pass, seat, kp, group);
    ActiveLoads(c, fs, root, pass, seat, e, kp);
  }

  lemma ListedIsRoot(fs: StoreFs, base: Path, n: nat, name: string)
    requires OnlyRoots(fs, base, n) && name in Children(fs, base)
    ensures name in NamesUpTo(n)
  {
    if p :| p in fs.now.Keys && base < p && p[|base|] == name {
      assert Look(fs, p) in Possible(fs, p);
      assert UnderRoots(p, base, n);
    }
  }

  /** The listing of a persisted base is the names of its seats. */
  lemma ListingIsSeats<K, G>(
      c: Codec<K, G>, fs: StoreFs, base: Path, pass: string, n: nat, shares: map<Identifier, K>, group: G)
    requires BasePersisted(c, fs, base, pass, n, shares, group)
    ensures SeatChildren(fs, base) == NamesUpTo(n)
  {
    forall name | name in SeatChildren(fs, base) ensures name in NamesUpTo(n) {
      ListedIsRoot(fs, base, n, name);
    }
    forall i | 1 <= i <= n ensures SeatName(i) in SeatChildren(fs, base) {
      SeatIsListed(c, fs, base, pass, i, shares[i], group);
    }
  }

  lemma SeatIsListed<K, G>(c: Codec<K, G>, fs: StoreFs, base: Path, pass: string, i: nat, kp: K, group: G)
    requires 1 <= i < 0x1_0000 && SeatStored(c, fs, SeatRoot(base, SeatName(i)), pass, i, kp, group)
    ensures SeatName(i) in SeatChildren(fs, base)
  {
    var root := SeatRoot(base, SeatName(i));
    PathOfIsFinal(root, ManifestKey);
    var p := PathOf(root, ManifestKey);
    var createdAt: u64 :| Settled(fs, p, ManifestDoc(CURRENT_SCHEMA_VERSION, [EntryOf(GenesisTag(i), Active, createdAt)]));
    SettledShows(fs, p, ManifestDoc(CURRENT_SCHEMA_VERSION, [EntryOf(GenesisTag(i), Active, createdAt)]));
    assert p in fs.now.Keys && base < p && p[|base|] == root[|base|] == SeatName(i);
    assert SeatName(i) in Children(fs, base);
  }

  /** `sel` names some of the seats `1..=n`, each once. */
  ghost predicate Selection(sel: seq<string>, n: nat) {
    && (forall i, j :: 0 <= i < j < |sel| ==> sel[i] != sel[j])
    && forall k :: 0 <= k < |sel| ==> sel[k] in NamesUpTo(n)
  }

  ghost predicate Loaded<K>(
      before: map<SeatId, K>, after: map<SeatId, K>, sel: seq<string>, n: nat, shares: map<Identifier, K>)
  {
    && |after| == |before| + |sel|
    && (forall id :: id in after <==> id in before || (1 <= id <= n && SeatName(id) in sel))
    && forall id :: id in after ==> if id in before then after[id] == before[id] else id in shares && after[id] == shares[id]
  }

  /** Opening the root of any of the seats yields that seat and its share. */
  ghost predicate Opens<K>(load: string -> Result<(SeatId, K), StoreError>, n: nat, shares: map<Identifier, K>)
    requires n < 0x1_0000
  {
    forall i :: 1 <= i <= n ==> i in shares && load(SeatName(i)) == Ok((i, shares[i]))
  }

  /** It yields that or an error. */
  ghost predicate OpensOnly<K>(load: string -> Result<(SeatId, K), StoreError>, n: nat, shares: map<Identifier, K>)
    requires n < 0x1_0000
  {
    forall i :: 1 <= i <= n ==> i in shares && (load(SeatName(i)).Ok? ==> load(SeatName(i)) == Ok((i, shares[i])))
  }

  lemma LoaderOpens<K(!new), G(!new)>(
      c: Codec<K, G>, fs: StoreFs, base: Path, pass: string, n: nat, shares: map<Identifier, K>, group: G)
    requires Lawful(c) && BasePersisted(c, fs, base, pass, n, shares, group)
    ensures Opens(Loader(c, fs, base, Ok(pass)), n, shares)
  {
    forall i | 1 <= i <= n ensures Loader(c, fs, base, Ok(pass))(SeatName(i)) == Ok((i, shares[i])) {
      assert SeatStored(c, fs, SeatRoot(base, SeatName(i)), pass, i, shares[i], group);
      SeatLoads(c, fs, SeatRoot(base, SeatName(i)), pass, i, shares[i], group);
    }
  }

  lemma {:induction false} SelectionOpens<K>(
      load: string -> Result<(SeatId, K), StoreError>, n: nat, shares: map<Identifier, K>, sel: seq<string>, kps: map<SeatId, K>)
    requires n < 0x1_0000 && Opens(load, n, shares) && Selection(sel, n)
    ensures LoadFrom(load, sel, kps).Ok?
    decreases |sel|
  {
    if sel != [] {
      assert sel[0] in NamesUpTo(n);
      var i :| 1 <= i <= n && SeatName(i) == sel[0];
      SelectionOpens(load, n, shares, sel[1..], kps[i := shares[i]]);
    }
  }

  lemma {:induction false} SelectionLoads<K>(
      load: string -> Result<(SeatId, K), StoreError>, n: nat, shares: map<Identifier, K>, sel: seq<string>, kps: map<SeatId, K>)
    requires n < 0x1_0000 && OpensOnly(load, n, shares) && Selection(sel, n) && LoadFrom(load, sel, kps).Ok?
    requires forall id :: id in kps ==> 1 <= id <= n && SeatName(id) !in sel
    ensures Loaded(kps, LoadFrom(load, sel, kps).value, sel, n, shares)
    decreases |sel|
  {
    if sel != [] {
      assert sel[0] in NamesUpTo(n);
      var i :| 1 <= i <= n && SeatName(i) == sel[0];
      assert SeatName(i) in sel && i !in kps;
      var kps' := kps[i := shares[i]];
      AddedKeyCounts(kps, i, shares[i]);
      assert forall x :: x in sel[1..] ==> x in sel && x != sel[0];
      SelectionLoads(load, n, shares, sel[1..], kps');
      LoadedStep(kps, LoadFrom(load, sel[1..], kps').value, sel, n, shares, i);
    }
  }

  lemma LoadedStep<K>(
      before: map<SeatId, K>, after: map<SeatId, K>, sel: seq<string>, n: nat, shares: map<Identifier, K>, i: SeatId)
    requires sel != [] && 1 <= i <= n <= 65535 && i in shares && i !in before && SeatName(i) == sel[0]
    requires |before[i := shares[i]]| == |before| + 1 && SeatName(i) !in sel[1..]
    requires Loaded(before[i := shares[i]], after, sel[1..], n, shares)
    ensures Loaded(before, after, sel, n, shares)
  {
    var mid := before[i := shares[i]];
    forall id: SeatId ensures id in after <==> id in before || (1 <= id <= n && SeatName(id) in sel) {
      assert sel == [sel[0]] + sel[1..];
      if 1 <= id <= n && SeatName(id) == sel[0] {
        NameInjective(id, i);
      }
      assert id in after <==> id in mid || (1 <= id <= n && SeatName(id) in sel[1..]);
    }
  }

  /** The names that are listed: those of the seats, less the skipped. */
  lemma RootsOfBase<K, G>(
      c: Codec<K, G>, fs: StoreFs, base: Path, pass: string, n: nat, shares: map<Identifier, K>, group: G,
      skipped: set<string>, roots: seq<string>)
    requires BasePersisted(c, fs, base, pass, n, shares, group) && roots == SortedNames(SeatChildren(fs, base) - skipped)
    ensures LexSorted(roots) && |roots| == |NamesUpTo(n) - skipped|
    ensures forall x :: x in roots <==> x in NamesUpTo(n) - skipped
  {
    ListingIsSeats(c, fs, base, pass, n, shares, group);
  }

  lemma PrefixSelects(roots: seq<string>, n: nat, t: nat)
    requires LexSorted(roots) && t <= |roots| && forall x :: x in roots ==> x in NamesUpTo(n)
    ensures Selection(roots[..t], n)
  {
    var sel := roots[..t];
    forall i, j | 0 <= i < j < |sel| ensures sel[i] != sel[j] {
      LexTotal(sel[i], sel[j]);
    }
    forall k | 0 <= k < |sel| ensures sel[k] in NamesUpTo(n) {
      assert sel[k] == roots[k] && roots[k] in roots;
    }
  }

  /** The `t` loaded seats are the `t` smallest. */
  ghost predicate SmallestSeats<K>(kps: map<SeatId, K>, t: nat) {
    forall id: SeatId :: id in kps <==> id <= t
  }

  lemma SmallestExactly<K>(kps: map<SeatId, K>, roots: seq<string>, n: nat, t: nat)
    requires LexSorted(roots) && t <= n <= 65535 && forall x :: x in roots <==> x in NamesUpTo(n)
    requires |roots| == n && forall id: SeatId :: id in kps <==> 1 <= id <= n && SeatName(id) in roots[..t]
    ensures SmallestSeats(kps, t) <==> n <= 9999 || t <= 1000 || t == n
  {
    FirstRoots(roots, n, t);
    if FirstAre(roots, n, t) {
      assert SmallestSeats(kps, t);
    }
    if SmallestSeats(kps, t) {
      forall i | 1 <= i <= n ensures SeatName(i) in roots[..t] <==> i <= t {
        var id: SeatId := i;
        assert id in kps <==> id <= t;
      }
    }
  }

  /** `t` seats, each with its own key package, and the group. */
  ghost predicate Genuine<K, G>(loaded: (map<SeatId, K>, G), t: nat, shares: map<Identifier, K>, group: G) {
    loaded.1 == group && |loaded.0| == t && forall id :: id in loaded.0 ==> id in shares && loaded.0[id] == shares[id]
  }

  /** What loading yields when `listed` of the `n` persisted seats are listed. */
  ghost predicate LoadsListed<K, G>(
      res: Result<(map<SeatId, K>, G), GlueError>, listed: nat, n: nat, t: nat, shares: map<Identifier, K>, group: G)
  {
    if listed < t then res == Err(Insufficient(listed)) else
      && res.Ok? && Genuine(res.value, t, shares, group)
      && (listed == n ==> (SmallestSeats(res.value.0, t) <==> n <= 9999 || t <= 1000 || t == n))
  }

  /** Whatever was persisted is loaded, if at least `t` of the seats are listed; otherwise their number is
      reported. If all are, the loaded seats are the `t` smallest exactly when the zero-padded names keep
      those first. */
  lemma PersistedLoads<K(!new), G(!new)>(
      c: Codec<K, G>, fs: StoreFs, base: Path, pass: string, n: nat, shares: map<Identifier, K>, group: G,
      skipped: set<string>, t: u16)
    requires Lawful(c) && BasePersisted(c, fs, base, pass, n, shares, group) && 1 <= t
    ensures LoadsListed(LoadSpec(c, fs, base, skipped, t, Ok(pass)), |NamesUpTo(n) - skipped|, n, t, shares, group)
    ensures skipped == {} ==> |NamesUpTo(n) - skipped| == n
  {
    var roots := SortedNames(SeatChildren(fs, base) - skipped);
    RootsOfBase(c, fs, base, pass, n, shares, group, skipped, roots);
    CountListed(n, skipped);
    ListedLoads(c, fs, base, pass, n, shares, group, t, roots);
  }

  lemma CountListed(n: nat, skipped: set<string>)
    requires n <= 65535
    ensures |NamesUpTo(n) - skipped| == n ==> NamesUpTo(n) - skipped == NamesUpTo(n)
    ensures skipped == {} ==> |NamesUpTo(n) - skipped| == n
  {
    NamesCount(n);
    var listed := NamesUpTo(n) - skipped;
    assert NamesUpTo(n) == listed + (NamesUpTo(n) - listed);
    assert skipped == {} ==> listed == NamesUpTo(n);
  }

  lemma ListedLoads<K(!new), G(!new)>(
      c: Codec<K, G>, fs: StoreFs, base: Path, pass: string, n: nat, shares: map<Identifier, K>, group: G, t: u16, roots: seq<string>)
    requires Lawful(c) && BasePersisted(c, fs, base, pass, n, shares, group) && 1 <= t
    requires LexSorted(roots) && forall x :: x in roots ==> x in NamesUpTo(n)
    requires |roots| == n ==> forall x :: x in NamesUpTo(n) ==> x in roots
    ensures LoadsListed(FromRoots(c, fs, base, roots, t, Ok(pass)), |roots|, n, t, shares, group)
  {
    if t <= |roots| {
      LoaderOpens(c, fs, base, pass, n, shares, group);
      GroupOfRoot(c, fs, base, pass, n, shares, group, roots[0]);
      RootsLoad(c, fs, base, pass, n, shares, group, t, roots);
    }
  }

  lemma RootsLoad<K, G>(
      c: Codec<K, G>, fs: StoreFs, base: Path, pass: string, n: nat, shares: map<Identifier, K>, group: G, t: u16, roots: seq<string>)
    requires LexSorted(roots) && n <= 65535 && forall x :: x in roots ==> x in NamesUpTo(n)
    requires |roots| == n ==> forall x :: x in NamesUpTo(n) ==> x in roots
    requires 1 <= t <= |roots| && Opens(Loader(c, fs, base, Ok(pass)), n, shares)
    requires LoadGroup(c, fs, SeatRoot(base, roots[0])) == Ok(group)
    ensures LoadsListed(FromRoots(c, fs, base, roots, t, Ok(pass)), |roots|, n, t, shares, group)
  {
    var load := Loader(c, fs, base, Ok(pass));
    PrefixSelects(roots, n, t);
    SelectionOpens(load, n, shares, roots[..t], map[]);
    FirstLoads(load, roots, n, shares, t);
  }

  /** Loading the first `t` of sorted roots. */
  lemma FirstLoads<K>(
      load: string -> Result<(SeatId, K), StoreError>, roots: seq<string>, n: nat, shares: map<Identifier, K>, t: nat)
    requires LexSorted(roots) && n <= 65535 && forall x :: x in roots ==> x in NamesUpTo(n)
    requires t <= |roots| && OpensOnly(load, n, shares) && LoadFrom(load, roots[..t], map[]).Ok?
    ensures var kps := LoadFrom(load, roots[..t], map[]).value;
      && |kps| == t && (forall id :: id in kps ==> id in shares && kps[id] == shares[id])
      && (|roots| == n && (forall x :: x in NamesUpTo(n) ==> x in roots) ==>
            (SmallestSeats(kps, t) <==> n <= 9999 || t <= 1000 || t == n))
  {
    PrefixSelects(roots, n, t);
    SelectionLoads(load, n, shares, roots[..t], map[]);
    if |roots| == n && forall x :: x in NamesUpTo(n) ==> x in roots {
      SmallestExactly(LoadFrom(load, roots[..t], map[]).value, roots, n, t);
    }
  }

  lemma GroupOfRoot<K(!new), G(!new)>(
      c: Codec<K, G>, fs: StoreFs, base: Path, pass: string, n: nat, shares: map<Identifier, K>, group: G, name: string)
    requires Lawful(c) && BasePersisted(c, fs, base, pass, n, shares, group) && name in NamesUpTo(n)
    ensures LoadGroup(c, fs, SeatRoot(base, name)) == Ok(group)
  {
    var i :| 1 <= i <= n && SeatName(i) == name;
    assert SeatStored(c, fs, SeatRoot(base, SeatName(i)), pass, i, shares[i], group);
    GroupIsRead(c, fs, SeatRoot(base, SeatName(i)), pass, i, shares[i], group);
  }

  /** Fewer listed seats than the threshold are refused with their number, whatever the files hold. */
  lemma TooFewSeats<K, G>(
      c: Codec<K, G>, fs: StoreFs, base: Path, pass: string, n: nat, shares: map<Identifier, K>, group: G,
      skipped: set<string>, t: u16, secret: Result<string, StoreError>)
    requires BasePersisted(c, fs, base, pass, n, shares, group) && |NamesUpTo(n) - skipped| < t
    ensures LoadSpec(c, fs, base, skipped, t, secret) == Err(Insufficient(|NamesUpTo(n) - skipped|))
  {
    RootsOfBase(c, fs, base, pass, n, shares, group, skipped, SortedNames(SeatChildren(fs, base) - skipped));
  }

  /** Why the group cannot be read: no file, a file that is no envelope, or an envelope with a bad package. */
  lemma GroupFailsWith<K, G>(c: Codec<K, G>, fs: StoreFs, root: Path)
    ensures var found := DocAt(fs, PathOf(root, PublicKey(ACTIVE, 0)));
      && (found.None? ==> LoadGroup(c, fs, root) == Err(StoreFailed(Io)))
      && (found.Some? && !found.value.EnvelopeDoc? ==> LoadGroup(c, fs, root) == Err(StoreFailed(Json)))
      && (found.Some? && found.value.EnvelopeDoc? && DecodePackage(c, found.value).None? ==> LoadGroup(c, fs, root) == Err(BadPackage))
  {
  }

  // ---- what else is in the base ----

  lemma {:induction false} LoadFromSame<K>(
      f: string -> Result<(SeatId, K), StoreError>, g: string -> Result<(SeatId, K), StoreError>, roots: seq<string>, kps: map<SeatId, K>)
    requires forall i :: 0 <= i < |roots| ==> f(roots[i]) == g(roots[i])
    ensures LoadFrom(f, roots, kps) == LoadFrom(g, roots, kps)
    decreases |roots|
  {
    if roots != [] && f(roots[0]).Ok? {
      LoadFromSame(f, g, roots[1..], kps[f(roots[0]).value.0 := f(roots[0]).value.1]);
    }
  }

  /** Files of a name below the base that is no seat root's are not even looked at. */
  lemma ForeignNamesIgnored<K, G>(
      c: Codec<K, G>, fs: StoreFs, base: Path, skipped: set<string>, t: u16, secret: Result<string, StoreError>,
      p: Path, e: Option<File<Doc>>)
    requires t > 0 && base < p && !("seat-" <= p[|base|])
    ensures LoadSpec(c, SetEntry(fs, p, e), base, skipped, t, secret) == LoadSpec(c, fs, base, skipped, t, secret)
  {
    var other := SetEntry(fs, p, e);
    SameSeatChildren(fs, base, p, e);
    var roots := SortedNames(SeatChildren(fs, base) - skipped);
    forall i | 0 <= i < |roots| ensures SameDocs(other, fs, SeatRoot(base, roots[i])) {
      assert roots[i] in roots;
      SeatRootSame(fs, base, roots[i], p, e);
    }
    RootsReadSame(c, other, fs, base, roots, t, secret);
  }

  lemma RootsReadSame<K, G>(
      c: Codec<K, G>, a: StoreFs, b: StoreFs, base: Path, roots: seq<string>, t: u16, secret: Result<string, StoreError>)
    requires t > 0 && forall i :: 0 <= i < |roots| ==> SameDocs(a, b, SeatRoot(base, roots[i]))
    ensures FromRoots(c, a, base, roots, t, secret) == FromRoots(c, b, base, roots, t, secret)
  {
    if t <= |roots| {
      forall i | 0 <= i < t ensures Loader(c, a, base, secret)(roots[..t][i]) == Loader(c, b, base, secret)(roots[..t][i]) {
        ActiveReadsSame(c, a, b, SeatRoot(base, roots[i]), secret);
      }
      LoadFromSame(Loader(c, a, base, secret), Loader(c, b, base, secret), roots[..t], map[]);
      GroupReadsSame(c, a, b, SeatRoot(base, roots[0]));
    }
  }

  lemma SameSeatChildren(fs: StoreFs, base: Path, p: Path, e: Option<File<Doc>>)
    requires base < p && !IsSeatName(p[|base|])
    ensures SeatChildren(SetEntry(fs, p, e), base) == SeatChildren(fs, base)
  {
    var other := SetEntry(fs, p, e);
    forall name | IsSeatName(name) ensures name in Children(other, base) <==> name in Children(fs, base) {
      if q :| q in fs.now.Keys && base < q && q[|base|] == name {
        assert q in other.now.Keys;
      }
      if q :| q in other.now.Keys && base < q && q[|base|] == name {
        assert q in fs.now.Keys;
      }
    }
  }

  /** The two file systems show the same at every key of the root. */
  ghost predicate SameDocs(a: StoreFs, b: StoreFs, root: Path) {
    forall k :: ValidKey(k) ==> DocAt(a, PathOf(root, k)) == DocAt(b, PathOf(root, k))
  }

  lemma ActiveReadsSame<K, G>(c: Codec<K, G>, a: StoreFs, b: StoreFs, root: Path, secret: Result<string, StoreError>)
    requires SameDocs(a, b, root)
    ensures LoadOnlyActive(c, a, root, secret) == LoadOnlyActive(c, b, root, secret)
  {
    assert ValidKey(ManifestKey);
    assert LoadManifest(a, root) == LoadManifest(b, root);
    forall tag ensures LoadShare(c, a, root, secret, tag) == LoadShare(c, b, root, secret, tag) {
      ShareReadsSame(c, a, b, root, secret, tag);
    }
  }

  lemma ShareReadsSame<K, G>(c: Codec<K, G>, a: StoreFs, b: StoreFs, root: Path, secret: Result<string, StoreError>, tag: ShareTag)
    requires SameDocs(a, b, root)
    ensures LoadShare(c, a, root, secret, tag) == LoadShare(c, b, root, secret, tag)
  {
    assert ValidKey(ShareAt(tag));
  }

  lemma GroupReadsSame<K, G>(c: Codec<K, G>, a: StoreFs, b: StoreFs, root: Path)
    requires SameDocs(a, b, root)
    ensures LoadGroup(c, a, root) == LoadGroup(c, b, root)
  {
    assert ValidKey(PublicKey(ACTIVE, 0));
  }

  lemma SeatRootSame(fs: StoreFs, base: Path, name: string, p: Path, e: Option<File<Doc>>)
    requires base < p && !IsSeatName(p[|base|]) && IsSeatName(name)
    ensures SameDocs(SetEntry(fs, p, e), fs, SeatRoot(base, name))
  {
    var root, other := SeatRoot(base, name), SetEntry(fs, p, e);
    forall k | ValidKey(k) ensures DocAt(other, PathOf(root, k)) == DocAt(fs, PathOf(root, k)) {
      PathOfIsFinal(root, k);
      ElsewhereSame(fs, base, root, name, PathOf(root, k), p, e);
    }
  }

  lemma ElsewhereSame(fs: StoreFs, base: Path, root: Path, name: string, q: Path, p: Path, e: Option<File<Doc>>)
    requires base < p && root == SeatRoot(base, name) && root < q && p[|base|] != name
    ensures DocAt(SetEntry(fs, p, e), q) == DocAt(fs, q)
  {
    assert q[|base|] == root[|base|] == name;
    assert Look(SetEntry(fs, p, e), q) == Look(fs, q);
  }

  // ---- loading after an interrupted persist ----

  /** What the manifest of a sound root indexes is the genesis share of its seat. */
  lemma SoundEntry<K(!new), G(!new)>(
      c: Codec<K, G>, fs: StoreFs, root: Path, pass: string, seat: SeatId, kp: K, group: G, shares: seq<ShareEntry>, e: ShareEntry)
    requires RootSound(c, fs, root, pass, seat, kp, group) && LoadManifest(fs, root) == Ok(shares) && e in shares
    ensures TagOf(e) == IndexTag(GenesisTag(seat))
  {
    var puts := {GenesisPut(seat, pass, kp, group)};
    var acked := AckedOf(c, fs, root, pass, seat, kp, group);
    LoadedIsLegit(c, fs, root, puts, acked, PathOf(root, ManifestKey), shares);
    assert TagPut(puts, TagOf(e));
  }

  /** What is stored at the seat's tag is its share, encrypted under the passphrase. */
  lemma SoundShare<K(!new), G(!new)>(
      c: Codec<K, G>, fs: StoreFs, root: Path, pass: string, seat: SeatId, kp: K, group: G, secret: Result<string, StoreError>)
    requires Lawful(c) && RootSound(c, fs, root, pass, seat, kp, group)
    ensures LoadShare(c, fs, root, secret, GenesisTag(seat)).Ok? ==>
      secret == Ok(pass) && LoadShare(c, fs, root, secret, GenesisTag(seat)) == Ok(kp)
  {
    var p := PathOf(root, ShareAt(GenesisTag(seat)));
    assert Look(fs, p) in Possible(fs, p);
    if Look(fs, p).Some? {
      assert Legit(c, {GenesisPut(seat, pass, kp, group)}, ShareAt(GenesisTag(seat)), DocAt(fs, p).value);
    }
  }

  /** Opening a sound root yields its seat and its share, or an error. */
  lemma SoundOpens<K(!new), G(!new)>(
      c: Codec<K, G>, fs: StoreFs, root: Path, pass: string, seat: SeatId, kp: K, group: G, secret: Result<string, StoreError>)
    requires Lawful(c) && RootSound(c, fs, root, pass, seat, kp, group)
    ensures LoadOnlyActive(c, fs, root, secret).Ok? ==>
      secret == Ok(pass) && LoadOnlyActive(c, fs, root, secret) == Ok((seat, kp))
  {
    var loaded := LoadManifest(fs, root);
    if loaded.Ok? && FirstActive(loaded.value).Some? {
      var e := FirstActive(loaded.value).value;
      SoundEntry(c, fs, root, pass, seat, kp, group, loaded.value, e);
      SeatRoundTrip(seat);
      SoundShare(c, fs, root, pass, seat, kp, group, secret);
    }
  }

  /** The group of a sound root is the ceremony's, or an error. */
  lemma SoundGroup<K(!new), G(!new)>(c: Codec<K, G>, fs: StoreFs, root: Path, pass: string, seat: SeatId, kp: K, group: G)
    requires Lawful(c) && RootSound(c, fs, root, pass, seat, kp, group)
    ensures LoadGroup(c, fs, root).Ok? ==> LoadGroup(c, fs, root) == Ok(group)
  {
    var p := PathOf(root, PublicAt(GenesisTag(seat)));
    assert Look(fs, p) in Possible(fs, p);
    if Look(fs, p).Some? {
      assert Legit(c, {GenesisPut(seat, pass, kp, group)}, PublicAt(GenesisTag(seat)), DocAt(fs, p).value);
      var bytes :| c.writeGroup(group) == Some(bytes) && DocAt(fs, p).value == EnvelopeDoc(ACTIVE, 0, Hex(bytes));
      UnhexHex(bytes);
    }
  }

  lemma SoundListing<K, G>(
      c: Codec<K, G>, fs: StoreFs, base: Path, pass: string, n: nat, shares: map<Identifier, K>, group: G)
    requires BaseSound(c, fs, base, pass, n, shares, group)
    ensures SeatChildren(fs, base) <= NamesUpTo(n)
  {
    forall name | name in SeatChildren(fs, base) ensures name in NamesUpTo(n) {
      ListedIsRoot(fs, base, n, name);
    }
  }

  lemma LoaderSound<K(!new), G(!new)>(
      c: Codec<K, G>, fs: StoreFs, base: Path, pass: string, n: nat, shares: map<Identifier, K>, group: G,
      secret: Result<string, StoreError>)
    requires Lawful(c) && BaseSound(c, fs, base, pass, n, shares, group)
    ensures OpensOnly(Loader(c, fs, base, secret), n, shares)
  {
    forall i | 1 <= i <= n
      ensures Loader(c, fs, base, secret)(SeatName(i)).Ok? ==> Loader(c, fs, base, secret)(SeatName(i)) == Ok((i, shares[i]))
    {
      assert RootSound(c, fs, SeatRoot(base, SeatName(i)), pass, i, shares[i], group);
      SoundOpens(c, fs, SeatRoot(base, SeatName(i)), pass, i, shares[i], group, secret);
    }
  }

  /** Whatever became of a persist, and whichever passphrase is tried: loading is an error or yields the
      group and exactly `t` seats, each with its own key package, under the right passphrase. */
  lemma SoundLoads<K(!new), G(!new)>(
      c: Codec<K, G>, fs: StoreFs, base: Path, pass: string, n: nat, shares: map<Identifier, K>, group: G,
      skipped: set<string>, t: u16, secret: Result<string, StoreError>)
    requires Lawful(c) && BaseSound(c, fs, base, pass, n, shares, group) && 1 <= t
    ensures LoadSpec(c, fs, base, skipped, t, secret).Ok? ==>
      secret == Ok(pass) && Genuine(LoadSpec(c, fs, base, skipped, t, secret).value, t, shares, group)
  {
    var roots := SortedNames(SeatChildren(fs, base) - skipped);
    SoundListing(c, fs, base, pass, n, shares, group);
    LoaderSound(c, fs, base, pass, n, shares, group, secret);
    if LoadSpec(c, fs, base, skipped, t, secret).Ok? {
      FirstLoads(Loader(c, fs, base, secret), roots, n, shares, t);
      FirstIsSound(c, fs, base, pass, n, shares, group, secret, roots[0]);
      assert roots[..t][0] == roots[0];
    }
  }

  lemma FirstIsSound<K(!new), G(!new)>(
      c: Codec<K, G>, fs: StoreFs, base: Path, pass: string, n: nat, shares: map<Identifier, K>, group: G,
      secret: Result<string, StoreError>, name: string)
    requires Lawful(c) && BaseSound(c, fs, base, pass, n, shares, group) && name in NamesUpTo(n)
    ensures LoadGroup(c, fs, SeatRoot(base, name)).Ok? ==> LoadGroup(c, fs, SeatRoot(base, name)) == Ok(group)
    ensures Loader(c, fs, base, secret)(name).Ok? ==> secret == Ok(pass)
  {
    var i :| 1 <= i <= n && SeatName(i) == name;
    assert RootSound(c, fs, SeatRoot(base, SeatName(i)), pass, i, shares[i], group);
    SoundOpens(c, fs, SeatRoot(base, name), pass, i, shares[i], group, secret);
    SoundGroup(c, fs, SeatRoot(base, name), pass, i, shares[i], group);
  }

  /** Key generation, persisting, a power loss, a restart, loading: the session gets shares of the
      reference ceremony or an error, even if persisting itself failed or lost power. If it succeeded, only
      a failing read can keep the session from its shares; on a calm disk nothing can. */
  method PersistThenLoad<S1, P1(!new), S2(!new), P2(!new), K(!new), G(!new)>(
      disk: Disk<Doc>, base: Path, codec: Codec<K, G>, dkg: Dkg<S1, P1, S2, P2, K, G>, t: u16, n: u16, rng: nat,
      sizes2: seq<nat>, sizes3: seq<nat>, pass: string)
      returns (res: Result<(map<SeatId, K>, G), GlueError>, persisted: bool, skipped: set<string>)
    requires Lawful(codec) && EmptyBase(disk.fs, base) && 1 <= t <= n
    modifies disk
    ensures res.Ok? || persisted ==> NaiveDkg(dkg, t, n, rng).0.Ok?
    ensures res.Ok? && (persisted || AllClean(old(disk.fs))) ==>
      var (shares, group) := NaiveDkg(dkg, t, n, rng).0.value;
      Genuine(res.value, t, shares, group)
    ensures disk.calm && NaiveDkg(dkg, t, n, rng).0.Ok? ==>
      var (shares, group) := NaiveDkg(dkg, t, n, rng).0.value;
      Writable(codec, shares, group) ==> persisted && res.Ok? && skipped == {}
    ensures persisted && skipped == {} && !ReadFailed(res) ==>
      res.Ok? && (SmallestSeats(res.value.0, t) <==> n <= 9999 || t <= 1000 || t == n)
  {
    ghost var start := disk.fs;
    skipped := {};
    var kept, rng' := PersistDkgShares(disk, base, codec, dkg, t, n, rng, sizes2, sizes3, Ok(pass));
    persisted := kept.Ok?;
    if kept.Err? && kept.error.KeygenFailed? {
      return Err(kept.error), persisted, skipped;
    }
    ghost var before := disk.fs;
    disk.Crash();
    res, skipped := LoadPersistedShares(disk, base, codec, t, Ok(pass));
    ghost var (shares, group) := NaiveDkg(dkg, t, n, rng).0.value;
    if persisted {
      PersistedSurvives(codec, before, disk.fs, base, pass, n, shares, group);
      PersistedLoads(codec, disk.fs, base, pass, n, shares, group, skipped, t);
    } else if AllClean(start) {
      SoundSurvives(codec, before, disk.fs, base, pass, n, shares, group);
      SoundLoads(codec, disk.fs, base, pass, n, shares, group, skipped, t, Ok(pass));
    }
  }
}
