/** A participant's share store: public envelope, then encrypted share, then the manifest.

    Files hold symbolic documents: parsing inverts printing, and decrypting with the passphrase used
    for encrypting gives the plaintext back, with any other passphrase an error. One process writes
    at a time. */
module ParticipantStores {
  import opened Wrappers
  import opened Text
  import opened FileSystem
  import opened Manifests
  import opened StorePaths

  datatype Doc =
    | ManifestDoc(version: u32, shares: seq<ShareEntry>)
    | EnvelopeDoc(keyId: string, epoch: u64, packageHex: string)
    | Sealed(pass: string, salt: nat, plaintext: seq<byte>)
    | Junk(bytes: seq<byte>)

  type StoreFs = Fs<Doc>

  /** The byte formats of key packages and public-key packages. */
  datatype Codec<!K, !G> = Codec(
    writeKey: K -> Option<seq<byte>>,
    readKey: seq<byte> -> Option<K>,
    writeGroup: G -> Option<seq<byte>>,
    readGroup: seq<byte> -> Option<G>)

  ghost predicate Lawful<K(!new), G(!new)>(c: Codec<K, G>) {
    && (forall k :: c.writeKey(k).Some? ==> c.readKey(c.writeKey(k).value) == Some(k))
    && (forall g :: c.writeGroup(g).Some? ==> c.readGroup(c.writeGroup(g).value) == Some(g))
  }

  datatype ShareTag = ShareTag(keyId: KeyId, epoch: u64, seat: SeatId)

  function IndexTag(tag: ShareTag): EntryTag {
    EntryTag(tag.keyId, tag.epoch, SeatHex(tag.seat))
  }

  function ShareAt(tag: ShareTag): (k: StoreKey)
    ensures ValidKey(k)
  {
    ShareKey(tag.keyId, tag.epoch, tag.seat)
  }

  function PublicAt(tag: ShareTag): (k: StoreKey)
    ensures ValidKey(k)
  {
    PublicKey(tag.keyId, tag.epoch)
  }

  function FilesOf(tag: ShareTag): set<StoreKey> {
    {PublicAt(tag)} + {ShareAt(tag)}
  }

  // ---- reading ----

  /** Parse a manifest, rejecting version 0 and versions of newer builds. */
  function FromJson(d: Doc): Result<seq<ShareEntry>, StoreError> {
    if !d.ManifestDoc? then Err(Json)
    else if d.version == 0 || d.version > CURRENT_SCHEMA_VERSION then Err(Schema)
    else Ok(d.shares)
  }

  /** An absent manifest is an empty one. */
  function LoadManifest(fs: StoreFs, root: Path): Result<seq<ShareEntry>, StoreError> {
    match DocAt(fs, PathOf(root, ManifestKey))
    case None => Ok([])
    case Some(d) => FromJson(d)
  }

  function Decrypt(pass: string, d: Doc): Result<seq<byte>, StoreError> {
    if d.Sealed? && d.pass == pass then Ok(d.plaintext) else Err(Age)
  }

  function LoadShare<K, G>(c: Codec<K, G>, fs: StoreFs, root: Path, pass: Result<string, StoreError>, tag: ShareTag)
      : Result<K, StoreError>
  {
    var secret :- pass;
    match DocAt(fs, PathOf(root, ShareAt(tag)))
    case None => Err(Io)
    case Some(d) =>
      var plaintext :- Decrypt(secret, d);
      match c.readKey(plaintext)
      case None => Err(FrostFormat)
      case Some(kp) => Ok(kp)
  }

  function LoadPublicEnvelope(fs: StoreFs, root: Path, keyId: KeyId, epoch: u64): Result<Doc, StoreError> {
    match DocAt(fs, PathOf(root, PublicKey(keyId, epoch)))
    case None => Err(Io)
    case Some(d) => if d.EnvelopeDoc? then Ok(d) else Err(Json)
  }

  /** The package inside an envelope, if its hex and its bytes are well formed. */
  function DecodePackage<K, G>(c: Codec<K, G>, d: Doc): Option<G>
    requires d.EnvelopeDoc?
  {
    match Unhex(d.packageHex)
    case None => None
    case Some(bytes) => c.readGroup(bytes)
  }

  /** A package is read only from well-formed hex, and only as its bytes read. */
  lemma PackageReadsExactly<K, G(!new)>(c: Codec<K, G>, d: Doc)
    requires d.EnvelopeDoc?
    ensures DecodePackage(c, d).Some? <==> Unhex(d.packageHex).Some? && c.readGroup(Unhex(d.packageHex).value).Some?
    ensures forall bytes, g :: d.packageHex == Hex(bytes) ==> (DecodePackage(c, d) == Some(g) <==> c.readGroup(bytes) == Some(g))
  {
    forall bytes | d.packageHex == Hex(bytes) ensures DecodePackage(c, d) == c.readGroup(bytes) {
      UnhexHex(bytes);
    }
  }

  function FirstActive(shares: seq<ShareEntry>): (r: Option<ShareEntry>)
    ensures r.Some? ==> exists i: nat :: FirstActiveAt(shares, i) && shares[i] == r.value
    ensures r.None? ==> forall e :: e in shares ==> e.state != Active
  {
    if shares == [] then None
    else if shares[0].state == Active then
      assert FirstActiveAt(shares, 0);
      Some(shares[0])
    else
      FirstActiveShifts(shares);
      FirstActive(shares[1..])
  }

  predicate FirstActiveAt(shares: seq<ShareEntry>, i: nat) {
    i < |shares| && shares[i].state == Active && forall j :: 0 <= j < i ==> shares[j].state != Active
  }

  lemma FirstActiveShifts(shares: seq<ShareEntry>)
    requires shares != [] && shares[0].state != Active
    ensures forall i: nat :: FirstActiveAt(shares[1..], i) ==> FirstActiveAt(shares, i + 1) && shares[i + 1] == shares[1..][i]
  {
    forall i: nat | FirstActiveAt(shares[1..], i) ensures FirstActiveAt(shares, i + 1) {
      forall j | 0 <= j < i + 1 ensures shares[j].state != Active {
        if j > 0 { assert shares[j] == shares[1..][j - 1]; }
      }
    }
  }

  ghost predicate NoneActive(shares: seq<ShareEntry>) {
    forall e :: e in shares ==> e.state != Active
  }

  /** After a put the active entries are the old ones with other tags, and the new one if it is active. */
  lemma ActivesAfterAdd(shares: seq<ShareEntry>, entry: ShareEntry, e: ShareEntry)
    requires DistinctTags(shares)
    ensures e in AddTo(shares, entry) && e.state == Active <==>
      e.state == Active && (e == entry || (e in shares && TagOf(e) != TagOf(entry)))
  {
    AddMembers(shares, entry, e);
  }

  lemma {:induction false} AddedInactive(shares: seq<ShareEntry>, entry: ShareEntry)
    requires NoneActive(shares)
    ensures entry.state != Active ==> NoneActive(AddTo(shares, entry))
    ensures entry.state == Active ==> FirstActive(AddTo(shares, entry)) == Some(entry)
  {
    if shares != [] {
      assert shares == [shares[0]] + shares[1..];
      if TagOf(shares[0]) != TagOf(entry) {
        AddedInactive(shares[1..], entry);
        assert AddTo(shares, entry)[1..] == AddTo(shares[1..], entry);
      }
    }
  }

  /** A manifest is read exactly if it parses and its version is one this build knows. */
  lemma VersionGate(d: Doc)
    ensures FromJson(d).Ok? <==> d.ManifestDoc? && 1 <= d.version <= CURRENT_SCHEMA_VERSION
    ensures FromJson(d).Ok? ==> FromJson(d) == Ok(d.shares)
    ensures d.ManifestDoc? && FromJson(d).Err? ==> FromJson(d) == Err(Schema)
  {
  }

  /** The share behind the first active entry of the manifest. */
  function LoadOnlyActive<K, G>(c: Codec<K, G>, fs: StoreFs, root: Path, pass: Result<string, StoreError>)
      : Result<(SeatId, K), StoreError>
  {
    var shares :- LoadManifest(fs, root);
    match FirstActive(shares)
    case None => Err(ManifestError)
    case Some(e) =>
      if !IsSafeId(e.keyId) then Err(ManifestError) else
      var seat :- SeatFromHex(e.seat);
      var kp :- LoadShare(c, fs, root, pass, ShareTag(e.keyId, e.epoch, seat));
      Ok((seat, kp))
  }

  /** A share is handed out exactly if the index is readable, its first active entry names a safe key id
      and a seat, and that seat's share loads. */
  lemma OnlyActiveExactly<K, G>(
      c: Codec<K, G>, fs: StoreFs, root: Path, pass: Result<string, StoreError>, shares: seq<ShareEntry>, i: nat, seat: SeatId)
    requires LoadManifest(fs, root) == Ok(shares) && FirstActiveAt(shares, i)
    ensures !IsSafeId(shares[i].keyId) || SeatFromHex(shares[i].seat).Err? ==> LoadOnlyActive(c, fs, root, pass).Err?
    ensures IsSafeId(shares[i].keyId) && SeatFromHex(shares[i].seat) == Ok(seat) ==>
      var loaded := LoadShare(c, fs, root, pass, ShareTag(shares[i].keyId, shares[i].epoch, seat));
      LoadOnlyActive(c, fs, root, pass) == if loaded.Ok? then Ok((seat, loaded.value)) else Err(loaded.error)
  {
    FirstActiveIs(shares, i);
  }

  lemma {:induction false} FirstActiveIs(shares: seq<ShareEntry>, i: nat)
    requires FirstActiveAt(shares, i)
    ensures FirstActive(shares) == Some(shares[i])
  {
    if i > 0 {
      assert shares[0].state != Active;
      forall j | 0 <= j < i - 1 ensures shares[1..][j].state != Active {
        assert shares[j + 1].state != Active;
      }
      FirstActiveIs(shares[1..], i - 1);
    }
  }

  /** Why a share cannot be loaded: no passphrase, no file, not encrypted under this passphrase, or not a key
      package. */
  lemma ShareFailsWith<K, G>(c: Codec<K, G>, fs: StoreFs, root: Path, pass: Result<string, StoreError>, tag: ShareTag)
    ensures var found, loaded := DocAt(fs, PathOf(root, ShareAt(tag))), LoadShare(c, fs, root, pass, tag);
      && (pass.Err? ==> loaded == Err(pass.error))
      && (pass.Ok? && found.None? ==> loaded == Err(Io))
      && (pass.Ok? && found.Some? && !(found.value.Sealed? && found.value.pass == pass.value) ==> loaded == Err(Age))
      && (pass.Ok? && found.Some? && found.value.Sealed? && found.value.pass == pass.value && c.readKey(found.value.plaintext).None? ==>
            loaded == Err(FrostFormat))
  {
  }

  // ---- what every crash and every restart finds ----

  /** One call of `PutShare` that got as far as its passphrase. */
  datatype Put<K, G> = Put(tag: ShareTag, pass: string, kp: K, group: G)

  ghost predicate SharePut<K, G>(c: Codec<K, G>, puts: set<Put<K, G>>, tag: ShareTag, d: Doc) {
    d.Sealed? && exists p :: p in puts && p.tag == tag && p.pass == d.pass && c.writeKey(p.kp) == Some(d.plaintext)
  }

  ghost predicate GroupPut<K, G>(c: Codec<K, G>, puts: set<Put<K, G>>, keyId: string, epoch: u64, d: Doc) {
    exists p, bytes :: p in puts && p.tag.keyId == keyId && p.tag.epoch == epoch
      && c.writeGroup(p.group) == Some(bytes) && d == EnvelopeDoc(keyId, epoch, Hex(bytes))
  }

  ghost predicate TagPut<K, G>(puts: set<Put<K, G>>, tag: EntryTag) {
    exists p :: p in puts && IndexTag(p.tag) == tag
  }

  ghost predicate ManifestPut<K, G>(puts: set<Put<K, G>>, d: Doc) {
    && d.ManifestDoc? && d.version == CURRENT_SCHEMA_VERSION && DistinctTags(d.shares)
    && forall e :: e in d.shares ==> TagPut(puts, TagOf(e))
  }

  /** A document that belongs at `k`: complete, and put there under exactly this key. */
  ghost predicate Legit<K, G>(c: Codec<K, G>, puts: set<Put<K, G>>, k: StoreKey, d: Doc) {
    match k
    case ManifestKey => ManifestPut(puts, d)
    case ShareKey(keyId, epoch, seat) => IsSafeId(keyId) && SharePut(c, puts, ShareTag(keyId, epoch, seat), d)
    case PublicKey(keyId, epoch) => GroupPut(c, puts, keyId, epoch, d)
    case RoundKey(_, _, _) => true
  }

  predicate Present(fs: StoreFs, p: Path) {
    None !in Possible(fs, p)
  }

  predicate Indexes(d: Doc, tag: ShareTag) {
    d.ManifestDoc? && LookupIn(d.shares, IndexTag(tag)).Some?
  }

  ghost predicate Backed(fs: StoreFs, root: Path, tag: ShareTag) {
    Present(fs, PathOf(root, ShareAt(tag))) && Present(fs, PathOf(root, PublicAt(tag)))
  }

  /** The share of `p` is found and indexed whatever a crash does. */
  ghost predicate Held<K, G>(c: Codec<K, G>, fs: StoreFs, root: Path, p: Put<K, G>) {
    HeldAt(c, fs, PathOf(root, ShareAt(p.tag)), p) && IndexedAt(fs, PathOf(root, ManifestKey), p.tag)
  }

  ghost predicate HeldAt<K, G>(c: Codec<K, G>, fs: StoreFs, at: Path, p: Put<K, G>) {
    forall o :: o in Possible(fs, at) ==>
      o.Some? && o.value.doc.Sealed? && o.value.doc.pass == p.pass && c.writeKey(p.kp) == Some(o.value.doc.plaintext)
  }

  ghost predicate IndexedAt(fs: StoreFs, at: Path, tag: ShareTag) {
    forall o :: o in Possible(fs, at) ==> o.Some? && Indexes(o.value.doc, tag)
  }

  ghost predicate AllLegit<K, G>(c: Codec<K, G>, fs: StoreFs, root: Path, puts: set<Put<K, G>>) {
    forall k, o :: ValidKey(k) && o in Possible(fs, PathOf(root, k)) && o.Some? ==> Legit(c, puts, k, o.value.doc)
  }

  ghost predicate AllBacked(fs: StoreFs, root: Path) {
    forall o, tag :: o in Possible(fs, PathOf(root, ManifestKey)) && o.Some? && Indexes(o.value.doc, tag) ==>
      Backed(fs, root, tag)
  }

  /** Of everything that may be found: final names are complete, every document was put there, every
      index entry has its two files, and what was acknowledged is held. */
  ghost predicate StoreInv<K, G>(c: Codec<K, G>, fs: StoreFs, root: Path, puts: set<Put<K, G>>, acked: set<Put<K, G>>) {
    && AllClean(fs) && AllLegit(c, fs, root, puts) && AllBacked(fs, root)
    && acked <= puts && forall p :: p in acked ==> Held(c, fs, root, p)
  }

  /** No file of the store at `root` exists or may come back. */
  ghost predicate NoStore(fs: StoreFs, root: Path) {
    AllClean(fs) && forall k :: ValidKey(k) ==> Possible(fs, PathOf(root, k)) == {None}
  }

  lemma NoStoreIsSound<K, G>(c: Codec<K, G>, fs: StoreFs, root: Path)
    requires NoStore(fs, root)
    ensures StoreInv(c, fs, root, {}, {})
  {
    assert ValidKey(ManifestKey);
  }

  /** Writing `d` at `k` respects the invariant. */
  ghost predicate MayWrite<K, G>(c: Codec<K, G>, fs: StoreFs, root: Path, puts: set<Put<K, G>>, acked: set<Put<K, G>>, k: StoreKey, d: Doc) {
    && ValidKey(k) && Legit(c, puts, k, d)
    && (k.ManifestKey? ==> forall tag :: Indexes(d, tag) ==> Backed(fs, root, tag))
    && (forall p :: p in acked ==> k != ShareAt(p.tag) && (k.ManifestKey? ==> Indexes(d, p.tag)))
  }

  /** Nothing new may be found at a key of the store. */
  ghost predicate KeysShrink(a: StoreFs, b: StoreFs, root: Path) {
    forall k :: ValidKey(k) ==> Possible(b, PathOf(root, k)) <= Possible(a, PathOf(root, k))
  }

  lemma ShrinkKeeps<K, G>(c: Codec<K, G>, a: StoreFs, b: StoreFs, root: Path, puts: set<Put<K, G>>, acked: set<Put<K, G>>)
    requires StoreInv(c, a, root, puts, acked) && AllClean(b) && KeysShrink(a, b, root)
    ensures StoreInv(c, b, root, puts, acked)
  {
    assert ValidKey(ManifestKey);
    forall o, tag | o in Possible(b, PathOf(root, ManifestKey)) && o.Some? && Indexes(o.value.doc, tag)
      ensures Backed(b, root, tag)
    {
      assert Backed(a, root, tag);
    }
    forall p | p in acked ensures Held(c, b, root, p) {
      assert Held(c, a, root, p);
    }
  }

  /** A power loss keeps the invariant. */
  lemma CrashKeeps<K, G>(c: Codec<K, G>, a: StoreFs, b: StoreFs, root: Path, puts: set<Put<K, G>>, acked: set<Put<K, G>>)
    requires StoreInv(c, a, root, puts, acked) && Crashed(a, b)
    ensures StoreInv(c, b, root, puts, acked)
  {
    CrashShrinks(a, b);
    forall k | ValidKey(k) ensures Possible(b, PathOf(root, k)) <= Possible(a, PathOf(root, k)) {
      PathOfIsFinal(root, k);
    }
    ShrinkKeeps(c, a, b, root, puts, acked);
  }

  /** At a key other than the written one nothing new may be found. */
  lemma WriteFrame(a: StoreFs, b: StoreFs, root: Path, k: StoreKey, d: Doc, x: StoreKey)
    requires ValidKey(k) && ValidKey(x) && AddsAtMost(a, b, PathOf(root, k), d)
    ensures Possible(b, PathOf(root, x)) <= Possible(a, PathOf(root, x)) + if x == k then {Some(File(d, true))} else {}
  {
    PathOfIsFinal(root, x);
    if PathOf(root, x) == PathOf(root, k) {
      PathOfInjective(root, x, k);
    }
  }

  lemma WriteBacked(a: StoreFs, b: StoreFs, root: Path, k: StoreKey, d: Doc, tag: ShareTag)
    requires ValidKey(k) && AddsAtMost(a, b, PathOf(root, k), d) && Backed(a, root, tag)
    ensures Backed(b, root, tag)
  {
    WriteFrame(a, b, root, k, d, ShareAt(tag));
    WriteFrame(a, b, root, k, d, PublicAt(tag));
  }

  lemma WriteHeld<K, G>(c: Codec<K, G>, a: StoreFs, b: StoreFs, root: Path, k: StoreKey, d: Doc, p: Put<K, G>)
    requires ValidKey(k) && AddsAtMost(a, b, PathOf(root, k), d) && Held(c, a, root, p)
    requires k != ShareAt(p.tag) && (k.ManifestKey? ==> Indexes(d, p.tag))
    ensures Held(c, b, root, p)
  {
    WriteFrame(a, b, root, k, d, ShareAt(p.tag));
    WriteFrame(a, b, root, k, d, ManifestKey);
  }

  /** A write that respects the invariant keeps it, however it ends and even if power is lost. */
  lemma WriteKeeps<K, G>(
      c: Codec<K, G>, a: StoreFs, b: StoreFs, root: Path, puts: set<Put<K, G>>, acked: set<Put<K, G>>, k: StoreKey, d: Doc)
    requires StoreInv(c, a, root, puts, acked) && MayWrite(c, a, root, puts, acked, k, d)
    requires AllClean(b) && AddsAtMost(a, b, PathOf(root, k), d)
    ensures StoreInv(c, b, root, puts, acked)
  {
    forall x, o | ValidKey(x) && o in Possible(b, PathOf(root, x)) && o.Some? ensures Legit(c, puts, x, o.value.doc) {
      WriteFrame(a, b, root, k, d, x);
    }
    WriteFrame(a, b, root, k, d, ManifestKey);
    forall o, tag | o in Possible(b, PathOf(root, ManifestKey)) && o.Some? && Indexes(o.value.doc, tag)
      ensures Backed(b, root, tag)
    {
      assert Backed(a, root, tag);
      WriteBacked(a, b, root, k, d, tag);
    }
    forall p | p in acked ensures Held(c, b, root, p) {
      WriteHeld(c, a, b, root, k, d, p);
    }
  }

  // ---- writing ----

  datatype PutOutcome = Stored | Refused(error: StoreError) | Interrupted

  /** Durably `d` and nothing else. */
  ghost predicate Settled(fs: StoreFs, p: Path, d: Doc) {
    Possible(fs, p) == {Some(File(d, true))}
  }

  /** Final names other than the files of `keys` are as before, and so is all that is not below the
      root. */
  ghost predicate OnlyKeys(a: StoreFs, b: StoreFs, root: Path, keys: set<StoreKey>) {
    && Within(a, b, root)
    && forall p :: !IsTemp(p) && (forall k :: k in keys ==> p != PathOf(root, k)) ==> Kept(a, b, p)
  }

  ghost predicate OnlyKeysOrCrash(a: StoreFs, b: StoreFs, root: Path, keys: set<StoreKey>, lost: bool) {
    if lost then exists s :: OnlyKeys(a, s, root, keys) && Crashed(s, b) else OnlyKeys(a, b, root, keys)
  }

  /** Outside the root nothing changes but the directories that lead to it. */
  ghost predicate Within(a: StoreFs, b: StoreFs, root: Path) {
    && (forall p :: !(root < p) ==> Look(b, p) == Look(a, p) && Possible(b, p) == Possible(a, p))
    && b.gone == a.gone && a.dirs <= b.dirs && forall d :: d in b.dirs ==> d in a.dirs || d <= root || root <= d
  }

  lemma RootAboveParent(root: Path, k: StoreKey)
    requires ValidKey(k)
    ensures PathOf(root, k) != [] && root <= Parent(PathOf(root, k))
  {
    PathOfIsFinal(root, k);
  }

  /** No directory at or below `root` exists. */
  ghost predicate RootIsNew(fs: StoreFs, root: Path) {
    forall d :: d in fs.dirs ==> !(root <= d)
  }

  lemma StaysTidy(a: StoreFs, b: StoreFs, root: Path)
    requires Tidy(a, root) && SameTemps(a, b)
    ensures Tidy(b, root)
  {
  }

  lemma StaysReachable(a: StoreFs, b: StoreFs, root: Path, dir: Path)
    requires Reachable(a, dir) && Within(a, b, root)
    ensures Reachable(b, dir)
  {
  }

  /** Making the directory of a file. */
  lemma GrownIsOnly(a: StoreFs, b: StoreFs, root: Path, k: StoreKey)
    requires ValidKey(k) && PathOf(root, k) != [] && Grown(a, b, Parent(PathOf(root, k)))
    ensures OnlyKeys(a, b, root, {k})
  {
    PathOfBelow(root, k);
    GrownIsWithin(a, b, root, Below(k), Parent(PathOf(root, k)));
  }

  lemma GrownIsWithin(a: StoreFs, b: StoreFs, root: Path, below: Path, dir: Path)
    requires Grown(a, b, dir) && dir <= root + below
    ensures Within(a, b, root) && forall p :: Kept(a, b, p)
  {
    forall d | d in b.dirs && d !in a.dirs ensures d <= root || root <= d {
      PrefixesCompare(d, root, below);
    }
  }

  lemma PrefixesCompare(d: Path, root: Path, below: Path)
    requires d <= root + below
    ensures d <= root || root <= d
  {
    if |d| <= |root| {
      assert d == (root + below)[..|d|] == root[..|d|];
    } else {
      assert root == (root + below)[..|root|] == d[..|root|];
    }
  }

  lemma GrownKeeps<K, G>(c: Codec<K, G>, a: StoreFs, b: StoreFs, dir: Path, root: Path, puts: set<Put<K, G>>, acked: set<Put<K, G>>)
    requires Grown(a, b, dir) && StoreInv(c, a, root, puts, acked)
    ensures StoreInv(c, b, root, puts, acked)
  {
    forall p | !IsTemp(p) ensures Clean(b, p) {
      assert Clean(a, p);
    }
    ShrinkKeeps(c, a, b, root, puts, acked);
  }

  lemma GrownMayWrite<K, G>(
      c: Codec<K, G>, a: StoreFs, b: StoreFs, dir: Path, root: Path, puts: set<Put<K, G>>, acked: set<Put<K, G>>, k: StoreKey, d: Doc)
    requires Grown(a, b, dir) && MayWrite(c, a, root, puts, acked, k, d)
    ensures MayWrite(c, b, root, puts, acked, k, d)
  {
    forall tag | k.ManifestKey? && Indexes(d, tag) ensures Backed(b, root, tag) {
      assert Backed(a, root, tag);
    }
  }

  lemma WroteIsWithin(a: StoreFs, b: StoreFs, root: Path, k: StoreKey, d: Doc)
    requires ValidKey(k) && Mid(a, b, PathOf(root, k), d)
    ensures Within(a, b, root)
  {
    PathOfBelow(root, k);
    assert Below(k) != [];
    forall p | !(root < p) ensures Look(b, p) == Look(a, p) && Possible(b, p) == Possible(a, p) {
      SiblingsAreBelow(root, Below(k), p);
    }
  }

  lemma SiblingsAreBelow(root: Path, below: Path, p: Path)
    requires below != []
    ensures root + below != [] && (InDir(p, Parent(root + below)) ==> root < p)
  {
    if InDir(p, Parent(root + below)) {
      assert Parent(root + below) == root + below[..|below| - 1];
      assert p == root + below[..|below| - 1] + [p[|p| - 1]];
    }
  }

  lemma OnlyKeysTrans(a: StoreFs, b: StoreFs, c: StoreFs, root: Path, k1: set<StoreKey>, k2: set<StoreKey>, lost: bool)
    requires OnlyKeys(a, b, root, k1) && OnlyKeysOrCrash(b, c, root, k2, lost)
    ensures OnlyKeysOrCrash(a, c, root, k1 + k2, lost)
  {
    var s := c;
    if lost {
      s :| OnlyKeys(b, s, root, k2) && Crashed(s, c);
    }
    forall p | !IsTemp(p) && (forall k :: k in k1 + k2 ==> p != PathOf(root, k)) ensures Kept(a, s, p) {
      assert Kept(a, b, p) && Kept(b, s, p);
    }
    assert OnlyKeys(a, s, root, k1 + k2);
  }

  lemma OnlyKeysGrow(a: StoreFs, b: StoreFs, root: Path, k1: set<StoreKey>, k2: set<StoreKey>, lost: bool)
    requires OnlyKeysOrCrash(a, b, root, k1, lost)
    ensures OnlyKeysOrCrash(a, b, root, k1 + k2, lost)
  {
    var s := b;
    if lost {
      s :| OnlyKeys(a, s, root, k1) && Crashed(s, b);
    }
    assert OnlyKeys(a, s, root, k1 + k2);
  }

  lemma WroteIsOnly(a: StoreFs, b: StoreFs, root: Path, k: StoreKey, d: Doc, out: Outcome)
    requires ValidKey(k) && Wrote(a, b, PathOf(root, k), d, out)
    ensures OnlyKeysOrCrash(a, b, root, {k}, out.PowerLoss?)
  {
    var s := b;
    if out.PowerLoss? {
      s :| Mid(a, s, PathOf(root, k), d) && Crashed(s, b);
    }
    WroteIsWithin(a, s, root, k, d);
    assert OnlyKeys(a, s, root, {k});
  }

  /** What the history records when a call ends: the attempt, and whether it was acknowledged. */
  ghost function AckedAfter<K, G>(acked: set<Put<K, G>>, p: Put<K, G>, out: PutOutcome): set<Put<K, G>> {
    (set q | q in acked && q.tag != p.tag) + if out.Stored? then {p} else {}
  }

  /** A held put may be counted as acknowledged. */
  lemma NowAcked<K, G>(
      c: Codec<K, G>, fs: StoreFs, root: Path, puts: set<Put<K, G>>, acked: set<Put<K, G>>, p: Put<K, G>, out: PutOutcome)
    requires StoreInv(c, fs, root, puts, set q | q in acked && q.tag != p.tag) && p in puts
    requires out.Stored? ==> Held(c, fs, root, p)
    ensures StoreInv(c, fs, root, puts, AckedAfter(acked, p, out))
  {
  }

  lemma AttemptKeeps<K, G>(c: Codec<K, G>, fs: StoreFs, root: Path, puts: set<Put<K, G>>, acked: set<Put<K, G>>, p: Put<K, G>)
    requires StoreInv(c, fs, root, puts, acked)
    ensures StoreInv(c, fs, root, puts + {p}, set q | q in acked && q.tag != p.tag)
  {
    forall k, o | ValidKey(k) && o in Possible(fs, PathOf(root, k)) && o.Some? ensures Legit(c, puts + {p}, k, o.value.doc) {
      assert Legit(c, puts, k, o.value.doc);
      LegitGrows(c, puts, p, k, o.value.doc);
    }
  }

  lemma LegitGrows<K, G>(c: Codec<K, G>, puts: set<Put<K, G>>, p: Put<K, G>, k: StoreKey, d: Doc)
    requires Legit(c, puts, k, d)
    ensures Legit(c, puts + {p}, k, d)
  {
    match k {
      case ManifestKey =>
        forall e | e in d.shares ensures TagPut(puts + {p}, TagOf(e)) {
          var q :| q in puts && IndexTag(q.tag) == TagOf(e);
          assert q in puts + {p};
        }
      case ShareKey(keyId, epoch, seat) =>
        var q :| q in puts && q.tag == ShareTag(keyId, epoch, seat) && q.pass == d.pass && c.writeKey(q.kp) == Some(d.plaintext);
        assert q in puts + {p};
      case PublicKey(keyId, epoch) =>
        var q, bytes :| q in puts && q.tag.keyId == keyId && q.tag.epoch == epoch
          && c.writeGroup(q.group) == Some(bytes) && d == EnvelopeDoc(keyId, epoch, Hex(bytes));
        assert q in puts + {p};
      case RoundKey(_, _, _) =>
    }
  }

  function EntryOf(tag: ShareTag, state: ShareState, createdAt: u64): (e: ShareEntry)
    ensures TagOf(e) == IndexTag(tag) && e.state == state
  {
    ShareEntry(tag.keyId, tag.epoch, SeatHex(tag.seat), state, createdAt)
  }

  lemma IndexTagInjective(a: ShareTag, b: ShareTag)
    requires IndexTag(a) == IndexTag(b)
    ensures a == b
  {
    SeatHexInjective(a.seat, b.seat);
  }

  /** What the manifest on disk says is legitimate, or it is absent. */
  lemma LoadedIsLegit<K, G>(
      c: Codec<K, G>, fs: StoreFs, root: Path, puts: set<Put<K, G>>, acked: set<Put<K, G>>, at: Path, shares: seq<ShareEntry>)
    requires StoreInv(c, fs, root, puts, acked) && at == PathOf(root, ManifestKey) && LoadManifest(fs, root) == Ok(shares)
    ensures DistinctTags(shares) && forall e :: e in shares ==> TagPut(puts, TagOf(e))
    ensures forall tag :: LookupIn(shares, IndexTag(tag)).Some? ==> Backed(fs, root, tag)
    ensures forall q :: q in acked ==> LookupIn(shares, IndexTag(q.tag)).Some?
  {
    assert ValidKey(ManifestKey) && Look(fs, at) in Possible(fs, at);
    assert DocAt(fs, at).Some? ==> Legit(c, puts, ManifestKey, DocAt(fs, at).value);
    forall tag | LookupIn(shares, IndexTag(tag)).Some? ensures Backed(fs, root, tag) {
      LoadedBacks(fs, root, at, shares, tag);
    }
    forall q | q in acked ensures LookupIn(shares, IndexTag(q.tag)).Some? {
      assert Held(c, fs, root, q);
      LoadedIndexes(fs, at, shares, q.tag);
    }
  }

  lemma LoadedBacks(fs: StoreFs, root: Path, at: Path, shares: seq<ShareEntry>, tag: ShareTag)
    requires AllBacked(fs, root) && at == PathOf(root, ManifestKey) && LookupIn(shares, IndexTag(tag)).Some?
    requires match DocAt(fs, at) { case None => shares == [] case Some(d) => d.ManifestDoc? && d.shares == shares }
    ensures Backed(fs, root, tag)
  {
    assert Look(fs, at) in Possible(fs, at) && Indexes(DocAt(fs, at).value, tag);
  }

  lemma LoadedIndexes(fs: StoreFs, at: Path, shares: seq<ShareEntry>, tag: ShareTag)
    requires IndexedAt(fs, at, tag)
    requires match DocAt(fs, at) { case None => shares == [] case Some(d) => d.ManifestDoc? && d.shares == shares }
    ensures LookupIn(shares, IndexTag(tag)).Some?
  {
    assert Look(fs, at) in Possible(fs, at);
  }

  lemma AddedManifestPut<K, G>(puts: set<Put<K, G>>, p: Put<K, G>, shares: seq<ShareEntry>, entry: ShareEntry)
    requires DistinctTags(shares) && forall e :: e in shares ==> TagPut(puts, TagOf(e))
    requires p in puts && TagOf(entry) == IndexTag(p.tag)
    ensures ManifestPut(puts, ManifestDoc(CURRENT_SCHEMA_VERSION, AddTo(shares, entry)))
  {
    AddKeepsOthers(shares, entry);
    AddKeepsDistinct(shares, entry);
    assert TagPut(puts, TagOf(entry));
  }

  /** The new manifest may be written once both files of the new share are there. */
  lemma MayWriteManifest<K, G>(
      c: Codec<K, G>, fs: StoreFs, root: Path, puts: set<Put<K, G>>, acked: set<Put<K, G>>, p: Put<K, G>,
      shares: seq<ShareEntry>, entry: ShareEntry)
    requires StoreInv(c, fs, root, puts, acked) && p in puts && TagOf(entry) == IndexTag(p.tag)
    requires LoadManifest(fs, root) == Ok(shares) && Backed(fs, root, p.tag)
    ensures MayWrite(c, fs, root, puts, acked, ManifestKey, ManifestDoc(CURRENT_SCHEMA_VERSION, AddTo(shares, entry)))
  {
    LoadedIsLegit(c, fs, root, puts, acked, PathOf(root, ManifestKey), shares);
    AddedManifestPut(puts, p, shares, entry);
    var d := ManifestDoc(CURRENT_SCHEMA_VERSION, AddTo(shares, entry));
    forall tag | Indexes(d, tag) ensures Backed(fs, root, tag) {
      LookupAfterAdd(shares, entry, IndexTag(tag));
      if IndexTag(tag) == TagOf(entry) {
        IndexTagInjective(tag, p.tag);
      }
    }
    forall q | q in acked ensures Indexes(d, q.tag) {
      LookupAfterAdd(shares, entry, IndexTag(q.tag));
    }
  }

  /** Once the manifest is down too, the new share is held. */
  lemma NowHeld<K, G>(
      c: Codec<K, G>, fs: StoreFs, root: Path, p: Put<K, G>, salt: nat, bytes: seq<byte>,
      shares: seq<ShareEntry>, entry: ShareEntry)
    requires TagOf(entry) == IndexTag(p.tag) && c.writeKey(p.kp) == Some(bytes)
    requires Settled(fs, PathOf(root, ShareAt(p.tag)), Sealed(p.pass, salt, bytes))
    requires Settled(fs, PathOf(root, ManifestKey), ManifestDoc(CURRENT_SCHEMA_VERSION, AddTo(shares, entry)))
    ensures Held(c, fs, root, p)
  {
    LookupAfterAdd(shares, entry, IndexTag(p.tag));
    SettledHolds(c, fs, PathOf(root, ShareAt(p.tag)), p, salt, bytes);
    SettledIndexes(fs, PathOf(root, ManifestKey), p.tag, ManifestDoc(CURRENT_SCHEMA_VERSION, AddTo(shares, entry)));
  }

  lemma SettledHolds<K, G>(c: Codec<K, G>, fs: StoreFs, at: Path, p: Put<K, G>, salt: nat, bytes: seq<byte>)
    requires c.writeKey(p.kp) == Some(bytes) && Settled(fs, at, Sealed(p.pass, salt, bytes))
    ensures HeldAt(c, fs, at, p)
  {
  }

  lemma SettledIndexes(fs: StoreFs, at: Path, tag: ShareTag, d: Doc)
    requires Settled(fs, at, d) && Indexes(d, tag)
    ensures IndexedAt(fs, at, tag)
  {
  }

  class ParticipantStore<K(!new), G(!new)> {
    const disk: Disk<Doc>
    const root: Path
    const codec: Codec<K, G>
    const passphrase: Result<string, StoreError>

    constructor (disk: Disk<Doc>, root: Path, codec: Codec<K, G>, passphrase: Result<string, StoreError>)
      ensures this.disk == disk && this.root == root && this.codec == codec && this.passphrase == passphrase
    {
      this.disk, this.root, this.codec, this.passphrase := disk, root, codec, passphrase;
    }

    ghost function History(puts: set<Put<K, G>>, tag: ShareTag, kp: K, group: G): set<Put<K, G>> {
      if passphrase.Ok? then puts + {Put(tag, passphrase.value, kp, group)} else puts
    }

    /** The public envelope of the group is durably there. */
    ghost predicate EnvelopeSettled(fs: StoreFs, tag: ShareTag, group: G) {
      && codec.writeGroup(group).Some?
      && var d := EnvelopeDoc(tag.keyId, tag.epoch, Hex(codec.writeGroup(group).value));
      Settled(fs, PathOf(root, PublicAt(tag)), d)
    }

    /** The key package is durably there, encrypted under the passphrase. */
    ghost predicate ShareSettled(fs: StoreFs, tag: ShareTag, kp: K, salt: nat) {
      && passphrase.Ok? && codec.writeKey(kp).Some?
      && Settled(fs, PathOf(root, ShareAt(tag)), Sealed(passphrase.value, salt, codec.writeKey(kp).value))
    }

    /** The index is durably the one of `before` with the entry added. */
    ghost predicate IndexSettled(before: StoreFs, fs: StoreFs, entry: ShareEntry) {
      && LoadManifest(before, root).Ok?
      && var d := ManifestDoc(CURRENT_SCHEMA_VERSION, AddTo(LoadManifest(before, root).value, entry));
      Settled(fs, PathOf(root, ManifestKey), d)
    }

    ghost predicate Serializes(kp: K, group: G) {
      codec.writeKey(kp).Some? && codec.writeGroup(group).Some?
    }

    /** Nothing stands in the way of a put: no faults, no left-over temporary file, a readable index. */
    ghost predicate Smooth(fs: StoreFs, kp: K, group: G) {
      disk.calm && Tidy(fs, root) && Serializes(kp, group) && LoadManifest(fs, root).Ok?
    }

    /** Create the directory of a file. */
    method MakeDirFor(k: StoreKey, ghost puts: set<Put<K, G>>, ghost acked: set<Put<K, G>>) returns (out: Outcome)
      requires ValidKey(k)
      modifies disk
      ensures OnlyKeysOrCrash(old(disk.fs), disk.fs, root, {k}, out.PowerLoss?)
      ensures !out.PowerLoss? ==> PathOf(root, k) != [] && Grown(old(disk.fs), disk.fs, Parent(PathOf(root, k)))
      ensures StoreInv(codec, old(disk.fs), root, puts, acked) ==> StoreInv(codec, disk.fs, root, puts, acked)
      ensures out.Done? ==> PathOf(root, k) != [] && Parent(PathOf(root, k)) in disk.fs.dirs
      ensures out.Done? && RootIsNew(old(disk.fs), root) ==> Reachable(disk.fs, root)
      ensures disk.calm ==> out.Done?
    {
      ghost var a := disk.fs;
      ghost var sound := StoreInv(codec, a, root, puts, acked);
      PathOfIsFinal(root, k);
      RootAboveParent(root, k);
      out := disk.CreateDir(Parent(PathOf(root, k)));
      if out.PowerLoss? {
        assert OnlyKeys(a, a, root, {k});
        if sound { CrashKeeps(codec, a, disk.fs, root, puts, acked); }
        return;
      }
      GrownIsOnly(a, disk.fs, root, k);
      if sound { GrownKeeps(codec, a, disk.fs, Parent(PathOf(root, k)), root, puts, acked); }
    }

    /** Write into an existing directory. */
    method WriteMade(k: StoreKey, d: Doc, ghost puts: set<Put<K, G>>, ghost acked: set<Put<K, G>>) returns (out: Outcome)
      requires ValidKey(k)
      modifies disk
      ensures out.Done? ==> Settled(disk.fs, PathOf(root, k), d)
      ensures OnlyKeysOrCrash(old(disk.fs), disk.fs, root, {k}, out.PowerLoss?)
      ensures StoreInv(codec, old(disk.fs), root, puts, acked) && MayWrite(codec, old(disk.fs), root, puts, acked, k, d) ==>
        StoreInv(codec, disk.fs, root, puts, acked)
      ensures out.Done? ==> SameTemps(old(disk.fs), disk.fs)
      ensures PathOf(root, k) != [] && Parent(PathOf(root, k)) in old(disk.fs).dirs && disk.calm && Tidy(old(disk.fs), root)
        ==> out.Done?
    {
      ghost var a := disk.fs;
      PathOfIsFinal(root, k);
      RootAboveParent(root, k);
      out := disk.WriteAtomic(PathOf(root, k), d);
      WroteIsOnly(a, disk.fs, root, k, d, out);
      if StoreInv(codec, a, root, puts, acked) && MayWrite(codec, a, root, puts, acked, k, d) {
        WroteAdds(a, disk.fs, PathOf(root, k), d, out);
        WriteKeeps(codec, a, disk.fs, root, puts, acked, k, d);
      }
    }

    /** Create the parent directory, then write atomically. */
    method WriteFile(k: StoreKey, d: Doc, ghost puts: set<Put<K, G>>, ghost acked: set<Put<K, G>>) returns (out: Outcome)
      requires ValidKey(k)
      modifies disk
      ensures out.Done? ==> Settled(disk.fs, PathOf(root, k), d)
      ensures OnlyKeysOrCrash(old(disk.fs), disk.fs, root, {k}, out.PowerLoss?)
      ensures StoreInv(codec, old(disk.fs), root, puts, acked) && MayWrite(codec, old(disk.fs), root, puts, acked, k, d) ==>
        StoreInv(codec, disk.fs, root, puts, acked)
      ensures out.Done? ==> SameTemps(old(disk.fs), disk.fs)
      ensures out.Done? && RootIsNew(old(disk.fs), root) ==> Reachable(disk.fs, root)
      ensures disk.calm && Tidy(old(disk.fs), root) ==> out.Done?
    {
      ghost var a := disk.fs;
      out := MakeDirFor(k, puts, acked);
      if !out.Done? {
        return;
      }
      ghost var made := disk.fs;
      if MayWrite(codec, a, root, puts, acked, k, d) {
        GrownMayWrite(codec, a, made, Parent(PathOf(root, k)), root, puts, acked, k, d);
      }
      out := WriteMade(k, d, puts, acked);
      OnlyKeysTrans(a, made, disk.fs, root, {k}, {k}, out.PowerLoss?);
      assert {k} + {k} == {k};
    }

    /** Read the manifest into an object. The read itself may fail. */
    method ReadManifest() returns (r: Result<Manifest, StoreError>)
      ensures r.Ok? ==> LoadManifest(disk.fs, root) == Ok(r.value.shares) && fresh(r.value)
      ensures r.Ok? ==> r.value.schemaVersion == CURRENT_SCHEMA_VERSION
      ensures r.Err? ==> (r.error == Io && !disk.calm) || LoadManifest(disk.fs, root) == Err(r.error)
    {
      var fault := disk.Faulty();
      if fault { return Err(Io); }
      var found := DocAt(disk.fs, PathOf(root, ManifestKey));
      if found.None? {
        var empty := new Manifest();
        return Ok(empty);
      }
      var shares := FromJson(found.value);
      if shares.Err? {
        return Err(shares.error);
      }
      var parsed := new Manifest.Parsed(found.value.version, shares.value);
      return Ok(parsed);
    }

    method PutPublicEnvelope(
        tag: ShareTag, kp: K, group: G, ghost puts: set<Put<K, G>>, ghost acked: set<Put<K, G>>) returns (out: PutOutcome)
      requires passphrase.Ok? && Put(tag, passphrase.value, kp, group) in puts
      modifies disk
      ensures out.Stored? ==> EnvelopeSettled(disk.fs, tag, group)
      ensures out.Stored? ==> SameTemps(old(disk.fs), disk.fs)
      ensures out.Stored? && RootIsNew(old(disk.fs), root) ==> Reachable(disk.fs, root)
      ensures disk.calm && Tidy(old(disk.fs), root) && codec.writeGroup(group).Some? ==> out.Stored?
      ensures OnlyKeysOrCrash(old(disk.fs), disk.fs, root, {PublicAt(tag)}, out.Interrupted?)
      ensures StoreInv(codec, old(disk.fs), root, puts, acked) ==> StoreInv(codec, disk.fs, root, puts, acked)
    {
      var bytes := codec.writeGroup(group);
      if bytes.None? {
        assert OnlyKeys(disk.fs, disk.fs, root, {PublicAt(tag)});
        return Refused(Unserializable);
      }
      var hex := HexEncode(bytes.value);
      var d := EnvelopeDoc(tag.keyId, tag.epoch, hex);
      assert Legit(codec, puts, PublicAt(tag), d);
      var written := WriteFile(PublicAt(tag), d, puts, acked);
      out := FromOutcome(written);
    }

    /** The directory first, then serialize, encrypt and write. */
    method PutSecret(
        tag: ShareTag, kp: K, group: G, ghost puts: set<Put<K, G>>, ghost acked: set<Put<K, G>>)
        returns (out: PutOutcome, ghost salt: nat)
      requires passphrase.Ok? && Put(tag, passphrase.value, kp, group) in puts
      requires forall p :: p in acked ==> p.tag != tag
      modifies disk
      ensures out.Stored? ==> ShareSettled(disk.fs, tag, kp, salt)
      ensures out.Stored? ==> SameTemps(old(disk.fs), disk.fs)
      ensures disk.calm && Tidy(old(disk.fs), root) && codec.writeKey(kp).Some? ==> out.Stored?
      ensures OnlyKeysOrCrash(old(disk.fs), disk.fs, root, {ShareAt(tag)}, out.Interrupted?)
      ensures StoreInv(codec, old(disk.fs), root, puts, acked) ==> StoreInv(codec, disk.fs, root, puts, acked)
    {
      ghost var a := disk.fs;
      salt := 0;
      var made := MakeDirFor(ShareAt(tag), puts, acked);
      if !made.Done? {
        return FromOutcome(made), salt;
      }
      ghost var b := disk.fs;
      var bytes := codec.writeKey(kp);
      var drawn: nat := *;
      var fault := disk.Faulty();
      salt := drawn;
      if bytes.None? || fault {
        return Refused(if bytes.None? then Unserializable else Age), salt;
      }
      var d := Sealed(passphrase.value, drawn, bytes.value);
      assert Legit(codec, puts, ShareAt(tag), d);
      var written := WriteMade(ShareAt(tag), d, puts, acked);
      OnlyKeysTrans(a, b, disk.fs, root, {ShareAt(tag)}, {ShareAt(tag)}, written.PowerLoss?);
      assert {ShareAt(tag)} + {ShareAt(tag)} == {ShareAt(tag)};
      out := FromOutcome(written);
    }

    /** Index the share. */
    method PutIndex(
        tag: ShareTag, kp: K, group: G, state: ShareState, ghost salt: nat,
        ghost puts: set<Put<K, G>>, ghost acked: set<Put<K, G>>)
        returns (out: PutOutcome, ghost createdAt: u64)
      requires passphrase.Ok? && Put(tag, passphrase.value, kp, group) in puts
      requires EnvelopeSettled(disk.fs, tag, group) && ShareSettled(disk.fs, tag, kp, salt)
      modifies disk
      ensures out.Stored? ==> IndexSettled(old(disk.fs), disk.fs, EntryOf(tag, state, createdAt))
      ensures out.Stored? ==> SameTemps(old(disk.fs), disk.fs)
      ensures disk.calm && Tidy(old(disk.fs), root) && LoadManifest(old(disk.fs), root).Ok? ==> out.Stored?
      ensures OnlyKeysOrCrash(old(disk.fs), disk.fs, root, {ManifestKey}, out.Interrupted?)
      ensures StoreInv(codec, old(disk.fs), root, puts, acked) ==> StoreInv(codec, disk.fs, root, puts, acked)
    {
      ghost var a := disk.fs;
      var now: u64 := *;
      createdAt := now;
      var entry := EntryOf(tag, state, now);
      var next := NextManifest(entry);
      if next.Err? {
        assert OnlyKeys(a, a, root, {ManifestKey});
        return Refused(next.error), createdAt;
      }
      MayIndex(a, tag, kp, group, salt, puts, acked, next.value, entry);
      var written := WriteFile(ManifestKey, next.value, puts, acked);
      out := FromOutcome(written);
    }

    /** The manifest with the entry added. */
    method NextManifest(entry: ShareEntry) returns (r: Result<Doc, StoreError>)
      ensures r.Ok? ==> LoadManifest(disk.fs, root).Ok?
      ensures r.Ok? ==> r.value == ManifestDoc(CURRENT_SCHEMA_VERSION, AddTo(LoadManifest(disk.fs, root).value, entry))
      ensures disk.calm && LoadManifest(disk.fs, root).Ok? ==> r.Ok?
    {
      var manifest := ReadManifest();
      if manifest.Err? {
        return Err(manifest.error);
      }
      manifest.value.AddEntry(entry);
      r := Ok(ManifestDoc(CURRENT_SCHEMA_VERSION, manifest.value.shares));
    }

    lemma MayIndex(
        fs: StoreFs, tag: ShareTag, kp: K, group: G, salt: nat, puts: set<Put<K, G>>, acked: set<Put<K, G>>,
        d: Doc, entry: ShareEntry)
      requires passphrase.Ok? && Put(tag, passphrase.value, kp, group) in puts && TagOf(entry) == IndexTag(tag)
      requires EnvelopeSettled(fs, tag, group) && ShareSettled(fs, tag, kp, salt) && LoadManifest(fs, root).Ok?
      requires d == ManifestDoc(CURRENT_SCHEMA_VERSION, AddTo(LoadManifest(fs, root).value, entry))
      ensures StoreInv(codec, fs, root, puts, acked) ==> MayWrite(codec, fs, root, puts, acked, ManifestKey, d)
    {
      if StoreInv(codec, fs, root, puts, acked) {
        MayWriteManifest(
          codec, fs, root, puts, acked, Put(tag, passphrase.value, kp, group), LoadManifest(fs, root).value, entry);
      }
    }

    ghost function AckedBy(
        acked: set<Put<K, G>>, tag: ShareTag, kp: K, group: G, out: PutOutcome): set<Put<K, G>>
    {
      if passphrase.Ok? then AckedAfter(acked, Put(tag, passphrase.value, kp, group), out) else acked
    }

    /** The two files of a share, the public one first. */
    method PutFiles(
        tag: ShareTag, kp: K, group: G, ghost puts: set<Put<K, G>>, ghost acked: set<Put<K, G>>)
        returns (out: PutOutcome, ghost salt: nat)
      requires passphrase.Ok? && Put(tag, passphrase.value, kp, group) in puts
      requires forall p :: p in acked ==> p.tag != tag
      modifies disk
      ensures out.Stored? ==> EnvelopeSettled(disk.fs, tag, group) && ShareSettled(disk.fs, tag, kp, salt)
      ensures out.Stored? ==> SameTemps(old(disk.fs), disk.fs)
      ensures out.Stored? && RootIsNew(old(disk.fs), root) ==> Reachable(disk.fs, root)
      ensures disk.calm && Tidy(old(disk.fs), root) && Serializes(kp, group) ==> out.Stored?
      ensures OnlyKeysOrCrash(old(disk.fs), disk.fs, root, FilesOf(tag), out.Interrupted?)
      ensures StoreInv(codec, old(disk.fs), root, puts, acked) ==> StoreInv(codec, disk.fs, root, puts, acked)
    {
      ghost var s0 := disk.fs;
      out := PutPublicEnvelope(tag, kp, group, puts, acked);
      ghost var s1 := disk.fs;
      if !out.Stored? {
        OnlyKeysGrow(s0, s1, root, {PublicAt(tag)}, {ShareAt(tag)}, out.Interrupted?);
        return out, 0;
      }
      if Tidy(s0, root) { StaysTidy(s0, s1, root); }
      out, salt := PutSecret(tag, kp, group, puts, acked);
      OnlyKeysTrans(s0, s1, disk.fs, root, {PublicAt(tag)}, {ShareAt(tag)}, out.Interrupted?);
      if out.Stored? {
        if Reachable(s1, root) { StaysReachable(s1, disk.fs, root, root); }
        EnvelopeStays(s1, disk.fs, {ShareAt(tag)}, tag, group);
      }
    }

    /** Files first, index last. */
    method PutAll(
        tag: ShareTag, kp: K, group: G, state: ShareState, ghost puts: set<Put<K, G>>, ghost acked: set<Put<K, G>>)
        returns (out: PutOutcome, ghost salt: nat, ghost createdAt: u64)
      requires passphrase.Ok? && Put(tag, passphrase.value, kp, group) in puts
      requires forall p :: p in acked ==> p.tag != tag
      modifies disk
      ensures out.Stored? ==> EnvelopeSettled(disk.fs, tag, group) && ShareSettled(disk.fs, tag, kp, salt)
      ensures out.Stored? ==> IndexSettled(old(disk.fs), disk.fs, EntryOf(tag, state, createdAt))
      ensures out.Stored? ==> SameTemps(old(disk.fs), disk.fs)
      ensures out.Stored? && RootIsNew(old(disk.fs), root) ==> Reachable(disk.fs, root)
      ensures Smooth(old(disk.fs), kp, group) ==> out.Stored?
      ensures OnlyKeysOrCrash(old(disk.fs), disk.fs, root, FilesOf(tag) + {ManifestKey}, out.Interrupted?)
      ensures StoreInv(codec, old(disk.fs), root, puts, acked) ==> StoreInv(codec, disk.fs, root, puts, acked)
    {
      ghost var s0 := disk.fs;
      createdAt := 0;
      out, salt := PutFiles(tag, kp, group, puts, acked);
      ghost var s1 := disk.fs;
      if !out.Stored? {
        OnlyKeysGrow(s0, s1, root, FilesOf(tag), {ManifestKey}, out.Interrupted?);
        return;
      }
      ManifestStays(s0, s1, root, FilesOf(tag));
      if Tidy(s0, root) { StaysTidy(s0, s1, root); }
      out, createdAt := PutIndex(tag, kp, group, state, salt, puts, acked);
      OnlyKeysTrans(s0, s1, disk.fs, root, FilesOf(tag), {ManifestKey}, out.Interrupted?);
      if out.Stored? {
        if Reachable(s1, root) { StaysReachable(s1, disk.fs, root, root); }
        EnvelopeStays(s1, disk.fs, {ManifestKey}, tag, group);
        ShareStays(s1, disk.fs, {ManifestKey}, tag, kp, salt);
      }
    }

    /** Store a share: envelope, share, index, each complete before the next begins. Whatever happens,
        only these three files change and the store stays sound; on success all three are durable. If the
        disk is calm and nothing about the store or the packages is wrong, it does succeed. */
    method PutShare(
        tag: ShareTag, kp: K, group: G, state: ShareState, ghost puts: set<Put<K, G>>, ghost acked: set<Put<K, G>>)
        returns (out: PutOutcome, ghost salt: nat, ghost createdAt: u64)
      modifies disk
      ensures passphrase.Err? ==> out == Refused(passphrase.error) && disk.fs == old(disk.fs)
      ensures out.Stored? ==> EnvelopeSettled(disk.fs, tag, group) && ShareSettled(disk.fs, tag, kp, salt)
      ensures out.Stored? ==> IndexSettled(old(disk.fs), disk.fs, EntryOf(tag, state, createdAt))
      ensures out.Stored? ==> IndexUpdated(old(disk.fs), disk.fs, root, IndexTag(tag), state)
      ensures out.Stored? ==> SameTemps(old(disk.fs), disk.fs)
      ensures out.Stored? && RootIsNew(old(disk.fs), root) ==> Reachable(disk.fs, root)
      ensures passphrase.Ok? && Smooth(old(disk.fs), kp, group) ==> out.Stored?
      ensures OnlyKeysOrCrash(old(disk.fs), disk.fs, root, FilesOf(tag) + {ManifestKey}, out.Interrupted?)
      ensures StoreInv(codec, old(disk.fs), root, puts, acked) ==>
        StoreInv(codec, disk.fs, root, History(puts, tag, kp, group), AckedBy(acked, tag, kp, group, out))
    {
      ghost var s0 := disk.fs;
      salt, createdAt := 0, 0;
      if passphrase.Err? {
        assert OnlyKeys(s0, s0, root, FilesOf(tag) + {ManifestKey});
        return Refused(passphrase.error), salt, createdAt;
      }
      ghost var p := Put(tag, passphrase.value, kp, group);
      ghost var puts', acked' := puts + {p}, set q | q in acked && q.tag != p.tag;
      if StoreInv(codec, s0, root, puts, acked) { AttemptKeeps(codec, s0, root, puts, acked, p); }
      out, salt, createdAt := PutAll(tag, kp, group, state, puts', acked');
      if out.Stored? {
        NowIndexed(s0, disk.fs, p, salt, EntryOf(tag, state, createdAt));
        NowUpdated(s0, disk.fs, IndexTag(tag), EntryOf(tag, state, createdAt), state);
      }
      if StoreInv(codec, s0, root, puts, acked) {
        NowAcked(codec, disk.fs, root, puts', acked, p, out);
      }
    }

    lemma NowIndexed(before: StoreFs, fs: StoreFs, p: Put<K, G>, salt: nat, entry: ShareEntry)
      requires TagOf(entry) == IndexTag(p.tag) && passphrase == Ok(p.pass)
      requires ShareSettled(fs, p.tag, p.kp, salt) && IndexSettled(before, fs, entry)
      ensures Held(codec, fs, root, p)
    {
      NowHeld(codec, fs, root, p, salt, codec.writeKey(p.kp).value, LoadManifest(before, root).value, entry);
    }

    lemma NowUpdated(before: StoreFs, fs: StoreFs, tag: EntryTag, entry: ShareEntry, state: ShareState)
      requires TagOf(entry) == tag && entry.state == state && IndexSettled(before, fs, entry)
      ensures IndexUpdated(before, fs, root, tag, state)
    {
      var d := ManifestDoc(CURRENT_SCHEMA_VERSION, AddTo(LoadManifest(before, root).value, entry));
      SettledShows(fs, PathOf(root, ManifestKey), d);
      forall x ensures LookupIn(d.shares, x) == if x == tag then Some(entry) else LookupIn(LoadManifest(before, root).value, x) {
        LookupAfterAdd(LoadManifest(before, root).value, entry, x);
      }
    }

    lemma EnvelopeStays(a: StoreFs, b: StoreFs, keys: set<StoreKey>, tag: ShareTag, group: G)
      requires PublicAt(tag) !in keys && (forall x :: x in keys ==> ValidKey(x))
      requires OnlyKeys(a, b, root, keys) && EnvelopeSettled(a, tag, group)
      ensures EnvelopeSettled(b, tag, group)
    {
      SettledStays(a, b, root, keys, PublicAt(tag), EnvelopeDoc(tag.keyId, tag.epoch, Hex(codec.writeGroup(group).value)));
    }

    lemma ShareStays(a: StoreFs, b: StoreFs, keys: set<StoreKey>, tag: ShareTag, kp: K, salt: nat)
      requires ShareAt(tag) !in keys && (forall x :: x in keys ==> ValidKey(x))
      requires OnlyKeys(a, b, root, keys) && ShareSettled(a, tag, kp, salt)
      ensures ShareSettled(b, tag, kp, salt)
    {
      SettledStays(a, b, root, keys, ShareAt(tag), Sealed(passphrase.value, salt, codec.writeKey(kp).value));
    }
  }

  /** Seen as a map, the index has the new state at the tag and is unchanged elsewhere. */
  ghost predicate IndexUpdated(before: StoreFs, fs: StoreFs, root: Path, tag: EntryTag, state: ShareState) {
    && LoadManifest(before, root).Ok? && LoadManifest(fs, root).Ok?
    && LookupIn(LoadManifest(fs, root).value, tag).Some? && LookupIn(LoadManifest(fs, root).value, tag).value.state == state
    && forall x :: x != tag ==>
      LookupIn(LoadManifest(fs, root).value, x) == LookupIn(LoadManifest(before, root).value, x)
  }

  lemma SettledStays(a: StoreFs, b: StoreFs, root: Path, keys: set<StoreKey>, k: StoreKey, d: Doc)
    requires ValidKey(k) && k !in keys && (forall x :: x in keys ==> ValidKey(x))
    requires OnlyKeys(a, b, root, keys) && Settled(a, PathOf(root, k), d)
    ensures Settled(b, PathOf(root, k), d)
  {
    PathOfIsFinal(root, k);
    forall x | x in keys ensures PathOf(root, k) != PathOf(root, x) {
      if PathOf(root, k) == PathOf(root, x) { PathOfInjective(root, k, x); }
    }
    assert Kept(a, b, PathOf(root, k)) && Look(b, PathOf(root, k)) in Possible(b, PathOf(root, k));
  }

  lemma ManifestStays(a: StoreFs, b: StoreFs, root: Path, keys: set<StoreKey>)
    requires ManifestKey !in keys && (forall x :: x in keys ==> ValidKey(x)) && OnlyKeys(a, b, root, keys)
    ensures LoadManifest(b, root) == LoadManifest(a, root)
  {
    assert ValidKey(ManifestKey);
    PathOfIsFinal(root, ManifestKey);
    forall x | x in keys ensures PathOf(root, ManifestKey) != PathOf(root, x) {
      if PathOf(root, ManifestKey) == PathOf(root, x) { PathOfInjective(root, ManifestKey, x); }
    }
    assert Kept(a, b, PathOf(root, ManifestKey));
    assert Look(a, PathOf(root, ManifestKey)) == Look(b, PathOf(root, ManifestKey));
  }

  function FromOutcome(out: Outcome): PutOutcome {
    match out
    case Done => Stored
    case Failed => Refused(Io)
    case PowerLoss => Interrupted
  }

  // ---- whole runs ----

  datatype Action<K, G> =
    | PutAction(pass: Result<string, StoreError>, tag: ShareTag, kp: K, group: G, state: ShareState)
    | RestartAction

  ghost function PutsAfter<K, G>(puts: set<Put<K, G>>, a: Action<K, G>): set<Put<K, G>> {
    if a.PutAction? && a.pass.Ok? then puts + {Put(a.tag, a.pass.value, a.kp, a.group)} else puts
  }

  ghost function AckedOn<K, G>(acked: set<Put<K, G>>, a: Action<K, G>, out: PutOutcome): set<Put<K, G>> {
    if a.PutAction? && a.pass.Ok? then AckedAfter(acked, Put(a.tag, a.pass.value, a.kp, a.group), out) else acked
  }

  ghost function AllPuts<K, G>(script: seq<Action<K, G>>): set<Put<K, G>> {
    if script == [] then {} else PutsAfter(AllPuts(script[..|script| - 1]), script[|script| - 1])
  }

  /** The acknowledged puts whose tag was not attempted again. */
  ghost function AllAcked<K, G>(script: seq<Action<K, G>>, outs: seq<PutOutcome>): set<Put<K, G>>
    requires |outs| == |script|
    decreases |script|
  {
    if script == [] then {} else
      var n := |script| - 1;
      AckedOn(AllAcked(script[..n], outs[..n]), script[n], outs[n])
  }

  /** One put, or a power loss and a restart. */
  method Act<K(!new), G(!new)>(
      disk: Disk<Doc>, root: Path, codec: Codec<K, G>, a: Action<K, G>, ghost puts: set<Put<K, G>>, ghost acked: set<Put<K, G>>)
      returns (out: PutOutcome)
    requires StoreInv(codec, disk.fs, root, puts, acked)
    modifies disk
    ensures StoreInv(codec, disk.fs, root, PutsAfter(puts, a), AckedOn(acked, a, out))
  {
    out := Interrupted;
    if a.RestartAction? {
      ghost var before := disk.fs;
      disk.Crash();
      CrashKeeps(codec, before, disk.fs, root, puts, acked);
    } else {
      var store := new ParticipantStore(disk, root, codec, a.pass);
      ghost var salt, createdAt;
      out, salt, createdAt := store.PutShare(a.tag, a.kp, a.group, a.state, puts, acked);
    }
  }

  /** Any sequence of puts, under any passphrases, with power losses inside the puts and restarts
      between them. */
  method RunStore<K(!new), G(!new)>(disk: Disk<Doc>, root: Path, codec: Codec<K, G>, script: seq<Action<K, G>>)
      returns (outs: seq<PutOutcome>)
    requires NoStore(disk.fs, root)
    modifies disk
    ensures |outs| == |script|
    ensures StoreInv(codec, disk.fs, root, AllPuts(script), AllAcked(script, outs))
  {
    NoStoreIsSound(codec, disk.fs, root);
    outs := [];
    for i := 0 to |script|
      invariant |outs| == i
      invariant StoreInv(codec, disk.fs, root, AllPuts(script[..i]), AllAcked(script[..i], outs))
    {
      assert script[..i + 1][..i] == script[..i] && script[..i + 1][i] == script[i];
      var out := Act(disk, root, codec, script[i], AllPuts(script[..i]), AllAcked(script[..i], outs));
      assert (outs + [out])[..i] == outs;
      outs := outs + [out];
    }
    assert script[..|script|] == script;
  }

  // ---- active, standby, retired ----

  datatype Item<K, G> = Item(tag: ShareTag, kp: K, group: G, state: ShareState)

  /** Puts into an empty root of which none is active: no share is handed out. */
  method PutInactive<K(!new), G(!new)>(store: ParticipantStore<K, G>, items: seq<Item<K, G>>) returns (stored: bool)
    requires LoadManifest(store.disk.fs, store.root) == Ok([])
    requires forall i :: 0 <= i < |items| ==> items[i].state != Active
    modifies store.disk
    ensures stored ==> IndexedInactive(store.disk.fs, store.root)
    ensures stored ==> LoadOnlyActive(store.codec, store.disk.fs, store.root, store.passphrase) == Err(ManifestError)
  {
    for i := 0 to |items|
      invariant IndexedInactive(store.disk.fs, store.root)
    {
      ghost var before := store.disk.fs;
      ghost var salt, createdAt;
      var out;
      out, salt, createdAt := store.PutShare(items[i].tag, items[i].kp, items[i].group, items[i].state, {}, {});
      if !out.Stored? {
        return false;
      }
      StaysInactive(store, before, store.disk.fs, EntryOf(items[i].tag, items[i].state, createdAt), items[i].state);
    }
    return true;
  }

  ghost predicate IndexedInactive(fs: StoreFs, root: Path) {
    LoadManifest(fs, root).Ok? && NoneActive(LoadManifest(fs, root).value)
  }

  lemma StaysInactive<K(!new), G(!new)>(
      store: ParticipantStore<K, G>, before: StoreFs, fs: StoreFs, entry: ShareEntry, state: ShareState)
    requires IndexedInactive(before, store.root) && store.IndexSettled(before, fs, entry) && state != Active
    requires IndexUpdated(before, fs, store.root, TagOf(entry), state)
    ensures IndexedInactive(fs, store.root)
  {
    IndexShows(store, before, fs, entry);
    LookupAfterAdd(LoadManifest(before, store.root).value, entry, TagOf(entry));
    AddedInactive(LoadManifest(before, store.root).value, entry);
  }

  /** One active put after them, and its share is the one handed out. */
  method ActivateAfter<K(!new), G(!new)>(
      store: ParticipantStore<K, G>, items: seq<Item<K, G>>, tag: ShareTag, kp: K, group: G) returns (stored: bool)
    requires Lawful(store.codec) && LoadManifest(store.disk.fs, store.root) == Ok([])
    requires forall i :: 0 <= i < |items| ==> items[i].state != Active
    modifies store.disk
    ensures stored ==> LoadOnlyActive(store.codec, store.disk.fs, store.root, store.passphrase) == Ok((tag.seat, kp))
  {
    stored := PutInactive(store, items);
    if stored {
      ghost var before := store.disk.fs;
      ghost var salt, createdAt;
      var out;
      out, salt, createdAt := store.PutShare(tag, kp, group, Active, {}, {});
      stored := out.Stored?;
      if stored {
        NowHandedOut(store, before, store.disk.fs, tag, kp, salt, EntryOf(tag, Active, createdAt));
      }
    }
  }

  lemma NowHandedOut<K(!new), G(!new)>(
      store: ParticipantStore<K, G>, before: StoreFs, fs: StoreFs, tag: ShareTag, kp: K, salt: nat, entry: ShareEntry)
    requires Lawful(store.codec) && IndexedInactive(before, store.root) && TagOf(entry) == IndexTag(tag)
    requires store.IndexSettled(before, fs, entry) && store.ShareSettled(fs, tag, kp, salt)
    requires IndexUpdated(before, fs, store.root, IndexTag(tag), Active)
    ensures LoadOnlyActive(store.codec, fs, store.root, store.passphrase) == Ok((tag.seat, kp))
  {
    IndexShows(store, before, fs, entry);
    LookupAfterAdd(LoadManifest(before, store.root).value, entry, IndexTag(tag));
    AddedInactive(LoadManifest(before, store.root).value, entry);
    ShareShows(store, fs, tag, kp, salt);
    SeatRoundTrip(tag.seat);
  }

  // ---- what a restart finds ----

  /** An entry leads to a package that was put under exactly its tag, and to the group of some put under
      the same key id and epoch: those share one envelope. */
  ghost predicate EntryLoads<K, G>(c: Codec<K, G>, fs: StoreFs, root: Path, puts: set<Put<K, G>>, e: ShareEntry) {
    exists p, q :: p in puts && q in puts && IndexTag(p.tag) == TagOf(e)
      && q.tag.keyId == p.tag.keyId && q.tag.epoch == p.tag.epoch
      && LoadShare(c, fs, root, Ok(p.pass), p.tag) == Ok(p.kp)
      && GroupLoads(c, fs, root, p.tag, q.group)
  }

  ghost predicate GroupLoads<K, G>(c: Codec<K, G>, fs: StoreFs, root: Path, tag: ShareTag, group: G) {
    && LoadPublicEnvelope(fs, root, tag.keyId, tag.epoch).Ok?
    && LoadPublicEnvelope(fs, root, tag.keyId, tag.epoch).value.EnvelopeDoc?
    && DecodePackage(c, LoadPublicEnvelope(fs, root, tag.keyId, tag.epoch).value) == Some(group)
  }

  lemma ShareLoads<K(!new), G(!new)>(
      c: Codec<K, G>, fs: StoreFs, root: Path, puts: set<Put<K, G>>, acked: set<Put<K, G>>, tag: ShareTag)
      returns (p: Put<K, G>)
    requires StoreInv(c, fs, root, puts, acked) && Lawful(c) && Backed(fs, root, tag)
    ensures p in puts && p.tag == tag && LoadShare(c, fs, root, Ok(p.pass), tag) == Ok(p.kp)
  {
    var o := Look(fs, PathOf(root, ShareAt(tag)));
    assert o in Possible(fs, PathOf(root, ShareAt(tag)));
    assert Legit(c, puts, ShareAt(tag), o.value.doc);
    p :| p in puts && p.tag == tag && p.pass == o.value.doc.pass && c.writeKey(p.kp) == Some(o.value.doc.plaintext);
  }

  lemma EnvelopeLoads<K(!new), G(!new)>(
      c: Codec<K, G>, fs: StoreFs, root: Path, puts: set<Put<K, G>>, acked: set<Put<K, G>>, tag: ShareTag)
      returns (q: Put<K, G>)
    requires StoreInv(c, fs, root, puts, acked) && Lawful(c) && Backed(fs, root, tag)
    ensures q in puts && q.tag.keyId == tag.keyId && q.tag.epoch == tag.epoch && GroupLoads(c, fs, root, tag, q.group)
  {
    var o := Look(fs, PathOf(root, PublicAt(tag)));
    assert o in Possible(fs, PathOf(root, PublicAt(tag)));
    assert Legit(c, puts, PublicAt(tag), o.value.doc);
    var bytes;
    q, bytes :| q in puts && q.tag.keyId == tag.keyId && q.tag.epoch == tag.epoch
      && c.writeGroup(q.group) == Some(bytes) && o.value.doc == EnvelopeDoc(tag.keyId, tag.epoch, Hex(bytes));
    UnhexHex(bytes);
  }

  /** After any run and any crash the manifest parses, carries no tag twice, and every entry leads to
      a complete share that was put under exactly that tag and to a group that was put under its key id
      and epoch. */
  lemma StoreRecovers<K(!new), G(!new)>(
      c: Codec<K, G>, fs: StoreFs, root: Path, puts: set<Put<K, G>>, acked: set<Put<K, G>>, e: ShareEntry)
    requires StoreInv(c, fs, root, puts, acked) && Lawful(c)
    ensures LoadManifest(fs, root).Ok? && DistinctTags(LoadManifest(fs, root).value)
    ensures e in LoadManifest(fs, root).value ==> EntryLoads(c, fs, root, puts, e)
  {
    var at := PathOf(root, ManifestKey);
    assert ValidKey(ManifestKey) && Look(fs, at) in Possible(fs, at);
    assert DocAt(fs, at).Some? ==> Legit(c, puts, ManifestKey, DocAt(fs, at).value);
    var shares := LoadManifest(fs, root).value;
    LoadedIsLegit(c, fs, root, puts, acked, at, shares);
    if e in shares {
      var t :| t in puts && IndexTag(t.tag) == TagOf(e);
      LookupOfMember(shares, e);
      assert Backed(fs, root, t.tag);
      var p := ShareLoads(c, fs, root, puts, acked, t.tag);
      var q := EnvelopeLoads(c, fs, root, puts, acked, t.tag);
      assert EntryLoads(c, fs, root, puts, e);
    }
  }

  predicate SameEpoch(a: ShareTag, b: ShareTag) {
    a.keyId == b.keyId && a.epoch == b.epoch
  }

  /** All puts under one key id and epoch carry one group. */
  ghost predicate OneGroup<K, G>(puts: set<Put<K, G>>) {
    forall p, q :: p in puts && q in puts && SameEpoch(p.tag, q.tag) ==> p.group == q.group
  }

  /** Then every entry leads to the package and the group of one and the same put. */
  lemma EntryLeadsToItsPut<K(!new), G(!new)>(
      c: Codec<K, G>, fs: StoreFs, root: Path, puts: set<Put<K, G>>, acked: set<Put<K, G>>, e: ShareEntry)
    requires StoreInv(c, fs, root, puts, acked) && Lawful(c) && OneGroup(puts)
    requires LoadManifest(fs, root).Ok? && e in LoadManifest(fs, root).value
    ensures exists p :: p in puts && IndexTag(p.tag) == TagOf(e) && PutLoads(c, fs, root, p)
  {
    StoreRecovers(c, fs, root, puts, acked, e);
    var p, q :| p in puts && q in puts && IndexTag(p.tag) == TagOf(e)
      && q.tag.keyId == p.tag.keyId && q.tag.epoch == p.tag.epoch
      && LoadShare(c, fs, root, Ok(p.pass), p.tag) == Ok(p.kp) && GroupLoads(c, fs, root, p.tag, q.group);
    assert SameEpoch(p.tag, q.tag);
    assert PutLoads(c, fs, root, p);
  }

  /** The package and the group of this put are what is read. */
  ghost predicate PutLoads<K, G>(c: Codec<K, G>, fs: StoreFs, root: Path, p: Put<K, G>) {
    LoadShare(c, fs, root, Ok(p.pass), p.tag) == Ok(p.kp) && GroupLoads(c, fs, root, p.tag, p.group)
  }

  /** Seats of one key id and epoch share one envelope: whoever wrote it last decides the group of all. */
  lemma LastEnvelopeDecides<K(!new), G(!new)>(
      c: Codec<K, G>, fs: StoreFs, root: Path, a: ShareTag, b: ShareTag, ga: G, gb: G)
    requires Lawful(c) && SameEpoch(a, b) && c.writeGroup(gb).Some?
    requires Settled(fs, PathOf(root, PublicAt(b)), EnvelopeDoc(b.keyId, b.epoch, Hex(c.writeGroup(gb).value)))
    ensures GroupLoads(c, fs, root, a, ga) <==> ga == gb
  {
    assert PublicAt(a) == PublicAt(b) && Look(fs, PathOf(root, PublicAt(b))) in Possible(fs, PathOf(root, PublicAt(b)));
    UnhexHex(c.writeGroup(gb).value);
  }

  /** A put of one seat after that of another, under one key id and epoch; the second may also stop after
      its first step, as when its encryption fails. The first seat stays indexed with its own share, and
      its entry leads to its own group exactly if both were put with the same. */
  method TwoPuts<K(!new), G(!new)>(
      store: ParticipantStore<K, G>, a: ShareTag, ka: K, ga: G, b: ShareTag, kb: K, gb: G, state: ShareState, whole: bool)
      returns (first: PutOutcome, second: PutOutcome)
    requires Lawful(store.codec) && store.passphrase.Ok? && SameEpoch(a, b) && a.seat != b.seat
    modifies store.disk
    ensures first.Stored? && second.Stored? ==>
      && IndexesNow(store.disk.fs, store.root, a)
      && LoadShare(store.codec, store.disk.fs, store.root, store.passphrase, a) == Ok(ka)
      && (GroupLoads(store.codec, store.disk.fs, store.root, a, ga) <==> ga == gb)
  {
    ghost var s0 := store.disk.fs;
    ghost var salt, createdAt;
    first, salt, createdAt := store.PutShare(a, ka, ga, state, {}, {});
    ghost var s1, entry := store.disk.fs, EntryOf(a, state, createdAt);
    if !first.Stored? {
      return first, first;
    }
    IndexedAfter(store, s0, s1, a, entry);
    second := SecondPut(store, a, ka, ga, b, kb, gb, state, whole, salt);
  }

  method SecondPut<K(!new), G(!new)>(
      store: ParticipantStore<K, G>, a: ShareTag, ka: K, ga: G, b: ShareTag, kb: K, gb: G, state: ShareState, whole: bool,
      ghost salt: nat) returns (second: PutOutcome)
    requires Lawful(store.codec) && store.passphrase.Ok? && SameEpoch(a, b) && a.seat != b.seat
    requires store.ShareSettled(store.disk.fs, a, ka, salt) && IndexesNow(store.disk.fs, store.root, a)
    modifies store.disk
    ensures second.Stored? ==>
      && IndexesNow(store.disk.fs, store.root, a)
      && LoadShare(store.codec, store.disk.fs, store.root, store.passphrase, a) == Ok(ka)
      && (GroupLoads(store.codec, store.disk.fs, store.root, a, ga) <==> ga == gb)
  {
    ghost var before := store.disk.fs;
    if whole {
      ghost var salt', createdAt';
      second, salt', createdAt' := store.PutShare(b, kb, gb, state, {}, {});
      if second.Stored? {
        StillIndexed(store, before, store.disk.fs, a, EntryOf(b, state, createdAt'));
        OtherSeatStays(store, before, store.disk.fs, FilesOf(b) + {ManifestKey}, a, ka, ga, b, gb, salt);
      }
    } else {
      second := store.PutPublicEnvelope(b, kb, gb, {Put(b, store.passphrase.value, kb, gb)}, {});
      if second.Stored? {
        ManifestStays(before, store.disk.fs, store.root, {PublicAt(b)});
        OtherSeatStays(store, before, store.disk.fs, {PublicAt(b)}, a, ka, ga, b, gb, salt);
      }
    }
  }

  lemma OtherSeatStays<K(!new), G(!new)>(
      store: ParticipantStore<K, G>, before: StoreFs, fs: StoreFs, keys: set<StoreKey>,
      a: ShareTag, ka: K, ga: G, b: ShareTag, gb: G, salt: nat)
    requires Lawful(store.codec) && SameEpoch(a, b) && a.seat != b.seat && store.ShareSettled(before, a, ka, salt)
    requires keys <= FilesOf(b) + {ManifestKey} && OnlyKeys(before, fs, store.root, keys)
    requires store.EnvelopeSettled(fs, b, gb)
    ensures LoadShare(store.codec, fs, store.root, store.passphrase, a) == Ok(ka)
    ensures GroupLoads(store.codec, fs, store.root, a, ga) <==> ga == gb
  {
    assert ShareAt(a) !in keys;
    store.ShareStays(before, fs, keys, a, ka, salt);
    ShareShows(store, fs, a, ka, salt);
    LastEnvelopeDecides(store.codec, fs, store.root, a, b, ga, gb);
  }

  predicate IndexesNow(fs: StoreFs, root: Path, tag: ShareTag) {
    LoadManifest(fs, root).Ok? && LookupIn(LoadManifest(fs, root).value, IndexTag(tag)).Some?
  }

  lemma IndexShows<K(!new), G(!new)>(store: ParticipantStore<K, G>, before: StoreFs, fs: StoreFs, entry: ShareEntry)
    requires store.IndexSettled(before, fs, entry)
    ensures LoadManifest(fs, store.root) == Ok(AddTo(LoadManifest(before, store.root).value, entry))
  {
    assert Look(fs, PathOf(store.root, ManifestKey)) in Possible(fs, PathOf(store.root, ManifestKey));
  }

  lemma IndexedAfter<K(!new), G(!new)>(
      store: ParticipantStore<K, G>, before: StoreFs, fs: StoreFs, tag: ShareTag, entry: ShareEntry)
    requires store.IndexSettled(before, fs, entry) && TagOf(entry) == IndexTag(tag)
    ensures IndexesNow(fs, store.root, tag)
  {
    IndexShows(store, before, fs, entry);
    LookupAfterAdd(LoadManifest(before, store.root).value, entry, IndexTag(tag));
  }

  lemma StillIndexed<K(!new), G(!new)>(
      store: ParticipantStore<K, G>, before: StoreFs, fs: StoreFs, tag: ShareTag, entry: ShareEntry)
    requires store.IndexSettled(before, fs, entry) && IndexesNow(before, store.root, tag)
    ensures IndexesNow(fs, store.root, tag)
  {
    IndexShows(store, before, fs, entry);
    LookupAfterAdd(LoadManifest(before, store.root).value, entry, IndexTag(tag));
  }

  lemma ShareShows<K(!new), G(!new)>(store: ParticipantStore<K, G>, fs: StoreFs, tag: ShareTag, kp: K, salt: nat)
    requires Lawful(store.codec) && store.ShareSettled(fs, tag, kp, salt)
    ensures LoadShare(store.codec, fs, store.root, store.passphrase, tag) == Ok(kp)
  {
    SealedLoads(store.codec, fs, store.root, store.passphrase.value, tag, kp, salt);
  }

  lemma SealedLoads<K(!new), G(!new)>(c: Codec<K, G>, fs: StoreFs, root: Path, pass: string, tag: ShareTag, kp: K, salt: nat)
    requires Lawful(c) && c.writeKey(kp).Some?
    requires Settled(fs, PathOf(root, ShareAt(tag)), Sealed(pass, salt, c.writeKey(kp).value))
    ensures LoadShare(c, fs, root, Ok(pass), tag) == Ok(kp)
  {
    SettledShows(fs, PathOf(root, ShareAt(tag)), Sealed(pass, salt, c.writeKey(kp).value));
  }

  lemma SettledShows(fs: StoreFs, p: Path, d: Doc)
    requires Settled(fs, p, d)
    ensures DocAt(fs, p) == Some(d)
  {
    assert Look(fs, p) in Possible(fs, p);
  }

  lemma {:induction false} LookupOfMember(shares: seq<ShareEntry>, e: ShareEntry)
    requires e in shares
    ensures LookupIn(shares, TagOf(e)).Some?
  {
    if shares[0] != e {
      LookupOfMember(shares[1..], e);
    }
  }

  /** An acknowledged share is never lost: it is indexed and loads with its passphrase, whatever
      happened since, unless its tag was attempted again. */
  lemma AcknowledgedLoads<K(!new), G(!new)>(
      c: Codec<K, G>, fs: StoreFs, root: Path, puts: set<Put<K, G>>, acked: set<Put<K, G>>, p: Put<K, G>)
    requires StoreInv(c, fs, root, puts, acked) && Lawful(c) && p in acked
    ensures LoadManifest(fs, root).Ok? && LookupIn(LoadManifest(fs, root).value, IndexTag(p.tag)).Some?
    ensures LoadShare(c, fs, root, Ok(p.pass), p.tag) == Ok(p.kp)
    ensures forall pass :: pass != p.pass ==> LoadShare(c, fs, root, Ok(pass), p.tag) == Err(Age)
  {
    var at := PathOf(root, ManifestKey);
    assert ValidKey(ManifestKey) && Look(fs, at) in Possible(fs, at);
    assert Held(c, fs, root, p);
    assert Legit(c, puts, ManifestKey, DocAt(fs, at).value);
    var share := PathOf(root, ShareAt(p.tag));
    assert Look(fs, share) in Possible(fs, share);
  }
}
