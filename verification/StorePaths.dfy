/** Where a store keeps its files.

    Paths are built by joining texts, as `PathBuf::join` does: separators inside a joined text split
    it, and an absolute text replaces the path. Validated ids are what keeps every file where it
    belongs. */
module StorePaths {
  import opened Text
  import opened FileSystem
  import opened Manifests

  // ---- joining ----

  /** The components of a text: split at `/`, empty and `.` components dropped. */
  function Components(s: string): seq<string> {
    ComponentsFrom(s, [])
  }

  function ComponentsFrom(s: string, part: string): seq<string>
    decreases |s|
  {
    if s == [] then Keep(part)
    else if s[0] == '/' then Keep(part) + ComponentsFrom(s[1..], [])
    else ComponentsFrom(s[1..], part + [s[0]])
  }

  function Keep(part: string): seq<string> {
    if part == "" || part == "." then [] else [part]
  }

  function Join(base: Path, s: string): Path {
    if s != "" && s[0] == '/' then Components(s) else base + Components(s)
  }

  predicate NoSlash(s: string) {
    forall i :: 0 <= i < |s| ==> s[i] != '/'
  }

  lemma {:induction false} ComponentsOfPlain(s: string, part: string)
    requires NoSlash(s)
    ensures ComponentsFrom(s, part) == Keep(part + s)
    decreases |s|
  {
    if s == [] {
      assert part + s == part;
    } else {
      ComponentsOfPlain(s[1..], part + [s[0]]);
      assert part + [s[0]] + s[1..] == part + s;
    }
  }

  /** A text that is one plain component stays one. */
  lemma JoinPlain(base: Path, s: string)
    requires NoSlash(s) && |s| >= 2
    ensures Join(base, s) == base + [s]
  {
    ComponentsOfPlain(s, "");
    assert "" + s == s;
  }

  // ---- validated ids ----

  predicate IsIdChar(c: char) {
    'a' <= c <= 'z' || 'A' <= c <= 'Z' || '0' <= c <= '9' || c == '-' || c == '_'
  }

  /** `KeyId::new` and `CeremonyId::new`: a nonempty text of letters, digits, `-` and `_`. */
  predicate IsSafeId(s: string) {
    s != "" && forall i :: 0 <= i < |s| ==> IsIdChar(s[i])
  }

  type KeyId = s: string | IsSafeId(s) witness "active"

  const ACTIVE: KeyId := "active"

  lemma JoinSafeId(base: Path, s: string)
    requires IsSafeId(s)
    ensures Join(base, s) == base + [s]
  {
    assert NoSlash(s);
    ComponentsOfPlain(s, "");
    assert "" + s == s;
    assert s[0] != '.';
  }

  lemma {:induction false} NoSlashInComponents(s: string, part: string)
    requires NoSlash(part)
    ensures forall c :: c in ComponentsFrom(s, part) ==> NoSlash(c)
    decreases |s|
  {
    if s != [] {
      if s[0] == '/' {
        NoSlashInComponents(s[1..], []);
      } else {
        NoSlashInComponents(s[1..], part + [s[0]]);
      }
    }
  }

  lemma JoinedIsComponent(base: Path, s: string)
    ensures Join(base, s) == base + [s] ==> s in Components(s)
  {
    if Join(base, s) == base + [s] {
      assert (base + [s])[|base|] == s;
      if s == "" || s[0] != '/' {
        assert (base + Components(s))[|base|] == Components(s)[0];
      }
    }
  }

  /** A text becomes one component below the base exactly if it is neither empty nor `.` and holds no
      separator. Validated ids do, and they are never the parent reference `..` either. */
  lemma JoinExactly(base: Path, s: string)
    ensures Join(base, s) == base + [s] <==> s != "" && s != "." && NoSlash(s)
    ensures IsSafeId(s) ==> Join(base, s) == base + [s] && s != ".."
  {
    if NoSlash(s) {
      ComponentsOfPlain(s, "");
      assert "" + s == s;
    } else {
      NoSlashInComponents(s, "");
      JoinedIsComponent(base, s);
    }
    if IsSafeId(s) {
      assert IsIdChar(s[0]);
    }
  }

  // ---- the files of a store ----

  datatype StoreKey =
    | ManifestKey
    | ShareKey(keyId: string, epoch: u64, seat: SeatId)
    | PublicKey(keyId: string, epoch: u64)
    | RoundKey(ceremony: string, seat: SeatId, round: u64)

  predicate ValidKey(k: StoreKey) {
    match k
    case ManifestKey => true
    case ShareKey(keyId, _, _) => IsSafeId(keyId)
    case PublicKey(keyId, _) => IsSafeId(keyId)
    case RoundKey(ceremony, _, _) => IsSafeId(ceremony)
  }

  function CeremonyDir(root: Path, ceremony: string): Path {
    Join(Join(root, "ceremonies"), ceremony)
  }

  function PathOf(root: Path, k: StoreKey): Path {
    match k
    case ManifestKey => Join(root, "manifest.json")
    case ShareKey(keyId, epoch, seat) =>
      Join(Join(Join(Join(root, "shares"), keyId), "epoch-" + Decimal(epoch)), "seat-" + SeatHex(seat) + ".age")
    case PublicKey(keyId, epoch) =>
      Join(Join(Join(root, "pubkey"), keyId), "epoch-" + Decimal(epoch) + ".json")
    case RoundKey(ceremony, seat, round) =>
      Join(Join(CeremonyDir(root, ceremony), SeatHex(seat)), "round-" + Decimal(round) + ".age")
  }

  /** The components below the root. */
  function Below(k: StoreKey): Path {
    match k
    case ManifestKey => ["manifest.json"]
    case ShareKey(keyId, epoch, seat) => ["shares", keyId, "epoch-" + Decimal(epoch), "seat-" + SeatHex(seat) + ".age"]
    case PublicKey(keyId, epoch) => ["pubkey", keyId, "epoch-" + Decimal(epoch) + ".json"]
    case RoundKey(ceremony, seat, round) =>
      ["ceremonies", ceremony, SeatHex(seat), "round-" + Decimal(round) + ".age"]
  }

  lemma {:induction false} HexIsPlain(bytes: seq<byte>)
    ensures NoSlash(Hex(bytes))
  {
    if bytes != [] {
      HexIsPlain(bytes[1..]);
      assert NoSlash(HexByte(bytes[0]));
    }
  }

  /** Joining one plain component after another. */
  lemma JoinFour(root: Path, a: string, id: string, c: string, d: string)
    requires NoSlash(a) && |a| >= 2 && IsSafeId(id) && NoSlash(c) && |c| >= 2 && NoSlash(d) && |d| >= 2
    ensures Join(Join(root, a), id) == root + [a, id]
    ensures Join(Join(Join(root, a), id), c) == root + [a, id, c]
    ensures Join(Join(Join(Join(root, a), id), c), d) == root + [a, id, c, d]
  {
    JoinPlain(root, a);
    JoinSafeId(root + [a], id);
    assert root + [a] + [id] == root + [a, id];
    JoinPlain(root + [a, id], c);
    assert root + [a, id] + [c] == root + [a, id, c];
    JoinPlain(root + [a, id, c], d);
    assert root + [a, id, c] + [d] == root + [a, id, c, d];
  }

  predicate IsPlain(s: string) {
    NoSlash(s) && |s| >= 2
  }

  lemma NumbersArePlain(n: nat)
    ensures IsPlain("epoch-" + Decimal(n)) && IsPlain("epoch-" + Decimal(n) + ".json")
    ensures IsPlain("round-" + Decimal(n) + ".age")
  {
    assert NoSlash(Decimal(n));
    NoSlashAppend("epoch-", Decimal(n));
    NoSlashAppend("epoch-" + Decimal(n), ".json");
    NoSlashAppend("round-", Decimal(n));
    NoSlashAppend("round-" + Decimal(n), ".age");
  }

  lemma SeatsArePlain(seat: SeatId)
    ensures IsPlain(SeatHex(seat)) && IsPlain("seat-" + SeatHex(seat) + ".age")
  {
    HexIsPlain(Be(seat, 32));
    NoSlashAppend("seat-", SeatHex(seat));
    NoSlashAppend("seat-" + SeatHex(seat), ".age");
  }

  lemma NoSlashAppend(a: string, b: string)
    requires NoSlash(a) && NoSlash(b)
    ensures NoSlash(a + b)
  {
  }

  lemma SharePathBelow(root: Path, keyId: string, epoch: u64, seat: SeatId)
    requires IsSafeId(keyId)
    ensures PathOf(root, ShareKey(keyId, epoch, seat)) == root + Below(ShareKey(keyId, epoch, seat))
  {
    NumbersArePlain(epoch);
    SeatsArePlain(seat);
    JoinFour(root, "shares", keyId, "epoch-" + Decimal(epoch), "seat-" + SeatHex(seat) + ".age");
  }

  lemma PublicPathBelow(root: Path, keyId: string, epoch: u64)
    requires IsSafeId(keyId)
    ensures PathOf(root, PublicKey(keyId, epoch)) == root + Below(PublicKey(keyId, epoch))
  {
    NumbersArePlain(epoch);
    JoinFour(root, "pubkey", keyId, "epoch-" + Decimal(epoch) + ".json", "unused");
  }

  lemma RoundPathBelow(root: Path, ceremony: string, seat: SeatId, round: u64)
    requires IsSafeId(ceremony)
    ensures PathOf(root, RoundKey(ceremony, seat, round)) == root + Below(RoundKey(ceremony, seat, round))
  {
    NumbersArePlain(round);
    SeatsArePlain(seat);
    JoinFour(root, "ceremonies", ceremony, SeatHex(seat), "round-" + Decimal(round) + ".age");
  }

  lemma PathOfBelow(root: Path, k: StoreKey)
    requires ValidKey(k)
    ensures PathOf(root, k) == root + Below(k)
  {
    match k {
      case ManifestKey => JoinPlain(root, "manifest.json");
      case ShareKey(keyId, epoch, seat) => SharePathBelow(root, keyId, epoch, seat);
      case PublicKey(keyId, epoch) => PublicPathBelow(root, keyId, epoch);
      case RoundKey(ceremony, seat, round) => RoundPathBelow(root, ceremony, seat, round);
    }
  }

  lemma Framed(pre: string, a: string, b: string, post: string)
    requires pre + a + post == pre + b + post
    ensures a == b
  {
    assert (pre + a + post)[|pre|..|pre| + |a|] == a && (pre + b + post)[|pre|..|pre| + |b|] == b;
  }

  lemma BelowInjective(a: StoreKey, b: StoreKey)
    requires Below(a) == Below(b)
    ensures a == b
  {
    assert Below(a)[0] == Below(b)[0];
    match a {
      case ManifestKey =>
      case ShareKey(keyId, epoch, seat) =>
        assert b.ShareKey?;
        assert Below(a)[1] == Below(b)[1] && Below(a)[2] == Below(b)[2] && Below(a)[3] == Below(b)[3];
        Framed("epoch-", Decimal(epoch), Decimal(b.epoch), "");
        assert "epoch-" + Decimal(epoch) + "" == "epoch-" + Decimal(epoch);
        DecimalInjective(epoch, b.epoch);
        Framed("seat-", SeatHex(seat), SeatHex(b.seat), ".age");
        SeatHexInjective(seat, b.seat);
      case PublicKey(keyId, epoch) =>
        assert b.PublicKey?;
        assert Below(a)[1] == Below(b)[1] && Below(a)[2] == Below(b)[2];
        Framed("epoch-", Decimal(epoch), Decimal(b.epoch), ".json");
        DecimalInjective(epoch, b.epoch);
      case RoundKey(ceremony, seat, round) =>
        assert b.RoundKey?;
        assert Below(a)[1] == Below(b)[1] && Below(a)[2] == Below(b)[2] && Below(a)[3] == Below(b)[3];
        SeatHexInjective(seat, b.seat);
        Framed("round-", Decimal(round), Decimal(b.round), ".age");
        DecimalInjective(round, b.round);
    }
  }

  /** One root refines independent maps: different keys, of one kind or of two, have different files. */
  lemma PathOfInjective(root: Path, a: StoreKey, b: StoreKey)
    requires ValidKey(a) && ValidKey(b) && PathOf(root, a) == PathOf(root, b)
    ensures a == b
  {
    PathOfBelow(root, a);
    PathOfBelow(root, b);
    assert (root + Below(a))[|root|..] == Below(a) && (root + Below(b))[|root|..] == Below(b);
    BelowInjective(a, b);
  }

  /** Final names are never temporary names. */
  lemma PathOfIsFinal(root: Path, k: StoreKey)
    requires ValidKey(k)
    ensures PathOf(root, k) != [] && !IsTemp(PathOf(root, k)) && root < PathOf(root, k)
  {
    PathOfBelow(root, k);
    var p := PathOf(root, k);
    assert p[|p| - 1] == Below(k)[|Below(k)| - 1];
    match k {
      case ManifestKey => assert "manifest.json"[0] == 'm';
      case ShareKey(_, _, seat) => assert ("seat-" + SeatHex(seat) + ".age")[0] == 's';
      case PublicKey(_, epoch) => assert ("epoch-" + Decimal(epoch) + ".json")[0] == 'e';
      case RoundKey(_, _, round) => assert ("round-" + Decimal(round) + ".age")[0] == 'r';
    }
  }

  lemma PrefixBelow(root: Path, a: Path, b: Path)
    ensures root + a <= root + b <==> a <= b
  {
    assert (root + a)[|root|..] == a && (root + b)[|root|..] == b;
    if root + a <= root + b {
      forall i | 0 <= i < |a| ensures a[i] == b[i] {
        assert (root + a)[|root| + i] == (root + b)[|root| + i];
      }
    }
  }

  lemma CeremonyDirIs(root: Path, ceremony: string)
    requires IsSafeId(ceremony)
    ensures CeremonyDir(root, ceremony) == root + ["ceremonies", ceremony]
  {
    JoinPlain(root, "ceremonies");
    JoinSafeId(root + ["ceremonies"], ceremony);
    assert root + ["ceremonies"] + [ceremony] == root + ["ceremonies", ceremony];
  }

  lemma CeremonyPrefix(ceremony: string, k: StoreKey)
    ensures ["ceremonies", ceremony] <= Below(k) <==> k.RoundKey? && k.ceremony == ceremony
  {
    if ["ceremonies", ceremony] <= Below(k) {
      assert Below(k)[0] == "ceremonies" && Below(k)[1] == ceremony;
    }
  }

  /** The files below a ceremony's directory are exactly the files of that ceremony. */
  lemma CeremonyOwnsItsFiles(root: Path, ceremony: string, k: StoreKey)
    requires IsSafeId(ceremony) && ValidKey(k)
    ensures CeremonyDir(root, ceremony) <= PathOf(root, k) <==> k.RoundKey? && k.ceremony == ceremony
  {
    CeremonyDirIs(root, ceremony);
    PathOfBelow(root, k);
    PrefixBelow(root, ["ceremonies", ceremony], Below(k));
    CeremonyPrefix(ceremony, k);
  }
}
