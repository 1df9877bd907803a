/** The plaintext index of a store's shares, and the spelling of seats in it. */
module Manifests {
  import opened Wrappers
  import opened Text

  // ---- seats ----

  /** The order of the secp256k1 scalar field. */
  const ORDER: int := 0xFFFFFFFF_FFFFFFFF_FFFFFFFF_FFFFFFFE_BAAEDCE6_AF48A03B_BFD25E8C_D0364141

  /** A FROST identifier is a nonzero scalar. */
  type SeatId = n: int | 0 < n < ORDER witness 1

  /** Big-endian bytes. */
  function Be(n: nat, width: nat): (r: seq<byte>)
    ensures |r| == width
  {
    if width == 0 then [] else Be(n / 256, width - 1) + [n % 256]
  }

  function BeValue(bytes: seq<byte>): nat {
    if bytes == [] then 0 else 256 * BeValue(bytes[..|bytes| - 1]) + bytes[|bytes| - 1]
  }

  lemma {:induction false} BeRoundTrip(n: nat, width: nat)
    requires n < Pow256(width)
    ensures BeValue(Be(n, width)) == n
  {
    if width > 0 {
      BeRoundTrip(n / 256, width - 1);
      assert Be(n, width)[..width - 1] == Be(n / 256, width - 1);
    }
  }

  lemma OrderFits()
    ensures ORDER < Pow256(32)
  {
    assert Pow256(4) == 0x1_0000_0000 by {
      assert Pow256(2) == 256 * Pow256(1) && Pow256(4) == 256 * Pow256(3);
    }
    PowSplit(4, 4);
    PowSplit(8, 8);
    PowSplit(16, 16);
  }

  lemma {:induction false} PowSplit(a: nat, b: nat)
    ensures Pow256(a + b) == Pow256(a) * Pow256(b)
  {
    if a > 0 {
      PowSplit(a - 1, b);
      assert 256 * (Pow256(a - 1) * Pow256(b)) == (256 * Pow256(a - 1)) * Pow256(b);
    }
  }

  /** Lower-case hex of the identifier's 32-byte serialization. */
  function SeatHex(seat: SeatId): string {
    Hex(Be(seat, 32))
  }

  datatype StoreError =
    | Io
    | Age
    | FrostFormat
    | Unserializable
    | Json
    | ManifestError
    | Schema

  /** `Identifier::deserialize`. */
  function DeserializeSeat(bytes: seq<byte>): Result<SeatId, StoreError> {
    if |bytes| == 32 && 0 < BeValue(bytes) < ORDER then Ok(BeValue(bytes)) else Err(FrostFormat)
  }

  function SeatFromHex(hex: string): Result<SeatId, StoreError> {
    match Unhex(hex)
    case None => Err(ManifestError)
    case Some(bytes) => DeserializeSeat(bytes)
  }

  /** Every seat written is read back, and only from its own spelling up to letter case and sign. */
  lemma SeatRoundTrip(seat: SeatId)
    ensures SeatFromHex(SeatHex(seat)) == Ok(seat)
  {
    UnhexHex(Be(seat, 32));
    OrderFits();
    BeRoundTrip(seat, 32);
  }

  lemma {:induction false} BeOfValue(bytes: seq<byte>)
    ensures BeValue(bytes) < Pow256(|bytes|) && Be(BeValue(bytes), |bytes|) == bytes
  {
    if bytes != [] {
      var last := |bytes| - 1;
      BeOfValue(bytes[..last]);
      assert BeValue(bytes) / 256 == BeValue(bytes[..last]) && BeValue(bytes) % 256 == bytes[last];
    }
  }

  /** A text is read as a seat exactly if its bytes are the seat's own 32 bytes. */
  lemma SeatReadsExactly(hex: string, seat: SeatId)
    ensures SeatFromHex(hex) == Ok(seat) <==> Unhex(hex) == Some(Be(seat, 32))
  {
    if Unhex(hex).Some? && |Unhex(hex).value| == 32 {
      BeOfValue(Unhex(hex).value);
    }
    OrderFits();
    BeRoundTrip(seat, 32);
  }

  lemma SeatHexInjective(a: SeatId, b: SeatId)
    requires SeatHex(a) == SeatHex(b)
    ensures a == b
  {
    SeatRoundTrip(a);
    SeatRoundTrip(b);
  }

  // ---- entries ----

  const CURRENT_SCHEMA_VERSION: nat := 1

  datatype ShareState = Active | Standby | Retired

  datatype ShareEntry = ShareEntry(keyId: string, epoch: u64, seat: string, state: ShareState, createdAt: u64)

  /** The key of an entry. */
  datatype EntryTag = EntryTag(keyId: string, epoch: u64, seat: string)

  function TagOf(e: ShareEntry): EntryTag {
    EntryTag(e.keyId, e.epoch, e.seat)
  }

  // ---- the index as a finite map ----

  function LookupIn(shares: seq<ShareEntry>, tag: EntryTag): Option<ShareEntry> {
    if shares == [] then None
    else if TagOf(shares[0]) == tag then Some(shares[0])
    else LookupIn(shares[1..], tag)
  }

  /** Replace the first entry with the same tag, else append. */
  function AddTo(shares: seq<ShareEntry>, entry: ShareEntry): seq<ShareEntry> {
    if shares == [] then [entry]
    else if TagOf(shares[0]) == TagOf(entry) then [entry] + shares[1..]
    else [shares[0]] + AddTo(shares[1..], entry)
  }

  /** Drop every entry with the tag. */
  function RemoveFrom(shares: seq<ShareEntry>, tag: EntryTag): seq<ShareEntry> {
    if shares == [] then []
    else (if TagOf(shares[0]) == tag then [] else [shares[0]]) + RemoveFrom(shares[1..], tag)
  }

  ghost predicate DistinctTags(shares: seq<ShareEntry>) {
    forall i, j :: 0 <= i < j < |shares| ==> TagOf(shares[i]) != TagOf(shares[j])
  }

  /** Adding refines a map update, for every list, parsed ones with duplicates included. */
  lemma {:induction false} LookupAfterAdd(shares: seq<ShareEntry>, entry: ShareEntry, tag: EntryTag)
    ensures LookupIn(AddTo(shares, entry), tag) == if tag == TagOf(entry) then Some(entry) else LookupIn(shares, tag)
  {
    if shares != [] && TagOf(shares[0]) != TagOf(entry) {
      LookupAfterAdd(shares[1..], entry, tag);
      assert AddTo(shares, entry)[1..] == AddTo(shares[1..], entry);
    } else if shares != [] {
      assert AddTo(shares, entry)[1..] == shares[1..];
    }
  }

  /** Removing refines a map deletion, duplicates included. */
  lemma {:induction false} LookupAfterRemove(shares: seq<ShareEntry>, removed: EntryTag, tag: EntryTag)
    ensures LookupIn(RemoveFrom(shares, removed), tag) == if tag == removed then None else LookupIn(shares, tag)
  {
    if shares != [] {
      LookupAfterRemove(shares[1..], removed, tag);
      if TagOf(shares[0]) != removed {
        assert RemoveFrom(shares, removed)[1..] == RemoveFrom(shares[1..], removed);
      } else {
        assert RemoveFrom(shares, removed) == RemoveFrom(shares[1..], removed);
      }
    }
  }

  /** Adding leaves every tag and every entry with another tag at its position; a new position appears
      only when no entry has the tag. */
  lemma {:induction false} AddKeepsOthers(shares: seq<ShareEntry>, entry: ShareEntry)
    ensures |shares| <= |AddTo(shares, entry)| <= |shares| + 1 && entry in AddTo(shares, entry)
    ensures forall i :: 0 <= i < |shares| ==> TagOf(AddTo(shares, entry)[i]) == TagOf(shares[i])
    ensures forall i :: 0 <= i < |shares| && AddTo(shares, entry)[i] != entry ==> AddTo(shares, entry)[i] == shares[i]
    ensures |AddTo(shares, entry)| > |shares| ==>
      AddTo(shares, entry)[|shares|] == entry && forall i :: 0 <= i < |shares| ==> TagOf(shares[i]) != TagOf(entry)
  {
    if shares != [] && TagOf(shares[0]) != TagOf(entry) {
      AddKeepsOthers(shares[1..], entry);
      var rest, all := AddTo(shares[1..], entry), AddTo(shares, entry);
      assert all == [shares[0]] + rest;
      assert all[1..] == rest;
      forall i | 0 < i < |shares| ensures all[i] == rest[i - 1] && shares[i] == shares[1..][i - 1] {}
    }
  }

  /** Adding keeps tags unique. */
  lemma AddKeepsDistinct(shares: seq<ShareEntry>, entry: ShareEntry)
    requires DistinctTags(shares)
    ensures DistinctTags(AddTo(shares, entry))
  {
    AddKeepsOthers(shares, entry);
  }

  /** What a list with unique tags holds after adding: the entry, and the others with other tags. */
  lemma {:induction false} AddMembers(shares: seq<ShareEntry>, entry: ShareEntry, e: ShareEntry)
    requires DistinctTags(shares)
    ensures e in AddTo(shares, entry) <==> e == entry || (e in shares && TagOf(e) != TagOf(entry))
  {
    if shares != [] {
      assert shares == [shares[0]] + shares[1..];
      if TagOf(shares[0]) != TagOf(entry) {
        AddMembers(shares[1..], entry, e);
      } else if e in shares[1..] {
        var i :| 0 <= i < |shares[1..]| && shares[1..][i] == e;
        assert shares[i + 1] == e;
      }
    }
  }

  /** Removing takes something away exactly when the tag was there. */
  lemma {:induction false} RemoveShortens(shares: seq<ShareEntry>, tag: EntryTag)
    ensures |RemoveFrom(shares, tag)| <= |shares|
    ensures |RemoveFrom(shares, tag)| != |shares| <==> LookupIn(shares, tag).Some?
    ensures LookupIn(shares, tag).None? ==> RemoveFrom(shares, tag) == shares
  {
    if shares != [] {
      RemoveShortens(shares[1..], tag);
      assert shares == [shares[0]] + shares[1..];
    }
  }

  /** Removing keeps exactly the entries with other tags, and unique tags unique. */
  lemma {:induction false} RemoveKeepsOthers(shares: seq<ShareEntry>, tag: EntryTag)
    ensures DistinctTags(shares) ==> DistinctTags(RemoveFrom(shares, tag))
    ensures forall e :: e in RemoveFrom(shares, tag) <==> e in shares && TagOf(e) != tag
  {
    if shares != [] {
      var rest := RemoveFrom(shares[1..], tag);
      RemoveKeepsOthers(shares[1..], tag);
      assert shares == [shares[0]] + shares[1..];
      if DistinctTags(shares) {
        assert DistinctTags(shares[1..]);
        forall e | e in rest ensures TagOf(e) != TagOf(shares[0]) {
          var i :| 0 <= i < |shares[1..]| && shares[1..][i] == e;
          assert shares[i + 1] == e;
        }
      }
    }
  }

  method Retain(all: seq<ShareEntry>, tag: EntryTag) returns (kept: seq<ShareEntry>)
    ensures kept == RemoveFrom(all, tag)
  {
    kept := [];
    assert all[0..] == all;
    for i := 0 to |all|
      invariant RemoveFrom(all, tag) == kept + RemoveFrom(all[i..], tag)
    {
      assert all[i..][0] == all[i] && all[i..][1..] == all[i + 1..];
      if TagOf(all[i]) != tag {
        kept := kept + [all[i]];
      }
    }
  }

  // ---- the manifest object ----

  class Manifest {
    var schemaVersion: nat
    var shares: seq<ShareEntry>

    constructor ()
      ensures schemaVersion == CURRENT_SCHEMA_VERSION && shares == []
    {
      schemaVersion, shares := CURRENT_SCHEMA_VERSION, [];
    }

    constructor Parsed(version: nat, entries: seq<ShareEntry>)
      ensures schemaVersion == version && shares == entries
    {
      schemaVersion, shares := version, entries;
    }

    /** Position of the first entry with the tag, or the length. */
    method Find(tag: EntryTag) returns (i: nat)
      ensures i <= |shares|
      ensures forall k :: 0 <= k < i ==> TagOf(shares[k]) != tag
      ensures i < |shares| ==> TagOf(shares[i]) == tag
    {
      i := 0;
      while i < |shares| && TagOf(shares[i]) != tag
        invariant 0 <= i <= |shares|
        invariant forall k :: 0 <= k < i ==> TagOf(shares[k]) != tag
      {
        i := i + 1;
      }
    }

    method AddEntry(entry: ShareEntry)
      modifies this
      ensures shares == AddTo(old(shares), entry) && schemaVersion == old(schemaVersion)
      ensures DistinctTags(old(shares)) ==> DistinctTags(shares)
    {
      var i := Find(TagOf(entry));
      AddAtFirst(shares, entry, i);
      if DistinctTags(shares) {
        AddKeepsDistinct(shares, entry);
      }
      if i < |shares| {
        shares := shares[i := entry];
      } else {
        shares := shares + [entry];
      }
    }

    method Lookup(tag: EntryTag) returns (found: Option<ShareEntry>)
      ensures found == LookupIn(shares, tag)
    {
      var i := Find(tag);
      LookupAtFirst(shares, tag, i);
      found := if i < |shares| then Some(shares[i]) else None;
    }

    /** `retain`, and whether anything went away. */
    method RemoveEntry(tag: EntryTag) returns (removed: bool)
      modifies this
      ensures shares == RemoveFrom(old(shares), tag) && schemaVersion == old(schemaVersion)
      ensures removed <==> LookupIn(old(shares), tag).Some?
    {
      RemoveShortens(shares, tag);
      var before := |shares|;
      shares := Retain(shares, tag);
      removed := |shares| != before;
    }
  }

  lemma {:induction false} AddAtFirst(shares: seq<ShareEntry>, entry: ShareEntry, i: nat)
    requires i <= |shares| && forall k :: 0 <= k < i ==> TagOf(shares[k]) != TagOf(entry)
    requires i < |shares| ==> TagOf(shares[i]) == TagOf(entry)
    ensures AddTo(shares, entry) == if i < |shares| then shares[i := entry] else shares + [entry]
  {
    if i > 0 {
      AddAtFirst(shares[1..], entry, i - 1);
    }
  }

  lemma {:induction false} LookupAtFirst(shares: seq<ShareEntry>, tag: EntryTag, i: nat)
    requires i <= |shares| && forall k :: 0 <= k < i ==> TagOf(shares[k]) != tag
    requires i < |shares| ==> TagOf(shares[i]) == tag
    ensures LookupIn(shares, tag) == if i < |shares| then Some(shares[i]) else None
  {
    if i > 0 {
      LookupAtFirst(shares[1..], tag, i - 1);
    }
  }
}
