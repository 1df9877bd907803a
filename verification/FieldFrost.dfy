/** FROST over a prime-order group, with the taproot tweak (RFC 9591 sections 4 and 5, BIP340,
    BIP341).

    A group element `x * G` is represented by its discrete logarithm `x` modulo the prime order, so
    verification equations are congruences; hashes and the parity of the y coordinate are arbitrary
    functions of the instance. */
module FieldFrost {
  import opened Wrappers
  import opened Ordered
  import opened Text
  import opened Envelopes
  import opened Frost
  import opened Field

  datatype Commitment = Commitment(hiding: nat, binding: nat)

  datatype Nonces = Nonces(hiding: nat, binding: nat)

  datatype KeyPackage = KeyPackage(id: Identifier, share: nat, key: nat, min: nat)

  /** The group key and, per seat, the public counterpart of its share. */
  datatype GroupPackage = GroupPackage(key: nat, shares: map<Identifier, nat>, min: nat)

  datatype Signature = Signature(r: nat, z: nat)

  /** The group order, the parity of an element, and the hash functions: taproot tweak, binding
      factor, challenge, and the derivation of a nonce pair from a secret share and a draw. */
  datatype Curve = Curve(
    q: int,
    even: nat -> bool,
    tweak: nat -> int,
    bind: (Identifier, seq<byte>, map<Identifier, Commitment>, nat) -> int,
    challenge: (nat, nat, seq<byte>) -> int,
    nonce: (nat, nat) -> (int, int))

  /** A prime order that fits 32 bytes. */
  ghost predicate ValidCurve(c: Curve) {
    IsPrime(c.q) && c.q <= Pow256(32)
  }

  function Mod(c: Curve, x: int): nat
    requires c.q > 0
  {
    x % c.q
  }

  /** The sign that makes an element even. */
  function Sign(c: Curve, x: nat): int {
    if c.even(x) then 1 else -1
  }

  /** The even one of an element and its negation. */
  function EvenRep(c: Curve, x: nat): nat
    requires c.q > 0
  {
    Mod(c, Sign(c, x) * x)
  }

  /** Of an element and its negation exactly one is even. */
  ghost predicate ParityLaw(c: Curve) {
    forall x: nat :: 0 < x < c.q ==> (c.even(x) <==> !c.even(c.q - x))
  }

  /** The even representative is the element or its negation, and it is even. */
  lemma EvenRepIsEven(c: Curve, x: nat)
    requires 0 < x < c.q && ParityLaw(c)
    ensures c.even(EvenRep(c, x)) && (EvenRep(c, x) == x || EvenRep(c, x) == c.q - x)
  {
    if c.even(x) {
      assert Sign(c, x) * x == x;
      RemainderUnique(c.q, x, 0, x);
    } else {
      assert Sign(c, x) * x == -(x as int);
      RemainderUnique(c.q, -(x as int), -1, c.q - x);
    }
  }

  // ---- keys ----

  function EvenKey(c: Curve, kp: KeyPackage): KeyPackage
    requires c.q > 0
  {
    var s := Sign(c, kp.key);
    kp.(share := Mod(c, s * kp.share), key := Mod(c, s * kp.key))
  }

  /** Normalize, then shift share and key by the taproot tweak of the even internal key. */
  function TweakKey(c: Curve, kp: KeyPackage): KeyPackage
    requires c.q > 0
  {
    var e := EvenKey(c, kp);
    var t := c.tweak(e.key);
    e.(share := Mod(c, e.share + t), key := Mod(c, e.key + t))
  }

  function EvenGroup(c: Curve, g: GroupPackage): GroupPackage
    requires c.q > 0
  {
    var s := Sign(c, g.key);
    g.(key := Mod(c, s * g.key), shares := map id | id in g.shares :: Mod(c, s * g.shares[id]))
  }

  /** The same for what the coordinator knows of the keys. */
  function TweakGroup(c: Curve, g: GroupPackage): GroupPackage
    requires c.q > 0
  {
    var e := EvenGroup(c, g);
    var t := c.tweak(e.key);
    e.(key := Mod(c, e.key + t), shares := map id | id in e.shares :: Mod(c, e.shares[id] + t))
  }

  /** The output key Q of an internal key P. */
  function OutputKey(c: Curve, p: nat): nat
    requires c.q > 0
  {
    Mod(c, EvenRep(c, p) + c.tweak(EvenRep(c, p)))
  }

  /** The key under which signatures verify. */
  function SigningKey(c: Curve, p: nat): nat
    requires c.q > 0
  {
    EvenRep(c, OutputKey(c, p))
  }

  // ---- signing ----

  function Factor(c: Curve, package: Package<Commitment>, key: nat, id: Identifier): int {
    c.bind(id, package.message, package.commitments, key)
  }

  function CommitmentShare(c: Curve, package: Package<Commitment>, key: nat, id: Identifier): int
    requires id in package.commitments
  {
    package.commitments[id].hiding + Factor(c, package, key, id) * package.commitments[id].binding
  }

  function Total(xs: seq<int>): int {
    if xs == [] then 0 else Total(xs[..|xs| - 1]) + xs[|xs| - 1]
  }

  function CommitmentShares(c: Curve, package: Package<Commitment>, key: nat, ids: seq<Identifier>): (r: seq<int>)
    requires forall i :: 0 <= i < |ids| ==> ids[i] in package.commitments
    ensures |r| == |ids| && forall i :: 0 <= i < |ids| ==> r[i] == CommitmentShare(c, package, key, ids[i])
  {
    seq(|ids|, i requires 0 <= i < |ids| => CommitmentShare(c, package, key, ids[i]))
  }

  function GroupCommitment(c: Curve, package: Package<Commitment>, key: nat): nat
    requires c.q > 0
  {
    Mod(c, Total(CommitmentShares(c, package, key, Roster(package.commitments))))
  }

  function Challenge(c: Curve, package: Package<Commitment>, key: nat): int
    requires c.q > 0
  {
    c.challenge(EvenRep(c, GroupCommitment(c, package, key)), key, package.message)
  }

  const BAD_PACKAGE: FrostError := FrostError(1, [])
  const IDENTITY: FrostError := FrostError(2, [])
  const BAD_ENCODING: FrostError := FrostError(4, [])

  function BadShare(culprits: seq<Identifier>): FrostError {
    FrostError(3, culprits)
  }

  /** `sign_with_tweak(.., None)`. */
  function SignWithTweak(c: Curve, package: Package<Commitment>, n: Nonces, kp: KeyPackage): Result<nat, FrostError>
    requires c.q > 0
  {
    var k := EvenKey(c, TweakKey(c, kp));
    if |package.commitments| < kp.min || kp.id !in package.commitments ||
       package.commitments[kp.id] != Commitment(n.hiding, n.binding) then Err(BAD_PACKAGE)
    else
      var r := GroupCommitment(c, package, k.key);
      if r == 0 || k.key == 0 then Err(IDENTITY)
      else
        var lambda := Lambda(c.q, Roster(package.commitments), kp.id);
        Ok(Mod(c, Sign(c, r) * (n.hiding + Factor(c, package, k.key, kp.id) * n.binding)
                  + lambda * k.share * Challenge(c, package, k.key)))
  }

  function ValuesAt(shares: map<Identifier, nat>, ids: seq<Identifier>): (r: seq<int>)
    requires forall i :: 0 <= i < |ids| ==> ids[i] in shares
    ensures |r| == |ids| && forall i :: 0 <= i < |ids| ==> r[i] == shares[ids[i]]
  {
    seq(|ids|, i requires 0 <= i < |ids| => shares[ids[i]])
  }

  /** `z G == R + e Q`. */
  predicate Equation(q: int, z: int, r: int, e: int, key: int)
    requires q > 0
  {
    Cong(q, z, r + e * key)
  }

  /** BIP340 verification, for the even representatives. */
  function VerifyUnder(c: Curve, key: nat, message: seq<byte>, sig: Signature): bool
    requires c.q > 0
  {
    var r := EvenRep(c, sig.r);
    r != 0 && key != 0 && Equation(c.q, sig.z, r, c.challenge(r, key, message), key)
  }

  /** A share fits the commitment and the public counterpart `y` of its seat's key share. */
  predicate ShareHolds(c: Curve, package: Package<Commitment>, key: nat, y: nat, id: Identifier, z: nat)
    requires c.q > 0 && id in package.commitments
  {
    Cong(c.q, z, Sign(c, GroupCommitment(c, package, key)) * CommitmentShare(c, package, key, id)
                 + Lambda(c.q, Roster(package.commitments), id) * y * Challenge(c, package, key))
  }

  /** The first of the seats whose share does not hold. */
  function FirstCheater(
      c: Curve, package: Package<Commitment>, k: GroupPackage, shares: map<Identifier, nat>, ids: seq<Identifier>)
      : seq<Identifier>
    requires c.q > 0
    requires forall i :: 0 <= i < |ids| ==> ids[i] in package.commitments && ids[i] in k.shares && ids[i] in shares
  {
    if ids == [] then []
    else if !ShareHolds(c, package, k.key, k.shares[ids[0]], ids[0], shares[ids[0]]) then [ids[0]]
    else FirstCheater(c, package, k, shares, ids[1..])
  }

  /** The sum of the shares, under the group commitment. */
  function Summed(c: Curve, package: Package<Commitment>, key: nat, shares: map<Identifier, nat>): Signature
    requires c.q > 0
  {
    Signature(GroupCommitment(c, package, key), Mod(c, Total(ValuesAt(shares, Roster(shares)))))
  }

  /** Aggregate under the tweaked key; if the signature does not verify, name the first cheater. */
  function AggregateUnder(c: Curve, package: Package<Commitment>, shares: map<Identifier, nat>, k: GroupPackage)
      : Result<Signature, FrostError>
    requires c.q > 0
  {
    if package.commitments.Keys != shares.Keys || !(shares.Keys <= k.shares.Keys) || |shares| < k.min
    then Err(BAD_PACKAGE)
    else if VerifyUnder(c, k.key, package.message, Summed(c, package, k.key, shares))
    then Ok(Summed(c, package, k.key, shares))
    else Err(BadShare(FirstCheater(c, package, k, shares, Roster(shares))))
  }

  /** `aggregate_with_tweak(.., None)`. */
  function AggregateWithTweak(c: Curve, package: Package<Commitment>, shares: map<Identifier, nat>, group: GroupPackage)
      : Result<Signature, FrostError>
    requires c.q > 0
  {
    AggregateUnder(c, package, shares, EvenGroup(c, TweakGroup(c, group)))
  }

  // ---- encodings ----

  function LeValue(bytes: seq<byte>): nat {
    if bytes == [] then 0 else bytes[0] + 256 * LeValue(bytes[1..])
  }

  lemma {:induction false} LeValueOfLe(n: nat, width: nat)
    requires n < Pow256(width)
    ensures LeValue(Le(n, width)) == n
  {
    if width > 0 {
      assert Le(n, width)[1..] == Le(n / 256, width - 1);
      LeValueOfLe(n / 256, width - 1);
    }
  }

  function EncodePair(a: nat, b: nat): (r: seq<byte>)
    ensures |r| == 64
  {
    Le(a, 32) + Le(b, 32)
  }

  function DecodeCommitment(bytes: seq<byte>): Result<Commitment, FrostError> {
    if |bytes| != 64 then Err(BAD_ENCODING)
    else Ok(Commitment(LeValue(bytes[..32]), LeValue(bytes[32..])))
  }

  function DecodeScalar(bytes: seq<byte>): Result<nat, FrostError> {
    if |bytes| != 32 then Err(BAD_ENCODING) else Ok(LeValue(bytes))
  }

  lemma CommitmentTravels(a: nat, b: nat)
    requires a < Pow256(32) && b < Pow256(32)
    ensures DecodeCommitment(EncodePair(a, b)) == Ok(Commitment(a, b))
  {
    LeValueOfLe(a, 32);
    LeValueOfLe(b, 32);
    assert EncodePair(a, b)[..32] == Le(a, 32) && EncodePair(a, b)[32..] == Le(b, 32);
  }

  /** The primitives of the signing session for this group. */
  function Instance(c: Curve, sighash: (Tx, nat, seq<TxOut>) -> Result<seq<byte>, string>)
      : Primitives<KeyPackage, GroupPackage, Nonces, Commitment, nat, Signature>
    requires c.q > 0
  {
    Primitives(
      (kp: KeyPackage, draw: nat) => Commit(c, kp, draw),
      (m: Commitment) => Ok(EncodePair(m.hiding, m.binding)),
      bytes => DecodeCommitment(bytes),
      (package, n, kp) => SignWithTweak(c, package, n, kp),
      z => Le(z, 32),
      bytes => DecodeScalar(bytes),
      (package, shares, group) => AggregateWithTweak(c, package, shares, group),
      (group: GroupPackage, message, sig) => VerifyUnder(c, SigningKey(c, group.key), message, sig),
      (sig: Signature) => Ok(EncodePair(EvenRep(c, sig.r), sig.z)),
      sighash)
  }

  function Commit(c: Curve, kp: KeyPackage, draw: nat): (Nonces, Commitment)
    requires c.q > 0
  {
    var (d, e) := c.nonce(kp.share, draw);
    (Nonces(Mod(c, d), Mod(c, e)), Commitment(Mod(c, d), Mod(c, e)))
  }

  // ---- any threshold of shares signs ----

  /** The key packages lie on one polynomial: share at the identifier, key at zero. */
  ghost predicate OnPolynomial(c: Curve, f: seq<int>, kps: map<Identifier, KeyPackage>, group: GroupPackage)
    requires c.q > 0
  {
    && f != [] && group.key == Mod(c, Eval(f, 0))
    && (forall id :: id in group.shares ==> Cong(c.q, group.shares[id], Eval(f, id)))
    && forall id :: id in kps ==>
      && kps[id].id == id < c.q && kps[id].key == group.key && kps[id].min == group.min && id in group.shares
      && Cong(c.q, kps[id].share, Eval(f, id))
  }

  /** The polynomial after normalizing by `s1`, tweaking by `t` and normalizing by `s2`. */
  function TweakPoly(f: seq<int>, s1: int, t: int, s2: int): (g: seq<int>)
    requires f != []
    ensures |g| == |f|
  {
    Scale(Scale(f, s1)[0 := s1 * f[0] + t], s2)
  }

  function Scale(f: seq<int>, s: int): (g: seq<int>)
    ensures |g| == |f|
    ensures forall i :: 0 <= i < |f| ==> g[i] == s * f[i]
  {
    seq(|f|, i requires 0 <= i < |f| => s * f[i])
  }

  lemma {:induction false} EvalScale(f: seq<int>, s: int, x: int)
    ensures Eval(Scale(f, s), x) == s * Eval(f, x)
  {
    if f != [] {
      assert Scale(f, s)[1..] == Scale(f[1..], s);
      EvalScale(f[1..], s, x);
      assert x * (s * Eval(f[1..], x)) == s * (x * Eval(f[1..], x));
    }
  }

  lemma EvalTweakPoly(f: seq<int>, s1: int, t: int, s2: int, x: int)
    requires f != []
    ensures Eval(TweakPoly(f, s1, t, s2), x) == s2 * (s1 * Eval(f, x) + t)
  {
    var g := Scale(f, s1);
    var h := g[0 := s1 * f[0] + t];
    EvalScale(f, s1, x);
    assert h[1..] == g[1..];
    assert Eval(h, x) == Eval(g, x) + t;
    EvalScale(h, s2, x);
  }

  /** The polynomial of the shares that actually sign. */
  function SigningPoly(c: Curve, f: seq<int>, key: nat): (g: seq<int>)
    requires c.q > 0 && f != []
    ensures |g| == |f|
  {
    TweakPoly(f, Sign(c, key), c.tweak(EvenRep(c, key)), Sign(c, OutputKey(c, key)))
  }

  lemma CongAffine(q: int, a: int, b: int, s: int, t: int)
    requires q > 0 && Cong(q, a, b)
    ensures Cong(q, (s * a) % q + t, s * b + t)
  {
    CongScale(q, a, b, s);
    CongMod(q, s * a);
    CongTrans(q, (s * a) % q, s * a, s * b);
    assert Cong(q, t, t);
    CongAdd(q, (s * a) % q, s * b, t, t);
  }

  /** Tweaking and normalizing a value that is congruent to `f(x)` follows the signing polynomial. */
  lemma TweakedValue(c: Curve, f: seq<int>, key: nat, v: nat, x: int)
    requires c.q > 0 && f != [] && Cong(c.q, v, Eval(f, x))
    ensures var s1, t, s2 := Sign(c, key), c.tweak(EvenRep(c, key)), Sign(c, OutputKey(c, key));
      Cong(c.q, Mod(c, s2 * Mod(c, Mod(c, s1 * v) + t)), Eval(SigningPoly(c, f, key), x))
  {
    var q := c.q;
    var s1, t, s2 := Sign(c, key), c.tweak(EvenRep(c, key)), Sign(c, OutputKey(c, key));
    var u := Mod(c, s1 * v) + t;
    CongAffine(q, v, Eval(f, x), s1, t);
    CongMod(q, u);
    CongTrans(q, u % q, u, s1 * Eval(f, x) + t);
    CongAffine(q, u % q, s1 * Eval(f, x) + t, s2, 0);
    EvalTweakPoly(f, s1, t, s2, x);
  }

  lemma SigningKeyFacts(c: Curve, f: seq<int>, kps: map<Identifier, KeyPackage>, group: GroupPackage, id: Identifier)
    requires c.q > 0 && OnPolynomial(c, f, kps, group) && id in kps
    ensures var k := EvenKey(c, TweakKey(c, kps[id]));
      && k.key == SigningKey(c, group.key)
      && Cong(c.q, k.share, Eval(SigningPoly(c, f, group.key), id))
  {
    TweakedValue(c, f, group.key, kps[id].share, id);
  }

  lemma GroupKeyFacts(c: Curve, f: seq<int>, group: GroupPackage)
    requires c.q > 0 && f != [] && group.key == Mod(c, Eval(f, 0))
    ensures Cong(c.q, SigningKey(c, group.key), Eval(SigningPoly(c, f, group.key), 0))
  {
    CongMod(c.q, Eval(f, 0));
    TweakedValue(c, f, group.key, group.key, 0);
  }

  // ---- the aggregate verifies ----

  /** `z` is, modulo the order, its commitment part plus its weighted key part. */
  ghost predicate Splits(q: int, z: int, s: int, r: int, e: int, p: int)
    requires q > 0
  {
    Cong(q, z, s * r + e * p)
  }

  lemma {:induction false} TotalSplits(q: int, zs: seq<int>, s: int, rs: seq<int>, e: int, ps: seq<int>)
    requires q > 0 && |zs| == |rs| == |ps|
    requires forall i :: 0 <= i < |zs| ==> Splits(q, zs[i], s, rs[i], e, ps[i])
    ensures Splits(q, Total(zs), s, Total(rs), e, Total(ps))
  {
    if zs == [] {
      NothingSplits(q, s, e);
    } else {
      var last := |zs| - 1;
      TotalSplits(q, zs[..last], s, rs[..last], e, ps[..last]);
      AddSplit(q, Total(zs[..last]), zs[last], s, Total(rs[..last]), rs[last], e, Total(ps[..last]), ps[last]);
    }
  }

  lemma NothingSplits(q: int, s: int, e: int)
    requires q > 0
    ensures Splits(q, 0, s, 0, e, 0)
  {
  }

  lemma AddSplit(q: int, z: int, z': int, s: int, r: int, r': int, e: int, p: int, p': int)
    requires q > 0 && Splits(q, z, s, r, e, p) && Splits(q, z', s, r', e, p')
    ensures Splits(q, z + z', s, r + r', e, p + p')
  {
    CongAdd(q, z, s * r + e * p, z', s * r' + e * p');
    Distribute(s, r, r');
    Distribute(e, p, p');
  }

  function Weighted(q: int, all: seq<int>, ids: seq<int>, g: seq<int>): (r: seq<int>)
    requires q > 0
    ensures |r| == |ids| && forall i :: 0 <= i < |ids| ==> r[i] == Lambda(q, all, ids[i]) * Eval(g, ids[i])
  {
    seq(|ids|, i requires 0 <= i < |ids| => Lambda(q, all, ids[i]) * Eval(g, ids[i]))
  }

  lemma {:induction false} PlainIsTotal(q: int, all: seq<int>, ids: seq<int>, g: seq<int>)
    requires q > 0
    ensures Plain(q, all, ids, g) == Total(Weighted(q, all, ids, g))
  {
    if ids != [] {
      var last := |ids| - 1;
      PlainIsTotal(q, all, ids[..last], g);
      assert Weighted(q, all, ids, g)[..last] == Weighted(q, all, ids[..last], g);
    }
  }

  lemma ShareArithmetic(q: int, z: int, s: int, r: int, lambda: int, share: int, v: int, e: int)
    requires q > 0 && z == (s * r + lambda * share * e) % q && Cong(q, share, v)
    ensures Cong(q, z, s * r + e * (lambda * v))
  {
    CongMod(q, s * r + lambda * share * e);
    CongScale(q, share, v, lambda);
    CongScale(q, lambda * share, lambda * v, e);
    Regroup(e, lambda * share, 1);
    assert Cong(q, s * r, s * r);
    CongAdd(q, s * r, s * r, e * (lambda * share), e * (lambda * v));
    CongTrans(q, z, s * r + lambda * share * e, s * r + e * (lambda * v));
  }

  /** The number a signer returns, in terms of its tweaked key. */
  lemma SignedValue(c: Curve, package: Package<Commitment>, n: Nonces, kp: KeyPackage, k: KeyPackage, z: nat)
    requires c.q > 0 && k == EvenKey(c, TweakKey(c, kp)) && SignWithTweak(c, package, n, kp) == Ok(z)
    ensures kp.id in package.commitments
    ensures z == (Sign(c, GroupCommitment(c, package, k.key)) * CommitmentShare(c, package, k.key, kp.id)
                  + Lambda(c.q, Roster(package.commitments), kp.id) * k.share * Challenge(c, package, k.key)) % c.q
  {
  }

  /** Both nonces enter the share, the second through the binding factor (RFC 9591, section 5.2). */
  lemma BothNoncesEnter(c: Curve, package: Package<Commitment>, n: Nonces, kp: KeyPackage, k: KeyPackage, z: nat)
    requires c.q > 0 && k == EvenKey(c, TweakKey(c, kp)) && SignWithTweak(c, package, n, kp) == Ok(z)
    ensures var rho := c.bind(kp.id, package.message, package.commitments, k.key);
      z == (Sign(c, GroupCommitment(c, package, k.key)) * (n.hiding + rho * n.binding)
            + Lambda(c.q, Roster(package.commitments), kp.id) * k.share * Challenge(c, package, k.key)) % c.q
  {
  }

  /** A signer's tweaked key lies on the signing polynomial, and its share is made with it. */
  lemma SignedWithKey(
      c: Curve, f: seq<int>, kps: map<Identifier, KeyPackage>, group: GroupPackage,
      package: Package<Commitment>, n: Nonces, id: Identifier, z: nat) returns (k: KeyPackage)
    requires c.q > 0 && OnPolynomial(c, f, kps, group) && id in kps && id in package.commitments
    requires SignWithTweak(c, package, n, kps[id]) == Ok(z)
    ensures k.key == SigningKey(c, group.key) && Cong(c.q, k.share, Eval(SigningPoly(c, f, group.key), id))
    ensures z == (Sign(c, GroupCommitment(c, package, k.key)) * CommitmentShare(c, package, k.key, id)
                  + Lambda(c.q, Roster(package.commitments), id) * k.share * Challenge(c, package, k.key)) % c.q
  {
    k := EvenKey(c, TweakKey(c, kps[id]));
    SigningKeyFacts(c, f, kps, group, id);
    SignedValue(c, package, n, kps[id], k, z);
  }

  /** A share splits. */
  lemma SignedShareSplits(
      c: Curve, f: seq<int>, kps: map<Identifier, KeyPackage>, group: GroupPackage,
      package: Package<Commitment>, n: Nonces, id: Identifier, z: nat)
    requires c.q > 0 && OnPolynomial(c, f, kps, group) && id in kps && id in package.commitments
    requires SignWithTweak(c, package, n, kps[id]) == Ok(z)
    ensures var key := SigningKey(c, group.key);
      Splits(c.q, z, Sign(c, GroupCommitment(c, package, key)), CommitmentShare(c, package, key, id),
             Challenge(c, package, key), Lambda(c.q, Roster(package.commitments), id) * Eval(SigningPoly(c, f, group.key), id))
  {
    var k := SignedWithKey(c, f, kps, group, package, n, id, z);
    ValueSplits(c, package, k, id, z, Eval(SigningPoly(c, f, group.key), id));
  }

  lemma ValueSplits(c: Curve, package: Package<Commitment>, k: KeyPackage, id: Identifier, z: nat, v: int)
    requires c.q > 0 && id in package.commitments && Cong(c.q, k.share, v)
    requires z == (Sign(c, GroupCommitment(c, package, k.key)) * CommitmentShare(c, package, k.key, id)
                   + Lambda(c.q, Roster(package.commitments), id) * k.share * Challenge(c, package, k.key)) % c.q
    ensures Splits(c.q, z, Sign(c, GroupCommitment(c, package, k.key)), CommitmentShare(c, package, k.key, id),
                   Challenge(c, package, k.key), Lambda(c.q, Roster(package.commitments), id) * v)
  {
    ShareArithmetic(c.q, z, Sign(c, GroupCommitment(c, package, k.key)), CommitmentShare(c, package, k.key, id),
                    Lambda(c.q, Roster(package.commitments), id), k.share, v, Challenge(c, package, k.key));
  }

  lemma FinalArithmetic(q: int, z: int, s: int, r: int, e: int, p: int, h: int, rep: int, key: int)
    requires q > 0 && Cong(q, z, s * r + e * p) && Cong(q, p, h) && Cong(q, key, h) && Cong(q, rep, s * r)
    ensures Cong(q, z, rep + e * key)
  {
    CongSym(q, key, h);
    CongTrans(q, p, h, key);
    CongScale(q, p, key, e);
    CongSym(q, rep, s * r);
    CongAdd(q, s * r, rep, e * p, e * key);
    CongTrans(q, z, s * r + e * p, rep + e * key);
  }

  lemma EvenRepCong(c: Curve, x: nat, sum: int)
    requires c.q > 0 && x == Mod(c, sum)
    ensures Cong(c.q, EvenRep(c, x), Sign(c, x) * sum)
  {
    CongMod(c.q, sum);
    CongScale(c.q, x, sum, Sign(c, x));
    CongMod(c.q, Sign(c, x) * x);
    CongTrans(c.q, EvenRep(c, x), Sign(c, x) * x, Sign(c, x) * sum);
  }

  lemma EvenRepZero(c: Curve, x: nat)
    requires c.q > 0 && x < c.q
    ensures EvenRep(c, x) == 0 <==> x == 0
  {
    if c.even(x) || x == 0 {
      assert Sign(c, x) * x == x;
      RemainderUnique(c.q, x, 0, x);
    } else {
      assert Sign(c, x) * x == -(x as int);
      RemainderUnique(c.q, -(x as int), -1, c.q - x);
    }
  }

  /** Signatures are made at all: the package is large enough and nothing degenerates to the
      identity. */
  ghost predicate NonDegenerate(c: Curve, package: Package<Commitment>, group: GroupPackage)
    requires c.q > 0
  {
    GroupCommitment(c, package, SigningKey(c, group.key)) != 0 && SigningKey(c, group.key) != 0
  }

  /** The sums of what the shares split into. */
  lemma {:induction false} SharesSumUp(
      q: int, zs: seq<int>, s: int, e: int, ids: seq<Identifier>, r: Identifier -> int, p: Identifier -> int)
      returns (rs: seq<int>, ps: seq<int>)
    requires q > 0 && |zs| == |ids|
    requires forall i :: 0 <= i < |ids| ==> Splits(q, zs[i], s, r(ids[i]), e, p(ids[i]))
    ensures |rs| == |ps| == |ids| && forall i :: 0 <= i < |ids| ==> rs[i] == r(ids[i]) && ps[i] == p(ids[i])
    ensures Splits(q, Total(zs), s, Total(rs), e, Total(ps))
  {
    rs := seq(|ids|, i requires 0 <= i < |ids| => r(ids[i]));
    ps := seq(|ids|, i requires 0 <= i < |ids| => p(ids[i]));
    TotalSplits(q, zs, s, rs, e, ps);
  }

  lemma SignersArePoints(
      c: Curve, f: seq<int>, kps: map<Identifier, KeyPackage>, group: GroupPackage, ids: seq<Identifier>)
    requires c.q > 0 && OnPolynomial(c, f, kps, group) && StrictlyAscending(ids)
    requires forall i :: 0 <= i < |ids| ==> ids[i] in kps
    ensures Points(c.q, ids)
  {
  }

  lemma ReducedArithmetic(q: int, z: int, s: int, r: int, e: int, p: int, h: int, rep: int, key: int)
    requires q > 0 && Splits(q, z, s, r, e, p) && Cong(q, p, h) && Cong(q, key, h) && Cong(q, rep, s * r)
    ensures Equation(q, z % q, rep, e, key)
  {
    FinalArithmetic(q, z, s, r, e, p, h, rep, key);
    CongMod(q, z);
    CongTrans(q, z % q, z, rep + e * key);
  }

  function CommitmentPart(c: Curve, package: Package<Commitment>, key: nat): Identifier -> int {
    (id: Identifier) => if id in package.commitments then CommitmentShare(c, package, key, id) else 0
  }

  function KeyPart(q: int, all: seq<int>, g: seq<int>): Identifier -> int
    requires q > 0
  {
    (id: Identifier) => Lambda(q, all, id) * Eval(g, id)
  }

  lemma EveryShareSplits(
      c: Curve, f: seq<int>, kps: map<Identifier, KeyPackage>, group: GroupPackage,
      package: Package<Commitment>, nonces: map<Identifier, Nonces>, shares: map<Identifier, nat>, id: Identifier)
    requires c.q > 0 && OnPolynomial(c, f, kps, group) && id in shares
    requires package.commitments.Keys == shares.Keys == nonces.Keys && shares.Keys <= kps.Keys
    requires SignWithTweak(c, package, nonces[id], kps[id]) == Ok(shares[id])
    ensures var key := SigningKey(c, group.key);
      Splits(c.q, shares[id], Sign(c, GroupCommitment(c, package, key)), CommitmentPart(c, package, key)(id),
             Challenge(c, package, key), KeyPart(c.q, Roster(package.commitments), SigningPoly(c, f, group.key))(id))
  {
    SignedShareSplits(c, f, kps, group, package, nonces[id], id, shares[id]);
  }

  /** Every signer produced its share. */
  ghost predicate AllSigned(
      c: Curve, kps: map<Identifier, KeyPackage>, package: Package<Commitment>,
      nonces: map<Identifier, Nonces>, shares: map<Identifier, nat>)
    requires c.q > 0
  {
    && package.commitments.Keys == shares.Keys == nonces.Keys && shares.Keys <= kps.Keys
    && forall id :: id in shares ==> SignWithTweak(c, package, nonces[id], kps[id]) == Ok(shares[id])
  }

  lemma SplitPointwise(
      c: Curve, f: seq<int>, kps: map<Identifier, KeyPackage>, group: GroupPackage,
      package: Package<Commitment>, nonces: map<Identifier, Nonces>, shares: map<Identifier, nat>, ids: seq<Identifier>)
    requires c.q > 0 && OnPolynomial(c, f, kps, group) && AllSigned(c, kps, package, nonces, shares)
    requires forall i :: 0 <= i < |ids| ==> ids[i] in shares
    ensures var key := SigningKey(c, group.key);
      var s, e := Sign(c, GroupCommitment(c, package, key)), Challenge(c, package, key);
      var r, p := CommitmentPart(c, package, key), KeyPart(c.q, Roster(package.commitments), SigningPoly(c, f, group.key));
      forall i :: 0 <= i < |ids| ==> Splits(c.q, ValuesAt(shares, ids)[i], s, r(ids[i]), e, p(ids[i]))
  {
    var key := SigningKey(c, group.key);
    var s, e := Sign(c, GroupCommitment(c, package, key)), Challenge(c, package, key);
    var r, p := CommitmentPart(c, package, key), KeyPart(c.q, Roster(package.commitments), SigningPoly(c, f, group.key));
    forall i | 0 <= i < |ids| ensures Splits(c.q, ValuesAt(shares, ids)[i], s, r(ids[i]), e, p(ids[i])) {
      EveryShareSplits(c, f, kps, group, package, nonces, shares, ids[i]);
    }
  }

  /** The sum of the shares splits into the sums of the parts. */
  lemma SplitTotals(
      c: Curve, package: Package<Commitment>, key: nat, ids: seq<Identifier>, zs: seq<int>, s: int, e: int, g: seq<int>)
    requires c.q > 0 && |zs| == |ids| && forall i :: 0 <= i < |ids| ==> ids[i] in package.commitments
    requires forall i :: 0 <= i < |ids| ==>
      Splits(c.q, zs[i], s, CommitmentPart(c, package, key)(ids[i]), e, KeyPart(c.q, ids, g)(ids[i]))
    ensures Splits(c.q, Total(zs), s, Total(CommitmentShares(c, package, key, ids)), e, Total(Weighted(c.q, ids, ids, g)))
  {
    var rs, ps := SharesSumUp(c.q, zs, s, e, ids, CommitmentPart(c, package, key), KeyPart(c.q, ids, g));
    assert rs == CommitmentShares(c, package, key, ids);
    assert ps == Weighted(c.q, ids, ids, g);
  }

  /** The signing equation: shares of any set of signers at least as large as the polynomial
      satisfy the verification equation under Q. */
  lemma EquationHolds(
      c: Curve, f: seq<int>, kps: map<Identifier, KeyPackage>, group: GroupPackage,
      package: Package<Commitment>, nonces: map<Identifier, Nonces>, shares: map<Identifier, nat>)
    requires ValidCurve(c) && OnPolynomial(c, f, kps, group) && AllSigned(c, kps, package, nonces, shares)
    requires |f| <= |shares|
    ensures var key := SigningKey(c, group.key);
      Equation(c.q, Mod(c, Total(ValuesAt(shares, Roster(shares)))),
               EvenRep(c, GroupCommitment(c, package, key)), Challenge(c, package, key), key)
  {
    var q, key, ids, g := c.q, SigningKey(c, group.key), Roster(package.commitments), SigningPoly(c, f, group.key);
    AscendingUnique(ids, Roster(shares));
    assert forall i :: 0 <= i < |ids| ==> ids[i] in shares;
    SplitPointwise(c, f, kps, group, package, nonces, shares, ids);
    SplitTotals(c, package, key, ids, ValuesAt(shares, ids), Sign(c, GroupCommitment(c, package, key)), Challenge(c, package, key), g);
    assert Cong(q, Total(Weighted(q, ids, ids, g)), Eval(g, 0)) by {
      SignersArePoints(c, f, kps, group, ids);
      PlainIsTotal(q, ids, ids, g);
      Interpolation(q, ids, g);
    }
    var r, sum := GroupCommitment(c, package, key), Total(CommitmentShares(c, package, key, ids));
    assert Cong(q, EvenRep(c, r), Sign(c, r) * sum) by { EvenRepCong(c, r, sum); }
    assert Cong(q, key, Eval(g, 0)) by { GroupKeyFacts(c, f, group); }
    ReducedArithmetic(q, Total(ValuesAt(shares, ids)), Sign(c, r), sum, Challenge(c, package, key),
                      Total(Weighted(q, ids, ids, g)), Eval(g, 0), EvenRep(c, r), key);
  }

  lemma EquationVerifies(c: Curve, key: nat, message: seq<byte>, r: nat, z: nat)
    requires c.q > 0 && r < c.q && r != 0 && key != 0
    requires Equation(c.q, z, EvenRep(c, r), c.challenge(EvenRep(c, r), key, message), key)
    ensures VerifyUnder(c, key, message, Signature(r, z))
  {
    EvenRepZero(c, r);
  }

  lemma TweakedGroup(c: Curve, group: GroupPackage) returns (k: GroupPackage)
    requires c.q > 0
    ensures k == EvenGroup(c, TweakGroup(c, group)) && k.key == SigningKey(c, group.key)
    ensures k.shares.Keys == group.shares.Keys && k.min == group.min
  {
    k := EvenGroup(c, TweakGroup(c, group));
  }

  lemma AggregateIs(c: Curve, package: Package<Commitment>, shares: map<Identifier, nat>, k: GroupPackage)
    requires c.q > 0 && package.commitments.Keys == shares.Keys <= k.shares.Keys && k.min <= |shares|
    ensures AggregateUnder(c, package, shares, k) ==
      if VerifyUnder(c, k.key, package.message, Summed(c, package, k.key, shares)) then Ok(Summed(c, package, k.key, shares))
      else Err(BadShare(FirstCheater(c, package, k, shares, Roster(shares))))
  {
  }

  /** So they aggregate to a signature that verifies under Q. */
  lemma AggregateVerifies(
      c: Curve, f: seq<int>, kps: map<Identifier, KeyPackage>, group: GroupPackage,
      package: Package<Commitment>, nonces: map<Identifier, Nonces>, shares: map<Identifier, nat>)
    requires ValidCurve(c) && OnPolynomial(c, f, kps, group) && NonDegenerate(c, package, group)
    requires AllSigned(c, kps, package, nonces, shares) && |f| <= |shares| && group.min <= |shares|
    ensures AggregateWithTweak(c, package, shares, group).Ok?
    ensures var sig := AggregateWithTweak(c, package, shares, group).value;
      VerifyUnder(c, SigningKey(c, group.key), package.message, sig)
  {
    EquationHolds(c, f, kps, group, package, nonces, shares);
    var k := TweakedGroup(c, group);
    var r, z := GroupCommitment(c, package, k.key), Mod(c, Total(ValuesAt(shares, Roster(shares))));
    EquationVerifies(c, k.key, package.message, r, z);
    AggregateIs(c, package, shares, k);
  }
  // ---- what does not verify ----

  /** The public counterpart of a share follows the signing polynomial too. */
  lemma VerifyingShareFacts(c: Curve, f: seq<int>, kps: map<Identifier, KeyPackage>, group: GroupPackage, id: Identifier)
    requires c.q > 0 && OnPolynomial(c, f, kps, group) && id in group.shares
    ensures var k := EvenGroup(c, TweakGroup(c, group));
      && k.key == SigningKey(c, group.key) && id in k.shares
      && Cong(c.q, k.shares[id], Eval(SigningPoly(c, f, group.key), id))
  {
    TweakedValue(c, f, group.key, group.shares[id], id);
  }

  lemma SameRightSide(q: int, z: int, honest: int, own: int, lambda: int, y: int, v: int, e: int)
    requires q > 0 && Cong(q, y, v) && Cong(q, honest, own + e * (lambda * v))
    ensures Cong(q, z, own + lambda * y * e) <==> Cong(q, z, honest)
  {
    CongScale(q, y, v, lambda);
    CongScale(q, lambda * y, lambda * v, e);
    Regroup(e, lambda * y, 1);
    assert Cong(q, own, own);
    CongAdd(q, own, own, e * (lambda * y), e * (lambda * v));
    CongSym(q, honest, own + e * (lambda * v));
    CongTrans(q, own + lambda * y * e, own + e * (lambda * v), honest);
    if Cong(q, z, own + lambda * y * e) {
      CongTrans(q, z, own + lambda * y * e, honest);
    }
    if Cong(q, z, honest) {
      CongSym(q, own + lambda * y * e, honest);
      CongTrans(q, z, honest, own + lambda * y * e);
    }
  }

  lemma HoldsExactly(c: Curve, package: Package<Commitment>, key: nat, y: nat, v: int, id: Identifier, honest: nat, z: nat)
    requires c.q > 0 && id in package.commitments && Cong(c.q, y, v)
    requires Splits(c.q, honest, Sign(c, GroupCommitment(c, package, key)), CommitmentShare(c, package, key, id),
                    Challenge(c, package, key), Lambda(c.q, Roster(package.commitments), id) * v)
    ensures ShareHolds(c, package, key, y, id, z) <==> Cong(c.q, z, honest)
  {
    SameRightSide(c.q, z, honest, Sign(c, GroupCommitment(c, package, key)) * CommitmentShare(c, package, key, id),
                  Lambda(c.q, Roster(package.commitments), id), y, v, Challenge(c, package, key));
  }

  /** A seat's share holds exactly if it is, modulo the order, the one the seat signs. */
  lemma ShareHoldsExactly(
      c: Curve, f: seq<int>, kps: map<Identifier, KeyPackage>, group: GroupPackage,
      package: Package<Commitment>, n: Nonces, id: Identifier, honest: nat, k: GroupPackage, z: nat)
    requires c.q > 0 && OnPolynomial(c, f, kps, group) && id in kps && id in package.commitments
    requires SignWithTweak(c, package, n, kps[id]) == Ok(honest) && k == EvenGroup(c, TweakGroup(c, group))
    ensures id in k.shares && (ShareHolds(c, package, k.key, k.shares[id], id, z) <==> Cong(c.q, z, honest))
  {
    SignedShareSplits(c, f, kps, group, package, n, id, honest);
    VerifyingShareFacts(c, f, kps, group, id);
    HoldsExactly(c, package, k.key, k.shares[id], Eval(SigningPoly(c, f, group.key), id), id, honest, z);
  }

  /** `named` is the first of the seats whose values differ modulo the order, or nothing if none does. */
  ghost predicate NamesFirst(
      q: int, honest: map<Identifier, nat>, got: map<Identifier, nat>, ids: seq<Identifier>, named: seq<Identifier>)
    requires q > 0 && forall i :: 0 <= i < |ids| ==> ids[i] in honest && ids[i] in got
  {
    if named == [] then forall i :: 0 <= i < |ids| ==> Cong(q, got[ids[i]], honest[ids[i]]) else
      exists i :: 0 <= i < |ids| && named == [ids[i]] && !Cong(q, got[ids[i]], honest[ids[i]])
        && forall j :: 0 <= j < i ==> Cong(q, got[ids[j]], honest[ids[j]])
  }

  lemma NamesShifts(q: int, honest: map<Identifier, nat>, got: map<Identifier, nat>, ids: seq<Identifier>, named: seq<Identifier>)
    requires q > 0 && ids != [] && forall i :: 0 <= i < |ids| ==> ids[i] in honest && ids[i] in got
    requires Cong(q, got[ids[0]], honest[ids[0]]) && NamesFirst(q, honest, got, ids[1..], named)
    ensures NamesFirst(q, honest, got, ids, named)
  {
    if named == [] {
      forall i | 0 <= i < |ids| ensures Cong(q, got[ids[i]], honest[ids[i]]) {
        if i > 0 { assert ids[i] == ids[1..][i - 1]; }
      }
    } else {
      var i :| 0 <= i < |ids[1..]| && named == [ids[1..][i]] && !Cong(q, got[ids[1..][i]], honest[ids[1..][i]])
        && forall j :: 0 <= j < i ==> Cong(q, got[ids[1..][j]], honest[ids[1..][j]]);
      forall j | 0 <= j < i + 1 ensures Cong(q, got[ids[j]], honest[ids[j]]) {
        if j > 0 { assert ids[j] == ids[1..][j - 1]; }
      }
      assert ids[i + 1] == ids[1..][i];
    }
  }

  lemma {:induction false} CheaterIsFirst(
      c: Curve, package: Package<Commitment>, k: GroupPackage, honest: map<Identifier, nat>, got: map<Identifier, nat>, ids: seq<Identifier>)
    requires c.q > 0
    requires forall i :: 0 <= i < |ids| ==>
      ids[i] in package.commitments && ids[i] in k.shares && ids[i] in got && ids[i] in honest
    requires forall i :: 0 <= i < |ids| ==>
      (ShareHolds(c, package, k.key, k.shares[ids[i]], ids[i], got[ids[i]]) <==> Cong(c.q, got[ids[i]], honest[ids[i]]))
    ensures NamesFirst(c.q, honest, got, ids, FirstCheater(c, package, k, got, ids))
  {
    if ids != [] {
      if ShareHolds(c, package, k.key, k.shares[ids[0]], ids[0], got[ids[0]]) {
        CheaterIsFirst(c, package, k, honest, got, ids[1..]);
        NamesShifts(c.q, honest, got, ids, FirstCheater(c, package, k, got, ids[1..]));
      } else {
        assert [ids[0]] == FirstCheater(c, package, k, got, ids) && !Cong(c.q, got[ids[0]], honest[ids[0]]);
      }
    }
  }

  /** With the right side fixed, only one residue satisfies the equation. */
  lemma EquationFixes(q: int, a: int, b: int, r: int, e: int, key: int)
    requires q > 0 && Equation(q, a % q, r, e, key)
    ensures Equation(q, b % q, r, e, key) <==> Cong(q, b, a)
  {
    CongMod(q, a);
    CongMod(q, b);
    CongSym(q, a % q, a);
    CongTrans(q, a, a % q, r + e * key);
    CongSym(q, a, r + e * key);
    if Equation(q, b % q, r, e, key) {
      CongSym(q, b % q, b);
      CongTrans(q, b, b % q, r + e * key);
      CongTrans(q, b, r + e * key, a);
    }
    if Cong(q, b, a) {
      CongTrans(q, b % q, b, a);
      CongTrans(q, b % q, a, r + e * key);
    }
  }

  /** The sum verifies exactly if it is the honest one modulo the order. */
  lemma SumVerifiesExactly(
      c: Curve, package: Package<Commitment>, key: nat, honest: map<Identifier, nat>, got: map<Identifier, nat>, ids: seq<Identifier>)
    requires c.q > 0 && key != 0 && GroupCommitment(c, package, key) != 0
    requires ids == Roster(got) == Roster(honest)
    requires Equation(c.q, Mod(c, Total(ValuesAt(honest, ids))),
                      EvenRep(c, GroupCommitment(c, package, key)), Challenge(c, package, key), key)
    ensures VerifyUnder(c, key, package.message, Summed(c, package, key, got)) <==>
      Cong(c.q, Total(ValuesAt(got, ids)), Total(ValuesAt(honest, ids)))
  {
    var r := GroupCommitment(c, package, key);
    EquationFixes(c.q, Total(ValuesAt(honest, ids)), Total(ValuesAt(got, ids)), EvenRep(c, r), Challenge(c, package, key), key);
    EvenRepZero(c, r);
  }

  /** What aggregation makes of `got` where `honest` was signed. */
  ghost predicate JudgesShares(
      q: int, honest: map<Identifier, nat>, got: map<Identifier, nat>, ids: seq<Identifier>, res: Result<Signature, FrostError>)
    requires q > 0
  {
    && (forall i :: 0 <= i < |ids| ==> ids[i] in honest && ids[i] in got)
    && (res.Ok? <==> Cong(q, Total(ValuesAt(got, ids)), Total(ValuesAt(honest, ids))))
    && (res.Err? ==> res.error == BadShare(res.error.culprits) && NamesFirst(q, honest, got, ids, res.error.culprits))
  }

  lemma CheatersAreJudged(
      c: Curve, f: seq<int>, kps: map<Identifier, KeyPackage>, group: GroupPackage, package: Package<Commitment>,
      nonces: map<Identifier, Nonces>, honest: map<Identifier, nat>, got: map<Identifier, nat>, k: GroupPackage, ids: seq<Identifier>)
    requires c.q > 0 && OnPolynomial(c, f, kps, group) && AllSigned(c, kps, package, nonces, honest)
    requires k == EvenGroup(c, TweakGroup(c, group)) && k.shares.Keys == group.shares.Keys
    requires forall i :: 0 <= i < |ids| ==> ids[i] in honest && ids[i] in got
    ensures forall i :: 0 <= i < |ids| ==> ids[i] in package.commitments && ids[i] in k.shares
    ensures NamesFirst(c.q, honest, got, ids, FirstCheater(c, package, k, got, ids))
  {
    forall i | 0 <= i < |ids|
      ensures ids[i] in k.shares
      ensures ShareHolds(c, package, k.key, k.shares[ids[i]], ids[i], got[ids[i]]) <==> Cong(c.q, got[ids[i]], honest[ids[i]])
    {
      ShareHoldsExactly(c, f, kps, group, package, nonces[ids[i]], ids[i], honest[ids[i]], k, got[ids[i]]);
    }
    CheaterIsFirst(c, package, k, honest, got, ids);
  }

  lemma SameSize(a: map<Identifier, nat>, b: map<Identifier, nat>)
    requires a.Keys == b.Keys
    ensures |a| == |b| && Roster(a) == Roster(b)
  {
    assert |a| == |a.Keys| && |b| == |b.Keys|;
    AscendingUnique(Roster(a), Roster(b));
  }

  /** Whatever shares arrive under the package of an honest round: aggregation succeeds exactly if their
      sum is the honest one modulo the order, and otherwise names the first seat whose share is not the one
      it signed. */
  lemma AggregatesExactly(
      c: Curve, f: seq<int>, kps: map<Identifier, KeyPackage>, group: GroupPackage,
      package: Package<Commitment>, nonces: map<Identifier, Nonces>, honest: map<Identifier, nat>, got: map<Identifier, nat>)
    requires ValidCurve(c) && OnPolynomial(c, f, kps, group) && NonDegenerate(c, package, group)
    requires AllSigned(c, kps, package, nonces, honest) && |f| <= |honest| && group.min <= |honest|
    requires got.Keys == honest.Keys
    ensures JudgesShares(c.q, honest, got, Roster(got), AggregateWithTweak(c, package, got, group))
  {
    var k := TweakedGroup(c, group);
    var ids := Roster(got);
    SameSize(honest, got);
    EquationHolds(c, f, kps, group, package, nonces, honest);
    SumVerifiesExactly(c, package, k.key, honest, got, ids);
    CheatersAreJudged(c, f, kps, group, package, nonces, honest, got, k, ids);
    AggregateIs(c, package, got, k);
  }

  /** The shares of one seat differ, those of the others do not. */
  ghost predicate OneDiffers(a: map<Identifier, nat>, b: map<Identifier, nat>, id: Identifier) {
    && a.Keys == b.Keys && id in a && id in b && a[id] != b[id]
    && forall x :: x in a && x in b && x != id ==> a[x] == b[x]
  }

  lemma {:induction false} DifferingTotal(a: map<Identifier, nat>, b: map<Identifier, nat>, id: Identifier, ids: seq<Identifier>)
    requires OneDiffers(a, b, id) && StrictlyAscending(ids)
    requires forall i :: 0 <= i < |ids| ==> ids[i] in a && ids[i] in b
    ensures id !in ids ==> Total(ValuesAt(b, ids)) == Total(ValuesAt(a, ids))
    ensures id in ids ==> Total(ValuesAt(b, ids)) == Total(ValuesAt(a, ids)) + b[id] - a[id]
  {
    if ids != [] {
      var last := |ids| - 1;
      DifferingTotal(a, b, id, ids[..last]);
      assert ValuesAt(a, ids)[..last] == ValuesAt(a, ids[..last]);
      assert ValuesAt(b, ids)[..last] == ValuesAt(b, ids[..last]);
      assert ids == ids[..last] + [ids[last]];
    }
  }

  lemma CloseIsEqual(q: int, a: int, b: int)
    requires q > 0 && 0 <= a < q && 0 <= b < q && Cong(q, a, b)
    ensures a == b
  {
    CongUnique(q, a, b);
    RemainderUnique(q, a, 0, a);
    RemainderUnique(q, b, 0, b);
  }

  lemma MovedSum(q: int, a: int, b: int, z: int, was: int)
    requires q > 0 && 0 <= z < q && 0 <= was < q && z != was && b == a + z - was
    ensures !Cong(q, b, a)
  {
    if Cong(q, b, a) {
      CongIntro(q, z, was, Turns(q, b, a));
      CloseIsEqual(q, z, was);
    }
  }

  lemma OneWrongMovesSum(q: int, shares: map<Identifier, nat>, got: map<Identifier, nat>, id: Identifier, ids: seq<Identifier>)
    requires q > 0 && OneDiffers(shares, got, id) && shares[id] < q && got[id] < q && ids == Roster(got)
    ensures forall i :: 0 <= i < |ids| ==> ids[i] in shares && ids[i] in got
    ensures !Cong(q, Total(ValuesAt(got, ids)), Total(ValuesAt(shares, ids)))
  {
    DifferingTotal(shares, got, id, ids);
    MovedSum(q, Total(ValuesAt(shares, ids)), Total(ValuesAt(got, ids)), got[id], shares[id]);
  }

  lemma OneWrongIsJudged(
      q: int, shares: map<Identifier, nat>, got: map<Identifier, nat>, id: Identifier, ids: seq<Identifier>,
      res: Result<Signature, FrostError>)
    requires q > 0 && OneDiffers(shares, got, id) && shares[id] < q && got[id] < q
    requires ids == Roster(got) && JudgesShares(q, shares, got, ids, res)
    ensures res == Err(BadShare([id]))
  {
    OneWrongMovesSum(q, shares, got, id, ids);
    OnlyOneNamed(q, shares, got, ids, id, res.error.culprits);
  }

  lemma DifferentIsNotCong(q: int, a: int, b: int)
    requires q > 0 && 0 <= a < q && 0 <= b < q && a != b
    ensures !Cong(q, a, b)
  {
    if Cong(q, a, b) {
      CloseIsEqual(q, a, b);
    }
  }

  /** One wrong share: aggregation is refused and names its seat. */
  lemma WrongShareIsNamed(
      c: Curve, f: seq<int>, kps: map<Identifier, KeyPackage>, group: GroupPackage, package: Package<Commitment>,
      nonces: map<Identifier, Nonces>, shares: map<Identifier, nat>, got: map<Identifier, nat>, id: Identifier)
    requires ValidCurve(c) && OnPolynomial(c, f, kps, group) && NonDegenerate(c, package, group)
    requires AllSigned(c, kps, package, nonces, shares) && |f| <= |shares| && group.min <= |shares|
    requires OneDiffers(shares, got, id) && got[id] < c.q
    ensures AggregateWithTweak(c, package, got, group) == Err(BadShare([id]))
  {
    AggregatesExactly(c, f, kps, group, package, nonces, shares, got);
    SignedIsReduced(c, kps, package, nonces, shares, id);
    OneWrongIsJudged(c.q, shares, got, id, Roster(got), AggregateWithTweak(c, package, got, group));
  }

  lemma SignedIsReduced(
      c: Curve, kps: map<Identifier, KeyPackage>, package: Package<Commitment>,
      nonces: map<Identifier, Nonces>, shares: map<Identifier, nat>, id: Identifier)
    requires c.q > 0 && AllSigned(c, kps, package, nonces, shares) && id in shares
    ensures shares[id] < c.q
  {
    assert SignWithTweak(c, package, nonces[id], kps[id]) == Ok(shares[id]);
  }

  lemma OnlyOneNamed(
      q: int, honest: map<Identifier, nat>, got: map<Identifier, nat>, ids: seq<Identifier>, id: Identifier, named: seq<Identifier>)
    requires q > 0 && (forall i :: 0 <= i < |ids| ==> ids[i] in honest && ids[i] in got) && id in ids
    requires OneDiffers(honest, got, id) && honest[id] < q && got[id] < q && NamesFirst(q, honest, got, ids, named)
    ensures named == [id]
  {
    DifferentIsNotCong(q, got[id], honest[id]);
    var k :| 0 <= k < |ids| && ids[k] == id;
    assert forall i :: 0 <= i < |ids| && ids[i] != id ==> Cong(q, got[ids[i]], honest[ids[i]]);
  }

  /** Too few shares, or shares of other seats than the package's, are refused before anything is summed. */
  lemma WrongSeatsRefused(c: Curve, package: Package<Commitment>, got: map<Identifier, nat>, group: GroupPackage)
    requires c.q > 0
    requires got.Keys != package.commitments.Keys || !(got.Keys <= group.shares.Keys) || |got| < group.min
    ensures AggregateWithTweak(c, package, got, group) == Err(BAD_PACKAGE)
  {
    var k := TweakedGroup(c, group);
  }

  /** The output key is the even internal key plus its tweak. */
  lemma OutputKeyIsTweaked(c: Curve, p: nat)
    requires c.q > 0
    ensures OutputKey(c, p) < c.q && Cong(c.q, OutputKey(c, p), Sign(c, p) * p + c.tweak(EvenRep(c, p)))
  {
    var t := c.tweak(EvenRep(c, p));
    CongAffine(c.q, p, p, Sign(c, p), t);
    CongMod(c.q, EvenRep(c, p) + t);
    CongTrans(c.q, OutputKey(c, p), EvenRep(c, p) + t, Sign(c, p) * p + t);
  }

  /** A binding factor binds: with an injective hash, equal factors come from the same signer, key and
      package. */
  lemma FactorBinds(c: Curve, a: Package<Commitment>, b: Package<Commitment>, ka: nat, kb: nat, i: Identifier, j: Identifier)
    requires forall x, m, cs, k, y, n, ds, l ::
      c.bind(x, m, cs, k) == c.bind(y, n, ds, l) ==> x == y && m == n && cs == ds && k == l
    requires Factor(c, a, ka, i) == Factor(c, b, kb, j)
    ensures i == j && ka == kb && a == b
  {
  }

  /** The 64 bytes of a signature are the even commitment and the number. */
  lemma SignatureTravels(c: Curve, hash: (Tx, nat, seq<TxOut>) -> Result<seq<byte>, string>, sig: Signature)
    requires ValidCurve(c) && sig.z < c.q
    ensures Instance(c, hash).encodeSig(sig).Ok? && |Instance(c, hash).encodeSig(sig).value| == 64
    ensures DecodeCommitment(Instance(c, hash).encodeSig(sig).value) == Ok(Commitment(EvenRep(c, sig.r), sig.z))
  {
    CommitmentTravels(EvenRep(c, sig.r), sig.z);
  }

  /** Two draws of one seat commit alike exactly if they hash to the same nonces. */
  lemma DrawsCommitAlike(c: Curve, kp: KeyPackage, a: nat, b: nat)
    requires c.q > 0
    ensures Commit(c, kp, a) == Commit(c, kp, b) <==>
      Cong(c.q, c.nonce(kp.share, a).0, c.nonce(kp.share, b).0) && Cong(c.q, c.nonce(kp.share, a).1, c.nonce(kp.share, b).1)
    ensures Commit(c, kp, a).1 == Commit(c, kp, b).1 ==> Commit(c, kp, a) == Commit(c, kp, b)
  {
    var (d, e) := c.nonce(kp.share, a);
    var (d', e') := c.nonce(kp.share, b);
    SameRemainder(c.q, d, d');
    SameRemainder(c.q, e, e');
  }

  lemma SameRemainder(q: int, a: int, b: int)
    requires q > 0
    ensures a % q == b % q <==> Cong(q, a, b)
  {
    if Cong(q, a, b) { CongUnique(q, a, b); }
    if a % q == b % q {
      CongMod(q, a);
      CongMod(q, b);
      CongSym(q, a % q, a);
      CongTrans(q, a, a % q, b);
    }
  }

  /** One signature for two messages: their challenges are congruent. */
  lemma SignatureBindsChallenge(c: Curve, key: nat, a: seq<byte>, b: seq<byte>, sig: Signature)
    requires ValidCurve(c) && key < c.q && VerifyUnder(c, key, a, sig) && VerifyUnder(c, key, b, sig)
    ensures Cong(c.q, c.challenge(EvenRep(c, sig.r), key, a), c.challenge(EvenRep(c, sig.r), key, b))
  {
    var q, r := c.q, EvenRep(c, sig.r);
    var x, y := c.challenge(r, key, a), c.challenge(r, key, b);
    CongSym(q, sig.z, r + x * key);
    CongTrans(q, r + x * key, sig.z, r + y * key);
    CongIntro(q, key * x, key * y, Turns(q, r + x * key, r + y * key));
    DifferenceIsUnit(q, key, 0);
    Cancel(q, key, x, y);
  }

  /** For each key, commitment and message one number verifies and no other, and none if the key or the
      commitment is the identity. */
  lemma OneNumberVerifies(c: Curve, key: nat, message: seq<byte>, r: nat, z: nat)
    requires c.q > 0 && r < c.q && z < c.q
    ensures VerifyUnder(c, key, message, Signature(r, z)) <==>
      key != 0 && r != 0 && z == Mod(c, EvenRep(c, r) + c.challenge(EvenRep(c, r), key, message) * key)
  {
    EvenRepZero(c, r);
    var right := EvenRep(c, r) + c.challenge(EvenRep(c, r), key, message) * key;
    CongMod(c.q, right);
    CongSym(c.q, right % c.q, right);
    if Cong(c.q, z, right) {
      CongTrans(c.q, z, right, right % c.q);
      CloseIsEqual(c.q, z, right % c.q);
    }
  }
}
