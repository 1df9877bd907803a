/** Any `t` seats can sign: key generation, signing session and verification put together for the
    prime-order group. */
module AnyThreshold {
  import opened Wrappers
  import opened Ordered
  import opened Text
  import opened Envelopes
  import opened Transport
  import opened Frost
  import opened Keygen
  import opened FieldFrost
  import FieldDkg
  import opened Session
  import opened SessionLaws
  import opened Completeness

  type Sighasher = (Tx, nat, seq<TxOut>) -> Result<seq<byte>, string>

  type FieldConfig = Config<KeyPackage, GroupPackage>

  /** The package the selected seats sign at one round. */
  function RoundPackage(c: Curve, hash: Sighasher, cfg: FieldConfig, sel: seq<Identifier>, from: nat, message: seq<byte>)
      : Package<Commitment>
    requires c.q > 0 && forall k :: 0 <= k < |sel| ==> sel[k] in cfg.keyPackages
  {
    HonestRound1(Instance(c, hash), cfg, sel, from, message).package
  }

  ghost predicate Signers(c: Curve, cfg: FieldConfig, f: seq<int>, sel: seq<Identifier>) {
    && ValidCurve(c) && InRoster(cfg, sel)
    && OnPolynomial(c, f, cfg.keyPackages, cfg.group)
    && |f| <= |sel| && cfg.group.min <= |sel|
  }

  lemma FieldCommitsTravel(c: Curve, hash: Sighasher, cfg: FieldConfig, sel: seq<Identifier>, from: nat)
    requires ValidCurve(c) && InRoster(cfg, sel)
    ensures CommitsTravel(Instance(c, hash), cfg, sel, from)
  {
    var p := Instance(c, hash);
    forall k | 0 <= k < |sel| ensures CommitTravels(p, DrawOf(p, cfg, sel, from, k).1) {
      var m := DrawOf(p, cfg, sel, from, k).1;
      assert m == Commit(c, cfg.keyPackages[sel[k]], from + k).1;
      CommitmentTravels(m.hiding, m.binding);
    }
  }

  /** The package and the held nonces have the selected seats as their domain and match. */
  lemma PackageFits(c: Curve, hash: Sighasher, cfg: FieldConfig, sel: seq<Identifier>, from: nat, message: seq<byte>)
    requires ValidCurve(c) && InRoster(cfg, sel)
    ensures var r1 := HonestRound1(Instance(c, hash), cfg, sel, from, message);
      && r1.package.commitments.Keys == r1.nonces.Keys && r1.nonces.Keys <= cfg.keyPackages.Keys
      && Roster(r1.package.commitments) == sel && |r1.package.commitments| == |sel|
      && forall id :: id in r1.nonces ==>
           r1.package.commitments[id] == Commitment(r1.nonces[id].nonces.hiding, r1.nonces[id].nonces.binding)
  {
    var p := Instance(c, hash);
    var r1 := HonestRound1(p, cfg, sel, from, message);
    NonceMapExact(p, cfg, sel, from);
    CommitMapExact(p, cfg, sel, from);
    AscendingUnique(Roster(r1.package.commitments), sel);
    forall id | id in r1.nonces
      ensures r1.package.commitments[id] == Commitment(r1.nonces[id].nonces.hiding, r1.nonces[id].nonces.binding)
    {
      var k :| 0 <= k < |sel| && sel[k] == id;
      assert DrawOf(p, cfg, sel, from, k) == Commit(c, cfg.keyPackages[id], from + k);
    }
  }

  /** A seat signs exactly if the package has enough signers, carries the seat's own commitments, and
      nothing degenerates. */
  lemma SignsExactly(
      c: Curve, f: seq<int>, kps: map<Identifier, KeyPackage>, group: GroupPackage, package: Package<Commitment>, n: Nonces, id: Identifier)
    requires c.q > 0 && OnPolynomial(c, f, kps, group) && id in kps
    ensures SignWithTweak(c, package, n, kps[id]).Ok? <==>
      && group.min <= |package.commitments|
      && id in package.commitments && package.commitments[id] == Commitment(n.hiding, n.binding)
      && NonDegenerate(c, package, group)
    ensures SignWithTweak(c, package, n, kps[id]).Ok? ==> SignWithTweak(c, package, n, kps[id]).value < c.q
  {
    SigningKeyFacts(c, f, kps, group, id);
  }

  lemma FieldSharesTravel(
      c: Curve, hash: Sighasher, cfg: FieldConfig, f: seq<int>, sel: seq<Identifier>, from: nat, message: seq<byte>)
    requires Signers(c, cfg, f, sel)
    requires NonDegenerate(c, RoundPackage(c, hash, cfg, sel, from, message), cfg.group)
    ensures SharesTravel(Instance(c, hash), cfg, HonestRound1(Instance(c, hash), cfg, sel, from, message))
  {
    var p := Instance(c, hash);
    var r1 := HonestRound1(p, cfg, sel, from, message);
    PackageFits(c, hash, cfg, sel, from, message);
    forall id | id in r1.nonces
      ensures id in cfg.keyPackages && ShareOf(p, cfg, r1, id).Ok?
      ensures p.decodeS(p.encodeS(ShareOf(p, cfg, r1, id).value)) == Ok(ShareOf(p, cfg, r1, id).value)
    {
      SignsExactly(c, f, cfg.keyPackages, cfg.group, r1.package, r1.nonces[id].nonces, id);
      LeValueOfLe(ShareOf(p, cfg, r1, id).value, 32);
    }
  }

  /** The shares of the round are the ones its seats sign. */
  lemma RoundIsSigned(
      c: Curve, hash: Sighasher, cfg: FieldConfig, f: seq<int>, sel: seq<Identifier>, from: nat, message: seq<byte>)
      returns (nonces: map<Identifier, Nonces>)
    requires Signers(c, cfg, f, sel)
    requires SharesTravel(Instance(c, hash), cfg, HonestRound1(Instance(c, hash), cfg, sel, from, message))
    ensures var r1 := HonestRound1(Instance(c, hash), cfg, sel, from, message);
      var shares := ShareMap(Instance(c, hash), cfg, r1);
      && AllSigned(c, cfg.keyPackages, r1.package, nonces, shares)
      && |f| <= |shares| && cfg.group.min <= |shares|
  {
    var p := Instance(c, hash);
    var r1 := HonestRound1(p, cfg, sel, from, message);
    var shares := ShareMap(p, cfg, r1);
    nonces := map id | id in r1.nonces :: r1.nonces[id].nonces;
    PackageFits(c, hash, cfg, sel, from, message);
    assert shares.Keys == r1.nonces.Keys == nonces.Keys;
    assert |shares| == |r1.package.commitments|;
    assert forall id :: id in shares ==> SignWithTweak(c, r1.package, nonces[id], cfg.keyPackages[id]) == ShareOf(p, cfg, r1, id);
  }

  lemma FieldAggregates(
      c: Curve, hash: Sighasher, cfg: FieldConfig, f: seq<int>, sel: seq<Identifier>, from: nat, message: seq<byte>)
    requires Signers(c, cfg, f, sel)
    requires NonDegenerate(c, RoundPackage(c, hash, cfg, sel, from, message), cfg.group)
    requires SharesTravel(Instance(c, hash), cfg, HonestRound1(Instance(c, hash), cfg, sel, from, message))
    ensures var r1 := HonestRound1(Instance(c, hash), cfg, sel, from, message);
      var shares := ShareMap(Instance(c, hash), cfg, r1);
      && AggregateWithTweak(c, r1.package, shares, cfg.group).Ok?
      && VerifyUnder(c, SigningKey(c, cfg.group.key), message, AggregateWithTweak(c, r1.package, shares, cfg.group).value)
  {
    var nonces := RoundIsSigned(c, hash, cfg, f, sel, from, message);
    var r1 := HonestRound1(Instance(c, hash), cfg, sel, from, message);
    AggregateVerifies(c, f, cfg.keyPackages, cfg.group, r1.package, nonces, ShareMap(Instance(c, hash), cfg, r1));
  }

  /** One seat's share is not the one it signed: the session stops and names that seat. */
  lemma WrongShareStops(
      c: Curve, hash: Sighasher, cfg: FieldConfig, f: seq<int>, sel: seq<Identifier>, from: nat, message: seq<byte>,
      collected: seq<Envelope>, got: map<Identifier, nat>, id: Identifier)
    requires Signers(c, cfg, f, sel)
    requires NonDegenerate(c, RoundPackage(c, hash, cfg, sel, from, message), cfg.group)
    requires SharesTravel(Instance(c, hash), cfg, HonestRound1(Instance(c, hash), cfg, sel, from, message))
    requires CollectShares(Instance(c, hash), IdOfSeat(Roster(cfg.keyPackages)), collected, map[]) == Ok(got)
    requires OneDiffers(ShareMap(Instance(c, hash), cfg, HonestRound1(Instance(c, hash), cfg, sel, from, message)), got, id)
    requires got[id] < c.q
    ensures Finish(Instance(c, hash), cfg, HonestRound1(Instance(c, hash), cfg, sel, from, message), collected) ==
      Err(Aggregate(Culprits([id])))
  {
    var nonces := RoundIsSigned(c, hash, cfg, f, sel, from, message);
    var r1 := HonestRound1(Instance(c, hash), cfg, sel, from, message);
    WrongShareIsNamed(c, f, cfg.keyPackages, cfg.group, r1.package, nonces, ShareMap(Instance(c, hash), cfg, r1), got, id);
    CulpritsSurface(Instance(c, hash), cfg, r1, collected, got, BadShare([id]));
  }

  lemma DegenerateStops(
      c: Curve, hash: Sighasher, cfg: FieldConfig, f: seq<int>, sel: seq<Identifier>, from: nat, message: seq<byte>)
    requires Signers(c, cfg, f, sel)
    requires SharesTravel(Instance(c, hash), cfg, HonestRound1(Instance(c, hash), cfg, sel, from, message))
    ensures NonDegenerate(c, RoundPackage(c, hash, cfg, sel, from, message), cfg.group)
  {
    var p := Instance(c, hash);
    var r1 := HonestRound1(p, cfg, sel, from, message);
    PackageFits(c, hash, cfg, sel, from, message);
    NonceMapExact(p, cfg, sel, from);
    var id := sel[0];
    assert id in sel && id in r1.nonces && ShareOf(p, cfg, r1, id).Ok?;
    SignsExactly(c, f, cfg.keyPackages, cfg.group, r1.package, r1.nonces[id].nonces, id);
  }

  lemma NonDegenerateSigns(
      c: Curve, hash: Sighasher, cfg: FieldConfig, f: seq<int>, sel: seq<Identifier>, from: nat, message: seq<byte>)
    requires Signers(c, cfg, f, sel) && NonDegenerate(c, RoundPackage(c, hash, cfg, sel, from, message), cfg.group)
    ensures HonestRound(Instance(c, hash), cfg, sel, from, message)
  {
    FieldCommitsTravel(c, hash, cfg, sel, from);
    FieldSharesTravel(c, hash, cfg, f, sel, from, message);
    FieldAggregates(c, hash, cfg, f, sel, from, message);
  }

  /** The primitives are honest at a round exactly when neither the group commitment nor the output
      key degenerates to the identity. */
  lemma FieldIsHonest(
      c: Curve, hash: Sighasher, cfg: FieldConfig, f: seq<int>, sel: seq<Identifier>, from: nat, message: seq<byte>)
    requires Signers(c, cfg, f, sel)
    ensures HonestRound(Instance(c, hash), cfg, sel, from, message) <==>
      NonDegenerate(c, RoundPackage(c, hash, cfg, sel, from, message), cfg.group)
  {
    if HonestRound(Instance(c, hash), cfg, sel, from, message) {
      DegenerateStops(c, hash, cfg, f, sel, from, message);
    }
    if NonDegenerate(c, RoundPackage(c, hash, cfg, sel, from, message), cfg.group) {
      NonDegenerateSigns(c, hash, cfg, f, sel, from, message);
    }
  }

  // ---- from key generation to a signed transaction ----

  /** What one input needs: its sighash, no degenerate commitment, and envelopes that do not collide. */
  ghost predicate InputReady(
      c: Curve, hash: Sighasher, cfg: FieldConfig, sel: seq<Identifier>, from: nat, input: nat, universe: set<Envelope>)
    requires c.q > 0 && InRoster(cfg, sel)
  {
    && Sighash(Instance(c, hash), cfg.psbt, input).Ok?
    && NonDegenerate(c, RoundPackage(c, hash, cfg, sel, from, Sighash(Instance(c, hash), cfg.psbt, input).value), cfg.group)
    && (HonestRound(Instance(c, hash), cfg, sel, from, Sighash(Instance(c, hash), cfg.psbt, input).value) ==>
        TrafficWithin(Instance(c, hash), cfg, sel, from, input, universe))
  }

  lemma ReadyIsHonest(
      c: Curve, hash: Sighasher, cfg: FieldConfig, f: seq<int>, sel: seq<Identifier>, from: nat, input: nat, universe: set<Envelope>)
    requires Signers(c, cfg, f, sel) && InputReady(c, hash, cfg, sel, from, input, universe)
    ensures HonestInput(Instance(c, hash), cfg, sel, from, input, universe)
  {
    FieldIsHonest(c, hash, cfg, f, sel, from, Sighash(Instance(c, hash), cfg.psbt, input).value);
  }

  ghost predicate InputsReady(
      c: Curve, hash: Sighasher, cfg: FieldConfig, sel: seq<Identifier>, from: nat, universe: set<Envelope>)
    requires c.q > 0 && InRoster(cfg, sel)
  {
    forall i :: 0 <= i < |cfg.psbt.unsigned.inputs| ==>
      InputReady(c, hash, cfg, sel, DrawsBefore(from, |sel|, i), i, universe)
  }

  lemma SessionSigns(c: Curve, hash: Sighasher, cfg: FieldConfig, f: seq<int>, net: Net, universe: set<Envelope>)
    requires cfg.t <= |cfg.keyPackages.Keys| < 0x1_0000 && Signers(c, cfg, f, FirstSeats(cfg))
    requires BoardReady(net.board, universe) && SeqWithin(Acks(cfg), universe)
    requires TopicsFreshFrom(net.board, cfg.id, 0, |cfg.psbt.unsigned.inputs|)
    requires InputsReady(c, hash, cfg, FirstSeats(cfg), net.draws, universe)
    ensures RunSpec(Instance(c, hash), cfg, false, true, net).0.Ok?
  {
    var sel := FirstSeats(cfg);
    forall i | 0 <= i < |cfg.psbt.unsigned.inputs|
      ensures HonestInput(Instance(c, hash), cfg, sel, DrawsBefore(net.draws, |sel|, i), i, universe)
    {
      ReadyIsHonest(c, hash, cfg, f, sel, DrawsBefore(net.draws, |sel|, i), i, universe);
    }
    RunComplete(Instance(c, hash), cfg, net, universe);
  }

  lemma SubsetSize(a: set<Identifier>, n: nat)
    requires forall x :: x in a ==> x <= n
    ensures |a| <= n
  {
    if n == 0 {
      assert (forall x :: x !in a) ==> a == {};
    } else {
      SubsetSize(a - {n}, n - 1);
      assert n in a ==> a == (a - {n}) + {n};
    }
  }

  /** The board and the inputs are ready for this session: fresh topics, no colliding envelopes, every
      prevout present and nothing degenerate. */
  ghost predicate Ready(c: Curve, hash: Sighasher, cfg: FieldConfig, net: Net, universe: set<Envelope>)
    requires c.q > 0
  {
    && cfg.t <= |cfg.keyPackages.Keys|
    && BoardReady(net.board, universe) && TopicsFreshFrom(net.board, cfg.id, 0, |cfg.psbt.unsigned.inputs|)
    && SeqWithin(Acks(cfg), universe)
    && InRoster(cfg, FirstSeats(cfg)) && InputsReady(c, hash, cfg, FirstSeats(cfg), net.draws, universe)
  }

  /** The session returns its transaction, witnesses aside unchanged, and every input carries a 64-byte
      signature that verifies under Q on that input's sighash. */
  ghost predicate SignsAll(c: Curve, hash: Sighasher, cfg: FieldConfig, net: Net)
    requires c.q > 0
  {
    var run := RunSpec(Instance(c, hash), cfg, false, true, net).0;
    && run.Ok? && SameUpToWitness(run.value, cfg.psbt.unsigned)
    && forall i :: 0 <= i < |run.value.inputs| ==> InputSigned(Instance(c, hash), cfg, run.value, i)
  }

  lemma SignersSign(c: Curve, hash: Sighasher, cfg: FieldConfig, f: seq<int>, net: Net, universe: set<Envelope>)
    requires ValidCurve(c) && Ready(c, hash, cfg, net, universe) && |cfg.keyPackages.Keys| < 0x1_0000
    requires Signers(c, cfg, f, FirstSeats(cfg))
    ensures SignsAll(c, hash, cfg, net)
  {
    SessionSigns(c, hash, cfg, f, net, universe);
    RunSound(Instance(c, hash), cfg, false, true, net);
  }

  /** Any `t` seats can sign: take any completed ceremony of the prime-order group and a session over
      any set of at least `t` of its seats. If the session is ready, it signs every input under
      Q = P + H(P)G. (`FieldDkg.CeremonyDelivers` shows that ceremonies with 2 <= t <= n do complete.) */
  lemma AnyThresholdSigns(
      c: Curve, stream: nat -> int, hash: Sighasher, t: u16, n: u16, rng: nat,
      kps: map<Identifier, KeyPackage>, group: GroupPackage, cfg: FieldConfig, net: Net, universe: set<Envelope>)
    requires ValidCurve(c) && c.q > n && 2 <= t <= n
    requires NaiveDkg(FieldDkg.Instance(c, stream), t, n, rng).0 == Ok((kps, group))
    requires cfg.group == group && cfg.t == t && t <= |cfg.keyPackages.Keys|
    requires forall id :: id in cfg.keyPackages ==> id in kps && cfg.keyPackages[id] == kps[id]
    requires Ready(c, hash, cfg, net, universe)
    ensures SignsAll(c, hash, cfg, net)
  {
    var f := SharesOnPolynomial(c, stream, t, n, rng, kps, group);
    SelectionIsSigners(c, cfg, f, kps, group, t);
    SubsetSize(cfg.keyPackages.Keys, n);
    SignersSign(c, hash, cfg, f, net, universe);
  }

  /** A completed ceremony leaves its shares on one polynomial of length `t`. */
  lemma SharesOnPolynomial(
      c: Curve, stream: nat -> int, t: u16, n: u16, rng: nat, kps: map<Identifier, KeyPackage>, group: GroupPackage)
      returns (f: seq<int>)
    requires c.q > n && 2 <= t <= n && NaiveDkg(FieldDkg.Instance(c, stream), t, n, rng).0 == Ok((kps, group))
    ensures |f| == t && group.min == t && OnPolynomial(c, f, kps, group)
    ensures forall id :: id in kps ==> id <= n
  {
    f := FieldDkg.CeremonyDelivers(c, stream, t, n, rng);
  }

  /** A selection of at least `t` of these shares can sign. */
  lemma SelectionIsSigners(
      c: Curve, cfg: FieldConfig, f: seq<int>, kps: map<Identifier, KeyPackage>, group: GroupPackage, t: nat)
    requires ValidCurve(c) && |f| == t && group.min == t && OnPolynomial(c, f, kps, group)
    requires cfg.group == group && cfg.t == t && t <= |cfg.keyPackages.Keys|
    requires forall id :: id in cfg.keyPackages ==> id in kps && cfg.keyPackages[id] == kps[id]
    ensures Signers(c, cfg, f, FirstSeats(cfg))
  {
  }
}
