/** Completeness of a run: with honest primitives, fresh topics and no id collision, every input
    is signed. */
module Completeness {
  import opened Wrappers
  import opened Ordered
  import opened Text
  import opened Envelopes
  import opened Transport
  import opened Frost
  import opened Session
  import opened SessionLaws

  // ---- what honest seats hold and send ----

  ghost predicate InRoster<KP, G>(cfg: Config<KP, G>, sel: seq<Identifier>) {
    StrictlyAscending(sel) && forall k :: 0 <= k < |sel| ==> sel[k] in cfg.keyPackages
  }

  /** The nonce and commitments of the `k`-th selected seat. */
  function DrawOf<KP, G, N, C, S, Sig>(
      p: Primitives<KP, G, N, C, S, Sig>, cfg: Config<KP, G>, sel: seq<Identifier>, from: nat, k: nat): (N, C)
    requires k < |sel| && sel[k] in cfg.keyPackages
  {
    p.commit(cfg.keyPackages[sel[k]], from + k)
  }

  /** The nonces of the selected seats when seat number `k` takes draw `from + k`. */
  function NonceMap<KP, G, N, C, S, Sig>(
      p: Primitives<KP, G, N, C, S, Sig>, cfg: Config<KP, G>, sel: seq<Identifier>, from: nat): map<Identifier, Held<N>>
    requires forall k :: 0 <= k < |sel| ==> sel[k] in cfg.keyPackages
  {
    if sel == [] then map[] else
      var last := |sel| - 1;
      NonceMap(p, cfg, sel[..last], from)[sel[last] := Held(DrawOf(p, cfg, sel, from, last).0, from + last)]
  }

  /** Their public images. */
  function CommitMap<KP, G, N, C, S, Sig>(
      p: Primitives<KP, G, N, C, S, Sig>, cfg: Config<KP, G>, sel: seq<Identifier>, from: nat): map<Identifier, C>
    requires forall k :: 0 <= k < |sel| ==> sel[k] in cfg.keyPackages
  {
    if sel == [] then map[] else
      var last := |sel| - 1;
      CommitMap(p, cfg, sel[..last], from)[sel[last] := DrawOf(p, cfg, sel, from, last).1]
  }

  function HonestRound1<KP, G, N, C, S, Sig>(
      p: Primitives<KP, G, N, C, S, Sig>, cfg: Config<KP, G>, sel: seq<Identifier>, from: nat, message: seq<byte>)
      : Round1<N, C>
    requires forall k :: 0 <= k < |sel| ==> sel[k] in cfg.keyPackages
  {
    Round1(Package(CommitMap(p, cfg, sel, from), message), NonceMap(p, cfg, sel, from))
  }

  ghost predicate CommitTravels<KP, G, N, C, S, Sig>(p: Primitives<KP, G, N, C, S, Sig>, c: C) {
    p.encodeC(c).Ok? && p.decodeC(p.encodeC(c).value) == Ok(c)
  }

  ghost predicate CommitsTravel<KP, G, N, C, S, Sig>(
      p: Primitives<KP, G, N, C, S, Sig>, cfg: Config<KP, G>, sel: seq<Identifier>, from: nat)
    requires forall k :: 0 <= k < |sel| ==> sel[k] in cfg.keyPackages
  {
    forall k :: 0 <= k < |sel| ==> CommitTravels(p, DrawOf(p, cfg, sel, from, k).1)
  }

  function ShareOf<KP, G, N, C, S, Sig>(
      p: Primitives<KP, G, N, C, S, Sig>, cfg: Config<KP, G>, r1: Round1<N, C>, id: Identifier): Result<S, FrostError>
    requires id in r1.nonces && id in cfg.keyPackages
  {
    p.sign(r1.package, r1.nonces[id].nonces, cfg.keyPackages[id])
  }

  ghost predicate SharesTravel<KP, G, N, C, S, Sig>(
      p: Primitives<KP, G, N, C, S, Sig>, cfg: Config<KP, G>, r1: Round1<N, C>)
  {
    forall id :: id in r1.nonces ==>
      && id in cfg.keyPackages && ShareOf(p, cfg, r1, id).Ok?
      && p.decodeS(p.encodeS(ShareOf(p, cfg, r1, id).value)) == Ok(ShareOf(p, cfg, r1, id).value)
  }

  function ShareMap<KP, G, N, C, S, Sig>(
      p: Primitives<KP, G, N, C, S, Sig>, cfg: Config<KP, G>, r1: Round1<N, C>): map<Identifier, S>
    requires SharesTravel(p, cfg, r1)
  {
    map id | id in r1.nonces :: ShareOf(p, cfg, r1, id).value
  }

  /** Honest primitives at one round: commitments and shares survive their encodings, everyone can
      sign, and the shares aggregate to a 64-byte signature that verifies under Q. */
  ghost predicate HonestRound<KP, G, N, C, S, Sig>(
      p: Primitives<KP, G, N, C, S, Sig>, cfg: Config<KP, G>, sel: seq<Identifier>, from: nat, message: seq<byte>)
    requires forall k :: 0 <= k < |sel| ==> sel[k] in cfg.keyPackages
  {
    var r1 := HonestRound1(p, cfg, sel, from, message);
    && CommitsTravel(p, cfg, sel, from)
    && SharesTravel(p, cfg, r1)
    && p.aggregate(r1.package, ShareMap(p, cfg, r1), cfg.group).Ok?
    && var sig := p.aggregate(r1.package, ShareMap(p, cfg, r1), cfg.group).value;
       p.verify(cfg.group, message, sig) && SignatureBytes(p, sig).Ok?
  }

  function SeatOf<KP, G>(cfg: Config<KP, G>, id: Identifier): u16
    requires id in cfg.keyPackages
  {
    SeatOfIdKeys(Roster(cfg.keyPackages));
    SeatOfId(Roster(cfg.keyPackages))[id]
  }

  /** What the `k`-th selected seat publishes in round 1. */
  function CommitEnvelope<KP, G, N, C, S, Sig>(
      p: Primitives<KP, G, N, C, S, Sig>, cfg: Config<KP, G>, topic: Utf8, sel: seq<Identifier>, from: nat, k: nat): Envelope
    requires k < |sel| && sel[k] in cfg.keyPackages && CommitTravels(p, DrawOf(p, cfg, sel, from, k).1)
  {
    Broadcast(Commitments, topic, 1, SeatOf(cfg, sel[k]), p.encodeC(DrawOf(p, cfg, sel, from, k).1).value)
  }

  function CommitEnvelopes<KP, G, N, C, S, Sig>(
      p: Primitives<KP, G, N, C, S, Sig>, cfg: Config<KP, G>, topic: Utf8, sel: seq<Identifier>, from: nat): (r: seq<Envelope>)
    requires (forall k :: 0 <= k < |sel| ==> sel[k] in cfg.keyPackages) && CommitsTravel(p, cfg, sel, from)
    ensures |r| == |sel|
    ensures forall k :: 0 <= k < |sel| ==> r[k] == CommitEnvelope(p, cfg, topic, sel, from, k)
  {
    seq(|sel|, k requires 0 <= k < |sel| => CommitEnvelope(p, cfg, topic, sel, from, k))
  }

  /** What one holder of a nonce publishes in round 2. */
  function ShareEnvelopeOf<KP, G, N, C, S, Sig>(
      p: Primitives<KP, G, N, C, S, Sig>, cfg: Config<KP, G>, topic: Utf8, r1: Round1<N, C>, id: Identifier): Envelope
    requires SharesTravel(p, cfg, r1) && id in r1.nonces
  {
    ShareEnvelope(topic, SeatOf(cfg, id), p.encodeS(ShareOf(p, cfg, r1, id).value))
  }

  function ShareEnvelopes<KP, G, N, C, S, Sig>(
      p: Primitives<KP, G, N, C, S, Sig>, cfg: Config<KP, G>, topic: Utf8, r1: Round1<N, C>): (r: seq<Envelope>)
    requires SharesTravel(p, cfg, r1)
    ensures |r| == |Roster(r1.nonces)|
    ensures forall k :: 0 <= k < |r| ==> r[k] == ShareEnvelopeOf(p, cfg, topic, r1, Roster(r1.nonces)[k])
  {
    var ids := Roster(r1.nonces);
    seq(|ids|, k requires 0 <= k < |ids| => ShareEnvelopeOf(p, cfg, topic, r1, ids[k]))
  }

  // ---- facts about the maps ----

  lemma {:induction false} NonceMapAt<KP, G, N, C, S, Sig>(
      p: Primitives<KP, G, N, C, S, Sig>, cfg: Config<KP, G>, sel: seq<Identifier>, from: nat, k: nat)
    requires InRoster(cfg, sel) && k < |sel|
    ensures sel[k] in NonceMap(p, cfg, sel, from)
    ensures NonceMap(p, cfg, sel, from)[sel[k]] == Held(DrawOf(p, cfg, sel, from, k).0, from + k)
  {
    var last := |sel| - 1;
    if k < last {
      NonceMapAt(p, cfg, sel[..last], from, k);
      assert sel[..last][k] == sel[k] && sel[k] < sel[last];
    }
  }

  lemma {:induction false} NonceMapOnly<KP, G, N, C, S, Sig>(
      p: Primitives<KP, G, N, C, S, Sig>, cfg: Config<KP, G>, sel: seq<Identifier>, from: nat, id: Identifier)
    requires InRoster(cfg, sel) && id in NonceMap(p, cfg, sel, from)
    ensures id in sel
  {
    var last := |sel| - 1;
    if id != sel[last] {
      NonceMapOnly(p, cfg, sel[..last], from, id);
    }
  }

  lemma {:induction false} NonceMapExact<KP, G, N, C, S, Sig>(
      p: Primitives<KP, G, N, C, S, Sig>, cfg: Config<KP, G>, sel: seq<Identifier>, from: nat)
    requires InRoster(cfg, sel)
    ensures forall id :: id in NonceMap(p, cfg, sel, from) <==> id in sel
    ensures forall k :: 0 <= k < |sel| ==>
      NonceMap(p, cfg, sel, from)[sel[k]] == Held(DrawOf(p, cfg, sel, from, k).0, from + k)
  {
    forall id | id in NonceMap(p, cfg, sel, from) ensures id in sel {
      NonceMapOnly(p, cfg, sel, from, id);
    }
    forall k | 0 <= k < |sel|
      ensures sel[k] in NonceMap(p, cfg, sel, from)
      ensures NonceMap(p, cfg, sel, from)[sel[k]] == Held(DrawOf(p, cfg, sel, from, k).0, from + k)
    {
      NonceMapAt(p, cfg, sel, from, k);
    }
  }

  lemma {:induction false} CommitMapAt<KP, G, N, C, S, Sig>(
      p: Primitives<KP, G, N, C, S, Sig>, cfg: Config<KP, G>, sel: seq<Identifier>, from: nat, k: nat)
    requires InRoster(cfg, sel) && k < |sel|
    ensures sel[k] in CommitMap(p, cfg, sel, from) && CommitMap(p, cfg, sel, from)[sel[k]] == DrawOf(p, cfg, sel, from, k).1
  {
    var last := |sel| - 1;
    if k < last {
      CommitMapAt(p, cfg, sel[..last], from, k);
      assert sel[..last][k] == sel[k] && sel[k] < sel[last];
    }
  }

  lemma {:induction false} CommitMapOnly<KP, G, N, C, S, Sig>(
      p: Primitives<KP, G, N, C, S, Sig>, cfg: Config<KP, G>, sel: seq<Identifier>, from: nat, id: Identifier)
    requires InRoster(cfg, sel) && id in CommitMap(p, cfg, sel, from)
    ensures id in sel
  {
    var last := |sel| - 1;
    if id != sel[last] {
      CommitMapOnly(p, cfg, sel[..last], from, id);
    }
  }

  lemma {:induction false} CommitMapExact<KP, G, N, C, S, Sig>(
      p: Primitives<KP, G, N, C, S, Sig>, cfg: Config<KP, G>, sel: seq<Identifier>, from: nat)
    requires InRoster(cfg, sel)
    ensures forall id :: id in CommitMap(p, cfg, sel, from) <==> id in sel
    ensures forall k :: 0 <= k < |sel| ==> CommitMap(p, cfg, sel, from)[sel[k]] == DrawOf(p, cfg, sel, from, k).1
  {
    forall id | id in CommitMap(p, cfg, sel, from) ensures id in sel {
      CommitMapOnly(p, cfg, sel, from, id);
    }
    forall k | 0 <= k < |sel|
      ensures sel[k] in CommitMap(p, cfg, sel, from)
      ensures CommitMap(p, cfg, sel, from)[sel[k]] == DrawOf(p, cfg, sel, from, k).1
    {
      CommitMapAt(p, cfg, sel, from, k);
    }
  }

  lemma SeatOfInverse<KP, G>(cfg: Config<KP, G>, id: Identifier)
    requires |cfg.keyPackages.Keys| < 0x1_0000 && id in cfg.keyPackages
    ensures SeatOf(cfg, id) in IdOfSeat(Roster(cfg.keyPackages))
    ensures IdOfSeat(Roster(cfg.keyPackages))[SeatOf(cfg, id)] == id
  {
    var roster := Roster(cfg.keyPackages);
    var k :| 0 <= k < |roster| && roster[k] == id;
    SeatInverseAt(roster, k);
  }

  // ---- round 1 ----

  lemma CommitStepIs<KP, G, N, C, S, Sig>(
      p: Primitives<KP, G, N, C, S, Sig>, cfg: Config<KP, G>, topic: Utf8, id: Identifier, net: Net,
      held: Held<N>, c: C, e: Envelope, drawn: Net)
    requires id in SeatOfId(Roster(cfg.keyPackages)) && p.encodeC(c).Ok?
    requires e == Broadcast(Commitments, topic, 1, SeatOfId(Roster(cfg.keyPackages))[id], p.encodeC(c).value)
    requires id in cfg.keyPackages && p.commit(cfg.keyPackages[id], net.draws) == (held.nonces, c) && held.draw == net.draws
    requires drawn == net.(draws := net.draws + 1)
    ensures CommitStep(p, cfg, topic, id, net) == (Ok(held), Publish(drawn, e))
  {
  }

  lemma SeatOfIs<KP, G>(cfg: Config<KP, G>, id: Identifier)
    requires id in cfg.keyPackages
    ensures id in SeatOfId(Roster(cfg.keyPackages)) && SeatOf(cfg, id) == SeatOfId(Roster(cfg.keyPackages))[id]
  {
    SeatOfIdKeys(Roster(cfg.keyPackages));
  }

  lemma PublishCommits<N>(net: Net, drawn: Net, held: Held<N>, e: Envelope)
    requires drawn == net.(draws := net.draws + 1)
    ensures Committed((Ok(held), Publish(drawn, e)), net, held, e)
  {
  }

  /** One seat commits: its nonce is held, its commitments are on the board. */
  ghost predicate Committed<N>(out: (Result<Held<N>, SessionError>, Net), net: Net, held: Held<N>, e: Envelope) {
    out.0 == Ok(held) && out.1.board == Post(net.board, e) && out.1.draws == net.draws + 1
  }

  lemma CommitStepExact<KP, G, N, C, S, Sig>(
      p: Primitives<KP, G, N, C, S, Sig>, cfg: Config<KP, G>, topic: Utf8, sel: seq<Identifier>, from: nat, k: nat, net: Net,
      held: Held<N>, e: Envelope)
    requires k < |sel| && sel[k] in cfg.keyPackages && CommitTravels(p, DrawOf(p, cfg, sel, from, k).1)
    requires net.draws == from + k
    requires held == Held(DrawOf(p, cfg, sel, from, k).0, from + k) && e == CommitEnvelope(p, cfg, topic, sel, from, k)
    ensures Committed(CommitStep(p, cfg, topic, sel[k], net), net, held, e)
  {
    var (nonce, c) := DrawOf(p, cfg, sel, from, k);
    CommitStepCommits(p, cfg, topic, sel[k], net, held, c, e, net.(draws := net.draws + 1));
  }

  lemma CommitStepCommits<KP, G, N, C, S, Sig>(
      p: Primitives<KP, G, N, C, S, Sig>, cfg: Config<KP, G>, topic: Utf8, id: Identifier, net: Net,
      held: Held<N>, c: C, e: Envelope, drawn: Net)
    requires id in cfg.keyPackages && p.commit(cfg.keyPackages[id], net.draws) == (held.nonces, c) && held.draw == net.draws
    requires p.encodeC(c).Ok? && e == Broadcast(Commitments, topic, 1, SeatOf(cfg, id), p.encodeC(c).value)
    requires drawn == net.(draws := net.draws + 1)
    ensures Committed(CommitStep(p, cfg, topic, id, net), net, held, e)
  {
    SeatOfIs(cfg, id);
    CommitStepIs(p, cfg, topic, id, net, held, c, e, drawn);
    PublishCommits(net, drawn, held, e);
  }

  lemma NonceMapSnoc<KP, G, N, C, S, Sig>(
      p: Primitives<KP, G, N, C, S, Sig>, cfg: Config<KP, G>, sel: seq<Identifier>, from: nat, k: nat)
    requires InRoster(cfg, sel) && k < |sel|
    ensures NonceMap(p, cfg, sel[..k + 1], from) ==
      NonceMap(p, cfg, sel[..k], from)[sel[k] := Held(DrawOf(p, cfg, sel, from, k).0, from + k)]
  {
    assert sel[..k + 1][..k] == sel[..k];
  }

  /** The loop from position `k` on, after the `k`-th seat has committed. */
  lemma CommitLoopUnrolled<KP, G, N, C, S, Sig>(
      p: Primitives<KP, G, N, C, S, Sig>, cfg: Config<KP, G>, topic: Utf8, sel: seq<Identifier>, from: nat, k: nat, net: Net, net': Net)
    requires InRoster(cfg, sel) && k < |sel|
    requires CommitStep(p, cfg, topic, sel[k], net) == (Ok(Held(DrawOf(p, cfg, sel, from, k).0, from + k)), net')
    ensures CommitLoop(p, cfg, topic, sel[k..], net, NonceMap(p, cfg, sel[..k], from)) ==
      CommitLoop(p, cfg, topic, sel[k + 1..], net', NonceMap(p, cfg, sel[..k + 1], from))
  {
    NonceMapSnoc(p, cfg, sel, from, k);
    assert sel[k..][0] == sel[k] && sel[k..][1..] == sel[k + 1..];
    CommitLoopStep(p, cfg, topic, sel[k..], net, NonceMap(p, cfg, sel[..k], from));
  }

  ghost predicate LoopDone<N>(out: (Result<map<Identifier, Held<N>>, SessionError>, Net), nonces: map<Identifier, Held<N>>, b: Board, draws: nat) {
    out.0 == Ok(nonces) && out.1.board == b && out.1.draws == draws
  }

  lemma {:induction false} CommitLoopExact<KP, G, N, C, S, Sig>(
      p: Primitives<KP, G, N, C, S, Sig>, cfg: Config<KP, G>, topic: Utf8, sel: seq<Identifier>, from: nat, k: nat, net: Net,
      es: seq<Envelope>)
    requires InRoster(cfg, sel) && CommitsTravel(p, cfg, sel, from) && k <= |sel| && net.draws == from + k
    requires es == CommitEnvelopes(p, cfg, topic, sel, from)
    ensures LoopDone(CommitLoop(p, cfg, topic, sel[k..], net, NonceMap(p, cfg, sel[..k], from)),
                     NonceMap(p, cfg, sel, from), PostAll(net.board, es[k..]), from + |sel|)
    decreases |sel| - k
  {
    if k == |sel| {
      assert sel[..k] == sel;
    } else {
      CommitStepExact(
        p, cfg, topic, sel, from, k, net, Held(DrawOf(p, cfg, sel, from, k).0, from + k), CommitEnvelope(p, cfg, topic, sel, from, k));
      var net' := CommitStep(p, cfg, topic, sel[k], net).1;
      CommitLoopUnrolled(p, cfg, topic, sel, from, k, net, net');
      CommitLoopExact(p, cfg, topic, sel, from, k + 1, net', es);
      PostAllFrom(net.board, net'.board, es, k);
    }
  }

  /** Reading envelopes that all say what `expected` says yields the part of it they cover. */
  lemma {:induction false} CollectCommitmentsExact<KP, G, N, C, S, Sig>(
      p: Primitives<KP, G, N, C, S, Sig>, idOfSeat: map<u16, Identifier>, sel: seq<Identifier>,
      es: seq<Envelope>, acc: map<Identifier, C>, expected: map<Identifier, C>)
    requires forall id :: id in acc ==> id in expected && acc[id] == expected[id]
    requires forall i :: 0 <= i < |es| ==>
      && es[i].seat in idOfSeat && idOfSeat[es[i].seat] in sel && idOfSeat[es[i].seat] in expected
      && p.decodeC(es[i].payload) == Ok(expected[idOfSeat[es[i].seat]])
    ensures var res := CollectCommitments(p, idOfSeat, sel, es, acc);
      && res.Ok?
      && (forall id :: id in res.value ==> id in expected && res.value[id] == expected[id])
      && (forall id :: id in acc ==> id in res.value)
      && forall i :: 0 <= i < |es| ==> idOfSeat[es[i].seat] in res.value
    decreases |es|
  {
    if es != [] {
      var acc' := acc[idOfSeat[es[0].seat] := expected[idOfSeat[es[0].seat]]];
      CollectCommitmentsExact(p, idOfSeat, sel, es[1..], acc', expected);
      forall i | 0 <= i < |es|
        ensures idOfSeat[es[i].seat] in CollectCommitments(p, idOfSeat, sel, es, acc).value
      {
        if i > 0 { assert es[i] == es[1..][i - 1]; }
      }
    }
  }

  /** No commitment or share is on the board yet under the topic. */
  ghost predicate FreshTopic(b: Board, topic: Utf8) {
    forall e :: OnBoard(b, e) && e.session == topic ==> e.class_ != Commitments && e.class_ != SignatureShare
  }

  /** The `k`-th envelope speaks for `ids[k]` and carries the expected commitments; every expected
      identifier has one. */
  ghost predicate CarriesCommitments<KP, G, N, C, S, Sig>(
      p: Primitives<KP, G, N, C, S, Sig>, idOfSeat: map<u16, Identifier>, ids: seq<Identifier>, es: seq<Envelope>,
      expected: map<Identifier, C>)
  {
    && |es| == |ids|
    && (forall id :: id in expected ==> id in ids)
    && forall k :: 0 <= k < |es| ==>
         && es[k].seat in idOfSeat && idOfSeat[es[k].seat] == ids[k] && ids[k] in expected
         && p.decodeC(es[k].payload) == Ok(expected[ids[k]])
  }

  lemma ReadBackCommitments<KP, G, N, C, S, Sig>(
      p: Primitives<KP, G, N, C, S, Sig>, idOfSeat: map<u16, Identifier>, ids: seq<Identifier>, es: seq<Envelope>,
      expected: map<Identifier, C>, found: seq<Envelope>)
    requires CarriesCommitments(p, idOfSeat, ids, es, expected)
    requires forall e :: e in found <==> e in es
    ensures CollectCommitments(p, idOfSeat, ids, found, map[]) == Ok(expected)
  {
    forall i | 0 <= i < |found|
      ensures found[i].seat in idOfSeat && idOfSeat[found[i].seat] in ids && idOfSeat[found[i].seat] in expected
      ensures p.decodeC(found[i].payload) == Ok(expected[idOfSeat[found[i].seat]])
    {
      assert found[i] in es;
      var k :| 0 <= k < |es| && es[k] == found[i];
    }
    CollectCommitmentsExact(p, idOfSeat, ids, found, map[], expected);
    var got := CollectCommitments(p, idOfSeat, ids, found, map[]).value;
    forall id | id in expected ensures id in got {
      var k :| 0 <= k < |ids| && ids[k] == id;
      assert es[k] in es;
      var i :| 0 <= i < |found| && found[i] == es[k];
      assert idOfSeat[found[i].seat] in got;
    }
    assert got == expected;
  }

  lemma CommitsAreCarried<KP, G, N, C, S, Sig>(
      p: Primitives<KP, G, N, C, S, Sig>, cfg: Config<KP, G>, topic: Utf8, sel: seq<Identifier>, from: nat)
    requires InRoster(cfg, sel) && CommitsTravel(p, cfg, sel, from) && |cfg.keyPackages.Keys| < 0x1_0000
    ensures CarriesCommitments(p, IdOfSeat(Roster(cfg.keyPackages)), sel, CommitEnvelopes(p, cfg, topic, sel, from),
                               CommitMap(p, cfg, sel, from))
  {
    var idOfSeat := IdOfSeat(Roster(cfg.keyPackages));
    var es := CommitEnvelopes(p, cfg, topic, sel, from);
    var expected := CommitMap(p, cfg, sel, from);
    CommitMapExact(p, cfg, sel, from);
    forall k | 0 <= k < |es|
      ensures es[k].seat in idOfSeat && idOfSeat[es[k].seat] == sel[k] && sel[k] in expected
      ensures p.decodeC(es[k].payload) == Ok(expected[sel[k]])
    {
      SeatOfInverse(cfg, sel[k]);
      assert CommitTravels(p, DrawOf(p, cfg, sel, from, k).1);
      assert es[k] == CommitEnvelope(p, cfg, topic, sel, from, k);
    }
  }

  lemma CommitMatches<KP, G, N, C, S, Sig>(
      p: Primitives<KP, G, N, C, S, Sig>, cfg: Config<KP, G>, topic: Utf8, sel: seq<Identifier>, from: nat, e: Envelope)
    requires InRoster(cfg, sel) && CommitsTravel(p, cfg, sel, from)
    ensures e in CommitEnvelopes(p, cfg, topic, sel, from) ==> Matches(CommitmentFilter(topic), e)
    ensures Matches(CommitmentFilter(topic), e) ==> e.class_ == Commitments && e.session == topic
  {
    var es := CommitEnvelopes(p, cfg, topic, sel, from);
    if e in es {
      var k :| 0 <= k < |es| && es[k] == e;
      assert e == CommitEnvelope(p, cfg, topic, sel, from, k);
    }
  }

  /** Round 1 on a fresh topic: the package maps exactly the selected seats to the public images
      of the nonces held for them, and its message is the input's sighash. */
  lemma Round1Exact<KP, G, N, C, S, Sig>(
      p: Primitives<KP, G, N, C, S, Sig>, cfg: Config<KP, G>, input: nat, sel: seq<Identifier>, net: Net, universe: set<Envelope>)
    requires InRoster(cfg, sel) && CommitsTravel(p, cfg, sel, net.draws) && |cfg.keyPackages.Keys| < 0x1_0000
    requires Sighash(p, cfg.psbt, input).Ok?
    requires WellKeyed(net.board) && CollisionFree(universe) && BoardWithin(net.board, universe)
    requires SeqWithin(CommitEnvelopes(p, cfg, Topic(cfg.id, input), sel, net.draws), universe)
    requires FreshTopic(net.board, Topic(cfg.id, input))
    ensures var (res, net') := Round1Spec(p, cfg, input, sel, net);
      && res == Ok(HonestRound1(p, cfg, sel, net.draws, Sighash(p, cfg.psbt, input).value))
      && net'.board == PostAll(net.board, CommitEnvelopes(p, cfg, Topic(cfg.id, input), sel, net.draws))
      && net'.draws == net.draws + |sel|
  {
    var topic := Topic(cfg.id, input);
    var es := CommitEnvelopes(p, cfg, topic, sel, net.draws);
    assert sel[0..] == sel && sel[..0] == [] && es[0..] == es;
    CommitLoopExact(p, cfg, topic, sel, net.draws, 0, net, es);
    PostAllExact(net.board, es, universe);
    var b := PostAll(net.board, es);
    var found := Fetch(b, CommitmentFilter(topic));
    FetchExact(b, CommitmentFilter(topic));
    forall e ensures e in found <==> e in es {
      CommitMatches(p, cfg, topic, sel, net.draws, e);
    }
    CommitsAreCarried(p, cfg, topic, sel, net.draws);
    ReadBackCommitments(p, IdOfSeat(Roster(cfg.keyPackages)), sel, es, CommitMap(p, cfg, sel, net.draws), found);
  }

  // ---- round 2 ----

  lemma SignStepIs<KP, G, N, C, S, Sig>(
      p: Primitives<KP, G, N, C, S, Sig>, cfg: Config<KP, G>, input: nat, prevouts: seq<TxOut>, r1: Round1<N, C>,
      id: Identifier, net: Net, share: S, gated: Net)
    requires id in r1.nonces && id in cfg.keyPackages
    requires p.sighash(cfg.psbt.unsigned, input, prevouts) == Ok(r1.package.message)
    requires p.sign(r1.package, r1.nonces[id].nonces, cfg.keyPackages[id]) == Ok(share)
    requires gated == net.(events := net.events + [Gate(id, input, r1.package.message), SignedWith(r1.nonces[id].draw, r1.package.message)])
    ensures SignStep(p, cfg, input, prevouts, r1, true, id, net) ==
      (Ok(()), Publish(gated, ShareEnvelope(Topic(cfg.id, input), SeatOf(cfg, id), p.encodeS(share))))
  {
    SeatOfIdKeys(Roster(cfg.keyPackages));
    assert DisplayAndAck(p, cfg.psbt.unsigned, prevouts, input, r1.package.message, true).Ok?;
  }

  /** One seat signs: its share is on the board. */
  ghost predicate Signed(out: (Result<(), SessionError>, Net), net: Net, b: Board) {
    out.0.Ok? && out.1.draws == net.draws && out.1.board == b
  }

  lemma SignStepExact<KP, G, N, C, S, Sig>(
      p: Primitives<KP, G, N, C, S, Sig>, cfg: Config<KP, G>, input: nat, prevouts: seq<TxOut>, r1: Round1<N, C>,
      id: Identifier, net: Net)
    requires SharesTravel(p, cfg, r1) && id in r1.nonces
    requires p.sighash(cfg.psbt.unsigned, input, prevouts) == Ok(r1.package.message)
    ensures Signed(SignStep(p, cfg, input, prevouts, r1, true, id, net), net,
                   Post(net.board, ShareEnvelopeOf(p, cfg, Topic(cfg.id, input), r1, id)))
  {
    var share := ShareOf(p, cfg, r1, id).value;
    var gated := net.(events := net.events + [Gate(id, input, r1.package.message), SignedWith(r1.nonces[id].draw, r1.package.message)]);
    SignStepIs(p, cfg, input, prevouts, r1, id, net, share, gated);
  }

  lemma {:induction false} SignLoopExact<KP, G, N, C, S, Sig>(
      p: Primitives<KP, G, N, C, S, Sig>, cfg: Config<KP, G>, input: nat, prevouts: seq<TxOut>, r1: Round1<N, C>,
      i: nat, net: Net, es: seq<Envelope>)
    requires SharesTravel(p, cfg, r1) && i <= |Roster(r1.nonces)|
    requires p.sighash(cfg.psbt.unsigned, input, prevouts) == Ok(r1.package.message)
    requires es == ShareEnvelopes(p, cfg, Topic(cfg.id, input), r1)
    ensures Signed(SignLoop(p, cfg, input, prevouts, r1, true, i, net), net, PostAll(net.board, es[i..]))
    decreases |Roster(r1.nonces)| - i
  {
    if i < |Roster(r1.nonces)| {
      var id := Roster(r1.nonces)[i];
      SignStepExact(p, cfg, input, prevouts, r1, id, net);
      var net' := SignStep(p, cfg, input, prevouts, r1, true, id, net).1;
      SignLoopStep(p, cfg, input, prevouts, r1, true, i, net);
      SignLoopExact(p, cfg, input, prevouts, r1, i + 1, net', es);
      PostAllFrom(net.board, net'.board, es, i);
    }
  }

  lemma {:induction false} CollectSharesExact<KP, G, N, C, S, Sig>(
      p: Primitives<KP, G, N, C, S, Sig>, idOfSeat: map<u16, Identifier>,
      es: seq<Envelope>, acc: map<Identifier, S>, expected: map<Identifier, S>)
    requires forall id :: id in acc ==> id in expected && acc[id] == expected[id]
    requires forall i :: 0 <= i < |es| ==>
      && es[i].seat in idOfSeat && idOfSeat[es[i].seat] in expected
      && p.decodeS(es[i].payload) == Ok(expected[idOfSeat[es[i].seat]])
    ensures var res := CollectShares(p, idOfSeat, es, acc);
      && res.Ok?
      && (forall id :: id in res.value ==> id in expected && res.value[id] == expected[id])
      && (forall id :: id in acc ==> id in res.value)
      && forall i :: 0 <= i < |es| ==> idOfSeat[es[i].seat] in res.value
    decreases |es|
  {
    if es != [] {
      var acc' := acc[idOfSeat[es[0].seat] := expected[idOfSeat[es[0].seat]]];
      CollectSharesExact(p, idOfSeat, es[1..], acc', expected);
      forall i | 0 <= i < |es|
        ensures idOfSeat[es[i].seat] in CollectShares(p, idOfSeat, es, acc).value
      {
        if i > 0 { assert es[i] == es[1..][i - 1]; }
      }
    }
  }

  ghost predicate CarriesShares<KP, G, N, C, S, Sig>(
      p: Primitives<KP, G, N, C, S, Sig>, idOfSeat: map<u16, Identifier>, ids: seq<Identifier>, es: seq<Envelope>,
      expected: map<Identifier, S>)
  {
    && |es| == |ids|
    && (forall id :: id in expected ==> id in ids)
    && forall k :: 0 <= k < |es| ==>
         && es[k].seat in idOfSeat && idOfSeat[es[k].seat] == ids[k] && ids[k] in expected
         && p.decodeS(es[k].payload) == Ok(expected[ids[k]])
  }

  lemma ReadBackShares<KP, G, N, C, S, Sig>(
      p: Primitives<KP, G, N, C, S, Sig>, idOfSeat: map<u16, Identifier>, ids: seq<Identifier>, es: seq<Envelope>,
      expected: map<Identifier, S>, found: seq<Envelope>)
    requires CarriesShares(p, idOfSeat, ids, es, expected)
    requires forall e :: e in found <==> e in es
    ensures CollectShares(p, idOfSeat, found, map[]) == Ok(expected)
  {
    forall i | 0 <= i < |found|
      ensures found[i].seat in idOfSeat && idOfSeat[found[i].seat] in expected
      ensures p.decodeS(found[i].payload) == Ok(expected[idOfSeat[found[i].seat]])
    {
      assert found[i] in es;
      var k :| 0 <= k < |es| && es[k] == found[i];
    }
    CollectSharesExact(p, idOfSeat, found, map[], expected);
    var got := CollectShares(p, idOfSeat, found, map[]).value;
    forall id | id in expected ensures id in got {
      var k :| 0 <= k < |ids| && ids[k] == id;
      assert es[k] in es;
      var i :| 0 <= i < |found| && found[i] == es[k];
      assert idOfSeat[found[i].seat] in got;
    }
    assert got == expected;
  }

  lemma SharesAreCarried<KP, G, N, C, S, Sig>(
      p: Primitives<KP, G, N, C, S, Sig>, cfg: Config<KP, G>, topic: Utf8, r1: Round1<N, C>)
    requires SharesTravel(p, cfg, r1) && |cfg.keyPackages.Keys| < 0x1_0000
    ensures CarriesShares(p, IdOfSeat(Roster(cfg.keyPackages)), Roster(r1.nonces), ShareEnvelopes(p, cfg, topic, r1),
                          ShareMap(p, cfg, r1))
  {
    var ids := Roster(r1.nonces);
    var es := ShareEnvelopes(p, cfg, topic, r1);
    forall k | 0 <= k < |es|
      ensures es[k].seat in IdOfSeat(Roster(cfg.keyPackages)) && IdOfSeat(Roster(cfg.keyPackages))[es[k].seat] == ids[k]
      ensures p.decodeS(es[k].payload) == Ok(ShareMap(p, cfg, r1)[ids[k]])
    {
      ShareIsCarried(p, cfg, topic, r1, ids[k], es[k]);
    }
  }

  lemma ShareIsCarried<KP, G, N, C, S, Sig>(
      p: Primitives<KP, G, N, C, S, Sig>, cfg: Config<KP, G>, topic: Utf8, r1: Round1<N, C>, id: Identifier, e: Envelope)
    requires SharesTravel(p, cfg, r1) && |cfg.keyPackages.Keys| < 0x1_0000 && id in r1.nonces
    requires e == ShareEnvelopeOf(p, cfg, topic, r1, id)
    ensures e.seat in IdOfSeat(Roster(cfg.keyPackages)) && IdOfSeat(Roster(cfg.keyPackages))[e.seat] == id
    ensures p.decodeS(e.payload) == Ok(ShareMap(p, cfg, r1)[id])
  {
    SeatOfInverse(cfg, id);
  }

  lemma ShareFilterMeaning(topic: Utf8, e: Envelope)
    requires Matches(ShareFilter(topic), e)
    ensures e.class_ == SignatureShare && e.session == topic
  {
  }

  lemma ShareEnvelopeMatches(topic: Utf8, seat: u16, payload: seq<byte>)
    ensures Matches(ShareFilter(topic), ShareEnvelope(topic, seat, payload))
  {
  }

  lemma ShareMatches<KP, G, N, C, S, Sig>(
      p: Primitives<KP, G, N, C, S, Sig>, cfg: Config<KP, G>, topic: Utf8, r1: Round1<N, C>, e: Envelope)
    requires SharesTravel(p, cfg, r1)
    ensures e in ShareEnvelopes(p, cfg, topic, r1) ==> Matches(ShareFilter(topic), e)
    ensures Matches(ShareFilter(topic), e) ==> e.class_ == SignatureShare && e.session == topic
  {
    var es := ShareEnvelopes(p, cfg, topic, r1);
    if e in es {
      var k :| 0 <= k < |es| && es[k] == e;
      ShareEnvelopeMatches(topic, e.seat, e.payload);
    }
    if Matches(ShareFilter(topic), e) {
      ShareFilterMeaning(topic, e);
    }
  }

  /** The shares are not on the board yet. */
  ghost predicate NoShares(b: Board, topic: Utf8) {
    forall e :: OnBoard(b, e) && e.session == topic ==> e.class_ != SignatureShare
  }

  lemma ReadBackAllShares<KP, G, N, C, S, Sig>(
      p: Primitives<KP, G, N, C, S, Sig>, cfg: Config<KP, G>, topic: Utf8, r1: Round1<N, C>, b: Board, universe: set<Envelope>)
    requires SharesTravel(p, cfg, r1) && |cfg.keyPackages.Keys| < 0x1_0000
    requires WellKeyed(b) && CollisionFree(universe) && BoardWithin(b, universe)
    requires SeqWithin(ShareEnvelopes(p, cfg, topic, r1), universe) && NoShares(b, topic)
    ensures CollectShares(p, IdOfSeat(Roster(cfg.keyPackages)),
                          Fetch(PostAll(b, ShareEnvelopes(p, cfg, topic, r1)), ShareFilter(topic)), map[]) ==
      Ok(ShareMap(p, cfg, r1))
  {
    var es := ShareEnvelopes(p, cfg, topic, r1);
    PostAllExact(b, es, universe);
    var found := Fetch(PostAll(b, es), ShareFilter(topic));
    FetchExact(PostAll(b, es), ShareFilter(topic));
    forall e ensures e in found <==> e in es {
      ShareMatches(p, cfg, topic, r1, e);
    }
    SharesAreCarried(p, cfg, topic, r1);
    ReadBackShares(p, IdOfSeat(Roster(cfg.keyPackages)), Roster(r1.nonces), es, ShareMap(p, cfg, r1), found);
  }

  /** Round 2 with honest primitives: exactly the holders' shares are collected and the signature
      verifies. */
  lemma Round2Exact<KP, G, N, C, S, Sig>(
      p: Primitives<KP, G, N, C, S, Sig>, cfg: Config<KP, G>, input: nat, sel: seq<Identifier>, from: nat,
      net: Net, universe: set<Envelope>)
    requires InRoster(cfg, sel) && |cfg.keyPackages.Keys| < 0x1_0000 && Sighash(p, cfg.psbt, input).Ok?
    requires HonestRound(p, cfg, sel, from, Sighash(p, cfg.psbt, input).value)
    requires WellKeyed(net.board) && CollisionFree(universe) && BoardWithin(net.board, universe)
    requires var r1 := HonestRound1(p, cfg, sel, from, Sighash(p, cfg.psbt, input).value);
      SeqWithin(ShareEnvelopes(p, cfg, Topic(cfg.id, input), r1), universe)
    requires NoShares(net.board, Topic(cfg.id, input))
    ensures var r1 := HonestRound1(p, cfg, sel, from, Sighash(p, cfg.psbt, input).value);
      var (res, net') := Round2Spec(p, cfg, input, r1, true, net);
      && res == Ok(p.aggregate(r1.package, ShareMap(p, cfg, r1), cfg.group).value)
      && net'.board == PostAll(net.board, ShareEnvelopes(p, cfg, Topic(cfg.id, input), r1))
      && net'.draws == net.draws
  {
    var r1 := HonestRound1(p, cfg, sel, from, Sighash(p, cfg.psbt, input).value);
    var topic := Topic(cfg.id, input);
    var es := ShareEnvelopes(p, cfg, topic, r1);
    SignLoopExact(p, cfg, input, Prevouts(cfg.psbt).value, r1, 0, net, es);
    assert es[0..] == es;
    ReadBackAllShares(p, cfg, topic, r1, net.board, universe);
  }

  // ---- the whole run ----

  /** Everything an honest run sends for input `i`, all inputs before it taking `t` draws each. */
  ghost predicate TrafficWithin<KP, G, N, C, S, Sig>(
      p: Primitives<KP, G, N, C, S, Sig>, cfg: Config<KP, G>, sel: seq<Identifier>, from: nat, input: nat, universe: set<Envelope>)
    requires InRoster(cfg, sel) && Sighash(p, cfg.psbt, input).Ok?
    requires HonestRound(p, cfg, sel, from, Sighash(p, cfg.psbt, input).value)
  {
    && SeqWithin(CommitEnvelopes(p, cfg, Topic(cfg.id, input), sel, from), universe)
    && SeqWithin(ShareEnvelopes(p, cfg, Topic(cfg.id, input), HonestRound1(p, cfg, sel, from, Sighash(p, cfg.psbt, input).value)), universe)
  }

  /** Input `i` can be signed honestly, and what that sends stays within `universe`. */
  ghost predicate HonestInput<KP, G, N, C, S, Sig>(
      p: Primitives<KP, G, N, C, S, Sig>, cfg: Config<KP, G>, sel: seq<Identifier>, from: nat, input: nat, universe: set<Envelope>)
    requires InRoster(cfg, sel)
  {
    && Sighash(p, cfg.psbt, input).Ok?
    && HonestRound(p, cfg, sel, from, Sighash(p, cfg.psbt, input).value)
    && TrafficWithin(p, cfg, sel, from, input, universe)
  }

  ghost predicate BoardReady(b: Board, universe: set<Envelope>) {
    WellKeyed(b) && CollisionFree(universe) && BoardWithin(b, universe)
  }

  /** What was posted under one topic leaves every other topic fresh. */
  ghost predicate SameOutside(b: Board, c: Board, topic: Utf8) {
    forall e :: OnBoard(c, e) ==> OnBoard(b, e) || e.session == topic
  }

  lemma SignInputExact<KP, G, N, C, S, Sig>(
      p: Primitives<KP, G, N, C, S, Sig>, cfg: Config<KP, G>, sel: seq<Identifier>, input: nat, net: Net, universe: set<Envelope>)
    requires InRoster(cfg, sel) && |cfg.keyPackages.Keys| < 0x1_0000
    requires HonestInput(p, cfg, sel, net.draws, input, universe)
    requires BoardReady(net.board, universe) && FreshTopic(net.board, Topic(cfg.id, input))
    ensures var (res, net') := SignInput(p, cfg, sel, true, input, net);
      && res.Ok? && net'.draws == net.draws + |sel|
      && BoardReady(net'.board, universe) && SameOutside(net.board, net'.board, Topic(cfg.id, input))
  {
    var topic := Topic(cfg.id, input);
    var r1 := HonestRound1(p, cfg, sel, net.draws, Sighash(p, cfg.psbt, input).value);
    var commits := CommitEnvelopes(p, cfg, topic, sel, net.draws);
    var shares := ShareEnvelopes(p, cfg, topic, r1);
    Round1Exact(p, cfg, input, sel, net, universe);
    var net1 := Round1Spec(p, cfg, input, sel, net).1;
    PostAllExact(net.board, commits, universe);
    forall e | OnBoard(net1.board, e) && e.session == topic ensures e.class_ != SignatureShare {
      CommitMatches(p, cfg, topic, sel, net.draws, e);
    }
    Round2Exact(p, cfg, input, sel, net.draws, net1, universe);
    PostAllExact(net1.board, shares, universe);
    var net2 := Round2Spec(p, cfg, input, r1, true, net1).1;
    forall e | OnBoard(net2.board, e) ensures OnBoard(net.board, e) || e.session == topic {
      CommitMatches(p, cfg, topic, sel, net.draws, e);
      ShareMatches(p, cfg, topic, r1, e);
    }
  }

  ghost predicate TopicsFreshFrom(b: Board, id: Utf8, input: nat, inputs: nat) {
    forall i :: input <= i < inputs ==> FreshTopic(b, Topic(id, i))
  }

  lemma TopicsStayFresh(b: Board, c: Board, id: Utf8, input: nat, inputs: nat)
    requires TopicsFreshFrom(b, id, input, inputs) && SameOutside(b, c, Topic(id, input))
    ensures TopicsFreshFrom(c, id, input + 1, inputs)
  {
    forall i | input + 1 <= i < inputs ensures FreshTopic(c, Topic(id, i)) {
      if Topic(id, i) == Topic(id, input) { TopicInjective(id, i, id, input); }
      assert FreshTopic(b, Topic(id, i));
    }
  }

  /** Input `i` of a run starts after `i` inputs took `t` draws each. */
  function DrawsBefore(from: nat, t: nat, i: nat): nat {
    if i == 0 then from else DrawsBefore(from, t, i - 1) + t
  }

  ghost predicate HonestFrom<KP, G, N, C, S, Sig>(
      p: Primitives<KP, G, N, C, S, Sig>, cfg: Config<KP, G>, sel: seq<Identifier>, from: nat, input: nat,
      inputs: nat, universe: set<Envelope>)
    requires InRoster(cfg, sel)
  {
    forall i :: input <= i < inputs ==> HonestInput(p, cfg, sel, DrawsBefore(from, |sel|, i), i, universe)
  }

  lemma {:induction false} RunInputsComplete<KP, G, N, C, S, Sig>(
      p: Primitives<KP, G, N, C, S, Sig>, cfg: Config<KP, G>, sel: seq<Identifier>, tx: Tx, input: nat, net: Net,
      from: nat, universe: set<Envelope>)
    requires InRoster(cfg, sel) && |cfg.keyPackages.Keys| < 0x1_0000 && input <= |tx.inputs|
    requires net.draws == DrawsBefore(from, |sel|, input)
    requires HonestFrom(p, cfg, sel, from, input, |tx.inputs|, universe)
    requires BoardReady(net.board, universe) && TopicsFreshFrom(net.board, cfg.id, input, |tx.inputs|)
    ensures RunInputs(p, cfg, sel, true, tx, input, net).0.Ok?
    decreases |tx.inputs| - input
  {
    if input < |tx.inputs| {
      assert HonestInput(p, cfg, sel, net.draws, input, universe) && FreshTopic(net.board, Topic(cfg.id, input));
      SignInputExact(p, cfg, sel, input, net, universe);
      RunInputsStep(p, cfg, sel, true, tx, input, net);
      var (bytes, net') := SignInput(p, cfg, sel, true, input, net);
      TopicsStayFresh(net.board, net'.board, cfg.id, input, |tx.inputs|);
      RunInputsComplete(p, cfg, sel, SetWitness(tx, input, bytes.value), input + 1, net', from, universe);
    }
  }

  /** The `t` smallest roster members, which the liveness poll selects. */
  function FirstSeats<KP, G>(cfg: Config<KP, G>): (r: seq<Identifier>)
    requires cfg.t <= |cfg.keyPackages.Keys|
    ensures InRoster(cfg, r) && |r| == cfg.t
  {
    Roster(cfg.keyPackages)[..cfg.t]
  }

  lemma AcksKeepTopicsFresh<KP, G>(cfg: Config<KP, G>, net: Net, inputs: nat, universe: set<Envelope>)
    requires BoardReady(net.board, universe) && SeqWithin(Acks(cfg), universe)
    requires TopicsFreshFrom(net.board, cfg.id, 0, inputs)
    ensures var net' := PublishAll(net, Acks(cfg));
      BoardReady(net'.board, universe) && TopicsFreshFrom(net'.board, cfg.id, 0, inputs) && net'.draws == net.draws
  {
    PublishAllBoard(net, Acks(cfg));
    PostAllExact(net.board, Acks(cfg), universe);
    var b := PublishAll(net, Acks(cfg)).board;
    forall i | 0 <= i < inputs ensures FreshTopic(b, Topic(cfg.id, i)) {
      assert FreshTopic(net.board, Topic(cfg.id, i));
      forall e | OnBoard(b, e) && e.session == Topic(cfg.id, i)
        ensures e.class_ != Commitments && e.class_ != SignatureShare
      {
        AcksExact(cfg, e);
      }
    }
  }

  /** A run with the acknowledgement returns a transaction: if the threshold is met, no topic of
      the session carries commitments or shares yet, every input has its sighash and honest
      primitives for the selected seats and the next draws, and no two of the envelopes involved
      share an id. */
  lemma RunComplete<KP, G, N, C, S, Sig>(
      p: Primitives<KP, G, N, C, S, Sig>, cfg: Config<KP, G>, net: Net, universe: set<Envelope>)
    requires cfg.t <= |cfg.keyPackages.Keys| < 0x1_0000
    requires BoardReady(net.board, universe) && SeqWithin(Acks(cfg), universe)
    requires TopicsFreshFrom(net.board, cfg.id, 0, |cfg.psbt.unsigned.inputs|)
    requires HonestFrom(p, cfg, FirstSeats(cfg), net.draws, 0, |cfg.psbt.unsigned.inputs|, universe)
    ensures RunSpec(p, cfg, false, true, net).0.Ok?
  {
    LivenessAbsentCollisions(cfg, net, universe);
    AcksKeepTopicsFresh(cfg, net, |cfg.psbt.unsigned.inputs|, universe);
    var net' := PublishAll(net, Acks(cfg));
    RunInputsComplete(p, cfg, FirstSeats(cfg), cfg.psbt.unsigned, 0, net', net.draws, universe);
    assert LivenessSpec(cfg, net) == (Ok(FirstSeats(cfg)), net');
  }

  // ---- round 1 on a topic that is not fresh ----

  /** The envelope is read as a commitment of `who`. */
  predicate SpeaksFor(idOfSeat: map<u16, Identifier>, e: Envelope, who: Identifier) {
    e.seat in idOfSeat && idOfSeat[e.seat] == who
  }

  ghost predicate Readable<KP, G, N, C, S, Sig>(
      p: Primitives<KP, G, N, C, S, Sig>, idOfSeat: map<u16, Identifier>, sel: seq<Identifier>, es: seq<Envelope>)
  {
    forall i :: 0 <= i < |es| && es[i].seat in idOfSeat && idOfSeat[es[i].seat] in sel ==> p.decodeC(es[i].payload).Ok?
  }

  /** Of several envelopes of one seat the last one read wins. */
  lemma {:induction false} LastEnvelopeWins<KP, G, N, C, S, Sig>(
      p: Primitives<KP, G, N, C, S, Sig>, idOfSeat: map<u16, Identifier>, sel: seq<Identifier>,
      es: seq<Envelope>, acc: map<Identifier, C>, who: Identifier, k: nat)
    requires Readable(p, idOfSeat, sel, es) && who in sel && k < |es| && SpeaksFor(idOfSeat, es[k], who)
    requires forall j :: k < j < |es| ==> !SpeaksFor(idOfSeat, es[j], who)
    ensures CollectCommitments(p, idOfSeat, sel, es, acc).Ok?
    ensures var got := CollectCommitments(p, idOfSeat, sel, es, acc).value;
      who in got && Ok(got[who]) == p.decodeC(es[k].payload)
    decreases |es|
  {
    var rest := es[1..];
    assert forall i :: 0 <= i < |rest| ==> rest[i] == es[i + 1];
    var acc' := if es[0].seat in idOfSeat && idOfSeat[es[0].seat] in sel
      then acc[idOfSeat[es[0].seat] := p.decodeC(es[0].payload).value] else acc;
    if k > 0 {
      LastEnvelopeWins(p, idOfSeat, sel, rest, acc', who, k - 1);
    } else {
      OthersLeaveIt(p, idOfSeat, sel, rest, acc', who);
    }
  }

  lemma {:induction false} OthersLeaveIt<KP, G, N, C, S, Sig>(
      p: Primitives<KP, G, N, C, S, Sig>, idOfSeat: map<u16, Identifier>, sel: seq<Identifier>,
      es: seq<Envelope>, acc: map<Identifier, C>, who: Identifier)
    requires Readable(p, idOfSeat, sel, es) && who in acc
    requires forall j :: 0 <= j < |es| ==> !SpeaksFor(idOfSeat, es[j], who)
    ensures CollectCommitments(p, idOfSeat, sel, es, acc).Ok?
    ensures var got := CollectCommitments(p, idOfSeat, sel, es, acc).value;
      who in got && got[who] == acc[who]
    decreases |es|
  {
    if es != [] {
      var rest := es[1..];
      assert forall i :: 0 <= i < |rest| ==> rest[i] == es[i + 1];
      var acc' := if es[0].seat in idOfSeat && idOfSeat[es[0].seat] in sel
        then acc[idOfSeat[es[0].seat] := p.decodeC(es[0].payload).value] else acc;
      OthersLeaveIt(p, idOfSeat, sel, rest, acc', who);
    }
  }

  lemma {:induction false} LastSpeaker(idOfSeat: map<u16, Identifier>, es: seq<Envelope>, who: Identifier) returns (k: nat)
    requires exists e :: e in es && SpeaksFor(idOfSeat, e, who)
    ensures k < |es| && SpeaksFor(idOfSeat, es[k], who)
    ensures forall j :: k < j < |es| ==> !SpeaksFor(idOfSeat, es[j], who)
  {
    k := |es| - 1;
    if !SpeaksFor(idOfSeat, es[k], who) {
      assert es == es[..k] + [es[k]];
      k := LastSpeaker(idOfSeat, es[..k], who);
    }
  }

  /** Round 1 on a topic that already carries commitments: whatever was published last, the package
      gets a seat's fresh commitments if and only if their envelope has the largest id of all the
      envelopes of that seat. On a fresh topic it is the only one. */
  lemma PairingExactly<KP, G, N, C, S, Sig>(
      p: Primitives<KP, G, N, C, S, Sig>, idOfSeat: map<u16, Identifier>, sel: seq<Identifier>,
      b: Board, topic: Utf8, who: Identifier, fresh_: Envelope)
    requires WellKeyed(b) && who in sel && SpeaksFor(idOfSeat, fresh_, who)
    requires var found := Fetch(b, CommitmentFilter(topic));
      && fresh_ in found && Readable(p, idOfSeat, sel, found)
      && forall e :: e in found && SpeaksFor(idOfSeat, e, who) && e != fresh_ ==> p.decodeC(e.payload) != p.decodeC(fresh_.payload)
    ensures var found := Fetch(b, CommitmentFilter(topic));
      var res := CollectCommitments(p, idOfSeat, sel, found, map[]);
      && res.Ok? && who in res.value
      && (Ok(res.value[who]) == p.decodeC(fresh_.payload) <==>
          forall e :: e in found && SpeaksFor(idOfSeat, e, who) ==> Id(e) <= Id(fresh_))
  {
    var found := Fetch(b, CommitmentFilter(topic));
    FetchExact(b, CommitmentFilter(topic));
    var k := LastSpeaker(idOfSeat, found, who);
    LastEnvelopeWins(p, idOfSeat, sel, found, map[], who, k);
    assert found[k] in found;
    LargestIsLast(idOfSeat, found, who, k, fresh_);
  }

  lemma LargestIsLast(idOfSeat: map<u16, Identifier>, found: seq<Envelope>, who: Identifier, k: nat, x: Envelope)
    requires IdsAscend(found) && k < |found| && SpeaksFor(idOfSeat, found[k], who) && x in found && SpeaksFor(idOfSeat, x, who)
    requires forall j :: k < j < |found| ==> !SpeaksFor(idOfSeat, found[j], who)
    ensures (forall e :: e in found && SpeaksFor(idOfSeat, e, who) ==> Id(e) <= Id(x)) <==> x == found[k]
  {
    assert found[k] in found;
    var i :| 0 <= i < |found| && found[i] == x;
    forall e | e in found && SpeaksFor(idOfSeat, e, who) ensures Id(e) <= Id(found[k]) {
      var j :| 0 <= j < |found| && found[j] == e;
    }
  }
}
