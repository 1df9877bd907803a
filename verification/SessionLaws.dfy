/** What a session guarantees: seats, liveness selection and soundness. */
module SessionLaws {
  import opened Wrappers
  import opened Ordered
  import opened Text
  import opened Envelopes
  import opened Transport
  import opened Frost
  import opened Session

  // ---- the seat numbering ----

  /** `id_of_seat` and `seat_of_id` are inverse to each other. */
  ghost predicate SeatsAreInverse(roster: seq<Identifier>) {
    forall k :: 0 <= k < |roster| ==>
      && roster[k] in SeatOfId(roster)
      && SeatOfId(roster)[roster[k]] in IdOfSeat(roster)
      && IdOfSeat(roster)[SeatOfId(roster)[roster[k]]] == roster[k]
  }

  lemma {:induction false} SeatOfIdAt(roster: seq<Identifier>, k: nat)
    requires StrictlyAscending(roster) && k < |roster|
    ensures roster[k] in SeatOfId(roster) && SeatOfId(roster)[roster[k]] == SeatNumber(k)
    decreases |roster|
  {
    var last := |roster| - 1;
    if k < last { SeatOfIdAt(roster[..last], k); }
  }

  lemma {:induction false} SeatOfIdKeys(roster: seq<Identifier>)
    ensures forall id :: id in SeatOfId(roster) <==> id in roster
  {
    if roster != [] {
      var last := |roster| - 1;
      SeatOfIdKeys(roster[..last]);
      assert forall id :: id in roster <==> id in roster[..last] || id == roster[last];
    }
  }

  /** The last identifier numbered `s` wins. */
  lemma {:induction false} IdOfSeatAt(roster: seq<Identifier>, k: nat)
    requires k < |roster| && forall j :: k < j < |roster| ==> SeatNumber(j) != SeatNumber(k)
    ensures SeatNumber(k) in IdOfSeat(roster) && IdOfSeat(roster)[SeatNumber(k)] == roster[k]
    decreases |roster|
  {
    var last := |roster| - 1;
    if k < last { IdOfSeatAt(roster[..last], k); }
  }

  lemma {:induction false} IdOfSeatKeys(roster: seq<Identifier>)
    ensures forall s :: s in IdOfSeat(roster) ==> exists k :: 0 <= k < |roster| && SeatNumber(k) == s && IdOfSeat(roster)[s] == roster[k]
    ensures forall k :: 0 <= k < |roster| ==> SeatNumber(k) in IdOfSeat(roster)
  {
    if roster != [] {
      var last := |roster| - 1;
      IdOfSeatKeys(roster[..last]);
      forall s | s in IdOfSeat(roster)
        ensures exists k :: 0 <= k < |roster| && SeatNumber(k) == s && IdOfSeat(roster)[s] == roster[k]
      {
        if s == SeatNumber(last) {
          assert IdOfSeat(roster)[s] == roster[last];
        } else {
          var k :| 0 <= k < last && SeatNumber(k) == s && IdOfSeat(roster[..last])[s] == roster[..last][k];
          assert IdOfSeat(roster)[s] == roster[k];
        }
      }
    }
  }

  lemma SeatNumberInjective(j: nat, k: nat)
    requires j < 0x1_0000 && k < 0x1_0000 && SeatNumber(j) == SeatNumber(k)
    ensures j == k
  {
  }

  lemma SeatInverseAt(roster: seq<Identifier>, k: nat)
    requires StrictlyAscending(roster) && k < |roster| <= 0x1_0000
    ensures roster[k] in SeatOfId(roster) && SeatOfId(roster)[roster[k]] == SeatNumber(k)
    ensures SeatNumber(k) in IdOfSeat(roster) && IdOfSeat(roster)[SeatNumber(k)] == roster[k]
  {
    SeatOfIdAt(roster, k);
    forall j | k < j < |roster| ensures SeatNumber(j) != SeatNumber(k) {
      if SeatNumber(j) == SeatNumber(k) { SeatNumberInjective(j, k); }
    }
    IdOfSeatAt(roster, k);
  }

  /** The numbering is a bijection up to 65536 seats and not beyond, because the cast to 16 bits
      wraps. */
  lemma SeatsInverseExactly(roster: seq<Identifier>)
    requires StrictlyAscending(roster)
    ensures SeatsAreInverse(roster) <==> |roster| <= 0x1_0000
  {
    if |roster| <= 0x1_0000 {
      forall k | 0 <= k < |roster|
        ensures roster[k] in SeatOfId(roster) && SeatOfId(roster)[roster[k]] in IdOfSeat(roster)
        ensures IdOfSeat(roster)[SeatOfId(roster)[roster[k]]] == roster[k]
      {
        SeatInverseAt(roster, k);
      }
    } else {
      SeatOfIdAt(roster, 0);
      IdOfFirstSeat(roster);
      assert IdOfSeat(roster)[SeatOfId(roster)[roster[0]]] != roster[0];
    }
  }

  /** It stays clear of the coordinator's seat 0 up to 65535 seats and not beyond. */
  lemma {:induction false} CoordinatorSeatFree(roster: seq<Identifier>)
    requires StrictlyAscending(roster)
    ensures COORDINATOR_SEAT !in IdOfSeat(roster) <==> |roster| < 0x1_0000
  {
    IdOfSeatKeys(roster);
    if |roster| >= 0x1_0000 {
      assert SeatNumber(0xFFFF) == 0;
    }
  }

  /** Past the wrap-around, seat 1 belongs to a later identifier. */
  lemma {:induction false} IdOfFirstSeat(roster: seq<Identifier>)
    requires StrictlyAscending(roster) && |roster| > 0x1_0000
    ensures 1 in IdOfSeat(roster) && IdOfSeat(roster)[1] > roster[0]
    decreases |roster|
  {
    var last := |roster| - 1;
    if SeatNumber(last) != 1 {
      assert |roster| != 0x1_0001 by { assert SeatNumber(0x1_0000) == 1; }
      IdOfFirstSeat(roster[..last]);
    }
  }

  // ---- topics ----

  /** Topics identify session and input, even for session ids that contain `#` themselves. */
  lemma TopicInjective(a: Utf8, i: nat, b: Utf8, j: nat)
    requires Topic(a, i) == Topic(b, j)
    ensures a == b && i == j
  {
    TopicTail(a, i);
    TopicTail(b, j);
    var t := Topic(a, i);
    assert !IsDigit('#') && |a| == |b|;
    assert t[..|a|] == a && t[..|a|] == b;
    assert t[|a| + 1..] == Decimal(i) && t[|a| + 1..] == Decimal(j);
    DecimalInjective(i, j);
  }

  /** The last `#` of a topic is the one before the input. */
  lemma TopicTail(a: Utf8, i: nat)
    ensures |Topic(a, i)| > |a| && Topic(a, i)[|a|] == '#'
    ensures forall k :: |a| < k < |Topic(a, i)| ==> IsDigit(Topic(a, i)[k])
  {
    assert Topic(a, i) == a + "#" + Decimal(i);
    forall k | |a| < k < |Topic(a, i)| ensures IsDigit(Topic(a, i)[k]) {
      assert Topic(a, i)[k] == Decimal(i)[k - |a| - 1];
    }
  }

  /** The envelopes that belong to session `id`: its acks, and commitments and shares under one of
      its topics. */
  ghost predicate Owned(id: Utf8, e: Envelope) {
    || (e.class_ == SessionControl && e.session == id)
    || ((e.class_ == Commitments || e.class_ == SignatureShare) && exists i: nat :: e.session == Topic(id, i))
  }

  /** No envelope belongs to two sessions, even when one session's id is a topic of the other. */
  lemma OwnedByOne(a: Utf8, b: Utf8, e: Envelope)
    requires Owned(a, e) && Owned(b, e)
    ensures a == b
  {
    if e.class_ != SessionControl {
      var i: nat :| e.session == Topic(a, i);
      var j: nat :| e.session == Topic(b, j);
      TopicInjective(a, i, b, j);
    }
  }

  // ---- liveness ----

  lemma AcksExact<KP, G>(cfg: Config<KP, G>, e: Envelope)
    ensures e in Acks(cfg) <==> e.seat in IdOfSeat(Roster(cfg.keyPackages)) && e == Ack(cfg.id, e.seat)
  {
    var seats := SeatList(IdOfSeat(Roster(cfg.keyPackages)));
    if e.seat in IdOfSeat(Roster(cfg.keyPackages)) && e == Ack(cfg.id, e.seat) {
      assert e.seat in seats;
      var i :| 0 <= i < |seats| && seats[i] == e.seat;
      assert Acks(cfg)[i] == e;
    }
    if e in Acks(cfg) {
      var i :| 0 <= i < |Acks(cfg)| && Acks(cfg)[i] == e;
      assert seats[i] in seats;
    }
  }

  lemma {:induction false} PublishAllBoard(net: Net, es: seq<Envelope>)
    ensures PublishAll(net, es).board == PostAll(net.board, es)
    ensures PublishAll(net, es).draws == net.draws
    decreases |es|
  {
    if es != [] { PublishAllBoard(Publish(net, es[0]), es[1..]); }
  }

  lemma {:induction false} SenderIdsExact(idOfSeat: map<u16, Identifier>, es: seq<Envelope>, id: Identifier)
    ensures id in SenderIds(idOfSeat, es) <==> exists e :: e in es && e.seat in idOfSeat && idOfSeat[e.seat] == id
  {
    if es != [] {
      var front, last := es[..|es| - 1], es[|es| - 1];
      SenderIdsExact(idOfSeat, front, id);
      assert forall e :: e in es <==> e in front || e == last;
    }
  }

  /** Whatever is on the board, a successful selection has exactly `t` roster members, ascending. */
  lemma LivenessSound<KP, G>(cfg: Config<KP, G>, net: Net)
    requires LivenessSpec(cfg, net).0.Ok?
    ensures var sel := LivenessSpec(cfg, net).0.value;
      |sel| == cfg.t && StrictlyAscending(sel) && forall id :: id in sel ==> id in cfg.keyPackages
  {
    SelectionIsSound(cfg, Fetch(LivenessSpec(cfg, net).1.board, LivenessFilter(cfg.id)));
  }

  lemma SelectionIsSound<KP, G>(cfg: Config<KP, G>, heard: seq<Envelope>)
    ensures var res := PollAndSelect(SortedIds(SenderIds(IdOfSeat(Roster(cfg.keyPackages)), heard)), cfg.t);
      res.Ok? ==> |res.value| == cfg.t && StrictlyAscending(res.value) && forall id :: id in res.value ==> id in cfg.keyPackages
  {
    var senders := SenderIds(IdOfSeat(Roster(cfg.keyPackages)), heard);
    var res := PollAndSelect(SortedIds(senders), cfg.t);
    if res.Ok? {
      forall id | id in res.value ensures id in cfg.keyPackages {
        assert id in SortedIds(senders);
        SenderIsMember(cfg, heard, id);
      }
    }
  }

  ghost predicate AcksOnBoard<KP, G>(cfg: Config<KP, G>, b: Board) {
    WellKeyed(b) && forall e :: e in Acks(cfg) ==> OnBoard(b, e)
  }

  lemma SeatIsHeard<KP, G>(cfg: Config<KP, G>, b: Board, k: nat)
    requires |cfg.keyPackages.Keys| < 0x1_0000 && AcksOnBoard(cfg, b) && k < |Roster(cfg.keyPackages)|
    ensures Roster(cfg.keyPackages)[k] in
      SenderIds(IdOfSeat(Roster(cfg.keyPackages)), Fetch(b, LivenessFilter(cfg.id)))
  {
    var roster := Roster(cfg.keyPackages);
    SeatInverseAt(roster, k);
    var e := Ack(cfg.id, SeatNumber(k));
    AcksExact(cfg, e);
    FetchExact(b, LivenessFilter(cfg.id));
    assert Matches(LivenessFilter(cfg.id), e);
    SenderIdsExact(IdOfSeat(roster), Fetch(b, LivenessFilter(cfg.id)), roster[k]);
  }

  lemma SenderIsMember<KP, G>(cfg: Config<KP, G>, es: seq<Envelope>, id: Identifier)
    requires id in SenderIds(IdOfSeat(Roster(cfg.keyPackages)), es)
    ensures id in Roster(cfg.keyPackages)
  {
    IdOfSeatKeys(Roster(cfg.keyPackages));
    SenderIdsExact(IdOfSeat(Roster(cfg.keyPackages)), es, id);
  }

  /** With the acks on the board, the roster answers in full. */
  lemma RosterAnswers<KP, G>(cfg: Config<KP, G>, b: Board)
    requires |cfg.keyPackages.Keys| < 0x1_0000 && AcksOnBoard(cfg, b)
    ensures SortedIds(SenderIds(IdOfSeat(Roster(cfg.keyPackages)), Fetch(b, LivenessFilter(cfg.id)))) ==
      Roster(cfg.keyPackages)
  {
    var roster := Roster(cfg.keyPackages);
    var heard := Fetch(b, LivenessFilter(cfg.id));
    var senders := SenderIds(IdOfSeat(roster), heard);
    forall id ensures id in senders <==> id in roster {
      if id in roster {
        var k :| 0 <= k < |roster| && roster[k] == id;
        SeatIsHeard(cfg, b, k);
      }
      if id in senders {
        SenderIsMember(cfg, heard, id);
      }
    }
    AscendingUnique(SortedIds(senders), roster);
  }

  /** With the acks on the board, the `t` smallest identifiers are selected. */
  lemma LivenessWithAcks<KP, G>(cfg: Config<KP, G>, net: Net)
    requires |cfg.keyPackages.Keys| < 0x1_0000
    requires AcksOnBoard(cfg, PublishAll(net, Acks(cfg)).board)
    ensures LivenessSpec(cfg, net).0 ==
      if cfg.t <= |cfg.keyPackages.Keys| then Ok(Roster(cfg.keyPackages)[..cfg.t])
      else Err(InsufficientLiveSeats(cfg.t, |cfg.keyPackages.Keys|))
  {
    RosterAnswers(cfg, PublishAll(net, Acks(cfg)).board);
  }

  /** Absent collisions, what else is on the board does not matter. */
  lemma LivenessAbsentCollisions<KP, G>(cfg: Config<KP, G>, net: Net, universe: set<Envelope>)
    requires |cfg.keyPackages.Keys| < 0x1_0000
    requires WellKeyed(net.board) && CollisionFree(universe) && BoardWithin(net.board, universe)
    requires SeqWithin(Acks(cfg), universe)
    ensures LivenessSpec(cfg, net).0 ==
      if cfg.t <= |cfg.keyPackages.Keys| then Ok(Roster(cfg.keyPackages)[..cfg.t])
      else Err(InsufficientLiveSeats(cfg.t, |cfg.keyPackages.Keys|))
  {
    PublishAllBoard(net, Acks(cfg));
    PostAllExact(net.board, Acks(cfg), universe);
    LivenessWithAcks(cfg, net);
  }

  /** On an empty board no ack is ever lost, without any assumption on the hash: the acks differ
      in their seats only. */
  lemma LivenessOnEmptyBoard<KP, G>(cfg: Config<KP, G>, net: Net)
    requires |cfg.keyPackages.Keys| < 0x1_0000 && net.board == map[]
    ensures LivenessSpec(cfg, net).0 ==
      if cfg.t <= |cfg.keyPackages.Keys| then Ok(Roster(cfg.keyPackages)[..cfg.t])
      else Err(InsufficientLiveSeats(cfg.t, |cfg.keyPackages.Keys|))
  {
    var universe := set e | e in Acks(cfg);
    forall e, f | e in universe && f in universe && Id(e) == Id(f) ensures e == f {
      AcksExact(cfg, e);
      AcksExact(cfg, f);
      SeatsNeverCollide(e, f);
    }
    LivenessAbsentCollisions(cfg, net, universe);
  }

  // ---- the amounts of the summary ----

  /** Totals are sums: one output counts its value, two lists count together. */
  lemma {:induction false} TotalOfAdds(a: seq<TxOut>, b: seq<TxOut>)
    ensures TotalOf(a + b) == TotalOf(a) + TotalOf(b)
    ensures forall o: TxOut :: TotalOf([o]) == o.value
  {
    if a == [] {
      assert a + b == b;
    } else {
      assert (a + b)[1..] == a[1..] + b;
      TotalOfAdds(a[1..], b);
    }
  }

  /** A cleared gate has shown the spend: what goes in, every output, and what is left as the fee. */
  lemma GateShows<KP, G, N, C, S, Sig>(
      p: Primitives<KP, G, N, C, S, Sig>, tx: Tx, prevouts: seq<TxOut>, input: nat, message: seq<byte>, yes: bool)
    ensures var shown := DisplayAndAck(p, tx, prevouts, input, message, yes);
      shown.Ok? ==> shown.value.inputTotal == TotalOf(prevouts) && shown.value.outputs == tx.outputs
    ensures var shown := DisplayAndAck(p, tx, prevouts, input, message, yes);
      shown.Ok? && TotalOf(tx.outputs) <= TotalOf(prevouts) ==> TotalOf(prevouts) == TotalOf(tx.outputs) + shown.value.fee
    ensures var hash := p.sighash(tx, input, prevouts);
      hash.Err? ==> DisplayAndAck(p, tx, prevouts, input, message, yes) == Err(SighashFailed(hash.error))
  {
  }

  // ---- soundness of a run ----

  /** The transactions agree on everything but witnesses. */
  ghost predicate SameUpToWitness(a: Tx, b: Tx) {
    && a.version == b.version && a.lockTime == b.lockTime && a.outputs == b.outputs
    && |a.inputs| == |b.inputs|
    && forall i :: 0 <= i < |a.inputs| ==> a.inputs[i].(witnessStack := []) == b.inputs[i].(witnessStack := [])
  }

  /** The outputs that the inputs spend, one per input and in their order. */
  ghost predicate ArePrevouts(psbt: Psbt, prevouts: seq<TxOut>) {
    |prevouts| == |psbt.utxos| && forall i :: 0 <= i < |prevouts| ==> psbt.utxos[i] == Some(prevouts[i])
  }

  /** The first input from `i` on without a known output is `k`. */
  ghost predicate FirstMissing(utxos: seq<Option<TxOut>>, i: nat, k: nat) {
    i <= k < |utxos| && utxos[k].None? && forall j :: i <= j < k ==> utxos[j].Some?
  }

  lemma {:induction false} PrevoutsFromAt(utxos: seq<Option<TxOut>>, i: nat)
    requires i <= |utxos|
    ensures PrevoutsFrom(utxos, i).Ok? <==> forall j :: i <= j < |utxos| ==> utxos[j].Some?
    ensures var r := PrevoutsFrom(utxos, i);
      r.Ok? ==> |r.value| == |utxos| - i && forall j :: 0 <= j < |r.value| ==> utxos[i + j] == Some(r.value[j])
    ensures PrevoutsFrom(utxos, i).Err? ==>
      exists k :: FirstMissing(utxos, i, k) && PrevoutsFrom(utxos, i) == Err(NoWitnessUtxo(k))
    decreases |utxos| - i
  {
    if i < |utxos| {
      if utxos[i].Some? {
        PrevoutsFromAt(utxos, i + 1);
        if PrevoutsFrom(utxos, i).Err? {
          var k :| FirstMissing(utxos, i + 1, k) && PrevoutsFrom(utxos, i + 1) == Err(NoWitnessUtxo(k));
          assert FirstMissing(utxos, i, k);
        }
      } else {
        assert FirstMissing(utxos, i, i);
      }
    }
  }

  /** The prevouts are the known outputs in the order of the inputs; the first unknown one is reported. */
  lemma PrevoutsExact(psbt: Psbt)
    ensures Prevouts(psbt).Ok? <==> forall i :: 0 <= i < |psbt.utxos| ==> psbt.utxos[i].Some?
    ensures Prevouts(psbt).Ok? ==> ArePrevouts(psbt, Prevouts(psbt).value)
    ensures Prevouts(psbt).Err? ==> exists i :: FirstMissing(psbt.utxos, 0, i) && Prevouts(psbt) == Err(NoWitnessUtxo(i))
  {
    PrevoutsFromAt(psbt.utxos, 0);
  }

  /** `message` is what the sighash of input `i` over all the prevouts in input order is. */
  ghost predicate IsSighash<KP, G, N, C, S, Sig>(
      p: Primitives<KP, G, N, C, S, Sig>, psbt: Psbt, i: nat, message: seq<byte>)
  {
    exists prevouts :: ArePrevouts(psbt, prevouts) && p.sighash(psbt.unsigned, i, prevouts) == Ok(message)
  }

  /** Whose fault it is if there is no sighash. */
  lemma SighashFailsWith<KP, G, N, C, S, Sig>(p: Primitives<KP, G, N, C, S, Sig>, psbt: Psbt, i: nat, prevouts: seq<TxOut>)
    requires ArePrevouts(psbt, prevouts) && p.sighash(psbt.unsigned, i, prevouts).Err?
    ensures Sighash(p, psbt, i) == Err(Chain(p.sighash(psbt.unsigned, i, prevouts).error))
  {
    PrevoutsExact(psbt);
    assert forall j :: 0 <= j < |psbt.utxos| ==> psbt.utxos[j] == Some(prevouts[j]);
    assert prevouts == Prevouts(psbt).value;
  }

  /** How one seat's step of round 1 and of round 2 fails. */
  lemma StepsFailWith<KP, G, N, C, S, Sig>(
      p: Primitives<KP, G, N, C, S, Sig>, cfg: Config<KP, G>, topic: Utf8, input: nat, prevouts: seq<TxOut>,
      r1: Round1<N, C>, id: Identifier, net: Net)
    requires id in r1.nonces
    ensures id !in cfg.keyPackages ==>
      CommitStep(p, cfg, topic, id, net) == (Err(UnknownSeat(id)), net)
      && SignStep(p, cfg, input, prevouts, r1, true, id, net) == (Err(UnknownSeat(id)), net)
    ensures id in cfg.keyPackages && p.encodeC(p.commit(cfg.keyPackages[id], net.draws).1).Err? ==>
      CommitStep(p, cfg, topic, id, net).0 == Err(FrostFailed(p.encodeC(p.commit(cfg.keyPackages[id], net.draws).1).error))
  {
    SeatOfIdKeys(Roster(cfg.keyPackages));
  }

  lemma SigningFailsWith<KP, G, N, C, S, Sig>(
      p: Primitives<KP, G, N, C, S, Sig>, cfg: Config<KP, G>, input: nat, prevouts: seq<TxOut>,
      r1: Round1<N, C>, id: Identifier, net: Net)
    requires id in r1.nonces && id in cfg.keyPackages
    requires p.sighash(cfg.psbt.unsigned, input, prevouts) == Ok(r1.package.message)
    requires p.sign(r1.package, r1.nonces[id].nonces, cfg.keyPackages[id]).Err?
    ensures SignStep(p, cfg, input, prevouts, r1, true, id, net).0 ==
      Err(FrostFailed(p.sign(r1.package, r1.nonces[id].nonces, cfg.keyPackages[id]).error))
  {
    SeatOfIdKeys(Roster(cfg.keyPackages));
  }

  lemma SighashExact<KP, G, N, C, S, Sig>(p: Primitives<KP, G, N, C, S, Sig>, psbt: Psbt, i: nat, message: seq<byte>)
    ensures Sighash(p, psbt, i) == Ok(message) <==> IsSighash(p, psbt, i, message)
  {
    PrevoutsExact(psbt);
    if prevouts :| ArePrevouts(psbt, prevouts) && p.sighash(psbt.unsigned, i, prevouts) == Ok(message) {
      assert forall j :: 0 <= j < |psbt.utxos| ==> psbt.utxos[j] == Some(prevouts[j]);
      assert prevouts == Prevouts(psbt).value;
    }
  }

  predicate Signs<KP, G, N, C, S, Sig>(
      p: Primitives<KP, G, N, C, S, Sig>, group: G, message: seq<byte>, sig: Sig, bytes: seq<byte>)
  {
    p.encodeSig(sig) == Ok(bytes) && p.verify(group, message, sig)
  }

  /** `bytes` encode, in 64 bytes, a signature that verifies under Q on the sighash of input `i`. */
  ghost predicate IsSignatureFor<KP, G, N, C, S, Sig(!new)>(
      p: Primitives<KP, G, N, C, S, Sig>, cfg: Config<KP, G>, i: nat, bytes: seq<byte>)
  {
    && |bytes| == 64
    && exists sig: Sig, message :: IsSighash(p, cfg.psbt, i, message) && Signs(p, cfg.group, message, sig, bytes)
  }

  /** Input `i` carries exactly one such signature. */
  ghost predicate InputSigned<KP, G, N, C, S, Sig(!new)>(
      p: Primitives<KP, G, N, C, S, Sig>, cfg: Config<KP, G>, tx: Tx, i: nat)
    requires i < |tx.inputs|
  {
    |tx.inputs[i].witnessStack| == 1 && IsSignatureFor(p, cfg, i, tx.inputs[i].witnessStack[0])
  }

  lemma SignInputSound<KP, G, N, C, S, Sig(!new)>(
      p: Primitives<KP, G, N, C, S, Sig>, cfg: Config<KP, G>, selected: seq<Identifier>, yes: bool, input: nat, net: Net)
    requires SignInput(p, cfg, selected, yes, input, net).0.Ok?
    ensures IsSignatureFor(p, cfg, input, SignInput(p, cfg, selected, yes, input, net).0.value)
  {
    var (r1, net') := Round1Spec(p, cfg, input, selected, net);
    var sig := Round2Spec(p, cfg, input, r1.value, yes, net').0;
    Round1Message(p, cfg, input, selected, net);
    Round2Verified(p, cfg, input, r1.value, yes, net');
    BytesEncode(p, sig.value);
    SighashExact(p, cfg.psbt, input, r1.value.package.message);
    assert Signs(p, cfg.group, r1.value.package.message, sig.value, SignInput(p, cfg, selected, yes, input, net).0.value);
  }

  lemma Round1Message<KP, G, N, C, S, Sig>(
      p: Primitives<KP, G, N, C, S, Sig>, cfg: Config<KP, G>, input: nat, selected: seq<Identifier>, net: Net)
    requires Round1Spec(p, cfg, input, selected, net).0.Ok?
    ensures Sighash(p, cfg.psbt, input) == Ok(Round1Spec(p, cfg, input, selected, net).0.value.package.message)
  {
  }

  lemma Round2Verified<KP, G, N, C, S, Sig>(
      p: Primitives<KP, G, N, C, S, Sig>, cfg: Config<KP, G>, input: nat, r1: Round1<N, C>, yes: bool, net: Net)
    requires Round2Spec(p, cfg, input, r1, yes, net).0.Ok?
    ensures p.verify(cfg.group, r1.package.message, Round2Spec(p, cfg, input, r1, yes, net).0.value)
  {
  }

  /** Aggregation that fails ends the round with the culprits it names, or with its own error if it names
      none. */
  lemma CulpritsSurface<KP, G, N, C, S, Sig>(
      p: Primitives<KP, G, N, C, S, Sig>, cfg: Config<KP, G>, r1: Round1<N, C>, collected: seq<Envelope>,
      shares: map<Identifier, S>, e: FrostError)
    requires CollectShares(p, IdOfSeat(Roster(cfg.keyPackages)), collected, map[]) == Ok(shares)
    requires p.aggregate(r1.package, shares, cfg.group) == Err(e)
    ensures Finish(p, cfg, r1, collected) ==
      Err(Aggregate(if e.culprits != [] then Culprits(e.culprits) else FrostFailure(e)))
  {
  }

  lemma BytesEncode<KP, G, N, C, S, Sig>(p: Primitives<KP, G, N, C, S, Sig>, sig: Sig)
    ensures SignatureBytes(p, sig).Ok? ==>
      |SignatureBytes(p, sig).value| == 64 && p.encodeSig(sig) == Ok(SignatureBytes(p, sig).value)
    ensures p.encodeSig(sig).Err? ==> SignatureBytes(p, sig) == Err(Aggregate(FrostFailure(p.encodeSig(sig).error)))
    ensures p.encodeSig(sig).Ok? && |p.encodeSig(sig).value| != 64 ==>
      SignatureBytes(p, sig) == Err(Aggregate(Length(|p.encodeSig(sig).value|)))
  {
  }

  lemma CommitLoopStep<KP, G, N, C, S, Sig>(
      p: Primitives<KP, G, N, C, S, Sig>, cfg: Config<KP, G>, topic: Utf8, selected: seq<Identifier>,
      net: Net, acc: map<Identifier, Held<N>>)
    requires selected != []
    ensures var (res, net') := CommitStep(p, cfg, topic, selected[0], net);
      CommitLoop(p, cfg, topic, selected, net, acc) ==
      if res.Ok? then CommitLoop(p, cfg, topic, selected[1..], net', acc[selected[0] := res.value]) else (Err(res.error), net')
  {
  }

  lemma SignLoopStep<KP, G, N, C, S, Sig>(
      p: Primitives<KP, G, N, C, S, Sig>, cfg: Config<KP, G>, input: nat, prevouts: seq<TxOut>,
      r1: Round1<N, C>, yes: bool, i: nat, net: Net)
    requires i < |Roster(r1.nonces)|
    ensures var (res, net') := SignStep(p, cfg, input, prevouts, r1, yes, Roster(r1.nonces)[i], net);
      SignLoop(p, cfg, input, prevouts, r1, yes, i, net) ==
      if res.Ok? then SignLoop(p, cfg, input, prevouts, r1, yes, i + 1, net') else (Err(res.error), net')
  {
  }

  type NetStep = (nat, Net) -> (Result<(), SessionError>, Net)

  /** The signing loop over any step. */
  function Loop(step: NetStep, i: nat, n: nat, net: Net): (Result<(), SessionError>, Net)
    requires i <= n
    decreases n - i
  {
    if i == n then (Ok(()), net) else
      match step(i, net)
      case (Err(e), net') => (Err(e), net')
      case (Ok(_), net') => Loop(step, i + 1, n, net')
  }

  function SignStepAt<KP, G, N, C, S, Sig>(
      p: Primitives<KP, G, N, C, S, Sig>, cfg: Config<KP, G>, input: nat, prevouts: seq<TxOut>, r1: Round1<N, C>, yes: bool)
      : NetStep
  {
    var ids := Roster(r1.nonces);
    (i: nat, net: Net) => if i < |ids| then SignStep(p, cfg, input, prevouts, r1, yes, ids[i], net) else (Ok(()), net)
  }

  ghost predicate StepsLikeAt(f: NetStep, step: NetStep, j: nat, x: Net) {
    f(j, x) == if step(j, x).0.Ok? then f(j + 1, step(j, x).1) else (Err(step(j, x).0.error), step(j, x).1)
  }

  ghost predicate StepsLike(f: NetStep, step: NetStep, n: nat) {
    (forall x: Net :: f(n, x) == (Ok(()), x)) && forall j: nat, x: Net :: j < n ==> StepsLikeAt(f, step, j, x)
  }

  /** The loop is the only function that steps like it. */
  lemma {:induction false} LoopIsOnly(f: NetStep, step: NetStep, i: nat, n: nat, net: Net)
    requires i <= n && StepsLike(f, step, n)
    ensures f(i, net) == Loop(step, i, n, net)
    decreases n - i
  {
    if i < n {
      assert StepsLikeAt(f, step, i, net);
      if step(i, net).0.Ok? {
        LoopIsOnly(f, step, i + 1, n, step(i, net).1);
      }
    }
  }

  function SignLoopAt<KP, G, N, C, S, Sig>(
      p: Primitives<KP, G, N, C, S, Sig>, cfg: Config<KP, G>, input: nat, prevouts: seq<TxOut>, r1: Round1<N, C>, yes: bool)
      : NetStep
  {
    (i: nat, net: Net) => if i <= |Roster(r1.nonces)| then SignLoop(p, cfg, input, prevouts, r1, yes, i, net) else (Ok(()), net)
  }

  lemma SignLoopSteps<KP, G, N, C, S, Sig>(
      p: Primitives<KP, G, N, C, S, Sig>, cfg: Config<KP, G>, input: nat, prevouts: seq<TxOut>, r1: Round1<N, C>, yes: bool,
      j: nat, x: Net)
    requires j < |Roster(r1.nonces)|
    ensures StepsLikeAt(SignLoopAt(p, cfg, input, prevouts, r1, yes), SignStepAt(p, cfg, input, prevouts, r1, yes), j, x)
  {
    StepAtIs(p, cfg, input, prevouts, r1, yes, j, x);
    SignLoopStep(p, cfg, input, prevouts, r1, yes, j, x);
  }

  lemma SignLoopIsLoop<KP, G, N, C, S, Sig>(
      p: Primitives<KP, G, N, C, S, Sig>, cfg: Config<KP, G>, input: nat, prevouts: seq<TxOut>, r1: Round1<N, C>, yes: bool,
      i: nat, net: Net)
    requires i <= |Roster(r1.nonces)|
    ensures SignLoop(p, cfg, input, prevouts, r1, yes, i, net) ==
      Loop(SignStepAt(p, cfg, input, prevouts, r1, yes), i, |Roster(r1.nonces)|, net)
  {
    SignLoopLikeStep(p, cfg, input, prevouts, r1, yes);
    LoopIsOnly(SignLoopAt(p, cfg, input, prevouts, r1, yes), SignStepAt(p, cfg, input, prevouts, r1, yes), i, |Roster(r1.nonces)|, net);
  }

  lemma SignLoopEnds<KP, G, N, C, S, Sig>(
      p: Primitives<KP, G, N, C, S, Sig>, cfg: Config<KP, G>, input: nat, prevouts: seq<TxOut>, r1: Round1<N, C>, yes: bool, x: Net)
    ensures SignLoopAt(p, cfg, input, prevouts, r1, yes)(|Roster(r1.nonces)|, x) == (Ok(()), x)
  {
  }

  lemma SignLoopLikeStep<KP, G, N, C, S, Sig>(
      p: Primitives<KP, G, N, C, S, Sig>, cfg: Config<KP, G>, input: nat, prevouts: seq<TxOut>, r1: Round1<N, C>, yes: bool)
    ensures StepsLike(SignLoopAt(p, cfg, input, prevouts, r1, yes), SignStepAt(p, cfg, input, prevouts, r1, yes), |Roster(r1.nonces)|)
  {
    var f, step, n := SignLoopAt(p, cfg, input, prevouts, r1, yes), SignStepAt(p, cfg, input, prevouts, r1, yes), |Roster(r1.nonces)|;
    forall x: Net ensures f(n, x) == (Ok(()), x) {
      SignLoopEnds(p, cfg, input, prevouts, r1, yes, x);
    }
    forall j: nat, x: Net | j < n ensures StepsLikeAt(f, step, j, x) {
      SignLoopSteps(p, cfg, input, prevouts, r1, yes, j, x);
    }
  }

  lemma StepAtIs<KP, G, N, C, S, Sig>(
      p: Primitives<KP, G, N, C, S, Sig>, cfg: Config<KP, G>, input: nat, prevouts: seq<TxOut>, r1: Round1<N, C>, yes: bool,
      i: nat, net: Net)
    requires i < |Roster(r1.nonces)|
    ensures SignStepAt(p, cfg, input, prevouts, r1, yes)(i, net) ==
      SignStep(p, cfg, input, prevouts, r1, yes, Roster(r1.nonces)[i], net)
  {
  }

  lemma RunInputsStep<KP, G, N, C, S, Sig>(
      p: Primitives<KP, G, N, C, S, Sig>, cfg: Config<KP, G>, selected: seq<Identifier>, yes: bool,
      tx: Tx, input: nat, net: Net)
    requires input < |tx.inputs|
    ensures var (bytes, net') := SignInput(p, cfg, selected, yes, input, net);
      RunInputs(p, cfg, selected, yes, tx, input, net) ==
      if bytes.Ok? then RunInputs(p, cfg, selected, yes, SetWitness(tx, input, bytes.value), input + 1, net')
      else (Err(bytes.error), net')
  {
  }

  lemma SettingWitnessSigns<KP, G, N, C, S, Sig(!new)>(
      p: Primitives<KP, G, N, C, S, Sig>, cfg: Config<KP, G>, tx: Tx, input: nat, bytes: seq<byte>)
    requires input < |tx.inputs| && SameUpToWitness(tx, cfg.psbt.unsigned)
    requires forall i :: 0 <= i < input ==> InputSigned(p, cfg, tx, i)
    requires IsSignatureFor(p, cfg, input, bytes)
    ensures SameUpToWitness(SetWitness(tx, input, bytes), cfg.psbt.unsigned)
    ensures forall i :: 0 <= i <= input ==> InputSigned(p, cfg, SetWitness(tx, input, bytes), i)
  {
    var tx' := SetWitness(tx, input, bytes);
    forall i | 0 <= i <= input ensures InputSigned(p, cfg, tx', i) {
      if i == input {
        assert tx'.inputs[i].witnessStack == [bytes];
      } else {
        assert tx'.inputs[i] == tx.inputs[i] && InputSigned(p, cfg, tx, i);
      }
    }
  }

  lemma {:induction false} RunInputsSound<KP, G, N, C, S, Sig(!new)>(
      p: Primitives<KP, G, N, C, S, Sig>, cfg: Config<KP, G>, selected: seq<Identifier>, yes: bool,
      tx: Tx, input: nat, net: Net)
    requires input <= |tx.inputs| && SameUpToWitness(tx, cfg.psbt.unsigned)
    requires forall i :: 0 <= i < input ==> InputSigned(p, cfg, tx, i)
    requires RunInputs(p, cfg, selected, yes, tx, input, net).0.Ok?
    ensures var out := RunInputs(p, cfg, selected, yes, tx, input, net).0.value;
      SameUpToWitness(out, cfg.psbt.unsigned) && forall i :: 0 <= i < |out.inputs| ==> InputSigned(p, cfg, out, i)
    decreases |tx.inputs| - input
  {
    if input < |tx.inputs| {
      RunInputsStep(p, cfg, selected, yes, tx, input, net);
      SignInputSound(p, cfg, selected, yes, input, net);
      var (bytes, net') := SignInput(p, cfg, selected, yes, input, net);
      SettingWitnessSigns(p, cfg, tx, input, bytes.value);
      RunInputsSound(p, cfg, selected, yes, SetWitness(tx, input, bytes.value), input + 1, net');
    }
  }

  /** Whatever is on the board and whatever the primitives do, a transaction returned by a run is
      the unsigned one with, on every input, one signature verifying under Q on that input's
      sighash of the unsigned transaction. */
  lemma RunSound<KP, G, N, C, S, Sig(!new)>(
      p: Primitives<KP, G, N, C, S, Sig>, cfg: Config<KP, G>, spent: bool, yes: bool, net: Net)
    requires RunSpec(p, cfg, spent, yes, net).0.Ok?
    ensures !spent
    ensures var tx := RunSpec(p, cfg, spent, yes, net).0.value;
      SameUpToWitness(tx, cfg.psbt.unsigned) && forall i :: 0 <= i < |tx.inputs| ==> InputSigned(p, cfg, tx, i)
  {
    var (selected, net') := LivenessSpec(cfg, net);
    RunInputsSound(p, cfg, selected.value, yes, cfg.psbt.unsigned, 0, net');
  }
}
