/** The two-round signing session over the board.

    Every operation has a specification function on `Net` values: the board, the number of draws
    taken from the random generator, and the history of what was sent, checked and signed. The
    class at the end of the module runs the operations in place and refines these functions. */
module Session {
  import opened Wrappers
  import opened Ordered
  import opened Text
  import opened Envelopes
  import opened Transport
  import opened Frost

  const COORDINATOR_SEAT: u16 := 0

  const LIVE: seq<byte> := [108, 105, 118, 101]

  datatype DisplayError = BlindSignMismatch(input: nat) | AckRequired | SighashFailed(reason: string)

  datatype AggregateError =
    | Culprits(seats: seq<Identifier>)
    | FrostFailure(error: FrostError)
    | VerifyAgainstQ
    | Length(bytes: nat)

  datatype SessionError =
    | InsufficientLiveSeats(needed: nat, got: nat)
    | Display(display: DisplayError)
    | Aggregate(aggregate: AggregateError)
    | Chain(reason: string)
    | FrostFailed(error: FrostError)
    | NoWitnessUtxo(input: nat)
    | UnknownSeat(id: Identifier)
    | Spent

  /** One step of a session's history. */
  datatype Event =
    | Sent(envelope: Envelope)
    | Gate(id: Identifier, input: nat, message: seq<byte>)
    | SignedWith(draw: nat, message: seq<byte>)

  datatype Net = Net(board: Board, draws: nat, events: seq<Event>)

  /** A nonce held in memory, with the draw that produced it. */
  datatype Held<N> = Held(nonces: N, draw: nat)

  datatype Round1<N, C> = Round1(package: Package<C>, nonces: map<Identifier, Held<N>>)

  /** What never changes during a session. */
  datatype Config<KP, G> = Config(id: Utf8, keyPackages: map<Identifier, KP>, group: G, psbt: Psbt, t: nat)

  // ---- seats ----

  /** `Seat((i + 1) as u16)`: the cast wraps. */
  function SeatNumber(i: nat): u16 {
    (i + 1) % 0x1_0000
  }

  function IdOfSeat(roster: seq<Identifier>): map<u16, Identifier> {
    if roster == [] then map[] else
      var last := |roster| - 1;
      IdOfSeat(roster[..last])[SeatNumber(last) := roster[last]]
  }

  function SeatOfId(roster: seq<Identifier>): map<Identifier, u16> {
    if roster == [] then map[] else
      var last := |roster| - 1;
      SeatOfId(roster[..last])[roster[last] := SeatNumber(last)]
  }

  // ---- prevouts, sighash, display ----

  function PrevoutsFrom(utxos: seq<Option<TxOut>>, i: nat): Result<seq<TxOut>, SessionError>
    requires i <= |utxos|
    decreases |utxos| - i
  {
    if i == |utxos| then Ok([])
    else if utxos[i].None? then Err(NoWitnessUtxo(i))
    else match PrevoutsFrom(utxos, i + 1)
      case Err(e) => Err(e)
      case Ok(rest) => Ok([utxos[i].value] + rest)
  }

  function Prevouts(psbt: Psbt): Result<seq<TxOut>, SessionError> {
    PrevoutsFrom(psbt.utxos, 0)
  }

  function Sighash<KP, G, N, C, S, Sig>(
      p: Primitives<KP, G, N, C, S, Sig>, psbt: Psbt, input: nat): Result<seq<byte>, SessionError>
  {
    match Prevouts(psbt)
    case Err(e) => Err(e)
    case Ok(prevouts) =>
      match p.sighash(psbt.unsigned, input, prevouts)
      case Err(reason) => Err(Chain(reason))
      case Ok(hash) => Ok(hash)
  }

  datatype SpendSummary = SpendSummary(inputTotal: nat, outputs: seq<TxOut>, fee: nat)

  function TotalOf(outs: seq<TxOut>): nat {
    if outs == [] then 0 else outs[0].value + TotalOf(outs[1..])
  }

  /** The summary shown before signing; the fee saturates at zero. */
  function Summarize(tx: Tx, prevouts: seq<TxOut>): (s: SpendSummary)
    ensures s.inputTotal == TotalOf(prevouts) && s.outputs == tx.outputs
    ensures TotalOf(tx.outputs) <= TotalOf(prevouts) <==> s.inputTotal == TotalOf(s.outputs) + s.fee
    ensures TotalOf(tx.outputs) >= TotalOf(prevouts) <==> s.fee == 0
  {
    var inputTotal, outputTotal := TotalOf(prevouts), TotalOf(tx.outputs);
    SpendSummary(inputTotal, tx.outputs, if inputTotal >= outputTotal then inputTotal - outputTotal else 0)
  }

  /** The gate: recompute first, then require the acknowledgement. */
  function DisplayAndAck<KP, G, N, C, S, Sig>(
      p: Primitives<KP, G, N, C, S, Sig>, tx: Tx, prevouts: seq<TxOut>, input: nat, message: seq<byte>, yes: bool)
      : (r: Result<SpendSummary, DisplayError>)
    ensures r.Ok? <==> p.sighash(tx, input, prevouts) == Ok(message) && yes
    ensures r == Err(AckRequired) <==> p.sighash(tx, input, prevouts) == Ok(message) && !yes
    ensures r == Err(BlindSignMismatch(input)) <==>
      p.sighash(tx, input, prevouts).Ok? && p.sighash(tx, input, prevouts) != Ok(message)
  {
    match p.sighash(tx, input, prevouts)
    case Err(reason) => Err(SighashFailed(reason))
    case Ok(hash) =>
      if hash != message then Err(BlindSignMismatch(input))
      else if !yes then Err(AckRequired)
      else Ok(Summarize(tx, prevouts))
  }

  // ---- liveness ----

  /** `t` plus a margin of a tenth, at least one seat, capped at the roster: the least such size, or all
      seats if there is none. */
  function OverProvisionedPollSize(t: nat, n: nat): (size: nat)
    ensures n <= t ==> size == n
    ensures t < n ==> t < size <= n && (size == t + 1 || 10 * (size - 1 - t) < t)
    ensures t < size < n ==> 10 * (size - t) >= t
  {
    var margin := if (t + 9) / 10 < 1 then 1 else (t + 9) / 10;
    if t + margin < n then t + margin else n
  }

  function PollAndSelect(responders: seq<Identifier>, t: nat): Result<seq<Identifier>, SessionError> {
    if |responders| < t then Err(InsufficientLiveSeats(t, |responders|)) else Ok(responders[..t])
  }

  function Publish(net: Net, e: Envelope): Net {
    Net(Post(net.board, e), net.draws, net.events + [Sent(e)])
  }

  function PublishAll(net: Net, es: seq<Envelope>): Net
    decreases |es|
  {
    if es == [] then net else PublishAll(Publish(net, es[0]), es[1..])
  }

  function Ack(id: Utf8, seat: u16): Envelope {
    Broadcast(SessionControl, id, 0, seat, LIVE)
  }

  /** The seats in ascending order. */
  function SeatList(idOfSeat: map<u16, Identifier>): (r: seq<u16>)
    ensures forall s :: s in r <==> s in idOfSeat
  {
    var seats := Ascending(idOfSeat.Keys);
    assert forall i :: 0 <= i < |seats| ==> seats[i] in seats;
    seats
  }

  function Acks<KP, G>(cfg: Config<KP, G>): (r: seq<Envelope>)
    ensures |r| == |SeatList(IdOfSeat(Roster(cfg.keyPackages)))|
  {
    var seats := SeatList(IdOfSeat(Roster(cfg.keyPackages)));
    seq(|seats|, i requires 0 <= i < |seats| => Ack(cfg.id, seats[i]))
  }

  function LivenessFilter(id: Utf8): Filter {
    ALL.(class_ := Some(SessionControl), session := Some(id))
  }

  /** The roster identifiers behind the envelopes' seats, unknown seats dropped. */
  function SenderIds(idOfSeat: map<u16, Identifier>, es: seq<Envelope>): seq<Identifier> {
    if es == [] then [] else
      var last := es[|es| - 1];
      SenderIds(idOfSeat, es[..|es| - 1]) + if last.seat in idOfSeat then [idOfSeat[last.seat]] else []
  }

  function SortedIds(xs: seq<Identifier>): (r: seq<Identifier>)
    ensures StrictlyAscending(r)
    ensures forall id :: id in r <==> id in xs
  {
    var r := SortDedup(xs);
    assert forall i :: 0 <= i < |r| ==> r[i] in r;
    r
  }

  function LivenessSpec<KP, G>(cfg: Config<KP, G>, net: Net): (Result<seq<Identifier>, SessionError>, Net) {
    var net' := PublishAll(net, Acks(cfg));
    var heard := Fetch(net'.board, LivenessFilter(cfg.id));
    (PollAndSelect(SortedIds(SenderIds(IdOfSeat(Roster(cfg.keyPackages)), heard)), cfg.t), net')
  }

  // ---- round 1 ----

  function Topic(id: Utf8, input: nat): Utf8 {
    var digits := Decimal(input);
    assert forall i :: 0 <= i < |digits| ==> IsDigit(digits[i]);
    id + "#" + digits
  }

  function CommitmentFilter(topic: Utf8): Filter {
    ALL.(class_ := Some(Commitments), session := Some(topic), round := Some(1))
  }

  /** One seat draws a nonce and publishes its commitments. */
  function CommitStep<KP, G, N, C, S, Sig>(
      p: Primitives<KP, G, N, C, S, Sig>, cfg: Config<KP, G>, topic: Utf8, id: Identifier, net: Net)
      : (Result<Held<N>, SessionError>, Net)
  {
    var seatOfId := SeatOfId(Roster(cfg.keyPackages));
    if id !in cfg.keyPackages || id !in seatOfId then (Err(UnknownSeat(id)), net) else
      var (nonce, commitments) := p.commit(cfg.keyPackages[id], net.draws);
      var drawn := net.(draws := net.draws + 1);
      match p.encodeC(commitments)
      case Err(e) => (Err(FrostFailed(e)), drawn)
      case Ok(payload) =>
        (Ok(Held(nonce, net.draws)), Publish(drawn, Broadcast(Commitments, topic, 1, seatOfId[id], payload)))
  }

  function CommitLoop<KP, G, N, C, S, Sig>(
      p: Primitives<KP, G, N, C, S, Sig>, cfg: Config<KP, G>, topic: Utf8, selected: seq<Identifier>,
      net: Net, nonces: map<Identifier, Held<N>>)
      : (Result<map<Identifier, Held<N>>, SessionError>, Net)
    decreases |selected|
  {
    if selected == [] then (Ok(nonces), net) else
      match CommitStep(p, cfg, topic, selected[0], net)
      case (Err(e), net') => (Err(e), net')
      case (Ok(held), net') => CommitLoop(p, cfg, topic, selected[1..], net', nonces[selected[0] := held])
  }

  function CollectCommitments<KP, G, N, C, S, Sig>(
      p: Primitives<KP, G, N, C, S, Sig>, idOfSeat: map<u16, Identifier>, selected: seq<Identifier>,
      es: seq<Envelope>, acc: map<Identifier, C>)
      : Result<map<Identifier, C>, SessionError>
    decreases |es|
  {
    if es == [] then Ok(acc)
    else if es[0].seat in idOfSeat && idOfSeat[es[0].seat] in selected then
      match p.decodeC(es[0].payload)
      case Err(e) => Err(FrostFailed(e))
      case Ok(c) => CollectCommitments(p, idOfSeat, selected, es[1..], acc[idOfSeat[es[0].seat] := c])
    else CollectCommitments(p, idOfSeat, selected, es[1..], acc)
  }

  function Round1Spec<KP, G, N, C, S, Sig>(
      p: Primitives<KP, G, N, C, S, Sig>, cfg: Config<KP, G>, input: nat, selected: seq<Identifier>, net: Net)
      : (Result<Round1<N, C>, SessionError>, Net)
  {
    match Sighash(p, cfg.psbt, input)
    case Err(e) => (Err(e), net)
    case Ok(hash) =>
      var topic := Topic(cfg.id, input);
      match CommitLoop(p, cfg, topic, selected, net, map[])
      case (Err(e), net') => (Err(e), net')
      case (Ok(nonces), net') =>
        match CollectCommitments(p, IdOfSeat(Roster(cfg.keyPackages)), selected,
                                 Fetch(net'.board, CommitmentFilter(topic)), map[])
        case Err(e) => (Err(e), net')
        case Ok(commitments) => (Ok(Round1(Package(commitments, hash), nonces)), net')
  }

  // ---- round 2 ----

  function ShareFilter(topic: Utf8): Filter {
    ALL.(class_ := Some(SignatureShare), session := Some(topic), round := Some(2), recipient := Some(COORDINATOR_SEAT))
  }

  function ShareEnvelope(topic: Utf8, seat: u16, payload: seq<byte>): Envelope {
    Directed(SignatureShare, topic, 2, seat, COORDINATOR_SEAT, payload)
  }

  /** One holder of a nonce passes the gate, signs and publishes its share. */
  function SignStep<KP, G, N, C, S, Sig>(
      p: Primitives<KP, G, N, C, S, Sig>, cfg: Config<KP, G>, input: nat, prevouts: seq<TxOut>,
      r1: Round1<N, C>, yes: bool, id: Identifier, net: Net)
      : (Result<(), SessionError>, Net)
    requires id in r1.nonces
  {
    var seatOfId := SeatOfId(Roster(cfg.keyPackages));
    if id !in cfg.keyPackages || id !in seatOfId then (Err(UnknownSeat(id)), net) else
      match DisplayAndAck(p, cfg.psbt.unsigned, prevouts, input, r1.package.message, yes)
      case Err(e) => (Err(Display(e)), net)
      case Ok(_) =>
        var held := r1.nonces[id];
        var gated := net.(events := net.events + [Gate(id, input, r1.package.message), SignedWith(held.draw, r1.package.message)]);
        match p.sign(r1.package, held.nonces, cfg.keyPackages[id])
        case Err(e) => (Err(FrostFailed(e)), gated)
        case Ok(share) =>
          (Ok(()), Publish(gated, ShareEnvelope(Topic(cfg.id, input), seatOfId[id], p.encodeS(share))))
  }

  /** The holders of nonces from position `i` on, in ascending order. */
  function SignLoop<KP, G, N, C, S, Sig>(
      p: Primitives<KP, G, N, C, S, Sig>, cfg: Config<KP, G>, input: nat, prevouts: seq<TxOut>,
      r1: Round1<N, C>, yes: bool, i: nat, net: Net)
      : (Result<(), SessionError>, Net)
    requires i <= |Roster(r1.nonces)|
    decreases |Roster(r1.nonces)| - i
  {
    if i == |Roster(r1.nonces)| then (Ok(()), net) else
      match SignStep(p, cfg, input, prevouts, r1, yes, Roster(r1.nonces)[i], net)
      case (Err(e), net') => (Err(e), net')
      case (Ok(_), net') => SignLoop(p, cfg, input, prevouts, r1, yes, i + 1, net')
  }

  function CollectShares<KP, G, N, C, S, Sig>(
      p: Primitives<KP, G, N, C, S, Sig>, idOfSeat: map<u16, Identifier>, es: seq<Envelope>, acc: map<Identifier, S>)
      : Result<map<Identifier, S>, SessionError>
    decreases |es|
  {
    if es == [] then Ok(acc)
    else if es[0].seat in idOfSeat then
      match p.decodeS(es[0].payload)
      case Err(e) => Err(FrostFailed(e))
      case Ok(s) => CollectShares(p, idOfSeat, es[1..], acc[idOfSeat[es[0].seat] := s])
    else CollectShares(p, idOfSeat, es[1..], acc)
  }

  function AggregateShares<KP, G, N, C, S, Sig>(
      p: Primitives<KP, G, N, C, S, Sig>, package: Package<C>, shares: map<Identifier, S>, group: G)
      : Result<Sig, AggregateError>
  {
    match p.aggregate(package, shares, group)
    case Ok(sig) => Ok(sig)
    case Err(e) => if e.culprits == [] then Err(FrostFailure(e)) else Err(Culprits(e.culprits))
  }

  /** Collect the shares, aggregate them and verify the signature against Q. */
  function Finish<KP, G, N, C, S, Sig>(
      p: Primitives<KP, G, N, C, S, Sig>, cfg: Config<KP, G>, r1: Round1<N, C>, collected: seq<Envelope>)
      : Result<Sig, SessionError>
  {
    match CollectShares(p, IdOfSeat(Roster(cfg.keyPackages)), collected, map[])
    case Err(e) => Err(e)
    case Ok(shares) =>
      match AggregateShares(p, r1.package, shares, cfg.group)
      case Err(e) => Err(Aggregate(e))
      case Ok(sig) =>
        if p.verify(cfg.group, r1.package.message, sig) then Ok(sig) else Err(Aggregate(VerifyAgainstQ))
  }

  function Round2Spec<KP, G, N, C, S, Sig>(
      p: Primitives<KP, G, N, C, S, Sig>, cfg: Config<KP, G>, input: nat, r1: Round1<N, C>, yes: bool, net: Net)
      : (Result<Sig, SessionError>, Net)
  {
    match Prevouts(cfg.psbt)
    case Err(e) => (Err(e), net)
    case Ok(prevouts) =>
      match SignLoop(p, cfg, input, prevouts, r1, yes, 0, net)
      case (Err(e), net') => (Err(e), net')
      case (Ok(_), net') => (Finish(p, cfg, r1, Fetch(net'.board, ShareFilter(Topic(cfg.id, input)))), net')
  }

  // ---- the whole run ----

  function SignatureBytes<KP, G, N, C, S, Sig>(p: Primitives<KP, G, N, C, S, Sig>, sig: Sig)
      : Result<seq<byte>, SessionError>
  {
    match p.encodeSig(sig)
    case Err(e) => Err(Aggregate(FrostFailure(e)))
    case Ok(bytes) => if |bytes| == 64 then Ok(bytes) else Err(Aggregate(Length(|bytes|)))
  }

  function SetWitness(tx: Tx, input: nat, bytes: seq<byte>): Tx
    requires input < |tx.inputs|
  {
    tx.(inputs := tx.inputs[input := tx.inputs[input].(witnessStack := [bytes])])
  }

  /** Both rounds for one input. */
  function SignInput<KP, G, N, C, S, Sig>(
      p: Primitives<KP, G, N, C, S, Sig>, cfg: Config<KP, G>, selected: seq<Identifier>, yes: bool, input: nat, net: Net)
      : (Result<seq<byte>, SessionError>, Net)
  {
    match Round1Spec(p, cfg, input, selected, net)
    case (Err(e), net') => (Err(e), net')
    case (Ok(r1), net') =>
      match Round2Spec(p, cfg, input, r1, yes, net')
      case (Err(e), net'') => (Err(e), net'')
      case (Ok(sig), net'') => (SignatureBytes(p, sig), net'')
  }

  function RunInputs<KP, G, N, C, S, Sig>(
      p: Primitives<KP, G, N, C, S, Sig>, cfg: Config<KP, G>, selected: seq<Identifier>, yes: bool,
      tx: Tx, input: nat, net: Net)
      : (Result<Tx, SessionError>, Net)
    requires input <= |tx.inputs|
    decreases |tx.inputs| - input
  {
    if input == |tx.inputs| then (Ok(tx), net) else
      match SignInput(p, cfg, selected, yes, input, net)
      case (Err(e), net') => (Err(e), net')
      case (Ok(bytes), net') => RunInputs(p, cfg, selected, yes, SetWitness(tx, input, bytes), input + 1, net')
  }

  function RunSpec<KP, G, N, C, S, Sig>(
      p: Primitives<KP, G, N, C, S, Sig>, cfg: Config<KP, G>, spent: bool, yes: bool, net: Net)
      : (Result<Tx, SessionError>, Net)
  {
    if spent then (Err(Spent), net) else
      match LivenessSpec(cfg, net)
      case (Err(e), net') => (Err(e), net')
      case (Ok(selected), net') => RunInputs(p, cfg, selected, yes, cfg.psbt.unsigned, 0, net')
  }

  // ---- the session object ----

  /** The operating system's generator: draws are numbered and never repeat. */
  class OsRng {
    var drawn: nat

    constructor ()
      ensures drawn == 0
    {
      drawn := 0;
    }
  }

  /** Number the roster: seat `i + 1` for the `i`-th identifier, both ways. */
  method AssignSeats(roster: seq<Identifier>) returns (back: map<u16, Identifier>, forward: map<Identifier, u16>)
    ensures back == IdOfSeat(roster) && forward == SeatOfId(roster)
  {
    back, forward := map[], map[];
    for i := 0 to |roster|
      invariant back == IdOfSeat(roster[..i]) && forward == SeatOfId(roster[..i])
    {
      assert roster[..i + 1][..i] == roster[..i];
      back := back[SeatNumber(i) := roster[i]];
      forward := forward[roster[i] := SeatNumber(i)];
    }
    assert roster[..|roster|] == roster;
  }

  method ReadSenders(idOfSeat: map<u16, Identifier>, heard: seq<Envelope>) returns (ids: seq<Identifier>)
    ensures ids == SenderIds(idOfSeat, heard)
  {
    ids := [];
    for i := 0 to |heard|
      invariant ids == SenderIds(idOfSeat, heard[..i])
    {
      assert heard[..i + 1][..i] == heard[..i];
      if heard[i].seat in idOfSeat {
        ids := ids + [idOfSeat[heard[i].seat]];
      }
    }
    assert heard[..|heard|] == heard;
  }

  method ReadCommitments<KP, G, N, C, S, Sig>(
      p: Primitives<KP, G, N, C, S, Sig>, idOfSeat: map<u16, Identifier>, selected: seq<Identifier>, es: seq<Envelope>)
      returns (res: Result<map<Identifier, C>, SessionError>)
    ensures res == CollectCommitments(p, idOfSeat, selected, es, map[])
  {
    var found: map<Identifier, C> := map[];
    assert es[0..] == es;
    for i := 0 to |es|
      invariant CollectCommitments(p, idOfSeat, selected, es, map[]) ==
                CollectCommitments(p, idOfSeat, selected, es[i..], found)
    {
      assert es[i..][0] == es[i] && es[i..][1..] == es[i + 1..];
      if es[i].seat in idOfSeat && idOfSeat[es[i].seat] in selected {
        var c := p.decodeC(es[i].payload);
        if c.Err? {
          return Err(FrostFailed(c.error));
        }
        found := found[idOfSeat[es[i].seat] := c.value];
      }
    }
    res := Ok(found);
  }

  method ReadShares<KP, G, N, C, S, Sig>(
      p: Primitives<KP, G, N, C, S, Sig>, idOfSeat: map<u16, Identifier>, es: seq<Envelope>)
      returns (res: Result<map<Identifier, S>, SessionError>)
    ensures res == CollectShares(p, idOfSeat, es, map[])
  {
    var found: map<Identifier, S> := map[];
    assert es[0..] == es;
    for i := 0 to |es|
      invariant CollectShares(p, idOfSeat, es, map[]) == CollectShares(p, idOfSeat, es[i..], found)
    {
      assert es[i..][0] == es[i] && es[i..][1..] == es[i + 1..];
      if es[i].seat in idOfSeat {
        var s := p.decodeS(es[i].payload);
        if s.Err? {
          return Err(FrostFailed(s.error));
        }
        found := found[idOfSeat[es[i].seat] := s.value];
      }
    }
    res := Ok(found);
  }

  class SigningSession<KP, G, N, C, S, Sig> {
    const p: Primitives<KP, G, N, C, S, Sig>
    const id: Utf8
    const transport: InMemoryTransport
    const rng: OsRng
    const keyPackages: map<Identifier, KP>
    const group: G
    const psbt: Psbt
    const t: nat
    var idOfSeat: map<u16, Identifier>
    var seatOfId: map<Identifier, u16>
    var spent: bool
    ghost var events: seq<Event>

    ghost predicate Valid()
      reads this
    {
      idOfSeat == IdOfSeat(Roster(keyPackages)) && seatOfId == SeatOfId(Roster(keyPackages))
    }

    ghost function Cfg(): Config<KP, G> {
      Config(id, keyPackages, group, psbt, t)
    }

    ghost function Now(): Net
      reads this, transport, rng
    {
      Net(transport.store, rng.drawn, events)
    }

    constructor (
        p: Primitives<KP, G, N, C, S, Sig>, id: Utf8, transport: InMemoryTransport, rng: OsRng,
        keyPackages: map<Identifier, KP>, group: G, psbt: Psbt, t: nat)
      ensures Valid() && !spent && events == []
      ensures this.p == p && this.transport == transport && this.rng == rng
      ensures Cfg() == Config(id, keyPackages, group, psbt, t)
    {
      this.p, this.id, this.transport, this.rng := p, id, transport, rng;
      this.keyPackages, this.group, this.psbt, this.t := keyPackages, group, psbt, t;
      spent, events := false, [];
      var back, forward := AssignSeats(Roster(keyPackages));
      idOfSeat, seatOfId := back, forward;
    }

    method Send(e: Envelope)
      requires Valid()
      modifies this`events, transport
      ensures Valid() && Now() == Publish(old(Now()), e)
    {
      var _ := transport.Publish(e);
      events := events + [Sent(e)];
    }

    /** Every roster seat acknowledges. */
    method PublishAcks()
      requires Valid()
      modifies this`events, transport
      ensures Valid() && Now() == PublishAll(old(Now()), Acks(Cfg()))
    {
      var seats := SeatList(idOfSeat);
      ghost var start, acks := Now(), Acks(Cfg());
      assert acks[0..] == acks;
      for i := 0 to |seats|
        invariant Valid() && |seats| == |acks|
        invariant PublishAll(start, acks) == PublishAll(Now(), acks[i..])
      {
        assert acks[i..][0] == Ack(id, seats[i]) && acks[i..][1..] == acks[i + 1..];
        Send(Broadcast(SessionControl, id, 0, seats[i], LIVE));
      }
    }

    method LivenessSelect() returns (res: Result<seq<Identifier>, SessionError>)
      requires Valid()
      modifies this`events, transport
      ensures Valid() && (res, Now()) == LivenessSpec(Cfg(), old(Now()))
    {
      PublishAcks();
      var heard := transport.Subscribe(LivenessFilter(id));
      var responders := ReadSenders(idOfSeat, heard);
      res := PollAndSelect(SortedIds(responders), t);
    }

    method CommitOne(topic: Utf8, who: Identifier) returns (res: Result<Held<N>, SessionError>)
      requires Valid()
      modifies this`events, transport, rng
      ensures Valid() && (res, Now()) == CommitStep(p, Cfg(), topic, who, old(Now()))
    {
      if who !in keyPackages || who !in seatOfId {
        return Err(UnknownSeat(who));
      }
      var (nonce, commitments) := p.commit(keyPackages[who], rng.drawn);
      var draw := rng.drawn;
      rng.drawn := rng.drawn + 1;
      assert Now() == old(Now()).(draws := draw + 1);
      var payload := p.encodeC(commitments);
      if payload.Err? {
        return Err(FrostFailed(payload.error));
      }
      Send(Broadcast(Commitments, topic, 1, seatOfId[who], payload.value));
      res := Ok(Held(nonce, draw));
    }

    /** The selected seats draw and publish their commitments, in order. */
    method CommitSelected(topic: Utf8, selected: seq<Identifier>)
        returns (res: Result<map<Identifier, Held<N>>, SessionError>)
      requires Valid()
      modifies this`events, transport, rng
      ensures Valid() && (res, Now()) == CommitLoop(p, Cfg(), topic, selected, old(Now()), map[])
    {
      var nonces: map<Identifier, Held<N>> := map[];
      ghost var start := Now();
      assert selected[0..] == selected;
      for i := 0 to |selected|
        invariant Valid()
        invariant CommitLoop(p, Cfg(), topic, selected, start, map[]) ==
                  CommitLoop(p, Cfg(), topic, selected[i..], Now(), nonces)
      {
        assert selected[i..][0] == selected[i] && selected[i..][1..] == selected[i + 1..];
        var held := CommitOne(topic, selected[i]);
        if held.Err? {
          return Err(held.error);
        }
        nonces := nonces[selected[i] := held.value];
      }
      res := Ok(nonces);
    }

    method RunRound1(input: nat, selected: seq<Identifier>) returns (res: Result<Round1<N, C>, SessionError>)
      requires Valid()
      modifies this`events, transport, rng
      ensures Valid() && (res, Now()) == Round1Spec(p, Cfg(), input, selected, old(Now()))
    {
      var hash := Sighash(p, psbt, input);
      if hash.Err? {
        return Err(hash.error);
      }
      var topic := Topic(id, input);
      var nonces := CommitSelected(topic, selected);
      if nonces.Err? {
        return Err(nonces.error);
      }
      var collected := transport.Subscribe(CommitmentFilter(topic));
      var found := ReadCommitments(p, idOfSeat, selected, collected);
      if found.Err? {
        return Err(found.error);
      }
      res := Ok(Round1(Package(found.value, hash.value), nonces.value));
    }

    method SignOne(input: nat, prevouts: seq<TxOut>, r1: Round1<N, C>, yes: bool, who: Identifier)
        returns (res: Result<(), SessionError>)
      requires Valid() && who in r1.nonces
      modifies this`events, transport
      ensures Valid() && (res, Now()) == SignStep(p, Cfg(), input, prevouts, r1, yes, who, old(Now()))
    {
      if who !in keyPackages || who !in seatOfId {
        return Err(UnknownSeat(who));
      }
      var shown := DisplayAndAck(p, psbt.unsigned, prevouts, input, r1.package.message, yes);
      if shown.Err? {
        return Err(Display(shown.error));
      }
      var held := r1.nonces[who];
      events := events + [Gate(who, input, r1.package.message), SignedWith(held.draw, r1.package.message)];
      var share := p.sign(r1.package, held.nonces, keyPackages[who]);
      if share.Err? {
        return Err(FrostFailed(share.error));
      }
      Send(ShareEnvelope(Topic(id, input), seatOfId[who], p.encodeS(share.value)));
      res := Ok(());
    }

    /** Every holder of a nonce signs, in ascending order. */
    method SignHeld(input: nat, prevouts: seq<TxOut>, r1: Round1<N, C>, yes: bool)
        returns (res: Result<(), SessionError>)
      requires Valid()
      modifies this`events, transport
      ensures Valid() && (res, Now()) == SignLoop(p, Cfg(), input, prevouts, r1, yes, 0, old(Now()))
    {
      var ids := Roster(r1.nonces);
      ghost var start := Now();
      for i := 0 to |ids|
        invariant Valid()
        invariant SignLoop(p, Cfg(), input, prevouts, r1, yes, 0, start) ==
                  SignLoop(p, Cfg(), input, prevouts, r1, yes, i, Now())
      {
        var signed := SignOne(input, prevouts, r1, yes, ids[i]);
        if signed.Err? {
          return Err(signed.error);
        }
      }
      res := Ok(());
    }

    method RunRound2(input: nat, r1: Round1<N, C>, yes: bool) returns (res: Result<Sig, SessionError>)
      requires Valid()
      modifies this`events, transport
      ensures Valid() && (res, Now()) == Round2Spec(p, Cfg(), input, r1, yes, old(Now()))
    {
      var prevouts := Prevouts(psbt);
      if prevouts.Err? {
        return Err(prevouts.error);
      }
      var signed := SignHeld(input, prevouts.value, r1, yes);
      if signed.Err? {
        return Err(signed.error);
      }
      var collected := transport.Subscribe(ShareFilter(Topic(id, input)));
      var shares := ReadShares(p, idOfSeat, collected);
      if shares.Err? {
        return Err(shares.error);
      }
      var sig := AggregateShares(p, r1.package, shares.value, group);
      if sig.Err? {
        return Err(Aggregate(sig.error));
      }
      if !p.verify(group, r1.package.message, sig.value) {
        return Err(Aggregate(VerifyAgainstQ));
      }
      res := Ok(sig.value);
    }

    method SignOneInput(input: nat, selected: seq<Identifier>, yes: bool) returns (res: Result<seq<byte>, SessionError>)
      requires Valid()
      modifies this`events, transport, rng
      ensures Valid() && (res, Now()) == SignInput(p, Cfg(), selected, yes, input, old(Now()))
    {
      var r1 := RunRound1(input, selected);
      if r1.Err? {
        return Err(r1.error);
      }
      var sig := RunRound2(input, r1.value, yes);
      if sig.Err? {
        return Err(sig.error);
      }
      res := SignatureBytes(p, sig.value);
    }

    /** The session is marked spent only at the very end, after every input was signed. */
    method Run(yes: bool) returns (res: Result<Tx, SessionError>)
      requires Valid()
      modifies this`events, this`spent, transport, rng
      ensures Valid() && (res, Now()) == RunSpec(p, Cfg(), old(spent), yes, old(Now()))
      ensures spent == (old(spent) || res.Ok?)
    {
      if spent {
        return Err(Spent);
      }
      var selected := LivenessSelect();
      if selected.Err? {
        return Err(selected.error);
      }
      var tx := psbt.unsigned;
      var n := |tx.inputs|;
      ghost var start := Now();
      for input := 0 to n
        invariant Valid() && |tx.inputs| == n && !spent
        invariant RunInputs(p, Cfg(), selected.value, yes, psbt.unsigned, 0, start) ==
                  RunInputs(p, Cfg(), selected.value, yes, tx, input, Now())
      {
        var bytes := SignOneInput(input, selected.value, yes);
        if bytes.Err? {
          return Err(bytes.error);
        }
        tx := tx.(inputs := tx.inputs[input := tx.inputs[input].(witnessStack := [bytes.value])]);
      }
      spent := true;
      res := Ok(tx);
    }

    /** The sanctioned recovery: same roster, transaction and threshold, a new id, nothing spent. */
    method NewSessionOnAbort(newId: Utf8) returns (fresh_: SigningSession<KP, G, N, C, S, Sig>)
      requires Valid()
      ensures fresh(fresh_) && fresh_.Valid() && !fresh_.spent && fresh_.events == []
      ensures fresh_.p == p && fresh_.transport == transport && fresh_.rng == rng
      ensures fresh_.Cfg() == Cfg().(id := newId)
    {
      fresh_ := new SigningSession(p, newId, transport, rng, keyPackages, group, psbt, t);
    }
  }
}
