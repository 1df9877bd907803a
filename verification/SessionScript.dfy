/** The signing run, step by step, next to other sessions.

    `RunScript` is the run cut at every publication and every subscription, over the session's own
    stream of draws. Alone on a board it does what `RunSpec` does; under every interleaving it returns
    what it returns alone. */
module SessionScripts {
  import opened Wrappers
  import opened Text
  import opened Envelopes
  import opened Transport
  import opened Frost
  import opened Session
  import opened SessionLaws
  import opened NonInterference

  // ---- the run as a script ----

  function SendAll(es: seq<Envelope>, next: Script): Script
    decreases |es|
  {
    if es == [] then next else Send(es[0], SendAll(es[1..], next))
  }

  /** What follows a list of nonces and the position in the stream of draws. */
  type OnNonces<!N> = (Result<map<Identifier, Held<N>>, SessionError>, nat) -> Script

  /** What one seat draws, and the envelope it publishes. */
  function CommitOf<KP, G, N, C, S, Sig>(
      p: Primitives<KP, G, N, C, S, Sig>, cfg: Config<KP, G>, topic: Utf8, id: Identifier, draws: nat)
      : (Result<(Held<N>, Envelope), SessionError>, nat)
  {
    var seatOfId := SeatOfId(Roster(cfg.keyPackages));
    if id !in cfg.keyPackages || id !in seatOfId then (Err(UnknownSeat(id)), draws) else
      var (nonce, commitments) := p.commit(cfg.keyPackages[id], draws);
      match p.encodeC(commitments)
      case Err(e) => (Err(FrostFailed(e)), draws + 1)
      case Ok(payload) => (Ok((Held(nonce, draws), Broadcast(Commitments, topic, 1, seatOfId[id], payload))), draws + 1)
  }

  function CommitScript<KP, G, N, C, S, Sig>(
      p: Primitives<KP, G, N, C, S, Sig>, cfg: Config<KP, G>, topic: Utf8, selected: seq<Identifier>,
      draws: nat, nonces: map<Identifier, Held<N>>, k: OnNonces<N>): Script
    decreases |selected|
  {
    if selected == [] then k(Ok(nonces), draws) else
      var (res, draws') := CommitOf(p, cfg, topic, selected[0], draws);
      match res
      case Err(e) => k(Err(e), draws')
      case Ok(out) => Send(out.1, CommitScript(p, cfg, topic, selected[1..], draws', nonces[selected[0] := out.0], k))
  }

  type OnRound1<!N, !C> = (Result<Round1<N, C>, SessionError>, nat) -> Script

  /** Read the commitments back and build the package. */
  function Collect<KP, G, N, C, S, Sig>(
      p: Primitives<KP, G, N, C, S, Sig>, cfg: Config<KP, G>, selected: seq<Identifier>, hash: seq<byte>,
      nonces: map<Identifier, Held<N>>, heard: seq<Envelope>): Result<Round1<N, C>, SessionError>
  {
    match CollectCommitments(p, IdOfSeat(Roster(cfg.keyPackages)), selected, heard, map[])
    case Err(e) => Err(e)
    case Ok(commitments) => Ok(Round1(Package(commitments, hash), nonces))
  }

  function ResumeCommits<KP, G, N, C, S, Sig>(
      p: Primitives<KP, G, N, C, S, Sig>, cfg: Config<KP, G>, selected: seq<Identifier>, hash: seq<byte>,
      nonces: map<Identifier, Held<N>>, draws: nat, k: OnRound1<N, C>): seq<Envelope> -> Script
  {
    heard => k(Collect(p, cfg, selected, hash, nonces, heard), draws)
  }

  function AfterNonces<KP, G, N, C, S, Sig>(
      p: Primitives<KP, G, N, C, S, Sig>, cfg: Config<KP, G>, input: nat, selected: seq<Identifier>, hash: seq<byte>,
      k: OnRound1<N, C>): OnNonces<N>
  {
    (res: Result<map<Identifier, Held<N>>, SessionError>, draws: nat) =>
      match res
      case Err(e) => k(Err(e), draws)
      case Ok(nonces) =>
        Ask(CommitmentFilter(Topic(cfg.id, input)), ResumeCommits(p, cfg, selected, hash, nonces, draws, k))
  }

  function Round1Script<KP, G, N, C, S, Sig>(
      p: Primitives<KP, G, N, C, S, Sig>, cfg: Config<KP, G>, input: nat, selected: seq<Identifier>, draws: nat,
      k: OnRound1<N, C>): Script
  {
    match Sighash(p, cfg.psbt, input)
    case Err(e) => k(Err(e), draws)
    case Ok(hash) =>
      CommitScript(p, cfg, Topic(cfg.id, input), selected, draws, map[], AfterNonces(p, cfg, input, selected, hash, k))
  }

  type OnSigned = Result<(), SessionError> -> Script

  /** The envelope one holder publishes once it has passed the gate and signed. */
  function ShareFrom<KP, G, N, C, S, Sig>(
      p: Primitives<KP, G, N, C, S, Sig>, cfg: Config<KP, G>, input: nat, prevouts: seq<TxOut>, r1: Round1<N, C>,
      yes: bool, id: Identifier): Result<Envelope, SessionError>
    requires id in r1.nonces
  {
    var seatOfId := SeatOfId(Roster(cfg.keyPackages));
    if id !in cfg.keyPackages || id !in seatOfId then Err(UnknownSeat(id)) else
      match DisplayAndAck(p, cfg.psbt.unsigned, prevouts, input, r1.package.message, yes)
      case Err(e) => Err(Display(e))
      case Ok(_) =>
        match p.sign(r1.package, r1.nonces[id].nonces, cfg.keyPackages[id])
        case Err(e) => Err(FrostFailed(e))
        case Ok(share) => Ok(ShareEnvelope(Topic(cfg.id, input), seatOfId[id], p.encodeS(share)))
  }

  /** What every holder would publish, in ascending order. */
  function SharesOf<KP, G, N, C, S, Sig>(
      p: Primitives<KP, G, N, C, S, Sig>, cfg: Config<KP, G>, input: nat, prevouts: seq<TxOut>, r1: Round1<N, C>,
      yes: bool): (r: seq<Result<Envelope, SessionError>>)
    ensures |r| == |Roster(r1.nonces)|
    ensures forall i :: 0 <= i < |r| ==> r[i] == ShareFrom(p, cfg, input, prevouts, r1, yes, Roster(r1.nonces)[i])
  {
    var ids := Roster(r1.nonces);
    seq(|ids|, i requires 0 <= i < |ids| => ShareFrom(p, cfg, input, prevouts, r1, yes, ids[i]))
  }

  /** Publish one after the other; the first error ends it. */
  function SendEach(outs: seq<Result<Envelope, SessionError>>, k: OnSigned): Script
    decreases |outs|
  {
    if outs == [] then k(Ok(()))
    else if outs[0].Ok? then Send(outs[0].value, SendEach(outs[1..], k))
    else k(Err(outs[0].error))
  }

  type OnSignature<!Sig> = Result<Sig, SessionError> -> Script

  function ResumeShares<KP, G, N, C, S, Sig>(
      p: Primitives<KP, G, N, C, S, Sig>, cfg: Config<KP, G>, r1: Round1<N, C>, k: OnSignature<Sig>): seq<Envelope> -> Script
  {
    heard => k(Finish(p, cfg, r1, heard))
  }

  function AfterSigned<KP, G, N, C, S, Sig>(
      p: Primitives<KP, G, N, C, S, Sig>, cfg: Config<KP, G>, input: nat, r1: Round1<N, C>, k: OnSignature<Sig>): OnSigned
  {
    (res: Result<(), SessionError>) =>
      match res
      case Err(e) => k(Err(e))
      case Ok(_) => Ask(ShareFilter(Topic(cfg.id, input)), ResumeShares(p, cfg, r1, k))
  }

  function Round2Script<KP, G, N, C, S, Sig>(
      p: Primitives<KP, G, N, C, S, Sig>, cfg: Config<KP, G>, input: nat, r1: Round1<N, C>, yes: bool, k: OnSignature<Sig>): Script
  {
    match Prevouts(cfg.psbt)
    case Err(e) => k(Err(e))
    case Ok(prevouts) => SendEach(SharesOf(p, cfg, input, prevouts, r1, yes), AfterSigned(p, cfg, input, r1, k))
  }

  type OnBytes = (Result<seq<byte>, SessionError>, nat) -> Script

  function AfterRound2<KP, G, N, C, S, Sig>(p: Primitives<KP, G, N, C, S, Sig>, draws: nat, k: OnBytes): OnSignature<Sig> {
    (res: Result<Sig, SessionError>) =>
      match res
      case Err(e) => k(Err(e), draws)
      case Ok(sig) => k(SignatureBytes(p, sig), draws)
  }

  function AfterRound1<KP, G, N, C, S, Sig>(
      p: Primitives<KP, G, N, C, S, Sig>, cfg: Config<KP, G>, input: nat, yes: bool, k: OnBytes): OnRound1<N, C>
  {
    (res: Result<Round1<N, C>, SessionError>, draws: nat) =>
      match res
      case Err(e) => k(Err(e), draws)
      case Ok(r1) => Round2Script(p, cfg, input, r1, yes, AfterRound2(p, draws, k))
  }

  function SignInputScript<KP, G, N, C, S, Sig>(
      p: Primitives<KP, G, N, C, S, Sig>, cfg: Config<KP, G>, selected: seq<Identifier>, yes: bool, input: nat, draws: nat,
      k: OnBytes): Script
  {
    Round1Script(p, cfg, input, selected, draws, AfterRound1(p, cfg, input, yes, k))
  }

  function AfterInput<KP, G, N, C, S, Sig>(
      p: Primitives<KP, G, N, C, S, Sig>, cfg: Config<KP, G>, selected: seq<Identifier>, yes: bool, tx: Tx, input: nat): OnBytes
    requires input < |tx.inputs|
    decreases |tx.inputs| - input, 0
  {
    (res: Result<seq<byte>, SessionError>, draws: nat) =>
      match res
      case Err(e) => Return(Err(e))
      case Ok(bytes) => InputsScript(p, cfg, selected, yes, SetWitness(tx, input, bytes), input + 1, draws)
  }

  function InputsScript<KP, G, N, C, S, Sig>(
      p: Primitives<KP, G, N, C, S, Sig>, cfg: Config<KP, G>, selected: seq<Identifier>, yes: bool, tx: Tx, input: nat, draws: nat): Script
    requires input <= |tx.inputs|
    decreases |tx.inputs| - input, 1
  {
    if input == |tx.inputs| then Return(Ok(tx)) else
      SignInputScript(p, cfg, selected, yes, input, draws, AfterInput(p, cfg, selected, yes, tx, input))
  }

  /** What the poll leads to. */
  function AfterPoll<KP, G, N, C, S, Sig>(
      p: Primitives<KP, G, N, C, S, Sig>, cfg: Config<KP, G>, yes: bool, draws: nat): seq<Envelope> -> Script
  {
    heard =>
      match PollAndSelect(SortedIds(SenderIds(IdOfSeat(Roster(cfg.keyPackages)), heard)), cfg.t)
      case Err(e) => Return(Err(e))
      case Ok(selected) => InputsScript(p, cfg, selected, yes, cfg.psbt.unsigned, 0, draws)
  }

  /** The whole run, drawing from position `draws` of the session's stream on. */
  function RunScript<KP, G, N, C, S, Sig>(
      p: Primitives<KP, G, N, C, S, Sig>, cfg: Config<KP, G>, spent: bool, yes: bool, draws: nat): Script
  {
    if spent then Return(Err(Spent))
    else SendAll(Acks(cfg), Ask(LivenessFilter(cfg.id), AfterPoll(p, cfg, yes, draws)))
  }

  // ---- alone on a board the script does what the run does ----

  lemma {:induction false} SendAllReaches(net: Net, es: seq<Envelope>, next: Script)
    ensures Reaches(net.board, SendAll(es, next), PublishAll(net, es).board, next)
    decreases |es|
  {
    if es == [] {
      ReachesSelf(net.board, next);
    } else {
      SendAllReaches(Publish(net, es[0]), es[1..], next);
      ReachesTake(net.board, SendAll(es, next), PublishAll(net, es).board, next);
    }
  }

  /** The step of the specification publishes that envelope, and nothing if there is none. */
  lemma CommitOfStep<KP, G, N, C, S, Sig>(
      p: Primitives<KP, G, N, C, S, Sig>, cfg: Config<KP, G>, topic: Utf8, id: Identifier, net: Net)
    ensures var (out, draws) := CommitOf(p, cfg, topic, id, net.draws);
      var (res, net') := CommitStep(p, cfg, topic, id, net);
      && net'.draws == draws
      && (out.Err? ==> res == Err(out.error) && net'.board == net.board)
      && (out.Ok? ==> res == Ok(out.value.0) && net'.board == Post(net.board, out.value.1))
  {
  }

  lemma {:induction false} CommitScriptReaches<KP, G, N, C, S, Sig>(
      p: Primitives<KP, G, N, C, S, Sig>, cfg: Config<KP, G>, topic: Utf8, selected: seq<Identifier>,
      net: Net, nonces: map<Identifier, Held<N>>, k: OnNonces<N>)
    ensures var (res, net') := CommitLoop(p, cfg, topic, selected, net, nonces);
      Reaches(net.board, CommitScript(p, cfg, topic, selected, net.draws, nonces, k), net'.board, k(res, net'.draws))
    decreases |selected|
  {
    var (res, net') := CommitLoop(p, cfg, topic, selected, net, nonces);
    var script := CommitScript(p, cfg, topic, selected, net.draws, nonces, k);
    if selected == [] {
      ReachesSelf(net.board, script);
    } else {
      var (held, next) := CommitStep(p, cfg, topic, selected[0], net);
      CommitOfStep(p, cfg, topic, selected[0], net);
      CommitLoopStep(p, cfg, topic, selected, net, nonces);
      if held.Ok? {
        CommitScriptReaches(p, cfg, topic, selected[1..], next, nonces[selected[0] := held.value], k);
        ReachesSend(net.board, script, next.board, net'.board, k(res, net'.draws));
      } else {
        ReachesSelf(net.board, script);
      }
    }
  }

  lemma ReachesSend(b: Board, s: Script, b1: Board, b': Board, s': Script)
    requires s.Send? && b1 == Post(b, s.e) && Reaches(b1, s.next, b', s')
    ensures Reaches(b, s, b', s')
  {
    ReachesTake(b, s, b', s');
  }

  lemma Round1ScriptReaches<KP, G, N, C, S, Sig>(
      p: Primitives<KP, G, N, C, S, Sig>, cfg: Config<KP, G>, input: nat, selected: seq<Identifier>, net: Net, k: OnRound1<N, C>)
    ensures var (res, net') := Round1Spec(p, cfg, input, selected, net);
      Reaches(net.board, Round1Script(p, cfg, input, selected, net.draws, k), net'.board, k(res, net'.draws))
  {
    var (res, net') := Round1Spec(p, cfg, input, selected, net);
    var hash := Sighash(p, cfg.psbt, input);
    if hash.Err? {
      ReachesSelf(net.board, k(res, net.draws));
    } else {
      var after := AfterNonces(p, cfg, input, selected, hash.value, k);
      CommitScriptReaches(p, cfg, Topic(cfg.id, input), selected, net, map[], after);
      var (nonces, mid) := CommitLoop(p, cfg, Topic(cfg.id, input), selected, net, map[]);
      NoncesReach(p, cfg, input, selected, hash.value, nonces, mid, k);
      ReachesTrans(net.board, Round1Script(p, cfg, input, selected, net.draws, k), mid.board, after(nonces, mid.draws),
                   net'.board, k(res, net'.draws));
    }
  }

  lemma NoncesReach<KP, G, N, C, S, Sig>(
      p: Primitives<KP, G, N, C, S, Sig>, cfg: Config<KP, G>, input: nat, selected: seq<Identifier>, hash: seq<byte>,
      nonces: Result<map<Identifier, Held<N>>, SessionError>, mid: Net, k: OnRound1<N, C>)
    ensures Reaches(mid.board, AfterNonces(p, cfg, input, selected, hash, k)(nonces, mid.draws), mid.board,
      k(if nonces.Err? then Err(nonces.error)
        else Collect(p, cfg, selected, hash, nonces.value, Fetch(mid.board, CommitmentFilter(Topic(cfg.id, input)))), mid.draws))
  {
    var s := AfterNonces(p, cfg, input, selected, hash, k)(nonces, mid.draws);
    if nonces.Err? {
      ReachesSelf(mid.board, s);
    } else {
      var heard := Fetch(mid.board, CommitmentFilter(Topic(cfg.id, input)));
      var next := k(Collect(p, cfg, selected, hash, nonces.value, heard), mid.draws);
      assert ResumeCommits(p, cfg, selected, hash, nonces.value, mid.draws, k)(heard) == next;
      ReachesSelf(mid.board, next);
      ReachesTake(mid.board, s, mid.board, next);
    }
  }

  lemma ShareFromStep<KP, G, N, C, S, Sig>(
      p: Primitives<KP, G, N, C, S, Sig>, cfg: Config<KP, G>, input: nat, prevouts: seq<TxOut>, r1: Round1<N, C>,
      yes: bool, id: Identifier, net: Net)
    requires id in r1.nonces
    ensures var out := ShareFrom(p, cfg, input, prevouts, r1, yes, id);
      var (res, net') := SignStep(p, cfg, input, prevouts, r1, yes, id, net);
      && net'.draws == net.draws
      && (out.Err? ==> res == Err(out.error) && net'.board == net.board)
      && (out.Ok? ==> res.Ok? && net'.board == Post(net.board, out.value))
  {
  }

  lemma {:induction false} SendEachReaches<KP, G, N, C, S, Sig>(
      p: Primitives<KP, G, N, C, S, Sig>, cfg: Config<KP, G>, input: nat, prevouts: seq<TxOut>, r1: Round1<N, C>,
      yes: bool, i: nat, net: Net, outs: seq<Result<Envelope, SessionError>>, k: OnSigned)
    requires i <= |Roster(r1.nonces)| && outs == SharesOf(p, cfg, input, prevouts, r1, yes)
    ensures var (res, net') := SignLoop(p, cfg, input, prevouts, r1, yes, i, net);
      net'.draws == net.draws && Reaches(net.board, SendEach(outs[i..], k), net'.board, k(res))
    decreases |Roster(r1.nonces)| - i
  {
    var (res, net') := SignLoop(p, cfg, input, prevouts, r1, yes, i, net);
    var script := SendEach(outs[i..], k);
    if i == |Roster(r1.nonces)| {
      ReachesSelf(net.board, script);
    } else {
      assert outs[i..][0] == outs[i] && outs[i..][1..] == outs[i + 1..];
      var (ok, next) := SignStep(p, cfg, input, prevouts, r1, yes, Roster(r1.nonces)[i], net);
      ShareFromStep(p, cfg, input, prevouts, r1, yes, Roster(r1.nonces)[i], net);
      SignLoopStep(p, cfg, input, prevouts, r1, yes, i, net);
      if ok.Ok? {
        SendEachReaches(p, cfg, input, prevouts, r1, yes, i + 1, next, outs, k);
        ReachesSend(net.board, script, next.board, net'.board, k(res));
      } else {
        ReachesSelf(net.board, script);
      }
    }
  }

  lemma SignedReach<KP, G, N, C, S, Sig>(
      p: Primitives<KP, G, N, C, S, Sig>, cfg: Config<KP, G>, input: nat, r1: Round1<N, C>,
      signed: Result<(), SessionError>, b: Board, k: OnSignature<Sig>)
    ensures Reaches(b, AfterSigned(p, cfg, input, r1, k)(signed), b,
      k(if signed.Err? then Err(signed.error) else Finish(p, cfg, r1, Fetch(b, ShareFilter(Topic(cfg.id, input))))))
  {
    var s := AfterSigned(p, cfg, input, r1, k)(signed);
    if signed.Err? {
      ReachesSelf(b, s);
    } else {
      var heard := Fetch(b, ShareFilter(Topic(cfg.id, input)));
      var next := k(Finish(p, cfg, r1, heard));
      assert ResumeShares(p, cfg, r1, k)(heard) == next;
      ReachesSelf(b, next);
      ReachesTake(b, s, b, next);
    }
  }

  lemma Round2ScriptReaches<KP, G, N, C, S, Sig>(
      p: Primitives<KP, G, N, C, S, Sig>, cfg: Config<KP, G>, input: nat, r1: Round1<N, C>, yes: bool, net: Net, k: OnSignature<Sig>)
    ensures var (res, net') := Round2Spec(p, cfg, input, r1, yes, net);
      net'.draws == net.draws && Reaches(net.board, Round2Script(p, cfg, input, r1, yes, k), net'.board, k(res))
  {
    var (res, net') := Round2Spec(p, cfg, input, r1, yes, net);
    var prevouts := Prevouts(cfg.psbt);
    if prevouts.Err? {
      ReachesSelf(net.board, k(res));
    } else {
      var outs, after := SharesOf(p, cfg, input, prevouts.value, r1, yes), AfterSigned(p, cfg, input, r1, k);
      SendEachReaches(p, cfg, input, prevouts.value, r1, yes, 0, net, outs, after);
      assert outs[0..] == outs;
      var (signed, mid) := SignLoop(p, cfg, input, prevouts.value, r1, yes, 0, net);
      SignedReach(p, cfg, input, r1, signed, mid.board, k);
      ReachesTrans(net.board, SendEach(outs, after), mid.board, after(signed), mid.board, k(res));
    }
  }

  lemma SignInputScriptReaches<KP, G, N, C, S, Sig>(
      p: Primitives<KP, G, N, C, S, Sig>, cfg: Config<KP, G>, selected: seq<Identifier>, yes: bool, input: nat, net: Net, k: OnBytes)
    ensures var (res, net') := SignInput(p, cfg, selected, yes, input, net);
      Reaches(net.board, SignInputScript(p, cfg, selected, yes, input, net.draws, k), net'.board, k(res, net'.draws))
  {
    var script := SignInputScript(p, cfg, selected, yes, input, net.draws, k);
    var after := AfterRound1(p, cfg, input, yes, k);
    Round1ScriptReaches(p, cfg, input, selected, net, after);
    var (r1, mid) := Round1Spec(p, cfg, input, selected, net);
    if r1.Ok? {
      var end := AfterRound2(p, mid.draws, k);
      Round2ScriptReaches(p, cfg, input, r1.value, yes, mid, end);
      var (sig, net') := Round2Spec(p, cfg, input, r1.value, yes, mid);
      ReachesTrans(net.board, script, mid.board, after(r1, mid.draws), net'.board, end(sig));
    }
  }

  lemma {:induction false} InputsScriptReaches<KP, G, N, C, S, Sig>(
      p: Primitives<KP, G, N, C, S, Sig>, cfg: Config<KP, G>, selected: seq<Identifier>, yes: bool, tx: Tx, input: nat, net: Net)
    requires input <= |tx.inputs|
    ensures var (res, net') := RunInputs(p, cfg, selected, yes, tx, input, net);
      Reaches(net.board, InputsScript(p, cfg, selected, yes, tx, input, net.draws), net'.board, Return(res))
    decreases |tx.inputs| - input
  {
    var (res, net') := RunInputs(p, cfg, selected, yes, tx, input, net);
    var script := InputsScript(p, cfg, selected, yes, tx, input, net.draws);
    if input == |tx.inputs| {
      ReachesSelf(net.board, script);
    } else {
      var after := AfterInput(p, cfg, selected, yes, tx, input);
      SignInputScriptReaches(p, cfg, selected, yes, input, net, after);
      var (bytes, mid) := SignInput(p, cfg, selected, yes, input, net);
      RunInputsStep(p, cfg, selected, yes, tx, input, net);
      if bytes.Ok? {
        InputsScriptReaches(p, cfg, selected, yes, SetWitness(tx, input, bytes.value), input + 1, mid);
        ReachesTrans(net.board, script, mid.board, after(bytes, mid.draws), net'.board, Return(res));
      }
    }
  }

  /** Alone on a board the script returns what `RunSpec` returns and leaves the same board. */
  lemma RunScriptReaches<KP, G, N, C, S, Sig>(
      p: Primitives<KP, G, N, C, S, Sig>, cfg: Config<KP, G>, spent: bool, yes: bool, net: Net)
    ensures var (res, net') := RunSpec(p, cfg, spent, yes, net);
      Reaches(net.board, RunScript(p, cfg, spent, yes, net.draws), net'.board, Return(res))
  {
    var (res, net') := RunSpec(p, cfg, spent, yes, net);
    if spent {
      ReachesSelf(net.board, Return(res));
    } else {
      var ask := Ask(LivenessFilter(cfg.id), AfterPoll(p, cfg, yes, net.draws));
      var mid := PublishAll(net, Acks(cfg));
      SendAllReaches(net, Acks(cfg), ask);
      PublishAllBoard(net, Acks(cfg));
      PollReaches(p, cfg, yes, mid, LivenessSpec(cfg, net).0, res, net');
      ReachesTrans(net.board, SendAll(Acks(cfg), ask), mid.board, ask, net'.board, Return(res));
    }
  }

  lemma PollReaches<KP, G, N, C, S, Sig>(
      p: Primitives<KP, G, N, C, S, Sig>, cfg: Config<KP, G>, yes: bool, mid: Net,
      selected: Result<seq<Identifier>, SessionError>, res: Result<Tx, SessionError>, net': Net)
    requires selected == PollAndSelect(SortedIds(SenderIds(IdOfSeat(Roster(cfg.keyPackages)),
                                                           Fetch(mid.board, LivenessFilter(cfg.id)))), cfg.t)
    requires selected.Err? ==> res == Err(selected.error) && net' == mid
    requires selected.Ok? ==> (res, net') == RunInputs(p, cfg, selected.value, yes, cfg.psbt.unsigned, 0, mid)
    ensures Reaches(mid.board, Ask(LivenessFilter(cfg.id), AfterPoll(p, cfg, yes, mid.draws)), net'.board, Return(res))
  {
    var ask := Ask(LivenessFilter(cfg.id), AfterPoll(p, cfg, yes, mid.draws));
    if selected.Ok? {
      InputsScriptReaches(p, cfg, selected.value, yes, cfg.psbt.unsigned, 0, mid);
    } else {
      ReachesSelf(mid.board, Return(res));
    }
    ReachesTake(mid.board, ask, net'.board, Return(res));
  }

  // ---- the script keeps to its own envelopes ----

  lemma {:induction false} SendAllBehaves(id: Utf8, es: seq<Envelope>, next: Script)
    requires (forall i :: 0 <= i < |es| ==> Owned(id, es[i])) && Behaves(id, next)
    ensures Behaves(id, SendAll(es, next))
    decreases |es|
  {
    if es != [] {
      assert forall i :: 0 <= i < |es[1..]| ==> es[1..][i] == es[i + 1];
      SendAllBehaves(id, es[1..], next);
      BehavesSend(id, es[0], SendAll(es[1..], next));
    }
  }

  ghost predicate NoncesBehave<N(!new)>(id: Utf8, k: OnNonces<N>) {
    forall res: Result<map<Identifier, Held<N>>, SessionError>, draws: nat :: Behaves(id, k(res, draws))
  }

  ghost predicate Round1Behaves<N(!new), C(!new)>(id: Utf8, k: OnRound1<N, C>) {
    forall res: Result<Round1<N, C>, SessionError>, draws: nat :: Behaves(id, k(res, draws))
  }

  ghost predicate SignedBehaves(id: Utf8, k: OnSigned) {
    forall res :: Behaves(id, k(res))
  }

  ghost predicate SignatureBehaves<Sig(!new)>(id: Utf8, k: OnSignature<Sig>) {
    forall res: Result<Sig, SessionError> :: Behaves(id, k(res))
  }

  ghost predicate BytesBehave(id: Utf8, k: OnBytes) {
    forall res: Result<seq<byte>, SessionError>, draws: nat :: Behaves(id, k(res, draws))
  }

  lemma CommitIsOwned<KP, G, N, C, S, Sig>(
      p: Primitives<KP, G, N, C, S, Sig>, cfg: Config<KP, G>, input: nat, id: Identifier, draws: nat)
    ensures var out := CommitOf(p, cfg, Topic(cfg.id, input), id, draws).0;
      out.Ok? ==> Owned(cfg.id, out.value.1)
  {
  }

  lemma {:induction false} CommitScriptBehaves<KP, G, N(!new), C, S, Sig>(
      p: Primitives<KP, G, N, C, S, Sig>, cfg: Config<KP, G>, input: nat, selected: seq<Identifier>,
      draws: nat, nonces: map<Identifier, Held<N>>, k: OnNonces<N>)
    requires NoncesBehave(cfg.id, k)
    ensures Behaves(cfg.id, CommitScript(p, cfg, Topic(cfg.id, input), selected, draws, nonces, k))
    decreases |selected|
  {
    if selected != [] {
      var topic := Topic(cfg.id, input);
      var (out, draws') := CommitOf(p, cfg, topic, selected[0], draws);
      if out.Ok? {
        var nonces' := nonces[selected[0] := out.value.0];
        CommitIsOwned(p, cfg, input, selected[0], draws);
        CommitScriptBehaves(p, cfg, input, selected[1..], draws', nonces', k);
        BehavesSend(cfg.id, out.value.1, CommitScript(p, cfg, topic, selected[1..], draws', nonces', k));
      }
    }
  }

  lemma AfterNoncesBehaves<KP, G, N(!new), C(!new), S, Sig>(
      p: Primitives<KP, G, N, C, S, Sig>, cfg: Config<KP, G>, input: nat, selected: seq<Identifier>, hash: seq<byte>,
      k: OnRound1<N, C>)
    requires Round1Behaves(cfg.id, k)
    ensures NoncesBehave(cfg.id, AfterNonces(p, cfg, input, selected, hash, k))
  {
    SessionFiltersSeeOwn(cfg.id, input);
    var after := AfterNonces(p, cfg, input, selected, hash, k);
    forall res: Result<map<Identifier, Held<N>>, SessionError>, draws: nat ensures Behaves(cfg.id, after(res, draws)) {
      if res.Ok? {
        var resume := ResumeCommits(p, cfg, selected, hash, res.value, draws, k);
        forall heard ensures Behaves(cfg.id, resume(heard)) {
          assert Behaves(cfg.id, k(Collect(p, cfg, selected, hash, res.value, heard), draws));
        }
        BehavesAsk(cfg.id, CommitmentFilter(Topic(cfg.id, input)), resume);
      } else {
        assert Behaves(cfg.id, k(Err(res.error), draws));
      }
    }
  }

  lemma Round1ScriptBehaves<KP, G, N(!new), C(!new), S, Sig>(
      p: Primitives<KP, G, N, C, S, Sig>, cfg: Config<KP, G>, input: nat, selected: seq<Identifier>, draws: nat, k: OnRound1<N, C>)
    requires Round1Behaves(cfg.id, k)
    ensures Behaves(cfg.id, Round1Script(p, cfg, input, selected, draws, k))
  {
    var hash := Sighash(p, cfg.psbt, input);
    if hash.Ok? {
      AfterNoncesBehaves(p, cfg, input, selected, hash.value, k);
      CommitScriptBehaves(p, cfg, input, selected, draws, map[], AfterNonces(p, cfg, input, selected, hash.value, k));
    }
  }

  lemma ShareIsOwned<KP, G, N, C, S, Sig>(
      p: Primitives<KP, G, N, C, S, Sig>, cfg: Config<KP, G>, input: nat, prevouts: seq<TxOut>, r1: Round1<N, C>,
      yes: bool, id: Identifier)
    requires id in r1.nonces
    ensures var out := ShareFrom(p, cfg, input, prevouts, r1, yes, id);
      out.Ok? ==> Owned(cfg.id, out.value)
  {
  }

  lemma {:induction false} SendEachBehaves(id: Utf8, outs: seq<Result<Envelope, SessionError>>, k: OnSigned)
    requires (forall i :: 0 <= i < |outs| && outs[i].Ok? ==> Owned(id, outs[i].value)) && SignedBehaves(id, k)
    ensures Behaves(id, SendEach(outs, k))
    decreases |outs|
  {
    if outs != [] {
      assert forall i :: 0 <= i < |outs[1..]| ==> outs[1..][i] == outs[i + 1];
      SendEachBehaves(id, outs[1..], k);
      if outs[0].Ok? {
        BehavesSend(id, outs[0].value, SendEach(outs[1..], k));
      }
    }
  }

  lemma AfterSignedBehaves<KP, G, N, C, S, Sig(!new)>(
      p: Primitives<KP, G, N, C, S, Sig>, cfg: Config<KP, G>, input: nat, r1: Round1<N, C>, k: OnSignature<Sig>)
    requires SignatureBehaves(cfg.id, k)
    ensures SignedBehaves(cfg.id, AfterSigned(p, cfg, input, r1, k))
  {
    SessionFiltersSeeOwn(cfg.id, input);
    var after := AfterSigned(p, cfg, input, r1, k);
    forall res: Result<(), SessionError> ensures Behaves(cfg.id, after(res)) {
      if res.Ok? {
        var resume := ResumeShares(p, cfg, r1, k);
        forall heard ensures Behaves(cfg.id, resume(heard)) {
          assert Behaves(cfg.id, k(Finish(p, cfg, r1, heard)));
        }
        BehavesAsk(cfg.id, ShareFilter(Topic(cfg.id, input)), resume);
      } else {
        assert Behaves(cfg.id, k(Err(res.error)));
      }
    }
  }

  lemma Round2ScriptBehaves<KP, G, N, C, S, Sig(!new)>(
      p: Primitives<KP, G, N, C, S, Sig>, cfg: Config<KP, G>, input: nat, r1: Round1<N, C>, yes: bool, k: OnSignature<Sig>)
    requires SignatureBehaves(cfg.id, k)
    ensures Behaves(cfg.id, Round2Script(p, cfg, input, r1, yes, k))
  {
    var prevouts := Prevouts(cfg.psbt);
    if prevouts.Ok? {
      AfterSignedBehaves(p, cfg, input, r1, k);
      var outs := SharesOf(p, cfg, input, prevouts.value, r1, yes);
      forall i | 0 <= i < |outs| && outs[i].Ok? ensures Owned(cfg.id, outs[i].value) {
        ShareIsOwned(p, cfg, input, prevouts.value, r1, yes, Roster(r1.nonces)[i]);
      }
      SendEachBehaves(cfg.id, outs, AfterSigned(p, cfg, input, r1, k));
    }
  }

  lemma AfterRound2Behaves<KP, G, N, C, S, Sig(!new)>(
      p: Primitives<KP, G, N, C, S, Sig>, id: Utf8, draws: nat, k: OnBytes)
    requires BytesBehave(id, k)
    ensures SignatureBehaves(id, AfterRound2(p, draws, k))
  {
    forall res: Result<Sig, SessionError> ensures Behaves(id, AfterRound2(p, draws, k)(res)) {
      assert res.Err? ==> Behaves(id, k(Err(res.error), draws));
      assert res.Ok? ==> Behaves(id, k(SignatureBytes(p, res.value), draws));
    }
  }

  lemma SignInputScriptBehaves<KP, G, N(!new), C(!new), S, Sig(!new)>(
      p: Primitives<KP, G, N, C, S, Sig>, cfg: Config<KP, G>, selected: seq<Identifier>, yes: bool, input: nat, draws: nat, k: OnBytes)
    requires BytesBehave(cfg.id, k)
    ensures Behaves(cfg.id, SignInputScript(p, cfg, selected, yes, input, draws, k))
  {
    var after := AfterRound1(p, cfg, input, yes, k);
    forall res: Result<Round1<N, C>, SessionError>, d: nat ensures Behaves(cfg.id, after(res, d)) {
      if res.Ok? {
        AfterRound2Behaves(p, cfg.id, d, k);
        Round2ScriptBehaves(p, cfg, input, res.value, yes, AfterRound2(p, d, k));
      } else {
        assert Behaves(cfg.id, k(Err(res.error), d));
      }
    }
    Round1ScriptBehaves(p, cfg, input, selected, draws, after);
  }

  lemma {:induction false} InputsScriptBehaves<KP, G, N(!new), C(!new), S, Sig(!new)>(
      p: Primitives<KP, G, N, C, S, Sig>, cfg: Config<KP, G>, selected: seq<Identifier>, yes: bool, tx: Tx, input: nat, draws: nat)
    requires input <= |tx.inputs|
    ensures Behaves(cfg.id, InputsScript(p, cfg, selected, yes, tx, input, draws))
    decreases |tx.inputs| - input
  {
    if input == |tx.inputs| {
      BehavesReturn(cfg.id, Ok(tx));
    } else {
      var after := AfterInput(p, cfg, selected, yes, tx, input);
      forall res: Result<seq<byte>, SessionError>, d: nat ensures Behaves(cfg.id, after(res, d)) {
        if res.Ok? {
          InputsScriptBehaves(p, cfg, selected, yes, SetWitness(tx, input, res.value), input + 1, d);
        } else {
          BehavesReturn(cfg.id, Err(res.error));
        }
      }
      SignInputScriptBehaves(p, cfg, selected, yes, input, draws, after);
    }
  }

  /** Whatever it hears, the run publishes only envelopes of its own session and subscribes only through
      filters that show no others. */
  lemma RunScriptBehaves<KP, G, N(!new), C(!new), S, Sig(!new)>(
      p: Primitives<KP, G, N, C, S, Sig>, cfg: Config<KP, G>, spent: bool, yes: bool, draws: nat)
    ensures Behaves(cfg.id, RunScript(p, cfg, spent, yes, draws))
  {
    if spent {
      BehavesReturn(cfg.id, Err(Spent));
    } else {
      var after := AfterPoll(p, cfg, yes, draws);
      SessionFiltersSeeOwn(cfg.id, 0);
      forall heard ensures Behaves(cfg.id, after(heard)) {
        PollBehaves(p, cfg, yes, draws, heard);
      }
      BehavesAsk(cfg.id, LivenessFilter(cfg.id), after);
      forall i | 0 <= i < |Acks(cfg)| ensures Owned(cfg.id, Acks(cfg)[i]) {
        AcksExact(cfg, Acks(cfg)[i]);
      }
      SendAllBehaves(cfg.id, Acks(cfg), Ask(LivenessFilter(cfg.id), after));
    }
  }

  lemma PollBehaves<KP, G, N(!new), C(!new), S, Sig(!new)>(
      p: Primitives<KP, G, N, C, S, Sig>, cfg: Config<KP, G>, yes: bool, draws: nat, heard: seq<Envelope>)
    ensures Behaves(cfg.id, AfterPoll(p, cfg, yes, draws)(heard))
  {
    var selected := PollAndSelect(SortedIds(SenderIds(IdOfSeat(Roster(cfg.keyPackages)), heard)), cfg.t);
    if selected.Ok? {
      InputsScriptBehaves(p, cfg, selected.value, yes, cfg.psbt.unsigned, 0, draws);
    } else {
      BehavesReturn(cfg.id, Err(selected.error));
    }
  }

  // ---- the run is undisturbed ----

  /** `w` is a world in which the session is about to run and every session keeps to its own envelopes;
      `net` shows the session the same of its own envelopes. */
  ghost predicate AboutToRun<KP, G, N, C, S, Sig>(
      p: Primitives<KP, G, N, C, S, Sig>, cfg: Config<KP, G>, spent: bool, yes: bool, w: Shared, net: Net, universe: set<Envelope>)
  {
    && AllBehave(w) && CollisionFree(universe)
    && LooksSame(cfg.id, w, Shared(net.board, map[cfg.id := RunScript(p, cfg, spent, yes, net.draws)]), universe)
  }

  /** For every schedule of any number of sessions: whenever the run has returned, it has returned the
      transaction or the error that `RunSpec` returns with nobody else on the board, and its own
      envelopes on the shared board are those that `RunSpec` leaves. */
  lemma RunIsUndisturbed<KP, G, N(!new), C(!new), S, Sig(!new)>(
      p: Primitives<KP, G, N, C, S, Sig>, cfg: Config<KP, G>, spent: bool, yes: bool, w: Shared, net: Net,
      schedule: seq<Utf8>, universe: set<Envelope>)
    requires AboutToRun(p, cfg, spent, yes, w, net, universe)
    requires (forall i :: 0 <= i < |schedule| ==> schedule[i] in w.running) && ScheduleWithin(w, schedule, universe)
    requires Interleave(w, schedule).running[cfg.id].Return?
    ensures Interleave(w, schedule).running[cfg.id] == Return(RunSpec(p, cfg, spent, yes, net).0)
    ensures forall e :: Owned(cfg.id, e) ==>
      (OnBoard(Interleave(w, schedule).board, e) <==> OnBoard(RunSpec(p, cfg, spent, yes, net).1.board, e))
  {
    var script := RunScript(p, cfg, spent, yes, net.draws);
    var alone := Shared(net.board, map[cfg.id := script]);
    var mine := Only(schedule, cfg.id);
    SessionsDoNotInterfere(w, alone, schedule, cfg.id, universe);
    AloneIsSteps(alone, mine, cfg.id);
    RunScriptReaches(p, cfg, spent, yes, net);
    var (res, net') := RunSpec(p, cfg, spent, yes, net);
    var turns: nat :| Steps(net.board, script, turns) == (net'.board, Return(res));
    OneReturn(net.board, script, |mine|, turns);
  }

  lemma FinishedByThen(
      id: Utf8, script: Script, board: Board, end: Board, res: Result<Tx, SessionError>, turns: nat,
      w: Shared, schedule: seq<Utf8>, universe: set<Envelope>)
    requires Steps(board, script, turns) == (end, Return(res))
    requires AllBehave(w) && CollisionFree(universe) && LooksSame(id, w, Shared(board, map[id := script]), universe)
    requires (forall i :: 0 <= i < |schedule| ==> schedule[i] in w.running) && ScheduleWithin(w, schedule, universe)
    requires |Only(schedule, id)| >= turns
    ensures Interleave(w, schedule).running[id] == Return(res)
  {
    var alone, mine := Shared(board, map[id := script]), Only(schedule, id);
    SessionsDoNotInterfere(w, alone, schedule, id, universe);
    AloneIsSteps(alone, mine, id);
    StaysReturned(board, script, turns, |mine|, end, res);
  }

  lemma StaysReturned(b: Board, s: Script, turns: nat, more: nat, end: Board, res: Result<Tx, SessionError>)
    requires Steps(b, s, turns) == (end, Return(res)) && more >= turns
    ensures Steps(b, s, more) == (end, Return(res))
  {
    StepsAdd(b, s, turns, more - turns);
    StepsOfReturned(end, Return(res), more - turns);
  }

  /** And it does return: there is a number of turns after which it has, whatever the others do. */
  lemma RunFinishes<KP, G, N(!new), C(!new), S, Sig(!new)>(
      p: Primitives<KP, G, N, C, S, Sig>, cfg: Config<KP, G>, spent: bool, yes: bool, net: Net) returns (turns: nat)
    ensures forall w, schedule, universe ::
      && AboutToRun(p, cfg, spent, yes, w, net, universe)
      && (forall i :: 0 <= i < |schedule| ==> schedule[i] in w.running) && ScheduleWithin(w, schedule, universe)
      && |Only(schedule, cfg.id)| >= turns
      ==> Interleave(w, schedule).running[cfg.id] == Return(RunSpec(p, cfg, spent, yes, net).0)
  {
    RunScriptReaches(p, cfg, spent, yes, net);
    var script := RunScript(p, cfg, spent, yes, net.draws);
    var (res, net') := RunSpec(p, cfg, spent, yes, net);
    turns :| Steps(net.board, script, turns) == (net'.board, Return(res));
    forall w, schedule, universe |
      && AboutToRun(p, cfg, spent, yes, w, net, universe)
      && (forall i :: 0 <= i < |schedule| ==> schedule[i] in w.running) && ScheduleWithin(w, schedule, universe)
      && |Only(schedule, cfg.id)| >= turns
      ensures Interleave(w, schedule).running[cfg.id] == Return(res)
    {
      FinishedByThen(cfg.id, script, net.board, net'.board, res, turns, w, schedule, universe);
    }
  }
}
