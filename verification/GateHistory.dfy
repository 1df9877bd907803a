/** The display-before-sign gate over whole runs: no share leaves a session that its gate did not
    clear first, and a session sends nothing but its own envelopes. */
module GateHistory {
  import opened Wrappers
  import opened Text
  import opened Envelopes
  import opened Frost
  import opened Session
  import opened SessionLaws

  /** What the event at position `k` of a session's history says about the ones before it. */
  ghost predicate InOrder<KP, G, N, C, S, Sig>(
      p: Primitives<KP, G, N, C, S, Sig>, cfg: Config<KP, G>, yes: bool, events: seq<Event>, from: nat, k: nat)
    requires k < |events|
  {
    match events[k]
    case Gate(id, input, message) =>
      yes && IsSighash(p, cfg.psbt, input, message)
    case SignedWith(_, message) =>
      k >= from + 1 && events[k - 1].Gate? && events[k - 1].message == message
    case Sent(e) =>
      && Owned(cfg.id, e)
      && (e.class_ == SignatureShare ==>
        && k >= from + 2 && events[k - 1].SignedWith? && events[k - 2].Gate?
        && e.session == Topic(cfg.id, events[k - 2].input)
        && events[k - 2].id in SeatOfId(Roster(cfg.keyPackages))
        && e.seat == SeatOfId(Roster(cfg.keyPackages))[events[k - 2].id])
  }

  /** `after` extends `before` by events that respect the gate. */
  ghost predicate Gated<KP, G, N, C, S, Sig>(
      p: Primitives<KP, G, N, C, S, Sig>, cfg: Config<KP, G>, yes: bool, before: seq<Event>, after: seq<Event>)
  {
    before <= after && forall k :: |before| <= k < |after| ==> InOrder(p, cfg, yes, after, |before|, k)
  }

  lemma InOrderStays<KP, G, N, C, S, Sig>(
      p: Primitives<KP, G, N, C, S, Sig>, cfg: Config<KP, G>, yes: bool, early: seq<Event>, late: seq<Event>, from: nat, k: nat)
    requires k < |early| && early <= late && InOrder(p, cfg, yes, early, from, k)
    ensures InOrder(p, cfg, yes, late, from, k)
  {
    assert late[k] == early[k];
    assert k >= 1 ==> late[k - 1] == early[k - 1];
    assert k >= 2 ==> late[k - 2] == early[k - 2];
  }

  lemma GatedTrans<KP, G, N, C, S, Sig>(
      p: Primitives<KP, G, N, C, S, Sig>, cfg: Config<KP, G>, yes: bool, a: seq<Event>, b: seq<Event>, c: seq<Event>)
    requires Gated(p, cfg, yes, a, b) && Gated(p, cfg, yes, b, c)
    ensures Gated(p, cfg, yes, a, c)
  {
    forall k | |a| <= k < |c| ensures InOrder(p, cfg, yes, c, |a|, k) {
      if k < |b| {
        InOrderStays(p, cfg, yes, b, c, |a|, k);
      } else {
        assert InOrder(p, cfg, yes, c, |b|, k);
      }
    }
  }

  lemma SendingIsGated<KP, G, N, C, S, Sig>(
      p: Primitives<KP, G, N, C, S, Sig>, cfg: Config<KP, G>, yes: bool, events: seq<Event>, e: Envelope)
    requires e.class_ != SignatureShare && Owned(cfg.id, e)
    ensures Gated(p, cfg, yes, events, events + [Sent(e)])
  {
  }

  lemma {:induction false} PublishAllGated<KP, G, N, C, S, Sig>(
      p: Primitives<KP, G, N, C, S, Sig>, cfg: Config<KP, G>, yes: bool, net: Net, es: seq<Envelope>)
    requires forall i :: 0 <= i < |es| ==> es[i].class_ != SignatureShare && Owned(cfg.id, es[i])
    ensures Gated(p, cfg, yes, net.events, PublishAll(net, es).events)
    decreases |es|
  {
    if es != [] {
      var next := Publish(net, es[0]);
      SendingIsGated(p, cfg, yes, net.events, es[0]);
      PublishAllGated(p, cfg, yes, next, es[1..]);
      GatedTrans(p, cfg, yes, net.events, next.events, PublishAll(net, es).events);
    }
  }

  lemma CommitStepGated<KP, G, N, C, S, Sig>(
      p: Primitives<KP, G, N, C, S, Sig>, cfg: Config<KP, G>, yes: bool, input: nat, id: Identifier, net: Net)
    ensures Gated(p, cfg, yes, net.events, CommitStep(p, cfg, Topic(cfg.id, input), id, net).1.events)
  {
    var net' := CommitStep(p, cfg, Topic(cfg.id, input), id, net).1;
    if net'.events != net.events {
      SendingIsGated(p, cfg, yes, net.events, net'.events[|net.events|].envelope);
    }
  }

  lemma {:induction false} CommitLoopGated<KP, G, N, C, S, Sig>(
      p: Primitives<KP, G, N, C, S, Sig>, cfg: Config<KP, G>, yes: bool, input: nat, selected: seq<Identifier>,
      net: Net, acc: map<Identifier, Held<N>>)
    ensures Gated(p, cfg, yes, net.events, CommitLoop(p, cfg, Topic(cfg.id, input), selected, net, acc).1.events)
    decreases |selected|
  {
    if selected != [] {
      var topic := Topic(cfg.id, input);
      CommitStepGated(p, cfg, yes, input, selected[0], net);
      var (res, net') := CommitStep(p, cfg, topic, selected[0], net);
      if res.Ok? {
        var acc' := acc[selected[0] := res.value];
        CommitLoopGated(p, cfg, yes, input, selected[1..], net', acc');
        GatedTrans(p, cfg, yes, net.events, net'.events, CommitLoop(p, cfg, topic, selected[1..], net', acc').1.events);
      }
    }
  }

  /** One signer without a publication: gate, then signature. */
  lemma SigningIsGated<KP, G, N, C, S, Sig>(
      p: Primitives<KP, G, N, C, S, Sig>, cfg: Config<KP, G>, yes: bool, before: seq<Event>, after: seq<Event>,
      id: Identifier, input: nat, message: seq<byte>, draw: nat)
    requires yes && IsSighash(p, cfg.psbt, input, message)
    requires after == before + [Gate(id, input, message), SignedWith(draw, message)]
    ensures Gated(p, cfg, yes, before, after)
  {
    var n := |before|;
    assert after[n] == Gate(id, input, message) && after[n + 1] == SignedWith(draw, message);
    assert InOrder(p, cfg, yes, after, n, n) && InOrder(p, cfg, yes, after, n, n + 1);
  }

  /** The publication that follows. */
  lemma SharingIsGated<KP, G, N, C, S, Sig>(
      p: Primitives<KP, G, N, C, S, Sig>, cfg: Config<KP, G>, yes: bool, before: seq<Event>, signed: seq<Event>, after: seq<Event>,
      id: Identifier, input: nat, message: seq<byte>, draw: nat, e: Envelope)
    requires signed == before + [Gate(id, input, message), SignedWith(draw, message)]
    requires Gated(p, cfg, yes, before, signed) && after == signed + [Sent(e)]
    requires Owned(cfg.id, e) && e.session == Topic(cfg.id, input)
    requires id in SeatOfId(Roster(cfg.keyPackages)) && e.seat == SeatOfId(Roster(cfg.keyPackages))[id]
    ensures Gated(p, cfg, yes, before, after)
  {
    var n := |before|;
    assert signed <= after && before <= after && |after| == n + 3;
    InOrderStays(p, cfg, yes, signed, after, n, n);
    InOrderStays(p, cfg, yes, signed, after, n, n + 1);
    ShareIsInOrder(p, cfg, yes, after, n, id, input, message, draw, e);
    ThreeAreGated(p, cfg, yes, before, after);
  }

  lemma ThreeAreGated<KP, G, N, C, S, Sig>(
      p: Primitives<KP, G, N, C, S, Sig>, cfg: Config<KP, G>, yes: bool, before: seq<Event>, after: seq<Event>)
    requires before <= after && |after| == |before| + 3
    requires InOrder(p, cfg, yes, after, |before|, |before|) && InOrder(p, cfg, yes, after, |before|, |before| + 1)
    requires InOrder(p, cfg, yes, after, |before|, |before| + 2)
    ensures Gated(p, cfg, yes, before, after)
  {
  }

  lemma ShareIsInOrder<KP, G, N, C, S, Sig>(
      p: Primitives<KP, G, N, C, S, Sig>, cfg: Config<KP, G>, yes: bool, after: seq<Event>, n: nat,
      id: Identifier, input: nat, message: seq<byte>, draw: nat, e: Envelope)
    requires |after| == n + 3
    requires after[n] == Gate(id, input, message) && after[n + 1] == SignedWith(draw, message) && after[n + 2] == Sent(e)
    requires Owned(cfg.id, e) && e.session == Topic(cfg.id, input)
    requires id in SeatOfId(Roster(cfg.keyPackages)) && e.seat == SeatOfId(Roster(cfg.keyPackages))[id]
    ensures InOrder(p, cfg, yes, after, n, n + 2)
  {
  }

  lemma SignStepGated<KP, G, N, C, S, Sig>(
      p: Primitives<KP, G, N, C, S, Sig>, cfg: Config<KP, G>, input: nat, prevouts: seq<TxOut>, r1: Round1<N, C>,
      yes: bool, id: Identifier, net: Net)
    requires id in r1.nonces && Prevouts(cfg.psbt) == Ok(prevouts)
    ensures Gated(p, cfg, yes, net.events, SignStep(p, cfg, input, prevouts, r1, yes, id, net).1.events)
  {
    var net' := SignStep(p, cfg, input, prevouts, r1, yes, id, net).1;
    var message, draw := r1.package.message, r1.nonces[id].draw;
    var signed := net.events + [Gate(id, input, message), SignedWith(draw, message)];
    if net'.events != net.events {
      SighashExact(p, cfg.psbt, input, message);
      SigningIsGated(p, cfg, yes, net.events, signed, id, input, message, draw);
      if net'.events != signed {
        var e := net'.events[|signed|].envelope;
        SharingIsGated(p, cfg, yes, net.events, signed, net'.events, id, input, message, draw, e);
      }
    }
  }

  lemma {:induction false} LoopGated<KP, G, N, C, S, Sig>(
      p: Primitives<KP, G, N, C, S, Sig>, cfg: Config<KP, G>, yes: bool,
      step: NetStep, i: nat, n: nat, net: Net)
    requires i <= n && forall j: nat, x: Net :: Gated(p, cfg, yes, x.events, step(j, x).1.events)
    ensures Gated(p, cfg, yes, net.events, Loop(step, i, n, net).1.events)
    decreases n - i
  {
    if i < n && step(i, net).0.Ok? {
      var next := step(i, net).1;
      LoopGated(p, cfg, yes, step, i + 1, n, next);
      GatedTrans(p, cfg, yes, net.events, next.events, Loop(step, i + 1, n, next).1.events);
    }
  }

  lemma SignLoopGated<KP, G, N, C, S, Sig>(
      p: Primitives<KP, G, N, C, S, Sig>, cfg: Config<KP, G>, input: nat, prevouts: seq<TxOut>, r1: Round1<N, C>,
      yes: bool, i: nat, net: Net)
    requires i <= |Roster(r1.nonces)| && Prevouts(cfg.psbt) == Ok(prevouts)
    ensures Gated(p, cfg, yes, net.events, SignLoop(p, cfg, input, prevouts, r1, yes, i, net).1.events)
  {
    var step := SignStepAt(p, cfg, input, prevouts, r1, yes);
    SignLoopIsLoop(p, cfg, input, prevouts, r1, yes, i, net);
    forall j: nat, x: Net ensures Gated(p, cfg, yes, x.events, step(j, x).1.events) {
      if j < |Roster(r1.nonces)| {
        SignStepGated(p, cfg, input, prevouts, r1, yes, Roster(r1.nonces)[j], x);
      }
    }
    LoopGated(p, cfg, yes, step, i, |Roster(r1.nonces)|, net);
  }

  lemma Round1Gated<KP, G, N, C, S, Sig>(
      p: Primitives<KP, G, N, C, S, Sig>, cfg: Config<KP, G>, yes: bool, input: nat, selected: seq<Identifier>, net: Net)
    ensures Gated(p, cfg, yes, net.events, Round1Spec(p, cfg, input, selected, net).1.events)
  {
    CommitLoopGated(p, cfg, yes, input, selected, net, map[]);
  }

  /** Every share a second round publishes was cleared by a gate that recomputed the package's
      message and had the acknowledgement. */
  lemma Round2Gated<KP, G, N, C, S, Sig>(
      p: Primitives<KP, G, N, C, S, Sig>, cfg: Config<KP, G>, input: nat, r1: Round1<N, C>, yes: bool, net: Net)
    ensures Gated(p, cfg, yes, net.events, Round2Spec(p, cfg, input, r1, yes, net).1.events)
  {
    if Prevouts(cfg.psbt).Ok? {
      SignLoopGated(p, cfg, input, Prevouts(cfg.psbt).value, r1, yes, 0, net);
    }
  }

  lemma SignInputGated<KP, G, N, C, S, Sig>(
      p: Primitives<KP, G, N, C, S, Sig>, cfg: Config<KP, G>, selected: seq<Identifier>, yes: bool, input: nat, net: Net)
    ensures Gated(p, cfg, yes, net.events, SignInput(p, cfg, selected, yes, input, net).1.events)
  {
    Round1Gated(p, cfg, yes, input, selected, net);
    var (r1, net') := Round1Spec(p, cfg, input, selected, net);
    if r1.Ok? {
      Round2Gated(p, cfg, input, r1.value, yes, net');
      GatedTrans(p, cfg, yes, net.events, net'.events, Round2Spec(p, cfg, input, r1.value, yes, net').1.events);
    }
  }

  lemma {:induction false} RunInputsGated<KP, G, N, C, S, Sig>(
      p: Primitives<KP, G, N, C, S, Sig>, cfg: Config<KP, G>, selected: seq<Identifier>, yes: bool,
      tx: Tx, input: nat, net: Net)
    requires input <= |tx.inputs|
    ensures Gated(p, cfg, yes, net.events, RunInputs(p, cfg, selected, yes, tx, input, net).1.events)
    decreases |tx.inputs| - input
  {
    if input < |tx.inputs| {
      SignInputGated(p, cfg, selected, yes, input, net);
      var (bytes, net') := SignInput(p, cfg, selected, yes, input, net);
      if bytes.Ok? {
        var tx' := SetWitness(tx, input, bytes.value);
        RunInputsGated(p, cfg, selected, yes, tx', input + 1, net');
        GatedTrans(p, cfg, yes, net.events, net'.events, RunInputs(p, cfg, selected, yes, tx', input + 1, net').1.events);
      }
    }
  }

  /** The same for a whole run, whatever is on the board and however it ends. */
  lemma RunGated<KP, G, N, C, S, Sig>(
      p: Primitives<KP, G, N, C, S, Sig>, cfg: Config<KP, G>, spent: bool, yes: bool, net: Net)
    ensures Gated(p, cfg, yes, net.events, RunSpec(p, cfg, spent, yes, net).1.events)
  {
    if !spent {
      forall i | 0 <= i < |Acks(cfg)| ensures Acks(cfg)[i].class_ != SignatureShare && Owned(cfg.id, Acks(cfg)[i]) {
        AcksExact(cfg, Acks(cfg)[i]);
      }
      PublishAllGated(p, cfg, yes, net, Acks(cfg));
      var (selected, net') := LivenessSpec(cfg, net);
      if selected.Ok? {
        RunInputsGated(p, cfg, selected.value, yes, cfg.psbt.unsigned, 0, net');
        GatedTrans(p, cfg, yes, net.events, net'.events,
                   RunInputs(p, cfg, selected.value, yes, cfg.psbt.unsigned, 0, net').1.events);
      }
    }
  }

  /** Without the acknowledgement a run signs nothing and publishes no share. */
  lemma NoAckNoShare<KP, G, N, C, S, Sig>(
      p: Primitives<KP, G, N, C, S, Sig>, cfg: Config<KP, G>, spent: bool, net: Net, k: nat)
    requires |net.events| <= k < |RunSpec(p, cfg, spent, false, net).1.events|
    ensures var event := RunSpec(p, cfg, spent, false, net).1.events[k];
      !event.SignedWith? && (event.Sent? ==> event.envelope.class_ != SignatureShare)
  {
    RunGated(p, cfg, spent, false, net);
    var events := RunSpec(p, cfg, spent, false, net).1.events;
    forall j | |net.events| <= j < |events| ensures !events[j].Gate? {
      assert InOrder(p, cfg, false, events, |net.events|, j);
    }
    assert InOrder(p, cfg, false, events, |net.events|, k);
  }
  // ---- what a missing acknowledgement is reported as ----

  lemma {:induction false} CommitLoopHolds<KP, G, N, C, S, Sig>(
      p: Primitives<KP, G, N, C, S, Sig>, cfg: Config<KP, G>, topic: Utf8, selected: seq<Identifier>,
      net: Net, acc: map<Identifier, Held<N>>, id: Identifier)
    requires CommitLoop(p, cfg, topic, selected, net, acc).0.Ok?
    ensures id in selected || id in acc ==> id in CommitLoop(p, cfg, topic, selected, net, acc).0.value
    decreases |selected|
  {
    if selected != [] {
      CommitLoopStep(p, cfg, topic, selected, net, acc);
      var (res, net') := CommitStep(p, cfg, topic, selected[0], net);
      CommitLoopHolds(p, cfg, topic, selected[1..], net', acc[selected[0] := res.value], id);
    }
  }

  lemma Round1Holds<KP, G, N, C, S, Sig>(
      p: Primitives<KP, G, N, C, S, Sig>, cfg: Config<KP, G>, input: nat, selected: seq<Identifier>, net: Net, id: Identifier)
    requires Round1Spec(p, cfg, input, selected, net).0.Ok? && id in selected
    ensures id in Round1Spec(p, cfg, input, selected, net).0.value.nonces
  {
    CommitLoopHolds(p, cfg, Topic(cfg.id, input), selected, net, map[], id);
  }

  /** A signer that would have signed reports the missing acknowledgement, and nothing happens. */
  lemma StepWithoutAck<KP, G, N, C, S, Sig>(
      p: Primitives<KP, G, N, C, S, Sig>, cfg: Config<KP, G>, input: nat, prevouts: seq<TxOut>, r1: Round1<N, C>,
      id: Identifier, net: Net)
    requires id in r1.nonces && SignStep(p, cfg, input, prevouts, r1, true, id, net).0.Ok?
    ensures SignStep(p, cfg, input, prevouts, r1, false, id, net) == (Err(Display(AckRequired)), net)
  {
  }

  lemma Round2WithoutAck<KP, G, N, C, S, Sig>(
      p: Primitives<KP, G, N, C, S, Sig>, cfg: Config<KP, G>, input: nat, r1: Round1<N, C>, net: Net, id: Identifier)
    requires Round2Spec(p, cfg, input, r1, true, net).0.Ok? && id in r1.nonces
    ensures Round2Spec(p, cfg, input, r1, false, net) == (Err(Display(AckRequired)), net)
  {
    var prevouts, ids := Prevouts(cfg.psbt).value, Roster(r1.nonces);
    assert id in ids;
    SignLoopStep(p, cfg, input, prevouts, r1, true, 0, net);
    SignLoopStep(p, cfg, input, prevouts, r1, false, 0, net);
    StepWithoutAck(p, cfg, input, prevouts, r1, ids[0], net);
  }

  /** A run that signs at least one input with the acknowledgement ends, without it, with exactly the
      error that asks for it. */
  lemma WithoutAckIsAsked<KP, G, N, C, S, Sig>(
      p: Primitives<KP, G, N, C, S, Sig>, cfg: Config<KP, G>, net: Net)
    requires RunSpec(p, cfg, false, true, net).0.Ok? && cfg.t > 0 && |cfg.psbt.unsigned.inputs| > 0
    ensures RunSpec(p, cfg, false, false, net).0 == Err(Display(AckRequired))
  {
    var (selected, net') := LivenessSpec(cfg, net);
    var sel, tx := selected.value, cfg.psbt.unsigned;
    LivenessSound(cfg, net);
    RunInputsStep(p, cfg, sel, true, tx, 0, net');
    RunInputsStep(p, cfg, sel, false, tx, 0, net');
    InputWithoutAck(p, cfg, sel, 0, net');
  }

  lemma InputWithoutAck<KP, G, N, C, S, Sig>(
      p: Primitives<KP, G, N, C, S, Sig>, cfg: Config<KP, G>, sel: seq<Identifier>, input: nat, net: Net)
    requires SignInput(p, cfg, sel, true, input, net).0.Ok? && sel != []
    ensures SignInput(p, cfg, sel, false, input, net).0 == Err(Display(AckRequired))
  {
    var (r1, net') := Round1Spec(p, cfg, input, sel, net);
    Round1Holds(p, cfg, input, sel, net, sel[0]);
    InputIsRounds(p, cfg, sel, true, input, net, r1.value, net');
    InputIsRounds(p, cfg, sel, false, input, net, r1.value, net');
    Round2WithoutAck(p, cfg, input, r1.value, net', sel[0]);
  }

  lemma InputIsRounds<KP, G, N, C, S, Sig>(
      p: Primitives<KP, G, N, C, S, Sig>, cfg: Config<KP, G>, sel: seq<Identifier>, yes: bool, input: nat, net: Net,
      r1: Round1<N, C>, net': Net)
    requires Round1Spec(p, cfg, input, sel, net) == (Ok(r1), net')
    ensures SignInput(p, cfg, sel, yes, input, net).0 ==
      match Round2Spec(p, cfg, input, r1, yes, net').0 { case Err(e) => Err(e) case Ok(sig) => SignatureBytes(p, sig) }
  {
  }
}
