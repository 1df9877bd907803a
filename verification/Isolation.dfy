/** A session's outcome depends on its own envelopes only: whatever other sessions have left on the
    board, it selects, collects, signs and returns the same. */
module Isolation {
  import opened Wrappers
  import opened Text
  import opened Envelopes
  import opened Transport
  import opened Frost
  import opened Session
  import opened SessionLaws
  import opened GateHistory
  import opened NonInterference

  /** Two worlds that differ at most in what other sessions have published. */
  ghost predicate Alike(id: Utf8, a: Net, b: Net, universe: set<Envelope>) {
    && a.draws == b.draws && a.events == b.events
    && WellKeyed(a.board) && BoardWithin(a.board, universe)
    && WellKeyed(b.board) && BoardWithin(b.board, universe)
    && forall e :: Owned(id, e) ==> (OnBoard(a.board, e) <==> OnBoard(b.board, e))
  }

  ghost predicate SameOut<A>(id: Utf8, x: (A, Net), y: (A, Net), universe: set<Envelope>) {
    x.0 == y.0 && Alike(id, x.1, y.1, universe)
  }

  /** What was sent lies in the universe. */
  ghost predicate SentWithin(events: seq<Event>, universe: set<Envelope>) {
    forall k :: 0 <= k < |events| && events[k].Sent? ==> events[k].envelope in universe
  }

  lemma SentBefore(early: seq<Event>, late: seq<Event>, universe: set<Envelope>)
    requires early <= late && SentWithin(late, universe)
    ensures SentWithin(early, universe)
  {
    assert forall k :: 0 <= k < |early| ==> early[k] == late[k];
  }

  lemma PublishAlike(id: Utf8, a: Net, b: Net, e: Envelope, universe: set<Envelope>)
    requires Alike(id, a, b, universe) && CollisionFree(universe) && e in universe
    ensures Alike(id, Publish(a, e), Publish(b, e), universe)
  {
    PostExact(a.board, e, universe);
    PostExact(b.board, e, universe);
  }

  /** Through a filter that shows only own envelopes both worlds look the same. */
  lemma FetchAlike(id: Utf8, a: Net, b: Net, f: Filter, universe: set<Envelope>)
    requires Alike(id, a, b, universe) && SeesOwn(id, f)
    ensures Fetch(a.board, f) == Fetch(b.board, f)
  {
    FetchDependsOnMatches(a.board, b.board, f);
  }

  lemma {:induction false} PublishAllAlike(id: Utf8, a: Net, b: Net, es: seq<Envelope>, universe: set<Envelope>)
    requires Alike(id, a, b, universe) && CollisionFree(universe) && SeqWithin(es, universe)
    ensures Alike(id, PublishAll(a, es), PublishAll(b, es), universe)
    decreases |es|
  {
    if es != [] {
      assert forall k :: 0 <= k < |es[1..]| ==> es[1..][k] == es[k + 1];
      PublishAlike(id, a, b, es[0], universe);
      PublishAllAlike(id, Publish(a, es[0]), Publish(b, es[0]), es[1..], universe);
    }
  }

  lemma LivenessAlike<KP, G>(cfg: Config<KP, G>, a: Net, b: Net, universe: set<Envelope>)
    requires Alike(cfg.id, a, b, universe) && CollisionFree(universe) && SeqWithin(Acks(cfg), universe)
    ensures SameOut(cfg.id, LivenessSpec(cfg, a), LivenessSpec(cfg, b), universe)
  {
    PublishAllAlike(cfg.id, a, b, Acks(cfg), universe);
    SessionFiltersSeeOwn(cfg.id, 0);
    FetchAlike(cfg.id, PublishAll(a, Acks(cfg)), PublishAll(b, Acks(cfg)), LivenessFilter(cfg.id), universe);
  }

  lemma CommitStepAlike<KP, G, N, C, S, Sig>(
      p: Primitives<KP, G, N, C, S, Sig>, cfg: Config<KP, G>, topic: Utf8, id: Identifier, a: Net, b: Net, universe: set<Envelope>)
    requires Alike(cfg.id, a, b, universe) && CollisionFree(universe)
    requires SentWithin(CommitStep(p, cfg, topic, id, a).1.events, universe)
    ensures SameOut(cfg.id, CommitStep(p, cfg, topic, id, a), CommitStep(p, cfg, topic, id, b), universe)
  {
    var a' := CommitStep(p, cfg, topic, id, a).1;
    if a'.events != a.events {
      var e := a'.events[|a.events|].envelope;
      PublishAlike(cfg.id, a.(draws := a.draws + 1), b.(draws := b.draws + 1), e, universe);
    }
  }

  lemma {:induction false} CommitLoopAlike<KP, G, N, C, S, Sig>(
      p: Primitives<KP, G, N, C, S, Sig>, cfg: Config<KP, G>, input: nat, selected: seq<Identifier>,
      a: Net, b: Net, acc: map<Identifier, Held<N>>, universe: set<Envelope>)
    requires Alike(cfg.id, a, b, universe) && CollisionFree(universe)
    requires SentWithin(CommitLoop(p, cfg, Topic(cfg.id, input), selected, a, acc).1.events, universe)
    ensures SameOut(cfg.id, CommitLoop(p, cfg, Topic(cfg.id, input), selected, a, acc),
                    CommitLoop(p, cfg, Topic(cfg.id, input), selected, b, acc), universe)
    decreases |selected|
  {
    if selected != [] {
      var topic := Topic(cfg.id, input);
      CommitLoopStep(p, cfg, topic, selected, a, acc);
      CommitLoopStep(p, cfg, topic, selected, b, acc);
      var (res, a') := CommitStep(p, cfg, topic, selected[0], a);
      var b' := CommitStep(p, cfg, topic, selected[0], b).1;
      if res.Ok? {
        var acc' := acc[selected[0] := res.value];
        CommitLoopGated(p, cfg, true, input, selected[1..], a', acc');
        SentBefore(a'.events, CommitLoop(p, cfg, topic, selected[1..], a', acc').1.events, universe);
        CommitStepAlike(p, cfg, topic, selected[0], a, b, universe);
        CommitLoopAlike(p, cfg, input, selected[1..], a', b', acc', universe);
      } else {
        CommitStepAlike(p, cfg, topic, selected[0], a, b, universe);
      }
    }
  }

  lemma Round1Alike<KP, G, N, C, S, Sig>(
      p: Primitives<KP, G, N, C, S, Sig>, cfg: Config<KP, G>, input: nat, selected: seq<Identifier>,
      a: Net, b: Net, universe: set<Envelope>)
    requires Alike(cfg.id, a, b, universe) && CollisionFree(universe)
    requires SentWithin(Round1Spec(p, cfg, input, selected, a).1.events, universe)
    ensures SameOut(cfg.id, Round1Spec(p, cfg, input, selected, a), Round1Spec(p, cfg, input, selected, b), universe)
  {
    if Sighash(p, cfg.psbt, input).Ok? {
      var topic := Topic(cfg.id, input);
      CommitLoopAlike(p, cfg, input, selected, a, b, map[], universe);
      SessionFiltersSeeOwn(cfg.id, input);
      FetchAlike(cfg.id, CommitLoop(p, cfg, topic, selected, a, map[]).1, CommitLoop(p, cfg, topic, selected, b, map[]).1,
                 CommitmentFilter(topic), universe);
    }
  }

  lemma SignStepAlike<KP, G, N, C, S, Sig>(
      p: Primitives<KP, G, N, C, S, Sig>, cfg: Config<KP, G>, input: nat, prevouts: seq<TxOut>, r1: Round1<N, C>,
      yes: bool, id: Identifier, a: Net, b: Net, universe: set<Envelope>)
    requires id in r1.nonces && Alike(cfg.id, a, b, universe) && CollisionFree(universe)
    requires SentWithin(SignStep(p, cfg, input, prevouts, r1, yes, id, a).1.events, universe)
    ensures SameOut(cfg.id, SignStep(p, cfg, input, prevouts, r1, yes, id, a),
                    SignStep(p, cfg, input, prevouts, r1, yes, id, b), universe)
  {
    var a' := SignStep(p, cfg, input, prevouts, r1, yes, id, a).1;
    var log := a.events + [Gate(id, input, r1.package.message), SignedWith(r1.nonces[id].draw, r1.package.message)];
    if a'.events != a.events && a'.events != log {
      var e := a'.events[|a.events| + 2].envelope;
      PublishAlike(cfg.id, a.(events := log), b.(events := log), e, universe);
    }
  }

  /** A step that keeps worlds alike and only adds to the log. */
  ghost predicate StepAlike(id: Utf8, step: NetStep, universe: set<Envelope>) {
    && (forall j: nat, x: Net :: x.events <= step(j, x).1.events)
    && forall j: nat, x: Net, y: Net :: Alike(id, x, y, universe) && SentWithin(step(j, x).1.events, universe) ==>
         SameOut(id, step(j, x), step(j, y), universe)
  }

  lemma {:induction false} LoopExtends(id: Utf8, step: NetStep, i: nat, n: nat, a: Net, universe: set<Envelope>)
    requires i <= n && StepAlike(id, step, universe)
    ensures a.events <= Loop(step, i, n, a).1.events
    decreases n - i
  {
    if i < n && step(i, a).0.Ok? {
      LoopExtends(id, step, i + 1, n, step(i, a).1, universe);
    }
  }

  lemma {:induction false} LoopAlike(
      id: Utf8, step: NetStep, i: nat, n: nat, a: Net, b: Net, universe: set<Envelope>)
    requires i <= n && StepAlike(id, step, universe) && Alike(id, a, b, universe)
    requires SentWithin(Loop(step, i, n, a).1.events, universe)
    ensures SameOut(id, Loop(step, i, n, a), Loop(step, i, n, b), universe)
    decreases n - i
  {
    if i < n {
      var x, y := step(i, a), step(i, b);
      if x.0.Ok? {
        LoopExtends(id, step, i + 1, n, x.1, universe);
        SentBefore(x.1.events, Loop(step, i + 1, n, x.1).1.events, universe);
        assert SameOut(id, x, y, universe);
        LoopAlike(id, step, i + 1, n, x.1, y.1, universe);
      }
    }
  }

  lemma SignLoopAlike<KP, G, N, C, S, Sig>(
      p: Primitives<KP, G, N, C, S, Sig>, cfg: Config<KP, G>, input: nat, prevouts: seq<TxOut>, r1: Round1<N, C>, yes: bool, i: nat,
      a: Net, b: Net, universe: set<Envelope>)
    requires i <= |Roster(r1.nonces)| && Prevouts(cfg.psbt) == Ok(prevouts)
    requires Alike(cfg.id, a, b, universe) && CollisionFree(universe)
    requires SentWithin(SignLoop(p, cfg, input, prevouts, r1, yes, i, a).1.events, universe)
    ensures SameOut(cfg.id, SignLoop(p, cfg, input, prevouts, r1, yes, i, a),
                    SignLoop(p, cfg, input, prevouts, r1, yes, i, b), universe)
  {
    var step := SignStepAt(p, cfg, input, prevouts, r1, yes);
    SignLoopIsLoop(p, cfg, input, prevouts, r1, yes, i, a);
    SignLoopIsLoop(p, cfg, input, prevouts, r1, yes, i, b);
    forall j: nat, x: Net ensures x.events <= step(j, x).1.events {
      if j < |Roster(r1.nonces)| {
        SignStepGated(p, cfg, input, prevouts, r1, yes, Roster(r1.nonces)[j], x);
      }
    }
    forall j: nat, x: Net, y: Net | Alike(cfg.id, x, y, universe) && SentWithin(step(j, x).1.events, universe)
      ensures SameOut(cfg.id, step(j, x), step(j, y), universe)
    {
      if j < |Roster(r1.nonces)| {
        SignStepAlike(p, cfg, input, prevouts, r1, yes, Roster(r1.nonces)[j], x, y, universe);
      }
    }
    LoopAlike(cfg.id, step, i, |Roster(r1.nonces)|, a, b, universe);
  }

  lemma Round2Alike<KP, G, N, C, S, Sig>(
      p: Primitives<KP, G, N, C, S, Sig>, cfg: Config<KP, G>, input: nat, r1: Round1<N, C>, yes: bool,
      a: Net, b: Net, universe: set<Envelope>)
    requires Alike(cfg.id, a, b, universe) && CollisionFree(universe)
    requires SentWithin(Round2Spec(p, cfg, input, r1, yes, a).1.events, universe)
    ensures SameOut(cfg.id, Round2Spec(p, cfg, input, r1, yes, a), Round2Spec(p, cfg, input, r1, yes, b), universe)
  {
    if Prevouts(cfg.psbt).Ok? {
      var prevouts := Prevouts(cfg.psbt).value;
      var a', b' := SignLoop(p, cfg, input, prevouts, r1, yes, 0, a), SignLoop(p, cfg, input, prevouts, r1, yes, 0, b);
      SignLoopAlike(p, cfg, input, prevouts, r1, yes, 0, a, b, universe);
      SessionFiltersSeeOwn(cfg.id, input);
      FetchAlike(cfg.id, a'.1, b'.1, ShareFilter(Topic(cfg.id, input)), universe);
    }
  }

  lemma SignInputAlike<KP, G, N, C, S, Sig>(
      p: Primitives<KP, G, N, C, S, Sig>, cfg: Config<KP, G>, selected: seq<Identifier>, yes: bool, input: nat,
      a: Net, b: Net, universe: set<Envelope>)
    requires Alike(cfg.id, a, b, universe) && CollisionFree(universe)
    requires SentWithin(SignInput(p, cfg, selected, yes, input, a).1.events, universe)
    ensures SameOut(cfg.id, SignInput(p, cfg, selected, yes, input, a), SignInput(p, cfg, selected, yes, input, b), universe)
  {
    var (r1, a') := Round1Spec(p, cfg, input, selected, a);
    var b' := Round1Spec(p, cfg, input, selected, b).1;
    if r1.Ok? {
      Round2Gated(p, cfg, input, r1.value, yes, a');
      SentBefore(a'.events, Round2Spec(p, cfg, input, r1.value, yes, a').1.events, universe);
      Round1Alike(p, cfg, input, selected, a, b, universe);
      Round2Alike(p, cfg, input, r1.value, yes, a', b', universe);
    } else {
      Round1Alike(p, cfg, input, selected, a, b, universe);
    }
  }

  lemma {:induction false} RunInputsAlike<KP, G, N, C, S, Sig>(
      p: Primitives<KP, G, N, C, S, Sig>, cfg: Config<KP, G>, selected: seq<Identifier>, yes: bool, tx: Tx, input: nat,
      a: Net, b: Net, universe: set<Envelope>)
    requires input <= |tx.inputs| && Alike(cfg.id, a, b, universe) && CollisionFree(universe)
    requires SentWithin(RunInputs(p, cfg, selected, yes, tx, input, a).1.events, universe)
    ensures SameOut(cfg.id, RunInputs(p, cfg, selected, yes, tx, input, a), RunInputs(p, cfg, selected, yes, tx, input, b), universe)
    decreases |tx.inputs| - input
  {
    if input < |tx.inputs| {
      RunInputsStep(p, cfg, selected, yes, tx, input, a);
      RunInputsStep(p, cfg, selected, yes, tx, input, b);
      var (bytes, a') := SignInput(p, cfg, selected, yes, input, a);
      var b' := SignInput(p, cfg, selected, yes, input, b).1;
      if bytes.Ok? {
        var tx' := SetWitness(tx, input, bytes.value);
        RunInputsGated(p, cfg, selected, yes, tx', input + 1, a');
        SentBefore(a'.events, RunInputs(p, cfg, selected, yes, tx', input + 1, a').1.events, universe);
        SignInputAlike(p, cfg, selected, yes, input, a, b, universe);
        RunInputsAlike(p, cfg, selected, yes, tx', input + 1, a', b', universe);
      } else {
        SignInputAlike(p, cfg, selected, yes, input, a, b, universe);
      }
    }
  }

  /** Isolation: a whole run returns the same transaction or the same error, draws the same nonces and
      sends the same envelopes, whatever other sessions have put on the board. */
  lemma RunIgnoresOthers<KP, G, N, C, S, Sig>(
      p: Primitives<KP, G, N, C, S, Sig>, cfg: Config<KP, G>, spent: bool, yes: bool, a: Net, b: Net, universe: set<Envelope>)
    requires Alike(cfg.id, a, b, universe) && CollisionFree(universe) && SeqWithin(Acks(cfg), universe)
    requires SentWithin(RunSpec(p, cfg, spent, yes, a).1.events, universe)
    ensures SameOut(cfg.id, RunSpec(p, cfg, spent, yes, a), RunSpec(p, cfg, spent, yes, b), universe)
  {
    if !spent {
      LivenessAlike(cfg, a, b, universe);
      var (selected, a') := LivenessSpec(cfg, a);
      var b' := LivenessSpec(cfg, b).1;
      if selected.Ok? {
        RunInputsAlike(p, cfg, selected.value, yes, cfg.psbt.unsigned, 0, a', b', universe);
      }
    }
  }
}
