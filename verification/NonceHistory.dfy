/** Nonces and gates over every history of session calls.

    A `Round1` value is moved, never copied: the world owns the values handed out so far and a
    second round removes the one it consumes. Draws from the generator identify nonces. */
module NonceHistory {
  import opened Text
  import opened Envelopes
  import opened Transport
  import opened Frost
  import opened Session
  import opened SessionLaws

  // ---- histories of calls ----

  /** Calls on any number of sessions that share the board and the generator. Session numbers
      identify session objects; `Take` is a caller that lets a `Round1` drop. */
  datatype Call<KP, G> =
    | Liveness(cfg: Config<KP, G>)
    | First(cfg: Config<KP, G>, input: nat, selected: seq<Identifier>)
    | Second(cfg: Config<KP, G>, input: nat, which: nat, yes: bool)
    | Whole(session: nat, cfg: Config<KP, G>, yes: bool)
    | Drop(which: nat)

  datatype World<N, C> = World(net: Net, held: seq<Round1<N, C>>, spent: set<nat>)

  function Without<A>(xs: seq<A>, i: nat): seq<A>
    requires i < |xs|
  {
    xs[..i] + xs[i + 1..]
  }

  function Step<KP, G, N, C, S, Sig>(p: Primitives<KP, G, N, C, S, Sig>, w: World<N, C>, call: Call<KP, G>): World<N, C> {
    match call
    case Liveness(cfg) => w.(net := LivenessSpec(cfg, w.net).1)
    case First(cfg, input, selected) =>
      var (res, net') := Round1Spec(p, cfg, input, selected, w.net);
      w.(net := net', held := if res.Ok? then w.held + [res.value] else w.held)
    case Second(cfg, input, which, yes) =>
      if which < |w.held| then
        w.(net := Round2Spec(p, cfg, input, w.held[which], yes, w.net).1, held := Without(w.held, which))
      else w
    case Whole(session, cfg, yes) =>
      var (res, net') := RunSpec(p, cfg, session in w.spent, yes, w.net);
      w.(net := net', spent := if res.Ok? then w.spent + {session} else w.spent)
    case Drop(which) => if which < |w.held| then w.(held := Without(w.held, which)) else w
  }

  function Replay<KP, G, N, C, S, Sig>(p: Primitives<KP, G, N, C, S, Sig>, w: World<N, C>, calls: seq<Call<KP, G>>): World<N, C>
    decreases |calls|
  {
    if calls == [] then w else Replay(p, Step(p, w, calls[0]), calls[1..])
  }

  // ---- how often a nonce was signed with ----

  function Uses(events: seq<Event>, draw: nat): nat {
    if events == [] then 0 else
      Uses(events[..|events| - 1], draw) +
      if events[|events| - 1].SignedWith? && events[|events| - 1].draw == draw then 1 else 0
  }

  lemma UsesSnoc(events: seq<Event>, e: Event, draw: nat)
    ensures Uses(events + [e], draw) == Uses(events, draw) + if e.SignedWith? && e.draw == draw then 1 else 0
  {
    assert (events + [e])[..|events|] == events;
  }

  /** Every draw was used at most once, and none that was not taken yet. */
  ghost predicate UsedOnce(net: Net) {
    forall d: nat :: Uses(net.events, d) <= if d < net.draws then 1 else 0
  }

  /** The nonces of one `Round1` come from different draws, all taken and none used. */
  ghost predicate FreshNonces<N, C>(net: Net, r1: Round1<N, C>) {
    && (forall id :: id in r1.nonces ==> r1.nonces[id].draw < net.draws && Uses(net.events, r1.nonces[id].draw) == 0)
    && forall id, other :: id in r1.nonces && other in r1.nonces && id != other ==> r1.nonces[id].draw != r1.nonces[other].draw
  }

  ghost predicate Apart<N, C>(a: Round1<N, C>, b: Round1<N, C>) {
    forall id, other :: id in a.nonces && other in b.nonces ==> a.nonces[id].draw != b.nonces[other].draw
  }

  ghost predicate NonceInvariant<N, C>(w: World<N, C>) {
    && UsedOnce(w.net)
    && (forall i :: 0 <= i < |w.held| ==> FreshNonces(w.net, w.held[i]))
    && forall i, j :: 0 <= i < j < |w.held| ==> Apart(w.held[i], w.held[j])
  }

  /** `after` continues `before` without using any draw that `before` had already taken. */
  ghost predicate KeepsOldDraws(before: Net, after: Net) {
    before.draws <= after.draws && forall d: nat :: d < before.draws ==> Uses(after.events, d) == Uses(before.events, d)
  }

  // ---- what each operation does to the uses ----

  lemma {:induction false} PublishAllUses(net: Net, es: seq<Envelope>, d: nat)
    ensures Uses(PublishAll(net, es).events, d) == Uses(net.events, d) && PublishAll(net, es).draws == net.draws
    decreases |es|
  {
    if es != [] {
      UsesSnoc(net.events, Sent(es[0]), d);
      PublishAllUses(Publish(net, es[0]), es[1..], d);
    }
  }

  lemma CommitStepDraws<KP, G, N, C, S, Sig>(
      p: Primitives<KP, G, N, C, S, Sig>, cfg: Config<KP, G>, topic: Utf8, id: Identifier, net: Net)
    ensures var (res, net') := CommitStep(p, cfg, topic, id, net);
      && net.draws <= net'.draws <= net.draws + 1
      && (res.Ok? ==> res.value.draw == net.draws && net'.draws == net.draws + 1)
      && forall d: nat :: Uses(net'.events, d) == Uses(net.events, d)
  {
    var net' := CommitStep(p, cfg, topic, id, net).1;
    forall d: nat ensures Uses(net'.events, d) == Uses(net.events, d) {
      if net'.events != net.events {
        UsesSnoc(net.events, net'.events[|net.events|], d);
      }
    }
  }

  /** Drawn nonces are taken from consecutive new draws and nothing is signed with. */
  ghost predicate Drawn<N>(nonces: map<Identifier, Held<N>>, from: nat, to: nat) {
    && (forall id :: id in nonces ==> from <= nonces[id].draw < to)
    && forall id, other :: id in nonces && other in nonces && id != other ==> nonces[id].draw != nonces[other].draw
  }

  lemma {:induction false} CommitLoopDraws<KP, G, N, C, S, Sig>(
      p: Primitives<KP, G, N, C, S, Sig>, cfg: Config<KP, G>, topic: Utf8, selected: seq<Identifier>,
      net: Net, acc: map<Identifier, Held<N>>, from: nat)
    requires from <= net.draws && Drawn(acc, from, net.draws)
    ensures var (res, net') := CommitLoop(p, cfg, topic, selected, net, acc);
      && net.draws <= net'.draws
      && (res.Ok? ==> Drawn(res.value, from, net'.draws))
      && forall d: nat :: Uses(net'.events, d) == Uses(net.events, d)
    decreases |selected|
  {
    if selected != [] {
      CommitStepDraws(p, cfg, topic, selected[0], net);
      var (res, net') := CommitStep(p, cfg, topic, selected[0], net);
      if res.Ok? {
        CommitLoopDraws(p, cfg, topic, selected[1..], net', acc[selected[0] := res.value], from);
      }
    }
  }

  lemma Round1Draws<KP, G, N, C, S, Sig>(
      p: Primitives<KP, G, N, C, S, Sig>, cfg: Config<KP, G>, input: nat, selected: seq<Identifier>, net: Net)
    ensures var (res, net') := Round1Spec(p, cfg, input, selected, net);
      && net.draws <= net'.draws
      && (res.Ok? ==> Drawn(res.value.nonces, net.draws, net'.draws))
      && forall d: nat :: Uses(net'.events, d) == Uses(net.events, d)
  {
    CommitLoopDraws(p, cfg, Topic(cfg.id, input), selected, net, map[], net.draws);
  }

  /** What one signer can do to the history: nothing, or gate and sign, or gate, sign and send. */
  ghost predicate SignShape(net: Net, net': Net, draw: nat) {
    net'.draws == net.draws &&
    (|| net'.events == net.events
     || (exists gate: Event, use: Event :: SignedOnce(net.events, net'.events, gate, use, draw))
     || (exists gate: Event, use: Event, sent: Event :: SignedAndSent(net.events, net'.events, gate, use, sent, draw)))
  }

  ghost predicate SignedOnce(before: seq<Event>, after: seq<Event>, gate: Event, use: Event, draw: nat) {
    gate.Gate? && use.SignedWith? && use.draw == draw && after == before + [gate] + [use]
  }

  ghost predicate SignedAndSent(before: seq<Event>, after: seq<Event>, gate: Event, use: Event, sent: Event, draw: nat) {
    gate.Gate? && use.SignedWith? && use.draw == draw && sent.Sent? && after == before + [gate] + [use] + [sent]
  }

  lemma SignStepShape<KP, G, N, C, S, Sig>(
      p: Primitives<KP, G, N, C, S, Sig>, cfg: Config<KP, G>, input: nat, prevouts: seq<TxOut>,
      r1: Round1<N, C>, yes: bool, id: Identifier, net: Net)
    requires id in r1.nonces
    ensures SignShape(net, SignStep(p, cfg, input, prevouts, r1, yes, id, net).1, r1.nonces[id].draw)
  {
    var net' := SignStep(p, cfg, input, prevouts, r1, yes, id, net).1;
    var draw, n := r1.nonces[id].draw, |net.events|;
    var gate, use := Gate(id, input, r1.package.message), SignedWith(draw, r1.package.message);
    var gated := net.events + [gate] + [use];
    assert net.events + [gate, use] == gated;
    if net'.events == gated {
      assert SignedOnce(net.events, net'.events, gate, use, draw);
    } else if net'.events != net.events {
      assert SignedAndSent(net.events, net'.events, gate, use, net'.events[n + 2], draw);
    }
  }

  /** From `a` to `b` no randomness is drawn and draw `d` is used at most `k` more times. */
  ghost predicate UsesWithin(a: Net, b: Net, d: nat, k: nat) {
    b.draws == a.draws && Uses(a.events, d) <= Uses(b.events, d) <= Uses(a.events, d) + k
  }

  lemma ShapeUses(net: Net, net': Net, draw: nat, d: nat)
    requires SignShape(net, net', draw)
    ensures UsesWithin(net, net', d, if draw == d then 1 else 0)
  {
    if gate: Event, use: Event :| SignedOnce(net.events, net'.events, gate, use, draw) {
      UsesSnoc(net.events, gate, d);
      UsesSnoc(net.events + [gate], use, d);
    } else if gate: Event, use: Event, sent: Event :| SignedAndSent(net.events, net'.events, gate, use, sent, draw) {
      UsesSnoc(net.events, gate, d);
      UsesSnoc(net.events + [gate], use, d);
      UsesSnoc(net.events + [gate] + [use], sent, d);
    }
  }

  /** The holders from position `i` on hold draw `d`. */
  ghost predicate HeldFrom<N, C>(r1: Round1<N, C>, i: nat, d: nat) {
    exists k :: i <= k < |Roster(r1.nonces)| && r1.nonces[Roster(r1.nonces)[k]].draw == d
  }

  ghost function HeldCount<N, C>(r1: Round1<N, C>, i: nat, d: nat): nat {
    if HeldFrom(r1, i, d) then 1 else 0
  }

  ghost predicate DistinctDraws<N, C>(r1: Round1<N, C>) {
    forall id, other :: id in r1.nonces && other in r1.nonces && id != other ==> r1.nonces[id].draw != r1.nonces[other].draw
  }

  lemma SignStepUses<KP, G, N, C, S, Sig>(
      p: Primitives<KP, G, N, C, S, Sig>, cfg: Config<KP, G>, input: nat, prevouts: seq<TxOut>,
      r1: Round1<N, C>, yes: bool, id: Identifier, net: Net, d: nat)
    requires id in r1.nonces
    ensures UsesWithin(net, SignStep(p, cfg, input, prevouts, r1, yes, id, net).1, d, if r1.nonces[id].draw == d then 1 else 0)
  {
    SignStepShape(p, cfg, input, prevouts, r1, yes, id, net);
    ShapeUses(net, SignStep(p, cfg, input, prevouts, r1, yes, id, net).1, r1.nonces[id].draw, d);
  }

  /** Signing touches only the draws of the remaining holders, each once. */
  lemma {:induction false} SignLoopUses<KP, G, N, C, S, Sig>(
      p: Primitives<KP, G, N, C, S, Sig>, cfg: Config<KP, G>, input: nat, prevouts: seq<TxOut>,
      r1: Round1<N, C>, yes: bool, i: nat, net: Net, d: nat)
    requires i <= |Roster(r1.nonces)| && DistinctDraws(r1)
    ensures UsesWithin(net, SignLoop(p, cfg, input, prevouts, r1, yes, i, net).1, d, HeldCount(r1, i, d))
    decreases |Roster(r1.nonces)| - i
  {
    if i < |Roster(r1.nonces)| {
      var id := Roster(r1.nonces)[i];
      SignStepUses(p, cfg, input, prevouts, r1, yes, id, net, d);
      HeldOnce(r1, i, d);
      var (res, net') := SignStep(p, cfg, input, prevouts, r1, yes, id, net);
      SignLoopStep(p, cfg, input, prevouts, r1, yes, i, net);
      if res.Ok? {
        SignLoopUses(p, cfg, input, prevouts, r1, yes, i + 1, net', d);
      }
    }
  }

  lemma HeldOnce<N, C>(r1: Round1<N, C>, i: nat, d: nat)
    requires i < |Roster(r1.nonces)| && DistinctDraws(r1)
    ensures HeldCount(r1, i, d) == (if r1.nonces[Roster(r1.nonces)[i]].draw == d then 1 else 0) + HeldCount(r1, i + 1, d)
  {
  }

  lemma Round2Net<KP, G, N, C, S, Sig>(
      p: Primitives<KP, G, N, C, S, Sig>, cfg: Config<KP, G>, input: nat, r1: Round1<N, C>, yes: bool, net: Net)
    ensures Round2Spec(p, cfg, input, r1, yes, net).1 ==
      if Prevouts(cfg.psbt).Ok? then SignLoop(p, cfg, input, Prevouts(cfg.psbt).value, r1, yes, 0, net).1 else net
  {
  }

  /** What a second round does to the draws, in one statement. */
  ghost predicate UsesHeldOnly<N, C>(net: Net, net': Net, r1: Round1<N, C>) {
    net'.draws == net.draws && forall d: nat :: UsesWithin(net, net', d, HeldCount(r1, 0, d))
  }

  lemma Round2UsesHeld<KP, G, N, C, S, Sig>(
      p: Primitives<KP, G, N, C, S, Sig>, cfg: Config<KP, G>, input: nat, r1: Round1<N, C>, yes: bool, net: Net)
    requires FreshNonces(net, r1)
    ensures UsesHeldOnly(net, Round2Spec(p, cfg, input, r1, yes, net).1, r1)
  {
    Round2Net(p, cfg, input, r1, yes, net);
    var net' := Round2Spec(p, cfg, input, r1, yes, net).1;
    if Prevouts(cfg.psbt).Ok? {
      forall d: nat ensures UsesWithin(net, net', d, HeldCount(r1, 0, d)) {
        SignLoopUses(p, cfg, input, Prevouts(cfg.psbt).value, r1, yes, 0, net, d);
      }
      SignLoopUses(p, cfg, input, Prevouts(cfg.psbt).value, r1, yes, 0, net, 0);
    }
  }

  lemma UsingHeldKeepsOnce<N, C>(net: Net, net': Net, r1: Round1<N, C>)
    requires UsedOnce(net) && FreshNonces(net, r1) && UsesHeldOnly(net, net', r1)
    ensures UsedOnce(net')
    ensures forall d: nat :: (forall id :: id in r1.nonces ==> r1.nonces[id].draw != d) ==> Uses(net'.events, d) == Uses(net.events, d)
  {
    forall d: nat ensures Uses(net'.events, d) <= if d < net'.draws then 1 else 0 {
      assert UsesWithin(net, net', d, HeldCount(r1, 0, d));
      if HeldFrom(r1, 0, d) {
        var k :| 0 <= k < |Roster(r1.nonces)| && r1.nonces[Roster(r1.nonces)[k]].draw == d;
      }
    }
    forall d: nat | forall id :: id in r1.nonces ==> r1.nonces[id].draw != d
      ensures Uses(net'.events, d) == Uses(net.events, d)
    {
      assert UsesWithin(net, net', d, HeldCount(r1, 0, d)) && !HeldFrom(r1, 0, d);
    }
  }

  /** A second round with fresh nonces keeps every draw at one use at most, and leaves the draws
      of others alone. */
  lemma Round2Uses<KP, G, N, C, S, Sig>(
      p: Primitives<KP, G, N, C, S, Sig>, cfg: Config<KP, G>, input: nat, r1: Round1<N, C>, yes: bool, net: Net)
    requires UsedOnce(net) && FreshNonces(net, r1)
    ensures var net' := Round2Spec(p, cfg, input, r1, yes, net).1;
      && net'.draws == net.draws && UsedOnce(net')
      && forall d: nat :: (forall id :: id in r1.nonces ==> r1.nonces[id].draw != d) ==> Uses(net'.events, d) == Uses(net.events, d)
  {
    Round2UsesHeld(p, cfg, input, r1, yes, net);
    UsingHeldKeepsOnce(net, Round2Spec(p, cfg, input, r1, yes, net).1, r1);
  }

  lemma SignInputUses<KP, G, N, C, S, Sig>(
      p: Primitives<KP, G, N, C, S, Sig>, cfg: Config<KP, G>, selected: seq<Identifier>, yes: bool, input: nat, net: Net)
    requires UsedOnce(net)
    ensures var net' := SignInput(p, cfg, selected, yes, input, net).1;
      UsedOnce(net') && KeepsOldDraws(net, net')
  {
    Round1Draws(p, cfg, input, selected, net);
    var (r1, net') := Round1Spec(p, cfg, input, selected, net);
    DrawingKeeps(net, net');
    if r1.Ok? {
      FreshAfterDrawing(net, net', r1.value);
      Round2Uses(p, cfg, input, r1.value, yes, net');
      UsingFreshKeepsOld(net, net', Round2Spec(p, cfg, input, r1.value, yes, net').1, r1.value);
    }
  }

  /** Drawing without signing. */
  lemma DrawingKeeps(net: Net, net': Net)
    requires UsedOnce(net) && net.draws <= net'.draws && forall d: nat :: Uses(net'.events, d) == Uses(net.events, d)
    ensures UsedOnce(net') && KeepsOldDraws(net, net')
  {
  }

  lemma FreshAfterDrawing<N, C>(net: Net, net': Net, r1: Round1<N, C>)
    requires UsedOnce(net) && Drawn(r1.nonces, net.draws, net'.draws) && net.draws <= net'.draws
    requires forall d: nat :: Uses(net'.events, d) == Uses(net.events, d)
    ensures FreshNonces(net', r1)
  {
  }

  lemma UsingFreshKeepsOld<N, C>(net: Net, mid: Net, after: Net, r1: Round1<N, C>)
    requires Drawn(r1.nonces, net.draws, mid.draws) && KeepsOldDraws(net, mid) && after.draws == mid.draws
    requires forall d: nat :: (forall id :: id in r1.nonces ==> r1.nonces[id].draw != d) ==> Uses(after.events, d) == Uses(mid.events, d)
    ensures KeepsOldDraws(net, after)
  {
    forall d: nat | d < net.draws ensures Uses(after.events, d) == Uses(net.events, d) {
      assert forall id :: id in r1.nonces ==> r1.nonces[id].draw != d;
    }
  }

  lemma {:induction false} RunInputsUses<KP, G, N, C, S, Sig>(
      p: Primitives<KP, G, N, C, S, Sig>, cfg: Config<KP, G>, selected: seq<Identifier>, yes: bool,
      tx: Tx, input: nat, net: Net)
    requires input <= |tx.inputs| && UsedOnce(net)
    ensures var net' := RunInputs(p, cfg, selected, yes, tx, input, net).1;
      UsedOnce(net') && KeepsOldDraws(net, net')
    decreases |tx.inputs| - input
  {
    if input < |tx.inputs| {
      SignInputUses(p, cfg, selected, yes, input, net);
      var (bytes, net') := SignInput(p, cfg, selected, yes, input, net);
      if bytes.Ok? {
        RunInputsUses(p, cfg, selected, yes, SetWitness(tx, input, bytes.value), input + 1, net');
      }
    }
  }

  lemma LivenessUses<KP, G>(cfg: Config<KP, G>, net: Net)
    requires UsedOnce(net)
    ensures UsedOnce(LivenessSpec(cfg, net).1) && KeepsOldDraws(net, LivenessSpec(cfg, net).1)
  {
    forall d: nat ensures Uses(LivenessSpec(cfg, net).1.events, d) == Uses(net.events, d) {
      PublishAllUses(net, Acks(cfg), d);
    }
    PublishAllUses(net, Acks(cfg), 0);
  }

  lemma RunUses<KP, G, N, C, S, Sig>(
      p: Primitives<KP, G, N, C, S, Sig>, cfg: Config<KP, G>, spent: bool, yes: bool, net: Net)
    requires UsedOnce(net)
    ensures var net' := RunSpec(p, cfg, spent, yes, net).1; UsedOnce(net') && KeepsOldDraws(net, net')
  {
    if !spent {
      LivenessUses(cfg, net);
      var (sel, net') := LivenessSpec(cfg, net);
      if sel.Ok? {
        RunInputsUses(p, cfg, sel.value, yes, cfg.psbt.unsigned, 0, net');
      }
    }
  }

  // ---- every history ----

  lemma HeldStaysFresh<N, C>(w: World<N, C>, net: Net)
    requires NonceInvariant(w) && UsedOnce(net) && KeepsOldDraws(w.net, net)
    ensures NonceInvariant(w.(net := net))
  {
  }

  lemma DroppingKeeps<N, C>(w: World<N, C>, which: nat)
    requires NonceInvariant(w) && which < |w.held|
    ensures NonceInvariant(w.(held := Without(w.held, which)))
  {
    var rest := Without(w.held, which);
    assert forall i :: 0 <= i < |rest| ==> rest[i] == w.held[if i < which then i else i + 1];
  }

  lemma AddingKeeps<N, C>(w: World<N, C>, net: Net, r1: Round1<N, C>)
    requires NonceInvariant(w) && UsedOnce(net) && KeepsOldDraws(w.net, net)
    requires Drawn(r1.nonces, w.net.draws, net.draws) && forall d: nat :: Uses(net.events, d) == Uses(w.net.events, d)
    ensures NonceInvariant(w.(net := net, held := w.held + [r1]))
  {
    HeldStaysFresh(w, net);
    forall i | 0 <= i < |w.held| ensures Apart(w.held[i], r1) {
      assert FreshNonces(w.net, w.held[i]);
    }
  }

  /** Consuming one value may use its draws and no others. */
  lemma ConsumingKeeps<N, C>(w: World<N, C>, net: Net, which: nat)
    requires NonceInvariant(w) && which < |w.held| && UsedOnce(net) && net.draws == w.net.draws
    requires forall d: nat ::
      (forall id :: id in w.held[which].nonces ==> w.held[which].nonces[id].draw != d) ==>
      Uses(net.events, d) == Uses(w.net.events, d)
    ensures NonceInvariant(w.(net := net, held := Without(w.held, which)))
  {
    var r1, rest := w.held[which], Without(w.held, which);
    DroppingKeeps(w, which);
    forall i | 0 <= i < |rest| ensures FreshNonces(net, rest[i]) {
      var j := if i < which then i else i + 1;
      assert rest[i] == w.held[j] && FreshNonces(w.net, w.held[j]);
      assert Apart(r1, rest[i]);
    }
  }

  lemma FirstKeepsNonces<KP, G, N, C, S, Sig>(
      p: Primitives<KP, G, N, C, S, Sig>, w: World<N, C>, cfg: Config<KP, G>, input: nat, selected: seq<Identifier>)
    requires NonceInvariant(w)
    ensures NonceInvariant(Step(p, w, First(cfg, input, selected)))
  {
    Round1Draws(p, cfg, input, selected, w.net);
    var (res, net') := Round1Spec(p, cfg, input, selected, w.net);
    HeldStaysFresh(w, net');
    if res.Ok? {
      AddingKeeps(w, net', res.value);
    }
  }

  lemma SecondKeepsNonces<KP, G, N, C, S, Sig>(
      p: Primitives<KP, G, N, C, S, Sig>, w: World<N, C>, cfg: Config<KP, G>, input: nat, which: nat, yes: bool)
    requires NonceInvariant(w) && which < |w.held|
    ensures NonceInvariant(Step(p, w, Second(cfg, input, which, yes)))
  {
    Round2Uses(p, cfg, input, w.held[which], yes, w.net);
    ConsumingKeeps(w, Round2Spec(p, cfg, input, w.held[which], yes, w.net).1, which);
  }

  lemma WholeKeepsNonces<KP, G, N, C, S, Sig>(
      p: Primitives<KP, G, N, C, S, Sig>, w: World<N, C>, session: nat, cfg: Config<KP, G>, yes: bool)
    requires NonceInvariant(w)
    ensures NonceInvariant(Step(p, w, Whole(session, cfg, yes)))
  {
    RunUses(p, cfg, session in w.spent, yes, w.net);
    HeldStaysFresh(w, RunSpec(p, cfg, session in w.spent, yes, w.net).1);
  }

  lemma StepKeepsNonces<KP, G, N, C, S, Sig>(p: Primitives<KP, G, N, C, S, Sig>, w: World<N, C>, call: Call<KP, G>)
    requires NonceInvariant(w)
    ensures NonceInvariant(Step(p, w, call))
  {
    match call {
      case Liveness(cfg) =>
        LivenessUses(cfg, w.net);
        HeldStaysFresh(w, LivenessSpec(cfg, w.net).1);
      case First(cfg, input, selected) =>
        FirstKeepsNonces(p, w, cfg, input, selected);
      case Second(cfg, input, which, yes) =>
        if which < |w.held| { SecondKeepsNonces(p, w, cfg, input, which, yes); }
      case Whole(session, cfg, yes) =>
        WholeKeepsNonces(p, w, session, cfg, yes);
      case Drop(which) =>
        if which < |w.held| { DroppingKeeps(w, which); }
    }
  }

  /** Over every history of calls, on any number of sessions, no nonce is ever signed with twice. */
  lemma {:induction false} EveryNonceSignsOnce<KP, G, N, C, S, Sig>(
      p: Primitives<KP, G, N, C, S, Sig>, w: World<N, C>, calls: seq<Call<KP, G>>)
    requires NonceInvariant(w)
    ensures NonceInvariant(Replay(p, w, calls))
    ensures forall d: nat :: Uses(Replay(p, w, calls).net.events, d) <= 1
    decreases |calls|
  {
    if calls != [] {
      StepKeepsNonces(p, w, calls[0]);
      EveryNonceSignsOnce(p, Step(p, w, calls[0]), calls[1..]);
    }
  }

  /** The invariant holds before the first call. */
  lemma FreshWorld<N, C>(board: Board)
    ensures NonceInvariant<N, C>(World(Net(board, 0, []), [], {}))
  {
  }

  // ---- spent sessions ----

  /** A run makes its session spent exactly by returning a transaction; a failed run does not. */
  lemma WholeSpends<KP, G, N, C, S, Sig>(
      p: Primitives<KP, G, N, C, S, Sig>, w: World<N, C>, session: nat, cfg: Config<KP, G>, yes: bool)
    ensures session in Step(p, w, Whole(session, cfg, yes)).spent <==>
      session in w.spent || RunSpec(p, cfg, false, yes, w.net).0.Ok?
    ensures session in w.spent ==> Step(p, w, Whole(session, cfg, yes)) == w
    ensures w.spent <= Step(p, w, Whole(session, cfg, yes)).spent <= w.spent + {session}
  {
  }

  lemma OthersSpendNothing<KP, G, N, C, S, Sig>(p: Primitives<KP, G, N, C, S, Sig>, w: World<N, C>, call: Call<KP, G>)
    requires !call.Whole?
    ensures Step(p, w, call).spent == w.spent
  {
    match call {
      case Liveness(cfg) =>
      case First(cfg, input, selected) =>
      case Second(cfg, input, which, yes) =>
      case Drop(which) =>
    }
  }

  /** Some run of the session in this history returned a transaction. */
  predicate SomeRunSucceeded<KP, G, N, C, S, Sig>(
      p: Primitives<KP, G, N, C, S, Sig>, w: World<N, C>, calls: seq<Call<KP, G>>, session: nat)
    decreases |calls|
  {
    calls != [] &&
    ((calls[0].Whole? && calls[0].session == session && session !in w.spent
      && RunSpec(p, calls[0].cfg, false, calls[0].yes, w.net).0.Ok?)
     || SomeRunSucceeded(p, Step(p, w, calls[0]), calls[1..], session))
  }

  /** Over every history a session becomes spent exactly by a run that returns a transaction. */
  lemma {:induction false} SpentExactly<KP, G, N, C, S, Sig>(
      p: Primitives<KP, G, N, C, S, Sig>, w: World<N, C>, calls: seq<Call<KP, G>>, session: nat)
    requires session !in w.spent
    ensures session in Replay(p, w, calls).spent <==> SomeRunSucceeded(p, w, calls, session)
    decreases |calls|
  {
    if calls != [] {
      var call, w' := calls[0], Step(p, w, calls[0]);
      if call.Whole? {
        WholeSpends(p, w, call.session, call.cfg, call.yes);
      } else {
        OthersSpendNothing(p, w, call);
      }
      if session in w'.spent {
        StaysSpent(p, w', calls[1..], session);
      } else {
        SpentExactly(p, w', calls[1..], session);
      }
      NothingAfterSpent(p, w', calls[1..], session);
    }
  }

  lemma {:induction false} StaysSpent<KP, G, N, C, S, Sig>(
      p: Primitives<KP, G, N, C, S, Sig>, w: World<N, C>, calls: seq<Call<KP, G>>, session: nat)
    requires session in w.spent
    ensures session in Replay(p, w, calls).spent
    decreases |calls|
  {
    if calls != [] {
      if calls[0].Whole? {
        WholeSpends(p, w, calls[0].session, calls[0].cfg, calls[0].yes);
      } else {
        OthersSpendNothing(p, w, calls[0]);
      }
      StaysSpent(p, Step(p, w, calls[0]), calls[1..], session);
    }
  }

  /** A spent session has no further successful run. */
  lemma {:induction false} NothingAfterSpent<KP, G, N, C, S, Sig>(
      p: Primitives<KP, G, N, C, S, Sig>, w: World<N, C>, calls: seq<Call<KP, G>>, session: nat)
    ensures session in w.spent ==> !SomeRunSucceeded(p, w, calls, session)
    decreases |calls|
  {
    if calls != [] && session in w.spent {
      StaysSpent(p, w, [calls[0]], session);
      assert Replay(p, w, [calls[0]]) == Replay(p, Step(p, w, calls[0]), [][..]);
      NothingAfterSpent(p, Step(p, w, calls[0]), calls[1..], session);
    }
  }

  /** Once spent, a session stays spent over every history, and a further run of it does nothing. */
  lemma SpentForever<KP, G, N, C, S, Sig>(
      p: Primitives<KP, G, N, C, S, Sig>, w: World<N, C>, calls: seq<Call<KP, G>>, session: nat, cfg: Config<KP, G>, yes: bool)
    requires session in w.spent
    ensures var w' := Replay(p, w, calls);
      session in w'.spent && Step(p, w', Whole(session, cfg, yes)) == w'
  {
    StaysSpent(p, w, calls, session);
    WholeSpends(p, Replay(p, w, calls), session, cfg, yes);
  }
}
