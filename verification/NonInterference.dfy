/** Sessions with different ids on one shared board do not disturb each other.

    A session is seen from the board as a script: it publishes, or it subscribes and goes on with what
    it heard, or it returns. Under every interleaving of any number of scripts, each goes through
    exactly the steps it goes through when it has the board for itself. */
module NonInterference {
  import opened Text
  import opened Envelopes
  import opened Transport
  import opened Frost
  import opened Wrappers
  import opened Session
  import opened SessionLaws

  datatype Script =
    | Return(result: Result<Tx, SessionError>)
    | Send(e: Envelope, next: Script)
    | Ask(f: Filter, resume: seq<Envelope> -> Script)

  /** The board and what each session has still to do. */
  datatype Shared = Shared(board: Board, running: map<Utf8, Script>)

  function Take(b: Board, s: Script): (Board, Script) {
    match s
    case Return(_) => (b, s)
    case Send(e, next) => (Post(b, e), next)
    case Ask(f, resume) => (b, resume(Fetch(b, f)))
  }

  /** Session `id` takes its next step. */
  function Turn(w: Shared, id: Utf8): Shared
    requires id in w.running
  {
    var (b, s) := Take(w.board, w.running[id]);
    Shared(b, w.running[id := s])
  }

  function Interleave(w: Shared, schedule: seq<Utf8>): (r: Shared)
    requires forall i :: 0 <= i < |schedule| ==> schedule[i] in w.running
    ensures r.running.Keys == w.running.Keys
  {
    if schedule == [] then w else
      var last := |schedule| - 1;
      Turn(Interleave(w, schedule[..last]), schedule[last])
  }

  /** The same schedule with everybody but `id` left out. */
  function Only(schedule: seq<Utf8>, id: Utf8): (r: seq<Utf8>)
    ensures forall i :: 0 <= i < |r| ==> r[i] == id
    ensures r != [] ==> id in schedule
  {
    if schedule == [] then [] else
      var last := |schedule| - 1;
      var front := Only(schedule[..last], id);
      assert front != [] ==> id in schedule[..last];
      assert schedule[last] in schedule;
      front + if schedule[last] == id then [id] else []
  }

  /** A filter through which session `id` sees none but its own envelopes. */
  ghost predicate SeesOwn(id: Utf8, f: Filter) {
    forall e :: Matches(f, e) ==> Owned(id, e)
  }

  /** For its next `turns` steps, whatever it hears, the script publishes and subscribes to envelopes
      of session `id` only. */
  ghost predicate BehavesFor(id: Utf8, s: Script, turns: nat)
    decreases turns
  {
    turns == 0 ||
    match s
    case Return(_) => true
    case Send(e, next) => Owned(id, e) && BehavesFor(id, next, turns - 1)
    case Ask(f, resume) => SeesOwn(id, f) && forall es :: BehavesFor(id, resume(es), turns - 1)
  }

  ghost predicate Behaves(id: Utf8, s: Script) {
    forall turns: nat :: BehavesFor(id, s, turns)
  }

  lemma BehavesReturn(id: Utf8, res: Result<Tx, SessionError>)
    ensures Behaves(id, Return(res))
  {
    assert forall turns: nat :: BehavesFor(id, Return(res), turns);
  }

  lemma BehavesSend(id: Utf8, e: Envelope, next: Script)
    requires Owned(id, e) && Behaves(id, next)
    ensures Behaves(id, Send(e, next))
  {
    forall turns: nat ensures BehavesFor(id, Send(e, next), turns) {
      if turns > 0 { assert BehavesFor(id, next, turns - 1); }
    }
  }

  lemma BehavesAsk(id: Utf8, f: Filter, resume: seq<Envelope> -> Script)
    requires SeesOwn(id, f) && forall es :: Behaves(id, resume(es))
    ensures Behaves(id, Ask(f, resume))
  {
    forall turns: nat ensures BehavesFor(id, Ask(f, resume), turns) {
      if turns > 0 {
        forall es ensures BehavesFor(id, resume(es), turns - 1) {
          assert Behaves(id, resume(es));
        }
      }
    }
  }

  lemma BehavesAfter(id: Utf8, s: Script, b: Board)
    requires Behaves(id, s)
    ensures s.Send? ==> Owned(id, s.e)
    ensures s.Ask? ==> SeesOwn(id, s.f)
    ensures Behaves(id, Take(b, s).1)
  {
    assert BehavesFor(id, s, 1);
    forall turns: nat ensures BehavesFor(id, Take(b, s).1, turns) {
      assert BehavesFor(id, s, turns + 1);
      if s.Return? {
        assert BehavesFor(id, s, turns);
      }
    }
  }

  /** What is published on this schedule lies in the universe. */
  ghost predicate ScheduleWithin(w: Shared, schedule: seq<Utf8>, universe: set<Envelope>)
    requires forall i :: 0 <= i < |schedule| ==> schedule[i] in w.running
  {
    schedule == [] ||
    (var last := |schedule| - 1;
     var s := Interleave(w, schedule[..last]).running[schedule[last]];
     ScheduleWithin(w, schedule[..last], universe) && (s.Send? ==> s.e in universe))
  }

  ghost predicate AllBehave(w: Shared) {
    forall id :: id in w.running ==> Behaves(id, w.running[id])
  }

  /** Both worlds look the same to session `id`, and it is about to do the same. */
  ghost predicate LooksSame(id: Utf8, a: Shared, b: Shared, universe: set<Envelope>) {
    && id in a.running && id in b.running && a.running[id] == b.running[id]
    && WellKeyed(a.board) && BoardWithin(a.board, universe)
    && WellKeyed(b.board) && BoardWithin(b.board, universe)
    && forall e :: Owned(id, e) ==> (OnBoard(a.board, e) <==> OnBoard(b.board, e))
  }

  lemma TurnKeepsBehaving(w: Shared, id: Utf8)
    requires AllBehave(w) && id in w.running
    ensures AllBehave(Turn(w, id))
  {
    BehavesAfter(id, w.running[id], w.board);
  }

  lemma OwnTurn(id: Utf8, a: Shared, b: Shared, universe: set<Envelope>)
    requires LooksSame(id, a, b, universe) && Behaves(id, a.running[id]) && CollisionFree(universe)
    requires a.running[id].Send? ==> a.running[id].e in universe
    ensures LooksSame(id, Turn(a, id), Turn(b, id), universe)
  {
    BehavesAfter(id, a.running[id], a.board);
    match a.running[id] {
      case Return(_) =>
      case Send(e, _) =>
        PostExact(a.board, e, universe);
        PostExact(b.board, e, universe);
      case Ask(f, _) =>
        FetchDependsOnMatches(a.board, b.board, f);
    }
  }

  lemma OthersTurn(id: Utf8, other: Utf8, a: Shared, b: Shared, universe: set<Envelope>)
    requires other != id && other in a.running && Behaves(other, a.running[other]) && CollisionFree(universe)
    requires a.running[other].Send? ==> a.running[other].e in universe
    requires LooksSame(id, a, b, universe)
    ensures LooksSame(id, Turn(a, other), b, universe)
  {
    BehavesAfter(other, a.running[other], a.board);
    match a.running[other] {
      case Return(_) =>
      case Send(e, _) =>
        PostExact(a.board, e, universe);
        if Owned(id, e) {
          OwnedByOne(id, other, e);
        }
      case Ask(_, _) =>
    }
  }

  /** Non-interference: for every interleaving of any number of sessions, each is where it is when the
      others never take a turn, and sees its own envelopes alike. Only what is published on this very
      schedule must be free of id collisions. `alone` may start from any board that shows the session
      the same of its own envelopes. */
  lemma {:induction false} SessionsDoNotInterfere(
      w: Shared, alone: Shared, schedule: seq<Utf8>, id: Utf8, universe: set<Envelope>)
    requires forall i :: 0 <= i < |schedule| ==> schedule[i] in w.running
    requires AllBehave(w) && CollisionFree(universe) && ScheduleWithin(w, schedule, universe)
    requires LooksSame(id, w, alone, universe)
    ensures LooksSame(id, Interleave(w, schedule), Interleave(alone, Only(schedule, id)), universe)
    ensures AllBehave(Interleave(w, schedule))
  {
    if schedule != [] {
      var last := |schedule| - 1;
      var who := schedule[last];
      SessionsDoNotInterfere(w, alone, schedule[..last], id, universe);
      var a := Interleave(w, schedule[..last]);
      var b := Interleave(alone, Only(schedule[..last], id));
      TurnKeepsBehaving(a, who);
      if who == id {
        OwnTurn(id, a, b, universe);
        var mine := Only(schedule, id);
        assert mine[..|mine| - 1] == Only(schedule[..last], id);
      } else {
        OthersTurn(id, who, a, b, universe);
        assert Only(schedule, id) == Only(schedule[..last], id);
      }
    }
  }

  /** The filters a session subscribes with show it none but its own envelopes. */
  lemma SessionFiltersSeeOwn(id: Utf8, input: nat)
    ensures SeesOwn(id, LivenessFilter(id))
    ensures SeesOwn(id, CommitmentFilter(Topic(id, input)))
    ensures SeesOwn(id, ShareFilter(Topic(id, input)))
  {
  }

  // ---- running alone ----

  /** After `turns` steps with nobody else on the board. */
  function Steps(b: Board, s: Script, turns: nat): (Board, Script)
    decreases turns
  {
    if turns == 0 then (b, s) else
      var (b', s') := Take(b, s);
      Steps(b', s', turns - 1)
  }

  ghost predicate Reaches(b: Board, s: Script, b': Board, s': Script) {
    exists turns: nat :: Steps(b, s, turns) == (b', s')
  }

  lemma {:induction false} StepsAdd(b: Board, s: Script, m: nat, n: nat)
    ensures Steps(b, s, m + n) == Steps(Steps(b, s, m).0, Steps(b, s, m).1, n)
    decreases m
  {
    if m > 0 {
      var (b', s') := Take(b, s);
      StepsAdd(b', s', m - 1, n);
    }
  }

  lemma ReachesSelf(b: Board, s: Script)
    ensures Reaches(b, s, b, s)
  {
    assert Steps(b, s, 0) == (b, s);
  }

  lemma ReachesTrans(b0: Board, s0: Script, b1: Board, s1: Script, b2: Board, s2: Script)
    requires Reaches(b0, s0, b1, s1) && Reaches(b1, s1, b2, s2)
    ensures Reaches(b0, s0, b2, s2)
  {
    var m: nat :| Steps(b0, s0, m) == (b1, s1);
    var n: nat :| Steps(b1, s1, n) == (b2, s2);
    StepsAdd(b0, s0, m, n);
  }

  lemma ReachesTake(b: Board, s: Script, b': Board, s': Script)
    requires Reaches(Take(b, s).0, Take(b, s).1, b', s')
    ensures Reaches(b, s, b', s')
  {
    var n: nat :| Steps(Take(b, s).0, Take(b, s).1, n) == (b', s');
    assert Steps(b, s, n + 1) == (b', s');
  }

  /** A script that has returned stays where it is. */
  lemma {:induction false} StepsOfReturned(b: Board, s: Script, turns: nat)
    requires s.Return?
    ensures Steps(b, s, turns) == (b, s)
    decreases turns
  {
    if turns > 0 {
      StepsOfReturned(b, s, turns - 1);
    }
  }

  /** Two returns of one run are the same. */
  lemma OneReturn(b: Board, s: Script, m: nat, n: nat)
    requires Steps(b, s, m).1.Return? && Steps(b, s, n).1.Return?
    ensures Steps(b, s, m) == Steps(b, s, n)
  {
    var lo, hi := if m <= n then m else n, if m <= n then n else m;
    StepsAdd(b, s, lo, hi - lo);
    StepsOfReturned(Steps(b, s, lo).0, Steps(b, s, lo).1, hi - lo);
  }

  /** Taking the turns of a schedule of `id` alone is taking that many steps. */
  lemma {:induction false} AloneIsSteps(w: Shared, schedule: seq<Utf8>, id: Utf8)
    requires id in w.running && forall i :: 0 <= i < |schedule| ==> schedule[i] == id
    ensures (Interleave(w, schedule).board, Interleave(w, schedule).running[id]) == Steps(w.board, w.running[id], |schedule|)
  {
    if schedule != [] {
      var last := |schedule| - 1;
      AloneIsSteps(w, schedule[..last], id);
      StepsAdd(w.board, w.running[id], last, 1);
      var r := Interleave(w, schedule[..last]);
      assert Steps(r.board, r.running[id], 1) == Take(r.board, r.running[id]);
    }
  }
}
