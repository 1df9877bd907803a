/** The in-process distributed key generation driver.

    The three FROST primitives are function values of a `Dkg` record, so every result below holds
    for any primitives, failing ones included. A position in the caller's random stream stands for
    the random number generator: only round 1 advances it. */
module Keygen {
  import opened Wrappers
  import opened Ordered
  import opened Text
  import opened Envelopes
  import opened Frost

  datatype KeygenError =
    | DkgFailed(error: FrostError)
    | GroupKeyMismatch(seat: Identifier)
    | Empty

  /** Primitives over secrets S1 and S2, broadcast packages P1, directed packages P2, key packages
      KP and public-key packages PK. Verifying keys are compared through their encodings. */
  datatype Dkg<!S1, !P1, !S2, !P2, !KP, !PK> = Dkg(
    part1: (Identifier, u16, u16, nat) -> (Result<(S1, P1), FrostError>, nat),
    part2: (S1, map<Identifier, P1>) -> Result<(S2, map<Identifier, P2>), FrostError>,
    part3: (S2, map<Identifier, P1>, map<Identifier, P2>) -> Result<(KP, PK), FrostError>,
    evenKey: KP -> KP,
    evenGroup: PK -> PK,
    keyOf: KP -> int,
    groupKeyOf: PK -> int)

  datatype Seat1<S1, P1> = Seat1(id: Identifier, secret: S1, pkg: P1)

  datatype Seat2<S2, P2> = Seat2(id: Identifier, secret: S2, sent: map<Identifier, P2>)

  datatype Seat3<KP, PK> = Seat3(id: Identifier, kp: KP, group: PK)

  // ---- the reference: one seat after the other, each with a fresh map of all others ----

  function Round1<S1, P1, S2, P2, KP, PK>(
      dkg: Dkg<S1, P1, S2, P2, KP, PK>, t: u16, n: u16, i: nat, rng: nat)
      : (r: (Result<seq<Seat1<S1, P1>>, KeygenError>, nat))
    requires 1 <= i <= n + 1
    ensures r.0.Ok? ==> |r.0.value| == n + 1 - i
    ensures r.0.Ok? ==> forall k :: 0 <= k < |r.0.value| ==> r.0.value[k].id == i + k
    decreases n + 1 - i
  {
    if i == n + 1 then (Ok([]), rng) else
      match dkg.part1(i, n, t, rng)
      case (Err(e), rng') => (Err(DkgFailed(e)), rng')
      case (Ok(pair), rng') =>
        match Round1(dkg, t, n, i + 1, rng')
        case (Err(e), rng'') => (Err(e), rng'')
        case (Ok(rest), rng'') => (Ok([Seat1(i, pair.0, pair.1)] + rest), rng'')
  }

  function Packages<S1, P1>(seats: seq<Seat1<S1, P1>>): (m: map<Identifier, P1>)
    ensures forall k :: 0 <= k < |seats| ==> seats[k].id in m
  {
    if seats == [] then map[] else
      var last := |seats| - 1;
      Packages(seats[..last])[seats[last].id := seats[last].pkg]
  }

  function Part2Of<S1, P1, S2, P2, KP, PK>(
      dkg: Dkg<S1, P1, S2, P2, KP, PK>, others: map<Identifier, P1>, s: Seat1<S1, P1>)
      : Result<Seat2<S2, P2>, KeygenError>
  {
    match dkg.part2(s.secret, others)
    case Err(e) => Err(DkgFailed(e))
    case Ok(pair) => Ok(Seat2(s.id, pair.0, pair.1))
  }

  function Part3Of<S1, P1, S2, P2, KP, PK>(
      dkg: Dkg<S1, P1, S2, P2, KP, PK>, others: map<Identifier, P1>, s: Seat2<S2, P2>, inbox: map<Identifier, P2>)
      : Result<Seat3<KP, PK>, KeygenError>
  {
    match dkg.part3(s.secret, others, inbox)
    case Err(e) => Err(DkgFailed(e))
    case Ok(pair) => Ok(Seat3(s.id, dkg.evenKey(pair.0), dkg.evenGroup(pair.1)))
  }

  /** What recipient `r` was sent, by sender. */
  function Inbox<S2, P2>(seats: seq<Seat2<S2, P2>>, r: Identifier): map<Identifier, P2> {
    if seats == [] then map[] else
      var last := seats[|seats| - 1];
      var m := Inbox(seats[..|seats| - 1], r);
      if r in last.sent then m[last.id := last.sent[r]] else m
  }

  function Results2<S1, P1, S2, P2, KP, PK>(
      dkg: Dkg<S1, P1, S2, P2, KP, PK>, pkgs: map<Identifier, P1>, seats: seq<Seat1<S1, P1>>)
      : (r: seq<Result<Seat2<S2, P2>, KeygenError>>)
    ensures |r| == |seats|
  {
    seq(|seats|, k requires 0 <= k < |seats| => Part2Of(dkg, pkgs - {seats[k].id}, seats[k]))
  }

  function Results3<S1, P1, S2, P2, KP, PK>(
      dkg: Dkg<S1, P1, S2, P2, KP, PK>, pkgs: map<Identifier, P1>, all: seq<Seat2<S2, P2>>, seats: seq<Seat2<S2, P2>>)
      : (r: seq<Result<Seat3<KP, PK>, KeygenError>>)
    ensures |r| == |seats|
  {
    seq(|seats|, k requires 0 <= k < |seats| =>
      Part3Of(dkg, pkgs - {seats[k].id}, seats[k], Inbox(all, seats[k].id)))
  }

  /** The values of a list of results, or the first error in list order. */
  function Resolve<A>(rs: seq<Result<A, KeygenError>>): Result<seq<A>, KeygenError> {
    if rs == [] then Ok([]) else
      match rs[0]
      case Err(e) => Err(e)
      case Ok(a) =>
        match Resolve(rs[1..])
        case Err(e) => Err(e)
        case Ok(rest) => Ok([a] + rest)
  }

  /** Walk the round-3 results in order: the first fixes the group key, a later seat that
      disagrees or failed ends the ceremony with its own error. */
  function Confirm<S1, P1, S2, P2, KP, PK>(
      dkg: Dkg<S1, P1, S2, P2, KP, PK>, rs: seq<Result<Seat3<KP, PK>, KeygenError>>,
      group: Option<PK>, kps: map<Identifier, KP>)
      : Result<(map<Identifier, KP>, PK), KeygenError>
    decreases |rs|
  {
    if rs == [] then
      match group
      case None => Err(Empty)
      case Some(g) => Ok((kps, g))
    else
      match rs[0]
      case Err(e) => Err(e)
      case Ok(s) =>
        if group.Some? && dkg.groupKeyOf(group.value) != dkg.groupKeyOf(s.group) then Err(GroupKeyMismatch(s.id))
        else Confirm(dkg, rs[1..], if group.Some? then group else Some(s.group), kps[s.id := s.kp])
  }

  function NaiveDkg<S1, P1, S2, P2, KP, PK>(dkg: Dkg<S1, P1, S2, P2, KP, PK>, t: u16, n: u16, rng: nat)
      : (Result<(map<Identifier, KP>, PK), KeygenError>, nat)
  {
    match Round1(dkg, t, n, 1, rng)
    case (Err(e), rng') => (Err(e), rng')
    case (Ok(seats1), rng') =>
      var pkgs := Packages(seats1);
      match Resolve(Results2(dkg, pkgs, seats1))
      case Err(e) => (Err(e), rng')
      case Ok(seats2) => (Confirm(dkg, Results3(dkg, pkgs, seats2, seats2), None, map[]), rng')
  }

  // ---- agreement up to the first error ----

  ghost predicate OkBefore<A>(b: seq<Result<A, KeygenError>>, k: int)
    requires k <= |b|
  {
    forall j :: 0 <= j < k ==> b[j].Ok?
  }

  /** `a` equals `b` up to and including the first error of `b`. */
  ghost predicate AgreeToFirstError<A>(a: seq<Result<A, KeygenError>>, b: seq<Result<A, KeygenError>>) {
    |a| == |b| && forall k :: 0 <= k < |a| && OkBefore(b, k) ==> a[k] == b[k]
  }

  lemma AgreeTail<A>(a: seq<Result<A, KeygenError>>, b: seq<Result<A, KeygenError>>)
    requires AgreeToFirstError(a, b) && a != []
    ensures a[0] == b[0]
    ensures b[0].Ok? ==> AgreeToFirstError(a[1..], b[1..])
  {
    assert OkBefore(b, 0);
    if b[0].Ok? {
      forall k | 0 <= k < |a[1..]| && OkBefore(b[1..], k) ensures a[1..][k] == b[1..][k] {
        assert forall j :: 0 < j < k + 1 ==> b[j] == b[1..][j - 1];
        assert OkBefore(b, k + 1);
      }
    }
  }

  lemma AgreeConcat<A>(
      a: seq<Result<A, KeygenError>>, b: seq<Result<A, KeygenError>>,
      c: seq<Result<A, KeygenError>>, d: seq<Result<A, KeygenError>>)
    requires AgreeToFirstError(a, b) && AgreeToFirstError(c, d)
    ensures AgreeToFirstError(a + c, b + d)
  {
    forall k | 0 <= k < |a + c| && OkBefore(b + d, k) ensures (a + c)[k] == (b + d)[k] {
      if k < |a| {
        assert forall j :: 0 <= j < k ==> b[j] == (b + d)[j];
        assert OkBefore(b, k);
      } else {
        assert forall j :: 0 <= j < k - |b| ==> d[j] == (b + d)[|b| + j];
        assert OkBefore(d, k - |b|);
      }
    }
  }

  lemma {:induction false} ResolveAgree<A>(a: seq<Result<A, KeygenError>>, b: seq<Result<A, KeygenError>>)
    requires AgreeToFirstError(a, b)
    ensures Resolve(a) == Resolve(b)
  {
    if a != [] {
      AgreeTail(a, b);
      if b[0].Ok? { ResolveAgree(a[1..], b[1..]); }
    }
  }

  lemma {:induction false} ConfirmAgree<S1, P1, S2, P2, KP, PK>(
      dkg: Dkg<S1, P1, S2, P2, KP, PK>,
      a: seq<Result<Seat3<KP, PK>, KeygenError>>, b: seq<Result<Seat3<KP, PK>, KeygenError>>,
      group: Option<PK>, kps: map<Identifier, KP>)
    requires AgreeToFirstError(a, b)
    ensures Confirm(dkg, a, group, kps) == Confirm(dkg, b, group, kps)
    decreases |a|
  {
    if a != [] {
      AgreeTail(a, b);
      if b[0].Ok? {
        var s := b[0].value;
        ConfirmAgree(dkg, a[1..], b[1..], if group.Some? then group else Some(s.group), kps[s.id := s.kp]);
      }
    }
  }

  /** Error resolution is deterministic: the reported error is the one of the smallest position
      that failed, and there is none exactly when every seat succeeded. */
  lemma {:induction false} ResolveIsFirstError<A>(rs: seq<Result<A, KeygenError>>)
    ensures Resolve(rs).Ok? <==> OkBefore(rs, |rs|)
    ensures Resolve(rs).Ok? ==> |Resolve(rs).value| == |rs| && forall k :: 0 <= k < |rs| ==> rs[k] == Ok(Resolve(rs).value[k])
    ensures Resolve(rs).Err? ==> exists k :: 0 <= k < |rs| && OkBefore(rs, k) && rs[k] == Err(Resolve(rs).error)
  {
    if rs != [] {
      var rest := rs[1..];
      ResolveIsFirstError(rest);
      assert forall j :: 0 < j < |rs| ==> rs[j] == rest[j - 1];
      if rs[0].Err? {
        assert OkBefore(rs, 0) && rs[0] == Err(Resolve(rs).error);
      } else if Resolve(rs).Err? {
        var k :| 0 <= k < |rest| && OkBefore(rest, k) && rest[k] == Err(Resolve(rest).error);
        assert OkBefore(rs, k + 1) && rs[k + 1] == Err(Resolve(rs).error);
      }
    }
  }

  // ---- the split into jobs ----

  /** A split of the seats into contiguous in-order jobs, given by the job sizes; what the sizes
      leave over is one more job. */
  function Cut<A>(xs: seq<A>, sizes: seq<nat>): seq<seq<A>>
    decreases |sizes|
  {
    if sizes == [] then [xs]
    else if sizes[0] >= |xs| then [xs]
    else [xs[..sizes[0]]] + Cut(xs[sizes[0]..], sizes[1..])
  }

  function Flatten<A>(jobs: seq<seq<A>>): seq<A> {
    if jobs == [] then [] else jobs[0] + Flatten(jobs[1..])
  }

  lemma {:induction false} FlattenCut<A>(xs: seq<A>, sizes: seq<nat>)
    ensures Flatten(Cut(xs, sizes)) == xs
    decreases |sizes|
  {
    if sizes == [] || sizes[0] >= |xs| {
      assert Flatten([xs]) == xs + Flatten([xs][1..]) == xs;
    } else {
      FlattenCut(xs[sizes[0]..], sizes[1..]);
      assert xs == xs[..sizes[0]] + xs[sizes[0]..];
    }
  }

  ghost predicate DistinctIds1<S1, P1>(seats: seq<Seat1<S1, P1>>) {
    forall i, j :: 0 <= i < j < |seats| ==> seats[i].id != seats[j].id
  }

  ghost predicate DistinctIds2<S2, P2>(seats: seq<Seat2<S2, P2>>) {
    forall i, j :: 0 <= i < j < |seats| ==> seats[i].id != seats[j].id
  }

  /** One job of round 2: the pool is cloned once, then each seat removes its own package, calls the
      primitive with the rest and re-inserts it. A failing seat returns before re-inserting, which
      leaves the pool short for the later seats of the job; their results may be wrong, but they
      come after the first error. Removing one's own package never fails. */
  method PooledRound2<S1, P1, S2, P2, KP, PK>(
      dkg: Dkg<S1, P1, S2, P2, KP, PK>, pkgs: map<Identifier, P1>, job: seq<Seat1<S1, P1>>)
      returns (out: seq<Result<Seat2<S2, P2>, KeygenError>>)
    requires DistinctIds1(job) && forall k :: 0 <= k < |job| ==> job[k].id in pkgs
    ensures AgreeToFirstError(out, Results2(dkg, pkgs, job))
  {
    ghost var naive := Results2(dkg, pkgs, job);
    out := [];
    var pool := pkgs;
    for k := 0 to |job|
      invariant |out| == k
      invariant forall j :: k <= j < |job| ==> job[j].id in pool
      invariant OkBefore(naive, k) ==> pool == pkgs
      invariant forall j :: 0 <= j < k && OkBefore(naive, j) ==> out[j] == naive[j]
    {
      var id := job[k].id;
      var own := pool[id];
      assert (pool - {id})[id := own] == pool;
      pool := pool - {id};
      assert OkBefore(naive, k + 1) ==> OkBefore(naive, k) && naive[k].Ok?;
      var res := Part2Of(dkg, pool, job[k]);
      if res.Ok? {
        pool := pool[id := own];
      }
      out := out + [res];
    }
  }

  /** One job of round 3, with the same pool discipline. */
  method PooledRound3<S1, P1, S2, P2, KP, PK>(
      dkg: Dkg<S1, P1, S2, P2, KP, PK>, pkgs: map<Identifier, P1>,
      byRecipient: map<Identifier, map<Identifier, P2>>, ghost all: seq<Seat2<S2, P2>>, job: seq<Seat2<S2, P2>>)
      returns (out: seq<Result<Seat3<KP, PK>, KeygenError>>)
    requires DistinctIds2(job) && forall k :: 0 <= k < |job| ==> job[k].id in pkgs
    requires forall r :: Row(byRecipient, r) == Inbox(all, r)
    ensures AgreeToFirstError(out, Results3(dkg, pkgs, all, job))
  {
    ghost var naive := Results3(dkg, pkgs, all, job);
    out := [];
    var pool := pkgs;
    for k := 0 to |job|
      invariant |out| == k
      invariant forall j :: k <= j < |job| ==> job[j].id in pool
      invariant OkBefore(naive, k) ==> pool == pkgs
      invariant forall j :: 0 <= j < k && OkBefore(naive, j) ==> out[j] == naive[j]
    {
      var id := job[k].id;
      var own := pool[id];
      assert (pool - {id})[id := own] == pool;
      pool := pool - {id};
      assert OkBefore(naive, k + 1) ==> OkBefore(naive, k) && naive[k].Ok?;
      var res := Part3Of(dkg, pool, job[k], Row(byRecipient, id));
      if res.Ok? {
        pool := pool[id := own];
      }
      out := out + [res];
    }
  }

  // ---- the round-2 fan-out ----

  function Row<P2>(table: map<Identifier, map<Identifier, P2>>, r: Identifier): map<Identifier, P2> {
    if r in table then table[r] else map[]
  }

  /** File what one seat sent, recipient by recipient. */
  method FanOutOne<S2, P2>(table: map<Identifier, map<Identifier, P2>>, s: Seat2<S2, P2>)
      returns (filed: map<Identifier, map<Identifier, P2>>)
    ensures forall r :: Row(filed, r) == (if r in s.sent then Row(table, r)[s.id := s.sent[r]] else Row(table, r))
  {
    filed := table;
    var left := s.sent.Keys;
    while left != {}
      invariant left <= s.sent.Keys
      invariant forall r :: r in s.sent && r !in left ==> Row(filed, r) == Row(table, r)[s.id := s.sent[r]]
      invariant forall r :: r !in s.sent || r in left ==> Row(filed, r) == Row(table, r)
      decreases |left|
    {
      var r := Min(left);
      filed := filed[r := Row(filed, r)[s.id := s.sent[r]]];
      left := left - {r};
    }
  }

  /** Resolve the round-2 results in order and file what each seat sent by recipient. */
  method ResolveAndFanOut<S2, P2>(rs: seq<Result<Seat2<S2, P2>, KeygenError>>)
      returns (res: Result<seq<Seat2<S2, P2>>, KeygenError>, table: map<Identifier, map<Identifier, P2>>)
    ensures res == Resolve(rs)
    ensures res.Ok? ==> forall r :: Row(table, r) == Inbox(res.value, r)
  {
    var seats: seq<Seat2<S2, P2>> := [];
    table := map[];
    assert rs[0..] == rs;
    PrependUnits([], Resolve(rs));
    for k := 0 to |rs|
      invariant Resolve(rs) == Prepend(seats, Resolve(rs[k..]))
      invariant forall r :: Row(table, r) == Inbox(seats, r)
    {
      assert rs[k..][1..] == rs[k + 1..];
      PrependStep(seats, rs[k..]);
      match rs[k] {
        case Err(e) => return Err(e), table;
        case Ok(s) =>
          table := FanOutOne(table, s);
          assert (seats + [s])[..|seats|] == seats;
          seats := seats + [s];
      }
    }
    PrependUnits(seats, Resolve(rs[|rs|..]));
    res := Ok(seats);
  }

  function Prepend<A>(xs: seq<A>, r: Result<seq<A>, KeygenError>): Result<seq<A>, KeygenError> {
    match r
    case Err(e) => Err(e)
    case Ok(rest) => Ok(xs + rest)
  }

  lemma PrependUnits<A>(xs: seq<A>, r: Result<seq<A>, KeygenError>)
    ensures Prepend([], r) == r && Prepend(xs, Ok([])) == Ok(xs)
  {
    assert r.Ok? ==> [] + r.value == r.value;
    assert xs + [] == xs;
  }

  lemma PrependMore<A>(xs: seq<A>, x: A, r: Result<seq<A>, KeygenError>)
    ensures Prepend(xs, Prepend([x], r)) == Prepend(xs + [x], r)
  {
    assert r.Ok? ==> xs + ([x] + r.value) == (xs + [x]) + r.value;
  }

  lemma PrependStep<A>(xs: seq<A>, rs: seq<Result<A, KeygenError>>)
    requires rs != []
    ensures rs[0].Err? ==> Prepend(xs, Resolve(rs)) == Err(rs[0].error)
    ensures rs[0].Ok? ==> Prepend(xs, Resolve(rs)) == Prepend(xs + [rs[0].value], Resolve(rs[1..]))
  {
    if rs[0].Ok? && Resolve(rs[1..]).Ok? {
      var rest := Resolve(rs[1..]).value;
      assert xs + ([rs[0].value] + rest) == (xs + [rs[0].value]) + rest;
    }
  }

  /** The fan-out is an exact transpose: recipient `r` holds under each sender precisely what that
      sender sent to `r`, and nothing else. */
  lemma {:induction false} InboxIsTranspose<S2, P2>(seats: seq<Seat2<S2, P2>>, r: Identifier)
    requires DistinctIds2(seats)
    ensures forall k :: 0 <= k < |seats| ==> (seats[k].id in Inbox(seats, r) <==> r in seats[k].sent)
    ensures forall k :: 0 <= k < |seats| && r in seats[k].sent ==> Inbox(seats, r)[seats[k].id] == seats[k].sent[r]
    ensures forall x :: x in Inbox(seats, r) ==> exists k :: 0 <= k < |seats| && seats[k].id == x && r in seats[k].sent
  {
    if seats != [] {
      var front := seats[..|seats| - 1];
      InboxIsTranspose(front, r);
      assert forall k :: 0 <= k < |front| ==> front[k] == seats[k];
      forall x | x in Inbox(seats, r) ensures exists k :: 0 <= k < |seats| && seats[k].id == x && r in seats[k].sent {
        if x in Inbox(front, r) {
          var k :| 0 <= k < |front| && front[k].id == x && r in front[k].sent;
          assert seats[k].id == x;
        } else {
          assert seats[|seats| - 1].id == x;
        }
      }
    }
  }

  // ---- the driver ----

  /** Round 1: the only round that consumes randomness, one seat after the other. */
  method RunRound1<S1, P1, S2, P2, KP, PK>(dkg: Dkg<S1, P1, S2, P2, KP, PK>, t: u16, n: u16, rng: nat)
      returns (res: Result<seq<Seat1<S1, P1>>, KeygenError>, pkgs: map<Identifier, P1>, rng': nat)
    ensures (res, rng') == Round1(dkg, t, n, 1, rng)
    ensures res.Ok? ==> pkgs == Packages(res.value)
  {
    var seats: seq<Seat1<S1, P1>> := [];
    pkgs := map[];
    rng' := rng;
    var i := 1;
    PrependUnits([], Round1(dkg, t, n, 1, rng).0);
    while i <= n
      invariant 1 <= i <= n + 1
      invariant Round1(dkg, t, n, 1, rng) ==
                (Prepend(seats, Round1(dkg, t, n, i, rng').0), Round1(dkg, t, n, i, rng').1)
      invariant pkgs == Packages(seats)
    {
      var (out, after) := dkg.part1(i, n, t, rng');
      match out {
        case Err(e) => return Err(DkgFailed(e)), pkgs, after;
        case Ok(pair) =>
          var s := Seat1(i, pair.0, pair.1);
          PrependMore(seats, s, Round1(dkg, t, n, i + 1, after).0);
          assert Round1(dkg, t, n, i, rng') ==
            (Prepend([s], Round1(dkg, t, n, i + 1, after).0), Round1(dkg, t, n, i + 1, after).1);
          assert (seats + [s])[..|seats|] == seats;
          seats, pkgs, rng' := seats + [s], pkgs[i := pair.1], after;
      }
      i := i + 1;
    }
    PrependUnits(seats, Round1(dkg, t, n, i, rng').0);
    res := Ok(seats);
  }

  lemma Round1Facts<S1, P1, S2, P2, KP, PK>(dkg: Dkg<S1, P1, S2, P2, KP, PK>, t: u16, n: u16, rng: nat)
    requires Round1(dkg, t, n, 1, rng).0.Ok?
    ensures var seats := Round1(dkg, t, n, 1, rng).0.value;
      DistinctIds1(seats) && forall k :: 0 <= k < |seats| ==> seats[k].id in Packages(seats)
  {
  }

  lemma JobOfSeats2<S1, P1>(
      pkgs: map<Identifier, P1>, seats: seq<Seat1<S1, P1>>, done: seq<Seat1<S1, P1>>, job: seq<Seat1<S1, P1>>, rest: seq<Seat1<S1, P1>>)
    requires seats == done + job + rest
    requires DistinctIds1(seats) && forall k :: 0 <= k < |seats| ==> seats[k].id in pkgs
    ensures DistinctIds1(job) && forall k :: 0 <= k < |job| ==> job[k].id in pkgs
  {
    assert forall k :: 0 <= k < |job| ==> job[k] == seats[|done| + k];
  }

  lemma JobOfSeats3<P1, S2, P2>(
      pkgs: map<Identifier, P1>, seats: seq<Seat2<S2, P2>>, done: seq<Seat2<S2, P2>>, job: seq<Seat2<S2, P2>>, rest: seq<Seat2<S2, P2>>)
    requires seats == done + job + rest
    requires DistinctIds2(seats) && forall k :: 0 <= k < |seats| ==> seats[k].id in pkgs
    ensures DistinctIds2(job) && forall k :: 0 <= k < |job| ==> job[k].id in pkgs
  {
    assert forall k :: 0 <= k < |job| ==> job[k] == seats[|done| + k];
  }

  lemma Results2Concat<S1, P1, S2, P2, KP, PK>(
      dkg: Dkg<S1, P1, S2, P2, KP, PK>, pkgs: map<Identifier, P1>, a: seq<Seat1<S1, P1>>, b: seq<Seat1<S1, P1>>)
    ensures Results2(dkg, pkgs, a + b) == Results2(dkg, pkgs, a) + Results2(dkg, pkgs, b)
  {
  }

  lemma Results3Concat<S1, P1, S2, P2, KP, PK>(
      dkg: Dkg<S1, P1, S2, P2, KP, PK>, pkgs: map<Identifier, P1>, all: seq<Seat2<S2, P2>>,
      a: seq<Seat2<S2, P2>>, b: seq<Seat2<S2, P2>>)
    ensures Results3(dkg, pkgs, all, a + b) == Results3(dkg, pkgs, all, a) + Results3(dkg, pkgs, all, b)
  {
  }

  method RunRound2<S1, P1, S2, P2, KP, PK>(
      dkg: Dkg<S1, P1, S2, P2, KP, PK>, pkgs: map<Identifier, P1>, seats: seq<Seat1<S1, P1>>, sizes: seq<nat>)
      returns (out: seq<Result<Seat2<S2, P2>, KeygenError>>)
    requires DistinctIds1(seats) && forall k :: 0 <= k < |seats| ==> seats[k].id in pkgs
    ensures AgreeToFirstError(out, Results2(dkg, pkgs, seats))
  {
    var jobs := Cut(seats, sizes);
    FlattenCut(seats, sizes);
    out := [];
    ghost var done: seq<Seat1<S1, P1>> := [];
    assert jobs[0..] == jobs && done + seats == seats;
    for j := 0 to |jobs|
      invariant seats == done + Flatten(jobs[j..])
      invariant AgreeToFirstError(out, Results2(dkg, pkgs, done))
    {
      var job := jobs[j];
      assert jobs[j..][1..] == jobs[j + 1..];
      assert seats == done + job + Flatten(jobs[j + 1..]);
      JobOfSeats2(pkgs, seats, done, job, Flatten(jobs[j + 1..]));
      var got := PooledRound2(dkg, pkgs, job);
      assert AgreeToFirstError(out + got, Results2(dkg, pkgs, done + job)) by {
        AgreeConcat(out, Results2(dkg, pkgs, done), got, Results2(dkg, pkgs, job));
        Results2Concat(dkg, pkgs, done, job);
      }
      out, done := out + got, done + job;
    }
    assert done == seats;
  }

  method RunRound3<S1, P1, S2, P2, KP, PK>(
      dkg: Dkg<S1, P1, S2, P2, KP, PK>, pkgs: map<Identifier, P1>,
      table: map<Identifier, map<Identifier, P2>>, seats: seq<Seat2<S2, P2>>, sizes: seq<nat>)
      returns (out: seq<Result<Seat3<KP, PK>, KeygenError>>)
    requires DistinctIds2(seats) && forall k :: 0 <= k < |seats| ==> seats[k].id in pkgs
    requires forall r :: Row(table, r) == Inbox(seats, r)
    ensures AgreeToFirstError(out, Results3(dkg, pkgs, seats, seats))
  {
    var jobs := Cut(seats, sizes);
    FlattenCut(seats, sizes);
    out := [];
    ghost var done: seq<Seat2<S2, P2>> := [];
    assert jobs[0..] == jobs && done + seats == seats;
    for j := 0 to |jobs|
      invariant seats == done + Flatten(jobs[j..])
      invariant AgreeToFirstError(out, Results3(dkg, pkgs, seats, done))
    {
      var job := jobs[j];
      assert jobs[j..][1..] == jobs[j + 1..];
      assert seats == done + job + Flatten(jobs[j + 1..]);
      JobOfSeats3(pkgs, seats, done, job, Flatten(jobs[j + 1..]));
      var got := PooledRound3(dkg, pkgs, table, seats, job);
      assert AgreeToFirstError(out + got, Results3(dkg, pkgs, seats, done + job)) by {
        AgreeConcat(out, Results3(dkg, pkgs, seats, done), got, Results3(dkg, pkgs, seats, job));
        Results3Concat(dkg, pkgs, seats, done, job);
      }
      out, done := out + got, done + job;
    }
    assert done == seats;
  }

  method RunConfirm<S1, P1, S2, P2, KP, PK>(
      dkg: Dkg<S1, P1, S2, P2, KP, PK>, rs: seq<Result<Seat3<KP, PK>, KeygenError>>)
      returns (res: Result<(map<Identifier, KP>, PK), KeygenError>)
    ensures res == Confirm(dkg, rs, None, map[])
  {
    var group: Option<PK> := None;
    var kps: map<Identifier, KP> := map[];
    assert rs[0..] == rs;
    for k := 0 to |rs|
      invariant Confirm(dkg, rs, None, map[]) == Confirm(dkg, rs[k..], group, kps)
    {
      assert rs[k..][1..] == rs[k + 1..];
      match rs[k] {
        case Err(e) => return Err(e);
        case Ok(s) =>
          if group.Some? {
            if dkg.groupKeyOf(group.value) != dkg.groupKeyOf(s.group) {
              return Err(GroupKeyMismatch(s.id));
            }
          } else {
            group := Some(s.group);
          }
          kps := kps[s.id := s.kp];
      }
    }
    match group {
      case None => res := Err(Empty);
      case Some(g) => res := Ok((kps, g));
    }
  }

  /** Seats keep their identifiers through round 2. */
  lemma Seats2Ids<S1, P1, S2, P2, KP, PK>(
      dkg: Dkg<S1, P1, S2, P2, KP, PK>, pkgs: map<Identifier, P1>, seats: seq<Seat1<S1, P1>>)
    requires Resolve(Results2(dkg, pkgs, seats)).Ok?
    ensures var out := Resolve(Results2(dkg, pkgs, seats)).value;
      |out| == |seats| && forall k :: 0 <= k < |seats| ==> out[k].id == seats[k].id
  {
    ResolveIsFirstError(Results2(dkg, pkgs, seats));
    var out := Resolve(Results2(dkg, pkgs, seats)).value;
    forall k | 0 <= k < |seats| ensures out[k].id == seats[k].id {
      assert Results2(dkg, pkgs, seats)[k] == Ok(out[k]);
    }
  }

  /** For every split of the seats into jobs in rounds 2 and 3, the parallel driver returns what the
      sequential reference returns: the same packages, the same error, the same use of randomness. */
  method RunInprocessDkg<S1, P1, S2, P2, KP, PK>(
      dkg: Dkg<S1, P1, S2, P2, KP, PK>, t: u16, n: u16, rng: nat, sizes2: seq<nat>, sizes3: seq<nat>)
      returns (res: Result<(map<Identifier, KP>, PK), KeygenError>, rng': nat)
    ensures (res, rng') == NaiveDkg(dkg, t, n, rng)
  {
    var r1, pkgs, after := RunRound1(dkg, t, n, rng);
    rng' := after;
    if r1.Err? {
      return Err(r1.error), after;
    }
    var seats1 := r1.value;
    Round1Facts(dkg, t, n, rng);
    var out2 := RunRound2(dkg, pkgs, seats1, sizes2);
    ResolveAgree(out2, Results2(dkg, pkgs, seats1));
    var r2, table := ResolveAndFanOut(out2);
    if r2.Err? {
      return Err(r2.error), after;
    }
    var seats2 := r2.value;
    Seats2Ids(dkg, pkgs, seats1);
    var out3 := RunRound3(dkg, pkgs, table, seats2, sizes3);
    ConfirmAgree(dkg, out3, Results3(dkg, pkgs, seats2, seats2), None, map[]);
    res := RunConfirm(dkg, out3);
  }

  // ---- what a completed ceremony delivers ----

  lemma {:induction false} ConfirmDelivers<S1, P1, S2, P2, KP, PK>(
      dkg: Dkg<S1, P1, S2, P2, KP, PK>, rs: seq<Result<Seat3<KP, PK>, KeygenError>>,
      group: Option<PK>, kps: map<Identifier, KP>)
    requires Confirm(dkg, rs, group, kps).Ok?
    ensures OkBefore(rs, |rs|)
    ensures var (out, g) := Confirm(dkg, rs, group, kps).value;
      && (group.Some? ==> g == group.value)
      && (group.None? ==> |rs| > 0 && g == rs[0].value.group)
      && (forall k :: 0 <= k < |rs| ==> dkg.groupKeyOf(rs[k].value.group) == dkg.groupKeyOf(g))
      && (forall x :: x in out <==> x in kps || exists k :: 0 <= k < |rs| && rs[k].value.id == x)
      && (forall x :: x in out ==> (x in kps && out[x] == kps[x]) ||
                                   exists k :: 0 <= k < |rs| && rs[k].value.id == x && rs[k].value.kp == out[x])
    decreases |rs|
  {
    if rs != [] {
      var s := rs[0].value;
      var group' := if group.Some? then group else Some(s.group);
      var kps' := kps[s.id := s.kp];
      var rest := rs[1..];
      ConfirmDelivers(dkg, rest, group', kps');
      assert forall k :: 0 < k < |rs| ==> rs[k] == rest[k - 1];
      var (out, g) := Confirm(dkg, rs, group, kps).value;
      forall x ensures x in out <==> x in kps || exists k :: 0 <= k < |rs| && rs[k].value.id == x {
        if x == s.id { assert rs[0].value.id == x; }
        if k :| 0 <= k < |rest| && rest[k].value.id == x { assert rs[k + 1].value.id == x; }
      }
      forall x | x in out ensures (x in kps && out[x] == kps[x]) ||
          exists k :: 0 <= k < |rs| && rs[k].value.id == x && rs[k].value.kp == out[x] {
        if k :| 0 <= k < |rest| && rest[k].value.id == x && rest[k].value.kp == out[x] {
          assert rs[k + 1].value.id == x && rs[k + 1].value.kp == out[x];
        } else if x == s.id {
          assert rs[0].value.id == x && rs[0].value.kp == out[x];
        }
      }
    }
  }

  /** Results that all succeeded and agree on the group key are confirmed. */
  lemma {:induction false} ConfirmSucceeds<S1, P1, S2, P2, KP, PK>(
      dkg: Dkg<S1, P1, S2, P2, KP, PK>, rs: seq<Result<Seat3<KP, PK>, KeygenError>>,
      group: Option<PK>, kps: map<Identifier, KP>, key: int)
    requires OkBefore(rs, |rs|) && (rs != [] || group.Some?)
    requires forall k :: 0 <= k < |rs| ==> dkg.groupKeyOf(rs[k].value.group) == key
    requires group.Some? ==> dkg.groupKeyOf(group.value) == key
    ensures Confirm(dkg, rs, group, kps).Ok?
    decreases |rs|
  {
    if rs != [] {
      var s := rs[0].value;
      assert forall k :: 0 <= k < |rs[1..]| ==> rs[1..][k] == rs[k + 1];
      ConfirmSucceeds(dkg, rs[1..], if group.Some? then group else Some(s.group), kps[s.id := s.kp], key);
    }
  }

  lemma AddedKeyCounts<A, B>(m: map<A, B>, k: A, v: B)
    requires k !in m
    ensures |m[k := v]| == |m| + 1
  {
    assert m[k := v].Keys == m.Keys + {k};
  }

  lemma {:induction false} PackagesFrom<S1, P1>(seats: seq<Seat1<S1, P1>>, x: Identifier)
    requires x in Packages(seats)
    ensures exists k :: 0 <= k < |seats| && seats[k].id == x
  {
    var last := |seats| - 1;
    if x == seats[last].id {
    } else {
      PackagesFrom(seats[..last], x);
      var k :| 0 <= k < last && seats[..last][k].id == x;
      assert seats[k].id == x;
    }
  }

  lemma {:induction false} PackagesExact<S1, P1>(seats: seq<Seat1<S1, P1>>)
    requires DistinctIds1(seats)
    ensures |Packages(seats)| == |seats|
    ensures forall k :: 0 <= k < |seats| ==> Packages(seats)[seats[k].id] == seats[k].pkg
  {
    if seats != [] {
      var last := |seats| - 1;
      var front := seats[..last];
      PackagesExact(front);
      if seats[last].id in Packages(front) {
        PackagesFrom(front, seats[last].id);
      }
      AddedKeyCounts(Packages(front), seats[last].id, seats[last].pkg);
      forall k | 0 <= k < last ensures Packages(seats)[seats[k].id] == seats[k].pkg {
        assert front[k] == seats[k];
      }
    }
  }

  /** Client-side confirmation: the first seat in ascending order whose key differs is reported. */
  method ConfirmGroupKey<S1, P1, S2, P2, KP, PK>(
      dkg: Dkg<S1, P1, S2, P2, KP, PK>, kps: map<Identifier, KP>, group: PK) returns (res: Result<(), KeygenError>)
    ensures res.Ok? <==> forall id :: id in kps ==> dkg.keyOf(kps[id]) == dkg.groupKeyOf(group)
    ensures res.Err? ==> res.error.GroupKeyMismatch? && res.error.seat in kps
    ensures res.Err? ==> dkg.keyOf(kps[res.error.seat]) != dkg.groupKeyOf(group)
    ensures res.Err? ==>
      forall id :: id in kps && id < res.error.seat ==> dkg.keyOf(kps[id]) == dkg.groupKeyOf(group)
  {
    var left := kps.Keys;
    while left != {}
      invariant left <= kps.Keys
      invariant forall id, other :: id in left && other in kps && other !in left ==> other < id
      invariant forall id :: id in kps && id !in left ==> dkg.keyOf(kps[id]) == dkg.groupKeyOf(group)
      decreases |left|
    {
      var id := Min(left);
      if dkg.keyOf(kps[id]) != dkg.groupKeyOf(group) {
        assert forall other :: other in kps && other < id ==> other !in left;
        return Err(GroupKeyMismatch(id));
      }
      left := left - {id};
    }
    res := Ok(());
  }

  /** A completed ceremony has exactly the seats `1..=n` and at least one, and if every seat's
      round-3 pair agrees on its own key then every key package carries the group key. */
  lemma CompletedCeremony<S1, P1(!new), S2(!new), P2(!new), KP, PK>(dkg: Dkg<S1, P1, S2, P2, KP, PK>, t: u16, n: u16, rng: nat)
    requires NaiveDkg(dkg, t, n, rng).0.Ok?
    ensures n > 0
    ensures forall id :: id in NaiveDkg(dkg, t, n, rng).0.value.0 <==> 1 <= id <= n
    ensures PairsAgree(dkg) ==> forall id :: id in NaiveDkg(dkg, t, n, rng).0.value.0 ==>
      dkg.keyOf(NaiveDkg(dkg, t, n, rng).0.value.0[id]) == dkg.groupKeyOf(NaiveDkg(dkg, t, n, rng).0.value.1)
  {
    var seats1 := Round1(dkg, t, n, 1, rng).0.value;
    var pkgs := Packages(seats1);
    var seats2 := Resolve(Results2(dkg, pkgs, seats1)).value;
    Seats2Ids(dkg, pkgs, seats1);
    var (out, g) := NaiveDkg(dkg, t, n, rng).0.value;
    SeatsDelivered(dkg, pkgs, seats2, n, out, g);
    if PairsAgree(dkg) {
      KeysDelivered(dkg, pkgs, seats2, out, g);
    }
  }

  lemma SeatsDelivered<S1, P1, S2, P2, KP, PK>(
      dkg: Dkg<S1, P1, S2, P2, KP, PK>, pkgs: map<Identifier, P1>, seats2: seq<Seat2<S2, P2>>, n: nat,
      out: map<Identifier, KP>, g: PK)
    requires Confirm(dkg, Results3(dkg, pkgs, seats2, seats2), None, map[]) == Ok((out, g))
    requires |seats2| == n && forall k :: 0 <= k < n ==> seats2[k].id == k + 1
    ensures n > 0 && forall id :: id in out <==> 1 <= id <= n
  {
    var rs := Results3(dkg, pkgs, seats2, seats2);
    ConfirmDelivers(dkg, rs, None, map[]);
    assert forall k :: 0 <= k < |rs| ==> rs[k].value.id == seats2[k].id;
    forall id ensures id in out <==> 1 <= id <= n {
      if 1 <= id <= n { assert rs[id - 1].value.id == id; }
    }
  }

  lemma KeysDelivered<S1, P1(!new), S2(!new), P2(!new), KP, PK>(
      dkg: Dkg<S1, P1, S2, P2, KP, PK>, pkgs: map<Identifier, P1>, seats2: seq<Seat2<S2, P2>>,
      out: map<Identifier, KP>, g: PK)
    requires Confirm(dkg, Results3(dkg, pkgs, seats2, seats2), None, map[]) == Ok((out, g)) && PairsAgree(dkg)
    ensures forall id :: id in out ==> dkg.keyOf(out[id]) == dkg.groupKeyOf(g)
  {
    var rs := Results3(dkg, pkgs, seats2, seats2);
    ConfirmDelivers(dkg, rs, None, map[]);
    forall id | id in out ensures dkg.keyOf(out[id]) == dkg.groupKeyOf(g) {
      var k :| 0 <= k < |rs| && rs[k].value.id == id && rs[k].value.kp == out[id];
      var pair := dkg.part3(seats2[k].secret, pkgs - {seats2[k].id}, Inbox(seats2, seats2[k].id)).value;
      assert rs[k].value == Seat3(seats2[k].id, dkg.evenKey(pair.0), dkg.evenGroup(pair.1));
    }
  }

  /** Each seat's own key package and public-key package carry one verifying key. */
  ghost predicate PairsAgree<S1, P1(!new), S2(!new), P2(!new), KP, PK>(dkg: Dkg<S1, P1, S2, P2, KP, PK>) {
    forall s: S2, others: map<Identifier, P1>, inbox: map<Identifier, P2> ::
      dkg.part3(s, others, inbox).Ok? ==>
        dkg.keyOf(dkg.evenKey(dkg.part3(s, others, inbox).value.0)) ==
        dkg.groupKeyOf(dkg.evenGroup(dkg.part3(s, others, inbox).value.1))
  }
}
