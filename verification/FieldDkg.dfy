/** The distributed key generation of the prime-order group, run by the in-process driver.

    Commitments to coefficients are represented by the coefficients themselves, as everywhere in
    this instance; proofs of knowledge are left out. */
module FieldDkg {
  import opened Wrappers
  import opened Ordered
  import opened Text
  import opened Envelopes
  import opened Frost
  import opened Keygen
  import opened Ceremonies
  import opened Field
  import opened FieldFrost

  datatype Secret1 = Secret1(id: Identifier, poly: seq<int>, t: u16, n: u16)

  datatype Secret2 = Secret2(id: Identifier, poly: seq<int>, own: nat, t: u16, n: u16)

  const BAD_PARAMETERS: FrostError := FrostError(10, [])
  const BAD_ROUND: FrostError := FrostError(11, [])

  /** Seat `id` takes its `t` coefficients from the random stream. */
  function Part1(c: Curve, stream: nat -> int, id: Identifier, n: u16, t: u16, rng: nat)
      : (Result<(Secret1, seq<int>), FrostError>, nat)
    requires c.q > 0
  {
    if t < 2 || n < 2 || t > n then (Err(BAD_PARAMETERS), rng) else
      var poly: seq<int> := seq(t, j requires 0 <= j < t => stream(rng + j) % c.q);
      (Ok((Secret1(id, poly, t, n), poly)), rng + t)
  }

  function Part2(c: Curve, s: Secret1, others: map<Identifier, seq<int>>)
      : Result<(Secret2, map<Identifier, nat>), FrostError>
    requires c.q > 0
  {
    if |others| != s.n - 1 || exists k :: k in others && |others[k]| != s.t then Err(BAD_ROUND)
    else Ok((Secret2(s.id, s.poly, Mod(c, Eval(s.poly, s.id)), s.t, s.n),
             map r | r in others :: Mod(c, Eval(s.poly, r))))
  }

  /** One's own polynomial among the others'. */
  function AllPolys(s: Secret2, others: map<Identifier, seq<int>>): map<Identifier, seq<int>> {
    others[s.id := s.poly]
  }

  function Received(s: Secret2, inbox: map<Identifier, nat>, ids: seq<Identifier>): (r: seq<int>)
    requires forall i :: 0 <= i < |ids| ==> ids[i] == s.id || ids[i] in inbox
    ensures |r| == |ids|
    ensures forall i :: 0 <= i < |ids| ==> r[i] == if ids[i] == s.id then s.own else inbox[ids[i]]
  {
    seq(|ids|, i requires 0 <= i < |ids| => if ids[i] == s.id then s.own else inbox[ids[i]])
  }

  function ValuesOf(polys: map<Identifier, seq<int>>, ids: seq<Identifier>, x: int): (r: seq<int>)
    requires forall i :: 0 <= i < |ids| ==> ids[i] in polys
    ensures |r| == |ids| && forall i :: 0 <= i < |ids| ==> r[i] == Eval(polys[ids[i]], x)
  {
    seq(|ids|, i requires 0 <= i < |ids| => Eval(polys[ids[i]], x))
  }

  /** The sum of the polynomials at `x`. */
  function SumAt(c: Curve, polys: map<Identifier, seq<int>>, x: int): nat
    requires c.q > 0
  {
    Mod(c, Total(ValuesOf(polys, Roster(polys), x)))
  }

  /** The public side of the result: the key and every seat's verifying share. */
  function GroupOf(c: Curve, polys: map<Identifier, seq<int>>, t: nat): GroupPackage
    requires c.q > 0
  {
    GroupPackage(SumAt(c, polys, 0), map id | id in polys :: SumAt(c, polys, id), t)
  }

  /** The first sender whose value does not fit its commitment. */
  function FirstMismatch(c: Curve, me: Identifier, others: map<Identifier, seq<int>>, inbox: map<Identifier, nat>, ids: seq<Identifier>)
      : (r: seq<Identifier>)
    requires c.q > 0 && forall i :: 0 <= i < |ids| ==> ids[i] in others && ids[i] in inbox
    ensures r == [] <==> forall i :: 0 <= i < |ids| ==> Cong(c.q, inbox[ids[i]], Eval(others[ids[i]], me))
  {
    if ids == [] then []
    else if !Cong(c.q, inbox[ids[0]], Eval(others[ids[0]], me)) then [ids[0]]
    else
      assert forall i :: 0 <= i < |ids[1..]| ==> ids[1..][i] == ids[i + 1];
      FirstMismatch(c, me, others, inbox, ids[1..])
  }

  /** Check every received share against its sender's commitment, then add everything up. */
  function Part3(c: Curve, s: Secret2, others: map<Identifier, seq<int>>, inbox: map<Identifier, nat>)
      : Result<(KeyPackage, GroupPackage), FrostError>
    requires c.q > 0
  {
    if |others| != s.n - 1 || others.Keys != inbox.Keys then Err(BAD_ROUND)
    else if FirstMismatch(c, s.id, others, inbox, Roster(others)) != []
    then Err(BadShare(FirstMismatch(c, s.id, others, inbox, Roster(others))))
    else
      var polys := AllPolys(s, others);
      var group := GroupOf(c, polys, s.t);
      Ok((KeyPackage(s.id, Mod(c, Total(Received(s, inbox, Roster(polys)))), group.key, s.t), group))
  }

  function Instance(c: Curve, stream: nat -> int)
      : Dkg<Secret1, seq<int>, Secret2, nat, KeyPackage, GroupPackage>
    requires c.q > 0
  {
    Dkg(
      (id, n, t, rng) => Part1(c, stream, id, n, t, rng),
      (s, others) => Part2(c, s, others),
      (s, others, inbox) => Part3(c, s, others, inbox),
      kp => EvenKey(c, kp),
      g => EvenGroup(c, g),
      (kp: KeyPackage) => kp.key,
      (g: GroupPackage) => g.key)
  }

  // ---- the sum of the seats' polynomials ----

  function AddPoly(f: seq<int>, g: seq<int>): (h: seq<int>)
    requires |f| == |g|
    ensures |h| == |f|
  {
    seq(|f|, i requires 0 <= i < |f| => f[i] + g[i])
  }

  lemma {:induction false} EvalAdd(f: seq<int>, g: seq<int>, x: int)
    requires |f| == |g|
    ensures Eval(AddPoly(f, g), x) == Eval(f, x) + Eval(g, x)
  {
    if f != [] {
      assert AddPoly(f, g)[1..] == AddPoly(f[1..], g[1..]);
      EvalAdd(f[1..], g[1..], x);
      Distribute(x, Eval(f[1..], x), Eval(g[1..], x));
    }
  }

  lemma {:induction false} EvalZeros(t: nat, x: int)
    ensures Eval(seq(t, _ => 0), x) == 0
  {
    if t > 0 {
      assert seq(t, _ => 0)[1..] == seq(t - 1, _ => 0);
      EvalZeros(t - 1, x);
    }
  }

  function SumPoly(polys: map<Identifier, seq<int>>, ids: seq<Identifier>, t: nat): (f: seq<int>)
    requires forall i :: 0 <= i < |ids| ==> ids[i] in polys && |polys[ids[i]]| == t
    ensures |f| == t
  {
    if ids == [] then seq(t, _ => 0) else
      AddPoly(SumPoly(polys, ids[..|ids| - 1], t), polys[ids[|ids| - 1]])
  }

  lemma {:induction false} EvalSumPoly(polys: map<Identifier, seq<int>>, ids: seq<Identifier>, t: nat, x: int)
    requires forall i :: 0 <= i < |ids| ==> ids[i] in polys && |polys[ids[i]]| == t
    ensures Eval(SumPoly(polys, ids, t), x) == Total(ValuesOf(polys, ids, x))
  {
    if ids == [] {
      EvalZeros(t, x);
    } else {
      var front := ids[..|ids| - 1];
      EvalSumPoly(polys, front, t, x);
      EvalAdd(SumPoly(polys, front, t), polys[ids[|ids| - 1]], x);
      assert ValuesOf(polys, ids, x)[..|ids| - 1] == ValuesOf(polys, front, x);
    }
  }

  lemma {:induction false} TotalCong(q: int, xs: seq<int>, ys: seq<int>)
    requires q > 0 && |xs| == |ys| && forall i :: 0 <= i < |xs| ==> Cong(q, xs[i], ys[i])
    ensures Cong(q, Total(xs), Total(ys))
  {
    if xs != [] {
      var last := |xs| - 1;
      TotalCong(q, xs[..last], ys[..last]);
      CongAdd(q, Total(xs[..last]), Total(ys[..last]), xs[last], ys[last]);
    }
  }

  // ---- the honest ceremony ----

  ghost predicate GoodSeat(s: Seat1<Secret1, seq<int>>, t: u16, n: u16) {
    s.secret == Secret1(s.id, s.pkg, t, n) && |s.pkg| == t
  }

  lemma {:induction false} Round1Good(c: Curve, stream: nat -> int, t: u16, n: u16, i: nat, rng: nat)
    requires c.q > 0 && 2 <= t <= n && 1 <= i <= n + 1
    ensures var r := Round1(Instance(c, stream), t, n, i, rng).0;
      r.Ok? && forall k :: 0 <= k < |r.value| ==> GoodSeat(r.value[k], t, n)
    decreases n + 1 - i
  {
    if i <= n {
      var (out, rng') := Part1(c, stream, i, n, t, rng);
      Round1Good(c, stream, t, n, i + 1, rng');
      var rest := Round1(Instance(c, stream), t, n, i + 1, rng').0.value;
      var all := Round1(Instance(c, stream), t, n, i, rng).0.value;
      assert all == [Seat1(i, out.value.0, out.value.1)] + rest;
    }
  }

  /** All seats and what they committed to. */
  ghost predicate Ceremony(seats: seq<Seat1<Secret1, seq<int>>>, pkgs: map<Identifier, seq<int>>, t: u16, n: u16) {
    && 2 <= t <= n == |seats| && |pkgs| == n
    && (forall k :: 0 <= k < n ==> seats[k].id == k + 1 && GoodSeat(seats[k], t, n))
    && (forall id :: id in pkgs <==> 1 <= id <= n)
    && forall k :: 0 <= k < n ==> seats[k].id in pkgs && pkgs[seats[k].id] == seats[k].pkg
  }

  lemma CeremonyStarts(c: Curve, stream: nat -> int, t: u16, n: u16, rng: nat)
    requires c.q > 0 && 2 <= t <= n
    ensures var r := Round1(Instance(c, stream), t, n, 1, rng).0;
      r.Ok? && Ceremony(r.value, Packages(r.value), t, n)
  {
    Round1Good(c, stream, t, n, 1, rng);
    var seats := Round1(Instance(c, stream), t, n, 1, rng).0.value;
    Round1Facts(Instance(c, stream), t, n, rng);
    PackagesExact(seats);
    forall id ensures id in Packages(seats) <==> 1 <= id <= n {
      if 1 <= id <= n { assert seats[id - 1].id == id; }
      if id in Packages(seats) { PackagesFrom(seats, id); }
    }
  }

  /** What seat `k` holds and sends after round 2. */
  ghost predicate GoodSeat2(c: Curve, s: Seat2<Secret2, nat>, pkgs: map<Identifier, seq<int>>, t: u16, n: u16)
    requires c.q > 0
  {
    && s.id in pkgs
    && s.secret == Secret2(s.id, pkgs[s.id], Mod(c, Eval(pkgs[s.id], s.id)), t, n)
    && (forall r :: r in s.sent <==> r in pkgs && r != s.id)
    && forall r :: r in s.sent ==> s.sent[r] == Mod(c, Eval(pkgs[s.id], r))
  }

  lemma Part2Good(c: Curve, stream: nat -> int, seats: seq<Seat1<Secret1, seq<int>>>, pkgs: map<Identifier, seq<int>>, t: u16, n: u16, k: nat)
    requires c.q > 0 && Ceremony(seats, pkgs, t, n) && k < n
    ensures var r := Part2Of(Instance(c, stream), pkgs - {seats[k].id}, seats[k]);
      r.Ok? && r.value.id == k + 1 && GoodSeat2(c, r.value, pkgs, t, n)
  {
    var others := pkgs - {seats[k].id};
    assert pkgs.Keys == others.Keys + {seats[k].id};
    assert |others| == n - 1;
    forall j | j in others ensures |others[j]| == t {
      var i := (j as int) - 1;
      assert seats[i].id == j && GoodSeat(seats[i], t, n);
    }
  }

  lemma Round2Good(c: Curve, stream: nat -> int, seats: seq<Seat1<Secret1, seq<int>>>, pkgs: map<Identifier, seq<int>>, t: u16, n: u16)
    requires c.q > 0 && Ceremony(seats, pkgs, t, n)
    ensures var r := Resolve(Results2(Instance(c, stream), pkgs, seats));
      r.Ok? && |r.value| == n && forall k :: 0 <= k < n ==> r.value[k].id == k + 1 && GoodSeat2(c, r.value[k], pkgs, t, n)
  {
    var rs := Results2(Instance(c, stream), pkgs, seats);
    forall k | 0 <= k < n ensures rs[k].Ok? && rs[k].value.id == k + 1 && GoodSeat2(c, rs[k].value, pkgs, t, n) {
      Part2Good(c, stream, seats, pkgs, t, n, k);
    }
    ResolveIsFirstError(rs);
  }

  /** The group polynomial and key before normalization. */
  function GroupPoly(pkgs: map<Identifier, seq<int>>, t: nat): seq<int>
    requires forall id :: id in pkgs ==> |pkgs[id]| == t
  {
    SumPoly(pkgs, Roster(pkgs), t)
  }

  /** The normalized packages every seat ends with. */
  ghost predicate GoodSeat3(c: Curve, s: Seat3<KeyPackage, GroupPackage>, pkgs: map<Identifier, seq<int>>, t: u16)
    requires c.q > 0 && forall id :: id in pkgs ==> |pkgs[id]| == t
  {
    var key := SumAt(c, pkgs, 0);
    && s.group == EvenGroup(c, GroupOf(c, pkgs, t))
    && s.kp.id == s.id && s.kp.key == EvenRep(c, key) && s.kp.min == t && s.id in pkgs
    && Cong(c.q, s.kp.share, Sign(c, key) * Eval(GroupPoly(pkgs, t), s.id))
  }

  lemma PolysComplete(c: Curve, s: Seat2<Secret2, nat>, pkgs: map<Identifier, seq<int>>, t: u16, n: u16)
    requires c.q > 0 && GoodSeat2(c, s, pkgs, t, n)
    ensures AllPolys(s.secret, pkgs - {s.id}) == pkgs
  {
  }

  ghost predicate AllGood2(c: Curve, all: seq<Seat2<Secret2, nat>>, pkgs: map<Identifier, seq<int>>, t: u16, n: u16)
    requires c.q > 0
  {
    && |all| == n == |pkgs| && (forall id :: id in pkgs <==> 1 <= id <= n)
    && (forall id :: id in pkgs ==> |pkgs[id]| == t)
    && forall i :: 0 <= i < n ==> all[i].id == i + 1 && GoodSeat2(c, all[i], pkgs, t, n)
  }

  /** What sender `s` shows up with in the inbox of `me`. */
  lemma InboxEntry(c: Curve, all: seq<Seat2<Secret2, nat>>, pkgs: map<Identifier, seq<int>>, t: u16, n: u16, me: Identifier, s: Identifier)
    requires c.q > 0 && AllGood2(c, all, pkgs, t, n) && me in pkgs
    ensures s in Inbox(all, me) <==> s in pkgs && s != me
    ensures s in Inbox(all, me) ==> Inbox(all, me)[s] == Mod(c, Eval(pkgs[s], me))
  {
    InboxIsTranspose(all, me);
    if s in pkgs {
      var i := (s as int) - 1;
      assert all[i].id == s && GoodSeat2(c, all[i], pkgs, t, n);
    }
    if s in Inbox(all, me) {
      InboxOnlyFromSeats(c, all, pkgs, t, n, me, s);
    }
  }

  lemma InboxOnlyFromSeats(
      c: Curve, all: seq<Seat2<Secret2, nat>>, pkgs: map<Identifier, seq<int>>, t: u16, n: u16, me: Identifier, s: Identifier)
    requires c.q > 0 && AllGood2(c, all, pkgs, t, n) && s in Inbox(all, me)
    ensures s in pkgs
  {
    InboxIsTranspose(all, me);
    var i :| 0 <= i < |all| && all[i].id == s && me in all[i].sent;
    assert GoodSeat2(c, all[i], pkgs, t, n);
  }

  /** What every other seat sent to seat `me`, as its inbox shows it. */
  lemma InboxGood(c: Curve, all: seq<Seat2<Secret2, nat>>, pkgs: map<Identifier, seq<int>>, t: u16, n: u16, me: Identifier)
    requires c.q > 0 && AllGood2(c, all, pkgs, t, n) && me in pkgs
    ensures Inbox(all, me).Keys == pkgs.Keys - {me}
    ensures forall s :: s in Inbox(all, me) ==> Inbox(all, me)[s] == Mod(c, Eval(pkgs[s], me))
  {
    forall s ensures s in Inbox(all, me) <==> s in pkgs && s != me
      ensures s in Inbox(all, me) ==> Inbox(all, me)[s] == Mod(c, Eval(pkgs[s], me))
    {
      InboxEntry(c, all, pkgs, t, n, me, s);
    }
  }

  /** The received values add up to the group polynomial at one's own identifier. */
  lemma ReceivedTotal(c: Curve, s: Secret2, pkgs: map<Identifier, seq<int>>, inbox: map<Identifier, nat>, t: nat)
    requires c.q > 0 && s.id in pkgs && s.own == Mod(c, Eval(pkgs[s.id], s.id))
    requires inbox.Keys == pkgs.Keys - {s.id} && forall k :: k in inbox ==> inbox[k] == Mod(c, Eval(pkgs[k], s.id))
    requires forall id :: id in pkgs ==> |pkgs[id]| == t
    ensures forall i :: 0 <= i < |Roster(pkgs)| ==> Roster(pkgs)[i] == s.id || Roster(pkgs)[i] in inbox
    ensures Cong(c.q, Total(Received(s, inbox, Roster(pkgs))), Eval(GroupPoly(pkgs, t), s.id))
  {
    var ids := Roster(pkgs);
    assert forall i :: 0 <= i < |ids| ==> ids[i] in pkgs;
    var got, exact := Received(s, inbox, ids), ValuesOf(pkgs, ids, s.id);
    forall i | 0 <= i < |ids| ensures Cong(c.q, got[i], exact[i]) {
      CongMod(c.q, Eval(pkgs[ids[i]], s.id));
    }
    TotalCong(c.q, got, exact);
    EvalSumPoly(pkgs, ids, t, s.id);
  }

  /** The group's key and verifying shares are the values of the group polynomial. */
  lemma SumIsValue(c: Curve, pkgs: map<Identifier, seq<int>>, t: nat, x: int)
    requires c.q > 0 && forall id :: id in pkgs ==> |pkgs[id]| == t
    ensures SumAt(c, pkgs, x) == Mod(c, Eval(GroupPoly(pkgs, t), x))
  {
    EvalSumPoly(pkgs, Roster(pkgs), t, x);
  }

  lemma NormalizedShare(c: Curve, s: int, share: int, v: int)
    requires c.q > 0 && Cong(c.q, share, v)
    ensures Cong(c.q, Mod(c, s * Mod(c, share)), s * v)
  {
    CongMod(c.q, share);
    CongTrans(c.q, share % c.q, share, v);
    CongAffine(c.q, share % c.q, v, s, 0);
  }

  lemma Part3Accepts(c: Curve, s: Secret2, others: map<Identifier, seq<int>>, inbox: map<Identifier, nat>, n: u16)
    requires c.q > 0 && s.n == n && |others| == n - 1 && others.Keys == inbox.Keys
    requires forall k :: k in inbox ==> inbox[k] == Mod(c, Eval(others[k], s.id))
    ensures Part3(c, s, others, inbox).Ok?
  {
    forall k | k in others ensures Cong(c.q, inbox[k], Eval(others[k], s.id)) {
      CongMod(c.q, Eval(others[k], s.id));
    }
  }

  /** Rounds 2 and 3 refuse anything but one package, of the right length, from each other seat. */
  lemma WrongPackagesRefused(c: Curve, s1: Secret1, s2: Secret2, others: map<Identifier, seq<int>>, inbox: map<Identifier, nat>)
    requires c.q > 0
    ensures Part2(c, s1, others).Ok? <==> |others| == s1.n - 1 && forall k :: k in others ==> |others[k]| == s1.t
    ensures |others| != s2.n - 1 || others.Keys != inbox.Keys ==> Part3(c, s2, others, inbox) == Err(BAD_ROUND)
  {
  }

  /** A received value is accepted exactly if it is, modulo the order, the one its sender committed to;
      otherwise a sender of a wrong one is named. */
  lemma Part3Judges(c: Curve, s: Secret2, others: map<Identifier, seq<int>>, inbox: map<Identifier, nat>)
    requires c.q > 0 && |others| == s.n - 1 && others.Keys == inbox.Keys
    ensures Part3(c, s, others, inbox).Ok? <==> forall k :: k in others ==> Cong(c.q, inbox[k], Eval(others[k], s.id))
    ensures Part3(c, s, others, inbox).Err? ==> exists k ::
      && k in others && Part3(c, s, others, inbox) == Err(BadShare([k])) && !Cong(c.q, inbox[k], Eval(others[k], s.id))
      && forall j :: j in others && j < k ==> Cong(c.q, inbox[j], Eval(others[j], s.id))
  {
    FirstIsMismatch(c, s.id, others, inbox, Roster(others));
  }

  lemma {:induction false} FirstIsMismatch(
      c: Curve, me: Identifier, others: map<Identifier, seq<int>>, inbox: map<Identifier, nat>, ids: seq<Identifier>)
    requires c.q > 0 && forall i :: 0 <= i < |ids| ==> ids[i] in others && ids[i] in inbox
    requires StrictlyAscending(ids)
    ensures FirstMismatch(c, me, others, inbox, ids) != [] ==> exists k ::
      && k in ids && FirstMismatch(c, me, others, inbox, ids) == [k] && !Cong(c.q, inbox[k], Eval(others[k], me))
      && forall j :: j in ids && j < k ==> Cong(c.q, inbox[j], Eval(others[j], me))
  {
    if ids != [] && Cong(c.q, inbox[ids[0]], Eval(others[ids[0]], me)) {
      FirstIsMismatch(c, me, others, inbox, ids[1..]);
      assert forall j :: j in ids <==> j == ids[0] || j in ids[1..];
    } else if ids != [] {
      assert ids[0] in ids;
    }
  }

  lemma Part3Good(
      c: Curve, stream: nat -> int, all: seq<Seat2<Secret2, nat>>, pkgs: map<Identifier, seq<int>>, t: u16, n: u16, k: nat)
    requires c.q > 0 && AllGood2(c, all, pkgs, t, n) && k < n
    ensures var r := Part3Of(Instance(c, stream), pkgs - {all[k].id}, all[k], Inbox(all, all[k].id));
      r.Ok? && r.value.id == k + 1 && GoodSeat3(c, r.value, pkgs, t)
  {
    var me, s, others, inbox := all[k].id, all[k].secret, pkgs - {all[k].id}, Inbox(all, all[k].id);
    assert GoodSeat2(c, all[k], pkgs, t, n);
    InboxGood(c, all, pkgs, t, n, me);
    assert pkgs.Keys == others.Keys + {me};
    assert |others| == n - 1;
    PolysComplete(c, all[k], pkgs, t, n);
    ReceivedTotal(c, s, pkgs, inbox, t);
    Part3Value(c, s, others, inbox, pkgs, n);
    Seat3Good(c, s, inbox, pkgs, t, Part3Of(Instance(c, stream), others, all[k], inbox).value);
  }

  lemma Part3Value(
      c: Curve, s: Secret2, others: map<Identifier, seq<int>>, inbox: map<Identifier, nat>, pkgs: map<Identifier, seq<int>>, n: u16)
    requires c.q > 0 && s.n == n && |others| == n - 1 && others.Keys == inbox.Keys
    requires forall k :: k in inbox ==> inbox[k] == Mod(c, Eval(others[k], s.id))
    requires AllPolys(s, others) == pkgs && forall i :: 0 <= i < |Roster(pkgs)| ==> Roster(pkgs)[i] == s.id || Roster(pkgs)[i] in inbox
    ensures Part3(c, s, others, inbox) ==
      Ok((KeyPackage(s.id, Mod(c, Total(Received(s, inbox, Roster(pkgs)))), SumAt(c, pkgs, 0), s.t), GroupOf(c, pkgs, s.t)))
  {
    Part3Accepts(c, s, others, inbox, n);
  }

  /** Normalizing what round 3 computes. */
  lemma Seat3Good(
      c: Curve, s: Secret2, inbox: map<Identifier, nat>, pkgs: map<Identifier, seq<int>>, t: u16, out: Seat3<KeyPackage, GroupPackage>)
    requires c.q > 0 && s.t == t && s.id in pkgs && forall id :: id in pkgs ==> |pkgs[id]| == t
    requires forall i :: 0 <= i < |Roster(pkgs)| ==> Roster(pkgs)[i] == s.id || Roster(pkgs)[i] in inbox
    requires Cong(c.q, Total(Received(s, inbox, Roster(pkgs))), Eval(GroupPoly(pkgs, t), s.id))
    requires out.id == s.id && out.group == EvenGroup(c, GroupOf(c, pkgs, t))
    requires out.kp == EvenKey(c, KeyPackage(s.id, Mod(c, Total(Received(s, inbox, Roster(pkgs)))), SumAt(c, pkgs, 0), t))
    ensures GoodSeat3(c, out, pkgs, t)
  {
    NormalizedShare(
      c, Sign(c, SumAt(c, pkgs, 0)), Total(Received(s, inbox, Roster(pkgs))), Eval(GroupPoly(pkgs, t), s.id));
  }

  /** Rounds 1 and 2 succeed for everybody. */
  lemma CeremonyProceeds(c: Curve, stream: nat -> int, t: u16, n: u16, rng: nat)
      returns (pkgs: map<Identifier, seq<int>>, all: seq<Seat2<Secret2, nat>>)
    requires c.q > 0 && 2 <= t <= n
    ensures AllGood2(c, all, pkgs, t, n)
    ensures NaiveDkg(Instance(c, stream), t, n, rng).0 ==
      Confirm(Instance(c, stream), Results3(Instance(c, stream), pkgs, all, all), None, map[])
  {
    var dkg := Instance(c, stream);
    CeremonyStarts(c, stream, t, n, rng);
    var seats := Round1(dkg, t, n, 1, rng).0.value;
    pkgs := Packages(seats);
    Round2Good(c, stream, seats, pkgs, t, n);
    all := Resolve(Results2(dkg, pkgs, seats)).value;
    forall id | id in pkgs ensures |pkgs[id]| == t {
      var i := (id as int) - 1;
      assert seats[i].id == id && GoodSeat(seats[i], t, n);
    }
  }

  /** Round 3 succeeds for everybody, with one group. */
  lemma Round3Good(c: Curve, stream: nat -> int, all: seq<Seat2<Secret2, nat>>, pkgs: map<Identifier, seq<int>>, t: u16, n: u16)
    requires c.q > 0 && AllGood2(c, all, pkgs, t, n)
    ensures var rs := Results3(Instance(c, stream), pkgs, all, all);
      forall k :: 0 <= k < n ==> rs[k].Ok? && rs[k].value.id == k + 1 && GoodSeat3(c, rs[k].value, pkgs, t)
  {
    var rs := Results3(Instance(c, stream), pkgs, all, all);
    forall k | 0 <= k < n
      ensures rs[k].Ok? && rs[k].value.id == k + 1 && GoodSeat3(c, rs[k].value, pkgs, t)
    {
      Part3Good(c, stream, all, pkgs, t, n, k);
    }
  }

  /** The polynomial of the normalized shares. */
  function NormalPoly(c: Curve, pkgs: map<Identifier, seq<int>>, t: nat): (f: seq<int>)
    requires c.q > 0 && forall id :: id in pkgs ==> |pkgs[id]| == t
    ensures |f| == t
  {
    Scale(GroupPoly(pkgs, t), Sign(c, SumAt(c, pkgs, 0)))
  }

  lemma NormalizedValue(c: Curve, pkgs: map<Identifier, seq<int>>, t: nat, x: int)
    requires c.q > 0 && forall id :: id in pkgs ==> |pkgs[id]| == t
    ensures Mod(c, Sign(c, SumAt(c, pkgs, 0)) * SumAt(c, pkgs, x)) == Mod(c, Eval(NormalPoly(c, pkgs, t), x))
  {
    var s, v := Sign(c, SumAt(c, pkgs, 0)), Eval(GroupPoly(pkgs, t), x);
    SumIsValue(c, pkgs, t, x);
    EvalScale(GroupPoly(pkgs, t), s, x);
    CongMod(c.q, v);
    CongScale(c.q, v % c.q, v, s);
    CongUnique(c.q, s * (v % c.q), s * v);
  }

  /** Key and verifying shares lie on it. */
  lemma GroupOnPolynomial(c: Curve, pkgs: map<Identifier, seq<int>>, t: nat)
    requires c.q > 0 && forall id :: id in pkgs ==> |pkgs[id]| == t
    ensures var g := EvenGroup(c, GroupOf(c, pkgs, t));
      (t > 0 ==> GroupFits(c, NormalPoly(c, pkgs, t), g)) && g.shares.Keys == pkgs.Keys && g.min == t
  {
    var g, f := EvenGroup(c, GroupOf(c, pkgs, t)), NormalPoly(c, pkgs, t);
    NormalizedValue(c, pkgs, t, 0);
    forall id | id in g.shares ensures Cong(c.q, g.shares[id], Eval(f, id)) {
      NormalizedValue(c, pkgs, t, id);
      CongMod(c.q, Eval(f, id));
    }
  }

  /** The seat's package lies on `f`, and its group is `g`. */
  ghost predicate SeatFits(c: Curve, s: Seat3<KeyPackage, GroupPackage>, f: seq<int>, g: GroupPackage)
    requires c.q > 0
  {
    && s.group == g && s.kp.id == s.id && s.kp.key == g.key && s.kp.min == g.min && s.id in g.shares
    && Cong(c.q, s.kp.share, Eval(f, s.id))
  }

  lemma SeatOnPolynomial(c: Curve, s: Seat3<KeyPackage, GroupPackage>, pkgs: map<Identifier, seq<int>>, t: u16)
    requires c.q > 0 && (forall id :: id in pkgs ==> |pkgs[id]| == t) && GoodSeat3(c, s, pkgs, t)
    ensures SeatFits(c, s, NormalPoly(c, pkgs, t), EvenGroup(c, GroupOf(c, pkgs, t)))
  {
    EvalScale(GroupPoly(pkgs, t), Sign(c, SumAt(c, pkgs, 0)), s.id);
  }

  /** Key and verifying shares of the group lie on the polynomial. */
  ghost predicate GroupFits(c: Curve, f: seq<int>, g: GroupPackage)
    requires c.q > 0
  {
    f != [] && g.key == Mod(c, Eval(f, 0)) && forall id :: id in g.shares ==> Cong(c.q, g.shares[id], Eval(f, id))
  }

  /** Round 3 leaves every seat on one polynomial, with one group. */
  lemma Round3Fits(c: Curve, stream: nat -> int, all: seq<Seat2<Secret2, nat>>, pkgs: map<Identifier, seq<int>>, t: u16, n: u16)
      returns (f: seq<int>, g: GroupPackage)
    requires c.q > 0 && t > 0 && AllGood2(c, all, pkgs, t, n)
    ensures |f| == t && GroupFits(c, f, g) && g.min == t && forall id :: id in g.shares <==> 1 <= id <= n
    ensures var rs := Results3(Instance(c, stream), pkgs, all, all);
      forall k :: 0 <= k < n ==> rs[k].Ok? && rs[k].value.id == k + 1 && SeatFits(c, rs[k].value, f, g)
  {
    f, g := NormalPoly(c, pkgs, t), EvenGroup(c, GroupOf(c, pkgs, t));
    GroupOnPolynomial(c, pkgs, t);
    Round3Good(c, stream, all, pkgs, t, n);
    AllSeatsFit(c, Results3(Instance(c, stream), pkgs, all, all), pkgs, t, f, g);
  }

  lemma AllSeatsFit(
      c: Curve, rs: seq<Result<Seat3<KeyPackage, GroupPackage>, KeygenError>>, pkgs: map<Identifier, seq<int>>, t: u16,
      f: seq<int>, g: GroupPackage)
    requires c.q > 0 && forall id :: id in pkgs ==> |pkgs[id]| == t
    requires f == NormalPoly(c, pkgs, t) && g == EvenGroup(c, GroupOf(c, pkgs, t))
    requires forall k :: 0 <= k < |rs| ==> rs[k].Ok? && rs[k].value.id == k + 1 && GoodSeat3(c, rs[k].value, pkgs, t)
    ensures forall k :: 0 <= k < |rs| ==> rs[k].Ok? && rs[k].value.id == k + 1 && SeatFits(c, rs[k].value, f, g)
  {
    forall k | 0 <= k < |rs| ensures SeatFits(c, rs[k].value, f, g) {
      SeatOnPolynomial(c, rs[k].value, pkgs, t);
    }
  }

  /** A ceremony with sensible parameters completes, and its key packages lie on one polynomial
      with `t` coefficients whose value at zero is the normalized group key. */
  lemma CeremonyDelivers(c: Curve, stream: nat -> int, t: u16, n: u16, rng: nat) returns (f: seq<int>)
    requires c.q > n && 2 <= t <= n
    ensures NaiveDkg(Instance(c, stream), t, n, rng).0.Ok?
    ensures var (kps, group) := NaiveDkg(Instance(c, stream), t, n, rng).0.value;
      && |f| == t && group.min == t && OnPolynomial(c, f, kps, group)
      && forall id :: (id in kps <==> 1 <= id <= n) && (id in group.shares <==> 1 <= id <= n)
  {
    var dkg := Instance(c, stream);
    var pkgs, all := CeremonyProceeds(c, stream, t, n, rng);
    var g;
    f, g := Round3Fits(c, stream, all, pkgs, t, n);
    OnePolynomial(c, dkg, Results3(dkg, pkgs, all, all), f, g, n);
    CompletedCeremony(dkg, t, n, rng);
  }

  /** A ceremony completes exactly for a threshold of at least two that the seats can meet; otherwise the
      first seat's first round refuses the parameters. A threshold of one is refused here and nowhere
      before. */
  lemma CeremonyCompletesExactly(c: Curve, stream: nat -> int, t: u16, n: u16, rng: nat)
    requires c.q > n
    ensures NaiveDkg(Instance(c, stream), t, n, rng).0.Ok? <==> 2 <= t <= n
    ensures n > 0 && !(2 <= t <= n) ==> NaiveDkg(Instance(c, stream), t, n, rng) == (Err(DkgFailed(BAD_PARAMETERS)), rng)
  {
    var dkg := Instance(c, stream);
    if 2 <= t <= n {
      var f := CeremonyDelivers(c, stream, t, n, rng);
    } else if n > 0 {
      assert dkg.part1(1, n, t, rng) == (Err(BAD_PARAMETERS), rng);
      assert Round1(dkg, t, n, 1, rng) == (Err(DkgFailed(BAD_PARAMETERS)), rng);
    } else {
      assert Round1(dkg, t, n, 1, rng) == (Ok([]), rng);
    }
  }

  lemma OnePolynomial(
      c: Curve, dkg: Dkg<Secret1, seq<int>, Secret2, nat, KeyPackage, GroupPackage>,
      rs: seq<Result<Seat3<KeyPackage, GroupPackage>, KeygenError>>, f: seq<int>, g: GroupPackage, n: u16)
    requires c.q > n && |rs| == n > 0 && GroupFits(c, f, g)
    requires forall x: GroupPackage :: dkg.groupKeyOf(x) == x.key
    requires forall k :: 0 <= k < n ==> rs[k].Ok? && rs[k].value.id == k + 1 && SeatFits(c, rs[k].value, f, g)
    ensures var r := Confirm(dkg, rs, None, map[]);
      r.Ok? && r.value.1 == g && OnPolynomial(c, f, r.value.0, g)
  {
    ConfirmSucceeds(dkg, rs, None, map[], g.key);
    ConfirmDelivers(dkg, rs, None, map[]);
    var (kps, group) := Confirm(dkg, rs, None, map[]).value;
    forall id | id in kps
      ensures kps[id].id == id < c.q && kps[id].key == g.key && kps[id].min == g.min && id in g.shares
      ensures Cong(c.q, kps[id].share, Eval(f, id))
    {
      var k :| 0 <= k < |rs| && rs[k].value.id == id && rs[k].value.kp == kps[id];
      assert SeatFits(c, rs[k].value, f, g);
    }
  }
  /** The key of a completed ceremony is the even one, so it is its own x-only form. */
  lemma GroupKeyIsEven(c: Curve, stream: nat -> int, t: u16, n: u16, rng: nat)
    requires c.q > n && 2 <= t <= n && ParityLaw(c) && NaiveDkg(Instance(c, stream), t, n, rng).0.Ok?
    ensures var key := NaiveDkg(Instance(c, stream), t, n, rng).0.value.1.key;
      key != 0 ==> c.even(key) && EvenRep(c, key) == key
  {
    var pos, s1, s2, s3 := Transcript(Instance(c, stream), t, n, rng);
    assert DerivesAt(Instance(c, stream), s1, s2, s3, 0);
    var raw := Instance(c, stream).part3(s2[0].secret, Others(s1, 1), Delivered(s2, 1)).value.1;
    assert s3[0].group == EvenGroup(c, raw);
    EvenRepZero(c, raw.key);
    if raw.key != 0 {
      EvenRepIsEven(c, raw.key);
      EvenOfEven(c, EvenRep(c, raw.key));
    }
  }

  lemma EvenOfEven(c: Curve, x: nat)
    requires 0 < x < c.q && c.even(x)
    ensures EvenRep(c, x) == x
  {
    assert Sign(c, x) * x == x;
    RemainderUnique(c.q, x, 0, x);
  }

  // ---- the use of randomness ----

  lemma {:induction false} PositionAt(
      c: Curve, stream: nat -> int, t: u16, n: u16, pos: seq<nat>, seats: seq<Seat1<Secret1, seq<int>>>, k: nat)
    requires c.q > 0 && 2 <= t <= n && Draws(Instance(c, stream), t, n, 1, pos, seats) && k <= |seats|
    ensures pos[k] == pos[0] + k * t
  {
    if k > 0 {
      PositionAt(c, stream, t, n, pos, seats, k - 1);
      assert DrawsAt(Instance(c, stream), t, n, 1 + (k - 1), pos[k - 1], pos[k], seats[k - 1]);
      Steps(k, t);
    }
  }

  lemma Steps(k: nat, t: nat)
    requires k > 0
    ensures (k - 1) * t + t == k * t
  {
  }

  /** Whatever becomes of it later, a ceremony leaves the stream right behind its `n * t` draws, so the next
      one shares none of them. */
  lemma CeremonyUsesStream(c: Curve, stream: nat -> int, t: u16, n: u16, rng: nat)
    requires c.q > 0 && 2 <= t <= n
    ensures NaiveDkg(Instance(c, stream), t, n, rng).1 == rng + n * t
  {
    var pos, seats := StreamPosition(Instance(c, stream), t, n, rng);
    PositionAt(c, stream, t, n, pos, seats, |seats|);
  }

  /** Each seat's coefficients are its own stretch of the stream. */
  lemma SeatTakesStretch(
      c: Curve, stream: nat -> int, t: u16, n: u16, pos: seq<nat>, seats: seq<Seat1<Secret1, seq<int>>>, k: nat)
    requires c.q > 0 && 2 <= t <= n && Draws(Instance(c, stream), t, n, 1, pos, seats) && k < |seats|
    ensures TakesStretch(c, stream, seats[k], k + 1, pos[0] + k * t, t)
  {
    PositionAt(c, stream, t, n, pos, seats, k);
    assert DrawsAt(Instance(c, stream), t, n, 1 + k, pos[k], pos[k + 1], seats[k]);
  }

  /** Seat `id` committed to the `t` numbers of the stream from `from` on. */
  predicate TakesStretch(c: Curve, stream: nat -> int, seat: Seat1<Secret1, seq<int>>, id: Identifier, from: nat, t: nat)
    requires c.q > 0
  {
    seat.id == id && |seat.pkg| == t && forall j :: 0 <= j < t ==> seat.pkg[j] == stream(from + j) % c.q
  }
}
