/** A key-generation ceremony as its transcript: which calls it makes, with what, and in which order the
    random stream is used.

    `NaiveDkg` is the sequential driver; here its results are stated through the primitives alone. */
module Ceremonies {
  import opened Wrappers
  import opened Ordered
  import opened Text
  import opened Envelopes
  import opened Frost
  import opened Keygen

  // ---- the use of randomness ----

  /** The seats from `first` on draw one after the other, each from where the one before stopped. */
  ghost predicate Draws<S1, P1, S2, P2, KP, PK>(
      dkg: Dkg<S1, P1, S2, P2, KP, PK>, t: u16, n: u16, first: nat, pos: seq<nat>, seats: seq<Seat1<S1, P1>>)
  {
    && first > 0 && |pos| == |seats| + 1
    && forall k :: 0 <= k < |seats| ==> DrawsAt(dkg, t, n, first + k, pos[k], pos[k + 1], seats[k])
  }

  ghost predicate DrawsAt<S1, P1, S2, P2, KP, PK>(
      dkg: Dkg<S1, P1, S2, P2, KP, PK>, t: u16, n: u16, id: Identifier, from: nat, to: nat, seat: Seat1<S1, P1>)
  {
    seat.id == id && dkg.part1(id, n, t, from).0.Ok?
    && dkg.part1(id, n, t, from).0.value == (seat.secret, seat.pkg) && dkg.part1(id, n, t, from).1 == to
  }

  /** The next seat's draw fails with `e` and leaves the stream at `to`. */
  ghost predicate DrawFails<S1, P1, S2, P2, KP, PK>(
      dkg: Dkg<S1, P1, S2, P2, KP, PK>, t: u16, n: u16, id: Identifier, from: nat, to: nat, e: KeygenError)
  {
    dkg.part1(id, n, t, from).0.Err? && e == DkgFailed(dkg.part1(id, n, t, from).0.error) && dkg.part1(id, n, t, from).1 == to
  }

  lemma DrawsLonger<S1, P1, S2, P2, KP, PK>(
      dkg: Dkg<S1, P1, S2, P2, KP, PK>, t: u16, n: u16, first: nat, from: nat, pos: seq<nat>,
      seat: Seat1<S1, P1>, seats: seq<Seat1<S1, P1>>)
    requires first > 0 && Draws(dkg, t, n, first + 1, pos, seats) && DrawsAt(dkg, t, n, first, from, pos[0], seat)
    ensures Draws(dkg, t, n, first, [from] + pos, [seat] + seats)
  {
    forall k | 0 <= k < |seats| + 1
      ensures DrawsAt(dkg, t, n, first + k, ([from] + pos)[k], ([from] + pos)[k + 1], ([seat] + seats)[k])
    {
      if k > 0 {
        assert DrawsAt(dkg, t, n, first + 1 + (k - 1), pos[k - 1], pos[k], seats[k - 1]);
      }
    }
  }

  /** Round 1: all seats draw, or those up to one that fails. */
  lemma {:induction false} Round1Draws<S1, P1, S2, P2, KP, PK>(
      dkg: Dkg<S1, P1, S2, P2, KP, PK>, t: u16, n: u16, i: nat, rng: nat) returns (pos: seq<nat>, seats: seq<Seat1<S1, P1>>)
    requires 1 <= i <= n + 1
    ensures Draws(dkg, t, n, i, pos, seats) && pos[0] == rng && |seats| <= n + 1 - i
    ensures var (res, after) := Round1(dkg, t, n, i, rng);
      if |seats| == n + 1 - i then res == Ok(seats) && after == pos[|seats|]
      else res.Err? && DrawFails(dkg, t, n, i + |seats|, pos[|seats|], after, res.error)
    decreases n + 1 - i
  {
    pos, seats := [rng], [];
    if i <= n {
      var (one, next) := dkg.part1(i, n, t, rng);
      if one.Ok? {
        var seat := Seat1(i, one.value.0, one.value.1);
        var pos', seats' := Round1Draws(dkg, t, n, i + 1, next);
        DrawsLonger(dkg, t, n, i, rng, pos', seat, seats');
        pos, seats := [rng] + pos', [seat] + seats';
      }
    }
  }

  /** However a ceremony ends, the stream is left where the last of its at most `n` draws left it; a failed
      draw ends it with its own error, and nothing after the draws moves the stream. */
  lemma StreamPosition<S1, P1, S2, P2, KP, PK>(dkg: Dkg<S1, P1, S2, P2, KP, PK>, t: u16, n: u16, rng: nat)
      returns (pos: seq<nat>, seats: seq<Seat1<S1, P1>>)
    ensures Draws(dkg, t, n, 1, pos, seats) && pos[0] == rng && |seats| <= n
    ensures var (res, after) := NaiveDkg(dkg, t, n, rng);
      if |seats| == n then after == pos[n]
      else res.Err? && DrawFails(dkg, t, n, 1 + |seats|, pos[|seats|], after, res.error)
  {
    pos, seats := Round1Draws(dkg, t, n, 1, rng);
  }

  // ---- rounds 2 and 3 ----

  /** The identifiers `1..=n`. */
  function Ids(n: nat): (s: set<Identifier>)
    ensures forall j :: j in s <==> 1 <= j <= n
  {
    if n == 0 then {} else Ids(n - 1) + {n}
  }

  /** The packages of everybody but `id`. */
  function Others<S1, P1>(seats: seq<Seat1<S1, P1>>, id: Identifier): map<Identifier, P1> {
    map j | j in Ids(|seats|) && j != id :: seats[j - 1].pkg
  }

  /** What was sent to `id`, by sender. */
  function Delivered<S2, P2>(seats: seq<Seat2<S2, P2>>, id: Identifier): map<Identifier, P2> {
    map j | j in Ids(|seats|) && id in seats[j - 1].sent :: seats[j - 1].sent[id]
  }

  ghost predicate Numbered1<S1, P1>(seats: seq<Seat1<S1, P1>>) {
    forall k :: 0 <= k < |seats| ==> seats[k].id == k + 1
  }

  ghost predicate Numbered2<S2, P2>(seats: seq<Seat2<S2, P2>>) {
    forall k :: 0 <= k < |seats| ==> seats[k].id == k + 1
  }

  lemma PackageAt<S1, P1>(seats: seq<Seat1<S1, P1>>, x: Identifier)
    requires Numbered1(seats)
    ensures x in Packages(seats) <==> 1 <= x <= |seats|
    ensures x in Packages(seats) ==> Packages(seats)[x] == seats[x - 1].pkg
  {
    PackagesExact(seats);
    if x in Packages(seats) { PackagesFrom(seats, x); }
    if 1 <= x <= |seats| { assert seats[x - 1].id == x; }
  }

  lemma PackagesAreOthers<S1, P1>(seats: seq<Seat1<S1, P1>>, id: Identifier)
    requires Numbered1(seats)
    ensures Packages(seats) - {id} == Others(seats, id)
  {
    forall x: Identifier
      ensures x in Packages(seats) - {id} <==> x in Others(seats, id)
      ensures x in Others(seats, id) ==> (Packages(seats) - {id})[x] == Others(seats, id)[x]
    {
      PackageAt(seats, x);
    }
  }

  lemma InboxAt<S2, P2>(seats: seq<Seat2<S2, P2>>, id: Identifier, x: Identifier)
    requires Numbered2(seats)
    ensures x in Inbox(seats, id) <==> 1 <= x <= |seats| && id in seats[x - 1].sent
    ensures x in Inbox(seats, id) ==> Inbox(seats, id)[x] == seats[x - 1].sent[id]
  {
    InboxIsTranspose(seats, id);
    if x in Inbox(seats, id) {
      var k :| 0 <= k < |seats| && seats[k].id == x && id in seats[k].sent;
    }
    if 1 <= x <= |seats| { assert seats[x - 1].id == x; }
  }

  lemma InboxIsDelivered<S2, P2>(seats: seq<Seat2<S2, P2>>, id: Identifier)
    requires Numbered2(seats)
    ensures Inbox(seats, id) == Delivered(seats, id)
  {
    forall x: Identifier
      ensures x in Inbox(seats, id) <==> x in Delivered(seats, id)
      ensures x in Inbox(seats, id) ==> Inbox(seats, id)[x] == Delivered(seats, id)[x]
    {
      InboxAt(seats, id, x);
    }
  }

  /** Every seat's round 2, with the packages of all others. */
  ghost predicate Shares<S1, P1, S2, P2, KP, PK>(
      dkg: Dkg<S1, P1, S2, P2, KP, PK>, s1: seq<Seat1<S1, P1>>, s2: seq<Seat2<S2, P2>>)
  {
    && |s2| == |s1|
    && forall k :: 0 <= k < |s2| ==>
      s2[k].id == k + 1 && dkg.part2(s1[k].secret, Others(s1, k + 1)) == Ok((s2[k].secret, s2[k].sent))
  }

  /** Every seat's round 3, with the packages of all others and what it was sent; one key for all. */
  ghost predicate Derives<S1, P1, S2, P2, KP, PK>(
      dkg: Dkg<S1, P1, S2, P2, KP, PK>, s1: seq<Seat1<S1, P1>>, s2: seq<Seat2<S2, P2>>, s3: seq<Seat3<KP, PK>>)
  {
    && |s3| == |s2| && forall k :: 0 <= k < |s3| ==> DerivesAt(dkg, s1, s2, s3, k)
  }

  ghost predicate DerivesAt<S1, P1, S2, P2, KP, PK>(
      dkg: Dkg<S1, P1, S2, P2, KP, PK>, s1: seq<Seat1<S1, P1>>, s2: seq<Seat2<S2, P2>>, s3: seq<Seat3<KP, PK>>, k: nat)
    requires k < |s3| == |s2|
  {
    var out := dkg.part3(s2[k].secret, Others(s1, k + 1), Delivered(s2, k + 1));
    && s3[k].id == k + 1 && out.Ok?
    && s3[k].kp == dkg.evenKey(out.value.0) && s3[k].group == dkg.evenGroup(out.value.1)
    && dkg.groupKeyOf(s3[k].group) == dkg.groupKeyOf(s3[0].group)
  }

  lemma Round2Shares<S1, P1, S2, P2, KP, PK>(
      dkg: Dkg<S1, P1, S2, P2, KP, PK>, s1: seq<Seat1<S1, P1>>, s2: seq<Seat2<S2, P2>>)
    requires Numbered1(s1) && Resolve(Results2(dkg, Packages(s1), s1)) == Ok(s2)
    ensures Shares(dkg, s1, s2)
  {
    ResolveIsFirstError(Results2(dkg, Packages(s1), s1));
    forall k | 0 <= k < |s2| ensures s2[k].id == k + 1 && dkg.part2(s1[k].secret, Others(s1, k + 1)) == Ok((s2[k].secret, s2[k].sent)) {
      PackagesAreOthers(s1, k + 1);
      assert Results2(dkg, Packages(s1), s1)[k] == Ok(s2[k]);
    }
  }

  /** The seats behind a walk over the round-3 results that reached the end. */
  lemma WalkDelivers<S1, P1, S2, P2, KP, PK>(
      dkg: Dkg<S1, P1, S2, P2, KP, PK>, rs: seq<Result<Seat3<KP, PK>, KeygenError>>, out: map<Identifier, KP>, group: PK)
      returns (s3: seq<Seat3<KP, PK>>)
    requires Confirm(dkg, rs, None, map[]) == Ok((out, group))
    requires forall k :: 0 <= k < |rs| && rs[k].Ok? ==> rs[k].value.id == k + 1
    ensures |s3| == |rs| > 0 && group == s3[0].group && out == KeyPackages(s3)
    ensures forall k :: 0 <= k < |rs| ==> rs[k] == Ok(s3[k])
    ensures forall k :: 0 <= k < |rs| ==> dkg.groupKeyOf(s3[k].group) == dkg.groupKeyOf(group)
  {
    ConfirmDelivers(dkg, rs, None, map[]);
    s3 := seq(|rs|, k requires 0 <= k < |rs| => rs[k].value);
    PackagesConfirmed(rs, s3, out);
  }

  lemma Round3Derives<S1, P1, S2, P2, KP, PK>(
      dkg: Dkg<S1, P1, S2, P2, KP, PK>, s1: seq<Seat1<S1, P1>>, s2: seq<Seat2<S2, P2>>, out: map<Identifier, KP>, group: PK)
      returns (s3: seq<Seat3<KP, PK>>)
    requires Numbered1(s1) && Shares(dkg, s1, s2)
    requires Confirm(dkg, Results3(dkg, Packages(s1), s2, s2), None, map[]) == Ok((out, group))
    ensures Derives(dkg, s1, s2, s3) && s3 != [] && group == s3[0].group
    ensures out == KeyPackages(s3)
  {
    s3 := WalkDelivers(dkg, Results3(dkg, Packages(s1), s2, s2), out, group);
    forall k | 0 <= k < |s3| ensures DerivesAt(dkg, s1, s2, s3, k) {
      ResultDerives(dkg, s1, s2, s3, k);
    }
  }

  lemma ResultDerives<S1, P1, S2, P2, KP, PK>(
      dkg: Dkg<S1, P1, S2, P2, KP, PK>, s1: seq<Seat1<S1, P1>>, s2: seq<Seat2<S2, P2>>, s3: seq<Seat3<KP, PK>>, k: nat)
    requires Numbered1(s1) && Shares(dkg, s1, s2) && k < |s3| == |s2|
    requires Results3(dkg, Packages(s1), s2, s2)[k] == Ok(s3[k])
    requires dkg.groupKeyOf(s3[k].group) == dkg.groupKeyOf(s3[0].group)
    ensures DerivesAt(dkg, s1, s2, s3, k)
  {
    PackagesAreOthers(s1, k + 1);
    InboxIsDelivered(s2, k + 1);
  }

  /** Everybody's own key package. */
  function KeyPackages<KP, PK>(s3: seq<Seat3<KP, PK>>): map<Identifier, KP> {
    map id | id in Ids(|s3|) :: s3[id - 1].kp
  }

  lemma PackagesConfirmed<KP, PK>(rs: seq<Result<Seat3<KP, PK>, KeygenError>>, s3: seq<Seat3<KP, PK>>, out: map<Identifier, KP>)
    requires |s3| == |rs| && forall k :: 0 <= k < |rs| ==> rs[k] == Ok(s3[k]) && s3[k].id == k + 1
    requires forall x :: x in out <==> exists k :: 0 <= k < |rs| && rs[k].value.id == x
    requires forall x :: x in out ==> exists k :: 0 <= k < |rs| && rs[k].value.id == x && rs[k].value.kp == out[x]
    ensures out == KeyPackages(s3)
  {
    var m := KeyPackages(s3);
    forall x: Identifier ensures x in out <==> x in m {
      if x in m { assert rs[x - 1].value.id == x; }
    }
    forall x | x in out ensures out[x] == m[x] {
      var k :| 0 <= k < |rs| && rs[k].value.id == x && rs[k].value.kp == out[x];
    }
  }

  /** The transcript of a completed ceremony: seat after seat draws; every seat is given the packages of
      all others; every seat derives from what the others sent it; and each ends with its own normalized
      package, under the first seat's group. */
  lemma Transcript<S1, P1, S2, P2, KP, PK>(dkg: Dkg<S1, P1, S2, P2, KP, PK>, t: u16, n: u16, rng: nat)
      returns (pos: seq<nat>, s1: seq<Seat1<S1, P1>>, s2: seq<Seat2<S2, P2>>, s3: seq<Seat3<KP, PK>>)
    requires NaiveDkg(dkg, t, n, rng).0.Ok?
    ensures |s1| == n && Draws(dkg, t, n, 1, pos, s1) && pos[0] == rng
    ensures Shares(dkg, s1, s2) && Derives(dkg, s1, s2, s3) && n > 0
    ensures NaiveDkg(dkg, t, n, rng) == (Ok((KeyPackages(s3), s3[0].group)), pos[n])
  {
    pos, s1 := Round1Draws(dkg, t, n, 1, rng);
    s2 := Resolve(Results2(dkg, Packages(s1), s1)).value;
    assert Numbered1(s1) by {
      forall k | 0 <= k < |s1| ensures s1[k].id == k + 1 {
        assert DrawsAt(dkg, t, n, 1 + k, pos[k], pos[k + 1], s1[k]);
      }
    }
    Round2Shares(dkg, s1, s2);
    var (out, group) := NaiveDkg(dkg, t, n, rng).0.value;
    s3 := Round3Derives(dkg, s1, s2, out, group);
  }

  // ---- which seat is reported ----

  /** Seat `k` is the first whose result failed or disagrees with the group key, and that is the error. */
  ghost predicate Stumbles<S1, P1, S2, P2, KP, PK>(
      dkg: Dkg<S1, P1, S2, P2, KP, PK>, rs: seq<Result<Seat3<KP, PK>, KeygenError>>, group: Option<PK>, k: nat, e: KeygenError)
  {
    && k < |rs| && OkBefore(rs, k)
    && (forall j :: 0 <= j < k ==> dkg.groupKeyOf(rs[j].value.group) == FirstKey(dkg, rs, group, k))
    && if rs[k].Err? then e == rs[k].error
       else e == GroupKeyMismatch(rs[k].value.id) && dkg.groupKeyOf(rs[k].value.group) != FirstKey(dkg, rs, group, k)
  }

  function FirstKey<S1, P1, S2, P2, KP, PK>(
      dkg: Dkg<S1, P1, S2, P2, KP, PK>, rs: seq<Result<Seat3<KP, PK>, KeygenError>>, group: Option<PK>, k: nat): int
    requires k < |rs|
  {
    if group.Some? then dkg.groupKeyOf(group.value) else if rs[0].Ok? then dkg.groupKeyOf(rs[0].value.group) else 0
  }

  /** The walk over the round-3 results stops at the first seat that failed or disagrees, with its error. */
  lemma {:induction false} ConfirmStopsAtFirst<S1, P1, S2, P2, KP, PK>(
      dkg: Dkg<S1, P1, S2, P2, KP, PK>, rs: seq<Result<Seat3<KP, PK>, KeygenError>>, group: Option<PK>, kps: map<Identifier, KP>)
    requires Confirm(dkg, rs, group, kps).Err?
    ensures rs == [] ==> group.None? && Confirm(dkg, rs, group, kps) == Err(Empty)
    ensures rs != [] ==> exists k: nat :: Stumbles(dkg, rs, group, k, Confirm(dkg, rs, group, kps).error)
    decreases |rs|
  {
    if rs != [] {
      var e := Confirm(dkg, rs, group, kps).error;
      if rs[0].Err? || (group.Some? && dkg.groupKeyOf(group.value) != dkg.groupKeyOf(rs[0].value.group)) {
        assert Stumbles(dkg, rs, group, 0, e);
      } else {
        var group' := if group.Some? then group else Some(rs[0].value.group);
        ConfirmStopsAtFirst(dkg, rs[1..], group', kps[rs[0].value.id := rs[0].value.kp]);
        if rs[1..] != [] {
          var k: nat :| Stumbles(dkg, rs[1..], group', k, e);
          forall j | 0 <= j < k + 1 ensures rs[j].Ok? && dkg.groupKeyOf(rs[j].value.group) == FirstKey(dkg, rs, group, k + 1) {
            if j > 0 { assert rs[j] == rs[1..][j - 1]; }
          }
          assert rs[k + 1] == rs[1..][k];
          assert Stumbles(dkg, rs, group, k + 1, e);
        }
      }
    }
  }
}
