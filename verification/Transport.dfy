/** The message board: subscription filters and the in-memory transport.

    The board is keyed by the 64-bit envelope id and the first envelope published under an id
    stays. Its laws are therefore stated for envelopes among which ids do not collide. */
module Transport {
  import opened Wrappers
  import opened Ordered
  import opened Text
  import opened Envelopes

  // ---- filters ----

  datatype Filter = Filter(
    class_: Option<MessageClass>,
    session: Option<Utf8>,
    round: Option<u32>,
    seat: Option<u16>,
    recipient: Option<u16>)

  const ALL: Filter := Filter(None, None, None, None, None)

  predicate Matches(f: Filter, e: Envelope) {
    if f.class_.Some? && f.class_.value != e.class_ then false
    else if f.session.Some? && f.session.value != e.session then false
    else if f.round.Some? && f.round.value != e.round then false
    else if f.seat.Some? && f.seat.value != e.seat then false
    else match e.recipient
      case Some(to) => f.recipient == Some(to)
      case None => true
  }

  /** A directed envelope reaches a filter only if the filter names its recipient. */
  lemma DirectedOnlyToRecipient(f: Filter, e: Envelope)
    requires e.recipient.Some?
    ensures Matches(f, e) ==> f.recipient == e.recipient
    ensures Matches(f.(recipient := e.recipient), e) <==> Matches(f, e.(recipient := None))
  {
  }

  /** A filter is the conjunction of its fields; only the recipient also matters when it is absent. */
  lemma FilterFields(f: Filter, e: Envelope)
    ensures Matches(f, e) <==>
      && (f.class_.Some? ==> f.class_ == Some(e.class_)) && (f.session.Some? ==> f.session == Some(e.session))
      && (f.round.Some? ==> f.round == Some(e.round)) && (f.seat.Some? ==> f.seat == Some(e.seat))
      && (e.recipient.Some? ==> f.recipient == e.recipient)
  {
  }

  // ---- the board as a value ----

  type Board = map<int, Envelope>

  /** Every envelope is filed under its own id. */
  ghost predicate WellKeyed(b: Board) {
    forall k :: k in b ==> Id(b[k]) == k
  }

  ghost predicate OnBoard(b: Board, e: Envelope) {
    Id(e) in b && b[Id(e)] == e
  }

  /** `entry(id).or_insert(envelope)`. */
  function Post(b: Board, e: Envelope): (r: Board)
    ensures WellKeyed(b) ==> WellKeyed(r)
  {
    if Id(e) in b then b else b[Id(e) := e]
  }

  function PostAll(b: Board, es: seq<Envelope>): Board
    decreases |es|
  {
    if es == [] then b else PostAll(Post(b, es[0]), es[1..])
  }

  /** The board's envelopes in ascending id order, as iterating the `BTreeMap` yields them. */
  function Listing(b: Board): (r: seq<Envelope>)
    ensures |r| == |b.Keys|
    ensures forall i :: 0 <= i < |r| ==> r[i] == b[Ascending(b.Keys)[i]]
  {
    var keys := Ascending(b.Keys);
    assert forall i :: 0 <= i < |keys| ==> keys[i] in keys;
    seq(|keys|, i requires 0 <= i < |keys| => b[keys[i]])
  }

  function Pick(es: seq<Envelope>, f: Filter): seq<Envelope> {
    if es == [] then []
    else Pick(es[..|es| - 1], f) + if Matches(f, es[|es| - 1]) then [es[|es| - 1]] else []
  }

  lemma PickSnoc(es: seq<Envelope>, e: Envelope, f: Filter)
    ensures Pick(es + [e], f) == Pick(es, f) + if Matches(f, e) then [e] else []
  {
    assert (es + [e])[..|es|] == es;
  }

  function Fetch(b: Board, f: Filter): seq<Envelope> {
    Pick(Listing(b), f)
  }

  ghost predicate IdsAscend(es: seq<Envelope>) {
    forall i, j :: 0 <= i < j < |es| ==> Id(es[i]) < Id(es[j])
  }

  lemma {:induction false} PickExact(es: seq<Envelope>, f: Filter)
    requires IdsAscend(es)
    ensures IdsAscend(Pick(es, f))
    ensures forall e :: e in Pick(es, f) <==> e in es && Matches(f, e)
  {
    if es != [] {
      var front, last := es[..|es| - 1], es[|es| - 1];
      PickExact(front, f);
      assert forall e :: e in es <==> e in front || e == last;
      assert forall e :: e in front ==> Id(e) < Id(last);
    }
  }

  /** A subscription returns exactly the matching envelopes, each once, in ascending id order. */
  lemma FetchExact(b: Board, f: Filter)
    requires WellKeyed(b)
    ensures IdsAscend(Fetch(b, f))
    ensures forall e :: e in Fetch(b, f) <==> OnBoard(b, e) && Matches(f, e)
  {
    var keys, es := Ascending(b.Keys), Listing(b);
    forall i | 0 <= i < |es| ensures Id(es[i]) == keys[i] && OnBoard(b, es[i]) {
      assert keys[i] in b.Keys;
    }
    PickExact(es, f);
    forall e | OnBoard(b, e) ensures e in es {
      assert Id(e) in keys;
      var i :| 0 <= i < |keys| && keys[i] == Id(e);
      assert es[i] == e;
    }
  }

  lemma {:induction false} IdOrderUnique(r: seq<Envelope>, s: seq<Envelope>)
    requires IdsAscend(r) && IdsAscend(s)
    requires forall e :: e in r <==> e in s
    ensures r == s
  {
    if r == [] {
      HeadIsMember(s);
    } else {
      assert r[0] in s && s[0] in r;
      assert r[0] == s[0];
      forall e ensures e in r[1..] <==> e in s[1..] {
        assert e in r[1..] <==> e in r && e != r[0];
        assert e in s[1..] <==> e in s && e != s[0];
      }
      IdOrderUnique(r[1..], s[1..]);
      assert r == [r[0]] + r[1..] && s == [s[0]] + s[1..];
    }
  }

  /** A subscription sees the board only through the envelopes its filter matches. */
  lemma FetchDependsOnMatches(b: Board, c: Board, f: Filter)
    requires WellKeyed(b) && WellKeyed(c)
    requires forall e :: Matches(f, e) ==> (OnBoard(b, e) <==> OnBoard(c, e))
    ensures Fetch(b, f) == Fetch(c, f)
  {
    FetchExact(b, f);
    FetchExact(c, f);
    IdOrderUnique(Fetch(b, f), Fetch(c, f));
  }

  // ---- the board refines a set of envelopes ----

  /** No two different envelopes of `universe` share an id. */
  ghost predicate CollisionFree(universe: set<Envelope>) {
    forall e, f :: e in universe && f in universe && Id(e) == Id(f) ==> e == f
  }

  ghost predicate BoardWithin(b: Board, universe: set<Envelope>) {
    forall k :: k in b ==> b[k] in universe
  }

  ghost predicate SeqWithin(es: seq<Envelope>, universe: set<Envelope>) {
    forall e :: e in es ==> e in universe
  }

  lemma PostExact(b: Board, e: Envelope, universe: set<Envelope>)
    requires WellKeyed(b) && CollisionFree(universe) && BoardWithin(b, universe) && e in universe
    ensures WellKeyed(Post(b, e)) && BoardWithin(Post(b, e), universe)
    ensures forall x :: OnBoard(Post(b, e), x) <==> OnBoard(b, x) || x == e
  {
    if Id(e) in b {
      assert b[Id(e)] == e;
    }
  }

  /** Absent collisions, publishing a sequence adds exactly its envelopes. */
  lemma {:induction false} PostAllExact(b: Board, es: seq<Envelope>, universe: set<Envelope>)
    requires WellKeyed(b) && CollisionFree(universe) && BoardWithin(b, universe) && SeqWithin(es, universe)
    ensures WellKeyed(PostAll(b, es)) && BoardWithin(PostAll(b, es), universe)
    ensures forall x :: OnBoard(PostAll(b, es), x) <==> OnBoard(b, x) || x in es
    decreases |es|
  {
    if es != [] {
      PostExact(b, es[0], universe);
      PostAllExact(Post(b, es[0]), es[1..], universe);
      assert forall x :: x in es <==> x == es[0] || x in es[1..];
    }
  }

  /** Absent collisions, reordering or repeating publications changes no subscription. */
  lemma OrderAndRepetitionInvisible(b: Board, es: seq<Envelope>, fs: seq<Envelope>, universe: set<Envelope>, f: Filter)
    requires WellKeyed(b) && CollisionFree(universe) && BoardWithin(b, universe)
    requires SeqWithin(es, universe) && forall e :: e in es <==> e in fs
    ensures Fetch(PostAll(b, es), f) == Fetch(PostAll(b, fs), f)
  {
    PostAllExact(b, es, universe);
    PostAllExact(b, fs, universe);
    FetchDependsOnMatches(PostAll(b, es), PostAll(b, fs), f);
  }

  /** With a collision the law fails, and exactly then: posting two envelopes keeps both
      if and only if their ids differ or they are the same envelope. */
  lemma CollisionDropsTheSecond(e: Envelope, f: Envelope)
    ensures OnBoard(PostAll(map[], [e, f]), e)
    ensures OnBoard(PostAll(map[], [e, f]), f) <==> (Id(e) != Id(f) || e == f)
  {
    assert [e, f][1..] == [f] && [f][1..] == [];
    var b := Post(map[], e);
    assert PostAll(map[], [e, f]) == PostAll(b, [f]) == PostAll(Post(b, f), []);
  }

  lemma PostAllFrom(b: Board, b': Board, es: seq<Envelope>, k: nat)
    requires k < |es| && b' == Post(b, es[k])
    ensures PostAll(b, es[k..]) == PostAll(b', es[k + 1..])
  {
    assert es[k..][0] == es[k] && es[k..][1..] == es[k + 1..];
  }

  // ---- the transport object ----

  /** The `filter` chain over the listing. */
  method Select(es: seq<Envelope>, f: Filter) returns (found: seq<Envelope>)
    ensures found == Pick(es, f)
  {
    found := [];
    for i := 0 to |es|
      invariant found == Pick(es[..i], f)
    {
      PickSnoc(es[..i], es[i], f);
      assert es[..i + 1] == es[..i] + [es[i]];
      if Matches(f, es[i]) {
        found := found + [es[i]];
      }
    }
    assert es[..|es|] == es;
  }

  class InMemoryTransport {
    var store: Board

    constructor ()
      ensures store == map[]
    {
      store := map[];
    }

    method Publish(e: Envelope) returns (id: u64)
      modifies this
      ensures id == Id(e)
      ensures store == Post(old(store), e)
      ensures WellKeyed(old(store)) ==> WellKeyed(store)
    {
      id := ComputeId(e);
      if id !in store {
        store := store[id := e];
      }
    }

    method Subscribe(f: Filter) returns (found: seq<Envelope>)
      ensures found == Fetch(store, f)
    {
      found := Select(Listing(store), f);
    }
  }
}
