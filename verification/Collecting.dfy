/** Which of the envelopes a subscription returned end up in the package and in the aggregate.

    The session reads commitments and shares with one and the same loop: envelopes whose sender does not
    count are passed over, a later envelope of a sender replaces an earlier one, and the first payload that
    does not decode ends it. */
module Collecting {
  import opened Wrappers
  import opened Text
  import opened Envelopes
  import opened Transport
  import opened Frost
  import opened Session

  /** Whose envelope it is, if it counts. */
  type Sender = Envelope -> Option<Identifier>

  function SeatSender(idOfSeat: map<u16, Identifier>): Sender {
    (e: Envelope) => if e.seat in idOfSeat then Some(idOfSeat[e.seat]) else None
  }

  function SelectedSender(idOfSeat: map<u16, Identifier>, selected: seq<Identifier>): Sender {
    (e: Envelope) => if e.seat in idOfSeat && idOfSeat[e.seat] in selected then Some(idOfSeat[e.seat]) else None
  }

  type Decoder<!T> = seq<byte> -> Result<T, FrostError>

  function Collect<T>(who: Sender, decode: Decoder<T>, es: seq<Envelope>, acc: map<Identifier, T>)
      : Result<map<Identifier, T>, SessionError>
    decreases |es|
  {
    if es == [] then Ok(acc)
    else if who(es[0]).None? then Collect(who, decode, es[1..], acc)
    else match decode(es[0].payload)
      case Err(e) => Err(FrostFailed(e))
      case Ok(t) => Collect(who, decode, es[1..], acc[who(es[0]).value := t])
  }

  lemma {:induction false} CommitmentsAreCollected<KP, G, N, C, S, Sig>(
      p: Primitives<KP, G, N, C, S, Sig>, idOfSeat: map<u16, Identifier>, selected: seq<Identifier>,
      es: seq<Envelope>, acc: map<Identifier, C>)
    ensures CollectCommitments(p, idOfSeat, selected, es, acc) ==
      Collect(SelectedSender(idOfSeat, selected), p.decodeC, es, acc)
    decreases |es|
  {
    if es != [] {
      if SelectedSender(idOfSeat, selected)(es[0]).None? {
        CommitmentsAreCollected(p, idOfSeat, selected, es[1..], acc);
      } else if p.decodeC(es[0].payload).Ok? {
        CommitmentsAreCollected(p, idOfSeat, selected, es[1..], acc[idOfSeat[es[0].seat] := p.decodeC(es[0].payload).value]);
      }
    }
  }

  lemma {:induction false} SharesAreCollected<KP, G, N, C, S, Sig>(
      p: Primitives<KP, G, N, C, S, Sig>, idOfSeat: map<u16, Identifier>, es: seq<Envelope>, acc: map<Identifier, S>)
    ensures CollectShares(p, idOfSeat, es, acc) == Collect(SeatSender(idOfSeat), p.decodeS, es, acc)
    decreases |es|
  {
    if es != [] {
      if SeatSender(idOfSeat)(es[0]).None? {
        SharesAreCollected(p, idOfSeat, es[1..], acc);
      } else if p.decodeS(es[0].payload).Ok? {
        SharesAreCollected(p, idOfSeat, es[1..], acc[idOfSeat[es[0].seat] := p.decodeS(es[0].payload).value]);
      }
    }
  }

  /** The envelope at `k` counts and does not decode, and it is the first such. */
  ghost predicate FirstBroken<T>(who: Sender, decode: Decoder<T>, es: seq<Envelope>, k: nat) {
    && k < |es| && who(es[k]).Some? && decode(es[k].payload).Err?
    && forall j :: 0 <= j < k && who(es[j]).Some? ==> decode(es[j].payload).Ok?
  }

  ghost predicate AllDecode<T>(who: Sender, decode: Decoder<T>, es: seq<Envelope>) {
    forall k :: 0 <= k < |es| && who(es[k]).Some? ==> decode(es[k].payload).Ok?
  }

  /** The envelope at `k` is the last one of `id`. */
  ghost predicate LastOf(who: Sender, es: seq<Envelope>, id: Identifier, k: int) {
    0 <= k < |es| && who(es[k]) == Some(id) && forall j :: k < j < |es| ==> who(es[j]) != Some(id)
  }

  /** The loop succeeds exactly if everything that counts decodes; otherwise the first failure is the error. */
  lemma {:induction false} CollectEnds<T>(who: Sender, decode: Decoder<T>, es: seq<Envelope>, acc: map<Identifier, T>)
    ensures Collect(who, decode, es, acc).Ok? <==> AllDecode(who, decode, es)
    ensures Collect(who, decode, es, acc).Err? ==> exists k: nat ::
      FirstBroken(who, decode, es, k) && Collect(who, decode, es, acc) == Err(FrostFailed(decode(es[k].payload).error))
    decreases |es|
  {
    if es != [] {
      var rest := es[1..];
      assert forall j :: 0 < j < |es| ==> es[j] == rest[j - 1];
      if who(es[0]).Some? && decode(es[0].payload).Err? {
        assert FirstBroken(who, decode, es, 0);
      } else {
        var acc' := if who(es[0]).None? then acc else acc[who(es[0]).value := decode(es[0].payload).value];
        CollectEnds(who, decode, rest, acc');
        if Collect(who, decode, es, acc).Err? {
          var k: nat :| FirstBroken(who, decode, rest, k) && Collect(who, decode, rest, acc') == Err(FrostFailed(decode(rest[k].payload).error));
          assert FirstBroken(who, decode, es, k + 1);
        }
        assert AllDecode(who, decode, rest) ==> AllDecode(who, decode, es);
      }
    }
  }

  /** What it holds for `id` then: the last envelope of `id`, or what was held before if there is none. */
  lemma {:induction false} CollectHolds<T>(who: Sender, decode: Decoder<T>, es: seq<Envelope>, acc: map<Identifier, T>, id: Identifier)
    requires Collect(who, decode, es, acc).Ok?
    ensures var got := Collect(who, decode, es, acc).value;
      && (forall k :: LastOf(who, es, id, k) ==> id in got && decode(es[k].payload) == Ok(got[id]))
      && ((forall k :: 0 <= k < |es| ==> who(es[k]) != Some(id)) ==>
            (id in got <==> id in acc) && (id in acc ==> got[id] == acc[id]))
    decreases |es|
  {
    if es != [] {
      var rest := es[1..];
      var acc' := if who(es[0]).None? then acc else acc[who(es[0]).value := decode(es[0].payload).value];
      CollectHolds(who, decode, rest, acc', id);
      var got := Collect(who, decode, es, acc).value;
      assert forall j :: 0 < j < |es| ==> es[j] == rest[j - 1];
      forall k | LastOf(who, es, id, k) ensures id in got && decode(es[k].payload) == Ok(got[id]) {
        if k > 0 {
          assert LastOf(who, rest, id, k - 1);
        } else {
          assert forall j :: 0 <= j < |rest| ==> who(rest[j]) == who(es[j + 1]);
        }
      }
    }
  }

  lemma {:induction false} LastExists(who: Sender, es: seq<Envelope>, id: Identifier, i: nat) returns (k: nat)
    requires i < |es| && who(es[i]) == Some(id)
    ensures LastOf(who, es, id, k)
    decreases |es| - i
  {
    k := i;
    if j :| i < j < |es| && who(es[j]) == Some(id) {
      k := LastExists(who, es, id, j);
    }
  }

  /** What a collecting loop that starts with nothing delivers. */
  ghost predicate Collected<T>(who: Sender, decode: Decoder<T>, es: seq<Envelope>, res: Result<map<Identifier, T>, SessionError>) {
    && (res.Ok? <==> AllDecode(who, decode, es))
    && (res.Ok? ==>
          && (forall id :: id in res.value <==> exists k :: 0 <= k < |es| && who(es[k]) == Some(id))
          && forall id, k :: LastOf(who, es, id, k) ==> id in res.value && decode(es[k].payload) == Ok(res.value[id]))
    && (res.Err? ==> exists k: nat :: FirstBroken(who, decode, es, k) && res == Err(FrostFailed(decode(es[k].payload).error)))
  }

  lemma CollectExactly<T>(who: Sender, decode: Decoder<T>, es: seq<Envelope>)
    ensures Collected(who, decode, es, Collect(who, decode, es, map[]))
  {
    var res := Collect(who, decode, es, map[]);
    CollectEnds(who, decode, es, map[]);
    if res.Ok? {
      forall id: Identifier ensures id in res.value <==> exists k :: 0 <= k < |es| && who(es[k]) == Some(id) {
        CollectHolds(who, decode, es, map[], id);
        if i :| 0 <= i < |es| && who(es[i]) == Some(id) {
          var k := LastExists(who, es, id, i);
        }
      }
      forall id: Identifier, k | LastOf(who, es, id, k) ensures id in res.value && decode(es[k].payload) == Ok(res.value[id]) {
        CollectHolds(who, decode, es, map[], id);
      }
    }
  }

  /** Round 1 takes, of each selected seat and of nobody else, the last commitments heard. */
  lemma CommitmentsExactly<KP, G, N, C, S, Sig>(
      p: Primitives<KP, G, N, C, S, Sig>, idOfSeat: map<u16, Identifier>, selected: seq<Identifier>, es: seq<Envelope>)
    ensures Collected(SelectedSender(idOfSeat, selected), p.decodeC, es, CollectCommitments(p, idOfSeat, selected, es, map[]))
  {
    CommitmentsAreCollected(p, idOfSeat, selected, es, map[]);
    CollectExactly(SelectedSender(idOfSeat, selected), p.decodeC, es);
  }

  /** Round 2 takes, of each seat of the roster, the last share heard. */
  lemma SharesExactly<KP, G, N, C, S, Sig>(
      p: Primitives<KP, G, N, C, S, Sig>, idOfSeat: map<u16, Identifier>, es: seq<Envelope>)
    ensures Collected(SeatSender(idOfSeat), p.decodeS, es, CollectShares(p, idOfSeat, es, map[]))
  {
    SharesAreCollected(p, idOfSeat, es, map[]);
    CollectExactly(SeatSender(idOfSeat), p.decodeS, es);
  }

  /** What the three subscriptions of a session let through. */
  lemma FiltersExactly(id: Utf8, e: Envelope)
    ensures Matches(LivenessFilter(id), e) <==> e.class_ == SessionControl && e.session == id && e.recipient.None?
    ensures Matches(CommitmentFilter(id), e) <==>
      e.class_ == Commitments && e.session == id && e.round == 1 && e.recipient.None?
    ensures Matches(ShareFilter(id), e) <==>
      e.class_ == SignatureShare && e.session == id && e.round == 2 && (e.recipient.None? || e.recipient == Some(COORDINATOR_SEAT))
  {
  }
}
