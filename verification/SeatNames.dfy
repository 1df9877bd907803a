/** The directory names of persisted seats, and the order in which sorting puts them. */
module SeatNames {
  import opened FileSystem
  import opened Ordered
  import opened Text

  // ---- lexicographic order ----

  predicate LexLess(a: string, b: string) {
    b != "" && (a == "" || a[0] < b[0] || (a[0] == b[0] && LexLess(a[1..], b[1..])))
  }

  predicate LexLe(a: string, b: string) {
    !LexLess(b, a)
  }

  lemma {:induction false} LexTotal(a: string, b: string)
    ensures LexLess(a, b) || LexLess(b, a) || a == b
    ensures !(LexLess(a, b) && (LexLess(b, a) || a == b))
  {
    if a != "" && b != "" && a[0] == b[0] {
      LexTotal(a[1..], b[1..]);
      assert a == [a[0]] + a[1..] && b == [b[0]] + b[1..];
    }
  }

  lemma {:induction false} LexTrans(a: string, b: string, c: string)
    requires LexLess(a, b) && LexLess(b, c)
    ensures LexLess(a, c)
  {
    if a != "" && a[0] == b[0] == c[0] {
      LexTrans(a[1..], b[1..], c[1..]);
    }
  }

  lemma LexLeTrans(a: string, b: string, c: string)
    requires LexLe(a, b) && LexLe(b, c)
    ensures LexLe(a, c)
  {
    LexTotal(a, b);
    LexTotal(b, c);
    LexTotal(a, c);
    if a != b && b != c {
      LexTrans(a, b, c);
    }
  }

  lemma {:induction false} LexPrefix(p: string, a: string, b: string)
    ensures LexLess(p + a, p + b) <==> LexLess(a, b)
  {
    if p == "" {
      assert p + a == a && p + b == b;
    } else {
      LexPrefix(p[1..], a, b);
      assert (p + a)[1..] == p[1..] + a && (p + b)[1..] == p[1..] + b;
    }
  }

  // ---- names ----

  function Zeros(s: string, width: nat): string
    decreases width - |s|
  {
    if |s| < width then Zeros("0" + s, width) else s
  }

  /** `format!("seat-{:04}", i)`. */
  function SeatName(i: nat): string {
    "seat-" + Zeros(Decimal(i), 4)
  }

  /** The last `w` digits. */
  function Fixed(p: nat, w: nat): (s: string)
    ensures |s| == w
  {
    if w == 0 then "" else Fixed(p / 10, w - 1) + [Digit(p % 10)]
  }

  function Pow10(k: nat): nat {
    if k == 0 then 1 else 10 * Pow10(k - 1)
  }

  /** Texts of one width compare like their numbers, whatever follows. */
  lemma {:induction false} FixedLess(p: nat, q: nat, w: nat, x: string, y: string)
    requires p < q < Pow10(w)
    ensures LexLess(Fixed(p, w) + x, Fixed(q, w) + y)
  {
    if w > 0 {
      var a, b := Digit(p % 10), Digit(q % 10);
      assert Fixed(p, w) + x == Fixed(p / 10, w - 1) + ([a] + x);
      assert Fixed(q, w) + y == Fixed(q / 10, w - 1) + ([b] + y);
      if p / 10 < q / 10 {
        FixedLess(p / 10, q / 10, w - 1, [a] + x, [b] + y);
      } else {
        LexPrefix(Fixed(p / 10, w - 1), [a] + x, [b] + y);
      }
    }
  }

  lemma {:induction false} ZerosSnoc(s: string, d: char, w: nat)
    ensures Zeros(s + [d], w + 1) == Zeros(s, w) + [d]
    decreases w - |s|
  {
    if |s| < w {
      ZerosSnoc("0" + s, d, w);
      assert "0" + (s + [d]) == ("0" + s) + [d];
    }
  }

  /** Padding to a width that suffices gives exactly that many digits. */
  lemma {:induction false} PaddedIsFixed(i: nat, w: nat)
    requires w > 0 && i < Pow10(w)
    ensures Zeros(Decimal(i), w) == Fixed(i, w)
  {
    if i < 10 {
      assert Decimal(i) == "" + [Digit(i)] && i / 10 == 0;
      ZerosSnoc("", Digit(i), w - 1);
      if w > 1 {
        PaddedIsFixed(0, w - 1);
        assert Decimal(0) == "0" + "";
      }
    } else {
      PaddedIsFixed(i / 10, w - 1);
      ZerosSnoc(Decimal(i / 10), Digit(i % 10), w - 1);
    }
  }

  lemma {:induction false} LongEnough(i: nat, w: nat)
    requires i >= Pow10(w)
    ensures |Decimal(i)| > w
  {
    if w > 0 {
      TenAtLeast(w);
      LongEnough(i / 10, w - 1);
    }
  }

  lemma TenAtLeast(w: nat)
    requires w > 0
    ensures Pow10(w) >= 10
  {
    if w > 1 {
      TenAtLeast(w - 1);
    }
  }

  lemma PaddedLarge(i: nat)
    requires 10000 <= i < 100000
    ensures Zeros(Decimal(i), 4) == Fixed(i / 10, 4) + [Digit(i % 10)]
  {
    assert Pow10(3) == 1000 && Pow10(4) == 10000;
    LongEnough(i / 10, 3);
    PaddedIsFixed(i / 10, 4);
  }

  /** The place of a name: five digits sort right behind their first four. */
  function Rank(i: nat): nat {
    if i <= 9999 then 11 * i else 11 * (i / 10) + 1 + i % 10
  }

  /** The digits of a name after its prefix: four, or four and a fifth. */
  function Head(i: nat): nat
    requires 1 <= i <= 65535
    ensures Head(i) < 10000
  {
    if i <= 9999 then i else i / 10
  }

  function Tail(i: nat): string
    requires 1 <= i <= 65535
  {
    if i <= 9999 then "" else [Digit(i % 10)]
  }

  lemma NameParts(i: nat)
    requires 1 <= i <= 65535
    ensures SeatName(i) == "seat-" + (Fixed(Head(i), 4) + Tail(i))
  {
    if i <= 9999 {
      assert Pow10(4) == 10000;
      PaddedIsFixed(i, 4);
      assert Fixed(i, 4) + "" == Fixed(i, 4);
    } else {
      PaddedLarge(i);
    }
  }

  lemma TailOrder(i: nat, j: nat)
    requires 1 <= i <= 65535 && 1 <= j <= 65535 && Head(i) == Head(j)
    ensures LexLess(Tail(i), Tail(j)) <==> Rank(i) < Rank(j)
  {
  }

  /** Sorting names sorts ranks. */
  lemma NameOrder(i: nat, j: nat)
    requires 1 <= i <= 65535 && 1 <= j <= 65535
    ensures LexLess(SeatName(i), SeatName(j)) <==> Rank(i) < Rank(j)
  {
    NameParts(i);
    NameParts(j);
    assert Pow10(4) == 10000;
    LexPrefix("seat-", Fixed(Head(i), 4) + Tail(i), Fixed(Head(j), 4) + Tail(j));
    if Head(i) < Head(j) {
      FixedLess(Head(i), Head(j), 4, Tail(i), Tail(j));
    } else if Head(j) < Head(i) {
      FixedLess(Head(j), Head(i), 4, Tail(j), Tail(i));
      LexTotal(Fixed(Head(i), 4) + Tail(i), Fixed(Head(j), 4) + Tail(j));
    } else {
      LexPrefix(Fixed(Head(i), 4), Tail(i), Tail(j));
      TailOrder(i, j);
    }
  }

  lemma NameInjective(i: nat, j: nat)
    requires 1 <= i <= 65535 && 1 <= j <= 65535 && SeatName(i) == SeatName(j)
    ensures i == j
  {
    NameOrder(i, j);
    NameOrder(j, i);
    LexTotal(SeatName(i), SeatName(j));
    RankInjective(i, j);
  }

  lemma RankParts(i: nat)
    ensures Rank(i) / 11 == if i <= 9999 then i else i / 10
    ensures Rank(i) % 11 == if i <= 9999 then 0 else 1 + i % 10
  {
  }

  lemma RankInjective(i: nat, j: nat)
    requires Rank(i) == Rank(j)
    ensures i == j
  {
    RankParts(i);
    RankParts(j);
    assert i == 10 * (i / 10) + i % 10 && j == 10 * (j / 10) + j % 10;
  }

  // ---- sorting ----

  predicate LexSorted(r: seq<string>) {
    forall i, j :: 0 <= i < j < |r| ==> LexLess(r[i], r[j])
  }

  lemma {:induction false} LeastExists(s: set<string>)
    requires s != {}
    ensures exists m :: m in s && forall y :: y in s ==> LexLe(m, y)
  {
    InhabitedNames(s);
    var x :| x in s;
    var rest := s - {x};
    if rest == {} {
      LexTotal(x, x);
      assert s == {x};
      assert LexLe(x, x) && forall y :: y in s ==> LexLe(x, y);
    } else {
      LeastExists(rest);
      var m :| m in rest && forall y :: y in rest ==> LexLe(m, y);
      assert s == rest + {x};
      var low := LesserBelow(rest, m, x);
      assert low in s;
    }
  }

  lemma LesserBelow(rest: set<string>, m: string, x: string) returns (low: string)
    requires m in rest && forall y :: y in rest ==> LexLe(m, y)
    ensures low in rest + {x} && forall y :: y in rest + {x} ==> LexLe(low, y)
  {
    LexTotal(m, x);
    LexTotal(x, x);
    low := if LexLe(m, x) then m else x;
    forall y | y in rest ensures LexLe(low, y) {
      if low == x { LexLeTrans(x, m, y); }
    }
  }

  function Least(s: set<string>): (m: string)
    requires s != {}
    ensures m in s && forall y :: y in s ==> LexLe(m, y)
  {
    LeastExists(s);
    LeastUnique(s);
    var m :| m in s && forall y :: y in s ==> LexLe(m, y);
    m
  }

  lemma LeastUnique(s: set<string>)
    ensures forall a, b :: a in s && b in s && LexLe(a, b) && LexLe(b, a) ==> a == b
  {
    forall a, b | a in s && b in s && LexLe(a, b) && LexLe(b, a) ensures a == b {
      LexTotal(a, b);
    }
  }

  /** The names of `s` in lexicographic order. */
  function SortedNames(s: set<string>): (r: seq<string>)
    ensures LexSorted(r) && |r| == |s|
    ensures forall x :: x in r <==> x in s
    decreases |s|
  {
    if s == {} then [] else
      var m := Least(s);
      var rest := SortedNames(s - {m});
      LeastFirst(m, rest);
      [m] + rest
  }

  lemma LeastFirst(m: string, rest: seq<string>)
    ensures (forall x :: x in rest ==> x != m && LexLe(m, x)) && LexSorted(rest) ==> LexSorted([m] + rest)
  {
    forall x | LexLe(m, x) && x != m ensures LexLess(m, x) {
      LexTotal(m, x);
    }
  }

  /** A sorted sequence is determined by its elements. */
  lemma {:induction false} LexSortedUnique(a: seq<string>, b: seq<string>)
    requires LexSorted(a) && LexSorted(b)
    requires forall x :: x in a <==> x in b
    ensures a == b
  {
    if a == [] {
      HeadIsMember(b);
    } else {
      assert a[0] in b && b[0] in a;
      LexTotal(a[0], b[0]);
      assert a[0] == b[0];
      forall x ensures x in a[1..] <==> x in b[1..] {
        LexTotal(x, x);
        assert x in a[1..] <==> x in a && x != a[0];
        assert x in b[1..] <==> x in b && x != b[0];
      }
      LexSortedUnique(a[1..], b[1..]);
      assert a == [a[0]] + a[1..] && b == [b[0]] + b[1..];
    }
  }

  predicate WeaklySorted(r: seq<string>, upto: nat, hole: nat)
    requires upto <= |r|
  {
    forall x, y :: 0 <= x < y < upto && y != hole ==> LexLe(r[x], r[y])
  }

  /** Sort in place. */
  method SortInPlace(a: array<string>)
    modifies a
    ensures multiset(a[..]) == multiset(old(a[..]))
    ensures forall x, y :: 0 <= x < y < a.Length ==> LexLe(a[x], a[y])
  {
    var i := 0;
    while i < a.Length
      invariant 0 <= i <= a.Length
      invariant multiset(a[..]) == multiset(old(a[..]))
      invariant WeaklySorted(a[..], i, a.Length)
    {
      Insert(a, i);
      i := i + 1;
    }
    assert forall x {:trigger a[x]} :: 0 <= x < a.Length ==> a[..][x] == a[x];
  }

  /** Two neighbours exchanged. */
  function Swapped(r: seq<string>, j: nat): seq<string>
    requires 0 < j < |r|
  {
    r[j - 1 := r[j]][j := r[j - 1]]
  }

  lemma SwapKeepsElements(r: seq<string>, j: nat)
    requires 0 < j < |r|
    ensures multiset(Swapped(r, j)) == multiset(r)
  {
    assert r == r[..j - 1] + [r[j - 1]] + [r[j]] + r[j + 1..];
    assert Swapped(r, j) == r[..j - 1] + [r[j]] + [r[j - 1]] + r[j + 1..];
  }

  /** One step of the insertion: the hole moves down. */
  lemma SwapKeepsOrder(r: seq<string>, i: nat, j: nat)
    requires 0 < j <= i < |r| && LexLess(r[j], r[j - 1])
    requires WeaklySorted(r, i + 1, j) && forall y :: j < y <= i ==> LexLe(r[j], r[y])
    ensures WeaklySorted(Swapped(r, j), i + 1, j - 1)
    ensures forall y :: j - 1 < y <= i ==> LexLe(Swapped(r, j)[j - 1], Swapped(r, j)[y])
  {
    LexTotal(r[j], r[j - 1]);
  }

  lemma HoleFilled(r: seq<string>, i: nat, j: nat)
    requires j <= i < |r| && WeaklySorted(r, i + 1, j) && (j > 0 ==> LexLe(r[j - 1], r[j]))
    requires forall y :: j < y <= i ==> LexLe(r[j], r[y])
    ensures WeaklySorted(r, i + 1, |r|)
  {
    forall x | 0 <= x < j ensures LexLe(r[x], r[j]) {
      if x < j - 1 { LexLeTrans(r[x], r[j - 1], r[j]); }
    }
  }

  /** Move the element at `i` down to its place. */
  method Insert(a: array<string>, i: nat)
    requires i < a.Length && WeaklySorted(a[..], i, a.Length)
    modifies a
    ensures multiset(a[..]) == multiset(old(a[..]))
    ensures WeaklySorted(a[..], i + 1, a.Length)
  {
    var j := i;
    while j > 0 && LexLess(a[j], a[j - 1])
      invariant 0 <= j <= i
      invariant multiset(a[..]) == multiset(old(a[..]))
      invariant WeaklySorted(a[..], i + 1, j)
      invariant forall y :: j < y <= i ==> LexLe(a[..][j], a[..][y])
    {
      ghost var r := a[..];
      a[j - 1], a[j] := a[j], a[j - 1];
      assert a[..] == Swapped(r, j);
      SwapKeepsElements(r, j);
      SwapKeepsOrder(r, i, j);
      j := j - 1;
    }
    HoleFilled(a[..], i, j);
  }

  // ---- which seats come first ----

  function NamesUpTo(n: nat): set<string> {
    set i | 1 <= i <= n :: SeatName(i)
  }

  lemma {:induction false} NamesCount(n: nat)
    requires n <= 65535
    ensures |NamesUpTo(n)| == n
  {
    if n == 0 {
      assert NamesUpTo(0) == {};
    } else {
      NamesCount(n - 1);
      assert NamesUpTo(n) == NamesUpTo(n - 1) + {SeatName(n)};
      if SeatName(n) in NamesUpTo(n - 1) {
        var i :| 1 <= i <= n - 1 && SeatName(i) == SeatName(n);
        NameInjective(i, n);
      }
    }
  }

  lemma {:induction false} SortedCount(r: seq<string>)
    requires LexSorted(r)
    ensures |set x | x in r| == |r|
  {
    var all := set x | x in r;
    if r == [] {
      assert all == {};
    } else {
      var last, front := r[|r| - 1], r[..|r| - 1];
      var rest := set x | x in front;
      SortedCount(front);
      forall x | x in front ensures x != last {
        LexTotal(x, last);
      }
      assert r == front + [last];
      assert all == rest + {last};
    }
  }

  lemma SubsetCount(a: set<string>, b: set<string>)
    requires a <= b
    ensures |a| <= |b|
  {
    assert b == a + (b - a);
  }

  /** The low `t` ranks all lie below the others. */
  ghost predicate Cut(n: nat, t: nat) {
    forall i, j :: 1 <= i <= t < j <= n ==> Rank(i) < Rank(j)
  }

  /** Four-digit padding keeps the first `t` apart exactly in these cases. */
  lemma CutExactly(n: nat, t: nat)
    requires t <= n <= 65535
    ensures Cut(n, t) <==> n <= 9999 || t <= 1000 || t == n
  {
    if n > 9999 && 1000 < t < n {
      if t < 10000 {
        assert !(Rank(1001) < Rank(10000));
      } else {
        assert !(Rank(9999) < Rank(t + 1));
      }
    }
  }

  ghost predicate FirstAre(r: seq<string>, n: nat, t: nat)
    requires t <= |r|
  {
    forall i :: 1 <= i <= n ==> (SeatName(i) in r[..t] <==> i <= t)
  }

  lemma PositionOf(r: seq<string>, x: string) returns (k: nat)
    requires x in r
    ensures k < |r| && r[k] == x
  {
    k :| 0 <= k < |r| && r[k] == x;
  }

  lemma PrefixMembers(r: seq<string>, t: nat)
    requires t <= |r|
    ensures forall k :: 0 <= k < t ==> r[k] in r[..t]
  {
    forall k | 0 <= k < t ensures r[k] in r[..t] {
      assert r[..t][k] == r[k];
    }
  }

  lemma LowIsEarly(r: seq<string>, n: nat, t: nat, i: nat)
    requires LexSorted(r) && n <= 65535 && (forall x :: x in r <==> x in NamesUpTo(n)) && t <= |r|
    requires Cut(n, t) && 1 <= i <= t <= n
    ensures SeatName(i) in r[..t]
  {
    assert SeatName(i) in NamesUpTo(n);
    var k := PositionOf(r, SeatName(i));
    if k >= t {
      var early := r[..k + 1];
      forall x | x in early ensures x in NamesUpTo(t) {
        var m := PositionOf(early, x);
        assert x in r && x in NamesUpTo(n);
        var j :| 1 <= j <= n && SeatName(j) == x;
        if j > t {
          NameOrder(i, j);
          assert m < k ==> LexLess(r[m], r[k]);
          LexTotal(r[m], r[k]);
        }
      }
      SortedCount(early);
      SubsetCount((set x | x in early), NamesUpTo(t));
      NamesCount(t);
    }
  }

  lemma HighIsLate(r: seq<string>, n: nat, t: nat, j: nat)
    requires LexSorted(r) && n <= 65535 && (forall x :: x in r <==> x in NamesUpTo(n)) && t <= |r|
    requires Cut(n, t) && t < j <= n && forall i :: 1 <= i <= t ==> SeatName(i) in r[..t]
    ensures SeatName(j) !in r[..t]
  {
    if SeatName(j) in r[..t] {
      var early := r[..t];
      var both := NamesUpTo(t) + {SeatName(j)};
      if SeatName(j) in NamesUpTo(t) {
        var i :| 1 <= i <= t && SeatName(i) == SeatName(j);
        NameInjective(i, j);
      }
      NamesCount(t);
      SortedCount(early);
      SubsetCount(both, (set x | x in early));
    }
  }

  /** Sorting puts the seats `1..=t` first exactly when padding keeps them apart: for every `t` up to
      9999 seats, beyond that for at most 1000 of them, or for all. */
  lemma FirstRoots(r: seq<string>, n: nat, t: nat)
    requires LexSorted(r) && t <= n <= 65535 && forall x :: x in r <==> x in NamesUpTo(n)
    ensures |r| == n
    ensures FirstAre(r, n, t) <==> n <= 9999 || t <= 1000 || t == n
  {
    SortedCount(r);
    NamesCount(n);
    assert (set x | x in r) == NamesUpTo(n);
    CutExactly(n, t);
    if Cut(n, t) {
      forall i | 1 <= i <= t ensures SeatName(i) in r[..t] {
        LowIsEarly(r, n, t, i);
      }
      forall j | t < j <= n ensures SeatName(j) !in r[..t] {
        HighIsLate(r, n, t, j);
      }
    }
    if FirstAre(r, n, t) {
      forall i, j | 1 <= i <= t < j <= n ensures Rank(i) < Rank(j) {
        assert SeatName(j) in NamesUpTo(n);
        var a := PositionOf(r[..t], SeatName(i));
        var b := PositionOf(r, SeatName(j));
        PrefixMembers(r, t);
        NameOrder(i, j);
      }
    }
  }
}
