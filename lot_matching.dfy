/**
 * The lot-matching walk of the sell path, as pure definitions: the order in
 * which the user's buy lots are consumed, how much each lot gives up, the
 * revenue, the shares left unsold, and the updates the walk makes to the
 * user's portfolio and transactions tables. The settlement engine runs this
 * walk step by step and is proved to agree with these definitions.
 */
module LotMatching {
  import opened Wrappers
  import opened StockRecords
  import opened Databases
  import opened DynamicDatabases

  function Abs(x: real): real {
    if x < 0.0 then -x else x
  }

  function Min(a: real, b: real): real {
    if a <= b then a else b
  }

  function Max0(x: real): real {
    if x < 0.0 then 0.0 else x
  }

  // ---------------------------------------------------------------------
  // shares_list.sort(key=lambda x: abs(x['cost_per_share']))

  predicate SortedByAbsCost(lots: seq<Lot>) {
    forall i, j :: 0 <= i < j < |lots| ==> Abs(lots[i].costPerShare) <= Abs(lots[j].costPerShare)
  }

  predicate DistinctUids(lots: seq<Lot>) {
    forall i, j :: 0 <= i < j < |lots| ==> lots[i].uid != lots[j].uid
  }

  /**
   * Insert in front of the first lot that is not cheaper. The lot inserted
   * comes earlier in the query's listing than every lot it is inserted
   * into, so it goes before the lots of equal key.
   */
  function InsertByAbsCost(l: Lot, lots: seq<Lot>): (r: seq<Lot>)
    ensures |r| == |lots| + 1
  {
    if lots == [] then [l]
    else if Abs(l.costPerShare) <= Abs(lots[0].costPerShare) then [l] + lots
    else [lots[0]] + InsertByAbsCost(l, lots[1..])
  }

  /** The lots whose key `abs(cost_per_share)` is `k`, in their order. */
  function WithKey(lots: seq<Lot>, k: real): seq<Lot>
    decreases |lots|
  {
    if lots == [] then []
    else (if Abs(lots[0].costPerShare) == k then [lots[0]] else []) + WithKey(lots[1..], k)
  }

  /** `WithKey` of a listing with `x` in front. */
  lemma WithKeyCons(x: Lot, t: seq<Lot>, k: real)
    ensures WithKey([x] + t, k) == (if Abs(x.costPerShare) == k then [x] else []) + WithKey(t, k)
  {
    assert ([x] + t)[1..] == t;
  }

  /** Inserting a lot puts it at the head of the lots of its key. */
  lemma {:induction false} InsertWithKey(l: Lot, lots: seq<Lot>, k: real)
    ensures WithKey(InsertByAbsCost(l, lots), k)
      == (if Abs(l.costPerShare) == k then [l] else []) + WithKey(lots, k)
    decreases |lots|
  {
    if lots == [] {
      WithKeyCons(l, [], k);
      assert [l] + [] == [l];
    } else if Abs(l.costPerShare) <= Abs(lots[0].costPerShare) {
      WithKeyCons(l, lots, k);
    } else {
      var head, tail := lots[0], lots[1..];
      assert lots == [head] + tail;
      InsertWithKey(l, tail, k);
      InsertBehindHead(l, head, tail, InsertByAbsCost(l, tail), k);
    }
  }

  /** A lot dearer than `head` goes behind it, and `head`'s key differs from its own. */
  lemma InsertBehindHead(l: Lot, head: Lot, tail: seq<Lot>, rest: seq<Lot>, k: real)
    requires Abs(head.costPerShare) < Abs(l.costPerShare)
    requires WithKey(rest, k) == (if Abs(l.costPerShare) == k then [l] else []) + WithKey(tail, k)
    ensures WithKey([head] + rest, k) == (if Abs(l.costPerShare) == k then [l] else []) + WithKey([head] + tail, k)
  {
    WithKeyCons(head, rest, k);
    WithKeyCons(head, tail, k);
    if Abs(l.costPerShare) == k {
      assert Abs(head.costPerShare) != k;
    }
  }

  lemma {:induction false} InsertElements(l: Lot, lots: seq<Lot>)
    ensures multiset(InsertByAbsCost(l, lots)) == multiset(lots) + multiset{l}
    decreases |lots|
  {
    if lots != [] {
      assert lots == [lots[0]] + lots[1..];
      InsertElements(l, lots[1..]);
    }
  }

  lemma ConsSorted(x: Lot, t: seq<Lot>)
    requires SortedByAbsCost(t)
    requires forall y :: y in t ==> Abs(x.costPerShare) <= Abs(y.costPerShare)
    ensures SortedByAbsCost([x] + t)
  {
    var r := [x] + t;
    forall i, j | 0 <= i < j < |r| ensures Abs(r[i].costPerShare) <= Abs(r[j].costPerShare) {
      if i == 0 {
        assert r[j] in t;
      } else {
        assert r[i] == t[i - 1] && r[j] == t[j - 1];
      }
    }
  }

  lemma {:induction false} InsertSorted(l: Lot, lots: seq<Lot>)
    requires SortedByAbsCost(lots)
    ensures SortedByAbsCost(InsertByAbsCost(l, lots))
    ensures multiset(InsertByAbsCost(l, lots)) == multiset(lots) + multiset{l}
    decreases |lots|
  {
    InsertElements(l, lots);
    if lots != [] {
      var tail := lots[1..];
      if Abs(l.costPerShare) <= Abs(lots[0].costPerShare) {
        ConsSorted(l, lots);
      } else {
        InsertSorted(l, tail);
        InsertElements(l, tail);
        var rest := InsertByAbsCost(l, tail);
        forall x | x in rest ensures Abs(lots[0].costPerShare) <= Abs(x.costPerShare) {
          assert x in multiset(rest);
        }
        ConsSorted(lots[0], rest);
      }
    }
  }

  /**
   * Python's stable sort by the key `abs(cost_per_share)`: a sorted
   * permutation in which the lots of each key keep their listed order.
   */
  function SortByAbsCost(lots: seq<Lot>): (r: seq<Lot>)
    ensures SortedByAbsCost(r)
    ensures multiset(r) == multiset(lots)
    ensures |r| == |lots|
    ensures forall k :: WithKey(r, k) == WithKey(lots, k)
  {
    if lots == [] then []
    else
      assert lots == [lots[0]] + lots[1..];
      var sorted := SortByAbsCost(lots[1..]);
      InsertSorted(lots[0], sorted);
      forall k ensures WithKey(InsertByAbsCost(lots[0], sorted), k) == WithKey(lots, k) {
        InsertWithKey(lots[0], sorted, k);
      }
      InsertByAbsCost(lots[0], sorted)
  }

  /** Two lots of equal cost, listed a before b, stay in that order. */
  lemma SortKeepsTiesInOrder()
    ensures SortByAbsCost([Lot("a", 1.0, 5.0), Lot("b", 1.0, 5.0)]) == [Lot("a", 1.0, 5.0), Lot("b", 1.0, 5.0)]
  {
    var a, b := Lot("a", 1.0, 5.0), Lot("b", 1.0, 5.0);
    assert [a, b][1..] == [b];
    assert SortByAbsCost([b]) == [b] by {
      assert [b][1..] == [];
    }
  }

  /** A lot in front of lots with other uids keeps the uids distinct. */
  lemma ConsDistinct(x: Lot, t: seq<Lot>)
    requires DistinctUids(t)
    requires forall y :: y in t ==> y.uid != x.uid
    ensures DistinctUids([x] + t)
  {
    var r := [x] + t;
    forall i, j | 0 <= i < j < |r| ensures r[i].uid != r[j].uid {
      if i == 0 {
        assert r[j] in t;
      } else {
        assert r[i] == t[i - 1] && r[j] == t[j - 1];
      }
    }
  }

  lemma TailDistinct(lots: seq<Lot>)
    requires lots != [] && DistinctUids(lots)
    ensures DistinctUids(lots[1..])
    ensures forall y :: y in lots[1..] ==> y.uid != lots[0].uid
  {
    var tail := lots[1..];
    forall y | y in tail ensures y.uid != lots[0].uid {
      var k :| 0 <= k < |tail| && tail[k] == y;
      assert lots[k + 1] == y;
    }
  }

  /** Placing a lot whose uid is new keeps the uids distinct. */
  lemma {:induction false} InsertKeepsDistinct(l: Lot, lots: seq<Lot>)
    requires DistinctUids(lots)
    requires forall x :: x in lots ==> x.uid != l.uid
    ensures DistinctUids(InsertByAbsCost(l, lots))
    ensures forall x :: x in InsertByAbsCost(l, lots) ==> x == l || x in lots
    decreases |lots|
  {
    if lots == [] {
    } else if Abs(l.costPerShare) <= Abs(lots[0].costPerShare) {
      ConsDistinct(l, lots);
    } else {
      var tail := lots[1..];
      TailDistinct(lots);
      InsertKeepsDistinct(l, tail);
      ConsDistinct(lots[0], InsertByAbsCost(l, tail));
    }
  }

  /** Sorting lots with distinct uids gives lots with distinct uids. */
  lemma {:induction false} SortKeepsDistinct(lots: seq<Lot>)
    requires DistinctUids(lots)
    ensures DistinctUids(SortByAbsCost(lots))
    decreases |lots|
  {
    if lots != [] {
      var tail := lots[1..];
      TailDistinct(lots);
      SortKeepsDistinct(tail);
      var sorted := SortByAbsCost(tail);
      forall x | x in sorted ensures x.uid != lots[0].uid {
        assert x in multiset(tail);
      }
      InsertKeepsDistinct(lots[0], sorted);
    }
  }

  /** The sorted order lists the same lots as the query did. */
  lemma SortedListsExactly(lots: seq<Lot>, m: map<string, Lot>)
    requires ListsExactly(lots, m)
    ensures ListsExactly(SortByAbsCost(lots), m)
  {
    var r := SortByAbsCost(lots);
    SortKeepsDistinct(lots);
    forall i | 0 <= i < |r| ensures r[i].uid in m && m[r[i].uid] == r[i] {
      assert r[i] in multiset(lots);
      var k :| 0 <= k < |lots| && lots[k] == r[i];
    }
    forall u | u in m ensures exists i :: 0 <= i < |r| && r[i].uid == u {
      var k :| 0 <= k < |lots| && lots[k].uid == u;
      assert lots[k] in multiset(r);
      var i :| 0 <= i < |r| && r[i] == lots[k];
    }
  }

  // ---------------------------------------------------------------------
  // The walk over the sorted lots

  /** The loop variables: shares still to sell, revenue so far, and what each visited lot gave up. */
  datatype Walk = Walk(toSell: real, revenue: real, takes: seq<real>)

  /**
   * The loop from lot `|w.takes|` on: stop once nothing is left to sell,
   * otherwise take `min(lot, remaining)` and earn `take * bid`.
   */
  function WalkFrom(lots: seq<Lot>, bid: real, w: Walk): (r: Walk)
    requires |w.takes| <= |lots|
    ensures |w.takes| <= |r.takes| <= |lots|
    decreases |lots| - |w.takes|
  {
    if |w.takes| == |lots| || w.toSell <= 0.0 then w
    else WalkFrom(lots, bid, Step(lots, bid, w))
  }

  /** One pass of the loop body on the next lot. */
  function Step(lots: seq<Lot>, bid: real, w: Walk): (r: Walk)
    requires |w.takes| < |lots|
    ensures |r.takes| == |w.takes| + 1
  {
    var take := Min(lots[|w.takes|].shares, w.toSell);
    Walk(w.toSell - take, w.revenue + take * bid, w.takes + [take])
  }

  function SellWalk(lots: seq<Lot>, bid: real, shares: real): Walk {
    WalkFrom(lots, bid, Walk(shares, 0.0, []))
  }

  function Sum(s: seq<real>): real {
    if s == [] then 0.0 else Sum(s[..|s| - 1]) + s[|s| - 1]
  }

  /** The shares held in `lots`, from index `i` on. */
  function SharesFrom(lots: seq<Lot>, i: nat): real
    requires i <= |lots|
    decreases |lots| - i
  {
    if i == |lots| then 0.0 else lots[i].shares + SharesFrom(lots, i + 1)
  }

  function TotalShares(lots: seq<Lot>): real {
    SharesFrom(lots, 0)
  }

  predicate NonNegativeLots(lots: seq<Lot>) {
    forall i :: 0 <= i < |lots| ==> lots[i].shares >= 0.0
  }

  /** What was still to sell before visiting lot `i`. */
  function Before(shares: real, takes: seq<real>, i: nat): real
    requires i <= |takes|
  {
    shares - Sum(takes[..i])
  }

  lemma BeforeAppend(shares: real, takes: seq<real>, x: real, k: nat)
    requires k <= |takes|
    ensures Before(shares, takes + [x], k) == Before(shares, takes, k)
  {
    assert (takes + [x])[..k] == takes[..k];
  }

  lemma BeforeStep(shares: real, takes: seq<real>, k: nat)
    requires k < |takes|
    ensures Before(shares, takes, k + 1) == Before(shares, takes, k) - takes[k]
  {
    assert takes[..k + 1][..k] == takes[..k];
  }

  /**
   * What the loop variables mean after visiting `|w.takes|` lots: each take
   * is the smaller of its lot and what was left before it, something was
   * left before each one, and the accumulators agree with the takes.
   */
  ghost predicate WalkedSoFar(lots: seq<Lot>, bid: real, shares: real, w: Walk) {
    && |w.takes| <= |lots|
    && w.toSell == shares - Sum(w.takes)
    && (forall i :: 0 <= i < |w.takes| ==>
          Before(shares, w.takes, i) > 0.0 && w.takes[i] == Min(lots[i].shares, Before(shares, w.takes, i)))
  }

  lemma Distribute(a: real, b: real, c: real)
    ensures (a + b) * c == a * c + b * c
  {
  }

  /** One step of the loop keeps the meaning of its variables. */
  lemma WalkStepKeeps(lots: seq<Lot>, bid: real, shares: real, w: Walk)
    requires WalkedSoFar(lots, bid, shares, w) && |w.takes| < |lots| && w.toSell > 0.0
    ensures WalkedSoFar(lots, bid, shares, Step(lots, bid, w))
  {
    var i := |w.takes|;
    var take := Min(lots[i].shares, w.toSell);
    var takes' := w.takes + [take];
    assert takes'[..i] == w.takes;
    assert Sum(takes') == Sum(w.takes) + take;
    forall k | 0 <= k < i + 1
      ensures Before(shares, takes', k) > 0.0 && takes'[k] == Min(lots[k].shares, Before(shares, takes', k))
    {
      BeforeAppend(shares, w.takes, take, k);
    }
  }

  lemma {:induction false} WalkFromKeeps(lots: seq<Lot>, bid: real, shares: real, w: Walk)
    requires WalkedSoFar(lots, bid, shares, w)
    ensures WalkedSoFar(lots, bid, shares, WalkFrom(lots, bid, w))
    ensures var r := WalkFrom(lots, bid, w); |r.takes| == |lots| || r.toSell <= 0.0
    decreases |lots| - |w.takes|
  {
    var i := |w.takes|;
    if i < |lots| && w.toSell > 0.0 {
      WalkStepKeeps(lots, bid, shares, w);
      WalkFromKeeps(lots, bid, shares, Step(lots, bid, w));
    }
  }

  /** The walk only ever appends to the takes it was given. */
  lemma {:induction false} WalkFromExtends(lots: seq<Lot>, bid: real, w: Walk)
    requires |w.takes| <= |lots|
    ensures WalkFrom(lots, bid, w).takes[..|w.takes|] == w.takes
    decreases |lots| - |w.takes|
  {
    if |w.takes| < |lots| && w.toSell > 0.0 {
      var w' := Step(lots, bid, w);
      WalkFromExtends(lots, bid, w');
      var r := WalkFrom(lots, bid, w').takes;
      assert r[..|w.takes|] == r[..|w'.takes|][..|w.takes|];
    }
  }

  /** The revenue stays the shares sold so far times the bid. */
  lemma {:induction false} WalkFromRevenue(lots: seq<Lot>, bid: real, shares: real, w: Walk)
    requires |w.takes| <= |lots| && w.revenue == (shares - w.toSell) * bid
    ensures var r := WalkFrom(lots, bid, w); r.revenue == (shares - r.toSell) * bid
    decreases |lots| - |w.takes|
  {
    if |w.takes| < |lots| && w.toSell > 0.0 {
      var take := Min(lots[|w.takes|].shares, w.toSell);
      Distribute(shares - w.toSell, take, bid);
      WalkFromRevenue(lots, bid, shares, Step(lots, bid, w));
    }
  }

  /**
   * The walk, characterised: it visits a prefix of the sorted lots, each
   * visited lot gives up the smaller of its shares and what was still to
   * sell, it stops when nothing is left or the lots run out, the revenue is
   * the shares sold times the bid, and every lot before the last visited
   * one is emptied.
   */
  lemma WalkShape(lots: seq<Lot>, bid: real, shares: real)
    ensures var w := SellWalk(lots, bid, shares);
      && WalkedSoFar(lots, bid, shares, w)
      && (|w.takes| == |lots| || w.toSell <= 0.0)
      && w.revenue == (shares - w.toSell) * bid
      && (forall i :: 0 <= i < |w.takes| - 1 ==> w.takes[i] == lots[i].shares)
  {
    var w0 := Walk(shares, 0.0, []);
    var w := SellWalk(lots, bid, shares);
    assert w == WalkFrom(lots, bid, w0);
    WalkStart(lots, bid, shares);
    WalkFromKeeps(lots, bid, shares, w0);
    WalkFromRevenue(lots, bid, shares, w0);
    EarlierLotsEmptied(lots, bid, shares, w);
  }

  /** Before the loop nothing is sold, and the loop variables mean what they should. */
  lemma WalkStart(lots: seq<Lot>, bid: real, shares: real)
    ensures WalkedSoFar(lots, bid, shares, Walk(shares, 0.0, []))
    ensures Walk(shares, 0.0, []).revenue == (shares - shares) * bid
  {
    assert Sum([]) == 0.0;
  }

  /** Something is still to sell after every lot but the last, so each of those was taken whole. */
  lemma EarlierLotsEmptied(lots: seq<Lot>, bid: real, shares: real, w: Walk)
    requires WalkedSoFar(lots, bid, shares, w)
    ensures forall i :: 0 <= i < |w.takes| - 1 ==> w.takes[i] == lots[i].shares
  {
    forall i | 0 <= i < |w.takes| - 1 ensures w.takes[i] == lots[i].shares {
      BeforeStep(shares, w.takes, i);
      assert Before(shares, w.takes, i + 1) > 0.0;
      assert w.takes[i] == Min(lots[i].shares, Before(shares, w.takes, i));
    }
  }

  lemma {:induction false} SharesFromNonNegative(lots: seq<Lot>, i: nat)
    requires i <= |lots| && NonNegativeLots(lots)
    ensures SharesFrom(lots, i) >= 0.0
    decreases |lots| - i
  {
    if i < |lots| {
      SharesFromNonNegative(lots, i + 1);
    }
  }

  lemma {:induction false} WalkFromUnsold(lots: seq<Lot>, bid: real, w: Walk)
    requires |w.takes| <= |lots| && NonNegativeLots(lots) && w.toSell >= 0.0
    ensures WalkFrom(lots, bid, w).toSell == Max0(w.toSell - SharesFrom(lots, |w.takes|))
    decreases |lots| - |w.takes|
  {
    var i := |w.takes|;
    SharesFromNonNegative(lots, i);
    if i < |lots| && w.toSell > 0.0 {
      SharesFromNonNegative(lots, i + 1);
      WalkFromUnsold(lots, bid, Step(lots, bid, w));
    }
  }

  /**
   * With lots that hold no negative share count, the walk leaves unsold
   * exactly what the lots could not cover: nothing when they hold enough,
   * otherwise the shortfall. So `0 <= unsold <= requested`.
   */
  lemma WalkUnsold(lots: seq<Lot>, bid: real, shares: real)
    requires NonNegativeLots(lots) && shares >= 0.0
    ensures SellWalk(lots, bid, shares).toSell == Max0(shares - TotalShares(lots))
    ensures 0.0 <= SellWalk(lots, bid, shares).toSell <= shares
    ensures TotalShares(lots) >= shares ==> SellWalk(lots, bid, shares).toSell == 0.0
  {
    WalkFromUnsold(lots, bid, Walk(shares, 0.0, []));
    SharesFromNonNegative(lots, 0);
  }

  // ---------------------------------------------------------------------
  // The updates of the walk

  /** The share count a lot has after the walk. */
  function LeftIn(lots: seq<Lot>, takes: seq<real>, i: nat): real
    requires |takes| <= |lots| && i < |lots|
  {
    if i < |takes| then lots[i].shares - takes[i] else lots[i].shares
  }

  function LeftFrom(lots: seq<Lot>, takes: seq<real>, i: nat): real
    requires |takes| <= |lots| && i <= |lots|
    decreases |lots| - i
  {
    if i == |lots| then 0.0 else LeftIn(lots, takes, i) + LeftFrom(lots, takes, i + 1)
  }

  lemma {:induction false} SumPrefixStep(s: seq<real>, i: nat)
    requires i < |s|
    ensures Sum(s[..i + 1]) == Sum(s[..i]) + s[i]
  {
    assert s[..i + 1][..i] == s[..i];
  }

  lemma {:induction false} LeftFromSplit(lots: seq<Lot>, takes: seq<real>, i: nat)
    requires |takes| <= |lots| && i <= |lots|
    ensures LeftFrom(lots, takes, i) == SharesFrom(lots, i) - (if i < |takes| then Sum(takes) - Sum(takes[..i]) else 0.0)
    decreases |lots| - i
  {
    if i < |lots| {
      LeftFromSplit(lots, takes, i + 1);
      if i < |takes| {
        SumPrefixStep(takes, i);
        if i + 1 == |takes| {
          assert takes[..i + 1] == takes;
        }
      }
    }
  }

  /**
   * Conservation: the shares left in the lots plus the shares sold are the
   * shares the lots held before.
   */
  lemma SharesConserved(lots: seq<Lot>, bid: real, shares: real)
    ensures var w := SellWalk(lots, bid, shares);
      LeftFrom(lots, w.takes, 0) + (shares - w.toSell) == TotalShares(lots)
  {
    var w := SellWalk(lots, bid, shares);
    WalkShape(lots, bid, shares);
    LeftFromSplit(lots, w.takes, 0);
    assert w.takes[..0] == [];
  }

  /** A visited lot with shares left is reduced to them; its total cost is not recomputed. */
  function Reductions(t: Table, lots: seq<Lot>, takes: seq<real>): (r: Table)
    requires |takes| <= |lots|
    ensures r.Keys == t.Keys
    decreases |takes|
  {
    if takes == [] then t
    else
      var k := |takes| - 1;
      var t' := Reductions(t, lots, takes[..k]);
      var u := lots[k].uid;
      var left := lots[k].shares - takes[k];
      if left > 0.0 && u in t' then t'[u := t'[u].(shares := left)] else t'
  }

  /** A visited lot with nothing left has its transaction row archived. */
  function Archivals(t: Table, lots: seq<Lot>, takes: seq<real>): (r: Table)
    requires |takes| <= |lots|
    ensures r.Keys == t.Keys
    decreases |takes|
  {
    if takes == [] then t
    else
      var k := |takes| - 1;
      var t' := Archivals(t, lots, takes[..k]);
      var u := lots[k].uid;
      if lots[k].shares - takes[k] <= 0.0 && u in t' then t'[u := t'[u].(status := ARCHIVED)] else t'
  }

  /** The uids of the emptied lots, in visiting order: `rows_uids_to_remove`. */
  function Emptied(lots: seq<Lot>, takes: seq<real>): (r: seq<string>)
    requires |takes| <= |lots|
    ensures |r| <= |takes|
    decreases |takes|
  {
    if takes == [] then []
    else
      var k := |takes| - 1;
      var rest := Emptied(lots, takes[..k]);
      if lots[k].shares - takes[k] <= 0.0 then rest + [lots[k].uid] else rest
  }

  lemma {:induction false} EmptiedMembers(lots: seq<Lot>, takes: seq<real>, u: string)
    requires |takes| <= |lots|
    ensures u in Emptied(lots, takes) <==> exists i :: 0 <= i < |takes| && lots[i].uid == u && lots[i].shares - takes[i] <= 0.0
    decreases |takes|
  {
    if takes != [] {
      var k := |takes| - 1;
      var pre := takes[..k];
      EmptiedMembers(lots, pre, u);
      assert forall i :: 0 <= i < k ==> pre[i] == takes[i];
    }
  }

  /** A lot emptied early in the walk is still among the emptied lots at its end. */
  lemma EmptiedExtends(lots: seq<Lot>, takes: seq<real>, n: nat)
    requires n <= |takes| <= |lots| && Emptied(lots, takes[..n]) != []
    ensures Emptied(lots, takes) != []
  {
    var pre := takes[..n];
    var u := Emptied(lots, pre)[0];
    EmptiedMembers(lots, pre, u);
    var i :| 0 <= i < n && lots[i].uid == u && lots[i].shares - pre[i] <= 0.0;
    EmptiedMembers(lots, takes, u);
    assert u in Emptied(lots, takes);
  }

  /** Rows that no visited lot names keep their values. */
  lemma {:induction false} UpdatesLeaveOtherRows(t: Table, lots: seq<Lot>, takes: seq<real>, u: string)
    requires |takes| <= |lots| && u in t
    requires forall i :: 0 <= i < |takes| ==> lots[i].uid != u
    ensures Reductions(t, lots, takes)[u] == t[u]
    ensures Archivals(t, lots, takes)[u] == t[u]
    decreases |takes|
  {
    if takes != [] {
      UpdatesLeaveOtherRows(t, lots, takes[..|takes| - 1], u);
    }
  }

  /** The row of visited lot `i`: reduced if shares remain, archived if none do. */
  lemma {:induction false} UpdatesOfVisitedLot(t: Table, lots: seq<Lot>, takes: seq<real>, i: nat)
    requires |takes| <= |lots| && i < |takes| && DistinctUids(lots) && lots[i].uid in t
    ensures var u := lots[i].uid; var left := lots[i].shares - takes[i];
      && Reductions(t, lots, takes)[u] == (if left > 0.0 then t[u].(shares := left) else t[u])
      && Archivals(t, lots, takes)[u] == (if left <= 0.0 then t[u].(status := ARCHIVED) else t[u])
    decreases |takes|
  {
    var k := |takes| - 1;
    var pre := takes[..k];
    if i < k {
      UpdatesOfVisitedLot(t, lots, pre, i);
      assert pre[i] == takes[i];
    } else {
      forall j | 0 <= j < |pre| ensures lots[j].uid != lots[i].uid {
      }
      UpdatesLeaveOtherRows(t, lots, pre, lots[i].uid);
    }
  }

  // ---------------------------------------------------------------------
  // sell_shares as a whole

  /** What a sell returns: the revenue and the shares left unsold. */
  datatype Sold = Sold(revenue: real, unsold: real)

  /**
   * The state after the walk has been committed: the portfolio rows reduced,
   * the transaction rows of emptied lots archived, then the emptied lots
   * deleted from the portfolio. Tables that do not exist are left alone.
   */
  function Committed(s: DbState, uuid: string, order: seq<Lot>, takes: seq<real>): DbState
    requires |takes| <= |order|
  {
    var portfolios :=
      if uuid in s.portfolios
      then s.portfolios[uuid := Reductions(s.portfolios[uuid], order, takes) - set u | u in Emptied(order, takes)]
      else s.portfolios;
    var transactions :=
      if uuid in s.transactions
      then s.transactions[uuid := Archivals(s.transactions[uuid], order, takes)]
      else s.transactions;
    s.(portfolios := portfolios, transactions := transactions)
  }

  /**
   * `sell_shares` with lots carrying uid, shares and cost per share, walked
   * in the sorted `order`. Nothing to sell, or no bid, gives (0, shares).
   * If a lot is emptied while the user has no transactions table, the
   * archive statement raises, both sessions roll back, and the shares
   * requested are reported unsold.
   */
  function SellOutcome(s: DbState, uuid: string, shares: real, bid: Option<real>, order: seq<Lot>): (DbState, Sold)
  {
    if shares <= 0.0 || bid.None? then (s, Sold(0.0, shares))
    else
      var w := SellWalk(order, bid.value, shares);
      if Emptied(order, w.takes) != [] && uuid !in s.transactions then (s, Sold(0.0, shares))
      else (Committed(s, uuid, order, w.takes), Sold(w.revenue, w.toSell))
  }

  /**
   * The exception path as written: `shares` has been rebound to the share
   * count of the lot being emptied, and that is what is reported unsold.
   */
  function SellOutcomeAsWritten(s: DbState, uuid: string, shares: real, bid: Option<real>, order: seq<Lot>): (DbState, Sold)
  {
    if shares <= 0.0 || bid.None? then (s, Sold(0.0, shares))
    else
      var w := SellWalk(order, bid.value, shares);
      var emptied := FirstEmptied(order, w.takes);
      if emptied.Some? && uuid !in s.transactions then (s, Sold(0.0, order[emptied.value].shares))
      else (Committed(s, uuid, order, w.takes), Sold(w.revenue, w.toSell))
  }

  /** The index of the first visited lot that the walk empties. */
  function FirstEmptied(lots: seq<Lot>, takes: seq<real>): (r: Option<nat>)
    requires |takes| <= |lots|
    ensures r.Some? ==> r.value < |takes| && lots[r.value].shares - takes[r.value] <= 0.0
    ensures r.None? ==> forall i :: 0 <= i < |takes| ==> lots[i].shares - takes[i] > 0.0
    decreases |takes|
  {
    if takes == [] then None
    else
      var k := |takes| - 1;
      var pre := FirstEmptied(lots, takes[..k]);
      assert forall i :: 0 <= i < k ==> takes[..k][i] == takes[i];
      if pre.Some? then pre
      else if lots[k].shares - takes[k] <= 0.0 then Some(k)
      else None
  }

  /**
   * `sell_shares` exactly as written: `get_user_shares_by_symbol` has no
   * `include_uid` parameter, so the call raises TypeError inside the `try`,
   * before `shares` is rebound; the handler rolls back and returns (0, shares).
   */
  function SellSharesAsWritten(s: DbState, uuid: string, shares: real, bid: Option<real>): (DbState, Sold)
  {
    (s, Sold(0.0, shares))
  }

  /**
   * The discrepancy on one input: selling 4 of 10 held shares at a bid of
   * 2 sells nothing and changes nothing as written, while the walk on the
   * lots the query selects earns 8 and changes the portfolio.
   */
  lemma AsWrittenSellNeverSells()
    ensures var row := StockData(Some("a"), 0, "ACME", "buy", "market", 10.0, 1.0, 10.0, TRACKED, None);
      var s := DbState([], map["u" := map["a" := row]], map["u" := map["a" := row]]);
      var (s', r) := SellOutcome(s, "u", 4.0, Some(2.0), [Lot("a", 10.0, 1.0)]);
      && SellSharesAsWritten(s, "u", 4.0, Some(2.0)) == (s, Sold(0.0, 4.0))
      && r == Sold(8.0, 0.0) && s' != s
  {
    var row := StockData(Some("a"), 0, "ACME", "buy", "market", 10.0, 1.0, 10.0, TRACKED, None);
    var s := DbState([], map["u" := map["a" := row]], map["u" := map["a" := row]]);
    PartialSellShrinksTheLot();
    var s' := SellOutcome(s, "u", 4.0, Some(2.0), [Lot("a", 10.0, 1.0)]).0;
    assert s'.portfolios["u"]["a"].shares != s.portfolios["u"]["a"].shares;
  }

  /**
   * The outcome of a sell, whichever path it takes: the revenue is the
   * shares sold times the bid, and with lots holding no negative share
   * count the unsold shares lie between 0 and the shares requested.
   */
  lemma SellOutcomeBounds(s: DbState, uuid: string, shares: real, bid: real, order: seq<Lot>)
    requires shares > 0.0 && NonNegativeLots(order)
    ensures var (_, r) := SellOutcome(s, uuid, shares, Some(bid), order);
      && 0.0 <= r.unsold <= shares
      && r.revenue == (shares - r.unsold) * bid
  {
    var w := SellWalk(order, bid, shares);
    assert SellOutcome(s, uuid, shares, Some(bid), order).1
      == if Emptied(order, w.takes) != [] && uuid !in s.transactions then Sold(0.0, shares) else Sold(w.revenue, w.toSell);
    WalkShape(order, bid, shares);
    WalkUnsold(order, bid, shares);
  }

  /**
   * The committed state, row by row: a lot that was not visited, and any
   * row that is not one of the lots, is unchanged in both tables; a
   * visited lot with shares left has exactly those shares; an emptied lot
   * is gone from the portfolio and archived in the transactions.
   */
  lemma CommittedRows(s: DbState, uuid: string, order: seq<Lot>, takes: seq<real>)
    requires |takes| <= |order| && DistinctUids(order)
    requires uuid in s.portfolios && uuid in s.transactions
    ensures var c := Committed(s, uuid, order, takes);
      var pt, tt := s.portfolios[uuid], s.transactions[uuid];
      var pt', tt' := c.portfolios[uuid], c.transactions[uuid];
      && c.userbase == s.userbase
      && c.portfolios.Keys == s.portfolios.Keys && c.transactions.Keys == s.transactions.Keys
      && (forall n :: n in s.portfolios && n != uuid ==> c.portfolios[n] == s.portfolios[n])
      && (forall n :: n in s.transactions && n != uuid ==> c.transactions[n] == s.transactions[n])
      && (forall u :: u in pt && (forall i :: 0 <= i < |takes| ==> order[i].uid != u) ==> u in pt' && pt'[u] == pt[u])
      && (forall u :: u in tt && (forall i :: 0 <= i < |takes| ==> order[i].uid != u) ==> tt'[u] == tt[u])
      && (forall i :: 0 <= i < |takes| && order[i].uid in pt && order[i].shares - takes[i] > 0.0 ==>
            order[i].uid in pt' && pt'[order[i].uid] == pt[order[i].uid].(shares := order[i].shares - takes[i]))
      && (forall i :: 0 <= i < |takes| && order[i].shares - takes[i] <= 0.0 ==> order[i].uid !in pt')
      && (forall i :: 0 <= i < |takes| && order[i].uid in tt && order[i].shares - takes[i] <= 0.0 ==>
            tt'[order[i].uid] == tt[order[i].uid].(status := ARCHIVED))
  {
    var pt, tt := s.portfolios[uuid], s.transactions[uuid];
    var c := Committed(s, uuid, order, takes);
    assert c.portfolios[uuid] == Reductions(pt, order, takes) - set u | u in Emptied(order, takes);
    assert c.transactions[uuid] == Archivals(tt, order, takes);
    PortfolioRows(pt, order, takes);
    TransactionRows(tt, order, takes);
  }

  /** The portfolio table after the commit, row by row. */
  lemma PortfolioRows(pt: Table, order: seq<Lot>, takes: seq<real>)
    requires |takes| <= |order| && DistinctUids(order)
    ensures var pt' := Reductions(pt, order, takes) - set u | u in Emptied(order, takes);
      && (forall u :: u in pt && (forall i :: 0 <= i < |takes| ==> order[i].uid != u) ==> u in pt' && pt'[u] == pt[u])
      && (forall i :: 0 <= i < |takes| && order[i].uid in pt && order[i].shares - takes[i] > 0.0 ==>
            order[i].uid in pt' && pt'[order[i].uid] == pt[order[i].uid].(shares := order[i].shares - takes[i]))
      && (forall i :: 0 <= i < |takes| && order[i].shares - takes[i] <= 0.0 ==> order[i].uid !in pt')
  {
    forall u | u in pt && (forall i :: 0 <= i < |takes| ==> order[i].uid != u)
      ensures var pt' := Reductions(pt, order, takes) - set u | u in Emptied(order, takes); u in pt' && pt'[u] == pt[u]
    {
      UnvisitedRow(pt, order, takes, u);
    }
    forall i | 0 <= i < |takes| && order[i].uid in pt && order[i].shares - takes[i] > 0.0
      ensures var pt' := Reductions(pt, order, takes) - set u | u in Emptied(order, takes);
        order[i].uid in pt' && pt'[order[i].uid] == pt[order[i].uid].(shares := order[i].shares - takes[i])
    {
      ShrunkRow(pt, order, takes, i);
    }
    forall i | 0 <= i < |takes| && order[i].shares - takes[i] <= 0.0
      ensures order[i].uid !in Reductions(pt, order, takes) - set u | u in Emptied(order, takes)
    {
      EmptiedMembers(order, takes, order[i].uid);
    }
  }

  /** A row no visited lot names survives the commit unchanged. */
  lemma UnvisitedRow(pt: Table, order: seq<Lot>, takes: seq<real>, u: string)
    requires |takes| <= |order| && u in pt && forall i :: 0 <= i < |takes| ==> order[i].uid != u
    ensures var pt' := Reductions(pt, order, takes) - set u | u in Emptied(order, takes); u in pt' && pt'[u] == pt[u]
  {
    UpdatesLeaveOtherRows(pt, order, takes, u);
    EmptiedMembers(order, takes, u);
  }

  /** A visited lot with shares left keeps its row, with the reduced share count. */
  lemma ShrunkRow(pt: Table, order: seq<Lot>, takes: seq<real>, i: nat)
    requires |takes| <= |order| && DistinctUids(order) && i < |takes|
    requires order[i].uid in pt && order[i].shares - takes[i] > 0.0
    ensures var pt' := Reductions(pt, order, takes) - set u | u in Emptied(order, takes);
      order[i].uid in pt' && pt'[order[i].uid] == pt[order[i].uid].(shares := order[i].shares - takes[i])
  {
    UpdatesOfVisitedLot(pt, order, takes, i);
    EmptiedMembers(order, takes, order[i].uid);
  }

  /** The transactions table after the commit, row by row. */
  lemma TransactionRows(tt: Table, order: seq<Lot>, takes: seq<real>)
    requires |takes| <= |order| && DistinctUids(order)
    ensures var tt' := Archivals(tt, order, takes);
      && (forall u :: u in tt && (forall i :: 0 <= i < |takes| ==> order[i].uid != u) ==> tt'[u] == tt[u])
      && (forall i :: 0 <= i < |takes| && order[i].uid in tt && order[i].shares - takes[i] <= 0.0 ==>
            tt'[order[i].uid] == tt[order[i].uid].(status := ARCHIVED))
  {
    forall u | u in tt && (forall i :: 0 <= i < |takes| ==> order[i].uid != u)
      ensures Archivals(tt, order, takes)[u] == tt[u]
    {
      UpdatesLeaveOtherRows(tt, order, takes, u);
    }
    forall i | 0 <= i < |takes| && order[i].uid in tt && order[i].shares - takes[i] <= 0.0
      ensures Archivals(tt, order, takes)[order[i].uid] == tt[order[i].uid].(status := ARCHIVED)
    {
      UpdatesOfVisitedLot(tt, order, takes, i);
    }
  }

  /** The rebinding changes the exception result: 3 shares reported unsold out of 5 requested. */
  lemma RebindingMisreportsUnsold()
    ensures var s := DbState([], map[], map["u" := map[]]);
      var order := [Lot("a", 3.0, 10.0)];
      && SellOutcomeAsWritten(s, "u", 5.0, Some(12.0), order).1 == Sold(0.0, 3.0)
      && SellOutcome(s, "u", 5.0, Some(12.0), order).1 == Sold(0.0, 5.0)
  {
    var order := [Lot("a", 3.0, 10.0)];
    OneLotWalk(order);
    var takes := [3.0];
    assert takes[..0] == [];
    assert FirstEmptied(order, takes) == Some(0);
    assert Emptied(order, takes) == ["a"];
  }

  /**
   * A lot with a negative share count, which a negative buy files, is walked
   * like any other: `min(-5, 3)` takes -5, so selling 3 at 2 earns -10 and
   * reports 8 unsold, more than was requested.
   */
  lemma NegativeLotOversells()
    ensures var s := DbState([], map["u" := map[]], map["u" := map[]]);
      SellOutcome(s, "u", 3.0, Some(2.0), [Lot("a", -5.0, 1.0)]).1 == Sold(-10.0, 8.0)
  {
    var order := [Lot("a", -5.0, 1.0)];
    var w1 := Step(order, 2.0, Walk(3.0, 0.0, []));
    assert w1 == Walk(8.0, -10.0, [-5.0]);
    assert WalkFrom(order, 2.0, w1) == w1;
    assert SellWalk(order, 2.0, 3.0) == w1;
  }

  /** Selling 5 shares at 12 out of one lot of 3 takes the whole lot and leaves 2 unsold. */
  lemma OneLotWalk(order: seq<Lot>)
    requires order == [Lot("a", 3.0, 10.0)]
    ensures SellWalk(order, 12.0, 5.0) == Walk(2.0, 36.0, [3.0])
  {
    var w0 := Walk(5.0, 0.0, []);
    var w1 := Step(order, 12.0, w0);
    assert w1 == Walk(2.0, 36.0, [3.0]);
    assert WalkFrom(order, 12.0, w1) == w1;
  }

  /** The corrected sell does sell: 4 of 10 held shares at a bid of 2 earn 8 and shrink the lot to 6. */
  lemma PartialSellShrinksTheLot()
    ensures var row := StockData(Some("a"), 0, "ACME", "buy", "market", 10.0, 1.0, 10.0, TRACKED, None);
      var s := DbState([], map["u" := map["a" := row]], map["u" := map["a" := row]]);
      var (s', r) := SellOutcome(s, "u", 4.0, Some(2.0), [Lot("a", 10.0, 1.0)]);
      && r == Sold(8.0, 0.0)
      && "u" in s'.portfolios && "a" in s'.portfolios["u"] && s'.portfolios["u"]["a"].shares == 6.0
      && s'.transactions == s.transactions
  {
    var row := StockData(Some("a"), 0, "ACME", "buy", "market", 10.0, 1.0, 10.0, TRACKED, None);
    var t := map["a" := row];
    var s := DbState([], map["u" := t], map["u" := t]);
    var order := [Lot("a", 10.0, 1.0)];
    var takes := [4.0];
    PartialOneLotWalk(order);
    assert takes[..0] == [];
    assert Emptied(order, takes) == [];
    assert Reductions(t, order, takes) == t["a" := row.(shares := 6.0)];
    assert Archivals(t, order, takes) == t;
    var c := Committed(s, "u", order, takes);
    var gone := set u | u in Emptied(order, takes);
    assert gone == {};
    assert c.portfolios["u"] == t["a" := row.(shares := 6.0)] - gone;
    assert "a" in c.portfolios["u"] && c.portfolios["u"]["a"].shares == 6.0;
    assert c.transactions == s.transactions;
    assert SellOutcome(s, "u", 4.0, Some(2.0), order) == (c, Sold(8.0, 0.0));
  }

  /** Selling 4 shares at 2 out of one lot of 10 takes 4 and earns 8. */
  lemma PartialOneLotWalk(order: seq<Lot>)
    requires order == [Lot("a", 10.0, 1.0)]
    ensures SellWalk(order, 2.0, 4.0) == Walk(0.0, 8.0, [4.0])
  {
    var w1 := Step(order, 2.0, Walk(4.0, 0.0, []));
    assert w1 == Walk(0.0, 8.0, [4.0]);
    assert WalkFrom(order, 2.0, w1) == w1;
  }

  /**
   * With a dearer lot listed first, the sort puts the cheaper lot first and
   * the sell takes its shares from that one: selling 4 at a bid of 2 out of
   * lots of 10 at 3 and 10 at 1 leaves 6 in the cheaper lot and 10 in the
   * dearer one.
   */
  lemma SellReducesTheCheapestLot()
    ensures var dear := StockData(Some("b"), 0, "ACME", "buy", "market", 10.0, 3.0, 30.0, TRACKED, None);
      var cheap := StockData(Some("a"), 0, "ACME", "buy", "market", 10.0, 1.0, 10.0, TRACKED, None);
      var t := map["a" := cheap, "b" := dear];
      var s := DbState([], map["u" := t], map["u" := t]);
      var (s', r) := SellOutcome(s, "u", 4.0, Some(2.0), SortByAbsCost([Lot("b", 10.0, 3.0), Lot("a", 10.0, 1.0)]));
      && r == Sold(8.0, 0.0)
      && "u" in s'.portfolios && s'.portfolios["u"].Keys == {"a", "b"}
      && s'.portfolios["u"]["a"].shares == 6.0 && s'.portfolios["u"]["b"] == dear
      && s'.transactions == s.transactions
  {
    var dear := StockData(Some("b"), 0, "ACME", "buy", "market", 10.0, 3.0, 30.0, TRACKED, None);
    var cheap := StockData(Some("a"), 0, "ACME", "buy", "market", 10.0, 1.0, 10.0, TRACKED, None);
    var t := map["a" := cheap, "b" := dear];
    var s := DbState([], map["u" := t], map["u" := t]);
    var order := [Lot("a", 10.0, 1.0), Lot("b", 10.0, 3.0)];
    TwoLotSort();
    TwoLotWalk(order);
    TwoLotCommit(s, t, cheap, order);
  }

  lemma TwoLotSort()
    ensures SortByAbsCost([Lot("b", 10.0, 3.0), Lot("a", 10.0, 1.0)]) == [Lot("a", 10.0, 1.0), Lot("b", 10.0, 3.0)]
  {
    var a, b := Lot("a", 10.0, 1.0), Lot("b", 10.0, 3.0);
    assert [b, a][1..] == [a];
    assert SortByAbsCost([a]) == [a] by {
      assert [a][1..] == [];
    }
    assert InsertByAbsCost(b, [a]) == [a] + InsertByAbsCost(b, []);
  }

  /** Selling 4 at 2 out of the sorted lots takes 4 from the first and stops. */
  lemma TwoLotWalk(order: seq<Lot>)
    requires order == [Lot("a", 10.0, 1.0), Lot("b", 10.0, 3.0)]
    ensures SellWalk(order, 2.0, 4.0) == Walk(0.0, 8.0, [4.0])
  {
    var w1 := Step(order, 2.0, Walk(4.0, 0.0, []));
    assert w1 == Walk(0.0, 8.0, [4.0]);
    assert WalkFrom(order, 2.0, w1) == w1;
  }

  /** Committing a take of 4 from the cheap lot shrinks it to 6 and touches nothing else. */
  lemma TwoLotCommit(s: DbState, t: Table, cheap: StockData, order: seq<Lot>)
    requires order == [Lot("a", 10.0, 1.0), Lot("b", 10.0, 3.0)]
    requires "a" in t && t["a"] == cheap && cheap.shares == 10.0
    requires s.portfolios == map["u" := t] && s.transactions == map["u" := t]
    requires SellWalk(order, 2.0, 4.0) == Walk(0.0, 8.0, [4.0])
    ensures SellOutcome(s, "u", 4.0, Some(2.0), order) == (Committed(s, "u", order, [4.0]), Sold(8.0, 0.0))
    ensures Committed(s, "u", order, [4.0]).portfolios == map["u" := t["a" := cheap.(shares := 6.0)]]
    ensures Committed(s, "u", order, [4.0]).transactions == s.transactions
  {
    var takes := [4.0];
    assert takes[..0] == [];
    assert Emptied(order, takes) == [];
    assert Reductions(t, order, takes) == t["a" := cheap.(shares := 6.0)];
    assert Archivals(t, order, takes) == t;
    var gone := set u | u in Emptied(order, takes);
    assert gone == {};
    assert Reductions(t, order, takes) - gone == t["a" := cheap.(shares := 6.0)];
  }

}
