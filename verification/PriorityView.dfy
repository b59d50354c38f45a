/**
 From tick-indexed FIFO queues to one price-time priority queue: concatenate the levels of a book from the
 best price to the worst. Adding, peeking and popping on the book are then queue operations at that sequence.
 */
module PriorityView {
  import opened Types
  import opened Matching
  import opened MemPool
  import opened OrderBookView

  /** The tick of rank `k` on a side: asks count up from 0, bids down from the top. */
  function TickAt(side: Side, capacity: nat, k: nat): nat
    requires k < capacity
  {
    if side == Sell then k else capacity - 1 - k
  }

  function RankOf(side: Side, capacity: nat, tick: nat): nat
    requires tick < capacity
  {
    if side == Sell then tick else capacity - 1 - tick
  }

  /** The levels of rank `k` and worse, best first. */
  ghost function FlatFrom(v: View, side: Side, capacity: nat, k: nat): seq<OrderPtr>
    requires k <= capacity
    decreases capacity - k
  {
    if k == capacity then [] else LevelAt(v, TickAt(side, capacity, k)) + FlatFrom(v, side, capacity, k + 1)
  }

  ghost function Flat(v: View, side: Side, capacity: nat): seq<OrderPtr> {
    FlatFrom(v, side, capacity, 0)
  }

  lemma FlatIsFrom(v: View, side: Side, capacity: nat)
    ensures Flat(v, side, capacity) == FlatFrom(v, side, capacity, 0)
  {
  }

  /** Levels outside the given ranks do not matter. */
  lemma {:induction false} FlatFromSame(v: View, w: View, side: Side, capacity: nat, k: nat)
    requires k <= capacity
    requires forall j :: k <= j < capacity ==>
               LevelAt(v, TickAt(side, capacity, j)) == LevelAt(w, TickAt(side, capacity, j))
    ensures FlatFrom(v, side, capacity, k) == FlatFrom(w, side, capacity, k)
    decreases capacity - k
  {
    if k < capacity {
      FlatFromSame(v, w, side, capacity, k + 1);
    }
  }

  /** Empty levels contribute nothing. */
  lemma {:induction false} FlatFromSkip(v: View, side: Side, capacity: nat, k: nat, m: nat)
    requires k <= m <= capacity
    requires forall j :: k <= j < m ==> LevelAt(v, TickAt(side, capacity, j)) == []
    ensures FlatFrom(v, side, capacity, k) == FlatFrom(v, side, capacity, m)
    decreases m - k
  {
    if k < m {
      FlatFromSkip(v, side, capacity, k + 1, m);
    }
  }

  /** The elements of the flattened queue are exactly the orders of the levels of those ranks. */
  lemma {:induction false} FlatFromElements(v: View, side: Side, capacity: nat, k: nat, p: OrderPtr)
    requires k <= capacity
    ensures p in FlatFrom(v, side, capacity, k) <==>
            exists j :: k <= j < capacity && p in LevelAt(v, TickAt(side, capacity, j))
    decreases capacity - k
  {
    if k < capacity {
      FlatFromElements(v, side, capacity, k + 1, p);
    }
  }

  lemma FlatElements(v: View, home: map<OrderPtr, nat>, side: Side, capacity: nat)
    requires Housed(v, home) && Within(v, capacity)
    ensures forall p :: p in Flat(v, side, capacity) <==> p in home
  {
    forall p
      ensures p in Flat(v, side, capacity) <==> p in home
    {
      FlatFromElements(v, side, capacity, 0, p);
      if p in home {
        assert TickAt(side, capacity, RankOf(side, capacity, home[p])) == home[p];
      }
    }
  }

  lemma FlatMembers(v: View, home: map<OrderPtr, nat>, side: Side, capacity: nat)
    requires Housed(v, home) && Within(v, capacity)
    ensures (set p | p in Flat(v, side, capacity)) == home.Keys
  {
    FlatElements(v, home, side, capacity);
    FlatFromHome(v, home, side, capacity, 0);
  }

  lemma FlatFromHome(v: View, home: map<OrderPtr, nat>, side: Side, capacity: nat, k: nat)
    requires Housed(v, home) && Within(v, capacity) && k <= capacity
    ensures forall p :: p in FlatFrom(v, side, capacity, k) ==>
              p in home && home[p] < capacity && RankOf(side, capacity, home[p]) >= k
  {
    forall p | p in FlatFrom(v, side, capacity, k)
      ensures p in home && home[p] < capacity && RankOf(side, capacity, home[p]) >= k
    {
      FlatFromElements(v, side, capacity, k, p);
    }
  }

  lemma {:induction false} FlatFromDistinct(v: View, home: map<OrderPtr, nat>, side: Side, capacity: nat, k: nat)
    requires Housed(v, home) && Within(v, capacity) && k <= capacity
    ensures Distinct(FlatFrom(v, side, capacity, k))
    decreases capacity - k
  {
    if k < capacity {
      var level, rest := LevelAt(v, TickAt(side, capacity, k)), FlatFrom(v, side, capacity, k + 1);
      FlatFromDistinct(v, home, side, capacity, k + 1);
      FlatFromHome(v, home, side, capacity, k + 1);
      forall i, j | 0 <= i < |level| && 0 <= j < |rest|
        ensures level[i] != rest[j]
      {
        assert level[i] in level && rest[j] in rest;
      }
      DistinctConcat(level, rest);
    }
  }

  /** `r` is the best occupied tick of the side, or -1. */
  ghost predicate IsBest(v: View, side: Side, r: int) {
    if side == Sell then IsFirst(v, r) else IsLast(v, r)
  }

  /** The best level comes first. */
  lemma FlatBest(v: View, side: Side, capacity: nat, r: int)
    requires Within(v, capacity) && IsBest(v, side, r)
    ensures r < 0 ==> Flat(v, side, capacity) == []
    ensures r >= 0 ==>
              && r as nat in v && r < capacity
              && Flat(v, side, capacity) == v[r] + FlatFrom(v, side, capacity, RankOf(side, capacity, r) + 1)
  {
    if r < 0 {
      FlatFromSkip(v, side, capacity, 0, capacity);
    } else {
      var k := RankOf(side, capacity, r);
      assert TickAt(side, capacity, k) == r;
      FlatFromSkip(v, side, capacity, 0, k);
    }
  }

  lemma BetterRanksEmpty(v: View, side: Side, capacity: nat, r: nat)
    requires IsBest(v, side, r) && r < capacity
    ensures forall j :: 0 <= j < RankOf(side, capacity, r) ==>
              TickAt(side, capacity, j) != r && LevelAt(v, TickAt(side, capacity, j)) == []
    ensures TickAt(side, capacity, RankOf(side, capacity, r)) == r
  {
  }

  lemma FlatStep(v: View, side: Side, capacity: nat, k: nat)
    requires k < capacity
    ensures FlatFrom(v, side, capacity, k)
            == LevelAt(v, TickAt(side, capacity, k)) + FlatFrom(v, side, capacity, k + 1)
  {
  }

  /** Popping the best level's head pops the head of the queue. */
  lemma FlatPop(v: View, side: Side, capacity: nat, r: int)
    requires Within(v, capacity) && NonEmptyLevels(v) && IsBest(v, side, r) && r >= 0
    ensures r as nat in v && v[r] != [] && Flat(v, side, capacity) != [] && Flat(v, side, capacity)[0] == v[r][0]
    ensures Flat(Popped(v, r), side, capacity) == Flat(v, side, capacity)[1..]
  {
    hide Within, FlatFrom, Popped, LevelAt;
    FlatBest(v, side, capacity, r);
    LevelPopped(v, r);
    var k, v' := RankOf(side, capacity, r), Popped(v, r);
    BetterRanksEmpty(v, side, capacity, r);
    FlatStep(v', side, capacity, k);
    FlatFromSkip(v', side, capacity, 0, k);
    FlatFromSame(v, v', side, capacity, k + 1);
  }

  /** Every order of `q` rests at a tick whose rank is at most (or above) that of `tick`. */
  ghost predicate RankedUpTo(q: seq<OrderPtr>, home: map<OrderPtr, nat>, side: Side, capacity: nat, tick: nat)
    requires tick < capacity
  {
    forall i :: 0 <= i < |q| ==>
      q[i] in home && home[q[i]] < capacity && RankOf(side, capacity, home[q[i]]) <= RankOf(side, capacity, tick)
  }

  ghost predicate RankedAbove(q: seq<OrderPtr>, home: map<OrderPtr, nat>, side: Side, capacity: nat, tick: nat)
    requires tick < capacity
  {
    forall i :: 0 <= i < |q| ==>
      q[i] in home && home[q[i]] < capacity && RankOf(side, capacity, home[q[i]]) > RankOf(side, capacity, tick)
  }

  lemma LevelRanked(v: View, home: map<OrderPtr, nat>, side: Side, capacity: nat, k: nat, tick: nat)
    requires Housed(v, home) && tick < capacity && k <= RankOf(side, capacity, tick)
    ensures RankedUpTo(LevelAt(v, TickAt(side, capacity, k)), home, side, capacity, tick)
  {
    var level := LevelAt(v, TickAt(side, capacity, k));
    forall i | 0 <= i < |level|
      ensures level[i] in home && home[level[i]] == TickAt(side, capacity, k)
    {
      assert level[i] in level;
    }
  }

  lemma RankedConcat(a: seq<OrderPtr>, b: seq<OrderPtr>, home: map<OrderPtr, nat>, side: Side, capacity: nat, tick: nat)
    requires tick < capacity
    requires RankedUpTo(a, home, side, capacity, tick) && RankedUpTo(b, home, side, capacity, tick)
    ensures RankedUpTo(a + b, home, side, capacity, tick)
  {
  }

  lemma LevelAppended(v: View, tick: nat, p: OrderPtr)
    ensures forall t ::
              LevelAt(Appended(v, tick, p), t) == if t == tick then LevelAt(v, t) + [p] else LevelAt(v, t)
  {
  }

  lemma LevelPopped(v: View, tick: nat)
    requires tick in v && v[tick] != []
    ensures forall t :: LevelAt(Popped(v, tick), t) == if t == tick then v[t][1..] else LevelAt(v, t)
  {
  }

  lemma RestRanked(v: View, home: map<OrderPtr, nat>, side: Side, capacity: nat, tick: nat)
    requires Housed(v, home) && Within(v, capacity) && tick < capacity
    ensures RankedAbove(FlatFrom(v, side, capacity, RankOf(side, capacity, tick) + 1), home, side, capacity, tick)
  {
    var k := RankOf(side, capacity, tick) + 1;
    FlatFromHome(v, home, side, capacity, k);
    var q := FlatFrom(v, side, capacity, k);
    assert forall i :: 0 <= i < |q| ==> q[i] in q;
  }

  /** An appended order goes behind every order of its rank or better, and ahead of the worse ones. */
  lemma {:induction false} FlatFromAppend(
      v: View, home: map<OrderPtr, nat>, side: Side, capacity: nat, k: nat, tick: nat, p: OrderPtr)
    returns (front: seq<OrderPtr>, back: seq<OrderPtr>)
    requires Housed(v, home) && Within(v, capacity) && tick < capacity && k <= RankOf(side, capacity, tick)
    ensures FlatFrom(v, side, capacity, k) == front + back
    ensures FlatFrom(Appended(v, tick, p), side, capacity, k) == front + [p] + back
    ensures RankedUpTo(front, home, side, capacity, tick) && RankedAbove(back, home, side, capacity, tick)
    decreases capacity - k
  {
    hide Housed, Within, Appended, RankedUpTo, RankedAbove, LevelAt;
    LevelAppended(v, tick, p);
    var v', here := Appended(v, tick, p), TickAt(side, capacity, k);
    var level, rest := LevelAt(v, here), FlatFrom(v, side, capacity, k + 1);
    LevelRanked(v, home, side, capacity, k, tick);
    if here == tick {
      FlatFromSame(v, v', side, capacity, k + 1);
      RestRanked(v, home, side, capacity, tick);
      front, back := level, rest;
    } else {
      var front', back' := FlatFromAppend(v, home, side, capacity, k + 1, tick, p);
      front, back := level + front', back';
      RankedConcat(level, front', home, side, capacity, tick);
      Associate(level, front', back');
      Associate(level, front' + [p], back');
      Associate(level, front', [p]);
    }
  }

  // ----- the orders behind the pointers -----

  ghost function Orders(q: seq<OrderPtr>): seq<Order>
    reads (set p | p in q)`obj
  {
    if q == [] then [] else [q[0].obj.order] + Orders(q[1..])
  }

  lemma {:induction false} OrdersAt(q: seq<OrderPtr>)
    ensures |Orders(q)| == |q| && forall i :: 0 <= i < |q| ==> Orders(q)[i] == q[i].obj.order
  {
    if q != [] {
      OrdersAt(q[1..]);
    }
  }

  lemma {:induction false} OrdersConcat(a: seq<OrderPtr>, b: seq<OrderPtr>)
    ensures Orders(a + b) == Orders(a) + Orders(b)
  {
    if a == [] {
      assert a + b == b;
    } else {
      OrdersConcat(a[1..], b);
      assert (a + b)[1..] == a[1..] + b;
    }
  }

  lemma OrdersOne(p: OrderPtr)
    ensures Orders([p]) == [p.obj.order]
  {
    assert [p][1..] == [];
  }

  /** Behind everything at least as good, ahead of everything worse: that is where Enqueue puts it. */
  lemma {:induction false} EnqueueAt(side: Side, front: seq<Order>, back: seq<Order>, o: Order)
    requires forall i :: 0 <= i < |front| ==> !Better(side, o.price, front[i].price)
    requires forall i :: 0 <= i < |back| ==> Better(side, o.price, back[i].price)
    ensures Enqueue(side, front + back, o) == front + [o] + back
  {
    hide Better;
    if front == [] {
      assert front + back == back;
    } else {
      EnqueueAt(side, front[1..], back, o);
      EnqueueStep(side, front, back, o);
    }
  }

  lemma EnqueueStep(side: Side, front: seq<Order>, back: seq<Order>, o: Order)
    requires front != [] && !Better(side, o.price, front[0].price)
    requires Enqueue(side, front[1..] + back, o) == front[1..] + [o] + back
    ensures Enqueue(side, front + back, o) == front + [o] + back
  {
    hide Better;
    assert (front + back)[1..] == front[1..] + back;
    assert front + [o] + back == [front[0]] + (front[1..] + [o] + back);
  }

  /** Every order rests at the tick of its own price. */
  ghost predicate AtOwnPrice(home: map<OrderPtr, nat>)
    reads home.Keys`obj
  {
    forall p :: p in home ==> p.obj.order.price == home[p]
  }

  /** Adding an order to its level is queueing it by price-time priority. */
  lemma OrdersAppend(v: View, home: map<OrderPtr, nat>, side: Side, capacity: nat, p: OrderPtr)
    requires Housed(v, home) && Within(v, capacity) && AtOwnPrice(home) && p.obj.order.price < capacity
    ensures Orders(Flat(Appended(v, p.obj.order.price, p), side, capacity))
            == Enqueue(side, Orders(Flat(v, side, capacity)), p.obj.order)
  {
    hide Housed, Within, RankedUpTo, RankedAbove, FlatFrom, Appended;
    var o := p.obj.order;
    var front, back := FlatFromAppend(v, home, side, capacity, 0, o.price, p);
    OrdersConcat(front, back);
    OrdersConcat(front + [p], back);
    OrdersConcat(front, [p]);
    OrdersOne(p);
    RankedPrices(front, back, home, side, capacity, o.price);
    EnqueueAt(side, Orders(front), Orders(back), o);
  }

  lemma RankedPrices(front: seq<OrderPtr>, back: seq<OrderPtr>, home: map<OrderPtr, nat>,
                     side: Side, capacity: nat, tick: nat)
    requires AtOwnPrice(home) && tick < capacity
    requires RankedUpTo(front, home, side, capacity, tick) && RankedAbove(back, home, side, capacity, tick)
    ensures forall i :: 0 <= i < |Orders(front)| ==> !Better(side, tick, Orders(front)[i].price)
    ensures forall i :: 0 <= i < |Orders(back)| ==> Better(side, tick, Orders(back)[i].price)
  {
    OrdersAt(front);
    OrdersAt(back);
  }
}
