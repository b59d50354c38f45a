/** The dense strategy: an array of intrusive FIFO lists, their tails, an occupancy mask and two cached ends. */
module BitmaskBook {
  import opened Bits
  import opened MemPool
  import opened OrderBookView

  // ----- the redundant structures, one predicate each -----

  ghost function HeadOf(v: View, tick: nat): OrderLink {
    if tick in v && v[tick] != [] then v[tick][0] else null
  }

  ghost function TailOf(v: View, tick: nat): OrderLink {
    if tick in v && v[tick] != [] then v[tick][|v[tick]| - 1] else null
  }

  /** The head array is null exactly at the empty ticks, and else the first order of the level. */
  ghost predicate Heads(levels: seq<OrderLink>, v: View) {
    forall t :: 0 <= t < |levels| ==> levels[t] == HeadOf(v, t)
  }

  /** The tail array is null exactly at the empty ticks, and else the last order of the level. */
  ghost predicate Tails(tails: seq<OrderLink>, v: View) {
    forall t :: 0 <= t < |tails| ==> tails[t] == TailOf(v, t)
  }

  /** A mask bit is set exactly at the occupied ticks; bits at or beyond the capacity are clear. */
  ghost predicate Masks(mask: seq<bv64>, v: View) {
    forall t: nat :: Marked(mask, t) <==> t in v
  }

  lemma MarksAppend(mask: seq<bv64>, mask': seq<bv64>, v: View, tick: nat, p: OrderPtr)
    requires Masks(mask, v)
    requires forall t: nat :: Marked(mask', t) <==> Marked(mask, t) || t == tick
    ensures Masks(mask', Appended(v, tick, p))
  {
  }

  lemma MarksPop(mask: seq<bv64>, mask': seq<bv64>, v: View, tick: nat)
    requires Masks(mask, v) && tick in v && |v[tick]| == 1
    requires forall t: nat :: Marked(mask', t) <==> Marked(mask, t) && t != tick
    ensures Masks(mask', Popped(v, tick))
  {
  }

  lemma MarksExtend(mask: seq<bv64>, v: View, tick: nat, p: OrderPtr)
    requires Masks(mask, v) && tick in v
    ensures Masks(mask, Appended(v, tick, p))
  {
  }

  lemma EndsExtend(v: View, tick: nat, p: OrderPtr, first: int, last: int)
    requires IsFirst(v, first) && IsLast(v, last) && tick in v
    ensures IsFirst(Appended(v, tick, p), first) && IsLast(Appended(v, tick, p), last)
  {
    EndsAppend(v, tick, p, first, last);
  }

  lemma HeadLink(v: View, home: map<OrderPtr, nat>, tick: nat)
    requires Housed(v, home) && NonEmptyLevels(v) && Chains(v, LinksOf(home.Keys)) && tick in v
    ensures v[tick][0] in home && v[tick][0].obj.next == After(v[tick], 0, null)
  {
    assert v[tick][0] in v[tick];
    assert Chained(v[tick], LinksOf(home.Keys));
  }

  lemma TailIsMember(v: View, home: map<OrderPtr, nat>, tick: nat)
    requires Housed(v, home) && NonEmptyLevels(v) && tick in v
    ensures v[tick][|v[tick]| - 1] in home
  {
    assert v[tick][|v[tick]| - 1] in v[tick];
  }

  lemma MarksShrink(mask: seq<bv64>, v: View, tick: nat)
    requires Masks(mask, v) && tick in v && |v[tick]| > 1
    ensures Masks(mask, Popped(v, tick))
  {
  }

  lemma EndsShrink(v: View, tick: nat, first: int, last: int)
    requires IsFirst(v, first) && IsLast(v, last) && tick in v && |v[tick]| > 1
    ensures IsFirst(Popped(v, tick), first) && IsLast(Popped(v, tick), last)
  {
    assert tick in Popped(v, tick);
  }

  /** After the level that was first empties, the next marked tick above it is first; otherwise nothing changes. */
  lemma FirstAfterPop(v: View, tick: nat, mask: seq<bv64>, first: int, next: int)
    requires IsFirst(v, first) && tick in v && |v[tick]| == 1 && Masks(mask, Popped(v, tick))
    requires if first == tick then IsNextMarked(mask, tick, next) else next == first
    ensures IsFirst(Popped(v, tick), next)
  {
    var v' := Popped(v, tick);
    if first == tick {
      forall t | t in v'
        ensures next >= 0 && next <= t
      {
        assert Marked(mask, t) && t > tick;
      }
    } else {
      assert first as nat in v';
    }
  }

  lemma LastAfterPop(v: View, tick: nat, mask: seq<bv64>, last: int, prev: int)
    requires IsLast(v, last) && tick in v && |v[tick]| == 1 && Masks(mask, Popped(v, tick))
    requires if last == tick then IsPrevMarked(mask, tick, prev) else prev == last
    ensures IsLast(Popped(v, tick), prev)
  {
    var v' := Popped(v, tick);
    if last == tick {
      forall t | t in v'
        ensures prev >= 0 && t <= prev
      {
        assert Marked(mask, t) && t < tick;
      }
    } else {
      assert last as nat in v';
    }
  }

  /** The `next` links of a set of orders, as a value. */
  type Links = map<OrderPtr, OrderLink>

  /** The intrusive list of one level: each order links to the next, the last one to null. */
  ghost predicate Chained(q: seq<OrderPtr>, links: Links) {
    forall i :: 0 <= i < |q| ==> q[i] in links && links[q[i]] == After(q, i, null)
  }

  ghost predicate Chains(v: View, links: Links) {
    forall t :: t in v ==> Chained(v[t], links)
  }

  lemma HeadsAppend(levels: seq<OrderLink>, v: View, tick: nat, p: OrderPtr)
    requires Heads(levels, v) && tick < |levels| && NonEmptyLevels(v)
    ensures Heads(if tick in v then levels else levels[tick := p], Appended(v, tick, p))
  {
  }

  lemma TailsAppend(tails: seq<OrderLink>, v: View, tick: nat, p: OrderPtr)
    requires Tails(tails, v) && tick < |tails|
    ensures Tails(tails[tick := p], Appended(v, tick, p))
  {
  }

  lemma HeadsPop(levels: seq<OrderLink>, v: View, tick: nat)
    requires Heads(levels, v) && tick < |levels| && tick in v && v[tick] != []
    ensures Heads(levels[tick := After(v[tick], 0, null)], Popped(v, tick))
  {
  }

  lemma TailsPop(tails: seq<OrderLink>, v: View, tick: nat)
    requires Tails(tails, v) && tick < |tails| && tick in v && v[tick] != []
    ensures Tails(if |v[tick]| == 1 then tails[tick := null] else tails, Popped(v, tick))
  {
  }

  /** The links after `p` was linked behind the tail of level `tick`. */
  ghost function LinksAppended(links: Links, v: View, tick: nat, p: OrderPtr): Links {
    var linked := if tick in v && v[tick] != [] then links[v[tick][|v[tick]| - 1] := p] else links;
    linked[p := null]
  }

  /** Linking a new tail to a level leaves every other chain alone. */
  lemma ChainsAppend(v: View, home: map<OrderPtr, nat>, links: Links, tick: nat, p: OrderPtr)
    requires Housed(v, home) && NonEmptyLevels(v) && Chains(v, links) && p !in home
    ensures Chains(Appended(v, tick, p), LinksAppended(links, v, tick, p))
  {
    var v', links' := Appended(v, tick, p), LinksAppended(links, v, tick, p);
    forall t | t in v'
      ensures Chained(v'[t], links')
    {
      if t == tick {
        ChainAppend(LevelAt(v, tick), links, links', p);
      } else {
        ChainUnchanged(v[t], links, links');
      }
    }
  }

  lemma ChainUnchanged(q: seq<OrderPtr>, links: Links, links': Links)
    requires Chained(q, links)
    requires forall p :: p in q && p in links ==> p in links' && links'[p] == links[p]
    ensures Chained(q, links')
  {
    forall i | 0 <= i < |q|
      ensures q[i] in links' && links'[q[i]] == After(q, i, null)
    {
      assert q[i] in q;
    }
  }

  lemma ChainAppend(q: seq<OrderPtr>, links: Links, links': Links, p: OrderPtr)
    requires Chained(q, links) && Distinct(q) && p !in q && p in links' && links'[p] == null
    requires forall i :: 0 <= i < |q| ==>
               q[i] in links' && links'[q[i]] == if i == |q| - 1 then p else links[q[i]]
    ensures Chained(q + [p], links')
  {
    var all := q + [p];
    forall i | 0 <= i < |all|
      ensures all[i] in links' && links'[all[i]] == After(all, i, null)
    {
      if i < |q| {
        assert links[q[i]] == After(q, i, null);
      }
    }
  }

  /** Unlinking the head of a level leaves every other chain alone. */
  lemma ChainsPop(v: View, home: map<OrderPtr, nat>, links: Links, tick: nat)
    requires Housed(v, home) && Chains(v, links) && tick in v && v[tick] != []
    ensures Chains(Popped(v, tick), links - {v[tick][0]})
  {
    var head, v' := v[tick][0], Popped(v, tick);
    forall t | t in v'
      ensures Chained(v'[t], links - {head})
    {
      if t == tick {
        ChainTail(v[tick], links);
      } else {
        assert head in v[tick];
        ChainUnchanged(v[t], links, links - {head});
      }
    }
  }

  lemma ChainTail(q: seq<OrderPtr>, links: Links)
    requires q != [] && Chained(q, links) && Distinct(q)
    ensures Chained(q[1..], links - {q[0]})
  {
    var rest := q[1..];
    forall i | 0 <= i < |rest|
      ensures rest[i] in links - {q[0]} && (links - {q[0]})[rest[i]] == After(rest, i, null)
    {
      assert links[q[i + 1]] == After(q, i + 1, null);
    }
  }

  ghost function LinksOf(members: set<OrderPtr>): Links
    reads members`obj
  {
    map p | p in members :: p.obj.next
  }

  lemma LinksOfGrow(members: set<OrderPtr>, p: OrderPtr)
    requires p !in members
    ensures LinksOf(members + {p}) == LinksOf(members)[p := p.obj.next]
  {
  }

  lemma HomeGrow(home: map<OrderPtr, nat>, p: OrderPtr, tick: nat)
    ensures home[p := tick].Keys == home.Keys + {p}
  {
  }

  lemma LinksOfShrink(members: set<OrderPtr>, p: OrderPtr)
    ensures LinksOf(members - {p}) == LinksOf(members) - {p}
  {
  }

  lemma HomeShrink(home: map<OrderPtr, nat>, p: OrderPtr)
    ensures (home - {p}).Keys == home.Keys - {p}
  {
  }

  /** tail->next = p */
  method LinkBehind(tail: OrderPtr, p: OrderPtr, ghost members: set<OrderPtr>)
    requires tail in members
    modifies tail`obj
    ensures tail.obj == old(tail.obj).(next := p)
    ensures LinksOf(members) == old(LinksOf(members))[tail := p]
  {
    tail.obj := tail.obj.(next := p);
  }

  /** The words needed for `ticks` ticks. */
  function Words(ticks: nat): nat {
    (ticks + 63) / 64
  }

  class BitmaskOrderBook {
    const capacity: nat
    const priceLevels: array<OrderLink>
    const priceLevelTails: array<OrderLink>
    const mask: array<bv64>
    var bestFirst: int
    var bestLast: int
    /** The abstract view, and the tick at which each order rests. */
    ghost var view: View
    ghost var home: map<OrderPtr, nat>

    ghost function Footprint(): set<object> {
      {this, priceLevels, priceLevelTails, mask}
    }

    ghost predicate Arrays()
      reads this
    {
      && priceLevels.Length == capacity && priceLevelTails.Length == capacity && mask.Length == Words(capacity)
      && priceLevels != priceLevelTails
      && (priceLevels as object) != mask && (priceLevelTails as object) != mask
    }

    ghost predicate Valid()
      reads this, priceLevels, priceLevelTails, mask, home.Keys`obj
    {
      && Arrays()
      && NonEmptyLevels(view) && Within(view, capacity)
      && Heads(priceLevels[..], view) && Tails(priceLevelTails[..], view) && Masks(mask[..], view)
      && Housed(view, home) && Chains(view, LinksOf(home.Keys))
      && IsFirst(view, bestFirst) && IsLast(view, bestLast)
    }

    /** Rewriting order payloads behind the book's back is harmless as long as the links stay. */
    twostate lemma OnlyPayloadsChanged()
      requires old(Valid()) && unchanged(this, priceLevels, priceLevelTails, mask)
      requires forall p :: p in home ==> p.obj.next == old(p.obj.next)
      ensures Valid()
    {
      hide Heads, Tails, Masks, Housed, Chains, IsFirst, IsLast, NonEmptyLevels, Within;
      assert LinksOf(home.Keys) == old(LinksOf(home.Keys));
      assert priceLevels[..] == old(priceLevels[..]) && priceLevelTails[..] == old(priceLevelTails[..]);
      assert mask[..] == old(mask[..]);
    }

    constructor (maxTicks: nat)
      ensures Valid() && view == map[] && home == map[] && capacity == maxTicks
      ensures fresh(Footprint())
    {
      capacity := maxTicks;
      priceLevels := new OrderLink[maxTicks](_ => null);
      priceLevelTails := new OrderLink[maxTicks](_ => null);
      mask := new bv64[Words(maxTicks)](_ => 0);
      bestFirst, bestLast := -1, -1;
      view, home := map[], map[];
      new;
      forall t: nat
        ensures !Marked(mask[..], t)
      {
        if t / 64 < mask.Length {
          ZeroHasNoBit(t % 64);
        }
      }
    }

    function PeekOrder(tick: nat): (r: OrderLink)
      requires Valid() && tick < capacity
      reads this, priceLevels, priceLevelTails, mask, home.Keys`obj
      ensures r == if tick in view then view[tick][0] else null
    {
      LevelHead(tick);
      priceLevels[tick]
    }

    function FindFirst(): (r: int)
      requires Valid()
      reads this, priceLevels, priceLevelTails, mask, home.Keys`obj
      ensures IsFirst(view, r)
    {
      bestFirst
    }

    function FindLast(): (r: int)
      requires Valid()
      reads this, priceLevels, priceLevelTails, mask, home.Keys`obj
      ensures IsLast(view, r)
    {
      bestLast
    }

    method AddOrder(tick: nat, p: OrderLink)
      requires Valid() && tick < capacity
      requires p != null ==> p !in home
      modifies this, priceLevels, priceLevelTails, mask, home.Keys`obj, (if p == null then {} else {p})`obj
      ensures Valid()
      ensures p == null ==> view == old(view) && home == old(home)
      ensures p != null ==> view == Appended(old(view), tick, p) && home == old(home)[p := tick]
      ensures forall q :: q in home ==> q.obj.order == old(q.obj.order)
    {
      hide Heads, Tails, Masks, Housed, Chains, Appended, IsFirst, IsLast, LinksOf, NonEmptyLevels, Within;
      if p == null {
        return;
      }
      p.obj := p.obj.(next := null);
      LevelHead(tick);
      if priceLevels[tick] == null {
        OpenLevel(tick, p);
      } else {
        ExtendLevel(tick, p);
      }
    }

    /** The head array tells whether a level is occupied, and the tail array where it ends. */
    lemma LevelHead(tick: nat)
      requires tick < capacity == priceLevels.Length == priceLevelTails.Length
      requires NonEmptyLevels(view) && Heads(priceLevels[..], view) && Tails(priceLevelTails[..], view)
      ensures priceLevels[tick] == null <==> tick !in view
      ensures tick in view ==>
                && view[tick] != [] && priceLevels[tick] == view[tick][0]
                && priceLevelTails[tick] == view[tick][|view[tick]| - 1]
    {
      assert priceLevels[..][tick] == HeadOf(view, tick) && priceLevelTails[..][tick] == TailOf(view, tick);
    }

    /** The first order of a price level: head, tail, mask bit and cached ends. */
    method OpenLevel(tick: nat, p: OrderPtr)
      requires Valid() && tick < capacity && tick !in view
      requires p !in home && p.obj.next == null
      modifies this, priceLevels, priceLevelTails, mask
      ensures Valid() && view == Appended(old(view), tick, p) && home == old(home)[p := tick]
    {
      hide Heads, Tails, Masks, Housed, Chains, Appended, IsFirst, IsLast, LinksOf, NonEmptyLevels, Within, Marked;
      ghost var v, links := view, LinksOf(home.Keys);
      ghost var levels, tails, marks := priceLevels[..], priceLevelTails[..], mask[..];
      ViewAppend(v, capacity, tick, p);
      HousedAppend(v, home, tick, p);
      HeadsAppend(levels, v, tick, p);
      TailsAppend(tails, v, tick, p);
      EndsAppend(v, tick, p, bestFirst, bestLast);
      ChainsAppend(v, home, links, tick, p);
      LinksOfGrow(home.Keys, p);
      HomeGrow(home, p, tick);
      priceLevels[tick] := p;
      priceLevelTails[tick] := p;
      assert priceLevels[..] == levels[tick := p] && priceLevelTails[..] == tails[tick := p];
      Mark(mask, tick);
      MarksAppend(marks, mask[..], v, tick, p);
      if bestFirst < 0 || tick < bestFirst {
        bestFirst := tick;
      }
      if bestLast < 0 || tick > bestLast {
        bestLast := tick;
      }
      view, home := Appended(view, tick, p), home[p := tick];
      assert Chains(view, LinksOf(home.Keys)) by {
        assert LinksOf(home.Keys) == LinksAppended(links, v, tick, p);
      }
    }

    /** A later order of a price level goes behind the tail. */
    method ExtendLevel(tick: nat, p: OrderPtr)
      requires Valid() && tick < capacity && tick in view
      requires p !in home && p.obj.next == null
      modifies this, priceLevelTails, home.Keys`obj
      ensures Valid() && view == Appended(old(view), tick, p) && home == old(home)[p := tick]
      ensures forall q :: q in home ==> q.obj.order == old(q.obj.order)
    {
      hide Heads, Tails, Masks, Housed, Chains, Appended, IsFirst, IsLast, LinksOf, NonEmptyLevels, Within;
      ghost var v, links := view, LinksOf(home.Keys);
      ghost var levels, tails, members := priceLevels[..], priceLevelTails[..], home.Keys;
      TailIsMember(v, home, tick);
      MarksExtend(mask[..], v, tick, p);
      LevelHead(tick);
      ViewAppend(v, capacity, tick, p);
      HousedAppend(v, home, tick, p);
      HeadsAppend(levels, v, tick, p);
      TailsAppend(tails, v, tick, p);
      EndsExtend(v, tick, p, bestFirst, bestLast);
      ChainsAppend(v, home, links, tick, p);
      HomeGrow(home, p, tick);
      LinkBehind(priceLevelTails[tick], p, members);
      LinksOfGrow(members, p);
      priceLevelTails[tick] := p;
      assert priceLevelTails[..] == tails[tick := p];
      view, home := Appended(v, tick, p), home[p := tick];
    }

    method PopOrder(tick: nat) returns (head: OrderLink)
      requires Valid() && tick < capacity
      modifies this, priceLevels, priceLevelTails, mask, home.Keys`obj
      ensures Valid()
      ensures tick !in old(view) ==> head == null && view == old(view) && home == old(home)
      ensures tick in old(view) ==>
                && head == old(view)[tick][0] && head in old(home) && home == old(home) - {head}
                && view == Popped(old(view), tick)
      ensures forall q :: q in old(home) ==> q.obj.order == old(q.obj.order)
    {
      hide Heads, Tails, Masks, Housed, Chains, IsFirst, IsLast, LinksOf, NonEmptyLevels, Within, Popped;
      LevelHead(tick);
      head := priceLevels[tick];
      if head == null {
        return;
      }
      PopFacts(tick);
      var next := head.obj.next;
      ghost var v, links, levels, tails := view, LinksOf(home.Keys), priceLevels[..], priceLevelTails[..];
      priceLevels[tick] := next;
      assert priceLevels[..] == levels[tick := next];
      LinksOfShrink(home.Keys, head);
      HomeShrink(home, head);
      head.obj := head.obj.(next := null);
      view, home := Popped(v, tick), home - {head};
      if next == null {
        CloseLevel(tick, v);
      }
    }

    /** What the view says of a level about to lose its head. */
    lemma PopFacts(tick: nat)
      requires Valid() && tick < capacity && tick in view
      ensures view[tick] != []
      ensures var head := view[tick][0];
              && priceLevels[tick] == head && head in home && head.obj.next == After(view[tick], 0, null)
              && Housed(Popped(view, tick), home - {head})
              && Chains(Popped(view, tick), LinksOf(home.Keys) - {head})
              && NonEmptyLevels(Popped(view, tick)) && Within(Popped(view, tick), capacity)
              && Heads(priceLevels[..][tick := After(view[tick], 0, null)], Popped(view, tick))
      ensures |view[tick]| > 1 ==>
                && Tails(priceLevelTails[..], Popped(view, tick)) && Masks(mask[..], Popped(view, tick))
                && IsFirst(Popped(view, tick), bestFirst) && IsLast(Popped(view, tick), bestLast)
      ensures |view[tick]| == 1 ==> Tails(priceLevelTails[..][tick := null], Popped(view, tick))
    {
      hide Heads, Tails, Masks, Housed, Chains, IsFirst, IsLast, NonEmptyLevels, Within, Popped;
      LevelHead(tick);
      HeadLink(view, home, tick);
      ViewPop(view, capacity, tick);
      HousedPop(view, home, tick);
      ChainsPop(view, home, LinksOf(home.Keys), tick);
      HeadsPop(priceLevels[..], view, tick);
      TailsPop(priceLevelTails[..], view, tick);
      if |view[tick]| > 1 {
        MarksShrink(mask[..], view, tick);
        EndsShrink(view, tick, bestFirst, bestLast);
      }
    }

    /** The level lost its last order: tail, mask bit, and whichever cached end it was. */
    method CloseLevel(tick: nat, ghost v: View)
      requires Arrays() && tick < capacity && tick in v && |v[tick]| == 1 && view == Popped(v, tick)
      requires Heads(priceLevels[..], view) && Tails(priceLevelTails[..][tick := null], view) && Masks(mask[..], v)
      requires NonEmptyLevels(view) && Within(view, capacity)
      requires Housed(view, home) && Chains(view, LinksOf(home.Keys))
      requires IsFirst(v, bestFirst) && IsLast(v, bestLast)
      modifies this`bestFirst, this`bestLast, priceLevelTails, mask
      ensures Valid()
    {
      hide Heads, Tails, Masks, Housed, Chains, IsFirst, IsLast, LinksOf, NonEmptyLevels, Within, Popped, Marked;
      ghost var tails, marks := priceLevelTails[..], mask[..];
      priceLevelTails[tick] := null;
      assert priceLevelTails[..] == tails[tick := null];
      Unmark(mask, tick);
      MarksPop(marks, mask[..], v, tick);
      ghost var first, last := bestFirst, bestLast;
      if bestFirst == tick {
        bestFirst := FindNextFrom(mask, tick);
      }
      FirstAfterPop(v, tick, mask[..], first, bestFirst);
      if bestLast == tick {
        bestLast := FindPrevFrom(mask, tick);
      }
      LastAfterPop(v, tick, mask[..], last, bestLast);
    }
  }
}
