/** The sparse strategy: an ordered map from price tick to a FIFO deque. */
module MapBook {
  import opened OrderBookView

  class MapOrderBook {
    var priceLevels: View
    ghost var home: map<OrderPtr, nat>

    ghost predicate Valid()
      reads this
    {
      NonEmptyLevels(priceLevels) && Housed(priceLevels, home)
    }

    constructor ()
      ensures Valid() && priceLevels == map[] && home == map[]
    {
      priceLevels, home := map[], map[];
    }

    method AddOrder(tick: nat, p: OrderLink)
      requires Valid()
      requires p != null ==> p !in home
      modifies this, (if p == null then {} else {p})`obj
      ensures Valid()
      ensures p == null ==> priceLevels == old(priceLevels) && home == old(home)
      ensures p != null ==>
                && priceLevels == Appended(old(priceLevels), tick, p) && home == old(home)[p := tick]
                && p.obj.order == old(p.obj.order)
    {
      if p == null {
        return;
      }
      HousedAppend(priceLevels, home, tick, p);
      p.obj := p.obj.(next := null);
      var level := if tick in priceLevels then priceLevels[tick] else [];
      var node: OrderPtr := p;
      priceLevels := priceLevels[tick := level + [node]];
      home := home[p := tick];
    }

    function PeekOrder(tick: nat): (r: OrderLink)
      requires Valid()
      reads this
      ensures r == if tick in priceLevels then priceLevels[tick][0] else null
    {
      if tick !in priceLevels || priceLevels[tick] == [] then null else priceLevels[tick][0]
    }

    method PopOrder(tick: nat) returns (head: OrderLink)
      requires Valid()
      modifies this, home.Keys`obj
      ensures Valid()
      ensures tick !in old(priceLevels) ==> head == null && priceLevels == old(priceLevels) && home == old(home)
      ensures tick in old(priceLevels) ==>
                && head == old(priceLevels)[tick][0] && head in old(home) && home == old(home) - {head}
                && priceLevels == Popped(old(priceLevels), tick)
      ensures forall q :: q in old(home) ==> q.obj.order == old(q.obj.order)
    {
      if tick !in priceLevels || priceLevels[tick] == [] {
        return null;
      }
      HousedPop(priceLevels, home, tick);
      head := priceLevels[tick][0];
      var rest := priceLevels[tick][1..];
      head.obj := head.obj.(next := null);
      priceLevels := if rest == [] then priceLevels - {tick} else priceLevels[tick := rest];
      home := home - {head};
    }

    function FindFirst(): (r: int)
      requires Valid()
      reads this
      ensures IsFirst(priceLevels, r)
    {
      if priceLevels == map[] then -1
      else
        LeastExists(priceLevels.Keys);
        var t :| t in priceLevels && forall u :: u in priceLevels ==> t <= u;
        t
    }

    function FindLast(): (r: int)
      requires Valid()
      reads this
      ensures IsLast(priceLevels, r)
    {
      if priceLevels == map[] then -1
      else
        GreatestExists(priceLevels.Keys);
        var t :| t in priceLevels && forall u :: u in priceLevels ==> u <= t;
        t
    }
  }

  lemma {:induction false} Least(s: set<nat>) returns (least: nat)
    requires s != {}
    ensures least in s && forall u :: u in s ==> least <= u
  {
    least :| least in s;
    var rest := s - {least};
    assert forall u :: u in s ==> u == least || u in rest;
    if rest != {} {
      var t := Least(rest);
      least := if least < t then least else t;
    }
  }

  lemma LeastExists(s: set<nat>)
    requires s != {}
    ensures exists t :: t in s && forall u :: u in s ==> t <= u
  {
    var t := Least(s);
  }

  lemma {:induction false} Greatest(s: set<nat>) returns (greatest: nat)
    requires s != {}
    ensures greatest in s && forall u :: u in s ==> u <= greatest
  {
    greatest :| greatest in s;
    var rest := s - {greatest};
    assert forall u :: u in s ==> u == greatest || u in rest;
    if rest != {} {
      var t := Greatest(rest);
      greatest := if greatest > t then greatest else t;
    }
  }

  lemma GreatestExists(s: set<nat>)
    requires s != {}
    ensures exists t :: t in s && forall u :: u in s ==> u <= t
  {
    var t := Greatest(s);
  }
}
