/** The LEGACY engine: an ordered map from price to a FIFO list per side, and a hash map from id
    to location. It is proved to be the same price-time exchange, with its own ids. */
module LegacyEngine {
  import opened Orders
  import opened PriceTime

  datatype Legacy = Legacy(book: Book, counter: nat)

  datatype LegacyAccepted = LegacyAccepted(engine: Legacy, trades: seq<Trade>, rejected: uint32, rest: Order)

  /** Ids are the values of a counter. */
  function LegacyAccept(l: Legacy, order: Order): LegacyAccepted {
    var p := Process(l.book, order.(id := l.counter + 1));
    LegacyAccepted(Legacy(p.book, l.counter + 1), p.trades, p.rejected, p.rest)
  }

  function LegacyCancel(l: Legacy, id: nat, userId: int): (Legacy, Option<Order>) {
    var c := Cancel(l.book, id, userId);
    (Legacy(c.book, l.counter), c.order)
  }

  // ----- one side as an ordered map

  datatype PriceLevel = PriceLevel(price: uint32, orders: seq<Order>, totalQuantity: uint32)

  /** The orders of the levels, in map order. */
  function Flatten(levels: seq<PriceLevel>): seq<Order> {
    if levels == [] then [] else levels[0].orders + Flatten(levels[1..])
  }

  ghost predicate GoodLevel(level: PriceLevel, side: bool) {
    && level.price < MAX_PRICE && level.totalQuantity == SumQuantity(level.orders) % TWO_32
    && forall k: nat :: k < |level.orders| ==> level.orders[k].price == level.price && level.orders[k].side == side
  }

  /** std::map<price, level> with the best price first. */
  ghost predicate Keyed(levels: seq<PriceLevel>, side: bool) {
    && (forall i: nat, j: nat :: i < j < |levels| ==> Rank(side, levels[i].price) < Rank(side, levels[j].price))
    && (forall i: nat :: i < |levels| ==> GoodLevel(levels[i], side))
  }

  ghost predicate NoneEmpty(levels: seq<PriceLevel>) {
    forall i: nat :: i < |levels| ==> levels[i].orders != []
  }

  lemma {:induction false} FlattenRanks(levels: seq<PriceLevel>, side: bool, r: int)
    requires forall i: nat :: i < |levels| ==> GoodLevel(levels[i], side) && r <= Rank(side, levels[i].price)
    ensures forall o :: o in Flatten(levels) ==> r <= Rank(side, o.price) && o.side == side
  {
    if levels != [] {
      FlattenRanks(levels[1..], side, r);
    }
  }

  /** The first position whose key is not better than price: std::map::lower_bound. */
  function LowerBound(levels: seq<PriceLevel>, side: bool, price: uint32): (i: nat)
    ensures i <= |levels|
    ensures forall j: nat :: j < i ==> Rank(side, levels[j].price) < Rank(side, price)
    ensures i < |levels| ==> Rank(side, price) <= Rank(side, levels[i].price)
  {
    if levels == [] || Rank(side, price) <= Rank(side, levels[0].price) then 0
    else 1 + LowerBound(levels[1..], side, price)
  }

  /** book[price], which makes an empty level if there is none: the position and the map. */
  function AtPrice(levels: seq<PriceLevel>, side: bool, price: uint32): (r: (nat, seq<PriceLevel>))
    ensures r.0 < |r.1|
  {
    var i := LowerBound(levels, side, price);
    if i < |levels| && levels[i].price == price then (i, levels)
    else (i, levels[..i] + [PriceLevel(price, [], 0)] + levels[i..])
  }

  /** The side after an order joins the tail of its level. */
  function Joined(levels: seq<PriceLevel>, order: Order): seq<PriceLevel> {
    var (i, levels') := AtPrice(levels, order.side, order.price);
    var level := levels'[i];
    levels'[i := level.(orders := level.orders + [order], totalQuantity := Add32(level.totalQuantity, order.quantity))]
  }

  lemma {:induction false} FlattenAppend(a: seq<PriceLevel>, b: seq<PriceLevel>)
    ensures Flatten(a + b) == Flatten(a) + Flatten(b)
  {
    if a == [] {
      assert a + b == b;
    } else {
      assert (a + b)[1..] == a[1..] + b;
      FlattenAppend(a[1..], b);
      Assoc(a[0].orders, Flatten(a[1..]), Flatten(b));
    }
  }

  lemma FlattenAt(levels: seq<PriceLevel>, i: nat)
    requires i < |levels|
    ensures Flatten(levels) == Flatten(levels[..i]) + levels[i].orders + Flatten(levels[i + 1..])
  {
    assert levels == levels[..i] + levels[i..];
    FlattenAppend(levels[..i], levels[i..]);
    assert levels[i..][1..] == levels[i + 1..];
    Assoc(Flatten(levels[..i]), levels[i].orders, Flatten(levels[i + 1..]));
  }

  lemma AddTotal(level: PriceLevel, order: Order)
    requires GoodLevel(level, order.side) && order.price == level.price
    ensures GoodLevel(level.(orders := level.orders + [order],
      totalQuantity := Add32(level.totalQuantity, order.quantity)), order.side)
  {
    SumAppend(level.orders, [order]);
    assert SumQuantity([order]) == order.quantity;
  }

  /** The levels before and behind a key bound the ranks of their orders. */
  lemma SplitRanks(levels: seq<PriceLevel>, side: bool, i: nat)
    requires Keyed(levels, side) && i < |levels|
    ensures forall o :: o in Flatten(levels[..i]) ==> Rank(side, o.price) < Rank(side, levels[i].price)
    ensures forall o :: o in Flatten(levels[i + 1..]) ==> Rank(side, levels[i].price) < Rank(side, o.price)
  {
    FlattenRanks(levels[i + 1..], side, Rank(side, levels[i].price) + 1);
    FlattenBelow(levels[..i], side, Rank(side, levels[i].price));
  }

  lemma {:induction false} FlattenBelow(levels: seq<PriceLevel>, side: bool, r: int)
    requires forall i: nat :: i < |levels| ==> GoodLevel(levels[i], side) && Rank(side, levels[i].price) < r
    ensures forall o :: o in Flatten(levels) ==> Rank(side, o.price) < r
  {
    if levels != [] {
      FlattenBelow(levels[1..], side, r);
    }
  }

  /** A new key at its lower bound keeps the order of the keys. */
  lemma KeyInserted(levels: seq<PriceLevel>, side: bool, i: nat, level: PriceLevel)
    requires Keyed(levels, side) && GoodLevel(level, side) && i <= |levels|
    requires forall j: nat :: j < i ==> Rank(side, levels[j].price) < Rank(side, level.price)
    requires forall j: nat :: i <= j < |levels| ==> Rank(side, level.price) < Rank(side, levels[j].price)
    ensures Keyed(levels[..i] + [level] + levels[i..], side)
  {
    hide GoodLevel;
  }

  lemma EmptyInserted(levels: seq<PriceLevel>, i: nat, price: uint32)
    requires i <= |levels|
    ensures Flatten(levels[..i] + [PriceLevel(price, [], 0)] + levels[i..]) == Flatten(levels)
  {
    var empty := PriceLevel(price, [], 0);
    assert levels == levels[..i] + levels[i..];
    FlattenAppend(levels[..i], levels[i..]);
    FlattenAppend(levels[..i], [empty] + levels[i..]);
    Assoc(levels[..i], [empty], levels[i..]);
    assert ([empty] + levels[i..])[1..] == levels[i..];
    assert [] + Flatten(levels[i..]) == Flatten(levels[i..]);
  }

  lemma AtPriceKeeps(levels: seq<PriceLevel>, side: bool, price: uint32)
    requires Keyed(levels, side) && price < MAX_PRICE
    ensures var (i, levels') := AtPrice(levels, side, price);
            Keyed(levels', side) && levels'[i].price == price && Flatten(levels') == Flatten(levels)
    ensures var (i, levels') := AtPrice(levels, side, price);
            NoneEmpty(levels) ==> forall j: nat :: j < |levels'| && j != i ==> levels'[j].orders != []
  {
    hide Flatten;
    var i := LowerBound(levels, side, price);
    if !(i < |levels| && levels[i].price == price) {
      KeyInserted(levels, side, i, PriceLevel(price, [], 0));
      EmptyInserted(levels, i, price);
    }
  }

  lemma LevelReplaced(levels: seq<PriceLevel>, side: bool, i: nat, level: PriceLevel)
    requires Keyed(levels, side) && i < |levels| && level.price == levels[i].price && GoodLevel(level, side)
    ensures Keyed(levels[i := level], side)
    ensures Flatten(levels[i := level]) == Flatten(levels[..i]) + level.orders + Flatten(levels[i + 1..])
  {
    hide GoodLevel;
    FlattenAt(levels[i := level], i);
    assert levels[i := level][..i] == levels[..i] && levels[i := level][i + 1..] == levels[i + 1..];
  }

  lemma JoinedIsInsert(levels: seq<PriceLevel>, order: Order)
    requires Keyed(levels, order.side) && NoneEmpty(levels) && order.price < MAX_PRICE
    ensures Keyed(Joined(levels, order), order.side) && NoneEmpty(Joined(levels, order))
    ensures Flatten(Joined(levels, order)) == Insert(order, Flatten(levels))
  {
    hide Insert; hide AtPrice; hide Flatten; hide GoodLevel;
    var side := order.side;
    AtPriceKeeps(levels, side, order.price);
    var (i, levels') := AtPrice(levels, side, order.price);
    var level := levels'[i];
    AddTotal(level, order);
    LevelReplaced(levels', side, i,
      level.(orders := level.orders + [order], totalQuantity := Add32(level.totalQuantity, order.quantity)));
    FlattenAt(levels', i);
    JoinsBetween(levels', order, i);
  }

  lemma JoinsBetween(levels: seq<PriceLevel>, order: Order, i: nat)
    requires Keyed(levels, order.side) && i < |levels| && levels[i].price == order.price
    ensures Insert(order, Flatten(levels[..i]) + levels[i].orders + Flatten(levels[i + 1..]))
         == Flatten(levels[..i]) + (levels[i].orders + [order]) + Flatten(levels[i + 1..])
  {
    hide Insert; hide Flatten;
    SplitRanks(levels, order.side, i);
    var xs, os, ys := Flatten(levels[..i]), levels[i].orders, Flatten(levels[i + 1..]);
    assert GoodLevel(levels[i], order.side);
    InsertBetween(order, xs + os, ys);
    Assoc(xs, os, [order]);
  }

  // ----- erasing one order

  /** The level without the order at position k, or no level at all if that was its last. */
  function Erased(levels: seq<PriceLevel>, i: nat, k: nat): seq<PriceLevel>
    requires i < |levels| && k < |levels[i].orders|
  {
    var level := levels[i];
    var orders := Without(level.orders, k);
    if orders == [] then Without(levels, i)
    else levels[i := level.(orders := orders, totalQuantity := Sub32(level.totalQuantity, level.orders[k].quantity))]
  }

  lemma ErasedKeeps(levels: seq<PriceLevel>, side: bool, i: nat, k: nat)
    requires Keyed(levels, side) && NoneEmpty(levels) && i < |levels| && k < |levels[i].orders|
    ensures Keyed(Erased(levels, i, k), side) && NoneEmpty(Erased(levels, i, k))
    ensures Flatten(Erased(levels, i, k)) == Flatten(levels[..i]) + Without(levels[i].orders, k)
      + Flatten(levels[i + 1..])
  {
    hide GoodLevel; hide Flatten;
    var level, orders := levels[i], Without(levels[i].orders, k);
    if orders == [] {
      KeyErased(levels, side, i);
      FlattenAppend(levels[..i], levels[i + 1..]);
      assert Flatten(levels[..i]) + [] == Flatten(levels[..i]);
    } else {
      TotalWithout(level, side, k);
      LevelReplaced(levels, side, i,
        level.(orders := orders, totalQuantity := Sub32(level.totalQuantity, level.orders[k].quantity)));
    }
  }

  lemma KeyErased(levels: seq<PriceLevel>, side: bool, i: nat)
    requires Keyed(levels, side) && NoneEmpty(levels) && i < |levels|
    ensures Keyed(Without(levels, i), side) && NoneEmpty(Without(levels, i))
  {
    hide GoodLevel;
  }

  lemma TotalWithout(level: PriceLevel, side: bool, k: nat)
    requires GoodLevel(level, side) && k < |level.orders|
    ensures GoodLevel(level.(orders := Without(level.orders, k),
                             totalQuantity := Sub32(level.totalQuantity, level.orders[k].quantity)), side)
  {
    SumWithout(level.orders, k);
  }

  // ----- the location index

  /** node_it is the position of the id in the level's list. */
  datatype Location = Location(side: bool, price: uint32)

  /** locations holds exactly the ids of a side's queue, each with its side and price. */
  ghost predicate Locates(locations: map<nat, Location>, queue: seq<Order>, side: bool) {
    && (forall k: nat :: k < |queue| ==>
          queue[k].id in locations && locations[queue[k].id] == Location(side, queue[k].price))
    && (forall id :: id in locations && locations[id].side == side ==> Find(queue, id) < |queue|)
    && (forall j: nat, k: nat :: j < k < |queue| ==> queue[j].id != queue[k].id)
  }

  lemma FindAt(queue: seq<Order>, k: nat)
    requires k < |queue|
    ensures Find(queue, queue[k].id) <= k
  {
  }

  lemma LocatesWithout(locations: map<nat, Location>, queue: seq<Order>, side: bool, k: nat)
    requires Locates(locations, queue, side) && k < |queue|
    ensures Locates(locations - {queue[k].id}, Without(queue, k), side)
  {
    var queue', locations' := Without(queue, k), locations - {queue[k].id};
    forall id | id in locations' && locations'[id].side == side ensures Find(queue', id) < |queue'| {
      var n := Find(queue, id);
      FindAt(queue', if n < k then n else n - 1);
    }
  }

  lemma LocatesElsewhere(locations: map<nat, Location>, queue: seq<Order>, side: bool, id: nat, location: Location)
    requires Locates(locations, queue, side)
    ensures id in locations && locations[id].side != side ==> Locates(locations - {id}, queue, side)
    ensures id !in locations && location.side != side ==> Locates(locations[id := location], queue, side)
  {
  }

  lemma LocatesInserted(locations: map<nat, Location>, xs: seq<Order>, ys: seq<Order>, o: Order)
    requires Locates(locations, xs + ys, o.side) && o.id !in locations
    ensures Locates(locations[o.id := Location(o.side, o.price)], xs + [o] + ys, o.side)
  {
    hide Find;
    var queue, queue', n := xs + ys, xs + [o] + ys, |xs|;
    var locations' := locations[o.id := Location(o.side, o.price)];
    forall k: nat | k < |queue'| && k != n ensures queue'[k] == queue[if k < n then k else k - 1]
        && queue'[k].id != o.id {
      assert queue'[k] == queue[if k < n then k else k - 1];
    }
    forall j: nat, k: nat | j < k < |queue'| ensures queue'[j].id != queue'[k].id {
      if j != n && k != n {
        assert queue[if j < n then j else j - 1].id != queue[if k < n then k else k - 1].id;
      }
    }
    forall id | id in locations' && locations'[id].side == o.side ensures Find(queue', id) < |queue'| {
      if id == o.id {
        FindAt(queue', n);
      } else {
        var m := Find(queue, id);
        FindAt(queue', if m < n then m else m + 1);
      }
    }
  }

  lemma LocatesFilled(locations: map<nat, Location>, queue: seq<Order>, side: bool, quantity: uint32)
    requires Locates(locations, queue, side) && queue != []
    ensures Locates(locations, [queue[0].(quantity := quantity)] + queue[1..], side)
  {
    var queue' := [queue[0].(quantity := quantity)] + queue[1..];
    forall id | id in locations && locations[id].side == side ensures Find(queue', id) < |queue'| {
      FindAt(queue', Find(queue, id));
    }
  }

  lemma {:induction false} FlattenMember(levels: seq<PriceLevel>, o: Order) returns (i: nat)
    requires o in Flatten(levels)
    ensures i < |levels| && o in levels[i].orders
  {
    if o in levels[0].orders {
      i := 0;
    } else {
      i := FlattenMember(levels[1..], o);
      i := i + 1;
    }
  }

  /** Following a location: the level of its price holds the order, and erasing it there removes
      it from the queue. */
  lemma FollowLocation(locations: map<nat, Location>, levels: seq<PriceLevel>, side: bool, id: nat)
    requires Keyed(levels, side) && NoneEmpty(levels) && Locates(locations, Flatten(levels), side)
    requires id in locations && locations[id].side == side
    ensures var i := LowerBound(levels, side, locations[id].price);
            var queue := Flatten(levels);
            var n := Find(queue, id);
            && i < |levels| && levels[i].price == locations[id].price
            && var k := Find(levels[i].orders, id);
            && k < |levels[i].orders| && n < |queue| && levels[i].orders[k] == queue[n]
            && Flatten(Erased(levels, i, k)) == Without(queue, n)
            && Keyed(Erased(levels, i, k), side) && NoneEmpty(Erased(levels, i, k))
  {
    hide Erased; hide LowerBound; hide Flatten; hide Find; hide GoodLevel; hide Locates;
    var i, k := LocatedAt(locations, levels, side, id);
    FlattenAt(levels, i);
    ErasedKeeps(levels, side, i, k);
  }

  lemma LocatedAt(locations: map<nat, Location>, levels: seq<PriceLevel>, side: bool, id: nat) returns (i: nat, k: nat)
    requires Keyed(levels, side) && Locates(locations, Flatten(levels), side)
    requires id in locations && locations[id].side == side
    ensures i == LowerBound(levels, side, locations[id].price) && i < |levels| && levels[i].price == locations[id].price
    ensures k == Find(levels[i].orders, id) && k < |levels[i].orders|
    ensures Find(Flatten(levels), id) < |Flatten(levels)|
      && levels[i].orders[k] == Flatten(levels)[Find(Flatten(levels), id)]
    ensures Without(Flatten(levels), Find(Flatten(levels), id))
         == Flatten(levels[..i]) + Without(levels[i].orders, k) + Flatten(levels[i + 1..])
  {
    hide Flatten; hide Find; hide GoodLevel;
    var o := Flatten(levels)[Find(Flatten(levels), id)];
    i, k := LevelOf(levels, side, o);
    k := Find(levels[i].orders, id);
    SplitRanks(levels, side, i);
    FlattenAt(levels, i);
    NotAhead(locations, levels, side, i, id);
    FindInside(Flatten(levels[..i]), levels[i].orders, Flatten(levels[i + 1..]), k, id);
  }

  /** The level that an order of the queue is on. */
  lemma LevelOf(levels: seq<PriceLevel>, side: bool, o: Order) returns (i: nat, k: nat)
    requires Keyed(levels, side) && o in Flatten(levels)
    ensures i < |levels| && levels[i].price == o.price && i == LowerBound(levels, side, o.price)
    ensures k == Find(levels[i].orders, o.id) && k < |levels[i].orders|
  {
    hide Flatten; hide Find;
    i := FlattenMember(levels, o);
    assert GoodLevel(levels[i], side);
    var m: nat :| m < |levels[i].orders| && levels[i].orders[m] == o;
    FindAt(levels[i].orders, m);
    k := Find(levels[i].orders, o.id);
  }

  /** An order ahead of its level would be at another price. */
  lemma NotAhead(locations: map<nat, Location>, levels: seq<PriceLevel>, side: bool, i: nat, id: nat)
    requires Keyed(levels, side) && i < |levels| && Locates(locations, Flatten(levels), side)
    requires id in locations && locations[id] == Location(side, levels[i].price)
    ensures forall x :: x in Flatten(levels[..i]) ==> x.id != id
  {
    hide Flatten; hide Find; hide GoodLevel;
    SplitRanks(levels, side, i);
    FlattenAt(levels, i);
    var xs, queue := Flatten(levels[..i]), Flatten(levels);
    forall x | x in xs ensures x.id != id {
      var j: nat :| j < |xs| && xs[j] == x;
      assert queue[j] == x;
    }
  }

  // ----- filling the first order

  /** The level after its first order is filled by this much: popped if that is all of it. */
  function Served(level: PriceLevel, fill: uint32): PriceLevel
    requires level.orders != [] && fill <= level.orders[0].quantity
  {
    level.(orders := Filled(level.orders, fill), totalQuantity := Sub32(level.totalQuantity, fill))
  }

  lemma ServedGood(level: PriceLevel, side: bool, fill: uint32)
    requires GoodLevel(level, side) && level.orders != [] && fill <= level.orders[0].quantity
    ensures GoodLevel(Served(level, fill), side)
  {
    hide Sub32;
    var os := level.orders;
    var os' := Filled(os, fill);
    if os[0].quantity != fill { assert os'[1..] == os[1..]; }
    assert SumQuantity(os') == SumQuantity(os) - fill;
    TotalReduced(SumQuantity(os), fill);
  }

  lemma ServedLevel(levels: seq<PriceLevel>, side: bool, fill: uint32)
    requires Keyed(levels, side) && levels != [] && levels[0].orders != [] && fill <= levels[0].orders[0].quantity
    ensures Keyed(levels[0 := Served(levels[0], fill)], side)
    ensures Flatten(levels) != [] && Flatten(levels)[0] == levels[0].orders[0]
    ensures Flatten(levels[0 := Served(levels[0], fill)]) == Filled(Flatten(levels), fill)
  {
    hide GoodLevel; hide Filled;
    ServedGood(levels[0], side, fill);
    FilledFront(levels[0].orders, Flatten(levels[1..]), fill);
    assert levels[0 := Served(levels[0], fill)][1..] == levels[1..];
  }

  lemma FrontOrder(levels: seq<PriceLevel>, side: bool)
    requires Keyed(levels, side) && levels != [] && levels[0].orders != []
    ensures Flatten(levels) != [] && Flatten(levels)[0] == levels[0].orders[0]
    ensures levels[0].orders[0].price == levels[0].price
  {
    assert GoodLevel(levels[0], side);
  }

  lemma OwnOrderStops(incoming: Order, queue: seq<Order>)
    requires queue != [] && incoming.quantity > 0 && Crosses(incoming, queue[0].price)
      && incoming.userId == queue[0].userId
    ensures Match(incoming, queue) == Matching([], incoming.(quantity := 0), incoming.quantity, queue, [])
  {
  }

  /** Forgetting the first order of one side leaves both sides located. */
  lemma LocationsPopped(locations: map<nat, Location>, queue: seq<Order>, other: seq<Order>, side: bool)
    requires Locates(locations, queue, side) && queue != [] && Locates(locations, other, !side)
    ensures Locates(locations - {queue[0].id}, queue[1..], side)
    ensures Locates(locations - {queue[0].id}, other, !side)
  {
    hide Find;
    LocatesWithout(locations, queue, side, 0);
    assert Without(queue, 0) == queue[1..];
    LocatesElsewhere(locations, other, !side, queue[0].id, Location(side, 0));
  }

  // ----- between two rounds of the outer loop

  lemma FrontKept(before: seq<PriceLevel>, after: seq<PriceLevel>)
    requires NoneEmpty(before) && before != [] && |after| == |before| && after[1..] == before[1..]
      && after[0].orders != []
    ensures NoneEmpty(after)
  {
    forall i: nat | i < |after| ensures after[i].orders != [] {
      if i > 0 { assert after[i] == after[1..][i - 1] == before[1..][i - 1] == before[i]; }
    }
  }

  /** The map without its emptied first level. */
  lemma EmptyDropped(before: seq<PriceLevel>, after: seq<PriceLevel>, side: bool)
    requires NoneEmpty(before) && before != [] && |after| == |before| && after[1..] == before[1..]
    requires after[0].orders == [] && Keyed(after, side)
    ensures NoneEmpty(after[1..]) && Keyed(after[1..], side) && Flatten(after[1..]) == Flatten(after)
  {
    hide GoodLevel;
    assert [] + Flatten(after[1..]) == Flatten(after[1..]);
    forall i: nat | i < |after[1..]| ensures after[1..][i].orders != [] { assert before[1..][i] == before[i + 1]; }
  }

  lemma OnwardEnd(t0: seq<Trade>, m0: Matching, t1: seq<Trade>, incoming: Order, rejected: uint32, queue: seq<Order>)
    requires Onward(t0, m0, t1, Matching([], incoming, rejected, queue, []))
    ensures t1 == t0 + m0.trades && incoming == m0.incoming && rejected == m0.rejected && queue == m0.resting
  {
  }

  lemma MapEnds(levels: seq<PriceLevel>, side: bool, incoming: Order)
    requires Keyed(levels, side) && NoneEmpty(levels)
    requires incoming.quantity == 0 || levels == [] || !Crosses(incoming, levels[0].price)
    ensures Match(incoming, Flatten(levels)) == Matching([], incoming, 0, Flatten(levels), [])
  {
    if levels != [] {
      FrontOrder(levels, side);
    }
  }

  lemma LocatesInsert(locations: map<nat, Location>, queue: seq<Order>, o: Order)
    requires Locates(locations, queue, o.side) && o.id !in locations
    ensures Locates(locations[o.id := Location(o.side, o.price)], Insert(o, queue), o.side)
  {
    var k := InsertPosition(o, queue);
    hide Insert; hide Find;
    assert queue == queue[..k] + queue[k..];
    LocatesInserted(locations, queue[..k], queue[k..], o);
  }

  lemma Unlocated(locations: map<nat, Location>, queue: seq<Order>, side: bool, id: nat)
    requires Locates(locations, queue, side)
    ensures (id in locations && locations[id].side == side) <==> Find(queue, id) < |queue|
  {
    hide Find;
    if Find(queue, id) < |queue| { assert queue[Find(queue, id)].id in locations; }
  }

  lemma CancelLocated(locations: map<nat, Location>, bids: seq<Order>, asks: seq<Order>, side: bool, id: nat)
    requires Locates(locations, bids, true) && Locates(locations, asks, false)
    requires id in locations && locations[id].side == side
    ensures var queue := if side then bids else asks;
            var other := if side then asks else bids;
            var n := Find(queue, id);
            && n < |queue|
            && Locates(locations - {id}, Without(queue, n), side) && Locates(locations - {id}, other, !side)
  {
    var queue := if side then bids else asks;
    hide Find;
    LocatesWithout(locations, queue, side, Find(queue, id));
    LocatesElsewhere(locations, if side then asks else bids, !side, id, Location(side, 0));
  }

  // ----- the engine

  class OrderBookLegacy {
    var bids: seq<PriceLevel>
    var asks: seq<PriceLevel>
    var locations: map<nat, Location>
    var counter: nat
    /** What the trade listener has received. */
    var trades: seq<Trade>

    ghost predicate Valid()
      reads this
    {
      && Keyed(bids, true) && NoneEmpty(bids) && Locates(locations, Flatten(bids), true)
      && Keyed(asks, false) && NoneEmpty(asks) && Locates(locations, Flatten(asks), false)
      && forall id :: id in locations ==> id <= counter
    }

    ghost function State(): Legacy
      reads this
    {
      Legacy(Book(Flatten(bids), Flatten(asks)), counter)
    }

    constructor ()
      ensures Valid() && State() == Legacy(EMPTY_BOOK, 0) && trades == []
    {
      bids, asks, locations, counter, trades := [], [], map[], 0, [];
    }

    predicate CanProcessOrder(order: Order) {
      order.price < MAX_PRICE
    }

    // The inner loop of match_buy and match_sell on the first level of the opposing map.
    method ServeFront(side: bool, book0: seq<PriceLevel>, incoming0: Order, ghost other: seq<Order>)
      returns (book: seq<PriceLevel>, incoming: Order, stopped: bool, rejected: uint32)
      requires Keyed(book0, side) && NoneEmpty(book0) && book0 != []
      requires Locates(locations, Flatten(book0), side) && Locates(locations, other, !side)
      requires incoming0.quantity > 0 && Crosses(incoming0, book0[0].price)
      modifies this`locations, this`trades
      ensures Keyed(book, side) && Locates(locations, Flatten(book), side)
      ensures |book| == |book0| && book[1..] == book0[1..]
      ensures Locates(locations, other, !side)
      ensures locations.Keys <= old(locations).Keys
      ensures stopped ==> book[0].orders != []
      ensures !stopped ==>
                && incoming == incoming0.(quantity := incoming.quantity)
                && (incoming.quantity == 0 || book[0].orders == [])
                && |Flatten(book)| <= |Flatten(book0)| && (|Flatten(book)| < |Flatten(book0)| || incoming.quantity == 0)
      ensures Onward(old(trades), Match(incoming0, Flatten(book0)), trades,
                     if stopped then Matching([], incoming, rejected, Flatten(book), [])
                         else Match(incoming, Flatten(book)))
    {
      hide Match; hide Locates; hide GoodLevel;
      book, incoming := book0, incoming0;
      ghost var m := Match(incoming0, Flatten(book0));
      while incoming.quantity > 0 && book[0].orders != []
        invariant Keyed(book, side) && Locates(locations, Flatten(book), side)
        invariant |book| == |book0| && book[1..] == book0[1..] && book[0].price == book0[0].price
        invariant Locates(locations, other, !side)
        invariant locations.Keys <= old(locations).Keys
        invariant incoming == incoming0.(quantity := incoming.quantity)
        invariant |Flatten(book)| <= |Flatten(book0)|
        invariant incoming.quantity == 0 || |Flatten(book)| < |Flatten(book0)| || book == book0
        invariant Onward(old(trades), m, trades, Match(incoming, Flatten(book)))
        decreases |book[0].orders|, incoming.quantity
      {
        var level := book[0];
        var resting := level.orders[0];
        ghost var queue := Flatten(book);
        FrontOrder(book, side);
        if incoming.userId == resting.userId {
          rejected := incoming.quantity;
          incoming := incoming.(quantity := 0);
          OwnOrderStops(incoming.(quantity := rejected), queue);
          return book, incoming, true, rejected;
        }
        var fill := Min(incoming.quantity, resting.quantity);
        var trade := MakeTrade(incoming, resting, fill);
        MatchStep(incoming, queue);
        OnwardStep(trades, Match(incoming, queue), [trade], if resting.quantity == fill then [resting.id] else [],
                   Match(incoming.(quantity := incoming.quantity - fill), Filled(queue, fill)));
        incoming := incoming.(quantity := incoming.quantity - fill);
        trades := trades + [trade];
        ServedLevel(book, side, fill);
        if resting.quantity == fill {
          LocationsPopped(locations, queue, other, side);
          locations := locations - {resting.id};
        } else {
          LocatesFilled(locations, queue, side, resting.quantity - fill);
        }
        book := book[0 := Served(level, fill)];
      }
      stopped, rejected := false, 0;
    }

    method MatchBuy(incoming0: Order) returns (incoming: Order, rejected: uint32)
      requires Valid() && incoming0.side
      modifies this`asks, this`locations, this`trades
      ensures Valid() && locations.Keys <= old(locations).Keys
      ensures var m := Match(incoming0, old(Flatten(asks)));
              && incoming == m.incoming && rejected == m.rejected && Flatten(asks) == m.resting
              && trades == old(trades) + m.trades
    {
      hide Match; hide Locates; hide GoodLevel;
      incoming := incoming0;
      ghost var m := Match(incoming0, Flatten(asks));
      while incoming.quantity > 0 && asks != [] && asks[0].price <= incoming.price
        invariant Valid() && locations.Keys <= old(locations).Keys
        invariant incoming == incoming0.(quantity := incoming.quantity)
        invariant Onward(old(trades), m, trades, Match(incoming, Flatten(asks)))
        decreases |Flatten(asks)|, incoming.quantity
      {
        ghost var before := asks;
        var stopped: bool;
        asks, incoming, stopped, rejected := ServeFront(false, asks, incoming, Flatten(bids));
        if stopped {
          FrontKept(before, asks);
          OnwardEnd(old(trades), m, trades, incoming, rejected, Flatten(asks));
          return;
        }
        if asks[0].orders == [] {
          EmptyDropped(before, asks, false);
          asks := asks[1..];
        } else {
          FrontKept(before, asks);
        }
      }
      MapEnds(asks, false, incoming);
      OnwardEnd(old(trades), m, trades, incoming, 0, Flatten(asks));
      rejected := 0;
    }

    method MatchSell(incoming0: Order) returns (incoming: Order, rejected: uint32)
      requires Valid() && !incoming0.side
      modifies this`bids, this`locations, this`trades
      ensures Valid() && locations.Keys <= old(locations).Keys
      ensures var m := Match(incoming0, old(Flatten(bids)));
              && incoming == m.incoming && rejected == m.rejected && Flatten(bids) == m.resting
              && trades == old(trades) + m.trades
    {
      hide Match; hide Locates; hide GoodLevel;
      incoming := incoming0;
      ghost var m := Match(incoming0, Flatten(bids));
      while incoming.quantity > 0 && bids != [] && bids[0].price >= incoming.price
        invariant Valid() && locations.Keys <= old(locations).Keys
        invariant incoming == incoming0.(quantity := incoming.quantity)
        invariant Onward(old(trades), m, trades, Match(incoming, Flatten(bids)))
        decreases |Flatten(bids)|, incoming.quantity
      {
        ghost var before := bids;
        var stopped: bool;
        bids, incoming, stopped, rejected := ServeFront(true, bids, incoming, Flatten(asks));
        if stopped {
          FrontKept(before, bids);
          OnwardEnd(old(trades), m, trades, incoming, rejected, Flatten(bids));
          return;
        }
        if bids[0].orders == [] {
          EmptyDropped(before, bids, true);
          bids := bids[1..];
        } else {
          FrontKept(before, bids);
        }
      }
      MapEnds(bids, true, incoming);
      OnwardEnd(old(trades), m, trades, incoming, 0, Flatten(bids));
      rejected := 0;
    }

    // add_order: what is left of an order joins its level, and is located there.
    method AddOrder(order: Order)
      requires Valid() && order.price < MAX_PRICE && order.id == counter && order.id !in locations
      modifies this`bids, this`asks, this`locations
      ensures Valid()
      ensures Flatten(bids) == if order.side then Insert(order, old(Flatten(bids))) else old(Flatten(bids))
      ensures Flatten(asks) == if order.side then old(Flatten(asks)) else Insert(order, old(Flatten(asks)))
    {
      hide Locates; hide GoodLevel; hide Joined; hide Insert; hide Flatten;
      var location := Location(order.side, order.price);
      LocatesInsert(locations, if order.side then Flatten(bids) else Flatten(asks), order);
      LocatesElsewhere(locations, if order.side then Flatten(asks) else Flatten(bids), !order.side, order.id, location);
      if order.side {
        JoinedIsInsert(bids, order);
        bids := Joined(bids, order);
      } else {
        JoinedIsInsert(asks, order);
        asks := Joined(asks, order);
      }
      locations := locations[order.id := location];
    }

    method ProcessBuyOrder(order0: Order) returns (order: Order, rejected: uint32)
      requires Valid() && CanProcessOrder(order0) && order0.side
      modifies this
      ensures Valid()
      ensures var a := LegacyAccept(old(State()), order0);
              State() == a.engine && trades == old(trades) + a.trades && rejected == a.rejected && order == a.rest
    {
      hide Locates; hide GoodLevel; hide Insert; hide Flatten; hide Match; hide Keyed; hide NoneEmpty;
      counter := counter + 1;
      order := order0.(id := counter);
      MatchIncoming(order, Flatten(asks));
      order, rejected := MatchBuy(order);
      if order.quantity > 0 {
        AddOrder(order);
      }
    }

    method ProcessSellOrder(order0: Order) returns (order: Order, rejected: uint32)
      requires Valid() && CanProcessOrder(order0) && !order0.side
      modifies this
      ensures Valid()
      ensures var a := LegacyAccept(old(State()), order0);
              State() == a.engine && trades == old(trades) + a.trades && rejected == a.rejected && order == a.rest
    {
      hide Locates; hide GoodLevel; hide Insert; hide Flatten; hide Match; hide Keyed; hide NoneEmpty;
      counter := counter + 1;
      order := order0.(id := counter);
      MatchIncoming(order, Flatten(bids));
      order, rejected := MatchSell(order);
      if order.quantity > 0 {
        AddOrder(order);
      }
    }

    method CancelOrder(orderId: nat, userId: int) returns (cancelled: Option<Order>)
      requires Valid()
      modifies this`bids, this`asks, this`locations
      ensures Valid() && (State(), cancelled) == LegacyCancel(old(State()), orderId, userId)
    {
      hide Locates; hide GoodLevel; hide Flatten; hide Keyed; hide NoneEmpty; hide Find; hide Erased; hide Without;
      Unlocated(locations, Flatten(bids), true, orderId);
      Unlocated(locations, Flatten(asks), false, orderId);
      if orderId !in locations {
        return None;
      }
      var loc := locations[orderId];
      var book := if loc.side then bids else asks;
      FollowLocation(locations, book, loc.side, orderId);
      var i := LowerBound(book, loc.side, loc.price);
      var k := Find(book[i].orders, orderId);
      var order := book[i].orders[k];
      if order.userId != userId {
        return None;
      }
      CancelLocated(locations, Flatten(bids), Flatten(asks), loc.side, orderId);
      book := Erased(book, i, k);
      if loc.side {
        bids := book;
      } else {
        asks := book;
      }
      locations := locations - {orderId};
      cancelled := Some(order);
    }

    // ----- queries

    method BestBid() returns (price: uint32)
      requires Valid()
      ensures price == BestPrice(State().book.bids)
    {
      if bids != [] { FrontOrder(bids, true); }
      price := if bids == [] then NULL_IDX else bids[0].price;
    }

    method BestAsk() returns (price: uint32)
      requires Valid()
      ensures price == BestPrice(State().book.asks)
    {
      if asks != [] { FrontOrder(asks, false); }
      price := if asks == [] then NULL_IDX else asks[0].price;
    }

    method BidDepth(limit: nat) returns (depth: seq<DepthLevel>)
      requires Valid()
      ensures depth == DepthOf(State().book.bids, limit)
    {
      depth := DepthOfMap(bids, true, limit);
    }

    method AskDepth(limit: nat) returns (depth: seq<DepthLevel>)
      requires Valid()
      ensures depth == DepthOf(State().book.asks, limit)
    {
      depth := DepthOfMap(asks, false, limit);
    }

    method BidOrders(limit: nat) returns (snaps: seq<OrderSnapshot>)
      requires Valid()
      ensures snaps == OrdersOf(State().book.bids, limit) && Shows(snaps, State().book.bids, limit)
    {
      snaps := OrdersOfMap(bids, limit);
      OrdersShown(State().book.bids, limit);
    }

    method AskOrders(limit: nat) returns (snaps: seq<OrderSnapshot>)
      requires Valid()
      ensures snaps == OrdersOf(State().book.asks, limit) && Shows(snaps, State().book.asks, limit)
    {
      snaps := OrdersOfMap(asks, limit);
      OrdersShown(State().book.asks, limit);
    }
  }

  lemma FlattenFrom(book: seq<PriceLevel>, i: nat)
    requires i < |book|
    ensures Flatten(book[i..]) == book[i].orders + Flatten(book[i + 1..])
  {
    assert book[i..][1..] == book[i + 1..];
  }

  lemma DepthFromLevel(book: seq<PriceLevel>, side: bool, i: nat, limit: nat)
    requires Keyed(book, side) && NoneEmpty(book) && i < |book| && limit > 0
    ensures DepthOf(Flatten(book[i..]), limit)
         == [DepthLevel(book[i].price, book[i].totalQuantity, |book[i].orders| % TWO_32)]
             + DepthOf(Flatten(book[i + 1..]), limit - 1)
  {
    hide DepthOf; hide Flatten;
    FlattenFrom(book, i);
    SplitRanks(book, side, i);
    var os, rest := book[i].orders, Flatten(book[i + 1..]);
    assert GoodLevel(book[i], side);
    if rest != [] { assert rest[0] in rest; }
    DepthFront(os, rest, book[i].price, limit);
  }

  // depth_of, over the map in order.
  method DepthOfMap(book: seq<PriceLevel>, side: bool, limit: nat) returns (depth: seq<DepthLevel>)
    requires Keyed(book, side) && NoneEmpty(book)
    ensures depth == DepthOf(Flatten(book), limit)
  {
    hide DepthOf; hide Keyed; hide NoneEmpty;
    depth := [];
    assert book[0..] == book;
    var i := 0;
    while i < |book| && |depth| < limit
      invariant i <= |book| && |depth| <= limit
      invariant depth + DepthOf(Flatten(book[i..]), limit - |depth|) == DepthOf(Flatten(book), limit)
    {
      DepthFromLevel(book, side, i, limit - |depth|);
      var level := DepthLevel(book[i].price, book[i].totalQuantity, |book[i].orders| % TWO_32);
      Assoc(depth, [level], DepthOf(Flatten(book[i + 1..]), limit - |depth| - 1));
      depth := depth + [level];
      i := i + 1;
    }
    DepthBound(Flatten(book[i..]), limit - |depth|);
    assert depth + [] == depth;
  }

  // orders_of, over the map in order and each level's list.
  method OrdersOfMap(book: seq<PriceLevel>, limit: nat) returns (snaps: seq<OrderSnapshot>)
    ensures snaps == OrdersOf(Flatten(book), limit)
  {
    hide OrdersOf; hide Flatten;
    snaps := [];
    assert book[0..] == book;
    var i := 0;
    while i < |book|
      invariant i <= |book| && |snaps| <= limit
      invariant snaps + OrdersOf(Flatten(book[i..]), limit - |snaps|) == OrdersOf(Flatten(book), limit)
    {
      FlattenFrom(book, i);
      var orders := book[i].orders;
      ghost var rest := Flatten(book[i + 1..]);
      assert orders[0..] == orders;
      var k := 0;
      while k < |orders|
        invariant k <= |orders| && |snaps| <= limit
        invariant snaps + OrdersOf(orders[k..] + rest, limit - |snaps|) == OrdersOf(Flatten(book), limit)
      {
        if |snaps| >= limit {
          OrdersNone(orders[k..] + rest);
          return snaps;
        }
        OrdersStep(orders, k, rest, limit - |snaps|);
        Assoc(snaps, [Snapshot(orders[k])], OrdersOf(orders[k + 1..] + rest, limit - |snaps| - 1));
        snaps := snaps + [Snapshot(orders[k])];
        k := k + 1;
      }
      assert orders[k..] + rest == rest;
      i := i + 1;
    }
    FlattenEmpty(book);
    OrdersEmpty(limit - |snaps|);
  }

  lemma FlattenEmpty(book: seq<PriceLevel>)
    ensures Flatten(book[|book|..]) == []
  {
  }
}
