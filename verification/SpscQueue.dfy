/** The lock-free single-producer single-consumer ring buffer. The sequential queue object comes
    first; then the protocol, with every load, slot access and publishing store its own step, and
    each side acting on a view of the other's index that may be stale. */
module SpscQueues {

  // ----- the index arithmetic

  /** Bitwise and of two indices (the & of size_t, whose top bits are all 0 here). */
  function And(a: nat, b: nat): nat {
    if a == 0 || b == 0 then 0
    else 2 * And(a / 2, b / 2) + (if a % 2 == 1 && b % 2 == 1 then 1 else 0)
  }

  /** static_assert((Size & (Size - 1)) == 0). */
  predicate PowerOfTwo(size: nat) {
    size > 0 && And(size, size - 1) == 0
  }

  lemma {:induction false} AndSelf(a: nat)
    ensures And(a, a) == a
  {
    if a > 0 { AndSelf(a / 2); }
  }

  lemma HalfRemainder(x: nat, m: nat)
    requires m > 0
    ensures x % (2 * m) == 2 * ((x / 2) % m) + x % 2
  {
    var q, r := (x / 2) / m, (x / 2) % m;
    assert x == q * (2 * m) + (2 * r + x % 2);
    Remainder(x, 2 * m, q, 2 * r + x % 2);
  }

  /** What the static_assert is for: then masking by Size - 1 is the remainder by Size. */
  lemma {:induction false} MaskIsRemainder(x: nat, size: nat)
    requires PowerOfTwo(size)
    ensures And(x, size - 1) == x % size
    decreases size
  {
    if size > 1 {
      var m := size / 2;
      AndSelf(m);
      assert size == 2 * m && (size - 1) / 2 == m - 1;
      MaskIsRemainder(x / 2, m);
      HalfRemainder(x, m);
    }
  }

  /** (i + 1) & (Size - 1). */
  function Following(i: nat, size: nat): nat
    requires size > 0
  {
    And(i + 1, size - 1)
  }

  /** The slot of the n-th item. */
  function Slot(n: nat, size: nat): nat
    requires size > 0
  {
    n % size
  }

  lemma MoreMultiples(a: nat, b: nat, size: nat)
    ensures a < b ==> (a + 1) * size <= b * size
  {
    if a < b {
      assert (b - a - 1) * size >= 0;
    }
  }

  lemma Remainder(n: nat, size: nat, q: nat, r: nat)
    requires r < size && n == q * size + r
    ensures n % size == r
  {
    MoreMultiples(n / size, q, size);
    MoreMultiples(q, n / size, size);
  }

  /** Masking steps an index through 0..Size-1 and back to 0. */
  lemma FollowingWraps(i: nat, size: nat)
    requires PowerOfTwo(size) && i < size
    ensures Following(i, size) == if i + 1 == size then 0 else i + 1
  {
    hide And;
    MaskIsRemainder(i + 1, size);
    if i + 1 == size { Remainder(i + 1, size, 1, 0); } else { Remainder(i + 1, size, 0, i + 1); }
  }

  /** Consecutive items are in consecutive slots. */
  lemma SlotFollows(n: nat, size: nat)
    requires PowerOfTwo(size)
    ensures Slot(n + 1, size) == Following(Slot(n, size), size)
  {
    hide Following; hide And;
    var q, r := n / size, n % size;
    FollowingWraps(r, size);
    if r + 1 == size {
      assert n + 1 == (q + 1) * size + 0;
      Remainder(n + 1, size, q + 1, 0);
    } else {
      Remainder(n + 1, size, q, r + 1);
    }
  }

  lemma SlotInside(n: nat, size: nat)
    requires size > 0
    ensures Slot(n, size) < size
  {
  }

  /** Items less than Size apart are in different slots. */
  lemma SlotsDiffer(m: nat, n: nat, size: nat)
    requires m < n < m + size
    ensures Slot(m, size) != Slot(n, size)
  {
    var q, r := m / size, m % size;
    if r + (n - m) < size {
      Remainder(n, size, q, r + (n - m));
    } else {
      assert n == (q + 1) * size + (r + (n - m) - size);
      Remainder(n, size, q + 1, r + (n - m) - size);
    }
  }

  lemma SlotComesRound(m: nat, size: nat)
    requires size > 0
    ensures Slot(m + size, size) == Slot(m, size)
  {
    var q, r := m / size, m % size;
    assert m + size == (q + 1) * size + r;
    Remainder(m + size, size, q + 1, r);
  }

  // ----- the queue object

  /** The slot of the k-th queued item when the oldest is at head. */
  function PlaceOf(head: nat, k: nat, size: nat): nat
    requires size > 0
  {
    Slot(head + k, size)
  }

  /** Counting from the next index is counting one further from this one. */
  lemma PlaceShifts(head: nat, k: nat, size: nat)
    requires PowerOfTwo(size) && head < size
    ensures Following(head, size) < size && PlaceOf(Following(head, size), k, size) == PlaceOf(head, k + 1, size)
  {
    FollowingWraps(head, size);
    if head + 1 == size { SlotComesRound(k, size); }
  }

  class SpscQueue<T(0)> {
    const buffer: array<T>
    var head: nat
    var tail: nat
    ghost var contents: seq<T>

    ghost predicate Valid()
      reads this, buffer
    {
      && PowerOfTwo(buffer.Length)
      && head < buffer.Length && tail < buffer.Length && |contents| < buffer.Length
      && tail == PlaceOf(head, |contents|, buffer.Length)
      && forall k: nat :: k < |contents| ==> buffer[PlaceOf(head, k, buffer.Length)] == contents[k]
    }

    constructor (size: nat)
      requires PowerOfTwo(size)
      ensures Valid() && contents == [] && buffer.Length == size
    {
      buffer := new T[size];
      head, tail, contents := 0, 0, [];
      Remainder(0, size, 0, 0);
    }

    // Refuses exactly when Size - 1 items are queued.
    method Push(item: T) returns (ok: bool)
      requires Valid()
      modifies this`tail, this`contents, buffer
      ensures Valid()
      ensures ok <==> |old(contents)| + 1 < buffer.Length
      ensures contents == if ok then old(contents) + [item] else old(contents)
    {
      hide Slot; hide And;
      var size := buffer.Length;
      var nextTail := Following(tail, size);
      SlotFollows(head + |contents|, size);
      HeadSlot(head, size);
      if nextTail == head {
        if |contents| + 1 < size { SlotsDiffer(head, head + |contents| + 1, size); }
        return false;
      }
      if |contents| + 1 == size { SlotComesRound(head, size); }
      FollowingWraps(tail, size);
      forall k: nat | k < |contents| ensures PlaceOf(head, k, size) != tail {
        SlotsDiffer(head + k, head + |contents|, size);
      }
      buffer[tail] := item;
      tail := nextTail;
      contents := contents + [item];
      ok := true;
    }

    // Refuses exactly when the queue is empty, leaving the caller's item alone; otherwise gives the oldest item.
    method Pop(was: T) returns (ok: bool, item: T)
      requires Valid()
      modifies this`head, this`contents
      ensures Valid()
      ensures ok <==> old(contents) != []
      ensures ok ==> old(contents) == [item] + contents
      ensures !ok ==> contents == old(contents) && item == was
    {
      hide Slot; hide PlaceOf; hide And; hide Following;
      var size := buffer.Length;
      HeadPlace(head, size);
      if head == tail {
        if contents != [] { PlacesDiffer(head, |contents|, size); }
        return false, was;
      }
      item := buffer[head];
      PlaceShifts(head, |contents| - 1, size);
      forall k: nat | k < |contents| - 1
        ensures PlaceOf(Following(head, size), k, size) == PlaceOf(head, k + 1, size)
      {
        PlaceShifts(head, k, size);
      }
      head := Following(head, size);
      contents := contents[1..];
      ok := true;
    }
  }

  lemma HeadSlot(head: nat, size: nat)
    requires head < size
    ensures Slot(head, size) == head
  {
    Remainder(head, size, 0, head);
  }

  lemma HeadPlace(head: nat, size: nat)
    requires head < size
    ensures PlaceOf(head, 0, size) == head
  {
    HeadSlot(head, size);
  }

  lemma PlacesDiffer(head: nat, k: nat, size: nat)
    requires 0 < k < size && head < size
    ensures PlaceOf(head, k, size) != head
  {
    HeadSlot(head, size);
    SlotsDiffer(head, head + k, size);
  }

  // ----- the protocol

  /** Where each thread stands inside push or pop. */
  datatype Producer<T> = PushIdle | PushClear(item: T) | PushWritten(item: T)
  datatype Consumer<T> = PopIdle | PopClear | PopTaken(item: T)

  /** headSeen is the number of pops that the producer last saw published, tailSeen the number of
      pushes that the consumer last saw. pushed and popped record the run. */
  datatype Ring<T> = Ring(
    buffer: seq<T>, head: nat, tail: nat,
    producer: Producer<T>, headSeen: nat, consumer: Consumer<T>, tailSeen: nat,
    pushed: seq<T>, popped: seq<T>)

  datatype Step<T> =
    | LoadHead(item: T, seen: nat)
    | WriteSlot
    | PublishTail
    | LoadTail(seen: nat)
    | TakeSlot
    | PublishHead

  /** A load of the other side's index returns any value published since the last one seen: it may
      be stale, but never goes back. */
  predicate Enabled<T>(r: Ring<T>, step: Step<T>) {
    match step
    case LoadHead(_, seen) => r.producer.PushIdle? && r.headSeen <= seen <= |r.popped|
    case WriteSlot => r.producer.PushClear? && r.tail < |r.buffer|
    case PublishTail => r.producer.PushWritten?
    case LoadTail(seen) => r.consumer.PopIdle? && r.tailSeen <= seen <= |r.pushed|
    case TakeSlot => r.consumer.PopClear? && r.head < |r.buffer|
    case PublishHead => r.consumer.PopTaken?
  }

  function Next<T>(r: Ring<T>, step: Step<T>): Ring<T>
    requires |r.buffer| > 0 && Enabled(r, step)
  {
    var size := |r.buffer|;
    match step
    case LoadHead(item, seen) =>
      // push returns false when the next tail is the head that was seen
      r.(headSeen := seen, producer := if Following(r.tail, size) == Slot(seen, size) then PushIdle
          else PushClear(item))
    case WriteSlot =>
      r.(buffer := r.buffer[r.tail := r.producer.item], producer := PushWritten(r.producer.item))
    case PublishTail =>
      r.(tail := Following(r.tail, size), pushed := r.pushed + [r.producer.item], producer := PushIdle)
    case LoadTail(seen) =>
      // pop returns false when the head is the tail that was seen
      r.(tailSeen := seen, consumer := if r.head == Slot(seen, size) then PopIdle else PopClear)
    case TakeSlot =>
      r.(consumer := PopTaken(r.buffer[r.head]))
    case PublishHead =>
      r.(head := Following(r.head, size), popped := r.popped + [r.consumer.item], consumer := PopIdle)
  }

  ghost predicate Consistent<T>(r: Ring<T>) {
    var size := |r.buffer|;
    && PowerOfTwo(size)
    && r.head == Slot(|r.popped|, size) && r.tail == Slot(|r.pushed|, size)
    && |r.popped| <= |r.pushed| && r.popped == r.pushed[..|r.popped|]
    // the producer's view is old but safe, and so is the consumer's
    && r.headSeen <= |r.popped| && |r.pushed| - r.headSeen < size
    && |r.popped| <= r.tailSeen <= |r.pushed|
    && (!r.producer.PushIdle? ==> |r.pushed| + 1 - r.headSeen < size)
    && (!r.consumer.PopIdle? ==> |r.popped| < r.tailSeen)
    // published items are in place until they are taken
    && (forall k: nat :: |r.popped| <= k < |r.pushed| ==> r.buffer[Slot(k, size)] == r.pushed[k])
    && (r.producer.PushWritten? ==> r.buffer[r.tail] == r.producer.item)
    && (r.consumer.PopTaken? ==> r.consumer.item == r.pushed[|r.popped|])
  }

  lemma LoadHeadConsistent<T>(r: Ring<T>, item: T, seen: nat)
    requires Consistent(r) && Enabled(r, LoadHead(item, seen))
    ensures Consistent(Next(r, LoadHead(item, seen)))
    ensures Next(r, LoadHead(item, seen)).producer.PushIdle? <==> |r.pushed| - seen == |r.buffer| - 1
  {
    var size := |r.buffer|;
    SlotFollows(|r.pushed|, size);
    if |r.pushed| + 1 - seen < size {
      SlotsDiffer(seen, |r.pushed| + 1, size);
    } else {
      SlotComesRound(seen, size);
    }
  }

  lemma LoadTailConsistent<T>(r: Ring<T>, seen: nat)
    requires Consistent(r) && Enabled(r, LoadTail(seen))
    ensures Consistent(Next(r, LoadTail(seen)))
    ensures Next(r, LoadTail(seen)).consumer.PopIdle? <==> seen == |r.popped|
  {
    if |r.popped| < seen { SlotsDiffer(|r.popped|, seen, |r.buffer|); }
  }

  lemma WriteConsistent<T>(r: Ring<T>)
    requires Consistent(r) && Enabled(r, WriteSlot)
    ensures Consistent(Next(r, WriteSlot))
  {
    var size := |r.buffer|;
    forall k: nat | |r.popped| <= k < |r.pushed| ensures Slot(k, size) != r.tail { SlotsDiffer(k, |r.pushed|, size); }
  }

  lemma StepConsistent<T>(r: Ring<T>, step: Step<T>)
    requires Consistent(r) && Enabled(r, step)
    ensures Consistent(Next(r, step))
  {
    hide Slot; hide And;
    match step
    case LoadHead(item, seen) => LoadHeadConsistent(r, item, seen);
    case WriteSlot => WriteConsistent(r);
    case PublishTail => SlotFollows(|r.pushed|, |r.buffer|);
    case LoadTail(seen) => LoadTailConsistent(r, seen);
    case TakeSlot =>
    case PublishHead => SlotFollows(|r.popped|, |r.buffer|);
  }

  predicate EnabledAll<T>(r: Ring<T>, steps: seq<Step<T>>)
    decreases |steps|
  {
    steps == [] || (|r.buffer| > 0 && Enabled(r, steps[0]) && EnabledAll(Next(r, steps[0]), steps[1..]))
  }

  function Run<T>(r: Ring<T>, steps: seq<Step<T>>): Ring<T>
    requires EnabledAll(r, steps)
    decreases |steps|
  {
    if steps == [] then r else Run(Next(r, steps[0]), steps[1..])
  }

  lemma {:induction false} RunConsistent<T>(r: Ring<T>, steps: seq<Step<T>>)
    requires Consistent(r) && EnabledAll(r, steps)
    ensures Consistent(Run(r, steps)) && |Run(r, steps).buffer| == |r.buffer|
    decreases |steps|
  {
    hide Next; hide Enabled; hide Consistent;
    if steps != [] {
      StepConsistent(r, steps[0]);
      StepKeepsSize(r, steps[0]);
      RunConsistent(Next(r, steps[0]), steps[1..]);
    }
  }

  lemma StepKeepsSize<T>(r: Ring<T>, step: Step<T>)
    requires |r.buffer| > 0 && Enabled(r, step)
    ensures |Next(r, step).buffer| == |r.buffer|
  {
    hide And; hide Slot;
  }

  // ----- what push was called with

  /** The items that the steps offer and that are not refused, read off the steps alone: an item is
      refused exactly if the queue, as long as the head loaded with it makes it, holds size - 1 items.
      published counts the publications so far. */
  function Offers<T>(steps: seq<Step<T>>, size: nat, published: nat): seq<T>
    decreases |steps|
  {
    if steps == [] then []
    else
      match steps[0]
      case LoadHead(item, seen) =>
        (if published - seen == size - 1 then [] else [item]) + Offers(steps[1..], size, published)
      case PublishTail => Offers(steps[1..], size, published + 1)
      case _ => Offers(steps[1..], size, published)
  }

  /** The item of a push under way. */
  function InHand<T>(producer: Producer<T>): seq<T> {
    if producer.PushIdle? then [] else [producer.item]
  }

  lemma StepDelivers<T>(r: Ring<T>, step: Step<T>)
    requires Consistent(r) && Enabled(r, step)
    ensures var r' := Next(r, step);
            && |r'.pushed| == |r.pushed| + (if step.PublishTail? then 1 else 0)
            && r'.pushed + InHand(r'.producer) == r.pushed + InHand(r.producer)
               + (if step.LoadHead? && |r.pushed| - step.seen != |r.buffer| - 1 then [step.item] else [])
  {
    hide And; hide Slot;
    if step.LoadHead? { LoadHeadConsistent(r, step.item, step.seen); }
  }

  /** Whatever is published or in hand after a run was there before or offered in it, in order. */
  lemma {:induction false} RunDelivers<T>(r: Ring<T>, steps: seq<Step<T>>)
    requires Consistent(r) && EnabledAll(r, steps)
    ensures var s := Run(r, steps);
            s.pushed + InHand(s.producer) == r.pushed + InHand(r.producer) + Offers(steps, |r.buffer|, |r.pushed|)
    decreases |steps|
  {
    hide Next; hide Enabled; hide Consistent; hide InHand;
    if steps == [] {
      assert r.pushed + InHand(r.producer) + [] == r.pushed + InHand(r.producer);
    } else {
      var r' := Next(r, steps[0]);
      StepConsistent(r, steps[0]);
      StepKeepsSize(r, steps[0]);
      StepDelivers(r, steps[0]);
      RunDelivers(r', steps[1..]);
    }
  }

  /** Both indices at 0, nothing seen or moved yet. */
  function EmptyRing<T>(buffer: seq<T>): Ring<T> {
    Ring(buffer, 0, 0, PushIdle, 0, PopIdle, 0, [], [])
  }

  lemma EmptyConsistent<T>(buffer: seq<T>)
    requires PowerOfTwo(|buffer|)
    ensures Consistent(EmptyRing(buffer))
  {
    Remainder(0, |buffer|, 0, 0);
  }

  /** From the empty ring, for every interleaving of the two threads' steps, whatever stale values they
      load: the items pushed, and then the one in hand, are those that push was called with and did not
      refuse; the items popped are, in order, a prefix of those pushed; at most Size - 1 are queued; both
      indices stay inside the buffer; and the producer never writes the slot of an item not yet popped,
      which includes the one the consumer may be reading. */
  lemma Linearizable<T>(buffer: seq<T>, steps: seq<Step<T>>)
    requires PowerOfTwo(|buffer|) && EnabledAll(EmptyRing(buffer), steps)
    ensures var s := Run(EmptyRing(buffer), steps);
            && s.pushed + InHand(s.producer) == Offers(steps, |buffer|, 0)
            && s.popped <= s.pushed <= Offers(steps, |buffer|, 0) && |s.pushed| - |s.popped| <= |buffer| - 1
            && |s.buffer| == |buffer| && s.head < |buffer| && s.tail < |buffer|
            && (s.producer.PushClear? ==> forall k: nat :: |s.popped| <= k < |s.pushed| ==> Slot(k, |buffer|) != s.tail)
            && (s.producer.PushClear? && s.consumer.PopClear? ==> s.tail != s.head)
  {
    hide Run; hide EnabledAll; hide Slot; hide And;
    EmptyConsistent(buffer);
    RunConsistent(EmptyRing(buffer), steps);
    RunDelivers(EmptyRing(buffer), steps);
    assert [] + [] + Offers(steps, |buffer|, 0) == Offers(steps, |buffer|, 0);
    var s := Run(EmptyRing(buffer), steps);
    SlotInside(|s.popped|, |buffer|);
    SlotInside(|s.pushed|, |buffer|);
    forall k: nat | |s.popped| <= k < |s.pushed| ensures Slot(k, |buffer|) != s.tail {
      SlotsDiffer(k, |s.pushed|, |buffer|);
    }
  }
}
