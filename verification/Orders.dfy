/** The records that both matching engines exchange with the rest of the system. */
module Orders {

  /** Prices are cents below MAX_PRICE; the CURRENT engine holds at most MAX_ORDERS resting orders. */
  const MAX_PRICE: nat := 100000
  const MAX_ORDERS: nat := 100000

  const TWO_32: nat := 0x1_0000_0000
  type uint32 = x: nat | x < 0x1_0000_0000

  /** static_cast<uint32_t>(-1): no node, or no price. */
  const NULL_IDX: uint32 := 0xFFFF_FFFF

  /** side is true for a buy order. */
  datatype Order = Order(
    id: nat, userId: int, timestamp: nat, price: uint32, quantity: uint32, companyId: nat, side: bool)

  datatype Trade = Trade(
    buyOrderId: nat, sellOrderId: nat, buyerId: int, sellerId: int,
    price: uint32, quantity: uint32, buyerLimitPrice: uint32, companyId: nat)

  datatype DepthLevel = DepthLevel(price: uint32, quantity: uint32, orders: uint32)

  datatype OrderSnapshot = OrderSnapshot(id: nat, userId: int, timestamp: nat, price: uint32, quantity: uint32)

  function Min(a: uint32, b: uint32): uint32 {
    if a < b then a else b
  }

  /** uint32_t addition and subtraction wrap around. */
  function Add32(a: uint32, b: uint32): uint32 {
    (a + b) % TWO_32
  }

  function Sub32(a: uint32, b: uint32): uint32 {
    (a + TWO_32 - b) % TWO_32
  }

  /** A total kept modulo 2^32 loses a part correctly. */
  lemma TotalReduced(total: nat, part: uint32)
    requires part <= total
    ensures Sub32(total % TWO_32, part) == (total - part) % TWO_32
  {
  }

  /** static_cast<int64_t>(price) * quantity, in cents. */
  function Value(price: uint32, quantity: uint32): nat {
    price * quantity
  }

  lemma ValueSplits(price: uint32, a: uint32, b: uint32)
    requires a + b < TWO_32
    ensures Value(price, a + b) == Value(price, a) + Value(price, b)
  {
  }

  lemma ValueImproved(limit: uint32, price: uint32, quantity: uint32)
    requires price <= limit
    ensures Value(limit - price, quantity) + Value(price, quantity) == Value(limit, quantity)
  {
  }

  lemma ValueNothing(price: uint32)
    ensures Value(price, 0) == 0
  {
  }

  function SumQuantity(os: seq<Order>): nat {
    if os == [] then 0 else os[0].quantity + SumQuantity(os[1..])
  }

  lemma {:induction false} SumAppend(xs: seq<Order>, ys: seq<Order>)
    ensures SumQuantity(xs + ys) == SumQuantity(xs) + SumQuantity(ys)
  {
    if xs == [] {
      assert xs + ys == ys;
    } else {
      assert (xs + ys)[1..] == xs[1..] + ys;
      SumAppend(xs[1..], ys);
    }
  }

  function Snapshot(o: Order): OrderSnapshot {
    OrderSnapshot(o.id, o.userId, o.timestamp, o.price, o.quantity)
  }

  // ----- order ids of the CURRENT engine: a sequence number above a pool index

  /** (seqNo << 32) | slot on 64 bits: a sequence number beyond 32 bits loses its upper part. */
  function PackId(seqNo: nat, slot: uint32): nat {
    (seqNo % TWO_32) * TWO_32 + slot
  }

  function SlotOf(id: nat): uint32 {
    id % TWO_32
  }

  function SeqOf(id: nat): nat {
    id / TWO_32
  }

  lemma PackRoundTrip(seqNo: nat, slot: uint32)
    ensures SeqOf(PackId(seqNo, slot)) == seqNo % TWO_32 && SlotOf(PackId(seqNo, slot)) == slot
    ensures PackId(seqNo, slot) == 0 <==> seqNo % TWO_32 == 0 && slot == 0
    ensures 0 < seqNo < TWO_32 ==> SeqOf(PackId(seqNo, slot)) == seqNo
  {
  }

  /** On 64-bit words: the shift drops the upper half, packing is that sum, the shift back gives the
      sequence number's lower half, and the mask the slot. */
  lemma PackedWord(seqNo: bv64, slot: bv64)
    requires slot < 0x1_0000_0000
    ensures var id := (seqNo << 32) | slot;
            && id == (seqNo & 0xFFFF_FFFF) * 0x1_0000_0000 + slot
            && id >> 32 == seqNo & 0xFFFF_FFFF && id & 0xFFFF_FFFF == slot
  {
  }
}
