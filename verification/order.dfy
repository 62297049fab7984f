/** An order and its lifecycle state (program/src/order.rs). */
module Orders {
  import opened Bytes

  /** The four lifecycle states, in declaration order. No transition between them is implemented. */
  datatype OrderState = Waiting | Processing | Finished | Dispute

  /** Every state, in declaration order. */
  const AllStates: seq<OrderState> := [Waiting, Processing, Finished, Dispute]

  /** The 32-byte order hash. */
  type Hash32 = s: seq<Byte> | |s| == 32 witness seq(32, _ => 0)

  /** The Rust `Order` record; the amounts are u64 by their type. */
  datatype Order = Order(state: OrderState, orderHash: Hash32, paidBack: U64, dcfiReserved: U64)

  /** The all-zero 32-byte hash. */
  const ZeroHash: Hash32 := seq(32, _ => 0)

  /** The state's position in declaration order, as bincode numbers it. */
  function StateIndex(s: OrderState): (r: nat)
  {
    match s
    case Waiting => 0
    case Processing => 1
    case Finished => 2
    case Dispute => 3
  }

  /** There are exactly four states, each once, in declaration order. */
  lemma ExactlyFourStates(s: OrderState)
    ensures |AllStates| == 4
    ensures StateIndex(s) < 4 && AllStates[StateIndex(s)] == s
    ensures forall k, m :: 0 <= k < m < |AllStates| ==> AllStates[k] != AllStates[m]
  {
  }

  /** Derived `PartialEq`: two orders are equal exactly when every field is. */
  lemma OrderEqualityIsFieldwise(a: Order, b: Order)
    ensures a == b <==>
      a.state == b.state && a.orderHash == b.orderHash &&
      a.paidBack == b.paidBack && a.dcfiReserved == b.dcfiReserved
  {
  }
}
