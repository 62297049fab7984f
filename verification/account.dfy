/**
 * The account aggregate stored in a ledger account's data
 * (program/src/account.rs). The Rust `LinkedList<Order>` is a sequence
 * here, oldest order first.
 */
module Accounts {
  import opened Bytes
  import opened Orders

  datatype AccountOrders = AccountOrders(orders: seq<Order>)

  datatype Account = Account(orders: AccountOrders, dcfiReserved: U64)

  /** `AccountOrders::default`: a new, empty list. */
  function DefaultAccountOrders(): (r: AccountOrders)
    ensures |r.orders| == 0
  {
    AccountOrders([])
  }

  /** The derived `Account::default`: empty orders and a zero reserved counter. */
  function DefaultAccount(): (r: Account)
    ensures r.orders.orders == [] && r.dcfiReserved == 0
  {
    Account(DefaultAccountOrders(), 0)
  }

  /**
   * `Account::create_order` is a stub that accepts every order. It has no
   * receiver, so it has no account to change: an order handed to it is not
   * stored anywhere.
   */
  function CreateOrder(order: Order): (r: bool)
    ensures r
  {
    true
  }

  /** Derived `PartialEq`: same orders in the same list order, and same reserved counter. */
  lemma AccountEqualityIsFieldwise(a: Account, b: Account)
    ensures a == b <==>
      |a.orders.orders| == |b.orders.orders| &&
      (forall k :: 0 <= k < |a.orders.orders| ==> a.orders.orders[k] == b.orders.orders[k]) &&
      a.dcfiReserved == b.dcfiReserved
  {
    if |a.orders.orders| == |b.orders.orders| &&
      (forall k :: 0 <= k < |a.orders.orders| ==> a.orders.orders[k] == b.orders.orders[k]) {
      assert a.orders.orders == b.orders.orders;
    }
  }
}
