/**
 * The instruction dispatcher `Decefi::process` (program/src/decefi.rs).
 *
 * The program id is not used by the dispatcher and is left out. Account
 * deserialization is the abstract partial function `deserialize`. The
 * dispatcher never writes to an account, so it is modelled as a function of
 * the account buffers' contents that returns what it observably did: the
 * result, how many account buffers it read, and the order it handed to
 * `create_order`.
 */
module Decefi {
  import opened Results
  import opened Bytes
  import opened Instructions
  import opened Errors
  import opened Orders
  import opened Accounts

  type DecefiResult = Result<(), DecefiError>

  datatype Outcome = Outcome(result: DecefiResult, accountsRead: nat, created: Option<Order>)

  /**
   * The order NewOrder builds: Waiting, an all-zero hash and zero amounts.
   * The instruction's own hash is not used.
   */
  const NewWaitingOrder: Order := Order(Waiting, ZeroHash, 0, 0)

  /**
   * `Decefi::process`.
   *
   * Evident-intent choices where the Rust code does not compile:
   *  - `?` is applied to the `Option` from `unpack`; a decode failure is
   *    reported here as the category `WrongInput`;
   *  - the deserialization error has no conversion into `DecefiError`; it is
   *    reported here as the category `DeserializationFailed`;
   *  - `create_order` is called as a method but declared without `self`, and
   *    its `bool` is the value of its match arm; it is called on the order and
   *    its result is discarded.
   * An empty account list makes `next_account_info` fail with the host's
   * `NotEnoughAccountKeys`.
   */
  function Process(deserialize: seq<Byte> -> Option<Account>, accounts: seq<seq<Byte>>, input: seq<Byte>): (o: Outcome)
    ensures Unpack(input).None? ==> o.result == Err(ErrorCode(WrongInput)) && o.accountsRead == 0
    ensures o.result.Ok? <==>
      Unpack(input).Some? &&
      (Unpack(input).value.NewOrder? ==> |accounts| > 0 && deserialize(accounts[0]).Some?)
    ensures Unpack(input).Some? && Unpack(input).value.NewOrder? && |accounts| == 0 ==>
      o == Outcome(Err(Program(NotEnoughAccountKeys)), 0, None)
    ensures Unpack(input).Some? && Unpack(input).value.NewOrder? && |accounts| > 0 && deserialize(accounts[0]).None? ==>
      o == Outcome(Err(ErrorCode(DeserializationFailed)), 1, None)
    ensures o.accountsRead > 0 ==> Unpack(input).Some? && Unpack(input).value.NewOrder? && o.accountsRead == 1 <= |accounts|
    ensures o.created.Some? ==> o.result.Ok? && Unpack(input).value.NewOrder?
    ensures o.created.Some? ==>
      o.created.value.state == Waiting && o.created.value.paidBack == 0 && o.created.value.dcfiReserved == 0 &&
      forall k :: 0 <= k < 32 ==> o.created.value.orderHash[k] == 0
  {
    match Unpack(input)
    case None => Outcome(Err(ErrorCode(WrongInput)), 0, None)
    case Some(command) =>
      match command
      case NewOrder(_) =>
        (if |accounts| == 0 then
           Outcome(Err(Program(NotEnoughAccountKeys)), 0, None)
         else
           match deserialize(accounts[0])
           case None => Outcome(Err(ErrorCode(DeserializationFailed)), 1, None)
           case Some(account) =>
             var _ := CreateOrder(NewWaitingOrder);
             Outcome(Ok(()), 1, Some(NewWaitingOrder)))
      case CancelOrder(_) => Outcome(Ok(()), 0, None)
      case _ => Outcome(Ok(()), 0, None)
  }

  /** The dispatcher ignores the hash carried by NewOrder: any two hashes behave alike. */
  lemma NewOrderIgnoresHash(deserialize: seq<Byte> -> Option<Account>, accounts: seq<seq<Byte>>, h1: Hash256, h2: Hash256)
    ensures Process(deserialize, accounts, Pack(NewOrder(NewOrderInstruction(h1))))
         == Process(deserialize, accounts, Pack(NewOrder(NewOrderInstruction(h2))))
  {
    PackUnpack(NewOrder(NewOrderInstruction(h1)));
    PackUnpack(NewOrder(NewOrderInstruction(h2)));
  }

  /** CancelOrder, Deposit and Withdraw succeed without reading any account or creating an order. */
  lemma OtherInstructionsTouchNothing(deserialize: seq<Byte> -> Option<Account>, accounts: seq<seq<Byte>>, i: DecefiInstruction)
    requires !i.NewOrder?
    ensures Process(deserialize, accounts, Pack(i)) == Outcome(Ok(()), 0, None)
  {
    PackUnpack(i);
  }

  /** NewOrder on a readable first account succeeds having read only that account. */
  lemma NewOrderOnAccount(deserialize: seq<Byte> -> Option<Account>, accounts: seq<seq<Byte>>, n: NewOrderInstruction)
    requires |accounts| > 0 && deserialize(accounts[0]).Some?
    ensures Process(deserialize, accounts, Pack(NewOrder(n))) == Outcome(Ok(()), 1, Some(NewWaitingOrder))
  {
    PackUnpack(NewOrder(n));
  }

  /** A decode failure surfaces at the host as custom code 6. */
  lemma DecodeFailureHostCode(deserialize: seq<Byte> -> Option<Account>, accounts: seq<seq<Byte>>, input: seq<Byte>)
    requires Unpack(input).None?
    ensures Process(deserialize, accounts, input).result.Err?
    ensures ToProgramError(Process(deserialize, accounts, input).result.error) == Custom(6)
  {
  }
}
