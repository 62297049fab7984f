# Decefi order program — Dafny model

A model of the on-chain order program `decefi`: its instruction wire format
(decoder and encoder), the folding of its errors into the host's numeric
error code, the instruction dispatcher `Decefi::process`, the order and
account records it builds, and the snapshot / restore-on-error wrapper
`process_instruction` used around the dispatcher.

Modules, one per source file:

- `Results` (`results.dfy`): Rust's `Option` and `Result`.
- `Bytes` (`bytes.dfy`): bytes and u16/u32/u64/u128 as bounded integers, and
  their little-endian encoding (`from_le_bytes` and bincode's integers).
- `Instructions` (`instructions.dfy`): `DecefiInstruction`, `unpack`, `pack`.
- `Errors` (`error.dfy`): `SourceFileId`, `AssertionError`, `DecefiErrorCode`,
  `DecefiError` and their conversions to the host's `ProgramError`.
- `Orders` (`order.dfy`) and `Accounts` (`account.dfy`): `Order`,
  `OrderState`, `AccountOrders` (the linked list as a sequence) and `Account`.
- `Decefi` (`decefi.dfy`): the dispatcher, as a function that returns its
  result, the number of account buffers it read and the order it built.
- `Rollback` (`rollback.dfy`): the wrapper, over a memory of buffers and a list
  of handles into it, so that two account entries can name the same buffer.
  The processor is a function parameter.

Several places in the Rust do not compile. The model follows the evident
intent, and each choice is noted in a comment beside the member:

- the Deposit and Withdraw arms of `unpack` return the bare `Option<NonZeroU64>`.
  Here the amount is wrapped in the variant, and an amount of 0 decodes to nothing;
- the NewOrder arm names an undefined `hash`. Here the hash is the 256 payload bytes;
- `CancelOrderInstruction.owner` is declared `[u64; 4]` but decoded as one u64.
  Here it is one u64, and `pack` writes 8 bytes for it;
- `?` is applied to the `Option` from `unpack` in `process`. Here a decode
  failure is the category `WrongInput`;
- the error from `Account::deserialize` has no conversion into `DecefiError`.
  Here it is the category `DeserializationFailed`;
- `create_order` is called as a method but declared without `self`, and its
  `bool` is the value of a match arm. Here it is called on the order and its
  result is discarded;
- `pack` calls `bincode::serialize`, but `Serialize` is derived only in test
  builds, and serde has no `Serialize` for `[u8; 256]`, so NewOrder has no
  bincode layout. Here `pack` writes the version byte, the u32 variant index
  and the fields in order with integers little-endian, and the 256 hash bytes
  raw with no length prefix: the layout the decoder reads;
- the wrapper's return type `DexResult` is undefined. Here it is the dispatcher's result type.

What the code does, and therefore what the model does:

- `create_order` is a stub that returns true; it stores nothing;
- CancelOrder, Deposit and Withdraw return success without reading or changing any account;
- the four order states exist, and no code moves an order between them;
- NewOrder reads the first account and never writes it back;
- the assertion line is a u16, so bits 16..23 of a packed assertion code are always clear;
- the wrapper snapshots each account entry in list order, all before the
  processor runs, so two entries naming one buffer hold the same snapshot and
  restoring both leaves that buffer at its original bytes (`Rollback.AliasedRollback`).

## Model

| member | source | states |
|---|---|---|
| Bytes.ToLE | program/src/instructions.rs:76-78 | the little-endian bytes of an integer have the requested width and decode back to that integer |
| Bytes.FromLE | program/src/instructions.rs:88 | the little-endian value of n bytes is below 256^n |
| Bytes.U32FromLE | program/src/instructions.rs:88 | `u32::from_le_bytes`: the little-endian value of 4 bytes, always a u32 |
| Bytes.U64FromLE | program/src/instructions.rs:92 | `u64::from_le_bytes`: the little-endian value of 8 bytes, always a u64 |
| Bytes.U128FromLE | program/src/instructions.rs:107 | `u128::from_le_bytes`: the little-endian value of 16 bytes, always a u128 |
| Bytes.ToLEFromLE | program/src/instructions.rs:88 | re-encoding a decoded little-endian integer at its width gives the same bytes |
| Bytes.FromLEInjective | program/src/instructions.rs:88 | equal-width byte strings with the same little-endian value are equal |
| Instructions.Pack | program/src/instructions.rs:76-78 | the encoding is version byte 0, the u32-LE variant index, then the variant's payload; its length is 5 plus the payload length and at most 512 |
| Instructions.NonZero | program/src/instructions.rs:92 | `NonZeroU64::new` gives a value exactly when the input is nonzero, and then that value |
| Instructions.Unpack | program/src/instructions.rs:80-118 | over 512 bytes or a nonzero version byte gives None; an accepted input has length 5 plus its variant's payload length, its bytes 1..5 are the LE variant index and the rest is the variant's payload |
| Instructions.PackUnpack | program/src/instructions.rs:76-118 | every instruction decodes from its own encoding |
| Instructions.UnpackPack | program/src/instructions.rs:76-118 | an accepted input is exactly the encoding of the instruction it decodes to |
| Instructions.UnpackAcceptsExactlyEncodings | program/src/instructions.rs:76-118 | decode succeeds if and only if the input is the encoding of some instruction |
| Instructions.PackInjective | program/src/instructions.rs:76-78 | distinct instructions have distinct encodings |
| Instructions.UnpackShapes | program/src/instructions.rs:89-116 | an accepted input is 13, 261 or 30 bytes long, starts with version 0, and carries a nonzero amount if Deposit or Withdraw |
| Instructions.UnpackAmount | program/src/instructions.rs:89-99 | with discriminant 0 or 1 and 8 payload bytes, decoding fails exactly when the LE amount is 0, else gives Deposit (index 0) or Withdraw (index 1) of that amount |
| Instructions.UnpackCancelOrderFields | program/src/instructions.rs:104-115 | discriminant 3 with 25 payload bytes gives order_id = LE u128 of bytes 0..16, owner = LE u64 of bytes 16..24, owner_slot = byte 24 |
| Instructions.UnpackRejectsWrongPayloadLength | program/src/instructions.rs:89-116 | an encoding with one byte removed or any bytes appended is refused, never cut or padded |
| Instructions.DepositExample | program/src/instructions.rs:76-99 | Deposit(100) encodes to [0,0,0,0,0,100,0,0,0,0,0,0,0] and that decodes to Deposit(100) |
| Instructions.CancelOrderShortPayload | program/src/instructions.rs:104-116 | a CancelOrder with a 24-byte payload decodes to None |
| Instructions.UnpackAsWritten | program/src/instructions.rs:81-84 | as written, the decoder panics exactly on inputs shorter than 5 bytes, and otherwise agrees with Unpack |
| Instructions.EmptyInputPanicsAsWritten | program/src/instructions.rs:81-84 | the empty input panics as written and is refused by the corrected decoder |
| Instructions.UnpackRejectsShortInput | program/src/instructions.rs:81-84 | the corrected decoder refuses every input shorter than 5 bytes |
| Errors.FileIdValue | program/src/error.rs:9-14 | the `repr(u8)` discriminant is 1 exactly for the account unit and 2 exactly for the dispatcher unit, never 0 |
| Errors.AssertionCode | program/src/error.rs:22-26 | the packed code equals line + file_id * 2^24 with no wrap; bits 0..15 give the line, bits 16..23 are zero, bits 24..31 give the file id |
| Errors.AssertionCodeInjective | program/src/error.rs:16-26 | distinct assertion errors pack to distinct codes |
| Errors.Ordinal | program/src/error.rs:45-58 | every category's ordinal is at most 8 |
| Errors.FromU32 | program/src/error.rs:45-58 | converting a u32 to a category is total, and every value of 8 or more gives AssertionError |
| Errors.OrdinalsInDeclarationOrder | program/src/error.rs:47-58 | the nine categories have ordinals 0..8 in declaration order, and each category sits at its ordinal |
| Errors.OrdinalRoundTrip | program/src/error.rs:45-58 | converting an ordinal back gives the category; a u32 converted and re-ordinalled is clamped at 8 |
| Errors.ToProgramError | program/src/error.rs:68-75 | a wrapped host error passes through unchanged; a category becomes Custom of its ordinal |
| Errors.FromAssertion | program/src/error.rs:28-33 | an assertion becomes a wrapped host Custom error whose code is at least 2^24 |
| Errors.FromBorrowError | program/src/error.rs:77-81 | a borrow failure reaches the host as Custom(7) |
| Errors.AssertionHostCode | program/src/error.rs:28-33 | an assertion reaches the host as Custom(line + file_id * 2^24) |
| Errors.HostCodesDisjoint | program/src/error.rs:9-58 | assertion host codes are at least 2^24 and category host codes at most 8, so they never collide |
| Errors.CategoryHostCodesInjective | program/src/error.rs:68-75 | distinct categories reach the host as distinct codes |
| Errors.AssertionHostCodesInjective | program/src/error.rs:28-33 | distinct assertions reach the host as distinct codes |
| Orders.ExactlyFourStates | program/src/order.rs:3-8 | there are exactly four states, Waiting, Processing, Finished, Dispute, in that order and pairwise distinct |
| Orders.OrderEqualityIsFieldwise | program/src/order.rs:10-17 | two orders are equal exactly when state, hash and both amounts are equal |
| Accounts.DefaultAccountOrders | program/src/account.rs:8-13 | the default order list is empty |
| Accounts.DefaultAccount | program/src/account.rs:21-26 | the default account has no orders and a zero reserved counter |
| Accounts.CreateOrder | program/src/account.rs:28-32 | create_order accepts every order |
| Accounts.AccountEqualityIsFieldwise | program/src/account.rs:15-26 | two accounts are equal exactly when their orders agree position by position and their reserved counters agree |
| Decefi.Process | program/src/decefi.rs:32-57 | an undecodable input fails with WrongInput having read no account; the call succeeds exactly when the input decodes and, for NewOrder, a first account exists and deserializes; at most the first account is read, and only for NewOrder; NewOrder on an empty list fails with NotEnoughAccountKeys having read nothing, and on an undeserializable first account with DeserializationFailed having read it; a built order is Waiting with an all-zero hash and zero amounts |
| Decefi.NewOrderIgnoresHash | program/src/decefi.rs:38-46 | NewOrder behaves the same whatever hash it carries |
| Decefi.NewOrderOnAccount | program/src/decefi.rs:38-47 | NewOrder on a deserializable first account succeeds, reads one account and builds the blank Waiting order |
| Decefi.OtherInstructionsTouchNothing | program/src/decefi.rs:48-51 | CancelOrder, Deposit and Withdraw succeed without reading an account or building an order |
| Decefi.DecodeFailureHostCode | program/src/decefi.rs:35 | an undecodable input fails, and the failure reaches the host as Custom(6) |
| Rollback.Snapshot | program/fuzz/src/lib.rs:8-11 | the snapshot holds each account's bytes in list order, and entries naming the same buffer hold identical snapshots |
| Rollback.Restore | program/fuzz/src/lib.rs:13-18 | after restoring, every listed buffer holds its snapshot, every unlisted buffer is untouched, and all lengths are kept |
| Rollback.ProcessInstruction | program/fuzz/src/lib.rs:3-20 | the processor's result is returned unchanged; on success the processor's memory is kept; on failure every listed buffer is back to its pre-call bytes and unlisted buffers keep what the processor left; buffer count and lengths are preserved |
| Rollback.DecefiProcessor | program/fuzz/src/lib.rs:12 | the dispatcher as the wrapper calls it: it leaves every buffer as it found it and returns the dispatcher's result over the listed accounts |
| Rollback.AliasedRollback | program/fuzz/src/lib.rs:8-18 | a failing processor that overwrote a buffer named twice leaves that buffer at its original bytes |
| Rollback.DecefiLeavesBuffersUnchanged | program/fuzz/src/lib.rs:3-20 | wrapping the dispatcher leaves every buffer unchanged and returns the dispatcher's result |

## Left out

- The host runtime: `AccountInfo`, `Pubkey`, `RefCell` borrowing, `info!`
  logging and `declare_id!`. Account buffers are byte sequences. The program id
  is not used by the dispatcher, so it is not a parameter.
- Borrow panics: `data.borrow()` in the dispatcher and `try_borrow_data().unwrap()`
  in the wrapper panic on a conflicting borrow. None can occur: the snapshot
  and deserialize borrows (program/fuzz/src/lib.rs:10, program/src/decefi.rs:40)
  are temporaries, and the restore borrow (program/fuzz/src/lib.rs:15) is a
  local dropped at the end of each iteration, so each borrow ends before the
  next begins. They are not modelled.
- `Account::deserialize` and bincode's layout of `Account`: deserialization is
  the abstract partial function `deserialize`.
- `serde_pack` and `unpack_serde`: they exist only in test builds.
- The program entrypoint in program/src/lib.rs and its sanity test. The test
  expects a counter increment that the dispatcher does not implement.
- The fuzz target program/fuzz/fuzz_targets/deposit.rs: it names accounts and
  instruction types this program does not define.
- The `Command` enum in program/src/program_command.rs: no logic uses it.
- The drone service drone/drone.py: network polling, persistence and asyncio.
- The `Default` derive on `Order`: `OrderState` has no default, so it does not compile.
- Behaviour the code does not have: order storage and hash uniqueness in
  `create_order`, order removal on cancel, balance changes for Deposit and
  Withdraw, and state transitions.
- Rollback.ProcessInstruction: requires that the processor keep the number of
  buffers and each buffer's length. The host's fixed-size account slices
  guarantee this, and `copy_from_slice` would panic otherwise.

## Findings

| source | as written | input that shows it | evidently intended | confidence | as-written member | corrected member |
|---|---|---|---|---|---|---|
| program/src/instructions.rs:81-84 | the lower length guard `len() < 0` never holds, so `array_refs!` panics on inputs shorter than 5 bytes | the empty instruction `[]` | inputs shorter than the 5-byte header decode to None | high (not executed) | Instructions.UnpackAsWritten, Instructions.EmptyInputPanicsAsWritten | Instructions.Unpack, Instructions.UnpackRejectsShortInput |
