/**
 * The instruction wire format (program/src/instructions.rs).
 *
 *   byte 0      version, must be 0
 *   bytes 1..5  variant index, little-endian u32
 *   bytes 5..   payload, whose length is fixed by the variant
 *
 * The Rust decoder does not compile as written; where it does not, this
 * module follows the evident intent, noted at each place below.
 */
module Instructions {
  import opened Results
  import opened Bytes

  /** Inputs longer than this are refused outright. */
  const MaxInstructionLength: nat := 512
  /** Version byte plus the u32 variant index. */
  const HeaderLength: nat := 5

  /** `NonZeroU64`: the only amounts Deposit and Withdraw can carry. */
  type NonZeroU64 = x: U64 | x != 0 witness 1

  /** The 256-byte hash carried by NewOrder. */
  type Hash256 = s: seq<Byte> | |s| == 256 witness seq(256, _ => 0)

  datatype NewOrderInstruction = NewOrderInstruction(hash: Hash256)

  /**
   * The Rust struct declares `owner` as `[u64; 4]`, but the decoder reads a
   * single little-endian u64 into it. The decoder's single u64 is modelled,
   * so the CancelOrder payload is 16 + 8 + 1 = 25 bytes both ways.
   */
  datatype CancelOrderInstruction = CancelOrderInstruction(orderId: U128, owner: U64, ownerSlot: Byte)

  datatype DecefiInstruction =
    | Deposit(amount: NonZeroU64)
    | Withdraw(amount: NonZeroU64)
    | NewOrder(newOrder: NewOrderInstruction)
    | CancelOrder(cancel: CancelOrderInstruction)

  /** The variant index, in declaration order, as bincode numbers enum variants. */
  function VariantIndex(i: DecefiInstruction): (r: U32)
  {
    match i
    case Deposit(_) => 0
    case Withdraw(_) => 1
    case NewOrder(_) => 2
    case CancelOrder(_) => 3
  }

  /** The payload length each variant requires. */
  function PayloadLength(i: DecefiInstruction): (r: nat)
  {
    match i
    case Deposit(_) => 8
    case Withdraw(_) => 8
    case NewOrder(_) => 256
    case CancelOrder(_) => 25
  }

  /** The payload bytes of each variant, fields in declaration order, integers little-endian. */
  function Payload(i: DecefiInstruction): (r: seq<Byte>)
    ensures |r| == PayloadLength(i)
  {
    Pow256Widths();
    match i
    case Deposit(a) => ToLE(a, 8)
    case Withdraw(a) => ToLE(a, 8)
    case NewOrder(n) => n.hash
    case CancelOrder(c) => ToLE(c.orderId, 16) + ToLE(c.owner, 8) + [c.ownerSlot]
  }

  /**
   * `DecefiInstruction::pack`, which calls bincode on the pair `(0u8, self)`.
   * That call does not compile outside test builds (`Serialize` is derived
   * only under `cfg(test)`), and serde gives `[u8; 256]` no layout at all. The
   * layout here is the one the decoder reads: the version byte, the u32
   * variant index, then the fields in order with integers little-endian and
   * the 256 hash bytes raw, with no length prefix.
   */
  function Pack(i: DecefiInstruction): (r: seq<Byte>)
    ensures |r| == HeaderLength + PayloadLength(i) <= MaxInstructionLength
    ensures r[0] == 0
    ensures FromLE(r[1..HeaderLength]) == VariantIndex(i)
    ensures r[HeaderLength..] == Payload(i)
  {
    Pow256Widths();
    var header := [0] + ToLE(VariantIndex(i), 4);
    assert header[1..] == ToLE(VariantIndex(i), 4);
    header + Payload(i)
  }

  /** `NonZeroU64::new`: `None` for zero. */
  function NonZero(x: U64): (r: Option<NonZeroU64>)
    ensures r.Some? <==> x != 0
    ensures r.Some? ==> r.value == x
  {
    if x == 0 then None else Some(x)
  }

  /**
   * `DecefiInstruction::unpack`.
   *
   * Deviations from the Rust code, each the evident intent:
   *  - the length guard `len() < 0` can never hold, so an input shorter than
   *    the 5-byte header would panic in `array_refs!`; here it decodes to `None`;
   *  - the Deposit and Withdraw arms yield the bare `Option<NonZeroU64>`; here it
   *    is wrapped in the variant, and a zero amount decodes to `None`;
   *  - the NewOrder arm names an undefined `hash`; here the hash is the payload.
   */
  function Unpack(bytes: seq<Byte>): (r: Option<DecefiInstruction>)
    ensures |bytes| > MaxInstructionLength ==> r.None?
    ensures |bytes| > 0 && bytes[0] != 0 ==> r.None?
    ensures r.Some? ==> |bytes| == HeaderLength + PayloadLength(r.value)
    ensures r.Some? ==> FromLE(bytes[1..HeaderLength]) == VariantIndex(r.value)
    ensures r.Some? ==> bytes[HeaderLength..] == Payload(r.value)
  {
    if |bytes| > MaxInstructionLength || |bytes| < HeaderLength then None
    else if bytes[0] != 0 then None
    else
      Pow256Widths();
      var discrim := U32FromLE(bytes[1..HeaderLength]);
      var data := bytes[HeaderLength..];
      if discrim == 0 && |data| == 8 then
        match NonZero(U64FromLE(data))
        case None => None
        case Some(a) => ToLEFromLE(data); Some(Deposit(a))
      else if discrim == 1 && |data| == 8 then
        match NonZero(U64FromLE(data))
        case None => None
        case Some(a) => ToLEFromLE(data); Some(Withdraw(a))
      else if discrim == 2 && |data| == 256 then
        Some(NewOrder(NewOrderInstruction(data)))
      else if discrim == 3 && |data| == 25 then
        var orderId, owner, ownerSlot := data[..16], data[16..24], data[24];
        ToLEFromLE(orderId);
        ToLEFromLE(owner);
        assert data == orderId + owner + [ownerSlot];
        Some(CancelOrder(CancelOrderInstruction(U128FromLE(orderId), U64FromLE(owner), ownerSlot)))
      else
        None
  }

  /** Round trip: every instruction decodes from its own encoding. */
  lemma PackUnpack(i: DecefiInstruction)
    ensures Unpack(Pack(i)) == Some(i)
  {
    var b := Pack(i);
    var data := b[HeaderLength..];
    Pow256Widths();
    match i
    case Deposit(a) =>
      assert FromLE(data) == a;
    case Withdraw(a) =>
      assert FromLE(data) == a;
    case NewOrder(n) =>
    case CancelOrder(c) =>
      assert data[..16] == ToLE(c.orderId, 16);
      assert data[16..24] == ToLE(c.owner, 8);
      assert data[24] == c.ownerSlot;
  }

  /** Round trip the other way: an accepted input is exactly the encoding of what it decodes to. */
  lemma UnpackPack(bytes: seq<Byte>)
    requires Unpack(bytes).Some?
    ensures Pack(Unpack(bytes).value) == bytes
  {
    var i := Unpack(bytes).value;
    var p := Pack(i);
    assert |p| == |bytes|;
    FromLEInjective(p[1..HeaderLength], bytes[1..HeaderLength]);
    assert p == p[..1] + p[1..HeaderLength] + p[HeaderLength..];
    assert bytes == bytes[..1] + bytes[1..HeaderLength] + bytes[HeaderLength..];
  }

  /** Decoding accepts exactly the encodings, so no other input is ever accepted. */
  lemma UnpackAcceptsExactlyEncodings(bytes: seq<Byte>)
    ensures Unpack(bytes).Some? <==> exists i :: Pack(i) == bytes
  {
    if Unpack(bytes).Some? {
      UnpackPack(bytes);
    }
    if i :| Pack(i) == bytes {
      PackUnpack(i);
    }
  }

  /** Distinct instructions never share an encoding. */
  lemma PackInjective(i: DecefiInstruction, j: DecefiInstruction)
    requires Pack(i) == Pack(j)
    ensures i == j
  {
    PackUnpack(i);
    PackUnpack(j);
  }

  /** An accepted input has total length 13, 261 or 30, and a decoded amount is never zero. */
  lemma UnpackShapes(bytes: seq<Byte>)
    requires Unpack(bytes).Some?
    ensures |bytes| == 13 || |bytes| == 261 || |bytes| == 30
    ensures bytes[0] == 0
    ensures Unpack(bytes).value.Deposit? || Unpack(bytes).value.Withdraw? ==> Unpack(bytes).value.amount > 0
  {
  }

  /**
   * CancelOrder field layout: order_id is the u128 of payload bytes 0..16,
   * owner the u64 of bytes 16..24 and owner_slot byte 24.
   */
  lemma UnpackCancelOrderFields(bytes: seq<Byte>)
    requires |bytes| == 30 && bytes[0] == 0 && FromLE(bytes[1..5]) == 3
    ensures Unpack(bytes) == Some(CancelOrder(CancelOrderInstruction(
      U128FromLE(bytes[5..21]), U64FromLE(bytes[21..29]), bytes[29])))
  {
    assert bytes[5..][..16] == bytes[5..21];
    assert bytes[5..][16..24] == bytes[21..29];
  }

  /** Deposit and Withdraw: an encoded amount of zero is rejected, any other is decoded. */
  lemma UnpackAmount(bytes: seq<Byte>)
    requires |bytes| == 13 && bytes[0] == 0
    requires FromLE(bytes[1..5]) == 0 || FromLE(bytes[1..5]) == 1
    ensures Unpack(bytes).None? <==> FromLE(bytes[5..]) == 0
    ensures Unpack(bytes).Some? ==> Unpack(bytes).value.amount == FromLE(bytes[5..])
    ensures Unpack(bytes).Some? ==> (Unpack(bytes).value.Deposit? <==> FromLE(bytes[1..5]) == 0)
  {
  }

  /** A payload one byte short of or past the variant's length is rejected, never padded or cut. */
  lemma UnpackRejectsWrongPayloadLength(i: DecefiInstruction, extra: seq<Byte>)
    requires |extra| > 0
    ensures Unpack(Pack(i) + extra).None?
    ensures Unpack(Pack(i)[..|Pack(i)| - 1]).None?
  {
    var long := Pack(i) + extra;
    var short := Pack(i)[..|Pack(i)| - 1];
    assert long[1..HeaderLength] == Pack(i)[1..HeaderLength];
    assert short[1..HeaderLength] == Pack(i)[1..HeaderLength];
  }

  /** Deposit(100) encodes to version 0, index 0 and amount 100, all little-endian, and decodes back. */
  lemma DepositExample()
    ensures Pack(Deposit(100)) == [0, 0, 0, 0, 0, 100, 0, 0, 0, 0, 0, 0, 0]
    ensures Unpack([0, 0, 0, 0, 0, 100, 0, 0, 0, 0, 0, 0, 0]) == Some(Deposit(100))
  {
    ToLEZero(4);
    ToLEZero(7);
    assert ToLE(100, 8) == [100] + ToLE(0, 7);
    PackUnpack(Deposit(100));
  }

  /** A CancelOrder whose payload is 24 bytes, one short of 25, decodes to nothing. */
  lemma CancelOrderShortPayload(payload: seq<Byte>)
    requires |payload| == 24
    ensures Unpack([0, 3, 0, 0, 0] + payload).None?
  {
    var b: seq<Byte> := [0, 3, 0, 0, 0] + payload;
    assert b[1..5] == [3, 0, 0, 0];
  }

  /** What the Rust decoder does as written: return a value, or panic. */
  datatype RawDecode = Panicked | Returned(decoded: Option<DecefiInstruction>)

  /**
   * `unpack` as written: the lower guard `len() < 0` never holds, so an input
   * shorter than the 5-byte header reaches `array_refs!`, which panics.
   * Inputs that pass behave as `Unpack`.
   */
  function UnpackAsWritten(bytes: seq<Byte>): (r: RawDecode)
    ensures r.Panicked? <==> |bytes| < HeaderLength
    ensures r.Returned? ==> r.decoded == Unpack(bytes)
  {
    if |bytes| < 0 || |bytes| > MaxInstructionLength then Returned(None)
    else if |bytes| < HeaderLength then Panicked
    else Returned(Unpack(bytes))
  }

  /** The empty instruction makes the decoder as written panic; the corrected one refuses it. */
  lemma EmptyInputPanicsAsWritten()
    ensures UnpackAsWritten([]).Panicked?
    ensures Unpack([]).None?
  {
  }

  /** The corrected decoder refuses every input shorter than the header instead of panicking. */
  lemma UnpackRejectsShortInput(bytes: seq<Byte>)
    requires |bytes| < HeaderLength
    ensures Unpack(bytes).None?
  {
  }
}
