/**
 * Error values and their folding into the host's numeric code
 * (program/src/error.rs).
 */
module Errors {
  import opened Bytes

  /** The logical source units an assertion can name. */
  datatype SourceFileId = AccountFile | DecefiFile

  /** The `#[repr(u8)]` discriminant of a source unit. */
  function FileIdValue(f: SourceFileId): (r: Byte)
    ensures r != 0
    ensures r == 1 <==> f == AccountFile
    ensures r == 2 <==> f == DecefiFile
  {
    match f
    case AccountFile => 1
    case DecefiFile => 2
  }

  /** The Rust `AssertionError` struct: a source unit and a line in it. */
  datatype AssertionError = AssertionError(line: U16, fileId: SourceFileId)

  /** `x << 24` on a u32: bits shifted past bit 31 are lost. */
  function Shl24(x: U32): (r: U32)
  {
    (x * 0x100_0000) % 0x1_0000_0000
  }

  /** Wrapping u32 addition. */
  function Add32(x: U32, y: U32): (r: U32)
  {
    (x + y) % 0x1_0000_0000
  }

  /** The bits 16..23 of a u32, which the assertion packing leaves clear. */
  function MiddleByte(code: U32): (r: Byte)
  {
    (code / 0x1_0000) % 0x100
  }

  /**
   * `From<AssertionError> for u32`: `line + (file_id << 24)` in u32 arithmetic.
   * No bit is lost: the line fills bits 0..15, the file id bits 24..31.
   */
  function AssertionCode(e: AssertionError): (r: U32)
    ensures r == e.line + FileIdValue(e.fileId) * 0x100_0000
    ensures r % 0x1_0000 == e.line
    ensures MiddleByte(r) == 0
    ensures r / 0x100_0000 == FileIdValue(e.fileId)
  {
    Add32(e.line, Shl24(FileIdValue(e.fileId)))
  }

  /** The assertion packing is injective: line and file are recovered from the code. */
  lemma AssertionCodeInjective(a: AssertionError, b: AssertionError)
    requires AssertionCode(a) == AssertionCode(b)
    ensures a == b
  {
    assert a.line == AssertionCode(a) % 0x1_0000;
    assert FileIdValue(a.fileId) == FileIdValue(b.fileId);
  }

  /**
   * `DecefiErrorCode`, ordinals in declaration order from 0. The Rust
   * variant `NoPermisson` is spelled `NoPermission` here.
   */
  datatype DecefiErrorCode =
    | InvalidHash
    | InvalidAmount
    | CanceledByOracle
    | DeserializationFailed
    | NoPermission
    | NoTrade
    | WrongInput
    | BorrowError
    | AssertionErrorCode

  /** Every category, in declaration order. */
  const AllErrorCodes: seq<DecefiErrorCode> := [
    InvalidHash, InvalidAmount, CanceledByOracle, DeserializationFailed,
    NoPermission, NoTrade, WrongInput, BorrowError, AssertionErrorCode]

  /** `IntoPrimitive`: the `#[repr(u32)]` ordinal. */
  function Ordinal(c: DecefiErrorCode): (r: U32)
    ensures r <= 8
  {
    match c
    case InvalidHash => 0
    case InvalidAmount => 1
    case CanceledByOracle => 2
    case DeserializationFailed => 3
    case NoPermission => 4
    case NoTrade => 5
    case WrongInput => 6
    case BorrowError => 7
    case AssertionErrorCode => 8
  }

  /** `FromPrimitive` with `#[num_enum(default)]` on the last variant: total on u32. */
  function FromU32(n: U32): (r: DecefiErrorCode)
    ensures n >= 8 ==> r == AssertionErrorCode
  {
    if n < |AllErrorCodes| then AllErrorCodes[n] else AssertionErrorCode
  }

  /** The ordinals follow declaration order: the k-th declared category has ordinal k. */
  lemma OrdinalsInDeclarationOrder()
    ensures |AllErrorCodes| == 9
    ensures forall k :: 0 <= k < |AllErrorCodes| ==> Ordinal(AllErrorCodes[k]) == k
    ensures forall c :: AllErrorCodes[Ordinal(c)] == c
  {
  }

  /** Converting an ordinal back gives the category; converting a u32 then taking the ordinal clamps at 8. */
  lemma OrdinalRoundTrip(c: DecefiErrorCode, n: U32)
    ensures FromU32(Ordinal(c)) == c
    ensures Ordinal(FromU32(n)) == if n <= 8 then n else 8
  {
    OrdinalsInDeclarationOrder();
  }

  /** The host's `ProgramError`: a custom code or one of the host's own failures. */
  datatype ProgramError = Custom(code: U32) | NotEnoughAccountKeys

  /** `DecefiError`: a host error passed through, or a category of this program. */
  datatype DecefiError = Program(err: ProgramError) | ErrorCode(code: DecefiErrorCode)

  /** `From<DecefiError> for ProgramError`. */
  function ToProgramError(e: DecefiError): (r: ProgramError)
    ensures e.Program? ==> r == e.err
    ensures e.ErrorCode? ==> r == Custom(Ordinal(e.code))
  {
    match e
    case Program(p) => p
    case ErrorCode(c) => Custom(Ordinal(c))
  }

  /** `From<AssertionError> for DecefiError`: the packed code as a custom host error. */
  function FromAssertion(a: AssertionError): (r: DecefiError)
    ensures r.Program? && r.err.Custom?
    ensures r.err.code >= 0x100_0000
  {
    DecefiError.Program(Custom(AssertionCode(a)))
  }

  /** `From<BorrowError> for DecefiError`. */
  function FromBorrowError(): (r: DecefiError)
    ensures ToProgramError(r) == Custom(7)
  {
    ErrorCode(BorrowError)
  }

  /** An assertion reaches the host as `Custom(line + file_id * 2^24)`. */
  lemma AssertionHostCode(a: AssertionError)
    ensures ToProgramError(FromAssertion(a)) == Custom(a.line + FileIdValue(a.fileId) * 0x100_0000)
  {
  }

  /**
   * Assertion codes and category codes never collide at the host, and the
   * host code determines the error among all of them.
   */
  lemma HostCodesDisjoint(a: AssertionError, c: DecefiErrorCode)
    ensures ToProgramError(FromAssertion(a)) != ToProgramError(ErrorCode(c))
    ensures ToProgramError(FromAssertion(a)).code >= 0x100_0000 > 8 >= ToProgramError(ErrorCode(c)).code
  {
  }

  /** Distinct categories give distinct host codes. */
  lemma CategoryHostCodesInjective(c: DecefiErrorCode, d: DecefiErrorCode)
    requires ToProgramError(ErrorCode(c)) == ToProgramError(ErrorCode(d))
    ensures c == d
  {
    OrdinalRoundTrip(c, 0);
    OrdinalRoundTrip(d, 0);
  }

  /** Distinct assertions give distinct host codes. */
  lemma AssertionHostCodesInjective(a: AssertionError, b: AssertionError)
    requires ToProgramError(FromAssertion(a)) == ToProgramError(FromAssertion(b))
    ensures a == b
  {
    AssertionCodeInjective(a, b);
  }
}
