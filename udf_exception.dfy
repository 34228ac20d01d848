/**
 * mysqlpp::udf_exception: a std::runtime_error that may carry a server
 * error code. The absence of a code is encoded by a sentinel value of the
 * code itself, so "no code" and "the sentinel passed explicitly" are the
 * same exception.
 */
module UdfException {

  /** A C++ `int`, the type of `error_code_t`. */
  newtype int32 = x: int | -0x8000_0000 <= x < 0x8000_0000

  /** The two's-complement bit pattern of an `int32`. */
  function Bits(x: int32): bv32
  {
    if x < 0 then (x as int + 0x1_0000_0000) as bv32 else x as bv32
  }

  /** `~error_code_t{}`: the complement of zero, which is -1 in two's complement. */
  const ErrorCodeSentinel: int32 := -1

  /** The sentinel really is the value with every bit set. */
  lemma SentinelHasAllBitsSet()
    ensures Bits(ErrorCodeSentinel) == !(0 as bv32)
  {
  }

  /** The message (`what()`) and the stored code. */
  datatype UdfException = UdfException(what: string, errorCode: int32)

  predicate HasErrorCode(e: UdfException)
  {
    e.errorCode != ErrorCodeSentinel
  }

  function GetErrorCode(e: UdfException): int32
  {
    e.errorCode
  }

  /** `udf_exception(what, error_code)`. */
  function NewUdfException(what: string, errorCode: int32): (e: UdfException)
    ensures e.what == what
    ensures HasErrorCode(e) <==> errorCode != ErrorCodeSentinel
    ensures HasErrorCode(e) ==> GetErrorCode(e) == errorCode
  {
    UdfException(what, errorCode)
  }

  /** `udf_exception(what)`: the code defaults to the sentinel. */
  function NewCodelessUdfException(what: string): (e: UdfException)
    ensures e.what == what
    ensures !HasErrorCode(e)
  {
    NewUdfException(what, ErrorCodeSentinel)
  }

  /** Passing the sentinel explicitly cannot be told apart from passing no code. */
  lemma ExplicitSentinelIsCodeless(what: string)
    ensures NewUdfException(what, ErrorCodeSentinel) == NewCodelessUdfException(what)
    ensures !HasErrorCode(NewUdfException(what, ErrorCodeSentinel))
  {
  }
}
