/**
 * mysqlpp::generic_udf_base and generic_udf<ImplType, STRING_RESULT>: the
 * glue that turns a C++ class with a constructor and a `calculate` member
 * into the C entry points of a user-defined function. Everything that can be
 * thrown is caught at this boundary and turned into either an init message
 * or a server error raised with my_error().
 */
module UdfWrappers {
  import opened Wrappers
  import opened UdfException

  /** The standard exception classes thrown by the UDF implementations of this model. */
  datatype StdExceptionKind = InvalidArgument | RuntimeError

  /** What a `throw` in an implementation's constructor or `calculate` can carry. */
  datatype Thrown =
    | UdfError(e: UdfException)                      // mysqlpp::udf_exception
    | StdError(kind: StdExceptionKind, what: string) // any other std::exception
    | NonStdThrow(value: int)                        // anything else, such as `throw 42`

  /** One call of my_error(): the error code and the arguments formatted into its message. */
  datatype ErrorReport = ErrorReport(code: int32, args: seq<string>)

  /**
   * Server error codes. Their numeric values are assigned in the server's
   * error-message list, which is not part of this model; the model relies
   * only on their being pairwise distinct and different from the
   * udf_exception sentinel.
   */
  const ER_UDF_ERROR: int32 := 3001
  const ER_DA_OOM: int32 := 3002
  const ER_WRAPPED_UDF_EXCEPTION: int32 := 3003

  /** Size of the message buffer the server hands to an init function. */
  const MYSQL_ERRMSG_SIZE: nat := 512

  /** The name formatted into every error handle_exception raises. */
  const FunctionName: string := "<function_name>"

  /** The text used for anything thrown that is not a std::exception. */
  const UnexpectedException: string := "unexpected exception"

  /** Whether the C++ `catch (const std::exception &)` clause catches this value. */
  predicate IsStdException(t: Thrown)
  {
    t.UdfError? || t.StdError?
  }

  /** `e.what()` of a std::exception. */
  function What(t: Thrown): string
    requires IsStdException(t)
  {
    if t.UdfError? then t.e.what else t.what
  }

  /**
   * handle_exception: rethrows the active exception and raises the matching
   * server error, or none at all for a udf_exception without a code (the
   * thrower has then already raised its own error).
   */
  function HandleException(t: Thrown): (r: Option<ErrorReport>)
    ensures r.None? <==> t.UdfError? && !HasErrorCode(t.e)
    ensures t.UdfError? && HasErrorCode(t.e) ==>
      r == Some(ErrorReport(GetErrorCode(t.e), [FunctionName, t.e.what]))
    ensures !t.UdfError? ==> r.Some? && r.value.code == ER_UDF_ERROR
    ensures r.Some? ==> |r.value.args| == 2 && r.value.args[0] == FunctionName
    ensures r.Some? && IsStdException(t) ==> r.value.args[1] == What(t)
    ensures t.NonStdThrow? ==> r.value.args[1] == UnexpectedException
  {
    match t
    case UdfError(e) => if HasErrorCode(e) then Some(ErrorReport(GetErrorCode(e), [FunctionName, e.what])) else None
    case StdError(_, what) => Some(ErrorReport(ER_UDF_ERROR, [FunctionName, what]))
    case NonStdThrow(_) => Some(ErrorReport(ER_UDF_ERROR, [FunctionName, UnexpectedException]))
  }

  /** The text init copies into the message buffer when the constructor throws. */
  function InitMessage(t: Thrown): (m: string)
    ensures IsStdException(t) ==> m == What(t)
    ensures !IsStdException(t) ==> m == UnexpectedException
  {
    if IsStdException(t) then What(t) else UnexpectedException
  }

  /** The C string stored at the start of `s`: everything before the first NUL. */
  function CString(s: seq<char>): (r: seq<char>)
    ensures |r| <= |s| && r == s[..|r|]
    ensures forall i :: 0 <= i < |r| ==> r[i] != '\0'
    ensures |r| < |s| ==> s[|r|] == '\0'
  {
    if s == [] || s[0] == '\0' then [] else [s[0]] + CString(s[1..])
  }

  /** A NUL-free prefix followed by a NUL is the C string stored in a buffer. */
  lemma {:induction false} CStringEndsAtFirstNul(s: seq<char>, k: nat)
    requires k < |s| && s[k] == '\0'
    requires forall i :: 0 <= i < k ==> s[i] != '\0'
    ensures CString(s) == s[..k]
  {
    if k > 0 {
      CStringEndsAtFirstNul(s[1..], k - 1);
      assert s[..k] == [s[0]] + s[1..][..k - 1];
    }
  }

  /** A buffer with no NUL in it reads back whole as a C string. */
  lemma {:induction false} CStringOfNulFree(s: seq<char>)
    requires forall i :: 0 <= i < |s| ==> s[i] != '\0'
    ensures CString(s) == s
  {
    if s != [] {
      CStringOfNulFree(s[1..]);
    }
  }

  /** The first `n` characters of `s`, or all of it when it is shorter. */
  function Take(s: seq<char>, n: nat): (r: seq<char>)
    ensures |r| == if |s| < n then |s| else n
    ensures r == s[..|r|]
  {
    if |s| < n then s else s[..n]
  }

  /**
   * std::strncpy(dst, src, n): copies the C string `src` into the first `n`
   * bytes of `dst`, stopping at its NUL, and pads what is left of the `n`
   * bytes with NULs. When `src` is `n` bytes or longer, no NUL is written.
   */
  method Strncpy(dst: array<char>, src: seq<char>, n: nat)
    requires n <= dst.Length
    modifies dst
    ensures forall i :: 0 <= i < n ==>
      dst[i] == if i < |CString(src)| then CString(src)[i] else '\0'
    ensures dst[n..] == old(dst[n..])
  {
    var c := CString(src);
    var i := 0;
    while i < n
      invariant i <= n
      invariant forall k :: 0 <= k < i ==> dst[k] == if k < |c| then c[k] else '\0'
      invariant dst[n..] == old(dst[n..])
    {
      dst[i] := if i < |c| then c[i] else '\0';
      i := i + 1;
    }
  }

  /**
   * The two statements init runs on a failure: strncpy of the message into
   * the buffer, then a NUL in the last byte. Whatever the length of the
   * message, the buffer then holds it cut to MYSQL_ERRMSG_SIZE - 1 bytes.
   */
  method CopyInitMessage(message: array<char>, what: string)
    requires message.Length == MYSQL_ERRMSG_SIZE
    modifies message
    ensures CString(message[..]) == Take(CString(what), MYSQL_ERRMSG_SIZE - 1)
  {
    Strncpy(message, what, MYSQL_ERRMSG_SIZE);
    message[MYSQL_ERRMSG_SIZE - 1] := '\0';
    ghost var c := CString(what);
    ghost var k := |Take(c, MYSQL_ERRMSG_SIZE - 1)|;
    assert message[..][k] == '\0';
    forall i | 0 <= i < k ensures message[..][i] != '\0' {
      assert message[i] == c[i];
    }
    CStringEndsAtFirstNul(message[..], k);
    assert message[..][..k] == Take(c, MYSQL_ERRMSG_SIZE - 1);
  }

  /**
   * UDF_INIT: the parts of it this model uses, the pointer to the
   * implementation object and the flag saying whether the result may be NULL
   * (set by the implementation's constructor through its udf_context).
   */
  class UdfInit<T> {
    var ptr: Option<T>
    var resultNullable: bool

    constructor ()
      ensures ptr == None && !resultNullable
    {
      ptr := None;
      resultNullable := false;
    }
  }

  /**
   * generic_udf_base::init. `construct` is the outcome of `new ImplType{ctx}`.
   * Returns true (failure) exactly when the constructor threw; the pointer is
   * then left alone and the buffer holds the exception's message (`what()`,
   * read as a C string), cut to fit.
   */
  method Init<T>(initid: UdfInit<T>, construct: Result<T, Thrown>, message: array<char>) returns (failed: bool)
    requires message.Length == MYSQL_ERRMSG_SIZE
    modifies initid, message
    ensures failed <==> construct.Err?
    ensures construct.Ok? ==> initid.ptr == Some(construct.value) && message[..] == old(message[..])
    ensures construct.Err? ==> initid.ptr == old(initid.ptr)
    ensures initid.resultNullable == old(initid.resultNullable)
    ensures construct.Err? ==>
      CString(message[..]) == Take(CString(InitMessage(construct.error)), MYSQL_ERRMSG_SIZE - 1)
  {
    match construct {
      case Err(t) =>
        CopyInitMessage(message, InitMessage(t));
        failed := true;
      case Ok(impl) =>
        initid.ptr := Some(impl);
        failed := false;
    }
  }

  /** generic_udf_base::deinit: the implementation object is destroyed and may not be used again. */
  method Deinit<T>(initid: UdfInit<T>)
    modifies initid
    ensures initid.ptr == None && initid.resultNullable == old(initid.resultNullable)
  {
    initid.ptr := None;
  }

  /**
   * ext::string_view as returned by `calculate`: either the view with no
   * data pointer at all (SQL NULL) or a view of some characters, possibly
   * none.
   */
  datatype StringView = NullView | View(chars: string)

  /**
   * generic_udf<ImplType, STRING_RESULT>::func, after `calculate` has run
   * with outcome `outcome`. The out-parameters `is_null` and `length` keep the
   * values they came in with whenever func does not write them. `report` is
   * the error handle_exception raised, if any.
   */
  method StringFunc(outcome: Result<StringView, Thrown>, resultNullable: bool, isNullIn: bv8, lengthIn: nat)
    returns (ret: Option<string>, error: bv8, isNull: bv8, length: nat, report: Option<ErrorReport>)
    requires outcome == Ok(NullView) ==> resultNullable
    ensures error == 1 <==> outcome.Err?
    ensures error == 0 <==> outcome.Ok?
    ensures outcome.Err? ==> ret == None && report == HandleException(outcome.error)
    ensures outcome.Err? ==> isNull == isNullIn && length == lengthIn
    ensures outcome.Ok? ==> report == None
    ensures outcome == Ok(NullView) ==> ret == None && isNull == 1 && length == lengthIn
    ensures outcome.Ok? && outcome.value.View? ==>
      ret == Some(outcome.value.chars) && isNull == 0 && length == |outcome.value.chars|
  {
    isNull, length := isNullIn, lengthIn;
    match outcome {
      case Err(t) =>
        report := HandleException(t);
        error := 1;
        ret := None;
      case Ok(res) =>
        report := None;
        error := 0;
        if res.NullView? {
          isNull := 1;
          ret := None;
        } else {
          isNull := 0;
          length := |res.chars|;
          ret := Some(res.chars);
        }
    }
  }
}
