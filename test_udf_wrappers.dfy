/**
 * The string UDF `wrapped_udf_string` of the test plugin: an implementation
 * class whose constructor and `calculate` throw each kind of exception the
 * wrappers distinguish, selected by the argument count and by the argument
 * value, together with the entry points the wrappers generate for it.
 */
module TestUdfWrappers {
  import opened Wrappers
  import opened UdfException
  import opened UdfWrappers

  const WithSentinelMessage: string := "test udf_exception with sentinel"
  const WithoutSentinelMessage: string := "test udf_exception without sentinel"
  const RuntimeErrorMessage: string := "test runtime_error"
  const WrongArgCountMessage: string := "function requires exactly one argument"

  /** What the constructor of wrapped_udf_string_impl throws for a call with `argCount` arguments. */
  function ConstructorThrows(argCount: nat): (r: Option<Thrown>)
    ensures r.None? <==> argCount == 1
    ensures argCount == 2 ==> r == Some(UdfError(NewCodelessUdfException(WithSentinelMessage)))
    ensures argCount == 3 ==> r == Some(UdfError(NewUdfException(WithoutSentinelMessage, ER_WRAPPED_UDF_EXCEPTION)))
    ensures argCount == 4 ==> r == Some(NonStdThrow(42))
    ensures argCount !in {1, 2, 3, 4} ==> r == Some(StdError(InvalidArgument, WrongArgCountMessage))
  {
    if argCount == 2 then Some(UdfError(NewCodelessUdfException(WithSentinelMessage)))
    else if argCount == 3 then Some(UdfError(NewUdfException(WithoutSentinelMessage, ER_WRAPPED_UDF_EXCEPTION)))
    else if argCount == 4 then Some(NonStdThrow(42))
    else if argCount != 1 then Some(StdError(InvalidArgument, WrongArgCountMessage))
    else None
  }

  /** Every message the constructor can make init report reaches the caller whole. */
  lemma {:induction false} ConstructorMessagesFit(argCount: nat)
    requires argCount != 1
    ensures var m := InitMessage(ConstructorThrows(argCount).value);
      Take(CString(m), MYSQL_ERRMSG_SIZE - 1) == m
  {
    var m := InitMessage(ConstructorThrows(argCount).value);
    assert m in {WithSentinelMessage, WithoutSentinelMessage, UnexpectedException, WrongArgCountMessage};
    assert forall i :: 0 <= i < |m| ==> m[i] != '\0';
    CStringOfNulFree(m);
  }

  /** wrapped_udf_string_impl: the object keeps the buffer the returned view points into. */
  class WrappedUdfStringImpl {
    var result: string

    constructor ()
      ensures result == ""
    {
      result := "";
    }

    /**
     * calculate(ctx) for the argument `arg` (None for SQL NULL). `raised`
     * lists the errors it raises itself with my_error() before returning or
     * throwing.
     */
    method Calculate(arg: Option<string>) returns (raised: seq<ErrorReport>, outcome: Result<StringView, Thrown>)
      modifies this
      ensures arg.None? ==> outcome == Ok(NullView)
      ensures arg == Some("100") ==>
        raised == [ErrorReport(ER_DA_OOM, [])] && outcome == Err(UdfError(NewCodelessUdfException(WithSentinelMessage)))
      ensures arg != Some("100") ==> raised == []
      ensures arg == Some("101") ==>
        outcome == Err(UdfError(NewUdfException(WithoutSentinelMessage, ER_WRAPPED_UDF_EXCEPTION)))
      ensures arg == Some("102") ==> outcome == Err(StdError(RuntimeError, RuntimeErrorMessage))
      ensures arg == Some("103") ==> outcome == Err(NonStdThrow(42))
      ensures arg.Some? && arg.value !in {"100", "101", "102", "103"} ==>
        result == "[" + arg.value + "]" && outcome == Ok(View(result))
      ensures arg.None? || arg.value in {"100", "101", "102", "103"} ==> result == old(result)
    {
      raised := [];
      if arg.None? {
        return raised, Ok(NullView);
      }
      var sv := arg.value;
      if sv == "100" {
        raised := [ErrorReport(ER_DA_OOM, [])];
        return raised, Err(UdfError(NewCodelessUdfException(WithSentinelMessage)));
      }
      if sv == "101" {
        return raised, Err(UdfError(NewUdfException(WithoutSentinelMessage, ER_WRAPPED_UDF_EXCEPTION)));
      }
      if sv == "102" {
        return raised, Err(StdError(RuntimeError, RuntimeErrorMessage));
      }
      if sv == "103" {
        return raised, Err(NonStdThrow(42));
      }
      result := ['['];
      result := result + sv;
      result := result + [']'];
      outcome := Ok(View(result));
    }
  }

  /**
   * wrapped_udf_string_init: constructs the implementation inside
   * generic_udf_base::init. On success the constructor has marked the result
   * nullable.
   */
  method WrappedUdfStringInit(initid: UdfInit<WrappedUdfStringImpl>, argCount: nat, message: array<char>)
    returns (failed: bool)
    requires message.Length == MYSQL_ERRMSG_SIZE
    modifies initid, message
    ensures failed <==> argCount != 1
    ensures !failed ==> initid.ptr.Some? && fresh(initid.ptr.value) && initid.resultNullable
    ensures argCount == 2 ==> CString(message[..]) == WithSentinelMessage
    ensures argCount == 3 ==> CString(message[..]) == WithoutSentinelMessage
    ensures argCount == 4 ==> CString(message[..]) == UnexpectedException
    ensures argCount !in {1, 2, 3, 4} ==> CString(message[..]) == WrongArgCountMessage
  {
    var construct: Result<WrappedUdfStringImpl, Thrown>;
    var thrown := ConstructorThrows(argCount);
    if thrown.Some? {
      construct := Err(thrown.value);
    } else {
      initid.resultNullable := true;
      var impl := new WrappedUdfStringImpl();
      construct := Ok(impl);
    }
    failed := Init(initid, construct, message);
    if failed {
      ConstructorMessagesFit(argCount);
    }
  }

  /**
   * wrapped_udf_string(): `calculate` followed by the STRING_RESULT wrapper.
   * `errors` is every error raised during the call, in order.
   */
  method WrappedUdfString(initid: UdfInit<WrappedUdfStringImpl>, arg: Option<string>, isNullIn: bv8, lengthIn: nat)
    returns (ret: Option<string>, error: bv8, isNull: bv8, length: nat, errors: seq<ErrorReport>)
    requires initid.ptr.Some? && initid.resultNullable
    modifies initid.ptr.value
    ensures error == 1 <==> arg.Some? && arg.value in {"100", "101", "102", "103"}
    ensures error == 0 <==> !(arg.Some? && arg.value in {"100", "101", "102", "103"})
    ensures arg.None? ==> ret == None && isNull == 1 && length == lengthIn && errors == []
    ensures arg == Some("100") ==> errors == [ErrorReport(ER_DA_OOM, [])]
    ensures arg == Some("101") ==>
      errors == [ErrorReport(ER_WRAPPED_UDF_EXCEPTION, [FunctionName, WithoutSentinelMessage])]
    ensures arg == Some("102") ==> errors == [ErrorReport(ER_UDF_ERROR, [FunctionName, RuntimeErrorMessage])]
    ensures arg == Some("103") ==> errors == [ErrorReport(ER_UDF_ERROR, [FunctionName, UnexpectedException])]
    ensures error == 1 ==> ret == None && isNull == isNullIn && length == lengthIn
    ensures arg.Some? && arg.value !in {"100", "101", "102", "103"} ==>
      ret == Some("[" + arg.value + "]") && isNull == 0 && length == |arg.value| + 2 && errors == []
  {
    var impl := initid.ptr.value;
    var raised, outcome := impl.Calculate(arg);
    var report;
    ret, error, isNull, length, report := StringFunc(outcome, initid.resultNullable, isNullIn, lengthIn);
    errors := raised + (if report.Some? then [report.value] else []);
  }
}
