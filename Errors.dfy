/** The error values the runner handles: the skip signal thrown by
    `assert.skip`, the message chosen for a thrown value, and the
    normalisation of an error passed to an asynchronous completion callback. */
module Errors {
  import opened JsValues

  /** The `name` of the value `assert.skip` throws. */
  const ERR_TYPE_SKIPPED: string := "SkipTest"

  /** `e.name && e.name == 'SkipTest'`, read on a value that is not nullish. */
  predicate IsSkipSignal(e: JsValue) {
    Get(e, "name") == Str(ERR_TYPE_SKIPPED)
  }

  /** The value `assert.skip(message)` throws: a plain object carrying the
      skip name and the message. */
  function SkipSignal(message: JsValue): (e: JsValue)
    ensures !Nullish(e) && Truthy(e)
    ensures IsSkipSignal(e)
    ensures Get(e, "message") == message
  {
    Literal(map["name" := Str(ERR_TYPE_SKIPPED), "message" := message])
  }

  /** A value shaped like a failed assertion of Node's `assert` module:
      truthy, with `message`, `actual`, `expected` and `operator` all defined. */
  predicate IsAssertionShaped(e: JsValue) {
    && Truthy(e)
    && Get(e, "message") != Undefined
    && Get(e, "actual") != Undefined
    && Get(e, "expected") != Undefined
    && Get(e, "operator") != Undefined
  }

  /** The three human-readable forms of a thrown value; the text around the
      parts is formatting and is not modelled. */
  datatype CaseMessage =
    | AssertionFailed(message: JsValue, actual: JsValue, operator: JsValue, expected: JsValue)
    | SkipReason(reason: JsValue)
    | Exception(thrown: JsValue)

  /** The message for a value thrown by a test case: assertion-shaped values
      first, then the skip signal, and anything else as a plain exception. */
  function FormatTestCaseExceptionMessage(e: JsValue): (r: CaseMessage)
    ensures r.AssertionFailed? <==> IsAssertionShaped(e)
    ensures r.AssertionFailed? ==>
      r == AssertionFailed(Get(e, "message"), Get(e, "actual"), Get(e, "operator"), Get(e, "expected"))
    ensures r.SkipReason? <==> !IsAssertionShaped(e) && Truthy(e) && IsSkipSignal(e)
    ensures r.SkipReason? ==> r.reason == Get(e, "message")
    ensures r.Exception? ==> r.thrown == e
  {
    if IsAssertionShaped(e) then
      AssertionFailed(Get(e, "message"), Get(e, "actual"), Get(e, "operator"), Get(e, "expected"))
    else if Truthy(e) && IsSkipSignal(e) then
      SkipReason(Get(e, "message"))
    else
      Exception(e)
  }

  /** Every `assert.skip(m)` is reported with `m` as its reason. */
  lemma SkipSignalFormatsAsSkipReason(m: JsValue)
    ensures FormatTestCaseExceptionMessage(SkipSignal(m)) == SkipReason(m)
  {
    assert !IsAssertionShaped(SkipSignal(m)) by {
      assert Get(SkipSignal(m), "actual") == Undefined;
    }
  }

  /** A skip signal that also carries assertion fields is reported as a failed
      assertion, although the runner still classifies it as skipped: the
      message follows the shape, the status follows the name. */
  lemma AssertionShapedSkipIsReportedAsAssertion()
    ensures var e := Literal(map["name" := Str(ERR_TYPE_SKIPPED), "message" := Str("m"),
                                 "actual" := Num(1), "expected" := Num(2), "operator" := Str("==")]);
            IsSkipSignal(e) && FormatTestCaseExceptionMessage(e).AssertionFailed?
  {
  }

  /** The property names of the normalised error object that the source sets
      before copying the error's own enumerable properties over them. */
  const NormalisedKeys: set<string> := {"message", "type", "stack", "arguments"}

  /** `convertErrorToObject(err)`. An error whose `stack` is falsy is returned
      as it is. Otherwise a fresh object is built with `message`, `type`
      (defaulting to `'Error'`), the stack frames and `arguments`, and then
      every enumerable property of `err` is copied onto it, overriding those.
      `frames` stands for `stack.split(/\n\s+at\s+/).slice(1)`. */
  function ConvertErrorToObject(err: JsValue, frames: JsValue -> JsValue): (r: JsValue)
    ensures !Truthy(Get(err, "stack")) ==> r == err
    ensures Truthy(Get(err, "stack")) ==>
      && r.Obj? && err.Obj?
      && r.props.Keys == NormalisedKeys + err.enumerable
      && r.enumerable == r.props.Keys
      && (forall k :: k in err.enumerable ==> Get(r, k) == Get(err, k))
      && ("message" !in err.enumerable ==> Get(r, "message") == Get(err, "message"))
      && ("arguments" !in err.enumerable ==> Get(r, "arguments") == Get(err, "arguments"))
      && ("stack" !in err.enumerable ==> Get(r, "stack") == frames(Get(err, "stack")))
      && ("type" !in err.enumerable ==>
            Get(r, "type") == if Truthy(Get(err, "type")) then Get(err, "type") else Str("Error"))
    ensures Truthy(err) ==> Truthy(r)
  {
    if err.Obj? && Truthy(Get(err, "stack")) then
      var base := map[
        "message" := Get(err, "message"),
        "type" := if Truthy(Get(err, "type")) then Get(err, "type") else Str("Error"),
        "stack" := frames(Get(err, "stack")),
        "arguments" := Get(err, "arguments")];
      var copied := map k | k in err.enumerable :: Get(err, k);
      Literal(base + copied)
    else
      err
  }
}
