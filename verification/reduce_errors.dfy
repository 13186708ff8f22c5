/** `reduceErrors`: flattens one error or a list of errors, in any of the shapes the
    platform produces, into the list of their non-empty messages. A shape the code
    cannot read raises a `TypeError`, modelled as `Throws`. */
module ReduceErrors {
  import opened Wrappers
  import opened JsValues
  import Strings

  /** One entry of `body.output.errors`. */
  datatype RecordOutputError = RecordOutputError(errorCode: string, message: Value)

  /** `body.output`: its `errors` and, when present, its `fieldErrors`, given as the
      message lists of its fields in key order. */
  datatype RecordOutput = RecordOutput(errors: seq<RecordOutputError>, fieldErrors: Option<seq<seq<Value>>>)

  /** `error.body`: absent (undefined or null), an array of entries (their messages), or an
      object with the properties the code reads. */
  datatype Body =
    | NoBody
    | ArrayBody(messages: seq<Value>)
    | ObjectBody(enhancedErrorType: Option<string>, output: Option<RecordOutput>,
                 message: Value, stackTrace: Value, pageErrors: Option<seq<Value>>)

  /** One element of the input: a falsy value (null, undefined, ...) or an object. */
  datatype ErrorItem = Falsy | ErrorObject(body: Body, message: Value, statusText: Value)

  /** The argument: one error, or an array of them. */
  datatype Errors = One(item: ErrorItem) | Many(items: seq<ErrorItem>)

  /** `Array.isArray(errors) ? errors : [errors]`. */
  function AsList(errors: Errors): seq<ErrorItem>
  {
    match errors
    case One(e) => [e]
    case Many(items) => items
  }

  /** `.filter((error) => !!error)`. */
  function Present(items: seq<ErrorItem>): (r: seq<ErrorItem>)
    ensures forall i :: 0 <= i < |r| ==> r[i].ErrorObject?
  {
    if items == [] then []
    else if items[0].Falsy? then Present(items[1..])
    else [items[0]] + Present(items[1..])
  }

  /** The record-error shape: an `enhancedErrorType` that lower-cases to
      "recorderror", and an `output`. */
  predicate IsRecordError(b: Body)
  {
    && b.ObjectBody?
    && b.enhancedErrorType.Some? && b.enhancedErrorType.value != ""
    && Strings.LowerAscii(b.enhancedErrorType.value) == "recorderror"
    && b.output.Some?
  }

  /** The one message of a record error. */
  function RecordErrorMessage(output: RecordOutput): Outcome<Value>
  {
    var first := if |output.errors| > 0 && '_' in output.errors[0].errorCode
                 then output.errors[0].message else Str("");
    if |output.errors| == 0 && output.fieldErrors.Some? then
      var fieldErrors := output.fieldErrors.value;
      if |fieldErrors| == 0 || |fieldErrors[0]| == 0 then Throws
      else Returns(fieldErrors[0][0])
    else Returns(first)
  }

  /** The `.map` callback: the messages of one error object, tried shape by shape.
      An array body gives one message per entry, every other shape one message. */
  function Extract(e: ErrorItem): Outcome<seq<Value>>
    requires e.ErrorObject?
  {
    var body := e.body;
    if body.ArrayBody? then Returns(body.messages)
    else if IsRecordError(body) then
      (match RecordErrorMessage(body.output.value)
       case Throws => Throws
       case Returns(m) => Returns([m]))
    else if body.ObjectBody? && body.message.Str? then
      Returns([Str(body.message.s + (if body.stackTrace.Str? then "\n" + body.stackTrace.s else ""))])
    else if body.ObjectBody? && body.pageErrors.Some? && |body.pageErrors.value| > 0 then
      Returns([body.pageErrors.value[0]])
    else if e.message.Str? then Returns([e.message])
    else Returns([e.statusText])
  }

  /** The `.map` over all present errors; the first one that throws ends it. */
  function ExtractAll(items: seq<ErrorItem>): Outcome<seq<seq<Value>>>
    requires forall i :: 0 <= i < |items| ==> items[i].ErrorObject?
  {
    if items == [] then Returns([])
    else
      match Extract(items[0])
      case Throws => Throws
      case Returns(ms) =>
        (match ExtractAll(items[1..])
         case Throws => Throws
         case Returns(rest) => Returns([ms] + rest))
  }

  /** `.reduce((prev, curr) => prev.concat(curr), [])`. */
  function Flatten(xss: seq<seq<Value>>): seq<Value>
  {
    if xss == [] then [] else xss[0] + Flatten(xss[1..])
  }

  /** `.filter((message) => !!message)`. */
  function KeepTruthy(xs: seq<Value>): (r: seq<Value>)
    ensures forall i :: 0 <= i < |r| ==> Truthy(r[i])
    ensures |r| <= |xs|
  {
    if xs == [] then []
    else if Truthy(xs[0]) then [xs[0]] + KeepTruthy(xs[1..])
    else KeepTruthy(xs[1..])
  }

  /** `reduceErrors(errors)`. */
  function Reduce(errors: Errors): Outcome<seq<Value>>
  {
    match ExtractAll(Present(AsList(errors)))
    case Throws => Throws
    case Returns(xss) => Returns(KeepTruthy(Flatten(xss)))
  }

  /** Every message the reduction returns is truthy: no empty string, null or
      undefined survives. */
  lemma MessagesAreTruthy(errors: Errors)
    requires Reduce(errors).Returns?
    ensures forall i :: 0 <= i < |Reduce(errors).value| ==> Truthy(Reduce(errors).value[i])
  {
  }

  /** A lone error is reduced as the one-element list holding it. */
  lemma SingleIsOneElementList(e: ErrorItem)
    ensures Reduce(One(e)) == Reduce(Many([e]))
  {
  }

  /** Null and undefined entries are dropped wherever they stand. */
  lemma {:induction false} FalsyEntriesDropped(a: seq<ErrorItem>, b: seq<ErrorItem>)
    ensures Reduce(Many(a + [Falsy] + b)) == Reduce(Many(a + b))
  {
    PresentAppend(a + [Falsy], b);
    PresentAppend(a, [Falsy]);
    PresentAppend(a, b);
    assert Present([Falsy]) == [];
    assert Present(a + [Falsy]) == Present(a);
  }

  lemma {:induction false} PresentAppend(a: seq<ErrorItem>, b: seq<ErrorItem>)
    ensures Present(a + b) == Present(a) + Present(b)
  {
    if a == [] {
      assert a + b == b;
    } else {
      assert (a + b)[1..] == a[1..] + b;
      PresentAppend(a[1..], b);
    }
  }

  lemma {:induction false} ExtractAllAppend(a: seq<ErrorItem>, b: seq<ErrorItem>)
    requires forall i :: 0 <= i < |a| ==> a[i].ErrorObject?
    requires forall i :: 0 <= i < |b| ==> b[i].ErrorObject?
    ensures ExtractAll(a + b).Returns? <==> ExtractAll(a).Returns? && ExtractAll(b).Returns?
    ensures ExtractAll(a + b).Returns? ==> ExtractAll(a + b).value == ExtractAll(a).value + ExtractAll(b).value
  {
    if a == [] {
      assert a + b == b;
    } else {
      assert (a + b)[1..] == a[1..] + b;
      assert (a + b)[0] == a[0];
      ExtractAllAppend(a[1..], b);
    }
  }

  lemma {:induction false} FlattenAppend(a: seq<seq<Value>>, b: seq<seq<Value>>)
    ensures Flatten(a + b) == Flatten(a) + Flatten(b)
  {
    if a == [] {
      assert a + b == b;
    } else {
      assert (a + b)[1..] == a[1..] + b;
      FlattenAppend(a[1..], b);
    }
  }

  lemma {:induction false} KeepTruthyAppend(a: seq<Value>, b: seq<Value>)
    ensures KeepTruthy(a + b) == KeepTruthy(a) + KeepTruthy(b)
  {
    if a == [] {
      assert a + b == b;
    } else {
      assert (a + b)[1..] == a[1..] + b;
      KeepTruthyAppend(a[1..], b);
    }
  }

  /** Messages keep the order of the errors: reducing a concatenation of two lists
      gives the messages of the first list followed by those of the second, and the
      whole reduction throws exactly when one of the halves does. */
  lemma {:induction false} ReduceAppend(a: seq<ErrorItem>, b: seq<ErrorItem>)
    ensures Reduce(Many(a + b)).Returns? <==> Reduce(Many(a)).Returns? && Reduce(Many(b)).Returns?
    ensures Reduce(Many(a + b)).Returns? ==>
      Reduce(Many(a + b)).value == Reduce(Many(a)).value + Reduce(Many(b)).value
  {
    PresentAppend(a, b);
    ExtractAllAppend(Present(a), Present(b));
    if ExtractAll(Present(a + b)).Returns? {
      FlattenAppend(ExtractAll(Present(a)).value, ExtractAll(Present(b)).value);
      KeepTruthyAppend(Flatten(ExtractAll(Present(a)).value), Flatten(ExtractAll(Present(b)).value));
    }
  }

  /** A lone error object is reduced to the truthy part of its own messages. */
  lemma ReduceSingle(e: ErrorItem)
    requires e.ErrorObject?
    ensures Extract(e).Throws? ==> Reduce(One(e)) == Throws
    ensures Extract(e).Returns? ==> Reduce(One(e)) == Returns(KeepTruthy(Extract(e).value))
  {
    assert [e][1..] == [];
    assert Present([e]) == [e];
    if Extract(e).Returns? {
      var ms := Extract(e).value;
      assert ExtractAll([e][1..]) == Returns([]);
      assert [ms] + [] == [ms];
      assert ExtractAll([e]) == Returns([ms]);
      assert [ms][1..] == [];
      assert Flatten([ms]) == ms + Flatten([]);
      assert ms + [] == ms;
    }
  }

  /** An error whose body is an array yields one message per entry of the body,
      whatever else the error carries; only falsy entries are dropped. */
  lemma ArrayBodyGivesEntryMessages(ms: seq<Value>, message: Value, statusText: Value)
    ensures Reduce(One(ErrorObject(ArrayBody(ms), message, statusText))) == Returns(KeepTruthy(ms))
  {
    ReduceSingle(ErrorObject(ArrayBody(ms), message, statusText));
  }

  /** A record error reports the message of its first error when that error's code
      contains an underscore. */
  lemma RecordErrorWithCode(b: Body, message: Value, statusText: Value)
    requires IsRecordError(b)
    requires |b.output.value.errors| > 0 && '_' in b.output.value.errors[0].errorCode
    ensures Reduce(One(ErrorObject(b, message, statusText)))
         == Returns(KeepTruthy([b.output.value.errors[0].message]))
  {
    ReduceSingle(ErrorObject(b, message, statusText));
  }

  /** With no errors listed, a record error reports the first message of its first
      field error, and throws when that message does not exist. */
  lemma RecordErrorFromFieldErrors(b: Body, message: Value, statusText: Value)
    requires IsRecordError(b)
    requires |b.output.value.errors| == 0 && b.output.value.fieldErrors.Some?
    ensures var fe := b.output.value.fieldErrors.value;
      && (|fe| == 0 || |fe[0]| == 0 ==> Reduce(One(ErrorObject(b, message, statusText))) == Throws)
      && (|fe| > 0 && |fe[0]| > 0 ==>
            Reduce(One(ErrorObject(b, message, statusText))) == Returns(KeepTruthy([fe[0][0]])))
  {
    ReduceSingle(ErrorObject(b, message, statusText));
  }

  /** Any other record error reports nothing: its empty message is filtered out, and
      neither the body's message nor the outer message is consulted. */
  lemma RecordErrorOtherwiseEmpty(b: Body, message: Value, statusText: Value)
    requires IsRecordError(b)
    requires !(|b.output.value.errors| > 0 && '_' in b.output.value.errors[0].errorCode)
    requires !(|b.output.value.errors| == 0 && b.output.value.fieldErrors.Some?)
    ensures Reduce(One(ErrorObject(b, message, statusText))) == Returns([])
  {
    ReduceSingle(ErrorObject(b, message, statusText));
  }

  /** The precedence of the remaining shapes: a string `body.message` (with the
      stack trace appended when that is a string) beats the page errors, which beat
      `error.message`, which beats `statusText`. */
  lemma ShapePrecedence(e: ErrorItem)
    requires e.ErrorObject? && !e.body.ArrayBody? && !IsRecordError(e.body)
    ensures var b := e.body;
      var r := Reduce(One(e));
      && (b.ObjectBody? && b.message.Str? ==>
            r == Returns(KeepTruthy([Str(b.message.s + (if b.stackTrace.Str? then "\n" + b.stackTrace.s else ""))])))
      && (b.ObjectBody? && !b.message.Str? && b.pageErrors.Some? && |b.pageErrors.value| > 0 ==>
            r == Returns(KeepTruthy([b.pageErrors.value[0]])))
      && (!(b.ObjectBody? && (b.message.Str? || (b.pageErrors.Some? && |b.pageErrors.value| > 0))) ==>
            r == Returns(KeepTruthy([if e.message.Str? then e.message else e.statusText])))
  {
    ReduceSingle(e);
  }
}
