/**
  What the five validators of lib/RouteSchemaManager.js compute
  (`validatePath`, `validateQuery`, `validatePayload`, `validateHeaders`,
  `validateResponse`) and the file-payload policy `validateFileProperties`,
  as functions of the cache, the route and the surface's value.

  Each request validator returns the report and the value its surface holds
  afterwards (coercion converts an object or array in place), or the error
  the coercion raises.
 */
module Validators {
  import opened Json
  import opened JsString
  import opened SchemaKeys
  import opened Coercion
  import opened QueryArrays

  /**
    The JSON Schema evaluator, seen from the engine: whether a schema is
    well formed, whether a value satisfies a schema, and the errors of that
    last evaluation.
   */
  datatype Evaluator = Evaluator(
    validateSchema: JValue -> bool,
    validate: (JValue, JValue) -> bool,
    lastErrors: (JValue, JValue) -> JValue)

  /** A report `{valid, errors}`; `None` is an absent `errors` field. */
  datatype Report = Report(valid: bool, errors: Option<JValue>)

  /** `{ valid: true }`. */
  const ValidReport := Report(true, None)

  /** The report's `errors` field is present exactly when it is invalid. */
  predicate ErrorsIffInvalid(r: Report)
  {
    r.errors.Some? <==> !r.valid
  }

  /** `{valid: validator.validate(value, schema)}`, with `errors` from `getLastErrors()` when invalid. */
  function Evaluate(ev: Evaluator, value: JValue, schema: JValue): (r: Report)
    ensures r.valid == ev.validate(value, schema)
    ensures ErrorsIffInvalid(r)
  {
    if ev.validate(value, schema) then ValidReport else Report(false, Some(ev.lastErrors(value, schema)))
  }

  /** A validator's report, with the value its surface holds afterwards. */
  datatype Checked = Checked(report: Report, value: JValue)

  /** Coerce the surface in place against `schema`, then evaluate the result. */
  function CoerceAndEvaluate(value: JValue, schema: JValue, force: bool, ev: Evaluator, toNumber: string -> NumResult): (r: Outcome<Checked>)
    ensures r.Throws? <==> CoerceThrows(value, schema, force)
    ensures r.Returns? ==>
      && r.value.value == CoerceInPlace(value, schema, force, toNumber).value
      && r.value.report == Evaluate(ev, r.value.value, schema)
  {
    match CoerceInPlace(value, schema, force, toNumber)
    case Throws(e) => Throws(e)
    case Returns(v) => Returns(Checked(Evaluate(ev, v, schema), v))
  }

  /** `validatePath(request)`: path parameters are coerced without array wrapping. */
  function ValidatePathSpec(cache: map<string, JValue>, route: Route, pluginName: string, params: JValue,
                            ev: Evaluator, toNumber: string -> NumResult): Outcome<Checked>
  {
    match SchemaFor(cache, route, pluginName, Path)
    case None => Returns(Checked(ValidReport, params))
    case Some(schema) => CoerceAndEvaluate(params, schema, false, ev, toNumber)
  }

  /** `validateQuery(request)`: `name[i]` keys become arrays, then coercion wraps lone strings. */
  function ValidateQuerySpec(cache: map<string, JValue>, route: Route, pluginName: string, query: JValue,
                             ev: Evaluator, toNumber: string -> NumResult): Outcome<Checked>
  {
    match SchemaFor(cache, route, pluginName, Query)
    case None => Returns(Checked(ValidReport, query))
    case Some(schema) => CoerceAndEvaluate(NormalizeQuery(query), schema, true, ev, toNumber)
  }

  /** `validateHeaders(request)`: headers are coerced with array wrapping. */
  function ValidateHeadersSpec(cache: map<string, JValue>, route: Route, pluginName: string, headers: JValue,
                               ev: Evaluator, toNumber: string -> NumResult): Outcome<Checked>
  {
    match SchemaFor(cache, route, pluginName, Headers)
    case None => Returns(Checked(ValidReport, headers))
    case Some(schema) => CoerceAndEvaluate(headers, schema, true, ev, toNumber)
  }

  /** `validateResponse(request)`: the response source is evaluated as it is. */
  function ValidateResponseSpec(cache: map<string, JValue>, route: Route, pluginName: string, source: JValue, ev: Evaluator): Report
  {
    match SchemaFor(cache, route, pluginName, Response)
    case None => ValidReport
    case Some(schema) => Evaluate(ev, source, schema)
  }

  // ----- the payload -----

  /** The report for a payload with content but no content-type header. */
  const MissingContentTypeReport :=
    Report(false, Some(JArr([JStr("unable to validate payload: missing content-type header and had content")])))

  /** `invalidFileInPayload`. */
  const InvalidFileReport :=
    Report(false, Some(JArr([JObj([("code", JStr("INVALID_TYPE")), ("message", JStr("Invalid multipart payload format"))])])))

  /** `typeof payload === 'object' && Object.keys(payload).length === 0`. */
  predicate EmptyObject(payload: JValue)
  {
    payload == JObj([]) || payload == JArr([])
  }

  /** The first check of `validatePayload`: a content-less request needs no content-type. */
  predicate MissingContentType(contentType: JValue, payload: JValue)
  {
    !Truthy(contentType) && Truthy(payload) && !EmptyObject(payload)
  }

  /** `isStream.readable(v)`. */
  predicate ReadableStream(v: JValue)
  {
    v == JStream(true)
  }

  /** A value on the right of `in`: anything else raises a TypeError. */
  predicate InOperand(v: JValue)
  {
    v.JObj? || v.JArr? || v.JStream?
  }

  /** `prop in payload`, for the own keys of a plain object. */
  predicate HasProperty(payload: JValue, prop: string)
  {
    payload.JObj? && prop in KeysOf(payload.fields)
  }

  /** `validateFileProperties`' two flags. */
  datatype FileCheck = FileCheck(isFilePayload: bool, hasError: bool)

  /** Reading `.type` of a declared property's schema, or `prop in payload`, raises. */
  predicate FilePropThrows(f: (string, JValue), payload: JValue)
  {
    NullOrUndefined(f.1) || (IsType(f.1, "file") && !InOperand(payload))
  }

  /** A declared file field is present in the payload but is not a readable stream. */
  predicate BadFileField(f: (string, JValue), payload: JValue)
  {
    IsType(f.1, "file") && HasProperty(payload, f.0) && !ReadableStream(Prop(payload, f.0))
  }

  /** The `forEach` callback for one declared property. */
  function FilePropStep(acc: FileCheck, f: (string, JValue), payload: JValue): Outcome<FileCheck>
  {
    if NullOrUndefined(f.1) then Throws(TypeError)
    else if !IsType(f.1, "file") then Returns(acc)
    else if !InOperand(payload) then Throws(TypeError)
    else Returns(FileCheck(true, acc.hasError || BadFileField(f, payload)))
  }

  /** The callback run over the declared properties, in order. */
  function FileScan(pfs: Fields, payload: JValue, acc: FileCheck): Outcome<FileCheck>
  {
    if |pfs| == 0 then Returns(acc)
    else
      match FileScan(pfs[..|pfs| - 1], payload, acc)
      case Throws(e) => Throws(e)
      case Returns(a) => FilePropStep(a, pfs[|pfs| - 1], payload)
  }

  /** Some declared property makes the callback raise. */
  predicate SomePropThrows(pfs: Fields, payload: JValue)
  {
    exists i :: 0 <= i < |pfs| && FilePropThrows(pfs[i], payload)
  }

  /** Some declared property has type `file`. */
  predicate SomeFileProp(pfs: Fields)
  {
    exists i :: 0 <= i < |pfs| && IsType(pfs[i].1, "file")
  }

  /** Some declared file field is present but not a readable stream. */
  predicate SomeBadFileField(pfs: Fields, payload: JValue)
  {
    exists i :: 0 <= i < |pfs| && BadFileField(pfs[i], payload)
  }

  /**
    The scan raises exactly when some declared property does; otherwise the
    payload is a file payload when some property has type `file`, and it is
    in error when some file field is present but not readable.
   */
  lemma FileScanCharacterised(pfs: Fields, payload: JValue, acc: FileCheck)
    ensures FileScan(pfs, payload, acc).Throws? <==> SomePropThrows(pfs, payload)
    ensures FileScan(pfs, payload, acc).Returns? ==>
      && (FileScan(pfs, payload, acc).value.isFilePayload <==> acc.isFilePayload || SomeFileProp(pfs))
      && (FileScan(pfs, payload, acc).value.hasError <==> acc.hasError || SomeBadFileField(pfs, payload))
  {
    FileScanThrowsIff(pfs, payload, acc);
    if FileScan(pfs, payload, acc).Returns? {
      FileScanFlags(pfs, payload, acc);
    }
  }

  /** The scan of all properties is the scan before the last one, then the last one's callback. */
  lemma FileScanLast(pfs: Fields, payload: JValue, acc: FileCheck)
    requires |pfs| > 0
    ensures FileScan(pfs, payload, acc) ==
      match FileScan(pfs[..|pfs| - 1], payload, acc)
      case Throws(e) => Throws(e)
      case Returns(a) => FilePropStep(a, pfs[|pfs| - 1], payload)
  {
  }

  /** One callback raises on a missing schema, or on a file schema with a payload `in` cannot search. */
  lemma FilePropStepThrows(a: FileCheck, f: (string, JValue), payload: JValue)
    ensures FilePropStep(a, f, payload).Throws? <==> FilePropThrows(f, payload)
  {
  }

  /** One callback sets the file flag on a `file` property and the error flag on a bad file field. */
  lemma FilePropStepFlags(a: FileCheck, f: (string, JValue), payload: JValue)
    requires FilePropStep(a, f, payload).Returns?
    ensures FilePropStep(a, f, payload).value.isFilePayload == (a.isFilePayload || IsType(f.1, "file"))
    ensures FilePropStep(a, f, payload).value.hasError == (a.hasError || BadFileField(f, payload))
  {
  }

  lemma SomePropThrowsSplit(pfs: Fields, prev: Fields, payload: JValue)
    requires |pfs| > 0 && prev == pfs[..|pfs| - 1]
    ensures SomePropThrows(pfs, payload) <==> SomePropThrows(prev, payload) || FilePropThrows(pfs[|pfs| - 1], payload)
  {
    ExistsSplit(pfs, prev, (f: (string, JValue)) => FilePropThrows(f, payload));
  }

  lemma SomeFilePropSplit(pfs: Fields, prev: Fields)
    requires |pfs| > 0 && prev == pfs[..|pfs| - 1]
    ensures SomeFileProp(pfs) <==> SomeFileProp(prev) || IsType(pfs[|pfs| - 1].1, "file")
  {
    ExistsSplit(pfs, prev, (f: (string, JValue)) => IsType(f.1, "file"));
  }

  lemma SomeBadFileFieldSplit(pfs: Fields, prev: Fields, payload: JValue)
    requires |pfs| > 0 && prev == pfs[..|pfs| - 1]
    ensures SomeBadFileField(pfs, payload) <==> SomeBadFileField(prev, payload) || BadFileField(pfs[|pfs| - 1], payload)
  {
    ExistsSplit(pfs, prev, (f: (string, JValue)) => BadFileField(f, payload));
  }

  lemma {:induction false} FileScanThrowsIff(pfs: Fields, payload: JValue, acc: FileCheck)
    ensures FileScan(pfs, payload, acc).Throws? <==> SomePropThrows(pfs, payload)
  {
    if |pfs| > 0 {
      var n := |pfs| - 1;
      var prev := pfs[..n];
      FileScanThrowsIff(prev, payload, acc);
      FileScanLast(pfs, payload, acc);
      SomePropThrowsSplit(pfs, prev, payload);
      if FileScan(prev, payload, acc).Returns? {
        FilePropStepThrows(FileScan(prev, payload, acc).value, pfs[n], payload);
      }
    }
  }

  lemma {:induction false} FileScanFlags(pfs: Fields, payload: JValue, acc: FileCheck)
    requires FileScan(pfs, payload, acc).Returns?
    ensures FileScan(pfs, payload, acc).value.isFilePayload <==> acc.isFilePayload || SomeFileProp(pfs)
    ensures FileScan(pfs, payload, acc).value.hasError <==> acc.hasError || SomeBadFileField(pfs, payload)
  {
    if |pfs| > 0 {
      var n := |pfs| - 1;
      var prev := pfs[..n];
      FileScanLast(pfs, payload, acc);
      assert FileScan(prev, payload, acc).Returns?;
      var a := FileScan(prev, payload, acc).value;
      assert FileScan(pfs, payload, acc) == FilePropStep(a, pfs[n], payload);
      FileScanFlags(prev, payload, acc);
      FilePropStepFlags(a, pfs[n], payload);
      SomeFilePropSplit(pfs, prev);
      SomeBadFileFieldSplit(pfs, prev, payload);
    }
  }

  /** `validateFileProperties(schema, request)`: a top-level file schema, then each declared property. */
  function FileValidation(schema: JValue, payload: JValue): Outcome<FileCheck>
  {
    match Prop(schema, "properties")
    case JObj(pfs) => FileScan(pfs, payload, FileValidationStart(schema, payload))
    case _ => Returns(FileValidationStart(schema, payload))
  }

  /** `validateFileProperties(schema, request)` as the source runs it, one declared property at a time. */
  method ValidateFileProperties(schema: JValue, payload: JValue) returns (r: Outcome<FileCheck>)
    ensures r == FileValidation(schema, payload)
  {
    var isFilePayload := false;
    var hasFilePayloadError := false;
    var props := Prop(schema, "properties");
    if IsType(schema, "file") && !Truthy(props) {
      isFilePayload := true;
      if !ReadableStream(payload) {
        hasFilePayloadError := true;
      }
    }
    var start := FileCheck(isFilePayload, hasFilePayloadError);
    assert start == FileValidationStart(schema, payload);
    if props.JObj? {
      r := ScanFileProperties(props.fields, payload, start);
    } else {
      r := Returns(start);
    }
  }

  /** The loop over the declared properties of the payload schema, stopping at the first one that raises. */
  method ScanFileProperties(keys: Fields, payload: JValue, start: FileCheck) returns (r: Outcome<FileCheck>)
    ensures r == FileScan(keys, payload, start)
  {
    var acc := start;
    var i := 0;
    while i < |keys|
      invariant 0 <= i <= |keys|
      invariant FileScan(keys[..i], payload, start) == Returns(acc)
    {
      FileScanStep(keys, i, payload, start, acc);
      var o := VisitFileProperty(acc, keys[i], payload);
      if o.Throws? {
        FileScanThrowsPrefix(keys, i + 1, payload, start);
        assert keys[..|keys|] == keys;
        return o;
      }
      acc := o.value;
      i := i + 1;
    }
    assert keys[..i] == keys;
    return Returns(acc);
  }

  /** The `forEach` callback's body for one declared property, updating the two flags. */
  method VisitFileProperty(acc: FileCheck, f: (string, JValue), payload: JValue) returns (o: Outcome<FileCheck>)
    ensures o == FilePropStep(acc, f, payload)
  {
    var (prop, sub) := f;
    if NullOrUndefined(sub) {
      return Throws(TypeError);
    }
    var isFilePayload := acc.isFilePayload;
    var hasFilePayloadError := acc.hasError;
    if IsType(sub, "file") {
      isFilePayload := true;
      if !InOperand(payload) {
        return Throws(TypeError);
      }
      if HasProperty(payload, prop) && !ReadableStream(Prop(payload, prop)) {
        hasFilePayloadError := true;
      }
    }
    return Returns(FileCheck(isFilePayload, hasFilePayloadError));
  }

  /** The flags before the declared properties are visited. */
  function FileValidationStart(schema: JValue, payload: JValue): FileCheck
  {
    var top := IsType(schema, "file") && !Truthy(Prop(schema, "properties"));
    FileCheck(top, top && !ReadableStream(payload))
  }

  /** One more declared property extends the scan of the properties before it. */
  lemma FileScanStep(pfs: Fields, i: int, payload: JValue, acc: FileCheck, a: FileCheck)
    requires 0 <= i < |pfs| && FileScan(pfs[..i], payload, acc) == Returns(a)
    ensures FileScan(pfs[..i + 1], payload, acc) == FilePropStep(a, pfs[i], payload)
  {
    assert pfs[..i + 1][..i] == pfs[..i];
  }

  /** Once a prefix of the properties raises, the whole scan raises the same error. */
  lemma {:induction false} FileScanThrowsPrefix(pfs: Fields, n: nat, payload: JValue, acc: FileCheck)
    requires n <= |pfs| && FileScan(pfs[..n], payload, acc).Throws?
    ensures FileScan(pfs, payload, acc) == FileScan(pfs[..n], payload, acc)
    decreases |pfs| - n
  {
    if n < |pfs| {
      assert pfs[..n + 1][..n] == pfs[..n];
      FileScanThrowsPrefix(pfs, n + 1, payload, acc);
    } else {
      assert pfs[..n] == pfs;
    }
  }

  /** The report of a file payload. */
  function FileReport(fc: FileCheck): Report
  {
    if fc.hasError then InvalidFileReport else ValidReport
  }

  /**
    `headers['content-type'].indexOf(p) === 0` for the two form types: a string
    starts with one of them; an array's first element is one of them; any
    other truthy value has no `indexOf` and raises.
   */
  function FormContent(contentType: JValue): (r: Outcome<bool>)
    ensures r.Throws? <==> Truthy(contentType) && !contentType.JStr? && !contentType.JArr?
  {
    var form, multipart := "application/x-www-form-urlencoded", "multipart/form-data";
    if !Truthy(contentType) then Returns(false)
    else match contentType
      case JStr(s) => Returns(StartsWith(s, form) || StartsWith(s, multipart))
      case JArr(es) => Returns(|es| > 0 && (es[0] == JStr(form) || es[0] == JStr(multipart)))
      case _ => Throws(TypeError)
  }

  /**
    `validatePayload(request)` once a payload schema is cached: the
    content-type check, then the file policy, then coercion for form posts
    only, then evaluation.
   */
  function PayloadCheck(schema: JValue, contentType: JValue, payload: JValue, ev: Evaluator, toNumber: string -> NumResult): Outcome<Checked>
  {
    if MissingContentType(contentType, payload) then Returns(Checked(MissingContentTypeReport, payload))
    else FileCheckThenForm(schema, contentType, payload, ev, toNumber)
  }

  /** The file policy: a file payload is reported without coercion, anything else goes on to the form check. */
  function FileCheckThenForm(schema: JValue, contentType: JValue, payload: JValue, ev: Evaluator, toNumber: string -> NumResult): Outcome<Checked>
  {
    match FileValidation(schema, payload)
    case Throws(e) => Throws(e)
    case Returns(fc) =>
      if fc.isFilePayload then Returns(Checked(FileReport(fc), payload))
      else FormCheck(schema, contentType, payload, ev, toNumber)
  }

  /** The end of the payload check: a form post is converted in place, any other payload is evaluated as it is. */
  function FormCheck(schema: JValue, contentType: JValue, payload: JValue, ev: Evaluator, toNumber: string -> NumResult): Outcome<Checked>
  {
    match FormContent(contentType)
    case Throws(e) => Throws(e)
    case Returns(true) => CoerceAndEvaluate(payload, schema, false, ev, toNumber)
    case Returns(false) => Returns(Checked(Evaluate(ev, payload, schema), payload))
  }

  /**
    What a raise leaves in the payload: the form conversion, the only step
    that changes the payload, has converted part of it in place; an earlier
    step that raises leaves it as it was.
   */
  function PayloadAfterRaise(schema: JValue, contentType: JValue, payload: JValue, toNumber: string -> NumResult): JValue
  {
    if MissingContentType(contentType, payload) then payload
    else FileAfterRaise(schema, contentType, payload, toNumber)
  }

  function FileAfterRaise(schema: JValue, contentType: JValue, payload: JValue, toNumber: string -> NumResult): JValue
  {
    match FileValidation(schema, payload)
    case Throws(_) => payload
    case Returns(fc) => if fc.isFilePayload then payload else FormAfterRaise(schema, contentType, payload, toNumber)
  }

  function FormAfterRaise(schema: JValue, contentType: JValue, payload: JValue, toNumber: string -> NumResult): JValue
  {
    if FormContent(contentType) == Returns(true) then CoercePartial(payload, schema, false, toNumber) else payload
  }

  /**
    The steps of `validatePayload` after the schema lookup, on the payload's
    value: the content-type check, the file policy, then the conversion of a
    form post, whose result replaces the payload. `after` is the payload
    once the steps are over, whether they return or raise.
   */
  method CheckPayload(schema: JValue, contentType: JValue, payload: JValue, ev: Evaluator, toNumber: string -> NumResult)
    returns (r: Outcome<Checked>, after: JValue)
    requires WellFormed(schema) && WellFormed(payload)
    ensures r == PayloadCheck(schema, contentType, payload, ev, toNumber)
    ensures after == if r.Throws? then PayloadAfterRaise(schema, contentType, payload, toNumber) else r.value.value
  {
    if MissingContentType(contentType, payload) {
      return Returns(Checked(MissingContentTypeReport, payload)), payload;
    }
    r, after := CheckFilePolicy(schema, contentType, payload, ev, toNumber);
  }

  /** The file properties are visited first; only a payload that is not a file goes on to the form check. */
  method CheckFilePolicy(schema: JValue, contentType: JValue, payload: JValue, ev: Evaluator, toNumber: string -> NumResult)
    returns (r: Outcome<Checked>, after: JValue)
    requires WellFormed(schema) && WellFormed(payload)
    ensures r == FileCheckThenForm(schema, contentType, payload, ev, toNumber)
    ensures after == if r.Throws? then FileAfterRaise(schema, contentType, payload, toNumber) else r.value.value
  {
    var fileValidation := ValidateFileProperties(schema, payload);
    if fileValidation.Throws? {
      return Throws(fileValidation.error), payload;
    }
    if fileValidation.value.isFilePayload {
      return Returns(Checked(FileReport(fileValidation.value), payload)), payload;
    }
    r, after := CheckFormPayload(schema, contentType, payload, ev, toNumber);
  }

  /** The content-type test for a form post, then the conversion in place and the evaluation. */
  method CheckFormPayload(schema: JValue, contentType: JValue, payload: JValue, ev: Evaluator, toNumber: string -> NumResult)
    returns (r: Outcome<Checked>, after: JValue)
    requires WellFormed(schema) && WellFormed(payload)
    ensures r == FormCheck(schema, contentType, payload, ev, toNumber)
    ensures after == if r.Throws? then FormAfterRaise(schema, contentType, payload, toNumber) else r.value.value
  {
    var form := FormContent(contentType);
    if form.Throws? {
      return Throws(form.error), payload;
    }
    if !form.value {
      return Returns(Checked(Evaluate(ev, payload, schema), payload)), payload;
    }
    r, after := CoerceFormPayload(schema, payload, ev, toNumber);
  }

  /** A form post is converted in place, then evaluated. */
  method CoerceFormPayload(schema: JValue, payload: JValue, ev: Evaluator, toNumber: string -> NumResult)
    returns (r: Outcome<Checked>, after: JValue)
    requires WellFormed(schema) && WellFormed(payload)
    ensures r == CoerceAndEvaluate(payload, schema, false, ev, toNumber)
    ensures after == if r.Throws? then CoercePartial(payload, schema, false, toNumber) else r.value.value
  {
    var converted, value := ConvertPropertyTypesToMatchSchema(payload, schema, false, toNumber);
    if converted.Throws? {
      return Throws(converted.error), value;
    }
    return Returns(Checked(Evaluate(ev, value, schema), value)), value;
  }

  /** The payload after the check is still well formed. */
  lemma PayloadCheckWellFormed(schema: JValue, contentType: JValue, payload: JValue, ev: Evaluator, toNumber: string -> NumResult)
    requires WellFormed(schema) && WellFormed(payload)
    requires PayloadCheck(schema, contentType, payload, ev, toNumber).Returns?
    ensures WellFormed(PayloadCheck(schema, contentType, payload, ev, toNumber).value.value)
  {
    PayloadCheckValue(schema, contentType, payload, ev, toNumber);
    if payload.JObj? || payload.JArr? {
      CoerceKeepsWellFormed(payload, schema, false, toNumber);
    }
  }

  /** The payload a raise leaves behind is still well formed. */
  lemma PayloadAfterRaiseWellFormed(schema: JValue, contentType: JValue, payload: JValue, toNumber: string -> NumResult)
    requires WellFormed(payload)
    ensures WellFormed(PayloadAfterRaise(schema, contentType, payload, toNumber))
  {
    PartialKeepsWellFormed(payload, schema, false, toNumber);
  }

  /** `validatePayload(request)`. */
  function ValidatePayloadSpec(cache: map<string, JValue>, route: Route, pluginName: string, contentType: JValue, payload: JValue,
                               ev: Evaluator, toNumber: string -> NumResult): Outcome<Checked>
  {
    match SchemaFor(cache, route, pluginName, Payload)
    case None => Returns(Checked(ValidReport, payload))
    case Some(schema) => PayloadCheck(schema, contentType, payload, ev, toNumber)
  }

  // ----- properties of the validators -----

  /**
    With no cached schema for its surface, every validator reports exactly
    `{valid: true}` and leaves the surface as it was.
   */
  lemma NoSchemaMeansValid(cache: map<string, JValue>, route: Route, pluginName: string, value: JValue, contentType: JValue,
                           ev: Evaluator, toNumber: string -> NumResult)
    ensures SchemaFor(cache, route, pluginName, Path).None? ==>
      ValidatePathSpec(cache, route, pluginName, value, ev, toNumber) == Returns(Checked(ValidReport, value))
    ensures SchemaFor(cache, route, pluginName, Query).None? ==>
      ValidateQuerySpec(cache, route, pluginName, value, ev, toNumber) == Returns(Checked(ValidReport, value))
    ensures SchemaFor(cache, route, pluginName, Headers).None? ==>
      ValidateHeadersSpec(cache, route, pluginName, value, ev, toNumber) == Returns(Checked(ValidReport, value))
    ensures SchemaFor(cache, route, pluginName, Payload).None? ==>
      ValidatePayloadSpec(cache, route, pluginName, contentType, value, ev, toNumber) == Returns(Checked(ValidReport, value))
    ensures SchemaFor(cache, route, pluginName, Response).None? ==>
      ValidateResponseSpec(cache, route, pluginName, value, ev) == ValidReport
  {
  }

  /** With a cached schema, the query check coerces the query after the `name[i]` conversion. */
  lemma QuerySpecWithSchema(cache: map<string, JValue>, route: Route, pluginName: string, query: JValue, schema: JValue,
                            ev: Evaluator, toNumber: string -> NumResult)
    requires SchemaFor(cache, route, pluginName, Query) == Some(schema)
    ensures ValidateQuerySpec(cache, route, pluginName, query, ev, toNumber)
         == CoerceAndEvaluate(NormalizeQuery(query), schema, true, ev, toNumber)
  {
  }

  /** With a cached schema, the path check coerces the parameters as they are. */
  lemma PathSpecWithSchema(cache: map<string, JValue>, route: Route, pluginName: string, params: JValue, schema: JValue,
                           ev: Evaluator, toNumber: string -> NumResult)
    requires SchemaFor(cache, route, pluginName, Path) == Some(schema)
    ensures ValidatePathSpec(cache, route, pluginName, params, ev, toNumber) == CoerceAndEvaluate(params, schema, false, ev, toNumber)
  {
  }

  /** With a cached schema, the headers check coerces the raw headers, forcing array conversion. */
  lemma HeadersSpecWithSchema(cache: map<string, JValue>, route: Route, pluginName: string, headers: JValue, schema: JValue,
                              ev: Evaluator, toNumber: string -> NumResult)
    requires SchemaFor(cache, route, pluginName, Headers) == Some(schema)
    ensures ValidateHeadersSpec(cache, route, pluginName, headers, ev, toNumber) == CoerceAndEvaluate(headers, schema, true, ev, toNumber)
  {
  }

  /** With a cached schema, the payload check runs the content-type, file and form steps. */
  lemma PayloadSpecWithSchema(cache: map<string, JValue>, route: Route, pluginName: string, contentType: JValue, payload: JValue,
                              schema: JValue, ev: Evaluator, toNumber: string -> NumResult)
    requires SchemaFor(cache, route, pluginName, Payload) == Some(schema)
    ensures ValidatePayloadSpec(cache, route, pluginName, contentType, payload, ev, toNumber)
         == PayloadCheck(schema, contentType, payload, ev, toNumber)
  {
  }

  /** Every report a validator returns has `errors` exactly when it is invalid. */
  lemma ReportsCarryErrorsIffInvalid(cache: map<string, JValue>, route: Route, pluginName: string, value: JValue, contentType: JValue,
                                     ev: Evaluator, toNumber: string -> NumResult)
    ensures ValidatePathSpec(cache, route, pluginName, value, ev, toNumber).Returns? ==>
      ErrorsIffInvalid(ValidatePathSpec(cache, route, pluginName, value, ev, toNumber).value.report)
    ensures ValidateQuerySpec(cache, route, pluginName, value, ev, toNumber).Returns? ==>
      ErrorsIffInvalid(ValidateQuerySpec(cache, route, pluginName, value, ev, toNumber).value.report)
    ensures ValidateHeadersSpec(cache, route, pluginName, value, ev, toNumber).Returns? ==>
      ErrorsIffInvalid(ValidateHeadersSpec(cache, route, pluginName, value, ev, toNumber).value.report)
    ensures ValidatePayloadSpec(cache, route, pluginName, contentType, value, ev, toNumber).Returns? ==>
      ErrorsIffInvalid(ValidatePayloadSpec(cache, route, pluginName, contentType, value, ev, toNumber).value.report)
    ensures ErrorsIffInvalid(ValidateResponseSpec(cache, route, pluginName, value, ev))
  {
    PathReportErrorsIffInvalid(cache, route, pluginName, value, ev, toNumber);
    QueryReportErrorsIffInvalid(cache, route, pluginName, value, ev, toNumber);
    HeadersReportErrorsIffInvalid(cache, route, pluginName, value, ev, toNumber);
    SurfacePayloadErrorsIffInvalid(cache, route, pluginName, value, contentType, ev, toNumber);
  }

  lemma PathReportErrorsIffInvalid(cache: map<string, JValue>, route: Route, pluginName: string, value: JValue, ev: Evaluator, toNumber: string -> NumResult)
    ensures ValidatePathSpec(cache, route, pluginName, value, ev, toNumber).Returns? ==>
      ErrorsIffInvalid(ValidatePathSpec(cache, route, pluginName, value, ev, toNumber).value.report)
  {
    var sp := SchemaFor(cache, route, pluginName, Path);
    if sp.Some? {
      CoercedReportErrorsIffInvalid(value, sp.value, false, ev, toNumber);
    }
  }

  lemma QueryReportErrorsIffInvalid(cache: map<string, JValue>, route: Route, pluginName: string, value: JValue, ev: Evaluator, toNumber: string -> NumResult)
    ensures ValidateQuerySpec(cache, route, pluginName, value, ev, toNumber).Returns? ==>
      ErrorsIffInvalid(ValidateQuerySpec(cache, route, pluginName, value, ev, toNumber).value.report)
  {
    var sq := SchemaFor(cache, route, pluginName, Query);
    if sq.Some? {
      CoercedReportErrorsIffInvalid(NormalizeQuery(value), sq.value, true, ev, toNumber);
    }
  }

  lemma HeadersReportErrorsIffInvalid(cache: map<string, JValue>, route: Route, pluginName: string, value: JValue, ev: Evaluator, toNumber: string -> NumResult)
    ensures ValidateHeadersSpec(cache, route, pluginName, value, ev, toNumber).Returns? ==>
      ErrorsIffInvalid(ValidateHeadersSpec(cache, route, pluginName, value, ev, toNumber).value.report)
  {
    var sh := SchemaFor(cache, route, pluginName, Headers);
    if sh.Some? {
      CoercedReportErrorsIffInvalid(value, sh.value, true, ev, toNumber);
    }
  }

  lemma SurfacePayloadErrorsIffInvalid(cache: map<string, JValue>, route: Route, pluginName: string, value: JValue, contentType: JValue, ev: Evaluator, toNumber: string -> NumResult)
    ensures ValidatePayloadSpec(cache, route, pluginName, contentType, value, ev, toNumber).Returns? ==>
      ErrorsIffInvalid(ValidatePayloadSpec(cache, route, pluginName, contentType, value, ev, toNumber).value.report)
  {
    var sb := SchemaFor(cache, route, pluginName, Payload);
    if sb.Some? {
      PayloadReportErrorsIffInvalid(sb.value, contentType, value, ev, toNumber);
    }
  }

  lemma CoercedReportErrorsIffInvalid(value: JValue, schema: JValue, force: bool, ev: Evaluator, toNumber: string -> NumResult)
    ensures CoerceAndEvaluate(value, schema, force, ev, toNumber).Returns? ==>
      ErrorsIffInvalid(CoerceAndEvaluate(value, schema, force, ev, toNumber).value.report)
  {
  }

  lemma PayloadReportErrorsIffInvalid(schema: JValue, contentType: JValue, payload: JValue, ev: Evaluator, toNumber: string -> NumResult)
    ensures PayloadCheck(schema, contentType, payload, ev, toNumber).Returns? ==>
      ErrorsIffInvalid(PayloadCheck(schema, contentType, payload, ev, toNumber).value.report)
  {
    if !MissingContentType(contentType, payload) {
      FilePolicyErrorsIffInvalid(schema, contentType, payload, ev, toNumber);
    }
  }

  /** The reports of the file policy and of the form check carry errors exactly when invalid. */
  lemma FilePolicyErrorsIffInvalid(schema: JValue, contentType: JValue, payload: JValue, ev: Evaluator, toNumber: string -> NumResult)
    ensures FileCheckThenForm(schema, contentType, payload, ev, toNumber).Returns? ==>
      ErrorsIffInvalid(FileCheckThenForm(schema, contentType, payload, ev, toNumber).value.report)
  {
    var fv := FileValidation(schema, payload);
    if fv.Returns? && !fv.value.isFilePayload {
      FormCheckErrorsIffInvalid(schema, contentType, payload, ev, toNumber);
    }
  }

  /** The report of the form check carries errors exactly when invalid. */
  lemma FormCheckErrorsIffInvalid(schema: JValue, contentType: JValue, payload: JValue, ev: Evaluator, toNumber: string -> NumResult)
    ensures FormCheck(schema, contentType, payload, ev, toNumber).Returns? ==>
      ErrorsIffInvalid(FormCheck(schema, contentType, payload, ev, toNumber).value.report)
  {
    if FormContent(contentType) == Returns(true) {
      CoercedReportErrorsIffInvalid(payload, schema, false, ev, toNumber);
    }
  }


  /**
    Callers discard coercion's result, so a surface whose root is neither
    an object nor an array is never changed, not even wrapped.
   */
  lemma ScalarSurfaceUnchanged(cache: map<string, JValue>, route: Route, pluginName: string, value: JValue, contentType: JValue,
                               ev: Evaluator, toNumber: string -> NumResult)
    requires !value.JObj? && !value.JArr?
    ensures ValidatePathSpec(cache, route, pluginName, value, ev, toNumber).Returns? ==>
      ValidatePathSpec(cache, route, pluginName, value, ev, toNumber).value.value == value
    ensures ValidateQuerySpec(cache, route, pluginName, value, ev, toNumber).Returns? ==>
      ValidateQuerySpec(cache, route, pluginName, value, ev, toNumber).value.value == value
    ensures ValidateHeadersSpec(cache, route, pluginName, value, ev, toNumber).Returns? ==>
      ValidateHeadersSpec(cache, route, pluginName, value, ev, toNumber).value.value == value
    ensures ValidatePayloadSpec(cache, route, pluginName, contentType, value, ev, toNumber).Returns? ==>
      ValidatePayloadSpec(cache, route, pluginName, contentType, value, ev, toNumber).value.value == value
  {
    ScalarPathUnchanged(cache, route, pluginName, value, ev, toNumber);
    ScalarQueryUnchanged(cache, route, pluginName, value, ev, toNumber);
    ScalarHeadersUnchanged(cache, route, pluginName, value, ev, toNumber);
    ScalarPayloadUnchanged(cache, route, pluginName, value, contentType, ev, toNumber);
  }

  lemma ScalarPathUnchanged(cache: map<string, JValue>, route: Route, pluginName: string, value: JValue, ev: Evaluator, toNumber: string -> NumResult)
    requires !value.JObj? && !value.JArr?
    ensures ValidatePathSpec(cache, route, pluginName, value, ev, toNumber).Returns? ==>
      ValidatePathSpec(cache, route, pluginName, value, ev, toNumber).value.value == value
  {
    var sp := SchemaFor(cache, route, pluginName, Path);
    if sp.Some? {
      ScalarNotCoerced(value, sp.value, false, ev, toNumber);
    }
  }

  lemma ScalarQueryUnchanged(cache: map<string, JValue>, route: Route, pluginName: string, value: JValue, ev: Evaluator, toNumber: string -> NumResult)
    requires !value.JObj? && !value.JArr?
    ensures ValidateQuerySpec(cache, route, pluginName, value, ev, toNumber).Returns? ==>
      ValidateQuerySpec(cache, route, pluginName, value, ev, toNumber).value.value == value
  {
    var sq := SchemaFor(cache, route, pluginName, Query);
    if sq.Some? {
      assert NormalizeQuery(value) == value;
      ScalarNotCoerced(value, sq.value, true, ev, toNumber);
    }
  }

  lemma ScalarHeadersUnchanged(cache: map<string, JValue>, route: Route, pluginName: string, value: JValue, ev: Evaluator, toNumber: string -> NumResult)
    requires !value.JObj? && !value.JArr?
    ensures ValidateHeadersSpec(cache, route, pluginName, value, ev, toNumber).Returns? ==>
      ValidateHeadersSpec(cache, route, pluginName, value, ev, toNumber).value.value == value
  {
    var sh := SchemaFor(cache, route, pluginName, Headers);
    if sh.Some? {
      ScalarNotCoerced(value, sh.value, true, ev, toNumber);
    }
  }

  lemma ScalarPayloadUnchanged(cache: map<string, JValue>, route: Route, pluginName: string, value: JValue, contentType: JValue, ev: Evaluator, toNumber: string -> NumResult)
    requires !value.JObj? && !value.JArr?
    ensures ValidatePayloadSpec(cache, route, pluginName, contentType, value, ev, toNumber).Returns? ==>
      ValidatePayloadSpec(cache, route, pluginName, contentType, value, ev, toNumber).value.value == value
  {
    var sb := SchemaFor(cache, route, pluginName, Payload);
    if sb.Some? && PayloadCheck(sb.value, contentType, value, ev, toNumber).Returns? {
      PayloadCheckValue(sb.value, contentType, value, ev, toNumber);
      ScalarNotCoerced(value, sb.value, false, ev, toNumber);
    }
  }

  lemma ScalarNotCoerced(value: JValue, schema: JValue, force: bool, ev: Evaluator, toNumber: string -> NumResult)
    requires !value.JObj? && !value.JArr?
    ensures CoerceAndEvaluate(value, schema, force, ev, toNumber).Returns? ==>
      CoerceAndEvaluate(value, schema, force, ev, toNumber).value.value == value
  {
  }

  /** The payload after the check is the original one, or its in-place coercion on a form post that is not a file payload. */
  lemma PayloadCheckValue(schema: JValue, contentType: JValue, payload: JValue, ev: Evaluator, toNumber: string -> NumResult)
    requires PayloadCheck(schema, contentType, payload, ev, toNumber).Returns?
    ensures var c := PayloadCheck(schema, contentType, payload, ev, toNumber).value;
      || c.value == payload
      || (&& FormContent(contentType) == Returns(true)
          && FileValidation(schema, payload).Returns? && !FileValidation(schema, payload).value.isFilePayload
          && c.value == CoerceInPlace(payload, schema, false, toNumber).value)
  {
    if !MissingContentType(contentType, payload) {
      FilePolicyValue(schema, contentType, payload, ev, toNumber);
    }
  }

  /** After the file policy the payload is unchanged unless the form check converted it. */
  lemma FilePolicyValue(schema: JValue, contentType: JValue, payload: JValue, ev: Evaluator, toNumber: string -> NumResult)
    requires FileCheckThenForm(schema, contentType, payload, ev, toNumber).Returns?
    ensures var c := FileCheckThenForm(schema, contentType, payload, ev, toNumber).value;
      || c.value == payload
      || (&& FormContent(contentType) == Returns(true)
          && FileValidation(schema, payload).Returns? && !FileValidation(schema, payload).value.isFilePayload
          && c.value == CoerceInPlace(payload, schema, false, toNumber).value)
  {
    var fv := FileValidation(schema, payload);
    if !fv.value.isFilePayload {
      FormCheckValue(schema, contentType, payload, ev, toNumber);
    }
  }

  /** The form check converts the payload only for a form post. */
  lemma FormCheckValue(schema: JValue, contentType: JValue, payload: JValue, ev: Evaluator, toNumber: string -> NumResult)
    requires FormCheck(schema, contentType, payload, ev, toNumber).Returns?
    ensures var c := FormCheck(schema, contentType, payload, ev, toNumber).value;
      || c.value == payload
      || (FormContent(contentType) == Returns(true) && c.value == CoerceInPlace(payload, schema, false, toNumber).value)
  {
    if FormContent(contentType) == Returns(true) {
      assert FormCheck(schema, contentType, payload, ev, toNumber) == CoerceAndEvaluate(payload, schema, false, ev, toNumber);
    }
  }


  /**
    A payload with content and no content-type is refused before the file
    policy runs, whatever the schema says.
   */
  lemma MissingContentTypeFirst(cache: map<string, JValue>, route: Route, pluginName: string, contentType: JValue, payload: JValue,
                                ev: Evaluator, toNumber: string -> NumResult)
    requires SchemaFor(cache, route, pluginName, Payload).Some?
    requires !Truthy(contentType) && Truthy(payload) && !EmptyObject(payload)
    ensures ValidatePayloadSpec(cache, route, pluginName, contentType, payload, ev, toNumber)
         == Returns(Checked(MissingContentTypeReport, payload))
  {
  }

  /**
    A file payload gets the fixed INVALID_TYPE report exactly when a
    declared file field holds something other than a readable stream, and is
    valid otherwise; it is neither coerced nor evaluated.
   */
  lemma FilePayloadPolicy(cache: map<string, JValue>, route: Route, pluginName: string, contentType: JValue, payload: JValue,
                          ev: Evaluator, toNumber: string -> NumResult)
    requires SchemaFor(cache, route, pluginName, Payload).Some?
    requires !MissingContentType(contentType, payload)
    requires var schema := SchemaFor(cache, route, pluginName, Payload).value;
      FileValidation(schema, payload).Returns? && FileValidation(schema, payload).value.isFilePayload
    ensures var schema := SchemaFor(cache, route, pluginName, Payload).value;
      var fc := FileValidation(schema, payload).value;
      ValidatePayloadSpec(cache, route, pluginName, contentType, payload, ev, toNumber)
        == Returns(Checked(if fc.hasError then InvalidFileReport else ValidReport, payload))
  {
  }

  /** Which schemas make a payload a file payload, and when it is in error. */
  lemma FileValidationCharacterised(schema: JValue, payload: JValue)
    requires FileValidation(schema, payload).Returns?
    ensures var fc := FileValidation(schema, payload).value;
      var props := Prop(schema, "properties");
      && (fc.isFilePayload <==>
            (IsType(schema, "file") && !Truthy(props))
            || (props.JObj? && SomeFileProp(props.fields)))
      && (fc.hasError <==>
            (IsType(schema, "file") && !Truthy(props) && !ReadableStream(payload))
            || (props.JObj? && SomeBadFileField(props.fields, payload)))
  {
    var props := Prop(schema, "properties");
    if props.JObj? {
      FileScanCharacterised(props.fields, payload, FileValidationStart(schema, payload));
    }
  }

  /** File validation raises exactly when a declared property's schema is missing, or a file field meets a payload `in` cannot search. */
  lemma FileValidationThrows(schema: JValue, payload: JValue)
    ensures FileValidation(schema, payload).Throws? <==>
      var props := Prop(schema, "properties");
      props.JObj? && SomePropThrows(props.fields, payload)
  {
    var props := Prop(schema, "properties");
    if props.JObj? {
      FileScanCharacterised(props.fields, payload, FileValidationStart(schema, payload));
    }
  }

  /** A payload's value changes only for a form post that is not a file payload. */
  lemma PayloadCoercedOnlyForForms(cache: map<string, JValue>, route: Route, pluginName: string, contentType: JValue, payload: JValue,
                                   ev: Evaluator, toNumber: string -> NumResult)
    requires ValidatePayloadSpec(cache, route, pluginName, contentType, payload, ev, toNumber).Returns?
    requires ValidatePayloadSpec(cache, route, pluginName, contentType, payload, ev, toNumber).value.value != payload
    ensures FormContent(contentType) == Returns(true)
    ensures SchemaFor(cache, route, pluginName, Payload).Some?
    ensures var schema := SchemaFor(cache, route, pluginName, Payload).value;
      FileValidation(schema, payload).Returns? && !FileValidation(schema, payload).value.isFilePayload
  {
    PayloadCheckValue(SchemaFor(cache, route, pluginName, Payload).value, contentType, payload, ev, toNumber);
  }
}
