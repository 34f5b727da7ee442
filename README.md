# ratify, modelled in Dafny

ratify is a Hapi plugin that validates requests and responses against the
JSON Schemas declared in a route's plugin options, and serves Swagger 1.2
documentation built from those schemas. This project models its core:

- the `RouteSchemaManager` (lib/RouteSchemaManager.js). It holds the
  schema cache keyed by `surface:method|path`, registers and checks every
  route's schemas, lower-cases header names in header schemas, and converts
  path, query, header and form values to the types their schemas expect.
  It rewrites `name[i]` query keys into arrays, checks file payloads, and
  has five validators that convert a request surface in place before
  evaluating it.
- the three request lifecycle hooks of lib/RequestValidator.js:
  `onRequest`, `onPreHandler` and `onPostHandler`, including response
  sampling and the `failAction` policy.
- the documentation side of lib/SwaggerManager.js. That covers grouping
  routes into APIs, `isValidApi`, the resource listing, operations and
  their parameters, request and response models with nested `$ref`
  models, `consumes`, and the per-API docs cache.

JavaScript values are the datatype `Json.JValue`. Objects are ordered
association lists because the generated documentation follows key order.
The schema evaluator (z-schema) is a value of type `Validators.Evaluator`
made of three functions. `1 * s` is a function `toNumber` passed in. Both
are parameters because they are code outside this repository. Objects the
source mutates are classes:

- `SchemaManager.RouteSchemaManager` and its `schemasByKey` cache;
- `SchemaManager.Request` and its four surfaces;
- `SwaggerDocs.SwaggerManager` and its `apiDocsCache`.

Each method is proved equal to a specification function. The properties
are proved about those functions.

Under an `integer` schema a string such as `"42.5"` becomes the number
42.5: the test at lib/RouteSchemaManager.js:118 accepts every non-zero
number, whatever the schema type (`Coercion.ConvertValueFromStringToType`).

## Model

| member | source | states |
|---|---|---|
| SchemaKeys.FindSurface | lib/RouteSchemaManager.js:10-16 | the surface whose name is `name`, or none exactly when no surface has that name |
| SchemaKeys.ValidValidationProperties | lib/RouteSchemaManager.js:22-31 | a property is a validation property exactly when it is `path`, `query`, `payload`, `headers` or `response` |
| SchemaKeys.SchemaKeyInjective | lib/RouteSchemaManager.js:18-20 | distinct (surface, method, path) triples get distinct cache keys when the method has no `\|` |
| SchemaKeys.PluginOptions | lib/RouteSchemaManager.js:33-36 | the route's options for this plugin are returned only when truthy |
| SchemaKeys.SurfaceEntriesMembers | lib/RouteSchemaManager.js:37-41 | the options visited are exactly the own fields named after a surface |
| SchemaKeys.UnknownOptionIgnored | lib/RouteSchemaManager.js:37-41 | inserting a field that is not a validation property changes nothing visited |
| SchemaKeys.GetSchemasForRoute | lib/RouteSchemaManager.js:100-108 | `null` exactly when the route declares no surface; otherwise keyed by exactly the declared surfaces |
| SchemaKeys.SchemaFor | lib/RouteSchemaManager.js:100-108 | a surface's schema is present exactly when the surface is declared and its key holds a truthy cached schema, and it is that schema |
| HeadersSchema.ModifyHeadersSchema | lib/RouteSchemaManager.js:46-65 | the result is always an object with distinct keys |
| HeadersSchema.FieldsCopied | lib/RouteSchemaManager.js:49-61 | every field is copied in order; only `properties` is rebuilt, with its names lower-cased |
| HeadersSchema.LowerCasedKeySet | lib/RouteSchemaManager.js:55-60 | the rebuilt properties are keyed by exactly the names with `A`-`Z` lowered, and none holds an ASCII capital |
| HeadersSchema.LowerCasedLookup | lib/RouteSchemaManager.js:58 | when no two names collide once lower-cased, each lower-cased name holds its own property's schema, rewritten recursively |
| HeadersSchema.PropertiesFieldOrigin | lib/RouteSchemaManager.js:54-60 | a `properties` field of the result comes from the input's `properties` |
| HeadersSchema.LoweredFieldOrigin | lib/RouteSchemaManager.js:58 | every rebuilt property is some input property, with its name lower-cased and its schema rewritten |
| HeadersSchema.ModifiedNamesLower | lib/RouteSchemaManager.js:46-65 | no header name at any depth of the result holds an ASCII capital |
| HeadersSchema.ModifyIdempotent | lib/RouteSchemaManager.js:46-65 | rewriting twice gives the same schema as rewriting once |
| HeadersSchema.LowerCaseIdempotent | lib/RouteSchemaManager.js:55-60 | lower-casing the properties twice equals doing it once |
| HeadersSchema.ModifyKeepsWellFormed | lib/RouteSchemaManager.js:46-65 | a well-formed schema (distinct keys at every depth) stays well formed |
| Coercion.ConvertValueFromStringToType | lib/RouteSchemaManager.js:110-131 | only strings change: `"true"`/`"false"` become booleans, a non-zero number always converts, zero converts for `number` or a string without `.`, anything else is kept |
| Coercion.ConvertValueCases | lib/RouteSchemaManager.js:110-131 | numbers only under `integer`/`number`, booleans only under `boolean`; exactly `"true"` and `"false"` convert to booleans; a non-zero number always converts and a zero converts only for `number` or a string without `.` |
| Coercion.ConvertIdempotent | lib/RouteSchemaManager.js:110-131 | converting a converted value again changes nothing |
| Coercion.Coerce | lib/RouteSchemaManager.js:133-162 | objects keep their keys, arrays their length; a non-array becomes an array only by wrapping a string; scalars other than strings are untouched |
| Coercion.UndeclaredFieldUnchanged | lib/RouteSchemaManager.js:141-146 | a field the schema does not declare is left as it is |
| Coercion.DeclaredFieldCoerced | lib/RouteSchemaManager.js:141-146 | a declared field is converted against its property schema |
| Coercion.WrapThenCoerce | lib/RouteSchemaManager.js:136-139 | a forced string under an array-of-scalars schema becomes a one-element array of the converted string |
| Coercion.NoWrapWithoutForce | lib/RouteSchemaManager.js:136 | without `forceArrayConversion` no value becomes an array |
| Coercion.CoerceIdempotent | lib/RouteSchemaManager.js:133-162 | converting twice equals converting once |
| Coercion.CoercedDoesNotThrow | lib/RouteSchemaManager.js:141-158 | a value that converted without raising converts again without raising |
| Coercion.CoerceKeepsWellFormed | lib/RouteSchemaManager.js:133-162 | conversion keeps keys distinct at every depth |
| Coercion.CoerceElementsOutcome | lib/RouteSchemaManager.js:152-154 | the element loop raises exactly when some element does |
| Coercion.ElementsOutcomeReturns | lib/RouteSchemaManager.js:152-154 | otherwise each element is converted against `items` and the length is kept |
| Coercion.CoerceInPlace | lib/RouteSchemaManager.js:133-162 | the in-place conversion raises exactly when reading a field of `null` does; objects and arrays become their converted value, others are kept |
| Coercion.CoerceInPlaceIdempotent | lib/RouteSchemaManager.js:133-162 | converting a request surface twice leaves it as converting once |
| Coercion.CoerceFieldsOutcome | lib/RouteSchemaManager.js:142-146 | the property loop raises exactly when a declared field raises |
| Coercion.FieldsOutcomeReturns | lib/RouteSchemaManager.js:142-146 | otherwise the keys keep their order, declared fields are converted against their sub-schemas and others are kept |
| Coercion.ConvertPropertyTypesToMatchSchema | lib/RouteSchemaManager.js:133-162 | the method raises a TypeError exactly when the specification raises, and otherwise returns the converted value; the caller's value afterwards is the in-place conversion, or on a raise the partly converted value `CoercePartial` |
| Coercion.CoerceDeclaredProperties | lib/RouteSchemaManager.js:142-146 | the `for (prop in schema.properties)` loop computes the property-loop specification; on a raise the object holds the fields before the raising one converted, that one partly converted and the rest untouched |
| Coercion.CoerceArrayElements | lib/RouteSchemaManager.js:150-156 | the loop over `items`' own keys computes the element-loop specification; on a raise the array holds the elements before the raising one converted and that one partly converted |
| Coercion.CoerceElementsTwice | lib/RouteSchemaManager.js:150-156 | repeating the element pass once per key of `items` equals doing it once |
| Coercion.FirstThrowingKeyIs | lib/RouteSchemaManager.js:142-146 | a declared key that raises after declared keys that did not is the position the property loop stops at |
| Coercion.FirstThrowingElementIs | lib/RouteSchemaManager.js:152-154 | the element loop stops at position `j` exactly when the elements before `j` do not raise and element `j`, if any, does |
| Coercion.PartialFields | lib/RouteSchemaManager.js:142-146 | what a raise in the property loop leaves keeps the object's keys and their order |
| Coercion.PartialElements | lib/RouteSchemaManager.js:152-154 | what a raise in the element loop leaves keeps the array's length |
| Coercion.PartialKeepsWellFormed | lib/RouteSchemaManager.js:133-162 | the value a raise leaves behind still has distinct keys at every depth |
| Coercion.ThrowingKeyIsFirst | lib/RouteSchemaManager.js:142-146 | the own field the loop raises at belongs to the first declared key that raises |
| Coercion.PartialFieldsAt | lib/RouteSchemaManager.js:142-146 | the fields converted so far, with the raising field partly converted, are `PartialFields` |
| Coercion.PartialElementsAt | lib/RouteSchemaManager.js:152-154 | the elements converted so far, with the raising element partly converted, are `PartialElements` |
| Coercion.CoerceElementAt | lib/RouteSchemaManager.js:153 | one element raises exactly when the specification says; on a raise the array is `PartialElements` |
| Coercion.CoerceElements | lib/RouteSchemaManager.js:152-154 | the `for (i …)` loop computes the element-loop specification, and on a raise leaves the partly converted elements |
| QueryArrays.ArrayKey | lib/RouteSchemaManager.js:170 | the name split off a key is a proper prefix of the key, at least three characters shorter |
| QueryArrays.ArrayKeyParts | lib/RouteSchemaManager.js:166-172 | a split key is the name, its last `[`, digits and a final `]`, and the index is the digits' value |
| QueryArrays.ArrayKeyOfIndexKey | lib/RouteSchemaManager.js:170-172 | the key `name[i]`, with `i` in decimal, splits back into `name` and `i` |
| QueryArrays.ArrayKeyIsRegex | lib/RouteSchemaManager.js:166-169 | a key is split exactly when it matches `/\[\d+\]$/` |
| QueryArrays.NatToString | lib/RouteSchemaManager.js:172-173 | the decimal index key is all digits and denotes the index |
| QueryArrays.NatToStringInjective | lib/RouteSchemaManager.js:172-173 | distinct indices give distinct keys |
| QueryArrays.Holes | lib/RouteSchemaManager.js:173 | assigning past an array's end leaves holes, which read as `undefined` |
| QueryArrays.SetIndex | lib/RouteSchemaManager.js:173 | `container[idx] = v` on an array or object changes exactly that slot, and on anything else does nothing |
| QueryArrays.ConvertArraysInQueryString | lib/RouteSchemaManager.js:164-178 | the method's loop computes the rewriting specification `NormalizeQuery` |
| QueryArrays.StepInPlace | lib/RouteSchemaManager.js:170-174 | one rewrite is the source's statements in order: default container, assign slot, delete key |
| QueryArrays.StepFills | lib/RouteSchemaManager.js:170-173 | after one rewrite, the array under `name` holds the value at index `i` |
| QueryArrays.StepRemoves | lib/RouteSchemaManager.js:174 | the bracketed key is gone after its rewrite |
| QueryArrays.Collected | lib/RouteSchemaManager.js:164-178 | on a query where no bracketed key's name or slot collides, every `name[i]` value ends up at index `i` of the array `name` |
| QueryArrays.OtherKeysUnchanged | lib/RouteSchemaManager.js:164-178 | a plain key that no bracketed key targets keeps its value |
| QueryArrays.BracketedKeyRemoved | lib/RouteSchemaManager.js:174 | a bracketed key that no other key targets is absent afterwards |
| QueryArrays.NormalizeKeepsWellFormed | lib/RouteSchemaManager.js:164-178 | rewriting keeps the query well formed |
| Registration.SchemaOf | lib/RouteSchemaManager.js:70-74 | reading `option.schema` raises exactly for a `null` or `undefined` response option |
| Registration.RegisterOption | lib/RouteSchemaManager.js:69-95 | the only entry stored is the route's key for that surface with its schema; nothing is stored only for a void response; a failed check raises the message naming path, method and surface |
| Registration.FilePayloadStoredUnchecked | lib/RouteSchemaManager.js:83-86 | a `file` payload is stored without checking it |
| Registration.CheckedSchemaStored | lib/RouteSchemaManager.js:88-94 | other schemas are stored exactly when the checker accepts them, else the route's error is raised |
| Registration.RouteSchemasThrows | lib/RouteSchemaManager.js:67-98 | a route's registration raises exactly when one of its options does |
| Registration.RouteSchemasEntries | lib/RouteSchemaManager.js:67-98 | the generated map holds exactly the entries its options store |
| Registration.SchemaKeyInjectiveForRoute | lib/RouteSchemaManager.js:80 | one route's surfaces never share a key |
| Registration.GenerateSchemas | lib/RouteSchemaManager.js:67-98 | the method computes the per-route specification |
| Registration.InitializeErrorIff | lib/RouteSchemaManager.js:215-221 | `initializeRoutes` raises exactly when some route's schemas raise |
| Registration.InitializePartialMerge | lib/RouteSchemaManager.js:215-221 | on an error, the schemas of the routes before the failing one are already merged |
| Registration.InitializeMerges | lib/RouteSchemaManager.js:217-219 | on success, the new cache is the old one extended with the routes' schemas |
| Registration.InitializeErrorIndependent | lib/RouteSchemaManager.js:215-221 | whether it raises does not depend on the cache |
| Registration.InitializeIdempotent | lib/RouteSchemaManager.js:215-221 | initialising the same routes again leaves the cache unchanged |
| Registration.InitializeKeepsWellFormed | lib/RouteSchemaManager.js:215-221 | well-formed route settings keep the cache well formed |
| SchemaManager.RouteSchemaManager.constructor | lib/RouteSchemaManager.js:6-9 | a new manager starts with an empty schema cache |
| SchemaManager.InitializeRoutesOutcome | lib/RouteSchemaManager.js:215-221 | a non-array argument raises a TypeError and leaves the cache alone; an array that does not raise merges its schemas |
| SchemaManager.RouteSchemaManager.InitializeRoutes | lib/RouteSchemaManager.js:215-221 | the `forEach` loop leaves the cache and error of the specification |
| SchemaManager.RouteSchemaManager.SchemaOfRoute | lib/RouteSchemaManager.js:100-108 | the schema looked up for a surface is well formed |
| SchemaManager.ConvertSurface | lib/RouteSchemaManager.js:228-237 | converting a surface and evaluating it gives the report of the specification; the value left behind is the converted value, or on a raise the partly converted one, and stays well formed |
| SchemaManager.RouteSchemaManager.ValidatePath | lib/RouteSchemaManager.js:223-240 | the report of the path specification; `request.params` becomes the converted value, or on a raise is converted up to the raising field |
| SchemaManager.RouteSchemaManager.ValidateQuery | lib/RouteSchemaManager.js:242-258 | the report of the query specification; the query keeps its rewritten keys, and on a raise is converted up to the raising field |
| SchemaManager.RouteSchemaManager.ValidateHeaders | lib/RouteSchemaManager.js:295-310 | the report of the header specification; the raw headers become the converted value, or on a raise are converted up to the raising field |
| SchemaManager.RouteSchemaManager.ValidatePayload | lib/RouteSchemaManager.js:260-293 | the report of the payload specification; the payload changes only as the specification says, and on a raise only by a form conversion that was reached, up to the raising field |
| SchemaManager.RouteSchemaManager.ValidateResponse | lib/RouteSchemaManager.js:312-325 | the response source is evaluated as it is |
| Validators.Evaluate | lib/RouteSchemaManager.js:231-237 | a report is valid exactly when the evaluator accepts, and carries errors exactly when invalid |
| Validators.CoerceAndEvaluate | lib/RouteSchemaManager.js:228-237 | raises exactly when conversion does; otherwise evaluates the converted value |
| Validators.FileScanCharacterised | lib/RouteSchemaManager.js:199-208 | the property scan raises exactly on an `in` against a non-object payload; a file payload exactly when a property is typed `file`; an error exactly when such a field is present and not a readable stream |
| Validators.ValidateFileProperties | lib/RouteSchemaManager.js:190-213 | the method computes the file-check specification |
| Validators.FileValidationCharacterised | lib/RouteSchemaManager.js:190-213 | the same characterisation for the whole schema, including a top-level `file` schema |
| Validators.FileValidationThrows | lib/RouteSchemaManager.js:203 | the file check raises exactly when the scan does |
| Validators.FormContent | lib/RouteSchemaManager.js:282 | calling `indexOf` on the content type raises exactly for a truthy value that is neither a string nor an array |
| Validators.NoSchemaMeansValid | lib/RouteSchemaManager.js:225-227 | every validator returns `{valid: true}` and leaves the surface unchanged when the surface has no schema |
| Validators.ReportsCarryErrorsIffInvalid | lib/RouteSchemaManager.js:231-237 | every report carries errors exactly when it is invalid |
| Validators.PayloadReportErrorsIffInvalid | lib/RouteSchemaManager.js:268-292 | every payload report, including the fixed ones, carries errors exactly when invalid |
| Validators.ScalarSurfaceUnchanged | lib/RouteSchemaManager.js:133-162 | a surface that is not an object or array is never replaced |
| Validators.PayloadCheckValue | lib/RouteSchemaManager.js:268-284 | the payload is either unchanged, or converted because it is a form post and not a file payload |
| Validators.MissingContentTypeFirst | lib/RouteSchemaManager.js:268-272 | content without a content type is rejected before any other check |
| Validators.FilePayloadPolicy | lib/RouteSchemaManager.js:276-279 | a file payload is answered by the file check alone |
| Validators.PayloadCoercedOnlyForForms | lib/RouteSchemaManager.js:281-284 | a changed payload implies a form content type, a schema and no file payload |
| Validators.ScanFileProperties | lib/RouteSchemaManager.js:200-208 | the `forEach` over the schema's properties computes the scan specification |
| Validators.CheckPayload | lib/RouteSchemaManager.js:268-292 | after the schema lookup, the content-type check, file policy and form check compute the payload specification, and the payload they leave, also on a raise |
| Validators.CheckFilePolicy | lib/RouteSchemaManager.js:274-292 | a file payload is answered by the file check; any other goes on to the form check; a raise in the file check leaves the payload alone |
| Validators.CheckFormPayload | lib/RouteSchemaManager.js:281-292 | a form content type leads to conversion then evaluation; any other payload is evaluated as it is; only the conversion changes the payload |
| Validators.CoerceFormPayload | lib/RouteSchemaManager.js:282-292 | a form post is converted in place, then the converted payload is evaluated; on a raise the payload is partly converted |
| Validators.PayloadAfterRaiseWellFormed | lib/RouteSchemaManager.js:268-292 | the payload a raise leaves behind is still well formed |
| Validators.FilePolicyErrorsIffInvalid | lib/RouteSchemaManager.js:274-292 | the report after the file policy carries errors exactly when invalid |
| Validators.FormCheckErrorsIffInvalid | lib/RouteSchemaManager.js:281-292 | the form check's report carries errors exactly when invalid |
| Validators.FilePolicyValue | lib/RouteSchemaManager.js:274-284 | after the file policy the payload is unchanged, or converted because it is a form post and not a file payload |
| Validators.FormCheckValue | lib/RouteSchemaManager.js:281-284 | the form check converts the payload only for a form content type |
| Lifecycle.OnRequestAsWritten | lib/RequestValidator.js:20-32 | passing the server URI where the route array belongs raises a TypeError, which goes to `next`, and the cache is unchanged |
| Lifecycle.OnRequestAsWrittenAlwaysFails | lib/RequestValidator.js:24 | as written, every request ends in `next(TypeError)` |
| Lifecycle.OnRequest | lib/RequestValidator.js:20-32 | with the route table passed, the hook's result and the cache are those of `initializeRoutes` |
| Lifecycle.OnRequestFailsOnlyOnBadRoute | lib/RequestValidator.js:23-31 | the corrected hook fails exactly when some route's schemas raise, and otherwise merges them |
| Lifecycle.ContextMessage | lib/RequestValidator.js:5-10 | each reporter's context message starts with its part's name |
| Lifecycle.SurfaceCheck | lib/RequestValidator.js:39 | a validator's report carries errors exactly when invalid |
| Lifecycle.WithField | lib/RequestValidator.js:39 | validating one part changes only that part of the request |
| Lifecycle.PartStep | lib/RequestValidator.js:39 | one step changes no other part and reports errors exactly when invalid |
| Lifecycle.ValidatePart | lib/RequestValidator.js:39 | `routeSchemaManager['validate' + part](request)` is the step of the specification |
| Lifecycle.OnPreHandler | lib/RequestValidator.js:34-47 | the loop over path, query, headers and payload gives the specification's result and request state |
| Lifecycle.RunChecksBadRequest | lib/RequestValidator.js:38-44 | for any validators that report errors exactly when invalid and change only their own part: a bad request names a validated part and its context, carries an invalid report with errors, and parts after it are untouched |
| Lifecycle.PartStepperWellBehaved | lib/RequestValidator.js:39 | the route's validators report errors exactly when invalid and change only their own part |
| Lifecycle.BadRequestStopsValidation | lib/RequestValidator.js:38-44 | a bad request names the first failing part and its context, carries an invalid report with errors, and later parts are never touched |
| Lifecycle.NoSchemasProceeds | lib/RequestValidator.js:34-47 | without schemas the request proceeds unchanged |
| Lifecycle.ProceedIffAllValid | lib/RequestValidator.js:38-46 | the hook proceeds exactly when every part validates in turn |
| Lifecycle.SampleNumber | lib/RequestValidator.js:63 | the number a numeric sample rate compares as is the rate itself |
| Lifecycle.OnPostHandler | lib/RequestValidator.js:49-84 | the hook's decision is the corrected decision on the response report |
| Lifecycle.BoomNeverValidated | lib/RequestValidator.js:68-70 | error responses are never validated |
| Lifecycle.SampleOffNeverValidates | lib/RequestValidator.js:57-58 | a sample of `0` or `false` turns response validation off |
| Lifecycle.SampleRate | lib/RequestValidator.js:61-66 | with a numeric sample, the response is validated exactly when the draw is at most the rate |
| Lifecycle.FullSampleAlwaysValidates | lib/RequestValidator.js:61-66 | no sample, a `null` sample or a rate of 100 validates every response |
| Lifecycle.FailActionPolicy | lib/RequestValidator.js:73-81 | an invalid validated response is logged exactly when `failAction` is `log`, becomes an internal error otherwise, and valid or unvalidated responses continue |
| Lifecycle.CallReporter | lib/RequestValidator.js:7-13 | `errorReporters['response'](report)` always raises a TypeError |
| Lifecycle.PostHandlerAsWrittenThrows | lib/RequestValidator.js:73-81 | as written, every invalid validated response raises instead of being logged or reported |
| SwaggerRoutes.AddToGroup | lib/SwaggerManager.js:21-25 | adding to a group extends exactly that group, opening it last when new |
| SwaggerRoutes.Select | lib/SwaggerManager.js:21-25 | the reference definition of a group holds only elements with its key |
| SwaggerRoutes.GroupByIsSelect | lib/SwaggerManager.js:21-25 | `_.groupBy` has distinct keys, a key exactly when some element has it, and each group is the in-order selection |
| SwaggerRoutes.DocumentedRoutes | lib/SwaggerManager.js:15-20 | the filter keeps exactly the routes configuring the plugin without `swagger: false` |
| SwaggerRoutes.PlainSegments | lib/SwaggerManager.js:22-23 | only segments not starting with `{` remain |
| SwaggerRoutes.GroupNameIsLastPlainSegment | lib/SwaggerManager.js:21-25 | the group name is the last plain segment, or `undefined` when there is none |
| SwaggerRoutes.GroupNameOfResourcePath | lib/SwaggerManager.js:21-25 | `…/name/{id}` is grouped under `name` |
| SwaggerRoutes.IsValidApiIff | lib/SwaggerManager.js:255-258 | an API name is valid exactly when some documented route is grouped under it |
| SwaggerRoutes.GetResourceListingModel | lib/SwaggerManager.js:260-270 | one `/name` path per group, in group order, with version `1.2` |
| SwaggerRoutes.GroupPaths | lib/SwaggerManager.js:263-267 | the loop over the group names yields `/name` for each group, in order |
| SwaggerRoutes.ListingIsValidApis | lib/SwaggerManager.js:255-270 | the listing names each valid API exactly once and nothing else |
| SwaggerRoutes.NicknameShape | lib/SwaggerManager.js:124-129 | a nickname holds no `/`, and a parameter segment becomes `_by_<id>` without braces |
| SwaggerRoutes.SegmentsNicknameShape | lib/SwaggerManager.js:124-129 | for any segments free of `/`, the nickname holds no `/` and a parameter segment becomes `<previous>_by_<id>` |
| SwaggerRoutes.NicknameOfPlainPath | lib/SwaggerManager.js:126-129 | a path ending in a plain segment is nicknamed after it |
| SwaggerRoutes.NicknameOfResourcePath | lib/SwaggerManager.js:126-129 | `…/name/{id}` is nicknamed `name_by_id` |
| SwaggerOperations.IndexOfMember | lib/SwaggerManager.js:66-99 | `indexOf` searches an array's elements or a string's text, and raises on anything else |
| SwaggerOperations.Required | lib/SwaggerManager.js:84-99 | the `required` flag of a parameter |
| SwaggerOperations.MinimumOf | lib/SwaggerManager.js:101-103 | an own `minimum` is copied, plus one under `exclusiveMinimum` |
| SwaggerOperations.OwnField | lib/SwaggerManager.js:104-109 | an own `maximum` or `enum` is copied, and nothing otherwise |
| SwaggerOperations.GetSwaggerParams | lib/SwaggerManager.js:54-121 | the method computes the parameter specification |
| SwaggerOperations.PushPropertyParams | lib/SwaggerManager.js:77-112 | the property loop computes its specification |
| SwaggerOperations.PropertyParamsPerProperty | lib/SwaggerManager.js:77-112 | one parameter per property, named after it, in order, with the surface's type; the loop raises exactly when a property does |
| Folds.MapStepsThrowsIff | lib/SwaggerManager.js:77-112 | a loop that pushes one result per item raises exactly when some item raises |
| Folds.MapStepsResults | lib/SwaggerManager.js:77-112 | when it returns, it holds, in order, the result of each item |
| Folds.MapStepsThrowsPrefix | lib/SwaggerManager.js:77-112 | the first item that raises ends the loop with its error |
| SwaggerOperations.RequiredIffListed | lib/SwaggerManager.js:84-99 | a parameter is required exactly when listed in the schema's `required` array |
| SwaggerOperations.BoundsCopied | lib/SwaggerManager.js:92-112 | path, query and header parameters carry bounds and enum; form parameters carry none |
| SwaggerOperations.PayloadBodyParam | lib/SwaggerManager.js:62-75 | a configured payload that accepts JSON is one required `body` parameter typed `<nickname>_body` |
| SwaggerOperations.PayloadFormParams | lib/SwaggerManager.js:76-89 | otherwise it is one `form` parameter per property, named after it, in order |
| SwaggerOperations.Then | lib/SwaggerManager.js:167-173 | concatenation returns exactly when both sides return, and an earlier error wins |
| SwaggerOperations.ConcatOperationParams | lib/SwaggerManager.js:167-173 | the four concatenations compute the parameter list of the specification |
| SwaggerOperations.GetSwaggerOperationForRoute | lib/SwaggerManager.js:123-181 | the method computes the operation specification |
| SwaggerOperations.OperationTypeRules | lib/SwaggerManager.js:130-160 | the type is `void` without a schema, the response model for an object, an array of it for an array, else the schema's type |
| SwaggerOperations.OperationParamsOrder | lib/SwaggerManager.js:167-173 | parameters are path, query, payload, then header parameters |
| SwaggerModels.ModelIsObjectOrItems | lib/SwaggerManager.js:184-212 | a model is registered only for an object schema or an array's `items`, and an object schema is its own model |
| SwaggerModels.ObjectLike | lib/SwaggerManager.js:222-225 | reading a property schema raises exactly when it is `null` or `undefined` |
| SwaggerModels.GenerateNestedModels | lib/SwaggerManager.js:214-233 | the recursive method with its loop computes the nested-model specification |
| SwaggerModels.NestedFold | lib/SwaggerManager.js:221-232 | the loop keeps the number of properties |
| NestedModelFacts.NestedFoldShape | lib/SwaggerManager.js:221-232 | exactly the object-like properties become `{$ref: prefix + name}`, others are kept |
| NestedModelFacts.NestedModelsGrowUnderPrefix | lib/SwaggerManager.js:214-233 | nested generation keeps every model and adds only names starting with the prefix |
| NestedModelFacts.NestedModelsRegister | lib/SwaggerManager.js:221-232 | each object-like property is replaced by its reference and has a model under `prefix + name`; the model's other fields are kept |
| NestedModelFacts.NestedModelsFrame | lib/SwaggerManager.js:214-233 | nested generation writes no model name except `prefix + name` for the object-like properties at some depth below the model |
| NestedModelFacts.NestedModelsStoresCopy | lib/SwaggerManager.js:221-232 | each object-like top-level property is stored under `prefix + name` as it was before its own nesting, when no property at or after it reuses its name below it |
| NestedModelFacts.NestedFoldRegisters | lib/SwaggerManager.js:221-232 | after the loop, every object-like property has a model named `prefix + name` |
| SwaggerDocs.Flatten | lib/SwaggerManager.js:288-290 | the flattened path groups hold exactly the grouped routes |
| SwaggerDocs.FlatMapMembers | lib/SwaggerManager.js:291-298 | a content type is among the collected entries exactly when some route contributes it |
| SwaggerDocs.Uniq | lib/SwaggerManager.js:299 | `_.uniq` keeps exactly the values present, each once |
| SwaggerDocs.Compact | lib/SwaggerManager.js:300 | `_.compact` keeps exactly the truthy values |
| SwaggerDocs.CompactKeepsDistinct | lib/SwaggerManager.js:299-300 | compacting distinct values keeps them distinct |
| SwaggerDocs.ConsumesExact | lib/SwaggerManager.js:288-301 | `consumes` lists each content type once, exactly the truthy ones some route accepts |
| SwaggerDocs.DefaultConsumesWithoutAllow | lib/SwaggerManager.js:292-294 | a parsed payload without `allow` consumes JSON and URL-encoded forms |
| SwaggerDocs.RegisterModelFacts | lib/SwaggerManager.js:316-328 | registering a model keeps every model, adds only names starting with its name, and stores the model with its references |
| SwaggerDocs.RouteStep | lib/SwaggerManager.js:312-329 | one route's step yields that route's operation |
| SwaggerDocs.RouteStepRegisters | lib/SwaggerManager.js:316-328 | a route with a request or response model leaves it registered under its nickname, dropping none |
| Folds.FoldSteps | lib/SwaggerManager.js:305-333 | a loop whose body may raise yields, when it returns, one result per item |
| Folds.FoldStepsThrowsPrefix | lib/SwaggerManager.js:305-333 | the first error a body raises ends the loop with that error |
| Folds.FoldStepsResults | lib/SwaggerManager.js:305-333 | when each body relates its result to its item, every result of the loop is related to its item |
| Folds.FoldStepsKeeps | lib/SwaggerManager.js:305-333 | when each body moves the state along a preorder and marks its item, the final state is reached from the start and every mark survives |
| SwaggerDocs.ApiStep | lib/SwaggerManager.js:305-333 | an API is named after its path and holds one operation per route of the path |
| DeclarationFacts.OperationsFoldOperations | lib/SwaggerManager.js:312-329 | the `forEach` over a path pushes, in order, the operation of each route |
| DeclarationFacts.OperationsFoldRegisters | lib/SwaggerManager.js:312-329 | every route of a path leaves its response and request models registered under its nickname, and no model is dropped |
| DeclarationFacts.DeclarationShape | lib/SwaggerManager.js:280-345 | a declaration has version `1.2`, resource path `/apiName`, the options' base path and content types, the routes' `consumes`, and one API per path holding each route's operation |
| DeclarationFacts.DeclarationModels | lib/SwaggerManager.js:305-333 | without a models hook, the declaration's models have a model named `<nickname>_response` and one named `<nickname>_body` for every route that has a response or request model, the nickname being that route's operation's |
| DeclarationFacts.ApisFoldOperations | lib/SwaggerManager.js:305-333 | each API holds, in order, the operations of its path's routes |
| DeclarationFacts.ApisFoldRegisters | lib/SwaggerManager.js:305-333 | across all paths, every route's models end up registered and no model is dropped |
| SwaggerDocs.UnknownApiIsEmpty | lib/SwaggerManager.js:280-301 | an API name without routes gives no APIs, no content types and no models |
| SwaggerDocs.CachedDeclarationIsStable | lib/SwaggerManager.js:273-343 | with caching on, a served declaration is returned again for that name whatever the routes are then |
| SwaggerDocs.UncachedIsFresh | lib/SwaggerManager.js:273-341 | without caching every request is computed and nothing is stored |
| SwaggerDocs.SwaggerManager.constructor | lib/SwaggerManager.js:4-12 | a new manager starts with an empty docs cache |
| SwaggerDocs.SwaggerManager.GetApiDeclarationModel | lib/SwaggerManager.js:272-346 | the method's result and new cache are those of the cache-serving specification |
| SwaggerDocs.BuildApis | lib/SwaggerManager.js:305-333 | the `for … in` loop over the paths computes the loop of the specification |
| SwaggerDocs.BuildOperations | lib/SwaggerManager.js:312-329 | the `forEach` over a path's routes computes the loop of the specification |
| SwaggerDocs.BuildRoute | lib/SwaggerManager.js:313-328 | one route's body computes the step `RouteStep` |
| SwaggerDocs.AddModel | lib/SwaggerManager.js:318-328 | storing and expanding one model computes its registration |

## Left out

- Hapi plumbing is not modelled: `plugin.ext` registration, `next`, `request.log`, `hapi.error.badRequest`/`internal` and `request.server`. The hooks return what they pass to `next` or log.
- The z-schema evaluator and `z-schema-errors` formatting are outside this repository. Reports carry the evaluator's verdict and error list, and a reporter's message is its context message.
- `Math.random()` is the parameter `draw`, which stands for `Math.ceil(random * 100)`.
- `onPostHandler` reads `request.route.plugins`, so that value is the parameter `routePlugins`.
- `getApplicationVersion` reads `process.argv` and `package.json` from the file system, so the resolved `apiVersion` is a parameter.
- `swaggerHooks.params` and `swaggerHooks.operation` are caller callbacks that may mutate anything and are not modelled. `swaggerHooks.models` is an optional function applied to the models map.
- `options.log` and the `ratify.js` plugin wiring (routes for the docs endpoints) are not modelled.
- JavaScript's ordering of integer-like object keys before other keys is not modelled. Objects keep insertion order.
- Lookups of prototype names (`constructor`, `__proto__`) in the schema and docs caches are not modelled. The caches are maps.
- Lifecycle.OnPreHandler: states the request state only when no validator raises. When one raises, the earlier parts are still converted in place, and that state is not stated here; the validator methods of `SchemaManager.RouteSchemaManager` state it for their own surface.
- HeadersSchema.ModifyHeadersSchema: a schema that is a string or an array gives `{}`. JavaScript's `for…in` would walk its indices and copy each character or element under `"0"`, `"1"`, ….
- HeadersSchema.LowerCaseProperties: a truthy `properties` that is a string or an array gives `{}`. `for…in` would walk its indices, so the result would hold each character or element, rewritten, under its index.
- HeadersSchema.ModifiedNamesLower: header names are lowered in ASCII only (see `JsString.ToLower`), so the result is free of `A`-`Z` but may still hold non-ASCII capitals.
- JsString.ToLower: maps only `A`-`Z`. `String.prototype.toLowerCase` also lowers non-ASCII letters (`"É"` to `"é"`), and some of those change length. HTTP header names are ASCII tokens, so header schemas declaring a non-ASCII name are the only case affected.
- Coercion.Coerce: a truthy `properties` that is an array or a string is treated as declaring no property. `for…in` would walk its indices and convert the object's fields named `"0"`, `"1"`, … against the elements or characters. The other way round, an array under an object schema is left as it is, although `Object.hasOwnProperty.call(array, "0")` would find its elements for declared properties named `"0"`, `"1"`, ….
- Validators.FileValidation: a truthy `properties` that is an array is treated as declaring no property. `Object.keys` would walk its indices, so an element typed `file` would mark a file payload and a `null` element would raise. A string `properties` gives the same answer either way, since a character has no `type`.
- Validators.FileValidationCharacterised: states the file check for an object `properties` only; an array `properties` is treated as empty, as under Validators.FileValidation.
- Validators.HasProperty: `prop in payload` is true only for an own key of an object. JavaScript's `in` also finds an array's indices and `length`, and inherited or stream properties.
- SwaggerOperations.PropertiesOf: a truthy `properties` that is a string or an array gives no properties. `for…in` would walk its indices, so each index would give a parameter.
- SwaggerOperations.PropertyParamsPerProperty: states the parameters of an object `properties` only; a string or array `properties` gives none, as under SwaggerOperations.PropertiesOf.
- QueryArrays.SetIndex: places every index densely in the array. In JavaScript only an index up to 2^32 - 2 is an array index: a larger one becomes an ordinary property and leaves the length alone. `1 * digits` also rounds above 2^53, and a value of 10^21 or more is spelt `"1e+21"`, so such keys land elsewhere.
- Lifecycle.SampleNumber: an array or object sample rate is treated as not comparable (NaN). JavaScript converts one-element arrays to numbers.
- SwaggerModels.NestedModels: a truthy `properties` that is an array or string is treated as having no properties. JavaScript's `Object.keys` would walk its indices.
- SwaggerModels.GenerateNestedModels: the update of `model.properties` in place is returned as a new model. Aliasing between the stored model and the returned one is expressed by storing the returned model. Schemas are finite value trees, so two cases are not modelled. First, `_.cloneDeep` keeps a sub-object shared between two properties shared in the copy, and the rewrite in place then turns the second property's nested objects into `$ref`s before its own visit; the model nests each property from the original value. Second, a cyclic schema makes the source recurse without end.
- DeclarationFacts.DeclarationModels: states that the models are named after each route's nickname, not their values. Two routes of one group can share a nickname, for example GET `/users` and GET `/admin/users`, which are both `get_users`. The later route's models then overwrite the earlier ones, as in the source.
- The `parent` argument of `generateNestedModels` is computed but never used by the source, so it is left out. Nested models are named `prefix + name` at every depth, so a deeper property can overwrite a shallower model of the same name, as the source does.
- SwaggerDocs.Uniq: `_.uniq` compares by SameValueZero, so two distinct objects with equal contents are both kept. The model compares values structurally.
- SwaggerDocs.RouteConsumes: `_.flatten` is taken one level deep. Hapi only accepts a string or an array of strings as `payload.allow`, and on those one level and a deep flatten agree.
- Floating-point numbers are reals. `exclusiveMinimum` adds exactly one.

## Findings

| source | as written | input that shows it | evidently intended | confidence | as-written member | corrected member |
|---|---|---|---|---|---|---|
| lib/RequestValidator.js:24 | `initializeRoutes(request.server.info.uri, request.server.table())` passes the URI string as the routes array, so `routes.forEach` raises | any request, e.g. with URI `"http://localhost:80"` | pass the route table, so schemas are compiled and only a bad schema fails the request | not executed | Lifecycle.OnRequestAsWritten (Lifecycle.OnRequestAsWrittenAlwaysFails) | Lifecycle.OnRequest (Lifecycle.OnRequestFailsOnlyOnBadRoute) |
| lib/RequestValidator.js:74 | `errorReporters['response'](report)`: the reporters are keyed `Response` (capitalised) and are objects, so the call raises a TypeError | any invalid response on a route with a response schema, e.g. `failAction: 'log'` | format the report with the `Response` reporter, then log it or answer with an internal error | not executed | Lifecycle.PostDecisionAsWritten (Lifecycle.PostHandlerAsWrittenThrows) | Lifecycle.PostDecision (Lifecycle.FailActionPolicy) |
