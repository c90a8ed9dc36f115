# Owner-scoped CRUD routes of the driving-school API

This project models the four resource routers of the API in Dafny: cars, instructors, students and groups. Each router has five handlers, and every handler is scoped to the authenticated owner (`req.user.id`):
- POST `/` creates a record.
- PUT `/:id` updates a record.
- GET `/` lists the owner's records.
- GET `/:id` reads one record.
- DELETE `/:id` removes one record.

Each handler follows the same steps:
1. It validates the required fields.
2. It normalises some of them: it upper-cases plate numbers, car categories, `inn` and passport serials, and splits, trims and upper-cases instructor categories.
3. On create, it pre-checks the owner's records for a duplicate natural key.
4. It looks the record up by `(owner, id)` and then checks the id's format.
5. It reads or changes the store, then answers with a status and a message or the records.

Modules:

- `ObjectIds`: the id format `/^[0-9a-fA-F]{24}$/`. It has two forms: a declarative predicate (`IsHex24`), and an anchored matcher that behaves like `String.prototype.match` on this pattern. Both are proved to agree.
- `Text`: ASCII `toUpperCase`, and `trim` over the ECMAScript white-space and line-terminator set. It also has `split(',')` with its inverse `join`, and the instructor category normalisation.
- `Validation`: the `check(field, message).not().isEmpty()` chains and `validationResult(req).array()`.
- `Storage`: a `Collection<R>` class holding the documents as a map from id to `Doc(owner, value)`.
  - Its methods stand for the Mongoose calls the handlers make: `findOne`, `find`, `new …().save()`, `findOneAndUpdate`, `save` and `remove`.
  - A `Fault` parameter says which storage call of a handler fails, if any, counting the handler's calls from 0, and how it fails.
  - `castable` says whether Mongoose can cast a path parameter to an ObjectId. The only assumption about it is that every 24-digit hexadecimal string casts.
  - Stored ids are in the lower-case text form of an ObjectId. A 24-digit hexadecimal path id finds the record whose id it spells, whatever the case of its letters (`CanonicalId`).
  - The storage assigns new ids itself. Here the new id is a parameter: 24 lower-case hexadecimal digits, not yet in use.
- `Api`: responses (status plus payload), the 500 `Server Error` response, the 400 validation response, and the `error.kind === 'ObjectId'` catch.
- `CarRoutes`, `InstructorRoutes`, `StudentRoutes` and `GroupRoutes`: the four routers, one method per handler.
  - Each method's `ensures` gives the response and the new store for every case: an invalid body, each storage fault, a duplicate, a malformed or foreign id, and success.
  - Each method also keeps the store's invariants: every stored record is well formed, stored ids are ObjectIds, and other owners' records are untouched.
- `Scenarios`: concrete request sequences applied to fresh collections.

In three places the code does something other than what its own checks and messages suggest; the model follows the code:
- Validation does not trim: `"  "` passes `not().isEmpty()`.
- Every by-id handler runs the lookup before the id-format check, so what a malformed id gets depends on the file's `catch`. The car routes answer 500 for an id that does not cast. So do the instructor GET `/:id` and DELETE.
- The duplicate pre-check on create compares the raw value in the request with the stored, upper-cased key.

## Model

| member | source | states |
|---|---|---|
| ObjectIds.HexRunCharacterised | routes/api/cars.js:224 | The anchored matcher accepts a string exactly when it is `n` hexadecimal digits. |
| ObjectIds.IsHex24 | routes/api/cars.js:224 | Definition of the id format, not a proved property: exactly 24 characters, each `0`..`9`, `a`..`f` or `A`..`F`. |
| ObjectIds.MatchesIdPattern | routes/api/cars.js:224 | Definition of `id.match(/^[0-9a-fA-F]{24}$/)` as an anchored matcher of 24 hexadecimal digits; its meaning is proved in IdPatternIsHex24. |
| ObjectIds.IdPatternIsHex24 | routes/api/cars.js:224 | The id pattern of the regex matches exactly the 24-digit hexadecimal strings, both ways. |
| ObjectIds.NotAnIdIsRefused | routes/api/cars.js:222-224 | `"not-an-id"` fails the id-format check. |
| ObjectIds.LowerHexDigit | routes/api/cars.js:217-220 | One digit in the form a stored ObjectId uses: `A`..`F` become `a`..`f`, every other character is kept, and it stays a hexadecimal digit exactly when it was one. |
| ObjectIds.CanonicalId | routes/api/cars.js:217-220 | The ObjectId a path id casts to, in stored form: the same length, each digit with `A`..`F` lowered. Every by-id lookup goes through it. |
| ObjectIds.CanonicalIdIsObjectId | routes/api/cars.js:217-224 | Every id the guard accepts casts to an id in stored form. |
| ObjectIds.CanonicalIdFixedPoints | routes/api/cars.js:217-220 | A string is its own cast form exactly when it holds no upper-case hexadecimal letter. |
| ObjectIds.CaseDoesNotMatter | routes/api/cars.js:217-220 | Two spellings of an id that differ only in the case of their letters find the same record. |
| Text.UpperChar | routes/api/cars.js:52 | One character upper-cased: `a`..`z` map to `A`..`Z`, everything else is kept, and no lower-case letter remains. |
| Text.ToUpperAscii | routes/api/cars.js:52 | The result has the input's length and holds each character upper-cased in place. |
| Text.UpperIsNormal | routes/api/cars.js:52-56 | An upper-cased string holds no lower-case letter. |
| Text.UpperFixedPoints | routes/api/cars.js:52-56 | Upper-casing leaves a string unchanged exactly when it holds no lower-case letter. |
| Text.UpperIdempotent | routes/api/cars.js:52-56 | Upper-casing twice is upper-casing once. |
| Text.LowerNeverMatchesUpper | routes/api/cars.js:52-63 | A string with a lower-case letter is never the upper-cased form of any string. |
| Text.UpperKeepsSpaces | routes/api/instructors.js:58 | Upper-casing one character neither makes nor unmakes white space. |
| Text.TrimUpperCommutes | routes/api/instructors.js:58 | Trimming and then upper-casing gives the same string as upper-casing and then trimming. |
| Text.TrimStartUpper | routes/api/instructors.js:58 | Dropping leading white space commutes with upper-casing. |
| Text.TrimEndUpper | routes/api/instructors.js:58 | Dropping trailing white space commutes with upper-casing. |
| Text.TrimStart | routes/api/instructors.js:58 | The result is a suffix of the input that does not start with white space. |
| Text.TrimEnd | routes/api/instructors.js:58 | The result is a prefix of the input that does not end with white space. |
| Text.TrimStartDropsSpace | routes/api/instructors.js:58 | Every character dropped from the front is white space. |
| Text.TrimEndDropsSpace | routes/api/instructors.js:58 | Every character dropped from the end is white space. |
| Text.TrimIsSlice | routes/api/instructors.js:58 | `trim` returns the slice between the leading and the trailing white space, and everything it drops is white space. |
| Text.Trim | routes/api/instructors.js:58 | Definition of `trim()`: leading, then trailing white space dropped; proved to be the white-space-bounded slice in TrimIsSlice. |
| Text.TrimEnds | routes/api/instructors.js:58 | A trimmed string neither starts nor ends with white space. |
| Text.TrimNoop | routes/api/instructors.js:58 | A string with no white space at either end is its own trim. |
| Text.TrimIdempotent | routes/api/instructors.js:58 | Trimming twice is trimming once. |
| Text.Split | routes/api/instructors.js:56-57 | `split(',')` gives one more piece than there are commas, and no piece holds a comma. |
| Text.JoinSplit | routes/api/instructors.js:56-57 | Joining the pieces of a split with the separator gives back the original string. |
| Text.Join | routes/api/instructors.js:56-57 | Reference inverse of `split(',')`, not in the source: the pieces concatenated with the separator between them. |
| Text.SplitPrefix | routes/api/instructors.js:56-57 | A comma-free piece followed by a comma splits off as the first piece. |
| Text.SplitWhole | routes/api/instructors.js:56-57 | A comma-free string splits into itself alone. |
| Text.SplitJoin | routes/api/instructors.js:56-57 | Splitting a join of comma-free pieces gives back the pieces, in order. |
| Text.NormalizeCategories | routes/api/instructors.js:55-59 | One code per comma-separated item, in order and with no de-duplication; each code is the item trimmed and upper-cased. |
| Text.CategoryCode | routes/api/instructors.js:58 | Definition of `item.trim().toUpperCase()` for one item; its properties are CategoryCodeIdempotent and CategoryCodeCommaFree. |
| Text.CategoryCodeIdempotent | routes/api/instructors.js:58 | Trimming and upper-casing a code again gives the same code. |
| Text.CategoryCodeCommaFree | routes/api/instructors.js:56-58 | A code made from a comma-free item holds no comma. |
| Text.NormalizeCategoriesIdempotent | routes/api/instructors.js:56-58 | Joining the normalised codes with `,` and normalising again gives the same list. |
| Text.NormalizedCodesAreStable | routes/api/instructors.js:56-58 | Every normalised code is a fixed point of the normalisation and holds no lower-case letter. |
| Validation.Field | routes/api/cars.js:43 | The body's value for a field; for a field that passes its check, the value as sent. |
| Validation.Validate | routes/api/cars.js:35-41 | At most as many errors as checks, and no errors exactly when every required field is present and non-empty. |
| Validation.ValidateNoDuplicates | routes/api/cars.js:21-41 | When the checks read distinct fields, no field is reported twice: one entry per failing check. |
| Validation.ValidateReportsEachFailure | routes/api/cars.js:21-41 | Every failing check contributes its own `{param, msg}` entry. |
| Validation.ValidateReportsOnlyFailures | routes/api/cars.js:21-41 | Every entry comes from a declared check whose field is missing or empty. |
| Storage.FailureAt | routes/api/cars.js:59-78 | Definition of the injected failure, not a proved property: it hits exactly the named storage call. |
| Storage.OwnedBy | routes/api/cars.js:187-190 | `find({ user })` returns exactly the owner's documents, unchanged. |
| Storage.Owns | routes/api/cars.js:217-220 | Definition of what `{ user: owner, _id: id }` selects: the document exists and belongs to the owner. |
| Storage.HasKey | routes/api/cars.js:60-63 | Definition of `findOne({ user, <key>: value })` finding a document: some document of the owner holds that key value. |
| Storage.InsertKeepsKeyUnique | routes/api/cars.js:60-76 | Inserting a record whose key its owner does not hold yet keeps keys unique per owner. |
| Storage.OverwriteCanDuplicateKey | routes/api/cars.js:160-168 | An update that sets a key another record of the same owner holds leaves two records with that key. |
| Storage.SetKeepsOthers | routes/api/cars.js:160-168 | Replacing the fields of one owned record leaves other owners' records alone and keeps the owner's set of ids. |
| Storage.Collection.constructor | routes/api/cars.js:10 | An empty collection satisfies the store invariants. |
| Storage.Collection.FindByKey | routes/api/cars.js:60-63 | Definition of the `findOne` primitive, not a proved property: it answers whether the owner has a document with that key, or throws the injected failure. |
| Storage.Collection.FindById | routes/api/cars.js:217-220 | A cast failure happens exactly for ids that do not cast, and never for a 24-digit hexadecimal id. Otherwise the result is the injected failure, or the owner's document whose stored id the path id spells in either case, if there is one. |
| Storage.Collection.FindAll | routes/api/cars.js:187-190 | Definition of the `find` primitive, not a proved property: the owner's documents, or the injected failure. |
| Storage.Collection.Insert | routes/api/cars.js:71-76 | On success, it adds exactly the new document under the fresh id. On failure, the store is unchanged. |
| Storage.Collection.Update | routes/api/cars.js:160-168 | On success, it replaces exactly the owner's document with the patched fields and returns it. On failure, the store is unchanged. |
| Storage.Collection.Resave | routes/api/cars.js:170 | Definition of the `save()` round trip, not a proved property: it either succeeds or throws the injected failure, and changes nothing. |
| Storage.Collection.Remove | routes/api/cars.js:262 | On success, it removes exactly that id. On failure, the store is unchanged. |
| Api.ServerFailure | routes/api/cars.js:89-91 | Definition of the 500 response, not a proved property: status 500 with `Server Error`. |
| Api.Rejected | routes/api/cars.js:37-41 | Status 400 with the (non-empty) list of validation errors. |
| Api.CatchNotFoundOnCast | routes/api/students.js:151-160 | A cast error gives 404 with the resource's message; any other error gives 500. |
| CarRoutes.RulesMeaning | routes/api/cars.js:21-32 | The car checks pass exactly when name, number and category are all non-empty. |
| CarRoutes.NormalisedWellFormed | routes/api/cars.js:45-57 | A valid request yields a car with the name as sent and the number and category upper-cased. |
| CarRoutes.Normalised | routes/api/cars.js:45-57 | Definition of the car a request describes: the name as sent, number and category upper-cased; NormalisedWellFormed proves it well formed. |
| CarRoutes.SetFields | routes/api/cars.js:160-168 | Definition of `{ $set: carFields }`: each supplied field replaces the stored one; SetFieldsOnlySupplied states its properties. |
| CarRoutes.SetFieldsOnlySupplied | routes/api/cars.js:160-168 | `$set` changes only the supplied fields; a patch that supplies every field does not depend on the stored car. |
| CarRoutes.CollectFields | routes/api/cars.js:45-57 | `carFields` holds each truthy field, normalised; for a valid body, patching any car with it gives the normalised request. |
| CarRoutes.CatchCreate | routes/api/cars.js:78-92 | A duplicate-key error is 400 `Car already exists`; anything else is 500. |
| CarRoutes.Create | routes/api/cars.js:16-94 | Invalid body: 400 with the errors. Otherwise, in order: a failed lookup goes to the catch; a car of the owner whose stored number equals the raw number gives 400; a failed save goes to the catch; else exactly one record owned by the caller is added and returned. Nothing of other owners changes. |
| CarRoutes.Update | routes/api/cars.js:100-179 | Invalid body: 400. An id that does not cast, or a failed lookup: 500. A malformed id or no such car of the owner: 404. Otherwise exactly that record gets the normalised fields; no uniqueness check is made. The store is unchanged on every error before the update. |
| CarRoutes.List | routes/api/cars.js:185-209 | Exactly the owner's cars; 404 when there are none; 500 on failure. |
| CarRoutes.GetById | routes/api/cars.js:215-239 | A cast failure or a failed lookup gives 500. Otherwise 200 with the record exactly when the id is an ObjectId of a car the caller owns, else 404. |
| CarRoutes.GetByIdGuarded | routes/api/cars.js:222-230 | With the format check before the lookup, a malformed id is always 404 and a 500 only comes from a storage failure. |
| CarRoutes.Delete | routes/api/cars.js:245-270 | On 200 exactly the caller's car with that id is removed; otherwise the store is unchanged. The 404 and 500 cases are as in GET `/:id`. |
| CarRoutes.RawPlateCheckAdmitsDuplicate | routes/api/cars.js:51-76 | When the owner already has the upper-cased plate and the request sends it with a lower-case letter, the pre-check finds nothing and the insert breaks plate uniqueness. |
| CarRoutes.PlateTakenKeepsPlatesUnique | routes/api/cars.js:60-76 | Checking the upper-cased plate instead keeps plates unique per owner. |
| InstructorRoutes.RulesMeaning | routes/api/instructors.js:21-32 | The instructor checks pass exactly when name, inn and categories are all non-empty. |
| InstructorRoutes.NormalisedWellFormed | routes/api/instructors.js:45-59 | A valid request yields an instructor with the name as sent and `inn` upper-cased. Its categories hold one stable code per comma-separated item, as many as commas plus one. |
| InstructorRoutes.Normalised | routes/api/instructors.js:45-59 | Definition of the instructor a request describes: the name as sent, `inn` upper-cased, categories normalised. |
| InstructorRoutes.SetFields | routes/api/instructors.js:155-164 | Definition of `{ $set: instructorFields }`: each supplied field replaces the stored one. |
| InstructorRoutes.SetFieldsOnlySupplied | routes/api/instructors.js:155-164 | `$set` changes only the supplied fields. |
| InstructorRoutes.CollectFields | routes/api/instructors.js:45-59 | `instructorFields` holds each truthy field, normalised. |
| InstructorRoutes.Create | routes/api/instructors.js:16-87 | As for cars, keyed on the raw `inn`, except that every exception is a 500. |
| InstructorRoutes.Update | routes/api/instructors.js:93-183 | An id that does not cast is 404, as is a malformed id or a missing record. Other failures are 500. Otherwise exactly that record gets the normalised fields. |
| InstructorRoutes.List | routes/api/instructors.js:189-213 | Exactly the owner's instructors; 404 when there are none; 500 on failure. |
| InstructorRoutes.GetById | routes/api/instructors.js:219-243 | A cast failure or a failed lookup gives 500; otherwise 200 exactly for the caller's record, else 404. |
| InstructorRoutes.Delete | routes/api/instructors.js:249-274 | Removes exactly the caller's record on 200; a cast failure gives 500. |
| InstructorRoutes.RawInnCheckAdmitsDuplicate | routes/api/instructors.js:51-78 | A lower-case `inn` the owner already holds upper-cased passes the pre-check and breaks `inn` uniqueness. |
| InstructorRoutes.InnTakenKeepsInnsUnique | routes/api/instructors.js:62-78 | Checking the upper-cased `inn` keeps `inn` unique per owner. |
| StudentRoutes.RulesMeaning | routes/api/students.js:21-30 | The student checks pass exactly when name and passport are non-empty. |
| StudentRoutes.NormalisedWellFormed | routes/api/students.js:42-50 | A valid request yields a student with the name as sent and the passport upper-cased. |
| StudentRoutes.Normalised | routes/api/students.js:42-50 | Definition of the student a request describes: the name as sent, the passport upper-cased. |
| StudentRoutes.SetFields | routes/api/students.js:136-144 | Definition of `{ $set: studentFields }`: each supplied field replaces the stored one. |
| StudentRoutes.SetFieldsOnlySupplied | routes/api/students.js:136-144 | `$set` changes only the supplied fields. |
| StudentRoutes.CollectFields | routes/api/students.js:42-50 | `studentFields` holds each truthy field, normalised. |
| StudentRoutes.Create | routes/api/students.js:16-78 | As for cars, keyed on the raw passport; every exception is a 500. |
| StudentRoutes.Update | routes/api/students.js:84-162 | Uses the same cases as the instructor PUT, with `Student not found`. |
| StudentRoutes.List | routes/api/students.js:168-192 | Exactly the owner's students; 404 when there are none; 500 on failure. |
| StudentRoutes.GetById | routes/api/students.js:198-227 | An id that does not cast gives 404. It answers 200 exactly when the lookup succeeds and the id is an ObjectId of a student the caller owns. |
| StudentRoutes.Delete | routes/api/students.js:233-263 | Removes exactly the caller's record on 200; an id that does not cast gives 404. |
| StudentRoutes.RawPassportCheckAdmitsDuplicate | routes/api/students.js:48-69 | A lower-case passport serial the owner already holds upper-cased passes the pre-check and breaks uniqueness. |
| StudentRoutes.PassportTakenKeepsPassportsUnique | routes/api/students.js:53-69 | Checking the upper-cased serial keeps serials unique per owner. |
| GroupRoutes.RulesMeaning | routes/api/groups.js:24-32 | The group checks pass exactly when name, start and end are non-empty. |
| GroupRoutes.FromBodyWellFormed | routes/api/groups.js:43-62 | A valid request yields a group holding the three values exactly as sent. |
| GroupRoutes.FromBody | routes/api/groups.js:43-62 | Definition of the group a request describes: name, start and end as sent. |
| GroupRoutes.SetFields | routes/api/groups.js:134-142 | Definition of `{ $set: groupFields }`: each supplied field replaces the stored one. |
| GroupRoutes.SetFieldsOnlySupplied | routes/api/groups.js:134-142 | `$set` changes only the supplied fields. |
| GroupRoutes.CollectFields | routes/api/groups.js:105-115 | `groupFields` holds each truthy field as sent. |
| GroupRoutes.Create | routes/api/groups.js:19-73 | As for cars, keyed on the name as sent; every exception is a 500. Group names that were unique per owner stay unique. |
| GroupRoutes.Update | routes/api/groups.js:79-160 | Uses the same cases as the instructor PUT, with `Group not found`. |
| GroupRoutes.RenameCanDuplicateName | routes/api/groups.js:134-145 | PUT with the name of another of the owner's groups leaves two groups of that name. |
| GroupRoutes.List | routes/api/groups.js:166-190 | Exactly the owner's groups; 404 when there are none; 500 on failure. |
| GroupRoutes.GetById | routes/api/groups.js:196-225 | Follows the student GET `/:id` cases, with `Group not found`. |
| GroupRoutes.Delete | routes/api/groups.js:231-261 | Removes exactly the caller's record on 200; an id that does not cast gives 404; name uniqueness is kept. |
| Scenarios.LowerCasePlatePostedTwice | routes/api/cars.js:51-77 | Posting plate `ab123cd` twice as one owner gives two 200s and two cars with plate `AB123CD`. |
| Scenarios.GroupPostedTwice | routes/api/groups.js:46-65 | Posting the same group twice as one owner gives 200, then 400 `Group already exists`. |
| Scenarios.MalformedCarId | routes/api/cars.js:215-239 | GET `/api/cars/not-an-id` answers 500 `Server Error`. |
| Scenarios.MalformedCarIdGuarded | routes/api/cars.js:222-230 | With the guard first, the same request answers 404 `Car not found`. |
| Scenarios.MalformedStudentId | routes/api/students.js:198-227 | GET `/api/students/not-an-id` answers 404 `Student not found`. |
| Scenarios.TwelveCharacterCarId | routes/api/cars.js:222-230 | A 12-character id casts but fails the format check: 404 `Car not found`. |
| Scenarios.OtherOwnersCar | routes/api/cars.js:185-230 | Another owner can neither read a car by id nor see it listed. |
| Scenarios.UpperCaseCarId | routes/api/cars.js:215-236 | The owner's car requested with its id spelt in upper case is found: 200 with the car under its stored id. |
| Scenarios.CategoriesExample | routes/api/instructors.js:55-59 | Categories `"b, ce"` are stored as `["B", "CE"]`. |

## Left out

- Database connection, configuration and process exit are I/O; `db/index.js` is not part of this model.
- Authentication middleware: the owner id is a parameter.
- Logging (`console.error`) is output only.
- The JSON envelopes are not modelled. Some handlers answer `{ msg }` and others `{ errors: [{ msg }] }`; only the status and the message text are modelled.
- `.populate('user', ['name'])` is left out; listings and single records carry the owner id only.
- Order of listings: a listing is the map of the owner's documents, which holds no order.
- Timestamps: the `date: Date.now()` defaults are not modelled.
- Concurrency is not modelled. This covers two creates racing past the pre-check, and a record deleted between `findOne` and `findOneAndUpdate`, after which `save()` runs on `null`.
- Mongoose's exact ObjectId cast rules are abstract (`castable`). The model assumes only that 24-digit hexadecimal ids cast. The scenarios use "24 hex digits or any 12 characters".
- Storage.Collection.FindById: a castable id that is not 24 hexadecimal digits, such as a 12-character id, is treated as absent. Mongoose would cast it to the ObjectId made of its 12 bytes, which could be a stored id. Every by-id handler then answers 404 through the format check and changes nothing, so no response or store differs.
- The ids the storage assigns are not modelled: each create takes a fresh 24-digit lower-case hexadecimal id as a parameter.
- Failure kinds are not tied to the calls that can raise them: a `Fault` may make the `findOne` pre-check of a car create fail with `DuplicateKey`, which a read cannot raise, and the model then answers 400 `Car already exists`. Every outcome the program can produce is covered; this one is extra.
- Unicode upper-casing: `toUpperCase` is modelled on ASCII letters only. `trim` uses the full ECMAScript white-space set.
- Non-string request fields are not modelled. An example is a non-string `categories`, split outside the `try`; the body maps field names to strings.
- express-validator's `check` also reads cookies, headers, route parameters and the query string; the model reads the body only. A required field found only there passes the check while `req.body` lacks it. The program then builds the record without it: on POST, Mongoose's `required` validation makes `save()` throw and the catch answers 500; on PUT, the field keeps its stored value. The model does not capture either outcome.
- The Group schema is not part of this model, so `start` and `end` are kept as the strings sent; their conversion to dates, and the cast errors it may raise, are not modelled.
- Mongoose schema validation on `save` (required fields) is not modelled: for a body that passes the checks it never fails; the case where it does is the one in the line on express-validator above.

## Findings

The handlers model the code as written. Each corrected definition sits beside the handler it corrects: the `…Taken` predicates for the pre-check, and `CarRoutes.GetByIdGuarded` for the guard order. The intended property is proved about each of them.

| source | as written | input that shows it | evidently intended | confidence | as-written member | corrected member |
|---|---|---|---|---|---|---|
| routes/api/cars.js:60-63 | The duplicate pre-check queries the raw `req.body.number`, while line 52 stores the number upper-cased. | The same owner posts a car with number `ab123cd` twice: both posts answer 200, and the owner has two cars `AB123CD`. | Check the upper-cased number, so that plate numbers stay unique per owner. | not executed | CarRoutes.RawPlateCheckAdmitsDuplicate | CarRoutes.PlateTakenKeepsPlatesUnique |
| routes/api/instructors.js:62-65 | The pre-check queries the raw `req.body.inn`, while line 52 stores `inn` upper-cased. | One owner posts `inn` `ab12` twice: both succeed. | Check the upper-cased `inn`. | not executed | InstructorRoutes.RawInnCheckAdmitsDuplicate | InstructorRoutes.InnTakenKeepsInnsUnique |
| routes/api/students.js:53-56 | The pre-check queries the raw `req.body.passport`, while line 49 stores it upper-cased. | One owner posts passport `ab123456` twice: both succeed. | Check the upper-cased serial. | not executed | StudentRoutes.RawPassportCheckAdmitsDuplicate | StudentRoutes.PassportTakenKeepsPassportsUnique |
| routes/api/cars.js:217-238 | The lookup runs before the id-format check, and the `catch` answers every error with 500. | GET `/api/cars/not-an-id` answers 500 `Server Error`. | 404 `Car not found`, as the format check and the other routers' `catch` intend. | not executed | Scenarios.MalformedCarId | CarRoutes.GetByIdGuarded |
