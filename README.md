# Trek Tribe backend: listing queries, validators and middleware in Dafny

This project models the hand-written logic of the Trek Tribe travel-buddy
backend (Express, Prisma, zod) and proves what that logic promises.

- **User and trip listings.** `getUsersFromDB` and `getAllTripsFromDB` split
  `searchTerm` off the query parameters and compile the rest into a Prisma
  `where` tree. They then run one `findMany` and one `count` with that tree,
  and return `{ meta, data }`.
  - The where tree is the datatype `Where.Pred`. `Where.Matches` evaluates it
    on in-memory rows.
  - `Where.Accepts` states which arguments Prisma's client validation
    accepts (known field, operator the column type offers, value of the
    column's type). Rejected arguments become a `PrismaClientValidationError`.
  - `findMany` and `count` become `Repository.FindMany` and
    `Repository.Count` over a sequence of rows: filter, sort, skip,
    take.
  - The user compiler is an imperative loop over the remaining keys
    (`UserService.CompileUserWhere`). It is proved equal to a recursive
    specification, and the specification is proved to select exactly the
    users that satisfy a reference predicate stated on the user's own
    fields (`UserService.UserSelected`).
- **Trip creation record.** `createTripIntoDB` assembles the record it
  writes: the body, then `userId` and `photos`, which override the body's
  own.
- **Pagination.** `calculatePagination` uses `Number(x) || default` for page
  and limit, and `s || default` for the sort fields.
- **Buddy-request listing.** `getTravelBuddiesFromDB` is a function over a
  snapshot of the store. It does an owner-scoped `findUniqueOrThrow`, then
  lists the trip's requests with the requester's name, e-mail and profile.
- **Request validators.** The zod schemas become parsers of a decoded body.
  Each returns the parsed record, or None where the schema reports an
  error. URL format, e-mail format and date coercion are parameters
  (`Formats.FormatChecks`).
- **Role gate.** `auth(...roles)` becomes a class `Auth.Exchange` holding
  the request's header, `req.user` and the calls made to `next`. Its
  method `Authenticate` is proved against the decision function
  `Auth.Gate`.
- **Error handler.** `globalErrorHandler` becomes a function from the
  thrown value's class to the response body. The three class-specific
  handlers are parameters.

JavaScript's coercions are written out in `Json`:
- truthiness;
- `String(v)`;
- `Number(v)`, for integer text;
- `parseInt(s, 10)`;
- property lookup, where the last duplicate key wins;
- the rest object of a destructuring;
- object spread with an override.

Integers are unbounded. Page, limit, age and budget are whole numbers.

The model follows the code where it departs from the intended design:
- The trip listing turns unknown keys into conditions that Prisma rejects,
  so a bad filter key makes the request fail instead of being ignored.
- The status schema accepts `PENDING`.
- A trip owned by someone else fails as Prisma's P2025 "not found", not
  as the service's own `NOT_FOUND` ApiError, whose branch is unreachable.

## Model

| member | source | states |
|---|---|---|
| Json.Get | src/app/modules/user/user.service.ts:116 | a key has a value exactly when some entry has that key, and the value is one of that key's entries |
| Json.Without | src/app/modules/user/user.service.ts:96 | the rest object keeps exactly the entries whose key is not the removed one, and is no longer than the original |
| Json.GetWithout | src/app/modules/user/user.service.ts:96 | after the split the removed key is absent and every other key reads as before |
| Json.Put | src/app/modules/trip/trip.service.ts:25-29 | a spread with a later key: that key reads the new value (absent when undefined), every other key reads as in the original |
| Json.DistinctGet | src/app/modules/user/user.service.ts:114-116 | in an object, reading an entry's key gives that entry's value |
| Json.WithoutDistinct | src/app/modules/user/user.service.ts:96 | the rest object of an object has distinct keys too |
| Json.Utf16Length | src/app/modules/user/user.validation.ts:9-11 | `.length` lies between the number of characters and twice that, and is 0 only for the empty string |
| Json.Utf16LengthBasic | src/app/modules/user/user.validation.ts:9-11 | outside the astral planes `.length` is the number of characters |
| Json.Utf16LengthAstral | src/app/modules/user/user.validation.ts:11 | two emoji are two characters but four code units |
| Json.ParseIntOfText | src/app/modules/user/user.service.ts:128-132 | `parseInt` reads back the decimal text of every integer, whatever non-digit text follows |
| Json.NumberOfText | src/helpers/paginationHelper.ts:17-18 | `Number` reads back the decimal text of every integer, alone or as a one-element array |
| Errors.MessageList | src/app/middlewares/globalErrorHandler.ts:37-44 | the list is empty exactly when the message is empty, else the single entry with path '' |
| Errors.GlobalErrorHandler | src/app/middlewares/globalErrorHandler.ts:12-51 | never success; stack kept exactly outside production; Prisma-validation, zod and known-request errors copy their handler's triple; ApiError keeps its own status and message; any other Error gives 500 with its message; for ApiError and Error the errorMessages are the message's one-entry list (empty for an empty message); a non-Error gives 500, 'Something went wrong', [] |
| Errors.ApiErrorBeforeError | src/app/middlewares/globalErrorHandler.ts:22-44 | an ApiError is an Error too, yet its own status survives because its branch is tried first |
| Pagination.NumberOr | src/helpers/paginationHelper.ts:17-18 | the result is the fallback or the number read; a number read that is 0, or no number at all (NaN), gives the fallback, and every other number is kept |
| Pagination.TextOr | src/helpers/paginationHelper.ts:20-21 | the result is the fallback or the given non-empty text |
| Pagination.CalculatePagination | src/helpers/paginationHelper.ts:16-29 | total; page and limit are `Number(x) \|\| default` of the options; skip is always (page - 1) * limit; page and limit are never 0; sort fields never empty |
| Pagination.AbsentOptionsDefaults | src/helpers/paginationHelper.ts:17-21 | no options give page 1, limit 5, skip 0, createdAt desc |
| Pagination.ZeroOrNaNFallsBack | src/helpers/paginationHelper.ts:17-18 | each of page and limit, separately, takes its default when it reads as 0 or as no number; a defaulted page gives skip 0 |
| Pagination.NumbersPassThrough | src/helpers/paginationHelper.ts:17-19 | each of page and limit, separately, that reads as a non-zero number, negative ones too, passes unchanged; page -1 skips -2 limits |
| Pagination.TextOptions | src/helpers/paginationHelper.ts:17-19 | page and limit given as query-string text, such as "3" and "10", are read as those numbers, and skip follows them |
| Pagination.SortTextPassThrough | src/helpers/paginationHelper.ts:20-21 | absent or empty sort text gives the default, anything else is returned as given |
| Where.SearchGroup | src/app/modules/user/user.service.ts:100-108 | one `contains term` per searchable field, in field order, inside one OR |
| Where.SearchGroupMatches | src/app/modules/user/user.service.ts:100-108 | a row matches the OR-group exactly when one searchable field contains the term |
| Where.AndConcat | src/app/modules/user/user.service.ts:204-205 | an AND of two condition lists holds exactly when each list holds |
| Where.AcceptsConcat | generated/prisma/index.d.ts:6062-6065 | an AND of two lists is accepted exactly when each list is |
| Where.SearchGroupAccepted | generated/prisma/index.d.ts:6714-6727 | the OR-group is accepted exactly when every searchable field is a text column and the term is text |
| Repository.Filter | src/app/modules/user/user.service.ts:210-211 | the filtered rows are exactly the stored rows the where tree matches, each as often as it is stored, and no other row |
| Repository.BeforeTotal | src/app/modules/user/user.service.ts:214-221 | any two rows are comparable under an orderBy |
| Repository.BeforeTrans | src/app/modules/user/user.service.ts:214-221 | the orderBy comparison is transitive |
| Repository.Insert | src/app/modules/user/user.service.ts:214-221 | inserting adds exactly that row (as a multiset), and inserting into rows in order keeps them in order |
| Repository.Sort | src/app/modules/user/user.service.ts:214-221 | the result is a permutation of the rows and is in the orderBy order |
| Repository.Window | src/app/modules/user/user.service.ts:212-213 | the page is the slice starting at skip, min(take, rows left after skip) rows long; a negative take gives the last -take rows before the skipped tail |
| Repository.WindowOrdered | src/app/modules/user/user.service.ts:212-221 | a window of sorted rows is sorted |
| Repository.FindMany | src/app/modules/user/user.service.ts:210-225 | succeeds exactly when where and orderBy are accepted and skip is not negative, else a validation failure; on success the result is the skip/take window of the matching rows sorted by orderBy, and is in that order |
| Repository.FindManyRows | src/app/modules/user/user.service.ts:210-225 | a successful page holds matching stored rows only, no more than match, min(take, total - skip) of them, or for a negative take min(-take, total - skip) |
| Repository.Count | src/app/modules/user/user.service.ts:227-229 | succeeds exactly when where is accepted; the value is the number of matching rows, never more than the stored rows |
| Records.TextArrayHas | generated/prisma/index.d.ts:6983-6989 | a value is an element of a stored text list exactly when it is text and one of the list's strings |
| Listing.ListPage | src/app/modules/user/user.service.ts:204-238 | succeeds exactly when Prisma accepts where and orderBy and skip is not negative; meta echoes page and limit and total is the size of the filtered set; data is the skip/limit window of the filtered rows sorted by the requested order, and is in that order |
| Listing.ListPageRows | src/app/modules/user/user.service.ts:204-238 | a successful page holds matching stored rows only, at most total; min(limit, total - skip) of them, or for a negative limit min(-limit, total - skip) |
| Listing.OrderNeedsBoth | src/app/modules/trip/trip.service.ts:84-91 | the requested order is used only when both sortBy and sortOrder are given; one of them alone still sorts createdAt desc |
| UserService.AgeCondition | src/app/modules/user/user.service.ts:119-165 | the age branch, with `ageRangeFilter` filled field by field, produces the step of the age specification |
| UserService.CompileFieldFilters | src/app/modules/user/user.service.ts:113-197 | the `for...in` loop over an object pushes exactly the specified field filters and warnings, key by key in order, each value read back by its key |
| UserService.CompileUserWhere | src/app/modules/user/user.service.ts:96-205 | the search group and the field group, pushed in that order and wrapped in AND (or `{}`), are the specified where tree; warnings are those of the remaining keys |
| UserService.GetUsersFromDB | src/app/modules/user/user.service.ts:94-239 | the listing page of the compiled tree; success exactly when the query is accepted, else a validation failure; every returned user is stored and satisfies the reference selection |
| UserService.UserColumns | generated/prisma/index.d.ts:6062-6077 | the columns the user filters name and their types |
| UserService.AgeEqualsMeaning | src/app/modules/user/user.service.ts:119-133 | `profile.age equals n` selects exactly the users with a profile of age n, and is always accepted |
| UserService.AgeRangeMeaning | src/app/modules/user/user.service.ts:134-157 | the age range selects exactly the users whose profile age lies within the given bounds, and is always accepted |
| UserService.AgeStepMeaning | src/app/modules/user/user.service.ts:119-165 | the age condition selects exactly the users the reference age rule selects, and is always accepted |
| UserService.BioStepMeaning | src/app/modules/user/user.service.ts:166-176 | bio selects users whose profile bio contains String(value), ignoring case, and is always accepted |
| UserService.EqualsStepMeaning | src/app/modules/user/user.service.ts:178-192 | role and status compare the raw value, email and name compare String(value); accepted exactly when role and status values are enum members |
| UserService.StepMeaning | src/app/modules/user/user.service.ts:114-197 | each key's condition selects exactly what the reference rule for that key selects, and is accepted exactly when the key's value fits |
| UserService.FieldFiltersMeaning | src/app/modules/user/user.service.ts:112-202 | the AND of all field filters holds exactly when every key's rule holds, and is accepted exactly when every key's value fits |
| UserService.UserWhereMatches | src/app/modules/user/user.service.ts:96-205 | the compiled tree selects exactly the users of the reference selection |
| UserService.UserWhereAccepted | src/app/modules/user/user.service.ts:96-205 | the compiled tree is accepted exactly when the reference acceptance rule holds |
| UserService.SearchTermNotAField | src/app/modules/user/user.service.ts:96 | searchTerm never reaches the field filters |
| UserService.FalsySearchTerm | src/app/modules/user/user.service.ts:96-100 | a falsy searchTerm adds no OR-group |
| UserService.TruthySearchGroup | src/app/modules/user/user.service.ts:100-109 | a truthy searchTerm adds exactly one OR-group, first, with one case-insensitive contains per searchable field |
| UserService.AgeEquals | src/app/modules/user/user.service.ts:119-135 | a number age, or text whose parseInt succeeds, becomes one equals on profile.age with that value |
| UserService.AgeRange | src/app/modules/user/user.service.ts:136-162 | an object age gives gte from a readable min and lte from a readable max, independently; with neither, no condition and a warning |
| UserService.IgnoredKeys | src/app/modules/user/user.service.ts:114-197 | other keys, and an age of any other type, add nothing and cannot make the query fail |
| UserService.EmptyWhere | src/app/modules/user/user.service.ts:199-205 | where is {} exactly when there is no truthy searchTerm and no field filter |
| TripService.CompileTripWhere | src/app/modules/trip/trip.service.ts:58-79 | over an object, the pushes onto andConditions build the corrected where tree |
| TripService.EqualsGroupByKey | src/app/modules/trip/trip.service.ts:69-77 | over an object, each equality carries the value read back by its key |
| TripService.GetAllTripsFromDB | src/app/modules/trip/trip.service.ts:54-114 | the listing page of the corrected tree; success exactly when the query is accepted, else a validation failure; every returned trip is stored and satisfies the reference selection |
| TripService.CreateTripData | src/app/modules/trip/trip.service.ts:11-33 | photos is [] without a file and exactly one entry with one; userId is the caller's; every other key is the body's |
| TripService.TripColumns | generated/prisma/index.d.ts:6205-6224 | the searchable trip columns and their types; activities is a text list |
| TripService.CorrectedSearchGroupShape | src/app/modules/trip/trip.service.ts:60-68 | the corrected group is contains on the three text fields and has on activities, in field order |
| TripService.TripSearchRejected | src/app/modules/trip/trip.service.ts:60-68 | as written, every truthy searchTerm makes the where tree invalid and the listing fails validation |
| TripService.CorrectedSearchAccepted | src/app/modules/trip/trip.service.ts:60-68 | the corrected group is accepted exactly when the term is text |
| TripService.CorrectedSearchMatches | src/app/modules/trip/trip.service.ts:60-68 | the corrected group selects trips whose text field contains the term or whose activities include it |
| TripService.CombineMeaning | src/app/modules/trip/trip.service.ts:69-79 | the combined tree holds exactly when the search group and every key's equals hold, and is accepted exactly when both parts are |
| TripService.TripWhereMatches | src/app/modules/trip/trip.service.ts:56-79 | the compiled tree selects exactly the trips of the reference selection |
| TripService.TripWhereAccepted | src/app/modules/trip/trip.service.ts:56-79 | the compiled tree is accepted exactly when the reference acceptance rule holds |
| TripService.UnknownKeyRejected | src/app/modules/trip/trip.service.ts:69-77 | with no whitelist, a key that is not a trip column makes the listing fail validation |
| TripService.EveryKeyEquals | src/app/modules/trip/trip.service.ts:69-77 | every other key becomes one equals, in key order, with the value unchanged |
| TripService.EmptyTripWhere | src/app/modules/trip/trip.service.ts:58-79 | where is {} exactly when there is no truthy searchTerm and no other key |
| TripService.CorrectionOnlySearch | src/app/modules/trip/trip.service.ts:60-68 | the correction changes only the search group |
| TripService.UploadedPhoto | src/app/modules/trip/trip.service.ts:13-22 | the uploaded entry is { url, isDeleted: false }, and the photo schema accepts it exactly when the URL is well formed |
| BuddyService.FindTrip | src/app/modules/travelBuddyRequest/travelBuddyRequest.service.ts:7-12 | a trip is found exactly when one has the id and, when a caller is given, the caller as owner |
| BuddyService.RequestsFor | src/app/modules/travelBuddyRequest/travelBuddyRequest.service.ts:16-29 | only stored requests for the trip, whatever their status, and every one of them, each with its requester's name, e-mail and profile |
| BuddyService.RequestsForOnce | src/app/modules/travelBuddyRequest/travelBuddyRequest.service.ts:16-29 | each stored request for the trip is listed exactly as often as it is stored, and no other request is |
| BuddyService.GetTravelBuddiesFromDB | src/app/modules/travelBuddyRequest/travelBuddyRequest.service.ts:6-30 | fails with P2025 exactly when no trip matches the id and owner; otherwise lists each stored request for the trip exactly as often as it is stored and no other request, each projected to name, e-mail and profile |
| BuddyService.OtherOwnerLikeMissing | src/app/modules/travelBuddyRequest/travelBuddyRequest.service.ts:7-12 | a trip owned by someone else gives the same result as no trip at all |
| BuddyService.UndefinedCallerUnscoped | src/app/modules/travelBuddyRequest/travelBuddyRequest.service.ts:10 | an undefined caller id drops the ownership condition |
| TripValidation.ParsePhotos | src/app/modules/trip/trip.validation.ts:18 | a photo array is accepted exactly when every element is, and parses element by element |
| TripValidation.ParseStrings | src/app/modules/trip/trip.validation.ts:19 | a string array is accepted exactly when every element is text, and keeps the texts |
| TripValidation.PhotoListValid | src/app/modules/trip/trip.validation.ts:4-7 | a photo list is accepted exactly when every item has URL text `url` and a boolean `isDeleted`; the parsed list then has one photo per item, keeping that item's url and isDeleted |
| TripValidation.CreateIsUpdateWithRequired | src/app/modules/trip/trip.validation.ts:10-32 | create accepts exactly what update accepts with the six required fields present, and agrees with it field by field, defaulting photos and activities to [] |
| TripValidation.UpdateAcceptsEmpty | src/app/modules/trip/trip.validation.ts:22-32 | update accepts {} with no defaults; create rejects it |
| TripValidation.EmptyTextRejected | src/app/modules/trip/trip.validation.ts:11-16 | an empty destination, type or description is rejected by both schemas |
| TripValidation.BudgetFromText | src/app/modules/trip/trip.validation.ts:14 | budget text is coerced to its number and accepted exactly when not negative |
| TripValidation.ItineraryForms | src/app/modules/trip/trip.validation.ts:17 | itinerary may be absent, null or text in both schemas, and nothing else |
| TripValidation.SendRequestBody | src/app/modules/trip/trip.validation.ts:34-38 | the body object is required, message inside it is optional text |
| UserValidation.UserAccepted | src/app/modules/user/user.validation.ts:8-13 | a non-empty name, a valid e-mail and a password of four or more UTF-16 code units are accepted, profile left out |
| UserValidation.UserFieldRules | src/app/modules/user/user.validation.ts:9-11 | an accepted user has a non-empty name, a valid e-mail and a password of at least four UTF-16 code units; a shorter password is rejected |
| UserValidation.PasswordLengthInCodeUnits | src/app/modules/user/user.validation.ts:11 | a password of two emoji is long enough, one of three letters is not |
| UserValidation.AgeNotCoerced | src/app/modules/user/user.validation.ts:5 | a numeric-text age is rejected, unlike the coerced trip budget |
| UserValidation.ProfileOptional | src/app/modules/user/user.validation.ts:3-6 | profile may be left out; when given it must parse as a profile |
| BuddyValidation.StatusRoundTrip | src/app/modules/travelBuddyRequest/travelBuddyRequestValidation.ts:3 | the accepted status texts are exactly the names of the RequestStatus enum |
| BuddyValidation.PendingAccepted | src/app/modules/travelBuddyRequest/travelBuddyRequestValidation.ts:3 | PENDING is accepted |
| BuddyValidation.StatusPlacement | src/app/modules/travelBuddyRequest/travelBuddyRequestValidation.ts:5-9 | status is required and is read only under body |
| Auth.Gate | src/app/middlewares/auth.ts:8-26 | proceeds exactly when a token is present, verifies, and its role is allowed; req.user is set exactly when the token verifies; the error is 401, the verifier's own, or 403 by branch |
| Auth.Exchange.Authenticate | src/app/middlewares/auth.ts:10-26 | next is called exactly once with the gate's argument; req.user becomes the verified payload, or stays unchanged |
| Auth.MissingTokenNotVerified | src/app/middlewares/auth.ts:12-15 | a missing token gives 401 whatever the verifier would say |
| Auth.NoRolesAdmitAll | src/app/middlewares/auth.ts:19 | with no required roles every verified token passes |
| Auth.ForbiddenKeepsUser | src/app/middlewares/auth.ts:18-21 | a refused role gives 403 with req.user already set |
| Auth.GateResponses | src/app/middlewares/auth.ts:14-20 | the handler answers 401 and 403 with their one-entry message lists, and a verifier's plain Error with 500 and its message |

## Left out

- I/O: the database, Cloudinary uploads, `console.log`/`console.dir`, and the HTTP response object. The two `console.warn` calls of the user listing are returned as a list of warnings.
- `userSearchableFields` is defined outside these files, so it is a parameter of the user listing.
- `include`/`select` joins of the listings are left out: the listings return the stored rows themselves.
- Prisma's error messages and the database's collation are not modelled. `Repository.Sort` sorts by a fixed total preorder on values (missing and null first, then booleans, numbers and texts, texts by code point); it is proved ordered and a permutation, but its stability among equal keys is not stated.
- The query parameters are JavaScript objects, so the listings and compilers require distinct keys (`Json.DistinctKeys`); the query-string parser never gives a key twice.
- Fractional numbers, exponents, hexadecimal and `Infinity` in `Number(...)` are read as NaN. Only the ASCII white space and U+00A0/U+FEFF are skipped.
- Date coercion and the URL and e-mail checks are parameters; the order of zod's issue list and its message texts are not modelled.
- `Errors.GlobalErrorHandler`: the three error-specific handlers are parameters, and the stack trace is an opaque string.
- `BuddyService.GetTravelBuddiesFromDB`: requires that every request's user exists, which the foreign key guarantees in the database. The operation is a function of a snapshot, so it is read-only by construction. The request query names no order, so the model promises none: it lists requests in store order, and no contract states that order.
- `TripService.CreateTripData`: the generated client types `photos` as a list of strings, while the code writes objects; the model keeps the objects the code writes.
- `Where.ContainsText`: `mode: 'insensitive'` folds only the ASCII letters A-Z; the database folds other letters by its locale too (a search for "é" finds "É" there, not in the model).
- `Where.ValueFits`: any text is accepted for a DateTime column, while Prisma accepts only a full ISO-8601 timestamp there (a bare `2024-05-01` is rejected); the model therefore accepts some date filters Prisma refuses.
- `TripService.GetAllTripsFromDB`: equality on `startDate` and `endDate` compares the stored text with the given text, not instants, so two spellings of the same instant differ; `TripService.TripWhereAccepted` inherits the text rule of `Where.ValueFits` for those columns.
- `TripService.GetAllTripsFromDB` and `TripService.CompileTripWhere`: they use the corrected search group (see Findings), so for a truthy search term they state the intended behaviour, not the code's; `TripService.TripWhere` keeps the code as written.
- Photo-list merging on update, buddy-request sending and answering, trip update and delete, and an owner-or-admin edit guard have no implementation among the modelled files and are not modelled.
- JWT signing and verification are a parameter of `Auth.Gate`.

## Findings

| source | as written | input that shows it | evidently intended | confidence | as-written member | corrected member |
|---|---|---|---|---|---|---|
| src/app/modules/trip/trip.service.ts:60-68 | the search group puts `contains` on every searchable field, including `activities`, a list of strings whose filter (generated/prisma/index.d.ts:6983-6989) has no `contains` | `GET /trips?searchTerm=hike` | the term is searched in the text fields and looked up among the activities with `has` | medium, not executed | TripService.TripSearchRejected | TripService.CorrectedSearchMatches |
