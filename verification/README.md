# Freight API — a Dafny model of the package service

This project models the core of the freight service's version-1 package API
and proves properties of that model. The core consists of the following parts:

- **the package store**: the JPA repository with its primary-key operations and its JPQL queries;
- **the service** with its four operations:
  - adding a package;
  - tracking packages by tracking number, email and/or postcode;
  - recording a delivery;
  - removing a package;
- **the filter endpoint**: filtering delivered packages by status, postcode or delivery date, and the most-delayed-postcode aggregate;
- **the strategy chains** behind tracking and filtering;
- **the entity/DTO mapper** and the `CustomPage` wrapper;
- **the validation helpers**;
- **the exception handler** that turns exceptions into HTTP answers;
- **the controller's routing**.

Everything is pure. The database is a value of type `Repository.Store`:

- a map from tracking number to entity;
- a newest-first list of keys, standing for the `createdAt` creation order;
- the creation rank the next insert receives.

The subset type `Store` carries the table's invariants:

- every row is stored under its own tracking number;
- the NOT NULL status is present;
- the key list is exactly the stored keys, in strictly decreasing creation rank.

Each service operation takes the store and returns the store afterwards with either the response or the exception it throws. Exceptions are values of `Errors.Error`.

Modules, following the program's structure:

| file | module | models |
|---|---|---|
| wrappers.dfy | `Wrappers` | `Option`, `Result`, `Outcome` |
| strings.dfy | `Strings` | null strings, `isEmpty`, `trim`, `toLowerCase`, `equalsIgnoreCase` |
| dates.dfy | `Dates` | `LocalDate`, its order, `LocalDate.parse` / `toString` for `YYYY-MM-DD` |
| model.dfy | `Model` | `Package`, `PackageDto`, `PackageUpdateDto`, `PostcodeByCountDto`, `DeliveryStatusEnum` |
| errors.dfy | `Errors` | the exception classes and `ErrorMessages` |
| pages.dfy | `Pages` | `PageRequest`, `Page`, `CustomPage` |
| validation.dfy | `Validation` | `ValidationUtil` and the Bean Validation constraints of `PackageDto` |
| mapper.dfy | `Mapper` | `PackageMapper` |
| postcode_tally.dfy | `PostcodeTally` | the GROUP BY / COUNT / ORDER BY of the aggregate query |
| repository.dfy | `Repository` | `PackageRepositoryV1` |
| chains.dfy | `Chains` | the first-applicable-strategy loop |
| track_strategies.dfy | `TrackStrategies` | the five `TrackStrategy` classes |
| filter_strategies.dfy | `FilterStrategies` | the three `FilterStrategy` classes |
| service.dfy | `Service` | `PackageServiceV1Impl` |
| exception_handler.dfy | `ExceptionHandler` | `GlobalExceptionHandler`, `ErrorResponse` |
| controller.dfy | `Controller` | `PackageControllerV1` |

Proved consequences worth knowing:

- **"on-time" is unreachable.** The filter validation accepts "on-time", but the status strategy compares against the lower-cased constant name "on_time". A lone "on-time" filter therefore ends in the "no applicable filter strategy" error (`Service.LoneOnTimeIsRejected`). The service's unit test `testFilterPackages_byStatusOnTime_happy_path` (`src/test/java/com/fkluh/freight/v1/service/PackageServiceV1ImplTest.java:312-323`) expects a page instead. That test mocks the repository and does not reach this branch as the code is written.
- **A status together with a postcode is not rejected.** The status strategy simply wins over the postcode (`Service.StatusWinsOverPostcode`). The test `testFilterPackages_conflictingParameters_rainy_path` (same file, 377-385) expects a validation exception for exactly that input.
- **Three checks are dead code** (`Service.TrackChainIsExhaustive`, `Service.UpdateDeadChecks`):
  - the throw after the track strategy loop;
  - the null check inside `validatePackageToUpdate`;
  - the not-found throw after `findById` in `updatePackage`.
- **DELIVERED is final.** After one successful update, every later update of the same package with a well-formed date fails and changes nothing (`Service.DeliveredIsFinal`).

## Model

Source paths are relative to the repository root.

| member | source | states |
|---|---|---|
| Strings.Trim | src/main/java/com/fkluh/freight/v1/util/ValidationUtil.java:23 | `trim` keeps exactly the characters between the first and the last one above U+0020; it yields the empty string exactly when every character is at most U+0020, and otherwise starts and ends with a kept character |
| Strings.LowerAscii | src/main/java/com/fkluh/freight/v1/service/strategy/filter/FilterStrategyByStatus.java:24-25 | lower-casing keeps the length and maps each character independently, letters A-Z to a-z |
| Dates.DaysInMonth | src/main/java/com/fkluh/freight/v1/util/ValidationUtil.java:30 | a month has 28 to 31 days, and 29 exactly for February of a Gregorian leap year |
| Dates.Parse | src/main/java/com/fkluh/freight/v1/util/ValidationUtil.java:28-34 | the model's `LocalDate.parse` accepts only the ten-character `YYYY-MM-DD` shape with a four-digit year, and only dates that exist in the calendar; a string parses exactly when it is the canonical spelling of such a date |
| Dates.ParseOfFormat | src/main/java/com/fkluh/freight/v1/util/ValidationUtil.java:30 | every date with a four-digit year is parsed back from its own `toString` |
| Dates.FormatOfParse | src/main/java/com/fkluh/freight/v1/util/ValidationUtil.java:30 | a string that parses is exactly the canonical spelling of the parsed date (no alternative spellings, leading zeros kept) |
| Dates.NumberOfDigits | src/main/java/com/fkluh/freight/v1/util/ValidationUtil.java:30 | reading back a zero-padded numeral gives the number |
| Dates.DigitsOfNumber | src/main/java/com/fkluh/freight/v1/util/ValidationUtil.java:30 | writing out a numeral's value in its own width gives the numeral back |
| Model.ValueOf | src/main/java/com/fkluh/freight/v1/mapper/PackageMapper.java:28 | `valueOf` finds the constant whose name is the string, and fails exactly when no constant has that name |
| Model.ValueOfName | src/main/java/com/fkluh/freight/v1/mapper/PackageMapper.java:28 | every constant is found again by its own name |
| Pages.Slice | src/main/java/com/fkluh/freight/v1/service/PackageServiceV1Impl.java:290-295 | page n of size k holds the elements at positions n*k up to n*k+k of the full result, cut off at its end, and carries n and k |
| Pages.SliceLocates | src/main/java/com/fkluh/freight/v1/service/PackageServiceV1Impl.java:294 | paging loses nothing: element i of the full result is element i mod k of page i div k |
| Pages.Empty | src/main/java/com/fkluh/freight/v1/model/dto/CustomPage.java:21-23 | the empty page has no content, page 0 and size 0 |
| Pages.Of | src/main/java/com/fkluh/freight/v1/model/dto/CustomPage.java:25-27 | the page holds the given content and metadata, and is empty exactly when the content is |
| Pages.Map | src/main/java/com/fkluh/freight/v1/model/dto/CustomPage.java:30-35 | mapping applies the function to each element in order and keeps page and size |
| Pages.MapIdentity | src/main/java/com/fkluh/freight/v1/model/dto/CustomPage.java:30-35 | mapping the identity changes nothing |
| Pages.MapCompose | src/main/java/com/fkluh/freight/v1/model/dto/CustomPage.java:30-35 | mapping twice equals mapping the composition once |
| Pages.FromPage | src/main/java/com/fkluh/freight/v1/model/dto/CustomPage.java:37-43 | the custom page carries the repository page's content, number and size |
| Validation.ValidateNotEmpty | src/main/java/com/fkluh/freight/v1/util/ValidationUtil.java:22-26 | fails exactly for null or blank values (whitespace only counts as empty), with the caller's message |
| Validation.ValidateDateFormat | src/main/java/com/fkluh/freight/v1/util/ValidationUtil.java:28-34 | passes exactly for strings `LocalDate.parse` accepts; a malformed string fails with the caller's message; null is not caught and escapes as an unexpected error |
| Validation.ValidateDto | src/main/java/com/fkluh/freight/v1/util/ValidationUtil.java:15-20 | passes exactly when tracking number, email and postcode are non-empty, the email is e-mail shaped and the estimated date is present; a failure carries the message of a constraint the DTO violates |
| Mapper.EntityToDto | src/main/java/com/fkluh/freight/v1/mapper/PackageMapper.java:32-45 | every field is carried over; the status becomes a name that `valueOf` maps back to it |
| Mapper.PackageEntityToDto | src/main/java/com/fkluh/freight/v1/mapper/PackageMapper.java:32-35 | null maps to null, anything else to its DTO |
| Mapper.DtoToEntity | src/main/java/com/fkluh/freight/v1/mapper/PackageMapper.java:17-30 | fails with `IllegalArgumentException` exactly when the status names no constant; otherwise the entity maps back to the very same DTO and has no creation time |
| Mapper.PackageDtoToEntity | src/main/java/com/fkluh/freight/v1/mapper/PackageMapper.java:17-20 | null maps to null; otherwise it succeeds exactly when the DTO maps |
| Mapper.EntityRoundTrip | src/main/java/com/fkluh/freight/v1/mapper/PackageMapper.java:17-45 | entity to DTO to entity is the identity on all mapped fields |
| Mapper.EntityPageToDtoPage | src/main/java/com/fkluh/freight/v1/mapper/PackageMapper.java:47-55 | each entity of the page is mapped in order, with the page's number and size; a null page becomes the empty page |
| Mapper.SingleEntityToDtoPage | src/main/java/com/fkluh/freight/v1/mapper/PackageMapper.java:57-63 | one entity becomes a one-element page 0 of size 1; null becomes the empty page |
| Mapper.PostcodePageToDtoPage | src/main/java/com/fkluh/freight/v1/mapper/PackageMapper.java:65-70 | the aggregate rows pass through unchanged with the page's number and size |
| PostcodeTally.CountOfDistinct | src/main/java/com/fkluh/freight/v1/repository/PackageRepositoryV1.java:49 | with one row per postcode, the count reported for a postcode is the count of its row, and 0 when it has none |
| PostcodeTally.SameRowsSameCounts | src/main/java/com/fkluh/freight/v1/repository/PackageRepositoryV1.java:49 | reordering the grouped rows does not change any postcode's count |
| PostcodeTally.Bump | src/main/java/com/fkluh/freight/v1/repository/PackageRepositoryV1.java:49 | counting one more package keeps one row per postcode and positive counts, and adds no postcode except the counted one |
| PostcodeTally.BumpCounts | src/main/java/com/fkluh/freight/v1/repository/PackageRepositoryV1.java:49 | counting one package adds one to the total and to that postcode's count, and changes no other postcode's count |
| PostcodeTally.Tally | src/main/java/com/fkluh/freight/v1/repository/PackageRepositoryV1.java:49 | GROUP BY with COUNT: one row per postcode, each count positive and equal to the number of packages at that postcode, the counts summing to the number of packages |
| PostcodeTally.Insert | src/main/java/com/fkluh/freight/v1/repository/PackageRepositoryV1.java:49 | inserting into a descending list keeps it descending; the rows afterwards are the old rows and the new one |
| PostcodeTally.InsertIsPermutation | src/main/java/com/fkluh/freight/v1/repository/PackageRepositoryV1.java:49 | insertion neither loses nor duplicates rows: the result is a permutation of the rows plus the inserted one |
| PostcodeTally.InsertKeepsDistinct | src/main/java/com/fkluh/freight/v1/repository/PackageRepositoryV1.java:49 | inserting a row with a new postcode keeps one row per postcode |
| PostcodeTally.InsertTotal | src/main/java/com/fkluh/freight/v1/repository/PackageRepositoryV1.java:49 | inserting a row adds its count to the total |
| PostcodeTally.SortByCountDesc | src/main/java/com/fkluh/freight/v1/repository/PackageRepositoryV1.java:49 | ORDER BY delayCount DESC: the result is in descending count order and is a permutation of the rows |
| PostcodeTally.SortKeepsTally | src/main/java/com/fkluh/freight/v1/repository/PackageRepositoryV1.java:49 | sorting keeps the total and the one-row-per-postcode property |
| PostcodeTally.CountByPostcodeDescending | src/main/java/com/fkluh/freight/v1/repository/PackageRepositoryV1.java:49 | the aggregate has one row per postcode that occurs, each count positive and equal to the number of packages there, in descending count order, the counts summing to the input size |
| Repository.FindById | src/main/java/com/fkluh/freight/v1/repository/PackageRepositoryV1.java:15 | finds a package exactly when its key is stored, and the package found carries that key |
| Repository.Rows | src/main/java/com/fkluh/freight/v1/model/Package.java:35-36 | the table read out in creation order: exactly the stored packages, newest first |
| Repository.Select | src/main/java/com/fkluh/freight/v1/repository/PackageRepositoryV1.java:38 | a WHERE clause: exactly the rows that satisfy the condition, never more of any row than the input holds, and nothing when no row does |
| Repository.SelectKeepsOrder | src/main/java/com/fkluh/freight/v1/repository/PackageRepositoryV1.java:38 | `ORDER BY p.createdAt DESC` survives the WHERE clause: selecting from newest-first rows gives newest-first rows |
| Repository.SelectMultiplicity | src/main/java/com/fkluh/freight/v1/repository/PackageRepositoryV1.java:38 | a WHERE clause keeps each accepted row exactly as often as the table holds it and drops every other row: it never repeats a row |
| Repository.FindDelayed | src/main/java/com/fkluh/freight/v1/repository/PackageRepositoryV1.java:18-19 | exactly the stored packages in the status whose actual delivery date is after the estimate, each once |
| Repository.FindOnTime | src/main/java/com/fkluh/freight/v1/repository/PackageRepositoryV1.java:22-23 | exactly the stored packages in the status delivered on or before the estimate or not delivered, newest first |
| Repository.DelayedOnTimePartition | src/main/java/com/fkluh/freight/v1/repository/PackageRepositoryV1.java:18-23 | for one status the two queries are disjoint and together return every package in that status |
| Repository.FindByAll | src/main/java/com/fkluh/freight/v1/repository/PackageRepositoryV1.java:26-27 | a result matches all three values and is stored; no result means no stored package matches all three |
| Repository.AtMostOneByTrackingNumber | src/main/java/com/fkluh/freight/v1/model/Package.java:16-18 | the tracking number is the primary key: two stored packages with the same tracking number are the same package |
| Repository.FindDeliveredOn | src/main/java/com/fkluh/freight/v1/repository/PackageRepositoryV1.java:30-31 | exactly the DELIVERED packages delivered on that day, newest first; a null date matches nothing |
| Repository.FindDeliveredByPostcode | src/main/java/com/fkluh/freight/v1/repository/PackageRepositoryV1.java:34-35 | exactly the DELIVERED packages at that postcode, newest first |
| Repository.FindByPostcode | src/main/java/com/fkluh/freight/v1/repository/PackageRepositoryV1.java:38-39 | exactly the packages at that postcode in any status, newest first |
| Repository.FindByEmail | src/main/java/com/fkluh/freight/v1/repository/PackageRepositoryV1.java:42-43 | exactly the packages for that email, newest first |
| Repository.FindByEmailAndPostcode | src/main/java/com/fkluh/freight/v1/repository/PackageRepositoryV1.java:46-47 | exactly the packages for that email at that postcode, each once |
| Repository.NarrowerQueriesReturnSubsets | src/main/java/com/fkluh/freight/v1/repository/PackageRepositoryV1.java:34-47 | the DELIVERED-by-postcode result lies within the any-status postcode result, and the email-and-postcode result within the email result |
| Repository.DelayedDeliveries | src/main/java/com/fkluh/freight/v1/repository/PackageRepositoryV1.java:49 | the rows the aggregate groups: exactly the DELIVERED packages that came late, each once, as many as there are such packages |
| Repository.MostDelayedPostcodes | src/main/java/com/fkluh/freight/v1/repository/PackageRepositoryV1.java:49-50 | one row per postcode with a late delivery, each count positive, in descending count order, the counts summing to the number of late DELIVERED packages in the store |
| Repository.MostDelayedCounts | src/main/java/com/fkluh/freight/v1/repository/PackageRepositoryV1.java:49 | each postcode's count in the aggregate is exactly the number of late DELIVERED packages in the store addressed to it |
| Repository.DistinctLength | src/main/java/com/fkluh/freight/v1/repository/PackageRepositoryV1.java:49 | a result without repeated rows has exactly as many rows as there are matching packages |
| Repository.CountAtDistinct | src/main/java/com/fkluh/freight/v1/repository/PackageRepositoryV1.java:49-50 | in a result without repeated rows, `COUNT(p)` for a postcode is the number of distinct packages addressed to it |
| Repository.QueryFindsEvery | src/main/java/com/fkluh/freight/v1/repository/PackageRepositoryV1.java:38-43 | every result of a paged query appears on some page |
| Repository.RemoveKey | src/main/java/com/fkluh/freight/v1/model/Package.java:35-36 | dropping a key from the creation order keeps exactly the other keys |
| Repository.RemoveKeyKeepsOrder | src/main/java/com/fkluh/freight/v1/model/Package.java:35-36 | the remaining keys stay in strictly decreasing creation order |
| Repository.Save | src/main/java/com/fkluh/freight/v1/model/Package.java:35-36 | after saving, the key finds the saved entity, which equals the argument apart from its creation time; an existing row keeps its creation time, an inserted row is created after every stored row; every other key finds what it found before |
| Repository.DeleteById | src/main/java/com/fkluh/freight/v1/repository/PackageRepositoryV1.java:15 | after deleting, the key is absent and every other key finds what it found before |
| Chains.FirstMatch | src/main/java/com/fkluh/freight/v1/service/PackageServiceV1Impl.java:99-103 | the loop picks an applicable strategy with none applicable before it, and finds none exactly when no strategy applies |
| TrackStrategies.SelectTrack | src/main/java/com/fkluh/freight/v1/service/PackageServiceV1Impl.java:91-103 | which tier answers, for each combination of present selectors: all three, email+postcode without the tracking number, email without postcode, postcode without email, tracking number alone, none |
| TrackStrategies.PageOrNotFound | src/main/java/com/fkluh/freight/v1/service/strategy/track/TrackStrategyByEmail.java:32-35 | a not-found exception with the given message exactly when the requested page is empty; otherwise exactly that page of the result, mapped: the page's length, element i the DTO of the result's element at offset + i, with the requested number and size |
| TrackStrategies.ApplyByAllParameters | src/main/java/com/fkluh/freight/v1/repository/PackageRepositoryV1.java:26-27 | the package with all three values as a one-element page, found exactly when it is stored; otherwise not found |
| TrackStrategies.ApplyByEmailAndPostcode | src/main/java/com/fkluh/freight/v1/service/strategy/track/TrackStrategyByEmailAndPostcode.java:30-34 | not found, naming email and postcode, exactly when the page is past the end of the email-and-postcode query; otherwise exactly that page of the query, mapped, every package on it having that email and postcode |
| TrackStrategies.ApplyByEmail | src/main/java/com/fkluh/freight/v1/service/strategy/track/TrackStrategyByEmail.java:31-36 | not found, naming the email, exactly when the page is past the end of the by-email query; otherwise exactly that page of the query, mapped, every package on it having that email |
| TrackStrategies.ApplyByPostcode | src/main/java/com/fkluh/freight/v1/service/strategy/track/TrackStrategyByPostcode.java:29-33 | not found, naming the postcode, exactly when the page is past the end of the by-postcode query; otherwise exactly that page of the query, mapped, every package on it having that postcode |
| TrackStrategies.ApplyByTrackingNumber | src/main/java/com/fkluh/freight/v1/service/strategy/track/TrackStrategyByTrackingNumber.java:28-32 | the stored package as a one-element page 0 of size 1 whatever page was requested, found exactly when the key is stored; otherwise not found naming the key |
| FilterStrategies.FilterValues | src/main/java/com/fkluh/freight/v1/service/strategy/filter/FilterStrategyByStatus.java:24-25 | the status strategy's targets are "delayed" and "on_time" |
| FilterStrategies.SelectFilter | src/main/java/com/fkluh/freight/v1/service/PackageServiceV1Impl.java:168-178 | status first, then postcode, then delivery date; none exactly when none of the three applies |
| FilterStrategies.MappedPage | src/main/java/com/fkluh/freight/v1/mapper/PackageMapper.java:47-55 | exactly the requested page of a query result, mapped: as many elements as that page holds, element i the DTO of the result's element at offset + i, with the requested metadata |
| FilterStrategies.DelayedPage | src/main/java/com/fkluh/freight/v1/service/strategy/filter/FilterStrategyByStatus.java:30-31 | exactly the requested page of the delayed query for DELIVERED, mapped; every package on it is DELIVERED and came after its estimate |
| FilterStrategies.OnTimePage | src/main/java/com/fkluh/freight/v1/service/strategy/filter/FilterStrategyByStatus.java:32-33 | exactly the requested page of the on-time query for DELIVERED, mapped; every package on it is DELIVERED and did not come after its estimate |
| FilterStrategies.ApplyByStatus | src/main/java/com/fkluh/freight/v1/service/strategy/filter/FilterStrategyByStatus.java:29-36 | "delayed" (any case) gives exactly the requested page of the delayed query, all late DELIVERED packages; "on_time" exactly the page of the on-time query, all DELIVERED packages that were not late; anything else the empty page |
| FilterStrategies.ApplyByPostcode | src/main/java/com/fkluh/freight/v1/service/strategy/filter/FilterStrategyByPostcode.java:28-30 | exactly the requested page of the delivered-by-postcode query, mapped, every package on it DELIVERED at that postcode |
| FilterStrategies.ApplyByDeliveryDate | src/main/java/com/fkluh/freight/v1/service/strategy/filter/FilterStrategyByDeliveryDate.java:32-47 | fails with the date-format validation error exactly when a present date does not parse; otherwise exactly the requested page of the delivered-on query for the parsed date unchanged, every package on it DELIVERED on that day; an absent date queries with null and gives no content |
| Service.SanitizePaging | src/main/java/com/fkluh/freight/v1/service/PackageServiceV1Impl.java:290-295 | the page is never negative, the size is between 1 and 100, an in-range size is kept, 0 or less becomes 10, over 100 becomes 100 |
| Service.SanitizeKeepsValidRequests | src/main/java/com/fkluh/freight/v1/service/PackageServiceV1Impl.java:290-295 | an already valid request passes through unchanged |
| Service.SanitizeIsIdempotent | src/main/java/com/fkluh/freight/v1/service/PackageServiceV1Impl.java:290-295 | clamping twice is clamping once |
| Service.Add | src/main/java/com/fkluh/freight/v1/service/PackageServiceV1Impl.java:54-64 | a failure changes nothing; invalid input is the validation error naming a violated constraint, an unknown status the illegal-argument error of the mapper, an existing key the already-exists error with its fixed message (exactly then, for otherwise valid input); on success the response is the request with the status defaulted to IN_TRANSIT, it is what the store now holds under the key, and no other key changes |
| Service.ValidateTrack | src/main/java/com/fkluh/freight/v1/service/PackageServiceV1Impl.java:250-259 | rejects exactly the requests in which all three selectors are null or empty |
| Service.Track | src/main/java/com/fkluh/freight/v1/service/PackageServiceV1Impl.java:81-107 | every failure is a validation or not-found error, a validation error exactly when all three selectors are null or empty; otherwise the answer is that of the first applicable tier (all three, email and postcode, email, postcode, tracking number) on the clamped page |
| Service.TrackChainIsExhaustive | src/main/java/com/fkluh/freight/v1/service/PackageServiceV1Impl.java:105-106 | once validation passes some strategy applies, so the throw after the loop is unreachable |
| Service.TrackByKeyAlone | src/main/java/com/fkluh/freight/v1/service/strategy/track/TrackStrategyByTrackingNumber.java:28-32 | tracking by key alone finds the package exactly when it is stored, as page 0 of size 1, and otherwise reports it not found by key |
| Service.TrackEmailAndPostcodeIgnoresKey | src/main/java/com/fkluh/freight/v1/service/PackageServiceV1Impl.java:91-103 | with email and postcode given, a null or empty tracking number makes no difference: the email-and-postcode tier answers |
| Service.TrackEmailIgnoresKey | src/main/java/com/fkluh/freight/v1/service/strategy/track/TrackStrategyByEmail.java:26-35 | with an email and no postcode, the email tier answers; the tracking number, and a null versus an empty postcode, make no difference |
| Service.TrackPostcodeIgnoresKey | src/main/java/com/fkluh/freight/v1/service/strategy/track/TrackStrategyByPostcode.java:24-32 | with a postcode and no email, the postcode tier answers; the tracking number, and a null versus an empty email, make no difference |
| Service.AddThenTrack | src/main/java/com/fkluh/freight/v1/service/PackageServiceV1Impl.java:54-107 | a package just added is tracked by its key as exactly the response the add returned |
| Service.CheckUpdatable | src/main/java/com/fkluh/freight/v1/service/PackageServiceV1Impl.java:229-242 | passes exactly for a parseable date not after today on a package not yet DELIVERED; otherwise the first failing check's message |
| Service.Update | src/main/java/com/fkluh/freight/v1/service/PackageServiceV1Impl.java:118-132 | the first failing check in source order decides the error, and a failure changes nothing; a success records the parsed date and DELIVERED on that package only, and returns it |
| Service.UpdateDeadChecks | src/main/java/com/fkluh/freight/v1/service/PackageServiceV1Impl.java:122-123 | the update never fails with the internal null-date error or the not-found-after-lookup error: both are dead code |
| Service.DeliveredIsFinal | src/main/java/com/fkluh/freight/v1/service/PackageServiceV1Impl.java:238-241 | after a successful update, a later update with a well-formed date always fails and changes nothing |
| Service.Remove | src/main/java/com/fkluh/freight/v1/service/PackageServiceV1Impl.java:140-142 | the key is absent afterwards, other keys are unaffected, and removing an absent key changes nothing |
| Service.RemoveThenTrack | src/main/java/com/fkluh/freight/v1/service/PackageServiceV1Impl.java:140-142 | a removed package is no longer found by its key |
| Service.ValidateFilter | src/main/java/com/fkluh/freight/v1/service/PackageServiceV1Impl.java:267-288 | passes exactly when the status is null or "delayed"/"on-time" ignoring case, the postcode is not the empty string, and a present date parses; the first failing check decides the message: invalid status, then empty postcode, then invalid date format |
| Service.Filter | src/main/java/com/fkluh/freight/v1/service/PackageServiceV1Impl.java:158-180 | a validation failure is passed through; after validation the call fails exactly when no strategy applies; otherwise the answer is the status tier's when the status applies, else the postcode tier's when a postcode is given, else the date tier's |
| Service.OnTimeNeverSelectsStatus | src/main/java/com/fkluh/freight/v1/service/strategy/filter/FilterStrategyByStatus.java:23-26 | "on-time" in any case passes validation but never makes the status strategy applicable |
| Service.LoneOnTimeIsRejected | src/main/java/com/fkluh/freight/v1/service/PackageServiceV1Impl.java:179 | a lone "on-time" filter ends in the no-applicable-strategy error |
| Service.StatusWinsOverPostcode | src/main/java/com/fkluh/freight/v1/service/PackageServiceV1Impl.java:168-178 | "delayed" together with a postcode is answered by the status strategy alone |
| Service.PageKeepsShape | src/main/java/com/fkluh/freight/v1/repository/PackageRepositoryV1.java:49-50 | a page of the aggregate keeps positive counts, one row per postcode and descending order |
| Service.AggregatePage | src/main/java/com/fkluh/freight/v1/mapper/PackageMapper.java:65-70 | exactly the requested page of the aggregate rows: as many rows as that page holds, row i being the aggregate's row at offset + i, with the requested metadata, keeping the aggregate's shape |
| Service.FilterPostcodeByMostDelayed | src/main/java/com/fkluh/freight/v1/service/PackageServiceV1Impl.java:191-197 | exactly the requested (clamped) page of the aggregate: as many rows as that page holds, row i being the aggregate's row at offset + i, positive, distinct and descending |
| ExceptionHandler.HandleException | src/main/java/com/fkluh/freight/v1/controller/GlobalExceptionHandler.java:19-40 | each exception kind gets its own status, exactly: 404, 409, 400 for both validation kinds, 405, and 500 for anything else; client errors carry the exception's message, a 500 a fixed message |
| ExceptionHandler.UnexpectedIsOpaque | src/main/java/com/fkluh/freight/v1/controller/GlobalExceptionHandler.java:38 | two unexpected exceptions give the client identical answers |
| Controller.Respond | src/main/java/com/fkluh/freight/v1/controller/GlobalExceptionHandler.java:19-40 | a result becomes the success status with its body, an exception becomes the handler's status and body |
| Controller.OrDefault | src/main/java/com/fkluh/freight/v1/controller/PackageControllerV1.java:49-50 | an omitted paging parameter takes its default |
| Controller.AddEndpoint | src/main/java/com/fkluh/freight/v1/controller/PackageControllerV1.java:33-36 | 201 exactly when the add succeeds; invalid input gets 400, and an existing tracking number on otherwise valid input gets 409 Conflict, both leaving the store unchanged |
| Controller.TrackEndpoint | src/main/java/com/fkluh/freight/v1/controller/PackageControllerV1.java:44-53 | 200 exactly when tracking succeeds, with the tracked page as body; 400 when no selector is given; never a status other than 200, 400 or 404 |
| Controller.UpdateEndpoint | src/main/java/com/fkluh/freight/v1/controller/PackageControllerV1.java:59-65 | 200 exactly when the update succeeds, a non-200 answer changes nothing, and only 200, 400 or 404 occur |
| Controller.RemoveEndpoint | src/main/java/com/fkluh/freight/v1/controller/PackageControllerV1.java:68-72 | always 204, with the key absent afterwards and the other keys unaffected |
| Controller.FilterEndpoint | src/main/java/com/fkluh/freight/v1/controller/PackageControllerV1.java:79-96 | the aggregate page when the flag is set and no filter term is given; otherwise `filterPackages`, answered 200 with its page exactly when it succeeds |
| Controller.FlagWithInvalidStatusIsBadRequest | src/main/java/com/fkluh/freight/v1/controller/PackageControllerV1.java:88-95 | the aggregate flag does not shield a bad status: the request still goes to `filterPackages` and gets 400 |

## Left out

- **HTTP wiring.** The controller constructor (`PackageControllerV1.java:27`) never assigns the service field, so in the deployed application every endpoint would fail with a null dereference. The model wires each endpoint to the service directly.
- **Bean Validation at the boundary.** `@Valid` on the request bodies and Spring's default 400 body are not modelled.
- **Infrastructure not modelled:** authentication, rate limiting, logging and the JWT configuration.
- **Caching** (`@Cacheable`). The delayed and on-time queries share one cache name and one key expression (`PackageRepositoryV1.java:17` and `21`), so in the deployed service one of them can be answered from the other's cached result. The model has no cache.
- **Concurrency.** Transactions and concurrent requests are not modelled; each operation is atomic.
- **`updatedAt`** is not modelled; `createdAt` is a creation rank rather than a timestamp.
- **The clock.** `LocalDate.now()` is the parameter `today`.
- **`@Email`.** The e-mail pattern of the validator is the parameter `isEmailShaped`.
- **Which violation is reported.** When several Bean Validation constraints fail, the model reports the first one in declaration order; Java's validator may report any of them. `Validation.ValidateDto` only promises that the message belongs to a violated constraint.
- **Unseen sources.**
  - `DeliveryStatusEnum` is not part of this model. Its constants are taken to be IN_TRANSIT, DELIVERED, DELAYED and ON_TIME, with `name()` giving exactly those spellings.
  - `PackageNotFoundException`, `PackageAlreadyExistsException` and `PackageValidationException` are not part of this model. They are taken to be unrelated classes, none a subclass of another or of `IllegalArgumentException`, so the `instanceof` chain of `GlobalExceptionHandler.java:24-33` sends each to its own branch; the model gives each exception kind its own constructor of `Errors.Error`.
  - `TrackStrategyByAllParameters` is not part of this model. It is taken to apply when all three selectors are present and to look the package up with the all-three repository query. Its not-found message is assumed to be "Package with tracking number X, email Y and postcode Z not found.".
- **Case folding.** `toLowerCase` and `equalsIgnoreCase` fold ASCII letters only.
- **Dates.** `LocalDate.parse` is modelled for years 0000-9999; signed and wider years are not.
- Mapper.DtoToEntity: requires the four NOT NULL fields to be present. Validation always guarantees this before the service maps, so a null field reaching the NOT NULL column (a database error) is not modelled.
- TrackStrategies.Apply and FilterStrategies.Apply: require the chosen strategy to be applicable. This is the only way the service calls them.
- **A null `CustomPage` content** (`CustomPage.java:18`) cannot occur in the model; content is always a sequence.
- **Tie order.** The aggregate's rows with equal counts come in an unspecified order in SQL. The model fixes one order and promises only descending counts.
- **Unordered queries.** The delayed query and the email-and-postcode query have no ORDER BY. The model returns newest first but promises nothing about their order (`Repository.FindDelayed`, `Repository.FindByEmailAndPostcode`).
- Service.CheckUpdatable: a malformed date inside it is modelled as an unexpected error. In Java it escapes as an uncaught `DateTimeParseException`. It is unreachable from `Update`, which rejects malformed dates first.
- **Paging arithmetic.** The offset page × size is unbounded in the model, so a huge page number (say page 30000000 with size 100) is an ordinary page past the end: not found from a track tier, an empty page from a filter. Spring Data JPA refuses an offset above `Integer.MAX_VALUE`, so the deployed service answers such a request with the catch-all 500.
