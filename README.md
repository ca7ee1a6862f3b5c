# ApplicationTracker core, modelled in Dafny

ApplicationTracker records job applications. The front end is an Angular
form and a table; the back end is a Spring service that stores them. This
project models the parts of it where the logic sits:

- **The current application form** (`ApplicationFormModel`). It holds the
  draft's controls, the four contact chip lists (names, emails, domains,
  phones), the follow-up dates and the flags of rejected chips. `addItem`
  admits a chip:
  - it trims the input;
  - it checks emails and domains against their regular expressions;
  - it formats phone numbers;
  - it drops duplicates;
  - an accepted email also adds its domain.

  `onSubmit` gates on form validity, back-fills `domains` from the emails
  and serialises every date as `Y-MM-DD`. The reset after a successful
  create and the country search and flag are modelled too.
- **The older revision of the same form** (`LegacyFormModel`). The route
  table still uses it. It differs in four ways:
  - its controls are nullable;
  - its back-fill also replaces a `domains` list that starts with an empty
    entry;
  - its payload has no contacts or follow-up dates;
  - its reset after success nulls the scalar controls and keeps the lists.
- **The rules both forms share** (`FormRules`, `ChipPatterns`,
  `CountrySearch`, `JsText`, `JsDates`). These are pure functions:
  - the chip admission rule and the two regular expressions, written as
    scanners;
  - `FormArray.removeAt`;
  - the `emailDomains` filter/map chain;
  - `validateDateOrder`;
  - `toYMD`;
  - `countryFlag`;
  - the JavaScript string built-ins these use.
- **The applications table** (`ApplicationListing`): its filter predicate,
  `applyFilter`, the paginator reset and the loading flag.
- **`ApplicationService`** (`ServiceModel`). It is a class over a map from
  id to record, with create, read, list, partial update and delete. It
  covers the request validation, the setters and the not-found and
  bad-request errors. `ApplicationMapper.toResponse` (`ApplicationMapper`)
  and the back end's records (`BackendModel`) complete it.

The stateful parts are classes whose methods change their fields:
- the two forms, which keep a `Valid()` invariant: no duplicate in any list
  and no empty domain;
- the table;
- the service, which keeps a `Valid()` invariant: each record sits under its
  own id, and its required fields are filled.

Each method is specified by the pure functions above. The lemmas about those
functions state what the code promises, in particular:
- the round trips (date to string to day, entity to response to entity,
  request to record to request);
- the idempotence of `addItem` and of an update;
- the exact set of rows a filter keeps;
- the if-and-only-if conditions of every rejection.

A JavaScript `Date` is a value made of the local calendar day and the time of
day, so "same instant" is equality. A Java `UUID` is a natural number handed
out by a counter. Phone parsing is a parameter, a function from the text and
the default region to the international form or nothing.

Where the written requirements and the code disagree, the model follows the code:
- The newer form gives `country` no validator, so an empty country does not
  block submission. Only company name, job title, status, application date
  and the date order do.
- `removeItem`/`removeFollowUpDate` use `removeAt`, which has splice
  semantics: a negative index removes from the end instead of being ignored.
- The reset after "add another" empties the follow-up dates and sets no
  publication date. It does not put today back in either.
- Follow-up dates are kept apart by instant but sent by day, so two dates on
  the same day go out as the same string twice
  (`SameDayFollowUpsRepeatInRequest`).
- A failed fetch leaves the table's rows as they were. They are empty only
  because the table starts empty.

## Model

| member | source | states |
|---|---|---|
| JsText.Trim | frontend/application_tracker/src/app/features/application/application-form/application-form.ts:207-208 | `raw.trim()`: the result is a contiguous piece of the input with only whitespace around it, neither starts nor ends with JavaScript whitespace, and is empty exactly when the input is all whitespace |
| JsText.TrimIdempotent | frontend/application_tracker/src/app/features/application/application-form/application-form.ts:207-208 | trimming a trimmed value changes nothing |
| JsText.ToLower | frontend/application_tracker/src/app/features/application/application-table/application-table.ts:94 | `toLowerCase()` keeps the length, leaves no ASCII capital, and keeps every character that is not a capital |
| JsText.ToUpper | frontend/application_tracker/src/app/features/application/application-form/application-form.ts:292-293 | `toUpperCase()` keeps the length, leaves no ASCII small letter, and keeps every character that is not a small letter |
| JsText.CaseRoundTrip | frontend/application_tracker/src/app/features/application/application-form/application-form.ts:292-293 | lower-casing after upper-casing is lower-casing alone, and the other way round: the two conversions lose nothing the other needs |
| JsText.TrimOfLower | frontend/application_tracker/src/app/features/application/application-form/application-form.ts:298 | lower-casing and trimming commute, so `toLowerCase().trim()` equals `trim().toLowerCase()` |
| JsText.IncludesIffOccurs | frontend/application_tracker/src/app/features/application/application-table/application-table.ts:96-99 | `includes(part)` holds exactly when `part` occurs at some position of the string |
| JsText.IncludesEmpty | frontend/application_tracker/src/app/features/application/application-table/application-table.ts:96-99 | every string includes `''`; `''` includes only `''` |
| JsText.LastIndexOf | frontend/application_tracker/src/app/features/application/application-form/application-form.ts:257 | `lastIndexOf(c)` is -1 or a position holding `c`, and no later position holds `c` |
| JsText.AfterLast | frontend/application_tracker/src/app/features/application/application-form/application-form.ts:257 | `substring(lastIndexOf('@') + 1)` is a suffix of the email containing no '@', and is either the whole email or starts right after an '@' |
| JsText.NatToString | frontend/application_tracker/src/app/features/application/application-form/application-form.ts:322-323 | `String(n)` is a non-empty digit string without a leading zero that reads back as `n`; it has at most two digits below 100 |
| JsText.IntToString | frontend/application_tracker/src/app/features/application/application-form/application-form.ts:321-324 | `${y}` for the year is an optionally signed numeral that reads back as the year |
| JsText.PadStart2 | frontend/application_tracker/src/app/features/application/application-form/application-form.ts:322-323 | `padStart(2, '0')` gives at least two characters and keeps the numeric value of a digit string |
| JsDates.AfterIsStrictTotalOrder | frontend/application_tracker/src/app/features/application/application-form/application-form.ts:68 | `pubDate > appDate` is a strict total order on instants: irreflexive, transitive, and one of the two orders holds for distinct dates |
| JsDates.Ymd | frontend/application_tracker/src/app/features/application/application-form/application-form.ts:319-325 | the `${y}-${m}-${d}` string reads back as the date's year, 1-based month and day, with month and day on two digits each |
| JsDates.ToYMD | frontend/application_tracker/src/app/features/application/application-form/application-form.ts:319-325 | null exactly for a missing date; otherwise a string that reads back as the date's calendar day |
| JsDates.YmdSameDay | frontend/application_tracker/src/app/features/application/application-form/application-form.ts:319-325 | two dates serialise alike exactly when they fall on the same calendar day |
| ChipPatterns.EmailFromSplitsAtLastAt | frontend/application_tracker/src/app/features/application/application-form/application-form.ts:214 | an email accepted by `emailRegex` has its '@' at its last '@', and the domain part of the pattern matches what follows |
| ChipPatterns.IsDomain | frontend/application_tracker/src/app/features/application/application-form/application-form.ts:215 | a value accepted by `domainRegex` is non-empty, contains a dot and holds no '@' |
| ChipPatterns.IsEmail | frontend/application_tracker/src/app/features/application/application-form/application-form.ts:214 | a value accepted by `emailRegex` has at least one character before its last '@', and what follows that '@' (the domain `addItem` derives) itself passes `domainRegex` |
| FormRules.AppendIfAbsent | frontend/application_tracker/src/app/features/application/application-form/application-form.ts:252-254 | `if (!includes(x)) push(x)`: the list ends up holding `x`, grows at its end by at most one element and only when `x` was absent, and keeps having no duplicates |
| FormRules.RemoveAt | frontend/application_tracker/src/app/features/application/application-form/application-form.ts:264-266 | `FormArray.removeAt` has splice semantics: an index in range removes that element; a negative index counts from the end; one below `-length` removes the first element; one past the end changes nothing; no duplicate is introduced |
| FormRules.AddChip | frontend/application_tracker/src/app/features/application/application-form/application-form.ts:206-262 | `addItem`: a blank input is ignored; an email, domain or phone number is rejected with its trimmed text exactly when its pattern or the phone parser refuses it; names are never rejected |
| FormRules.AddChipKeepsNoDup | frontend/application_tracker/src/app/features/application/application-form/application-form.ts:246-261 | accepting a chip leaves every list free of duplicates |
| FormRules.AddChipAppends | frontend/application_tracker/src/app/features/application/application-form/application-form.ts:246-261 | an accepted value is in its list; lists only grow at their end, by at most one; only the target list changes, plus `domains` for an email |
| FormRules.AddEmailListsDomainOnce | frontend/application_tracker/src/app/features/application/application-form/application-form.ts:252-261 | after an email is accepted, the email is listed and its domain passes the domain pattern and is in `domains` exactly once |
| FormRules.AddChipKeepsDomainsNonEmpty | frontend/application_tracker/src/app/features/application/application-form/application-form.ts:223-261 | no accepted chip puts an empty string into `domains` |
| FormRules.AddChipIdempotent | frontend/application_tracker/src/app/features/application/application-form/application-form.ts:246-261 | adding the same raw value again after it was accepted yields the same outcome and lists |
| FormRules.AddChipKeepsEmailDomainsListed | frontend/application_tracker/src/app/features/application/application-form/application-form.ts:256-261 | when every email's domain is listed before an accepted add, it still is afterwards |
| FormRules.NotADomainIsRejected | frontend/application_tracker/src/app/features/application/application-form/application-form.ts:223-227 | a text with spaces is rejected as a domain and flagged with its trimmed text |
| FormRules.IndexOf | frontend/application_tracker/src/app/features/application/application-form/application-form.ts:375 | `arr.indexOf(d)` is -1 exactly when `d` is absent, otherwise the first position holding `d` |
| FormRules.DomainCandidates | frontend/application_tracker/src/app/features/application/application-form/application-form.ts:372-374 | every non-empty email contributes its domain, every candidate comes from a non-empty email, and there is exactly one candidate per non-empty email |
| FormRules.DomainCandidatesAppend | frontend/application_tracker/src/app/features/application/application-form/application-form.ts:372-374 | the candidates of two email lists together are the candidates of the first followed by those of the second, in order |
| FormRules.FirstOccurrencesFrom | frontend/application_tracker/src/app/features/application/application-form/application-form.ts:375 | the filter `d && arr.indexOf(d) === i` keeps exactly the non-empty values at their first occurrence, in order |
| FormRules.EmailDomains | frontend/application_tracker/src/app/features/application/application-form/application-form.ts:372-375 | the derived domains hold no duplicate and no empty string, and each comes from the candidates |
| FormRules.EmailDomainsComplete | frontend/application_tracker/src/app/features/application/application-form/application-form.ts:372-375 | no non-empty candidate domain is lost |
| FormRules.EmailDomainsInFirstOccurrenceOrder | frontend/application_tracker/src/app/features/application/application-form/application-form.ts:375 | the derived domains follow the order of their first occurrence among the candidates |
| FormRules.EmailDomainsOfEmails | frontend/application_tracker/src/app/features/application/application-form/application-form.ts:372-375 | the derived domains are exactly the non-empty domains of the emails |
| FormRules.ValidateDateOrder | frontend/application_tracker/src/app/features/application/application-form/application-form.ts:64-72 | `invalidDateOrder` is raised exactly when both dates are present and the publication date is later |
| FormRules.DateOrderFlagsOneOrder | frontend/application_tracker/src/app/features/application/application-form/application-form.ts:64-72 | equal dates pass, and of two distinct dates exactly one order is flagged |
| FormRules.FormValid | frontend/application_tracker/src/app/features/application/application-form/application-form.ts:145-183 | `form.invalid` is false exactly when company name, job title and status are non-empty, an application date is set, and any publication date is the application date or earlier |
| FormRules.Region | frontend/application_tracker/src/app/features/application/application-form/application-form.ts:230 | `country || 'FR'` is never empty and is the country whenever that is non-empty |
| FormRules.Backfill | frontend/application_tracker/src/app/features/application/application-form/application-form.ts:371-381 | the newer back-fill leaves a non-empty `domains` alone, and keeps `domains` free of duplicates and of empty entries |
| FormRules.BackfillCoversEmails | frontend/application_tracker/src/app/features/application/application-form/application-form.ts:371-381 | after the back-fill an empty `domains` holds every email's non-empty domain, and every domain was entered or comes from an email |
| FormRules.LegacyBackfill | frontend/application_tracker/src/app/features/application/application-form.ts:317-330 | the older back-fill replaces `domains` only when it is empty or starts with an empty entry and some email yields a domain; duplicates and empty entries are not introduced |
| FormRules.BackfillRevisionsAgree | frontend/application_tracker/src/app/features/application/application-form.ts:325 | as long as `domains` holds no empty entry, both revisions back-fill alike |
| CountrySearch.FilterCountries | frontend/application_tracker/src/app/features/application/application-form/application-form.ts:304-308 | keeps exactly the countries whose lower-cased name or code includes the value |
| CountrySearch.SearchCountries | frontend/application_tracker/src/app/features/application/application-form/application-form.ts:297-309 | a blank term lists every country; any other term lists exactly the countries matching the lower-cased, trimmed term |
| CountrySearch.SearchIgnoresCaseAndPadding | frontend/application_tracker/src/app/features/application/application-form/application-form.ts:298 | the search gives the same list for a term, its lower-cased form and its trimmed form |
| CountrySearch.SearchFindsByCode | frontend/application_tracker/src/app/features/application/application-form/application-form.ts:304-308 | typing a listed country's code, in any case, keeps that country in the list |
| CountrySearch.FlagOfLetters | frontend/application_tracker/src/app/features/application/application-form/application-form.ts:292-294 | shifting upper-case letters by 127397 gives one regional indicator per letter |
| CountrySearch.CountryFlag | frontend/application_tracker/src/app/features/application/application-form/application-form.ts:290-295 | an empty code gives `''`; a code of ASCII letters gives, per letter, the regional indicator of its upper-case form |
| CountrySearch.FlagIgnoresCase | frontend/application_tracker/src/app/features/application/application-form/application-form.ts:292-293 | the flag does not depend on the case of the code |
| CountrySearch.FlagsTellCodesApart | frontend/application_tracker/src/app/features/application/application-form/application-form.ts:290-295 | letter codes that differ other than by case get different flags |
| ApplicationFormModel.FollowUpYmds | frontend/application_tracker/src/app/features/application/application-form/application-form.ts:397 | one date string per follow-up date, each reading back as that date's day |
| ApplicationFormModel.FollowUpYmdsNoDupIffDistinctDays | frontend/application_tracker/src/app/features/application/application-form/application-form.ts:397 | the request repeats no day exactly when no two follow-up dates fall on the same calendar day |
| ApplicationFormModel.SameDayFollowUpsRepeatInRequest | frontend/application_tracker/src/app/features/application/application-form/application-form.ts:268-275 | two follow-up dates an hour apart on one day are both kept, yet the request lists that day twice |
| ApplicationFormModel.BuildRequest | frontend/application_tracker/src/app/features/application/application-form/application-form.ts:383-399 | the payload copies the form's fields, lists and files; a missing publication date stays null; every date becomes its `Y-MM-DD` day |
| ApplicationFormModel.ApplicationForm.constructor | frontend/application_tracker/src/app/features/application/application-form/application-form.ts:145-184 | the initial form: country 'FR', empty texts, today as the publication, application and sole follow-up date, empty lists, no flags |
| ApplicationFormModel.ApplicationForm.AddItem | frontend/application_tracker/src/app/features/application/application-form/application-form.ts:206-262 | the lists become what `AddChip` computes with the country as region; a rejected value sets only its own flag; no duplicates or empty domains appear |
| ApplicationFormModel.ApplicationForm.RemoveItem | frontend/application_tracker/src/app/features/application/application-form/application-form.ts:264-266 | only the chosen list changes, by `RemoveAt` |
| ApplicationFormModel.ApplicationForm.AddFollowUpDate | frontend/application_tracker/src/app/features/application/application-form/application-form.ts:268-275 | the date (default `today`) is appended unless the same instant is listed; the dates stay distinct |
| ApplicationFormModel.ApplicationForm.RemoveFollowUpDate | frontend/application_tracker/src/app/features/application/application-form/application-form.ts:277-279 | the follow-up dates after `RemoveAt` |
| ApplicationFormModel.ApplicationForm.OnDateSelected | frontend/application_tracker/src/app/features/application/application-form/application-form.ts:281-288 | a picked date is added as by `addFollowUpDate`; a cleared picker changes nothing |
| ApplicationFormModel.ApplicationForm.OnCountrySearch | frontend/application_tracker/src/app/features/application/application-form/application-form.ts:297-309 | `filteredCountries` becomes `SearchCountries(countries, term)` |
| ApplicationFormModel.ApplicationForm.OnCountryOpened | frontend/application_tracker/src/app/features/application/application-form/application-form.ts:311-317 | closing the picker restores every country; opening it changes nothing |
| ApplicationFormModel.ApplicationForm.ResetFormAfterSuccess | frontend/application_tracker/src/app/features/application/application-form/application-form.ts:327-354 | every control back to an empty draft dated today, with no publication date and every list, follow-up dates included, emptied; the result cannot be submitted |
| ApplicationFormModel.ApplicationForm.OnSubmit | frontend/application_tracker/src/app/features/application/application-form/application-form.ts:356-399 | an invalid form is marked touched and nothing is sent; a valid one gets its domains back-filled and yields the request built from the back-filled lists |
| ApplicationFormModel.ApplicationForm.BackfillDomains | frontend/application_tracker/src/app/features/application/application-form/application-form.ts:371-381 | `domains` becomes `Backfill(emails, domains)`, with no duplicates or empty entries |
| ApplicationFormModel.ApplicationForm.PushDomains | frontend/application_tracker/src/app/features/application/application-form/application-form.ts:378-380 | pushing each value in turn appends them all, in order |
| ApplicationFormModel.ApplicationForm.OnCreateSucceeded | frontend/application_tracker/src/app/features/application/application-form/application-form.ts:415-421 | 'new' resets the form to country 'FR', today's application date, empty texts, lists, follow-ups and files, untouched and not submittable; 'list' navigates and nothing else changes; dismissing changes nothing |
| LegacyFormModel.BuildLegacyPayload | frontend/application_tracker/src/app/features/application/application-form.ts:333-343 | the payload copies country, texts and dates; a missing job link becomes `''`; the required fields are non-empty; the publication date is never after the application date |
| LegacyFormModel.LegacyApplicationForm.constructor | frontend/application_tracker/src/app/features/application/application-form.ts:122-148 | the initial form: country 'FR', empty texts, today as the publication, application and sole follow-up date, empty lists |
| LegacyFormModel.LegacyApplicationForm.AddItem | frontend/application_tracker/src/app/features/application/application-form.ts:178-239 | the lists become what `AddChip` computes with `country || 'FR'` as region; a rejected value sets only its own flag |
| LegacyFormModel.LegacyApplicationForm.RemoveItem | frontend/application_tracker/src/app/features/application/application-form.ts:241-243 | only the chosen list changes, by `RemoveAt` |
| LegacyFormModel.LegacyApplicationForm.AddFollowUpDate | frontend/application_tracker/src/app/features/application/application-form.ts:248-252 | the date (default `today`) is appended unless the same instant is listed |
| LegacyFormModel.LegacyApplicationForm.RemoveFollowUpDate | frontend/application_tracker/src/app/features/application/application-form.ts:254-256 | the follow-up dates after `RemoveAt` |
| LegacyFormModel.LegacyApplicationForm.OnSubmit | frontend/application_tracker/src/app/features/application/application-form.ts:300-343 | an invalid form is marked touched and nothing is sent; a valid one gets the older back-fill and yields the payload |
| LegacyFormModel.LegacyApplicationForm.BackfillDomains | frontend/application_tracker/src/app/features/application/application-form.ts:317-330 | `domains` becomes `LegacyBackfill(emails, domains)`, with no duplicates or empty entries |
| LegacyFormModel.LegacyApplicationForm.ReplaceDomains | frontend/application_tracker/src/app/features/application/application-form.ts:326-329 | after `clear()` and the pushes, `domains` is exactly the given list |
| LegacyFormModel.LegacyApplicationForm.PushDomains | frontend/application_tracker/src/app/features/application/application-form.ts:327-329 | pushing each value in turn appends them all, in order |
| LegacyFormModel.LegacyApplicationForm.OnCreateSucceeded | frontend/application_tracker/src/app/features/application/application-form.ts:360-367 | `reset({country: 'FR', applicationDate: now})` nulls the other controls, keeps every list, and leaves a form that cannot be submitted |
| ApplicationListing.NormalizeFilter | frontend/application_tracker/src/app/features/application/application-table/application-table.ts:117 | `trim().toLowerCase()` is a piece of the lower-cased input with only whitespace around it, has no whitespace at either end and no ASCII capital, and is empty exactly for a blank input |
| ApplicationListing.NormalizeFilterIdempotent | frontend/application_tracker/src/app/features/application/application-table/application-table.ts:94 | normalising the stored filter again changes nothing |
| ApplicationListing.RowMatchesIffOccurs | frontend/application_tracker/src/app/features/application/application-table/application-table.ts:93-101 | a row matches exactly when the normalised filter occurs in the lower-cased company, title, country or status (null read as `''`) |
| ApplicationListing.BlankFilterMatchesAll | frontend/application_tracker/src/app/features/application/application-table/application-table.ts:93-101 | a blank filter matches every row |
| ApplicationListing.EmptyRowMatchesOnlyBlank | frontend/application_tracker/src/app/features/application/application-table/application-table.ts:96-99 | a row with all four fields null matches only a blank filter |
| ApplicationListing.MatchesNormalizedFilter | frontend/application_tracker/src/app/features/application/application-table/application-table.ts:94 | the predicate gives the same answer for the stored filter as for the typed value |
| ApplicationListing.FilterRows | frontend/application_tracker/src/app/features/application/application-table/application-table.ts:93-101 | keeps exactly the rows satisfying the predicate |
| ApplicationListing.FilterRowsBlank | frontend/application_tracker/src/app/features/application/application-table/application-table.ts:93-101 | a blank filter keeps every row |
| ApplicationListing.ApplicationTable.constructor | frontend/application_tracker/src/app/features/application/application-table/application-table.ts:69-72 | a new table has no rows, no filter, no paginator, and is loading |
| ApplicationListing.ApplicationTable.FilteredData | frontend/application_tracker/src/app/features/application/application-table/application-table.ts:93-101 | the shown rows are exactly the rows matching the stored filter |
| ApplicationListing.ApplicationTable.SetPaginator | frontend/application_tracker/src/app/features/application/application-table/application-table.ts:74-79 | a defined paginator is attached; an undefined one is ignored |
| ApplicationListing.ApplicationTable.ApplyFilter | frontend/application_tracker/src/app/features/application/application-table/application-table.ts:116-121 | the stored filter is the normalised value, an attached paginator goes to page 0, and the shown rows are exactly those matching the value |
| ApplicationListing.ApplicationTable.OnFetchSucceeded | frontend/application_tracker/src/app/features/application/application-table/application-table.ts:105-108 | the fetched rows replace the data and loading ends |
| ApplicationListing.ApplicationTable.OnFetchFailed | frontend/application_tracker/src/app/features/application/application-table/application-table.ts:109-112 | loading ends and the data stays as it was |
| BackendModel.IsAfterIsStrictTotalOrder | backend/application_tracker/src/main/java/com/example/application_tracker/app/service/ApplicationService.java:46-50 | `LocalDate.isAfter` is a strict total order on days |
| ApplicationMapper.ContactsToDto | backend/application_tracker/src/main/java/com/example/application_tracker/app/mapper/ApplicationMapper.java:23-30 | copying contacts into a DTO loses nothing: they can be read back |
| ApplicationMapper.ContactsDtoRoundTrip | backend/application_tracker/src/main/java/com/example/application_tracker/app/mapper/ApplicationMapper.java:23-30 | DTO to contacts and back gives the same DTO |
| ApplicationMapper.ToResponse | backend/application_tracker/src/main/java/com/example/application_tracker/app/mapper/ApplicationMapper.java:10-33 | the response keeps the id, and its contacts are null exactly when the entity's are |
| ApplicationMapper.ToResponseLosesNothing | backend/application_tracker/src/main/java/com/example/application_tracker/app/mapper/ApplicationMapper.java:10-33 | the entity can be read back from its response |
| ApplicationMapper.ToResponseInjective | backend/application_tracker/src/main/java/com/example/application_tracker/app/mapper/ApplicationMapper.java:10-33 | different entities give different responses |
| ServiceModel.RequiredFieldErrors | backend/application_tracker/src/main/java/com/example/application_tracker/app/service/ApplicationService.java:32-41 | one message per missing or blank required field, each message only when its field is missing, none exactly when all four are present |
| ServiceModel.RequiredFieldErrorsInCheckOrder | backend/application_tracker/src/main/java/com/example/application_tracker/app/service/ApplicationService.java:34-41 | the messages come in checking order, so none repeats |
| ServiceModel.CreateError | backend/application_tracker/src/main/java/com/example/application_tracker/app/service/ApplicationService.java:43-50 | a create is refused exactly when a required field is missing or the publication date is after the application date; missing fields are reported with their messages, and otherwise the single date-order message is reported |
| ServiceModel.NewEntity | backend/application_tracker/src/main/java/com/example/application_tracker/app/service/ApplicationService.java:52-75 | the entity built from an accepted request keeps the id `save` gives it, has filled required fields, and has its dates in order |
| ServiceModel.NewEntityKeepsRequest | backend/application_tracker/src/main/java/com/example/application_tracker/app/service/ApplicationService.java:52-75 | the created record holds exactly the request's fields: nothing dropped or invented |
| ServiceModel.PatchText | backend/application_tracker/src/main/java/com/example/application_tracker/app/service/ApplicationService.java:116-120 | a required text keeps its stored value when the request leaves it null or blank, and takes the request's value otherwise |
| ServiceModel.PatchValue | backend/application_tracker/src/main/java/com/example/application_tracker/app/service/ApplicationService.java:122-129 | any other field keeps its stored value when the request leaves it null, and takes the request's value otherwise |
| ServiceModel.Patched | backend/application_tracker/src/main/java/com/example/application_tracker/app/service/ApplicationService.java:116-150 | the setters never change the id |
| ServiceModel.PatchedFieldByField | backend/application_tracker/src/main/java/com/example/application_tracker/app/service/ApplicationService.java:116-150 | after an update every field holds the request's value where the request supplies one and the stored value otherwise, and the id is unchanged |
| ServiceModel.PatchedKeepsFilled | backend/application_tracker/src/main/java/com/example/application_tracker/app/service/ApplicationService.java:116-135 | an update never blanks a required field of a stored record |
| ServiceModel.EmptyUpdateKeepsRecord | backend/application_tracker/src/main/java/com/example/application_tracker/app/service/ApplicationService.java:116-150 | an update with every field null leaves the record unchanged |
| ServiceModel.PatchedIdempotent | backend/application_tracker/src/main/java/com/example/application_tracker/app/service/ApplicationService.java:116-150 | applying the same update twice is applying it once |
| ServiceModel.PatchedWithRecordBecomesRecord | backend/application_tracker/src/main/java/com/example/application_tracker/app/service/ApplicationService.java:116-150 | an update carrying all of a complete record's fields turns any record into that one, apart from the id |
| ServiceModel.UpdateCanInvertStoredDates | backend/application_tracker/src/main/java/com/example/application_tracker/app/service/ApplicationService.java:111-129 | the date check looks at the request only: updating just the publication date can leave the stored publication after the stored application |
| ServiceModel.ApplicationService.constructor | backend/application_tracker/src/main/java/com/example/application_tracker/app/service/ApplicationService.java:23-26 | an empty repository |
| ServiceModel.ApplicationService.CreateApplication | backend/application_tracker/src/main/java/com/example/application_tracker/app/service/ApplicationService.java:31-79 | a refused request fails with `CreateError` and stores nothing; an accepted one is stored once under a fresh id, and its response is returned |
| ServiceModel.ApplicationService.CollectRequiredFieldErrors | backend/application_tracker/src/main/java/com/example/application_tracker/app/service/ApplicationService.java:32-41 | the collected messages are `RequiredFieldErrors(req)` |
| ServiceModel.ApplicationService.SaveNew | backend/application_tracker/src/main/java/com/example/application_tracker/app/service/ApplicationService.java:77 | `save` of a new entity stores it under a fresh id and changes no other record |
| ServiceModel.ApplicationService.GetApplication | backend/application_tracker/src/main/java/com/example/application_tracker/app/service/ApplicationService.java:94-98 | the stored record's response, or not-found for an unknown id |
| ServiceModel.ApplicationService.GetAllApplications | backend/application_tracker/src/main/java/com/example/application_tracker/app/service/ApplicationService.java:84-89 | one response per stored record: every record appears and nothing else |
| ServiceModel.ApplicationService.UpdateApplication | backend/application_tracker/src/main/java/com/example/application_tracker/app/service/ApplicationService.java:104-154 | not-found, then a null request, then the request's date order are checked and leave the store unchanged; otherwise only that record is replaced by its patched form |
| ServiceModel.ApplicationService.ApplySetters | backend/application_tracker/src/main/java/com/example/application_tracker/app/service/ApplicationService.java:116-150 | the setter sequence yields `Patched(existing, req)` |
| ServiceModel.ApplicationService.ApplyHeadSetters | backend/application_tracker/src/main/java/com/example/application_tracker/app/service/ApplicationService.java:116-129 | the first five setters yield `PatchedHead` |
| ServiceModel.ApplicationService.ApplyTailSetters | backend/application_tracker/src/main/java/com/example/application_tracker/app/service/ApplicationService.java:131-150 | the last five setters yield `PatchedTail` |
| ServiceModel.ApplicationService.DeleteApplication | backend/application_tracker/src/main/java/com/example/application_tracker/app/service/ApplicationService.java:159-164 | an unknown id is not-found and changes nothing; otherwise exactly that record is removed |
## Left out

- Network calls, dialogs, the router, `console` output, `setTimeout` and the 2.5-second clearing of the chip error flags are left out. A method that opens the success dialog takes the dialog's answer as a parameter, and `OnCreateSucceeded` of the current form reports navigation as its result.
- The phone number library (`parsePhoneNumberFromString`, `isValid`, `formatInternational`) is not part of this model. It is the `PhoneFormatter` parameter.
- The country names come from a localisation library that is not part of this model. The country list is a constructor parameter.
- `toLowerCase`/`toUpperCase` are modelled for ASCII letters only. Other characters are kept unchanged, so Unicode case mapping is not captured.
- The regular expressions are modelled without the `u` flag. `\w` is `[A-Za-z0-9_]`.
- Sorting, the paginator's page size and the internals of `MatTableDataSource` are left out. Only the filter, the page reset and the shown set of rows are modelled.
- `ApplicationListing.ApplicationTable.FilteredData` says which rows are shown, not the order they are shown in.
- The table calls `getAll()` on the front-end `ApplicationService`, but that service (`application.service.ts`) defines no such method. The model takes the fetched rows as a parameter.
- `ServiceModel.ApplicationService.UpdateApplication` is not reachable over HTTP: the controller declares no update mapping. It is modelled as the service method.
- JPA persistence is left out: the entity object's identity, aliasing and transactions, and the order of `findAll`. Records are values in a map. `GetAllApplications` promises the same set of responses in some order.
- `ServiceModel.ApplicationService.GetApplication`, `UpdateApplication` and `DeleteApplication` carry the unknown id in the not-found error rather than the text "Application not found with id: …".
- Null elements inside lists and strings are not modelled. Every list element is a value.
- JSON parsing is left out, including the parsing of `LocalDate`. A `LocalDate` is any year with a month from 1 to 12 and a day from 1 to 31; the days-per-month check of `LocalDate` is not modelled.
- The older form's `onCountrySearch`, `countryFlag`, `onCountryOpened` and `onDateSelected` are the same as the current form's. They are modelled once, in `CountrySearch` and `ApplicationFormModel.ApplicationForm`.
- The older form's payload keeps the `Date` values. Their JSON serialisation (an ISO timestamp in UTC) is not modelled.
- `markAsPristine` is left out: no member reads the pristine state.
- `ApplicationMapper.ToResponse`: its own contract states only the id and the presence of contacts. The full field-for-field copy is stated by `ToResponseLosesNothing`.
- `ServiceModel.Patched`: its own contract states only that the id is kept. What it does to each field is stated by `ServiceModel.PatchedFieldByField`.
