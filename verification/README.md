# Supplier records: a Dafny model of the login guard, the add-customer wizard and the forms

This project models the core of a small Django application that keeps
Customers and their Suppliers, each Supplier with one Detail and any number
of Exclusions. The model covers three parts:

- **The login-attempt guard** (`website/views.py`): `get_client_ip`,
  `check_login_attempts`, `increment_login_attempts` and the POST branch of
  `home`. The cache is an explicit map from keys to (value, expiry). The
  clock is an integer number of seconds. `authenticate` is a boolean
  parameter saying whether the password was right.
- **Saving and reading records** (`website/views.py`, `website/models.py`):
  - the wizard's `done`, which saves the submitted forms in order and
    carries the saved Customer and Supplier through the session;
  - `customer_record`, which shows a Customer with its Suppliers and each
    Supplier's first Detail and first Exclusion;
  - a database of four tables with increasing primary keys, foreign-key
    checks, the one-to-one Detail link and cascading deletes.
- **The forms** (`website/forms.py`, `website/models.py`):
  - the five regular-expression validators, with Python's `re.search`
    semantics (`$` also matches before one final line feed);
  - the stripping that `CharField` does before validation;
  - the `clean_*` normalisers (`str.title`, `str.upper`) on ASCII text;
  - the choice lists, the exclusion-date window and `Exclusion.clean`;
  - `SignupForm.clean_email`.

Files:

| file | module | contents |
|---|---|---|
| wrappers.dfy | Wrappers | `Option`, `Result` |
| text.dfy | Text | character classes, `upper`, `title`, `strip`, `split(...)[0]` |
| validators.dfy | Validators | the five validators and their characterisations |
| validator_examples.dfy | ValidatorExamples | the test-suite inputs against the validators |
| models.dfy | Models | records, choice lists, column sizes, `__str__`, `Exclusion.clean` |
| forms.dfy | Forms | the four add-forms, their cleaners, the date window, `clean_email` |
| form_examples.dfy | FormExamples | the test-suite submissions against the whole forms |
| cache.dfy | Cache | the expiring key-value store |
| guard.dfy | Guard | the login-attempt guard and `home` |
| db.dfy | Db | tables, saves, foreign keys, cascade delete |
| wizard.dfy | Wizard | `MyWizardView.done` |
| record.dfy | CustomerView | `customer_record` |

Behaviour worth knowing:

- A blocked user is always told 30 minutes (`BLOCK_TIME * 60 // 60`),
  whatever time is left on the block.
- The postcode pattern needs at least two characters; it accepts 2 to 12.
- The phone pattern allows an optional `+`, then 6 to 15 symbols from
  `0-9 - ( ) / .`, each optionally followed by one whitespace character,
  then one final digit.
- In `done`, a Supplier form with no Customer in the session, or a child
  form with no Supplier in the session, is skipped silently. The loop goes
  on and the session keys are still removed.
- `done` saves the forms one after another at the end of the wizard. The
  saves are not one transaction: an integrity error stops the loop, keeps
  the rows already saved, and `done` does not remove the session keys.
- The `elif form.prefix == "detail" or "exclusion"` test is always true,
  so the `form has errors` branch is dead (`Wizard.BranchOf`).
- The exclusion choice fields are optional `ChoiceField`s with no default,
  so a blank choice is accepted by the form; `Exclusion.clean` still
  runs on it, so a blank ground counts as a ground and needs a date.

## Model

| member | source | states |
|---|---|---|
| Text.Upper | website/forms.py:184-186 | `upper` keeps the length and maps each position through the ASCII case map |
| Text.UpperIdempotent | website/forms.py:184-186 | upper-casing an upper-cased string changes nothing |
| Text.CaseMapsKeepClasses | website/forms.py:164-186 | the case maps keep letters, digits, spaces, `_` and `-` in their class and are idempotent |
| Text.TitleFrom | website/forms.py:164-182 | `title` keeps the length; a letter is upper-cased when no letter precedes it and lower-cased otherwise |
| Text.TitleKeepsClasses | website/forms.py:164-182 | `title` keeps every character's class (letter, digit, space, `_`) |
| Text.TitleIdempotent | website/forms.py:164-182 | title-casing a title-cased string changes nothing |
| Text.StripLeft | website/forms.py:95-102 | strips exactly the leading whitespace: the result is a suffix, everything removed is whitespace, and it does not start with whitespace |
| Text.StripRight | website/forms.py:95-102 | strips exactly the trailing whitespace: the result is a prefix, everything removed is whitespace, and it does not end with whitespace |
| Text.Strip | website/forms.py:95-102 | the stripped value is a contiguous part of the input that neither starts nor ends with whitespace |
| Text.BeforeFirst | website/views.py:25 | `split(',')[0]` is a prefix without the separator, ending at the first separator or the end |
| Text.BeforeFirstOfJoin | website/views.py:25 | splitting `a + ',' + b` gives back `a` when `a` holds no comma |
| Validators.SearchIsFullMatch | website/forms.py:74-90 | for an input without a final line feed, an anchored `re.search` is a full match of the pattern |
| Validators.OneOrMoreIff | website/forms.py:74-79 | `[...]+` matches exactly the non-empty strings made of the class |
| Validators.RepeatIff | website/forms.py:81-88 | `[...]{lo,hi}` matches exactly the strings of lo to hi characters of the class |
| Validators.LetterValidatorAccepts | website/forms.py:74-76 | the letter validator accepts an input without a final line feed exactly when it is a non-empty string of ASCII letters and spaces |
| Validators.LetterValidatorRejectsDigit | website/forms.py:74-76 | a string with a digit is rejected |
| Validators.AlphanumericValidatorAccepts | website/forms.py:77-79 | the alphanumeric validator accepts exactly the non-empty strings of word characters and whitespace |
| Validators.AlphanumericValidatorRejects | website/forms.py:77-79 | a string with a character that is neither a word character nor whitespace is rejected |
| Validators.PhoneGroupsShape | website/forms.py:80-82 | a matching phone body (after the optional `+`) starts with a phone symbol, ends in a digit, holds only phone symbols and whitespace, and its length is bounded by the 6 to 15 repetitions |
| Validators.PhoneGroupsOfSymbols | website/forms.py:80-82 | 6 to 15 phone symbols followed by a digit match the body of the pattern |
| Validators.PhoneGroupsOfGroups | website/forms.py:80-82 | 6 to 15 phone symbols, each optionally followed by one whitespace character, then a digit, match the body of the pattern |
| Validators.PhoneGroupsGrouped | website/forms.py:80-82 | whatever matches the body of the pattern is a run of groups, each a phone symbol with at most one whitespace character after it, holding 6 to 15 symbols, followed by one digit |
| Validators.PhonePatternIff | website/forms.py:80-82 | the phone pattern matches exactly an optional `+`, then a run of groups holding 6 to 15 symbols, then one digit |
| Validators.PhonePatternShape | website/forms.py:80-82 | a matching phone number has 7 to 32 characters, starts with `+` or a phone symbol, ends in a digit and holds only phone symbols and whitespace after the first character |
| Validators.PostcodeValidatorAccepts | website/forms.py:83-86 | the postcode validator accepts exactly the strings of 2 to 12 characters with alphanumeric ends and alphanumerics, `-` or spaces inside, for an input without a final line feed |
| Validators.VatValidatorAccepts | website/forms.py:87-90 | the VAT validator accepts exactly `GB` in either case followed by 9 or 12 digits, for an input without a final line feed |
| ValidatorExamples.LetterValidatorFinalNewline | website/forms.py:74-76 | "John\n" passes the letter validator |
| ValidatorExamples.LetterValidatorRejectsTestInputs | tests/tests.py:127-139 | "John123", "USA123" and "Anytown123" are rejected |
| ValidatorExamples.AlphanumericAcceptsAddress | tests/tests.py:113-125 | "123 Main St" is accepted |
| ValidatorExamples.AlphanumericRejectsAt | tests/tests.py:127-139 | "Invalid@Address" is rejected |
| ValidatorExamples.PhoneGroupsOfTestDigits | tests/tests.py:113-125 | "123-456-7890" is eleven phone symbols and a final digit |
| ValidatorExamples.PhoneAcceptsExample | tests/tests.py:113-125 | "+1 123-456-7890" is accepted |
| ValidatorExamples.PhoneRejectsShort | tests/tests.py:127-139 | "123" is rejected |
| ValidatorExamples.PostcodeAcceptsExamples | tests/tests.py:113-125 | "ABC 123" and "SW1A 1AA" are accepted |
| ValidatorExamples.PostcodeRejectsTestInputs | tests/tests.py:127-139 | "invalid_postcode" and a one-character postcode are rejected |
| ValidatorExamples.VatAcceptsTestInput | tests/tests.py:173-180 | "GB123456789" is accepted |
| ValidatorExamples.VatAcceptsLongLowerCase | website/forms.py:87-90 | the lower-case twelve-digit "gb123456789012" is accepted |
| ValidatorExamples.VatRejectsTestInput | tests/tests.py:182-189 | "invalid" is rejected |
| Models.CustomerFits | website/models.py:8-15 | the Customer column caps: names 30, e-mail 100, phone 15, address, city and country 50, postcode 10 characters |
| Models.SupplierFits | website/models.py:24-30 | the Supplier column caps: name 50, e-mail 100, phone 15, address, city and country 50, postcode 10 characters |
| Models.DetailFits | website/models.py:57-59 | the Detail column caps: company type and legal form 50, VAT number 20 characters |
| Models.ExclusionFits | website/models.py:81-82 | the Exclusion column caps: both grounds 50 characters |
| Models.ChoiceLists | website/models.py:39-79 | ten distinct company types, three legal forms, "None" among both exclusion lists, "Computers" and "test" not listed |
| Models.CustomerLabelReadsBack | website/models.py:17-18 | a Customer's label gives back the last name before the first comma and the first name after ", " |
| Models.ExclusionClean | website/models.py:86-100 | `clean` passes exactly when a date is given iff some ground is not "None"; each error message for its own case |
| Forms.CharFieldAccepts | website/forms.py:95-157 | a required `CharField` strips the value, refuses it when nothing is left, and otherwise runs its validator on the stripped value |
| Forms.StrippedHasNoFinalNewline | website/forms.py:95-102 | a stripped value never ends in a line feed |
| Forms.TitleKeepsLetterValidator | website/forms.py:164-170 | title-casing a value that passed the letter validator keeps it passing, one final line feed included |
| Forms.TitleKeepsAlphanumericValidator | website/forms.py:172-182 | title-casing a value that passed the alphanumeric validator keeps it passing |
| Forms.UpperKeepsPostcodePattern | website/forms.py:83-86 | upper-casing a string that matches the whole postcode pattern keeps it matching |
| Forms.UpperKeepsPostcodeValidator | website/forms.py:184-186 | upper-casing a valid postcode keeps it valid, one final line feed included |
| Forms.CleanVatKeepsValidator | website/forms.py:317-319 | an upper-cased valid VAT number is valid, starts with "GB", has 11 or 14 characters and is stable under upper-casing |
| Forms.TitleFieldStable | website/forms.py:164-182 | cleaning a title-cased field twice gives what cleaning once gives |
| Forms.UpperFieldStable | website/forms.py:184-186 | cleaning an upper-cased field twice gives what cleaning once gives |
| Forms.LetterFieldCleans | website/forms.py:164-170 | a letter field that the form accepts is cleaned to a value that still validates and is stable |
| Forms.AlphanumericFieldCleans | website/forms.py:172-182 | an alphanumeric field that the form accepts is cleaned to a value that still validates and is stable |
| Forms.PostcodeFieldCleans | website/forms.py:184-186 | an accepted postcode is cleaned to a valid postcode of 2 to 12 characters, stable under cleaning |
| Forms.CleanCustomer | website/forms.py:164-186 | the cleaned Customer: every field stripped, names, address, city and country title-cased, the postcode upper-cased |
| Forms.CustomerFormAccepts | website/forms.py:94-162 | the customer form accepts when every required field passes its validator after stripping, the e-mail is non-blank and the cleaned values fit their columns |
| Forms.CleanCustomerKeepsValidity | website/forms.py:94-186 | a Customer the form accepts is cleaned to values that still pass every validator and fit the columns, and cleaning again changes nothing |
| Forms.CleanSupplier | website/forms.py:255-273 | the cleaned Supplier: every field stripped, name, address, city and country title-cased, the postcode upper-cased |
| Forms.SupplierFormAccepts | website/forms.py:190-253 | the supplier form accepts when every required field passes its validator after stripping, the e-mail is non-blank and the cleaned values fit their columns |
| Forms.CleanSupplierKeepsValidity | website/forms.py:190-273 | a Supplier the form accepts is cleaned to values that still pass every validator and fit the columns, and cleaning again changes nothing |
| Forms.CleanDetail | website/forms.py:317-319 | the cleaned Detail keeps both choices and upper-cases the stripped VAT number |
| Forms.DetailFormAccepts | website/forms.py:277-315 | the detail form accepts when both choices are listed, the stripped VAT number passes its validator and the cleaned values fit their columns |
| Forms.CleanDetailKeepsValidity | website/forms.py:277-319 | a Detail the form accepts is cleaned to a listed type and form and a valid upper-case VAT number, and cleaning again changes nothing |
| Forms.DetailFormRejectsTestInput | tests/tests.py:182-189 | ("Computers", "test", "invalid") is rejected |
| Forms.OptionalChoice | website/forms.py:324-345 | an optional choice field takes a blank value or a listed choice |
| Forms.ExclusionWindowEdges | website/forms.py:346-357 | for every load day: a blank date, the load day itself and the day 3653 days before pass; the next day and the day before that oldest day fail |
| Forms.ExclusionWindowIsInterval | website/forms.py:346-357 | the accepted dates have no gaps: a date between two accepted dates is accepted |
| Forms.ExclusionFormAccepts | website/forms.py:323-365 | the exclusion form accepts when both choices are blank or listed, the date passes its validators, `Exclusion.clean` raises nothing and the choices fit their columns |
| Forms.ExclusionFormAcceptsIff | website/forms.py:323-357 | with choices that are blank or listed, the exclusion form accepts exactly when a date is given iff some ground is not "None", and the date lies in the window |
| Forms.ExclusionFormExamples | website/forms.py:346-357 | a ground without a date, a date without a ground, a future date, a date one day too old and unlisted choices are rejected; a ground with a date in the window, and two blank grounds with a date, are accepted |
| Forms.EmailExists | website/forms.py:68 | the scan of the user rows finds an e-mail exactly when some row holds it |
| Forms.CleanEmail | website/forms.py:66-70 | the e-mail is accepted unchanged exactly when no user row holds it; otherwise the "already registered" error |
| Forms.RegisteringTakesEmail | website/forms.py:66-70 | once a user with an e-mail is added, that e-mail is refused, and every other e-mail gets the answer it got before |
| FormExamples.CustomerTestInputAccepted | tests/tests.py:113-125 | the valid customer of the tests is accepted by the whole form |
| FormExamples.SupplierTestInputAccepted | tests/tests.py:144-155 | the valid supplier of the tests is accepted by the whole form |
| FormExamples.DetailTestInputAccepted | tests/tests.py:173-180 | ("Agricultural", "Charity", "GB123456789") is accepted by the whole form |
| FormExamples.PostcodeUpperCased | website/forms.py:184-186 | the postcode "sw1a 1aa" is saved as "SW1A 1AA" |
| Cache.Set | website/views.py:66-72 | a written key reads back its value until exactly `now + timeout`, and no other key changes |
| Cache.Delete | website/views.py:68 | a deleted key is never live, and no other key changes |
| Cache.GetAfterSet | website/views.py:42-72 | a read after `set` gives the new value for the written key until `now + timeout` and the default from then on; any other key reads as before |
| Cache.GetAfterDelete | website/views.py:63-95 | a read after `delete` gives the default for the deleted key; any other key reads as before |
| Guard.ClientIp | website/views.py:21-28 | with a non-empty forwarded-for header the address is its text before the first comma; otherwise it is the remote address |
| Guard.ClientIpTakesFirstHop | website/views.py:23-25 | a header "first,rest" gives the first hop |
| Guard.FormatIp | website/views.py:40-41 | an address is written into a key as Python formats it: the text "None" when there is none |
| Guard.AttemptsKeyText | website/views.py:40 | the counter key text `login_attempts_<ip>_<username>` |
| Guard.BlockKeyText | website/views.py:41 | the block key text `login_blocked_<ip>_<username>` |
| Guard.KeyTextsNeverClash | website/views.py:40-41 | an attempts key never equals a block key |
| Guard.KeyTextDeterminesPair | website/views.py:40-41 | when neither address has `_` and neither is the text "None", equal key texts mean the same address and username |
| Guard.KeyTextCollision | website/views.py:40-41 | two different (address, username) pairs can share a key text when the address has `_` |
| Guard.CheckLoginAttempts | website/views.py:31-49 | blocked exactly when the block entry is live and truthy, then (blocked, 0, 30); otherwise 10 minus the stored count, 10 when there is no live counter, between 1 and 10 in a well-formed store |
| Guard.IncrementLoginAttempts | website/views.py:52-73 | the tenth failure sets a 30-minute block, drops the counter and reports (blocked, 0, 30); earlier ones store count+1 for a day and report the attempts left; no other pair's entries change |
| Guard.IncrementReadsBack | website/views.py:42-73 | after a failure, checking again reports what the failure reported |
| Guard.Home | website/views.py:76-115 | the password is checked exactly when the user is not blocked; a blocked user leaves the store unchanged and is told 30 minutes; login succeeds exactly when checked and correct, and then clears only the counter; a wrong password does one increment; no other pair changes |
| Guard.HomeKeepsWellFormed | website/views.py:63-73 | counters stay between 1 and 9 and blocks hold 1 |
| Guard.SuccessResetsCounter | website/views.py:90-95 | after a successful login the next check, at any later time, reports 10 attempts |
| Guard.Failures | website/views.py:99-100 | a run of failed logins changes no other pair's entries |
| Guard.FailuresCountUp | website/views.py:63-72 | starting from count c, 10-c failures, each less than a day after the one before, end in a block until 30 minutes after the last one, with the counter gone |
| Guard.TenFailuresLockOut | website/views.py:82-100 | ten failures, each less than a day after the one before, lock the user out: before 30 minutes after the last failure even the right password is refused without a check; afterwards the user has 10 attempts again |
| Db.Insert | website/views.py:274 | an insert appends one row under the next key, which was not in use, and keeps the key order |
| Db.Filter | website/views.py:152 | `filter` keeps exactly the rows that satisfy the condition, in table order |
| Db.UniqueParentsOfSubset | website/models.py:60 | any ordered subset of a table with one row per parent still has one row per parent |
| Db.EmptyDbOwned | website/models.py:31-84 | the empty database satisfies every key and foreign-key constraint |
| Db.SaveCustomer | website/views.py:274 | saving a Customer appends it under a fresh key and changes no other table |
| Db.SaveSupplier | website/models.py:31 | saving a Supplier succeeds exactly when its Customer exists; it appends the row and keeps the constraints |
| Db.SaveDetail | website/models.py:60 | saving a Detail succeeds exactly when its Supplier exists and has no Detail yet |
| Db.SaveExclusion | website/models.py:84 | saving an Exclusion succeeds exactly when its Supplier exists |
| Db.DeleteCustomer | website/models.py:31-84 | deleting a Customer removes exactly it, its Suppliers and their Details and Exclusions, and keeps the constraints |
| Db.DeleteKeepsOwned | website/models.py:31-84 | a cascade of that shape keeps every key and foreign-key constraint |
| Wizard.Prefix | website/views.py:247-252 | each form carries the step name it is listed under in `FORMS`: "customer", "supplier", "detail", "exclusion" |
| Wizard.BranchOf | website/views.py:273-292 | "customer" and "supplier" take their own branches; every other prefix takes the child branch; the error branch is never taken |
| Wizard.Save | website/views.py:274-288 | each form is saved into its own table, under the carried parent for Suppliers, Details and Exclusions |
| Wizard.Step | website/views.py:273-292 | one form: a Customer is saved and carried; a form whose parent is not carried is skipped; only an integrity error stops; other session keys and the constraints are kept |
| Wizard.Loop | website/views.py:272-292 | the loop stops only on an integrity error and keeps other session keys and the constraints |
| Wizard.RemoveCarried | website/views.py:294-299 | the carried Customer and Supplier keys are gone; other keys are untouched |
| Wizard.Done | website/views.py:270-300 | `done` never goes back a step; on the redirect home the carried keys are gone; other keys and the constraints are kept |
| Wizard.StandardRun | website/views.py:270-300 | the four forms in order save one row in each table, each linked to the one before, and end with the redirect home |
| Wizard.NoDeduplication | website/views.py:270-300 | submitting the same forms twice saves two Customers |
| Wizard.NoParentNoSave | website/views.py:277-289 | with nothing carried and no Customer form, nothing is saved and `done` still redirects home |
| CustomerView.Find | website/views.py:151 | `objects.get` finds the row with that key, or reports that there is none |
| CustomerView.FirstChild | website/views.py:156-157 | `.first()` gives nothing exactly when the Supplier has no row; otherwise one of its rows, with the smallest key |
| CustomerView.FirstChildIsOnlyChild | website/models.py:60 | where each Supplier has at most one Detail, its first Detail is that Detail |
| CustomerView.CustomerRecord | website/views.py:149-173 | not logged in gives the redirect; a missing key gives "does not exist"; otherwise the Customer, exactly its Suppliers in table order, and aligned lists of each one's first Detail and Exclusion |
| CustomerView.FirstChildren | website/views.py:153-159 | the loop builds one entry per Supplier, in order, in each list |
| CustomerView.RecordDetailIsTheDetail | website/views.py:155-159 | a Detail shows in a Supplier's slot exactly when it belongs to that Supplier |

## Left out

- Requests, responses, templates, `messages`, logging, `render` and
  `redirect` are not modelled. Each view returns a small outcome value
  instead.
- `authenticate` and `login` are Django's; `passwordOk` stands for the
  result of `authenticate`.
- The clock is a parameter in seconds, and dates are day numbers. The
  exclusion-date bounds are computed once, when the forms module is
  imported; that day is the parameter `loadDay`. Parsing the date text is
  not modelled.
- Wizard.Done: on an integrity error the model returns the session as
  `done` left it. The error becomes a server-error response, and whether
  the session middleware then stores the session is not modelled.
- Two requests running at the same time against the cache or the database
  are not modelled; each call is one atomic step.
- `EmailField` syntax checking, the password validators of `SignupForm`
  and the `User` table are not modelled, except `clean_email`. The
  registered users are given as the sequence of their e-mail fields.
- The form-wizard framework's navigation and storage, the `update_*`
  views, `register`, `user_logout`, `website/urls.py`, and the
  `__str__` of Supplier, Detail and Exclusion are not part of this model.
- `created_at` columns and other ORM details are not modelled. The session
  stores the saved row's key rather than the model instance.
- Non-ASCII text is not modelled. `\w`, `\s`, `upper` and `title` are
  modelled on ASCII letters and digits, the ASCII whitespace and `_`.
- Guard.Home: the cache is keyed by the (address, username) pair, not by
  the key text. Guard.KeyTextDeterminesPair shows that this agrees with
  the source when the address holds no `_` and is not the text "None";
  Guard.KeyTextCollision shows two pairs that share a key text otherwise.
- Guard.CheckLoginAttempts: the block flag is an integer (1 for `True`),
  because Python treats `True` as 1; only the values the guard writes are
  modelled.
- CustomerView.CustomerRecord: a missing key gives an error value; in the
  source `Customer.DoesNotExist` escapes the view as a server error.
- Cache.Get: the local-memory backend also deletes an expired entry when
  it is read; that deletion is not visible to later reads and is not
  modelled.
- Db.Filter: `Supplier.objects.filter(...)` has no `order_by` and the
  models declare no default ordering, so the database may return the rows
  in any order. The model returns them in table order, and
  CustomerView.CustomerRecord lists the Suppliers in that order.
- Cache: the model keeps every entry until it expires. Django's cache
  backends may drop an entry earlier (the local-memory backend culls when
  a `set` finds 300 or more entries), and each server process has its own
  local-memory cache; neither is modelled.
- Guard.TenFailuresLockOut: holds for the single cache above; an entry
  evicted early, or a request served by another process, can lose a
  counter or a block.
