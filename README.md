# Flux ERP installer and licence heartbeat, modelled in Dafny

This project models two Artisan commands of the flux-license package.

- `flux:install` is the installation wizard of the Flux ERP. It collects the
  records a fresh installation needs: a language, a currency, a tenant
  (the company), VAT rates, payment types, order types and an administrator.
  In `--no-interaction` mode it reads them from command-line options;
  otherwise it asks for them in prompts. It then writes them inside one
  database transaction. A record that already carries an id is reused and
  not created again. English, each order type, the `default` price list and
  the `Default` warehouse are created only when they are missing. A failed
  create rolls back every row written inside the transaction. The
  migrations and the initial commands run before the transaction and are
  not rolled back.
- `flux-license:send-update` is the licence heartbeat. It posts the number
  of active users and their emails to the licence server under the
  configured licence key, then prints one line that depends on the response
  status.

Modules (one file each):

- `Wrappers`: Option and Result.
- `Text`: the PHP string built-ins the wizard uses: `trim`, `strtoupper`,
  `substr($s, 0, n)` and `explode`.
- `Numeric`: the number grammar of bcmath; `bcdiv($p, '100', 4)` as an
  integer in ten-thousandths; decimal printing of a status code.
- `Records`: the plain records the wizard collects (`WizardState`).
- `Options`: `setupDataFromOptions` as a specification function
  `DataFromOptions`. It maps the option map either to `MissingField(name)` or
  `MalformedRate(text)`, or to a `WizardState`. Its lemmas state the parsing
  and defaulting rules.
- `Apply`: `finishInstallation` as a plan of create actions
  (`PlanFor`). The plan is run against an abstract database that is
  `DbView` (keys that exist plus a log of created rows), with each create
  accepted or refused by an oracle `accepts`. `Store` is the database
  connection with its transaction.
- `Install`: the `Installer` class, holding the wizard's record fields. Its
  methods run the option parsing, the order-type computation, the apply
  step and `handle`, and each is proved against the functions above. The
  module also holds the whole command as the function `Install`, with its
  all-or-nothing lemma.
- `Heartbeat`: the payload, the URL and the reported line of the licence
  heartbeat.

Conventions of the model:

- Options are a map from option name to text. A name that is absent takes
  the signature's default (`en`, `English`, `Euro`, `EUR`, `€`, `Cash`) or
  null.
- `--order-types` is a separate list.
- The cases of `OrderTypeEnum` are a parameter `cases`, in declaration
  order.
- A VAT rate is an integer in ten-thousandths: `0.1900` is 1900.

## Model

| member | source | states |
|---|---|---|
| Text.TrimStart | src/Console/Commands/Install.php:525-526 | the result is a suffix of the input; every character dropped is trim whitespace; the result does not start with whitespace |
| Text.TrimEnd | src/Console/Commands/Install.php:525-526 | the result is a prefix of the input; every character dropped is trim whitespace; the result does not end with whitespace |
| Text.Trim | src/Console/Commands/Install.php:525-526 | the result is no longer than the input and neither starts nor ends with trim whitespace |
| Text.TrimSlice | src/Console/Commands/Install.php:546-547 | trim returns a contiguous slice of its input |
| Text.TrimIdempotent | src/Console/Commands/Install.php:546-547 | trimming twice gives the same as trimming once |
| Text.TrimKeepsAbsent | src/Console/Commands/Install.php:546-547 | trim introduces no character that was not in the input |
| Text.UpperChar | src/Console/Commands/Install.php:507 | strtoupper on one character: an ASCII lower-case letter moves 32 code points down; any other character is unchanged; the result is never lower-case |
| Text.Upper | src/Console/Commands/Install.php:573-576 | strtoupper keeps the length and upper-cases each character in place |
| Text.UpperAppend | src/Console/Commands/Install.php:573-576 | upper-casing a concatenation is the concatenation of the upper-cased parts |
| Text.UpperIdempotent | src/Console/Commands/Install.php:506-507 | upper-casing twice gives the same as upper-casing once |
| Text.Take | src/Console/Commands/Install.php:507 | substr($s, 0, n) is the prefix of length min(n, length of s) |
| Text.Split | src/Console/Commands/Install.php:519 | explode always yields at least one piece |
| Text.SplitPieces | src/Console/Commands/Install.php:519-522 | explode yields one piece more than there are separators, and no piece contains the separator |
| Text.SplitOne | src/Console/Commands/Install.php:522-523 | explode yields exactly one piece iff the separator does not occur |
| Text.JoinSplit | src/Console/Commands/Install.php:544 | joining the pieces of explode with the separator gives the original text back |
| Text.SplitJoin | src/Console/Commands/Install.php:541 | exploding a join of separator-free pieces gives the pieces back |
| Numeric.NatToDecimal | src/Console/Commands/FluxLicenseSendUpdate.php:36 | the decimal text of a status code: at least one digit, reads back as the number, no leading zero |
| Numeric.NatToDecimalInjective | src/Console/Commands/FluxLicenseSendUpdate.php:36 | different status codes print differently |
| Numeric.ParseNumber | src/Console/Commands/Install.php:526 | every number bcmath accepts has digit-only whole and fraction parts |
| Numeric.ParseNumberText | src/Console/Commands/Install.php:526 | reading back the canonical text of any well-formed number gives that number |
| Numeric.RateFromPercent | src/Console/Commands/Install.php:526 | bcdiv yields a rate exactly when bcmath accepts the percentage text |
| Numeric.RateTruncates | src/Console/Commands/Install.php:526 | the rate is the percentage divided by 100 and cut toward zero at four decimals; it is negative only for a negative percentage |
| Numeric.IntegerPercent | src/Console/Commands/Install.php:526 | a whole-number percentage p becomes exactly p * 100 ten-thousandths |
| Numeric.KnownRates | src/Console/Commands/Install.php:534 | 19, 7 and 0 percent become 0.1900, 0.0700 and 0.0000 |
| Numeric.FractionalRate | src/Console/Commands/Install.php:526 | 7.5 percent becomes 0.0750 |
| Numeric.MalformedRate | src/Console/Commands/Install.php:526 | text that is not a number is refused |
| Records.RefOf | src/Console/Commands/Install.php:203 | the user's language, and the tenant of payment and order types (lines 241, 257), is the stored row with exactly the collected record's id when it has one, and otherwise the row created in this run |
| Options.NullIfFalsy | src/Console/Commands/Install.php:509-512 | `?: null` keeps a truthy value and turns null, "" and "0" into null |
| Options.MissingIndex | src/Console/Commands/Install.php:483-489 | the position of the first falsy required field: all fields before it are set, and it is unset unless it is past the end |
| Options.TenantCode | src/Console/Commands/Install.php:506-507 | a truthy --company-code is used unchanged; otherwise the code is the company name's first three characters (or all of a shorter name), each upper-cased |
| Options.UserCode | src/Console/Commands/Install.php:573-576 | the user code is at most two characters: the upper-cased first letters of first and last name, each present iff that name is nonempty |
| Options.VatElement | src/Console/Commands/Install.php:522-529 | an element with other than two ':' parts yields nothing; a two-part element yields its record, or fails naming its percentage when bcmath refuses it |
| Options.ShapedIndices | src/Console/Commands/Install.php:521-523 | the indices of the two-part elements, strictly increasing, and every two-part element is among them |
| Options.GatherSucceeds | src/Console/Commands/Install.php:521-530 | the loop over the elements completes iff no element fails |
| Options.GatherFailure | src/Console/Commands/Install.php:521-530 | a failed loop stops at the first failing element and reports its error |
| Options.GatherNext | src/Console/Commands/Install.php:521-530 | from a prefix that succeeded, a failing element ends the loop with its error and any other appends its records |
| Options.GatherStops | src/Console/Commands/Install.php:521-530 | elements after the first failing one have no effect |
| Options.GatherKept | src/Console/Commands/Install.php:521-530 | when each element yields its record or nothing, the loop yields the records of the kept elements in original order |
| Options.VatRecordsOutcome | src/Console/Commands/Install.php:521-530 | reading --vat-rates fails iff some two-part element has an unreadable percentage, and then it names the first one |
| Options.VatRecordsContents | src/Console/Commands/Install.php:521-530 | on success the list holds exactly the two-part elements, in order, each with its trimmed name, its percentage / 100 and is_default iff its original index is 0 |
| Options.VatDefaultOnlyFirst | src/Console/Commands/Install.php:527 | at most one VAT rate is default: the first record, and only when element 0 was kept |
| Options.VatNothingKept | src/Console/Commands/Install.php:523 | an option with no two-part element yields an empty VAT list |
| Options.DefaultVat | src/Console/Commands/Install.php:531-537 | without --vat-rates the list is the single default Standard rate 19 / 100 = 0.1900 |
| Options.PaymentRecord | src/Console/Commands/Install.php:544-550 | each element becomes an active payment type without id, default iff index 0, with a description iff the element has a ':' |
| Options.Each | src/Console/Commands/Install.php:543-551 | the payment loop yields one record per element, element i giving record i |
| Options.PaymentTypesSpec | src/Console/Commands/Install.php:539-559 | as many payment types as elements, all active, only the first default, and no name containing ',' or ':'; without the option, one default type named by --payment-type-name |
| Options.DataFromReadOptions | src/Console/Commands/Install.php:491-578 | with every required field set and the VAT option readable, the records are built from the options as the source assigns them |
| Options.DataFromMissingOption | src/Console/Commands/Install.php:483-488 | a falsy required field stops the setup with the first such field's name |
| Options.DataFromUnreadVat | src/Console/Commands/Install.php:518-530 | an unreadable VAT percentage stops the setup with that error once the required fields are set |
| Options.RequiredFieldsChecked | src/Console/Commands/Install.php:474-489 | the setup stops on a missing field iff some required option is falsy, and names the first one in list order |
| Options.OptionsRecords | src/Console/Commands/Install.php:491-566 | a successful setup has no record with an id; language, tenant, currency and order types follow the options and the defaults, order types being the given list or every enum case |
| Options.OptionsDefaults | src/Console/Commands/Install.php:501-578 | a successful setup has a two-letter user code, at most the first VAT rate default and exactly the first payment type default |
| Options.CodeExamples | tests/Install/Console/Commands/InstallTest.php:295-312 | "Amazing Test Company" gives tenant code AMA; a given code is kept; Jane Smith gets user code JS |
| Options.NoOptionsStops | tests/Install/Console/Commands/InstallTest.php:314-320 | with no options at all the setup stops on --company-name |
| Apply.After | src/Console/Commands/Install.php:179 | an accepted create appends its row to the log of created rows |
| Apply.RunLog | src/Console/Commands/Install.php:178-289 | a run that is not refused logs every action in order; a refused run logs exactly the actions before the refused one |
| Apply.RunAppend | src/Console/Commands/Install.php:178-289 | running two lists of actions one after the other is running their concatenation, and a refusal in the first skips the second |
| Apply.FinishFrom | src/Console/Commands/Install.php:178-289 | the apply step's result is fixed by where its run of the plan stopped |
| Apply.FinishEnds | src/Console/Commands/Install.php:174-298 | the apply step either creates the whole plan in order, or stops at a planned action that is refused, or stops at a collected order-type value that is not an enum case |
| Apply.HeadMembers | src/Console/Commands/Install.php:178-229 | language, currency, tenant and user are created iff they carry no id; English is created iff the chosen code is not en and no en language exists |
| Apply.TailMembers | src/Console/Commands/Install.php:266-289 | the default price list and the Default warehouse are each created iff missing |
| Apply.PlanMembers | src/Console/Commands/Install.php:178-289 | the plan is the head records, the VAT rates, the payment types, the order types and, unless an order-type value is unknown, the defaults |
| Apply.VatStepsExact | src/Console/Commands/Install.php:231-237 | exactly the VAT rates without an id are created |
| Apply.PaymentStepsExact | src/Console/Commands/Install.php:239-246 | exactly the payment types without an id are created, each for the tenant |
| Apply.OrderTypeStepsExact | src/Console/Commands/Install.php:248-264 | each order type created is an enum case the database lacks, none is created twice, and when no value is unknown every missing listed value is created |
| Apply.OrderTypeHalt | src/Console/Commands/Install.php:249 | the order-type loop stops iff some listed value is not an enum case |
| Apply.OrderTypeMadeCreated | src/Console/Commands/Install.php:256-262 | every value the loop records as made has a create action for the tenant |
| Apply.LanguagesInHead | src/Console/Commands/Install.php:178-229 | the head creates the chosen language iff it has no id, then English iff the chosen code is not en and en does not exist |
| Apply.LanguagesPlanned | src/Console/Commands/Install.php:216-229 | the whole plan creates no language other than those two, so English is never created twice |
| Apply.NothingWithIdCreated | src/Console/Commands/Install.php:178-246 | no record that carries an id is ever created; every created language, currency, tenant, user, VAT rate and payment type is a collected one without an id (or English) |
| Apply.AllNewRecordsPlanned | src/Console/Commands/Install.php:231-246 | every VAT rate and payment type without an id is created |
| Apply.DefaultsPlanned | src/Console/Commands/Install.php:266-289 | the price list and the warehouse are created iff missing and no order-type value was unknown |
| Apply.OrderTypesPlanned | src/Console/Commands/Install.php:248-264 | created order types are listed enum cases the database lacks, for the tenant; the loop finishes iff every value is a case, and then every missing listed value is created |
| Apply.StoppedRun | src/Console/Commands/Install.php:179 | a run stopped at a refused action leaves the rows created before it |
| Apply.Store.constructor | src/Console/Commands/Install.php:106 | a connection starts on the given database with nothing pending |
| Apply.Store.Create | src/Console/Commands/Install.php:179 | a create succeeds iff the oracle accepts it, and then logs its row; a refusal changes nothing |
| Apply.Store.Attempt | src/Console/Commands/Install.php:179-289 | an attempted planned action either extends the run or is the point where the whole plan stops |
| Apply.Store.AttemptIf | src/Console/Commands/Install.php:178-229 | a create guarded by a missing id: skipped when the record exists, else attempted; only a language create adds a language key |
| Apply.Store.BeginTransaction | src/Console/Commands/Install.php:106 | the current database becomes the rollback point |
| Apply.Store.Commit | src/Console/Commands/Install.php:109 | the current database is kept |
| Apply.Store.RollBack | src/Console/Commands/Install.php:112 | the database returns to the rollback point |
| Install.MissingCasesExact | src/Console/Commands/Install.php:643-648 | the offered order types are exactly the enum cases that do not exist yet |
| Install.MissingCasesEmpty | src/Console/Commands/Install.php:650-655 | nothing is offered iff every enum case already exists |
| Install.AllOrNothing | src/Console/Commands/Install.php:106-125 | a completed run has created exactly the planned rows; every other ending leaves the rows the apply step reads and writes unchanged; a failed action is a planned one |
| Install.InstalledIsFinal | src/Console/Commands/Install.php:82-86 | when install is done the command stops at once and changes nothing |
| Install.InteractiveOrderTypesKnown | src/Console/Commands/Install.php:657-664 | an interactive run never fails on a missing option or on an unknown order type |
| Install.TypedRates | src/Console/Commands/Install.php:866-879 | every rate the VAT prompt yields corresponds to one typed entry |
| Install.TypedRatesSucceed | src/Console/Commands/Install.php:866-879 | typed rates are read iff every typed percentage is a number |
| Install.TypedRatesFailure | src/Console/Commands/Install.php:873 | a failure names the first typed percentage that is not a number |
| Install.TypedRatesContents | src/Console/Commands/Install.php:871-879 | on success rate k has no id, entry k's name and entry k's percentage / 100, and is the default iff it is the first one and no rate existed |
| Install.TypedRatesStop | src/Console/Commands/Install.php:873 | entries typed after a refused percentage change nothing |
| Install.VatFromAnswers | src/Console/Commands/Install.php:843-879 | keeping the existing rates yields them unchanged; only typed rates can fail, and only on a percentage |
| Install.InteractiveUnreadableRate | src/Console/Commands/Install.php:869-873 | an interactive run stops on a VAT percentage iff new rates were typed and one of the percentages is not a number; the first such percentage is named and no row is written |
| Install.DefaultOrderTypesKnown | src/Console/Commands/Install.php:561-566 | without --order-types no order-type value is unknown |
| Install.Installer.constructor | src/Console/Commands/Install.php:41-78 | the wizard starts with empty record lists |
| Install.Installer.FirstMissing | src/Console/Commands/Install.php:483-489 | finds no field iff every required option is set, and otherwise the first falsy one |
| Install.Installer.SetupDataFromOptions | src/Console/Commands/Install.php:472-579 | stops with exactly the error DataFromOptions gives; otherwise the fields are its records, the VAT rates and payment types appended to the lists |
| Install.Installer.SetRecords | src/Console/Commands/Install.php:491-578 | assigns each record field from the options and appends the two lists; fails iff the VAT option is unreadable |
| Install.Installer.AppendVatRates | src/Console/Commands/Install.php:516-537 | appends the parsed VAT rates, or fails with the parse error |
| Install.Installer.AppendVatElements | src/Console/Commands/Install.php:521-530 | the VAT loop appends exactly what VatRecords yields, or fails with its error |
| Install.Installer.AppendPaymentTypes | src/Console/Commands/Install.php:539-559 | appends exactly the payment types of the options |
| Install.Installer.OrderTypeOptions | src/Console/Commands/Install.php:643-648 | the loop computes the enum cases that do not exist, in declaration order |
| Install.Installer.SetupOrderTypes | src/Console/Commands/Install.php:643-664 | the order types become the selection, or none when every case exists; each is a case that does not exist |
| Install.Installer.CreateCompany | src/Console/Commands/Install.php:178-200 | creates language, currency and tenant unless they carry an id, stopping at the first refusal; adds at most the chosen language key |
| Install.Installer.CreateRecords | src/Console/Commands/Install.php:178-229 | runs the head of the plan; the user gets the language before it is created |
| Install.Installer.CreateVatRates | src/Console/Commands/Install.php:231-237 | runs the VAT part of the plan, stopping at the first refusal |
| Install.Installer.CreatePaymentTypes | src/Console/Commands/Install.php:239-246 | runs the payment part of the plan for the tenant, stopping at the first refusal |
| Install.Installer.CreateOrderTypes | src/Console/Commands/Install.php:248-264 | runs the order-type loop; stops at an unknown value or a refusal |
| Install.Installer.AddOrderType | src/Console/Commands/Install.php:251-263 | creates an order type iff none with that enum exists yet |
| Install.Installer.CreateDefaults | src/Console/Commands/Install.php:266-289 | creates the default price list and warehouse when missing |
| Install.Installer.FinishInstallation | src/Console/Commands/Install.php:174-298 | the database and stop reason are exactly those of the apply specification Finish |
| Install.Installer.TakeAnswers | src/Console/Commands/Install.php:94-102 | the interactive setup sets every field from the answers, the VAT prompt and the order-type selection, or stops with the VAT prompt's error |
| Install.Installer.SetupVatRates | src/Console/Commands/Install.php:843-879 | the VAT rates become exactly what VatFromAnswers yields, or its error |
| Install.Installer.AddTypedRates | src/Console/Commands/Install.php:866-879 | the loop over the typed rates yields exactly TypedRates, or stops with its error |
| Install.Installer.CollectRecords | src/Console/Commands/Install.php:92-102 | collects exactly the records of Collect, or its error |
| Install.Installer.Handle | src/Console/Commands/Install.php:80-130 | outcome and database are those of Install; exit code 0 iff the run completed |
| Heartbeat.PayloadOf | src/Console/Commands/FluxLicenseSendUpdate.php:30-31 | active_users equals the number of listed users |
| Heartbeat.CountMatchesEmails | src/Console/Commands/FluxLicenseSendUpdate.php:30-31 | the count query and the email query agree |
| Heartbeat.EmailsOfActiveRows | src/Console/Commands/FluxLicenseSendUpdate.php:31 | an email is listed iff some active user has it, so an inactive user's own email is not listed |
| Heartbeat.NoActiveUsers | src/Console/Commands/FluxLicenseSendUpdate.php:30-31 | with no active user the payload is zero users and an empty list |
| Heartbeat.RequestUrl | src/Console/Commands/FluxLicenseSendUpdate.php:28 | the URL is the licence endpoint followed by the licence key (empty when unset) |
| Heartbeat.Report | src/Console/Commands/FluxLicenseSendUpdate.php:35-41 | exactly one line: an error naming the status iff the status is 400 or more, otherwise the success line |
| Heartbeat.ReportExamples | tests/Unit/Console/Commands/FluxLicenseSendUpdateTest.php:46-56 | a 500 prints "...: 500"; 200 and 302 print the success line; 404 is an error |

## Left out

- Interactive prompts: the `text`, `confirm`, `multiselect`, `search`,
  `password` and `table` prompts, and the retry loops around them. The
  interactive mode is given its answers as input. These are one record for
  language, currency, tenant, payment types and user, and the VAT answers:
  either the existing rates kept, or the typed name and percentage text of
  each new rate. The order-type selection must meet what the required
  multiselect enforces (`ValidSelection`). A typed rate that the host's
  validator refuses is asked again; the entries are the ones it accepted.
  The prompts depend on a user and on the host's validators.
- `setupDatabase` (the migrations), `runInitialCommands`, the
  `flux:init-env` call and `askForPhpFpmRestart`. `handle` in
  src/Console/Commands/Install.php calls the first two at lines 90 and 104.
  These are process and command invocations. The migrations and the initial
  commands write to the database before the option check and outside the
  transaction, so their writes stay after every ending, including a
  missing option, an unreadable rate, an unknown order type and a failed
  create. The database view `DbView` holds only the rows the apply step
  reads and writes, and the all-or-nothing property is about those rows
  alone.
- The host's `Create*` actions, their `validate()` and `execute()`, and
  Eloquent queries. A create is an oracle `accepts` over the database view,
  and the database is the set of keys the existence checks look up
  (language codes, order-type enums, price-list codes, warehouse names).
- The role assignment of the new admin ("Super Admin"). It has no effect on
  the records modelled.
- The translated names: `__('Standard')`, `__('Default')` and an order
  type's name. These are kept as fixed texts or left out.
- The printed messages of `handle` and of the validation errors. Only the
  outcome and the exit code are modelled.
- The exit code when an uncaught error ends the run. `bcdiv` and
  `OrderTypeEnum::from` throw a `ValueError`, which `catch (Exception)` does
  not catch. The model ends such a run as `UnreadableRate` or
  `UnknownOrderType` with exit code 1, and the open transaction discarded,
  as it is when the process dies before `DB::commit()`.
- `exit(1)` on a missing field. It is modelled as the `MissingField` error,
  which ends the run with exit code 1.
- Text.Upper: PHP's `strtoupper` and `substr` work on bytes. The model works
  on characters and upper-cases only ASCII letters, so a multi-byte first
  character is not cut in half as `substr($s, 0, 1)` would cut it.
- An option passed without a value. The model reads every given option as
  text.
- The HTTP client. The response status is an input, and `failed()` is a
  status of 400 or more.
- The payload shape. `users` is a list of `{email}` rows in the source, and
  a list of emails here.
- The service provider that schedules the heartbeat.
- Field values after a failed option setup. The source exits at that point,
  so the model states nothing about the fields then.
