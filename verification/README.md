# Campaign configuration rules and the iteration-date repair

This project models part of the eligibility signposting API: how a
vaccination campaign's configuration is read and checked, and how the test
fixtures repair iteration dates. It covers:

- the campaign configuration records: campaigns, iterations, cohorts, rules,
  actions and status texts;
- the field normalisers applied when a configuration is read: the cohort
  `Virtual` flag, the rule `RuleStop` flag, and `YYYYMMDD` dates;
- the two campaign validators: start date on or before end date, and no two
  iterations on the same date. The field constraint that a campaign has at
  least one iteration is modelled too;
- the two selectors: whether a campaign is live on a given day, and which
  iteration is current on that day;
- the fixture builder's repair of iteration dates. It sorts a campaign's
  iterations by date, pins the first one to the campaign start date, and
  pushes later dates forward until they strictly increase.

Modules:

- `Wrappers` (`wrappers.dfy`): `Option`, `Result` and `Outcome`. A Python
  exception becomes an `Err` or `Fail` value.
- `Calendar` (`calendar.dfy`): Python `date` values. A date is a
  (year, month, day) triple between 0001-01-01 and 9999-12-31, in
  chronological order. `NextDay` models `+ timedelta(days=1)`.
- `PyText` (`py_text.dfy`): `str.strip()` and `str.upper()`.
- `DateFormat` (`date_format.dfy`): `strptime`/`strftime` with the format
  `%Y%m%d`, and the `parse_dates` / `serialize_dates` validators.
- `CampaignConfig` (`campaign_config.dfy`): the records, the normalisers,
  the validators and the selectors. The current day is a parameter
  (`today`); the Python code reads it from the UTC wall clock.
- `IterationRepair` (`iteration_repair.dfy`): the stable sort by date,
  `fix_iteration_date_invariants`, and the invariants that `build`
  promises.

## Model

| member | source | states |
|---|---|---|
| `CampaignConfig.NormalizeVirtual` | src/eligibility_signposting_api/model/campaign_config.py:115-127 | `None` gives `N`. A string gives `Y` exactly when, once stripped, it is `Y` or `y`, and `N` exactly when it is `N` or `n`. Every other string fails, and the error shows the stripped, upper-cased text. A value that is not a string fails. |
| `CampaignConfig.VirtualCohortIffFlagY` | src/eligibility_signposting_api/model/campaign_config.py:107-127 | A cohort read from a `Virtual` field is virtual exactly when the field is a string that strips to `Y` or `y`. A cohort read without the field defaults to non-virtual. |
| `CampaignConfig.ReadVirtual` | src/eligibility_signposting_api/model/campaign_config.py:107-127 | A cohort without a `Virtual` field is `N`. The field reads as `Y` exactly when it is a string that strips to `Y` or `y`. It is rejected exactly when it is not a string, or strips to something other than `Y`, `y`, `N` or `n`. |
| `CampaignConfig.VirtualText` | src/eligibility_signposting_api/model/campaign_config.py:96-98 | The text of each `Virtual` member reads back, through the normaliser, as that member. |
| `CampaignConfig.IsVirtualCohort` | src/eligibility_signposting_api/model/campaign_config.py:111-113 | A cohort is virtual exactly when its flag's text is `Y`. |
| `CampaignConfig.ParseYnToBool` | src/eligibility_signposting_api/model/campaign_config.py:146-150 | A string gives true exactly when it is `Y` or `y`, with no stripping, so `N`, `yes`, ` Y` and the empty string give false. A boolean is returned unchanged. |
| `PyText.Strip` | src/eligibility_signposting_api/model/campaign_config.py:121 | The result is a contiguous slice of the input. Everything cut off either side is whitespace as Python's `str.isspace` defines it, and the result neither starts nor ends with whitespace. |
| `PyText.Upper` | src/eligibility_signposting_api/model/campaign_config.py:121 | Upper-casing keeps the length, turns each lower-case ASCII letter into its capital, and leaves every other character as it is. |
| `PyText.UpperIsOneLetter` | src/eligibility_signposting_api/model/campaign_config.py:121-122 | Upper-casing a string gives the single letter `L` exactly when the string is `L` or its lower-case form. |
| `DateFormat.ParseYmd` | src/eligibility_signposting_api/model/campaign_config.py:203 | Text that Python's `%Y%m%d` date parsing accepts starts with four digits that give the year, and is 6 to 8 characters long. The rows below say which shorter and blank-padded texts are accepted and how each reads. |
| `DateFormat.ParseDate` | src/eligibility_signposting_api/model/campaign_config.py:235-240 | A date value passes through unchanged. A value that is neither a date nor a string is rejected. An accepted string has 6 to 8 characters. An 8-character string without blanks is accepted exactly when it is the written form of some date, and it then reads as that date. Any other string is read exactly as the `%Y%m%d` parse reads it, so the shorter and blank-padded texts in the rows below are accepted here too. |
| `DateFormat.SerializeYmd` | src/eligibility_signposting_api/model/campaign_config.py:208 | The written form is eight digits. The first four give the year, the next two the month and the last two the day, as decimal numbers. |
| `DateFormat.SerializeDate` | src/eligibility_signposting_api/model/campaign_config.py:242-245 | The written form of a date is eight digits, and reading it back gives the same date. |
| `DateFormat.ReadsExactlyWrittenForms` | src/eligibility_signposting_api/model/campaign_config.py:235-245 | Among 8-character texts without blanks, exactly the written forms of dates are read as dates, each as the date it writes. |
| `DateFormat.SerializeRoundTrip` | src/eligibility_signposting_api/model/campaign_config.py:198-208 | For every date from 0001-01-01 to 9999-12-31, parsing its `YYYYMMDD` form gives back that date. |
| `DateFormat.ParseCanonical` | src/eligibility_signposting_api/model/campaign_config.py:235-245 | Converse of the round trip. An 8-character text with no blank that parses as a date is exactly that date's written form. Shorter texts are covered by the next three rows. |
| `DateFormat.ParseSixChars` | src/eligibility_signposting_api/model/campaign_config.py:203 | An accepted 6-character text has a one-digit month and a one-digit day, so `202411` is 2024-01-01. |
| `DateFormat.ParseSevenChars` | src/eligibility_signposting_api/model/campaign_config.py:203 | In an accepted 7-character text, a blank after the fifth character means a one-digit month and a blank-padded day. Without that blank: if characters 5 and 6 spell a month from 01 to 12 and a digit 1 to 9 follows, they are read as that month and a one-digit day (`2024111` is 2024-11-01). Otherwise the text is a one-digit month and a two-digit day. |
| `DateFormat.ParseBlankPaddedDay` | src/eligibility_signposting_api/model/campaign_config.py:203 | An accepted 8-character text with a blank after the sixth character is a two-digit month and a blank-padded day. |
| `DateFormat.EightCharsBlankOnlyBeforeDay` | src/eligibility_signposting_api/model/campaign_config.py:203 | An accepted 8-character text has no blank anywhere except just before its last character, so `2024 105` and `2024010 ` are rejected. |
| `DateFormat.SixCharsAccepted` | src/eligibility_signposting_api/model/campaign_config.py:203 | Four digits followed by two digits 1 to 9 read as a one-digit month and a one-digit day, so `202411` is 2024-01-01. The only failure is a date that does not exist, such as year 0. |
| `DateFormat.SevenCharsBlankDayAccepted` | src/eligibility_signposting_api/model/campaign_config.py:203 | Four digits, a digit 1 to 9, a blank and a digit 1 to 9 read as a one-digit month and a blank-padded day, so `20241 5` is 2024-01-05. The only failure is a date that does not exist. |
| `DateFormat.SevenCharsTwoDigitMonthAccepted` | src/eligibility_signposting_api/model/campaign_config.py:203 | Four digits, a month 01 to 12 and a digit 1 to 9 read as that month and a one-digit day, so `2024111` is 2024-11-01. The only failure is a date that does not exist. |
| `DateFormat.SevenCharsTwoDigitDayAccepted` | src/eligibility_signposting_api/model/campaign_config.py:203 | Four digits, a digit 1 to 9 that cannot start a month 10 to 12, and a two-digit day (01 to 31) read as a one-digit month and that day, so `2024131` is 2024-01-31. A day the month does not have, such as `2024231`, is a range error. |
| `DateFormat.SevenCharsMonthOneAccepted` | src/eligibility_signposting_api/model/campaign_config.py:203 | Four digits then `110` or `120` read as month 1 with day 10 or 20, so `2024110` is 2024-01-10: no day follows the months 11 and 12 alone, so the parse falls back to month 1. The only failure is a date that does not exist. |
| `DateFormat.BlankPaddedDayAccepted` | src/eligibility_signposting_api/model/campaign_config.py:203 | Four digits, a month 01 to 12, a blank and a digit 1 to 9 read as that month and a blank-padded day, so `202401 5` is 2024-01-05. The only failure is a date that does not exist. |
| `Calendar.NextDay` | tests/fixtures/builders/model/rule.py:121-123 | Adding one day has no result exactly on 9999-12-31, where Python overflows. Otherwise the result is later, and it is the earliest date later than the input. |
| `CampaignConfig.CheckStartAndEndDatesSensible` | src/eligibility_signposting_api/model/campaign_config.py:247-252 | Passes exactly when start ≤ end. Otherwise it fails with an error that names both dates. |
| `CampaignConfig.MostCommon` | src/eligibility_signposting_api/model/campaign_config.py:256-257 | Returns a date in the list with its count. No date occurs more often. Among equally common dates, it returns the one that occurs first. |
| `CampaignConfig.DistinctIffCountsOne` | src/eligibility_signposting_api/model/campaign_config.py:256-257 | A list of dates has no repeats exactly when every date in it is counted once. |
| `CampaignConfig.CheckNoOverlappingIterations` | src/eligibility_signposting_api/model/campaign_config.py:254-261 | Passes exactly when no two iterations share a date. A failure names the campaign and the most frequent date with its count of at least 2. Among equally frequent dates it names the one that occurs first. |
| `CampaignConfig.ValidateCampaign` | src/eligibility_signposting_api/model/campaign_config.py:231-261 | Accepts the campaign unchanged exactly when it has at least one iteration, start ≤ end, and the iteration dates are distinct. The missing-iterations error comes first, then the start/end error, then the overlap error for the most frequent date. |
| `CampaignConfig.CampaignLive` | src/eligibility_signposting_api/model/campaign_config.py:263-266 | A campaign is live on a day exactly when the day is neither before its start nor after its end. A campaign that is live on some day passes the start/end check. |
| `CampaignConfig.LiveSomeDayIffSensible` | src/eligibility_signposting_api/model/campaign_config.py:263-266 | A campaign is live on some day exactly when its start/end check passes. It is then live on its start and end dates. |
| `CampaignConfig.LiveDaysContiguous` | src/eligibility_signposting_api/model/campaign_config.py:263-266 | Any day between two live days is live. |
| `CampaignConfig.LatestOnOrBefore` | src/eligibility_signposting_api/model/campaign_config.py:268-272 | Picks the latest iteration dated on or before today; on a tie, the first in list order, as the descending stable sort then `next` does. There is none exactly when every iteration is dated after today. |
| `CampaignConfig.CurrentIteration` | src/eligibility_signposting_api/model/campaign_config.py:268-272 | Fails exactly when every iteration is dated after today. Otherwise it returns an iteration of the campaign dated on or before today, and no such iteration is dated later. |
| `CampaignConfig.CurrentIterationUnique` | src/eligibility_signposting_api/model/campaign_config.py:268-272 | When iteration dates are distinct, the current iteration is the only iteration dated on or before today with no later such iteration. |
| `CampaignConfig.CurrentIterationDefinedFromStart` | src/eligibility_signposting_api/model/campaign_config.py:268-272 | If some iteration is dated on or before the start date, there is a current iteration on every day from the start date on. |
| `IterationRepair.SortByDate` | tests/fixtures/builders/model/rule.py:115 | The sorted list is in date order and is a permutation of the input. |
| `IterationRepair.SortSortedIsIdentity` | tests/fixtures/builders/model/rule.py:115 | Sorting a list that is already in date order leaves it unchanged. |
| `IterationRepair.NextFreeDate` | tests/fixtures/builders/model/rule.py:121-123 | The date given to one iteration is the earliest unused candidate. Candidates are the iteration's own date and later dates; when the own date is before the previous date, only dates after the previous date count. The result is a candidate, is unused, and every earlier candidate is used. The result is never before the previous date. An unused own date that is not before the previous date is kept. The only failure is overflow, and it happens only when every candidate up to 9999-12-31 is used. |
| `IterationRepair.FixIterationDateInvariants` | tests/fixtures/builders/model/rule.py:113-126 | An empty list fails with an index error. A one-element list never fails. On success the first date is the start date, dates strictly increase, and none is before the start date. The result is the sorted input with only dates changed, and no date after the first moves earlier. Each date after the first is exactly the iteration's own date if that is later than the date just given, and otherwise the day after it. Input that is already repaired comes back unchanged. |
| `IterationRepair.StepIsBumped` | tests/fixtures/builders/model/rule.py:121-123 | Once the first iteration is placed, every used date is on or before the previous one, which is itself used. The inner loop then runs at most once, so the date given is the own date if it is later than the previous one, and otherwise the day after the previous one. |
| `IterationRepair.RepairedIsFixedPoint` | tests/fixtures/builders/model/rule.py:113-126 | A list that already satisfies the repair's goal is already in date order, so sorting it again leaves it unchanged. |
| `IterationRepair.RepairTwice` | tests/fixtures/builders/model/rule.py:113-126 | The repair is idempotent: if repairing a list succeeds, repairing the result again succeeds and gives the same list. |
| `IterationRepair.RepairedCampaignIsValid` | tests/fixtures/builders/model/rule.py:101-103 | Take a campaign whose iterations start on its start date and strictly increase. It passes the overlap check, it is accepted exactly when start ≤ end, and it has a current iteration on every day from its start date on. |
| `IterationRepair.BuildCampaign` | tests/fixtures/builders/model/rule.py:99-111 | An empty iteration list fails with the repair's index error. A built campaign passes validation. It differs from the input only in its iterations, keeps their number, and has a current iteration from the start date on. A start date after the end date makes the build fail; validation then rejects it with the start/end error. With sensible dates the only possible failure is the repair's. A single iteration with sensible dates always builds. The built iterations meet the repair's goal: dates strictly increase and the first is the start date. Position by position they are the input sorted by date, with only dates changed. Each date after the first is the own date if later than the one before, otherwise the day after it. |

## Left out

- Pydantic plumbing is not modelled: field aliases, `populate_by_name`, ignoring extra fields, `HttpUrl` checks, `model_dump` and the JSON `__str__` methods. Pydantic reports all field errors together; `ValidateCampaign` reports only the first.
- `ActionsMapper.get` is a plain dictionary lookup, so it is not modelled. The mapper is kept as a `map` field.
- The clock is not modelled: `today` is a parameter. The freezing of the value by `cached_property` on first access is not modelled either.
- `RULE_STOP_DEFAULT` and `ALLOWED_CONDITIONS` come from a configuration module that is not part of this model. The campaign target is an opaque string, and a rule's `ruleStop` is a plain boolean.
- `past_date`, `future_date` and the factory subclasses that generate random data are left out. They depend on randomness and a third-party generator. The fixed cohort and rule factories are plain data.
- The eligibility calculator's source is not part of this model, so it is left out.
- The API gateway infrastructure configuration is declarative and has no algorithm to model.
- `PyText.Upper`: only ASCII letters are upper-cased. Python's full Unicode case mapping is not modelled, so the error text for other letters differs.
- `PyText.UpperIsOneLetter`: holds for the ASCII mapping. Under Python's full mapping it fails for `S` and `I`, which `ſ` and `ı` also upper-case to, but not for `Y` and `N`, the only letters the validators compare with.
- `DateFormat.ParseYmd`: only ASCII digits are read. Python's `\d` also accepts other Unicode decimal digits.
- `DateFormat.SerializeDate`: years are always zero-padded to four digits. Some C libraries write years below 1000 without padding, and then the round trip does not hold.
- `DateFormat.ParseDate`: a `datetime` passed where a `date` is expected is not modelled. Every value that is neither a date nor a string is rejected with one error, without the type error's text.
- `CampaignConfig.ParseYnToBool`: only strings and booleans are accepted, as the signature declares. Other values, which the validator would pass on unchanged, are not modelled.
- `IterationRepair.SortByDate`: the definition is a stable sort, but stability is not stated as a contract.
- `IterationRepair.FixIterationDateInvariants`: the exact inputs that overflow past 9999-12-31 are not characterised. The contract states only that an empty list gives the index error and that one-element and already-repaired lists never fail.
- `IterationRepair.FixIterationDateInvariants`: the list is modelled as values. The same `Iteration` object appearing twice in the Python list, where mutating one entry changes both, is not modelled.
- The fixture factory sets a `rules_mapper` on iterations. The iteration record modelled here has no such field, so it is not modelled.
