/** The campaign configuration records of the eligibility rules, the field
    normalisers they apply when read, the two campaign-level validators, and
    the two date-dependent selectors (`campaign_live`, `current_iteration`).
    The current day, which the source reads from the UTC wall clock, is a
    parameter here. */
module CampaignConfig {
  import opened Wrappers
  import opened Calendar
  import opened PyText

  // ---------------------------------------------------------------------
  // Records
  // ---------------------------------------------------------------------

  datatype RuleType = Filter | Suppression | Redirect | NotEligibleActions | NotActionableActions

  datatype RuleOperator =
    | Equals | Gt | Lt | Ne | Gte | Lte
    | Contains | NotContains | StartsWith | NotStartsWith | EndsWith
    | IsIn | NotIn | MemberOf | NotMemberOf
    | IsNull | IsNotNull | IsBetween | IsNotBetween | IsEmpty | IsNotEmpty | IsTrue | IsFalse
    | DayLte | DayLt | DayGte | DayGt
    | WeekLte | WeekLt | WeekGte | WeekGt
    | YearLte | YearLt | YearGte | YearGt

  datatype RuleAttributeLevel = Person | Target | Cohort

  datatype Virtual = Yes | No

  datatype IterationCohort = IterationCohort(
    cohortLabel: string,
    cohortGroup: string,
    positiveDescription: Option<string>,
    negativeDescription: Option<string>,
    priority: Option<int>,
    virtual: Virtual)

  datatype IterationRule = IterationRule(
    ruleType: RuleType,
    name: string,
    description: string,
    priority: int,
    attributeLevel: RuleAttributeLevel,
    attributeName: Option<string>,
    cohortLabel: Option<string>,
    operator: RuleOperator,
    comparator: string,
    attributeTarget: Option<string>,
    ruleStop: bool,
    commsRouting: Option<string>)

  datatype AvailableAction = AvailableAction(
    actionType: string,
    actionCode: string,
    actionDescription: Option<string>,
    urlLink: Option<string>,
    urlLabel: Option<string>)

  datatype StatusText = StatusText(
    notEligible: Option<string>,
    notActionable: Option<string>,
    actionable: Option<string>)

  /** The one-letter iteration types `A`, `M`, `S` and `O`. */
  datatype IterationType = TypeA | TypeM | TypeS | TypeO

  datatype Iteration = Iteration(
    id: string,
    version: int,
    name: string,
    iterationDate: ValidDate,
    iterationNumber: Option<int>,
    approvalMinimum: Option<int>,
    approvalMaximum: Option<int>,
    iterationType: IterationType,
    defaultCommsRouting: string,
    defaultNotEligibleRouting: string,
    defaultNotActionableRouting: string,
    iterationCohorts: seq<IterationCohort>,
    iterationRules: seq<IterationRule>,
    actionsMapper: map<string, AvailableAction>,
    statusText: Option<StatusText>)

  /** The campaign types `V` and `S`. */
  datatype CampaignType = TypeV | TypeS

  /** The iteration frequencies `X`, `D`, `W`, `M`, `Q` and `A`. */
  datatype IterationFrequency = FrequencyX | FrequencyD | FrequencyW | FrequencyM | FrequencyQ | FrequencyA

  datatype CampaignConfig = CampaignConfig(
    id: string,
    version: int,
    name: string,
    campaignType: CampaignType,
    target: string,
    manager: Option<seq<string>>,
    approver: Option<seq<string>>,
    reviewer: Option<seq<string>>,
    iterationFrequency: IterationFrequency,
    iterationType: IterationType,
    iterationTime: Option<string>,
    defaultCommsRouting: Option<string>,
    startDate: ValidDate,
    endDate: ValidDate,
    approvalMinimum: Option<int>,
    approvalMaximum: Option<int>,
    iterations: seq<Iteration>)

  // ---------------------------------------------------------------------
  // Field normalisers
  // ---------------------------------------------------------------------

  /** What a "before" field validator may be handed: JSON `null`, a string,
      or some other value (a number, a boolean, ...). */
  datatype RawValue = Null | Str(s: string) | NonStr

  /** `Invalid value for Virtual: ...`; for a string it shows the stripped,
      upper-cased text. */
  datatype VirtualError = InvalidVirtual(value: RawValue)

  /** `IterationCohort.normalize_virtual`. */
  function NormalizeVirtual(v: RawValue): (r: Result<Virtual, VirtualError>)
    ensures v.Null? ==> r == Ok(No)
    ensures v.NonStr? ==> r.Err?
    ensures v.Str? ==> (r == Ok(Yes) <==> Strip(v.s) == "Y" || Strip(v.s) == "y")
    ensures v.Str? ==> (r == Ok(No) <==> Strip(v.s) == "N" || Strip(v.s) == "n")
    ensures v.Str? && r.Err? ==> r.error == InvalidVirtual(Str(Upper(Strip(v.s))))
  {
    match v
    case Null => Ok(No)
    case NonStr => Err(InvalidVirtual(v))
    case Str(s) =>
      var t := Upper(Strip(s));
      UpperIsOneLetter(Strip(s), 'y', 'Y');
      UpperIsOneLetter(Strip(s), 'n', 'N');
      if t == "Y" then Ok(Yes)
      else if t == "N" then Ok(No)
      else Err(InvalidVirtual(Str(t)))
  }

  /** The `Virtual` field of a cohort as read: absent means the default `N`,
      present means the normalised value. */
  function ReadVirtual(field: Option<RawValue>): (r: Result<Virtual, VirtualError>)
    ensures field.None? ==> r == Ok(No)
    ensures r == Ok(Yes) <==> field.Some? && field.value.Str? && (Strip(field.value.s) == "Y" || Strip(field.value.s) == "y")
    ensures r.Err? <==> field.Some? && (field.value.NonStr? || (field.value.Str? && Strip(field.value.s) !in ["Y", "y", "N", "n"]))
  {
    match field
    case None => Ok(No)
    case Some(v) => NormalizeVirtual(v)
  }

  /** The text of a `Virtual` member (it is a string enumeration). Reading
      that text back gives the same member. */
  function VirtualText(v: Virtual): (t: string)
    ensures NormalizeVirtual(Str(t)) == Ok(v)
  {
    match v
    case Yes => "Y"
    case No => "N"
  }

  /** `IterationCohort.is_virtual_cohort`: the flag's text is `Y`. */
  function IsVirtualCohort(c: IterationCohort): (r: bool)
    ensures r <==> VirtualText(c.virtual) == "Y"
  {
    c.virtual == Yes
  }

  /** A cohort read with a `Virtual` field is virtual exactly when the field
      is the letter Y, in either case, with surrounding blanks; a cohort
      read without one is not. */
  lemma VirtualCohortIffFlagY(c: IterationCohort, field: Option<RawValue>)
    requires ReadVirtual(field) == Ok(c.virtual)
    ensures IsVirtualCohort(c) <==> field.Some? && field.value.Str? && (Strip(field.value.s) == "Y" || Strip(field.value.s) == "y")
    ensures field.None? ==> !IsVirtualCohort(c)
  {
  }

  /** What the `RuleStop` validator may be handed. */
  datatype YesNoInput = YesNoText(text: string) | YesNoBool(flag: bool)

  /** `IterationRule.parse_yn_to_bool`. */
  function ParseYnToBool(v: YesNoInput): (r: bool)
    ensures v.YesNoText? ==> (r <==> v.text == "Y" || v.text == "y")
    ensures v.YesNoBool? ==> r == v.flag
  {
    match v
    case YesNoText(s) =>
      UpperIsOneLetter(s, 'y', 'Y');
      Upper(s) == "Y"
    case YesNoBool(b) => b
  }

  // ---------------------------------------------------------------------
  // Campaign validators
  // ---------------------------------------------------------------------

  datatype ConfigError =
    | NoIterations                                                          // `min_length=1` on the iterations
    | StartAfterEnd(startDate: ValidDate, endDate: ValidDate)
    | OverlappingIterations(iterationDate: ValidDate, count: nat, campaignId: string)

  /** `check_start_and_end_dates_sensible`. */
  function CheckStartAndEndDatesSensible(c: CampaignConfig): (r: Outcome<ConfigError>)
    ensures r.Pass? <==> AtOrBefore(c.startDate, c.endDate)
    ensures r.Fail? ==> r.error == StartAfterEnd(c.startDate, c.endDate)
  {
    if Before(c.endDate, c.startDate) then Fail(StartAfterEnd(c.startDate, c.endDate)) else Pass
  }

  function IterationDates(its: seq<Iteration>): (ds: seq<ValidDate>)
    ensures |ds| == |its|
    ensures forall i :: 0 <= i < |its| ==> ds[i] == its[i].iterationDate
  {
    seq(|its|, i requires 0 <= i < |its| => its[i].iterationDate)
  }

  /** How many times `d` occurs in `ds`: the tally a `Counter` keeps. */
  function Count(ds: seq<ValidDate>, d: Date): nat
  {
    if |ds| == 0 then 0 else (if ds[0] == d then 1 else 0) + Count(ds[1..], d)
  }

  /** No date occurs twice. */
  predicate DistinctDates(ds: seq<ValidDate>) {
    forall i, j :: 0 <= i < j < |ds| ==> ds[i] != ds[j]
  }

  lemma {:induction false} CountOfMember(ds: seq<ValidDate>, i: int)
    requires 0 <= i < |ds|
    ensures Count(ds, ds[i]) >= 1
  {
    if i > 0 {
      CountOfMember(ds[1..], i - 1);
    }
  }

  lemma {:induction false} CountOfRepeated(ds: seq<ValidDate>, i: int, j: int)
    requires 0 <= i < j < |ds| && ds[i] == ds[j]
    ensures Count(ds, ds[i]) >= 2
  {
    if i > 0 {
      CountOfRepeated(ds[1..], i - 1, j - 1);
    } else {
      CountOfMember(ds[1..], j - 1);
    }
  }

  lemma {:induction false} RepeatedOfCount(ds: seq<ValidDate>, d: Date)
    requires Count(ds, d) >= 2
    ensures exists i, j :: 0 <= i < j < |ds| && ds[i] == d && ds[j] == d
  {
    if ds[0] == d {
      var k := OccurrenceOfCount(ds[1..], d);
      assert ds[k + 1] == d;
    } else {
      RepeatedOfCount(ds[1..], d);
      var i, j :| 0 <= i < j < |ds[1..]| && ds[1..][i] == d && ds[1..][j] == d;
      assert ds[i + 1] == d && ds[j + 1] == d;
    }
  }

  lemma {:induction false} OccurrenceOfCount(ds: seq<ValidDate>, d: Date) returns (k: nat)
    requires Count(ds, d) >= 1
    ensures k < |ds| && ds[k] == d
  {
    if ds[0] == d {
      k := 0;
    } else {
      k := OccurrenceOfCount(ds[1..], d);
      k := k + 1;
    }
  }

  /** A list of dates is free of repeats exactly when every date in it is
      counted once. */
  lemma DistinctIffCountsOne(ds: seq<ValidDate>)
    ensures DistinctDates(ds) <==> forall i :: 0 <= i < |ds| ==> Count(ds, ds[i]) == 1
  {
    if DistinctDates(ds) {
      forall i | 0 <= i < |ds|
        ensures Count(ds, ds[i]) == 1
      {
        CountOfMember(ds, i);
        if Count(ds, ds[i]) >= 2 {
          RepeatedOfCount(ds, ds[i]);
        }
      }
    } else {
      var i, j :| 0 <= i < j < |ds| && ds[i] == ds[j];
      CountOfRepeated(ds, i, j);
    }
  }

  /** The scan behind `Counter(ds).most_common()[0]`: the index of the
      first date with the highest count, searching from `from` on with
      `best` the best index among those before it. */
  function MostCommonFrom(ds: seq<ValidDate>, from: nat, best: nat): (b: nat)
    requires best < from <= |ds|
    requires forall j :: 0 <= j < from ==> Count(ds, ds[j]) <= Count(ds, ds[best])
    requires forall j :: 0 <= j < best ==> Count(ds, ds[j]) < Count(ds, ds[best])
    ensures b < |ds|
    ensures forall j :: 0 <= j < |ds| ==> Count(ds, ds[j]) <= Count(ds, ds[b])
    ensures forall j :: 0 <= j < b ==> Count(ds, ds[j]) < Count(ds, ds[b])
    decreases |ds| - from
  {
    if from == |ds| then best
    else if Count(ds, ds[from]) > Count(ds, ds[best]) then MostCommonFrom(ds, from + 1, from)
    else MostCommonFrom(ds, from + 1, best)
  }

  /** `Counter(ds).most_common()[0]`: the date with the highest count, the
      one seen first among equally common dates, and its count. */
  function MostCommon(ds: seq<ValidDate>): (r: (ValidDate, nat))
    requires |ds| > 0
    ensures r.1 == Count(ds, r.0) && r.0 in ds
    ensures forall j :: 0 <= j < |ds| ==> Count(ds, ds[j]) <= r.1
    ensures forall j :: 0 <= j < |ds| && Count(ds, ds[j]) == r.1 ==> ds[j] == r.0 || exists k :: 0 <= k < j && ds[k] == r.0
  {
    var b := MostCommonFrom(ds, 1, 0);
    (ds[b], Count(ds, ds[b]))
  }

  /** `check_no_overlapping_iterations`. */
  function CheckNoOverlappingIterations(c: CampaignConfig): (r: Outcome<ConfigError>)
    ensures r.Pass? <==> DistinctDates(IterationDates(c.iterations))
    ensures r.Fail? ==> r.error.OverlappingIterations? && r.error.campaignId == c.id && r.error.count >= 2
    ensures r.Fail? ==> r.error.count == Count(IterationDates(c.iterations), r.error.iterationDate)
    ensures r.Fail? ==> |c.iterations| > 0 && (r.error.iterationDate, r.error.count) == MostCommon(IterationDates(c.iterations))
  {
    var ds := IterationDates(c.iterations);
    if |ds| == 0 then Pass
    else
      var (d, n) := MostCommon(ds);
      DistinctIffCountsOne(ds);
      if n > 1 then Fail(OverlappingIterations(d, n, c.id))
      else
        assert forall i :: 0 <= i < |ds| ==> Count(ds, ds[i]) == 1 by {
          forall i | 0 <= i < |ds| ensures Count(ds, ds[i]) == 1 {
            CountOfMember(ds, i);
          }
        }
        Pass
  }

  /** The invariants every campaign read from configuration satisfies. */
  predicate WellFormed(c: CampaignConfig) {
    && |c.iterations| >= 1
    && AtOrBefore(c.startDate, c.endDate)
    && DistinctDates(IterationDates(c.iterations))
  }

  /** Reading a campaign: the field constraint on `iterations` first, then the
      two model validators in the order they are declared; the first failure
      is the one reported. */
  function ValidateCampaign(c: CampaignConfig): (r: Result<CampaignConfig, ConfigError>)
    ensures r.Ok? <==> WellFormed(c)
    ensures r.Ok? ==> r.value == c
    ensures |c.iterations| == 0 ==> r == Err(NoIterations)
    ensures |c.iterations| > 0 && Before(c.endDate, c.startDate) ==> r == Err(StartAfterEnd(c.startDate, c.endDate))
    ensures |c.iterations| > 0 && AtOrBefore(c.startDate, c.endDate) && !DistinctDates(IterationDates(c.iterations)) ==>
      var (d, n) := MostCommon(IterationDates(c.iterations));
      r == Err(OverlappingIterations(d, n, c.id))
  {
    if |c.iterations| == 0 then Err(NoIterations)
    else match CheckStartAndEndDatesSensible(c)
      case Fail(e) => Err(e)
      case Pass =>
        match CheckNoOverlappingIterations(c)
        case Fail(e) => Err(e)
        case Pass => Ok(c)
  }

  // ---------------------------------------------------------------------
  // Selectors
  // ---------------------------------------------------------------------

  /** `campaign_live` on the day `today`: the campaign has started and has
      not ended. */
  function CampaignLive(c: CampaignConfig, today: ValidDate): (live: bool)
    ensures live <==> !Before(today, c.startDate) && !Before(c.endDate, today)
    ensures live ==> CheckStartAndEndDatesSensible(c).Pass?
  {
    AtOrBefore(c.startDate, today) && AtOrBefore(today, c.endDate)
  }

  /** A campaign is live on some day exactly when its start/end check passes,
      and then it is live on its first and last day. */
  lemma LiveSomeDayIffSensible(c: CampaignConfig)
    ensures (exists today: ValidDate :: CampaignLive(c, today)) <==> CheckStartAndEndDatesSensible(c).Pass?
    ensures CheckStartAndEndDatesSensible(c).Pass? ==> CampaignLive(c, c.startDate) && CampaignLive(c, c.endDate)
  {
    if CheckStartAndEndDatesSensible(c).Pass? {
      assert CampaignLive(c, c.startDate);
    }
  }

  /** The days a campaign is live on have no gaps. */
  lemma LiveDaysContiguous(c: CampaignConfig, a: ValidDate, x: ValidDate, b: ValidDate)
    requires CampaignLive(c, a) && CampaignLive(c, b)
    requires AtOrBefore(a, x) && AtOrBefore(x, b)
    ensures CampaignLive(c, x)
  {
  }

  /** The index the descending stable sort followed by `next` lands on: among
      the iterations dated on or before `today`, the latest, and of equally
      late ones the first in list order. */
  function LatestOnOrBefore(its: seq<Iteration>, today: ValidDate): (r: Option<nat>)
    ensures r.None? <==> forall i :: 0 <= i < |its| ==> Before(today, its[i].iterationDate)
    ensures r.Some? ==> r.value < |its| && AtOrBefore(its[r.value].iterationDate, today)
    ensures r.Some? ==> forall i :: 0 <= i < |its| && AtOrBefore(its[i].iterationDate, today) ==>
                          AtOrBefore(its[i].iterationDate, its[r.value].iterationDate)
    ensures r.Some? ==> forall i :: 0 <= i < r.value && AtOrBefore(its[i].iterationDate, today) ==>
                          Before(its[i].iterationDate, its[r.value].iterationDate)
  {
    if |its| == 0 then None
    else
      var n := |its| - 1;
      var p := LatestOnOrBefore(its[..n], today);
      if Before(today, its[n].iterationDate) then p
      else if p.None? || Before(its[p.value].iterationDate, its[n].iterationDate) then Some(n)
      else p
  }

  /** `current_iteration` raises when every iteration is dated after today. */
  datatype NoCurrentIteration = NoIterationOnOrBefore(today: ValidDate)

  /** `current_iteration` on the day `today`. */
  function CurrentIteration(c: CampaignConfig, today: ValidDate): (r: Result<Iteration, NoCurrentIteration>)
    ensures r.Err? <==> forall it :: it in c.iterations ==> Before(today, it.iterationDate)
    ensures r.Ok? ==> r.value in c.iterations && AtOrBefore(r.value.iterationDate, today)
    ensures r.Ok? ==> forall it :: it in c.iterations && AtOrBefore(it.iterationDate, today) ==>
                        AtOrBefore(it.iterationDate, r.value.iterationDate)
  {
    match LatestOnOrBefore(c.iterations, today)
    case None => Err(NoIterationOnOrBefore(today))
    case Some(b) => Ok(c.iterations[b])
  }

  /** With no two iterations on the same date, the current iteration is the
      one and only iteration dated on or before today with no later such
      iteration. */
  lemma CurrentIterationUnique(c: CampaignConfig, today: ValidDate, it: Iteration)
    requires DistinctDates(IterationDates(c.iterations))
    requires it in c.iterations && AtOrBefore(it.iterationDate, today)
    requires forall other :: other in c.iterations && AtOrBefore(other.iterationDate, today) ==>
               AtOrBefore(other.iterationDate, it.iterationDate)
    ensures CurrentIteration(c, today) == Ok(it)
  {
    var b := LatestOnOrBefore(c.iterations, today).value;
    var k :| 0 <= k < |c.iterations| && c.iterations[k] == it;
    var ds := IterationDates(c.iterations);
    assert ds[k] == ds[b];
  }

  /** A campaign that has an iteration dated on or before its start date has
      a current iteration on every day it is live, and on every later day. */
  lemma CurrentIterationDefinedFromStart(c: CampaignConfig, today: ValidDate)
    requires exists it :: it in c.iterations && AtOrBefore(it.iterationDate, c.startDate)
    requires AtOrBefore(c.startDate, today)
    ensures CurrentIteration(c, today).Ok?
  {
  }
}
