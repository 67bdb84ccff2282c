/** The campaign fixture builder's repair of iteration dates. Before it
    builds a campaign, it makes the campaign's iterations satisfy the
    invariants the validators check: no two iterations share a date, and an
    iteration is in force from the campaign's start date. */
module IterationRepair {
  import opened Wrappers
  import opened Calendar
  import opened CampaignConfig

  /** Iteration dates never decrease along the list. */
  predicate SortedByDate(s: seq<Iteration>) {
    forall i, j :: 0 <= i < j < |s| ==> AtOrBefore(s[i].iterationDate, s[j].iterationDate)
  }

  /** Iteration dates strictly increase along the list. */
  predicate StrictlyIncreasing(s: seq<Iteration>) {
    forall i, j :: 0 <= i < j < |s| ==> Before(s[i].iterationDate, s[j].iterationDate)
  }

  /** The repair's goal: the first iteration starts the campaign and every
      later one is dated strictly later than the one before it. */
  predicate Repaired(s: seq<Iteration>, startDate: ValidDate) {
    |s| > 0 && s[0].iterationDate == startDate && StrictlyIncreasing(s)
  }

  lemma AtOrBeforeTransitive(a: Date, b: Date, c: Date)
    requires AtOrBefore(a, b) && AtOrBefore(b, c)
    ensures AtOrBefore(a, c)
  {
  }

  /** An iteration dated no later than the head of a sorted list can go in
      front of it. */
  lemma PrependKeepsSorted(x: Iteration, s: seq<Iteration>)
    requires SortedByDate(s)
    requires |s| > 0 ==> AtOrBefore(x.iterationDate, s[0].iterationDate)
    ensures SortedByDate([x] + s)
  {
    var r := [x] + s;
    forall i, j | 0 <= i < j < |r| ensures AtOrBefore(r[i].iterationDate, r[j].iterationDate) {
      if i == 0 && j > 1 {
        assert r[j] == s[j - 1];
        AtOrBeforeTransitive(x.iterationDate, s[0].iterationDate, s[j - 1].iterationDate);
      }
    }
  }

  /** Places `x` in front of the first iteration of `s` dated on or after it. */
  function Insert(x: Iteration, s: seq<Iteration>): (r: seq<Iteration>)
    requires SortedByDate(s)
    ensures SortedByDate(r)
    ensures multiset(r) == multiset(s) + multiset{x}
    ensures |r| == |s| + 1
    ensures r[0] == x || (|s| > 0 && r[0] == s[0])
    ensures |s| > 0 && AtOrBefore(x.iterationDate, s[0].iterationDate) ==> r == [x] + s
  {
    if |s| == 0 || AtOrBefore(x.iterationDate, s[0].iterationDate) then
      PrependKeepsSorted(x, s);
      [x] + s
    else
      var t := Insert(x, s[1..]);
      assert s == [s[0]] + s[1..];
      PrependKeepsSorted(s[0], t);
      [s[0]] + t
  }

  /** The in-place sort of the iterations by their date: a stable sort,
      written as an insertion sort. */
  function SortByDate(s: seq<Iteration>): (r: seq<Iteration>)
    ensures SortedByDate(r)
    ensures multiset(r) == multiset(s)
    ensures |r| == |s|
  {
    if |s| == 0 then []
    else
      assert s == [s[0]] + s[1..];
      Insert(s[0], SortByDate(s[1..]))
  }

  /** Sorting a list that is already in date order leaves it as it is. */
  lemma {:induction false} SortSortedIsIdentity(s: seq<Iteration>)
    requires SortedByDate(s)
    ensures SortByDate(s) == s
  {
    if |s| > 0 {
      SortSortedIsIdentity(s[1..]);
      assert s == [s[0]] + s[1..];
    }
  }

  datatype RepairError =
    | IndexError     // `iterations[0]` on an empty list
    | OverflowError  // a date pushed past 9999-12-31

  /** The dates the repair may give an iteration dated `date` that follows
      one given `previous`: the own date or a later one, and, when the own
      date is before `previous`, only dates after `previous`. */
  predicate Candidate(previous: Date, date: Date, x: Date) {
    AtOrBefore(date, x) && (Before(date, previous) ==> Before(previous, x))
  }

  /** No valid date comes after the last representable one. */
  lemma NothingAfterLastDate(x: ValidDate)
    ensures !Before(LastDate, x)
  {
  }

  /** The date the repair gives one iteration (the body of its loop): the
      iteration's own date if it is not before `previous`, otherwise the day
      after `previous`; then moved on a day at a time while it is in `seen`. */
  method NextFreeDate(previous: ValidDate, date: ValidDate, seen: set<Date>)
    returns (r: Result<ValidDate, RepairError>)
    ensures r.Ok? ==> Candidate(previous, date, r.value) && r.value !in seen
    ensures r.Ok? ==> forall x: ValidDate :: Candidate(previous, date, x) && Before(x, r.value) ==> x in seen
    ensures r.Ok? ==> AtOrBefore(previous, r.value)
    ensures r.Err? ==> r.error == OverflowError
    ensures r.Err? ==> forall x: ValidDate :: Candidate(previous, date, x) ==> x in seen
    ensures AtOrBefore(previous, date) && date !in seen ==> r == Ok(date)
  {
    var current: ValidDate;
    if AtOrBefore(previous, date) {
      current := date;
    } else {
      var next := NextDay(previous);
      if next.None? {
        forall x: ValidDate ensures !Candidate(previous, date, x) {
          NothingAfterLastDate(x);
        }
        return Err(OverflowError);
      }
      current := next.value;
    }
    while current in seen
      invariant Candidate(previous, date, current) && AtOrBefore(previous, current)
      invariant forall x: ValidDate :: Candidate(previous, date, x) && Before(x, current) ==> x in seen
      invariant AtOrBefore(previous, date) && date !in seen ==> current == date
      decreases set x | x in seen && AtOrBefore(current, x)
    {
      ghost var later := set x | x in seen && AtOrBefore(current, x);
      var next := NextDay(current);
      if next.None? {
        forall x: ValidDate | Candidate(previous, date, x) ensures x in seen {
          NothingAfterLastDate(x);
        }
        return Err(OverflowError);
      }
      ghost var laterStill := set x | x in seen && AtOrBefore(next.value, x);
      assert current in later && current !in laterStill;
      forall x | x in laterStill ensures x in later {
        AtOrBeforeTransitive(current, next.value, x);
      }
      AtOrBeforeTransitive(date, current, next.value);
      current := next.value;
    }
    r := Ok(current);
  }

  /** The date the repair gives an iteration dated `date` that follows one
      given `previous`, once the first iteration is placed: the own date if
      it is later, otherwise the day after `previous` (`None` past
      9999-12-31). */
  function Bumped(previous: ValidDate, date: ValidDate): Option<ValidDate> {
    if Before(previous, date) then Some(date) else NextDay(previous)
  }

  /** When every date used so far is at or before `previous`, and
      `previous` itself is used, the earliest free date is `Bumped`. */
  lemma StepIsBumped(previous: ValidDate, date: ValidDate, seen: set<Date>, current: ValidDate)
    requires previous in seen && forall x :: x in seen ==> AtOrBefore(x, previous)
    requires Candidate(previous, date, current) && current !in seen
    requires forall x: ValidDate :: Candidate(previous, date, x) && Before(x, current) ==> x in seen
    ensures Bumped(previous, date) == Some(current)
  {
    BeforeTotal(date, current);
    if Before(previous, date) {
      assert date !in seen;
      assert Candidate(previous, date, date);
    } else {
      BeforeTotal(previous, date);
      assert Before(previous, current);
      NothingAfterLastDate(current);
      var next := NextDay(previous).value;
      assert AtOrBefore(next, current);
      assert next !in seen;
      assert Candidate(previous, date, next);
    }
  }

  /** The iteration the repair's loop visits at position `k`: the sorted
      list, with the first iteration moved to the start date beforehand. */
  function Pinned(sorted: seq<Iteration>, startDate: ValidDate, k: nat): (it: Iteration)
    requires k < |sorted|
    ensures it == sorted[k].(iterationDate := it.iterationDate)
    ensures k == 0 ==> it.iterationDate == startDate
    ensures k > 0 ==> it == sorted[k]
  {
    if k == 0 then sorted[0].(iterationDate := startDate) else sorted[k]
  }

  /** What holds after the repair's loop has given dates to the first
      `|out|` iterations of `sorted`, with `seen` the dates given so far and
      `previous` the last of them. */
  ghost predicate RepairLoop(sorted: seq<Iteration>, startDate: ValidDate, out: seq<Iteration>, seen: set<Date>, previous: ValidDate) {
    && |out| <= |sorted|
    && (forall j :: 0 <= j < |out| ==> out[j] == sorted[j].(iterationDate := out[j].iterationDate))
    && (|out| == 0 ==> previous == startDate && seen == {})
    && (|out| > 0 ==> previous == out[|out| - 1].iterationDate && previous in seen && out[0].iterationDate == startDate)
    && (forall x :: x in seen ==> AtOrBefore(x, previous))
    && AtOrBefore(startDate, previous)
    && StrictlyIncreasing(out)
    && (forall j :: 0 <= j < |out| ==> AtOrBefore(startDate, out[j].iterationDate))
    && (forall j :: 0 < j < |out| ==> AtOrBefore(sorted[j].iterationDate, out[j].iterationDate))
    && (Repaired(sorted, startDate) ==> out == sorted[..|out|])
  }

  /** A date later than everything given so far keeps the dates strictly
      increasing. */
  lemma AppendKeepsIncreasing(out: seq<Iteration>, x: Iteration)
    requires StrictlyIncreasing(out)
    requires |out| > 0 ==> Before(out[|out| - 1].iterationDate, x.iterationDate)
    ensures StrictlyIncreasing(out + [x])
  {
    var out' := out + [x];
    forall i, j | 0 <= i < j < |out'| ensures Before(out'[i].iterationDate, out'[j].iterationDate) {
      if j == |out| && i < |out| - 1 {
        assert Before(out[i].iterationDate, out[|out| - 1].iterationDate);
        AtOrBeforeTransitive(out[i].iterationDate, out[|out| - 1].iterationDate, x.iterationDate);
      }
    }
  }

  /** Every date after the first in `out` is the one `Bumped` gives after
      its predecessor. */
  predicate BumpedChain(sorted: seq<Iteration>, out: seq<Iteration>)
    requires |out| <= |sorted|
  {
    forall j :: 0 < j < |out| ==> Bumped(out[j - 1].iterationDate, sorted[j].iterationDate) == Some(out[j].iterationDate)
  }

  /** Appending the date `Bumped` gives keeps `BumpedChain`. */
  lemma AppendKeepsBumped(sorted: seq<Iteration>, out: seq<Iteration>, x: Iteration)
    requires |out| < |sorted| && BumpedChain(sorted, out)
    requires |out| > 0 ==> Bumped(out[|out| - 1].iterationDate, sorted[|out|].iterationDate) == Some(x.iterationDate)
    ensures BumpedChain(sorted, out + [x])
  {
    var out' := out + [x];
    assert forall j :: 0 <= j < |out| ==> out'[j] == out[j];
  }

  /** On input that is already repaired the loop keeps every date: the
      iteration it visits is dated after every date given so far. */
  lemma RepairedKeepsDate(sorted: seq<Iteration>, startDate: ValidDate, out: seq<Iteration>, seen: set<Date>, previous: ValidDate)
    requires RepairLoop(sorted, startDate, out, seen, previous) && |out| < |sorted|
    requires Repaired(sorted, startDate)
    ensures Pinned(sorted, startDate, |out|) == sorted[|out|]
    ensures AtOrBefore(previous, sorted[|out|].iterationDate) && sorted[|out|].iterationDate !in seen
  {
    var k := |out|;
    if k > 0 {
      assert out[k - 1] == sorted[k - 1];
      assert Before(sorted[k - 1].iterationDate, sorted[k].iterationDate);
    }
  }

  /** One turn of the repair's loop keeps `RepairLoop`. */
  lemma RepairStep(sorted: seq<Iteration>, startDate: ValidDate, out: seq<Iteration>, seen: set<Date>, previous: ValidDate, current: ValidDate)
    requires RepairLoop(sorted, startDate, out, seen, previous) && |out| < |sorted|
    requires var it := Pinned(sorted, startDate, |out|);
      && AtOrBefore(previous, current) && AtOrBefore(it.iterationDate, current) && current !in seen
      && (AtOrBefore(previous, it.iterationDate) && it.iterationDate !in seen ==> current == it.iterationDate)
    ensures var it := Pinned(sorted, startDate, |out|);
      RepairLoop(sorted, startDate, out + [it.(iterationDate := current)], seen + {current}, current)
  {
    var k := |out|;
    var it := Pinned(sorted, startDate, k);
    var x := it.(iterationDate := current);
    var out' := out + [x];
    if k > 0 {
      assert Before(previous, current);
    }
    AppendKeepsIncreasing(out, x);
    forall y | y in seen ensures AtOrBefore(y, current) {
      AtOrBeforeTransitive(y, previous, current);
    }
    AtOrBeforeTransitive(startDate, previous, current);
    if Repaired(sorted, startDate) {
      RepairedKeepsDate(sorted, startDate, out, seen, previous);
      assert out' == sorted[..k + 1];
    }
    assert forall j :: 0 <= j < k ==> out'[j] == out[j];
  }

  /** `CampaignConfigFactory.fix_iteration_date_invariants`. The Python
      function sorts and updates the list in place; here it returns the
      updated list. */
  method FixIterationDateInvariants(iterations: seq<Iteration>, startDate: ValidDate)
    returns (r: Result<seq<Iteration>, RepairError>)
    ensures r == Err(IndexError) <==> iterations == []
    ensures |iterations| == 1 ==> r.Ok?
    ensures r.Ok? ==> Repaired(r.value, startDate)
    ensures r.Ok? ==> var sorted := SortByDate(iterations);
      && |r.value| == |sorted|
      && (forall i :: 0 <= i < |sorted| ==> r.value[i] == sorted[i].(iterationDate := r.value[i].iterationDate))
      && (forall i :: 0 < i < |sorted| ==> AtOrBefore(sorted[i].iterationDate, r.value[i].iterationDate))
    ensures r.Ok? ==> var sorted := SortByDate(iterations);
      forall i :: 0 < i < |r.value| ==> Bumped(r.value[i - 1].iterationDate, sorted[i].iterationDate) == Some(r.value[i].iterationDate)
    ensures r.Ok? ==> forall i :: 0 <= i < |r.value| ==> AtOrBefore(startDate, r.value[i].iterationDate)
    ensures Repaired(SortByDate(iterations), startDate) ==> r == Ok(SortByDate(iterations))
  {
    var sorted := SortByDate(iterations);
    if |sorted| == 0 {
      return Err(IndexError);
    }
    var out: seq<Iteration> := [];
    var seen: set<Date> := {};
    var previous: ValidDate := startDate;
    while |out| < |sorted|
      invariant RepairLoop(sorted, startDate, out, seen, previous)
      invariant BumpedChain(sorted, out)
      decreases |sorted| - |out|
    {
      var it := Pinned(sorted, startDate, |out|);
      var step := NextFreeDate(previous, it.iterationDate, seen);
      if Repaired(sorted, startDate) {
        RepairedKeepsDate(sorted, startDate, out, seen, previous);
      }
      if step.Err? {
        return Err(step.error);
      }
      if |out| > 0 {
        StepIsBumped(previous, it.iterationDate, seen, step.value);
      }
      AppendKeepsBumped(sorted, out, it.(iterationDate := step.value));
      RepairStep(sorted, startDate, out, seen, previous, step.value);
      out := out + [it.(iterationDate := step.value)];
      seen := seen + {step.value};
      previous := step.value;
    }
    if Repaired(sorted, startDate) {
      assert out == sorted[..|sorted|] == sorted;
    }
    r := Ok(out);
  }

  /** A repaired list is its own sorted form, so repairing it again changes
      nothing. */
  lemma {:induction false} RepairedIsFixedPoint(s: seq<Iteration>, startDate: ValidDate)
    requires Repaired(s, startDate)
    ensures SortByDate(s) == s
    ensures Repaired(SortByDate(s), startDate)
  {
    assert SortedByDate(s);
    SortSortedIsIdentity(s);
  }

  /** Repairing twice gives what repairing once gives: the repair is
      idempotent. */
  method RepairTwice(iterations: seq<Iteration>, startDate: ValidDate)
    returns (once: Result<seq<Iteration>, RepairError>, twice: Result<seq<Iteration>, RepairError>)
    ensures once.Ok? ==> twice == once
  {
    once := FixIterationDateInvariants(iterations, startDate);
    if once.Err? {
      return once, once;
    }
    RepairedIsFixedPoint(once.value, startDate);
    twice := FixIterationDateInvariants(once.value, startDate);
  }

  /** A campaign whose iterations are repaired passes the overlap check, is
      accepted exactly when its start and end dates are sensible, and has a
      current iteration on every day from its start date on. */
  lemma RepairedCampaignIsValid(c: CampaignConfig, today: ValidDate)
    requires Repaired(c.iterations, c.startDate)
    ensures CheckNoOverlappingIterations(c) == Pass
    ensures ValidateCampaign(c).Ok? <==> CheckStartAndEndDatesSensible(c).Pass?
    ensures AtOrBefore(c.startDate, today) ==> CurrentIteration(c, today).Ok?
  {
    var ds := IterationDates(c.iterations);
    forall i, j | 0 <= i < j < |ds| ensures ds[i] != ds[j] {
      assert Before(c.iterations[i].iterationDate, c.iterations[j].iterationDate);
    }
    if AtOrBefore(c.startDate, today) {
      assert c.iterations[0] in c.iterations;
      CurrentIterationDefinedFromStart(c, today);
    }
  }

  /** Why building a campaign fails: the repair raised, or the campaign it
      produced was rejected when constructed. */
  datatype BuildError = RepairFailed(cause: RepairError) | Invalid(reason: ConfigError)

  /** `CampaignConfigFactory.build` without the random field generation: the
      campaign with its iterations repaired and every other field as given,
      constructed (and so validated) as a `CampaignConfig`. */
  method BuildCampaign(c: CampaignConfig) returns (r: Result<CampaignConfig, BuildError>)
    ensures c.iterations == [] ==> r == Err(RepairFailed(IndexError))
    ensures r.Ok? ==> ValidateCampaign(r.value) == Ok(r.value)
    ensures r.Ok? ==> r.value == c.(iterations := r.value.iterations)
    ensures r.Ok? ==> |r.value.iterations| == |c.iterations|
    ensures r.Ok? ==> Repaired(r.value.iterations, c.startDate)
    ensures r.Ok? ==> var sorted := SortByDate(c.iterations);
      forall i :: 0 <= i < |sorted| ==> r.value.iterations[i] == sorted[i].(iterationDate := r.value.iterations[i].iterationDate)
    ensures r.Ok? ==> var sorted := SortByDate(c.iterations); var out := r.value.iterations;
      forall i :: 0 < i < |out| ==> Bumped(out[i - 1].iterationDate, sorted[i].iterationDate) == Some(out[i].iterationDate)
    ensures r.Ok? ==> forall today: ValidDate :: AtOrBefore(c.startDate, today) ==> CurrentIteration(r.value, today).Ok?
    ensures r.Err? && r.error.Invalid? ==> r.error.reason == StartAfterEnd(c.startDate, c.endDate)
    ensures Before(c.endDate, c.startDate) ==> r.Err?
    ensures AtOrBefore(c.startDate, c.endDate) ==> r.Ok? || r.error.RepairFailed?
    ensures |c.iterations| == 1 && AtOrBefore(c.startDate, c.endDate) ==> r.Ok?
  {
    var fixed := FixIterationDateInvariants(c.iterations, c.startDate);
    if fixed.Err? {
      return Err(RepairFailed(fixed.error));
    }
    var built := c.(iterations := fixed.value);
    forall today: ValidDate
      ensures ValidateCampaign(built).Ok? <==> CheckStartAndEndDatesSensible(c).Pass?
      ensures AtOrBefore(c.startDate, today) ==> CurrentIteration(built, today).Ok?
    {
      RepairedCampaignIsValid(built, today);
    }
    var checked := ValidateCampaign(built);
    if checked.Err? {
      return Err(Invalid(checked.error));
    }
    r := Ok(checked.value);
  }
}
