/** The analytics engine: rule-based insights about one habit's streak record,
    about the whole portfolio of active habits, the legacy one-line insight,
    and the `habit_insights` report that filters and summarises them. */
module Analytics {
  import opened Wrappers
  import opened Calendar
  import opened Types
  import opened Text
  import opened Habits
  import opened Storage
  import opened HabitStore
  import Entries
  import Streaks
  import WeeklyBuckets

  // Insight types, as the insights carry them.

  const SuccessType := "success"
  const WarningType := "warning"
  const RecommendationType := "recommendation"
  const PatternType := "pattern"

  /** The `insight_type` that keeps every insight. */
  const AllTypes := "all"

  /** `AnalyticsConfig`; the engine the tool builds uses `DefaultConfig`. */
  datatype AnalyticsConfig = AnalyticsConfig(enableCaching: bool, cacheTtlSeconds: nat, minEntriesForAnalysis: nat)

  const DefaultConfig := AnalyticsConfig(true, 3600, 5)

  // Milestones.

  datatype Milestone =
    | JustStarted | BuildingMomentum | OneWeekStrong | TwoWeeksSolid
    | ThreeWeeksExcellent | OneMonthAmazing | TwoMonthsIncredible | HabitMaster

  /** `get_streak_milestone`: the band a streak length falls in. */
  function StreakMilestone(n: nat): (m: Milestone)
    ensures m == JustStarted <==> n == 0
    ensures m == BuildingMomentum <==> 1 <= n <= 6
    ensures m == OneWeekStrong <==> 7 <= n <= 13
    ensures m == TwoWeeksSolid <==> 14 <= n <= 20
    ensures m == ThreeWeeksExcellent <==> 21 <= n <= 29
    ensures m == OneMonthAmazing <==> 30 <= n <= 59
    ensures m == TwoMonthsIncredible <==> 60 <= n <= 89
    ensures m == HabitMaster <==> 90 <= n
  {
    if n == 0 then JustStarted
    else if n <= 6 then BuildingMomentum
    else if n <= 13 then OneWeekStrong
    else if n <= 20 then TwoWeeksSolid
    else if n <= 29 then ThreeWeeksExcellent
    else if n <= 59 then OneMonthAmazing
    else if n <= 89 then TwoMonthsIncredible
    else HabitMaster
  }

  /** The position of a band, from JustStarted (0) to HabitMaster (7). */
  function Rank(m: Milestone): nat {
    match m
    case JustStarted => 0
    case BuildingMomentum => 1
    case OneWeekStrong => 2
    case TwoWeeksSolid => 3
    case ThreeWeeksExcellent => 4
    case OneMonthAmazing => 5
    case TwoMonthsIncredible => 6
    case HabitMaster => 7
  }

  /** The name a band is reported under. */
  function MilestoneName(m: Milestone): string {
    match m
    case JustStarted => "just_started"
    case BuildingMomentum => "building_momentum"
    case OneWeekStrong => "one_week_strong"
    case TwoWeeksSolid => "two_weeks_solid"
    case ThreeWeeksExcellent => "three_weeks_excellent"
    case OneMonthAmazing => "one_month_amazing"
    case TwoMonthsIncredible => "two_months_incredible"
    case HabitMaster => "habit_master"
  }

  /** A longer streak never falls in a lower band. */
  lemma MilestoneMonotone(a: nat, b: nat)
    requires a <= b
    ensures Rank(StreakMilestone(a)) <= Rank(StreakMilestone(b))
  {
  }

  /** The bands are reported under eight different names. */
  lemma MilestoneNameInjective(m1: Milestone, m2: Milestone)
    requires MilestoneName(m1) == MilestoneName(m2)
    ensures m1 == m2
  {
    var s := MilestoneName(m1);
    assert |s| == |MilestoneName(m2)|;
    assert s[0] == MilestoneName(m2)[0];
    assert s[4] == MilestoneName(m2)[4];
  }

  // Emoji.

  /** The five symbols a report line can start with. */
  datatype Emoji = PartyPopper | WarningSign | LightBulb | ChartIncreasing | BarChart

  /** `get_insight_emoji`: one symbol per known insight type, the bar chart for
      any other type. */
  function InsightEmoji(t: string): (e: Emoji)
    ensures e == PartyPopper <==> t == SuccessType
    ensures e == WarningSign <==> t == WarningType
    ensures e == LightBulb <==> t == RecommendationType
    ensures e == ChartIncreasing <==> t == PatternType
    ensures e == BarChart <==> t !in {SuccessType, WarningType, RecommendationType, PatternType}
  {
    if t == SuccessType then PartyPopper
    else if t == WarningType then WarningSign
    else if t == RecommendationType then LightBulb
    else if t == PatternType then ChartIncreasing
    else BarChart
  }

  // Insights.

  datatype PerformanceLevel = Excellent | Good | NeedsImprovement

  /** The structured data attached to each kind of insight. */
  datatype InsightData =
    | StreakData(currentStreak: nat, milestone: Milestone)
    | RestartData(longestStreak: nat, currentStreak: nat)
    | RateData(completionRate: real, level: PerformanceLevel)
    | FirstHabitData
    | PortfolioData(activeStreaks: nat, totalStreakDays: nat, totalHabits: nat)
    | DiversityData(categories: map<string, nat>, diversityScore: real)
    | CategoriesData(currentCategories: map<string, nat>)
    | AverageData(averageCompletionRate: real)
    | FocusData(totalHabits: nat, activeStreaks: nat)

  datatype Insight = Insight(title: Title, insightType: string, confidence: real, data: InsightData)

  /** The insights' titles. */
  datatype Title =
    | GreatConsistency | TimeToRestart | HighPerformer | GoodProgress | RoomForImprovement
    | GetStarted | MomentumBuilding | WellRounded | ConsiderDiversifying | ExcellentOverall | FocusStrategy

  function TitleText(t: Title): string {
    match t
    case GreatConsistency => "Great Consistency!"
    case TimeToRestart => "Time to Restart"
    case HighPerformer => "High Performer"
    case GoodProgress => "Good Progress"
    case RoomForImprovement => "Room for Improvement"
    case GetStarted => "Get Started"
    case MomentumBuilding => "Momentum Building"
    case WellRounded => "Well-Rounded Growth"
    case ConsiderDiversifying => "Consider Diversifying"
    case ExcellentOverall => "Excellent Overall Performance"
    case FocusStrategy => "Focus Strategy"
  }

  /** Every insight the engine produces is a success or a recommendation. */
  predicate EngineTypes(insights: seq<Insight>) {
    forall i :: 0 <= i < |insights| ==>
      insights[i].insightType == SuccessType || insights[i].insightType == RecommendationType
  }

  /** The titles of the streak analysis and of the rate analysis. */
  predicate IsStreakTitle(t: Title) {
    t == GreatConsistency || t == TimeToRestart
  }

  predicate IsRateTitle(t: Title) {
    t == HighPerformer || t == GoodProgress || t == RoomForImprovement
  }

  function AsSeq(o: Option<Insight>): seq<Insight> {
    if o.Some? then [o.value] else []
  }

  /** The streak analysis of one habit. */
  function StreakInsight(s: Streaks.Streak): (r: Option<Insight>)
    ensures r.Some? <==> s.currentStreak >= 7 || (s.currentStreak == 0 && s.longestStreak > 0)
    ensures s.currentStreak >= 7 ==>
              r.value == Insight(GreatConsistency, SuccessType, 0.9, StreakData(s.currentStreak, StreakMilestone(s.currentStreak)))
    ensures s.currentStreak == 0 && s.longestStreak > 0 ==>
              r.value == Insight(TimeToRestart, RecommendationType, 0.8, RestartData(s.longestStreak, 0))
  {
    if s.currentStreak >= 7 then
      Some(Insight(GreatConsistency, SuccessType, 0.9, StreakData(s.currentStreak, StreakMilestone(s.currentStreak))))
    else if s.currentStreak == 0 && s.longestStreak > 0 then
      Some(Insight(TimeToRestart, RecommendationType, 0.8, RestartData(s.longestStreak, s.currentStreak)))
    else None
  }

  /** The completion-rate analysis of one habit: at least 0.8 is excellent, at
      least 0.6 good, anything lower needs improvement once the habit has been
      completed at all. */
  function RateInsight(s: Streaks.Streak): (r: Option<Insight>)
    ensures r.Some? <==> s.completionRate >= 0.6 || s.totalCompletions > 0
    ensures r.Some? ==> r.value.data.RateData? && r.value.data.completionRate == s.completionRate
    ensures r.Some? ==> (r.value.data.level == Excellent <==> s.completionRate >= 0.8)
    ensures r.Some? ==> (r.value.data.level == Good <==> 0.6 <= s.completionRate < 0.8)
    ensures r.Some? ==> (r.value.data.level == NeedsImprovement <==> s.completionRate < 0.6)
    ensures r.Some? ==> (r.value.insightType == SuccessType <==> r.value.data.level == Excellent)
    ensures r.Some? ==> IsRateTitle(r.value.title)
  {
    if s.completionRate >= 0.8 then
      Some(Insight(HighPerformer, SuccessType, 0.9, RateData(s.completionRate, Excellent)))
    else if s.completionRate >= 0.6 then
      Some(Insight(GoodProgress, RecommendationType, 0.7, RateData(s.completionRate, Good)))
    else if s.totalCompletions > 0 then
      Some(Insight(RoomForImprovement, RecommendationType, 0.8, RateData(s.completionRate, NeedsImprovement)))
    else None
  }

  /** `generate_single_habit_insights` on the habit's streak row: at most one
      streak insight followed by at most one rate insight. */
  function SingleHabitInsights(s: Streaks.Streak): (r: seq<Insight>)
    ensures |r| <= 2 && EngineTypes(r)
    ensures s.currentStreak >= 7 ==> |r| >= 1 && r[0].title == GreatConsistency && r[0].insightType == SuccessType
    ensures s.currentStreak == 0 && s.longestStreak > 0 ==>
              |r| >= 1 && r[0].title == TimeToRestart && r[0].insightType == RecommendationType
    ensures forall i, j :: 0 <= i < j < |r| ==> !(IsStreakTitle(r[i].title) && IsStreakTitle(r[j].title))
    ensures forall i, j :: 0 <= i < j < |r| ==> !(IsRateTitle(r[i].title) && IsRateTitle(r[j].title))
  {
    AsSeq(StreakInsight(s)) + AsSeq(RateInsight(s))
  }

  /** A habit without a streak row (a well-formed id of no habit, or a habit
      never logged) gets no insight at all. */
  lemma NoRowNoInsights(store: Store, habitId: HabitId)
    requires habitId !in store.streaks
    ensures SingleHabitInsights(store.StreakRow(habitId)) == []
  {
  }

  // The portfolio.

  /** Streak rows with a current streak. */
  function ActiveCount(rows: seq<Streaks.Streak>): (n: nat)
    ensures n <= |rows|
  {
    if rows == [] then 0
    else ActiveCount(rows[..|rows| - 1]) + (if rows[|rows| - 1].currentStreak > 0 then 1 else 0)
  }

  /** The days of all current streaks together. */
  function StreakDays(rows: seq<Streaks.Streak>): nat {
    if rows == [] then 0
    else StreakDays(rows[..|rows| - 1]) + (if rows[|rows| - 1].currentStreak > 0 then rows[|rows| - 1].currentStreak else 0)
  }

  /** Every active streak is at least a day long. */
  lemma {:induction false} ActiveDays(rows: seq<Streaks.Streak>)
    ensures ActiveCount(rows) <= StreakDays(rows)
    ensures ActiveCount(rows) == 0 <==> StreakDays(rows) == 0
  {
    if rows != [] {
      ActiveDays(rows[..|rows| - 1]);
    }
  }

  /** The completion rates of the rows with enough completions to analyse. */
  function Rates(rows: seq<Streaks.Streak>, minEntries: nat): (rs: seq<real>)
    ensures |rs| <= |rows|
  {
    if rows == [] then []
    else
      var last := rows[|rows| - 1];
      Rates(rows[..|rows| - 1], minEntries) + (if last.totalCompletions >= minEntries then [last.completionRate] else [])
  }

  function Sum(rs: seq<real>): real {
    if rs == [] then 0.0 else Sum(rs[..|rs| - 1]) + rs[|rs| - 1]
  }

  /** `*counts.entry(name).or_insert(0) += 1` */
  function Bump(counts: map<string, nat>, name: string): map<string, nat> {
    counts[name := (if name in counts then counts[name] else 0) + 1]
  }

  /** The number of habits per category name. */
  function CategoryCounts(habits: seq<HabitState>): map<string, nat> {
    if habits == [] then map[]
    else Bump(CategoryCounts(habits[..|habits| - 1]), DisplayName(habits[|habits| - 1].category))
  }

  /** There are no more category names than habits. */
  lemma {:induction false} CategoryCountsSize(habits: seq<HabitState>)
    ensures |CategoryCounts(habits)| <= |habits|
  {
    if habits != [] {
      var init := CategoryCounts(habits[..|habits| - 1]);
      var name := DisplayName(habits[|habits| - 1].category);
      CategoryCountsSize(habits[..|habits| - 1]);
      assert CategoryCounts(habits).Keys == init.Keys + {name};
    }
  }

  /** How many of `habits` display their category under `name`. */
  function CountNamed(habits: seq<HabitState>, name: string): nat {
    if habits == [] then 0
    else CountNamed(habits[..|habits| - 1], name) + (if DisplayName(habits[|habits| - 1].category) == name then 1 else 0)
  }

  /** The counts hold exactly the category names in use, each with the number
      of habits under it. */
  lemma {:induction false} CategoryCountsMeaning(habits: seq<HabitState>, name: string)
    ensures name in CategoryCounts(habits) <==> CountNamed(habits, name) > 0
    ensures name in CategoryCounts(habits) ==> CategoryCounts(habits)[name] == CountNamed(habits, name)
  {
    if habits != [] {
      CategoryCountsMeaning(habits[..|habits| - 1], name);
    }
  }

  function StartInsight(): Insight {
    Insight(GetStarted, RecommendationType, 1.0, FirstHabitData)
  }

  /** The titles among `insights`. */
  function Titles(insights: seq<Insight>): set<Title> {
    if insights == [] then {} else Titles(insights[..|insights| - 1]) + {insights[|insights| - 1].title}
  }

  lemma {:induction false} TitlesAppend(a: seq<Insight>, b: seq<Insight>)
    ensures Titles(a + b) == Titles(a) + Titles(b)
  {
    if b == [] {
      assert a + b == a;
    } else {
      assert (a + b)[..|a + b| - 1] == a + b[..|b| - 1];
      TitlesAppend(a, b[..|b| - 1]);
    }
  }

  /** The rates add up to at least 0.7 per rate. */
  predicate Performing(rates: seq<real>) {
    rates != [] && Sum(rates) >= 0.7 * |rates| as real
  }

  function Mean(rates: seq<real>): real
    requires rates != []
  {
    Sum(rates) / |rates| as real
  }

  /** That is, there are rates and their mean reaches 0.7. */
  lemma PerformingMean(rates: seq<real>)
    ensures Performing(rates) <==> rates != [] && Mean(rates) >= 0.7
  {
    if rates != [] {
      var n := |rates| as real;
      assert Sum(rates) / n * n == Sum(rates);
    }
  }

  function MomentumInsights(active: nat, days: nat, total: nat): (r: seq<Insight>)
    ensures EngineTypes(r) && |r| <= 1
    ensures Titles(r) == if active > 0 then {MomentumBuilding} else {}
  {
    if active > 0 then [Insight(MomentumBuilding, SuccessType, 0.9, PortfolioData(active, days, total))] else []
  }

  function DiversityInsights(counts: map<string, nat>, total: nat): (r: seq<Insight>)
    ensures EngineTypes(r) && |r| <= 1
    ensures Titles(r) == if |counts| >= 3 then {WellRounded} else if total > 3 then {ConsiderDiversifying} else {}
  {
    if |counts| >= 3 then [Insight(WellRounded, SuccessType, 0.8, DiversityData(counts, |counts| as real / 8.0))]
    else if total > 3 then [Insight(ConsiderDiversifying, RecommendationType, 0.7, CategoriesData(counts))]
    else []
  }

  function AverageInsights(rates: seq<real>): (r: seq<Insight>)
    ensures EngineTypes(r) && |r| <= 1
    ensures Titles(r) == if Performing(rates) then {ExcellentOverall} else {}
  {
    if Performing(rates) then [Insight(ExcellentOverall, SuccessType, 0.9, AverageData(Mean(rates)))]
    else []
  }

  function FocusInsights(active: nat, total: nat): (r: seq<Insight>)
    ensures EngineTypes(r) && |r| <= 1
    ensures Titles(r) == if total > 5 && active < total / 2 then {FocusStrategy} else {}
  {
    if total > 5 && active < total / 2 then [Insight(FocusStrategy, RecommendationType, 0.8, FocusData(total, active))] else []
  }

  lemma EngineTypesAppend(a: seq<Insight>, b: seq<Insight>)
    requires EngineTypes(a) && EngineTypes(b)
    ensures EngineTypes(a + b)
  {
    assert forall i :: |a| <= i < |a + b| ==> (a + b)[i] == b[i - |a|];
  }

  /** `generate_overall_insights` on the active habits and their streak rows
      (`rows[i]` is the row of `habits[i]`). */
  function Overall(habits: seq<HabitState>, rows: seq<Streaks.Streak>, config: AnalyticsConfig): (r: seq<Insight>)
    requires |rows| == |habits|
    ensures EngineTypes(r) && |r| <= 4
    ensures habits == [] ==> r == [StartInsight()]
  {
    if habits == [] then [StartInsight()]
    else
      var active := ActiveCount(rows);
      var m := MomentumInsights(active, StreakDays(rows), |habits|);
      var d := DiversityInsights(CategoryCounts(habits), |habits|);
      var a := AverageInsights(Rates(rows, config.minEntriesForAnalysis));
      var f := FocusInsights(active, |habits|);
      EngineTypesAppend(m, d);
      EngineTypesAppend(m + d, a);
      EngineTypesAppend(m + d + a, f);
      m + d + a + f
  }

  /** The titles the portfolio rules give for `n` habits of which `active` have
      an active streak, spread over `categories` category names. */
  function RuleTitles(n: nat, active: nat, categories: nat, performing: bool): set<Title> {
    (if active > 0 then {MomentumBuilding} else {})
    + (if categories >= 3 then {WellRounded} else if n > 3 then {ConsiderDiversifying} else {})
    + (if performing then {ExcellentOverall} else {})
    + (if n > 5 && active < n / 2 then {FocusStrategy} else {})
  }

  /** The titles of the portfolio analysis are those of the rules that fired. */
  lemma OverallTitles(habits: seq<HabitState>, rows: seq<Streaks.Streak>, config: AnalyticsConfig)
    requires |rows| == |habits| && habits != []
    ensures Titles(Overall(habits, rows, config))
            == RuleTitles(|habits|, ActiveCount(rows), |CategoryCounts(habits)|, Performing(Rates(rows, config.minEntriesForAnalysis)))
  {
    var active := ActiveCount(rows);
    var m := MomentumInsights(active, StreakDays(rows), |habits|);
    var d := DiversityInsights(CategoryCounts(habits), |habits|);
    var a := AverageInsights(Rates(rows, config.minEntriesForAnalysis));
    var f := FocusInsights(active, |habits|);
    assert Overall(habits, rows, config) == m + d + a + f;
    TitlesAppend(m + d + a, f);
    TitlesAppend(m + d, a);
    TitlesAppend(m, d);
  }

  /** With active habits, each portfolio rule fires exactly when its condition
      holds: "Momentum Building" on an active streak, "Well-Rounded Growth" on
      three category names or more, "Consider Diversifying" otherwise with more
      than three habits, "Excellent Overall Performance" when the habits with
      enough completions average a rate of 0.7, and "Focus Strategy" with more
      than five habits of which fewer than half have an active streak; "Get
      Started" never appears. */
  lemma RuleTitlesMeaning(n: nat, active: nat, categories: nat, performing: bool)
    ensures GetStarted !in RuleTitles(n, active, categories, performing)
    ensures MomentumBuilding in RuleTitles(n, active, categories, performing) <==> active > 0
    ensures WellRounded in RuleTitles(n, active, categories, performing) <==> categories >= 3
    ensures ConsiderDiversifying in RuleTitles(n, active, categories, performing) <==> categories < 3 && n > 3
    ensures ExcellentOverall in RuleTitles(n, active, categories, performing) <==> performing
    ensures FocusStrategy in RuleTitles(n, active, categories, performing) <==> n > 5 && active < n / 2
  {
  }

  /** "Focus Strategy" is recommended exactly when there are more than five
      active habits and fewer than half of them have an active streak. */
  lemma OverallFocus(habits: seq<HabitState>, rows: seq<Streaks.Streak>, config: AnalyticsConfig)
    requires |rows| == |habits| && habits != []
    ensures FocusStrategy in Titles(Overall(habits, rows, config)) <==> |habits| > 5 && ActiveCount(rows) < |habits| / 2
  {
    OverallTitles(habits, rows, config);
    RuleTitlesMeaning(|habits|, ActiveCount(rows), |CategoryCounts(habits)|, Performing(Rates(rows, config.minEntriesForAnalysis)));
  }

  /** The streak rows `get_streak` returns for `habits`, in order. */
  function Rows(store: Store, habits: seq<HabitState>): (rows: seq<Streaks.Streak>)
    reads store
    ensures |rows| == |habits|
  {
    if habits == [] then []
    else Rows(store, habits[..|habits| - 1]) + [store.StreakRow(habits[|habits| - 1].id)]
  }

  /** The `i`-th row is the row of the `i`-th habit. */
  lemma {:induction false} RowsAt(store: Store, habits: seq<HabitState>, i: nat)
    requires i < |habits|
    ensures Rows(store, habits)[i] == store.StreakRow(habits[i].id)
  {
    if i < |habits| - 1 {
      var init := habits[..|habits| - 1];
      assert init[i] == habits[i];
      RowsAt(store, init, i);
    }
  }

  /** One more row adds to each count. */
  lemma RowStep(rows: seq<Streaks.Streak>, i: nat, minEntries: nat)
    requires i < |rows|
    ensures var x := rows[i];
            ActiveCount(rows[..i + 1]) == ActiveCount(rows[..i]) + (if x.currentStreak > 0 then 1 else 0)
            && StreakDays(rows[..i + 1]) == StreakDays(rows[..i]) + (if x.currentStreak > 0 then x.currentStreak else 0)
            && Rates(rows[..i + 1], minEntries) == Rates(rows[..i], minEntries) + (if x.totalCompletions >= minEntries then [x.completionRate] else [])
  {
    assert rows[..i + 1][..i] == rows[..i];
  }

  lemma CategoryStep(habits: seq<HabitState>, i: nat)
    requires i < |habits|
    ensures CategoryCounts(habits[..i + 1]) == Bump(CategoryCounts(habits[..i]), DisplayName(habits[i].category))
  {
    assert habits[..i + 1][..i] == habits[..i];
  }

  /** The portfolio loop of `generate_overall_insights`: one pass over the
      habits, counting active streaks and their days, the habits per category
      and the rates of the habits with enough completions. */
  method OverallInsights(store: Store, habits: seq<HabitState>, config: AnalyticsConfig) returns (r: seq<Insight>)
    ensures r == Overall(habits, Rows(store, habits), config)
  {
    if habits == [] {
      return [StartInsight()];
    }
    var active := 0;
    var days := 0;
    var counts: map<string, nat> := map[];
    var rates: seq<real> := [];
    ghost var rows := Rows(store, habits);
    var i := 0;
    assert habits[..0] == [] && rows[..0] == [];
    while i < |habits|
      invariant 0 <= i <= |habits|
      invariant active == ActiveCount(rows[..i])
      invariant days == StreakDays(rows[..i])
      invariant rates == Rates(rows[..i], config.minEntriesForAnalysis)
      invariant counts == CategoryCounts(habits[..i])
    {
      RowStep(rows, i, config.minEntriesForAnalysis);
      CategoryStep(habits, i);
      RowsAt(store, habits, i);
      var streak := store.GetStreak(habits[i].id);
      if streak.currentStreak > 0 {
        active := active + 1;
        days := days + streak.currentStreak;
      }
      if streak.totalCompletions >= config.minEntriesForAnalysis {
        rates := rates + [streak.completionRate];
      }
      counts := Bump(counts, DisplayName(habits[i].category));
      i := i + 1;
    }
    assert habits[..i] == habits && rows[..i] == rows;
    r := MomentumInsights(active, days, |habits|)
         + DiversityInsights(counts, |habits|)
         + AverageInsights(rates)
         + FocusInsights(active, |habits|);
  }

  // The legacy one-line insight.

  const StartMessage := "Start by creating your first habit to track!"
  const LoggingMessage := "Great job creating habits! " + "Now start logging your progress."
  const TotalsOpening := "You have "
  const TotalsMiddle := " active habits with "
  const TotalsClosing := " total completions. Keep up the great work!"

  function TotalsMessage(habits: nat, entries: nat): (m: string)
    ensures |m| > |TotalsOpening| + |Decimal(habits)|
    ensures m[..|TotalsOpening|] == TotalsOpening
    ensures m[|TotalsOpening|..|TotalsOpening| + |Decimal(habits)|] == Decimal(habits)
  {
    TotalsOpening + (Decimal(habits) + (TotalsMiddle + (Decimal(entries) + TotalsClosing)))
  }

  /** Both counts can be read back from the message. */
  lemma TotalsMessageInjective(h1: nat, e1: nat, h2: nat, e2: nat)
    requires TotalsMessage(h1, e1) == TotalsMessage(h2, e2)
    ensures h1 == h2 && e1 == e2
  {
    var u1 := Decimal(e1) + TotalsClosing;
    var u2 := Decimal(e2) + TotalsClosing;
    var t1 := TotalsMiddle + u1;
    var t2 := TotalsMiddle + u2;
    assert Decimal(h1) + t1 == TotalsMessage(h1, e1)[|TotalsOpening|..] == Decimal(h2) + t2;
    DecimalSpaced(h1, t1, h2, t2);
    assert u1 == t1[|TotalsMiddle|..] == u2;
    DecimalSpaced(e1, TotalsClosing, e2, TotalsClosing);
  }

  /** `generate_insights`: always exactly one line, chosen by whether there are
      habits and then whether there are entries. */
  function LegacyInsights(habits: seq<HabitState>, entries: seq<Entries.HabitEntry>): (r: seq<string>)
    ensures |r| == 1
    ensures habits == [] ==> r[0] == StartMessage
    ensures habits != [] && entries == [] ==> r[0] == LoggingMessage
    ensures habits != [] && entries != [] ==> |r[0]| > |TotalsOpening| && r[0][..|TotalsOpening|] == TotalsOpening
  {
    if habits == [] then [StartMessage]
    else if entries == [] then [LoggingMessage]
    else [TotalsMessage(|habits|, |entries|)]
  }

  /** The three lines are different, so the line tells which case applied. */
  lemma LegacyInsightsCases(h1: seq<HabitState>, e1: seq<Entries.HabitEntry>, h2: seq<HabitState>, e2: seq<Entries.HabitEntry>)
    requires LegacyInsights(h1, e1) == LegacyInsights(h2, e2)
    ensures h1 == [] <==> h2 == []
    ensures h1 != [] ==> (e1 == [] <==> e2 == [])
  {
    var l1, l2 := LegacyInsights(h1, e1)[0], LegacyInsights(h2, e2)[0];
    assert l1[0] == l2[0];
    assert StartMessage[0] == 'S' && LoggingMessage[0] == 'G' && TotalsOpening[0] == 'Y';
  }

  // Filtering and the summary.

  /** The insights of type `t`, in their order. */
  function OfType(insights: seq<Insight>, t: string): (r: seq<Insight>)
    ensures |r| <= |insights|
    ensures forall i :: 0 <= i < |r| ==> r[i].insightType == t
    ensures forall x :: x in insights && x.insightType == t ==> x in r
    ensures forall x :: x in r ==> x in insights
  {
    if insights == [] then []
    else
      var init := OfType(insights[..|insights| - 1], t);
      var last := insights[|insights| - 1];
      assert forall x :: x in insights ==> x in insights[..|insights| - 1] || x == last;
      if last.insightType == t then init + [last] else init
  }

  /** `insights.retain(|i| i.insight_type == t)`. */
  method Retain(insights: seq<Insight>, t: string) returns (kept: seq<Insight>)
    ensures kept == OfType(insights, t)
  {
    kept := [];
    var i := 0;
    while i < |insights|
      invariant 0 <= i <= |insights|
      invariant kept == OfType(insights[..i], t)
    {
      assert insights[..i + 1][..i] == insights[..i];
      if insights[i].insightType == t {
        kept := kept + [insights[i]];
      }
      i := i + 1;
    }
    assert insights[..i] == insights;
  }

  /** How many insights have type `t`. */
  function CountType(insights: seq<Insight>, t: string): (n: nat)
    ensures n == |OfType(insights, t)|
  {
    if insights == [] then 0
    else CountType(insights[..|insights| - 1], t) + (if insights[|insights| - 1].insightType == t then 1 else 0)
  }

  /** An insight has one type, so the successes and the recommendations
      together are no more than all insights. */
  lemma {:induction false} SummaryCountsBounded(insights: seq<Insight>)
    ensures CountType(insights, SuccessType) + CountType(insights, RecommendationType) <= |insights|
  {
    if insights != [] {
      SummaryCountsBounded(insights[..|insights| - 1]);
    }
  }

  /** After filtering by one type, every insight is of that type. */
  lemma {:induction false} FilteredCounts(insights: seq<Insight>, t: string)
    ensures CountType(OfType(insights, t), t) == |OfType(insights, t)|
  {
    var r := OfType(insights, t);
    AllOfType(r, t);
  }

  lemma {:induction false} AllOfType(r: seq<Insight>, t: string)
    requires forall i :: 0 <= i < |r| ==> r[i].insightType == t
    ensures CountType(r, t) == |r|
  {
    if r != [] {
      AllOfType(r[..|r| - 1], t);
    }
  }

  const NoInsightsSummary := "No specific insights available yet. " + "Keep tracking your habits to build more data!"

  function SummaryText(total: nat, successes: nat, recommendations: nat): (s: string)
    ensures |s| > 10 && s[..10] == "Generated "
  {
    "Generated " + Decimal(total) + " insights: " + Decimal(successes) + " successes, "
    + Decimal(recommendations) + " recommendations"
  }

  /** The report's summary line: the fixed text when nothing is left, otherwise
      the number of insights, successes and recommendations. */
  function Summary(insights: seq<Insight>): (s: string)
    ensures insights == [] <==> s == NoInsightsSummary
    ensures insights != [] ==>
              s == SummaryText(|insights|, CountType(insights, SuccessType), CountType(insights, RecommendationType))
  {
    if insights == [] then NoInsightsSummary
    else
      var s := SummaryText(|insights|, CountType(insights, SuccessType), CountType(insights, RecommendationType));
      assert s[0] == 'G' != NoInsightsSummary[0];
      s
  }

  /** The names the tool's schema offers for `insight_type`. */
  const AdvertisedKinds: set<string> := {"performance", "recommendations", "patterns"}

  /** As written, the filter compares `insight_type` with the insights' own
      types, while the tool's schema offers "performance", "recommendations"
      and "patterns": any of those removes every insight the engine makes. */
  lemma AsWrittenAdvertisedFilter(insights: seq<Insight>, kind: string)
    requires EngineTypes(insights) && kind in AdvertisedKinds
    ensures OfType(insights, kind) == []
  {
  }

  /** The insight type an `insight_type` argument selects: the schema's names
      map to the types they describe, any other text selects itself. */
  function WantedType(kind: string): (t: string)
    ensures kind == "performance" ==> t == SuccessType
    ensures kind == "recommendations" ==> t == RecommendationType
    ensures kind == "patterns" ==> t == PatternType
    ensures kind !in AdvertisedKinds ==> t == kind
  {
    if kind == "performance" then SuccessType
    else if kind == "recommendations" then RecommendationType
    else if kind == "patterns" then PatternType
    else kind
  }

  /** With the mapping, "performance" keeps exactly the successes and
      "recommendations" exactly the recommendations. */
  lemma CorrectedAdvertisedFilter(insights: seq<Insight>)
    ensures |OfType(insights, WantedType("performance"))| == CountType(insights, SuccessType)
    ensures |OfType(insights, WantedType("recommendations"))| == CountType(insights, RecommendationType)
    ensures forall x :: x in insights && x.insightType == SuccessType ==> x in OfType(insights, WantedType("performance"))
  {
  }

  // The report.

  datatype InsightsParams = InsightsParams(habitId: Option<string>, timePeriod: Option<string>, insightType: Option<string>)

  datatype InsightsResponse = InsightsResponse(insights: seq<Insight>, summary: string, timePeriod: string)

  function TimePeriodOf(p: InsightsParams): string {
    if p.timePeriod.Some? then p.timePeriod.value else "month"
  }

  function KindOf(p: InsightsParams): string {
    if p.insightType.Some? then p.insightType.value else AllTypes
  }

  /** How an `insight_type` argument other than "all" selects insights:
      `RawTypes` compares it with the insights' own types, as the source does;
      `SchemaNames` first maps the schema's names through WantedType. */
  datatype TypeSelection = RawTypes | SchemaNames

  function Selected(kind: string, sel: TypeSelection): string {
    if sel == SchemaNames then WantedType(kind) else kind
  }

  /** The insights kept for the report: all of them for "all", otherwise those
      of the selected type, in order. */
  function Kept(p: InsightsParams, insights: seq<Insight>, sel: TypeSelection): (r: seq<Insight>)
    ensures KindOf(p) == AllTypes ==> r == insights
    ensures KindOf(p) != AllTypes ==> forall i :: 0 <= i < |r| ==> r[i].insightType == Selected(KindOf(p), sel)
    ensures KindOf(p) != AllTypes ==>
              forall x :: x in r <==> x in insights && x.insightType == Selected(KindOf(p), sel)
    ensures sel == RawTypes && EngineTypes(insights) && KindOf(p) in AdvertisedKinds ==> r == []
  {
    if KindOf(p) == AllTypes then insights
    else
      var r := OfType(insights, Selected(KindOf(p), sel));
      assert sel == RawTypes && EngineTypes(insights) && KindOf(p) in AdvertisedKinds ==> r == [] by {
        if sel == RawTypes && EngineTypes(insights) && KindOf(p) in AdvertisedKinds {
          AsWrittenAdvertisedFilter(insights, KindOf(p));
        }
      }
      r
  }

  /** The report on the gathered insights: those of the requested type, the
      summary line and the period asked for ("month" by default). With the
      source's raw comparison, a name the schema offers leaves an empty report. */
  function Report(p: InsightsParams, all: seq<Insight>, sel: TypeSelection): (r: InsightsResponse)
    ensures r.insights == Kept(p, all, sel) && r.summary == Summary(r.insights) && r.timePeriod == TimePeriodOf(p)
    ensures EngineTypes(all) ==> EngineTypes(r.insights)
    ensures CountType(r.insights, SuccessType) + CountType(r.insights, RecommendationType) <= |r.insights|
    ensures sel == RawTypes && EngineTypes(all) && KindOf(p) in AdvertisedKinds ==>
              r.insights == [] && r.summary == NoInsightsSummary
    ensures sel == SchemaNames && KindOf(p) == "performance" ==>
              |r.insights| == CountType(all, SuccessType)
  {
    var kept := Kept(p, all, sel);
    assert forall x :: x in kept ==> x in all;
    SummaryCountsBounded(kept);
    CorrectedAdvertisedFilter(all);
    InsightsResponse(kept, Summary(kept), TimePeriodOf(p))
  }

  /** `get_habit_insights` without the store: the insights of the named habit's
      streak row `row`, or of the listed active habits and their rows, reported.
      `parsedId` is the result of parsing the id text. */
  function PlanInsights(p: InsightsParams, parsedId: Option<HabitId>, row: Streaks.Streak,
                        listed: seq<HabitState>, rows: seq<Streaks.Streak>, sel: TypeSelection)
    : (r: Result<InsightsResponse, StorageError>)
    requires |rows| == |listed|
    ensures r.Failure? <==> p.habitId.Some? && parsedId.None?
    ensures r.Failure? ==> r.error == HabitNotFound(p.habitId.value)
    ensures r.Success? ==> EngineTypes(r.value.insights)
    ensures r.Success? && p.habitId.Some? ==> |r.value.insights| <= 2
    ensures r.Success? && p.habitId.None? && listed == [] && KindOf(p) == AllTypes ==>
              |r.value.insights| == 1 && r.value.insights[0].title == GetStarted
    ensures r.Success? && sel == RawTypes && KindOf(p) in AdvertisedKinds ==>
              r.value.insights == [] && r.value.summary == NoInsightsSummary
  {
    if p.habitId.Some? && parsedId.None? then Failure(HabitNotFound(p.habitId.value))
    else if p.habitId.Some? then Success(Report(p, SingleHabitInsights(row), sel))
    else Success(Report(p, Overall(listed, rows, DefaultConfig), sel))
  }

  /** `get_habit_insights` over the store, with the engine's default settings:
      reads the named habit's streak row, or lists the active habits
      (`listed`) and reads theirs, then reports. The store is only read. */
  method HabitInsights(store: Store, p: InsightsParams, parsedId: Option<HabitId>, sel: TypeSelection)
    returns (r: Result<InsightsResponse, StorageError>, listed: seq<HabitState>)
    requires store.Valid()
    ensures p.habitId.None? ==> forall h :: h in listed <==> h in store.habits.Values && h.isActive
    ensures forall i, j :: 0 <= i < j < |listed| ==> listed[i].id != listed[j].id
    ensures p.habitId.Some? ==> listed == []
    ensures r == PlanInsights(p, parsedId, if parsedId.Some? then store.StreakRow(parsedId.value) else Streaks.NewStreak(HabitId("")),
                              listed, Rows(store, listed), sel)
  {
    var all: seq<Insight>;
    listed := [];
    if p.habitId.Some? {
      if parsedId.None? {
        return Failure(HabitNotFound(p.habitId.value)), listed;
      }
      var streak := store.GetStreak(parsedId.value);
      all := SingleHabitInsights(streak);
    } else {
      var active := store.ListHabits(true);
      listed := active;
      all := OverallInsights(store, active, DefaultConfig);
    }
    var kept := all;
    var kind := KindOf(p);
    if kind != AllTypes {
      kept := Retain(all, Selected(kind, sel));
    }
    r := Success(InsightsResponse(kept, Summary(kept), TimePeriodOf(p)));
  }

  /** `calculate_habit_streak`: the streak record of a habit from its entries,
      counted from the date it was created (`createdOn`, the UTC date of its
      creation time) up to `today`. */
  method HabitStreak(h: HabitState, entries: seq<Entries.HabitEntry>, createdOn: Date, today: Date,
                     scheme: WeeklyBuckets.KeyScheme)
    returns (s: Streaks.Streak)
    requires h.frequency.Interval? ==> h.frequency.every >= 1
    ensures s == Streaks.StreakOf(h.id, Streaks.CompletionDates(entries), h.frequency, createdOn, today, scheme)
    ensures s.habitId == h.id && s.totalCompletions == |entries| && s.currentStreak <= s.longestStreak
  {
    s := Streaks.CalculateFromEntries(h.id, entries, h.frequency, createdOn, today, scheme);
  }
}
