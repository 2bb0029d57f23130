/**
 * `DaySummary`: the day's meals in the order they were added, their total
 * and average, and the comparison of the total with a user's daily limit.
 * Java's `int` sum is modelled with unbounded integers under the condition
 * that the true total fits in an `int`, so no addition or subtraction wraps.
 */
module DaySummaries {
  import opened JavaLang
  import opened JavaString
  import opened Meals
  import opened Users

  const MEAL_NULL: string := "Meal cannot be null."
  const USER_NULL: string := "User cannot be null."
  const EXCEEDED_PREFIX: string := "Limit exceeded by "
  const PERFECT_MESSAGE: string := "Perfect! You've exactly met your daily calorie goal."
  const REMAINING_PREFIX: string := "You can still consume "
  const MESSAGE_SUFFIX: string := " kcal."

  /** The sum of the meals' calories, first meal first. */
  function SumCalories(meals: seq<Meal>): int {
    if meals == [] then 0 else SumCalories(meals[..|meals| - 1]) + meals[|meals| - 1].calories
  }

  /** The largest calorie count among the meals (0 for none). */
  function MaxCalories(meals: seq<Meal>): (r: int)
    ensures forall i :: 0 <= i < |meals| ==> meals[i].calories <= r
    ensures meals != [] ==> exists i :: 0 <= i < |meals| && meals[i].calories == r
  {
    if meals == [] then 0
    else
      var rest := MaxCalories(meals[..|meals| - 1]);
      var last := meals[|meals| - 1].calories;
      assert forall i :: 0 <= i < |meals| - 1 ==> meals[i] == meals[..|meals| - 1][i];
      if last >= rest then last
      else
        assert |meals| > 1;
        rest
  }

  /** Totals of consecutive stretches of meals add up. */
  lemma {:induction false} SumConcat(a: seq<Meal>, b: seq<Meal>)
    ensures SumCalories(a + b) == SumCalories(a) + SumCalories(b)
  {
    if b != [] {
      assert (a + b)[..|a + b| - 1] == a + b[..|b| - 1];
      assert (a + b)[|a + b| - 1] == b[|b| - 1];
      SumConcat(a, b[..|b| - 1]);
    } else {
      assert a + b == a;
    }
  }

  /** The order of the meals does not matter to the total. */
  lemma SumIgnoresOrder(a: seq<Meal>, b: seq<Meal>)
    ensures SumCalories(a + b) == SumCalories(b + a)
  {
    SumConcat(a, b);
    SumConcat(b, a);
  }

  /** Every meal has at least one calorie, so the total is at least the count. */
  lemma {:induction false} SumAtLeastCount(meals: seq<Meal>)
    ensures SumCalories(meals) >= |meals|
  {
    if meals != [] {
      SumAtLeastCount(meals[..|meals| - 1]);
    }
  }

  /** With no meal above `hi`, the total is at most the count times `hi`. */
  lemma {:induction false} SumAtMost(meals: seq<Meal>, hi: int)
    requires forall i :: 0 <= i < |meals| ==> meals[i].calories <= hi
    ensures SumCalories(meals) <= |meals| * hi
  {
    if meals != [] {
      var init := meals[..|meals| - 1];
      assert forall i :: 0 <= i < |init| ==> init[i] == meals[i];
      SumAtMost(init, hi);
      assert |init| * hi + hi == |meals| * hi;
    }
  }

  /** The total lies between the count and the count times the largest meal. */
  lemma SumBounds(meals: seq<Meal>)
    ensures |meals| <= SumCalories(meals) <= |meals| * MaxCalories(meals)
  {
    SumAtLeastCount(meals);
    SumAtMost(meals, MaxCalories(meals));
  }

  /** No running total of the loop exceeds the final total. */
  lemma PrefixSumBounded(meals: seq<Meal>, i: nat)
    requires i <= |meals|
    ensures 0 <= SumCalories(meals[..i]) <= SumCalories(meals)
  {
    assert meals == meals[..i] + meals[i..];
    SumConcat(meals[..i], meals[i..]);
    SumBounds(meals[..i]);
    SumBounds(meals[i..]);
  }

  /** Real division of a total by a count n keeps the bounds 1 and hi when
      n <= total <= n * hi. */
  lemma QuotientBounds(total: int, n: int, hi: int)
    requires 0 < n <= total <= n * hi
    ensures (total as real / n as real) * n as real == total as real
    ensures 1.0 <= total as real / n as real <= hi as real
  {
    var q := total as real / n as real;
    var rn := n as real;
    assert q * rn == total as real;
    assert (n * hi) as real == rn * hi as real;
    assert (q - 1.0) * rn >= 0.0;
    assert (hi as real - q) * rn >= 0.0;
  }

  /** The three outcomes of `analyze`. */
  datatype Verdict = Exceeded(over: nat) | ExactlyMet | Remaining(left: nat)

  /** The comparison in `analyze`: exactly one outcome, chosen by the sign of
      total - limit, and its amount is positive and bridges the gap. */
  function Classify(total: int, limit: int): (v: Verdict)
    ensures v.Exceeded? <==> total > limit
    ensures v.ExactlyMet? <==> total == limit
    ensures v.Remaining? <==> total < limit
    ensures v.Exceeded? ==> v.over > 0 && limit + v.over == total
    ensures v.Remaining? ==> v.left > 0 && total + v.left == limit
  {
    if total > limit then Exceeded(total - limit)
    else if total == limit then ExactlyMet
    else Remaining(limit - total)
  }

  /** For a total and a limit that are both Java `int`s in range, the amount
      itself fits in an `int`: the subtraction in `analyze` does not wrap. */
  lemma AmountFitsInt(total: int, limit: int)
    requires 0 <= total <= MAX_INT && 1 <= limit <= MAX_INT
    ensures Classify(total, limit).Exceeded? ==> Classify(total, limit).over <= MAX_INT
    ensures Classify(total, limit).Remaining? ==> Classify(total, limit).left <= MAX_INT
  {
  }

  /** The message `analyze` returns for each outcome. */
  function AnalysisMessage(v: Verdict): string {
    match v
    case Exceeded(d) => EXCEEDED_PREFIX + Decimal(d) + MESSAGE_SUFFIX
    case ExactlyMet => PERFECT_MESSAGE
    case Remaining(d) => REMAINING_PREFIX + Decimal(d) + MESSAGE_SUFFIX
  }

  /** The amount inside a message of the form prefix + digits + " kcal.". */
  function AmountIn(s: string, prefix: string): Option<nat> {
    if |s| > |prefix| + |MESSAGE_SUFFIX|
       && s[..|prefix|] == prefix
       && s[|s| - |MESSAGE_SUFFIX|..] == MESSAGE_SUFFIX
       && AllDigits(s[|prefix|..|s| - |MESSAGE_SUFFIX|])
    then Some(DecimalValue(s[|prefix|..|s| - |MESSAGE_SUFFIX|]))
    else None
  }

  /** A reader of analysis messages. */
  function ParseAnalysis(s: string): Option<Verdict> {
    if s == PERFECT_MESSAGE then Some(ExactlyMet)
    else match AmountIn(s, EXCEEDED_PREFIX)
      case Some(d) => Some(Exceeded(d))
      case None =>
        match AmountIn(s, REMAINING_PREFIX)
        case Some(d) => Some(Remaining(d))
        case None => None
  }

  lemma AmountInRoundTrip(prefix: string, d: nat)
    ensures AmountIn(prefix + Decimal(d) + MESSAGE_SUFFIX, prefix) == Some(d)
  {
    var s := prefix + Decimal(d) + MESSAGE_SUFFIX;
    assert s[..|prefix|] == prefix;
    assert s[|prefix|..|s| - |MESSAGE_SUFFIX|] == Decimal(d);
    DecimalRoundTrip(d);
  }

  /** The three messages are told apart and their amounts read back, so the
      message names the outcome, and the amount, exactly. */
  lemma AnalysisMessageRoundTrip(v: Verdict)
    ensures ParseAnalysis(AnalysisMessage(v)) == Some(v)
  {
    var s := AnalysisMessage(v);
    match v
    case Exceeded(d) =>
      assert s[0] == 'L';
      AmountInRoundTrip(EXCEEDED_PREFIX, d);
    case ExactlyMet =>
    case Remaining(d) =>
      assert s[0] == 'Y';
      AmountInRoundTrip(REMAINING_PREFIX, d);
      assert s[..|EXCEEDED_PREFIX|] != EXCEEDED_PREFIX by {
        assert s[..|EXCEEDED_PREFIX|][0] == 'Y';
      }
  }

  /** The message determines the total relative to the limit: different
      comparisons give different messages. */
  lemma AnalysisMessageInjective(v: Verdict, w: Verdict)
    requires AnalysisMessage(v) == AnalysisMessage(w)
    ensures v == w
  {
    AnalysisMessageRoundTrip(v);
    AnalysisMessageRoundTrip(w);
  }

  class DaySummary {
    /** `meals`: the day's meals in insertion order. */
    var meals: seq<Meal>

    /** `new DaySummary()`: no meals yet. */
    constructor ()
      ensures meals == []
    {
      meals := [];
    }

    /** `addMeal`: `validateMeal` refuses null before anything is added;
        otherwise the meal goes at the end and the earlier meals stay. */
    method AddMeal(meal: Option<Meal>) returns (r: Outcome)
      modifies this
      ensures meal.None? ==> r == Fail(IllegalArgument(MEAL_NULL)) && meals == old(meals)
      ensures meal.Some? ==> r == Pass && meals == old(meals) + [meal.value]
      ensures meal.Some? ==> SumCalories(meals) == SumCalories(old(meals)) + meal.value.calories
    {
      if meal.None? {
        return Fail(IllegalArgument(MEAL_NULL));
      }
      meals := meals + [meal.value];
      assert meals[..|meals| - 1] == old(meals);
      r := Pass;
    }

    /** `getTotalCalories`: the loop over the meals.  Each running total is an
        `int` in range, because the final total is and no meal is negative. */
    method TotalCalories() returns (total: Int32)
      requires SumCalories(meals) <= MAX_INT
      ensures total == SumCalories(meals)
      ensures total >= |meals|
    {
      total := 0;
      var i := 0;
      while i < |meals|
        invariant 0 <= i <= |meals|
        invariant total == SumCalories(meals[..i])
      {
        assert meals[..i + 1][..i] == meals[..i];
        PrefixSumBounded(meals, i + 1);
        total := total + meals[i].calories;
        i := i + 1;
      }
      assert meals[..i] == meals;
      SumBounds(meals);
    }

    /** `getAverageCalories`: 0 for no meals, otherwise total / count in real
        division; it lies between 1 and the largest meal. */
    method AverageCalories() returns (average: real)
      requires SumCalories(meals) <= MAX_INT
      ensures meals == [] ==> average == 0.0
      ensures meals != [] ==> average == SumCalories(meals) as real / |meals| as real
      ensures meals != [] ==> 1.0 <= average <= MaxCalories(meals) as real
    {
      if meals == [] {
        return 0.0;
      }
      var total := TotalCalories();
      SumBounds(meals);
      QuotientBounds(total, |meals|, MaxCalories(meals));
      average := total as real / |meals| as real;
    }

    /** `analyze`: `validateUser` refuses null before any computation;
        otherwise the message for the total compared with the user's limit. */
    method Analyze(user: Option<User>) returns (r: Result<string>)
      requires user.Some? ==> SumCalories(meals) <= MAX_INT
      ensures user.None? ==> r == Err(IllegalArgument(USER_NULL))
      ensures user.Some? ==>
                r == Ok(AnalysisMessage(Classify(SumCalories(meals), user.value.dailyCalorieLimit)))
    {
      if user.None? {
        return Err(IllegalArgument(USER_NULL));
      }
      var total := TotalCalories();
      var limit := user.value.dailyCalorieLimit;
      if total > limit {
        r := Ok(EXCEEDED_PREFIX + Decimal(total - limit) + MESSAGE_SUFFIX);
      } else if total == limit {
        r := Ok(PERFECT_MESSAGE);
      } else {
        r := Ok(REMAINING_PREFIX + Decimal(limit - total) + MESSAGE_SUFFIX);
      }
    }
  }

  lemma HundredsDecimal(d: nat)
    requires 1 <= d < 10
    ensures Decimal(d * 100) == [DigitChar(d), '0', '0']
  {
    assert Decimal(d * 10) == [DigitChar(d), '0'] by {
      assert (d * 10) / 10 == d && (d * 10) % 10 == 0;
    }
    assert (d * 100) / 10 == d * 10 && (d * 100) % 10 == 0;
  }

  /** Three totals against a 2000 kcal limit: 1500 leaves 500 kcal, 2000
      meets the limit exactly, 2300 exceeds it by 300 kcal. */
  lemma AnalysisExamples()
    ensures AnalysisMessage(Classify(1500, 2000)) == "You can still consume 500 kcal."
    ensures AnalysisMessage(Classify(2000, 2000)) == "Perfect! You've exactly met your daily calorie goal."
    ensures AnalysisMessage(Classify(2300, 2000)) == "Limit exceeded by 300 kcal."
  {
    HundredsDecimal(3);
    HundredsDecimal(5);
    assert Classify(1500, 2000) == Remaining(500);
    assert Classify(2300, 2000) == Exceeded(300);
  }

  /** A day under the limit: Alice with a 2000 kcal limit eats 300, 500 and
      700 kcal; the total is 1500, the average 500, and 500 kcal remain. */
  method AliceUnderLimit() {
    var user := UserRecord("Alice", 2000);
    var day := new DaySummary();
    var r := day.AddMeal(Some(MealRecord("Oatmeal", 300)));
    r := day.AddMeal(Some(MealRecord("Chicken Salad", 500)));
    r := day.AddMeal(Some(MealRecord("Pasta", 700)));
    var total := day.TotalCalories();
    assert total == 1500;
    var average := day.AverageCalories();
    assert average == 500.0;
    var message := day.Analyze(Some(user));
    AnalysisExamples();
    assert message == Ok("You can still consume 500 kcal.");
  }
}
