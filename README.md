# Daily calorie tracker — verified model of the core

The tracker records a user (a name and a daily calorie limit) and the meals of
one day (a name and a calorie count each). It reports the day's total, the
average per meal, and how the total compares with the limit. This project
models the three classes that hold that logic (`Meal`, `User` and
`DaySummary`) and proves what they promise.

- `JavaLang.dfy`: Java's 32-bit `int` (`Int32`), nullable references
  (`Option`), and `IllegalArgumentException` with its message. A call that
  throws returns `Err`/`Fail` carrying the exception.
- `JavaString.dfy`: the string operations the classes use.
  - `Character.isWhitespace`, which `String.isBlank` uses.
  - `String.trim`, which drops characters at or below U+0020.
  - The `%-15s` and `%d` conversions of `String.format`.
  - Beside each of these, its characterisation or a parser that undoes it.
- `Meal.dfy`, `User.dfy`: each value object is a datatype. A subset type
  (`Meal`, `User`) holds the records the constructor can return, because the
  Java constructor is the only way to make one. The getters are the fields.
  The constructor is a function returning `Result`. The name is checked
  before the number, as in the source.
- `DaySummary.dfy`: a class whose `meals: seq<Meal>` field is the `ArrayList`.
  - `AddMeal` appends to it.
  - `TotalCalories` is the source's loop, proved equal to `SumCalories`.
  - `AverageCalories` and `Analyze` call it, as the source calls
    `getTotalCalories`.
  - The three-way comparison is `Classify`. Its message is
    `AnalysisMessage`.

Two behaviours of the code are easy to miss:
- The stored name is not always non-blank. Validation tests `isBlank`, which
  looks at `Character.isWhitespace`, and then `trim` is stored. `trim`
  removes a different set of characters. So `"\U{1}"` is accepted and stored
  as the empty string (`Meals.TrimmedNameMayBeEmpty`). `"\U{1}\U{3000}"` is
  accepted and stored as the blank `"\U{3000}"`
  (`Meals.TrimmedNameMayBeBlank`). The model's invariant is
  therefore "the name is trimmed". `Meals.EveryMealIsConstructible` shows
  that every trimmed name can in fact be stored.
- The meal line never truncates. `%-15s` pads a short name with spaces and
  leaves a longer name whole.

## Model

| member | source | states |
|---|---|---|
| `JavaString.IsWhitespace` | src/code/com/asmy/calorietracker/Meal.java:42 | `Character.isWhitespace`: U+0009..U+000D, U+001C..U+0020, and the Unicode space, line and paragraph separators except the no-break spaces U+00A0, U+2007 and U+202F |
| `JavaString.IsBlank` | src/code/com/asmy/calorietracker/User.java:39 | `String.isBlank`: the string is empty or every character is whitespace |
| `JavaString.WhitespaceVersusTrimmable` | src/code/com/asmy/calorietracker/Meal.java:42 | every ASCII whitespace character is removed by `trim`, but U+0001 is removed without being whitespace and U+3000 is whitespace without being removed |
| `JavaString.TrimStart` | src/code/com/asmy/calorietracker/Meal.java:30 | the leading part of `trim`: the result is a suffix of the input; every dropped character is at or below U+0020; the result is empty or starts above U+0020 |
| `JavaString.TrimEnd` | src/code/com/asmy/calorietracker/Meal.java:30 | the trailing part of `trim`: the result is a prefix of the input; every dropped character is at or below U+0020; the result is empty or ends above U+0020 |
| `JavaString.Trim` | src/code/com/asmy/calorietracker/Meal.java:30 | `trim` returns a trimmed string no longer than its input; the result is empty exactly when every input character is at or below U+0020 |
| `JavaString.TrimIsMiddle` | src/code/com/asmy/calorietracker/Meal.java:30 | the input is the result of `trim` with a run of characters at or below U+0020 before it and another after it |
| `JavaString.TrimOfPadded` | src/code/com/asmy/calorietracker/Meal.java:30 | `trim` of a trimmed string with padding of characters at or below U+0020 on both sides is that string |
| `JavaString.TrimmedIsFixed` | src/code/com/asmy/calorietracker/User.java:27 | `trim` leaves a trimmed string unchanged |
| `JavaString.TrimFixedPoints` | src/code/com/asmy/calorietracker/User.java:27 | `trim` is idempotent, and its fixed points are exactly the trimmed strings |
| `JavaString.PadRight` | src/code/com/asmy/calorietracker/Meal.java:90 | `%-15s`: the text, then spaces; the length is the larger of the text's length and the width; no truncation |
| `JavaString.Decimal` | src/code/com/asmy/calorietracker/Meal.java:90 | `%d` of a non-negative number: at least one digit, only digits, no leading zero |
| `JavaString.DecimalRoundTrip` | src/code/com/asmy/calorietracker/User.java:87 | reading back the digits `%d` writes gives the number |
| `Meals.ValidateMealName` | src/code/com/asmy/calorietracker/Meal.java:40-46 | passes exactly when the name is non-null and not blank; otherwise fails with "Meal name cannot be empty." |
| `Meals.ValidateCalories` | src/code/com/asmy/calorietracker/Meal.java:54-60 | passes exactly when calories are at least `MIN_CALORIES` (1); otherwise fails with "Calories must be greater than zero." |
| `Meals.NewMeal` | src/code/com/asmy/calorietracker/Meal.java:25-32 | succeeds iff the name is non-null and not blank and calories are at least 1; a bad name gives the name error even when the calories are also bad; a good name with bad calories gives the calories error; on success it stores the trimmed name and the calories |
| `Meals.EveryMealIsConstructible` | src/code/com/asmy/calorietracker/Meal.java:25-32 | every record the `Meal` type admits is what the constructor returns for some accepted input |
| `Meals.TrimmedNameMayBeEmpty` | src/code/com/asmy/calorietracker/Meal.java:27-30 | the name "\U{1}" passes validation and is stored as "" |
| `Meals.TrimmedNameMayBeBlank` | src/code/com/asmy/calorietracker/Meal.java:27-30 | the name "\U{1}\U{3000}" passes validation and is stored as the blank "\U{3000}" |
| `Meals.StoredNameNonEmpty` | src/code/com/asmy/calorietracker/Meal.java:27-30 | an accepted name holding a character above U+0020 is stored non-empty |
| `Meals.MealLine` | src/code/com/asmy/calorietracker/Meal.java:88-91 | `toString` begins with the name and ends with " kcal"; its length is the padded field (at least 15) plus one, plus the digits, plus the suffix |
| `Meals.MealLineRoundTrip` | src/code/com/asmy/calorietracker/Meal.java:90 | the name and the calories can be read back from the rendered line |
| `Meals.OatmealLine` | src/code/com/asmy/calorietracker/Meal.java:90 | ("Oatmeal", 300) renders as "Oatmeal         300 kcal" |
| `Users.ValidateName` | src/code/com/asmy/calorietracker/User.java:37-43 | passes exactly when the name is non-null and not blank; otherwise fails with "User name cannot be empty." |
| `Users.ValidateDailyLimit` | src/code/com/asmy/calorietracker/User.java:51-57 | passes exactly when the limit is greater than zero; otherwise fails with "Daily calorie limit must be greater than zero." |
| `Users.NewUser` | src/code/com/asmy/calorietracker/User.java:22-29 | succeeds iff the name is non-null and not blank and the limit is positive; the name is checked first; on success it stores the trimmed name and the limit |
| `Users.EveryUserIsConstructible` | src/code/com/asmy/calorietracker/User.java:22-29 | every record the `User` type admits is what the constructor returns for some accepted input |
| `Users.UserLine` | src/code/com/asmy/calorietracker/User.java:85-88 | `toString` is "User: ", then the name, then the separator, the digits and " kcal" |
| `Users.UserLineRoundTrip` | src/code/com/asmy/calorietracker/User.java:87 | the name and the limit can be read back from the rendered line |
| `DaySummaries.SumCalories` | src/code/com/asmy/calorietracker/DaySummary.java:61-68 | the reference total: the calories of the meals added up in order, 0 for none; `SumConcat` and `SumAtLeastCount` state its properties, and `TotalCalories` is proved equal to it |
| `DaySummaries.SumConcat` | src/code/com/asmy/calorietracker/DaySummary.java:59-69 | the total of two consecutive stretches of meals is the sum of their totals |
| `DaySummaries.SumIgnoresOrder` | src/code/com/asmy/calorietracker/DaySummary.java:59-69 | swapping two stretches of meals leaves the total unchanged |
| `DaySummaries.SumAtLeastCount` | src/code/com/asmy/calorietracker/DaySummary.java:64-67 | every meal has at least one calorie, so the total is at least the number of meals |
| `DaySummaries.SumAtMost` | src/code/com/asmy/calorietracker/DaySummary.java:64-67 | with no meal above a bound, the total is at most the count times the bound |
| `DaySummaries.SumBounds` | src/code/com/asmy/calorietracker/DaySummary.java:59-69 | the total lies between the count and the count times the largest meal |
| `DaySummaries.PrefixSumBounded` | src/code/com/asmy/calorietracker/DaySummary.java:64-67 | every running total of the loop lies between 0 and the final total, so no step of the loop's `int` addition overflows |
| `DaySummaries.QuotientBounds` | src/code/com/asmy/calorietracker/DaySummary.java:82 | the real quotient total / n times n is the total, and it lies between 1 and the largest meal |
| `DaySummaries.Classify` | src/code/com/asmy/calorietracker/DaySummary.java:101-112 | exactly one of exceeded, met or remaining; each holds iff total > limit, total == limit or total < limit; the amount is positive and adding it to the smaller side gives the larger |
| `DaySummaries.AmountFitsInt` | src/code/com/asmy/calorietracker/DaySummary.java:103 | for an in-range total and a positive limit, the amount `total - limit` or `limit - total` fits in an `int` |
| `DaySummaries.AnalysisMessage` | src/code/com/asmy/calorietracker/DaySummary.java:103-111 | the three texts: "Limit exceeded by %d kcal.", the "Perfect!" message, and "You can still consume %d kcal."; `AnalysisMessageRoundTrip` reads the outcome and the amount back |
| `DaySummaries.AnalysisMessageRoundTrip` | src/code/com/asmy/calorietracker/DaySummary.java:101-112 | the outcome and its amount can be read back from the message |
| `DaySummaries.AnalysisMessageInjective` | src/code/com/asmy/calorietracker/DaySummary.java:101-112 | the three messages differ, and so do messages with different amounts |
| `DaySummaries.AnalysisExamples` | src/code/com/asmy/calorietracker/DaySummary.java:101-112 | for a 2000 kcal limit, totals of 1500, 2000 and 2300 give "You can still consume 500 kcal.", the "Perfect!" message and "Limit exceeded by 300 kcal." |
| `DaySummaries.DaySummary.constructor` | src/code/com/asmy/calorietracker/DaySummary.java:24-27 | a new summary holds no meals |
| `DaySummaries.DaySummary.AddMeal` | src/code/com/asmy/calorietracker/DaySummary.java:35-52 | null fails with "Meal cannot be null." and leaves the meals unchanged; a meal is appended at the end and the earlier meals stay; the total grows by its calories |
| `DaySummaries.DaySummary.TotalCalories` | src/code/com/asmy/calorietracker/DaySummary.java:59-69 | the loop returns the sum of the meals' calories (0 for none) without changing them, and the result is at least the number of meals |
| `DaySummaries.DaySummary.AverageCalories` | src/code/com/asmy/calorietracker/DaySummary.java:76-83 | 0 with no meals; otherwise total / count in real division, which lies between 1 and the largest meal |
| `DaySummaries.DaySummary.Analyze` | src/code/com/asmy/calorietracker/DaySummary.java:91-126 | null fails with "User cannot be null." before any computation; otherwise the message for the total compared with the user's limit |

## Left out

- `DaySummary.printSummary` (DaySummary.java:131-145) is not modelled. It writes to `System.out`, and its `%.2f` format of a `double` is floating-point output.
- `CalorieTracker.java` and `Main.java` are not part of this model. They are the console session: prompts, `Scanner` reads and the entry point.
- `DaySummaries.DaySummary.AverageCalories`: returns a Dafny `real`, not an IEEE `double`. Rounding in the `double` division is not modelled.
- `DaySummaries.DaySummary.TotalCalories`, `AverageCalories` and `Analyze`: these require that the true total fits in an `int`. Java's wrap-around, when the meals sum past 2147483647, is not modelled.
- `JavaString.IsWhitespace` puts the Unicode space, line and paragraph separators in a fixed list, taken from the Unicode 10 and later tables. It is not derived from the Java runtime's own character database.
- `JavaString.PadRight`, `Meals.MealLine`: the 15-character width is counted in Unicode scalar values. Java counts UTF-16 code units, so a name that holds characters beyond U+FFFF is padded less in Java. A Java `String` may also hold an unpaired surrogate, which a Dafny `string` cannot represent; such names are not modelled.
- `JavaString.Decimal`: writes ASCII digits with no sign. A locale that changes the digits of `%d` is not modelled. The numbers formatted here (calories, limits, amounts) are never negative.
- `Object.equals`/`hashCode` and reference identity of `Meal` and `User` objects are not modelled. Meals are values in the model.
