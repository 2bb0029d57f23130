/**
 * `Meal`: an immutable name and calorie count, validated when it is built.
 * The Java constructor is the only way to obtain a `Meal`, so the Dafny type
 * `Meal` is the subset of records that the constructor can return; the
 * getters `getMealName` and `getCalories` are the fields `mealName` and
 * `calories`.
 */
module Meals {
  import opened JavaLang
  import opened JavaString
  import opened Units

  const MIN_CALORIES: int := 1
  const MEAL_NAME_EMPTY: string := "Meal name cannot be empty."
  const CALORIES_NOT_POSITIVE: string := "Calories must be greater than zero."
  const NAME_WIDTH: nat := 15

  datatype MealRecord = MealRecord(mealName: string, calories: Int32)

  /** What every constructed meal satisfies: a trimmed name (which may still
      be empty or blank, see `TrimmedNameMayBeEmpty`) and at least one calorie. */
  predicate IsValidMeal(m: MealRecord) {
    IsTrimmed(m.mealName) && m.calories >= MIN_CALORIES
  }

  type Meal = m: MealRecord | IsValidMeal(m) witness MealRecord("meal", 1)

  /** `validateMealName`: a null or blank name is refused. */
  function ValidateMealName(name: Option<string>): (r: Outcome)
    ensures r.Pass? <==> name.Some? && !IsBlank(name.value)
    ensures r.Fail? ==> r.error == IllegalArgument(MEAL_NAME_EMPTY)
  {
    if name.None? || IsBlank(name.value) then Fail(IllegalArgument(MEAL_NAME_EMPTY)) else Pass
  }

  /** `validateCalories`: fewer than `MIN_CALORIES` calories are refused. */
  function ValidateCalories(calories: Int32): (r: Outcome)
    ensures r.Pass? <==> calories >= 1
    ensures r.Fail? ==> r.error == IllegalArgument(CALORIES_NOT_POSITIVE)
  {
    if calories < MIN_CALORIES then Fail(IllegalArgument(CALORIES_NOT_POSITIVE)) else Pass
  }

  /** `new Meal(mealName, calories)`: the name is checked first, then the
      calories; on success the trimmed name and the calories are stored. */
  function NewMeal(mealName: Option<string>, calories: Int32): (r: Result<Meal>)
    ensures r.Ok? <==> mealName.Some? && !IsBlank(mealName.value) && calories >= 1
    ensures (mealName.None? || IsBlank(mealName.value)) ==> r == Err(IllegalArgument(MEAL_NAME_EMPTY))
    ensures mealName.Some? && !IsBlank(mealName.value) && calories < 1 ==>
              r == Err(IllegalArgument(CALORIES_NOT_POSITIVE))
    ensures r.Ok? ==> r.value.mealName == Trim(mealName.value) && r.value.calories == calories
  {
    match ValidateMealName(mealName)
    case Fail(e) => Err(e)
    case Pass =>
      match ValidateCalories(calories)
      case Fail(e) => Err(e)
      case Pass => Ok(MealRecord(Trim(mealName.value), calories))
  }

  /** The type `Meal` holds exactly what the constructor can produce: every
      valid record comes out of `NewMeal` for some accepted input.  A leading
      U+0001 is not whitespace, so it passes validation, and `trim` removes it. */
  lemma EveryMealIsConstructible(m: Meal)
    ensures NewMeal(Some("\U{1}" + m.mealName), m.calories) == Ok(m)
  {
    var raw := "\U{1}" + m.mealName;
    assert !IsWhitespace(raw[0]);
    var none: string := [];
    TrimOfPadded("\U{1}", m.mealName, none);
    assert "\U{1}" + m.mealName + none == raw;
  }

  /** Validation looks at `isBlank`, storage at `trim`, and the two disagree
      on U+0001: the constructor accepts that name and stores "". */
  lemma TrimmedNameMayBeEmpty()
    ensures NewMeal(Some("\U{1}"), 300) == Ok(MealRecord("", 300))
  {
    assert !IsWhitespace("\U{1}"[0]);
    assert Trim("\U{1}") == [];
  }

  /** The stored name may also be blank: U+3000 is whitespace but is not
      trimmed, so "\U{1}\U{3000}" is accepted and stored as "\U{3000}". */
  lemma TrimmedNameMayBeBlank()
    ensures NewMeal(Some("\U{1}\U{3000}"), 5) == Ok(MealRecord("\U{3000}", 5))
    ensures IsBlank("\U{3000}")
  {
    var pad, name, none: string := ['\U{1}'], ['\U{3000}'], [];
    var raw := pad + name + none;
    assert raw == "\U{1}\U{3000}";
    assert !IsBlank(raw) by {
      assert !IsWhitespace(raw[0]);
    }
    assert Trim(raw) == name by {
      assert IsTrimmed(name);
      TrimOfPadded(pad, name, none);
    }
  }

  /** An accepted name that holds a character above U+0020 is stored non-empty. */
  lemma StoredNameNonEmpty(name: string, calories: Int32, i: nat)
    requires !IsBlank(name) && calories >= 1
    requires i < |name| && !IsTrimmable(name[i])
    ensures NewMeal(Some(name), calories).Ok?
    ensures NewMeal(Some(name), calories).value.mealName != []
  {
  }

  /** `toString`: `String.format("%-15s %d kcal", mealName, calories)`. */
  function MealLine(m: Meal): (r: string)
    ensures |r| == (if |m.mealName| >= NAME_WIDTH then |m.mealName| else NAME_WIDTH) + 1
                   + |Decimal(m.calories)| + |KCAL_SUFFIX|
    ensures r[..|m.mealName|] == m.mealName
    ensures r[|r| - |KCAL_SUFFIX|..] == KCAL_SUFFIX
  {
    var field := PadRight(m.mealName, NAME_WIDTH);
    var r := field + " " + Decimal(m.calories) + KCAL_SUFFIX;
    assert r[..|m.mealName|] == field[..|m.mealName|];
    r
  }

  /** A reader of meal lines: the calorie count is the run of digits before
      " kcal", preceded by one space; the name is what lies before that space,
      without the padding. */
  function ParseMealLine(line: string): Option<(string, nat)> {
    if |line| < |KCAL_SUFFIX| || line[|line| - |KCAL_SUFFIX|..] != KCAL_SUFFIX then None
    else
      var body := line[..|line| - |KCAL_SUFFIX|];
      var k := TrailingDigitsStart(body);
      if k == |body| || k == 0 || body[k - 1] != ' ' then None
      else Some((TrimEnd(body[..k - 1]), DecimalValue(body[k..])))
  }

  /** The meal line loses nothing: its name and calories can be read back. */
  lemma MealLineRoundTrip(m: Meal)
    ensures ParseMealLine(MealLine(m)) == Some((m.mealName, m.calories as nat))
  {
    var field := PadRight(m.mealName, NAME_WIDTH);
    var digits := Decimal(m.calories);
    var line := MealLine(m);
    var body := field + " " + digits;
    assert line == body + KCAL_SUFFIX;
    assert line[..|line| - |KCAL_SUFFIX|] == body;
    assert line[|line| - |KCAL_SUFFIX|..] == KCAL_SUFFIX;
    TrailingDigitsOfJoin(field + " ", digits);
    assert body[..|field|] == field;
    assert body[|field| + 1..] == digits;
    var padding := field[|m.mealName|..];
    assert field == m.mealName + padding;
    TrimEndOfPadded(m.mealName, padding);
    DecimalRoundTrip(m.calories);
  }

  /** A short name is padded to 15 characters: ("Oatmeal", 300) renders as
      "Oatmeal         300 kcal". */
  lemma OatmealLine()
    ensures MealLine(MealRecord("Oatmeal", 300)) == "Oatmeal         300 kcal"
  {
    assert Decimal(300) == "300" by {
      assert Decimal(3) == "3";
      assert Decimal(30) == "30";
    }
  }
}
