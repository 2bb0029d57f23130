/**
 * `User`: an immutable name and daily calorie limit, validated when it is
 * built.  As with `Meal`, the Dafny type `User` is the subset of records the
 * constructor can return; the getters `getName` and `getDailyCalorieLimit`
 * are the fields `name` and `dailyCalorieLimit`.
 */
module Users {
  import opened JavaLang
  import opened JavaString
  import opened Units

  const USER_NAME_EMPTY: string := "User name cannot be empty."
  const LIMIT_NOT_POSITIVE: string := "Daily calorie limit must be greater than zero."
  const USER_PREFIX: string := "User: "
  const LIMIT_SEPARATOR: string := " | Daily Limit: "

  datatype UserRecord = UserRecord(name: string, dailyCalorieLimit: Int32)

  /** What every constructed user satisfies: a trimmed name and a positive limit. */
  predicate IsValidUser(u: UserRecord) {
    IsTrimmed(u.name) && u.dailyCalorieLimit > 0
  }

  type User = u: UserRecord | IsValidUser(u) witness UserRecord("user", 1)

  /** `validateName`: a null or blank name is refused. */
  function ValidateName(name: Option<string>): (r: Outcome)
    ensures r.Pass? <==> name.Some? && !IsBlank(name.value)
    ensures r.Fail? ==> r.error == IllegalArgument(USER_NAME_EMPTY)
  {
    if name.None? || IsBlank(name.value) then Fail(IllegalArgument(USER_NAME_EMPTY)) else Pass
  }

  /** `validateDailyLimit`: a limit of zero or less is refused. */
  function ValidateDailyLimit(limit: Int32): (r: Outcome)
    ensures r.Pass? <==> limit >= 1
    ensures r.Fail? ==> r.error == IllegalArgument(LIMIT_NOT_POSITIVE)
  {
    if limit <= 0 then Fail(IllegalArgument(LIMIT_NOT_POSITIVE)) else Pass
  }

  /** `new User(name, dailyCalorieLimit)`: the name is checked first, then the
      limit; on success the trimmed name and the limit are stored. */
  function NewUser(name: Option<string>, dailyCalorieLimit: Int32): (r: Result<User>)
    ensures r.Ok? <==> name.Some? && !IsBlank(name.value) && dailyCalorieLimit > 0
    ensures (name.None? || IsBlank(name.value)) ==> r == Err(IllegalArgument(USER_NAME_EMPTY))
    ensures name.Some? && !IsBlank(name.value) && dailyCalorieLimit <= 0 ==>
              r == Err(IllegalArgument(LIMIT_NOT_POSITIVE))
    ensures r.Ok? ==> r.value.name == Trim(name.value) && r.value.dailyCalorieLimit == dailyCalorieLimit
  {
    match ValidateName(name)
    case Fail(e) => Err(e)
    case Pass =>
      match ValidateDailyLimit(dailyCalorieLimit)
      case Fail(e) => Err(e)
      case Pass => Ok(UserRecord(Trim(name.value), dailyCalorieLimit))
  }

  /** The type `User` holds exactly what the constructor can produce. */
  lemma EveryUserIsConstructible(u: User)
    ensures NewUser(Some("\U{1}" + u.name), u.dailyCalorieLimit) == Ok(u)
  {
    var raw := "\U{1}" + u.name;
    assert !IsWhitespace(raw[0]);
    var none: string := [];
    TrimOfPadded("\U{1}", u.name, none);
    assert "\U{1}" + u.name + none == raw;
  }

  /** `toString`: `String.format("User: %s | Daily Limit: %d kcal", name, limit)`. */
  function UserLine(u: User): (r: string)
    ensures |r| == |USER_PREFIX| + |u.name| + |LIMIT_SEPARATOR| + |Decimal(u.dailyCalorieLimit)| + |KCAL_SUFFIX|
    ensures r[..|USER_PREFIX|] == USER_PREFIX
    ensures r[|USER_PREFIX|..|USER_PREFIX| + |u.name|] == u.name
    ensures r[|r| - |KCAL_SUFFIX|..] == KCAL_SUFFIX
  {
    var r := USER_PREFIX + u.name + LIMIT_SEPARATOR + Decimal(u.dailyCalorieLimit) + KCAL_SUFFIX;
    assert r[..|USER_PREFIX|] == USER_PREFIX;
    assert r[|USER_PREFIX|..|USER_PREFIX| + |u.name|] == u.name;
    r
  }

  /** A reader of user lines: the limit is the run of digits before " kcal",
      which must follow " | Daily Limit: "; the name lies between "User: " and
      that separator. */
  function ParseUserLine(line: string): Option<(string, nat)> {
    if |line| < |USER_PREFIX| + |KCAL_SUFFIX|
       || line[..|USER_PREFIX|] != USER_PREFIX
       || line[|line| - |KCAL_SUFFIX|..] != KCAL_SUFFIX
    then None
    else
      var body := line[..|line| - |KCAL_SUFFIX|];
      var k := TrailingDigitsStart(body);
      if k == |body| || k < |USER_PREFIX| + |LIMIT_SEPARATOR|
         || body[k - |LIMIT_SEPARATOR|..k] != LIMIT_SEPARATOR
      then None
      else Some((body[|USER_PREFIX|..k - |LIMIT_SEPARATOR|], DecimalValue(body[k..])))
  }

  /** The user line loses nothing: its name and limit can be read back. */
  lemma UserLineRoundTrip(u: User)
    ensures ParseUserLine(UserLine(u)) == Some((u.name, u.dailyCalorieLimit as nat))
  {
    var digits := Decimal(u.dailyCalorieLimit);
    var head := USER_PREFIX + u.name + LIMIT_SEPARATOR;
    var body := head + digits;
    var line := UserLine(u);
    assert line == body + KCAL_SUFFIX;
    assert line[..|line| - |KCAL_SUFFIX|] == body;
    assert line[..|USER_PREFIX|] == USER_PREFIX;
    assert head[|head| - 1] == ' ';
    TrailingDigitsOfJoin(head, digits);
    assert body[|head| - |LIMIT_SEPARATOR|..|head|] == LIMIT_SEPARATOR;
    assert body[|USER_PREFIX|..|head| - |LIMIT_SEPARATOR|] == u.name;
    assert body[|head|..] == digits;
    DecimalRoundTrip(u.dailyCalorieLimit);
  }
}
