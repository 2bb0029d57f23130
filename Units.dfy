/** The calorie unit that every rendered line of the tracker ends with. */
module Units {
  const KCAL_SUFFIX: string := " kcal"
}
