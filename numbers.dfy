/** The two `Math` library functions the program relies on. */
module Numbers {

  /** `Math.Max`. */
  function Max(a: int, b: int): int { if a < b then b else a }

  /** `Math.Clamp`: `value` brought into [min, max]; the library throws when max < min. */
  function Clamp(value: int, min: int, max: int): (r: int)
    requires min <= max
    ensures min <= r <= max
    ensures min <= value <= max ==> r == value
    ensures value < min ==> r == min
    ensures value > max ==> r == max
  {
    if value < min then min else if value > max then max else value
  }
}
