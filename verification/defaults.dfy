/** Argument defaulting shared by `threshold` and `curves2`: one argument per
    colour channel, where green and blue fall back to red unless BOTH are
    supplied. */
module Defaults {
  import opened Image

  /** Resolves the red, green and blue arguments into one value per channel.
      Red is always kept; green and blue are kept only as a pair, and when
      either is missing both are replaced by red, so a lone green or a lone
      blue is discarded. */
  function Resolve<T>(red: T, green: Option<T>, blue: Option<T>): (r: Rgb<T>)
    ensures r.red == red
    ensures green.Some? && blue.Some? ==> r.green == green.value && r.blue == blue.value
    ensures green.None? || blue.None? ==> r.green == red && r.blue == red
  {
    if green.None? || blue.None? then Rgb(red, red, red)
    else Rgb(red, green.value, blue.value)
  }

  /** A supplied green (or blue) without its partner has no effect at all:
      the result is the one obtained when neither is supplied. */
  lemma ResolveDiscardsLoneChannel<T>(red: T, green: Option<T>, blue: Option<T>)
    requires green.None? || blue.None?
    ensures Resolve(red, green, blue) == Resolve(red, None, None)
    ensures Resolve(red, green, blue) == Rgb(red, red, red)
  {
  }
}
