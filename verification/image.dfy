/** The shapes the adjustment operators work on: an image is four channels
    (red, green, blue, alpha) of intensities, each channel a flat sequence of
    reals. The values are intended to lie in the working domain [0,1], but
    nothing checks it. */
module Image {

  /** One channel of an image, flattened; element i is pixel i. */
  type Channel = seq<real>

  /** An RGBA image as the operators receive and return it. */
  datatype Rgba = Rgba(red: Channel, green: Channel, blue: Channel, alpha: Channel)

  /** One value per colour channel (a cutoff, a control triple, a curve). */
  datatype Rgb<T> = Rgb(red: T, green: T, blue: T)

  /** An optional argument: the operators' `None` defaults. */
  datatype Option<T> = None | Some(value: T)

  /** Green and blue have the same length as red: the coefficient arrays of
      `curves` are built with red's shape, so the other two colour channels
      must match it unless numpy broadcasting applies. */
  predicate ColoursMatchRed(img: Rgba) {
    |img.green| == |img.red| && |img.blue| == |img.red|
  }

  /** Every element of the channel lies in the working domain [0,1]. */
  predicate InUnit(c: Channel) {
    forall i :: 0 <= i < |c| ==> 0.0 <= c[i] <= 1.0
  }

  /** Every element of the channel is exactly 0 or exactly 1. */
  predicate IsBinary(c: Channel) {
    forall i :: 0 <= i < |c| ==> c[i] == 0.0 || c[i] == 1.0
  }
}
