/**
 Logical time as the RTI handles it: an IEEE 754 double, abstracted to the extended reals plus
 NaN.  Addition of a lookahead is a parameter (`Addition`), known only to be monotone and never
 to move time backwards, so what is proved holds for exact, for rounding and for overflowing sums.
 */
module LogicalTime {
  /** A time as decoded from eight bytes; only `At` passes `is_finite`. */
  datatype Stamp = NaN | NegInf | At(t: real) | PosInf

  /** A lookahead that passed the `is_finite() && v >= 0.0` test. */
  type Interval = l: real | 0.0 <= l

  /** IEEE `<=`: false as soon as one side is NaN. */
  predicate Leq(a: Stamp, b: Stamp) {
    && !a.NaN?
    && !b.NaN?
    && (a.NegInf? || b.PosInf? || (a.At? && b.At? && a.t <= b.t))
  }

  /** IEEE `<`: false as soon as one side is NaN. */
  predicate Less(a: Stamp, b: Stamp) {
    Leq(a, b) && a != b
  }

  /** `+` is monotone in both arguments. */
  predicate Monotone(add: (real, Interval) -> Stamp, t: real, u: real, l: Interval, k: Interval) {
    t <= u && l <= k ==> Leq(add(t, l), add(u, k))
  }

  /** The laws of `time + lookahead` that the time manager relies on. */
  ghost predicate Lawful(add: (real, Interval) -> Stamp) {
    && (forall t: real, l: Interval :: Leq(At(t), add(t, l)))
    && (forall t: real, u: real, l: Interval, k: Interval :: Monotone(add, t, u, l, k))
  }

  type Addition = add: (real, Interval) -> Stamp | Lawful(add)
    ghost witness (t: real, l: Interval) => At(t + l)
}
