module Clock {
  /** A reading of `Date.now()`: milliseconds since 1970, and never so early that an interval of the
      modelled code would reach back to the zero it starts from. */
  type Instant = t: int | t >= EARLIEST witness EARLIEST

  const EARLIEST := 1000
}
