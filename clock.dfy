/** Time as the model sees it: an instant is known only through its ISO 8601 rendering.
    Reading the clock is a parameter of every operation that does it. */
module Clock {
  datatype Instant = Instant(isoFormat: string)
}
