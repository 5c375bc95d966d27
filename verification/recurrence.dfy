/** The third-party pieces the reminder code leans on, seen only through the
    calls it makes. The recurrence engine (rrule-go in the Go service) and the
    date-time parser are not part of this model: each is a record of function
    values, so every property proved below holds for ANY engine and parser. */
module Recurrence {

  /** An instant, as seconds on one time line; time-zone offsets are folded in. */
  type Time = int

  /** The recurrence engine:
      - `valid(rule)`: `StrToRRule(rule)` succeeds;
      - `productive(rule, anchor)`: the rule started at `anchor` yields at least
        one occurrence (`All()` is non-empty);
      - `between(rule, anchor, from, to)`: the occurrences of the rule started
        at `anchor` that fall in the window, bounds included (`Between(from, to, true)`). */
  datatype RRuleLib = RRuleLib(
    valid: string -> bool,
    productive: (string, Time) -> bool,
    between: (string, Time, Time, Time) -> seq<Time>
  )

  /** The date-time parser: `valid(s)` when one of the accepted layouts reads
      `s`, and `parse(s)` the instant it reads (the zero instant otherwise). */
  datatype DateLib = DateLib(
    valid: string -> bool,
    parse: string -> Time
  )

  /** The engine's promise about windows: for a rule it accepts, every
      occurrence it reports between `from` and `to` lies in `[from, to]`. */
  ghost predicate HonoursWindow(lib: RRuleLib)
  {
    forall rule, anchor, from, to, k ::
      lib.valid(rule) && 0 <= k < |lib.between(rule, anchor, from, to)| ==>
        from <= lib.between(rule, anchor, from, to)[k] <= to
  }
}
