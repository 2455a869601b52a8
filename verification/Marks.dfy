/** Watermarks as (value, last_id) pairs under Python's tuple order. Values of every kind are
    taken on one integer axis here (microseconds, days or the key itself); module Watermarks
    ties this view to the stored text. */
module Marks {
  import opened Prelude

  datatype Mark = Mark(value: int, lastId: int)

  predicate Le(a: Mark, b: Mark) {
    a.value < b.value || (a.value == b.value && a.lastId <= b.lastId)
  }

  predicate Lt(a: Mark, b: Mark) {
    a.value < b.value || (a.value == b.value && a.lastId < b.lastId)
  }

  /** What `get_watermark` answers: the stored mark, or the default of every kind. */
  function Current(stored: Option<Mark>): Mark {
    if stored.Some? then stored.value else Mark(0, 0)
  }

  /** `set_watermark`: a stored mark only ever moves strictly forward. */
  function Advance(stored: Option<Mark>, m: Mark): Option<Mark> {
    if stored.Some? && Le(m, stored.value) then stored else Some(m)
  }
}
