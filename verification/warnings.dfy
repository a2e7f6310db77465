/** The warning record the parser produces and its three-level priority. */
module Warnings {
  import opened Wrappers

  datatype Priority = High | Normal | Low

  /** Position of a priority in the order Low < Normal < High. */
  function Rank(p: Priority): (r: nat) {
    match p
    case Low => 0
    case Normal => 1
    case High => 2
  }

  datatype ColumnRange = ColumnRange(start: int, end: int)

  /** One diagnostic. The text fields are `None` where the Java code would
      hold `null`; `columns` is `None` until a column position is set. */
  datatype Warning = Warning(
    fileName: Option<string>,
    line: int,
    columns: Option<ColumnRange>,
    category: Option<string>,
    message: Option<string>,
    priority: Priority)

  /** A column annotation, when present, never ends before it starts. */
  predicate ValidColumns(w: Warning) {
    w.columns.Some? ==> w.columns.value.start <= w.columns.value.end
  }

  /** First phase of the two-phase build: the core fields, no columns yet. */
  function NewWarning(fileName: Option<string>, line: int, category: Option<string>,
                      message: Option<string>, priority: Priority): (w: Warning)
  {
    Warning(fileName, line, None, category, message, priority)
  }

  /** Second phase: attach a column range, leaving every other field alone. */
  function SetColumnPosition(w: Warning, start: int, end: int): (w': Warning)
  {
    w.(columns := Some(ColumnRange(start, end)))
  }
}
