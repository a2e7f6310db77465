/** An abstract regular-expression match: the regex engine itself is not
    modelled, only what `java.util.regex.Matcher` exposes after a successful
    match. */
module Regex {
  import opened Wrappers
  import opened JavaLang

  /** `groupCount` is a property of the pattern; `groups[0]` is the whole
      match and `groups[i]` is capturing group `i`, `None` when that group did
      not take part in the match. */
  datatype Match = Match(groupCount: nat, groups: seq<Option<string>>)

  /** What every successful match satisfies: one entry per group plus the
      whole match, which is always present. */
  predicate WellFormed(m: Match) {
    |m.groups| == m.groupCount + 1 && m.groups[0].Some?
  }

  /** `Matcher.group(i)`: the capture of group `i` (null when it did not take
      part), IndexOutOfBoundsException when there is no group `i`. */
  function Group(m: Match, i: int): (r: Result<Option<string>, Exception>)
    requires WellFormed(m)
  {
    if 0 <= i <= m.groupCount then Success(m.groups[i]) else Failure(IndexOutOfBounds(i))
  }
}
