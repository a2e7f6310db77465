/** The Perl::Critic warning extractor: how one match of the Perl::Critic
    pattern becomes a warning record, and how a Perl::Critic severity becomes a
    priority. */
module PerlCritic {
  import opened Wrappers
  import opened Decimal
  import opened JavaLang
  import opened Regex
  import opened Warnings

  /** The Perl::Critic pattern has six capturing groups: an optional `^/...`
      path, the message, the line `\d+`, the column `\d+`, the category, and
      the severity `\d`. */
  const PatternGroupCount: nat := 6

  /** Severity below 2 is LOW, below 4 is NORMAL, anything else HIGH. */
  function CheckPriority(severity: int): (p: Priority)
    ensures p == Low <==> severity < 2
    ensures p == Normal <==> 2 <= severity < 4
    ensures p == High <==> 4 <= severity
  {
    if severity < 2 then Low
    else if severity < 4 then Normal
    else High
  }

  /** A higher severity never yields a lower priority. */
  lemma CheckPriorityMonotone(a: int, b: int)
    requires a <= b
    ensures Rank(CheckPriority(a)) <= Rank(CheckPriority(b))
  {
  }

  /** Each of the three priorities is the image of some severity digit. */
  lemma CheckPriorityOnto(p: Priority)
    ensures exists s :: 0 <= s <= 9 && CheckPriority(s) == p
  {
    match p
    case Low => assert CheckPriority(0) == p;
    case Normal => assert CheckPriority(2) == p;
    case High => assert CheckPriority(4) == p;
  }

  /** `createWarning(Matcher)`. When the pattern has six groups the fields are
      read one group further right and the file name is group 1; otherwise the
      file name is the sentinel "-". Exceptions from `group` and `parseInt`
      surface as `Failure`. */
  function CreateWarning(m: Match): (r: Result<Warning, Exception>)
    requires WellFormed(m)
    ensures r.Success? ==> ValidColumns(r.value)
    ensures r.Success? ==> r.value.columns.Some? && r.value.columns.value.start == r.value.columns.value.end
    ensures r.Success? ==> InIntRange(r.value.line) && InIntRange(r.value.columns.value.start)
    ensures m.groupCount == PatternGroupCount && r.Failure? ==> r.error.NumberFormat?
  {
    var offset := if m.groupCount == PatternGroupCount then 1 else 0;
    var fileName := if offset == 1 then Group(m, offset).value else Some("-");
    var message :- Group(m, 1 + offset);
    var category :- Group(m, 4 + offset);
    var lineText :- Group(m, 2 + offset);
    var line :- ParseInt(lineText);
    var columnText :- Group(m, 3 + offset);
    var column :- ParseInt(columnText);
    var severityText :- Group(m, 5 + offset);
    var severity :- ParseInt(severityText);
    var warning := NewWarning(fileName, line, category, message, CheckPriority(severity));
    Success(SetColumnPosition(warning, column, column))
  }

  /** With six groups: file name = group 1, message = group 2, line = group 3,
      column = group 4, category = group 5, severity = group 6, and the only
      way to fail is a numeral that does not parse. */
  lemma ShiftedBranch(m: Match)
    requires WellFormed(m) && m.groupCount == PatternGroupCount
    ensures var r := CreateWarning(m);
      && (r.Success? <==>
            ParseInt(m.groups[3]).Success? && ParseInt(m.groups[4]).Success?
            && ParseInt(m.groups[6]).Success?)
      && (r.Success? ==>
            var column := ParseInt(m.groups[4]).value;
            r.value == Warning(m.groups[1], ParseInt(m.groups[3]).value,
                               Some(ColumnRange(column, column)), m.groups[5], m.groups[2],
                               CheckPriority(ParseInt(m.groups[6]).value)))
  {
  }

  /** With any other group count: file name "-", message = group 1, line =
      group 2, column = group 3, category = group 4, severity = group 5; fewer
      than five groups always fails. */
  lemma UnshiftedBranch(m: Match)
    requires WellFormed(m) && m.groupCount != PatternGroupCount
    ensures m.groupCount < 5 ==> CreateWarning(m).Failure?
    ensures var r := CreateWarning(m);
      m.groupCount >= 5 ==>
      && (r.Success? <==>
            ParseInt(m.groups[2]).Success? && ParseInt(m.groups[3]).Success?
            && ParseInt(m.groups[5]).Success?)
      && (r.Success? ==>
            var column := ParseInt(m.groups[3]).value;
            r.value == Warning(Some("-"), ParseInt(m.groups[2]).value,
                               Some(ColumnRange(column, column)), m.groups[4], m.groups[1],
                               CheckPriority(ParseInt(m.groups[5]).value)))
  {
  }

  /** What the Perl::Critic pattern guarantees of every match it produces:
      six groups; the path group, when it took part, starts with '/'; the
      message and category groups always take part; line and column are
      `\d+`; severity is a single `\d`. */
  predicate PerlCriticMatch(m: Match) {
    && WellFormed(m)
    && m.groupCount == PatternGroupCount
    && (m.groups[1].Some? ==> |m.groups[1].value| > 0 && m.groups[1].value[0] == '/')
    && m.groups[2].Some?
    && m.groups[3].Some? && DigitString(m.groups[3].value)
    && m.groups[4].Some? && DigitString(m.groups[4].value)
    && m.groups[5].Some?
    && m.groups[6].Some? && |m.groups[6].value| == 1 && IsDigit(m.groups[6].value[0])
  }

  /** On a Perl::Critic match the file name is exactly the path group: absent
      when no `/path:` prefix matched, and never the sentinel "-". */
  lemma PerlCriticFileName(m: Match)
    requires PerlCriticMatch(m) && CreateWarning(m).Success?
    ensures CreateWarning(m).value.fileName == m.groups[1]
    ensures CreateWarning(m).value.fileName.None? <==> m.groups[1].None?
    ensures CreateWarning(m).value.fileName != Some("-")
  {
  }

  /** On a Perl::Critic match extraction fails only when the line or column
      numeral exceeds the `int` range; line and column are the decimal values
      of their numerals, and the severity handed to the classifier is a digit
      0..9. */
  lemma PerlCriticExtraction(m: Match)
    requires PerlCriticMatch(m)
    ensures var r := CreateWarning(m);
      && (r.Success? <==>
            DecimalValue(m.groups[3].value) <= MaxInt && DecimalValue(m.groups[4].value) <= MaxInt)
      && (r.Success? ==>
            && r.value.line == DecimalValue(m.groups[3].value)
            && r.value.columns == Some(ColumnRange(DecimalValue(m.groups[4].value),
                                                   DecimalValue(m.groups[4].value)))
            && r.value.priority == CheckPriority(DigitValue(m.groups[6].value[0]))
            && r.value.message == m.groups[2]
            && r.value.category == m.groups[5])
  {
  }

  /** A six-group match whose whole-match text is `whole` and whose groups
      hold exactly the given fields, numerals in canonical form. The regex is
      not modelled: this says nothing about which report lines the pattern
      would split into these groups. */
  function SixGroupMatch(whole: string, path: Option<string>, message: string, line: nat,
                         column: nat, category: string, severity: nat): (m: Match)
    requires severity <= 9
    requires path.Some? ==> |path.value| > 0 && path.value[0] == '/'
    ensures PerlCriticMatch(m)
  {
    Match(PatternGroupCount,
          [Some(whole), path, Some(message), Some(ToDecimal(line)), Some(ToDecimal(column)),
           Some(category), Some([DigitChar(severity)])])
  }

  /** Extraction from a six-group match holding given fields recovers those
      fields, with the classified severity as priority and a single-column
      range. */
  lemma {:induction false} ExtractionRoundTrip(whole: string, path: Option<string>, message: string,
                                               line: nat, column: nat, category: string,
                                               severity: nat)
    requires severity <= 9
    requires path.Some? ==> |path.value| > 0 && path.value[0] == '/'
    requires line <= MaxInt && column <= MaxInt
    ensures CreateWarning(SixGroupMatch(whole, path, message, line, column, category, severity))
            == Success(Warning(path, line, Some(ColumnRange(column, column)), Some(category),
                               Some(message), CheckPriority(severity)))
  {
    var m := SixGroupMatch(whole, path, message, line, column, category, severity);
    DecimalRoundTrip(line);
    DecimalRoundTrip(column);
    PerlCriticExtraction(m);
  }

  /** The report line below has no `/path:` prefix; with its groups as the
      pattern captures them, the file name stays absent. */
  lemma ModuleRelativeReport()
    ensures CreateWarning(Match(PatternGroupCount,
              [Some("MyModule.pm: 'foo' at line 12, column 4. See page 5. (Severity: 3)"),
               None, Some("MyModule.pm: 'foo'"), Some("12"), Some("4"), Some("5"), Some("3")]))
            == Success(Warning(None, 12, Some(ColumnRange(4, 4)), Some("5"),
                               Some("MyModule.pm: 'foo'"), Normal))
  {
  }
}
