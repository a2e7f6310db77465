# Perl::Critic warning extraction, in Dafny

This project models the Perl::Critic parser of the warnings plug-in
(`PerlCriticParser`). The parser turns one Perl::Critic report line into a
warning record. It has two pure pieces, both modelled here:

- `checkPriority`: a step function from a Perl::Critic severity to the
  priorities LOW, NORMAL and HIGH, with thresholds at 2 and 4.
- `createWarning(Matcher)`: it reads the capture groups of one match of the
  Perl::Critic pattern. It picks a group offset from the pattern's group
  count, takes the file name, message, category, line, column and severity,
  classifies the severity and builds a record with a single-column range.

The regex engine is abstracted. A match (`Regex.Match`) carries the pattern's
group count and the optional captured strings, where index 0 is the whole
match and `None` is a group that did not take part. `PerlCritic.PerlCriticMatch`
holds the facts the pattern text guarantees: six groups, a path group that
starts with `/` when present, digit-only line and column, and a one-digit
severity. Java's `null` is `None`. An exception that escapes `createWarning` is
a `Failure`: `IndexOutOfBoundsException` from `Matcher.group` or
`NumberFormatException` from `Integer.parseInt`. `Integer.parseInt` is modelled
with its optional sign and its 32-bit range check (`JavaLang.ParseInt`).

Modules: `Wrappers` (Option, Result), `Decimal` (digit strings and their
values), `JavaLang` (exceptions, `int` range, `parseInt`/`toString`), `Regex`
(abstract match, `Matcher.group`), `Warnings` (priority and warning record),
`PerlCritic` (the parser itself and its properties).

The code's `"-"` file-name default (PerlCriticParser.java:23) is never used.
The pattern has exactly six capturing groups, so the test `groupCount() == 6`
at line 25 always holds and the offset is always 1. A report line without a
leading `/path:` therefore yields an absent (null) file name, not `"-"`.
`PerlCritic.PerlCriticFileName` and `PerlCritic.ModuleRelativeReport` state
this.

## Model

| member | source | states |
|---|---|---|
| PerlCritic.CheckPriority | src/main/java/hudson/plugins/warnings/parser/PerlCriticParser.java:48-58 | The result is LOW exactly when severity < 2, NORMAL exactly when 2 <= severity < 4, HIGH exactly when severity >= 4, for every integer |
| PerlCritic.CheckPriorityMonotone | src/main/java/hudson/plugins/warnings/parser/PerlCriticParser.java:48-58 | A larger severity never gives a lower priority (LOW < NORMAL < HIGH) |
| PerlCritic.CheckPriorityOnto | src/main/java/hudson/plugins/warnings/parser/PerlCriticParser.java:48-58 | Each of the three priorities is produced by some severity digit 0..9 |
| PerlCritic.CreateWarning | src/main/java/hudson/plugins/warnings/parser/PerlCriticParser.java:21-39 | Any record produced has a single-column range (start == end, so start <= end) and line and column in the 32-bit `int` range; with six groups the only possible failure is a number-format error |
| PerlCritic.ShiftedBranch | src/main/java/hudson/plugins/warnings/parser/PerlCriticParser.java:25-38 | With group count 6: file name = group 1, message = group 2, line = group 3, column = group 4, category = group 5, severity = group 6; success exactly when the three numerals parse; the record holds nothing else |
| PerlCritic.UnshiftedBranch | src/main/java/hudson/plugins/warnings/parser/PerlCriticParser.java:22-38 | With any other group count: file name "-", fields from unshifted groups 1..5; fewer than five groups always fails |
| PerlCritic.PerlCriticFileName | src/main/java/hudson/plugins/warnings/parser/PerlCriticParser.java:17-28 | On a match of the Perl::Critic pattern the file name is exactly the path group: absent when no path prefix matched, and never "-" |
| PerlCritic.PerlCriticExtraction | src/main/java/hudson/plugins/warnings/parser/PerlCriticParser.java:17-37 | On a match of the pattern, extraction succeeds exactly when line and column fit in an `int`; line and column are the decimal values of their digit captures, and the priority is the classification of a severity digit 0..9 |
| PerlCritic.SixGroupMatch | src/main/java/hudson/plugins/warnings/parser/PerlCriticParser.java:17 | A six-group match whose groups hold given fields (path starting with `/` or absent, canonical numerals, one severity digit) meets every group guarantee of the pattern |
| PerlCritic.ExtractionRoundTrip | src/main/java/hudson/plugins/warnings/parser/PerlCriticParser.java:21-38 | Extracting a six-group match whose groups hold a given path, message, line, column, category and severity returns exactly those fields, the classified severity and a single-column range |
| PerlCritic.ModuleRelativeReport | src/main/java/hudson/plugins/warnings/parser/PerlCriticParser.java:21-38 | The report `MyModule.pm: 'foo' at line 12, column 4. See page 5. (Severity: 3)` yields line 12, column 4..4, category "5", priority NORMAL and an absent file name |
| JavaLang.ParseInt | src/main/java/hudson/plugins/warnings/parser/PerlCriticParser.java:32-34 | `Integer.parseInt`: fails with a number-format error on null, empty, sign-only, non-digit or out-of-range text; an unsigned, `+`-signed or `-`-signed digit string parses to its signed decimal value exactly when that value fits in an `int` |
| JavaLang.ParseIntToStringRoundTrip | src/main/java/hudson/plugins/warnings/parser/PerlCriticParser.java:32-34 | Parsing the printed form of any `int` gives back that `int` |
| JavaLang.ToStringParseIntRoundTrip | src/main/java/hudson/plugins/warnings/parser/PerlCriticParser.java:32-34 | A digit capture with no leading zero that parses is the printed form of its value |
| Decimal.DecimalValue | src/main/java/hudson/plugins/warnings/parser/PerlCriticParser.java:32-34 | The value of a digit capture of length k is below 10^k (so a one-digit severity is at most 9) |
| Decimal.DecimalRoundTrip | src/main/java/hudson/plugins/warnings/parser/PerlCriticParser.java:32-33 | Reading back the canonical numeral of n gives n |
| Decimal.CanonicalRoundTrip | src/main/java/hudson/plugins/warnings/parser/PerlCriticParser.java:32-33 | Every digit string without a leading zero is the canonical numeral of its value |

## Left out

- The regex engine: the meaning of the pattern text (lazy and greedy groups, optional groups) is not modelled. A match is a given list of captures. Only the group count and the digit-only and leading-`/` facts are kept, in `PerlCritic.PerlCriticMatch`.
- The constructor and plug-in registration (message-catalog name, link and trend labels, the `@Extension` annotation, and the boolean `true` passed to the `RegexpLineParser` constructor, whose meaning lies in the superclass, which is not part of this model): they are configuration with no logic to verify.
- The scanning superclass `RegexpLineParser` and the parse loop over a log stream are not part of this model. Only `createWarning(Matcher)` is, and it handles one match.
- The superclass `createWarning(filename, line, …)` and `Warning.setColumnPosition` are not part of this model. They are replaced by a plain record built in two phases (`Warnings.NewWarning`, `Warnings.SetColumnPosition`). The record has no parser-type tag and no last line, and any normalisation the superclass might apply to a null file name is not modelled.
- JavaLang.ParseInt: accepts only the ASCII digits 0-9. Java's `parseInt` also accepts other Unicode decimal digits. The pattern's `\d` captures only ASCII digits, so this difference cannot be reached from `createWarning`.
- PerlCritic.SixGroupMatch: it is not derived from the pattern's semantics. It builds a match from given groups and does not say which report line the pattern would split into them. For some fields the pattern splits the rendered line differently, e.g. a path containing ':' or a category beginning "See page".
- JavacParserTest tests JavacParser, which is not part of this model.
- Reading the log (readers, streams, files) is I/O and is left out.
