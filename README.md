# yarnlock-rs core, modelled in Dafny

This project models the two parsing modules of yarnlock-rs, a reader for the
`yarn.lock` files written by the Yarn package manager:

- **npm version ranges** (`src/npm_semver.rs`): the nom grammar for npm
  requirement strings such as `">=2.3.4 < 3 || ^4.0.0"`. A bound is an optional
  operator, a major number and optional `.minor` and `.patch` components. A range
  is a lower bound and an optional upper bound. A range list is the quoted,
  `||`-separated list of ranges. The translation of each range into a
  `VersionReq` of the semver library is modelled as well, as a list of predicates.
- **the lock-file block interpreter** (`src/parser.rs`). It takes the tree of
  indentation blocks produced by the tokenizer. It reads each head line
  (`name@req, "name@req":`) into specifiers. It collects the `key "value"`
  properties of a block's children and the entries of its `dependencies:`
  sub-block. Finally it fans them out into one `DependencyLock` record per
  specifier.

Both source files are pure, so both become functions and lemmas. No source file
keeps mutable state.

The nom parsers return a three-way result, `Nom.IResult`: `Done(value, rest)`,
`Error` or `Incomplete`. The third outcome cannot be folded into an option because
it can be observed:

- `opt!` turns `Error` into "absent" but passes `Incomplete` through;
- `alt!` stops at `Incomplete`;
- `complete!` turns it into `Error`.

For example, `semver_range("2")` is `Incomplete`, because the optional second
bound runs out of input.

The modules are:

- `Nom` (nom.dfy): the combinators the grammars use, with their contracts:
  - `ws!` whitespace skipping;
  - `tag!`, `is_not!`, `take_while!(is_alphanumeric)` and `take_till!`;
  - the `ws!(tag!(…))` separator;
  - `alt!` and `complete!`.
- `Iter` (iter.dfy): the iterator adaptors the interpreter chains, namely
  `flat_map`, `filter` and `filter_map`, and their append laws.
- `NpmSemver` (npm_semver.dfy): the grammar and `range2req`/`version_reqs`.
- `NpmSemverText` (npm_semver_text.dfy): a written form for bounds, ranges and
  range lists. It comes with read-back lemmas: every well-laid-out text parses to
  the value it was written from, whatever the whitespace. The module also covers
  the failure and `Incomplete` cases.
- `NpmSemverSamples` (npm_semver_samples.dfy): the unit-test strings of
  `src/npm_semver.rs`, each proved to parse to the expected value.
- `LockParser` (lock_parser.dfy): `split_at_last_at`, `headline_parts`,
  `headline`, `tuple_line`, `read_level2`, `read_dependencies`, `read_block` and
  `parse`.
- `LockParserText` (lock_parser_text.dfy): read-back lemmas for head lines and
  key/value lines.
- `LockParserBlocks` (lock_parser_blocks.dfy): the properties map, the dependency
  map, the fan-out of a block into records, and how `parse` composes over blocks.

## Model

| member | source | states |
|---|---|---|
| NpmSemver.FromStrU64 | src/npm_semver.rs:56-61 | `u64::from_str` on text without a leading `+` succeeds exactly on a non-empty run of digits whose value is below 2^64, and gives that value; it fails on empty text, on a run of digits worth 2^64 or more, and on text containing a letter |
| NpmSemver.TillDot | src/npm_semver.rs:56-61 | `tilldot` never asks for more input; when it succeeds it consumes at least one character and leaves a suffix of its input |
| NpmSemver.FromDot | src/npm_semver.rs:63-73 | `fromdot` succeeds exactly when the input starts with `.`; it returns the alphanumeric run after the dot and stops where that run stops; it is never `Incomplete` (because of `complete!`) |
| NpmSemver.OptDot | src/npm_semver.rs:122-123 | `opt!(fromdot)` leaves a suffix of its input, and reports nothing read exactly when it leaves its input untouched |
| NpmSemver.ParseSemverPrefix | src/npm_semver.rs:75-83 | `semver_prefix` reads one of the seven operator prefixes off the front of its input |
| NpmSemver.PrefixToOp | src/npm_semver.rs:92-104 | `prefix_to_op` gives the exact-match operator for no prefix and for `=`, and never a wildcard |
| NpmSemver.ParseSemverOp | src/npm_semver.rs:85-90 | `semver_op` never fails outright (the prefix is optional); on success it leaves a suffix of its input and never yields a wildcard |
| NpmSemver.ParseSemver | src/npm_semver.rs:116-127 | a parsed bound consumes input, leaves a suffix of it with no leading whitespace; its operator is no wildcard; it has no patch without a minor |
| NpmSemver.ParseSemverRange | src/npm_semver.rs:130-140 | a parsed range consumes input and leaves a suffix of it |
| NpmSemver.ParseBar | src/npm_semver.rs:146 | the `ws!`-wrapped double-bar separator never asks for more input; when it succeeds it consumes input and leaves a suffix of it |
| NpmSemver.MoreRanges | src/npm_semver.rs:146 | the tail of `separated_list_complete!` leaves a suffix of its input |
| NpmSemver.SeparatedRanges | src/npm_semver.rs:146 | `separated_list_complete!` leaves a suffix of its input |
| NpmSemver.ParseSemverRangeList | src/npm_semver.rs:142-148 | a range list parses only when it opens with `"`; what it leaves is a suffix of the input, and the character just before it is the closing `"` |
| NpmSemver.ParseTaggedSemver | src/npm_semver.rs:106-114 | `tagged_semver` consumes everything, and its tag is shorter than the input |
| NpmSemver.ToPredicate | src/npm_semver.rs:25-38 | a minor of `x` makes the predicate a minor wildcard with no minor number; otherwise the operator is kept; absent components stay absent; the major is copied; `pre` is empty |
| NpmSemver.Range2Req | src/npm_semver.rs:21-41 | `range2req` gives one predicate per bound: the lower bound's, then the upper bound's if there is one |
| NpmSemver.RangesToReqs | src/npm_semver.rs:14-17 | one requirement per range, in order |
| NpmSemver.VersionReqs | src/npm_semver.rs:12-19 | `version_reqs` succeeds exactly when `semver_range_list` does and leaves the same rest; its value is `range2req` of each parsed range, in order |
| NpmSemverText.DigitsRoundTrip | src/npm_semver.rs:56-61 | the decimal digits of a number denote that number |
| NpmSemverText.FromStrReadsDigits | src/npm_semver.rs:56-61 | `from_str` reads back every `u64` written in decimal |
| NpmSemverText.PrefixToOpInverse | src/npm_semver.rs:92-104 | every prefix other than `=` maps to a distinct non-exact operator, and writing that operator gives the prefix back |
| NpmSemverText.OpTextInverse | src/npm_semver.rs:92-104 | every non-wildcard operator has a written prefix that `prefix_to_op` maps back to it |
| NpmSemverText.SpIdempotent | src/npm_semver.rs:118 | skipping whitespace twice is the same as skipping it once |
| NpmSemverText.TakeStops | src/npm_semver.rs:51-54 | `take_allowed` returns exactly the leading alphanumeric run |
| NpmSemverText.PrefixReads | src/npm_semver.rs:75-90 | `semver_op` reads each prefix as its operator and leaves the rest, as long as `<` and `>` are not followed by `=` |
| NpmSemverText.LonePrefixIncomplete | src/npm_semver.rs:75-90 | a lone `<` or `>` is `Incomplete`: it could still become `<=` or `>=` |
| NpmSemverText.NoPrefixReads | src/npm_semver.rs:85-90 | text that starts with no operator character is an exact match that consumes nothing |
| NpmSemverText.FromDotReads | src/npm_semver.rs:63-73 | `fromdot` reads a `.` and the alphanumeric component after it |
| NpmSemverText.OptDotNone | src/npm_semver.rs:122-123 | with no `.` after the whitespace, the optional component is absent and only the whitespace is skipped |
| NpmSemverText.OptDotSome | src/npm_semver.rs:122-123 | a `.` and a component are read as that component |
| NpmSemverText.ComponentsRead | src/npm_semver.rs:121-124 | the written minor and patch are read back in turn, and the whitespace after them is skipped |
| NpmSemverText.OperatorRead | src/npm_semver.rs:118-120 | the whitespace, operator text and whitespace in front of a major are read as the bound's operator |
| NpmSemverText.MajorRead | src/npm_semver.rs:121 | a major written in decimal is read as its number, stopping at the components |
| NpmSemverText.MajorOverflows | src/npm_semver.rs:56-61 | a major of 2^64 or more overflows `u64::from_str`, so `tilldot` fails outright |
| NpmSemverText.MajorMissing | src/npm_semver.rs:56-61 | with no digit at the front, `tilldot` reads an empty run and fails outright |
| NpmSemverText.ParseSemverText | src/npm_semver.rs:116-127 | `semver` reads back every written bound whatever whitespace surrounds its operator, then skips the trailing whitespace |
| NpmSemverText.NotABound | src/npm_semver.rs:116-127 | text that starts with neither whitespace, a digit nor an operator character is an outright failure |
| NpmSemverText.EmptyIsIncomplete | src/npm_semver.rs:116-127 | empty input is `Incomplete` |
| NpmSemverText.OneBoundRange | src/npm_semver.rs:130-140 | a bound followed by text that starts no bound is a range without an upper bound |
| NpmSemverText.TwoBoundRange | src/npm_semver.rs:130-140 | two bounds, the second set apart by whitespace or an operator, form a range with both bounds |
| NpmSemverText.ParseSemverRangeText | src/npm_semver.rs:130-140 | `semver_range` reads back every written range |
| NpmSemverText.RangeAtEndIncomplete | src/npm_semver.rs:136 | a range at the very end of the input is `Incomplete`, because the optional upper bound runs out of input |
| NpmSemverText.MoreRangesText | src/npm_semver.rs:146 | after the first range, the double-bar-separated ranges of a written list are read back, up to the closing quote |
| NpmSemverText.SeparatedRangesText | src/npm_semver.rs:146 | the ranges between the quotes of a written list are read back in order, stopping at the closing quote |
| NpmSemverText.ParseSemverRangeListText | src/npm_semver.rs:142-148 | `semver_range_list` reads back every written list, in order, including the empty list `""` |
| NpmSemverText.VersionReqsText | src/npm_semver.rs:12-19 | `version_reqs` on a written list gives `range2req` of each range, in order |
| NpmSemverText.TaggedSemverText | src/npm_semver.rs:106-114 | a bound, `-` and a tag are read as the bound and that tag |
| NpmSemverText.UntaggedSemverText | src/npm_semver.rs:106-114 | without a `-`, the tag is whatever follows the bound's trailing whitespace |
| NpmSemverText.BareSemverIncomplete | src/npm_semver.rs:110 | a bound with nothing after it is `Incomplete`, because `opt!(tag!("-"))` runs out of input |
| NpmSemverText.ToPredicateNumbers | src/npm_semver.rs:31-37 | decimal minor and patch become the same numbers in the predicate, with the operator kept and no pre-release |
| NpmSemverText.ToPredicateWildcard | src/npm_semver.rs:26-29 | a minor of `x` overrides any operator with the minor wildcard |
| NpmSemverSamples.ExactSample | src/npm_semver.rs:162 | `2.3.4` parses to `(Ex, 2, 3, 4)` with nothing left |
| NpmSemverSamples.AtMostSample | src/npm_semver.rs:163 | `<=2.3.4` parses to `(LtEq, 2, 3, 4)` |
| NpmSemverSamples.AtLeastSample | src/npm_semver.rs:164 | `>=2.3.4` parses to `(GtEq, 2, 3, 4)` |
| NpmSemverSamples.EqualsSample | src/npm_semver.rs:165 | `=2.3.4` parses to `(Ex, 2, 3, 4)` |
| NpmSemverSamples.AboveSample | src/npm_semver.rs:166 | `>2.3.4` parses to `(Gt, 2, 3, 4)` |
| NpmSemverSamples.CaretSample | src/npm_semver.rs:167 | `^2.3.4` parses to `(Compatible, 2, 3, 4)` |
| NpmSemverSamples.CaretSpacedSample | src/npm_semver.rs:168 | `^ 2.3.4` parses to `(Compatible, 2, 3, 4)` |
| NpmSemverSamples.TildeSample | src/npm_semver.rs:169 | `~2.3.4` parses to `(Tilde, 2, 3, 4)` |
| NpmSemverSamples.TildeSpacedSample | src/npm_semver.rs:170 | `~ 2.3.4` parses to `(Tilde, 2, 3, 4)` |
| NpmSemverSamples.AtLeastSpacedSample | src/npm_semver.rs:171 | ` >= 2.3.4` parses to `(GtEq, 2, 3, 4)` |
| NpmSemverSamples.AtLeastMinorSample | src/npm_semver.rs:175 | `>= 2.3` parses to `(GtEq, 2, 3, None)` |
| NpmSemverSamples.MinorXSample | src/npm_semver.rs:176 | `2.x` parses to `(Ex, 2, x, None)` |
| NpmSemverSamples.MinorSample | src/npm_semver.rs:178 | `2.3` parses to `(Ex, 2, 3, None)` |
| NpmSemverSamples.MajorSample | src/npm_semver.rs:179 | `2` parses to `(Ex, 2, None, None)` |
| NpmSemverSamples.MinorPaddedSample | src/npm_semver.rs:180 | ` 2.3 ` parses to `(Ex, 2, 3, None)` with nothing left |
| NpmSemverSamples.MajorPaddedSample | src/npm_semver.rs:181 | ` 2 ` parses to `(Ex, 2, None, None)` with nothing left |
| NpmSemverSamples.TaggedSample | src/npm_semver.rs:211-214 | `2.3.4-pre` parses to the bound `(Ex, 2, 3, 4)` and the tag `pre` |
| NpmSemverSamples.LowerUpperMajorSample | src/npm_semver.rs:186-191 | `>=2.3.4 < 3` parses to `(GtEq, 2, 3, 4)` with upper bound `(Lt, 3, None, None)` |
| NpmSemverSamples.LowerUpperMinorSample | src/npm_semver.rs:193-198 | `>=2.3.4 < 3.2` parses to `(GtEq, 2, 3, 4)` with upper bound `(Lt, 3, 2, None)` |
| NpmSemverSamples.LowerUpperTightSample | src/npm_semver.rs:200-201 | `>=2.3.4<3.2.1` parses to `(GtEq, 2, 3, 4)` with upper bound `(Lt, 3, 2, 1)` |
| NpmSemverSamples.LowerUpperSpacedSample | src/npm_semver.rs:203-204 | `>=2.3.4 < 3.2.1` parses to `(GtEq, 2, 3, 4)` with upper bound `(Lt, 3, 2, 1)` |
| NpmSemverSamples.List220Sample | src/npm_semver.rs:220 | `">=2.2.7 <3"` parses to `(GtEq, 2, 2, 7)` with upper bound `(Lt, 3, None, None)`, with nothing left |
| NpmSemverSamples.List221Sample | src/npm_semver.rs:221 | `"^2.0.0 double-bar ^1.1.13"` parses to the ranges `(Compatible, 2, 0, 0)`; `(Compatible, 1, 1, 13)`, with nothing left |
| NpmSemverSamples.List222Sample | src/npm_semver.rs:222 | `"> 1.0.0 < 3.0.0"` parses to `(Gt, 1, 0, 0)` with upper bound `(Lt, 3, 0, 0)`, with nothing left |
| NpmSemverSamples.List223Sample | src/npm_semver.rs:223 | `">=0.3.0 <0.4"` parses to `(GtEq, 0, 3, 0)` with upper bound `(Lt, 0, 4, None)`, with nothing left |
| NpmSemverSamples.List224Sample | src/npm_semver.rs:224 | `"1 double-bar 2"` parses to the ranges `(Ex, 1, None, None)`; `(Ex, 2, None, None)`, with nothing left (also line 229) |
| NpmSemverSamples.List225Sample | src/npm_semver.rs:225 | `">=0.5 0"` parses to `(GtEq, 0, 5, None)` with upper bound `(Ex, 0, None, None)`, with nothing left |
| NpmSemverSamples.List226Sample | src/npm_semver.rs:226 | `"2 double-bar 3"` parses to the ranges `(Ex, 2, None, None)`; `(Ex, 3, None, None)`, with nothing left (also line 231) |
| NpmSemverSamples.List227Sample | src/npm_semver.rs:227 | `">= 1.3.1 < 2"` parses to `(GtEq, 1, 3, 1)` with upper bound `(Lt, 2, None, None)`, with nothing left |
| NpmSemverSamples.List228Sample | src/npm_semver.rs:228 | `"^4.0.0 double-bar ^5.0.0"` parses to the ranges `(Compatible, 4, 0, 0)`; `(Compatible, 5, 0, 0)`, with nothing left |
| NpmSemverSamples.List230Sample | src/npm_semver.rs:230 | `"2.x double-bar 3.x double-bar 4 double-bar 5"` parses to the ranges `(Ex, 2, x, None)`; `(Ex, 3, x, None)`; `(Ex, 4, None, None)`; `(Ex, 5, None, None)`, with nothing left |
| NpmSemverSamples.List232Sample | src/npm_semver.rs:232 | `"0 double-bar 1 double-bar 2 double-bar 3 double-bar 4"` parses to the ranges `(Ex, 0, None, None)`; `(Ex, 1, None, None)`; `(Ex, 2, None, None)`; `(Ex, 3, None, None)`; `(Ex, 4, None, None)`, with nothing left |
| NpmSemverSamples.List233Sample | src/npm_semver.rs:233 | `"2 double-bar 3 double-bar 4 double-bar 5"` parses to the ranges `(Ex, 2, None, None)`; `(Ex, 3, None, None)`; `(Ex, 4, None, None)`; `(Ex, 5, None, None)`, with nothing left (also line 242) |
| NpmSemverSamples.List234Sample | src/npm_semver.rs:234 | `"^2.3.0 double-bar 3.x double-bar 4 double-bar 5"` parses to the ranges `(Compatible, 2, 3, 0)`; `(Ex, 3, x, None)`; `(Ex, 4, None, None)`; `(Ex, 5, None, None)`, with nothing left |
| NpmSemverSamples.List235Sample | src/npm_semver.rs:235 | `"~1.0.1 double-bar ^2.0.0"` parses to the ranges `(Tilde, 1, 0, 1)`; `(Compatible, 2, 0, 0)`, with nothing left |
| NpmSemverSamples.List236Sample | src/npm_semver.rs:236 | `"^3.0.0 double-bar ^4.0.0 double-bar ^5.0.0"` parses to the ranges `(Compatible, 3, 0, 0)`; `(Compatible, 4, 0, 0)`; `(Compatible, 5, 0, 0)`, with nothing left |
| NpmSemverSamples.List237Sample | src/npm_semver.rs:237 | `"2 >=2.2.1 double-bar 3.x double-bar 4 double-bar 5"` parses to the ranges `(Ex, 2, None, None)` with upper bound `(GtEq, 2, 2, 1)`; `(Ex, 3, x, None)`; `(Ex, 4, None, None)`; `(Ex, 5, None, None)`, with nothing left |
| NpmSemverSamples.List238Sample | src/npm_semver.rs:238 | `"2 double-bar 3 double-bar 4"` parses to the ranges `(Ex, 2, None, None)`; `(Ex, 3, None, None)`; `(Ex, 4, None, None)`, with nothing left |
| NpmSemverSamples.List239Sample | src/npm_semver.rs:239 | `">= 0.0.5 < 1"` parses to `(GtEq, 0, 0, 5)` with upper bound `(Lt, 1, None, None)`, with nothing left |
| NpmSemverSamples.List240Sample | src/npm_semver.rs:240 | `">= 1.0.2 < 2"` parses to `(GtEq, 1, 0, 2)` with upper bound `(Lt, 2, None, None)`, with nothing left |
| NpmSemverSamples.List241Sample | src/npm_semver.rs:241 | `">= 1.0.0 < 2"` parses to `(GtEq, 1, 0, 0)` with upper bound `(Lt, 2, None, None)`, with nothing left |
| NpmSemverSamples.List243Sample | src/npm_semver.rs:243 | `">=0.10.3 <1"` parses to `(GtEq, 0, 10, 3)` with upper bound `(Lt, 1, None, None)`, with nothing left |
| NpmSemverSamples.List244Sample | src/npm_semver.rs:244 | `">= 3.1.0 < 4"` parses to `(GtEq, 3, 1, 0)` with upper bound `(Lt, 4, None, None)`, with nothing left |
| NpmSemverSamples.List245Sample | src/npm_semver.rs:245 | `">= 0.3.0 < 1"` parses to `(GtEq, 0, 3, 0)` with upper bound `(Lt, 1, None, None)`, with nothing left |
| NpmSemverSamples.List246Sample | src/npm_semver.rs:246 | `">= 0.1.30 < 1"` parses to `(GtEq, 0, 1, 30)` with upper bound `(Lt, 1, None, None)`, with nothing left |
| NpmSemverSamples.List247Sample | src/npm_semver.rs:247 | `">= 0.0.2 < 1"` parses to `(GtEq, 0, 0, 2)` with upper bound `(Lt, 1, None, None)`, with nothing left |
| NpmSemverSamples.List248Sample | src/npm_semver.rs:248 | `">= 0.4.1 < 1"` parses to `(GtEq, 0, 4, 1)` with upper bound `(Lt, 1, None, None)`, with nothing left |
| NpmSemverSamples.List249Sample | src/npm_semver.rs:249 | `">= 1.0.1 < 2"` parses to `(GtEq, 1, 0, 1)` with upper bound `(Lt, 2, None, None)`, with nothing left |
| Nom.Complete | src/npm_semver.rs:65-72 | `complete!` turns `Incomplete` into `Error` and leaves a success unchanged |
| Nom.OrElse | src/npm_semver.rs:77-81 | `alt!` tries the next parser only after an outright failure |
| Nom.Sp | src/npm_semver.rs:118 | the whitespace skip of `ws!` never grows the input and leaves no leading whitespace |
| Nom.SpSkips | src/npm_semver.rs:118 | a run of whitespace in front of a non-space is skipped entirely |
| Nom.TakeAlphanumeric | src/npm_semver.rs:51-54 | `take_while!(is_alphanumeric)` always succeeds; it splits its input into the longest alphanumeric prefix and the rest |
| Nom.Tag | src/npm_semver.rs:67 | `tag!` succeeds exactly on input starting with the tag, and is `Incomplete` exactly on a proper prefix of the tag |
| Nom.IsNot | src/parser.rs:94 | `is_not!` fails exactly on input starting with a stop character; otherwise it returns the longest stop-free prefix |
| Nom.SeparatorTag | src/parser.rs:91 | `ws!(tag!(…))` succeeds exactly when the tag follows the whitespace, skips the whitespace after it, and leaves a suffix of its input |
| Nom.StopSpan | src/parser.rs:78 | the length of the longest prefix free of the stop characters |
| LockParser.LastAt | src/parser.rs:84-87 | the position of the last `@`, or none when there is no `@` |
| LockParser.SplitAtLastAt | src/parser.rs:84-87 | `split_at_last_at` gives the text after the last `@` and the text before it, which joined with `@` are the input; without an `@` it gives the whole text and nothing |
| LockParser.Quoted | src/parser.rs:95 | a quoted run is a non-empty stop-free text between two `"` |
| LockParser.Specifier | src/parser.rs:93-96 | a specifier always has a requirement part |
| LockParser.MoreSpecifiers | src/parser.rs:90-91 | every further specifier has a requirement part |
| LockParser.HeadlineParts | src/parser.rs:89-100 | `headline_parts` is never `Incomplete`, and every specifier it reads has a requirement part |
| LockParser.LineEnding | src/parser.rs:79 | `line_ending` reads `\n` or `\r\n` |
| LockParser.Headline | src/parser.rs:76-82 | `headline` succeeds exactly when there is a `:`; it returns the text before the first `:` and leaves the `:` in place |
| LockParser.TupleLine | src/parser.rs:106-113 | a key/value line gives a non-empty value free of `,` and `"`, and it skips the trailing whitespace |
| Iter.FlatMap | src/parser.rs:11 | every element `flat_map` yields is in the piece of some input element |
| Iter.Filter | src/parser.rs:12 | `filter` keeps only elements that pass, and keeps every element that passes |
| Iter.FilterMap | src/parser.rs:13-21 | `filter_map` yields at most one value per element, and each value is what the closure gives some element |
| LockParser.CollectMap | src/parser.rs:23 | every key of the collected map comes from some pair |
| LockParser.PairOf | src/parser.rs:14-22 | the pair of a line is present exactly when `tuple_line` reads the line |
| LockParser.ReadLevel2 | src/parser.rs:8-23 | every key of `read_level2` comes from an own line of a direct child that does not start with `dependencies` and that `tuple_line` reads |
| LockParser.ReadDependencies | src/parser.rs:26-44 | without a dependency sub-block the dependencies are empty |
| LockParser.HeadSpecsComplete | src/parser.rs:55-60 | every specifier of head lines that can be unwrapped has both a name and a requirement |
| LockParser.Records | src/parser.rs:54-64 | one record per specifier, in order, each with that specifier's name and requirement and the shared maps |
| LockParser.ReadBlock | src/parser.rs:46-66 | `read_block` gives one record per head specifier, in order; every record has the properties `read_level2` and the dependencies `read_dependencies` computes from the block's children |
| LockParser.ReadBlocks | src/parser.rs:69 | every record of `parse` comes from `read_block` of one of the blocks |
| LockParser.Parse | src/parser.rs:68-70 | `parse` passes a tokenizer error through unchanged; otherwise it gives the records of every block |
| LockParserText.LastAtIs | src/parser.rs:84-87 | a `@` with no `@` after it is the last one |
| LockParserText.SplitJoin | src/parser.rs:84-87 | joining a name and an `@`-free requirement with `@` is undone by `split_at_last_at` |
| LockParserText.ScopedSplit | src/parser.rs:84-87 | a scoped name such as `@scope/pkg@^1.2.3` keeps its leading `@` |
| LockParserText.StopSpanStops | src/parser.rs:78 | the stop-free span ends exactly at the first stop character |
| LockParserText.IsNotStops | src/parser.rs:94 | `is_not!` reads a stop-free run up to the first stop character |
| LockParserText.QuotedReads | src/parser.rs:95 | `"text"` is read as `text` |
| LockParserText.HeadlinePartsFailsOnlyWhenEmpty | src/parser.rs:89-100 | a head line fails outright exactly when it is empty |
| LockParserText.SpecifierReads | src/parser.rs:92-97 | a written `name@req`, bare or quoted, is read back split into requirement and name |
| LockParserText.MoreSpecifiersText | src/parser.rs:90-91 | after the first specifier, the comma-separated specifiers of a written head line are read back, up to the line's end or its `:` |
| LockParserText.HeadlinePartsText | src/parser.rs:89-100 | `headline_parts` reads back every written head line, one specifier per entry, in order |
| LockParserText.TupleValueReads | src/parser.rs:111 | a quoted value is read and the trailing whitespace skipped |
| LockParserText.TupleLineBare | src/parser.rs:106-113 | `key "value"` with a bare key is read as `(key, value)` with nothing left |
| LockParserText.TupleLineQuoted | src/parser.rs:106-113 | `"key" "value"` is read as `(key, value)`, and the space between them is optional |
| LockParserText.WindowSizeBare | src/parser.rs:106-113 | `window-size "0.1.0"` gives `("window-size", "0.1.0")` |
| LockParserText.WindowSizeQuoted | src/parser.rs:106-113 | `"window-size" "0.1.0"` gives the same pair |
| LockParserText.TupleLineWithoutValue | src/parser.rs:106-113 | a line with a key and no value, such as `dependencies:`, is `Incomplete` |
| LockParserBlocks.CollectMapKeys | src/parser.rs:23 | the map's keys are exactly the keys of the pairs |
| LockParserBlocks.CollectMapLastWins | src/parser.rs:23 | a key keeps the value of its last pair |
| LockParserBlocks.CollectMapAppend | src/parser.rs:23 | collecting two runs of pairs one after the other: the later run overrides the earlier one |
| LockParserBlocks.PairsOfProperties | src/parser.rs:9-24 | the pairs collected are exactly those of the children's own lines that do not start with `dependencies` and that `tuple_line` reads |
| LockParserBlocks.ReadLevel2Keys | src/parser.rs:9-24 | `read_level2` has a key exactly when some own line of a direct child gives it |
| LockParserBlocks.ReadLevel2Append | src/parser.rs:9-24 | the properties of later children override those of earlier children |
| LockParserBlocks.ReadLevel2LaterLineWins | src/parser.rs:9-24 | within a child, a later line with the same key wins |
| LockParserBlocks.ReadLevel2OwnLines | src/parser.rs:12 | only the children's own lines matter; anything nested below them is ignored |
| LockParserBlocks.NoDependencySection | src/parser.rs:26-44 | without a `dependencies` child that has a sub-block, the dependencies are empty |
| LockParserBlocks.FirstDependencyBlock | src/parser.rs:27-30 | the block read is the first sub-block of the first `dependencies` child that has one |
| LockParserBlocks.ReadDependenciesFirst | src/parser.rs:26-44 | the dependencies are the pairs on the lines of that first sub-block |
| LockParserBlocks.HeadsReadableAppend | src/parser.rs:55 | head lines that can be unwrapped stay so when joined |
| LockParserBlocks.HeadSpecsAppend | src/parser.rs:50-56 | the specifiers of two runs of head lines are those of the first run followed by those of the second |
| LockParserBlocks.ReadBlockHeadLines | src/parser.rs:46-66 | the records of a block follow its head lines: two runs of head lines give their records one after the other |
| LockParserBlocks.RecordsAppend | src/parser.rs:56-63 | the records of two runs of specifiers are the first run's followed by the second's |
| LockParserBlocks.ReadBlockSkipsComment | src/parser.rs:53 | a head line starting with `#` produces no record |
| LockParserBlocks.OneHeadLine | src/parser.rs:54-56 | a head line that is no comment contributes exactly the specifiers `headline_parts` reads from it |
| LockParserBlocks.WrittenHeadLine | src/parser.rs:54-56 | a written head line contributes the specifiers it was written from |
| LockParserBlocks.ReadBlockFansOut | src/parser.rs:46-66 | a written head line fans out into one record per specifier, in order, each with its own name and requirement; all share the block's properties and dependencies |
| LockParserBlocks.ReadBlocksAppend | src/parser.rs:69 | the records of a run of blocks are those of the first blocks followed by those of the rest |
| LockParserBlocks.ReadBlocksOne | src/parser.rs:69 | a single block gives exactly its own records |
| LockParserBlocks.ParseAppend | src/parser.rs:68-70 | the records of two concatenated block lists are those of each list, in order |
| LockParserBlocks.ParseOneBlock | src/parser.rs:68-70 | a file of one block gives exactly that block's records |

## Left out

- Reading the file (`open` in `src/lib.rs`) and the example program are I/O and are not modelled. The tokenizer (`indent_tokenizer::tokenize`) is an outside crate. Its output, a tree of blocks, is the input of `LockParser.Parse`, which is generic over the tokenizer's error type.
- `src/error.rs` (error wrapping) and the `log` calls are not modelled.
- The record type follows the one `src/parser.rs` builds: name, requirement text, a property map and a dependency map. `src/lib.rs` declares a different struct (typed version, URL and requirements); converting to it is not part of this model.
- The `.into()` conversion from the semver-parser `VersionReq` into `semver::VersionReq`, and that library's own checks, are not modelled. `NpmSemver.VersionReqs` stops at the list of predicates.
- Input is modelled as characters rather than bytes. Every cut the grammars make is at an ASCII delimiter, so `from_utf8` on a slice of valid UTF-8 never fails and is left out.
- `LockParser.ReadBlock`: the `.unwrap()` calls of `read_block` panic on a head line that `headline_parts` cannot read, or on a specifier without `@`. The model requires that neither happens (`HeadsReadable`). It does not model the panic.
- `NpmSemver.ToPredicate`: the code treats only a lowercase `x` minor as a wildcard. An `X` minor (or an `x` patch) gives a missing number with the operator kept, and the model follows the code.
- `NpmSemver.ParseSemverRangeList` accepts the empty list `""`, as the code does.
- `LockParser.Headline`: `opt!(line_ending)` runs right after `take_till ':'`, so it can never match. The `:` therefore stays in the rest, as in the code. `headline` is not called by `read_block`.
- Whitespace before a comma on a head line is part of a bare specifier, because `is_not!(":,\"")` does not stop at a space. The read-back lemmas write head lines without it.
- `LockParserText.TupleLineWithoutValue` covers only value-less lines with no trailing whitespace.
- The range-list test of `src/npm_semver.rs` (lines 218-254) unwraps every result, so it requires each quoted list to parse. Each distinct string is a lemma `NpmSemverSamples.List<line>Sample` stating the ranges it parses to; none is left out. The unwrapped values are printed, not compared, so the expected ranges are those the strings denote.
