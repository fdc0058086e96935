# choppo, modelled in Dafny

choppo is a small live-visuals timing language. Its text names video files and beat patterns, and combines them into clips. The program has three stages, and this project models all three.

- **Parser.** `src/parser.rs` and `src/parser/beats_parser.rs` are nom combinator parsers. They turn the source into beat and clip expression trees. A binary operator (`|`, `:`, `*`, `[`) is found by splitting at its first occurrence, and the left slice must parse completely.
- **Reducer.** `src/reducer.rs` and `src/util.rs` turn the trees into one list of time-stamped play commands and a total length, using exact rational time. Chaining shifts the right clip by the left one's length. Truncation cuts a clip and carries a start offset into the commands it cuts into. Apply-beat inserts `MultiNext` cues and sorts them stably. References are memoized.
- **Scheduler.** `src/interpreter.rs` is the layered per-tick scheduler, and `src/video_runner.rs` is its single-layer predecessor. Each one:
  - walks the command list against an advancing beat position;
  - reports a frame instruction per layer;
  - advances its frame counters;
  - wraps at the end of the loop.

## Modules

- `wrappers.dfy` (`Wrappers`): an `Option` type.
- `text.dfy` (`Text`): character classes and decimal numerals.
- `ast.dfy` (`Ast`): the expression trees.
- `combinators.dfy` (`Combinators`): the nom primitives over `seq<char>`. Every parser returns the unconsumed rest, which is always a suffix of its input; failure is `None`.
- `beats_parser.dfy` (`BeatsParser`) and `parser.dfy` (`Parser`): the parsers, as pure functions.
- `time.dfy` (`TimeAlgebra`): `Time` (an `int` numerator over a positive denominator), the `fraction` crate's reduced fractions, and the conversions of `util.rs`.
- `sorting.dfy` (`Sorting`): the stable sort by key. It is an insertion-sort function, plus an in-place array method proved equal to it.
- `reducer.dfy` (`Reducer`): the reducer, in two layers:
  - recursive functions over the trees, with the memo maps threaded through;
  - beside them, array methods for the loops that `reducer.rs` runs in place (the shift, the truncation loop, `retain`, and `append` + `sort_by_key`), each proved equal to the function the recursion uses.
- `schedule.dfy` (`Schedule`): what both schedulers share:
  - the `'find_command` cursor;
  - the float-to-`usize` frame cast;
  - the loop wrap.
- `interpreter.dfy` (`Interpretation`): the class `Interpreter`, with the fields of the Rust struct. `display_state` is a `seq` field, which the methods reassign.
- `video_runner.dfy` (`Runner`): the class `VideoRunner`.

## Model

| member | source | states |
|---|---|---|
| Text.DigitChar | src/parser.rs:394-396 | the digit character of a value 0–9 is a digit and reads back as that value |
| Text.DecimalString | src/interpreter.rs:142 | the `{}` rendering of a number is a non-empty digit string with no leading zero |
| Text.DecimalRoundTrip | src/interpreter.rs:142 | reading the rendering of a number as a decimal gives the number back |
| Combinators.SkipSpace | src/parser.rs:155-169 | `multispace0` leaves a suffix of the input that does not start with whitespace |
| Combinators.SkipSpaceDropsSpaces | src/parser.rs:155-169 | everything `multispace0` drops is whitespace |
| Combinators.Tag | src/parser.rs:75-86 | `tag` succeeds exactly when the input starts with the token, and then returns what follows it |
| Combinators.Symbol | src/parser.rs:20-40 | whitespace, token, whitespace: succeeds exactly when the token follows the leading whitespace, and consumes at least one character |
| Combinators.FirstIndex | src/parser.rs:296-315 | the index of the first occurrence of a character, or the length when it does not occur |
| Combinators.TakeUntil | src/parser.rs:75-86 | `take_until` fails exactly when the character is absent; otherwise it splits the input in front of the first occurrence |
| Combinators.Span | src/parser.rs:391-407 | the longest prefix whose characters all satisfy the class |
| Combinators.Digits1 | src/parser.rs:391-407 | `digit1` plus `parse::<usize>` succeeds exactly on a leading digit run whose value fits in a `usize`, and returns that value and the rest |
| Combinators.OneDigit | src/parser.rs:277-280 | exactly one ASCII digit is consumed, and its value is at most 9 |
| Combinators.Word1 | src/parser/beats_parser.rs:107-116 | `alpha1` / `alphanumeric1`: a non-empty maximal run of the class, succeeding exactly when the first character is in the class |
| Combinators.QuotedWith | src/parser.rs:451-464 | a quote, the text up to the next quote of the same kind, and that quote; the text is quote-free |
| Combinators.QuotedRoundTrip | src/parser.rs:451-464 | a quoted name, with `'` or `"`, reads back as the name and the rest |
| Combinators.QuoteSplit | src/parser.rs:451-464 | a quoted text splits into name and rest in only one way |
| BeatsParser.ParseDotSymbol | src/parser/beats_parser.rs:51-55 | `.` is an onset and `-` a rest; no other character is accepted |
| BeatsParser.DotRun | src/parser/beats_parser.rs:43-49 | the run of dot symbols that `many1` takes is the maximal one, one flag per symbol; the non-empty check is in ParseDotBeats |
| BeatsParser.ParseDotBeats | src/parser/beats_parser.rs:43-49 | a dot pattern succeeds exactly when a dot symbol follows the leading whitespace, and it is non-empty |
| BeatsParser.ParseDotBeat | src/parser/beats_parser.rs:32-41 | a dot beat expression holds a non-empty pattern |
| BeatsParser.ParseNumberSymbol | src/parser/beats_parser.rs:76-84 | a number element succeeds exactly when an ASCII digit (0 included) follows the leading whitespace; its value is that digit's and the rest is the text after it |
| BeatsParser.NumberRun | src/parser/beats_parser.rs:68-74 | every count of the run is a single digit |
| BeatsParser.ParseNumberBeats | src/parser/beats_parser.rs:68-74 | a number pattern is non-empty and every count is at most 9 |
| BeatsParser.ParseNumberBeat | src/parser/beats_parser.rs:57-66 | a number beat expression holds a non-empty list of single-digit counts |
| BeatsParser.ParseReferenceBeat | src/parser/beats_parser.rs:107-116 | a beat reference is a non-empty name of ASCII letters and digits |
| BeatsParser.ParseBeat | src/parser/beats_parser.rs:20-30 | the beat alternatives leave a suffix of the input; the alternative-order lemmas below give the result |
| BeatsParser.ParseBeatChain | src/parser/beats_parser.rs:118-138 | the text before the first bar character parses as one whole beat (the left operand); the right operand is the beat parsed after the bar and its whitespace, and the rest is what that parse leaves |
| BeatsParser.ParseBarThenBeat | src/parser/beats_parser.rs:125-128 | after a bar, the beat is the one parsed after the bar and its whitespace, and something is consumed |
| BeatsParser.NoBarNoChain | src/parser/beats_parser.rs:118-138 | text without a bar character never parses as a chain |
| BeatsParser.ChainsNestRight | src/parser/beats_parser.rs:118-138 | the left operand of a parsed beat chain is never itself a chain |
| BeatsParser.BeatChainRoundTrip | src/parser/beats_parser.rs:118-138 | two dot words around a bar character read back as the chain of the two dot patterns, consuming everything |
| BeatsParser.NoBeatBeforeBar | src/parser/beats_parser.rs:20-138 | a text whose first character after the leading whitespace is no dot symbol, no letter or digit and no bar parses as no beat, even with a bar character further on |
| BeatsParser.DigitValues | src/parser/beats_parser.rs:76-84 | one count per digit, in order |
| BeatsParser.DigitAt | src/parser/beats_parser.rs:76-84 | a digit at the front is one number element, with the rest after it |
| BeatsParser.DigitValuesCons | src/parser/beats_parser.rs:68-84 | the counts of a digit word are the first digit's value followed by the counts of the rest |
| BeatsParser.NumberRunOfDigits | src/parser/beats_parser.rs:68-84 | an all-digit text is consumed entirely, as its digit values |
| BeatsParser.DigitsParseAsNumbers | src/parser/beats_parser.rs:20-30 | an all-digit word parses as a number pattern, never as a reference, because number is tried first |
| BeatsParser.DigitsNotDots | src/parser/beats_parser.rs:32-55 | text starting with a digit is no dot pattern |
| BeatsParser.NumberAlternative | src/parser/beats_parser.rs:57-84 | the number alternative reads a word of digits whole, one count per digit |
| BeatsParser.DotFlags | src/parser/beats_parser.rs:51-55 | one flag per symbol, true exactly for `.` |
| BeatsParser.DotsParseAsFlags | src/parser/beats_parser.rs:20-49 | a word of `.` and `-` parses as the dot pattern of its flags |
| BeatsParser.DotAlternative | src/parser/beats_parser.rs:32-49 | the dot alternative reads a word of dot symbols as its flags |
| BeatsParser.DotRunThen | src/parser/beats_parser.rs:43-55 | a run of dot symbols followed by something else is read up to where it ends, one flag per symbol |
| BeatsParser.DotBeatThen | src/parser/beats_parser.rs:20-55 | a dot word followed by text with no bar that does not go on with a dot symbol parses as its flags and stops there |
| BeatsParser.NameParsesAsReference | src/parser/beats_parser.rs:20-30 | a name starting with a letter parses as a reference to itself |
| BeatsParser.NotDotNorNumber | src/parser/beats_parser.rs:32-84 | text starting with a letter is neither a dot nor a number pattern |
| BeatsParser.ReferenceAlternative | src/parser/beats_parser.rs:107-116 | the reference alternative reads an alphanumeric name whole |
| BeatsParser.NoBeatAt | src/parser/beats_parser.rs:20-30 | text without a bar character whose first non-blank character begins no alternative parses as no beat |
| Parser.Opt | src/parser.rs:372-383 | `opt`: a failure gives no value and consumes nothing |
| Parser.ZeroBased | src/parser.rs:403-404 | `(n as isize - 1).max(0) as usize` is n − 1 for 1 ≤ n ≤ 2^63, and 0 for 0 and for values past the `isize` range |
| Parser.ParseSixteenth | src/parser.rs:409-417 | `.` then a `usize` number; the rest is a suffix |
| Parser.ParseTime | src/parser.rs:391-407 | a time literal leaves a suffix of the input |
| Parser.ParseTimeRange | src/parser.rs:372-383 | a time range starts with `[` and consumes at least that |
| Parser.ParseRangeEnd | src/parser.rs:372-383 | `:`, an optional end and `]` consume at least one character |
| Parser.ParseClip | src/parser.rs:155-169 | the alternatives in order: a chain result is the chain parser's and a layer result the layer parser's (ClipResultOrigin gives every other shape) |
| Parser.ParseBeatThenClip | src/parser.rs:185-224 | the beat is the beat parsed after the leading whitespace, the token follows it, the clip is the clip parsed after the token, and the rest is what that clip leaves, without its leading whitespace |
| Parser.ParseApplyBeat | src/parser.rs:208-224 | `beat @ clip`: an apply-beat node whose beat is the one read first and whose clip is the clip read after `@` |
| Parser.ParseRestart | src/parser.rs:185-201 | `beat >> clip`: a restart node whose beat is the one read first and whose clip is the clip read after `>>` |
| Parser.ParseSplit | src/parser.rs:296-341 | the text before the first delimiter parses as one whole clip (the left operand); the right operand is the clip read after the delimiter, and the rest is what it leaves |
| Parser.ParseClipChain | src/parser.rs:296-315 | `a`, bar, `b`: a chain whose left operand is the whole text before the first bar character |
| Parser.ParseLayer | src/parser.rs:322-341 | `a : b`: a layer whose left operand is the whole text before the first `:` |
| Parser.ParseLoop | src/parser.rs:267-289 | `clip * d`: the clip before the first `*` read whole, and exactly one digit of repetitions |
| Parser.ParseTruncated | src/parser.rs:348-365 | fails unless the input contains `[`; the clip is the parse of the text before the first `[`, whatever that parse leaves over, and the range is the time range read from the `[` on |
| Parser.ParseParentheses | src/parser.rs:246-260 | `(`, then the clip read after it, then `)` right after that clip: a parentheses node around that clip |
| Parser.ParseMultiVideo | src/parser.rs:424-446 | `multi`, then the count is the `usize` number read after it and the file name the quoted name after that count |
| Parser.ParseRawVideo | src/parser.rs:451-464 | a quoted name builds a raw video |
| Parser.ParseReferenceClip | src/parser.rs:231-240 | the name is the maximal non-empty run of ASCII letters and digits after the leading whitespace |
| Parser.ParseEmpty | src/parser.rs:171-177 | `-` builds the empty clip |
| Parser.ParseClipDeclaration | src/parser.rs:120-138 | `clip` or `clp`, a letters-only name, `=`, and the expression is the clip parsed after the first `=` of the text |
| Parser.ParseBeatDeclaration | src/parser.rs:94-112 | `beat`, a letters-only name, `=`, and the pattern is the beat parsed after the first `=` of the text |
| Parser.ParseDeclarationBody | src/parser.rs:77 | a clip declaration result is the clip parser's; a beat declaration result comes only after the clip parser failed; the body fails exactly when both do |
| Parser.ParseDeclaration | src/parser.rs:75-86 | the text up to the first `;` must parse as a declaration with only whitespace left; the `;` and the whitespace after it are consumed |
| Parser.ParseDeclarations | src/parser.rs:480 | `many0` of declarations leaves a suffix, and there are no more of them than `;` characters (DeclarationsRoundTrip gives the declarations read) |
| Parser.SemicolonsAfterDeclaration | src/parser.rs:75-86 | each declaration uses up one `;`, so `many0` ends |
| Parser.ParseSetting | src/parser.rs:20-67 | keyword, `=`, a quoted value and `;` consume at least one character |
| Parser.ParseAssignment | src/parser.rs:23-32 | after the keyword, `=`, a quoted value and `;` consume at least one character |
| Parser.ParseMain | src/parser.rs:474-493 | the directory is the setting read first, and what follows it reads as the rest of the program |
| Parser.ParseAfterDirectory | src/parser.rs:476-490 | the extension is the setting read next, and the declarations and entry are those of the program body after it |
| Parser.ParseProgramBody | src/parser.rs:480-490 | succeeds exactly when a clip follows the declarations; the result is those declarations and that clip as entry |
| Parser.NoDelimiterNoSplit | src/parser.rs:296-341 | text without the delimiter never splits at it |
| Parser.ChainsNestRight | src/parser.rs:296-315 | the left operand of a parsed clip chain is never a chain |
| Parser.LayersNestRight | src/parser.rs:322-341 | the left operand of a parsed layer is never a layer |
| Parser.RawVideoRoundTrip | src/parser.rs:155-169 | a quoted name without operator characters parses as a raw video of that name, consuming everything |
| Parser.NoOperatorAt | src/parser.rs:155-169 | text without operator characters is none of the operator forms |
| Parser.DecimalLiteral | src/parser.rs:394-396 | a decimal literal that fits in a `usize` reads back as its value |
| Parser.TimeText | src/parser.rs:391-417 | a written time starts with a digit |
| Parser.TimeRoundTrip | src/parser.rs:391-417 | a written 1-based `n[.m]` reads back as the 0-based beat n − 1 and sixteenth m − 1 |
| Parser.BeatOnlyRoundTrip | src/parser.rs:391-407 | a written 1-based beat `n` with no sixteenth reads back as the 0-based beat n − 1 |
| Parser.BeatAndSixteenthRoundTrip | src/parser.rs:391-417 | a written `n.m` reads back as the 0-based beat n − 1 and sixteenth m − 1 |
| Parser.SixteenthLiteral | src/parser.rs:409-417 | `.m` reads back as m |
| Parser.RangeRoundTrip | src/parser.rs:372-383 | `[from:to]` reads back as the range between the two 0-based positions |
| Parser.RangeStartRoundTrip | src/parser.rs:372-383 | the written start of a range reads back as its 0-based position and stops at the `:` |
| Parser.RangeEndRoundTrip | src/parser.rs:372-383 | `:to]` reads back as the 0-based end |
| Parser.OpenRangeLiteral | src/parser.rs:372-383 | `[:]` is the range with neither start nor end |
| Parser.SettingRoundTrip | src/parser.rs:20-67 | a written `keyword = 'value';` reads back as the value |
| Parser.ProgramRoundTrip | src/parser.rs:474-493 | the smallest program (its two settings and a raw video) reads back as itself |
| Parser.ParseClipDefinition | src/parser.rs:120-138 | after the keyword: the name is the letters word read, then `=`, and the expression is the clip read after it |
| Parser.ParseBeatDefinition | src/parser.rs:94-112 | after the keyword: the name is the letters word read, then `=`, and the pattern is the beat read after it |
| Parser.NoTokenNoBeatThenClip | src/parser.rs:185-224 | without the token's first character anywhere in the text, no beat is applied with it |
| Parser.DotsBeforeText | src/parser/beats_parser.rs:20-55 | a dot pattern, a space and a non-beat text: the beat is the pattern's flags and stops at that text |
| Parser.ApplyBeatRoundTrip | src/parser.rs:155-169 | `dots @ 'name'` reads back as the dot pattern applied to the raw video |
| Parser.RestartRoundTrip | src/parser.rs:185-201 | `dots >> 'name'` reads back as the raw video restarted on the dot pattern, the apply-beat alternative failing first |
| Parser.NotApplied | src/parser.rs:208-224 | a dot pattern followed by `>>` applies no beat with `@` |
| Parser.ClipResultOrigin | src/parser.rs:155-169 | every result shape comes from its own alternative, only after each alternative tried before it has failed; the parse fails exactly when all eleven fail |
| Parser.ClipIsRestart | src/parser.rs:155-169 | when apply-beat fails and restart succeeds, the clip is the restart |
| Parser.PlainForm | src/parser.rs:155-169 | a text with no operator character is none of the operator forms |
| Parser.MultiVideoRoundTrip | src/parser.rs:424-446 | `multi n 'name'` reads back as the multi video of that name with n sub-clips |
| Parser.ParenthesesRoundTrip | src/parser.rs:246-260 | `('name')` reads back as the parenthesised raw video |
| Parser.LayerRoundTrip | src/parser.rs:322-341 | `'a' : 'b'` reads back as the layer of the two raw videos |
| Parser.ChainRoundTrip | src/parser.rs:296-315 | `'a'`, a bar character, `'b'` reads back as the chain of the two raw videos |
| Parser.QuoteBeforeBar | src/parser.rs:155-224 | a text opening with a quote is neither an apply-beat nor a restart, whatever follows |
| Parser.LoopRoundTrip | src/parser.rs:267-289 | `'a' * d` with one digit d reads back as the raw video looped d times |
| Parser.ReferenceRoundTrip | src/parser.rs:231-240 | a name of letters reads back as a reference to that name, after every earlier alternative has failed |
| Parser.EmptyRoundTrip | src/parser.rs:171-177 | `-` reads back as the empty clip, after every earlier alternative has failed |
| Parser.AppliedTo | src/parser.rs:155-224 | `@` binds more loosely than every operator except the bar character: a dot pattern, `@` and the whole text of any clip without a bar character apply the pattern to that whole clip |
| Parser.TruncatedDropsLeftover | src/parser.rs:348-365 | `'a' 'b'[:]` truncates the raw video `a`: what the clip before `[` leaves unread is dropped |
| Parser.OpenTruncation | src/parser.rs:348-365 | any clip text free of `[`, then `[:]`, reads as the open truncation of that clip, whatever the clip parse leaves over |
| Parser.DenotedAll | src/parser.rs:75-138 | one declaration per written declaration, in order |
| Parser.DeclarationRoundTrip | src/parser.rs:75-138 | a written `clip name = 'file';` or `beat name = dots;` reads back as what it denotes; the `;` and the whitespace after it are consumed |
| Parser.BodyRoundTrip | src/parser.rs:77-138 | the body of a written declaration parses whole as what it denotes, the clip alternative being tried first |
| Parser.ClipBodyRoundTrip | src/parser.rs:120-138 | `clip name = 'file'` parses whole as the clip declaration of the raw video |
| Parser.BeatBodyRoundTrip | src/parser.rs:77-112 | `beat name = dots` parses whole as the beat declaration of the pattern, after the clip declaration has failed |
| Parser.NotClipKeyword | src/parser.rs:120-138 | a text starting with `b` is no clip declaration |
| Parser.ParseDeclarationsCons | src/parser.rs:480 | `many0` reads one declaration, then the declarations after it |
| Parser.DeclarationsRoundTrip | src/parser.rs:75-138 | written declarations one after another read back as what they denote, in order, and the text after them is left |
| Parser.ProgramWithDeclarationsRoundTrip | src/parser.rs:474-493 | a program of the two settings, written declarations and a raw video entry reads back as itself: directory, extension, the declarations in order, entry |
| TimeAlgebra.LowestTerms | src/util.rs:15-17 | dividing both parts by their gcd leaves a fraction in lowest terms |
| TimeAlgebra.ReducedValue | src/util.rs:15-17 | reducing a fraction keeps its value |
| TimeAlgebra.FracNew | src/util.rs:15-17 | `Fraction::new(n, d)` is reduced, non-negative and of value n/d |
| TimeAlgebra.FracOfSigned | src/util.rs:5-13 | a signed numerator over a positive denominator, reduced, keeping its value |
| TimeAlgebra.FracAdd | src/reducer.rs:432-438 | the sum of two fractions is reduced and exact |
| TimeAlgebra.FracSub | src/reducer.rs:416-430 | the difference of two fractions is reduced and exact |
| TimeAlgebra.AsU64 | src/util.rs:16 | `as u64` keeps a non-negative value and adds 2^64 to a negative one |
| TimeAlgebra.TimeToFrac | src/util.rs:15-17 | `time_to_frac` is reduced and non-negative, of value num/denom through the wrapping cast, and so of the time's own value when num ≥ 0 |
| TimeAlgebra.FracToTime | src/util.rs:5-13 | on a reduced fraction, `frac_to_time` gives its signed numerator over its denominator |
| TimeAlgebra.FracToTimeOfReduced | src/util.rs:5-13 | the whole part times the denominator plus the fractional numerator is the signed numerator |
| TimeAlgebra.TimeAdd | src/reducer.rs:432-438 | on non-negative times, `+` is exact, non-negative and in lowest terms |
| TimeAlgebra.TimeSub | src/reducer.rs:416-430 | on non-negative times, `-` is exact and in lowest terms, and negative exactly when the first is smaller |
| TimeAlgebra.CanonicalOfFrac | src/util.rs:5-13 | `frac_to_time` keeps the value and the sign of a reduced fraction and gives lowest terms |
| TimeAlgebra.TimeExpressionToTime | src/util.rs:19-24 | a position has denominator 16 and value (4·beat + sixteenth-or-0)/16 |
| Sorting.InsertSorted | src/reducer.rs:178 | inserting into a sorted list keeps it sorted and adds exactly the element |
| Sorting.AppendSorted | src/reducer.rs:178 | appending a key at least as large as all others keeps a list sorted |
| Sorting.InsertBounded | src/reducer.rs:178 | inserting below a bound keeps every key below it |
| Sorting.SortByKeySortsAndPermutes | src/reducer.rs:178 | `sort_by_key` orders by key and only permutes |
| Sorting.InsertKeeps | src/reducer.rs:178 | inserting appends the element to the elements of equal key |
| Sorting.SortByKeyStable | src/reducer.rs:178 | the sort is stable: the elements with any one key keep their relative order |
| Sorting.KeyFilterAppend | src/reducer.rs:178 | selecting one key distributes over concatenation |
| Sorting.SortByKeyOfSorted | src/reducer.rs:287-290 | sorting what is already sorted changes nothing |
| Sorting.SortByKeyPrefix | src/reducer.rs:178 | the sort of one more element is the insertion of that element into the sort so far |
| Sorting.InsertAt | src/reducer.rs:178 | insertion places the element right after the last key at most its own |
| Sorting.InsertIntoPrefix | src/reducer.rs:178 | the in-place step inserts a[i] into the sorted a[..i] and leaves the rest alone |
| Sorting.SortInPlace | src/reducer.rs:178 | the in-place sort leaves the array equal to the stable sort of its old contents |
| Reducer.TimeKeyIsValue | src/util.rs:15-17 | the sort key of a non-negative time is its value |
| Reducer.DotOnsets | src/reducer.rs:335-359 | one onset i/16 for each true flag at index i, increasing, and no other |
| Reducer.ReduceDot | src/reducer.rs:335-359 | a dot pattern has length n/16 and exactly the onsets i/16 of its true flags, sorted |
| Reducer.DotOnsetsSorted | src/reducer.rs:335-359 | the onsets of a dot pattern are in increasing time order |
| Reducer.DotOnsetsAreDots | src/reducer.rs:335-359 | every onset is i/16 for a true flag at index i |
| Reducer.NumberFold | src/reducer.rs:361-381 | each count records an onset at the cursor and then moves the cursor on by the count |
| Reducer.SumPrefixMonotone | src/reducer.rs:361-381 | the cursor never moves back |
| Reducer.ReduceNumber | src/reducer.rs:361-381 | the cursor starts at 1; onset k is at 1 plus the counts before it, and the length is the sum of the counts, all over 16 |
| Reducer.ShiftOnsets | src/reducer.rs:303-307 | each onset of b is moved by the shift |
| Reducer.BeatChain | src/reducer.rs:292-316 | b's onsets, shifted by a's length, come before a's; the length is the sum of both |
| Reducer.OrderBeat | src/reducer.rs:287-290 | `order_beat` sorts the onsets, keeps the length and only permutes |
| Reducer.OrderBeatOfSorted | src/reducer.rs:287-290 | `order_beat` changes nothing on sorted onsets, so it is idempotent |
| Reducer.OrderBeatKeepsWF | src/reducer.rs:287-290 | ordering keeps every onset non-negative |
| Reducer.ReduceBeat | src/reducer.rs:264-285 | the memo comes back unchanged (a missed reference is not cached), and the onsets are sorted |
| Reducer.ShiftCommands | src/reducer.rs:249-251 | every stamp moves later by the shift, and the payloads are untouched |
| Reducer.ChainClips | src/reducer.rs:238-262 | a's commands in order, then b's in order shifted by a's length; the length is the sum of both |
| Reducer.TruncateCommand | src/reducer.rs:195-228 | a stamp at or after `from` moves back by `from` and keeps its payload; an earlier one becomes 0 and its play starts later by the amount cut off |
| Reducer.RewriteMovesStart | src/reducer.rs:197-225 | the rewrite keeps file, count and kind, turns a play into its "…From" variant and moves the start by the amount cut off |
| Reducer.TruncateCommands | src/reducer.rs:195-228 | every command goes through the loop body |
| Reducer.KeepBefore | src/reducer.rs:231-232 | `retain` keeps no more than it had |
| Reducer.KeepBeforeMembers | src/reducer.rs:231-232 | exactly the commands stamped before `to` are kept |
| Reducer.KeepBeforeAppend | src/reducer.rs:231-232 | `retain` distributes over concatenation, so the order is kept |
| Reducer.RangeStart | src/reducer.rs:191-194 | a missing start is 0, and no start is negative |
| Reducer.TruncateClip | src/reducer.rs:182-236 | without `to` the commands are shifted and the length is kept; with `to` the length is to − from and the commands are exactly the shifted commands stamped before it, in their order |
| Reducer.TruncateBody | src/reducer.rs:229-234 | the `to` part: the length becomes to − from and the commands kept are exactly the shifted ones stamped before it, in their order |
| Reducer.TruncateCommandsWF | src/reducer.rs:195-228 | after the loop no stamp is negative |
| Reducer.KeepBeforeBound | src/reducer.rs:231-232 | every kept command is stamped before `to` |
| Reducer.Cues | src/reducer.rs:167-176 | one `MultiNext` per onset, at the onset |
| Reducer.ApplyBeatClip | src/reducer.rs:158-180 | apply-beat keeps the length |
| Reducer.PermutationKeepsWF | src/reducer.rs:178 | a permutation keeps every stamp non-negative |
| Reducer.ApplyBeatKeepsWF | src/reducer.rs:158-180 | apply-beat keeps every stamp non-negative |
| Reducer.ApplyBeatShape | src/reducer.rs:158-180 | apply-beat keeps every command and adds one cue per onset, sorted by time; at equal times the original commands come before the cues |
| Reducer.ReduceClip | src/reducer.rs:60-156 | raw and multi leaves are one play at 0 of length 1 with the memo unchanged; a memo hit returns the cached clip and the same memo; after a reference the memo holds its name; the memo only grows |
| Reducer.ReduceClipKeepsWF | src/reducer.rs:60-156 | when no truncation in the expression or the definitions is reversed, reduction gives non-negative stamps and lengths, in the result and in every clip it caches |
| Reducer.ReversedTruncation | src/reducer.rs:182-236 | a truncation whose start is after its end is reduced too, to a clip of negative length whose commands are the shifted ones the wrapping compare keeps |
| Reducer.ChainKeepsWF | src/reducer.rs:67-73 | without reversed truncations, a chain of well-formed reductions is well-formed and keeps the memo well-formed |
| Reducer.ReduceClipSound | src/reducer.rs:138-156 | with a sound memo, reduction gives the memo-free meaning and leaves a sound memo |
| Reducer.ChainSound | src/reducer.rs:67-73 | a chain reduces to the chain of its operands' memo-free meanings; the second operand sees the memo the first one left |
| Reducer.ReferenceSound | src/reducer.rs:138-156 | a memo hit and a memo miss both give the definition's memo-free meaning and leave a sound memo |
| Reducer.BeatDefsOkAnyMemo | src/reducer.rs:318-333 | ranked beat definitions resolve whatever the memo holds |
| Reducer.ReduceBeatSound | src/reducer.rs:318-333 | a sound beat memo does not change what a beat reduces to |
| Reducer.BeatDefs | src/reducer.rs:17-26 | the beat map has exactly the declared beat names |
| Reducer.ClipDefs | src/reducer.rs:27-35 | the clip map has exactly the declared clip names |
| Reducer.LastDeclarationWins | src/reducer.rs:17-35 | `collect` keeps the expression of the last declaration of a name |
| Reducer.FoldBeats | src/reducer.rs:36-42 | the beat fold caches exactly the names it visits, on top of the accumulator |
| Reducer.FoldClips | src/reducer.rs:43-50 | the clip fold caches every name it visits and keeps the accumulator's; without reversed truncations every clip it caches is well-formed |
| Reducer.BeatTable | src/reducer.rs:36-42 | every declared beat reduced, and that table is sound |
| Reducer.FoldBeatsSound | src/reducer.rs:36-42 | the beat fold keeps the memo sound |
| Reducer.FoldClipsSound | src/reducer.rs:43-50 | the clip fold keeps the memo sound |
| Reducer.FoldBeatsIsTable | src/reducer.rs:36-42 | after the beat fold the memo is the table of all beats, whatever the order |
| Reducer.Reduce | src/reducer.rs:16-58 | `reduce` is defined on every program with the six reducible forms and defined, acyclic names; when no truncation is reversed it gives a clip with no negative stamp or length |
| Reducer.ReduceDefs | src/reducer.rs:36-57 | the two folds and the final reduction are defined whatever the truncation ranges; without reversed ones they give a clip with no negative stamp or length |
| Reducer.FoldClipsIsEval | src/reducer.rs:43-57 | after the clip fold, the entry expression reduces to its memo-free meaning |
| Reducer.ReduceDefsIsEval | src/reducer.rs:36-57 | the folds and the final reduction are the memo-free meaning against the table of reduced beats |
| Reducer.ReduceIsEval | src/reducer.rs:16-58 | `reduce` is the memo-free meaning of the entry expression against the declared definitions |
| Reducer.ReduceOrderIrrelevant | src/reducer.rs:36-50 | the result does not depend on the order in which the hash maps are iterated |
| Reducer.TruncateCommandAsWritten | src/reducer.rs:195-228 | the loop body with the offset of a "…From" play as written; it agrees with the corrected body on commands that are not cut into |
| Reducer.TruncationOffsetAsWritten | src/reducer.rs:208-210 | the input under Findings: as written the play starts at 19/16, while the corrected body starts it at 3/16 |
| Reducer.AsWrittenStart | src/reducer.rs:208-210 | as written, the offset of the example becomes o + from = 19/16 |
| Reducer.CorrectedStart | src/reducer.rs:197-227 | corrected, the offset of the example becomes o − t = 3/16 |
| Reducer.ShiftInPlace | src/reducer.rs:249-251 | the in-place shift leaves the array equal to the shifted command list |
| Reducer.TruncateInPlace | src/reducer.rs:195-228 | the in-place truncation loop leaves the array equal to the truncated command list |
| Reducer.KeepBeforeStep | src/reducer.rs:231-232 | `retain` of one more element adds it exactly when it is before `to` |
| Reducer.RetainInPlace | src/reducer.rs:231-232 | `retain` compacts the kept commands to the front, in order |
| Reducer.AppendAndSort | src/reducer.rs:177-178 | `append` and `sort_by_key` give the stable sort of the commands followed by the cues |
| Schedule.DueEnd | src/interpreter.rs:61-125 | the cursor stops at the first command stamped later than the beat position (all the ones it passed are due), or one past the end, and never beyond `len + 1` |
| Schedule.Run | src/interpreter.rs:61-125 | the commands between two cursor positions, cut off at the end |
| Schedule.Due | src/interpreter.rs:61-125 | the dispatched commands are those from the cursor up to where it stops |
| Schedule.CursorStep | src/interpreter.rs:61-125 | one more loop step keeps the stopping point and dispatches the command under the cursor, or nothing once past the end |
| Schedule.CursorStop | src/interpreter.rs:61-69 | when the loop condition fails, the cursor is where `DueEnd` says and the due commands have been dispatched |
| Schedule.RunPrefix | src/interpreter.rs:61-125 | what the loop has dispatched so far is a prefix of what is due |
| Schedule.DueStep | src/interpreter.rs:61-125 | a due command at the cursor is dispatched first, then the loop goes on from the next one |
| Schedule.DueExactly | src/interpreter.rs:61-125 | on a time-sorted list, a command after the cursor is dispatched exactly when its stamp is at most the beat position |
| Schedule.DueEndIdempotent | src/interpreter.rs:61-125 | a second dispatch at the same position moves nothing |
| Schedule.DueEndMonotone | src/interpreter.rs:61-125 | a later beat position never stops the cursor earlier |
| Schedule.FrameOf | src/interpreter.rs:85 | `as usize` is the floor of a non-negative value and 0 for a negative one |
| Schedule.Wrap | src/interpreter.rs:164-169 | past the loop's length the position wraps by that length, keeping its phase, and it says whether it did |
| Schedule.WrapStaysInLoop | src/interpreter.rs:164-169 | a step of at most one loop keeps the position within the loop |
| Interpretation.Grow | src/interpreter.rs:71-74 | at most one `None` is pushed, only when the layer is missing, and the existing layers are kept |
| Interpretation.NextSub | src/interpreter.rs:106-120 | `MultiNext` moves the sub-clip on by one, back to 0 at `subs_amt`, and changes nothing else |
| Interpretation.SafePrefix | src/interpreter.rs:61-125 | a run that does not panic has no prefix that panics |
| Interpretation.ApplyAllLayers | src/interpreter.rs:71-74 | dispatch never removes a layer and adds at most one per command |
| Interpretation.LowLayersSafe | src/interpreter.rs:71-121 | commands addressing layers no higher than the current count never panic |
| Interpretation.MultiWritesLayerZero | src/interpreter.rs:88-105 | the multi plays write a multi state on layer 0 and leave every other layer alone |
| Interpretation.MultiNextElsewhere | src/interpreter.rs:106-120 | `MultiNext` on a layer that is not multi only makes room for it |
| Interpretation.ApplyKeepsSubsInRange | src/interpreter.rs:75-122 | one command keeps every multi layer's sub-clip below its count |
| Interpretation.ApplyAllKeepsSubsInRange | src/interpreter.rs:61-125 | dispatch keeps every multi layer's sub-clip below its count |
| Interpretation.Show | src/interpreter.rs:128-145 | `None` shows nothing, a single layer shows its file and frame, and a multi layer shows `{file}_{sub}{extension}` |
| Interpretation.MultiFileName | src/interpreter.rs:142 | a multi layer's file name is the file, `_`, the sub-clip's digits and the extension |
| Interpretation.Snapshot | src/interpreter.rs:127-147 | one frame instruction per layer, in layer order |
| Interpretation.Tick | src/interpreter.rs:151-163 | a showing layer's frame moves on by one; nothing else changes |
| Interpretation.TickAll | src/interpreter.rs:151-163 | every layer ticks, and the count is kept |
| Interpretation.TickAdvancesSnapshot | src/interpreter.rs:149-163 | after a tick the snapshot shows the same files, each one frame later |
| Interpretation.ApplyAllSnoc | src/interpreter.rs:70-124 | one command more than a run that did not panic is applied, or panics exactly when it does not fit |
| Interpretation.DispatchLoop | src/interpreter.rs:61-125 | the loop applies the due commands in order and leaves the cursor where `DueEnd` says |
| Interpretation.DispatchStep | src/interpreter.rs:70-124 | a due command can be applied, and the dispatched run grows by it |
| Interpretation.Interpreter.constructor | src/interpreter.rs:31-42 | one blank layer, cursor, beats and time at 0 |
| Interpretation.Interpreter.SetCommands | src/interpreter.rs:44-47 | only the commands and the loop length change |
| Interpretation.Interpreter.SetBpm | src/interpreter.rs:49-51 | only the tempo changes |
| Interpretation.Interpreter.ResetBeat | src/interpreter.rs:53-58 | beats and time are 0, there are no layers and the cursor is 0 |
| Interpretation.Interpreter.Dispatch | src/interpreter.rs:61-125 | the due commands are applied in order and the cursor stops where `DueEnd` says; nothing else changes |
| Interpretation.Interpreter.TakeSnapshot | src/interpreter.rs:127-147 | the frame instructions of the current layers |
| Interpretation.Interpreter.TickLayers | src/interpreter.rs:151-163 | every layer ticks, and nothing else changes |
| Interpretation.Interpreter.Advance | src/interpreter.rs:149-169 | time and beats move on by `bpm·seconds/(fps·4)` and the layers tick; past the loop's length, beats wrap and time, layers and cursor start over |
| Interpretation.Interpreter.AdvanceTime | src/interpreter.rs:60-172 | the returned frames are the snapshot after dispatch and before the advance; then the new state is the ticked layers, or the wrapped start of the loop |
| Interpretation.AdvanceKeepsSubsInRange | src/interpreter.rs:60-172 | a whole tick keeps every multi layer on one of its sub-clips |
| Runner.Start | src/video_runner.rs:44-54 | a play shows its file, at frame 0 or at ⌊offset·bpm⌋ (0 when negative) |
| Runner.PlayAllStep | src/video_runner.rs:34-57 | one more command leaves the playhead where that command puts it |
| Runner.LastDueWins | src/video_runner.rs:34-57 | only the last due command matters; when nothing is due the playhead stays |
| Runner.DispatchLoop | src/video_runner.rs:34-57 | the loop leaves the playhead where the due commands, applied in order, put it, and the cursor where `DueEnd` says |
| Runner.VideoRunner.constructor | src/video_runner.rs:19-31 | nothing showing; frame, cursor, beats and time at 0 |
| Runner.VideoRunner.Dispatch | src/video_runner.rs:34-57 | the due commands are applied in order and the cursor stops where `DueEnd` says; nothing else changes |
| Runner.VideoRunner.AdvanceTime | src/video_runner.rs:33-76 | the returned frame is the playhead after dispatch; then beats move on by `fps·seconds/bpm` and the frame by one, or everything starts over past the loop's end |

## Left out

- Floating point: beat positions, tempo, frame rate and seconds are `real`s, with no rounding. `as usize` on a float is the floor of a non-negative value and 0 for a negative one, without the saturation at the top of the range.
- Interpretation.Interpreter.AdvanceTime: requires `fps != 0`. Division by zero gives an infinite or NaN beat position in `f64`, which is not modelled.
- Runner.VideoRunner.AdvanceTime: requires `bpm != 0`, for the same reason.
- Interpretation.Interpreter.AdvanceTime: requires that no due command indexes past the layers, since `display_state[layer]` panics there. `ApplyAll` models that panic as `None`, and `LowLayersSafe` gives a sufficient condition for it not to happen.
- The scheduler command types: interpreter.rs and video_runner.rs match on a `ClipCommand` that differs from reducer.rs's. interpreter.rs's has layers, `Stop`, extensions and `layer()`; video_runner.rs's has only two plays. Each scheduler has its own command type here, built from the arms it matches. `layer()` has no source; the multi plays are taken to address layer 0, the layer they write.
- `set_commands` keeps the cursor, as the source does, although the new list may be shorter.
- The dispatch loops run in `Interpretation.DispatchLoop` and `Runner.DispatchLoop` on the values of the fields. The `Dispatch` methods write the results back to the fields, which is the same as updating the fields inside the loop.
- Integer widths: `usize` counters and frame numbers are unbounded `nat`s. `Time`'s `isize` numerator and `usize` denominator are unbounded, and the `fraction` crate's `u64` arithmetic never overflows here. The only wrap-around modelled is the `as u64` cast in `time_to_frac` and the `isize` cast in the 0-based time conversion.
- Parser.ZeroBased: at n = 2^63, `n as isize - 1` overflows. That is a panic in a debug build; the model gives the release build's wrap.
- Reducer.OrderBeat: `order_beat` uses `sort_unstable_by_key`. It is modelled by the stable insertion sort, which is one of the orders an unstable sort may give. Only the sortedness and the permutation are stated about it.
- Reducer.ReduceClip: the reducer has no arm for `Empty`, `Layer`, `Loop`, `Restart` or `Parentheses`, so these are excluded by precondition.
- Reducer.ReduceClip: undefined names panic on map indexing, so every referenced name is required to be defined.
- Reducer.ReduceClip: definitions are required to be acyclic, through a rank map, because the source does not detect cycles.
- Reducer.TruncateClip: the exact result (length `to − from`, the commands kept by `KeepBefore`) is stated for every range. Only the ensures that the result is well-formed and that every kept stamp is below the length are conditional on the start not being after the end; for a reversed range the negative `to − from` passes through `time_to_frac`'s wrapping cast, which `ReversedTruncation` states.
- Reducer.Reduce: the hash maps' iteration order is a parameter. The result is proved independent of it.
- Parse errors: nom's error values and messages are not modelled; a failure is `None`.
- The rest of the program: video decoding, windows and textures, timers and sleeping, the file watcher and its threads, keyboard tempo control, `main`, and the `todo!()` placeholders in `src/transformer.rs` and `src/program.rs`.
- Truncating a "…From" play: the `PlayClip` and `PlayMulti` arms (src/reducer.rs:199-207, 211-219) offset a play that the cut starts inside by the amount cut off, `-command.0`. The `PlayClipFrom` and `PlayMultiFrom` arms (src/reducer.rs:208-210, 221-223) add `from` instead. The model records the code as written and uses the offset the other two arms give; see Findings.

## Findings

| source | as written | input that shows it | evidently intended | confidence | as-written member | corrected member |
|---|---|---|---|---|---|---|
| src/reducer.rs:208-210, src/reducer.rs:221-223 | a "…From" play that truncation cuts into gets offset `o + from` | a clip `x` declared as `'a'` chained with `'b'[1.2:]`, truncated as `x[5.3:]`: the chain puts `PlayClipFrom("b", 1/16)` at time 1, and cutting from 18/16 gives offset 19/16, past the end of the one-beat clip | offset `o − t`, the old start plus the amount cut off (here 3/16), as the `PlayClip` arm does for offset 0 | not executed | Reducer.TruncationOffsetAsWritten | Reducer.TruncateCommand |
