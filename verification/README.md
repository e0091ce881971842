# CodeLeveler release tooling: a verified model

This project models the parts of CodeLeveler's release and soak tooling that other tools trust without looking
inside, and proves properties of them for all inputs, all runs or all reachable states.

| files | what they model |
|---|---|
| `Utf8`, `Utf8Order`, `Unicode`, `Decimal`, `Hexadecimal`, `Strings`, `Sequences`, `Sorting`, `Dict`, `Wrappers` | the library behaviour that the program builds on: UTF-8, whitespace, number formatting, splitting and ordering of text, stable sorting, insertion-ordered dictionaries, results |
| `JsonGrammar`, `JsonCursor`, `JsonStrings`, `JsonEscapes`, `JsonNumbers`, `JsonDocs`, `JsonAccepts`, `JsonPrinter`, `JsonLayout` | the JSON reader, a byte cursor, and the compact and pretty printers |
| `Hash`, `HashConstants`, `HashVectors` | the buffered SHA-256 hasher, where its constants come from, and a published digest |
| `Clock`, `Timestamps`, `TimestampForms`, `TimestampOrder` | calendar arithmetic, printed timestamps and their order |
| `Terminal`, `TerminalText`, `Screen` | the VT-100 screen that the dogfood harness reads frames from |
| `Fnv`, `FnvVectors` | FNV-1a, written once in Rust and once in Python |
| `Lock` | the publish lock, as a file, and as two systems of processes that share it |
| `Paths`, `PathDots` | lexical path normalisation, written twice, and the check that a path stays in the repository |
| `Qualify` | which release runs a gate's output names |
| `ProcessTree` | the work list that collects a process's descendants |
| `SoakData`, `SoakOverlap`, `SoakWitness`, `SoakPlan`, `SoakActions`, `SoakSteps`, `SoakCoverage`, `SoakVerdict`, `SoakEvidence`, `SoakPass`, `SoakClean` | the soak supervisor: overlap observations, the action list, aggregation of evidence, the checks derived from it, and the verdict |

How the model is set up:

- A Dafny `char` is a Unicode scalar value, so a Rust `String` is a Dafny `string`, and code that works on bytes
  works on `Utf8.Encode` of it.
- Code that changes things in place is a class or a method with the program's loops (`JsonCursor.Cursor`,
  `JsonPrinter.Buffer`, `Hash.Sha256`, `Screen.VtScreen`, `Lock.LockFile`, `Paths.PathBuf`,
  `SoakActions.Supervisor`). Each method is proved equal to a specification function or to the property it promises,
  and the lemmas are about those.
- Rust's truncating division, 64-bit wrap-around, bit operations and Python's masking are written out.
- What the program learns from the outside is a parameter: the child relation of processes, answers about running
  processes, the contents of the lock file, snapshot rows, line counts of marker files, handler outcomes, the current
  time, the canonical repository path, the two Unicode width tables.
- Where the code is more lenient than the standard it follows, the model keeps the code's behaviour. Two such places
  are results of their own: `JsonStrings.StandardExactlyWhenNotSwallowing` says exactly which string literals the
  reader gets wrong, and `Terminal.CutSafeExactly` says exactly where a terminal stream may be cut.

Where the program's comments and its code disagree, the model follows the code:

- `xtask/src/lock.rs:3-7` says that the lock makes a second publish refuse to run. `Lock.OneHolder` proves that for
  acquiring in one step. The separate steps of the code allow two holders (`Lock.SplitStepsLetTwoHold`,
  `Lock.TwoReclaimersBothHold`); `Lock.ExclusiveExactlyWhenGuarded` says exactly in which runs they do not, and
  `Lock.CheckCertifies` what the later check is worth.
- `xtask/src/json.rs:268-269` says that a lone surrogate is replaced. It is, but a `\u` escape right after a lone high
  surrogate is lost with it.
- `scripts/pty_dogfood.py:227` says that an escape split across two reads keeps its partial state. It does, except
  inside an OSC string.

Atomicity in `Lock`: removing the file, renaming over it, reading it, and writing it are single steps. In `System`
taking the lock is one step as well. In `Split` creating the file and writing it are separate, as are finding the
file, reading it (which may fail), asking about its owner, and overwriting it (which may fail); a rename gives the path a new inode, and a write through
a handle to the old one reaches nothing.

## Model

| member | source | states |
|---|---|---|
| `Utf8.DecodeInvertsEncode` | xtask/src/json.rs:298-317 | the bytes of any text decode to that text, so strings pass through the byte cursor unchanged (section 3 of RFC 3629) |
| `Utf8.EncodeInvertsDecode` | xtask/src/json.rs:298-317 | bytes that decode at all are the one encoding of what they decode to: no overlong form and no surrogate is accepted |
| `Utf8.AsciiPrefix` | xtask/src/json.rs:160-167 | comparing bytes with an ASCII word decides whether the text starts with that word |
| `Utf8Order.OrderKept` | xtask/src/json.rs:298-317 | texts compare by their bytes exactly as by their characters (section 1 of RFC 3629) |
| `Utf8Order.Examples` | xtask/src/json.rs:298-317 | the bytes of four characters of one to four bytes (section 7 of RFC 3629) |
| `JsonCursor.Cursor.constructor` | xtask/src/json.rs:115-118 | the cursor starts before the whole text |
| `JsonCursor.Cursor.Peek` | xtask/src/json.rs:147-149 | the byte under the cursor tells whether an ASCII character comes next, and which |
| `JsonCursor.Cursor.SkipWs` | xtask/src/json.rs:141-145 | skips the longest run of ASCII whitespace, form feed included |
| `JsonCursor.Cursor.Eat` | xtask/src/json.rs:151-158 | succeeds exactly when that character is next, and then stands after it |
| `JsonCursor.Cursor.Literal` | xtask/src/json.rs:160-167 | succeeds exactly when the word is next, and then stands after it |
| `JsonCursor.Cursor.Hex4` | xtask/src/json.rs:322-330 | four bytes are read as `u32::from_str_radix` reads them, with its leading plus sign, and agree with the character-level reading |
| `JsonCursor.Cursor.Number` | xtask/src/json.rs:332-349 | the longest run of number characters is read as a float literal, in exact arithmetic |
| `JsonCursor.Cursor.String` | xtask/src/json.rs:242-320 | the byte loop over escapes and multi-byte characters agrees with the character-level string reader, errors included |
| `JsonCursor.Cursor.Unicode` | xtask/src/json.rs:266-292 | a `\u` escape with its surrogate handling, including the escape that is dropped after an unpaired high surrogate |
| `JsonCursor.Cursor.Value` | xtask/src/json.rs:169-189 | the recursive descent terminates on every input and agrees with the character-level grammar |
| `JsonCursor.Cursor.Object` | xtask/src/json.rs:191-217 | objects: members in order, first and later separators, errors |
| `JsonCursor.Cursor.Array` | xtask/src/json.rs:219-240 | arrays: items in order, first and later separators, errors |
| `JsonCursor.ParseText` | xtask/src/json.rs:115-125 | the whole parse, with trailing data refused |
| `JsonStrings.BodyReads` | xtask/src/json.rs:242-320 | any mix of raw characters, short escapes and `\u` escapes up to the closing quote is read, and read as the pieces say |
| `JsonStrings.StandardExactlyWhenNotSwallowing` | xtask/src/json.rs:266-292 | a literal gets the meaning of section 7 of RFC 8259 if and only if no unpaired high surrogate escape stands right before another `\u` escape |
| `JsonStrings.SwallowedLetter` | xtask/src/json.rs:270-286 | a concrete literal in which a letter written as an escape disappears |
| `JsonStrings.SwallowingShows` | xtask/src/json.rs:266-292 | a literal that begins with a swallowed escape is read as something else than its meaning, though not always as something shorter |
| `JsonStrings.ShorterExactlyWhenLosing` | xtask/src/json.rs:266-292 | the text that is read is shorter than the meaning if and only if some swallow is not made up for by a low surrogate right after the swallowed escape |
| `JsonStrings.ReadAsNotLonger` | xtask/src/json.rs:266-292 | the reader never produces more characters than the standard meaning has |
| `JsonEscapes.AllEscapesRead` | xtask/src/json.rs:266-292 | any text written wholly in `\u` escapes, with surrogate pairs computed as in section 2.1 of RFC 2781, is read as that text |
| `JsonEscapes.PairReads` | xtask/src/json.rs:274-281 | every character above U+FFFF, written as its two code units, means and is read as that character |
| `JsonEscapes.LoneSurrogateReads` | xtask/src/json.rs:268-286 | a surrogate on its own is read as U+FFFD |
| `JsonEscapes.PlusReads` | xtask/src/json.rs:322-330 | a plus sign and three hex digits are read as a code unit too |
| `JsonEscapes.HexDigitsAre` | xtask/src/json.rs:329 | sixteen digits with the letters in either case, and no other character |
| `JsonEscapes.ShortEscapeReads` | xtask/src/json.rs:258-265 | the eight short escapes and the characters they stand for |
| `JsonEscapes.OtherEscapesFail` | xtask/src/json.rs:294 | no other character may follow a backslash |
| `JsonDocs.DocReads` | xtask/src/json.rs:169-240 | any rendering of a value with any insignificant whitespace is read as that value, up to the first character after it (section 2 of RFC 8259) |
| `JsonDocs.ParseDoc` | xtask/src/json.rs:115-125 | such a rendering with whitespace around it parses to exactly its value |
| `JsonDocs.SlotsRead` | xtask/src/json.rs:219-240 | every spacing of array items reads as the items in order |
| `JsonDocs.FieldsRead` | xtask/src/json.rs:191-217 | every spacing and spelling of object members reads as the members in order, duplicates kept |
| `JsonDocs.NumberReads` | xtask/src/json.rs:332-349 | a number lexeme before any delimiter reads as its value |
| `JsonNumbers.NumeralMeans` | xtask/src/json.rs:343-348 | a numeral with a point and an exponent has the value of all its digits, shifted by the digits after the point and by the exponent, with either sign |
| `JsonNumbers.ShorterNumerals` | xtask/src/json.rs:343-348 | the same without the point, without the exponent, and without either |
| `JsonNumbers.NumeralExactly` | xtask/src/json.rs:343-348 | exactly these texts are numerals: a sign or none, digits with at most one point and a digit somewhere, and an exponent with digits or none |
| `JsonDocs.QuotedReads` | xtask/src/json.rs:242-320 | a quoted spelling that swallows nothing reads as its meaning |
| `JsonAccepts.ParsesExactly` | xtask/src/json.rs:115-125 | a text parses if and only if it is one tree of tokens with whitespace around it: no missing or trailing comma, nothing after the value, and no leniency beyond control characters in strings, the plus sign in a `\u` escape and the numerals above |
| `JsonAccepts.ValueAccepted` | xtask/src/json.rs:169-240 | whatever value is read was one such tree, and what is left is what follows it |
| `JsonAccepts.TreeTaken` | xtask/src/json.rs:169-240 | every such tree is read up to where it ends |
| `JsonLayout.SkippedExactly` | xtask/src/json.rs:141-145 | a leading character is skipped if and only if it is a space, tab, line feed, carriage return or form feed |
| `JsonLayout.NumberStartsExactly` | xtask/src/json.rs:334-340 | a leading character belongs to a number if and only if it is a digit, a sign, a point or an exponent letter |
| `JsonPrinter.EscapeChar` | xtask/src/json.rs:354-368 | one character is written as its escape piece |
| `JsonPrinter.Escape` | xtask/src/json.rs:352-370 | a text is written between quotes as its escape pieces |
| `JsonPrinter.EscapeMeans` | xtask/src/json.rs:352-370 | those pieces are a well-formed spelling that means the text and that the reader does not swallow from |
| `JsonEscapes.EscapesOnlyWhatItMust` | xtask/src/json.rs:352-370 | a character is written as it is if and only if it is neither a quote, a backslash nor a control character |
| `JsonPrinter.IntTextReads` | xtask/src/json.rs:372-381 | the text of an integer reads back as that integer |
| `JsonPrinter.WriteCompact` | xtask/src/json.rs:383-413 | appends the compact rendering |
| `JsonPrinter.WritePretty` | xtask/src/json.rs:415-449 | appends the indented rendering |
| `JsonPrinter.ToPretty` | xtask/src/json.rs:127-132 | the pretty text ends with a line feed |
| `JsonPrinter.CompactCarries` | xtask/src/json.rs:383-413 | the compact text is a well-formed rendering of exactly the printed value |
| `JsonPrinter.PrettyCarries` | xtask/src/json.rs:415-449 | the pretty text, at every depth, is a well-formed rendering of exactly the printed value |
| `JsonPrinter.PrettyLinesAreSlots` | xtask/src/json.rs:419-431 | the line-by-line form that the printer writes is the rendering with its line breaks as whitespace |
| `JsonLayout.LeafTexts` | xtask/src/json.rs:383-389 | both forms of words, integers, texts and empty arrays and objects |
| `JsonLayout.CompactArrayIs` | xtask/src/json.rs:390-399 | the compact form of an array is its items with commas between them, in brackets |
| `JsonLayout.CompactObjectIs` | xtask/src/json.rs:400-411 | the compact form of an object is its members, each key, colon and value, with commas between them, in braces |
| `JsonLayout.PrettyArrayIs` | xtask/src/json.rs:419-431 | the indented form puts each item on its own line, two spaces further in, and the bracket on a line of its own |
| `JsonLayout.PrettyObjectIs` | xtask/src/json.rs:432-446 | the same for members, with a colon and a space after the key |
| `JsonPrinter.PrintParse` | xtask/src/json.rs:115-132 | printing in either form and parsing gives the value back |
| `JsonPrinter.PrintInjective` | xtask/src/json.rs:127-132 | equal printed texts, even across the two forms, come from equal values |
| `Hash.Sha256.constructor` | xtask/src/hash.rs:39-46 | a fresh hasher has been fed nothing |
| `Hash.Sha256.Update` | xtask/src/hash.rs:48-71 | after any update the hasher has been fed the old input followed by the new: the state is the fold of compression over the complete blocks and the buffer holds exactly the tail |
| `Hash.Sha256.Finish` | xtask/src/hash.rs:73-87 | the printed digest is the one-shot digest of everything fed, whatever the pieces were |
| `Hash.Sha256.CompressBlock` | xtask/src/hash.rs:89-131 | the in-place schedule and rotating variables compute section 6.2.2 of FIPS 180-4 |
| `Hash.ChChooses` | xtask/src/hash.rs:109 | bit by bit, the second argument where the first is set and the third where it is not (section 4.1.2 of FIPS 180-4) |
| `Hash.MajDecides` | xtask/src/hash.rs:117 | bit by bit, what the first two arguments agree on, and the third where they differ |
| `HashConstants.InitialState` | xtask/src/hash.rs:20-22 | the words of the initial state are the first 32 bits of the fractions of the square roots of the first eight primes (section 5.3.3 of FIPS 180-4) |
| `HashConstants.Roots0` | xtask/src/hash.rs:9-18 | the first eight round constants are the first 32 bits of the fractions of the cube roots of the first eight primes; `Roots8` to `Roots56` say the same of the other 56 (section 4.2.2 of FIPS 180-4) |
| `Hash.Schedule` | xtask/src/hash.rs:90-105 | the 64 words filled in place are the recursively defined schedule |
| `Hash.AllRounds` | xtask/src/hash.rs:106-127 | the eight variables after the loop are the recursively defined rounds |
| `Hash.PaddingBytes` | xtask/src/hash.rs:74-80 | the loop over the wrapped length builds the padding of section 5.1.1 of FIPS 180-4 |
| `Hash.Sha256Text` | xtask/src/hash.rs:134-138 | the digest of a text is the digest of its UTF-8 bytes |
| `HashVectors.DigestOfAbc` | xtask/src/hash.rs:73-138 | the program prints the published digest of "abc", worked out word by word and round by round |
| `Hash.FoldConcat` | xtask/src/hash.rs:61-66 | compressing whole blocks and then more is compressing their concatenation |
| `Hash.PadShape` | xtask/src/hash.rs:73-81 | padding gives whole blocks and no shorter padding would do |
| `Hash.PadEnds` | xtask/src/hash.rs:73-81 | a padded message starts with the message and ends with its length in bits |
| `Hash.PadInjective` | xtask/src/hash.rs:73-81 | different messages under 2^61 bytes have different padded forms |
| `Hash.HexTextInjective` | xtask/src/hash.rs:82-86 | equal printed digests come from equal states |
| `Hash.SumReversed` | xtask/src/hash.rs:101-104 | wrapping addition in the program's order is addition in the standard's order |
| `Clock.DaysOfCivil` | xtask/src/clock.rs:65-90 | every day number, before the epoch as well as after it, converts to a valid date and back to itself |
| `Clock.CivilOfDays` | xtask/src/clock.rs:65-90 | every valid proleptic Gregorian date converts to a day number and back to itself |
| `Clock.NextDayAddsOne` | xtask/src/clock.rs:65-72 | one day forward by the leap-year rules adds exactly one |
| `Clock.EpochIsDayZero` | xtask/src/clock.rs:65-90 | 1970-01-01 is day 0 in both directions |
| `Clock.CivilSteps` | xtask/src/clock.rs:74-90 | consecutive day numbers are consecutive dates |
| `Clock.CivilIsCalendar` | xtask/src/clock.rs:74-90 | the closed formula is the naive calendar that counts one day at a time |
| `Clock.DaysMonotone` | xtask/src/clock.rs:65-72 | later dates have larger day numbers |
| `Clock.DaysClosedForm` | xtask/src/clock.rs:65-72 | the era computation with truncated division is the floor formula over March years |
| `Timestamps.FieldsInvert` | xtask/src/clock.rs:17-28 | the printed fields determine the second, and the date is valid |
| `Timestamps.Iso8601RoundTrip` | xtask/src/clock.rs:17-62 | reading a printed timestamp gives the rounded-down second back exactly for years -999 to 9999, and nothing for all others |
| `Timestamps.LongYearRefused` | xtask/src/clock.rs:30-35 | a timestamp whose year needs more than four characters is refused |
| `TimestampForms.EpochText` | xtask/src/clock.rs:17-28 | the epoch is 1970-01-01T00:00:00Z |
| `TimestampForms.LeapDayText` | xtask/src/clock.rs:17-28 | second 951827696 is 2000-02-29T12:34:56Z |
| `TimestampForms.FractionReads` | xtask/src/clock.rs:30-62 | digits after a point count as a decimal fraction of a second, in exact arithmetic; a zone and blanks around the text change nothing |
| `TimestampForms.ZoneIgnored` | xtask/src/clock.rs:46-49 | without a point the seconds are whole, whatever follows them |
| `TimestampForms.ReadsAnyFields` | xtask/src/clock.rs:30-62 | neither the separators of the time nor the ranges of the fields are checked: the reader computes with whatever six numbers stand there, and any ASCII characters between them |
| `TimestampForms.SignedField` | xtask/src/clock.rs:36-38 | a field may carry a sign of either kind |
| `Unicode.TrimIs` | xtask/src/clock.rs:31 | trimming takes away exactly the whitespace on both sides |
| `Unicode.WhitespaceIs` | xtask/src/clock.rs:31 | the twenty-five whitespace characters |
| `Timestamps.TextOrderIsTimeOrder` | xtask/src/github.rs:184 | for years 0 to 9999, comparing printed timestamps as text is comparing the seconds they denote (section 5.1 of RFC 3339) |
| `Timestamps.SortedTextsAreSortedTimes` | xtask/src/github.rs:184 | a list is sorted by its timestamp texts exactly when it is sorted by time |
| `TimestampOrder.OrderExactly` | xtask/src/clock.rs:17-28 | for any two different seconds, of any years: the text of the earlier one sorts first if and only if the years are equal, or the first is negative and the second is not, or the leading digits, as many as the smaller year has, are in order; otherwise the later one sorts first |
| `TimestampOrder.ReadableOrderExactly` | xtask/src/clock.rs:17-28 | among the timestamps that read back, years -999 to 9999, only those of different negative years are out of order |
| `TimestampOrder.SameWidthInOrder` | xtask/src/clock.rs:22-23 | years from 0 on that have the same number of digits are in order |
| `TimestampOrder.TextSortIsTimeSortExactly` | xtask/src/github.rs:184 | a list sorted by its timestamp texts is sorted by time if and only if every two of its years are in order |
| `TimestampOrder.NegativeYearsSortBackwards` | xtask/src/clock.rs:17-28 | from year -999 to year -1, of two timestamps from different years the later one sorts first |
| `TimestampOrder.LongYearSortsEarly` | xtask/src/clock.rs:17-28 | every timestamp of year 10000 sorts before every timestamp of year 9999 |
| `Terminal.StepKeepsShape` | scripts/pty_dogfood.py:93-226 | every character, also one that raises, leaves the grid rows by cols and the cursor on it or one past a full row; a single column lets a wide character go one further |
| `Terminal.StepRaises` | scripts/pty_dogfood.py:147-154 | a character raises in exactly one situation: erase to line start while a wrap is pending |
| `Terminal.FreshScreenRaises` | scripts/pty_dogfood.py:147-154 | a new screen of any size reaches that situation: a line filled to its end, then the erase |
| `Terminal.ResizeKeepsShape` | scripts/pty_dogfood.py:93-100 | resizing keeps the shape and brings the cursor inside |
| `Terminal.ResizeUndoes` | scripts/pty_dogfood.py:93-100 | growing and shrinking back loses no cell |
| `TerminalText.ResizeKeeps` | scripts/pty_dogfood.py:93-100 | cells that both sizes have stay, new ones are blank, and the cursor stays or goes to the nearest edge |
| `Terminal.Session` | scripts/pty_dogfood.py:93-230 | any sequence of feeds and resizes keeps the shape |
| `Terminal.PutStaysExactly` | scripts/pty_dogfood.py:102-114 | a character leaves the cursor at most one past the row if and only if the screen has two columns or the character is not wide |
| `Terminal.RunConcat` | scripts/pty_dogfood.py:161-226 | running a concatenation is running its parts in turn |
| `Terminal.CutOnce` | scripts/pty_dogfood.py:161-230 | one cut changes nothing unless it parts the ESC inside an OSC string from a following bracket |
| `Terminal.CutSafeExactly` | scripts/pty_dogfood.py:228-230 | a place is safe to cut at, for every continuation, if and only if it is not right after an ESC inside an OSC string |
| `Terminal.RunRests` | scripts/pty_dogfood.py:201-230 | the machine is right after such an ESC only when it was the last character, so no feed leaves that state behind |
| `Terminal.BadCutShows` | scripts/pty_dogfood.py:228-230 | at such a place both brackets make the cut visible |
| `Terminal.PiecesActAsWhole` | scripts/pty_dogfood.py:161-230 | feeding in any pieces without such a cut gives the same grid, cursor and parser state as feeding it whole |
| `Terminal.FeedNothing` | scripts/pty_dogfood.py:161-230 | feeding nothing changes nothing, also while an escape is kept |
| `Terminal.ErasesExactly` | scripts/pty_dogfood.py:138-158 | each erase blanks exactly the cells of its region, and every other sequence blanks none |
| `Terminal.MovesUndo` | scripts/pty_dogfood.py:126-133 | up undoes down and left undoes right, when no edge is hit |
| `Terminal.MovesAdd` | scripts/pty_dogfood.py:126-133 | two relative moves in one direction are one move by the sum, also at the edge |
| `Terminal.AbsoluteIsBoth` | scripts/pty_dogfood.py:121-137 | the absolute move is the row move and the column move in either order |
| `Terminal.PrintShows` | scripts/pty_dogfood.py:102-114 | text that fits on the line, wide and combining characters included, fills its cells at the cursor and changes no other cell |
| `Terminal.WrapsToNextLine` | scripts/pty_dogfood.py:102-114 | a character that does not fit on the line, narrow or wide, starts the line below, or the last line again; a single column shows half of a wide one |
| `Terminal.TwoArguments` | scripts/pty_dogfood.py:116-120 | two decimal numbers and a semicolon are read as those two numbers |
| `Terminal.MoveReaches` | scripts/pty_dogfood.py:116-125 | the absolute move, as text, reaches every cell of the screen |
| `Terminal.MoveAndPrint` | scripts/pty_dogfood.py:102-230 | what a frame does: move and print shows exactly that text at exactly that place |
| `TerminalText.LineControls` | scripts/pty_dogfood.py:173-176 | a carriage return goes to the first column, a line feed one row down but not past the last, a bell nowhere |
| `TerminalText.TabStops` | scripts/pty_dogfood.py:179-180 | a tab goes to the next column that eight divides, or to the last one |
| `TerminalText.BackspaceOverstrikes` | scripts/pty_dogfood.py:177-178 | a character printed after a backspace replaces the one before it |
| `TerminalText.BackspaceAtStart` | scripts/pty_dogfood.py:177-178 | in the first column a backspace does nothing |
| `TerminalText.LinesShow` | scripts/pty_dogfood.py:165-187 | any lines that fit, with a carriage return and a line feed between them, fill consecutive rows from the first column on, and no other row changes |
| `TerminalText.ShortEscape` | scripts/pty_dogfood.py:189-200 | a two-character escape shows nothing |
| `TerminalText.OscShowsNothing` | scripts/pty_dogfood.py:201-211 | an operating system command shows nothing, whether a bell ends it or an escape with any character after it |
| `TerminalText.SequenceRuns` | scripts/pty_dogfood.py:212-225 | a control sequence does what its final character does with its arguments |
| `TerminalText.TruncatedRestarts` | scripts/pty_dogfood.py:217-221 | a sequence that a new escape cuts short is forgotten |
| `TerminalText.ArgumentsAre` | scripts/pty_dogfood.py:117-120 | any numbers with semicolons between them are those arguments, private or not; an empty place counts for nothing |
| `TerminalText.NoArguments` | scripts/pty_dogfood.py:120 | no argument, and one that is no number, read as zero |
| `TerminalText.Defaults` | scripts/pty_dogfood.py:121-137 | zero asks for the same move as one, a missing column is the first, and `f` is `H` |
| `TerminalText.LeavesAlone` | scripts/pty_dogfood.py:121-162 | moves change no cell, erasing moves no cursor, and every other sequence changes nothing |
| `TerminalText.WidthIs` | scripts/pty_dogfood.py:62-71 | two cells for wide characters and for pictures that do not combine, none for the other combining ones |
| `Screen.VtScreen.constructor` | scripts/pty_dogfood.py:78-86 | a blank screen with the cursor at the top left |
| `Screen.VtScreen.ResizeTo` | scripts/pty_dogfood.py:93-100 | the loops build the resized grid |
| `Screen.VtScreen.PutChar` | scripts/pty_dogfood.py:102-114 | writes a character with wrapping and wide cells |
| `Screen.VtScreen.ControlSequence` | scripts/pty_dogfood.py:116-159 | executes a control sequence in place, and raises exactly when the model does |
| `Screen.VtScreen.Consume` | scripts/pty_dogfood.py:166-226 | one character through the five parser states |
| `Screen.VtScreen.FeedText` | scripts/pty_dogfood.py:161-230 | the index loop and the kept escape compute the state machine's run |
| `Fnv.Fnv1a` | crates/leveler-core/build.rs:73-80 | the wrapping loop computes the 64-bit hash of the bytes |
| `Fnv.LabelValue` | scripts/schedule_soak.py:267-272 | the unbounded, masked loop computes the same hash of the UTF-8 bytes |
| `Fnv.LabelFor` | scripts/schedule_soak.py:267-272 | the label is the fixed prefix and that hash in 16 hex digits |
| `Fnv.LabelInjective` | scripts/schedule_soak.py:272 | equal labels come from equal hashes |
| `Fnv.LabelsDiffer` | scripts/schedule_soak.py:267-272 | homes whose UTF-8 forms differ in exactly one position have different labels |
| `Fnv.MaskIsRemainder` | scripts/schedule_soak.py:271 | masking with 2^k - 1 is the remainder modulo 2^k |
| `Fnv.XorUndoes` | crates/leveler-core/build.rs:76 | exclusive or with a byte loses nothing |
| `Fnv.MulUndoes` | crates/leveler-core/build.rs:77 | multiplication by the odd multiplier is undone by its inverse modulo 2^64 |
| `Fnv.StepInjective` | crates/leveler-core/build.rs:75-78 | each byte permutes the 64-bit states |
| `Fnv.HashInjective` | crates/leveler-core/build.rs:73-80 | so does each byte string |
| `Fnv.HashConcat` | crates/leveler-core/build.rs:73-80 | hashing a concatenation is hashing on from the first part |
| `Fnv.OneByteShows` | crates/leveler-core/build.rs:73-80 | byte strings of equal length that differ in exactly one position have different hashes |
| `FnvVectors.HashOfFoobar` | crates/leveler-core/build.rs:73-80 | the hash of "foobar" is the published one |
| `FnvVectors.LabelOfFoobar` | scripts/schedule_soak.py:267-272 | the label of that hash, character by character |
| `Lock.PayloadNamesWriter` | xtask/src/lock.rs:33-49 | the JSON that a process writes reads back as naming that process, whatever release, time and former owner it holds |
| `Lock.PayloadFields` | xtask/src/lock.rs:33-49 | what a process writes is read back field by field: the process, the release, the time and the owner it took over from |
| `Lock.LookupFirst` | xtask/src/lock.rs:64-67 | of several members with a key the first is found |
| `Lock.OwnerRoundsDown` | xtask/src/lock.rs:64-67 | a number in the file names the process it comes to when rounded down, within the range of process ids |
| `Lock.EmptyNamesNobody` | xtask/src/lock.rs:62-67 | a file that was created and not yet written names nobody |
| `Lock.LockFile.Acquire` | xtask/src/lock.rs:23-98 | refuses exactly when the file names another process that is alive or cannot be checked, or when a file operation fails, and then leaves the file alone; otherwise the file holds this process's payload, or nothing if the first write failed |
| `Lock.LockFile.Release` | xtask/src/lock.rs:100-104 | dropping removes the file, whoever it names |
| `Lock.LockFile.VerifyHeld` | xtask/src/lock.rs:131-156 | succeeds exactly when the file exists and names this process |
| `Lock.OneHolder` | xtask/src/lock.rs:23-104 | with acquiring as one step, in every reachable state at most one live process holds the lock and the file names it, over crashes, drops, reused process ids and any file left at the start |
| `Lock.SucceedsExactlyWhenFree` | xtask/src/lock.rs:73-90 | without reused process ids and with every question answered, acquiring succeeds if and only if nobody holds the lock |
| `Lock.OvertakenStaysLost` | xtask/src/lock.rs:131-156 | with separate steps, a holder that was overtaken once fails the check in every later state |
| `Lock.CheckCertifies` | xtask/src/lock.rs:131-156 | the check passes if and only if the file named the holder at every moment since it held the lock |
| `Lock.UninterruptedIsOneStep` | xtask/src/lock.rs:51-96 | the separate steps, run without interruption, do what the single step does |
| `Lock.UnreadableIsTakenOver` | xtask/src/lock.rs:63-90 | a file that cannot be read names nobody and is taken over; when overwriting fails too, everything stays as it was |
| `Lock.SplitStepsLetTwoHold` | xtask/src/lock.rs:51-90 | a concrete interleaving after which two live processes hold the lock, one of which fails the check and on dropping removes the other's file |
| `Lock.LateWriterStaysLost` | xtask/src/lock.rs:56-59 | a process whose file was renamed over or removed before it wrote its payload holds the lock all the same, and in no later state does the file name it |
| `Lock.SoleExactly` | xtask/src/lock.rs:51-96 | with separate steps, a move leaves every holder named by the file if and only if an overwrite happens while nobody else holds and a first write lands in the file its writer created |
| `Lock.ExclusiveExactlyWhenGuarded` | xtask/src/lock.rs:23-104 | in any run, every holder is the process that the file names at every moment, so at most one holds, if and only if every overwrite and every first write of the run meets that condition |
| `Lock.OneHolderExactlyWhenAlone` | xtask/src/lock.rs:23-104 | in any run, at most one live process holds the lock at every moment if and only if each begins to hold it while no other does |
| `Lock.OverwriteSafeExactly` | xtask/src/lock.rs:62-89 | an overwrite is safe if and only if reading the file once more, at that moment, would not find a holder named |
| `Lock.WholeAttemptsExclude` | xtask/src/lock.rs:23-104 | in any run in which no attempt is interrupted, at most one live process holds the lock and the file names it |
| `Lock.TwoReclaimersBothHold` | xtask/src/lock.rs:62-90 | a second interleaving: two processes read the same dead owner and both overwrite |
| `Paths.PathBuf.Push` | xtask/src/scope.rs:405-412 | pushing a name appends it, pushing the root replaces everything, and the text stays in normal form |
| `Paths.PathBuf.Pop` | xtask/src/scope.rs:408-411 | popping removes the last name and fails exactly on the root and on nothing |
| `Paths.LexicalNormalize` | xtask/src/scope.rs:400-416 | the loop computes the normal form or fails with it |
| `Paths.LexicalClean` | xtask/src/clean.rs:195-209 | the second implementation computes the same on every path |
| `Paths.RenderReads` | xtask/src/scope.rs:400-416 | a normal form reads back as its root and names: no dot component is left |
| `Paths.NormalizeIdempotent` | xtask/src/scope.rs:400-416 | normalising again changes nothing, and no dot component is left |
| `PathDots.DotsAreNothing` | xtask/src/scope.rs:400-416 | a separator at the end, a dot, a doubled separator, and a name that two dots take back do not change where a path leads |
| `PathDots.DotsClimb` | xtask/src/scope.rs:408-411 | two dots lead nowhere from the start and from the root |
| `PathDots.DotsTakeBack` | xtask/src/scope.rs:408-411 | after a name, at the start or under the root, they take it away |
| `Paths.FailsExactlyWhenClimbing` | xtask/src/scope.rs:408-411 | normalising fails if and only if some prefix of the path climbs above its start |
| `Paths.NormalizeJoined` | xtask/src/scope.rs:400-416 | joining a relative path before or after normalising is the same, and an absolute path replaces everything |
| `Paths.ResolveInside` | xtask/src/scope.rs:376-394 | the method resolves, or reports a missing repository, an escape, or a path outside |
| `Paths.ResolvesExactlyInside` | xtask/src/scope.rs:376-394 | a path resolves if and only if it leads somewhere whose names start with the repository's names, component by component, and then to that place |
| `Paths.ResolveFixedPoint` | xtask/src/scope.rs:376-394 | what resolves, resolves to itself, in full or relative to the repository |
| `Qualify.TakeRunId` | xtask/src/qualify.rs:76-94 | the byte checks accept exactly the well-formed 28-character ids, whatever characters follow |
| `Qualify.PushRuns` | xtask/src/qualify.rs:62-74 | the skipping scan finds the id after every occurrence of the marker, once each |
| `Qualify.NoOverlap` | xtask/src/qualify.rs:63-64 | the marker cannot begin again inside itself, so skipping past it misses none |
| `Qualify.CollectRuns` | xtask/src/qualify.rs:40-60 | the loop over lines collects the distinct mentions of the chosen lines |
| `Qualify.FindReleaseRuns` | xtask/src/qualify.rs:24-30 | the written runs when there are any, else all |
| `Qualify.RunsExactly` | xtask/src/qualify.rs:62-94 | a line names a run if and only if a marker with that well-formed id right after it stands somewhere in it |
| `Qualify.NamesExactly` | xtask/src/qualify.rs:62-94 | a text names a run if and only if it holds `eval/release/`, eight digits, a dash, six digits, a dash and twelve hex digits in either case |
| `Qualify.OpensExactly` | xtask/src/qualify.rs:43-47 | a line opens a section if and only if it begins with `written:`, apart from whitespace |
| `Qualify.ClosesExactly` | xtask/src/qualify.rs:48-51 | a line closes a section if and only if it holds nothing but whitespace |
| `Qualify.LinesExactly` | xtask/src/qualify.rs:42 | a line feed, with or without a carriage return before it, ends a line and belongs to none; an empty rest is no line |
| `Qualify.InsideExactly` | xtask/src/qualify.rs:42-53 | a line is in a section if and only if an opener comes before it with no blank line between |
| `Qualify.DistinctIs` | xtask/src/qualify.rs:69-72 | the result has the same entries, each once, in first-occurrence order |
| `Qualify.FoundExactly` | xtask/src/qualify.rs:24-60 | the result holds exactly the runs that the written sections name, or, when they name none, exactly the runs that any line names |
| `Qualify.OnlySectionsMatter` | xtask/src/qualify.rs:15-30 | when a written section names any run, lines outside the sections that open none may be changed, added or removed without effect |
| `Qualify.WrittenIsNamed` | xtask/src/qualify.rs:32-38 | what the sections name is also named by the text as a whole |
| `ProcessTree.Descendants` | scripts/schedule_soak.py:200-214 | terminates on every finite child relation, cyclic or not, and returns each process reachable in one or more steps exactly once |
| `Sorting.SortedIs` | scripts/schedule_soak.py:450-453 | sorting keeps the items and orders them by their keys |
| `Sorting.SortedIsStable` | scripts/schedule_soak.py:450-453 | items with equal keys keep their order |
| `Strings.BeginningSortsFirst` | scripts/schedule_soak.py:450-453 | a text sorts before everything that it begins |
| `SoakOverlap.CoveringRun` | scripts/schedule_soak.py:411-418 | a run active at the due time, and none is found only when there is none |
| `SoakOverlap.ObserveSkip` | scripts/schedule_soak.py:448-485 | missing if and only if the snapshot holds no skipped slot due inside another run; otherwise one that sorts first, with such a run |
| `SoakOverlap.ObserveQueue` | scripts/schedule_soak.py:487-528 | missing if and only if no settled run of a slot due inside another run exists; the policy is reported kept exactly when the run succeeded and began no earlier than the blocking run's finish |
| `SoakOverlap.ObserveAllow` | scripts/schedule_soak.py:530-573 | missing if and only if no run started inside another run's interval; a reported pair overlaps |
| `SoakOverlap.ProbeStatus` | scripts/schedule_soak.py:341-367 | PASS exactly when every slot is terminal and kept its policy, FAIL exactly when a terminal one did not, OPEN only within the window and UNKNOWN only after it |
| `SoakOverlap.Probe` | scripts/schedule_soak.py:2597-2609 | a probe passes only when the snapshot shows all three policies kept, fails only when it shows the queue or the allow policy broken, and must when it shows no kept instance beside the broken ones; it stays open or unknown only for want of an instance or of a settled second run |
| `SoakWitness.SkipSeenExactly` | scripts/schedule_soak.py:448-485 | the skip policy is shown by a skipped slot with one skipped run, due since the probe began and while a run of the definition was active |
| `SoakWitness.QueueExactly` | scripts/schedule_soak.py:487-528 | the queue policy is shown kept by a run of a slot due while another was active that succeeded and began no earlier than that one finished, and broken by one that ended otherwise |
| `SoakWitness.AllowExactly` | scripts/schedule_soak.py:530-573 | the concurrent policy is shown kept, broken or open by how the second of two runs active together ended |
| `SoakWitness.OneIsActive` | scripts/schedule_soak.py:411-418 | of two runs that follow each other without a gap exactly one is active at every instant |
| `SoakPlan.NamesDiffer` | scripts/schedule_soak.py:1997-2057 | neither plan schedules a name twice |
| `SoakPlan.DryInOrder` | scripts/schedule_soak.py:2002-2024 | in the dry run, what resumes, restarts or verifies something is due after it |
| `SoakPlan.SoakInOrder` | scripts/schedule_soak.py:2025-2057 | and so it is in the soak run |
| `SoakCoverage.RequiredExactly` | scripts/schedule_soak.py:3647-3706 | in both modes the required checks are exactly those that the handler of some planned action marks, or of a check that a probe schedules, and the seven that are derived at the end |
| `SoakCoverage.NumberedMarks` | scripts/schedule_soak.py:2484-2502 | numbered actions reach the handler of their prefix and mark the checks of their number, whatever the number |
| `SoakCoverage.ExactHandlers` | scripts/schedule_soak.py:2465-2483 | each name without a number reaches its own handler |
| `SoakActions.Supervisor.constructor` | scripts/schedule_soak.py:2278-2285 | the supervisor starts from the saved actions, or from its plan's when none are saved |
| `SoakSteps.PlansStart` | scripts/schedule_soak.py:1997-2057 | every planned action starts pending, untried and due at its offset |
| `SoakActions.RestartContinues` | scripts/schedule_soak.py:2285 | started again on what was saved, it goes on as if it had never stopped |
| `SoakActions.Supervisor.AddAction` | scripts/schedule_soak.py:2060-2065 | a name that is listed is not added again |
| `SoakActions.Supervisor.ExecuteAction` | scripts/schedule_soak.py:2417-2463 | one execution with its four ways to end |
| `SoakActions.Supervisor.Play` | scripts/schedule_soak.py:2388-2391 | one pass over a copy of the list |
| `SoakActions.NamesServed` | scripts/schedule_soak.py:2465-2503 | every name of the dry-run plan has a handler |
| `SoakActions.SoakNamesServed` | scripts/schedule_soak.py:2465-2503 | every name of the soak plan has a handler |
| `SoakActions.VerifyServed` | scripts/schedule_soak.py:2585-2586 | so does every check that an overlap probe schedules |
| `SoakActions.PlayedKeeps` | scripts/schedule_soak.py:2388-2463 | a round settles each due action by what its handler answered, touches no other, and keeps names unique and failures recorded |
| `SoakSteps.DueSettles` | scripts/schedule_soak.py:2388-2463 | an action is executed if and only if it is pending and due; returning makes it done, raising failed, and the fortieth retry failed; what fails leaves an error |
| `SoakSteps.RetriesExactly` | scripts/schedule_soak.py:2428-2445 | an action whose handler only asks for retries is pending until its fortieth execution and failed from then on |
| `SoakSteps.ProbeSchedules` | scripts/schedule_soak.py:2585-2586 | a probe schedules its own check 150 seconds later, once |
| `SoakSteps.DryProbeSchedules` | scripts/schedule_soak.py:2585-2586 | in a dry run the check is the first |
| `SoakActions.SettledStays` | scripts/schedule_soak.py:2388-2463 | a settled action never changes and is never executed again, in any run |
| `SoakActions.ExecutionsBounded` | scripts/schedule_soak.py:2428-2445 | a pending action has used one try per execution and is settled by the fortieth |
| `SoakActions.EveryRun` | scripts/schedule_soak.py:1997-2065 | in every run of either plan names stay unique, have handlers, and no action, planned or added meanwhile, is pending after 40 executions |
| `SoakActions.AddedBounded` | scripts/schedule_soak.py:2388-2463 | the bound holds from any state for actions that do not exist yet |
| `SoakActions.FailedNeverPasses` | scripts/schedule_soak.py:3709-3740 | a run with a failed action never gets the verdict PASS, whatever its checks say |
| `SoakActions.RaisedNeverPasses` | scripts/schedule_soak.py:2446-2459 | nor does a run in which a handler once raised |
| `SoakVerdict.EvidenceIsRequired` | scripts/schedule_soak.py:3647-3706 | both modes require the checks that the snapshots decide |
| `SoakVerdict.ComputeVerdict` | scripts/schedule_soak.py:3709-3740 | PASS if and only if nothing stopped the run, no error is recorded, it lasted, and every required check is present and passed; the reasons of a run that was not stopped name all the missing, all the failed and all the errors, and nothing else |
| `SoakVerdict.PassesExactly` | scripts/schedule_soak.py:3709-3740 | when a run passes, in the numbers and words of the code |
| `Dict.BumpCounts` | scripts/schedule_soak.py:3183-3185 | a bump adds one to its own count, nothing to any other, and one to the sum |
| `SoakEvidence.CountRuns` | scripts/schedule_soak.py:3265-3313 | the loop over a lane's runs counts every run once by state, counts successes by definition, and lists the unsettled and the failed |
| `SoakEvidence.SortOccurrences` | scripts/schedule_soak.py:3314-3362 | the loop over occurrences lists exactly the duplicated, the classified without a run and the stranded |
| `SoakEvidence.MarkerCounts` | scripts/schedule_soak.py:1782-1801 | each key has the line count of the last marker with that key |
| `SoakEvidence.JudgeEffects` | scripts/schedule_soak.py:3363-3384 | each shell key is judged by its lines and the succeeded runs of its definition |
| `SoakEvidence.AggregateRun` | scripts/schedule_soak.py:3211-3437 | the evidence lists exactly the rows that the lanes' snapshots give rise to, and the counts per state add up to the number of runs, in each lane and in all |
| `SoakClean.RunRowsExactly` | scripts/schedule_soak.py:3286-3310 | the lists of runs hold exactly those under way, and those failed, unknown, blocked, waiting for approval or cancelled |
| `SoakClean.SlotRowsExactly` | scripts/schedule_soak.py:3318-3362 | the lists of occurrences hold exactly those with two runs, those classified without one, and those completed without one or pending for too long |
| `SoakClean.LaneSuccessesAre` | scripts/schedule_soak.py:3588-3598 | the successes of a lane, by counting its runs |
| `SoakEvidence.DuplicateSideEffects` | scripts/schedule_soak.py:716-737 | duplicated occurrences plus excess lines of effects that do not match |
| `SoakClean.ExcessOfOne` | scripts/schedule_soak.py:725-736 | one effect adds its lines beyond the successes unless it matches |
| `SoakEvidence.EffectMismatches` | scripts/schedule_soak.py:704-713 | empty if and only if no judged effect disagrees |
| `SoakEvidence.MixedOk` | scripts/schedule_soak.py:3588-3602 | shell successes against ten times the agent successes |
| `SoakEvidence.DeriveChecks` | scripts/schedule_soak.py:3509-3603 | the checks that the evidence decides, and no other changed |
| `SoakPass.MismatchesAreUnclean` | scripts/schedule_soak.py:704-713 | a lane has no mismatch if and only if all its shell markers have an allowed number of lines |
| `SoakPass.ChecksExactlyClean` | scripts/schedule_soak.py:3509-3587 | under the frozen thresholds the occurrence, outcome and effect checks pass if and only if the snapshots are clean |
| `SoakClean.CleanExactly` | scripts/schedule_soak.py:3286-3384 | clean means, exactly: no run is dispatching or running, and outside the fault and agent lanes none is failed, unknown, blocked or waiting for approval; no occurrence has two runs, is completed or lost without one, or waits long past its time; and each shell marker has one line per succeeded run, or in the fault lane at most one more per unknown run |
| `SoakClean.Finalize` | scripts/schedule_soak.py:4166-4184 | a PASS verdict implies all that, and anything else makes a run that was not stopped FAIL; PASS also needs shell successes, at least ten for each agent success outside a dry run |

## Left out

- JsonPrinter.WriteCompact: numbers that are not integral or reach 9.2e18, infinities and NaN are excluded, because their text is decided by floating-point formatting.
- JsonPrinter.WritePretty: excludes the same numbers.
- JsonPrinter.ToPretty: excludes the same numbers.
- JsonPrinter.CompactCarries: excludes the same numbers.
- JsonPrinter.PrettyCarries: excludes the same numbers.
- JsonPrinter.PrintParse: excludes the same numbers.
- JsonPrinter.PrintInjective: excludes the same numbers.
- JsonCursor.Cursor.Number: a numeral has its exact value; rounding to a 64-bit float and the spellings of infinity, which the scan cannot reach, are not modelled.
- JsonNumbers.NumeralMeans: the value is exact; rounding to a 64-bit float is not modelled.
- JsonNumbers.ShorterNumerals: the same.
- Hash.PadInjective: holds under 2^61 bytes only, because the bit count wraps at 2^64.
- Hash.PadEnds: the same bound.
- Clock.DaysOfCivil: day numbers and years are unbounded; overflow of 64-bit integers at the ends of their range is not modelled.
- Clock.CivilOfDays: the same.
- TimestampForms.FractionReads: exact arithmetic; rounding of the fraction to a 64-bit float is not modelled.
- Timestamps.Iso8601RoundTrip: the epoch is a real number; rounding of floating-point sums and casts that saturate are not modelled.
- Timestamps.TextOrderIsTimeOrder: years 0 to 9999 only; `TimestampOrder.OrderExactly` has all years.
- Timestamps.SortedTextsAreSortedTimes: the same; `TimestampOrder.TextSortIsTimeSortExactly` has all years.
- Terminal.StepKeepsShape: needs at least one column and one row; the two Unicode width tables are parameters.
- Terminal.Session: a feed that raises leaves the state it had reached and drops the rest of its text.
- Screen.VtScreen.constructor: needs at least one column and one row; `reset`, which a new screen stands for, and `lines`, `text` and `find`, which only read the grid, are left out.
- Screen.VtScreen.ResizeTo: the same least size.
- Screen.VtScreen.ControlSequence: Python's limit on the number of digits of an integer is not modelled.
- Lock.LockFile.Acquire: the texts of failures are left out; a write that fails leaves nothing rather than a part.
- Lock.OvertakenStaysLost: a write lands whole or not at all; a torn payload is not modelled.
- Lock.SucceedsExactlyWhenFree: a reused process id may make a stale file look held, so reuse is excluded here and nowhere else.
- Paths.LexicalNormalize: Windows prefixes are left out; paths are text with the separator `/`.
- Paths.LexicalClean: the same.
- Paths.ResolveInside: canonicalising the repository is a parameter.
- Paths.ResolvesExactlyInside: the repository path is what canonicalising returns: absolute and in normal form.
- Paths.PathBuf.Push: only single names and the root are pushed, as the two loops do.
- ProcessTree.Descendants: the child relation does not change while it is read.
- SoakOverlap.ObserveSkip: the fields copied into a report and its redaction are left out; a timestamp that does not parse is not modelled.
- SoakOverlap.ObserveQueue: the same.
- SoakOverlap.ObserveAllow: the same.
- SoakActions.Supervisor.ExecuteAction: what handlers do outside the action list, recording and persistence are left out; details attached to actions too.
- SoakCoverage.RequiredExactly: which checks a handler marks is modelled, not what decides whether they pass.
- SoakEvidence.AggregateRun: latencies, usage, expected slots, wake-ups, sessions, resource samples and occurrence-state counters are left out.
- SoakEvidence.CountRuns: usage and latency accumulation are left out.
- SoakEvidence.DeriveChecks: checks from probes, resources, usage, cleanup and budget are a parameter.
- SoakClean.Finalize: thresholds are the frozen ones; cleanup and report writing are left out.
- Hashing a file, and every other read of a file, a process table, a database or the network: foreign calls.
- Fault-recovery facts, misfire facts, percentiles, wake gaps and expected slots of the soak runner: single passes over rows or sorted numbers; the checks that the first four decide are among those that `SoakEvidence.DeriveChecks` takes as a parameter, and expected slots decide none.
- Package lookup and the choice of formatting scope: one-loop facts over the file system.
- The release pipeline, its state file apart from the atomic write, version handling, the command line, and the runtime crates.
