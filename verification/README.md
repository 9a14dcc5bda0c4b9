# Taiwan lottery predictor: the answer parser and the draw statistics

The system fetches six months of 大樂透 (Lotto 6/49) draws. It builds a
text summary of them and asks a language model for number recommendations.
It then reads the recommended sets back out of the model's free-text answer.
This project models the parts that are pure computation, in Dafny:

- **The answer parser** `parse_ai_prediction` of the backend
  (backend/main.py, lines 61-162). It is a cascade of four `re.findall`
  stages:
  1. 第一組/第二組 with a parenthesised category;
  2. the same, allowing up to two `*` before 第 and up to two after the colon;
  3. a Markdown `**彩券號碼:**` form;
  4. a bare bracket group followed by the special number.

  A shared step reads the numbers out of each bracket group. A candidate is
  kept only when exactly six integers come out. Each regex becomes a
  matcher over the remaining text (`Patterns`), and `findall` becomes a
  leftmost, non-overlapping scan (`Patterns.FindAll`). The cascade itself is
  `Parser.Select` and `Parser.Parse`.
- **The earlier, strict parser** of test_regex.py (lines 49-79). It accepts
  only six comma-separated digit runs. Its sample answer (lines 3-47) is
  modelled too: both parsers are proved to read that text as the two sets
  it contains (`Fixture`).
- **The statistics:**
  - the counts of the 獎號 (main numbers) and 特別號 (special numbers);
  - the stable descending sort by count;
  - the hot and cold top-10 slices;
  - the statistics record of the prediction endpoint (backend/main.py,
    lines 207-246);
  - the never-appeared sets within 1..49;
  - the data summary at the head of the prompt (Lottery_predict.py, lines
    76-120);
  - the collection of the monthly results, sorted by 期別 (draw number),
    newest first (Lottery_predict.py, lines 37-47).

Python dicts keep insertion order, and that order decides how ties leave
the stable sort. A frequency dict is therefore modelled as its item list in
insertion order (`Frequency.Tally`). Python's stable `sort(reverse=True)` is
modelled as an insertion sort (`Sorting.SortDesc`). It is proved to be a
permutation, descending and stable. It is also proved to be the only
sequence with those three properties (`Sorting.StableDescendingUnique`), so
it is the order Python produces.

Three behaviours of the code shape the model:

- When no set is accepted the parser returns `None`, not an empty list
  (backend/main.py line 162).
- A later stage runs only when the earlier regexes matched nothing
  (lines 79, 85 and 115), not when they yielded no valid set. Stage 1
  matches whose sets are all rejected end the parse with `None`. Stage 4
  runs only after stage 3 produced no set.
- The only check on a candidate's main numbers is that there are six
  (lines 101, 128 and 151): they need not be distinct or lie in 1..49.

Modules:

| module | file | what |
|---|---|---|
| `Wrappers` | wrappers.dfy | `Option` |
| `Chars` | chars.dfy | the character classes `\s`, `\d`, the separator class |
| `Text` | text.dfy | spans, `strip`, `split(',')` |
| `Numerals` | numerals.dfy | `int()` of digit strings, `str()` of integers and lists |
| `Patterns` | patterns.dfy | the five regexes as matchers, `findall` |
| `Extract` | extract.dfy | the shared number-extraction step |
| `Parser` | parser.dfy | the gate, the labelling and the four-stage cascade |
| `Scanning` | scanning.dfy | text in which a pattern can start no match |
| `RoundTrip` | roundtrip.dfy | answers written in the format the prompt asks for |
| `StrictParser` | strict.dfy | the parser of test_regex.py |
| `Fixture` | fixture.dfy | the sample answer of test_regex.py |
| `Sorting` | sorting.dfy | stable descending sort |
| `Frequency` | frequency.dfy | frequency dicts, never-appeared sets, sorted sets |
| `Statistics` | statistics.dfy | sorted counts, hot/cold, statistics, collection, summary |

## Model

| member | source | states |
|---|---|---|
| Parser.Parse | backend/main.py:61-162 | A missing or empty text gives `None`. Otherwise the result is `None` or a list of one or two sets, never an empty list. Every set holds six numbers, and its reason is the fixed prefix followed by its type. |
| Parser.NonEmpty | backend/main.py:162 | An empty list of sets becomes `None`; a non-empty one is returned as it is. |
| Parser.Build | backend/main.py:92-160 | At most one set per match, each valid: six numbers and the reason built from its type. Which match contributes what, in order, is stated by `Parser.BuildStep` and `Parser.BuildPair`. |
| Parser.Labelled | backend/main.py:139-160 | Stages 1-2 read the first two matches into at most two valid sets. Which sets, and typed how, is stated by `Parser.ParseByOrdinal`, `Parser.ParseByDecorated` and `Parser.RejectedDropped`. |
| Parser.MarkdownSets | backend/main.py:85-112 | Stage 3 yields nothing once stage 1 or 2 matched. When it runs, `Parser.MarkdownSetsDecide` and `Parser.ParseByMarkdown` state that its sets are the result. |
| Parser.Select | backend/main.py:76-141 | Whatever the stages found, at most two sets come out, each with six numbers and the reason built from its type. |
| Parser.OrdinalDecides | backend/main.py:76-85 | Once the stage-1 pattern matches anything, the result depends on the stage-1 matches alone: stages 2-4 never contribute. |
| Parser.ParseByOrdinal | backend/main.py:139-160 | If stage 1 matches, the parse is exactly the accepted sets among the first two stage-1 matches, each typed by its own category group. |
| Parser.ParseByDecorated | backend/main.py:79-160 | If stage 1 matches nothing and stage 2 matches, the parse is exactly the accepted sets among the first two stage-2 matches, each typed by its own category group. |
| Parser.OrdinalRejectedGivesNothing | backend/main.py:139-162 | When stage 1 matched but every one of its first two matches fails the six-number gate, no set is produced, even if a later stage would have found valid sets. |
| Parser.MarkdownSetsDecide | backend/main.py:85-115 | When stages 1-2 match nothing and stage 3 accepts a set, the result is stage 3's sets and stage 4 does not run. |
| Parser.ParseByMarkdown | backend/main.py:85-115 | If stages 1-2 match nothing and the Markdown matches yield a set, the parse is the positional reading of the Markdown matches. |
| Parser.MarkdownRejectedFallsThrough | backend/main.py:115-117 | When stages 1-2 match nothing and stage 3 has two or more matches that are all rejected, the result comes from stage 4. |
| Parser.LoneMatchIgnored | backend/main.py:88-118 | With stages 1-2 silent, a single Markdown match and a single bracket match add nothing: stages 3 and 4 need at least two matches. |
| Parser.ParseByBracket | backend/main.py:115-138 | When stages 1-3 match nothing, the parse is the positional reading of the bare-bracket matches. |
| Parser.StageFourWhenNoMarkdownSet | backend/main.py:115-117 | When stages 1-2 match nothing and the Markdown matches yield no set, for whatever reason, the cascade's result is stage 4's positional reading. |
| Parser.ParseByStageFour | backend/main.py:115-138 | Lifted to the whole parser: with stages 1-2 silent and no Markdown set, the parse is the positional reading of the bare-bracket matches, or `None` when that is empty. |
| Parser.KindFollowsIndex | backend/main.py:118-131 | Positional types go by match index: if match 0 is rejected and match 1 accepted, the one set is typed 熱門號碼組合 and carries match 1's numbers. |
| Parser.RejectedDropped | backend/main.py:141-160 | A rejected labelled match is dropped and its accepted sibling is kept with its own category as type. |
| Parser.FirstTwoOnly | backend/main.py:141 | Matches after the first two never change the result, for labelled and positional reading alike. |
| Parser.FirstTwo | backend/main.py:92 | `matches[:2]`: a prefix of the matches, of length two when there are at least two, and all of them otherwise. |
| Parser.Positional | backend/main.py:118-138 | Fewer than two matches give no sets; otherwise at most two sets, each valid. |
| Parser.Accept | backend/main.py:145-160 | A candidate becomes a set iff its bracket group yields exactly six integers. The set carries those integers, the special number's value, the given type, and the reason prefix followed by that type. No range, duplicate or special-versus-main check is made. |
| Patterns.MatchOrdinal | backend/main.py:75 | A stage-1 match starts with 第 and has `(` in fourth place. Its category is non-empty without `)`, its bracket group is non-empty without `]`, its special group is a digit run, and the scan resumes strictly later. |
| Patterns.MatchDecorated | backend/main.py:81 | A stage-2 match has the same group shapes as a stage-1 match. |
| Patterns.DecoratedBacktracking | backend/main.py:81 | The stage-2 pattern, tried the way the regex engine backtracks over its optional leading stars, matches exactly where the ordinal part matches after up to two stars are dropped. |
| Patterns.OrdinalNeedsCharacter | backend/main.py:75 | No ordinal match can start at a `*`. |
| Patterns.DecoratedPrefixIrrelevant | backend/main.py:81-82 | `findall` of the stage-2 pattern returns the same groups as the pattern without its leading `\*?\*?`. |
| Patterns.MatchMarkdown | backend/main.py:87 | A stage-3 match starts with `**彩`, has no category group, a non-empty bracket group without `]`, and a digit-run special group. |
| Patterns.BracketGroup | backend/main.py:116 | `\[([^\]]+)\]`: the text is `[`, the group, `]`, then the rest; the group is non-empty and holds no `]`. |
| Patterns.SpecialTail | backend/main.py:116 | The special-number group is a digit run followed by no further digit: `\d+` is greedy. |
| Patterns.NumbersAndSpecial | backend/main.py:116 | A bracket-and-special match starts at `[`, its group holds no `]`, and its special group is a digit run. |
| Patterns.SkipStars | backend/main.py:81 | `\*?\*?` removes at most two leading characters, each a `*`, and leaves no `*` in front unless it removed two. |
| Patterns.MatchAt | backend/main.py:75-116 | A match of any of the five patterns at the start of a text is well formed for that pattern and leaves a strictly shorter rest, so `findall` always advances. |
| Patterns.StrictRepeat | test_regex.py:56 | `(?:,\s*\d+){n}` splits the text into what it covers and the rest, losing nothing; `Patterns.RepeatItems` states what the covered part holds. |
| Patterns.StrictShape | test_regex.py:56 | The group shape the strict regex admits: six comma-separated pieces, a bare digit run first, then digit runs after optional whitespace. `Patterns.StrictGroup` proves every strict match has it; `Patterns.StrictShapeStripped` that each piece then strips to digits. |
| Patterns.StrictGroup | test_regex.py:56 | The strict bracket group splits at `,` into six pieces: the first a bare digit run, each later one a digit run after optional whitespace. So no whitespace opens the group or stands before a comma. The group is a prefix of the text. |
| Patterns.MatchStrict | test_regex.py:56 | A strict match starts at `[`. Its group has the strict shape: a bare digit run, then five digit runs each after `,` and optional whitespace. Its special group is a digit run. |
| Patterns.RepeatItems | test_regex.py:56 | What `n` rounds of `,\s*\d+` cover starts with a comma and splits at `,` into `n` digit runs, each after optional whitespace. |
| Patterns.StrictShapeStripped | test_regex.py:56-66 | Every piece of a strict group strips to a digit run, so `int()` of each stripped piece cannot fail. |
| Patterns.FindAll | backend/main.py:76 | Every candidate `findall` returns is well formed for its pattern, and there are no more candidates than characters. |
| Extract.Clean | backend/main.py:95 | The cleaned text keeps only digits, the comma classes and whitespace. A text holding only those is left unchanged. |
| Extract.CleanAppend | backend/main.py:95 | Cleaning works character by character: cleaning a concatenation is concatenating the cleaned parts. |
| Extract.SplitSeps | backend/main.py:97 | The cut at separator runs: no piece holds a separator, and only the first and last pieces can be empty. |
| Extract.Gaps | backend/main.py:97 | The runs the split cuts at are non-empty and consist of separators only. |
| Extract.SplitSepsRebuild | backend/main.py:97 | The split loses nothing: there is one separator run between each two pieces, and putting the runs back between the pieces gives the text. |
| Extract.SplitSepsJoin | backend/main.py:97 | Splitting a list written as `str(list)` writes it gives back exactly the decimal numerals of its items. |
| Extract.TokenValues | backend/main.py:98-99 | At most one integer per piece; `Extract.TokenValuesDecimals` states that the digit pieces of a written list read back as the list. |
| Extract.ExtractNumbers | backend/main.py:95-99 | The numbers read out of a bracket group; `Extract.ExtractJoined` proves the round trip on written lists, `Extract.ExtractDeletes` and `Extract.ExtractFusesDigits` what deleted characters do. |
| Extract.TokenValuesDecimals | backend/main.py:98-99 | Keeping the digit pieces and applying `int()` to the decimal numerals of a list gives back the list. |
| Extract.ExtractJoined | backend/main.py:95-99 | Round trip: extracting numbers from a non-negative list written as `str(list)` writes it gives back exactly that list. |
| Extract.ExtractDeletes | backend/main.py:95-99 | A character outside the kept classes is deleted, not turned into a separator: removing it does not change the extracted numbers. |
| Extract.ExtractFusesDigits | backend/main.py:95-99 | Two digit runs around a deleted character fuse into one number: `1-2` reads as 12. |
| Numerals.NatToString | backend/main.py:152 | `str(n)` is a digit string of ASCII digits that `int()` reads back as `n`, with no leading zero unless it is `0` itself. |
| Numerals.IntToString | Lottery_predict.py:84 | `str(i)` is non-empty; negative integers get a minus sign before the numeral of their absolute value. |
| Text.SkipSpace | backend/main.py:75 | `\s*` drops a leading run of whitespace and stops at a non-space character. |
| Text.Strip | test_regex.py:66 | `strip()` leaves neither leading nor trailing whitespace. |
| Text.StripPadding | test_regex.py:66 | `strip()` removes the leading and trailing whitespace and nothing else: its result sits in the text right after the leading whitespace run, with only whitespace behind it. |
| Text.StripUnique | test_regex.py:66 | Conversely, an unpadded string that sits in the text with only whitespace around it is what `strip()` returns. |
| Text.StripPadded | test_regex.py:66 | Stripping leading whitespace from an unpadded item gives the item back. |
| Text.SplitOn | test_regex.py:66 | `split(',')` pieces contain no comma. |
| Text.SplitOnAppend | test_regex.py:66 | Splitting at a comma splits each side separately and concatenates the pieces. |
| Scanning.SkipClear | backend/main.py:76 | `findall` over text that starts no match, followed by more text, finds exactly what it finds in the rest. |
| Scanning.SkipHeading | test_regex.py:29 | A bold ordinal heading with a space before its parenthesis starts no stage-1 or stage-2 match. |
| RoundTrip.LineMatches | backend/main.py:75 | A line in the prompt's requested format is a stage-1 (and stage-2) match with exactly its category, its numbers as written and its special number. |
| RoundTrip.Line | Lottery_predict.py:162 | One line of the format the prompt demands. `RoundTrip.LineMatches` proves it is a stage-1 match with its own category, numbers and special number; `RoundTrip.ParseTwoLines` that two of them parse back as written. |
| RoundTrip.FindAllTwoLines | backend/main.py:76 | `findall` over two such lines returns exactly their two candidates, in order. |
| RoundTrip.AcceptLine | backend/main.py:145-160 | The candidate of a line with six numbers passes the gate, as the set with that line's type, numbers and special number. |
| RoundTrip.ParseLine | backend/main.py:70-75 | Round trip: one line in the requested format parses as exactly the set it writes, through stage 1. |
| RoundTrip.ParseTwoLines | Lottery_predict.py:162 | Round trip: an answer of two lines in the format the prompt demands parses as exactly the two sets written, each with its own category as type. |
| StrictParser.ParseStrict | test_regex.py:49-79 | Empty text gives `None`. Otherwise a result exists iff the strict pattern matches at least twice. It is then exactly two valid sets: the first built from the first match and typed 冷門號碼組合, the second from the second match and typed 熱門號碼組合. |
| StrictParser.StrictSet | test_regex.py:64-77 | A strict match becomes a set with the positional type, its six numbers, its special number's value and the reason built from the type. |
| StrictParser.Values | test_regex.py:66 | One integer per piece, each the value of the stripped piece; `StrictParser.ValuesDecimals` states that pieces stripping to a list's numerals read back as the list. |
| StrictParser.StrictNumbers | test_regex.py:66 | Splitting a strict group on `,` and stripping yields exactly six integers. |
| StrictParser.StrictNeedsDigitFirst | test_regex.py:56 | A bracket group that does not start with a digit (a space just inside the bracket, say) is no strict match. |
| StrictParser.StrictNeedsAsciiComma | test_regex.py:56 | A number followed by anything other than a digit or an ASCII comma (a full-width comma, a space) is no strict match. |
| StrictParser.StrictNeedsAsciiCommas | test_regex.py:56 | A list that stops after fewer than six numbers, the last followed by anything other than a digit or an ASCII comma (a space before a comma, a full-width comma), is no strict match, whichever number it stops after. |
| StrictParser.RepeatStopsShort | test_regex.py:56 | `(?:,\s*\d+){n}` fails on a text whose rounds stop, with no comma next, after fewer than `n` of them. |
| StrictParser.SplitJoined | test_regex.py:66 | Splitting a written list on `,` gives one piece per item, and the stripped pieces are exactly the numerals of the items. |
| StrictParser.ValuesDecimals | test_regex.py:66 | Reading pieces that strip to the numerals of a list gives back the list. |
| StrictParser.StrictNumbersJoined | test_regex.py:66 | Round trip: six numbers written as `str(list)` writes them form a strict group that reads back as the same six numbers. |
| StrictParser.StrictReadsPair | test_regex.py:63-77 | When the first two strict matches are lists written as `str(list)` writes them, the result is their two sets, typed cold then hot, whatever matches follow. |
| StrictParser.ParseStrictTwoLines | test_regex.py:56-79 | Round trip: two lines in the requested format parse as the two sets written, typed positionally. |
| Fixture.LabelledFindNothing | test_regex.py:29 | In an answer laid out like the sample, stages 1 and 2 find nothing, because of the space in `第一組 (`. |
| Fixture.MarkdownFindsNothing | test_regex.py:3-47 | In such an answer the Markdown stage finds nothing. |
| Fixture.BracketsFindLines | test_regex.py:29-40 | In such an answer stage 4 and the strict pattern find exactly the two number lines. |
| Fixture.ParseLayout | backend/main.py:115-138 | An answer laid out like the sample parses, through stage 4, as its two number lines, typed cold then hot. |
| Fixture.ParseStrictLayout | test_regex.py:56-79 | The strict parser reads such an answer as the same two sets. |
| Fixture.ParseFixture | test_regex.py:3-47 | The backend parser reads the sample answer as [10, 12, 18, 30, 31, 44] + 38 (冷門號碼組合) and [2, 5, 15, 20, 33, 45] + 10 (熱門號碼組合). |
| Fixture.ParseStrictFixture | test_regex.py:81 | The strict parser reads the sample answer as the same two sets. |
| Sorting.SortDescPermutes | Lottery_predict.py:47 | Sorting rearranges the list: same multiset of elements. |
| Sorting.SortDesc | Lottery_predict.py:47 | `sort(key, reverse=True)` keeps the length. `Sorting.SortDescPermutes`, `Sorting.SortDescDescending` and `Sorting.SortDescStable` state it is a stable descending permutation, and `Sorting.StableDescendingUnique` that there is only one such. |
| Sorting.SortDescDescending | Lottery_predict.py:47 | The sorted list is non-increasing in the key. |
| Sorting.SortDescStable | Lottery_predict.py:47 | For every key value, the elements with that key keep their relative order. |
| Sorting.StableDescendingUnique | Lottery_predict.py:47 | Two descending lists with the same elements per key, in the same order, are equal: a stable descending sort has exactly one result. |
| Sorting.SortDescTiesInOrder | backend/main.py:237 | Two elements with equal keys stand in the sorted list in the order they stood in the input. |
| Frequency.BumpGet | Lottery_predict.py:94 | One `d[x] = d.get(x, 0) + 1` adds one to the count of `x` and leaves every other count alone. |
| Frequency.Bump | Lottery_predict.py:94 | One counting step adds at most one item; `Frequency.BumpGet` states which count changes and by how much. |
| Frequency.Tally | Lottery_predict.py:91-94 | The dict the counting loop builds, as its items in insertion order; `Frequency.TallyCounts`, `Frequency.TallyGet` and `Frequency.TallyFirstEncounter` state its counts and order. |
| Frequency.CountDraws | Lottery_predict.py:88-96 | The loop that fills both dicts together; `Frequency.CountDrawsTallies` states that each dict is the tally of its own values. |
| Frequency.TallyGet | Lottery_predict.py:91-94 | After the counting loop, the count of `n` is its number of occurrences. |
| Frequency.TallyKeys | Lottery_predict.py:91-94 | A number is a key iff it occurs. |
| Frequency.TallyCounts | backend/main.py:228-234 | No number is counted twice; each item's count is its number's occurrences, and no count is 0. |
| Frequency.TallyTotal | Lottery_predict.py:91-94 | The counts sum to the number of values counted. |
| Frequency.TallyFirstEncounter | Lottery_predict.py:91-96 | The dict's items stand in the order of their numbers' first occurrences. |
| Frequency.CountDrawsTallies | Lottery_predict.py:88-96 | The loop that counts main numbers and special numbers together builds each dict as if it had counted its own values alone. |
| Frequency.DrawTotals | Lottery_predict.py:88-96 | With six main numbers per draw, the main counts sum to six times the draws and the special counts to the draws. |
| Frequency.NeverAppearedIff | Lottery_predict.py:104-107 | A number never appeared iff it lies in 1..49 and does not occur among the counted values. |
| Frequency.NeverAppeared | Lottery_predict.py:105-107 | `set(range(1, 50))` minus the dict's keys lies in 1..49; `Frequency.NeverAppearedIff` states exactly which numbers it holds. |
| Frequency.NeverAppearedPartition | Lottery_predict.py:104-107 | The never-appeared numbers are disjoint from the counted ones, and together with them they cover 1..49. |
| Frequency.AscendingSpec | Lottery_predict.py:109 | `sorted(set)` over 1..49: the list holds exactly the set's members, strictly increasing. |
| Frequency.Ascending | Lottery_predict.py:109 | `sorted` of a set of 1..49, by walking the range; `Frequency.AscendingSpec` states it lists exactly the set's members, strictly increasing. |
| Frequency.IncreasingUnique | Lottery_predict.py:109 | Two strictly increasing lists with the same members are equal, so the ascending listing is the one `sorted` returns. |
| Statistics.FrequencyOrderCounts | backend/main.py:237 | The sorted frequency items are descending by count. Each number appears once, with its count equal to its occurrences and at least 1. A number is listed iff it occurs. |
| Statistics.FrequencyOrder | backend/main.py:237 | The frequency items sorted by count, largest first; `Statistics.FrequencyOrderCounts` and `Statistics.FrequencyOrderTies` state their counts and order. |
| Statistics.FrequencyOrderTies | Lottery_predict.py:100-102 | Numbers with equal counts are listed in the order of their first occurrence. |
| Statistics.Hot | backend/main.py:238 | The hot list is the first ten items, or all of them when there are fewer. |
| Statistics.Cold | backend/main.py:239 | The cold list is the last ten items, or all of them when there are fewer. |
| Statistics.HotColdCounts | backend/main.py:237-239 | Each hot number counts at least as often as every number after the hot list, and each cold number at most as often as every number before the cold list. No zero-count number is in either list. |
| Statistics.HotColdOverlap | backend/main.py:237-239 | With at least one number counted, the hot and cold lists share an item iff fewer than 20 distinct numbers occurred. |
| Statistics.Day | backend/main.py:220-221 | `date[:10]` is the first ten characters of the date, or the whole date when it is shorter. |
| Statistics.Statistics | backend/main.py:207-225 | The statistics record exists iff there is at least one draw. |
| Statistics.StatisticsCounts | backend/main.py:228-246 | The number and special frequencies in the record are the sorted true counts, and hot and cold are their first and last ten items. |
| Statistics.GatheredMembers | Lottery_predict.py:37-44 | A draw is gathered iff some month's fetch returned it; failed fetches add nothing. |
| Statistics.Gathered | Lottery_predict.py:34-44 | The draws of every successful, non-empty fetch, in month order; `Statistics.GatheredMembers` states which draws these are. |
| Statistics.Collect | Lottery_predict.py:47 | The gathered draws sorted by 期別, latest first; `Statistics.CollectSpec` states it is their stable descending order. |
| Statistics.CollectSpec | Lottery_predict.py:47 | The collected draws are the gathered ones rearranged, newest 期別 first, with draws sharing a 期別 kept in fetch order. |
| Statistics.CollectedPeriods | backend/main.py:223-224 | On collected draws, latest_period is at least and oldest_period at most the 期別 of every gathered draw. |
| Statistics.Summary | Lottery_predict.py:76-78 | The summary exists iff there is at least one draw; an empty list raises at `lottery_data[-1]` and the function returns `None`. |
| Statistics.SummaryCounts | Lottery_predict.py:88-114 | The summary's frequency listings are those of the true counts of the main numbers and of the special numbers. |
| Statistics.SummaryText | Lottery_predict.py:76-120 | The summary text from the draws and the two dicts; `Statistics.SummaryCounts` states that the dicts it is given are the true tallies. |
| Statistics.DrawLine | Lottery_predict.py:84 | One line of the list of all draws; `Statistics.DrawLineBreak` states that it is a single line. |
| Statistics.DrawLineBreak | Lottery_predict.py:84 | A draw's line holds exactly one line break when its date holds none. |
| Statistics.DrawLinesBreaks | Lottery_predict.py:83-84 | The list of all draws has exactly one line per draw when no date holds a line break. |
| Statistics.CountLines | Lottery_predict.py:101-102 | One count line per item; `Statistics.CountLinesBreaks` states the line count. |
| Statistics.CountLinesBreaks | Lottery_predict.py:101-102 | A count listing has exactly one line break per item, so one line per number, in the order given. |
| Statistics.NeverLineSpec | Lottery_predict.py:104-109 | The never-appeared line is present iff some number of 1..49 did not occur, and it lists exactly those numbers, ascending. |
| Statistics.NeverLine | Lottery_predict.py:105-109 | The never-appeared line, or nothing; `Statistics.NeverLineSpec` states when it is present and what it lists. |

## Left out

- The web layer is not modelled: the FastAPI application, CORS, the Pydantic models, the endpoints and their error responses (backend/main.py, lines 1-60 and 163-311, apart from the statistics block). It is request plumbing with no computation of its own.
- The crawler calls and the six-month window built with `datetime` and `timedelta` (Lottery_predict.py, lines 13-36) are network and calendar I/O. The monthly results are taken as a parameter, a list of "fetch result or failure".
- The Gemini client, the API key from the environment, and the `generate_content` call are remote calls. The model's answer is the input of the parser.
- The strategy prose of the prompt (Lottery_predict.py, lines 122-165) is constant text. Only the summary at its head is modelled, and the output-format line is modelled as `RoundTrip.Line`.
- `print` calls, the JSON dump, the file write and `main()` are I/O.
- frontend/src/main.js is UI registration.
- Python's full Unicode `\d` and `isdigit` are approximated: only the ASCII and full-width digits count as digits. `\s` and `strip` use Python's whitespace set in full.
- `int()` on a digit string tolerates surrounding whitespace and underscores in Python. The parsers only ever call it on digit runs, so it is modelled on digit strings alone.
- The crawler's records are typed as the backend's `LotteryData` declares them (期別 an integer, 獎號 a list of integers). The date is kept as a string, since only its first ten characters are used.
