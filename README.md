# T9+ predictive vocabulary engine, in Dafny

This project models the word-prediction engine of the Type Aid keyboard
(`t9plus.c`) and proves properties of it. The engine keeps five vocabulary
tiers: tier1 (function words), tier2 (common lemmas), tier3a (chat slang),
tier3b (fillers) and tier4 (formal discourse). Each tier is a bounded array
of at most 1000 words, filled from a word-list file. Given the text typed so
far, the engine suggests up to three words that start with the last word
typed (its first 31 characters), ignoring letter case. It searches tier1, tier3a, tier3b, tier2 and
tier4, in that order.

The model has these modules:

- `Wrappers`: the `Option` type. `None` stands for a file that cannot be
  opened, a NULL input text, or a NULL status message.
- `Text`: the C character classes in the "C" locale (`isspace`,
  `isalnum`, `tolower`) and the string helpers.
- `WordList`: a function that says which lines of a word-list file become
  words.
- `WordTiers`: the `WordTier` class with its allocate, free and add
  operations, and the character-by-character loader. The loader is proved
  to offer exactly those words to the tier, in file order; the tier keeps
  those that fit its capacity.
- `Matching`: the case-insensitive prefix test and the ordered matches of a
  word list.
- `Tokens`: the query token (the last word of the typed text), and the
  backward scan that extracts it.
- `Search`: the ranked result as a function, the in-place search of one
  tier, and lemmas about the ranking.
- `Engine`: the engine's state record as the class `T9Plus`. It covers
  init, deinit, the status message and `GetSuggestions`.

File contents and allocation outcomes are parameters. A file that cannot be
opened is `None`.

A separator after the last word does not end the query: the token scan
skips trailing separators before it looks for the word (`t9plus.c:357-367`),
so `"hello "` queries `"hello"` (`Tokens.TokenBeforeSpace`).

## Model

| member | source | states |
|---|---|---|
| Text.TrimRight | t9plus.c:97-100 | the trimmed line is a prefix of the line, only whitespace was removed, and it does not end in whitespace |
| Text.UpToNul | t9plus.c:56 | the copy made by `strdup` is the longest NUL-free prefix of the buffer |
| Text.Take | t9plus.c:310 | `Take(s, n)` is the first n elements of `s`, or all of `s` when it is shorter |
| WordList.LineWord | t9plus.c:95-115 | a line gives at most one word: none when longer than 32 characters, blank after trimming trailing whitespace, or starting with '#'; otherwise the trimmed line read as a C string |
| WordList.Parse | t9plus.c:77-116 | the words of the rest of a file after a partly read line: each line contributes its `LineWord`, in order, so there are at most one more words than characters |
| WordList.ParseWords | t9plus.c:77-116 | the words a whole file contributes, line by line in file order |
| WordList.ParseWordsEmpty | t9plus.c:79-91 | an empty file gives no words |
| WordList.LineWordShape | t9plus.c:96-105 | a line contributes a C string of at most 32 characters, taken from the line itself, that does not start with '#' |
| WordList.ParseInLine | t9plus.c:106-108 | characters other than a line end only extend the current line |
| WordList.ParseWordsOfLine | t9plus.c:79-90 | a last line without a line end gives the same word as a terminated one |
| WordList.ParseSplit | t9plus.c:95-106 | a line end splits the file: the words before it and the words after it are independent |
| WordList.ParseWordsSplit | t9plus.c:95-106 | the words of `a + "\n" + b` are the words of `a` followed by those of `b` |
| WordList.ParsedWordShape | t9plus.c:77-116 | every word parsed from a file is a C string of at most 32 characters, without line ends, that does not start with '#' |
| WordList.LineLengthLimit | t9plus.c:107-115 | a line of exactly 32 characters is kept; a longer line is dropped whatever it holds |
| WordList.WordLineExample | t9plus.c:103-104 | the file "hi" gives the word "hi" |
| WordList.CommentLineExample | t9plus.c:103 | a '#' line gives no word |
| WordList.SpacedLineExample | t9plus.c:97-100 | leading whitespace is kept and trailing whitespace is removed: " yo " gives " yo" |
| WordList.CrLfAsLf | t9plus.c:95 | a "\r\n" line end gives the same words as "\n" |
| WordTiers.AppendBounded | t9plus.c:53-61 | a tier after each word is offered in turn: words are appended while there is room, the rest are dropped; never more than the capacity, the old words kept |
| WordTiers.AppendBoundedShape | t9plus.c:53-54 | after offering words, a tier holds at most its capacity, keeps its old words, and appends a prefix of the offered words; all of them when there is room |
| WordTiers.AppendBoundedAppend | t9plus.c:53-61 | offering two batches one after the other equals offering their concatenation |
| WordTiers.WordTier.constructor | t9plus.c:19-28 | a zero-initialized tier is valid and released |
| WordTiers.WordTier.Alloc | t9plus.c:31-37 | success equals the allocator's outcome; success gives fresh storage of the requested capacity and an empty tier; failure leaves the tier released |
| WordTiers.WordTier.Free | t9plus.c:40-50 | afterwards the tier is released; freeing a released tier changes nothing |
| WordTiers.WordTier.AddWord | t9plus.c:53-61 | the word is appended exactly when the tier is not full; the contents otherwise stay as they were |
| WordTiers.FinishLine | t9plus.c:95-105 | the tier gains the word of the buffered line (as `LineWord` defines it), subject to capacity |
| WordTiers.TrimTrailing | t9plus.c:96-100 | the buffer then holds the line with its trailing whitespace removed, followed by a NUL terminator |
| WordTiers.LoadTierFromFile | t9plus.c:64-129 | succeeds exactly when the file opens; the tier's new contents are its old contents with the file's words (`ParseWords`) offered in order; a missing file changes nothing |
| WordTiers.EndOfFile | t9plus.c:79-91 | at end of file the unfinished line's word is added, subject to capacity |
| WordTiers.EndOfLine | t9plus.c:95-106 | at a line end the line's word is added and parsing restarts with an empty line |
| WordTiers.SkipOverlong | t9plus.c:109-115 | skipping the rest of an over-long line leaves the parse of the remaining file unchanged and contributes no word |
| WordTiers.SkipLine | t9plus.c:111-113 | reads up to and including the next line end, or to the end of the file; every character skipped before it is not a line end |
| WordTiers.DroppedLine | t9plus.c:107-115 | an over-long line that ends in a line end adds nothing; parsing resumes after it |
| WordTiers.DroppedLastLine | t9plus.c:107-115 | an over-long last line without a line end adds nothing |
| Matching.IsWordChar | t9plus.c:260-262 | a word character is an ASCII letter (either case), a digit or an apostrophe |
| Matching.LowerAll | t9plus.c:286-287 | lower-casing keeps the length and lower-cases each character |
| Matching.PrefixCi | t9plus.c:277-294 | a word starts with a prefix, ignoring case: it is at least as long and agrees with the prefix at each of its positions after `tolower` |
| Matching.PrefixCiIsLowerPrefix | t9plus.c:277-294 | the case-insensitive prefix test is exactly prefix order on lower-cased strings (both directions) |
| Matching.EmptyPrefixMatches | t9plus.c:278-293 | the empty prefix matches every word |
| Matching.StartsWithCi | t9plus.c:277-294 | returns true exactly when `prefix` is no longer than `word` and agrees with it, ignoring case, at each of its positions |
| Matching.Matches | t9plus.c:307-315 | the matches of a list are no more than its words |
| Matching.MatchesMembers | t9plus.c:307-315 | a word is a match exactly when it is in the list and starts with the prefix |
| Matching.MatchesAppend | t9plus.c:401-425 | the matches of a concatenation are the matches of the first part followed by those of the second |
| Matching.Shown | t9plus.c:310-311 | a shown suggestion is a prefix of the word, at most 31 characters long, and the whole word when it fits |
| Matching.ShownAll | t9plus.c:310-311 | each slot shows its word cut to 31 characters |
| Matching.ShownAllAppend | t9plus.c:310-311 | cutting to slots distributes over concatenation |
| Matching.ShownKeepsMatch | t9plus.c:310-311 | a cut word still starts with a query token, because tokens are at most 31 characters long |
| Tokens.TrimSeparators | t9plus.c:357-360 | the result is a prefix of the text, followed only by separators, and does not end in a separator |
| Tokens.LastRun | t9plus.c:362-367 | the result is the longest suffix without separators: a separator precedes it unless it is the whole text |
| Tokens.Token | t9plus.c:346-383 | the token has at most 31 characters and no separator |
| Tokens.TrimSeparatorsAt | t9plus.c:357-360 | the trimmed text ends at the only position after which only separators follow and before which there is none |
| Tokens.LastRunAt | t9plus.c:362-367 | the last run starts right after the last separator |
| Tokens.TokenEmptyIff | t9plus.c:369-373 | the token is empty exactly when the text holds only separators |
| Tokens.TokenPosition | t9plus.c:346-383 | the token is a word of the text, cut to 31 characters: it follows a separator or the start, and only separators follow the word |
| Tokens.TokenAfterWord | t9plus.c:346-383 | the token of "hello wor" is "wor" |
| Tokens.TokenBeforeSpace | t9plus.c:357-360 | the token of "hello " is "hello" |
| Tokens.TokenOnlySeparators | t9plus.c:369-373 | a text of separators has no token |
| Tokens.ExtractToken | t9plus.c:346-389 | the backward scan and the copy into a buffer of 32 characters produce exactly `Token(input)` |
| Tokens.SkipTrailingSeparators | t9plus.c:357-360 | the word ends where the text without trailing separators ends |
| Tokens.FindWordStart | t9plus.c:362-367 | the word starts where the last run without separators starts |
| Tokens.CopyWord | t9plus.c:376-383 | the copy is the word, cut to 31 characters |
| Search.Suggest | t9plus.c:324-432 | at most `min(max, 3)` suggestions are returned |
| Search.SuggestionsMatch | t9plus.c:307-311 | every suggestion starts with the query token and is a candidate word that starts with it, cut to its slot |
| Search.SuggestionsCount | t9plus.c:342-344 | there are `min(max, 3, number of matches)` suggestions, or none when there is no token |
| Search.SuggestionsEmptyIff | t9plus.c:337-389 | there is no suggestion exactly when the text is only separators, none was asked for, or no candidate matches |
| Search.TakeMatchesAppend | t9plus.c:401-425 | the first k matches of `a + b` are those of `a`, followed by as many of `b` as still fit |
| Search.SearchStep | t9plus.c:406-425 | searching one more tier extends the suggestions found so far with that tier's matches |
| Search.EarlierTierWins | t9plus.c:406-425 | once earlier tiers fill the quota, later tiers do not change the result |
| Search.SearchTier | t9plus.c:297-322 | the slots from `found` on receive the tier's first `max - found` matches, in order and cut to their slots; the other slots are unchanged |
| Engine.MissingCount | t9plus.c:172-194 | the count is at most 5; it is 0 exactly when every file opens and 5 exactly when none does |
| Engine.Digit | t9plus.c:226-227 | the character is the decimal digit of the count |
| Engine.LoadMessage | t9plus.c:219-233 | the status message: empty when no file is missing, "ERROR: No data files found!" when all five are, otherwise "WARNING: n data file(s) missing" |
| Engine.LoadMessageFits | t9plus.c:219-233 | the status message fits the 64-byte buffer, and is empty exactly when no file is missing |
| Engine.LoadMessageInjective | t9plus.c:222-227 | different missing counts give different messages |
| Engine.LoadedWords | t9plus.c:64-129 | an empty tier loaded from a file holds at most 1000 of the file's first words; all of them when fewer than 1000; none when the file is missing |
| Engine.Tier1Words | t9plus.c:196-217 | tier1 is never empty after init and holds its file's words whenever that file gave any |
| Engine.T9Plus.constructor | t9plus.c:19-28 | the zero-initialized engine is valid, uninitialized, with no load error and an empty message, and owns five new tiers |
| Engine.T9Plus.Candidates | t9plus.c:401-425 | the vocabulary in search order, tier1, tier3a, tier3b, tier2, tier4: it starts with tier1's words, and its length is the total word count of the five tiers |
| Engine.T9Plus.Init | t9plus.c:131-244 | a second call returns true and changes nothing; otherwise it succeeds exactly when the five allocations do, and then each tier holds its file's words, with the fallback words in tier1 if it would be empty, and the status reflects the missing files |
| Engine.T9Plus.LoadAll | t9plus.c:171-243 | all tiers loaded, the fallback applied, the status recorded; the status message then reports exactly the missing files |
| Engine.T9Plus.FallbackIfEmpty | t9plus.c:196-217 | tier1 then holds its file's words, or the 17 fallback words when it had none |
| Engine.T9Plus.RecordStatus | t9plus.c:219-233 | the load-error flag is set exactly when a file is missing, and the message is the one for that count |
| Engine.T9Plus.AllocTiers | t9plus.c:139-169 | succeeds exactly when every allocation does, leaving five fresh, empty tiers of capacity 1000; on failure every tier is released again |
| Engine.T9Plus.LoadTiers | t9plus.c:171-194 | each tier holds its own file's words; the failure count equals the number of missing files |
| Engine.T9Plus.LoadFront | t9plus.c:175-182 | tier1 and tier2 hold their files' words; the count is their missing files |
| Engine.T9Plus.LoadBack | t9plus.c:183-194 | tier3a, tier3b and tier4 hold their files' words; the count is their missing files |
| Engine.T9Plus.Deinit | t9plus.c:246-258 | afterwards the engine is uninitialized and every tier is released; on an uninitialized engine it changes no tier |
| Engine.T9Plus.GetErrorMessage | t9plus.c:264-274 | no message exactly when initialized without load errors; "T9+ not initialized" before init; otherwise the stored message |
| Engine.T9Plus.GetSuggestions | t9plus.c:324-432 | returns at most `min(max, 3)` suggestions; none before init or for a null text; otherwise the slots hold exactly `Suggest` over the tiers in search order, and later slots are untouched |
| Engine.T9Plus.SuggestFor | t9plus.c:342-397 | with the quota capped at 3 and the token extracted, the slots hold exactly `Suggest` over the tiers in search order |
| Engine.T9Plus.SearchTiers | t9plus.c:399-425 | searching tier1, tier3a, tier3b, tier2 and tier4 in turn yields the first `max` matches of their concatenation, cut to their slots |
| Engine.SearchNext | t9plus.c:406-425 | a tier is searched only while the quota is not met, and the result extends the ranked matches to that tier |
| Engine.AddFallbackWords | t9plus.c:197-215 | an empty tier then holds exactly the 17 fallback words, in order |

## Left out

- I/O: opening, reading and closing files is replaced by the file's contents as a value (`None` when it cannot be opened). Logging is omitted, and so are the file paths.
- Memory: `malloc` outcomes are a parameter of `Init`. Freeing individual words, and `strdup` itself, are not modelled: a word is stored as a value.
- WordTiers.WordTier.AddWord: does not model `strdup` failing (it always succeeds when the tier has room), because allocation of single words is not modelled.
- WordTiers.WordTier.Alloc: requires a released tier. Its only caller, init, guarantees this. On failure the C code leaves the old counters in place.
- Engine.T9Plus.GetSuggestions: requires that the caller's suggestion buffer is not a tier's storage. In C the two cannot alias; the requirement states that for Dafny arrays.
- Engine.AddFallbackWords: adds the 17 fallback words in a loop over a constant list, not in 17 separate calls. The order and the result are the same.
- The `word_len == 0` check in `t9plus_get_suggestions` cannot fire after the earlier empty-word check, so the model leaves it out.
- The backward scan's pointer running to one before the start of the input is modelled with an index of -1.
- The engine's static state record is a `T9Plus` instance; a second `Init` on it is the same as a second call of the C function.
- Locale: the character classes are those of the "C" locale (ASCII only).
- Bytes: the engine reads and compares bytes. In the model a string is a byte string, one `char` per byte (0 to 255), so every length is a byte count: the 32-byte line limit, the 31-byte suggestion slot and the 31-byte token. A UTF-8 word such as "café" is 5 chars. The model does not exclude `char` values above 255, which have no counterpart in the C.
- type-aid.c, the keyboard grid and the user interface are not part of this model. The header t9plus.h contributes only the constants 3 and 32.
