# rclone-golib core, modelled in Dafny

This project models the sequential core of rclone-golib. That Go library
drives the `rclone` command-line tool: it builds rclone's argument vector,
runs it, follows its progress output and keeps a table of transfers. The
model covers six parts:

- **The transfer store** (`transfer.dfy`, module `Transfers`). `Manager` is a class
  holding the map of `Transfer` records and the insertion `order`. It has
  the mutators `Add`, `Start`, `UpdateProgress`, `Complete` and `Fail`, and
  the queries `Get`, `GetAll` and `Stats`. Beside it sit a transfer's
  `Duration` and the scale choice of `FormattedBytes`.
- **The progress-stream decoder** (`rclone.dfy`, module `Rclone`):
  - the scanner's split function, which cuts rclone's stderr at every
    `\r`, `\n` or `\r\n`;
  - the loop that drops empty lines, recognises the `Transferred:` line
    and pushes its numbers into the store;
  - `parseSize`;
  - the argument vector `Execute` builds.
- **The error classifier** (`errors.dfy`, module `Errors`). `ClassifyError`
  is a first-match-wins chain of keyword tests on the lower-cased message.
  `IsRetryable`, `IsTemporary` and `GetErrorType` are built on it. A Go
  error chain is a datatype with `Unwrap`.
- **The retry controller** (`retry.dfy`, module `Retry`). It normalizes the
  configuration, then runs the bounded attempt loop with capped
  exponential backoff and two cancellation checkpoints.
- **The flag builder** (`options.dfy`, module `Options`): `CommonFlags.ToFlags`,
  the decimal printer `formatInt`, and the `TransferOptions` builder class.
- **The path helpers** (`helpers.dfy`, module `Helpers`):
  - the `remote:path` notation;
  - the post-processing of the listings in `ListFiles` and `ListRemotes`;
  - the set logic of `CheckDuplicates`.

`text.dfy` (module `Text`) states the pieces of Go's `strings` package the
library uses: `Contains`, `ToLower`/`ToUpper`, `TrimSpace`, `TrimSuffix`,
`Split` on one separator, and decimal numerals. `wrappers.dfy` holds
`Option` and `Result`.

Inputs the Go code takes from the outside world are parameters here:

- The clock is a `Time` value passed to `Start`, `Complete`, `Fail` and `Duration`.
- The subprocess's stderr is the sequence of chunks its reads deliver.
- A listing's output, or the error the listing failed with, is a `Result`.
- For the retry loop, the outcome of each attempt, the state of the
  context at each checkpoint, and which ready case each `select` takes
  are all a `World` value.

Behaviours of the code that the model keeps as they are written:

- No transition checks the current status. A completed transfer that is
  started again is back in progress (`RestartAfterComplete`). A transfer
  completed without a start has a zero duration (`CompleteWithoutStart`).
- Start keeps the end time that Complete or Fail recorded. A transfer
  restarted after it ended therefore has a negative duration, end minus
  the new start, until it ends again (`RestartKeepsEnd`,
  `RestartAfterComplete`).
- Re-adding an id replaces the record and lists the id a second time, so
  `GetAll` returns the new record twice (`ReAddListsTwice`).
- A listing line made only of white space is not empty, so it is kept, as
  the empty name (`BlankLineKept`).
- `JoinRemotePath(SplitRemotePath(p))` gives `p` back, except when `p`
  starts with `:`. That colon is lost (`JoinSplit`).
- The first backoff wait is `InitialDelay` even when it exceeds `MaxDelay`.
  Only later waits are capped (`Backoff`).
- A configuration with every setting zero is not `DefaultRetryConfig`.
  Normalization gives it the default delays and multiplier but one
  attempt, where the default makes three (`ZeroConfig`).
- A `\r\n` that arrives split across two reads yields an empty token for
  its `\n`. The loop drops it, so the lines seen do not depend on where
  reads are cut (`ParseOutput`, `ScanStep`, `LinesAppend`).

## Model

| member | source | states |
|---|---|---|
| Transfers.Duration | transfer.go:158-167 | zero until started; the time since the start while running; end minus start once ended; never negative while the start is not after the end (or after `now` while running) |
| Transfers.Progressed | transfer.go:79-89 | the table UpdateProgress leaves: same ids, only the named record's progress and byte counts change, and an unknown id changes nothing |
| Transfers.Manager.constructor | transfer.go:42-48 | NewManager starts with no records and an empty order, and the store invariant holds |
| Transfers.Manager.Add | transfer.go:50-66 | stores a Pending record with no progress, no byte counts, no times and no error under the id, replacing any earlier one; appends the id to the order even when already listed; keeps the store invariant |
| Transfers.Manager.Start | transfer.go:68-77 | whatever the status was, the record becomes InProgress with the start time; nothing else changes; an unknown id changes nothing |
| Transfers.Manager.UpdateProgress | transfer.go:79-89 | the table becomes Progressed of the old one, whatever the status |
| Transfers.Manager.Complete | transfer.go:91-101 | Completed, progress 100 and the end time; the start time is kept; an unknown id changes nothing |
| Transfers.Manager.Fail | transfer.go:103-113 | Failed, the end time and the error (possibly nil); progress is kept; an unknown id changes nothing |
| Transfers.Manager.Get | transfer.go:115-122 | found exactly when the id is stored, and then the stored record |
| Transfers.Manager.GetAll | transfer.go:124-136 | the records of the ids in insertion order, skipping ids not stored; while the store invariant holds, exactly one record per order entry, position by position |
| Transfers.Manager.Stats | transfer.go:138-156 | each count is the number of records with that status, and the four add up to the number of records |
| Transfers.CountedStep | transfer.go:143-153 | visiting one more record adds one to its own status's count and nothing to the others |
| Transfers.TallySum | transfer.go:143-155 | every record has exactly one status, so the four counts over a set of stored ids add up to its size |
| Transfers.InOrderHas | transfer.go:129-134 | a listed and stored id's record is among those GetAll returns |
| Transfers.InOrderComplete | transfer.go:129-134 | when every listed id is stored, GetAll returns one record per order entry, position by position |
| Transfers.ReAddListsTwice | transfer.go:63-64 | re-adding a listed id makes GetAll return the new record at least twice |
| Transfers.RestartAfterComplete | transfer.go:69-101 | an illustration on one store: Start after Complete puts the record back to InProgress, with progress still 100, and its duration is then negative |
| Transfers.RestartKeepsEnd | transfer.go:69-77 | Start keeps the end time of an ended record, so restarting it after its end gives end minus restart, a negative duration |
| Transfers.CompleteWithoutStart | transfer.go:92-101 | an illustration on one store: a record completed without a start is Completed with a zero duration |
| Transfers.FormattedBytes | transfer.go:169-181 | below 1024 the exact byte count; otherwise the divisor is 1024^(exp+1) with divisor <= bytes < 1024 * divisor, and exp indexes "KMGTPE" |
| Transfers.ScaleStep | transfer.go:176-179 | one loop turn keeps div * n <= bytes < div * (n + 1) as div grows and n shrinks by 1024 |
| Transfers.ScaleBound | transfer.go:176-179 | a loop turn starts only with exp < 5, because 1024^7 exceeds every int64, so exp never runs past "E" |
| Transfers.ScaleFinal | transfer.go:176-180 | when the loop stops, div <= bytes < 1024 * div |
| Transfers.Pow1024Grows | transfer.go:176-178 | powers of 1024 grow with the exponent |
| Rclone.IndexAny | rclone.go:142 | the first carriage return or line feed: one is there, none before it, and none at all exactly when the result is None |
| Rclone.IndexAnyAt | rclone.go:142 | a delimiter with none before it is the one IndexAny finds |
| Rclone.Split | rclone.go:135-160 | never advances past the data; a token is a delimiter-free prefix of the data and comes with a positive advance; no token means advance 0 |
| Rclone.SplitAtFirstDelimiter | rclone.go:141-151 | with the first delimiter at i, the token is data[..i] and the advance is i + 2 for a "\r\n" wholly in the buffer, i + 1 otherwise |
| Rclone.SplitWithoutDelimiter | rclone.go:136-159 | without a delimiter: nothing from empty data at EOF, the whole remainder at EOF, and a request for more data before EOF |
| Rclone.Lines | rclone.go:166-170 | the lines the loop looks at are non-empty and free of delimiters |
| Rclone.LinesCons | rclone.go:141-148 | a delimiter-free piece before a delimiter contributes itself, unless empty, and the rest is cut on its own |
| Rclone.LinesAppend | rclone.go:141-148 | cutting is a homomorphism: parts joined by a delimiter give the lines of the first, then those of the second |
| Rclone.LinesSkipLineFeed | rclone.go:145-148 | a leading line feed adds no line, so a "\r\n" split across reads costs nothing |
| Rclone.ScanStep | rclone.go:135-170 | one split call on the buffer: the lines of buffer and unread input are the token, if non-empty, then the lines of what remains |
| Rclone.ScanStepAt | rclone.go:141-151 | the same step when the buffer holds a delimiter, with the token before the first one |
| Rclone.ScanStepLast | rclone.go:155-157 | the same step at EOF without a delimiter, with the whole remainder as the last token |
| Rclone.ParseOutput | rclone.go:127-185 | after the loop the table is the effect of the stream's lines, in order, on the old table, whatever the read boundaries |
| Rclone.HandleToken | rclone.go:166-183 | one token: skipped when empty, otherwise handled; the buffer shrinks and the lines handled grow by the token |
| Rclone.HandleLine | rclone.go:166-183 | a line that matches updates the transfer with its numbers; any other line changes nothing |
| Rclone.ReadChunk | rclone.go:127-131 | a read moves the next chunk from the unread input to the buffer |
| Rclone.ApplyLinesSnoc | rclone.go:166-183 | handling one more token extends the effect of the lines handled so far |
| Rclone.SpanLen | rclone.go:164 | the longest prefix inside a character class |
| Rclone.UnitLen | rclone.go:164 | the length of the unit `[kKMGTP]i?[Bb]?` at the start, a well-formed unit when not 0 |
| Rclone.ElementLen | rclone.go:164 | a pattern element takes a prefix that fits it |
| Rclone.MatchElements | rclone.go:164 | a match gives one piece per element, each fitting its element, together a prefix of the text |
| Rclone.MatchCons | rclone.go:164 | the first element's piece before the rest's pieces matches the whole element list |
| Rclone.SpanOfRun | rclone.go:164 | a run of a class followed by something outside it is read back whole |
| Rclone.MatchElementsComplete | rclone.go:164 | pieces that fit their elements, each followed by something the element cannot take, are found exactly |
| Rclone.StopAt | rclone.go:164 | in a well-formed instance of the pattern every element is followed by something it cannot take |
| Rclone.MatchPrefixComplete | rclone.go:164 | wherever a well-formed instance begins, the single greedy pass finds exactly that instance |
| Rclone.FindFrom | rclone.go:164 | the position found matches the pattern there |
| Rclone.FindFromLeftmost | rclone.go:164 | nothing matches before the position found, nor anywhere when nothing is found |
| Rclone.MatchPrefix | rclone.go:164 | the pattern read at the start of the text: the pieces found fit their elements and spell a prefix of the text |
| Rclone.FindMatch | rclone.go:164-173 | FindStringSubmatch: the pattern matches at the position reported and at no position before it; no report means it matches nowhere in the line |
| Rclone.FindMatchIffOccurs | rclone.go:164-174 | a line has a match if and only if a well-formed instance occurs in it; the match is such an instance and the leftmost; a unit without a k/K/M/G/T/P letter never matches |
| Rclone.FindMatchSound | rclone.go:164-174 | a match reported is a well-formed instance occurring in the line |
| Rclone.FindMatchComplete | rclone.go:164-174 | a well-formed instance in the line is found, there or further left |
| Rclone.PrefixOccurs | rclone.go:172 | a prefix of the text from a position on occurs at that position |
| Rclone.LineProgress | rclone.go:166-181 | a line reports numbers exactly when it is not empty and matches |
| Rclone.ReportOverwrites | rclone.go:181 | a later report replaces an earlier one completely |
| Rclone.LastWriteWins | rclone.go:166-183 | after a stream of lines the transfer shows what the last matching line reported; a stream without a match changes nothing |
| Rclone.LastProgressIsLast | rclone.go:166-183 | the last matching line gives the report that counts |
| Rclone.LastProgressNone | rclone.go:166-183 | without a matching line there is no report |
| Rclone.DecimalValueAppend | rclone.go:189 | the digits of "w.f" denote w * 10^n + f, for n digits after the point, so the value read is w + f / 10^n |
| Rclone.Scale | rclone.go:188-213 | zero when the value is not a number; otherwise the value times the multiplier, rounded down to whole bytes |
| Rclone.ParseNumber | rclone.go:189-192 | ParseFloat on text over digits and points: a number exactly when the text is digits with at most one point and at least one digit, a syntax error otherwise |
| Rclone.ParseNumberOfWhole | rclone.go:189 | digits without a point read as their decimal value |
| Rclone.ParseNumberOfParts | rclone.go:189 | "w.f" reads as w * 10^n + f over 10^n, for n digits after the point |
| Rclone.Multiplier | rclone.go:194-211 | after trimming, upper-casing and cutting one "B" then one "I", a lone K, M, G, T or P gives 1024 to the power of its place; anything else gives 1 |
| Rclone.LetterFactorOf | rclone.go:200-211 | the switch's letters give 1024^1 to 1024^5 and every other letter 1 |
| Rclone.ParseSize | rclone.go:188-214 | zero when ParseFloat fails; otherwise the number times the multiplier, rounded down |
| Rclone.ParseSizeOfParts | rclone.go:188-214 | "w.f" with any unit is the floor of (w + f / 10^n) times the unit's multiplier |
| Rclone.ParseSizeHalfKibibyte | rclone.go:188-214 | "w.5" with unit "K" is exactly w * 1024 + 512 bytes, so "1.5" K is 1536 |
| Rclone.UpperUnitTail | rclone.go:196 | the tail of a unit upper-cases to "", "I", "B" or "IB" |
| Rclone.StripUnitSuffixes | rclone.go:197-198 | cutting one "B" and then one "I" leaves the unit letter |
| Rclone.NormalizeUnitOfUnit | rclone.go:195-198 | every unit the pattern accepts normalizes to its upper-cased letter |
| Rclone.LetterFactorIsPower | rclone.go:200-211 | K, M, G, T, P stand for 1024^1 up to 1024^5 |
| Rclone.UnitIsBinaryPrefix | rclone.go:195-211 | every unit the pattern accepts multiplies by the power of 1024 its letter names |
| Rclone.NormalizeByteUnit | rclone.go:195-198 | "B" and "b" normalize to the empty unit |
| Rclone.ByteUnits | rclone.go:200-211 | no unit, "B" and "b" all multiply by 1 |
| Rclone.ParseSizeOfWhole | rclone.go:188-214 | a whole number with any unit parses as that number times the unit's multiplier |
| Rclone.StatsInterval | rclone.go:66-70 | the interval asked for is the one set, or "500ms" when none is |
| Rclone.ExecuteArgs | rclone.go:61-84 | the argument vector: the verb, "-v", "--stats" and the interval, "--dry-run" exactly when asked for, the extra flags in order, then source and destination last |
| Rclone.BuildArgs | rclone.go:61-84 | Execute's successive appends build ExecuteArgs |
| Errors.Unwrap | errors.go:43-45 | unwrapping goes to a smaller error in the chain |
| Errors.FindClassified | errors.go:159-162 | errors.As for a ClassifiedError: none exactly when the Unwrap chain holds none; otherwise one in the chain with no ClassifiedError before it |
| Errors.HasValidation | errors.go:56-57 | errors.As for a ValidationError succeeds exactly when some error in the Unwrap chain is one |
| Errors.ChainMessages | errors.go:39-41 | every error in the chain renders as a tail of the outer message, since the "[type] " rendering and each wrapper only add text in front |
| Errors.KeywordClass | errors.go:66-150 | the keyword chain never gives InvalidInput; retryable exactly for Network, Timeout, Unknown; temporary exactly for Network, Timeout |
| Errors.ClassifyError | errors.go:47-151 | nil gives nil; otherwise the result wraps the very error given; its flags follow from its kind; the kind is InvalidInput exactly when a ValidationError is in the chain |
| Errors.FirstHit | errors.go:66-150 | the first rule in order whose keywords occur, every rule before it missing; Unknown exactly when no rule hits |
| Errors.NetworkRule | errors.go:67-71 | the Network rule's keywords |
| Errors.TimeoutRule | errors.go:81-83 | the Timeout rule's keywords |
| Errors.AuthRule | errors.go:93-97 | the Auth rule's keywords |
| Errors.NotFoundRule | errors.go:107-110 | the NotFound rule's keywords |
| Errors.SpaceRule | errors.go:120-123 | the InsufficientSpace rule's keywords |
| Errors.FileSystemRule | errors.go:133-135 | the FileSystem rule's keywords |
| Errors.ClassifyByPriority | errors.go:53-150 | outside the validation case, the kind is the first of Network, Timeout, Auth, NotFound, InsufficientSpace, FileSystem whose keywords occur in the lower-cased message, else Unknown |
| Errors.KeywordsByPriority | errors.go:66-150 | the if-chain picks the first rule in priority order that hits |
| Errors.LaterRules | errors.go:92-150 | the same, from the Auth rule on |
| Errors.LastRules | errors.go:119-150 | the same, from the InsufficientSpace rule on |
| Errors.ConnectionTimeoutIsNetwork | errors.go:66-90 | "connection timeout" is a Network error, because Network is tried first |
| Errors.ClassifiedRendering | errors.go:39-45 | a classified error unwraps to the error it classifies and renders as "[type] message" |
| Errors.IsRetryable | errors.go:153-167 | false on nil; a ClassifiedError in the chain answers with its stored flag; otherwise retryable exactly for Network, Timeout and Unknown |
| Errors.IsTemporary | errors.go:169-183 | false on nil; a ClassifiedError in the chain answers with its stored flag; otherwise temporary exactly for Network and Timeout |
| Errors.GetErrorType | errors.go:185-198 | Unknown on nil; a ClassifiedError in the chain gives its stored kind; otherwise the classifier's kind |
| Errors.QueriesAgreeAfterClassify | errors.go:153-198 | querying a classified error agrees with querying the raw one, and the flags follow the kind |
| Errors.StoredClassificationWins | errors.go:159-162 | a wrapped ClassifiedError keeps its stored kind and flags, whatever its message says |
| Retry.DefaultRetryConfig | retry.go:22-30 | three attempts, a first wait of 2 s, waits capped at 30 s, a multiplier of 2 |
| Retry.Normalize | retry.go:34-45 | each non-positive setting becomes its default (1 attempt, 2 s, 30 s, 2.0), every positive one is kept, and the result is usable |
| Retry.NormalizeSettles | retry.go:23-45 | normalizing is idempotent, and the defaults need no normalizing |
| Retry.NextDelay | retry.go:84-87 | the next wait is the delay times the multiplier, truncated to whole nanoseconds, never above MaxDelay |
| Retry.BackoffGrows | retry.go:84-87 | with a multiplier of at least 1 the backoff never shrinks |
| Retry.Run | retry.go:52-91 | the attempt loop from a given attempt on: never more attempts than configured, and the waits already begun are kept in front of the new ones |
| Retry.Retry | retry.go:33-92 | the whole of ExecuteWithRetry: normalize, then run from attempt 1 with the initial delay; never more attempts than the normalized maximum |
| Retry.ExecuteWithRetry | retry.go:32-92 | the method's result, attempt count and waits are those of the recursive specification Retry |
| Retry.RunBounds | retry.go:55-88 | at most one wait per attempt, none after the last, never more attempts than configured |
| Retry.AttemptBounds | retry.go:55-88 | at most MaxAttempts attempts and at most MaxAttempts - 1 waits |
| Retry.RunDelays | retry.go:53-88 | the first wait is the current delay, and each later one is NextDelay of the one before |
| Retry.Backoff | retry.go:53-88 | the first wait is InitialDelay; each later one is the previous times the multiplier, capped, so at most MaxDelay |
| Retry.RunSucceeds | retry.go:66-70 | with a live context, a success after failures returns nil after exactly that many attempts |
| Retry.RunNilIffSuccess | retry.go:55-91 | the result is nil exactly when the last attempt made succeeded, and all attempts before it failed |
| Retry.SuccessIsFinal | retry.go:55-91 | the result is nil exactly when the last attempt made succeeded; the first success returns at once |
| Retry.RunExhausts | retry.go:55-91 | with a live context and every attempt failing, every remaining attempt is made and the run gives up with the last error |
| Retry.Exhausted | retry.go:72-91 | when every attempt fails, the result is "failed after N attempts: " wrapping the last error, after N attempts and N - 1 waits |
| Retry.RunCancelled | retry.go:57-82 | cancellation at the check before attempt k, or during the wait after attempt k, ends the run with the matching error and attempt count |
| Retry.CancelledReports | retry.go:57-82 | cancelled before attempt k: ctx.Err() when k = 1, otherwise "context cancelled after k - 1 attempts" wrapping the last error; cancelled during the wait after attempt k: "context cancelled after k attempts" wrapping its error |
| Options.Int32Wrap | options.go:130 | rune(x) keeps the low 32 bits as a signed value, and leaves small non-negative values alone |
| Options.RuneString | options.go:130 | string(rune) is that one rune, or U+FFFD for a value that is not a scalar value |
| Options.FormatInt | options.go:127-139 | below ten, the one rune at i + '0'; every argument from 0 up prints as its shortest decimal numeral |
| Options.PatternFlags | options.go:57-62 | two entries per pattern |
| Options.ToFlags | options.go:31-72 | the flags are Flags(f): counts, bandwidth, switches, excludes, includes, ages, in this fixed order |
| Options.AppendCount | options.go:35-40 | a count adds its name and numeral only when positive |
| Options.AppendBandwidth | options.go:41-43 | the bandwidth adds "--bwlimit" and its numeral with "k" only when positive |
| Options.AppendSwitch | options.go:44-55 | a switch adds its flag only when set |
| Options.AppendPatterns | options.go:57-62 | each pattern adds its flag name and the pattern, in list order, after what is there |
| Options.AppendText | options.go:64-69 | an age adds its name and text only when the text is not empty |
| Options.PatternFlagsAt | options.go:57-62 | pattern k sits at position 2k + 1, right after its flag name |
| Options.FlagsEmpty | options.go:32-72 | ToFlags yields nothing if and only if no count is positive, no switch is set, and there is no pattern and no age |
| Options.BandwidthOnly | options.go:41-43 | a bandwidth alone gives "--bwlimit" and a numeral with "k" that reads back as the limit |
| Options.PatternsOnly | options.go:57-62 | with only patterns, each exclude follows its flag, then each include follows its flag |
| Options.TransferOptions.constructor | options.go:79-90 | copy, the given paths, no flags, "500ms", not a dry run |
| Options.TransferOptions.WithCommand | options.go:92-96 | replaces the verb and nothing else, and returns the builder |
| Options.TransferOptions.WithFlags | options.go:98-102 | the given flags go after those already there; nothing else changes |
| Options.TransferOptions.WithCommonFlags | options.go:104-108 | ToFlags' output goes after the flags already there; nothing else changes |
| Options.TransferOptions.WithStatsInterval | options.go:110-114 | replaces the interval text and nothing else |
| Options.TransferOptions.WithDryRun | options.go:116-120 | turns dry-run on and nothing else |
| Options.TransferOptions.Build | options.go:122-125 | returns the options accumulated |
| Options.DryRunCommandLine | options.go:79-125 | a fresh builder with common flags and dry-run gives the command line copy, -v, --stats 500ms, --dry-run, ToFlags' output, source, destination |
| Helpers.IsRemotePath | helpers.go:107-110 | a path names a remote exactly when it contains ':' |
| Helpers.SplitRemotePath | helpers.go:112-120 | with a colon: a colon-free remote, and remote + ":" + path is the input; without: ("", input) |
| Helpers.JoinRemotePath | helpers.go:122-128 | the path alone for an empty remote, otherwise remote + ":" + path |
| Helpers.JoinSplit | helpers.go:114-128 | join after split gives the input back if and only if it does not start with ':' |
| Helpers.SplitJoin | helpers.go:114-128 | split after join gives the parts back for a non-empty colon-free remote, or an empty remote and colon-free path |
| Helpers.ListFilesArgs | helpers.go:12-15 | "lsf" and the path, then "--max-depth 1" unless recursive |
| Helpers.ListFiles | helpers.go:10-32 | the arguments; on failure the error wrapped as "failed to list files: "; otherwise the kept lines of the trimmed output |
| Helpers.ListRemotes | helpers.go:34-54 | on failure the error wrapped as "failed to list remotes: "; otherwise the kept lines with one trailing ':' cut off each |
| Helpers.KeptSnoc | helpers.go:25-29 | one more line is kept, trimmed (and for a remote cut of one ':'), exactly when it is not empty |
| Helpers.RemotesAreLines | helpers.go:42-52 | each remote is the matching kept line with at most one trailing ':' cut |
| Helpers.KeptLinesTrimmed | helpers.go:23-30 | every kept line is trimmed and free of line feeds |
| Helpers.ListedTrimmed | helpers.go:23-30 | every name ListFiles yields is trimmed and free of line feeds |
| Helpers.ListedRoundTrip | helpers.go:23-30 | a listing of plain names, one per line, reads back as exactly those names in order |
| Helpers.RemotesRoundTrip | helpers.go:42-52 | a listing of remote names with colons reads back as exactly those names, in order, colons cut |
| Helpers.JoinWithEnds | helpers.go:23 | names joined by line feeds start with the first name's first character and end with the last name's last |
| Helpers.TrimLineFeed | helpers.go:23 | trimming text that starts and ends with a non-space, plus a line feed, leaves the text |
| Helpers.SplitOnJoin | helpers.go:23 | strings.Split undoes a join with a separator no piece contains |
| Helpers.IndexOfAfter | helpers.go:23 | the first separator in a + sep + b, when a has none, is right after a |
| Helpers.KeptPlain | helpers.go:25-29 | plain names are all kept, each unchanged |
| Helpers.KeptPlainLast | helpers.go:25-29 | one more plain name is kept unchanged |
| Helpers.BlankLineKept | helpers.go:26-27 | a line of white space only is kept, as the empty name |
| Helpers.CheckDuplicates | helpers.go:78-105 | no names: an empty map without listing; otherwise the one-level listing's arguments and the names it holds, or its failure wrapped twice |
| Helpers.Existing | helpers.go:90-94 | every listed name maps to true |
| Helpers.Found | helpers.go:96-102 | each given name the listing holds maps to true, and no other |
| Helpers.DuplicatesExactly | helpers.go:96-104 | a name is a duplicate if and only if it is given and listed, and then it maps to true |
| Text.Contains | errors.go:67-135 | strings.Contains holds exactly when the substring occurs at some index |
| Text.IndexOf | helpers.go:115 | the first occurrence of a character, and None exactly when there is none |
| Text.ToLower | errors.go:53 | lower-cases each character in place |
| Text.ToUpper | rclone.go:196 | upper-cases each character in place |
| Text.TrimSpace | helpers.go:23 | cuts only white space, off both ends, leaving a slice that starts and ends with a non-space |
| Text.TrimSpaceOfTrimmed | helpers.go:27 | text already starting and ending with a non-space is its own trim |
| Text.TrimSuffix | helpers.go:48 | cuts one copy of the suffix when present, otherwise changes nothing |
| Text.SplitOn | helpers.go:23 | strings.Split gives at least one piece, none holding the separator, and they join back to the input |
| Text.DecimalRoundTrip | options.go:128-139 | a decimal numeral is all digits, has no leading zero unless it is "0", and reads back as the number |

## Left out

- Concurrency. The `sync.RWMutex` of `Manager` is left out: each method is one critical section, modelled as atomic. Also out are the parsing goroutine, `cmd.Wait` and the `done` channel in `Execute`.
- Process execution and I/O. Launching rclone, the stderr pipe, `cmd.Output()` and `exec.LookPath` are left out. Their results are parameters: chunks of stderr text, or a `Result` of output or error.
- The context. `ctx.Done()`, `ctx.Err()` and `time.After` become the `World` value. A `select` with both cases ready may pick either, and `World` states which one it took.
- Aliasing of `*Transfer` values. Records are values, so a caller holding the `*Transfer` that `Add` or `Get` returned sees no later updates in the model.
- Floating point. Progress and the backoff multiplier are reals. `parseSize` reads `[0-9.]` text exactly as a decimal fraction and truncates value × multiplier exactly. float64 rounding, infinities and NaN (a NaN multiplier included) are not modelled.
- Rclone.ParseNumber: `strconv.ParseFloat` syntaxes that the pattern cannot hand over (signs, exponents, hex, underscores, "Inf") are not modelled. A percentage too large for a float64, which Go rejects with a range error, is accepted here.
- Integer widths. Byte counts are `int`, not `int64`. `FormattedBytes` takes an `Int64`. Overflow of the parsed size in the float-to-int64 conversion is not modelled.
- The scanner's 1 MiB token limit and its error are left out. The model scans streams of any length.
- Rendering. The `%.1f %cB` text of `FormattedBytes` and the `Speed` function are left out (floating point). The model returns the chosen scale.
- Options.TransferOptions.WithStatsInterval takes the interval's text. `time.Duration.String` is not modelled.
- Unicode. `unicode.ToLower` and `ToUpper` are modelled only for the characters whose case maps to or from ASCII, which are the only ones the keyword and unit tests can see. The regex's `\s` is ASCII white space, as in Go's RE2.
- The regular-expression engine is replaced by a recognizer for this one pattern.
- Options.ToFlags: the loop body is split into one helper method per section of the Go function. The order and content of the appends are unchanged.
- `GetRcloneVersion` and `CommandExists` (helpers.go) are not part of this model. Both only run a command.
- validation.go is not part of this model apart from `ValidationError`, which is the `Validation` variant of `Errors.Error`. ui.go, disk_unix.go, disk_windows.go and the example programs are not part of this model either.

