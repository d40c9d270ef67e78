# yaph: a verified model of the downloader's own logic

yaph is a command-line tool that downloads every item of a YouTube playlist
in parallel, with one progress bar per item. All of it lives in `index.js`.
Most of that file calls libraries: argument access, the interactive prompt, the
file system, the playlist and media clients, and the worker pool. This project
models the deterministic logic inside that file and proves what it guarantees:

- **Playlist URL** (`playlist_url.dfy`, module `PlaylistUrl`): the anchored
  pattern of `index.js:15` as a hand-written recogniser. It is combined with the
  `startsWith("http")` test of `index.js:69`. The unanchored `list=` search of
  `index.js:112` finds the id handed to the playlist lookup.
- **Command line** (`arguments.dfy`, module `Arguments`): the help condition, the
  flag lookups by `indexOf` with their defaults, and the resulting command.
  There are four outcomes: show help, stop on an `undefined` output directory,
  reject the URL, or run.
- **File name** (`file_names.dfy`, module `FileNames`): the title's path-illegal
  characters are replaced by `_`. The title is then padded with spaces to 35
  characters and `.mp4` or `.mp3` is appended, depending on the filter.
- **Bar titles** (`bar_labels.dfy`, module `BarLabels`): the fixed-width titles
  given to the progress bar at creation, start, progress, end and error.
- **Sizes** (`sizes.dfy`, module `Sizes`): the unit is KB, MB or GB, with
  thresholds 10^6 and 10^9. Numbers are shown as `Math.round` of a division.
- **One download's progress** (`download.dfy`, module `Download`): a class
  `Tracker`. It holds the per-item state of `downloader`: the counter that the
  `response` and `data` handlers update, the chosen unit, and the values last
  passed to `bar.update`. There is one method per event handler.
- Shared helpers (`text.dfy`, module `Text`) model JavaScript built-ins:
  `substring(0, k)`, `repeat`, `includes`, `indexOf` and number-to-decimal text.
  `wrappers.dfy` holds `Option`. `None` stands for `undefined` or `null`.

Some behaviour of the code differs from what its help text or a reader would
expect. The model follows the code:

- The help text says the default output is the current directory
  (index.js:51), but the code uses `./downloads/` (index.js:63).
- The percentage is not clamped to 100. `PercentUnclamped` proves that it goes
  above 100 when more bytes arrive than were declared.
- `-h` as the very first argument does not trigger help, because the test is
  `indexOf("-h") > 0` (index.js:38).
- The thread count is never checked for being positive (index.js:60).
- The output directory is resolved (index.js:64) before the URL is checked
  (index.js:69). A trailing `-o` therefore stops the program with a TypeError
  even when the URL would be rejected.
- On a failed item the completion callback exits at once (index.js:192-207);
  items still downloading are abandoned.

## Model

| member | source | states |
|---|---|---|
| `Text.Prefix` | index.js:124 | `substring(0, k)` gives the first min(k, length) characters of the string. |
| `Text.Repeat` | index.js:135 | `" ".repeat(n)` gives exactly n copies of the character. |
| `Text.Includes` | index.js:145 | `includes(sub)` is true iff `sub` occurs at some position of the string. |
| `Text.IndexOf` | index.js:60 | `indexOf` gives -1 iff the element is absent. Otherwise it gives a position holding the element, with no earlier occurrence. |
| `Text.DecimalRoundTrip` | index.js:155 | The decimal text of a displayed number reads back as that number. |
| `PlaylistUrl.IdRun` | index.js:15 | The greedy `[a-zA-Z0-9_-]+` run is a prefix made of id characters. It is maximal: the next character, if any, is not an id character. |
| `PlaylistUrl.IdRunExact` | index.js:15 | The greedy run over id + rest is exactly id when rest cannot extend it. |
| `PlaylistUrl.MatchPattern` | index.js:15 | A match splits the URL into optional scheme, `www.`, `music.`, the fixed `youtube.com/playlist?list=`, a non-empty maximal id, and the rest. Joining the parts gives the URL back. |
| `PlaylistUrl.MatchPatternComplete` | index.js:15 | Every well-formed split is found by the pattern, so a match exists exactly for well-formed splits. |
| `PlaylistUrl.AcceptedHasScheme` | index.js:69 | The `startsWith("http")` test means every URL passing both tests has its scheme group. The pattern alone would also take URLs without one. |
| `PlaylistUrl.JoinAccepted` | index.js:69 | Every well-formed split that has a scheme, once joined, passes both tests. |
| `PlaylistUrl.Accepts` | index.js:69 | A URL is accepted iff it is `http://` or `https://`, optional `www.`, optional `music.`, `youtube.com/playlist?list=`, a non-empty id, then any text. |
| `PlaylistUrl.FindListId` | index.js:112 | The `list=` search, when it succeeds, yields a non-empty id of id characters. |
| `PlaylistUrl.FindListIdSkips` | index.js:112 | The search passes over a prefix holding no `=`. |
| `PlaylistUrl.ListIdOfAccepted` | index.js:112 | For an accepted URL the extracted id equals the id captured by the validation pattern. |
| `Arguments.HelpRequested` | index.js:38 | Help is shown iff there are no arguments, or `-h` or `--help` occurs and its first occurrence is not the first argument. |
| `Arguments.FlagValue` | index.js:60-63 | A flag's value is the argument after its first occurrence when that occurrence is past position 0. It is missing (`undefined`) when that occurrence is last. Otherwise the default applies. |
| `Arguments.Parse` | index.js:38-72 | The command is help iff help is requested. Otherwise the program stops on an `undefined` output directory iff `-o` is the last argument (its first occurrence), whatever the URL. Otherwise it rejects the URL iff `args[0]` is not accepted. A run uses `args[0]` as the URL and the four flag values with their defaults, and its output directory is always defined. |
| `Arguments.DefaultsWhenNoFlags` | index.js:59-63 | A bare accepted URL runs with threads 5, filter `audioandvideo`, quality `highestaudio` and output `./downloads/`. |
| `FileNames.Sanitize` | index.js:130 | Replacing illegal characters keeps the length and leaves no illegal character. Each illegal character becomes `_` and every other character is unchanged. |
| `FileNames.SanitizeIdempotent` | index.js:130 | Sanitising twice equals sanitising once. |
| `FileNames.SanitizeAppend` | index.js:130 | Sanitising distributes over concatenation, since replacement is per character. |
| `FileNames.SanitizeKeeps` | index.js:130 | A title without illegal characters is left unchanged. |
| `FileNames.SanitizeExample` | index.js:130 | `Song: Part 1/2?` becomes `Song_ Part 1_2_`. |
| `FileNames.Pad` | index.js:135 | Padding gives length max(n, 35) with the title as prefix and only spaces after it. Longer titles are not truncated. |
| `FileNames.FileTitle` | index.js:130-135 | The file title has length max(n, 35), starts with the sanitised title and holds no illegal character. |
| `FileNames.Extension` | index.js:145 | The extension is `mp4` iff the filter contains `video`, else `mp3`. |
| `FileNames.FileName` | index.js:145 | The path is the directory, `/`, the file title, then `.mp4` when the filter contains `video`, else `.mp3`. |
| `BarLabels.InitialTitle` | index.js:124 | The first bar title is a prefix of the raw title of length min(n, 35). |
| `BarLabels.StartingLabel` | index.js:141 | The starting title is `Starting ` followed by the first min(n, 26) characters of the file title. |
| `BarLabels.ProgressTitle` | index.js:168-173 | The progress title is the first min(n, 35) characters of the file title. |
| `BarLabels.ErrorLabel` | index.js:179 | The error title is `Error downloading ` followed by the first min(n, 17) characters of the file title. |
| `BarLabels.LabelsAreFixedWidth` | index.js:141-179 | The starting, progress and error titles are each exactly 35 characters. Each ends in a prefix of the file title. |
| `BarLabels.ProgressTitleContents` | index.js:168 | The progress title is the sanitised title, cut to 35 or padded with spaces. |
| `Sizes.UnitFor` | index.js:154-163 | The unit is the largest one whose divider does not exceed the total. KB is used when none does, and GB is the largest unit. |
| `Sizes.RoundDiv` | index.js:155 | `Math.round(x / d)` is the nearest integer, with halves rounded up. |
| `Sizes.RoundDivMonotone` | index.js:168 | A larger byte count never shows a smaller rounded number. |
| `Sizes.SizeLabel` | index.js:154-163 | The size label is at least three characters and ends with the name of the chosen unit. |
| `Sizes.SizeLabelReadsBack` | index.js:154-163 | The size label ends with the unit's name. The digits before it read back as the total divided by the unit's divider, rounded. |
| `Sizes.DisplayedRange` | index.js:154-163 | Below GB the number shown is at most 1000. From MB up it is at least 1. |
| `Sizes.SizeLabelExamples` | index.js:154-163 | 500,000 gives `500KB`, 5,000,000 gives `5MB` and 5,000,000,000 gives `5GB`. At the thresholds, 1,000,000 gives `1MB` and 1,000,000,000 gives `1GB`. |
| `Download.Percent` | index.js:167 | The percentage is the ceiling of 100·read/total. |
| `Download.PercentInRange` | index.js:167 | While read ≤ total the percentage is at most 100. |
| `Download.PercentUnclamped` | index.js:167 | When read > total the percentage exceeds 100, since nothing clamps it. |
| `Download.PercentMonotone` | index.js:167 | More bytes read never give a smaller percentage. |
| `Download.SumPrefixMonotone` | index.js:166 | The counter after fewer chunks is never above the counter after more. |
| `Download.PercentAlongStream` | index.js:166-167 | Along any chunk stream the displayed percentage never decreases. |
| `Download.Tracker.constructor` | index.js:121-141 | After creation the file title is the sanitised, padded title. The bar shows 0, the starting title and `0MB`, and no response has arrived yet. |
| `Download.Tracker.OnResponse` | index.js:147-163 | The response records the total, resets the counter to 0, and sets the unit's divider and the size label. The bar is untouched. |
| `Download.Tracker.OnData` | index.js:165-169 | A chunk adds its length to the counter (monotone; the counter is the sum of the chunks). The bar then shows the percentage (at most 100 while within the total), the progress title, the size and the rounded amount read. |
| `Download.Tracker.OnEnd` | index.js:172-176 | On the end event the bar shows 100 with the progress title, and the item is reported done. |
| `Download.Tracker.OnError` | index.js:178-182 | On the error event the bar shows 0 with the 35-character error title, and the item is reported failed. |

## Left out

- The worker pool (`async.mapLimit`) and its completion callback (index.js:192-207) are not modelled. The pool is a library, and the callback only prints and exits. The success message counts `items.length`, not successes.
- Network and streaming are not modelled: the playlist lookup, the media stream, the wiring of event handlers, and piping into the file. Each event handler is a `Tracker` method; the events themselves are inputs.
- The directory check, the `y/n` prompt, directory creation, `path.resolve` of a defined path, console output and process exit are I/O, so they are left out. `Parse` stops where the directory check begins; only the TypeError that `path.resolve` throws on `undefined` is modelled, as the `OutputUndefined` command. `FileName` takes the resolved directory as a parameter.
- The `cli-progress` bars are not rendered. Only the value and payload passed to `bar.update` are kept, and a payload field not passed keeps its old value.
- Download.Percent: uses exact arithmetic. JavaScript computes `Math.ceil((dataRead / totalSize) * 100)` in floating point, which can come out 1 above the exact ceiling (7/100 gives 8).
- Sizes.RoundDiv: uses exact arithmetic for `Math.round` of a floating-point quotient.
- Download.Tracker.OnData: requires a positive declared size. With a content length of 0 JavaScript divides by zero and shows `Infinity` or `NaN`.
- A missing `content-length` header is not modelled. Then `totalSize` is `undefined` and the size label becomes `NaNGB`. The model takes the declared size as a natural number.
- The bar's initial `dataRead` payload is the string `"0"`. It is modelled as the number 0.
- Arguments.FlagValue: the thread default is the number `5` in the source. It is modelled as the string `"5"`. The value is never converted to a number; it goes straight to the pool.
- When `-t`, `-f` or `-q` is the last argument its value is `undefined`. The later uses of that value are not modelled: the pool's limit, the media-client options, and `filter.includes`, which would throw.
- Text.Prefix, FileNames.Pad: lengths count Unicode characters, while JavaScript's `length` and `substring` count UTF-16 code units. For titles with characters outside the Basic Multilingual Plane (emoji, say) the padding and the cuts differ: JavaScript pads "🎵" with 33 spaces where `Pad` appends 34, and `substring(0, k)` can split a surrogate pair, which no Dafny `char` can hold. FileNames.FileTitle, FileNames.FileName, BarLabels.InitialTitle, BarLabels.StartingLabel, BarLabels.ProgressTitle, BarLabels.ErrorLabel, BarLabels.LabelsAreFixedWidth and BarLabels.ProgressTitleContents inherit this.
