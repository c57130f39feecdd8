# Rolling file sinks for Serilog, modelled in Dafny

This project models the rotation engine of the Serilog rolling-file sinks: the packages
`Serilog.Sinks.RollingFileAlternate` (its size-rolling and hourly sinks), its portable variant,
and `Serilog.Sinks.RollingFileV2`. A sink writes formatted log events to a file, and moves to a
new file when the current one has passed a size limit or when an event falls outside the file's
hour. The model covers these parts:

- How the sinks name their files:
  - `LogFileInfo`: date, process and sequence.
  - `SizeLimitedLogFileInfo`: date and sequence.
  - `HourlyLogFileInfo` and `HourlyLogFileDescription`: hour and sequence.
  - The size-limited descriptions over `FileNameComponents`.
- How a sink resumes from the latest file it finds in the directory: the regex scans and the
  latest-by-sequence choice.
- How a writer opens its file, retrying under the next name while another process holds it.
- How a writer tracks its size limit.
- The state machine of each rolling sink: rotate, write, dispose.
- The retention policy that deletes the oldest files.

Each sink is a value. Each operation is a function that returns the new value, together with the
exception that escaped, if any (`Outcomes.Outcome`). The outside world is passed in as parameters:

- the clock;
- the running process;
- the directory listing, with creation times;
- the outcome of opening each path (`FileSystemModel.OpenOutcome`);
- the files whose delete fails.

`Outcomes.Inc32` models `uint` arithmetic: the sequence numbers wrap at 2^32. `Outcomes.Dec32`
models the retention policies' `limit - 1` on an `int`, which wraps at `int.MinValue`.

One file per concern:

| file | models |
|---|---|
| outcomes.dfy, events.dfy, text.dfy, decimal.dfy, clock.dfy | results and exceptions, `uint` wrap-around, log events, `Path`, number and date formatting |
| file_system.dfy | opening a file for append, stream length and the UTF-8 preamble, `EnsureDirectoryCreated` |
| patterns.dfy | the `(\d{5})` scans of `GetLatestOrNew` and the maximum they compute |
| process_log_files.dfy, daily_log_files.dfy, hourly_log_files.dfy, hourly_descriptions.dfy | the file-name types of the portable and hourly sinks |
| file_names.dfy, size_descriptions.dfy, size_descriptions_v2.dfy, latest_files.dfy | `FileNameComponents`, its parser, the size-limited descriptions, `GetLatestFileDescription` |
| open_retry.dfy | the recursive `OpenFileForWriting` search, once for both writer types |
| size_writers.dfy, size_writers_v2.dfy, hourly_writers.dfy | `SizeLimitedFileSink` (two versions) and `HourlyFileSink` |
| size_rolling.dfy | the rotate-when-limit-reached state machine the three size-rolling sinks share |
| alternate_rolling.dfy, size_rolling_v2.dfy, portable_alternate_rolling.dfy | the three size-rolling sinks |
| hourly_rolling.dfy, portable_hourly_rolling.dfy | the two hourly sinks |
| retention.dfy | `FileRetentionPolicy.Apply` and the hourly sink's `ApplyRetentionPolicy` |

## Model

| member | source | states |
|---|---|---|
| ProcessLogFiles.GetProcess | src/Serilog.Sinks.RollingFileAlternate/Sinks/SizeRollingFileSink/LogFileInfo.cs:41-53 | with no process the identity is (0, ""); otherwise the pid is kept and a name of 20 or more characters is cut to its first 20 followed by "...", a shorter one kept whole |
| ProcessLogFiles.ProcessPrefix | src/Serilog.Sinks.RollingFileAlternate/Sinks/SizeRollingFileSink/LogFileInfo.cs:27 | the start of the constructor's name reads back as the date `yyyyMMdd`, the pid's decimal text and the process name, each followed by a dash |
| ProcessLogFiles.LogFileInfo.FileNameAsWritten | src/Serilog.Sinks.RollingFileAlternate/Sinks/SizeRollingFileSink/LogFileInfo.cs:27 | the constructor's name is that start, then digits whose value is the sequence (five of them below 100000), then `.log`, with or without a process |
| ProcessLogFiles.LogFileInfo.FileName | src/Serilog.Sinks.RollingFileAlternate/Sinks/SizeRollingFileSink/LogFileInfo.cs:27-63 | the corrected name: with a process, the constructor's name; without one (pid 0), the date, a dash, digits whose value is the sequence and `.log`, the shape the pid-0 scan looks for |
| ProcessLogFiles.ProcessNameBounded | src/Serilog.Sinks.RollingFileAlternate/Sinks/SizeRollingFileSink/LogFileInfo.cs:46 | a kept process name is at most 23 characters long and begins with the original's first characters |
| ProcessLogFiles.LogFileInfo.Next | src/Serilog.Sinks.RollingFileAlternate/Sinks/SizeRollingFileSink/LogFileInfo.cs:30-39 | the result is dated `now`; on the same calendar day the sequence goes up by one (wrapping as a `uint`), on another day it restarts at 1; the process identity is read again |
| ProcessLogFiles.Create | src/Serilog.Sinks.RollingFileAlternate/Sinks/SizeRollingFileSink/LogFileInfo.cs:20-26 | a new info keeps the date and sequence it is given and takes the pid and name from `GetProcess` |
| ProcessLogFiles.Pattern | src/Serilog.Sinks.RollingFileAlternate/Sinks/SizeRollingFileSink/LogFileInfo.cs:58-68 | for every sequence below 100000, the pattern built for a date and process finds the name the corrected `FileName` gives that date, process and sequence, and reads the sequence back |
| ProcessLogFiles.PatternChoice | src/Serilog.Sinks.RollingFileAlternate/Sinks/SizeRollingFileSink/LogFileInfo.cs:61-68 | the date-only pattern is chosen if and only if the pid is 0 |
| ProcessLogFiles.GetLatestOrNew | src/Serilog.Sinks.RollingFileAlternate/Sinks/SizeRollingFileSink/LogFileInfo.cs:56-85 | the result carries the given date and this process's identity; its sequence is at least 1, at least every sequence captured from a listed path, and is either 1 or one of those captures |
| ProcessLogFiles.FileNameIsFound | src/Serilog.Sinks.RollingFileAlternate/Sinks/SizeRollingFileSink/LogFileInfo.cs:61-75 | in a folder whose path does not contain the date as `yyyyMMdd-`, the scan of the folder's full paths finds every name the corrected `FileName` gives, and reads its sequence back |
| ProcessLogFiles.ZeroPidNameNotFound | src/Serilog.Sinks.RollingFileAlternate/Sinks/SizeRollingFileSink/LogFileInfo.cs:27-63 | a name written with pid 0 is never matched by the pid-0 scan, so a restart of such a process cannot resume from its own files |
| ProcessLogFiles.NamesWithoutProcess | src/Serilog.Sinks.RollingFileAlternate/Sinks/SizeRollingFileSink/LogFileInfo.cs:27-51 | without a process the corrected name has no pid or name segment, while the constructor's name carries `-0--` |
| ProcessLogFiles.RendersTestName | test/Serilog.Sinks.RollingFileAlternate.Tests/LogFileInfoTests.cs:14-15 | 2015-01-15 with sequence 77 gives `20150115-00077.log` under the corrected name |
| ProcessLogFiles.WritesTestNameWithEmptySegments | src/Serilog.Sinks.RollingFileAlternate/Sinks/SizeRollingFileSink/LogFileInfo.cs:20-27 | without a process, the constructor names sequence 77 `yyyyMMdd-0--00077.log` on every date, not the name the test expects |
| DailyLogFiles.SizeLimitedLogFileInfo.FileName | src/Serilog.Sinks.RollingFileAlternate/Sinks/SizeRollingFileSink/SizeLimitedLogFileInfo.cs:20 | the name reads back: `yyyyMMdd` of the date, a dash, digits whose value is the sequence (five of them below 100000), then `.log` |
| DailyLogFiles.SizeLimitedLogFileInfo.Next | src/Serilog.Sinks.RollingFileAlternate/Sinks/SizeRollingFileSink/SizeLimitedLogFileInfo.cs:23-32 | the result is dated `now`; on the same calendar day the sequence is the old one plus one, wrapping as a `uint`; on another day it is 1 |
| DailyLogFiles.GetLatestOrNew | src/Serilog.Sinks.RollingFileAlternate/Sinks/SizeRollingFileSink/SizeLimitedLogFileInfo.cs:34-55 | the result carries the given date; its sequence is at least 1, at least every captured sequence of a listed path, and either 1 or one of them |
| DailyLogFiles.FileNameIsFound | src/Serilog.Sinks.RollingFileAlternate/Sinks/SizeRollingFileSink/SizeLimitedLogFileInfo.cs:20-45 | in a folder whose path does not contain `yyyyMMdd-` and five digits, the scan of the folder's full paths finds every name rendered for that date, and reads its sequence back |
| DailyLogFiles.OtherDatesIgnored | src/Serilog.Sinks.RollingFileAlternate/Sinks/SizeRollingFileSink/SizeLimitedLogFileInfo.cs:36-43 | in such a folder, the full path of a file of another calendar date is never matched by the date's scan |
| DailyLogFiles.EmptyDirectoryStartsAtOne | src/Serilog.Sinks.RollingFileAlternate/Sinks/SizeRollingFileSink/SizeLimitedLogFileInfo.cs:38 | when no listed path matches, the sequence is 1 |
| DailyLogFiles.LatestOfOneTwoThree | src/Serilog.Sinks.RollingFileAlternate/Sinks/SizeRollingFileSink/SizeLimitedLogFileInfo.cs:40-52 | in such a folder, the full paths of the files of sequences 1, 2 and 3 of the date make the scan resume at 3 |
| DailyLogFiles.ResumesPastWrittenFile | src/Serilog.Sinks.RollingFileAlternate/Sinks/SizeRollingFileSink/SizeLimitedLogFileInfo.cs:34-55 | after a restart on the same day, the scan resumes at or beyond the sequence of any file written earlier that day to a folder whose path does not itself contain `yyyyMMdd-` and five digits |
| DailyLogFiles.FolderCanShadowNames | src/Serilog.Sinks.RollingFileAlternate/Sinks/SizeRollingFileSink/SizeLimitedLogFileInfo.cs:40-45 | the scan matches whole paths, so in a folder named like the day's file of sequence 1 the file of sequence 2 is read as 1 and the scan resumes at 1 |
| DailyLogFiles.NextTimesSameDay | src/Serilog.Sinks.RollingFileAlternate/Sinks/SizeRollingFileSink/SizeLimitedLogFileInfo.cs:31 | k rotations within one day add exactly k to the sequence, below the `uint` bound |
| DailyLogFiles.NextRenamesFile | src/Serilog.Sinks.RollingFileAlternate/Sinks/SizeRollingFileSink/SizeLimitedLogFileInfo.cs:20-32 | `Next` never yields the current file name, whether or not the day changes, at every sequence including past 99999 and across the `uint` wrap-around |
| DailyLogFiles.RendersTestName | src/Serilog.Sinks.RollingFileAlternate/Sinks/SizeRollingFileSink/SizeLimitedLogFileInfo.cs:20 | 2015-01-15 with sequence 77 renders as `20150115-00077.log` |
| HourlyLogFiles.HourlyLogFileInfo.FileName | src/Serilog.Sinks.RollingFileAlternate/Sinks/HourlyRolling/HourlyLogFileInfo.cs:20 | the name reads back: the two-digit hour, a dash, digits whose value is the sequence (five of them below 100000), then `.log` |
| HourlyLogFiles.HourlyLogFileInfo.Next | src/Serilog.Sinks.RollingFileAlternate/Sinks/HourlyRolling/HourlyLogFileInfo.cs:23-32 | the result is dated `now`; only the hour of day is compared: a different hour restarts at 1, the same hour, even on another day, goes up by one |
| HourlyLogFiles.GetLatestOrNew | src/Serilog.Sinks.RollingFileAlternate/Sinks/HourlyRolling/HourlyLogFileInfo.cs:34-55 | the result carries the given time, not a matched file's; its sequence is at least 1, at least every captured sequence, and either 1 or one of them |
| HourlyLogFiles.FileNameIsFound | src/Serilog.Sinks.RollingFileAlternate/Sinks/HourlyRolling/HourlyLogFileInfo.cs:20-45 | in a folder whose path does not contain `HH-` and five digits, the scan of the folder's full paths finds every name rendered for that hour, and reads its sequence back |
| HourlyLogFiles.OtherHoursIgnored | src/Serilog.Sinks.RollingFileAlternate/Sinks/HourlyRolling/HourlyLogFileInfo.cs:36-43 | in such a folder, the full path of a file of another hour of day is never matched by the hour's scan |
| HourlyLogFiles.NextIgnoresTheDate | src/Serilog.Sinks.RollingFileAlternate/Sinks/HourlyRolling/HourlyLogFileInfo.cs:26-31 | 10:00 on 2015-01-15 with sequence 4, moved on at 10:30 the next day, continues at sequence 5 |
| HourlyLogFiles.NextRenamesFile | src/Serilog.Sinks.RollingFileAlternate/Sinks/HourlyRolling/HourlyLogFileInfo.cs:20-32 | `Next` never yields the current file name, at every sequence including past 99999 and across the `uint` wrap-around |
| HourlyDescriptions.HourlyLogFileDescription.FileName | src/Serilog.Sinks.RollingFileAlternate/Sinks/HourlyRolling/HourlyLogFileDescription.cs:14 | the name is six characters: two digits whose value is the hour, then `.log` |
| HourlyDescriptions.HourlyLogFileDescription.Date | src/Serilog.Sinks.RollingFileAlternate/Sinks/HourlyRolling/HourlyLogFileDescription.cs:16 | the same calendar date at midnight |
| HourlyDescriptions.SameHourMeaning | src/Serilog.Sinks.RollingFileAlternate/Sinks/HourlyRolling/HourlyLogFileDescription.cs:18-21 | `SameHour(t)` holds if and only if `t` falls on the same calendar date and in the same hour |
| HourlyDescriptions.SameHourEquivalence | src/Serilog.Sinks.RollingFileAlternate/Sinks/HourlyRolling/HourlyLogFileDescription.cs:9-21 | a description covers the time it was made for, and covering is symmetric and transitive |
| HourlyDescriptions.FileNameIdentifiesHour | src/Serilog.Sinks.RollingFileAlternate/Sinks/HourlyRolling/HourlyLogFileDescription.cs:14 | two descriptions share a file name if and only if their hours agree, whatever their dates |
| HourlyDescriptions.DateIdempotent | src/Serilog.Sinks.RollingFileAlternate/Sinks/HourlyRolling/HourlyLogFileDescription.cs:16 | taking `Date` of a `Date` changes nothing |
| HourlyDescriptions.SevenOClock | src/Serilog.Sinks.RollingFileAlternate/Sinks/HourlyRolling/HourlyLogFileDescription.cs:14 | any time in hour 7 gives `07.log` |
| SizeDescriptions.SizeLimitedLogFileDescription.Next | src/Serilog.Sinks.RollingFileAlternate/Sinks/SizeRollingFileSink/SizeLimitedLogFileDescription.cs:16-24 | name, extension and size limit are kept; the sequence goes up by one, wrapping to 0 past the `uint` maximum |
| SizeDescriptions.RotationsAdvance | src/Serilog.Sinks.RollingFileAlternate/Sinks/SizeRollingFileSink/SizeLimitedLogFileDescription.cs:16-24 | k rotations add exactly k to the sequence and keep name, extension and limit, below the `uint` bound |
| SizeDescriptions.NextRenamesFile | src/Serilog.Sinks.RollingFileAlternate/Sinks/SizeRollingFileSink/SizeLimitedLogFileDescription.cs:14-24 | every rotation names a different file, also past sequence 99999 and across the `uint` wrap-around |
| SizeDescriptions.NextWrapsAtMaximum | src/Serilog.Sinks.RollingFileAlternate/Sinks/SizeRollingFileSink/SizeLimitedLogFileDescription.cs:20 | the next description after sequence 4294967295 has sequence 0 |
| SizeDescriptionsV2.Next | src/Serilog.Sinks.RollingFileV2/Sinks/SizeRollingFileSink/SizeLimitedLogFileDescription.cs:19-25 | name, extension and size limit are kept; the sequence goes up by one, wrapping to 0 past the `uint` maximum |
| SizeDescriptionsV2.NextChangesOnlyTheDigits | src/Serilog.Sinks.RollingFileV2/Sinks/SizeRollingFileSink/SizeLimitedLogFileDescription.cs:14-25 | below 99999 the names before and after agree except in the five sequence digits, which hold the old and the next number |
| FileNames.ParseLogFileName | src/Serilog.Sinks.RollingFileAlternate/Sinks/SizeRollingFileSink/AlternateRollingFileSink.cs:132-137 | a parse has a name without separators and a sequence below 100000 |
| FileNames.ParseInvertsFullName | src/Serilog.Sinks.RollingFileAlternate/Sinks/SizeRollingFileSink/AlternateRollingFileSink.cs:132-137 | parsing a rendered name, in any directory, gives back its components |
| FileNames.FullNameReadBack | test/Serilog.Sinks.RollingFileAlternate.Tests/TemplateParserTests.cs:12-46 | a rendered name starts with the name, then a run of digits whose value is the sequence (exactly five below 100000), then `.` and the extension when there is one |
| FileNames.ParseWithoutSequence | test/Serilog.Sinks.RollingFileAlternate.Tests/TemplateParserTests.cs:12-46 | a stem without five trailing digits keeps its whole text as the name, with sequence 0 |
| FileNames.ParserTestCasesWithoutExtension | test/Serilog.Sinks.RollingFileAlternate.Tests/TemplateParserTests.cs:12-26 | `C:\logs\applog` and `logs\applog` parse as ("applog", 0, no extension) |
| FileNames.ParserTestCasesWithExtension | test/Serilog.Sinks.RollingFileAlternate.Tests/TemplateParserTests.cs:32-46 | `C:\logs\applog.txt` and `logs\applog.txt` parse as ("applog", 0, "txt") |
| FileNames.ParserTestCaseWithToken | test/Serilog.Sinks.RollingFileAlternate.Tests/TemplateParserTests.cs:72-76 | a `{Date}` token stays in the parsed name |
| FileNames.ParsesApplogZero | test/Serilog.Sinks.RollingFileAlternate.Tests/TemplateParserTests.cs:52-66 | a path ending in `applog00000.txt` parses as ("applog", 0, "txt") in any directory |
| FileNames.ParserTestCasesWithSequence | test/Serilog.Sinks.RollingFileAlternate.Tests/TemplateParserTests.cs:52-66 | `C:\logs\applog00000.txt` and `logs\applog00000.txt` parse as ("applog", 0, "txt") |
| FileNames.RenderingTestCases | test/Serilog.Sinks.RollingFileV2.Tests/FileNameComponentsTests.cs:12-20 | ("name", 0, "txt") renders `name00000.txt` and ("name", 1200, none) renders `name01200` |
| Patterns.Capture | src/Serilog.Sinks.RollingFileAlternate/Sinks/SizeRollingFileSink/LogFileInfo.cs:72-75 | a capture exists if and only if the pattern matches somewhere in the path, and is below 100000 |
| Patterns.FirstMatch | src/Serilog.Sinks.RollingFileAlternate/Sinks/SizeRollingFileSink/LogFileInfo.cs:72 | the match found is at or after the start position, and no earlier position matches |
| Patterns.ScanLatest | src/Serilog.Sinks.RollingFileAlternate/Sinks/SizeRollingFileSink/LogFileInfo.cs:70-82 | the loop's result is at least its start and every capture, and is the start or one of the captures |
| Patterns.ScanIsMaximum | src/Serilog.Sinks.RollingFileAlternate/Sinks/SizeRollingFileSink/SizeLimitedLogFileInfo.cs:40-52 | any value with those properties is the loop's result, so the loop computes the maximum |
| Patterns.ScanOrderIndependent | src/Serilog.Sinks.RollingFileAlternate/Sinks/SizeRollingFileSink/SizeLimitedLogFileInfo.cs:40-52 | permuting the directory listing does not change the result |
| Patterns.SplicedNameRoundTrip | src/Serilog.Sinks.RollingFileAlternate/Sinks/SizeRollingFileSink/SizeLimitedLogFileInfo.cs:20-36 | a name built from a prefix, five digits and a suffix is matched by the pattern spliced from the same text, which reads the digits back |
| Patterns.CaptureInFolder | src/Serilog.Sinks.RollingFileAlternate/Sinks/SizeRollingFileSink/SizeLimitedLogFileInfo.cs:40-45 | `Regex.Match` runs on full paths: when the start of the pattern occurs nowhere in the folder, a name matching from its first character is captured in the folder as it is alone, and a name of the pattern's length that does not match there is not captured at all |
| Patterns.CaptureFromFolder | src/Serilog.Sinks.RollingFileAlternate/Sinks/SizeRollingFileSink/SizeLimitedLogFileInfo.cs:40-45 | a folder that itself matches the pattern from its first character decides the capture of every path under it |
| Patterns.OtherPrefixIgnored | src/Serilog.Sinks.RollingFileAlternate/Sinks/SizeRollingFileSink/SizeLimitedLogFileInfo.cs:36-43 | a name whose prefix differs from the pattern's literal prefix is not matched |
| LatestFiles.LatestComponents | src/Serilog.Sinks.RollingFileAlternate/Sinks/SizeRollingFileSink/AlternateRollingFileSink.cs:87-129 | with an empty folder, the template's parse; otherwise the parse of a listed path whose sequence is at least every other and strictly above every earlier one |
| LatestFiles.LatestIsFirstOfHighest | src/Serilog.Sinks.RollingFileAlternate/Sinks/SizeRollingFileSink/AlternateRollingFileSink.cs:94 | that characterisation picks a unique path: the first listed path of highest sequence |
| LatestFiles.LatestOfTwo | src/Serilog.Sinks.RollingFileAlternate/Sinks/SizeRollingFileSink/AlternateRollingFileSink.cs:94 | of two listed paths, the one of higher sequence wins in either listing order |
| LatestFiles.AnyNameCanBeLatest | src/Serilog.Sinks.RollingFileAlternate/Sinks/SizeRollingFileSink/AlternateRollingFileSink.cs:126-129 | a lone file of any rendered name is the latest, whatever name the template has |
| LatestFiles.HigherSequenceWins | src/Serilog.Sinks.RollingFileAlternate/Sinks/SizeRollingFileSink/AlternateRollingFileSink.cs:94 | of two rendered files, the one of higher sequence is the latest in either listing order |
| Retention.NewestFirst | src/Serilog.Sinks.RollingFileAlternate/Sinks/FileRetentionPolicy.cs:24 | the result is a permutation of the listing, ordered newest first by creation time |
| Retention.NewestFirstStable | src/Serilog.Sinks.RollingFileAlternate/Sinks/FileRetentionPolicy.cs:24 | files created at the same time keep their listing order |
| Retention.Filter | src/Serilog.Sinks.RollingFileAlternate/Sinks/FileRetentionPolicy.cs:22 | an entry is kept if and only if it is listed and the predicate has the requested value |
| Retention.HourlyObsolete | src/Serilog.Sinks.RollingFileAlternate/Sinks/HourlyRolling/HourlyRollingFileSink.cs:115-125 | nothing without a limit; every selected entry is listed and does not carry the current name, ignoring case; the skip count is `limit - 1` on a 32-bit `int`, which wraps at `int.MinValue` |
| Retention.PolicyObsolete | src/Serilog.Sinks.RollingFileAlternate/Sinks/FileRetentionPolicy.cs:16-30 | nothing without a limit; with a limit, a current name without a dash throws and one with a dash gives a selection; every selected entry is listed, is not the current file, and matches the pattern built from the name up to its last dash; the skip count is `limit - 1` on a 32-bit `int`, which wraps at `int.MinValue` |
| Retention.ObsoleteCount | src/Serilog.Sinks.RollingFileAlternate/Sinks/FileRetentionPolicy.cs:27-30 | the number selected is the number of non-current entries beyond the newest `limit - 1`, and 0 when there are no more; at `int.MinValue` the skip count wraps to `int.MaxValue` |
| Retention.SurvivorsAreNewest | src/Serilog.Sinks.RollingFileAlternate/Sinks/FileRetentionPolicy.cs:27-30 | every non-current entry that is kept is at least as new as every selected one, for every `int` limit |
| Retention.HourlyKeepsAtMostLimit | src/Serilog.Sinks.RollingFileAlternate/Sinks/HourlyRolling/HourlyRollingFileSink.cs:113-125 | when at most one listed file bears the current name, at most `max(limit, 1)` listed files survive; a limit of `int.MinValue` wraps and deletes nothing from a listing of fewer than 2^31 files |
| Retention.Attempt | src/Serilog.Sinks.RollingFileAlternate/Sinks/FileRetentionPolicy.cs:34-42 | the file deleted is the selected name combined with the log directory, and a failing delete is logged instead |
| Retention.DeleteAll | src/Serilog.Sinks.RollingFileAlternate/Sinks/FileRetentionPolicy.cs:32-43 | one attempt per selected file, in order |
| Retention.FailuresSkipped | src/Serilog.Sinks.RollingFileAlternate/Sinks/FileRetentionPolicy.cs:32-43 | a failed delete does not stop the loop: each selected file is either deleted or logged |
| Retention.Apply | src/Serilog.Sinks.RollingFileAlternate/Sinks/FileRetentionPolicy.cs:14-44 | nothing without a limit; with a limit, a current name without a dash throws and one with a dash gives a result; every deleted or logged path is the log directory combined with a listed, non-current file of the pattern |
| SizeWriters.WithWriter | src/Serilog.Sinks.RollingFileAlternate/Sinks/SizeRollingFileSink/SizeLimitedFileSink.cs:32-40 | the writer keeps the description and stream it is given, neither disposed nor past its limit |
| SizeWriters.Emit | src/Serilog.Sinks.RollingFileAlternate/Sinks/SizeRollingFileSink/SizeLimitedFileSink.cs:75-99 | a null event throws, then a disposed writer throws, without a stream nothing happens; otherwise the bytes are appended, and the flag is up if and only if it was already up or the stream is now strictly longer than the limit |
| SizeWriters.Dispose | src/Serilog.Sinks.RollingFileAlternate/Sinks/SizeRollingFileSink/SizeLimitedFileSink.cs:111-119 | the first call disposes, a later one does nothing, and a null stream throws |
| SizeWriters.DisposeIdempotent | src/Serilog.Sinks.RollingFileAlternate/Sinks/SizeRollingFileSink/SizeLimitedFileSink.cs:111-119 | a second `Dispose` returns what the first one did |
| SizeWriters.EmitAfterDispose | src/Serilog.Sinks.RollingFileAlternate/Sinks/SizeRollingFileSink/SizeLimitedFileSink.cs:81-84 | every event sent to a disposed writer throws `ObjectDisposedException` |
| SizeWriters.FlagMeansPastLimit | src/Serilog.Sinks.RollingFileAlternate/Sinks/SizeRollingFileSink/SizeLimitedFileSink.cs:19-97 | over any run of events the flag ends up if and only if it was up or the total length passes the limit; it is never lowered |
| SizeWriters.OneByteLimitReachedAfterOneEvent | test/Serilog.Sinks.RollingFileAlternate.Tests/SizeLimitReachedTests.cs:17-25 | with a 1-byte limit over a fresh UTF-8 stream, one event raises the flag |
| SizeWriters.OpenFileForWriting | src/Serilog.Sinks.RollingFileAlternate/Sinks/SizeRollingFileSink/SizeLimitedFileSink.cs:42-73 | an empty folder throws `ArgumentException` from `Directory.CreateDirectory`; otherwise an open that meets no contention settles at the requested file: the stream, or the error that escapes |
| SizeWriters.ContentionTriesNextName | src/Serilog.Sinks.RollingFileAlternate/Sinks/SizeRollingFileSink/SizeLimitedFileSink.cs:55-64 | contention at the requested file moves the open on to `Next()` of the description |
| SizeWriters.Open | src/Serilog.Sinks.RollingFileAlternate/Sinks/SizeRollingFileSink/SizeLimitedFileSink.cs:21-30 | the writer describes the description it was asked for and holds a fresh stream; it opens exactly when `OpenFileForWriting` does with the preamble of `encoding ?? Encoding.UTF8`, holds that writer, and fails with the same error |
| SizeWriters.RetryKeepsRequestedDescription | src/Serilog.Sinks.RollingFileAlternate/Sinks/SizeRollingFileSink/SizeLimitedFileSink.cs:28-64 | when the requested file is held and the next one opens, the writer appends to the next file while still describing the requested one |
| SizeWritersV2.Open | src/Serilog.Sinks.RollingFileV2/Sinks/SizeRollingFileSink/SizeLimitedFileSink.cs:22-42 | an empty folder throws `ArgumentException` from `Directory.CreateDirectory`; otherwise exactly the description's `FullName` in the folder is opened, with the preamble of `encoding ?? Encoding.UTF8`, and every failure, contention included, escapes |
| SizeWritersV2.OpenLooksAtOneFile | src/Serilog.Sinks.RollingFileV2/Sinks/SizeRollingFileSink/SizeLimitedFileSink.cs:36-42 | two file systems that agree on the description's file open identically |
| SizeWritersV2.FirstEventAgainstLimit | src/Serilog.Sinks.RollingFileV2/Sinks/SizeRollingFileSink/SizeLimitedFileSink.cs:22-69 | the first event raises the flag exactly when the bytes in the file, the encoding's preamble (only for an empty file) and the event together pass the limit: 3 preamble bytes for the default UTF-8, none for an encoding without a preamble |
| SizeWritersV2.OpenedWriterLifecycle | src/Serilog.Sinks.RollingFileV2/Sinks/SizeRollingFileSink/SizeLimitedFileSink.cs:52-85 | an opened writer disposes once, a second `Dispose` does nothing, and then every event throws; a null event always throws |
| HourlyWriters.Folder | src/Serilog.Sinks.RollingFileAlternate/Sinks/HourlyRolling/HourlyFileSink.cs:30 | the folder is the root followed by the construction date as `yyyy-MM-dd` |
| HourlyWriters.Open | src/Serilog.Sinks.RollingFileAlternate/Sinks/HourlyRolling/HourlyFileSink.cs:21-106 | the dated folder exists afterwards; an opened writer describes the requested description, is live, and writes under the dated folder; it opens exactly when the retrying search does |
| HourlyWriters.Emit | src/Serilog.Sinks.RollingFileAlternate/Sinks/HourlyRolling/HourlyFileSink.cs:53-72 | a null event throws, then a disposed writer throws; otherwise the event's bytes are appended to the same file |
| HourlyWriters.Dispose | src/Serilog.Sinks.RollingFileAlternate/Sinks/HourlyRolling/HourlyFileSink.cs:43-51 | the writer ends disposed, with its description and stream unchanged |
| HourlyWriters.DisposeIdempotent | src/Serilog.Sinks.RollingFileAlternate/Sinks/HourlyRolling/HourlyFileSink.cs:43-62 | a second `Dispose` does nothing and every event then throws |
| HourlyWriters.OneDenialTolerated | src/Serilog.Sinks.RollingFileAlternate/Sinks/HourlyRolling/HourlyFileSink.cs:95-105 | a first access denial moves the open on to the next description's file |
| HourlyWriters.SecondDenialEscapes | src/Serilog.Sinks.RollingFileAlternate/Sinks/HourlyRolling/HourlyFileSink.cs:97-100 | a second access denial escapes from the constructor |
| HourlyWriters.ContentionKeepsDenialTolerance | src/Serilog.Sinks.RollingFileAlternate/Sinks/HourlyRolling/HourlyFileSink.cs:87-105 | contention moves on to the next description without using up the tolerated denial |
| OpenRetry.Settle | src/Serilog.Sinks.RollingFileAlternate/Sinks/SizeRollingFileSink/SizeLimitedFileSink.cs:50-61 | an attempt that is not retried gives the stream exactly when the file opened, and otherwise its own error |
| OpenRetry.ContendedBeforeMeans | src/Serilog.Sinks.RollingFileAlternate/Sinks/SizeRollingFileSink/SizeLimitedFileSink.cs:55-64 | the search's record of contention says that every attempt before the k-th met contention |
| OpenRetry.FirstUncontendedAttemptDecides | src/Serilog.Sinks.RollingFileAlternate/Sinks/SizeRollingFileSink/SizeLimitedFileSink.cs:55-64 | the first attempt that is not retried decides the result |
| OpenRetry.ContentionExhaustsFuel | src/Serilog.Sinks.RollingFileAlternate/Sinks/SizeRollingFileSink/SizeLimitedFileSink.cs:64 | contention at every attempt the bound allows ends the search (the source would recurse on) |
| OpenRetry.OpenOutcomeExplained | src/Serilog.Sinks.RollingFileAlternate/Sinks/SizeRollingFileSink/SizeLimitedFileSink.cs:42-65 | without a denial to spare, success is at a file reached through contention only, and failure is that file's own error or running past the bound |
| OpenRetry.FirstDenialRetried | src/Serilog.Sinks.RollingFileAlternate/Sinks/HourlyRolling/HourlyFileSink.cs:95-105 | the first denial is retried at the next description and uses up the tolerance |
| OpenRetry.SecondDenialEscapes | src/Serilog.Sinks.RollingFileAlternate/Sinks/HourlyRolling/HourlyFileSink.cs:97-100 | after a tolerated denial and contention in between, a second denial ends the search with that denial |
| OpenRetry.OpenedPathHas | src/Serilog.Sinks.RollingFileAlternate/Sinks/HourlyRolling/HourlyFileSink.cs:82 | every file the search opens is the path of some description |
| FileSystemModel.EnsureDirectoryCreated | src/Serilog.Sinks.RollingFileAlternate/Sinks/HourlyRolling/HourlyFileSink.cs:108-114 | the empty path throws `ArgumentException`, and only it; otherwise the directory exists afterwards, it is created if and only if it was missing, and no other directory changes |
| FileSystemModel.EnsureDirectoryCreatedIdempotent | src/Serilog.Sinks.RollingFileAlternate/Sinks/HourlyRolling/HourlyFileSink.cs:108-114 | after a check that succeeds, a second check of the same directory succeeds and creates nothing |
| FileSystemModel.Write | src/Serilog.Sinks.RollingFileAlternate/Sinks/SizeRollingFileSink/SizeLimitedFileSink.cs:91-92 | an event and a flush append the pending preamble and the event's bytes to the same file |
| FileSystemModel.StartWriter | src/Serilog.Sinks.RollingFileAlternate/Sinks/SizeRollingFileSink/SizeLimitedFileSink.cs:51-53 | a new writer is positioned after the file's bytes, with the preamble due only for an empty file |
| Clock.YyyymmddIdentifiesDate | src/Serilog.Sinks.RollingFileAlternate/Sinks/SizeRollingFileSink/SizeLimitedLogFileInfo.cs:20-26 | two times render the same `yyyyMMdd` if and only if they fall on the same calendar date |
| Clock.HhIdentifiesHour | src/Serilog.Sinks.RollingFileAlternate/Sinks/HourlyRolling/HourlyLogFileDescription.cs:14 | two times render the same `HH` if and only if their hours agree |
| Outcomes.Inc32 | src/Serilog.Sinks.RollingFileAlternate/Sinks/SizeRollingFileSink/SizeLimitedLogFileInfo.cs:31 | `Sequence + 1` on a `uint` adds one below the maximum and wraps to 0 at it |
| Outcomes.Dec32 | src/Serilog.Sinks.RollingFileAlternate/Sinks/FileRetentionPolicy.cs:29 | `retainedFileCountLimit.Value - 1` on a 32-bit `int`: one less above the minimum, `int.MaxValue` at `int.MinValue` |
| SizeRolling.NewFileWhenLimitReached | src/Serilog.Sinks.RollingFileAlternate/Sinks/SizeRollingFileSink/AlternateRollingFileSink.cs:99-110 | while the flag is down the writer stays; once it is up, a successful rotation holds exactly the writer opened for `Next()` of the old description; an exception leaves the old writer, disposed unless its own dispose threw |
| SizeRolling.Emit | src/Serilog.Sinks.RollingFileAlternate/Sinks/SizeRollingFileSink/AlternateRollingFileSink.cs:59-79 | a null event throws before anything else; a disposed sink throws `ObjectDisposedException`; an active sink stays active |
| SizeRolling.Dispose | src/Serilog.Sinks.RollingFileAlternate/Sinks/SizeRollingFileSink/AlternateRollingFileSink.cs:144-155 | a disposed sink is left alone; a valid active one disposes its writer and ends disposed |
| SizeRolling.DisposeIdempotent | src/Serilog.Sinks.RollingFileAlternate/Sinks/SizeRollingFileSink/AlternateRollingFileSink.cs:144-155 | a second `Dispose` does nothing and every event then throws `ObjectDisposedException` |
| SizeRolling.RotatesIffLimitReached | src/Serilog.Sinks.RollingFileAlternate/Sinks/SizeRollingFileSink/AlternateRollingFileSink.cs:99-110 | without the flag the event goes to the same writer; with it, and a successful open, it goes to a fresh writer for `Next()` of the old description |
| SizeRolling.FailedOpenRetriedOnNextEvent | src/Serilog.Sinks.RollingFileAlternate/Sinks/SizeRollingFileSink/AlternateRollingFileSink.cs:74-106 | a failed open during rotation leaves the old writer disposed and throws; the next event, once the file can be opened, rotates to the same next description |
| SizeRolling.ValidPreserved | src/Serilog.Sinks.RollingFileAlternate/Sinks/SizeRollingFileSink/AlternateRollingFileSink.cs:59-155 | every `Emit` and `Dispose` keeps the invariant: an active sink holds a stream, and a disposed writer only after its limit was reached |
| SizeRolling.OnlyOpeningThrows | src/Serilog.Sinks.RollingFileAlternate/Sinks/SizeRollingFileSink/AlternateRollingFileSink.cs:59-110 | inside a valid sink an event throws only when a rotation was due and the next file failed to open, with that error |
| AlternateRolling.GetLatestFileDescription | src/Serilog.Sinks.RollingFileAlternate/Sinks/SizeRollingFileSink/AlternateRollingFileSink.cs:87-96 | the limit is kept; an empty folder gives the template's parse, otherwise a listed file of the highest sequence |
| AlternateRolling.Construct | src/Serilog.Sinks.RollingFileAlternate/Sinks/SizeRollingFileSink/AlternateRollingFileSink.cs:37-130 | a folder that does not exist throws `DirectoryNotFoundException` from `Directory.GetFiles`; a template without a directory throws `ArgumentException` from the writer's directory check; otherwise construction succeeds exactly when the latest file's open, with retries and the encoding's preamble, succeeds, and the sink then keeps the folder and encoding and holds that writer for the latest description |
| AlternateRolling.MissingFolderThrows | src/Serilog.Sinks.RollingFileAlternate/Sinks/SizeRollingFileSink/AlternateRollingFileSink.cs:48-127 | on a first run into a folder that does not exist, construction throws `DirectoryNotFoundException`, although the same construction with the folder created by the writer would succeed |
| AlternateRolling.ConstructCreatingFolder | src/Serilog.Sinks.RollingFileAlternate/Sinks/SizeRollingFileSink/AlternateRollingFileSink.cs:112-130 | a missing folder is listed as empty and left to the writer to create; with a folder present it is the constructor as written |
| AlternateRolling.Emit | src/Serilog.Sinks.RollingFileAlternate/Sinks/SizeRollingFileSink/AlternateRollingFileSink.cs:59-72 | a null event throws `ArgumentNullException`; a disposed sink throws `ObjectDisposedException`; the folder never changes |
| AlternateRolling.OpenerIsFresh | src/Serilog.Sinks.RollingFileAlternate/Sinks/SizeRollingFileSink/SizeLimitedFileSink.cs:21-30 | the writers this sink opens describe the description they are given and are live |
| AlternateRolling.EmitRotation | src/Serilog.Sinks.RollingFileAlternate/Sinks/SizeRollingFileSink/AlternateRollingFileSink.cs:74-110 | a writer past its limit is replaced by one for `Next()` of its description; the event goes through exactly when no rotation is due or the next open succeeds; the invariant holds either way |
| AlternateRolling.Dispose | src/Serilog.Sinks.RollingFileAlternate/Sinks/SizeRollingFileSink/AlternateRollingFileSink.cs:144-155 | an active sink disposes its writer and ends disposed; a disposed sink is left alone |
| AlternateRolling.DisposeIdempotent | src/Serilog.Sinks.RollingFileAlternate/Sinks/SizeRollingFileSink/AlternateRollingFileSink.cs:144-155 | a second `Dispose` does nothing and every event then throws `ObjectDisposedException` |
| AlternateRolling.ResumesFromAnyName | src/Serilog.Sinks.RollingFileAlternate/Sinks/SizeRollingFileSink/AlternateRollingFileSink.cs:112-130 | any rendered file in the folder is a resume candidate, even one whose name differs from the template's |
| SizeRollingV2.GetLatestFileDescription | src/Serilog.Sinks.RollingFileV2/Sinks/SizeRollingFileSink/SizeRollingFileSink.cs:81-89 | the limit is kept; an empty folder gives the template's parse, otherwise a listed file of the highest sequence |
| SizeRollingV2.Construct | src/Serilog.Sinks.RollingFileV2/Sinks/SizeRollingFileSink/SizeRollingFileSink.cs:37-121 | a folder that does not exist throws `DirectoryNotFoundException` from `Directory.GetFiles`; a template without a directory throws `ArgumentException` from the writer's directory check; otherwise construction succeeds exactly when the latest description's own file opens, and then writes to that path with the encoding's preamble |
| SizeRollingV2.MissingFolderThrows | src/Serilog.Sinks.RollingFileV2/Sinks/SizeRollingFileSink/SizeRollingFileSink.cs:48-118 | on a first run into a folder that does not exist, construction throws `DirectoryNotFoundException`, although the same construction with the folder created by the writer would succeed |
| SizeRollingV2.ConstructCreatingFolder | src/Serilog.Sinks.RollingFileV2/Sinks/SizeRollingFileSink/SizeRollingFileSink.cs:104-121 | a missing folder is listed as empty and left to the writer to create; with a folder present it is the constructor as written |
| SizeRollingV2.Emit | src/Serilog.Sinks.RollingFileV2/Sinks/SizeRollingFileSink/SizeRollingFileSink.cs:59-73 | a null event throws; a disposed sink throws `ObjectDisposedException`; the folder never changes |
| SizeRollingV2.EmitRotation | src/Serilog.Sinks.RollingFileV2/Sinks/SizeRollingFileSink/SizeRollingFileSink.cs:68-102 | a writer past its limit is replaced by one for the next sequence; the event goes through exactly when no rotation is due or the next file opens |
| SizeRollingV2.OpenerIsFresh | src/Serilog.Sinks.RollingFileV2/Sinks/SizeRollingFileSink/SizeLimitedFileSink.cs:22-27 | the writers this sink opens describe the description they are given and are live |
| SizeRollingV2.Dispose | src/Serilog.Sinks.RollingFileV2/Sinks/SizeRollingFileSink/SizeRollingFileSink.cs:135-146 | an active sink disposes its writer and ends disposed; a disposed sink is left alone |
| SizeRollingV2.DisposeIdempotent | src/Serilog.Sinks.RollingFileV2/Sinks/SizeRollingFileSink/SizeRollingFileSink.cs:135-146 | a second `Dispose` does nothing and every event then throws `ObjectDisposedException` |
| SizeRollingV2.TemplateParses | test/Serilog.Sinks.RollingFileV2.Tests/SizeRollingFileSinkTests.cs:17-25 | the template `applog.txt` parses as ("applog", 0, "txt") and its directory is the folder |
| SizeRollingV2.EmptyFolderStartsAtZero | test/Serilog.Sinks.RollingFileV2.Tests/SizeRollingFileSinkTests.cs:17-25 | an empty folder gives sequence 0 |
| SizeRollingV2.LatestOfOneAndTwo | test/Serilog.Sinks.RollingFileV2.Tests/SizeRollingFileSinkTests.cs:27-38 | with files of sequences 1 and 2 in the folder, the latest sequence is 2 |
| SizeRollingV2.TenByteLimitRollsOnSecondEvent | test/Serilog.Sinks.RollingFileV2.Tests/SizeRollingFileSinkTests.cs:41-53 | with a 10-byte limit, the default encoding and new files in an existing, empty template directory, the first event stays at the template's sequence and the second moves to the next; a template without a directory throws at construction |
| SizeRollingV2.TestSuiteRollsAtTenBytes | test/Serilog.Sinks.RollingFileV2.Tests/SizeRollingFileSinkTests.cs:41-53 | template `applog.txt` with a 10-byte limit: sequence 0, then 1 |
| PortableAlternateRolling.Construct | src/Serilog.Sinks.RollingFileAlternate.Portable/Sinks/SizeRollingFileSink/AlternateRollingFileSink.cs:35-97 | the empty directory throws `ArgumentException`; otherwise the directory exists afterwards, the sink opens `GetLatestOrNew` at the construction time with the limit, and exists exactly when that open succeeds |
| PortableAlternateRolling.ResumesFromLatest | src/Serilog.Sinks.RollingFileAlternate.Portable/Sinks/SizeRollingFileSink/AlternateRollingFileSink.cs:85-97 | the first description is dated at construction, has sequence at least 1 and at least that of every matching file |
| PortableAlternateRolling.Emit | src/Serilog.Sinks.RollingFileAlternate.Portable/Sinks/SizeRollingFileSink/AlternateRollingFileSink.cs:58-83 | a null event throws; a disposed sink throws `ObjectDisposedException`; the directory never changes |
| PortableAlternateRolling.EmitRotation | src/Serilog.Sinks.RollingFileAlternate.Portable/Sinks/SizeRollingFileSink/AlternateRollingFileSink.cs:73-105 | rotation happens exactly when the limit was reached; the next description is dated at the event, with sequence + 1 on the same day and 1 on a new day |
| PortableAlternateRolling.Dispose | src/Serilog.Sinks.RollingFileAlternate.Portable/Sinks/SizeRollingFileSink/AlternateRollingFileSink.cs:119-130 | an active sink disposes its writer and ends disposed; a disposed sink is left alone |
| PortableAlternateRolling.DisposeIdempotent | src/Serilog.Sinks.RollingFileAlternate.Portable/Sinks/SizeRollingFileSink/AlternateRollingFileSink.cs:119-130 | a second `Dispose` does nothing and every event then throws `ObjectDisposedException` |
| PortableAlternateRolling.TenByteLimitRollsOnSecondEvent | test/Serilog.Sinks.RollingFileAlternate.Tests/SizeRollingFileSinkTests.cs:43-56 | with a 10-byte limit in an empty, named directory the sequence is 1 after the first event and 2 after the second; an empty directory path throws at construction |
| HourlyRolling.ApplyRetentionPolicy | src/Serilog.Sinks.RollingFileAlternate/Sinks/HourlyRolling/HourlyRollingFileSink.cs:113-139 | nothing without a limit; every deleted or logged path is the log directory combined with a listed file that does not bear the current name |
| HourlyRolling.Construct | src/Serilog.Sinks.RollingFileAlternate/Sinks/HourlyRolling/HourlyRollingFileSink.cs:82-111 | the empty log directory throws `ArgumentException` and creates nothing; otherwise the log directory and the dated folder exist afterwards, and the sink exists exactly when the writer for the hour's latest description opens, and is then live on that description |
| HourlyRolling.StartsOnLatestOfHour | src/Serilog.Sinks.RollingFileAlternate/Sinks/HourlyRolling/HourlyRollingFileSink.cs:86-91 | the first description is made from the scan at construction time, with sequence at least 1 and at least every matching file's |
| HourlyRolling.NextFileSink | src/Serilog.Sinks.RollingFileAlternate/Sinks/HourlyRolling/HourlyRollingFileSink.cs:95-103 | retention runs against the file still open, then the old writer is disposed and `Next()` opened; a failed open leaves the disposed writer and the deletions made |
| HourlyRolling.Emit | src/Serilog.Sinks.RollingFileAlternate/Sinks/HourlyRolling/HourlyRollingFileSink.cs:55-80 | a null event throws and a disposed sink throws `ObjectDisposedException`, touching nothing; directory, limit and `Next` never change |
| HourlyRolling.Dispose | src/Serilog.Sinks.RollingFileAlternate/Sinks/HourlyRolling/HourlyRollingFileSink.cs:145-156 | the sink ends disposed, keeping its directory and limit |
| HourlyRolling.DisposeIdempotent | src/Serilog.Sinks.RollingFileAlternate/Sinks/HourlyRolling/HourlyRollingFileSink.cs:145-156 | a second `Dispose` does nothing and every event then throws, without deleting or creating anything |
| HourlyRolling.SameHourKeepsWriter | src/Serilog.Sinks.RollingFileAlternate/Sinks/HourlyRolling/HourlyRollingFileSink.cs:70-78 | within the current hour the event goes to the same writer; nothing is created or deleted |
| HourlyRolling.OtherHourRotates | src/Serilog.Sinks.RollingFileAlternate/Sinks/HourlyRolling/HourlyRollingFileSink.cs:70-103 | outside the current hour, retention runs against the open file and the event goes to a writer for `Next()` exactly when it opens |
| HourlyRolling.RetentionSparesOpenFile | src/Serilog.Sinks.RollingFileAlternate/Sinks/HourlyRolling/HourlyRollingFileSink.cs:99-139 | a rotation never deletes the open file and leaves at most `max(limit, 1)` listed files; a limit of `int.MinValue` wraps and deletes nothing |
| HourlyRolling.LateEventAfterFailedRotation | src/Serilog.Sinks.RollingFileAlternate/Sinks/HourlyRolling/HourlyRollingFileSink.cs:70-100 | after a rotation whose open failed, an event of the old hour reaches the disposed writer and throws |
| PortableHourlyRolling.Construct | src/Serilog.Sinks.RollingFileAlternate.Portable/Sinks/HourlyRolling/HourlyRollingFileSink.cs:32-86 | the sink exists exactly when a writer for the construction hour opens, and then holds it |
| PortableHourlyRolling.NextFileSink | src/Serilog.Sinks.RollingFileAlternate.Portable/Sinks/HourlyRolling/HourlyRollingFileSink.cs:88-94 | the old writer is disposed, then a writer is opened for the event's own hour; a failed open leaves the disposed writer |
| PortableHourlyRolling.Emit | src/Serilog.Sinks.RollingFileAlternate.Portable/Sinks/HourlyRolling/HourlyRollingFileSink.cs:51-76 | a null event throws; a disposed sink throws `ObjectDisposedException`; an active sink stays active |
| PortableHourlyRolling.EmitLandsInEventHour | src/Serilog.Sinks.RollingFileAlternate.Portable/Sinks/HourlyRolling/HourlyRollingFileSink.cs:66-93 | an event goes through exactly when it is of the current hour or its hour's file opens, and the sink then writes to a file of the event's hour |
| PortableHourlyRolling.OneHourOneFile | src/Serilog.Sinks.RollingFileAlternate.Portable/Sinks/HourlyRolling/HourlyRollingFileSink.cs:66-69 | once an event went through, a second event of the same hour goes to the same writer and file |
| PortableHourlyRolling.LateEventAfterFailedRotation | src/Serilog.Sinks.RollingFileAlternate.Portable/Sinks/HourlyRolling/HourlyRollingFileSink.cs:66-91 | after a rotation whose open failed, an event of the old hour reaches the disposed writer and throws |
| PortableHourlyRolling.Dispose | src/Serilog.Sinks.RollingFileAlternate.Portable/Sinks/HourlyRolling/HourlyRollingFileSink.cs:100-111 | the sink ends disposed, keeping its directory |
| PortableHourlyRolling.DisposeIdempotent | src/Serilog.Sinks.RollingFileAlternate.Portable/Sinks/HourlyRolling/HourlyRollingFileSink.cs:100-111 | a second `Dispose` does nothing and every event then throws `ObjectDisposedException` |
| Clock.Yyyymmdd | src/Serilog.Sinks.RollingFileAlternate/Sinks/SizeRollingFileSink/SizeLimitedLogFileInfo.cs:20 | `ToString("yyyyMMdd")`: eight digits whose parts are the year, month and day |
| Clock.Hh | src/Serilog.Sinks.RollingFileAlternate/Sinks/HourlyRolling/HourlyLogFileDescription.cs:14 | `ToString("HH")`: two digits whose value is the hour |
| Clock.YyyyDashMmDashDd | src/Serilog.Sinks.RollingFileAlternate/Sinks/HourlyRolling/HourlyFileSink.cs:30 | `ToString("yyyy-MM-dd")`: year, month and day as digits, separated by dashes |
| Clock.DateOf | src/Serilog.Sinks.RollingFileAlternate/Sinks/HourlyRolling/HourlyLogFileDescription.cs:16 | `DateTime.Date`: the same calendar date at midnight |
| Decimal.ZeroPad | src/Serilog.Sinks.RollingFileAlternate/Sinks/SizeRollingFileSink/SizeLimitedLogFileInfo.cs:20 | the `00000` number format: digits whose value is the number, at least the width long |
| Decimal.ZeroPadInjective | src/Serilog.Sinks.RollingFileAlternate/Sinks/SizeRollingFileSink/SizeLimitedLogFileInfo.cs:20 | different sequences never render the same padded digits |
| FileNames.SplitStem | test/Serilog.Sinks.RollingFileAlternate.Tests/TemplateParserTests.cs:52-66 | five trailing digits are the sequence and the rest the name; without them the stem is the name and the sequence 0 |
| FileNames.ParseIgnoresDirectory | test/Serilog.Sinks.RollingFileAlternate.Tests/TemplateParserTests.cs:12-26 | a path parses like its file name, whatever directory precedes it |
| FileNames.ParseSplitsExtension | test/Serilog.Sinks.RollingFileAlternate.Tests/TemplateParserTests.cs:32-46 | the text after the last dot is the extension and the stem before it is split for the sequence |
| FileNames.SplitStemInvertsPad | test/Serilog.Sinks.RollingFileV2.Tests/FileNameComponentsTests.cs:12-20 | splitting a name followed by a padded sequence gives back both |
| Patterns.Compile | src/Serilog.Sinks.RollingFileAlternate/Sinks/SizeRollingFileSink/SizeLimitedLogFileInfo.cs:36 | the date text spliced into the regex: every `.` matches any character, every other character itself |
| LatestFiles.FirstLatest | src/Serilog.Sinks.RollingFileAlternate/Sinks/SizeRollingFileSink/AlternateRollingFileSink.cs:94 | `OrderByDescending(...).First`: a position of highest sequence with no earlier position as high |
| LatestFiles.ParseAll | src/Serilog.Sinks.RollingFileAlternate/Sinks/SizeRollingFileSink/AlternateRollingFileSink.cs:126-129 | every listed path is parsed, in order; none is dropped |
| Retention.Skip | src/Serilog.Sinks.RollingFileAlternate/Sinks/FileRetentionPolicy.cs:29 | LINQ `Skip(n)`: the last `|s| - n` elements, all of them when `n <= 0` and none when `n >= |s|` |
| Retention.NewestFirstMembers | src/Serilog.Sinks.RollingFileAlternate/Sinks/FileRetentionPolicy.cs:24 | sorting keeps exactly the listed entries |
| Retention.ObsoleteMembers | src/Serilog.Sinks.RollingFileAlternate/Sinks/FileRetentionPolicy.cs:27-30 | only non-current entries of the input are selected |
| Retention.WrappedLimitKeepsAll | src/Serilog.Sinks.RollingFileAlternate/Sinks/FileRetentionPolicy.cs:27-30 | a limit of `int.MinValue` selects nothing from fewer than 2^31 other files, and every other limit up to 1 selects every file but the current one |
| OpenRetry.OpenWithRetry | src/Serilog.Sinks.RollingFileAlternate/Sinks/SizeRollingFileSink/SizeLimitedFileSink.cs:42-65 | a writer it opens carries either no preamble or the requested one; without a denial to spare, the result is the settlement of the first attempt within the bound that meets no contention, or the bound runs out while every attempt meets contention |
| OpenRetry.ContentionEndsOrExhausts | src/Serilog.Sinks.RollingFileAlternate/Sinks/SizeRollingFileSink/SizeLimitedFileSink.cs:55-64 | either every attempt up to the bound meets contention, or a first attempt does not |
| Text.Combine | src/Serilog.Sinks.RollingFileAlternate/Sinks/SizeRollingFileSink/SizeLimitedFileSink.cs:50 | `Path.Combine`: the folder, then the name; the name alone when the folder is empty |
| Text.CombineInjective | src/Serilog.Sinks.RollingFileAlternate/Sinks/SizeRollingFileSink/SizeLimitedFileSink.cs:50 | in one folder, two names combine to the same path exactly when they are equal |
| Text.LastIndexOf | src/Serilog.Sinks.RollingFileAlternate/Sinks/FileRetentionPolicy.cs:18 | `LastIndexOf`: -1 or the position of the last occurrence |
| Retention.CaseVariantsSpared | src/Serilog.Sinks.RollingFileAlternate/Sinks/FileRetentionPolicy.cs:28 | a listed file whose name equals the current file name ignoring case is never selected for deletion, by either policy |
| Text.DirectoryName | src/Serilog.Sinks.RollingFileAlternate/Sinks/SizeRollingFileSink/AlternateRollingFileSink.cs:114 | `Path.GetDirectoryName`: empty without a separator; the text before the last separator, unless that separator ends the path's root (`/` or `C:\`), which is then kept |

## Left out

- I/O is modelled as values:
  - Streams, `Flush`, locking and `SelfLog` output are not modelled.
  - The text formatter is reduced to the number of bytes an event adds (`LogEvent.bytes`).
  - An `Encoding` argument is reduced to the length of its preamble, `None` for `null`
    (`FileSystemModel.PreambleOf`): `null` means UTF-8 with its 3-byte preamble. How an encoding
    turns characters into bytes is part of `LogEvent.bytes`. The portable sinks take the writer
    constructor as a parameter, which carries the encoding with it.
- The clock and the process are parameters. Each `DateTime.UtcNow`, `Directory.GetFiles` and
  `Process.GetCurrentProcess` becomes a parameter. The size-rolling sinks take the listing as an
  `Option`, with `None` for a folder that does not exist. Where the source reads the clock twice in one
  step, as in `GetLatestSink` (src/Serilog.Sinks.RollingFileAlternate/Sinks/HourlyRolling/HourlyRollingFileSink.cs:86,91),
  the model reads one time.
- Directory listings:
  - `Path.GetFullPath` and `Environment.CurrentDirectory` are not modelled. The listing of the
    template's folder is given as a parameter.
  - The `ASPNETCORE50` branch of `GetExistingFiles` is not modelled. It assigns an undeclared
    variable, `directory`.
- Regular expressions:
  - Of the regex syntax, the model handles only `.` (any character) and the `(\d{5})` group.
    Other metacharacters in a spliced-in date, process name or file name are treated as literals.
  - `Capture` and `PolicyMatches` cover only these fixed-shape patterns. They are not a general
    regex engine.
- Patterns.Capture: `\d` is an ASCII digit here. The source builds its regexes without
  `RegexOptions.ECMAScript`, so .NET's `\d` also matches every other Unicode decimal digit, and
  `uint.Parse` then throws `FormatException` out of `GetLatestOrNew` and the sink's constructor.
  The model skips such a path instead (for example `20150115-١٢٣٤٥.log`, with Arabic-Indic
  digits). `PolicyMatches` is not affected: its classes `[0-9a-fA-F]` and `[0-9]` are ASCII in
  .NET as well.
- Text.EqualsIgnoreCase: folds ASCII letters only. `StringComparer.OrdinalIgnoreCase` also folds
  letters outside ASCII, so two non-ASCII names that differ only in case count as different here.
- The scan lemmas (`FileNameIsFound`, `OtherDatesIgnored`, `OtherHoursIgnored`,
  `ResumesPastWrittenFile`, `LatestOfOneTwoThree`) require that the folder's path not contain the
  start of the pattern (`yyyyMMdd-` or `HH-` with five digits, or `yyyyMMdd-` for process
  names). `Regex.Match` runs on whole paths, and `DailyLogFiles.FolderCanShadowNames` shows that a
  folder holding such text can decide the scan's result.
- Calendar arithmetic is not modelled. A `DateTime` is a record of fields, and month lengths are
  not checked.
- `FileNameComponents` and `FileNameParser` are not part of this model; only their tests
  are. `FileNames` defines them from those tests:
  - the name, then the five-digit sequence, then `.` and the extension when there is one;
  - a parse splits at the last dot and takes five trailing digits as the sequence.
- `HourlyLogFileDescription` (src/Serilog.Sinks.RollingFileAlternate/Sinks/HourlyRolling/HourlyLogFileDescription.cs:9-21)
  declares only a constructor from a `DateTime`, `FileName`, `Date` and `SameHour`. The hourly
  sink calls a constructor from a `HourlyLogFileInfo` and a `DateTime` and a `Next()` method
  (src/Serilog.Sinks.RollingFileAlternate/Sinks/HourlyRolling/HourlyRollingFileSink.cs:91,97),
  which the class does not declare, so that file does not compile as written. `HourlyRolling`
  takes the two missing members as the parameters `describe` and `next`, with no constraint.
- HourlyRolling.OtherHourRotates therefore says only that the new writer describes
  `next(current)`. It says nothing about which hour the new file covers, or whether its name
  differs from the old one.
- Portable package:
  - The portable package's descriptions and writers are not part of this model.
    `PortableAlternateRolling` pairs a `LogFileInfo` with the limit and rotates with
    `LogFileInfo.Next`.
  - Both portable sinks take the writer constructor as a parameter.
  - The three-argument `LogFileInfo.GetLatestOrNew` that the portable sink calls is modelled as
    the two-argument one over the listing.
- OpenRetry.OpenWithRetry: the source recurses with no bound while files are held. The model
  stops after `fuel` retries with `RetryFuelExhausted`. A search that would run longer than the
  bound is not modelled.
- SizeWriters.Open models the `ArgumentException` that the `EnsureDirectoryCreated` call at the
  start of each open attempt (src/Serilog.Sinks.RollingFileAlternate/Sinks/SizeRollingFileSink/SizeLimitedFileSink.cs:47)
  throws for an empty folder. It does not track the directory that the call creates: the
  directory set is not threaded through the size-rolling writers.
- A template without a directory: `GetExistingFiles` lists the current directory instead
  (src/Serilog.Sinks.RollingFileAlternate/Sinks/SizeRollingFileSink/AlternateRollingFileSink.cs:114-121,
  src/Serilog.Sinks.RollingFileV2/Sinks/SizeRollingFileSink/SizeRollingFileSink.cs:106-113), but
  the sink's folder stays empty, and the writer's `Directory.CreateDirectory("")` throws. The
  model follows this: such a sink never constructs.
- Text.DirectoryName models `Path.GetDirectoryName` for plain paths with `/` or `\`
  separators and an optional drive root `C:\`. It does not model the null result for a bare root
  such as `/`, UNC paths, drive-relative paths such as `C:name`, repeated separators, or the
  exception for a path of white space only.
- FileSystemModel.EnsureDirectoryCreated throws only for the empty path. For the portable sink it
  assumes an `IFileSystem` that behaves like `FileSystem`, whose `CreateDirectory` calls `Directory.CreateDirectory`
  (src/Serilog.Sinks.RollingFileAlternate/FileSystem.cs:28-31).
- SizeWriters.OpenFileForWriting uses the description's `FullName`. The source reads a
  `FileName` property (src/Serilog.Sinks.RollingFileAlternate/Sinks/SizeRollingFileSink/SizeLimitedFileSink.cs:50),
  but `SizeLimitedLogFileDescription` declares only `FullName`.
- Dead null checks are not modelled:
  - The `currentSink != null` checks of the rolling sinks never fire, because a failed open throws
    before the field is assigned.
  - The same holds for the null-output branch of `HourlyFileSink.Emit`. Its output is never null.
- Retention.Apply:
  - `FileRetentionPolicy` does not compile as written: its constructor is missing a comma between
    its parameters.
  - Its `Apply` is private, and nothing in the source calls it.
  - It is modelled as written otherwise. The pattern matches `/` only as the folder separator.
- HourlyRolling.ApplyRetentionPolicy lists the log root directory. The hourly writers put their
  files in dated sub-folders of that root. The model follows the code: it deletes what the listing
  of the root holds.
- HourlyRolling.Dispose and PortableHourlyRolling.Dispose state the sink's state only. The
  writer's own dispose does nothing observable in the model: no flush or close is modelled.
- AlternateRolling.GetLatestFileDescription considers every listed file as a resume candidate,
  not only files of the template's name, because `GetExistingFiles` parses every path in the
  folder. `AlternateRolling.ResumesFromAnyName` states this.
- The tests in `FileRetentionLimitReachedTests` call a constructor with a retained-file count and
  a file prefix. That constructor is not part of this model, so those tests are not modelled.
- ProcessLogFiles.RendersTestName: `LogFileInfoTests` expects `20150115-00077.log`. The
  constructor writes the pid and the process name into every name, so the test's name is the
  corrected pid-0 name (see Findings). With a running process, the name carries both.

## Findings

| source | as written | input that shows it | evidently intended | confidence | as-written member | corrected member |
|---|---|---|---|---|---|---|
| src/Serilog.Sinks.RollingFileAlternate/Sinks/SizeRollingFileSink/LogFileInfo.cs:27-63 | without a process (pid 0, empty name) the file is named `yyyyMMdd-0--NNNNN.log`, but the scan for pid 0 looks for `yyyyMMdd-(\d{5}).log`, which never matches such a name | any date, no process, any sequence below 100000: `20150115-0--00077.log` is not matched by `20150115-(\d{5}).log` | a pid-0 file is named `yyyyMMdd-NNNNN.log`, the shape its scan and `LogFileInfoTests` expect, so a restart resumes from it | not executed | ProcessLogFiles.ZeroPidNameNotFound | ProcessLogFiles.FileNameIsFound |
| src/Serilog.Sinks.RollingFileAlternate/Sinks/SizeRollingFileSink/AlternateRollingFileSink.cs:48-127 | the constructor lists the template's folder with `Directory.GetFiles` before the writer's `EnsureDirectoryCreated` (src/Serilog.Sinks.RollingFileAlternate/Sinks/SizeRollingFileSink/SizeLimitedFileSink.cs:47) gets to create it, so a first run into a folder that does not exist throws `DirectoryNotFoundException` | template `/var/log/app/applog.txt` while `/var/log/app` does not exist, and any opener that opens the new file | a missing folder is treated as empty, and the writer creates it and starts the template's first file | not executed | AlternateRolling.MissingFolderThrows | AlternateRolling.ConstructCreatingFolder |
| src/Serilog.Sinks.RollingFileV2/Sinks/SizeRollingFileSink/SizeRollingFileSink.cs:48-118 | the same order: `GetExistingFiles` calls `Directory.GetFiles` before the writer's `EnsureDirectoryCreated` (src/Serilog.Sinks.RollingFileV2/Sinks/SizeRollingFileSink/SizeLimitedFileSink.cs:38) runs, so a first run into a missing folder throws `DirectoryNotFoundException` | template `/var/log/app/applog.txt` while `/var/log/app` does not exist, and any opener that opens the new file | a missing folder is treated as empty, and the writer creates it and starts the template's first file | not executed | SizeRollingV2.MissingFolderThrows | SizeRollingV2.ConstructCreatingFolder |
