# TelemetryCollector in Dafny

A Dafny model of the hardware telemetry agent. The agent has three collectors: Linux, macOS and Windows. Each builds one `TelemetryData` record. It does so by running a fixed list of shell commands one after another and placing their output in the record's BIOS, CPU, disk, GPU, memory, motherboard and system sections. A factory chooses the collector from the platform name that the runtime reports. A small credential service keeps a table of user name and password rows, seeds it with a default row, and upserts into it.

The operating system is modelled as an oracle, `Model.Oracle`. It maps a program file name and an argument string to an outcome: either the process could not be started, or it exited with an exit code, a standard output text and a standard error text. The commands are opaque strings. Nothing about what `dmidecode`, `sysctl` or `wmic` print is assumed, except in lemmas that take a particular output as a hypothesis.

Modules, one per file:

- `Wrappers`: the `Option` and `Result` types.
- `Text`: the .NET string operations the collectors rely on.
  - `String.Trim` over the full `Char.IsWhiteSpace` set.
  - Ordinal `StartsWith`.
  - `String.Replace`.
  - The line splitting done by a redirected stream reader.
- `Numbers`: `int.Parse` with its default number style.
  - Leading and trailing white space, an optional sign and decimal digits are accepted.
  - A value outside the 32-bit range raises `OverflowException`.
  - Anything else raises `FormatException`.
  - `Int32.ToString` is also modelled, to state the round trip.
- `Model`: the record types, the process oracle, the errors a collection can end with, the bash argument format, and how the macOS and Windows runners read a finished process.
- `Collection`: a plan is the list of a collector's fields, in the order the source awaits them. Each field is a command, plus whether its output goes through `int.Parse`. `Execute` runs a plan, stops at the first failure, and records which commands were issued.
- `LinuxShell`: the Linux runner.
  - It rewrites privileged commands so that `sudo -S` reads the password from an `echo` pipe.
  - It runs the result with `/bin/bash -c "…"`.
  - It keeps the non-empty output lines, each ended by a line feed, and trims the result.
  - A nonzero exit code or a failed start becomes one wrapped exception message.
- `LinuxCollector`, `MacOSCollector`, `WindowsCollector`: each collector's commands, plan, record assembly and runner. The commands are an enumeration, and `Script` gives each one's shell text exactly as the collector writes it. Each collector also has a `Reports` predicate, which says field by field what a correct record is. A collection takes the integer parser as a parameter `parse`. `Factory.Collect` passes `Numbers.ParseInt32`, the model of `int.Parse`, so the collection lemmas hold for that parser and for any other.
- `Factory`: platform dispatch, and the collection that the chosen collector performs.
- `Credentials`: the seed, save and read operations on the credential table.

The Linux password and the default credential are parameters, so the model holds no secret.

## Model

| member | source | states |
|---|---|---|
| Text.Trim | src/TelemetryCollector.Linux/Collectors/LinuxTelemetryCollector.cs:222 | `Trim` removes a white-space prefix and a white-space suffix and nothing else. The result neither starts nor ends with white space. It is empty exactly when the input is all white space. |
| Text.StripPadded | src/TelemetryCollector.Linux/Collectors/LinuxTelemetryCollector.cs:222 | Stripping any padding from both sides of a text that does not itself start or end with padding gives the text back. |
| Text.StripKeeps | src/TelemetryCollector.Linux/Collectors/LinuxTelemetryCollector.cs:222 | A character that is not padding survives stripping, at its index less the number of characters removed in front. |
| Text.SplitLines | src/TelemetryCollector.Linux/Collectors/LinuxTelemetryCollector.cs:197-207 | A stream's text is cut at every CR and LF. No piece contains a line break, there is one more piece than there are breaks, and putting the breaks back between the pieces gives the text again. |
| Text.SplitLinesUnique | src/TelemetryCollector.Linux/Collectors/LinuxTelemetryCollector.cs:197-207 | Any break-free pieces that rejoin to the text with its breaks are exactly the split, so the split is determined. |
| Text.ReplaceAllWithoutPattern | src/TelemetryCollector.Linux/Collectors/LinuxTelemetryCollector.cs:177 | `String.Replace` returns a text in which the pattern does not occur unchanged. |
| Text.SplitJoin | src/TelemetryCollector.Linux/Collectors/LinuxTelemetryCollector.cs:197-207 | Splitting undoes joining lines with line feeds, for lines without breaks. |
| Numbers.ParseInt32 | src/TelemetryCollector.Linux/Collectors/LinuxTelemetryCollector.cs:47-48 | `int.Parse` either fails or gives a value in the 32-bit signed range. Blank text fails with a format error. |
| Numbers.ParseFormat | src/TelemetryCollector.Linux/Collectors/LinuxTelemetryCollector.cs:47-48 | Parsing the decimal text of every 32-bit value gives that value back. |
| Numbers.ParseIgnoresPadding | src/TelemetryCollector.MacOS/Collectors/MacOSTelemetryCollector.cs:42-43 | A number surrounded by white space, such as the line feed a command prints, still parses to itself. |
| Numbers.ParseLine | src/TelemetryCollector.MacOS/Collectors/MacOSTelemetryCollector.cs:42-43 | A 32-bit number printed on a line of its own parses back to that number. |
| Numbers.ParseRejectsForeignCharacter | src/TelemetryCollector.Windows/Collectors/WindowsTelemetryCollector.cs:42-43 | Text with any character other than white space, a sign or a digit fails with a format error. Trailing NUL characters, which .NET also tolerates, are not modelled. |
| Model.BashArguments | src/TelemetryCollector.Linux/Collectors/LinuxTelemetryCollector.cs:185 | The bash argument is `-c "`, then the command unchanged, then a closing `"`. |
| Model.ReadToEnd | src/TelemetryCollector.MacOS/Collectors/MacOSTelemetryCollector.cs:113-117 | A finished process yields exactly its standard output, whatever its exit code. Only a failure to start is an error. |
| Model.ReadToEndIgnoresStatus | src/TelemetryCollector.MacOS/Collectors/MacOSTelemetryCollector.cs:113-117 | Two finished processes with the same standard output read the same, whatever their exit codes and error streams. |
| Collection.Commands | src/TelemetryCollector.Linux/Collectors/LinuxTelemetryCollector.cs:15-29 | The commands of a plan are its fields' commands, one per field, in plan order. |
| Collection.Execute | src/TelemetryCollector.Linux/Collectors/LinuxTelemetryCollector.cs:15-29 | The issued commands are always a prefix of the plan's commands, in plan order. |
| Collection.ExecuteOutcome | src/TelemetryCollector.Linux/Collectors/LinuxTelemetryCollector.cs:15-29 | A complete run issued every command and has each field's value. A failed run ended at the last command it issued, with that field's error, after all earlier fields succeeded. The run succeeds exactly when every field does. |
| Collection.FirstFailureEndsRun | src/TelemetryCollector.Linux/Collectors/LinuxTelemetryCollector.cs:15-29 | The first failing field's error is the outcome. Only the commands up to and including it are issued. |
| Collection.Step | src/TelemetryCollector.Linux/Collectors/LinuxTelemetryCollector.cs:43-51 | A runner failure is passed on unchanged. A text field holds its command's output as it is. An integer field holds the number `int.Parse` reads from the output, and succeeds exactly when the parse does. A format failure becomes `FormatError` and an out-of-range value becomes `OverflowError`, each carrying the output. |
| Collection.ExecuteConforms | src/TelemetryCollector.Linux/Collectors/LinuxTelemetryCollector.cs:15-29 | A complete run has one value per field, an integer exactly where the plan asks for `int.Parse`. |
| LinuxShell.Rewrite | src/TelemetryCollector.Linux/Collectors/LinuxTelemetryCollector.cs:173-180 | A command not starting with `sudo ` is run unchanged. One that does starts, after the rewrite, with the password pipe followed by `sudo -S `. |
| LinuxShell.RewriteIsReversible | src/TelemetryCollector.Linux/Collectors/LinuxTelemetryCollector.cs:177 | Replacing `sudo -S ` back by `sudo ` restores the original command, so the rewrite only inserts `-S`. |
| LinuxShell.RewriteReachesEverySudo | src/TelemetryCollector.Linux/Collectors/LinuxTelemetryCollector.cs:177 | After the rewrite every occurrence of `sudo `, not only the first, is followed by `-S `. |
| LinuxShell.NoSpuriousSudo | src/TelemetryCollector.Linux/Collectors/LinuxTelemetryCollector.cs:177 | The rewrite cannot make a text start with `sudo ` when it did not before. |
| LinuxShell.PrivilegedScriptReadsStdin | src/TelemetryCollector.Linux/Collectors/LinuxTelemetryCollector.cs:173-180 | A privileged script is the password pipe followed by a text that undoes to the command and in which every `sudo ` reads standard input. |
| LinuxShell.PasswordInArguments | src/TelemetryCollector.Linux/Collectors/LinuxTelemetryCollector.cs:179-185 | For a privileged command, the quoted password appears in the bash argument string at a fixed position. |
| LinuxShell.ExecuteCommand | src/TelemetryCollector.Linux/Collectors/LinuxTelemetryCollector.cs:171-228 | The runner succeeds exactly when the process exits with code 0. Every failure is a `CommandFailed` whose message begins with `Failed to execute command: ` and the rewritten script. A successful value has no white space at either end. |
| LinuxShell.CaptureRoundTrip | src/TelemetryCollector.Linux/Collectors/LinuxTelemetryCollector.cs:197-207 | The captured buffer holds exactly the non-empty lines, in order, each ended by a line feed. |
| LinuxShell.CaptureShape | src/TelemetryCollector.Linux/Collectors/LinuxTelemetryCollector.cs:197-207 | The buffer stays empty exactly when every line received was empty. Otherwise it ends with a line feed. |
| LinuxShell.CapturedStreamLines | src/TelemetryCollector.Linux/Collectors/LinuxTelemetryCollector.cs:197-207 | Capturing a stream's text keeps its non-empty lines and nothing else. |
| LinuxShell.EmptyLinesCaptureNothing | src/TelemetryCollector.Linux/Collectors/LinuxTelemetryCollector.cs:197-222 | Output made only of empty lines is returned as the empty text. |
| LinuxShell.ExitFailureMessage | src/TelemetryCollector.Linux/Collectors/LinuxTelemetryCollector.cs:217-226 | A nonzero exit code gives the message `Failed to execute command: <script>. Error: Command failed with error: <captured standard error>`. |
| LinuxShell.FailureRevealsPassword | src/TelemetryCollector.Linux/Collectors/LinuxTelemetryCollector.cs:226 | For a privileged command, the failure message contains the quoted password. |
| LinuxShell.ExitSuccessResult | src/TelemetryCollector.Linux/Collectors/LinuxTelemetryCollector.cs:215-222 | Exit code 0 gives the trimmed capture of standard output. |
| LinuxShell.NprocExample | src/TelemetryCollector.Linux/Collectors/LinuxTelemetryCollector.cs:47 | `nproc` printing `8` and a line feed yields `8`. It runs with no password pipe, because the command is not privileged. |
| LinuxShell.PermissionDeniedExample | src/TelemetryCollector.Linux/Collectors/LinuxTelemetryCollector.cs:217-226 | Exit code 1 with a one-line error stream yields the wrapped message carrying that line. |
| LinuxCollector.Collect | src/TelemetryCollector.Linux/Collectors/LinuxTelemetryCollector.cs:15-29 | A successful collection is a record that the commands report. It succeeds exactly when every step succeeds. Otherwise it fails with the error of a step that all earlier steps passed. |
| LinuxCollector.CollectReportsCommands | src/TelemetryCollector.Linux/Collectors/LinuxTelemetryCollector.cs:15-102 | The collection yields `d` exactly when `d` is what the commands report. Each text field is its command's output and each count is `int.Parse` of its command's output. The type is `Linux` and the memory array has one element. |
| LinuxCollector.ReportsRecord | src/TelemetryCollector.Linux/Collectors/LinuxTelemetryCollector.cs:17-101 | The record assembled from the field values of a complete run is one the commands report, with every value in its place in the initialisers. |
| LinuxCollector.ReportsIsFunctional | src/TelemetryCollector.Linux/Collectors/LinuxTelemetryCollector.cs:15-102 | At most one record is what a given runner reports. |
| LinuxCollector.FailureStopsCollection | src/TelemetryCollector.Linux/Collectors/LinuxTelemetryCollector.cs:15-29 | The first failing step is the collection's error, and no later command is issued. |
| LinuxCollector.ServiceTagIsBiosSerial | src/TelemetryCollector.Linux/Collectors/LinuxTelemetryCollector.cs:37-99 | The service tag equals the BIOS serial number, because both come from the same command. |
| LinuxCollector.UnparsableThreadCountAborts | src/TelemetryCollector.Linux/Collectors/LinuxTelemetryCollector.cs:41-51 | Suppose `nproc` output is rejected by the parser. Then the collection fails with that parse error after six commands, before any disk command. |
| MacOSCollector.ExecuteCommand | src/TelemetryCollector.MacOS/Collectors/MacOSTelemetryCollector.cs:102-118 | The runner fails only when the process cannot start. Otherwise it returns standard output verbatim. |
| MacOSCollector.FailedCommandYieldsOutput | src/TelemetryCollector.MacOS/Collectors/MacOSTelemetryCollector.cs:113-117 | A command with a nonzero exit code still yields its standard output. |
| MacOSCollector.ExitStatusIgnored | src/TelemetryCollector.MacOS/Collectors/MacOSTelemetryCollector.cs:113-117 | The result depends only on standard output. |
| MacOSCollector.Collect | src/TelemetryCollector.MacOS/Collectors/MacOSTelemetryCollector.cs:10-24 | A successful collection is a record that the commands report. It succeeds exactly when every step succeeds. Otherwise it fails with the error of a step that all earlier steps passed. |
| MacOSCollector.CollectReportsCommands | src/TelemetryCollector.MacOS/Collectors/MacOSTelemetryCollector.cs:10-100 | The collection yields `d` exactly when `d` is what the commands report. The type is `MacOS`, the manufacturer is `Apple`, and the memory array has one element. |
| MacOSCollector.ReportsRecord | src/TelemetryCollector.MacOS/Collectors/MacOSTelemetryCollector.cs:12-99 | The record assembled from the field values of a complete run is one the commands report, with every value in its place in the initialisers. |
| MacOSCollector.ReportsIsFunctional | src/TelemetryCollector.MacOS/Collectors/MacOSTelemetryCollector.cs:10-100 | At most one record is what a given runner reports. |
| MacOSCollector.FailureStopsCollection | src/TelemetryCollector.MacOS/Collectors/MacOSTelemetryCollector.cs:10-24 | The first failing step is the collection's error, and no later command is issued. |
| MacOSCollector.ServiceTagIsBoardSerial | src/TelemetryCollector.MacOS/Collectors/MacOSTelemetryCollector.cs:87-97 | The service tag equals the motherboard serial number, because both come from the same command. |
| MacOSCollector.LogicalCpuCount | src/TelemetryCollector.MacOS/Collectors/MacOSTelemetryCollector.cs:42 | `sysctl` printing a number and a line feed gives that number as the thread count, although the runner does not trim. |
| WindowsCollector.CmdArguments | src/TelemetryCollector.Windows/Collectors/WindowsTelemetryCollector.cs:103-104 | The `cmd.exe` argument is `/c ` followed by the command, unquoted. |
| WindowsCollector.ExecuteCommand | src/TelemetryCollector.Windows/Collectors/WindowsTelemetryCollector.cs:99-115 | The runner fails only when the process cannot start. Otherwise it returns standard output verbatim. |
| WindowsCollector.FailedCommandYieldsOutput | src/TelemetryCollector.Windows/Collectors/WindowsTelemetryCollector.cs:110-114 | A command with a nonzero exit code still yields its standard output. |
| WindowsCollector.ExitStatusIgnored | src/TelemetryCollector.Windows/Collectors/WindowsTelemetryCollector.cs:110-114 | The result depends only on standard output. |
| WindowsCollector.Collect | src/TelemetryCollector.Windows/Collectors/WindowsTelemetryCollector.cs:10-24 | A successful collection is a record that the commands report. It succeeds exactly when every step succeeds. Otherwise it fails with the error of a step that all earlier steps passed. |
| WindowsCollector.CollectReportsCommands | src/TelemetryCollector.Windows/Collectors/WindowsTelemetryCollector.cs:10-97 | The collection yields `d` exactly when `d` is what the commands report. The type is `Windows` and the memory array has one element. |
| WindowsCollector.ReportsRecord | src/TelemetryCollector.Windows/Collectors/WindowsTelemetryCollector.cs:12-96 | The record assembled from the field values of a complete run is one the commands report, with every value in its place in the initialisers. |
| WindowsCollector.ReportsIsFunctional | src/TelemetryCollector.Windows/Collectors/WindowsTelemetryCollector.cs:10-97 | At most one record is what a given runner reports. |
| WindowsCollector.FailureStopsCollection | src/TelemetryCollector.Windows/Collectors/WindowsTelemetryCollector.cs:10-24 | The first failing step is the collection's error, and no later command is issued. |
| WindowsCollector.ServiceTagIsBiosSerial | src/TelemetryCollector.Windows/Collectors/WindowsTelemetryCollector.cs:32-94 | The service tag equals the BIOS serial number, because both come from `wmic bios get serialnumber`. |
| WindowsCollector.HeaderDefeatsParse | src/TelemetryCollector.Windows/Collectors/WindowsTelemetryCollector.cs:42 | When `wmic` output starts with a column header, the thread-count field fails with a format error. |
| Factory.CreateTelemetryCollector | src/TelemetryCollector.Core/Factories/TelemetryCollectorFactory.cs:10-25 | `Unix`, `MacOSX` and `Win32NT` select the Linux, macOS and Windows collectors, in both directions. Any other name gives `NotSupported` with the name quoted in the message. |
| Factory.AcceptsExactlyThree | src/TelemetryCollector.Core/Factories/TelemetryCollectorFactory.cs:14-24 | A collector is chosen exactly for the three names. |
| Factory.SupportedPlatforms | src/TelemetryCollector.Core/Factories/TelemetryCollectorFactory.cs:12-24 | Of the eight `PlatformID` members, exactly `Unix`, `MacOSX` and `Win32NT` are supported. |
| Factory.RefusalNamesPlatform | src/TelemetryCollector.Core/Factories/TelemetryCollectorFactory.cs:23 | Distinct unsupported names give distinct messages. |
| Factory.Collect | src/TelemetryCollector.Core/Factories/TelemetryCollectorFactory.cs:16-21 | A collection by the chosen collector carries that collector's type tag and one memory record. |
| Factory.TypeIdentifiesCollector | src/TelemetryCollector.Core/Factories/TelemetryCollectorFactory.cs:16-21 | The three type tags differ, so a record's type identifies its collector. |
| Factory.PasswordOnlyForLinux | src/TelemetryCollector.Core/Factories/TelemetryCollectorFactory.cs:18-21 | The macOS and Windows collections do not depend on the password. |
| Credentials.Seed | src/TelemetryCollector.Common/Data/Extensions/DatabaseExtensions.cs:7-19 | After seeding the table is non-empty. An empty table becomes exactly the default row, and a non-empty table is unchanged. |
| Credentials.Save | src/TelemetryCollector.Common/Services/CredentialService.cs:19-32 | The table has `max(old size, 1)` rows, the first row is the saved credential, and the other rows are unchanged. |
| Credentials.Get | src/TelemetryCollector.Common/Services/CredentialService.cs:34-37 | Nothing is returned exactly when the table is empty. Otherwise the first row is returned. |
| Credentials.Open | src/TelemetryCollector.Common/Services/CredentialService.cs:12-17 | After construction the table is non-empty. A database that did not exist holds just the default row. An existing table is seeded: an empty one gets the default row, and a non-empty one is kept as it is. |
| Credentials.GetAfterSave | src/TelemetryCollector.Common/Services/CredentialService.cs:19-37 | Reading right after saving returns the saved credential. |
| Credentials.SaveIsIdempotent | src/TelemetryCollector.Common/Services/CredentialService.cs:19-32 | Saving the same credential twice gives the same table as saving it once. |
| Credentials.LastSaveWins | src/TelemetryCollector.Common/Services/CredentialService.cs:19-32 | A later save fully replaces an earlier one. |
| Credentials.SaveKeepsOtherRows | src/TelemetryCollector.Common/Services/CredentialService.cs:21-26 | Every row after the first keeps its place and contents. |
| Credentials.SeedIsIdempotent | src/TelemetryCollector.Common/Data/Extensions/DatabaseExtensions.cs:7-19 | Seeding twice is seeding once. |
| Credentials.SeedKeepsSaved | src/TelemetryCollector.Common/Data/Extensions/DatabaseExtensions.cs:9 | Seeding after a save leaves the saved credential readable. |
| Credentials.ServiceAlwaysHasCredential | src/TelemetryCollector.Common/Services/CredentialService.cs:12-37 | After construction a credential can always be read. It is the default row when the table was empty, and otherwise the existing first row. |

### Password exposure

- The Linux runner puts `echo '<password>' |` inside the `-c` argument of `/bin/bash`, so the password is visible in the process list. `LinuxShell.PasswordInArguments` states where it appears in the argument string. `LinuxShell.FailureRevealsPassword` states that every failure message of a privileged command also contains it.

### Remarks

- The oracle is a function, so a command run twice has the same outcome both times. `LinuxCollector.ServiceTagIsBiosSerial`, `WindowsCollector.ServiceTagIsBiosSerial` and `MacOSCollector.ServiceTagIsBoardSerial` rely on this: each collector reads one serial-number command twice. A machine whose answer changes between the two reads is not modelled.
- `wmic <class> get <property>` prints a column header line above the value. `int.Parse` rejects such text, so a Windows collection ends with a format error at the thread count whenever `wmic` prints that header (`WindowsCollector.HeaderDefeatsParse`). The model takes no position on what `wmic` prints.
- `TelemetryCollectorFactory.cs` switches on `Environment.OSVersion.Platform`. Modern .NET reports `Unix` on macOS as well, so on such runtimes the Linux collector is chosen there. The model takes the platform name as a parameter.

## Left out

- Process plumbing: starting processes, event-based line streaming, redirected standard input and `WaitForExitAsync`. All of these are replaced by the oracle. The Linux runner sees each stream's full text, split into lines at CR and LF. Splitting a CR LF pair this way gives an extra empty line compared with `ReadLine`, but the runner drops empty lines, so the captured text is the same.
- What the external tools print (`dmidecode`, `grep`, `cut`, `xargs`, `lsblk`, `lspci`, `system_profiler`, `sysctl`, `diskutil`, `wmic`). Commands are opaque keys of the oracle.
- Concurrency and `async`: the awaits are sequential, so the model is a sequence of calls.
- The unused drafts `ExecuteCommand_old` and `ExecuteCommand_old1` (LinuxTelemetryCollector.cs:104-169), and the unused constants in `LinuxCommands.cs`.
- Scheduling, hosting, JSON serialisation and console output (`Program.cs`, `TelemetryJob.cs`), and the Entity Framework context and its SQLite storage. The credential table is a sequence of rows, in the order `FirstOrDefaultAsync` returns them. Writes are taken to take effect on `SaveChangesAsync`, with nothing failing in between.
- The hard-coded Linux user name and password, and the literal default credential. The password and the default row are parameters. The Linux user name is never used by the live runner.
- `LinuxCollector.Record`, `WindowsCollector.Record`: these store the single `MemoryInfo` that `GetMemoryInfoAsync` returns as a one-element array. The source assigns a `MemoryInfo` to the `MemoryInfo[]` property, which does not type-check as written, so this is a modelling assumption.
- `Text.StartsWith`: it is ordinal. `String.StartsWith(string)` is culture-sensitive, and the model does not account for cultures in which `sudo ` could match a different text.
- `Numbers.ParseInt32`: covers the invariant-culture `NumberStyles.Integer` behaviour only. It leaves out culture-specific signs and the trailing NUL characters that .NET also tolerates.
- `Factory.Collect`: the factory returns a collector object; the model returns a tag plus a function that runs the chosen collector. The runtime query for the platform name is a parameter.
- Exceptions other than those modelled (`StartFailed`, `FormatError`, `OverflowError`, `CommandFailed`, `NotSupported`), such as I/O errors while reading a stream.
