# ds18b20 temperature logger: a Dafny model

`ds18b20.c` is a small daemon for one-wire DS18B20 temperature probes. Its flow:

1. It reads `/etc/ds18b20.cfg` and lays the command-line options over it.
2. It finds the probes under `/sys/bus/w1/devices` (device names starting with `28-`) and renames them through the `ALIAS` lines of the file.
3. Unless it runs in the foreground, it opens one append-mode log per probe under `/var/probes`.
4. Every `interval` seconds it reads each probe's `w1_slave` file and takes the `t=` value of its second line in millidegrees.
5. It appends `<time> <degrees>` to the probe's log. With `-o` it instead prints `<name>: <degrees>` once and exits.
6. SIGHUP closes and reopens the logs.

The model restates this in Dafny as pure functions over strings, sequences and records. The modules follow the program's pieces:

- `CString` (`cstring.dfy`) models the C library calls the program leans on:
  - the NUL-terminated buffer;
  - `snprintf` truncation;
  - `strncasecmp`, as its comparison loop;
  - the stateful `strtok`, as a function from a string, a resume position and a delimiter set to a token and the next resume position;
  - `fgets`, on a stream modelled as a text and a position.
- `Numbers` (`numbers.dfy`) models `strtol`'s leading-integer scan and glibc's `atoi`: saturate to a 64-bit `long`, then keep 32 bits. `Decimal` renders an integer as text and serves as the inverse in the proofs.
- `Aliases` (`aliases.dfy`) covers:
  - how an `ALIAS` line is stored;
  - how `findprobes` splits an entry back into its two words;
  - the scan over the fixed five-slot table.
- `Config` (`config.dfy`) models `ParseCfg`:
  - Each line is classified on its own into a `Directive`.
  - The file is a fold of `Apply` over the directives that stops at the first failure.
  - The lines are the pieces `fgets` returns.
- `Options` (`options.dfy`) models the `getopt` loop over an already-split option list and the output-mode check.
- `Probes` (`probes.dfy`) models `findprobes`:
  - the `28-` filter, in directory order;
  - the path building with its 78-character truncation;
  - the alias walk, a left fold over the whole table. The program splits each entry inside the walk (`Probes.WalkEntries`); the model splits the table into `Pair`s once, before the walk, and proves the two walks equal (`Probes.WalkEntriesPairs`).
- `Sample` (`sample.dfy`) models the reading of one probe file: the second line, then the second `strtok` token under the delimiter set `{t, =}`.
- `Daemon` (`daemon.dfy`) models `main`:
  - the world is a parameter (`Host`): the configuration text, the options, the device listing, the log root and the files that open;
  - configure, then discover the probes, then start up (with `openlogs`);
  - the per-cycle loop (`Step`, `Cycle`, and the loop method `RunCycle`);
  - the SIGHUP handler;
  - a run over a sequence of ticks and hang-ups.

Temperatures are integer millidegrees throughout. A Dafny `char` stands for one C `char` (a byte): the case folding of `strncasecmp` and `tolower` only changes `A` to `Z`, as in the C locale. Every way the program exits with `EXIT_FAILURE` or crashes is a `Failure` value, or a `Died` stop of a run. A run takes its SIGHUP handler as a parameter (`Daemon.Handler`): `AsWritten` is the program's handler, `Intended` the corrected one.

Three behaviours of the program are easy to misread, and the model keeps them as the program has them:

- **Alias matching.** The program does not stop at the first matching entry. It walks every entry and compares each with the name the earlier entries left, so renames chain and a later match overrides (`Probes.ResolveAliases`, `Probes.LastMatchWins`).
- **Reading a sample.** The program does not split the second line at the literal `t=`. Its `strtok(buf, "t=")` treats `t` and `=` as two separate delimiters and takes the second token (`Sample.ReadMilli`).
- **Non-numeric values.** A non-numeric value is not fatal. The program passes it to `atof`, which gives 0. Only a missing token is fatal; there `atof` is handed NULL.

## Model

| member | source | states |
|---|---|---|
| Numbers.Atoi | ds18b20.c:102 | `atoi` gives a 32-bit value that is the leading integer itself when that fits, and otherwise agrees with the saturated 64-bit value modulo 2^32 |
| Numbers.WrapInt | ds18b20.c:102 | keeping 32 bits gives an `int` that agrees with the value modulo 2^32, and is the value itself when it fits |
| Numbers.LeadingIntOfDecimal | ds18b20.c:356 | `LeadingInt`, the `strtol` scan, reading back a rendered integer, after blanks and before any non-digit, gives the integer again, with its sign |
| Numbers.LeadingIntOfParts | ds18b20.c:356 | for `LeadingInt`, the `strtol` scan: blanks, an optional minus sign, a run of digits and then a non-digit read as the signed value of the run |
| Numbers.AtoiOfDecimal | ds18b20.c:244 | `atoi` of any rendered 32-bit integer is that integer |
| Numbers.DigitsValueOfDigits | ds18b20.c:102 | the digits of a natural number read back as that number |
| CString.CStr | ds18b20.c:352-353 | the string in a buffer is its longest NUL-free prefix, ending just before the first NUL |
| CString.Snprintf | ds18b20.c:144-145 | `snprintf` keeps exactly the first size-1 characters of a text that does not fit, and all of a text that does |
| CString.CaseEqNLower | ds18b20.c:88 | `CaseEqN`, the `strncasecmp` loop, reports equality exactly when the first n characters agree after lowering |
| CString.CaseEqNShort | ds18b20.c:88-117 | matching a word shorter than the bound means the same length and the same text up to case |
| CString.CaseEqNRefl | ds18b20.c:150 | every string matches itself |
| CString.Strtok | ds18b20.c:82 | `strtok` finds nothing exactly when only delimiters remain; otherwise it returns the delimiter-free run after them, and resumes just past the delimiter that ends it |
| CString.StrtokWord | ds18b20.c:354-355 | resuming at a delimiter-free word that ends at a delimiter or at the end returns exactly that word |
| CString.StrtokSkip | ds18b20.c:354-355 | a delimiter at the resume position is skipped |
| CString.Fgets | ds18b20.c:351-353 | `fgets` returns NULL exactly at end of file; otherwise it returns the next slice of the text, of at most size-1 characters, with a newline only as its last character, and stopped by a newline, the size or end of file |
| CString.FgetsLine | ds18b20.c:351 | a complete line that fits the buffer is exactly what one `fgets` returns |
| CString.ChunksConcat | ds18b20.c:70 | `Chunks`, reading a text to its end with `fgets`, loses and adds nothing: the pieces concatenate to the text |
| CString.ChunksOfLines | ds18b20.c:70 | `Chunks` returns a text of short lines one line per `fgets` call |
| Aliases.Join | ds18b20.c:115 | the stored entry is `<real> <alias>` when that fits in 254 characters, and otherwise exactly its first 254 characters |
| Aliases.Split | ds18b20.c:147-149 | a split entry has a non-empty first word without spaces and a non-empty second word without newlines |
| Aliases.SplitJoin | ds18b20.c:147-149 | splitting a stored entry gives back the two words it was stored from |
| Aliases.ScanAsWritten | ds18b20.c:146 | the sentinel loop as written stops at the first empty slot, and runs off the table exactly when no slot is empty |
| Aliases.ScanAsWrittenOverruns | ds18b20.c:146 | with five aliases stored, the loop as written reads past the table |
| Aliases.ScanAsWrittenBelowLimit | ds18b20.c:146 | with fewer than five aliases, the loop as written visits exactly the stored ones |
| Aliases.ScanBounded | ds18b20.c:146 | the bounded loop stops at the first empty slot or at the end of the table |
| Aliases.ScanBoundedVisitsAll | ds18b20.c:146 | the bounded loop visits exactly the stored aliases, five included |
| Config.Uncommented | ds18b20.c:76-80 | the line as `strtok` sees it is its prefix before the first `#`, `;` or NUL |
| Config.KeywordsExclusive | ds18b20.c:88-117 | no key matches two of the keywords |
| Config.KeywordOf | ds18b20.c:88-117 | the keyword chain picks a keyword exactly when the key equals it up to case, and picks none exactly when the key matches no keyword |
| Config.Classify | ds18b20.c:72-120 | a line is skipped exactly when it starts with `#`, `;` or a newline; an interval is non-zero and fits an `int`; an alias entry joins the line's two fields |
| Config.IntervalDirective | ds18b20.c:96-107 | `INTERVAL` is a syntax error exactly when it has no value, is refused exactly when the value's `atoi` is zero, and otherwise sets the interval to that non-zero 32-bit `atoi` value |
| Config.AliasDirective | ds18b20.c:108-116 | `ALIAS` adds an entry exactly when the line has two fields, and that entry joins them; otherwise it is a syntax error |
| Config.ParseLine | ds18b20.c:70-123 | a comment line leaves the settings unchanged, and a failure names the line |
| Config.ParseLineFlags | ds18b20.c:82-95 | a line left with only blanks is a syntax error; each flag keyword sets its own flag and changes nothing else |
| Config.ParseLineInterval | ds18b20.c:96-107 | an `INTERVAL` line fails without a value or with a zero value, and otherwise replaces the interval |
| Config.ParseLineAlias | ds18b20.c:108-116 | an `ALIAS` line fails without two fields and fails as the sixth alias; otherwise it appends the joined entry after the earlier ones |
| Config.ParseLineUnknown | ds18b20.c:117-119 | any other key stops with an unknown-key failure that quotes the key |
| Config.Apply | ds18b20.c:88-119 | a directive is accepted exactly when it is not a rejection and, for an alias, the table has room; a failure names the directive's line |
| Config.ApplyStep | ds18b20.c:88-116 | one directive is accepted exactly when it is not a rejection and, for an alias, the table has room. It then appends only its own alias, sets only its own flag, and replaces the interval only when it gives one |
| Config.ApplyAll | ds18b20.c:70-123 | a failure names a line of the file |
| Config.CfgLines | ds18b20.c:70 | every line the loop reads has 1 to 254 characters |
| Config.ApplyAllAccepts | ds18b20.c:70-123 | a file is accepted exactly when no line is rejected and the table still holds every alias it adds |
| Config.ApplyAllAliases | ds18b20.c:108-116 | an accepted file's aliases follow the earlier ones, in file order |
| Config.ApplyAllInterval | ds18b20.c:96-107 | an accepted file's interval is the last one given, or the earlier value |
| Config.ApplyAllFlags | ds18b20.c:88-95 | after an accepted file, a flag is set exactly when it was set before or some line names it |
| Config.ApplyAllStopsAtFirstFault | ds18b20.c:83-119 | a refused file fails at its first rejected line, or at the alias that overflows the table, and every line before it was accepted |
| Config.AliasLineRoundTrip | ds18b20.c:109-115 | the entry stored from an `ALIAS` line splits back into that line's two fields |
| Config.StoredAliasesSplit | ds18b20.c:147-149 | every alias a configuration file stores can be split by `findprobes` |
| Config.NewlineKeyIsNoKeyword | ds18b20.c:88-117 | a key that still ends in its newline matches no keyword |
| Config.BareKeyKeepsNewline | ds18b20.c:82 | a keyword alone on its line keeps the newline in its key, so it is reported as an unknown key |
| Config.IndentedCommentIsSyntaxError | ds18b20.c:72-86 | a comment indented by blanks is not skipped; after the cut only blanks remain, so the line is a syntax error |
| Config.ParseCfg | ds18b20.c:53-125 | from a table that fits, a file is accepted exactly when no line is rejected and the table still holds every alias it adds; a failure names a line of the file |
| Config.ParseCfgFromDefaults | ds18b20.c:53-125 | from the defaults, a file is accepted exactly when no line is rejected and it adds at most five aliases. Then each flag is set exactly when a line names it, the interval is the last one given (300 if none), and the aliases are the `ALIAS` lines in file order, each splittable |
| Options.ApplyOpt | ds18b20.c:227-254 | an option never touches the alias table |
| Options.ApplyOptStep | ds18b20.c:227-254 | one option is accepted exactly when it is a known letter with, for `-i`, a non-zero value. It then sets only its own flag, and `-i` replaces the interval |
| Options.OverlayAccepts | ds18b20.c:226-255 | `Overlay`, the `getopt` loop: the command line is accepted exactly when every option is one of `f v l r o`, or `-i` with a non-zero `atoi` value |
| Options.OverlayFlags | ds18b20.c:228-242 | after the options, each flag is set exactly when the file set it or some option names it |
| Options.OverlayInterval | ds18b20.c:243-250 | the last `-i` overrides the file's interval |
| Options.ResolveModes | ds18b20.c:257-262 | the program stops exactly when none of log, rrd and once is asked for; `-o` forces the foreground and nothing else changes |
| Probes.DevicePath | ds18b20.c:144 | the device path is `/sys/bus/w1/devices/<device>/w1_slave` for a device name of up to 49 characters, and otherwise exactly its first 78 characters |
| Probes.LogPath | ds18b20.c:151-157 | the log path is `/var/probes/<name>.log` for a name of up to 62 characters, and otherwise exactly its first 78 characters |
| Probes.ShortName | ds18b20.c:145-152 | a name slot holds the whole name when it has fewer than 79 characters, and otherwise exactly its first 78 |
| Probes.WalkEntriesPairs | ds18b20.c:146-155 | walking the table while splitting each entry inside the loop gives the same naming as splitting the whole table first and walking the pairs |
| Probes.AliasStep | ds18b20.c:150-154 | an entry whose real name matches the current name up to case renames the probe to the alias, cut to the name slot, and records the alias for the log path; any other entry leaves the naming as it was |
| Probes.ResolveAliases | ds18b20.c:146-155 | the walk keeps the name equal to the last alias applied, and never forgets that a rename happened |
| Probes.NameProbe | ds18b20.c:143-158 | the device path is always built from the raw device name, and all three fields fit their slots |
| Probes.ResolveSnoc | ds18b20.c:146-155 | the walk is a left fold: one more entry is one more step after the rest |
| Probes.RenamedIff | ds18b20.c:150-158 | an unrenamed probe gets renamed exactly when some entry's real name matches its name |
| Probes.NameProbeAliasing | ds18b20.c:144-158 | a device no entry names keeps its own name and `<device>.log`; a device some entry names takes an alias's name and log |
| Probes.LastMatchWins | ds18b20.c:146-155 | the last entry that matches the name the earlier entries produced decides the name and the log |
| Probes.ResolveTwo | ds18b20.c:146-155 | a two-entry table is walked in two steps, in table order |
| Probes.AliasChainExample | ds18b20.c:150-152 | the entries `28-a x` then `X y` name device `28-a` "y": renames chain, ignoring case |
| Probes.DuplicateAliasExample | ds18b20.c:150-152 | two entries for `28-a`: the first renames it, so the second no longer matches |
| Probes.Qualifying | ds18b20.c:141-143 | exactly the names starting with `28-` are kept |
| Probes.QualifyingAppend | ds18b20.c:141-143 | the filter keeps the listing's order: filtering a listing in two parts filters each part and puts the results in the same order |
| Probes.FindProbes | ds18b20.c:141-166 | one probe per qualifying device |
| Probes.FindProbesNamesQualifying | ds18b20.c:141-166 | the i-th probe is the i-th qualifying device, named through the aliases |
| Probes.FindProbesAppend | ds18b20.c:141-164 | listing a directory in two parts finds each part's probes, in order |
| Probes.Discover | ds18b20.c:136-140 | an unreadable device directory gives no probes |
| Sample.SecondLine | ds18b20.c:351-353 | the buffer after the two reads holds at most 254 characters and no NUL |
| Sample.ReadMilli | ds18b20.c:351-356 | there is no reading exactly when the second line has no second token |
| Sample.ReadSensorLine | ds18b20.c:354-355 | the second token of a `<data>t=<n>` line, whose data part has no `t` or `=`, reads as n |
| Sample.SecondLineOf | ds18b20.c:351-353 | the buffer holds exactly the second line of the file |
| Sample.ReadMilliRoundTrip | ds18b20.c:351-356 | a probe file of a CRC line and a sensor line reads back the millidegrees written into it, negative ones included, whatever follows |
| Sample.CommentExample | ds18b20.c:346-356 | the example in the source's comment reads as 21750 millidegrees |
| Sample.LeadingReadingIsLost | ds18b20.c:354-355 | a second line that starts with `t=` gives its number as the first token, so there is no reading |
| Sample.MissingSecondLine | ds18b20.c:353-356 | a file that ends after its first line gives no reading |
| Daemon.Configure | ds18b20.c:221-262 | a missing file is fatal; accepted settings ask for some output, force the foreground with `-o`, and hold at most five splittable aliases |
| Daemon.ConfigureSettings | ds18b20.c:221-262 | file and options are accepted exactly when every line and option is, and some output is asked for. Then each flag is set exactly when a line or an option names it, and the interval is the last `-i`, else the last `INTERVAL`, else 300 |
| Daemon.Prepare | ds18b20.c:264-271 | a started program has between one and five probes; no device directory means no probes, which is fatal |
| Daemon.PrepareRefusesOverflow | ds18b20.c:161 | more than five qualifying devices are refused |
| Daemon.FindProbesOverflows | ds18b20.c:141-161 | six `28-` devices make `findprobes` fill a sixth table row |
| Daemon.FirstUnopenable | ds18b20.c:174-179 | the first log that cannot be opened, with every earlier one opened |
| Daemon.OpenLogs | ds18b20.c:170-184 | `openlogs` succeeds exactly when every log opens, and otherwise fails on one that does not |
| Daemon.CheckLogRoot | ds18b20.c:275-282 | the log root passes exactly when it is a directory |
| Daemon.OpenIf | ds18b20.c:274-290 | opening succeeds exactly when the root is a directory and every log opens; not opening always succeeds |
| Daemon.StartupAsWritten | ds18b20.c:274-290 | as written, the logs are open exactly when the program is not in the foreground |
| Daemon.Startup | ds18b20.c:274-290 | as intended, the logs are open exactly when the program daemonises or the loop will write to them |
| Daemon.Stamp | ds18b20.c:359 | the timestamp is the clock modulo 2^32 |
| Daemon.ReadingsOfSensorFile | ds18b20.c:335-356 | a device file holding a CRC line and a sensor line reads as that sensor line's millidegrees |
| Daemon.Step | ds18b20.c:334-366 | a probe step succeeds exactly when the file opens, gives a reading, and the log it writes to is open, and otherwise fails on the probe's file or log. It then logs one line iff `dolog && !once`, prints one line iff `once`, and writes nothing otherwise |
| Daemon.CycleOver | ds18b20.c:334-366 | the loop over the probes writes at most one line per probe, and stops only on a device file that does not open or read, or on an unopened log |
| Daemon.CycleOverFaultPersists | ds18b20.c:334-345 | once a probe faults, the cycle ends with that fault and the earlier probes' lines |
| Daemon.RunCycle | ds18b20.c:334-366 | the loop over the probes computes the cycle: every probe in table order, stopping at the first fault |
| Daemon.CycleCompletes | ds18b20.c:334-366 | a cycle completes exactly when every probe reads and the logs it writes to are open |
| Daemon.CycleOverFaultStep | ds18b20.c:334-366 | a cycle over a table completes exactly when the cycle without its last probe completes and that probe's step succeeds |
| Daemon.CycleLogsEachProbe | ds18b20.c:357-361 | in logging mode a complete cycle appends one line per probe, in table order, to that probe's log, with the probe's reading |
| Daemon.CycleShowsEachProbe | ds18b20.c:362-364 | with `-o` a complete cycle prints one line per probe, in table order, under the probe's name |
| Daemon.HangupAsWritten | ds18b20.c:187-204 | the handler as written fails on logs that were never opened, and otherwise succeeds exactly when every log reopens |
| Daemon.OnHangup | ds18b20.c:201-204 | the intended handler changes nothing when the logs are closed, and otherwise does what the written one does |
| Daemon.HangupOfForegroundLogger | ds18b20.c:201-204 | after a foreground startup the written handler dies on SIGHUP, while the intended one carries on |
| Daemon.Run | ds18b20.c:332-369 | a run, with either SIGHUP handler, ends successfully only with `-o` |
| Daemon.HangupWithClosedLogs | ds18b20.c:187-204 | with the logs never opened, a SIGHUP kills the run under the handler as written and changes nothing under the intended one |
| Daemon.ForegroundHangupDies | ds18b20.c:201-204 | as written, a foreground program dies on a SIGHUP that arrives before its first cycle |
| Daemon.ReadyRunNeverWritesUnopened | ds18b20.c:357-361 | a program whose needed logs are open never writes to an unopened log, whatever ticks and hang-ups follow, under either handler |
| Daemon.IntendedRunNeverClosesUnopened | ds18b20.c:201-204 | under the intended handler, no run closes logs that were never opened |
| Daemon.CycleNeverWritesUnopened | ds18b20.c:357-361 | a cycle started with the needed logs open never faults on an unopened log |
| Daemon.Launch | ds18b20.c:221-290 | a launched program has one to five probes and the logs its loop needs |
| Daemon.LaunchedRunNeverWritesUnopened | ds18b20.c:201-361 | after the intended startup, no run with the intended handler writes to an unopened log or closes one |
| Daemon.ForegroundLoggerDies | ds18b20.c:274-361 | as written, `-f -l` without `-o` dies on its first cycle, writing to the first probe's unopened log |
| Daemon.ForegroundLoggerLogs | ds18b20.c:357-361 | with the intended startup, the same settings log one line per probe on the first cycle |
| Daemon.OnceRunShowsEachProbe | ds18b20.c:362-367 | with `-o`, a first cycle in which every probe reads prints each probe once, in order, and exits successfully |
| Daemon.LoggingRunKeepsGoing | ds18b20.c:332-369 | in logging mode with the logs open, cycles in which every probe reads never stop the program, and each appends one line per probe |
| Daemon.LoggingRunCounts | ds18b20.c:332-369 | the same run, with its lines counted cycle by cycle |

## Left out

- The file and directory I/O are parameters of the model: `fopen`, `opendir`/`readdir`, `stat` and reading the probe files. `Host` and the `Tick` inputs carry what those calls would see.
- Floating point:
  - `atof` is modelled by `strtol`'s integer scan, so a fraction, exponent or hex form in a reading is not modelled;
  - the division by 1000 and the `%2.3f` formatting are not modelled. Readings and events carry integer millidegrees.
- Timing: `sleep(interval)` is not modelled, so the interval is computed but has no effect in the model. `time(NULL)` is one clock value per cycle; the program reads the clock once per probe.
- Daemonisation (`fork`, `setsid`, `chdir`, closing the standard streams), the pidfile and `syslog` are process plumbing without decisions. A fork or pidfile failure is not among the modelled failures.
- SIGHUP is modelled as an input between cycles, as the sequential close-all-then-open-all transition. Its asynchrony is not modelled: it can arrive in the middle of a cycle or of `openlogs`. A failing `fclose` on an open log is not modelled.
- `update_rrd` is an empty stub that is never called, so `-r` and `RRD` only count as an output mode. `RRDROOT` and `CFGFILE` are not used by the model.
- `getopt` internals, such as argument permutation, clustered flags and the `optarg` split, are not modelled. The model starts from the list of option characters and arguments `getopt` returns.
- Verbose and diagnostic prints are not modelled; only the fact that the program stops is.
- Config.Apply: a sixth `ALIAS` line is modelled as a `TooManyAliases` failure. The program writes it past the end of `alias`, which is undefined behaviour, so the model stops there instead.
- Daemon.Cycle: its own contract only bounds the number of lines. What a cycle does is stated by `CycleCompletes`, `CycleLogsEachProbe`, `CycleShowsEachProbe` and `RunCycle`.

## Findings

| source | as written | input that shows it | evidently intended | confidence | as-written member | corrected member |
|---|---|---|---|---|---|---|
| ds18b20.c:274-290 | the logs are opened only when the program daemonises, but the loop at lines 357-359 appends to them whenever `dolog && !once` | `-f -l` without `-o`, with one readable probe: the first cycle calls `fprintf` on a NULL log stream | open the logs whenever the loop will write to them | high (not executed) | Daemon.ForegroundLoggerDies | Daemon.LaunchedRunNeverWritesUnopened |
| ds18b20.c:146 | the alias loop stops only at an empty slot and has no bound on `i` | five `ALIAS` lines: the loop reads `alias[5]`, past the table | stop at an empty slot or after the fifth slot | high (not executed) | Aliases.ScanAsWrittenOverruns | Aliases.ScanBoundedVisitsAll |
| ds18b20.c:201-204 | the SIGHUP handler closes every log stream whether or not `openlogs` ever ran | `-f -l` (or `-o`, `-f -r`) and a SIGHUP: `fclose` is handed NULL | close and reopen the logs only when they are open | high (not executed) | Daemon.ForegroundHangupDies | Daemon.IntendedRunNeverClosesUnopened |
| ds18b20.c:141-161 | `findprobes` fills one row of its five-row tables per `28-` device, with no bound on `count` | six `28-` devices: `probepath[5]` is written, past the table | refuse, or stop at, more than `MAXPROBES` probes | high (not executed) | Daemon.FindProbesOverflows | Daemon.PrepareRefusesOverflow |
