/**
 * The program as a whole (`main`, ds18b20.c:212-372, with `openlogs`, `closelogs` and
 * the SIGHUP handler): read the configuration file, lay the options over it, find
 * the probes, open the logs, then read every probe once per cycle and either append
 * the reading to the probe's log or print it and exit.
 *
 * The world the program runs in is a parameter: the text of the configuration file,
 * the options, the device directory, the log root, which log files can be opened for
 * appending, and for each cycle the probe files and the clock.
 */
module Daemon {
  import opened Wrappers
  import opened Defs
  import opened Config
  import opened Options
  import opened Aliases
  import opened Probes
  import opened Sample

  /** What `stat(LOGROOT)` reports (ds18b20.c:275-282). */
  datatype LogRoot = Missing | NotADirectory | Directory

  /**
   * The world at startup: the configuration file's text (`None` when it cannot be
   * opened), what `getopt` returns, the names `readdir` returns for the device
   * directory (`None` when it cannot be opened), the log root, and the paths
   * `fopen(path, "a")` succeeds on.
   */
  datatype Host = Host(
    cfgText: Option<string>,
    opts: seq<Opt>,
    devices: Option<seq<string>>,
    logRoot: LogRoot,
    appendable: set<string>)

  /** Every way the program exits with `EXIT_FAILURE` or dies. */
  datatype Fatal =
    | NoConfigFile
    | BadConfig(cfgError: CfgError)
    | BadOption(optError: OptError)
    | NoOutputMode
    | NoProbes
    | TooManyProbes(found: nat)
    | NoLogRoot
    | LogRootNotADirectory
    | CannotOpenLog(path: string)
    | CannotOpenProbe(path: string)
    /** `atof` is handed the NULL pointer `strtok` returned. */
    | NoReading(path: string)
    /** `fprintf` is handed a log stream that was never opened. */
    | LogNotOpen(path: string)
    /** `fclose` is handed a log stream that was never opened. */
    | CloseOfUnopenedLogs

  /**
   * ds18b20.c:220-262: the defaults, the configuration file, then the options, then
   * the check that some output is asked for.
   */
  function Configure(cfgText: Option<string>, opts: seq<Opt>): (r: Result<Settings, Fatal>)
    ensures cfgText.None? ==> r == Failure(NoConfigFile)
    ensures r.Success? ==> |r.value.aliases| <= MAXPROBES && AllSplit(r.value.aliases)
    ensures r.Success? ==> r.value.dolog || r.value.dorrd || r.value.once
    ensures r.Success? && r.value.once ==> r.value.foreground
  {
    match cfgText
    case None => Failure(NoConfigFile)
    case Some(text) =>
      ParseCfgFromDefaults(text);
      var parsed := ParseCfg(Defaults, text);
      if parsed.Failure? then Failure(BadConfig(parsed.error))
      else
        var overlaid := Overlay(FromConfig(parsed.value), opts);
        if overlaid.Failure? then Failure(BadOption(overlaid.error))
        else
          match ResolveModes(overlaid.value)
          case None => Failure(NoOutputMode)
          case Some(s) => Success(s)
  }

  /**
   * The settings as a whole: accepted exactly when the file is, every option is and
   * some output is asked for; then each flag is set exactly when a line of the file
   * or an option names it, and the interval is the last `-i`, or else the last
   * `INTERVAL` line, or else 300.
   */
  lemma ConfigureSettings(text: string, opts: seq<Opt>)
    ensures var ds := Directives(CfgLines(text));
            var r := Configure(Some(text), opts);
            var dolog := Mentions(ds, SetLog) || Given(opts, 'l');
            var dorrd := Mentions(ds, SetRrd) || Given(opts, 'r');
            var once := Given(opts, 'o');
            r.Success? <==>
              && AllAccepted(ds) && |AliasEntries(ds)| <= MAXPROBES
              && (forall i :: 0 <= i < |opts| ==> Accepted(opts[i]))
              && (dolog || dorrd || once)
    ensures var ds := Directives(CfgLines(text));
            var r := Configure(Some(text), opts);
            r.Success? ==>
              && (r.value.verbose <==> Mentions(ds, SetVerbose) || Given(opts, 'v'))
              && (r.value.dolog <==> Mentions(ds, SetLog) || Given(opts, 'l'))
              && (r.value.dorrd <==> Mentions(ds, SetRrd) || Given(opts, 'r'))
              && (r.value.once <==> Given(opts, 'o'))
              && (r.value.foreground <==> Mentions(ds, SetForeground) || Given(opts, 'f') || Given(opts, 'o'))
              && r.value.interval == LastIntervalOption(opts, LastInterval(ds, DEFAULT_INTERVAL))
              && r.value.aliases == AliasEntries(ds)
  {
    var parsed := ParseCfg(Defaults, text);
    ParseCfgFromDefaults(text);
    if parsed.Success? {
      var s := FromConfig(parsed.value);
      OverlayAccepts(s, opts);
      if Overlay(s, opts).Success? {
        OverlayFlags(s, opts);
        OverlayInterval(s, opts);
      }
    }
  }

  /** The probes `main` goes on with, and the settings they were found with. */
  datatype Plan = Plan(settings: Settings, probes: seq<Probe>)

  /**
   * ds18b20.c:264-271: configure, then find the probes; none is fatal. More than
   * `MAXPROBES` is refused here: `findprobes` itself writes past its tables then.
   */
  function Prepare(host: Host): (r: Result<Plan, Fatal>)
    ensures r.Success? ==> 0 < |r.value.probes| <= MAXPROBES
    ensures r.Success? ==> r.value.settings.once ==> r.value.settings.foreground
    ensures host.cfgText.Some? && host.devices.None? && Configure(host.cfgText, host.opts).Success? ==>
              r == Failure(NoProbes)
  {
    var s :- Configure(host.cfgText, host.opts);
    var probes := Discover(host.devices, Pairs(s.aliases));
    if |probes| == 0 then Failure(NoProbes)
    else if |probes| > MAXPROBES then Failure(TooManyProbes(|probes|))
    else Success(Plan(s, probes))
  }

  /** A directory listing with more than `MAXPROBES` probes is refused before any table row is used. */
  lemma PrepareRefusesOverflow(host: Host)
    requires Configure(host.cfgText, host.opts).Success?
    requires host.devices.Some?
    requires |Qualifying(host.devices.value)| > MAXPROBES
    ensures Prepare(host) == Failure(TooManyProbes(|Qualifying(host.devices.value)|))
  {
  }

  /**
   * `findprobes` as written fills one row of its five-row tables per qualifying
   * device, with no bound: six `28-` devices ask for a sixth row.
   */
  lemma FindProbesOverflows(devices: seq<string>, pairs: seq<Pair>)
    requires |devices| == MAXPROBES + 1
    requires forall i :: 0 <= i < |devices| ==> IsDs18b20(devices[i])
    ensures |FindProbes(devices, pairs)| == MAXPROBES + 1
  {
    QualifyingAll(devices);
  }

  lemma {:induction false} QualifyingAll(devices: seq<string>)
    requires forall i :: 0 <= i < |devices| ==> IsDs18b20(devices[i])
    ensures Qualifying(devices) == devices
    decreases |devices|
  {
    if devices != [] {
      QualifyingAll(devices[1..]);
      assert devices == [devices[0]] + devices[1..];
    }
  }

  /**
   * `openlogs` (ds18b20.c:170-184): open every log for appending, in table order; the
   * first one that fails ends the program. The result is the index of that one.
   */
  function FirstUnopenable(probes: seq<Probe>, appendable: set<string>, i: nat): (r: Option<nat>)
    requires i <= |probes|
    ensures r.None? <==> forall j :: i <= j < |probes| ==> probes[j].logPath in appendable
    ensures r.Some? ==> i <= r.value < |probes| && probes[r.value].logPath !in appendable
    ensures r.Some? ==> forall j :: i <= j < r.value ==> probes[j].logPath in appendable
    decreases |probes| - i
  {
    if i == |probes| then None
    else if probes[i].logPath !in appendable then Some(i)
    else FirstUnopenable(probes, appendable, i + 1)
  }

  function OpenLogs(probes: seq<Probe>, appendable: set<string>): (r: Option<Fatal>)
    ensures r.None? <==> forall j :: 0 <= j < |probes| ==> probes[j].logPath in appendable
    ensures r.Some? ==> exists j :: 0 <= j < |probes| && r.value == CannotOpenLog(probes[j].logPath)
                                    && probes[j].logPath !in appendable
  {
    match FirstUnopenable(probes, appendable, 0)
    case None => None
    case Some(j) => Some(CannotOpenLog(probes[j].logPath))
  }

  /** ds18b20.c:275-282: the log root must exist and be a directory. */
  function CheckLogRoot(root: LogRoot): (r: Option<Fatal>)
    ensures r.None? <==> root == Directory
  {
    match root
    case Missing => Some(NoLogRoot)
    case NotADirectory => Some(LogRootNotADirectory)
    case Directory => None
  }

  /** The running program: its settings, its probes, and whether `logfd` holds open streams. */
  datatype State = State(settings: Settings, probes: seq<Probe>, logsOpen: bool)

  /** Check the log root and open the logs, or leave them closed. */
  function OpenIf(plan: Plan, host: Host, open: bool): (r: Result<State, Fatal>)
    ensures r.Success? ==> r.value.logsOpen == open
    ensures r.Success? ==> r.value.settings == plan.settings && r.value.probes == plan.probes
    ensures open ==> (r.Success? <==>
                        && host.logRoot == Directory
                        && forall j :: 0 <= j < |plan.probes| ==> plan.probes[j].logPath in host.appendable)
    ensures !open ==> r.Success?
  {
    if !open then Success(State(plan.settings, plan.probes, false))
    else
      match CheckLogRoot(host.logRoot)
      case Some(e) => Failure(e)
      case None =>
        match OpenLogs(plan.probes, host.appendable)
        case Some(e) => Failure(e)
        case None => Success(State(plan.settings, plan.probes, true))
  }

  /** ds18b20.c:274-290 as written: the logs are opened only when the program daemonises. */
  function StartupAsWritten(plan: Plan, host: Host): (r: Result<State, Fatal>)
    ensures r.Success? ==> (r.value.logsOpen <==> !plan.settings.foreground)
  {
    OpenIf(plan, host, !plan.settings.foreground)
  }

  /**
   * The loop at ds18b20.c:357-361 appends to the logs whenever `dolog` is set and `-o`
   * is not: the logs are needed then, and whenever the program daemonises.
   */
  predicate NeedsLogs(s: Settings) {
    !s.foreground || (s.dolog && !s.once)
  }

  /** What the loop writes to the logs is open: logging is off, `-o` is on, or the logs are open. */
  predicate Ready(st: State) {
    st.logsOpen || !(st.settings.dolog && !st.settings.once)
  }

  /** The startup with the evident intent: the logs are opened whenever the loop will write them. */
  function Startup(plan: Plan, host: Host): (r: Result<State, Fatal>)
    ensures r.Success? ==> Ready(r.value)
    ensures r.Success? ==> (r.value.logsOpen <==> NeedsLogs(plan.settings))
    ensures !plan.settings.foreground ==> Startup(plan, host) == StartupAsWritten(plan, host)
  {
    OpenIf(plan, host, NeedsLogs(plan.settings))
  }

  /** What the loop produces: a line appended to a log, or a line printed to standard output. */
  datatype Event =
    | Logged(path: string, stamp: nat, milli: int)
    | Shown(name: string, milli: int)

  /** `(unsigned int) now`: the clock as the log line shows it, modulo 2^32. */
  function Stamp(now: int): (t: nat)
    ensures t < 0x1_0000_0000
    ensures (t - now) % 0x1_0000_0000 == 0
  {
    now % 0x1_0000_0000
  }

  /** The logs the loop writes to: on when `dolog` is set and `-o` is not. */
  predicate Logging(s: Settings) {
    s.dolog && !s.once
  }

  /**
   * What reading each probe file gives in one cycle: `files` maps the device paths
   * that `fopen` succeeds on to their text, and the result maps the same paths to the
   * millidegrees read from them (`None` where the second token is missing).
   */
  function Readings(files: map<string, string>): (m: map<string, Option<int>>)
    ensures m.Keys == files.Keys
  {
    map path | path in files :: ReadMilli(files[path])
  }

  /**
   * A device file holding the kernel's two lines, the CRC line and a sensor line,
   * reads as the sensor line's millidegrees; a file that cannot be opened reads as
   * nothing at all.
   */
  lemma ReadingsOfSensorFile(files: map<string, string>, path: string, crcLine: string, data: string, milli: int)
    requires path in files
    requires 0 < |crcLine| < READ_SIZE && crcLine[|crcLine| - 1] == '\n'
    requires forall j :: 0 <= j < |crcLine| - 1 ==> crcLine[j] != '\n'
    requires data != [] && PlainData(data)
    requires |SensorLine(data, milli)| < READ_SIZE
    requires files[path] == crcLine + SensorLine(data, milli)
    ensures Readings(files)[path] == Some(milli)
    ensures forall other :: other !in files ==> other !in Readings(files)
  {
    ReadMilliRoundTrip(crcLine, data, milli, "");
    assert crcLine + SensorLine(data, milli) + "" == files[path];
  }

  /**
   * One pass of the inner loop at ds18b20.c:334-366: open the probe's device file,
   * read it, then log and/or print the reading.
   */
  function Step(st: State, p: Probe, readings: map<string, Option<int>>, now: int): (r: Result<seq<Event>, Fatal>)
    ensures p.devicePath !in readings ==> r == Failure(CannotOpenProbe(p.devicePath))
    ensures r.Success? <==> p.devicePath in readings && readings[p.devicePath].Some?
                            && (Logging(st.settings) ==> st.logsOpen)
    ensures r.Failure? ==> r.error in {CannotOpenProbe(p.devicePath), NoReading(p.devicePath), LogNotOpen(p.logPath)}
    ensures r.Success? ==> |r.value| <= 1
    ensures r.Success? && Logging(st.settings) ==>
              r.value == [Logged(p.logPath, Stamp(now), readings[p.devicePath].value)]
    ensures r.Success? && st.settings.once ==>
              r.value == [Shown(p.name, readings[p.devicePath].value)]
    ensures r.Success? && !Logging(st.settings) && !st.settings.once ==> r.value == []
  {
    if p.devicePath !in readings then Failure(CannotOpenProbe(p.devicePath))
    else
      match readings[p.devicePath]
      case None => Failure(NoReading(p.devicePath))
      case Some(milli) =>
        if Logging(st.settings) && !st.logsOpen then Failure(LogNotOpen(p.logPath))
        else
          Success((if Logging(st.settings) then [Logged(p.logPath, Stamp(now), milli)] else [])
                  + (if st.settings.once then [Shown(p.name, milli)] else []))
  }

  /** The events of part of a cycle, and what ended it early, if anything. */
  datatype Pass = Pass(events: seq<Event>, fault: Option<Fatal>)

  /** What can stop a cycle: a device file that does not open or read, or an unopened log. */
  predicate CycleFault(e: Fatal) {
    e.CannotOpenProbe? || e.NoReading? || e.LogNotOpen?
  }

  /** The inner loop over the probes `ps`, in order, stopping at the first fault. */
  function CycleOver(st: State, ps: seq<Probe>, readings: map<string, Option<int>>, now: int): (r: Pass)
    ensures |r.events| <= |ps|
    ensures r.fault.Some? ==> CycleFault(r.fault.value)
    decreases |ps|
  {
    if ps == [] then Pass([], None)
    else
      var before := CycleOver(st, ps[..|ps| - 1], readings, now);
      if before.fault.Some? then before
      else
        match Step(st, ps[|ps| - 1], readings, now)
        case Failure(e) => Pass(before.events, Some(e))
        case Success(evs) => Pass(before.events + evs, None)
  }

  /** One cycle of the main loop over every probe. */
  function Cycle(st: State, readings: map<string, Option<int>>, now: int): (r: Pass)
    ensures |r.events| <= |st.probes|
  {
    CycleOver(st, st.probes, readings, now)
  }

  /** Once a prefix of the probes faults, the cycle ends with that fault and the prefix's events. */
  lemma {:induction false} CycleOverFaultPersists(st: State, ps: seq<Probe>, k: nat, readings: map<string, Option<int>>, now: int)
    requires k <= |ps|
    requires CycleOver(st, ps[..k], readings, now).fault.Some?
    ensures CycleOver(st, ps, readings, now) == CycleOver(st, ps[..k], readings, now)
    decreases |ps| - k
  {
    if k < |ps| {
      var longer := ps[..k + 1];
      assert longer[..|longer| - 1] == ps[..k];
      CycleOverFaultPersists(st, ps, k + 1, readings, now);
    } else {
      assert ps[..k] == ps;
    }
  }

  /** The main loop's inner `for`, one probe at a time. */
  method RunCycle(st: State, readings: map<string, Option<int>>, now: int) returns (r: Pass)
    ensures r == Cycle(st, readings, now)
  {
    var events: seq<Event> := [];
    var i := 0;
    while i < |st.probes|
      invariant 0 <= i <= |st.probes|
      invariant CycleOver(st, st.probes[..i], readings, now) == Pass(events, None)
    {
      var p := st.probes[i];
      var step := Step(st, p, readings, now);
      var prefix := st.probes[..i + 1];
      assert prefix[..|prefix| - 1] == st.probes[..i];
      assert prefix[|prefix| - 1] == p;
      if step.Failure? {
        CycleOverFaultPersists(st, st.probes, i + 1, readings, now);
        return Pass(events, Some(step.error));
      }
      events := events + step.value;
      i := i + 1;
    }
    assert st.probes[..i] == st.probes;
    r := Pass(events, None);
  }

  /** The probe's device file opens and gives a reading. */
  predicate Reads(p: Probe, readings: map<string, Option<int>>) {
    p.devicePath in readings && readings[p.devicePath].Some?
  }

  /** Every probe reads, and the logs the loop writes to are open. */
  predicate AllRead(st: State, ps: seq<Probe>, readings: map<string, Option<int>>) {
    && (Logging(st.settings) ==> st.logsOpen)
    && forall j :: 0 <= j < |ps| ==> Reads(ps[j], readings)
  }

  /** The reading of a probe that reads. */
  function MilliOf(p: Probe, readings: map<string, Option<int>>): int
    requires Reads(p, readings)
  {
    readings[p.devicePath].value
  }

  /** A cycle completes exactly when every probe reads (and the logs it needs are open). */
  lemma {:induction false} CycleCompletes(st: State, ps: seq<Probe>, readings: map<string, Option<int>>, now: int)
    ensures CycleOver(st, ps, readings, now).fault.None? <==> ps == [] || AllRead(st, ps, readings)
    decreases |ps|
  {
    if ps != [] {
      var init := ps[..|ps| - 1];
      CycleOverFaultStep(st, ps, readings, now);
      CycleCompletes(st, init, readings, now);
      AllReadLast(st, ps, readings);
    }
  }

  /** A cycle over a nonempty table completes when the cycle without its last probe does and that probe's step succeeds. */
  lemma CycleOverFaultStep(st: State, ps: seq<Probe>, readings: map<string, Option<int>>, now: int)
    requires ps != []
    ensures CycleOver(st, ps, readings, now).fault.None? <==>
              CycleOver(st, ps[..|ps| - 1], readings, now).fault.None? && Step(st, ps[|ps| - 1], readings, now).Success?
  {
  }

  lemma AllReadLast(st: State, ps: seq<Probe>, readings: map<string, Option<int>>)
    requires ps != []
    ensures AllRead(st, ps, readings) <==>
              && (ps[..|ps| - 1] == [] || AllRead(st, ps[..|ps| - 1], readings))
              && Reads(ps[|ps| - 1], readings)
              && (Logging(st.settings) ==> st.logsOpen)
  {
    var init := ps[..|ps| - 1];
    assert forall j :: 0 <= j < |init| ==> init[j] == ps[j];
  }

  /** In logging mode a complete cycle appends one line per probe, in table order, to that probe's log. */
  lemma {:induction false} CycleLogsEachProbe(st: State, ps: seq<Probe>, readings: map<string, Option<int>>, now: int)
    requires Logging(st.settings)
    requires CycleOver(st, ps, readings, now).fault.None?
    ensures var evs := CycleOver(st, ps, readings, now).events;
            && |evs| == |ps|
            && forall j :: 0 <= j < |ps| ==>
                 Reads(ps[j], readings) &&
                 evs[j] == Logged(ps[j].logPath, Stamp(now), MilliOf(ps[j], readings))
    decreases |ps|
  {
    if ps != [] {
      var init := ps[..|ps| - 1];
      CycleOverLast(st, ps, readings, now);
      CycleLogsEachProbe(st, init, readings, now);
      assert forall j :: 0 <= j < |init| ==> init[j] == ps[j];
    }
  }

  /** A complete cycle over a nonempty table is the complete cycle over all but the last probe, then its step. */
  lemma CycleOverLast(st: State, ps: seq<Probe>, readings: map<string, Option<int>>, now: int)
    requires ps != [] && CycleOver(st, ps, readings, now).fault.None?
    ensures CycleOver(st, ps[..|ps| - 1], readings, now).fault.None?
    ensures Step(st, ps[|ps| - 1], readings, now).Success?
    ensures CycleOver(st, ps, readings, now).events ==
              CycleOver(st, ps[..|ps| - 1], readings, now).events + Step(st, ps[|ps| - 1], readings, now).value
  {
  }

  /** With `-o` a step that succeeds prints the probe's name and reading. */
  lemma StepShown(st: State, p: Probe, readings: map<string, Option<int>>, now: int)
    requires st.settings.once && Step(st, p, readings, now).Success?
    ensures Reads(p, readings)
    ensures Step(st, p, readings, now).value == [Shown(p.name, MilliOf(p, readings))]
  {
  }

  /** With `-o` a complete cycle prints one line per probe, in table order, under the probe's name. */
  lemma {:induction false} CycleShowsEachProbe(st: State, ps: seq<Probe>, readings: map<string, Option<int>>, now: int)
    requires st.settings.once
    requires CycleOver(st, ps, readings, now).fault.None?
    ensures var evs := CycleOver(st, ps, readings, now).events;
            && |evs| == |ps|
            && forall j :: 0 <= j < |ps| ==>
                 Reads(ps[j], readings) &&
                 evs[j] == Shown(ps[j].name, MilliOf(ps[j], readings))
    decreases |ps|
  {
    if ps != [] {
      var init := ps[..|ps| - 1];
      CycleOverLast(st, ps, readings, now);
      StepShown(st, ps[|ps| - 1], readings, now);
      CycleShowsEachProbe(st, init, readings, now);
      ShownSnoc(ps, CycleOver(st, init, readings, now).events, readings);
    }
  }

  /** One line per probe, in order, after one more probe that reads. */
  lemma ShownSnoc(ps: seq<Probe>, evs: seq<Event>, readings: map<string, Option<int>>)
    requires ps != [] && Reads(ps[|ps| - 1], readings)
    requires |evs| == |ps| - 1
    requires forall j :: 0 <= j < |ps| - 1 ==>
               Reads(ps[..|ps| - 1][j], readings) &&
               evs[j] == Shown(ps[..|ps| - 1][j].name, MilliOf(ps[..|ps| - 1][j], readings))
    ensures var all := evs + [Shown(ps[|ps| - 1].name, MilliOf(ps[|ps| - 1], readings))];
            && |all| == |ps|
            && forall j :: 0 <= j < |ps| ==>
                 Reads(ps[j], readings) &&
                 all[j] == Shown(ps[j].name, MilliOf(ps[j], readings))
  {
    var init := ps[..|ps| - 1];
    var all := evs + [Shown(ps[|ps| - 1].name, MilliOf(ps[|ps| - 1], readings))];
    forall j | 0 <= j < |ps|
      ensures Reads(ps[j], readings) && all[j] == Shown(ps[j].name, MilliOf(ps[j], readings))
    {
      if j < |init| {
        assert init[j] == ps[j];
        assert all[j] == evs[j];
      }
    }
  }


  /**
   * What reaches the program between its start and its end: a cycle, with what each
   * device file reads as at that moment (`Readings` of the directory's files) and the
   * clock, or a SIGHUP with the log paths that can be opened at that moment.
   */
  datatype Input =
    | Tick(readings: map<string, Option<int>>, now: int)
    | Hangup(appendable: set<string>)

  /** How a run ends: still sleeping, exited after `-o`, or died. */
  datatype Stop = Waiting | Finished | Died(why: Fatal)

  datatype Trace = Trace(events: seq<Event>, stop: Stop)

  /**
   * `handle_sighup` (ds18b20.c:201-204) as written: `closelogs` calls `fclose` on every
   * log stream, whether or not `openlogs` ever ran, then `openlogs` reopens them all.
   */
  function HangupAsWritten(st: State, appendable: set<string>): (r: Result<State, Fatal>)
    ensures !st.logsOpen ==> r == Failure(CloseOfUnopenedLogs)
    ensures r.Success? ==> r.value == st
    ensures st.logsOpen ==> (r.Success? <==> forall j :: 0 <= j < |st.probes| ==> st.probes[j].logPath in appendable)
  {
    if !st.logsOpen then Failure(CloseOfUnopenedLogs)
    else
      match OpenLogs(st.probes, appendable)
      case Some(e) => Failure(e)
      case None => Success(st)
  }

  /** The handler with the evident intent: close and reopen the logs only when they are open. */
  function OnHangup(st: State, appendable: set<string>): (r: Result<State, Fatal>)
    ensures r.Success? ==> r.value == st
    ensures !st.logsOpen ==> r == Success(st)
    ensures st.logsOpen ==> r == HangupAsWritten(st, appendable)
  {
    if !st.logsOpen then Success(st) else HangupAsWritten(st, appendable)
  }

  /**
   * `-f -l` without `-o`: the startup as written leaves the logs closed, and the
   * handler as written then dies on the first SIGHUP, while the intended one carries on.
   */
  lemma HangupOfForegroundLogger(plan: Plan, host: Host, appendable: set<string>)
    requires plan.settings.foreground
    ensures StartupAsWritten(plan, host).Success?
    ensures HangupAsWritten(StartupAsWritten(plan, host).value, appendable) == Failure(CloseOfUnopenedLogs)
    ensures OnHangup(StartupAsWritten(plan, host).value, appendable) == Success(StartupAsWritten(plan, host).value)
  {
  }

  /** The SIGHUP handler a run installs: the one as written, or the intended one. */
  datatype Handler = AsWritten | Intended

  function HandleHangup(h: Handler, st: State, appendable: set<string>): (r: Result<State, Fatal>)
    ensures h.AsWritten? ==> r == HangupAsWritten(st, appendable)
    ensures h.Intended? ==> r == OnHangup(st, appendable)
  {
    if h.AsWritten? then HangupAsWritten(st, appendable) else OnHangup(st, appendable)
  }

  /**
   * The main loop (ds18b20.c:332-369) driven by `inputs`, with the SIGHUP handler `h`:
   * each tick is one cycle; with `-o` the program exits after its first cycle; any
   * fault ends the run, keeping what was written before it.
   */
  function Run(h: Handler, st: State, inputs: seq<Input>): (t: Trace)
    ensures t.stop.Finished? ==> st.settings.once
    decreases |inputs|
  {
    if inputs == [] then Trace([], Waiting)
    else
      match inputs[0]
      case Hangup(appendable) =>
        (match HandleHangup(h, st, appendable)
         case Failure(e) => Trace([], Died(e))
         case Success(next) => Run(h, next, inputs[1..]))
      case Tick(readings, now) =>
        var pass := Cycle(st, readings, now);
        if pass.fault.Some? then Trace(pass.events, Died(pass.fault.value))
        else if st.settings.once then Trace(pass.events, Finished)
        else
          var rest := Run(h, st, inputs[1..]);
          Trace(pass.events + rest.events, rest.stop)
  }

  /**
   * As written, a run whose logs were never opened dies on its first SIGHUP, handing
   * `fclose` a NULL stream; with the intended handler the same signal changes nothing.
   */
  lemma HangupWithClosedLogs(st: State, appendable: set<string>, more: seq<Input>)
    requires !st.logsOpen
    ensures Run(AsWritten, st, [Hangup(appendable)] + more) == Trace([], Died(CloseOfUnopenedLogs))
    ensures Run(Intended, st, [Hangup(appendable)] + more) == Run(Intended, st, more)
  {
    assert ([Hangup(appendable)] + more)[1..] == more;
  }

  /**
   * `-f` (with `-l`, `-r` or `-o`): as written, the startup leaves the logs closed, so
   * the program run with the handler as written dies on the first SIGHUP that arrives
   * before any cycle.
   */
  lemma ForegroundHangupDies(plan: Plan, host: Host, appendable: set<string>, more: seq<Input>)
    requires plan.settings.foreground
    ensures StartupAsWritten(plan, host).Success?
    ensures Run(AsWritten, StartupAsWritten(plan, host).value, [Hangup(appendable)] + more)
              == Trace([], Died(CloseOfUnopenedLogs))
  {
    HangupWithClosedLogs(StartupAsWritten(plan, host).value, appendable, more);
  }

  /** A state whose logs are as the loop needs them never dies writing to an unopened log. */
  lemma {:induction false} ReadyRunNeverWritesUnopened(h: Handler, st: State, inputs: seq<Input>)
    requires Ready(st)
    ensures !(Run(h, st, inputs).stop.Died? && Run(h, st, inputs).stop.why.LogNotOpen?)
    decreases |inputs|
  {
    if inputs != [] {
      match inputs[0]
      case Hangup(appendable) =>
        ReadyRunNeverWritesUnopened(h, st, inputs[1..]);
      case Tick(readings, now) =>
        CycleNeverWritesUnopened(st, st.probes, readings, now);
        ReadyRunNeverWritesUnopened(h, st, inputs[1..]);
    }
  }

  lemma {:induction false} CycleNeverWritesUnopened(st: State, ps: seq<Probe>, readings: map<string, Option<int>>, now: int)
    requires Ready(st)
    ensures !(CycleOver(st, ps, readings, now).fault.Some? && CycleOver(st, ps, readings, now).fault.value.LogNotOpen?)
    decreases |ps|
  {
    if ps != [] {
      CycleNeverWritesUnopened(st, ps[..|ps| - 1], readings, now);
    }
  }

  /** The program from its start: prepare, then start up as intended. */
  function Launch(host: Host): (r: Result<State, Fatal>)
    ensures r.Success? ==> Ready(r.value) && 0 < |r.value.probes| <= MAXPROBES
  {
    var plan :- Prepare(host);
    Startup(plan, host)
  }

  /**
   * Whatever the world does after a successful launch, the run with the intended
   * handler never writes to an unopened log and never closes logs it did not open.
   */
  lemma LaunchedRunNeverWritesUnopened(host: Host, inputs: seq<Input>)
    requires Launch(host).Success?
    ensures var t := Run(Intended, Launch(host).value, inputs);
            !(t.stop.Died? && (t.stop.why.LogNotOpen? || t.stop.why.CloseOfUnopenedLogs?))
  {
    ReadyRunNeverWritesUnopened(Intended, Launch(host).value, inputs);
    IntendedRunNeverClosesUnopened(Launch(host).value, inputs);
  }

  /** The intended handler never hands `fclose` a log that was not opened. */
  lemma {:induction false} IntendedRunNeverClosesUnopened(st: State, inputs: seq<Input>)
    ensures !(Run(Intended, st, inputs).stop.Died? && Run(Intended, st, inputs).stop.why.CloseOfUnopenedLogs?)
    decreases |inputs|
  {
    if inputs != [] {
      match inputs[0]
      case Hangup(appendable) =>
        IntendedRunNeverClosesUnopened(st, inputs[1..]);
      case Tick(readings, now) =>
        IntendedRunNeverClosesUnopened(st, inputs[1..]);
    }
  }

  /**
   * As written, `-f -l` without `-o` starts with the logs closed, and the first cycle
   * in which the first probe reads dies writing to that probe's unopened log.
   */
  lemma ForegroundLoggerDies(plan: Plan, host: Host, readings: map<string, Option<int>>, now: int, more: seq<Input>)
    requires plan.settings.foreground && plan.settings.dolog && !plan.settings.once
    requires plan.probes != [] && Reads(plan.probes[0], readings)
    ensures StartupAsWritten(plan, host).Success?
    ensures Run(AsWritten, StartupAsWritten(plan, host).value, [Tick(readings, now)] + more)
              == Trace([], Died(LogNotOpen(plan.probes[0].logPath)))
  {
    var st := StartupAsWritten(plan, host).value;
    var first := st.probes[..1];
    assert first[..|first| - 1] == [];
    assert CycleOver(st, first, readings, now) == Pass([], Some(LogNotOpen(plan.probes[0].logPath)));
    CycleOverFaultPersists(st, st.probes, 1, readings, now);
  }

  /** The intended startup opens the logs for the same settings, so that first cycle logs every probe. */
  lemma ForegroundLoggerLogs(plan: Plan, host: Host, readings: map<string, Option<int>>, now: int)
    requires plan.settings.foreground && plan.settings.dolog && !plan.settings.once
    requires Startup(plan, host).Success?
    requires AllRead(Startup(plan, host).value, plan.probes, readings)
    ensures var t := Run(Intended, Startup(plan, host).value, [Tick(readings, now)]);
            && t.stop == Waiting
            && |t.events| == |plan.probes|
            && forall j :: 0 <= j < |plan.probes| ==>
                 t.events[j] == Logged(plan.probes[j].logPath, Stamp(now), MilliOf(plan.probes[j], readings))
  {
    var st := Startup(plan, host).value;
    CycleCompletes(st, st.probes, readings, now);
    CycleLogsEachProbe(st, st.probes, readings, now);
    var pass := Cycle(st, readings, now);
    assert Run(Intended, st, [Tick(readings, now)]) == Trace(pass.events + [], Waiting);
    assert pass.events + [] == pass.events;
  }

  /** With `-o`, a first cycle in which every probe reads prints each probe once and exits. */
  lemma OnceRunShowsEachProbe(h: Handler, st: State, readings: map<string, Option<int>>, now: int, more: seq<Input>)
    requires st.settings.once
    requires AllRead(st, st.probes, readings)
    ensures var t := Run(h, st, [Tick(readings, now)] + more);
            && t.stop == Finished
            && |t.events| == |st.probes|
            && forall j :: 0 <= j < |st.probes| ==> t.events[j] == Shown(st.probes[j].name, MilliOf(st.probes[j], readings))
  {
    CycleCompletes(st, st.probes, readings, now);
    CycleShowsEachProbe(st, st.probes, readings, now);
  }

  /** Ticks only. */
  predicate AllTicks(inputs: seq<Input>) {
    forall k :: 0 <= k < |inputs| ==> inputs[k].Tick?
  }

  /** `perCycle` lines for each of `cycles` cycles, counted by addition. */
  function Lines(cycles: nat, perCycle: nat): nat
    decreases cycles
  {
    if cycles == 0 then 0 else perCycle + Lines(cycles - 1, perCycle)
  }

  lemma {:induction false} LinesProduct(cycles: nat, perCycle: nat)
    ensures Lines(cycles, perCycle) == cycles * perCycle
    decreases cycles
  {
    if cycles > 0 {
      LinesProduct(cycles - 1, perCycle);
    }
  }

  /**
   * In logging mode with the logs open, a run of cycles in which every probe reads
   * never stops and appends one line per probe per cycle.
   */
  lemma LoggingRunKeepsGoing(h: Handler, st: State, inputs: seq<Input>)
    requires Logging(st.settings) && st.logsOpen
    requires AllTicks(inputs)
    requires forall k :: 0 <= k < |inputs| ==> AllRead(st, st.probes, inputs[k].readings)
    ensures Run(h, st, inputs).stop == Waiting
    ensures |Run(h, st, inputs).events| == |inputs| * |st.probes|
  {
    LoggingRunCounts(h, st, inputs);
    LinesProduct(|inputs|, |st.probes|);
  }

  lemma {:induction false} LoggingRunCounts(h: Handler, st: State, inputs: seq<Input>)
    requires Logging(st.settings) && st.logsOpen
    requires AllTicks(inputs)
    requires forall k :: 0 <= k < |inputs| ==> AllRead(st, st.probes, inputs[k].readings)
    ensures Run(h, st, inputs).stop == Waiting
    ensures |Run(h, st, inputs).events| == Lines(|inputs|, |st.probes|)
    decreases |inputs|
  {
    if inputs != [] {
      var readings := inputs[0].readings;
      var now := inputs[0].now;
      var rest := inputs[1..];
      assert inputs[0] == Tick(readings, now);
      assert AllRead(st, st.probes, readings);
      CycleCompletes(st, st.probes, readings, now);
      CycleLogsEachProbe(st, st.probes, readings, now);
      var pass := Cycle(st, readings, now);
      assert |pass.events| == |st.probes|;
      assert forall k :: 0 <= k < |rest| ==> rest[k] == inputs[k + 1];
      LoggingRunCounts(h, st, rest);
      var later := Run(h, st, rest);
      assert Run(h, st, inputs) == Trace(pass.events + later.events, later.stop);
      assert |Run(h, st, inputs).events| == |st.probes| + |later.events|;
      assert Lines(|inputs|, |st.probes|) == |st.probes| + Lines(|rest|, |st.probes|);
    }
  }
}
