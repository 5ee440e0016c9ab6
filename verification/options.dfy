/**
 * The command line (ds18b20.c:226-262): the options `getopt` returns are laid over
 * what the configuration file set, then the output modes are checked.
 */
module Options {
  import opened Wrappers
  import opened Numbers
  import opened Config

  /**
   * One result of `getopt(argc, argv, "fvlroi:")`: the option character it returns
   * (`'?'` for an unknown option or an `-i` without its argument) and `optarg`.
   */
  datatype Opt = Opt(c: char, optarg: string)

  /** The globals `main` works with once the file is read, plus its local `once`. */
  datatype Settings = Settings(
    verbose: bool,
    dolog: bool,
    dorrd: bool,
    foreground: bool,
    once: bool,
    interval: int,
    aliases: seq<string>)

  function FromConfig(cfg: Config): (s: Settings)
    ensures !s.once
  {
    Settings(cfg.verbose, cfg.dolog, cfg.dorrd, cfg.foreground, false, cfg.interval, cfg.aliases)
  }

  /** Why the option loop exits: the usage message, or an `-i` whose `atoi` is zero. */
  datatype OptError = Usage | ZeroIntervalOption

  /** One pass of the `switch` at ds18b20.c:227-254. */
  function ApplyOpt(s: Settings, o: Opt): (r: Result<Settings, OptError>)
    ensures r.Success? ==> r.value.aliases == s.aliases
  {
    match o.c
    case 'f' => Success(s.(foreground := true))
    case 'v' => Success(s.(verbose := true))
    case 'l' => Success(s.(dolog := true))
    case 'r' => Success(s.(dorrd := true))
    case 'o' => Success(s.(once := true))
    case 'i' =>
      var seconds := Atoi(o.optarg);
      if seconds == 0 then Failure(ZeroIntervalOption) else Success(s.(interval := seconds))
    case _ => Failure(Usage)
  }

  /** The loop at ds18b20.c:226-255: every option in turn, stopping at the first bad one. */
  function Overlay(s: Settings, opts: seq<Opt>): (r: Result<Settings, OptError>)
    ensures r.Success? ==> r.value.aliases == s.aliases
    decreases |opts|
  {
    if opts == [] then Success(s)
    else
      var next :- ApplyOpt(s, opts[0]);
      Overlay(next, opts[1..])
  }

  /** An option the loop accepts. */
  predicate Accepted(o: Opt) {
    o.c in {'f', 'v', 'l', 'r', 'o'} || (o.c == 'i' && Atoi(o.optarg) != 0)
  }

  predicate Given(opts: seq<Opt>, c: char) {
    exists i :: 0 <= i < |opts| && opts[i].c == c
  }

  /** The value of the last `-i`, or `current` when there is none. */
  function LastIntervalOption(opts: seq<Opt>, current: int): int
    decreases |opts|
  {
    if opts == [] then current
    else LastIntervalOption(opts[1..], if opts[0].c == 'i' then Atoi(opts[0].optarg) else current)
  }

  lemma GivenCons(opts: seq<Opt>, c: char)
    requires opts != []
    ensures Given(opts, c) <==> opts[0].c == c || Given(opts[1..], c)
  {
    if Given(opts[1..], c) {
      var i :| 0 <= i < |opts[1..]| && opts[1..][i].c == c;
      assert opts[i + 1].c == c;
    }
  }

  /** The command line is accepted exactly when every option is. */
  lemma {:induction false} OverlayAccepts(s: Settings, opts: seq<Opt>)
    ensures Overlay(s, opts).Success? <==> forall i :: 0 <= i < |opts| ==> Accepted(opts[i])
    decreases |opts|
  {
    if opts != [] {
      var rest := opts[1..];
      assert forall i :: 1 <= i < |opts| ==> opts[i] == rest[i - 1];
      var r0 := ApplyOpt(s, opts[0]);
      assert r0.Success? <==> Accepted(opts[0]);
      if r0.Success? {
        OverlayAccepts(r0.value, rest);
      }
    }
  }

  /** What one accepted option does to each setting. */
  lemma ApplyOptStep(s: Settings, o: Opt)
    ensures ApplyOpt(s, o).Success? <==> Accepted(o)
    ensures var r := ApplyOpt(s, o);
            r.Success? ==>
              && r.value.interval == (if o.c == 'i' then Atoi(o.optarg) else s.interval)
              && (r.value.foreground <==> s.foreground || o.c == 'f')
              && (r.value.verbose <==> s.verbose || o.c == 'v')
              && (r.value.dolog <==> s.dolog || o.c == 'l')
              && (r.value.dorrd <==> s.dorrd || o.c == 'r')
              && (r.value.once <==> s.once || o.c == 'o')
  {
  }

  /** An accepted command line sets each flag the file set or some option names. */
  lemma {:induction false} OverlayFlags(s: Settings, opts: seq<Opt>)
    requires Overlay(s, opts).Success?
    ensures var r := Overlay(s, opts).value;
            && (r.foreground <==> s.foreground || Given(opts, 'f'))
            && (r.verbose <==> s.verbose || Given(opts, 'v'))
            && (r.dolog <==> s.dolog || Given(opts, 'l'))
            && (r.dorrd <==> s.dorrd || Given(opts, 'r'))
            && (r.once <==> s.once || Given(opts, 'o'))
    decreases |opts|
  {
    if opts != [] {
      var r0 := ApplyOpt(s, opts[0]);
      ApplyOptStep(s, opts[0]);
      assert Overlay(s, opts) == Overlay(r0.value, opts[1..]);
      OverlayFlags(r0.value, opts[1..]);
      GivenCons(opts, 'f');
      GivenCons(opts, 'v');
      GivenCons(opts, 'l');
      GivenCons(opts, 'r');
      GivenCons(opts, 'o');
    }
  }

  /** An accepted command line's last `-i` overrides the file's interval. */
  lemma {:induction false} OverlayInterval(s: Settings, opts: seq<Opt>)
    requires Overlay(s, opts).Success?
    ensures Overlay(s, opts).value.interval == LastIntervalOption(opts, s.interval)
    decreases |opts|
  {
    if opts != [] {
      var r0 := ApplyOpt(s, opts[0]);
      ApplyOptStep(s, opts[0]);
      assert Overlay(s, opts) == Overlay(r0.value, opts[1..]);
      OverlayInterval(r0.value, opts[1..]);
    }
  }

  /**
   * ds18b20.c:257-262: with no logging, no RRD and no `-o` there is nothing to do and
   * the program exits (`None`); `-o` forces the foreground. Nothing else changes.
   */
  function ResolveModes(s: Settings): (r: Option<Settings>)
    ensures r.None? <==> !s.dolog && !s.dorrd && !s.once
    ensures r.Some? ==> (r.value.foreground <==> s.foreground || s.once)
    ensures r.Some? ==> r.value.(foreground := s.foreground) == s
  {
    if !s.dolog && !s.dorrd && !s.once then None
    else if s.once then Some(s.(foreground := true))
    else Some(s)
  }

  /** Checking the modes twice changes nothing: the result already passes the check unchanged. */
  lemma ResolveModesIdempotent(s: Settings)
    requires ResolveModes(s).Some?
    ensures ResolveModes(ResolveModes(s).value) == ResolveModes(s)
    ensures ResolveModes(s).value.once ==> ResolveModes(s).value.foreground
  {
  }
}
