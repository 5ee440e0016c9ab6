/**
 * The configuration file reader (`ParseCfg`, ds18b20.c:53-125): a fold over the
 * file's lines that sets flags, the sampling interval and the alias table, or stops
 * the program at the first bad line.
 */
module Config {
  import opened Wrappers
  import opened CString
  import opened Numbers
  import opened Defs
  import opened Aliases

  /** The globals `ParseCfg` writes. */
  datatype Config = Config(
    verbose: bool,
    dolog: bool,
    dorrd: bool,
    foreground: bool,
    interval: int,
    aliases: seq<string>)

  /** What `main` puts in those globals before it reads the file (ds18b20.c:221-222). */
  const Defaults: Config := Config(false, false, false, false, DEFAULT_INTERVAL, [])

  /** Longest line `fgets(cfgline, sizeof(cfgline)-1, ...)` hands back. */
  const MAX_CFG_LINE: nat := BUFSIZE - 2

  /** Why the program exits while reading the file; `line` counts from 1 and includes comment lines. */
  datatype CfgError =
    | SyntaxError(line: nat)
    | UnknownKey(key: string, line: nat)
    | ZeroInterval(line: nat)
    | TooManyAliases(line: nat)

  datatype LineError = Syntax | Unknown(key: string) | IntervalIsZero

  /** What one line asks for, independently of the lines before it. */
  datatype Directive =
    | Skip
    | SetVerbose
    | SetLog
    | SetRrd
    | SetForeground
    | SetInterval(seconds: int)
    | AddAlias(entry: string)
    | Reject(why: LineError)

  /** The key is split off with `strtok(cfgline, " \t")`. */
  const Blanks: set<char> := {' ', '\t'}

  /** Lines skipped whole: first character `#`, `;` or a newline (ds18b20.c:72). */
  predicate IsCommentLine(line: string) {
    |line| > 0 && (line[0] == '#' || line[0] == '\n' || line[0] == ';')
  }

  predicate EndsText(c: char) {
    c == NUL || c == '#' || c == ';'
  }

  /**
   * The line as `strtok` sees it: ds18b20.c:76-80 overwrites every `#` and `;` with
   * NUL, so the string ends at the first of them (or at a NUL already in the buffer).
   */
  function Uncommented(line: string): (s: string)
    ensures s <= line
    ensures forall j :: 0 <= j < |s| ==> !EndsText(s[j])
    ensures |s| < |line| ==> EndsText(line[|s|])
  {
    if line == [] || EndsText(line[0]) then [] else [line[0]] + Uncommented(line[1..])
  }

  function KeyTok(line: string): Tok {
    Strtok(Uncommented(line), 0, Blanks)
  }

  /** `strncasecmp(key, kw, sizeof(cfgline)-1) == 0` for the line's key. */
  predicate KeyIs(line: string, kw: string) {
    var key := KeyTok(line);
    key.Token? && CaseEqN(key.text, kw, BUFSIZE - 1)
  }

  predicate IsKeyword(key: string) {
    || CaseEqN(key, "VERBOSE", BUFSIZE - 1)
    || CaseEqN(key, "LOG", BUFSIZE - 1)
    || CaseEqN(key, "RRD", BUFSIZE - 1)
    || CaseEqN(key, "FOREGROUND", BUFSIZE - 1)
    || CaseEqN(key, "INTERVAL", BUFSIZE - 1)
    || CaseEqN(key, "ALIAS", BUFSIZE - 1)
  }

  /** `value1 = strtok(NULL, "\n")` after an `INTERVAL` key. */
  function IntervalTok(line: string): Tok {
    var s := Uncommented(line);
    Strtok(s, KeyTok(line).next, {'\n'})
  }

  /** `value1 = strtok(NULL, " ")` after an `ALIAS` key. */
  function AliasFirstTok(line: string): Tok {
    var s := Uncommented(line);
    Strtok(s, KeyTok(line).next, {' '})
  }

  /** `value2 = strtok(NULL, "\n")` after `value1`. */
  function AliasSecondTok(line: string): Tok {
    var s := Uncommented(line);
    Strtok(s, AliasFirstTok(line).next, {'\n'})
  }

  /** Two keywords a key can both match have the same length and initial, up to case. */
  lemma CaseEqBoth(key: string, a: string, b: string)
    requires 0 < |a| < BUFSIZE - 1 && 0 < |b| < BUFSIZE - 1
    requires CaseEqN(key, a, BUFSIZE - 1) && CaseEqN(key, b, BUFSIZE - 1)
    ensures |a| == |b| && ToLower(a[0]) == ToLower(b[0])
  {
    CaseEqNShort(key, a, BUFSIZE - 1);
    CaseEqNShort(key, b, BUFSIZE - 1);
    assert Lower(a)[0] == Lower(b)[0];
  }

  /** No key matches two keywords. */
  lemma KeywordsExclusive(k: string)
    ensures CaseEqN(k, "LOG", BUFSIZE - 1) ==> !CaseEqN(k, "VERBOSE", BUFSIZE - 1)
    ensures CaseEqN(k, "RRD", BUFSIZE - 1) ==>
              !CaseEqN(k, "VERBOSE", BUFSIZE - 1) && !CaseEqN(k, "LOG", BUFSIZE - 1)
    ensures CaseEqN(k, "FOREGROUND", BUFSIZE - 1) ==>
              !CaseEqN(k, "VERBOSE", BUFSIZE - 1) && !CaseEqN(k, "LOG", BUFSIZE - 1)
              && !CaseEqN(k, "RRD", BUFSIZE - 1)
    ensures CaseEqN(k, "INTERVAL", BUFSIZE - 1) ==>
              !CaseEqN(k, "VERBOSE", BUFSIZE - 1) && !CaseEqN(k, "LOG", BUFSIZE - 1)
              && !CaseEqN(k, "RRD", BUFSIZE - 1) && !CaseEqN(k, "FOREGROUND", BUFSIZE - 1)
    ensures CaseEqN(k, "ALIAS", BUFSIZE - 1) ==>
              !CaseEqN(k, "VERBOSE", BUFSIZE - 1) && !CaseEqN(k, "LOG", BUFSIZE - 1)
              && !CaseEqN(k, "RRD", BUFSIZE - 1) && !CaseEqN(k, "FOREGROUND", BUFSIZE - 1)
              && !CaseEqN(k, "INTERVAL", BUFSIZE - 1)
  {
    var n := BUFSIZE - 1;
    if CaseEqN(k, "LOG", n) {
      if CaseEqN(k, "VERBOSE", n) { CaseEqBoth(k, "LOG", "VERBOSE"); }
    }
    if CaseEqN(k, "RRD", n) {
      if CaseEqN(k, "VERBOSE", n) { CaseEqBoth(k, "RRD", "VERBOSE"); }
      if CaseEqN(k, "LOG", n) { CaseEqBoth(k, "RRD", "LOG"); }
    }
    if CaseEqN(k, "FOREGROUND", n) {
      if CaseEqN(k, "VERBOSE", n) { CaseEqBoth(k, "FOREGROUND", "VERBOSE"); }
      if CaseEqN(k, "LOG", n) { CaseEqBoth(k, "FOREGROUND", "LOG"); }
      if CaseEqN(k, "RRD", n) { CaseEqBoth(k, "FOREGROUND", "RRD"); }
    }
    if CaseEqN(k, "INTERVAL", n) {
      if CaseEqN(k, "VERBOSE", n) { CaseEqBoth(k, "INTERVAL", "VERBOSE"); }
      if CaseEqN(k, "LOG", n) { CaseEqBoth(k, "INTERVAL", "LOG"); }
      if CaseEqN(k, "RRD", n) { CaseEqBoth(k, "INTERVAL", "RRD"); }
      if CaseEqN(k, "FOREGROUND", n) { CaseEqBoth(k, "INTERVAL", "FOREGROUND"); }
    }
    if CaseEqN(k, "ALIAS", n) {
      if CaseEqN(k, "VERBOSE", n) { CaseEqBoth(k, "ALIAS", "VERBOSE"); }
      if CaseEqN(k, "LOG", n) { CaseEqBoth(k, "ALIAS", "LOG"); }
      if CaseEqN(k, "RRD", n) { CaseEqBoth(k, "ALIAS", "RRD"); }
      if CaseEqN(k, "FOREGROUND", n) { CaseEqBoth(k, "ALIAS", "FOREGROUND"); }
      if CaseEqN(k, "INTERVAL", n) { CaseEqBoth(k, "ALIAS", "INTERVAL"); }
    }
  }

  datatype Keyword = KwVerbose | KwLog | KwRrd | KwForeground | KwInterval | KwAlias | NotAKeyword

  /**
   * The chain of `strncasecmp` tests at ds18b20.c:88-117. Each keyword is matched
   * exactly, ignoring case, and no key matches two of them.
   */
  function KeywordOf(key: string): (kw: Keyword)
    ensures kw == KwVerbose <==> CaseEqN(key, "VERBOSE", BUFSIZE - 1)
    ensures kw == KwLog <==> CaseEqN(key, "LOG", BUFSIZE - 1)
    ensures kw == KwRrd <==> CaseEqN(key, "RRD", BUFSIZE - 1)
    ensures kw == KwForeground <==> CaseEqN(key, "FOREGROUND", BUFSIZE - 1)
    ensures kw == KwInterval <==> CaseEqN(key, "INTERVAL", BUFSIZE - 1)
    ensures kw == KwAlias <==> CaseEqN(key, "ALIAS", BUFSIZE - 1)
    ensures kw == NotAKeyword <==> !IsKeyword(key)
  {
    KeywordsExclusive(key);
    if CaseEqN(key, "VERBOSE", BUFSIZE - 1) then KwVerbose
    else if CaseEqN(key, "LOG", BUFSIZE - 1) then KwLog
    else if CaseEqN(key, "RRD", BUFSIZE - 1) then KwRrd
    else if CaseEqN(key, "FOREGROUND", BUFSIZE - 1) then KwForeground
    else if CaseEqN(key, "INTERVAL", BUFSIZE - 1) then KwInterval
    else if CaseEqN(key, "ALIAS", BUFSIZE - 1) then KwAlias
    else NotAKeyword
  }

  /** ds18b20.c:72-120 for one line, before it touches any global. */
  function Classify(line: string): (d: Directive)
    ensures d.Skip? <==> IsCommentLine(line)
    ensures d.SetInterval? ==> d.seconds != 0 && INT_MIN <= d.seconds <= INT_MAX
    ensures d.AddAlias? ==> |d.entry| <= MAX_CFG_LINE
    ensures d.AddAlias? ==>
              && AliasFirstTok(line).Token? && AliasSecondTok(line).Token?
              && d.entry == Join(AliasFirstTok(line).text, AliasSecondTok(line).text)
  {
    if IsCommentLine(line) then Skip
    else
      var key := KeyTok(line);
      if key.NoToken? then Reject(Syntax)
      else
        match KeywordOf(key.text)
        case KwVerbose => SetVerbose
        case KwLog => SetLog
        case KwRrd => SetRrd
        case KwForeground => SetForeground
        case KwInterval => IntervalDirective(line)
        case KwAlias => AliasDirective(line)
        case NotAKeyword => Reject(Unknown(key.text))
  }

  /** The value of an `INTERVAL` line (ds18b20.c:96-107). */
  function IntervalDirective(line: string): (d: Directive)
    ensures d.SetInterval? || d == Reject(Syntax) || d == Reject(IntervalIsZero)
    ensures d == Reject(Syntax) <==> IntervalTok(line).NoToken?
    ensures d == Reject(IntervalIsZero) <==> IntervalTok(line).Token? && Atoi(IntervalTok(line).text) == 0
    ensures d.SetInterval? ==> d.seconds == Atoi(IntervalTok(line).text)
    ensures d.SetInterval? ==> d.seconds != 0 && INT_MIN <= d.seconds <= INT_MAX
  {
    var value := IntervalTok(line);
    if value.NoToken? then Reject(Syntax)
    else if Atoi(value.text) == 0 then Reject(IntervalIsZero)
    else SetInterval(Atoi(value.text))
  }

  /** The entry of an `ALIAS` line (ds18b20.c:108-116). */
  function AliasDirective(line: string): (d: Directive)
    ensures d.AddAlias? || d == Reject(Syntax)
    ensures d.AddAlias? <==> AliasFirstTok(line).Token? && AliasSecondTok(line).Token?
    ensures d.AddAlias? ==> |d.entry| <= MAX_CFG_LINE
    ensures d.AddAlias? ==>
              && AliasFirstTok(line).Token? && AliasSecondTok(line).Token?
              && d.entry == Join(AliasFirstTok(line).text, AliasSecondTok(line).text)
  {
    var v1 := AliasFirstTok(line);
    var v2 := AliasSecondTok(line);
    if v1.NoToken? || v2.NoToken? then Reject(Syntax)
    else AddAlias(Join(v1.text, v2.text))
  }

  /** Which branch of the keyword chain a line with a key takes. */
  lemma ClassifyKeyword(line: string)
    requires !IsCommentLine(line)
    ensures KeyIs(line, "INTERVAL") ==> Classify(line) == IntervalDirective(line)
    ensures KeyIs(line, "ALIAS") ==> Classify(line) == AliasDirective(line)
  {
    var key := KeyTok(line);
    if key.Token? {
      var kw := KeywordOf(key.text);
    }
  }

  /** What one directive does to the globals (ds18b20.c:88-119); `n` is the line number. */
  function Apply(cfg: Config, d: Directive, n: nat): (r: Result<Config, CfgError>)
    ensures r.Success? <==> !d.Reject? && (d.AddAlias? ==> |cfg.aliases| < MAXPROBES)
    ensures r.Failure? ==> r.error.line == n
  {
    match d
    case Skip => Success(cfg)
    case SetVerbose => Success(cfg.(verbose := true))
    case SetLog => Success(cfg.(dolog := true))
    case SetRrd => Success(cfg.(dorrd := true))
    case SetForeground => Success(cfg.(foreground := true))
    case SetInterval(seconds) => Success(cfg.(interval := seconds))
    case AddAlias(entry) =>
      // alias[] has MAXPROBES slots; the source writes past them, the model stops instead.
      if |cfg.aliases| < MAXPROBES then Success(cfg.(aliases := cfg.aliases + [entry]))
      else Failure(TooManyAliases(n))
    case Reject(Syntax) => Failure(SyntaxError(n))
    case Reject(Unknown(key)) => Failure(UnknownKey(key, n))
    case Reject(IntervalIsZero) => Failure(ZeroInterval(n))
  }

  /** One iteration of the loop at ds18b20.c:70-123; `n` is the line number. */
  function ParseLine(cfg: Config, line: string, n: nat): (r: Result<Config, CfgError>)
    ensures IsCommentLine(line) ==> r == Success(cfg)
    ensures r.Failure? ==> r.error.line == n
  {
    Apply(cfg, Classify(line), n)
  }

  /**
   * A line with no key once the comment is cut off is a syntax error; a flag keyword
   * sets its own flag and nothing else (ds18b20.c:82-95).
   */
  lemma ParseLineFlags(cfg: Config, line: string, n: nat)
    requires !IsCommentLine(line)
    ensures AllIn(Uncommented(line), Blanks) ==> ParseLine(cfg, line, n) == Failure(SyntaxError(n))
    ensures KeyIs(line, "VERBOSE") ==> ParseLine(cfg, line, n) == Success(cfg.(verbose := true))
    ensures KeyIs(line, "LOG") ==> ParseLine(cfg, line, n) == Success(cfg.(dolog := true))
    ensures KeyIs(line, "RRD") ==> ParseLine(cfg, line, n) == Success(cfg.(dorrd := true))
    ensures KeyIs(line, "FOREGROUND") ==> ParseLine(cfg, line, n) == Success(cfg.(foreground := true))
  {
    var key := KeyTok(line);
    if key.Token? {
      var kw := KeywordOf(key.text);
    }
  }

  /** `INTERVAL` needs a value whose `atoi` is not zero, and then replaces the interval (ds18b20.c:96-107). */
  lemma ParseLineInterval(cfg: Config, line: string, n: nat)
    requires !IsCommentLine(line) && KeyIs(line, "INTERVAL")
    ensures IntervalTok(line).NoToken? ==> ParseLine(cfg, line, n) == Failure(SyntaxError(n))
    ensures IntervalTok(line).Token? && Atoi(IntervalTok(line).text) == 0 ==>
              ParseLine(cfg, line, n) == Failure(ZeroInterval(n))
    ensures IntervalTok(line).Token? && Atoi(IntervalTok(line).text) != 0 ==>
              ParseLine(cfg, line, n) == Success(cfg.(interval := Atoi(IntervalTok(line).text)))
  {
    ClassifyKeyword(line);
    IntervalOutcome(cfg, line, n);
  }

  lemma IntervalOutcome(cfg: Config, line: string, n: nat)
    ensures IntervalTok(line).NoToken? ==> Apply(cfg, IntervalDirective(line), n) == Failure(SyntaxError(n))
    ensures IntervalTok(line).Token? && Atoi(IntervalTok(line).text) == 0 ==>
              Apply(cfg, IntervalDirective(line), n) == Failure(ZeroInterval(n))
    ensures IntervalTok(line).Token? && Atoi(IntervalTok(line).text) != 0 ==>
              Apply(cfg, IntervalDirective(line), n) == Success(cfg.(interval := Atoi(IntervalTok(line).text)))
  {
    var tok := IntervalTok(line);
    if tok.NoToken? {
      assert IntervalDirective(line) == Reject(Syntax);
      ApplyInterval(cfg, 0, n);
    } else if Atoi(tok.text) == 0 {
      assert IntervalDirective(line) == Reject(IntervalIsZero);
      ApplyInterval(cfg, 0, n);
    } else {
      var seconds := Atoi(tok.text);
      assert IntervalDirective(line) == SetInterval(seconds);
      ApplyInterval(cfg, seconds, n);
    }
  }

  /** The three outcomes of an `INTERVAL` line on the globals. */
  lemma ApplyInterval(cfg: Config, seconds: int, n: nat)
    ensures Apply(cfg, Reject(Syntax), n) == Failure(SyntaxError(n))
    ensures Apply(cfg, Reject(IntervalIsZero), n) == Failure(ZeroInterval(n))
    ensures Apply(cfg, SetInterval(seconds), n) == Success(cfg.(interval := seconds))
  {
  }

  /**
   * `ALIAS` needs two fields and appends their joined text after the earlier
   * aliases; a sixth alias stops the program (ds18b20.c:108-116).
   */
  lemma ParseLineAlias(cfg: Config, line: string, n: nat)
    requires !IsCommentLine(line) && KeyIs(line, "ALIAS")
    ensures AliasFirstTok(line).NoToken? || AliasSecondTok(line).NoToken? ==>
              ParseLine(cfg, line, n) == Failure(SyntaxError(n))
    ensures AliasFirstTok(line).Token? && AliasSecondTok(line).Token? && |cfg.aliases| >= MAXPROBES ==>
              ParseLine(cfg, line, n) == Failure(TooManyAliases(n))
    ensures AliasFirstTok(line).Token? && AliasSecondTok(line).Token? && |cfg.aliases| < MAXPROBES ==>
              ParseLine(cfg, line, n) ==
                Success(cfg.(aliases := cfg.aliases + [Join(AliasFirstTok(line).text, AliasSecondTok(line).text)]))
  {
    ClassifyKeyword(line);
    AliasOutcome(cfg, line, n);
  }

  lemma AliasOutcome(cfg: Config, line: string, n: nat)
    ensures AliasFirstTok(line).NoToken? || AliasSecondTok(line).NoToken? ==>
              Apply(cfg, AliasDirective(line), n) == Failure(SyntaxError(n))
    ensures AliasFirstTok(line).Token? && AliasSecondTok(line).Token? && |cfg.aliases| >= MAXPROBES ==>
              Apply(cfg, AliasDirective(line), n) == Failure(TooManyAliases(n))
    ensures AliasFirstTok(line).Token? && AliasSecondTok(line).Token? && |cfg.aliases| < MAXPROBES ==>
              Apply(cfg, AliasDirective(line), n) ==
                Success(cfg.(aliases := cfg.aliases + [Join(AliasFirstTok(line).text, AliasSecondTok(line).text)]))
  {
    var v1 := AliasFirstTok(line);
    var v2 := AliasSecondTok(line);
    if v1.NoToken? || v2.NoToken? {
      assert AliasDirective(line) == Reject(Syntax);
      ApplyAlias(cfg, [], n);
    } else {
      var entry := Join(v1.text, v2.text);
      assert AliasDirective(line) == AddAlias(entry);
      ApplyAlias(cfg, entry, n);
    }
  }

  /** The three outcomes of an `ALIAS` line on the globals. */
  lemma ApplyAlias(cfg: Config, entry: string, n: nat)
    ensures Apply(cfg, Reject(Syntax), n) == Failure(SyntaxError(n))
    ensures |cfg.aliases| >= MAXPROBES ==> Apply(cfg, AddAlias(entry), n) == Failure(TooManyAliases(n))
    ensures |cfg.aliases| < MAXPROBES ==> Apply(cfg, AddAlias(entry), n) == Success(cfg.(aliases := cfg.aliases + [entry]))
  {
  }

  /** Any other key stops the program (ds18b20.c:117-119). */
  lemma ParseLineUnknown(cfg: Config, line: string, n: nat)
    requires !IsCommentLine(line) && KeyTok(line).Token? && !IsKeyword(KeyTok(line).text)
    ensures ParseLine(cfg, line, n) == Failure(UnknownKey(KeyTok(line).text, n))
  {
    var key := KeyTok(line);
    assert KeywordOf(key.text) == NotAKeyword;
    var d := Classify(line);
    assert d == Reject(Unknown(key.text));
  }

  /** The directive of every line of a file, in order. */
  function Directives(lines: seq<string>): (ds: seq<Directive>)
    ensures |ds| == |lines|
    ensures forall i :: 0 <= i < |lines| ==> ds[i] == Classify(lines[i])
  {
    seq(|lines|, i requires 0 <= i < |lines| => Classify(lines[i]))
  }

  /**
   * The loop at ds18b20.c:70-123 from line number `n` on. A line's directive does not
   * depend on the lines before it, so the loop is a fold of `Apply` over the directives
   * that stops at the first failure.
   */
  function ApplyAll(cfg: Config, ds: seq<Directive>, n: nat): (r: Result<Config, CfgError>)
    ensures r.Failure? ==> n <= r.error.line < n + |ds|
    decreases |ds|
  {
    if ds == [] then Success(cfg)
    else
      var next :- Apply(cfg, ds[0], n);
      ApplyAll(next, ds[1..], n + 1)
  }

  /** The lines the loop at ds18b20.c:70 reads: `fgets` pieces of at most `MAX_CFG_LINE` characters. */
  function CfgLines(text: string): (lines: seq<string>)
    ensures forall i :: 0 <= i < |lines| ==> 0 < |lines[i]| <= MAX_CFG_LINE
  {
    Chunks(text, 0, BUFSIZE - 1)
  }

  /**
   * `ParseCfg` on a file that opened, given its text; lines are numbered from 1. From a
   * table that fits, the file is accepted exactly when no line is rejected on its own
   * and the table still holds every alias the file adds.
   */
  function ParseCfg(cfg: Config, text: string): (r: Result<Config, CfgError>)
    ensures r.Failure? ==> 1 <= r.error.line <= |CfgLines(text)|
    ensures |cfg.aliases| <= MAXPROBES ==>
              (r.Success? <==> AllAccepted(Directives(CfgLines(text)))
                               && |cfg.aliases| + |AliasEntries(Directives(CfgLines(text)))| <= MAXPROBES)
  {
    var ds := Directives(CfgLines(text));
    if |cfg.aliases| <= MAXPROBES then
      ApplyAllAccepts(cfg, ds, 1);
      ApplyAll(cfg, ds, 1)
    else ApplyAll(cfg, ds, 1)
  }

  /** The alias entries a file stores, in file order, read off the directives without the fold. */
  function AliasEntries(ds: seq<Directive>): seq<string>
    decreases |ds|
  {
    if ds == [] then []
    else (if ds[0].AddAlias? then [ds[0].entry] else []) + AliasEntries(ds[1..])
  }

  /** The value of the last `INTERVAL` directive, or `current` when there is none. */
  function LastInterval(ds: seq<Directive>, current: int): int
    decreases |ds|
  {
    if ds == [] then current
    else LastInterval(ds[1..], if ds[0].SetInterval? then ds[0].seconds else current)
  }

  /** No line of the file is rejected on its own. */
  predicate AllAccepted(ds: seq<Directive>) {
    forall i :: 0 <= i < |ds| ==> !ds[i].Reject?
  }

  predicate Mentions(ds: seq<Directive>, d: Directive) {
    exists i :: 0 <= i < |ds| && ds[i] == d
  }

  /**
   * Starting from a table that fits, the file is accepted exactly when no line is
   * rejected and the table still holds every alias the file adds.
   */
  lemma {:induction false} ApplyAllAccepts(cfg: Config, ds: seq<Directive>, n: nat)
    requires |cfg.aliases| <= MAXPROBES
    ensures ApplyAll(cfg, ds, n).Success? <==>
              AllAccepted(ds) && |cfg.aliases| + |AliasEntries(ds)| <= MAXPROBES
    decreases |ds|
  {
    if ds != [] {
      var rest := ds[1..];
      assert AllAccepted(ds) <==> !ds[0].Reject? && AllAccepted(rest) by {
        assert forall i :: 1 <= i < |ds| ==> ds[i] == rest[i - 1];
      }
      var own := if ds[0].AddAlias? then 1 else 0;
      assert |AliasEntries(ds)| == own + |AliasEntries(rest)|;
      var r0 := Apply(cfg, ds[0], n);
      if r0.Success? {
        ApplyAllAccepts(r0.value, rest, n + 1);
        assert ApplyAll(cfg, ds, n) == ApplyAll(r0.value, rest, n + 1);
        assert !ds[0].Reject?;
        assert ds[0].AddAlias? ==> |cfg.aliases| < MAXPROBES;
        assert |r0.value.aliases| == |cfg.aliases| + own;
      } else {
        assert ApplyAll(cfg, ds, n).Failure?;
        assert ds[0].Reject? || (ds[0].AddAlias? && |cfg.aliases| >= MAXPROBES);
      }
    }
  }

  /** An accepted file's aliases follow the earlier ones, in file order. */
  lemma {:induction false} ApplyAllAliases(cfg: Config, ds: seq<Directive>, n: nat)
    requires ApplyAll(cfg, ds, n).Success?
    ensures ApplyAll(cfg, ds, n).value.aliases == cfg.aliases + AliasEntries(ds)
    decreases |ds|
  {
    if ds != [] {
      var r0 := Apply(cfg, ds[0], n);
      ApplyStep(cfg, ds[0], n);
      assert ApplyAll(cfg, ds, n) == ApplyAll(r0.value, ds[1..], n + 1);
      ApplyAllAliases(r0.value, ds[1..], n + 1);
    }
  }

  /** An accepted file's interval is the last one it gives, or the earlier one. */
  lemma {:induction false} ApplyAllInterval(cfg: Config, ds: seq<Directive>, n: nat)
    requires ApplyAll(cfg, ds, n).Success?
    ensures ApplyAll(cfg, ds, n).value.interval == LastInterval(ds, cfg.interval)
    decreases |ds|
  {
    if ds != [] {
      var r0 := Apply(cfg, ds[0], n);
      ApplyStep(cfg, ds[0], n);
      assert ApplyAll(cfg, ds, n) == ApplyAll(r0.value, ds[1..], n + 1);
      ApplyAllInterval(r0.value, ds[1..], n + 1);
    }
  }

  lemma MentionsCons(ds: seq<Directive>, x: Directive)
    requires ds != []
    ensures Mentions(ds, x) <==> ds[0] == x || Mentions(ds[1..], x)
  {
    if Mentions(ds[1..], x) {
      var i :| 0 <= i < |ds[1..]| && ds[1..][i] == x;
      assert ds[i + 1] == x;
    }
  }

  /**
   * After an accepted file a flag is set exactly when it was set before or some
   * line names it; no line clears a flag.
   */
  lemma {:induction false} ApplyAllFlags(cfg: Config, ds: seq<Directive>, n: nat)
    requires ApplyAll(cfg, ds, n).Success?
    ensures var c := ApplyAll(cfg, ds, n).value;
            && (c.verbose <==> cfg.verbose || Mentions(ds, SetVerbose))
            && (c.dolog <==> cfg.dolog || Mentions(ds, SetLog))
            && (c.dorrd <==> cfg.dorrd || Mentions(ds, SetRrd))
            && (c.foreground <==> cfg.foreground || Mentions(ds, SetForeground))
    decreases |ds|
  {
    if ds != [] {
      var r0 := Apply(cfg, ds[0], n);
      ApplyStep(cfg, ds[0], n);
      assert ApplyAll(cfg, ds, n) == ApplyAll(r0.value, ds[1..], n + 1);
      ApplyAllFlags(r0.value, ds[1..], n + 1);
      MentionsCons(ds, SetVerbose);
      MentionsCons(ds, SetLog);
      MentionsCons(ds, SetRrd);
      MentionsCons(ds, SetForeground);
    }
  }

  /** The fold stops at the first directive that is rejected or adds one alias too many. */
  lemma {:induction false} ApplyAllStopsAtFirstFault(cfg: Config, ds: seq<Directive>, n: nat)
    requires ApplyAll(cfg, ds, n).Failure?
    ensures var k := ApplyAll(cfg, ds, n).error.line - n;
            && 0 <= k < |ds|
            && AllAccepted(ds[..k])
            && (|| ds[k].Reject?
                || (ds[k].AddAlias? && |cfg.aliases| + |AliasEntries(ds[..k])| >= MAXPROBES))
    decreases |ds|
  {
    var r0 := Apply(cfg, ds[0], n);
    ApplyStep(cfg, ds[0], n);
    if r0.Success? {
      var rest := ds[1..];
      assert ApplyAll(cfg, ds, n) == ApplyAll(r0.value, rest, n + 1);
      ApplyAllStopsAtFirstFault(r0.value, rest, n + 1);
      var k := ApplyAll(cfg, ds, n).error.line - n;
      PrefixStep(ds, k);
      assert ds[k] == rest[k - 1];
    } else {
      assert ds[..0] == [];
      assert AliasEntries(ds[..0]) == [];
    }
  }

  /** What one directive does to the size of the alias table, and when it fails. */
  lemma ApplyStep(cfg: Config, d: Directive, n: nat)
    ensures var r := Apply(cfg, d, n);
            && (r.Success? <==> !d.Reject? && (d.AddAlias? ==> |cfg.aliases| < MAXPROBES))
            && (r.Success? ==> |r.value.aliases| == |cfg.aliases| + (if d.AddAlias? then 1 else 0))
    ensures var r := Apply(cfg, d, n);
            r.Success? ==>
              && r.value.aliases == cfg.aliases + (if d.AddAlias? then [d.entry] else [])
              && r.value.interval == (if d.SetInterval? then d.seconds else cfg.interval)
              && (r.value.verbose <==> cfg.verbose || d == SetVerbose)
              && (r.value.dolog <==> cfg.dolog || d == SetLog)
              && (r.value.dorrd <==> cfg.dorrd || d == SetRrd)
              && (r.value.foreground <==> cfg.foreground || d == SetForeground)
  {
  }

  /** A prefix of one more directive: its first one, then a prefix of the rest. */
  lemma PrefixStep(ds: seq<Directive>, k: nat)
    requires 1 <= k <= |ds|
    ensures AllAccepted(ds[..k]) <==> !ds[0].Reject? && AllAccepted(ds[1..][..k - 1])
    ensures |AliasEntries(ds[..k])| == (if ds[0].AddAlias? then 1 else 0) + |AliasEntries(ds[1..][..k - 1])|
  {
    var p := ds[..k];
    assert p[1..] == ds[1..][..k - 1];
    assert forall i :: 1 <= i < k ==> p[i] == p[1..][i - 1];
  }

  /** Every entry `AliasEntries` lists comes from an `ALIAS` directive. */
  lemma {:induction false} AliasEntriesFromDirectives(ds: seq<Directive>)
    ensures forall e :: e in AliasEntries(ds) ==> exists i :: 0 <= i < |ds| && ds[i] == AddAlias(e)
    decreases |ds|
  {
    if ds != [] {
      AliasEntriesFromDirectives(ds[1..]);
      forall e | e in AliasEntries(ds[1..]) ensures exists i :: 0 <= i < |ds| && ds[i] == AddAlias(e) {
        var i :| 0 <= i < |ds[1..]| && ds[1..][i] == AddAlias(e);
        assert ds[i + 1] == AddAlias(e);
      }
    }
  }

  /**
   * An alias stored from a line `fgets` can return splits back into the two fields
   * the line held (ds18b20.c:109-115 against ds18b20.c:147-149).
   */
  lemma AliasLineRoundTrip(line: string)
    requires |line| <= MAX_CFG_LINE
    requires Classify(line).AddAlias?
    ensures Split(Classify(line).entry) == Some(Pair(AliasFirstTok(line).text, AliasSecondTok(line).text))
  {
    var s := Uncommented(line);
    var v1 := AliasFirstTok(line);
    var v2 := AliasSecondTok(line);
    assert v1.Token? && v2.Token?;
    assert v1.at + |v1.text| < |s|;
    assert ' ' !in v1.text by {
      assert forall j :: 0 <= j < |v1.text| ==> v1.text[j] != ' ';
    }
    assert '\n' !in v2.text by {
      assert forall j :: 0 <= j < |v2.text| ==> v2.text[j] != '\n';
    }
    SplitJoin(v1.text, v2.text);
  }

  /** Every alias a configuration file stores can be split by `findprobes`. */
  lemma StoredAliasesSplit(text: string)
    ensures forall e :: e in AliasEntries(Directives(CfgLines(text))) ==> Splits(e)
  {
    var lines := CfgLines(text);
    var ds := Directives(lines);
    AliasEntriesFromDirectives(ds);
    forall e | e in AliasEntries(ds) ensures Splits(e) {
      var i :| 0 <= i < |ds| && ds[i] == AddAlias(e);
      AliasLineRoundTrip(lines[i]);
    }
  }

  /** A key that still ends in its newline cannot match a word that ends in a capital. */
  lemma NewlineKeyMisses(key: string, kw: string)
    requires 0 < |key| && key[|key| - 1] == '\n'
    requires 0 < |kw| < BUFSIZE - 1 && 'A' <= kw[|kw| - 1] <= 'Z'
    ensures !CaseEqN(key, kw, BUFSIZE - 1)
  {
    if CaseEqN(key, kw, BUFSIZE - 1) {
      CaseEqNShort(key, kw, BUFSIZE - 1);
    }
  }

  /** A key that still ends in its newline matches no keyword. */
  lemma NewlineKeyIsNoKeyword(key: string)
    requires 0 < |key| && key[|key| - 1] == '\n'
    ensures !IsKeyword(key)
  {
    NewlineKeyMisses(key, "VERBOSE");
    NewlineKeyMisses(key, "LOG");
    NewlineKeyMisses(key, "RRD");
    NewlineKeyMisses(key, "FOREGROUND");
    NewlineKeyMisses(key, "INTERVAL");
    NewlineKeyMisses(key, "ALIAS");
  }

  /**
   * A keyword alone on its line keeps the line's newline, because the key is cut at
   * blanks only: `VERBOSE\n` is an unknown key (ds18b20.c:82,117-119).
   */
  lemma BareKeyKeepsNewline(cfg: Config, k: string, n: nat)
    requires k != [] && |k| < MAX_CFG_LINE && k[0] != '\n'
    requires forall j :: 0 <= j < |k| ==> k[j] !in Blanks && !EndsText(k[j])
    ensures ParseLine(cfg, k + "\n", n) == Failure(UnknownKey(k + "\n", n))
  {
    var line := k + "\n";
    assert forall j :: 0 <= j < |line| ==> !EndsText(line[j]) && line[j] !in Blanks;
    var s := Uncommented(line);
    assert s == line;
    var key := KeyTok(line);
    assert key.Token? by {
      assert s[0..][0] == s[0];
    }
    assert key.at == 0;
    assert key.at + |key.text| == |line|;
    assert key.text == line;
    NewlineKeyIsNoKeyword(line);
  }

  /**
   * A comment indented by blanks is not skipped: once the comment is cut off only
   * blanks remain, and the line is a syntax error (ds18b20.c:72-86).
   */
  lemma IndentedCommentIsSyntaxError(cfg: Config, pad: string, rest: string, n: nat)
    requires pad != [] && AllIn(pad, Blanks)
    requires rest != [] && (rest[0] == '#' || rest[0] == ';')
    ensures ParseLine(cfg, pad + rest, n) == Failure(SyntaxError(n))
  {
    var line := pad + rest;
    assert line[0] == pad[0];
    assert line[|pad|] == rest[0];
    var s := Uncommented(line);
    assert |s| == |pad|;
    assert s == pad;
  }

  /**
   * `ParseCfg` from the defaults `main` sets, as a whole: the file is accepted exactly
   * when no line is rejected and it adds at most `MAXPROBES` aliases; then every flag is
   * set exactly when some line names it, the interval is the last one given (300 when
   * none is), and the alias table lists the `ALIAS` lines in file order, each one an
   * entry `findprobes` can split.
   */
  lemma ParseCfgFromDefaults(text: string)
    ensures var ds := Directives(CfgLines(text));
            ParseCfg(Defaults, text).Success? <==> AllAccepted(ds) && |AliasEntries(ds)| <= MAXPROBES
    ensures var ds := Directives(CfgLines(text));
            var r := ParseCfg(Defaults, text);
            r.Success? ==>
              && r.value.aliases == AliasEntries(ds)
              && |r.value.aliases| <= MAXPROBES
              && (forall e :: e in r.value.aliases ==> Splits(e))
              && r.value.interval == LastInterval(ds, DEFAULT_INTERVAL)
              && (r.value.verbose <==> Mentions(ds, SetVerbose))
              && (r.value.dolog <==> Mentions(ds, SetLog))
              && (r.value.dorrd <==> Mentions(ds, SetRrd))
              && (r.value.foreground <==> Mentions(ds, SetForeground))
  {
    var ds := Directives(CfgLines(text));
    ApplyAllAccepts(Defaults, ds, 1);
    if ParseCfg(Defaults, text).Success? {
      ApplyAllAliases(Defaults, ds, 1);
      ApplyAllInterval(Defaults, ds, 1);
      ApplyAllFlags(Defaults, ds, 1);
      StoredAliasesSplit(text);
    }
  }
}
