/**
 * The C library string primitives the daemon leans on, restated over `string`:
 * NUL termination, `snprintf` truncation, `strncasecmp` and the stateful `strtok`.
 * A C string is modelled by the characters before its terminating NUL.
 */
module CString {
  import opened Wrappers

  const NUL: char := '\0'

  /** The C string a buffer holds: everything before the first NUL. */
  function CStr(buf: string): (s: string)
    ensures s <= buf
    ensures NUL !in s
    ensures |s| < |buf| ==> buf[|s|] == NUL
  {
    if |buf| == 0 || buf[0] == NUL then "" else [buf[0]] + CStr(buf[1..])
  }

  /** What `snprintf(dst, size, "%s", s)` stores in `dst`: the first `size - 1` characters at most. */
  function Snprintf(s: string, size: nat): (r: string)
    requires size >= 1
    ensures |r| == if |s| < size then |s| else size - 1
    ensures r <= s
    ensures |s| < size ==> r == s
  {
    if |s| < size then s else s[..size - 1]
  }

  /** The first `n` characters of `s` (all of it if shorter). */
  function Prefix(s: string, n: nat): (r: string)
    ensures r <= s
    ensures |r| == if |s| < n then |s| else n
  {
    if |s| <= n then s else s[..n]
  }

  /** `tolower` in the C locale: only the ASCII capitals change. */
  function ToLower(c: char): char {
    if 'A' <= c <= 'Z' then (c as int + 32) as char else c
  }

  function Lower(s: string): (r: string)
    ensures |r| == |s|
    ensures forall i :: 0 <= i < |s| ==> r[i] == ToLower(s[i])
  {
    seq(|s|, i requires 0 <= i < |s| => ToLower(s[i]))
  }

  /**
   * `strncasecmp(a, b, n) == 0`, as its loop runs: compare lowered characters until
   * `n` have been compared or both strings end together.
   */
  predicate CaseEqN(a: string, b: string, n: nat)
    decreases n
  {
    || n == 0
    || (a == [] && b == [])
    || (a != [] && b != [] && ToLower(a[0]) == ToLower(b[0]) && CaseEqN(a[1..], b[1..], n - 1))
  }

  lemma LowerCons(c: char, s: string)
    ensures Lower([c] + s) == [ToLower(c)] + Lower(s)
  {
  }

  lemma ConsEq(x: char, s: string, y: char, t: string)
    ensures [x] + s == [y] + t <==> x == y && s == t
  {
    if [x] + s == [y] + t {
      assert ([x] + s)[0] == x && ([x] + s)[1..] == s;
      assert ([y] + t)[0] == y && ([y] + t)[1..] == t;
    }
  }

  lemma {:induction false} CaseEqNRefl(a: string, n: nat)
    ensures CaseEqN(a, a, n)
    decreases n
  {
    if n > 0 && a != [] {
      CaseEqNRefl(a[1..], n - 1);
    }
  }

  /** The loop agrees with its declarative reading: the first `n` characters are equal up to case. */
  lemma {:induction false} CaseEqNLower(a: string, b: string, n: nat)
    ensures CaseEqN(a, b, n) <==> Lower(Prefix(a, n)) == Lower(Prefix(b, n))
    decreases n
  {
    if n > 0 && a != [] && b != [] {
      CaseEqNLower(a[1..], b[1..], n - 1);
      LowerPrefixStep(a, b, n);
    } else if n > 0 && a != [] {
      assert |Lower(Prefix(a, n))| > 0;
    } else if n > 0 && b != [] {
      assert |Lower(Prefix(b, n))| > 0;
    }
  }

  /** Lowered prefixes agree exactly when the first characters do and the lowered rests do. */
  lemma LowerPrefixStep(a: string, b: string, n: nat)
    requires n > 0 && a != [] && b != []
    ensures Lower(Prefix(a, n)) == Lower(Prefix(b, n)) <==>
              ToLower(a[0]) == ToLower(b[0]) && Lower(Prefix(a[1..], n - 1)) == Lower(Prefix(b[1..], n - 1))
  {
    var ta := Prefix(a[1..], n - 1);
    var tb := Prefix(b[1..], n - 1);
    assert Prefix(a, n) == [a[0]] + ta;
    assert Prefix(b, n) == [b[0]] + tb;
    LowerCons(a[0], ta);
    LowerCons(b[0], tb);
    ConsEq(ToLower(a[0]), Lower(ta), ToLower(b[0]), Lower(tb));
  }

  /** Matching a string shorter than the bound means matching all of it: same length, same lowered text. */
  lemma CaseEqNShort(a: string, b: string, n: nat)
    requires |b| < n && CaseEqN(a, b, n)
    ensures |a| == |b| && Lower(a) == Lower(b)
  {
    CaseEqNLower(a, b, n);
    assert Prefix(b, n) == b;
    assert |Prefix(a, n)| == |b|;
    assert Prefix(a, n) == a;
  }

  /**
   * Where `strtok` starts a token when its scan resumes at `i`: the first position at
   * or after `i` that is not a delimiter (or the end of the string).
   */
  function SkipDelims(s: string, i: nat, delims: set<char>): (k: nat)
    requires i <= |s|
    ensures i <= k <= |s|
    ensures forall j :: i <= j < k ==> s[j] in delims
    ensures k == |s| || s[k] !in delims
    decreases |s| - i
  {
    if i == |s| || s[i] !in delims then i else SkipDelims(s, i + 1, delims)
  }

  /** Where a token that starts at `i` ends: the next delimiter (or the end of the string). */
  function TokenEnd(s: string, i: nat, delims: set<char>): (k: nat)
    requires i <= |s|
    ensures i <= k <= |s|
    ensures forall j :: i <= j < k ==> s[j] !in delims
    ensures k == |s| || s[k] in delims
    decreases |s| - i
  {
    if i == |s| || s[i] in delims then i else TokenEnd(s, i + 1, delims)
  }

  /**
   * One call of `strtok`. `NoToken` is its NULL result; `Token(at, text, _)` is the
   * pointer it returns (position `at`) and the NUL-terminated text found there. In both
   * cases `next` is where the following `strtok(NULL, ...)` call resumes: just past the
   * delimiter that `strtok` overwrote with NUL, or the end of the string.
   */
  datatype Tok = NoToken(next: nat) | Token(at: nat, text: string, next: nat)

  predicate AllIn(s: string, delims: set<char>) {
    forall j :: 0 <= j < |s| ==> s[j] in delims
  }

  predicate NoneIn(s: string, delims: set<char>) {
    forall j :: 0 <= j < |s| ==> s[j] !in delims
  }

  function Strtok(s: string, start: nat, delims: set<char>): (r: Tok)
    requires start <= |s|
    ensures start <= r.next <= |s|
    ensures r.NoToken? <==> AllIn(s[start..], delims)
    ensures r.NoToken? ==> r.next == |s|
    ensures r.Token? ==>
              && start <= r.at
              && r.at + |r.text| <= |s|
              && r.text == s[r.at..r.at + |r.text|]
              && r.text != []
              && NoneIn(r.text, delims)
              && AllIn(s[start..r.at], delims)
              && ((r.at + |r.text| == |s| && r.next == |s|)
                  || (r.at + |r.text| < |s| && s[r.at + |r.text|] in delims && r.next == r.at + |r.text| + 1))
  {
    var b := SkipDelims(s, start, delims);
    if b == |s| then
      assert forall j :: 0 <= j < |s[start..]| ==> s[start..][j] == s[start + j];
      NoToken(|s|)
    else
      var e := TokenEnd(s, b, delims);
      assert !AllIn(s[start..], delims) by {
        assert s[start..][b - start] == s[b];
      }
      var text := s[b..e];
      assert NoneIn(text, delims) by {
        forall j | 0 <= j < |text| ensures text[j] !in delims {
          assert text[j] == s[b + j];
        }
      }
      Token(b, text, if e == |s| then e else e + 1)
  }

  lemma {:induction false} TokenEndAt(s: string, i: nat, k: nat, delims: set<char>)
    requires i <= k <= |s|
    requires forall j :: i <= j < k ==> s[j] !in delims
    requires k == |s| || s[k] in delims
    ensures TokenEnd(s, i, delims) == k
    decreases k - i
  {
    if i < k {
      TokenEndAt(s, i + 1, k, delims);
    }
  }

  /** `strtok` resuming at a word that ends at a delimiter (or the end) returns that word. */
  lemma StrtokWord(s: string, start: nat, delims: set<char>, w: string)
    requires w != [] && start + |w| <= |s| && s[start..start + |w|] == w
    requires NoneIn(w, delims)
    requires start + |w| == |s| || s[start + |w|] in delims
    ensures Strtok(s, start, delims) ==
              Token(start, w, if start + |w| == |s| then |s| else start + |w| + 1)
  {
    assert s[start] == w[0];
    assert forall j :: start <= j < start + |w| ==> s[j] == w[j - start];
    TokenEndAt(s, start, start + |w|, delims);
  }

  /** `strtok` resuming at a delimiter skips it. */
  lemma StrtokSkip(s: string, start: nat, delims: set<char>)
    requires start < |s| && s[start] in delims
    ensures Strtok(s, start, delims) == Strtok(s, start + 1, delims)
  {
    assert SkipDelims(s, start, delims) == SkipDelims(s, start + 1, delims);
  }

  /**
   * Where `fgets` stops when it starts at `pos` and may take characters up to position
   * `limit`: just past the first newline, or at `limit`.
   */
  function LineEnd(s: string, pos: nat, limit: nat): (k: nat)
    requires pos <= limit <= |s|
    ensures pos <= k <= limit
    ensures pos < limit ==> pos < k
    decreases limit - pos
  {
    if pos == limit then pos
    else if s[pos] == '\n' then pos + 1
    else LineEnd(s, pos + 1, limit)
  }

  /** `LineEnd` stops just past the first newline, or at `limit` when there is none before it. */
  lemma {:induction false} LineEndNewlines(s: string, pos: nat, limit: nat)
    requires pos <= limit <= |s|
    ensures var k := LineEnd(s, pos, limit);
            && (forall j :: pos <= j < k - 1 ==> s[j] != '\n')
            && (k < limit ==> s[k - 1] == '\n')
            && (k == limit && k > pos ==> s[k - 1] == '\n' || forall j :: pos <= j < k ==> s[j] != '\n')
    decreases limit - pos
  {
    if pos < limit && s[pos] != '\n' {
      LineEndNewlines(s, pos + 1, limit);
    }
  }

  /**
   * One `fgets(buf, size, f)` on a stream positioned at `pos` of the text `s`: the
   * characters read, at most `size - 1` of them, up to and including a newline.
   * `None` is its NULL result at end of file.
   */
  function Fgets(s: string, pos: nat, size: nat): (r: Option<string>)
    requires pos <= |s| && size >= 2
    ensures r.None? <==> pos == |s|
    ensures r.Some? ==> 0 < |r.value| <= size - 1 && pos + |r.value| <= |s|
    ensures r.Some? ==> r.value == s[pos..pos + |r.value|]
    ensures r.Some? ==> forall j :: 0 <= j < |r.value| - 1 ==> r.value[j] != '\n'
    ensures r.Some? ==>
              || r.value[|r.value| - 1] == '\n'
              || |r.value| == size - 1
              || pos + |r.value| == |s|
  {
    if pos == |s| then None
    else
      var limit := if |s| - pos < size - 1 then |s| else pos + size - 1;
      var k := LineEnd(s, pos, limit);
      LineEndNewlines(s, pos, limit);
      Some(s[pos..k])
  }

  /** A complete line that fits the buffer is what one `fgets` returns. */
  lemma FgetsLine(s: string, pos: nat, size: nat, line: string)
    requires size >= 2 && pos + |line| <= |s| && s[pos..pos + |line|] == line
    requires 0 < |line| <= size - 1 && line[|line| - 1] == '\n'
    requires forall j :: 0 <= j < |line| - 1 ==> line[j] != '\n'
    ensures Fgets(s, pos, size) == Some(line)
  {
    var r := Fgets(s, pos, size).value;
    assert forall j :: 0 <= j < |r| && j < |line| ==> r[j] == line[j];
    if |r| < |line| {
      assert false;
    } else if |r| > |line| {
      assert false;
    }
    assert r == line;
  }

  /** The pieces successive `fgets(buf, size, f)` calls return from position `pos` to end of file. */
  function Chunks(s: string, pos: nat, size: nat): (cs: seq<string>)
    requires pos <= |s| && size >= 2
    ensures forall i :: 0 <= i < |cs| ==> 0 < |cs[i]| <= size - 1
    decreases |s| - pos
  {
    match Fgets(s, pos, size)
    case None => []
    case Some(piece) => [piece] + Chunks(s, pos + |piece|, size)
  }

  function Concat(cs: seq<string>): string {
    if cs == [] then "" else cs[0] + Concat(cs[1..])
  }

  /** Reading a file to its end with `fgets` loses nothing and adds nothing. */
  lemma {:induction false} ChunksConcat(s: string, pos: nat, size: nat)
    requires pos <= |s| && size >= 2
    ensures Concat(Chunks(s, pos, size)) == s[pos..]
    decreases |s| - pos
  {
    if pos < |s| {
      var piece := Fgets(s, pos, size).value;
      var rest := Chunks(s, pos + |piece|, size);
      ChunksStep(s, pos, size, piece);
      ChunksConcat(s, pos + |piece|, size);
      SliceSplit(s, pos, pos + |piece|);
      ConcatStep(Chunks(s, pos, size), piece, rest, s[pos..], s[pos + |piece|..]);
    } else {
      ChunksEnd(s, size);
    }
  }

  /** At end of file the first read returns NULL: there are no more pieces. */
  lemma ChunksEnd(s: string, size: nat)
    requires size >= 2
    ensures Chunks(s, |s|, size) == []
  {
  }

  lemma SliceSplit(s: string, a: nat, b: nat)
    requires a <= b <= |s|
    ensures s[a..] == s[a..b] + s[b..]
  {
  }

  lemma ConcatStep(cs: seq<string>, piece: string, rest: seq<string>, text: string, tailText: string)
    requires cs == [piece] + rest && Concat(rest) == tailText && text == piece + tailText
    ensures Concat(cs) == text
  {
    ConcatCons(piece, rest);
  }

  lemma ConcatCons(x: string, rest: seq<string>)
    ensures Concat([x] + rest) == x + Concat(rest)
  {
    assert ([x] + rest)[1..] == rest;
  }

  /** A line that one `fgets` call with buffer size `size` reads whole, newline included. */
  predicate ShortLine(line: string, size: nat) {
    && 0 < |line| <= size - 1
    && line[|line| - 1] == '\n'
    && (forall j :: 0 <= j < |line| - 1 ==> line[j] != '\n')
  }

  /** Every line of `lines` is a `ShortLine`. */
  predicate ShortLines(lines: seq<string>, size: nat)
    decreases |lines|
  {
    lines == [] || (ShortLine(lines[0], size) && ShortLines(lines[1..], size))
  }

  /** A file of short lines comes back one line per `fgets` call. */
  lemma ChunksOfLines(lines: seq<string>, size: nat)
    requires size >= 2
    requires ShortLines(lines, size)
    ensures Chunks(Concat(lines), 0, size) == lines
  {
    ChunksOfLinesAt(Concat(lines), 0, lines, size);
  }

  /** The reads from `pos` on, when the text from `pos` on is a sequence of short lines. */
  lemma {:induction false} ChunksOfLinesAt(s: string, pos: nat, lines: seq<string>, size: nat)
    requires size >= 2 && pos <= |s| && s[pos..] == Concat(lines)
    requires ShortLines(lines, size)
    ensures Chunks(s, pos, size) == lines
    decreases |lines|
  {
    if lines == [] {
      assert |s[pos..]| == 0;
      assert pos == |s|;
      ChunksEnd(s, size);
    } else {
      var first := lines[0];
      var tail := lines[1..];
      LinesHead(s, pos, lines);
      ChunksOfLinesAt(s, pos + |first|, tail, size);
      ChunksLineStep(s, pos, size, lines, tail);
      assert lines == [first] + tail;
    }
  }

  /** The first short line read by one `fgets` call, followed by reads that give `rest`. */
  lemma ChunksLineStep(s: string, pos: nat, size: nat, lines: seq<string>, rest: seq<string>)
    requires size >= 2 && pos <= |s| && s[pos..] == Concat(lines)
    requires lines != [] && ShortLines(lines, size)
    requires pos + |lines[0]| <= |s| && Chunks(s, pos + |lines[0]|, size) == rest
    ensures Chunks(s, pos, size) == [lines[0]] + rest
  {
    var line := lines[0];
    LinesHead(s, pos, lines);
    assert ShortLine(line, size);
    FgetsLine(s, pos, size, line);
    ChunksStep(s, pos, size, line);
  }

  /** Where the first line and the rest sit in the text. */
  lemma LinesHead(s: string, pos: nat, lines: seq<string>)
    requires pos <= |s| && s[pos..] == Concat(lines) && lines != []
    ensures pos + |lines[0]| <= |s|
    ensures s[pos..pos + |lines[0]|] == lines[0]
    ensures s[pos + |lines[0]|..] == Concat(lines[1..])
  {
    assert lines == [lines[0]] + lines[1..];
    ConcatCons(lines[0], lines[1..]);
  }

  lemma SameTail(x: string, c: seq<string>, a: seq<string>, b: seq<string>)
    requires c == [x] + a && a == b
    ensures c == [x] + b
  {
  }

  /** One `fgets` call, then the rest of the reads. */
  lemma ChunksStep(s: string, pos: nat, size: nat, piece: string)
    requires pos <= |s| && size >= 2
    requires Fgets(s, pos, size) == Some(piece)
    ensures Chunks(s, pos, size) == [piece] + Chunks(s, pos + |piece|, size)
  {
  }
}
