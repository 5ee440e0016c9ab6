/**
 * Reading one probe (ds18b20.c:351-356). The kernel's `w1_slave` file holds two
 * lines; the temperature is the text after `t=` on the second one, in thousandths
 * of a degree Celsius:
 *
 *     72 01 4b 46 7f ff 0e 10 57 : crc=57 YES
 *     72 01 4b 46 7f ff 0e 10 57 t=21750
 *
 * The daemon reads the first line into its buffer, clears the buffer, reads the
 * second, and takes the SECOND token `strtok` finds with the delimiter set
 * `{'t', '='}`. The model keeps the reading as an integer count of millidegrees.
 */
module Sample {
  import opened Wrappers
  import opened CString
  import opened Numbers
  import opened Defs

  /** `strtok(buf, "t=")`: a set of two delimiter characters, not the two-character word. */
  const SAMPLE_DELIMS: set<char> := {'t', '='}

  /** `fgets(buf, sizeof(buf)-1, ...)` takes at most 254 characters per call. */
  const READ_SIZE: nat := BUFSIZE - 1

  /**
   * The buffer after the two `fgets` calls at ds18b20.c:351-353: the second line,
   * or the empty string when the file ends first (the buffer was zeroed).
   */
  function SecondLine(file: string): (line: string)
    ensures |line| < READ_SIZE
    ensures NUL !in line
  {
    var first := Fgets(file, 0, READ_SIZE);
    var pos := if first.Some? then |first.value| else 0;
    match Fgets(file, pos, READ_SIZE)
    case None => ""
    case Some(buf) => CStr(buf)
  }

  /**
   * The reading in millidegrees: the value `atof` reads from the second token of the
   * second line. `None` when there is no second token, where the source hands a NULL
   * pointer to `atof`.
   */
  function ReadMilli(file: string): (r: Option<int>)
    ensures var buf := SecondLine(file);
            var t1 := Strtok(buf, 0, SAMPLE_DELIMS);
            r.None? <==> t1.NoToken? || AllIn(buf[t1.next..], SAMPLE_DELIMS)
  {
    var buf := SecondLine(file);
    var t1 := Strtok(buf, 0, SAMPLE_DELIMS);
    var t2 := Strtok(buf, t1.next, SAMPLE_DELIMS);
    if t2.NoToken? then None else Some(LeadingInt(t2.text))
  }

  /** The sensor line the kernel writes: `<data>t=<millidegrees>` and a newline. */
  function SensorLine(data: string, milli: int): string {
    data + "t=" + Decimal(milli) + "\n"
  }

  predicate PlainData(data: string) {
    forall j :: 0 <= j < |data| ==> data[j] !in SAMPLE_DELIMS && data[j] != '\n' && data[j] != NUL
  }

  lemma DecimalPlain(n: int)
    ensures forall j :: 0 <= j < |Decimal(n)| ==>
              Decimal(n)[j] !in SAMPLE_DELIMS && Decimal(n)[j] != '\n' && Decimal(n)[j] != NUL
  {
    var d := Digits(if n < 0 then -n else n);
    assert AllDigits(d);
    forall j | 0 <= j < |Decimal(n)|
      ensures Decimal(n)[j] !in SAMPLE_DELIMS && Decimal(n)[j] != '\n' && Decimal(n)[j] != NUL
    {
      if n < 0 {
        assert Decimal(n) == "-" + d;
        if j > 0 {
          assert Decimal(n)[j] == d[j - 1];
        }
      } else {
        assert Decimal(n)[j] == d[j];
      }
    }
  }

  /** `<data>t=<tail>` with no delimiter inside `data` or `tail`: the second token is `tail`. */
  lemma SecondToken(data: string, tail: string)
    requires data != [] && NoneIn(data, SAMPLE_DELIMS)
    requires tail != [] && NoneIn(tail, SAMPLE_DELIMS)
    ensures var line := data + "t=" + tail;
            var t1 := Strtok(line, 0, SAMPLE_DELIMS);
            Strtok(line, t1.next, SAMPLE_DELIMS) == Token(|data| + 2, tail, |line|)
  {
    var line := data + "t=" + tail;
    var n := |data|;
    assert line[0..n] == data;
    assert line[n] == 't' && line[n + 1] == '=';
    assert line[n + 2..n + 2 + |tail|] == tail;
    StrtokWord(line, 0, SAMPLE_DELIMS, data);
    StrtokSkip(line, n + 1, SAMPLE_DELIMS);
    StrtokWord(line, n + 2, SAMPLE_DELIMS, tail);
  }

  /** A sensor line whose data part holds no `t`, `=` or newline yields its reading. */
  lemma ReadSensorLine(data: string, milli: int)
    requires data != [] && PlainData(data)
    ensures var line := SensorLine(data, milli);
            var t1 := Strtok(line, 0, SAMPLE_DELIMS);
            var t2 := Strtok(line, t1.next, SAMPLE_DELIMS);
            t2.Token? && LeadingInt(t2.text) == milli
  {
    var tail := Decimal(milli) + "\n";
    SensorTail(milli);
    assert NoneIn(data, SAMPLE_DELIMS);
    assert SensorLine(data, milli) == data + "t=" + tail;
    SecondToken(data, tail);
  }

  /** The number and newline after `t=`: no delimiter inside, and it reads back as the number. */
  lemma SensorTail(milli: int)
    ensures var tail := Decimal(milli) + "\n";
            tail != [] && NoneIn(tail, SAMPLE_DELIMS) && LeadingInt(tail) == milli
  {
    TailPlain(milli);
    TailValue(milli);
  }

  lemma TailPlain(milli: int)
    ensures NoneIn(Decimal(milli) + "\n", SAMPLE_DELIMS)
  {
    var d := Decimal(milli);
    var tail := d + "\n";
    DecimalPlain(milli);
    forall j | 0 <= j < |tail| ensures tail[j] !in SAMPLE_DELIMS {
      if j < |d| {
        assert tail[j] == d[j];
      }
    }
  }

  lemma TailValue(milli: int)
    ensures LeadingInt(Decimal(milli) + "\n") == milli
  {
    var d := Decimal(milli);
    assert "" + d + "\n" == d + "\n";
    LeadingIntOfDecimal("", milli, "\n");
  }

  /** A sensor line is one `fgets` line without NUL characters. */
  lemma SensorLineShape(data: string, milli: int)
    requires PlainData(data)
    ensures var line := SensorLine(data, milli);
            && line[|line| - 1] == '\n'
            && (forall j :: 0 <= j < |line| - 1 ==> line[j] != '\n')
            && NUL !in line
  {
    var d := Decimal(milli);
    var line := SensorLine(data, milli);
    DecimalPlain(milli);
    forall j | 0 <= j < |line| ensures line[j] != NUL && (j < |line| - 1 ==> line[j] != '\n') {
      if j < |data| {
        assert line[j] == data[j];
      } else if |data| + 2 <= j < |line| - 1 {
        assert line[j] == d[j - |data| - 2];
      }
    }
  }

  /** What `fgets` leaves in the buffer when the file is a first line, a second line and more. */
  lemma SecondLineOf(crcLine: string, line: string, rest: string)
    requires 0 < |crcLine| < READ_SIZE && crcLine[|crcLine| - 1] == '\n'
    requires forall j :: 0 <= j < |crcLine| - 1 ==> crcLine[j] != '\n'
    requires 0 < |line| < READ_SIZE && line[|line| - 1] == '\n'
    requires forall j :: 0 <= j < |line| - 1 ==> line[j] != '\n'
    requires NUL !in line
    ensures SecondLine(crcLine + line + rest) == line
  {
    var file := crcLine + line + rest;
    assert file[0..|crcLine|] == crcLine;
    FgetsLine(file, 0, READ_SIZE, crcLine);
    assert file[|crcLine|..|crcLine| + |line|] == line;
    FgetsLine(file, |crcLine|, READ_SIZE, line);
    CStrNoNul(line);
  }

  /**
   * The sample round trip: a file whose first line is the CRC line and whose second
   * line is a sensor line reads back the millidegrees the sensor line carries,
   * whatever follows.
   */
  lemma ReadMilliRoundTrip(crcLine: string, data: string, milli: int, rest: string)
    requires 0 < |crcLine| < READ_SIZE && crcLine[|crcLine| - 1] == '\n'
    requires forall j :: 0 <= j < |crcLine| - 1 ==> crcLine[j] != '\n'
    requires data != [] && PlainData(data)
    requires |SensorLine(data, milli)| < READ_SIZE
    ensures ReadMilli(crcLine + SensorLine(data, milli) + rest) == Some(milli)
  {
    SensorLineShape(data, milli);
    SecondLineOf(crcLine, SensorLine(data, milli), rest);
    ReadSensorLine(data, milli);
  }

  lemma {:induction false} CStrNoNul(s: string)
    requires NUL !in s
    ensures CStr(s) == s
    decreases |s|
  {
    if s != [] {
      assert s[0] != NUL;
      CStrNoNul(s[1..]);
      assert s == [s[0]] + s[1..];
    }
  }

  const EXAMPLE_CRC: string := "5c 01 4b 46 7f ff 04 10 a1 : crc=a1 YES\n"
  const EXAMPLE_DATA: string := "5c 01 4b 46 7f ff 04 10 a1 "

  lemma ExampleParts()
    ensures Decimal(21750) == "21750"
    ensures PlainData(EXAMPLE_DATA)
    ensures forall j :: 0 <= j < |EXAMPLE_CRC| - 1 ==> EXAMPLE_CRC[j] != '\n'
  {
    ExampleDecimal();
    ExampleDataPlain();
    ExampleCrcOneLine();
  }

  lemma ExampleDecimal()
    ensures Decimal(21750) == "21750"
  {
    assert Digits(21750) == "21750";
  }

  lemma ExampleDataPlain()
    ensures PlainData(EXAMPLE_DATA)
  {
  }

  lemma ExampleCrcOneLine()
    ensures forall j :: 0 <= j < |EXAMPLE_CRC| - 1 ==> EXAMPLE_CRC[j] != '\n'
  {
  }

  lemma ExampleSizes()
    ensures SensorLine(EXAMPLE_DATA, 21750) == EXAMPLE_DATA + "t=21750\n"
    ensures |SensorLine(EXAMPLE_DATA, 21750)| < READ_SIZE
    ensures 0 < |EXAMPLE_CRC| < READ_SIZE && EXAMPLE_CRC[|EXAMPLE_CRC| - 1] == '\n'
  {
    ExampleParts();
  }

  /** The example in the source's comment at ds18b20.c:347-349 reads as 21.750 degrees. */
  lemma CommentExample()
    ensures SensorLine(EXAMPLE_DATA, 21750) == EXAMPLE_DATA + "t=21750\n"
    ensures ReadMilli(EXAMPLE_CRC + SensorLine(EXAMPLE_DATA, 21750)) == Some(21750)
  {
    ExampleParts();
    ExampleSizes();
    ReadMilliRoundTrip(EXAMPLE_CRC, EXAMPLE_DATA, 21750, "");
    assert EXAMPLE_CRC + SensorLine(EXAMPLE_DATA, 21750) + "" == EXAMPLE_CRC + SensorLine(EXAMPLE_DATA, 21750);
  }

  /**
   * Because `t` and `=` are single delimiters, a second line that starts with `t=`
   * gives its number as the FIRST token, and the reading is lost.
   */
  lemma LeadingReadingIsLost(crcLine: string, milli: int)
    requires 0 < |crcLine| < READ_SIZE && crcLine[|crcLine| - 1] == '\n'
    requires forall j :: 0 <= j < |crcLine| - 1 ==> crcLine[j] != '\n'
    requires |Decimal(milli)| < 200
    ensures ReadMilli(crcLine + "t=" + Decimal(milli) + "\n") == None
  {
    var tail := Decimal(milli) + "\n";
    var line := "t=" + tail;
    var file := crcLine + "t=" + Decimal(milli) + "\n";
    LeadingLineShape(milli);
    assert file == crcLine + line + "";
    SecondLineOf(crcLine, line, "");
    LeadingLineReadsNothing(file, tail);
  }

  /** A file whose second line opens with `t=` gives no reading. */
  lemma LeadingLineReadsNothing(file: string, tail: string)
    requires tail != [] && NoneIn(tail, SAMPLE_DELIMS)
    requires SecondLine(file) == "t=" + tail
    ensures ReadMilli(file) == None
  {
    LeadingTokens(tail);
  }

  /** `t=<millidegrees>` and a newline is one `fgets` line whose number carries no delimiter. */
  lemma LeadingLineShape(milli: int)
    ensures var tail := Decimal(milli) + "\n";
            var line := "t=" + tail;
            && tail != [] && NoneIn(tail, SAMPLE_DELIMS)
            && line[|line| - 1] == '\n'
            && (forall j :: 0 <= j < |line| - 1 ==> line[j] != '\n')
            && NUL !in line
  {
    var d := Decimal(milli);
    var tail := d + "\n";
    var line := "t=" + tail;
    DecimalPlain(milli);
    assert forall j :: 0 <= j < |d| ==> tail[j] == d[j];
    assert forall j :: 2 <= j < |line| ==> line[j] == tail[j - 2];
  }

  /** With a line that opens with `t=`, the first token is the rest and there is no second. */
  lemma LeadingTokens(tail: string)
    requires tail != [] && NoneIn(tail, SAMPLE_DELIMS)
    ensures var line := "t=" + tail;
            && Strtok(line, 0, SAMPLE_DELIMS) == Token(2, tail, |line|)
            && Strtok(line, |line|, SAMPLE_DELIMS).NoToken?
  {
    var line := "t=" + tail;
    StrtokSkip(line, 0, SAMPLE_DELIMS);
    StrtokSkip(line, 1, SAMPLE_DELIMS);
    assert line[2..2 + |tail|] == tail;
    StrtokWord(line, 2, SAMPLE_DELIMS, tail);
  }

  /** A probe file that ends after its first line gives no reading. */
  lemma MissingSecondLine(crcLine: string)
    requires 0 < |crcLine| < READ_SIZE && crcLine[|crcLine| - 1] == '\n'
    requires forall j :: 0 <= j < |crcLine| - 1 ==> crcLine[j] != '\n'
    ensures ReadMilli(crcLine) == None
  {
    assert crcLine[0..|crcLine|] == crcLine;
    FgetsLine(crcLine, 0, READ_SIZE, crcLine);
  }
}
