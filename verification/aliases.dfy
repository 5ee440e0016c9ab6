/**
 * The alias table: how `ParseCfg` stores an `ALIAS <raw> <name>` line as one text
 * entry, how `findprobes` splits an entry back into its two words, and how
 * `findprobes` walks the fixed-size table.
 */
module Aliases {
  import opened Wrappers
  import opened CString
  import opened Defs

  /**
   * The entry stored for `ALIAS <realname> <aliasname>` (ds18b20.c:115):
   * `snprintf(alias[n], BUFSIZE-1, "%s %s", ...)`, so the first 254 characters of `<realname> <aliasname>`.
   */
  function Join(realname: string, aliasname: string): (e: string)
    ensures |e| <= BUFSIZE - 2
    ensures e <= realname + " " + aliasname
    ensures |realname| + |aliasname| < BUFSIZE - 2 ==> e == realname + " " + aliasname
    ensures |realname| + |aliasname| >= BUFSIZE - 2 ==> |e| == BUFSIZE - 2
  {
    Snprintf(realname + " " + aliasname, BUFSIZE - 1)
  }

  datatype Pair = Pair(realname: string, aliasname: string)

  /**
   * ds18b20.c:147-149: copy the entry (at most BUFSIZE-1 characters), then
   * `realname = strtok(copy, " ")` and `aliasname = strtok(NULL, "\n")`.
   * `None` when either `strtok` call returns NULL.
   */
  function Split(entry: string): (r: Option<Pair>)
    ensures r.Some? ==> r.value.realname != [] && ' ' !in r.value.realname
    ensures r.Some? ==> r.value.aliasname != [] && '\n' !in r.value.aliasname
  {
    var copy := Prefix(entry, BUFSIZE - 1);
    var first := Strtok(copy, 0, {' '});
    var second := Strtok(copy, first.next, {'\n'});
    if first.Token? && second.Token? then
      assert forall j :: 0 <= j < |first.text| ==> first.text[j] != ' ';
      assert forall j :: 0 <= j < |second.text| ==> second.text[j] != '\n';
      Some(Pair(first.text, second.text))
    else
      None
  }

  /** An entry the loop at ds18b20.c:146-155 can use: both `strtok` results are non-NULL. */
  predicate Splits(entry: string) {
    Split(entry).Some?
  }

  /**
   * Storing and splitting agree: a first word without spaces and a second word
   * without newlines come back out of the stored entry unchanged.
   */
  lemma SplitJoin(realname: string, aliasname: string)
    requires realname != [] && ' ' !in realname
    requires aliasname != [] && '\n' !in aliasname
    requires |realname| + |aliasname| < BUFSIZE - 2
    ensures Split(Join(realname, aliasname)) == Some(Pair(realname, aliasname))
  {
    var e := realname + " " + aliasname;
    var n := |realname|;
    assert Join(realname, aliasname) == e;
    assert Prefix(e, BUFSIZE - 1) == e;
    var first := Strtok(e, 0, {' '});
    assert e[0] == realname[0];
    assert e[..n] == realname;
    assert e[n] == ' ';
    assert first.Token? && first.at == 0 by {
      assert e[0..][0] == e[0];
    }
    assert |first.text| == n;
    assert first.text == realname;
    assert first.next == n + 1;
    var second := Strtok(e, n + 1, {'\n'});
    assert e[n + 1..] == aliasname;
    assert second.Token? && second.at == n + 1 by {
      assert e[n + 1..][0] == aliasname[0];
    }
    assert |second.text| == |aliasname|;
    assert second.text == aliasname;
  }

  /** The global `alias` array once `ParseCfg` has stored `entries`: the rest is zero-filled. */
  function Slots(entries: seq<string>): (slots: seq<string>)
    requires |entries| <= MAXPROBES
    ensures |slots| == MAXPROBES
    ensures slots[..|entries|] == entries
    ensures forall i :: |entries| <= i < MAXPROBES ==> slots[i] == ""
  {
    entries + seq(MAXPROBES - |entries|, _ => "")
  }

  /**
   * The loop condition at ds18b20.c:146 as written, `alias[i][0] != '\0'`, with no
   * bound on `i`. The result is the number of entries the loop visits, or `None`
   * when the scan reads `alias[MAXPROBES]`, past the end of the array.
   */
  function ScanAsWritten(slots: seq<string>, i: nat): (r: Option<nat>)
    requires i <= |slots|
    ensures r.Some? ==> i <= r.value < |slots| && slots[r.value] == ""
    ensures r.Some? ==> forall j :: i <= j < r.value ==> slots[j] != ""
    ensures r.None? <==> forall j :: i <= j < |slots| ==> slots[j] != ""
    decreases |slots| - i
  {
    if i == |slots| then None
    else if slots[i] == "" then Some(i)
    else ScanAsWritten(slots, i + 1)
  }

  /** The evidently intended loop: stop at the first empty slot or after the last slot. */
  function ScanBounded(slots: seq<string>, i: nat): (r: nat)
    requires i <= |slots|
    ensures i <= r <= |slots|
    ensures forall j :: i <= j < r ==> slots[j] != ""
    ensures r == |slots| || slots[r] == ""
    decreases |slots| - i
  {
    if i == |slots| || slots[i] == "" then i else ScanBounded(slots, i + 1)
  }

  predicate NonEmpty(entries: seq<string>) {
    forall i :: 0 <= i < |entries| ==> entries[i] != ""
  }

  /** With all `MAXPROBES` slots in use the loop as written reads past the array. */
  lemma ScanAsWrittenOverruns(entries: seq<string>)
    requires |entries| == MAXPROBES && NonEmpty(entries)
    ensures ScanAsWritten(Slots(entries), 0) == None
  {
    assert Slots(entries) == entries;
  }

  /** With fewer entries the loop as written visits exactly the stored entries. */
  lemma ScanAsWrittenBelowLimit(entries: seq<string>)
    requires |entries| < MAXPROBES && NonEmpty(entries)
    ensures ScanAsWritten(Slots(entries), 0) == Some(|entries|)
  {
    var slots := Slots(entries);
    assert forall j :: 0 <= j < |entries| ==> slots[j] == entries[j];
    assert slots[|entries|] == "";
    var r := ScanAsWritten(slots, 0);
    assert r.Some?;
    assert r.value == |entries|;
  }

  /** The bounded loop visits exactly the stored entries, however many there are. */
  lemma ScanBoundedVisitsAll(entries: seq<string>)
    requires |entries| <= MAXPROBES && NonEmpty(entries)
    ensures ScanBounded(Slots(entries), 0) == |entries|
  {
    var slots := Slots(entries);
    assert forall j :: 0 <= j < |entries| ==> slots[j] == entries[j];
    if |entries| < MAXPROBES {
      assert slots[|entries|] == "";
    }
  }
}
