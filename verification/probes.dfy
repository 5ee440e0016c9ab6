/**
 * Probe discovery (`findprobes`, ds18b20.c:128-167): keep the one-wire devices whose
 * names start with `28-`, derive each one's device file, display name and log file,
 * and let the alias table rename it.
 */
module Probes {
  import opened Wrappers
  import opened CString
  import opened Defs
  import opened Aliases

  /** One row of the `probepath`, `probename` and `logpath` tables. */
  datatype Probe = Probe(devicePath: string, name: string, logPath: string)

  /** The `n` that `snprintf` and `strncasecmp` get for the probe tables: `PROBENAMELEN-1`. */
  const NAME_SIZE: nat := PROBENAMELEN - 1

  /** ds18b20.c:143: every DS18B20 has a device name starting with `28-`. */
  predicate IsDs18b20(device: string) {
    |device| >= 3 && device[0] == '2' && device[1] == '8' && device[2] == '-'
  }

  /** ds18b20.c:144: `PROBEPATH/<device>/w1_slave`, cut to 78 characters. */
  function DevicePath(device: string): (p: string)
    ensures |p| < NAME_SIZE
    ensures p <= PROBEPATH + "/" + device + "/w1_slave"
    ensures |device| <= 49 ==> p == PROBEPATH + "/" + device + "/w1_slave"
    ensures |device| > 49 ==> |p| == NAME_SIZE - 1
  {
    Snprintf(PROBEPATH + "/" + device + "/w1_slave", NAME_SIZE)
  }

  /** ds18b20.c:151 and ds18b20.c:157: `LOGROOT/<name>.log`, cut to 78 characters. */
  function LogPath(name: string): (p: string)
    ensures |p| < NAME_SIZE
    ensures p <= LOGROOT + "/" + name + ".log"
    ensures |name| <= 62 ==> p == LOGROOT + "/" + name + ".log"
    ensures |name| > 62 ==> |p| == NAME_SIZE - 1
  {
    Snprintf(LOGROOT + "/" + name + ".log", NAME_SIZE)
  }

  /** ds18b20.c:145 and ds18b20.c:152: a name copied into a `probename` slot, cut to 78 characters. */
  function ShortName(name: string): (s: string)
    ensures |s| < NAME_SIZE && s <= name
    ensures |name| < NAME_SIZE ==> s == name
    ensures |name| >= NAME_SIZE ==> |s| == NAME_SIZE - 1
  {
    Snprintf(name, NAME_SIZE)
  }

  /**
   * A probe's name while the alias table is walked, and the alias name whose log path
   * was last written into its `logpath` slot (`None` while `foundit` is still zero).
   */
  datatype Naming = Naming(name: string, lastAlias: Option<string>)

  /** Every entry of the table splits into two words. */
  predicate AllSplit(entries: seq<string>) {
    forall i :: 0 <= i < |entries| ==> Splits(entries[i])
  }

  /**
   * Every stored entry split into its two words, in table order. Splitting an entry
   * (ds18b20.c:147-149) does not depend on the name the walk has reached, so the model
   * splits them all first and walks the pairs.
   */
  function Pairs(entries: seq<string>): (ps: seq<Pair>)
    requires AllSplit(entries)
    ensures |ps| == |entries|
    ensures forall i :: 0 <= i < |ps| ==> Some(ps[i]) == Split(entries[i])
  {
    seq(|entries|, i requires 0 <= i < |entries| => Split(entries[i]).value)
  }

  /** ds18b20.c:150: the entry's real name matches the probe's current name. */
  predicate Matches(name: string, p: Pair) {
    CaseEqN(name, p.realname, NAME_SIZE)
  }

  /** Once an alias has been applied, the name is that alias (cut to the slot). */
  predicate Coherent(n: Naming) {
    n.lastAlias.Some? ==> n.name == ShortName(n.lastAlias.value)
  }

  /** One pass of the loop body at ds18b20.c:150-154. */
  function AliasStep(n: Naming, p: Pair): (r: Naming)
    ensures Matches(n.name, p) ==> r == Naming(ShortName(p.aliasname), Some(p.aliasname))
    ensures !Matches(n.name, p) ==> r == n
    ensures Coherent(r) || r == n
    ensures r.lastAlias.None? ==> r == n
  {
    if Matches(n.name, p) then Naming(ShortName(p.aliasname), Some(p.aliasname)) else n
  }

  /**
   * The loop at ds18b20.c:146-155 over all stored entries, in table order. Each entry
   * is compared with the name as the earlier entries left it, so aliases chain and a
   * later match overrides an earlier one.
   */
  function ResolveAliases(n: Naming, ps: seq<Pair>): (r: Naming)
    ensures Coherent(n) ==> Coherent(r)
    ensures n.lastAlias.Some? ==> r.lastAlias.Some?
    ensures r.lastAlias.None? ==> r == n
    decreases |ps|
  {
    if ps == [] then n else ResolveAliases(AliasStep(n, ps[0]), ps[1..])
  }

  /**
   * The walk as the program runs it (ds18b20.c:146-155): each entry is split inside
   * the loop, just before its real name is compared.
   */
  function WalkEntries(n: Naming, entries: seq<string>): (r: Naming)
    requires AllSplit(entries)
    decreases |entries|
  {
    if entries == [] then n
    else
      assert AllSplit(entries[1..]) by {
        forall i | 0 <= i < |entries| - 1 ensures Splits(entries[1..][i]) {
          assert entries[1..][i] == entries[i + 1];
        }
      }
      WalkEntries(AliasStep(n, Split(entries[0]).value), entries[1..])
  }

  /** Splitting the whole table first and then walking the pairs is the program's walk. */
  lemma {:induction false} WalkEntriesPairs(n: Naming, entries: seq<string>)
    requires AllSplit(entries)
    ensures WalkEntries(n, entries) == ResolveAliases(n, Pairs(entries))
    decreases |entries|
  {
    if entries != [] {
      var rest := entries[1..];
      assert AllSplit(rest) by {
        forall i | 0 <= i < |rest| ensures Splits(rest[i]) {
          assert rest[i] == entries[i + 1];
        }
      }
      PairsTail(entries);
      WalkEntriesPairs(AliasStep(n, Split(entries[0]).value), rest);
    }
  }

  lemma PairsTail(entries: seq<string>)
    requires AllSplit(entries) && entries != []
    requires AllSplit(entries[1..])
    ensures Pairs(entries)[0] == Split(entries[0]).value
    ensures Pairs(entries)[1..] == Pairs(entries[1..])
  {
    var ps := Pairs(entries);
    var qs := Pairs(entries[1..]);
    forall i | 0 <= i < |qs| ensures ps[1..][i] == qs[i] {
      assert entries[1..][i] == entries[i + 1];
    }
  }

  /** ds18b20.c:143-161 for one qualifying device, given the split alias table. */
  function NameProbe(device: string, ps: seq<Pair>): (p: Probe)
    ensures p.devicePath == DevicePath(device)
    ensures |p.name| < NAME_SIZE && |p.logPath| < NAME_SIZE
  {
    var r := ResolveAliases(Naming(ShortName(device), None), ps);
    Probe(DevicePath(device), r.name, if r.lastAlias.Some? then LogPath(r.lastAlias.value) else LogPath(device))
  }

  /** The walk is a left fold: adding an entry at the end is one more step after the rest. */
  lemma {:induction false} ResolveSnoc(n: Naming, ps: seq<Pair>, p: Pair)
    ensures ResolveAliases(n, ps + [p]) == AliasStep(ResolveAliases(n, ps), p)
    decreases |ps|
  {
    if ps == [] {
      assert ([] + [p])[1..] == [];
    } else {
      assert (ps + [p])[0] == ps[0];
      assert (ps + [p])[1..] == ps[1..] + [p];
      ResolveSnoc(AliasStep(n, ps[0]), ps[1..], p);
    }
  }

  /** Some entry's real name matches `name`. */
  predicate AnyMatch(name: string, ps: seq<Pair>) {
    exists i :: 0 <= i < |ps| && Matches(name, ps[i])
  }

  /** An unrenamed probe is renamed exactly when some entry's real name matches its name. */
  lemma {:induction false} RenamedIff(n: Naming, ps: seq<Pair>)
    requires n.lastAlias.None?
    ensures ResolveAliases(n, ps).lastAlias.Some? <==> AnyMatch(n.name, ps)
    decreases |ps|
  {
    if ps != [] {
      var next := AliasStep(n, ps[0]);
      if !Matches(n.name, ps[0]) {
        RenamedIff(next, ps[1..]);
        if AnyMatch(n.name, ps) {
          var i :| 0 <= i < |ps| && Matches(n.name, ps[i]);
          assert ps[1..][i - 1] == ps[i];
        }
        if AnyMatch(n.name, ps[1..]) {
          var i :| 0 <= i < |ps[1..]| && Matches(n.name, ps[1..][i]);
          assert ps[i + 1] == ps[1..][i];
        }
      } else {
        assert Matches(n.name, ps[0]);
      }
    }
  }

  /**
   * A device no entry names keeps its own name and logs to `LOGROOT/<device>.log`;
   * a device some entry names takes the name and log file of the alias applied last.
   */
  lemma NameProbeAliasing(device: string, ps: seq<Pair>)
    ensures !AnyMatch(ShortName(device), ps) ==>
              NameProbe(device, ps) == Probe(DevicePath(device), ShortName(device), LogPath(device))
    ensures AnyMatch(ShortName(device), ps) ==>
              exists a :: NameProbe(device, ps) == Probe(DevicePath(device), ShortName(a), LogPath(a))
  {
    var n := Naming(ShortName(device), None);
    RenamedIff(n, ps);
    var r := ResolveAliases(n, ps);
    if r.lastAlias.Some? {
      assert NameProbe(device, ps) == Probe(DevicePath(device), ShortName(r.lastAlias.value), LogPath(r.lastAlias.value));
    }
  }

  /** The entry that matches the name the earlier entries produced decides the probe's name and log. */
  lemma LastMatchWins(device: string, ps: seq<Pair>, p: Pair)
    requires Matches(ResolveAliases(Naming(ShortName(device), None), ps).name, p)
    ensures NameProbe(device, ps + [p]) == Probe(DevicePath(device), ShortName(p.aliasname), LogPath(p.aliasname))
  {
    ResolveSnoc(Naming(ShortName(device), None), ps, p);
  }

  /** Walking a two-entry table is two steps. */
  lemma ResolveTwo(n: Naming, p1: Pair, p2: Pair)
    ensures ResolveAliases(n, [p1, p2]) == AliasStep(AliasStep(n, p1), p2)
  {
    var m := AliasStep(n, p1);
    assert [p1, p2][1..] == [p2];
    assert ResolveAliases(n, [p1, p2]) == ResolveAliases(m, [p2]);
    assert [p2][1..] == [];
    assert ResolveAliases(m, [p2]) == ResolveAliases(AliasStep(m, p2), []);
  }

  /**
   * Aliases chain: the entries `28-a x` and `X y` name device `28-a` "y", because the
   * second entry is compared with the name the first one gave.
   */
  lemma AliasChainExample()
    ensures NameProbe("28-a", [Pair("28-a", "x"), Pair("X", "y")]) ==
              Probe(DevicePath("28-a"), "y", LogPath("y"))
  {
    var n0 := Naming(ShortName("28-a"), None);
    assert n0.name == "28-a";
    DeviceMatchesItself();
    AliasMatchesUpper();
    ResolveTwo(n0, Pair("28-a", "x"), Pair("X", "y"));
  }

  lemma DeviceMatchesItself()
    ensures Matches("28-a", Pair("28-a", "x")) && Matches("28-a", Pair("28-a", "y"))
  {
    CaseEqNRefl("28-a", NAME_SIZE);
  }

  lemma AliasMatchesUpper()
    ensures Matches("x", Pair("X", "y"))
  {
    assert "x"[1..] == [] && "X"[1..] == [];
    assert ToLower('X') == 'x';
  }

  lemma AliasMissesDevice()
    ensures !Matches("x", Pair("28-a", "y"))
  {
    assert ToLower('x') != ToLower('2');
  }

  /**
   * Two entries for the same device: the first renames it, and the second no longer
   * matches the new name, so the first wins here, by the chaining above.
   */
  lemma DuplicateAliasExample()
    ensures NameProbe("28-a", [Pair("28-a", "x"), Pair("28-a", "y")]) ==
              Probe(DevicePath("28-a"), "x", LogPath("x"))
  {
    var n0 := Naming(ShortName("28-a"), None);
    assert n0.name == "28-a";
    DeviceMatchesItself();
    AliasMissesDevice();
    ResolveTwo(n0, Pair("28-a", "x"), Pair("28-a", "y"));
  }

  /** The device names `findprobes` keeps, in directory order. */
  function Qualifying(devices: seq<string>): (q: seq<string>)
    ensures |q| <= |devices|
    ensures forall i :: 0 <= i < |q| ==> IsDs18b20(q[i])
    ensures forall d :: d in q <==> d in devices && IsDs18b20(d)
    decreases |devices|
  {
    if devices == [] then []
    else (if IsDs18b20(devices[0]) then [devices[0]] else []) + Qualifying(devices[1..])
  }

  /** Filtering a listing in two parts filters each part, in order. */
  lemma {:induction false} QualifyingAppend(a: seq<string>, b: seq<string>)
    ensures Qualifying(a + b) == Qualifying(a) + Qualifying(b)
    decreases |a|
  {
    if a == [] {
      assert a + b == b;
    } else {
      var head := if IsDs18b20(a[0]) then [a[0]] else [];
      assert (a + b)[1..] == a[1..] + b;
      QualifyingAppend(a[1..], b);
      assert Qualifying(a + b) == head + (Qualifying(a[1..]) + Qualifying(b));
    }
  }

  /** A one-name listing keeps its name exactly when the name starts with `28-`. */
  lemma QualifyingOne(d: string)
    ensures Qualifying([d]) == if IsDs18b20(d) then [d] else []
  {
    assert [d][1..] == [];
  }

  /**
   * The directory loop at ds18b20.c:141-164, given the names `readdir` returns in
   * order: one probe per qualifying device, in that order.
   */
  function FindProbes(devices: seq<string>, pairs: seq<Pair>): (ps: seq<Probe>)
    ensures |ps| == |Qualifying(devices)|
    decreases |devices|
  {
    if devices == [] then []
    else (if IsDs18b20(devices[0]) then [NameProbe(devices[0], pairs)] else []) + FindProbes(devices[1..], pairs)
  }

  /** `findprobes` is naming mapped over the qualifying devices. */
  lemma {:induction false} FindProbesNamesQualifying(devices: seq<string>, pairs: seq<Pair>)
    ensures forall i :: 0 <= i < |FindProbes(devices, pairs)| ==>
              FindProbes(devices, pairs)[i] == NameProbe(Qualifying(devices)[i], pairs)
    decreases |devices|
  {
    if devices != [] {
      FindProbesNamesQualifying(devices[1..], pairs);
    }
  }

  /** Listing a directory in two parts finds the probes of each part, in order. */
  lemma {:induction false} FindProbesAppend(d1: seq<string>, d2: seq<string>, pairs: seq<Pair>)
    ensures FindProbes(d1 + d2, pairs) == FindProbes(d1, pairs) + FindProbes(d2, pairs)
    decreases |d1|
  {
    if d1 == [] {
      assert d1 + d2 == d2;
    } else {
      var d := d1 + d2;
      assert d[0] == d1[0];
      assert d[1..] == d1[1..] + d2;
      var head := if IsDs18b20(d1[0]) then [NameProbe(d1[0], pairs)] else [];
      assert FindProbes(d, pairs) == head + FindProbes(d1[1..] + d2, pairs);
      assert FindProbes(d1, pairs) == head + FindProbes(d1[1..], pairs);
      FindProbesAppend(d1[1..], d2, pairs);
      AppendAssoc(head, FindProbes(d1[1..], pairs), FindProbes(d2, pairs));
    }
  }

  lemma AppendAssoc(a: seq<Probe>, b: seq<Probe>, c: seq<Probe>)
    ensures a + (b + c) == (a + b) + c
  {
  }

  /**
   * ds18b20.c:136-140: when the device directory cannot be opened `findprobes`
   * returns 0 probes.
   */
  function Discover(listing: Option<seq<string>>, pairs: seq<Pair>): (ps: seq<Probe>)
    ensures listing.None? ==> ps == []
    ensures listing.Some? ==> |ps| == |Qualifying(listing.value)|
  {
    match listing
    case None => []
    case Some(devices) => FindProbes(devices, pairs)
  }
}
