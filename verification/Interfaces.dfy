/** Interface utilization: joining SNMP columns by row index, and turning octet counters into bit rates. */
module Interfaces {
  import opened Wrappers
  import Text

  datatype WalkVar = WalkVar(oid: string, str: string)

  datatype Columns = Columns(names: seq<WalkVar>, inOct: seq<WalkVar>, outOct: seq<WalkVar>,
                             speed: seq<WalkVar>, oper: seq<WalkVar>)

  datatype Sample = Sample(inOct: nat, outOct: nat, ts: real)

  datatype Oper = Up | Down | Testing | Dormant | NotPresent | Unknown

  datatype Stat = Stat(deviceIP: string, ifIndex: string, ifName: string, oper: Oper,
                       inBps: int, outBps: int, speedBps: int)

  const IF_NAME := "1.3.6.1.2.1.31.1.1.1.1"
  const IF_IN := "1.3.6.1.2.1.31.1.1.1.6"
  const IF_OUT := "1.3.6.1.2.1.31.1.1.1.10"
  const IF_SPEED := "1.3.6.1.2.1.31.1.1.1.15"
  const IF_OPER := "1.3.6.1.2.1.2.2.1.8"

  const UINT64: nat := 0x1_0000_0000_0000_0000

  // ----- the column join -----

  // The row index of an object id under a column; empty when it is not in that column.
  function IndexAfter(oid: string, root: string): string {
    var o, r := Text.TrimPrefix(oid, "."), Text.TrimPrefix(root, ".");
    if r + "." <= o then o[|r| + 1..] else ""
  }

  function ByIndex(vars: seq<WalkVar>, root: string): map<string, string> {
    if vars == [] then map[]
    else
      var m := ByIndex(vars[..|vars| - 1], root);
      var v := vars[|vars| - 1];
      if IndexAfter(v.oid, root) != "" then m[IndexAfter(v.oid, root) := v.str] else m
  }

  /** An object id has an index under a column exactly when it is the column, a dot and that index. */
  lemma IndexIsTheRest(oid: string, root: string, idx: string)
    requires idx != ""
    ensures IndexAfter(oid, root) == idx <==> Text.TrimPrefix(oid, ".") == Text.TrimPrefix(root, ".") + "." + idx
  {
  }

  /** Two columns of one table never mix, even when one column number is a textual prefix of the other:
      no object id has an index under both. */
  lemma ColumnsNeverMix(table: string, a: string, b: string, oid: string)
    requires table != "" && table[0] != '.' && '.' !in a && '.' !in b && a != b
    ensures IndexAfter(oid, table + "." + a) == "" || IndexAfter(oid, table + "." + b) == ""
  {
    var ra, rb := table + "." + a, table + "." + b;
    var i, j := IndexAfter(oid, ra), IndexAfter(oid, rb);
    if i != "" && j != "" {
      IndexIsTheRest(oid, ra, i);
      IndexIsTheRest(oid, rb, j);
      var o := Text.TrimPrefix(oid, ".");
      assert ra[0] == table[0] && rb[0] == table[0];
      assert "."[0] == '.';
      assert Text.TrimPrefix(ra, ".") == ra && Text.TrimPrefix(rb, ".") == rb;
      assert o == ra + "." + i && o == rb + "." + j;
      assert (a + ['.'] + i) == o[|table| + 1..];
      assert (b + ['.'] + j) == o[|table| + 1..];
      Text.SplitAtFirst('.', a, b, i, j);
    }
  }

  // Position k holds the last value walked under the index.
  ghost predicate LastAt(vars: seq<WalkVar>, root: string, idx: string, k: nat) {
    && k < |vars| && IndexAfter(vars[k].oid, root) == idx
    && forall l | k < l < |vars| :: IndexAfter(vars[l].oid, root) != idx
  }

  // What a join has under an index: the last value walked there, or nothing if nothing was.
  ghost predicate Joins(m: map<string, string>, vars: seq<WalkVar>, root: string, idx: string) {
    if idx in m then exists k: nat :: LastAt(vars, root, idx, k) && vars[k].str == m[idx]
    else forall v | v in vars :: IndexAfter(v.oid, root) != idx
  }

  lemma JoinStep(m: map<string, string>, init: seq<WalkVar>, v: WalkVar, root: string, idx: string)
    requires idx != "" && Joins(m, init, root, idx)
    ensures var i := IndexAfter(v.oid, root);
            Joins(if i != "" then m[i := v.str] else m, init + [v], root, idx)
  {
    var i, vars := IndexAfter(v.oid, root), init + [v];
    if i == idx {
      assert LastAt(vars, root, idx, |init|);
    } else if idx in m {
      var k: nat :| LastAt(init, root, idx, k) && init[k].str == m[idx];
      assert LastAt(vars, root, idx, k);
    } else {
      forall w | w in vars ensures IndexAfter(w.oid, root) != idx {
        assert w in init || w == v;
      }
    }
  }

  /** The join pairs only rows with the same index: what it files under an index is the last value walked
      there, and an index is missing exactly when nothing was. */
  lemma {:induction false} JoinIsByIndex(vars: seq<WalkVar>, root: string, idx: string)
    requires idx != ""
    ensures Joins(ByIndex(vars, root), vars, root, idx)
  {
    if vars != [] {
      var init, v := vars[..|vars| - 1], vars[|vars| - 1];
      JoinIsByIndex(init, root, idx);
      JoinStep(ByIndex(init, root), init, v, root, idx);
      assert vars == init + [v];
    }
  }

  method JoinColumn(vars: seq<WalkVar>, root: string) returns (m: map<string, string>)
    ensures m == ByIndex(vars, root)
  {
    m := map[];
    for i := 0 to |vars|
      invariant m == ByIndex(vars[..i], root)
    {
      assert vars[..i + 1][..i] == vars[..i];
      var idx := IndexAfter(vars[i].oid, root);
      if idx != "" { m := m[idx := vars[i].str]; }
    }
    assert vars[..|vars|] == vars;
  }

  // ----- rates -----

  predicate AllDigits(s: string) { forall i | 0 <= i < |s| :: '0' <= s[i] <= '9' }

  function Decimal(s: string): nat
    requires AllDigits(s)
  {
    if s == "" then 0 else 10 * Decimal(s[..|s| - 1]) + (s[|s| - 1] as int - '0' as int)
  }

  // A decimal 64-bit counter; 0 when it cannot be read.
  function ParseUint(s: string): nat {
    var t := Text.TrimSpace(s);
    if t != "" && AllDigits(t) && Decimal(t) < UINT64 then Decimal(t) else 0
  }

  function ComputeBps(prev: nat, cur: nat, dt: real): int {
    if dt <= 0.0 || cur < prev then 0 else (((cur - prev) * 8) as real / dt).Floor
  }

  function Value(m: map<string, string>, idx: string): string { if idx in m then m[idx] else "" }

  // ifOperStatus, by its one-digit code.
  function OperOf(s: string): Oper {
    var t := Text.TrimSpace(s);
    if |t| != 1 then Unknown
    else match t[0]
      case '1' => Up
      case '2' => Down
      case '3' => Testing
      case '5' => Dormant
      case '6' => NotPresent
      case _ => Unknown
  }

  // The five columns of a device, joined by row index.
  datatype Joined = Joined(names: map<string, string>, inOct: map<string, string>, outOct: map<string, string>,
                           speed: map<string, string>, oper: map<string, string>)

  function Join(cols: Columns): Joined {
    Joined(ByIndex(cols.names, IF_NAME), ByIndex(cols.inOct, IF_IN), ByIndex(cols.outOct, IF_OUT),
           ByIndex(cols.speed, IF_SPEED), ByIndex(cols.oper, IF_OPER))
  }

  method JoinColumns(cols: Columns) returns (j: Joined)
    ensures j == Join(cols)
  {
    var names := JoinColumn(cols.names, IF_NAME);
    var inOct := JoinColumn(cols.inOct, IF_IN);
    var outOct := JoinColumn(cols.outOct, IF_OUT);
    var speed := JoinColumn(cols.speed, IF_SPEED);
    var oper := JoinColumn(cols.oper, IF_OPER);
    j := Joined(names, inOct, outOct, speed, oper);
  }

  // Rows with a name are the interfaces of the device.
  predicate Named(j: Joined, idx: string) {
    idx in j.names && Text.TrimSpace(j.names[idx]) != ""
  }

  function SampleOf(j: Joined, idx: string, now: real): Sample {
    Sample(ParseUint(Value(j.inOct, idx)), ParseUint(Value(j.outOct, idx)), now)
  }

  // Samples by device address and interface index.
  type History = map<(string, string), Sample>

  datatype Direction = In | Out

  function Octets(s: Sample, d: Direction): nat { if d == In then s.inOct else s.outOct }

  // The rate since the previous cycle; 0 without an earlier sample to compare with.
  function Bps(prev: History, key: (string, string), s: Sample, d: Direction): int {
    if key in prev && s.ts > prev[key].ts then ComputeBps(Octets(prev[key], d), Octets(s, d), s.ts - prev[key].ts) else 0
  }

  // One row of a device's table as a stat.
  function StatFor(host: string, j: Joined, prev: History, now: real, idx: string): (st: Stat)
    ensures st.deviceIP == host && st.ifIndex == idx
  {
    var s := SampleOf(j, idx, now);
    Stat(host, idx, Text.TrimSpace(Value(j.names, idx)), OperOf(Value(j.oper, idx)),
         Bps(prev, (host, idx), s, In), Bps(prev, (host, idx), s, Out), ParseUint(Value(j.speed, idx)) * 1_000_000)
  }

  function Rows(host: string, j: Joined, prev: History, now: real): string -> Stat {
    (idx: string) => StatFor(host, j, prev, now, idx)
  }

  function SamplesIn(rows: set<string>, host: string, j: Joined, now: real): History {
    map idx | idx in rows && Named(j, idx) :: (host, idx) := SampleOf(j, idx, now)
  }

  function SamplesOf(host: string, j: Joined, now: real): History {
    SamplesIn(j.names.Keys, host, j, now)
  }

  datatype Poll = Poll(host: string, cols: Columns)

  function PollSamples(poll: Poll, now: real): History { SamplesOf(poll.host, Join(poll.cols), now) }

  function Sampler(now: real): Poll -> History { (poll: Poll) => PollSamples(poll, now) }

  // The samples of several polls; the last with a key decides.
  function Merge(polls: seq<Poll>, samples: Poll -> History): History {
    if polls == [] then map[] else Merge(polls[..|polls| - 1], samples) + samples(polls[|polls| - 1])
  }

  // What one cycle leaves as the history for the next; a later target wins for a repeated host.
  function CycleSamples(polls: seq<Poll>, now: real): History { Merge(polls, Sampler(now)) }

  lemma MergeThen(polls: seq<Poll>, poll: Poll, samples: Poll -> History)
    ensures Merge(polls + [poll], samples) == Merge(polls, samples) + samples(poll)
  {
    assert (polls + [poll])[..|polls|] == polls;
  }

  lemma {:induction false} MergeAt(polls: seq<Poll>, samples: Poll -> History, k: nat, key: (string, string))
    requires k < |polls| && key in samples(polls[k]) && forall l | k < l < |polls| :: key !in samples(polls[l])
    ensures key in Merge(polls, samples) && Merge(polls, samples)[key] == samples(polls[k])[key]
  {
    if k < |polls| - 1 { MergeAt(polls[..|polls| - 1], samples, k, key); }
  }

  lemma {:induction false} MergedFrom(polls: seq<Poll>, samples: Poll -> History, key: (string, string)) returns (poll: Poll)
    requires key in Merge(polls, samples)
    ensures poll in polls && key in samples(poll)
  {
    poll := polls[|polls| - 1];
    if key !in samples(poll) { poll := MergedFrom(polls[..|polls| - 1], samples, key); }
  }

  ghost predicate IsStat(st: Stat, host: string, j: Joined, prev: History, now: real) {
    Named(j, st.ifIndex) && st == StatFor(host, j, prev, now, st.ifIndex)
  }

  // One stat for each of the rows, and no others.
  ghost predicate OneEach(stats: seq<Stat>, rows: set<string>, row: string -> Stat) {
    && (forall st :: st in stats <==> st.ifIndex in rows && st == row(st.ifIndex))
    && (forall i, k | 0 <= i < k < |stats| :: stats[i].ifIndex != stats[k].ifIndex)
  }

  lemma OneRowMore(stats: seq<Stat>, rows: set<string>, row: string -> Stat, idx: string)
    requires OneEach(stats, rows, row) && idx !in rows && row(idx).ifIndex == idx
    ensures OneEach(stats + [row(idx)], rows + {idx}, row)
  {
  }

  function NamedRows(j: Joined, rows: set<string>): set<string> { set idx | idx in rows && Named(j, idx) }

  lemma OneSamplePerRow(idx: string, rows: set<string>, host: string, j: Joined, now: real)
    ensures SamplesIn(rows + {idx}, host, j, now) ==
            if Named(j, idx) then SamplesIn(rows, host, j, now)[(host, idx) := SampleOf(j, idx, now)] else SamplesIn(rows, host, j, now)
  {
  }

  method BuildStats(host: string, j: Joined, prev: History, now: real) returns (stats: seq<Stat>, next: History)
    ensures next == SamplesOf(host, j, now)
    ensures OneEach(stats, NamedRows(j, j.names.Keys), Rows(host, j, prev, now))
  {
    stats, next := [], map[];
    var rest := j.names.Keys;
    ghost var done := {};
    while rest != {}
      invariant done * rest == {} && done + rest == j.names.Keys
      invariant next == SamplesIn(done, host, j, now)
      invariant OneEach(stats, NamedRows(j, done), Rows(host, j, prev, now))
    {
      var idx :| idx in rest;   // the iteration order of a Go map is arbitrary
      OneSamplePerRow(idx, done, host, j, now);
      assert NamedRows(j, done + {idx}) == NamedRows(j, done) + (if Named(j, idx) then {idx} else {});
      rest, done := rest - {idx}, done + {idx};
      if Text.TrimSpace(j.names[idx]) != "" {
        next := next[(host, idx) := SampleOf(j, idx, now)];
        OneRowMore(stats, NamedRows(j, done - {idx}), Rows(host, j, prev, now), idx);
        stats := stats + [StatFor(host, j, prev, now, idx)];
      }
    }
    assert done == j.names.Keys;
  }

  // Some poll yields this stat.
  ghost predicate IsStatOfSome(st: Stat, polls: seq<Poll>, prev: History, now: real) {
    exists poll :: poll in polls && IsStat(st, poll.host, Join(poll.cols), prev, now)
  }

  ghost predicate AllStats(all: seq<Stat>, polls: seq<Poll>, prev: History, now: real) {
    forall st :: st in all <==> IsStatOfSome(st, polls, prev, now)
  }

  lemma OnePollMore(all: seq<Stat>, stats: seq<Stat>, polls: seq<Poll>, poll: Poll, prev: History, now: real)
    requires AllStats(all, polls, prev, now)
    requires forall st :: st in stats <==> IsStat(st, poll.host, Join(poll.cols), prev, now)
    ensures AllStats(all + stats, polls + [poll], prev, now)
  {
  }

  lemma PrefixPolled(all: seq<Stat>, stats: seq<Stat>, polls: seq<Poll>, i: nat, prev: History, now: real)
    requires i < |polls| && AllStats(all, polls[..i], prev, now)
    requires forall st :: st in stats <==> IsStat(st, polls[i].host, Join(polls[i].cols), prev, now)
    ensures AllStats(all + stats, polls[..i + 1], prev, now)
    ensures CycleSamples(polls[..i + 1], now) == CycleSamples(polls[..i], now) + PollSamples(polls[i], now)
  {
    assert polls[..i + 1] == polls[..i] + [polls[i]];
    MergeThen(polls[..i], polls[i], Sampler(now));
    OnePollMore(all, stats, polls[..i], polls[i], prev, now);
  }

  method PollOne(poll: Poll, prev: History, now: real) returns (stats: seq<Stat>, next: History)
    ensures next == PollSamples(poll, now)
    ensures forall st :: st in stats <==> IsStat(st, poll.host, Join(poll.cols), prev, now)
  {
    var j := JoinColumns(poll.cols);
    stats, next := BuildStats(poll.host, j, prev, now);
    assert forall idx :: idx in NamedRows(j, j.names.Keys) <==> Named(j, idx);
  }

  lemma SamplesInHas(poll: Poll, idx: string, host: string, now: real)
    ensures var j := Join(poll.cols);
            var samples := PollSamples(poll, now);
            if host != poll.host then (host, idx) !in samples
            else Named(j, idx) ==> (host, idx) in samples && samples[(host, idx)] == SampleOf(j, idx, now)
  {
  }

  lemma CycleSampleAt(polls: seq<Poll>, k: nat, idx: string, now: real)
    requires k < |polls| && forall l | k < l < |polls| :: polls[l].host != polls[k].host
    requires Named(Join(polls[k].cols), idx)
    ensures var key := (polls[k].host, idx);
            key in CycleSamples(polls, now) && CycleSamples(polls, now)[key] == SampleOf(Join(polls[k].cols), idx, now)
  {
    var key := (polls[k].host, idx);
    SamplesInHas(polls[k], idx, key.0, now);
    forall l | k < l < |polls| ensures key !in Sampler(now)(polls[l]) { SamplesInHas(polls[l], idx, key.0, now); }
    MergeAt(polls, Sampler(now), k, key);
  }

  /** When no device is polled twice in a cycle, a reported rate is the one between the sample the cycle
      before left for that interface and the sample this cycle leaves. */
  lemma StatsCarryTheRates(polls: seq<Poll>, prev: History, now: real, st: Stat)
    requires forall k, l | 0 <= k < l < |polls| :: polls[k].host != polls[l].host
    requires IsStatOfSome(st, polls, prev, now)
    ensures var key, next := (st.deviceIP, st.ifIndex), CycleSamples(polls, now);
            && key in next && next[key].ts == now
            && st.inBps == Bps(prev, key, next[key], In) && st.outBps == Bps(prev, key, next[key], Out)
  {
    var poll :| poll in polls && IsStat(st, poll.host, Join(poll.cols), prev, now);
    var k: nat :| k < |polls| && polls[k] == poll;
    CycleSampleAt(polls, k, st.ifIndex, now);
  }

  // ----- what a row says, in terms of the walked texts -----

  // The text last walked under an index, blank if none was.
  ghost predicate Walked(vars: seq<WalkVar>, root: string, idx: string, text: string) {
    || (exists k: nat :: LastAt(vars, root, idx, k) && vars[k].str == text)
    || (text == "" && forall v | v in vars :: IndexAfter(v.oid, root) != idx)
  }

  lemma WalkedIsValue(vars: seq<WalkVar>, root: string, idx: string, text: string)
    requires idx != "" && Walked(vars, root, idx, text)
    ensures Value(ByIndex(vars, root), idx) == text
  {
    JoinIsByIndex(vars, root, idx);
    var m := ByIndex(vars, root);
    if exists k: nat :: LastAt(vars, root, idx, k) && vars[k].str == text {
      var k: nat :| LastAt(vars, root, idx, k) && vars[k].str == text;
      assert vars[k] in vars;
      if idx in m {
        var l: nat :| LastAt(vars, root, idx, l) && vars[l].str == m[idx];
        assert k == l;
      }
    }
  }

  // The five texts walked for an interface.
  ghost predicate WalkedRow(cols: Columns, idx: string, name: string, inOct: string, outOct: string, speed: string, oper: string) {
    && idx != ""
    && Walked(cols.names, IF_NAME, idx, name)
    && Walked(cols.inOct, IF_IN, idx, inOct)
    && Walked(cols.outOct, IF_OUT, idx, outOct)
    && Walked(cols.speed, IF_SPEED, idx, speed)
    && Walked(cols.oper, IF_OPER, idx, oper)
  }

  // The label of an ifOperStatus.
  ghost predicate OperIs(text: string, oper: Oper) {
    var t := Text.TrimSpace(text);
    && (oper == Up <==> t == "1") && (oper == Down <==> t == "2") && (oper == Testing <==> t == "3")
    && (oper == Dormant <==> t == "5") && (oper == NotPresent <==> t == "6")
  }

  lemma OperOfIs(text: string)
    ensures OperIs(text, OperOf(text))
  {
  }

  lemma WalkedTexts(cols: Columns, idx: string, name: string, inOct: string, outOct: string, speed: string, oper: string)
    requires WalkedRow(cols, idx, name, inOct, outOct, speed, oper)
    ensures var j := Join(cols);
            && Value(j.names, idx) == name && Value(j.inOct, idx) == inOct && Value(j.outOct, idx) == outOct
            && Value(j.speed, idx) == speed && Value(j.oper, idx) == oper
  {
    WalkedIsValue(cols.names, IF_NAME, idx, name);
    WalkedIsValue(cols.inOct, IF_IN, idx, inOct);
    WalkedIsValue(cols.outOct, IF_OUT, idx, outOct);
    WalkedIsValue(cols.speed, IF_SPEED, idx, speed);
    WalkedIsValue(cols.oper, IF_OPER, idx, oper);
  }

  /** What a poll reports about an interface and remembers for the next cycle, from the five texts walked under its
      index: it is reported exactly if its name is not blank, and then each field is the reading of its own column. */
  lemma ReportsWhatWasWalked(poll: Poll, idx: string, prev: History, now: real, stats: seq<Stat>,
                             name: string, inOct: string, outOct: string, speed: string, oper: string)
    requires WalkedRow(poll.cols, idx, name, inOct, outOct, speed, oper)
    requires AllStats(stats, [poll], prev, now)
    ensures (exists st :: st in stats && st.ifIndex == idx) <==> Text.TrimSpace(name) != ""
    ensures (poll.host, idx) in CycleSamples([poll], now) <==> Text.TrimSpace(name) != ""
    ensures forall st | st in stats && st.ifIndex == idx ::
              && st.deviceIP == poll.host && st.ifName == Text.TrimSpace(name) && OperIs(oper, st.oper)
              && st.speedBps == ParseUint(speed) * 1_000_000
              && CycleSamples([poll], now)[(poll.host, idx)] == Sample(ParseUint(inOct), ParseUint(outOct), now)
  {
    WalkedTexts(poll.cols, idx, name, inOct, outOct, speed, oper);
    OperOfIs(oper);
    var j := Join(poll.cols);
    if Named(j, idx) {
      var st := StatFor(poll.host, j, prev, now, idx);
      assert IsStat(st, poll.host, j, prev, now);
      assert IsStatOfSome(st, [poll], prev, now) && st in stats;
      CycleSampleAt([poll], 0, idx, now);
    } else if (poll.host, idx) in CycleSamples([poll], now) {
      var p := SampledIsPolled([poll], now, (poll.host, idx));
    }
  }

  // ----- reading a counter -----

  function Digit(d: nat): char
    requires d < 10
  {
    ['0', '1', '2', '3', '4', '5', '6', '7', '8', '9'][d]
  }

  function Numeral(n: nat): (s: string)
    ensures s != "" && AllDigits(s)
  {
    if n < 10 then [Digit(n)] else Numeral(n / 10) + [Digit(n % 10)]
  }

  lemma {:induction false} NumeralReads(n: nat)
    ensures Decimal(Numeral(n)) == n
  {
    var s := Numeral(n);
    if n < 10 {
      assert s[..0] == "";
    } else {
      NumeralReads(n / 10);
      assert s[..|s| - 1] == Numeral(n / 10);
    }
  }

  /** A 64-bit counter is read back from its decimal numeral, with any white space around it; a wider one counts
      as zero. */
  lemma CountersAreReadBack(n: nat, pre: string, post: string)
    requires Text.Blank(pre) && Text.Blank(post)
    ensures ParseUint(pre + Numeral(n) + post) == if n < UINT64 then n else 0
  {
    Text.TrimFinds(pre, Numeral(n), post);
    NumeralReads(n);
  }

  class Collector {
    var prev: History

    method Collect(polls: seq<Poll>, now: real) returns (all: seq<Stat>)
      modifies this
      ensures prev == CycleSamples(polls, now)
      ensures AllStats(all, polls, old(prev), now)
    {
      all := [];
      var next: History := map[];
      for i := 0 to |polls|
        invariant prev == old(prev) && next == CycleSamples(polls[..i], now)
        invariant AllStats(all, polls[..i], prev, now)
      {
        var stats, np := PollOne(polls[i], prev, now);
        PrefixPolled(all, stats, polls, i, prev, now);
        all := all + stats;
        next := next + np;
      }
      assert polls[..|polls|] == polls;
      prev := next;
    }
  }

  // ----- one rate -----

  lemma DivMul(n: real, d: real)
    requires d > 0.0
    ensures n / d * d == n
  {
  }

  lemma ProductBounds(f: real, d: real)
    requires 0.0 <= f < 1.0 && d > 0.0
    ensures 0.0 <= f * d && f * d < d
  {
    var g := 1.0 - f;
    assert g * d > 0.0;
    assert f * d + g * d == d;
  }

  lemma SumTimes(k: real, f: real, q: real, d: real)
    requires q == k + f
    ensures q * d == k * d + f * d
  {
  }

  lemma WholePart(q: real, k: real, n: real, d: real)
    requires d > 0.0 && q * d == n && k <= q < k + 1.0
    ensures n - d < k * d && k * d <= n
  {
    var f := q - k;
    ProductBounds(f, d);
    SumTimes(k, f, q, d);
    var qd, kd, fd := q * d, k * d, f * d;
    assert qd == kd + fd;
    assert 0.0 <= fd && fd < d;
  }

  lemma FloorTimesOf(q: real, n: real, d: real)
    requires d > 0.0 && q * d == n
    ensures n - d < q.Floor as real * d <= n
  {
    WholePart(q, q.Floor as real, n, d);
  }

  lemma FloorTimes(n: real, d: real)
    requires d > 0.0
    ensures n - d < (n / d).Floor as real * d <= n
  {
    DivMul(n, d);
    FloorTimesOf(n / d, n, d);
  }

  /** One rate accounts for at most the bits moved, and misses less than one bit per second. */
  lemma RateBounds(prev: nat, cur: nat, dt: real)
    requires dt > 0.0 && prev <= cur
    ensures ((cur - prev) * 8) as real - dt < ComputeBps(prev, cur, dt) as real * dt <= ((cur - prev) * 8) as real
  {
    FloorTimes(((cur - prev) * 8) as real, dt);
  }

  predicate Readable(s: string) {
    var t := Text.TrimSpace(s);
    t != "" && AllDigits(t) && Decimal(t) < UINT64
  }

  lemma ApartBy(p: real, q: real, x: real, y: real, d: real)
    requires d > 0.0 && x >= y + d && p * d == x && q * d == y
    ensures p >= q + 1.0
  {
    var f, g := p - q, q + 1.0 - p;
    SumTimes(q, f, p, d);
    SumTimes(f, g, 1.0, d);
    SignOf(g, d);
  }

  lemma SignOf(g: real, d: real)
    requires d > 0.0 && g * d <= 0.0
    ensures g <= 0.0
  {
  }

  lemma QuotientsApart(x: real, y: real, d: real)
    requires d > 0.0 && x >= y + d
    ensures (x / d).Floor > (y / d).Floor
  {
    DivMul(x, d);
    DivMul(y, d);
    ApartBy(x / d, y / d, x, y, d);
  }

  lemma UnreadableIsZero(s: string)
    ensures !Readable(s) ==> ParseUint(s) == 0
  {
  }

  lemma SpikeFromZero(c0: nat, c1: nat, dt: real)
    requires c0 <= c1 && 0.0 < dt <= (8 * c0) as real
    ensures ComputeBps(0, c1, dt) > ComputeBps(c0, c1, dt)
    ensures c0 > 0 && ComputeBps(c0, 0, dt) == 0 <= ComputeBps(c0, c1, dt)
  {
    QuotientsApart((c1 * 8) as real, ((c1 - c0) * 8) as real, dt);
    FloorTimes(((c1 - c0) * 8) as real, dt);
  }

  lemma NothingMoved(c: nat, dt: real)
    requires dt > 0.0
    ensures ComputeBps(c, 0, dt) == 0
    ensures forall d: nat :: ComputeBps(d, c, dt) >= 0
  {
    forall d: nat ensures ComputeBps(d, c, dt) >= 0 {
      if d <= c { FloorTimes(((c - d) * 8) as real, dt); }
    }
  }

  /** An unreadable counter counts as zero: the reported rate is the true one if both texts are readable, zero if
      the later is not, and the rate of the whole count if only the earlier is not. So it exceeds the true rate
      only in the last case, and always then, once the counter had moved by a bit for every second of the
      interval. */
  lemma UnreadableCountersSpike(text0: string, text1: string, c0: nat, c1: nat, dt: real)
    requires c0 <= c1 && dt > 0.0
    requires (Readable(text0) ==> ParseUint(text0) == c0) && (Readable(text1) ==> ParseUint(text1) == c1)
    ensures var reported, exact := ComputeBps(ParseUint(text0), ParseUint(text1), dt), ComputeBps(c0, c1, dt);
            && reported == (if !Readable(text1) then 0 else if Readable(text0) then exact else ComputeBps(0, c1, dt))
            && (reported > exact ==> !Readable(text0) && Readable(text1))
            && (dt <= (8 * c0) as real ==> (reported > exact <==> !Readable(text0) && Readable(text1)))
  {
    UnreadableIsZero(text0);
    UnreadableIsZero(text1);
    NothingMoved(ParseUint(text0), dt);
    NothingMoved(c1, dt);
    if dt <= (8 * c0) as real { SpikeFromZero(c0, c1, dt); }
  }

  // ----- rates over a run of cycles -----

  // The interface was polled in each of the cycles, at increasing times and with non-decreasing counters.
  ghost predicate Steady(prev: History, cycles: seq<History>, key: (string, string), d: Direction)
    decreases |cycles|
  {
    && key in prev
    && (cycles != [] ==>
      && key in cycles[0] && prev[key].ts < cycles[0][key].ts && Octets(prev[key], d) <= Octets(cycles[0][key], d)
      && Steady(cycles[0], cycles[1..], key, d))
  }

  // The bits a cycle reports for an interface: its rate times the time the rate stands for.
  function Bits(prev: History, next: History, key: (string, string), d: Direction): real {
    if key in prev && key in next then Bps(prev, key, next[key], d) as real * (next[key].ts - prev[key].ts) else 0.0
  }

  function Reported(prev: History, cycles: seq<History>, key: (string, string), d: Direction): real
    decreases |cycles|
  {
    if cycles == [] then 0.0 else Bits(prev, cycles[0], key, d) + Reported(cycles[0], cycles[1..], key, d)
  }

  // The bits the counter moved by.
  function Moved(prev: History, next: History, key: (string, string), d: Direction): int {
    if key in prev && key in next then (Octets(next[key], d) - Octets(prev[key], d)) * 8 else 0
  }

  lemma BitsBounds(prev: History, next: History, key: (string, string), d: Direction)
    requires key in prev && key in next && prev[key].ts < next[key].ts && Octets(prev[key], d) <= Octets(next[key], d)
    ensures Moved(prev, next, key, d) as real - (next[key].ts - prev[key].ts) < Bits(prev, next, key, d) <= Moved(prev, next, key, d) as real
  {
    RateBounds(Octets(prev[key], d), Octets(next[key], d), next[key].ts - prev[key].ts);
  }

  /** Across a run of cycles in which an interface keeps being polled with non-decreasing counters, the rates
      reported for it never account for more bits than the counters moved, and fall short of them by less
      than one bit per second elapsed. */
  lemma {:induction false} ReportedBitsMatchTheCounters(prev: History, cycles: seq<History>, key: (string, string), d: Direction)
    requires cycles != [] && Steady(prev, cycles, key, d)
    ensures var last := cycles[|cycles| - 1];
            && key in last && prev[key].ts < last[key].ts && Octets(prev[key], d) <= Octets(last[key], d)
            && Moved(prev, last, key, d) as real - (last[key].ts - prev[key].ts) < Reported(prev, cycles, key, d)
            && Reported(prev, cycles, key, d) <= Moved(prev, last, key, d) as real
    decreases |cycles|
  {
    var next, rest := cycles[0], cycles[1..];
    BitsBounds(prev, next, key, d);
    if |cycles| > 1 {
      ReportedBitsMatchTheCounters(next, rest, key, d);
      var last := cycles[|cycles| - 1];
      assert rest[|rest| - 1] == last;
      assert Moved(prev, last, key, d) == Moved(prev, next, key, d) + Moved(next, last, key, d);
    } else {
      assert Reported(next, rest, key, d) == 0.0;
    }
  }

  // ----- the collector over a run of cycles -----

  datatype Cycle = Cycle(polls: seq<Poll>, now: real)

  // What one call leaves as history, and returns.
  ghost predicate CycleOf(prev: History, cycle: Cycle, hist: History, out: seq<Stat>) {
    hist == CycleSamples(cycle.polls, cycle.now) && AllStats(out, cycle.polls, prev, cycle.now)
  }

  type CallSpec = (History, Cycle, History, seq<Stat>) -> bool

  // Successive calls, each by this specification.
  ghost predicate RunBy(ok: CallSpec, prev: History, cycles: seq<Cycle>, hists: seq<History>, outs: seq<seq<Stat>>)
    decreases |cycles|
  {
    && |hists| == |cycles| && |outs| == |cycles|
    && (cycles != [] ==>
      ok(prev, cycles[0], hists[0], outs[0]) && RunBy(ok, hists[0], cycles[1..], hists[1..], outs[1..]))
  }

  lemma {:induction false} RunByThen(ok: CallSpec, prev: History, cycles: seq<Cycle>, hists: seq<History>, outs: seq<seq<Stat>>,
                                     cycle: Cycle, hist: History, out: seq<Stat>)
    requires RunBy(ok, prev, cycles, hists, outs)
    requires ok(LastOf(prev, hists), cycle, hist, out)
    ensures RunBy(ok, prev, cycles + [cycle], hists + [hist], outs + [out])
    decreases |cycles|
  {
    if cycles == [] {
      assert RunBy(ok, hist, [], [], []);
      assert [cycle][1..] == [] && [hist][1..] == [] && [out][1..] == [];
      assert cycles + [cycle] == [cycle] && hists + [hist] == [hist] && outs + [out] == [out];
    } else {
      RunByThen(ok, hists[0], cycles[1..], hists[1..], outs[1..], cycle, hist, out);
      assert (cycles + [cycle])[1..] == cycles[1..] + [cycle];
      assert (hists + [hist])[1..] == hists[1..] + [hist] && (outs + [out])[1..] == outs[1..] + [out];
    }
  }

  // The history the next call starts from.
  function LastOf(prev: History, hists: seq<History>): History { if hists == [] then prev else hists[|hists| - 1] }

  lemma PrefixThen(ok: CallSpec, prev: History, cycles: seq<Cycle>, i: nat, hists: seq<History>, outs: seq<seq<Stat>>,
                   hist: History, out: seq<Stat>)
    requires i < |cycles| && RunBy(ok, prev, cycles[..i], hists, outs) && ok(LastOf(prev, hists), cycles[i], hist, out)
    ensures RunBy(ok, prev, cycles[..i + 1], hists + [hist], outs + [out]) && LastOf(prev, hists + [hist]) == hist
  {
    assert cycles[..i + 1] == cycles[..i] + [cycles[i]];
    RunByThen(ok, prev, cycles[..i], hists, outs, cycles[i], hist, out);
  }

  method CollectCycle(c: Collector, cycle: Cycle) returns (out: seq<Stat>)
    modifies c
    ensures CycleOf(old(c.prev), cycle, c.prev, out)
  {
    out := c.Collect(cycle.polls, cycle.now);
  }

  // The agent's loop, which reports what every cycle returns.
  method CollectCycles(c: Collector, cycles: seq<Cycle>) returns (outs: seq<seq<Stat>>, ghost hists: seq<History>)
    modifies c
    ensures RunBy(CycleOf, old(c.prev), cycles, hists, outs)
    ensures c.prev == LastOf(old(c.prev), hists)
  {
    ghost var start := c.prev;
    outs, hists := [], [];
    for i := 0 to |cycles|
      invariant RunBy(CycleOf, start, cycles[..i], hists, outs)
      invariant c.prev == LastOf(start, hists)
    {
      var out := CollectCycle(c, cycles[i]);
      PrefixThen(CycleOf, start, cycles, i, hists, outs, c.prev, out);
      outs, hists := outs + [out], hists + [c.prev];
    }
    assert cycles[..|cycles|] == cycles;
  }

  function RateIn(st: Stat, d: Direction): int { if d == In then st.inBps else st.outBps }

  // The rate some stats report for an interface.
  function RateOf(out: seq<Stat>, key: (string, string), d: Direction): int {
    if out == [] then 0
    else if (out[0].deviceIP, out[0].ifIndex) == key then RateIn(out[0], d)
    else RateOf(out[1..], key, d)
  }

  lemma {:induction false} RateOfIs(out: seq<Stat>, key: (string, string), d: Direction, rate: int)
    requires forall st | st in out && (st.deviceIP, st.ifIndex) == key :: RateIn(st, d) == rate
    requires exists st :: st in out && (st.deviceIP, st.ifIndex) == key
    ensures RateOf(out, key, d) == rate
  {
    assert out[0] in out && forall st :: st in out <==> st == out[0] || st in out[1..];
    if (out[0].deviceIP, out[0].ifIndex) != key { RateOfIs(out[1..], key, d, rate); }
  }

  lemma SampledIsPolled(polls: seq<Poll>, now: real, key: (string, string)) returns (poll: Poll)
    requires key in CycleSamples(polls, now)
    ensures poll in polls && poll.host == key.0 && Named(Join(poll.cols), key.1)
  {
    poll := MergedFrom(polls, Sampler(now), key);
    SamplesInHas(poll, key.1, key.0, now);
  }

  ghost predicate PolledOnce(polls: seq<Poll>) { forall k, l | 0 <= k < l < |polls| :: polls[k].host != polls[l].host }

  lemma CycleReportsTheRate(polls: seq<Poll>, prev: History, now: real, out: seq<Stat>, key: (string, string), d: Direction)
    requires PolledOnce(polls) && AllStats(out, polls, prev, now) && key in CycleSamples(polls, now)
    ensures CycleSamples(polls, now)[key].ts == now
    ensures RateOf(out, key, d) == Bps(prev, key, CycleSamples(polls, now)[key], d)
  {
    var rate := Bps(prev, key, CycleSamples(polls, now)[key], d);
    forall st | st in out && (st.deviceIP, st.ifIndex) == key ensures RateIn(st, d) == rate {
      StatsCarryTheRates(polls, prev, now, st);
    }
    var poll := SampledIsPolled(polls, now, key);
    var st := StatFor(poll.host, Join(poll.cols), prev, now, key.1);
    assert IsStat(st, poll.host, Join(poll.cols), prev, now);
    assert IsStatOfSome(st, polls, prev, now);
    StatsCarryTheRates(polls, prev, now, st);
    RateOfIs(out, key, d, rate);
  }

  // The rate accounts for at most the bits moved in that time, and misses less than one bit per second.
  ghost predicate Accounts(rate: int, from: nat, to: nat, dt: real) {
    ((to - from) * 8) as real - dt < rate as real * dt <= ((to - from) * 8) as real
  }

  // The two samples can be compared.
  predicate Moves(prev: History, key: (string, string), s: Sample, d: Direction) {
    key in prev && prev[key].ts < s.ts && Octets(prev[key], d) <= Octets(s, d)
  }

  lemma BpsIs(prev: History, key: (string, string), s: Sample, d: Direction)
    ensures if Moves(prev, key, s, d) then Accounts(Bps(prev, key, s, d), Octets(prev[key], d), Octets(s, d), s.ts - prev[key].ts)
            else Bps(prev, key, s, d) == 0
  {
    if Moves(prev, key, s, d) { RateBounds(Octets(prev[key], d), Octets(s, d), s.ts - prev[key].ts); }
  }

  // The bits the returned rates stand for: each times the time since the cycle before.
  function Collected(since: real, cycles: seq<Cycle>, outs: seq<seq<Stat>>, key: (string, string), d: Direction): real
    requires |outs| == |cycles|
    decreases |cycles|
  {
    if cycles == [] then 0.0
    else RateOf(outs[0], key, d) as real * (cycles[0].now - since) + Collected(cycles[0].now, cycles[1..], outs[1..], key, d)
  }

  // A call whose stats carry the interface's rate since the call before.
  ghost predicate Carries(ok: CallSpec, key: (string, string), d: Direction) {
    forall prev: History, cycle: Cycle, hist: History, out: seq<Stat> | ok(prev, cycle, hist, out) && key in hist && PolledOnce(cycle.polls) ::
      hist[key].ts == cycle.now && RateOf(out, key, d) == Bps(prev, key, hist[key], d)
  }

  lemma CyclesCarry(key: (string, string), d: Direction)
    ensures Carries(CycleOf, key, d)
  {
    forall prev: History, cycle: Cycle, hist: History, out: seq<Stat> | CycleOf(prev, cycle, hist, out) && key in hist && PolledOnce(cycle.polls)
      ensures hist[key].ts == cycle.now && RateOf(out, key, d) == Bps(prev, key, hist[key], d)
    {
      CycleReportsTheRate(cycle.polls, prev, cycle.now, out, key, d);
    }
  }

  // What one interface's rate is after a call, the call by its specification.
  ghost predicate ReportsMovement(ok: CallSpec, key: (string, string), d: Direction) {
    forall prev: History, cycle: Cycle, hist: History, out: seq<Stat> | ok(prev, cycle, hist, out) && key in hist && PolledOnce(cycle.polls) ::
      if Moves(prev, key, hist[key], d)
      then Accounts(RateOf(out, key, d), Octets(prev[key], d), Octets(hist[key], d), cycle.now - prev[key].ts)
      else RateOf(out, key, d) == 0
  }

  lemma CarriedRatesReport(ok: CallSpec, key: (string, string), d: Direction)
    requires Carries(ok, key, d)
    ensures ReportsMovement(ok, key, d)
  {
    forall prev: History, cycle: Cycle, hist: History, out: seq<Stat> | ok(prev, cycle, hist, out) && key in hist && PolledOnce(cycle.polls)
      ensures if Moves(prev, key, hist[key], d)
              then Accounts(RateOf(out, key, d), Octets(prev[key], d), Octets(hist[key], d), cycle.now - prev[key].ts)
              else RateOf(out, key, d) == 0
    {
      BpsIs(prev, key, hist[key], d);
    }
  }

  /** A rate is reported only between two samples of an interface, of increasing time and counter, and then accounts
      for the bits moved; the first sight of an interface, a reset counter and a clock that stood still report zero. */
  lemma ResetsReportNothing(key: (string, string), d: Direction)
    ensures ReportsMovement(CycleOf, key, d)
  {
    CyclesCarry(key, d);
    CarriedRatesReport(CycleOf, key, d);
  }

  lemma {:induction false} CollectedIsReported(ok: CallSpec, prev: History, cycles: seq<Cycle>, hists: seq<History>,
                                               outs: seq<seq<Stat>>, key: (string, string), d: Direction)
    requires Carries(ok, key, d) && RunBy(ok, prev, cycles, hists, outs) && Steady(prev, hists, key, d)
    requires forall i | 0 <= i < |cycles| :: PolledOnce(cycles[i].polls)
    ensures Collected(prev[key].ts, cycles, outs, key, d) == Reported(prev, hists, key, d)
    decreases |cycles|
  {
    if cycles != [] {
      assert ok(prev, cycles[0], hists[0], outs[0]) && PolledOnce(cycles[0].polls);
      assert forall i | 0 <= i < |cycles[1..]| :: cycles[1..][i] == cycles[i + 1];
      CollectedIsReported(ok, hists[0], cycles[1..], hists[1..], outs[1..], key, d);
    }
  }

  /** The same for what the collector's calls return: over any run of cycles that polls an interface with
      non-decreasing counter values, at increasing times, and no device twice in a cycle. */
  lemma CollectedBitsMatchTheCounters(prev: History, cycles: seq<Cycle>, hists: seq<History>, outs: seq<seq<Stat>>,
                                      key: (string, string), d: Direction)
    requires cycles != [] && RunBy(CycleOf, prev, cycles, hists, outs) && Steady(prev, hists, key, d)
    requires forall i | 0 <= i < |cycles| :: PolledOnce(cycles[i].polls)
    ensures var last, sum := hists[|hists| - 1], Collected(prev[key].ts, cycles, outs, key, d);
            && key in last && prev[key].ts < last[key].ts
            && Moved(prev, last, key, d) as real - (last[key].ts - prev[key].ts) < sum <= Moved(prev, last, key, d) as real
  {
    CyclesCarry(key, d);
    CollectedIsReported(CycleOf, prev, cycles, hists, outs, key, d);
    ReportedBitsMatchTheCounters(prev, hists, key, d);
  }

  // ----- the spike, through the collector -----

  // A cycle that polls one device.
  lemma LonePoll(p: Poll, idx: string, now: real)
    requires Named(Join(p.cols), idx)
    ensures var hist, key := CycleSamples([p], now), (p.host, idx);
            key in hist && hist[key].ts == now && hist[key].inOct == ParseUint(Value(Join(p.cols).inOct, idx))
  {
    CycleSampleAt([p], 0, idx, now);
  }

  lemma RateFromZero(prev: History, key: (string, string), s: Sample)
    requires key in prev && prev[key].inOct == 0 && prev[key].ts < s.ts
    ensures Bps(prev, key, s, In) == ComputeBps(0, s.inOct, s.ts - prev[key].ts)
  {
  }

  // A cycle after one that left a zero for the interface.
  lemma LonePollAfterZero(p: Poll, idx: string, prev: History, now: real, out: seq<Stat>)
    requires Named(Join(p.cols), idx) && AllStats(out, [p], prev, now)
    requires var key := (p.host, idx); key in prev && prev[key].inOct == 0 && prev[key].ts < now
    ensures var key := (p.host, idx);
            RateOf(out, key, In) == ComputeBps(0, ParseUint(Value(Join(p.cols).inOct, idx)), now - prev[key].ts)
  {
    var key := (p.host, idx);
    LonePoll(p, idx, now);
    CycleReportsTheRate([p], prev, now, out, key, In);
    RateFromZero(prev, key, CycleSamples([p], now)[key]);
  }

  // A cycle in which the counter of an interface cannot be read.
  lemma LonePollUnreadable(p: Poll, idx: string, now: real)
    requires Named(Join(p.cols), idx) && !Readable(Value(Join(p.cols).inOct, idx))
    ensures var hist, key := CycleSamples([p], now), (p.host, idx);
            key in hist && hist[key].ts == now && hist[key].inOct == 0
  {
    UnreadableIsZero(Value(Join(p.cols).inOct, idx));
    LonePoll(p, idx, now);
  }

  lemma OneRow(root: string, idx: string, str: string)
    requires root != "" && root[0] != '.' && idx != ""
    ensures ByIndex([WalkVar(root + "." + idx, str)], root) == map[idx := str]
  {
    var oid := root + "." + idx;
    assert oid[0] == root[0] && "."[0] == '.';
    assert Text.TrimPrefix(oid, ".") == oid && Text.TrimPrefix(root, ".") == root;
    IndexIsTheRest(oid, root, idx);
    assert [WalkVar(oid, str)][..0] == [];
    assert ByIndex([WalkVar(oid, str)][..0], root) == map[];
  }

  // A walk that returns the name of one interface, and its octets if they could be read.
  function Walk(idx: string, name: string, octets: Option<string>): Columns {
    Columns([WalkVar(IF_NAME + "." + idx, name)], if octets.Some? then [WalkVar(IF_IN + "." + idx, octets.value)] else [], [], [], [])
  }

  lemma WalkJoins(idx: string, name: string, octets: Option<string>)
    requires idx != "" && Text.TrimSpace(name) != ""
    ensures Named(Join(Walk(idx, name, octets)), idx)
    ensures Value(Join(Walk(idx, name, octets)).inOct, idx) == if octets.Some? then octets.value else ""
  {
    assert IF_NAME[0] == '1' && IF_IN[0] == '1';
    OneRow(IF_NAME, idx, name);
    if octets.Some? { OneRow(IF_IN, idx, octets.value); }
  }

  // Any call that polls the device without reading the counter, and any that reads it after such a call.
  lemma FailedWalk(host: string, idx: string, name: string, now: real, prev: History, hist: History, out: seq<Stat>)
    requires idx != "" && Text.TrimSpace(name) != ""
    requires CycleOf(prev, Cycle([Poll(host, Walk(idx, name, None))], now), hist, out)
    ensures (host, idx) in hist && hist[(host, idx)].inOct == 0 && hist[(host, idx)].ts == now
  {
    WalkJoins(idx, name, None);
    assert !Readable("");
    LonePollUnreadable(Poll(host, Walk(idx, name, None)), idx, now);
  }

  lemma WalkAfterFailure(host: string, idx: string, name: string, text: string, now: real, prev: History, hist: History, out: seq<Stat>)
    requires idx != "" && Text.TrimSpace(name) != ""
    requires CycleOf(prev, Cycle([Poll(host, Walk(idx, name, Some(text)))], now), hist, out)
    requires (host, idx) in prev && prev[(host, idx)].inOct == 0 && prev[(host, idx)].ts < now
    ensures RateOf(out, (host, idx), In) == ComputeBps(0, ParseUint(text), now - prev[(host, idx)].ts)
  {
    WalkJoins(idx, name, Some(text));
    LonePollAfterZero(Poll(host, Walk(idx, name, Some(text))), idx, prev, now, out);
  }

  // What a call leaves, and what a call after that returns, whatever else they do.
  ghost predicate LeavesZero(ok: CallSpec, c: Cycle, key: (string, string), t: real) {
    forall prev: History, hist: History, out: seq<Stat> | ok(prev, c, hist, out) ::
      key in hist && hist[key].inOct == 0 && hist[key].ts == t
  }

  ghost predicate ReportsAfterZero(ok: CallSpec, c: Cycle, key: (string, string), t: real, rate: int) {
    forall prev: History, hist: History, out: seq<Stat> |
      ok(prev, c, hist, out) && key in prev && prev[key].inOct == 0 && prev[key].ts == t :: RateOf(out, key, In) == rate
  }

  lemma TwoCalls(ok: CallSpec, prev: History, c0: Cycle, c1: Cycle, key: (string, string), t: real, rate: int,
                 hists: seq<History>, outs: seq<seq<Stat>>)
    requires RunBy(ok, prev, [c0, c1], hists, outs) && LeavesZero(ok, c0, key, t) && ReportsAfterZero(ok, c1, key, t, rate)
    ensures |outs| == 2 && RateOf(outs[1], key, In) == rate
  {
    assert [c0, c1][1..] == [c1];
    assert RunBy(ok, hists[0], [c1], hists[1..], outs[1..]);
    assert ok(prev, c0, hists[0], outs[0]) && ok(hists[0], c1, hists[1], outs[1]);
  }

  lemma FailedWalkLeavesZero(host: string, idx: string, name: string, now: real)
    requires idx != "" && Text.TrimSpace(name) != ""
    ensures LeavesZero(CycleOf, Cycle([Poll(host, Walk(idx, name, None))], now), (host, idx), now)
  {
    var c := Cycle([Poll(host, Walk(idx, name, None))], now);
    forall prev: History, hist: History, out: seq<Stat> | CycleOf(prev, c, hist, out)
      ensures (host, idx) in hist && hist[(host, idx)].inOct == 0 && hist[(host, idx)].ts == now
    {
      FailedWalk(host, idx, name, now, prev, hist, out);
    }
  }

  lemma WalkReportsAfterFailure(host: string, idx: string, name: string, text: string, t0: real, t1: real)
    requires idx != "" && Text.TrimSpace(name) != "" && t0 < t1
    ensures ReportsAfterZero(CycleOf, Cycle([Poll(host, Walk(idx, name, Some(text)))], t1), (host, idx), t0,
                             ComputeBps(0, ParseUint(text), t1 - t0))
  {
    var c, key := Cycle([Poll(host, Walk(idx, name, Some(text)))], t1), (host, idx);
    forall prev: History, hist: History, out: seq<Stat> |
      CycleOf(prev, c, hist, out) && key in prev && prev[key].inOct == 0 && prev[key].ts == t0
      ensures RateOf(out, key, In) == ComputeBps(0, ParseUint(text), t1 - t0)
    {
      WalkAfterFailure(host, idx, name, text, t1, prev, hist, out);
    }
  }

  /** A concrete run: a first cycle whose walk of the octet column fails, a second that reads a counter. The stat
      the second call returns reports the whole counter as the traffic between the two. */
  lemma FailedWalkThenSpike(host: string, idx: string, name: string, text: string, t0: real, t1: real,
                            hists: seq<History>, outs: seq<seq<Stat>>)
    requires idx != "" && Text.TrimSpace(name) != "" && t0 < t1
    requires var c0 := Cycle([Poll(host, Walk(idx, name, None))], t0);
             var c1 := Cycle([Poll(host, Walk(idx, name, Some(text)))], t1);
             RunBy(CycleOf, map[], [c0, c1], hists, outs)
    ensures |outs| == 2 && RateOf(outs[1], (host, idx), In) == ComputeBps(0, ParseUint(text), t1 - t0)
  {
    FailedWalkLeavesZero(host, idx, name, t0);
    WalkReportsAfterFailure(host, idx, name, text, t0, t1);
    TwoCalls(CycleOf, map[], Cycle([Poll(host, Walk(idx, name, None))], t0), Cycle([Poll(host, Walk(idx, name, Some(text)))], t1),
             (host, idx), t0, ComputeBps(0, ParseUint(text), t1 - t0), hists, outs);
  }
}
