/** The concurrent network sweep: per target, a pool of workers takes addresses from an unbuffered channel,
    probes them, and merges what responders report under one mutex.

    A schedule picks, at every moment, which goroutine moves next: worker k for k below the number of
    workers, and the main goroutine closing the channel for k equal to it. */
module Discovery {
  import opened Wrappers
  import opened Cidr

  const WORKERS: nat := 32

  datatype Device = Device(ip: nat, identity: string)

  datatype ArpHost = ArpHost(ip: nat, mac: string)

  datatype Answer = Answer(device: Device, links: seq<string>, arps: seq<ArpHost>)

  // How the network answers for one target; None is a host that stays silent.
  type Scanner = nat -> Option<Answer>

  datatype Worker = Waiting | Holding(ip: nat) | Answered(ip: nat, answer: Answer) | Exited

  // The shared state of a sweep: the three collections and the log of probes sent.
  datatype Shared = Shared(found: map<nat, Device>, links: seq<string>, arp: map<nat, ArpHost>, probes: seq<nat>)

  datatype Pool = Pool(queue: seq<nat>, closed: bool, workers: seq<Worker>, sh: Shared)

  // ----- the goroutines -----

  function MergeArp(arp: map<nat, ArpHost>, arps: seq<ArpHost>): map<nat, ArpHost>
    decreases |arps|
  {
    if arps == [] then arp
    else MergeArp(if arps[0].ip in arp then arp else arp[arps[0].ip := arps[0]], arps[1..])
  }

  // The critical section.
  function Merge(sh: Shared, a: Answer): Shared {
    sh.(found := sh.found[a.device.ip := a.device], links := sh.links + a.links, arp := MergeArp(sh.arp, a.arps))
  }

  predicate CanAct(p: Pool, k: nat) {
    if k == |p.workers| then p.queue == [] && !p.closed
    else k < |p.workers| && match p.workers[k]
      case Waiting => p.queue != [] || p.closed
      case Exited => false
      case _ => true
  }

  function Act(p: Pool, k: nat, scan: Scanner): Pool
    requires CanAct(p, k)
  {
    if k == |p.workers| then p.(closed := true)
    else match p.workers[k]
      case Waiting =>
        if p.queue != [] then p.(queue := p.queue[1..], workers := p.workers[k := Holding(p.queue[0])])
        else p.(workers := p.workers[k := Exited])
      case Holding(ip) =>
        p.(workers := p.workers[k := if scan(ip).Some? then Answered(ip, scan(ip).value) else Waiting],
           sh := p.sh.(probes := p.sh.probes + [ip]))
      case Answered(_, a) => p.(workers := p.workers[k := Waiting], sh := Merge(p.sh, a))
      case Exited => p
  }

  function Launch(hosts: seq<nat>, sh: Shared): Pool {
    Pool(hosts, false, seq(if WORKERS > |hosts| then |hosts| else WORKERS, _ => Waiting), sh)
  }

  // The channel is closed and every worker has returned.
  predicate Done(p: Pool) {
    p.closed && forall w | w in p.workers :: w.Exited?
  }

  // ----- progress -----

  function Rank(w: Worker): nat {
    match w
    case Waiting => 1
    case Answered(_, _) => 2
    case Holding(_) => 3
    case Exited => 0
  }

  function Ranks(ws: seq<Worker>): nat {
    if ws == [] then 0 else Rank(ws[0]) + Ranks(ws[1..])
  }

  lemma {:induction false} RanksUpdate(ws: seq<Worker>, k: nat, w: Worker)
    requires k < |ws|
    ensures Ranks(ws[k := w]) == Ranks(ws) - Rank(ws[k]) + Rank(w)
  {
    if k == 0 {
      assert ws[k := w][1..] == ws[1..];
    } else {
      assert ws[k := w][1..] == ws[1..][k - 1 := w];
      RanksUpdate(ws[1..], k - 1, w);
    }
  }

  function Measure(p: Pool): nat {
    4 * |p.queue| + Ranks(p.workers) + (if p.closed then 0 else 1)
  }

  // Workers leave only after the channel is drained and closed, and a non-empty queue has takers.
  ghost predicate PoolOk(p: Pool) {
    && (p.closed ==> p.queue == [])
    && (forall w | w in p.workers :: w.Exited? ==> p.closed)
    && (p.workers == [] ==> p.queue == [])
  }

  /** Every move brings the sweep closer to its end. */
  lemma ActDecreases(p: Pool, k: nat, scan: Scanner)
    requires CanAct(p, k) && PoolOk(p)
    ensures Measure(Act(p, k, scan)) < Measure(p) && PoolOk(Act(p, k, scan))
    ensures |Act(p, k, scan).workers| == |p.workers|
  {
    var p' := Act(p, k, scan);
    if k < |p.workers| {
      RanksUpdate(p.workers, k, p'.workers[k]);
      assert p'.workers == p.workers[k := p'.workers[k]];
      assert p.workers[k] in p.workers;
    }
  }

  /** No deadlock: a sweep that is not done can always move. */
  lemma SweepNeverBlocks(p: Pool) returns (k: nat)
    requires PoolOk(p) && !Done(p)
    ensures CanAct(p, k)
  {
    if p.queue == [] && !p.closed { return |p.workers|; }
    if p.queue != [] { return 0; }
    var w :| w in p.workers && !w.Exited?;
    k :| 0 <= k < |p.workers| && p.workers[k] == w;
  }

  // ----- what is still to come -----

  // What all workers together hold, by some measure of one worker.
  function Gather<T>(f: Worker -> multiset<T>, ws: seq<Worker>): multiset<T> {
    if ws == [] then multiset{} else f(ws[0]) + Gather(f, ws[1..])
  }

  lemma {:induction false} GatherUpdate<T>(f: Worker -> multiset<T>, ws: seq<Worker>, k: nat, w: Worker)
    requires k < |ws|
    ensures Gather(f, ws[k := w]) + f(ws[k]) == Gather(f, ws) + f(w)
  {
    var ws' := ws[k := w];
    if k == 0 {
      assert ws'[1..] == ws[1..];
    } else {
      assert ws'[1..] == ws[1..][k - 1 := w];
      GatherUpdate(f, ws[1..], k - 1, w);
      var rest, rest' := Gather(f, ws[1..]), Gather(f, ws'[1..]);
      assert Gather(f, ws') + f(ws[k]) == f(ws[0]) + (rest' + f(ws[k]));
    }
  }

  function ProbeOf(w: Worker): multiset<nat> {
    if w.Holding? then multiset{w.ip} else multiset{}
  }

  function LinksFrom(scan: Scanner, ip: nat): multiset<string> {
    if scan(ip).Some? then multiset(scan(ip).value.links) else multiset{}
  }

  function LinksAhead(scan: Scanner, queue: seq<nat>): multiset<string> {
    if queue == [] then multiset{} else LinksFrom(scan, queue[0]) + LinksAhead(scan, queue[1..])
  }

  function LinksOf(scan: Scanner): Worker -> multiset<string> {
    (w: Worker) => if w.Holding? || w.Answered? then LinksFrom(scan, w.ip) else multiset{}
  }

  // An address not merged yet.
  ghost predicate Pending(p: Pool, ip: nat) {
    ip in p.queue || exists w :: w in p.workers && (w.Holding? || w.Answered?) && w.ip == ip
  }

  ghost predicate Reports(scan: Scanner, ip: nat, key: nat) {
    scan(ip).Some? && exists a :: a in scan(ip).value.arps && a.ip == key
  }

  // A device answers under the address that was probed.
  ghost predicate Honest(scan: Scanner) {
    forall ip :: scan(ip).Some? ==> scan(ip).value.device.ip == ip
  }

  // ----- what every move keeps, for a sweep of hosts that began with sh0 -----

  ghost predicate WorkersOk(p: Pool, scan: Scanner) {
    forall w | w in p.workers :: w.Answered? ==> scan(w.ip) == Some(w.answer)
  }

  ghost predicate ProbesOk(hosts: seq<nat>, sh0: Shared, p: Pool) {
    multiset(p.sh.probes) + Gather(ProbeOf, p.workers) + multiset(p.queue) == multiset(sh0.probes) + multiset(hosts)
  }

  ghost predicate LinksOk(hosts: seq<nat>, sh0: Shared, p: Pool, scan: Scanner) {
    multiset(p.sh.links) + Gather(LinksOf(scan), p.workers) + LinksAhead(scan, p.queue) == multiset(sh0.links) + LinksAhead(scan, hosts)
  }

  ghost predicate FoundOk(hosts: seq<nat>, sh0: Shared, p: Pool, scan: Scanner) {
    && (forall ip | ip in p.sh.found ::
          (ip in hosts && scan(ip).Some? && p.sh.found[ip] == scan(ip).value.device) ||
          (ip in sh0.found && p.sh.found[ip] == sh0.found[ip]))
    && (forall ip | ip in sh0.found :: ip in p.sh.found)
    && (forall ip | ip in hosts && scan(ip).Some? && !Pending(p, ip) :: ip in p.sh.found && p.sh.found[ip] == scan(ip).value.device)
  }

  ghost predicate ArpOk(hosts: seq<nat>, sh0: Shared, p: Pool, scan: Scanner) {
    && (forall key | key in p.sh.arp :: p.sh.arp[key].ip == key &&
          (key in sh0.arp || exists ip :: ip in hosts && Reports(scan, ip, key)))
    && (forall key | key in sh0.arp :: key in p.sh.arp)
    && (forall ip, key | ip in hosts && !Pending(p, ip) && Reports(scan, ip, key) :: key in p.sh.arp)
  }

  ghost predicate PendingAreHosts(hosts: seq<nat>, p: Pool) {
    forall ip | Pending(p, ip) :: ip in hosts
  }

  ghost predicate Inv(hosts: seq<nat>, sh0: Shared, p: Pool, scan: Scanner) {
    && PoolOk(p) && WorkersOk(p, scan) && PendingAreHosts(hosts, p)
    && ProbesOk(hosts, sh0, p) && LinksOk(hosts, sh0, p, scan) && FoundOk(hosts, sh0, p, scan) && ArpOk(hosts, sh0, p, scan)
  }

  lemma {:induction false} MergeArpKeys(arp: map<nat, ArpHost>, arps: seq<ArpHost>)
    ensures forall key :: key in MergeArp(arp, arps) <==> key in arp || exists a :: a in arps && a.ip == key
    ensures forall key | key in arp :: MergeArp(arp, arps)[key] == arp[key]
    ensures (forall key | key in arp :: arp[key].ip == key) ==>
              forall key | key in MergeArp(arp, arps) :: MergeArp(arp, arps)[key].ip == key
    decreases |arps|
  {
    if arps != [] {
      MergeArpKeys(if arps[0].ip in arp then arp else arp[arps[0].ip := arps[0]], arps[1..]);
      assert forall a :: a in arps <==> a == arps[0] || a in arps[1..];
    }
  }

  // The moving worker finishes with this address.
  predicate Finishes(p: Pool, k: nat, scan: Scanner, ip: nat)
    requires CanAct(p, k)
  {
    k < |p.workers| && (p.workers[k].Holding? || p.workers[k].Answered?) && p.workers[k].ip == ip &&
    Act(p, k, scan).workers[k].Waiting?
  }

  // Exactly the address in the hand of the moving worker can stop being pending, and none starts to be.
  lemma PendingAfter(p: Pool, k: nat, scan: Scanner, ip: nat)
    requires CanAct(p, k)
    ensures Pending(Act(p, k, scan), ip) ==> Pending(p, ip)
    ensures Pending(p, ip) && !Finishes(p, k, scan, ip) ==> Pending(Act(p, k, scan), ip)
  {
    var p' := Act(p, k, scan);
    if Pending(p', ip) && ip !in p'.queue {
      var w :| w in p'.workers && (w.Holding? || w.Answered?) && w.ip == ip;
      assert w in p.workers || (k < |p.workers| && w == p'.workers[k]);
      assert k < |p.workers| ==> p.workers[k] in p.workers;
    }
    if Pending(p, ip) && !Finishes(p, k, scan, ip) {
      if ip in p.queue {
        assert k < |p.workers| ==> p'.workers[k] in p'.workers;
      } else {
        var w :| w in p.workers && (w.Holding? || w.Answered?) && w.ip == ip;
        var j :| 0 <= j < |p.workers| && p.workers[j] == w;
        assert p'.workers[j] in p'.workers;
      }
    }
  }

  lemma ActKeepsWorkers(hosts: seq<nat>, p: Pool, k: nat, scan: Scanner)
    requires CanAct(p, k) && WorkersOk(p, scan) && PendingAreHosts(hosts, p)
    ensures WorkersOk(Act(p, k, scan), scan) && PendingAreHosts(hosts, Act(p, k, scan))
  {
  }

  // One probe, or one worker's links, moves between the three places they can be.
  lemma Rebalance<T>(a: multiset<T>, h: multiset<T>, q: multiset<T>, a': multiset<T>, h': multiset<T>, q': multiset<T>,
                     before: multiset<T>, now: multiset<T>)
    requires h' + before == h + now
    requires a' + q' + now == a + q + before
    ensures a' + h' + q' == a + h + q
  {
    forall x ensures (a' + h' + q')[x] == (a + h + q)[x] {
      assert (h' + before)[x] == (h + now)[x];
      assert (a' + q' + now)[x] == (a + q + before)[x];
    }
  }

  lemma ProbeMoves(p: Pool, k: nat, scan: Scanner)
    requires CanAct(p, k) && k < |p.workers|
    ensures var p' := Act(p, k, scan);
            multiset(p'.sh.probes) + multiset(p'.queue) + ProbeOf(p'.workers[k]) ==
            multiset(p.sh.probes) + multiset(p.queue) + ProbeOf(p.workers[k])
  {
    var p', w := Act(p, k, scan), p.workers[k];
    match w
    case Waiting =>
      if p.queue != [] {
        assert p.queue == [p.queue[0]] + p'.queue;
        assert multiset(p.queue) == multiset{p.queue[0]} + multiset(p'.queue);
      }
    case Holding(ip) => assert multiset(p'.sh.probes) == multiset(p.sh.probes) + multiset{ip};
    case _ =>
  }

  lemma ActKeepsProbes(hosts: seq<nat>, sh0: Shared, p: Pool, k: nat, scan: Scanner)
    requires CanAct(p, k) && ProbesOk(hosts, sh0, p)
    ensures ProbesOk(hosts, sh0, Act(p, k, scan))
  {
    var p' := Act(p, k, scan);
    if k < |p.workers| {
      var w, w' := p.workers[k], p'.workers[k];
      GatherUpdate(ProbeOf, p.workers, k, w');
      assert p'.workers == p.workers[k := w'];
      ProbeMoves(p, k, scan);
      Rebalance(multiset(p.sh.probes), Gather(ProbeOf, p.workers), multiset(p.queue),
                multiset(p'.sh.probes), Gather(ProbeOf, p'.workers), multiset(p'.queue), ProbeOf(w), ProbeOf(w'));
    }
  }

  lemma LinksMove(p: Pool, k: nat, scan: Scanner)
    requires CanAct(p, k) && k < |p.workers| && WorkersOk(p, scan)
    ensures var p' := Act(p, k, scan);
            multiset(p'.sh.links) + LinksAhead(scan, p'.queue) + LinksOf(scan)(p'.workers[k]) ==
            multiset(p.sh.links) + LinksAhead(scan, p.queue) + LinksOf(scan)(p.workers[k])
  {
    assert p.workers[k] in p.workers;
  }

  lemma ActKeepsLinks(hosts: seq<nat>, sh0: Shared, p: Pool, k: nat, scan: Scanner)
    requires CanAct(p, k) && WorkersOk(p, scan) && LinksOk(hosts, sh0, p, scan)
    ensures LinksOk(hosts, sh0, Act(p, k, scan), scan)
  {
    var p' := Act(p, k, scan);
    if k < |p.workers| {
      var w, w' := p.workers[k], p'.workers[k];
      GatherUpdate(LinksOf(scan), p.workers, k, w');
      assert p'.workers == p.workers[k := w'];
      LinksMove(p, k, scan);
      Rebalance(multiset(p.sh.links), Gather(LinksOf(scan), p.workers), LinksAhead(scan, p.queue),
                multiset(p'.sh.links), Gather(LinksOf(scan), p'.workers), LinksAhead(scan, p'.queue), LinksOf(scan)(w), LinksOf(scan)(w'));
    }
  }

  lemma ActKeepsFound(hosts: seq<nat>, sh0: Shared, p: Pool, k: nat, scan: Scanner)
    requires CanAct(p, k) && Honest(scan) && WorkersOk(p, scan) && PendingAreHosts(hosts, p) && FoundOk(hosts, sh0, p, scan)
    ensures FoundOk(hosts, sh0, Act(p, k, scan), scan)
  {
    var p' := Act(p, k, scan);
    if k < |p.workers| {
      var w := p.workers[k];
      assert w in p.workers;
      assert w.Answered? ==> Pending(p, w.ip) && w.answer.device.ip == w.ip;
    }
    forall ip | ip in hosts && scan(ip).Some? && !Pending(p', ip)
      ensures ip in p'.sh.found && p'.sh.found[ip] == scan(ip).value.device
    {
      PendingAfter(p, k, scan, ip);
    }
  }

  lemma ActKeepsArp(hosts: seq<nat>, sh0: Shared, p: Pool, k: nat, scan: Scanner)
    requires CanAct(p, k) && WorkersOk(p, scan) && PendingAreHosts(hosts, p) && ArpOk(hosts, sh0, p, scan)
    ensures ArpOk(hosts, sh0, Act(p, k, scan), scan)
  {
    var p' := Act(p, k, scan);
    if k < |p.workers| && p.workers[k].Answered? {
      var w := p.workers[k];
      assert w in p.workers && Pending(p, w.ip);
      MergeArpKeys(p.sh.arp, w.answer.arps);
      forall key | key in p'.sh.arp && key !in sh0.arp ensures exists ip :: ip in hosts && Reports(scan, ip, key) {
        if key !in p.sh.arp { assert Reports(scan, w.ip, key); }
      }
    }
    forall ip, key | ip in hosts && !Pending(p', ip) && Reports(scan, ip, key) ensures key in p'.sh.arp {
      PendingAfter(p, k, scan, ip);
    }
  }

  lemma ActKeepsInv(hosts: seq<nat>, sh0: Shared, p: Pool, k: nat, scan: Scanner)
    requires Honest(scan) && Inv(hosts, sh0, p, scan) && CanAct(p, k)
    ensures Inv(hosts, sh0, Act(p, k, scan), scan)
  {
    ActDecreases(p, k, scan);
    ActKeepsWorkers(hosts, p, k, scan);
    ActKeepsProbes(hosts, sh0, p, k, scan);
    ActKeepsLinks(hosts, sh0, p, k, scan);
    ActKeepsFound(hosts, sh0, p, k, scan);
    ActKeepsArp(hosts, sh0, p, k, scan);
  }

  // ----- one target -----

  function FoundBy(scan: Scanner, hosts: seq<nat>): map<nat, Device> {
    map ip | ip in hosts && scan(ip).Some? :: scan(ip).value.device
  }

  function ArpBy(scan: Scanner, hosts: seq<nat>): set<nat> {
    set ip, a | ip in hosts && scan(ip).Some? && a in scan(ip).value.arps :: a.ip
  }

  ghost predicate ArpKeyed(sh: Shared) {
    forall key | key in sh.arp :: sh.arp[key].ip == key
  }

  // What sweeping the hosts makes of the shared collections, apart from the order of arrival.
  ghost predicate Swept(hosts: seq<nat>, sh0: Shared, sh: Shared, scan: Scanner) {
    && multiset(sh.probes) == multiset(sh0.probes) + multiset(hosts)
    && multiset(sh.links) == multiset(sh0.links) + LinksAhead(scan, hosts)
    && sh.found == sh0.found + FoundBy(scan, hosts)
    && sh.arp.Keys == sh0.arp.Keys + ArpBy(scan, hosts)
    && ArpKeyed(sh)
  }

  lemma {:induction false} GatherNothing<T>(f: Worker -> multiset<T>, ws: seq<Worker>)
    requires forall w | w in ws :: f(w) == multiset{}
    ensures Gather(f, ws) == multiset{}
  {
    if ws != [] { GatherNothing(f, ws[1..]); }
  }

  lemma LaunchGathersNothing(hosts: seq<nat>, sh0: Shared, scan: Scanner)
    ensures var ws := Launch(hosts, sh0).workers;
            Gather(ProbeOf, ws) == multiset{} && Gather(LinksOf(scan), ws) == multiset{}
  {
    var ws := Launch(hosts, sh0).workers;
    GatherNothing(ProbeOf, ws);
    GatherNothing(LinksOf(scan), ws);
  }

  lemma LaunchPending(hosts: seq<nat>, sh0: Shared)
    ensures forall ip :: Pending(Launch(hosts, sh0), ip) <==> ip in hosts
  {
  }

  lemma LaunchIsOk(hosts: seq<nat>, sh0: Shared, scan: Scanner)
    requires ArpKeyed(sh0)
    ensures Inv(hosts, sh0, Launch(hosts, sh0), scan)
  {
    var p := Launch(hosts, sh0);
    LaunchGathersNothing(hosts, sh0, scan);
    LaunchPending(hosts, sh0);
    assert forall w | w in p.workers :: w.Waiting?;
    assert PoolOk(p) && ProbesOk(hosts, sh0, p) && LinksOk(hosts, sh0, p, scan);
    assert FoundOk(hosts, sh0, p, scan);
    assert ArpOk(hosts, sh0, p, scan);
  }

  lemma DoneHasFound(hosts: seq<nat>, sh0: Shared, p: Pool, scan: Scanner)
    requires PoolOk(p) && Done(p) && FoundOk(hosts, sh0, p, scan)
    ensures p.sh.found == sh0.found + FoundBy(scan, hosts)
  {
  }

  lemma DoneHasArp(hosts: seq<nat>, sh0: Shared, p: Pool, scan: Scanner)
    requires PoolOk(p) && Done(p) && ArpOk(hosts, sh0, p, scan)
    ensures p.sh.arp.Keys == sh0.arp.Keys + ArpBy(scan, hosts) && ArpKeyed(p.sh)
  {
  }

  lemma DoneIsSwept(hosts: seq<nat>, sh0: Shared, p: Pool, scan: Scanner)
    requires Inv(hosts, sh0, p, scan) && Done(p)
    ensures Swept(hosts, sh0, p.sh, scan)
  {
    GatherNothing(ProbeOf, p.workers);
    GatherNothing(LinksOf(scan), p.workers);
    DoneHasFound(hosts, sh0, p, scan);
    DoneHasArp(hosts, sh0, p, scan);
  }

  ghost predicate Schedule(p: Pool, ks: seq<nat>, scan: Scanner, end: Pool)
    decreases |ks|
  {
    if ks == [] then end == p else CanAct(p, ks[0]) && Schedule(Act(p, ks[0], scan), ks[1..], scan, end)
  }

  lemma {:induction false} ScheduleKeepsInv(hosts: seq<nat>, sh0: Shared, p: Pool, ks: seq<nat>, scan: Scanner, end: Pool)
    requires Honest(scan) && Inv(hosts, sh0, p, scan) && Schedule(p, ks, scan, end)
    ensures Inv(hosts, sh0, end, scan) && |ks| + Measure(end) <= Measure(p) && |end.workers| == |p.workers|
    decreases |ks|
  {
    if ks != [] {
      ActKeepsInv(hosts, sh0, p, ks[0], scan);
      ActDecreases(p, ks[0], scan);
      ScheduleKeepsInv(hosts, sh0, Act(p, ks[0], scan), ks[1..], scan, end);
    }
  }

  /** Whatever the schedule of the goroutines: it is finite, and unless the sweep is done it can continue;
      once done, every host has been probed exactly once, and the found map, the bag of links and the set of
      ARP addresses do not depend on the schedule. */
  lemma EveryScheduleAgrees(hosts: seq<nat>, sh0: Shared, scan: Scanner, ks: seq<nat>, end: Pool)
    requires Honest(scan) && ArpKeyed(sh0) && Schedule(Launch(hosts, sh0), ks, scan, end)
    ensures |ks| <= Measure(Launch(hosts, sh0))
    ensures |end.workers| <= 32 && |end.workers| <= |hosts|
    ensures Done(end) || exists k :: CanAct(end, k)
    ensures Done(end) ==>
      && multiset(end.sh.probes) == multiset(sh0.probes) + multiset(hosts)
      && end.sh.found == sh0.found + FoundBy(scan, hosts)
      && multiset(end.sh.links) == multiset(sh0.links) + LinksAhead(scan, hosts)
      && end.sh.arp.Keys == sh0.arp.Keys + ArpBy(scan, hosts)
  {
    LaunchIsOk(hosts, sh0, scan);
    ScheduleKeepsInv(hosts, sh0, Launch(hosts, sh0), ks, scan, end);
    if Done(end) {
      DoneIsSwept(hosts, sh0, end, scan);
    } else {
      var k := SweepNeverBlocks(end);
    }
  }

  // Runs the pool under an arbitrary scheduler.
  method Sweep(hosts: seq<nat>, scan: Scanner, sh0: Shared) returns (sh: Shared)
    requires Honest(scan) && ArpKeyed(sh0)
    ensures Swept(hosts, sh0, sh, scan)
  {
    var p := Launch(hosts, sh0);
    LaunchIsOk(hosts, sh0, scan);
    while !Done(p)
      invariant Inv(hosts, sh0, p, scan)
      decreases Measure(p)
    {
      ghost var can := SweepNeverBlocks(p);
      var k: nat :| 0 <= k <= |p.workers| && CanAct(p, k);
      ActKeepsInv(hosts, sh0, p, k, scan);
      ActDecreases(p, k, scan);
      p := Act(p, k, scan);
    }
    DoneIsSwept(hosts, sh0, p, scan);
    sh := p.sh;
  }

  // ----- all targets -----

  datatype Target = Target(cidr: Parsed, scan: Scanner)

  // The addresses a target contributes; none when its CIDR cannot be expanded.
  function HostsOf(t: Target): seq<nat> {
    if Expansion(t.cidr).Some? then Expansion(t.cidr).value else []
  }

  function AllFound(ts: seq<Target>): map<nat, Device> {
    if ts == [] then map[] else AllFound(ts[..|ts| - 1]) + FoundBy(ts[|ts| - 1].scan, HostsOf(ts[|ts| - 1]))
  }

  function AllLinks(ts: seq<Target>): multiset<string> {
    if ts == [] then multiset{} else AllLinks(ts[..|ts| - 1]) + LinksAhead(ts[|ts| - 1].scan, HostsOf(ts[|ts| - 1]))
  }

  function AllProbes(ts: seq<Target>): multiset<nat> {
    if ts == [] then multiset{} else AllProbes(ts[..|ts| - 1]) + multiset(HostsOf(ts[|ts| - 1]))
  }

  function AllArp(ts: seq<Target>): set<nat> {
    if ts == [] then {} else AllArp(ts[..|ts| - 1]) + ArpBy(ts[|ts| - 1].scan, HostsOf(ts[|ts| - 1]))
  }

  function Skipped(ts: seq<Target>): nat {
    if ts == [] then 0 else Skipped(ts[..|ts| - 1]) + (if Expansion(ts[|ts| - 1].cidr).Some? then 0 else 1)
  }

  ghost predicate SweptAll(ts: seq<Target>, sh: Shared) {
    && sh.found == AllFound(ts) && multiset(sh.links) == AllLinks(ts) && multiset(sh.probes) == AllProbes(ts)
    && sh.arp.Keys == AllArp(ts) && ArpKeyed(sh)
  }

  // ----- what that amounts to, in terms of addresses and answers -----

  // The sweep of a target asks exactly the usable addresses of a block of at most 12 host bits.
  ghost predicate Asks(t: Target, ip: nat) { Usable(t.cidr, ip) && t.cidr.hostBits <= 12 }

  // A target has the address answer.
  ghost predicate Answers(t: Target, ip: nat) { Asks(t, ip) && t.scan(ip).Some? }

  // The last target that has the address answer.
  ghost predicate LastToAnswer(ts: seq<Target>, ip: nat, k: nat) {
    k < |ts| && Answers(ts[k], ip) && forall l | k < l < |ts| :: !Answers(ts[l], ip)
  }

  // How often an entry is in the neighbor tables of these addresses.
  function Times(scan: Scanner, hosts: seq<nat>, link: string): nat {
    if hosts == [] then 0
    else (if scan(hosts[0]).Some? then multiset(scan(hosts[0]).value.links)[link] else 0) + Times(scan, hosts[1..], link)
  }

  function TimesInAll(ts: seq<Target>, link: string): nat {
    if ts == [] then 0
    else TimesInAll(ts[..|ts| - 1], link) + Times(ts[|ts| - 1].scan, HostsOf(ts[|ts| - 1]), link)
  }

  function Askers(ts: seq<Target>, ip: nat): nat {
    if ts == [] then 0 else Askers(ts[..|ts| - 1], ip) + (if ip in HostsOf(ts[|ts| - 1]) then 1 else 0)
  }

  lemma {:induction false} IncreasingIsOnce(s: seq<nat>, x: nat)
    requires Increasing(s)
    ensures multiset(s)[x] == if x in s then 1 else 0
  {
    if s != [] {
      assert s == [s[0]] + s[1..];
      IncreasingIsOnce(s[1..], x);
    }
  }

  lemma HostsAreAsked(t: Target, ip: nat)
    requires Masked(t.cidr)
    ensures ip in HostsOf(t) <==> Asks(t, ip)
    ensures multiset(HostsOf(t))[ip] == if ip in HostsOf(t) then 1 else 0
  {
    ExpansionIsUsable(t.cidr);
    IncreasingIsOnce(HostsOf(t), ip);
  }

  lemma {:induction false} LinksAreCounted(scan: Scanner, hosts: seq<nat>, link: string)
    ensures LinksAhead(scan, hosts)[link] == Times(scan, hosts, link)
  {
    if hosts != [] { LinksAreCounted(scan, hosts[1..], link); }
  }

  lemma {:induction false} AllLinksAreCounted(ts: seq<Target>, link: string)
    ensures AllLinks(ts)[link] == TimesInAll(ts, link)
  {
    if ts != [] {
      AllLinksAreCounted(ts[..|ts| - 1], link);
      LinksAreCounted(ts[|ts| - 1].scan, HostsOf(ts[|ts| - 1]), link);
    }
  }

  lemma {:induction false} AllProbesAre(ts: seq<Target>, ip: nat)
    requires forall t | t in ts :: Masked(t.cidr)
    ensures AllProbes(ts)[ip] == Askers(ts, ip)
  {
    if ts != [] {
      var init, last := ts[..|ts| - 1], ts[|ts| - 1];
      assert forall t | t in init :: t in ts;
      AllProbesAre(init, ip);
      HostsAreAsked(last, ip);
    }
  }

  lemma FoundByTarget(t: Target, ip: nat)
    requires Masked(t.cidr)
    ensures var found := FoundBy(t.scan, HostsOf(t));
            (ip in found <==> Answers(t, ip)) && (ip in found ==> found[ip] == t.scan(ip).value.device)
  {
    HostsAreAsked(t, ip);
  }

  lemma {:induction false} SomeTargetAnswers(ts: seq<Target>, ip: nat)
    requires forall t | t in ts :: Masked(t.cidr)
    ensures ip in AllFound(ts) <==> exists t :: t in ts && Answers(t, ip)
  {
    if ts != [] {
      var init, last := ts[..|ts| - 1], ts[|ts| - 1];
      assert forall t :: t in ts <==> t in init || t == last;
      SomeTargetAnswers(init, ip);
      FoundByTarget(last, ip);
    }
  }

  lemma {:induction false} LastAnswerIsFound(ts: seq<Target>, ip: nat, k: nat)
    requires (forall t | t in ts :: Masked(t.cidr)) && LastToAnswer(ts, ip, k)
    ensures ip in AllFound(ts) && AllFound(ts)[ip] == ts[k].scan(ip).value.device
  {
    var init, last := ts[..|ts| - 1], ts[|ts| - 1];
    FoundByTarget(last, ip);
    if k < |init| {
      assert LastToAnswer(init, ip, k);
      LastAnswerIsFound(init, ip, k);
    }
  }

  lemma {:induction false} AllArpIs(ts: seq<Target>, key: nat)
    requires forall t | t in ts :: Masked(t.cidr)
    ensures key in AllArp(ts) <==>
              exists t, ip, a :: t in ts && Answers(t, ip) && a in t.scan(ip).value.arps && a.ip == key
  {
    if ts != [] {
      var init, last := ts[..|ts| - 1], ts[|ts| - 1];
      assert forall t :: t in ts <==> t in init || t == last;
      AllArpIs(init, key);
      forall ip ensures ip in HostsOf(last) <==> Asks(last, ip) { HostsAreAsked(last, ip); }
      if key in ArpBy(last.scan, HostsOf(last)) {
        var ip, a :| ip in HostsOf(last) && last.scan(ip).Some? && a in last.scan(ip).value.arps && a.ip == key;
        assert Answers(last, ip);
      }
    }
  }

  /** Over all targets: an address is found exactly if it is a usable address of some target that has it answer,
      with the answer of the last such target; it is probed once for each target that covers it; an ARP entry is
      known exactly if some answering address lists it; and every neighbor entry counts as often as it is listed. */
  lemma TheSweepFindsWhatAnswers(ts: seq<Target>, ip: nat, link: string)
    requires forall t | t in ts :: Masked(t.cidr)
    ensures ip in AllFound(ts) <==> exists t :: t in ts && Answers(t, ip)
    ensures forall k: nat | LastToAnswer(ts, ip, k) :: ip in AllFound(ts) && AllFound(ts)[ip] == ts[k].scan(ip).value.device
    ensures AllProbes(ts)[ip] == Askers(ts, ip)
    ensures ip in AllArp(ts) <==> exists t, x, a :: t in ts && Answers(t, x) && a in t.scan(x).value.arps && a.ip == ip
    ensures AllLinks(ts)[link] == TimesInAll(ts, link)
  {
    SomeTargetAnswers(ts, ip);
    forall k: nat | LastToAnswer(ts, ip, k) ensures ip in AllFound(ts) && AllFound(ts)[ip] == ts[k].scan(ip).value.device {
      LastAnswerIsFound(ts, ip, k);
    }
    AllProbesAre(ts, ip);
    AllArpIs(ts, ip);
    AllLinksAreCounted(ts, link);
  }

  predicate DistinctDevices(ds: seq<Device>) { forall i, j | 0 <= i < j < |ds| :: ds[i].ip != ds[j].ip }

  predicate DistinctArps(hs: seq<ArpHost>) { forall i, j | 0 <= i < j < |hs| :: hs[i].ip != hs[j].ip }

  method ListDevices(found: map<nat, Device>) returns (out: seq<Device>)
    requires forall ip | ip in found :: found[ip].ip == ip
    ensures DistinctDevices(out) && forall d :: d in out <==> d.ip in found && found[d.ip] == d
  {
    out := [];
    var rest := found.Keys;
    while rest != {}
      invariant rest <= found.Keys && DistinctDevices(out)
      invariant forall d :: d in out <==> d.ip in found && d.ip !in rest && found[d.ip] == d
    {
      var ip :| ip in rest;
      rest := rest - {ip};
      out := out + [found[ip]];
    }
  }

  // ARP hosts that answered the probe themselves are already devices.
  method ListArps(arp: map<nat, ArpHost>, found: map<nat, Device>) returns (out: seq<ArpHost>)
    requires forall ip | ip in arp :: arp[ip].ip == ip
    ensures DistinctArps(out) && forall h :: h in out <==> h.ip in arp && h.ip !in found && arp[h.ip] == h
  {
    out := [];
    var rest := arp.Keys;
    while rest != {}
      invariant rest <= arp.Keys && DistinctArps(out)
      invariant forall h :: h in out <==> h.ip in arp && h.ip !in rest && h.ip !in found && arp[h.ip] == h
    {
      var ip :| ip in rest;
      rest := rest - {ip};
      if ip !in found { out := out + [arp[ip]]; }
    }
  }

  lemma {:induction false} AllFoundKeyed(ts: seq<Target>)
    requires forall i | 0 <= i < |ts| :: Honest(ts[i].scan)
    ensures forall ip | ip in AllFound(ts) :: AllFound(ts)[ip].ip == ip
  {
    if ts != [] { AllFoundKeyed(ts[..|ts| - 1]); }
  }

  lemma OneTargetMore(ts: seq<Target>, i: nat, sh: Shared, sh': Shared)
    requires i < |ts| && SweptAll(ts[..i], sh) && Swept(HostsOf(ts[i]), sh, sh', ts[i].scan)
    ensures SweptAll(ts[..i + 1], sh')
  {
    assert ts[..i + 1][..i] == ts[..i];
  }

  lemma OneTargetSkipped(ts: seq<Target>, i: nat, sh: Shared)
    requires i < |ts| && SweptAll(ts[..i], sh) && HostsOf(ts[i]) == []
    ensures SweptAll(ts[..i + 1], sh)
  {
    assert ts[..i + 1][..i] == ts[..i];
    assert AllFound(ts[..i + 1]) == AllFound(ts[..i]);
    assert AllArp(ts[..i + 1]) == AllArp(ts[..i]);
  }

  // The targets one after the other; a CIDR that cannot be expanded is an error and is skipped.
  method SweepTargets(targets: seq<Target>) returns (sh: Shared, errors: nat)
    requires forall i | 0 <= i < |targets| :: Masked(targets[i].cidr) && Honest(targets[i].scan)
    ensures SweptAll(targets, sh) && errors == Skipped(targets)
  {
    sh, errors := Shared(map[], [], map[], []), 0;
    for i := 0 to |targets|
      invariant SweptAll(targets[..i], sh) && errors == Skipped(targets[..i])
    {
      assert targets[..i + 1][..i] == targets[..i];
      var hosts := ExpandCidr(targets[i].cidr);
      if hosts.None? {
        OneTargetSkipped(targets, i, sh);
        errors := errors + 1;
      } else {
        ghost var before := sh;
        sh := Sweep(hosts.value, targets[i].scan, sh);
        OneTargetMore(targets, i, before, sh);
      }
    }
    assert targets[..|targets|] == targets;
  }

  method Discover(targets: seq<Target>)
    returns (devices: seq<Device>, links: seq<string>, arps: seq<ArpHost>, probes: seq<nat>, errors: nat)
    requires forall i | 0 <= i < |targets| :: Masked(targets[i].cidr) && Honest(targets[i].scan)
    ensures DistinctDevices(devices) && forall d :: d in devices <==> d.ip in AllFound(targets) && AllFound(targets)[d.ip] == d
    ensures multiset(links) == AllLinks(targets)
    ensures multiset(probes) == AllProbes(targets)
    ensures DistinctArps(arps) && forall ip: nat :: (exists h :: h in arps && h.ip == ip) <==> ip in AllArp(targets) && ip !in AllFound(targets)
    ensures errors == Skipped(targets)
  {
    var sh;
    sh, errors := SweepTargets(targets);
    AllFoundKeyed(targets);
    devices := ListDevices(sh.found);
    links, probes := sh.links, sh.probes;
    arps := ListArps(sh.arp, sh.found);
    forall ip: nat ensures (exists h :: h in arps && h.ip == ip) <==> ip in AllArp(targets) && ip !in AllFound(targets) {
      assert ip in sh.arp && ip !in sh.found ==> sh.arp[ip] in arps;
    }
  }
}
