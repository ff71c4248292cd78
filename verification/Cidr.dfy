/** Address arithmetic of the discovery sweep: which addresses a CIDR block expands to. */
module Cidr {
  import opened Wrappers

  const UINT32: nat := 0x1_0000_0000
  const MAX_HOSTS: nat := 4096

  // What parsing the CIDR text yields; a block is its masked base address and its number of host bits.
  datatype Parsed = Malformed | NotIPv4 | Block(base: nat, hostBits: nat)

  function Pow2(n: nat): (p: nat)
    ensures p >= 1
  {
    if n == 0 then 1 else 2 * Pow2(n - 1)
  }

  lemma {:induction false} Pow2Monotone(m: nat, n: nat)
    requires m <= n
    ensures Pow2(m) <= Pow2(n)
    ensures m < n ==> 2 * Pow2(m) <= Pow2(n)
  {
    if m < n { Pow2Monotone(m, n - 1); }
  }

  lemma Pow2Values()
    ensures Pow2(1) == 2 && Pow2(2) == 4 && Pow2(12) == 4096 && Pow2(13) == 8192 && Pow2(20) == 0x10_0000
  {
  }

  // Parsing masks the address, so the base is aligned and the block fits in 32 bits.
  predicate Masked(p: Parsed) {
    p.Block? ==> p.hostBits <= 32 && p.base % Pow2(p.hostBits) == 0 && p.base + Pow2(p.hostBits) <= UINT32
  }

  // In the block, and neither its network nor its broadcast address unless it is a /31 or /32.
  predicate Usable(p: Parsed, a: nat) {
    p.Block? && p.base <= a < p.base + Pow2(p.hostBits) &&
    (p.hostBits > 1 ==> a != p.base && a != p.base + Pow2(p.hostBits) - 1)
  }

  predicate Increasing(s: seq<nat>) {
    forall i, j | 0 <= i < j < |s| :: s[i] < s[j]
  }

  function Addresses(first: nat, n: nat): seq<nat> { seq(n, i => first + i) }

  // The usable addresses of a block in order; None for a text the sweep skips.
  function Expansion(p: Parsed): Option<seq<nat>> {
    if !p.Block? || p.hostBits > 12 then None
    else
      var count := Pow2(p.hostBits);
      var lo, hi := if p.hostBits <= 1 then 0 else 1, if p.hostBits <= 1 then count else count - 1;
      if lo > hi then None else Some(Addresses(p.base + lo, hi - lo))
  }

  /** The expansion lists exactly the usable addresses, in strictly increasing order, and exists exactly for
      IPv4 blocks of at most 12 host bits. */
  lemma ExpansionIsUsable(p: Parsed)
    requires Masked(p)
    ensures Expansion(p).Some? <==> p.Block? && p.hostBits <= 12
    ensures Expansion(p).Some? ==>
      var hosts := Expansion(p).value;
      Increasing(hosts) && |hosts| > 0 && forall a: nat :: a in hosts <==> Usable(p, a)
  {
    if p.Block? && p.hostBits <= 12 {
      CountBounds(p.hostBits);
      var hosts := Expansion(p).value;
      var lo := if p.hostBits <= 1 then 0 else 1;
      forall a: nat | Usable(p, a) ensures a in hosts { assert hosts[a - p.base - lo] == a; }
    }
  }

  // No count the expansion computes wraps in 32 bits.
  lemma CountBounds(hostBits: nat)
    requires hostBits <= 20
    ensures Pow2(hostBits) < UINT32 && Pow2(hostBits) % UINT32 == Pow2(hostBits)
    ensures if hostBits <= 1 then Pow2(hostBits) <= 2 else Pow2(hostBits) >= 4
    ensures if hostBits <= 12 then Pow2(hostBits) <= 4096 else Pow2(hostBits) >= 8192
  {
    Pow2Values();
    Pow2Monotone(hostBits, 20);
    if hostBits <= 1 { Pow2Monotone(hostBits, 1); } else { Pow2Monotone(2, hostBits); }
    if hostBits <= 12 { Pow2Monotone(hostBits, 12); } else { Pow2Monotone(13, hostBits); }
  }

  lemma Unwrapped(a: nat)
    requires a < UINT32
    ensures a % UINT32 == a
  {
  }

  lemma SameAddresses(out: seq<nat>, first: nat, n: nat)
    requires |out| == n && forall k | 0 <= k < n :: out[k] == first + k
    ensures out == Addresses(first, n)
  {
  }

  method ExpandCidr(p: Parsed) returns (r: Option<seq<nat>>)
    requires Masked(p)
    ensures r == Expansion(p)
  {
    if !p.Block? { return None; }
    if p.hostBits > 20 { return None; }
    CountBounds(p.hostBits);
    var count := Pow2(p.hostBits) % UINT32;
    var lo, hi := if p.hostBits <= 1 then 0 else 1, if p.hostBits <= 1 then count else count - 1;
    var out := [];
    var i := lo;
    while i < hi
      invariant lo <= i <= hi
      invariant |out| == i - lo
      invariant forall k | 0 <= k < |out| :: out[k] == p.base + lo + k
    {
      Unwrapped(p.base + i);
      out := out + [(p.base + i) % UINT32];
      i := i + 1;
    }
    if |out| > MAX_HOSTS { return None; }
    SameAddresses(out, p.base + lo, hi - lo);
    return Some(out);
  }

  // ----- the console's validation -----

  // How many addresses the block covers; None is an error answer.
  function CidrHostCount(p: Parsed): Option<nat> {
    if !p.Block? || p.hostBits > 20 then None else Some(Pow2(p.hostBits) % UINT32)
  }

  datatype TargetInput = TargetInput(name: string, cidr: string, port: int, version: string, community: string)

  function ValidTarget(t: TargetInput, p: Parsed): bool {
    && t.name != "" && t.cidr != "" && t.community != ""
    && (t.port == 0 || 1 <= t.port <= 65535)
    && (t.version == "" || t.version == "2c")
    && CidrHostCount(p).Some? && CidrHostCount(p).value <= MAX_HOSTS
  }

  /** The console accepts a target exactly when its fields are filled in with a port and a version it knows, and the
      agent can expand its CIDR: an IPv4 block of at most 12 host bits. */
  lemma ConsoleAcceptsWhatTheAgentExpands(t: TargetInput, p: Parsed)
    requires Masked(p)
    ensures ValidTarget(t, p) <==>
      && t.name != "" && t.cidr != "" && t.community != ""
      && 0 <= t.port < 0x1_0000 && t.version in {"", "2c"}
      && Expansion(p).Some?
    ensures ValidTarget(t, p) ==> p.Block? && p.hostBits <= 12
  {
    ExpansionIsUsable(p);
    if p.Block? && p.hostBits <= 20 {
      CountBounds(p.hostBits);
    }
  }
}
