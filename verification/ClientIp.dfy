/**
 Trusted-proxy resolution (src/auth/mod.rs:686-816): CIDR membership by xor and shift, and
 the right-to-left walk over X-Forwarded-For. How an address is written is left to `parse`.
 */
module ClientIp {
  import opened Wrappers
  import opened Strings
  import B = Bits

  datatype RawIp = V4(bits: nat) | V6(bits: nat)

  function Width(ip: RawIp): nat {
    if ip.V4? then 32 else 128
  }

  /** An address fits its family's width. */
  type Ip = ip: RawIp | ip.bits < B.Pow2(Width(ip)) witness V4(0)

  datatype RawNet = Net(base: Ip, prefix: nat)

  /** A network: an address and how many leading bits count. */
  type Network = net: RawNet | net.prefix <= Width(net.base) witness Net(V4(0), 0)

  /** `str::parse::<IpAddr>`. */
  type Parser = string -> Option<Ip>

  // ------------------------------------------------------------- membership

  predicate InNet(ip: Ip, net: Network) {
    ip.V4? == net.base.V4?
    && (net.prefix == 0 || B.Shr(B.Xor(ip.bits, net.base.bits), Width(ip) - net.prefix) == 0)
  }

  /** The xor-and-shift test is agreement on the first `prefix` bits, within one family. */
  lemma InNetIsPrefixAgreement(ip: Ip, net: Network)
    ensures InNet(ip, net) <==>
      ip.V4? == net.base.V4? &&
      forall i :: Width(ip) - net.prefix <= i < Width(ip) ==> B.Bit(ip.bits, i) == B.Bit(net.base.bits, i)
  {
    if ip.V4? == net.base.V4? {
      var k := Width(ip) - net.prefix;
      B.ShrOfXor(ip.bits, net.base.bits, k);
      B.XorZero(B.Shr(ip.bits, k), B.Shr(net.base.bits, k));
      B.ShrEqualIsBitsEqual(ip.bits, net.base.bits, k, Width(ip));
    }
  }

  predicate Trusted(ip: Ip, nets: seq<Network>) {
    exists i :: 0 <= i < |nets| && InNet(ip, nets[i])
  }

  // ---------------------------------------------------------- configuration

  /** One trusted_proxies entry; None when it must be ignored. */
  function ParseNet(parse: Parser, raw: string): Option<Network> {
    var s := Trim(raw);
    var slash := Find(s, '/');
    var ip := parse(if slash.Some? then Trim(s[..slash.value]) else s);
    if s == "" || ip.None? then None
    else if slash.None? then Some(Net(ip.value, Width(ip.value)))
    else match ParseNat(Trim(s[slash.value + 1..]), 255)
      case Some(p) => if p <= Width(ip.value) then Some(Net(ip.value, p)) else None
      case None => None
  }

  function Nets(parse: Parser, entries: seq<string>): seq<Network> {
    if entries == [] then []
    else
      var rest := Nets(parse, entries[..|entries| - 1]);
      match ParseNet(parse, entries[|entries| - 1])
      case Some(net) => rest + [net]
      case None => rest
  }

  method ParseTrustedNets(parse: Parser, entries: seq<string>) returns (nets: seq<Network>)
    ensures nets == Nets(parse, entries)
    ensures forall ip: Ip :: Trusted(ip, nets) <==> Listed(parse, entries, ip)
  {
    forall ip: Ip ensures Trusted(ip, Nets(parse, entries)) <==> Listed(parse, entries, ip) {
      TrustedIsListed(parse, entries, ip);
    }
    nets := [];
    var i := 0;
    while i < |entries|
      invariant 0 <= i <= |entries|
      invariant nets == Nets(parse, entries[..i])
    {
      assert entries[..i + 1][..i] == entries[..i];
      var net := ParseNet(parse, entries[i]);
      if net.Some? {
        nets := nets + [net.value];
      }
      i := i + 1;
    }
    assert entries[..i] == entries;
  }

  // ------------------------------------------------------- what an entry trusts

  /** Two addresses of one family that agree on their first p bits. */
  predicate Agree(a: Ip, b: Ip, p: nat) {
    a.V4? == b.V4? && p <= Width(a) && forall i :: Width(a) - p <= i < Width(a) ==> B.Bit(a.bits, i) == B.Bit(b.bits, i)
  }

  /** An address names itself. `a/p` names the addresses that agree with a on the first p bits, if a has so many.
      White space around the parts does not count. */
  ghost predicate Names(parse: Parser, entry: string, ip: Ip) {
    || (Trim(entry) != "" && '/' !in entry && parse(Trim(entry)) == Some(ip))
    || (exists a: Ip, p: nat, k :: 0 <= k < |Trim(entry)| && SplitsAt(Trim(entry), k)
          && parse(Trim(Trim(entry)[..k])) == Some(a) && ParseNat(Trim(Trim(entry)[k + 1..]), 255) == Some(p)
          && Agree(ip, a, p))
  }

  /** The first slash stands at k. */
  predicate SplitsAt(s: string, k: nat) {
    k < |s| && s[k] == '/' && '/' !in s[..k]
  }

  ghost predicate Listed(parse: Parser, entries: seq<string>, ip: Ip) {
    exists i :: 0 <= i < |entries| && Names(parse, entries[i], ip)
  }

  lemma SlashSurvivesTrim(s: string)
    ensures '/' in Trim(s) <==> '/' in s
  {
    var left, right := TrimCutsSpace(s);
    assert forall c :: c in s <==> c in left || c in Trim(s) || c in right;
  }

  lemma FullPrefix(ip: Ip, base: Ip)
    ensures InNet(ip, Net(base, Width(base))) <==> ip == base
  {
    if ip.V4? == base.V4? {
      B.XorZero(ip.bits, base.bits);
      assert B.Shr(B.Xor(ip.bits, base.bits), 0) == B.Xor(ip.bits, base.bits);
    }
  }

  lemma SlashAt(s: string)
    ensures Find(s, '/').None? <==> '/' !in s
    ensures forall k: nat :: SplitsAt(s, k) <==> Find(s, '/') == Some(k)
  {
    forall k: nat | SplitsAt(s, k) ensures Find(s, '/') == Some(k) {
      forall j | 0 <= j < k ensures s[j] != '/' {
        assert s[j] in s[..k];
      }
      FindFirst(s, '/', k);
    }
  }

  lemma NetNames(parse: Parser, entry: string, ip: Ip)
    ensures Names(parse, entry, ip) <==> ParseNet(parse, entry).Some? && InNet(ip, ParseNet(parse, entry).value)
  {
    hide Trim, ParseNat, Find, InNet, Agree;
    var s := Trim(entry);
    SlashSurvivesTrim(entry);
    SlashAt(s);
    match Find(s, '/')
    case None =>
      if parse(s).Some? {
        FullPrefix(ip, parse(s).value);
      }
    case Some(k) =>
      var base, p := parse(Trim(s[..k])), ParseNat(Trim(s[k + 1..]), 255);
      if base.Some? && p.Some? {
        if p.value <= Width(base.value) {
          InNetIsPrefixAgreement(ip, Net(base.value, p.value));
        }
        AgreeIs(ip, base.value, p.value);
      }
  }

  lemma AgreeIs(ip: Ip, base: Ip, p: nat)
    ensures Agree(ip, base, p) <==> p <= Width(base) && InNet(ip, Net(base, p))
  {
    if p <= Width(base) {
      InNetIsPrefixAgreement(ip, Net(base, p));
    }
  }

  /** What is trusted is what the entries name. */
  lemma {:induction false} TrustedIsListed(parse: Parser, entries: seq<string>, ip: Ip)
    ensures Trusted(ip, Nets(parse, entries)) <==> Listed(parse, entries, ip)
  {
    hide InNet, Names, ParseNet;
    if entries != [] {
      var n := |entries| - 1;
      TrustedIsListed(parse, entries[..n], ip);
      NetNames(parse, entries[n], ip);
      var rest, nets := Nets(parse, entries[..n]), Nets(parse, entries);
      TrustedNext(ip, rest, nets);
      assert forall i :: 0 <= i < n ==> entries[i] == entries[..n][i];
    }
  }

  lemma TrustedNext(ip: Ip, rest: seq<Network>, nets: seq<Network>)
    requires nets == rest || (|nets| == |rest| + 1 && nets == rest + [nets[|rest|]])
    ensures Trusted(ip, nets) <==> Trusted(ip, rest) || (|nets| == |rest| + 1 && InNet(ip, nets[|rest|]))
  {
    hide InNet;
    assert forall i :: 0 <= i < |rest| ==> nets[i] == rest[i];
  }

  // --------------------------------------------------------------- the walk

  function Blank(s: string): bool {
    Trim(s) == ""
  }

  /** A part at which the walk does not stop: blank, or a trusted address. */
  predicate Passed(parse: Parser, nets: seq<Network>, part: string) {
    Blank(part) || (parse(Trim(part)).Some? && Trusted(parse(Trim(part)).value, nets))
  }

  /** The part that decides: the rightmost one not passed over. */
  ghost predicate Decides(parse: Parser, nets: seq<Network>, parts: seq<string>, k: nat) {
    && k < |parts| && !Passed(parse, nets, parts[k])
    && forall j :: k < j < |parts| ==> Passed(parse, nets, parts[j])
  }

  datatype Headers = Headers(forwardedFor: Option<string>, realIp: Option<string>)

  /** X-Real-IP if it parses, else the peer. */
  function Fallback(parse: Parser, h: Headers, peer: Ip): Ip {
    if h.realIp.Some? && !Blank(h.realIp.value) && parse(Trim(h.realIp.value)).Some? then
      parse(Trim(h.realIp.value)).value
    else peer
  }

  /** Every part was passed over: the leftmost entry, if it is not blank. */
  function AllPassed(parse: Parser, h: Headers, parts: seq<string>, peer: Ip): Ip
    requires parts != []
  {
    if !Blank(parts[0]) && parse(Trim(parts[0])).Some? then parse(Trim(parts[0])).value
    else Fallback(parse, h, peer)
  }

  /** Right to left until an entry is not passed over; its parse is the verdict. */
  method WalkChain(parse: Parser, nets: seq<Network>, parts: seq<string>)
    returns (stopped: bool, verdict: Option<Ip>, sawEntry: bool)
    ensures stopped ==> exists k: nat :: Decides(parse, nets, parts, k) && verdict == parse(Trim(parts[k]))
    ensures !stopped ==> forall j :: 0 <= j < |parts| ==> Passed(parse, nets, parts[j])
    ensures !stopped ==> (sawEntry <==> exists j :: 0 <= j < |parts| && !Blank(parts[j]))
  {
    stopped, verdict, sawEntry := false, None, false;
    var i := |parts|;
    while i > 0
      invariant 0 <= i <= |parts|
      invariant forall j :: i <= j < |parts| ==> Passed(parse, nets, parts[j])
      invariant sawEntry <==> exists j :: i <= j < |parts| && !Blank(parts[j])
    {
      i := i - 1;
      var part := Trim(parts[i]);
      if part != "" {
        sawEntry := true;
        var ip := parse(part);
        if ip.None? || !Trusted(ip.value, nets) {
          assert Decides(parse, nets, parts, i);
          return true, ip, true;
        }
      }
    }
  }

  method ResolveClientIp(parse: Parser, h: Headers, peer: Option<Ip>, trustedProxies: seq<string>)
    returns (r: Option<Ip>, ghost nets: seq<Network>)
    ensures nets == Nets(parse, trustedProxies)
    ensures forall ip: Ip :: Trusted(ip, nets) <==> Listed(parse, trustedProxies, ip)
    ensures peer.None? ==> r.None?
    ensures peer.Some? && !Listed(parse, trustedProxies, peer.value) ==> r == peer
    ensures peer.Some? && Listed(parse, trustedProxies, peer.value) ==> IsClient(parse, h, peer.value, nets, r)
  {
    var trusted := ParseTrustedNets(parse, trustedProxies);
    nets := trusted;
    if peer.None? {
      return None, nets;
    }
    if trusted == [] || !Trusted(peer.value, trusted) {
      return peer, nets;
    }
    if h.forwardedFor.Some? {
      var parts := SplitOn(h.forwardedFor.value, ',');
      var stopped, verdict, sawEntry := WalkChain(parse, trusted, parts);
      if stopped {
        return verdict, nets;
      }
      if sawEntry && !Blank(parts[0]) {
        var ip := parse(Trim(parts[0]));
        if ip.Some? {
          return ip, nets;
        }
      }
    }
    if h.realIp.Some? && !Blank(h.realIp.value) {
      var ip := parse(Trim(h.realIp.value));
      if ip.Some? {
        return ip, nets;
      }
    }
    r := peer;
  }

  /** The answer for a trusted peer. */
  ghost predicate IsClient(parse: Parser, h: Headers, peer: Ip, nets: seq<Network>, r: Option<Ip>) {
    if h.forwardedFor.None? then r == Some(Fallback(parse, h, peer))
    else
      var parts := SplitOn(h.forwardedFor.value, ',');
      if forall j :: 0 <= j < |parts| ==> Passed(parse, nets, parts[j]) then
        r == Some(AllPassed(parse, h, parts, peer))
      else exists k: nat :: Decides(parse, nets, parts, k) && r == parse(Trim(parts[k]))
  }

  /** A single forwarded entry is the answer, if it is an address; one that is none leaves no answer. Without an entry
      it is X-Real-IP where that is an address, else the peer. */
  lemma OneEntryAnswers(parse: Parser, h: Headers, peer: Ip, nets: seq<Network>, r: Option<Ip>)
    ensures h.forwardedFor.Some? && ',' !in h.forwardedFor.value && !AllSpace(h.forwardedFor.value) ==>
      (IsClient(parse, h, peer, nets, r) <==> r == parse(Trim(h.forwardedFor.value)))
    ensures h.forwardedFor.None? || AllSpace(h.forwardedFor.value) ==>
      (IsClient(parse, h, peer, nets, r) <==>
        r == if h.realIp.Some? && !AllSpace(h.realIp.value) && parse(Trim(h.realIp.value)).Some?
             then parse(Trim(h.realIp.value)) else Some(peer))
  {
    hide Trim;
    if h.realIp.Some? {
      BlankIsSpace(h.realIp.value);
    }
    if h.forwardedFor.Some? {
      var entry := h.forwardedFor.value;
      BlankIsSpace(entry);
      if ',' !in entry || AllSpace(entry) {
        assert ',' !in entry;
        var parts := SplitOn(entry, ',');
        assert parts == [entry];
        assert parts[0] == entry;
        if !Passed(parse, nets, entry) {
          assert Decides(parse, nets, parts, 0);
        }
      }
    }
  }

  // ------------------------------------------------------------- properties

  lemma DecidesUnique(parse: Parser, nets: seq<Network>, parts: seq<string>, a: nat, b: nat)
    requires Decides(parse, nets, parts, a) && Decides(parse, nets, parts, b)
    ensures a == b
  {
  }

  /** What stands left of the deciding entry does not matter: a client can prepend anything. */
  lemma LeftIsIrrelevant(
    parse: Parser, nets: seq<Network>, realIp: Option<string>, peer: Ip, left: string, right: string, r: Option<Ip>)
    requires exists j :: 0 <= j < |SplitOn(right, ',')| && !Passed(parse, nets, SplitOn(right, ',')[j])
    ensures IsClient(parse, Headers(Some(left + [','] + right), realIp), peer, nets, r)
       <==> IsClient(parse, Headers(Some(right), realIp), peer, nets, r)
  {
    SplitOnAppend(left, right, ',');
    var k := LastUnpassed(parse, nets, SplitOn(right, ','));
    DeciderIsClient(parse, Headers(Some(right), realIp), peer, nets, r, k);
    DecidesShifted(parse, nets, SplitOn(left, ','), SplitOn(right, ','), k);
    DeciderIsClient(parse, Headers(Some(left + [','] + right), realIp), peer, nets, r, |SplitOn(left, ',')| + k);
  }

  lemma DecidesShifted(parse: Parser, nets: seq<Network>, before: seq<string>, parts: seq<string>, k: nat)
    requires Decides(parse, nets, parts, k)
    ensures Decides(parse, nets, before + parts, |before| + k)
    ensures (before + parts)[|before| + k] == parts[k]
  {
    var all, n := before + parts, |before|;
    assert forall j :: n + k <= j < |all| ==> all[j] == parts[j - n];
  }

  lemma DeciderIsClient(parse: Parser, h: Headers, peer: Ip, nets: seq<Network>, r: Option<Ip>, k: nat)
    requires h.forwardedFor.Some? && Decides(parse, nets, SplitOn(h.forwardedFor.value, ','), k)
    ensures IsClient(parse, h, peer, nets, r) <==> r == parse(Trim(SplitOn(h.forwardedFor.value, ',')[k]))
  {
    forall j: nat | Decides(parse, nets, SplitOn(h.forwardedFor.value, ','), j) ensures j == k {
      DecidesUnique(parse, nets, SplitOn(h.forwardedFor.value, ','), j, k);
    }
  }

  lemma LastUnpassed(parse: Parser, nets: seq<Network>, parts: seq<string>) returns (k: nat)
    requires exists j :: 0 <= j < |parts| && !Passed(parse, nets, parts[j])
    ensures Decides(parse, nets, parts, k)
  {
    k := |parts| - 1;
    while Passed(parse, nets, parts[k])
      invariant 0 <= k < |parts| && forall j :: k < j < |parts| ==> Passed(parse, nets, parts[j])
      decreases k
    {
      k := k - 1;
    }
  }
}
