/** Host ids as people write them, the endpoints a host advertises, and the one a
    client picks. */
module Discovery {
  import opened ByteStrings
  import opened Proto

  // -------------------------------------------------------------------------
  // Ids

  const SPACE: Byte := 32

  /** A chunk that is not text is shown as nothing. */
  function Shown(chunk: Bytes): Bytes {
    if IsUtf8(chunk) then chunk else []
  }

  /** `123456789` as `123 456 789`: the chunks of three joined by spaces. */
  function PrettyId(id: Bytes): Bytes {
    if |id| <= 3 then Shown(id) else Shown(id[..3]) + [SPACE] + PrettyId(id[3..])
  }

  function Digits(s: Bytes): Bytes {
    if s == [] then []
    else if 48 <= s[0] <= 57 then [s[0]] + Digits(s[1..])
    else Digits(s[1..])
  }

  function NormalizeId(input: Bytes): Option<Bytes> {
    if IsValidId(Digits(input)) then Some(Digits(input)) else None
  }

  lemma Associates(a: Bytes, b: Bytes, c: Bytes)
    ensures (a + b) + c == a + (b + c)
  {
  }

  lemma DigitsCons(c: Byte, s: Bytes)
    ensures Digits([c] + s) == (if 48 <= c <= 57 then [c] else []) + Digits(s)
  {
    assert ([c] + s)[1..] == s;
  }

  lemma {:induction false} DigitsConcat(a: Bytes, b: Bytes)
    ensures Digits(a + b) == Digits(a) + Digits(b)
  {
    if a == [] {
      assert a + b == b;
    } else {
      DigitsConcat(a[1..], b);
      DigitsCons(a[0], a[1..]);
      DigitsCons(a[0], a[1..] + b);
      assert [a[0]] + a[1..] == a;
      Associates([a[0]], a[1..], b);
      Associates(if 48 <= a[0] <= 57 then [a[0]] else [], Digits(a[1..]), Digits(b));
    }
  }

  lemma {:induction false} DigitsOfDigits(s: Bytes)
    requires AllDigits(s)
    ensures Digits(s) == s
  {
    if s == [] {
    } else {
      DigitsOfDigits(s[1..]);
    }
  }

  lemma {:induction false} PrettyKeepsDigits(id: Bytes)
    requires AllDigits(id)
    ensures Digits(PrettyId(id)) == id
  {
    if |id| <= 3 {
      AsciiIsUtf8(id);
      DigitsOfDigits(id);
    } else {
      PrettyKeepsDigits(id[3..]);
      AsciiIsUtf8(id[..3]);
      DigitsOfDigits(id[..3]);
      DigitsConcat(id[..3] + [SPACE], PrettyId(id[3..]));
      DigitsConcat(id[..3], [SPACE]);
      assert Digits([SPACE]) == [];
      assert id[..3] + id[3..] == id;
    }
  }

  /** The id a person copies from the host's screen, three groups of three digits,
      is read back as that id, and whatever is read at all is a valid id. */
  lemma PrettyIdReadsBack(id: Bytes, input: Bytes)
    ensures IsValidId(id) ==> PrettyId(id) == id[..3] + Ascii(" ") + id[3..6] + Ascii(" ") + id[6..]
    ensures IsValidId(id) ==> NormalizeId(PrettyId(id)) == Some(id)
    ensures NormalizeId(input).Some? ==> IsValidId(NormalizeId(input).value)
  {
    if IsValidId(id) {
      PrettyKeepsDigits(id);
      ThreeGroups(id);
    }
  }

  lemma ThreeGroups(id: Bytes)
    requires IsValidId(id)
    ensures PrettyId(id) == id[..3] + Ascii(" ") + id[3..6] + Ascii(" ") + id[6..]
  {
    AsciiIsUtf8(id[..3]);
    AsciiIsUtf8(id[3..6]);
    AsciiIsUtf8(id[6..]);
    assert id[3..][..3] == id[3..6] && id[3..][3..] == id[6..];
    assert PrettyId(id[6..]) == id[6..];
    assert PrettyId(id[3..]) == id[3..6] + [SPACE] + id[6..];
  }

  /** Reading an id passes over whatever is not a digit, wherever it stands, and
      takes nine digits by themselves exactly if they are an id. */
  lemma SeparatorsDoNotMatter(a: Bytes, c: Byte, b: Bytes)
    ensures !('0' as int <= c as int <= '9' as int) ==> NormalizeId(a + [c] + b) == NormalizeId(a + b)
    ensures AllDigits(a) ==> NormalizeId(a) == if IsValidId(a) then Some(a) else None
  {
    DigitsConcat(a + [c], b);
    DigitsConcat(a, [c]);
    DigitsConcat(a, b);
    if !('0' as int <= c as int <= '9' as int) { assert Digits([c]) == [] && Digits(a) + [] == Digits(a); }
    if AllDigits(a) { DigitsOfDigits(a); }
  }

  // -------------------------------------------------------------------------
  // Advertised endpoints

  const VPN: Bytes := Ascii("vpn")
  const LAN: Bytes := Ascii("lan")
  const MANUAL: Bytes := Ascii("manual")
  const PUBLIC: Bytes := Ascii("public")

  datatype Interface = Interface(name: Bytes, ip: Bytes, loopback: bool, linkLocalV6: bool)

  datatype Config = Config(port: nat, advertiseLan: bool, advertisePublic: bool, extra: seq<Endpoint>)

  predicate IsVpn(name: Bytes) {
    Ascii("tailscale") <= name || Ascii("utun") <= name || Ascii("wg") <= name || Ascii("zt") <= name
  }

  /** The endpoints of the usable interfaces, in order. */
  function OfInterfaces(port: nat, ifaces: seq<Interface>): seq<Endpoint> {
    if ifaces == [] then []
    else
      var i := ifaces[|ifaces| - 1];
      OfInterfaces(port, ifaces[..|ifaces| - 1])
      + if i.loopback || i.linkLocalV6 then [] else [Endpoint(i.ip, port, if IsVpn(i.name) then VPN else LAN)]
  }

  /** Everything the agent could advertise, in the order it is considered. */
  function Candidates(cfg: Config, ifaces: Option<seq<Interface>>, observed: Option<Bytes>): seq<Endpoint> {
    (if cfg.advertiseLan && ifaces.Some? then OfInterfaces(cfg.port, ifaces.value) else [])
    + cfg.extra
    + (if cfg.advertisePublic && observed.Some? then [Endpoint(observed.value, cfg.port, PUBLIC)] else [])
  }

  lemma {:induction false} InterfacesConcat(port: nat, a: seq<Interface>, b: seq<Interface>)
    ensures OfInterfaces(port, a + b) == OfInterfaces(port, a) + OfInterfaces(port, b)
  {
    if b == [] {
      assert a + b == a && OfInterfaces(port, a) + [] == OfInterfaces(port, a);
    } else {
      var front := b[..|b| - 1];
      InterfacesConcat(port, a, front);
      assert (a + b)[..|a + b| - 1] == a + front && (a + b)[|a + b| - 1] == b[|b| - 1];
    }
  }

  /** What one interface contributes: its address under the configured port, unless it
      is a loopback or an IPv6 link-local one; as a VPN by its name's beginning. */
  lemma OneInterface(port: nat, i: Interface)
    ensures var vpn := Ascii("tailscale") <= i.name || Ascii("utun") <= i.name || Ascii("wg") <= i.name
                       || Ascii("zt") <= i.name;
      OfInterfaces(port, [i]) ==
      if i.loopback || i.linkLocalV6 then []
      else [Endpoint(host := i.ip, port := port, kind := if vpn then Ascii("vpn") else Ascii("lan"))]
  {
  }

  /** The addresses of the machine come first, if they are to be advertised and can be
      had, then what is configured, then the address observed, if it is to be. */
  lemma CandidatesInOrder(cfg: Config, ifaces: Option<seq<Interface>>, observed: Option<Bytes>)
    ensures var own := if cfg.advertiseLan && ifaces.Some? then OfInterfaces(cfg.port, ifaces.value) else [];
      var all := Candidates(cfg, ifaces, observed);
      && |all| >= |own| + |cfg.extra| && all[..|own|] == own && all[|own|..|own| + |cfg.extra|] == cfg.extra
      && all[|own| + |cfg.extra|..] ==
         if cfg.advertisePublic && observed.Some?
         then [Endpoint(host := observed.value, port := cfg.port, kind := Ascii("public"))] else []
  {
  }

  function Hosts(eps: seq<Endpoint>): set<Bytes> {
    set i | 0 <= i < |eps| :: eps[i].host
  }

  /** Each host's first endpoint. */
  function FirstOfEachHost(eps: seq<Endpoint>): seq<Endpoint> {
    if eps == [] then []
    else
      var last := eps[|eps| - 1];
      var front := FirstOfEachHost(eps[..|eps| - 1]);
      if last.host in Hosts(eps[..|eps| - 1]) then front else front + [last]
  }

  predicate DistinctHosts(eps: seq<Endpoint>) {
    forall i, j | 0 <= i < j < |eps| :: eps[i].host != eps[j].host
  }

  /** Position k holds the first endpoint offered for its host. */
  predicate FirstAt(eps: seq<Endpoint>, k: nat) {
    k < |eps| && forall j | 0 <= j < k :: eps[j].host != eps[k].host
  }

  ghost predicate IsFirst(eps: seq<Endpoint>, e: Endpoint) {
    exists k: nat :: FirstAt(eps, k) && eps[k] == e
  }

  ghost predicate AllFirst(firsts: seq<Endpoint>, eps: seq<Endpoint>) {
    forall i | 0 <= i < |firsts| :: IsFirst(eps, firsts[i])
  }

  lemma AllFirstGrows(firsts: seq<Endpoint>, eps: seq<Endpoint>, e: Endpoint)
    requires AllFirst(firsts, eps)
    ensures AllFirst(firsts, eps + [e])
  {
    forall i | 0 <= i < |firsts| ensures IsFirst(eps + [e], firsts[i]) {
      assert IsFirst(eps, firsts[i]);
      var k: nat :| FirstAt(eps, k) && eps[k] == firsts[i];
      assert FirstAt(eps + [e], k);
    }
  }

  lemma AllFirstPush(firsts: seq<Endpoint>, eps: seq<Endpoint>, e: Endpoint)
    requires AllFirst(firsts, eps) && e.host !in Hosts(eps)
    ensures AllFirst(firsts + [e], eps + [e])
  {
    AllFirstGrows(firsts, eps, e);
    forall k | 0 <= k < |eps| ensures eps[k].host != e.host { assert eps[k].host in Hosts(eps); }
    assert FirstAt(eps + [e], |eps|);
  }

  /** Keeping first occurrences repeats no host, loses none, and keeps for each the
      first endpoint offered. */
  lemma {:induction false} FirstOfEachHostIsSound(eps: seq<Endpoint>)
    ensures var firsts := FirstOfEachHost(eps);
      DistinctHosts(firsts) && Hosts(firsts) == Hosts(eps) && AllFirst(firsts, eps)
  {
    if eps == [] {
    } else {
      var front, last := eps[..|eps| - 1], eps[|eps| - 1];
      var firsts := FirstOfEachHost(front);
      assert front + [last] == eps;
      FirstOfEachHostIsSound(front);
      HostsPush(front, last);
      HostsPush(firsts, last);
      AllFirstGrows(firsts, front, last);
      if last.host !in Hosts(front) { AllFirstPush(firsts, front, last); }
    }
  }

  lemma HostsPush(eps: seq<Endpoint>, e: Endpoint)
    ensures Hosts(eps + [e]) == Hosts(eps) + {e.host}
  {
    forall h | h in Hosts(eps) + {e.host} ensures h in Hosts(eps + [e]) {
      if h in Hosts(eps) {
        var i :| 0 <= i < |eps| && eps[i].host == h;
        assert (eps + [e])[i].host == h;
      } else {
        assert (eps + [e])[|eps|].host == h;
      }
    }
  }

  /** An endpoint more goes to the end of the list, or nowhere if its host is there. */
  lemma FirstsPush(eps: seq<Endpoint>, e: Endpoint)
    ensures FirstOfEachHost(eps + [e]) ==
            if e.host in Hosts(eps) then FirstOfEachHost(eps) else FirstOfEachHost(eps) + [e]
  {
    assert (eps + [e])[..|eps|] == eps;
  }

  /** What the loops keep: the list so far and the hosts seen so far. */
  ghost predicate Collected(eps: seq<Endpoint>, seen: set<Bytes>, done: seq<Endpoint>) {
    eps == FirstOfEachHost(done) && seen == Hosts(done)
  }

  /** `if seen.insert(host) { eps.push(e) }`. */
  method Offer(eps: seq<Endpoint>, seen: set<Bytes>, e: Endpoint, ghost done: seq<Endpoint>)
    returns (eps': seq<Endpoint>, seen': set<Bytes>)
    requires Collected(eps, seen, done)
    ensures Collected(eps', seen', done + [e])
  {
    FirstsPush(done, e);
    HostsPush(done, e);
    eps' := if e.host !in seen then eps + [e] else eps;
    seen' := seen + {e.host};
  }

  method OfferInterfaces(port: nat, ifaces: seq<Interface>) returns (eps: seq<Endpoint>, seen: set<Bytes>)
    ensures Collected(eps, seen, OfInterfaces(port, ifaces))
  {
    eps, seen := [], {};
    for n := 0 to |ifaces|
      invariant Collected(eps, seen, OfInterfaces(port, ifaces[..n]))
    {
      assert ifaces[..n + 1][..n] == ifaces[..n];
      ghost var before := OfInterfaces(port, ifaces[..n]);
      assert before + [] == before;
      var i := ifaces[n];
      if !i.loopback && !i.linkLocalV6 {
        eps, seen := Offer(eps, seen, Endpoint(i.ip, port, if IsVpn(i.name) then VPN else LAN), before);
      }
    }
    assert ifaces[..|ifaces|] == ifaces;
  }

  method OfferExtra(extra: seq<Endpoint>, eps0: seq<Endpoint>, seen0: set<Bytes>, ghost done: seq<Endpoint>)
    returns (eps: seq<Endpoint>, seen: set<Bytes>)
    requires Collected(eps0, seen0, done)
    ensures Collected(eps, seen, done + extra)
  {
    eps, seen := eps0, seen0;
    assert done + [] == done;
    for n := 0 to |extra|
      invariant Collected(eps, seen, done + extra[..n])
    {
      eps, seen := Offer(eps, seen, extra[n], done + extra[..n]);
      assert done + extra[..n + 1] == done + extra[..n] + [extra[n]];
    }
    assert extra[..|extra|] == extra;
  }

  /** The list the agent advertises: the first candidate of each host, cut at
      sixteen, so no host appears twice. */
  method Endpoints(cfg: Config, ifaces: Option<seq<Interface>>, observed: Option<Bytes>) returns (eps: seq<Endpoint>)
    ensures var firsts := FirstOfEachHost(Candidates(cfg, ifaces, observed));
      eps == if |firsts| > 16 then firsts[..16] else firsts
    ensures |eps| <= 16 && DistinctHosts(eps)
  {
    eps := [];
    var seen: set<Bytes> := {};
    ghost var done := [];
    if cfg.advertiseLan && ifaces.Some? {
      eps, seen := OfferInterfaces(cfg.port, ifaces.value);
      done := OfInterfaces(cfg.port, ifaces.value);
    }
    eps, seen := OfferExtra(cfg.extra, eps, seen, done);
    done := done + cfg.extra;
    assert done + [] == done;
    if cfg.advertisePublic && observed.Some? {
      var e := Endpoint(observed.value, cfg.port, PUBLIC);
      eps, seen := Offer(eps, seen, e, done);
      done := done + [e];
    }
    assert done == Candidates(cfg, ifaces, observed);
    FirstOfEachHostIsSound(done);
    if |eps| > 16 { eps := eps[..16]; }
  }

  // -------------------------------------------------------------------------
  // Endpoint choice

  function Rank(kind: Bytes): nat {
    if kind == LAN then 0
    else if kind == VPN then 1
    else if kind == MANUAL then 2
    else if kind == PUBLIC then 3
    else 4
  }

  /** Endpoint b is to be preferred to endpoint i, or is i: by the order lan, vpn,
      manual, public, anything else, and among equals by position. */
  predicate Preferred(eps: seq<Endpoint>, b: nat, i: nat)
    requires b < |eps| && i < |eps|
  {
    var best, other := eps[b].kind, eps[i].kind;
    var lan, vpn, manual, pub := Ascii("lan"), Ascii("vpn"), Ascii("manual"), Ascii("public");
    && (other == lan ==> best == lan)
    && (other == vpn ==> best == lan || best == vpn)
    && (other == manual ==> best == lan || best == vpn || best == manual)
    && (other == pub ==> best == lan || best == vpn || best == manual || best == pub)
    && (other == best ==> b <= i)
    && (other !in [lan, vpn, manual, pub] && best !in [lan, vpn, manual, pub] ==> b <= i)
  }

  lemma BeforeIsPreferred(eps: seq<Endpoint>, b: nat, i: nat)
    requires b < |eps| && i < |eps| && (b == i || Before(eps, b, i))
    ensures Preferred(eps, b, i)
  {
  }

  /** Position i is to be tried before position j. */
  predicate Before(eps: seq<Endpoint>, i: nat, j: nat)
    requires i < |eps| && j < |eps|
  {
    Rank(eps[i].kind) < Rank(eps[j].kind) || (Rank(eps[i].kind) == Rank(eps[j].kind) && i < j)
  }

  predicate Positions(order: seq<nat>, eps: seq<Endpoint>) {
    forall k | 0 <= k < |order| :: order[k] < |eps|
  }

  predicate Ordered(order: seq<nat>, eps: seq<Endpoint>)
    requires Positions(order, eps)
  {
    forall k, l | 0 <= k < l < |order| :: Before(eps, order[k], order[l])
  }

  /** The position n put where a stable sort puts it among smaller positions. */
  function Insert(order: seq<nat>, eps: seq<Endpoint>, n: nat): (r: seq<nat>)
    requires Positions(order, eps) && n < |eps|
  {
    if order != [] && Rank(eps[order[|order| - 1]].kind) > Rank(eps[n].kind)
    then Insert(order[..|order| - 1], eps, n) + [order[|order| - 1]]
    else order + [n]
  }

  lemma {:induction false} InsertKeepsOrder(order: seq<nat>, eps: seq<Endpoint>, n: nat)
    requires Positions(order, eps) && Ordered(order, eps) && n < |eps|
    requires forall k | 0 <= k < |order| :: order[k] < n
    ensures var r := Insert(order, eps, n);
      && |r| == |order| + 1 && Positions(r, eps) && Ordered(r, eps)
      && (forall x :: x in r <==> x in order || x == n)
      && forall k | 0 <= k < |r| :: r[k] <= n
  {
    if order == [] || Rank(eps[order[|order| - 1]].kind) <= Rank(eps[n].kind) {
    } else {
      var front, last := order[..|order| - 1], order[|order| - 1];
      InsertKeepsOrder(front, eps, n);
      var r := Insert(front, eps, n);
      assert order == front + [last];
      forall k | 0 <= k < |r| ensures Before(eps, r[k], last) {
        assert r[k] in r;
        if r[k] != n { var l :| 0 <= l < |front| && front[l] == r[k]; }
      }
    }
  }

  /** The order in which `sort_by_key` on the rank leaves the first n endpoints:
      sorted by rank, equal ranks in their original order. */
  function StableOrder(eps: seq<Endpoint>, n: nat): (order: seq<nat>)
    requires n <= |eps|
    ensures |order| == n && Positions(order, eps) && Ordered(order, eps)
    ensures forall k | 0 <= k < n :: order[k] < n
    ensures forall i | 0 <= i < n :: i in order
  {
    if n == 0 then []
    else
      var front := StableOrder(eps, n - 1);
      InsertKeepsOrder(front, eps, n - 1);
      Insert(front, eps, n - 1)
  }

  /** The answers of the probes, by original position. */
  type Probes = seq<bool>

  /** Sorts by rank, probes all, and scans the answers for a strictly better
      rank. `chosen` is the original position of the endpoint taken: the
      reachable one least in rank, then in position; None when nothing answered. */
  method Resolve(eps: seq<Endpoint>, reachable: Probes) returns (chosen: Option<nat>)
    requires |reachable| == |eps|
    ensures chosen.None? <==> forall i | 0 <= i < |eps| :: !reachable[i]
    ensures chosen.Some? ==> chosen.value < |eps| && reachable[chosen.value]
    ensures chosen.Some? ==>
              forall i | 0 <= i < |eps| && reachable[i] && i != chosen.value :: Before(eps, chosen.value, i)
    ensures chosen.Some? ==> forall i | 0 <= i < |eps| && reachable[i] :: Preferred(eps, chosen.value, i)
  {
    var order := StableOrder(eps, |eps|);
    chosen := None;
    for k := 0 to |order|
      invariant chosen.None? <==> forall l | 0 <= l < k :: !reachable[order[l]]
      invariant chosen.Some? ==>
        exists b: nat :: b < k && chosen.value == order[b] && reachable[order[b]]
                         && forall l | 0 <= l < b :: !reachable[order[l]]
    {
      if reachable[order[k]] {
        if chosen.None? || Rank(eps[order[k]].kind) < Rank(eps[chosen.value].kind) {
          chosen := Some(order[k]);
        }
      }
    }
    forall i | 0 <= i < |eps| && reachable[i]
      ensures chosen.Some? && (i != chosen.value ==> Before(eps, chosen.value, i))
    {
      assert i in order;
      var l :| 0 <= l < |order| && order[l] == i;
    }
    if chosen.Some? {
      forall i | 0 <= i < |eps| && reachable[i] ensures Preferred(eps, chosen.value, i) {
        BeforeIsPreferred(eps, chosen.value, i);
      }
    }
  }
}
