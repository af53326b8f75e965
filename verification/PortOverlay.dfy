/**
 The lens between the forwards of a manifest's networks and the ports of a neutral Spec: the view is
 `specFromDocument` (manifest/manifest.go), the update is `overlaySpecPorts` (backend/qemu/spec.go).
 */
module PortOverlay {
  import opened Document
  import opened Sequences

  datatype Port = Port(host: string, guest: string, proto: string)

  const TCP := "tcp"
  const HOST := "host"

  /** Forwards toward the guest are the Spec's; the others belong to the document alone. */
  predicate FromHost(f: ForwardPort) {
    f.from == "" || f.from == HOST
  }

  // The view.

  function ViewForward(f: ForwardPort): Port {
    Port(f.host, f.guest, f.proto)
  }

  /** What the first `n` of a network's forwards show. */
  function ViewFirst(fs: seq<ForwardPort>, n: nat): seq<Port>
    requires n <= |fs|
  {
    if n == 0 then []
    else if FromHost(fs[n - 1]) then ViewFirst(fs, n - 1) + [ViewForward(fs[n - 1])]
    else ViewFirst(fs, n - 1)
  }

  function View(fs: seq<ForwardPort>): seq<Port> {
    ViewFirst(fs, |fs|)
  }

  /** What the first `n` networks show. */
  function ViewPorts(ns: seq<Network>, n: nat): seq<Port>
    requires n <= |ns|
  {
    if n == 0 then [] else ViewPorts(ns, n - 1) + View(ns[n - 1].forward)
  }

  /** What a network holds that the view does not show. */
  function GuestFirst(fs: seq<ForwardPort>, n: nat): seq<ForwardPort>
    requires n <= |fs|
  {
    if n == 0 then []
    else if FromHost(fs[n - 1]) then GuestFirst(fs, n - 1)
    else GuestFirst(fs, n - 1) + [fs[n - 1]]
  }

  function GuestForwards(fs: seq<ForwardPort>): seq<ForwardPort> {
    GuestFirst(fs, |fs|)
  }

  // The update.

  function SpecForward(p: Port): ForwardPort {
    ForwardPort(if p.proto == "" then TCP else p.proto, HOST, p.host, p.guest)
  }

  function NormalPort(p: Port): Port {
    p.(proto := if p.proto == "" then TCP else p.proto)
  }

  /** All ports, with the protocol they default to. */
  function Normalised(ports: seq<Port>): seq<Port> {
    seq(|ports|, i requires 0 <= i < |ports| => NormalPort(ports[i]))
  }

  /** The ports from `a` on and before `b`, as far as there are any, written as forwards. */
  function Written(ports: seq<Port>, a: nat, b: nat): seq<ForwardPort> {
    if a >= b then []
    else if b - 1 < |ports| then Written(ports, a, b - 1) + [SpecForward(ports[b - 1])]
    else Written(ports, a, b - 1)
  }

  /** The same, as they show when read back. */
  function Shown(ports: seq<Port>, a: nat, b: nat): seq<Port> {
    if a >= b then []
    else if b - 1 < |ports| then Shown(ports, a, b - 1) + [NormalPort(ports[b - 1])]
    else Shown(ports, a, b - 1)
  }

  function HostCount(fs: seq<ForwardPort>, n: nat): nat
    requires n <= |fs|
  {
    if n == 0 then 0 else HostCount(fs, n - 1) + if FromHost(fs[n - 1]) then 1 else 0
  }

  /** The first `n` forwards, those from the host replaced by the ports from `p` on, or dropped for want of one. */
  function Refilled(fs: seq<ForwardPort>, n: nat, ports: seq<Port>, p: nat): seq<ForwardPort>
    requires n <= |fs|
  {
    if n == 0 then []
    else
      var k := p + HostCount(fs, n - 1);
      if !FromHost(fs[n - 1]) then Refilled(fs, n - 1, ports, p) + [fs[n - 1]]
      else if k < |ports| then Refilled(fs, n - 1, ports, p) + [SpecForward(ports[k])]
      else Refilled(fs, n - 1, ports, p)
  }

  /** How many forwards from the host the first `n` networks have. */
  function Slots(ns: seq<Network>, n: nat): nat
    requires n <= |ns|
  {
    if n == 0 then 0 else Slots(ns, n - 1) + HostCount(ns[n - 1].forward, |ns[n - 1].forward|)
  }

  function RefilledNetwork(ns: seq<Network>, ports: seq<Port>, i: nat): Network
    requires i < |ns|
  {
    ns[i].(forward := Refilled(ns[i].forward, |ns[i].forward|, ports, Slots(ns, i)))
  }

  /** The ports that no host forward stands for go to the first network. */
  function Overlaid(ns: seq<Network>, ports: seq<Port>, i: nat): Network
    requires i < |ns|
  {
    var n := RefilledNetwork(ns, ports, i);
    if i == 0 then n.(forward := n.forward + Written(ports, Slots(ns, |ns|), |ports|)) else n
  }

  function OverlaidAll(ns: seq<Network>, ports: seq<Port>): seq<Network> {
    seq(|ns|, i requires 0 <= i < |ns| => Overlaid(ns, ports, i))
  }

  /** The inner loop of `overlaySpecPorts`. */
  method Refill(fs: seq<ForwardPort>, ports: seq<Port>, start: nat) returns (r: seq<ForwardPort>, next: nat)
    ensures r == Refilled(fs, |fs|, ports, start) && next == start + HostCount(fs, |fs|)
  {
    r, next := [], start;
    for i := 0 to |fs|
      invariant r == Refilled(fs, i, ports, start) && next == start + HostCount(fs, i)
    {
      if fs[i].from != "" && fs[i].from != HOST {
        r := r + [fs[i]];
      } else {
        if next < |ports| {
          r := r + [SpecForward(ports[next])];
        }
        next := next + 1;
      }
    }
  }

  /** Its trailing loop, on the forwards of the first network. */
  method AppendExtra(fs: seq<ForwardPort>, ports: seq<Port>, start: nat) returns (r: seq<ForwardPort>)
    requires start <= |ports|
    ensures r == fs + Written(ports, start, |ports|)
  {
    r := fs;
    for i := start to |ports|
      invariant r == fs + Written(ports, start, i)
    {
      Assoc(fs, Written(ports, start, i), [SpecForward(ports[i])]);
      r := r + [SpecForward(ports[i])];
    }
  }

  lemma WrittenEmpty(ns: seq<Network>, ports: seq<Port>)
    ensures ns != [] && Slots(ns, |ns|) >= |ports| ==> Overlaid(ns, ports, 0) == RefilledNetwork(ns, ports, 0)
  {
    if ns != [] && Slots(ns, |ns|) >= |ports| {
      var fs := RefilledNetwork(ns, ports, 0).forward;
      assert fs + [] == fs;
    }
  }

  /** `overlaySpecPorts`: it fails exactly when there are ports and no network at all. */
  method OverlaySpecPorts(networks: array<Network>, ports: seq<Port>) returns (ok: bool)
    modifies networks
    ensures ok <==> ports == [] || networks.Length > 0
    ensures forall i :: 0 <= i < networks.Length ==> networks[i] == Overlaid(old(networks[..]), ports, i)
  {
    ghost var ns := networks[..];
    var portIndex := 0;
    for i := 0 to networks.Length
      invariant portIndex == Slots(ns, i)
      invariant forall k :: i <= k < networks.Length ==> networks[k] == ns[k]
      invariant forall k :: 0 <= k < i ==> networks[k] == RefilledNetwork(ns, ports, k)
    {
      var forwards;
      forwards, portIndex := Refill(networks[i].forward, ports, portIndex);
      networks[i] := networks[i].(forward := forwards);
    }
    WrittenEmpty(ns, ports);
    ok := true;
    if portIndex < |ports| {
      if networks.Length == 0 {
        ok := false;
      } else {
        var forwards := AppendExtra(networks[0].forward, ports, portIndex);
        networks[0] := networks[0].(forward := forwards);
      }
    }
  }

  // Appending.

  lemma {:induction false} SamePrefix(a: seq<ForwardPort>, b: seq<ForwardPort>, n: nat)
    requires n <= |a| && n <= |b| && forall i :: 0 <= i < n ==> a[i] == b[i]
    ensures ViewFirst(a, n) == ViewFirst(b, n) && GuestFirst(a, n) == GuestFirst(b, n)
  {
    if n > 0 {
      SamePrefix(a, b, n - 1);
    }
  }

  lemma Append(fs: seq<ForwardPort>, f: ForwardPort)
    ensures View(fs + [f]) == if FromHost(f) then View(fs) + [ViewForward(f)] else View(fs)
    ensures GuestForwards(fs + [f]) == if FromHost(f) then GuestForwards(fs) else GuestForwards(fs) + [f]
  {
    SamePrefix(fs, fs + [f], |fs|);
  }

  lemma AppendOne(fs: seq<ForwardPort>, written: seq<ForwardPort>, shown: seq<Port>, p: Port)
    requires View(fs + written) == View(fs) + shown && GuestForwards(fs + written) == GuestForwards(fs)
    ensures View(fs + (written + [SpecForward(p)])) == View(fs) + (shown + [NormalPort(p)])
    ensures GuestForwards(fs + (written + [SpecForward(p)])) == GuestForwards(fs)
  {
    Assoc(fs, written, [SpecForward(p)]);
    Append(fs + written, SpecForward(p));
    Assoc(View(fs), shown, [NormalPort(p)]);
  }

  lemma {:induction false} AppendWritten(fs: seq<ForwardPort>, ports: seq<Port>, a: nat, b: nat)
    ensures View(fs + Written(ports, a, b)) == View(fs) + Shown(ports, a, b)
    ensures GuestForwards(fs + Written(ports, a, b)) == GuestForwards(fs)
    decreases b
  {
    if a >= b {
      assert fs + Written(ports, a, b) == fs;
    } else {
      AppendWritten(fs, ports, a, b - 1);
      if b - 1 < |ports| {
        AppendOne(fs, Written(ports, a, b - 1), Shown(ports, a, b - 1), ports[b - 1]);
      }
    }
  }

  // Slices of the ports.

  lemma {:induction false} ShownSplit(ports: seq<Port>, a: nat, b: nat, c: nat)
    requires a <= b <= c
    ensures Shown(ports, a, b) + Shown(ports, b, c) == Shown(ports, a, c)
    decreases c
  {
    if b < c {
      ShownSplit(ports, a, b, c - 1);
      if c - 1 < |ports| {
        Assoc(Shown(ports, a, b), Shown(ports, b, c - 1), [NormalPort(ports[c - 1])]);
      }
    }
  }

  lemma {:induction false} ShownPrefix(ports: seq<Port>, n: nat)
    requires n <= |ports|
    ensures Shown(ports, 0, n) == Normalised(ports)[..n]
  {
    if n > 0 {
      ShownPrefix(ports, n - 1);
    }
  }

  /** There are no ports beyond the last. */
  lemma {:induction false} ShownBeyond(ports: seq<Port>, a: nat, b: nat)
    requires |ports| <= b
    ensures Shown(ports, a, b) == Shown(ports, a, |ports|)
  {
    if |ports| < b {
      ShownBeyond(ports, a, b - 1);
    }
  }

  /** Cut at the host forwards of the first network and at those of all networks. */
  lemma ThreeParts(ports: seq<Port>, first: nat, total: nat)
    requires first <= total
    ensures Shown(ports, 0, first) + (Shown(ports, first, total) + Shown(ports, total, |ports|)) == Normalised(ports)
  {
    var end := if total <= |ports| then |ports| else total;
    ShownSplit(ports, first, total, end);
    ShownSplit(ports, 0, first, end);
    ShownBeyond(ports, 0, end);
    ShownBeyond(ports, total, end);
    ShownPrefix(ports, |ports|);
  }

  // The laws.

  ghost predicate Shows(fs: seq<ForwardPort>, ports: seq<Port>, a: nat, b: nat) {
    View(fs) == Shown(ports, a, b)
  }

  /** A refilled list shows its share of the ports. */
  lemma {:induction false} RefilledView(fs: seq<ForwardPort>, n: nat, ports: seq<Port>, p: nat)
    requires n <= |fs|
    ensures Shows(Refilled(fs, n, ports, p), ports, p, p + HostCount(fs, n))
  {
    if n > 0 {
      RefilledView(fs, n - 1, ports, p);
      ShowsNext(Refilled(fs, n - 1, ports, p), fs[n - 1], ports, p, p + HostCount(fs, n - 1));
    }
  }

  /** A forward from the guest shows nothing; one from the host shows its port, or is dropped with the port it lacks. */
  lemma ShowsNext(was: seq<ForwardPort>, f: ForwardPort, ports: seq<Port>, p: nat, k: nat)
    requires p <= k && Shows(was, ports, p, k)
    ensures !FromHost(f) ==> Shows(was + [f], ports, p, k)
    ensures k < |ports| ==> Shows(was + [SpecForward(ports[k])], ports, p, k + 1)
    ensures k >= |ports| ==> Shows(was, ports, p, k + 1)
  {
    Append(was, f);
    if k < |ports| {
      Append(was, SpecForward(ports[k]));
    }
  }

  ghost predicate KeepsGuests(r: seq<ForwardPort>, fs: seq<ForwardPort>, n: nat)
    requires n <= |fs|
  {
    GuestForwards(r) == GuestFirst(fs, n)
  }

  /** It keeps what the view does not show. */
  lemma {:induction false} RefilledGuests(fs: seq<ForwardPort>, n: nat, ports: seq<Port>, p: nat)
    requires n <= |fs|
    ensures KeepsGuests(Refilled(fs, n, ports, p), fs, n)
  {
    if n > 0 {
      RefilledGuests(fs, n - 1, ports, p);
      var k, was := p + HostCount(fs, n - 1), Refilled(fs, n - 1, ports, p);
      GuestsNext(was, fs, n - 1, if FromHost(fs[n - 1]) && k < |ports| then SpecForward(ports[k]) else fs[n - 1]);
    }
  }

  lemma GuestsNext(was: seq<ForwardPort>, fs: seq<ForwardPort>, i: nat, f: ForwardPort)
    requires i < |fs| && KeepsGuests(was, fs, i) && (f == fs[i] || (FromHost(f) && FromHost(fs[i])))
    ensures KeepsGuests(was + [f], fs, i + 1)
    ensures FromHost(fs[i]) ==> KeepsGuests(was, fs, i + 1)
  {
    Append(was, f);
  }

  /** Every network keeps what the Spec does not speak of, its own forwards from the guest in order included. */
  lemma GuestForwardsKept(ns: seq<Network>, ports: seq<Port>, i: nat)
    requires i < |ns|
    ensures var n := OverlaidAll(ns, ports)[i];
            GuestForwards(n.forward) == GuestForwards(ns[i].forward) && n == ns[i].(forward := n.forward)
  {
    RefilledGuests(ns[i].forward, |ns[i].forward|, ports, Slots(ns, i));
    AppendWritten(RefilledNetwork(ns, ports, i).forward, ports, Slots(ns, |ns|), |ports|);
  }

  lemma {:induction false} SlotsGrow(ns: seq<Network>, a: nat, b: nat)
    requires a <= b <= |ns|
    ensures Slots(ns, a) <= Slots(ns, b)
  {
    if a < b {
      SlotsGrow(ns, a, b - 1);
    }
  }

  lemma FirstNetworkView(ns: seq<Network>, ports: seq<Port>)
    requires ns != []
    ensures ViewPorts(OverlaidAll(ns, ports), 1) ==
              Shown(ports, 0, Slots(ns, 1)) + Shown(ports, Slots(ns, |ns|), |ports|)
  {
    RefilledView(ns[0].forward, |ns[0].forward|, ports, 0);
    AppendWritten(RefilledNetwork(ns, ports, 0).forward, ports, Slots(ns, |ns|), |ports|);
    var r := OverlaidAll(ns, ports);
    assert ViewPorts(r, 1) == ViewPorts(r, 0) + View(r[0].forward);
  }

  lemma LaterNetworkView(ns: seq<Network>, ports: seq<Port>, n: nat)
    requires 0 < n < |ns|
    ensures View(OverlaidAll(ns, ports)[n].forward) == Shown(ports, Slots(ns, n), Slots(ns, n + 1))
  {
    RefilledView(ns[n].forward, |ns[n].forward|, ports, Slots(ns, n));
  }

  lemma ViewPortsNext(r: seq<Network>, n: nat, a: seq<Port>, b: seq<Port>, c: seq<Port>)
    requires n < |r| && ViewPorts(r, n) == a + b && View(r[n].forward) == c
    ensures ViewPorts(r, n + 1) == a + (b + c)
  {
    Assoc(a, b, c);
  }

  /** What the first `n` networks show: the first network's ports, the extra ones, then the other networks'. */
  ghost predicate Arranged(ns: seq<Network>, ports: seq<Port>, n: nat)
    requires 0 < n <= |ns|
  {
    ViewPorts(OverlaidAll(ns, ports), n) ==
      Shown(ports, 0, Slots(ns, 1)) + Shown(ports, Slots(ns, |ns|), |ports|) + Shown(ports, Slots(ns, 1), Slots(ns, n))
  }

  lemma ArrangedFirst(ns: seq<Network>, ports: seq<Port>)
    requires ns != []
    ensures Arranged(ns, ports, 1)
  {
    FirstNetworkView(ns, ports);
    assert Shown(ports, Slots(ns, 1), Slots(ns, 1)) == [];
  }

  lemma ArrangedNext(ns: seq<Network>, ports: seq<Port>, n: nat)
    requires 0 < n < |ns| && Arranged(ns, ports, n)
    ensures Arranged(ns, ports, n + 1)
  {
    var first, here, next := Slots(ns, 1), Slots(ns, n), Slots(ns, n + 1);
    LaterNetworkView(ns, ports, n);
    ViewPortsNext(OverlaidAll(ns, ports), n, Shown(ports, 0, first) + Shown(ports, Slots(ns, |ns|), |ports|),
                  Shown(ports, first, here), Shown(ports, here, next));
    SlotsGrow(ns, 1, n);
    ShownSplit(ports, first, here, next);
  }

  lemma {:induction false} OverlaidView(ns: seq<Network>, ports: seq<Port>, n: nat)
    requires 0 < n <= |ns|
    ensures Arranged(ns, ports, n)
  {
    if n == 1 {
      ArrangedFirst(ns, ports);
    } else {
      OverlaidView(ns, ports, n - 1);
      ArrangedNext(ns, ports, n - 1);
    }
  }

  lemma {:induction false} RefilledPlaces(fs: seq<ForwardPort>, n: nat, ports: seq<Port>, p: nat)
    requires n <= |fs| && p + HostCount(fs, n) <= |ports|
    ensures var r := Refilled(fs, n, ports, p);
            |r| == n && forall j :: 0 <= j < n ==> if FromHost(fs[j]) then r[j].from == "host" else r[j] == fs[j]
  {
    if n > 0 {
      RefilledPlaces(fs, n - 1, ports, p);
    }
  }

  /** With a port for every host forward, all forwards stay in their places; what is new comes behind them. */
  lemma PlacesKept(ns: seq<Network>, ports: seq<Port>, i: nat)
    requires i < |ns| && Slots(ns, |ns|) <= |ports|
    ensures var fs, r := ns[i].forward, OverlaidAll(ns, ports)[i].forward;
            && |r| >= |fs|
            && forall j :: 0 <= j < |fs| ==>
                 if fs[j].from == "" || fs[j].from == "host" then r[j].from == "host" else r[j] == fs[j]
  {
    SlotsGrow(ns, i + 1, |ns|);
    RefilledPlaces(ns[i].forward, |ns[i].forward|, ports, Slots(ns, i));
  }

  /** Forward `f` is port `p`, a forward from the host, by TCP unless it says otherwise. */
  ghost predicate Carries(f: ForwardPort, p: Port) {
    f.from == "host" && f.host == p.host && f.guest == p.guest && f.proto == if p.proto == "" then "tcp" else p.proto
  }

  /** The document's own forwards, and the ports. */
  ghost predicate Accounted(f: ForwardPort, fs: seq<ForwardPort>, ports: seq<Port>) {
    || (f in fs && f.from != "" && f.from != "host")
    || exists p :: p in ports && Carries(f, p)
  }

  lemma {:induction false} WrittenAccounted(ports: seq<Port>, a: nat, b: nat)
    ensures forall f :: f in Written(ports, a, b) ==> exists p :: p in ports && Carries(f, p)
    decreases b
  {
    if a < b {
      WrittenAccounted(ports, a, b - 1);
      if b - 1 < |ports| {
        assert Carries(SpecForward(ports[b - 1]), ports[b - 1]);
      }
    }
  }

  lemma {:induction false} RefilledAccounted(fs: seq<ForwardPort>, n: nat, ports: seq<Port>, p: nat)
    requires n <= |fs|
    ensures forall f :: f in Refilled(fs, n, ports, p) ==> Accounted(f, fs, ports)
  {
    if n > 0 {
      RefilledAccounted(fs, n - 1, ports, p);
      var k := p + HostCount(fs, n - 1);
      if k < |ports| {
        assert Carries(SpecForward(ports[k]), ports[k]);
      }
    }
  }

  /** Every forward of an updated network is one of its own toward the host, or carries a port. */
  lemma ForwardsAccounted(ns: seq<Network>, ports: seq<Port>, i: nat)
    requires i < |ns|
    ensures forall f :: f in OverlaidAll(ns, ports)[i].forward ==> Accounted(f, ns[i].forward, ports)
  {
    RefilledAccounted(ns[i].forward, |ns[i].forward|, ports, Slots(ns, i));
    WrittenAccounted(ports, Slots(ns, |ns|), |ports|);
  }

  /**
   Reading back after writing, exactly: the ports in order, except that those beyond the last host
   forward come right after those of the first network. No port is lost, made up or doubled.
   */
  lemma PutGet(ns: seq<Network>, ports: seq<Port>)
    requires ns != []
    ensures ViewPorts(OverlaidAll(ns, ports), |ns|) ==
              Shown(ports, 0, Slots(ns, 1)) + Shown(ports, Slots(ns, |ns|), |ports|)
              + Shown(ports, Slots(ns, 1), Slots(ns, |ns|))
    ensures multiset(ViewPorts(OverlaidAll(ns, ports), |ns|)) == multiset(Normalised(ports))
    ensures forall k :: 0 <= k < |ports| ==>
              Normalised(ports)[k] ==
                Port(ports[k].host, ports[k].guest, if ports[k].proto == "" then "tcp" else ports[k].proto)
  {
    OverlaidView(ns, ports, |ns|);
    SlotsGrow(ns, 1, |ns|);
    ThreeParts(ports, Slots(ns, 1), Slots(ns, |ns|));
  }

  /** The order is kept exactly when the extra ports may change places with those of the later networks. */
  lemma OrderKeptIff(ns: seq<Network>, ports: seq<Port>)
    requires ns != []
    ensures var extra, later := Shown(ports, Slots(ns, |ns|), |ports|), Shown(ports, Slots(ns, 1), Slots(ns, |ns|));
            ViewPorts(OverlaidAll(ns, ports), |ns|) == Normalised(ports) <==> extra + later == later + extra
    ensures |ns| == 1 || |ports| <= Slots(ns, |ns|) ==> ViewPorts(OverlaidAll(ns, ports), |ns|) == Normalised(ports)
  {
    PutGet(ns, ports);
    SlotsGrow(ns, 1, |ns|);
    var first, total := Slots(ns, 1), Slots(ns, |ns|);
    var head, extra, later := Shown(ports, 0, first), Shown(ports, total, |ports|), Shown(ports, first, total);
    ThreeParts(ports, first, total);
    Assoc(head, extra, later);
    CancelLeft(head, extra + later, later + extra);
    if |ports| <= total {
      EmptyCommutes(later);
    } else if |ns| == 1 {
      EmptyCommutes(extra);
    }
  }

  lemma ShownOne(ports: seq<Port>, a: nat)
    requires a < |ports|
    ensures Shown(ports, a, a + 1) == [NormalPort(ports[a])]
  {
    assert Shown(ports, a, a) == [];
  }

  /** Two networks with a host forward each and three ports: the third comes to stand before the second. */
  lemma OrderLost(ns: seq<Network>, ports: seq<Port>)
    requires |ns| == 2 && Slots(ns, 1) == 1 && Slots(ns, 2) == 2 && |ports| == 3
    requires NormalPort(ports[1]) != NormalPort(ports[2])
    ensures ViewPorts(OverlaidAll(ns, ports), 2) != Normalised(ports)
  {
    OrderKeptIff(ns, ports);
    ShownOne(ports, 1);
    ShownOne(ports, 2);
    assert ([NormalPort(ports[2])] + [NormalPort(ports[1])])[0] != ([NormalPort(ports[1])] + [NormalPort(ports[2])])[0];
  }

  // Reading and writing back.

  function NormalForward(f: ForwardPort): ForwardPort {
    if FromHost(f) then SpecForward(ViewForward(f)) else f
  }

  /** `g` is `f` with the protocol and the direction spelled out. */
  ghost predicate Filled(f: ForwardPort, g: ForwardPort) {
    if f.from == "" || f.from == "host"
    then && g.from == "host" && g.host == f.host && g.guest == f.guest
         && g.proto == if f.proto == "" then "tcp" else f.proto
    else g == f
  }

  lemma {:induction false} ViewAt(fs: seq<ForwardPort>, n: nat, j: nat)
    requires j < n <= |fs| && FromHost(fs[j])
    ensures HostCount(fs, j) < HostCount(fs, n) == |ViewFirst(fs, n)|
    ensures ViewFirst(fs, n)[HostCount(fs, j)] == ViewForward(fs[j])
  {
    ViewCount(fs, n - 1);
    if j < n - 1 {
      ViewAt(fs, n - 1, j);
    }
  }

  lemma {:induction false} ViewCount(fs: seq<ForwardPort>, n: nat)
    requires n <= |fs|
    ensures |ViewFirst(fs, n)| == HostCount(fs, n)
  {
    if n > 0 {
      ViewCount(fs, n - 1);
    }
  }

  lemma {:induction false} ViewPortsCount(ns: seq<Network>, n: nat)
    requires n <= |ns|
    ensures |ViewPorts(ns, n)| == Slots(ns, n)
  {
    if n > 0 {
      ViewPortsCount(ns, n - 1);
      ViewCount(ns[n - 1].forward, |ns[n - 1].forward|);
    }
  }

  /** The `m`-th port of network `i` among all ports. */
  lemma {:induction false} ViewPortsAt(ns: seq<Network>, n: nat, i: nat, m: nat)
    requires i < n <= |ns| && m < |View(ns[i].forward)|
    ensures Slots(ns, i) + m < |ViewPorts(ns, n)| && ViewPorts(ns, n)[Slots(ns, i) + m] == View(ns[i].forward)[m]
  {
    ViewPortsCount(ns, n - 1);
    if i < n - 1 {
      ViewPortsAt(ns, n - 1, i, m);
    }
  }

  /** The ports from `p` on are those that `fs` shows. */
  ghost predicate Matches(fs: seq<ForwardPort>, ports: seq<Port>, p: nat) {
    forall j :: 0 <= j < |fs| && FromHost(fs[j]) ==>
                  p + HostCount(fs, j) < |ports| && ports[p + HostCount(fs, j)] == ViewForward(fs[j])
  }

  lemma {:induction false} RefilledMatching(fs: seq<ForwardPort>, n: nat, ports: seq<Port>, p: nat)
    requires n <= |fs| && Matches(fs, ports, p)
    ensures |Refilled(fs, n, ports, p)| == n
    ensures forall j :: 0 <= j < n ==> Refilled(fs, n, ports, p)[j] == NormalForward(fs[j])
  {
    if n > 0 {
      RefilledMatching(fs, n - 1, ports, p);
    }
  }

  /** Writing a document's own view back fills in `tcp` and `host` and changes nothing else. */
  lemma GetPut(ns: seq<Network>, i: nat)
    requires i < |ns|
    ensures var r, fs := OverlaidAll(ns, ViewPorts(ns, |ns|))[i], ns[i].forward;
            && r == ns[i].(forward := r.forward)
            && |r.forward| == |fs| && forall j :: 0 <= j < |fs| ==> r.forward[j] == NormalForward(fs[j])
    ensures forall j :: 0 <= j < |ns[i].forward| ==> Filled(ns[i].forward[j], NormalForward(ns[i].forward[j]))
  {
    var ports, fs := ViewPorts(ns, |ns|), ns[i].forward;
    forall j | 0 <= j < |fs| && FromHost(fs[j])
      ensures Slots(ns, i) + HostCount(fs, j) < |ports| && ports[Slots(ns, i) + HostCount(fs, j)] == ViewForward(fs[j])
    {
      ViewAt(fs, |fs|, j);
      ViewPortsAt(ns, |ns|, i, HostCount(fs, j));
    }
    RefilledMatching(fs, |fs|, ports, Slots(ns, i));
    ViewPortsCount(ns, |ns|);
    WrittenEmpty(ns, ports);
  }

  /** Exactly which forwards come back unchanged. */
  lemma NormalIff(f: ForwardPort)
    ensures NormalForward(f) == f <==> f.from != "" && (f.from == "host" ==> f.proto != "")
  {
  }
}
