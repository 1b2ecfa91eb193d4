/** The two roothubs: which raw port belongs to which, under which number. */
module Ports {

  /** Marks a port that two capabilities claim for different protocols. */
  const DUPLICATE: nat := 255

  datatype Hub = Usb2 | Usb3

  predicate Belongs(hub: Hub, speed: nat) {
    if hub.Usb3? then speed == 3 else speed != 0 && speed != 3 && speed != DUPLICATE
  }

  function Count(hub: Hub, ports: seq<nat>): nat {
    if ports == [] then 0
    else Count(hub, ports[..|ports| - 1]) + if Belongs(hub, ports[|ports| - 1]) then 1 else 0
  }

  /** The raw indices of a hub's ports, in order. */
  function Members(hub: Hub, ports: seq<nat>): (r: seq<nat>)
    ensures |r| == Count(hub, ports)
  {
    if ports == [] then []
    else
      var n := |ports| - 1;
      Members(hub, ports[..n]) + if Belongs(hub, ports[n]) then [n] else []
  }

  datatype Scan = Scan(ports: seq<nat>, num2: int, num3: int)

  ghost predicate Matches(s: Scan) {
    s.num2 == Count(Usb2, s.ports) && s.num3 == Count(Usb3, s.ports)
  }

  lemma {:induction false} CountUpdate(hub: Hub, ports: seq<nat>, i: nat, x: nat)
    requires i < |ports|
    ensures Count(hub, ports[i := x]) ==
            Count(hub, ports) - (if Belongs(hub, ports[i]) then 1 else 0)
                              + (if Belongs(hub, x) then 1 else 0)
  {
    var n := |ports| - 1;
    if i == n {
      assert ports[i := x][..n] == ports[..n];
    } else {
      CountUpdate(hub, ports[..n], i, x);
      assert ports[i := x][..n] == ports[..n][i := x];
    }
  }

  // --------------------------------------------------------------- scanning capabilities

  /** One port of a Supported Protocol Capability. */
  function Mark(s: Scan, i: nat, rev: nat): Scan
    requires i < |s.ports|
  {
    var was := s.ports[i];
    if was != 0 then
      if was != rev && was != DUPLICATE then
        Scan(s.ports[i := DUPLICATE],
             if was == 3 then s.num2 else s.num2 - 1, if was == 3 then s.num3 - 1 else s.num3)
      else s
    else
      Scan(s.ports[i := rev],
           if rev == 3 then s.num2 else s.num2 + 1, if rev == 3 then s.num3 + 1 else s.num3)
  }

  function MarkRange(s: Scan, i: nat, j: nat, rev: nat): (q: Scan)
    requires i <= j <= |s.ports|
    ensures |q.ports| == |s.ports|
    decreases j - i
  {
    if i == j then s else MarkRange(Mark(s, i, rev), i + 1, j, rev)
  }

  lemma MarkCounts(s: Scan, i: nat, rev: nat)
    requires i < |s.ports| && rev <= 3
    ensures var q := Mark(s, i, rev);
            var lost := if rev == 0 && s.ports[i] == 0 then 1 else 0;
            && q.num3 - Count(Usb3, q.ports) == s.num3 - Count(Usb3, s.ports)
            && q.num2 - Count(Usb2, q.ports) == s.num2 - Count(Usb2, s.ports) + lost
  {
    var q := Mark(s, i, rev);
    CountUpdate(Usb2, s.ports, i, q.ports[i]);
    CountUpdate(Usb3, s.ports, i, q.ports[i]);
    assert q.ports == s.ports[i := q.ports[i]];
  }

  /** Ports of a range nobody has claimed yet. */
  function Unclaimed(ports: seq<nat>, i: nat, j: nat): nat
    requires i <= j <= |ports|
    decreases j - i
  {
    if i == j then 0 else (if ports[i] == 0 then 1 else 0) + Unclaimed(ports, i + 1, j)
  }

  lemma {:induction false} UnclaimedElsewhere(ports: seq<nat>, x: nat, k: nat, i: nat, j: nat)
    requires k < i <= j <= |ports|
    ensures Unclaimed(ports[k := x], i, j) == Unclaimed(ports, i, j)
    decreases j - i
  {
    if i < j {
      UnclaimedElsewhere(ports, x, k, i + 1, j);
    }
  }

  lemma {:induction false} MarkRangeCounts(s: Scan, i: nat, j: nat, rev: nat)
    requires i <= j <= |s.ports| && rev <= 3
    ensures var q := MarkRange(s, i, j, rev);
            var lost := if rev == 0 then Unclaimed(s.ports, i, j) else 0;
            && q.num3 - Count(Usb3, q.ports) == s.num3 - Count(Usb3, s.ports)
            && q.num2 - Count(Usb2, q.ports) == s.num2 - Count(Usb2, s.ports) + lost
    decreases j - i
  {
    if i < j {
      MarkCounts(s, i, rev);
      MarkRangeCounts(Mark(s, i, rev), i + 1, j, rev);
      if rev == 0 {
        assert Mark(s, i, rev).ports == s.ports[i := Mark(s, i, rev).ports[i]];
        UnclaimedElsewhere(s.ports, Mark(s, i, rev).ports[i], i, i + 1, j);
      }
    }
  }

  /** A capability with port offset and count as read from its third dword. */
  datatype Capability = Capability(rev: nat, offset: nat, count: nat)

  /** Capabilities xhci_add_in_port passes over: an unknown revision, or ports that do not
      exist. */
  predicate Ignored(cap: Capability, ports: nat) {
    cap.rev > 3 || cap.offset == 0 || cap.offset + cap.count - 1 > ports
  }

  function AddIn(s: Scan, cap: Capability): (q: Scan)
    ensures |q.ports| == |s.ports|
  {
    if Ignored(cap, |s.ports|) then s
    else MarkRange(s, cap.offset - 1, cap.offset - 1 + cap.count, cap.rev)
  }

  /** The counters match the port array after a capability exactly when it is ignored, has a
      major revision of at least 1, or claims no port that was still unclaimed. */
  lemma AddInMatchesIff(s: Scan, cap: Capability)
    requires Matches(s)
    ensures Matches(AddIn(s, cap)) <==>
            || Ignored(cap, |s.ports|)
            || cap.rev != 0
            || Unclaimed(s.ports, cap.offset - 1, cap.offset - 1 + cap.count) == 0
  {
    if !Ignored(cap, |s.ports|) {
      MarkRangeCounts(s, cap.offset - 1, cap.offset - 1 + cap.count, cap.rev);
    }
  }

  // --------------------------------------------------------- what becomes of each port

  /** The capability is one the driver understands, and names port i. */
  predicate Claims(cap: Capability, ports: nat, i: nat) {
    cap.rev <= 3 && 0 < cap.offset <= i + 1 < cap.offset + cap.count <= ports + 1
  }

  /** A port nobody has claimed takes the revision; a port claimed for another protocol becomes
      a duplicate; otherwise it stays. */
  function Claimed(was: nat, rev: nat): nat {
    if was == 0 then rev else if was == rev then was else 255
  }

  lemma {:induction false} MarkRangeAt(s: Scan, i: nat, j: nat, rev: nat, k: nat)
    requires i <= j <= |s.ports| && k < |s.ports|
    ensures MarkRange(s, i, j, rev).ports[k] ==
            if i <= k < j then Claimed(s.ports[k], rev) else s.ports[k]
    decreases j - i
  {
    if i < j {
      MarkRangeAt(Mark(s, i, rev), i + 1, j, rev, k);
    }
  }

  /** What one capability makes of every port. */
  lemma AddInAt(s: Scan, cap: Capability, k: nat)
    requires k < |s.ports|
    ensures AddIn(s, cap).ports[k] ==
            if Claims(cap, |s.ports|, k) then Claimed(s.ports[k], cap.rev) else s.ports[k]
  {
    if !Ignored(cap, |s.ports|) {
      MarkRangeAt(s, cap.offset - 1, cap.offset - 1 + cap.count, cap.rev, k);
    }
  }

  /** What a row of capabilities makes of port i. */
  function PortAfter(was: nat, caps: seq<Capability>, ports: nat, i: nat): nat
    decreases |caps|
  {
    if caps == [] then was
    else
      var before := PortAfter(was, caps[..|caps| - 1], ports, i);
      if Claims(caps[|caps| - 1], ports, i) then Claimed(before, caps[|caps| - 1].rev) else before
  }

  /** Starting from nothing, a port ends unclaimed if no capability names it, with a revision
      if all that name it agree on that one, and as a duplicate otherwise. */
  lemma {:induction false} PortIs(caps: seq<Capability>, ports: nat, i: nat)
    requires forall c :: c in caps ==> 1 <= c.rev
    ensures var r := PortAfter(0, caps, ports, i);
            && (r == 0 <==> forall c :: c in caps ==> !Claims(c, ports, i))
            && (r != 0 && r != 255 <==>
                  && (exists c :: c in caps && Claims(c, ports, i))
                  && (forall c :: c in caps && Claims(c, ports, i) ==> c.rev == r))
            && (r <= 3 || r == 255)
    decreases |caps|
  {
    if caps != [] {
      var front, last := caps[..|caps| - 1], caps[|caps| - 1];
      assert caps == front + [last];
      PortIs(front, ports, i);
      assert last in caps && forall c :: c in caps <==> c in front || c == last;
    }
  }

  // ------------------------------------------------------------------------ round trips

  /** find_faked_portnum_from_hw_portnum: similar ports in front of a raw port. */
  method FakedPort(hub: Hub, ports: seq<nat>, portId: nat) returns (fake: nat)
    requires 1 <= portId <= |ports|
    ensures fake == Count(hub, ports[..portId - 1])
  {
    fake := 0;
    var i := 0;
    while i < portId - 1
      invariant 0 <= i <= portId - 1 && fake == Count(hub, ports[..i])
    {
      var speed := ports[i];
      assert ports[..i + 1][..i] == ports[..i];
      if speed != 0 && speed != DUPLICATE {
        if (speed == 3) == hub.Usb3? {
          fake := fake + 1;
        }
      }
      i := i + 1;
    }
  }

  /** The loops at the end of xhci_setup_port_arrays: at most `limit` ports are listed. */
  method ListPorts(hub: Hub, ports: seq<nat>, limit: nat) returns (list: seq<nat>)
    requires 0 < limit
    ensures list == if Count(hub, ports) <= limit then Members(hub, ports)
                    else Members(hub, ports)[..limit]
  {
    list := [];
    var i := 0;
    while i < |ports|
      invariant 0 <= i <= |ports| && |list| < limit
      invariant list == Members(hub, ports[..i])
    {
      assert ports[..i + 1][..i] == ports[..i];
      if Belongs(hub, ports[i]) {
        list := list + [i];
        if |list| == limit {
          MembersPrefix(hub, ports, i + 1);
          return;
        }
      }
      i := i + 1;
    }
    assert ports[..i] == ports;
  }

  lemma {:induction false} MembersPrefix(hub: Hub, ports: seq<nat>, k: nat)
    requires k <= |ports|
    ensures Members(hub, ports[..k]) <= Members(hub, ports)
    decreases |ports|
  {
    if k == |ports| {
      assert ports[..k] == ports;
    } else {
      var n := |ports| - 1;
      MembersPrefix(hub, ports[..n], k);
      assert ports[..n][..k] == ports[..k];
    }
  }

  /** ehub_xhci_find_raw_port_number, on a hub's list. */
  function RawPort(list: seq<nat>, port1: nat): nat
    requires 1 <= port1 <= |list|
  {
    list[port1 - 1] + 1
  }

  /** Entry number k of a hub's list is a port of the hub, with k similar ports in front. */
  lemma {:induction false} MemberAt(hub: Hub, ports: seq<nat>, k: nat)
    requires k < Count(hub, ports)
    ensures var i := Members(hub, ports)[k];
            i < |ports| && Belongs(hub, ports[i]) && Count(hub, ports[..i]) == k
    decreases |ports|
  {
    var n := |ports| - 1;
    if k < Count(hub, ports[..n]) {
      MemberAt(hub, ports[..n], k);
      var i := Members(hub, ports)[k];
      assert ports[..n][..i] == ports[..i];
    }
  }

  /** And every port of the hub is listed under that number. */
  lemma {:induction false} AtMember(hub: Hub, ports: seq<nat>, i: nat)
    requires i < |ports| && Belongs(hub, ports[i])
    ensures Count(hub, ports[..i]) < Count(hub, ports)
    ensures Members(hub, ports)[Count(hub, ports[..i])] == i
    decreases |ports|
  {
    var n := |ports| - 1;
    if i < n {
      AtMember(hub, ports[..n], i);
      assert ports[..n][..i] == ports[..i];
    }
  }

  // -------------------------------------------------------------------------- the object

  /** The port fields of the host object. */
  class Roothubs {
    var portArray: seq<nat>
    var num2: int
    var num3: int
    var usb2Ports: seq<nat>
    var usb3Ports: seq<nat>

    constructor (numPorts: nat)
      ensures Matches(Now()) && portArray == seq(numPorts, _ => 0) && num2 == 0 && num3 == 0
    {
      portArray := seq(numPorts, _ => 0);
      num2, num3, usb2Ports, usb3Ports := 0, 0, [], [];
      new;
      NoPorts(numPorts);
    }

    ghost function Now(): Scan
      reads this
    {
      Scan(portArray, num2, num3)
    }

    /** xhci_add_in_port. */
    method AddInPort(cap: Capability)
      modifies this`portArray, this`num2, this`num3
      ensures Now() == AddIn(old(Now()), cap)
      ensures forall k :: 0 <= k < |portArray| ==>
                portArray[k] == if Claims(cap, |portArray|, k) then Claimed(old(portArray)[k], cap.rev)
                                else old(portArray)[k]
    {
      forall k | 0 <= k < |portArray|
        ensures AddIn(Now(), cap).ports[k] ==
                if Claims(cap, |portArray|, k) then Claimed(portArray[k], cap.rev) else portArray[k]
      {
        AddInAt(Now(), cap, k);
      }
      if cap.rev > 3 {
        return;
      }
      if cap.offset == 0 || cap.offset + cap.count - 1 > |portArray| {
        return;
      }
      var i, end := cap.offset - 1, cap.offset - 1 + cap.count;
      while i < end
        invariant cap.offset - 1 <= i <= end <= |portArray|
        invariant MarkRange(Now(), i, end, cap.rev) == AddIn(old(Now()), cap)
      {
        if portArray[i] != 0 {
          if portArray[i] != cap.rev && portArray[i] != DUPLICATE {
            if portArray[i] == 3 {
              num3 := num3 - 1;
            } else {
              num2 := num2 - 1;
            }
            portArray := portArray[i := DUPLICATE];
          }
        } else {
          portArray := portArray[i := cap.rev];
          if cap.rev == 3 {
            num3 := num3 + 1;
          } else {
            num2 := num2 + 1;
          }
        }
        i := i + 1;
      }
    }

    /** The loop over the capabilities, in the order they are linked.  It stops early once
        every port is counted. */
    method ScanCapabilities(caps: seq<Capability>) returns (ghost seen: nat)
      requires Matches(Now()) && forall i :: 0 <= i < |caps| ==> 1 <= caps[i].rev
      modifies this`portArray, this`num2, this`num3
      ensures Matches(Now())
      ensures seen <= |caps| && Scanned(old(portArray), caps[..seen], portArray)
      ensures seen < |caps| ==> num2 + num3 == |portArray|
    {
      var i := 0;
      while i < |caps|
        invariant 0 <= i <= |caps| && Matches(Now())
        invariant Scanned(old(portArray), caps[..i], portArray)
      {
        AddInMatchesIff(Now(), caps[i]);
        ghost var ports := portArray;
        AddInPort(caps[i]);
        ScannedMore(old(portArray), caps, i, ports, portArray);
        i := i + 1;
        seen := i;
        if num2 + num3 == |portArray| {
          return;
        }
      }
      seen := i;
    }

    /** xhci_setup_port_arrays.  Every port is what the capabilities make of it, the last ones
        left out only if every port was counted before.  At most 15 USB 3 and 31 USB 2 ports
        are kept; port numbers translate to raw ports and back. */
    method SetupPortArrays(caps: seq<Capability>) returns (ok: bool, ghost seen: nat)
      requires Matches(Now()) && forall i :: 0 <= i < |caps| ==> 1 <= caps[i].rev
      modifies this
      ensures ok <==> 0 < Count(Usb2, portArray) + Count(Usb3, portArray)
      ensures ok ==> num2 == |usb2Ports| && Numbered(Usb2, portArray, usb2Ports, 31)
      ensures ok ==> num3 == |usb3Ports| && Numbered(Usb3, portArray, usb3Ports, 15)
      ensures seen <= |caps| && Scanned(old(portArray), caps[..seen], portArray)
      ensures seen < |caps| ==> Count(Usb2, portArray) + Count(Usb3, portArray) == |portArray|
    {
      seen := ScanCapabilities(caps);
      if num2 == 0 && num3 == 0 {
        return false, seen;
      }
      usb3Ports := ListHub(Usb3, portArray, num3, 15);
      usb2Ports := ListHub(Usb2, portArray, num2, 31);
      num3 := if num3 > 15 then 15 else num3;
      num2 := if num2 > 31 then 31 else num2;
      ok := true;
    }
  }

  /** The port array after some capabilities. */
  ghost predicate Scanned(ports: seq<nat>, caps: seq<Capability>, ports': seq<nat>) {
    && |ports'| == |ports|
    && forall k :: 0 <= k < |ports| ==> ports'[k] == PortAfter(ports[k], caps, |ports|, k)
  }

  lemma ScannedMore(ports: seq<nat>, caps: seq<Capability>, i: nat, before: seq<nat>, after: seq<nat>)
    requires i < |caps| && Scanned(ports, caps[..i], before) && |after| == |before|
    requires forall k :: 0 <= k < |before| ==>
               after[k] == if Claims(caps[i], |before|, k) then Claimed(before[k], caps[i].rev)
                           else before[k]
    ensures Scanned(ports, caps[..i + 1], after)
  {
    assert caps[..i + 1][..i] == caps[..i];
  }

  /** One roothub's list, cut to its limit. */
  method ListHub(hub: Hub, ports: seq<nat>, counted: nat, limit: nat) returns (list: seq<nat>)
    requires counted == Count(hub, ports) && 0 < limit
    ensures |list| == if counted > limit then limit else counted
    ensures Numbered(hub, ports, list, limit)
  {
    var num := if counted > limit then limit else counted;
    list := [];
    if num != 0 {
      list := ListPorts(hub, ports, num);
    }
    ListNumbered(hub, ports, list, limit);
  }

  /** Translating a hub's port number to a raw port and back returns it; a raw port of the hub
      goes to its number and back, unless it lies beyond the limit. */
  ghost predicate Numbered(hub: Hub, ports: seq<nat>, list: seq<nat>, limit: nat) {
    && |list| == (if Count(hub, ports) <= limit then Count(hub, ports) else limit)
    && (forall port1 :: 1 <= port1 <= |list| ==> ThereAndBack(hub, ports, list, port1))
    && (forall i :: 0 <= i < |ports| && Belongs(hub, ports[i]) ==> BackAndThere(hub, ports, list, i))
  }

  ghost predicate ThereAndBack(hub: Hub, ports: seq<nat>, list: seq<nat>, port1: nat)
    requires 1 <= port1 <= |list|
  {
    && 1 <= RawPort(list, port1) <= |ports|
    && Belongs(hub, ports[RawPort(list, port1) - 1])
    && Count(hub, ports[..RawPort(list, port1) - 1]) == port1 - 1
  }

  ghost predicate BackAndThere(hub: Hub, ports: seq<nat>, list: seq<nat>, i: nat)
    requires i < |ports|
  {
    var fake := Count(hub, ports[..i]);
    fake < |list| ==> RawPort(list, fake + 1) == i + 1
  }

  lemma NumberedThere(hub: Hub, ports: seq<nat>, list: seq<nat>, port1: nat)
    requires 1 <= port1 <= |list| && list <= Members(hub, ports)
    ensures ThereAndBack(hub, ports, list, port1)
  {
    MemberAt(hub, ports, port1 - 1);
  }

  lemma NumberedBack(hub: Hub, ports: seq<nat>, list: seq<nat>, i: nat)
    requires i < |ports| && Belongs(hub, ports[i]) && list <= Members(hub, ports)
    ensures BackAndThere(hub, ports, list, i)
  {
    AtMember(hub, ports, i);
  }

  lemma ListNumbered(hub: Hub, ports: seq<nat>, list: seq<nat>, limit: nat)
    requires list == if Count(hub, ports) <= limit then Members(hub, ports)
                     else Members(hub, ports)[..limit]
    ensures Numbered(hub, ports, list, limit)
  {
    forall port1 | 1 <= port1 <= |list| ensures ThereAndBack(hub, ports, list, port1) {
      NumberedThere(hub, ports, list, port1);
    }
    forall i | 0 <= i < |ports| && Belongs(hub, ports[i]) ensures BackAndThere(hub, ports, list, i) {
      NumberedBack(hub, ports, list, i);
    }
  }

  lemma {:induction false} NoPorts(n: nat)
    ensures Count(Usb2, seq(n, _ => 0)) == 0 == Count(Usb3, seq(n, _ => 0))
  {
    if n != 0 {
      NoPorts(n - 1);
      assert seq(n, _ => 0)[..n - 1] == seq(n - 1, _ => 0);
    }
  }
}
