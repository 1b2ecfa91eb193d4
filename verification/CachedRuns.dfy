/** Whole runs of a cached ring without cancellations: the driver works in host memory and
    copies to the device, the controller reads the device copy only. */
module CachedRuns {
  import opened Trbs
  import opened Laps
  import opened Growth
  import opened Mirror
  import opened Runs

  datatype CachedSystem = CachedSystem(s: System, dev: seq<Trb>, ce: nat)

  function View(x: CachedSystem): Cached {
    Cached(x.s.p, x.dev, x.ce)
  }

  ghost predicate CachedGood(x: CachedSystem) {
    var ok := Good(x.s) && Mirrors(View(x), x.s.c) && Held(View(x), x.s.c);
    ok
  }

  /** What xhci_segment_alloc and xhci_link_segments send to the device for new segments: the
      slots without the toggle bit, which is only set in host memory afterwards. */
  function DeviceBlank(blank: seq<Trb>): (r: seq<Trb>)
    ensures |r| == |blank|
    ensures forall j :: 0 <= j < |r| ==> r[j] == blank[j].(toggle := false)
  {
    seq(|blank|, j requires 0 <= j < |blank| => blank[j].(toggle := false))
  }

  /** The re-pointed link as the device gets it: still with its old toggle bit. */
  function DeviceLink(link: Trb, ptr: nat, quirk: bool): Trb {
    Repointed(link, ptr, quirk).(toggle := link.toggle)
  }

  function ExpandDevice(m: Cached, ptr: nat, quirk: bool, blank: seq<Trb>): Cached
    requires m.p.e < |m.p.tape| == |m.dev| && |m.p.tape| % 64 == 0
  {
    CutBound(|m.p.tape|, m.p.e);
    GrowCached(m, ptr, quirk, blank, DeviceLink(m.p.tape[Cut(m.p.e) - 1], ptr, quirk),
               DeviceBlank(blank))
  }

  ghost predicate CachedEnabled(x: CachedSystem, ev: Event)
    requires CachedGood(x)
  {
    match ev
    case Enqueue(trb, more) =>
      Enabled(x.s, ev) && (x.s.p.withheld.Some? || trb.cycle != x.s.p.pcs)
    case Expand(_, _) => Enabled(x.s, ev) && !CacheLingers(View(x))
    case Skip(_) => false
    case Catchup => false
    case _ => Enabled(x.s, ev)
  }

  ghost function CachedStep(x: CachedSystem, ev: Event): CachedSystem
    requires CachedGood(x) && CachedEnabled(x, ev)
  {
    var p := x.s.p;
    match ev
    case Publish =>
      CachedSystem(Step(x.s, ev), CopySpan(Step(x.s, ev).p.tape, x.dev, x.ce, p.e), p.e)
    case LeaveLink(chain) =>
      x.(s := Step(x.s, ev), dev := x.dev[p.e := HandOver(p.tape[p.e], chain)])
    case Expand(ptr, blank) =>
      var m := ExpandDevice(View(x), ptr, x.s.quirk, blank);
      CachedSystem(Step(x.s, ev), m.dev, m.ce)
    case Fetch =>
      if Owned(x.dev, x.s.c)
      then x.(s := x.s.(c := Advance(x.dev, x.s.c), passed := x.s.passed + Taken(x.dev, x.s.c)))
      else x
    case _ => x.(s := Step(x.s, ev))
  }

  /** An expansion between two TDs needs nothing more than on a ring without copy. */
  lemma {:induction false} ExpandBetweenTds(x: CachedSystem, ev: Event)
    requires CachedGood(x) && ev.Expand? && x.s.p.withheld.None? && 64 < |x.s.p.tape|
    ensures CachedEnabled(x, ev) <==> Enabled(x.s, ev)
  {
    LingersOnlyMidTd(View(x), x.s.c);
  }

  lemma WriteSlotMirrors(m: Cached, c: Consumer, trb: Trb)
    requires Mirrors(m, c) && CanWrite(m.p, c, trb) && Behind(m) && m.p.e % 64 != 63
    requires m.p.withheld.Some? || trb.cycle != m.p.pcs
    ensures Mirrors(m.(p := Write(m.p, trb).(free := m.p.free - 1)), c)
  {
    WriteMirrors(m, c, trb);
    var w := m.(p := Write(m.p, trb));
    IgnoreFree(w, c, m.p.d, m.p.free - 1);
    assert w.p.(d := m.p.d, free := m.p.free - 1) == Write(m.p, trb).(free := m.p.free - 1);
  }

  /** The first half of queueing a TRB of a TD under construction. */
  lemma EnqueueSlot(m: Cached, c: Consumer, trb: Trb) returns (w: Cached)
    requires Inv(m.p, c) && Mirrors(m, c) && CanPut(m.p, trb)
    requires m.p.withheld.Some? || trb.cycle != m.p.pcs
    ensures m.p.e + 1 < |m.p.tape|
    ensures w == m.(p := Write(m.p, trb).(free := m.p.free - 1))
    ensures Inv(w.p, c) && Mirrors(w, c) && w.p.withheld.Some?
  {
    NotCaught(m, c);
    WriteKeeps(m.p, c, trb);
    WriteSlotMirrors(m, c, trb);
    w := m.(p := Write(m.p, trb).(free := m.p.free - 1));
  }

  /** The second half: a link that follows may be handed over. */
  lemma OnwardMirrors(m: Cached, c: Consumer, hand: bool, chain: Option<bool>)
    requires Inv(m.p, c) && Mirrors(m, c) && m.p.withheld.Some?
    ensures m.p.e < |m.p.tape|
    ensures Mirrors(m.(p := Onward(m.p, hand, chain)), c)
  {
    if m.p.e % 64 == 63 && hand {
      PassMirrors(m, c, if chain.Some? then chain.value else m.p.tape[m.p.e].chain);
    } else {
      assert m.(p := m.p) == m;
    }
  }

  lemma OnwardMirrorsAs(m: Cached, c: Consumer, hand: bool, chain: Option<bool>, m': Cached)
    requires Inv(m.p, c) && Mirrors(m, c) && m.p.withheld.Some? && m.p.e < |m.p.tape|
    requires m'.p == Onward(m.p, hand, chain) && m'.dev == m.dev && m'.ce == m.ce
    ensures Mirrors(m', c)
  {
    OnwardMirrors(m, c, hand, chain);
    assert m' == m.(p := Onward(m.p, hand, chain));
  }

  lemma EnqueueMirrors(m: Cached, c: Consumer, trb: Trb, more: bool, quirk: bool, m': Cached)
    requires Inv(m.p, c) && Mirrors(m, c) && CanPut(m.p, trb)
    requires m.p.withheld.Some? || trb.cycle != m.p.pcs
    requires m.p.e + 1 < |m.p.tape| && m'.dev == m.dev && m'.ce == m.ce
    requires m'.p == Put(m.p, trb, more, quirk)
    ensures Mirrors(m', c)
  {
    var w := EnqueueSlot(m, c, trb);
    PutIsOnward(m.p, trb, more, quirk);
    OnwardMirrorsAs(w, c, trb.chain || more, if quirk then None else Some(trb.chain), m');
  }

  lemma OneSlotHeld(m: Cached, c: Consumer, trb: Trb, q: Producer)
    requires Inv(m.p, c) && Held(m, c) && m.p.e < |m.p.tape|
    requires q.tape == m.p.tape[m.p.e := trb] && q.d == m.p.d
    ensures Held(m.(p := q), c)
  {
    StoreHeld(m, c, m.(p := q));
  }

  lemma SlotHeld(m: Cached, c: Consumer, trb: Trb)
    requires Inv(m.p, c) && Held(m, c) && CanPut(m.p, trb)
    ensures var q := Write(m.p, trb).(free := m.p.free - 1);
            Inv(q, c) && Held(m.(p := q), c)
  {
    WriteKeeps(m.p, c, trb);
    OneSlotHeld(m, c, trb, Write(m.p, trb).(free := m.p.free - 1));
  }

  lemma {:induction false} OnwardHeld(m: Cached, c: Consumer, hand: bool, chain: Option<bool>, m': Cached)
    requires Inv(m.p, c) && Held(m, c) && m.p.e < |m.p.tape|
    requires m'.p == Onward(m.p, hand, chain) && m'.dev == m.dev && m'.ce == m.ce
    ensures Held(m', c)
  {
    StoreHeld(m, c, m');
  }

  lemma {:induction false} EnqueueHeld(m: Cached, c: Consumer, trb: Trb, more: bool, quirk: bool, m': Cached)
    requires Inv(m.p, c) && Held(m, c) && CanPut(m.p, trb)
    requires m.p.e + 1 < |m.p.tape| && m'.dev == m.dev && m'.ce == m.ce
    requires m'.p == Put(m.p, trb, more, quirk)
    ensures Held(m', c)
  {
    SlotHeld(m, c, trb);
    PutIsOnward(m.p, trb, more, quirk);
    var q := Write(m.p, trb).(free := m.p.free - 1);
    OnwardHeld(m.(p := q), c, trb.chain || more, if quirk then None else Some(trb.chain), m');
  }

  /** The mirror does not depend on dequeue and the free count. */
  lemma IgnoreFree(m: Cached, c: Consumer, d: nat, free: int)
    requires Mirrors(m, c) && d < |m.p.tape|
    ensures Mirrors(m.(p := m.p.(d := d, free := free)), c)
  {
    LawfulIgnoresDequeue(m.p, c, d, free);
  }

  lemma PassMirrors(m: Cached, c: Consumer, chain: bool)
    requires Inv(m.p, c) && Mirrors(m, c) && m.p.e % 64 == 63 && m.p.withheld.Some?
    ensures Mirrors(m.(p := PassLink(m.p, chain)), c)
  {
    NotCaught(m, c);
    var link := HandOver(m.p.tape[m.p.e], chain);
    assert m.p.withheld.value != m.p.e;
    assert Write(m.p, link) == PassLink(m.p, chain) && CanWrite(m.p, c, link);
    assert m.ce != m.p.e;
    WriteMirrors(m, c, link);
  }

  lemma CachedFetchKeeps(x: CachedSystem)
    requires CachedGood(x)
    ensures CachedGood(CachedStep(x, Fetch))
  {
    if Owned(x.dev, x.s.c) {
      FetchReads(View(x), x.s.c);
      FetchMirrors(View(x), x.s.c);
      FetchHeld(View(x), x.s.c);
      StepKeeps(x.s, Fetch);
    }
  }

  lemma CachedEnqueueKeeps(x: CachedSystem, trb: Trb, more: bool)
    requires CachedGood(x) && CachedEnabled(x, Enqueue(trb, more))
    ensures CachedGood(CachedStep(x, Enqueue(trb, more)))
  {
    var y := CachedStep(x, Enqueue(trb, more));
    StepKeeps(x.s, Enqueue(trb, more));
    WriteKeeps(x.s.p, x.s.c, trb);
    EnqueueMirrors(View(x), x.s.c, trb, more, x.s.quirk, View(y));
    EnqueueHeld(View(x), x.s.c, trb, more, x.s.quirk, View(y));
  }

  lemma CachedPublishKeeps(x: CachedSystem)
    requires CachedGood(x) && CachedEnabled(x, Event.Publish)
    ensures CachedGood(CachedStep(x, Event.Publish))
  {
    StepKeeps(x.s, Event.Publish);
    PublishShowsAll(View(x), x.s.c);
  }

  lemma CachedLeaveLinkKeeps(x: CachedSystem, chain: bool)
    requires CachedGood(x) && CachedEnabled(x, LeaveLink(chain))
    ensures CachedGood(CachedStep(x, LeaveLink(chain)))
  {
    StepKeeps(x.s, LeaveLink(chain));
    NotCaught(View(x), x.s.c);
    LeaveLinkMirrors(View(x), x.s.c, chain);
    StoreHeld(View(x), x.s.c, View(CachedStep(x, LeaveLink(chain))));
  }

  lemma CachedReclaimKeeps(x: CachedSystem)
    requires CachedGood(x) && CachedEnabled(x, Event.Reclaim)
    ensures CachedGood(CachedStep(x, Event.Reclaim))
  {
    var p := x.s.p;
    StepKeeps(x.s, Event.Reclaim);
    NextDequeueCounts(|p.tape|, p.d, p.e);
    IgnoreFree(View(x), x.s.c, Laps.Reclaim(p).d, Laps.Reclaim(p).free);
    ReclaimHeld(View(x), x.s.c);
  }

  /** Every step keeps the device copy in agreement with what has been published. */
  lemma CachedStepKeeps(x: CachedSystem, ev: Event)
    requires CachedGood(x) && CachedEnabled(x, ev)
    ensures CachedGood(CachedStep(x, ev))
  {
    match ev
    case Fetch => CachedFetchKeeps(x);
    case Enqueue(trb, more) => CachedEnqueueKeeps(x, trb, more);
    case Publish => CachedPublishKeeps(x);
    case LeaveLink(chain) => CachedLeaveLinkKeeps(x, chain);
    case Expand(ptr, blank) => CachedExpandKeeps(x, ptr, blank);
    case Reclaim => CachedReclaimKeeps(x);
  }

  lemma CachedExpandKeeps(x: CachedSystem, ptr: nat, blank: seq<Trb>)
    requires CachedGood(x) && CachedEnabled(x, Expand(ptr, blank))
    ensures CachedGood(CachedStep(x, Expand(ptr, blank)))
  {
    StepKeeps(x.s, Expand(ptr, blank));
    ExpandMirrors(View(x), x.s.c, ptr, x.s.quirk, blank);
  }

  lemma ExpandMirrors(m: Cached, c: Consumer, ptr: nat, quirk: bool, blank: seq<Trb>)
    requires Inv(m.p, c) && Room(m.p) && Mirrors(m, c) && Held(m, c) && Spliceable(m.p, blank)
    requires !Lingers(m.p, c) && !CacheLingers(m) && !Drained(|m.p.tape|, m.p.d, m.p.e)
    ensures Mirrors(ExpandDevice(m, ptr, quirk, blank), Moved(m.p, blank, c))
    ensures Held(ExpandDevice(m, ptr, quirk, blank), Moved(m.p, blank, c))
    ensures ExpandDevice(m, ptr, quirk, blank).p == Grow(m.p, ptr, quirk, blank)
  {
    CutLinkCycle(m.p);
    BlankCycles(m.p, blank);
    var link := m.p.tape[Cut(m.p.e) - 1];
    GrowMirrors(m, c, ptr, quirk, blank, DeviceLink(link, ptr, quirk), DeviceBlank(blank));
    GrowHeld(m, c, ptr, quirk, blank, DeviceLink(link, ptr, quirk), DeviceBlank(blank));
  }

  lemma CutLinkCycle(p: Producer)
    requires Shape(p) && Bits(p)
    ensures 0 < Cut(p.e) <= |p.tape| && p.tape[Cut(p.e) - 1].cycle == !p.pcs
  {
    CutBound(|p.tape|, p.e);
  }

  lemma BlankCycles(p: Producer, blank: seq<Trb>)
    requires Spliceable(p, blank)
    ensures forall j :: 0 <= j < |DeviceBlank(blank)| ==> DeviceBlank(blank)[j].cycle == !p.pcs
  {
  }

  ghost predicate CachedRunnable(x: CachedSystem, evs: seq<Event>)
    requires CachedGood(x)
    decreases |evs|
  {
    evs == [] ||
    (CachedEnabled(x, evs[0]) &&
     (CachedStepKeeps(x, evs[0]); CachedRunnable(CachedStep(x, evs[0]), evs[1..])))
  }

  ghost function CachedRun(x: CachedSystem, evs: seq<Event>): CachedSystem
    requires CachedGood(x) && CachedRunnable(x, evs)
    decreases |evs|
  {
    if evs == [] then x
    else CachedStepKeeps(x, evs[0]); CachedRun(CachedStep(x, evs[0]), evs[1..])
  }

  lemma {:induction false} CachedRunKeeps(x: CachedSystem, evs: seq<Event>)
    requires CachedGood(x) && CachedRunnable(x, evs)
    ensures CachedGood(CachedRun(x, evs))
    decreases |evs|
  {
    if evs != [] {
      CachedStepKeeps(x, evs[0]);
      CachedRunKeeps(CachedStep(x, evs[0]), evs[1..]);
    }
  }

  /** A step of the cached ring is a step of the ring without copy: the controller fetches
      from the copy exactly when and what it would fetch from host memory. */
  lemma CachedStepRefines(x: CachedSystem, ev: Event)
    requires CachedGood(x) && CachedEnabled(x, ev)
    ensures Enabled(x.s, ev) && CachedStep(x, ev).s == Step(x.s, ev)
  {
    if ev.Fetch? {
      DeviceStops(View(x), x.s.c);
      StopsAgree(View(x), x.s.c);
      OwnedIffQueued(x.s.p, x.s.c);
      if Owned(x.dev, x.s.c) {
        FetchReads(View(x), x.s.c);
      }
    }
  }

  /** Hence a run of the cached ring is a run of the ring without copy. */
  lemma {:induction false} CachedRunRefines(x: CachedSystem, evs: seq<Event>)
    requires CachedGood(x) && CachedRunnable(x, evs)
    ensures Runnable(x.s, evs) && CachedRun(x, evs).s == Run(x.s, evs)
    decreases |evs|
  {
    if evs != [] {
      CachedStepRefines(x, evs[0]);
      CachedStepKeeps(x, evs[0]);
      StepKeeps(x.s, evs[0]);
      CachedRunRefines(CachedStep(x, evs[0]), evs[1..]);
    }
  }

  /** What an expansion sends to the device: the link as it was before the toggle moved, and the
      new slots without a toggle; no other slot of the copy changes. */
  lemma ExpandWrites(m: Cached, ptr: nat, quirk: bool, blank: seq<Trb>, j: nat)
    requires m.p.e < |m.p.tape| == |m.dev| && |m.p.tape| % 64 == 0 && j < |m.dev| + |blank|
    ensures Cut(m.p.e) <= |m.dev|
    ensures var cut, x := Cut(m.p.e), ExpandDevice(m, ptr, quirk, blank).dev[j];
            if j == cut - 1 then
              var link := m.p.tape[cut - 1];
              x == link.(ptr := ptr, chain := link.chain || quirk)
            else if j < cut then x == m.dev[j]
            else if j < cut + |blank| then x == blank[j - cut].(toggle := false)
            else x == m.dev[j - |blank|]
  {
    CutBound(|m.dev|, m.p.e);
    GrownSlots(m.dev, Cut(m.p.e), DeviceLink(m.p.tape[Cut(m.p.e) - 1], ptr, quirk), DeviceBlank(blank));
  }

  /** Over every cancellation-free run, a controller that reads nothing but the device copy
      sees the ring as a FIFO of what the driver has published. */
  lemma DeviceIsFifo(x: CachedSystem, evs: seq<Event>)
    requires CachedGood(x) && CachedRunnable(x, evs)
    ensures var y := CachedRun(x, evs);
            && CachedGood(y)
            && y.s.published == y.s.passed + Takes(y.dev, y.s.c, |y.dev|)
  {
    CachedRunKeeps(x, evs);
    var y := CachedRun(x, evs);
    DeviceTakesTheQueue(View(y), y.s.c, |y.dev|);
  }

  // -------------------------------------------------------------------- where runs start

  /** A ring as it is when it has just been allocated. */
  ghost predicate New(p: Producer) {
    && Shape(p) && Bits(p)
    && p.e == 0 == p.d && p.withheld.None? && p.free == Ord(|p.tape|) - 1
  }

  /** What the ring's constructor promises is that. */
  lemma EmptyIsNew(p: Producer, c: Consumer)
    requires Inv(p, c) && p.e == 0 == p.d && p.withheld.None?
    ensures New(p)
  {
  }

  lemma NewMirrors(p: Producer)
    requires New(p)
    ensures Mirrors(Cached(p, DeviceBlank(p.tape), 0), Consumer(0, p.pcs))
    ensures Held(Cached(p, DeviceBlank(p.tape), 0), Consumer(0, p.pcs))
  {
    var m := Cached(p, DeviceBlank(p.tape), 0);
    assert DeviceStop(m) == 0;
    assert DeviceBits(m);
  }

  lemma NewIsGood(p: Producer, x: CachedSystem)
    requires New(p) && x.s.p == p && x.s.c == Consumer(0, p.pcs)
    requires x.s.published == x.s.building == x.s.passed == []
    requires x.dev == DeviceBlank(p.tape) && x.ce == 0
    ensures CachedGood(x)
  {
    NewMirrors(p);
    assert Span(p.tape, 0, 0) == [];
    assert Inv(p, x.s.c);
  }

  /** A new cached ring: the device has been sent every slot, and only in host memory does the
      last link toggle. */
  ghost function NewCached(p: Producer, quirk: bool): (x: CachedSystem)
    requires New(p)
    ensures CachedGood(x)
  {
    var x := CachedSystem(System(p, Consumer(0, p.pcs), quirk, [], [], []), DeviceBlank(p.tape), 0);
    NewIsGood(p, x);
    x
  }

  /** From a new cached ring on, every cancellation-free run is a FIFO through the copy. */
  lemma NewDeviceIsFifo(p: Producer, quirk: bool, evs: seq<Event>)
    requires New(p) && CachedRunnable(NewCached(p, quirk), evs)
    ensures var y := CachedRun(NewCached(p, quirk), evs);
            && CachedGood(y)
            && y.s.published == y.s.passed + Takes(y.dev, y.s.c, |y.dev|)
  {
    DeviceIsFifo(NewCached(p, quirk), evs);
  }
}
