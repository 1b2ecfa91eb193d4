/** Live ring expansion: new segments are spliced in behind the segment that holds
    the enqueue pointer, while the controller keeps reading. */
module Growth {
  import opened Trbs
  import opened Laps

  /** First position behind the segment that holds e. */
  function Cut(e: nat): nat {
    64 * (e / 64 + 1)
  }

  lemma CutBound(n: nat, e: nat)
    requires e < n && n % 64 == 0
    ensures e < Cut(e) <= n && (Cut(e) - 1) % 64 == 63 && Cut(e) % 64 == 0
  {
  }

  /** Segments ready to be spliced in: all slots carry the complement of the cycle
      state, and the last link toggles if the splice moves the end of the ring. */
  ghost predicate Spliceable(p: Producer, blank: seq<Trb>) {
    && 0 < |blank|
    && |blank| % 64 == 0
    && (forall j :: 0 <= j < |blank| ==> (blank[j].typ.Link? <==> j % 64 == 63))
    && (forall j :: 0 <= j < |blank| ==> blank[j].cycle == !p.pcs)
    && (forall j :: 0 <= j < |blank| && j % 64 == 63 ==>
          (blank[j].toggle <==> j == |blank| - 1 && Cut(p.e) == |p.tape|))
  }

  /** Where a position ends up after the splice. */
  function Shift(cut: nat, k: nat, j: nat): nat {
    if j < cut then j else j + k
  }

  function GrowTape(t: seq<Trb>, cut: nat, link: Trb, blank: seq<Trb>): (r: seq<Trb>)
    requires 0 < cut <= |t|
    ensures |r| == |t| + |blank|
  {
    t[..cut - 1] + [link] + blank + t[cut..]
  }

  /** Every slot of the grown tape is an old slot, the re-pointed link or a new slot. */
  function GrownSlot(t: seq<Trb>, cut: nat, link: Trb, blank: seq<Trb>, j: nat): Trb
    requires 0 < cut <= |t| && j < |t| + |blank|
  {
    if j == cut - 1 then link
    else if j < cut then t[j]
    else if j < cut + |blank| then blank[j - cut]
    else t[j - |blank|]
  }

  lemma GrownSlots(t: seq<Trb>, cut: nat, link: Trb, blank: seq<Trb>)
    requires 0 < cut <= |t|
    ensures forall j :: 0 <= j < |t| + |blank| ==>
              GrowTape(t, cut, link, blank)[j] == GrownSlot(t, cut, link, blank, j)
  {
  }

  /** The link of enqueue's segment, pointing to the first new segment; hardware with the
      link quirk wants it chained. */
  function Repointed(link: Trb, ptr: nat, quirk: bool): Trb {
    link.(ptr := ptr, chain := link.chain || quirk, toggle := false)
  }

  /** xhci_link_rings on the tape: the link of enqueue's segment is re-pointed and stops
      toggling, dequeue keeps pointing at the same slot, and the free count grows by 63
      per new segment. */
  function Grow(p: Producer, ptr: nat, quirk: bool, blank: seq<Trb>): Producer
    requires p.e < |p.tape| && |p.tape| % 64 == 0
  {
    var cut := Cut(p.e);
    var link := Repointed(p.tape[cut - 1], ptr, quirk);
    p.(tape := GrowTape(p.tape, cut, link, blank),
       d := Shift(cut, |blank|, p.d),
       free := p.free + 63 * (|blank| / 64),
       withheld := if p.withheld.Some? then Some(Shift(cut, |blank|, p.withheld.value)) else None)
  }

  lemma GrowFields(p: Producer, ptr: nat, quirk: bool, blank: seq<Trb>, q: Producer)
    requires p.e < |p.tape| && |p.tape| % 64 == 0
    requires q.tape == Grow(p, ptr, quirk, blank).tape
    requires q.e == p.e && q.pcs == p.pcs && q.d == Shift(Cut(p.e), |blank|, p.d)
    requires q.free == p.free + 63 * (|blank| / 64)
    requires q.withheld == if p.withheld.Some?
                           then Some(Shift(Cut(p.e), |blank|, p.withheld.value)) else None
    ensures q == Grow(p, ptr, quirk, blank)
  {
  }

  function Moved(p: Producer, blank: seq<Trb>, c: Consumer): Consumer {
    c.(h := Shift(Cut(p.e), |blank|, c.h))
  }

  /** The controller stands in enqueue's own segment, at or behind the link that is about
      to be re-pointed, and still has to follow it. */
  predicate Lingers(p: Producer, c: Consumer) {
    p.e < c.h && c.h / 64 == p.e / 64
  }

  lemma GrowGeometry(p: Producer, ptr: nat, quirk: bool, blank: seq<Trb>)
    requires Shape(p) && Spliceable(p, blank)
    ensures Shape(Grow(p, ptr, quirk, blank))
  {
    var q := Grow(p, ptr, quirk, blank);
    var cut := Cut(p.e);
    GrownSlots(p.tape, cut, Repointed(p.tape[cut - 1], ptr, quirk), blank);
    CutBound(|p.tape|, p.e);
    SameSlot(|q.tape|, |blank|);
    forall j | 0 <= j < |q.tape|
      ensures q.tape[j].typ.Link? <==> j % 64 == 63
      ensures j % 64 == 63 ==> (q.tape[j].toggle <==> j == |q.tape| - 1)
    {
      GrowSlotKind(p, ptr, quirk, blank, q.tape[j], j);
    }
  }

  lemma GrowSlotKind(p: Producer, ptr: nat, quirk: bool, blank: seq<Trb>, x: Trb, j: nat)
    requires Shape(p) && Spliceable(p, blank) && j < |p.tape| + |blank|
    requires 0 < Cut(p.e) <= |p.tape| && (Cut(p.e) - 1) % 64 == 63 && Cut(p.e) % 64 == 0
    requires x == GrownSlot(p.tape, Cut(p.e), Repointed(p.tape[Cut(p.e) - 1], ptr, quirk), blank, j)
    ensures x.typ.Link? <==> j % 64 == 63
    ensures j % 64 == 63 ==> (x.toggle <==> j == |p.tape| + |blank| - 1)
  {
    var cut := Cut(p.e);
    if cut <= j < cut + |blank| {
      SameSlot(j, cut);
    } else if cut + |blank| <= j {
      SameSlot(j, |blank|);
    }
  }

  lemma SameSlot(j: nat, k: nat)
    requires k <= j && k % 64 == 0
    ensures (j - k) % 64 == j % 64
  {
  }

  lemma GrowBits(p: Producer, ptr: nat, quirk: bool, blank: seq<Trb>)
    requires Shape(p) && Bits(p) && Spliceable(p, blank)
    ensures Bits(Grow(p, ptr, quirk, blank))
  {
    var q := Grow(p, ptr, quirk, blank);
    var cut := Cut(p.e);
    GrownSlots(p.tape, cut, Repointed(p.tape[cut - 1], ptr, quirk), blank);
    forall j | 0 <= j < |q.tape|
      ensures q.tape[j].cycle == (LapBit(q.e, q.pcs, j) != (q.withheld == Some(j)))
    {
    }
  }

  /** Whatever the state, the cycle bits keep their meaning: a controller at the moved
      position still holds the right cycle state. */
  lemma GrowLawful(p: Producer, c: Consumer, ptr: nat, quirk: bool, blank: seq<Trb>)
    requires Lawful(p, c) && Spliceable(p, blank)
    ensures Lawful(Grow(p, ptr, quirk, blank), Moved(p, blank, c))
  {
    GrowGeometry(p, ptr, quirk, blank);
    GrowBits(p, ptr, quirk, blank);
  }

  /** A walk that does not follow the re-pointed link sees the same TRBs. */
  lemma GrowSpan(t: seq<Trb>, cut: nat, link: Trb, blank: seq<Trb>, a: nat, b: nat)
    requires 0 < cut <= |t| && a < |t| && b < |t|
    requires !InSpan(|t|, a, cut - 1, b)
    ensures Span(GrowTape(t, cut, link, blank), Shift(cut, |blank|, a), Shift(cut, |blank|, b)) ==
            Span(t, a, b)
  {
    var u := GrowTape(t, cut, link, blank);
    GrownSlots(t, cut, link, blank);
    var a', b' := Shift(cut, |blank|, a), Shift(cut, |blank|, b);
    if a <= b {
    } else {
      assert cut <= a && b < cut;
      assert u[a'..] == t[a..];
      assert u[..b'] == t[..b];
    }
  }

  lemma LingeringPositions(n: nat, h: nat, d: nat, e: nat, free: int)
    requires h < n && d < n && e < n && n % 64 == 0
    requires e < h && h / 64 == e / 64
    requires WorkCount(n, h, e) <= Occupied(n, d, e)
    requires d % 64 <= free == Ord(n) - 1 - Occupied(n, d, e)
    ensures h % 64 == 63 && d == Next(n, h)
  {
    CountBound(n, d, e);
    if d <= e {
      assert Occupied(n, d, e) <= Ord(e);
    } else {
      assert Ord(h) - Ord(e) >= Ord(d) - Ord(e) || Drained(n, d, e);
    }
  }

  /** On a transfer ring the controller can linger in only one way: it stands on the link
      itself, and dequeue already stands at the head of the following segment. */
  lemma LingersOnTheLink(p: Producer, c: Consumer)
    requires Inv(p, c) && Room(p) && Lingers(p, c)
    ensures c.h == Cut(p.e) - 1
    ensures p.d == Next(|p.tape|, c.h)
  {
    LingeringPositions(|p.tape|, c.h, p.d, p.e, p.free);
  }

  lemma GrowCount(n: nat, k: nat, cut: nat, a: nat, e: nat)
    requires a < n && e < n && n % 64 == 0 && k % 64 == 0 && cut == Cut(e)
    requires !(e < a && a / 64 == e / 64)
    ensures Shift(cut, k, a) < n + k && e < n + k && (n + k) % 64 == 0
    ensures WorkCount(n + k, Shift(cut, k, a), e) == WorkCount(n, a, e)
  {
    assert (a + k) / 64 == a / 64 + k / 64;
  }

  /** Dequeue's count survives the splice exactly when the ring is not drained with
      enqueue resting on the link in front of dequeue. */
  lemma GrowOccupied(n: nat, k: nat, d: nat, e: nat)
    requires d < n && e < n && n % 64 == 0 && 0 < k && k % 64 == 0
    requires !(e < d && d / 64 == e / 64)
    ensures Shift(Cut(e), k, d) < n + k && e < n + k && (n + k) % 64 == 0
    ensures Ord(n + k) == Ord(n) + 63 * (k / 64)
    ensures Occupied(n + k, Shift(Cut(e), k, d), e) ==
            Occupied(n, d, e) + (if Drained(n, d, e) then Ord(n) else 0)
  {
    GrowCount(n, k, Cut(e), d, e);
    CountBound(n, d, e);
    assert !Drained(n + k, Shift(Cut(e), k, d), e);
  }

  /** Room keeps dequeue out of the way: it never stands in front of enqueue inside
      enqueue's own segment. */
  lemma EnqueueNotBehindDequeue(p: Producer)
    requires Shape(p) && Accounting(p) && Room(p)
    ensures !(p.e < p.d && p.d / 64 == p.e / 64)
  {
  }

  /** Accounting after an expansion: num_trbs_free + occupied = 63 x segments - 1 holds
      again exactly when the ring was not drained. */
  lemma AccountingIffNotDrained(p: Producer, ptr: nat, quirk: bool, blank: seq<Trb>)
    requires Shape(p) && Accounting(p) && Room(p) && Spliceable(p, blank)
    ensures Shape(Grow(p, ptr, quirk, blank))
    ensures Accounting(Grow(p, ptr, quirk, blank)) <==> !Drained(|p.tape|, p.d, p.e)
  {
    GrowGeometry(p, ptr, quirk, blank);
    EnqueueNotBehindDequeue(p);
    GrowOccupied(|p.tape|, |blank|, p.d, p.e);
  }

  lemma NotPastTheCut(n: nat, h: nat, s: nat, e: nat)
    requires h < n && s < n && e < n && n % 64 == 0
    requires !(e < h && h / 64 == e / 64)
    requires s == e || InSpan(n, h, s, e)
    ensures Cut(e) <= n
    ensures !InSpan(n, h, Cut(e) - 1, s)
    ensures !InSpan(n, s, Cut(e) - 1, e)
  {
  }

  lemma QueueWhenNotLingering(p: Producer, c: Consumer, ptr: nat, quirk: bool, blank: seq<Trb>)
    requires Lawful(p, c) && Spliceable(p, blank) && !Lingers(p, c)
    ensures Lawful(Grow(p, ptr, quirk, blank), Moved(p, blank, c))
    ensures Queue(Grow(p, ptr, quirk, blank), Moved(p, blank, c)) == Queue(p, c)
    ensures Building(Grow(p, ptr, quirk, blank)) == Building(p)
  {
    GrowLawful(p, c, ptr, quirk, blank);
    NotPastTheCut(|p.tape|, c.h, Stop(p), p.e);
    GrowViews(p, c, ptr, quirk, blank);
  }

  lemma GrowViews(p: Producer, c: Consumer, ptr: nat, quirk: bool, blank: seq<Trb>)
    requires p.e < |p.tape| && |p.tape| % 64 == 0 && Stop(p) < |p.tape| && c.h < |p.tape|
    requires Cut(p.e) <= |p.tape|
    requires !InSpan(|p.tape|, c.h, Cut(p.e) - 1, Stop(p))
    requires !InSpan(|p.tape|, Stop(p), Cut(p.e) - 1, p.e)
    ensures Stop(Grow(p, ptr, quirk, blank)) < |p.tape| + |blank|
    ensures Queue(Grow(p, ptr, quirk, blank), Moved(p, blank, c)) == Queue(p, c)
    ensures Building(Grow(p, ptr, quirk, blank)) == Building(p)
  {
    var cut := Cut(p.e);
    var link := Repointed(p.tape[cut - 1], ptr, quirk);
    GrowSpan(p.tape, cut, link, blank, c.h, Stop(p));
    GrowSpan(p.tape, cut, link, blank, Stop(p), p.e);
  }

  /** Both views of the ring after blank segments have been spliced in. */
  ghost predicate Grew(p: Producer, c: Consumer, ptr: nat, quirk: bool, blank: seq<Trb>,
                       q: Producer, c': Consumer)
  {
    && p.e < |p.tape| && |p.tape| % 64 == 0
    && Spliceable(p, blank)
    && q == Grow(p, ptr, quirk, blank)
    && c' == Moved(p, blank, c)
  }

  /** A controller that lingers on the link walks into the new segments, whose slots it
      takes for its own: it acts on every blank slot before it reaches the queue. */
  lemma QueueWhenLingering(p: Producer, c: Consumer, ptr: nat, quirk: bool, blank: seq<Trb>)
    requires Inv(p, c) && Room(p) && Spliceable(p, blank) && Lingers(p, c)
    ensures Lawful(Grow(p, ptr, quirk, blank), Moved(p, blank, c))
    ensures Queue(Grow(p, ptr, quirk, blank), Moved(p, blank, c)) == Work(blank) + Queue(p, c)
  {
    LingersOnTheLink(p, c);
    GrowLawful(p, c, ptr, quirk, blank);
    LingeringQueue(p, c, ptr, quirk, blank);
  }

  lemma LingeringQueue(p: Producer, c: Consumer, ptr: nat, quirk: bool, blank: seq<Trb>)
    requires p.e < |p.tape| && |p.tape| % 64 == 0 && Stop(p) < |p.tape| && blank != []
    requires c.h == Cut(p.e) - 1 != Stop(p) && p.tape[c.h].typ.Link?
    ensures Stop(Grow(p, ptr, quirk, blank)) < |p.tape| + |blank|
    ensures Queue(Grow(p, ptr, quirk, blank), Moved(p, blank, c)) == Work(blank) + Queue(p, c)
  {
    assert Stop(Grow(p, ptr, quirk, blank)) == Shift(Cut(p.e), |blank|, Stop(p));
    LingeringWork(p.tape, Cut(p.e), Repointed(p.tape[c.h], ptr, quirk), blank, Stop(p));
  }

  lemma LinkSlot(t: seq<Trb>, cut: nat, link: Trb, blank: seq<Trb>)
    requires 0 < cut <= |t|
    ensures GrowTape(t, cut, link, blank)[cut - 1] == link
  {
  }

  lemma BeyondBlank(t: seq<Trb>, cut: nat, link: Trb, blank: seq<Trb>, s: nat)
    requires 0 < cut <= |t| && s < |t| && s != cut - 1 && blank != []
    ensures Next(|t|, cut - 1) < |t|
    ensures Span(GrowTape(t, cut, link, blank), cut, Shift(cut, |blank|, s)) ==
            blank + Span(t, Next(|t|, cut - 1), s)
  {
    var u := GrowTape(t, cut, link, blank);
    var m := if cut == |t| then 0 else cut + |blank|;
    BlankSpan(t, cut, link, blank);
    SpanSplit(u, cut, m, Shift(cut, |blank|, s));
    GrowSpan(t, cut, link, blank, Next(|t|, cut - 1), s);
  }

  /** The new slots are what a walk meets between the link and the following segment. */
  lemma BlankSpan(t: seq<Trb>, cut: nat, link: Trb, blank: seq<Trb>)
    requires 0 < cut <= |t| && blank != []
    ensures var u := GrowTape(t, cut, link, blank);
            var m := if cut == |t| then 0 else cut + |blank|;
            Span(u, cut, m) == blank
  {
    var u := GrowTape(t, cut, link, blank);
    if cut == |t| {
      assert u[cut..] == blank;
    } else {
      assert u[cut..cut + |blank|] == blank;
    }
  }

  /** Both walks from the link on end in the same stretch. */
  lemma LingeringRest(t: seq<Trb>, cut: nat, blank: seq<Trb>, s: nat, u: seq<Trb>, s': nat)
    requires 0 < cut <= |t| && s < |t| && s != cut - 1 && cut < |u| && s' < |u| && s' != cut - 1
    requires Next(|t|, cut - 1) < |t|
    requires Span(u, cut, s') == blank + Span(t, Next(|t|, cut - 1), s)
    requires u[cut - 1].typ.Link? && t[cut - 1].typ.Link?
    ensures Work(Span(u, cut - 1, s')) == Work(blank) + Work(Span(t, cut - 1, s))
  {
    WorkBehindLink(t, cut - 1, s);
    WorkBehindLink(u, cut - 1, s');
    WorkConcat(blank, Span(t, Next(|t|, cut - 1), s));
  }

  lemma LingeringWork(t: seq<Trb>, cut: nat, link: Trb, blank: seq<Trb>, s: nat)
    requires 0 < cut <= |t| && s < |t| && s != cut - 1 && blank != []
    requires link.typ.Link? && t[cut - 1].typ.Link?
    ensures Work(Span(GrowTape(t, cut, link, blank), cut - 1, Shift(cut, |blank|, s))) ==
            Work(blank) + Work(Span(t, cut - 1, s))
  {
    BeyondBlank(t, cut, link, blank, s);
    LinkSlot(t, cut, link, blank);
    LingeringRest(t, cut, blank, s, GrowTape(t, cut, link, blank), Shift(cut, |blank|, s));
  }

  lemma WorkBehindLink(t: seq<Trb>, a: nat, b: nat)
    requires a < |t| && b < |t| && a != b && t[a].typ.Link?
    ensures Next(|t|, a) < |t| && Work(Span(t, a, b)) == Work(Span(t, Next(|t|, a), b))
  {
    SpanFirst(t, a, b);
    assert Span(t, a, b)[1..] == Span(t, Next(|t|, a), b);
  }

  /** An expansion leaves the controller's view alone exactly when the controller is not
      lingering on the link of enqueue's segment. */
  lemma ViewIffNotLingering(p: Producer, c: Consumer, ptr: nat, quirk: bool, blank: seq<Trb>)
    requires Inv(p, c) && Room(p) && Spliceable(p, blank)
    ensures Lawful(Grow(p, ptr, quirk, blank), Moved(p, blank, c))
    ensures Queue(Grow(p, ptr, quirk, blank), Moved(p, blank, c)) == Queue(p, c)
            <==> !Lingers(p, c)
  {
    if Lingers(p, c) {
      QueueWhenLingering(p, c, ptr, quirk, blank);
      assert blank[0] == Work(blank)[0];
      assert |Work(blank) + Queue(p, c)| != |Queue(p, c)|;
    } else {
      QueueWhenNotLingering(p, c, ptr, quirk, blank);
    }
  }

  /** Either failure needs dequeue to stand at the head of the segment behind
      enqueue's: a driver that checked this before splicing would meet neither. */
  lemma SafeUnlessDequeueFollows(p: Producer, c: Consumer)
    requires Inv(p, c) && Room(p)
    requires p.d != Next(|p.tape|, Cut(p.e) - 1)
    ensures !Lingers(p, c) && !Drained(|p.tape|, p.d, p.e)
  {
    if Lingers(p, c) {
      LingersOnTheLink(p, c);
    }
  }

  /** Otherwise expansion keeps the whole invariant. */
  lemma GrowKeeps(p: Producer, c: Consumer, ptr: nat, quirk: bool, blank: seq<Trb>)
    requires Inv(p, c) && Room(p) && Spliceable(p, blank)
    requires !Lingers(p, c) && !Drained(|p.tape|, p.d, p.e)
    ensures Inv(Grow(p, ptr, quirk, blank), Moved(p, blank, c))
    ensures Room(Grow(p, ptr, quirk, blank))
    ensures Queue(Grow(p, ptr, quirk, blank), Moved(p, blank, c)) == Queue(p, c)
    ensures Building(Grow(p, ptr, quirk, blank)) == Building(p)
  {
    QueueWhenNotLingering(p, c, ptr, quirk, blank);
    AccountingIffNotDrained(p, ptr, quirk, blank);
    EnqueueNotBehindDequeue(p);
    GrowOccupied(|p.tape|, |blank|, p.d, p.e);
    GrowCount(|p.tape|, |blank|, Cut(p.e), c.h, p.e);
  }

  lemma ShiftSkips(n: nat, k: nat, cut: nat, d: nat)
    requires 0 < cut <= n && 0 < k
    ensures Shift(cut, k, d) != Next(n + k, cut - 1)
  {
  }

  /** Once segments have been spliced in, dequeue no longer follows enqueue's segment, so a
      second expansion is always safe. */
  lemma SecondGrowthIsSafe(p: Producer, c: Consumer, ptr: nat, quirk: bool, blank: seq<Trb>)
    requires Inv(p, c) && Room(p) && Spliceable(p, blank)
    requires !Lingers(p, c) && !Drained(|p.tape|, p.d, p.e)
    ensures var q := Grow(p, ptr, quirk, blank);
            !Lingers(q, Moved(p, blank, c)) && !Drained(|q.tape|, q.d, q.e)
  {
    GrowKeeps(p, c, ptr, quirk, blank);
    var q := Grow(p, ptr, quirk, blank);
    CutBound(|p.tape|, p.e);
    ShiftSkips(|p.tape|, |blank|, Cut(p.e), p.d);
    assert |q.tape| == |p.tape| + |blank| && q.e == p.e;
    SafeUnlessDequeueFollows(q, Moved(p, blank, c));
  }
}
