/** The watchdog over Stop Endpoint commands.  A timer that has fired may still be waiting for
    the lock while its command completes, and another cancellation may arm the timer anew. */
module Watchdog {

  /** One endpoint.  `pending` is stop_cmds_pending and `armed` says that the timer is
      running.  The rest is bookkeeping: timers that have fired and whose handler has not run
      yet, whether a Stop Endpoint command of this endpoint is with the controller, and
      whether the timer started along with the latest command has fired. */
  datatype Ep = Ep(
    haltPending: bool,
    pending: int,
    armed: bool,
    fired: nat,
    outstanding: bool,
    expired: bool
  )

  /** `queued` records whether the Stop Endpoint command could be put on the command ring:
      the driver arms the timer first and does not look at the outcome. */
  datatype Event =
    | Cancel(e: nat, memory: bool, queued: bool)
    | Fire(e: nat)
    | Complete(e: nat)
    | Watch(e: nat)

  datatype Host = Host(eps: seq<Ep>, dying: bool)

  const IDLE := Ep(false, 0, false, 0, false, false)

  ghost predicate EpOk(p: Ep) {
    && p.pending == (if p.armed then 1 else 0) + p.fired
    && (p.armed ==> p.haltPending)
    && (p.outstanding ==> p.haltPending)
    && (p.haltPending ==> (p.armed <==> !p.expired))
  }

  /** While the host is alive, a pending stop has a timer that runs or is yet to be looked at. */
  ghost predicate Watched(h: Host) {
    forall e :: 0 <= e < |h.eps| ==> (h.eps[e].haltPending ==> 0 < h.eps[e].pending)
  }

  ghost predicate Good(h: Host) {
    && (forall e :: 0 <= e < |h.eps| ==> EpOk(h.eps[e]))
    && (!h.dying ==> Watched(h))
  }

  /** add_timer must not be called on a running timer, and only a command that was sent can
      complete. */
  predicate Enabled(h: Host, ev: Event) {
    && ev.e < |h.eps|
    && (ev.Fire? ==> h.eps[ev.e].armed)
    && (ev.Complete? ==> h.eps[ev.e].outstanding)
    && (ev.Watch? ==> 0 < h.eps[ev.e].fired)
  }

  /** The end of ehub_xhci_urb_dequeue. */
  function CancelEp(p: Ep, memory: bool, queued: bool): Ep {
    if p.haltPending || !memory then p
    else p.(haltPending := true, pending := p.pending + 1, armed := true,
            outstanding := queued, expired := false)
  }

  /** xhci_stop_watchdog_timer_in_irq, on completion of the command. */
  function CompleteEp(p: Ep): Ep {
    p.(haltPending := false, outstanding := false,
       pending := if p.armed then p.pending - 1 else p.pending,
       armed := false)
  }

  function Step(h: Host, ev: Event): Host
    requires Enabled(h, ev)
  {
    var p := h.eps[ev.e];
    match ev
    case Cancel(e, memory, queued) =>
      if h.dying then h else h.(eps := h.eps[e := CancelEp(p, memory, queued)])
    case Fire(e) =>
      h.(eps := h.eps[e := p.(armed := false, fired := p.fired + 1, expired := true)])
    case Complete(e) => h.(eps := h.eps[e := CompleteEp(p)])
    case Watch(e) =>
      var q := p.(pending := p.pending - 1, fired := p.fired - 1);
      Host(h.eps[e := q], h.dying || (q.pending == 0 && q.haltPending))
  }

  lemma StepKeeps(h: Host, ev: Event)
    requires Good(h) && Enabled(h, ev)
    ensures Good(Step(h, ev)) && |Step(h, ev).eps| == |h.eps|
    ensures ev.Cancel? && Step(h, ev) != h ==> !h.eps[ev.e].armed
  {
    assert EpOk(h.eps[ev.e]);
  }

  /** The watchdog declares the host dying exactly when the endpoint's latest Stop Endpoint
      command has neither completed nor any time left, and no other timer of the endpoint is
      running or waiting to be looked at. */
  lemma DiesIff(h: Host, ev: Event)
    requires Good(h) && Enabled(h, ev) && !h.dying
    ensures Step(h, ev).dying <==>
            && ev.Watch?
            && h.eps[ev.e].haltPending
            && h.eps[ev.e].expired
            && h.eps[ev.e].fired == 1
            && !h.eps[ev.e].armed
  {
    assert EpOk(h.eps[ev.e]);
  }

  // ---------------------------------------------------------------------- whole runs

  ghost predicate Runnable(h: Host, evs: seq<Event>)
    decreases |evs|
  {
    evs == [] || (Enabled(h, evs[0]) && Runnable(Step(h, evs[0]), evs[1..]))
  }

  ghost function Run(h: Host, evs: seq<Event>): (r: Host)
    requires Runnable(h, evs)
    ensures |r.eps| == |h.eps|
    decreases |evs|
  {
    if evs == [] then h else Run(Step(h, evs[0]), evs[1..])
  }

  lemma {:induction false} RunKeeps(h: Host, evs: seq<Event>)
    requires Good(h) && Runnable(h, evs)
    ensures Good(Run(h, evs))
    decreases |evs|
  {
    if evs != [] {
      StepKeeps(h, evs[0]);
      RunKeeps(Step(h, evs[0]), evs[1..]);
    }
  }

  lemma {:induction false} RunMore(h: Host, evs: seq<Event>, ev: Event)
    requires Runnable(h, evs + [ev])
    ensures Runnable(h, evs) && Enabled(Run(h, evs), ev)
    ensures Run(h, evs + [ev]) == Step(Run(h, evs), ev)
    decreases |evs|
  {
    if evs == [] {
      assert (evs + [ev])[1..] == [];
    } else {
      assert (evs + [ev])[1..] == evs[1..] + [ev];
      RunMore(Step(h, evs[0]), evs[1..], ev);
    }
  }

  // ---------------------------------------------- what the events alone say of an endpoint

  /** The latest Stop Endpoint command of an endpoint: none is pending, or it is with the
      controller, or it never got onto the command ring. */
  datatype Command = Answered | Sent | Lost

  function Latest(p: Ep): Command {
    if !p.haltPending then Answered else if p.outstanding then Sent else Lost
  }

  /** What one event does to it.  A cancellation that finds a command pending, or no memory,
      sends nothing. */
  function Told(before: Command, ev: Event, e: nat): Command {
    match ev
    case Cancel(f, memory, queued) =>
      if f == e && memory && before == Answered then (if queued then Sent else Lost) else before
    case Complete(f) => if f == e then Answered else before
    case Fire(_) => before
    case Watch(_) => before
  }

  /** The same, from the events. */
  function LatestAfter(was: Command, evs: seq<Event>, e: nat): Command
    decreases |evs|
  {
    if evs == [] then was
    else Told(LatestAfter(was, evs[..|evs| - 1], e), evs[|evs| - 1], e)
  }

  /** Whether the endpoint's timer has fired since its last command was answered. */
  function LateAfter(was: bool, evs: seq<Event>, e: nat): bool
    decreases |evs|
  {
    if evs == [] then was
    else if evs[|evs| - 1] == Fire(e) then true
    else if evs[|evs| - 1] == Complete(e) then false
    else LateAfter(was, evs[..|evs| - 1], e)
  }

  /** Timers that have fired less handlers that have run. */
  function WaitingAfter(was: int, evs: seq<Event>, e: nat): int
    decreases |evs|
  {
    if evs == [] then was
    else
      WaitingAfter(was, evs[..|evs| - 1], e) +
      (if evs[|evs| - 1] == Fire(e) then 1 else if evs[|evs| - 1] == Watch(e) then -1 else 0)
  }

  /** One event, as seen from endpoint e. */
  lemma TrackedStep(h: Host, ev: Event, e: nat)
    requires Good(h) && Enabled(h, ev) && e < |h.eps|
    ensures var p, q := h.eps[e], Step(h, ev).eps[e];
            && (q.haltPending && q.expired <==>
                  ev == Fire(e) || (ev != Complete(e) && p.haltPending && p.expired))
            && q.fired == p.fired + (if ev == Fire(e) then 1 else if ev == Watch(e) then -1 else 0)
            && (!h.dying ==> Latest(q) == Told(Latest(p), ev, e))
  {
    assert EpOk(h.eps[ev.e]);
  }

  lemma {:induction false} Tracked(h: Host, evs: seq<Event>, e: nat)
    requires Good(h) && Runnable(h, evs) && e < |h.eps|
    ensures h.dying ==> Run(h, evs).dying
    ensures var p, q := h.eps[e], Run(h, evs).eps[e];
            && (q.haltPending && q.expired) == LateAfter(p.haltPending && p.expired, evs, e)
            && q.fired == WaitingAfter(p.fired, evs, e)
            && (!Run(h, evs).dying ==> Latest(q) == LatestAfter(Latest(p), evs, e))
    decreases |evs|
  {
    if evs != [] {
      var front, ev := evs[..|evs| - 1], evs[|evs| - 1];
      assert evs == front + [ev];
      RunMore(h, front, ev);
      Tracked(h, front, e);
      RunKeeps(h, front);
      TrackedStep(Run(h, front), ev, e);
    }
  }

  /** In every run, the host is declared dying only by a handler that finds a command pending
      whose own timer has fired, with no other timer running or waiting; and the command it
      has waited for is still with the controller exactly when the last one that the
      endpoint's events should have sent did get onto the command ring. */
  lemma DyingIsJustifiedIff(h: Host, evs: seq<Event>, ev: Event)
    requires Good(h) && Runnable(h, evs)
    requires Enabled(Run(h, evs), ev) && !Run(h, evs).dying && Step(Run(h, evs), ev).dying
    ensures ev.e < |h.eps|
    ensures var p, c := Run(h, evs).eps[ev.e], LatestAfter(Latest(h.eps[ev.e]), evs, ev.e);
            && ev.Watch? && p.expired && !p.armed && p.fired == 1 && p.pending == 1
            && c != Answered
            && (p.outstanding <==> c == Sent)
  {
    RunKeeps(h, evs);
    Tracked(h, evs, ev.e);
    DiesIff(Run(h, evs), ev);
    assert EpOk(Run(h, evs).eps[ev.e]);
  }

  /** A run ends with the host declared dying if and only if some handler ran that was the
      last one waiting for its endpoint, after the endpoint's timer had fired and before any
      answer to its command. */
  lemma {:induction false} DiesIffUnanswered(h: Host, evs: seq<Event>)
    requires Good(h) && Runnable(h, evs) && !h.dying
    ensures Run(h, evs).dying <==> exists i :: 0 <= i < |evs| && Fatal(h, evs, i)
    decreases |evs|
  {
    if evs != [] {
      var n := |evs| - 1;
      var front, ev := evs[..n], evs[n];
      assert evs == front + [ev];
      RunMore(h, front, ev);
      RunKeeps(h, front);
      DiesIffUnanswered(h, front);
      assert forall i :: 0 <= i < n ==> front[..i] == evs[..i];
      assert forall i :: 0 <= i < n ==> (Fatal(h, front, i) <==> Fatal(h, evs, i));
      Tracked(h, front, ev.e);
      assert EpOk(Run(h, front).eps[ev.e]);
      assert Step(Run(h, front), ev).dying <==> Run(h, front).dying || Fatal(h, evs, n);
    }
  }

  ghost predicate Fatal(h: Host, evs: seq<Event>, i: int)
    requires 0 <= i < |evs|
  {
    var e := evs[i].e;
    && evs[i].Watch? && e < |h.eps|
    && LateAfter(h.eps[e].haltPending && h.eps[e].expired, evs[..i], e)
    && WaitingAfter(h.eps[e].fired, evs[..i], e) == 1
  }

  // ---------------------------------------------------------- deaths nobody was asked for

  /** The endpoint's timer and its handlers alone, without help from anyone, end with the host
      declared dying. */
  ghost predicate TimersKill(h: Host, e: nat, evs: seq<Event>) {
    && (forall ev :: ev in evs ==> ev == Fire(e) || ev == Watch(e))
    && Runnable(h, evs)
    && Run(h, evs).dying
  }

  lemma {:induction false} TimersKeep(h: Host, e: nat, evs: seq<Event>)
    requires e < |h.eps| && Runnable(h, evs)
    requires forall ev :: ev in evs ==> ev == Fire(e) || ev == Watch(e)
    ensures Run(h, evs).eps[e].haltPending == h.eps[e].haltPending
    ensures Run(h, evs).eps[e].outstanding == h.eps[e].outstanding
    ensures Run(h, evs).dying ==> h.dying || h.eps[e].haltPending
    decreases |evs|
  {
    if evs != [] {
      assert evs[0] in evs && forall ev :: ev in evs[1..] ==> ev in evs;
      TimersKeep(Step(h, evs[0]), e, evs[1..]);
    }
  }

  /** Letting the timer expire and running every handler that waits. */
  lemma {:induction false} Expiry(h: Host, e: nat) returns (evs: seq<Event>)
    requires Good(h) && !h.dying && e < |h.eps| && h.eps[e].haltPending
    ensures TimersKill(h, e, evs)
    decreases h.eps[e].pending, h.eps[e].armed
  {
    assert EpOk(h.eps[e]);
    var ev := if h.eps[e].armed then Fire(e) else Watch(e);
    StepKeeps(h, ev);
    if Step(h, ev).dying {
      evs := [ev];
      assert evs[1..] == [] && Run(Step(h, ev), []) == Step(h, ev);
    } else {
      var rest := Expiry(Step(h, ev), e);
      evs := [ev] + rest;
      assert evs[1..] == rest;
    }
  }

  /** Time alone can bring a host down for an endpoint if and only if a stop is pending there;
      the death is unjustified, nothing being outstanding, if and only if the pending command
      never got onto the command ring. */
  lemma UnjustifiedIffLost(h: Host, e: nat)
    requires Good(h) && !h.dying && e < |h.eps|
    ensures (exists evs :: TimersKill(h, e, evs)) <==> Latest(h.eps[e]) != Answered
    ensures (exists evs :: TimersKill(h, e, evs) && !Run(h, evs).eps[e].outstanding)
            <==> Latest(h.eps[e]) == Lost
  {
    forall evs | TimersKill(h, e, evs)
      ensures h.eps[e].haltPending && Run(h, evs).eps[e].outstanding == h.eps[e].outstanding
    {
      TimersKeep(h, e, evs);
    }
    if h.eps[e].haltPending {
      var evs := Expiry(h, e);
      TimersKeep(h, e, evs);
    }
  }

  /** A command that never got onto the command ring: the host is declared dying although the
      controller was never asked anything. */
  lemma LostCommandKills()
    ensures var h := Host([IDLE], false);
            var evs := [Cancel(0, true, false), Fire(0), Watch(0)];
            && Good(h)
            && Runnable(h, evs)
            && Run(h, evs).dying
            && !Run(h, evs).eps[0].outstanding
  {
    var h := Host([IDLE], false);
    var evs := [Cancel(0, true, false), Fire(0), Watch(0)];
    var h1 := Step(h, evs[0]);
    var h2 := Step(h1, evs[1]);
    assert evs[1..][0] == evs[1] && evs[1..][1..] == [evs[2]];
    var h3 := Step(h2, evs[2]);
    assert [evs[2]][1..] == [] && Runnable(h3, []) && Run(h3, []) == h3;
    assert Runnable(h2, [evs[2]]) && Run(h2, [evs[2]]) == h3;
    assert Runnable(h1, evs[1..]) && Run(h1, evs[1..]) == h3;
  }

  // ------------------------------------------------------------------------ the objects

  /** The host object, as the handlers update it. */
  class Controller {
    var eps: seq<Ep>
    var dying: bool

    constructor (n: nat)
      ensures Now() == Host(seq(n, _ => IDLE), false) && Good(Now())
    {
      eps, dying := seq(n, _ => IDLE), false;
    }

    ghost function Now(): Host
      reads this
    {
      Host(eps, dying)
    }

    method UrbDequeue(e: nat, memory: bool, queued: bool)
      requires Good(Now()) && e < |eps|
      modifies this
      ensures Now() == Step(old(Now()), Cancel(e, memory, queued)) && Good(Now())
    {
      StepKeeps(Now(), Cancel(e, memory, queued));
      if dying {
        return;
      }
      var p := eps[e];
      if !p.haltPending {
        if !memory {
          return;
        }
        p := p.(haltPending := true);
        p := p.(pending := p.pending + 1);
        assert !p.armed;
        p := p.(armed := true, expired := false);
        p := p.(outstanding := queued);
        eps := eps[e := p];
      }
    }

    method StopCompleted(e: nat)
      requires Good(Now()) && Enabled(Now(), Complete(e))
      modifies this
      ensures Now() == Step(old(Now()), Complete(e)) && Good(Now())
    {
      StepKeeps(Now(), Complete(e));
      var p := eps[e].(haltPending := false, outstanding := false);
      if p.armed {
        p := p.(armed := false);
        p := p.(pending := p.pending - 1);
      }
      eps := eps[e := p];
    }

    /** ehub_xhci_stop_endpoint_command_watchdog; true if it declares the host dying. */
    method Run(e: nat) returns (died: bool)
      requires Good(Now()) && Enabled(Now(), Watch(e))
      modifies this
      ensures Now() == Step(old(Now()), Watch(e)) && Good(Now())
      ensures died <==> dying && !old(dying)
    {
      StepKeeps(Now(), Watch(e));
      var p := eps[e];
      p := p.(pending := p.pending - 1, fired := p.fired - 1);
      eps := eps[e := p];
      if dying {
        return false;
      }
      if !(p.pending == 0 && p.haltPending) {
        return false;
      }
      dying := true;
      died := true;
    }
  }
}
