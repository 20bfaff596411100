/** Resuming a run from a checkpoint file: what the pending gate and the guards become. */
module Checkpoints {
  import opened Options
  import opened RunTypes
  import opened RunSessions
  import opened RunGuards

  /** Session events. Only gate events are read back; a registration may lack its id. */
  datatype SessionEvent =
    | GateRegistered(id: Option<string>)
    | GateDecided(decided: string, backtrack: bool)
    | OtherEvent

  predicate IsGateEvent(e: SessionEvent) { e.GateRegistered? || e.GateDecided? }

  // ----- One slot, threaded through the events from front to back -----

  type Slot = Option<string>

  function Threaded(slot: Slot, events: seq<SessionEvent>, step: (Slot, SessionEvent) -> Slot): Slot
    decreases |events|
  {
    if events == [] then slot else Threaded(step(slot, events[0]), events[1..], step)
  }

  lemma {:induction false} ThreadedSnoc(slot: Slot, events: seq<SessionEvent>, e: SessionEvent,
                                        step: (Slot, SessionEvent) -> Slot)
    ensures Threaded(slot, events + [e], step) == step(Threaded(slot, events, step), e)
    decreases |events|
  {
    if events == [] {
      assert ([] + [e])[1..] == [];
    } else {
      assert (events + [e])[1..] == events[1..] + [e];
      ThreadedSnoc(step(slot, events[0]), events[1..], e, step);
    }
  }

  /** Any decision clears the slot. */
  function AnyDecision(slot: Slot, e: SessionEvent): Slot {
    match e
    case GateRegistered(id) => id
    case GateDecided(_, _) => None
    case OtherEvent => slot
  }

  /** A decision clears the slot only when it names the pending gate. */
  function NamedDecision(slot: Slot, e: SessionEvent): Slot {
    match e
    case GateRegistered(id) => id
    case GateDecided(id, _) => if slot == Some(id) then None else slot
    case OtherEvent => slot
  }

  /** Forward replay through a slot that a registration sets and a decision clears. */
  function Replayed(events: seq<SessionEvent>): Slot { Threaded(None, events, AnyDecision) }

  /** The slot of the live run. */
  function LiveSlot(events: seq<SessionEvent>): Slot { Threaded(None, events, NamedDecision) }

  /** The reverse scan of the checkpoint resume, which stops at the last gate event, finds what
      replaying all events forward leaves in the slot. */
  method RestoreGate(events: seq<SessionEvent>) returns (pending: Slot)
    ensures pending == Threaded(None, events, AnyDecision)
  {
    var last: Option<SessionEvent> := None;
    var i := |events|;
    assert events[..i] == events;
    while i > 0
      invariant 0 <= i <= |events|
      invariant last == None
      invariant Replayed(events) == Replayed(events[..i])
    {
      i := i - 1;
      assert events[..i + 1] == events[..i] + [events[i]];
      ThreadedSnoc(None, events[..i], events[i], AnyDecision);
      if IsGateEvent(events[i]) {
        last := Some(events[i]);
        break;
      }
    }
    if last.Some? && last.value.GateRegistered? {
      return last.value.id;
    }
    return None;
  }

  /** The last gate event is a decision about another gate than the one then pending. */
  predicate StrayDecision(events: seq<SessionEvent>) {
    events != [] &&
    (var last, before := events[|events| - 1], events[..|events| - 1];
     match last
     case GateRegistered(_) => false
     case GateDecided(id, _) => LiveSlot(before).Some? && LiveSlot(before) != Some(id)
     case OtherEvent => StrayDecision(before))
  }

  /** The resumed run waits for the gate the live run waits for, unless the last gate event
      was a decision about a different gate: then the live run still waits and the resumed
      one does not. */
  lemma {:induction false} RestoredGateExact(events: seq<SessionEvent>)
    ensures Replayed(events) == LiveSlot(events) <==> !StrayDecision(events)
    ensures StrayDecision(events) ==> Replayed(events) == None && LiveSlot(events).Some?
  {
    if events != [] {
      var before, last := events[..|events| - 1], events[|events| - 1];
      assert events == before + [last];
      ThreadedSnoc(None, before, last, AnyDecision);
      ThreadedSnoc(None, before, last, NamedDecision);
      RestoredGateExact(before);
    }
  }

  // ----- The guards of a resumed run -----

  /** The events that a run's gate steps append to its session. */
  function EventsOf(past: seq<Op>): seq<SessionEvent> {
    if past == [] then []
    else
      (match past[0]
       case StageCall(_, _, _) => [OtherEvent]
       case RegisterGate(id) => [GateRegistered(Some(id))]
       case ResumeGate(id, backtrack) => [GateDecided(id, backtrack)])
      + EventsOf(past[1..])
  }

  /** The live run was ended by a backtrack decision. */
  predicate Backtracked(events: seq<SessionEvent>) {
    exists i :: 0 <= i < |events| && events[i].GateDecided? && events[i].backtrack
  }

  /** The session events tell the flags of the live run. */
  lemma {:induction false} EventsTellFlags(cfg: Config, deadline: Option<int>, r: Run, past: seq<Op>)
    ensures var q := RunOps(cfg, deadline, r, past);
      && q.gate == Threaded(r.gate, EventsOf(past), NamedDecision)
      && (q.terminated <==> r.terminated || Backtracked(EventsOf(past)))
    decreases |past|
  {
    if past != [] {
      var one := RunOp(cfg, deadline, r, past[0]);
      EventsTellFlags(cfg, deadline, one, past[1..]);
      var events, rest := EventsOf(past), EventsOf(past[1..]);
      assert events[1..] == rest;
      assert forall i :: 1 <= i < |events| ==> events[i] == rest[i - 1];
      assert forall i :: 0 <= i < |rest| ==> rest[i] == events[i + 1];
      assert one.gate == NamedDecision(r.gate, events[0]);
    }
  }

  /** Gates and terminated flags evolve alike from equal flags, whatever the two runs do
      otherwise and whatever deadline they have. */
  lemma {:induction false} FlagsAlike(cfg: Config, deadline: Option<int>, r: Run, cfg': Config, deadline': Option<int>,
                                      q: Run, ops: seq<Op>)
    requires r.terminated == q.terminated && r.gate == q.gate
    ensures var r', q' := RunOps(cfg, deadline, r, ops), RunOps(cfg', deadline', q, ops);
      r'.terminated == q'.terminated && r'.gate == q'.gate
    decreases |ops|
  {
    hide SessionStep;
    if ops != [] {
      FlagsAlike(cfg, deadline, RunOp(cfg, deadline, r, ops[0]),
                 cfg', deadline', RunOp(cfg', deadline', q, ops[0]), ops[1..]);
    }
  }

  /** Every later call meets the same guard in both runs, whatever happens in between. */
  ghost predicate GuardedAlike(cfg: Config, deadline: Option<int>, r: Run, cfg': Config, deadline': Option<int>,
                               q: Run)
  {
    forall ops, now, cancelled ::
      GuardOf(deadline, RunOps(cfg, deadline, r, ops), now, cancelled)
      == GuardOf(deadline', RunOps(cfg', deadline', q, ops), now, cancelled)
  }

  /** The resumed executor is not terminated, waits for the gate that the scan finds, and works
      under a rebuilt contract without a deadline. Over every continuation it is guarded like
      the live run, which went through `past`, exactly when no decision was a backtrack, the
      last gate event was no stray decision, and the live run has no deadline at all; a
      pending gate hides a deadline only until it is resolved. */
  lemma ResumedGuardExact(cfg: Config, deadline: Option<int>, start: Run, past: seq<Op>, cfg': Config, q: Run)
    requires !start.terminated && start.gate.None?
    requires !q.terminated && q.gate == Replayed(EventsOf(past))
    ensures GuardedAlike(cfg, deadline, RunOps(cfg, deadline, start, past), cfg', None, q)
       <==> !Backtracked(EventsOf(past)) && !StrayDecision(EventsOf(past)) && deadline.None?
  {
    hide RunOps, Backtracked, StrayDecision;
    EventsTellFlags(cfg, deadline, start, past);
    RestoredGateExact(EventsOf(past));
    var r := RunOps(cfg, deadline, start, past);
    if r.terminated == q.terminated && r.gate == q.gate && deadline.None? {
      forall ops, now, cancelled
        ensures GuardOf(deadline, RunOps(cfg, deadline, r, ops), now, cancelled)
             == GuardOf(None, RunOps(cfg', None, q, ops), now, cancelled)
      {
        FlagsAlike(cfg, deadline, r, cfg', None, q, ops);
      }
    } else if GuardedAlike(cfg, deadline, r, cfg', None, q) {
      AlikeMeans(cfg, deadline, r, cfg', q);
      assert false;
    }
  }

  lemma AlikeMeans(cfg: Config, deadline: Option<int>, r: Run, cfg': Config, q: Run)
    requires GuardedAlike(cfg, deadline, r, cfg', None, q) && !q.terminated
    ensures !r.terminated && r.gate == q.gate && deadline.None?
  {
    var late := if deadline.Some? then deadline.value else 0;
    assert RunOps(cfg, deadline, r, []) == r && RunOps(cfg', None, q, []) == q;
    assert GuardOf(deadline, RunOps(cfg, deadline, r, []), late, false)
        == GuardOf(None, RunOps(cfg', None, q, []), late, false);
    if q.gate.Some? {
      var answer := [ResumeGate(q.gate.value, false)];
      assert answer[1..] == [];
      var r', q' := RunOp(cfg, deadline, r, answer[0]), RunOp(cfg', None, q, answer[0]);
      assert RunOps(cfg, deadline, r, answer) == RunOps(cfg, deadline, r', []) == r';
      assert RunOps(cfg', None, q, answer) == RunOps(cfg', None, q', []) == q';
      assert GuardOf(deadline, RunOps(cfg, deadline, r, answer), late, false)
          == GuardOf(None, RunOps(cfg', None, q, answer), late, false);
    }
  }
}
