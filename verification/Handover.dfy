/** The handover between writer threads (`execution_deltas.py`). */
module Handover {
  // `_run`, `sync`, `shutdown`, `_stop_locked` and `_bump_generation`. Each lock acquisition,
  // generation read, sink call and return is a step of its own, and any thread may be stuck at
  // any of them.

  import opened Wrappers

  /** The declaration of a sink, module and class path; only ever compared. */
  type Key = nat

  /** What a `bootstrap` pass registers: the declaration, and the object it made for it. */
  datatype Sink = Sink(key: Key, made: nat)

  /** Where a writer thread stands in `_run`. */
  datatype Pc = Idle        // in `_take`, or about to be
              | Holding     // has a batch, waits for the handover lock
              | Locked      // holds the lock, has not compared the generation
              | Writing     // inside `sink.write`
              | Dead        // `_take` gave None, or the sink raised past `except Exception`

  /** Counts of records: `queued` now, and of those offered while the thread lived (`offered`)
      the ones taken in batches and the ones a discard cleared; `late` were offered to a thread
      that had ended. Then batches: `broken` is the one whose write ended the thread. */
  datatype Thread = Thread(sink: Sink, gen: nat, pc: Pc, stopping: bool,
                           offered: nat, queued: nat, batched: nat, cleared: nat, late: nat,
                           took: nat, wrote: nat, skipped: nat, broken: nat)

  /** Where the one caller that holds `_state_lock` stands. `next` is the sink of the worker
      that `sync` will start once the old one is gone. */
  datatype Control =
    | Free
    | Closing(next: Option<Sink>)                      // before the bump of a discarding stop
    | Emptying(next: Option<Sink>)                     // before `worker.discard()`
    | Stopping(discard: bool, next: Option<Sink>)      // before `worker.stop()`
    | Joining(discard: bool, next: Option<Sink>)       // in `join`, before `is_alive`
    | Joined(alive: bool, discard: bool, next: Option<Sink>)
    | Starting(sink: Sink)                              // before the bump for the new worker

  datatype Write = Write(w: nat, gen: nat, sink: Sink)

  datatype System = System(gen: nat, lock: Option<nat>, threads: seq<Thread>,
                           worker: Option<nat>, ctl: Control, log: seq<Write>)

  datatype Event =
    | Submit(w: nat)                 // a producer that read `_worker`, perhaps long ago
    | Take(w: nat, k: nat) | Finish(w: nat) | Lock(w: nat) | Check(w: nat) | Return(w: nat)
    | Crash(w: nat)                  // a `BaseException` of the sink, which `_run` does not catch
    | SyncOff | SyncOn(sink: Sink) | Shutdown
    | Bump | Discard | Stop | ReadAlive | EndStop | Start

  ghost predicate Init(s: System) {
    s.lock == None && s.threads == [] && s.worker == None && s.ctl == Free && s.log == []
  }

  ghost predicate At(s: System, w: nat, pc: Pc) {
    w < |s.threads| && s.threads[w].pc == pc
  }

  ghost function Move(s: System, w: nat, pc: Pc): System
    requires w < |s.threads|
  {
    s.(threads := s.threads[w := s.threads[w].(pc := pc)])
  }

  ghost function Alive(s: System): bool {
    s.worker.Some? && s.worker.value < |s.threads| && s.threads[s.worker.value].pc != Dead
  }

  ghost function Update(s: System, t: Thread): System
    requires s.worker.Some? && s.worker.value < |s.threads|
  {
    s.(threads := s.threads[s.worker.value := t])
  }

  /** The steps of the writer threads and of the producers. */
  ghost function WriterStep(s: System, ev: Event): System {
    match ev
    case Submit(w) =>
      if w >= |s.threads| then s
      else if s.threads[w].pc == Dead
      then s.(threads := s.threads[w := s.threads[w].(late := s.threads[w].late + 1)])
      else s.(threads := s.threads[w := s.threads[w].(offered := s.threads[w].offered + 1,
                                                      queued := s.threads[w].queued + 1)])
    case Take(w, k) =>
      if At(s, w, Idle) && 1 <= k <= s.threads[w].queued
      then s.(threads := s.threads[w := s.threads[w].(pc := Holding, queued := s.threads[w].queued - k,
                                                      batched := s.threads[w].batched + k,
                                                      took := s.threads[w].took + 1)]) else s
    case Finish(w) =>
      if At(s, w, Idle) && s.threads[w].stopping && s.threads[w].queued == 0 then Move(s, w, Dead) else s
    case Lock(w) =>
      if At(s, w, Holding) && s.lock == None then Move(s, w, Locked).(lock := Some(w)) else s
    case Check(w) =>
      if !At(s, w, Locked) then s
      else if s.threads[w].gen != s.gen
      then s.(lock := None, threads := s.threads[w := s.threads[w].(pc := Idle, skipped := s.threads[w].skipped + 1)])
      else Move(s, w, Writing).(log := s.log + [Write(w, s.gen, s.threads[w].sink)])
    case Return(w) =>
      if At(s, w, Writing)
      then s.(lock := None, threads := s.threads[w := s.threads[w].(pc := Idle, wrote := s.threads[w].wrote + 1)])
      else s
    case Crash(w) =>
      if At(s, w, Writing)
      then s.(lock := None, threads := s.threads[w := s.threads[w].(pc := Dead, broken := 1)])
      else s
    case _ => s
  }

  /** The steps of `sync` and `shutdown`. */
  ghost function ControlStep(s: System, ev: Event): System {
    var some := s.worker.Some? && s.worker.value < |s.threads|;
    match ev
    case SyncOff => if s.ctl == Free && some then s.(ctl := Closing(None)) else s
    case SyncOn(sink) =>
      if s.ctl != Free then s
      else if !some then s.(ctl := Starting(sink))
      else if Alive(s) && s.threads[s.worker.value].sink.key == sink.key
      then Update(s, s.threads[s.worker.value].(sink := sink))
      else s.(ctl := Closing(Some(sink)))
    case Shutdown => if s.ctl == Free && some then s.(ctl := Stopping(false, None)) else s
    case Bump =>
      if s.lock.Some? then s
      else if s.ctl.Closing? then s.(gen := s.gen + 1, ctl := Emptying(s.ctl.next))
      else if s.ctl.Joined? && !s.ctl.discard
      then s.(gen := s.gen + 1, ctl := s.ctl.(discard := true)) else s
    case Discard =>
      if s.ctl.Emptying? && some
      then
        var t := s.threads[s.worker.value];
        Update(s, t.(queued := 0, cleared := t.cleared + t.queued)).(ctl := Stopping(true, s.ctl.next))
      else s
    case Stop =>
      if s.ctl.Stopping? && some
      then Update(s, s.threads[s.worker.value].(stopping := true)).(ctl := Joining(s.ctl.discard, s.ctl.next)) else s
    case ReadAlive =>
      if s.ctl.Joining? then s.(ctl := Joined(Alive(s), s.ctl.discard, s.ctl.next)) else s
    case EndStop =>
      if !s.ctl.Joined? || !s.ctl.discard then s
      else if s.ctl.alive then s.(ctl := Free)
      else s.(worker := None, ctl := if s.ctl.next.Some? then Starting(s.ctl.next.value) else Free)
    case Start =>
      if s.ctl.Starting? && s.lock == None
      then s.(gen := s.gen + 1, worker := Some(|s.threads|), ctl := Free,
              threads := s.threads + [Thread(s.ctl.sink, s.gen + 1, Idle, false, 0, 0, 0, 0, 0, 0, 0, 0, 0)]) else s
    case _ => s
  }

  ghost function Step(s: System, ev: Event): System {
    ControlStep(WriterStep(s, ev), ev)
  }

  ghost function Exec(s: System, events: seq<Event>): System
    decreases |events|
  {
    if events == [] then s else Exec(Step(s, events[0]), events[1..])
  }

  // ----- the invariant ---------------------------------------------------------------------

  ghost predicate InSection(t: Thread) { t.pc == Locked || t.pc == Writing }

  ghost predicate HasBatch(t: Thread) { t.pc == Holding || InSection(t) }

  ghost predicate ThreadOk(s: System, w: nat)
    requires w < |s.threads|
  {
    var t := s.threads[w];
    t.gen <= s.gen && (InSection(t) <==> s.lock == Some(w)) && (t.pc == Writing ==> t.gen == s.gen) &&
    (t.pc != Dead ==> s.worker == Some(w)) && (t.pc == Dead ==> t.stopping || t.broken == 1) &&
    (t.gen == s.gen ==> t.skipped == 0 && t.cleared == 0)
  }

  /** Batches are written, skipped, broken or in hand; records are queued, batched or cleared. */
  ghost predicate Accounted(t: Thread) {
    t.took == t.wrote + t.skipped + t.broken + (if HasBatch(t) then 1 else 0) &&
    (t.pc != Dead ==> t.broken == 0) && t.broken <= 1 &&
    t.offered == t.queued + t.batched + t.cleared && (t.pc == Dead && t.broken == 0 ==> t.queued == 0)
  }

  /** The worker that a discarding stop has shut out. */
  ghost predicate Shut(s: System) {
    s.ctl.Emptying? || (s.ctl.Stopping? && s.ctl.discard) || (s.ctl.Joining? && s.ctl.discard) ||
    (s.ctl.Joined? && s.ctl.discard)
  }

  ghost predicate AllAccounted(s: System) {
    forall w :: 0 <= w < |s.threads| ==> Accounted(s.threads[w])
  }

  ghost predicate Inv(s: System) {
    AllAccounted(s) &&
    (forall w :: 0 <= w < |s.threads| ==> ThreadOk(s, w)) &&
    (s.lock.Some? ==> s.lock.value < |s.threads|) &&
    (s.worker.Some? ==> s.worker.value < |s.threads|) &&
    (s.ctl != Free && !s.ctl.Starting? ==> s.worker.Some?) &&
    (s.ctl.Starting? ==> s.worker == None) &&
    (Shut(s) ==> s.threads[s.worker.value].gen < s.gen) &&
    (s.ctl.Joined? && !s.ctl.alive ==> s.threads[s.worker.value].pc == Dead)
  }

  lemma WriterAccounts(s: System, ev: Event)
    requires AllAccounted(s)
    ensures AllAccounted(WriterStep(s, ev))
  {
  }

  lemma WriterKeepsRest(s: System, ev: Event)
    ensures var t := WriterStep(s, ev);
            |t.threads| == |s.threads| && t.gen == s.gen && t.worker == s.worker && t.ctl == s.ctl
  {
  }

  lemma WriterKeepsThread(s: System, ev: Event, w: nat)
    requires Inv(s) && w < |s.threads|
    ensures w < |WriterStep(s, ev).threads| && ThreadOk(WriterStep(s, ev), w)
  {
    assert ThreadOk(s, w);
    assert (ev.Check? || ev.Return? || ev.Crash?) && ev.w < |s.threads| ==> ThreadOk(s, ev.w);
  }

  lemma WriterKeepsInv(s: System, ev: Event)
    requires Inv(s)
    ensures Inv(WriterStep(s, ev))
    ensures WriterStep(s, ev).ctl == s.ctl && WriterStep(s, ev).gen == s.gen
  {
    WriterAccounts(s, ev);
    WriterKeepsRest(s, ev);
    forall w | 0 <= w < |s.threads| ensures ThreadOk(WriterStep(s, ev), w) { WriterKeepsThread(s, ev, w); }
    if s.worker.Some? {
      WriterKeepsThread(s, ev, s.worker.value);
      WriterKeepsWorker(s, ev);
    }
  }

  lemma WriterKeepsWorker(s: System, ev: Event)
    requires Inv(s) && s.worker.Some?
    ensures var w, t := s.worker.value, WriterStep(s, ev);
      w < |t.threads| && t.threads[w].gen == s.threads[w].gen && (s.threads[w].pc == Dead ==> t.threads[w].pc == Dead)
  {
  }

  lemma ControlKeepsInv(s: System, ev: Event)
    requires Inv(s)
    ensures Inv(ControlStep(s, ev))
  {
    var t := ControlStep(s, ev);
    assert s.worker.Some? ==> ThreadOk(s, s.worker.value);
    forall w | 0 <= w < |t.threads| ensures ThreadOk(t, w) { ControlKeepsThread(s, ev, w); }
  }

  lemma ControlKeepsThread(s: System, ev: Event, w: nat)
    requires Inv(s) && w < |ControlStep(s, ev).threads|
    ensures ThreadOk(ControlStep(s, ev), w)
  {
    if w < |s.threads| { assert ThreadOk(s, w); }
  }

  lemma {:induction false} InvHolds(s: System, events: seq<Event>)
    requires Inv(s)
    ensures Inv(Exec(s, events))
    decreases |events|
  {
    if events != [] {
      WriterKeepsInv(s, events[0]);
      ControlKeepsInv(WriterStep(s, events[0]), events[0]);
      InvHolds(Step(s, events[0]), events[1..]);
    }
  }

  /** What some run of the threads leads to. */
  ghost predicate Reachable(t: System) {
    exists s: System, events: seq<Event> :: Init(s) && Exec(s, events) == t
  }

  lemma ReachableInv(t: System)
    requires Reachable(t)
    ensures Inv(t)
  {
    var s: System, events: seq<Event> :| Init(s) && Exec(s, events) == t;
    InvHolds(s, events);
  }

  // ----- the guarantees ----------------------------------------------------------------------

  /** A sink write runs under the handover lock and with its worker's generation current, from
      the check to the return: no step can move the generation while it runs. */
  lemma WritesAreCurrent(t: System, w: nat)
    requires Reachable(t) && At(t, w, Writing)
    ensures t.lock == Some(w) && t.threads[w].gen == t.gen
    ensures forall ev :: Step(t, ev).gen == t.gen
  {
    ReachableInv(t);
    assert ThreadOk(t, w);
    forall ev ensures Step(t, ev).gen == t.gen {
      assert ev.Bump? || ev.Start? ==> WriterStep(t, ev) == t;
    }
  }

  /** At most one thread lives at any time, so a replacement starts only after its
      predecessor died. */
  lemma OneThreadLives(t: System, v: nat, w: nat)
    requires Reachable(t)
    requires v < |t.threads| && t.threads[v].pc != Dead && w < |t.threads| && t.threads[w].pc != Dead
    ensures v == w
  {
    ReachableInv(t);
    assert ThreadOk(t, v) && ThreadOk(t, w);
  }

  ghost function WritesBy(log: seq<Write>, w: nat): seq<Write> {
    if log == [] then []
    else WritesBy(log[..|log| - 1], w) + (if log[|log| - 1].w == w then [log[|log| - 1]] else [])
  }

  lemma WriterKeepsShut(s: System, ev: Event, w: nat)
    requires Inv(s) && w < |s.threads| && s.threads[w].gen < s.gen
    ensures var t := WriterStep(s, ev);
            w < |t.threads| && t.threads[w].gen < t.gen && WritesBy(t.log, w) == WritesBy(s.log, w)
  {
    assert ThreadOk(s, w);
    if ev.Check? && At(s, ev.w, Locked) && s.threads[ev.w].gen == s.gen {
      assert (s.log + [Write(ev.w, s.gen, s.threads[ev.w].sink)])[..|s.log|] == s.log;
    }
  }

  lemma StepKeepsShut(s: System, ev: Event, w: nat)
    requires Inv(s) && w < |s.threads| && s.threads[w].gen < s.gen
    ensures var t := Step(s, ev);
            w < |t.threads| && t.threads[w].gen < t.gen && WritesBy(t.log, w) == WritesBy(s.log, w)
  {
    WriterKeepsShut(s, ev, w);
    ControlKeepsGens(WriterStep(s, ev), ev, w);
  }

  lemma ControlKeepsGens(s: System, ev: Event, w: nat)
    requires w < |s.threads|
    ensures var t := ControlStep(s, ev);
            w < |t.threads| && t.threads[w].gen == s.threads[w].gen && s.gen <= t.gen && t.log == s.log
  {
  }

  /** Once its generation is behind, a worker never writes again, over any continuation. */
  lemma {:induction false} NoWriteOnceBehind(s: System, events: seq<Event>, w: nat)
    requires Inv(s) && w < |s.threads| && s.threads[w].gen < s.gen
    ensures WritesBy(Exec(s, events).log, w) == WritesBy(s.log, w)
    decreases |events|
  {
    if events != [] {
      StepKeepsShut(s, events[0], w);
      WriterKeepsInv(s, events[0]);
      ControlKeepsInv(WriterStep(s, events[0]), events[0]);
      NoWriteOnceBehind(Step(s, events[0]), events[1..], w);
    }
  }

  /** A stop has closed its worker's door before it returns, even when the thread outlived the
      join: from the moment `EndStop` runs, that worker writes nothing more. */
  lemma NoWriteAfterStop(t: System, after: seq<Event>)
    requires Reachable(t) && t.ctl.Joined? && t.ctl.discard
    ensures t.worker.Some?
    ensures WritesBy(Exec(Step(t, EndStop), after).log, t.worker.value) == WritesBy(t.log, t.worker.value)
  {
    ReachableInv(t);
    var w := t.worker.value;
    StepKeepsShut(t, EndStop, w);
    WriterKeepsInv(t, EndStop);
    ControlKeepsInv(WriterStep(t, EndStop), EndStop);
    NoWriteOnceBehind(Step(t, EndStop), after, w);
  }

  /** For a discarding stop the door closes earlier: right after its first bump, before the
      queue is emptied and before the thread gets another chance at the sink. */
  lemma DiscardClosesTheDoorFirst(t: System, after: seq<Event>)
    requires Reachable(t) && t.ctl.Emptying?
    ensures t.worker.Some?
    ensures WritesBy(Exec(t, after).log, t.worker.value) == WritesBy(t.log, t.worker.value)
  {
    ReachableInv(t);
    NoWriteOnceBehind(t, after, t.worker.value);
  }

  /** What its discard clears is all that was queued, and only that. */
  lemma DiscardEmpties(t: System)
    requires Reachable(t) && t.ctl.Emptying?
    ensures t.worker.Some? && t.worker.value < |t.threads| == |Step(t, Discard).threads|
    ensures var w := t.worker.value; var was, now := t.threads[w], Step(t, Discard).threads[w];
      && now == was.(queued := 0, cleared := was.cleared + was.queued)
      && forall v :: 0 <= v < |t.threads| && v != w ==> Step(t, Discard).threads[v] == t.threads[v]
  {
    ReachableInv(t);
  }

  /** A shutdown drains: when its join finds the thread dead, nothing is queued, every record
      that was offered while the thread lived was in a batch, and every batch was written, unless
      an earlier stop had already shut the worker out, or a write ended the thread: then all
      batches but that one were written, and what was queued behind it was not. */
  lemma ShutdownDrains(t: System)
    requires Reachable(t) && t.ctl.Joined? && !t.ctl.alive && !t.ctl.discard
    ensures t.worker.Some? && t.worker.value < |t.threads|
    ensures var thread := t.threads[t.worker.value];
      && (thread.broken == 0 ==> thread.queued == 0)
      && (thread.gen == t.gen ==>
           thread.batched + thread.queued == thread.offered && thread.wrote + thread.broken == thread.took)
      && (thread.gen == t.gen && thread.broken == 0 ==>
           thread.batched == thread.offered && thread.wrote == thread.took)
  {
    ReachableInv(t);
    assert ThreadOk(t, t.worker.value) && Accounted(t.threads[t.worker.value]);
  }

  // ----- what a `sync` and a `shutdown` leave -------------------------------------------------

  /** The events end where the caller that stands in the middle of a call first returns. */
  ghost predicate ToReturn(s: System, events: seq<Event>)
    decreases |events|
  {
    if s.ctl == Free then events == [] else events != [] && ToReturn(Step(s, events[0]), events[1..])
  }

  /** On the way a stop looked at its thread after the join, and the thread was not dead. */
  ghost predicate FoundAlive(s: System, events: seq<Event>)
    decreases |events|
  {
    events != [] && (FindsAlive(s, events[0]) || FoundAlive(Step(s, events[0]), events[1..]))
  }

  predicate FindsAlive(s: System, ev: Event) {
    ev == ReadAlive && s.ctl.Joining? && s.worker.Some? && s.worker.value < |s.threads| &&
    s.threads[s.worker.value].pc != Dead
  }

  /** The caller has noted so, or will. */
  ghost predicate Outlived(s: System, events: seq<Event>)
    decreases |events|
  {
    (s.ctl.Joined? && s.ctl.alive) || (events != [] && Outlived(Step(s, events[0]), events[1..]))
  }

  /** Under way from a worker to the next one, or to none. */
  ghost predicate Underway(s: System, w: nat, next: Option<Sink>) {
    match s.ctl
    case Free => false
    case Starting(sink) => s.worker == None && next == Some(sink)
    case Closing(n) => s.worker == Some(w) && n == next
    case Emptying(n) => s.worker == Some(w) && n == next
    case Stopping(_, n) => s.worker == Some(w) && n == next
    case Joining(_, n) => s.worker == Some(w) && n == next
    case Joined(_, _, n) => s.worker == Some(w) && n == next
  }

  /** The same threads with the same sinks, and the dead ones still dead. */
  ghost predicate KeepsThreads(s: System, t: System) {
    |s.threads| <= |t.threads| &&
    forall v :: 0 <= v < |s.threads| ==>
      t.threads[v].sink == s.threads[v].sink && t.threads[v].gen == s.threads[v].gen &&
      (s.threads[v].pc == Dead ==> t.threads[v].pc == Dead)
  }

  lemma StepKeepsThreads(s: System, ev: Event)
    requires s.ctl != Free
    ensures KeepsThreads(s, Step(s, ev))
  {
    assert KeepsThreads(s, WriterStep(s, ev));
    assert KeepsThreads(WriterStep(s, ev), ControlStep(WriterStep(s, ev), ev));
  }

  /** Where a return leaves the worker. `others` counts the threads there were before. */
  ghost predicate Arrived(t: System, others: nat, w: nat, next: Option<Sink>, outlived: bool) {
    if outlived then t.worker == Some(w) && |t.threads| == others
    else match next
      case None => t.worker == None && |t.threads| == others
      case Some(sink) => t.worker == Some(others) && |t.threads| == others + 1 &&
                         t.threads[others] == Thread(sink, t.gen, Idle, false, 0, 0, 0, 0, 0, 0, 0, 0, 0)
  }

  /** One step of a caller under way: it stays on the way, or returns where it was to go. */
  lemma StepOfTheWay(s: System, ev: Event, w: nat, next: Option<Sink>)
    requires Inv(s) && Underway(s, w, next)
    ensures var t := Step(s, ev);
      && Inv(t) && KeepsThreads(s, t)
      && (t.ctl != Free ==> Underway(t, w, next) && |t.threads| == |s.threads|)
      && (t.ctl == Free ==> Arrived(t, |s.threads|, w, next, s.ctl.Joined? && s.ctl.alive))
      && (s.ctl.Joined? && s.ctl.alive && t.ctl != Free ==> t.ctl.Joined? && t.ctl.alive)
  {
    WriterKeepsInv(s, ev);
    ControlKeepsInv(WriterStep(s, ev), ev);
    StepKeepsThreads(s, ev);
  }

  /** It notes what it finds, and nothing else. */
  lemma StepNotes(s: System, ev: Event)
    requires Inv(s) && !(s.ctl.Joined? && s.ctl.alive)
    ensures Step(s, ev).ctl.Joined? && Step(s, ev).ctl.alive <==> FindsAlive(s, ev)
  {
    WriterKeepsInv(s, ev);
  }

  /** The whole way: the thread that outlived its join stays the worker, else the next one is,
      or there is none; and a thread that was dead before does not outlive anything. */
  lemma {:induction false} TheWay(s: System, events: seq<Event>, w: nat, next: Option<Sink>)
    requires Inv(s) && Underway(s, w, next) && ToReturn(s, events)
    ensures var t := Exec(s, events);
      && KeepsThreads(s, t) && t.ctl == Free
      && Arrived(t, |s.threads|, w, next, Outlived(s, events))
      && (!(s.ctl.Joined? && s.ctl.alive) && (w < |s.threads| ==> s.threads[w].pc == Dead) ==> !Outlived(s, events))
    decreases |events|
  {
    var m := Step(s, events[0]);
    StepOfTheWay(s, events[0], w, next);
    if !(s.ctl.Joined? && s.ctl.alive) { StepNotes(s, events[0]); }
    if m.ctl == Free {
      assert events[1..] == [] && Exec(m, events[1..]) == m && !Outlived(m, events[1..]);
    } else {
      TheWay(m, events[1..], w, next);
    }
  }

  lemma {:induction false} OutlivedIsFound(s: System, events: seq<Event>, w: nat, next: Option<Sink>)
    requires Inv(s) && Underway(s, w, next) && ToReturn(s, events) && !(s.ctl.Joined? && s.ctl.alive)
    ensures Outlived(s, events) <==> FoundAlive(s, events)
    decreases |events|
  {
    var m := Step(s, events[0]);
    StepOfTheWay(s, events[0], w, next);
    StepNotes(s, events[0]);
    if m.ctl == Free {
      assert events[1..] == [] && !Outlived(m, events[1..]) && !FoundAlive(m, events[1..]);
    } else if !FindsAlive(s, events[0]) {
      OutlivedIsFound(m, events[1..], w, next);
    }
  }

  /** The same declaration with a new object while its worker lives: that worker goes on, with
      the object adopted, and nothing else changes. */
  lemma SyncAdopts(s: System, sink: Sink, w: nat)
    requires Reachable(s) && s.ctl == Free && s.worker == Some(w) && w < |s.threads|
    requires s.threads[w].pc != Dead && s.threads[w].sink.key == sink.key
    ensures Step(s, SyncOn(sink)) == s.(threads := s.threads[w := s.threads[w].(sink := sink)])
  {
  }

  /** What `sync` with a sink leaves behind when it returns, whatever the threads do meanwhile.
      If the worker's thread lives and has this declaration, it goes on with the new object and
      the call ends at once. If not, a new thread with this sink is the worker, and the only one
      alive, exactly if no stop found the old thread alive after its join; else the old one
      stays, and no other is started. */
  lemma SyncReplaces(s: System, sink: Sink, events: seq<Event>)
    requires Reachable(s) && s.ctl == Free && ToReturn(Step(s, SyncOn(sink)), events)
    ensures var m, t := Step(s, SyncOn(sink)), Exec(Step(s, SyncOn(sink)), events);
            var goesOn := Alive(s) && s.threads[s.worker.value].sink.key == sink.key;
      && t.ctl == Free
      && (Serves(t, sink) <==> !FoundAlive(m, events))
      && (goesOn ==> events == [] && t.worker == s.worker && |t.threads| == |s.threads|)
      && (!goesOn && !FoundAlive(m, events) ==>
           && t.worker == Some(|s.threads|) && |t.threads| == |s.threads| + 1
           && t.threads[|s.threads|] == Thread(sink, t.gen, Idle, false, 0, 0, 0, 0, 0, 0, 0, 0, 0)
           && forall w :: 0 <= w < |s.threads| ==> t.threads[w].pc == Dead)
      && (FoundAlive(m, events) ==> Alive(s) && t.worker == s.worker && |t.threads| == |s.threads|)
  {
    ReachableInv(s);
    WriterKeepsInv(s, SyncOn(sink));
    ControlKeepsInv(s, SyncOn(sink));
    var m := Step(s, SyncOn(sink));
    if m.ctl != Free {
      var w := if s.worker.Some? then s.worker.value else |s.threads|;
      TheWay(m, events, w, Some(sink));
      OutlivedIsFound(m, events, w, Some(sink));
      InvHolds(m, events);
      OthersAreDead(Exec(m, events));
      assert m.threads == s.threads && KeepsThreads(m, Exec(m, events));
    } else {
      assert events == [] && Exec(m, events) == m;
    }
  }

  ghost predicate Serves(s: System, sink: Sink) {
    s.worker.Some? && s.worker.value < |s.threads| && s.threads[s.worker.value].sink == sink
  }

  lemma OthersAreDead(s: System)
    requires Inv(s)
    ensures forall w :: 0 <= w < |s.threads| && s.worker != Some(w) ==> s.threads[w].pc == Dead
  {
    forall w | 0 <= w < |s.threads| && s.worker != Some(w) ensures s.threads[w].pc == Dead {
      assert ThreadOk(s, w);
    }
  }

  /** `sync` without a sink, and `shutdown`: afterwards there is no worker and no thread alive,
      exactly if no stop found the thread alive after its join. */
  lemma StopLeavesNone(s: System, ev: Event, events: seq<Event>)
    requires Reachable(s) && s.ctl == Free && (ev.SyncOff? || ev.Shutdown?) && ToReturn(Step(s, ev), events)
    ensures var m, t := Step(s, ev), Exec(Step(s, ev), events);
      && t.ctl == Free && |t.threads| == |s.threads|
      && (t.worker == None <==> !FoundAlive(m, events))
      && (t.worker == None ==> forall w :: 0 <= w < |s.threads| ==> t.threads[w].pc == Dead)
      && (FoundAlive(m, events) ==> Alive(s) && t.worker == s.worker)
  {
    ReachableInv(s);
    WriterKeepsInv(s, ev);
    ControlKeepsInv(s, ev);
    var m := Step(s, ev);
    if m.ctl != Free {
      TheWay(m, events, s.worker.value, None);
      OutlivedIsFound(m, events, s.worker.value, None);
    }
    InvHolds(m, events);
    OthersAreDead(Exec(m, events));
  }

  /** On the way of a shutdown nothing is cleared, and nothing is skipped while the worker's
      generation was current when it began. */
  ghost predicate Draining(s: System, w: nat, cleared: nat, current: bool) {
    s.worker == Some(w) && w < |s.threads| && s.threads[w].cleared == cleared &&
    (s.ctl == Stopping(false, None) || s.ctl == Joining(false, None) || (s.ctl.Joined? && s.ctl.next == None)) &&
    (current ==> s.threads[w].skipped == 0) &&
    (current && s.threads[w].gen != s.gen ==> s.ctl.Joined? && (s.ctl.alive || s.threads[w].pc == Dead))
  }

  lemma StepDrains(s: System, ev: Event, w: nat, cleared: nat, current: bool)
    requires Inv(s) && Draining(s, w, cleared, current) && !(s.ctl.Joined? && s.ctl.alive)
    ensures var t := Step(s, ev);
      && Inv(t) && w < |t.threads| && t.threads[w].cleared == cleared && (current ==> t.threads[w].skipped == 0)
      && (t.ctl != Free ==> Draining(t, w, cleared, current))
  {
    assert ThreadOk(s, w);
    WriterKeepsInv(s, ev);
    WriterDrains(s, ev, w, cleared, current);
    ControlKeepsInv(WriterStep(s, ev), ev);
  }

  lemma WriterDrains(s: System, ev: Event, w: nat, cleared: nat, current: bool)
    requires Inv(s) && Draining(s, w, cleared, current) && !(s.ctl.Joined? && s.ctl.alive)
    ensures Draining(WriterStep(s, ev), w, cleared, current)
  {
    assert ThreadOk(s, w);
  }

  lemma {:induction false} WayDrains(s: System, events: seq<Event>, w: nat, cleared: nat, current: bool)
    requires Inv(s) && Draining(s, w, cleared, current) && ToReturn(s, events) && !Outlived(s, events)
    ensures var t := Exec(s, events);
            Inv(t) && w < |t.threads| && t.threads[w].cleared == cleared && (current ==> t.threads[w].skipped == 0)
    decreases |events|
  {
    var m := Step(s, events[0]);
    StepDrains(s, events[0], w, cleared, current);
    if m.ctl == Free {
      assert events[1..] == [] && Exec(m, events[1..]) == m;
    } else {
      WayDrains(m, events[1..], w, cleared, current);
    }
  }

  /** A shutdown as a whole drains: it discards nothing, and if it finds the thread dead, every
      record offered while that lived and cleared by no earlier stop was in a batch, and every
      batch was written if the worker's generation was current, but for the one whose write
      ended the thread and what was queued behind it. */
  lemma ShutdownWritesAll(s: System, events: seq<Event>, w: nat)
    requires Reachable(s) && s.ctl == Free && s.worker == Some(w)
    requires ToReturn(Step(s, Shutdown), events) && !FoundAlive(Step(s, Shutdown), events)
    ensures w < |s.threads| && w < |Exec(Step(s, Shutdown), events).threads|
    ensures var thread := Exec(Step(s, Shutdown), events).threads[w];
      && thread.pc == Dead && thread.cleared == s.threads[w].cleared
      && (thread.broken == 0 ==> thread.batched + thread.cleared == thread.offered)
      && (s.threads[w].gen == s.gen ==> thread.wrote + thread.broken == thread.took)
  {
    ReachableInv(s);
    WriterKeepsInv(s, Shutdown);
    ControlKeepsInv(s, Shutdown);
    var m := Step(s, Shutdown);
    assert ThreadOk(s, w);
    OutlivedIsFound(m, events, w, None);
    WayDrains(m, events, w, s.threads[w].cleared, s.threads[w].gen == s.gen);
    StopLeavesNone(s, Shutdown, events);
    var t := Exec(m, events);
    assert Accounted(t.threads[w]);
  }
}
