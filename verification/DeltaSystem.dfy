/** A worker with its producers: one reading thread per execution, which draws a number from the
    run's counter and only then offers the record that carries it, and the writer thread, whose
    flushes draw from the same counter in between. Every interleaving is a list of `Event`s.
    Beside the worker's own state a `System` keeps the histories the guarantees are about. */
module DeltaSystem {
  import opened Wrappers
  import opened Text
  import opened LiveText
  import opened DeltaWorker

  /** The live text of one segment so far: what its flushes cut off, and what the last one held
      back. A segment ends with its final flush, its complete fragment (`replaced`), or its
      execution. `from` is the first number its records may carry, `spoken` all the text it was
      given, and `whole` says that no piece of it met a full queue or was overflowed. */
  datatype Segment = Segment(kind: Option<Kind>, cut: string, tail: string, ended: bool,
                             from: nat, spoken: string, whole: bool, replaced: bool)

  datatype System = System(
    w: State,
    inflight: map<ExecutionId, nat>,          // drawn by a producer, not yet offered
    openings: map<ExecutionId, seq<string>>,    // the secrets each execution was opened with
    segments: map<ExecutionId, Segment>,
    taken: seq<Record>,                       // all batches, in order
    offered: seq<Record>,                     // every complete record, as it entered the queue
    dropped: seq<Record>,                     // complete records an overflow took out
    evicted: seq<Record>)                     // markers the ceiling took out

  datatype Event =
    | Draws(e: ExecutionId)
    | Offers(e: ExecutionId, kind: Kind, text: Option<string>, tool: Option<string>, now: real)
    | Speaks(e: ExecutionId, kind: Kind, piece: string, now: real)
    | Opens(e: ExecutionId, secrets: seq<string>)
    | Closes(e: ExecutionId, now: real)
    | Passes(now: real)
    | Stops

  /** A new worker: nothing buffered. It may replace another one while runs are under way, so
      counters are anywhere and numbers may be drawn already. */
  ghost predicate Init(s: System) {
    WellFormed(s.w) &&
    s.w.queue == [] && s.w.gaps == [] && s.w.pending == map[] && s.w.order == [] &&
    s.taken == [] && s.offered == [] && s.dropped == [] && s.evicted == [] &&
    s.openings == map[] && s.segments == map[] &&
    forall e :: e in s.inflight ==> e in s.w.counters && s.inflight[e] < s.w.counters[e]
  }

  ghost function SegmentOf(s: System, e: ExecutionId): Segment {
    if e in s.segments then s.segments[e] else Segment(None, "", "", true, 0, "", true, false)
  }

  ghost function FlushS(cfg: Config, s: System, e: ExecutionId, now: real, final: bool): System
    requires e in s.w.pending
  {
    var p := s.w.pending[e];
    var buffer := Join(p.parts);
    s.(w := Flush(cfg, s.w, e, now, final),
       segments := s.segments[e := SegmentOf(s, e).(
         cut := SegmentOf(s, e).cut + Out(buffer, p.secrets),
         tail := Tail(buffer, p.secrets), ended := final,
         whole := SegmentOf(s, e).whole && (|s.w.queue| < cfg.maxQueue || Out(buffer, p.secrets) == ""))])
  }

  ghost function FlushIfDueS(cfg: Config, s: System, e: ExecutionId, now: real, final: bool): System {
    if e in s.w.pending && s.w.pending[e].kind.Some? && (final || IsDue(cfg, s.w.pending[e], now))
    then FlushS(cfg, s, e, now, final) else s
  }

  ghost function FlushDueS(cfg: Config, s: System, ids: seq<ExecutionId>, now: real, final: bool): System
    decreases |ids|
  {
    if ids == [] then s
    else FlushIfDueS(cfg, FlushDueS(cfg, s, ids[..|ids| - 1], now, final), ids[|ids| - 1], now, final)
  }

  ghost function SettleS(cfg: Config, s: System, e: ExecutionId, kind: Kind, now: real): System
    requires WellFormed(s.w)
  {
    if e !in s.w.pending || s.w.pending[e].kind.None? then s
    else if SupersededBy(s.w.pending[e].kind.value) == kind
    then s.(w := Settle(cfg, s.w, e, kind, now),
            segments := s.segments[e := SegmentOf(s, e).(ended := true, replaced := true)])
    else FlushS(cfg, s, e, now, true)
  }

  /** An overflow: the oldest record goes, and its execution is marked. */
  ghost function RoomS(cfg: Config, s: System): System
    requires ValidConfig(cfg) && s.w.queue != []
  {
    var d := s.w.queue[0];
    var marks := !HasGap(s.w.gaps, d.exec) && !IsPartial(d.kind);
    s.(w := s.w.(queue := s.w.queue[1..], gaps := MarkGap(cfg, s.w.gaps, d)),
       dropped := if IsComplete(d.kind) then s.dropped + [d] else s.dropped,
       evicted := if marks && |s.w.gaps| >= cfg.maxGaps then s.evicted + [s.w.gaps[0]] else s.evicted,
       segments := Overflowed(s, d))
  }

  /** A partial record that goes takes a piece of its segment with it. */
  ghost function Overflowed(s: System, d: Record): map<ExecutionId, Segment> {
    if IsPartial(d.kind) && d.exec in s.segments && d.num >= s.segments[d.exec].from
    then s.segments[d.exec := s.segments[d.exec].(whole := false)] else s.segments
  }

  ghost function PushS(s: System, r: Record): System {
    s.(w := s.w.(queue := s.w.queue + [r]), offered := s.offered + [r])
  }

  ghost function AppendS(cfg: Config, s: System, r: Record): System
    requires ValidConfig(cfg)
  {
    PushS(if |s.w.queue| >= cfg.maxQueue then RoomS(cfg, s) else s, r)
  }

  /** The record a producer in flight offers; renumbered when a flush took a later number. */
  ghost function Numbered(s: System, r: Record): (State, Record) {
    if r.exec in s.w.pending && r.num <= s.w.pending[r.exec].last
    then (Draw(s.w, r.exec), r.(num := Counter(s.w, r.exec))) else (s.w, r)
  }

  ghost function OfferS(cfg: Config, s: System, r: Record, now: real): System
    requires ValidConfig(cfg) && WellFormed(s.w)
  {
    var settled := SettleS(cfg, s, r.exec, r.kind, now);
    var (w, numbered) := Numbered(settled, r);
    AppendS(cfg, settled.(w := w, inflight := s.inflight - {r.exec}), numbered)
  }

  ghost function BeginS(s: System, e: ExecutionId, kind: Kind, now: real): System
    requires e in s.w.pending
  {
    var seg := SegmentOf(s, e);
    if s.w.pending[e].kind.Some? then s
    else s.(w := Begin(s.w, e, kind, now),
            segments := s.segments[e := if seg.ended || seg.kind != Some(kind)
                                        then Segment(Some(kind), "", "", false, Counter(s.w, e), "", true, false)
                                        else seg])
  }

  ghost function ReopenS(cfg: Config, s: System, e: ExecutionId, kind: Kind, now: real): System
    requires e in s.w.pending
  {
    var p := s.w.pending[e];
    BeginS(if p.kind.Some? && p.kind.value != kind then FlushS(cfg, s, e, now, true) else s, e, kind, now)
  }

  ghost function FeedS(s: System, e: ExecutionId, piece: string): System
    requires e in s.w.pending
  {
    s.(w := Feed(s.w, e, piece),
       segments := s.segments[e := SegmentOf(s, e).(spoken := SegmentOf(s, e).spoken + piece)])
  }

  ghost function AbsorbS(cfg: Config, s: System, e: ExecutionId, piece: string, now: real): System
    requires e in s.w.pending
  {
    var fed := FeedS(s, e, piece);
    if fed.w.pending[e].size >= cfg.maxBytes then FlushS(cfg, fed, e, now, false) else fed
  }

  ghost function SpeakS(cfg: Config, s: System, e: ExecutionId, kind: Kind, text: string, now: real): System
    requires e in s.w.pending
  {
    AbsorbS(cfg, ReopenS(cfg, s, e, kind, now), e, Cut(cfg, text), now)
  }

  ghost function OpenS(s: System, e: ExecutionId, secrets: seq<string>): System {
    s.(w := Open(s.w, e, 1, secrets), openings := s.openings[e := secrets])
  }

  ghost function CloseS(cfg: Config, s: System, e: ExecutionId, now: real): System
    requires e in s.w.pending
  {
    var flushed := if s.w.pending[e].kind.Some? then FlushS(cfg, s, e, now, true) else s;
    flushed.(w := Close(cfg, s.w, e, now), inflight := s.inflight - {e},
             segments := if e in flushed.segments then flushed.segments[e := flushed.segments[e].(ended := true)]
                         else flushed.segments)
  }

  ghost function PassS(cfg: Config, s: System, now: real): System {
    var due := FlushDueS(cfg, s, s.w.order, now, s.w.stopping);
    var (w, r) := Pass(cfg, s.w, now);
    match r
    case Batch(records) => due.(w := w, taken := due.taken + records)
    case _ => due.(w := w)
  }

  /** One event. An event its actor cannot cause in this state changes nothing: a record with
      no number drawn for it, a second opening of an execution, text for one not open. */
  ghost function Step(cfg: Config, s: System, ev: Event): System
    requires ValidConfig(cfg) && WellFormed(s.w)
  {
    match ev
    case Draws(e) => s.(w := Draw(s.w, e), inflight := s.inflight[e := Counter(s.w, e)])
    case Offers(e, kind, text, tool, now) =>
      if e in s.inflight && IsComplete(kind)
      then OfferS(cfg, s, Record(e, s.inflight[e], kind, text, tool), now) else s
    case Speaks(e, kind, piece, now) =>
      if e in s.w.pending && IsPartial(kind) then SpeakS(cfg, s, e, kind, piece, now) else s
    case Opens(e, secrets) => if e in s.w.counters then s else OpenS(s, e, secrets)
    case Closes(e, now) => if e in s.w.pending then CloseS(cfg, s, e, now) else s
    case Passes(now) => PassS(cfg, s, now)
    case Stops => s.(w := s.w.(stopping := true))
  }

  ghost function Exec(cfg: Config, s: System, events: seq<Event>): System
    requires ValidConfig(cfg) && WellFormed(s.w)
    ensures WellFormed(Exec(cfg, s, events).w)
    decreases |events|
  {
    if events == [] then s
    else
      StepKeepsShape(cfg, s, events[0]);
      Exec(cfg, Step(cfg, s, events[0]), events[1..])
  }

  lemma {:induction false} FlushDueMatches(cfg: Config, s: System, ids: seq<ExecutionId>, now: real, final: bool)
    ensures FlushDueS(cfg, s, ids, now, final).w == FlushDue(cfg, s.w, ids, now, final)
    decreases |ids|
  {
    if ids != [] { FlushDueMatches(cfg, s, ids[..|ids| - 1], now, final); }
  }

  lemma OfferIsTheWorkers(cfg: Config, s: System, r: Record, now: real)
    requires ValidConfig(cfg) && WellFormed(s.w)
    ensures OfferS(cfg, s, r, now).w == Offer(cfg, s.w, r, now)
  {
    assert SettleS(cfg, s, r.exec, r.kind, now).w == Settle(cfg, s.w, r.exec, r.kind, now);
  }

  lemma SpeakIsTheWorkers(cfg: Config, s: System, e: ExecutionId, kind: Kind, text: string, now: real)
    requires e in s.w.pending
    ensures SpeakS(cfg, s, e, kind, text, now).w == OfferPartial(cfg, s.w, e, kind, text, now)
  {
    assert ReopenS(cfg, s, e, kind, now).w == Reopen(cfg, s.w, e, kind, now);
  }

  /** The worker inside a step does exactly what the worker's own operations compute. */
  lemma StepIsTheWorkers(cfg: Config, s: System, ev: Event)
    requires ValidConfig(cfg) && WellFormed(s.w)
    ensures ev.Draws? ==> Step(cfg, s, ev).w == Draw(s.w, ev.e)
    ensures ev.Opens? && ev.e !in s.w.counters ==> Step(cfg, s, ev).w == Open(s.w, ev.e, 1, ev.secrets)
    ensures ev.Stops? ==> Step(cfg, s, ev).w == s.w.(stopping := true)
    ensures ev.Offers? && ev.e in s.inflight && IsComplete(ev.kind) ==>
            Step(cfg, s, ev).w == Offer(cfg, s.w, Record(ev.e, s.inflight[ev.e], ev.kind, ev.text, ev.tool), ev.now)
    ensures ev.Speaks? && IsPartial(ev.kind) ==>
            Step(cfg, s, ev).w == OfferPartial(cfg, s.w, ev.e, ev.kind, ev.piece, ev.now)
    ensures ev.Closes? ==> Step(cfg, s, ev).w == Close(cfg, s.w, ev.e, ev.now)
    ensures ev.Passes? ==> Step(cfg, s, ev).w == Pass(cfg, s.w, ev.now).0
    ensures ev.Passes? ==> Step(cfg, s, ev).taken == s.taken + (match Pass(cfg, s.w, ev.now).1
                                                                case Batch(records) => records case _ => [])
  {
    match ev
    case Offers(e, kind, text, tool, now) =>
      if e in s.inflight { OfferIsTheWorkers(cfg, s, Record(e, s.inflight[e], kind, text, tool), now); }
    case Speaks(e, kind, piece, now) =>
      if e in s.w.pending { SpeakIsTheWorkers(cfg, s, e, kind, piece, now); }
    case Passes(now) =>
      FlushDueMatches(cfg, s, s.w.order, now, s.w.stopping);
      FlushDueKeepsHistory(cfg, s, s.w.order, now, s.w.stopping);
    case _ =>
  }

  lemma {:induction false} FlushDueKeepsHistory(cfg: Config, s: System, ids: seq<ExecutionId>, now: real, final: bool)
    ensures FlushDueS(cfg, s, ids, now, final).taken == s.taken
    decreases |ids|
  {
    if ids != [] { FlushDueKeepsHistory(cfg, s, ids[..|ids| - 1], now, final); }
  }

  lemma CloseKeepsShape(cfg: Config, st: State, e: ExecutionId, now: real)
    requires WellFormed(st)
    ensures WellFormed(Close(cfg, st, e, now))
  {
    WithoutDrops(st.order, e);
    if e in st.pending { FlushKeepsShape(cfg, st, e, now, true); }
  }

  lemma StepKeepsShape(cfg: Config, s: System, ev: Event)
    requires ValidConfig(cfg) && WellFormed(s.w)
    ensures WellFormed(Step(cfg, s, ev).w)
  {
    StepIsTheWorkers(cfg, s, ev);
    match ev
    case Offers(e, kind, text, tool, now) =>
      if e in s.inflight && IsComplete(kind) {
        OfferKeepsShape(cfg, s.w, Record(e, s.inflight[e], kind, text, tool), now);
      }
    case Speaks(e, kind, piece, now) =>
      if IsPartial(kind) { OfferPartialKeepsShape(cfg, s.w, e, kind, piece, now); }
    case Closes(e, now) => CloseKeepsShape(cfg, s.w, e, now);
    case Passes(now) => FlushDueKeepsShape(cfg, s.w, s.w.order, now, s.w.stopping);
    case _ =>
  }
}
