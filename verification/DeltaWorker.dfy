/** `_Worker` of `execution_deltas.py`: the bounded queue with its gap markers beside it, one
    live-text buffer per execution, and the paced batching. Every method body of the source runs
    under one condition variable, so each is one atomic step; `Spec` below says what each step
    computes, and the class is proved against it. */
module DeltaWorker {
  import opened Wrappers
  import opened Text
  import opened SecretRedaction
  import opened LiveText

  /** Only ever compared, so any type with equality would do. */
  type ExecutionId = nat

  datatype Kind = AssistantText | AssistantReasoning | AssistantPartial | ReasoningPartial
                | ToolStarted | ToolCompleted | Error | Gap

  predicate IsPartial(k: Kind) {
    k.AssistantPartial? || k.ReasoningPartial?
  }

  /** A record a producer submits whole: neither live text nor the worker's own marker. */
  predicate IsComplete(k: Kind) {
    !IsPartial(k) && k != Gap
  }

  /** `SUPERSEDED_BY`. */
  function SupersededBy(k: Kind): Kind
    requires IsPartial(k)
  {
    if k.AssistantPartial? then AssistantText else AssistantReasoning
  }

  /** `num` is the `seq` of the source, a reserved word here. */
  datatype Record = Record(exec: ExecutionId, num: nat, kind: Kind, text: Option<string>, tool: Option<string>)

  function MarkerOf(dropped: Record): Record {
    dropped.(kind := Gap, text := None, tool := None)
  }

  /** `_Pending`, less its counter: the counters of all runs are one table (`State.counters`). */
  datatype Pending = Pending(secrets: seq<string>, kind: Option<Kind>, parts: seq<string>,
                             size: nat, since: real, last: nat)

  datatype Config = Config(maxQueue: nat, maxGaps: nat, batch: nat, writeInterval: real,
                           flushMs: real, flushBytes: nat, maxBytes: nat)

  predicate ValidConfig(cfg: Config) {
    cfg.maxQueue >= 1 && cfg.maxGaps >= 1 && cfg.batch >= 1 && cfg.maxBytes >= 1 && cfg.writeInterval > 0.0
  }

  /** The dicts of the source keep their insertion order: `gaps` is the list of its values (the
      key is the record's own execution), `order` lists the keys of `pending`. */
  datatype State = State(queue: seq<Record>, gaps: seq<Record>,
                         pending: map<ExecutionId, Pending>, order: seq<ExecutionId>,
                         counters: map<ExecutionId, nat>, nextWriteAt: real, stopping: bool)

  datatype Taken = Wait | Done | Batch(records: seq<Record>)

  ghost predicate WellFormed(st: State) {
    (forall e :: e in st.order <==> e in st.pending) &&
    Distinct(st.order) &&
    (forall e :: e in st.pending && st.pending[e].kind.Some? ==> IsPartial(st.pending[e].kind.value))
  }

  /** `itertools.count(1)` until the run draws from it. */
  function Counter(st: State, e: ExecutionId): nat {
    if e in st.counters then st.counters[e] else 1
  }

  predicate HasGap(gaps: seq<Record>, e: ExecutionId) {
    exists i :: 0 <= i < |gaps| && gaps[i].exec == e
  }

  // ----- what each step computes ------------------------------------------------------

  function MarkGap(cfg: Config, gaps: seq<Record>, dropped: Record): seq<Record>
    requires cfg.maxGaps >= 1
  {
    if HasGap(gaps, dropped.exec) || IsPartial(dropped.kind) then gaps
    else (if |gaps| >= cfg.maxGaps then gaps[1..] else gaps) + [MarkerOf(dropped)]
  }

  function Append(cfg: Config, st: State, r: Record): State
    requires ValidConfig(cfg)
  {
    if |st.queue| >= cfg.maxQueue
    then st.(gaps := MarkGap(cfg, st.gaps, st.queue[0]), queue := st.queue[1..] + [r])
    else st.(queue := st.queue + [r])
  }

  function Flush(cfg: Config, st: State, e: ExecutionId, now: real, final: bool): State
    requires e in st.pending
  {
    var buffer := Join(st.pending[e].parts);
    Cutting(cfg, st, e, now, final, Out(buffer, st.pending[e].secrets), Tail(buffer, st.pending[e].secrets))
  }

  /** A flush, once the text is cut in two: what goes out and what is held back. */
  function Cutting(cfg: Config, st: State, e: ExecutionId, now: real, final: bool, out: string, tail: string): State
    requires e in st.pending
  {
    var p := st.pending[e];
    var kept := if final || tail == "" then p.(kind := None, parts := [], size := 0)
                else p.(parts := [tail], size := Utf8Size(tail), since := now);
    if out != "" && p.kind.Some? && |st.queue| < cfg.maxQueue then
      var n := Counter(st, e);
      st.(pending := st.pending[e := kept.(last := n)], counters := st.counters[e := n + 1],
          queue := st.queue + [Record(e, n, p.kind.value, Some(out), None)])
    else st.(pending := st.pending[e := kept])
  }

  predicate IsDue(cfg: Config, p: Pending, now: real) {
    (now - p.since) * 1000.0 >= cfg.flushMs || p.size >= cfg.flushBytes
  }

  function FlushIfDue(cfg: Config, st: State, e: ExecutionId, now: real, final: bool): State {
    if e in st.pending && st.pending[e].kind.Some? && (final || IsDue(cfg, st.pending[e], now))
    then Flush(cfg, st, e, now, final) else st
  }

  function FlushDue(cfg: Config, st: State, ids: seq<ExecutionId>, now: real, final: bool): State
    decreases |ids|
  {
    if ids == [] then st
    else FlushIfDue(cfg, FlushDue(cfg, st, ids[..|ids| - 1], now, final), ids[|ids| - 1], now, final)
  }

  lemma FlushDueSnoc(cfg: Config, st: State, ids: seq<ExecutionId>, i: nat, now: real, final: bool)
    requires i < |ids|
    ensures FlushDue(cfg, st, ids[..i + 1], now, final)
         == FlushIfDue(cfg, FlushDue(cfg, st, ids[..i], now, final), ids[i], now, final)
  {
    assert ids[..i + 1][..i] == ids[..i];
  }

  /** The open segment ends: replaced by its complete fragment, or flushed for good. */
  ghost function Settle(cfg: Config, st: State, e: ExecutionId, kind: Kind, now: real): State
    requires WellFormed(st)
  {
    if e !in st.pending || st.pending[e].kind.None? then st
    else if SupersededBy(st.pending[e].kind.value) == kind
    then st.(pending := st.pending[e := st.pending[e].(kind := None, parts := [], size := 0)])
    else Flush(cfg, st, e, now, true)
  }

  ghost function Offer(cfg: Config, st: State, r: Record, now: real): State
    requires ValidConfig(cfg) && WellFormed(st)
  {
    Enter(cfg, Settle(cfg, st, r.exec, r.kind, now), r)
  }

  /** The record enters the queue, with a new number if a flush has passed its own. */
  function Enter(cfg: Config, st: State, r: Record): State
    requires ValidConfig(cfg)
  {
    if r.exec in st.pending && r.num <= st.pending[r.exec].last then
      var n := Counter(st, r.exec);
      Append(cfg, st.(counters := st.counters[r.exec := n + 1]), r.(num := n))
    else Append(cfg, st, r)
  }

  function Draw(st: State, e: ExecutionId): State {
    st.(counters := st.counters[e := Counter(st, e) + 1])
  }

  function Open(st: State, e: ExecutionId, first: nat, secrets: seq<string>): State {
    st.(pending := st.pending[e := Pending(secrets, None, [], 0, 0.0, 0)],
        order := if e in st.pending then st.order else st.order + [e],
        counters := st.counters[e := first])
  }

  function Without(order: seq<ExecutionId>, e: ExecutionId): seq<ExecutionId> {
    if order == [] then [] else if order[0] == e then Without(order[1..], e)
    else [order[0]] + Without(order[1..], e)
  }

  function Close(cfg: Config, st: State, e: ExecutionId, now: real): State {
    if e !in st.pending then st
    else
      var flushed := if st.pending[e].kind.Some? then Flush(cfg, st, e, now, true) else st;
      flushed.(pending := flushed.pending - {e}, order := Without(st.order, e))
  }

  /** The text `offer_partial` keeps of one piece. */
  function Cut(cfg: Config, text: string): string {
    if |text| > cfg.maxBytes / 4 then Utf8Cut(text, cfg.maxBytes) else text
  }

  /** The other kind's segment is flushed, and this kind's is open. */
  function Reopen(cfg: Config, st: State, e: ExecutionId, kind: Kind, now: real): State
    requires e in st.pending
  {
    var p := st.pending[e];
    Begin(if p.kind.Some? && p.kind.value != kind then Flush(cfg, st, e, now, true) else st, e, kind, now)
  }

  function Begin(st: State, e: ExecutionId, kind: Kind, now: real): State
    requires e in st.pending
  {
    if st.pending[e].kind.Some? then st
    else st.(pending := st.pending[e := st.pending[e].(kind := Some(kind), since := now)])
  }

  function Feed(st: State, e: ExecutionId, piece: string): State
    requires e in st.pending
  {
    var p := st.pending[e];
    st.(pending := st.pending[e := p.(parts := p.parts + [piece], size := p.size + Utf8Size(piece))])
  }

  function OfferPartial(cfg: Config, st: State, e: ExecutionId, kind: Kind, text: string, now: real): State {
    if e !in st.pending then st
    else Absorb(cfg, Reopen(cfg, st, e, kind, now), e, Cut(cfg, text), now)
  }

  /** The piece joins the buffer, which at its limit does not wait for the writer. */
  function Absorb(cfg: Config, st: State, e: ExecutionId, piece: string, now: real): State
    requires e in st.pending
  {
    var fed := Feed(st, e, piece);
    if fed.pending[e].size >= cfg.maxBytes then Flush(cfg, fed, e, now, false) else fed
  }

  predicate Ready(cfg: Config, st: State, now: real) {
    st.stopping || |st.queue| + |st.gaps| >= cfg.batch ||
    (|st.queue| + |st.gaps| > 0 && now >= st.nextWriteAt)
  }

  function GapsTaken(cfg: Config, st: State): nat {
    if |st.gaps| < cfg.batch then |st.gaps| else cfg.batch
  }

  function QueueTaken(cfg: Config, st: State): nat {
    var room := cfg.batch - GapsTaken(cfg, st);
    if |st.queue| < room then |st.queue| else room
  }

  /** One pass of the loop in `_take`: the due text joins the queue, then a batch goes, or the
      writer ends, or it waits on the condition variable. */
  function Pass(cfg: Config, st: State, now: real): (State, Taken) {
    Grab(cfg, FlushDue(cfg, st, st.order, now, st.stopping), now)
  }

  /** The second half of a pass: the markers go first, then the oldest records. */
  function Grab(cfg: Config, st: State, now: real): (State, Taken) {
    if !Ready(cfg, st, now) then (st, Wait)
    else if st.queue == [] && st.gaps == [] then (st, Done)
    else
      var g, q := GapsTaken(cfg, st), QueueTaken(cfg, st);
      (st.(nextWriteAt := now + cfg.writeInterval, gaps := st.gaps[g..], queue := st.queue[q..]),
       Batch(st.gaps[..g] + st.queue[..q]))
  }

  lemma CuttingKeepsShape(cfg: Config, st: State, e: ExecutionId, now: real, final: bool, out: string, tail: string)
    requires WellFormed(st) && e in st.pending
    ensures var t := Cutting(cfg, st, e, now, final, out, tail);
            WellFormed(t) && t.pending.Keys == st.pending.Keys && t.order == st.order &&
            t.stopping == st.stopping && t.nextWriteAt == st.nextWriteAt
  {
  }

  lemma FlushKeepsShape(cfg: Config, st: State, e: ExecutionId, now: real, final: bool)
    requires WellFormed(st) && e in st.pending
    ensures var t := Flush(cfg, st, e, now, final);
            WellFormed(t) && t.pending.Keys == st.pending.Keys && t.order == st.order &&
            t.stopping == st.stopping && t.nextWriteAt == st.nextWriteAt
  {
    var buffer := Join(st.pending[e].parts);
    var secrets := st.pending[e].secrets;
    CuttingKeepsShape(cfg, st, e, now, final, Out(buffer, secrets), Tail(buffer, secrets));
  }

  lemma FlushIfDueKeepsShape(cfg: Config, st: State, e: ExecutionId, now: real, final: bool)
    requires WellFormed(st)
    ensures WellFormed(FlushIfDue(cfg, st, e, now, final))
    ensures FlushIfDue(cfg, st, e, now, final).pending.Keys == st.pending.Keys
    ensures FlushIfDue(cfg, st, e, now, final).order == st.order
    ensures FlushIfDue(cfg, st, e, now, final).stopping == st.stopping
    ensures FlushIfDue(cfg, st, e, now, final).nextWriteAt == st.nextWriteAt
  {
    if e in st.pending { FlushKeepsShape(cfg, st, e, now, final); }
  }

  lemma SettleKeepsShape(cfg: Config, st: State, e: ExecutionId, kind: Kind, now: real)
    requires WellFormed(st)
    ensures WellFormed(Settle(cfg, st, e, kind, now))
  {
    if e in st.pending { FlushKeepsShape(cfg, st, e, now, true); }
  }

  lemma OfferKeepsShape(cfg: Config, st: State, r: Record, now: real)
    requires ValidConfig(cfg) && WellFormed(st)
    ensures WellFormed(Offer(cfg, st, r, now))
  {
    SettleKeepsShape(cfg, st, r.exec, r.kind, now);
  }

  lemma BeginKeepsShape(st: State, e: ExecutionId, kind: Kind, now: real)
    requires WellFormed(st) && e in st.pending && IsPartial(kind)
    ensures WellFormed(Begin(st, e, kind, now)) && e in Begin(st, e, kind, now).pending
  {
  }

  lemma ReopenKeepsShape(cfg: Config, st: State, e: ExecutionId, kind: Kind, now: real)
    requires WellFormed(st) && e in st.pending && IsPartial(kind)
    ensures WellFormed(Reopen(cfg, st, e, kind, now)) && e in Reopen(cfg, st, e, kind, now).pending
  {
    var p := st.pending[e];
    FlushKeepsShape(cfg, st, e, now, true);
    BeginKeepsShape(if p.kind.Some? && p.kind.value != kind then Flush(cfg, st, e, now, true) else st, e, kind, now);
  }

  lemma FeedKeepsShape(st: State, e: ExecutionId, piece: string)
    requires WellFormed(st) && e in st.pending
    ensures WellFormed(Feed(st, e, piece)) && e in Feed(st, e, piece).pending
  {
  }

  lemma OfferPartialKeepsShape(cfg: Config, st: State, e: ExecutionId, kind: Kind, text: string, now: real)
    requires WellFormed(st) && IsPartial(kind)
    ensures WellFormed(OfferPartial(cfg, st, e, kind, text, now))
  {
    if e in st.pending {
      ReopenKeepsShape(cfg, st, e, kind, now);
      var reopened := Reopen(cfg, st, e, kind, now);
      FeedKeepsShape(reopened, e, Cut(cfg, text));
      FlushKeepsShape(cfg, Feed(reopened, e, Cut(cfg, text)), e, now, false);
    }
  }

  lemma {:induction false} FlushDueKeepsShape(cfg: Config, st: State, ids: seq<ExecutionId>, now: real, final: bool)
    requires WellFormed(st)
    ensures WellFormed(FlushDue(cfg, st, ids, now, final))
    ensures FlushDue(cfg, st, ids, now, final).pending.Keys == st.pending.Keys
    ensures FlushDue(cfg, st, ids, now, final).order == st.order
    ensures FlushDue(cfg, st, ids, now, final).stopping == st.stopping
    ensures FlushDue(cfg, st, ids, now, final).nextWriteAt == st.nextWriteAt
    decreases |ids|
  {
    if ids != [] {
      FlushDueKeepsShape(cfg, st, ids[..|ids| - 1], now, final);
      FlushIfDueKeepsShape(cfg, FlushDue(cfg, st, ids[..|ids| - 1], now, final), ids[|ids| - 1], now, final);
    }
  }

  ghost predicate Distinct(order: seq<ExecutionId>) {
    forall i, j :: 0 <= i < j < |order| ==> order[i] != order[j]
  }

  lemma {:induction false} WithoutDrops(order: seq<ExecutionId>, e: ExecutionId)
    ensures forall x :: x in Without(order, e) <==> x in order && x != e
    ensures Distinct(order) ==> Distinct(Without(order, e))
    decreases |order|
  {
    if order != [] {
      var rest := Without(order[1..], e);
      WithoutDrops(order[1..], e);
      assert forall x :: x in order <==> x == order[0] || x in order[1..];
      if Distinct(order) && order[0] != e {
        assert Without(order, e) == [order[0]] + rest;
        forall j | 0 <= j < |rest| ensures order[0] != rest[j] {
          assert rest[j] in rest && rest[j] in order[1..];
        }
      }
    }
  }

  // ----- the worker ---------------------------------------------------------------------

  class Worker {
    const cfg: Config
    var queue: seq<Record>
    var gaps: seq<Record>
    var pending: map<ExecutionId, Pending>
    var order: seq<ExecutionId>
    var counters: map<ExecutionId, nat>
    var nextWriteAt: real
    var stopping: bool

    function St(): State
      reads this
    {
      State(queue, gaps, pending, order, counters, nextWriteAt, stopping)
    }

    ghost predicate Valid()
      reads this
    {
      ValidConfig(cfg) && WellFormed(St())
    }

    constructor (cfg: Config)
      requires ValidConfig(cfg)
      ensures Valid() && this.cfg == cfg
      ensures St() == State([], [], map[], [], map[], 0.0, false)
    {
      this.cfg := cfg;
      queue, gaps, pending, order, counters := [], [], map[], [], map[];
      nextWriteAt, stopping := 0.0, false;
    }

    /** The caller's `next(seq)`, outside the lock: a step of its own. */
    method NextSeq(e: ExecutionId) returns (n: nat)
      requires Valid()
      modifies this`counters
      ensures Valid() && n == Counter(old(St()), e) && St() == Draw(old(St()), e)
    {
      n := if e in counters then counters[e] else 1;
      counters := counters[e := n + 1];
    }

    method OfferRecord(r: Record, now: real)
      requires Valid()
      modifies this
      ensures Valid() && St() == Offer(cfg, old(St()), r, now)
    {
      var record := r;
      SettleLocked(r.exec, r.kind, now);
      if r.exec in pending && r.num <= pending[r.exec].last {
        var n := NextSeq(r.exec);
        record := r.(num := n);
      }
      AppendLocked(record);
    }

    /** The complete fragment replaces its segment; any other closes it. */
    method SettleLocked(e: ExecutionId, kind: Kind, now: real)
      requires Valid()
      modifies this
      ensures Valid() && St() == Settle(cfg, old(St()), e, kind, now)
    {
      if e in pending && pending[e].kind.Some? {
        if SupersededBy(pending[e].kind.value) == kind {
          pending := pending[e := pending[e].(kind := None, parts := [], size := 0)];
        } else {
          FlushLocked(e, now, true);
        }
      }
    }

    method AppendLocked(r: Record)
      requires Valid()
      modifies this`queue, this`gaps
      ensures Valid() && St() == Append(cfg, old(St()), r)
    {
      if |queue| >= cfg.maxQueue {
        var dropped := queue[0];
        queue := queue[1..];
        MarkGapLocked(dropped);
      }
      queue := queue + [r];
    }

    method MarkGapLocked(dropped: Record)
      requires Valid()
      modifies this`gaps
      ensures Valid() && gaps == MarkGap(cfg, old(gaps), dropped)
    {
      if HasGap(gaps, dropped.exec) || IsPartial(dropped.kind) {
        return;
      }
      if |gaps| >= cfg.maxGaps {
        gaps := gaps[1..];
      }
      gaps := gaps + [MarkerOf(dropped)];
    }

    method OpenRun(e: ExecutionId, first: nat, secrets: seq<string>)
      requires Valid()
      modifies this
      ensures Valid() && St() == Open(old(St()), e, first, secrets)
    {
      if e !in pending {
        order := order + [e];
      }
      pending := pending[e := Pending(secrets, None, [], 0, 0.0, 0)];
      counters := counters[e := first];
    }

    method CloseRun(e: ExecutionId, now: real)
      requires Valid()
      modifies this
      ensures Valid() && St() == Close(cfg, old(St()), e, now)
    {
      if e in pending {
        WithoutDrops(order, e);
        if pending[e].kind.Some? {
          FlushLocked(e, now, true);
        }
        pending := pending - {e};
        order := Without(order, e);
      }
    }

    method OfferText(e: ExecutionId, kind: Kind, text: string, now: real)
      requires Valid() && IsPartial(kind)
      modifies this
      ensures Valid() && St() == OfferPartial(cfg, old(St()), e, kind, text, now)
    {
      if e !in pending {
        return;
      }
      ReopenLocked(e, kind, now);
      var piece := text;
      if |piece| > cfg.maxBytes / 4 {
        piece := Utf8Cut(piece, cfg.maxBytes);
      }
      FeedLocked(e, piece);
      // A buffer at its limit does not wait for the writer.
      if pending[e].size >= cfg.maxBytes {
        FlushLocked(e, now, false);
      }
    }

    method ReopenLocked(e: ExecutionId, kind: Kind, now: real)
      requires Valid() && IsPartial(kind) && e in pending
      modifies this
      ensures Valid() && St() == Reopen(cfg, old(St()), e, kind, now)
      ensures e in pending
    {
      if pending[e].kind.Some? && pending[e].kind.value != kind {
        FlushKeepsShape(cfg, St(), e, now, true);
        FlushLocked(e, now, true);
      }
      BeginLocked(e, kind, now);
    }

    method BeginLocked(e: ExecutionId, kind: Kind, now: real)
      requires Valid() && IsPartial(kind) && e in pending
      modifies this`pending
      ensures Valid() && St() == Begin(old(St()), e, kind, now)
      ensures pending.Keys == old(pending.Keys)
    {
      if pending[e].kind.None? {
        pending := pending[e := pending[e].(kind := Some(kind), since := now)];
      }
    }

    method FeedLocked(e: ExecutionId, piece: string)
      requires Valid() && e in pending
      modifies this`pending
      ensures Valid() && St() == Feed(old(St()), e, piece)
    {
      var p := pending[e];
      pending := pending[e := p.(parts := p.parts + [piece], size := p.size + Utf8Size(piece))];
    }

    /** The text half of `_flush_locked`. */
    method CutText(p: Pending) returns (out: string, tail: string)
      ensures out == Out(Join(p.parts), p.secrets) && tail == Tail(Join(p.parts), p.secrets)
    {
      var text := RedactSecret(Join(p.parts), p.secrets);
      var held := ComputeHeldBack(text, p.secrets);
      out, tail := text[..|text| - held], text[|text| - held..];
    }

    method FlushLocked(e: ExecutionId, now: real, final: bool)
      requires Valid() && e in pending
      modifies this
      ensures Valid() && St() == Flush(cfg, old(St()), e, now, final)
    {
      FlushKeepsShape(cfg, St(), e, now, final);
      var p := pending[e];
      var out, tail := CutText(p);
      var kept := p;
      if final || tail == "" {
        kept := p.(kind := None, parts := [], size := 0);
      } else {
        kept := p.(parts := [tail], size := Utf8Size(tail), since := now);
      }
      if out != "" && p.kind.Some? && |queue| < cfg.maxQueue {
        var n := NextSeq(e);
        kept := kept.(last := n);
        queue := queue + [Record(e, n, p.kind.value, Some(out), None)];
      }
      pending := pending[e := kept];
    }

    method FlushIfDueLocked(e: ExecutionId, now: real, final: bool)
      requires Valid() && e in pending
      modifies this
      ensures Valid() && St() == FlushIfDue(cfg, old(St()), e, now, final)
      ensures order == old(order)
    {
      if pending[e].kind.Some? && (final || IsDue(cfg, pending[e], now)) {
        FlushLocked(e, now, final);
      }
    }

    method FlushDueLocked(now: real, final: bool)
      requires Valid()
      modifies this
      ensures Valid() && St() == FlushDue(cfg, old(St()), old(order), now, final)
      ensures stopping == old(stopping) && nextWriteAt == old(nextWriteAt)
    {
      FlushDueKeepsShape(cfg, St(), order, now, final);
      ghost var before := St();
      var ids := order;
      for i := 0 to |ids|
        invariant Valid() && order == ids
        invariant St() == FlushDue(cfg, before, ids[..i], now, final)
      {
        assert ids[i] in order;
        FlushIfDueLocked(ids[i], now, final);
        FlushDueSnoc(cfg, before, ids, i, now, final);
      }
      assert ids[..|ids|] == ids;
    }

    method Stop()
      requires Valid()
      modifies this`stopping
      ensures Valid() && St() == old(St()).(stopping := true)
    {
      stopping := true;
    }

    /** One pass of `_take`; `Wait` is `self._cv.wait`, after which the caller passes again. */
    method TakePass(now: real) returns (r: Taken)
      requires Valid()
      modifies this
      ensures Valid() && (St(), r) == Pass(cfg, old(St()), now)
      ensures stopping == old(stopping)
      ensures r.Wait? ==> !stopping && |queue| + |gaps| < cfg.batch && (queue + gaps == [] || now < nextWriteAt)
      ensures r.Done? ==> stopping && queue + gaps == []
      ensures r.Batch? ==> nextWriteAt == now + cfg.writeInterval && 1 <= |r.records| <= cfg.batch &&
                           (stopping || |r.records| == cfg.batch || now >= old(nextWriteAt))
    {
      FlushDueLocked(now, stopping);
      r := GrabLocked(now);
    }

    method GrabLocked(now: real) returns (r: Taken)
      requires Valid()
      modifies this
      ensures Valid() && (St(), r) == Grab(cfg, old(St()), now)
      ensures stopping == old(stopping)
      ensures r.Wait? ==> !stopping && |queue| + |gaps| < cfg.batch && (queue + gaps == [] || now < nextWriteAt)
      ensures r.Done? ==> stopping && queue + gaps == []
      ensures r.Batch? ==> nextWriteAt == now + cfg.writeInterval && 1 <= |r.records| <= cfg.batch &&
                           (stopping || |r.records| == cfg.batch || now >= old(nextWriteAt))
    {
      var waiting := |queue| + |gaps|;
      if !(stopping || waiting >= cfg.batch || (waiting > 0 && now >= nextWriteAt)) {
        return Wait;
      }
      if queue == [] && gaps == [] {
        return Done;
      }
      nextWriteAt := now + cfg.writeInterval;
      var g := if |gaps| < cfg.batch then |gaps| else cfg.batch;
      var room := cfg.batch - g;
      var q := if |queue| < room then |queue| else room;
      r := Batch(gaps[..g] + queue[..q]);
      gaps, queue := gaps[g..], queue[q..];
    }

    method Discard()
      requires Valid()
      modifies this
      ensures Valid()
      ensures St() == old(St()).(queue := [], gaps := [], pending := map[], order := [])
    {
      queue, gaps, pending, order := [], [], map[], [];
    }
  }
}
