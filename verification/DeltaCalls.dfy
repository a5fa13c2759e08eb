/** What one call does, told by the queue and the buffers alone: a record that is offered, a piece
    of live text, the end of a run, and one pass of the writer. */
module DeltaCalls {
  import opened Wrappers
  import opened Text
  import opened SecretRedaction
  import opened LiveText
  import opened DeltaWorker
  import opened DeltaSystem
  import opened DeltaText

  /** No segment is open and nothing is buffered. */
  predicate Closed(p: Pending) {
    p.kind.None? && p.parts == [] && p.size == 0
  }

  /** All that is kept is the beginning of a secret, and its wait starts now. */
  ghost predicate Restarted(p: Pending, q: Pending, now: real) {
    q.kind == p.kind && q.since == now && |q.parts| == 1 && q.parts[0] != "" &&
    HeadOfSecret(q.parts[0], p.secrets) && q.size == Utf8Size(q.parts[0])
  }

  ghost predicate OthersStay(st: State, t: State, e: ExecutionId) {
    t.pending.Keys == st.pending.Keys && t.order == st.order &&
    forall x :: x in st.pending && x != e ==> t.pending[x] == st.pending[x]
  }

  /** At most one record joins the queue, of this execution and kind. */
  ghost predicate AddsPiece(st: State, t: State, e: ExecutionId, kind: Option<Kind>) {
    t.queue == st.queue || (|t.queue| == |st.queue| + 1 && st.queue <= t.queue &&
      t.queue[|st.queue|].exec == e && Some(t.queue[|st.queue|].kind) == kind)
  }

  /** What one flush leaves: nothing else changes, at most one record is queued and none leaves,
      and the segment is closed or, if it may stay open, restarted with the start of a secret. */
  ghost predicate Flushes(st: State, t: State, e: ExecutionId, now: real, final: bool)
    requires e in st.pending
  {
    var p := st.pending[e];
    && OthersStay(st, t, e) && t.gaps == st.gaps && t.pending[e].secrets == p.secrets
    && (Closed(t.pending[e]) || (!final && Restarted(p, t.pending[e], now)))
    && AddsPiece(st, t, e, p.kind)
    && (t.queue != st.queue ==>
         t.queue[|st.queue|].num == t.pending[e].last == Counter(st, e) && Counter(t, e) == Counter(st, e) + 1)
    && (t.queue == st.queue ==> t.pending[e].last == p.last && t.counters == st.counters)
  }

  lemma FlushMeans(cfg: Config, st: State, e: ExecutionId, now: real, final: bool)
    requires e in st.pending && st.pending[e].kind.Some?
    ensures Flushes(st, Flush(cfg, st, e, now, final), e, now, final)
  {
    var p := st.pending[e];
    TailIsProperPrefix(Join(p.parts), p.secrets);
    CuttingMeans(cfg, st, e, now, final, Out(Join(p.parts), p.secrets), Tail(Join(p.parts), p.secrets));
  }

  lemma CuttingMeans(cfg: Config, st: State, e: ExecutionId, now: real, final: bool, out: string, tail: string)
    requires e in st.pending && st.pending[e].kind.Some? && HeadOfSecret(tail, st.pending[e].secrets)
    ensures Flushes(st, Cutting(cfg, st, e, now, final, out, tail), e, now, final)
  {
  }

  /** The complete fragment that carries all the text of a live segment. */
  predicate Replaces(cause: Kind, kind: Kind) {
    (kind == AssistantPartial && cause == AssistantText) || (kind == ReasoningPartial && cause == AssistantReasoning)
  }

  /** A segment of this kind is open, and a record of kind `cause` does not replace it. */
  predicate Interrupted(st: State, e: ExecutionId, kind: Kind, cause: Kind) {
    e in st.pending && st.pending[e].kind == Some(kind) && !Replaces(cause, kind)
  }

  lemma SettleMeans(cfg: Config, st: State, e: ExecutionId, kind: Kind, now: real)
    requires WellFormed(st)
    ensures var t := Settle(cfg, st, e, kind, now);
            && OthersStay(st, t, e) && t.gaps == st.gaps
            && (e in st.pending ==> t.pending[e].kind.None?)
            && (e in st.pending && st.pending[e].kind.Some? ==> Closed(t.pending[e]))
            && (t.queue == st.queue || (|t.queue| == |st.queue| + 1 && st.queue <= t.queue &&
                 t.queue[|st.queue|].exec == e && Interrupted(st, e, t.queue[|st.queue|].kind, kind)))
  {
    if e in st.pending && st.pending[e].kind.Some? { FlushMeans(cfg, st, e, now, true); }
  }

  /** An overflow is marked once for its execution and not at all for a partial; the marker has
      the place of the record and nothing of what it carried, and at the ceiling the one that
      waited longest goes. */
  lemma MarkMeans(cfg: Config, gaps: seq<Record>, dropped: Record)
    requires cfg.maxGaps >= 1 && |gaps| <= cfg.maxGaps
    ensures var t := MarkGap(cfg, gaps, dropped);
      if IsPartial(dropped.kind) || exists i :: 0 <= i < |gaps| && gaps[i].exec == dropped.exec then t == gaps
      else t == gaps[if |gaps| == cfg.maxGaps then 1 else 0..] + [Record(dropped.exec, dropped.num, Gap, None, None)]
  {
  }

  /** A run that opens starts with nothing buffered, its own secrets and its own counter, and
      takes the last turn among the runs. */
  lemma OpenMeans(st: State, e: ExecutionId, first: nat, secrets: seq<string>)
    ensures var t := Open(st, e, first, secrets);
      && e in t.pending && Closed(t.pending[e]) && t.pending[e].secrets == secrets && t.pending[e].last == 0
      && Counter(t, e) == first && (forall x :: x != e ==> Counter(t, x) == Counter(st, x))
      && t.pending.Keys == st.pending.Keys + {e}
      && (forall x :: x in st.pending && x != e ==> t.pending[x] == st.pending[x])
      && t.order == (if e in st.pending then st.order else st.order + [e])
      && t.queue == st.queue && t.gaps == st.gaps
  {
  }

  /** The queue after an append, and after one that a flush came before. */
  lemma AppendMeans(cfg: Config, st: State, r: Record, before: seq<Record>)
    requires ValidConfig(cfg) && |before| <= cfg.maxQueue
    requires st.queue == before || (before <= st.queue && |st.queue| == |before| + 1)
    ensures var t := Append(cfg, st, r).queue;
            && t != [] && t[|t| - 1] == r && (forall q :: q in t ==> q in st.queue || q == r)
            && (before <= t || (before != [] && before[1..] <= t && |t| >= cfg.maxQueue))
  {
    var t := Append(cfg, st, r).queue;
    if |st.queue| >= cfg.maxQueue && before != [] { assert before[1..] <= st.queue[1..] <= t; }
  }

  lemma EnterMeans(cfg: Config, st: State, r: Record, before: seq<Record>)
    requires ValidConfig(cfg) && |before| <= cfg.maxQueue
    requires st.queue == before || (before <= st.queue && |st.queue| == |before| + 1)
    ensures var t := Enter(cfg, st, r);
            && t.pending == st.pending && t.order == st.order
            && (before <= t.queue || (before != [] && before[1..] <= t.queue && |t.queue| >= cfg.maxQueue))
            && t.queue != []
            && var last := t.queue[|t.queue| - 1];
               && last == r.(num := last.num)
               && (if r.exec in t.pending && r.num <= t.pending[r.exec].last
                   then r.exec in t.counters && last.num + 1 == t.counters[r.exec]
                   else last.num == r.num)
               && forall q :: q in t.queue ==> q in st.queue || q == last
  {
    if r.exec in st.pending && r.num <= st.pending[r.exec].last {
      var n := Counter(st, r.exec);
      AppendMeans(cfg, st.(counters := st.counters[r.exec := n + 1]), r.(num := n), before);
    } else {
      AppendMeans(cfg, st, r, before);
    }
  }

  /** `offer`: the record is the last of the queue, itself but for a number that a flush has
      passed; its execution has no open segment left, and a segment that the record replaces
      writes nothing; and the oldest record goes only when the queue is full. */
  lemma OfferMeans(cfg: Config, st: State, r: Record, now: real)
    requires ValidConfig(cfg) && WellFormed(st) && |st.queue| <= cfg.maxQueue
    ensures var t := Offer(cfg, st, r, now);
            && OthersStay(st, t, r.exec)
            && (r.exec in st.pending ==> t.pending[r.exec].kind.None?)
            && (r.exec in st.pending && st.pending[r.exec].kind.Some? ==> Closed(t.pending[r.exec]))
            && (st.queue <= t.queue || (st.queue != [] && st.queue[1..] <= t.queue && |t.queue| >= cfg.maxQueue))
            && t.queue != []
            && var last := t.queue[|t.queue| - 1];
               && last == r.(num := last.num)
               && (if r.exec in t.pending && r.num <= t.pending[r.exec].last
                   then r.exec in t.counters && last.num + 1 == t.counters[r.exec]
                   else last.num == r.num)
               && forall q :: q in t.queue ==>
                    q in st.queue || q == last || (q.exec == r.exec && Interrupted(st, r.exec, q.kind, r.kind))
  {
    SettleMeans(cfg, st, r.exec, r.kind, now);
    EnterMeans(cfg, Settle(cfg, st, r.exec, r.kind, now), r, st.queue);
  }

  /** The piece that is kept: all of it when it fits, else the longest head that does. */
  lemma CutMeans(cfg: Config, text: string)
    ensures Cut(cfg, text) <= text && Utf8Size(Cut(cfg, text)) <= cfg.maxBytes
    ensures Cut(cfg, text) == text <==> Utf8Size(text) <= cfg.maxBytes
    ensures forall k :: 0 <= k <= |text| && Utf8Size(text[..k]) <= cfg.maxBytes ==> k <= |Cut(cfg, text)|
  {
    var piece := Cut(cfg, text);
    CutIsBounded(cfg, text);
    forall k | |piece| < k <= |text| ensures Utf8Size(text[..k]) > cfg.maxBytes {
      var n := |piece|;
      assert text[..k] == piece + ([text[n]] + text[n + 1..k]);
      Utf8SizeConcat(piece, [text[n]] + text[n + 1..k]);
      assert Utf8Size([text[n]] + text[n + 1..k]) == CharBytes(text[n]) + Utf8Size(text[n + 1..k]) by {
        assert ([text[n]] + text[n + 1..k])[1..] == text[n + 1..k];
      }
    }
    assert text[..|text|] == text;
  }

  /** The other kind's segment was closed; this kind's is open, and new if it was not. */
  ghost predicate Reopens(st: State, t: State, e: ExecutionId, kind: Kind, now: real)
    requires e in st.pending
  {
    var p := st.pending[e];
    OthersStay(st, t, e) && t.gaps == st.gaps && AddsPiece(st, t, e, p.kind) &&
    (p.kind.None? || p.kind == Some(kind) ==> t.queue == st.queue && t.pending[e].last == p.last) &&
    t.pending[e] == if p.kind == Some(kind) then p else Pending(p.secrets, Some(kind), [], 0, now, t.pending[e].last)
  }

  /** The piece is buffered, or the buffer was full and is flushed. */
  ghost predicate Absorbs(cfg: Config, st: State, t: State, e: ExecutionId, piece: string, now: real)
    requires e in st.pending
  {
    var p, size := st.pending[e], st.pending[e].size + Utf8Size(piece);
    OthersStay(st, t, e) && t.gaps == st.gaps && AddsPiece(st, t, e, p.kind) &&
    if size < cfg.maxBytes then t.pending[e] == p.(parts := p.parts + [piece], size := size) && t.queue == st.queue
    else Closed(t.pending[e]) || Restarted(p, t.pending[e], now)
  }

  lemma ReopenMeans(cfg: Config, st: State, e: ExecutionId, kind: Kind, now: real)
    requires e in st.pending && (st.pending[e].kind.None? ==> Closed(st.pending[e]))
    ensures Reopens(st, Reopen(cfg, st, e, kind, now), e, kind, now)
  {
    if st.pending[e].kind.Some? {
      FlushMeans(cfg, st, e, now, true);
      if st.pending[e].kind.value != kind { BeginMeans(st, Flush(cfg, st, e, now, true), e, kind, now); }
    }
  }

  lemma BeginMeans(st: State, m: State, e: ExecutionId, kind: Kind, now: real)
    requires e in st.pending && st.pending[e].kind.Some? && st.pending[e].kind.value != kind
    requires Flushes(st, m, e, now, true)
    ensures Reopens(st, Begin(m, e, kind, now), e, kind, now)
  {
  }

  lemma AbsorbMeans(cfg: Config, st: State, e: ExecutionId, piece: string, now: real)
    requires e in st.pending && st.pending[e].kind.Some?
    ensures Absorbs(cfg, st, Absorb(cfg, st, e, piece, now), e, piece, now)
  {
    var fed := Feed(st, e, piece);
    if fed.pending[e].size >= cfg.maxBytes {
      FlushMeans(cfg, fed, e, now, false);
      FedAndFlushed(cfg, st, Flush(cfg, fed, e, now, false), e, piece, now);
    }
  }

  lemma FedAndFlushed(cfg: Config, st: State, t: State, e: ExecutionId, piece: string, now: real)
    requires e in st.pending && st.pending[e].size + Utf8Size(piece) >= cfg.maxBytes
    requires Flushes(Feed(st, e, piece), t, e, now, false)
    ensures Absorbs(cfg, st, t, e, piece, now)
  {
  }

  /** `offer_partial`: a segment of the other kind is closed first, the piece joins the buffer,
      whose wait began with its first piece, and a buffer at its limit is flushed at once. */
  ghost predicate Spoken(cfg: Config, st: State, t: State, e: ExecutionId, kind: Kind, piece: string, now: real)
    requires e in st.pending
  {
    var p := st.pending[e];
    var goesOn := p.kind == Some(kind);
    var size := (if goesOn then p.size else 0) + Utf8Size(piece);
    && OthersStay(st, t, e) && t.gaps == st.gaps && st.queue <= t.queue
    && (forall r :: r in t.queue[|st.queue|..] ==> r.exec == e && (r.kind == kind || Some(r.kind) == p.kind))
    && if size < cfg.maxBytes
       then && t.pending[e] == Pending(p.secrets, Some(kind), (if goesOn then p.parts else []) + [piece], size,
                                       if goesOn then p.since else now, t.pending[e].last)
            && (goesOn || p.kind.None? ==> t.pending[e].last == p.last && t.queue == st.queue)
       else Closed(t.pending[e]) || Restarted(p.(kind := Some(kind)), t.pending[e], now)
  }

  lemma SpeakMeans(cfg: Config, st: State, e: ExecutionId, kind: Kind, text: string, now: real)
    requires e in st.pending && (st.pending[e].kind.None? ==> Closed(st.pending[e]))
    ensures Spoken(cfg, st, OfferPartial(cfg, st, e, kind, text, now), e, kind, Cut(cfg, text), now)
  {
    var m := Reopen(cfg, st, e, kind, now);
    ReopenMeans(cfg, st, e, kind, now);
    AbsorbMeans(cfg, m, e, Cut(cfg, text), now);
    SpokenInTwo(cfg, st, m, Absorb(cfg, m, e, Cut(cfg, text), now), e, kind, Cut(cfg, text), now);
  }

  lemma SpokenInTwo(cfg: Config, st: State, m: State, t: State, e: ExecutionId, kind: Kind, piece: string, now: real)
    requires e in st.pending && Reopens(st, m, e, kind, now) && Absorbs(cfg, m, t, e, piece, now)
    ensures Spoken(cfg, st, t, e, kind, piece, now)
  {
  }

  /** `close`: the run is gone, and of the others neither buffer nor turn has changed; its open
      segment adds at most one record of its kind, a run without one adds nothing. */
  lemma CloseMeans(cfg: Config, st: State, e: ExecutionId, now: real)
    requires WellFormed(st) && e in st.pending
    ensures var t := Close(cfg, st, e, now);
            && t.pending.Keys == st.pending.Keys - {e}
            && (forall x :: x in t.pending ==> t.pending[x] == st.pending[x])
            && (forall x, y :: x in t.pending && y in t.pending ==> (Before(t.order, x, y) <==> Before(st.order, x, y)))
            && t.gaps == st.gaps
            && AddsPiece(st, t, e, st.pending[e].kind)
  {
    if st.pending[e].kind.Some? { FlushMeans(cfg, st, e, now, true); }
    forall x, y | x != e && y != e ensures Before(Without(st.order, e), x, y) <==> Before(st.order, x, y) {
      WithoutKeepsTurns(st.order, e, x, y);
    }
  }

  predicate Before(order: seq<ExecutionId>, x: ExecutionId, y: ExecutionId) {
    exists i, j :: 0 <= i < j < |order| && order[i] == x && order[j] == y
  }

  lemma {:induction false} WithoutKeepsTurns(order: seq<ExecutionId>, e: ExecutionId, x: ExecutionId, y: ExecutionId)
    requires x != e && y != e
    ensures Before(Without(order, e), x, y) <==> Before(order, x, y)
    decreases |order|
  {
    if order != [] {
      var rest := Without(order[1..], e);
      WithoutKeepsTurns(order[1..], e, x, y);
      WithoutDrops(order[1..], e);
      BeforeFront(order[0], order[1..], x, y);
      BeforeFront(order[0], rest, x, y);
      assert order == [order[0]] + order[1..];
    }
  }

  lemma BeforeFront(first: ExecutionId, rest: seq<ExecutionId>, x: ExecutionId, y: ExecutionId)
    ensures Before([first] + rest, x, y) <==> (first == x && y in rest) || Before(rest, x, y)
  {
    var l := [first] + rest;
    if i, j :| 0 <= i < j < |l| && l[i] == x && l[j] == y {
      assert rest[j - 1] == y;
      if i > 0 { assert rest[i - 1] == x; }
    }
    if first == x && y in rest {
      var j :| 0 <= j < |rest| && rest[j] == y;
      assert l[0] == x && l[j + 1] == y;
    }
    if i, j :| 0 <= i < j < |rest| && rest[i] == x && rest[j] == y {
      assert l[i + 1] == x && l[j + 1] == y;
    }
  }

  /** What waits once the due text of a pass has joined the queue. */
  function Joined(cfg: Config, st: State, now: real): State {
    FlushDue(cfg, st, st.order, now, st.stopping)
  }

  function Least(a: nat, b: nat): nat {
    if a < b then a else b
  }

  /** The decision over what waits: to go on waiting exactly when it is not stopping, less than
      a batch waits, and either nothing does or the deadline is ahead; to end exactly when it is
      stopping and nothing waits; else to take the head of the line, markers first, up to a
      batch, and set the next deadline. */
  ghost predicate Decides(cfg: Config, st: State, t: State, r: Taken, now: real) {
    var line := st.gaps + st.queue;
    var n := Least(cfg.batch, |line|);
    && (r.Wait? <==> !st.stopping && |line| < cfg.batch && (line == [] || now < st.nextWriteAt))
    && (r.Done? <==> st.stopping && line == [])
    && (!r.Batch? ==> t == st)
    && (r.Batch? ==>
         && r.records == line[..n] && t.gaps + t.queue == line[n..]
         && t.nextWriteAt == now + cfg.writeInterval
         && t == st.(gaps := t.gaps, queue := t.queue, nextWriteAt := t.nextWriteAt))
  }

  lemma GrabDecides(cfg: Config, st: State, now: real)
    requires ValidConfig(cfg)
    ensures Decides(cfg, st, Grab(cfg, st, now).0, Grab(cfg, st, now).1, now)
  {
    GrabTakesHead(cfg, st);
  }

  /** The pass decides over what waits once its due text has joined the queue, by the deadline
      that stood when it began. */
  lemma PassDecides(cfg: Config, st: State, now: real)
    requires ValidConfig(cfg) && WellFormed(st)
    ensures var joined := Joined(cfg, st, now);
            && Decides(cfg, joined, Pass(cfg, st, now).0, Pass(cfg, st, now).1, now)
            && joined.stopping == st.stopping && joined.nextWriteAt == st.nextWriteAt
            && joined.gaps == st.gaps && st.queue <= joined.queue
  {
    FlushDueKeepsShape(cfg, st, st.order, now, st.stopping);
    DueTextJoins(cfg, st, st.order, now, st.stopping);
    GrabDecides(cfg, Joined(cfg, st, now), now);
  }

  lemma GrabTakesHead(cfg: Config, st: State)
    requires ValidConfig(cfg)
    ensures var g, q := GapsTaken(cfg, st), QueueTaken(cfg, st); var line := st.gaps + st.queue;
            && g + q == Least(cfg.batch, |line|)
            && st.gaps[..g] + st.queue[..q] == line[..g + q]
            && st.gaps[g..] + st.queue[q..] == line[g + q..]
  {
  }

  /** Its age or its size says so, or the worker is stopping. */
  predicate DueIn(cfg: Config, p: Pending, now: real, stopping: bool) {
    p.kind.Some? && (stopping || (now - p.since) * 1000.0 >= cfg.flushMs || p.size >= cfg.flushBytes)
  }

  ghost predicate Passed(cfg: Config, p: Pending, q: Pending, now: real, stopping: bool) {
    if DueIn(cfg, p, now, stopping) then Closed(q) || (!stopping && Restarted(p, q, now)) else q == p
  }

  /** No segment outlasts a pass in which it is due: it is closed, or holds no more than the
      start of a secret and waits anew. All others are left alone. */
  lemma PassFlushes(cfg: Config, st: State, now: real, e: ExecutionId)
    requires WellFormed(st) && e in st.pending
    ensures e in Pass(cfg, st, now).0.pending
    ensures Passed(cfg, st.pending[e], Pass(cfg, st, now).0.pending[e], now, st.stopping)
  {
    FlushDueReaches(cfg, st, st.order, now, st.stopping, e);
  }

  lemma {:induction false} FlushDueReaches(cfg: Config, st: State, ids: seq<ExecutionId>, now: real, final: bool,
                                           e: ExecutionId)
    requires e in st.pending && Distinct(ids)
    ensures var t := FlushDue(cfg, st, ids, now, final);
            t.pending.Keys == st.pending.Keys &&
            if e in ids then Passed(cfg, st.pending[e], t.pending[e], now, final) else t.pending[e] == st.pending[e]
    decreases |ids|
  {
    if ids != [] {
      var front, last := ids[..|ids| - 1], ids[|ids| - 1];
      FlushDueReaches(cfg, st, front, now, final, e);
      var m := FlushDue(cfg, st, front, now, final);
      assert e in ids <==> e in front || e == last;
      if last in m.pending && m.pending[last].kind.Some? { FlushMeans(cfg, m, last, now, final); }
    }
  }

  /** All that joined the queue are pieces of segments that were due, behind the rest. */
  ghost predicate DueJoined(cfg: Config, st: State, t: State, ids: seq<ExecutionId>, now: real, final: bool) {
    t.gaps == st.gaps && t.pending.Keys == st.pending.Keys && st.queue <= t.queue &&
    (forall e :: e in st.pending && e !in ids ==> t.pending[e] == st.pending[e]) &&
    forall r :: r in t.queue[|st.queue|..] ==>
      r.exec in ids && r.exec in st.pending && DueIn(cfg, st.pending[r.exec], now, final) &&
      Some(r.kind) == st.pending[r.exec].kind
  }

  lemma {:induction false} DueTextJoins(cfg: Config, st: State, ids: seq<ExecutionId>, now: real, final: bool)
    requires Distinct(ids)
    ensures DueJoined(cfg, st, FlushDue(cfg, st, ids, now, final), ids, now, final)
    decreases |ids|
  {
    if ids != [] {
      var front, last := ids[..|ids| - 1], ids[|ids| - 1];
      DueTextJoins(cfg, st, front, now, final);
      var m := FlushDue(cfg, st, front, now, final);
      assert ids == front + [last] && last !in front;
      if last in m.pending && m.pending[last].kind.Some? {
        FlushMeans(cfg, m, last, now, final);
        if DueIn(cfg, m.pending[last], now, final) {
          OneMoreJoins(cfg, st, m, Flush(cfg, m, last, now, final), front, last, now, final);
        }
      }
    }
  }

  lemma OneMoreJoins(cfg: Config, st: State, m: State, t: State, front: seq<ExecutionId>, e: ExecutionId, now: real,
                     final: bool)
    requires DueJoined(cfg, st, m, front, now, final) && e !in front && e in m.pending
    requires Flushes(m, t, e, now, final) && DueIn(cfg, m.pending[e], now, final)
    ensures DueJoined(cfg, st, t, front + [e], now, final)
  {
  }
}
