/** What a reader of the deltas, and the memory, may rely on. */
module DeltaPromises {
  import opened Wrappers
  import opened Text
  import opened SecretRedaction
  import opened LiveText
  import opened DeltaWorker
  import opened DeltaSystem
  import opened DeltaLedger
  import opened DeltaText
  import opened DeltaContent

  /** Stream order: over any interleaving, what all batches wrote, markers included, has rising
      numbers within each execution. */
  lemma StreamOrder(cfg: Config, s: System, events: seq<Event>)
    requires ValidConfig(cfg) && Init(s)
    ensures Ordered(Exec(cfg, s, events).taken)
  {
    InitLedger(s);
    LedgerHolds(cfg, s, events);
    var t := Exec(cfg, s, events);
    forall i, j | 0 <= i < j < |t.taken| && t.taken[i].exec == t.taken[j].exec
      ensures t.taken[i].num < t.taken[j].num
    {
      assert Line(t)[i] == t.taken[i] && Line(t)[j] == t.taken[j];
    }
  }

  /** How a loss is announced: the marker was evicted, is still to be written, or stands in
      what was written before every later record of the execution. */
  ghost predicate LossIsVisible(s: System, d: Record) {
    exists m: Record :: && m.kind == Gap && m.exec == d.exec && m.num <= d.num && Hole(s.taken, m, d)
      && (m in s.evicted || m in s.w.gaps ||
          exists i :: 0 <= i < |s.taken| && s.taken[i] == m &&
            forall j :: 0 <= j < |s.taken| && s.taken[j].exec == d.exec && s.taken[j].num > d.num ==> i < j)
  }

  /** Loss accounting: every complete record offered is in exactly one place, each lost one is
      announced at the start of its hole, and no marker announces anything else. */
  lemma LossAccounting(cfg: Config, s: System, events: seq<Event>)
    requires ValidConfig(cfg) && Init(s)
    ensures var t := Exec(cfg, s, events);
            && multiset(t.offered)
               == multiset(Completes(t.taken)) + multiset(Completes(t.w.queue)) + multiset(t.dropped)
            && (forall d :: d in t.dropped ==> LossIsVisible(t, d))
            && forall m :: m in t.taken + t.w.gaps + t.evicted && m.kind == Gap ==> Marks(t, m)
  {
    InitSound(cfg, s);
    SoundHolds(cfg, s, events);
    var t := Exec(cfg, s, events);
    forall d | d in t.dropped ensures LossIsVisible(t, d) {
      AnnouncedIsVisible(t, d);
    }
  }

  lemma AnnouncedIsVisible(s: System, d: Record)
    requires Ledger(s) && d in s.dropped
    ensures LossIsVisible(s, d)
  {
    var m :| Announces(s, m, d);
    assert Hole(s.taken, m, d);
    if m in s.taken {
      var i :| 0 <= i < |s.taken| && s.taken[i] == m;
      forall j | 0 <= j < |s.taken| && s.taken[j].exec == d.exec && s.taken[j].num > d.num ensures i < j {
        assert Line(s)[i] == m && Line(s)[j] == s.taken[j];
      }
    } else {
      assert forall r :: r in s.w.queue ==> r.kind != Gap;
    }
  }

  /** Streaming redaction, record by record: under every interleaving of producers, flushes,
      boundaries and batches, no live text that was written or waits shows a secret of its run,
      and a marker shows nothing at all. */
  lemma EveryPieceIsClean(cfg: Config, s: System, events: seq<Event>)
    requires ValidConfig(cfg) && Init(s)
    ensures var t := Exec(cfg, s, events);
            forall r :: r in t.taken + t.w.gaps + t.w.queue ==>
              && (r.kind == Gap ==> r.text.None? && r.tool.None?)
              && (IsPartial(r.kind) ==>
                   r.exec in t.openings && r.text.Some? && r.text.value != "" && r.tool.None? &&
                   (Maskable(t.openings[r.exec]) ==> Clean(r.text.value, t.openings[r.exec])))
  {
    TextHolds(cfg, s, events);
    var t := Exec(cfg, s, events);
    forall r | r in t.taken + t.w.gaps + t.w.queue ensures PieceOk(cfg, t, r) { }
  }

  /** Streaming redaction, segment by segment: the records of a segment that lost no piece are
      all of its kind, and their joined text, which is what its flushes cut off, shows no secret
      either, not even one that was spoken across many flushes. */
  lemma LiveTextIsClean(cfg: Config, s: System, events: seq<Event>, e: ExecutionId)
    requires ValidConfig(cfg) && Init(s)
    requires e in Exec(cfg, s, events).segments && Exec(cfg, s, events).segments[e].whole
    ensures var t := Exec(cfg, s, events); var seg := t.segments[e];
            && e in t.openings
            && Shown(t.taken + t.w.queue, e, seg.from) == seg.cut
            && (forall r :: r in t.taken + t.w.queue && Belongs(r, e, seg.from) ==> Some(r.kind) == seg.kind)
            && (Maskable(t.openings[e]) ==> Clean(Shown(t.taken + t.w.queue, e, seg.from), t.openings[e]))
  {
    InitSound(cfg, s);
    SoundHolds(cfg, s, events);
    var t := Exec(cfg, s, events);
    assert RunOk(cfg, t, e, cfg.maxBytes) && Told(t, e);
    if Maskable(t.openings[e]) { GuardedIsClean(t.segments[e].cut, t.segments[e].tail, t.openings[e]); }
  }

  /** And nothing but secrets is changed: when none was spoken, those records say what was
      spoken, in order. What they do not say yet is buffered while the segment is open; what
      they never say after its last flush is the beginning of a secret. */
  lemma LiveTextIsTold(cfg: Config, s: System, events: seq<Event>, e: ExecutionId)
    requires ValidConfig(cfg) && Init(s)
    requires e in Exec(cfg, s, events).segments && Exec(cfg, s, events).segments[e].whole
    requires var t := Exec(cfg, s, events);
             e in t.openings && Maskable(t.openings[e]) && Clean(t.segments[e].spoken, t.openings[e])
    ensures var t := Exec(cfg, s, events); var seg := t.segments[e];
            var shown := Shown(t.taken + t.w.queue, e, seg.from);
            && shown <= seg.spoken
            && (e in t.w.pending && t.w.pending[e].kind.Some? ==> shown + Join(t.w.pending[e].parts) == seg.spoken)
            && (seg.ended && !seg.replaced ==> HeadOfSecret(seg.spoken[|shown|..], t.openings[e]))
  {
    InitSound(cfg, s);
    SoundHolds(cfg, s, events);
    var t := Exec(cfg, s, events);
    assert RunOk(cfg, t, e, cfg.maxBytes) && Told(t, e);
    var seg := t.segments[e];
    if seg.ended && !seg.replaced { assert seg.spoken[|seg.cut|..] == seg.tail; }
  }

  /** Bounds: queue and markers stay within their ceilings, a buffer's `size` is its size in
      bytes and stays under the limit, and so, doubled, does every partial record. */
  lemma MemoryIsBounded(cfg: Config, s: System, events: seq<Event>)
    requires ValidConfig(cfg) && Init(s)
    ensures var t := Exec(cfg, s, events);
            && |t.w.queue| <= cfg.maxQueue && |t.w.gaps| <= cfg.maxGaps
            && (forall e :: e in t.w.pending ==>
                 var p := t.w.pending[e];
                 p.size == Utf8Size(Join(p.parts)) && (Short(cfg, p.secrets) ==> p.size < cfg.maxBytes))
            && (forall r :: (r in t.w.queue || r in t.taken) && IsPartial(r.kind) ==>
                 r.exec in t.openings && r.text.Some? &&
                 (Short(cfg, t.openings[r.exec]) ==> Utf8Size(r.text.value) < 2 * cfg.maxBytes))
  {
    TextHolds(cfg, s, events);
    var t := Exec(cfg, s, events);
    forall e | e in t.w.pending ensures RunOk(cfg, t, e, cfg.maxBytes) { }
    forall r | r in t.w.queue || r in t.taken ensures PieceOk(cfg, t, r) { }
  }

  /** No batch is larger than `BATCH`, and none is empty. */
  lemma BatchIsBounded(cfg: Config, st: State, now: real)
    requires ValidConfig(cfg) && Pass(cfg, st, now).1.Batch?
    ensures 1 <= |Pass(cfg, st, now).1.records| <= cfg.batch
  {
  }
}
