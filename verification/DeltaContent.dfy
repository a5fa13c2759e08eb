/** What the records of one segment say: unless a piece of it was lost, the partial records that
    carry its numbers, joined in the order they are written, are what its flushes cut off, and
    all are of its kind. `DeltaPromises` states what a reader may rely on. */
module DeltaContent {
  import opened Wrappers
  import opened Text
  import opened LiveText
  import opened DeltaWorker
  import opened DeltaSystem
  import opened DeltaLedger
  import opened DeltaText

  /** What was written, then what will be, less the markers. */
  ghost function Sent(s: System): seq<Record> {
    s.taken + s.w.queue
  }

  predicate Belongs(r: Record, e: ExecutionId, from: nat) {
    IsPartial(r.kind) && r.exec == e && r.num >= from
  }

  /** The live text a reader joins: the partial records of an execution from one number on. */
  function Shown(l: seq<Record>, e: ExecutionId, from: nat): string {
    if l == [] then ""
    else if Belongs(l[0], e, from) && l[0].text.Some? then l[0].text.value + Shown(l[1..], e, from)
    else Shown(l[1..], e, from)
  }

  ghost predicate Told(s: System, e: ExecutionId) {
    e in s.segments ==>
      var seg := s.segments[e];
      && seg.from <= Counter(s.w, e)
      && (forall r :: r in Sent(s) && Belongs(r, e, seg.from) ==> Some(r.kind) == seg.kind)
      && (seg.whole ==> Shown(Sent(s), e, seg.from) == seg.cut)
  }

  ghost predicate AllTold(s: System) {
    forall e :: Told(s, e)
  }

  /** A marker stands for a complete record that was dropped. */
  ghost predicate Marks(s: System, m: Record) {
    exists d :: d in s.dropped && m == MarkerOf(d)
  }

  ghost predicate Truthful(s: System) {
    forall m :: (m in s.taken || m in s.w.gaps || m in s.evicted) && m.kind == Gap ==> Marks(s, m)
  }

  /** All that the steps keep, text, numbers and shape together. */
  ghost predicate Sound(cfg: Config, s: System) {
    WellFormed(s.w) && Ledger(s) && TextOk(cfg, s) && AllTold(s) && Truthful(s)
  }

  // ----- the markers -----------------------------------------------------------------------

  ghost predicate SameMarks(s: System, t: System) {
    t.taken == s.taken && t.w.gaps == s.w.gaps && t.evicted == s.evicted && t.dropped == s.dropped
  }

  lemma {:induction false} FlushDueKeepsMarks(cfg: Config, s: System, ids: seq<ExecutionId>, now: real, final: bool)
    ensures SameMarks(s, FlushDueS(cfg, s, ids, now, final))
    decreases |ids|
  {
    if ids != [] { FlushDueKeepsMarks(cfg, s, ids[..|ids| - 1], now, final); }
  }

  /** Only a complete record is marked, and it is then among the dropped. */
  lemma RoomIsTruthful(cfg: Config, s: System)
    requires ValidConfig(cfg) && s.w.queue != [] && Kinds(s) && Truthful(s)
    ensures Truthful(RoomS(cfg, s))
  {
    var t, d := RoomS(cfg, s), s.w.queue[0];
    assert d.kind != Gap;
    forall m | (m in t.taken || m in t.w.gaps || m in t.evicted) && m.kind == Gap ensures Marks(t, m) {
      if m in s.taken || m in s.w.gaps || m in s.evicted {
        var x :| x in s.dropped && m == MarkerOf(x);
        assert x in t.dropped;
      } else {
        assert m == MarkerOf(d) && d in t.dropped;
      }
    }
  }

  lemma AppendIsTruthful(cfg: Config, s: System, r: Record)
    requires ValidConfig(cfg) && Kinds(s) && Truthful(s)
    ensures Truthful(AppendS(cfg, s, r))
  {
    if |s.w.queue| >= cfg.maxQueue {
      RoomIsTruthful(cfg, s);
      SameMarksTruthful(RoomS(cfg, s), AppendS(cfg, s, r));
    } else {
      SameMarksTruthful(s, AppendS(cfg, s, r));
    }
  }

  lemma SameMarksTruthful(s: System, t: System)
    requires Truthful(s) && SameMarks(s, t)
    ensures Truthful(t)
  {
    forall m | Marks(s, m) ensures Marks(t, m) { }
  }

  lemma FlushKeepsKinds(cfg: Config, s: System, e: ExecutionId, now: real, final: bool)
    requires Kinds(s) && WellFormed(s.w) && e in s.w.pending
    ensures Kinds(FlushS(cfg, s, e, now, final))
  {
  }

  lemma SettleKeepsMarks(cfg: Config, s: System, e: ExecutionId, kind: Kind, now: real)
    requires Kinds(s) && WellFormed(s.w)
    ensures SameMarks(s, SettleS(cfg, s, e, kind, now)) && Kinds(SettleS(cfg, s, e, kind, now))
  {
    if e in s.w.pending && s.w.pending[e].kind.Some? && SupersededBy(s.w.pending[e].kind.value) != kind {
      FlushKeepsMarks(cfg, s, e, now, true);
      FlushKeepsKinds(cfg, s, e, now, true);
    }
  }

  lemma OfferIsTruthful(cfg: Config, s: System, r: Record, now: real)
    requires ValidConfig(cfg) && Truthful(s) && Kinds(s) && WellFormed(s.w)
    ensures Truthful(OfferS(cfg, s, r, now))
  {
    var settled := SettleS(cfg, s, r.exec, r.kind, now);
    SettleKeepsMarks(cfg, s, r.exec, r.kind, now);
    SameMarksTruthful(s, settled);
    var (w, numbered) := Numbered(settled, r);
    EnterIsTruthful(cfg, settled, settled.(w := w, inflight := s.inflight - {r.exec}), numbered);
  }

  lemma EnterIsTruthful(cfg: Config, s: System, t: System, r: Record)
    requires ValidConfig(cfg) && Truthful(s) && Kinds(s) && SameMarks(s, t) && t.w.queue == s.w.queue
    ensures Truthful(AppendS(cfg, t, r))
  {
    SameMarksTruthful(s, t);
    AppendIsTruthful(cfg, t, r);
  }

  /** What one pass does after its due text has joined the queue. */
  ghost predicate Grabs(cfg: Config, s: System, t: System, now: real) {
    t.segments == s.segments && t.dropped == s.dropped && t.evicted == s.evicted &&
    t.w == Grab(cfg, s.w, now).0 &&
    t.taken == s.taken + (match Grab(cfg, s.w, now).1 case Batch(records) => records case _ => [])
  }

  lemma PassGrabs(cfg: Config, s: System, now: real)
    ensures Grabs(cfg, FlushDueS(cfg, s, s.w.order, now, s.w.stopping), PassS(cfg, s, now), now)
  {
    FlushDueMatches(cfg, s, s.w.order, now, s.w.stopping);
  }

  lemma DueKeepsMarks(cfg: Config, s: System, now: real)
    requires Ledger(s) && WellFormed(s.w)
    ensures SameMarks(s, FlushDueS(cfg, s, s.w.order, now, s.w.stopping))
    ensures Kinds(FlushDueS(cfg, s, s.w.order, now, s.w.stopping))
  {
    FlushDueKeepsMarks(cfg, s, s.w.order, now, s.w.stopping);
    FlushDueKeepsLedger(cfg, s, s.w.order, now, s.w.stopping);
  }

  lemma PassIsTruthful(cfg: Config, s: System, now: real)
    requires ValidConfig(cfg) && Truthful(s) && Ledger(s) && WellFormed(s.w)
    ensures Truthful(PassS(cfg, s, now))
  {
    PassGrabs(cfg, s, now);
    DueKeepsMarks(cfg, s, now);
    SameMarksTruthful(s, FlushDueS(cfg, s, s.w.order, now, s.w.stopping));
    GrabIsTruthful(cfg, FlushDueS(cfg, s, s.w.order, now, s.w.stopping), PassS(cfg, s, now), now);
  }

  lemma GrabIsTruthful(cfg: Config, s: System, t: System, now: real)
    requires Truthful(s) && Kinds(s) && Grabs(cfg, s, t, now)
    ensures Truthful(t)
  {
    forall m | (m in t.taken || m in t.w.gaps || m in t.evicted) && m.kind == Gap ensures Marks(t, m) {
      assert m in s.taken || m in s.w.gaps || m in s.evicted;
      assert Marks(s, m);
    }
  }

  lemma FlushKeepsMarks(cfg: Config, s: System, e: ExecutionId, now: real, final: bool)
    requires e in s.w.pending
    ensures SameMarks(s, FlushS(cfg, s, e, now, final))
  {
  }

  lemma ReopenKeepsMarks(cfg: Config, s: System, e: ExecutionId, kind: Kind, now: real)
    requires e in s.w.pending
    ensures SameMarks(s, ReopenS(cfg, s, e, kind, now))
  {
    FlushKeepsMarks(cfg, s, e, now, true);
  }

  lemma AbsorbIsTruthful(cfg: Config, s: System, e: ExecutionId, piece: string, now: real)
    requires Truthful(s) && e in s.w.pending
    ensures Truthful(AbsorbS(cfg, s, e, piece, now))
  {
    FlushKeepsMarks(cfg, FeedS(s, e, piece), e, now, false);
    SameMarksTruthful(s, AbsorbS(cfg, s, e, piece, now));
  }

  lemma SpeakIsTruthful(cfg: Config, s: System, e: ExecutionId, kind: Kind, text: string, now: real)
    requires Truthful(s) && e in s.w.pending
    ensures Truthful(SpeakS(cfg, s, e, kind, text, now))
  {
    ReopenKeepsMarks(cfg, s, e, kind, now);
    SameMarksTruthful(s, ReopenS(cfg, s, e, kind, now));
    AbsorbIsTruthful(cfg, ReopenS(cfg, s, e, kind, now), e, Cut(cfg, text), now);
  }

  lemma StepIsTruthful(cfg: Config, s: System, ev: Event)
    requires ValidConfig(cfg) && Truthful(s) && Ledger(s) && WellFormed(s.w)
    ensures Truthful(Step(cfg, s, ev))
  {
    match ev
    case Offers(e, kind, text, tool, now) =>
      if e in s.inflight && IsComplete(kind) {
        OfferIsTruthful(cfg, s, Record(e, s.inflight[e], kind, text, tool), now);
      }
    case Speaks(e, kind, piece, now) =>
      if e in s.w.pending && IsPartial(kind) { SpeakIsTruthful(cfg, s, e, kind, piece, now); }
    case Passes(now) => PassIsTruthful(cfg, s, now);
    case Closes(e, now) => if e in s.w.pending { SameMarksTruthful(s, CloseS(cfg, s, e, now)); }
    case _ => SameMarksTruthful(s, Step(cfg, s, ev));
  }

  // ----- the text --------------------------------------------------------------------------

  lemma {:induction false} ShownConcat(a: seq<Record>, b: seq<Record>, e: ExecutionId, from: nat)
    ensures Shown(a + b, e, from) == Shown(a, e, from) + Shown(b, e, from)
  {
    if a == [] {
      assert a + b == b;
    } else {
      assert (a + b)[1..] == a[1..] + b;
      ShownConcat(a[1..], b, e, from);
    }
  }

  lemma {:induction false} NoneShown(l: seq<Record>, e: ExecutionId, from: nat)
    requires forall r :: r in l ==> !Belongs(r, e, from)
    ensures Shown(l, e, from) == ""
  {
    if l != [] { NoneShown(l[1..], e, from); }
  }

  lemma ShownSnoc(l: seq<Record>, r: Record, e: ExecutionId, from: nat)
    ensures Shown(l + [r], e, from)
         == Shown(l, e, from) + (if Belongs(r, e, from) && r.text.Some? then r.text.value else "")
  {
    ShownConcat(l, [r], e, from);
    assert Shown([r][1..], e, from) == "";
  }

  /** The same records and the same story of each segment. */
  ghost predicate SameStory(a: Segment, b: Segment) {
    b.kind == a.kind && b.cut == a.cut && b.from == a.from && b.whole == a.whole
  }

  lemma QuietTold(s: System, t: System)
    requires AllTold(s) && Sent(t) == Sent(s) && t.segments.Keys <= s.segments.Keys
    requires forall e :: e in t.segments ==> SameStory(s.segments[e], t.segments[e])
    requires forall e :: e in t.segments ==> Counter(s.w, e) <= Counter(t.w, e)
    ensures AllTold(t)
  {
    forall e ensures Told(t, e) {
      assert Told(s, e);
    }
  }

  /** One record more at the end: the story of its segment is longer by its text. */
  ghost predicate Continues(s: System, t: System, r: Record) {
    Sent(t) == Sent(s) + [r] && IsPartial(r.kind) && r.text.Some? && r.num == Counter(s.w, r.exec) &&
    r.exec in s.segments && s.segments[r.exec].kind == Some(r.kind) && t.segments.Keys == s.segments.Keys &&
    (forall x :: x in s.segments ==>
       var a, b := s.segments[x], t.segments[x];
       b.kind == a.kind && b.from == a.from && b.whole == a.whole &&
       b.cut == (if x == r.exec then a.cut + r.text.value else a.cut)) &&
    forall x :: x in s.segments ==> Counter(s.w, x) <= Counter(t.w, x)
  }

  lemma ContinuesIsTold(s: System, t: System, r: Record, x: ExecutionId)
    requires Told(s, x) && Continues(s, t, r)
    ensures Told(t, x)
  {
    if x in s.segments { ShownSnoc(Sent(s), r, x, s.segments[x].from); }
  }

  lemma DroppedIsTold(s: System, t: System, e: ExecutionId, x: ExecutionId)
    requires Told(s, x) && Sent(t) == Sent(s) && t.segments.Keys == s.segments.Keys && t.w.counters == s.w.counters
    requires x in s.segments && x != e ==> t.segments[x] == s.segments[x]
    requires x in s.segments && x == e ==>
               var a, b := s.segments[x], t.segments[x];
               b.kind == a.kind && b.from == a.from && (b.whole ==> a.whole && b.cut == a.cut)
    ensures Told(t, x)
  {
  }

  /** A flush adds to the records what it adds to the story, or the segment is not whole. */
  lemma FlushIsTold(cfg: Config, s: System, e: ExecutionId, now: real, final: bool)
    requires AllTold(s) && e in s.w.pending && s.w.pending[e].kind.Some? && IsPartial(s.w.pending[e].kind.value)
    requires e in s.segments && s.segments[e].kind == s.w.pending[e].kind
    ensures AllTold(FlushS(cfg, s, e, now, final))
  {
    var t, p := FlushS(cfg, s, e, now, final), s.w.pending[e];
    var out := Out(Join(p.parts), p.secrets);
    if out != "" && |s.w.queue| < cfg.maxQueue {
      var r := Record(e, Counter(s.w, e), p.kind.value, Some(out), None);
      assert Sent(t) == Sent(s) + [r];
      assert Continues(s, t, r);
      forall x ensures Told(t, x) { ContinuesIsTold(s, t, r, x); }
    } else {
      assert Sent(t) == Sent(s);
      forall x ensures Told(t, x) { DroppedIsTold(s, t, e, x); }
    }
  }

  lemma {:induction false} FlushDueIsTold(cfg: Config, s: System, ids: seq<ExecutionId>, now: real, final: bool)
    requires ValidConfig(cfg) && AllTold(s) && TextOk(cfg, s)
    ensures AllTold(FlushDueS(cfg, s, ids, now, final))
    decreases |ids|
  {
    if ids != [] {
      var most, e := FlushDueS(cfg, s, ids[..|ids| - 1], now, final), ids[|ids| - 1];
      FlushDueIsTold(cfg, s, ids[..|ids| - 1], now, final);
      FlushDueKeepsText(cfg, s, ids[..|ids| - 1], now, final);
      assert RunOk(cfg, most, e, cfg.maxBytes);
      if e in most.w.pending && most.w.pending[e].kind.Some? { FlushIsTold(cfg, most, e, now, final); }
    }
  }

  /** A new segment starts above every number of its execution, so nothing is shown of it. */
  lemma NothingShownYet(s: System, e: ExecutionId)
    requires Numbers(s)
    ensures forall r :: r in Sent(s) ==> !Belongs(r, e, Counter(s.w, e))
    ensures Shown(Sent(s), e, Counter(s.w, e)) == ""
  {
    forall r | r in Sent(s) ensures !Belongs(r, e, Counter(s.w, e)) {
      assert r in Line(s);
    }
    NoneShown(Sent(s), e, Counter(s.w, e));
  }

  lemma BeginIsTold(s: System, e: ExecutionId, kind: Kind, now: real)
    requires AllTold(s) && Numbers(s) && e in s.w.pending
    ensures AllTold(BeginS(s, e, kind, now))
  {
    var t, seg := BeginS(s, e, kind, now), SegmentOf(s, e);
    if s.w.pending[e].kind.None? {
      if seg.ended || seg.kind != Some(kind) {
        NothingShownYet(s, e);
        NewSegment(s, t, e, kind);
      } else {
        QuietTold(s, t);
      }
    }
  }

  lemma NewSegment(s: System, t: System, e: ExecutionId, kind: Kind)
    requires AllTold(s) && Sent(t) == Sent(s) && t.w.counters == s.w.counters
    requires forall r :: r in Sent(s) ==> !Belongs(r, e, Counter(s.w, e))
    requires Shown(Sent(s), e, Counter(s.w, e)) == ""
    requires t.segments == s.segments[e := Segment(Some(kind), "", "", false, Counter(s.w, e), "", true, false)]
    ensures AllTold(t)
  {
    forall x ensures Told(t, x) {
      assert Told(s, x);
      assert x != e && x in t.segments ==> t.segments[x] == s.segments[x];
    }
  }

  lemma ReopenIsTold(cfg: Config, s: System, e: ExecutionId, kind: Kind, now: real)
    requires ValidConfig(cfg) && Sound(cfg, s) && e in s.w.pending && IsPartial(kind)
    ensures AllTold(ReopenS(cfg, s, e, kind, now))
  {
    var p := s.w.pending[e];
    assert RunOk(cfg, s, e, cfg.maxBytes);
    if p.kind.Some? && p.kind.value != kind {
      FlushIsTold(cfg, s, e, now, true);
      FlushKeepsLedger(cfg, s, e, now, true);
      BeginIsTold(FlushS(cfg, s, e, now, true), e, kind, now);
    } else {
      BeginIsTold(s, e, kind, now);
    }
  }

  lemma SpeakIsTold(cfg: Config, s: System, e: ExecutionId, kind: Kind, text: string, now: real)
    requires ValidConfig(cfg) && Sound(cfg, s) && e in s.w.pending && IsPartial(kind)
    ensures AllTold(SpeakS(cfg, s, e, kind, text, now))
  {
    ReopenIsTold(cfg, s, e, kind, now);
    ReopenKeepsText(cfg, s, e, kind, now);
    FeedIsTold(cfg, ReopenS(cfg, s, e, kind, now), e, Cut(cfg, text), now);
  }

  lemma FeedIsTold(cfg: Config, s: System, e: ExecutionId, piece: string, now: real)
    requires TextOk(cfg, s) && AllTold(s) && e in s.w.pending && s.w.pending[e].kind.Some?
    ensures AllTold(FeedS(s, e, piece)) && AllTold(FlushS(cfg, FeedS(s, e, piece), e, now, false))
  {
    assert RunOk(cfg, s, e, cfg.maxBytes);
    var fed := FeedS(s, e, piece);
    QuietTold(s, fed);
    FlushIsTold(cfg, fed, e, now, false);
  }

  lemma SettleIsTold(cfg: Config, s: System, e: ExecutionId, kind: Kind, now: real)
    requires ValidConfig(cfg) && Sound(cfg, s)
    ensures AllTold(SettleS(cfg, s, e, kind, now))
  {
    assert RunOk(cfg, s, e, cfg.maxBytes);
    if e in s.w.pending && s.w.pending[e].kind.Some? {
      if SupersededBy(s.w.pending[e].kind.value) == kind {
        QuietTold(s, SettleS(cfg, s, e, kind, now));
      } else {
        FlushIsTold(cfg, s, e, now, true);
      }
    }
  }

  /** An overflow that takes a piece of a segment marks the segment. */
  lemma RoomIsTold(cfg: Config, s: System)
    requires ValidConfig(cfg) && s.w.queue != [] && AllTold(s)
    ensures AllTold(RoomS(cfg, s))
  {
    var t, d := RoomS(cfg, s), s.w.queue[0];
    forall e ensures Told(t, e) {
      assert Told(s, e);
      if e in s.segments {
        var from := s.segments[e].from;
        ShownConcat(s.taken, s.w.queue, e, from);
        ShownConcat(s.taken, t.w.queue, e, from);
      }
    }
  }

  lemma PushIsTold(s: System, r: Record)
    requires AllTold(s) && !IsPartial(r.kind)
    ensures AllTold(PushS(s, r))
  {
    var t := PushS(s, r);
    assert Sent(t) == Sent(s) + [r];
    forall e ensures Told(t, e) {
      assert Told(s, e);
      if e in s.segments { ShownSnoc(Sent(s), r, e, s.segments[e].from); }
    }
  }

  lemma OfferIsTold(cfg: Config, s: System, r: Record, now: real)
    requires ValidConfig(cfg) && Sound(cfg, s) && IsComplete(r.kind)
    ensures AllTold(OfferS(cfg, s, r, now))
  {
    SettleIsTold(cfg, s, r.exec, r.kind, now);
    var settled := SettleS(cfg, s, r.exec, r.kind, now);
    var (w, numbered) := Numbered(settled, r);
    var renumbered := settled.(w := w, inflight := s.inflight - {r.exec});
    QuietTold(settled, renumbered);
    if |renumbered.w.queue| >= cfg.maxQueue {
      RoomIsTold(cfg, renumbered);
      PushIsTold(RoomS(cfg, renumbered), numbered);
    } else {
      PushIsTold(renumbered, numbered);
    }
  }

  lemma CloseIsTold(cfg: Config, s: System, e: ExecutionId, now: real)
    requires ValidConfig(cfg) && Sound(cfg, s) && e in s.w.pending
    ensures AllTold(CloseS(cfg, s, e, now))
  {
    assert RunOk(cfg, s, e, cfg.maxBytes);
    if s.w.pending[e].kind.Some? {
      FlushIsTold(cfg, s, e, now, true);
      QuietTold(FlushS(cfg, s, e, now, true), CloseS(cfg, s, e, now));
    } else {
      QuietTold(s, CloseS(cfg, s, e, now));
    }
  }

  lemma OpenIsTold(cfg: Config, s: System, e: ExecutionId, secrets: seq<string>)
    requires Sound(cfg, s) && e !in s.w.counters
    ensures AllTold(OpenS(s, e, secrets))
  {
    assert RunOk(cfg, s, e, cfg.maxBytes);
    QuietTold(s, OpenS(s, e, secrets));
  }

  lemma TakeShows(taken: seq<Record>, markers: seq<Record>, records: seq<Record>, rest: seq<Record>,
                  e: ExecutionId, from: nat)
    requires forall r :: r in markers ==> !Belongs(r, e, from)
    ensures Shown(taken + (markers + records) + rest, e, from) == Shown(taken + (records + rest), e, from)
  {
    NoneShown(markers, e, from);
    ShownConcat(taken + (markers + records), rest, e, from);
    ShownConcat(taken, markers + records, e, from);
    ShownConcat(markers, records, e, from);
    ShownConcat(taken, records + rest, e, from);
    ShownConcat(records, rest, e, from);
  }

  lemma TakeIsTold(s: System, t: System, g: nat, q: nat)
    requires AllTold(s) && Kinds(s) && g <= |s.w.gaps| && q <= |s.w.queue|
    requires t.w.queue == s.w.queue[q..] && t.taken == s.taken + (s.w.gaps[..g] + s.w.queue[..q])
    requires t.segments == s.segments && t.w.counters == s.w.counters
    ensures AllTold(t)
  {
    var markers, records := s.w.gaps[..g], s.w.queue[..q];
    assert s.w.queue == records + t.w.queue;
    forall e ensures Told(t, e) {
      assert Told(s, e);
      if e in s.segments {
        TakeShows(s.taken, markers, records, t.w.queue, e, s.segments[e].from);
      }
    }
  }

  lemma PassIsTold(cfg: Config, s: System, now: real)
    requires ValidConfig(cfg) && Sound(cfg, s)
    ensures AllTold(PassS(cfg, s, now))
  {
    FlushDueIsTold(cfg, s, s.w.order, now, s.w.stopping);
    PassGrabs(cfg, s, now);
    DueKeepsMarks(cfg, s, now);
    GrabIsTold(cfg, FlushDueS(cfg, s, s.w.order, now, s.w.stopping), PassS(cfg, s, now), now);
  }

  lemma GrabIsTold(cfg: Config, s: System, t: System, now: real)
    requires AllTold(s) && Kinds(s) && Grabs(cfg, s, t, now)
    ensures AllTold(t)
  {
    if Grab(cfg, s.w, now).1.Batch? {
      TakeIsTold(s, t, GapsTaken(cfg, s.w), QueueTaken(cfg, s.w));
    } else {
      QuietTold(s, t);
    }
  }

  lemma StepIsTold(cfg: Config, s: System, ev: Event)
    requires ValidConfig(cfg) && Sound(cfg, s)
    ensures AllTold(Step(cfg, s, ev))
  {
    match ev
    case Draws(e) => QuietTold(s, Step(cfg, s, ev));
    case Offers(e, kind, text, tool, now) =>
      if e in s.inflight && IsComplete(kind) {
        OfferIsTold(cfg, s, Record(e, s.inflight[e], kind, text, tool), now);
      }
    case Speaks(e, kind, piece, now) =>
      if e in s.w.pending && IsPartial(kind) { SpeakIsTold(cfg, s, e, kind, piece, now); }
    case Opens(e, secrets) => if e !in s.w.counters { OpenIsTold(cfg, s, e, secrets); }
    case Closes(e, now) => if e in s.w.pending { CloseIsTold(cfg, s, e, now); }
    case Passes(now) => PassIsTold(cfg, s, now);
    case Stops => QuietTold(s, Step(cfg, s, ev));
  }

  lemma {:induction false} SoundHolds(cfg: Config, s: System, events: seq<Event>)
    requires ValidConfig(cfg) && Sound(cfg, s)
    ensures Sound(cfg, Exec(cfg, s, events))
    decreases |events|
  {
    if events != [] {
      StepKeepsShape(cfg, s, events[0]);
      StepKeepsLedger(cfg, s, events[0]);
      StepKeepsText(cfg, s, events[0]);
      StepIsTold(cfg, s, events[0]);
      StepIsTruthful(cfg, s, events[0]);
      SoundHolds(cfg, Step(cfg, s, events[0]), events[1..]);
    }
  }

  lemma InitSound(cfg: Config, s: System)
    requires ValidConfig(cfg) && Init(s)
    ensures Sound(cfg, s)
  {
    InitLedger(s);
    assert forall e :: RunOk(cfg, s, e, cfg.maxBytes);
  }
}
