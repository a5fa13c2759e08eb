/** What every step of the worker keeps of the live text of a run, and of the size of all that it
    holds, whatever the producers and the sink do: the segment of each execution stays guarded,
    its buffer begins with the tail that the last flush held back, `size` is the size of the
    buffer in bytes and below its limit, and no partial record is larger than two limits.
    `DeltaPromises` states what follows over whole runs. */
module DeltaText {
  import opened Wrappers
  import opened Text
  import opened SecretRedaction
  import opened LiveText
  import opened DeltaWorker
  import opened DeltaSystem
  import DeltaLedger

  /** Secrets long enough that the mask never grows the text, short enough that a held-back
      tail stays under the buffer's bound. */
  ghost predicate Short(cfg: Config, secrets: seq<string>) {
    forall s :: s in secrets ==> 3 <= Utf8Size(s) < cfg.maxBytes
  }

  ghost predicate HeadOfSecret(text: string, secrets: seq<string>) {
    text == "" || exists i :: 0 <= i < |secrets| && text < secrets[i]
  }

  /** The text of an open segment that its flushes have not cut off: what is buffered, or what
      the last flush held back. */
  ghost function Kept(s: System, e: ExecutionId): string {
    if e in s.w.pending && s.w.pending[e].kind.Some? then Join(s.w.pending[e].parts) else SegmentOf(s, e).tail
  }

  /** Nothing but secrets is changed: while no secret was spoken, what was cut off and what is
      kept are what was spoken. */
  ghost predicate Faithful(s: System, e: ExecutionId, secrets: seq<string>) {
    var seg := SegmentOf(s, e);
    (seg.replaced ==> seg.ended) && HeadOfSecret(seg.tail, secrets) &&
    (Maskable(secrets) && Clean(seg.spoken, secrets) ==>
      if seg.replaced then seg.cut <= seg.spoken else seg.cut + Kept(s, e) == seg.spoken)
  }

  /** One execution's text: its segment is guarded, its buffer begins with the held-back tail,
      and `size` is the buffer's size in bytes, below `limit`. */
  ghost predicate RunOk(cfg: Config, s: System, e: ExecutionId, limit: nat) {
    var seg := SegmentOf(s, e);
    (e in s.openings ==> e in s.w.counters) &&
    (e in s.segments ==>
      e in s.openings && Faithful(s, e, s.openings[e]) &&
      (Maskable(s.openings[e]) ==> Guarded(seg.cut, seg.tail, s.openings[e]))) &&
    (e in s.w.pending ==>
      var p := s.w.pending[e];
      && e in s.openings && p.secrets == s.openings[e]
      && p.size == Utf8Size(Join(p.parts)) && (Short(cfg, p.secrets) ==> p.size < limit)
      && (p.kind.Some? ==> IsPartial(p.kind.value) && e in s.segments)
      && (p.kind.Some? ==> !seg.ended && seg.kind == p.kind && seg.tail <= Join(p.parts))
      && (p.kind.None? ==> p.parts == [] && (seg.ended || seg.tail == "")))
  }

  /** A partial record carries some text, bounded, with none of its run's secrets; a marker
      carries nothing. */
  ghost predicate PieceOk(cfg: Config, s: System, r: Record) {
    (IsPartial(r.kind) ==>
      r.exec in s.openings && r.text.Some? && r.text.value != "" && r.tool.None? &&
      (Maskable(s.openings[r.exec]) ==> Clean(r.text.value, s.openings[r.exec])) &&
      (Short(cfg, s.openings[r.exec]) ==> Utf8Size(r.text.value) < 2 * cfg.maxBytes)) &&
    (r.kind == Gap ==> r.text.None? && r.tool.None?)
  }

  ghost predicate LineOk(cfg: Config, s: System) {
    |s.w.queue| <= cfg.maxQueue && |s.w.gaps| <= cfg.maxGaps &&
    (forall r :: r in s.taken ==> PieceOk(cfg, s, r)) &&
    (forall r :: r in s.w.gaps ==> r.kind == Gap && PieceOk(cfg, s, r)) &&
    (forall r :: r in s.w.queue ==> PieceOk(cfg, s, r))
  }

  ghost predicate TextOk(cfg: Config, s: System) {
    LineOk(cfg, s) && forall e :: RunOk(cfg, s, e, cfg.maxBytes)
  }

  /** All is well but the buffer of `e`, which may have just been fed. */
  ghost predicate TextOkBut(cfg: Config, s: System, e: ExecutionId) {
    LineOk(cfg, s) && RunOk(cfg, s, e, 2 * cfg.maxBytes) &&
    forall x :: x != e ==> RunOk(cfg, s, x, cfg.maxBytes)
  }

  /** The same segment, whether or not a piece of it was lost in between. */
  ghost predicate SameText(a: Segment, b: Segment) {
    b == a.(whole := b.whole)
  }

  /** The parts of two systems that an execution's text depends on. */
  ghost predicate SameRun(s: System, t: System, e: ExecutionId) {
    (e in t.w.pending <==> e in s.w.pending) && (e in s.w.pending ==> t.w.pending[e] == s.w.pending[e]) &&
    (e in t.segments <==> e in s.segments) && (e in s.segments ==> SameText(s.segments[e], t.segments[e])) &&
    t.openings == s.openings && s.w.counters.Keys <= t.w.counters.Keys
  }

  lemma SameRunOk(cfg: Config, s: System, t: System, e: ExecutionId, limit: nat)
    requires RunOk(cfg, s, e, limit) && SameRun(s, t, e)
    ensures RunOk(cfg, t, e, limit)
  {
  }

  lemma FlushIsFaithful(cut: string, buffer: string, secrets: seq<string>)
    requires Maskable(secrets) && Clean(cut + buffer, secrets)
    ensures cut + Out(buffer, secrets) + Tail(buffer, secrets) == cut + buffer
  {
    var whole := cut + buffer;
    assert whole[|cut|..] == buffer == buffer + "";
    forall s | s in secrets ensures !Occurs(s, buffer) { OccursInTail(s, whole, |cut|); }
    CleanFlush(buffer, "", secrets);
    assert cut + Out(buffer, secrets) + Tail(buffer, secrets) == cut + (Out(buffer, secrets) + Tail(buffer, secrets));
  }

  lemma CleanHead(text: string, more: string, secrets: seq<string>)
    requires Clean(text + more, secrets)
    ensures Clean(text, secrets)
  {
    assert (text + more)[..|text|] == text;
    forall s | s in secrets ensures !Occurs(s, text) { OccursInHead(s, text + more, |text|); }
  }

  lemma FlushedIsFaithful(cfg: Config, s: System, e: ExecutionId, now: real, final: bool)
    requires e in s.w.pending && s.w.pending[e].kind.Some? && !SegmentOf(s, e).ended
    requires Faithful(s, e, s.w.pending[e].secrets)
    ensures Faithful(FlushS(cfg, s, e, now, final), e, s.w.pending[e].secrets)
  {
    var p, seg := s.w.pending[e], SegmentOf(s, e);
    var buffer := Join(p.parts);
    var tail := Tail(buffer, p.secrets);
    TailIsProperPrefix(buffer, p.secrets);
    assert Join([tail]) == tail + Join([]) == tail;
    if Maskable(p.secrets) && Clean(seg.spoken, p.secrets) { FlushIsFaithful(seg.cut, buffer, p.secrets); }
  }

  /** One flush: the guard moves on, and both the piece and what is kept are bounded. */
  lemma FlushedRun(cfg: Config, s: System, e: ExecutionId, now: real, final: bool)
    requires ValidConfig(cfg) && e in s.w.pending && s.w.pending[e].kind.Some?
    requires RunOk(cfg, s, e, 2 * cfg.maxBytes)
    ensures RunOk(cfg, FlushS(cfg, s, e, now, final), e, cfg.maxBytes)
  {
    var t, p, seg := FlushS(cfg, s, e, now, final), s.w.pending[e], SegmentOf(s, e);
    var buffer := Join(p.parts);
    var out, tail := Out(buffer, p.secrets), Tail(buffer, p.secrets);
    if Maskable(p.secrets) {
      assert buffer == seg.tail + buffer[|seg.tail|..];
      FlushKeepsGuarded(seg.cut, seg.tail, buffer[|seg.tail|..], p.secrets);
    }
    assert t.segments[e] == seg.(cut := seg.cut + out, tail := tail, ended := final, whole := t.segments[e].whole);
    assert Join([tail]) == tail + Join([]) == tail;
    FlushedIsFaithful(cfg, s, e, now, final);
    if Short(cfg, p.secrets) { TailIsShort(cfg, buffer, p.secrets); }
  }

  lemma TailIsShort(cfg: Config, buffer: string, secrets: seq<string>)
    requires Short(cfg, secrets) && cfg.maxBytes >= 1
    ensures Utf8Size(Tail(buffer, secrets)) < cfg.maxBytes
  {
    TailIsProperPrefix(buffer, secrets);
    var tail := Tail(buffer, secrets);
    if tail != "" {
      var i :| 0 <= i < |secrets| && tail < secrets[i];
      assert secrets[i] == tail + secrets[i][|tail|..] && secrets[i] in secrets;
      Utf8SizeConcat(tail, secrets[i][|tail|..]);
    }
  }

  lemma PieceIsBounded(cfg: Config, buffer: string, secrets: seq<string>)
    requires Short(cfg, secrets)
    ensures Utf8Size(Out(buffer, secrets)) <= Utf8Size(buffer)
  {
    RedactDoesNotGrow(buffer, secrets);
    Utf8SizeConcat(Out(buffer, secrets), Tail(buffer, secrets));
    assert Redact(buffer, secrets) == Out(buffer, secrets) + Tail(buffer, secrets);
  }

  lemma PieceIsClean(buffer: string, secrets: seq<string>)
    requires Maskable(secrets)
    ensures Clean(Out(buffer, secrets), secrets)
  {
    var text := Redact(buffer, secrets);
    RedactIsClean(buffer, secrets);
    forall s | s in secrets ensures !Occurs(s, Out(buffer, secrets)) {
      OccursInHead(s, text, |text| - HeldBack(text, secrets));
    }
  }

  lemma FlushedLine(cfg: Config, s: System, e: ExecutionId, now: real, final: bool)
    requires e in s.w.pending && s.w.pending[e].kind.Some?
    requires LineOk(cfg, s) && RunOk(cfg, s, e, 2 * cfg.maxBytes)
    ensures LineOk(cfg, FlushS(cfg, s, e, now, final))
  {
    var t, p := FlushS(cfg, s, e, now, final), s.w.pending[e];
    forall r | PieceOk(cfg, s, r) ensures PieceOk(cfg, t, r) { }
    if Short(cfg, p.secrets) { PieceIsBounded(cfg, Join(p.parts), p.secrets); }
    if Maskable(p.secrets) { PieceIsClean(Join(p.parts), p.secrets); }
    if |t.w.queue| > |s.w.queue| {
      assert PieceOk(cfg, t, t.w.queue[|s.w.queue|]);
    }
  }

  lemma FlushKeepsText(cfg: Config, s: System, e: ExecutionId, now: real, final: bool)
    requires ValidConfig(cfg) && TextOkBut(cfg, s, e) && e in s.w.pending && s.w.pending[e].kind.Some?
    ensures TextOk(cfg, FlushS(cfg, s, e, now, final))
  {
    var t := FlushS(cfg, s, e, now, final);
    FlushedRun(cfg, s, e, now, final);
    FlushedLine(cfg, s, e, now, final);
    forall x | x != e ensures RunOk(cfg, t, x, cfg.maxBytes) {
      SameRunOk(cfg, s, t, x, cfg.maxBytes);
    }
  }

  lemma TextOkIsTextOkBut(cfg: Config, s: System, e: ExecutionId)
    requires TextOk(cfg, s)
    ensures TextOkBut(cfg, s, e)
  {
    assert RunOk(cfg, s, e, cfg.maxBytes);
  }

  lemma {:induction false} FlushDueKeepsText(cfg: Config, s: System, ids: seq<ExecutionId>, now: real, final: bool)
    requires ValidConfig(cfg) && TextOk(cfg, s)
    ensures TextOk(cfg, FlushDueS(cfg, s, ids, now, final))
    decreases |ids|
  {
    if ids != [] {
      var most, e := FlushDueS(cfg, s, ids[..|ids| - 1], now, final), ids[|ids| - 1];
      FlushDueKeepsText(cfg, s, ids[..|ids| - 1], now, final);
      TextOkIsTextOkBut(cfg, most, e);
      if e in most.w.pending && most.w.pending[e].kind.Some? { FlushKeepsText(cfg, most, e, now, final); }
    }
  }

  /** A change to one execution's text and to nothing else. */
  lemma OneRunChanged(cfg: Config, s: System, t: System, e: ExecutionId)
    requires TextOk(cfg, s) && RunOk(cfg, t, e, 2 * cfg.maxBytes)
    requires t.w.queue == s.w.queue && t.w.gaps == s.w.gaps && t.taken == s.taken
    requires forall x :: x != e ==> SameRun(s, t, x)
    requires t.openings == s.openings
    ensures TextOkBut(cfg, t, e)
  {
    forall r | PieceOk(cfg, s, r) ensures PieceOk(cfg, t, r) { }
    forall x | x != e ensures RunOk(cfg, t, x, cfg.maxBytes) { SameRunOk(cfg, s, t, x, cfg.maxBytes); }
  }

  lemma WholeAgain(cfg: Config, s: System, e: ExecutionId)
    requires TextOkBut(cfg, s, e) && RunOk(cfg, s, e, cfg.maxBytes)
    ensures TextOk(cfg, s)
  {
  }

  lemma BeginKeepsText(cfg: Config, s: System, e: ExecutionId, kind: Kind, now: real)
    requires ValidConfig(cfg) && TextOk(cfg, s) && e in s.w.pending && IsPartial(kind)
    ensures TextOk(cfg, BeginS(s, e, kind, now))
  {
    var t, seg := BeginS(s, e, kind, now), SegmentOf(s, e);
    assert RunOk(cfg, s, e, cfg.maxBytes);
    if s.w.pending[e].kind.None? {
      if Maskable(s.openings[e]) { GuardedStart(s.openings[e]); }
      assert RunOk(cfg, t, e, cfg.maxBytes);
      OneRunChanged(cfg, s, t, e);
      WholeAgain(cfg, t, e);
    }
  }

  lemma CutIsBounded(cfg: Config, text: string)
    ensures Utf8Size(Cut(cfg, text)) <= cfg.maxBytes
  {
    Utf8SizeBounds(text);
  }

  lemma FedIsFaithful(s: System, e: ExecutionId, secrets: seq<string>, piece: string)
    requires e in s.w.pending && s.w.pending[e].kind.Some? && Faithful(s, e, secrets) && !SegmentOf(s, e).ended
    ensures Faithful(FeedS(s, e, piece), e, secrets)
  {
    var p, seg := s.w.pending[e], SegmentOf(s, e);
    JoinAppend(p.parts, piece);
    if Maskable(secrets) && Clean(seg.spoken + piece, secrets) {
      CleanHead(seg.spoken, piece, secrets);
      assert seg.cut + (Join(p.parts) + piece) == seg.cut + Join(p.parts) + piece;
    }
  }

  lemma FeedKeepsText(cfg: Config, s: System, e: ExecutionId, text: string)
    requires TextOk(cfg, s) && e in s.w.pending && s.w.pending[e].kind.Some?
    ensures TextOkBut(cfg, FeedS(s, e, Cut(cfg, text)), e)
  {
    var t, p, piece := FeedS(s, e, Cut(cfg, text)), s.w.pending[e], Cut(cfg, text);
    assert RunOk(cfg, s, e, cfg.maxBytes);
    JoinAppend(p.parts, piece);
    Utf8SizeConcat(Join(p.parts), piece);
    CutIsBounded(cfg, text);
    FedIsFaithful(s, e, s.openings[e], piece);
    assert RunOk(cfg, t, e, 2 * cfg.maxBytes);
    OneRunChanged(cfg, s, t, e);
  }

  lemma ReopenKeepsText(cfg: Config, s: System, e: ExecutionId, kind: Kind, now: real)
    requires ValidConfig(cfg) && TextOk(cfg, s) && e in s.w.pending && IsPartial(kind)
    ensures var t := ReopenS(cfg, s, e, kind, now);
            TextOk(cfg, t) && e in t.w.pending && t.w.pending[e].kind.Some?
  {
    var p := s.w.pending[e];
    TextOkIsTextOkBut(cfg, s, e);
    if p.kind.Some? && p.kind.value != kind { FlushKeepsText(cfg, s, e, now, true); }
    BeginKeepsText(cfg, if p.kind.Some? && p.kind.value != kind then FlushS(cfg, s, e, now, true) else s,
                   e, kind, now);
  }

  lemma SpeakKeepsText(cfg: Config, s: System, e: ExecutionId, kind: Kind, text: string, now: real)
    requires ValidConfig(cfg) && TextOk(cfg, s) && e in s.w.pending && IsPartial(kind)
    ensures TextOk(cfg, SpeakS(cfg, s, e, kind, text, now))
  {
    ReopenKeepsText(cfg, s, e, kind, now);
    var reopened := ReopenS(cfg, s, e, kind, now);
    FeedKeepsText(cfg, reopened, e, text);
    var fed := FeedS(reopened, e, Cut(cfg, text));
    if fed.w.pending[e].size >= cfg.maxBytes {
      FlushKeepsText(cfg, fed, e, now, false);
    } else {
      WholeAgain(cfg, fed, e);
    }
  }

  lemma SettleKeepsText(cfg: Config, s: System, e: ExecutionId, kind: Kind, now: real)
    requires ValidConfig(cfg) && TextOk(cfg, s) && WellFormed(s.w)
    ensures TextOk(cfg, SettleS(cfg, s, e, kind, now))
  {
    if e in s.w.pending && s.w.pending[e].kind.Some? {
      assert RunOk(cfg, s, e, cfg.maxBytes);
      if SupersededBy(s.w.pending[e].kind.value) == kind {
        var t := SettleS(cfg, s, e, kind, now);
        assert RunOk(cfg, t, e, cfg.maxBytes);
        OneRunChanged(cfg, s, t, e);
        WholeAgain(cfg, t, e);
      } else {
        TextOkIsTextOkBut(cfg, s, e);
        FlushKeepsText(cfg, s, e, now, true);
      }
    }
  }

  /** Changes to the line alone: what enters it is complete, what leaves it leaves. */
  lemma LineChanged(cfg: Config, s: System, t: System)
    requires TextOk(cfg, s)
    requires t.w.pending == s.w.pending && t.openings == s.openings && t.segments.Keys == s.segments.Keys
    requires forall e :: e in s.segments ==> SameText(s.segments[e], t.segments[e])
    requires s.w.counters.Keys <= t.w.counters.Keys
    requires |t.w.queue| <= cfg.maxQueue && |t.w.gaps| <= cfg.maxGaps
    requires forall r :: r in t.w.queue ==> r in s.w.queue || IsComplete(r.kind)
    requires forall r :: r in t.w.gaps ==> r in s.w.gaps || (r.kind == Gap && r.text.None? && r.tool.None?)
    requires forall r :: r in t.taken ==> r in s.taken || r in s.w.gaps || r in s.w.queue
    ensures TextOk(cfg, t)
  {
    forall r | PieceOk(cfg, s, r) ensures PieceOk(cfg, t, r) { }
    forall e ensures RunOk(cfg, t, e, cfg.maxBytes) { SameRunOk(cfg, s, t, e, cfg.maxBytes); }
  }

  lemma AppendKeepsText(cfg: Config, s: System, r: Record)
    requires ValidConfig(cfg) && TextOk(cfg, s) && IsComplete(r.kind)
    ensures TextOk(cfg, AppendS(cfg, s, r))
  {
    LineChanged(cfg, s, AppendS(cfg, s, r));
  }

  lemma OfferKeepsText(cfg: Config, s: System, r: Record, now: real)
    requires ValidConfig(cfg) && TextOk(cfg, s) && WellFormed(s.w) && IsComplete(r.kind)
    ensures TextOk(cfg, OfferS(cfg, s, r, now))
  {
    SettleKeepsText(cfg, s, r.exec, r.kind, now);
    var settled := SettleS(cfg, s, r.exec, r.kind, now);
    var (w, numbered) := Numbered(settled, r);
    var renumbered := settled.(w := w, inflight := s.inflight - {r.exec});
    LineChanged(cfg, settled, renumbered);
    AppendKeepsText(cfg, renumbered, numbered);
  }

  /** The buffer is gone and the segment, if there is one, has ended. */
  lemma ClosedKeepsText(cfg: Config, s: System, t: System, e: ExecutionId)
    requires ValidConfig(cfg) && TextOk(cfg, s) && e in s.w.pending && s.w.pending[e].kind.None?
    requires t.w.queue == s.w.queue && t.w.gaps == s.w.gaps && t.taken == s.taken
    requires t.w.pending == s.w.pending - {e} && t.w.counters == s.w.counters && t.openings == s.openings
    requires t.segments == if e in s.segments then s.segments[e := s.segments[e].(ended := true)] else s.segments
    ensures TextOk(cfg, t)
  {
    assert RunOk(cfg, s, e, cfg.maxBytes);
    assert RunOk(cfg, t, e, cfg.maxBytes);
    OneRunChanged(cfg, s, t, e);
    WholeAgain(cfg, t, e);
  }

  lemma CloseKeepsText(cfg: Config, s: System, e: ExecutionId, now: real)
    requires ValidConfig(cfg) && TextOk(cfg, s) && e in s.w.pending
    ensures TextOk(cfg, CloseS(cfg, s, e, now))
  {
    if s.w.pending[e].kind.Some? {
      TextOkIsTextOkBut(cfg, s, e);
      FlushKeepsText(cfg, s, e, now, true);
      ClosedKeepsText(cfg, FlushS(cfg, s, e, now, true), CloseS(cfg, s, e, now), e);
    } else {
      ClosedKeepsText(cfg, s, CloseS(cfg, s, e, now), e);
    }
  }

  lemma OpenKeepsText(cfg: Config, s: System, e: ExecutionId, secrets: seq<string>)
    requires ValidConfig(cfg) && TextOk(cfg, s) && e !in s.w.counters
    ensures TextOk(cfg, OpenS(s, e, secrets))
  {
    var t := OpenS(s, e, secrets);
    assert RunOk(cfg, s, e, cfg.maxBytes);
    forall r | PieceOk(cfg, s, r) ensures PieceOk(cfg, t, r) { }
    forall x ensures RunOk(cfg, t, x, cfg.maxBytes) {
      assert RunOk(cfg, s, x, cfg.maxBytes);
    }
  }

  lemma TakeKeepsText(cfg: Config, s: System, t: System, g: nat, q: nat)
    requires TextOk(cfg, s) && g <= |s.w.gaps| && q <= |s.w.queue|
    requires t.w.gaps == s.w.gaps[g..] && t.w.queue == s.w.queue[q..]
    requires t.taken == s.taken + (s.w.gaps[..g] + s.w.queue[..q])
    requires t.w.pending == s.w.pending && t.segments == s.segments && t.openings == s.openings
    requires t.w.counters == s.w.counters
    ensures TextOk(cfg, t)
  {
    LineChanged(cfg, s, t);
  }

  lemma PassKeepsText(cfg: Config, s: System, now: real)
    requires ValidConfig(cfg) && TextOk(cfg, s)
    ensures TextOk(cfg, PassS(cfg, s, now))
  {
    FlushDueMatches(cfg, s, s.w.order, now, s.w.stopping);
    FlushDueKeepsText(cfg, s, s.w.order, now, s.w.stopping);
    var due := FlushDueS(cfg, s, s.w.order, now, s.w.stopping);
    if Pass(cfg, s.w, now).1.Batch? {
      TakeKeepsText(cfg, due, PassS(cfg, s, now), GapsTaken(cfg, due.w), QueueTaken(cfg, due.w));
    }
  }

  lemma StepKeepsText(cfg: Config, s: System, ev: Event)
    requires ValidConfig(cfg) && TextOk(cfg, s) && WellFormed(s.w)
    ensures TextOk(cfg, Step(cfg, s, ev))
  {
    match ev
    case Draws(e) => LineChanged(cfg, s, Step(cfg, s, ev));
    case Offers(e, kind, text, tool, now) =>
      if e in s.inflight && IsComplete(kind) {
        OfferKeepsText(cfg, s, Record(e, s.inflight[e], kind, text, tool), now);
      }
    case Speaks(e, kind, piece, now) =>
      if e in s.w.pending && IsPartial(kind) { SpeakKeepsText(cfg, s, e, kind, piece, now); }
    case Opens(e, secrets) => if e !in s.w.counters { OpenKeepsText(cfg, s, e, secrets); }
    case Closes(e, now) => if e in s.w.pending { CloseKeepsText(cfg, s, e, now); }
    case Passes(now) => PassKeepsText(cfg, s, now);
    case Stops => LineChanged(cfg, s, Step(cfg, s, ev));
  }

  lemma {:induction false} TextHolds(cfg: Config, s: System, events: seq<Event>)
    requires ValidConfig(cfg) && TextOk(cfg, s) && WellFormed(s.w)
    ensures TextOk(cfg, Exec(cfg, s, events))
    decreases |events|
  {
    if events != [] {
      StepKeepsShape(cfg, s, events[0]);
      StepKeepsText(cfg, s, events[0]);
      TextHolds(cfg, Step(cfg, s, events[0]), events[1..]);
    }
  }
}
