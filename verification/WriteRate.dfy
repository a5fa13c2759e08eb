/** The pace of the writer: the transaction rate that the head of `execution_deltas.py` promises,
    whatever the number of runs or tokens, as a bound over every run without a stop. */
module WriteRate {
  import opened DeltaWorker
  import opened DeltaSystem

  datatype Take = Take(at: real, rows: nat)

  /** The batches that go during a run, with the clock each saw. */
  ghost function Takes(cfg: Config, s: System, events: seq<Event>): seq<Take>
    requires ValidConfig(cfg) && WellFormed(s.w)
    decreases |events|
  {
    if events == [] then []
    else
      StepKeepsShape(cfg, s, events[0]);
      TakeOf(cfg, s, events[0]) + Takes(cfg, Step(cfg, s, events[0]), events[1..])
  }

  ghost function TakeOf(cfg: Config, s: System, ev: Event): seq<Take>
    requires ValidConfig(cfg)
  {
    if ev.Passes? && Pass(cfg, s.w, ev.now).1.Batch?
    then [Take(ev.now, |Pass(cfg, s.w, ev.now).1.records|)] else []
  }

  function Rows(takes: seq<Take>): nat {
    if takes == [] then 0 else takes[0].rows + Rows(takes[1..])
  }

  ghost predicate Paced(events: seq<Event>, from: real)
    decreases |events|
  {
    events != [] ==>
      !events[0].Stops? && (events[0].Passes? ==> from <= events[0].now) &&
      Paced(events[1..], if events[0].Passes? then events[0].now else from)
  }

  /** Each take is full, or at least `interval` after the one before (the first: after `last`). */
  ghost predicate Spaced(takes: seq<Take>, last: real, batch: nat, interval: real)
    decreases |takes|
  {
    takes != [] ==>
      last <= takes[0].at && (takes[0].rows == batch || last + interval <= takes[0].at) &&
      Spaced(takes[1..], takes[0].at, batch, interval)
  }

  ghost predicate SamePace(st: State, t: State) {
    t.nextWriteAt == st.nextWriteAt && t.stopping == st.stopping
  }

  lemma OfferKeepsPace(cfg: Config, st: State, r: Record, now: real)
    requires ValidConfig(cfg) && WellFormed(st)
    ensures SamePace(st, Offer(cfg, st, r, now))
  {
    assert SamePace(st, Settle(cfg, st, r.exec, r.kind, now));
  }

  lemma OfferPartialKeepsPace(cfg: Config, st: State, e: ExecutionId, kind: Kind, text: string, now: real)
    ensures SamePace(st, OfferPartial(cfg, st, e, kind, text, now))
  {
    if e in st.pending {
      assert SamePace(st, Reopen(cfg, st, e, kind, now));
      assert SamePace(st, Feed(Reopen(cfg, st, e, kind, now), e, Cut(cfg, text)));
    }
  }

  lemma StepKeepsPace(cfg: Config, s: System, ev: Event)
    requires ValidConfig(cfg) && WellFormed(s.w) && !ev.Stops?
    requires TakeOf(cfg, s, ev) == []
    ensures SamePace(s.w, Step(cfg, s, ev).w)
  {
    StepIsTheWorkers(cfg, s, ev);
    match ev
    case Offers(e, kind, text, tool, now) =>
      if e in s.inflight && IsComplete(kind) {
        OfferKeepsPace(cfg, s.w, Record(e, s.inflight[e], kind, text, tool), now);
      }
    case Speaks(e, kind, piece, now) => OfferPartialKeepsPace(cfg, s.w, e, kind, piece, now);
    case Passes(now) => FlushDueKeepsShape(cfg, s.w, s.w.order, now, s.w.stopping);
    case _ =>
  }

  /** The decision of one pass: a batch goes full, or not before the deadline; and it moves
      the deadline one interval past its own clock. */
  lemma PassIsSpaced(cfg: Config, s: System, now: real)
    requires ValidConfig(cfg) && WellFormed(s.w) && !s.w.stopping
    requires Pass(cfg, s.w, now).1.Batch?
    ensures |Pass(cfg, s.w, now).1.records| == cfg.batch || s.w.nextWriteAt <= now
    ensures PassS(cfg, s, now).w.nextWriteAt == now + cfg.writeInterval
    ensures !PassS(cfg, s, now).w.stopping
  {
    FlushDueKeepsShape(cfg, s.w, s.w.order, now, s.w.stopping);
  }

  lemma {:induction false} RunIsSpaced(cfg: Config, s: System, events: seq<Event>, from: real)
    requires ValidConfig(cfg) && WellFormed(s.w) && !s.w.stopping
    requires Paced(events, from) && s.w.nextWriteAt - cfg.writeInterval <= from
    ensures Spaced(Takes(cfg, s, events), s.w.nextWriteAt - cfg.writeInterval, cfg.batch, cfg.writeInterval)
    decreases |events|
  {
    if events != [] {
      var ev := events[0];
      StepKeepsShape(cfg, s, ev);
      var next := Step(cfg, s, ev);
      if TakeOf(cfg, s, ev) == [] {
        StepKeepsPace(cfg, s, ev);
        RunIsSpaced(cfg, next, events[1..], if ev.Passes? then ev.now else from);
        assert Takes(cfg, s, events) == Takes(cfg, next, events[1..]);
      } else {
        PassIsSpaced(cfg, s, ev.now);
        RunIsSpaced(cfg, next, events[1..], ev.now);
        var takes := Takes(cfg, s, events);
        assert takes == [takes[0]] + Takes(cfg, next, events[1..]);
        assert takes[1..] == Takes(cfg, next, events[1..]);
      }
    }
  }

  lemma {:induction false} SpacedIsBounded(takes: seq<Take>, last: real, batch: nat, interval: real)
    returns (full: nat, paced: nat)
    requires Spaced(takes, last, batch, interval) && interval > 0.0
    ensures |takes| == full + paced
    ensures full * batch <= Rows(takes)
    ensures paced as real * interval <= (if takes == [] then last else takes[|takes| - 1].at) - last
    ensures takes != [] ==> last <= takes[|takes| - 1].at
    decreases |takes|
  {
    if takes == [] {
      full, paced := 0, 0;
    } else {
      var f, p := SpacedIsBounded(takes[1..], takes[0].at, batch, interval);
      var end := if takes[1..] == [] then takes[0].at else takes[1..][|takes| - 2].at;
      assert end == takes[|takes| - 1].at;
      if takes[0].rows == batch {
        full, paced := f + 1, p;
        assert full * batch == f * batch + batch;
      } else {
        full, paced := f, p + 1;
        assert paced as real * interval == p as real * interval + interval;
      }
    }
  }

  lemma Divide(n: real, d: real, total: real)
    requires d > 0.0 && n * d <= total
    ensures n <= total / d
  {
    var q := total / d;
    assert q * d == total;
    assert (q - n) * d >= 0.0;
  }

  lemma Bound(takes: nat, full: nat, paced: nat, batch: nat, interval: real, rows: nat, span: real)
    requires takes == 1 + full + paced && batch >= 1 && interval > 0.0
    requires full * batch <= rows && paced as real * interval <= span
    ensures takes as real <= 1.0 + span / interval + rows as real / batch as real
  {
    Divide(paced as real, interval, span);
    assert (full * batch) as real == full as real * batch as real;
    Divide(full as real, batch as real, rows as real);
  }

  /** One batch, one more per interval from the first to the last, one more per full batch of rows. */
  ghost predicate AtRate(takes: seq<Take>, batch: nat, interval: real)
    requires takes != [] && batch >= 1 && interval > 0.0
  {
    |takes| as real <= 1.0 + (takes[|takes| - 1].at - takes[0].at) / interval + Rows(takes) as real / batch as real
  }

  /** Amortised write rate: from any state, over any events without a stop and under a clock
      that does not go back, the batches that go are at most one, plus one per interval
      between the first and the last, plus one per full batch of rows. */
  lemma WriteRateIsBounded(cfg: Config, s: System, events: seq<Event>)
    requires ValidConfig(cfg) && WellFormed(s.w) && !s.w.stopping
    requires exists from :: Paced(events, from)
    requires Takes(cfg, s, events) != []
    ensures AtRate(Takes(cfg, s, events), cfg.batch, cfg.writeInterval)
  {
    var from :| Paced(events, from);
    TailIsSpaced(cfg, s, events, from);
    SpacedRate(Takes(cfg, s, events), cfg.batch, cfg.writeInterval);
  }

  lemma SpacedRate(takes: seq<Take>, batch: nat, interval: real)
    requires takes != [] && batch >= 1 && interval > 0.0
    requires Spaced(takes[1..], takes[0].at, batch, interval)
    ensures takes[|takes| - 1].at >= takes[0].at && AtRate(takes, batch, interval)
  {
    var rest := takes[1..];
    var full, paced := SpacedIsBounded(rest, takes[0].at, batch, interval);
    assert rest != [] ==> rest[|rest| - 1] == takes[|takes| - 1];
    Bound(|takes|, full, paced, batch, interval, Rows(takes), takes[|takes| - 1].at - takes[0].at);
  }

  /** After the first take the pace holds, wherever the deadline stood before it. */
  lemma {:induction false} TailIsSpaced(cfg: Config, s: System, events: seq<Event>, from: real)
    requires ValidConfig(cfg) && WellFormed(s.w) && !s.w.stopping && Paced(events, from)
    ensures var takes := Takes(cfg, s, events);
            takes != [] ==> Spaced(takes[1..], takes[0].at, cfg.batch, cfg.writeInterval)
    decreases |events|
  {
    if events != [] {
      var ev := events[0];
      StepKeepsShape(cfg, s, ev);
      var next := Step(cfg, s, ev);
      if TakeOf(cfg, s, ev) == [] {
        StepKeepsPace(cfg, s, ev);
        TailIsSpaced(cfg, next, events[1..], if ev.Passes? then ev.now else from);
        assert Takes(cfg, s, events) == Takes(cfg, next, events[1..]);
      } else {
        PassIsSpaced(cfg, s, ev.now);
        RunIsSpaced(cfg, next, events[1..], ev.now);
        var takes := Takes(cfg, s, events);
        assert takes == TakeOf(cfg, s, ev) + Takes(cfg, next, events[1..]);
        assert takes[1..] == Takes(cfg, next, events[1..]);
      }
    }
  }
}
