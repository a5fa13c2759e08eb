/** What every step of the worker keeps of the record stream: the numbers of one execution rise
    over all that was taken and all that waits, markers first; each number in flight is later
    than those, or a flush has noted that it is not; every complete record offered was taken,
    waits or was dropped; and each dropped one has a marker of its execution at the start of the
    hole it left. `DeltaPromises` states what follows over whole runs. */
module DeltaLedger {
  import opened Wrappers
  import opened Text
  import opened LiveText
  import opened DeltaWorker
  import opened DeltaSystem

  /** Everything written, then everything still to be written, in the order it will be. */
  ghost function Line(s: System): seq<Record> {
    s.taken + s.w.gaps + s.w.queue
  }

  ghost predicate Ordered(l: seq<Record>) {
    forall i, j :: 0 <= i < j < |l| && l[i].exec == l[j].exec ==> l[i].num < l[j].num
  }

  /** `num` was drawn, and any number now in flight for the execution is later, or a flush has
      recorded that it is not (`last`), which is what makes `offer` renumber. */
  ghost predicate Drawn(s: System, e: ExecutionId, num: nat) {
    e in s.w.counters && num < s.w.counters[e] &&
    (e in s.inflight ==> num < s.inflight[e] || (e in s.w.pending && num <= s.w.pending[e].last))
  }

  ghost predicate Numbers(s: System) {
    (forall r :: r in Line(s) ==> Drawn(s, r.exec, r.num)) &&
    (forall r :: r in s.dropped ==> Drawn(s, r.exec, r.num)) &&
    (forall e :: e in s.inflight ==> e in s.w.counters && s.inflight[e] < s.w.counters[e]) &&
    (forall e :: e in s.w.pending ==> e in s.w.counters && s.w.pending[e].last < s.w.counters[e])
  }

  ghost predicate Kinds(s: System) {
    (forall i :: 0 <= i < |s.w.gaps| ==> s.w.gaps[i].kind == Gap) &&
    (forall i, j :: 0 <= i < j < |s.w.gaps| ==> s.w.gaps[i].exec != s.w.gaps[j].exec) &&
    (forall i :: 0 <= i < |s.w.queue| ==> s.w.queue[i].kind != Gap)
  }

  ghost function Completes(l: seq<Record>): seq<Record> {
    if l == [] then []
    else if IsComplete(l[0].kind) then [l[0]] + Completes(l[1..]) else Completes(l[1..])
  }

  ghost predicate Balance(s: System) {
    multiset(s.offered) == multiset(Completes(s.taken)) + multiset(Completes(s.w.queue)) + multiset(s.dropped)
  }

  /** No record of the execution was or will be written in the hole from `m` to `d`. */
  ghost predicate Hole(l: seq<Record>, m: Record, d: Record) {
    forall r :: r in l && r.exec == d.exec && r.kind != Gap ==> r.num < m.num || d.num < r.num
  }

  /** `m` announces the loss of `d`: a marker of the same execution, where the hole begins. */
  ghost predicate Announces(s: System, m: Record, d: Record) {
    (m in Line(s) || m in s.evicted) && m.kind == Gap && m.exec == d.exec && m.num <= d.num &&
    Hole(Line(s), m, d)
  }

  ghost predicate Announced(s: System) {
    forall d :: d in s.dropped ==> exists m :: Announces(s, m, d)
  }

  ghost predicate Ledger(s: System) {
    Ordered(Line(s)) && Numbers(s) && Kinds(s) && Balance(s) && Announced(s)
  }

  // ----- lines ---------------------------------------------------------------------------

  ghost function RemoveAt(l: seq<Record>, t: nat): seq<Record>
    requires t < |l|
  {
    l[..t] + l[t + 1..]
  }

  lemma OrderedAfterMark(l: seq<Record>, t: nat)
    requires t < |l| && Ordered(l)
    ensures Ordered(l[t := MarkerOf(l[t])])
  {
  }

  lemma OrderedAfterRemove(l: seq<Record>, t: nat)
    requires t < |l| && Ordered(l)
    ensures Ordered(RemoveAt(l, t))
  {
    var k := RemoveAt(l, t);
    forall i, j | 0 <= i < j < |k| && k[i].exec == k[j].exec ensures k[i].num < k[j].num {
      var a, b := if i < t then i else i + 1, if j < t then j else j + 1;
      assert k[i] == l[a] && k[j] == l[b];
    }
  }

  lemma MembersAfterRemove(l: seq<Record>, t: nat)
    requires t < |l|
    ensures forall r :: r in RemoveAt(l, t) ==> r in l
    ensures forall r :: r in l && r != l[t] ==> r in RemoveAt(l, t)
  {
    assert l == l[..t] + [l[t]] + l[t + 1..];
  }

  lemma MembersAfterUpdate(l: seq<Record>, t: nat, x: Record)
    requires t < |l|
    ensures forall r :: r in l[t := x] ==> r in l || r == x
    ensures forall r :: r in l && r != l[t] ==> r in l[t := x]
    ensures x in l[t := x]
  {
    assert l == l[..t] + [l[t]] + l[t + 1..];
    assert l[t := x] == l[..t] + [x] + l[t + 1..];
  }

  lemma OrderedAfterPush(l: seq<Record>, r: Record)
    requires Ordered(l) && forall x :: x in l && x.exec == r.exec ==> x.num < r.num
    ensures Ordered(l + [r])
  {
    var k := l + [r];
    forall i, j | 0 <= i < j < |k| && k[i].exec == k[j].exec ensures k[i].num < k[j].num {
      assert k[i] in l;
    }
  }

  lemma {:induction false} CompletesConcat(a: seq<Record>, b: seq<Record>)
    ensures Completes(a + b) == Completes(a) + Completes(b)
  {
    if a == [] {
      assert a + b == b;
    } else {
      assert (a + b)[1..] == a[1..] + b;
      CompletesConcat(a[1..], b);
    }
  }

  lemma {:induction false} NoCompletes(l: seq<Record>)
    requires forall i :: 0 <= i < |l| ==> !IsComplete(l[i].kind)
    ensures Completes(l) == []
  {
    if l != [] { NoCompletes(l[1..]); }
  }

  // ----- the primitive changes -------------------------------------------------------------

  /** Changes the ledger does not see: only texts, kinds and times of open segments. */
  lemma QuietChange(s: System, t: System)
    requires Ledger(s)
    requires t.w.queue == s.w.queue && t.w.gaps == s.w.gaps && t.w.counters == s.w.counters
    requires t.inflight.Keys <= s.inflight.Keys && forall e :: e in t.inflight ==> t.inflight[e] == s.inflight[e]
    requires t.w.pending.Keys <= s.w.pending.Keys
    requires forall e :: e in t.w.pending ==> t.w.pending[e].last == s.w.pending[e].last
    requires forall e :: e in s.w.pending && e !in t.w.pending ==> e !in t.inflight
    requires t.taken == s.taken && t.offered == s.offered && t.dropped == s.dropped && t.evicted == s.evicted
    ensures Ledger(t)
  {
    assert Line(t) == Line(s);
    forall e, num: nat | Drawn(s, e, num) ensures Drawn(t, e, num) { }
    forall d | d in t.dropped ensures exists m :: Announces(t, m, d) {
      var m :| Announces(s, m, d);
      assert Announces(t, m, d);
    }
  }

  /** A new last record: its number is later than every one drawn for its execution. */
  lemma Pushed(s: System, t: System, r: Record)
    requires Ordered(Line(s)) && Announced(s)
    requires Line(t) == Line(s) + [r] && t.dropped == s.dropped && t.evicted == s.evicted
    requires forall x :: x in Line(s) && x.exec == r.exec ==> x.num < r.num
    requires forall x :: x in s.dropped && x.exec == r.exec ==> x.num < r.num
    ensures Ordered(Line(t)) && Announced(t)
  {
    OrderedAfterPush(Line(s), r);
    forall d | d in t.dropped ensures exists m :: Announces(t, m, d) {
      var m :| Announces(s, m, d);
      assert Announces(t, m, d);
    }
  }

  lemma PushKeepsLedger(s: System, r: Record)
    requires Ledger(s) && IsComplete(r.kind) && r.exec !in s.inflight
    requires r.exec in s.w.counters && r.num < s.w.counters[r.exec]
    requires forall x :: x in Line(s) && x.exec == r.exec ==> x.num < r.num
    requires forall x :: x in s.dropped && x.exec == r.exec ==> x.num < r.num
    ensures Ledger(PushS(s, r))
  {
    var t := PushS(s, r);
    assert Line(t) == Line(s) + [r];
    Pushed(s, t, r);
    forall e, num: nat | Drawn(s, e, num) ensures Drawn(t, e, num) { }
    CompletesConcat(s.w.queue, [r]);
    assert Completes([r]) == [r];
  }

  /** A flushed partial: the next number of the run's counter, remembered in `last`. */
  lemma PartialPushed(s: System, t: System, r: Record)
    requires Ledger(s) && r.exec in s.w.counters && r.num == s.w.counters[r.exec] && IsPartial(r.kind)
    requires t.w.queue == s.w.queue + [r] && t.w.gaps == s.w.gaps
    requires t.w.counters == s.w.counters[r.exec := r.num + 1]
    requires t.w.pending.Keys == s.w.pending.Keys && r.exec in t.w.pending
    requires forall e :: e in t.w.pending ==>
               t.w.pending[e].last == if e == r.exec then r.num else s.w.pending[e].last
    requires t.inflight == s.inflight && t.taken == s.taken && t.offered == s.offered
    requires t.dropped == s.dropped && t.evicted == s.evicted
    ensures Ledger(t)
  {
    assert Line(t) == Line(s) + [r];
    forall x | (x in Line(s) || x in s.dropped) && x.exec == r.exec ensures x.num < r.num {
      assert Drawn(s, x.exec, x.num);
    }
    Pushed(s, t, r);
    forall x, num: nat | Drawn(s, x, num) ensures Drawn(t, x, num) { }
    assert Drawn(t, r.exec, r.num);
    CompletesConcat(s.w.queue, [r]);
    assert Completes([r]) == [];
  }

  lemma FlushKeepsLedger(cfg: Config, s: System, e: ExecutionId, now: real, final: bool)
    requires Ledger(s) && WellFormed(s.w) && e in s.w.pending
    ensures Ledger(FlushS(cfg, s, e, now, final))
  {
    var t := FlushS(cfg, s, e, now, final);
    var p := s.w.pending[e];
    if Out(Join(p.parts), p.secrets) != "" && p.kind.Some? && |s.w.queue| < cfg.maxQueue {
      PartialPushed(s, t, Record(e, Counter(s.w, e), p.kind.value, Some(Out(Join(p.parts), p.secrets)), None));
    } else {
      QuietChange(s, t);
    }
  }

  lemma {:induction false} FlushDueKeepsLedger(cfg: Config, s: System, ids: seq<ExecutionId>, now: real, final: bool)
    requires Ledger(s) && WellFormed(s.w)
    ensures Ledger(FlushDueS(cfg, s, ids, now, final)) && WellFormed(FlushDueS(cfg, s, ids, now, final).w)
    decreases |ids|
  {
    FlushDueMatches(cfg, s, ids, now, final);
    FlushDueKeepsShape(cfg, s.w, ids, now, final);
    if ids != [] {
      var most := FlushDueS(cfg, s, ids[..|ids| - 1], now, final);
      FlushDueKeepsLedger(cfg, s, ids[..|ids| - 1], now, final);
      if ids[|ids| - 1] in most.w.pending {
        FlushKeepsLedger(cfg, most, ids[|ids| - 1], now, final);
      }
    }
  }

  /** Where an overflow leaves the line: the record that went is gone from its place `t`, or
      its marker stands there, and the marker it pushed out, the oldest one, is gone. */
  ghost function LineAfter(cfg: Config, taken: seq<Record>, gaps: seq<Record>, queue: seq<Record>): seq<Record>
    requires ValidConfig(cfg) && queue != []
  {
    var l, t, d := taken + gaps + queue, |taken| + |gaps|, queue[0];
    if HasGap(gaps, d.exec) || IsPartial(d.kind) then RemoveAt(l, t)
    else if |gaps| >= cfg.maxGaps then RemoveAt(l[t := MarkerOf(d)], |taken|)
    else l[t := MarkerOf(d)]
  }

  lemma LineAfterIs(cfg: Config, taken: seq<Record>, gaps: seq<Record>, queue: seq<Record>)
    requires ValidConfig(cfg) && queue != []
    ensures (taken + gaps + queue)[|taken| + |gaps|] == queue[0]
    ensures taken + MarkGap(cfg, gaps, queue[0]) + queue[1..] == LineAfter(cfg, taken, gaps, queue)
  {
    var l, t, d := taken + gaps + queue, |taken| + |gaps|, queue[0];
    if HasGap(gaps, d.exec) || IsPartial(d.kind) {
      assert l[..t] == taken + gaps && l[t + 1..] == queue[1..];
    } else {
      var k := taken + gaps + [MarkerOf(d)] + queue[1..];
      assert k == l[t := MarkerOf(d)];
      if |gaps| >= cfg.maxGaps {
        assert k[..|taken|] == taken && k[|taken| + 1..] == gaps[1..] + [MarkerOf(d)] + queue[1..];
        assert taken + (gaps[1..] + [MarkerOf(d)]) + queue[1..] == taken + (gaps[1..] + [MarkerOf(d)] + queue[1..]);
      } else {
        assert taken + (gaps + [MarkerOf(d)]) + queue[1..] == k;
      }
    }
  }

  lemma RoomLine(cfg: Config, s: System)
    requires ValidConfig(cfg) && s.w.queue != []
    ensures |s.taken| + |s.w.gaps| < |Line(s)|
    ensures Line(s)[|s.taken| + |s.w.gaps|] == s.w.queue[0]
    ensures Line(RoomS(cfg, s)) == LineAfter(cfg, s.taken, s.w.gaps, s.w.queue)
  {
    LineAfterIs(cfg, s.taken, s.w.gaps, s.w.queue);
  }

  lemma RoomKeepsOrder(cfg: Config, s: System)
    requires ValidConfig(cfg) && s.w.queue != [] && Ordered(Line(s))
    ensures Ordered(Line(RoomS(cfg, s)))
  {
    RoomLine(cfg, s);
    var l, t, d := Line(s), |s.taken| + |s.w.gaps|, s.w.queue[0];
    OrderedAfterMark(l, t);
    if HasGap(s.w.gaps, d.exec) || IsPartial(d.kind) {
      OrderedAfterRemove(l, t);
    } else if |s.w.gaps| >= cfg.maxGaps {
      OrderedAfterRemove(l[t := MarkerOf(d)], |s.taken|);
    }
  }

  lemma RoomMembers(cfg: Config, s: System)
    requires ValidConfig(cfg) && s.w.queue != [] && Kinds(s)
    ensures forall r :: r in Line(RoomS(cfg, s)) ==> r in Line(s) || r == MarkerOf(s.w.queue[0])
    ensures forall m :: m in Line(s) && m.kind == Gap ==>
              m in Line(RoomS(cfg, s)) || m in RoomS(cfg, s).evicted
    ensures !HasGap(s.w.gaps, s.w.queue[0].exec) && !IsPartial(s.w.queue[0].kind) ==>
              MarkerOf(s.w.queue[0]) in Line(RoomS(cfg, s))
  {
    RoomLine(cfg, s);
    var l, t, d := Line(s), |s.taken| + |s.w.gaps|, s.w.queue[0];
    MembersAfterRemove(l, t);
    MembersAfterUpdate(l, t, MarkerOf(d));
    if !(HasGap(s.w.gaps, d.exec) || IsPartial(d.kind)) && |s.w.gaps| >= cfg.maxGaps {
      var k := l[t := MarkerOf(d)];
      MembersAfterRemove(k, |s.taken|);
      assert k[|s.taken|] == s.w.gaps[0];
      assert RemoveAt(k, |s.taken|)[t - 1] == MarkerOf(d);
    }
  }

  lemma RoomAnnounces(cfg: Config, s: System)
    requires ValidConfig(cfg) && s.w.queue != [] && Kinds(s) && Ordered(Line(s)) && Announced(s)
    ensures Announced(RoomS(cfg, s))
  {
    var t, d := RoomS(cfg, s), s.w.queue[0];
    var l, at := Line(s), |s.taken| + |s.w.gaps|;
    RoomMembers(cfg, s);
    forall x | x in t.dropped ensures exists m :: Announces(t, m, x) {
      if x in s.dropped {
        var m :| Announces(s, m, x);
        assert Announces(t, m, x);
      } else {
        assert x == d && l[at] == d;
        var g := NewAnnouncer(cfg, s);
        assert Announces(t, g, d);
      }
    }
  }

  /** The marker of a record that is dropped now: its own, or the one its execution has. */
  lemma NewAnnouncer(cfg: Config, s: System) returns (g: Record)
    requires ValidConfig(cfg) && s.w.queue != [] && Kinds(s) && Ordered(Line(s))
    requires IsComplete(s.w.queue[0].kind)
    ensures Announces(RoomS(cfg, s), g, s.w.queue[0])
  {
    var d := s.w.queue[0];
    if HasGap(s.w.gaps, d.exec) {
      var i :| 0 <= i < |s.w.gaps| && s.w.gaps[i].exec == d.exec;
      g := s.w.gaps[i];
      AnnouncedByOlder(cfg, s, i);
    } else {
      g := MarkerOf(d);
      RoomMembers(cfg, s);
      forall r | r in Line(RoomS(cfg, s)) && r.exec == d.exec && r.kind != Gap
        ensures r.num < g.num || d.num < r.num
      {
        assert r in Line(s);
        var b: nat :| b < |Line(s)| && Line(s)[b] == r;
        RoomLosesFront(cfg, s, b);
        RoomLine(cfg, s);
      }
    }
  }

  lemma AnnouncedByOlder(cfg: Config, s: System, i: nat)
    requires ValidConfig(cfg) && s.w.queue != [] && Kinds(s) && Ordered(Line(s))
    requires i < |s.w.gaps| && s.w.gaps[i].exec == s.w.queue[0].exec
    ensures Announces(RoomS(cfg, s), s.w.gaps[i], s.w.queue[0])
  {
    var d, g, at, l := s.w.queue[0], s.w.gaps[i], |s.taken| + |s.w.gaps|, Line(s);
    RoomLine(cfg, s);
    var k := RemoveAt(l, at);
    assert k == Line(RoomS(cfg, s));
    forall b | |s.taken| <= b < at ensures l[b].kind == Gap { MarkerAt(s.taken, s.w.gaps, s.w.queue, b - |s.taken|); }
    MarkerAt(s.taken, s.w.gaps, s.w.queue, i);
    assert k[|s.taken| + i] == g;
    HoleAfterRemove(l, |s.taken| + i, at, |s.taken|);
  }

  lemma MarkerAt(taken: seq<Record>, gaps: seq<Record>, queue: seq<Record>, i: nat)
    requires i < |gaps|
    ensures (taken + gaps + queue)[|taken| + i] == gaps[i]
  {
  }

  /** In an ordered line with only markers from `from` up to `at`, taking out the record at
      `at` leaves a hole that begins at the marker of its execution. */
  lemma HoleAfterRemove(l: seq<Record>, m: nat, at: nat, from: nat)
    requires Ordered(l) && from <= m < at < |l| && l[m].exec == l[at].exec
    requires forall b :: from <= b < at ==> l[b].kind == Gap
    ensures Hole(RemoveAt(l, at), l[m], l[at])
  {
    var k := RemoveAt(l, at);
    forall r | r in k && r.exec == l[at].exec && r.kind != Gap ensures r.num < l[m].num || l[at].num < r.num {
      var j :| 0 <= j < |k| && k[j] == r;
      assert r == l[if j < at then j else j + 1];
    }
  }

  lemma OnlyOnce(l: seq<Record>, at: nat, x: Record)
    requires at < |l| && Ordered(l) && x != l[at]
    ensures l[at] !in RemoveAt(l, at) && l[at] !in l[at := x]
  {
    assert forall j :: 0 <= j < |l| && j != at ==> l[j] != l[at];
  }

  /** The dropped record itself is not written any more. */
  lemma FrontIsGone(cfg: Config, s: System)
    requires ValidConfig(cfg) && s.w.queue != [] && Kinds(s) && Ordered(Line(s))
    ensures s.w.queue[0] !in Line(RoomS(cfg, s))
  {
    RoomLine(cfg, s);
    var l, at, d := Line(s), |s.taken| + |s.w.gaps|, s.w.queue[0];
    OnlyOnce(l, at, MarkerOf(d));
    if !(HasGap(s.w.gaps, d.exec) || IsPartial(d.kind)) && |s.w.gaps| >= cfg.maxGaps {
      MembersAfterRemove(l[at := MarkerOf(d)], |s.taken|);
    }
  }

  lemma RoomLosesFront(cfg: Config, s: System, b: nat)
    requires ValidConfig(cfg) && s.w.queue != [] && Kinds(s) && Ordered(Line(s)) && b < |Line(s)|
    requires Line(s)[b] in Line(RoomS(cfg, s))
    ensures b != |s.taken| + |s.w.gaps|
  {
    FrontIsGone(cfg, s);
    RoomLine(cfg, s);
  }

  lemma RoomKeepsNumbers(cfg: Config, s: System)
    requires ValidConfig(cfg) && s.w.queue != [] && Ledger(s)
    ensures Numbers(RoomS(cfg, s))
  {
    var t, d := RoomS(cfg, s), s.w.queue[0];
    RoomMembers(cfg, s);
    assert d in Line(s);
    forall e, num: nat | Drawn(s, e, num) ensures Drawn(t, e, num) { }
    assert Drawn(s, d.exec, d.num);
  }

  lemma RoomKeepsKinds(cfg: Config, s: System)
    requires ValidConfig(cfg) && s.w.queue != [] && Kinds(s)
    ensures Kinds(RoomS(cfg, s))
  {
  }

  lemma RoomKeepsBalance(cfg: Config, s: System)
    requires ValidConfig(cfg) && s.w.queue != [] && Kinds(s) && Balance(s)
    ensures Balance(RoomS(cfg, s))
  {
    var d, t := s.w.queue[0], RoomS(cfg, s);
    assert t.offered == s.offered && t.taken == s.taken && t.w.queue == s.w.queue[1..];
    if IsComplete(d.kind) {
      assert Completes(s.w.queue) == [d] + Completes(t.w.queue);
      assert t.dropped == s.dropped + [d];
    } else {
      assert Completes(s.w.queue) == Completes(t.w.queue);
      assert t.dropped == s.dropped;
    }
  }

  lemma RoomKeepsLedger(cfg: Config, s: System)
    requires ValidConfig(cfg) && s.w.queue != [] && Ledger(s)
    ensures Ledger(RoomS(cfg, s))
  {
    RoomKeepsOrder(cfg, s);
    RoomKeepsNumbers(cfg, s);
    RoomKeepsKinds(cfg, s);
    RoomKeepsBalance(cfg, s);
    RoomAnnounces(cfg, s);
  }

  lemma AppendKeepsLedger(cfg: Config, s: System, r: Record)
    requires ValidConfig(cfg) && Ledger(s) && IsComplete(r.kind) && r.exec !in s.inflight
    requires r.exec in s.w.counters && r.num < s.w.counters[r.exec]
    requires forall x :: (x in Line(s) || x in s.dropped) && x.exec == r.exec ==> x.num < r.num
    ensures Ledger(AppendS(cfg, s, r))
  {
    if |s.w.queue| >= cfg.maxQueue {
      RoomKeepsLedger(cfg, s);
      RoomMembers(cfg, s);
      assert s.w.queue[0] in Line(s);
      PushKeepsLedger(RoomS(cfg, s), r);
    } else {
      PushKeepsLedger(s, r);
    }
  }

  lemma SettleKeepsLedger(cfg: Config, s: System, e: ExecutionId, kind: Kind, now: real)
    requires Ledger(s) && WellFormed(s.w)
    ensures Ledger(SettleS(cfg, s, e, kind, now))
  {
    if e in s.w.pending && s.w.pending[e].kind.Some? {
      if SupersededBy(s.w.pending[e].kind.value) == kind {
        QuietChange(s, SettleS(cfg, s, e, kind, now));
      } else {
        FlushKeepsLedger(cfg, s, e, now, true);
      }
    }
  }

  /** The renumbering rule of `offer`: the record enters above all that was drawn before it,
      whatever the writer flushed since its own number was drawn. */
  lemma NumberedIsLast(s: System, r: Record)
    requires Ledger(s) && r.exec in s.inflight && r.num == s.inflight[r.exec]
    ensures var (w, n) := Numbered(s, r); var t := s.(w := w, inflight := s.inflight - {r.exec});
            && Ledger(t) && n.exec == r.exec && n.kind == r.kind
            && n.exec in w.counters && n.num < w.counters[n.exec]
            && forall x :: (x in Line(t) || x in t.dropped) && x.exec == n.exec ==> x.num < n.num
  {
    var (w, n) := Numbered(s, r);
    var t := s.(w := w, inflight := s.inflight - {r.exec});
    assert Line(t) == Line(s);
    forall e, num: nat | Drawn(s, e, num) ensures Drawn(t, e, num) { }
    forall x | (x in Line(t) || x in t.dropped) && x.exec == n.exec ensures x.num < n.num {
      assert Drawn(s, x.exec, x.num);
    }
    forall d | d in t.dropped ensures exists m :: Announces(t, m, d) {
      var m :| Announces(s, m, d);
      assert Announces(t, m, d);
    }
  }

  lemma OfferKeepsLedger(cfg: Config, s: System, r: Record, now: real)
    requires ValidConfig(cfg) && Ledger(s) && WellFormed(s.w) && IsComplete(r.kind)
    requires r.exec in s.inflight && r.num == s.inflight[r.exec]
    ensures Ledger(OfferS(cfg, s, r, now))
  {
    var settled := SettleS(cfg, s, r.exec, r.kind, now);
    SettleKeepsLedger(cfg, s, r.exec, r.kind, now);
    NumberedIsLast(settled, r);
    var (w, n) := Numbered(settled, r);
    AppendKeepsLedger(cfg, settled.(w := w, inflight := s.inflight - {r.exec}), n);
  }

  lemma ReopenKeepsLedger(cfg: Config, s: System, e: ExecutionId, kind: Kind, now: real)
    requires Ledger(s) && WellFormed(s.w) && e in s.w.pending && IsPartial(kind)
    ensures Ledger(ReopenS(cfg, s, e, kind, now)) && e in ReopenS(cfg, s, e, kind, now).w.pending
  {
    var p := s.w.pending[e];
    if p.kind.Some? && p.kind.value != kind { FlushKeepsLedger(cfg, s, e, now, true); }
    var flushed := if p.kind.Some? && p.kind.value != kind then FlushS(cfg, s, e, now, true) else s;
    BeginKeepsLedger(flushed, e, kind, now);
  }

  lemma BeginKeepsLedger(s: System, e: ExecutionId, kind: Kind, now: real)
    requires Ledger(s) && e in s.w.pending
    ensures Ledger(BeginS(s, e, kind, now)) && e in BeginS(s, e, kind, now).w.pending
  {
    if s.w.pending[e].kind.None? {
      var t := BeginS(s, e, kind, now);
      assert t.w == Begin(s.w, e, kind, now);
      assert t.w.pending.Keys == s.w.pending.Keys;
      QuietChange(s, t);
    }
  }

  lemma FeedKeepsLedger(s: System, e: ExecutionId, piece: string)
    requires Ledger(s) && e in s.w.pending
    ensures Ledger(FeedS(s, e, piece)) && e in FeedS(s, e, piece).w.pending
  {
    QuietChange(s, FeedS(s, e, piece));
  }

  lemma AbsorbKeepsLedger(cfg: Config, s: System, e: ExecutionId, piece: string, now: real)
    requires Ledger(s) && WellFormed(s.w) && e in s.w.pending
    ensures Ledger(AbsorbS(cfg, s, e, piece, now))
  {
    FeedKeepsLedger(s, e, piece);
    FeedKeepsShape(s.w, e, piece);
    FlushKeepsLedger(cfg, FeedS(s, e, piece), e, now, false);
  }

  lemma SpeakKeepsLedger(cfg: Config, s: System, e: ExecutionId, kind: Kind, text: string, now: real)
    requires Ledger(s) && WellFormed(s.w) && e in s.w.pending && IsPartial(kind)
    ensures Ledger(SpeakS(cfg, s, e, kind, text, now))
  {
    ReopenKeepsLedger(cfg, s, e, kind, now);
    ReopenKeepsShape(cfg, s.w, e, kind, now);
    assert ReopenS(cfg, s, e, kind, now).w == Reopen(cfg, s.w, e, kind, now);
    AbsorbKeepsLedger(cfg, ReopenS(cfg, s, e, kind, now), e, Cut(cfg, text), now);
  }

  lemma OpenKeepsLedger(s: System, e: ExecutionId, secrets: seq<string>)
    requires Ledger(s) && e !in s.w.counters
    ensures Ledger(OpenS(s, e, secrets))
  {
    var t := OpenS(s, e, secrets);
    assert Line(t) == Line(s);
    forall x, num: nat | Drawn(s, x, num) ensures Drawn(t, x, num) { }
    forall d | d in t.dropped ensures exists m :: Announces(t, m, d) {
      var m :| Announces(s, m, d);
      assert Announces(t, m, d);
    }
  }

  lemma DrawKeepsLedger(s: System, e: ExecutionId)
    requires Ledger(s)
    ensures Ledger(s.(w := Draw(s.w, e), inflight := s.inflight[e := Counter(s.w, e)]))
  {
    var t := s.(w := Draw(s.w, e), inflight := s.inflight[e := Counter(s.w, e)]);
    assert Line(t) == Line(s);
    forall x, num: nat | Drawn(s, x, num) ensures Drawn(t, x, num) { }
    forall d | d in t.dropped ensures exists m :: Announces(t, m, d) {
      var m :| Announces(s, m, d);
      assert Announces(t, m, d);
    }
  }

  lemma CloseKeepsLedger(cfg: Config, s: System, e: ExecutionId, now: real)
    requires Ledger(s) && WellFormed(s.w) && e in s.w.pending
    ensures Ledger(CloseS(cfg, s, e, now))
  {
    if s.w.pending[e].kind.Some? { FlushKeepsLedger(cfg, s, e, now, true); }
    var flushed := if s.w.pending[e].kind.Some? then FlushS(cfg, s, e, now, true) else s;
    QuietChange(flushed, CloseS(cfg, s, e, now));
  }

  /** A batch takes a prefix of what is still to be written: all markers, or no record. */
  lemma TakeMovesThePrefix(cfg: Config, st: State)
    requires ValidConfig(cfg)
    ensures var g, q := GapsTaken(cfg, st), QueueTaken(cfg, st);
            (g == |st.gaps| || q == 0) &&
            st.gaps[..g] + st.queue[..q] + st.gaps[g..] + st.queue[q..] == st.gaps + st.queue
  {
    var g, q := GapsTaken(cfg, st), QueueTaken(cfg, st);
    assert st.gaps == st.gaps[..g] + st.gaps[g..];
    assert st.queue == st.queue[..q] + st.queue[q..];
  }

  lemma TakeKeepsBalance(s: System, t: System, g: nat, q: nat)
    requires Balance(s) && Kinds(s) && g <= |s.w.gaps| && q <= |s.w.queue|
    requires t.taken == s.taken + (s.w.gaps[..g] + s.w.queue[..q]) && t.w.queue == s.w.queue[q..]
    requires t.offered == s.offered && t.dropped == s.dropped
    ensures Balance(t)
  {
    var markers, records, rest := s.w.gaps[..g], s.w.queue[..q], s.w.queue[q..];
    NoCompletes(markers);
    CompletesConcat(s.taken, markers + records);
    CompletesConcat(markers, records);
    CompletesConcat(records, rest);
    assert s.w.queue == records + rest;
    assert Completes(t.taken) == Completes(s.taken) + Completes(records);
    assert Completes(s.w.queue) == Completes(records) + Completes(rest);
  }

  /** The same line, cut elsewhere. */
  lemma Recut(s: System, t: System)
    requires Ordered(Line(s)) && Numbers(s) && Announced(s) && Line(t) == Line(s)
    requires t.w.counters == s.w.counters && t.w.pending == s.w.pending && t.inflight == s.inflight
    requires t.dropped == s.dropped && t.evicted == s.evicted
    ensures Ordered(Line(t)) && Numbers(t) && Announced(t)
  {
    forall e, num: nat | Drawn(s, e, num) ensures Drawn(t, e, num) { }
    forall d | d in t.dropped ensures exists m :: Announces(t, m, d) {
      var m :| Announces(s, m, d);
      assert Announces(t, m, d);
    }
  }

  lemma TakeKeepsKinds(s: System, t: System, g: nat, q: nat)
    requires Kinds(s) && g <= |s.w.gaps| && q <= |s.w.queue|
    requires t.w.gaps == s.w.gaps[g..] && t.w.queue == s.w.queue[q..]
    ensures Kinds(t)
  {
  }

  lemma TakeKeepsLine(cfg: Config, s: System, t: System)
    requires ValidConfig(cfg)
    requires var g, q := GapsTaken(cfg, s.w), QueueTaken(cfg, s.w);
             t.w.gaps == s.w.gaps[g..] && t.w.queue == s.w.queue[q..] &&
             t.taken == s.taken + (s.w.gaps[..g] + s.w.queue[..q])
    ensures Line(t) == Line(s)
  {
    var g, q := GapsTaken(cfg, s.w), QueueTaken(cfg, s.w);
    TakeMovesThePrefix(cfg, s.w);
    assert Line(t) == s.taken + (s.w.gaps[..g] + s.w.queue[..q] + s.w.gaps[g..] + s.w.queue[q..]);
  }

  lemma TakeKeepsLedger(cfg: Config, s: System, t: System)
    requires ValidConfig(cfg) && Ledger(s)
    requires var g, q := GapsTaken(cfg, s.w), QueueTaken(cfg, s.w);
             t.w.gaps == s.w.gaps[g..] && t.w.queue == s.w.queue[q..] &&
             t.taken == s.taken + (s.w.gaps[..g] + s.w.queue[..q])
    requires t.w.counters == s.w.counters && t.w.pending == s.w.pending && t.inflight == s.inflight
    requires t.offered == s.offered && t.dropped == s.dropped && t.evicted == s.evicted
    ensures Ledger(t)
  {
    var g, q := GapsTaken(cfg, s.w), QueueTaken(cfg, s.w);
    TakeKeepsLine(cfg, s, t);
    Recut(s, t);
    TakeKeepsKinds(s, t, g, q);
    TakeKeepsBalance(s, t, g, q);
  }

  lemma PassKeepsLedger(cfg: Config, s: System, now: real)
    requires ValidConfig(cfg) && Ledger(s) && WellFormed(s.w)
    ensures Ledger(PassS(cfg, s, now))
  {
    FlushDueMatches(cfg, s, s.w.order, now, s.w.stopping);
    FlushDueKeepsLedger(cfg, s, s.w.order, now, s.w.stopping);
    var due := FlushDueS(cfg, s, s.w.order, now, s.w.stopping);
    var t := PassS(cfg, s, now);
    assert Pass(cfg, s.w, now) == Grab(cfg, due.w, now);
    if Grab(cfg, due.w, now).1.Batch? {
      TakeKeepsLedger(cfg, due, t);
    } else {
      assert t == due;
    }
  }

  lemma StepKeepsLedger(cfg: Config, s: System, ev: Event)
    requires ValidConfig(cfg) && Ledger(s) && WellFormed(s.w)
    ensures Ledger(Step(cfg, s, ev))
  {
    match ev
    case Draws(e) => DrawKeepsLedger(s, e);
    case Offers(e, kind, text, tool, now) =>
      if e in s.inflight && IsComplete(kind) {
        OfferKeepsLedger(cfg, s, Record(e, s.inflight[e], kind, text, tool), now);
      }
    case Speaks(e, kind, piece, now) =>
      if e in s.w.pending && IsPartial(kind) { SpeakKeepsLedger(cfg, s, e, kind, piece, now); }
    case Opens(e, secrets) => if e !in s.w.counters { OpenKeepsLedger(s, e, secrets); }
    case Closes(e, now) => if e in s.w.pending { CloseKeepsLedger(cfg, s, e, now); }
    case Passes(now) => PassKeepsLedger(cfg, s, now);
    case Stops => QuietChange(s, Step(cfg, s, ev));
  }

  lemma {:induction false} LedgerHolds(cfg: Config, s: System, events: seq<Event>)
    requires ValidConfig(cfg) && Ledger(s) && WellFormed(s.w)
    ensures Ledger(Exec(cfg, s, events))
    decreases |events|
  {
    if events != [] {
      StepKeepsShape(cfg, s, events[0]);
      StepKeepsLedger(cfg, s, events[0]);
      LedgerHolds(cfg, Step(cfg, s, events[0]), events[1..]);
    }
  }

  lemma InitLedger(s: System)
    requires Init(s)
    ensures Ledger(s) && WellFormed(s.w)
  {
    assert Line(s) == [];
  }
}
