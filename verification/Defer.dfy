/** `defer.py`: the claims of one job that were refused, counted in stretches. */
module Defer {
  import opened Wrappers

  const DEFER_FLOOR_MS := 250
  const DEFER_CEILING_MS := 30000

  // ----- delays -------------------------------------------------------------------------------

  /** What an observer asked for: something `int()` takes, or not. */
  datatype Wish = Number(ms: int) | NotANumber

  function ClampDelay(w: Wish): int {
    match w
    case NotANumber => DEFER_FLOOR_MS
    case Number(ms) =>
      var raised := if ms > DEFER_FLOOR_MS then ms else DEFER_FLOOR_MS;
      if raised < DEFER_CEILING_MS then raised else DEFER_CEILING_MS
  }

  function DeferSeconds(w: Wish): int {
    -(-ClampDelay(w) / 1000)
  }

  /** The least whole number of seconds that covers the clamped delay: 1 to 30, and for a wish
      inside the bounds it covers the wish; without a number it is the least. */
  lemma DelayCovers(w: Wish)
    ensures 1 <= DeferSeconds(w) <= 30
    ensures ClampDelay(w) <= 1000 * DeferSeconds(w)
    ensures forall k: int :: 1000 * k >= ClampDelay(w) ==> DeferSeconds(w) <= k
    ensures w.Number? && DEFER_FLOOR_MS <= w.ms <= DEFER_CEILING_MS ==> ClampDelay(w) == w.ms
    ensures w.NotANumber? || w.ms <= 1000 ==> DeferSeconds(w) == 1
    ensures w.Number? && w.ms > 29000 ==> DeferSeconds(w) == 30
    ensures w.Number? ==> forall v: Wish :: v.Number? && w.ms <= v.ms ==> DeferSeconds(w) <= DeferSeconds(v)
  {
  }

  // ----- stretches ----------------------------------------------------------------------------

  /** A row; `id` is the key of the table, which never comes again. */
  datatype Stretch = Stretch(id: nat, number: nat, count: nat, lineWait: bool, closed: bool)

  /** The outbox row of a closed stretch. */
  datatype Notice = Notice(number: nat, count: nat)

  /** The open stretch of the highest number: `... closed_at IS NULL ORDER BY stretch_seq DESC LIMIT 1`. */
  function OpenAt(rows: seq<Stretch>): (r: Option<nat>)
    ensures r.Some? ==> r.value < |rows| && !rows[r.value].closed
    decreases |rows|
  {
    if rows == [] then None
    else
      var n := |rows| - 1;
      var before := OpenAt(rows[..n]);
      if !rows[n].closed && (before.None? || rows[before.value].number <= rows[n].number) then Some(n) else before
  }

  /** `COALESCE(MAX(stretch_seq), 0) + 1`. */
  function NextNumber(rows: seq<Stretch>): (r: nat)
    ensures forall i :: 0 <= i < |rows| ==> rows[i].number < r
    decreases |rows|
  {
    if rows == [] then 1
    else
      var before := NextNumber(rows[..|rows| - 1]);
      if rows[|rows| - 1].number >= before then rows[|rows| - 1].number + 1 else before
  }

  /** The row that a deferral writes: the open one counted up, or one with the next key. */
  function Written(rows: seq<Stretch>, lineWait: bool, nextId: nat): Stretch {
    var at := OpenAt(rows);
    if at.Some? then rows[at.value].(count := rows[at.value].count + 1, lineWait := lineWait)
    else Stretch(nextId, NextNumber(rows), 1, lineWait, false)
  }

  function Bumped(rows: seq<Stretch>, lineWait: bool, nextId: nat): seq<Stretch> {
    var at := OpenAt(rows);
    if at.Some? then rows[at.value := Written(rows, lineWait, nextId)] else rows + [Written(rows, lineWait, nextId)]
  }

  function Closed(rows: seq<Stretch>): seq<Stretch> {
    var at := OpenAt(rows);
    if at.Some? then rows[at.value := rows[at.value].(closed := true)] else rows
  }

  function NoticeOf(row: Stretch): Notice {
    Notice(row.number, row.count)
  }

  function Notices(rows: seq<Stretch>): seq<Notice> {
    var at := OpenAt(rows);
    if at.Some? then [NoticeOf(rows[at.value])] else []
  }

  /** What is left once the closed stretches whose numbers are in `expired` are deleted. */
  function Pruned(rows: seq<Stretch>, expired: set<nat>): seq<Stretch>
    decreases |rows|
  {
    if rows == [] then []
    else
      var front := Pruned(rows[..|rows| - 1], expired);
      var last := rows[|rows| - 1];
      if last.closed && last.number in expired then front else front + [last]
  }

  class Stretches {
    var rows: seq<Stretch>
    var outbox: seq<Notice>
    var nextId: nat

    constructor ()
      ensures rows == [] && outbox == [] && nextId == 0
    {
      rows, outbox, nextId := [], [], 0;
    }

    /** `open_or_bump_stretch`: the number of the stretch, and its count with this deferral. */
    method OpenOrBump(lineWait: bool) returns (number: nat, count: nat)
      modifies this`rows, this`nextId
      ensures rows == Bumped(old(rows), lineWait, old(nextId))
      ensures nextId == old(nextId) + if OpenAt(old(rows)).None? then 1 else 0
      ensures OpenAt(old(rows)).Some? ==>
                number == old(rows)[OpenAt(old(rows)).value].number &&
                count == old(rows)[OpenAt(old(rows)).value].count + 1
      ensures OpenAt(old(rows)).None? ==> number == NextNumber(old(rows)) && count == 1
    {
      var at := OpenAt(rows);
      if at.Some? {
        var row := rows[at.value];
        rows := rows[at.value := row.(count := row.count + 1, lineWait := lineWait)];
        return row.number, row.count + 1;
      }
      number, count := NextNumber(rows), 1;
      rows := rows + [Stretch(nextId, number, 1, lineWait, false)];
      nextId := nextId + 1;
    }

    /** `close_stretch`. */
    method Close() returns (announced: Option<Notice>)
      modifies this`rows, this`outbox
      ensures rows == Closed(old(rows)) && outbox == old(outbox) + Notices(old(rows))
      ensures announced == if Notices(old(rows)) == [] then None else Some(Notices(old(rows))[0])
    {
      var at := OpenAt(rows);
      if at.None? { return None; }
      var row := rows[at.value];
      rows := rows[at.value := row.(closed := true)];
      outbox := outbox + [Notice(row.number, row.count)];
      announced := Some(Notice(row.number, row.count));
    }

    /** `prune_defer_stretches`: how many rows went. */
    method Prune(expired: set<nat>) returns (deleted: nat)
      modifies this`rows
      ensures rows == Pruned(old(rows), expired) && deleted == |old(rows)| - |rows|
    {
      var kept: seq<Stretch> := [];
      for i := 0 to |rows|
        invariant rows == old(rows) && kept == Pruned(rows[..i], expired) && |kept| <= i
      {
        assert rows[..i + 1][..i] == rows[..i];
        if !(rows[i].closed && rows[i].number in expired) { kept := kept + [rows[i]]; }
      }
      assert rows[..|rows|] == rows;
      deleted := |rows| - |kept|;
      rows := kept;
    }
  }

  // ----- what every run of these keeps ----------------------------------------------------------

  /** The refused claims of one job: its rows, what was announced, how many there were, and
      every stretch that was ever opened, in order, as its row is or was when it went. */
  datatype Ledger = Ledger(rows: seq<Stretch>, outbox: seq<Notice>, deferrals: nat, opens: seq<Stretch>)

  /** The stretches with one of them as `row` says, or with one more. */
  function Record(opens: seq<Stretch>, row: Stretch): seq<Stretch> {
    if row.id < |opens| then opens[row.id := row] else opens + [row]
  }

  function Refused(l: Ledger, lineWait: bool): Ledger {
    Ledger(Bumped(l.rows, lineWait, |l.opens|), l.outbox, l.deferrals + 1,
           Record(l.opens, Written(l.rows, lineWait, |l.opens|)))
  }

  function Ended(l: Ledger): Ledger {
    var at := OpenAt(l.rows);
    l.(rows := Closed(l.rows), outbox := l.outbox + Notices(l.rows),
       opens := if at.Some? then Record(l.opens, l.rows[at.value].(closed := true)) else l.opens)
  }

  function Swept(l: Ledger, expired: set<nat>): Ledger {
    l.(rows := Pruned(l.rows, expired))
  }

  function Total(ns: seq<Notice>): nat
    decreases |ns|
  {
    if ns == [] then 0 else Total(ns[..|ns| - 1]) + ns[|ns| - 1].count
  }

  /** At most one stretch is open, and it is the newest. */
  ghost predicate OneOpen(rows: seq<Stretch>) {
    (forall i, j :: 0 <= i < j < |rows| ==> rows[i].number < rows[j].number && rows[i].id < rows[j].id) &&
    (forall i :: 0 <= i < |rows| - 1 ==> rows[i].closed)
  }

  predicate IsOpen(rows: seq<Stretch>) {
    rows != [] && !rows[|rows| - 1].closed
  }

  function OpenCount(rows: seq<Stretch>): nat {
    if IsOpen(rows) then rows[|rows| - 1].count else 0
  }

  /** Each row still there is the stretch of its key. */
  ghost predicate Filed(rows: seq<Stretch>, opens: seq<Stretch>) {
    forall i :: 0 <= i < |rows| ==> rows[i].id < |opens| && opens[rows[i].id] == rows[i]
  }

  /** The notices are those of the closed stretches, one for each and in their order. */
  ghost predicate Told(opens: seq<Stretch>, outbox: seq<Notice>) {
    |outbox| <= |opens| &&
    forall k :: 0 <= k < |opens| ==>
      (opens[k].closed <==> k < |outbox|) && (k < |outbox| ==> outbox[k] == NoticeOf(opens[k]))
  }

  /** No deferral is lost or told twice: those announced and those of the open stretch are all
      there were. Every stretch ever opened has one notice of its own, or is the open one, which
      has none. */
  ghost predicate Conserved(l: Ledger) {
    OneOpen(l.rows) && Filed(l.rows, l.opens) && Told(l.opens, l.outbox) &&
    l.deferrals == Total(l.outbox) + OpenCount(l.rows) &&
    |l.opens| == |l.outbox| + (if IsOpen(l.rows) then 1 else 0)
  }

  lemma NothingIsConserved(l: Ledger)
    requires |l.rows| == 0 && |l.outbox| == 0 && l.deferrals == 0 && |l.opens| == 0
    ensures Conserved(l) && !IsOpen(l.rows)
  {
  }

  lemma {:induction false} OpenIsLast(rows: seq<Stretch>)
    requires OneOpen(rows)
    ensures OpenAt(rows) == if IsOpen(rows) then Some(|rows| - 1) else None
    decreases |rows|
  {
    if rows != [] { OpenIsLast(rows[..|rows| - 1]); }
  }

  lemma TotalSnoc(ns: seq<Notice>, n: Notice)
    ensures Total(ns + [n]) == Total(ns) + n.count
  {
    assert (ns + [n])[..|ns|] == ns;
  }

  /** The open stretch is the last one opened. */
  lemma OpenIsNewest(l: Ledger)
    requires Conserved(l) && IsOpen(l.rows)
    ensures l.rows[|l.rows| - 1].id == |l.opens| - 1
  {
    var last := l.rows[|l.rows| - 1];
    assert !l.opens[last.id].closed;
  }

  lemma RefusedConserves(l: Ledger, lineWait: bool)
    requires Conserved(l)
    ensures Conserved(Refused(l, lineWait)) && IsOpen(Refused(l, lineWait).rows)
  {
    OpenIsLast(l.rows);
    if IsOpen(l.rows) { OpenIsNewest(l); }
  }

  /** `COALESCE(MAX(stretch_seq), 0) + 1` is 1, or one more than some number there is. */
  lemma {:induction false} NextIsTight(rows: seq<Stretch>)
    ensures NextNumber(rows) == 1 || exists i :: 0 <= i < |rows| && rows[i].number + 1 == NextNumber(rows)
    decreases |rows|
  {
    if rows != [] {
      var front := rows[..|rows| - 1];
      NextIsTight(front);
      if i :| 0 <= i < |front| && front[i].number + 1 == NextNumber(front) { assert rows[i] == front[i]; }
    }
  }

  /** What a deferral leaves last: the stretch that was open, counted up by one, or a new one of
      a higher number that counts one; and the cause of the last deferral. No other row changes. */
  lemma RefusedMeans(l: Ledger, lineWait: bool)
    requires Conserved(l)
    ensures var rows, now := l.rows, Refused(l, lineWait).rows;
      && now != [] && !now[|now| - 1].closed && now[|now| - 1].lineWait == lineWait
      && (if IsOpen(rows)
          then |now| == |rows| && now[..|now| - 1] == rows[..|rows| - 1] &&
               now[|now| - 1].number == rows[|rows| - 1].number && now[|now| - 1].count == rows[|rows| - 1].count + 1
          else now[..|now| - 1] == rows && now[|now| - 1].count == 1 &&
               now[|now| - 1].number == if rows == [] then 1 else rows[|rows| - 1].number + 1)
  {
    OpenIsLast(l.rows);
    NextIsTight(l.rows);
    if l.rows != [] && !IsOpen(l.rows) {
      assert forall i :: 0 <= i < |l.rows| ==> l.rows[i].number <= l.rows[|l.rows| - 1].number;
    }
  }

  lemma EndedConserves(l: Ledger)
    requires Conserved(l)
    ensures Conserved(Ended(l)) && !IsOpen(Ended(l).rows)
  {
    OpenIsLast(l.rows);
    if IsOpen(l.rows) {
      OpenIsNewest(l);
      var last := l.rows[|l.rows| - 1];
      TotalSnoc(l.outbox, NoticeOf(last));
      assert Ended(l).outbox == l.outbox + [NoticeOf(last)];
    } else {
      assert Ended(l).outbox == l.outbox;
    }
  }

  lemma {:induction false} PrunedMembers(rows: seq<Stretch>, expired: set<nat>)
    ensures forall x :: x in Pruned(rows, expired) <==> x in rows && !(x.closed && x.number in expired)
    decreases |rows|
  {
    if rows != [] {
      PrunedMembers(rows[..|rows| - 1], expired);
      assert rows == rows[..|rows| - 1] + [rows[|rows| - 1]];
    }
  }

  /** What is kept of the rows before the last is closed, and below it. */
  lemma KeptIsBelow(rows: seq<Stretch>, expired: set<nat>, i: nat)
    requires OneOpen(rows) && rows != [] && i < |Pruned(rows[..|rows| - 1], expired)|
    ensures var x, last := Pruned(rows[..|rows| - 1], expired)[i], rows[|rows| - 1];
      x.closed && x.number < last.number && x.id < last.id
  {
    var front := rows[..|rows| - 1];
    var x := Pruned(front, expired)[i];
    PrunedMembers(front, expired);
    assert x in Pruned(front, expired);
    var j :| 0 <= j < |front| && front[j] == x;
    assert rows[j] == x;
  }

  /** Pruning takes closed stretches only: the open one stays as it is. */
  lemma {:induction false} PrunedKeeps(rows: seq<Stretch>, expired: set<nat>)
    requires OneOpen(rows)
    ensures OneOpen(Pruned(rows, expired))
    ensures IsOpen(rows) <==> IsOpen(Pruned(rows, expired))
    ensures OpenCount(Pruned(rows, expired)) == OpenCount(rows)
    decreases |rows|
  {
    if rows != [] {
      var kept, last := Pruned(rows[..|rows| - 1], expired), rows[|rows| - 1];
      PrunedKeeps(rows[..|rows| - 1], expired);
      forall i | 0 <= i < |kept| ensures kept[i].closed && kept[i].number < last.number && kept[i].id < last.id {
        KeptIsBelow(rows, expired, i);
      }
    }
  }

  lemma SweptConserves(l: Ledger, expired: set<nat>)
    requires Conserved(l)
    ensures Conserved(Swept(l, expired)) && (IsOpen(l.rows) <==> IsOpen(Swept(l, expired).rows))
  {
    PrunedKeeps(l.rows, expired);
    PrunedMembers(l.rows, expired);
    var kept := Pruned(l.rows, expired);
    forall i | 0 <= i < |kept| ensures kept[i].id < |l.opens| && l.opens[kept[i].id] == kept[i] {
      assert kept[i] in l.rows;
    }
  }
}
