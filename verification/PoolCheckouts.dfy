/** One checkout of the pool from its first call to its last, whatever the others do meanwhile. */
module PoolCheckouts {
  import opened Wrappers
  import opened ConnectionPool

  // ----- where a checkout begins ------------------------------------------------------------------

  /** All checkouts of one configuration use one queue, which the first of them makes empty and
      with its bound; a checkout begins without a connection, and changes no other queue. */
  lemma BeginMeans(s: Pools, key: Key, isolation: bool, cap: nat)
    requires Whole(s)
    ensures var r := BeginStep(s, key, isolation, cap);
      && key in r.registered && r.checkouts == s.checkouts + [Checkout(r.registered[key], isolation, Getting, None)]
      && (forall k :: k in s.registered ==> k in r.registered && r.registered[k] == s.registered[k])
      && (if key in s.registered then r.queues == s.queues
          else r.queues == s.queues + [Queue([], cap)] && r.registered[key] == |s.queues|)
      && (forall k :: k in r.registered ==> k in s.registered || k == key)
  {
  }

  // ----- what a borrower gets ---------------------------------------------------------------------

  /** The connection is past the ping, or was opened by this checkout. */
  predicate Accepted(stage: Stage) {
    Holds(stage) && !stage.Pinging?
  }

  /** At event `n` the checkout's ping of `c` came back well, or it opened `c`. */
  ghost predicate VettedAt(es: seq<Event>, i: nat, c: Conn, n: int) {
    0 <= n < |es| && es[n] == Go(i, Fine) && i < |Exec(es[..n]).checkouts| &&
    var s := Exec(es[..n]);
    (s.checkouts[i].stage.Pinging? && s.checkouts[i].conn == Some(c)) ||
    (s.checkouts[i].stage.Connecting? && c == |s.sessions|)
  }

  ghost predicate Vetted(es: seq<Event>, i: nat, c: Conn) {
    exists n :: VettedAt(es, i, c, n)
  }

  lemma VettedStays(es: seq<Event>, i: nat, c: Conn)
    requires es != [] && Vetted(es[..|es| - 1], i, c)
    ensures Vetted(es, i, c)
  {
    var front := es[..|es| - 1];
    var n :| VettedAt(front, i, c, n);
    assert front[..n] == es[..n];
    assert VettedAt(es, i, c, n);
  }

  /** One call leaves the other checkouts alone. If it leaves this one with an accepted
      connection, that was accepted before, or the call is its ping or its connect, and went well. */
  lemma GoAccepts(s: Pools, i: nat, luck: Luck)
    requires Whole(s) && i < |s.checkouts|
    ensures var r := GoStep(s, i, luck);
      && |r.checkouts| == |s.checkouts|
      && (forall j :: 0 <= j < |s.checkouts| && j != i ==> r.checkouts[j] == s.checkouts[j])
      && (Accepted(r.checkouts[i].stage) ==>
           (Accepted(s.checkouts[i].stage) && r.checkouts[i].conn == s.checkouts[i].conn) ||
           (luck.Fine? && s.checkouts[i].stage.Pinging? && r.checkouts[i].conn == s.checkouts[i].conn) ||
           (luck.Fine? && s.checkouts[i].stage.Connecting? && r.checkouts[i].conn == Some(|s.sessions|)))
  {
    if s.checkouts[i].conn.Some? && !s.checkouts[i].stage.Putting? { HeldStep(s, i, luck); }
  }

  lemma StepAccepts(s: Pools, e: Event, i: nat)
    requires Whole(s) && i < |Step(s, e).checkouts| && Accepted(Step(s, e).checkouts[i].stage)
    ensures i < |s.checkouts|
    ensures var r := Step(s, e);
      (Accepted(s.checkouts[i].stage) && r.checkouts[i].conn == s.checkouts[i].conn) ||
      (e == Go(i, Fine) && s.checkouts[i].stage.Pinging? && r.checkouts[i].conn == s.checkouts[i].conn) ||
      (e == Go(i, Fine) && s.checkouts[i].stage.Connecting? && r.checkouts[i].conn == Some(|s.sessions|))
  {
    if e.Go? && Able(s, e) { GoAccepts(s, e.checkout, e.luck); }
  }

  lemma {:induction false} AllAccepted(es: seq<Event>, i: nat)
    requires i < |Exec(es).checkouts| && Accepted(Exec(es).checkouts[i].stage)
    ensures Vetted(es, i, Exec(es).checkouts[i].conn.value)
    decreases |es|
  {
    var s := Exec(es[..|es| - 1]);
    var c := Exec(es).checkouts[i].conn.value;
    StepAccepts(s, es[|es| - 1], i);
    if Accepted(s.checkouts[i].stage) && s.checkouts[i].conn == Some(c) {
      AllAccepted(es[..|es| - 1], i);
      VettedStays(es, i, c);
    } else {
      assert VettedAt(es, i, c, |es| - 1);
    }
  }

  /** A borrower gets a connection that its own checkout pinged well or opened, with no open
      transaction, at the level it asked for and else at the default one, and which no borrower
      before it left by an exception. */
  lemma BorrowedIsReady(es: seq<Event>, i: nat)
    requires i < |Exec(es).checkouts| && Exec(es).checkouts[i].stage.Borrowed?
    ensures var s := Exec(es); var k := s.checkouts[i];
      && k.conn.Some? && k.conn.value < |s.sessions|
      && Vetted(es, i, k.conn.value)
      && s.sessions[k.conn.value] == Session(false, !k.isolation, false)
      && k.conn.value !in s.closed
  {
    AllAccepted(es, i);
    IdleIsFresh(es);
    var home := ExecAgrees(es);
    assert InShape(Exec(es).checkouts[i], Exec(es).sessions[Exec(es).checkouts[i].conn.value]);
  }

  // ----- the way of one checkout ------------------------------------------------------------------

  /** Its next calls, one after the other. */
  function Goes(s: Pools, i: nat, lucks: seq<Luck>): (r: Pools)
    requires Whole(s) && i < |s.checkouts|
    ensures Whole(r) && |r.checkouts| == |s.checkouts|
    decreases |lucks|
  {
    if lucks == [] then s
    else
      GoKeepsWhole(s, i, lucks[0]);
      GoAccepts(s, i, lucks[0]);
      Goes(GoStep(s, i, lucks[0]), i, lucks[1..])
  }

  lemma GoesOn(s: Pools, i: nat, luck: Luck, rest: seq<Luck>)
    requires Whole(s) && i < |s.checkouts|
    ensures Whole(GoStep(s, i, luck)) && i < |GoStep(s, i, luck).checkouts|
    ensures Goes(s, i, [luck] + rest) == Goes(GoStep(s, i, luck), i, rest)
  {
    GoKeepsWhole(s, i, luck);
    GoAccepts(s, i, luck);
    assert ([luck] + rest)[1..] == rest;
  }

  ghost predicate At(s: Pools, i: nat, stage: Stage) {
    Whole(s) && i < |s.checkouts| && s.checkouts[i].stage == stage
  }

  /** From the ping to the loan. */
  lemma PingedIsLent(s: Pools, i: nat)
    requires At(s, i, Pinging)
    ensures At(Goes(s, i, [Fine, Fine]), i, Borrowed)
    ensures Goes(s, i, [Fine, Fine]).checkouts[i].conn == s.checkouts[i].conn
    ensures Goes(s, i, [Fine, Fine]).queues == s.queues && Goes(s, i, [Fine, Fine]).closed == s.closed
  {
    GoesOn(s, i, Fine, [Fine]);
    GoesOn(GoStep(s, i, Fine), i, Fine, []);
    assert [Fine] + [Fine] == [Fine, Fine] && [Fine] + [] == [Fine];
  }

  /** From the connect to the loan. */
  lemma OpenedIsLent(s: Pools, i: nat)
    requires At(s, i, Connecting)
    ensures At(Goes(s, i, [Fine, Fine]), i, Borrowed)
    ensures Goes(s, i, [Fine, Fine]).checkouts[i].conn == Some(|s.sessions|)
    ensures Goes(s, i, [Fine, Fine]).queues == s.queues && Goes(s, i, [Fine, Fine]).closed == s.closed
  {
    GoesOn(s, i, Fine, [Fine]);
    GoesOn(GoStep(s, i, Fine), i, Fine, []);
    assert [Fine] + [Fine] == [Fine, Fine] && [Fine] + [] == [Fine];
  }

  /** A checkout that finds an idle connection, and all goes well, lends the one idle longest;
      one that finds none lends a new one. */
  lemma CheckoutLends(s: Pools, i: nat)
    requires At(s, i, Getting)
    ensures var q := s.checkouts[i].queue; var r := Goes(s, i, [Fine, Fine, Fine]);
      && At(r, i, Borrowed) && r.closed == s.closed
      && (if s.queues[q].items == []
          then r.checkouts[i].conn == Some(|s.sessions|) && r.queues == s.queues
          else r.checkouts[i].conn == Some(s.queues[q].items[0]) && r.queues[q].items == s.queues[q].items[1..])
  {
    var r := GoStep(s, i, Fine);
    GoesOn(s, i, Fine, [Fine, Fine]);
    assert [Fine] + [Fine, Fine] == [Fine, Fine, Fine];
    if s.queues[s.checkouts[i].queue].items == [] { OpenedIsLent(r, i); } else { PingedIsLent(r, i); }
  }

  /** An idle connection that is found dead is closed and replaced by a new one. */
  lemma DeadIsReplaced(s: Pools, i: nat)
    requires At(s, i, Pinging)
    ensures var r := Goes(s, i, [Fails, Fine, Fine]);
      && At(r, i, Borrowed) && r.checkouts[i].conn == Some(|s.sessions|)
      && r.closed == s.closed + {s.checkouts[i].conn.value} && r.queues == s.queues
  {
    GoesOn(s, i, Fails, [Fine, Fine]);
    assert [Fails] + [Fine, Fine] == [Fails, Fine, Fine];
    OpenedIsLent(GoStep(s, i, Fails), i);
  }

  /** From the put to the end: idle last if there is room, else closed. */
  lemma PutEnds(s: Pools, i: nat)
    requires At(s, i, Putting)
    ensures At(Goes(s, i, [Fine]), i, Over)
    ensures var q, c := s.checkouts[i].queue, s.checkouts[i].conn.value; var r := Goes(s, i, [Fine]);
      r.sessions == s.sessions &&
      if HasRoom(s.queues[q]) then r.queues[q].items == s.queues[q].items + [c] && r.closed == s.closed
      else r.queues == s.queues && r.closed == s.closed + {c}
  {
    GoesOn(s, i, Fine, []);
    assert [Fine] + [] == [Fine];
  }

  /** How a loan ends whose connection is `c`: idle last in its queue if there is room, and as
      new; else closed. */
  ghost predicate Returned(s: Pools, r: Pools, i: nat, c: Conn)
    requires Whole(s) && i < |s.checkouts|
  {
    var q := s.checkouts[i].queue;
    At(r, i, Over) && q < |r.queues| && c < |r.sessions| && r.sessions[c] == FRESH &&
    if HasRoom(s.queues[q]) then r.queues[q].items == s.queues[q].items + [c] && r.closed == s.closed
    else r.queues == s.queues && r.closed == s.closed + {c}
  }

  lemma RestoreEnds(s: Pools, i: nat)
    requires At(s, i, Restoring) && !s.sessions[s.checkouts[i].conn.value].dirty
    requires !s.sessions[s.checkouts[i].conn.value].raised
    ensures Returned(s, Goes(s, i, [Fine, Fine]), i, s.checkouts[i].conn.value)
  {
    GoesOn(s, i, Fine, [Fine]);
    assert [Fine] + [Fine] == [Fine, Fine];
    PutEnds(GoStep(s, i, Fine), i);
  }

  lemma RollbackRestores(s: Pools, i: nat)
    requires At(s, i, RollingBack) && s.checkouts[i].isolation
    requires !s.sessions[s.checkouts[i].conn.value].raised
    ensures Returned(s, Goes(s, i, [Fine, Fine, Fine]), i, s.checkouts[i].conn.value)
  {
    GoesOn(s, i, Fine, [Fine, Fine]);
    assert [Fine] + [Fine, Fine] == [Fine, Fine, Fine];
    RestoreEnds(GoStep(s, i, Fine), i);
  }

  lemma RollbackEnds(s: Pools, i: nat)
    requires At(s, i, RollingBack) && !s.checkouts[i].isolation
    requires s.sessions[s.checkouts[i].conn.value].plain && !s.sessions[s.checkouts[i].conn.value].raised
    ensures Returned(s, Goes(s, i, [Fine, Fine]), i, s.checkouts[i].conn.value)
  {
    GoesOn(s, i, Fine, [Fine]);
    assert [Fine] + [Fine] == [Fine, Fine];
    PutEnds(GoStep(s, i, Fine), i);
  }

  /** A loan that ends well ends with the connection as new and idle last in its queue, if there
      is room, and else closed, at whatever level it was. */
  lemma LoanEnds(s: Pools, i: nat)
    requires At(s, i, Borrowed) && (s.checkouts[i].isolation || s.sessions[s.checkouts[i].conn.value].plain)
    requires !s.sessions[s.checkouts[i].conn.value].raised
    ensures Returned(s, Goes(s, i, if s.checkouts[i].isolation then [Fine, Fine, Fine, Fine] else [Fine, Fine, Fine]),
                     i, s.checkouts[i].conn.value)
  {
    if s.checkouts[i].isolation {
      GoesOn(s, i, Fine, [Fine, Fine, Fine]);
      assert [Fine] + [Fine, Fine, Fine] == [Fine, Fine, Fine, Fine];
      RollbackRestores(GoStep(s, i, Fine), i);
    } else {
      GoesOn(s, i, Fine, [Fine, Fine]);
      assert [Fine] + [Fine, Fine] == [Fine, Fine, Fine];
      RollbackEnds(GoStep(s, i, Fine), i);
    }
  }

  /** One that the borrower leaves by an exception of any kind ends at once, and the connection
      is closed. */
  lemma RaisedIsClosed(s: Pools, i: nat, luck: Luck)
    requires At(s, i, Borrowed) && luck != Fine
    ensures At(GoStep(s, i, luck), i, Over) && s.checkouts[i].conn.value in GoStep(s, i, luck).closed
    ensures GoStep(s, i, luck).queues == s.queues
  {
    GoKeepsWhole(s, i, luck);
  }
}
