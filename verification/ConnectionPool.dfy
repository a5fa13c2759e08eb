/** `db.py`: the idle pool, under every interleaving of checkouts and of `close_idle`. */
module ConnectionPool {
  import opened Wrappers

  type Key = nat
  type Conn = nat

  /** How a call on a connection ends: well, with an `Exception`, or with a `BaseException` that
      is none (`KeyboardInterrupt`, `SystemExit`), which `except Exception` lets by. */
  datatype Luck = Fine | Fails | Escapes

  /** Where a checkout stands; each is the call it makes next. */
  datatype Stage =
    | Getting | Pinging | Preparing | Connecting | PreparingNew | Borrowed
    | RollingBack | Restoring | Putting | Over

  datatype Checkout = Checkout(queue: nat, isolation: bool, stage: Stage, conn: Option<Conn>)

  /** `close_idle` at work on the queues it took: it looks, then gets. */
  datatype Closer = Closer(todo: seq<nat>, saw: bool)

  /** An idle queue and its `maxsize`, 0 for none: `IDLE_CAP` when it was made. */
  datatype Queue = Queue(items: seq<Conn>, cap: nat)

  predicate HasRoom(q: Queue) {
    q.cap == 0 || |q.items| < q.cap
  }

  /** A connection: an open transaction, the default isolation level, a borrower that raised. */
  datatype Session = Session(dirty: bool, plain: bool, raised: bool)

  const FRESH := Session(false, true, false)

  datatype Pools = Pools(
    registered: map<Key, nat>, queues: seq<Queue>, checkouts: seq<Checkout>, closers: seq<Closer>,
    sessions: seq<Session>, closed: set<Conn>, lost: set<Conn>)

  datatype Event =
    | Begin(key: Key, isolation: bool, cap: nat)
    | Go(checkout: nat, luck: Luck)
    | CloseIdle
    | CloseGo(closer: nat)

  const EMPTY := Pools(map[], [], [], [], [], {}, {})

  predicate Holds(stage: Stage) {
    !(stage.Getting? || stage.Connecting? || stage.Over?)
  }

  /** `_discard`: closed, whatever the close says. */
  function Discard(s: Pools, i: nat, next: Stage): Pools
    requires i < |s.checkouts| && s.checkouts[i].conn.Some?
  {
    s.(closed := s.closed + {s.checkouts[i].conn.value},
       checkouts := s.checkouts[i := s.checkouts[i].(stage := next, conn := None)])
  }

  /** The call is left by an exception that nothing here catches. */
  function Lose(s: Pools, i: nat): Pools
    requires i < |s.checkouts| && s.checkouts[i].conn.Some?
  {
    s.(lost := s.lost + {s.checkouts[i].conn.value},
       checkouts := s.checkouts[i := s.checkouts[i].(stage := Over, conn := None)])
  }

  function Move(s: Pools, i: nat, next: Stage): Pools
    requires i < |s.checkouts|
  {
    s.(checkouts := s.checkouts[i := s.checkouts[i].(stage := next)])
  }

  function Mark(s: Pools, c: Conn, session: Session): Pools
    requires c < |s.sessions|
  {
    s.(sessions := s.sessions[c := session])
  }

  /** `idle.get_nowait()`. */
  function Get(s: Pools, i: nat): Pools
    requires i < |s.checkouts| && s.checkouts[i].queue < |s.queues|
  {
    var q := s.checkouts[i].queue;
    var items := s.queues[q].items;
    if items == [] then Move(s, i, Connecting)
    else s.(queues := s.queues[q := s.queues[q].(items := items[1..])],
            checkouts := s.checkouts[i := s.checkouts[i].(stage := Pinging, conn := Some(items[0]))])
  }

  /** `connect(config)`. */
  function Connect(s: Pools, i: nat): Pools
    requires i < |s.checkouts|
  {
    s.(sessions := s.sessions + [FRESH],
       checkouts := s.checkouts[i := s.checkouts[i].(stage := PreparingNew, conn := Some(|s.sessions|))])
  }

  /** `idle.put_nowait(conn)`, or a discard when the pool is full. */
  function Put(s: Pools, i: nat): Pools
    requires i < |s.checkouts| && s.checkouts[i].queue < |s.queues| && s.checkouts[i].conn.Some?
  {
    var q := s.checkouts[i].queue;
    var items := s.queues[q].items;
    if HasRoom(s.queues[q])
    then s.(queues := s.queues[q := s.queues[q].(items := items + [s.checkouts[i].conn.value])],
            checkouts := s.checkouts[i := s.checkouts[i].(stage := Over, conn := None)])
    else Discard(s, i, Over)
  }

  /** The next call of checkout `i`. */
  function GoStep(s: Pools, i: nat, luck: Luck): Pools
    requires Whole(s) && i < |s.checkouts|
  {
    var k := s.checkouts[i];
    match k.stage
    case Getting => Get(s, i)
    case Pinging =>
      if luck.Fine? then Move(s, i, Preparing)
      else if luck.Fails? then Discard(s, i, Connecting)
      else Lose(s, i)
    case Preparing =>
      if !k.isolation then Move(s, i, Borrowed)
      else if luck.Fine? then Move(Mark(s, k.conn.value, s.sessions[k.conn.value].(plain := false)), i, Borrowed)
      else if luck.Fails? then Discard(s, i, Connecting)
      else Lose(s, i)
    case Connecting => if luck.Fine? then Connect(s, i) else Move(s, i, Over)
    case PreparingNew =>
      if !k.isolation then Move(s, i, Borrowed)
      else if luck.Fine? then Move(Mark(s, k.conn.value, s.sessions[k.conn.value].(plain := false)), i, Borrowed)
      else Discard(s, i, Over)
    case Borrowed =>
      if luck.Fine? then Move(Mark(s, k.conn.value, s.sessions[k.conn.value].(dirty := true)), i, RollingBack)
      else Discard(Mark(s, k.conn.value, s.sessions[k.conn.value].(dirty := true, raised := true)), i, Over)
    case RollingBack =>
      if luck.Fine? then
        Move(Mark(s, k.conn.value, s.sessions[k.conn.value].(dirty := false)), i,
             if k.isolation then Restoring else Putting)
      else if luck.Fails? then Discard(s, i, Over)
      else Lose(s, i)
    case Restoring =>
      if luck.Fine? then Move(Mark(s, k.conn.value, s.sessions[k.conn.value].(plain := true)), i, Putting)
      else if luck.Fails? then Discard(s, i, Over)
      else Lose(s, i)
    case Putting => Put(s, i)
    case Over => s
  }

  /** The queue of a configuration is found, or made, under the lock. */
  function BeginStep(s: Pools, key: Key, isolation: bool, cap: nat): Pools {
    if key in s.registered
    then s.(checkouts := s.checkouts + [Checkout(s.registered[key], isolation, Getting, None)])
    else s.(registered := s.registered[key := |s.queues|], queues := s.queues + [Queue([], cap)],
            checkouts := s.checkouts + [Checkout(|s.queues|, isolation, Getting, None)])
  }

  /** The registered queues, each once. */
  function QueuesOf(s: Pools): seq<nat> {
    ListOf(s, |s.queues|)
  }

  function ListOf(s: Pools, n: nat): seq<nat> {
    if n == 0 then [] else ListOf(s, n - 1) + (if n - 1 in s.registered.Values then [n - 1] else [])
  }

  function CloseStep(s: Pools): Pools {
    s.(registered := map[], closers := s.closers + [Closer(QueuesOf(s), false)])
  }

  /** `while not idle.empty(): _discard(idle.get_nowait())`: the queue may be emptied in between,
      and then the get raises and the rest is left. */
  function CloseGoStep(s: Pools, j: nat): Pools
    requires Whole(s) && j < |s.closers|
  {
    var k := s.closers[j];
    if k.todo == [] then s
    else
      var items := s.queues[k.todo[0]].items;
      if !k.saw then
        s.(closers := s.closers[j := if items == [] then Closer(k.todo[1..], false) else Closer(k.todo, true)])
      else if items == [] then s.(closers := s.closers[j := Closer([], false)])
      else s.(queues := s.queues[k.todo[0] := s.queues[k.todo[0]].(items := items[1..])],
              closed := s.closed + {items[0]},
              closers := s.closers[j := Closer(k.todo, false)])
  }

  /** Every reference leads somewhere. */
  ghost predicate Whole(s: Pools) {
    (forall key :: key in s.registered ==> s.registered[key] < |s.queues|) &&
    (forall i :: 0 <= i < |s.checkouts| ==>
       s.checkouts[i].queue < |s.queues| && (s.checkouts[i].conn.Some? <==> Holds(s.checkouts[i].stage)) &&
       (s.checkouts[i].conn.Some? ==> s.checkouts[i].conn.value < |s.sessions|)) &&
    (forall j, n :: 0 <= j < |s.closers| && 0 <= n < |s.closers[j].todo| ==> s.closers[j].todo[n] < |s.queues|) &&
    (forall q, n :: 0 <= q < |s.queues| && 0 <= n < |s.queues[q].items| ==> s.queues[q].items[n] < |s.sessions|)
  }

  predicate Able(s: Pools, e: Event) {
    match e
    case Go(i, _) => i < |s.checkouts|
    case CloseGo(j) => j < |s.closers|
    case _ => true
  }

  function Step(s: Pools, e: Event): Pools
    requires Whole(s)
  {
    if !Able(s, e) then s
    else match e
      case Begin(key, isolation, cap) => BeginStep(s, key, isolation, cap)
      case Go(i, luck) => GoStep(s, i, luck)
      case CloseIdle => CloseStep(s)
      case CloseGo(j) => CloseGoStep(s, j)
  }

  lemma {:induction false} ListMeans(s: Pools, n: nat)
    ensures forall q :: q in ListOf(s, n) <==> q < n && q in s.registered.Values
  {
    if n > 0 { ListMeans(s, n - 1); }
  }

  /** What the call notes on the connection before it moves on. */
  function Noted(s: Pools, i: nat, luck: Luck): Session
    requires Whole(s) && i < |s.checkouts| && s.checkouts[i].conn.Some?
  {
    var x := s.sessions[s.checkouts[i].conn.value];
    match s.checkouts[i].stage
    case Preparing => if s.checkouts[i].isolation && luck.Fine? then x.(plain := false) else x
    case PreparingNew => if s.checkouts[i].isolation && luck.Fine? then x.(plain := false) else x
    case Borrowed => if luck.Fine? then x.(dirty := true) else x.(dirty := true, raised := true)
    case RollingBack => if luck.Fine? then x.(dirty := false) else x
    case Restoring => if luck.Fine? then x.(plain := true) else x
    case _ => x
  }

  /** Whether the call keeps the connection, closes it, or lets it go unclosed. */
  datatype Outcome = Keeps(next: Stage) | Closes(next: Stage) | Loses

  function OutcomeOf(k: Checkout, luck: Luck): Outcome {
    match k.stage
    case Pinging => if luck.Fine? then Keeps(Preparing) else if luck.Fails? then Closes(Connecting) else Loses
    case Preparing =>
      if !k.isolation || luck.Fine? then Keeps(Borrowed) else if luck.Fails? then Closes(Connecting) else Loses
    case PreparingNew => if !k.isolation || luck.Fine? then Keeps(Borrowed) else Closes(Over)
    case Borrowed => if luck.Fine? then Keeps(RollingBack) else Closes(Over)
    case RollingBack =>
      if luck.Fine? then Keeps(if k.isolation then Restoring else Putting)
      else if luck.Fails? then Closes(Over)
      else Loses
    case Restoring => if luck.Fine? then Keeps(Putting) else if luck.Fails? then Closes(Over) else Loses
    case _ => Keeps(k.stage)
  }

  function Apply(m: Pools, i: nat, o: Outcome): Pools
    requires i < |m.checkouts| && m.checkouts[i].conn.Some?
  {
    match o
    case Keeps(next) => Move(m, i, next)
    case Closes(next) => Discard(m, i, next)
    case Loses => Lose(m, i)
  }

  lemma HeldStep(s: Pools, i: nat, luck: Luck)
    requires Whole(s) && i < |s.checkouts| && s.checkouts[i].conn.Some? && !s.checkouts[i].stage.Putting?
    ensures GoStep(s, i, luck) ==
            Apply(Mark(s, s.checkouts[i].conn.value, Noted(s, i, luck)), i, OutcomeOf(s.checkouts[i], luck))
  {
    var c := s.checkouts[i].conn.value;
    assert s.sessions[c := s.sessions[c]] == s.sessions;
  }

  lemma ApplyKeepsWhole(m: Pools, i: nat, o: Outcome)
    requires Whole(m) && i < |m.checkouts| && m.checkouts[i].conn.Some?
    requires o.Keeps? ==> Holds(o.next)
    requires o.Closes? ==> !Holds(o.next)
    ensures Whole(Apply(m, i, o))
  {
  }

  lemma PutKeepsWhole(s: Pools, i: nat)
    requires Whole(s) && i < |s.checkouts| && s.checkouts[i].conn.Some?
    ensures Whole(Put(s, i))
  {
  }

  lemma FreeKeepsWhole(s: Pools, i: nat, luck: Luck)
    requires Whole(s) && i < |s.checkouts| && s.checkouts[i].conn.None?
    ensures Whole(GoStep(s, i, luck))
  {
  }

  lemma GoKeepsWhole(s: Pools, i: nat, luck: Luck)
    requires Whole(s) && i < |s.checkouts|
    ensures Whole(GoStep(s, i, luck))
  {
    var k := s.checkouts[i];
    if k.conn.None? {
      FreeKeepsWhole(s, i, luck);
    } else if k.stage.Putting? {
      PutKeepsWhole(s, i);
    } else {
      HeldStep(s, i, luck);
      ApplyKeepsWhole(Mark(s, k.conn.value, Noted(s, i, luck)), i, OutcomeOf(k, luck));
    }
  }

  lemma CloseKeepsWhole(s: Pools)
    requires Whole(s)
    ensures Whole(CloseStep(s))
  {
    ListMeans(s, |s.queues|);
    var list := QueuesOf(s);
    assert forall n :: 0 <= n < |list| ==> list[n] in list;
  }

  lemma CloseGoKeepsWhole(s: Pools, j: nat)
    requires Whole(s) && j < |s.closers|
    ensures Whole(CloseGoStep(s, j))
  {
  }

  lemma StepKeepsWhole(s: Pools, e: Event)
    requires Whole(s)
    ensures Whole(Step(s, e))
  {
    if Able(s, e) {
      match e
      case Go(i, luck) => GoKeepsWhole(s, i, luck);
      case CloseIdle => CloseKeepsWhole(s);
      case CloseGo(j) => CloseGoKeepsWhole(s, j);
      case _ =>
    }
  }

  /** Any order of any calls of any number of threads. */
  function Exec(es: seq<Event>): (s: Pools)
    ensures Whole(s)
    decreases |es|
  {
    if es == [] then EMPTY
    else
      StepKeepsWhole(Exec(es[..|es| - 1]), es[|es| - 1]);
      Step(Exec(es[..|es| - 1]), es[|es| - 1])
  }

  // ----- each connection is in one place ----------------------------------------------------------

  datatype Place = Held(checkout: nat) | Idle(queue: nat) | Shut | Gone

  ghost predicate Found(s: Pools, c: Conn, p: Place) {
    match p
    case Held(i) => i < |s.checkouts| && s.checkouts[i].conn == Some(c)
    case Idle(q) => q < |s.queues| && c in s.queues[q].items
    case Shut => c in s.closed
    case Gone => c in s.lost
  }

  /** `home` says of every connection where it is, and it is nowhere else. */
  ghost predicate Agrees(s: Pools, home: seq<Place>) {
    |home| == |s.sessions| &&
    (forall c :: 0 <= c < |home| ==> Found(s, c, home[c])) &&
    (forall i :: 0 <= i < |s.checkouts| && s.checkouts[i].conn.Some? ==>
       s.checkouts[i].conn.value < |home| && home[s.checkouts[i].conn.value] == Held(i)) &&
    (forall q, n :: 0 <= q < |s.queues| && 0 <= n < |s.queues[q].items| ==>
       s.queues[q].items[n] < |home| && home[s.queues[q].items[n]] == Idle(q)) &&
    (forall c :: c in s.closed ==> c < |home| && home[c] == Shut) &&
    (forall c :: c in s.lost ==> c < |home| && home[c] == Gone)
  }

  ghost predicate Single(q: Queue) {
    forall m, n :: 0 <= m < n < |q.items| ==> q.items[m] != q.items[n]
  }

  predicate WithinCap(q: Queue) {
    q.cap == 0 || |q.items| <= q.cap
  }

  ghost predicate Tidy(s: Pools) {
    forall q :: 0 <= q < |s.queues| ==> Single(s.queues[q]) && WithinCap(s.queues[q])
  }

  lemma DiscardAgrees(s: Pools, i: nat, next: Stage, home: seq<Place>) returns (now: seq<Place>)
    requires i < |s.checkouts| && s.checkouts[i].conn.Some? && Agrees(s, home) && Tidy(s)
    ensures Agrees(Discard(s, i, next), now) && Tidy(Discard(s, i, next))
  {
    now := home[s.checkouts[i].conn.value := Shut];
    var r := Discard(s, i, next);
    forall c | 0 <= c < |now| ensures Found(r, c, now[c]) { assert Found(s, c, home[c]); }
  }

  lemma LoseAgrees(s: Pools, i: nat, home: seq<Place>) returns (now: seq<Place>)
    requires i < |s.checkouts| && s.checkouts[i].conn.Some? && Agrees(s, home) && Tidy(s)
    ensures Agrees(Lose(s, i), now) && Tidy(Lose(s, i))
  {
    now := home[s.checkouts[i].conn.value := Gone];
    var r := Lose(s, i);
    forall c | 0 <= c < |now| ensures Found(r, c, now[c]) { assert Found(s, c, home[c]); }
  }

  lemma GetAgrees(s: Pools, i: nat, home: seq<Place>) returns (now: seq<Place>)
    requires i < |s.checkouts| && s.checkouts[i].queue < |s.queues| && s.checkouts[i].conn.None?
    requires s.queues[s.checkouts[i].queue].items != []
    requires Agrees(s, home) && Tidy(s)
    ensures Agrees(Get(s, i), now) && Tidy(Get(s, i))
  {
    var q := s.checkouts[i].queue;
    var items := s.queues[q].items;
    now := home[items[0] := Held(i)];
    var r := Get(s, i);
    assert items == [items[0]] + items[1..] && Single(s.queues[q]);
    forall c | 0 <= c < |now| ensures Found(r, c, now[c]) { assert Found(s, c, home[c]); }
  }

  lemma PutAgrees(s: Pools, i: nat, home: seq<Place>) returns (now: seq<Place>)
    requires i < |s.checkouts| && s.checkouts[i].queue < |s.queues| && s.checkouts[i].conn.Some?
    requires Agrees(s, home) && Tidy(s)
    ensures Agrees(Put(s, i), now) && Tidy(Put(s, i))
  {
    var q := s.checkouts[i].queue;
    var c0 := s.checkouts[i].conn.value;
    if HasRoom(s.queues[q]) {
      now := home[c0 := Idle(q)];
      var r := Put(s, i);
      forall c | 0 <= c < |now| ensures Found(r, c, now[c]) { assert Found(s, c, home[c]); }
    } else {
      now := DiscardAgrees(s, i, Over, home);
    }
  }

  lemma ConnectAgrees(s: Pools, i: nat, home: seq<Place>) returns (now: seq<Place>)
    requires i < |s.checkouts| && s.checkouts[i].conn.None? && Agrees(s, home) && Tidy(s)
    ensures Agrees(Connect(s, i), now) && Tidy(Connect(s, i))
  {
    now := home + [Held(i)];
    var r := Connect(s, i);
    forall c | 0 <= c < |now| ensures Found(r, c, now[c]) {
      if c < |home| { assert Found(s, c, home[c]); }
    }
  }

  lemma MoveAgrees(s: Pools, i: nat, next: Stage, home: seq<Place>)
    requires i < |s.checkouts| && Agrees(s, home) && Tidy(s)
    ensures Agrees(Move(s, i, next), home) && Tidy(Move(s, i, next))
  {
    var r := Move(s, i, next);
    forall c | 0 <= c < |home| ensures Found(r, c, home[c]) { assert Found(s, c, home[c]); }
  }

  lemma MarkAgrees(s: Pools, c0: Conn, session: Session, home: seq<Place>)
    requires c0 < |s.sessions| && Agrees(s, home) && Tidy(s)
    ensures Agrees(Mark(s, c0, session), home) && Tidy(Mark(s, c0, session))
  {
    var r := Mark(s, c0, session);
    forall c | 0 <= c < |home| ensures Found(r, c, home[c]) { assert Found(s, c, home[c]); }
  }

  lemma ApplyAgrees(m: Pools, i: nat, o: Outcome, home: seq<Place>) returns (now: seq<Place>)
    requires i < |m.checkouts| && m.checkouts[i].conn.Some? && Agrees(m, home) && Tidy(m)
    ensures Agrees(Apply(m, i, o), now) && Tidy(Apply(m, i, o))
  {
    match o
    case Keeps(next) =>
      now := home;
      MoveAgrees(m, i, next, home);
    case Closes(next) => now := DiscardAgrees(m, i, next, home);
    case Loses => now := LoseAgrees(m, i, home);
  }

  lemma FreeAgrees(s: Pools, i: nat, luck: Luck, home: seq<Place>) returns (now: seq<Place>)
    requires Whole(s) && i < |s.checkouts| && Agrees(s, home) && Tidy(s) && s.checkouts[i].conn.None?
    ensures Agrees(GoStep(s, i, luck), now) && Tidy(GoStep(s, i, luck))
  {
    var k := s.checkouts[i];
    now := home;
    if k.stage.Getting? && s.queues[k.queue].items != [] {
      now := GetAgrees(s, i, home);
    } else if k.stage.Connecting? && luck.Fine? {
      now := ConnectAgrees(s, i, home);
    } else if !k.stage.Over? {
      MoveAgrees(s, i, if k.stage.Getting? then Connecting else Over, home);
    }
  }

  lemma GoAgrees(s: Pools, i: nat, luck: Luck, home: seq<Place>) returns (now: seq<Place>)
    requires Whole(s) && i < |s.checkouts| && Agrees(s, home) && Tidy(s)
    ensures Agrees(GoStep(s, i, luck), now) && Tidy(GoStep(s, i, luck))
  {
    var k := s.checkouts[i];
    if k.conn.None? {
      now := FreeAgrees(s, i, luck, home);
    } else if k.stage.Putting? {
      now := PutAgrees(s, i, home);
    } else {
      HeldStep(s, i, luck);
      MarkAgrees(s, k.conn.value, Noted(s, i, luck), home);
      now := ApplyAgrees(Mark(s, k.conn.value, Noted(s, i, luck)), i, OutcomeOf(k, luck), home);
    }
  }

  lemma BeginAgrees(s: Pools, key: Key, isolation: bool, cap: nat, home: seq<Place>)
    requires Agrees(s, home) && Tidy(s)
    ensures Agrees(BeginStep(s, key, isolation, cap), home) && Tidy(BeginStep(s, key, isolation, cap))
  {
    var r := BeginStep(s, key, isolation, cap);
    forall c | 0 <= c < |home| ensures Found(r, c, home[c]) { assert Found(s, c, home[c]); }
  }

  lemma CloseGoAgrees(s: Pools, j: nat, home: seq<Place>) returns (now: seq<Place>)
    requires Whole(s) && j < |s.closers| && Agrees(s, home) && Tidy(s)
    ensures Agrees(CloseGoStep(s, j), now) && Tidy(CloseGoStep(s, j))
  {
    var k := s.closers[j];
    var r := CloseGoStep(s, j);
    now := home;
    if k.todo != [] && k.saw && s.queues[k.todo[0]].items != [] {
      var items := s.queues[k.todo[0]].items;
      assert items == [items[0]] + items[1..] && Single(s.queues[k.todo[0]]);
      now := home[items[0] := Shut];
    }
    forall c | 0 <= c < |now| ensures Found(r, c, now[c]) { assert Found(s, c, home[c]); }
  }

  lemma StepAgrees(s: Pools, e: Event, home: seq<Place>) returns (now: seq<Place>)
    requires Whole(s) && Agrees(s, home) && Tidy(s)
    ensures Agrees(Step(s, e), now) && Tidy(Step(s, e))
  {
    now := home;
    if Able(s, e) {
      match e
      case Begin(key, isolation, cap) => BeginAgrees(s, key, isolation, cap, home);
      case Go(i, luck) => now := GoAgrees(s, i, luck, home);
      case CloseIdle =>
        forall c | 0 <= c < |home| ensures Found(Step(s, e), c, home[c]) { assert Found(s, c, home[c]); }
      case CloseGo(j) => now := CloseGoAgrees(s, j, home);
    }
  }

  lemma {:induction false} ExecAgrees(es: seq<Event>) returns (home: seq<Place>)
    ensures Agrees(Exec(es), home) && Tidy(Exec(es))
    decreases |es|
  {
    if es == [] {
      home := [];
    } else {
      var before := ExecAgrees(es[..|es| - 1]);
      home := StepAgrees(Exec(es[..|es| - 1]), es[|es| - 1], before);
    }
  }

  /** A `BaseException` leaves one of the calls that only `except Exception` guards: the ping or
      the preparation of an idle connection, or a call of the return. */
  predicate Escaping(s: Pools, e: Event) {
    e.Go? && Able(s, e) && e.luck.Escapes? &&
    var k := s.checkouts[e.checkout];
    k.stage.Pinging? || k.stage.RollingBack? || k.stage.Restoring? || (k.stage.Preparing? && k.isolation)
  }

  function Escapings(es: seq<Event>): nat
    decreases |es|
  {
    if es == [] then 0
    else Escapings(es[..|es| - 1]) + (if Escaping(Exec(es[..|es| - 1]), es[|es| - 1]) then 1 else 0)
  }

  lemma GoLoses(s: Pools, i: nat, luck: Luck)
    requires Whole(s) && i < |s.checkouts|
    ensures GoStep(s, i, luck).lost
         == s.lost + if Escaping(s, Go(i, luck)) then {s.checkouts[i].conn.value} else {}
  {
    var k := s.checkouts[i];
    if k.conn.Some? && !k.stage.Putting? {
      HeldStep(s, i, luck);
      assert OutcomeOf(k, luck).Loses? <==> Escaping(s, Go(i, luck));
    }
  }

  lemma StepLoses(s: Pools, e: Event, home: seq<Place>)
    requires Whole(s) && Agrees(s, home)
    ensures |Step(s, e).lost| == |s.lost| + if Escaping(s, e) then 1 else 0
  {
    if e.Go? && Able(s, e) {
      GoLoses(s, e.checkout, e.luck);
      if Escaping(s, e) {
        assert home[s.checkouts[e.checkout].conn.value] == Held(e.checkout);
      }
    }
  }

  lemma {:induction false} LossesAreEscapes(es: seq<Event>)
    ensures |Exec(es).lost| == Escapings(es)
    decreases |es|
  {
    if es != [] {
      LossesAreEscapes(es[..|es| - 1]);
      var home := ExecAgrees(es[..|es| - 1]);
      StepLoses(Exec(es[..|es| - 1]), es[|es| - 1], home);
    }
  }

  ghost predicate Somewhere(s: Pools, c: Conn) {
    exists p: Place :: Found(s, c, p)
  }

  /** Every connection ever opened is borrowed by one checkout, idle in one queue, closed or
      lost, and in one of these ways only. As many are lost as `BaseException`s escaped, so none
      is if and only if none did. */
  lemma ConnectionsAreConserved(es: seq<Event>)
    ensures forall c: Conn :: c < |Exec(es).sessions| ==> Somewhere(Exec(es), c)
    ensures forall c: Conn, p: Place, q: Place ::
              Found(Exec(es), c, p) && Found(Exec(es), c, q) ==> p == q && c < |Exec(es).sessions|
    ensures |Exec(es).lost| == Escapings(es)
    ensures Exec(es).lost == {} <==> Escapings(es) == 0
    ensures forall q :: 0 <= q < |Exec(es).queues| ==> WithinCap(Exec(es).queues[q])
  {
    var home := ExecAgrees(es);
    var s := Exec(es);
    forall c: Conn | c < |s.sessions| ensures Somewhere(s, c) { assert Found(s, c, home[c]); }
    forall c: Conn, p: Place | Found(s, c, p) ensures c < |s.sessions| && p == home[c] { FoundAtHome(s, home, c, p); }
    LossesAreEscapes(es);
  }

  lemma ExecSnoc(es: seq<Event>, e: Event)
    ensures Exec(es + [e]) == Step(Exec(es), e)
  {
    assert (es + [e])[..|es|] == es;
  }

  /** The first checkout of a pool, up to its return: a new connection, borrowed and used. */
  const FIRST_USE: seq<Event> := [Begin(0, false, 10), Go(0, Fine), Go(0, Fine), Go(0, Fine), Go(0, Fine)]

  /** One pool with one checkout, on a connection that is nowhere else. */
  function Alone(stage: Stage, conn: Option<Conn>, sessions: seq<Session>): Pools {
    Pools(map[0 := 0], [Queue([], 10)], [Checkout(0, false, stage, conn)], [], sessions, {}, {})
  }

  const USED: Pools := Alone(RollingBack, Some(0), [Session(true, true, false)])

  lemma FirstOpens()
    ensures Step(EMPTY, Begin(0, false, 10)) == Alone(Getting, None, [])
    ensures Step(Alone(Getting, None, []), Go(0, Fine)) == Alone(Connecting, None, [])
  {
    assert EMPTY.registered[0 := 0] == map[0 := 0];
  }

  lemma FirstConnects()
    ensures Whole(Alone(Connecting, None, [])) && Whole(Alone(PreparingNew, Some(0), [FRESH]))
    ensures Step(Alone(Connecting, None, []), Go(0, Fine)) == Alone(PreparingNew, Some(0), [FRESH])
    ensures Step(Alone(PreparingNew, Some(0), [FRESH]), Go(0, Fine)) == Alone(Borrowed, Some(0), [FRESH])
  {
    assert [] + [FRESH] == [FRESH];
  }

  lemma FirstReturns()
    ensures Step(Alone(Borrowed, Some(0), [FRESH]), Go(0, Fine)) == USED
  {
  }

  lemma FirstConnecting(es: seq<Event>)
    requires Exec(es) == Alone(Getting, None, [])
    ensures Exec(es + [Go(0, Fine)] + [Go(0, Fine)]) == Alone(PreparingNew, Some(0), [FRESH])
  {
    ExecSnoc(es, Go(0, Fine));
    ExecSnoc(es + [Go(0, Fine)], Go(0, Fine));
    FirstOpens();
    FirstConnects();
  }

  lemma FirstUsing(es: seq<Event>)
    requires Exec(es) == Alone(PreparingNew, Some(0), [FRESH])
    ensures Exec(es + [Go(0, Fine)] + [Go(0, Fine)]) == USED
  {
    ExecSnoc(es, Go(0, Fine));
    ExecSnoc(es + [Go(0, Fine)], Go(0, Fine));
    FirstConnects();
    FirstReturns();
  }

  lemma FirstOpening()
    ensures Exec([Begin(0, false, 10)]) == Alone(Getting, None, [])
  {
    ExecSnoc([], Begin(0, false, 10));
    assert [] + [Begin(0, false, 10)] == [Begin(0, false, 10)];
    FirstOpens();
  }

  lemma FirstIsUsed()
    ensures Exec(FIRST_USE) == USED
  {
    var open, go := [Begin(0, false, 10)], [Go(0, Fine)];
    FirstOpening();
    FirstConnecting(open);
    FirstUsing(open + go + go);
    assert FIRST_USE == open + go + go + go + go;
  }

  /** One can be lost: an interrupt in the rollback of the return. */
  lemma InterruptedReturnLoses()
    ensures Exec(FIRST_USE + [Go(0, Escapes)]).lost == {0}
  {
    FirstIsUsed();
    ExecSnoc(FIRST_USE, Go(0, Escapes));
  }

  lemma FoundAtHome(s: Pools, home: seq<Place>, c: Conn, p: Place)
    requires Agrees(s, home) && Found(s, c, p)
    ensures c < |home| && p == home[c]
  {
    if p.Idle? {
      var n :| 0 <= n < |s.queues[p.queue].items| && s.queues[p.queue].items[n] == c;
    }
  }

  // ----- what lies idle is as new -----------------------------------------------------------------

  /** What a checkout may find on the connection it holds. */
  ghost predicate InShape(k: Checkout, x: Session) {
    !x.raised &&
    match k.stage
    case Pinging => x == FRESH
    case Preparing => x == FRESH
    case PreparingNew => x == FRESH
    case Borrowed => !x.dirty && (x.plain <==> !k.isolation)
    case RollingBack => x.plain <==> !k.isolation
    case Restoring => !x.dirty && k.isolation && !x.plain
    case Putting => x == FRESH
    case _ => true
  }

  ghost predicate Clean(s: Pools)
    requires Whole(s)
  {
    (forall q, n :: 0 <= q < |s.queues| && 0 <= n < |s.queues[q].items| ==>
       s.sessions[s.queues[q].items[n]] == FRESH) &&
    (forall i :: 0 <= i < |s.checkouts| && s.checkouts[i].conn.Some? ==>
       InShape(s.checkouts[i], s.sessions[s.checkouts[i].conn.value])) &&
    (forall c: Conn :: c < |s.sessions| && s.sessions[c].raised ==> c in s.closed)
  }

  lemma HeldKeepsClean(s: Pools, i: nat, luck: Luck, home: seq<Place>)
    requires Whole(s) && Clean(s) && Agrees(s, home)
    requires i < |s.checkouts| && s.checkouts[i].conn.Some? && !s.checkouts[i].stage.Putting?
    ensures Whole(GoStep(s, i, luck)) && Clean(GoStep(s, i, luck))
  {
    GoKeepsWhole(s, i, luck);
    HeldStep(s, i, luck);
    var c := s.checkouts[i].conn.value;
    var r := GoStep(s, i, luck);
    assert home[c] == Held(i);
    assert InShape(s.checkouts[i], s.sessions[c]);
    forall q, n | 0 <= q < |r.queues| && 0 <= n < |r.queues[q].items|
      ensures r.sessions[r.queues[q].items[n]] == FRESH
    {
      assert home[s.queues[q].items[n]] == Idle(q);
    }
    forall j | 0 <= j < |r.checkouts| && r.checkouts[j].conn.Some?
      ensures InShape(r.checkouts[j], r.sessions[r.checkouts[j].conn.value])
    {
      if j != i { assert home[s.checkouts[j].conn.value] == Held(j); }
    }
  }

  lemma OtherKeepsClean(s: Pools, i: nat, luck: Luck)
    requires Whole(s) && Clean(s)
    requires i < |s.checkouts| && (s.checkouts[i].conn.None? || s.checkouts[i].stage.Putting?)
    ensures Whole(GoStep(s, i, luck)) && Clean(GoStep(s, i, luck))
  {
    GoKeepsWhole(s, i, luck);
    if s.checkouts[i].conn.Some? {
      assert InShape(s.checkouts[i], s.sessions[s.checkouts[i].conn.value]);
    }
  }

  lemma StepKeepsClean(s: Pools, e: Event, home: seq<Place>)
    requires Whole(s) && Clean(s) && Agrees(s, home)
    ensures Whole(Step(s, e)) && Clean(Step(s, e))
  {
    StepKeepsWhole(s, e);
    if e.Go? && Able(s, e) {
      if s.checkouts[e.checkout].conn.None? || s.checkouts[e.checkout].stage.Putting? {
        OtherKeepsClean(s, e.checkout, e.luck);
      } else {
        HeldKeepsClean(s, e.checkout, e.luck, home);
      }
    }
  }

  /** Every idle connection was rolled back and has the default isolation level, whatever its
      last checkout asked for, and no borrower of it ever raised: one that did is closed. */
  lemma {:induction false} IdleIsFresh(es: seq<Event>)
    ensures Clean(Exec(es))
    decreases |es|
  {
    if es != [] {
      IdleIsFresh(es[..|es| - 1]);
      var home := ExecAgrees(es[..|es| - 1]);
      StepKeepsClean(Exec(es[..|es| - 1]), es[|es| - 1], home);
    }
  }

  // ----- closing ------------------------------------------------------------------------------------

  /** Open, and reachable by no later checkout or `close_idle`. */
  ghost predicate Stray(s: Pools) {
    exists q :: 0 <= q < |s.queues| && q !in s.registered.Values && s.queues[q].items != []
  }

  ghost predicate NoneIdle(s: Pools) {
    forall q :: 0 <= q < |s.queues| ==> s.queues[q].items == []
  }

  ghost predicate Quiet(s: Pools) {
    forall i :: 0 <= i < |s.checkouts| ==> s.checkouts[i].conn.None?
  }

  /** How far closer `j` is: what it took and has not reached may be full, the rest is empty. */
  ghost predicate Closing(s: Pools, r: Pools, j: nat) {
    Whole(r) && j < |r.closers| && r.checkouts == s.checkouts && |r.queues| == |s.queues| && r.sessions == s.sessions &&
    r.lost == s.lost && r.registered == map[] && s.closed <= r.closed &&
    (forall q :: 0 <= q < |s.queues| && q !in s.registered.Values ==> r.queues[q] == s.queues[q]) &&
    (forall n :: 0 <= n < |r.closers[j].todo| ==> r.closers[j].todo[n] in s.registered.Values) &&
    (forall q :: 0 <= q < |s.queues| && q in s.registered.Values && q !in r.closers[j].todo ==>
       r.queues[q].items == []) &&
    (r.closers[j].saw ==> r.closers[j].todo != [] && r.queues[r.closers[j].todo[0]].items != [])
  }

  lemma CloseStarts(s: Pools)
    requires Whole(s)
    ensures Closing(s, CloseStep(s), |s.closers|)
  {
    CloseKeepsWhole(s);
    ListMeans(s, |s.queues|);
    var list := QueuesOf(s);
    assert forall n :: 0 <= n < |list| ==> list[n] in list;
  }

  lemma CloseGoes(s: Pools, r: Pools, j: nat)
    requires Closing(s, r, j) && r.closers[j].todo != []
    ensures Closing(s, CloseGoStep(r, j), j)
    ensures |CloseGoStep(r, j).closers[j].todo| < |r.closers[j].todo| ||
            (CloseGoStep(r, j).closers[j].todo == r.closers[j].todo && Work(CloseGoStep(r, j), j) < Work(r, j))
  {
    CloseGoKeepsWhole(r, j);
    var todo := r.closers[j].todo;
    assert todo == [todo[0]] + todo[1..] && todo[0] in s.registered.Values;
  }

  /** `close_idle` with no other thread at work. It empties every registered queue, and leaves
      no connection idle if and only if none was stray. */
  method CloseIdleAlone(s: Pools, ghost home: seq<Place>) returns (r: Pools)
    requires Whole(s) && Agrees(s, home) && Tidy(s)
    ensures forall q :: 0 <= q < |s.queues| ==>
              q < |r.queues| && r.queues[q].items == if q in s.registered.Values then [] else s.queues[q].items
    ensures Whole(r) && |r.queues| == |s.queues| && r.checkouts == s.checkouts
    ensures r.sessions == s.sessions && r.lost == s.lost
    ensures NoneIdle(r) <==> !Stray(s)
    ensures Quiet(s) && !Stray(s) ==> forall c: Conn :: c < |r.sessions| ==> c in r.closed || c in r.lost
  {
    CloseStarts(s);
    var j := |s.closers|;
    r := CloseStep(s);
    ghost var now := StepAgrees(s, CloseIdle, home);
    while r.closers[j].todo != []
      invariant Closing(s, r, j) && Agrees(r, now) && Tidy(r)
      decreases |r.closers[j].todo|, Work(r, j)
    {
      CloseGoes(s, r, j);
      now := CloseGoAgrees(r, j, now);
      r := CloseGoStep(r, j);
    }
    CloserDone(s, r, j, now);
  }

  /** The calls left on the queue that closer `j` empties. */
  function Work(r: Pools, j: nat): nat
    requires Whole(r) && j < |r.closers|
  {
    if r.closers[j].todo == [] then 0
    else 2 * |r.queues[r.closers[j].todo[0]].items| + if r.closers[j].saw then 0 else 1
  }

  lemma CloserDone(s: Pools, r: Pools, j: nat, home: seq<Place>)
    requires Closing(s, r, j) && r.closers[j].todo == [] && Agrees(r, home)
    ensures forall q :: 0 <= q < |s.queues| ==>
              r.queues[q].items == if q in s.registered.Values then [] else s.queues[q].items
    ensures NoneIdle(r) <==> !Stray(s)
    ensures Quiet(s) && !Stray(s) ==> forall c: Conn :: c < |r.sessions| ==> c in r.closed || c in r.lost
  {
    forall q | 0 <= q < |s.queues|
      ensures r.queues[q].items == if q in s.registered.Values then [] else s.queues[q].items
    { }
    if Quiet(s) && !Stray(s) {
      forall c: Conn | c < |r.sessions| ensures c in r.closed || c in r.lost { assert Found(r, c, home[c]); }
    }
  }

  ghost predicate AllRegistered(s: Pools) {
    forall q :: 0 <= q < |s.queues| ==> q in s.registered.Values
  }

  /** The first `close_idle` finds everything: until then every queue is registered. */
  lemma {:induction false} NothingStraysBefore(es: seq<Event>)
    requires CloseIdle !in es
    ensures AllRegistered(Exec(es)) && !Stray(Exec(es)) && |Exec(es).closers| == 0
    decreases |es|
  {
    if es != [] {
      var front := es[..|es| - 1];
      assert CloseIdle !in front && es[|es| - 1] in es;
      NothingStraysBefore(front);
      StepStaysRegistered(Exec(front), es[|es| - 1]);
    }
  }

  lemma StepStaysRegistered(s: Pools, e: Event)
    requires Whole(s) && AllRegistered(s) && |s.closers| == 0 && !e.CloseIdle?
    ensures AllRegistered(Step(s, e)) && |Step(s, e).closers| == 0
  {
    if e.Begin? && e.key !in s.registered {
      var r := Step(s, e);
      assert r.registered[e.key] == |s.queues|;
      forall q | 0 <= q < |s.queues| ensures q in r.registered.Values {
        assert q in s.registered.Values;
        var key :| key in s.registered && s.registered[key] == q;
        assert r.registered[key] == q;
      }
    }
  }

  /** A `close_idle` under a checkout is what strays come from: the connection goes back to a
      queue that no one will look into again. */
  lemma ReturnStrays(s: Pools, i: nat)
    requires Whole(s) && i < |s.checkouts| && s.checkouts[i].stage.Putting?
    requires HasRoom(s.queues[s.checkouts[i].queue])
    ensures Whole(CloseStep(s)) && Stray(GoStep(CloseStep(s), i, Fine))
  {
    CloseKeepsWhole(s);
    var q := s.checkouts[i].queue;
    var r := GoStep(CloseStep(s), i, Fine);
    assert r.queues[q].items == s.queues[q].items + [s.checkouts[i].conn.value];
  }

  /** It does happen: a checkout is under way, `close_idle` runs to its end and finds its queue
      empty, and the connection that is returned then is in no registered queue. */
  lemma ReturnAfterCloseStrays()
    ensures var s := Exec(FIRST_USE + [CloseIdle, CloseGo(0), Go(0, Fine), Go(0, Fine)]);
      Stray(s) && Finished(s) && s.queues[0].items == [0] && s.closed == {}
  {
    FirstIsUsed();
    ReturnAfterUse(FIRST_USE);
    OneByOne(FIRST_USE, CloseIdle, CloseGo(0), Go(0, Fine), Go(0, Fine));
  }

  lemma OneByOne(es: seq<Event>, a: Event, b: Event, c: Event, d: Event)
    ensures es + [a, b, c, d] == es + [a] + [b] + [c] + [d]
  {
  }

  lemma ReturnAfterUse(es: seq<Event>)
    requires Exec(es) == USED
    ensures var s := Exec(es + [CloseIdle] + [CloseGo(0)] + [Go(0, Fine)] + [Go(0, Fine)]);
      Stray(s) && Finished(s) && s.queues[0].items == [0] && s.closed == {}
  {
    var ended := es + [CloseIdle] + [CloseGo(0)];
    CloseAfterUse(es);
    ExecSnoc(ended, Go(0, Fine));
    ExecSnoc(ended + [Go(0, Fine)], Go(0, Fine));
    UsedIsReturned();
  }

  lemma CloseAfterUse(es: seq<Event>)
    requires Exec(es) == USED
    ensures Exec(es + [CloseIdle] + [CloseGo(0)]) == Dropped([], RollingBack, Session(true, true, false))
  {
    ExecSnoc(es, CloseIdle);
    ExecSnoc(es + [CloseIdle], CloseGo(0));
    UsedIsClosed();
  }

  /** `USED`, once `close_idle` took its queue and found it empty. */
  function Dropped(todo: seq<nat>, stage: Stage, session: Session): Pools {
    Alone(stage, Some(0), [session]).(registered := map[], closers := [Closer(todo, false)])
  }

  lemma UsedIsClosed()
    ensures Step(USED, CloseIdle) == Dropped([0], RollingBack, Session(true, true, false))
    ensures Whole(Dropped([0], RollingBack, Session(true, true, false)))
    ensures Step(Dropped([0], RollingBack, Session(true, true, false)), CloseGo(0))
         == Dropped([], RollingBack, Session(true, true, false))
  {
    assert [0][1..] == [];
    assert ListOf(USED, 1) == [0] by { assert USED.registered[0] == 0 && 0 in USED.registered.Values; }
  }

  lemma UsedIsReturned()
    ensures Whole(Dropped([], RollingBack, Session(true, true, false))) && Whole(Dropped([], Putting, FRESH))
    ensures Step(Dropped([], RollingBack, Session(true, true, false)), Go(0, Fine)) == Dropped([], Putting, FRESH)
    ensures var s := Step(Dropped([], Putting, FRESH), Go(0, Fine));
      Stray(s) && Finished(s) && s.queues[0].items == [0] && s.closed == {}
  {
    var s := Step(Dropped([], Putting, FRESH), Go(0, Fine));
    assert s.queues[0].items == [0] && 0 !in s.registered.Values;
  }

  // ----- closing with no checkout outstanding -------------------------------------------------

  ghost predicate Outstanding(s: Pools) {
    exists i :: 0 <= i < |s.checkouts| && s.checkouts[i].stage != Over
  }

  /** Every `close_idle` comes when no checkout is outstanding; checkouts may come while it runs. */
  ghost predicate QuietCloses(es: seq<Event>)
    decreases |es|
  {
    es == [] ||
    (QuietCloses(es[..|es| - 1]) && (es[|es| - 1].CloseIdle? ==> !Outstanding(Exec(es[..|es| - 1]))))
  }

  ghost predicate Finished(s: Pools) {
    forall j :: 0 <= j < |s.closers| ==> s.closers[j].todo == []
  }

  /** Some closer has still to empty the queue. */
  predicate Due(s: Pools, q: nat) {
    exists j :: 0 <= j < |s.closers| && q in s.closers[j].todo
  }

  ghost predicate InUse(s: Pools) {
    forall i :: 0 <= i < |s.checkouts| && s.checkouts[i].stage != Over ==> s.checkouts[i].queue in s.registered.Values
  }

  ghost predicate Reachable(s: Pools) {
    forall q :: 0 <= q < |s.queues| && s.queues[q].items != [] ==> q in s.registered.Values || Due(s, q)
  }

  /** No queue is registered and taken by a closer, or taken twice. */
  ghost predicate TakenOnce(registered: map<Key, nat>, closers: seq<Closer>) {
    (forall j, q :: 0 <= j < |closers| && q in closers[j].todo ==> q !in registered.Values) &&
    (forall j, m, n :: 0 <= j < |closers| && 0 <= m < n < |closers[j].todo| ==>
       closers[j].todo[m] != closers[j].todo[n]) &&
    (forall j, k, q :: 0 <= j < |closers| && 0 <= k < |closers| && j != k && q in closers[j].todo ==>
       q !in closers[k].todo)
  }

  ghost predicate Seen(s: Pools) {
    forall j :: 0 <= j < |s.closers| && s.closers[j].saw ==>
      s.closers[j].todo != [] && s.closers[j].todo[0] < |s.queues| && s.queues[s.closers[j].todo[0]].items != []
  }

  /** Checkouts use registered queues, closers have unregistered ones, each its own, and a queue
      that is neither is empty; so no one takes from a closer what it saw. */
  ghost predicate Apart(s: Pools) {
    InUse(s) && Reachable(s) && TakenOnce(s.registered, s.closers) && Seen(s)
  }

  lemma BeginStaysApart(s: Pools, key: Key, isolation: bool, cap: nat)
    requires Whole(s) && Apart(s)
    ensures Apart(BeginStep(s, key, isolation, cap))
  {
    var r := BeginStep(s, key, isolation, cap);
    if key in s.registered {
      assert s.registered[key] in s.registered.Values;
    } else {
      NewKey(s.registered, key, |s.queues|);
      forall j, q | 0 <= j < |s.closers| && q in s.closers[j].todo ensures q !in r.registered.Values {
        var n :| 0 <= n < |s.closers[j].todo| && s.closers[j].todo[n] == q;
        assert s.closers[j].todo[n] < |s.queues|;
      }
    }
    forall q | 0 <= q < |s.queues| && Due(s, q) ensures Due(r, q) { }
  }

  lemma NewKey(m: map<Key, nat>, key: Key, q: nat)
    requires key !in m
    ensures m[key := q].Values == m.Values + {q}
  {
    assert m[key := q][key] == q;
    forall v | v in m.Values ensures v in m[key := q].Values {
      var x :| x in m && m[x] == v;
      assert m[key := q][x] == v;
    }
  }

  lemma {:induction false} ListIsDistinct(s: Pools, n: nat)
    ensures forall a, b :: 0 <= a < b < |ListOf(s, n)| ==> ListOf(s, n)[a] != ListOf(s, n)[b]
  {
    if n > 0 {
      ListIsDistinct(s, n - 1);
      ListMeans(s, n - 1);
      var before := ListOf(s, n - 1);
      assert forall a :: 0 <= a < |before| ==> before[a] in before;
    }
  }

  lemma CloseTakesOnce(s: Pools)
    requires Whole(s) && TakenOnce(s.registered, s.closers)
    ensures TakenOnce(CloseStep(s).registered, CloseStep(s).closers)
  {
    ListMeans(s, |s.queues|);
    ListIsDistinct(s, |s.queues|);
  }

  lemma CloseStaysReachable(s: Pools)
    requires Whole(s) && Reachable(s)
    ensures Reachable(CloseStep(s))
  {
    var r := CloseStep(s);
    ListMeans(s, |s.queues|);
    forall q | 0 <= q < |s.queues| && s.queues[q].items != [] ensures Due(r, q) {
      if q in s.registered.Values {
        assert q in r.closers[|s.closers|].todo;
      } else {
        var j :| 0 <= j < |s.closers| && q in s.closers[j].todo;
        assert r.closers[j] == s.closers[j];
      }
    }
  }

  lemma CloseStaysApart(s: Pools)
    requires Whole(s) && Apart(s) && !Outstanding(s)
    ensures Apart(CloseStep(s))
  {
    CloseTakesOnce(s);
    CloseStaysReachable(s);
  }

  /** A call of a checkout touches its own queue and no other. */
  ghost predicate OwnQueue(s: Pools, r: Pools, i: nat)
    requires i < |s.checkouts|
  {
    r.registered == s.registered && r.closers == s.closers &&
    |r.queues| == |s.queues| && |r.checkouts| == |s.checkouts| &&
    (forall q :: 0 <= q < |s.queues| && r.queues[q] != s.queues[q] ==>
       q == s.checkouts[i].queue && s.checkouts[i].stage != Over) &&
    (forall k :: 0 <= k < |s.checkouts| && k != i ==> r.checkouts[k] == s.checkouts[k]) &&
    r.checkouts[i].queue == s.checkouts[i].queue && (s.checkouts[i].stage == Over ==> r.checkouts[i].stage == Over)
  }

  lemma GoUsesOwnQueue(s: Pools, i: nat, luck: Luck)
    requires Whole(s) && i < |s.checkouts|
    ensures OwnQueue(s, GoStep(s, i, luck), i)
  {
  }

  lemma GoStaysApart(s: Pools, i: nat, luck: Luck)
    requires Whole(s) && Apart(s) && i < |s.checkouts|
    ensures Apart(GoStep(s, i, luck))
  {
    GoUsesOwnQueue(s, i, luck);
    OwnQueueStaysApart(s, GoStep(s, i, luck), i);
  }

  lemma OwnQueueStaysApart(s: Pools, r: Pools, i: nat)
    requires Apart(s) && i < |s.checkouts| && OwnQueue(s, r, i)
    ensures Apart(r)
  {
    forall q | Due(s, q) ensures Due(r, q) { }
    forall j | 0 <= j < |s.closers| && s.closers[j].saw ensures r.queues[s.closers[j].todo[0]].items != [] {
      assert s.closers[j].todo[0] in s.closers[j].todo;
    }
  }

  lemma CloseGoTakesOnce(s: Pools, j: nat)
    requires Whole(s) && j < |s.closers| && TakenOnce(s.registered, s.closers)
    ensures TakenOnce(CloseGoStep(s, j).registered, CloseGoStep(s, j).closers)
  {
    var todo := s.closers[j].todo;
    assert todo != [] ==> forall q :: q in todo[1..] ==> q in todo;
  }

  lemma CloseGoStaysReachable(s: Pools, j: nat)
    requires Whole(s) && j < |s.closers| && Reachable(s) && Seen(s)
    ensures Reachable(CloseGoStep(s, j))
  {
    var r := CloseGoStep(s, j);
    var todo := s.closers[j].todo;
    if todo != [] {
      assert todo == [todo[0]] + todo[1..];
      forall q | 0 <= q < |r.queues| && r.queues[q].items != [] && Due(s, q) ensures Due(r, q) {
        var k :| 0 <= k < |s.closers| && q in s.closers[k].todo;
        assert q in r.closers[k].todo;
      }
    }
  }

  lemma CloseGoStaysSeen(s: Pools, j: nat)
    requires Whole(s) && j < |s.closers| && TakenOnce(s.registered, s.closers) && Seen(s)
    ensures Seen(CloseGoStep(s, j))
  {
    forall k | 0 <= k < |s.closers| && s.closers[k].saw ensures s.closers[k].todo[0] in s.closers[k].todo { }
  }

  lemma CloseGoStaysApart(s: Pools, j: nat)
    requires Whole(s) && Apart(s) && j < |s.closers|
    ensures Apart(CloseGoStep(s, j))
  {
    CloseGoTakesOnce(s, j);
    CloseGoStaysReachable(s, j);
    CloseGoStaysSeen(s, j);
  }

  lemma {:induction false} QuietStaysApart(es: seq<Event>)
    requires QuietCloses(es)
    ensures Apart(Exec(es))
    decreases |es|
  {
    if es != [] {
      var s, e := Exec(es[..|es| - 1]), es[|es| - 1];
      QuietStaysApart(es[..|es| - 1]);
      if Able(s, e) {
        match e
        case Begin(key, isolation, cap) => BeginStaysApart(s, key, isolation, cap);
        case Go(i, luck) => GoStaysApart(s, i, luck);
        case CloseIdle => CloseStaysApart(s);
        case CloseGo(j) => CloseGoStaysApart(s, j);
      }
    }
  }

  // ----- exactly when a connection strands -------------------------------------------------------

  /** Some other closer has the queue. */
  predicate DueElsewhere(s: Pools, j: nat, q: nat) {
    exists k :: 0 <= k < |s.closers| && k != j && q in s.closers[k].todo
  }

  /** A connection is put into a queue that no later call looks into, or a closer whose queue was
      emptied under it gives up a full one that no other closer has. */
  ghost predicate Strands(s: Pools, e: Event)
    requires Whole(s)
  {
    match e
    case Go(i, _) =>
      i < |s.checkouts| && s.checkouts[i].stage.Putting? && HasRoom(s.queues[s.checkouts[i].queue]) &&
      s.checkouts[i].queue !in s.registered.Values && !Due(s, s.checkouts[i].queue)
    case CloseGo(j) =>
      j < |s.closers| && s.closers[j].saw && s.closers[j].todo != [] &&
      s.queues[s.closers[j].todo[0]].items == [] &&
      exists n :: 0 < n < |s.closers[j].todo| && Abandoned(s, j, s.closers[j].todo[n])
    case _ => false
  }

  predicate Abandoned(s: Pools, j: nat, q: nat) {
    q < |s.queues| && s.queues[q].items != [] && q !in s.registered.Values && !DueElsewhere(s, j, q)
  }

  lemma BeginReaches(s: Pools, key: Key, isolation: bool, cap: nat)
    requires Whole(s) && Reachable(s)
    ensures Reachable(BeginStep(s, key, isolation, cap))
  {
    var r := BeginStep(s, key, isolation, cap);
    if key !in s.registered { NewKey(s.registered, key, |s.queues|); }
    forall q | 0 <= q < |s.queues| && Due(s, q) ensures Due(r, q) { }
  }

  lemma GoReaches(s: Pools, i: nat, luck: Luck)
    requires Whole(s) && Reachable(s) && i < |s.checkouts|
    ensures Reachable(GoStep(s, i, luck)) <==> !Strands(s, Go(i, luck))
  {
    var r, own := GoStep(s, i, luck), s.checkouts[i].queue;
    GoUsesOwnQueue(s, i, luck);
    forall q ensures Due(r, q) <==> Due(s, q) { }
    GoFills(s, i, luck);
    if Strands(s, Go(i, luck)) { assert r.queues[own].items != []; }
  }

  /** Only a put makes an empty queue full. */
  lemma GoFills(s: Pools, i: nat, luck: Luck)
    requires Whole(s) && i < |s.checkouts|
    ensures var r, own := GoStep(s, i, luck), s.checkouts[i].queue;
      if s.checkouts[i].stage.Putting? && HasRoom(s.queues[own]) then r.queues[own].items != []
      else r.queues[own].items != [] ==> s.queues[own].items != []
  {
  }

  lemma CloseGoReaches(s: Pools, j: nat)
    requires Whole(s) && Reachable(s) && j < |s.closers|
    ensures Reachable(CloseGoStep(s, j)) <==> !Strands(s, CloseGo(j))
  {
    var k := s.closers[j];
    if k.todo != [] && k.saw && s.queues[k.todo[0]].items == [] {
      GivingUpReaches(s, j);
    } else {
      GoingOnReaches(s, j);
    }
  }

  lemma GivingUpReaches(s: Pools, j: nat)
    requires Whole(s) && Reachable(s) && j < |s.closers|
    requires s.closers[j].saw && s.closers[j].todo != [] && s.queues[s.closers[j].todo[0]].items == []
    ensures Reachable(CloseGoStep(s, j)) <==> !Strands(s, CloseGo(j))
  {
    var r, todo := CloseGoStep(s, j), s.closers[j].todo;
    forall q ensures Due(r, q) <==> DueElsewhere(s, j, q) { StillDue(s, r, j, q); }
    if !Reachable(r) {
      var q :| 0 <= q < |r.queues| && r.queues[q].items != [] && q !in r.registered.Values && !Due(r, q);
      assert Due(s, q) && q in todo;
      var n :| 0 <= n < |todo| && todo[n] == q;
      assert Abandoned(s, j, todo[n]);
    }
  }

  lemma StillDue(s: Pools, r: Pools, j: nat, q: nat)
    requires j < |s.closers| && r.closers == s.closers[j := Closer([], false)]
    ensures Due(r, q) <==> DueElsewhere(s, j, q)
  {
    if DueElsewhere(s, j, q) {
      var k :| 0 <= k < |s.closers| && k != j && q in s.closers[k].todo;
      assert r.closers[k] == s.closers[k];
    }
  }

  lemma GoingOnReaches(s: Pools, j: nat)
    requires Whole(s) && Reachable(s) && j < |s.closers|
    requires !(s.closers[j].todo != [] && s.closers[j].saw && s.queues[s.closers[j].todo[0]].items == [])
    ensures Reachable(CloseGoStep(s, j))
  {
    var r, todo := CloseGoStep(s, j), s.closers[j].todo;
    if todo != [] {
      assert todo == [todo[0]] + todo[1..];
      forall q | 0 <= q < |r.queues| && r.queues[q].items != [] && Due(s, q) ensures Due(r, q) {
        var k :| 0 <= k < |s.closers| && q in s.closers[k].todo;
        assert q in r.closers[k].todo;
      }
    }
  }

  /** One event: every idle connection can still be reached, if and only if none strands. */
  lemma StepReaches(s: Pools, e: Event)
    requires Whole(s) && Reachable(s)
    ensures Reachable(Step(s, e)) <==> !Strands(s, e)
  {
    if Able(s, e) {
      match e
      case Begin(key, isolation, cap) => BeginReaches(s, key, isolation, cap);
      case Go(i, luck) => GoReaches(s, i, luck);
      case CloseIdle => CloseStaysReachable(s);
      case CloseGo(j) => CloseGoReaches(s, j);
    }
  }

  ghost predicate AlwaysReachable(es: seq<Event>)
    decreases |es|
  {
    Reachable(Exec(es)) && (es == [] || AlwaysReachable(es[..|es| - 1]))
  }

  ghost predicate NoneStrands(es: seq<Event>)
    decreases |es|
  {
    es == [] || (NoneStrands(es[..|es| - 1]) && !Strands(Exec(es[..|es| - 1]), es[|es| - 1]))
  }

  /** At every moment each idle connection is in a registered queue or one that a closer still
      empties, if and only if no event strands one. */
  lemma {:induction false} ReachableExactly(es: seq<Event>)
    ensures AlwaysReachable(es) <==> NoneStrands(es)
    ensures NoneStrands(es) ==> Reachable(Exec(es))
    decreases |es|
  {
    if es != [] {
      var front := es[..|es| - 1];
      ReachableExactly(front);
      if NoneStrands(front) { StepReaches(Exec(front), es[|es| - 1]); }
    }
  }

  /** Once the closers have ended, to be reachable is not to stray; so where no event strands one,
      the next `close_idle` finds every idle connection. */
  lemma NoneStrandsNoneStrays(es: seq<Event>)
    requires Finished(Exec(es))
    ensures Stray(Exec(es)) <==> !Reachable(Exec(es))
    ensures NoneStrands(es) ==> !Stray(Exec(es))
  {
    ReachableExactly(es);
    var s := Exec(es);
    forall q ensures !Due(s, q) { }
  }

  /** No connection is open but the lost ones. */
  ghost predicate NoneOpen(s: Pools) {
    forall c: Conn :: c < |s.sessions| ==> c in s.closed || c in s.lost
  }

  /** When a `close_idle` has ended, nothing was registered since and no checkout is outstanding,
      none is open if and only if none strays. */
  lemma NoneOpenExactly(es: seq<Event>)
    requires Finished(Exec(es)) && Exec(es).registered == map[] && !Outstanding(Exec(es))
    ensures NoneOpen(Exec(es)) <==> !Stray(Exec(es))
  {
    var home := ExecAgrees(es);
    var s := Exec(es);
    if Stray(s) {
      var q :| 0 <= q < |s.queues| && q !in s.registered.Values && s.queues[q].items != [];
      assert home[s.queues[q].items[0]] == Idle(q);
    } else {
      forall c: Conn | c < |s.sessions| ensures c in s.closed || c in s.lost { assert Found(s, c, home[c]); }
    }
  }

  lemma ApartStrandsNone(s: Pools, e: Event)
    requires Whole(s) && Apart(s)
    ensures !Strands(s, e)
  {
  }

  /** A `close_idle` that comes with no checkout outstanding strands none. */
  lemma {:induction false} QuietClosesStrandNone(es: seq<Event>)
    requires QuietCloses(es)
    ensures NoneStrands(es)
    decreases |es|
  {
    if es != [] {
      QuietClosesStrandNone(es[..|es| - 1]);
      QuietStaysApart(es[..|es| - 1]);
      ApartStrandsNone(Exec(es[..|es| - 1]), es[|es| - 1]);
    }
  }

  /** Where every `close_idle` comes with no checkout outstanding, nothing strays: once those that
      began have ended, each idle connection is in a registered queue, where the next one finds
      it. And when nothing was registered since and no checkout is outstanding, none is open but
      those that were lost. */
  lemma QuietClosesLeaveNone(es: seq<Event>)
    requires QuietCloses(es) && Finished(Exec(es))
    ensures !Stray(Exec(es))
    ensures Exec(es).registered == map[] && !Outstanding(Exec(es)) ==> NoneOpen(Exec(es))
  {
    QuietClosesStrandNone(es);
    NoneStrandsNoneStrays(es);
    if Exec(es).registered == map[] && !Outstanding(Exec(es)) { NoneOpenExactly(es); }
  }
}
