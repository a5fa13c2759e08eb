/** `persistent_home.py`: what a run left in its HOME goes back to the `state/` of its agent view. */
module PersistentHome {
  import opened Wrappers
  import opened TopoOrder
  import opened Sorting

  // ----- trees --------------------------------------------------------------------------------

  newtype Byte = b: int | 0 <= b < 256

  /** A path relative to the root of its tree, one name a component. */
  type Path = seq<Name>

  datatype Entry = File(bytes: seq<Byte>, mtime: int) | Dir | Link

  /** What lies below one directory. Nothing lies below a link: what a link names is elsewhere. */
  type Tree = map<Path, Entry>

  predicate HasFile(t: Tree, p: Path) {
    p in t && t[p].File?
  }

  predicate HasDir(t: Tree, p: Path) {
    p in t && t[p].Dir?
  }

  predicate Under(top: Path, p: Path) {
    |top| <= |p| && p[..|top|] == top
  }

  /** Everything in a tree lies in a directory. */
  ghost predicate Sound(t: Tree) {
    forall p, k :: p in t && 0 < k < |p| ==> HasDir(t, p[..k])
  }

  /** A `state/` directory: no links, and no entry for the directory itself. */
  ghost predicate SoundState(t: Tree) {
    Sound(t) && [] !in t && forall p :: p in t ==> !t[p].Link?
  }

  function NameOf(p: Path): Name
    requires p != []
  {
    p[|p| - 1]
  }

  predicate ChildOf(d: Path, p: Path) {
    |p| == |d| + 1 && p[..|d|] == d
  }

  predicate Occupied(t: Tree, d: Path) {
    HasDir(t, d) && exists c | c in t :: ChildOf(d, c)
  }

  /** A component that leads out of the tree: `..`, or a root. */
  predicate Outward(n: Name) {
    n.text == ".." || n.text == "/"
  }

  predicate Inside(p: Path) {
    forall k :: 0 <= k < |p| ==> !Outward(p[k])
  }

  /** A persistent path that leads out of the tree holds nothing. */
  predicate UnderAny(paths: seq<Path>, p: Path) {
    exists i :: 0 <= i < |paths| && Inside(paths[i]) && Under(paths[i], p)
  }

  /** A regular file under one of the persistent paths. */
  predicate Held(t: Tree, paths: seq<Path>, p: Path) {
    HasFile(t, p) && UnderAny(paths, p)
  }

  /** No persistent path is empty, repeated or inside another. */
  ghost predicate Apart(paths: seq<Path>) {
    (forall i :: 0 <= i < |paths| ==> paths[i] != []) &&
    forall i, j :: 0 <= i < |paths| && 0 <= j < |paths| && i != j ==> !Under(paths[i], paths[j])
  }

  lemma UnderBoth(a: Path, b: Path, p: Path)
    requires Under(a, p) && Under(b, p)
    ensures Under(a, b) || Under(b, a)
  {
    if |a| <= |b| {
      assert b[..|a|] == p[..|b|][..|a|] == p[..|a|];
    } else {
      assert a[..|b|] == p[..|a|][..|b|] == p[..|b|];
    }
  }

  lemma UnderTrans(a: Path, b: Path, c: Path)
    requires Under(a, b) && Under(b, c)
    ensures Under(a, c)
  {
    assert c[..|a|] == c[..|b|][..|a|];
  }

  // ----- walking ------------------------------------------------------------------------------

  /** Where a walk that still has `todo` to enter can get. */
  ghost function Reach(t: Tree, todo: set<Path>): set<Path> {
    set p, d | p in t && d in todo && Under(d, p) :: p
  }

  ghost predicate Frontier(t: Tree, todo: set<Path>) {
    (forall d :: d in todo ==> HasDir(t, d)) &&
    forall d, e :: d in todo && e in todo && d != e ==> !Under(d, e)
  }

  /** Entering `d` leaves what its sub-directories reach. */
  lemma Enter(t: Tree, todo: set<Path>, d: Path, subs: set<Path>)
    requires Sound(t) && Frontier(t, todo) && d in todo
    requires subs == set c | c in t && ChildOf(d, c) && t[c].Dir?
    ensures Frontier(t, todo - {d} + subs)
    ensures Reach(t, todo - {d} + subs) <= Reach(t, todo) - {d} && d in Reach(t, todo)
    ensures forall p :: p in Reach(t, todo) && t[p].File? ==>
              (ChildOf(d, p) && p !in Reach(t, todo - {d} + subs)) ||
              (!ChildOf(d, p) && p in Reach(t, todo - {d} + subs))
  {
    var rest := todo - {d} + subs;
    assert Under(d, d);
    forall e, f | e in rest && f in rest && e != f ensures !Under(e, f) {
      SubsApart(t, todo, d, subs, e, f);
    }
    forall p | p in Reach(t, rest) ensures p in Reach(t, todo) - {d} {
      var e :| e in rest && Under(e, p);
      if e in subs {
        UnderTrans(d, e, p);
      } else {
        assert !Under(e, d) && p in Reach(t, todo);
      }
    }
    forall p | p in Reach(t, todo) && t[p].File?
      ensures (ChildOf(d, p) && p !in Reach(t, rest)) || (!ChildOf(d, p) && p in Reach(t, rest))
    {
      var e :| e in todo && Under(e, p);
      if ChildOf(d, p) {
        forall f | f in rest ensures !Under(f, p) { ChildNotReached(t, todo, d, subs, p, f); }
      } else if e == d {
        assert p != d;
        assert HasDir(t, p[..|d| + 1]);
        assert ChildOf(d, p[..|d| + 1]) by { assert p[..|d| + 1][..|d|] == p[..|d|]; }
        assert Under(p[..|d| + 1], p) && p[..|d| + 1] in rest;
      }
    }
  }

  lemma SubsApart(t: Tree, todo: set<Path>, d: Path, subs: set<Path>, e: Path, f: Path)
    requires Frontier(t, todo) && d in todo
    requires subs == set c | c in t && ChildOf(d, c) && t[c].Dir?
    requires e in todo - {d} + subs && f in todo - {d} + subs && e != f
    ensures !Under(e, f)
  {
    if Under(e, f) {
      if e in subs {
        UnderTrans(d, e, f);
      } else if f in subs {
        UnderBoth(e, d, f);
      }
    }
  }

  lemma ChildNotReached(t: Tree, todo: set<Path>, d: Path, subs: set<Path>, p: Path, f: Path)
    requires Frontier(t, todo) && d in todo && HasFile(t, p) && ChildOf(d, p)
    requires subs == set c | c in t && ChildOf(d, c) && t[c].Dir?
    requires f in todo - {d} + subs
    ensures !Under(f, p)
  {
    if Under(f, p) {
      if f !in subs { UnderBoth(f, d, p); }
    }
  }

  /** `_no_link_path`: `rel` when no component of it leads out, and none, the last included, is
      a link. */
  method NoLinkPath(t: Tree, rel: Path) returns (r: Option<Path>)
    ensures r == None <==> !Inside(rel) || exists k :: 0 < k <= |rel| && rel[..k] in t && t[rel[..k]].Link?
    ensures r.Some? ==> r.value == rel
  {
    var k := 0;
    while k < |rel|
      invariant k <= |rel| && forall j :: 0 < j <= k ==> !(rel[..j] in t && t[rel[..j]].Link?)
      invariant forall j :: 0 <= j < k ==> !Outward(rel[j])
    {
      if Outward(rel[k]) { return None; }
      k := k + 1;
      if rel[..k] in t && t[rel[..k]].Link? { return None; }
    }
    r := Some(rel);
  }

  /** The regular files of one directory. */
  method FilesIn(t: Tree, d: Path) returns (files: seq<Path>)
    ensures Distinct(files)
    ensures forall p :: p in files <==> HasFile(t, p) && ChildOf(d, p)
  {
    files := [];
    var todo := set p | p in t && ChildOf(d, p) && t[p].File?;
    while todo != {}
      invariant Distinct(files)
      invariant forall p :: (HasFile(t, p) && ChildOf(d, p)) <==> (p in files || p in todo)
      invariant forall p :: p in todo ==> p !in files
    {
      var p :| p in todo;
      todo := todo - {p};
      files := files + [p];
    }
  }

  lemma DistinctConcat<T>(a: seq<T>, b: seq<T>)
    requires Distinct(a) && Distinct(b) && forall x :: x in a ==> x !in b
    ensures Distinct(a + b)
  {
    forall i, j | 0 <= i < j < |a + b| ensures (a + b)[i] != (a + b)[j] {
      assert i < |a| ==> (a + b)[i] in a;
      assert j >= |a| ==> (a + b)[j] in b;
    }
  }

  lemma OnlyItself(t: Tree, rel: Path)
    requires Sound(t) && rel != [] && HasFile(t, rel)
    ensures forall p :: HasFile(t, p) && Under(rel, p) ==> p == rel
  {
    forall p | HasFile(t, p) && |rel| < |p| ensures !Under(rel, p) {
      assert HasDir(t, p[..|rel|]);
    }
  }

  lemma NothingBelow(t: Tree, rel: Path)
    requires Sound(t) && rel != [] && !HasFile(t, rel) && !HasDir(t, rel)
    ensures forall p :: HasFile(t, p) ==> !Under(rel, p)
  {
    forall p | HasFile(t, p) && |rel| < |p| ensures !Under(rel, p) {
      assert HasDir(t, p[..|rel|]);
    }
    assert forall p :: |p| == |rel| && Under(rel, p) ==> p == rel;
  }

  lemma LinkOnTheWay(t: Tree, rel: Path, k: nat)
    requires Sound(t) && 0 < k <= |rel| && rel[..k] in t && t[rel[..k]].Link?
    ensures !HasFile(t, rel) && !HasDir(t, rel)
  {
    assert rel[..|rel|] == rel;
  }

  /** `_real_files`: what a walk from `rel` finds when it follows no link. */
  method RealFiles(t: Tree, rel: Path) returns (files: seq<Path>)
    requires Sound(t) && rel != []
    ensures Distinct(files)
    ensures forall p :: p in files <==> Inside(rel) && HasFile(t, p) && Under(rel, p)
  {
    files := [];
    var top := NoLinkPath(t, rel);
    if top.None? && Inside(rel) {
      var k :| 0 < k <= |rel| && rel[..k] in t && t[rel[..k]].Link?;
      LinkOnTheWay(t, rel, k);
    }
    if top.None? || !(HasFile(t, rel) || HasDir(t, rel)) {
      if Inside(rel) { NothingBelow(t, rel); }
      return;
    }
    if HasFile(t, rel) {
      OnlyItself(t, rel);
      files := [rel];
      return;
    }
    files := Walk(t, rel);
  }

  /** `os.walk` without links. */
  method Walk(t: Tree, top: Path) returns (files: seq<Path>)
    requires Sound(t) && HasDir(t, top)
    ensures Distinct(files)
    ensures forall p :: p in files <==> HasFile(t, p) && Under(top, p)
  {
    files := [];
    var todo := {top};
    while todo != {}
      invariant Frontier(t, todo) && Distinct(files)
      invariant forall p :: p in files ==> HasFile(t, p) && p !in Reach(t, todo)
      invariant forall p :: (HasFile(t, p) && Under(top, p)) <==> (p in files || (HasFile(t, p) && p in Reach(t, todo)))
      decreases Reach(t, todo)
    {
      var d :| d in todo;
      var subs := set c | c in t && ChildOf(d, c) && t[c].Dir?;
      Enter(t, todo, d, subs);
      var here := FilesIn(t, d);
      forall p | p in here ensures p in Reach(t, todo) { assert Under(d, p); }
      DistinctConcat(files, here);
      files := files + here;
      todo := todo - {d} + subs;
    }
  }

  /** Every regular file under the persistent paths, path by path. */
  method PersistentFiles(t: Tree, paths: seq<Path>) returns (files: seq<Path>)
    requires Sound(t) && forall i :: 0 <= i < |paths| ==> paths[i] != []
    ensures forall p :: p in files <==> Held(t, paths, p)
    ensures Apart(paths) ==> Distinct(files)
  {
    files := [];
    for i := 0 to |paths|
      invariant forall p :: p in files <==>
                  HasFile(t, p) && exists j :: 0 <= j < i && Inside(paths[j]) && Under(paths[j], p)
      invariant Apart(paths) ==> Distinct(files)
    {
      var more := RealFiles(t, paths[i]);
      if Apart(paths) {
        forall p | p in files ensures p !in more {
          var j :| 0 <= j < i && Under(paths[j], p);
          if Under(paths[i], p) { UnderBoth(paths[i], paths[j], p); }
        }
        DistinctConcat(files, more);
      }
      files := files + more;
    }
  }

  // ----- the name index -----------------------------------------------------------------------

  type Index = map<Name, seq<Path>>

  /** `index.get(name, ())`. */
  function Known(index: Index, n: Name): seq<Path> {
    if n in index then index[n] else []
  }

  /** `index.setdefault(name, []).append(path)`. */
  function Learn(index: Index, p: Path): Index
    requires p != []
  {
    index[NameOf(p) := Known(index, NameOf(p)) + [p]]
  }

  ghost predicate Lists(index: Index, t: Tree, paths: seq<Path>, n: Name) {
    Distinct(Known(index, n)) &&
    forall p :: p in Known(index, n) <==> p != [] && Held(t, paths, p) && NameOf(p) == n
  }

  /** The index says what a fresh scan would: each name has its files, each once. */
  ghost predicate Coherent(index: Index, t: Tree, paths: seq<Path>) {
    forall n :: Lists(index, t, paths, n)
  }

  /** Two indexes that a scan could give hold the same lists, up to the order of the walk. */
  lemma CoherentIsOne(a: Index, b: Index, t: Tree, paths: seq<Path>, n: Name)
    requires Coherent(a, t, paths) && Coherent(b, t, paths)
    ensures multiset(Known(a, n)) == multiset(Known(b, n))
  {
    assert Lists(a, t, paths, n) && Lists(b, t, paths, n);
    forall p ensures multiset(Known(a, n))[p] == multiset(Known(b, n))[p] {
      Once(Known(a, n), p);
      Once(Known(b, n), p);
      assert p in multiset(Known(a, n)) <==> p in Known(a, n);
      assert p in multiset(Known(b, n)) <==> p in Known(b, n);
    }
  }

  lemma HeldIsNamed(t: Tree, paths: seq<Path>, p: Path)
    requires Apart(paths) && UnderAny(paths, p)
    ensures p != []
  {
  }

  /** `state_name_index`. */
  method StateNameIndex(t: Tree, paths: seq<Path>) returns (index: Index)
    requires SoundState(t) && Apart(paths)
    ensures Coherent(index, t, paths)
  {
    index := map[];
    var files := PersistentFiles(t, paths);
    for i := 0 to |files|
      invariant forall n :: Names(index, files[..i], n)
    {
      assert files[i] in files;
      HeldIsNamed(t, paths, files[i]);
      assert files[..i + 1] == files[..i] + [files[i]];
      LearnNames(index, files[..i], files[i], Learn(index, files[i]), files[..i + 1]);
      index := Learn(index, files[i]);
    }
    assert files[..|files|] == files;
    forall n ensures Lists(index, t, paths, n) { assert Names(index, files, n); }
  }

  ghost predicate Names(index: Index, files: seq<Path>, n: Name) {
    Distinct(Known(index, n)) &&
    forall p :: p in Known(index, n) <==> p != [] && p in files && NameOf(p) == n
  }

  lemma LearnNames(index: Index, seen: seq<Path>, p: Path, now: Index, all: seq<Path>)
    requires p != [] && p !in seen && now == Learn(index, p) && all == seen + [p]
    requires forall n :: Names(index, seen, n)
    ensures forall n :: Names(now, all, n)
  {
    forall n ensures Names(now, all, n) {
      assert Names(index, seen, n);
    }
  }

  // ----- one file -----------------------------------------------------------------------------

  /** Where the file system gives way while one file is copied, if it does. */
  datatype Fault = Fine | AtRead | AtRmdir | AtParent(depth: nat) | AtWrite

  datatype Copy = Done | Taken | Broken

  /** A file stands where a directory of the path should be. */
  ghost predicate Blocked(t: Tree, p: Path) {
    exists k :: 0 < k < |p| && HasFile(t, p[..k])
  }

  /** Nothing but `dst` and missing directories changed. */
  ghost predicate OthersStay(a: Tree, b: Tree, dst: Path) {
    (forall p :: p in a && p != dst ==> p in b && b[p] == a[p]) &&
    (forall p :: HasFile(b, p) && p != dst ==> HasFile(a, p))
  }

  /** `_copy_if_newer`, by its result. */
  ghost predicate Copied(a: Tree, src: Entry, dst: Path, b: Tree, r: Copy)
    requires src.File?
  {
    OthersStay(a, b, dst) &&
    match r
    case Done =>
      !Occupied(a, dst) && HasFile(b, dst) &&
      b[dst] == if HasFile(a, dst) && a[dst].mtime >= src.mtime then a[dst] else src
    case Taken => b == a && Occupied(a, dst)
    case Broken =>
      !Occupied(a, dst) && (HasFile(a, dst) <==> HasFile(b, dst)) && (HasFile(a, dst) ==> b[dst] == a[dst])
  }

  method MakeParents(t0: Tree, dst: Path, fault: Fault) returns (t: Tree, ok: bool)
    requires SoundState(t0) && dst != []
    ensures SoundState(t)
    ensures forall p :: p in t0 ==> p in t && t[p] == t0[p]
    ensures forall p :: p in t && p !in t0 ==> t[p].Dir? && |p| < |dst|
    ensures ok ==> forall k :: 0 < k < |dst| ==> HasDir(t, dst[..k])
    ensures !ok ==> fault.AtParent? || Blocked(t0, dst)
  {
    t := t0;
    for i := 1 to |dst|
      invariant SoundState(t)
      invariant forall p :: p in t0 ==> p in t && t[p] == t0[p]
      invariant forall p :: p in t && p !in t0 ==> t[p].Dir? && |p| < |dst|
      invariant forall k :: 0 < k < i ==> HasDir(t, dst[..k])
    {
      var p := dst[..i];
      if p in t {
        if t[p].File? { return t, false; }
      } else if fault == AtParent(i) {
        return t, false;
      } else {
        forall k | 0 < k < |p| ensures HasDir(t, p[..k]) { assert p[..k] == dst[..k]; }
        t := t[p := Dir];
      }
    }
    ok := true;
  }

  lemma ChildOnTheWay(t: Tree, p: Path, k: nat)
    requires Sound(t) && p in t && 0 < k < |p|
    ensures Occupied(t, p[..k])
  {
    var c := p[..k + 1];
    assert k + 1 == |p| ==> c == p;
    assert c[..k] == p[..k];
    assert HasDir(t, p[..k]) && c in t && ChildOf(p[..k], c);
  }

  lemma RemoveEmpty(t: Tree, d: Path)
    requires SoundState(t) && HasDir(t, d) && !Occupied(t, d)
    ensures SoundState(t - {d})
  {
    forall p, k | p in t && p != d && 0 < k < |p| ensures HasDir(t - {d}, p[..k]) {
      ChildOnTheWay(t, p, k);
    }
  }

  /** `_copy_if_newer`: an older file or an empty directory is replaced, a newer file kept. */
  method CopyIfNewer(a: Tree, src: Entry, dst: Path, fault: Fault) returns (b: Tree, r: Copy)
    requires SoundState(a) && src.File? && dst != []
    ensures SoundState(b) && Copied(a, src, dst, b, r)
    ensures r == Broken ==> fault != Fine || Blocked(a, dst)
  {
    b := a;
    if HasDir(a, dst) {
      if exists c | c in a :: ChildOf(dst, c) { return a, Taken; }
      if fault == AtRmdir { return a, Broken; }
      RemoveEmpty(a, dst);
      b := a - {dst};
    } else if fault == AtRead {
      return a, Broken;
    } else if dst in a && a[dst].mtime >= src.mtime {
      return a, Done;
    }
    var ok;
    b, ok := MakeParents(b, dst, fault);
    if !ok || fault == AtWrite { return b, Broken; }
    b := b[dst := src];
    r := Done;
  }

  // ----- relocations --------------------------------------------------------------------------

  /** A session file that the run holds at `here` and `state/` holds at `there`. */
  datatype Move = Move(here: Path, there: Path)

  /** `dict[here] = there`. */
  function Put(moves: seq<Move>, m: Move): seq<Move> {
    if moves == [] then [m]
    else if moves[0].here == m.here then [m] + moves[1..]
    else [moves[0]] + Put(moves[1..], m)
  }

  function LastDot(s: string): (i: int)
    ensures -1 <= i < |s|
    ensures i >= 0 ==> s[i] == '.'
    ensures forall j :: i < j < |s| ==> s[j] != '.'
  {
    if s == "" then -1 else if s[|s| - 1] == '.' then |s| - 1 else LastDot(s[..|s| - 1])
  }

  /** `Path.stem`: the name without its last suffix; a leading or closing dot makes none. */
  function Stem(n: Name): Name {
    var i := LastDot(n.text);
    if 0 < i < |n.text| - 1 then Name(n.text[..i]) else n
  }

  /** The stem is the name up to a dot that has a name before it and a suffix without dots behind
      it; a name of no such form is its own stem. */
  lemma StemExactly(n: Name, front: string, suffix: string)
    ensures front != "" && suffix != "" && '.' !in suffix && n.text == front + "." + suffix ==> Stem(n).text == front
    ensures Stem(n) != n ==>
              exists k :: 0 < k < |n.text| - 1 && n.text[k] == '.' && '.' !in n.text[k + 1..] &&
                Stem(n).text == n.text[..k]
  {
    var i := LastDot(n.text);
    if suffix != "" && '.' !in suffix && n.text == front + "." + suffix {
      assert n.text[|front|] == '.';
      forall j | |front| < j < |n.text| ensures n.text[j] != '.' { assert n.text[j] == suffix[j - |front| - 1]; }
    }
  }

  /** The sibling directory of a session file. */
  function SideOf(p: Path): Path {
    if p == [] then [] else p[..|p| - 1] + [Stem(NameOf(p))]
  }

  function Sidecars(relocate: seq<Move>): seq<Move>
    decreases |relocate|
  {
    if relocate == [] then []
    else
      var m := relocate[|relocate| - 1];
      Put(Sidecars(relocate[..|relocate| - 1]), Move(SideOf(m.here), SideOf(m.there)))
  }

  function Exact(relocate: seq<Move>, rel: Path): Option<Path> {
    if relocate == [] then None
    else if relocate[0].here == rel then Some(relocate[0].there)
    else Exact(relocate[1..], rel)
  }

  function InSide(sides: seq<Move>, rel: Path): Path {
    if sides == [] then rel
    else if Under(sides[0].here, rel) then sides[0].there + rel[|sides[0].here|..]
    else InSide(sides[1..], rel)
  }

  /** `_relocation_targets(relocate)(rel)`. */
  function TargetOf(relocate: seq<Move>, rel: Path): Path {
    var exact := Exact(relocate, rel);
    if exact.Some? then exact.value else InSide(Sidecars(relocate), rel)
  }

  ghost predicate HasKey(moves: seq<Move>, here: Path) {
    exists i :: 0 <= i < |moves| && moves[i].here == here
  }

  lemma KeyOfCons(first: Move, rest: seq<Move>, h: Path)
    ensures HasKey([first] + rest, h) <==> first.here == h || HasKey(rest, h)
  {
    if HasKey(rest, h) {
      var i :| 0 <= i < |rest| && rest[i].here == h;
      assert ([first] + rest)[i + 1] == rest[i];
    }
    assert ([first] + rest)[0] == first;
  }

  lemma {:induction false} PutHas(moves: seq<Move>, m: Move)
    ensures forall x :: x in Put(moves, m) ==> x == m || x in moves
    ensures m in Put(moves, m) && forall x :: x in moves && x.here != m.here ==> x in Put(moves, m)
  {
    if moves != [] {
      assert moves == [moves[0]] + moves[1..];
      if moves[0].here != m.here { PutHas(moves[1..], m); }
    }
  }

  /** No file of the run is moved twice. */
  ghost predicate OneMoveEach(moves: seq<Move>) {
    forall i, j :: 0 <= i < j < |moves| ==> moves[i].here != moves[j].here
  }

  lemma {:induction false} PutKeepsOneEach(moves: seq<Move>, m: Move)
    requires OneMoveEach(moves)
    ensures OneMoveEach(Put(moves, m))
  {
    if moves != [] && moves[0].here != m.here {
      var rest := Put(moves[1..], m);
      PutKeepsOneEach(moves[1..], m);
      PutHas(moves[1..], m);
      forall j | 0 <= j < |rest| ensures moves[0].here != rest[j].here {
        assert rest[j] in rest;
        if rest[j] != m {
          var k :| 0 <= k < |moves[1..]| && moves[1..][k] == rest[j];
          assert moves[k + 1] == rest[j];
        }
      }
    }
  }

  ghost predicate ByFile(relocate: seq<Move>, rel: Path, to: Path) {
    exists i :: 0 <= i < |relocate| && relocate[i] == Move(rel, to)
  }

  lemma {:induction false} ExactMeans(relocate: seq<Move>, rel: Path)
    ensures Exact(relocate, rel).Some? ==> ByFile(relocate, rel, Exact(relocate, rel).value)
    ensures Exact(relocate, rel).Some? <==> HasKey(relocate, rel)
  {
    if relocate != [] {
      ExactMeans(relocate[1..], rel);
      assert relocate == [relocate[0]] + relocate[1..];
      KeyOfCons(relocate[0], relocate[1..], rel);
      if relocate[0].here != rel && Exact(relocate, rel).Some? {
        var to := Exact(relocate, rel).value;
        var i :| 0 <= i < |relocate[1..]| && relocate[1..][i] == Move(rel, to);
        assert relocate[i + 1] == Move(rel, to);
      }
    }
  }

  /** The first sibling directory of the list that holds `rel`. */
  function Holder(sides: seq<Move>, rel: Path): (here: Option<Path>)
    ensures here.Some? ==> Under(here.value, rel)
  {
    if sides == [] then None
    else if Under(sides[0].here, rel) then Some(sides[0].here)
    else Holder(sides[1..], rel)
  }

  lemma {:induction false} PutInSide(sides: seq<Move>, m: Move, rel: Path)
    ensures Holder(sides, rel).None? ==> InSide(sides, rel) == rel
    ensures Holder(Put(sides, m), rel)
         == if Holder(sides, rel).None? && Under(m.here, rel) then Some(m.here) else Holder(sides, rel)
    ensures InSide(Put(sides, m), rel)
         == if Holder(Put(sides, m), rel) == Some(m.here) then m.there + rel[|m.here|..] else InSide(sides, rel)
  {
    if sides != [] { PutInSide(sides[1..], m, rel); }
  }

  function SideKey(relocate: seq<Move>, i: nat): Path
    requires i < |relocate|
  {
    SideOf(relocate[i].here)
  }

  ghost predicate InNoSide(relocate: seq<Move>, rel: Path) {
    forall i :: 0 <= i < |relocate| ==> !Under(SideKey(relocate, i), rel)
  }

  /** Of the sibling directories that hold `rel` the first listed counts, and of the relocations
      that have it the last. */
  ghost predicate Decides(relocate: seq<Move>, rel: Path, i: int, j: int) {
    0 <= i <= j < |relocate| && Under(SideKey(relocate, i), rel) &&
    (forall k :: 0 <= k < i ==> !Under(SideKey(relocate, k), rel)) &&
    SideKey(relocate, j) == SideKey(relocate, i) &&
    (forall k :: j < k < |relocate| ==> SideKey(relocate, k) != SideKey(relocate, i))
  }

  ghost predicate BySide(relocate: seq<Move>, rel: Path, to: Path) {
    exists i, j :: Decides(relocate, rel, i, j) && to == SideOf(relocate[j].there) + rel[|SideKey(relocate, j)|..]
  }

  /** A moved session goes to its place in `state/`; what lies in its sibling directory goes
      into the sibling directory there, at the same place; every other file stays. */
  lemma TargetMeans(relocate: seq<Move>, rel: Path)
    ensures HasKey(relocate, rel) ==> ByFile(relocate, rel, TargetOf(relocate, rel))
    ensures !HasKey(relocate, rel) && !InNoSide(relocate, rel) ==> BySide(relocate, rel, TargetOf(relocate, rel))
    ensures !HasKey(relocate, rel) && InNoSide(relocate, rel) ==> TargetOf(relocate, rel) == rel
  {
    ExactMeans(relocate, rel);
    SideTarget(relocate, rel);
  }

  /** What `InSide` gives where `i` and `j` decide. */
  ghost predicate Settles(sides: seq<Move>, relocate: seq<Move>, rel: Path, i: int, j: int) {
    Decides(relocate, rel, i, j) && Holder(sides, rel) == Some(SideKey(relocate, i)) &&
    InSide(sides, rel) == SideOf(relocate[j].there) + rel[|SideKey(relocate, j)|..]
  }

  lemma {:induction false} SideTarget(relocate: seq<Move>, rel: Path)
    ensures InNoSide(relocate, rel) ==>
              Holder(Sidecars(relocate), rel) == None && InSide(Sidecars(relocate), rel) == rel
    ensures !InNoSide(relocate, rel) ==> exists i, j :: Settles(Sidecars(relocate), relocate, rel, i, j)
    decreases |relocate|
  {
    if relocate != [] {
      var n := |relocate| - 1;
      SideTarget(relocate[..n], rel);
      var sides, side := Sidecars(relocate[..n]), Move(SideKey(relocate, n), SideOf(relocate[n].there));
      PutInSide(sides, side, rel);
      assert Sidecars(relocate) == Put(sides, side);
      if InNoSide(relocate[..n], rel) {
        FirstSide(relocate, rel, sides, side);
      } else {
        var i, j :| Settles(sides, relocate[..n], rel, i, j);
        LaterSide(relocate, rel, sides, side, i, j);
      }
    }
  }

  lemma FirstSide(relocate: seq<Move>, rel: Path, sides: seq<Move>, side: Move)
    requires relocate != [] && side == Move(SideKey(relocate, |relocate| - 1), SideOf(relocate[|relocate| - 1].there))
    requires InNoSide(relocate[..|relocate| - 1], rel) && Holder(sides, rel) == None && InSide(sides, rel) == rel
    requires Holder(Put(sides, side), rel) == if Under(side.here, rel) then Some(side.here) else None
    requires InSide(Put(sides, side), rel) == if Under(side.here, rel) then side.there + rel[|side.here|..] else rel
    ensures InNoSide(relocate, rel) <==> !Under(side.here, rel)
    ensures !InNoSide(relocate, rel) ==> Settles(Put(sides, side), relocate, rel, |relocate| - 1, |relocate| - 1)
  {
    var front := relocate[..|relocate| - 1];
    assert forall k :: 0 <= k < |front| ==> SideKey(relocate, k) == SideKey(front, k);
  }

  lemma LaterSide(relocate: seq<Move>, rel: Path, sides: seq<Move>, side: Move, i: int, j: int)
    requires relocate != [] && side == Move(SideKey(relocate, |relocate| - 1), SideOf(relocate[|relocate| - 1].there))
    requires Settles(sides, relocate[..|relocate| - 1], rel, i, j)
    requires Holder(Put(sides, side), rel) == Holder(sides, rel)
    requires InSide(Put(sides, side), rel)
          == if Holder(sides, rel) == Some(side.here) then side.there + rel[|side.here|..] else InSide(sides, rel)
    ensures !InNoSide(relocate, rel)
    ensures Settles(Put(sides, side), relocate, rel, i, if side.here == SideKey(relocate, i) then |relocate| - 1 else j)
  {
    var front := relocate[..|relocate| - 1];
    assert forall k :: 0 <= k < |front| ==> SideKey(relocate, k) == SideKey(front, k);
  }

  /** What the adapter's `session_file` answered for one session, on both roots. */
  datatype Asked = Raised | Answered(here: Option<Path>, there: Option<Path>)

  ghost predicate RealMove(home: Tree, state: Tree, m: Move) {
    m.here != m.there && Inside(m.here) && Inside(m.there) && HasFile(home, m.here) && HasFile(state, m.there)
  }

  ghost predicate Moves(home: Tree, state: Tree, a: Asked) {
    a.Answered? && a.here.Some? && a.there.Some? && RealMove(home, state, Move(a.here.value, a.there.value))
  }

  /** Of the first `n` answers, the `k`th moves its file and no later one moves the same file. */
  ghost predicate LastWord(home: Tree, state: Tree, asked: seq<Asked>, n: int, k: int) {
    0 <= k < n <= |asked| && Moves(home, state, asked[k]) &&
    forall l :: k < l < n && Moves(home, state, asked[l]) ==> asked[l].here != asked[k].here
  }

  /** `session_relocations`, for the sessions asked about, each once. Of two answers for one file
      of the run the later one stands. */
  method SessionRelocations(home: Tree, state: Tree, asked: seq<Asked>) returns (moved: seq<Move>)
    requires Sound(home) && SoundState(state)
    ensures forall m :: m in moved ==> RealMove(home, state, m) && Answered(Some(m.here), Some(m.there)) in asked
    ensures OneMoveEach(moved)
    ensures forall k :: LastWord(home, state, asked, |asked|, k) ==>
              Move(asked[k].here.value, asked[k].there.value) in moved
  {
    moved := [];
    for i := 0 to |asked|
      invariant forall m :: m in moved ==> RealMove(home, state, m) && Answered(Some(m.here), Some(m.there)) in asked
      invariant OneMoveEach(moved)
      invariant forall k :: LastWord(home, state, asked, i, k) ==>
                  Move(asked[k].here.value, asked[k].there.value) in moved
    {
      var a := asked[i];
      assert forall k :: LastWord(home, state, asked, i + 1, k) && k < i ==> LastWord(home, state, asked, i, k);
      if a.Raised? || a.here.None? || a.there.None? || a.here == a.there { continue; }
      var here := NoLinkPath(home, a.here.value);
      var there := NoLinkPath(state, a.there.value);
      FileHasNoLink(home, a.here.value);
      FileHasNoLink(state, a.there.value);
      if here.Some? && there.Some? && HasFile(home, here.value) && HasFile(state, there.value) {
        PutHas(moved, Move(here.value, there.value));
        PutKeepsOneEach(moved, Move(here.value, there.value));
        moved := Put(moved, Move(here.value, there.value));
      }
    }
  }

  lemma FileHasNoLink(t: Tree, p: Path)
    requires Sound(t)
    ensures HasFile(t, p) ==> forall k :: 0 < k <= |p| ==> !(p[..k] in t && t[p[..k]].Link?)
  {
    assert p[..|p|] == p;
  }

  // ----- copy-back ----------------------------------------------------------------------------

  /** The run-HOME paths that could not be saved, or an `OSError` on the way. */
  datatype Save = Saved(conflicts: seq<Path>) | Broke

  function FaultAt(faults: map<Path, Fault>, p: Path): Fault {
    if p in faults then faults[p] else Fine
  }

  /** Every file of `a` is in `b`: as it was, or replaced by a newer one. */
  ghost predicate OnlyNewer(a: Tree, b: Tree) {
    forall p :: HasFile(a, p) ==> HasFile(b, p) && (b[p] == a[p] || b[p].mtime > a[p].mtime)
  }

  /** Every file of `a` is in `b` as it was. */
  ghost predicate Untouched(a: Tree, b: Tree) {
    forall p :: HasFile(a, p) ==> HasFile(b, p) && b[p] == a[p]
  }

  /** Every file of `b` was in `a` as it is, or is a file of the run. */
  ghost predicate Brought(home: Tree, a: Tree, b: Tree) {
    forall p :: HasFile(b, p) ==> (HasFile(a, p) && b[p] == a[p]) || FromRun(home, b[p])
  }

  ghost predicate FromRun(home: Tree, e: Entry) {
    exists q :: HasFile(home, q) && home[q] == e
  }

  ghost predicate NewEnough(home: Tree, b: Tree, src: Path, dst: Path) {
    HasFile(home, src) && HasFile(b, dst) && b[dst].mtime >= home[src].mtime
  }

  /** Where the file at `p` came from: it was there, or a file of the run was sent to `p`. */
  ghost predicate Sent(home: Tree, relocate: seq<Move>, files: seq<Path>, p: Path, e: Entry) {
    exists i :: 0 <= i < |files| && HasFile(home, files[i]) && TargetOf(relocate, files[i]) == p && home[files[i]] == e
  }

  ghost predicate Sources(home: Tree, a: Tree, b: Tree, relocate: seq<Move>, files: seq<Path>) {
    forall p :: HasFile(b, p) ==> (HasFile(a, p) && b[p] == a[p]) || Sent(home, relocate, files, p, b[p])
  }

  /** Every file is saved or a conflict, and a conflict stands at an occupied directory. */
  ghost predicate Accounted(home: Tree, b: Tree, relocate: seq<Move>, files: seq<Path>, conflicts: seq<Path>) {
    (forall p :: p in files && p !in conflicts ==> NewEnough(home, b, p, TargetOf(relocate, p))) &&
    (forall p :: p in conflicts ==> p in files && Occupied(b, TargetOf(relocate, p)))
  }

  lemma CopyIsNewer(a: Tree, src: Entry, dst: Path, b: Tree, r: Copy)
    requires src.File? && Copied(a, src, dst, b, r)
    ensures OnlyNewer(a, b)
    ensures r != Broken ==> forall d :: Occupied(a, d) ==> Occupied(b, d)
  {
    if r != Broken {
      forall d | Occupied(a, d) ensures Occupied(b, d) {
        var c :| c in a && ChildOf(d, c);
        assert c in b;
      }
    }
  }

  lemma CopyBrings(home: Tree, a0: Tree, a: Tree, src: Path, dst: Path, b: Tree, r: Copy)
    requires HasFile(home, src) && Copied(a, home[src], dst, b, r) && Brought(home, a0, a)
    ensures Brought(home, a0, b)
  {
    assert FromRun(home, home[src]);
  }

  lemma NewerTrans(a: Tree, b: Tree, c: Tree)
    requires OnlyNewer(a, b) && OnlyNewer(b, c)
    ensures OnlyNewer(a, c)
  {
  }

  lemma CopySources(home: Tree, a0: Tree, a: Tree, b: Tree, relocate: seq<Move>, seen: seq<Path>, src: Path, r: Copy)
    requires HasFile(home, src)
    requires Sources(home, a0, a, relocate, seen)
    requires Copied(a, home[src], TargetOf(relocate, src), b, r)
    ensures Sources(home, a0, b, relocate, seen + [src])
  {
    forall p | HasFile(b, p)
      ensures (HasFile(a0, p) && b[p] == a0[p]) || Sent(home, relocate, seen + [src], p, b[p])
    {
      if HasFile(a, p) && b[p] == a[p] {
        if i :| 0 <= i < |seen| && HasFile(home, seen[i]) && TargetOf(relocate, seen[i]) == p && home[seen[i]] == b[p] {
          assert (seen + [src])[i] == seen[i];
        }
      } else {
        assert (seen + [src])[|seen|] == src;
      }
    }
  }

  lemma CopyAccounts(home: Tree, a: Tree, b: Tree, relocate: seq<Move>, seen: seq<Path>, conflicts: seq<Path>,
                     src: Path, r: Copy)
    requires HasFile(home, src) && r != Broken
    requires Accounted(home, a, relocate, seen, conflicts)
    requires Copied(a, home[src], TargetOf(relocate, src), b, r)
    ensures Accounted(home, b, relocate, seen + [src], if r == Taken then conflicts + [src] else conflicts)
  {
    CopyIsNewer(a, home[src], TargetOf(relocate, src), b, r);
  }

  lemma TargetNamesAFile(relocate: seq<Move>, paths: seq<Path>, src: Path)
    requires forall i :: 0 <= i < |paths| ==> paths[i] != []
    requires UnderAny(paths, src) && forall m :: m in relocate ==> m.there != []
    ensures src != [] && TargetOf(relocate, src) != []
  {
    TargetMeans(relocate, src);
    assert forall i :: 0 <= i < |relocate| ==> relocate[i] in relocate;
  }

  /** Every file of `b` was in `a`, or is a persistent file of the run that was sent there. */
  ghost predicate Sourced(home: Tree, a: Tree, b: Tree, paths: seq<Path>, relocate: seq<Move>) {
    exists files :: Sources(home, a, b, relocate, files) && forall p :: p in files ==> Held(home, paths, p)
  }

  /** All persistent files of the run are saved or conflicts. */
  ghost predicate AllAccounted(home: Tree, b: Tree, paths: seq<Path>, relocate: seq<Move>, conflicts: seq<Path>) {
    exists files :: Accounted(home, b, relocate, files, conflicts) && forall p :: p in files <==> Held(home, paths, p)
  }

  /** A file of the run that the file system, or a file in the way, kept out. */
  ghost predicate KeptOut(home: Tree, b: Tree, paths: seq<Path>, relocate: seq<Move>, faults: map<Path, Fault>) {
    exists p :: Held(home, paths, p) && (FaultAt(faults, p) != Fine || Blocked(b, TargetOf(relocate, p)))
  }

  lemma SourcesAreSourced(home: Tree, a: Tree, b: Tree, paths: seq<Path>, relocate: seq<Move>, files: seq<Path>)
    requires Sources(home, a, b, relocate, files) && forall p :: p in files ==> Held(home, paths, p)
    ensures Sourced(home, a, b, paths, relocate)
  {
  }

  lemma AccountsAreAll(home: Tree, b: Tree, paths: seq<Path>, relocate: seq<Move>, files: seq<Path>,
                       conflicts: seq<Path>)
    requires Accounted(home, b, relocate, files, conflicts) && forall p :: p in files <==> Held(home, paths, p)
    ensures AllAccounted(home, b, paths, relocate, conflicts)
  {
  }

  lemma FaultKeepsOut(home: Tree, b: Tree, paths: seq<Path>, relocate: seq<Move>, faults: map<Path, Fault>, src: Path)
    requires Held(home, paths, src) && (FaultAt(faults, src) != Fine || Blocked(b, TargetOf(relocate, src)))
    ensures KeptOut(home, b, paths, relocate, faults)
  {
  }

  /** `copy_back_persistent_paths` after a run whose sessions are known. */
  method CopyBack(home: Tree, a: Tree, paths: seq<Path>, relocate: seq<Move>, faults: map<Path, Fault>)
    returns (b: Tree, r: Save)
    requires Sound(home) && SoundState(a) && forall i :: 0 <= i < |paths| ==> paths[i] != []
    requires forall m :: m in relocate ==> m.there != []
    ensures SoundState(b) && OnlyNewer(a, b) && Brought(home, a, b)
    ensures Sourced(home, a, b, paths, relocate)
    ensures r.Saved? ==> AllAccounted(home, b, paths, relocate, r.conflicts)
    ensures r.Broke? ==> KeptOut(home, b, paths, relocate, faults)
  {
    b := a;
    var conflicts := [];
    var files := PersistentFiles(home, paths);
    for i := 0 to |files|
      invariant SoundState(b) && OnlyNewer(a, b) && Brought(home, a, b)
      invariant Sources(home, a, b, relocate, files[..i])
      invariant Accounted(home, b, relocate, files[..i], conflicts)
    {
      var src := files[i];
      assert src in files && files[..i + 1] == files[..i] + [src];
      var c;
      b, c := SaveMoved(home, a, b, paths, relocate, src, FaultAt(faults, src), files[..i], conflicts);
      if c == Broken {
        SourcesAreSourced(home, a, b, paths, relocate, files[..i + 1]);
        FaultKeepsOut(home, b, paths, relocate, faults, src);
        return b, Broke;
      }
      if c == Taken { conflicts := conflicts + [src]; }
    }
    assert files[..|files|] == files;
    SourcesAreSourced(home, a, b, paths, relocate, files);
    AccountsAreAll(home, b, paths, relocate, files, conflicts);
    r := Saved(conflicts);
  }

  /** One file of that loop: `Taken` when it is a conflict. */
  method SaveMoved(home: Tree, ghost a0: Tree, a: Tree, paths: seq<Path>, relocate: seq<Move>, src: Path, fault: Fault,
                   ghost seen: seq<Path>, ghost conflicts: seq<Path>)
    returns (b: Tree, c: Copy)
    requires SoundState(a) && forall i :: 0 <= i < |paths| ==> paths[i] != []
    requires forall m :: m in relocate ==> m.there != []
    requires Held(home, paths, src) && OnlyNewer(a0, a) && Brought(home, a0, a)
    requires Sources(home, a0, a, relocate, seen) && Accounted(home, a, relocate, seen, conflicts)
    ensures SoundState(b) && OnlyNewer(a0, b) && Brought(home, a0, b) && Sources(home, a0, b, relocate, seen + [src])
    ensures c != Broken ==>
              Accounted(home, b, relocate, seen + [src], if c == Taken then conflicts + [src] else conflicts)
    ensures c == Broken ==> fault != Fine || Blocked(b, TargetOf(relocate, src))
  {
    var dst := TargetOf(relocate, src);
    TargetNamesAFile(relocate, paths, src);
    b, c := CopyIfNewer(a, home[src], dst, fault);
    CopyIsNewer(a, home[src], dst, b, c);
    NewerTrans(a0, a, b);
    CopyBrings(home, a0, a, src, dst, b, c);
    CopySources(home, a0, a, b, relocate, seen, src, c);
    if c != Broken { CopyAccounts(home, a, b, relocate, seen, conflicts, src, c); }
  }

  // ----- copy-back when the sessions are not known --------------------------------------------

  /** `state/` holds one file of the name of `src`, and it has the bytes of `src`. */
  ghost predicate OnlyCopy(home: Tree, state: Tree, paths: seq<Path>, src: Path) {
    src != [] && HasFile(home, src) &&
    exists p :: p != [] && Held(state, paths, p) && NameOf(p) == NameOf(src) && state[p].bytes == home[src].bytes &&
      forall q :: q != [] && Held(state, paths, q) && NameOf(q) == NameOf(src) ==> q == p
  }

  ghost predicate NameHeld(state: Tree, paths: seq<Path>, n: Name) {
    exists p :: p != [] && Held(state, paths, p) && NameOf(p) == n
  }

  /** A file is saved when `state/` has it once and only once, byte for byte. It is a conflict
      when `state/` has the name with other bytes or more than once, or a directory there. */
  ghost predicate Settled(home: Tree, state: Tree, paths: seq<Path>, files: seq<Path>, conflicts: seq<Path>) {
    (forall p :: p in files && p !in conflicts ==> OnlyCopy(home, state, paths, p)) &&
    (forall p :: p in conflicts ==> p in files && Refused(home, state, paths, p))
  }

  ghost predicate Refused(home: Tree, state: Tree, paths: seq<Path>, p: Path) {
    p != [] && (Occupied(state, p) || (NameHeld(state, paths, NameOf(p)) && !OnlyCopy(home, state, paths, p)))
  }

  /** What was not in `a` is a file of the run, at the path it has there. */
  ghost predicate OnlyAdded(home: Tree, paths: seq<Path>, a: Tree, b: Tree) {
    forall p :: HasFile(b, p) && !HasFile(a, p) ==> Held(home, paths, p) && b[p] == home[p]
  }

  lemma AddedIsBrought(home: Tree, paths: seq<Path>, a: Tree, b: Tree)
    requires OnlyAdded(home, paths, a, b) && Untouched(a, b)
    ensures Brought(home, a, b)
  {
    forall p | HasFile(b, p) && !HasFile(a, p) ensures FromRun(home, b[p]) { assert HasFile(home, p); }
  }

  /** The branch of a file whose name the index lists. */
  lemma ListedIsDecided(home: Tree, state: Tree, paths: seq<Path>, index: Index, src: Path)
    requires src != [] && HasFile(home, src) && Lists(index, state, paths, NameOf(src))
    ensures Known(index, NameOf(src)) != [] <==> NameHeld(state, paths, NameOf(src))
    ensures |Known(index, NameOf(src))| == 1 ==>
              HasFile(state, Known(index, NameOf(src))[0]) &&
              (state[Known(index, NameOf(src))[0]].bytes == home[src].bytes <==> OnlyCopy(home, state, paths, src))
    ensures |Known(index, NameOf(src))| > 1 ==> !OnlyCopy(home, state, paths, src)
  {
    var same := Known(index, NameOf(src));
    if same != [] { assert same[0] in same; }
    if |same| == 1 {
      forall q | q in same ensures q == same[0] { }
    }
    if |same| > 1 {
      assert same[0] in same && same[1] in same && same[0] != same[1];
    }
  }

  lemma LearnIsCoherent(a: Tree, src: Entry, dst: Path, b: Tree, paths: seq<Path>, index: Index)
    requires Apart(paths) && UnderAny(paths, dst) && dst != [] && src.File?
    requires Coherent(index, a, paths) && Known(index, NameOf(dst)) == []
    requires Copied(a, src, dst, b, Done)
    ensures Coherent(Learn(index, dst), b, paths)
    ensures Untouched(a, b) && b[dst] == src
  {
    assert Lists(index, a, paths, NameOf(dst));
    assert !HasFile(a, dst);
    forall n ensures Lists(Learn(index, dst), b, paths, n) {
      assert Lists(index, a, paths, n);
      forall p ensures p in Known(Learn(index, dst), n) <==> p != [] && Held(b, paths, p) && NameOf(p) == n {
        assert p in Known(index, n) <==> p != [] && Held(a, paths, p) && NameOf(p) == n;
        assert p != dst ==> (HasFile(b, p) <==> HasFile(a, p));
      }
    }
  }

  lemma BrokenIsCoherent(a: Tree, src: Entry, dst: Path, b: Tree, paths: seq<Path>, index: Index)
    requires src.File? && Copied(a, src, dst, b, Broken) && Coherent(index, a, paths)
    ensures Coherent(index, b, paths) && Untouched(a, b)
  {
    assert forall p :: HasFile(a, p) <==> HasFile(b, p);
    forall n ensures Lists(index, b, paths, n) {
      assert Lists(index, a, paths, n);
    }
  }

  /** A file whose name was new leaves every verdict given so far as it is. */
  lemma SettledStays(home: Tree, a: Tree, dst: Path, b: Tree, paths: seq<Path>, seen: seq<Path>, conflicts: seq<Path>)
    requires OthersStay(a, b, dst) && Untouched(a, b) && dst != []
    requires HasFile(b, dst) && !Occupied(a, dst) && !NameHeld(a, paths, NameOf(dst))
    requires Settled(home, a, paths, seen, conflicts)
    ensures Settled(home, b, paths, seen, conflicts)
  {
    forall p | p != [] && NameHeld(a, paths, NameOf(p))
      ensures OnlyCopy(home, a, paths, p) <==> OnlyCopy(home, b, paths, p)
      ensures NameHeld(b, paths, NameOf(p))
    {
      SameVerdict(home, a, dst, b, paths, p);
    }
    forall p | Refused(home, a, paths, p) ensures Refused(home, b, paths, p) {
      if Occupied(a, p) {
        var c :| c in a && ChildOf(p, c);
        assert c in b;
      }
    }
  }

  lemma SameVerdict(home: Tree, a: Tree, dst: Path, b: Tree, paths: seq<Path>, p: Path)
    requires OthersStay(a, b, dst) && Untouched(a, b) && dst != []
    requires HasFile(b, dst) && !NameHeld(a, paths, NameOf(dst))
    requires p != [] && NameHeld(a, paths, NameOf(p))
    ensures OnlyCopy(home, a, paths, p) <==> OnlyCopy(home, b, paths, p)
    ensures NameHeld(b, paths, NameOf(p))
  {
    assert NameOf(p) != NameOf(dst);
    forall q | q != [] && NameOf(q) == NameOf(p)
      ensures Held(a, paths, q) <==> Held(b, paths, q)
      ensures Held(a, paths, q) ==> a[q] == b[q]
    { }
  }

  /** `copy_back_persistent_paths` with `known_names`: the index is told of each file saved. */
  method CopyBackNamed(home: Tree, a: Tree, paths: seq<Path>, index: Index, faults: map<Path, Fault>)
    returns (b: Tree, known: Index, r: Save)
    requires Sound(home) && SoundState(a) && Apart(paths)
    requires Coherent(index, a, paths)
    ensures SoundState(b) && Untouched(a, b) && OnlyAdded(home, paths, a, b) && Coherent(known, b, paths)
    ensures r.Saved? ==> exists files :: Settled(home, b, paths, files, r.conflicts) &&
                           forall p :: p in files <==> Held(home, paths, p)
    ensures r.Broke? ==> exists p :: Held(home, paths, p) && (FaultAt(faults, p) != Fine || Blocked(b, p))
  {
    b, known := a, index;
    var conflicts := [];
    var files := PersistentFiles(home, paths);
    for i := 0 to |files|
      invariant SoundState(b) && Untouched(a, b) && OnlyAdded(home, paths, a, b) && Coherent(known, b, paths)
      invariant Settled(home, b, paths, files[..i], conflicts)
    {
      var src := files[i];
      assert src in files && files[..i + 1] == files[..i] + [src];
      var c;
      b, known, c := SaveNamed(home, b, paths, known, src, FaultAt(faults, src), files[..i], conflicts);
      if c == Broken { return b, known, Broke; }
      if c == Taken { conflicts := conflicts + [src]; }
    }
    assert files[..|files|] == files;
    r := Saved(conflicts);
  }

  /** One file of that loop: `Taken` when it is a conflict. */
  method SaveNamed(home: Tree, a: Tree, paths: seq<Path>, index: Index, src: Path, fault: Fault,
                   ghost seen: seq<Path>, ghost conflicts: seq<Path>)
    returns (b: Tree, known: Index, c: Copy)
    requires SoundState(a) && Apart(paths) && Coherent(index, a, paths) && Held(home, paths, src)
    requires Settled(home, a, paths, seen, conflicts)
    ensures SoundState(b) && Untouched(a, b) && OnlyAdded(home, paths, a, b) && Coherent(known, b, paths)
    ensures c != Broken ==>
              Settled(home, b, paths, seen + [src], if c == Taken then conflicts + [src] else conflicts)
    ensures c == Broken ==> fault != Fine || Blocked(b, src)
  {
    b, known := a, index;
    assert src != [] && Lists(index, a, paths, NameOf(src));
    ListedIsDecided(home, a, paths, index, src);
    var same := Known(index, NameOf(src));
    if |same| == 1 {
      if fault == AtRead { return b, known, Broken; }
      if a[same[0]].bytes == home[src].bytes { return b, known, Done; }
    }
    if same != [] { return b, known, Taken; }
    b, c := CopyIfNewer(a, home[src], src, fault);
    if c == Broken {
      BrokenIsCoherent(a, home[src], src, b, paths, index);
    } else if c == Done {
      LearnIsCoherent(a, home[src], src, b, paths, index);
      SettledStays(home, a, src, b, paths, seen, conflicts);
      known := Learn(index, src);
      NewIsOnly(home, b, paths, known, src);
    }
  }

  lemma NewIsOnly(home: Tree, state: Tree, paths: seq<Path>, index: Index, src: Path)
    requires src != [] && Held(home, paths, src) && HasFile(state, src) && state[src] == home[src]
    requires Lists(index, state, paths, NameOf(src)) && Known(index, NameOf(src)) == [src]
    ensures OnlyCopy(home, state, paths, src)
  {
    forall q | q != [] && Held(state, paths, q) && NameOf(q) == NameOf(src) ensures q == src {
      assert q in Known(index, NameOf(src));
    }
  }
}
