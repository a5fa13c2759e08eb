/** Config paths and their environment keys. */
module ConfigPath {
  // `_parse_config_path` of `core_config.py`, `path_to_env_key` and `env_key_to_path` of
  // `config_resolver.py`.

  import opened Wrappers
  import opened Text

  /** `module/field`, or `module/tools/tool/field`. */
  datatype Parts = Parts(module_: string, tool: Option<string>, field: string)

  /** `s.partition("/")`: what is before the first slash, whether there is one, and the rest. */
  datatype Cut = Cut(head: string, found: bool, tail: string)

  function Partition(s: string): Cut {
    if s == "" then Cut("", false, "")
    else if s[0] == '/' then Cut("", true, s[1..])
    else
      var rest := Partition(s[1..]);
      Cut([s[0]] + rest.head, rest.found, rest.tail)
  }

  /** What follows the module in a path: a field, or `tools/tool/field`. */
  datatype Rest = Rest(tool: Option<string>, field: string)

  function ParseRest(rest: string): Option<Rest> {
    var second := Partition(rest);
    if second.head == "tools" then
      if !second.found || second.tail == "" || '/' !in second.tail then None
      else
        var third := Partition(second.tail);
        if third.head == "" || third.tail == "" || '/' in third.tail then None
        else Some(Rest(Some(third.head), third.tail))
    else Some(Rest(None, rest))
  }

  /** `_parse_config_path`. */
  function Parse(path: string): Option<Parts> {
    if '/' !in path then None
    else
      var first := Partition(path);
      var rest := first.tail;
      if first.head == "" || rest == "" || rest[|rest| - 1] == '/' then None
      else
        var parsed := ParseRest(rest);
        if parsed.None? then None else Some(Parts(first.head, parsed.value.tool, parsed.value.field))
  }

  function RestOf(r: Rest): string {
    (if r.tool.Some? then "tools" + "/" + (r.tool.value + "/" + r.field) else r.field)
  }

  function PathOf(x: Parts): string {
    x.module_ + "/" + RestOf(Rest(x.tool, x.field))
  }

  /** The parts that a path can have. */
  ghost predicate Sensible(x: Parts) {
    x.module_ != "" && '/' !in x.module_ && SensibleRest(Rest(x.tool, x.field))
  }

  ghost predicate SensibleRest(r: Rest) {
    r.field != "" && r.field[|r.field| - 1] != '/' &&
    match r.tool
    case Some(t) => t != "" && '/' !in t && '/' !in r.field
    case None => Partition(r.field).head != "tools"
  }

  lemma {:induction false} CutParts(s: string)
    ensures var c := Partition(s);
      '/' !in c.head && s == c.head + (if c.found then "/" else "") + c.tail && (!c.found ==> c.tail == "") &&
      (c.found <==> '/' in s)
    decreases |s|
  {
    if s != "" {
      if s[0] != '/' { CutParts(s[1..]); }
      assert s == [s[0]] + s[1..];
    }
  }

  lemma {:induction false} CutJoined(head: string, tail: string)
    requires '/' !in head
    ensures Partition(head + "/" + tail) == Cut(head, true, tail)
    decreases |head|
  {
    var s := head + "/" + tail;
    if head == "" {
      assert s[0] == '/' && s[1..] == tail;
    } else {
      assert s[0] == head[0] && s[1..] == head[1..] + "/" + tail && head == [head[0]] + head[1..];
      CutJoined(head[1..], tail);
    }
  }

  lemma ParsedRest(rest: string)
    requires ParseRest(rest).Some? && rest != "" && rest[|rest| - 1] != '/'
    ensures SensibleRest(ParseRest(rest).value) && RestOf(ParseRest(rest).value) == rest
  {
    CutParts(rest);
    var tail := Partition(rest).tail;
    CutParts(tail);
    if Partition(rest).head == "tools" {
      var field := Partition(tail).tail;
      assert field[|field| - 1] in field;
    }
  }

  lemma PrintedRest(r: Rest)
    requires SensibleRest(r)
    ensures RestOf(r) != "" && RestOf(r)[|RestOf(r)| - 1] != '/' && ParseRest(RestOf(r)) == Some(r)
  {
    if r.tool.Some? {
      var tail := r.tool.value + "/" + r.field;
      CutJoined("tools", tail);
      CutJoined(r.tool.value, r.field);
      assert tail[|r.tool.value|] == '/' && tail[|tail| - 1] == r.field[|r.field| - 1];
      assert RestOf(r)[|RestOf(r)| - 1] == tail[|tail| - 1];
    }
  }

  /** A path that is accepted is the path of its parts. */
  lemma ParsedIsPrinted(path: string)
    requires Parse(path).Some?
    ensures Sensible(Parse(path).value) && PathOf(Parse(path).value) == path
  {
    CutParts(path);
    ParsedRest(Partition(path).tail);
  }

  /** And the path of any sensible parts is accepted, and gives them back. */
  lemma PrintedIsParsed(x: Parts)
    requires Sensible(x)
    ensures Parse(PathOf(x)) == Some(x)
  {
    var rest := RestOf(Rest(x.tool, x.field));
    PrintedRest(Rest(x.tool, x.field));
    CutJoined(x.module_, rest);
    assert PathOf(x)[|x.module_|] == '/';
  }

  // ----- keys ---------------------------------------------------------------------------------

  function UpperChar(c: char): char {
    if 'a' <= c <= 'z' then c - 'a' + 'A' else c
  }

  function LowerChar(c: char): char {
    if 'A' <= c <= 'Z' then c - 'A' + 'a' else c
  }

  /** `s.upper()` of an ASCII text. */
  function Upper(s: string): string {
    seq(|s|, i requires 0 <= i < |s| => UpperChar(s[i]))
  }

  /** `s.lower()` of an ASCII text. */
  function Lower(s: string): string {
    seq(|s|, i requires 0 <= i < |s| => LowerChar(s[i]))
  }

  /** The characters whose case is as below; Python changes the case of others too, and the
      length of some. */
  ghost predicate Ascii(s: string) {
    forall i :: 0 <= i < |s| ==> s[i] as int < 128
  }

  const PREFIX := "CONFIG__"

  /** `_env_key`. */
  function EnvKey(module_: string, field: string): string {
    Replace(Replace(Upper(PREFIX + module_ + "__" + field), "-", "_"), "/", "__")
  }

  /** `_env_key_tool`. */
  function EnvKeyTool(module_: string, tool: string, field: string): string {
    Replace(Replace(Upper(PREFIX + module_ + "__TOOLS__" + tool + "__" + field), "-", "_"), "/", "__")
  }

  /** `path_to_env_key`. */
  function PathToEnvKey(path: string): string {
    match Parse(path)
    case None => Replace(Upper(PREFIX + Partition(path).head), "-", "_")
    case Some(x) => if x.tool.Some? then EnvKeyTool(x.module_, x.tool.value, x.field) else EnvKey(x.module_, x.field)
  }

  /** `key.removeprefix("CONFIG__")`. */
  function Bare(key: string): string {
    if PREFIX <= key then key[|PREFIX|..] else key
  }

  /** `env_key_to_path`. */
  function EnvKeyToPath(key: string): string {
    Replace(Lower(Bare(key)), "__", "/")
  }

  /** What a path character becomes in a key. */
  function FoldChar(c: char): string {
    if c == '/' then "__" else if c == '-' then "_" else [UpperChar(c)]
  }

  function Fold(s: string): string {
    if s == "" then "" else FoldChar(s[0]) + Fold(s[1..])
  }

  lemma {:induction false} FoldConcat(a: string, b: string)
    ensures Fold(a + b) == Fold(a) + Fold(b)
    decreases |a|
  {
    if a == "" {
      assert a + b == b;
    } else {
      assert (a + b)[1..] == a[1..] + b;
      FoldConcat(a[1..], b);
    }
  }

  lemma {:induction false} ReplaceOneConcat(a: string, b: string, c: char, with: string)
    ensures Replace(a + b, [c], with) == Replace(a, [c], with) + Replace(b, [c], with)
    decreases |a|
  {
    if a == "" {
      assert a + b == b;
    } else {
      assert (a + b)[1..] == a[1..] + b && ([c] <= a + b <==> a[0] == c) && ([c] <= a <==> a[0] == c);
      ReplaceOneConcat(a[1..], b, c, with);
    }
  }

  lemma ReplaceOne(x: char, c: char, with: string)
    ensures Replace([x], [c], with) == if x == c then with else [x]
  {
    assert [x][1..] == "" && [x][..1] == [x] && [c][0] == c;
    assert Replace("", [c], with) == "";
  }

  /** The three replacements of a key, at once. */
  lemma {:induction false} KeyIsFold(s: string)
    ensures Replace(Replace(Upper(s), "-", "_"), "/", "__") == Fold(s)
    decreases |s|
  {
    if s == "" {
      assert Upper(s) == "";
    } else {
      var x := UpperChar(s[0]);
      var dashed := Replace([x], "-", "_");
      assert Upper(s) == [x] + Upper(s[1..]);
      ReplaceOneConcat([x], Upper(s[1..]), '-', "_");
      ReplaceOneConcat(dashed, Replace(Upper(s[1..]), "-", "_"), '/', "__");
      ReplaceOne(x, '-', "_");
      ReplaceOne(x, '/', "__");
      ReplaceOne('_', '/', "__");
      KeyIsFold(s[1..]);
    }
  }

  lemma {:induction false} FoldOfPlainText(s: string)
    requires forall i :: 0 <= i < |s| ==> s[i] != '/' && s[i] != '-'
    ensures Fold(s) == Upper(s)
    decreases |s|
  {
    if s != "" {
      FoldOfPlainText(s[1..]);
      assert Upper(s) == [UpperChar(s[0])] + Upper(s[1..]);
    }
  }

  lemma FoldOfPrefix()
    ensures Fold(PREFIX) == PREFIX
  {
    FoldOfPlainText(PREFIX);
    assert Upper(PREFIX) == PREFIX;
  }

  lemma FoldOfUnders()
    ensures Fold("__") == "__" && Fold("/") == "__"
  {
    FoldOfPlainText("__");
    assert Upper("__") == "__";
    assert Fold("/") == "__" + Fold("/"[1..]);
  }

  lemma FoldJoin(a: string, mark: string, b: string)
    ensures Fold(a + mark + b) == Fold(a) + Fold(mark) + Fold(b)
  {
    FoldConcat(a + mark, b);
    FoldConcat(a, mark);
  }

  lemma FoldOfToolsMark()
    ensures Fold("__TOOLS__") == "__TOOLS__"
  {
    FoldOfPlainText("__TOOLS__");
    assert Upper("__TOOLS__") == "__TOOLS__";
  }

  lemma FoldOfSlashed(w: string, slash: string)
    requires (forall i :: 0 <= i < |w| ==> w[i] != '/' && w[i] != '-') && Fold(slash) == "__"
    ensures Fold(slash + w + slash) == "__" + Upper(w) + "__"
  {
    FoldJoin(slash, w, slash);
    FoldOfPlainText(w);
  }

  lemma FoldOfSlashTools()
    ensures Fold("/tools/") == "__TOOLS__"
  {
    FoldOfUnders();
    FoldOfSlashed("tools", "/");
    assert Upper("tools") == "TOOLS";
    assert "/" + "tools" + "/" == "/tools/" && "__" + "TOOLS" + "__" == "__TOOLS__";
  }

  lemma FoldFour(a: string, b: string, c: string, d: string)
    ensures Fold(a + b + c + d) == Fold(a) + (Fold(b) + Fold(c) + Fold(d))
  {
    FoldJoin(a + b, c, d);
    FoldConcat(a, b);
    Regroup(Fold(a), Fold(b), Fold(c), Fold(d));
  }

  lemma FoldSix(a: string, b: string, c: string, d: string, e: string, f: string)
    ensures Fold(a + b + c + d + e + f) == Fold(a) + (Fold(b) + Fold(c) + (Fold(d) + Fold(e) + Fold(f)))
  {
    FoldJoin(a + b + c + d, e, f);
    FoldJoin(a + b, c, d);
    FoldConcat(a, b);
    RegroupTwice(Fold(a), Fold(b), Fold(c), Fold(d), Fold(e), Fold(f));
  }

  lemma Regroup(a: string, b: string, c: string, d: string)
    ensures a + b + c + d == a + (b + c + d)
  {
  }

  lemma RegroupTwice(a: string, b: string, c: string, d: string, e: string, f: string)
    ensures a + b + c + d + e + f == a + (b + c + (d + e + f))
  {
  }

  /** Where the key has underscores between two parts, the path has a slash. */
  lemma KeyOfField(m: string, f: string)
    ensures EnvKey(m, f) == PREFIX + Fold(m + "/" + f)
  {
    KeyIsFold(PREFIX + m + "__" + f);
    FoldFour(PREFIX, m, "__", f);
    FoldJoin(m, "/", f);
    FoldOfPrefix();
    FoldOfUnders();
  }

  lemma KeyOfTool(m: string, t: string, f: string)
    ensures EnvKeyTool(m, t, f) == PREFIX + Fold(m + "/tools/" + (t + "/" + f))
  {
    KeyIsFold(PREFIX + m + "__TOOLS__" + t + "__" + f);
    FoldSix(PREFIX, m, "__TOOLS__", t, "__", f);
    FoldJoin(m, "/tools/", t + "/" + f);
    FoldJoin(t, "/", f);
    FoldOfPrefix();
    FoldOfUnders();
    FoldOfToolsMark();
    FoldOfSlashTools();
  }

  lemma ToolPath(m: string, tail: string)
    ensures m + "/" + ("tools" + "/" + tail) == m + "/tools/" + tail
  {
    assert "/" + ("tools" + "/") == "/tools/";
    Regroup(m, "/", "tools" + "/", tail);
    Regroup(m, "/tools/", "", tail);
  }

  /** The key of an accepted path is the path, folded character by character. */
  lemma KeyOfPath(path: string)
    requires Ascii(path)
    requires Parse(path).Some?
    ensures PathToEnvKey(path) == PREFIX + Fold(path)
  {
    ParsedIsPrinted(path);
    var x := Parse(path).value;
    if x.tool.Some? {
      KeyOfTool(x.module_, x.tool.value, x.field);
      ToolPath(x.module_, x.tool.value + "/" + x.field);
    } else {
      KeyOfField(x.module_, x.field);
    }
  }

  // ----- the round trip -----------------------------------------------------------------------

  ghost predicate PlainChar(c: char) {
    c != '-' && !('A' <= c <= 'Z')
  }

  /** No upper case, no hyphen, and no underscore before an underscore or a slash. */
  ghost predicate Plain(path: string) {
    (forall i :: 0 <= i < |path| ==> PlainChar(path[i])) &&
    (forall i :: 0 <= i < |path| - 1 && path[i] == '_' ==> path[i + 1] != '_' && path[i + 1] != '/')
  }

  /** What comes back from a key before the slashes do. */
  function Low(s: string): string {
    Lower(Fold(s))
  }

  lemma LowCons(s: string)
    requires s != ""
    ensures Low(s) == (if s[0] == '/' then "__" else if s[0] == '-' then "_" else [LowerChar(s[0])]) + Low(s[1..])
  {
    var head := FoldChar(s[0]);
    assert Lower(head + Fold(s[1..])) == Lower(head) + Lower(Fold(s[1..]));
    assert Lower(head) == if s[0] == '/' then "__" else if s[0] == '-' then "_" else [LowerChar(s[0])];
  }

  /** A plain path comes back as it was. */
  lemma {:induction false} PlainComesBack(s: string)
    requires Plain(s)
    ensures Replace(Low(s), "__", "/") == s
    decreases |s|
  {
    if s == "" {
      assert Low(s) == "";
    } else {
      var rest := s[1..];
      assert s == [s[0]] + rest && PlainChar(s[0]);
      assert forall i :: 0 <= i < |rest| ==> rest[i] == s[i + 1];
      PlainComesBack(rest);
      LowCons(s);
      var low := Low(s);
      if s[0] == '/' {
        assert low[..2] == "__" && low[2..] == Low(rest);
      } else {
        assert low[0] == s[0] && low[1..] == Low(rest);
        if rest != "" { LowCons(rest); }
        assert !("__" <= low);
      }
    }
  }

  /** No key gives back a path that is not plain: what is left of a run of underscores is one at
      most, and never before a slash. */
  lemma {:induction false} WhatComesBackIsPlain(t: string)
    requires forall i :: 0 <= i < |t| ==> PlainChar(t[i]) && t[i] != '/'
    ensures Plain(Replace(t, "__", "/"))
    ensures t != "" ==>
              Replace(t, "__", "/") != "" && (Replace(t, "__", "/")[0] in "_/" ==> t[0] == '_')
    ensures t == "" ==> Replace(t, "__", "/") == ""
    decreases |t|
  {
    if |t| >= 2 {
      assert t[..2] == [t[0], t[1]];
      if "__" <= t {
        WhatComesBackIsPlain(t[2..]);
      } else {
        WhatComesBackIsPlain(t[1..]);
      }
    }
  }

  lemma FoldIsBare(s: string)
    ensures forall i :: 0 <= i < |Low(s)| ==> PlainChar(Low(s)[i]) && Low(s)[i] != '/'
    decreases |s|
  {
    if s == "" {
      assert Low(s) == "";
    } else {
      LowCons(s);
      FoldIsBare(s[1..]);
    }
  }

  /** A path comes back from its key exactly when it is plain. */
  lemma RoundTripExactly(path: string)
    requires Ascii(path)
    requires Parse(path).Some?
    ensures EnvKeyToPath(PathToEnvKey(path)) == path <==> Plain(path)
  {
    KeyOfPath(path);
    assert Bare(PREFIX + Fold(path)) == Fold(path);
    if Plain(path) { PlainComesBack(path); }
    FoldIsBare(path);
    WhatComesBackIsPlain(Low(path));
  }

  /** A path that does not come back: the key of `a/b__c` is that of `a/b/c`, which does. */
  lemma UnderscoresComeBackAsSlash()
    ensures Parse("a/b__c").Some? && Parse("a/b/c").Some?
    ensures PathToEnvKey("a/b__c") == PathToEnvKey("a/b/c")
    ensures EnvKeyToPath(PathToEnvKey("a/b__c")) == "a/b/c"
  {
    UnderscoresShare("a/b__c", "a/b/c", "b__c", "b/c");
  }

  lemma UnderscoresShare(p: string, q: string, under: string, slash: string)
    requires under == "b__c" && slash == "b/c" && p == "a" + "/" + under && q == "a" + "/" + slash
    ensures Parse(p).Some? && Parse(q).Some?
    ensures PathToEnvKey(p) == PathToEnvKey(q) && EnvKeyToPath(PathToEnvKey(p)) == q
  {
    FieldIsAccepted("a", under);
    FieldIsAccepted("a", slash);
    UnderscoresFold(p, q);
    ComesBackAs(p, q);
  }

  lemma ComesBackAs(p: string, q: string)
    requires Ascii(p) && Ascii(q) && Parse(p).Some? && Parse(q).Some? && Fold(p) == Fold(q) && Plain(q)
    ensures PathToEnvKey(p) == PathToEnvKey(q) && EnvKeyToPath(PathToEnvKey(p)) == q
  {
    SharedKey(p, q);
    RoundTripExactly(q);
  }

  lemma UnderscoresFold(p: string, q: string)
    requires p == "a/b" + "__" + "c" && q == "a/b" + "/" + "c"
    ensures Fold(p) == Fold(q)
  {
    FoldOfUnders();
    SameFold("a/b", "__", "/", "c");
  }

  lemma SameFold(a: string, mark: string, slash: string, b: string)
    requires Fold(mark) == Fold(slash)
    ensures Fold(a + mark + b) == Fold(a + slash + b)
  {
    FoldJoin(a, mark, b);
    FoldJoin(a, slash, b);
  }

  lemma FieldIsAccepted(m: string, f: string)
    requires m != "" && '/' !in m && f != "" && f[|f| - 1] != '/' && !("tools" <= f)
    ensures Parse(m + "/" + f).Some?
  {
    CutParts(f);
    PrintedIsParsed(Parts(m, None, f));
  }

  lemma {:induction false} HeadIsFold(s: string)
    requires '/' !in s
    ensures Replace(Upper(s), "-", "_") == Fold(s) && |Fold(s)| == |s|
    decreases |s|
  {
    if s == "" {
      assert Upper(s) == "";
    } else {
      assert Upper(s) == [UpperChar(s[0])] + Upper(s[1..]) && s == [s[0]] + s[1..];
      ReplaceOneConcat([UpperChar(s[0])], Upper(s[1..]), '-', "_");
      ReplaceOne(UpperChar(s[0]), '-', "_");
      HeadIsFold(s[1..]);
    }
  }

  lemma {:induction false} SlashesAreShorter(t: string)
    ensures |Replace(t, "__", "/")| <= |t|
    decreases |t|
  {
    if |t| >= 2 { SlashesAreShorter(if "__" <= t then t[2..] else t[1..]); }
  }

  /** The key of a path that is not accepted keeps the module only: it comes back when there
      was nothing else, and it is plain. */
  lemma RejectedExactly(path: string)
    requires Ascii(path)
    requires Parse(path).None?
    ensures EnvKeyToPath(PathToEnvKey(path)) == path <==> '/' !in path && Plain(path)
  {
    CutParts(path);
    var head := Partition(path).head;
    assert '/' !in PREFIX + head;
    HeadIsFold(PREFIX + head);
    FoldConcat(PREFIX, head);
    FoldOfPrefix();
    HeadIsFold(head);
    assert (PREFIX + Fold(head))[|PREFIX|..] == Fold(head);
    SlashesAreShorter(Low(head));
    if '/' !in path {
      assert head == path;
      if Plain(path) { PlainComesBack(path); }
      FoldIsBare(path);
      WhatComesBackIsPlain(Low(path));
    }
  }

  /** So two plain paths never share a key. */
  lemma PlainKeysDiffer(p: string, q: string)
    requires Ascii(p) && Ascii(q)
    requires Parse(p).Some? && Parse(q).Some? && Plain(p) && Plain(q)
    requires PathToEnvKey(p) == PathToEnvKey(q)
    ensures p == q
  {
    RoundTripExactly(p);
    RoundTripExactly(q);
  }

  /** And two accepted paths share one exactly when they fold to one text. */
  lemma SharedKey(p: string, q: string)
    requires Ascii(p) && Ascii(q)
    requires Parse(p).Some? && Parse(q).Some?
    ensures PathToEnvKey(p) == PathToEnvKey(q) <==> Fold(p) == Fold(q)
  {
    KeyOfPath(p);
    KeyOfPath(q);
    assert (PREFIX + Fold(p))[|PREFIX|..] == Fold(p) && (PREFIX + Fold(q))[|PREFIX|..] == Fold(q);
  }
}
