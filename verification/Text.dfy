/** Strings as Python treats them: substring search, `str.replace` (leftmost and without overlaps),
    `"".join`, and the sizes and prefixes of their UTF-8 encoding (section 3 of RFC 3629). */
module Text {

  /** `sub` stands in `text` at position `i`. */
  predicate OccursAt(sub: string, text: string, i: int) {
    0 <= i && i + |sub| <= |text| && text[i..i + |sub|] == sub
  }

  ghost predicate Occurs(sub: string, text: string) {
    exists i :: OccursAt(sub, text, i)
  }

  /** `text.replace(pat, with)`: leftmost, non-overlapping, one pass. */
  function Replace(text: string, pat: string, with: string): string
    requires pat != ""
    decreases |text|
  {
    if |text| < |pat| then text
    else if pat <= text then with + Replace(text[|pat|..], pat, with)
    else [text[0]] + Replace(text[1..], pat, with)
  }

  lemma LaterOccurs(text: string, pat: string, i: int)
    requires text != "" && i > 0
    ensures OccursAt(pat, text[1..], i - 1) <==> OccursAt(pat, text, i)
  {
    if i + |pat| <= |text| { assert text[1..][i - 1..i - 1 + |pat|] == text[i..i + |pat|]; }
  }

  lemma LaterFirst(text: string, pat: string, i: nat)
    requires pat != "" && i > 0 && OccursAt(pat, text, i) && forall j :: 0 <= j < i ==> !OccursAt(pat, text, j)
    ensures |pat| <= |text| && !(pat <= text)
    ensures OccursAt(pat, text[1..], i - 1) && forall j :: 0 <= j < i - 1 ==> !OccursAt(pat, text[1..], j)
  {
    assert !OccursAt(pat, text, 0);
    LaterOccurs(text, pat, i);
    forall j | 0 <= j < i - 1 ensures !OccursAt(pat, text[1..], j) { LaterOccurs(text, pat, j + 1); }
  }

  /** What a replacement does: at the first occurrence, and then in the rest after it. */
  lemma {:induction false} ReplaceFirst(text: string, pat: string, with: string, i: nat)
    requires pat != "" && OccursAt(pat, text, i) && forall j :: 0 <= j < i ==> !OccursAt(pat, text, j)
    ensures Replace(text, pat, with) == text[..i] + with + Replace(text[i + |pat|..], pat, with)
    decreases |text|
  {
    var end := Replace(text[i + |pat|..], pat, with);
    if i == 0 {
      assert text[0..|pat|] == text[..|pat|];
      assert text[..0] + with + end == with + end;
    } else {
      var rest := text[1..];
      LaterFirst(text, pat, i);
      FrontAgain(text, with, i, end, |pat|);
      ReplaceFirst(rest, pat, with, i - 1);
      assert Replace(rest, pat, with) == rest[..i - 1] + with + end;
      assert Replace(text, pat, with) == [text[0]] + Replace(rest, pat, with);
    }
  }

  lemma FrontAgain(text: string, with: string, i: nat, end: string, n: nat)
    requires 0 < i && i + n <= |text|
    ensures [text[0]] + (text[1..][..i - 1] + with + end) == text[..i] + with + end
    ensures text[1..][i - 1 + n..] == text[i + n..]
  {
  }

  /** `"".join(parts)`. */
  function Join(parts: seq<string>): string {
    if parts == [] then "" else parts[0] + Join(parts[1..])
  }

  lemma {:induction false} JoinAppend(parts: seq<string>, s: string)
    ensures Join(parts + [s]) == Join(parts) + s
  {
    if parts == [] {
      assert Join([s]) == s + Join([]);
    } else {
      assert (parts + [s])[1..] == parts[1..] + [s];
      JoinAppend(parts[1..], s);
    }
  }

  /** Bytes of one character in UTF-8 (section 3 of RFC 3629). */
  function CharBytes(c: char): (n: nat)
    ensures 1 <= n <= 4
  {
    var code := c as int;
    if code < 0x80 then 1 else if code < 0x800 then 2 else if code < 0x1_0000 then 3 else 4
  }

  /** `len(text.encode())`. */
  function Utf8Size(text: string): nat {
    if text == "" then 0 else CharBytes(text[0]) + Utf8Size(text[1..])
  }

  lemma {:induction false} Utf8SizeConcat(a: string, b: string)
    ensures Utf8Size(a + b) == Utf8Size(a) + Utf8Size(b)
  {
    if a == "" {
      assert a + b == b;
    } else {
      assert (a + b)[1..] == a[1..] + b;
      Utf8SizeConcat(a[1..], b);
    }
  }

  lemma {:induction false} Utf8SizeBounds(a: string)
    ensures |a| <= Utf8Size(a) <= 4 * |a|
  {
    if a != "" {
      Utf8SizeBounds(a[1..]);
    }
  }

  /** `text.encode()[:limit].decode(errors="ignore")`: the longest prefix of whole characters
      that fits in `limit` bytes. */
  function Utf8Cut(text: string, limit: nat): (r: string)
    ensures r <= text && Utf8Size(r) <= limit
    ensures r == text || Utf8Size(r) + CharBytes(text[|r|]) > limit
  {
    if text == "" || CharBytes(text[0]) > limit then ""
    else
      var rest := Utf8Cut(text[1..], limit - CharBytes(text[0]));
      assert ([text[0]] + rest)[1..] == rest;
      [text[0]] + rest
  }

  lemma OccursInTail(sub: string, text: string, k: nat)
    requires k <= |text|
    ensures Occurs(sub, text[k..]) ==> Occurs(sub, text)
  {
    if i :| OccursAt(sub, text[k..], i) {
      assert text[k + i..k + i + |sub|] == text[k..][i..i + |sub|];
      assert OccursAt(sub, text, k + i);
    }
  }

  lemma OccursInHead(sub: string, text: string, k: nat)
    requires k <= |text|
    ensures Occurs(sub, text[..k]) ==> Occurs(sub, text)
  {
    if i :| OccursAt(sub, text[..k], i) {
      assert text[i..i + |sub|] == text[..k][i..i + |sub|];
      assert OccursAt(sub, text, i);
    }
  }
}
