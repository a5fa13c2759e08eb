/** `secret_redaction.py`: exact-string replacement of values the framework minted. */
module SecretRedaction {
  import opened Text

  const REDACTION := "***"

  /** What `redact_secret` computes: one replacement pass per non-empty secret, in order. */
  function Redact(text: string, secrets: seq<string>): string
    decreases |secrets|
  {
    if secrets == [] then text
    else Redact(if secrets[0] == "" then text else Replace(text, secrets[0], REDACTION), secrets[1..])
  }

  lemma {:induction false} RedactSnoc(text: string, secrets: seq<string>, s: string)
    ensures Redact(text, secrets + [s]) ==
            (var t := Redact(text, secrets); if s == "" then t else Replace(t, s, REDACTION))
    decreases |secrets|
  {
    if secrets == [] {
      assert secrets + [s] == [s];
      assert [s][1..] == [];
    } else {
      assert (secrets + [s])[1..] == secrets[1..] + [s];
      assert (secrets + [s])[0] == secrets[0];
      RedactSnoc(if secrets[0] == "" then text else Replace(text, secrets[0], REDACTION), secrets[1..], s);
    }
  }

  method RedactSecret(text: string, secrets: seq<string>) returns (r: string)
    ensures r == Redact(text, secrets)
  {
    if text == "" {
      EmptyStaysEmpty(secrets);
      return text;
    }
    r := text;
    for i := 0 to |secrets|
      invariant r == Redact(text, secrets[..i])
    {
      RedactSnoc(text, secrets[..i], secrets[i]);
      assert secrets[..i + 1] == secrets[..i] + [secrets[i]];
      if secrets[i] != "" {
        r := Replace(r, secrets[i], REDACTION);
      }
    }
    assert secrets[..|secrets|] == secrets;
  }

  lemma {:induction false} EmptyStaysEmpty(secrets: seq<string>)
    ensures Redact("", secrets) == ""
    decreases |secrets|
  {
    if secrets != [] {
      EmptyStaysEmpty(secrets[1..]);
    }
  }

  /** The secrets the guarantee is about: none is empty, none has the mask's character. */
  ghost predicate Maskable(secrets: seq<string>) {
    forall s :: s in secrets ==> s != "" && '*' !in s
  }

  ghost predicate Clean(text: string, secrets: seq<string>) {
    forall s :: s in secrets ==> !Occurs(s, text)
  }

  /** Up to the first mask, a pass leaves the text as it was. */
  lemma {:induction false} ReplaceBeforeMask(text: string, pat: string, k: nat)
    requires pat != ""
    requires k <= |Replace(text, pat, REDACTION)| && '*' !in Replace(text, pat, REDACTION)[..k]
    ensures k <= |text| && text[..k] == Replace(text, pat, REDACTION)[..k]
    ensures k == |Replace(text, pat, REDACTION)| ==> k == |text|
    decreases |text|
  {
    var r := Replace(text, pat, REDACTION);
    assert k > 0 ==> r[0] == r[..k][0];
    if k == 0 || |text| < |pat| {
    } else if pat <= text {
    } else {
      var rest := Replace(text[1..], pat, REDACTION);
      assert r == [text[0]] + rest;
      assert r[..k] == [text[0]] + rest[..k - 1];
      ReplaceBeforeMask(text[1..], pat, k - 1);
      assert text[..k] == [text[0]] + text[1..][..k - 1];
    }
  }

  /** A pass removes its own secret and brings back none that was absent: what occurs after
      it occurred before it. */
  lemma {:induction false} ReplaceAddsNothing(text: string, pat: string, s: string, i: int)
    requires pat != "" && s != "" && '*' !in s
    requires OccursAt(s, Replace(text, pat, REDACTION), i)
    ensures s != pat && Occurs(s, text)
    decreases |text|
  {
    var r := Replace(text, pat, REDACTION);
    assert s[0] == r[i..i + |s|][0] == r[i];
    if |text| < |pat| {
      assert OccursAt(s, text, i);
    } else if pat <= text {
      if i >= 3 {
        ReplaceAddsNothingInTail(text, pat, s, |pat|, 3, i);
      }
    } else if i == 0 {
      ReplaceBeforeMask(text, pat, |s|);
      assert OccursAt(s, text, 0);
    } else {
      ReplaceAddsNothingInTail(text, pat, s, 1, 1, i);
    }
  }

  lemma {:induction false} ReplaceAddsNothingInTail(text: string, pat: string, s: string, k: nat, m: nat, i: int)
    requires pat != "" && s != "" && '*' !in s
    requires 1 <= k <= |text| && m <= i
    requires m <= |Replace(text, pat, REDACTION)|
    requires Replace(text[k..], pat, REDACTION) == Replace(text, pat, REDACTION)[m..]
    requires OccursAt(s, Replace(text, pat, REDACTION), i)
    ensures s != pat && Occurs(s, text)
    decreases |text|, 0
  {
    var r := Replace(text, pat, REDACTION);
    assert r[m..][i - m..i - m + |s|] == r[i..i + |s|];
    ReplaceAddsNothing(text[k..], pat, s, i - m);
    OccursInTail(s, text, k);
  }

  lemma {:induction false} RedactBeforeMask(text: string, secrets: seq<string>, k: nat)
    requires k <= |Redact(text, secrets)| && '*' !in Redact(text, secrets)[..k]
    ensures k <= |text| && text[..k] == Redact(text, secrets)[..k]
    ensures k == |Redact(text, secrets)| ==> k == |text|
    decreases |secrets|
  {
    if secrets != [] {
      var once := if secrets[0] == "" then text else Replace(text, secrets[0], REDACTION);
      RedactBeforeMask(once, secrets[1..], k);
      if secrets[0] != "" { ReplaceBeforeMask(text, secrets[0], k); }
    }
  }

  lemma {:induction false} RedactAddsNothing(text: string, secrets: seq<string>, s: string)
    requires s != "" && '*' !in s
    ensures Occurs(s, Redact(text, secrets)) ==> s !in secrets && Occurs(s, text)
    decreases |secrets|
  {
    if secrets != [] {
      var once := if secrets[0] == "" then text else Replace(text, secrets[0], REDACTION);
      RedactAddsNothing(once, secrets[1..], s);
      if secrets[0] != "" && Occurs(s, once) {
        var i :| OccursAt(s, once, i);
        ReplaceAddsNothing(text, secrets[0], s, i);
      }
    }
  }

  /** The redacted text holds no secret, whatever the order and the overlaps of the secrets. */
  lemma RedactIsClean(text: string, secrets: seq<string>)
    requires Maskable(secrets)
    ensures Clean(Redact(text, secrets), secrets)
  {
    forall s | s in secrets ensures !Occurs(s, Redact(text, secrets)) {
      RedactAddsNothing(text, secrets, s);
    }
  }

  /** A text with no secret is left alone. */
  lemma {:induction false} CleanIsFixed(text: string, secrets: seq<string>)
    requires Maskable(secrets) && Clean(text, secrets)
    ensures Redact(text, secrets) == text
    decreases |secrets|
  {
    if secrets != [] {
      assert forall s :: s in secrets[1..] ==> s in secrets;
      assert secrets[0] in secrets;
      ReplaceAbsent(text, secrets[0]);
      CleanIsFixed(text, secrets[1..]);
    }
  }

  lemma {:induction false} ReplaceAbsent(text: string, pat: string)
    requires pat != "" && !Occurs(pat, text)
    ensures Replace(text, pat, REDACTION) == text
    decreases |text|
  {
    if |text| >= |pat| {
      assert pat <= text ==> OccursAt(pat, text, 0);
      if Occurs(pat, text[1..]) { OccursInTail(pat, text, 1); }
      ReplaceAbsent(text[1..], pat);
    }
  }

  /** With secrets of at least three bytes a pass never makes the text longer in bytes. */
  lemma {:induction false} ReplaceDoesNotGrow(text: string, pat: string)
    requires pat != "" && Utf8Size(pat) >= 3
    ensures Utf8Size(Replace(text, pat, REDACTION)) <= Utf8Size(text)
    decreases |text|
  {
    if |text| < |pat| {
    } else if pat <= text {
      var rest := text[|pat|..];
      ReplaceDoesNotGrow(rest, pat);
      Utf8SizeConcat(pat, rest);
      assert text == pat + rest;
      assert REDACTION[1..] == "**" && "**"[1..] == "*";
      Utf8SizeConcat(REDACTION, Replace(rest, pat, REDACTION));
    } else {
      ReplaceDoesNotGrow(text[1..], pat);
      Utf8SizeConcat([text[0]], Replace(text[1..], pat, REDACTION));
    }
  }

  lemma {:induction false} RedactDoesNotGrow(text: string, secrets: seq<string>)
    requires forall s :: s in secrets ==> s == "" || Utf8Size(s) >= 3
    ensures Utf8Size(Redact(text, secrets)) <= Utf8Size(text)
    decreases |secrets|
  {
    if secrets != [] {
      if secrets[0] != "" { ReplaceDoesNotGrow(text, secrets[0]); }
      RedactDoesNotGrow(if secrets[0] == "" then text else Replace(text, secrets[0], REDACTION), secrets[1..]);
    }
  }

  /** What one secret becomes: three stars at its first place, and so on in the rest after it. */
  lemma RedactFirst(text: string, s: string, i: nat)
    requires s != "" && OccursAt(s, text, i) && forall j :: 0 <= j < i ==> !OccursAt(s, text, j)
    ensures Redact(text, [s]) == text[..i] + "***" + Redact(text[i + |s|..], [s])
  {
    ReplaceFirst(text, s, REDACTION, i);
    assert [s][1..] == [];
  }
}
