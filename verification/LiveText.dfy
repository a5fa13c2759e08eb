/** The text half of the live-delta pipeline (`execution_deltas.py`). */
module LiveText {
  // `_held_back` and the cut in `_flush_locked`: what one flush writes, what it holds back, and
  // why the pieces of one segment, joined by a reader, never show a secret.

  import opened Text
  import opened SecretRedaction

  /** The last `k` characters of `text` are a proper prefix of a secret. */
  predicate HeldAt(text: string, secrets: seq<string>, k: int) {
    0 <= k <= |text| &&
    exists i :: 0 <= i < |secrets| && k < |secrets[i]| && text[|text| - k..] == secrets[i][..k]
  }

  /** The longest such suffix no longer than `limit`; 0 when there is none. */
  function LongestHeld(text: string, secrets: seq<string>, limit: nat): (h: nat)
    requires limit <= |text|
    ensures h <= limit
  {
    if limit == 0 || HeldAt(text, secrets, limit) then limit else LongestHeld(text, secrets, limit - 1)
  }

  function HeldBack(text: string, secrets: seq<string>): (h: nat)
    ensures h <= |text|
  {
    LongestHeld(text, secrets, |text|)
  }

  lemma {:induction false} LongestHeldMeans(text: string, secrets: seq<string>, limit: nat)
    requires limit <= |text|
    ensures LongestHeld(text, secrets, limit) == 0 || HeldAt(text, secrets, LongestHeld(text, secrets, limit))
    ensures forall k :: LongestHeld(text, secrets, limit) < k <= limit ==> !HeldAt(text, secrets, k)
  {
    if limit > 0 && !HeldAt(text, secrets, limit) { LongestHeldMeans(text, secrets, limit - 1); }
  }

  /** What is held back is a proper prefix of a secret, and no longer suffix is one. */
  lemma HeldBackMeans(text: string, secrets: seq<string>)
    ensures HeldBack(text, secrets) == 0 || HeldAt(text, secrets, HeldBack(text, secrets))
    ensures forall k :: HeldAt(text, secrets, k) ==> k <= HeldBack(text, secrets)
  {
    LongestHeldMeans(text, secrets, |text|);
  }

  lemma HeldAtSnoc(text: string, secrets: seq<string>, s: string, k: int)
    ensures HeldAt(text, secrets + [s], k) <==>
            HeldAt(text, secrets, k) || (0 <= k <= |text| && k < |s| && text[|text| - k..] == s[..k])
  {
    var more := secrets + [s];
    assert more[|secrets|] == s;
    assert forall i :: 0 <= i < |secrets| ==> more[i] == secrets[i];
  }

  /** `_held_back`: the two loops, the inner one from the longest candidate down. */
  method ComputeHeldBack(text: string, secrets: seq<string>) returns (held: nat)
    ensures held == HeldBack(text, secrets)
  {
    held := 0;
    for i := 0 to |secrets|
      invariant held <= |text| && (held == 0 || HeldAt(text, secrets[..i], held))
      invariant forall k :: HeldAt(text, secrets[..i], k) ==> k <= held
    {
      var secret := secrets[i];
      assert secrets[..i + 1] == secrets[..i] + [secret];
      forall k: int { HeldAtSnoc(text, secrets[..i], secret, k); }
      ghost var before := held;
      var k := if |secret| - 1 < |text| then |secret| - 1 else |text|;
      while k > held
        invariant held == before && k <= |text| && k < |secret|
        invariant forall j :: 0 <= j && k < j <= |text| && j < |secret| ==> text[|text| - j..] != secret[..j]
      {
        if text[|text| - k..] == secret[..k] {
          held := k;
          break;
        }
        k := k - 1;
      }
    }
    assert secrets[..|secrets|] == secrets;
    HeldBackMeans(text, secrets);
  }

  /** What one flush writes of a buffer and what it keeps back. */
  function Out(buffer: string, secrets: seq<string>): string {
    var text := Redact(buffer, secrets);
    text[..|text| - HeldBack(text, secrets)]
  }

  function Tail(buffer: string, secrets: seq<string>): string {
    var text := Redact(buffer, secrets);
    text[|text| - HeldBack(text, secrets)..]
  }

  /** The tail kept back is always shorter than some secret. */
  lemma TailIsProperPrefix(buffer: string, secrets: seq<string>)
    ensures Tail(buffer, secrets) == "" ||
            exists i :: 0 <= i < |secrets| && Tail(buffer, secrets) < secrets[i]
  {
    var text := Redact(buffer, secrets);
    var h := HeldBack(text, secrets);
    HeldBackMeans(text, secrets);
    if h != 0 {
      var i :| 0 <= i < |secrets| && h < |secrets[i]| && text[|text| - h..] == secrets[i][..h];
      assert Tail(buffer, secrets) < secrets[i];
    }
  }

  /** The state of a segment between two flushes: `cut` is all that its flushes wrote so far,
      `tail` what the last one held back. Nothing that was written can be completed to a secret
      unless the completion starts inside `tail`. */
  ghost predicate Guarded(cut: string, tail: string, secrets: seq<string>) {
    Clean(cut + tail, secrets) && forall k :: HeldAt(cut + tail, secrets, k) ==> k <= |tail|
  }

  lemma GuardedStart(secrets: seq<string>)
    requires Maskable(secrets)
    ensures Guarded("", "", secrets)
  {
    assert "" + "" == "";
    forall s | s in secrets ensures !Occurs(s, "") { }
  }

  /** An occurrence over the old cut and the new text was one in the redacted text, or one in
      the old cut and tail, or began before the tail: the three things that cannot happen. */
  lemma AcrossTheCut(cut: string, tail: string, more: string, secrets: seq<string>, j: nat, i: int)
    requires j < |secrets| && secrets[j] != "" && '*' !in secrets[j]
    requires OccursAt(secrets[j], cut + Redact(tail + more, secrets), i)
    ensures || Occurs(secrets[j], Redact(tail + more, secrets))
            || Occurs(secrets[j], cut + tail)
            || exists k :: k > |tail| && HeldAt(cut + tail, secrets, k)
  {
    var s, text, before := secrets[j], Redact(tail + more, secrets), cut + tail;
    var whole := cut + text;
    if i >= |cut| {
      assert text[i - |cut|..i - |cut| + |s|] == whole[i..i + |s|];
      assert OccursAt(s, text, i - |cut|);
    } else if i + |s| <= |cut| {
      assert before[i..i + |s|] == whole[i..i + |s|];
      assert OccursAt(s, before, i);
    } else {
      var k := i + |s| - |cut|;
      assert text[..k] == whole[i..i + |s|][|cut| - i..] == s[|cut| - i..];
      RedactBeforeMask(tail + more, secrets, k);
      if k <= |tail| {
        assert before[i..i + |s|] == cut[i..] + tail[..k];
        assert whole[i..i + |s|] == cut[i..] + text[..k];
        assert (tail + more)[..k] == tail[..k];
        assert OccursAt(s, before, i);
      } else {
        var held := |before| - i;
        assert (tail + more)[..k] == tail + more[..k - |tail|];
        assert whole[i..i + |s|] == cut[i..] + text[..k] == cut[i..] + tail + more[..k - |tail|];
        assert before[i..] == cut[i..] + tail == s[..held];
        assert HeldAt(before, secrets, held);
      }
    }
  }

  /** The same for a proper prefix that would reach back over the new text. */
  lemma HeldOverTheCut(cut: string, tail: string, more: string, secrets: seq<string>, k: int)
    requires Maskable(secrets)
    requires HeldAt(cut + Redact(tail + more, secrets), secrets, k)
    ensures || HeldAt(Redact(tail + more, secrets), secrets, k)
            || exists m :: m > |tail| && HeldAt(cut + tail, secrets, m)
  {
    var text := Redact(tail + more, secrets);
    var whole := cut + text;
    var j :| 0 <= j < |secrets| && k < |secrets[j]| && whole[|whole| - k..] == secrets[j][..k];
    if k <= |text| {
      assert text[|text| - k..] == whole[|whole| - k..];
    } else {
      assert secrets[j] in secrets;
      HeldBeforeTheCut(cut, tail, more, secrets, k, j);
    }
  }

  lemma HeldBeforeTheCut(cut: string, tail: string, more: string, secrets: seq<string>, k: nat, j: nat)
    requires j < |secrets| && '*' !in secrets[j]
    requires |Redact(tail + more, secrets)| < k < |secrets[j]| && k <= |cut + Redact(tail + more, secrets)|
    requires (cut + Redact(tail + more, secrets))[|cut + Redact(tail + more, secrets)| - k..] == secrets[j][..k]
    ensures exists m :: m > |tail| && HeldAt(cut + tail, secrets, m)
  {
    var text, s := Redact(tail + more, secrets), secrets[j];
    var p := |cut| + |text| - k;
    assert text[..|text|] == text;
    assert '*' !in text by {
      forall i | 0 <= i < |text| ensures text[i] != '*' {
        assert text[i] == (cut + text)[p..][|cut| - p + i] == s[..k][|cut| - p + i];
      }
    }
    RedactBeforeMask(tail + more, secrets, |text|);
    assert text == tail + more;
    HeadOfSuffix(cut, tail, more, s[..k], p);
    var m := |cut| + |tail| - p;
    assert s[..k][..m] == s[..m];
    assert HeldAt(cut + tail, secrets, m);
  }

  lemma HeadOfSuffix(cut: string, tail: string, more: string, suffix: string, p: nat)
    requires p <= |cut| && suffix == (cut + (tail + more))[p..]
    ensures suffix[..|cut| + |tail| - p] == (cut + tail)[p..]
  {
  }

  /** One flush keeps the guard, whatever arrived since the last one. */
  lemma FlushKeepsGuarded(cut: string, tail: string, more: string, secrets: seq<string>)
    requires Maskable(secrets) && Guarded(cut, tail, secrets)
    ensures Guarded(cut + Out(tail + more, secrets), Tail(tail + more, secrets), secrets)
  {
    var text := Redact(tail + more, secrets);
    assert cut + Out(tail + more, secrets) + Tail(tail + more, secrets) == cut + text;
    HeldBackMeans(text, secrets);
    RedactIsClean(tail + more, secrets);
    forall s | s in secrets ensures !Occurs(s, cut + text) {
      if i :| OccursAt(s, cut + text, i) {
        var j :| 0 <= j < |secrets| && secrets[j] == s;
        AcrossTheCut(cut, tail, more, secrets, j, i);
      }
    }
    forall k | HeldAt(cut + text, secrets, k) ensures k <= |Tail(tail + more, secrets)| {
      HeldOverTheCut(cut, tail, more, secrets, k);
    }
  }

  lemma GuardedIsClean(cut: string, tail: string, secrets: seq<string>)
    requires Guarded(cut, tail, secrets)
    ensures Clean(cut, secrets)
  {
    forall s | s in secrets ensures !Occurs(s, cut) {
      OccursInHead(s, cut + tail, |cut|);
      assert (cut + tail)[..|cut|] == cut;
    }
  }

  /** The text one whole segment writes: `chunks[i]` is what arrived before flush `i`, so the
      argument ranges over every chunking of the text and every choice of flush times; the
      last flush is the final one, whose tail is dropped. */
  function SegmentText(tail: string, chunks: seq<string>, secrets: seq<string>): string
    decreases |chunks|
  {
    if chunks == [] then ""
    else Out(tail + chunks[0], secrets) + SegmentText(Tail(tail + chunks[0], secrets), chunks[1..], secrets)
  }

  lemma {:induction false} SegmentFrom(cut: string, tail: string, chunks: seq<string>, secrets: seq<string>)
    requires Maskable(secrets) && Guarded(cut, tail, secrets)
    ensures Clean(cut + SegmentText(tail, chunks, secrets), secrets)
    decreases |chunks|
  {
    if chunks == [] {
      assert cut + "" == cut;
      GuardedIsClean(cut, tail, secrets);
    } else {
      var next, kept := Out(tail + chunks[0], secrets), Tail(tail + chunks[0], secrets);
      FlushKeepsGuarded(cut, tail, chunks[0], secrets);
      SegmentFrom(cut + next, kept, chunks[1..], secrets);
      assert cut + (next + SegmentText(kept, chunks[1..], secrets))
          == cut + next + SegmentText(kept, chunks[1..], secrets);
    }
  }

  /** The tail that the final flush drops. */
  function DroppedTail(tail: string, chunks: seq<string>, secrets: seq<string>): string
    decreases |chunks|
  {
    if chunks == [] then tail else DroppedTail(Tail(tail + chunks[0], secrets), chunks[1..], secrets)
  }

  lemma CleanFlush(buffer: string, rest: string, secrets: seq<string>)
    requires Maskable(secrets) && Clean(buffer + rest, secrets)
    ensures Out(buffer, secrets) + Tail(buffer, secrets) == buffer
    ensures Clean(Tail(buffer, secrets) + rest, secrets)
  {
    var whole := buffer + rest;
    assert whole[..|buffer|] == buffer;
    forall s | s in secrets ensures !Occurs(s, buffer) { OccursInHead(s, whole, |buffer|); }
    CleanIsFixed(buffer, secrets);
    var out, kept := Out(buffer, secrets), Tail(buffer, secrets);
    assert out + kept == buffer;
    assert whole[|out|..] == kept + rest;
    forall s | s in secrets ensures !Occurs(s, kept + rest) { OccursInTail(s, whole, |out|); }
  }

  /** Nothing but secrets is lost: a segment whose whole text holds none is written as it
      came, in order, up to the dropped tail. */
  lemma {:induction false} CleanTextIsWritten(tail: string, chunks: seq<string>, secrets: seq<string>)
    requires Maskable(secrets) && Clean(tail + Join(chunks), secrets)
    ensures SegmentText(tail, chunks, secrets) + DroppedTail(tail, chunks, secrets) == tail + Join(chunks)
    decreases |chunks|
  {
    if chunks != [] {
      var buffer, rest := tail + chunks[0], Join(chunks[1..]);
      assert tail + Join(chunks) == buffer + rest;
      CleanFlush(buffer, rest, secrets);
      CleanTextIsWritten(Tail(buffer, secrets), chunks[1..], secrets);
      Regroup(Out(buffer, secrets), Tail(buffer, secrets), chunks[1..], secrets);
    }
  }

  lemma Regroup(next: string, kept: string, chunks: seq<string>, secrets: seq<string>)
    requires SegmentText(kept, chunks, secrets) + DroppedTail(kept, chunks, secrets) == kept + Join(chunks)
    ensures next + SegmentText(kept, chunks, secrets) + DroppedTail(kept, chunks, secrets)
         == next + kept + Join(chunks)
  {
    var a, b := SegmentText(kept, chunks, secrets), DroppedTail(kept, chunks, secrets);
    assert next + a + b == next + (a + b);
    assert next + (kept + Join(chunks)) == next + kept + Join(chunks);
  }

  /** Streaming redaction: the joined pieces of a segment hold no secret. */
  lemma StreamedTextIsClean(chunks: seq<string>, secrets: seq<string>)
    requires Maskable(secrets)
    ensures Clean(SegmentText("", chunks, secrets), secrets)
  {
    GuardedStart(secrets);
    SegmentFrom("", "", chunks, secrets);
    assert "" + SegmentText("", chunks, secrets) == SegmentText("", chunks, secrets);
  }
}
