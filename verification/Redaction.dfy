/** The one-shot specification of redaction, and the incremental rendering that
    StreamingSecretRedactor performs, with the proof that they agree. */
module Redaction {
  import opened SecretMatching

  const MARK := "[redacted]"

  /** Length of the first maximal run of equal entries. */
  function RunLength(mask: seq<bool>): (n: nat)
    requires mask != []
    ensures 0 < n <= |mask|
    ensures forall k :: 0 <= k < n ==> mask[k] == mask[0]
    ensures n < |mask| ==> mask[n] != mask[0]
  {
    if |mask| == 1 || mask[1] != mask[0] then 1 else 1 + RunLength(mask[1..])
  }

  /** One mark for every maximal hidden run, every other character unchanged. */
  function RedactRuns(text: string, mask: seq<bool>): string
    requires |text| == |mask|
    decreases |mask|
  {
    if mask == [] then "" else
      var n := RunLength(mask);
      (if mask[0] then MARK else text[..n]) + RedactRuns(text[n..], mask[n..])
  }

  ghost function HiddenMask(secrets: seq<string>, text: string): (mask: seq<bool>)
    ensures |mask| == |text|
    ensures forall i :: 0 <= i < |text| ==> mask[i] == Hidden(secrets, text, i)
  {
    seq(|text|, i requires 0 <= i < |text| => Hidden(secrets, text, i))
  }

  /** What the whole text must become, said without automata, chunks or flags. */
  ghost function Redact(secrets: seq<string>, text: string): string {
    RedactRuns(text, HiddenMask(secrets, text))
  }

  /** The "currently redacting" flag after the entries of `mask`. */
  function FlagAfter(mask: seq<bool>, redacting: bool): bool {
    if mask == [] then redacting else mask[|mask| - 1]
  }

  /** A hidden character shows as the mark, or not at all behind another hidden one. */
  function Shown(c: char, hidden: bool, redacting: bool): string {
    if !hidden then [c] else if redacting then "" else MARK
  }

  /** Character-by-character rendering that carries the flag across drains. */
  function Render(text: string, mask: seq<bool>, redacting: bool): string
    requires |text| == |mask|
    decreases |mask|
  {
    if mask == [] then "" else
      var n := |mask| - 1;
      Render(text[..n], mask[..n], redacting) + Shown(text[n], mask[n], FlagAfter(mask[..n], redacting))
  }

  lemma Reassociate<T>(a: seq<T>, b: seq<T>, c: seq<T>)
    ensures (a + b) + c == a + (b + c)
  {
  }

  lemma FlagConcat(m: seq<bool>, n: seq<bool>, redacting: bool)
    ensures FlagAfter(m + n, redacting) == FlagAfter(n, FlagAfter(m, redacting))
  {
    assert n == [] ==> m + n == m;
  }

  /** One more character, unfolded once. */
  lemma RenderLast(t: string, m: seq<bool>, c: char, hidden: bool, redacting: bool)
    requires |t| == |m|
    ensures Render(t + [c], m + [hidden], redacting) ==
            Render(t, m, redacting) + Shown(c, hidden, FlagAfter(m, redacting))
  {
    assert (t + [c])[..|t|] == t && (m + [hidden])[..|m|] == m;
  }

  /** A drain at `index`: what was rendered so far is written up to a last stretch of plain characters. */
  ghost predicate Drained(text: string, mask: seq<bool>, before: bool, index: nat, plainStart: nat, output: string,
      redacting: bool)
  {
    && plainStart <= index <= |text| == |mask|
    && output + text[plainStart..index] == Render(text[..index], mask[..index], before)
    && redacting == FlagAfter(mask[..index], before)
    && (plainStart < index ==> !redacting)
  }

  lemma RenderNext(text: string, mask: seq<bool>, index: nat, before: bool)
    requires index < |text| == |mask|
    ensures Render(text[..index + 1], mask[..index + 1], before) == Render(text[..index], mask[..index], before) +
            Shown(text[index], mask[index], FlagAfter(mask[..index], before))
    ensures FlagAfter(mask[..index + 1], before) == mask[index]
  {
    hide Render, Shown;
    var t, m := text[..index], mask[..index];
    assert text[..index + 1] == t + [text[index]] && mask[..index + 1] == m + [mask[index]];
    RenderLast(t, m, text[index], mask[index], before);
  }

  lemma DrainedNothing(text: string, mask: seq<bool>, before: bool)
    requires |text| == |mask|
    ensures Drained(text, mask, before, 0, 0, "", before)
  {
    assert text[..0] == "" && mask[..0] == [];
  }

  /** At a hidden character the plain stretch is written, and the mark if none is open. */
  lemma DrainedHidden(text: string, mask: seq<bool>, before: bool, index: nat, plainStart: nat, output: string,
      redacting: bool)
    requires Drained(text, mask, before, index, plainStart, output, redacting) && index < |text| && mask[index]
    ensures Drained(text, mask, before, index + 1, index + 1,
                    output + text[plainStart..index] + (if redacting then "" else MARK), true)
  {
    RenderNext(text, mask, index, before);
    hide Render, FlagAfter;
    assert text[index + 1..index + 1] == "";
  }

  /** A plain character only makes the stretch longer. */
  lemma DrainedPlain(text: string, mask: seq<bool>, before: bool, index: nat, plainStart: nat, output: string,
      redacting: bool)
    requires Drained(text, mask, before, index, plainStart, output, redacting) && index < |text| && !mask[index]
    ensures Drained(text, mask, before, index + 1, plainStart, output, false)
  {
    RenderNext(text, mask, index, before);
    hide Render, FlagAfter;
    assert text[plainStart..index + 1] == text[plainStart..index] + [text[index]];
    Reassociate(output, text[plainStart..index], [text[index]]);
  }

  lemma DrainedAll(text: string, mask: seq<bool>, before: bool, index: nat, plainStart: nat, output: string,
      redacting: bool)
    requires Drained(text, mask, before, index, plainStart, output, redacting)
    ensures output + text[plainStart..index] == Render(text[..index], mask[..index], before)
    ensures redacting == FlagAfter(mask[..index], before)
  {
  }

  /** The second part of two grows by one character. */
  lemma RenderConcatLast(t: string, m: seq<bool>, u: string, n: seq<bool>, c: char, hidden: bool, redacting: bool)
    requires |t| == |m| && |u| == |n|
    requires Render(t + u, m + n, redacting) == Render(t, m, redacting) + Render(u, n, FlagAfter(m, redacting))
    ensures Render(t + (u + [c]), m + (n + [hidden]), redacting)
         == Render(t, m, redacting) + Render(u + [c], n + [hidden], FlagAfter(m, redacting))
  {
    var flag := FlagAfter(m, redacting);
    FlagConcat(m, n, redacting);
    RenderLast(t + u, m + n, c, hidden, redacting);
    RenderLast(u, n, c, hidden, flag);
    var before, between, last := Render(t, m, redacting), Render(u, n, flag), Shown(c, hidden, FlagAfter(n, flag));
    hide Render, FlagAfter, Shown;
    Reassociate(t, u, [c]);
    Reassociate(m, n, [hidden]);
    Reassociate(before, between, last);
  }

  lemma {:induction false} RenderConcat(t: string, m: seq<bool>, u: string, n: seq<bool>, redacting: bool)
    requires |t| == |m| && |u| == |n|
    ensures Render(t + u, m + n, redacting) == Render(t, m, redacting) + Render(u, n, FlagAfter(m, redacting))
    decreases |n|
  {
    if n == [] {
      assert t + u == t && m + n == m;
    } else {
      hide Render, FlagAfter;
      var k := |n| - 1;
      var firstText, firstMask := u[..k], n[..k];
      assert u == firstText + [u[k]] && n == firstMask + [n[k]];
      RenderConcat(t, m, firstText, firstMask, redacting);
      RenderConcatLast(t, m, firstText, firstMask, u[k], n[k], redacting);
    }
  }

  lemma {:induction false} RenderOneRun(t: string, m: seq<bool>, redacting: bool)
    requires |t| == |m| && m != []
    requires forall k :: 0 <= k < |m| ==> m[k] == m[0]
    ensures Render(t, m, redacting) == if !m[0] then t else if redacting then "" else MARK
    decreases |m|
  {
    var n := |m| - 1;
    RenderLast(t[..n], m[..n], t[n], m[n], redacting);
    assert t == t[..n] + [t[n]] && m == m[..n] + [m[n]];
    if n == 0 {
      assert t[..n] == "" && t == [t[0]];
    } else {
      hide Render;
      RenderOneRun(t[..n], m[..n], redacting);
    }
  }

  /** Rendering with a flag is the run-by-run specification, provided a set flag does not meet
      a hidden first position (then the mark was already written). */
  lemma {:induction false} RenderIsRedactRuns(text: string, mask: seq<bool>, redacting: bool)
    requires |text| == |mask|
    requires mask != [] && mask[0] ==> !redacting
    ensures Render(text, mask, redacting) == RedactRuns(text, mask)
    decreases |mask|
  {
    if mask != [] {
      var n := RunLength(mask);
      assert text == text[..n] + text[n..] && mask == mask[..n] + mask[n..];
      RenderConcat(text[..n], mask[..n], text[n..], mask[n..], redacting);
      RenderOneRun(text[..n], mask[..n], redacting);
      RenderIsRedactRuns(text[n..], mask[n..], FlagAfter(mask[..n], redacting));
    }
  }

  /** What the redacted text looks like, run by run: a hidden run is one mark, a plain run stays as it is. */
  lemma OneRun(text: string, mask: seq<bool>)
    requires |mask| == |text|
    ensures mask != [] && (forall k :: 0 <= k < |mask| ==> mask[k]) ==> RedactRuns(text, mask) == "[redacted]"
    ensures (forall k :: 0 <= k < |mask| ==> !mask[k]) ==> RedactRuns(text, mask) == text
  {
    RenderIsRedactRuns(text, mask, false);
    if mask != [] && forall k :: 0 <= k < |mask| ==> mask[k] == mask[0] {
      RenderOneRun(text, mask, false);
    }
  }

  /** And a text may be cut wherever a run ends. */
  lemma RunByRun(text: string, mask: seq<bool>, i: nat)
    requires 0 < i < |mask| == |text| && mask[i - 1] != mask[i]
    ensures RedactRuns(text, mask) == RedactRuns(text[..i], mask[..i]) + RedactRuns(text[i..], mask[i..])
  {
    hide Render, RedactRuns;
    var t, m, u, n := text[..i], mask[..i], text[i..], mask[i..];
    assert text == t + u && mask == m + n;
    RenderConcat(t, m, u, n, false);
    RenderIsRedactRuns(t + u, m + n, false);
    RenderIsRedactRuns(t, m, false);
    RenderIsRedactRuns(u, n, FlagAfter(m, false));
  }

  /** And which characters are hidden: those that lie in some occurrence of some secret. */
  lemma HiddenExactly(secrets: seq<string>, text: string, i: nat)
    requires i < |text|
    ensures HiddenMask(secrets, text)[i] <==>
            exists secret, start: nat :: secret in secrets && Covers(text, secret, start, i)
  {
    if HiddenMask(secrets, text)[i] {
      var j :| 0 <= j < |secrets| && HiddenBy(text, secrets[j], i);
      var start: nat :| start <= i < start + |secrets[j]| && OccursAt(text, secrets[j], start);
      assert secrets[j] in secrets && Covers(text, secrets[j], start, i);
    }
    if exists secret, start: nat :: secret in secrets && Covers(text, secret, start, i) {
      var secret, start: nat :| secret in secrets && Covers(text, secret, start, i);
      var j :| 0 <= j < |secrets| && secrets[j] == secret;
      assert OccursAt(text, secret, start) && HiddenBy(text, secrets[j], i);
    }
  }

  /** The secret stands in the text from `start` on, and position `i` is one of its characters. */
  predicate Covers(text: string, secret: string, start: nat, i: nat) {
    start <= i < start + |secret| <= |text| && text[start..start + |secret|] == secret
  }

  /** The prefix of `secret` that `text` ends with is no longer than `held`. */
  ghost predicate HeldAtMost(secret: string, text: string, held: nat) {
    exists m: nat :: m <= held && LongestEnd(secret, text, |secret|, m)
  }

  /** The longest prefix some secret still needs is exactly what must be held back. */
  ghost predicate HeldBack(secrets: seq<string>, text: string, held: nat) {
    && (forall j :: 0 <= j < |secrets| ==> HeldAtMost(secrets[j], text, held))
    && (held == 0 || exists j :: 0 <= j < |secrets| && LongestEnd(secrets[j], text, |secrets[j]|, held))
  }

  lemma NothingHeldAtFirst(secrets: seq<string>)
    requires forall j :: 0 <= j < |secrets| ==> secrets[j] != ""
    ensures HeldBack(secrets, "", 0)
  {
    forall j | 0 <= j < |secrets| ensures HeldAtMost(secrets[j], "", 0) {
      StateBeforeText(secrets[j]);
      hide LongestEnd;
    }
  }

  lemma NoSecretsHoldNothing(secrets: seq<string>, text: string)
    ensures HeldBack(secrets[..0], text, 0)
  {
  }

  /** The running maximum over the matchers scanned so far. */
  lemma HeldBackTakeNext(secrets: seq<string>, j: nat, text: string, held: nat, m: nat)
    requires j < |secrets| && HeldBack(secrets[..j], text, held)
    requires LongestEnd(secrets[j], text, |secrets[j]|, m)
    ensures HeldBack(secrets[..j + 1], text, if held < m then m else held)
  {
    var next := if held < m then m else held;
    var more := secrets[..j + 1];
    forall k | 0 <= k < |more| ensures HeldAtMost(more[k], text, next) {
      assert k < j ==> more[k] == secrets[..j][k] && HeldAtMost(secrets[..j][k], text, held);
    }
    if held < m {
      assert LongestEnd(more[j], text, |more[j]|, next);
    } else if held > 0 {
      var k :| 0 <= k < j && LongestEnd(secrets[..j][k], text, |secrets[..j][k]|, held);
      assert more[k] == secrets[..j][k];
    }
  }

  /** What a redactor's fields mean. The text received is drained + pending: `emitted` and `redacting`
      are the rendering of the drained part, `mask` says which pending positions are hidden, and
      exactly what some secret may still complete is pending. */
  ghost predicate StreamState(secrets: seq<string>, drained: string, drainedMask: seq<bool>, pending: string,
      mask: seq<bool>, redacting: bool, emitted: string)
  {
    && |drained| == |drainedMask| && |pending| == |mask|
    && HiddenMask(secrets, drained + pending) == drainedMask + mask
    && HeldBack(secrets, drained + pending, |pending|)
    && redacting == FlagAfter(drainedMask, false)
    && emitted == Render(drained, drainedMask, false)
  }

  /** The state before any text has been received. */
  lemma InitialState(secrets: seq<string>)
    requires forall j :: 0 <= j < |secrets| ==> secrets[j] != ""
    ensures StreamState(secrets, "", [], "", [], false, "")
  {
    NothingHeldAtFirst(secrets);
    assert "" + "" == "" && HiddenMask(secrets, "") == [] + [];
  }

  /** The pending mask, extended with nothing, reads as a bitmap over everything still to come. */
  lemma PendingMask(secrets: seq<string>, drained: string, drainedMask: seq<bool>, pending: string, mask: seq<bool>,
      x: nat)
    requires |drained| == |drainedMask| && |pending| == |mask|
    requires HiddenMask(secrets, drained + pending) == drainedMask + mask
    ensures Hidden(secrets, drained + pending, |drained| + x) <==> x < |mask| && mask[x]
  {
    if x < |mask| {
      assert (drainedMask + mask)[|drained| + x] == mask[x];
    }
  }

  /** The bitmap while matchers are scanned in turn: everything hidden before the chunk arrived, and
      everything the first j secrets hide in the whole text. */
  ghost predicate Bitmap(secrets: seq<string>, j: nat, before: string, full: string, base: nat, bitmap: seq<bool>)
    requires j <= |secrets|
  {
    forall x :: 0 <= x < |bitmap| ==>
      bitmap[x] == (Hidden(secrets, before, base + x) || Hidden(secrets[..j], full, base + x))
  }

  lemma BitmapAtFirst(secrets: seq<string>, before: string, full: string, base: nat, bitmap: seq<bool>)
    requires forall x :: 0 <= x < |bitmap| ==> bitmap[x] == Hidden(secrets, before, base + x)
    ensures Bitmap(secrets, 0, before, full, base, bitmap)
  {
  }

  lemma BitmapCovers(secrets: seq<string>, j: nat, before: string, full: string, base: nat, bitmap: seq<bool>)
    requires j < |secrets| && Bitmap(secrets, j, before, full, base, bitmap)
    ensures forall x :: 0 <= x < |bitmap| && HiddenBy(before, secrets[j], base + x) ==> bitmap[x]
  {
  }

  lemma BitmapNext(secrets: seq<string>, j: nat, before: string, full: string, base: nat, was: seq<bool>,
      now: seq<bool>)
    requires j < |secrets| && |was| == |now| && Bitmap(secrets, j, before, full, base, was)
    requires forall x :: 0 <= x < |now| ==> now[x] == (was[x] || HiddenBy(full, secrets[j], base + x))
    ensures Bitmap(secrets, j + 1, before, full, base, now)
  {
    forall x | 0 <= x < |now|
      ensures now[x] == (Hidden(secrets, before, base + x) || Hidden(secrets[..j + 1], full, base + x))
    {
      HiddenTakeNext(secrets, j, full, base + x);
    }
  }

  /** Once every matcher has been scanned the bitmap marks what the whole text hides. */
  lemma BitmapComplete(secrets: seq<string>, before: string, more: string, base: nat, bitmap: seq<bool>)
    requires Bitmap(secrets, |secrets|, before, before + more, base, bitmap)
    ensures forall x :: 0 <= x < |bitmap| ==> bitmap[x] == Hidden(secrets, before + more, base + x)
  {
    assert secrets[..|secrets|] == secrets;
    forall x | 0 <= x < |bitmap| ensures bitmap[x] == Hidden(secrets, before + more, base + x) {
      if Hidden(secrets, before, base + x) {
        HiddenGrows(secrets, before, more, base + x);
      }
    }
  }

  /** Positions in front of the held-back suffix are masked once and for all. */
  lemma DecidedMaskIsFinal(secrets: seq<string>, text: string, more: string, held: nat, i: nat)
    requires HeldBack(secrets, text, held) && i + held < |text|
    ensures Hidden(secrets, text + more, i) <==> Hidden(secrets, text, i)
  {
    forall j | 0 <= j < |secrets|
      ensures HiddenBy(text + more, secrets[j], i) <==> HiddenBy(text, secrets[j], i)
    {
      assert HeldAtMost(secrets[j], text, held);
      var m: nat :| m <= held && LongestEnd(secrets[j], text, |secrets[j]|, m);
      DecidedIsFinal(text, more, secrets[j], m, i);
    }
  }

  /** The mask of a longer text: the drained part stays, the rest is given position by position. */
  lemma MaskOfLongerText(secrets: seq<string>, drained: string, drainedMask: seq<bool>, pending: string,
      mask: seq<bool>, value: string, bitmap: seq<bool>)
    requires |drained| == |drainedMask| && |bitmap| == |pending + value|
    requires HiddenMask(secrets, drained + pending) == drainedMask + mask
    requires HeldBack(secrets, drained + pending, |pending|)
    requires forall x :: 0 <= x < |bitmap| ==> bitmap[x] == Hidden(secrets, (drained + pending) + value, |drained| + x)
    ensures HiddenMask(secrets, drained + (pending + value)) == drainedMask + bitmap
  {
    assert drained + (pending + value) == (drained + pending) + value;
    forall i | 0 <= i < |drained + (pending + value)|
      ensures Hidden(secrets, (drained + pending) + value, i) == (drainedMask + bitmap)[i]
    {
      if i < |drained| {
        DecidedMaskIsFinal(secrets, drained + pending, value, |pending|, i);
        assert (drainedMask + mask)[i] == drainedMask[i];
      } else {
        assert (drainedMask + bitmap)[i] == bitmap[i - |drained|];
      }
    }
  }

  /** Draining everything decided leads to the next stream state. */
  lemma DrainKeepsState(secrets: seq<string>, drained: string, drainedMask: seq<bool>, pending: string, mask: seq<bool>,
                        redacting: bool, emitted: string, held: string, bitmap: seq<bool>, n: nat)
    requires StreamState(secrets, drained, drainedMask, pending, mask, redacting, emitted)
    requires n <= |held| == |bitmap|
    requires HiddenMask(secrets, drained + held) == drainedMask + bitmap
    requires HeldBack(secrets, drained + held, |held| - n)
    ensures StreamState(secrets, drained + held[..n], drainedMask + bitmap[..n], held[n..], bitmap[n..],
                        FlagAfter(bitmap[..n], redacting), emitted + Render(held[..n], bitmap[..n], redacting))
  {
    SplitConcat(drained, held, n);
    SplitConcat(drainedMask, bitmap, n);
    RenderConcat(drained, drainedMask, held[..n], bitmap[..n], false);
    FlagConcat(drainedMask, bitmap[..n], false);
  }

  lemma SplitConcat<T>(a: seq<T>, b: seq<T>, n: nat)
    requires n <= |b|
    ensures (a + b[..n]) + b[n..] == a + b
  {
  }

  /** Draining what is left over at the end completes the redaction of the whole text. */
  lemma FinishCompletes(secrets: seq<string>, drained: string, drainedMask: seq<bool>, pending: string, mask: seq<bool>,
                        redacting: bool, emitted: string)
    requires StreamState(secrets, drained, drainedMask, pending, mask, redacting, emitted)
    ensures emitted + Render(pending, mask, redacting) == Redact(secrets, drained + pending)
  {
    RenderConcat(drained, drainedMask, pending, mask, false);
    RenderIsRedactRuns(drained + pending, drainedMask + mask, false);
  }

  /** What has been emitted is a prefix of the redaction of every continuation of the stream. */
  lemma EmittedIsPrefixOfEveryOutcome(secrets: seq<string>, drained: string, drainedMask: seq<bool>, pending: string,
                                      mask: seq<bool>, redacting: bool, emitted: string, more: string)
    requires StreamState(secrets, drained, drainedMask, pending, mask, redacting, emitted)
    ensures emitted <= Redact(secrets, drained + pending + more)
  {
    var held := pending + more;
    assert drained + pending + more == drained + held;
    var bitmap := HiddenMask(secrets, drained + held)[|drained|..];
    MaskOfLongerText(secrets, drained, drainedMask, pending, mask, more, bitmap);
    EmittedIsPrefix(drained, drainedMask, held, bitmap);
  }

  lemma EmittedIsPrefix(drained: string, drainedMask: seq<bool>, held: string, bitmap: seq<bool>)
    requires |drained| == |drainedMask| && |held| == |bitmap|
    ensures Render(drained, drainedMask, false) <= RedactRuns(drained + held, drainedMask + bitmap)
  {
    RenderConcat(drained, drainedMask, held, bitmap, false);
    RenderIsRedactRuns(drained + held, drainedMask + bitmap, false);
  }

  /** Holding back less would not do: if anything is pending, a continuation hides its first character. */
  lemma HeldBackIsNeeded(secrets: seq<string>, text: string, held: nat)
    requires HeldBack(secrets, text, held) && 0 < held <= |text|
    ensures exists more: string :: Hidden(secrets, text + more, |text| - held)
  {
    var j :| 0 <= j < |secrets| && LongestEnd(secrets[j], text, |secrets[j]|, held);
    HeldIsUndecided(secrets, text, j, held);
  }

  /** Without secrets nothing is ever held back or hidden, so text may be returned as it comes. */
  lemma NoSecretsPassThrough(drained: string, drainedMask: seq<bool>, pending: string, mask: seq<bool>,
                             redacting: bool, emitted: string, value: string)
    requires StreamState([], drained, drainedMask, pending, mask, redacting, emitted)
    ensures pending == "" && mask == []
    ensures StreamState([], drained + value, HiddenMask([], drained + value), "", [], redacting, emitted + value)
  {
    assert drained + "" == drained && drainedMask + [] == drainedMask;
    assert drained + value + "" == drained + value;
    assert HiddenMask([], drained + value) + [] == HiddenMask([], drained + value);
    NothingHidden(drained);
    NothingHidden(drained + value);
  }

  lemma NothingHidden(text: string)
    ensures Render(text, HiddenMask([], text), false) == text && !FlagAfter(HiddenMask([], text), false)
  {
    if text != "" {
      RenderOneRun(text, HiddenMask([], text), false);
    }
  }

  /** Empty and repeated secrets change nothing, in whatever order the rest are kept. */
  lemma SameSecretsSameRedaction(secrets: seq<string>, kept: seq<string>, text: string)
    requires forall s: string :: s in kept <==> s in secrets && s != ""
    ensures Redact(secrets, text) == Redact(kept, text)
  {
    forall i | 0 <= i < |text|
      ensures Hidden(secrets, text, i) <==> Hidden(kept, text, i)
    {
      if Hidden(secrets, text, i) {
        var j :| 0 <= j < |secrets| && HiddenBy(text, secrets[j], i);
        assert secrets[j] in kept;
        var k :| 0 <= k < |kept| && kept[k] == secrets[j];
        assert HiddenBy(text, kept[k], i);
      }
      if Hidden(kept, text, i) {
        var k :| 0 <= k < |kept| && HiddenBy(text, kept[k], i);
        assert kept[k] in secrets;
        var j :| 0 <= j < |secrets| && secrets[j] == kept[k];
        assert HiddenBy(text, secrets[j], i);
      }
    }
    assert HiddenMask(secrets, text) == HiddenMask(kept, text);
  }
}
