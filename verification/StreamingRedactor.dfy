/** electron/common/redact-secrets.ts: the streaming redactor itself, in place. */
module StreamingRedactor {
  import opened Options
  import opened SecretMatching
  import opened Redaction

  /** Fills the failure table of one secret, entry by entry. */
  method BuildFallback(value: string) returns (fallback: array<nat>)
    requires value != ""
    ensures fresh(fallback) && fallback.Length == |value|
    ensures IsBorderTable(value, fallback[..], |value|)
  {
    hide EndsWith;
    fallback := new nat[|value|](_ => 0);
    ghost var table := fallback[..];
    FirstBorder(value, table);
    var matched: nat := 0;
    for index := 1 to |value|
      invariant table == fallback[..]
      invariant IsBorderTable(value, table, index)
      invariant matched == table[index - 1]
    {
      assert LongestEnd(value, value[..(index - 1) + 1], index, matched);
      hide LongestEnd, IsBorderTable;
      while matched > 0 && value[index] != value[matched]
        invariant table == fallback[..]
        invariant Viable(value, value[..index], value[index], index, matched)
        decreases matched
      {
        FollowTable(value, table, index, value[..index], value[index], index, matched);
        matched := fallback[matched - 1];
      }
      ExtendTable(value, table, index, matched);
      if value[index] == value[matched] {
        matched := matched + 1;
      }
      fallback[index] := matched;
      table := table[index := matched];
    }
  }

  /** One secret, its failure table, and how much of the secret the text read so far ends with. */
  class SecretMatcher {
    const value: string
    const fallback: seq<nat>
    var matched: nat
    /** Failure links followed since this matcher was built. */
    ghost var links: nat

    ghost predicate Built() {
      value != "" && IsBorderTable(value, fallback, |value|)
    }

    /** The automaton invariant after reading `text`. */
    ghost predicate Tracks(text: string)
      reads this
    {
      Built() && LongestEnd(value, text, |value|, matched)
    }

    constructor (value: string)
      requires value != ""
      ensures this.value == value && Tracks("") && links == matched == 0
    {
      var table := BuildFallback(value);
      this.value := value;
      this.fallback := table[..];
      this.matched := 0;
      this.links := 0;
    }

    /** Reads one more character. Every failure link is paid for by a character read before it. */
    method Feed(c: char, ghost text: string) returns (complete: bool)
      requires Tracks(text)
      modifies this
      ensures Tracks(text + [c])
      ensures complete <==> EndsWith(text + [c], value)
      ensures links + matched <= old(links + matched) + 1 && matched <= old(matched) + 1
    {
      while matched > 0 && c != value[matched]
        invariant Built() && Viable(value, text, c, |value|, matched)
        invariant links + matched <= old(links + matched) && matched <= old(matched)
        decreases matched
      {
        FollowTable(value, fallback, |value|, text, c, |value|, matched);
        links := links + 1;
        matched := fallback[matched - 1];
      }
      ReadCharacter(value, text, c, |value|, matched);
      if c == value[matched] {
        matched := matched + 1;
      }
      complete := matched == |value|;
      assert value[..|value|] == value;
      if complete {
        AfterCompleteMatch(value, fallback, text + [c]);
        links := links + 1;
        matched := fallback[matched - 1];
      }
    }

    /** Reads a whole chunk, marking in `mask` every occurrence completed on the way. Mask entry x
        stands for position base + x of the stream; its first part is the held-back buffer. */
    method Scan(chunk: string, mask: array<bool>, ghost text: string, ghost base: nat)
      requires Tracks(text) && matched <= mask.Length - |chunk|
      requires mask.Length == |text| - base + |chunk|
      requires forall x :: 0 <= x < mask.Length && HiddenBy(text, value, base + x) ==> mask[x]
      modifies this, mask
      ensures Tracks(text + chunk)
      ensures links + matched <= old(links + matched) + |chunk| && matched <= old(matched) + |chunk|
      ensures forall x :: 0 <= x < mask.Length ==> mask[x] == (old(mask[x]) || HiddenBy(text + chunk, value, base + x))
    {
      hide LongestEnd, EndsWith, HiddenBy;
      ghost var held := matched;
      assert text + chunk[..0] == text;
      for index := 0 to |chunk|
        invariant Tracks(text + chunk[..index])
        invariant links + matched <= old(links + matched) + index && matched <= held + index
        invariant forall x :: 0 <= x < mask.Length ==>
          mask[x] == (old(mask[x]) || HiddenBy(text + chunk[..index], value, base + x))
      {
        var c := chunk[index];
        ghost var read := text + chunk[..index];
        var complete := Feed(c, read);
        assert read + [c] == text + chunk[..index + 1];
        ghost var before := mask[..];
        if complete {
          var end := mask.Length - |chunk| + index + 1;
          LateMatchFits(text, chunk[..index + 1], value, held);
          forall x | end - |value| <= x < end {
            mask[x] := true;
          }
        }
        forall x | 0 <= x < mask.Length
          ensures mask[x] == (before[x] || (complete && |read| + 1 - |value| <= base + x <= |read|))
          ensures mask[x] == (old(mask[x]) || HiddenBy(read + [c], value, base + x))
        {
          HiddenBySnoc(read, c, value, base + x);
        }
      }
      assert chunk[..|chunk|] == chunk;
    }

    /** Forgets the text read so far. */
    method Reset()
      requires Built()
      modifies this
      ensures Tracks("")
      ensures links == old(links) && matched == 0
    {
      matched := 0;
    }
  }

  /** A match completed by new text starts within what the matcher had already matched of it. */
  lemma LateMatchFits(text: string, chunk: string, secret: string, held: nat)
    requires LongestEnd(secret, text, |secret|, held)
    requires chunk != "" && EndsWith(text + chunk, secret)
    ensures |secret| <= held + |chunk|
  {
    var start: nat := |text + chunk| - |secret|;
    assert (text + chunk)[start..start + |secret|] == (text + chunk)[start..];
    LateOccurrenceIsHeld(text, chunk, secret, held, start);
  }

  /** The secrets that get a matcher: non-empty, first occurrences only. */
  function Distinct(secrets: seq<string>): (kept: seq<string>)
    ensures forall s: string :: s in kept <==> s in secrets && s != ""
    ensures forall i, j :: 0 <= i < j < |kept| ==> kept[i] != kept[j]
  {
    if secrets == [] then [] else
      var n := |secrets| - 1;
      var kept := Distinct(secrets[..n]);
      assert forall s: string :: s in secrets <==> s in secrets[..n] || s == secrets[n];
      if secrets[n] == "" || secrets[n] in kept then kept else kept + [secrets[n]]
  }

  method ArrayOf(bits: seq<bool>) returns (a: array<bool>)
    ensures fresh(a) && a[..] == bits
  {
    a := new bool[|bits|](i requires 0 <= i < |bits| => bits[i]);
  }

  method BuildMatchers(values: seq<string>) returns (built: seq<SecretMatcher>)
    requires "" !in values
    ensures fresh(built) && |built| == |values|
    ensures forall i :: 0 <= i < |built| ==>
      built[i].value == values[i] && built[i].Tracks("") && built[i].links == built[i].matched == 0
    ensures forall i, k :: 0 <= i < k < |built| ==> built[i] != built[k]
  {
    hide LongestEnd;
    built := [];
    for j := 0 to |values|
      invariant |built| == j && fresh(built)
      invariant forall i :: 0 <= i < j ==>
        built[i].value == values[i] && built[i].Tracks("") && built[i].links == built[i].matched == 0
      invariant forall i, k :: 0 <= i < k < j ==> built[i] != built[k]
    {
      assert values[j] in values;
      var m := new SecretMatcher(values[j]);
      built := built + [m];
    }
  }

  class StreamingSecretRedactor {
    const matchers: seq<SecretMatcher>
    var pending: string
    var masked: array<bool>
    var redacting: bool

    /** The secrets the matchers were built from. */
    ghost const secrets: seq<string>
    /** Text received and text returned since construction or the last Finish. */
    ghost var consumed: string
    ghost var drained: string
    ghost var drainedMask: seq<bool>
    ghost var emitted: string
    /** Characters received over the whole life of the object. */
    ghost var fed: nat

    /** A matcher of its own for every secret, and no more links followed than `bound` characters pay for. */
    ghost predicate Wired(bound: nat)
      reads matchers
    {
      && |matchers| == |secrets|
      && (forall j :: 0 <= j < |secrets| ==> matchers[j].value == secrets[j])
      && (forall i, j :: 0 <= i < j < |matchers| ==> matchers[i] != matchers[j])
      && (forall j :: 0 <= j < |matchers| ==> matchers[j].Built() && matchers[j].links + matchers[j].matched <= bound)
    }

    ghost predicate AllTrack(text: string)
      reads matchers
    {
      forall j :: 0 <= j < |matchers| ==> matchers[j].Tracks(text)
    }

    /** The output side: of `text` the first part has gone out, the rest is pending under its mask. */
    ghost predicate Buffered(text: string)
      reads this`pending, this`masked, this`redacting, this`drained, this`drainedMask, this`emitted, masked
    {
      && text == drained + pending && masked.Length == |pending|
      && StreamState(secrets, drained, drainedMask, pending, masked[..], redacting, emitted)
    }

    /** What was drained and what is held now make up `text`; its mask is known and `retained` characters
        must stay. */
    ghost predicate Decided(text: string, held: string, bitmap: array<bool>, retained: nat)
      reads this`drained, this`drainedMask, bitmap
    {
      && text == drained + held && retained <= |held| == bitmap.Length
      && HiddenMask(secrets, text) == drainedMask + bitmap[..]
      && HeldBack(secrets, text, retained)
    }

    ghost predicate Valid()
      reads this, matchers, masked
    {
      Wired(fed) && AllTrack(consumed) && Buffered(consumed)
    }

    constructor (secrets: seq<string>)
      ensures Valid() && fresh(matchers) && fresh(masked)
      ensures this.secrets == Distinct(secrets)
      ensures consumed == "" && emitted == "" && fed == 0
    {
      hide StreamState, SecretMatcher.Tracks;
      var values := Distinct(secrets);
      var built := BuildMatchers(values);
      this.matchers := built;
      this.pending := "";
      this.masked := new bool[0];
      this.redacting := false;
      this.secrets := values;
      this.consumed, this.drained, this.drainedMask, this.emitted, this.fed := "", "", [], "", 0;
      new;
      InitialMatchers(values);
      InitialState(values);
      hide Wired, AllTrack;
      assert masked[..] == [];
    }

    lemma InitialMatchers(values: seq<string>)
      requires secrets == values && "" !in values && |matchers| == |values|
      requires forall j :: 0 <= j < |values| ==> matchers[j].value == values[j] && matchers[j].Tracks("")
      requires forall j :: 0 <= j < |values| ==> matchers[j].links == matchers[j].matched == 0
      requires forall i, j :: 0 <= i < j < |matchers| ==> matchers[i] != matchers[j]
      ensures Wired(0) && AllTrack("") && forall j :: 0 <= j < |values| ==> values[j] != ""
    {
      assert forall j :: 0 <= j < |values| ==> values[j] in values && values[j] != "";
    }

    /** Renders and drops the first `length` held-back characters. */
    method Drain(length: nat) returns (output: string)
      requires length <= |pending| == masked.Length
      modifies this`pending, this`masked, this`redacting
      ensures output == Render(old(pending)[..length], old(masked[..])[..length], old(redacting))
      ensures redacting == FlagAfter(old(masked[..])[..length], old(redacting))
      ensures pending == old(pending)[length..]
      ensures fresh(masked) && masked[..] == old(masked[..])[length..]
    {
      hide Drained, Render, FlagAfter;
      output := "";
      var plainStart := 0;
      ghost var text, mask, before := pending, masked[..], redacting;
      DrainedNothing(text, mask, before);
      for index := 0 to length
        invariant pending == text && masked == old(masked) && masked[..] == mask
        invariant plainStart <= index
        invariant Drained(text, mask, before, index, plainStart, output, redacting)
      {
        if masked[index] {
          DrainedHidden(text, mask, before, index, plainStart, output, redacting);
          if plainStart < index {
            output := output + pending[plainStart..index];
          } else {
            assert output + text[plainStart..index] == output;
          }
          assert redacting ==> output + "" == output;
          if !redacting {
            output := output + MARK;
          }
          redacting := true;
          plainStart := index + 1;
        } else {
          DrainedPlain(text, mask, before, index, plainStart, output, redacting);
          redacting := false;
        }
      }
      DrainedAll(text, mask, before, length, plainStart, output, redacting);
      if plainStart < length {
        output := output + pending[plainStart..length];
      }
      pending := pending[length..];
      masked := ArrayOf(masked[length..]);
    }

    /** Feeds one chunk to every matcher in turn; the longest match left over must be retained. */
    method ScanAll(value: string, bitmap: array<bool>, ghost before: string, ghost base: nat) returns (retained: nat)
      requires Wired(fed) && base <= |before| && bitmap.Length == |before| - base + |value|
      requires AllTrack(before) && forall j :: 0 <= j < |matchers| ==> matchers[j].matched <= |before| - base
      requires forall x :: 0 <= x < bitmap.Length ==> bitmap[x] == Hidden(secrets, before, base + x)
      modifies matchers, bitmap
      ensures Wired(fed + |value|) && AllTrack(before + value) && retained <= bitmap.Length
      ensures HeldBack(secrets, before + value, retained)
      ensures forall x :: 0 <= x < bitmap.Length ==> bitmap[x] == Hidden(secrets, before + value, base + x)
    {
      hide HeldBack, Hidden, HiddenBy, Bitmap, LongestEnd;
      ghost var full := before + value;
      retained := 0;
      NoSecretsHoldNothing(secrets, full);
      BitmapAtFirst(secrets, before, full, base, bitmap[..]);
      for j := 0 to |matchers|
        invariant retained <= bitmap.Length && HeldBack(secrets[..j], full, retained)
        invariant forall k :: 0 <= k < |matchers| ==> matchers[k].Tracks(if k < j then full else before)
        invariant forall k :: j <= k < |matchers| ==> matchers[k].matched <= |before| - base
        invariant forall k :: 0 <= k < |matchers| ==>
          matchers[k].links + matchers[k].matched <= fed + (if k < j then |value| else 0)
        invariant Bitmap(secrets, j, before, full, base, bitmap[..])
      {
        ghost var was := bitmap[..];
        BitmapCovers(secrets, j, before, full, base, was);
        matchers[j].Scan(value, bitmap, before, base);
        BitmapNext(secrets, j, before, full, base, was, bitmap[..]);
        HeldBackTakeNext(secrets, j, full, retained, matchers[j].matched);
        retained := if retained < matchers[j].matched then matchers[j].matched else retained;
      }
      assert secrets[..|secrets|] == secrets;
      BitmapComplete(secrets, before, value, base, bitmap[..]);
    }

    /** All but what must be held back goes out. */
    method DrainDecided(held: string, bitmap: array<bool>, retained: nat, ghost before: string, ghost text: string)
        returns (output: string)
      requires Buffered(before) && Decided(text, held, bitmap, retained)
      modifies this`pending, this`masked, this`redacting, this`drained, this`drainedMask, this`emitted
      ensures Buffered(text) && emitted == old(emitted) + output && fresh(masked)
    {
      hide HiddenMask, HeldBack, Render, FlagAfter, StreamState;
      ghost var mask, n := bitmap[..], |held| - retained;
      SplitConcat(drained, held, n);
      DrainKeepsState(secrets, drained, drainedMask, pending, masked[..], redacting, emitted, held, mask, n);
      pending, masked := held, bitmap;
      output := Drain(|held| - retained);
      drained, drainedMask, emitted := drained + held[..n], drainedMask + mask[..n], emitted + output;
    }

    /** Returns text that no continuation can change, and holds back exactly the rest. */
    method Append(value: string) returns (output: string)
      requires Valid()
      modifies this`pending, this`masked, this`redacting, this`consumed, this`drained, this`drainedMask, this`emitted,
          this`fed, matchers
      ensures Valid() && fresh({masked} - {old(masked)})
      ensures consumed == old(consumed) + value
      ensures emitted == old(emitted) + output
      ensures fed == old(fed) + |value|
    {
      hide Buffered, Decided, Wired, AllTrack;
      if |matchers| == 0 {
        output := PassThrough(value);
      } else {
        var bitmap, retained := MaskChunk(value);
        output := DrainDecided(pending + value, bitmap, retained, consumed, consumed + value);
        consumed, fed := consumed + value, fed + |value|;
      }
    }

    lemma PassesThrough(value: string)
      requires Valid() && |matchers| == 0
      ensures secrets == [] && pending == "" && masked[..] == [] && drained == consumed
      ensures StreamState([], drained + value, HiddenMask([], drained + value), "", [], redacting, emitted + value)
      ensures drained + value + "" == drained + value
      ensures Wired(fed + |value|) && AllTrack(consumed + value)
    {
      assert secrets == [];
      NoSecretsPassThrough(drained, drainedMask, pending, masked[..], redacting, emitted, value);
      hide StreamState, HiddenMask;
      assert drained + "" == drained;
    }

    /** Without a secret the chunk goes out as it came. */
    method PassThrough(value: string) returns (output: string)
      requires Valid() && |matchers| == 0
      modifies this`consumed, this`drained, this`drainedMask, this`emitted, this`fed
      ensures Valid() && output == value
      ensures consumed == old(consumed) + value
      ensures emitted == old(emitted) + output
      ensures fed == old(fed) + |value|
    {
      PassesThrough(value);
      hide Wired, AllTrack, HiddenMask, StreamState;
      assert pending == "" && masked[..] == [];
      consumed, emitted, fed, output := consumed + value, emitted + value, fed + |value|, value;
      drained, drainedMask := drained + value, HiddenMask([], drained + value);
    }

    /** Carries the mask over to a longer buffer and lets every matcher add what it completes. */
    method MaskChunk(value: string) returns (bitmap: array<bool>, retained: nat)
      requires Valid()
      modifies matchers
      ensures Wired(fed + |value|) && AllTrack(consumed + value)
      ensures fresh(bitmap) && Decided(consumed + value, pending + value, bitmap, retained)
    {
      hide HeldBack, Render, FlagAfter, LongestEnd, Hidden, HiddenMask;
      MatchedWithinHeld();
      var was := masked[..];
      bitmap := new bool[|pending + value|](i requires 0 <= i => i < |was| && was[i]);
      forall x | 0 <= x < bitmap.Length ensures bitmap[x] == Hidden(secrets, consumed, |drained| + x) {
        PendingMask(secrets, drained, drainedMask, pending, was, x);
      }
      retained := ScanAll(value, bitmap, consumed, |drained|);
      MaskOfLongerText(secrets, drained, drainedMask, pending, was, value, bitmap[..]);
      SplitConcat(drained, pending + value, |pending|);
    }

    lemma SecretsHaveText()
      requires Wired(fed)
      ensures forall j :: 0 <= j < |secrets| ==> secrets[j] != ""
    {
    }

    lemma MatchedWithinHeld()
      requires Valid()
      ensures forall j :: 0 <= j < |matchers| ==> matchers[j].matched <= |pending|
    {
      forall j | 0 <= j < |matchers| ensures matchers[j].matched <= |pending| {
        assert HeldAtMost(secrets[j], consumed, |pending|);
        var m: nat :| m <= |pending| && LongestEnd(secrets[j], consumed, |secrets[j]|, m);
        LongestEndIsUnique(secrets[j], consumed, |secrets[j]|, m, matchers[j].matched);
      }
    }

    method ResetAll()
      requires Wired(fed)
      modifies matchers
      ensures Wired(fed) && AllTrack("")
    {
      for j := 0 to |matchers|
        invariant Wired(fed)
        invariant forall k :: 0 <= k < j ==> matchers[k].Tracks("")
      {
        matchers[j].Reset();
      }
    }

    /** The rest goes out, and the buffer is as new. */
    method DrainRest() returns (output: string)
      requires Buffered(consumed) && forall j :: 0 <= j < |secrets| ==> secrets[j] != ""
      modifies this`pending, this`masked, this`redacting, this`drained, this`drainedMask, this`emitted
      ensures Buffered("") && emitted == "" && fresh(masked)
      ensures old(emitted) + output == Redact(secrets, consumed)
    {
      hide HiddenMask, HeldBack, Render, FlagAfter, Redact, StreamState;
      FinishCompletes(secrets, drained, drainedMask, pending, masked[..], redacting, emitted);
      InitialState(secrets);
      assert pending[..|pending|] == pending && masked[..][..|pending|] == masked[..];
      output := Drain(|pending|);
      redacting, drained, drainedMask, emitted := false, "", [], "";
      assert masked[..] == [];
    }

    /** Flushes the rest; with what was emitted before it is the redaction of the whole stream. */
    method Finish() returns (result: string)
      requires Valid()
      modifies this`pending, this`masked, this`redacting, this`consumed, this`drained, this`drainedMask, this`emitted,
          matchers
      ensures Valid() && fresh({masked} - {old(masked)})
      ensures old(emitted) + result == Redact(secrets, old(consumed))
      ensures consumed == "" && emitted == ""
    {
      hide Redact, Wired, AllTrack, Buffered;
      SecretsHaveText();
      ResetAll();
      result := DrainRest();
      consumed := "";
    }
  }

  /** redactTextSecrets: one append and one finish. */
  method RedactTextSecrets(value: string, secrets: seq<string>) returns (result: string)
    ensures result == Redact(secrets, value)
  {
    var redactor := new StreamingSecretRedactor(secrets);
    var first := redactor.Append(value);
    assert "" + value == value && "" + first == first;
    var rest := redactor.Finish();
    result := first + rest;
    SameSecretsSameRedaction(secrets, redactor.secrets, value);
  }

  function Concat(chunks: seq<string>): string {
    if chunks == [] then "" else Concat(chunks[..|chunks| - 1]) + chunks[|chunks| - 1]
  }

  /** A stream cut into chunks in any way whatever comes out as the redaction of the whole. */
  method RedactStream(chunks: seq<string>, secrets: seq<string>) returns (result: string)
    ensures result == Redact(secrets, Concat(chunks))
  {
    hide StreamingSecretRedactor.Valid, Redact;
    var redactor := new StreamingSecretRedactor(secrets);
    result := "";
    for i := 0 to |chunks|
      invariant redactor.Valid() && fresh(redactor) && fresh(redactor.matchers) && fresh(redactor.masked)
      invariant redactor.secrets == Distinct(secrets)
      invariant redactor.consumed == Concat(chunks[..i]) && redactor.emitted == result
    {
      var output := redactor.Append(chunks[i]);
      assert chunks[..i + 1][..i] == chunks[..i];
      result := result + output;
    }
    assert chunks[..|chunks|] == chunks;
    var rest := redactor.Finish();
    result := result + rest;
    SameSecretsSameRedaction(secrets, redactor.secrets, Concat(chunks));
  }

  /** A JSON value; numbers and literals carry no text of their own. */
  datatype Json =
    | Null
    | Bool(b: bool)
    | Number(n: real)
    | Text(text: string)
    | Array(items: seq<Json>)
    | Object(members: seq<(string, Json)>)

  /** Every string value redacted on its own; keys and everything else unchanged. */
  ghost function RedactedJson(value: Json, secrets: seq<string>): Json {
    match value
    case Text(text) => Text(Redact(secrets, text))
    case Array(items) => Array(seq(|items|, i requires 0 <= i < |items| => RedactedJson(items[i], secrets)))
    case Object(members) =>
      Object(seq(|members|, i requires 0 <= i < |members| => (members[i].0, RedactedJson(members[i].1, secrets))))
    case _ => value
  }

  /** The value at a path of item and member numbers, one for each level. */
  function At(value: Json, path: seq<nat>): Option<Json>
    decreases |path|
  {
    if path == [] then Some(value)
    else match value
      case Array(items) => if path[0] < |items| then At(items[path[0]], path[1..]) else None
      case Object(members) => if path[0] < |members| then At(members[path[0]].1, path[1..]) else None
      case _ => None
  }

  /** A value and what a caller gets for it at the same place: the same kind, as many items, the same keys in the
      same order, a string redacted on its own, and every other leaf as it was. */
  ghost predicate RedactedInPlace(before: Option<Json>, after: Option<Json>, secrets: seq<string>) {
    match before
    case None => after.None?
    case Some(Text(text)) => after == Some(Text(Redact(secrets, text)))
    case Some(Array(items)) => after.Some? && after.value.Array? && |after.value.items| == |items|
    case Some(Object(members)) =>
      && after.Some? && after.value.Object? && |after.value.members| == |members|
      && forall k :: 0 <= k < |members| ==> after.value.members[k].0 == members[k].0
    case Some(leaf) => after == Some(leaf)
  }

  lemma {:induction false} RedactedEverywhere(value: Json, secrets: seq<string>, path: seq<nat>)
    ensures RedactedInPlace(At(value, path), At(RedactedJson(value, secrets), path), secrets)
    decreases |path|
  {
    hide Redact;
    if path != [] {
      match value
      case Array(items) =>
        if path[0] < |items| {
          RedactedEverywhere(items[path[0]], secrets, path[1..]);
        }
      case Object(members) =>
        if path[0] < |members| {
          RedactedEverywhere(members[path[0]].1, secrets, path[1..]);
        }
      case _ =>
    }
  }

  /** The recursive visitor: one redactor serves every string, since Finish leaves it as new. */
  method Visit(redactor: StreamingSecretRedactor, value: Json) returns (result: Json)
    requires redactor.Valid() && redactor.consumed == "" && redactor.emitted == ""
    modifies redactor, redactor.matchers
    ensures redactor.Valid() && fresh({redactor.masked} - {old(redactor.masked)})
    ensures redactor.consumed == "" && redactor.emitted == ""
    ensures result == RedactedJson(value, redactor.secrets)
    decreases value
  {
    hide StreamingSecretRedactor.Valid, Redact;
    match value
    case Text(text) =>
      var first := redactor.Append(text);
      assert "" + text == text && "" + first == first;
      var rest := redactor.Finish();
      result := Text(first + rest);
    case Array(items) =>
      var visited: seq<Json> := [];
      for i := 0 to |items|
        invariant redactor.Valid() && fresh({redactor.masked} - {old(redactor.masked)})
        invariant redactor.consumed == "" && redactor.emitted == ""
        invariant |visited| == i && forall k :: 0 <= k < i ==> visited[k] == RedactedJson(items[k], redactor.secrets)
      {
        var item := Visit(redactor, items[i]);
        visited := visited + [item];
      }
      result := Array(visited);
    case Object(members) =>
      var visited: seq<(string, Json)> := [];
      for i := 0 to |members|
        invariant redactor.Valid() && fresh({redactor.masked} - {old(redactor.masked)})
        invariant redactor.consumed == "" && redactor.emitted == ""
        invariant |visited| == i
        invariant forall k :: 0 <= k < i ==> visited[k] == (members[k].0, RedactedJson(members[k].1, redactor.secrets))
      {
        var item := Visit(redactor, members[i].1);
        visited := visited + [(members[i].0, item)];
      }
      result := Object(visited);
    case _ =>
      result := value;
  }

  /** redactJsonSecrets: text never matches across the boundary of two strings. */
  method RedactJsonSecrets(value: Json, secrets: seq<string>) returns (result: Json)
    ensures result == RedactedJson(value, secrets)
    ensures forall path :: RedactedInPlace(At(value, path), At(result, path), secrets)
  {
    hide StreamingSecretRedactor.Valid, RedactedJson, RedactedInPlace;
    var redactor := new StreamingSecretRedactor(secrets);
    result := Visit(redactor, value);
    SameSecretsSameJson(value, secrets, redactor.secrets);
    forall path ensures RedactedInPlace(At(value, path), At(result, path), secrets) {
      RedactedEverywhere(value, secrets, path);
    }
  }

  lemma {:induction false} SameSecretsSameJson(value: Json, secrets: seq<string>, kept: seq<string>)
    requires forall s: string :: s in kept <==> s in secrets && s != ""
    ensures RedactedJson(value, secrets) == RedactedJson(value, kept)
    decreases value
  {
    hide Redact;
    match value
    case Text(text) => SameSecretsSameRedaction(secrets, kept, text);
    case Array(items) =>
      forall i | 0 <= i < |items| ensures RedactedJson(items[i], secrets) == RedactedJson(items[i], kept) {
        SameSecretsSameJson(items[i], secrets, kept);
      }
    case Object(members) =>
      forall i | 0 <= i < |members| ensures RedactedJson(members[i].1, secrets) == RedactedJson(members[i].1, kept) {
        SameSecretsSameJson(members[i].1, secrets, kept);
      }
    case _ =>
  }
}
