/** Literal matching: what it means for a position to be hidden, and the facts about
    prefixes that make the Knuth-Morris-Pratt automaton of redact-secrets.ts correct. */
module SecretMatching {

  predicate EndsWith(text: string, tail: string) {
    |tail| <= |text| && text[|text| - |tail|..] == tail
  }

  predicate OccursAt(text: string, secret: string, start: nat) {
    start + |secret| <= |text| && text[start..start + |secret|] == secret
  }

  /** Some occurrence of `secret` in `text` covers position `i`. */
  ghost predicate HiddenBy(text: string, secret: string, i: nat) {
    exists start: nat :: start <= i < start + |secret| && OccursAt(text, secret, start)
  }

  /** Some occurrence of one of the secrets covers position `i`; an empty secret covers nothing. */
  ghost predicate Hidden(secrets: seq<string>, text: string, i: nat) {
    exists j :: 0 <= j < |secrets| && HiddenBy(text, secrets[j], i)
  }

  /** `m` is the greatest length below `bound` for which the prefix p[..m] ends `text`.
      With text == p[..bound] this is the longest proper border of that prefix; with
      bound == |p| it is the state of the automaton after reading `text`. */
  ghost predicate LongestEnd(p: string, text: string, bound: nat, m: nat) {
    && m < bound <= |p|
    && EndsWith(text, p[..m])
    && forall k :: m < k < bound ==> !EndsWith(text, p[..k])
  }

  /** The table a matcher is built with: entry i is the longest proper border of p[..i + 1]. */
  ghost predicate IsBorderTable(p: string, table: seq<nat>, upto: nat) {
    && upto <= |p| <= |table|
    && forall i :: 0 <= i < upto ==> LongestEnd(p, p[..i + 1], i + 1, table[i])
  }

  lemma LongestEndIsUnique(p: string, text: string, bound: nat, m: nat, n: nat)
    requires LongestEnd(p, text, bound, m) && LongestEnd(p, text, bound, n)
    ensures m == n
  {
  }

  lemma StateBeforeText(p: string)
    requires p != ""
    ensures LongestEnd(p, "", |p|, 0)
  {
    assert p[..0] == "";
  }

  /** An end of an end is an end, and of two ends the shorter ends the longer. */
  lemma EndsNest(text: string, longer: string, shorter: string)
    requires EndsWith(text, longer) && |shorter| <= |longer|
    ensures EndsWith(text, shorter) <==> EndsWith(longer, shorter)
  {
    var cut := |longer| - |shorter|;
    assert longer[cut..] == text[|text| - |longer|..][cut..] == text[|text| - |shorter|..];
  }

  /** Following one failure link from m to its border loses no candidate except m itself. */
  lemma FollowLink(p: string, text: string, m: nat, border: nat)
    requires 0 < m <= |p| && EndsWith(text, p[..m])
    requires LongestEnd(p, p[..m], m, border)
    ensures EndsWith(text, p[..border])
    ensures forall k :: border < k < m ==> !EndsWith(text, p[..k])
  {
    EndsNest(text, p[..m], p[..border]);
    forall k | border < k < m ensures !EndsWith(text, p[..k]) {
      EndsNest(text, p[..m], p[..k]);
    }
  }

  lemma EndsWithSnoc(text: string, c: char, p: string, k: nat)
    requires k < |p|
    ensures EndsWith(text + [c], p[..k + 1]) <==> EndsWith(text, p[..k]) && p[k] == c
  {
    if k <= |text| {
      var tail := (text + [c])[|text| - k..];
      assert tail == text[|text| - k..] + [c];
      assert p[..k + 1] == p[..k] + [p[k]];
      if tail == p[..k + 1] {
        assert text[|text| - k..] == tail[..k] == p[..k];
        assert tail[k] == c;
      }
    }
  }

  /** The loop invariant of both matching loops: p[..m] ends `text`, and no longer candidate
      below `bound` can be continued by `c`. */
  ghost predicate Viable(p: string, text: string, c: char, bound: nat, m: nat) {
    && m < bound <= |p|
    && EndsWith(text, p[..m])
    && forall k :: m < k < bound && EndsWith(text, p[..k]) ==> p[k] != c
  }

  /** A link stored in the filled part of the table leads to the next viable candidate. */
  lemma FollowTable(p: string, table: seq<nat>, upto: nat, text: string, c: char, bound: nat, m: nat)
    requires IsBorderTable(p, table, upto) && 0 < m <= upto
    requires Viable(p, text, c, bound, m) && p[m] != c
    ensures table[m - 1] < m && Viable(p, text, c, bound, table[m - 1])
  {
    assert LongestEnd(p, p[..(m - 1) + 1], (m - 1) + 1, table[m - 1]);
    FollowLink(p, text, m, table[m - 1]);
  }

  /** Reading one character once every candidate above m has been ruled out. */
  lemma ReadCharacter(p: string, text: string, c: char, bound: nat, m: nat)
    requires Viable(p, text, c, bound, m)
    requires m == 0 || p[m] == c
    ensures var next := if p[m] == c then m + 1 else m;
            && EndsWith(text + [c], p[..next])
            && forall k :: next < k <= bound ==> !EndsWith(text + [c], p[..k])
  {
    var next := if p[m] == c then m + 1 else m;
    EndsWithSnoc(text, c, p, m);
    forall k | next < k <= bound ensures !EndsWith(text + [c], p[..k]) {
      EndsWithSnoc(text, c, p, k - 1);
    }
  }

  /** Once the whole secret has been matched, its last link is the state to continue from. */
  lemma AfterCompleteMatch(p: string, table: seq<nat>, text: string)
    requires p != "" && IsBorderTable(p, table, |p|)
    requires EndsWith(text, p)
    ensures LongestEnd(p, text, |p|, table[|p| - 1])
  {
    assert p[..|p|] == p && LongestEnd(p, p[..(|p| - 1) + 1], (|p| - 1) + 1, table[|p| - 1]);
    FollowLink(p, text, |p|, table[|p| - 1]);
  }

  /** A single character has only the empty border. */
  lemma FirstBorder(p: string, table: seq<nat>)
    requires p != "" && |table| == |p| && table[0] == 0
    ensures IsBorderTable(p, table, 1)
  {
    assert p[..1][..0] == "";
  }

  /** The next table entry is what one more character of the secret itself leads to. */
  lemma ExtendTable(p: string, table: seq<nat>, index: nat, m: nat)
    requires 0 < index < |p| && IsBorderTable(p, table, index)
    requires Viable(p, p[..index], p[index], index, m)
    requires m == 0 || p[m] == p[index]
    ensures IsBorderTable(p, table[index := if p[m] == p[index] then m + 1 else m], index + 1)
  {
    var next := if p[m] == p[index] then m + 1 else m;
    assert LongestEnd(p, p[..index + 1], index + 1, next) by {
      ReadCharacter(p, p[..index], p[index], index, m);
      assert p[..index] + [p[index]] == p[..index + 1];
    }
    hide LongestEnd, Viable;
    var longer := table[index := next];
    forall i | 0 <= i < index + 1 ensures LongestEnd(p, p[..i + 1], i + 1, longer[i]) {
      assert i < index ==> longer[i] == table[i];
    }
  }

  /** One more character hides exactly the positions of the occurrence it completes. */
  lemma HiddenBySnoc(text: string, c: char, secret: string, i: nat)
    ensures HiddenBy(text + [c], secret, i) <==>
            HiddenBy(text, secret, i) ||
            (EndsWith(text + [c], secret) && |text| + 1 - |secret| <= i <= |text|)
  {
    var longer := text + [c];
    if HiddenBy(longer, secret, i) {
      var start: nat :| start <= i < start + |secret| && OccursAt(longer, secret, start);
      if start + |secret| <= |text| {
        assert longer[start..start + |secret|] == text[start..start + |secret|];
        assert OccursAt(text, secret, start);
      } else {
        assert longer[start..start + |secret|] == longer[|longer| - |secret|..];
      }
    }
    if HiddenBy(text, secret, i) {
      var start: nat :| start <= i < start + |secret| && OccursAt(text, secret, start);
      assert longer[start..start + |secret|] == text[start..start + |secret|];
      assert OccursAt(longer, secret, start);
    }
    if EndsWith(longer, secret) && |text| + 1 - |secret| <= i <= |text| {
      var start: nat := |longer| - |secret|;
      assert longer[start..start + |secret|] == longer[|longer| - |secret|..];
      assert OccursAt(longer, secret, start);
    }
  }

  /** An occurrence that ends beyond `text` starts inside the part the automaton still holds. */
  lemma LateOccurrenceIsHeld(text: string, more: string, secret: string, m: nat, start: nat)
    requires LongestEnd(secret, text, |secret|, m)
    requires OccursAt(text + more, secret, start) && start + |secret| > |text|
    ensures start >= |text| - m
  {
    if start < |text| {
      var k := |text| - start;
      assert (text + more)[start..start + |secret|][..k] == text[start..];
      assert EndsWith(text, secret[..k]);
    }
  }

  /** A position in front of everything held back is decided: no continuation hides it later
      and none reveals it again. */
  lemma DecidedIsFinal(text: string, more: string, secret: string, m: nat, i: nat)
    requires LongestEnd(secret, text, |secret|, m)
    requires i < |text| - m
    ensures HiddenBy(text + more, secret, i) <==> HiddenBy(text, secret, i)
  {
    var longer := text + more;
    if HiddenBy(longer, secret, i) {
      var start: nat :| start <= i < start + |secret| && OccursAt(longer, secret, start);
      if start + |secret| > |text| {
        LateOccurrenceIsHeld(text, more, secret, m, start);
      }
      assert longer[start..start + |secret|] == text[start..start + |secret|];
      assert OccursAt(text, secret, start);
    }
    if HiddenBy(text, secret, i) {
      var start: nat :| start <= i < start + |secret| && OccursAt(text, secret, start);
      assert longer[start..start + |secret|] == text[start..start + |secret|];
      assert OccursAt(longer, secret, start);
    }
  }

  /** Nothing shorter could be held back safely: a held prefix is completed by some continuation. */
  lemma HeldIsUndecided(secrets: seq<string>, text: string, j: nat, m: nat)
    requires j < |secrets| && 0 < m && LongestEnd(secrets[j], text, |secrets[j]|, m)
    ensures exists more: string :: Hidden(secrets, text + more, |text| - m)
  {
    var secret := secrets[j];
    var more := secret[m..];
    var start: nat := |text| - m;
    assert (text + more)[start..start + |secret|] == text[start..] + more == secret[..m] + secret[m..] == secret;
    assert OccursAt(text + more, secret, start);
    assert HiddenBy(text + more, secrets[j], start);
    assert Hidden(secrets, text + more, start);
  }

  lemma HiddenGrows(secrets: seq<string>, text: string, more: string, i: nat)
    requires Hidden(secrets, text, i)
    ensures Hidden(secrets, text + more, i)
  {
    var j :| 0 <= j < |secrets| && HiddenBy(text, secrets[j], i);
    var start: nat :| start <= i < start + |secrets[j]| && OccursAt(text, secrets[j], start);
    assert (text + more)[start..start + |secrets[j]|] == text[start..start + |secrets[j]|];
    assert OccursAt(text + more, secrets[j], start);
    assert HiddenBy(text + more, secrets[j], i);
  }

  lemma HiddenTakeNext(secrets: seq<string>, j: nat, text: string, i: nat)
    requires j < |secrets|
    ensures Hidden(secrets[..j + 1], text, i) <==> Hidden(secrets[..j], text, i) || HiddenBy(text, secrets[j], i)
  {
    if Hidden(secrets[..j + 1], text, i) {
      var k :| 0 <= k < j + 1 && HiddenBy(text, secrets[..j + 1][k], i);
      assert k < j ==> secrets[..j][k] == secrets[..j + 1][k];
    }
    if Hidden(secrets[..j], text, i) {
      var k :| 0 <= k < j && HiddenBy(text, secrets[..j][k], i);
      assert secrets[..j][k] == secrets[..j + 1][k];
    }
    if HiddenBy(text, secrets[j], i) {
      assert secrets[..j + 1][j] == secrets[j];
    }
  }
}
