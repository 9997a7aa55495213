/** The cache of highlighted code in src/markdown-code.ts: a map in insertion order, a byte counter, and
    the eviction loop. */
module MarkdownCache {
  import opened Options

  datatype Entry = Entry(key: string, html: string)

  const MAX_CACHE_BYTES: nat := 8 * 1024 * 1024
  const MAX_CACHE_ENTRIES: nat := 128

  function Weight(e: Entry): nat {
    (|e.key| + |e.html|) * 2
  }

  function Total(es: seq<Entry>): nat {
    if es == [] then 0 else Weight(es[0]) + Total(es[1..])
  }

  predicate Fits(es: seq<Entry>) {
    Total(es) <= MAX_CACHE_BYTES && |es| <= MAX_CACHE_ENTRIES
  }

  function Without(es: seq<Entry>, key: string): (r: seq<Entry>)
    ensures forall e :: e in r <==> e in es && e.key != key
  {
    if es == [] then []
    else if es[0].key == key then Without(es[1..], key)
    else [es[0]] + Without(es[1..], key)
  }

  function Find(es: seq<Entry>, key: string): (r: Option<Entry>)
    ensures r.Some? ==> r.value in es && r.value.key == key
    ensures r.None? ==> forall e :: e in es ==> e.key != key
  {
    if es == [] then None else if es[0].key == key then Some(es[0]) else Find(es[1..], key)
  }

  /** Drops the oldest entries until the rest fits. */
  function Fitting(es: seq<Entry>): seq<Entry> {
    if es == [] || Fits(es) then es else Fitting(es[1..])
  }

  /** An entry put behind all others. */
  function Put(es: seq<Entry>, e: Entry): seq<Entry> {
    Without(es, e.key) + [e]
  }

  function Remember(es: seq<Entry>, e: Entry): seq<Entry> {
    if Weight(e) > MAX_CACHE_BYTES then es else Fitting(Put(es, e))
  }

  function Touch(es: seq<Entry>, key: string): seq<Entry> {
    match Find(es, key)
    case None => es
    case Some(e) => Put(es, e)
  }

  ghost predicate UniqueKeys(es: seq<Entry>) {
    forall i, j :: 0 <= i < j < |es| ==> es[i].key != es[j].key
  }

  lemma {:induction false} TotalAppend(a: seq<Entry>, b: seq<Entry>)
    ensures Total(a + b) == Total(a) + Total(b)
  {
    if a == [] {
      assert a + b == b;
    } else {
      assert (a + b)[1..] == a[1..] + b;
      TotalAppend(a[1..], b);
    }
  }

  lemma TotalOne(e: Entry)
    ensures Total([e]) == Weight(e) == (|e.key| + |e.html|) * 2
  {
    assert [e][1..] == [];
  }

  lemma {:induction false} WithoutAppend(a: seq<Entry>, b: seq<Entry>, key: string)
    ensures Without(a + b, key) == Without(a, key) + Without(b, key)
  {
    if a == [] {
      assert a + b == b;
    } else {
      assert (a + b)[1..] == a[1..] + b;
      WithoutAppend(a[1..], b, key);
    }
  }

  lemma {:induction false} WithoutAbsent(es: seq<Entry>, key: string)
    requires forall e :: e in es ==> e.key != key
    ensures Without(es, key) == es
  {
    if es != [] {
      WithoutAbsent(es[1..], key);
    }
  }

  /** Taking one entry out of a cache without duplicates takes its weight and one place. */
  lemma {:induction false} WithoutPresent(es: seq<Entry>, e: Entry)
    requires UniqueKeys(es) && e in es
    ensures Total(Without(es, e.key)) + Weight(e) == Total(es) && |Without(es, e.key)| + 1 == |es|
    ensures UniqueKeys(Without(es, e.key))
  {
    if es[0] == e {
      forall x | x in es[1..] ensures x.key != e.key {
        var k :| 0 <= k < |es| - 1 && es[1..][k] == x;
      }
      WithoutAbsent(es[1..], e.key);
    } else {
      assert es[0].key != e.key by {
        var k :| 0 <= k < |es| && es[k] == e;
      }
      WithoutPresent(es[1..], e);
      var rest := Without(es[1..], e.key);
      assert Without(es, e.key) == [es[0]] + rest;
      forall k | 0 <= k < |rest| ensures rest[k].key != es[0].key {
        assert rest[k] in es[1..];
      }
    }
  }

  /** One more entry dropped in front of what was dropped already. */
  lemma OneMoreDropped(e: Entry, rest: seq<Entry>, kept: seq<Entry>)
    requires !Fits([e] + (rest + kept)) && (rest != [] ==> !Fits([rest[|rest| - 1]] + kept))
    ensures [e] + (rest + kept) == ([e] + rest) + kept
    ensures !Fits([([e] + rest)[|rest|]] + kept)
  {
    hide Fits;
    if rest == [] {
      assert rest + kept == kept;
    } else {
      assert ([e] + rest)[|rest|] == rest[|rest| - 1];
    }
  }

  /** The loop leaves the longest suffix that fits: the next entry before it would be one too many. */
  lemma {:induction false} FittingIsLongest(es: seq<Entry>) returns (dropped: seq<Entry>)
    ensures es == dropped + Fitting(es) && Fits(Fitting(es))
    ensures dropped != [] ==> !Fits([dropped[|dropped| - 1]] + Fitting(es))
  {
    hide Fits;
    if es == [] || Fits(es) {
      dropped := [];
      EmptyFits();
    } else {
      assert Fitting(es) == Fitting(es[1..]);
      hide Fitting;
      assert es == [es[0]] + es[1..];
      var rest := FittingIsLongest(es[1..]);
      OneMoreDropped(es[0], rest, Fitting(es));
      dropped := [es[0]] + rest;
    }
  }

  lemma EmptyFits()
    ensures Fits([])
  {
  }

  /** And it is the only suffix of which that is true. */
  lemma {:induction false} OnlyTheLongestFits(dropped: seq<Entry>, kept: seq<Entry>)
    requires Fits(kept) && (dropped != [] ==> !Fits([dropped[|dropped| - 1]] + kept))
    ensures Fitting(dropped + kept) == kept
  {
    if dropped == [] {
      assert dropped + kept == kept;
    } else {
      var last := dropped[|dropped| - 1];
      assert dropped + kept == dropped[..|dropped| - 1] + ([last] + kept);
      TotalAppend(dropped[..|dropped| - 1], [last] + kept);
      assert (dropped + kept)[1..] == dropped[1..] + kept;
      OnlyTheLongestFits(dropped[1..], kept);
    }
  }

  /** What just fits is kept whole, in particular a new entry on its own. */
  lemma NewestIsKept(es: seq<Entry>, e: Entry)
    requires Weight(e) <= MAX_CACHE_BYTES
    ensures Fitting(es + [e]) != [] && Fitting(es + [e])[|Fitting(es + [e])| - 1] == e
  {
    var dropped := FittingIsLongest(es + [e]);
    var kept := Fitting(es + [e]);
    TotalOne(e);
    assert [e] + [] == [e] && (es + [e])[|es|] == e;
    assert kept != [] ==> kept[|kept| - 1] == (es + [e])[|es|];
  }

  lemma UniqueSuffix(a: seq<Entry>, b: seq<Entry>)
    requires UniqueKeys(a + b)
    ensures UniqueKeys(b) && UniqueKeys(a)
    ensures forall x, y :: x in a && y in b ==> x.key != y.key
  {
    var es := a + b;
    forall i, j | 0 <= i < j < |b| ensures b[i].key != b[j].key {
      assert es[|a| + i].key != es[|a| + j].key;
    }
    forall i, j | 0 <= i < j < |a| ensures a[i].key != a[j].key {
      assert es[i].key != es[j].key;
    }
    forall x, y | x in a && y in b ensures x.key != y.key {
      var i :| 0 <= i < |a| && a[i] == x;
      var j :| 0 <= j < |b| && b[j] == y;
      assert es[i].key != es[|a| + j].key;
    }
  }

  lemma PutKeepsUnique(es: seq<Entry>, e: Entry)
    requires UniqueKeys(es)
    ensures UniqueKeys(Put(es, e))
  {
    if Find(es, e.key).Some? {
      WithoutPresent(es, Find(es, e.key).value);
    } else {
      WithoutAbsent(es, e.key);
    }
    var rest := Without(es, e.key);
    forall k | 0 <= k < |rest| ensures rest[k].key != e.key {
      assert rest[k] in rest;
    }
  }

  /** A new entry keeps keys unique and both limits. */
  lemma RememberKeepsLimits(es: seq<Entry>, e: Entry)
    requires UniqueKeys(es) && Fits(es)
    ensures UniqueKeys(Remember(es, e)) && Fits(Remember(es, e))
  {
    PutKeepsUnique(es, e);
    var dropped := FittingIsLongest(Put(es, e));
    UniqueSuffix(dropped, Fitting(Put(es, e)));
  }

  /** Every entry accepted so far, by its last use: the order in which an unbounded cache would hold them. */
  ghost predicate Mirrors(recency: seq<Entry>, cache: seq<Entry>) {
    UniqueKeys(recency) && cache == Fitting(recency)
  }

  /** A cached entry used again: both orders move it to the end. */
  lemma MovingKeepsMirror(recency: seq<Entry>, cache: seq<Entry>, e: Entry)
    requires Mirrors(recency, cache) && e in cache
    ensures Mirrors(Put(recency, e), Put(cache, e)) && Fits(Put(cache, e))
  {
    var dropped := FittingIsLongest(recency);
    UniqueSuffix(dropped, cache);
    PutKeepsUnique(recency, e);
    WithoutAppend(dropped, cache, e.key);
    WithoutAbsent(dropped, e.key);
    hide UniqueKeys, Without, Find;
    assert Put(recency, e) == dropped + Put(cache, e);
    WithoutPresent(cache, e);
    TotalAppend(Without(cache, e.key), [e]);
    TotalOne(e);
    if dropped != [] {
      var last := dropped[|dropped| - 1];
      TotalAppend([last], cache);
      TotalAppend([last], Put(cache, e));
    }
    OnlyTheLongestFits(dropped, Put(cache, e));
  }

  /** An entry not in the cache, be it new or evicted before. */
  lemma AddingKeepsMirror(recency: seq<Entry>, cache: seq<Entry>, e: Entry)
    requires Mirrors(recency, cache)
    requires forall x :: x in cache ==> x.key != e.key
    requires forall x :: x in recency && x.key == e.key ==> x == e
    ensures Mirrors(Put(recency, e), Fitting(Put(cache, e)))
  {
    var dropped := FittingIsLongest(recency);
    PutKeepsUnique(recency, e);
    WithoutAppend(dropped, cache, e.key);
    WithoutAbsent(cache, e.key);
    hide UniqueKeys, Fits, Fitting;
    AddedToBoth(dropped, cache, e);
    assert Put(recency, e) == Without(dropped, e.key) + (cache + [e]);
  }

  /** What is longest for the entries behind is longest with more entries in front, unless all of them fit. */
  lemma LongestUnderMore(before: seq<Entry>, evicted: seq<Entry>, kept: seq<Entry>)
    requires Fits(kept) && (evicted != [] ==> !Fits([evicted[|evicted| - 1]] + kept))
    requires evicted == [] && before != [] ==> !Fits([before[|before| - 1]] + kept)
    ensures Fitting(before + (evicted + kept)) == kept
  {
    hide Fits;
    var all := before + evicted;
    assert evicted != [] ==> all[|all| - 1] == evicted[|evicted| - 1];
    assert evicted == [] ==> all == before;
    OnlyTheLongestFits(all, kept);
    hide Fitting;
    assert all + kept == before + (evicted + kept);
  }

  lemma AddedToBoth(dropped: seq<Entry>, cache: seq<Entry>, e: Entry)
    requires dropped != [] ==> !Fits([dropped[|dropped| - 1]] + cache)
    requires forall x :: x in dropped && x.key == e.key ==> x == e
    ensures Fitting(Without(dropped, e.key) + (cache + [e])) == Fitting(cache + [e])
  {
    var evicted := FittingIsLongest(cache + [e]);
    var kept := Fitting(cache + [e]);
    assert dropped == [] ==> Without(dropped, e.key) == [];
    hide Fitting, Fits, Without;
    if evicted == [] {
      assert evicted + kept == kept;
      if Without(dropped, e.key) != [] {
        LastDroppedStays(dropped, cache, e);
      }
    }
    LongestUnderMore(Without(dropped, e.key), evicted, kept);
  }

  /** If the cache with the entry fits, the entry was not the one that just missed the cache. */
  lemma LastDroppedStays(dropped: seq<Entry>, cache: seq<Entry>, e: Entry)
    requires Fits(cache + [e]) && dropped != [] && !Fits([dropped[|dropped| - 1]] + cache)
    requires forall x :: x in dropped && x.key == e.key ==> x == e
    requires Without(dropped, e.key) != []
    ensures !Fits([Without(dropped, e.key)[|Without(dropped, e.key)| - 1]] + (cache + [e]))
  {
    var last := dropped[|dropped| - 1];
    TotalAppend([last], cache);
    TotalAppend(cache, [e]);
    TotalOne(e);
    TotalOne(last);
    assert last in dropped;
    assert last.key != e.key;
    assert dropped == dropped[..|dropped| - 1] + [last];
    WithoutAppend(dropped[..|dropped| - 1], [last], e.key);
    WithoutAbsent([last], e.key);
    assert Without(dropped, e.key)[|Without(dropped, e.key)| - 1] == last;
    TotalAppend([last], cache + [e]);
  }

  datatype Use = Rendered(entry: Entry) | LookedUp(key: string)

  function CacheAfter(cache: seq<Entry>, use: Use): seq<Entry> {
    match use
    case Rendered(e) => Remember(cache, e)
    case LookedUp(key) => Touch(cache, key)
  }

  function RecencyAfter(recency: seq<Entry>, cache: seq<Entry>, use: Use): seq<Entry> {
    match use
    case Rendered(e) => if Weight(e) > MAX_CACHE_BYTES then recency else Put(recency, e)
    case LookedUp(key) => (match Find(cache, key) case None => recency case Some(e) => Put(recency, e))
  }

  /** Highlighting the same code gives the same text. */
  ghost predicate Repeats(recency: seq<Entry>, use: Use) {
    use.Rendered? ==> forall x :: x in recency && x.key == use.entry.key ==> x == use.entry
  }

  lemma UseKeepsMirror(recency: seq<Entry>, cache: seq<Entry>, use: Use)
    requires Mirrors(recency, cache) && Repeats(recency, use)
    ensures Mirrors(RecencyAfter(recency, cache, use), CacheAfter(cache, use))
  {
    var dropped := FittingIsLongest(recency);
    match use
    case Rendered(e) =>
      if Weight(e) <= MAX_CACHE_BYTES {
        if Find(cache, e.key).Some? {
          assert Find(cache, e.key).value in recency;
          MovingKeepsMirror(recency, cache, e);
        } else {
          AddingKeepsMirror(recency, cache, e);
        }
      }
    case LookedUp(key) =>
      if Find(cache, key).Some? {
        MovingKeepsMirror(recency, cache, Find(cache, key).value);
      }
  }

  /** The cache after some uses, and all that was ever accepted in order of last use. */
  function CacheAfterAll(cache: seq<Entry>, uses: seq<Use>): seq<Entry>
    decreases |uses|
  {
    if uses == [] then cache else CacheAfterAll(CacheAfter(cache, uses[0]), uses[1..])
  }

  function RecencyAfterAll(recency: seq<Entry>, cache: seq<Entry>, uses: seq<Use>): seq<Entry>
    decreases |uses|
  {
    if uses == [] then recency
    else RecencyAfterAll(RecencyAfter(recency, cache, uses[0]), CacheAfter(cache, uses[0]), uses[1..])
  }

  /** One text for each key, in whatever order and however often it is highlighted. */
  ghost predicate OneTextPerKey(recency: seq<Entry>, uses: seq<Use>) {
    && (forall x, i :: x in recency && 0 <= i < |uses| && uses[i].Rendered? ==>
          uses[i].entry.key == x.key ==> uses[i].entry == x)
    && (forall i, j ::
          0 <= i < j < |uses| && uses[i].Rendered? && uses[j].Rendered? && uses[i].entry.key == uses[j].entry.key ==>
          uses[i].entry == uses[j].entry)
  }

  lemma OneTextPerKeyNext(recency: seq<Entry>, cache: seq<Entry>, uses: seq<Use>)
    requires OneTextPerKey(recency, uses) && uses != [] && forall x :: x in cache ==> x in recency
    ensures Repeats(recency, uses[0])
    ensures OneTextPerKey(RecencyAfter(recency, cache, uses[0]), uses[1..])
  {
    var next := RecencyAfter(recency, cache, uses[0]);
    forall x | x in next ensures x in recency || (uses[0].Rendered? && x == uses[0].entry) {
    }
  }

  lemma {:induction false} RunsKeepMirror(recency: seq<Entry>, cache: seq<Entry>, uses: seq<Use>)
    requires Mirrors(recency, cache) && OneTextPerKey(recency, uses)
    ensures Mirrors(RecencyAfterAll(recency, cache, uses), CacheAfterAll(cache, uses))
    decreases |uses|
  {
    if uses != [] {
      var dropped := FittingIsLongest(recency);
      OneTextPerKeyNext(recency, cache, uses);
      UseKeepsMirror(recency, cache, uses[0]);
      hide Mirrors, OneTextPerKey, RecencyAfter, CacheAfter, Repeats;
      RunsKeepMirror(RecencyAfter(recency, cache, uses[0]), CacheAfter(cache, uses[0]), uses[1..]);
    }
  }

  /** Eviction is least recently used, exactly: after any uses of an empty cache, as long as a key always gets
      the same text, the cache is the longest suffix that fits, in order of last use, of all ever accepted. */
  lemma CacheIsTheMostRecent(uses: seq<Use>)
    requires OneTextPerKey([], uses)
    ensures CacheAfterAll([], uses) == Fitting(RecencyAfterAll([], [], uses)) &&
        UniqueKeys(RecencyAfterAll([], [], uses))
  {
    RunsKeepMirror([], [], uses);
  }

  /** The entry stands behind all others, and none of them has its key. */
  ghost predicate PutBehind(was: seq<Entry>, now: seq<Entry>, e: Entry) {
    if forall x :: x in was ==> x.key != e.key then now == was + [e]
    else exists i :: 0 <= i < |was| && was[i].key == e.key && now == was[..i] + was[i + 1..] + [e]
  }

  /** What is kept are the last entries of all, at most 128 and at most 8 MiB, and one more would be too much. */
  ghost predicate TrimmedTo(all: seq<Entry>, kept: seq<Entry>) {
    && |kept| <= |all| && kept == all[|all| - |kept|..]
    && |kept| <= 128 && Total(kept) <= 8 * 1024 * 1024
    && (|kept| < |all| ==> |kept| == 128 || Total(all[|all| - |kept| - 1..]) > 8 * 1024 * 1024)
  }

  lemma JoinedInFront(first: Entry, before: seq<Entry>, behind: seq<Entry>)
    ensures [first] + (before + behind) == ([first] + before) + behind
  {
  }

  lemma {:induction false} WithoutCutsOne(es: seq<Entry>, i: nat)
    requires UniqueKeys(es) && i < |es|
    ensures Without(es, es[i].key) == es[..i] + es[i + 1..]
  {
    var key := es[i].key;
    var first, rest := es[0], es[1..];
    if i == 0 {
      WithoutAbsent(rest, key);
    } else {
      var before, behind := rest[..i - 1], rest[i..];
      assert es[..i] == [first] + before && es[i + 1..] == behind;
      assert first.key != key && rest[i - 1].key == key;
      assert Without(es, key) == [first] + Without(rest, key);
      hide Without;
      WithoutCutsOne(rest, i - 1);
      JoinedInFront(first, before, behind);
    }
  }

  lemma PutPutsBehind(es: seq<Entry>, e: Entry)
    requires UniqueKeys(es)
    ensures PutBehind(es, Put(es, e), e)
  {
    hide Without, UniqueKeys;
    if forall x :: x in es ==> x.key != e.key {
      WithoutAbsent(es, e.key);
    } else {
      var x :| x in es && x.key == e.key;
      var i :| 0 <= i < |es| && es[i] == x;
      WithoutCutsOne(es, i);
      assert Put(es, e) == es[..i] + es[i + 1..] + [e];
    }
  }

  lemma FittingTrims(es: seq<Entry>)
    ensures TrimmedTo(es, Fitting(es))
  {
    hide Fitting, Total;
    var dropped := FittingIsLongest(es);
    var kept := Fitting(es);
    assert es == dropped + kept && kept == es[|dropped|..];
    if dropped != [] {
      assert es[|dropped| - 1..] == [dropped[|dropped| - 1]] + kept;
    }
  }

  /** What storing an entry leaves: it stands behind all others, and the oldest have made room. */
  ghost predicate Remembered(was: seq<Entry>, now: seq<Entry>, e: Entry) {
    exists all :: PutBehind(was, all, e) && TrimmedTo(all, now)
  }

  lemma RememberedExactly(es: seq<Entry>, e: Entry)
    requires UniqueKeys(es) && Weight(e) <= MAX_CACHE_BYTES
    ensures Remembered(es, Remember(es, e), e)
  {
    hide PutBehind, TrimmedTo;
    PutPutsBehind(es, e);
    FittingTrims(Put(es, e));
  }

  /** The module's cache and its counter. */
  class CodeCache {
    var cache: seq<Entry>
    var cacheBytes: nat

    ghost predicate Valid()
      reads this
    {
      UniqueKeys(cache) && Fits(cache) && cacheBytes == Total(cache)
    }

    constructor ()
      ensures Valid() && cache == []
    {
      cache, cacheBytes := [], 0;
    }

    method Lookup(key: string) returns (html: Option<string>)
      requires Valid()
      modifies this`cache
      ensures Valid() && cache == Touch(old(cache), key)
      ensures html.None? <==> forall e :: e in old(cache) ==> e.key != key
      ensures html.None? ==> cache == old(cache)
      ensures html.Some? ==>
        exists e :: e in old(cache) && e.key == key && html == Some(e.html) && PutBehind(old(cache), cache, e)
    {
      var found := Find(cache, key);
      if found.None? {
        return None;
      }
      PutPutsBehind(cache, found.value);
      WithoutPresent(cache, found.value);
      PutKeepsUnique(cache, found.value);
      TotalAppend(Without(cache, key), [found.value]);
      TotalOne(found.value);
      cache := Without(cache, key);
      cache := cache + [found.value];
      html := Some(found.value.html);
    }

    /** The counter always is the sum over the entries, both limits hold, and the oldest make room. */
    method Store(key: string, html: string)
      requires Valid()
      modifies this
      ensures Valid() && cache == Remember(old(cache), Entry(key, html))
      ensures (|key| + |html|) * 2 > 8 * 1024 * 1024 ==> cache == old(cache)
      ensures (|key| + |html|) * 2 <= 8 * 1024 * 1024 ==> Remembered(old(cache), cache, Entry(key, html))
    {
      var e := Entry(key, html);
      var bytes := (|key| + |html|) * 2;
      if bytes > MAX_CACHE_BYTES {
        return;
      }
      RememberKeepsLimits(cache, e);
      RememberedExactly(cache, e);
      hide Remembered, Fitting, Fits, UniqueKeys;
      var existing := Find(cache, key);
      if existing.Some? {
        WithoutPresent(cache, existing.value);
        cacheBytes := cacheBytes - (|key| + |existing.value.html|) * 2;
      } else {
        WithoutAbsent(cache, key);
      }
      cache := Without(cache, key);
      TotalAppend(cache, [e]);
      TotalOne(e);
      cache := cache + [e];
      cacheBytes := cacheBytes + bytes;
      EvictOldest();
    }

    /** The loop that makes room. */
    method EvictOldest()
      requires cacheBytes == Total(cache)
      modifies this
      ensures cache == Fitting(old(cache)) && cacheBytes == Total(cache)
    {
      ghost var all := cache;
      while cacheBytes > MAX_CACHE_BYTES || |cache| > MAX_CACHE_ENTRIES
        invariant cacheBytes == Total(cache) && Fitting(cache) == Fitting(all)
        decreases |cache|
      {
        var oldest := cache[0];
        cacheBytes := cacheBytes - (|oldest.key| + |oldest.html|) * 2;
        cache := cache[1..];
      }
    }
  }
}
