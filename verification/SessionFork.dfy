/** Forking a session: cloning the live records of a prefix under new ids and numbers, and the
    proof that this commutes with the definition of active history. */
module SessionFork {
  import opened Options
  import opened SessionBranch
  import opened SessionHistory

  datatype Refusal = NotFound | Conflict | PreconditionFailed | PayloadTooLarge
  datatype Outcome<+T> = Done(value: T) | Refused(reason: Refusal)

  /** The entry with the greatest source number at or below the boundary. */
  function LastEntry(boundary: int, seqMap: seq<(int, int)>): Option<(int, int)> {
    if seqMap == [] then None else
      var n := |seqMap| - 1;
      var best := LastEntry(boundary, seqMap[..n]);
      if seqMap[n].0 <= boundary && (best.None? || best.value.0 <= seqMap[n].0) then Some(seqMap[n]) else best
  }

  /** remapForkBoundary, on the entries of the map from source to target numbers. */
  function RemapForkBoundary(boundary: int, seqMap: seq<(int, int)>): Option<int> {
    var entry := LastEntry(boundary, seqMap);
    if entry.None? then None else Some(entry.value.1)
  }

  function WithBoundary(r: MessageRecord, boundary: int): MessageRecord {
    match r.content
    case CompactSummary(_) => r.(content := CompactSummary(boundary))
    case ConversationTranscript(_) => r.(content := ConversationTranscript(boundary))
    case _ => r
  }

  /** cloneForkMessage. */
  function CloneForkMessage(source: MessageRecord, sessionId: SessionId, idMap: map<MessageId, MessageId>,
                            seqMap: seq<(int, int)>, seqNo: int): Outcome<MessageRecord>
  {
    if source.id !in idMap then Refused(PreconditionFailed)
    else if source.turnId.Some? && source.turnId.value !in idMap then Refused(PreconditionFailed)
    else
      var clone := source.(id := idMap[source.id], sessionId := sessionId, seqNo := seqNo, inHistory := false,
                           turnId := if source.turnId.Some? then Some(idMap[source.turnId.value]) else None);
      var boundary := AnchorBoundary(clone);
      if boundary.Some? then
        var target := RemapForkBoundary(boundary.value, seqMap);
        if target.None? then Refused(PreconditionFailed) else Done(WithBoundary(clone, target.value))
      else if clone.content.UserInput? && clone.content.origin.Replayed? then
        var from := clone.content.origin.replayedFrom;
        if from !in idMap then Refused(PreconditionFailed)
        else Done(clone.(content := UserInput(Replayed(idMap[from]))))
      else if clone.content.UserInput? && clone.content.origin.Derived? then
        var from := clone.content.origin.derivedFrom;
        if from !in idMap then Refused(PreconditionFailed)
        else Done(clone.(content := UserInput(Derived(idMap[from]))))
      else Done(clone)
  }

  function IdMapOf(prefix: seq<MessageRecord>, newIds: seq<MessageId>): map<MessageId, MessageId>
    requires |newIds| == |prefix|
  {
    if prefix == [] then map[] else
      var n := |prefix| - 1;
      IdMapOf(prefix[..n], newIds[..n])[prefix[n].id := newIds[n]]
  }

  function SeqMapOf(prefix: seq<MessageRecord>): (m: seq<(int, int)>)
    ensures |m| == |prefix|
  {
    seq(|prefix|, i requires 0 <= i < |prefix| => (prefix[i].seqNo, i + 1))
  }

  /** The clones of the first n records, or the refusal of the first that cannot be cloned. */
  function Clones(prefix: seq<MessageRecord>, sessionId: SessionId, idMap: map<MessageId, MessageId>,
                  seqMap: seq<(int, int)>, n: nat): (r: Outcome<seq<MessageRecord>>)
    requires n <= |prefix|
    ensures r.Done? ==> |r.value| == n
  {
    if n == 0 then Done([]) else
      var before := Clones(prefix, sessionId, idMap, seqMap, n - 1);
      if before.Refused? then before else
        var clone := CloneForkMessage(prefix[n - 1], sessionId, idMap, seqMap, n);
        if clone.Refused? then Refused(clone.reason) else Done(before.value + [clone.value])
  }

  /** The records of the forked session. */
  function ForkedRecords(prefix: seq<MessageRecord>, sessionId: SessionId,
      newIds: seq<MessageId>): (r: Outcome<seq<MessageRecord>>)
    requires |newIds| == |prefix|
    ensures r.Done? ==> |r.value| == |prefix|
  {
    var clones := Clones(prefix, sessionId, IdMapOf(prefix, newIds), SeqMapOf(prefix), |prefix|);
    if clones.Refused? then clones else Done(Rebuilt(clones.value, |prefix|))
  }

  /** What a fork may copy: live records in ascending order, under pairwise different ids. */
  ghost predicate Copyable(prefix: seq<MessageRecord>) {
    && (forall i, j :: 0 <= i < j < |prefix| ==> prefix[i].seqNo < prefix[j].seqNo && prefix[i].id != prefix[j].id)
    && (forall i :: 0 <= i < |prefix| ==> prefix[i].seqNo > 0 && !prefix[i].visibility.Superseded?)
  }

  predicate HasId(prefix: seq<MessageRecord>, id: MessageId) {
    exists i :: 0 <= i < |prefix| && prefix[i].id == id
  }

  /** Every reference of the record stays inside the copied prefix. */
  predicate Closed(r: MessageRecord, prefix: seq<MessageRecord>) {
    && (r.turnId.Some? ==> HasId(prefix, r.turnId.value))
    && (match r.content
        case UserInput(Replayed(from)) => HasId(prefix, from)
        case UserInput(Derived(from)) => HasId(prefix, from)
        case _ => true)
    && (AnchorBoundary(r).Some? ==> prefix != [] && prefix[0].seqNo <= AnchorBoundary(r).value)
  }

  /** How many of the copied records lie at or before the boundary. */
  function CountThrough(prefix: seq<MessageRecord>, boundary: int): (n: nat)
    ensures n <= |prefix|
  {
    if prefix == [] then 0 else
      var k := |prefix| - 1;
      CountThrough(prefix[..k], boundary) + (if prefix[k].seqNo <= boundary then 1 else 0)
  }

  /** In an ascending prefix exactly the first CountThrough records lie at or before the boundary. */
  lemma {:induction false} CountSplits(prefix: seq<MessageRecord>, boundary: int)
    requires Copyable(prefix)
    ensures forall i :: 0 <= i < |prefix| ==> (prefix[i].seqNo <= boundary <==> i < CountThrough(prefix, boundary))
  {
    if prefix != [] {
      var k := |prefix| - 1;
      CountSplits(prefix[..k], boundary);
      assert forall i :: 0 <= i < k ==> prefix[..k][i] == prefix[i];
      if prefix[k].seqNo <= boundary {
        assert forall i :: 0 <= i < k ==> prefix[i].seqNo < prefix[k].seqNo;
        if k > 0 {
          assert prefix[k - 1].seqNo <= boundary;
        }
      }
    }
  }

  /** A boundary is remapped, across whatever gaps, to the number of records copied up to it. */
  lemma {:induction false} RemapCounts(prefix: seq<MessageRecord>, boundary: int)
    requires Copyable(prefix)
    ensures var n := CountThrough(prefix, boundary);
            && (n == 0 ==> LastEntry(boundary, SeqMapOf(prefix)).None?)
            && (n > 0 ==> LastEntry(boundary, SeqMapOf(prefix)) == Some((prefix[n - 1].seqNo, n)))
  {
    if prefix != [] {
      var k := |prefix| - 1;
      RemapCounts(prefix[..k], boundary);
      assert SeqMapOf(prefix)[..k] == SeqMapOf(prefix[..k]);
      CountSplits(prefix, boundary);
      assert prefix[k].seqNo <= boundary ==> CountThrough(prefix, boundary) == k + 1;
      assert k > 0 ==> prefix[k - 1].seqNo < prefix[k].seqNo;
      hide Copyable;
    }
  }

  /** A reference to a copied message leads to that message's own clone. */
  ghost predicate Renamed(prefix: seq<MessageRecord>, newIds: seq<MessageId>, from: MessageId, to: MessageId)
    requires |newIds| == |prefix|
  {
    HasId(prefix, from) && forall k :: 0 <= k < |prefix| && prefix[k].id == from ==> to == newIds[k]
  }

  /** The content of a clone: references renamed, an epoch boundary moved to the number of records copied up to
      it, and nothing else changed. */
  ghost predicate ContentCloned(source: Content, clone: Content, newIds: seq<MessageId>, prefix: seq<MessageRecord>)
    requires |newIds| == |prefix|
  {
    match source
    case UserInput(Replayed(from)) =>
      clone.UserInput? && clone.origin.Replayed? && Renamed(prefix, newIds, from, clone.origin.replayedFrom)
    case UserInput(Derived(from)) =>
      clone.UserInput? && clone.origin.Derived? && Renamed(prefix, newIds, from, clone.origin.derivedFrom)
    case CompactSummary(b) => clone == CompactSummary(CountThrough(prefix, b)) && CountThrough(prefix, b) > 0
    case ConversationTranscript(b) =>
      clone == ConversationTranscript(CountThrough(prefix, b)) && CountThrough(prefix, b) > 0
    case _ => clone == source
  }

  /** What a clone keeps, and what of it is renamed or numbered anew. */
  ghost predicate IsClone(source: MessageRecord, clone: MessageRecord, sessionId: SessionId, newId: MessageId,
                          newIds: seq<MessageId>, prefix: seq<MessageRecord>, seqNo: int)
    requires |newIds| == |prefix|
  {
    && clone.id == newId && clone.sessionId == sessionId && clone.seqNo == seqNo
    && clone.visibility == source.visibility && clone.body == source.body
    && clone.turnId.Some? == source.turnId.Some?
    && (source.turnId.Some? ==> Renamed(prefix, newIds, source.turnId.value, clone.turnId.value))
    && ContentCloned(source.content, clone.content, newIds, prefix)
  }

  /** The map knows exactly the ids of the prefix and leads only to new ids. */
  lemma {:induction false} IdMapKnows(prefix: seq<MessageRecord>, newIds: seq<MessageId>, id: MessageId)
    requires |newIds| == |prefix|
    ensures id in IdMapOf(prefix, newIds) <==> HasId(prefix, id)
    ensures id in IdMapOf(prefix, newIds) ==> IdMapOf(prefix, newIds)[id] in newIds
    decreases |prefix|
  {
    if prefix != [] {
      var n := |prefix| - 1;
      IdMapKnows(prefix[..n], newIds[..n], id);
      HasIdLast(prefix, id);
      assert newIds == newIds[..n] + [newIds[n]];
    }
  }

  lemma HasIdLast(prefix: seq<MessageRecord>, id: MessageId)
    requires prefix != []
    ensures HasId(prefix, id) <==> HasId(prefix[..|prefix| - 1], id) || prefix[|prefix| - 1].id == id
  {
    var n := |prefix| - 1;
    if HasId(prefix[..n], id) {
      var i :| 0 <= i < n && prefix[..n][i].id == id;
      assert prefix[i].id == id;
    }
    if HasId(prefix, id) && prefix[n].id != id {
      var i :| 0 <= i < |prefix| && prefix[i].id == id;
      assert prefix[..n][i].id == id;
    }
  }

  lemma {:induction false} NewIdOf(prefix: seq<MessageRecord>, newIds: seq<MessageId>, i: nat)
    requires |newIds| == |prefix| && i < |prefix|
    requires forall j :: i < j < |prefix| ==> prefix[j].id != prefix[i].id
    ensures prefix[i].id in IdMapOf(prefix, newIds) && IdMapOf(prefix, newIds)[prefix[i].id] == newIds[i]
    decreases |prefix|
  {
    var n := |prefix| - 1;
    if i < n {
      assert prefix[n].id != prefix[i].id;
      NewIdOf(prefix[..n], newIds[..n], i);
    }
  }

  /** The outcome of cloning one record: a clone if its references are closed, else a refusal. */
  ghost predicate ClonedIffClosed(prefix: seq<MessageRecord>, sessionId: SessionId, newIds: seq<MessageId>, i: nat,
                                  r: Outcome<MessageRecord>)
    requires i < |prefix| == |newIds|
  {
    && (r.Done? <==> Closed(prefix[i], prefix))
    && (r.Refused? ==> r.reason == PreconditionFailed)
    && (r.Done? ==> IsClone(prefix[i], r.value, sessionId, newIds[i], newIds, prefix, i + 1))
  }

  /** The id map renames every reference into the prefix. */
  lemma MapRenames(prefix: seq<MessageRecord>, newIds: seq<MessageId>, from: MessageId)
    requires Copyable(prefix) && |newIds| == |prefix|
    ensures from in IdMapOf(prefix, newIds) <==> HasId(prefix, from)
    ensures from in IdMapOf(prefix, newIds) ==> Renamed(prefix, newIds, from, IdMapOf(prefix, newIds)[from])
  {
    IdMapKnows(prefix, newIds, from);
    hide IdMapOf;
    forall k | 0 <= k < |prefix| && prefix[k].id == from
      ensures from in IdMapOf(prefix, newIds) && IdMapOf(prefix, newIds)[from] == newIds[k]
    {
      NewIdOf(prefix, newIds, k);
    }
  }

  lemma OwnNewId(prefix: seq<MessageRecord>, newIds: seq<MessageId>, i: nat)
    requires Copyable(prefix) && |newIds| == |prefix| && i < |prefix|
    ensures prefix[i].id in IdMapOf(prefix, newIds) && IdMapOf(prefix, newIds)[prefix[i].id] == newIds[i]
  {
    hide IdMapOf;
    NewIdOf(prefix, newIds, i);
  }

  lemma CloneIffClosed(prefix: seq<MessageRecord>, sessionId: SessionId, newIds: seq<MessageId>, i: nat)
    requires Copyable(prefix) && |newIds| == |prefix| && i < |prefix|
    ensures ClonedIffClosed(prefix, sessionId, newIds, i,
              CloneForkMessage(prefix[i], sessionId, IdMapOf(prefix, newIds), SeqMapOf(prefix), i + 1))
  {
    hide IdMapOf, SeqMapOf, RemapForkBoundary, CountThrough, HasId, Copyable, Renamed;
    var source := prefix[i];
    OwnNewId(prefix, newIds, i);
    if source.turnId.Some? {
      MapRenames(prefix, newIds, source.turnId.value);
    }
    match source.content {
      case UserInput(Replayed(from)) => MapRenames(prefix, newIds, from);
      case UserInput(Derived(from)) => MapRenames(prefix, newIds, from);
      case CompactSummary(b) => BoundaryReached(prefix, b);
      case ConversationTranscript(b) => BoundaryReached(prefix, b);
      case _ =>
    }
  }

  /** A boundary can be remapped exactly when the first copied record lies at or before it. */
  lemma BoundaryReached(prefix: seq<MessageRecord>, boundary: int)
    requires Copyable(prefix) && prefix != []
    ensures RemapForkBoundary(boundary, SeqMapOf(prefix)) ==
            if prefix[0].seqNo <= boundary then Some(CountThrough(prefix, boundary)) else None
    ensures prefix[0].seqNo <= boundary <==> CountThrough(prefix, boundary) > 0
  {
    RemapCounts(prefix, boundary);
    CountSplits(prefix, boundary);
  }

  /** All clones exist if and only if every record is closed, and each is a clone of its source. */
  ghost predicate AllCloned(prefix: seq<MessageRecord>, sessionId: SessionId, newIds: seq<MessageId>, n: nat,
                            r: Outcome<seq<MessageRecord>>)
    requires n <= |prefix| == |newIds| && (r.Done? ==> |r.value| == n)
  {
    && (r.Done? <==> forall i :: 0 <= i < n ==> Closed(prefix[i], prefix))
    && (r.Refused? ==> r.reason == PreconditionFailed)
    && (r.Done? ==> forall i :: 0 <= i < n ==>
        IsClone(prefix[i], r.value[i], sessionId, newIds[i], newIds, prefix, i + 1))
  }

  lemma {:induction false} ClonesIffClosed(prefix: seq<MessageRecord>, sessionId: SessionId, newIds: seq<MessageId>,
      n: nat)
    requires Copyable(prefix) && |newIds| == |prefix| && n <= |prefix|
    ensures AllCloned(prefix, sessionId, newIds, n,
        Clones(prefix, sessionId, IdMapOf(prefix, newIds), SeqMapOf(prefix), n))
    decreases n
  {
    hide IsClone, Closed, IdMapOf, SeqMapOf, CloneForkMessage, Copyable;
    if n > 0 {
      ClonesIffClosed(prefix, sessionId, newIds, n - 1);
      CloneIffClosed(prefix, sessionId, newIds, n - 1);
    }
  }

  lemma EpochOfTake(records: seq<MessageRecord>, through: int, n: nat)
    requires 0 < n <= |records|
    ensures EpochAt(records[..n], through) ==
            if Live(records[n - 1], through) && AnchorBoundary(records[n - 1]).Some?
            then AnchorBoundary(records[n - 1]).value else EpochAt(records[..n - 1], through)
  {
    assert records[..n][..n - 1] == records[..n - 1];
  }

  ghost predicate NoAnchor(prefix: seq<MessageRecord>, n: nat)
    requires n <= |prefix|
  {
    forall i :: 0 <= i < n ==> AnchorBoundary(prefix[i]).None?
  }

  ghost predicate AllClones(prefix: seq<MessageRecord>, clones: seq<MessageRecord>, sessionId: SessionId,
      newIds: seq<MessageId>)
    requires |clones| == |prefix| == |newIds|
  {
    forall i :: 0 <= i < |prefix| ==> IsClone(prefix[i], clones[i], sessionId, newIds[i], newIds, prefix, i + 1)
  }

  /** The epoch of the clones is the remapped epoch of the sources. */
  lemma {:induction false} EpochOfClones(prefix: seq<MessageRecord>, clones: seq<MessageRecord>, sessionId: SessionId,
                                         newIds: seq<MessageId>, through: int, n: nat)
    requires |clones| == |prefix| == |newIds| && n <= |prefix|
    requires forall i :: 0 <= i < |prefix| ==> Live(prefix[i], through)
    requires AllClones(prefix, clones, sessionId, newIds)
    ensures NoAnchor(prefix, n) ==> EpochAt(clones[..n], |clones|) == EpochAt(prefix[..n], through) == 0
    ensures !NoAnchor(prefix, n) ==>
              EpochAt(clones[..n], |clones|) == CountThrough(prefix, EpochAt(prefix[..n], through))
    decreases n
  {
    if n > 0 {
      EpochOfClones(prefix, clones, sessionId, newIds, through, n - 1);
      EpochOfTake(prefix, through, n);
      EpochOfTake(clones, |clones|, n);
      hide EpochAt, CountThrough, AllClones;
      assert IsClone(prefix[n - 1], clones[n - 1], sessionId, newIds[n - 1], newIds, prefix, n);
      assert Live(prefix[n - 1], through) && Live(clones[n - 1], |clones|);
      assert NoAnchor(prefix, n) <==> NoAnchor(prefix, n - 1) && AnchorBoundary(prefix[n - 1]).None?;
    }
  }

  /** Forking commutes with active history. The fork of a live prefix succeeds if and only if every
      reference stays inside it; the result is numbered 1..n under the new ids with every reference
      inside it, and marks exactly the images of the messages the definition marks in the source. */
  lemma ForkCommutes(source: seq<MessageRecord>, through: int, sessionId: SessionId, newIds: seq<MessageId>)
    requires Copyable(Filtered(source, through)) && |newIds| == |Filtered(source, through)|
    ensures ForkMeets(source, through, sessionId, newIds, ForkedRecords(Filtered(source, through), sessionId, newIds))
  {
    hide Clones, IdMapOf, SeqMapOf, IsClone, Closed, EpochAt, Copyable, Filtered, Rebuilt;
    var prefix := Filtered(source, through);
    ClonesIffClosed(prefix, sessionId, newIds, |prefix|);
    var clones := Clones(prefix, sessionId, IdMapOf(prefix, newIds), SeqMapOf(prefix), |prefix|);
    if clones.Done? {
      assert AllClones(prefix, clones.value, sessionId, newIds);
      EpochOfFiltered(source, through);
      assert forall i :: 0 <= i < |prefix| ==> prefix[i] in prefix;
      forall i | 0 <= i < |prefix|
        ensures ImageOf(prefix[i], Rebuilt(clones.value, |prefix|)[i], through, EpochAt(source, through),
                        sessionId, newIds[i], newIds, prefix, i + 1)
      {
        CloneFlag(prefix, clones.value, sessionId, newIds, through, i);
      }
    }
  }

  /** One record of the fork: a clone whose flag is the one its source has at the fork point. */
  ghost predicate ImageOf(source: MessageRecord, image: MessageRecord, through: int, epoch: int, sessionId: SessionId,
                          newId: MessageId, newIds: seq<MessageId>, prefix: seq<MessageRecord>, seqNo: int)
    requires |newIds| == |prefix|
  {
    && IsClone(source, image, sessionId, newId, newIds, prefix, seqNo)
    && image.inHistory == InBranch(source, through, epoch)
  }

  ghost predicate ForkMeets(source: seq<MessageRecord>, through: int, sessionId: SessionId, newIds: seq<MessageId>,
                            r: Outcome<seq<MessageRecord>>)
    requires |newIds| == |Filtered(source, through)|
    requires r.Done? ==> |r.value| == |newIds|
  {
    var prefix := Filtered(source, through);
    && (r.Done? <==> forall i :: 0 <= i < |prefix| ==> Closed(prefix[i], prefix))
    && (r.Refused? ==> r.reason == PreconditionFailed)
    && (r.Done? ==> forall i :: 0 <= i < |prefix| ==>
          ImageOf(prefix[i], r.value[i], through, EpochAt(source, through),
                  sessionId, newIds[i], newIds, prefix, i + 1))
  }

  lemma CloneFlag(prefix: seq<MessageRecord>, clones: seq<MessageRecord>, sessionId: SessionId, newIds: seq<MessageId>,
                  through: int, i: nat)
    requires Copyable(prefix) && |clones| == |prefix| == |newIds| && i < |prefix|
    requires forall j :: 0 <= j < |prefix| ==> Live(prefix[j], through)
    requires AllClones(prefix, clones, sessionId, newIds)
    ensures ImageOf(prefix[i], Rebuilt(clones, |prefix|)[i], through, EpochAt(prefix, through),
                    sessionId, newIds[i], newIds, prefix, i + 1)
  {
    SameSideOfEpoch(prefix, clones, sessionId, newIds, through, i);
    assert IsClone(prefix[i], clones[i], sessionId, newIds[i], newIds, prefix, i + 1);
    assert Live(prefix[i], through);
    hide EpochAt, CountThrough, AllClones, Copyable;
  }

  lemma SameSideOfEpoch(prefix: seq<MessageRecord>, clones: seq<MessageRecord>, sessionId: SessionId,
      newIds: seq<MessageId>, through: int, i: nat)
    requires Copyable(prefix) && |clones| == |prefix| == |newIds| && i < |prefix|
    requires forall j :: 0 <= j < |prefix| ==> Live(prefix[j], through)
    requires AllClones(prefix, clones, sessionId, newIds)
    ensures i + 1 > EpochAt(clones, |clones|) <==> prefix[i].seqNo > EpochAt(prefix, through)
  {
    EpochOfClones(prefix, clones, sessionId, newIds, through, |prefix|);
    assert prefix[..|prefix|] == prefix && clones[..|prefix|] == clones;
    CountSplits(prefix, EpochAt(prefix, through));
    hide EpochAt, CountThrough, AllClones;
  }

  /** What was filtered from the records before the last one has smaller numbers and other ids. */
  lemma FilteredBeforeLast(records: seq<MessageRecord>, through: int)
    requires records != [] && Numbered(records)
    requires forall i, j :: 0 <= i < j < |records| ==> records[i].id != records[j].id
    ensures var n := |records| - 1;
            forall r :: r in Filtered(records[..n], through) ==> r.seqNo < records[n].seqNo && r.id != records[n].id
  {
    var n := |records| - 1;
    forall r | r in Filtered(records[..n], through) ensures r.seqNo < records[n].seqNo && r.id != records[n].id {
      var i :| 0 <= i < n && records[..n][i] == r;
    }
  }

  lemma CopyableLast(before: seq<MessageRecord>, last: MessageRecord)
    requires Copyable(before) && last.seqNo > 0 && !last.visibility.Superseded?
    requires forall r :: r in before ==> r.seqNo < last.seqNo && r.id != last.id
    ensures Copyable(before + [last])
  {
    assert forall k :: 0 <= k < |before| ==> before[k] in before;
  }

  /** What a filtered session hands to a fork can be copied. */
  lemma {:induction false} FilteredIsCopyable(records: seq<MessageRecord>, through: int)
    requires Numbered(records)
    requires forall i, j :: 0 <= i < j < |records| ==> records[i].id != records[j].id
    ensures Copyable(Filtered(records, through))
  {
    hide Copyable;
    if records == [] {
      NothingIsCopyable();
    } else {
      var n := |records| - 1;
      FilteredIsCopyable(records[..n], through);
      FilteredBeforeLast(records, through);
      var before := Filtered(records[..n], through);
      if Live(records[n], through) {
        CopyableLast(before, records[n]);
      } else {
        assert before + [] == before;
      }
    }
  }

  lemma NothingIsCopyable()
    ensures Copyable([])
  {
  }

  lemma CloneLooksBack(prefix: seq<MessageRecord>, image: MessageRecord, sessionId: SessionId, newIds: seq<MessageId>,
      i: nat)
    requires Copyable(prefix) && |newIds| == |prefix| && i < |prefix|
    requires IsClone(prefix[i], image, sessionId, newIds[i], newIds, prefix, i + 1)
    requires AnchorBoundary(prefix[i]).Some? ==> AnchorBoundary(prefix[i]).value < prefix[i].seqNo
    ensures AnchorBoundary(image).Some? ==> AnchorBoundary(image).value < image.seqNo
  {
    if AnchorBoundary(prefix[i]).Some? {
      CountSplits(prefix, AnchorBoundary(prefix[i]).value);
    }
    hide CountThrough;
  }

  lemma ForkLooksBack(source: seq<MessageRecord>, through: int, sessionId: SessionId, newIds: seq<MessageId>,
                      forked: seq<MessageRecord>)
    requires AnchorsLookBack(source) && Copyable(Filtered(source, through)) && |newIds| == |Filtered(source, through)|
    requires ForkedRecords(Filtered(source, through), sessionId, newIds) == Done(forked)
    ensures |forked| == |newIds| && Numbered(forked) && AnchorsLookBack(forked)
  {
    ForkCommutes(source, through, sessionId, newIds);
    hide ForkedRecords, EpochAt, Copyable, IsClone;
    var prefix := Filtered(source, through);
    forall i | 0 <= i < |forked|
      ensures forked[i].seqNo == i + 1
      ensures AnchorBoundary(forked[i]).Some? ==> AnchorBoundary(forked[i]).value < forked[i].seqNo
    {
      assert ImageOf(prefix[i], forked[i], through, EpochAt(source, through),
                     sessionId, newIds[i], newIds, prefix, i + 1);
      assert prefix[i] in prefix && prefix[i] in source;
      CloneLooksBack(prefix, forked[i], sessionId, newIds, i);
      ImageIsNumbered(prefix[i], forked[i], sessionId, newIds[i], newIds, prefix, i + 1);
    }
  }

  /** A fork that succeeds starts a session every later run keeps sound. */
  lemma ForkIsSound(source: seq<MessageRecord>, through: int, sessionId: SessionId, newIds: seq<MessageId>,
                    forked: seq<MessageRecord>)
    requires AnchorsLookBack(source) && Copyable(Filtered(source, through)) && |newIds| == |Filtered(source, through)|
    requires ForkedRecords(Filtered(source, through), sessionId, newIds) == Done(forked)
    ensures Sound(Branch(forked, |newIds|))
  {
    ForkLooksBack(source, through, sessionId, newIds, forked);
    var prefix := Filtered(source, through);
    RebuiltIsIdempotent(Clones(prefix, sessionId, IdMapOf(prefix, newIds), SeqMapOf(prefix), |prefix|).value, |prefix|);
    hide Clones, IdMapOf, SeqMapOf, EpochAt, Rebuilt, Copyable;
  }

  lemma ImageIsNumbered(source: MessageRecord, image: MessageRecord, sessionId: SessionId, newId: MessageId,
                        newIds: seq<MessageId>, prefix: seq<MessageRecord>, seqNo: int)
    requires |newIds| == |prefix| && IsClone(source, image, sessionId, newId, newIds, prefix, seqNo)
    ensures image.seqNo == seqNo
  {
  }
}
