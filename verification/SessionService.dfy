/** electron/application/session-service.ts: the transactions that change stored sessions. A refused
    transaction is rolled back. */
module SessionService {
  import opened Options
  import opened SessionBranch
  import opened SessionHistory
  import opened SessionFork

  datatype SessionRow = SessionRow(
    revision: nat,
    lastSeq: int,
    archived: bool,
    goal: Option<string>,
    plan: Option<string>)

  /** A metadata change: a field left out stays, a given one is set or cleared. */
  datatype Patch = Patch(goal: Option<Option<string>>, plan: Option<Option<string>>)

  /** applyMetadata, on the fields modelled. */
  function Patched(row: SessionRow, patch: Option<Patch>): SessionRow {
    if patch.None? then row
    else
      row.(goal := if patch.value.goal.Some? then patch.value.goal.value else row.goal,
           plan := if patch.value.plan.Some? then patch.value.plan.value else row.plan)
  }

  /** The row after n more records: a new revision and a later last number. */
  function Bumped(row: SessionRow, n: nat): SessionRow {
    row.(revision := row.revision + 1, lastSeq := row.lastSeq + n)
  }

  /** A first turn is stored, found stored already under the same request, or refused. */
  datatype FirstTurn =
    | Committed(row: SessionRow)
    | Deduplicated(row: SessionRow, user: MessageRecord)
    | Failed(reason: Refusal)

  /** The repository's uniqueness constraint on message ids within one session. */
  predicate DistinctIds(records: seq<MessageRecord>) {
    forall i, j :: 0 <= i < j < |records| ==> records[i].id != records[j].id
  }

  /** What the repositories store for one session. */
  ghost predicate Stored(sid: SessionId, row: SessionRow, records: seq<MessageRecord>) {
    && |records| == row.lastSeq && Numbered(records) && DistinctIds(records)
    && forall i :: 0 <= i < |records| ==> records[i].sessionId == sid
  }

  /** assertNewSessionBatch. */
  ghost predicate NewSessionBatch(sessionId: SessionId, row: SessionRow, messages: seq<MessageRecord>) {
    && row.revision == 1 && !row.archived && messages != [] && row.lastSeq == |messages|
    && (forall i :: 0 <= i < |messages| ==> messages[i].sessionId == sessionId && messages[i].seqNo == i + 1)
    && exists i :: OnlyRequest(messages, i)
  }

  /** The message at `i`, and no other, is a user message that carries a client request. */
  ghost predicate OnlyRequest(messages: seq<MessageRecord>, i: int) {
    && 0 <= i < |messages| && messages[i].content.UserInput? && messages[i].content.origin.Original?
    && forall j :: 0 <= j < |messages| && j != i ==>
         !(messages[j].content.UserInput? && messages[j].content.origin.Original?)
  }

  lemma {:induction false} NoOriginals(messages: seq<MessageRecord>)
    ensures OriginalUsers(messages) == 0 <==>
            forall i :: 0 <= i < |messages| ==>
              !(messages[i].content.UserInput? && messages[i].content.origin.Original?)
  {
    if messages != [] {
      var n := |messages| - 1;
      NoOriginals(messages[..n]);
      assert forall i :: 0 <= i < n ==> messages[..n][i] == messages[i];
    }
  }

  /** Counting one is finding exactly one. */
  lemma {:induction false} OneOriginal(messages: seq<MessageRecord>)
    ensures OriginalUsers(messages) == 1 <==> exists i :: OnlyRequest(messages, i)
  {
    if messages != [] {
      var n := |messages| - 1;
      var before := messages[..n];
      OneOriginal(before);
      NoOriginals(before);
      assert forall i :: 0 <= i < n ==> before[i] == messages[i];
      if IsOriginalUser(messages[n]) {
        if OriginalUsers(before) == 0 {
          assert OnlyRequest(messages, n);
        }
      } else if exists i :: OnlyRequest(before, i) {
        var i :| OnlyRequest(before, i);
        assert OnlyRequest(messages, i);
      } else if exists i :: OnlyRequest(messages, i) {
        var i :| OnlyRequest(messages, i);
        assert OnlyRequest(before, i);
      }
    }
  }

  function OriginalUsers(messages: seq<MessageRecord>): nat {
    if messages == [] then 0 else
      var n := |messages| - 1;
      OriginalUsers(messages[..n]) + (if IsOriginalUser(messages[n]) then 1 else 0)
  }

  method CheckNewSessionBatch(sessionId: SessionId, row: SessionRow, messages: seq<MessageRecord>) returns (ok: bool)
    ensures ok <==> NewSessionBatch(sessionId, row, messages)
  {
    if row.revision != 1 || row.archived || messages == [] || row.lastSeq != |messages| {
      return false;
    }
    var seqNo, originalUsers := 0, 0;
    for i := 0 to |messages|
      invariant seqNo == i
      invariant forall k :: 0 <= k < i ==> messages[k].sessionId == sessionId && messages[k].seqNo == k + 1
      invariant originalUsers == OriginalUsers(messages[..i])
    {
      seqNo := seqNo + 1;
      if messages[i].sessionId != sessionId || messages[i].seqNo != seqNo {
        return false;
      }
      assert messages[..i + 1][..i] == messages[..i];
      if IsOriginalUser(messages[i]) {
        originalUsers := originalUsers + 1;
      }
    }
    assert messages[..|messages|] == messages;
    OneOriginal(messages);
    ok := originalUsers == 1;
  }

  /** assertAppendBatch. */
  ghost predicate AppendBatch(sessionId: SessionId, lastSeq: int, batch: seq<MessageRecord>) {
    ContiguousBatch(lastSeq, batch) && forall i :: 0 <= i < |batch| ==> batch[i].sessionId == sessionId
  }

  method CheckAppendBatch(sessionId: SessionId, lastSeq: int, batch: seq<MessageRecord>) returns (ok: bool)
    ensures ok <==> AppendBatch(sessionId, lastSeq, batch)
  {
    var expectedSeq := lastSeq + 1;
    for i := 0 to |batch|
      invariant expectedSeq == lastSeq + 1 + i
      invariant forall k :: 0 <= k < i ==>
        batch[k].sessionId == sessionId && batch[k].seqNo == lastSeq + 1 + k &&
            (batch[k].inHistory || IsControlCommand(batch[k]))
    {
      if batch[i].sessionId != sessionId || batch[i].seqNo != expectedSeq ||
          (!batch[i].inHistory && !IsControlCommand(batch[i])) {
        return false;
      }
      expectedSeq := expectedSeq + 1;
    }
    ok := true;
  }

  function Active(records: seq<MessageRecord>): (active: seq<MessageRecord>)
    ensures forall r :: r in active <==> r in records && r.inHistory
  {
    if records == [] then [] else
      var n := |records| - 1;
      Active(records[..n]) + (if records[n].inHistory then [records[n]] else [])
  }

  /** The original user message that carries a client request. */
  function FindRequest(records: seq<MessageRecord>, request: string): (found: Option<MessageRecord>)
    ensures found.Some? ==> found.value in records && IsOriginalUser(found.value)
                            && found.value.content.origin.clientRequestId == request
    ensures found.None? ==> forall r :: r in records && IsOriginalUser(r) ==>
        r.content.origin.clientRequestId != request
  {
    if records == [] then None
    else if IsOriginalUser(records[0]) && records[0].content.origin.clientRequestId == request then Some(records[0])
    else FindRequest(records[1..], request)
  }

  /** The first of the records that is a user message carrying this request is the one at `k`. */
  ghost predicate FirstRequest(records: seq<MessageRecord>, request: string, k: int) {
    && 0 <= k < |records| && CarriesRequest(records[k], request)
    && forall j :: 0 <= j < k ==> !CarriesRequest(records[j], request)
  }

  ghost predicate CarriesRequest(r: MessageRecord, request: string) {
    r.content.UserInput? && r.content.origin.Original? && r.content.origin.clientRequestId == request
  }

  lemma {:induction false} FindRequestIsFirst(records: seq<MessageRecord>, request: string)
    ensures FindRequest(records, request).Some? <==> exists k :: FirstRequest(records, request, k)
    ensures forall k :: FirstRequest(records, request, k) ==> FindRequest(records, request) == Some(records[k])
  {
    if records != [] {
      var rest := records[1..];
      FindRequestIsFirst(rest, request);
      if CarriesRequest(records[0], request) {
        assert FirstRequest(records, request, 0);
      } else {
        forall k ensures FirstRequest(records, request, k) <==> FirstRequest(rest, request, k - 1) {
          assert forall j :: 1 <= j < |records| ==> records[j] == rest[j - 1];
        }
        if exists k :: FirstRequest(rest, request, k) {
          var k :| FirstRequest(rest, request, k);
          assert FirstRequest(records, request, k + 1);
        }
      }
    }
  }

  function FirstOriginal(records: seq<MessageRecord>): (found: Option<MessageRecord>)
    ensures found.Some? ==> found.value in records && IsOriginalUser(found.value)
    ensures found.None? ==> forall r :: r in records ==> !IsOriginalUser(r)
  {
    if records == [] then None else if IsOriginalUser(records[0]) then Some(records[0]) else FirstOriginal(records[1..])
  }

  /** A batch with exactly one original user message has that one as its first. */
  lemma TheOriginal(messages: seq<MessageRecord>, i: int)
    requires OnlyRequest(messages, i)
    ensures FirstOriginal(messages) == Some(messages[i])
  {
    assert messages[i] in messages;
  }

  /** Rewind targets, by kind of boundary. */
  predicate RewindTarget(r: MessageRecord, boundary: RewindBoundary) {
    && r.visibility.Visible?
    && (r.content.UserInput? || r.content.AssistantTurn?)
    && (boundary.BeforeMessage? || (IsOriginalUser(r) && !IsControlCommand(r)))
  }

  /** Fork points. */
  predicate ForkPoint(r: MessageRecord) {
    r.visibility.Visible? && (r.content.AssistantTurn? || (IsOriginalUser(r) && !IsControlCommand(r)))
  }

  function FindId(records: seq<MessageRecord>, id: MessageId): (found: Option<MessageRecord>)
    ensures found.Some? ==> found.value in records && found.value.id == id
    ensures found.None? ==> forall r :: r in records ==> r.id != id
  {
    if records == [] then None
    else if records[0].id == id then Some(records[0])
    else FindId(records[1..], id)
  }

  const MAX_FORK_MESSAGE_RECORDS := 512

  /** All live records, and the sequence number a fork starts from: its point or the last live record. */
  function Current(records: seq<MessageRecord>): seq<MessageRecord> {
    Filtered(records, if records == [] then 0 else records[|records| - 1].seqNo)
  }

  function ForkStart(records: seq<MessageRecord>, from: Option<MessageRecord>): int {
    var current := Current(records);
    if from.Some? then from.value.seqNo else if current == [] then 0 else current[|current| - 1].seqNo
  }

  /** Where the copied prefix ends: carried on to the end of the tool batch its last message opens. */
  function ForkThrough(records: seq<MessageRecord>, from: Option<MessageRecord>): Option<int> {
    var prefix := Filtered(records, ForkStart(records, from));
    if prefix != [] && prefix[|prefix| - 1].content.AssistantTurn? && prefix[|prefix| - 1].content.calls != []
    then BatchEnd(Current(records), prefix[|prefix| - 1].seqNo)
    else Some(ForkStart(records, from))
  }

  /** The number a fork starts from: its point's, or that of the last record that stands, or 0. */
  ghost predicate StartsAt(records: seq<MessageRecord>, from: Option<MessageRecord>, start: int) {
    match from
    case Some(point) => start == point.seqNo
    case None =>
      if forall r :: r in records ==> r.visibility == Superseded then start == 0
      else
        && (exists r :: r in records && r.visibility != Superseded && r.seqNo == start)
        && forall r :: r in records && r.visibility != Superseded ==> r.seqNo <= start
  }

  /** The last record that stands up to `start` is an assistant turn, and it calls tools. */
  ghost predicate OpensBatch(records: seq<MessageRecord>, start: int, opening: MessageRecord) {
    && opening in records && opening.visibility != Superseded && opening.seqNo <= start
    && (forall r :: r in records && r.visibility != Superseded && r.seqNo <= start ==> r.seqNo <= opening.seqNo)
    && opening.content.AssistantTurn? && opening.content.calls != []
  }

  /** Its calls are answered one by one by the records right behind it, which stand too. */
  ghost predicate BatchComplete(records: seq<MessageRecord>, opening: MessageRecord)
    requires opening.content.AssistantTurn?
  {
    forall k :: 0 <= k < |opening.content.calls| ==> AnsweredBy(records, opening, k)
  }

  ghost predicate AnsweredBy(records: seq<MessageRecord>, opening: MessageRecord, k: int)
    requires opening.content.AssistantTurn? && 0 <= k < |opening.content.calls|
  {
    exists r :: r in records && r.visibility != Superseded
                && r.seqNo == opening.seqNo + 1 + k && r.content == ToolResult(opening.content.calls[k])
  }

  /** The number of the last record a fork copies: that of the last answer of a batch it would cut, and else the
      number it starts from. */
  ghost predicate EndsAt(records: seq<MessageRecord>, start: int, end: int) {
    && (forall r :: OpensBatch(records, start, r) ==>
          BatchComplete(records, r) && end == r.seqNo + |r.content.calls|)
    && ((forall r :: !OpensBatch(records, start, r)) ==> end == start)
  }

  lemma {:induction false} LastFiltered(records: seq<MessageRecord>, through: int)
    requires Numbered(records)
    ensures var kept := Filtered(records, through);
            kept != [] ==> forall r :: r in kept ==> r.seqNo <= kept[|kept| - 1].seqNo
  {
    if records != [] {
      var n := |records| - 1;
      LastFiltered(records[..n], through);
      var kept := Filtered(records, through);
      if Live(records[n], through) {
        assert kept[|kept| - 1] == records[n];
        forall r | r in kept ensures r.seqNo <= records[n].seqNo {
          var i :| 0 <= i < |records| && records[i] == r;
        }
      } else {
        assert kept == Filtered(records[..n], through);
      }
    }
  }

  /** Without a point a fork starts from the last record that stands. */
  lemma ForkStartsAt(records: seq<MessageRecord>, from: Option<MessageRecord>)
    requires Numbered(records)
    ensures StartsAt(records, from, ForkStart(records, from))
  {
    if from.None? && records != [] {
      var last := records[|records| - 1].seqNo;
      assert last == |records|;
      forall r | r in records ensures r.seqNo <= last {
        var i :| 0 <= i < |records| && records[i] == r;
      }
      LastFiltered(records, last);
      var current := Filtered(records, last);
      if current != [] {
        assert current[|current| - 1] in current;
      } else {
        forall r | r in records ensures r.visibility == Superseded {
          assert r !in current;
        }
      }
    }
    hide Filtered;
  }

  /** The record a number leads to, among numbered records. */
  lemma FoundBySeq(records: seq<MessageRecord>, r: MessageRecord)
    requires r in records && forall x, y :: x in records && y in records && x.seqNo == y.seqNo ==> x == y
    ensures FindSeq(records, r.seqNo) == Some(r)
  {
  }

  lemma CurrentStands(records: seq<MessageRecord>)
    requires Numbered(records)
    ensures forall r :: r in Current(records) <==> r in records && r.visibility != Superseded
    ensures forall x, y :: x in Current(records) && y in Current(records) && x.seqNo == y.seqNo ==> x == y
  {
    forall r | r in records ensures r.seqNo <= records[|records| - 1].seqNo {
      var i :| 0 <= i < |records| && records[i] == r;
    }
    forall x, y | x in records && y in records && x.seqNo == y.seqNo ensures x == y {
      var i :| 0 <= i < |records| && records[i] == x;
      var j :| 0 <= j < |records| && records[j] == y;
    }
  }

  lemma AnsweredMeans(records: seq<MessageRecord>, opening: MessageRecord, k: nat)
    requires Numbered(records) && opening.content.AssistantTurn? && k < |opening.content.calls|
    ensures Answered(Current(records), opening.seqNo, opening.content.calls, k) <==> AnsweredBy(records, opening, k)
  {
    CurrentStands(records);
    hide Current;
    if AnsweredBy(records, opening, k) {
      var r :| r in records && r.visibility != Superseded
                && r.seqNo == opening.seqNo + 1 + k && r.content == ToolResult(opening.content.calls[k]);
      FoundBySeq(Current(records), r);
    }
  }

  /** For an assistant turn among the records that stand, the batch ends with its last answer or is refused. */
  lemma BatchEndMeans(records: seq<MessageRecord>, opening: MessageRecord)
    requires Numbered(records) && opening in records && opening.visibility != Superseded
    requires opening.content.AssistantTurn?
    ensures BatchEnd(Current(records), opening.seqNo) ==
            if BatchComplete(records, opening) then Some(opening.seqNo + |opening.content.calls|) else None
  {
    CurrentStands(records);
    FoundBySeq(Current(records), opening);
    forall k | 0 <= k < |opening.content.calls|
      ensures Answered(Current(records), opening.seqNo, opening.content.calls, k) <==> AnsweredBy(records, opening, k)
    {
      AnsweredMeans(records, opening, k);
    }
    hide Current, Answered, AnsweredBy, FindSeq;
  }

  /** Only the last of the filtered records can open a batch. */
  lemma OnlyTheLastOpens(records: seq<MessageRecord>, start: int, r: MessageRecord)
    requires Numbered(records)
    ensures var kept := Filtered(records, start);
            OpensBatch(records, start, r) <==>
              kept != [] && r == kept[|kept| - 1] && r.content.AssistantTurn? && r.content.calls != []
  {
    var kept := Filtered(records, start);
    LastFiltered(records, start);
    hide Filtered;
    if OpensBatch(records, start, r) {
      assert r in kept && kept[|kept| - 1] in kept;
      NumberedAreDistinct(records, r, kept[|kept| - 1]);
    }
    if kept != [] && r == kept[|kept| - 1] {
      assert r in kept;
      assert forall x :: x in records && x.visibility != Superseded && x.seqNo <= start ==> x in kept;
    }
  }

  /** A fork that would cut a batch takes the whole of it or is refused; any other ends where it starts. */
  lemma ForkEndsAt(records: seq<MessageRecord>, from: Option<MessageRecord>)
    requires Numbered(records)
    ensures var start := ForkStart(records, from);
            && (ForkThrough(records, from).Some? <==>
                  forall r :: OpensBatch(records, start, r) ==> BatchComplete(records, r))
            && (ForkThrough(records, from).Some? ==> EndsAt(records, start, ForkThrough(records, from).value))
  {
    hide ForkStart, Current, BatchComplete, BatchEnd, Filtered, OpensBatch, Numbered;
    var start := ForkStart(records, from);
    var kept := Filtered(records, start);
    forall r ensures OpensBatch(records, start, r) <==>
        kept != [] && r == kept[|kept| - 1] && r.content.AssistantTurn? && r.content.calls != []
    {
      OnlyTheLastOpens(records, start, r);
    }
    if kept != [] && kept[|kept| - 1].content.AssistantTurn? {
      assert kept[|kept| - 1] in kept;
      BatchEndMeans(records, kept[|kept| - 1]);
    }
  }

  lemma NumberedAreDistinct(records: seq<MessageRecord>, x: MessageRecord, y: MessageRecord)
    requires Numbered(records) && x in records && y in records && x.seqNo == y.seqNo
    ensures x == y
  {
  }

  method ForkPrefixEnd(records: seq<MessageRecord>, from: Option<MessageRecord>) returns (through: Outcome<int>)
    ensures through.Done? <==>
      && |Filtered(records, ForkStart(records, from))| <= MAX_FORK_MESSAGE_RECORDS
      && ForkThrough(records, from).Some?
      && |Filtered(records, ForkThrough(records, from).value)| <= MAX_FORK_MESSAGE_RECORDS
    ensures through.Done? ==> Some(through.value) == ForkThrough(records, from)
    ensures through.Refused? ==>
      if |Filtered(records, ForkStart(records, from))| <= MAX_FORK_MESSAGE_RECORDS && ForkThrough(records, from).None?
      then through.reason == PreconditionFailed
      else through.reason == PayloadTooLarge
    ensures through.Done? && Numbered(records) ==>
      exists start :: StartsAt(records, from, start) && EndsAt(records, start, through.value)
    ensures through == Refused(PreconditionFailed) && Numbered(records) ==>
      exists start, r :: StartsAt(records, from, start) && OpensBatch(records, start, r) && !BatchComplete(records, r)
  {
    if Numbered(records) {
      ForkStartsAt(records, from);
      ForkEndsAt(records, from);
    }
    hide Numbered, StartsAt, EndsAt, OpensBatch, BatchComplete;
    hide Filtered, BatchEnd;
    var throughSeq := ForkStart(records, from);
    var prefix := Filtered(records, throughSeq);
    if |prefix| > MAX_FORK_MESSAGE_RECORDS {
      return Refused(PayloadTooLarge);
    }
    if prefix != [] && prefix[|prefix| - 1].content.AssistantTurn? && prefix[|prefix| - 1].content.calls != [] {
      var expandedThrough := TerminalToolBatchEnd(Current(records), prefix[|prefix| - 1].seqNo);
      if expandedThrough.None? {
        return Refused(PreconditionFailed);
      }
      throughSeq := expandedThrough.value;
      prefix := Filtered(records, throughSeq);
    }
    if |prefix| > MAX_FORK_MESSAGE_RECORDS {
      return Refused(PayloadTooLarge);
    }
    through := Done(throughSeq);
  }

  lemma {:induction false} FilteredIsShorter(records: seq<MessageRecord>, through: int)
    ensures |Filtered(records, through)| <= |records|
  {
    if records != [] {
      FilteredIsShorter(records[..|records| - 1], through);
    }
  }

  lemma StoredIsCopyable(sid: SessionId, row: SessionRow, records: seq<MessageRecord>, through: int)
    requires Stored(sid, row, records)
    ensures Copyable(Filtered(records, through))
  {
    FilteredIsCopyable(records, through);
  }

  lemma ForkStored(source: seq<MessageRecord>, through: int, sid: SessionId, newIds: seq<MessageId>,
      forked: seq<MessageRecord>)
    requires Numbered(source) && Copyable(Filtered(source, through)) && |newIds| == |Filtered(source, through)|
    requires forall i, j :: 0 <= i < j < |newIds| ==> newIds[i] != newIds[j]
    requires ForkedRecords(Filtered(source, through), sid, newIds) == Done(forked)
    ensures forall goal, plan :: Stored(sid, SessionRow(1, |newIds|, false, goal, plan), forked)
    ensures AnchorsLookBack(source) ==> Sound(Branch(forked, |newIds|))
  {
    hide Filtered, Copyable, ForkedRecords, EpochAt, Closed, Sound, AnchorsLookBack;
    ForkCommutes(source, through, sid, newIds);
    var prefix := Filtered(source, through);
    forall i | 0 <= i < |forked|
      ensures forked[i].id == newIds[i] && forked[i].sessionId == sid && forked[i].seqNo == i + 1
    {
      assert ImageOf(prefix[i], forked[i], through, EpochAt(source, through), sid, newIds[i], newIds, prefix, i + 1);
    }
    if AnchorsLookBack(source) {
      ForkIsSound(source, through, sid, newIds, forked);
    }
  }

  /** The maps from old to new ids and numbers. */
  method ForkMaps(prefix: seq<MessageRecord>, newIds: seq<MessageId>)
      returns (idMap: map<MessageId, MessageId>, seqMap: seq<(int, int)>)
    requires |newIds| == |prefix|
    ensures idMap == IdMapOf(prefix, newIds) && seqMap == SeqMapOf(prefix)
  {
    idMap, seqMap := map[], [];
    for i := 0 to |prefix|
      invariant idMap == IdMapOf(prefix[..i], newIds[..i])
      invariant seqMap == SeqMapOf(prefix[..i])
    {
      assert prefix[..i + 1][..i] == prefix[..i] && newIds[..i + 1][..i] == newIds[..i];
      idMap := idMap[prefix[i].id := newIds[i]];
      seqMap := seqMap + [(prefix[i].seqNo, i + 1)];
    }
    assert prefix[..|prefix|] == prefix && newIds[..|prefix|] == newIds;
  }

  /** The body of a fork: fill both maps, clone record by record, rebuild the flags in place. */
  method CopyPrefix(prefix: seq<MessageRecord>, sid: SessionId, newIds: seq<MessageId>)
      returns (forked: Outcome<seq<MessageRecord>>)
    requires |newIds| == |prefix|
    ensures forked.Done? <==> ForkedRecords(prefix, sid, newIds).Done?
    ensures forked.Done? ==> forked == ForkedRecords(prefix, sid, newIds)
    ensures forked.Refused? ==> forked.reason == PreconditionFailed
  {
    hide CloneForkMessage, Rebuilt, IdMapOf, SeqMapOf;
    var idMap, seqMap := ForkMaps(prefix, newIds);
    var clones: seq<MessageRecord> := [];
    for i := 0 to |prefix|
      invariant Clones(prefix, sid, idMap, seqMap, i) == Done(clones)
    {
      var clone := CloneForkMessage(prefix[i], sid, idMap, seqMap, i + 1);
      if clone.Refused? {
        RefusalStays(prefix, sid, idMap, seqMap, i + 1);
        CloneIsRefused(prefix[i], sid, idMap, seqMap, i + 1);
        return Refused(clone.reason);
      }
      clones := clones + [clone.value];
    }
    var records := new MessageRecord[|clones|](i requires 0 <= i < |clones| => clones[i]);
    assert records[..] == clones;
    RebuildActiveBranch(records, |clones|);
    forked := Done(records[..]);
  }

  lemma CloneIsRefused(source: MessageRecord, sid: SessionId, idMap: map<MessageId, MessageId>,
                       seqMap: seq<(int, int)>, seqNo: int)
    ensures CloneForkMessage(source, sid, idMap, seqMap, seqNo).Refused? ==>
              CloneForkMessage(source, sid, idMap, seqMap, seqNo).reason == PreconditionFailed
  {
    hide RemapForkBoundary;
  }

  lemma {:induction false} RefusalStays(prefix: seq<MessageRecord>, sid: SessionId, idMap: map<MessageId, MessageId>,
                                        seqMap: seq<(int, int)>, n: nat)
    requires n <= |prefix| && Clones(prefix, sid, idMap, seqMap, n).Refused?
    ensures Clones(prefix, sid, idMap, seqMap, |prefix|).Refused?
    decreases |prefix| - n
  {
    if n < |prefix| {
      RefusalStays(prefix, sid, idMap, seqMap, n + 1);
    }
  }

  lemma AppendStored(sid: SessionId, row: SessionRow, records: seq<MessageRecord>, batch: seq<MessageRecord>,
      deactivate: Option<int>)
    requires Stored(sid, row, records) && AppendBatch(sid, row.lastSeq, batch) && DistinctIds(records + batch)
    ensures forall patch :: Stored(sid, Bumped(Patched(row, patch), |batch|), Deactivated(records, deactivate) + batch)
  {
    var after, both := Deactivated(records, deactivate) + batch, records + batch;
    assert forall i :: 0 <= i < |both| ==> after[i].id == both[i].id;
  }

  /** What was stored keeps everything but its flag, which is dropped up to the given number; the batch follows. */
  ghost predicate AppendedTo(was: seq<MessageRecord>, now: seq<MessageRecord>, batch: seq<MessageRecord>,
      deactivate: Option<int>)
  {
    && |now| == |was| + |batch| && now[|was|..] == batch
    && forall i :: 0 <= i < |was| ==>
         var dropped := deactivate.Some? && was[i].seqNo <= deactivate.value;
         now[i] == was[i].(inHistory := was[i].inHistory && !dropped)
  }

  lemma DeactivatedOnly(records: seq<MessageRecord>, batch: seq<MessageRecord>, deactivate: Option<int>)
    ensures AppendedTo(records, Deactivated(records, deactivate) + batch, batch, deactivate)
  {
  }

  /** A field left out of a change stays; a field given is set or cleared as given. */
  ghost predicate PatchSets(before: Option<string>, change: Option<Option<string>>, after: Option<string>) {
    match change
    case None => after == before
    case Some(given) => after == given
  }

  lemma PatchedSets(row: SessionRow, patch: Option<Patch>)
    ensures var p := Patched(row, patch);
            && PatchSets(row.goal, if patch.Some? then patch.value.goal else None, p.goal)
            && PatchSets(row.plan, if patch.Some? then patch.value.plan else None, p.plan)
            && p == row.(goal := p.goal, plan := p.plan)
  {
  }

  lemma PatchedKeepsNumbers(row: SessionRow, n: nat, patch: Option<Patch>)
    ensures Patched(Bumped(row, n), patch) == Bumped(Patched(row, patch), n)
    ensures Patched(row, patch).revision == row.revision && Patched(row, patch).lastSeq == row.lastSeq
  {
  }

  lemma MutationKeepsConsistency(s: Branch, sid: SessionId, batch: seq<MessageRecord>, deactivate: Option<int>)
    requires AppendBatch(sid, s.lastSeq, batch)
    ensures Consistent(s) ==> (Consistent(AfterAppend(s, batch, deactivate)) <==> AppendFits(s, batch, deactivate))
  {
    hide Consistent, AppendFits, AfterAppend;
    if Consistent(s) {
      AppendKeepsConsistency(s, batch, deactivate);
    }
  }

  lemma RewindStored(sid: SessionId, row: SessionRow, records: seq<MessageRecord>, boundary: int)
    requires Stored(sid, row, records)
    ensures Stored(sid, row.(revision := row.revision + 1), Rebuilt(SupersededBeyond(records, boundary), boundary))
  {
    var after := Rebuilt(SupersededBeyond(records, boundary), boundary);
    assert forall i :: 0 <= i < |records| ==>
        after[i].id == records[i].id && after[i].sessionId == records[i].sessionId;
  }

  class SessionStore {
    var rows: map<SessionId, SessionRow>
    var messages: map<SessionId, seq<MessageRecord>>

    ghost predicate Valid()
      reads this
    {
      rows.Keys == messages.Keys && forall sid :: sid in rows ==> Stored(sid, rows[sid], messages[sid])
    }

    ghost function At(sid: SessionId): Branch
      requires sid in rows && sid in messages
      reads this
    {
      Branch(messages[sid], rows[sid].lastSeq)
    }

    constructor ()
      ensures Valid() && rows == map[] && messages == map[]
    {
      rows, messages := map[], map[];
    }

    /** A conflict with what is stored is looked up: the same request with the same hash was answered before. */
    method CommitFirstTurn(sid: SessionId, row: SessionRow, first: seq<MessageRecord>, requestHash: string)
      returns (result: FirstTurn)
      requires Valid()
      modifies this
      ensures Valid()
      ensures result.Committed? <==> NewSessionBatch(sid, row, first) && sid !in old(rows) && DistinctIds(first)
      ensures result.Committed? ==>
        result.row == row && rows == old(rows)[sid := row] && messages == old(messages)[sid := first]
      ensures result.Committed? && WellFormedFirstTurn(first) ==> sid in rows && Sound(At(sid))
      ensures result.Deduplicated? <==>
        NewSessionBatch(sid, row, first) && sid in old(rows) && Repeats(old(messages)[sid], first, requestHash)
      ensures result.Deduplicated? ==> sid in rows && result.row == rows[sid]
      ensures result.Deduplicated? ==>
        sid in messages && forall i, k :: RepeatsAt(messages[sid], first, i, k) ==> result.user == messages[sid][k]
      ensures result.Failed? ==>
        result.reason == if NewSessionBatch(sid, row, first) then Conflict else PreconditionFailed
      ensures !result.Committed? ==> rows == old(rows) && messages == old(messages)
    {
      hide Sound, EpochAt, WellFormedFirstTurn;
      var ok := CheckNewSessionBatch(sid, row, first);
      if !ok {
        return Failed(PreconditionFailed);
      }
      if sid in rows || !DistinctIds(first) {
        if sid in rows {
          RepeatsExactly(messages[sid], first, requestHash);
        }
        hide RepeatsAt;
        var user := FirstOriginal(first);
        if sid !in rows || user.None? {
          return Failed(Conflict);
        }
        var stored := FindRequest(messages[sid], user.value.content.origin.clientRequestId);
        if stored.None? || stored.value.content.origin.requestHash != Some(requestHash) {
          return Failed(Conflict);
        }
        return Deduplicated(rows[sid], stored.value);
      }
      rows := rows[sid := row];
      messages := messages[sid := first];
      result := Committed(row);
      FirstTurnIsSound(first);
    }

    method CommitMutation(sid: SessionId, expectedRevision: nat, expectedLastSeq: int, batch: seq<MessageRecord>,
                          deactivate: Option<int>, patch: Option<Patch>, requireIdle: bool, idle: bool)
      returns (result: Outcome<SessionRow>)
      requires Valid()
      modifies this
      ensures Valid()
      ensures result.Done? <==> (
        && sid in old(rows)
        && MutationAllowed(sid, old(rows)[sid], old(messages)[sid], expectedRevision, expectedLastSeq, batch,
                           deactivate, requireIdle, idle))
      ensures result.Done? ==> sid in messages && AppendedTo(old(messages)[sid], messages[sid], batch, deactivate)
      ensures result.Done? ==>
        && result.value == Bumped(Patched(old(rows)[sid], patch), |batch|)
        && PatchSets(old(rows)[sid].goal, if patch.Some? then patch.value.goal else None, result.value.goal)
        && PatchSets(old(rows)[sid].plan, if patch.Some? then patch.value.plan else None, result.value.plan)
        && result.value.revision == expectedRevision + 1 && result.value.lastSeq == expectedLastSeq + |batch|
        && !result.value.archived
        && rows == old(rows)[sid := result.value]
        && messages == old(messages)[sid := Deactivated(old(messages)[sid], deactivate) + batch]
        && At(sid) == AfterAppend(old(At(sid)), batch, deactivate)
      ensures result.Done? && old(Consistent(At(sid))) ==>
          (Consistent(At(sid)) <==> old(AppendFits(At(sid), batch, deactivate)))
      ensures result.Refused? ==> rows == old(rows) && messages == old(messages)
      ensures result.Refused? && sid !in old(rows) ==> result.reason == NotFound
      ensures result.Refused? && sid in old(rows) ==>
        var row := old(rows)[sid];
        var stale := row.revision != expectedRevision || row.lastSeq != expectedLastSeq;
        var wellFormed := !row.archived && AppendBatch(sid, expectedLastSeq, batch)
                          && (deactivate.Some? ==> 1 <= deactivate.value <= expectedLastSeq);
        result.reason == if (requireIdle && !idle) || stale || wellFormed then Conflict else PreconditionFailed
    {
      hide Consistent, AppendFits, AppendBatch, Deactivated, DistinctIds, Patched, Stored;
      if sid !in rows {
        return Refused(NotFound);
      }
      var current := rows[sid];
      if requireIdle && !idle {
        return Refused(Conflict);
      }
      if current.revision != expectedRevision || current.lastSeq != expectedLastSeq {
        return Refused(Conflict);
      }
      if current.archived {
        return Refused(PreconditionFailed);
      }
      var ok := CheckAppendBatch(sid, current.lastSeq, batch);
      if !ok || (deactivate.Some? && (deactivate.value < 1 || deactivate.value > current.lastSeq)) {
        return Refused(PreconditionFailed);
      }
      if !DistinctIds(messages[sid] + batch) {
        return Refused(Conflict);
      }
      AppendStored(sid, current, messages[sid], batch, deactivate);
      MutationKeepsConsistency(At(sid), sid, batch, deactivate);
      PatchedKeepsNumbers(current, |batch|, patch);
      PatchedSets(current, patch);
      DeactivatedOnly(messages[sid], batch, deactivate);
      var next := Patched(current.(revision := current.revision + 1, lastSeq := current.lastSeq + |batch|), patch);
      messages := messages[sid := Deactivated(messages[sid], deactivate) + batch];
      rows := rows[sid := next];
      result := Done(next);
    }

    method Rewind(sid: SessionId, expectedRevision: nat, messageId: MessageId, boundary: RewindBoundary, idle: bool,
                  compiles: seq<MessageRecord> -> bool) returns (result: Outcome<SessionRow>)
      requires Valid()
      modifies this
      ensures Valid()
      ensures result.Done? <==> (
        && sid in old(rows)
        && RewindAllowed(old(rows)[sid], old(messages)[sid], expectedRevision, messageId, boundary, idle, compiles))
      ensures result.Done? ==>
        var target := FindId(old(messages)[sid], messageId).value;
        && result.value == old(rows)[sid].(revision := expectedRevision + 1, goal := None, plan := None)
        && rows == old(rows)[sid := result.value]
        && At(sid) == AfterRewind(old(At(sid)), RewindBoundarySeq(old(messages)[sid], target, boundary))
        && messages == old(messages)[sid := messages[sid]]
        && Consistent(At(sid))
      ensures result.Done? ==>
        forall target :: target in old(messages)[sid] && target.id == messageId ==>
          RewoundTo(old(messages)[sid], messages[sid], target, boundary)
      ensures result.Refused? ==> rows == old(rows) && messages == old(messages)
      ensures result.Refused? && sid !in old(rows) ==> result.reason == NotFound
      ensures result.Refused? && sid in old(rows) ==>
        var stale := old(rows)[sid].revision != expectedRevision;
        result.reason == if !idle || stale then Conflict else PreconditionFailed
    {
      hide Consistent, Rebuilt, RewindTarget, RewindBoundarySeq, DistinctIds, Active, RewindAllowed, RewoundTo;
      if sid !in rows {
        return Refused(NotFound);
      }
      RewindAllowedExactly(rows[sid], messages[sid], expectedRevision, messageId, boundary, idle, compiles);
      if !idle {
        return Refused(Conflict);
      }
      var current := rows[sid];
      if current.revision != expectedRevision {
        return Refused(Conflict);
      }
      if current.archived {
        return Refused(PreconditionFailed);
      }
      var target := FindId(messages[sid], messageId);
      if target.None? || !RewindTarget(target.value, boundary) {
        return Refused(PreconditionFailed);
      }
      var boundarySeq := RewindBoundarySeq(messages[sid], target.value, boundary);
      var rewound := RewindRecords(messages[sid], boundarySeq);
      var active := Active(rewound);
      if active != [] && !compiles(active) {
        return Refused(PreconditionFailed);
      }
      RewindStored(sid, current, messages[sid], boundarySeq);
      RewindKeepsConsistency(At(sid), boundarySeq);
      OnlyTarget(messages[sid], target.value, boundary);
      var next := current.(goal := None, plan := None, revision := current.revision + 1);
      messages := messages[sid := rewound];
      rows := rows[sid := next];
      result := Done(next);
    }

    method Fork(source: SessionId, expectedRevision: nat, sid: SessionId, point: Option<MessageId>, idle: bool,
                newIds: seq<MessageId>, compiles: seq<MessageRecord> -> bool) returns (result: Outcome<SessionRow>)
      requires Valid()
      requires forall i, j :: 0 <= i < j < |newIds| ==> newIds[i] != newIds[j]
      requires source in messages ==> |newIds| >= |messages[source]|
      modifies this
      ensures Valid()
      ensures result.Done? <==> (
        && source in old(rows) && sid !in old(rows) && idle && old(rows)[source].revision == expectedRevision
        && ForkAllowed(old(messages)[source], point, sid, newIds, compiles))
      ensures result.Done? ==>
        && rows == old(rows)[sid := result.value] && messages == old(messages)[sid := messages[sid]]
        && exists through ::
             ForkedInto(old(rows)[source], old(messages)[source], point, through, sid, newIds,
                        result.value, messages[sid])
      ensures result.Done? && old(AnchorsLookBack(messages[source])) ==> Sound(At(sid))
      ensures result.Refused? ==> rows == old(rows) && messages == old(messages)
      ensures result.Refused? ==>
        if !idle then result.reason == Conflict
        else if source !in old(rows) then result.reason == NotFound
        else if old(rows)[source].revision != expectedRevision || sid in old(rows) then result.reason == Conflict
        else if point.Some? && forall r :: r in old(messages)[source] ==> r.id != point.value
        then result.reason == NotFound
        else result.reason in {PreconditionFailed, PayloadTooLarge}
    {
      hide ForkedRecords, Sound, EpochAt, ForkMeets, Clones, DistinctIds, Active, Copyable, Filtered;
      hide ForkThrough, ForkStart, FindId, AnchorsLookBack, ForkAllowed, ForkTakes;
      if !idle {
        return Refused(Conflict);
      }
      if source !in rows {
        return Refused(NotFound);
      }
      if rows[source].revision != expectedRevision || sid in rows {
        return Refused(Conflict);
      }
      var stored := messages[source];
      ForkAllowedExactly(stored, point, sid, newIds, compiles);
      var from: Option<MessageRecord> := None;
      if point.Some? {
        from := FindId(stored, point.value);
        if from.None? {
          return Refused(NotFound);
        }
        if !ForkPoint(from.value) {
          return Refused(PreconditionFailed);
        }
      }
      var through := ForkPrefixEnd(stored, from);
      if through.Refused? {
        return Refused(through.reason);
      }
      var prefix := Filtered(stored, through.value);
      if prefix == [] {
        return Refused(PreconditionFailed);
      }
      FilteredIsShorter(stored, through.value);
      StoredIsCopyable(source, rows[source], stored, through.value);
      var forked := CopyPrefix(prefix, sid, newIds[..|prefix|]);
      if forked.Refused? {
        return Refused(forked.reason);
      }
      if Active(forked.value) == [] || !compiles(Active(forked.value)) {
        return Refused(PreconditionFailed);
      }
      ForkTakesItsEnd(stored, point, sid, newIds, compiles);
      ForkCommutes(stored, through.value, sid, newIds[..|prefix|]);
      ForkStored(stored, through.value, sid, newIds[..|prefix|], forked.value);
      assert ForkedInto(rows[source], stored, point, through.value, sid, newIds,
                        ForkRow(rows[source], through.value, |prefix|), forked.value);
      hide ForkedInto;
      rows := rows[sid := ForkRow(rows[source], through.value, |prefix|)];
      messages := messages[sid := forked.value];
      result := Done(rows[sid]);
    }
  }

  /** A fork starts over; goal and plan go with it only if it holds the source up to its end. */
  function ForkRow(source: SessionRow, through: int, n: nat): SessionRow {
    var isLatest := through == source.lastSeq;
    SessionRow(1, n, false, if isLatest then source.goal else None, if isLatest then source.plan else None)
  }

  function ForkFrom(records: seq<MessageRecord>, point: Option<MessageId>): Option<MessageRecord> {
    if point.None? then None else FindId(records, point.value)
  }

  /** The record a fork point names, if one is named. */
  ghost predicate PointOf(records: seq<MessageRecord>, point: Option<MessageId>, from: Option<MessageRecord>) {
    match point
    case None => from.None?
    case Some(id) => from.Some? && from.value in records && from.value.id == id
  }

  /** A visible assistant turn, or a visible user message that carries a request and is no control command. */
  ghost predicate MayBeForkedAt(r: MessageRecord) {
    && r.visibility == Visible
    && (r.content.AssistantTurn? ||
        (r.content.UserInput? && r.content.origin.Original? && !r.content.origin.controlCommand))
  }

  /** Where a fork from this point has to end. */
  ghost predicate ForkTakes(records: seq<MessageRecord>, point: Option<MessageId>, end: int) {
    exists from, start :: PointOf(records, point, from) && StartsAt(records, from, start) && EndsAt(records, start, end)
  }

  /** What a fork stores: the images of the records up to its end, and a row that starts over; goal and plan go with
      it only if it holds the source up to its end. */
  ghost predicate ForkedInto(source: SessionRow, records: seq<MessageRecord>, point: Option<MessageId>, through: int,
      sid: SessionId, newIds: seq<MessageId>, row: SessionRow, forked: seq<MessageRecord>)
  {
    var n := |Filtered(records, through)|;
    && ForkTakes(records, point, through)
    && n == |forked| <= |newIds| && ForkMeets(records, through, sid, newIds[..n], Done(forked))
    && row.revision == 1 && row.lastSeq == n && !row.archived
    && row.goal == (if through == source.lastSeq then source.goal else None)
    && row.plan == (if through == source.lastSeq then source.plan else None)
  }

  /** Everything but identity and revision that decides whether a fork goes through: its point, whole tool batches,
      both counts, references that stay inside, and a history that compiles. */
  ghost predicate ForkAllowed(records: seq<MessageRecord>, point: Option<MessageId>, sid: SessionId,
      newIds: seq<MessageId>, compiles: seq<MessageRecord> -> bool)
  {
    exists from, start, end ::
      && PointOf(records, point, from) && (from.Some? ==> MayBeForkedAt(from.value))
      && StartsAt(records, from, start) && EndsAt(records, start, end)
      && |Filtered(records, start)| <= 512 && ForkCompiles(Filtered(records, end), sid, newIds, compiles)
  }

  ghost predicate ForkCompiles(prefix: seq<MessageRecord>, sid: SessionId, newIds: seq<MessageId>,
      compiles: seq<MessageRecord> -> bool)
  {
    && 0 < |prefix| <= 512 && |prefix| <= |newIds|
    && var forked := ForkedRecords(prefix, sid, newIds[..|prefix|]);
       forked.Done? && Active(forked.value) != [] && compiles(Active(forked.value))
  }

  /** The same in the order in which a fork finds out. */
  ghost predicate ForkGoesThrough(records: seq<MessageRecord>, point: Option<MessageId>, sid: SessionId,
      newIds: seq<MessageId>, compiles: seq<MessageRecord> -> bool)
  {
    var from := ForkFrom(records, point);
    && (point.Some? ==> from.Some? && ForkPoint(from.value))
    && |Filtered(records, ForkStart(records, from))| <= MAX_FORK_MESSAGE_RECORDS
    && ForkThrough(records, from).Some?
    && ForkCompiles(Filtered(records, ForkThrough(records, from).value), sid, newIds, compiles)
  }

  lemma SameId(records: seq<MessageRecord>, x: MessageRecord, y: MessageRecord)
    requires DistinctIds(records) && x in records && y in records && x.id == y.id
    ensures x == y
  {
  }

  lemma PointIsFound(records: seq<MessageRecord>, point: Option<MessageId>, from: Option<MessageRecord>)
    requires DistinctIds(records)
    ensures PointOf(records, point, from) <==> from == ForkFrom(records, point) && (point.Some? ==> from.Some?)
  {
    if PointOf(records, point, from) && point.Some? {
      SameId(records, from.value, FindId(records, point.value).value);
    }
    hide FindId, DistinctIds;
  }

  lemma OneStart(records: seq<MessageRecord>, from: Option<MessageRecord>, start: int)
    requires Numbered(records)
    ensures StartsAt(records, from, start) <==> start == ForkStart(records, from)
  {
    ForkStartsAt(records, from);
    hide ForkStart, Numbered;
  }

  lemma OneEnd(records: seq<MessageRecord>, from: Option<MessageRecord>, end: int)
    requires Numbered(records)
    ensures EndsAt(records, ForkStart(records, from), end) <==> ForkThrough(records, from) == Some(end)
  {
    ForkEndsAt(records, from);
    hide ForkStart, ForkThrough, OpensBatch, BatchComplete, Numbered;
  }

  /** What decides a fork, whatever the order of the checks. */
  lemma ForkAllowedExactly(records: seq<MessageRecord>, point: Option<MessageId>, sid: SessionId,
                           newIds: seq<MessageId>, compiles: seq<MessageRecord> -> bool)
    requires Numbered(records) && DistinctIds(records)
    ensures ForkAllowed(records, point, sid, newIds, compiles) <==>
            ForkGoesThrough(records, point, sid, newIds, compiles)
  {
    hide FindId, StartsAt, EndsAt, ForkStart, ForkThrough, ForkCompiles, Filtered, Numbered, DistinctIds;
    var from := ForkFrom(records, point);
    PointIsFound(records, point, from);
    OneStart(records, from, ForkStart(records, from));
    if ForkAllowed(records, point, sid, newIds, compiles) {
      var f, start, end :|
        && PointOf(records, point, f) && (f.Some? ==> MayBeForkedAt(f.value))
        && StartsAt(records, f, start) && EndsAt(records, start, end)
        && |Filtered(records, start)| <= 512 && ForkCompiles(Filtered(records, end), sid, newIds, compiles);
      PointIsFound(records, point, f);
      OneStart(records, f, start);
      OneEnd(records, f, end);
    }
    if ForkGoesThrough(records, point, sid, newIds, compiles) {
      OneEnd(records, from, ForkThrough(records, from).value);
    }
  }

  lemma ForkTakesItsEnd(records: seq<MessageRecord>, point: Option<MessageId>, sid: SessionId,
                        newIds: seq<MessageId>, compiles: seq<MessageRecord> -> bool)
    requires Numbered(records) && DistinctIds(records) && ForkGoesThrough(records, point, sid, newIds, compiles)
    ensures ForkTakes(records, point, ForkThrough(records, ForkFrom(records, point)).value)
  {
    hide PointOf, StartsAt, EndsAt, ForkStart, ForkThrough, ForkCompiles, ForkFrom, Filtered, Numbered, DistinctIds;
    var from := ForkFrom(records, point);
    PointIsFound(records, point, from);
    OneStart(records, from, ForkStart(records, from));
    OneEnd(records, from, ForkThrough(records, from).value);
  }

  /** The request of a first turn, at `i` of its messages, is that of the record at `k`. */
  ghost predicate RepeatsAt(records: seq<MessageRecord>, first: seq<MessageRecord>, i: int, k: int) {
    OnlyRequest(first, i) && FirstRequest(records, first[i].content.origin.clientRequestId, k)
  }

  /** The session holds the request of this first turn already, under the same hash. */
  ghost predicate Repeats(records: seq<MessageRecord>, first: seq<MessageRecord>, requestHash: string) {
    exists i, k :: RepeatsAt(records, first, i, k) && records[k].content.origin.requestHash == Some(requestHash)
  }

  lemma RepeatsExactly(records: seq<MessageRecord>, first: seq<MessageRecord>, requestHash: string)
    requires exists i :: OnlyRequest(first, i)
    ensures FirstOriginal(first).Some?
    ensures var stored := FindRequest(records, FirstOriginal(first).value.content.origin.clientRequestId);
            && (Repeats(records, first, requestHash) <==>
                  stored.Some? && stored.value.content.origin.requestHash == Some(requestHash))
            && forall i, k :: RepeatsAt(records, first, i, k) ==> stored == Some(records[k])
  {
    hide FirstOriginal, FindRequest, FirstRequest;
    var i :| OnlyRequest(first, i);
    forall j | OnlyRequest(first, j) ensures FirstOriginal(first) == Some(first[j]) {
      TheOriginal(first, j);
    }
    var request := FirstOriginal(first).value.content.origin.clientRequestId;
    FindRequestIsFirst(records, request);
    if FindRequest(records, request).Some? {
      var k :| FirstRequest(records, request, k);
      assert RepeatsAt(records, first, i, k);
    }
  }

  lemma FirstTurnIsSound(first: seq<MessageRecord>)
    ensures WellFormedFirstTurn(first) ==> Sound(Branch(first, |first|))
  {
    if WellFormedFirstTurn(first) {
      FirstTurnIsConsistent(first);
    }
  }

  ghost predicate MutationAllowed(sid: SessionId, row: SessionRow, records: seq<MessageRecord>, expectedRevision: nat,
      expectedLastSeq: int, batch: seq<MessageRecord>, deactivate: Option<int>, requireIdle: bool, idle: bool)
  {
    && (requireIdle ==> idle)
    && row.revision == expectedRevision && row.lastSeq == expectedLastSeq && !row.archived
    && AppendBatch(sid, expectedLastSeq, batch)
    && (deactivate.Some? ==> 1 <= deactivate.value <= expectedLastSeq)
    && DistinctIds(records + batch)
  }

  /** A visible user message or assistant turn; for a boundary other than the one before the message itself a user
      message that carries a request and is no control command. */
  ghost predicate MayBeRewoundTo(r: MessageRecord, boundary: RewindBoundary) {
    && r.visibility == Visible
    && match boundary
       case BeforeMessage => r.content.UserInput? || r.content.AssistantTurn?
       case _ => r.content.UserInput? && r.content.origin.Original? && !r.content.origin.controlCommand
  }

  /** What decides whether a rewind goes through. */
  ghost predicate RewindAllowed(row: SessionRow, records: seq<MessageRecord>, expectedRevision: nat,
      messageId: MessageId, boundary: RewindBoundary, idle: bool, compiles: seq<MessageRecord> -> bool)
  {
    && idle && row.revision == expectedRevision && !row.archived
    && exists target, now ::
         && target in records && target.id == messageId && MayBeRewoundTo(target, boundary)
         && RewoundTo(records, now, target, boundary) && Consistent(Branch(now, |now|))
         && (Active(now) == [] || compiles(Active(now)))
  }

  /** The same in the order in which a rewind finds out. */
  ghost predicate RewindGoesThrough(row: SessionRow, records: seq<MessageRecord>, expectedRevision: nat,
      messageId: MessageId, boundary: RewindBoundary, idle: bool, compiles: seq<MessageRecord> -> bool)
  {
    && idle && row.revision == expectedRevision && !row.archived
    && FindId(records, messageId).Some? && RewindTarget(FindId(records, messageId).value, boundary)
    && var active := Active(Rewound(records, FindId(records, messageId).value, boundary));
       active == [] || compiles(active)
  }

  function Rewound(records: seq<MessageRecord>, target: MessageRecord, boundary: RewindBoundary): seq<MessageRecord> {
    var b := RewindBoundarySeq(records, target, boundary);
    Rebuilt(SupersededBeyond(records, b), b)
  }

  lemma OneTurnStart(records: seq<MessageRecord>, target: MessageRecord, s: int, t: int)
    requires TurnStartsAt(records, target, s) && TurnStartsAt(records, target, t)
    ensures s == t
  {
  }

  lemma SameButFlags(records: seq<MessageRecord>, a: seq<MessageRecord>, b: seq<MessageRecord>, end: int)
    requires StandBefore(records, a, end) && StandBefore(records, b, end)
    ensures |a| == |b| && forall i :: 0 <= i < |a| ==> b[i].(inHistory := a[i].inHistory) == a[i]
  {
    forall i | 0 <= i < |a| ensures b[i].(inHistory := a[i].inHistory) == a[i] {
      assert a[i] == records[i].(visibility := a[i].visibility, inHistory := a[i].inHistory);
    }
  }

  lemma FlagsFollow(a: seq<MessageRecord>, b: seq<MessageRecord>)
    requires Consistent(Branch(a, |a|)) && Consistent(Branch(b, |b|)) && |a| == |b|
    requires forall i :: 0 <= i < |a| ==> b[i].(inHistory := a[i].inHistory) == a[i]
    ensures a == b
  {
    EpochIgnoresFlags(a, b, |a|);
    hide EpochAt;
    assert Rebuilt(a, |a|) == Rebuilt(b, |b|);
  }

  /** What a rewind leaves is settled by what it must leave standing and by the definition of active history. */
  lemma OneRewound(records: seq<MessageRecord>, target: MessageRecord, boundary: RewindBoundary,
                   a: seq<MessageRecord>, b: seq<MessageRecord>)
    requires RewoundTo(records, a, target, boundary) && Consistent(Branch(a, |a|))
    requires RewoundTo(records, b, target, boundary) && Consistent(Branch(b, |b|))
    ensures a == b
  {
    hide StandBefore, TurnStartsAt, Consistent;
    match boundary {
      case AfterMessage => SameButFlags(records, a, b, target.seqNo + 1);
      case BeforeMessage => SameButFlags(records, a, b, target.seqNo);
      case BeforeTurn =>
        var s :| TurnStartsAt(records, target, s) && StandBefore(records, a, s);
        var t :| TurnStartsAt(records, target, t) && StandBefore(records, b, t);
        OneTurnStart(records, target, s, t);
        SameButFlags(records, a, b, s);
    }
    FlagsFollow(a, b);
  }

  lemma OnlyTarget(records: seq<MessageRecord>, target: MessageRecord, boundary: RewindBoundary)
    requires Numbered(records) && DistinctIds(records) && target in records
    ensures forall r :: r in records && r.id == target.id ==>
              RewoundTo(records, Rewound(records, target, boundary), r, boundary)
  {
    hide RewoundTo, Rewound, DistinctIds;
    RewoundIsConsistent(records, target, boundary);
    forall r | r in records && r.id == target.id
      ensures RewoundTo(records, Rewound(records, target, boundary), r, boundary)
    {
      SameId(records, r, target);
    }
  }

  lemma RewoundIsConsistent(records: seq<MessageRecord>, target: MessageRecord, boundary: RewindBoundary)
    requires Numbered(records)
    ensures var now := Rewound(records, target, boundary);
            RewoundTo(records, now, target, boundary) && Consistent(Branch(now, |now|))
  {
    hide Consistent, RewindBoundarySeq, RewoundTo;
    RewindLeaves(records, target, boundary);
    RewindKeepsConsistency(Branch(records, |records|), RewindBoundarySeq(records, target, boundary));
  }

  /** What decides a rewind, whatever the order of the checks. */
  lemma RewindAllowedExactly(row: SessionRow, records: seq<MessageRecord>, expectedRevision: nat,
                             messageId: MessageId, boundary: RewindBoundary, idle: bool,
                             compiles: seq<MessageRecord> -> bool)
    requires Numbered(records) && DistinctIds(records)
    ensures RewindAllowed(row, records, expectedRevision, messageId, boundary, idle, compiles) <==>
            RewindGoesThrough(row, records, expectedRevision, messageId, boundary, idle, compiles)
  {
    hide RewoundTo, Consistent, Rewound, Active, Numbered, DistinctIds;
    if RewindAllowed(row, records, expectedRevision, messageId, boundary, idle, compiles) {
      var target, now :|
        && target in records && target.id == messageId && MayBeRewoundTo(target, boundary)
        && RewoundTo(records, now, target, boundary) && Consistent(Branch(now, |now|))
        && (Active(now) == [] || compiles(Active(now)));
      SameId(records, target, FindId(records, messageId).value);
      RewoundIsConsistent(records, target, boundary);
      OneRewound(records, target, boundary, now, Rewound(records, target, boundary));
    }
    if RewindGoesThrough(row, records, expectedRevision, messageId, boundary, idle, compiles) {
      RewoundIsConsistent(records, FindId(records, messageId).value, boundary);
    }
  }

  /** The record loop of a rewind followed by rebuildActiveBranch. */
  method RewindRecords(stored: seq<MessageRecord>, boundarySeq: int) returns (rewound: seq<MessageRecord>)
    ensures rewound == Rebuilt(SupersededBeyond(stored, boundarySeq), boundarySeq)
  {
    var records := new MessageRecord[|stored|](i requires 0 <= i < |stored| => stored[i]);
    for k := 0 to records.Length
      invariant forall j :: 0 <= j < k ==> records[j] == SupersededBeyond(stored, boundarySeq)[j]
      invariant forall j :: k <= j < records.Length ==> records[j] == stored[j]
    {
      if records[k].seqNo > boundarySeq {
        records[k] := records[k].(visibility := Superseded, inHistory := false);
      }
    }
    assert records[..] == SupersededBeyond(stored, boundarySeq);
    RebuildActiveBranch(records, boundarySeq);
    rewound := records[..];
  }
}
