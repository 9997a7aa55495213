/** electron/application/session-branch.ts: message records, the one definition of active
    history, and the pieces a rewind and a fork are made of. */
module SessionBranch {
  import opened Options

  type MessageId = nat
  type SessionId = nat

  datatype Visibility = Visible | Concealed | Superseded

  /** How a user message came about; only an original one carries a client request. */
  datatype Origin =
    | Original(clientRequestId: string, controlCommand: bool, requestHash: Option<string>)
    | Replayed(replayedFrom: MessageId)
    | Derived(derivedFrom: MessageId)

  datatype Content =
    | UserInput(origin: Origin)
    | AssistantTurn(calls: seq<string>)
    | ToolResult(callId: string)
    | CompactSummary(replacesThroughSeq: int)
    | ConversationTranscript(sourceThroughSeq: int)
    | Prompt

  /** `body` is whatever else a message holds: its text, parts and other metadata. */
  datatype MessageRecord = MessageRecord(
    id: MessageId, sessionId: SessionId, seqNo: int, visibility: Visibility, inHistory: bool,
    turnId: Option<MessageId>, content: Content, body: string)

  predicate IsControlCommand(r: MessageRecord) {
    r.content.UserInput? && r.content.origin.Original? && r.content.origin.controlCommand
  }

  predicate IsOriginalUser(r: MessageRecord) {
    r.content.UserInput? && r.content.origin.Original?
  }

  /** historyEpochAnchorBoundary: the last sequence number an epoch anchor replaces. */
  function AnchorBoundary(r: MessageRecord): Option<int> {
    match r.content
    case CompactSummary(b) => Some(b)
    case ConversationTranscript(b) => Some(b)
    case _ => None
  }

  predicate Live(r: MessageRecord, through: int) {
    r.seqNo <= through && !r.visibility.Superseded?
  }

  /** The boundary of the last live epoch anchor at or before `through`, 0 without one. */
  function EpochAt(records: seq<MessageRecord>, through: int): int {
    if records == [] then 0 else
      var last := records[|records| - 1];
      if Live(last, through) && AnchorBoundary(last).Some? then AnchorBoundary(last).value
      else EpochAt(records[..|records| - 1], through)
  }

  /** Whether a message belongs to the active history of the branch ending at `through`. */
  predicate InBranch(r: MessageRecord, through: int, epoch: int) {
    r.seqNo <= through && r.seqNo > epoch && !r.visibility.Superseded? && !IsControlCommand(r)
  }

  function WithFlag(r: MessageRecord, through: int, epoch: int): MessageRecord {
    r.(inHistory := InBranch(r, through, epoch))
  }

  /** The records with every flag recomputed: the one definition all operations must agree with. */
  function Rebuilt(records: seq<MessageRecord>, through: int): (r: seq<MessageRecord>)
    ensures |r| == |records|
  {
    seq(|records|, i requires 0 <= i < |records| => WithFlag(records[i], through, EpochAt(records, through)))
  }

  function Filtered(records: seq<MessageRecord>, through: int): (kept: seq<MessageRecord>)
    ensures forall r :: r in kept <==> r in records && Live(r, through)
  {
    if records == [] then [] else
      var n := |records| - 1;
      Filtered(records[..n], through) + (if Live(records[n], through) then [records[n]] else [])
  }

  /** What decides the epoch is the order, visibility and content of records, not their flags. */
  lemma {:induction false} EpochIgnoresFlags(a: seq<MessageRecord>, b: seq<MessageRecord>, through: int)
    requires |a| == |b|
    requires forall i :: 0 <= i < |a| ==> b[i].(inHistory := a[i].inHistory) == a[i]
    ensures EpochAt(a, through) == EpochAt(b, through)
  {
    if a != [] {
      var n := |a| - 1;
      assert b[n].(inHistory := a[n].inHistory) == a[n];
      EpochIgnoresFlags(a[..n], b[..n], through);
    }
  }

  lemma {:induction false} EpochOfFiltered(records: seq<MessageRecord>, through: int)
    ensures EpochAt(Filtered(records, through), through) == EpochAt(records, through)
  {
    if records != [] {
      var n := |records| - 1;
      EpochOfFiltered(records[..n], through);
      var kept := Filtered(records[..n], through);
      assert (kept + [records[n]])[..|kept|] == kept;
      assert kept + [] == kept;
    }
  }

  /** The record at `k` ends with its boundary what history shows before: it stands, and is an epoch anchor. */
  ghost predicate EndsEpoch(records: seq<MessageRecord>, through: int, k: int, boundary: int) {
    && 0 <= k < |records| && records[k].seqNo <= through && records[k].visibility != Superseded
    && records[k].content in {CompactSummary(boundary), ConversationTranscript(boundary)}
  }

  /** No record behind the one at `k` does. */
  ghost predicate LastToEnd(records: seq<MessageRecord>, through: int, k: int) {
    forall j, b :: k < j < |records| ==> !EndsEpoch(records, through, j, b)
  }

  /** The epoch is the boundary of the last anchor that stands, or 0 if none does. */
  lemma {:induction false} EpochExactly(records: seq<MessageRecord>, through: int)
    ensures LastToEnd(records, through, -1) ==> EpochAt(records, through) == 0
    ensures forall k, b :: EndsEpoch(records, through, k, b) && LastToEnd(records, through, k) ==>
              EpochAt(records, through) == b
    ensures LastToEnd(records, through, -1) ||
            exists k :: EndsEpoch(records, through, k, EpochAt(records, through)) && LastToEnd(records, through, k)
  {
    if records != [] {
      var n := |records| - 1;
      var before := records[..n];
      EpochExactly(before, through);
      assert forall j, b :: 0 <= j < n ==> (EndsEpoch(records, through, j, b) <==> EndsEpoch(before, through, j, b));
      if Live(records[n], through) && AnchorBoundary(records[n]).Some? {
        assert EndsEpoch(records, through, n, AnchorBoundary(records[n]).value);
      } else {
        assert forall b :: !EndsEpoch(records, through, n, b);
        assert forall k :: k < n ==> (LastToEnd(records, through, k) <==> LastToEnd(before, through, k));
      }
    }
  }

  /** Active history, in the words of the source: a message is in it exactly if it is numbered up to the end of the
      branch, stands, is no control command, and lies behind the boundary of the last anchor that stands. */
  lemma ActiveExactly(records: seq<MessageRecord>, through: int, i: nat)
    requires i < |records|
    ensures var r := records[i];
            && Rebuilt(records, through)[i] == r.(inHistory := Rebuilt(records, through)[i].inHistory)
            && (Rebuilt(records, through)[i].inHistory <==>
                 && r.seqNo <= through && r.visibility != Superseded
                 && !(r.content.UserInput? && r.content.origin.Original? && r.content.origin.controlCommand)
                 && (LastToEnd(records, through, -1) ==> r.seqNo > 0)
                 && forall k, b :: EndsEpoch(records, through, k, b) && LastToEnd(records, through, k) ==> r.seqNo > b)
  {
    EpochExactly(records, through);
    hide EpochAt, LastToEnd, EndsEpoch;
  }

  lemma RebuiltIsIdempotent(records: seq<MessageRecord>, through: int)
    ensures Rebuilt(Rebuilt(records, through), through) == Rebuilt(records, through)
  {
    EpochIgnoresFlags(records, Rebuilt(records, through), through);
  }

  /** The latest anchor of an already filtered prefix, searched from its end. */
  method LatestBoundary(prefix: seq<MessageRecord>, throughSeq: int) returns (boundary: int)
    requires forall r :: r in prefix ==> Live(r, throughSeq)
    ensures boundary == EpochAt(prefix, throughSeq)
  {
    var i := |prefix|;
    assert prefix[..i] == prefix;
    while i > 0 && AnchorBoundary(prefix[i - 1]).None?
      invariant 0 <= i <= |prefix|
      invariant EpochAt(prefix, throughSeq) == EpochAt(prefix[..i], throughSeq)
    {
      assert prefix[..i][..i - 1] == prefix[..i - 1];
      i := i - 1;
    }
    boundary := 0;
    if i > 0 {
      assert prefix[i - 1] in prefix;
      boundary := AnchorBoundary(prefix[i - 1]).value;
    }
  }

  /** rebuildActiveBranch, in place. */
  method RebuildActiveBranch(records: array<MessageRecord>, throughSeq: int)
    modifies records
    ensures records[..] == Rebuilt(old(records[..]), throughSeq)
  {
    ghost var was := records[..];
    var epochBoundary := LatestBoundary(Filtered(records[..], throughSeq), throughSeq);
    EpochOfFiltered(was, throughSeq);
    hide EpochAt, Filtered;
    for k := 0 to records.Length
      invariant forall j :: 0 <= j < k ==> records[j] == WithFlag(was[j], throughSeq, epochBoundary)
      invariant forall j :: k <= j < records.Length ==> records[j] == was[j]
    {
      records[k] := WithFlag(records[k], throughSeq, epochBoundary);
    }
  }

  datatype RewindBoundary = AfterMessage | BeforeMessage | BeforeTurn

  function FirstOfTurn(records: seq<MessageRecord>, turn: MessageId): (first: Option<MessageRecord>)
    ensures first.Some? ==>
        first.value in records && !first.value.visibility.Superseded? && first.value.turnId == Some(turn)
    ensures first.None? ==> forall r :: r in records ==> r.visibility.Superseded? || r.turnId != Some(turn)
  {
    if records == [] then None
    else if !records[0].visibility.Superseded? && records[0].turnId == Some(turn) then Some(records[0])
    else FirstOfTurn(records[1..], turn)
  }

  /** rewindBoundarySeq. */
  function RewindBoundarySeq(records: seq<MessageRecord>, target: MessageRecord, boundary: RewindBoundary): int {
    match boundary
    case AfterMessage => target.seqNo
    case BeforeMessage => target.seqNo - 1
    case BeforeTurn =>
      var turn := if target.turnId.Some? then target.turnId.value else target.id;
      var first := FirstOfTurn(records, turn);
      (if first.Some? then first.value.seqNo else target.seqNo) - 1
  }

  function FindSeq(records: seq<MessageRecord>, s: int): (found: Option<MessageRecord>)
    ensures found.Some? ==> found.value in records && found.value.seqNo == s
    ensures found.None? ==> forall r :: r in records ==> r.seqNo != s
  {
    if records == [] then None
    else if records[0].seqNo == s then Some(records[0])
    else FindSeq(records[1..], s)
  }

  /** The k-th tool call is answered by the k-th record after the assistant's. */
  predicate Answered(records: seq<MessageRecord>, assistantSeq: int, calls: seq<string>, k: nat)
    requires k < |calls|
  {
    var result := FindSeq(records, assistantSeq + 1 + k);
    result.Some? && result.value.content == ToolResult(calls[k])
  }

  /** Where the batch of terminal tool results ends; None when a result is missing or out of order. */
  function BatchEnd(records: seq<MessageRecord>, assistantSeq: int): Option<int> {
    var assistant := FindSeq(records, assistantSeq);
    if assistant.None? || !assistant.value.content.AssistantTurn? then Some(assistantSeq) else
      var calls := assistant.value.content.calls;
      if forall k :: 0 <= k < |calls| ==> Answered(records, assistantSeq, calls, k)
      then Some(assistantSeq + |calls|) else None
  }

  /** The first record with this number is the one at `i`. */
  ghost predicate FirstNumbered(records: seq<MessageRecord>, s: int, i: int) {
    0 <= i < |records| && records[i].seqNo == s && forall j :: 0 <= j < i ==> records[j].seqNo != s
  }

  lemma {:induction false} FindSeqIsFirst(records: seq<MessageRecord>, s: int)
    ensures FindSeq(records, s).Some? <==> exists i :: FirstNumbered(records, s, i)
    ensures forall i :: FirstNumbered(records, s, i) ==> FindSeq(records, s) == Some(records[i])
  {
    if records != [] {
      var rest := records[1..];
      FindSeqIsFirst(rest, s);
      if records[0].seqNo == s {
        assert FirstNumbered(records, s, 0);
      } else {
        forall i ensures FirstNumbered(records, s, i) <==> FirstNumbered(rest, s, i - 1) {
          assert forall j :: 1 <= j < |records| ==> records[j] == rest[j - 1];
        }
        if exists i :: FirstNumbered(rest, s, i) {
          var i :| FirstNumbered(rest, s, i);
          assert FirstNumbered(records, s, i + 1);
        }
      }
    }
  }

  /** The record numbered `s` is the result of this call. */
  ghost predicate ResultAt(records: seq<MessageRecord>, s: int, call: string) {
    exists i :: FirstNumbered(records, s, i) && records[i].content == ToolResult(call)
  }

  ghost predicate AllResults(records: seq<MessageRecord>, assistantSeq: int, calls: seq<string>) {
    forall k :: 0 <= k < |calls| ==> ResultAt(records, assistantSeq + 1 + k, calls[k])
  }

  lemma AllAnswered(records: seq<MessageRecord>, assistantSeq: int, calls: seq<string>)
    ensures AllResults(records, assistantSeq, calls) <==>
            forall k :: 0 <= k < |calls| ==> Answered(records, assistantSeq, calls, k)
  {
    hide Answered, ResultAt;
    forall k | 0 <= k < |calls|
      ensures Answered(records, assistantSeq, calls, k) <==> ResultAt(records, assistantSeq + 1 + k, calls[k])
    {
      AnsweredIsResult(records, assistantSeq, calls, k);
    }
  }

  lemma AnsweredIsResult(records: seq<MessageRecord>, assistantSeq: int, calls: seq<string>, k: nat)
    requires k < |calls|
    ensures Answered(records, assistantSeq, calls, k) <==> ResultAt(records, assistantSeq + 1 + k, calls[k])
  {
    hide FindSeq, FirstNumbered;
    FindSeqIsFirst(records, assistantSeq + 1 + k);
  }

  /** A batch of n calls ends n records behind its assistant turn if each of them is the result of its call, and is
      refused if not; anything else is a batch of its own. */
  lemma BatchEndExactly(records: seq<MessageRecord>, assistantSeq: int)
    ensures (forall i :: !FirstNumbered(records, assistantSeq, i)) ==>
              BatchEnd(records, assistantSeq) == Some(assistantSeq)
    ensures forall i :: FirstNumbered(records, assistantSeq, i) ==>
              BatchEnd(records, assistantSeq) ==
                match records[i].content
                case AssistantTurn(calls) =>
                  if AllResults(records, assistantSeq, calls) then Some(assistantSeq + |calls|) else None
                case _ => Some(assistantSeq)
  {
    hide FindSeq, Answered, AllResults, FirstNumbered;
    FindSeqIsFirst(records, assistantSeq);
    var found := FindSeq(records, assistantSeq);
    if found.Some? && found.value.content.AssistantTurn? {
      AllAnswered(records, assistantSeq, found.value.content.calls);
    }
  }

  /** terminalToolBatchEnd: None stands for its refusal of an incomplete batch. */
  method TerminalToolBatchEnd(records: seq<MessageRecord>, assistantSeq: int) returns (end: Option<int>)
    ensures end == BatchEnd(records, assistantSeq)
    ensures forall i :: FirstNumbered(records, assistantSeq, i) && records[i].content.AssistantTurn? ==>
              var calls := records[i].content.calls;
              end == if AllResults(records, assistantSeq, calls) then Some(assistantSeq + |calls|) else None
    ensures (forall i :: FirstNumbered(records, assistantSeq, i) ==> !records[i].content.AssistantTurn?) ==>
              end == Some(assistantSeq)
  {
    BatchEndExactly(records, assistantSeq);
    hide FirstNumbered, AllResults;
    var assistant := FindSeq(records, assistantSeq);
    if assistant.None? || !assistant.value.content.AssistantTurn? {
      return Some(assistantSeq);
    }
    var pending := assistant.value.content.calls;
    var cursor := assistantSeq;
    for k := 0 to |pending|
      invariant cursor == assistantSeq + k
      invariant forall j :: 0 <= j < k ==> Answered(records, assistantSeq, pending, j)
    {
      cursor := cursor + 1;
      var result := FindSeq(records, cursor);
      assert cursor == assistantSeq + 1 + k;
      if result.None? || result.value.content != ToolResult(pending[k]) {
        assert !Answered(records, assistantSeq, pending, k);
        return None;
      }
    }
    return Some(cursor);
  }
}
