/** The life of one stored session: first turn, appended batches (with or without a compaction)
    and rewinds, and the flags all of them must leave in agreement with Rebuilt. */
module SessionHistory {
  import opened Options
  import opened SessionBranch

  /** The part of a session a branch is made of. */
  datatype Branch = Branch(records: seq<MessageRecord>, lastSeq: int)

  ghost predicate Numbered(records: seq<MessageRecord>) {
    forall i :: 0 <= i < |records| ==> records[i].seqNo == i + 1
  }

  /** Every epoch anchor replaces only what came before it. */
  ghost predicate AnchorsLookBack(records: seq<MessageRecord>) {
    forall r :: r in records && AnchorBoundary(r).Some? ==> AnchorBoundary(r).value < r.seqNo
  }

  /** Sequence numbers are 1..lastSeq and every stored flag is what Rebuilt would compute. */
  ghost predicate Consistent(s: Branch) {
    && |s.records| == s.lastSeq
    && Numbered(s.records)
    && s.records == Rebuilt(s.records, s.lastSeq)
  }

  /** deactivateHistoryThrough. */
  function Deactivated(records: seq<MessageRecord>, through: Option<int>): (r: seq<MessageRecord>)
    ensures |r| == |records|
  {
    if through.None? then records else
      seq(|records|, i requires 0 <= i < |records| =>
        if records[i].seqNo <= through.value then records[i].(inHistory := false) else records[i])
  }

  function AfterAppend(s: Branch, batch: seq<MessageRecord>, deactivate: Option<int>): Branch {
    Branch(Deactivated(s.records, deactivate) + batch, s.lastSeq + |batch|)
  }

  function SupersededBeyond(records: seq<MessageRecord>, boundary: int): (r: seq<MessageRecord>)
    ensures |r| == |records|
  {
    seq(|records|, i requires 0 <= i < |records| =>
      if records[i].seqNo > boundary then records[i].(visibility := Superseded, inHistory := false) else records[i])
  }

  function AfterRewind(s: Branch, boundary: int): Branch {
    Branch(Rebuilt(SupersededBeyond(s.records, boundary), boundary), s.lastSeq)
  }

  /** What assertAppendBatch accepts. */
  ghost predicate ContiguousBatch(lastSeq: int, batch: seq<MessageRecord>) {
    forall i :: 0 <= i < |batch| ==>
      batch[i].seqNo == lastSeq + 1 + i && (batch[i].inHistory || IsControlCommand(batch[i]))
  }

  /** An appended message is flagged right when it is active exactly if it is not a control command,
      and, being active, is neither superseded nor replaced by an anchor of its own batch. */
  predicate NewFits(r: MessageRecord, next: int) {
    if IsControlCommand(r) then !r.inHistory else !r.visibility.Superseded? && r.seqNo > next
  }

  /** A message of the old branch stays active exactly if it lies beyond the new epoch. */
  predicate OldFits(r: MessageRecord, epoch: int, deactivate: Option<int>, next: int) {
    !r.visibility.Superseded? && !IsControlCommand(r) ==>
      ((r.seqNo > epoch && (deactivate.None? || r.seqNo > deactivate.value)) <==> r.seqNo > next)
  }

  /** The exact condition under which an accepted batch keeps flags and definition in agreement. */
  ghost predicate AppendFits(s: Branch, batch: seq<MessageRecord>, deactivate: Option<int>) {
    var epoch := EpochAt(s.records, s.lastSeq);
    var next := EpochAt(s.records + batch, s.lastSeq + |batch|);
    && (forall i :: 0 <= i < |batch| ==> NewFits(batch[i], next))
    && (forall i :: 0 <= i < |s.records| ==> OldFits(s.records[i], epoch, deactivate, next))
  }

  lemma {:induction false} EpochConcat(a: seq<MessageRecord>, b: seq<MessageRecord>, through: int)
    ensures (exists r :: r in b && Live(r, through) && AnchorBoundary(r).Some?) ==>
              EpochAt(a + b, through) == EpochAt(b, through)
    ensures (forall r :: r in b && Live(r, through) ==> AnchorBoundary(r).None?) ==>
              EpochAt(a + b, through) == EpochAt(a, through)
    decreases |b|
  {
    if b == [] {
      assert a + b == a;
    } else {
      var n := |b| - 1;
      assert (a + b)[..|a| + n] == a + b[..n];
      assert forall r :: r in b[..n] ==> r in b;
      assert forall r :: r in b ==> r in b[..n] || r == b[n];
      EpochConcat(a, b[..n], through);
    }
  }

  /** Records beyond `through` do not decide the epoch, and neither do superseded ones. */
  lemma {:induction false} EpochOfPrefix(records: seq<MessageRecord>, through: int, n: nat)
    requires n <= |records|
    requires forall i :: n <= i < |records| ==> !Live(records[i], through)
    ensures EpochAt(records, through) == EpochAt(records[..n], through)
    decreases |records|
  {
    if n < |records| {
      var k := |records| - 1;
      EpochOfPrefix(records[..k], through, n);
      assert records[..k][..n] == records[..n];
    } else {
      assert records[..n] == records;
    }
  }

  lemma {:induction false} EpochOfEqualBounds(records: seq<MessageRecord>, s: int, t: int)
    requires forall i :: 0 <= i < |records| ==> (Live(records[i], s) <==> Live(records[i], t))
    ensures EpochAt(records, s) == EpochAt(records, t)
  {
    if records != [] {
      var n := |records| - 1;
      assert Live(records[n], s) <==> Live(records[n], t);
      EpochOfEqualBounds(records[..n], s, t);
    }
  }

  lemma {:induction false} EpochLooksBack(records: seq<MessageRecord>, through: int)
    requires AnchorsLookBack(records)
    ensures EpochAt(records, through) == 0 || EpochAt(records, through) < through
  {
    if records != [] {
      var n := |records| - 1;
      assert records[n] in records;
      assert forall r :: r in records[..n] ==> r in records;
      EpochLooksBack(records[..n], through);
    }
  }

  /** A stored flag agrees with the definition at `through`, given its epoch. */
  predicate Flagged(r: MessageRecord, through: int, epoch: int) {
    r == WithFlag(r, through, epoch)
  }

  lemma ConsistentMeansFlagged(s: Branch)
    requires |s.records| == s.lastSeq && Numbered(s.records)
    ensures Consistent(s) <==> forall i :: 0 <= i < |s.records| ==>
        Flagged(s.records[i], s.lastSeq, EpochAt(s.records, s.lastSeq))
  {
    if forall i :: 0 <= i < |s.records| ==> Flagged(s.records[i], s.lastSeq, EpochAt(s.records, s.lastSeq)) {
      assert s.records == Rebuilt(s.records, s.lastSeq);
    }
    if Consistent(s) {
      forall i | 0 <= i < |s.records| ensures Flagged(s.records[i], s.lastSeq, EpochAt(s.records, s.lastSeq)) {
        assert s.records[i] == Rebuilt(s.records, s.lastSeq)[i];
      }
    }
  }

  lemma OldFlag(s: Branch, deactivate: Option<int>, i: nat, through: int, next: int)
    requires Consistent(s) && i < |s.records| && through >= s.lastSeq
    ensures Flagged(Deactivated(s.records, deactivate)[i], through, next) <==>
            OldFits(s.records[i], EpochAt(s.records, s.lastSeq), deactivate, next)
  {
    ConsistentMeansFlagged(s);
    assert Flagged(s.records[i], s.lastSeq, EpochAt(s.records, s.lastSeq));
  }

  lemma NewFlag(r: MessageRecord, through: int, next: int)
    requires r.seqNo <= through && (r.inHistory || IsControlCommand(r))
    ensures Flagged(r, through, next) <==> NewFits(r, next)
  {
  }

  /** Position i of the session after the append, old or new. */
  ghost predicate PositionFits(s: Branch, batch: seq<MessageRecord>, deactivate: Option<int>, i: nat)
    requires i < |s.records| + |batch|
  {
    var next := EpochAt(s.records + batch, s.lastSeq + |batch|);
    if i < |s.records| then OldFits(s.records[i], EpochAt(s.records, s.lastSeq), deactivate, next)
    else NewFits(batch[i - |s.records|], next)
  }

  lemma FlagAtPosition(s: Branch, batch: seq<MessageRecord>, deactivate: Option<int>, i: nat)
    requires Consistent(s) && ContiguousBatch(s.lastSeq, batch) && i < |s.records| + |batch|
    ensures var next := EpochAt(s.records + batch, s.lastSeq + |batch|);
            Flagged(AfterAppend(s, batch, deactivate).records[i], s.lastSeq + |batch|, next) <==>
            PositionFits(s, batch, deactivate, i)
  {
    hide EpochAt, Flagged, OldFits, NewFits, Deactivated, AfterAppend;
    assert |s.records| == s.lastSeq;
    hide Consistent;
    var next, n := EpochAt(s.records + batch, s.lastSeq + |batch|), |s.records|;
    RecordAfterAppend(s, batch, deactivate, i);
    if i < n {
      OldFlag(s, deactivate, i, s.lastSeq + |batch|, next);
    } else {
      NewFlag(batch[i - n], s.lastSeq + |batch|, next);
    }
  }

  lemma RecordAfterAppend(s: Branch, batch: seq<MessageRecord>, deactivate: Option<int>, i: nat)
    requires i < |s.records| + |batch|
    ensures |AfterAppend(s, batch, deactivate).records| == |s.records| + |batch|
    ensures AfterAppend(s, batch, deactivate).records[i] ==
            if i < |s.records| then Deactivated(s.records, deactivate)[i] else batch[i - |s.records|]
  {
    hide Deactivated;
  }

  lemma AllPositionsFit(s: Branch, batch: seq<MessageRecord>, deactivate: Option<int>)
    ensures AppendFits(s, batch, deactivate) <==>
            forall i :: 0 <= i < |s.records| + |batch| ==> PositionFits(s, batch, deactivate, i)
  {
    hide EpochAt, OldFits, NewFits;
    if forall i :: 0 <= i < |s.records| + |batch| ==> PositionFits(s, batch, deactivate, i) {
      forall i | 0 <= i < |batch| ensures NewFits(batch[i], EpochAt(s.records + batch, s.lastSeq + |batch|)) {
        assert PositionFits(s, batch, deactivate, |s.records| + i);
      }
      forall i | 0 <= i < |s.records|
        ensures OldFits(s.records[i], EpochAt(s.records, s.lastSeq), deactivate,
            EpochAt(s.records + batch, s.lastSeq + |batch|))
      {
        assert PositionFits(s, batch, deactivate, i);
      }
    }
  }

  /** An accepted batch keeps the session consistent if and only if it fits. */
  lemma AppendKeepsConsistency(s: Branch, batch: seq<MessageRecord>, deactivate: Option<int>)
    requires Consistent(s) && ContiguousBatch(s.lastSeq, batch)
    ensures Consistent(AfterAppend(s, batch, deactivate)) <==> AppendFits(s, batch, deactivate)
  {
    var t := AfterAppend(s, batch, deactivate);
    EpochIgnoresFlags(s.records + batch, t.records, t.lastSeq);
    assert Numbered(t.records);
    ConsistentMeansFlagged(t);
    AllPositionsFit(s, batch, deactivate);
    forall i | 0 <= i < |t.records|
      ensures Flagged(t.records[i], t.lastSeq, EpochAt(t.records, t.lastSeq)) <==> PositionFits(s, batch, deactivate, i)
    {
      FlagAtPosition(s, batch, deactivate, i);
    }
    hide EpochAt, Consistent, Rebuilt, Flagged, PositionFits, AppendFits;
  }

  /** The number up to which an append leaves nothing active: the old epoch, or what it deactivates beyond. */
  function ClearedThrough(s: Branch, deactivate: Option<int>): int {
    var epoch := EpochAt(s.records, s.lastSeq);
    if deactivate.Some? && deactivate.value > epoch then deactivate.value else epoch
  }

  /** The boundary of the last live anchor of the batch, or else the epoch that was. */
  function BoundaryOf(s: Branch, batch: seq<MessageRecord>): int {
    EpochAt(s.records + batch, s.lastSeq + |batch|)
  }

  /** No message of the old branch that history would show has its number in the range. */
  ghost predicate NothingShownBetween(s: Branch, low: int, high: int) {
    forall r :: r in s.records && !r.visibility.Superseded? && !IsControlCommand(r) ==> !(low < r.seqNo <= high)
  }

  /** Every appended message that history would show lies behind the boundary, and flags are set accordingly. */
  ghost predicate NewOnesFit(batch: seq<MessageRecord>, boundary: int) {
    forall r :: r in batch ==> NewFits(r, boundary)
  }

  /** What a caller can compare before the append: the anchor's boundary and the deactivation number must have
      no shown message between them, whichever is the greater. */
  lemma FitsByTwoNumbers(s: Branch, batch: seq<MessageRecord>, deactivate: Option<int>)
    ensures AppendFits(s, batch, deactivate) <==>
      && NewOnesFit(batch, BoundaryOf(s, batch))
      && NothingShownBetween(s, ClearedThrough(s, deactivate), BoundaryOf(s, batch))
      && NothingShownBetween(s, BoundaryOf(s, batch), ClearedThrough(s, deactivate))
  {
    var cleared, boundary := ClearedThrough(s, deactivate), BoundaryOf(s, batch);
    hide EpochAt, NewFits;
    if AppendFits(s, batch, deactivate) {
      forall r | r in batch ensures NewFits(r, boundary) {
        var i :| 0 <= i < |batch| && batch[i] == r;
      }
      forall r | r in s.records ensures OldFits(r, EpochAt(s.records, s.lastSeq), deactivate, boundary) {
        var i :| 0 <= i < |s.records| && s.records[i] == r;
      }
    }
    if NewOnesFit(batch, boundary) && NothingShownBetween(s, cleared, boundary) &&
        NothingShownBetween(s, boundary, cleared) {
      forall i | 0 <= i < |batch| ensures NewFits(batch[i], boundary) {
        assert batch[i] in batch;
      }
      forall i | 0 <= i < |s.records| ensures OldFits(s.records[i], EpochAt(s.records, s.lastSeq), deactivate, boundary)
      {
        assert s.records[i] in s.records;
      }
    }
  }

  /** An anchor appended without deactivating what it replaces is accepted and breaks the agreement. */
  lemma AnchorWithoutDeactivation()
    ensures exists s: Branch, batch: seq<MessageRecord> ::
              Consistent(s) && ContiguousBatch(s.lastSeq, batch) && !Consistent(AfterAppend(s, batch, None))
  {
    var user := MessageRecord(1, 7, 1, Visible, true, None, UserInput(Original("r", false, None)), "");
    var summary := MessageRecord(2, 7, 2, Concealed, true, None, CompactSummary(1), "");
    var s, batch := Branch([user], 1), [summary];
    assert EpochAt(s.records, 1) == EpochAt(s.records[..0], 1) == 0;
    assert Rebuilt(s.records, 1)[0] == user;
    var both := s.records + batch;
    assert both[1] == summary && EpochAt(both, 2) == 1;
    assert !OldFits(s.records[0], 0, None, 1);
    AppendKeepsConsistency(s, batch, None);
  }

  /** What the runtime appends: visible or hidden records, control commands inactive, and a last
      anchor exactly when the boundary it names is deactivated with it. */
  ghost predicate WellFormedBatch(s: Branch, batch: seq<MessageRecord>, deactivate: Option<int>) {
    && ContiguousBatch(s.lastSeq, batch)
    && AnchorsLookBack(batch)
    && (forall r :: r in batch ==> !r.visibility.Superseded? && (IsControlCommand(r) ==> !r.inHistory))
    && match deactivate
       case None => forall r :: r in batch ==> AnchorBoundary(r).None?
       case Some(b) =>
         && (exists r :: r in batch && AnchorBoundary(r).Some?)
         && EpochAt(batch, s.lastSeq + |batch|) == b
         && EpochAt(s.records, s.lastSeq) <= b <= s.lastSeq
  }

  /** A batch with an anchor starts the epoch it deactivates to; one without leaves the epoch as it was. */
  lemma EpochAfterBatch(s: Branch, batch: seq<MessageRecord>, deactivate: Option<int>)
    requires Consistent(s) && WellFormedBatch(s, batch, deactivate)
    ensures EpochAt(s.records + batch, s.lastSeq + |batch|) ==
            if deactivate.Some? then deactivate.value else EpochAt(s.records, s.lastSeq)
  {
    hide EpochAt, Rebuilt;
    var through := s.lastSeq + |batch|;
    EpochConcat(s.records, batch, through);
    if deactivate.Some? {
      var r :| r in batch && AnchorBoundary(r).Some?;
      assert Live(r, through);
    } else {
      EpochOfEqualBounds(s.records, s.lastSeq, through);
    }
  }

  lemma WellFormedBatchFits(s: Branch, batch: seq<MessageRecord>, deactivate: Option<int>)
    requires Consistent(s) && AnchorsLookBack(s.records) && WellFormedBatch(s, batch, deactivate)
    ensures AppendFits(s, batch, deactivate)
  {
    hide EpochAt, Rebuilt;
    EpochLooksBack(s.records, s.lastSeq);
    EpochAfterBatch(s, batch, deactivate);
    forall i | 0 <= i < |batch| ensures NewFits(batch[i], EpochAt(s.records + batch, s.lastSeq + |batch|)) {
      assert batch[i] in batch;
    }
  }

  /** What stood before the number `end` stands as it did, everything else is superseded; and nothing else of any
      record but its flag has changed. */
  ghost predicate StandBefore(was: seq<MessageRecord>, now: seq<MessageRecord>, end: int) {
    && |now| == |was|
    && forall i :: 0 <= i < |was| ==>
         && now[i] == was[i].(visibility := now[i].visibility, inHistory := now[i].inHistory)
         && now[i].visibility == (if was[i].seqNo < end then was[i].visibility else Superseded)
  }

  /** The number of the first standing message of a turn among the records, or else the target's own. */
  ghost predicate TurnStartsAt(records: seq<MessageRecord>, target: MessageRecord, start: int) {
    if forall r :: r in records ==> !StandsInTurn(r, target) then start == target.seqNo
    else
      && (exists r :: r in records && StandsInTurn(r, target) && r.seqNo == start)
      && forall r :: r in records && StandsInTurn(r, target) ==> start <= r.seqNo
  }

  /** A message not superseded that belongs to the turn of the target: the turn it names, or the one it starts. */
  predicate StandsInTurn(r: MessageRecord, target: MessageRecord) {
    && r.visibility != Superseded
    && r.turnId == Some(match target.turnId case Some(turn) => turn case None => target.id)
  }

  /** What each kind of rewind leaves of the records it found. */
  ghost predicate RewoundTo(was: seq<MessageRecord>, now: seq<MessageRecord>, target: MessageRecord,
                            boundary: RewindBoundary)
  {
    match boundary
    case AfterMessage => StandBefore(was, now, target.seqNo + 1)
    case BeforeMessage => StandBefore(was, now, target.seqNo)
    case BeforeTurn => exists start :: TurnStartsAt(was, target, start) && StandBefore(was, now, start)
  }

  /** In numbered records the first one found of a turn has the least number. */
  lemma {:induction false} FirstOfTurnIsLeast(records: seq<MessageRecord>, turn: MessageId)
    requires forall i, j :: 0 <= i < j < |records| ==> records[i].seqNo < records[j].seqNo
    ensures FirstOfTurn(records, turn).Some? ==>
              forall r :: r in records && !r.visibility.Superseded? && r.turnId == Some(turn) ==>
                FirstOfTurn(records, turn).value.seqNo <= r.seqNo
  {
    if records != [] && (records[0].visibility.Superseded? || records[0].turnId != Some(turn)) {
      FirstOfTurnIsLeast(records[1..], turn);
    }
  }

  lemma StandsUpTo(records: seq<MessageRecord>, boundary: int)
    ensures StandBefore(records, Rebuilt(SupersededBeyond(records, boundary), boundary), boundary + 1)
  {
    hide EpochAt, InBranch;
  }

  lemma TurnStart(records: seq<MessageRecord>, target: MessageRecord)
    requires Numbered(records)
    ensures TurnStartsAt(records, target, RewindBoundarySeq(records, target, BeforeTurn) + 1)
  {
    var turn := if target.turnId.Some? then target.turnId.value else target.id;
    FirstOfTurnIsLeast(records, turn);
    hide FirstOfTurn;
    assert forall r :: StandsInTurn(r, target) <==> !r.visibility.Superseded? && r.turnId == Some(turn);
  }

  /** After a message: what stood up to and including it stands, the rest is superseded. Before it: it goes too.
      Before its turn: from the first standing message of the turn on, or from the target if there is none. */
  lemma RewindLeaves(records: seq<MessageRecord>, target: MessageRecord, boundary: RewindBoundary)
    requires Numbered(records)
    ensures var b := RewindBoundarySeq(records, target, boundary);
            RewoundTo(records, Rebuilt(SupersededBeyond(records, b), b), target, boundary)
  {
    hide Rebuilt, SupersededBeyond, StandBefore, TurnStartsAt, Numbered;
    var b := RewindBoundarySeq(records, target, boundary);
    StandsUpTo(records, b);
    if boundary.BeforeTurn? {
      TurnStart(records, target);
    }
  }

  /** Nothing of the turn stands after a rewind before it, and everything before the turn stands as it did. */
  lemma NothingOfTheTurnStands(was: seq<MessageRecord>, now: seq<MessageRecord>, target: MessageRecord, i: nat)
    requires RewoundTo(was, now, target, BeforeTurn) && i < |was|
    ensures |now| == |was| && !StandsInTurn(now[i], target)
    ensures was[i].seqNo < target.seqNo && (forall r :: r in was && StandsInTurn(r, target) ==> was[i].seqNo < r.seqNo)
            ==> now[i].visibility == was[i].visibility
  {
    var start :| TurnStartsAt(was, target, start) && StandBefore(was, now, start);
    assert was[i] in was;
    if exists r :: r in was && StandsInTurn(r, target) {
      var r :| r in was && StandsInTurn(r, target) && r.seqNo == start;
      var k :| 0 <= k < |was| && was[k] == r;
    }
  }

  /** A rewind leaves every session consistent, wherever its boundary lies. */
  lemma RewindKeepsConsistency(s: Branch, boundary: int)
    requires |s.records| == s.lastSeq && Numbered(s.records)
    ensures Consistent(AfterRewind(s, boundary))
  {
    var cut := SupersededBeyond(s.records, boundary);
    var t := AfterRewind(s, boundary);
    EpochIgnoresFlags(cut, t.records, boundary);
    EpochOfEqualBounds(t.records, boundary, s.lastSeq);
    ConsistentMeansFlagged(t);
  }

  /** Rewinding twice is rewinding once to the earlier boundary. */
  lemma RewindsCompose(s: Branch, first: int, second: int)
    requires second <= first
    ensures AfterRewind(AfterRewind(s, first), second) == AfterRewind(s, second)
  {
    var once := SupersededBeyond(s.records, second);
    var twice := SupersededBeyond(AfterRewind(s, first).records, second);
    assert forall i :: 0 <= i < |once| ==> twice[i].(inHistory := once[i].inHistory) == once[i];
    EpochIgnoresFlags(once, twice, second);
    assert Rebuilt(once, second) == Rebuilt(twice, second);
  }

  datatype Step = Append(batch: seq<MessageRecord>, deactivate: Option<int>) | Rewind(boundary: int)

  function Next(s: Branch, step: Step): Branch {
    match step
    case Append(batch, deactivate) => AfterAppend(s, batch, deactivate)
    case Rewind(boundary) => AfterRewind(s, boundary)
  }

  ghost predicate Accepts(s: Branch, step: Step) {
    match step
    case Append(batch, deactivate) => WellFormedBatch(s, batch, deactivate)
    case Rewind(_) => true
  }

  ghost predicate Run(s: Branch, steps: seq<Step>)
    decreases |steps|
  {
    steps == [] || (Accepts(s, steps[0]) && Run(Next(s, steps[0]), steps[1..]))
  }

  function After(s: Branch, steps: seq<Step>): Branch
    decreases |steps|
  {
    if steps == [] then s else After(Next(s, steps[0]), steps[1..])
  }

  /** What a first turn stores: messages 1..n, active unless they are control commands. */
  ghost predicate WellFormedFirstTurn(messages: seq<MessageRecord>) {
    && Numbered(messages) && AnchorsLookBack(messages)
    && EpochAt(messages, |messages|) <= 0
    && forall r :: r in messages ==> !r.visibility.Superseded? && r.inHistory == !IsControlCommand(r)
  }

  lemma FirstTurnIsConsistent(messages: seq<MessageRecord>)
    requires WellFormedFirstTurn(messages)
    ensures Consistent(Branch(messages, |messages|))
  {
    var s := Branch(messages, |messages|);
    forall i | 0 <= i < |messages| ensures Flagged(messages[i], |messages|, EpochAt(messages, |messages|)) {
      assert messages[i] in messages;
    }
    ConsistentMeansFlagged(s);
  }

  ghost predicate Sound(s: Branch) {
    Consistent(s) && AnchorsLookBack(s.records)
  }

  lemma StepKeepsSound(s: Branch, step: Step)
    requires Sound(s) && Accepts(s, step)
    ensures Sound(Next(s, step))
  {
    var t := Next(s, step);
    match step
    case Append(batch, deactivate) =>
      WellFormedBatchFits(s, batch, deactivate);
      AppendKeepsConsistency(s, batch, deactivate);
      forall i | 0 <= i < |t.records| && AnchorBoundary(t.records[i]).Some?
        ensures AnchorBoundary(t.records[i]).value < t.records[i].seqNo
      {
        assert if i < |s.records| then s.records[i] in s.records else t.records[i] in batch;
      }
    case Rewind(boundary) =>
      RewindKeepsConsistency(s, boundary);
      forall i | 0 <= i < |t.records| && AnchorBoundary(t.records[i]).Some?
        ensures AnchorBoundary(t.records[i]).value < t.records[i].seqNo
      {
        assert s.records[i] in s.records;
      }
  }

  /** In every session a run reaches, stored flags and definition agree. */
  lemma {:induction false} ReachableSessionsAreSound(s: Branch, steps: seq<Step>)
    requires Sound(s) && Run(s, steps)
    ensures Sound(After(s, steps))
    decreases |steps|
  {
    if steps != [] {
      StepKeepsSound(s, steps[0]);
      ReachableSessionsAreSound(Next(s, steps[0]), steps[1..]);
    }
  }

  /** From a first turn on: numbered 1..lastSeq and flagged as Rebuilt says, after any run. */
  lemma EveryReachableSession(messages: seq<MessageRecord>, steps: seq<Step>)
    requires WellFormedFirstTurn(messages) && Run(Branch(messages, |messages|), steps)
    ensures Consistent(After(Branch(messages, |messages|), steps))
  {
    FirstTurnIsConsistent(messages);
    ReachableSessionsAreSound(Branch(messages, |messages|), steps);
  }

  /** The same message, up to what rewinds and compactions may change; superseded stays superseded. */
  predicate SameMessage(a: MessageRecord, b: MessageRecord) {
    && b.(inHistory := a.inHistory, visibility := a.visibility) == a
    && (a.visibility == b.visibility || b.visibility.Superseded?)
  }

  ghost predicate Extends(s: Branch, t: Branch) {
    && |s.records| <= |t.records| && s.lastSeq <= t.lastSeq
    && forall i :: 0 <= i < |s.records| ==> SameMessage(s.records[i], t.records[i])
  }

  lemma {:induction false} RunsExtend(s: Branch, steps: seq<Step>)
    ensures Extends(s, After(s, steps))
    decreases |steps|
  {
    if steps != [] {
      var t := Next(s, steps[0]);
      assert Extends(s, t);
      RunsExtend(t, steps[1..]);
      var u := After(s, steps);
      forall i | 0 <= i < |s.records| ensures SameMessage(s.records[i], u.records[i]) {
        assert SameMessage(s.records[i], t.records[i]) && SameMessage(t.records[i], u.records[i]);
      }
    }
  }

  /** No message of `s` has been superseded in `later` that was not superseded already. */
  ghost predicate NothingSuperseded(s: Branch, later: Branch)
    requires |s.records| <= |later.records|
  {
    forall i :: 0 <= i < |s.records| ==> later.records[i].visibility == s.records[i].visibility
  }

  /** Rewinding is time travel: after any run, rewinding to the sequence number the session once
      ended at restores exactly what was stored then, compactions undone and flags included, if and
      only if nothing stored then has been superseded since; and nothing later stays active. */
  lemma RewindIsTimeTravel(s: Branch, steps: seq<Step>)
    requires Sound(s) && Run(s, steps)
    ensures |s.records| <= |After(s, steps).records|
    ensures AfterRewind(After(s, steps), s.lastSeq).records[..|s.records|] == s.records <==>
            NothingSuperseded(s, After(s, steps))
    ensures forall i :: |s.records| <= i < |After(s, steps).records| ==>
              !AfterRewind(After(s, steps), s.lastSeq).records[i].inHistory
  {
    RunsExtend(s, steps);
    ReachableSessionsAreSound(s, steps);
    var later := After(s, steps);
    hide After, Run;
    RewindBeyond(s, later);
    if NothingSuperseded(s, later) {
      RestoredPrefix(s, later);
    } else {
      var i :| 0 <= i < |s.records| && later.records[i].visibility != s.records[i].visibility;
      KeptVisibility(later, s.lastSeq, i);
      hide AfterRewind;
      var back := AfterRewind(later, s.lastSeq).records;
      assert back[..|s.records|][i] == back[i];
    }
  }

  lemma KeptVisibility(later: Branch, boundary: int, i: nat)
    requires Numbered(later.records) && i < |later.records| && i < boundary
    ensures |AfterRewind(later, boundary).records| == |later.records|
    ensures AfterRewind(later, boundary).records[i].visibility == later.records[i].visibility
  {
  }

  lemma RewindBeyond(s: Branch, later: Branch)
    requires |s.records| == s.lastSeq && |s.records| <= |later.records| && Numbered(later.records)
    ensures |AfterRewind(later, s.lastSeq).records| == |later.records|
    ensures forall i :: |s.records| <= i < |later.records| ==> !AfterRewind(later, s.lastSeq).records[i].inHistory
  {
  }

  lemma RestoredPrefix(s: Branch, later: Branch)
    requires Consistent(s) && Extends(s, later) && Numbered(later.records) && NothingSuperseded(s, later)
    ensures AfterRewind(later, s.lastSeq).records[..|s.records|] == s.records
  {
    var n, cut := |s.records|, SupersededBeyond(later.records, s.lastSeq);
    EpochOfPrefix(cut, s.lastSeq, n);
    assert forall i :: 0 <= i < n ==> SameMessage(s.records[i], later.records[i]);
    EpochIgnoresFlags(s.records, cut[..n], s.lastSeq);
    forall i | 0 <= i < n ensures AfterRewind(later, s.lastSeq).records[i] == s.records[i] {
      RestoredRecord(s, later, i);
    }
    hide EpochAt, Consistent, Extends, NothingSuperseded, AfterRewind;
  }

  lemma RestoredRecord(s: Branch, later: Branch, i: nat)
    requires Consistent(s) && Extends(s, later) && Numbered(later.records) && NothingSuperseded(s, later)
    requires i < |s.records|
    requires EpochAt(SupersededBeyond(later.records, s.lastSeq), s.lastSeq) == EpochAt(s.records, s.lastSeq)
    ensures AfterRewind(later, s.lastSeq).records[i] == s.records[i]
  {
    hide EpochAt;
    assert SameMessage(s.records[i], later.records[i]);
    assert s.records[i] == Rebuilt(s.records, s.lastSeq)[i];
  }
}
