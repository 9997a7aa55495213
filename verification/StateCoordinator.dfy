/** electron/application/application-state-coordinator.ts: queries, commands and internal commands on one
    queue, the cursor of published commits, and closing. A step is what happens between two awaits. */
module StateCoordinator {
  import opened Options

  datatype Work = Query | Command | Internal

  /** A transaction that the database has kept: one that a command publishes, or a private one. */
  datatype Transaction = Public | Private

  datatype Job = Job(work: Work, ticket: nat)

  /** A running job waits for its transaction; has it in the database, its promise not yet resumed; or waits
      for its publication. */
  datatype Phase = Transacting | Kept | Publishing

  /** What a query got: the cursor, and how many transactions the database held when it was read. */
  datatype Answer = Answer(ticket: nat, cursor: nat, seen: nat)

  datatype State = State(
    sequence: nat,
    accepting: bool,
    issued: nat,
    settled: nat,
    queue: seq<Job>,
    running: Option<(Job, Phase)>,
    database: seq<Transaction>,
    committed: seq<nat>,
    published: seq<nat>,
    answers: seq<Answer>,
    closeAfter: Option<nat>)

  const OPENED := State(0, true, 0, 0, [], None, [], [], [], [], None)

  datatype Step =
    | Submit(work: Work)
    | Begin(read: bool)
    | EndTransaction(kept: bool)
    | Resume
    | FinishPublication(delivered: bool)
    | Close

  predicate InPhase(s: State, phase: Phase) {
    s.running.Some? && s.running.value.1 == phase
  }

  /** A command's transaction is in the database and has no number yet. */
  predicate Unnumbered(s: State) {
    InPhase(s, Kept) && s.running.value.0.work.Command?
  }

  predicate Enabled(s: State, step: Step) {
    match step
    case Begin(_) => s.running.None? && s.queue != []
    case EndTransaction(_) => InPhase(s, Transacting)
    case Resume => InPhase(s, Kept)
    case FinishPublication(_) => InPhase(s, Publishing)
    case _ => true
  }

  function Done(s: State): State {
    s.(running := None, settled := s.settled + 1)
  }

  function Apply(s: State, step: Step): State
    requires Enabled(s, step)
  {
    match step
    case Submit(work) =>
      if s.accepting then s.(queue := s.queue + [Job(work, s.issued)], issued := s.issued + 1) else s
    case Begin(read) =>
      var job := s.queue[0];
      var taken := s.(queue := s.queue[1..]);
      if job.work.Query? && read then
        Done(taken.(answers := s.answers + [Answer(job.ticket, s.sequence, |s.database|)]))
      else if job.work.Query? then Done(taken)
      else taken.(running := Some((job, Transacting)))
    case EndTransaction(kept) =>
      var job := s.running.value.0;
      if !kept then Done(s)
      else
        s.(database := s.database + [if job.work.Command? then Public else Private], running := Some((job, Kept)))
    case Resume =>
      var job := s.running.value.0;
      if !job.work.Command? then Done(s)
      else
        s.(sequence := s.sequence + 1, committed := s.committed + [job.ticket], running := Some((job, Publishing)))
    case FinishPublication(delivered) =>
      Done(if delivered then s.(published := s.published + [s.sequence]) else s)
    case Close =>
      if s.closeAfter.Some? then s else s.(accepting := false, closeAfter := Some(s.issued))
  }

  /** How many of the transactions were published by commands. */
  function Publics(database: seq<Transaction>): nat {
    if database == [] then 0
    else Publics(database[..|database| - 1]) + if database[|database| - 1].Public? then 1 else 0
  }

  ghost predicate QueueOk(s: State) {
    && s.settled + (if s.running.Some? then 1 else 0) + |s.queue| == s.issued
    && (s.running.Some? ==> s.running.value.0.ticket == s.settled)
    && (InPhase(s, Publishing) ==> s.running.value.0.work.Command?)
    && (s.running.Some? ==> !s.running.value.0.work.Query?)
    && forall i :: 0 <= i < |s.queue| ==> s.queue[i].ticket == s.issued - |s.queue| + i
  }

  predicate Ascending(xs: seq<nat>) {
    forall i, j :: 0 <= i < j < |xs| ==> xs[i] < xs[j]
  }

  lemma AscendingSnoc(xs: seq<nat>, x: nat)
    requires Ascending(xs) && forall y :: y in xs ==> y < x
    ensures Ascending(xs + [x])
  {
    forall i | 0 <= i < |xs| ensures xs[i] < x {
      assert xs[i] in xs;
    }
  }

  predicate AnswerOk(s: State, a: Answer) {
    a.seen <= |s.database| && a.cursor == Publics(s.database[..a.seen]) && a.ticket < s.settled
  }

  ghost predicate CursorOk(s: State) {
    && Publics(s.database) == s.sequence + (if Unnumbered(s) then 1 else 0)
    && s.sequence == |s.committed|
    && (forall a :: a in s.answers ==> AnswerOk(s, a))
    && Ascending(s.committed)
    && (forall t :: t in s.committed ==> t < s.settled + if InPhase(s, Publishing) then 1 else 0)
    && Ascending(s.published)
    && (forall c :: c in s.published ==> 1 <= c <= s.sequence - if InPhase(s, Publishing) then 1 else 0)
    && (InPhase(s, Publishing) ==> s.sequence >= 1)
  }

  ghost predicate CloseOk(s: State) {
    && (s.accepting <==> s.closeAfter.None?)
    && (s.closeAfter.Some? ==> s.closeAfter.value == s.issued)
  }

  ghost predicate Inv(s: State) {
    QueueOk(s) && CursorOk(s) && CloseOk(s)
  }

  lemma PublicsSnoc(database: seq<Transaction>, t: Transaction)
    ensures Publics(database + [t]) == Publics(database) + if t.Public? then 1 else 0
  {
    assert (database + [t])[..|database|] == database;
  }

  lemma AnswersStayTrue(s: State, t: State)
    requires s.database <= t.database && s.answers == t.answers && s.settled <= t.settled
    requires forall a :: a in s.answers ==> AnswerOk(s, a)
    ensures forall a :: a in t.answers ==> AnswerOk(t, a)
  {
    forall a | a in t.answers ensures AnswerOk(t, a) {
      assert AnswerOk(s, a);
      assert t.database[..a.seen] == s.database[..a.seen];
    }
  }

  lemma BeginKeepsInv(s: State, read: bool)
    requires Inv(s) && Enabled(s, Begin(read))
    ensures Inv(Apply(s, Begin(read)))
  {
    var job := s.queue[0];
    assert s.database[..|s.database|] == s.database;
    AnswersStayTrue(s, s.(settled := s.settled + 1));
    hide Publics;
  }

  lemma TransactionKeepsInv(s: State, kept: bool)
    requires Inv(s) && Enabled(s, EndTransaction(kept))
    ensures Inv(Apply(s, EndTransaction(kept)))
  {
    PublicsSnoc(s.database, Public);
    PublicsSnoc(s.database, Private);
    AnswersStayTrue(s, Apply(s, EndTransaction(kept)));
    hide Publics, AnswerOk, Ascending;
  }

  lemma ResumeKeepsInv(s: State)
    requires Inv(s) && Enabled(s, Resume)
    ensures Inv(Apply(s, Resume))
  {
    AnswersStayTrue(s, Apply(s, Resume));
    AscendingSnoc(s.committed, s.running.value.0.ticket);
    hide Publics, AnswerOk, Ascending;
  }

  lemma PublicationKeepsInv(s: State, delivered: bool)
    requires Inv(s) && Enabled(s, FinishPublication(delivered))
    ensures Inv(Apply(s, FinishPublication(delivered)))
  {
    AnswersStayTrue(s, Apply(s, FinishPublication(delivered)));
    AscendingSnoc(s.published, s.sequence);
    hide Publics, AnswerOk, Ascending;
  }

  /** Every step keeps queue, cursors and closing in order. */
  lemma StepKeepsInv(s: State, step: Step)
    requires Inv(s) && Enabled(s, step)
    ensures Inv(Apply(s, step))
  {
    match step
    case Begin(read) => BeginKeepsInv(s, read);
    case EndTransaction(kept) => TransactionKeepsInv(s, kept);
    case Resume => ResumeKeepsInv(s);
    case FinishPublication(delivered) => PublicationKeepsInv(s, delivered);
    case _ =>
      AnswersStayTrue(s, Apply(s, step));
      hide Publics, AnswerOk, Ascending;
  }

  ghost predicate Interleaving(s: State, steps: seq<Step>)
    decreases |steps|
  {
    steps == [] || (Enabled(s, steps[0]) && Interleaving(Apply(s, steps[0]), steps[1..]))
  }

  ghost function After(s: State, steps: seq<Step>): State
    requires Interleaving(s, steps)
    decreases |steps|
  {
    if steps == [] then s else After(Apply(s, steps[0]), steps[1..])
  }

  lemma {:induction false} InterleavingsKeepInv(s: State, steps: seq<Step>)
    requires Inv(s) && Interleaving(s, steps)
    ensures Inv(After(s, steps))
    decreases |steps|
  {
    hide Inv, Apply, Enabled;
    if steps != [] {
      StepKeepsInv(s, steps[0]);
      InterleavingsKeepInv(Apply(s, steps[0]), steps[1..]);
    }
  }

  /** In every interleaving a query's cursor names exactly the published transactions its value reflects:
      nobody sees a transaction that is kept but not yet numbered. Commits are numbered in call order. */
  lemma EveryAnswerMatchesItsCursor(steps: seq<Step>, a: Answer)
    requires Interleaving(OPENED, steps) && a in After(OPENED, steps).answers
    ensures a.seen <= |After(OPENED, steps).database| && a.cursor == Publics(After(OPENED, steps).database[..a.seen])
    ensures After(OPENED, steps).sequence == |After(OPENED, steps).committed|
    ensures Ascending(After(OPENED, steps).committed)
  {
    assert Inv(OPENED);
    InterleavingsKeepInv(OPENED, steps);
  }

  /** What somebody beside the queue would get who reads the database and the cursor right now. */
  predicate ReadOutsideAgrees(s: State) {
    Publics(s.database) == s.sequence
  }

  /** Beside the queue value and cursor disagree exactly while a command's transaction has no number. */
  lemma OnlyTheQueueHidesIt(s: State)
    requires Inv(s)
    ensures ReadOutsideAgrees(s) <==> !Unnumbered(s)
    ensures Enabled(s, Begin(true)) ==> ReadOutsideAgrees(s)
  {
    hide Publics;
  }

  /** And that moment is reached: by the first command there is. */
  lemma UnnumberedIsReached()
    ensures Interleaving(OPENED, [Submit(Command), Begin(true), EndTransaction(true)])
    ensures Unnumbered(After(OPENED, [Submit(Command), Begin(true), EndTransaction(true)]))
    ensures !ReadOutsideAgrees(After(OPENED, [Submit(Command), Begin(true), EndTransaction(true)]))
  {
    var steps := [Submit(Command), Begin(true), EndTransaction(true)];
    var submitted := Apply(OPENED, Submit(Command));
    var begun := Apply(submitted, Begin(true));
    assert steps[1..] == [Begin(true), EndTransaction(true)] && steps[1..][1..] == [EndTransaction(true)];
    assert steps[1..][1..][1..] == [];
    assert Unnumbered(Apply(begun, EndTransaction(true)));
    assert Inv(OPENED);
    InterleavingsKeepInv(OPENED, steps);
    OnlyTheQueueHidesIt(After(OPENED, steps));
  }

  /** Subscribers get cursors in ascending order, each of a commit that was made. */
  lemma PublishedInOrder(steps: seq<Step>)
    requires Interleaving(OPENED, steps)
    ensures Ascending(After(OPENED, steps).published)
    ensures forall c :: c in After(OPENED, steps).published ==> 1 <= c <= After(OPENED, steps).sequence
  {
    assert Inv(OPENED);
    InterleavingsKeepInv(OPENED, steps);
  }

  /** `close` resolves with the tail it found. */
  predicate CloseResolved(s: State) {
    s.closeAfter.Some? && s.settled >= s.closeAfter.value
  }

  /** Once `close` has resolved, all work is settled and nothing is running; no further run does any. */
  lemma {:induction false} NothingAfterClosing(s: State, steps: seq<Step>)
    requires Inv(s) && Interleaving(s, steps) && CloseResolved(s)
    ensures s.settled == s.issued && s.queue == [] && s.running.None? && After(s, steps) == s
    decreases |steps|
  {
    if steps != [] {
      assert Apply(s, steps[0]) == s;
      hide Inv, Apply, Enabled, CloseResolved;
      NothingAfterClosing(s, steps[1..]);
    }
  }

  /** From the call of `close` on no work is taken on, in whatever run, and it waits for just what had been. */
  lemma {:induction false} ClosingIsFinal(s: State, steps: seq<Step>)
    requires Inv(s) && Interleaving(Apply(s, Close), steps)
    ensures var t := After(Apply(s, Close), steps);
            && !t.accepting && t.issued == s.issued
            && t.closeAfter == Some(if s.closeAfter.Some? then s.closeAfter.value else s.issued)
            && (CloseResolved(t) <==> t.settled == t.issued)
  {
    StepKeepsInv(s, Close);
    ClosedStaysClosed(Apply(s, Close), steps);
  }

  lemma {:induction false} ClosedStaysClosed(s: State, steps: seq<Step>)
    requires Inv(s) && !s.accepting && Interleaving(s, steps)
    ensures var t := After(s, steps);
            && !t.accepting && t.issued == s.issued && t.closeAfter == s.closeAfter
            && (CloseResolved(t) <==> t.settled == t.issued)
    decreases |steps|
  {
    if steps != [] {
      StepKeepsInv(s, steps[0]);
      var next := Apply(s, steps[0]);
      assert !next.accepting && next.issued == s.issued && next.closeAfter == s.closeAfter;
      hide Inv, Apply, Enabled;
      ClosedStaysClosed(next, steps[1..]);
    }
  }

  /** The coordinator's fields. The database and what subscribers have got stand beside it. */
  class ApplicationStateCoordinator {
    var sequence: nat
    var acceptingWork: bool
    var issued: nat
    var settled: nat
    var tail: seq<Job>
    var running: Option<(Job, Phase)>
    var database: seq<Transaction>
    var committed: seq<nat>
    var published: seq<nat>
    var answers: seq<Answer>
    var closeAfter: Option<nat>

    ghost function Model(): State
      reads this
    {
      State(sequence, acceptingWork, issued, settled, tail, running, database, committed, published, answers,
          closeAfter)
    }

    ghost predicate Valid()
      reads this
    {
      Inv(Model())
    }

    constructor ()
      ensures Model() == OPENED && Valid()
    {
      sequence, acceptingWork, issued, settled := 0, true, 0, 0;
      tail, running, database := [], None, [];
      committed, published, answers, closeAfter := [], [], [], None;
    }

    /** `query`, `command` and `internalCommand`: refused once closing, else put behind the tail. */
    method Enqueue(work: Work) returns (accepted: bool)
      requires Valid()
      modifies this
      ensures accepted == old(acceptingWork) && Model() == Apply(old(Model()), Submit(work)) && Valid()
      ensures Model() ==
        if accepted then old(Model()).(queue := old(tail) + [Job(work, old(issued))], issued := old(issued) + 1)
        else old(Model())
    {
      StepKeepsInv(Model(), Submit(work));
      hide Inv;
      accepted := acceptingWork;
      if accepted {
        tail := tail + [Job(work, issued)];
        issued := issued + 1;
      }
    }

    /** The next job starts: a query is read and answered at once, or fails; the others begin their transaction. */
    method StartNext(read: bool)
      requires Valid() && running.None? && tail != []
      modifies this
      ensures Model() == Apply(old(Model()), Begin(read)) && Valid()
      ensures tail == old(tail)[1..]
      ensures var job := old(tail)[0];
              if job.work == Query
              then
                && running == None && settled == old(settled) + 1
                && answers == old(answers) +
                     (if read then [Answer(job.ticket, old(sequence), |old(database)|)] else [])
              else running == Some((job, Transacting)) && settled == old(settled) && answers == old(answers)
      ensures Model() == old(Model()).(queue := tail, running := running, settled := settled, answers := answers)
    {
      StepKeepsInv(Model(), Begin(read));
      hide Inv;
      var job := tail[0];
      tail := tail[1..];
      if job.work.Query? {
        if read {
          answers := answers + [Answer(job.ticket, sequence, |database|)];
        }
        settled := settled + 1;
      } else {
        running := Some((job, Transacting));
      }
    }

    /** The database keeps the transaction or rolls it back; who awaits it has not resumed yet. */
    method TransactionEnded(kept: bool)
      requires Valid() && running.Some? && running.value.1 == Transacting
      modifies this
      ensures Model() == Apply(old(Model()), EndTransaction(kept)) && Valid()
      ensures var job := old(running).value.0;
              Model() ==
                if kept
                then old(Model()).(database := old(database) + [if job.work == Command then Public else Private],
                                   running := Some((job, Kept)))
                else old(Model()).(running := None, settled := old(settled) + 1)
    {
      StepKeepsInv(Model(), EndTransaction(kept));
      hide Inv;
      var job := running.value.0;
      if !kept {
        running, settled := None, settled + 1;
        return;
      }
      database := database + [if job.work.Command? then Public else Private];
      running := Some((job, Kept));
    }

    /** The job goes on after its transaction: a command takes the next number and publishes. */
    method ResumeAfterTransaction()
      requires Valid() && running.Some? && running.value.1 == Kept
      modifies this
      ensures Model() == Apply(old(Model()), Resume) && Valid()
      ensures var job := old(running).value.0;
              Model() ==
                if job.work == Command
                then old(Model()).(sequence := old(sequence) + 1, committed := old(committed) + [job.ticket],
                                   running := Some((job, Publishing)))
                else old(Model()).(running := None, settled := old(settled) + 1)
    {
      StepKeepsInv(Model(), Resume);
      hide Inv;
      var job := running.value.0;
      if !job.work.Command? {
        running, settled := None, settled + 1;
        return;
      }
      sequence := sequence + 1;
      committed := committed + [job.ticket];
      running := Some((job, Publishing));
    }

    /** A publication that fails is reported, not undone. */
    method PublicationEnded(delivered: bool)
      requires Valid() && running.Some? && running.value.1 == Publishing
      modifies this
      ensures Model() == Apply(old(Model()), FinishPublication(delivered)) && Valid()
      ensures running == None && settled == old(settled) + 1
      ensures published == old(published) + (if delivered then [sequence] else [])
      ensures Model() == old(Model()).(running := None, settled := settled, published := published)
    {
      StepKeepsInv(Model(), FinishPublication(delivered));
      hide Inv;
      if delivered {
        published := published + [sequence];
      }
      running, settled := None, settled + 1;
    }

    method StartClosing()
      requires Valid()
      modifies this
      ensures Model() == Apply(old(Model()), Close) && Valid()
      ensures !acceptingWork && closeAfter.Some?
      ensures Model() == old(Model()).(accepting := false,
                closeAfter := if old(closeAfter).Some? then old(closeAfter) else Some(old(issued)))
    {
      StepKeepsInv(Model(), Close);
      hide Inv;
      if closeAfter.None? {
        acceptingWork, closeAfter := false, Some(issued);
      }
    }
  }
}
