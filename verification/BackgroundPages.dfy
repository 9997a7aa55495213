/** The active-first page of background tasks: shared/background-tasks.ts and `list` of
    electron/application/background-task-application-service.ts. Creation times and keys are given by
    their ranks, so that the sort, the cursor test and the query use one and the same total order. */
module BackgroundPages {
  import opened Options

  datatype Status = Queued | Preparing | Running | Pausing | Paused | Opening | Closing | Settled

  datatype Task =
    | Agent(key: nat, createdAt: nat, status: Status, hasActiveChildren: bool)
    | Terminal(key: nat, createdAt: nat, status: Status)

  datatype Position = Position(active: bool, createdAt: nat, key: nat)

  datatype Page = Page(records: seq<Task>, hasMore: bool, nextBefore: Option<Position>)

  const PAGE_SIZE: nat := 50

  predicate IsActive(task: Task) {
    (task.Agent? && task.hasActiveChildren) || task.status != Settled
  }

  function PositionOf(task: Task): Position {
    Position(IsActive(task), task.createdAt, task.key)
  }

  function Number(b: bool): int {
    if b then 1 else 0
  }

  /** compareBackgroundTasks: negative when `left` comes first. */
  function Compare(left: Task, right: Task): int {
    if IsActive(left) != IsActive(right) then Number(IsActive(right)) - Number(IsActive(left))
    else if left.createdAt != right.createdAt then right.createdAt - left.createdAt
    else right.key - left.key
  }

  /** afterCursor: the task comes after the position. */
  predicate After(task: Task, cursor: Position) {
    var current := PositionOf(task);
    || Number(current.active) < Number(cursor.active)
    || (current.active == cursor.active &&
        (current.createdAt < cursor.createdAt ||
         (current.createdAt == cursor.createdAt && current.key < cursor.key)))
  }

  predicate AfterOpt(task: Task, before: Option<Position>) {
    before.None? || After(task, before.value)
  }

  predicate Precedes(a: Task, b: Task) {
    Compare(a, b) < 0
  }

  /** The cursor test and the sort agree on what comes after a task. */
  lemma CursorFollowsTheSort(a: Task, b: Task)
    ensures After(b, PositionOf(a)) <==> Precedes(a, b)
    ensures Precedes(a, b) || Precedes(b, a) || PositionOf(a) == PositionOf(b)
  {
  }

  /** A task that still runs or has something to clean up, its children included. */
  ghost predicate Busy(task: Task) {
    || (task.Agent? && task.hasActiveChildren)
    || task.status in {Queued, Preparing, Running, Pausing, Paused, Opening, Closing}
  }

  /** Busy tasks come first, then newer ones, then those with the greater key; and a cursor says no more. */
  lemma OrderExactly(a: Task, b: Task)
    ensures Precedes(a, b) <==>
            if Busy(a) != Busy(b) then Busy(a)
            else if a.createdAt != b.createdAt then a.createdAt > b.createdAt
            else a.key > b.key
    ensures PositionOf(a) == Position(Busy(a), a.createdAt, a.key)
  {
  }

  function Following(tasks: seq<Task>, before: Option<Position>): (r: seq<Task>)
    ensures forall t :: t in r <==> t in tasks && AfterOpt(t, before)
  {
    if tasks == [] then []
    else if AfterOpt(tasks[0], before) then [tasks[0]] + Following(tasks[1..], before)
    else Following(tasks[1..], before)
  }

  function Insert(task: Task, tasks: seq<Task>): (r: seq<Task>)
    ensures forall t :: t in r <==> t == task || t in tasks
  {
    if tasks == [] || Compare(task, tasks[0]) <= 0 then [task] + tasks
    else [tasks[0]] + Insert(task, tasks[1..])
  }

  function Sort(tasks: seq<Task>): (r: seq<Task>)
    ensures forall t :: t in r <==> t in tasks
  {
    if tasks == [] then [] else Insert(tasks[0], Sort(tasks[1..]))
  }

  function Take(tasks: seq<Task>, n: nat): (r: seq<Task>)
    ensures |r| == if |tasks| < n then |tasks| else n
    ensures forall t :: t in r ==> t in tasks
  {
    if |tasks| <= n then tasks else tasks[..n]
  }

  /** The query for agents: in order, after the cursor, at most `limit` of them. */
  function ListRoots(agents: seq<Task>, before: Option<Position>, limit: nat): seq<Task> {
    Take(Sort(Following(agents, before)), limit)
  }

  function Records(agents: seq<Task>, terminals: seq<Task>, before: Option<Position>): seq<Task> {
    Sort(ListRoots(agents, before, PAGE_SIZE + 1) + Following(terminals, before))
  }

  function List(agents: seq<Task>, terminals: seq<Task>, before: Option<Position>): Page {
    var records := Records(agents, terminals, before);
    var page := Take(records, PAGE_SIZE);
    var more := |records| > |page|;
    Page(page, more, if more && page != [] then Some(PositionOf(page[|page| - 1])) else None)
  }

  /** No two tasks share a key. */
  predicate DistinctKeys(tasks: seq<Task>) {
    forall i, j :: 0 <= i < j < |tasks| ==> tasks[i].key != tasks[j].key
  }

  predicate Ordered(tasks: seq<Task>) {
    forall i, j :: 0 <= i < j < |tasks| ==> Precedes(tasks[i], tasks[j])
  }

  lemma {:induction false} InsertKeepsOrder(task: Task, tasks: seq<Task>)
    requires Ordered(tasks) && forall t :: t in tasks ==> t.key != task.key
    ensures Ordered(Insert(task, tasks)) && |Insert(task, tasks)| == |tasks| + 1
  {
    if tasks != [] {
      assert tasks[0] in tasks;
      if Compare(task, tasks[0]) > 0 {
        var rest := Insert(task, tasks[1..]);
        InsertKeepsOrder(task, tasks[1..]);
        forall k | 0 <= k < |rest| ensures Precedes(tasks[0], rest[k]) {
          assert rest[k] in rest;
        }
      }
    }
  }

  /** Sorting tasks with distinct keys orders them strictly and loses none. */
  lemma {:induction false} SortOrders(tasks: seq<Task>)
    requires DistinctKeys(tasks)
    ensures Ordered(Sort(tasks)) && |Sort(tasks)| == |tasks|
  {
    if tasks != [] {
      SortOrders(tasks[1..]);
      forall t | t in Sort(tasks[1..]) ensures t.key != tasks[0].key {
        assert t in tasks[1..];
      }
      InsertKeepsOrder(tasks[0], Sort(tasks[1..]));
    }
  }

  lemma {:induction false} FollowingKeepsDistinct(tasks: seq<Task>, before: Option<Position>)
    requires DistinctKeys(tasks)
    ensures DistinctKeys(Following(tasks, before))
  {
    if tasks != [] {
      FollowingKeepsDistinct(tasks[1..], before);
      forall t | t in Following(tasks[1..], before) ensures t.key != tasks[0].key {
        assert t in tasks[1..];
      }
    }
  }

  lemma InOrder(tasks: seq<Task>, i: nat, j: nat, t: Task)
    requires Ordered(tasks) && i < |tasks| && j < |tasks|
    requires (tasks[i] == t || Precedes(tasks[i], t)) && Precedes(t, tasks[j])
    ensures i < j
  {
  }

  /** In two strictly ordered lists, one part of the other, the part is never behind. */
  lemma {:induction false} PartIsNeverBehind(part: seq<Task>, whole: seq<Task>, i: nat)
    requires Ordered(part) && Ordered(whole) && i < |part| && forall t :: t in part ==> t in whole
    ensures i < |whole| && (part[i] == whole[i] || Precedes(whole[i], part[i]))
  {
    assert part[i] in whole;
    var k :| 0 <= k < |whole| && whole[k] == part[i];
    if i > 0 {
      PartIsNeverBehind(part, whole, i - 1);
      InOrder(whole, i - 1, k, part[i - 1]);
    }
  }

  /** Whatever `whole` has and `part` has not comes after the first `n` of `part`. */
  ghost predicate OnlyLateOnesMissing(part: seq<Task>, whole: seq<Task>, n: nat) {
    forall t :: t in whole && t !in part ==> |part| >= n && (n > 0 ==> Precedes(part[n - 1], t))
  }

  /** Then the two lists begin with the same `n` tasks. */
  lemma {:induction false} SameBeginning(part: seq<Task>, whole: seq<Task>, n: nat)
    requires Ordered(part) && Ordered(whole) && forall t :: t in part ==> t in whole
    requires OnlyLateOnesMissing(part, whole, n)
    ensures Take(part, n) == Take(whole, n)
    decreases n
  {
    if n > 0 && whole != [] {
      HeadsAgree(part, whole, n);
      TailsStillAgree(part, whole, n);
      SameBeginning(part[1..], whole[1..], n - 1);
      TakeCons(part, n);
      TakeCons(whole, n);
    } else {
      assert part != [] ==> part[0] in whole;
    }
  }

  lemma TakeCons(tasks: seq<Task>, n: nat)
    requires tasks != [] && n > 0
    ensures Take(tasks, n) == [tasks[0]] + Take(tasks[1..], n - 1)
  {
  }

  lemma NothingPrecedesTheFirst(tasks: seq<Task>, t: Task)
    requires Ordered(tasks) && t in tasks
    ensures !Precedes(t, tasks[0])
  {
    var k :| 0 <= k < |tasks| && tasks[k] == t;
  }

  lemma HeadsAgree(part: seq<Task>, whole: seq<Task>, n: nat)
    requires Ordered(part) && Ordered(whole) && forall t :: t in part ==> t in whole
    requires OnlyLateOnesMissing(part, whole, n) && n > 0 && whole != []
    ensures part != [] && part[0] == whole[0]
  {
    if |part| >= n {
      NothingPrecedesTheFirst(whole, part[n - 1]);
    }
    assert whole[0] in part;
    NothingPrecedesTheFirst(part, whole[0]);
    NothingPrecedesTheFirst(whole, part[0]);
    PartIsNeverBehind(part, whole, 0);
  }

  lemma TailsStillAgree(part: seq<Task>, whole: seq<Task>, n: nat)
    requires Ordered(part) && Ordered(whole) && forall t :: t in part ==> t in whole
    requires OnlyLateOnesMissing(part, whole, n) && n > 0 && part != [] && whole != [] && part[0] == whole[0]
    ensures Ordered(part[1..]) && Ordered(whole[1..]) && forall t :: t in part[1..] ==> t in whole[1..]
    ensures OnlyLateOnesMissing(part[1..], whole[1..], n - 1)
  {
    forall t | t in part[1..] ensures t in whole[1..] {
      assert t in part && t in whole;
      assert Precedes(part[0], t);
      var k :| 0 <= k < |whole| && whole[k] == t;
      assert whole[1..][k - 1] == t;
    }
    forall t | t in whole[1..] && t !in part[1..]
        ensures |part[1..]| >= n - 1 && (n - 1 > 0 ==> Precedes(part[1..][n - 2], t))
    {
      assert Precedes(whole[0], t);
      assert t in whole && t !in part;
    }
  }

  /** All tasks, in the order in which the pages show them. */
  function AllInOrder(agents: seq<Task>, terminals: seq<Task>): seq<Task> {
    Sort(agents + terminals)
  }

  lemma FollowingOfOrdered(tasks: seq<Task>, before: Option<Position>)
    requires Ordered(tasks)
    ensures Ordered(Following(tasks, before))
  {
    if tasks != [] {
      FollowingOfOrdered(tasks[1..], before);
      var rest := Following(tasks[1..], before);
      forall k | 0 <= k < |rest| ensures Precedes(tasks[0], rest[k]) {
        assert rest[k] in tasks[1..];
      }
    }
  }

  lemma MembersOfDistinct(agents: seq<Task>, terminals: seq<Task>)
    requires DistinctKeys(agents + terminals)
    ensures DistinctKeys(agents) && DistinctKeys(terminals)
    ensures forall a, t :: a in agents && t in terminals ==> a.key != t.key
  {
    var both := agents + terminals;
    forall i, j | 0 <= i < j < |agents| ensures agents[i].key != agents[j].key {
      assert both[i].key != both[j].key;
    }
    forall i, j | 0 <= i < j < |terminals| ensures terminals[i].key != terminals[j].key {
      assert both[|agents| + i].key != both[|agents| + j].key;
    }
    forall a, t | a in agents && t in terminals ensures a.key != t.key {
      var i :| 0 <= i < |agents| && agents[i] == a;
      var j :| 0 <= j < |terminals| && terminals[j] == t;
      assert both[i].key != both[|agents| + j].key;
    }
  }

  lemma OrderedIsDistinct(tasks: seq<Task>, keys: seq<Task>)
    requires Ordered(tasks) && DistinctKeys(keys) && forall t :: t in tasks ==> t in keys
    ensures DistinctKeys(tasks)
  {
    forall i, j | 0 <= i < j < |tasks| ensures tasks[i].key != tasks[j].key {
      assert Precedes(tasks[i], tasks[j]) && tasks[i] in keys && tasks[j] in keys;
      var m :| 0 <= m < |keys| && keys[m] == tasks[i];
      var n :| 0 <= n < |keys| && keys[n] == tasks[j];
      assert m < n ==> keys[m].key != keys[n].key;
      assert n < m ==> keys[n].key != keys[m].key;
    }
  }

  /** What a page is cut from is ordered, and holds the listed agents and the terminals after the cursor. */
  lemma RecordsAreOrdered(agents: seq<Task>, terminals: seq<Task>, before: Option<Position>)
    requires DistinctKeys(agents + terminals)
    ensures Ordered(Records(agents, terminals, before))
    ensures Ordered(ListRoots(agents, before, PAGE_SIZE + 1))
    ensures forall t :: t in Records(agents, terminals, before) <==>
              t in ListRoots(agents, before, PAGE_SIZE + 1) || t in Following(terminals, before)
  {
    MembersOfDistinct(agents, terminals);
    FollowingKeepsDistinct(agents, before);
    SortOrders(Following(agents, before));
    FollowingKeepsDistinct(terminals, before);
    var roots := ListRoots(agents, before, PAGE_SIZE + 1);
    OrderedIsDistinct(roots, agents);
    forall i, j | 0 <= i < |roots| && 0 <= j < |Following(terminals, before)|
      ensures roots[i].key != Following(terminals, before)[j].key
    {
      assert roots[i] in roots && Following(terminals, before)[j] in Following(terminals, before);
    }
    assert DistinctKeys(roots + Following(terminals, before));
    SortOrders(roots + Following(terminals, before));
  }

  lemma TakeHolds(tasks: seq<Task>, n: nat, k: nat)
    requires k < |tasks|
    ensures k < n ==> tasks[k] in Take(tasks, n)
  {
    if k < n {
      assert Take(tasks, n)[k] == tasks[k];
    }
  }

  lemma PastTheTake(sorted: seq<Task>, n: nat, t: Task)
    requires Ordered(sorted) && t in sorted && t !in Take(sorted, n + 1)
    ensures |Take(sorted, n + 1)| == n + 1 && Precedes(Take(sorted, n + 1)[n], t)
  {
    var k :| 0 <= k < |sorted| && sorted[k] == t;
    TakeHolds(sorted, n + 1, k);
  }

  /** An agent that the query left out comes after fifty-one listed ones. */
  lemma LeftOutByTheQuery(agents: seq<Task>, before: Option<Position>, t: Task)
    requires DistinctKeys(agents) && t in agents && AfterOpt(t, before)
    requires t !in ListRoots(agents, before, PAGE_SIZE + 1)
    ensures |ListRoots(agents, before, PAGE_SIZE + 1)| == PAGE_SIZE + 1
    ensures Precedes(ListRoots(agents, before, PAGE_SIZE + 1)[PAGE_SIZE], t)
  {
    FollowingKeepsDistinct(agents, before);
    SortOrders(Following(agents, before));
    PastTheTake(Sort(Following(agents, before)), PAGE_SIZE, t);
  }

  /** So it comes after fifty-one records. */
  lemma LeftOutIsLate(agents: seq<Task>, terminals: seq<Task>, before: Option<Position>, t: Task)
    requires DistinctKeys(agents + terminals) && t in agents && AfterOpt(t, before)
    requires t !in ListRoots(agents, before, PAGE_SIZE + 1)
    ensures |Records(agents, terminals, before)| > PAGE_SIZE &&
        Precedes(Records(agents, terminals, before)[PAGE_SIZE], t)
  {
    hide Records, ListRoots, Ordered;
    RecordsAreOrdered(agents, terminals, before);
    MembersOfDistinct(agents, terminals);
    LeftOutByTheQuery(agents, before, t);
    PartIsNeverBehind(ListRoots(agents, before, PAGE_SIZE + 1), Records(agents, terminals, before), PAGE_SIZE);
  }

  /** Fifty-one agents are enough: up to one past the page, the records are the tasks after the cursor. */
  lemma PageSeesEnough(agents: seq<Task>, terminals: seq<Task>, before: Option<Position>)
    requires DistinctKeys(agents + terminals)
    ensures Take(Records(agents, terminals, before), PAGE_SIZE + 1)
         == Take(Following(AllInOrder(agents, terminals), before), PAGE_SIZE + 1)
  {
    var records := Records(agents, terminals, before);
    var rest := Following(AllInOrder(agents, terminals), before);
    RecordsAreOrdered(agents, terminals, before);
    SortOrders(agents + terminals);
    FollowingOfOrdered(AllInOrder(agents, terminals), before);
    forall t | t in rest && t !in records ensures |records| > PAGE_SIZE && Precedes(records[PAGE_SIZE], t) {
      LeftOutIsLate(agents, terminals, before, t);
    }
    SameBeginning(records, rest, PAGE_SIZE + 1);
  }

  /** For every cursor, the page is the first fifty tasks after it, and says truly whether more follow. */
  lemma PageIsTheNextFifty(agents: seq<Task>, terminals: seq<Task>, before: Option<Position>)
    requires DistinctKeys(agents + terminals)
    ensures List(agents, terminals, before).records == Take(Following(AllInOrder(agents, terminals), before), PAGE_SIZE)
    ensures List(agents, terminals, before).hasMore <==> |Following(AllInOrder(agents, terminals), before)| > PAGE_SIZE
    ensures List(agents, terminals, before).hasMore <==> List(agents, terminals, before).nextBefore.Some?
    ensures |List(agents, terminals, before).records| <= 50
    ensures List(agents, terminals, before).hasMore ==> |List(agents, terminals, before).records| == 50
  {
    PageSeesEnough(agents, terminals, before);
    var records := Records(agents, terminals, before);
    var rest := Following(AllInOrder(agents, terminals), before);
    TakeOfTake(records, PAGE_SIZE);
    TakeOfTake(rest, PAGE_SIZE);
  }

  lemma TakeOfTake(tasks: seq<Task>, n: nat)
    ensures Take(Take(tasks, n + 1), n) == Take(tasks, n)
    ensures |tasks| > n <==> |Take(tasks, n + 1)| > n
  {
  }

  /** What follows a task of an ordered list is the rest of the list. */
  lemma {:induction false} FollowingIsTheRest(tasks: seq<Task>, i: nat)
    requires Ordered(tasks) && i < |tasks|
    ensures Following(tasks, Some(PositionOf(tasks[i]))) == tasks[i + 1..]
    decreases |tasks|
  {
    var cursor := Some(PositionOf(tasks[i]));
    CursorFollowsTheSort(tasks[i], tasks[0]);
    if i == 0 {
      forall t | t in tasks[1..] ensures AfterOpt(t, cursor) {
        CursorFollowsTheSort(tasks[0], t);
      }
      AllFollow(tasks[1..], cursor);
    } else {
      assert Precedes(tasks[0], tasks[i]);
      assert tasks[1..][i - 1] == tasks[i];
      FollowingIsTheRest(tasks[1..], i - 1);
      assert tasks[1..][i..] == tasks[i + 1..];
    }
  }

  lemma {:induction false} AllFollow(tasks: seq<Task>, before: Option<Position>)
    requires forall t :: t in tasks ==> AfterOpt(t, before)
    ensures Following(tasks, before) == tasks
  {
    if tasks != [] {
      AllFollow(tasks[1..], before);
    }
  }

  lemma AllIsOrdered(agents: seq<Task>, terminals: seq<Task>)
    requires DistinctKeys(agents + terminals)
    ensures Ordered(AllInOrder(agents, terminals))
  {
    SortOrders(agents + terminals);
  }

  /** The cursor a page hands out stands in the list where the page ends. */
  lemma NextPageGoesOn(agents: seq<Task>, terminals: seq<Task>, from: nat, before: Option<Position>)
    requires DistinctKeys(agents + terminals) && from <= |AllInOrder(agents, terminals)|
    requires Following(AllInOrder(agents, terminals), before) == AllInOrder(agents, terminals)[from..]
    requires List(agents, terminals, before).hasMore
    ensures from + PAGE_SIZE < |AllInOrder(agents, terminals)|
    ensures List(agents, terminals, before).records == AllInOrder(agents, terminals)[from..from + PAGE_SIZE]
    ensures List(agents, terminals, before).nextBefore.Some?
    ensures Following(AllInOrder(agents, terminals), List(agents, terminals, before).nextBefore)
         == AllInOrder(agents, terminals)[from + PAGE_SIZE..]
  {
    hide AllInOrder, Following, Records, Sort, DistinctKeys;
    PageIsTheNextFifty(agents, terminals, before);
    var all := AllInOrder(agents, terminals);
    var records := List(agents, terminals, before).records;
    assert all[from..][..PAGE_SIZE] == all[from..from + PAGE_SIZE];
    assert records[PAGE_SIZE - 1] == all[from + PAGE_SIZE - 1];
    assert List(agents, terminals, before).nextBefore == Some(PositionOf(records[PAGE_SIZE - 1]));
    AllIsOrdered(agents, terminals);
    FollowingIsTheRest(all, from + PAGE_SIZE - 1);
  }

  /** The records met by following `nextBefore` for at most `pages` pages, and whether the end was reached. */
  function Visit(agents: seq<Task>, terminals: seq<Task>, before: Option<Position>, pages: nat): (seq<Task>, bool)
    decreases pages
  {
    if pages == 0 then ([], false)
    else
      var page := List(agents, terminals, before);
      if page.nextBefore.None? then (page.records, true)
      else
        var rest := Visit(agents, terminals, page.nextBefore, pages - 1);
        (page.records + rest.0, rest.1)
  }

  /** From the place of a cursor on, the visit meets the rest of the list and ends. */
  lemma {:induction false} VisitMeetsTheRest(agents: seq<Task>, terminals: seq<Task>, from: nat,
      before: Option<Position>, pages: nat)
    requires DistinctKeys(agents + terminals) && from <= |AllInOrder(agents, terminals)|
    requires Following(AllInOrder(agents, terminals), before) == AllInOrder(agents, terminals)[from..]
    requires pages * PAGE_SIZE >= |AllInOrder(agents, terminals)| - from && pages > 0
    ensures Visit(agents, terminals, before, pages) == (AllInOrder(agents, terminals)[from..], true)
    decreases pages
  {
    hide List, AllInOrder, Following, DistinctKeys;
    var all := AllInOrder(agents, terminals);
    var page := List(agents, terminals, before);
    PageIsTheNextFifty(agents, terminals, before);
    if page.hasMore {
      NextPageGoesOn(agents, terminals, from, before);
      SplitAt(all, from, from + PAGE_SIZE);
      VisitMeetsTheRest(agents, terminals, from + PAGE_SIZE, page.nextBefore, pages - 1);
    }
  }

  lemma SplitAt(tasks: seq<Task>, from: nat, to: nat)
    requires from <= to <= |tasks|
    ensures tasks[from..] == tasks[from..to] + tasks[to..]
  {
  }

  /** Starting without a cursor and following `nextBefore`, every agent and every terminal is met exactly
      once, in the one order, and the pages end. */
  lemma EveryTaskExactlyOnce(agents: seq<Task>, terminals: seq<Task>, pages: nat)
    requires DistinctKeys(agents + terminals)
    requires pages * PAGE_SIZE >= |agents| + |terminals| && pages > 0
    ensures Visit(agents, terminals, None, pages).1
    ensures Ordered(Visit(agents, terminals, None, pages).0)
    ensures multiset(Visit(agents, terminals, None, pages).0) == multiset(agents) + multiset(terminals)
  {
    var all := AllInOrder(agents, terminals);
    SortOrders(agents + terminals);
    AllFollow(all, None);
    assert all[0..] == all;
    VisitMeetsTheRest(agents, terminals, 0, None, pages);
    SortPermutes(agents + terminals);
  }

  lemma {:induction false} InsertAddsOne(task: Task, tasks: seq<Task>)
    ensures multiset(Insert(task, tasks)) == multiset(tasks) + multiset{task}
  {
    if tasks != [] {
      assert tasks == [tasks[0]] + tasks[1..];
      InsertAddsOne(task, tasks[1..]);
    }
  }

  lemma {:induction false} SortPermutes(tasks: seq<Task>)
    ensures multiset(Sort(tasks)) == multiset(tasks)
  {
    if tasks != [] {
      SortPermutes(tasks[1..]);
      InsertAddsOne(tasks[0], Sort(tasks[1..]));
      assert tasks == [tasks[0]] + tasks[1..];
    }
  }
}
