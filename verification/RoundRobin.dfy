/** Generation order of comparison tasks: round robin over the courses. */
module RoundRobin {
  import opened Lists

  /** A task is queued by its position in the list of tasks, so that tasks may share an identifier. */
  type Position = nat
  type Course = nat

  datatype Task = Task(id: string, course: Course)

  /** No task is queued twice. */
  ghost predicate AreDisjoint(queues: seq<seq<Position>>) {
    && (forall c :: 0 <= c < |queues| ==> HasNoDuplicates(queues[c]))
    && (forall c, d, x :: 0 <= c < d < |queues| && x in queues[c] ==> x !in queues[d])
  }

  /** The part of `order` that comes from `queue`, in order. */
  function From(order: seq<Position>, queue: seq<Position>): seq<Position> {
    if order == [] then []
    else
      var last := order[|order| - 1];
      From(order[..|order| - 1], queue) + if last in queue then [last] else []
  }

  function Min(a: int, b: int): int {
    if a < b then a else b
  }

  /** A queue lags another by at most one, unless it is used up. */
  ghost predicate IsBalanced(order: seq<Position>, queues: seq<seq<Position>>) {
    forall c, d :: 0 <= c < |queues| && 0 <= d < |queues| ==>
      |From(order, queues[c])| >= Min(|queues[c]|, |From(order, queues[d])| - 1)
  }

  /** Every truncation is balanced. */
  ghost predicate IsAlwaysBalanced(order: seq<Position>, queues: seq<seq<Position>>) {
    forall k :: 0 <= k <= |order| ==> IsBalanced(order[..k], queues)
  }

  /** An interleaving of the queues, balanced at every truncation. */
  ghost predicate IsFairOrder(order: seq<Position>, queues: seq<seq<Position>>) {
    && HasNoDuplicates(order)
    && (forall x :: x in order <==> exists c :: 0 <= c < |queues| && x in queues[c])
    && (forall c :: 0 <= c < |queues| ==> From(order, queues[c]) == queues[c])
    && IsAlwaysBalanced(order, queues)
  }

  // ---------------------------------------------------------------- the state of a round

  /** How many tasks queue `c` has given once `done` rounds and the first `turn` turns of the next are over. */
  function Taken(queues: seq<seq<Position>>, done: nat, turn: nat, c: nat): nat
    requires c < |queues|
  {
    Min(|queues[c]|, if c < turn then done + 1 else done)
  }

  /** `order` has exactly the front of every queue, `rest` the back. */
  ghost predicate IsTurn(order: seq<Position>, queues: seq<seq<Position>>, rest: seq<seq<Position>>, done: nat, turn: nat) {
    && |rest| == |queues|
    && (forall c :: 0 <= c < |queues| ==>
          && From(order, queues[c]) == queues[c][..Taken(queues, done, turn, c)]
          && rest[c] == queues[c][Taken(queues, done, turn, c)..])
    && HasNoDuplicates(order)
    && (forall x :: x in order ==> exists c :: 0 <= c < |queues| && x in queues[c])
  }

  lemma TurnIsBalanced(order: seq<Position>, queues: seq<seq<Position>>, rest: seq<seq<Position>>, done: nat, turn: nat)
    requires IsTurn(order, queues, rest, done, turn)
    ensures IsBalanced(order, queues)
  {
  }

  lemma FromOfAppend(order: seq<Position>, x: Position, queue: seq<Position>)
    ensures From(order + [x], queue) == From(order, queue) + if x in queue then [x] else []
  {
    assert (order + [x])[..|order|] == order;
  }

  lemma {:induction false} FromKeepsMembers(order: seq<Position>, queue: seq<Position>, x: Position)
    requires x in order && x in queue
    ensures x in From(order, queue)
  {
    if x != order[|order| - 1] {
      FromKeepsMembers(order[..|order| - 1], queue, x);
    }
  }

  /** Queue `turn` gives its next task. */
  lemma TakeOne(order: seq<Position>, queues: seq<seq<Position>>, rest: seq<seq<Position>>, done: nat, turn: nat)
    requires AreDisjoint(queues) && IsTurn(order, queues, rest, done, turn) && turn < |queues| && rest[turn] != []
    ensures IsTurn(order + [rest[turn][0]], queues, rest[turn := rest[turn][1..]], done, turn + 1)
  {
    var x := rest[turn][0];
    var k := Taken(queues, done, turn, turn);
    assert x == queues[turn][k] && x in queues[turn];
    if x in order {
      FromKeepsMembers(order, queues[turn], x);
    }
    forall c | 0 <= c < |queues|
      ensures From(order + [x], queues[c]) == queues[c][..Taken(queues, done, turn + 1, c)]
    {
      FromOfAppend(order, x, queues[c]);
    }
  }

  lemma SkipEmpty(order: seq<Position>, queues: seq<seq<Position>>, rest: seq<seq<Position>>, done: nat, turn: nat)
    requires IsTurn(order, queues, rest, done, turn) && turn < |queues| && rest[turn] == []
    ensures IsTurn(order, queues, rest, done, turn + 1)
  {
    assert Taken(queues, done, turn, turn) == |queues[turn]|;
  }

  lemma NextRound(order: seq<Position>, queues: seq<seq<Position>>, rest: seq<seq<Position>>, done: nat)
    requires IsTurn(order, queues, rest, done, |queues|)
    ensures IsTurn(order, queues, rest, done + 1, 0)
  {
    assert forall c :: 0 <= c < |queues| ==> Taken(queues, done, |queues|, c) == Taken(queues, done + 1, 0, c);
  }

  function Left(rest: seq<seq<Position>>): nat {
    if rest == [] then 0 else Left(rest[..|rest| - 1]) + |rest[|rest| - 1]|
  }

  lemma {:induction false} LeftShrinks(rest: seq<seq<Position>>, c: nat)
    requires c < |rest| && rest[c] != []
    ensures Left(rest[c := rest[c][1..]]) == Left(rest) - 1
  {
    var n := |rest| - 1;
    var less := rest[c := rest[c][1..]];
    if c < n {
      LeftShrinks(rest[..n], c);
      assert less[..n] == rest[..n][c := rest[c][1..]];
    } else {
      assert less[..n] == rest[..n];
    }
  }

  // ---------------------------------------------------------------- the code

  lemma StaysBalanced(order: seq<Position>, x: Position, queues: seq<seq<Position>>)
    requires IsAlwaysBalanced(order, queues) && IsBalanced(order + [x], queues)
    ensures IsAlwaysBalanced(order + [x], queues)
  {
    var longer := order + [x];
    forall k | 0 <= k <= |longer|
      ensures IsBalanced(longer[..k], queues)
    {
      if k <= |order| {
        assert longer[..k] == order[..k];
      } else {
        assert longer[..k] == longer;
      }
    }
  }

  /** Queue `turn`, when not empty, gives its next task. */
  method Turn(queues: seq<seq<Position>>, rest: seq<seq<Position>>, order: seq<Position>, ghost done: nat, turn: nat)
    returns (rest': seq<seq<Position>>, order': seq<Position>)
    requires AreDisjoint(queues) && turn < |queues|
    requires IsTurn(order, queues, rest, done, turn) && IsAlwaysBalanced(order, queues)
    ensures IsTurn(order', queues, rest', done, turn + 1) && IsAlwaysBalanced(order', queues)
    ensures |rest'| == |rest| && rest'[turn + 1..] == rest[turn + 1..]
    ensures Left(rest') == Left(rest) - if rest[turn] != [] then 1 else 0
  {
    rest', order' := rest, order;
    if rest[turn] != [] {
      TakeOne(order, queues, rest, done, turn);
      LeftShrinks(rest, turn);
      order' := order + [rest[turn][0]];
      rest' := rest[turn := rest[turn][1..]];
      TurnIsBalanced(order', queues, rest', done, turn + 1);
      StaysBalanced(order, rest[turn][0], queues);
    } else {
      SkipEmpty(order, queues, rest, done, turn);
    }
  }

  /** One round over all queues. */
  method Round(queues: seq<seq<Position>>, rest: seq<seq<Position>>, order: seq<Position>, ghost done: nat)
    returns (rest': seq<seq<Position>>, order': seq<Position>)
    requires AreDisjoint(queues) && IsTurn(order, queues, rest, done, 0) && IsAlwaysBalanced(order, queues)
    ensures IsTurn(order', queues, rest', done + 1, 0) && IsAlwaysBalanced(order', queues)
    ensures Left(rest') <= Left(rest) && ((exists c :: 0 <= c < |rest| && rest[c] != []) ==> Left(rest') < Left(rest))
  {
    assert |rest| == |queues|;
    hide IsTurn, IsAlwaysBalanced, AreDisjoint;
    rest', order' := rest, order;
    for turn := 0 to |queues|
      invariant IsTurn(order', queues, rest', done, turn) && IsAlwaysBalanced(order', queues)
      invariant |rest'| == |rest| && rest'[turn..] == rest[turn..]
      invariant Left(rest') <= Left(rest)
      invariant (exists c :: 0 <= c < turn && rest[c] != []) ==> Left(rest') < Left(rest)
    {
      assert rest'[turn..][0] == rest[turn..][0];
      assert rest'[turn..][1..] == rest'[turn + 1..] && rest[turn..][1..] == rest[turn + 1..];
      rest', order' := Turn(queues, rest', order', done, turn);
    }
    NextRound(order', queues, rest', done);
  }

  method FairOrder(queues: seq<seq<Position>>) returns (order: seq<Position>)
    requires AreDisjoint(queues)
    ensures IsFairOrder(order, queues)
  {
    order := [];
    var rest := queues;
    ghost var done := 0;
    TurnIsBalanced(order, queues, rest, 0, 0);
    assert order[..0] == [];
    while exists c :: 0 <= c < |rest| && rest[c] != []
      invariant IsTurn(order, queues, rest, done, 0)
      invariant IsAlwaysBalanced(order, queues)
      decreases Left(rest)
    {
      rest, order := Round(queues, rest, order, done);
      done := done + 1;
    }
    forall c | 0 <= c < |queues|
      ensures From(order, queues[c]) == queues[c]
    {
      assert rest[c] == [];
    }
    forall x, c | 0 <= c < |queues| && x in queues[c]
      ensures x in order
    {
      FromHasOnlyMembers(order, queues[c]);
    }
  }

  lemma {:induction false} FromHasOnlyMembers(order: seq<Position>, queue: seq<Position>)
    ensures forall x :: x in From(order, queue) ==> x in order && x in queue
  {
    if order != [] {
      FromHasOnlyMembers(order[..|order| - 1], queue);
    }
  }

  // ---------------------------------------------------------------- queues by course

  function Positions(n: nat): seq<Position> {
    seq(n, i requires 0 <= i < n => i)
  }

  function CourseOf(tasks: seq<Task>): Position -> nat {
    (i: Position) => if i < |tasks| then tasks[i].course else 0
  }

  /** The rank of the digest of a task's identifier. */
  function DigestOf(tasks: seq<Task>, digest: string -> nat, i: Position): nat {
    if i < |tasks| then digest(tasks[i].id) else 0
  }

  function ByDigest(tasks: seq<Task>, digest: string -> nat): (Position, Position) -> bool {
    (i: Position, j: Position) => DigestOf(tasks, digest, i) <= DigestOf(tasks, digest, j)
  }

  function QueueOf(tasks: seq<Task>, digest: string -> nat, course: Course): seq<Position> {
    Sorted(Grouped(Positions(|tasks|), CourseOf(tasks), course), ByDigest(tasks, digest))
  }

  function QueuesOf(tasks: seq<Task>, digest: string -> nat, courses: seq<Course>): seq<seq<Position>> {
    seq(|courses|, c requires 0 <= c < |courses| => QueueOf(tasks, digest, courses[c]))
  }

  /** The courses of the tasks in ascending order. */
  ghost predicate AreCourses(courses: seq<Course>, tasks: seq<Task>) {
    IsAscending(courses) && forall c :: c in courses <==> exists i :: 0 <= i < |tasks| && tasks[i].course == c
  }

  /** The queue of a course holds exactly its tasks. */
  lemma QueueMember(tasks: seq<Task>, digest: string -> nat, course: Course, i: Position)
    ensures i in QueueOf(tasks, digest, course) <==> i < |tasks| && tasks[i].course == course
  {
    var positions := Positions(|tasks|);
    var group := Grouped(positions, CourseOf(tasks), course);
    SortedKeeps(group, ByDigest(tasks, digest));
    assert i in QueueOf(tasks, digest, course) <==> i in multiset(group);
    FilterMember(positions, HasKey(CourseOf(tasks), course), i);
    assert i < |tasks| ==> positions[i] == i;
  }

  /** Within a course the tasks are queued by digest. */
  lemma QueueIsOrdered(tasks: seq<Task>, digest: string -> nat, course: Course, j: nat, k: nat)
    requires j < k < |QueueOf(tasks, digest, course)|
    ensures var queue := QueueOf(tasks, digest, course);
            queue[j] < |tasks| && queue[k] < |tasks| && digest(tasks[queue[j]].id) <= digest(tasks[queue[k]].id)
  {
    var queue := QueueOf(tasks, digest, course);
    QueueMember(tasks, digest, course, queue[j]);
    QueueMember(tasks, digest, course, queue[k]);
    assert queue[j] in queue && queue[k] in queue;
    assert IsTotalOrder(ByDigest(tasks, digest));
    SortedIsOrdered(Grouped(Positions(|tasks|), CourseOf(tasks), course), ByDigest(tasks, digest));
    assert ByDigest(tasks, digest)(queue[j], queue[k]);
  }

  lemma {:induction false} FilterHasNoDuplicates(s: seq<Position>, ok: Position -> bool)
    requires HasNoDuplicates(s)
    ensures HasNoDuplicates(Filter(s, ok))
  {
    if s != [] {
      var n := |s| - 1;
      FilterHasNoDuplicates(s[..n], ok);
      forall x | x in Filter(s[..n], ok)
        ensures x != s[n]
      {
        FilterMember(s[..n], ok, x);
      }
      JoinedHasNoDuplicates(Filter(s[..n], ok), if ok(s[n]) then [s[n]] else []);
    }
  }

  lemma QueuesAreDisjoint(tasks: seq<Task>, digest: string -> nat, courses: seq<Course>)
    requires IsAscending(courses)
    ensures AreDisjoint(QueuesOf(tasks, digest, courses))
  {
    var queues := QueuesOf(tasks, digest, courses);
    forall c | 0 <= c < |queues|
      ensures HasNoDuplicates(queues[c])
    {
      var group := Grouped(Positions(|tasks|), CourseOf(tasks), courses[c]);
      FilterHasNoDuplicates(Positions(|tasks|), HasKey<Position>(CourseOf(tasks), courses[c]));
      SortedKeeps(group, ByDigest(tasks, digest));
      PermutedHasNoDuplicates(group, queues[c]);
    }
    forall c, d, x | 0 <= c < d < |queues| && x in queues[c]
      ensures x !in queues[d]
    {
      QueueMember(tasks, digest, courses[c], x);
      QueueMember(tasks, digest, courses[d], x);
    }
  }

  lemma CoursesAreKeys(groups: map<Course, seq<Position>>, courses: seq<Course>, tasks: seq<Task>)
    requires IsGrouping(groups, Positions(|tasks|), CourseOf(tasks)) && IsAscending(courses)
    requires forall c :: c in courses <==> c in groups
    ensures AreCourses(courses, tasks)
  {
    var positions := Positions(|tasks|);
    forall c
      ensures c in courses <==> exists i :: 0 <= i < |tasks| && tasks[i].course == c
    {
      if i :| 0 <= i < |tasks| && tasks[i].course == c {
        assert positions[i] in positions && CourseOf(tasks)(positions[i]) == c;
      }
      if c in courses {
        assert c in groups;
        var i :| i in positions && CourseOf(tasks)(i) == c;
      }
    }
  }

  lemma GroupIsQueue(groups: map<Course, seq<Position>>, tasks: seq<Task>, digest: string -> nat, course: Course)
    requires IsGrouping(groups, Positions(|tasks|), CourseOf(tasks)) && course in groups
    ensures Sorted(groups[course], ByDigest(tasks, digest)) == QueueOf(tasks, digest, course)
  {
    assert IsGroup(groups[course], Positions(|tasks|), CourseOf(tasks), course);
  }

  method Queues(tasks: seq<Task>, digest: string -> nat) returns (courses: seq<Course>, queues: seq<seq<Position>>)
    ensures AreCourses(courses, tasks) && queues == QueuesOf(tasks, digest, courses)
  {
    hide IsGrouping, QueueOf, Sorted, IsAscending, AreCourses;
    var groups := GroupBy(Positions(|tasks|), CourseOf(tasks));
    courses := Ascending(groups.Keys);
    CoursesAreKeys(groups, courses, tasks);
    queues := [];
    for c := 0 to |courses|
      invariant |queues| == c && forall k :: 0 <= k < c ==> queues[k] == QueueOf(tasks, digest, courses[k])
    {
      assert courses[c] in courses;
      GroupIsQueue(groups, tasks, digest, courses[c]);
      queues := queues + [Sorted(groups[courses[c]], ByDigest(tasks, digest))];
    }
  }

  /** The order lists the identifiers of all tasks, each task once, and is balanced between the courses
      at every truncation. */
  ghost predicate IsGenerationOrder(tasks: seq<Task>, digest: string -> nat, order: seq<string>, positions: seq<Position>) {
    && |order| == |positions| == |tasks| && HasNoDuplicates(positions)
    && (forall k :: 0 <= k < |order| ==> positions[k] < |tasks| && order[k] == tasks[positions[k]].id)
    && exists courses :: AreCourses(courses, tasks) && IsFairOrder(positions, QueuesOf(tasks, digest, courses))
  }

  method BuildOrder(tasks: seq<Task>, digest: string -> nat) returns (order: seq<string>)
    ensures exists positions :: IsGenerationOrder(tasks, digest, order, positions)
  {
    hide IsFairOrder, QueueOf, HasNoDuplicates;
    var courses, queues := Queues(tasks, digest);
    QueuesAreDisjoint(tasks, digest, courses);
    var fair := FairOrder(queues);
    OrderHoldsAllTasks(tasks, digest, courses, fair);
    order := [];
    for k := 0 to |fair|
      invariant |order| == k && forall j :: 0 <= j < k ==> order[j] == tasks[fair[j]].id
    {
      order := order + [tasks[fair[k]].id];
    }
    assert IsGenerationOrder(tasks, digest, order, fair);
  }

  lemma OrderHoldsAllTasks(tasks: seq<Task>, digest: string -> nat, courses: seq<Course>, order: seq<Position>)
    requires AreCourses(courses, tasks) && IsFairOrder(order, QueuesOf(tasks, digest, courses))
    ensures HasNoDuplicates(order) && |order| == |tasks|
    ensures forall k :: 0 <= k < |order| ==> order[k] < |tasks|
  {
    var queues, positions := QueuesOf(tasks, digest, courses), Positions(|tasks|);
    forall i: Position
      ensures i in order <==> i in positions
    {
      assert i < |tasks| ==> positions[i] == i;
      if c :| 0 <= c < |queues| && i in queues[c] {
        QueueMember(tasks, digest, courses[c], i);
      }
      if i < |tasks| {
        assert tasks[i].course in courses;
        var c :| 0 <= c < |courses| && courses[c] == tasks[i].course;
        QueueMember(tasks, digest, courses[c], i);
        assert i in queues[c];
      }
    }
    SameLength(order, positions);
    forall k | 0 <= k < |order|
      ensures order[k] < |tasks|
    {
      assert order[k] in positions;
    }
  }

  lemma SameLength(a: seq<Position>, b: seq<Position>)
    requires HasNoDuplicates(a) && HasNoDuplicates(b) && forall x :: x in a <==> x in b
    ensures |a| == |b|
  {
    forall x
      ensures multiset(a)[x] == multiset(b)[x]
    {
      OnceWithoutDuplicates(a, x);
      OnceWithoutDuplicates(b, x);
      assert x in multiset(a) <==> x in a;
      assert x in multiset(b) <==> x in b;
    }
    assert multiset(a) == multiset(b);
    assert |a| == |multiset(a)| && |b| == |multiset(b)|;
  }
}
