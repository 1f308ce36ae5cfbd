/** An agent's task list: what depends on what, which tasks can be worked on, and the steps
    that change it. */
module Todos {
  import opened Wrappers

  type Ref = string

  datatype Status = Pending | InProgress | Completed | Blocked

  datatype Todo = Todo(ref: Ref, status: Status, parent: Option<Ref>, dependsOn: seq<Ref>)

  /** The list by ref; a later todo of the same ref hides an earlier one. */
  function ByRef(todos: seq<Todo>): map<Ref, Todo> {
    if todos == [] then map[]
    else
      var last := todos[|todos| - 1];
      ByRef(todos[..|todos| - 1])[last.ref := last]
  }

  /** No two todos of a conversation share a ref. */
  ghost predicate Unique(todos: seq<Todo>) {
    forall i, j :: 0 <= i < j < |todos| ==> todos[i].ref != todos[j].ref
  }

  predicate Taken(todos: seq<Todo>, ref: Ref) {
    exists i :: 0 <= i < |todos| && todos[i].ref == ref
  }

  lemma {:induction false} ByRefExactly(todos: seq<Todo>)
    requires Unique(todos)
    ensures forall i :: 0 <= i < |todos| ==> todos[i].ref in ByRef(todos) && ByRef(todos)[todos[i].ref] == todos[i]
    ensures forall ref :: ref in ByRef(todos) ==> Taken(todos, ref)
  {
    if todos != [] {
      var front := todos[..|todos| - 1];
      ByRefExactly(front);
      forall ref | ref in ByRef(todos) ensures Taken(todos, ref) {
        if ref in ByRef(front) {
          var i :| 0 <= i < |front| && front[i].ref == ref;
          assert todos[i].ref == ref;
        }
      }
    }
  }

  // ---------------------------------------------------------------- dependencies

  ghost predicate Edge(todos: map<Ref, Todo>, a: Ref, b: Ref) {
    a in todos && b in todos[a].dependsOn
  }

  /** A walk along dependencies, through todos that exist. */
  ghost predicate Path(todos: map<Ref, Todo>, p: seq<Ref>) {
    p != [] && forall i :: 0 <= i < |p| - 1 ==> Edge(todos, p[i], p[i + 1])
  }

  ghost predicate Reaches(todos: map<Ref, Todo>, a: Ref, b: Ref) {
    exists p :: Path(todos, p) && p[0] == a && p[|p| - 1] == b
  }

  ghost predicate Acyclic(todos: map<Ref, Todo>) {
    forall p :: Path(todos, p) && |p| > 1 ==> p[0] != p[|p| - 1]
  }

  /** Everything a todo in `closed` depends on is in `closed` too. */
  ghost predicate ClosedFrom(todos: map<Ref, Todo>, open: set<Ref>, closed: set<Ref>) {
    forall a, b :: a in closed - open && Edge(todos, a, b) ==> b in closed
  }

  ghost function Named(todos: map<Ref, Todo>): set<Ref> {
    todos.Keys + set a, i | a in todos && 0 <= i < |todos[a].dependsOn| :: todos[a].dependsOn[i]
  }

  /** One visit of the search: every ref is expanded once, whichever branch finds it first. */
  method Visit(todos: map<Ref, Todo>, target: Ref, current: Ref, visited: set<Ref>, ghost universe: set<Ref>)
    returns (found: bool, seen: set<Ref>)
    requires target !in visited && visited <= universe && current in universe && Named(todos) <= universe
    ensures found ==> Reaches(todos, current, target)
    ensures visited <= seen <= universe
    ensures !found ==> target !in seen && current in seen && ClosedFrom(todos, visited, seen)
    decreases universe - visited, 1
  {
    if current == target {
      assert Path(todos, [current]);
      return true, visited;
    }
    if current in visited {
      return false, visited;
    }
    seen := visited + {current};
    assert universe - seen < universe - visited by {
      assert current in universe - visited;
    }
    if current !in todos {
      return false, seen;
    }
    var deps := todos[current].dependsOn;
    for i := 0 to |deps|
      invariant visited + {current} <= seen <= universe && target !in seen
      invariant forall j :: 0 <= j < i ==> deps[j] in seen
      invariant ClosedFrom(todos, visited + {current}, seen)
    {
      assert deps[i] in Named(todos);
      ghost var before := seen;
      assert universe - seen <= universe - (visited + {current});
      found, seen := Visit(todos, target, deps[i], seen, universe);
      if found {
        StepThenReaches(todos, current, deps[i], target);
        return;
      }
      forall a, b | a in seen - (visited + {current}) && Edge(todos, a, b) ensures b in seen {
        assert a in before - (visited + {current}) || a in seen - before;
      }
    }
    found := false;
  }

  lemma PathTail(todos: map<Ref, Todo>, p: seq<Ref>, start: nat)
    requires Path(todos, p) && start < |p|
    ensures Path(todos, p[start..])
  {
    forall i | 0 <= i < |p[start..]| - 1 ensures Edge(todos, p[start..][i], p[start..][i + 1]) {
      assert Edge(todos, p[start + i], p[start + i + 1]);
    }
  }

  lemma PathJoin(todos: map<Ref, Todo>, p: seq<Ref>, q: seq<Ref>)
    requires Path(todos, p) && Path(todos, q) && Edge(todos, p[|p| - 1], q[0])
    ensures Path(todos, p + q)
  {
    forall i | 0 <= i < |p + q| - 1 ensures Edge(todos, (p + q)[i], (p + q)[i + 1]) {
      if i < |p| - 1 {
        assert Edge(todos, p[i], p[i + 1]);
      } else if i >= |p| {
        assert Edge(todos, q[i - |p|], q[i - |p| + 1]);
      }
    }
  }

  lemma StepThenReaches(todos: map<Ref, Todo>, a: Ref, b: Ref, c: Ref)
    requires Edge(todos, a, b) && Reaches(todos, b, c)
    ensures Reaches(todos, a, c)
  {
    var p :| Path(todos, p) && p[0] == b && p[|p| - 1] == c;
    PathJoin(todos, [a], p);
    assert Path(todos, [a] + p);
  }

  lemma {:induction false} ClosedHoldsPath(todos: map<Ref, Todo>, closed: set<Ref>, p: seq<Ref>)
    requires Path(todos, p) && p[0] in closed && ClosedFrom(todos, {}, closed)
    ensures p[|p| - 1] in closed
  {
    if |p| > 1 {
      assert Edge(todos, p[0], p[1]);
      assert p[0] in closed - {};
      PathTail(todos, p, 1);
      ClosedHoldsPath(todos, closed, p[1..]);
    }
  }

  /** Would making `todo` depend on `dependsOn` close a cycle? Exactly when `todo` can already
      be reached from it. */
  method HasCycle(todos: seq<Todo>, todo: Ref, dependsOn: Ref) returns (found: bool)
    ensures found <==> Reaches(ByRef(todos), dependsOn, todo)
  {
    var byRef := ByRef(todos);
    var seen;
    found, seen := Visit(byRef, todo, dependsOn, {}, Named(byRef) + {dependsOn});
    if !found && Reaches(byRef, dependsOn, todo) {
      ghost var p :| Path(byRef, p) && p[0] == dependsOn && p[|p| - 1] == todo;
      ClosedHoldsPath(byRef, seen, p);
      assert false;
    }
  }

  // ---------------------------------------------------------------- acyclicity

  /** Every edge of a walk that is new leads from `a` to `b`: the walk is old, or passes there. */
  lemma {:induction false} PathIsOldOrPasses(before: map<Ref, Todo>, after: map<Ref, Todo>, a: Ref, b: Ref, p: seq<Ref>)
    requires Path(after, p) && AddsEdge(before, after, a, b)
    ensures Path(before, p) || (Reaches(before, p[0], a) && Reaches(before, b, p[|p| - 1]))
  {
    if |p| > 1 {
      var q := p[1..];
      PathTail(after, p, 1);
      PathIsOldOrPasses(before, after, a, b, q);
      assert Edge(after, p[0], p[1]);
      if Edge(before, p[0], p[1]) {
        if Path(before, q) {
          PathJoin(before, [p[0]], q);
          assert [p[0]] + q == p;
        } else {
          StepThenReaches(before, p[0], p[1], a);
        }
      } else {
        assert Path(before, [a]);
      }
    }
  }

  lemma ReachesOn(todos: map<Ref, Todo>, a: Ref, b: Ref, c: Ref)
    requires Reaches(todos, a, b) && Reaches(todos, b, c)
    ensures Reaches(todos, a, c)
  {
    var p :| Path(todos, p) && p[0] == a && p[|p| - 1] == b;
    var q :| Path(todos, q) && q[0] == b && q[|q| - 1] == c;
    if |q| > 1 {
      PathTail(todos, q, 1);
      assert Edge(todos, q[0], q[1]);
      PathJoin(todos, p, q[1..]);
      assert Path(todos, p + q[1..]);
    }
  }

  ghost predicate AddsEdge(before: map<Ref, Todo>, after: map<Ref, Todo>, a: Ref, b: Ref) {
    forall x, y :: Edge(after, x, y) <==> Edge(before, x, y) || (x == a && y == b)
  }

  /** A new dependency closes a cycle exactly when the search finds one. */
  lemma DependencyClosesCycle(before: map<Ref, Todo>, after: map<Ref, Todo>, a: Ref, b: Ref)
    requires Acyclic(before) && AddsEdge(before, after, a, b)
    ensures Acyclic(after) <==> !Reaches(before, b, a)
  {
    if Reaches(before, b, a) {
      var p :| Path(before, p) && p[0] == b && p[|p| - 1] == a;
      assert Path(after, p) by {
        forall i | 0 <= i < |p| - 1 ensures Edge(after, p[i], p[i + 1]) { assert Edge(before, p[i], p[i + 1]); }
      }
      PathJoin(after, [a], p);
      assert ([a] + p)[0] == ([a] + p)[|p|];
    } else {
      forall p | Path(after, p) && |p| > 1 ensures p[0] != p[|p| - 1] {
        PathIsOldOrPasses(before, after, a, b, p);
        if p[0] == p[|p| - 1] && !Path(before, p) {
          ReachesOn(before, b, p[0], a);
        }
      }
    }
  }

  lemma FewerEdgesStayAcyclic(before: map<Ref, Todo>, after: map<Ref, Todo>)
    requires Acyclic(before)
    requires forall x, y :: Edge(after, x, y) ==> Edge(before, x, y)
    ensures Acyclic(after)
  {
    forall p | Path(after, p) && |p| > 1 ensures p[0] != p[|p| - 1] {
      assert Path(before, p) by {
        forall i | 0 <= i < |p| - 1 ensures Edge(before, p[i], p[i + 1]) {
          assert Edge(after, p[i], p[i + 1]);
        }
      }
    }
  }

  // ---------------------------------------------------------------- the tools

  /** `subtasks`: whether the toolset was built with subtasks, which is when dependencies matter to
      a start. */
  datatype Tool =
    | AddTodo(ref: Ref)
    | AddSubtask(above: Ref, ref: Ref)
    | UpdateStatus(todo: Ref, status: Status, subtasks: bool)
    | RemoveTodo(todo: Ref)
    | SetDependency(todo: Ref, dependsOn: Ref)

  function IndexOf(todos: seq<Todo>, ref: Ref): (i: nat)
    requires Taken(todos, ref)
    ensures i < |todos| && todos[i].ref == ref
  {
    if todos[0].ref == ref then 0
    else
      assert Taken(todos[1..], ref) by {
        var i :| 0 <= i < |todos| && todos[i].ref == ref;
        assert todos[1..][i - 1].ref == ref;
      }
      1 + IndexOf(todos[1..], ref)
  }

  predicate IsBlocked(todo: Todo, byRef: map<Ref, Todo>) {
    exists i :: 0 <= i < |todo.dependsOn| && todo.dependsOn[i] in byRef && byRef[todo.dependsOn[i]].status != Completed
  }

  /** With subtasks, a todo that waits for something cannot be started. */
  predicate RefusesStart(todos: seq<Todo>, ref: Ref, status: Status, subtasks: bool)
    requires Taken(todos, ref)
  {
    subtasks && status == InProgress && IsBlocked(todos[IndexOf(todos, ref)], ByRef(todos))
  }

  /** What `set_dependency` decides on the list it read: the row it will write, if any. */
  ghost function Decided(todos: seq<Todo>, todo: Ref, dependsOn: Ref): Option<Todo> {
    if !Taken(todos, todo) || !Taken(todos, dependsOn) || todo == dependsOn then None
    else if Reaches(ByRef(todos), dependsOn, todo) || dependsOn in todos[IndexOf(todos, todo)].dependsOn then None
    else
      var row, dependency := todos[IndexOf(todos, todo)], todos[IndexOf(todos, dependsOn)];
      Some(row.(
        dependsOn := row.dependsOn + [dependsOn],
        status := if dependency.status != Completed && row.status != Completed then Blocked else row.status))
  }

  lemma {:induction false} IndexIs(todos: seq<Todo>, i: nat)
    requires Unique(todos) && i < |todos|
    ensures Taken(todos, todos[i].ref) && IndexOf(todos, todos[i].ref) == i
  {
  }

  /** Writing a row's dependencies and status, if the row is still there. */
  function Written(todos: seq<Todo>, row: Todo): seq<Todo> {
    if !Taken(todos, row.ref) then todos
    else
      var i := IndexOf(todos, row.ref);
      todos[i := todos[i].(dependsOn := row.dependsOn, status := row.status)]
  }

  function StatusWritten(todos: seq<Todo>, ref: Ref, status: Status): seq<Todo> {
    if !Taken(todos, ref) then todos else todos[IndexOf(todos, ref) := todos[IndexOf(todos, ref)].(status := status)]
  }

  ghost function After(todos: seq<Todo>, tool: Tool): seq<Todo> {
    match tool
    case AddTodo(ref) => if Taken(todos, ref) then todos else todos + [Todo(ref, Pending, None, [])]
    case AddSubtask(above, ref) =>
      if Taken(todos, ref) || !Taken(todos, above) then todos else todos + [Todo(ref, Pending, Some(above), [])]
    case UpdateStatus(ref, status, subtasks) =>
      if !Taken(todos, ref) || RefusesStart(todos, ref, status, subtasks) then todos
      else StatusWritten(todos, ref, status)
    case RemoveTodo(ref) =>
      if !Taken(todos, ref) then todos else todos[..IndexOf(todos, ref)] + todos[IndexOf(todos, ref) + 1..]
    case SetDependency(todo, dependsOn) =>
      (match Decided(todos, todo, dependsOn) case None => todos case Some(row) => Written(todos, row))
  }

  class TodoList {
    var todos: seq<Todo>

    /** `ref` is drawn afresh until no todo of the list has it. */
    method Add(ref: Ref)
      requires !Taken(todos, ref)
      modifies this
      ensures todos == After(old(todos), AddTodo(ref))
    {
      todos := todos + [Todo(ref, Pending, None, [])];
    }

    method AddUnder(above: Ref, ref: Ref) returns (added: bool)
      requires !Taken(todos, ref)
      modifies this
      ensures added <==> Taken(old(todos), above)
      ensures todos == After(old(todos), AddSubtask(above, ref))
    {
      added := Taken(todos, above);
      if added {
        todos := todos + [Todo(ref, Pending, Some(above), [])];
      }
    }

    method SetStatus(ref: Ref, status: Status, subtasks: bool) returns (updated: bool)
      modifies this
      ensures updated <==> Taken(old(todos), ref) && !RefusesStart(old(todos), ref, status, subtasks)
      ensures todos == After(old(todos), UpdateStatus(ref, status, subtasks))
    {
      if !Taken(todos, ref) {
        return false;
      }
      var i := IndexOf(todos, ref);
      if subtasks && status == InProgress {
        if IsBlocked(todos[i], ByRef(todos)) {
          return false;
        }
      }
      todos := todos[i := todos[i].(status := status)];
      return true;
    }

    method Remove(ref: Ref) returns (removed: Option<Todo>)
      modifies this
      ensures removed == if Taken(old(todos), ref) then Some(old(todos)[IndexOf(old(todos), ref)]) else None
      ensures todos == After(old(todos), RemoveTodo(ref))
    {
      if !Taken(todos, ref) {
        return None;
      }
      var i := IndexOf(todos, ref);
      removed := Some(todos[i]);
      todos := todos[..i] + todos[i + 1..];
    }

    method DependOn(todo: Ref, dependsOn: Ref) returns (updated: bool)
      modifies this
      ensures updated <==> Decided(old(todos), todo, dependsOn).Some?
      ensures todos == After(old(todos), SetDependency(todo, dependsOn))
    {
      if !Taken(todos, todo) || !Taken(todos, dependsOn) || todo == dependsOn {
        return false;
      }
      var cyclic := HasCycle(todos, todo, dependsOn);
      var i := IndexOf(todos, todo);
      var row, dependency := todos[i], todos[IndexOf(todos, dependsOn)];
      if cyclic || dependsOn in row.dependsOn {
        return false;
      }
      var status := row.status;
      if dependency.status != Completed && row.status != Completed && row.status != Blocked {
        status := Blocked;
      }
      todos := todos[i := todos[i].(dependsOn := row.dependsOn + [dependsOn], status := status)];
      return true;
    }
  }

  /** A dependency is decided on exactly for two todos that are there, where none is yet and none leads back;
      it comes after those there are, and marks the todo as blocked if neither of the two is completed. */
  lemma DecidesExactly(todos: seq<Todo>, i: nat, j: nat)
    requires Unique(todos) && i < |todos| && j < |todos|
    ensures var decided := Decided(todos, todos[i].ref, todos[j].ref);
            && (decided.Some? <==>
                  i != j && todos[j].ref !in todos[i].dependsOn && !Reaches(ByRef(todos), todos[j].ref, todos[i].ref))
            && (decided.Some? ==>
                  && decided.value.ref == todos[i].ref && decided.value.parent == todos[i].parent
                  && decided.value.dependsOn == todos[i].dependsOn + [todos[j].ref]
                  && decided.value.status
                     == match todos[i].status
                        case Completed => Completed
                        case Blocked => Blocked
                        case status => if todos[j].status == Completed then status else Blocked)
    ensures forall ref :: (forall k :: 0 <= k < |todos| ==> todos[k].ref != ref) ==>
              Decided(todos, ref, todos[j].ref) == None && Decided(todos, todos[i].ref, ref) == None
  {
    IndexIs(todos, i);
    IndexIs(todos, j);
    hide IndexOf;
  }

  // ---------------------------------------------------------------- what the tools keep

  lemma EdgesOf(todos: seq<Todo>, x: Ref, y: Ref)
    requires Unique(todos)
    ensures Edge(ByRef(todos), x, y) <==> exists i :: 0 <= i < |todos| && todos[i].ref == x && y in todos[i].dependsOn
  {
    ByRefExactly(todos);
  }

  lemma WrittenAddsEdge(todos: seq<Todo>, row: Todo, b: Ref)
    requires Unique(todos) && Taken(todos, row.ref)
    requires row.dependsOn == todos[IndexOf(todos, row.ref)].dependsOn + [b]
    ensures Unique(Written(todos, row))
    ensures AddsEdge(ByRef(todos), ByRef(Written(todos, row)), row.ref, b)
  {
    var after := Written(todos, row);
    assert forall i :: 0 <= i < |todos| ==> after[i].ref == todos[i].ref;
    forall x, y ensures Edge(ByRef(after), x, y) <==> Edge(ByRef(todos), x, y) || (x == row.ref && y == b) {
      EdgesOf(todos, x, y);
      EdgesOf(after, x, y);
      var k := IndexOf(todos, row.ref);
      assert forall i :: 0 <= i < |todos| && i != k ==> after[i] == todos[i];
      assert todos[k].ref == row.ref && after[k].ref == row.ref && after[k].dependsOn == row.dependsOn;
    }
  }

  lemma ToolKeepsAcyclic(todos: seq<Todo>, tool: Tool)
    requires Unique(todos) && Acyclic(ByRef(todos))
    ensures Unique(After(todos, tool)) && Acyclic(ByRef(After(todos, tool)))
  {
    var after := After(todos, tool);
    if tool.SetDependency? {
      var row := Decided(todos, tool.todo, tool.dependsOn);
      if row.Some? {
        WrittenAddsEdge(todos, row.value, tool.dependsOn);
        DependencyClosesCycle(ByRef(todos), ByRef(after), tool.todo, tool.dependsOn);
      }
    } else {
      OtherToolsKeepUnique(todos, tool);
      forall x, y | Edge(ByRef(after), x, y) ensures Edge(ByRef(todos), x, y) {
        EdgesOf(todos, x, y);
        EdgesOf(after, x, y);
      }
      FewerEdgesStayAcyclic(ByRef(todos), ByRef(after));
    }
  }

  /** A new todo comes last, waiting for nothing, under the parent asked for, which is there; everything
      before it is as it was. */
  lemma NewTodoIs(todos: seq<Todo>, tool: Tool)
    requires tool.AddTodo? || tool.AddSubtask?
    requires !Taken(todos, tool.ref)
    ensures var after := After(todos, tool);
            && (after != todos <==> tool.AddTodo? || exists i :: 0 <= i < |todos| && todos[i].ref == tool.above)
            && (after != todos ==>
                  && |after| == |todos| + 1 && after[..|todos|] == todos
                  && var added := after[|todos|];
                     && added.ref == tool.ref && added.status == Pending && added.dependsOn == []
                     && added.parent == if tool.AddTodo? then None else Some(tool.above))
  {
    var after := After(todos, tool);
    assert |after| != |todos| ==> after != todos;
  }

  lemma OtherToolsKeepUnique(todos: seq<Todo>, tool: Tool)
    requires Unique(todos) && !tool.SetDependency?
    ensures Unique(After(todos, tool))
  {
  }

  ghost function Run(todos: seq<Todo>, tools: seq<Tool>): seq<Todo>
    decreases |tools|
  {
    if tools == [] then todos else Run(After(todos, tools[0]), tools[1..])
  }

  /** From an empty list, whatever tools are called, one at a time: refs stay apart and nothing
      depends on itself, at any remove. */
  lemma {:induction false} ToolsNeverCloseACycle(todos: seq<Todo>, tools: seq<Tool>)
    requires Unique(todos) && Acyclic(ByRef(todos))
    ensures Unique(Run(todos, tools)) && Acyclic(ByRef(Run(todos, tools)))
    decreases |tools|
  {
    if tools != [] {
      ToolKeepsAcyclic(todos, tools[0]);
      ToolsNeverCloseACycle(After(todos, tools[0]), tools[1..]);
    }
  }

  // ---------------------------------------------------------------- tools that overlap

  /** One row's dependencies are replaced by `deps`. */
  ghost predicate Replaces(before: map<Ref, Todo>, after: map<Ref, Todo>, a: Ref, deps: seq<Ref>) {
    forall x, y :: Edge(after, x, y) <==> if x == a then y in deps else Edge(before, x, y)
  }

  /** A walk that comes to `a` does so for a first time, and has used none of its dependencies. */
  lemma FirstArrival(todos: map<Ref, Todo>, p: seq<Ref>, a: Ref) returns (q: seq<Ref>)
    requires Path(todos, p) && p[|p| - 1] == a
    ensures Path(todos, q) && q[0] == p[0] && q[|q| - 1] == a
    ensures forall i :: 0 <= i < |q| - 1 ==> q[i] != a
  {
    var n := 0;
    while p[n] != a
      invariant 0 <= n < |p|
      invariant forall i :: 0 <= i < n ==> p[i] != a
      decreases |p| - n
    {
      n := n + 1;
    }
    q := p[..n + 1];
    forall i | 0 <= i < |q| - 1 ensures Edge(todos, q[i], q[i + 1]) {
      assert Edge(todos, p[i], p[i + 1]);
    }
  }

  lemma SameElsewhere(before: map<Ref, Todo>, after: map<Ref, Todo>, a: Ref, deps: seq<Ref>, p: seq<Ref>)
    requires Replaces(before, after, a, deps) && p != [] && forall i :: 0 <= i < |p| - 1 ==> p[i] != a
    ensures Path(before, p) <==> Path(after, p)
  {
    forall i | 0 <= i < |p| - 1 ensures Edge(before, p[i], p[i + 1]) <==> Edge(after, p[i], p[i + 1]) {
    }
  }

  /** A walk round a cycle through `a`, begun at `a`. */
  lemma BegunAt(todos: map<Ref, Todo>, p: seq<Ref>, i: nat) returns (q: seq<Ref>)
    requires Path(todos, p) && |p| > 1 && p[0] == p[|p| - 1] && i < |p| - 1
    ensures Path(todos, q) && |q| > 1 && q[0] == p[i] == q[|q| - 1]
  {
    PathTail(todos, p, i);
    if i == 0 {
      q := p;
    } else {
      var front := p[1..i + 1];
      assert Path(todos, front) by {
        forall k | 0 <= k < |front| - 1 ensures Edge(todos, front[k], front[k + 1]) {
          assert Edge(todos, p[k + 1], p[k + 2]);
        }
      }
      assert p[i..][|p| - i - 1] == p[0] && Edge(todos, p[0], p[1]);
      PathJoin(todos, p[i..], front);
      q := p[i..] + front;
    }
  }

  /** A row whose dependencies are replaced closes a cycle exactly when one of the new ones leads
      back to it in the list as it stood. */
  lemma ReplacedClosesCycle(before: map<Ref, Todo>, after: map<Ref, Todo>, a: Ref, deps: seq<Ref>)
    requires Acyclic(before) && Replaces(before, after, a, deps)
    ensures Acyclic(after) <==> forall d :: d in deps ==> !Reaches(before, d, a)
  {
    forall d | d in deps && Reaches(before, d, a) ensures !Acyclic(after) {
      var p :| Path(before, p) && p[0] == d && p[|p| - 1] == a;
      var q := FirstArrival(before, p, a);
      SameElsewhere(before, after, a, deps, q);
      assert Edge(after, a, d);
      PathJoin(after, [a], q);
      assert ([a] + q)[0] == ([a] + q)[|q|];
    }
    forall p | Path(after, p) && |p| > 1 && p[0] == p[|p| - 1] ensures exists d :: d in deps && Reaches(before, d, a) {
      var d := WayBack(before, after, a, deps, p);
    }
  }

  /** A new cycle comes by `a`, and so from one of its dependencies back to it. */
  lemma WayBack(before: map<Ref, Todo>, after: map<Ref, Todo>, a: Ref, deps: seq<Ref>, p: seq<Ref>) returns (d: Ref)
    requires Acyclic(before) && Replaces(before, after, a, deps)
    requires Path(after, p) && |p| > 1 && p[0] == p[|p| - 1]
    ensures d in deps && Reaches(before, d, a)
  {
    if forall i :: 0 <= i < |p| - 1 ==> p[i] != a {
      SameElsewhere(before, after, a, deps, p);
      assert false;
    }
    var i :| 0 <= i < |p| - 1 && p[i] == a;
    var q := BegunAt(after, p, i);
    d := q[1];
    assert Edge(after, q[0], d);
    PathTail(after, q, 1);
    var r := FirstArrival(after, q[1..], a);
    SameElsewhere(before, after, a, deps, r);
  }

  lemma WrittenReplaces(todos: seq<Todo>, row: Todo)
    requires Unique(todos) && Taken(todos, row.ref)
    ensures Unique(Written(todos, row))
    ensures Replaces(ByRef(todos), ByRef(Written(todos, row)), row.ref, row.dependsOn)
  {
    var after := Written(todos, row);
    assert forall i :: 0 <= i < |todos| ==> after[i].ref == todos[i].ref;
    var k := IndexOf(todos, row.ref);
    forall x, y
      ensures Edge(ByRef(after), x, y) <==> if x == row.ref then y in row.dependsOn else Edge(ByRef(todos), x, y)
    {
      EdgesOf(todos, x, y);
      EdgesOf(after, x, y);
      assert forall i :: 0 <= i < |todos| && i != k ==> after[i] == todos[i];
      assert todos[k].ref == row.ref && after[k].ref == row.ref && after[k].dependsOn == row.dependsOn;
    }
  }

  /** `set_dependency` reads the list and writes the row in two transactions. Written late, on
      whatever acyclic list there is by then, it keeps the list acyclic exactly when none of the
      dependencies it writes leads back to the row. */
  lemma LateWriteKeepsAcyclic(read: seq<Todo>, now: seq<Todo>, todo: Ref, dependsOn: Ref)
    requires Unique(now) && Acyclic(ByRef(now)) && Taken(now, todo)
    requires Decided(read, todo, dependsOn).Some?
    ensures var row := Decided(read, todo, dependsOn).value;
            Acyclic(ByRef(Written(now, row))) <==> forall d :: d in row.dependsOn ==> !Reaches(ByRef(now), d, todo)
  {
    var row := Decided(read, todo, dependsOn).value;
    WrittenReplaces(now, row);
    ReplacedClosesCycle(ByRef(now), ByRef(Written(now, row)), todo, row.dependsOn);
  }

  /** The late write loses a dependency that others gave the row meanwhile, exactly if it was not
      there to be read and is not the one being written. */
  lemma LateWriteLosesExactly(read: seq<Todo>, now: seq<Todo>, todo: Ref, dependsOn: Ref, d: Ref)
    requires Unique(read) && Unique(now) && Taken(now, todo) && d in now[IndexOf(now, todo)].dependsOn
    requires Decided(read, todo, dependsOn).Some?
    ensures var after := Written(now, Decided(read, todo, dependsOn).value);
            && Taken(after, todo)
            && (d !in after[IndexOf(after, todo)].dependsOn
                <==> d !in read[IndexOf(read, todo)].dependsOn && d != dependsOn)
  {
    var row := Decided(read, todo, dependsOn).value;
    var after := Written(now, row);
    WrittenReplaces(now, row);
    IndexIs(after, IndexOf(now, todo));
    IndexIs(now, IndexOf(now, todo));
  }

  /** Two calls on one todo that both read before either writes: the first one's dependency is gone,
      though both were answered as done. */
  lemma OverlappingCallsLoseADependency(read: seq<Todo>, todo: Ref, one: Ref, other: Ref)
    requires Unique(read) && one != other
    requires Decided(read, todo, one).Some? && Decided(read, todo, other).Some?
    ensures var first := Written(read, Decided(read, todo, one).value);
            var both := Written(first, Decided(read, todo, other).value);
            && Taken(first, todo) && one in first[IndexOf(first, todo)].dependsOn
            && Taken(both, todo) && one !in both[IndexOf(both, todo)].dependsOn
            && other in both[IndexOf(both, todo)].dependsOn
  {
    var first := Written(read, Decided(read, todo, one).value);
    WrittenReplaces(read, Decided(read, todo, one).value);
    IndexIs(first, IndexOf(read, todo));
    IndexIs(read, IndexOf(read, todo));
    LateWriteLosesExactly(read, first, todo, other, one);
    var both := Written(first, Decided(read, todo, other).value);
    WrittenReplaces(first, Decided(read, todo, other).value);
    IndexIs(both, IndexOf(first, todo));
  }

  /** And the status the row is left with is the one decided on the older reading, whatever others
      have set meanwhile; no other row changes. */
  lemma LateWriteRestoresStatus(read: seq<Todo>, now: seq<Todo>, todo: Ref, dependsOn: Ref)
    requires Unique(read) && Unique(now) && Taken(now, todo) && Decided(read, todo, dependsOn).Some?
    ensures var row := read[IndexOf(read, todo)];
            var decided := Decided(read, todo, dependsOn).value.status;
            var after, k := Written(now, Decided(read, todo, dependsOn).value), IndexOf(now, todo);
            && |after| == |now| && Taken(after, todo) && IndexOf(after, todo) == k
            && (forall i :: 0 <= i < |now| && i != k ==> after[i] == now[i])
            && after[k].status == decided
            && (decided == Completed <==> row.status == Completed)
            && (decided == Blocked <==>
                  row.status == Blocked
                  || (row.status != Completed && read[IndexOf(read, dependsOn)].status != Completed))
  {
    WrittenReplaces(now, Decided(read, todo, dependsOn).value);
    IndexIs(now, IndexOf(now, todo));
    IndexIs(Written(now, Decided(read, todo, dependsOn).value), IndexOf(now, todo));
  }

  ghost predicate Edgeless(todos: map<Ref, Todo>) {
    forall x, y :: !Edge(todos, x, y)
  }

  lemma FirstEdge(todos: map<Ref, Todo>, p: seq<Ref>)
    requires Path(todos, p)
    ensures |p| > 1 ==> Edge(todos, p[0], p[1])
  {
  }

  lemma EdgelessGoesNowhere(todos: map<Ref, Todo>)
    requires Edgeless(todos)
    ensures Acyclic(todos)
    ensures forall x, y :: Reaches(todos, x, y) ==> x == y
  {
    forall p | Path(todos, p) ensures |p| == 1 {
      FirstEdge(todos, p);
    }
  }

  /** Two tasks, neither waiting for anything, a task said to wait, and two said to. */
  function Task(ref: Ref, status: Status, dependsOn: seq<Ref>): Todo {
    Todo(ref, status, None, dependsOn)
  }

  const APART := [Task("a", Pending, []), Task("b", Pending, [])]
  const ONE_WAITS := [Task("a", Pending, []), Task("b", Blocked, ["a"])]
  const BOTH_WAIT := [Task("a", Blocked, ["b"]), Task("b", Blocked, ["a"])]

  lemma ApartIsEdgeless()
    ensures Unique(APART) && Edgeless(ByRef(APART))
  {
    assert APART[0].ref == "a" && APART[1].ref == "b";
    forall x, y ensures !Edge(ByRef(APART), x, y) { EdgesOf(APART, x, y); }
  }

  lemma ApartDecides()
    ensures Decided(APART, "a", "b") == Some(Task("a", Blocked, ["b"]))
    ensures Decided(APART, "b", "a") == Some(Task("b", Blocked, ["a"]))
  {
    ApartIsEdgeless();
    EdgelessGoesNowhere(ByRef(APART));
    IndexIs(APART, 0);
    IndexIs(APART, 1);
    assert APART[0].dependsOn + ["b"] == ["b"] && APART[1].dependsOn + ["a"] == ["a"];
  }

  /** Two calls that both read before either writes can close a cycle between them. */
  lemma OverlappingCallsCloseACycle()
    ensures Unique(APART) && Acyclic(ByRef(APART))
    ensures Decided(APART, "a", "b").Some? && Decided(APART, "b", "a").Some?
    ensures !Acyclic(ByRef(Written(Written(APART, Decided(APART, "a", "b").value), Decided(APART, "b", "a").value)))
  {
    ApartIsEdgeless();
    EdgelessGoesNowhere(ByRef(APART));
    ApartDecides();
    IndexIs(APART, 0);
    var once := Written(APART, Task("a", Blocked, ["b"]));
    assert once == [Task("a", Blocked, ["b"]), APART[1]];
    IndexIs(once, 1);
    assert Written(once, Task("b", Blocked, ["a"])) == BOTH_WAIT;
    BothWaitForEachOther();
  }

  lemma BothWaitForEachOther()
    ensures !Acyclic(ByRef(BOTH_WAIT))
  {
    EdgesOf(BOTH_WAIT, "a", "b");
    EdgesOf(BOTH_WAIT, "b", "a");
    assert BOTH_WAIT[0].ref == "a" && "b" in BOTH_WAIT[0].dependsOn;
    assert BOTH_WAIT[1].ref == "b" && "a" in BOTH_WAIT[1].dependsOn;
    assert Path(ByRef(BOTH_WAIT), ["a", "b", "a"]);
  }

  // ---------------------------------------------------------------- what can be worked on

  function AvailableTasks(todos: seq<Todo>): seq<Todo> {
    AvailableIn(todos, ByRef(todos))
  }

  predicate Available(todo: Todo, byRef: map<Ref, Todo>) {
    todo.status != Completed && todo.status != Blocked && !IsBlocked(todo, byRef)
  }

  function AvailableIn(todos: seq<Todo>, byRef: map<Ref, Todo>): seq<Todo> {
    if todos == [] then []
    else (if Available(todos[0], byRef) then [todos[0]] else []) + AvailableIn(todos[1..], byRef)
  }

  lemma {:induction false} AvailableExactly(todos: seq<Todo>, byRef: map<Ref, Todo>, todo: Todo)
    ensures todo in AvailableIn(todos, byRef) <==> todo in todos && Available(todo, byRef)
  {
    if todos != [] {
      AvailableExactly(todos[1..], byRef, todo);
      assert todo in todos <==> todo == todos[0] || todo in todos[1..];
    }
  }

  /** Something may be worked on: it is neither completed nor marked blocked, and whatever it depends
      on has been completed or is not there. */
  ghost predicate Workable(todos: seq<Todo>, todo: Todo) {
    && (todo.status == Pending || todo.status == InProgress)
    && forall d, i :: d in todo.dependsOn && 0 <= i < |todos| && todos[i].ref == d ==> todos[i].status == Completed
  }

  /** The `k`th offered is the todo at `at[k]`, and `at` has the workable ones, in their order. */
  ghost predicate OfferedAt(todos: seq<Todo>, all: seq<Todo>, offered: seq<Todo>, at: seq<nat>) {
    && |at| == |offered|
    && (forall k :: 0 <= k < |at| ==> at[k] < |todos| && offered[k] == todos[at[k]])
    && (forall j, k :: 0 <= j < k < |at| ==> at[j] < at[k])
    && (forall i: nat :: i in at <==> i < |todos| && Workable(all, todos[i]))
  }

  lemma AvailableIsWorkable(todos: seq<Todo>, todo: Todo)
    requires Unique(todos)
    ensures Available(todo, ByRef(todos)) <==> Workable(todos, todo)
  {
    ByRefExactly(todos);
    hide ByRef, Unique;
    var deps := todo.dependsOn;
    if Workable(todos, todo) {
      forall k | 0 <= k < |deps| && deps[k] in ByRef(todos) ensures ByRef(todos)[deps[k]].status == Completed {
        var i :| 0 <= i < |todos| && todos[i].ref == deps[k];
        assert deps[k] in deps;
      }
    }
    if Available(todo, ByRef(todos)) {
      forall d, i | d in deps && 0 <= i < |todos| && todos[i].ref == d ensures todos[i].status == Completed {
        var k :| 0 <= k < |deps| && deps[k] == d;
        assert deps[k] in ByRef(todos);
      }
    }
  }

  lemma AvailableGrows(todos: seq<Todo>, last: Todo, byRef: map<Ref, Todo>)
    ensures AvailableIn(todos + [last], byRef)
            == AvailableIn(todos, byRef) + if Available(last, byRef) then [last] else []
  {
    hide Available;
    if todos == [] {
      assert [last][1..] == [];
    } else {
      var more := todos + [last];
      assert more[0] == todos[0] && more[1..] == todos[1..] + [last];
      AvailableGrows(todos[1..], last, byRef);
    }
  }

  lemma {:induction false} OfferedInOrder(todos: seq<Todo>, all: seq<Todo>) returns (at: seq<nat>)
    requires Unique(all)
    ensures OfferedAt(todos, all, AvailableIn(todos, ByRef(all)), at)
  {
    at := [];
    if todos != [] {
      var front, last := todos[..|todos| - 1], todos[|todos| - 1];
      at := OfferedInOrder(front, all);
      assert todos == front + [last];
      AvailableGrows(front, last, ByRef(all));
      AvailableIsWorkable(all, last);
      hide AvailableIn, Workable, Available, ByRef, Unique;
      if Available(last, ByRef(all)) {
        at := at + [|front|];
      }
      forall i: nat ensures i in at <==> i < |todos| && Workable(all, todos[i]) {
        assert i < |front| ==> front[i] == todos[i];
      }
    }
  }

  /** What is offered is what may be worked on, each todo once, in the order of the list. */
  lemma OfferedExactly(todos: seq<Todo>)
    requires Unique(todos)
    ensures exists at: seq<nat> :: OfferedAt(todos, todos, AvailableTasks(todos), at)
  {
    var at := OfferedInOrder(todos, todos);
    assert OfferedAt(todos, todos, AvailableTasks(todos), at);
  }

  /** While something is incomplete, something incomplete waits for nothing. */
  lemma SomethingIsWorkable(todos: seq<Todo>, todo: Todo)
    requires Unique(todos) && Acyclic(ByRef(todos))
    requires todo in todos && todo.status != Completed
    ensures exists t :: t in todos && t.status != Completed && !IsBlocked(t, ByRef(todos))
  {
    ByRefExactly(todos);
    assert forall t :: t in todos ==> t.ref in ByRef(todos) && ByRef(todos)[t.ref] == t;
    var last := FollowBlockers(ByRef(todos), [todo.ref]);
    assert Taken(todos, last);
    assert ByRef(todos)[last] in todos;
  }

  /** Following what blocks what never comes back, so it ends. */
  lemma {:induction false} FollowBlockers(todos: map<Ref, Todo>, p: seq<Ref>) returns (last: Ref)
    requires Acyclic(todos) && Path(todos, p)
    requires forall i :: 0 <= i < |p| ==> p[i] in todos && todos[p[i]].status != Completed
    requires forall i, j :: 0 <= i < j < |p| ==> p[i] != p[j]
    ensures last in todos && todos[last].status != Completed && !IsBlocked(todos[last], todos)
    decreases todos.Keys - (set i | 0 <= i < |p| :: p[i])
  {
    last := p[|p| - 1];
    if IsBlocked(todos[last], todos) {
      var deps := todos[last].dependsOn;
      var k :| 0 <= k < |deps| && deps[k] in todos && todos[deps[k]].status != Completed;
      var q := p + [deps[k]];
      PathJoin(todos, p, [deps[k]]);
      forall i | 0 <= i < |p| ensures p[i] != deps[k] {
        PathTail(todos, q, i);
        assert q[i..][0] == p[i] && q[i..][|p| - i] == deps[k];
      }
      var seen, more := (set i | 0 <= i < |p| :: p[i]), (set i | 0 <= i < |q| :: q[i]);
      assert q[|q| - 1] in more && deps[k] in todos.Keys - seen;
      assert forall i :: 0 <= i < |p| ==> p[i] == q[i];
      last := FollowBlockers(todos, q);
    }
  }

  /** Everything the todo depends on has been completed, or is gone. */
  predicate WaitsForNothing(todo: Todo, byRef: map<Ref, Todo>) {
    forall i :: 0 <= i < |todo.dependsOn| ==>
      todo.dependsOn[i] !in byRef || byRef[todo.dependsOn[i]].status == Completed
  }

  /** A mark that says blocked on a todo that waits for nothing any more. */
  predicate StaleMark(todo: Todo, byRef: map<Ref, Todo>) {
    todo.status == Blocked && WaitsForNothing(todo, byRef)
  }

  predicate Marked(todos: seq<Todo>, ref: Ref) {
    Taken(todos, ref) && todos[IndexOf(todos, ref)].status == Blocked
  }

  lemma MarkedAt(todos: seq<Todo>, i: nat)
    requires Unique(todos) && i < |todos|
    ensures Marked(todos, todos[i].ref) <==> todos[i].status == Blocked
  {
    IndexIs(todos, i);
  }

  lemma RemovalLeaves(todos: seq<Todo>, gone: Ref, ref: Ref)
    requires Unique(todos) && Marked(todos, ref)
    ensures Marked(After(todos, RemoveTodo(gone)), ref) <==> gone != ref
  {
    var k, after := IndexOf(todos, ref), After(todos, RemoveTodo(gone));
    OtherToolsKeepUnique(todos, RemoveTodo(gone));
    if Taken(todos, gone) {
      var g := IndexOf(todos, gone);
      assert after == todos[..g] + todos[g + 1..];
      hide After, IndexOf;
      if gone == ref {
        assert forall i :: 0 <= i < |after| ==> after[i] == todos[if i < g then i else i + 1];
        assert !Taken(after, ref);
      } else {
        MarkedAt(after, if g < k then k - 1 else k);
      }
    }
  }

  /** Called one at a time, the tools take a mark exactly when the todo is removed, or is given another
      status outright: nothing done to any other todo, nor to what it depends on, takes it back. */
  lemma MarkFallsExactly(todos: seq<Todo>, tool: Tool, ref: Ref)
    requires Unique(todos) && Marked(todos, ref)
    ensures Marked(After(todos, tool), ref)
            <==> !(tool == RemoveTodo(ref)
                   || (tool.UpdateStatus? && tool.todo == ref && tool.status != Blocked
                       && !RefusesStart(todos, ref, tool.status, tool.subtasks)))
  {
    if tool.RemoveTodo? {
      RemovalLeaves(todos, tool.todo, ref);
    } else {
      var k, after := IndexOf(todos, ref), After(todos, tool);
      ToolKeepsUnique(todos, tool);
      StatusOf(todos, tool, k);
      hide After, IndexOf, Unique;
      MarkedAt(after, k);
    }
  }

  /** What a tool that removes nothing makes of a marked row. */
  lemma StatusOf(todos: seq<Todo>, tool: Tool, k: nat)
    requires Unique(todos) && k < |todos| && todos[k].status == Blocked && !tool.RemoveTodo?
    ensures var after := After(todos, tool);
            && k < |after| && after[k].ref == todos[k].ref
            && (after[k].status == Blocked <==>
                  !(tool.UpdateStatus? && tool.todo == todos[k].ref && tool.status != Blocked
                    && !RefusesStart(todos, todos[k].ref, tool.status, tool.subtasks)))
  {
    IndexIs(todos, k);
    hide IsBlocked, ByRef, Reaches;
    if tool.UpdateStatus? || tool.SetDependency? {
      if Taken(todos, tool.todo) && tool.todo != todos[k].ref {
        assert IndexOf(todos, tool.todo) != k;
      }
    }
  }

  lemma ToolKeepsUnique(todos: seq<Todo>, tool: Tool)
    requires Unique(todos)
    ensures Unique(After(todos, tool))
  {
    if tool.SetDependency? {
      if Decided(todos, tool.todo, tool.dependsOn).Some? {
        WrittenReplaces(todos, Decided(todos, tool.todo, tool.dependsOn).value);
      }
    } else {
      OtherToolsKeepUnique(todos, tool);
    }
  }

  /** The tool gives the todo another status outright, or removes it. */
  predicate Unmarks(tool: Tool, ref: Ref) {
    tool == RemoveTodo(ref) || (tool.UpdateStatus? && tool.todo == ref && tool.status != Blocked)
  }

  /** So over any run of such calls the mark stays, whatever becomes of the dependencies, and the todo
      is never offered, until someone takes the mark away by hand. */
  lemma {:induction false} MarkStays(todos: seq<Todo>, tools: seq<Tool>, ref: Ref)
    requires Unique(todos) && Marked(todos, ref)
    requires forall i :: 0 <= i < |tools| ==> !Unmarks(tools[i], ref)
    ensures var end := Run(todos, tools);
            Unique(end) && Marked(end, ref) && end[IndexOf(end, ref)] !in AvailableTasks(end)
    decreases |tools|
  {
    if tools == [] {
      AvailableExactly(todos, ByRef(todos), todos[IndexOf(todos, ref)]);
    } else {
      MarkFallsExactly(todos, tools[0], ref);
      ToolKeepsUnique(todos, tools[0]);
      hide After;
      MarkStays(After(todos, tools[0]), tools[1..], ref);
    }
  }

  // ---------------------------------------------------------------- statuses under overlapping calls

  /** What a call that has read the list is going to write. */
  datatype Decision = Nothing | Depends(row: Todo) | Sets(ref: Ref, status: Status)

  datatype Overlap = Overlap(todos: seq<Todo>, pending: seq<Decision>)

  /** A call from end to end, the reading half of one, or what an earlier reading leads to. */
  datatype Act =
    | Whole(tool: Tool)
    | ReadDependency(todo: Ref, dependsOn: Ref)
    | ReadStatus(todo: Ref, status: Status, subtasks: bool)
    | Land(call: nat)

  function Landed(todos: seq<Todo>, decision: Decision): seq<Todo> {
    match decision
    case Nothing => todos
    case Depends(row) => Written(todos, row)
    case Sets(ref, status) => StatusWritten(todos, ref, status)
  }

  /** What reading the list decides. */
  ghost function Reading(todos: seq<Todo>, act: Act): Decision
    requires act.ReadDependency? || act.ReadStatus?
  {
    match act
    case ReadDependency(todo, dependsOn) =>
      var row := Decided(todos, todo, dependsOn);
      if row.Some? then Depends(row.value) else Nothing
    case ReadStatus(ref, status, subtasks) =>
      if !Taken(todos, ref) || RefusesStart(todos, ref, status, subtasks) then Nothing else Sets(ref, status)
  }

  ghost function Acted(s: Overlap, act: Act): Overlap {
    match act
    case Whole(tool) => s.(todos := After(s.todos, tool))
    case ReadDependency(_, _) => s.(pending := s.pending + [Reading(s.todos, act)])
    case ReadStatus(_, _, _) => s.(pending := s.pending + [Reading(s.todos, act)])
    case Land(k) =>
      if k >= |s.pending| then s else Overlap(Landed(s.todos, s.pending[k]), s.pending[k := Nothing])
  }

  ghost function Overlapped(s: Overlap, acts: seq<Act>): Overlap
    decreases |acts|
  {
    if acts == [] then s else Overlapped(Acted(s, acts[0]), acts[1..])
  }

  /** The decision leaves the todo another status than blocked. */
  predicate Lifts(decision: Decision, ref: Ref) {
    || (decision.Depends? && decision.row.ref == ref && decision.row.status != Blocked)
    || (decision.Sets? && decision.ref == ref && decision.status != Blocked)
  }

  /** What was decided earlier takes a blocked mark exactly if it leaves that todo another status:
      a dependency decided on a reading from before the mark may. */
  lemma LandingTakesMarkExactly(todos: seq<Todo>, decision: Decision, ref: Ref)
    requires Unique(todos) && Marked(todos, ref)
    ensures Unique(Landed(todos, decision))
    ensures Marked(Landed(todos, decision), ref) <==> !Lifts(decision, ref)
  {
    var k, after := IndexOf(todos, ref), Landed(todos, decision);
    assert |after| == |todos| && forall i :: 0 <= i < |todos| ==> after[i].ref == todos[i].ref;
    var named := if decision.Depends? then decision.row.ref else if decision.Sets? then decision.ref else ref;
    if Taken(todos, named) && named != ref {
      assert IndexOf(todos, named) != k;
    }
    hide IndexOf;
    MarkedAt(after, k);
  }

  /** A dependency decided while the mark stands keeps it. */
  lemma MarkIsDecided(todos: seq<Todo>, todo: Ref, dependsOn: Ref, ref: Ref)
    requires Marked(todos, ref) && Decided(todos, todo, dependsOn).Some?
    ensures !Lifts(Depends(Decided(todos, todo, dependsOn).value), ref)
  {
  }

  /** Nobody gives the todo another status, or removes it, by hand. */
  predicate HandsOff(act: Act, ref: Ref) {
    && (act.Whole? ==> !Unmarks(act.tool, ref))
    && (act.ReadStatus? ==> act.todo != ref || act.status == Blocked)
  }

  /** However calls overlap, a mark stays until it is taken by hand, or by the landing of a call that
      had read before the mark was set and decided on another status. */
  lemma {:induction false} MarkStaysUnderOverlap(s: Overlap, acts: seq<Act>, ref: Ref)
    requires Unique(s.todos) && Marked(s.todos, ref)
    requires forall i :: 0 <= i < |acts| ==> HandsOff(acts[i], ref)
    requires forall i :: 0 <= i < |acts| && acts[i].Land? && acts[i].call < |s.pending| ==>
               !Lifts(s.pending[acts[i].call], ref)
    ensures var end := Overlapped(s, acts).todos;
            Unique(end) && Marked(end, ref) && end[IndexOf(end, ref)] !in AvailableTasks(end)
    decreases |acts|
  {
    if acts == [] {
      AvailableExactly(s.todos, ByRef(s.todos), s.todos[IndexOf(s.todos, ref)]);
    } else {
      var next := Acted(s, acts[0]);
      ActKeepsMark(s, acts[0], ref);
      hide Acted, Unique, Marked, Lifts;
      assert forall i :: 0 <= i < |acts[1..]| ==> acts[1..][i] == acts[i + 1];
      MarkStaysUnderOverlap(next, acts[1..], ref);
    }
  }

  lemma ActKeepsMark(s: Overlap, act: Act, ref: Ref)
    requires Unique(s.todos) && Marked(s.todos, ref) && HandsOff(act, ref)
    requires act.Land? && act.call < |s.pending| ==> !Lifts(s.pending[act.call], ref)
    ensures Unique(Acted(s, act).todos) && Marked(Acted(s, act).todos, ref)
    ensures |s.pending| <= |Acted(s, act).pending|
    ensures forall k :: 0 <= k < |Acted(s, act).pending| && Lifts(Acted(s, act).pending[k], ref) ==>
              k < |s.pending| && Lifts(s.pending[k], ref)
  {
    hide After, Written, StatusWritten, Unique;
    match act
    case Whole(tool) =>
      MarkFallsExactly(s.todos, tool, ref);
      ToolKeepsUnique(s.todos, tool);
    case ReadDependency(todo, dependsOn) =>
      if Decided(s.todos, todo, dependsOn).Some? {
        MarkIsDecided(s.todos, todo, dependsOn, ref);
      }
    case ReadStatus(_, _, _) =>
    case Land(k) =>
      if k < |s.pending| {
        LandingTakesMarkExactly(s.todos, s.pending[k], ref);
      }
  }

  /** A status decided on an older reading is written on whatever list there is by then: a todo said
      to have been started waits for something exactly if it was blocked at that moment, or waits
      for itself. */
  lemma LateStartWaitsExactly(now: seq<Todo>, ref: Ref)
    requires Unique(now) && Taken(now, ref)
    ensures var after, k := StatusWritten(now, ref, InProgress), IndexOf(now, ref);
            && |after| == |now| && (forall i :: 0 <= i < |now| && i != k ==> after[i] == now[i])
            && after[k] == now[k].(status := InProgress)
            && (IsBlocked(after[k], ByRef(after)) <==>
                  IsBlocked(now[k], ByRef(now)) || ref in now[k].dependsOn)
  {
    var after, k := StatusWritten(now, ref, InProgress), IndexOf(now, ref);
    assert Unique(after) by { assert forall i :: 0 <= i < |now| ==> after[i].ref == now[i].ref; }
    forall d ensures Awaited(after, d) <==> Awaited(now, d) || d == ref {
      StartedIsAwaited(now, after, k, d);
    }
    AwaitedBlocks(now, now[k]);
    AwaitedBlocks(after, after[k]);
  }

  /** The todo is there and not completed. */
  predicate Awaited(todos: seq<Todo>, ref: Ref) {
    Taken(todos, ref) && todos[IndexOf(todos, ref)].status != Completed
  }

  lemma AwaitedBlocks(todos: seq<Todo>, todo: Todo)
    requires Unique(todos)
    ensures IsBlocked(todo, ByRef(todos)) <==> exists d :: d in todo.dependsOn && Awaited(todos, d)
  {
    ByRefExactly(todos);
    assert forall d :: Taken(todos, d) ==> d in ByRef(todos) && ByRef(todos)[d] == todos[IndexOf(todos, d)];
    hide ByRef, Unique;
    var deps := todo.dependsOn;
    forall i | 0 <= i < |deps| ensures deps[i] in ByRef(todos) && ByRef(todos)[deps[i]].status != Completed
                                       <==> Awaited(todos, deps[i])
    {
    }
    if IsBlocked(todo, ByRef(todos)) {
      var i :| 0 <= i < |deps| && deps[i] in ByRef(todos) && ByRef(todos)[deps[i]].status != Completed;
      assert deps[i] in deps && Awaited(todos, deps[i]);
    }
  }

  lemma StartedIsAwaited(now: seq<Todo>, after: seq<Todo>, k: nat, d: Ref)
    requires Unique(now) && Unique(after) && k < |now|
    requires after == now[k := now[k].(status := InProgress)]
    ensures Awaited(after, d) <==> Awaited(now, d) || d == now[k].ref
  {
    assert forall i :: 0 <= i < |now| ==> after[i].ref == now[i].ref;
    if Taken(now, d) {
      var i := IndexOf(now, d);
      IndexIs(now, i);
      IndexIs(after, i);
      IndexIs(now, k);
    }
  }

  /** A call reads, another goes from end to end, and the first one writes. */
  lemma Overtaken(s: Overlap, read: Act, tool: Tool)
    requires read.ReadDependency? || read.ReadStatus?
    ensures var between := Overlapped(s, [read, Whole(tool)]);
            && between.todos == After(s.todos, tool)
            && Acted(between, Land(|s.pending|)).todos == Landed(between.todos, Reading(s.todos, read))
  {
    hide After, Reading, Landed;
    assert [read, Whole(tool)][1..] == [Whole(tool)];
    assert [Whole(tool)][1..] == [];
    var next := Acted(s, read);
    assert Overlapped(next, [Whole(tool)]) == Overlapped(Acted(next, Whole(tool)), []);
  }

  /** A dependency that has been completed is read; the todo is made to wait for another, and marked;
      then the first call writes, and the mark is gone. */
  lemma LateDependencyTakesTheMark(s: Overlap, todo: Ref, done: Ref, other: Ref)
    requires Unique(s.todos) && Decided(s.todos, todo, done).Some? && Decided(s.todos, todo, other).Some?
    requires s.todos[IndexOf(s.todos, todo)].status in {Pending, InProgress}
    requires s.todos[IndexOf(s.todos, done)].status == Completed
    requires s.todos[IndexOf(s.todos, other)].status != Completed
    ensures var between := Overlapped(s, [ReadDependency(todo, done), Whole(SetDependency(todo, other))]);
            && Marked(between.todos, todo)
            && !Marked(Acted(between, Land(|s.pending|)).todos, todo)
  {
    hide Overlapped, Acted, After, Landed, Reading, Marked, Decided, IndexOf, Unique;
    Overtaken(s, ReadDependency(todo, done), SetDependency(todo, other));
    LandingTakesTheMark(s.todos, todo, done, other);
  }

  lemma LandingTakesTheMark(todos: seq<Todo>, todo: Ref, done: Ref, other: Ref)
    requires Unique(todos) && Decided(todos, todo, done).Some? && Decided(todos, todo, other).Some?
    requires todos[IndexOf(todos, todo)].status in {Pending, InProgress}
    requires todos[IndexOf(todos, done)].status == Completed
    requires todos[IndexOf(todos, other)].status != Completed
    ensures var marked := After(todos, SetDependency(todo, other));
            && Marked(marked, todo)
            && !Marked(Landed(marked, Reading(todos, ReadDependency(todo, done))), todo)
  {
    var row, waiting := Decided(todos, todo, done).value, Decided(todos, todo, other).value;
    assert row.ref == todo && row.status != Blocked && waiting.ref == todo && waiting.status == Blocked;
    var marked := After(todos, SetDependency(todo, other));
    assert marked == Written(todos, waiting);
    hide Decided;
    LandedStatus(todos, waiting);
    hide Written, Unique, IndexOf;
    LandingTakesMarkExactly(marked, Depends(row), todo);
  }

  lemma LandedStatus(todos: seq<Todo>, row: Todo)
    requires Unique(todos) && Taken(todos, row.ref)
    ensures Unique(Written(todos, row)) && (Marked(Written(todos, row), row.ref) <==> row.status == Blocked)
  {
    WrittenReplaces(todos, row);
    IndexIs(Written(todos, row), IndexOf(todos, row.ref));
  }

  /** A dependency is read for a todo that is completed before it is written: the todo is incomplete
      again. */
  lemma LateDependencyReopens(s: Overlap, todo: Ref, dependsOn: Ref, subtasks: bool)
    requires Unique(s.todos) && Decided(s.todos, todo, dependsOn).Some?
    requires s.todos[IndexOf(s.todos, todo)].status != Completed
    ensures var completes := UpdateStatus(todo, Completed, subtasks);
            var between := Overlapped(s, [ReadDependency(todo, dependsOn), Whole(completes)]);
            var end, k := Acted(between, Land(|s.pending|)), IndexOf(s.todos, todo);
            && k < |between.todos| && between.todos[k] == s.todos[k].(status := Completed)
            && k < |end.todos| && end.todos[k].ref == todo && end.todos[k].status != Completed
  {
    hide Overlapped, Acted, After, Landed, Reading, Decided, IndexOf, Unique;
    Overtaken(s, ReadDependency(todo, dependsOn), UpdateStatus(todo, Completed, subtasks));
    LandingReopens(s.todos, todo, dependsOn, subtasks);
  }

  lemma LandingReopens(todos: seq<Todo>, todo: Ref, dependsOn: Ref, subtasks: bool)
    requires Unique(todos) && Decided(todos, todo, dependsOn).Some?
    requires todos[IndexOf(todos, todo)].status != Completed
    ensures var done, k := After(todos, UpdateStatus(todo, Completed, subtasks)), IndexOf(todos, todo);
            var end := Landed(done, Reading(todos, ReadDependency(todo, dependsOn)));
            && k < |done| && done[k] == todos[k].(status := Completed)
            && k < |end| && end[k].ref == todo && end[k].status != Completed
  {
    var done := After(todos, UpdateStatus(todo, Completed, subtasks));
    CompletedIs(todos, todo, subtasks);
    assert Landed(done, Reading(todos, ReadDependency(todo, dependsOn)))
           == Written(done, Decided(todos, todo, dependsOn).value);
    hide After, Written, Reading, Landed, IndexOf;
    LateWriteRestoresStatus(todos, done, todo, dependsOn);
  }

  lemma CompletedIs(todos: seq<Todo>, todo: Ref, subtasks: bool)
    requires Unique(todos) && Taken(todos, todo)
    ensures var done, k := After(todos, UpdateStatus(todo, Completed, subtasks)), IndexOf(todos, todo);
            && Unique(done) && Taken(done, todo) && IndexOf(done, todo) == k
            && done[k] == todos[k].(status := Completed)
  {
    var done, k := StatusWritten(todos, todo, Completed), IndexOf(todos, todo);
    assert forall i :: 0 <= i < |todos| ==> done[i].ref == todos[i].ref;
    IndexIs(done, k);
  }

  /** A start is decided on a list that allows it; the todo is made to wait for another, and marked;
      then it is written as started, though by then no start of it is allowed. */
  lemma LateStartOfABlockedTodo(s: Overlap, todo: Ref, dependsOn: Ref)
    requires Unique(s.todos) && Decided(s.todos, todo, dependsOn).Some?
    requires !IsBlocked(s.todos[IndexOf(s.todos, todo)], ByRef(s.todos))
    requires s.todos[IndexOf(s.todos, dependsOn)].status != Completed
    ensures var between := Overlapped(s, [ReadStatus(todo, InProgress, true), Whole(SetDependency(todo, dependsOn))]);
            var end, k := Acted(between, Land(|s.pending|)), IndexOf(s.todos, todo);
            && Taken(between.todos, todo) && RefusesStart(between.todos, todo, InProgress, true)
            && k < |end.todos| && end.todos[k].ref == todo && end.todos[k].status == InProgress
            && IsBlocked(end.todos[k], ByRef(end.todos))
  {
    hide Overlapped, Acted, After, Landed, Reading, Decided, IndexOf, Unique, IsBlocked, RefusesStart;
    Overtaken(s, ReadStatus(todo, InProgress, true), SetDependency(todo, dependsOn));
    LandingStartsABlockedTodo(s.todos, todo, dependsOn);
  }

  lemma LandingStartsABlockedTodo(todos: seq<Todo>, todo: Ref, dependsOn: Ref)
    requires Unique(todos) && Decided(todos, todo, dependsOn).Some?
    requires !IsBlocked(todos[IndexOf(todos, todo)], ByRef(todos))
    requires todos[IndexOf(todos, dependsOn)].status != Completed
    ensures var between, k := After(todos, SetDependency(todo, dependsOn)), IndexOf(todos, todo);
            var end := Landed(between, Reading(todos, ReadStatus(todo, InProgress, true)));
            && Taken(between, todo) && RefusesStart(between, todo, InProgress, true)
            && k < |end| && end[k].ref == todo && end[k].status == InProgress
            && IsBlocked(end[k], ByRef(end))
  {
    hide Written, IsBlocked, Unique, ByRef, StatusWritten, IndexOf;
    StartIsDecided(todos, todo);
    WrittenWaits(todos, todo, dependsOn);
    var between := Written(todos, Decided(todos, todo, dependsOn).value);
    assert After(todos, SetDependency(todo, dependsOn)) == between;
    hide Decided, After, Reading, RefusesStart;
    LateStartWaitsExactly(between, todo);
  }

  lemma StartIsDecided(todos: seq<Todo>, todo: Ref)
    requires Taken(todos, todo) && !IsBlocked(todos[IndexOf(todos, todo)], ByRef(todos))
    ensures Reading(todos, ReadStatus(todo, InProgress, true)) == Sets(todo, InProgress)
  {
    hide IsBlocked, IndexOf, ByRef;
  }

  /** Made to wait for something incomplete, a todo is blocked. */
  lemma WrittenWaits(todos: seq<Todo>, todo: Ref, dependsOn: Ref)
    requires Unique(todos) && Decided(todos, todo, dependsOn).Some?
    requires todos[IndexOf(todos, dependsOn)].status != Completed
    ensures var after, k := Written(todos, Decided(todos, todo, dependsOn).value), IndexOf(todos, todo);
            && Unique(after) && Taken(after, todo) && IndexOf(after, todo) == k
            && IsBlocked(after[k], ByRef(after)) && RefusesStart(after, todo, InProgress, true)
  {
    var row, k, d := Decided(todos, todo, dependsOn).value, IndexOf(todos, todo), IndexOf(todos, dependsOn);
    var after := Written(todos, row);
    LateWriteRestoresStatus(todos, todos, todo, dependsOn);
    WrittenReplaces(todos, row);
    assert after[k].dependsOn == row.dependsOn && dependsOn in row.dependsOn;
    assert after[d] == todos[d];
    IndexIs(after, d);
    hide Decided, Written, IsBlocked, Unique, ByRef;
    assert Awaited(after, dependsOn);
    AwaitedBlocks(after, after[k]);
  }

  const READY := [Task("a", Completed, []), Task("b", Pending, []), Task("c", Pending, [])]

  /** One list allows all three. */
  lemma ReadyAllowsAll()
    ensures Unique(READY) && Taken(READY, "b") && !IsBlocked(READY[IndexOf(READY, "b")], ByRef(READY))
    ensures Decided(READY, "b", "a").Some? && READY[IndexOf(READY, "a")].status == Completed
    ensures Decided(READY, "b", "c").Some? && READY[IndexOf(READY, "c")].status == Pending
    ensures READY[IndexOf(READY, "b")].status == Pending
  {
    assert READY[0].ref == "a" && READY[1].ref == "b" && READY[2].ref == "c";
    forall x, y ensures !Edge(ByRef(READY), x, y) { EdgesOf(READY, x, y); }
    EdgelessGoesNowhere(ByRef(READY));
    IndexIs(READY, 0);
    IndexIs(READY, 1);
    IndexIs(READY, 2);
  }

  /** While work is left in an acyclic list, nothing is offered exactly if every incomplete todo that
      waits for nothing has a stale mark; there is such a todo, so without stale marks something is
      always offered. */
  lemma NothingAvailable(todos: seq<Todo>, left: Todo)
    requires Unique(todos) && Acyclic(ByRef(todos)) && left in todos && left.status != Completed
    ensures AvailableTasks(todos) == [] <==>
            forall t :: t in todos && t.status != Completed && WaitsForNothing(t, ByRef(todos)) ==>
              StaleMark(t, ByRef(todos))
    ensures AvailableTasks(todos) == [] ==>
              exists t :: t in todos && t.status == Blocked && WaitsForNothing(t, ByRef(todos))
  {
    forall t ensures t in AvailableTasks(todos) <==> t in todos && Available(t, ByRef(todos)) {
      AvailableExactly(todos, ByRef(todos), t);
    }
    assert forall t: Todo :: IsBlocked(t, ByRef(todos)) <==> !WaitsForNothing(t, ByRef(todos));
    SomethingIsWorkable(todos, left);
    if AvailableTasks(todos) != [] {
      assert AvailableTasks(todos)[0] in AvailableTasks(todos);
    }
  }

  /** A task made to wait for another, which is then completed: it stays marked, and out of
      what can be worked on. */
  lemma BlockedMarkStays()
    ensures After(APART, SetDependency("b", "a")) == ONE_WAITS
    ensures var done := After(ONE_WAITS, UpdateStatus("a", Completed, true));
            AvailableTasks(done) == [] && done[1] == ONE_WAITS[1] && StaleMark(done[1], ByRef(done))
  {
    ApartDecides();
    ApartIsEdgeless();
    IndexIs(APART, 1);
    assert After(APART, SetDependency("b", "a")) == ONE_WAITS;
    hide Decided, Edgeless;
    IndexIs(ONE_WAITS, 0);
    var done := [Task("a", Completed, []), ONE_WAITS[1]];
    assert After(ONE_WAITS, UpdateStatus("a", Completed, true)) == done;
    ByRefExactly(done);
    assert done[0].ref in ByRef(done) && ByRef(done)[done[0].ref] == done[0];
    hide ByRef, After, AvailableIn;
    NoneAvailable(done);
  }

  lemma NoneAvailable(todos: seq<Todo>)
    requires forall t :: t in todos ==> !Available(t, ByRef(todos))
    ensures AvailableTasks(todos) == []
  {
    hide ByRef, Available;
    if AvailableTasks(todos) != [] {
      AvailableExactly(todos, ByRef(todos), AvailableTasks(todos)[0]);
    }
  }
}
