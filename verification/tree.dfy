/** The tree a task list is rendered as: subtasks under their parents, numbered as they come. */
module TodoTree {
  import opened Wrappers
  import opened Todos

  /** A line of the rendering: its number, how deep it is indented, and which todo it names. */
  datatype Line = Line(number: nat, depth: nat, index: nat)

  function Last(path: seq<Ref>): Option<Ref> {
    if path == [] then None else Some(path[|path| - 1])
  }

  /** The todos filed under `parent`, in list order. */
  function ChildrenFrom(todos: seq<Todo>, parent: Option<Ref>, start: nat): seq<nat>
    requires start <= |todos|
    decreases |todos| - start
  {
    if start == |todos| then []
    else (if todos[start].parent == parent then [start] else []) + ChildrenFrom(todos, parent, start + 1)
  }

  ghost predicate Ascending(indices: seq<nat>) {
    forall j, k :: 0 <= j < k < |indices| ==> indices[j] < indices[k]
  }

  lemma {:induction false} ChildrenAre(todos: seq<Todo>, parent: Option<Ref>, start: nat)
    requires start <= |todos|
    ensures forall i :: i in ChildrenFrom(todos, parent, start) <==> start <= i < |todos| && todos[i].parent == parent
    decreases |todos| - start
  {
    if start < |todos| {
      ChildrenAre(todos, parent, start + 1);
    }
  }

  lemma {:induction false} ChildrenAscend(todos: seq<Todo>, parent: Option<Ref>, start: nat)
    requires start <= |todos|
    ensures Ascending(ChildrenFrom(todos, parent, start))
    decreases |todos| - start
  {
    if start < |todos| {
      ChildrenAscend(todos, parent, start + 1);
      ChildrenAre(todos, parent, start + 1);
      var rest := ChildrenFrom(todos, parent, start + 1);
      forall k | 0 <= k < |rest| ensures start < rest[k] {
        assert rest[k] in rest;
      }
    }
  }

  lemma ChildrenExactly(todos: seq<Todo>, parent: Option<Ref>, start: nat)
    requires start <= |todos|
    ensures forall i :: i in ChildrenFrom(todos, parent, start) <==> start <= i < |todos| && todos[i].parent == parent
    ensures Ascending(ChildrenFrom(todos, parent, start))
  {
    ChildrenAre(todos, parent, start);
    ChildrenAscend(todos, parent, start);
  }

  // ---------------------------------------------------------------- ancestry

  /** The refs from a root down: each is a todo's, filed under the one before. */
  ghost predicate RootPath(todos: seq<Todo>, path: seq<Ref>)
    decreases |path|
  {
    path == [] || (
      && RootPath(todos, path[..|path| - 1])
      && exists i :: 0 <= i < |todos| && todos[i].ref == path[|path| - 1]
                     && todos[i].parent == Last(path[..|path| - 1]))
  }

  /** `path` leads from a root to the todo's parent. */
  ghost predicate HangsAt(todos: seq<Todo>, i: nat, path: seq<Ref>) {
    i < |todos| && RootPath(todos, path) && todos[i].parent == Last(path)
  }

  lemma {:induction false} OnePathToEach(todos: seq<Todo>, i: nat, p: seq<Ref>, q: seq<Ref>)
    requires Unique(todos) && HangsAt(todos, i, p) && HangsAt(todos, i, q)
    ensures p == q
    decreases |p|
  {
    if p != [] {
      var j :| 0 <= j < |todos| && todos[j].ref == p[|p| - 1] && todos[j].parent == Last(p[..|p| - 1]);
      var k :| 0 <= k < |todos| && todos[k].ref == q[|q| - 1] && todos[k].parent == Last(q[..|q| - 1]);
      assert j == k;
      OnePathToEach(todos, j, p[..|p| - 1], q[..|q| - 1]);
      assert p == p[..|p| - 1] + [p[|p| - 1]] && q == q[..|q| - 1] + [q[|q| - 1]];
    }
  }

  /** The refs above a todo, from its root; None when it hangs from no root. */
  ghost function Above(todos: seq<Todo>, i: nat): Option<seq<Ref>> {
    if exists p :: HangsAt(todos, i, p) then
      var p :| HangsAt(todos, i, p);
      Some(p)
    else None
  }

  lemma AboveExactly(todos: seq<Todo>, i: nat, p: seq<Ref>)
    requires Unique(todos)
    ensures HangsAt(todos, i, p) <==> Above(todos, i) == Some(p)
  {
    if HangsAt(todos, i, p) {
      OnePathToEach(todos, i, p, Above(todos, i).value);
    }
  }

  lemma {:induction false} PrefixIsRootPath(todos: seq<Todo>, path: seq<Ref>, n: nat)
    requires RootPath(todos, path) && n <= |path|
    ensures RootPath(todos, path[..n])
    decreases |path|
  {
    if n < |path| {
      PrefixIsRootPath(todos, path[..|path| - 1], n);
      assert path[..|path| - 1][..n] == path[..n];
    } else {
      assert path[..n] == path;
    }
  }

  /** No ref comes twice on the way down, so the way is no longer than the list. */
  lemma RootPathIsShort(todos: seq<Todo>, path: seq<Ref>)
    requires Unique(todos) && RootPath(todos, path)
    ensures |path| <= |todos|
  {
    forall a, b | 0 <= a < b < |path| ensures path[a] != path[b] {
      if path[a] == path[b] {
        StepOf(todos, path, a);
        StepOf(todos, path, b);
        var i :| 0 <= i < |todos| && todos[i].ref == path[a] && todos[i].parent == Last(path[..a]);
        var j :| 0 <= j < |todos| && todos[j].ref == path[b] && todos[j].parent == Last(path[..b]);
        assert i == j;
        PrefixIsRootPath(todos, path, a);
        PrefixIsRootPath(todos, path, b);
        OnePathToEach(todos, i, path[..a], path[..b]);
        assert false;
      }
    }
    forall k | 0 <= k < |path| ensures Taken(todos, path[k]) {
      StepOf(todos, path, k);
    }
    DistinctFit(todos, path);
  }

  lemma StepOf(todos: seq<Todo>, path: seq<Ref>, k: nat)
    requires RootPath(todos, path) && k < |path|
    ensures exists i :: 0 <= i < |todos| && todos[i].ref == path[k] && todos[i].parent == Last(path[..k])
  {
    PrefixIsRootPath(todos, path, k + 1);
    var head := path[..k + 1];
    assert head[..|head| - 1] == path[..k] && head[|head| - 1] == path[k];
  }

  lemma {:induction false} DistinctFit(todos: seq<Todo>, refs: seq<Ref>)
    requires forall k :: 0 <= k < |refs| ==> Taken(todos, refs[k])
    requires forall a, b :: 0 <= a < b < |refs| ==> refs[a] != refs[b]
    ensures |refs| <= |todos|
    decreases |todos|
  {
    if refs != [] {
      var last := refs[|refs| - 1];
      var i := IndexOf(todos, last);
      var rest := todos[..i] + todos[i + 1..];
      var front := refs[..|refs| - 1];
      forall k | 0 <= k < |front| ensures Taken(rest, front[k]) {
        var j :| 0 <= j < |todos| && todos[j].ref == refs[k];
        assert j != i;
        assert rest[if j < i then j else j - 1] == todos[j];
      }
      DistinctFit(rest, front);
    }
  }

  // ---------------------------------------------------------------- the walk

  ghost predicate Under(todos: seq<Todo>, i: nat, path: seq<Ref>) {
    Above(todos, i).Some? && path <= Above(todos, i).value
  }

  ghost predicate Lists(lines: seq<Line>, i: nat) {
    exists k :: 0 <= k < |lines| && lines[k].index == i
  }

  /** `lines` continue a rendering that stands at `counter`: numbered on, each todo once and as
      deep as its ancestry, after its parent unless it is filed at `path` itself. */
  ghost predicate Rendered(todos: seq<Todo>, path: seq<Ref>, counter: nat, lines: seq<Line>) {
    && (forall k :: 0 <= k < |lines| ==> lines[k].number == counter + k + 1)
    && (forall k :: 0 <= k < |lines| ==>
          Under(todos, lines[k].index, path) && lines[k].depth == |Above(todos, lines[k].index).value|)
    && (forall j, k :: 0 <= j < k < |lines| ==> lines[j].index != lines[k].index)
    && (forall k :: 0 <= k < |lines| && Above(todos, lines[k].index).value != path ==>
          ParentComesBefore(todos, lines, k))
  }

  ghost predicate ParentComesBefore(todos: seq<Todo>, lines: seq<Line>, k: nat)
    requires k < |lines|
  {
    exists j :: 0 <= j < k && lines[j].index < |todos| && lines[k].index < |todos|
                && todos[lines[k].index].parent == Some(todos[lines[j].index].ref)
  }

  /** What hangs under `path` hangs at it, or under one of the todos that do. */
  lemma UnderSplits(todos: seq<Todo>, path: seq<Ref>, i: nat)
    requires Unique(todos) && RootPath(todos, path) && Under(todos, i, path)
    ensures i < |todos|
    ensures Above(todos, i).value == path
            || exists c :: 0 <= c < |todos| && todos[c].parent == Last(path) && Under(todos, i, path + [todos[c].ref])
  {
    var p := Above(todos, i).value;
    assert HangsAt(todos, i, p);
    if p != path {
      StepOf(todos, p, |path|);
      assert p[..|path|] == path;
      var c :| 0 <= c < |todos| && todos[c].ref == p[|path|] && todos[c].parent == Last(path);
      assert path + [todos[c].ref] == p[..|path| + 1];
    }
  }

  lemma ChildExtends(todos: seq<Todo>, path: seq<Ref>, c: nat)
    requires RootPath(todos, path) && c < |todos| && todos[c].parent == Last(path)
    ensures RootPath(todos, path + [todos[c].ref])
  {
    var longer := path + [todos[c].ref];
    assert longer[..|longer| - 1] == path;
  }

  /** The lines that render the children done so far, and all below them. */
  ghost predicate Covers(todos: seq<Todo>, path: seq<Ref>, done: seq<nat>, lines: seq<Line>) {
    && (forall d :: d in done ==> d < |todos| && Lists(lines, d))
    && (forall d, i :: d in done && d < |todos| && Under(todos, i, path + [todos[d].ref]) ==> Lists(lines, i))
    && (forall k :: 0 <= k < |lines| ==> Accounted(todos, path, done, lines[k].index))
  }

  /** A todo among `done`, or one that hangs under such. */
  ghost predicate Accounted(todos: seq<Todo>, path: seq<Ref>, done: seq<nat>, i: nat) {
    i in done || exists d :: d in done && d < |todos| && Under(todos, i, path + [todos[d].ref])
  }

  /** One more child's line, then everything below it. */
  function OneMore(lines: seq<Line>, counter: nat, depth: nat, c: nat, below: seq<Line>): seq<Line> {
    lines + [Line(counter + |lines| + 1, depth, c)] + below
  }

  ghost predicate NextChild(todos: seq<Todo>, path: seq<Ref>, done: seq<nat>, c: nat) {
    && Unique(todos) && RootPath(todos, path)
    && c < |todos| && todos[c].parent == Last(path) && c !in done
    && (forall d :: d in done ==> d < |todos| && todos[d].parent == Last(path))
  }

  lemma OneMoreRendered(todos: seq<Todo>, path: seq<Ref>, counter: nat, done: seq<nat>, c: nat, lines: seq<Line>,
                        below: seq<Line>)
    requires NextChild(todos, path, done, c)
    requires Rendered(todos, path, counter, lines) && Covers(todos, path, done, lines)
    requires Rendered(todos, path + [todos[c].ref], counter + |lines| + 1, below)
    ensures Rendered(todos, path, counter, OneMore(lines, counter, |path|, c, below))
  {
    hide RootPath, Covers, Above, ParentComesBefore;
    var all := OneMore(lines, counter, |path|, c, below);
    var longer := path + [todos[c].ref];
    AboveExactly(todos, c, path);
    NoneTwice(todos, path, done, c, lines, below);
    forall k | 0 <= k < |all|
      ensures Under(todos, all[k].index, path) && all[k].depth == |Above(todos, all[k].index).value|
    {
      if k > |lines| {
        assert all[k] == below[k - |lines| - 1] && path <= longer;
      }
    }
    forall k | 0 <= k < |all| && Above(todos, all[k].index).value != path ensures ParentComesBefore(todos, all, k) {
      OneMoreParent(todos, path, counter, c, lines, below, k);
    }
  }

  lemma OneMoreParent(todos: seq<Todo>, path: seq<Ref>, counter: nat, c: nat, lines: seq<Line>, below: seq<Line>,
                      k: nat)
    requires Unique(todos) && c < |todos| && HangsAt(todos, c, path)
    requires Rendered(todos, path, counter, lines)
    requires Rendered(todos, path + [todos[c].ref], counter + |lines| + 1, below)
    requires k < |OneMore(lines, counter, |path|, c, below)|
    requires Above(todos, OneMore(lines, counter, |path|, c, below)[k].index) != Some(path)
    ensures ParentComesBefore(todos, OneMore(lines, counter, |path|, c, below), k)
  {
    var all := OneMore(lines, counter, |path|, c, below);
    AboveExactly(todos, c, path);
    if k < |lines| {
      var j :| 0 <= j < k && lines[j].index < |todos| && lines[k].index < |todos|
               && todos[lines[k].index].parent == Some(todos[lines[j].index].ref);
      assert all[j] == lines[j];
    } else {
      var b := k - |lines| - 1;
      var longer := path + [todos[c].ref];
      assert all[k] == below[b];
      if Above(todos, below[b].index).value != longer {
        var j :| 0 <= j < b && below[j].index < |todos| && below[b].index < |todos|
                 && todos[below[b].index].parent == Some(todos[below[j].index].ref);
        assert all[|lines| + 1 + j] == below[j];
      } else {
        AboveExactly(todos, below[b].index, longer);
        assert all[|lines|].index == c;
      }
    }
  }

  lemma OneMoreCovered(todos: seq<Todo>, path: seq<Ref>, counter: nat, done: seq<nat>, c: nat, lines: seq<Line>,
                       below: seq<Line>)
    requires NextChild(todos, path, done, c)
    requires Covers(todos, path, done, lines)
    requires Rendered(todos, path + [todos[c].ref], counter + |lines| + 1, below)
    requires forall i :: Under(todos, i, path + [todos[c].ref]) ==> Lists(below, i)
    ensures Covers(todos, path, done + [c], OneMore(lines, counter, |path|, c, below))
  {
    hide RootPath, Above, Under;
    var all := OneMore(lines, counter, |path|, c, below);
    assert all[|lines|].index == c;
    forall i | Lists(lines, i) || Lists(below, i) ensures Lists(all, i) {
      if Lists(lines, i) {
        var k :| 0 <= k < |lines| && lines[k].index == i;
        assert all[k].index == i;
      } else {
        var k :| 0 <= k < |below| && below[k].index == i;
        assert all[|lines| + 1 + k].index == i;
      }
    }
    forall k | 0 <= k < |all| ensures Accounted(todos, path, done + [c], all[k].index) {
      OneMoreAccounted(todos, path, counter, done, c, lines, below, k);
    }
  }

  lemma OneMoreAccounted(todos: seq<Todo>, path: seq<Ref>, counter: nat, done: seq<nat>, c: nat, lines: seq<Line>,
                         below: seq<Line>, k: nat)
    requires NextChild(todos, path, done, c)
    requires forall j :: 0 <= j < |lines| ==> Accounted(todos, path, done, lines[j].index)
    requires forall j :: 0 <= j < |below| ==> Under(todos, below[j].index, path + [todos[c].ref])
    requires k < |lines| + 1 + |below|
    ensures Accounted(todos, path, done + [c], OneMore(lines, counter, |path|, c, below)[k].index)
  {
    hide RootPath, Above, Under, Unique;
    var i := OneMore(lines, counter, |path|, c, below)[k].index;
    if k < |lines| {
      assert Accounted(todos, path, done, i);
      if i !in done {
        var d :| d in done && d < |todos| && Under(todos, i, path + [todos[d].ref]);
        assert d in done + [c];
      }
    } else {
      assert c in done + [c];
      assert k > |lines| ==> i == below[k - |lines| - 1].index;
    }
  }

  lemma AllCovered(todos: seq<Todo>, path: seq<Ref>, children: seq<nat>, lines: seq<Line>, i: nat)
    requires Unique(todos) && RootPath(todos, path) && Covers(todos, path, children, lines)
    requires forall c :: c in children <==> 0 <= c < |todos| && todos[c].parent == Last(path)
    requires Under(todos, i, path)
    ensures Lists(lines, i)
  {
    UnderSplits(todos, path, i);
    if Above(todos, i).value == path {
      AboveExactly(todos, i, path);
      assert i in children;
    } else {
      var c :| 0 <= c < |todos| && todos[c].parent == Last(path) && Under(todos, i, path + [todos[c].ref]);
      assert c in children;
    }
  }

  lemma NoneTwice(todos: seq<Todo>, path: seq<Ref>, done: seq<nat>, c: nat, lines: seq<Line>, below: seq<Line>)
    requires NextChild(todos, path, done, c)
    requires Covers(todos, path, done, lines)
    requires forall k :: 0 <= k < |below| ==> Under(todos, below[k].index, path + [todos[c].ref])
    ensures forall k :: 0 <= k < |lines| ==> lines[k].index != c
    ensures forall b :: 0 <= b < |below| ==> below[b].index != c
    ensures forall k, b :: 0 <= k < |lines| && 0 <= b < |below| ==> lines[k].index != below[b].index
  {
    AboveExactly(todos, c, path);
    forall k | 0 <= k < |lines|
      ensures lines[k].index != c
      ensures !Under(todos, lines[k].index, path + [todos[c].ref])
    {
      var i := lines[k].index;
      if i in done {
        AboveExactly(todos, i, path);
      } else {
        var d :| d in done && d < |todos| && Under(todos, i, path + [todos[d].ref]);
        assert Above(todos, i).value[|path|] == todos[d].ref;
        assert todos[d].ref != todos[c].ref;
      }
    }
  }

  lemma NextIs(todos: seq<Todo>, path: seq<Ref>, children: seq<nat>, n: nat)
    requires Unique(todos) && RootPath(todos, path) && n < |children|
    requires children == ChildrenFrom(todos, Last(path), 0)
    ensures children[n] < |todos| && todos[children[n]].parent == Last(path)
    ensures NextChild(todos, path, children[..n], children[n])
  {
    ChildrenExactly(todos, Last(path), 0);
    assert forall d :: d in children[..n] ==> d in children;
    assert children[n] in children;
  }

  lemma NothingYet(todos: seq<Todo>, path: seq<Ref>, counter: nat)
    ensures Rendered(todos, path, counter, []) && Covers(todos, path, [], [])
  {
  }

  /** The recursive walk: it ends, and renders exactly what hangs under `path`. */
  method Walk(todos: seq<Todo>, parent: Option<Ref>, depth: nat, counter: nat, ghost path: seq<Ref>)
    returns (lines: seq<Line>)
    requires Unique(todos) && RootPath(todos, path) && parent == Last(path) && depth == |path|
    ensures Rendered(todos, path, counter, lines)
    ensures forall i :: Under(todos, i, path) ==> Lists(lines, i)
    decreases |todos| - |path|
  {
    hide RootPath, Covers, Above, Under, Rendered, NextChild, HangsAt, ChildrenFrom, Unique, Lists;
    var children := ChildrenFrom(todos, parent, 0);
    ChildrenExactly(todos, parent, 0);
    lines := [];
    NothingYet(todos, path, counter);
    for n := 0 to |children|
      invariant Rendered(todos, path, counter, lines)
      invariant Covers(todos, path, children[..n], lines)
    {
      var c := children[n];
      NextIs(todos, path, children, n);
      ChildExtends(todos, path, c);
      RootPathIsShort(todos, path + [todos[c].ref]);
      var below := Walk(todos, Some(todos[c].ref), depth + 1, counter + |lines| + 1, path + [todos[c].ref]);
      OneMoreRendered(todos, path, counter, children[..n], c, lines, below);
      OneMoreCovered(todos, path, counter, children[..n], c, lines, below);
      assert children[..n + 1] == children[..n] + [c];
      lines := OneMore(lines, counter, depth, c, below);
    }
    assert children[..|children|] == children;
    forall i | Under(todos, i, path) ensures Lists(lines, i) {
      AllCovered(todos, path, children, lines, i);
    }
  }

  /** The whole tree: numbered from one, a line for every todo whose parents lead to a root,
      each once and after its parent, and none for a todo in or under a cycle of parents. */
  method RenderTree(todos: seq<Todo>) returns (lines: seq<Line>)
    requires Unique(todos)
    ensures forall k :: 0 <= k < |lines| ==> lines[k].number == k + 1
    ensures forall i :: Lists(lines, i) <==> Above(todos, i).Some?
    ensures forall j, k :: 0 <= j < k < |lines| ==> lines[j].index != lines[k].index
    ensures forall k :: 0 <= k < |lines| ==> lines[k].index < |todos| && Above(todos, lines[k].index).Some?
    ensures forall k :: 0 <= k < |lines| ==> lines[k].depth == |Above(todos, lines[k].index).value|
    ensures forall k :: 0 <= k < |lines| && todos[lines[k].index].parent.Some? ==> ParentComesBefore(todos, lines, k)
  {
    lines := Walk(todos, None, 0, 0, []);
    forall k | 0 <= k < |lines| ensures Lists(lines, lines[k].index) {}
    forall k | 0 <= k < |lines|
      ensures lines[k].index < |todos|
      ensures todos[lines[k].index].parent.Some? ==> Above(todos, lines[k].index).value != []
    {
      assert Under(todos, lines[k].index, []);
      AboveExactly(todos, lines[k].index, Above(todos, lines[k].index).value);
    }
  }

  /** A todo has a place in the tree exactly when it is a root or its parent has one. */
  lemma PlacedExactly(todos: seq<Todo>, i: nat)
    requires Unique(todos) && i < |todos|
    ensures Above(todos, i).Some? <==>
            || todos[i].parent.None?
            || exists j :: 0 <= j < |todos| && Some(todos[j].ref) == todos[i].parent && Above(todos, j).Some?
  {
    if todos[i].parent.None? {
      assert HangsAt(todos, i, []);
    } else if Above(todos, i).Some? {
      var p := Above(todos, i).value;
      assert HangsAt(todos, i, p);
      var j :| 0 <= j < |todos| && todos[j].ref == p[|p| - 1] && todos[j].parent == Last(p[..|p| - 1]);
      assert HangsAt(todos, j, p[..|p| - 1]);
    } else {
      forall j | 0 <= j < |todos| && Some(todos[j].ref) == todos[i].parent && Above(todos, j).Some? ensures false {
        var p := Above(todos, j).value;
        assert HangsAt(todos, j, p);
        ChildExtends(todos, p, j);
        assert HangsAt(todos, i, p + [todos[j].ref]);
      }
    }
  }
}
