/** Tracked files: contents in an object storage, metadata in the database, and no transaction
    over both. Every write to either may fail, with its bytes partly there or not at all. */
module Files {
  import opened Wrappers

  type Byte = bv8
  type Bytes = seq<Byte>
  /** A file's storage key is made of its fresh id, so the id stands for both. */
  type FileId = nat
  type TaskId = nat

  datatype Scope = Scope(provider: string, owner: Option<nat>)

  /** `content` is what has been committed: the first upload and every committed append. */
  datatype Row = Row(scope: Scope, size: nat, content: Bytes)

  /** `maker` is the task that created the object; None, someone who does not track it here. */
  datatype Object = Object(bytes: Bytes, maker: Option<TaskId>)

  datatype Goal = Upload | Copy | CopyPrefix(end: int) | Append(offset: int, data: Bytes) | Delete

  datatype Phase =
    | Waiting(file: FileId)
    | Holding(file: FileId)
    | Writing(file: FileId, data: Bytes)
    | Copying(source: FileId, file: FileId, size: nat)
    | Stored(file: FileId, data: Bytes, committed: bool)
    | Appending(file: FileId, data: Bytes)
    | Appended(file: FileId, data: Bytes)
    | Deleting(file: FileId)
    | Deleted(file: FileId)
    | Ended

  datatype Task = Task(goal: Goal, scope: Scope, phase: Phase)

  /** `issued` names, for each new file's id drawn so far, the task it was drawn by. `undercut`
      holds the files whose content a failing block deleted while an append had checked it and was
      yet to write. */
  datatype State = State(
    rows: map<FileId, Row>, objects: map<FileId, Object>, locks: map<FileId, TaskId>, tasks: seq<Task>,
    issued: seq<TaskId>, undercut: set<FileId>)

  const EMPTY := State(map[], map[], map[], [], [], {})

  datatype Step =
    | Start(scope: Scope, data: Bytes)
    | Ask(goal: Goal, scope: Scope, file: FileId)
    | Acquire(task: TaskId)
    | Check(task: TaskId)
    | Write(task: TaskId, written: Option<Bytes>)
    | Clone(task: TaskId, ok: bool, left: Option<Bytes>)
    | CommitRow(task: TaskId)
    | Leave(task: TaskId)
    | Fail(task: TaskId, cleaned: bool)
    | Extend(task: TaskId, landed: nat)
    | CommitSize(task: TaskId, ok: bool)
    | RemoveObject(task: TaskId, ok: bool, gone: bool)
    | RemoveRow(task: TaskId, ok: bool)
    | Foreign(file: FileId, bytes: Bytes)

  /** A row of the provider and owner asked for, its object there and of the size it says. */
  predicate Consistent(s: State, f: FileId, scope: Scope) {
    && f in s.rows && s.rows[f].scope == scope
    && f in s.objects && |s.objects[f].bytes| == s.rows[f].size
  }

  function ReadResult(s: State, f: FileId, scope: Scope): Option<Bytes> {
    if Consistent(s, f, scope) then Some(s.objects[f].bytes) else None
  }

  function Moved(s: State, t: TaskId, phase: Phase): State
    requires t < |s.tasks|
  {
    s.(tasks := s.tasks[t := s.tasks[t].(phase := phase)])
  }

  function Released(s: State, t: TaskId, f: FileId): State
    requires t < |s.tasks|
  {
    Moved(s, t, Ended).(locks := s.locks - {f})
  }

  /** Under the file's lock, what each operation asks of it before it starts. */
  function Checked(s: State, t: TaskId, f: FileId): State
    requires t < |s.tasks|
  {
    var scope := s.tasks[t].scope;
    match s.tasks[t].goal
    case Copy =>
      if !Consistent(s, f, scope) then Released(s, t, f)
      else if |s.issued| in s.objects then Released(s, t, f).(issued := s.issued + [t])
      else Moved(s, t, Copying(f, |s.issued|, s.rows[f].size)).(issued := s.issued + [t])
    case CopyPrefix(end) =>
      if Consistent(s, f, scope) && 0 <= end <= s.rows[f].size
      then Released(s, t, f)
           .(tasks := s.tasks[t := s.tasks[t].(phase := Writing(|s.issued|, s.objects[f].bytes[..end]))],
             issued := s.issued + [t])
      else Released(s, t, f)
    case Append(offset, data) =>
      if Consistent(s, f, scope) && s.rows[f].size == offset && data != [] then Moved(s, t, Appending(f, data))
      else Released(s, t, f)
    case Delete =>
      if f in s.rows && s.rows[f].scope == scope then Moved(s, t, Deleting(f)) else Released(s, t, f)
    case Upload => Released(s, t, f)
  }

  /** `write(..., if_not_exists=True)`: refused where the key is taken. `written` is what a failed
      one leaves; the whole data, that it went through. */
  function Wrote(s: State, t: TaskId, f: FileId, data: Bytes, written: Option<Bytes>): State
    requires t < |s.tasks|
  {
    if f in s.objects || written.None? then Moved(s, t, Ended)
    else
      var after := s.(objects := s.objects[f := Object(written.value, Some(t))]);
      if written.value == data then Moved(after, t, Stored(f, data, false)) else Moved(after, t, Ended)
  }

  /** The provider's own copy, whose target was free when it was checked. Failed, or of another
      size, what it left is deleted, unless that fails too: `left`. */
  function Cloned(s: State, t: TaskId, source: FileId, f: FileId, size: nat, ok: bool, left: Option<Bytes>): State
    requires t < |s.tasks|
  {
    var unlocked := s.(locks := s.locks - {source});
    if ok && source in s.objects && |s.objects[source].bytes| == size
    then
      var data := s.objects[source].bytes;
      var maker := if f in s.objects then s.objects[f].maker else Some(t);
      Moved(unlocked, t, Stored(f, data, false)).(objects := s.objects[f := Object(data, maker)])
    else
      var maker := if f in s.objects then s.objects[f].maker else Some(t);
      Moved(unlocked, t, Ended)
      .(objects := if left.Some? then s.objects[f := Object(left.value, maker)] else s.objects - {f})
  }

  function BytesAt(s: State, f: FileId): Bytes {
    if f in s.objects then s.objects[f].bytes else []
  }

  /** An appending write of which `landed` bytes arrive; all of them, that it went through. */
  function Extended(s: State, t: TaskId, f: FileId, data: Bytes, landed: nat): State
    requires t < |s.tasks|
  {
    var part := if landed < |data| then data[..landed] else data;
    var maker := if f in s.objects then s.objects[f].maker else Some(t);
    var after := if part == [] then s else s.(objects := s.objects[f := Object(BytesAt(s, f) + part, maker)]);
    if landed < |data| then Released(after, t, f) else Moved(after, t, Appended(f, data))
  }

  /** An append stands between its check of the file and its write. */
  predicate BeingAppended(s: State, f: FileId) {
    exists u :: 0 <= u < |s.tasks| && s.tasks[u].phase.Appending? && s.tasks[u].phase.file == f
  }

  /** A block that failed takes its content with it, unless that fails too. */
  function Failed(s: State, t: TaskId, f: FileId, committed: bool, cleaned: bool): State
    requires t < |s.tasks|
  {
    if !cleaned then Moved(s, t, Ended)
    else Moved(s, t, Ended).(
      objects := s.objects - {f},
      undercut := if committed && BeingAppended(s, f) then s.undercut + {f} else s.undercut)
  }

  function After(s: State, step: Step): State {
    match step
    case Start(scope, data) =>
      s.(tasks := s.tasks + [Task(Upload, scope, Writing(|s.issued|, data))], issued := s.issued + [|s.tasks|])
    case Ask(goal, scope, f) => if goal.Upload? then s else s.(tasks := s.tasks + [Task(goal, scope, Waiting(f))])
    case Acquire(t) =>
      if t < |s.tasks| && s.tasks[t].phase.Waiting? && s.tasks[t].phase.file !in s.locks
      then Moved(s, t, Holding(s.tasks[t].phase.file)).(locks := s.locks[s.tasks[t].phase.file := t])
      else s
    case Check(t) => if t < |s.tasks| && s.tasks[t].phase.Holding? then Checked(s, t, s.tasks[t].phase.file) else s
    case Write(t, written) =>
      if t < |s.tasks| && s.tasks[t].phase.Writing?
      then Wrote(s, t, s.tasks[t].phase.file, s.tasks[t].phase.data, written)
      else s
    case Clone(t, ok, left) =>
      if t < |s.tasks| && s.tasks[t].phase.Copying?
      then Cloned(s, t, s.tasks[t].phase.source, s.tasks[t].phase.file, s.tasks[t].phase.size, ok, left)
      else s
    case CommitRow(t) =>
      if t < |s.tasks| && s.tasks[t].phase.Stored? && !s.tasks[t].phase.committed
      then
        var phase := s.tasks[t].phase;
        Moved(s, t, phase.(committed := true))
        .(rows := s.rows[phase.file := Row(s.tasks[t].scope, |phase.data|, phase.data)])
      else s
    case Leave(t) => if t < |s.tasks| && s.tasks[t].phase.Stored? then Moved(s, t, Ended) else s
    case Fail(t, cleaned) =>
      if t < |s.tasks| && s.tasks[t].phase.Stored?
      then Failed(s, t, s.tasks[t].phase.file, s.tasks[t].phase.committed, cleaned)
      else s
    case Extend(t, landed) =>
      if t < |s.tasks| && s.tasks[t].phase.Appending?
      then Extended(s, t, s.tasks[t].phase.file, s.tasks[t].phase.data, landed)
      else s
    case CommitSize(t, ok) =>
      if t < |s.tasks| && s.tasks[t].phase.Appended? && s.tasks[t].phase.file in s.rows
      then
        var f, data := s.tasks[t].phase.file, s.tasks[t].phase.data;
        var row := s.rows[f];
        Released(s, t, f)
        .(rows := if ok then s.rows[f := row.(size := row.size + |data|, content := row.content + data)] else s.rows)
      else s
    case RemoveObject(t, ok, gone) =>
      if t < |s.tasks| && s.tasks[t].phase.Deleting?
      then
        var f := s.tasks[t].phase.file;
        var after := if ok || gone then s.(objects := s.objects - {f}) else s;
        if ok then Moved(after, t, Deleted(f)) else Released(after, t, f)
      else s
    case RemoveRow(t, ok) =>
      if t < |s.tasks| && s.tasks[t].phase.Deleted?
      then
        var f := s.tasks[t].phase.file;
        Released(s, t, f).(rows := if ok then s.rows - {f} else s.rows)
      else s
    case Foreign(f, bytes) =>
      if f in s.objects || f in s.rows then s else s.(objects := s.objects[f := Object(bytes, None)])
  }

  function Run(s: State, steps: seq<Step>): State
    decreases |steps|
  {
    if steps == [] then s else Run(After(s, steps[0]), steps[1..])
  }

  // ---------------------------------------------------------------- stored bytes and committed content

  /** The stored bytes are missing, or begin with all that was committed. */
  ghost predicate MissingOrPrefix(s: State, f: FileId) {
    f in s.rows && f in s.objects ==> s.rows[f].content <= s.objects[f].bytes
  }

  ghost predicate ValidFile(s: State, f: FileId) {
    && (f in s.rows ==> f < |s.issued| && s.rows[f].size == |s.rows[f].content|)
    && (f !in s.undercut ==> MissingOrPrefix(s, f))
  }

  predicate IssuedTo(s: State, f: FileId, t: TaskId) {
    f < |s.issued| && s.issued[f] == t
  }

  predicate Locks(s: State, f: FileId, t: TaskId) {
    f in s.locks && s.locks[f] == t
  }

  ghost predicate ValidTask(s: State, t: TaskId)
    requires t < |s.tasks|
  {
    match s.tasks[t].phase
    case Holding(f) => Locks(s, f, t)
    case Writing(f, _) => IssuedTo(s, f, t) && f !in s.rows && f !in s.undercut
    case Copying(source, f, size) =>
      && IssuedTo(s, f, t) && f !in s.rows && f !in s.undercut
      && Locks(s, source, t) && source in s.rows && s.rows[source].size == size
    case Stored(f, data, committed) =>
      && IssuedTo(s, f, t) && f !in s.undercut
      && (!committed ==> f !in s.rows && f in s.objects && s.objects[f].bytes == data)
    case Appending(f, _) =>
      && Locks(s, f, t) && f in s.rows
      && (f !in s.undercut ==> f in s.objects && s.objects[f].bytes == s.rows[f].content)
    case Appended(f, data) =>
      && Locks(s, f, t) && f in s.rows
      && (f !in s.undercut && f in s.objects ==> s.objects[f].bytes == s.rows[f].content + data)
    case Deleting(f) => Locks(s, f, t) && f in s.rows
    case Deleted(f) => Locks(s, f, t) && f in s.rows && f !in s.objects
    case _ => true
  }

  ghost predicate Valid(s: State) {
    && (forall f :: f in s.rows ==> ValidFile(s, f))
    && (forall t :: 0 <= t < |s.tasks| ==> ValidTask(s, t))
    && (forall f :: f in s.locks ==> s.locks[f] < |s.tasks|)
    && (forall f :: f in s.undercut ==> f < |s.issued|)
  }

  /** Another task's standing survives a step that keeps its files, rows and locks. */
  lemma Bystander(s: State, after: State, u: TaskId)
    requires u < |s.tasks| && u < |after.tasks| && after.tasks[u] == s.tasks[u] && ValidTask(s, u)
    requires s.issued <= after.issued && s.undercut == after.undercut
    requires forall f :: Locks(s, f, u) ==> Locks(after, f, u)
    requires forall f :: Locks(s, f, u) && f in s.rows ==>
               && f in after.rows && after.rows[f] == s.rows[f]
               && (f in s.objects <==> f in after.objects) && (f in s.objects ==> after.objects[f] == s.objects[f])
    requires forall f :: IssuedTo(s, f, u) && f !in s.rows ==>
               && f !in after.rows
               && (f in s.objects ==> f in after.objects && after.objects[f] == s.objects[f])
    ensures ValidTask(after, u)
  {
  }

  /** A step of task `t` on file `f`, which it has locked or was issued. */
  ghost predicate Acts(s: State, after: State, t: TaskId, f: FileId) {
    && t < |s.tasks| && |after.tasks| == |s.tasks|
    && (forall u :: 0 <= u < |s.tasks| && u != t ==> after.tasks[u] == s.tasks[u])
    && s.issued <= after.issued && s.undercut == after.undercut
    && (forall g :: g in after.locks ==> g in s.locks && after.locks[g] == s.locks[g])
    && (forall g :: g in s.locks && s.locks[g] != t ==> g in after.locks)
    && (forall g :: g != f ==> (g in s.rows <==> g in after.rows) && (g in s.rows ==> after.rows[g] == s.rows[g]))
    && (forall g :: g != f ==>
          (g in s.objects <==> g in after.objects) && (g in s.objects ==> after.objects[g] == s.objects[g]))
  }

  lemma ActKeepsValid(s: State, after: State, t: TaskId, f: FileId)
    requires Valid(s) && Acts(s, after, t, f)
    requires (Locks(s, f, t) && f in s.rows) || (IssuedTo(s, f, t) && f !in s.rows)
             || (after.rows == s.rows && after.objects == s.objects)
    requires ValidTask(after, t) && (f in after.rows ==> ValidFile(after, f))
    ensures Valid(after)
  {
    forall u | 0 <= u < |after.tasks| ensures ValidTask(after, u) {
      if u != t {
        assert ValidTask(s, u);
        Bystander(s, after, u);
      }
    }
    forall g | g in after.rows ensures ValidFile(after, g) {
      if g != f {
        assert ValidFile(s, g);
      }
    }
  }

  lemma TaskHolds(s: State, t: TaskId)
    requires Valid(s) && t < |s.tasks|
    ensures ValidTask(s, t)
  {
  }

  lemma FileHolds(s: State, f: FileId)
    requires Valid(s) && f in s.rows
    ensures ValidFile(s, f)
  {
  }

  lemma UnissuedHasNoRow(s: State)
    requires Valid(s)
    ensures |s.issued| !in s.rows && |s.issued| !in s.undercut
  {
    if |s.issued| in s.rows {
      FileHolds(s, |s.issued|);
    }
  }

  /** Checked and let go, with or without an id drawn. */
  lemma LetGoKeepsValid(s: State, t: TaskId, f: FileId, phase: Phase, issued: seq<TaskId>)
    requires Valid(s) && t < |s.tasks| && s.tasks[t].phase == Holding(f) && s.issued <= issued
    requires ValidTask(Moved(s, t, phase).(locks := s.locks - {f}, issued := issued), t)
    ensures Valid(Moved(s, t, phase).(locks := s.locks - {f}, issued := issued))
  {
    TaskHolds(s, t);
    if f in s.rows {
      FileHolds(s, f);
    }
    hide Valid;
    ActKeepsValid(s, Moved(s, t, phase).(locks := s.locks - {f}, issued := issued), t, f);
  }

  lemma GoesOnKeepsValid(s: State, t: TaskId, f: FileId, phase: Phase, issued: seq<TaskId>)
    requires Valid(s) && t < |s.tasks| && s.tasks[t].phase == Holding(f) && s.issued <= issued
    requires ValidTask(Moved(s, t, phase).(issued := issued), t)
    ensures Valid(Moved(s, t, phase).(issued := issued))
  {
    if f in s.rows {
      FileHolds(s, f);
    }
    hide Valid;
    ActKeepsValid(s, Moved(s, t, phase).(issued := issued), t, f);
  }

  lemma CheckKeepsValid(s: State, t: TaskId)
    requires Valid(s) && t < |s.tasks| && s.tasks[t].phase.Holding?
    ensures Valid(After(s, Check(t)))
  {
    TaskHolds(s, t);
    UnissuedHasNoRow(s);
    var f, goal := s.tasks[t].phase.file, s.tasks[t].goal;
    if f in s.rows {
      FileHolds(s, f);
    }
    hide Valid;
    var after := After(s, Check(t));
    var phase := after.tasks[t].phase;
    if after.locks == s.locks {
      assert after == Moved(s, t, phase).(issued := after.issued);
      GoesOnKeepsValid(s, t, f, phase, after.issued);
    } else {
      assert after == Moved(s, t, phase).(locks := s.locks - {f}, issued := after.issued);
      LetGoKeepsValid(s, t, f, phase, after.issued);
    }
  }

  lemma WriteKeepsValid(s: State, t: TaskId, written: Option<Bytes>)
    requires Valid(s) && t < |s.tasks| && s.tasks[t].phase.Writing?
    ensures Valid(After(s, Write(t, written)))
  {
    TaskHolds(s, t);
    hide Valid;
    ActKeepsValid(s, After(s, Write(t, written)), t, s.tasks[t].phase.file);
  }

  lemma CloneKeepsValid(s: State, t: TaskId, ok: bool, left: Option<Bytes>)
    requires Valid(s) && t < |s.tasks| && s.tasks[t].phase.Copying?
    ensures Valid(After(s, Clone(t, ok, left)))
  {
    TaskHolds(s, t);
    hide Valid;
    ActKeepsValid(s, After(s, Clone(t, ok, left)), t, s.tasks[t].phase.file);
  }

  lemma StoredKeepsValid(s: State, step: Step)
    requires Valid(s) && (step.CommitRow? || step.Leave? || step.Fail?)
    requires step.task < |s.tasks| && s.tasks[step.task].phase.Stored?
    requires step.Fail? ==> !step.cleaned || !s.tasks[step.task].phase.committed
    ensures Valid(After(s, step))
  {
    var t := step.task;
    TaskHolds(s, t);
    var f := s.tasks[t].phase.file;
    if f in s.rows {
      FileHolds(s, f);
    }
    hide Valid;
    ActKeepsValid(s, After(s, step), t, f);
  }

  /** A block that fails late takes the content away from everyone; only an append that has checked
      it minds. */
  lemma LateFailureKeepsTask(s: State, t: TaskId, f: FileId, u: TaskId)
    requires Valid(s) && t < |s.tasks| && u < |s.tasks| && u != t
    requires s.tasks[t].phase.Stored? && s.tasks[t].phase.file == f && s.tasks[t].phase.committed
    ensures ValidTask(Failed(s, t, f, true, true), u)
  {
    assert ValidTask(s, t) && ValidTask(s, u);
  }

  lemma LateFailureKeepsValid(s: State, t: TaskId)
    requires Valid(s) && t < |s.tasks| && s.tasks[t].phase.Stored? && s.tasks[t].phase.committed
    ensures Valid(After(s, Fail(t, true)))
  {
    var f := s.tasks[t].phase.file;
    var after := Failed(s, t, f, true, true);
    assert ValidTask(s, t);
    forall u | 0 <= u < |after.tasks| ensures ValidTask(after, u) {
      if u != t {
        LateFailureKeepsTask(s, t, f, u);
      }
    }
    forall g | g in after.rows ensures ValidFile(after, g) {
      assert ValidFile(s, g);
    }
  }

  lemma ExtendKeepsValid(s: State, t: TaskId, landed: nat)
    requires Valid(s) && t < |s.tasks| && s.tasks[t].phase.Appending?
    ensures Valid(After(s, Extend(t, landed)))
  {
    TaskHolds(s, t);
    var f, data := s.tasks[t].phase.file, s.tasks[t].phase.data;
    FileHolds(s, f);
    hide Valid, MissingOrPrefix;
    assert f in s.objects ==> s.objects[f].bytes + [] == s.objects[f].bytes;
    assert landed < |data| && data[..landed] == [] ==> landed == 0;
    ActKeepsValid(s, After(s, Extend(t, landed)), t, f);
  }

  lemma LockedKeepsValid(s: State, step: Step)
    requires Valid(s) && (step.CommitSize? || step.RemoveObject? || step.RemoveRow?)
    requires step.task < |s.tasks|
    requires step.CommitSize? ==> s.tasks[step.task].phase.Appended?
    requires step.RemoveObject? ==> s.tasks[step.task].phase.Deleting?
    requires step.RemoveRow? ==> s.tasks[step.task].phase.Deleted?
    ensures Valid(After(s, step))
  {
    var t := step.task;
    TaskHolds(s, t);
    var f := s.tasks[t].phase.file;
    FileHolds(s, f);
    hide Valid;
    ActKeepsValid(s, After(s, step), t, f);
  }

  lemma OpenKeepsValid(s: State, task: Task, issued: seq<TaskId>)
    requires Valid(s) && s.issued <= issued
    requires ValidTask(s.(tasks := s.tasks + [task], issued := issued), |s.tasks|)
    ensures Valid(s.(tasks := s.tasks + [task], issued := issued))
  {
    var after := s.(tasks := s.tasks + [task], issued := issued);
    forall u | 0 <= u < |after.tasks| ensures ValidTask(after, u) {
      if u < |s.tasks| {
        assert ValidTask(s, u);
        Bystander(s, after, u);
      }
    }
    forall g | g in after.rows ensures ValidFile(after, g) {
      assert ValidFile(s, g);
    }
  }

  lemma AcquireKeepsValid(s: State, t: TaskId)
    requires Valid(s) && t < |s.tasks| && s.tasks[t].phase.Waiting? && s.tasks[t].phase.file !in s.locks
    ensures Valid(After(s, Acquire(t)))
  {
    var after := After(s, Acquire(t));
    forall u | 0 <= u < |after.tasks| ensures ValidTask(after, u) {
      if u != t {
        assert ValidTask(s, u);
        Bystander(s, after, u);
      }
    }
    forall g | g in after.rows ensures ValidFile(after, g) {
      assert ValidFile(s, g);
    }
  }

  lemma ForeignKeepsValid(s: State, f: FileId, bytes: Bytes)
    requires Valid(s)
    ensures Valid(After(s, Foreign(f, bytes)))
  {
    var after := After(s, Foreign(f, bytes));
    forall u | 0 <= u < |after.tasks| ensures ValidTask(after, u) {
      assert ValidTask(s, u);
      Bystander(s, after, u);
    }
    forall g | g in after.rows ensures ValidFile(after, g) {
      assert ValidFile(s, g);
    }
  }

  lemma StepKeepsValid(s: State, step: Step)
    requires Valid(s)
    ensures Valid(After(s, step))
  {
    hide Valid, Acts;
    match step
    case Start(scope, data) =>
      UnissuedHasNoRow(s);
      OpenKeepsValid(s, Task(Upload, scope, Writing(|s.issued|, data)), s.issued + [|s.tasks|]);
    case Ask(goal, scope, f) =>
      var task := Task(goal, scope, Waiting(f));
      assert s.(tasks := s.tasks + [task], issued := s.issued) == s.(tasks := s.tasks + [task]);
      OpenKeepsValid(s, task, s.issued);
    case Acquire(t) =>
      if t < |s.tasks| && s.tasks[t].phase.Waiting? && s.tasks[t].phase.file !in s.locks { AcquireKeepsValid(s, t); }
    case Check(t) => if t < |s.tasks| && s.tasks[t].phase.Holding? { CheckKeepsValid(s, t); }
    case Write(t, written) => if t < |s.tasks| && s.tasks[t].phase.Writing? { WriteKeepsValid(s, t, written); }
    case Clone(t, ok, left) => if t < |s.tasks| && s.tasks[t].phase.Copying? { CloneKeepsValid(s, t, ok, left); }
    case Extend(t, landed) => if t < |s.tasks| && s.tasks[t].phase.Appending? { ExtendKeepsValid(s, t, landed); }
    case CommitSize(t, ok) => if t < |s.tasks| && s.tasks[t].phase.Appended? { LockedKeepsValid(s, step); }
    case RemoveObject(t, ok, gone) => if t < |s.tasks| && s.tasks[t].phase.Deleting? { LockedKeepsValid(s, step); }
    case RemoveRow(t, ok) => if t < |s.tasks| && s.tasks[t].phase.Deleted? { LockedKeepsValid(s, step); }
    case Foreign(f, bytes) => ForeignKeepsValid(s, f, bytes);
    case CommitRow(t) => if t < |s.tasks| && s.tasks[t].phase.Stored? { StoredKeepsValid(s, step); }
    case Leave(t) => if t < |s.tasks| && s.tasks[t].phase.Stored? { StoredKeepsValid(s, step); }
    case Fail(t, cleaned) =>
      if t < |s.tasks| && s.tasks[t].phase.Stored? {
        if cleaned && s.tasks[t].phase.committed { LateFailureKeepsValid(s, t); } else { StoredKeepsValid(s, step); }
      }
  }

  // ---------------------------------------------------------------- over whole runs

  lemma {:induction false} RunKeepsValid(s: State, steps: seq<Step>)
    requires Valid(s)
    ensures Valid(Run(s, steps))
    decreases |steps|
  {
    if steps != [] {
      hide Valid, After;
      StepKeepsValid(s, steps[0]);
      RunKeepsValid(After(s, steps[0]), steps[1..]);
    }
  }

  lemma EmptyIsValid()
    ensures Valid(EMPTY)
  {
  }

  /** A block fails after it committed the file's row, and takes the content from under an append
      that has checked the file and is yet to write. */
  ghost predicate Undercuts(s: State, step: Step, f: FileId) {
    && step.Fail? && step.cleaned && step.task < |s.tasks| && s.tasks[step.task].phase.Stored?
    && s.tasks[step.task].phase.committed && s.tasks[step.task].phase.file == f && BeingAppended(s, f)
  }

  ghost predicate EverUndercut(s: State, steps: seq<Step>, f: FileId)
    decreases |steps|
  {
    steps != [] && (Undercuts(s, steps[0], f) || EverUndercut(After(s, steps[0]), steps[1..], f))
  }

  lemma UndercutStep(s: State, step: Step, f: FileId)
    ensures f in After(s, step).undercut <==> f in s.undercut || Undercuts(s, step, f)
  {
    hide Consistent, BytesAt;
  }

  lemma {:induction false} UndercutExactly(s: State, steps: seq<Step>, f: FileId)
    ensures f in Run(s, steps).undercut <==> f in s.undercut || EverUndercut(s, steps, f)
    decreases |steps|
  {
    if steps != [] {
      UndercutStep(s, steps[0], f);
      hide After, Undercuts;
      UndercutExactly(After(s, steps[0]), steps[1..], f);
    }
  }

  lemma Reachable(steps: seq<Step>)
    ensures Valid(Run(EMPTY, steps))
  {
    EmptyIsValid();
    RunKeepsValid(EMPTY, steps);
  }

  /** Wherever storage or commits fail, a file's stored bytes are missing or begin with everything
      that was committed for it, unless a late failure undercut an append of it. */
  lemma StoredBeginsWithCommitted(steps: seq<Step>, f: FileId)
    requires !EverUndercut(EMPTY, steps, f)
    ensures MissingOrPrefix(Run(EMPTY, steps), f)
  {
    Reachable(steps);
    UndercutExactly(EMPTY, steps, f);
    if f in Run(EMPTY, steps).rows {
      FileHolds(Run(EMPTY, steps), f);
    }
  }

  function Content(s: State, f: FileId): Bytes {
    if f in s.rows then s.rows[f].content else []
  }

  /** The bytes a step commits for a file: an upload's or copy's first ones, or an append's. */
  function CommittedBy(s: State, step: Step, f: FileId): Bytes {
    if step.CommitRow? && step.task < |s.tasks| && s.tasks[step.task].phase.Stored?
       && !s.tasks[step.task].phase.committed && s.tasks[step.task].phase.file == f
    then s.tasks[step.task].phase.data
    else if step.CommitSize? && step.ok && step.task < |s.tasks| && s.tasks[step.task].phase.Appended?
            && s.tasks[step.task].phase.file == f && f in s.rows
    then s.tasks[step.task].phase.data
    else []
  }

  function Committed(s: State, steps: seq<Step>, f: FileId): Bytes
    decreases |steps|
  {
    if steps == [] then [] else CommittedBy(s, steps[0], f) + Committed(After(s, steps[0]), steps[1..], f)
  }

  /** The file's row is gone, and the task it was issued to has none to commit. */
  ghost predicate Gone(s: State, f: FileId) {
    && f < |s.issued| && f !in s.rows
    && forall t :: 0 <= t < |s.tasks| ==> !Brings(s.tasks[t].phase, f)
  }

  predicate Brings(phase: Phase, f: FileId) {
    match phase
    case Writing(g, _) => f == g
    case Copying(_, g, _) => f == g
    case Stored(g, _, committed) => f == g && !committed
    case _ => false
  }

  ghost predicate StepOf(step: Step, t: TaskId) {
    !step.Start? && !step.Ask? && !step.Foreign? && step.task == t
  }

  ghost predicate OnlyMoves(s: State, after: State, t: TaskId)
    requires t < |s.tasks|
  {
    |after.tasks| == |s.tasks| && after.tasks == s.tasks[t := after.tasks[t]]
  }

  lemma CheckedMoves(s: State, t: TaskId, f: FileId)
    requires t < |s.tasks|
    ensures OnlyMoves(s, Checked(s, t, f), t)
    ensures forall g: FileId :: g < |s.issued| ==> !Brings(Checked(s, t, f).tasks[t].phase, g)
  {
    hide Consistent;
  }

  lemma WroteMoves(s: State, t: TaskId, f: FileId, data: Bytes, written: Option<Bytes>)
    requires t < |s.tasks|
    ensures OnlyMoves(s, Wrote(s, t, f, data, written), t)
    ensures forall g :: Brings(Wrote(s, t, f, data, written).tasks[t].phase, g) ==> g == f
  {
  }

  lemma ClonedMoves(s: State, t: TaskId, source: FileId, f: FileId, size: nat, ok: bool, left: Option<Bytes>)
    requires t < |s.tasks|
    ensures OnlyMoves(s, Cloned(s, t, source, f, size, ok, left), t)
    ensures forall g :: Brings(Cloned(s, t, source, f, size, ok, left).tasks[t].phase, g) ==> g == f
  {
  }

  lemma ExtendedMoves(s: State, t: TaskId, f: FileId, data: Bytes, landed: nat)
    requires t < |s.tasks|
    ensures OnlyMoves(s, Extended(s, t, f, data, landed), t)
    ensures forall g :: !Brings(Extended(s, t, f, data, landed).tasks[t].phase, g)
  {
    hide BytesAt;
  }

  /** A task's step moves that task alone, and brings it no file but one newly issued. */
  lemma OneTaskMoves(s: State, step: Step)
    requires !step.Start? && !step.Ask? && !step.Foreign? && step.task < |s.tasks|
    ensures OnlyMoves(s, After(s, step), step.task)
    ensures forall g: FileId :: g < |s.issued| && Brings(After(s, step).tasks[step.task].phase, g) ==>
            Brings(s.tasks[step.task].phase, g)
  {
    hide Checked, Wrote, Cloned, Extended;
    var t := step.task;
    var phase := s.tasks[t].phase;
    match step
    case Check(_) => if phase.Holding? { CheckedMoves(s, t, phase.file); }
    case Write(_, written) => if phase.Writing? { WroteMoves(s, t, phase.file, phase.data, written); }
    case Clone(_, ok, left) => if phase.Copying? { ClonedMoves(s, t, phase.source, phase.file, phase.size, ok, left); }
    case Extend(_, landed) => if phase.Appending? { ExtendedMoves(s, t, phase.file, phase.data, landed); }
    case _ =>
  }

  lemma OthersLeaveTask(s: State, step: Step, t: TaskId)
    requires t < |s.tasks| && !StepOf(step, t)
    ensures t < |After(s, step).tasks| && After(s, step).tasks[t] == s.tasks[t]
  {
    if !step.Start? && !step.Ask? && !step.Foreign? {
      if step.task < |s.tasks| {
        OneTaskMoves(s, step);
        hide After;
      }
    }
  }

  /** Only a new file's id comes to a task that did not bring it before. */
  lemma StepBringsNothing(s: State, step: Step, t: TaskId, f: FileId)
    requires f < |s.issued| && t < |After(s, step).tasks|
    requires t < |s.tasks| ==> !Brings(s.tasks[t].phase, f)
    ensures !Brings(After(s, step).tasks[t].phase, f)
  {
    if t < |s.tasks| {
      if StepOf(step, t) {
        OneTaskMoves(s, step);
      } else {
        OthersLeaveTask(s, step, t);
      }
      hide After;
    } else if !step.Start? && !step.Ask? && !step.Foreign? && step.task < |s.tasks| {
      OneTaskMoves(s, step);
      hide After;
      assert false;
    }
  }

  lemma StepCommitsNothing(s: State, step: Step, f: FileId)
    requires Gone(s, f)
    ensures f !in After(s, step).rows && f < |After(s, step).issued|
  {
    hide Consistent, BytesAt;
  }

  lemma StepStaysGone(s: State, step: Step, f: FileId)
    requires Gone(s, f)
    ensures Gone(After(s, step), f)
  {
    StepCommitsNothing(s, step, f);
    forall t | 0 <= t < |After(s, step).tasks| ensures !Brings(After(s, step).tasks[t].phase, f) {
      StepBringsNothing(s, step, t, f);
    }
    hide After;
  }

  lemma {:induction false} GoneForGood(s: State, steps: seq<Step>, f: FileId)
    requires Gone(s, f)
    ensures Gone(Run(s, steps), f)
    decreases |steps|
  {
    if steps != [] {
      StepStaysGone(s, steps[0], f);
      hide After, Gone;
      GoneForGood(After(s, steps[0]), steps[1..], f);
    }
  }

  lemma OneStepsContent(s: State, step: Step, f: FileId)
    requires Valid(s)
    ensures var after := After(s, step);
            && (f in after.rows ==> after.rows[f].content == Content(s, f) + CommittedBy(s, step, f))
            && (f !in s.rows && f !in after.rows ==> CommittedBy(s, step, f) == [])
            && (f in s.rows && f !in after.rows ==> Gone(after, f))
  {
    var after := After(s, step);
    if f in s.rows {
      FileHolds(s, f);
      assert s.rows[f].content + [] == s.rows[f].content;
    }
    if step.CommitRow? && step.task < |s.tasks| && s.tasks[step.task].phase.Stored? {
      TaskHolds(s, step.task);
    }
    if f in s.rows && f !in after.rows {
      forall t | 0 <= t < |after.tasks| ensures !Brings(after.tasks[t].phase, f) {
        TaskHolds(s, t);
      }
    }
    hide Valid, Consistent, Gone;
  }

  lemma {:induction false} ContentIsCommitted(s: State, steps: seq<Step>, f: FileId)
    requires Valid(s)
    ensures var end := Run(s, steps);
            f in end.rows ==>
              end.rows[f].content == Content(s, f) + Committed(s, steps, f)
    decreases |steps|
  {
    if steps == [] {
      assert Content(s, f) + [] == Content(s, f);
    } else {
      var next := After(s, steps[0]);
      StepKeepsValid(s, steps[0]);
      OneStepsContent(s, steps[0], f);
      RunHead(s, steps);
      var first, rest := CommittedBy(s, steps[0], f), Committed(next, steps[1..], f);
      assert Committed(s, steps, f) == first + rest;
      hide Valid, After, CommittedBy, Gone, Run, Committed;
      if f in s.rows && f !in next.rows {
        GoneForGood(next, steps[1..], f);
        StillGone(Run(next, steps[1..]), f);
      } else {
        ContentIsCommitted(next, steps[1..], f);
        assert Content(next, f) == Content(s, f) + first;
        hide Content;
        assert (Content(s, f) + first) + rest == Content(s, f) + (first + rest);
      }
    }
  }

  lemma RunHead(s: State, steps: seq<Step>)
    requires steps != []
    ensures Run(s, steps) == Run(After(s, steps[0]), steps[1..])
  {
    hide After;
  }

  lemma StillGone(s: State, f: FileId)
    requires Gone(s, f)
    ensures f !in s.rows
  {
  }

  /** A read that succeeds returns exactly the first write followed by every committed append, in
      order, whatever failed in between. */
  lemma ReadReturnsWhatWasCommitted(steps: seq<Step>, f: FileId, scope: Scope)
    requires !EverUndercut(EMPTY, steps, f)
    ensures var answer := ReadResult(Run(EMPTY, steps), f, scope);
            answer.Some? ==> answer.value == Committed(EMPTY, steps, f)
  {
    EmptyIsValid();
    Reachable(steps);
    UndercutExactly(EMPTY, steps, f);
    ContentIsCommitted(EMPTY, steps, f);
    var s := Run(EMPTY, steps);
    if Consistent(s, f, scope) {
      FileHolds(s, f);
      assert [] + Committed(EMPTY, steps, f) == Committed(EMPTY, steps, f);
    }
  }

  /** A read goes through exactly for a row of that very provider and owner whose content is there and
      of the size the row says; another's file is refused like one that is not there. */
  lemma ReadsExactly(s: State, f: FileId, provider: string, owner: Option<nat>)
    ensures match ReadResult(s, f, Scope(provider, owner))
            case Some(data) =>
              && f in s.rows && s.rows[f].scope.provider == provider && s.rows[f].scope.owner == owner
              && f in s.objects && data == s.objects[f].bytes && |data| == s.rows[f].size
            case None =>
              f in s.rows && s.rows[f].scope == Scope(provider, owner) && f in s.objects ==>
                |s.objects[f].bytes| != s.rows[f].size
  {
  }

  /** The upload's write refuses a key that is taken; it leaves all of the data, some, or nothing, as its
      own, and goes on to the caller's block with all of it only. */
  lemma WritesExactly(s: State, t: TaskId, written: Option<Bytes>)
    requires t < |s.tasks| && s.tasks[t].phase.Writing?
    ensures var f, data, after := s.tasks[t].phase.file, s.tasks[t].phase.data, After(s, Write(t, written));
            && after == s.(tasks := s.tasks[t := s.tasks[t].(phase := after.tasks[t].phase)], objects := after.objects)
            && after.objects == (if f in s.objects || written == None then s.objects
                                 else s.objects[f := Object(written.value, Some(t))])
            && after.tasks[t].phase
               == if f !in s.objects && written == Some(data) then Stored(f, data, false) else Ended
  {
  }

  /** A copy goes through only for a source that is there and of the size it was when it was checked; then
      the target holds what the source does. Gone wrong, its target holds what the failed cleanup left,
      or nothing. What stood there before stays whose it was; the source is let go either way. */
  lemma ClonesExactly(s: State, t: TaskId, ok: bool, left: Option<Bytes>)
    requires t < |s.tasks| && s.tasks[t].phase.Copying?
    ensures var source, f, size := s.tasks[t].phase.source, s.tasks[t].phase.file, s.tasks[t].phase.size;
            var after := After(s, Clone(t, ok, left));
            var goes := ok && source in s.objects && |s.objects[source].bytes| == size;
            && after == s.(tasks := s.tasks[t := s.tasks[t].(phase := after.tasks[t].phase)],
                           objects := after.objects, locks := s.locks - {source})
            && after.tasks[t].phase == (if goes then Stored(f, s.objects[source].bytes, false) else Ended)
            && (f in after.objects <==> goes || left.Some?)
            && (f in after.objects ==>
                  && after.objects[f].bytes == (if goes then s.objects[source].bytes else left.value)
                  && after.objects[f].maker == if f in s.objects then s.objects[f].maker else Some(t))
            && (forall g :: g != f ==> (g in after.objects <==> g in s.objects))
            && (forall g :: g != f && g in s.objects ==> after.objects[g] == s.objects[g])
  {
  }

  /** An appending write adds what arrives of it to what is there, or begins anew where nothing is; it goes
      on to the commit only if all of it did, and lets the file go otherwise. */
  lemma ExtendsExactly(s: State, t: TaskId, landed: nat)
    requires t < |s.tasks| && s.tasks[t].phase.Appending?
    ensures var f, data, after := s.tasks[t].phase.file, s.tasks[t].phase.data, After(s, Extend(t, landed));
            var n := if landed <= |data| then landed else |data|;
            && after == s.(tasks := s.tasks[t := s.tasks[t].(phase := after.tasks[t].phase)],
                           objects := after.objects, locks := after.locks)
            && after.tasks[t].phase == (if n == |data| then Appended(f, data) else Ended)
            && after.locks == (if n == |data| then s.locks else s.locks - {f})
            && (f in after.objects <==> f in s.objects || n > 0)
            && (f in s.objects ==>
                  after.objects[f] == Object(s.objects[f].bytes + data[..n], s.objects[f].maker))
            && (f !in s.objects && n > 0 ==> after.objects[f] == Object(data[..n], Some(t)))
            && (forall g :: g != f ==> (g in after.objects <==> g in s.objects))
            && (forall g :: g != f && g in s.objects ==> after.objects[g] == s.objects[g])
  {
    var data := s.tasks[t].phase.data;
    assert data[..|data|] == data;
    if s.tasks[t].phase.file in s.objects {
      var stored := s.objects[s.tasks[t].phase.file];
      assert stored.bytes + [] == stored.bytes && stored == Object(stored.bytes, stored.maker);
    }
  }

  /** A commit puts the row in, or grows it, with all that was written; the caller's block may leave after,
      or fail, and then takes the content with it, unless that fails as well. */
  lemma CommitsExactly(s: State, t: TaskId, ok: bool, cleaned: bool)
    requires t < |s.tasks|
    ensures var task := s.tasks[t];
            match task.phase
            case Stored(f, data, committed) =>
              && (!committed ==>
                    After(s, CommitRow(t))
                    == s.(tasks := s.tasks[t := task.(phase := Stored(f, data, true))],
                          rows := s.rows[f := Row(task.scope, |data|, data)]))
              && (committed ==> After(s, CommitRow(t)) == s)
              && After(s, Leave(t)) == s.(tasks := s.tasks[t := task.(phase := Ended)])
              && var after := After(s, Fail(t, cleaned));
                 && after == s.(tasks := s.tasks[t := task.(phase := Ended)], objects := after.objects,
                                undercut := after.undercut)
                 && after.objects == (if cleaned then s.objects - {f} else s.objects)
                 && (after.undercut == if cleaned && committed
                                          && exists u :: 0 <= u < |s.tasks| && s.tasks[u].phase.Appending?
                                                         && s.tasks[u].phase.file == f
                                       then s.undercut + {f} else s.undercut)
            case Appended(f, data) =>
              f in s.rows ==>
                && var after := After(s, CommitSize(t, ok));
                   && after == s.(tasks := s.tasks[t := task.(phase := Ended)], locks := s.locks - {f},
                                  rows := after.rows)
                   && after.rows.Keys == s.rows.Keys
                   && (forall g :: g in s.rows && g != f ==> after.rows[g] == s.rows[g])
                   && after.rows[f]
                      == if ok then Row(s.rows[f].scope, s.rows[f].size + |data|, s.rows[f].content + data)
                         else s.rows[f]
            case _ => After(s, CommitRow(t)) == s && After(s, Leave(t)) == s && After(s, Fail(t, cleaned)) == s
  {
    var task := s.tasks[t];
    if task.phase.Appended? && task.phase.file in s.rows {
      var f := task.phase.file;
      assert s.rows[f := s.rows[f]] == s.rows;
    }
  }

  /** An operation on a file begins by waiting for it, and has it once nobody else does; an upload begins with
      an id of its own, and a key nobody tracks here may be put to use at any time. */
  lemma BeginsExactly(s: State, goal: Goal, scope: Scope, f: FileId, data: Bytes, t: TaskId)
    ensures After(s, Start(scope, data))
            == s.(tasks := s.tasks + [Task(Upload, scope, Writing(|s.issued|, data))], issued := s.issued + [|s.tasks|])
    ensures goal != Upload ==> After(s, Ask(goal, scope, f)) == s.(tasks := s.tasks + [Task(goal, scope, Waiting(f))])
    ensures t < |s.tasks| && s.tasks[t].phase == Waiting(f) ==>
              After(s, Acquire(t))
              == if f in s.locks then s
                 else s.(tasks := s.tasks[t := s.tasks[t].(phase := Holding(f))], locks := s.locks[f := t])
    ensures t < |s.tasks| && !s.tasks[t].phase.Waiting? ==> After(s, Acquire(t)) == s
    ensures After(s, Foreign(f, data))
            == if f in s.objects || f in s.rows then s else s.(objects := s.objects[f := Object(data, None)])
  {
  }

  /** What an operation must find of its file, under the lock, to go on; otherwise it lets the lock go
      and nothing has changed. */
  ghost predicate GoesOn(s: State, goal: Goal, scope: Scope, f: FileId) {
    && f in s.rows && s.rows[f].scope.provider == scope.provider && s.rows[f].scope.owner == scope.owner
    && match goal
       case Upload => false
       case Delete => true
       case Append(offset, data) =>
         f in s.objects && |s.objects[f].bytes| == s.rows[f].size && offset == s.rows[f].size && |data| > 0
       case Copy => f in s.objects && |s.objects[f].bytes| == s.rows[f].size && |s.issued| !in s.objects
       case CopyPrefix(end) => f in s.objects && |s.objects[f].bytes| == s.rows[f].size && 0 <= end <= s.rows[f].size
  }

  lemma GoesOnExactly(s: State, t: TaskId)
    requires t < |s.tasks| && s.tasks[t].phase.Holding?
    ensures var task, after := s.tasks[t], After(s, Check(t));
            var f := task.phase.file;
            && (after.tasks[t].phase != Ended <==> GoesOn(s, task.goal, task.scope, f))
            && (after.tasks[t].phase != Ended ==>
                  match task.goal
                  case Append(_, data) => after.tasks[t].phase == Appending(f, data)
                  case Delete => after.tasks[t].phase == Deleting(f)
                  case Copy => after.tasks[t].phase == Copying(f, |s.issued|, s.rows[f].size)
                  case CopyPrefix(end) => after.tasks[t].phase == Writing(|s.issued|, s.objects[f].bytes[..end])
                  case Upload => false)
            && (f in after.locks <==>
                  f in s.locks && after.tasks[t].phase != Ended && !after.tasks[t].phase.Writing?)
            && after.rows == s.rows && after.objects == s.objects
            && after.tasks[t].goal == task.goal && after.tasks[t].scope == task.scope
            && (after.issued == s.issued || after.issued == s.issued + [t])
            && (after.tasks[t].phase.Copying? || after.tasks[t].phase.Writing? ==> after.issued == s.issued + [t])
  {
  }

  /** A delete that goes through leaves neither content nor row, whatever else goes on meanwhile; and
      nothing of any other file is touched by either half. */
  lemma DeleteLeavesNothing(steps: seq<Step>, t: TaskId)
    requires t < |Run(EMPTY, steps).tasks| && Run(EMPTY, steps).tasks[t].phase.Deleted?
    ensures var s := Run(EMPTY, steps);
            var f, after := s.tasks[t].phase.file, After(s, RemoveRow(t, true));
            && f !in s.objects && f !in after.objects && f !in after.rows && f !in after.locks
            && (forall scope :: ReadResult(after, f, scope) == None)
            && (forall g :: g in s.rows && g != f ==> g in after.rows && after.rows[g] == s.rows[g])
            && (forall g :: g in s.objects ==> g in after.objects && after.objects[g] == s.objects[g])
  {
    Reachable(steps);
    var s := Run(EMPTY, steps);
    TaskHolds(s, t);
    hide Run, Valid;
  }

  /** Content goes first: the row stays until it is gone, and with it the means to try again, as it does when
      its own removal fails. */
  lemma ContentGoesFirst(s: State, t: TaskId, ok: bool, gone: bool)
    requires t < |s.tasks|
    ensures s.tasks[t].phase.Deleted? ==>
              var f := s.tasks[t].phase.file;
              After(s, RemoveRow(t, false))
              == s.(tasks := s.tasks[t := s.tasks[t].(phase := Ended)], locks := s.locks - {f})
    ensures s.tasks[t].phase.Deleting? ==>
            var f, after := s.tasks[t].phase.file, After(s, RemoveObject(t, ok, gone));
            && after.rows == s.rows
            && (f in after.objects <==> f in s.objects && !ok && !gone)
            && (forall g :: g in s.objects && g != f ==> g in after.objects && after.objects[g] == s.objects[g])
            && after.objects.Keys <= s.objects.Keys
            && (after.tasks[t].phase == if ok then Deleted(f) else Ended)
            && (f in after.locks <==> ok && f in s.locks)
  {
  }

  /** What is committed can be read back at once: a new file's data, and what an append made of it.
      An append whose commit fails leaves a file that reads refuse. */
  lemma CommittedIsReadable(steps: seq<Step>, t: TaskId)
    requires t < |Run(EMPTY, steps).tasks|
    ensures var s := Run(EMPTY, steps);
            var phase, scope := s.tasks[t].phase, s.tasks[t].scope;
            && (phase.Stored? && !phase.committed ==>
                  ReadResult(After(s, CommitRow(t)), phase.file, scope) == Some(phase.data))
            && (phase.Appended? && !EverUndercut(EMPTY, steps, phase.file) ==>
                  && phase.file in s.rows
                  && var f, own := phase.file, s.rows[phase.file].scope;
                     && (f in s.objects ==>
                           ReadResult(After(s, CommitSize(t, true)), f, own) == Some(s.rows[f].content + phase.data))
                     && (phase.data != [] ==> ReadResult(After(s, CommitSize(t, false)), f, own) == None))
  {
    Reachable(steps);
    var s := Run(EMPTY, steps);
    TaskHolds(s, t);
    if s.tasks[t].phase.Appended? {
      FileHolds(s, s.tasks[t].phase.file);
      UndercutExactly(EMPTY, steps, s.tasks[t].phase.file);
    }
    hide Run, Valid, EverUndercut;
  }

  /** A copy that goes through holds the committed content of its source. */
  lemma CopiesWhatWasCommitted(steps: seq<Step>, t: TaskId, left: Option<Bytes>)
    requires t < |Run(EMPTY, steps).tasks| && Run(EMPTY, steps).tasks[t].phase.Copying?
    requires !EverUndercut(EMPTY, steps, Run(EMPTY, steps).tasks[t].phase.source)
    ensures var s := Run(EMPTY, steps);
            var source, copied := s.tasks[t].phase.source, After(s, Clone(t, true, left)).tasks[t].phase;
            copied.Stored? ==> source in s.rows && copied.data == s.rows[source].content
  {
    Reachable(steps);
    var s := Run(EMPTY, steps);
    TaskHolds(s, t);
    FileHolds(s, s.tasks[t].phase.source);
    UndercutExactly(EMPTY, steps, s.tasks[t].phase.source);
    hide Run, Valid, EverUndercut;
  }

  /** And a partial copy that starts is to hold the prefix asked for of its source's. */
  lemma CopiesPrefixOfCommitted(steps: seq<Step>, t: TaskId, end: int)
    requires t < |Run(EMPTY, steps).tasks| && Run(EMPTY, steps).tasks[t].phase.Holding?
    requires Run(EMPTY, steps).tasks[t].goal == CopyPrefix(end)
    requires !EverUndercut(EMPTY, steps, Run(EMPTY, steps).tasks[t].phase.file)
    ensures var s := Run(EMPTY, steps);
            var source, copied := s.tasks[t].phase.file, After(s, Check(t)).tasks[t].phase;
            copied.Writing? ==>
              source in s.rows && 0 <= end <= |s.rows[source].content| && copied.data == s.rows[source].content[..end]
  {
    Reachable(steps);
    var s := Run(EMPTY, steps);
    TaskHolds(s, t);
    if s.tasks[t].phase.file in s.rows {
      FileHolds(s, s.tasks[t].phase.file);
    }
    UndercutExactly(EMPTY, steps, s.tasks[t].phase.file);
    hide Run, Valid, EverUndercut;
  }

  /** A block that fails after its commit takes the content from under an append: what the append
      writes is then all there is, and the beginning is lost. */
  lemma LateFailureLosesTheBeginning(s: State, t: TaskId, u: TaskId, f: FileId)
    requires t < |s.tasks| && u < |s.tasks| && t != u && f in s.rows
    requires s.tasks[t].phase.Stored? && s.tasks[t].phase.file == f && s.tasks[t].phase.committed
    requires s.tasks[u].phase.Appending? && s.tasks[u].phase.file == f && s.tasks[u].phase.data != []
    ensures var data := s.tasks[u].phase.data;
            var after := After(After(s, Fail(t, true)), Extend(u, |data|));
            && f in after.objects && after.objects[f].bytes == data
            && (MissingOrPrefix(after, f) <==> s.rows[f].content <= data)
  {
    var failed := After(s, Fail(t, true));
    assert failed.tasks[u] == s.tasks[u] && f !in failed.objects;
    assert [] + s.tasks[u].phase.data == s.tasks[u].phase.data;
  }

  // ---------------------------------------------------------------- whose objects a failure deletes

  /** What stands at a new file's key is its own task's, or was put there by someone who does not
      track it here: before the task stores anything, that alone. */
  ghost predicate OwnObject(s: State, t: TaskId)
    requires t < |s.tasks|
  {
    match s.tasks[t].phase
    case Writing(f, _) => f in s.objects ==> s.objects[f].maker.None?
    case Copying(_, f, _) => f in s.objects ==> s.objects[f].maker.None?
    case Stored(f, _, _) => f in s.objects ==> s.objects[f].maker.None? || s.objects[f].maker == Some(t)
    case _ => true
  }

  /** Nobody here has made an object under an id that is yet to be drawn. */
  ghost predicate OwnObjects(s: State) {
    && (forall t :: 0 <= t < |s.tasks| ==> OwnObject(s, t))
    && (forall f :: f in s.objects && s.objects[f].maker.Some? ==> f < |s.issued|)
  }

  lemma OwnStepKeepsOwn(s: State, step: Step, t: TaskId)
    requires t < |s.tasks| && OwnObject(s, t) && ValidTask(s, t) && StepOf(step, t)
    requires |s.issued| in s.objects ==> s.objects[|s.issued|].maker.None?
    ensures t < |After(s, step).tasks| && OwnObject(After(s, step), t)
  {
    match step
    case Check(_) => hide Wrote, Cloned, Extended;
    case Write(_, _) => hide Checked, Cloned, Extended;
    case Clone(_, _, _) => hide Checked, Wrote, Extended;
    case Extend(_, _) =>
      hide Checked, Wrote, Cloned, Extended;
      if s.tasks[t].phase.Appending? {
        ExtendedMoves(s, t, s.tasks[t].phase.file, s.tasks[t].phase.data, step.landed);
        ExtendedEnds(s, t, s.tasks[t].phase.file, s.tasks[t].phase.data, step.landed);
      }
    case _ => hide Checked, Wrote, Cloned, Extended;
  }

  lemma ExtendedEnds(s: State, t: TaskId, f: FileId, data: Bytes, landed: nat)
    requires t < |s.tasks|
    ensures Extended(s, t, f, data, landed).tasks[t].phase == if landed < |data| then Ended else Appended(f, data)
  {
    hide BytesAt;
  }

  /** What others do with the object of a file issued to `t`: nothing, remove it, or append to it
      once it is committed; only someone who does not track it here puts one there. */
  lemma OthersKeepMaker(s: State, step: Step, t: TaskId, f: FileId)
    requires IssuedTo(s, f, t) && f !in s.undercut && !StepOf(step, t)
    requires !step.Start? && !step.Ask? && !step.Foreign? && step.task < |s.tasks| ==> ValidTask(s, step.task)
    ensures f in After(s, step).objects ==>
              || After(s, step).objects[f].maker.None?
              || (f in s.objects && After(s, step).objects[f].maker == s.objects[f].maker)
  {
    hide Consistent;
  }

  /** Whoever makes an object makes it under an id that was drawn. */
  lemma MadeUnderDrawn(s: State, step: Step, f: FileId)
    requires Valid(s) && (f in s.objects && s.objects[f].maker.Some? ==> f < |s.issued|)
    ensures f in After(s, step).objects && After(s, step).objects[f].maker.Some? ==> f < |After(s, step).issued|
  {
    if step.Write? || step.Clone? || step.Extend? {
      if step.task < |s.tasks| {
        TaskHolds(s, step.task);
        if step.Extend? && s.tasks[step.task].phase.Appending? {
          FileHolds(s, s.tasks[step.task].phase.file);
        }
      }
    }
    hide Valid, Consistent, BytesAt;
  }

  lemma OneKeepsOwn(s: State, step: Step, t: TaskId)
    requires Valid(s) && OwnObjects(s) && t < |s.tasks|
    ensures t < |After(s, step).tasks| && OwnObject(After(s, step), t)
  {
    TaskHolds(s, t);
    assert OwnObject(s, t);
    if StepOf(step, t) {
      OwnStepKeepsOwn(s, step, t);
    } else {
      OthersLeaveTask(s, step, t);
      if !step.Start? && !step.Ask? && !step.Foreign? && step.task < |s.tasks| {
        TaskHolds(s, step.task);
      }
      hide Valid, OwnObjects;
      var phase := s.tasks[t].phase;
      if phase.Writing? || phase.Copying? || phase.Stored? {
        OthersKeepMaker(s, step, t, phase.file);
      }
      hide After;
    }
  }

  lemma OpenedOwns(s: State, step: Step, t: TaskId)
    requires OwnObjects(s) && |s.tasks| <= t < |After(s, step).tasks|
    ensures OwnObject(After(s, step), t)
  {
    if !step.Start? && !step.Ask? {
      if !step.Foreign? && step.task < |s.tasks| {
        OneTaskMoves(s, step);
        hide After;
      }
      assert false;
    }
  }

  lemma StepKeepsOwn(s: State, step: Step)
    requires Valid(s) && OwnObjects(s)
    ensures OwnObjects(After(s, step))
  {
    var after := After(s, step);
    forall t | 0 <= t < |after.tasks| ensures OwnObject(after, t) {
      if t < |s.tasks| {
        OneKeepsOwn(s, step, t);
      } else {
        OpenedOwns(s, step, t);
      }
    }
    forall f | f in after.objects && after.objects[f].maker.Some? ensures f < |after.issued| {
      MadeUnderDrawn(s, step, f);
    }
  }

  lemma {:induction false} RunKeepsOwn(s: State, steps: seq<Step>)
    requires Valid(s) && OwnObjects(s)
    ensures OwnObjects(Run(s, steps))
    decreases |steps|
  {
    if steps != [] {
      StepKeepsValid(s, steps[0]);
      StepKeepsOwn(s, steps[0]);
      hide Valid, OwnObjects, After;
      RunKeepsOwn(After(s, steps[0]), steps[1..]);
    }
  }

  /** An upload or copy, failing anywhere, leaves alone every object another made; the only ones
      not its own that it may touch stand at the very key it was issued, put there by someone who
      does not track them here, and a write that refuses taken keys touches not even those. */
  lemma FailuresSpareOthers(steps: seq<Step>, step: Step, f: FileId)
    requires step.Write? || step.Clone? || step.Fail?
    requires f in Run(EMPTY, steps).objects && Run(EMPTY, steps).objects[f].maker != Some(step.task)
    ensures var s := Run(EMPTY, steps);
            var after := After(s, step);
            || (f in after.objects && after.objects[f] == s.objects[f])
            || (s.objects[f].maker.None? && IssuedTo(s, f, step.task) && !step.Write?)
  {
    Reachable(steps);
    EmptyIsValid();
    RunKeepsOwn(EMPTY, steps);
    var s := Run(EMPTY, steps);
    if step.task < |s.tasks| {
      assert OwnObject(s, step.task);
      TaskHolds(s, step.task);
    }
    hide Run, Valid;
  }

  /** A copy looks for its target first and copies later. Gone wrong and cleaned up, it deletes an
      object it did not make exactly if one has come to stand at its target since it looked. */
  lemma CopyDeletesAnothersExactly(steps: seq<Step>, t: TaskId)
    requires t < |Run(EMPTY, steps).tasks| && Run(EMPTY, steps).tasks[t].phase.Copying?
    ensures var s := Run(EMPTY, steps);
            var after := After(s, Clone(t, false, None));
            (exists g :: g in s.objects && s.objects[g].maker != Some(t) && g !in after.objects)
            <==> s.tasks[t].phase.file in s.objects
  {
    Reachable(steps);
    EmptyIsValid();
    RunKeepsOwn(EMPTY, steps);
    var s := Run(EMPTY, steps);
    assert OwnObject(s, t);
    var f := s.tasks[t].phase.file;
    var after := After(s, Clone(t, false, None));
    assert f in s.objects ==> s.objects[f].maker != Some(t) && f !in after.objects;
    hide Run, Valid;
  }

  /** And it may come to stand there: nothing keeps others from the key until the copy is made. */
  lemma CopyMayDeleteAnothers(s: State, t: TaskId, bytes: Bytes)
    requires t < |s.tasks| && s.tasks[t].phase.Copying?
    requires s.tasks[t].phase.file !in s.objects && s.tasks[t].phase.file !in s.rows
    ensures var f := s.tasks[t].phase.file;
            var taken := After(s, Foreign(f, bytes));
            && f in taken.objects && taken.objects[f].maker.None?
            && f !in After(taken, Clone(t, false, None)).objects
  {
  }

  // ---------------------------------------------------------------- the manager

  class FileManager {
    var rows: map<FileId, Row>
    var objects: map<FileId, Object>
    var locks: map<FileId, TaskId>
    var tasks: seq<Task>
    ghost var issued: seq<TaskId>
    ghost var undercut: set<FileId>

    constructor ()
      ensures View() == EMPTY
    {
      rows, objects, locks, tasks, issued, undercut := map[], map[], map[], [], [], {};
    }

    ghost function View(): State
      reads this
    {
      State(rows, objects, locks, tasks, issued, undercut)
    }

    method Release(t: TaskId, f: FileId)
      requires t < |tasks|
      modifies `tasks, `locks
      ensures View() == Released(old(View()), t, f)
    {
      tasks := tasks[t := tasks[t].(phase := Ended)];
      locks := locks - {f};
    }

    /** The upload's one write, and what the block below it is given. */
    method Upload(t: TaskId, f: FileId, data: Bytes, written: Option<Bytes>) returns (refused: bool)
      requires t < |tasks| && tasks[t].phase == Writing(f, data)
      modifies `objects, `tasks
      ensures refused <==> f in old(objects)
      ensures View() == After(old(View()), Write(t, written))
    {
      refused := f in objects;
      if refused || written.None? {
        tasks := tasks[t := tasks[t].(phase := Ended)];
        return;
      }
      objects := objects[f := Object(written.value, Some(t))];
      tasks := tasks[t := tasks[t].(phase := if written.value == data then Stored(f, data, false) else Ended)];
    }

    /** The block under an upload or copy raised: its content goes, unless that fails as well. */
    method FailBlock(t: TaskId, cleaned: bool)
      requires t < |tasks| && tasks[t].phase.Stored?
      modifies `objects, `tasks, `undercut
      ensures View() == After(old(View()), Fail(t, cleaned))
    {
      if cleaned {
        var f := tasks[t].phase.file;
        undercut := if tasks[t].phase.committed && BeingAppended(View(), f) then undercut + {f} else undercut;
        objects := objects - {tasks[t].phase.file};
      }
      tasks := tasks[t := tasks[t].(phase := Ended)];
    }

    method CheckAppend(t: TaskId, f: FileId, offset: int, data: Bytes) returns (ready: bool)
      requires t < |tasks| && tasks[t].phase == Holding(f) && tasks[t].goal == Goal.Append(offset, data)
      modifies `tasks, `locks
      ensures ready <==> Consistent(old(View()), f, old(tasks[t].scope)) && old(rows)[f].size == offset && data != []
      ensures View() == After(old(View()), Check(t))
    {
      ready := false;
      if f in rows && rows[f].scope == tasks[t].scope {
        if rows[f].size == offset && f in objects {
          ready := |objects[f].bytes| == rows[f].size && data != [];
        }
      }
      if ready {
        tasks := tasks[t := tasks[t].(phase := Appending(f, data))];
      } else {
        Release(t, f);
      }
    }

    method CommitAppend(t: TaskId, ok: bool)
      requires t < |tasks| && tasks[t].phase.Appended? && tasks[t].phase.file in rows
      modifies `rows, `tasks, `locks
      ensures View() == After(old(View()), CommitSize(t, ok))
    {
      var f, data := tasks[t].phase.file, tasks[t].phase.data;
      if ok {
        rows := rows[f := rows[f].(size := rows[f].size + |data|, content := rows[f].content + data)];
      }
      Release(t, f);
    }

    /** The provider's copy with the cleanup around it. */
    method Copy(t: TaskId, ok: bool, left: Option<Bytes>)
      requires t < |tasks| && tasks[t].phase.Copying?
      modifies `objects, `tasks, `locks
      ensures View() == After(old(View()), Clone(t, ok, left))
    {
      var source, f, size := tasks[t].phase.source, tasks[t].phase.file, tasks[t].phase.size;
      var maker := if f in objects then objects[f].maker else Some(t);
      locks := locks - {source};
      if ok && source in objects {
        var data := objects[source].bytes;
        if |data| == size {
          objects := objects[f := Object(data, maker)];
          tasks := tasks[t := tasks[t].(phase := Stored(f, data, false))];
          return;
        }
      }
      objects := if left.Some? then objects[f := Object(left.value, maker)] else objects - {f};
      tasks := tasks[t := tasks[t].(phase := Ended)];
    }

    /** Never more or less than the row's size says. */
    method Read(f: FileId, scope: Scope) returns (data: Option<Bytes>)
      ensures data == ReadResult(View(), f, scope)
    {
      if f !in rows || rows[f].scope != scope || f !in objects {
        return None;
      }
      if |objects[f].bytes| != rows[f].size {
        return None;
      }
      return Some(objects[f].bytes);
    }

    /** Content goes before the row that tracks it. */
    method Delete(t: TaskId, ok: bool, gone: bool)
      requires t < |tasks| && tasks[t].phase.Deleting?
      modifies `objects, `tasks, `locks
      ensures View() == After(old(View()), RemoveObject(t, ok, gone))
    {
      var f := tasks[t].phase.file;
      if ok || gone {
        objects := objects - {f};
      }
      if ok {
        tasks := tasks[t := tasks[t].(phase := Deleted(f))];
      } else {
        Release(t, f);
      }
    }
  }
}
