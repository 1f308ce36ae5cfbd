/** One reflex a thread: the kicks asked on it, the tasks they start, and the threads awake.
    Every step is what runs between two suspensions of one coroutine, or one callback. */
module Kicks {
  type ThreadKey = string
  type TaskId = nat
  type KickId = nat

  /** Where a reflex's task stands. A `Closing` one has let its thread go and drains its stream.
      A `Failed` one ended before it reached its try block; neither that nor a `Finished` one
      has had its callback run. */
  datatype Phase = Created | Reflecting | Closing | Finished | Failed | Released

  datatype Task = Task(home: ThreadKey, kick: KickId, phase: Phase)

  datatype Progress = Waiting(task: TaskId) | StillAwake | Started(task: TaskId) | Cancelled

  /** `answer`: a deferred response, which waits where every other signal is refused. */
  datatype Kick = Kick(thread: ThreadKey, answer: bool, progress: Progress)

  datatype State = State(awakes: map<ThreadKey, TaskId>, tasks: seq<Task>, kicks: seq<Kick>)

  const ASLEEP := State(map[], [], [])

  datatype Step =
    | Ask(thread: ThreadKey, answer: bool)
    | Resume(kick: KickId)
    | Cancel(kick: KickId)
    | Begin(task: TaskId)
    | FailEarly(task: TaskId)
    | FallAsleep(task: TaskId)
    | Close(task: TaskId)
    | Release(task: TaskId)

  predicate Ended(phase: Phase) {
    phase == Finished || phase == Failed || phase == Released
  }

  /** The phases in which a task has its thread: those before its finally clause, or without one. */
  predicate Awake(phase: Phase) {
    phase == Created || phase == Reflecting || phase == Failed
  }

  predicate At(s: State, t: TaskId, phase: Phase) {
    t < |s.tasks| && s.tasks[t].phase == phase
  }

  /** What a kick meets when it comes to the awake map, from its own entry on. */
  function Met(s: State, thread: ThreadKey, answer: bool): Progress {
    if thread !in s.awakes then Started(|s.tasks|)
    else if answer then Waiting(s.awakes[thread])
    else StillAwake
  }

  function Moved(s: State, t: TaskId, phase: Phase): State
    requires t < |s.tasks|
  {
    s.(tasks := s.tasks[t := s.tasks[t].(phase := phase)])
  }

  function Woken(s: State, k: KickId, kick: Kick): State {
    if kick.progress.Started?
    then s.(awakes := s.awakes[kick.thread := |s.tasks|], tasks := s.tasks + [Task(kick.thread, k, Created)])
    else s
  }

  /** A step that is not due leaves everything as it is. */
  function After(s: State, step: Step): State {
    match step
    case Ask(thread, answer) =>
      var kick := Kick(thread, answer, Met(s, thread, answer));
      Woken(s, |s.kicks|, kick).(kicks := s.kicks + [kick])
    case Resume(k) =>
      if k < |s.kicks| && s.kicks[k].progress.Waiting? && s.kicks[k].progress.task < |s.tasks|
         && Ended(s.tasks[s.kicks[k].progress.task].phase)
      then
        var kick := s.kicks[k].(progress := Met(s, s.kicks[k].thread, s.kicks[k].answer));
        Woken(s, k, kick).(kicks := s.kicks[k := kick])
      else s
    case Cancel(k) =>
      if k < |s.kicks| && s.kicks[k].progress.Waiting?
      then s.(kicks := s.kicks[k := s.kicks[k].(progress := Cancelled)])
      else s
    case Begin(t) => if At(s, t, Created) then Moved(s, t, Reflecting) else s
    case FailEarly(t) => if At(s, t, Created) then Moved(s, t, Failed) else s
    case FallAsleep(t) =>
      if At(s, t, Reflecting) then Moved(s, t, Closing).(awakes := s.awakes - {s.tasks[t].home}) else s
    case Close(t) => if At(s, t, Closing) then Moved(s, t, Finished) else s
    case Release(t) =>
      if At(s, t, Finished) || At(s, t, Failed)
      then Moved(s, t, Released).(awakes := if Holds(s, t) then s.awakes - {s.tasks[t].home} else s.awakes)
      else s
  }

  function Run(s: State, steps: seq<Step>): State
    decreases |steps|
  {
    if steps == [] then s else Run(After(s, steps[0]), steps[1..])
  }

  predicate Holds(s: State, t: TaskId) {
    t < |s.tasks| && s.tasks[t].home in s.awakes && s.awakes[s.tasks[t].home] == t
  }

  /** A reflex goes from its creation into its try block, or fails before; from there to letting its thread
      go, to its end, and to its callback, one after the other. */
  lemma MovesExactly(s: State, t: TaskId)
    requires t < |s.tasks|
    ensures var task := s.tasks[t];
            && After(s, Begin(t)) == (if task.phase == Created then Moved(s, t, Reflecting) else s)
            && After(s, FailEarly(t)) == (if task.phase == Created then Moved(s, t, Failed) else s)
            && After(s, Close(t)) == (if task.phase == Closing then Moved(s, t, Finished) else s)
            && (task.phase != Reflecting ==> After(s, FallAsleep(t)) == s)
            && (task.phase == Reflecting ==>
                  After(s, FallAsleep(t)) == Moved(s, t, Closing).(awakes := s.awakes - {task.home}))
            && (task.phase != Finished && task.phase != Failed ==> After(s, Release(t)) == s)
            && (task.phase == Finished || task.phase == Failed ==>
                  && var after := After(s, Release(t));
                     && after == Moved(s, t, Released).(awakes := after.awakes)
                     && (forall home :: home in after.awakes <==>
                           home in s.awakes && !(home == task.home && s.awakes[home] == t))
                     && (forall home :: home in after.awakes ==> after.awakes[home] == s.awakes[home]))
            && forall phase :: Moved(s, t, phase) == s.(tasks := s.tasks[t := Task(task.home, task.kick, phase)])
  {
  }

  /** A waiting answer comes back to the loop once the task it waits for is over, and no sooner: then it is
      what a kick asked anew would be. Cancelled, it is out of it. */
  lemma WaitsExactly(s: State, k: KickId)
    requires k < |s.kicks| && s.kicks[k].progress.Waiting? && s.kicks[k].progress.task < |s.tasks|
    ensures var kick := s.kicks[k];
            var awaited := s.tasks[kick.progress.task].phase;
            && After(s, Cancel(k)) == s.(kicks := s.kicks[k := kick.(progress := Cancelled)])
            && (awaited == Created || awaited == Reflecting || awaited == Closing ==> After(s, Resume(k)) == s)
            && (awaited == Finished || awaited == Failed || awaited == Released ==>
                  && var resumed, anew := After(s, Resume(k)), After(s, Ask(kick.thread, kick.answer));
                     && resumed.kicks == s.kicks[k := anew.kicks[|s.kicks|]] && resumed.awakes == anew.awakes
                     && |resumed.tasks| == |anew.tasks|
                     && forall t :: 0 <= t < |resumed.tasks| ==>
                          resumed.tasks[t] == if t < |s.tasks| then s.tasks[t] else Task(kick.thread, k, Created))
  {
  }

  /** A kick that is not waiting is not resumed or cancelled. */
  lemma OthersDoNotWait(s: State, k: KickId)
    requires k < |s.kicks| && !s.kicks[k].progress.Waiting?
    ensures After(s, Resume(k)) == s && After(s, Cancel(k)) == s
  {
  }

  // ---------------------------------------------------------------- what every step keeps

  ghost predicate ValidTask(s: State, t: TaskId)
    requires t < |s.tasks|
  {
    var task := s.tasks[t];
    && (Holds(s, t) <==> Awake(task.phase))
    && (task.home in s.awakes ==> t <= s.awakes[task.home])
    && task.kick < |s.kicks|
    && s.kicks[task.kick].thread == task.home
    && s.kicks[task.kick].progress == Started(t)
  }

  ghost predicate ValidKick(s: State, k: KickId)
    requires k < |s.kicks|
  {
    match s.kicks[k].progress
    case Waiting(t) => s.kicks[k].answer && t < |s.tasks| && s.tasks[t].home == s.kicks[k].thread
    case StillAwake => !s.kicks[k].answer
    case Started(t) => t < |s.tasks| && s.tasks[t].kick == k
    case Cancelled => s.kicks[k].answer
  }

  ghost predicate Valid(s: State) {
    && (forall thread :: thread in s.awakes ==>
          s.awakes[thread] < |s.tasks| && s.tasks[s.awakes[thread]].home == thread)
    && (forall t :: 0 <= t < |s.tasks| ==> ValidTask(s, t))
    && (forall k :: 0 <= k < |s.kicks| ==> ValidKick(s, k))
  }

  /** What a kick's look at the map keeps, whether it is its first or it waited before. */
  lemma MeetingKeepsValid(s: State, k: KickId, thread: ThreadKey, answer: bool)
    requires Valid(s) && k <= |s.kicks|
    requires k < |s.kicks| ==> s.kicks[k].progress.Waiting?
    ensures var kick := Kick(thread, answer, Met(s, thread, answer));
            Valid(Woken(s, k, kick).(kicks := if k < |s.kicks| then s.kicks[k := kick] else s.kicks + [kick]))
  {
    var kick := Kick(thread, answer, Met(s, thread, answer));
    var after := Woken(s, k, kick).(kicks := if k < |s.kicks| then s.kicks[k := kick] else s.kicks + [kick]);
    forall t | 0 <= t < |after.tasks| ensures ValidTask(after, t) {
      assert t < |s.tasks| ==> ValidTask(s, t);
    }
    forall j | 0 <= j < |after.kicks| ensures ValidKick(after, j) {
      assert j < |s.kicks| ==> ValidKick(s, j);
    }
  }

  lemma CancelKeepsValid(s: State, k: KickId)
    requires Valid(s)
    ensures Valid(After(s, Cancel(k)))
  {
    var after := After(s, Cancel(k));
    forall t | 0 <= t < |after.tasks| ensures ValidTask(after, t) {
      assert ValidTask(s, t);
    }
    forall j | 0 <= j < |after.kicks| ensures ValidKick(after, j) {
      assert ValidKick(s, j);
    }
  }

  /** A task's own steps change its phase, and take its thread's entry out with it or not at all. */
  lemma MoveKeepsValid(s: State, t: TaskId, phase: Phase)
    requires Valid(s) && t < |s.tasks|
    requires Awake(phase) ==> Holds(s, t)
    ensures var thread := s.tasks[t].home;
            Valid(Moved(s, t, phase).(awakes := if !Awake(phase) && Holds(s, t) then s.awakes - {thread} else s.awakes))
  {
    var thread := s.tasks[t].home;
    var after := Moved(s, t, phase).(awakes := if !Awake(phase) && Holds(s, t) then s.awakes - {thread} else s.awakes);
    forall u | 0 <= u < |after.tasks| ensures ValidTask(after, u) {
      assert ValidTask(s, u) && ValidTask(s, t);
    }
    forall k | 0 <= k < |after.kicks| ensures ValidKick(after, k) {
      assert ValidKick(s, k);
    }
  }

  lemma ValidHas(s: State, t: TaskId)
    requires Valid(s) && t < |s.tasks|
    ensures ValidTask(s, t)
  {
  }

  lemma StepKeepsValid(s: State, step: Step)
    requires Valid(s)
    ensures Valid(After(s, step))
  {
    hide Valid, Met, Woken;
    match step
    case Ask(thread, answer) => MeetingKeepsValid(s, |s.kicks|, thread, answer);
    case Resume(k) =>
      if After(s, step) != s {
        MeetingKeepsValid(s, k, s.kicks[k].thread, s.kicks[k].answer);
      }
    case Cancel(k) => CancelKeepsValid(s, k);
    case _ =>
      if After(s, step) != s {
        assert ValidTask(s, step.task) by { ValidHas(s, step.task); }
        MoveKeepsValid(s, step.task, After(s, step).tasks[step.task].phase);
      }
  }

  lemma {:induction false} RunKeepsValid(s: State, steps: seq<Step>)
    requires Valid(s)
    ensures Valid(Run(s, steps))
    decreases |steps|
  {
    if steps != [] {
      StepKeepsValid(s, steps[0]);
      RunKeepsValid(After(s, steps[0]), steps[1..]);
    }
  }

  // ---------------------------------------------------------------- one reflex a thread

  /** Whatever happened, no two tasks of a thread reflect at once: when a later one was made,
      the earlier had already let the thread go. */
  lemma OneReflexAThread(steps: seq<Step>, earlier: TaskId, later: TaskId)
    ensures var s := Run(ASLEEP, steps);
            earlier < later < |s.tasks| && s.tasks[earlier].home == s.tasks[later].home ==>
              !Awake(s.tasks[earlier].phase)
  {
    RunKeepsValid(ASLEEP, steps);
    var s := Run(ASLEEP, steps);
    if earlier < later < |s.tasks| && s.tasks[earlier].home == s.tasks[later].home {
      assert ValidTask(s, earlier) && ValidTask(s, later);
    }
  }

  /** A thread is awake exactly as long as a task of its own has yet to let it go. */
  lemma AwakeExactly(steps: seq<Step>, thread: ThreadKey)
    ensures var s := Run(ASLEEP, steps);
            thread in s.awakes <==>
              exists t :: 0 <= t < |s.tasks| && s.tasks[t].home == thread && Awake(s.tasks[t].phase)
  {
    RunKeepsValid(ASLEEP, steps);
    var s := Run(ASLEEP, steps);
    if thread in s.awakes {
      assert ValidTask(s, s.awakes[thread]);
    }
    forall t | 0 <= t < |s.tasks| && s.tasks[t].home == thread && Awake(s.tasks[t].phase)
      ensures thread in s.awakes
    {
      assert ValidTask(s, t);
    }
  }

  /** No thread stays awake behind tasks that are all over. */
  lemma NothingLeftAwake(steps: seq<Step>)
    ensures var s := Run(ASLEEP, steps);
            (forall t :: 0 <= t < |s.tasks| ==> s.tasks[t].phase == Released) ==> s.awakes == map[]
  {
    var s := Run(ASLEEP, steps);
    if forall t :: 0 <= t < |s.tasks| ==> s.tasks[t].phase == Released {
      forall thread | thread in s.awakes ensures false {
        AwakeExactly(steps, thread);
      }
    }
  }

  /** A task's place in the map goes only by a step of its own: no other's late callback, nor
      any other's finally clause, takes a successor out. */
  lemma OnlyItsOwnStepLetsGo(steps: seq<Step>, step: Step, t: TaskId)
    requires var s := Run(ASLEEP, steps); Holds(s, t) && !Holds(After(s, step), t)
    ensures step == FallAsleep(t) || step == Release(t)
  {
    RunKeepsValid(ASLEEP, steps);
    var s := Run(ASLEEP, steps);
    assert ValidTask(s, t);
    if step.FallAsleep? && At(s, step.task, Reflecting) {
      assert ValidTask(s, step.task);
    }
  }

  // ---------------------------------------------------------------- what becomes of a kick

  ghost predicate Asks(s: State, after: State, k: KickId) {
    k < |s.kicks| && k < |after.kicks|
    && after.kicks[k].thread == s.kicks[k].thread && after.kicks[k].answer == s.kicks[k].answer
    && (!s.kicks[k].progress.Waiting? ==> after.kicks[k].progress == s.kicks[k].progress)
  }

  lemma {:induction false} KickIsDecidedOnce(s: State, steps: seq<Step>, k: KickId)
    requires k < |s.kicks|
    ensures Asks(s, Run(s, steps), k)
    decreases |steps|
  {
    if steps != [] {
      KickIsDecidedOnce(After(s, steps[0]), steps[1..], k);
    }
  }

  /** For good: a kick is refused exactly when it is no answer and found the thread awake. */
  lemma RefusedExactly(before: seq<Step>, thread: ThreadKey, answer: bool, later: seq<Step>)
    ensures var s := Run(ASLEEP, before);
            var end := Run(After(s, Ask(thread, answer)), later);
            |s.kicks| < |end.kicks|
            && (end.kicks[|s.kicks|].progress == StillAwake <==> !answer && thread in s.awakes)
  {
    var s := Run(ASLEEP, before);
    RunKeepsValid(ASLEEP, before);
    StepKeepsValid(s, Ask(thread, answer));
    var next := After(s, Ask(thread, answer));
    RunKeepsValid(next, later);
    KickIsDecidedOnce(next, later, |s.kicks|);
    assert ValidKick(Run(next, later), |s.kicks|);
  }

  /** Every task was started by one kick, on its thread, and no kick started two. */
  lemma EveryTaskHasItsKick(steps: seq<Step>, t: TaskId)
    ensures var s := Run(ASLEEP, steps);
            t < |s.tasks| ==>
              && s.tasks[t].kick < |s.kicks| && s.kicks[s.tasks[t].kick].thread == s.tasks[t].home
              && forall k :: 0 <= k < |s.kicks| ==> (s.kicks[k].progress == Started(t) <==> k == s.tasks[t].kick)
  {
    RunKeepsValid(ASLEEP, steps);
    var s := Run(ASLEEP, steps);
    if t < |s.tasks| {
      assert ValidTask(s, t);
      forall k | 0 <= k < |s.kicks| && s.kicks[k].progress == Started(t) ensures k == s.tasks[t].kick {
        assert ValidKick(s, k);
      }
    }
  }

  /** The way out for a waiting answer: the reflex in its way ends, however far it is. */
  function Way(s: State, k: KickId): seq<Step>
    requires k < |s.kicks| && s.kicks[k].progress.Waiting?
  {
    var awaited := s.kicks[k].progress.task;
    var awake := if s.kicks[k].thread in s.awakes then s.awakes[s.kicks[k].thread] else awaited;
    [FailEarly(awake), FallAsleep(awake), Release(awake), Close(awaited), Resume(k)]
  }

  lemma {:induction false} RunOn(s: State, first: seq<Step>, rest: seq<Step>)
    ensures Run(s, first + rest) == Run(Run(s, first), rest)
    decreases |first|
  {
    if first == [] {
      assert first + rest == rest;
    } else {
      assert (first + rest)[1..] == first[1..] + rest;
      RunOn(After(s, first[0]), first[1..], rest);
    }
  }

  /** The reflex in the way falls asleep, or fails, and its callback runs. */
  lemma ThreadIsLetGo(s: State, t: TaskId)
    requires Valid(s) && t < |s.tasks|
    ensures var after := Run(s, [FailEarly(t), FallAsleep(t), Release(t)]);
            && after.kicks == s.kicks && |after.tasks| == |s.tasks|
            && after.awakes == (if Holds(s, t) then s.awakes - {s.tasks[t].home} else s.awakes)
            && (forall u :: 0 <= u < |s.tasks| && u != t ==> after.tasks[u] == s.tasks[u])
            && (after.tasks[t].phase == Closing || Ended(after.tasks[t].phase))
  {
    assert ValidTask(s, t);
    var steps := [FailEarly(t), FallAsleep(t), Release(t)];
    assert steps[1..] == [FallAsleep(t), Release(t)] && steps[1..][1..] == [Release(t)];
    var a := After(s, steps[0]);
    var b := After(a, steps[1]);
    assert Run(b, [Release(t)]) == After(b, Release(t));
  }

  lemma AwaitedEnds(s: State, k: KickId)
    requires k < |s.kicks| && s.kicks[k].progress.Waiting? && s.kicks[k].progress.task < |s.tasks|
    requires s.kicks[k].thread !in s.awakes
    requires var phase := s.tasks[s.kicks[k].progress.task].phase; phase == Closing || Ended(phase)
    ensures var after := Run(s, [Close(s.kicks[k].progress.task), Resume(k)]);
            |after.kicks| == |s.kicks| && after.kicks[k].progress == Started(|s.tasks|)
  {
    var steps := [Close(s.kicks[k].progress.task), Resume(k)];
    assert steps[1..] == [Resume(k)];
    var a := After(s, steps[0]);
    assert Run(a, [Resume(k)]) == After(a, Resume(k));
  }

  /** No answer waits on something that cannot come: from wherever a run got to, its thread's
      reflex ending is enough to start it. */
  lemma AnswersCanAlwaysStart(steps: seq<Step>, k: KickId)
    requires var s := Run(ASLEEP, steps); k < |s.kicks| && s.kicks[k].progress.Waiting?
    ensures var s := Run(ASLEEP, steps);
            var after := Run(s, Way(s, k));
            |after.kicks| == |s.kicks| && after.kicks[k].progress == Started(|s.tasks|)
  {
    RunKeepsValid(ASLEEP, steps);
    var s := Run(ASLEEP, steps);
    hide Run;
    var way := Way(s, k);
    var awake, awaited := way[0].task, way[3].task;
    assert ValidKick(s, k) && ValidTask(s, awake) && ValidTask(s, awaited);
    ThreadIsLetGo(s, awake);
    var cleared := Run(s, [FailEarly(awake), FallAsleep(awake), Release(awake)]);
    AwaitedEnds(cleared, k);
    assert way == [FailEarly(awake), FallAsleep(awake), Release(awake)] + [Close(awaited), Resume(k)];
    RunOn(s, [FailEarly(awake), FallAsleep(awake), Release(awake)], [Close(awaited), Resume(k)]);
  }

  // ---------------------------------------------------------------- the host

  class Octomate {
    var awakes: map<ThreadKey, TaskId>
    var tasks: seq<Task>
    var kicks: seq<Kick>

    constructor ()
      ensures View() == ASLEEP && Sound()
    {
      awakes, tasks, kicks := map[], [], [];
    }

    ghost function View(): State
      reads this
    {
      State(awakes, tasks, kicks)
    }

    ghost predicate Sound()
      reads this
    {
      Valid(View())
    }

    /** From the loop on: an answer waits for the task awake on the thread, everything else is
        refused there, and where none is a task is made and put in the map. */
    method Meet(k: KickId, thread: ThreadKey, answer: bool) returns (progress: Progress)
      modifies `awakes, `tasks
      ensures progress == Met(old(View()), thread, answer)
      ensures State(awakes, tasks, old(kicks)) == Woken(old(View()), k, Kick(thread, answer, progress))
    {
      if answer && thread in awakes {
        return Waiting(awakes[thread]);
      }
      if thread in awakes {
        return StillAwake;
      }
      progress := Started(|tasks|);
      awakes := awakes[thread := |tasks|];
      tasks := tasks + [Task(thread, k, Created)];
    }

    method Ask(thread: ThreadKey, answer: bool) returns (progress: Progress)
      requires Sound()
      modifies this
      ensures progress == Met(old(View()), thread, answer)
      ensures View() == After(old(View()), Step.Ask(thread, answer)) && Sound()
    {
      StepKeepsValid(View(), Step.Ask(thread, answer));
      progress := Meet(|kicks|, thread, answer);
      kicks := kicks + [Kick(thread, answer, progress)];
    }

    /** The awaited task is over: back to the head of the loop. */
    method Resume(k: KickId)
      requires Sound()
      requires k < |kicks| && kicks[k].progress.Waiting?
      requires kicks[k].progress.task < |tasks| && Ended(tasks[kicks[k].progress.task].phase)
      modifies this
      ensures View() == After(old(View()), Step.Resume(k)) && Sound()
    {
      StepKeepsValid(View(), Step.Resume(k));
      var progress := Meet(k, kicks[k].thread, kicks[k].answer);
      kicks := kicks[k := kicks[k].(progress := progress)];
    }

    /** The finally clause deletes the thread's entry without looking: it is always there, and
        always this task's. */
    method FallAsleep(t: TaskId)
      requires Sound() && At(View(), t, Reflecting)
      modifies this
      ensures old(tasks[t].home in awakes && awakes[tasks[t].home] == t)
      ensures View() == After(old(View()), Step.FallAsleep(t)) && Sound()
    {
      StepKeepsValid(View(), Step.FallAsleep(t));
      assert ValidTask(View(), t);
      awakes := awakes - {tasks[t].home};
      tasks := tasks[t := tasks[t].(phase := Closing)];
    }

    method Release(t: TaskId)
      requires Sound() && (At(View(), t, Finished) || At(View(), t, Failed))
      modifies this
      ensures View() == After(old(View()), Step.Release(t)) && Sound()
    {
      StepKeepsValid(View(), Step.Release(t));
      var thread := tasks[t].home;
      if thread in awakes && awakes[thread] == t {
        awakes := awakes - {thread};
      }
      tasks := tasks[t := tasks[t].(phase := Released)];
    }
  }
}
