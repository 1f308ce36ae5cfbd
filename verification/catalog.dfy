/** Command catalogs: one cached entry a key, filled by probes that lookups share, cancel and
    discard. Every step runs between two suspensions of one coroutine, or is one callback. */
module Catalogs {
  import opened Wrappers

  type TaskId = nat
  type CallId = nat

  /** `revision` stands for everything of the conversation that a catalog does not depend on. */
  datatype Talk = Talk(id: nat, externalId: Option<string>, revision: nat)

  datatype Context = Context(
    agent: string, user: string, address: string, cwd: Option<string>, talk: Option<Talk>,
    model: Option<string>, permissionMode: Option<string>)

  datatype Key = Key(user: string, agent: string, talk: Option<nat>)

  function KeyOf(context: Context): Key {
    Key(context.user, context.agent, if context.talk.Some? then Some(context.talk.value.id) else None)
  }

  predicate Matches(a: Context, b: Context) {
    && a.agent == b.agent && a.user == b.user && a.address == b.address && a.cwd == b.cwd
    && a.model == b.model && a.permissionMode == b.permissionMode
    && (|| (a.talk.None? && b.talk.None?)
        || (a.talk.Some? && b.talk.Some? && a.talk.value.id == b.talk.value.id
            && a.talk.value.externalId == b.talk.value.externalId))
  }

  /** Contexts match if they differ in nothing but the conversation's revision. */
  lemma MatchingIsAnEquivalence(a: Context, b: Context, c: Context)
    ensures Matches(a, a) && (Matches(a, b) ==> Matches(b, a)) && (Matches(a, b) && Matches(b, c) ==> Matches(a, c))
    ensures Matches(a, b) ==> KeyOf(a) == KeyOf(b)
    ensures Matches(a, b) <==>
              && b == a.(talk := b.talk) && (a.talk.Some? <==> b.talk.Some?)
              && (a.talk.Some? ==> b.talk.value == a.talk.value.(revision := b.talk.value.revision))
  {
  }

  datatype Status = Ready | Loading | Unsupported | Unavailable | Failing

  datatype Catalog = Catalog(context: Context, status: Status, descriptors: set<string>)

  /** A stored catalog, by identity: the placeholder its probe began with, or what that probe found. */
  datatype Entry = Entry(task: TaskId, placeholder: bool, catalog: Catalog)

  datatype Phase = Running | Returned(catalog: Catalog) | Cancelled

  datatype Probe = Probe(context: Context, cancelling: bool, phase: Phase, released: bool)

  datatype Stage =
    Sharing(task: TaskId) | Draining(task: TaskId) | Answered(task: TaskId, catalog: Catalog) | Raised | Gone

  datatype Call = Call(context: Context, refresh: bool, stage: Stage)

  datatype State = State(catalogs: map<Key, Entry>, probes: map<Key, TaskId>, tasks: seq<Probe>, calls: seq<Call>)

  const EMPTY := State(map[], map[], [], [])

  /** How an agent's own discovery ends: with a catalog, with an error or its timeout, or cancelled. */
  datatype Discovery = Found(catalog: Catalog) | Errored | Interrupted

  datatype Step =
    | Discover(context: Context, refresh: bool)
    | Resume(call: CallId)
    | Quit(call: CallId)
    | Finish(task: TaskId, discovery: Discovery)
    | NeverStart(task: TaskId)
    | Release(task: TaskId)
    | Invalidate(agent: Option<string>, talk: Option<nat>)
    | Evict(key: Key)
    | Cancel(task: TaskId)

  function Placeholder(t: TaskId, context: Context): Entry {
    Entry(t, true, Catalog(context, Loading, {}))
  }

  predicate Unfinished(s: State, t: TaskId) {
    t < |s.tasks| && s.tasks[t].phase.Running?
  }

  /** The probe a key has under way. */
  predicate Busy(s: State, key: Key) {
    key in s.probes && Unfinished(s, s.probes[key])
  }

  predicate Fits(s: State, context: Context) {
    KeyOf(context) in s.catalogs && Matches(s.catalogs[KeyOf(context)].catalog.context, context)
  }

  /** One pass of the lookup's loop, to where it suspends or returns. */
  function Looked(s: State, context: Context, refresh: bool): Stage {
    var key := KeyOf(context);
    if Fits(s, context) && Busy(s, key) then Sharing(s.probes[key])
    else if Fits(s, context) && !refresh && s.catalogs[key].catalog.status != Loading
      && s.catalogs[key].catalog.status != Failing
    then Answered(s.catalogs[key].task, s.catalogs[key].catalog)
    else if Busy(s, key) then Draining(s.probes[key])
    else Sharing(|s.tasks|)
  }

  /** What that pass does to the two maps: a probe of another context is cancelled, and where
      none is under way a new one starts with its placeholder stored. */
  function Probed(s: State, context: Context, refresh: bool): State {
    var key := KeyOf(context);
    match Looked(s, context, refresh)
    case Draining(t) =>
      if t < |s.tasks|
      then s.(catalogs := s.catalogs - {key}, tasks := s.tasks[t := s.tasks[t].(cancelling := true)])
      else s
    case Sharing(t) =>
      if t != |s.tasks| then s
      else s.(catalogs := s.catalogs[key := Placeholder(t, context)], probes := s.probes[key := t],
              tasks := s.tasks + [Probe(context, false, Running, false)])
    case _ => s
  }

  /** The catalog a probe ends with, before it knows whether it still stands for its key. */
  function Outcome(context: Context, discovery: Discovery): Catalog {
    if discovery.Found? && Matches(discovery.catalog.context, context) then discovery.catalog
    else Catalog(context, Failing, {})
  }

  /** The probe stores what it found only while its own placeholder is what is stored. */
  function Finished(s: State, t: TaskId, discovery: Discovery): State
    requires t < |s.tasks|
  {
    var context := s.tasks[t].context;
    var key := KeyOf(context);
    var current := key in s.catalogs && s.catalogs[key] == Placeholder(t, context);
    if !current then s.(tasks := s.tasks[t := s.tasks[t].(phase := Returned(Catalog(context, Loading, {})))])
    else if discovery.Interrupted? then s.(tasks := s.tasks[t := s.tasks[t].(phase := Cancelled)])
    else
      var catalog := Outcome(context, discovery);
      s.(tasks := s.tasks[t := s.tasks[t].(phase := Returned(catalog))],
         catalogs := s.catalogs[key := Entry(t, false, catalog)])
  }

  predicate Concerns(key: Key, agent: Option<string>, talk: Option<nat>) {
    && (agent.Some? ==> key.agent == agent.value)
    && (talk.Some? ==> key.talk == talk)
  }

  function Kept(catalogs: map<Key, Entry>, agent: Option<string>, talk: Option<nat>): map<Key, Entry> {
    map key | key in catalogs && !Concerns(key, agent, talk) :: catalogs[key]
  }

  function After(s: State, step: Step): State {
    match step
    case Discover(context, refresh) =>
      Probed(s, context, refresh).(calls := s.calls + [Call(context, refresh, Looked(s, context, refresh))])
    case Resume(c) =>
      if c >= |s.calls| then s
      else (match s.calls[c].stage
            case Sharing(t) =>
              if t >= |s.tasks| || Unfinished(s, t) then s
              else s.(calls := s.calls[c := s.calls[c].(stage :=
                          if s.tasks[t].phase.Returned? then Answered(t, s.tasks[t].phase.catalog) else Raised)])
            case Draining(t) =>
              if t >= |s.tasks| || Unfinished(s, t) then s
              else
                var call := s.calls[c];
                Probed(s, call.context, call.refresh)
                .(calls := s.calls[c := call.(stage := Looked(s, call.context, call.refresh))])
            case _ => s)
    case Quit(c) =>
      if c < |s.calls| && (s.calls[c].stage.Sharing? || s.calls[c].stage.Draining?)
      then s.(calls := s.calls[c := s.calls[c].(stage := Gone)])
      else s
    case Finish(t, discovery) => if Unfinished(s, t) then Finished(s, t, discovery) else s
    case NeverStart(t) =>
      if Unfinished(s, t) && s.tasks[t].cancelling
      then s.(tasks := s.tasks[t := s.tasks[t].(phase := Cancelled)])
      else s
    case Release(t) =>
      if t >= |s.tasks| || Unfinished(s, t) || s.tasks[t].released then s
      else
        var key := KeyOf(s.tasks[t].context);
        s.(tasks := s.tasks[t := s.tasks[t].(released := true)],
           probes := if key in s.probes && s.probes[key] == t then s.probes - {key} else s.probes)
    case Invalidate(agent, talk) => s.(catalogs := Kept(s.catalogs, agent, talk))
    case Evict(key) => s.(catalogs := s.catalogs - {key})
    case Cancel(t) => if Unfinished(s, t) then s.(tasks := s.tasks[t := s.tasks[t].(cancelling := true)]) else s
  }

  function Run(s: State, steps: seq<Step>): State
    decreases |steps|
  {
    if steps == [] then s else Run(After(s, steps[0]), steps[1..])
  }

  // ---------------------------------------------------------------- what every step keeps

  ghost predicate ValidTask(s: State, t: TaskId)
    requires t < |s.tasks|
  {
    var task := s.tasks[t];
    && (task.phase.Running? ==> !task.released && KeyOf(task.context) in s.probes && s.probes[KeyOf(task.context)] == t)
    && (task.phase.Returned? ==> Matches(task.phase.catalog.context, task.context))
  }

  ghost predicate ValidEntry(s: State, key: Key)
    requires key in s.catalogs
  {
    var entry := s.catalogs[key];
    && entry.task < |s.tasks|
    && KeyOf(s.tasks[entry.task].context) == key
    && Matches(entry.catalog.context, s.tasks[entry.task].context)
    && (if entry.placeholder then entry == Placeholder(entry.task, s.tasks[entry.task].context)
        else s.tasks[entry.task].phase == Returned(entry.catalog))
    && (Busy(s, key) ==> entry.placeholder && s.probes[key] == entry.task)
  }

  /** A call shares or was answered by a probe of a context that matches its own. */
  ghost predicate StageFits(s: State, context: Context, stage: Stage) {
    match stage
    case Sharing(t) => t < |s.tasks| && Matches(s.tasks[t].context, context)
    case Draining(t) => t < |s.tasks|
    case Answered(t, catalog) =>
      t < |s.tasks| && Matches(s.tasks[t].context, context) && s.tasks[t].phase == Returned(catalog)
    case _ => true
  }

  ghost predicate ValidCall(s: State, c: CallId)
    requires c < |s.calls|
  {
    StageFits(s, s.calls[c].context, s.calls[c].stage)
  }

  ghost predicate Valid(s: State) {
    && (forall key :: key in s.probes ==> s.probes[key] < |s.tasks| && KeyOf(s.tasks[s.probes[key]].context) == key)
    && (forall t :: 0 <= t < |s.tasks| ==> ValidTask(s, t))
    && (forall key :: key in s.catalogs ==> ValidEntry(s, key))
    && (forall c :: 0 <= c < |s.calls| ==> ValidCall(s, c))
  }

  /** Calls added or changed do not matter to the rest. */
  lemma CallsApart(s: State, calls: seq<Call>)
    requires Valid(s)
    requires forall c :: 0 <= c < |calls| ==> ValidCall(s.(calls := calls), c)
    ensures Valid(s.(calls := calls))
  {
    hide Matches, KeyOf;
    var after := s.(calls := calls);
    forall t | 0 <= t < |after.tasks| ensures ValidTask(after, t) {
      assert ValidTask(s, t);
    }
    forall key | key in after.catalogs ensures ValidEntry(after, key) {
      assert ValidEntry(s, key);
    }
  }

  lemma DropKeepsValid(s: State, catalogs: map<Key, Entry>)
    requires Valid(s)
    requires forall key :: key in catalogs ==> key in s.catalogs && catalogs[key] == s.catalogs[key]
    ensures Valid(s.(catalogs := catalogs))
  {
    hide Matches, KeyOf;
    var after := s.(catalogs := catalogs);
    forall t | 0 <= t < |after.tasks| ensures ValidTask(after, t) {
      assert ValidTask(s, t);
    }
    forall key | key in after.catalogs ensures ValidEntry(after, key) {
      assert ValidEntry(s, key);
    }
    forall c | 0 <= c < |after.calls| ensures ValidCall(after, c) {
      assert ValidCall(s, c);
    }
  }

  lemma CancelKeepsValid(s: State, t: TaskId)
    requires Valid(s) && t < |s.tasks|
    ensures Valid(s.(tasks := s.tasks[t := s.tasks[t].(cancelling := true)]))
  {
    hide Matches, KeyOf;
    var after := s.(tasks := s.tasks[t := s.tasks[t].(cancelling := true)]);
    forall u | 0 <= u < |after.tasks| ensures ValidTask(after, u) {
      assert ValidTask(s, u);
    }
    forall key | key in after.catalogs ensures ValidEntry(after, key) {
      assert ValidEntry(s, key);
    }
    forall c | 0 <= c < |after.calls| ensures ValidCall(after, c) {
      assert ValidCall(s, c);
    }
  }

  lemma StartKeepsValid(s: State, context: Context)
    requires Valid(s) && !Busy(s, KeyOf(context))
    ensures var key, t := KeyOf(context), |s.tasks|;
            Valid(s.(catalogs := s.catalogs[key := Placeholder(t, context)], probes := s.probes[key := t],
                     tasks := s.tasks + [Probe(context, false, Running, false)]))
  {
    hide KeyOf, Matches;
    MatchingIsAnEquivalence(context, context, context);
    var key, t := KeyOf(context), |s.tasks|;
    var after := s.(catalogs := s.catalogs[key := Placeholder(t, context)], probes := s.probes[key := t],
                    tasks := s.tasks + [Probe(context, false, Running, false)]);
    forall u | 0 <= u < |after.tasks| ensures ValidTask(after, u) {
      assert u < |s.tasks| ==> ValidTask(s, u);
    }
    forall k | k in after.catalogs ensures ValidEntry(after, k) {
      assert k != key ==> ValidEntry(s, k);
    }
    forall c | 0 <= c < |after.calls| ensures ValidCall(after, c) {
      assert ValidCall(s, c);
    }
  }

  /** The pass leaves a stage that fits the caller's context. */
  lemma ProbedKeepsValid(s: State, context: Context, refresh: bool)
    requires Valid(s)
    ensures var after := Probed(s, context, refresh);
            && Valid(after) && after.calls == s.calls && |s.tasks| <= |after.tasks|
            && (forall t :: 0 <= t < |s.tasks| ==>
            after.tasks[t].context == s.tasks[t].context && after.tasks[t].phase == s.tasks[t].phase)
            && StageFits(after, context, Looked(s, context, refresh))
  {
    var key := KeyOf(context);
    if key in s.catalogs {
      assert ValidEntry(s, key);
    }
    match Looked(s, context, refresh)
    case Draining(t) =>
      DropKeepsValid(s, s.catalogs - {key});
      CancelKeepsValid(s.(catalogs := s.catalogs - {key}), t);
    case Sharing(t) =>
      if t == |s.tasks| {
        StartKeepsValid(s, context);
      } else {
        assert Fits(s, context);
      }
    case _ =>
  }

  lemma FinishKeepsValid(s: State, t: TaskId, phase: Phase)
    requires Valid(s) && Unfinished(s, t) && !phase.Running?
    requires phase.Returned? ==> Matches(phase.catalog.context, s.tasks[t].context)
    ensures Valid(s.(tasks := s.tasks[t := s.tasks[t].(phase := phase)]))
  {
    hide Matches, KeyOf;
    var after := s.(tasks := s.tasks[t := s.tasks[t].(phase := phase)]);
    forall u | 0 <= u < |after.tasks| ensures ValidTask(after, u) {
      assert ValidTask(s, u);
    }
    forall key | key in after.catalogs ensures ValidEntry(after, key) {
      assert ValidEntry(s, key);
    }
    forall c | 0 <= c < |after.calls| ensures ValidCall(after, c) {
      assert ValidCall(s, c);
    }
  }

  lemma StoreKeepsValid(s: State, t: TaskId, catalog: Catalog)
    requires Valid(s) && t < |s.tasks| && s.tasks[t].phase == Returned(catalog)
    requires !Busy(s, KeyOf(s.tasks[t].context))
    ensures Valid(s.(catalogs := s.catalogs[KeyOf(s.tasks[t].context) := Entry(t, false, catalog)]))
  {
    hide Matches, KeyOf;
    var key := KeyOf(s.tasks[t].context);
    var after := s.(catalogs := s.catalogs[key := Entry(t, false, catalog)]);
    assert ValidTask(s, t);
    forall u | 0 <= u < |after.tasks| ensures ValidTask(after, u) {
      assert ValidTask(s, u);
    }
    forall k | k in after.catalogs ensures ValidEntry(after, k) {
      assert k != key ==> ValidEntry(s, k);
    }
    forall c | 0 <= c < |after.calls| ensures ValidCall(after, c) {
      assert ValidCall(s, c);
    }
  }

  lemma FinishedKeepsValid(s: State, t: TaskId, discovery: Discovery)
    requires Valid(s) && Unfinished(s, t)
    ensures Valid(Finished(s, t, discovery))
  {
    var context := s.tasks[t].context;
    var key := KeyOf(context);
    assert ValidTask(s, t);
    var current := key in s.catalogs && s.catalogs[key] == Placeholder(t, context);
    var phase := if !current then Returned(Catalog(context, Loading, {}))
                 else if discovery.Interrupted? then Cancelled
                 else Returned(Outcome(context, discovery));
    FinishKeepsValid(s, t, phase);
    if current && !discovery.Interrupted? {
      StoreKeepsValid(s.(tasks := s.tasks[t := s.tasks[t].(phase := phase)]), t, phase.catalog);
    }
  }

  lemma ReleaseKeepsValid(s: State, t: TaskId)
    requires Valid(s) && t < |s.tasks| && !Unfinished(s, t)
    ensures var key := KeyOf(s.tasks[t].context);
            Valid(s.(tasks := s.tasks[t := s.tasks[t].(released := true)],
                     probes := if key in s.probes && s.probes[key] == t then s.probes - {key} else s.probes))
  {
    hide Matches, KeyOf;
    var key := KeyOf(s.tasks[t].context);
    var after := s.(tasks := s.tasks[t := s.tasks[t].(released := true)],
                    probes := if key in s.probes && s.probes[key] == t then s.probes - {key} else s.probes);
    forall u | 0 <= u < |after.tasks| ensures ValidTask(after, u) {
      assert ValidTask(s, u);
    }
    forall k | k in after.catalogs ensures ValidEntry(after, k) {
      assert ValidEntry(s, k);
    }
    forall c | 0 <= c < |after.calls| ensures ValidCall(after, c) {
      assert ValidCall(s, c);
    }
  }

  lemma LookKeepsValid(s: State, c: CallId, context: Context, refresh: bool)
    requires Valid(s) && c <= |s.calls|
    ensures var call := Call(context, refresh, Looked(s, context, refresh));
            Valid(Probed(s, context, refresh).(calls := if c < |s.calls| then s.calls[c := call] else s.calls + [call]))
  {
    var probed := Probed(s, context, refresh);
    var call := Call(context, refresh, Looked(s, context, refresh));
    ProbedKeepsValid(s, context, refresh);
    hide Probed, Looked;
    var calls := if c < |s.calls| then s.calls[c := call] else s.calls + [call];
    forall d | 0 <= d < |calls| ensures ValidCall(probed.(calls := calls), d) {
      assert d < |s.calls| ==> ValidCall(s, d);
    }
    CallsApart(probed, calls);
  }

  lemma SettleKeepsValid(s: State, c: CallId, stage: Stage)
    requires Valid(s) && c < |s.calls| && StageFits(s, s.calls[c].context, stage)
    ensures Valid(s.(calls := s.calls[c := s.calls[c].(stage := stage)]))
  {
    hide Matches, KeyOf;
    var calls := s.calls[c := s.calls[c].(stage := stage)];
    forall d | 0 <= d < |calls| ensures ValidCall(s.(calls := calls), d) {
      assert ValidCall(s, d);
    }
    CallsApart(s, calls);
  }

  lemma ResumeKeepsValid(s: State, c: CallId)
    requires Valid(s)
    ensures Valid(After(s, Resume(c)))
  {
    if c < |s.calls| {
      assert ValidCall(s, c);
      match s.calls[c].stage
      case Sharing(t) =>
        if !Unfinished(s, t) {
          assert ValidTask(s, t);
          hide Valid;
          SettleKeepsValid(s, c, if s.tasks[t].phase.Returned? then Answered(t, s.tasks[t].phase.catalog) else Raised);
        }
      case Draining(t) =>
        LookKeepsValid(s, c, s.calls[c].context, s.calls[c].refresh);
      case _ =>
    }
  }

  lemma StepKeepsValid(s: State, step: Step)
    requires Valid(s)
    ensures Valid(After(s, step))
  {
    hide Valid, Probed, Looked, Finished;
    match step
    case Discover(context, refresh) => LookKeepsValid(s, |s.calls|, context, refresh);
    case Resume(c) => ResumeKeepsValid(s, c);
    case Quit(c) => if After(s, step) != s { SettleKeepsValid(s, c, Gone); }
    case Finish(t, discovery) => if Unfinished(s, t) { FinishedKeepsValid(s, t, discovery); }
    case NeverStart(t) => if After(s, step) != s { FinishKeepsValid(s, t, Cancelled); }
    case Release(t) => if After(s, step) != s { ReleaseKeepsValid(s, t); }
    case Invalidate(agent, talk) => DropKeepsValid(s, After(s, step).catalogs);
    case Evict(key) => DropKeepsValid(s, s.catalogs - {key});
    case Cancel(t) => if Unfinished(s, t) { CancelKeepsValid(s, t); }
  }

  lemma {:induction false} RunKeepsValid(s: State, steps: seq<Step>)
    requires Valid(s)
    ensures Valid(Run(s, steps))
    decreases |steps|
  {
    if steps != [] {
      hide Valid;
      StepKeepsValid(s, steps[0]);
      RunKeepsValid(After(s, steps[0]), steps[1..]);
    }
  }

  // ---------------------------------------------------------------- over whole runs

  /** However lookups, cancellation, invalidation and eviction interleave, a key has one unfinished
      probe at most, and it is the one the next lookup would find. */
  lemma OneProbeAKey(steps: seq<Step>, t: TaskId, u: TaskId)
    ensures var s := Run(EMPTY, steps);
            Unfinished(s, t) && Unfinished(s, u) && KeyOf(s.tasks[t].context) == KeyOf(s.tasks[u].context) ==>
              t == u && Busy(s, KeyOf(s.tasks[t].context))
  {
    RunKeepsValid(EMPTY, steps);
    var s := Run(EMPTY, steps);
    if Unfinished(s, t) && Unfinished(s, u) {
      assert ValidTask(s, t) && ValidTask(s, u);
    }
  }

  ghost predicate StoredBy(s: State, step: Step, t: TaskId, catalog: Catalog) {
    && t < |s.tasks| && step.Finish? && step.task == t && !step.discovery.Interrupted?
    && var context := s.tasks[t].context;
       && KeyOf(context) in s.catalogs && s.catalogs[KeyOf(context)] == Placeholder(t, context)
       && (match step.discovery
           case Found(found) => catalog == if Matches(found.context, context) then found else Failed(context)
           case _ => catalog == Failed(context))
  }

  /** A catalog of no commands, for the context that was asked about. */
  ghost function Failed(context: Context): Catalog {
    Catalog(context, Failing, {})
  }

  /** A probe that ends while its own placeholder is stored stores and returns exactly what its agent
      found, if that is for the probe's context, and a failure of that context otherwise; one that ends
      when it is not stores nothing, and returns an empty catalog that is loading. */
  lemma FinishedExactly(s: State, t: TaskId, discovery: Discovery)
    requires Unfinished(s, t)
    ensures var context := s.tasks[t].context;
            var key := Key(context.user, context.agent,
                           match context.talk case None => None case Some(talk) => Some(talk.id));
            var stands := key in s.catalogs && s.catalogs[key] == Entry(t, true, Catalog(context, Loading, {}));
            var after := After(s, Finish(t, discovery));
            && (!stands ==>
                  after.tasks[t].phase == Returned(Catalog(context, Loading, {})) && after.catalogs == s.catalogs)
            && (stands && discovery == Interrupted ==>
                  after.tasks[t].phase == Cancelled && after.catalogs == s.catalogs)
            && (stands && discovery != Interrupted ==>
                  && var found := if discovery.Found? && Matches(discovery.catalog.context, context)
                                  then discovery.catalog else Failed(context);
                     && after.tasks[t].phase == Returned(found)
                     && after.catalogs == s.catalogs[key := Entry(t, false, found)])
            && after.probes == s.probes && after.calls == s.calls
            && after.tasks == s.tasks[t := s.tasks[t].(phase := after.tasks[t].phase)]
  {
  }

  /** What a probe returned, it either stored on finishing while its own placeholder was what was
      stored, or it returned empty-handed. */
  lemma ReturnedByFinishing(s: State, step: Step, t: TaskId)
    requires Valid(s)
    requires t < |After(s, step).tasks| && After(s, step).tasks[t].phase.Returned?
    requires !(t < |s.tasks| && s.tasks[t].phase == After(s, step).tasks[t].phase)
    ensures var catalog := After(s, step).tasks[t].phase.catalog;
            StoredBy(s, step, t, catalog) || (t < |s.tasks| && catalog == Catalog(s.tasks[t].context, Loading, {}))
  {
    hide Matches, KeyOf, Looked;
    if step.Discover? {
      ProbedKeepsValid(s, step.context, step.refresh);
    } else if step.Resume? {
      if step.call < |s.calls| {
        ProbedKeepsValid(s, s.calls[step.call].context, s.calls[step.call].refresh);
      }
    } else {
      hide Valid, Probed;
    }
  }

  ghost predicate StoredAt(steps: seq<Step>, n: nat, t: TaskId, catalog: Catalog) {
    n < |steps| && StoredBy(Run(EMPTY, steps[..n]), steps[n], t, catalog)
  }

  lemma {:induction false} RunSnoc(s: State, steps: seq<Step>)
    requires steps != []
    ensures Run(s, steps) == After(Run(s, steps[..|steps| - 1]), steps[|steps| - 1])
    decreases |steps|
  {
    hide After;
    if |steps| == 1 {
      assert steps[1..] == [] && steps[..0] == [];
    } else {
      assert steps[..|steps| - 1][1..] == steps[1..][..|steps[1..]| - 1];
      RunSnoc(After(s, steps[0]), steps[1..]);
    }
  }

  lemma {:induction false} ReturnedWasStored(steps: seq<Step>, t: TaskId)
    requires var s := Run(EMPTY, steps);
             t < |s.tasks| && s.tasks[t].phase.Returned? && s.tasks[t].phase.catalog.status != Loading
    ensures exists n: nat :: StoredAt(steps, n, t, Run(EMPTY, steps).tasks[t].phase.catalog)
    decreases |steps|
  {
    if steps != [] {
      var last := |steps| - 1;
      var before := Run(EMPTY, steps[..last]);
      var catalog := Run(EMPTY, steps).tasks[t].phase.catalog;
      RunSnoc(EMPTY, steps);
      RunKeepsValid(EMPTY, steps[..last]);
      hide Valid, After, StoredBy;
      if t < |before.tasks| && before.tasks[t].phase == Returned(catalog) {
        ReturnedWasStored(steps[..last], t);
        var n: nat :| StoredAt(steps[..last], n, t, catalog);
        assert steps[..last][..n] == steps[..n];
        assert StoredAt(steps, n, t, catalog);
      } else {
        ReturnedByFinishing(before, steps[last], t);
        assert StoredAt(steps, last, t, catalog);
      }
    }
  }

  /** A catalog that is stored and not loading was put there by its own probe, begun for a context
      it matches, finishing while that probe's placeholder was still the stored entry. */
  lemma StoredWasDiscovered(steps: seq<Step>, key: Key)
    requires key in Run(EMPTY, steps).catalogs && Run(EMPTY, steps).catalogs[key].catalog.status != Loading
    ensures var s := Run(EMPTY, steps);
            var entry := s.catalogs[key];
            && entry.task < |s.tasks| && Matches(entry.catalog.context, s.tasks[entry.task].context)
            && KeyOf(entry.catalog.context) == key
            && exists n: nat :: StoredAt(steps, n, entry.task, entry.catalog)
  {
    RunKeepsValid(EMPTY, steps);
    assert ValidEntry(Run(EMPTY, steps), key);
    ReturnedWasStored(steps, Run(EMPTY, steps).catalogs[key].task);
  }

  /** A lookup is answered with a catalog of a context that matches the caller's; and if it is not
      loading, with one a probe stored. */
  lemma AnswersWereDiscovered(steps: seq<Step>, c: CallId)
    requires c < |Run(EMPTY, steps).calls| && Run(EMPTY, steps).calls[c].stage.Answered?
    ensures var call := Run(EMPTY, steps).calls[c];
            && Matches(call.stage.catalog.context, call.context)
            && (call.stage.catalog.status != Loading ==>
                  exists n: nat :: StoredAt(steps, n, call.stage.task, call.stage.catalog))
  {
    RunKeepsValid(EMPTY, steps);
    var s := Run(EMPTY, steps);
    assert ValidCall(s, c);
    assert ValidTask(s, s.calls[c].stage.task);
    if s.calls[c].stage.catalog.status != Loading {
      ReturnedWasStored(steps, s.calls[c].stage.task);
    }
  }

  // ---------------------------------------------------------------- invalidation

  /** All there is for `key`, and for the calls on it from `m` on, comes from a probe from `n` on;
      an older one no longer has its placeholder stored. */
  ghost predicate Since(s: State, key: Key, n: TaskId, m: CallId) {
    && n <= |s.tasks| && m <= |s.calls|
    && (key in s.catalogs ==> s.catalogs[key].task >= n)
    && (forall c :: m <= c < |s.calls| && KeyOf(s.calls[c].context) == key ==> StageSince(s.calls[c].stage, n))
  }

  ghost predicate StageSince(stage: Stage, n: TaskId) {
    (stage.Sharing? || stage.Answered?) ==> stage.task >= n
  }

  lemma LookSince(s: State, key: Key, n: TaskId, m: CallId, context: Context, refresh: bool)
    requires Valid(s) && Since(s, key, n, m)
    ensures Since(Probed(s, context, refresh), key, n, m)
    ensures KeyOf(context) == key ==> StageSince(Looked(s, context, refresh), n)
  {
    if key in s.catalogs {
      assert ValidEntry(s, key);
    }
  }

  lemma SettleSince(s: State, c: CallId, stage: Stage, key: Key, n: TaskId, m: CallId)
    requires Since(s, key, n, m) && c < |s.calls|
    requires m <= c && KeyOf(s.calls[c].context) == key ==> StageSince(stage, n)
    ensures Since(s.(calls := s.calls[c := s.calls[c].(stage := stage)]), key, n, m)
  {
    hide KeyOf, StageSince;
  }

  lemma ResumeSince(s: State, c: CallId, key: Key, n: TaskId, m: CallId)
    requires Valid(s) && Since(s, key, n, m)
    ensures Since(After(s, Resume(c)), key, n, m)
  {
    hide Valid, Probed, Looked, KeyOf, Matches;
    if c < |s.calls| {
      var call := s.calls[c];
      match call.stage
      case Sharing(t) =>
        assert m <= c && KeyOf(call.context) == key ==> StageSince(call.stage, n);
        if t < |s.tasks| && !Unfinished(s, t) {
          hide Since;
          SettleSince(s, c,
                      if s.tasks[t].phase.Returned? then Answered(t, s.tasks[t].phase.catalog) else Raised,
                      key, n, m);
        }
      case Draining(t) =>
        LookSince(s, key, n, m, call.context, call.refresh);
        ProbedKeepsValid(s, call.context, call.refresh);
        hide Since;
        SettleSince(Probed(s, call.context, call.refresh), c, Looked(s, call.context, call.refresh), key, n, m);
      case _ =>
    }
  }

  lemma DiscoverSince(s: State, context: Context, refresh: bool, key: Key, n: TaskId, m: CallId)
    requires Valid(s) && Since(s, key, n, m)
    ensures Since(After(s, Discover(context, refresh)), key, n, m)
  {
    LookSince(s, key, n, m, context, refresh);
    ProbedKeepsValid(s, context, refresh);
    hide Valid, Probed, Looked, KeyOf, Matches;
  }

  lemma StepSince(s: State, step: Step, key: Key, n: TaskId, m: CallId)
    requires Valid(s) && Since(s, key, n, m)
    ensures Since(After(s, step), key, n, m)
  {
    match step
    case Discover(context, refresh) => DiscoverSince(s, context, refresh, key, n, m);
    case Resume(c) => ResumeSince(s, c, key, n, m);
    case _ =>
      hide Valid, Probed, Looked, Matches, KeyOf, Concerns, Outcome;
  }

  lemma {:induction false} RunSince(s: State, steps: seq<Step>, key: Key, n: TaskId, m: CallId)
    requires Valid(s) && Since(s, key, n, m)
    ensures Since(Run(s, steps), key, n, m)
    decreases |steps|
  {
    if steps != [] {
      hide Valid, Since;
      StepKeepsValid(s, steps[0]);
      StepSince(s, steps[0], key, n, m);
      RunSince(After(s, steps[0]), steps[1..], key, n, m);
    }
  }

  /** After an invalidation a key it concerns never again holds, and no later lookup is given, what
      a probe begun before it found: such a probe's pending result cannot come back. */
  lemma InvalidatedForGood(before: seq<Step>, agent: Option<string>, talk: Option<nat>, key: Key, later: seq<Step>)
    requires Concerns(key, agent, talk)
    ensures var s := Run(EMPTY, before);
            Since(Run(After(s, Invalidate(agent, talk)), later), key, |s.tasks|, |s.calls|)
  {
    var s := Run(EMPTY, before);
    RunKeepsValid(EMPTY, before);
    StepKeepsValid(s, Invalidate(agent, talk));
    RunSince(After(s, Invalidate(agent, talk)), later, key, |s.tasks|, |s.calls|);
  }

  /** Exactly the catalogs that every given filter names go; the others stay as they are. */
  lemma InvalidatesExactly(s: State, agent: Option<string>, talk: Option<nat>, key: Key)
    ensures var after := After(s, Invalidate(agent, talk));
            && (key in after.catalogs <==>
                  key in s.catalogs && ((agent.Some? && agent.value != key.agent) || (talk.Some? && talk != key.talk)))
            && (key in after.catalogs ==> after.catalogs[key] == s.catalogs[key])
            && after.probes == s.probes && after.tasks == s.tasks && after.calls == s.calls
  {
  }

  /** A probe under way whose placeholder is gone, and cannot come back. */
  ghost predicate Forlorn(s: State, key: Key, n: TaskId, m: CallId, t: TaskId) {
    && t < n && Since(s, key, n, m) && t < |s.tasks| && KeyOf(s.tasks[t].context) == key
    && (s.tasks[t].phase.Returned? ==> s.tasks[t].phase.catalog.status == Loading)
  }

  lemma StepForlorn(s: State, step: Step, key: Key, n: TaskId, m: CallId, t: TaskId)
    requires Valid(s) && Forlorn(s, key, n, m, t)
    ensures Forlorn(After(s, step), key, n, m, t)
  {
    StepSince(s, step, key, n, m);
    hide Since, Valid, Looked;
  }

  lemma {:induction false} RunForlorn(s: State, steps: seq<Step>, key: Key, n: TaskId, m: CallId, t: TaskId)
    requires Valid(s) && Forlorn(s, key, n, m, t)
    ensures Forlorn(Run(s, steps), key, n, m, t)
    decreases |steps|
  {
    if steps != [] {
      hide Valid, Forlorn;
      StepKeepsValid(s, steps[0]);
      StepForlorn(s, steps[0], key, n, m, t);
      RunForlorn(After(s, steps[0]), steps[1..], key, n, m, t);
    }
  }

  /** Whoever still waits for a probe that was invalidated under way is told `loading`, or sees it
      cancelled: never what it found. */
  lemma InvalidatedWaitersReceiveLoading(before: seq<Step>, agent: Option<string>, talk: Option<nat>, t: TaskId,
                                         later: seq<Step>)
    requires Unfinished(Run(EMPTY, before), t) && Concerns(KeyOf(Run(EMPTY, before).tasks[t].context), agent, talk)
    ensures var end := Run(After(Run(EMPTY, before), Invalidate(agent, talk)), later);
            && t < |end.tasks|
            && (end.tasks[t].phase.Returned? ==> end.tasks[t].phase.catalog.status == Loading)
            && forall c :: 0 <= c < |end.calls| && end.calls[c].stage.Answered? && end.calls[c].stage.task == t ==>
                 end.calls[c].stage.catalog.status == Loading
  {
    var s := Run(EMPTY, before);
    var invalidated := After(s, Invalidate(agent, talk));
    RunKeepsValid(EMPTY, before);
    StepKeepsValid(s, Invalidate(agent, talk));
    RunForlorn(invalidated, later, KeyOf(s.tasks[t].context), |s.tasks|, |s.calls|, t);
    RunKeepsValid(invalidated, later);
    var end := Run(invalidated, later);
    forall c | 0 <= c < |end.calls| && end.calls[c].stage.Answered? && end.calls[c].stage.task == t
      ensures end.calls[c].stage.catalog.status == Loading
    {
      assert ValidCall(end, c);
    }
  }

  // ---------------------------------------------------------------- refreshing

  /** What was finished stays so, as it ended. */
  lemma StepKeepsFinished(s: State, step: Step, t: TaskId)
    requires Valid(s) && t < |s.tasks| && !s.tasks[t].phase.Running?
    ensures t < |After(s, step).tasks| && After(s, step).tasks[t].phase == s.tasks[t].phase
  {
    hide Matches, KeyOf, Looked;
    if step.Discover? {
      ProbedKeepsValid(s, step.context, step.refresh);
    } else if step.Resume? {
      if step.call < |s.calls| {
        ProbedKeepsValid(s, s.calls[step.call].context, s.calls[step.call].refresh);
      }
    }
    hide Valid, Probed;
  }

  /** The call was told, or waits for, nothing that `finished` already held. */
  ghost predicate Newer(s: State, c: CallId, finished: set<TaskId>) {
    && c < |s.calls| && s.calls[c].refresh
    && ((s.calls[c].stage.Sharing? || s.calls[c].stage.Answered?) ==> s.calls[c].stage.task !in finished)
    && forall t :: t in finished ==> t < |s.tasks| && !s.tasks[t].phase.Running?
  }

  lemma StepNewer(s: State, step: Step, c: CallId, finished: set<TaskId>)
    requires Valid(s) && Newer(s, c, finished)
    ensures Newer(After(s, step), c, finished)
  {
    forall t | t in finished ensures t < |After(s, step).tasks| && !After(s, step).tasks[t].phase.Running? {
      StepKeepsFinished(s, step, t);
    }
    hide Valid, KeyOf, Matches, Finished;
  }

  lemma {:induction false} RunNewer(s: State, steps: seq<Step>, c: CallId, finished: set<TaskId>)
    requires Valid(s) && Newer(s, c, finished)
    ensures Newer(Run(s, steps), c, finished)
    decreases |steps|
  {
    if steps != [] {
      hide Valid, Newer;
      StepKeepsValid(s, steps[0]);
      StepNewer(s, steps[0], c, finished);
      RunNewer(After(s, steps[0]), steps[1..], c, finished);
    }
  }

  function Done(s: State): set<TaskId> {
    set t | 0 <= t < |s.tasks| && !s.tasks[t].phase.Running?
  }

  /** A lookup that asks for a refresh is never answered by a probe that was over when it asked. */
  lemma RefreshedIsFresh(before: seq<Step>, context: Context, later: seq<Step>)
    ensures var s := Run(EMPTY, before);
            var end := Run(After(s, Discover(context, true)), later);
            |s.calls| < |end.calls|
            && (end.calls[|s.calls|].stage.Answered? ==> end.calls[|s.calls|].stage.task !in Done(s))
  {
    var s := Run(EMPTY, before);
    RunKeepsValid(EMPTY, before);
    StepKeepsValid(s, Discover(context, true));
    ProbedKeepsValid(s, context, true);
    RunNewer(After(s, Discover(context, true)), later, |s.calls|, Done(s));
  }

  /** Without one, what is stored answers at once only where it is neither loading nor failed, and
      such a catalog answers every matching lookup until it is replaced. */
  lemma StoredAnswers(before: seq<Step>, context: Context)
    ensures var s := Run(EMPTY, before);
            var stage := After(s, Discover(context, false)).calls[|s.calls|].stage;
            stage.Answered? <==>
              && KeyOf(context) in s.catalogs && !s.catalogs[KeyOf(context)].placeholder
              && Matches(s.catalogs[KeyOf(context)].catalog.context, context)
              && s.catalogs[KeyOf(context)].catalog.status != Loading
              && s.catalogs[KeyOf(context)].catalog.status != Failing
    ensures var s := Run(EMPTY, before);
            var stage := After(s, Discover(context, false)).calls[|s.calls|].stage;
            stage.Answered? ==> stage.catalog == s.catalogs[KeyOf(context)].catalog
  {
    var s := Run(EMPTY, before);
    RunKeepsValid(EMPTY, before);
    if KeyOf(context) in s.catalogs {
      assert ValidEntry(s, KeyOf(context));
    }
    hide Run, Valid;
  }

  // ---------------------------------------------------------------- what callers and probes come to

  /** A lookup shares the probe of a matching context that is under way, refreshing or not; takes a stored
      catalog that answers; cancels a probe of another context, forgets its placeholder, and waits for
      it; and otherwise begins one of its own, with a placeholder that is loading. */
  lemma LookupExactly(s: State, context: Context, refresh: bool)
    ensures var key := Key(context.user, context.agent,
                           match context.talk case None => None case Some(talk) => Some(talk.id));
            var fits := key in s.catalogs && Matches(s.catalogs[key].catalog.context, context);
            var busy := key in s.probes && s.probes[key] < |s.tasks| && s.tasks[s.probes[key]].phase == Running;
            var answers := fits && !refresh && s.catalogs[key].catalog.status != Loading
                           && s.catalogs[key].catalog.status != Failing;
            var after, n := After(s, Discover(context, refresh)), |s.tasks|;
            && |after.calls| == |s.calls| + 1 && after.calls[..|s.calls|] == s.calls
            && after.calls[|s.calls|].context == context && after.calls[|s.calls|].refresh == refresh
            && var stage := after.calls[|s.calls|].stage;
               if fits && busy then
                 stage == Sharing(s.probes[key]) && after == s.(calls := after.calls)
               else if answers then
                 && stage == Answered(s.catalogs[key].task, s.catalogs[key].catalog)
                 && after == s.(calls := after.calls)
               else if busy then
                 && stage == Draining(s.probes[key]) && after.catalogs == s.catalogs - {key}
                 && after.tasks == s.tasks[s.probes[key] := s.tasks[s.probes[key]].(cancelling := true)]
                 && after.probes == s.probes
               else
                 && stage == Sharing(n) && after.probes == s.probes[key := n]
                 && after.tasks == s.tasks + [Probe(context, false, Running, false)]
                 && after.catalogs == s.catalogs[key := Entry(n, true, Catalog(context, Loading, {}))]
  {
  }

  /** Whoever waits for a probe goes on once it is over, and no sooner: with what it returned, or its
      cancellation; and who drained one looks again, as a new lookup would. */
  lemma ResumesExactly(s: State, c: CallId)
    requires c < |s.calls|
    ensures var call, after := s.calls[c], After(s, Resume(c));
            match call.stage
            case Sharing(t) =>
              && (t < |s.tasks| && s.tasks[t].phase != Running ==>
                    && after == s.(calls := s.calls[c := after.calls[c]])
                    && after.calls[c].context == call.context && after.calls[c].refresh == call.refresh
                    && after.calls[c].stage == match s.tasks[t].phase
                                               case Returned(catalog) => Answered(t, catalog)
                                               case _ => Raised)
              && (t < |s.tasks| && s.tasks[t].phase == Running ==> after == s)
            case Draining(t) =>
              && (t < |s.tasks| && s.tasks[t].phase != Running ==>
                    && var anew := After(s, Discover(call.context, call.refresh));
                       && after.calls == s.calls[c := anew.calls[|s.calls|]]
                       && after.catalogs == anew.catalogs && after.probes == anew.probes && after.tasks == anew.tasks)
              && (t < |s.tasks| && s.tasks[t].phase == Running ==> after == s)
            case _ => after == s
  {
    hide Looked, Probed;
    assert s.calls[c := s.calls[c]] == s.calls;
  }

  /** A caller that gives up leaves the probe, and everybody else who shares it, alone. */
  lemma QuittingSparesOthers(s: State, c: CallId)
    requires c < |s.calls|
    ensures var waits := s.calls[c].stage.Sharing? || s.calls[c].stage.Draining?;
            After(s, Quit(c))
            == if waits then s.(calls := s.calls[c := s.calls[c].(stage := Gone)]) else s
  {
  }

  /** A probe that is cancelled may end before it begins to discover; one that is not runs on. Its place
      goes with its own callback, once it is over; and eviction takes one catalog and nothing else. */
  lemma ProbesEndExactly(s: State, t: TaskId, evicted: Key)
    requires t < |s.tasks|
    ensures var task := s.tasks[t];
            var key := Key(task.context.user, task.context.agent,
                           match task.context.talk case None => None case Some(talk) => Some(talk.id));
            && After(s, Cancel(t))
               == (if task.phase == Running then s.(tasks := s.tasks[t := task.(cancelling := true)]) else s)
            && After(s, NeverStart(t))
               == (if task.phase == Running && task.cancelling
                   then s.(tasks := s.tasks[t := task.(phase := Cancelled)]) else s)
            && (task.phase == Running || task.released ==> After(s, Release(t)) == s)
            && (task.phase != Running && !task.released ==>
                  && var after := After(s, Release(t));
                     && after == s.(tasks := s.tasks[t := task.(released := true)], probes := after.probes)
                     && (forall k :: k in after.probes <==> k in s.probes && !(k == key && s.probes[k] == t))
                     && (forall k :: k in after.probes ==> after.probes[k] == s.probes[k]))
            && After(s, Evict(evicted)) == s.(catalogs := s.catalogs - {evicted})
  {
  }

  // ---------------------------------------------------------------- the manager

  class CommandManager {
    var catalogs: map<Key, Entry>
    var probes: map<Key, TaskId>
    var tasks: seq<Probe>
    var calls: seq<Call>

    constructor ()
      ensures View() == EMPTY
    {
      catalogs, probes, tasks, calls := map[], map[], [], [];
    }

    ghost function View(): State
      reads this
    {
      State(catalogs, probes, tasks, calls)
    }

    predicate Over(t: TaskId)
      requires t < |tasks|
      reads this
    {
      !tasks[t].phase.Running?
    }

    /** One pass of the loop, and what follows it where it breaks out. */
    method Look(context: Context, refresh: bool) returns (stage: Stage)
      requires forall key :: key in probes ==> probes[key] < |tasks|
      modifies `catalogs, `probes, `tasks
      ensures stage == Looked(old(View()), context, refresh)
      ensures View() == Probed(old(View()), context, refresh)
    {
      var key := KeyOf(context);
      var busy := key in probes && !Over(probes[key]);
      if key in catalogs && Matches(catalogs[key].catalog.context, context) {
        if busy {
          return Sharing(probes[key]);
        }
        var status := catalogs[key].catalog.status;
        if !refresh && status != Loading && status != Failing {
          return Answered(catalogs[key].task, catalogs[key].catalog);
        }
      }
      if busy {
        var t := probes[key];
        catalogs := catalogs - {key};
        tasks := tasks[t := tasks[t].(cancelling := true)];
        return Draining(t);
      }
      catalogs := catalogs - {key};
      var task := |tasks|;
      tasks := tasks + [Probe(context, false, Running, false)];
      probes := probes[key := task];
      catalogs := catalogs[key := Placeholder(task, context)];
      stage := Sharing(task);
    }

    method Discover(context: Context, refresh: bool) returns (stage: Stage)
      requires Valid(View())
      modifies this
      ensures View() == After(old(View()), Step.Discover(context, refresh)) && Valid(View())
      ensures stage == calls[|calls| - 1].stage
    {
      StepKeepsValid(View(), Step.Discover(context, refresh));
      stage := Look(context, refresh);
      calls := calls + [Call(context, refresh, stage)];
    }

    /** How a probe ends once its agent's discovery has. */
    method EndProbe(t: TaskId, discovery: Discovery)
      requires Valid(View()) && Unfinished(View(), t)
      modifies this
      ensures View() == After(old(View()), Finish(t, discovery)) && Valid(View())
    {
      StepKeepsValid(View(), Finish(t, discovery));
      var context := tasks[t].context;
      var key := KeyOf(context);
      var result: Catalog;
      match discovery {
        case Interrupted =>
          if key !in catalogs || catalogs[key] != Placeholder(t, context) {
            tasks := tasks[t := tasks[t].(phase := Returned(Catalog(context, Loading, {})))];
          } else {
            tasks := tasks[t := tasks[t].(phase := Cancelled)];
          }
          return;
        case Found(catalog) =>
          result := if Matches(catalog.context, context) then catalog else Catalog(context, Failing, {});
        case Errored =>
          result := Catalog(context, Failing, {});
      }
      if key !in catalogs || catalogs[key] != Placeholder(t, context) {
        tasks := tasks[t := tasks[t].(phase := Returned(Catalog(context, Loading, {})))];
        return;
      }
      catalogs := catalogs[key := Entry(t, false, result)];
      tasks := tasks[t := tasks[t].(phase := Returned(result))];
    }

    /** A finished task's callback: only its own entry goes. */
    method Complete(t: TaskId)
      requires Valid(View()) && t < |tasks| && Over(t) && !tasks[t].released
      modifies this
      ensures View() == After(old(View()), Release(t)) && Valid(View())
    {
      StepKeepsValid(View(), Release(t));
      var key := KeyOf(tasks[t].context);
      if key in probes && probes[key] == t {
        probes := probes - {key};
      }
      tasks := tasks[t := tasks[t].(released := true)];
    }

    method Invalidate(agent: Option<string>, talk: Option<nat>)
      requires Valid(View())
      modifies `catalogs
      ensures View() == After(old(View()), Step.Invalidate(agent, talk)) && Valid(View())
    {
      hide Valid, Probed, Looked, Finished;
      StepKeepsValid(View(), Step.Invalidate(agent, talk));
      var todo := catalogs.Keys;
      while todo != {}
        invariant todo <= old(catalogs).Keys && catalogs.Keys <= old(catalogs).Keys
        invariant forall key :: key in old(catalogs) ==>
                  (key in catalogs <==> key in todo || !Concerns(key, agent, talk))
        invariant forall key :: key in catalogs ==> catalogs[key] == old(catalogs)[key]
        decreases |todo|
      {
        var key :| key in todo;
        todo := todo - {key};
        if agent.Some? && key.agent != agent.value {
          continue;
        }
        if talk.Some? && key.talk != talk {
          continue;
        }
        catalogs := catalogs - {key};
      }
      assert catalogs == Kept(old(catalogs), agent, talk);
    }
  }
}
