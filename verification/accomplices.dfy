/** The accomplices one stretch of a run calls: their starts and settlements, put into the run's
    stream of events as the calls and their results pass. */
module AccompliceWatch {
  import opened Wrappers

  datatype CallId = CallId(text: string)

  datatype Kind = Commission | Whisper

  datatype Status = Completed | FailedStatus | Cancelled

  /** An event of the run: a tool call, a tool's result, or anything else. `kind` is None for a
      tool that calls no accomplice; `name` is the accomplice's, as far as the call gives one. */
  datatype Event =
    | Call(id: CallId, kind: Option<Kind>, name: Option<string>)
    | Result(id: CallId, retry: bool, success: bool, response: string)
    | Other(tag: string)

  datatype Output =
    | Passed(event: Event)
    | Started(id: CallId, kind: Kind, name: string)
    | Settled(id: CallId, status: Status, response: Option<string>)

  /** How the stretch ends: its stream runs out, or an error ends it. One thrown in while a start
      or settlement is being handed on cuts off the event that should have followed. `handed` is
      how many of the settlements that are left get handed on before another error is thrown in
      there, the one it is thrown in at included; None, all of them. */
  datatype Ending =
    | RunsOut(handed: Option<Positive>)
    | Breaks(cancelled: bool, cutting: Option<Event>, handed: Option<Positive>)

  type Positive = n: nat | n > 0 witness 1

  function IndexOf(working: seq<CallId>, id: CallId): (i: nat)
    requires id in working
    ensures i < |working| && working[i] == id && id !in working[..i]
  {
    if working[0] == id then 0 else 1 + IndexOf(working[1..], id)
  }

  /** The list without its first `id`. */
  function Without(working: seq<CallId>, id: CallId): seq<CallId>
    requires id in working
  {
    var i := IndexOf(working, id);
    working[..i] + working[i + 1..]
  }

  predicate Calls(event: Event) {
    event.Call? && event.kind.Some? && event.name.Some? && event.name.value != ""
  }

  /** What is announced before an event. */
  function Announced(working: seq<CallId>, event: Event): seq<Output> {
    if event.Result? && event.id in working then
      [Settled(event.id, if event.success && !event.retry then Completed else FailedStatus, Some(event.response))]
    else if Calls(event) then [Started(event.id, event.kind.value, event.name.value)]
    else []
  }

  function Working(working: seq<CallId>, event: Event): seq<CallId> {
    if event.Result? && event.id in working then Without(working, event.id)
    else if Calls(event) then working + [event.id]
    else working
  }

  function WorkingAfter(working: seq<CallId>, events: seq<Event>): seq<CallId>
    decreases |events|
  {
    if events == [] then working else WorkingAfter(Working(working, events[0]), events[1..])
  }

  function Stretch(working: seq<CallId>, events: seq<Event>): seq<Output>
    decreases |events|
  {
    if events == [] then []
    else Announced(working, events[0]) + [Passed(events[0])] + Stretch(Working(working, events[0]), events[1..])
  }

  function Abandoned(working: seq<CallId>, status: Status): seq<Output> {
    seq(|working|, i requires 0 <= i < |working| => Settled(working[i], status, None))
  }

  function Cutting(ending: Ending): seq<Event> {
    if ending.Breaks? && ending.cutting.Some? then [ending.cutting.value] else []
  }

  /** What is announced and not followed by its event. */
  function CutOff(left: seq<CallId>, ending: Ending): seq<Output> {
    if ending.Breaks? && ending.cutting.Some? then Announced(left, ending.cutting.value) else []
  }

  function StatusAt(ending: Ending): Status {
    if ending.Breaks? && ending.cancelled then Cancelled else FailedStatus
  }

  /** Who is working when the stretch is over. */
  function Unheard(working: seq<CallId>, events: seq<Event>, ending: Ending): seq<CallId> {
    WorkingAfter(WorkingAfter(working, events), Cutting(ending))
  }

  /** Those of them whose settlement is handed on. */
  function Reported(unheard: seq<CallId>, ending: Ending): seq<CallId> {
    if ending.handed.None? || |unheard| <= ending.handed.value then unheard else unheard[..ending.handed.value]
  }

  /** Everything the watch hands on. */
  function Watched(working: seq<CallId>, events: seq<Event>, ending: Ending): seq<Output> {
    Stretch(working, events) + CutOff(WorkingAfter(working, events), ending)
    + Abandoned(Reported(Unheard(working, events, ending), ending), StatusAt(ending))
  }

  // ---------------------------------------------------------------- what it says

  function ErasedHead(output: Output): seq<Event> {
    if output.Passed? then [output.event] else []
  }

  /** The run's own events, with starts and settlements left out. */
  function Erased(outputs: seq<Output>): seq<Event> {
    if outputs == [] then []
    else ErasedHead(outputs[0]) + Erased(outputs[1..])
  }

  /** Starts of `id` less settlements of it. */
  function Balance(outputs: seq<Output>, id: CallId): int {
    if outputs == [] then 0
    else (match outputs[0]
          case Started(i, _, _) => if i == id then 1 else 0
          case Settled(i, _, _) => if i == id then -1 else 0
          case Passed(_) => 0) + Balance(outputs[1..], id)
  }

  function Count(working: seq<CallId>, id: CallId): nat {
    multiset(working)[id]
  }

  lemma {:induction false} ErasedIn(a: seq<Output>, b: seq<Output>)
    ensures Erased(a + b) == Erased(a) + Erased(b)
    decreases |a|
  {
    if a == [] {
      assert a + b == b;
    } else {
      assert (a + b)[0] == a[0] && (a + b)[1..] == a[1..] + b;
      ErasedIn(a[1..], b);
      var head := ErasedHead(a[0]);
      assert (head + Erased(a[1..])) + Erased(b) == head + (Erased(a[1..]) + Erased(b));
    }
  }

  lemma {:induction false} BalanceIn(a: seq<Output>, b: seq<Output>, id: CallId)
    ensures Balance(a + b, id) == Balance(a, id) + Balance(b, id)
    decreases |a|
  {
    if a == [] {
      assert a + b == b;
    } else {
      assert (a + b)[0] == a[0] && (a + b)[1..] == a[1..] + b;
      BalanceIn(a[1..], b, id);
    }
  }

  lemma CountWithout(working: seq<CallId>, id: CallId, other: CallId)
    requires id in working
    ensures Count(Without(working, id), other) == Count(working, other) - if id == other then 1 else 0
  {
    var i := IndexOf(working, id);
    assert working == working[..i] + [id] + working[i + 1..];
  }

  /** One event: the balance moves with what is working, and never below what it started from. */
  lemma OneEvent(working: seq<CallId>, event: Event, id: CallId)
    ensures var announced := Announced(working, event);
            && |announced| <= 1 && Erased(announced) == []
            && Balance(announced, id) == Count(Working(working, event), id) - Count(working, id)
  {
    if event.Result? && event.id in working {
      CountWithout(working, event.id, id);
    } else if Calls(event) {
      assert multiset(working + [event.id]) == multiset(working) + multiset{event.id};
    }
    var announced := Announced(working, event);
    if announced != [] {
      assert announced[1..] == [];
    }
  }

  lemma PassedIs(event: Event, id: CallId)
    ensures Erased([Passed(event)]) == [event] && Balance([Passed(event)], id) == 0
  {
    assert [Passed(event)][1..] == [];
  }

  lemma {:induction false} StretchErases(working: seq<CallId>, events: seq<Event>)
    ensures Erased(Stretch(working, events)) == events
    decreases |events|
  {
    if events != [] {
      var announced, rest := Announced(working, events[0]), Stretch(Working(working, events[0]), events[1..]);
      OneEvent(working, events[0], CallId(""));
      PassedIs(events[0], CallId(""));
      StretchErases(Working(working, events[0]), events[1..]);
      ErasedIn(announced + [Passed(events[0])], rest);
      ErasedIn(announced, [Passed(events[0])]);
    }
  }

  lemma {:induction false} StretchBalances(working: seq<CallId>, events: seq<Event>, id: CallId)
    ensures Balance(Stretch(working, events), id) == Count(WorkingAfter(working, events), id) - Count(working, id)
    decreases |events|
  {
    if events != [] {
      var announced, rest := Announced(working, events[0]), Stretch(Working(working, events[0]), events[1..]);
      OneEvent(working, events[0], id);
      PassedIs(events[0], id);
      StretchBalances(Working(working, events[0]), events[1..], id);
      BalanceIn(announced + [Passed(events[0])], rest, id);
      BalanceIn(announced, [Passed(events[0])], id);
    }
  }

  lemma {:induction false} AbandonedSettles(working: seq<CallId>, status: Status, id: CallId)
    ensures Erased(Abandoned(working, status)) == []
    ensures Balance(Abandoned(working, status), id) == 0 - Count(working, id)
    decreases |working|
  {
    if working != [] {
      AbandonedHead(working, status);
      AbandonedSettles(working[1..], status, id);
      CountHead(working, id);
      hide Abandoned, Count;
    }
  }

  lemma AbandonedHead(working: seq<CallId>, status: Status)
    requires working != []
    ensures var abandoned := Abandoned(working, status);
            && abandoned != [] && abandoned[0] == Settled(working[0], status, None)
            && abandoned[1..] == Abandoned(working[1..], status)
  {
  }

  lemma CountHead(working: seq<CallId>, id: CallId)
    requires working != []
    ensures Count(working, id) == Count(working[1..], id) + if working[0] == id then 1 else 0
  {
    assert working == [working[0]] + working[1..];
  }

  lemma CountPrefix(working: seq<CallId>, k: nat, id: CallId)
    requires k <= |working|
    ensures Count(working[..k], id) <= Count(working, id)
  {
    assert working == working[..k] + working[k..];
  }

  /** However the stretch ends, leaving out starts and settlements gives back the run's events. */
  lemma ErasingGivesBack(working: seq<CallId>, events: seq<Event>, ending: Ending)
    ensures Erased(Watched(working, events, ending)) == events
  {
    var left := WorkingAfter(working, events);
    var reported := Reported(Unheard(working, events, ending), ending);
    StretchErases(working, events);
    AbandonedSettles(reported, StatusAt(ending), CallId(""));
    if ending.Breaks? && ending.cutting.Some? {
      OneEvent(left, ending.cutting.value, CallId(""));
    }
    ErasedIn(Stretch(working, events) + CutOff(left, ending), Abandoned(reported, StatusAt(ending)));
    ErasedIn(Stretch(working, events), CutOff(left, ending));
  }

  /** Starts less settlements, up to the settlements of whom nothing was heard. */
  lemma BalanceOfTheStretch(working: seq<CallId>, events: seq<Event>, ending: Ending, id: CallId)
    ensures Balance(Stretch(working, events) + CutOff(WorkingAfter(working, events), ending), id)
            == Count(Unheard(working, events, ending), id) - Count(working, id)
  {
    var left := WorkingAfter(working, events);
    StretchBalances(working, events, id);
    if ending.Breaks? && ending.cutting.Some? {
      OneEvent(left, ending.cutting.value, id);
      OneWorks(left, ending.cutting.value);
    } else {
      NothingPassed(left);
    }
    BalanceIn(Stretch(working, events), CutOff(left, ending), id);
  }

  /** What is not reported is all that stays unsettled. */
  lemma UnsettledIs(working: seq<CallId>, events: seq<Event>, ending: Ending, id: CallId)
    ensures var unheard := Unheard(working, events, ending);
            Count(working, id) + Balance(Watched(working, events, ending), id)
            == Count(unheard, id) - Count(Reported(unheard, ending), id)
  {
    var unheard := Unheard(working, events, ending);
    var reported := Reported(unheard, ending);
    BalanceOfTheStretch(working, events, ending, id);
    AbandonedSettles(reported, StatusAt(ending), id);
    BalanceIn(Stretch(working, events) + CutOff(WorkingAfter(working, events), ending),
              Abandoned(reported, StatusAt(ending)), id);
  }

  /** Every accomplice has settled as often as it started, even where call ids repeat, exactly if no
      error is thrown in while there are settlements left to hand on: the list is cleared before the
      first of them is, and those that are left are lost. */
  lemma EverythingSettlesExactly(working: seq<CallId>, events: seq<Event>, ending: Ending)
    ensures (forall id :: Count(working, id) + Balance(Watched(working, events, ending), id) == 0)
            <==> ending.handed.None? || |Unheard(working, events, ending)| <= ending.handed.value
  {
    var unheard := Unheard(working, events, ending);
    forall id ensures Count(working, id) + Balance(Watched(working, events, ending), id)
                      == Count(unheard, id) - Count(Reported(unheard, ending), id) {
      UnsettledIs(working, events, ending, id);
    }
    hide Watched, Unheard;
    if ending.handed.Some? && |unheard| > ending.handed.value {
      var n := ending.handed.value;
      OneUnsettled(unheard, n);
    }
  }

  lemma OneUnsettled(unheard: seq<CallId>, n: nat)
    requires n < |unheard|
    ensures Count(unheard, unheard[n]) > Count(unheard[..n], unheard[n])
  {
    assert unheard == unheard[..n] + [unheard[n]] + unheard[n + 1..];
  }

  /** No more settlements than starts, at any point of the outputs. */
  ghost predicate NeverShort(before: nat, outputs: seq<Output>, id: CallId) {
    forall k :: 0 <= k <= |outputs| ==> before + Balance(outputs[..k], id) >= 0
  }

  lemma NeverShortIn(before: nat, a: seq<Output>, b: seq<Output>, id: CallId)
    requires NeverShort(before, a, id)
    requires before + Balance(a, id) >= 0 && NeverShort(before + Balance(a, id), b, id)
    ensures NeverShort(before, a + b, id)
  {
    forall k | 0 <= k <= |a + b| ensures before + Balance((a + b)[..k], id) >= 0 {
      if k <= |a| {
        assert (a + b)[..k] == a[..k];
      } else {
        assert (a + b)[..k] == a + b[..k - |a|];
        BalanceIn(a, b[..k - |a|], id);
      }
    }
  }

  /** An announcement by itself, or with its event, is never short. */
  lemma OneNeverShort(working: seq<CallId>, event: Event, passed: seq<Output>, id: CallId)
    requires passed == [] || passed == [Passed(event)]
    ensures NeverShort(Count(working, id), Announced(working, event) + passed, id)
    ensures Balance(Announced(working, event) + passed, id) == Count(Working(working, event), id) - Count(working, id)
  {
    var announced := Announced(working, event);
    OneEvent(working, event, id);
    PassedIs(event, id);
    BalanceIn(announced, passed, id);
    assert Balance(passed, id) == 0 && |announced| <= 1;
    hide Announced, Working, Count, Balance;
    NothingYet(id);
    forall k | 0 <= k <= |announced + passed| ensures Count(working, id) + Balance((announced + passed)[..k], id) >= 0 {
      if k == 0 {
        assert (announced + passed)[..0] == [];
      } else if k == 1 && announced != [] {
        assert (announced + passed)[..1] == announced;
      } else {
        assert (announced + passed)[..k] == announced + passed;
      }
    }
  }

  lemma NothingYet(id: CallId)
    ensures Balance([], id) == 0
  {
  }

  lemma {:induction false} StretchNeverShort(working: seq<CallId>, events: seq<Event>, id: CallId)
    ensures NeverShort(Count(working, id), Stretch(working, events), id)
    decreases |events|
  {
    if events != [] {
      var first, rest := Announced(working, events[0]) + [Passed(events[0])],
        Stretch(Working(working, events[0]), events[1..]);
      OneNeverShort(working, events[0], [Passed(events[0])], id);
      StretchNeverShort(Working(working, events[0]), events[1..], id);
      NeverShortIn(Count(working, id), first, rest, id);
    }
  }

  lemma {:induction false} AbandonedNeverShort(working: seq<CallId>, status: Status, id: CallId)
    ensures NeverShort(Count(working, id), Abandoned(working, status), id)
  {
    var abandoned := Abandoned(working, status);
    assert |abandoned| == |working|;
    forall k | 0 <= k <= |abandoned| ensures Count(working, id) + Balance(abandoned[..k], id) >= 0 {
      assert abandoned[..k] == Abandoned(working[..k], status);
      AbandonedSettles(working[..k], status, id);
      CountPrefix(working, k, id);
      hide Abandoned, Count;
    }
  }

  /** Nothing settles that has not started, at any moment of the stretch and after it. */
  lemma NothingSettlesEarly(working: seq<CallId>, events: seq<Event>, ending: Ending, id: CallId)
    ensures NeverShort(Count(working, id), Watched(working, events, ending), id)
  {
    var left, unheard := WorkingAfter(working, events), Unheard(working, events, ending);
    var reported := Reported(unheard, ending);
    StretchNeverShort(working, events, id);
    StretchBalances(working, events, id);
    if ending.Breaks? && ending.cutting.Some? {
      OneNeverShort(left, ending.cutting.value, [], id);
      assert CutOff(left, ending) + [] == CutOff(left, ending);
    }
    NeverShortIn(Count(working, id), Stretch(working, events), CutOff(left, ending), id);
    BalanceOfTheStretch(working, events, ending, id);
    AbandonedNeverShort(reported, StatusAt(ending), id);
    ReportedAreUnheard(unheard, ending, id);
    hide Stretch, CutOff, Abandoned, Reported, Unheard;
    assert NeverShort(Count(unheard, id), Abandoned(reported, StatusAt(ending)), id);
    NeverShortIn(Count(working, id), Stretch(working, events) + CutOff(left, ending),
                 Abandoned(reported, StatusAt(ending)), id);
  }

  lemma ReportedAreUnheard(unheard: seq<CallId>, ending: Ending, id: CallId)
    ensures Count(Reported(unheard, ending), id) <= Count(unheard, id)
  {
    if ending.handed.Some? && |unheard| > ending.handed.value {
      CountPrefix(unheard, ending.handed.value, id);
    }
  }

  lemma {:induction false} StretchIn(working: seq<CallId>, a: seq<Event>, b: seq<Event>)
    ensures Stretch(working, a + b) == Stretch(working, a) + Stretch(WorkingAfter(working, a), b)
    ensures WorkingAfter(working, a + b) == WorkingAfter(WorkingAfter(working, a), b)
    decreases |a|
  {
    if a == [] {
      assert a + b == b;
    } else {
      assert (a + b)[0] == a[0] && (a + b)[1..] == a[1..] + b;
      StretchIn(Working(working, a[0]), a[1..], b);
    }
  }

  lemma CountsWhatWorks(working: seq<CallId>, id: CallId)
    ensures id in working <==> Count(working, id) > 0
  {
    assert id in working <==> id in multiset(working);
  }

  lemma PassesRightAfter(working: seq<CallId>, before: seq<Event>, event: Event, later: seq<Event>)
    ensures Stretch(working, before) + Announced(WorkingAfter(working, before), event) + [Passed(event)]
            <= Stretch(working, before + [event] + later)
  {
    StretchIn(working, before + [event], later);
    StretchIn(working, before, [event]);
    assert [event][1..] == [];
    var left := WorkingAfter(working, before);
    assert Stretch(left, [event]) == Announced(left, event) + [Passed(event)] + Stretch(Working(left, event), []);
  }

  /** A result settles its accomplice, right before it passes, exactly when that has started more
      often than it settled; and a start comes right before the call it announces, which is one of a
      tool that calls an accomplice, and names it. */
  lemma AnnouncedExactly(working: seq<CallId>, before: seq<Event>, event: Event, later: seq<Event>)
    ensures var outputs := Stretch(working, before);
            var announced := Announced(WorkingAfter(working, before), event);
            && (outputs + announced + [Passed(event)]) <= Stretch(working, before + [event] + later)
            && (event.Result? ==>
                  announced == if Count(working, event.id) + Balance(outputs, event.id) <= 0 then []
                               else if event.success && !event.retry
                               then [Settled(event.id, Completed, Some(event.response))]
                               else [Settled(event.id, FailedStatus, Some(event.response))])
            && (event.Call? ==>
                  announced == if event.kind == None || event.name == None || event.name == Some("") then []
                               else [Started(event.id, event.kind.value, event.name.value)])
            && (event.Other? ==> announced == [])
  {
    PassesRightAfter(working, before, event, later);
    if event.Result? {
      StretchBalances(working, before, event.id);
      CountsWhatWorks(WorkingAfter(working, before), event.id);
    }
    hide Stretch, WorkingAfter, Balance, Count;
  }

  lemma {:induction false} StretchAnswers(working: seq<CallId>, events: seq<Event>)
    ensures forall output :: output in Stretch(working, events) && output.Settled? ==> output.response.Some?
    decreases |events|
  {
    if events != [] {
      StretchAnswers(Working(working, events[0]), events[1..]);
    }
  }

  /** What settles without a result does so with the stretch: cancelled if the stretch was, and
      failed otherwise. */
  lemma UnansweredEndWithTheStretch(working: seq<CallId>, events: seq<Event>, ending: Ending)
    ensures forall output :: output in Watched(working, events, ending) && output.Settled? && output.response.None? ==>
              output.status == match ending
                               case RunsOut(_) => FailedStatus
                               case Breaks(cancelled, _, _) => if cancelled then Cancelled else FailedStatus
  {
    StretchAnswers(working, events);
    hide Stretch, WorkingAfter;
  }

  lemma NothingPassed(working: seq<CallId>)
    ensures Stretch(working, []) == [] && WorkingAfter(working, []) == working
  {
  }

  lemma OneWorks(working: seq<CallId>, event: Event)
    ensures WorkingAfter(working, [event]) == Working(working, event)
  {
    assert [event][1..] == [];
    assert WorkingAfter(Working(working, event), []) == Working(working, event);
  }

  lemma OneMorePasses(working: seq<CallId>, stream: seq<Event>, i: nat)
    requires i < |stream|
    ensures var left := WorkingAfter(working, stream[..i]);
            && WorkingAfter(working, stream[..i + 1]) == Working(left, stream[i])
            && Stretch(working, stream[..i + 1])
               == Stretch(working, stream[..i]) + Announced(left, stream[i]) + [Passed(stream[i])]
  {
    var left := WorkingAfter(working, stream[..i]);
    assert stream[..i + 1] == stream[..i] + [stream[i]] && [stream[i]][1..] == [];
    StretchIn(working, stream[..i], [stream[i]]);
    OneWorks(left, stream[i]);
    assert Stretch(left, [stream[i]])
           == Announced(left, stream[i]) + [Passed(stream[i])] + Stretch(Working(left, stream[i]), []);
  }

  // ---------------------------------------------------------------- the watch

  class Accomplices {
    var working: seq<CallId>

    constructor ()
      ensures working == []
    {
      working := [];
    }

    method Observe(event: Event) returns (lifecycle: seq<Output>)
      modifies this
      ensures lifecycle == Announced(old(working), event) && working == Working(old(working), event)
    {
      if event.Result? {
        if event.id !in working {
          return [];
        }
        working := Without(working, event.id);
        var status := if event.retry then FailedStatus else if event.success then Completed else FailedStatus;
        return [Settled(event.id, status, Some(event.response))];
      }
      if !event.Call? || event.kind.None? || event.name.None? || event.name.value == "" {
        return [];
      }
      working := working + [event.id];
      return [Started(event.id, event.kind.value, event.name.value)];
    }

    method Abandon(status: Status) returns (settled: seq<Output>)
      modifies this
      ensures settled == Abandoned(old(working), status) && working == []
    {
      settled := [];
      for i := 0 to |working|
        invariant settled == Abandoned(working[..i], status) && working == old(working)
      {
        settled := settled + [Settled(working[i], status, None)];
      }
      assert working[..|working|] == working;
      working := [];
    }

    method Watch(stream: seq<Event>, ending: Ending) returns (outputs: seq<Output>)
      modifies this
      ensures outputs == Watched(old(working), stream, ending) && working == []
    {
      hide Stretch, WorkingAfter, Announced, Working;
      outputs := [];
      NothingPassed(working);
      for i := 0 to |stream|
        invariant working == WorkingAfter(old(working), stream[..i])
        invariant outputs == Stretch(old(working), stream[..i])
      {
        OneMorePasses(old(working), stream, i);
        var lifecycle := Observe(stream[i]);
        outputs := outputs + lifecycle;
        outputs := outputs + [Passed(stream[i])];
      }
      assert stream[..|stream|] == stream;
      ghost var left := working;
      var status := FailedStatus;
      if ending.Breaks? {
        if ending.cutting.Some? {
          OneWorks(left, ending.cutting.value);
          var lifecycle := Observe(ending.cutting.value);
          outputs := outputs + lifecycle;
        }
        status := if ending.cancelled then Cancelled else FailedStatus;
      }
      NothingPassed(left);
      ghost var unheard := working;
      var settled := Abandon(status);
      if ending.handed.Some? && ending.handed.value < |settled| {
        AbandonedPart(unheard, status, ending.handed.value);
        settled := settled[..ending.handed.value];
      }
      outputs := outputs + settled;
    }
  }

  lemma AbandonedPart(working: seq<CallId>, status: Status, n: nat)
    requires n <= |working|
    ensures |Abandoned(working, status)| == |working|
    ensures Abandoned(working, status)[..n] == Abandoned(working[..n], status)
  {
  }
}
