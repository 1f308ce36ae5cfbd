/** Replacing a conversation's whole todo list, in two commits: the old one goes, then the new one
    is written under refs that must all differ. */
module TodoStore {
  import opened Wrappers
  import opened Todos

  /** A todo as it is written: with its own ref, or none. */
  datatype Item = Item(ref: Option<Ref>, status: Status, parent: Option<Ref>, dependsOn: seq<Ref>)

  predicate HasOwn(item: Item) {
    item.ref.Some? && item.ref.value != ""
  }

  /** The first draw that is not taken, if the draws come to one. */
  function FirstFresh(taken: seq<Ref>, draws: seq<Ref>): Option<Ref> {
    if draws == [] then None
    else if draws[0] !in taken then Some(draws[0])
    else FirstFresh(taken, draws[1..])
  }

  /** The refs of the first `n` items: each its own, or the first of its draws that differs from all
      given out before it. None where some item's draws run out. */
  function Given(items: seq<Item>, draws: seq<seq<Ref>>, n: nat): (refs: Option<seq<Ref>>)
    requires |draws| == |items| && n <= |items|
    ensures refs.Some? ==> |refs.value| == n
  {
    if n == 0 then Some([])
    else
      match Given(items, draws, n - 1)
      case None => None
      case Some(before) =>
        if HasOwn(items[n - 1]) then Some(before + [items[n - 1].ref.value])
        else match FirstFresh(before, draws[n - 1]) case None => None case Some(ref) => Some(before + [ref])
  }

  function Created(items: seq<Item>, refs: seq<Ref>): seq<Todo>
    requires |refs| == |items|
  {
    seq(|items|, i requires 0 <= i < |items| => Todo(refs[i], items[i].status, items[i].parent, items[i].dependsOn))
  }

  predicate Distinct(refs: seq<Ref>) {
    forall i, j :: 0 <= i < j < |refs| ==> refs[i] != refs[j]
  }

  lemma DistinctIsUnique(items: seq<Item>, refs: seq<Ref>)
    requires |refs| == |items|
    ensures Unique(Created(items, refs)) <==> Distinct(refs)
  {
    var created := Created(items, refs);
    assert forall i :: 0 <= i < |refs| ==> created[i].ref == refs[i];
  }

  lemma {:induction false} FirstFreshIs(taken: seq<Ref>, draws: seq<Ref>)
    ensures FirstFresh(taken, draws).Some? <==> exists i :: 0 <= i < |draws| && draws[i] !in taken
    ensures FirstFresh(taken, draws).Some? ==> FirstFresh(taken, draws).value !in taken
  {
    if draws != [] && draws[0] in taken {
      FirstFreshIs(taken, draws[1..]);
      forall i | 0 <= i < |draws| && draws[i] !in taken ensures FirstFresh(taken, draws).Some? {
        assert draws[1..][i - 1] == draws[i];
      }
    }
  }

  /** Own refs are given as they are, and a drawn one differs from all before it. */
  lemma {:induction false} GivenIs(items: seq<Item>, draws: seq<seq<Ref>>, n: nat)
    requires |draws| == |items| && n <= |items| && Given(items, draws, n).Some?
    ensures forall i :: 0 <= i < n && HasOwn(items[i]) ==> Given(items, draws, n).value[i] == items[i].ref.value
    ensures forall i, j :: 0 <= i < j < n && !HasOwn(items[j]) ==>
              Given(items, draws, n).value[i] != Given(items, draws, n).value[j]
  {
    if n > 0 {
      GivenIs(items, draws, n - 1);
      var before := Given(items, draws, n - 1).value;
      if !HasOwn(items[n - 1]) {
        FirstFreshIs(before, draws[n - 1]);
      }
    }
  }

  // ---------------------------------------------------------------- refs that can be drawn

  const HEX := "0123456789abcdef"

  /** How many refs a draw may give: eight hex digits each. */
  const REFS := 0x1_0000_0000

  /** A ref a draw may give. */
  predicate Drawable(ref: Ref) {
    |ref| == 8 && forall i :: 0 <= i < 8 ==> ref[i] in HEX
  }

  predicate AllDrawable(draws: seq<seq<Ref>>) {
    forall i, j :: 0 <= i < |draws| && 0 <= j < |draws[i]| ==> Drawable(draws[i][j])
  }

  function Numbers(k: nat): nat {
    if k == 0 then 1 else 16 * Numbers(k - 1)
  }

  /** `n` in `k` hex digits. */
  function Digits(n: nat, k: nat): (digits: string)
    ensures |digits| == k && forall i :: 0 <= i < k ==> digits[i] in HEX
  {
    if k == 0 then "" else Digits(n / 16, k - 1) + [HEX[n % 16]]
  }

  lemma HexDiffers(a: nat, b: nat)
    requires a < 16 && b < 16 && HEX[a] == HEX[b]
    ensures a == b
  {
  }

  lemma {:induction false} DigitsDiffer(a: nat, b: nat, k: nat)
    requires a < Numbers(k) && b < Numbers(k) && Digits(a, k) == Digits(b, k)
    ensures a == b
  {
    if k > 0 {
      var front, last := Digits(a / 16, k - 1), HEX[a % 16];
      assert Digits(a, k)[..k - 1] == front && Digits(b, k)[..k - 1] == Digits(b / 16, k - 1);
      assert Digits(a, k)[k - 1] == last && Digits(b, k)[k - 1] == HEX[b % 16];
      DigitsDiffer(a / 16, b / 16, k - 1);
      HexDiffers(a % 16, b % 16);
    }
  }

  function Value(digit: char): (n: nat)
    requires digit in HEX
    ensures n < 16 && HEX[n] == digit
  {
    var n :| 0 <= n < 16 && HEX[n] == digit;
    n
  }

  lemma {:induction false} DigitsOf(ref: string, k: nat) returns (n: nat)
    requires |ref| == k && forall i :: 0 <= i < k ==> ref[i] in HEX
    ensures n < Numbers(k) && Digits(n, k) == ref
  {
    if k == 0 {
      n := 0;
    } else {
      var front := DigitsOf(ref[..k - 1], k - 1);
      n := 16 * front + Value(ref[k - 1]);
      assert n / 16 == front && n % 16 == Value(ref[k - 1]);
    }
  }

  /** The refs a draw may give are exactly the numbers below `REFS`, each written in eight hex digits. */
  lemma DrawableExactly(ref: Ref)
    ensures Drawable(ref) <==> exists n: nat :: n < REFS && ref == Digits(n, 8)
  {
    assert Numbers(8) == REFS by {
      assert Numbers(4) == 65536;
    }
    if Drawable(ref) {
      var n := DigitsOf(ref, 8);
    }
  }

  function Candidates(m: nat): (refs: seq<Ref>)
    ensures |refs| == m
  {
    seq(m, n requires 0 <= n => Digits(n, 8))
  }

  lemma CandidatesDiffer(m: nat)
    requires m <= REFS
    ensures Distinct(Candidates(m))
  {
    assert Numbers(8) == REFS by {
      assert Numbers(4) == 65536;
    }
    forall i, j | 0 <= i < j < m ensures Candidates(m)[i] != Candidates(m)[j] {
      if Digits(i, 8) == Digits(j, 8) {
        DigitsDiffer(i, j, 8);
      }
    }
  }

  function Members(refs: seq<Ref>): set<Ref> {
    set i | 0 <= i < |refs| :: refs[i]
  }

  lemma {:induction false} MembersCount(refs: seq<Ref>)
    ensures |Members(refs)| <= |refs|
    ensures Distinct(refs) ==> |Members(refs)| == |refs|
  {
    if refs != [] {
      var front, last := refs[..|refs| - 1], refs[|refs| - 1];
      MembersCount(front);
      assert Members(refs) == Members(front) + {last};
    }
  }

  lemma SubsetCount(a: set<Ref>, b: set<Ref>)
    requires a <= b
    ensures |a| <= |b|
  {
    assert b == a + (b - a);
  }

  /** Among more candidates than there are refs taken, one is not. */
  lemma SomeIsFresh(taken: seq<Ref>, candidates: seq<Ref>)
    requires Distinct(candidates) && |taken| < |candidates|
    ensures exists i :: 0 <= i < |candidates| && candidates[i] !in taken
  {
    if Members(candidates) <= Members(taken) {
      SubsetCount(Members(candidates), Members(taken));
    }
    MembersCount(taken);
    MembersCount(candidates);
    var ref :| ref in Members(candidates) && ref !in Members(taken);
    var i :| 0 <= i < |candidates| && candidates[i] == ref;
  }

  // ---------------------------------------------------------------- which lists are safe to write

  /** The items' own refs differ, and none that a draw may give follows an item without one. */
  predicate Safe(items: seq<Item>) {
    && (forall i, j :: 0 <= i < j < |items| && HasOwn(items[i]) && HasOwn(items[j]) ==> items[i].ref != items[j].ref)
    && (forall i, j :: 0 <= i < j < |items| && HasOwn(items[j]) && Drawable(items[j].ref.value) ==> HasOwn(items[i]))
  }

  lemma FirstFreshIsDrawn(taken: seq<Ref>, draws: seq<Ref>)
    ensures FirstFresh(taken, draws).Some? ==> FirstFresh(taken, draws).value in draws
  {
  }

  /** What is not an item's own was drawn. */
  lemma {:induction false} GivenIsDrawable(items: seq<Item>, draws: seq<seq<Ref>>, n: nat)
    requires |draws| == |items| && n <= |items| && Given(items, draws, n).Some? && AllDrawable(draws)
    ensures forall i :: 0 <= i < n && !HasOwn(items[i]) ==> Drawable(Given(items, draws, n).value[i])
  {
    if n > 0 {
      GivenIsDrawable(items, draws, n - 1);
      if !HasOwn(items[n - 1]) {
        FirstFreshIsDrawn(Given(items, draws, n - 1).value, draws[n - 1]);
      }
    }
  }

  lemma SafeIsWritten(items: seq<Item>, draws: seq<seq<Ref>>)
    requires |draws| == |items| && AllDrawable(draws) && Given(items, draws, |items|).Some? && Safe(items)
    ensures Distinct(Given(items, draws, |items|).value)
  {
    GivenIs(items, draws, |items|);
    GivenIsDrawable(items, draws, |items|);
    hide Given, Drawable, AllDrawable;
  }

  /** Enough draws for every item, that of item `odd` beginning with `ref`. */
  function Draws(items: seq<Item>, odd: nat, ref: Ref): (draws: seq<seq<Ref>>)
    ensures |draws| == |items|
  {
    var enough := Candidates(|items|);
    seq(|items|, i requires 0 <= i < |items| => if i == odd then [ref] + enough else enough)
  }

  lemma DrawsAreDrawable(items: seq<Item>, odd: nat, ref: Ref)
    requires odd < |items| ==> Drawable(ref)
    ensures AllDrawable(Draws(items, odd, ref))
  {
  }

  lemma {:induction false} DrawsSuffice(items: seq<Item>, odd: nat, ref: Ref, n: nat)
    requires n <= |items| <= REFS
    ensures Given(items, Draws(items, odd, ref), n).Some?
  {
    if n > 0 {
      DrawsSuffice(items, odd, ref, n - 1);
      var before, draws := Given(items, Draws(items, odd, ref), n - 1).value, Draws(items, odd, ref)[n - 1];
      CandidatesDiffer(|items|);
      SomeIsFresh(before, Candidates(|items|));
      var i :| 0 <= i < |items| && Candidates(|items|)[i] !in before;
      assert draws[if n - 1 == odd then i + 1 else i] !in before;
      FirstFreshIs(before, draws);
    }
  }

  /** The odd item, if it has none of its own, is given `ref`, or an item before it was. */
  lemma OddIsGiven(items: seq<Item>, odd: nat, ref: Ref)
    requires odd < |items| <= REFS && !HasOwn(items[odd])
    ensures var refs := Given(items, Draws(items, odd, ref), odd + 1);
            refs.Some? && exists i :: 0 <= i <= odd && refs.value[i] == ref
  {
    DrawsSuffice(items, odd, ref, odd + 1);
    var before := Given(items, Draws(items, odd, ref), odd).value;
    var refs := Given(items, Draws(items, odd, ref), odd + 1).value;
    assert Draws(items, odd, ref)[odd][0] == ref;
    if ref in before {
      var i :| 0 <= i < |before| && before[i] == ref;
      assert refs[i] == ref;
    } else {
      assert refs[odd] == ref;
    }
  }

  lemma {:induction false} GivenGrows(items: seq<Item>, draws: seq<seq<Ref>>, m: nat, n: nat)
    requires |draws| == |items| && m <= n <= |items| && Given(items, draws, n).Some?
    ensures Given(items, draws, m).Some? && Given(items, draws, m).value <= Given(items, draws, n).value
  {
    if m < n {
      GivenGrows(items, draws, m, n - 1);
    }
  }

  /** Every list whose own refs differ, and where none that a draw may give follows an item without
      one, is written, whatever is drawn. Every other, unless it has more items than there are refs,
      is lost on some draws: a draw for the one item comes out as the ref of the other, and then the
      old list is gone and the new one refused. */
  lemma WrittenExactly(items: seq<Item>)
    ensures Safe(items) ==> AlwaysWritten(items)
    ensures |items| <= REFS ==> (Safe(items) <==> AlwaysWritten(items))
  {
    if Safe(items) {
      forall draws | |draws| == |items| && AllDrawable(draws) && Given(items, draws, |items|).Some?
        ensures Unique(Created(items, Given(items, draws, |items|).value))
      {
        SafeIsWritten(items, draws);
        DistinctIsUnique(items, Given(items, draws, |items|).value);
      }
    } else if |items| <= REFS {
      var draws := Clashing(items);
      DistinctIsUnique(items, Given(items, draws, |items|).value);
    }
  }

  ghost predicate AlwaysWritten(items: seq<Item>) {
    forall draws :: |draws| == |items| && AllDrawable(draws) && Given(items, draws, |items|).Some? ==>
      Unique(Created(items, Given(items, draws, |items|).value))
  }

  lemma Clashing(items: seq<Item>) returns (draws: seq<seq<Ref>>)
    requires !Safe(items) && |items| <= REFS
    ensures |draws| == |items| && AllDrawable(draws)
    ensures Given(items, draws, |items|).Some? && !Distinct(Given(items, draws, |items|).value)
  {
    if exists i, j :: 0 <= i < j < |items| && HasOwn(items[i]) && HasOwn(items[j]) && items[i].ref == items[j].ref {
      var i, j :| 0 <= i < j < |items| && HasOwn(items[i]) && HasOwn(items[j]) && items[i].ref == items[j].ref;
      draws := Draws(items, |items|, "");
      OwnAgain(items, i, j);
    } else {
      var i, j :| 0 <= i < j < |items| && HasOwn(items[j]) && Drawable(items[j].ref.value) && !HasOwn(items[i]);
      draws := Draws(items, i, items[j].ref.value);
      DrawnFirst(items, i, j);
    }
  }

  lemma OwnAgain(items: seq<Item>, i: nat, j: nat)
    requires i < j < |items| <= REFS && HasOwn(items[i]) && HasOwn(items[j]) && items[i].ref == items[j].ref
    ensures var draws := Draws(items, |items|, "");
            && AllDrawable(draws) && Given(items, draws, |items|).Some?
            && !Distinct(Given(items, draws, |items|).value)
  {
    var draws := Draws(items, |items|, "");
    DrawsAreDrawable(items, |items|, "");
    DrawsSuffice(items, |items|, "", |items|);
    hide Draws, AllDrawable;
    GivenIs(items, draws, |items|);
    hide Given;
    assert Given(items, draws, |items|).value[i] == Given(items, draws, |items|).value[j];
  }

  lemma DrawnFirst(items: seq<Item>, i: nat, j: nat)
    requires i < j < |items| <= REFS && !HasOwn(items[i]) && HasOwn(items[j]) && Drawable(items[j].ref.value)
    ensures var draws := Draws(items, i, items[j].ref.value);
            && AllDrawable(draws) && Given(items, draws, |items|).Some?
            && !Distinct(Given(items, draws, |items|).value)
  {
    var ref := items[j].ref.value;
    var draws := Draws(items, i, ref);
    DrawsAreDrawable(items, i, ref);
    DrawsSuffice(items, i, ref, |items|);
    OddIsGiven(items, i, ref);
    hide Draws, AllDrawable, Drawable, Distinct;
    GivenGrows(items, draws, i + 1, |items|);
    GivenIs(items, draws, |items|);
    hide Given;
    var before, refs := Given(items, draws, i + 1).value, Given(items, draws, |items|).value;
    var k :| 0 <= k <= i && before[k] == ref;
    Clash(before, refs, k, j);
  }

  lemma Clash(before: seq<Ref>, refs: seq<Ref>, k: nat, j: nat)
    requires before <= refs && k < |before| <= j < |refs| && before[k] == refs[j]
    ensures !Distinct(refs)
  {
    assert refs[k] == before[k];
  }

  /** Two items, the second with the ref that is drawn for the first. */
  lemma ClashLosesTheList(first: Ref, status: Status)
    requires Drawable(first)
    ensures var items := [Item(None, status, None, []), Item(Some(first), status, None, [])];
            var refs := Given(items, [[first], []], 2);
            AllDrawable([[first], []]) && refs == Some([first, first]) && !Unique(Created(items, refs.value))
  {
    var items := [Item(None, status, None, []), Item(Some(first), status, None, [])];
    var draws: seq<seq<Ref>> := [[first], []];
    assert Given(items, draws, 1) == Some([first]) by { assert [] + [first] == [first]; }
    assert [first] + [first] == [first, first];
    var created := Created(items, [first, first]);
    assert created[0].ref == created[1].ref;
  }

  // ---------------------------------------------------------------- the store

  method FreshRef(taken: set<Ref>, ghost given: seq<Ref>, draws: seq<Ref>) returns (ref: Option<Ref>)
    requires forall r :: r in taken <==> r in given
    ensures ref == FirstFresh(given, draws)
    ensures ref.Some? <==> exists i :: 0 <= i < |draws| && draws[i] !in taken
    ensures ref.Some? ==> ref.value in draws && ref.value !in taken
  {
    assert draws[0..] == draws;
    FirstFreshIs(given, draws);
    for i := 0 to |draws|
      invariant FirstFresh(given, draws[i..]) == FirstFresh(given, draws)
    {
      assert draws[i..][1..] == draws[i + 1..];
      if draws[i] !in taken {
        return Some(draws[i]);
      }
    }
    return None;
  }

  /** The todo's ref is the first of its draws that none before it has. */
  ghost predicate FirstUngiven(todos: seq<Todo>, i: nat, draws: seq<Ref>)
    requires i < |todos|
  {
    exists k :: 0 <= k < |draws| && todos[i].ref == draws[k]
                && (forall j :: 0 <= j < i ==> todos[j].ref != draws[k])
                && forall l :: 0 <= l < k ==> exists j :: 0 <= j < i && todos[j].ref == draws[l]
  }

  lemma {:induction false} FirstFreshAt(taken: seq<Ref>, draws: seq<Ref>) returns (k: nat)
    requires FirstFresh(taken, draws).Some?
    ensures k < |draws| && FirstFresh(taken, draws).value == draws[k] && draws[k] !in taken
    ensures forall l :: 0 <= l < k ==> draws[l] in taken
  {
    if draws[0] !in taken {
      k := 0;
    } else {
      k := FirstFreshAt(taken, draws[1..]);
      k := k + 1;
    }
  }

  lemma GivenFirst(items: seq<Item>, draws: seq<seq<Ref>>, i: nat)
    requires |draws| == |items| && i < |items| && Given(items, draws, |items|).Some? && !HasOwn(items[i])
    ensures FirstUngiven(Created(items, Given(items, draws, |items|).value), i, draws[i])
  {
    var refs := Given(items, draws, |items|).value;
    GivenGrows(items, draws, i, |items|);
    GivenGrows(items, draws, i + 1, |items|);
    var before := Given(items, draws, i).value;
    assert before == refs[..i] && Given(items, draws, i + 1).value == refs[..i + 1];
    var k := FirstFreshAt(before, draws[i]);
    hide Given;
    var todos := Created(items, refs);
    assert todos[i].ref == draws[i][k];
    forall j | 0 <= j < i ensures todos[j].ref != draws[i][k] {
      assert todos[j].ref == before[j];
    }
    forall l | 0 <= l < k ensures exists j :: 0 <= j < i && todos[j].ref == draws[i][l] {
      var j :| 0 <= j < |before| && before[j] == draws[i][l];
      assert todos[j].ref == draws[i][l];
    }
  }

  class TodoManager {
    var todos: seq<Todo>

    constructor ()
      ensures todos == []
    {
      todos := [];
    }

    /** `draws` are the refs drawn for each item, enough of them to come to a fresh one. */
    method WriteTodos(items: seq<Item>, draws: seq<seq<Ref>>) returns (deleted: seq<Todo>, written: bool)
      requires |draws| == |items| && AllDrawable(draws) && Given(items, draws, |items|).Some?
      modifies this
      ensures deleted == old(todos)
      ensures var created := Created(items, Given(items, draws, |items|).value);
              && (written <==> Unique(created))
              && todos == if written then created else []
      ensures Safe(items) ==> written
      ensures written ==>
                && |todos| == |items|
                && forall i :: 0 <= i < |items| ==>
                     && todos[i].status == items[i].status && todos[i].parent == items[i].parent
                     && todos[i].dependsOn == items[i].dependsOn
                     && (if items[i].ref.Some? && items[i].ref.value != "" then todos[i].ref == items[i].ref.value
                         else FirstUngiven(todos, i, draws[i]))
    {
      deleted := todos;
      todos := [];
      var taken: set<Ref> := {};
      var refs: seq<Ref> := [];
      written := true;
      for i := 0 to |items|
        invariant Given(items, draws, i) == Some(refs)
        invariant forall ref :: ref in taken <==> ref in refs
        invariant written <==> Distinct(refs)
        invariant todos == []
      {
        GivenSoFar(items, draws, i + 1);
        var ref: Ref;
        if HasOwn(items[i]) {
          ref := items[i].ref.value;
        } else {
          var drawn := FreshRef(taken, refs, draws[i]);
          ref := drawn.value;
        }
        OneMoreDistinct(refs, ref);
        if ref in taken {
          written := false;
        }
        taken := taken + {ref};
        refs := refs + [ref];
      }
      DistinctIsUnique(items, refs);
      if Safe(items) {
        SafeIsWritten(items, draws);
      }
      if written {
        todos := Created(items, refs);
        GivenIs(items, draws, |items|);
        forall i | 0 <= i < |items| && !HasOwn(items[i]) ensures FirstUngiven(todos, i, draws[i]) {
          GivenFirst(items, draws, i);
        }
      }
    }
  }

  lemma {:induction false} GivenSoFar(items: seq<Item>, draws: seq<seq<Ref>>, n: nat)
    requires |draws| == |items| && n <= |items| && Given(items, draws, |items|).Some?
    ensures Given(items, draws, n).Some?
    decreases |items| - n
  {
    if n < |items| {
      GivenSoFar(items, draws, n + 1);
    }
  }

  lemma OneMoreDistinct(refs: seq<Ref>, ref: Ref)
    ensures Distinct(refs + [ref]) <==> Distinct(refs) && ref !in refs
  {
    var more := refs + [ref];
    assert forall i :: 0 <= i < |refs| ==> more[i] == refs[i];
    if ref in refs {
      var i :| 0 <= i < |refs| && refs[i] == ref;
      assert more[i] == more[|refs|];
    }
  }
}
