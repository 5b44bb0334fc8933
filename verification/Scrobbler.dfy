/** The scrobbler's retry buffer: failed submissions wait in it, and flushes take them out in batches,
    with any number of submissions and flushes under way at once. */
module Scrobbler {
  import opened Wrappers

  datatype Scrobble = Scrobble(artist: string, title: string, timestamp: int)

  const BATCH_SIZE := 50

  /** A flush under way: what it has still to submit, and what failed again. */
  datatype Flush = Flush(left: seq<Scrobble>, failed: seq<Scrobble>)

  /** The buffer and the flushes under way; `queued` and `accepted` count what has ever been
      put up for retry and what a retry got through. */
  datatype State = State(
    pending: seq<Scrobble>, flushes: seq<Flush>, queued: multiset<Scrobble>, accepted: multiset<Scrobble>)

  const INITIAL := State([], [], multiset{}, multiset{})

  datatype Action =
    | SubmissionFails(scrobble: Scrobble)
    | StartFlush
    | Retry(flush: nat, ok: bool)
    | FinishFlush(flush: nat)

  function Batch(pending: seq<Scrobble>): nat {
    if |pending| < BATCH_SIZE then |pending| else BATCH_SIZE
  }

  /** When an action can happen: a flush submits its batch one by one, then finishes. */
  predicate Enabled(s: State, a: Action) {
    match a
    case SubmissionFails(_) => true
    case StartFlush => s.pending != []
    case Retry(i, _) => i < |s.flushes| && s.flushes[i].left != []
    case FinishFlush(i) => i < |s.flushes| && s.flushes[i].left == []
  }

  function Step(s: State, a: Action): State
    requires Enabled(s, a)
  {
    match a
    case SubmissionFails(x) => s.(pending := s.pending + [x], queued := s.queued + multiset{x})
    case StartFlush =>
      var n := Batch(s.pending);
      s.(pending := s.pending[n..], flushes := s.flushes + [Flush(s.pending[..n], [])])
    case Retry(i, ok) =>
      var f := s.flushes[i];
      var x := f.left[0];
      if ok then s.(flushes := s.flushes[i := Flush(f.left[1..], f.failed)], accepted := s.accepted + multiset{x})
      else s.(flushes := s.flushes[i := Flush(f.left[1..], f.failed + [x])])
    case FinishFlush(i) =>
      s.(pending := s.flushes[i].failed + s.pending, flushes := s.flushes[..i] + s.flushes[i + 1..])
  }

  // Nothing is lost or duplicated.

  function Held(f: Flush): multiset<Scrobble> {
    multiset(f.failed) + multiset(f.left)
  }

  function InFlight(flushes: seq<Flush>): multiset<Scrobble> {
    if flushes == [] then multiset{} else InFlight(flushes[..|flushes| - 1]) + Held(flushes[|flushes| - 1])
  }

  lemma {:induction false} InFlightOfSum(a: seq<Flush>, b: seq<Flush>)
    ensures InFlight(a + b) == InFlight(a) + InFlight(b)
    decreases |b|
  {
    hide Held;
    if b == [] {
      assert a + b == a;
    } else {
      InFlightOfSum(a, b[..|b| - 1]);
      assert (a + b)[..|a + b| - 1] == a + b[..|b| - 1];
    }
  }

  /** A flush set apart from the others. */
  lemma InFlightAt(flushes: seq<Flush>, i: nat, f: Flush)
    requires i < |flushes|
    ensures InFlight(flushes[i := f]) == InFlight(flushes[..i] + flushes[i + 1..]) + Held(f)
  {
    hide Held, InFlight;
    var rest := flushes[i + 1..];
    InFlightOfOne(f);
    InFlightOfSum(flushes[..i], rest);
    InFlightOfSum(flushes[..i], [f]);
    InFlightOfSum(flushes[..i] + [f], rest);
    assert flushes[i := f] == flushes[..i] + [f] + rest;
  }

  /** What was ever put up for retry got through, or is in a batch, or is pending: each as often as it was queued. */
  ghost predicate Conserved(s: State) {
    s.queued == s.accepted + InFlight(s.flushes) + multiset(s.pending)
  }

  lemma StartConserves(s: State)
    requires Conserved(s) && s.pending != []
    ensures Conserved(Step(s, StartFlush))
  {
    hide InFlight;
    var n := Batch(s.pending);
    var f := Flush(s.pending[..n], []);
    assert s.pending == s.pending[..n] + s.pending[n..];
    InFlightOfSum(s.flushes, [f]);
    InFlightOfOne(f);
  }

  lemma InFlightOfOne(f: Flush)
    ensures InFlight([f]) == Held(f)
  {
    hide Held;
    assert [f][..0] == [];
  }

  lemma RetryConserves(s: State, i: nat, ok: bool)
    requires Conserved(s) && Enabled(s, Retry(i, ok))
    ensures Conserved(Step(s, Retry(i, ok)))
  {
    hide InFlight;
    var f := s.flushes[i];
    var g := Step(s, Retry(i, ok)).flushes[i];
    assert f.left == [f.left[0]] + f.left[1..];
    assert Held(f) == Held(g) + if ok then multiset{f.left[0]} else multiset{};
    hide Held;
    InFlightAt(s.flushes, i, f);
    InFlightAt(s.flushes, i, g);
    assert s.flushes[i := f] == s.flushes;
  }

  lemma FinishConserves(s: State, i: nat)
    requires Conserved(s) && Enabled(s, FinishFlush(i))
    ensures Conserved(Step(s, FinishFlush(i)))
  {
    hide InFlight;
    InFlightAt(s.flushes, i, s.flushes[i]);
    assert s.flushes[i := s.flushes[i]] == s.flushes;
  }

  lemma StepConserves(s: State, a: Action)
    requires Conserved(s) && Enabled(s, a)
    ensures Conserved(Step(s, a))
  {
    hide InFlight;
    match a
    case SubmissionFails(x) =>
    case StartFlush => StartConserves(s);
    case Retry(i, ok) => RetryConserves(s, i, ok);
    case FinishFlush(i) => FinishConserves(s, i);
  }

  /** The state after the actions, if each of them could happen when it did. */
  function Run(actions: seq<Action>): Option<State> {
    if actions == [] then Some(INITIAL)
    else
      var last := actions[|actions| - 1];
      match Run(actions[..|actions| - 1])
      case None => None
      case Some(s) => if Enabled(s, last) then Some(Step(s, last)) else None
  }

  /** No interleaving of failing submissions and flushes loses or duplicates a scrobble. */
  lemma {:induction false} RunsConserve(actions: seq<Action>)
    requires Run(actions).Some?
    ensures Conserved(Run(actions).value)
    decreases |actions|
  {
    hide Step, Enabled;
    if actions == [] {
      NothingIsConserved();
    } else {
      var before := actions[..|actions| - 1];
      RunsConserve(before);
      StepConserves(Run(before).value, actions[|actions| - 1]);
    }
  }

  lemma NothingIsConserved()
    ensures Conserved(INITIAL)
  {
  }

  // Order.

  /** What a flush still holds: what has failed again, and what is left to submit. */
  function Load(f: Flush): seq<Scrobble> { f.failed + f.left }

  function Line(flushes: seq<Flush>): seq<Scrobble> {
    if flushes == [] then [] else Line(flushes[..|flushes| - 1]) + Load(flushes[|flushes| - 1])
  }

  /** Everything that waits, the flushes before the buffer. */
  function Lined(s: State): seq<Scrobble> { Line(s.flushes) + s.pending }

  lemma {:induction false} LineOfSum(a: seq<Flush>, b: seq<Flush>)
    ensures Line(a + b) == Line(a) + Line(b)
    decreases |b|
  {
    hide Load;
    if b == [] {
      assert a + b == a;
    } else {
      LineOfSum(a, b[..|b| - 1]);
      assert (a + b)[..|a + b| - 1] == a + b[..|b| - 1];
    }
  }

  lemma LineAt(flushes: seq<Flush>, i: nat, f: Flush)
    requires i < |flushes|
    ensures Line(flushes[i := f]) == Line(flushes[..i]) + Load(f) + Line(flushes[i + 1..])
    ensures Line(flushes[..i] + flushes[i + 1..]) == Line(flushes[..i]) + Line(flushes[i + 1..])
  {
    hide Load;
    LineOfSum(flushes[..i], flushes[i + 1..]);
    LineOfSum(flushes[..i] + [f], flushes[i + 1..]);
    LineOfSum(flushes[..i], [f]);
    assert [f][..0] == [];
    assert flushes[i := f] == flushes[..i] + [f] + flushes[i + 1..];
  }

  /** A flush starts only while no other holds anything. */
  predicate Careful(s: State, a: Action) {
    a.StartFlush? ==> Line(s.flushes) == []
  }

  /** No more than one flush holds anything. */
  ghost predicate Single(flushes: seq<Flush>) {
    forall i :: 0 <= i < |flushes| && Load(flushes[i]) != [] ==>
      Line(flushes[..i]) == [] && Line(flushes[i + 1..]) == []
  }

  /** What submissions have failed, in order. */
  function Arrivals(actions: seq<Action>): seq<Scrobble> {
    if actions == [] then []
    else
      var last := actions[|actions| - 1];
      Arrivals(actions[..|actions| - 1]) + if last.SubmissionFails? then [last.scrobble] else []
  }

  /** `a` is `b` with some elements left out. */
  ghost predicate Within(a: seq<Scrobble>, b: seq<Scrobble>) {
    || a == []
    || (b != [] && (Within(a, b[..|b| - 1])
        || (a[|a| - 1] == b[|b| - 1] && Within(a[..|a| - 1], b[..|b| - 1]))))
  }

  lemma WithinPush(a: seq<Scrobble>, b: seq<Scrobble>, x: Scrobble)
    requires Within(a, b)
    ensures Within(a + [x], b + [x])
  {
    assert (a + [x])[..|a|] == a && (b + [x])[..|b|] == b;
  }

  lemma {:induction false} WithinDrop(a: seq<Scrobble>, b: seq<Scrobble>, k: nat)
    requires Within(a, b) && k < |a|
    ensures Within(a[..k] + a[k + 1..], b)
    decreases |b|
  {
    var m := |b| - 1;
    var shorter := a[..k] + a[k + 1..];
    if Within(a, b[..m]) {
      WithinDrop(a, b[..m], k);
    } else {
      var n := |a| - 1;
      if k == n {
        assert shorter == a[..n];
      } else {
        WithinDrop(a[..n], b[..m], k);
        assert shorter[..|shorter| - 1] == a[..n][..k] + a[..n][k + 1..];
      }
    }
  }

  lemma {:induction false} NothingHeld(flushes: seq<Flush>, i: nat)
    requires Line(flushes) == [] && i < |flushes|
    ensures Load(flushes[i]) == []
    decreases |flushes|
  {
    if i < |flushes| - 1 {
      NothingHeld(flushes[..|flushes| - 1], i);
    }
  }

  lemma LineSplits(flushes: seq<Flush>, i: nat)
    requires i < |flushes|
    ensures Line(flushes) == Line(flushes[..i]) + Load(flushes[i]) + Line(flushes[i + 1..])
  {
    LineAt(flushes, i, flushes[i]);
    assert flushes[i := flushes[i]] == flushes;
  }

  /** After the change of one flush, which alone may hold anything. */
  lemma SingleAfterUpdate(flushes: seq<Flush>, i: nat, f: Flush)
    requires i < |flushes| && Line(flushes[..i]) == [] && Line(flushes[i + 1..]) == []
    ensures Single(flushes[i := f])
  {
    hide Load;
    var after := flushes[i := f];
    forall k | 0 <= k < |after| && Load(after[k]) != []
      ensures Line(after[..k]) == [] && Line(after[k + 1..]) == []
    {
      if k < i {
        assert flushes[..i][k] == after[k];
        NothingHeld(flushes[..i], k);
      } else if i < k {
        assert flushes[i + 1..][k - i - 1] == after[k];
        NothingHeld(flushes[i + 1..], k - i - 1);
      } else {
        assert after[..i] == flushes[..i] && after[i + 1..] == flushes[i + 1..];
      }
    }
  }

  lemma {:induction false} AllEmptyIsSingle(flushes: seq<Flush>)
    requires Line(flushes) == []
    ensures Single(flushes)
  {
    forall i | 0 <= i < |flushes|
      ensures Load(flushes[i]) == []
    {
      NothingHeld(flushes, i);
    }
  }

  lemma RetryKeepsLine(s: State, i: nat, ok: bool)
    requires Single(s.flushes) && Enabled(s, Retry(i, ok))
    ensures var after := Step(s, Retry(i, ok)); var k := |s.flushes[i].failed|;
      && Single(after.flushes) && k < |Lined(s)|
      && Lined(after) == if ok then Lined(s)[..k] + Lined(s)[k + 1..] else Lined(s)
  {
    hide Line, Single, Load;
    var f := s.flushes[i];
    OneRetried(f, s.pending, ok);
    LoneLine(s.flushes, i, if ok then Flush(f.left[1..], f.failed) else Flush(f.left[1..], f.failed + [f.left[0]]));
  }

  lemma LoneLine(flushes: seq<Flush>, i: nat, g: Flush)
    requires Single(flushes) && i < |flushes| && Load(flushes[i]) != []
    ensures Line(flushes) == Load(flushes[i]) && Line(flushes[i := g]) == Load(g) && Single(flushes[i := g])
  {
    hide Line, Single, Load;
    LoneHolder(flushes, i);
    LineSplits(flushes, i);
    LineAt(flushes, i, g);
    SingleAfterUpdate(flushes, i, g);
    assert [] + Load(g) + [] == Load(g);
  }

  lemma LoneHolder(flushes: seq<Flush>, i: nat)
    requires Single(flushes) && i < |flushes| && Load(flushes[i]) != []
    ensures Line(flushes[..i]) == [] && Line(flushes[i + 1..]) == []
  {
    hide Line, Load;
  }

  lemma OneRetried(f: Flush, pending: seq<Scrobble>, ok: bool)
    requires f.left != []
    ensures Load(f) != []
    ensures var g := if ok then Flush(f.left[1..], f.failed) else Flush(f.left[1..], f.failed + [f.left[0]]);
      var k := |f.failed|; var whole := Load(f) + pending;
      k < |whole| && Load(g) + pending == if ok then whole[..k] + whole[k + 1..] else whole
  {
    assert f.left == [f.left[0]] + f.left[1..];
    if !ok {
      assert f.failed + [f.left[0]] + f.left[1..] == f.failed + f.left;
    }
  }

  lemma FinishKeepsLine(s: State, i: nat)
    requires Single(s.flushes) && Enabled(s, FinishFlush(i))
    ensures var after := Step(s, FinishFlush(i)); Single(after.flushes) && Lined(after) == Lined(s)
  {
    hide Line, Single;
    var f := s.flushes[i];
    LineSplits(s.flushes, i);
    LineAt(s.flushes, i, f);
    assert Load(f) == f.failed;
    if f.failed != [] {
      LoneHolder(s.flushes, i);
      AllEmptyIsSingle(s.flushes[..i] + s.flushes[i + 1..]);
    } else {
      SingleWithout(s.flushes, i);
      assert f.failed + s.pending == s.pending;
      assert Line(s.flushes[..i]) + [] + Line(s.flushes[i + 1..]) == Line(s.flushes[..i]) + Line(s.flushes[i + 1..]);
    }
  }

  lemma SingleWithout(flushes: seq<Flush>, i: nat)
    requires Single(flushes) && i < |flushes| && Load(flushes[i]) == []
    ensures Single(flushes[..i] + flushes[i + 1..])
  {
    hide Load, Line;
    var rest := flushes[..i] + flushes[i + 1..];
    forall k | 0 <= k < |rest| && Load(rest[k]) != []
      ensures Line(rest[..k]) == [] && Line(rest[k + 1..]) == []
    {
      var j := if k < i then k else k + 1;
      assert flushes[j] == rest[k];
      LoneHolder(flushes, j);
      if k < i {
        assert rest[..k] == flushes[..j];
        assert flushes[j + 1..] == flushes[j + 1..i] + [flushes[i]] + flushes[i + 1..];
        assert rest[k + 1..] == flushes[j + 1..i] + flushes[i + 1..];
        DropEmpty(flushes[j + 1..i], flushes[i], flushes[i + 1..]);
      } else {
        assert rest[k + 1..] == flushes[j + 1..];
        assert flushes[..j] == flushes[..i] + [flushes[i]] + flushes[i + 1..j];
        assert rest[..k] == flushes[..i] + flushes[i + 1..j];
        DropEmpty(flushes[..i], flushes[i], flushes[i + 1..j]);
      }
    }
  }

  lemma DropEmpty(a: seq<Flush>, f: Flush, b: seq<Flush>)
    requires Load(f) == []
    ensures Line(a + [f] + b) == Line(a + b)
  {
    hide Load;
    LineOfSum(a, b);
    LineOfSum(a + [f], b);
    LineOfSum(a, [f]);
    assert [f][..0] == [];
  }

  lemma StartKeepsLine(s: State)
    requires s.pending != [] && Line(s.flushes) == []
    ensures var after := Step(s, StartFlush); Single(after.flushes) && Lined(after) == Lined(s)
  {
    var n := Batch(s.pending);
    var f := Flush(s.pending[..n], []);
    var after := s.flushes + [f];
    assert s.pending[..n] + s.pending[n..] == s.pending && [] + s.pending[..n] == s.pending[..n];
    assert after[..|s.flushes|] == s.flushes && after[|s.flushes| + 1..] == [];
    assert after == after[|s.flushes| := f];
    SingleAfterUpdate(after, |s.flushes|, f);
    assert Line(after) == Line(s.flushes) + Load(f);
  }

  /** A careful step adds a new arrival at the end, takes out one that got through, or leaves everything
      in its place. */
  lemma StepKeepsLine(s: State, a: Action)
    requires Enabled(s, a) && Careful(s, a) && Single(s.flushes)
    ensures Single(Step(s, a).flushes)
    ensures var after := Lined(Step(s, a));
      match a
      case SubmissionFails(x) => after == Lined(s) + [x]
      case Retry(i, true) =>
        var k := |s.flushes[i].failed|; k < |Lined(s)| && after == Lined(s)[..k] + Lined(s)[k + 1..]
      case _ => after == Lined(s)
  {
    hide Line, Single, Batch;
    match a
    case SubmissionFails(x) => assert Line(s.flushes) + (s.pending + [x]) == Line(s.flushes) + s.pending + [x];
    case StartFlush => StartKeepsLine(s);
    case Retry(i, ok) => RetryKeepsLine(s, i, ok);
    case FinishFlush(i) => FinishKeepsLine(s, i);
  }

  /** Every flush started while no other held anything. */
  ghost predicate Orderly(actions: seq<Action>)
    decreases |actions|
  {
    actions == [] ||
    (var before := actions[..|actions| - 1];
     Orderly(before) && Run(actions).Some? && Run(before).Some? && Careful(Run(before).value, actions[|actions| - 1]))
  }

  /** In such a run what waits is always in the order in which it failed first. */
  lemma {:induction false} LoneFlushesKeepOrder(actions: seq<Action>)
    requires Orderly(actions)
    ensures Run(actions).Some? && Single(Run(actions).value.flushes)
    ensures Within(Lined(Run(actions).value), Arrivals(actions))
    decreases |actions|
  {
    hide Step, Enabled, Lined, Careful, Single;
    if actions == [] {
      NothingIsLined();
    } else {
      var before, a := actions[..|actions| - 1], actions[|actions| - 1];
      LoneFlushesKeepOrder(before);
      var s := Run(before).value;
      StepKeepsLine(s, a);
      match a {
        case SubmissionFails(x) => WithinPush(Lined(s), Arrivals(before), x);
        case Retry(i, ok) =>
          if ok {
            RetryIsOf(s, i, ok);
            WithinDrop(Lined(s), Arrivals(before), |s.flushes[i].failed|);
          }
        case StartFlush =>
        case FinishFlush(_) =>
      }
      assert Arrivals(before) + [] == Arrivals(before);
    }
  }

  lemma RetryIsOf(s: State, i: nat, ok: bool)
    requires Enabled(s, Retry(i, ok))
    ensures i < |s.flushes|
  {
  }

  lemma NothingIsLined()
    ensures Lined(INITIAL) == [] && Single(INITIAL.flushes)
  {
  }

  lemma RunOne(actions: seq<Action>, s: State, a: Action)
    requires Run(actions) == Some(s) && Enabled(s, a)
    ensures Run(actions + [a]) == Some(Step(s, a))
    ensures Arrivals(actions + [a]) == Arrivals(actions) + if a.SubmissionFails? then [a.scrobble] else []
  {
    assert (actions + [a])[..|actions|] == actions;
  }

  lemma {:induction false} RunAll(actions: seq<Action>, s: State, a: Action, b: Action)
    requires Run(actions) == Some(s) && Enabled(s, a) && Enabled(Step(s, a), b)
    requires !b.SubmissionFails?
    ensures Run(actions + [a, b]) == Some(Step(Step(s, a), b))
    ensures Arrivals(actions + [a, b]) == Arrivals(actions) + if a.SubmissionFails? then [a.scrobble] else []
  {
    hide Step, Enabled, Run, Arrivals;
    RunOne(actions, s, a);
    RunOne(actions + [a], Step(s, a), b);
    assert actions + [a] + [b] == actions + [a, b];
  }

  /** A scrobble that fails, and a flush that takes it. */
  lemma FailAndTake(s: State, x: Scrobble)
    requires s.pending == []
    ensures Step(Step(s, SubmissionFails(x)), StartFlush)
      == State([], s.flushes + [Flush([x], [])], s.queued + multiset{x}, s.accepted)
  {
    var failed := s.pending + [x];
    assert failed == [x] && failed[..1] == [x] && failed[1..] == [];
  }

  lemma FailAgain(s: State, x: Scrobble, y: Scrobble)
    requires s.flushes == [Flush([x], []), Flush([y], [])]
    ensures Enabled(s, Retry(0, false)) && Enabled(Step(s, Retry(0, false)), Retry(1, false))
    ensures Step(Step(s, Retry(0, false)), Retry(1, false)) == s.(flushes := [Flush([], [x]), Flush([], [y])])
  {
    assert [x][1..] == [] && [y][1..] == [] && [] + [x] == [x] && [] + [y] == [y];
    var t := Step(s, Retry(0, false));
    assert t.flushes == [Flush([], [x]), Flush([y], [])];
  }

  lemma FinishBoth(s: State, x: Scrobble, y: Scrobble)
    requires s.flushes == [Flush([], [x]), Flush([], [y])] && s.pending == []
    ensures Enabled(s, FinishFlush(0)) && Enabled(Step(s, FinishFlush(0)), FinishFlush(0))
    ensures Step(Step(s, FinishFlush(0)), FinishFlush(0)).pending == [y, x]
  {
  }

  /** Overlapping flushes can put a later scrobble before an earlier one. */
  lemma OverlapReorders(x: Scrobble, y: Scrobble)
    ensures exists actions :: Run(actions).Some? && Run(actions).value.pending == [y, x] && Arrivals(actions) == [x, y]
  {
    hide Step, Run, Arrivals;
    NothingHasRun();
    var taken := [SubmissionFails(x), StartFlush];
    FailAndTake(INITIAL, x);
    CanFailAndTake(INITIAL, x);
    RunAll([], INITIAL, SubmissionFails(x), StartFlush);
    var s2 := Run([] + taken).value;
    FailAndTake(s2, y);
    CanFailAndTake(s2, y);
    RunAll([] + taken, s2, SubmissionFails(y), StartFlush);
    var both := [] + taken + [SubmissionFails(y), StartFlush];
    var s4 := Run(both).value;
    FailAgain(s4, x, y);
    RunAll(both, s4, Retry(0, false), Retry(1, false));
    var s6 := Run(both + [Retry(0, false), Retry(1, false)]).value;
    FinishBoth(s6, x, y);
    RunAll(both + [Retry(0, false), Retry(1, false)], s6, FinishFlush(0), FinishFlush(0));
  }

  lemma CanFailAndTake(s: State, x: Scrobble)
    ensures Enabled(s, SubmissionFails(x)) && Enabled(Step(s, SubmissionFails(x)), StartFlush)
  {
  }

  lemma NothingHasRun()
    ensures Run([]) == Some(INITIAL) && Arrivals([]) == []
  {
  }

  // The care is exact.

  ghost predicate Distinct(b: seq<Scrobble>) {
    forall i, j :: 0 <= i < j < |b| ==> b[i] != b[j]
  }

  /** Leaving elements out keeps the others in their order. */
  lemma {:induction false} WithinKeepsOrder(a: seq<Scrobble>, b: seq<Scrobble>, i: nat, j: nat) returns (p: nat, q: nat)
    requires Within(a, b) && i < j < |a|
    ensures p < q < |b| && b[p] == a[i] && b[q] == a[j]
    decreases |b|
  {
    var n, m := |a| - 1, |b| - 1;
    if Within(a, b[..m]) {
      p, q := WithinKeepsOrder(a, b[..m], i, j);
    } else if j < n {
      p, q := WithinKeepsOrder(a[..n], b[..m], i, j);
    } else {
      p := WithinHas(a[..n], b[..m], i);
      q := m;
    }
  }

  lemma {:induction false} WithinHas(a: seq<Scrobble>, b: seq<Scrobble>, i: nat) returns (p: nat)
    requires Within(a, b) && i < |a|
    ensures p < |b| && b[p] == a[i]
    decreases |b|
  {
    var n, m := |a| - 1, |b| - 1;
    if Within(a, b[..m]) {
      p := WithinHas(a, b[..m], i);
    } else if i < n {
      p := WithinHas(a[..n], b[..m], i);
    } else {
      p := m;
    }
  }

  /** `more` can happen after `actions`, and starts flushes only with care. */
  ghost predicate Continues(actions: seq<Action>, more: seq<Action>)
    requires Run(actions).Some?
    decreases |more|
  {
    more == [] ||
    (var before := more[..|more| - 1];
     Continues(actions, before) && Run(actions + more).Some? && Run(actions + before).Some?
     && Careful(Run(actions + before).value, more[|more| - 1]))
  }

  ghost predicate InOrder(actions: seq<Action>) {
    Run(actions).Some? && Within(Lined(Run(actions).value), Arrivals(actions))
  }

  /** However an orderly continuation goes, what waits stays in order. */
  ghost predicate StaysInOrder(actions: seq<Action>)
    requires Run(actions).Some?
  {
    forall more :: Continues(actions, more) ==> InOrder(actions + more)
  }

  lemma {:induction false} OrderlyContinues(actions: seq<Action>, more: seq<Action>)
    requires Orderly(actions) && Run(actions).Some? && Continues(actions, more)
    ensures Orderly(actions + more)
    decreases |more|
  {
    hide Run, Careful;
    if more == [] {
      assert actions + more == actions;
    } else {
      var before := more[..|more| - 1];
      OrderlyContinues(actions, before);
      assert (actions + more)[..|actions + more| - 1] == actions + before;
    }
  }

  lemma ContinueOne(actions: seq<Action>, more: seq<Action>, s: State, a: Action)
    requires Run(actions).Some? && Continues(actions, more) && Run(actions + more) == Some(s)
    requires Enabled(s, a) && !a.StartFlush? && !a.SubmissionFails?
    ensures Continues(actions, more + [a]) && Run(actions + (more + [a])) == Some(Step(s, a))
    ensures Arrivals(actions + (more + [a])) == Arrivals(actions + more)
  {
    hide Run, Enabled, Step, Arrivals;
    RunOne(actions + more, s, a);
    assert actions + more + [a] == actions + (more + [a]);
    assert (more + [a])[..|more|] == more;
    assert Arrivals(actions + more) + [] == Arrivals(actions + more);
  }

  /** Every retry of one flush is refused. */
  lemma {:induction false} RefuseAll(actions: seq<Action>, more: seq<Action>, s: State, i: nat)
    returns (longer: seq<Action>)
    requires Run(actions).Some? && Continues(actions, more) && Run(actions + more) == Some(s) && i < |s.flushes|
    ensures Continues(actions, longer)
    ensures Run(actions + longer) == Some(s.(flushes := s.flushes[i := Flush([], Load(s.flushes[i]))]))
    ensures Arrivals(actions + longer) == Arrivals(actions + more)
    decreases |s.flushes[i].left|
  {
    hide Run, Arrivals, Continues;
    var f := s.flushes[i];
    if f.left == [] {
      longer := more;
      assert Load(f) == f.failed by { assert f.failed + [] == f.failed; }
      assert f == Flush([], Load(f));
      assert s.flushes[i := Flush([], Load(f))] == s.flushes;
    } else {
      ContinueOne(actions, more, s, Retry(i, false));
      var t := Step(s, Retry(i, false));
      longer := RefuseAll(actions, more + [Retry(i, false)], t, i);
      assert f.failed + [f.left[0]] + f.left[1..] == f.failed + f.left;
      assert t.flushes[i := Flush([], Load(f))] == s.flushes[i := Flush([], Load(f))];
    }
  }

  lemma HolderIsThere(flushes: seq<Flush>) returns (i: nat)
    requires Line(flushes) != []
    ensures i < |flushes| && Load(flushes[i]) != []
  {
    hide Load;
    if forall k :: 0 <= k < |flushes| ==> Load(flushes[k]) == [] {
      EmptyLine(flushes);
    }
    i :| 0 <= i < |flushes| && Load(flushes[i]) != [];
  }

  lemma {:induction false} EmptyLine(flushes: seq<Flush>)
    requires forall k :: 0 <= k < |flushes| ==> Load(flushes[k]) == []
    ensures Line(flushes) == []
    decreases |flushes|
  {
    hide Load;
    if flushes != [] {
      EmptyLine(flushes[..|flushes| - 1]);
    }
  }

  /** Both flushes are refused everything, and the older one finishes first: the batch of the newer
      one comes out ahead of what the older one held. */
  lemma NewerComesFirst(actions: seq<Action>, s: State, i: nat) returns (more: seq<Action>)
    requires Run(actions) == Some(s) && |s.flushes| > 0 && i < |s.flushes| - 1
    ensures Continues(actions, more) && Run(actions + more).Some?
    ensures Arrivals(actions + more) == Arrivals(actions)
    ensures Run(actions + more).value.pending == Load(s.flushes[|s.flushes| - 1]) + (Load(s.flushes[i]) + s.pending)
    ensures Run(actions + more).value.flushes == (s.flushes[..i] + s.flushes[i + 1..])[..|s.flushes| - 2]
  {
    hide Run, Arrivals, Load;
    var n := |s.flushes| - 1;
    var f, g := s.flushes[i], s.flushes[n];
    assert actions + [] == actions;
    assert Continues(actions, []);
    hide Continues;
    more := RefuseAll(actions, [], s, i);
    var s1 := s.(flushes := s.flushes[i := Flush([], Load(f))]);
    more := RefuseAll(actions, more, s1, n);
    var s2 := s1.(flushes := s1.flushes[n := Flush([], Load(g))]);
    ContinueOne(actions, more, s2, FinishFlush(i));
    var s3 := Step(s2, FinishFlush(i));
    more := more + [FinishFlush(i)];
    BothFinish(s, s2, i, Load(f), Load(g));
    ContinueOne(actions, more, s3, FinishFlush(n - 1));
    more := more + [FinishFlush(n - 1)];
  }

  lemma BothFinish(s: State, s2: State, i: nat, f: seq<Scrobble>, g: seq<Scrobble>)
    requires |s.flushes| > 0 && i < |s.flushes| - 1
    requires var n := |s.flushes| - 1; s2 == s.(flushes := s.flushes[i := Flush([], f)][n := Flush([], g)])
    ensures var n := |s.flushes| - 1; Enabled(s2, FinishFlush(i)) && Enabled(Step(s2, FinishFlush(i)), FinishFlush(n - 1))
    ensures var n := |s.flushes| - 1; var s4 := Step(Step(s2, FinishFlush(i)), FinishFlush(n - 1));
      && s4.pending == g + (f + s.pending) && s4.flushes == (s.flushes[..i] + s.flushes[i + 1..])[..n - 1]
  {
    var n := |s.flushes| - 1;
    var s3 := Step(s2, FinishFlush(i));
    assert s3.flushes == s2.flushes[..i] + s2.flushes[i + 1..] && s3.flushes[n - 1] == Flush([], g);
    var s4 := Step(s3, FinishFlush(n - 1));
    assert s4.flushes == s3.flushes[..n - 1] + s3.flushes[n..];
    assert s4.flushes == (s.flushes[..i] + s.flushes[i + 1..])[..n - 1];
  }

  /** Starting a flush keeps everything in order, however it goes on, if and only if no flush under way
      still holds a scrobble. Equal scrobbles cannot be told apart, so none arrives twice. */
  lemma StartKeepsOrderExactly(actions: seq<Action>)
    requires Orderly(actions) && Run(actions).Some? && Distinct(Arrivals(actions))
    requires Run(actions).value.pending != []
    ensures Run(actions + [StartFlush]).Some?
    ensures Careful(Run(actions).value, StartFlush) <==> StaysInOrder(actions + [StartFlush])
  {
    hide Run, Arrivals, Within, Lined, InOrder, Distinct;
    var s := Run(actions).value;
    RunOne(actions, s, StartFlush);
    var started := actions + [StartFlush];
    if Careful(s, StartFlush) {
      assert started[..|actions|] == actions && Orderly(started);
      forall more | Continues(started, more)
        ensures InOrder(started + more)
      {
        OrderlyContinues(started, more);
        LoneFlushesKeepOrder(started + more);
        InOrderIs(started + more);
      }
    } else {
      var more := StartCanReorder(actions, s);
      assert Continues(started, more) && !InOrder(started + more);
    }
  }

  lemma InOrderIs(actions: seq<Action>)
    ensures InOrder(actions) <==> Run(actions).Some? && Within(Lined(Run(actions).value), Arrivals(actions))
  {
  }

  lemma StartCanReorder(actions: seq<Action>, s: State) returns (more: seq<Action>)
    requires Orderly(actions) && Run(actions) == Some(s) && Distinct(Arrivals(actions))
    requires s.pending != [] && Line(s.flushes) != []
    ensures Run(actions + [StartFlush]).Some? && Continues(actions + [StartFlush], more)
    ensures !InOrder(actions + [StartFlush] + more)
  {
    hide Run, Arrivals, Within, Line, Single, InOrder, Distinct, Step, Load, Batch, Continues, Lined;
    LoneFlushesKeepOrder(actions);
    CanStart(s);
    RunOne(actions, s, StartFlush);
    assert Arrivals(actions) + [] == Arrivals(actions);
    var i := HolderIsThere(s.flushes);
    var t := Step(s, StartFlush);
    var newer := StartAdds(s);
    more := NewerComesFirst(actions + [StartFlush], t, i);
    var held := Load(s.flushes[i]);
    var end := Run(actions + [StartFlush] + more).value;
    HeldFirst(s, i);
    LinedIs(end, newer + (held + t.pending));
    InOrderIs(actions + [StartFlush] + more);
    SwappedIsNotWithin(Arrivals(actions), held, s.pending, Line(end.flushes), newer, t.pending);
  }

  lemma CanStart(s: State)
    requires s.pending != []
    ensures Enabled(s, StartFlush)
  {
  }

  lemma StartAdds(s: State) returns (newer: seq<Scrobble>)
    requires s.pending != []
    ensures var t := Step(s, StartFlush);
      t.flushes == s.flushes + [Flush(newer, [])] && Load(Flush(newer, [])) == newer
    ensures newer != [] && newer[0] == s.pending[0]
  {
    newer := s.pending[..Batch(s.pending)];
    assert [] + newer == newer;
  }

  lemma HeldFirst(s: State, i: nat)
    requires Single(s.flushes) && i < |s.flushes| && Load(s.flushes[i]) != []
    ensures Lined(s) == Load(s.flushes[i]) + s.pending
  {
    hide Line, Single, Load;
    LoneLine(s.flushes, i, s.flushes[i]);
  }

  lemma LinedIs(s: State, pending: seq<Scrobble>)
    requires s.pending == pending
    ensures Lined(s) == Line(s.flushes) + pending
  {
  }

  /** Of two different scrobbles, the order in which both wait tells which one arrived first. */
  lemma SwappedIsNotWithin(b: seq<Scrobble>, held: seq<Scrobble>, pending: seq<Scrobble>,
    before: seq<Scrobble>, newer: seq<Scrobble>, rest: seq<Scrobble>)
    requires Distinct(b) && held != [] && newer != [] && pending != [] && newer[0] == pending[0]
    requires Within(held + pending, b)
    ensures !Within(before + (newer + (held + rest)), b)
  {
    hide Within;
    var lined := before + (newer + (held + rest));
    if Within(lined, b) {
      var p, q := WithinKeepsOrder(held + pending, b, 0, |held|);
      var p1, q1 := WithinKeepsOrder(lined, b, |before|, |before| + |newer|);
      SamePlace(b, p, q1);
      SamePlace(b, q, p1);
    }
  }

  lemma SamePlace(b: seq<Scrobble>, p: nat, q: nat)
    requires Distinct(b) && p < |b| && q < |b| && b[p] == b[q]
    ensures p == q
  {
  }

  // One flush, with no other activity.

  /** Whether Last.fm takes the k-th scrobble of a batch. */
  type Service = nat -> bool

  function Failures(batch: seq<Scrobble>, service: Service): seq<Scrobble> {
    if batch == [] then []
    else
      var n := |batch| - 1;
      Failures(batch[..n], service) + if service(n) then [] else [batch[n]]
  }

  class RetryBuffer {
    var pending: seq<Scrobble>

    constructor ()
      ensures pending == []
    {
      pending := [];
    }

    method SubmissionFailed(x: Scrobble)
      modifies this
      ensures pending == old(pending) + [x]
    {
      pending := pending + [x];
    }

    /** The failures of the batch, in order, ahead of everything else. */
    method FlushPendingScrobbles(service: Service)
      modifies this
      ensures pending == Failures(old(pending)[..Batch(old(pending))], service) + old(pending)[Batch(old(pending))..]
    {
      var count := Batch(pending);
      var batch := pending[..count];
      pending := pending[count..];
      if batch == [] {
        return;
      }
      var failed := [];
      for i := 0 to |batch|
        invariant failed == Failures(batch[..i], service)
        invariant pending == old(pending)[count..]
      {
        assert batch[..i + 1][..i] == batch[..i];
        if !service(i) {
          failed := failed + [batch[i]];
        }
      }
      assert batch[..|batch|] == batch;
      if failed != [] {
        pending := failed + pending;
      }
    }
  }

  /** The first n retries of a lone flush. */
  ghost function Retried(s: State, n: nat, service: Service): (r: State)
    requires |s.flushes| == 1 && s.flushes[0].failed == [] && n <= |s.flushes[0].left|
    ensures r.pending == s.pending
    ensures var batch := s.flushes[0].left; r.flushes == [Flush(batch[n..], Failures(batch[..n], service))]
  {
    if n == 0 then s
    else
      var batch := s.flushes[0].left;
      assert batch[..n][..n - 1] == batch[..n - 1];
      assert batch[n - 1..][1..] == batch[n..] && batch[n - 1..][0] == batch[n - 1];
      var before := Retried(s, n - 1, service);
      assert forall f :: before.flushes[0 := f] == [f];
      assert Failures(batch[..n - 1], service) + [] == Failures(batch[..n - 1], service);
      Step(before, Retry(0, service(n - 1)))
  }

  /** Step by step, a flush that nothing interrupts does what the method does. */
  lemma LoneFlushSteps(s: State, service: Service)
    requires s.flushes == [] && s.pending != []
    ensures var n := Batch(s.pending); var started := Step(s, StartFlush);
      && Enabled(Retried(started, n, service), FinishFlush(0))
      && Step(Retried(started, n, service), FinishFlush(0)).pending == Failures(s.pending[..n], service) + s.pending[n..]
  {
    var n := Batch(s.pending);
    var retried := Retried(Step(s, StartFlush), n, service);
    assert s.pending[..n][..n] == s.pending[..n];
  }

  /** A flush takes the first fifty of what is pending, or all of it, and nothing else happens. */
  lemma StartTakesFifty(s: State)
    requires s.pending != []
    ensures var after := Step(s, StartFlush);
      && |after.flushes| == |s.flushes| + 1 && after.flushes[..|s.flushes|] == s.flushes
      && after.flushes[|s.flushes|].failed == [] && after.flushes[|s.flushes|].left + after.pending == s.pending
      && (|s.pending| <= 50 ==> after.pending == [])
      && (|s.pending| > 50 ==> |after.flushes[|s.flushes|].left| == 50)
      && after.queued == s.queued && after.accepted == s.accepted
  {
  }

  /** Of a batch exactly those go back that were refused, in their order. */
  lemma {:induction false} FailuresAreTheRefused(batch: seq<Scrobble>, service: Service, k: nat)
    requires k < |batch|
    ensures var before, after := Failures(batch[..k], service), Failures(batch[..k + 1], service);
      if service(k) then after == before else after == before + [batch[k]]
    ensures Failures(batch[..k + 1], service) <= Failures(batch, service)
    decreases |batch| - k
  {
    assert batch[..k + 1][..k] == batch[..k];
    if k + 1 == |batch| {
      assert batch[..k + 1] == batch;
    } else {
      FailuresAreTheRefused(batch, service, k + 1);
      assert batch[..k + 2][..k + 1] == batch[..k + 1];
    }
  }
}
