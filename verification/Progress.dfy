/** The update's progress, as it is shown: readings that make no sense, or that fall behind,
    are replaced by the last good one. Ratios are compared exactly, by cross-multiplication. */
module Progress {

  datatype Pair = Pair(progress: int, expected: int)

  /** A reading that can be shown: part of something. */
  predicate Sensible(r: Pair) {
    0 < r.progress <= r.expected
  }

  predicate Less(a: Pair, b: Pair) {
    a.progress * b.expected < b.progress * a.expected
  }

  predicate AtMost(a: Pair, b: Pair) {
    a.progress * b.expected <= b.progress * a.expected
  }

  lemma AtMostTransitive(a: Pair, b: Pair, c: Pair)
    requires a.expected > 0 && b.expected > 0 && c.expected > 0
    requires AtMost(a, b) && AtMost(b, c)
    ensures AtMost(a, c)
    ensures Less(a, b) || Less(b, c) ==> Less(a, c)
  {
    var ab, ba := a.progress * b.expected, b.progress * a.expected;
    var bc, cb := b.progress * c.expected, c.progress * b.expected;
    assert ab * c.expected <= ba * c.expected by { Scale(ab, ba, c.expected); }
    assert bc * a.expected <= cb * a.expected by { Scale(bc, cb, a.expected); }
    assert ba * c.expected == bc * a.expected by { Swap(b.progress, a.expected, c.expected); }
    assert ab * c.expected == (a.progress * c.expected) * b.expected by { Swap(a.progress, b.expected, c.expected); }
    assert cb * a.expected == (c.progress * a.expected) * b.expected by { Swap(c.progress, b.expected, a.expected); }
    Unscale(a.progress * c.expected, c.progress * a.expected, b.expected);
  }

  lemma Scale(x: int, y: int, k: int)
    requires x <= y && k > 0
    ensures x * k <= y * k && (x < y ==> x * k < y * k)
  {
  }

  lemma Unscale(x: int, y: int, k: int)
    requires x * k <= y * k && k > 0
    ensures x <= y && (x * k < y * k ==> x < y)
  {
  }

  lemma Swap(x: int, y: int, z: int)
    ensures x * y * z == x * z * y
  {
  }

  /** What happens to the last good pair: the update is started, which resets it, or the
      status stream reads the progress and publishes the pair. */
  datatype Event = Restart | Poll(reading: Pair)

  /** One reading's effect. Nothing exceeds the ratio 0/0 there is before any restart. */
  function Next(last: Pair, r: Pair): Pair {
    if Sensible(r) && last.expected != 0 && Less(last, r) then r else last
  }

  /** The last good pair; after a Poll, it is what that Poll published. */
  function Last(es: seq<Event>): Pair {
    if es == [] then Pair(0, 0) else
      match es[|es| - 1]
      case Restart => Pair(0, 1)
      case Poll(r) => Next(Last(es[..|es| - 1]), r)
  }

  /** The position of the latest restart, or -1. */
  function Since(es: seq<Event>): (k: int)
    ensures -1 <= k < |es|
    ensures k >= 0 ==> es[k].Restart?
    ensures forall j :: k < j < |es| ==> es[j].Poll?
  {
    if es == [] then -1 else if es[|es| - 1].Restart? then |es| - 1 else Since(es[..|es| - 1])
  }

  // ---------------------------------------------------------------------------------
  // Which reading is shown

  /** No sensible reading after position k and before n has a greater ratio. */
  predicate Highest(es: seq<Event>, k: int, n: int, x: Pair)
    requires 0 <= k < n <= |es|
  {
    forall j {:trigger es[j]} :: k < j < n && es[j].Poll? && Sensible(es[j].reading) ==> AtMost(es[j].reading, x)
  }

  /** Every sensible reading after position k and before n has a smaller ratio. */
  predicate Higher(es: seq<Event>, k: int, n: int, x: Pair)
    requires 0 <= k < n <= |es|
  {
    forall j {:trigger es[j]} :: k < j < n && es[j].Poll? && Sensible(es[j].reading) ==> Less(es[j].reading, x)
  }

  /** Position i, after k, holds the sensible reading x, the first of its ratio. */
  predicate FirstReached(es: seq<Event>, k: int, i: int, x: Pair)
    requires 0 <= k < |es|
  {
    k < i < |es| && es[i] == Poll(x) && Sensible(x) && Higher(es, k, i, x)
  }

  /** No sensible reading has come after position k. */
  predicate NoneSensible(es: seq<Event>, k: int)
    requires 0 <= k < |es|
  {
    forall j {:trigger es[j]} :: k < j < |es| && es[j].Poll? ==> !Sensible(es[j].reading)
  }

  /** The pair to show: the sensible reading after position k with the highest ratio, the
      earliest of equal ones; 0/1 if there is none. */
  ghost predicate IsBest(es: seq<Event>, k: int, x: Pair)
    requires 0 <= k < |es|
  {
    Highest(es, k, |es|, x) &&
    if NoneSensible(es, k) then x == Pair(0, 1) else exists i :: FirstReached(es, k, i, x)
  }

  /** Once started, what is published is the best reading since the latest restart. */
  lemma {:induction false} RunningMaximum(es: seq<Event>)
    requires Since(es) >= 0
    ensures IsBest(es, Since(es), Last(es))
    ensures 0 <= Last(es).progress <= Last(es).expected && Last(es).expected > 0
  {
    var n := |es| - 1;
    if es[n].Poll? {
      var init, r := es[..n], es[n].reading;
      assert Since(init) == Since(es);
      RunningMaximum(init);
      if Next(Last(init), r) != Last(init) {
        NewMaximum(es, n);
      } else {
        OldMaximum(es, n);
      }
    }
  }

  lemma NewMaximum(es: seq<Event>, n: nat)
    requires n == |es| - 1 && es[n].Poll? && 0 <= Since(es) == Since(es[..n]) < n
    requires var x := Last(es[..n]);
             0 <= x.progress <= x.expected && x.expected > 0 && Next(x, es[n].reading) != x &&
             Highest(es[..n], Since(es), n, x)
    ensures IsBest(es, Since(es), Last(es))
  {
    hide Less, AtMost;
    var x, r, k := Last(es[..n]), es[n].reading, Since(es);
    assert Less(x, r) && Sensible(r) && Last(es) == r;
    LessAtMost(x, r);
    forall j | k < j < n && es[j].Poll? && Sensible(es[j].reading)
      ensures Less(es[j].reading, r)
    {
      assert es[..n][j] == es[j];
      AtMostTransitive(es[j].reading, x, r);
    }
    assert FirstReached(es, k, n, r);
    forall j | k < j < |es| && es[j].Poll? && Sensible(es[j].reading)
      ensures AtMost(es[j].reading, r)
    {
      LessAtMost(es[j].reading, r);
    }
  }

  lemma SensibleIsSomething(r: Pair)
    ensures Sensible(r) ==> Less(Pair(0, 1), r)
  {
  }

  lemma LessAtMost(a: Pair, b: Pair)
    ensures Less(a, b) ==> AtMost(a, b)
    ensures AtMost(a, a)
    ensures !Less(a, b) ==> AtMost(b, a)
  {
  }

  lemma OldMaximum(es: seq<Event>, n: nat)
    requires n == |es| - 1 && es[n].Poll? && 0 <= Since(es) == Since(es[..n]) < n
    requires var x := Last(es[..n]);
             0 <= x.progress <= x.expected && x.expected > 0 && Next(x, es[n].reading) == x &&
             IsBest(es[..n], Since(es), x)
    ensures IsBest(es, Since(es), Last(es))
  {
    hide AtMost;
    var x, r, k, init := Last(es[..n]), es[n].reading, Since(es), es[..n];
    assert Last(es) == x;
    assert forall j :: 0 <= j < n ==> init[j] == es[j];
    LessAtMost(x, r);
    LessAtMost(x, x);
    SensibleIsSomething(r);
    forall j | k < j < |es| && es[j].Poll? && Sensible(es[j].reading)
      ensures AtMost(es[j].reading, x)
    {
      if j < n { assert init[j] == es[j]; }
    }
    if NoneSensible(init, k) {
      forall j | k < j < |es| && es[j].Poll?
        ensures !Sensible(es[j].reading)
      {
        if j < n { assert init[j] == es[j]; }
      }
    } else {
      var i :| FirstReached(init, k, i, x);
      assert init[i] == es[i];
      forall j | k < j < i && es[j].Poll? && Sensible(es[j].reading)
        ensures Less(es[j].reading, x)
      {
        assert init[j] == es[j];
      }
      assert FirstReached(es, k, i, x);
      assert Sensible(es[i].reading);
    }
  }

  /** Between two restarts the published ratio never decreases. */
  lemma {:induction false} RatioNeverDecreases(es: seq<Event>, i: nat)
    requires 0 <= Since(es) < i <= |es|
    ensures AtMost(Last(es[..i]), Last(es))
    ensures Last(es[..i]).expected > 0 && Last(es).expected > 0
  {
    RunningMaximum(es);
    if i < |es| {
      var init := es[..|es| - 1];
      assert es[|es| - 1].Poll?;
      RatioNeverDecreases(init, i);
      assert init[..i] == es[..i];
      LessAtMost(Last(init), Last(es));
      AtMostTransitive(Last(es[..i]), Last(init), Last(es));
    } else {
      assert es[..i] == es;
    }
  }

  /** All of something is shown, and after it nothing more. */
  lemma AllIsShown(es: seq<Event>, n: int, r: Pair)
    requires Since(es) >= 0 && n > 0 && Last(es).progress < Last(es).expected
    ensures Last(es + [Poll(Pair(n, n))]) == Pair(n, n)
    ensures Last(es + [Poll(Pair(n, n))] + [Poll(r)]) == Pair(n, n)
  {
    RunningMaximum(es);
    var one, both := es + [Poll(Pair(n, n))], es + [Poll(Pair(n, n))] + [Poll(r)];
    assert one[..|one| - 1] == es && both[..|both| - 1] == one;
    hide Last;
    BehindAll(Last(es), n, r);
  }

  lemma BehindAll(x: Pair, n: int, r: Pair)
    requires 0 <= x.progress < x.expected && n > 0
    ensures Next(x, Pair(n, n)) == Pair(n, n) && Next(Pair(n, n), r) == Pair(n, n)
  {
    Scale(x.progress, x.expected, n);
    if Sensible(r) { Scale(r.progress, r.expected, n); }
  }

  /** Nothing is shown of readings of nothing, or of more than all. */
  lemma NonsenseIsNotShown(es: seq<Event>, r: Pair)
    requires r.progress <= 0 || r.expected <= 0 || r.progress > r.expected
    ensures Last(es + [Poll(r)]) == Last(es)
  {
    assert (es + [Poll(r)])[..|es|] == es;
  }

  /** Before any restart, 0 of 0 is published whatever is read. */
  lemma {:induction false} NothingBeforeTheFirstRestart(es: seq<Event>)
    requires Since(es) == -1
    ensures Last(es) == Pair(0, 0)
  {
    if es != [] {
      NothingBeforeTheFirstRestart(es[..|es| - 1]);
    }
  }

  // ---------------------------------------------------------------------------------
  // The status stream

  /** What the files say, and whether there is an exit code. */
  datatype Status = Status(pair: Pair, exited: bool)

  /** What a stream publishes of the readings there are while the client is connected: it
      stops after the first one with an exit code that is not its first. */
  function Polls(readings: seq<Status>): (n: nat)
    ensures n <= |readings|
    ensures forall j :: 0 < j < n - 1 ==> !readings[j].exited
    ensures n < |readings| ==> n >= 2 && readings[n - 1].exited
  {
    if |readings| < 2 then |readings| else
      var init := readings[..|readings| - 1];
      if Polls(init) < |init| || (|init| > 1 && init[|init| - 1].exited) then Polls(init) else |readings|
  }

  function AsPolls(readings: seq<Status>): (r: seq<Event>)
    ensures |r| == |readings|
    ensures forall i :: 0 <= i < |r| ==> r[i] == Poll(readings[i].pair)
  {
    seq(|readings|, i requires 0 <= i < |readings| => Poll(readings[i].pair))
  }

  /** The events `es`, and the first n readings after them. */
  function History(es: seq<Event>, readings: seq<Status>, n: nat): seq<Event>
    requires n <= |readings|
  {
    es + AsPolls(readings)[..n]
  }

  lemma HistoryStarts(es: seq<Event>, readings: seq<Status>)
    ensures History(es, readings, 0) == es && Shows(es, readings, [])
  {
  }

  lemma HistoryGoesOn(es: seq<Event>, readings: seq<Status>, n: nat)
    requires n < |readings|
    ensures History(es, readings, n + 1) == History(es, readings, n) + [Poll(readings[n].pair)]
  {
  }

  /** What was published after each of the first readings that follow the events `es`. */
  predicate Shows(es: seq<Event>, readings: seq<Status>, published: seq<Pair>) {
    |published| <= |readings| &&
    forall i :: 0 <= i < |published| ==> published[i] == Last(History(es, readings, i + 1))
  }

  lemma ShowsOneMore(es: seq<Event>, readings: seq<Status>, published: seq<Pair>, shown: Pair)
    requires Shows(es, readings, published) && |published| < |readings|
    requires shown == Last(History(es, readings, |published| + 1))
    ensures Shows(es, readings, published + [shown])
  {
    hide Last, History;
  }

  lemma AllShown(es: seq<Event>, readings: seq<Status>, published: seq<Pair>)
    requires Shows(es, readings, published)
    ensures forall i :: 0 <= i < |published| ==> published[i] == Last(es + AsPolls(readings)[..i + 1])
  {
    hide Last;
  }

  class Gateway {
    var lastProgress: int
    var lastExpected: int

    constructor ()
      ensures lastProgress == lastExpected == 0
    {
      lastProgress, lastExpected := 0, 0;
    }

    /** The pair is the last good one of the events so far. */
    ghost predicate Shown(es: seq<Event>)
      reads this
    {
      Pair(lastProgress, lastExpected) == Last(es)
    }

    /** The reset on starting the update engine: a restart, in whatever state it comes. */
    method StartUpdateEngine(ghost es: seq<Event>)
      modifies this
      ensures Shown(es + [Restart])
      ensures Since(es + [Restart]) == |es|
    {
      lastProgress := 0;
      lastExpected := 1;
    }

    /** A reading after the events `es`: what is shown is the last good pair, then. */
    method Filter(ghost es: seq<Event>, r: Pair) returns (shown: Pair)
      requires Shown(es)
      modifies this
      ensures Shown(es + [Poll(r)]) && shown == Last(es + [Poll(r)])
    {
      assert (es + [Poll(r)])[..|es|] == es;
      shown := r;
      if r.progress > 0 && r.expected > 0 && r.progress <= r.expected &&
         lastExpected != 0 && lastProgress * r.expected < r.progress * lastExpected {
        lastProgress := r.progress;
        lastExpected := r.expected;
      } else {
        shown := Pair(lastProgress, lastExpected);
      }
    }

    /** The loop of a stream that runs alone after the events `es`. */
    method UpdateStatusStream(ghost es: seq<Event>, readings: seq<Status>) returns (published: seq<Pair>)
      requires Shown(es)
      modifies this
      ensures |published| == Polls(readings)
      ensures forall i :: 0 <= i < |published| ==> published[i] == Last(es + AsPolls(readings)[..i + 1])
      ensures Shown(History(es, readings, |published|))
    {
      var updateStarted := false;
      published := [];
      var i := 0;
      HistoryStarts(es, readings);
      hide *;
      while i < |readings|
        invariant i == |published| <= |readings| && updateStarted == (i > 0)
        invariant Shown(History(es, readings, i))
        invariant Shows(es, readings, published)
        invariant forall j :: 0 < j < i ==> !readings[j].exited
      {
        var status := readings[i];
        HistoryGoesOn(es, readings, i);
        var shown := Filter(History(es, readings, i), status.pair);
        ShowsOneMore(es, readings, published, shown);
        published := published + [shown];
        i := i + 1;
        if status.exited && updateStarted {
          break;
        }
        updateStarted := true;
      }
      PollsIs(readings, i);
      AllShown(es, readings, published);
    }
  }

  /** There is one number of readings after which a stream can stop. */
  lemma PollsIs(readings: seq<Status>, n: nat)
    requires n <= |readings|
    requires forall j :: 0 < j < n - 1 ==> !readings[j].exited
    requires n < |readings| ==> n >= 2 && readings[n - 1].exited
    ensures Polls(readings) == n
  {
    var m := Polls(readings);
    if m < n { assert m - 1 < n - 1; }
    if n < m { assert n - 1 < m - 1; }
  }
}
