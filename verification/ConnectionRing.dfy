/** The connection history: a ring of check results, filled by checks that run in the
    background, and the window of it that is shown. */
module ConnectionRing {

  const SLOTS := 720

  /** What comes of a check: the time it took, or what went wrong. */
  datatype Result = Success(ms: int) | Failure(error: string)

  /** A slot: the number of the tick whose time it shows, and a result.  A check stamps its
      slot when it begins and stores its result when it ends; in between, the slot has the
      new time and the result of the check before. */
  datatype Entry = Entry(stamp: nat, result: Result)

  /** A slot that was never used. */
  const ZERO := Entry(0, Success(0))

  /** connData and the local variables of connectRoutine, with the number of ticks so far
      and the checks that have not finished. */
  datatype Ring = Ring(storage: seq<Entry>, i: nat, circled: bool, head: nat, count: int,
                       ticks: nat, running: set<nat>)

  function Unused(n: nat): (s: seq<Entry>)
    ensures |s| == n
  {
    if n == 0 then [] else Unused(n - 1) + [ZERO]
  }

  function Start(): Ring {
    Ring(Unused(SLOTS), 0, false, 0, 0, 0, {})
  }

  datatype Step = Tick | Finish(check: nat, result: Result)

  function SlotOf(check: nat): nat
    requires check > 0
  {
    (check - 1) % SLOTS
  }

  /** A check gives up after one tick's time; all that is asked of the schedule is that none
      outlives the 719 ticks after its own. */
  predicate Enabled(r: Ring, step: Step) {
    if step.Tick? then NoneTooOld(r) else step.check in r.running
  }

  predicate NoneTooOld(r: Ring) {
    forall k :: k in r.running ==> r.ticks + 1 < k + SLOTS - 1
  }

  function Stamp(storage: seq<Entry>, slot: nat, check: nat): seq<Entry> {
    if slot < |storage| then storage[slot := storage[slot].(stamp := check)] else storage
  }

  function Store(storage: seq<Entry>, slot: nat, result: Result): seq<Entry> {
    if slot < |storage| then storage[slot := storage[slot].(result := result)] else storage
  }

  function Apply(r: Ring, step: Step): Ring {
    match step
    case Tick =>
      var i := if r.i + 1 >= SLOTS then 0 else r.i + 1;
      var circled := r.circled || r.i + 1 >= SLOTS;
      Ring(Stamp(r.storage, r.i, r.ticks + 1), i, circled,
           if circled then (i + 1) % SLOTS else r.head,
           if circled then r.count - 1 else r.count,
           r.ticks + 1, r.running + {r.ticks + 1})
    case Finish(k, result) =>
      if k == 0 then r else
      r.(storage := Store(r.storage, SlotOf(k), result), count := r.count + 1, running := r.running - {k})
  }

  /** A step that is not enabled does nothing. */
  function Run(steps: seq<Step>): Ring {
    if steps == [] then Start() else
      var r, step := Run(steps[..|steps| - 1]), steps[|steps| - 1];
      if Enabled(r, step) then Apply(r, step) else r
  }

  /** The results of the checks that have finished, by their number. */
  function Results(steps: seq<Step>): map<nat, Result> {
    if steps == [] then map[] else
      var init, step := steps[..|steps| - 1], steps[|steps| - 1];
      if step.Finish? && Enabled(Run(init), step) then Results(init)[step.check := step.result] else Results(init)
  }

  // ---------------------------------------------------------------------------------
  // What the ring holds

  function Min(a: int, b: int): int {
    if a <= b then a else b
  }

  /** The oldest check still shown once the ring is full, or the first of all. */
  function Oldest(ticks: nat): nat {
    ticks - Min(ticks, SLOTS - 1) + 1
  }

  /** The result found in the slot of a check: its own, or, until it has one, what the check
      720 ticks earlier left there. */
  function Found(done: map<nat, Result>, check: nat): Result {
    if check in done then done[check]
    else if check > SLOTS && check - SLOTS in done then done[check - SLOTS]
    else ZERO.result
  }

  /** The last 720 checks have their slots, and the other slots were never used. */
  ghost predicate Holds(storage: seq<Entry>, ticks: nat, done: map<nat, Result>) {
    && |storage| == SLOTS
    && (forall k: nat :: ticks - SLOTS < k <= ticks && k > 0 ==> storage[SlotOf(k)] == Entry(k, Found(done, k)))
    && (forall j :: ticks <= j < SLOTS ==> storage[j] == ZERO)
  }

  /** The checks that have finished are those begun that are not running. */
  ghost predicate Accounts(ticks: nat, running: set<nat>, done: map<nat, Result>) {
    && (forall k :: k in running ==> Oldest(ticks) <= k <= ticks)
    && (forall k :: k in done <==> 0 < k <= ticks && k !in running)
  }

  ghost predicate Counts(r: Ring) {
    && r.i == r.ticks % SLOTS
    && r.circled == (r.ticks >= SLOTS)
    && r.head == (if r.circled then (r.ticks + 1) % SLOTS else 0)
    && r.count == Min(r.ticks, SLOTS - 1) - |r.running|
  }

  ghost predicate Inv(r: Ring, done: map<nat, Result>) {
    Holds(r.storage, r.ticks, done) && Accounts(r.ticks, r.running, done) && Counts(r)
  }

  lemma SlotsDiffer(a: nat, b: nat)
    requires 0 < a < b < a + SLOTS
    ensures SlotOf(a) != SlotOf(b)
  {
  }

  /** The slot of the next check has what the check 720 ticks earlier left. */
  lemma NextSlot(storage: seq<Entry>, t: nat, done: map<nat, Result>)
    requires t > 0 && Holds(storage, t - 1, done) && t !in done
    requires t > SLOTS ==> t - SLOTS in done
    ensures storage[SlotOf(t)].result == Found(done, t)
  {
    if t > SLOTS {
      assert SlotOf(t - SLOTS) == SlotOf(t);
    } else {
      assert SlotOf(t) == t - 1;
    }
  }

  lemma TickHolds(storage: seq<Entry>, t: nat, done: map<nat, Result>)
    requires t > 0 && Holds(storage, t - 1, done) && t !in done
    requires t > SLOTS ==> t - SLOTS in done
    ensures Holds(Stamp(storage, SlotOf(t), t), t, done)
  {
    NextSlot(storage, t, done);
    var storage' := Stamp(storage, SlotOf(t), t);
    hide Found;
    forall k: nat | t - SLOTS < k <= t && k > 0
      ensures storage'[SlotOf(k)] == Entry(k, Found(done, k))
    {
      if k < t { SlotsDiffer(k, t); }
    }
  }

  lemma TickAccounts(r: Ring, done: map<nat, Result>)
    requires Accounts(r.ticks, r.running, done) && NoneTooOld(r)
    ensures Accounts(r.ticks + 1, r.running + {r.ticks + 1}, done)
    ensures r.ticks + 1 !in done && (r.ticks + 1 > SLOTS ==> r.ticks + 1 - SLOTS in done)
  {
  }

  lemma TickCounts(r: Ring)
    requires Counts(r) && r.ticks + 1 !in r.running
    ensures Counts(Apply(r, Tick)) && (r.ticks + 1) % SLOTS == Apply(r, Tick).i
  {
    hide Stamp;
    assert |r.running + {r.ticks + 1}| == |r.running| + 1;
    NextIndex(r.ticks);
    NextIndex(r.ticks + 1);
  }

  lemma NextIndex(n: nat)
    ensures (n + 1) % SLOTS == if n % SLOTS + 1 >= SLOTS then 0 else n % SLOTS + 1
    ensures n % SLOTS + 1 >= SLOTS ==> n + 1 >= SLOTS
    ensures n + 1 == SLOTS ==> n % SLOTS + 1 >= SLOTS
  {
    var q, m := n / SLOTS, n % SLOTS;
    assert n == q * SLOTS + m;
    if m + 1 < SLOTS {
      Remainder(n + 1, q, m + 1);
    } else {
      Remainder(n + 1, q + 1, 0);
    }
  }

  lemma Remainder(n: nat, q: nat, m: nat)
    requires n == q * SLOTS + m && m < SLOTS
    ensures n % SLOTS == m
  {
  }

  lemma TickKeeps(r: Ring, done: map<nat, Result>)
    requires Inv(r, done) && Enabled(r, Tick)
    ensures Inv(Apply(r, Tick), done)
  {
    hide Holds, Stamp, Oldest;
    assert SlotOf(r.ticks + 1) == r.i && r.ticks + 1 !in r.running;
    TickAccounts(r, done);
    TickCounts(r);
    TickHolds(r.storage, r.ticks + 1, done);
    hide Accounts, Counts;
  }

  lemma FinishHolds(storage: seq<Entry>, ticks: nat, done: map<nat, Result>, check: nat, result: Result)
    requires Holds(storage, ticks, done) && 0 < check && ticks - SLOTS < check <= ticks && check !in done
    ensures Holds(Store(storage, SlotOf(check), result), ticks, done[check := result])
  {
    var storage', done' := Store(storage, SlotOf(check), result), done[check := result];
    forall k: nat | ticks - SLOTS < k <= ticks && k > 0
      ensures storage'[SlotOf(k)] == Entry(k, Found(done', k))
    {
      if k < check { SlotsDiffer(k, check); }
      if check < k { SlotsDiffer(check, k); }
    }
    if ticks < SLOTS { assert SlotOf(check) == check - 1; }
  }

  lemma FinishKeeps(r: Ring, done: map<nat, Result>, check: nat, result: Result)
    requires Inv(r, done) && check in r.running
    ensures Inv(Apply(r, Finish(check, result)), done[check := result])
  {
    hide Holds, Store;
    FinishHolds(r.storage, r.ticks, done, check, result);
  }

  /** In every interleaving of ticks and finishing checks, every slot, the index, the head
      and the count are what the ticks, the results and the running checks determine. */
  lemma {:induction false} EveryRun(steps: seq<Step>)
    ensures Inv(Run(steps), Results(steps))
  {
    hide Inv, Apply;
    if steps != [] {
      var init, step := steps[..|steps| - 1], steps[|steps| - 1];
      var r := Run(init);
      EveryRun(init);
      if Enabled(r, step) {
        match step
        case Tick => TickKeeps(r, Results(init));
        case Finish(k, result) => FinishKeeps(r, Results(init), k, result);
      }
    } else {
      StartHolds();
    }
  }

  lemma StartHolds()
    ensures Inv(Start(), map[])
  {
    AllUnused(SLOTS);
  }

  // ---------------------------------------------------------------------------------
  // The window

  /** The slot that the handler reads at its j-th turn. */
  function ReadSlot(r: Ring, j: nat): nat {
    (r.head + j) % SLOTS
  }

  /** The entries the handler reads: `count` slots from `head`. */
  function Window(r: Ring): seq<Entry>
    requires |r.storage| == SLOTS
  {
    ReadFrom(r, if r.count <= 0 then 0 else r.count)
  }

  function ReadFrom(r: Ring, n: nat): (w: seq<Entry>)
    requires |r.storage| == SLOTS
    ensures |w| == n && forall j :: 0 <= j < n ==> w[j] == r.storage[ReadSlot(r, j)]
  {
    if n == 0 then [] else ReadFrom(r, n - 1) + [r.storage[ReadSlot(r, n - 1)]]
  }

  /** The n checks from `first` on have finished. */
  ghost predicate AllDone(done: map<nat, Result>, first: nat, n: int) {
    forall k :: first <= k < first + n ==> k in done
  }

  /** The results of n checks, one after the other from `first` on. */
  function Listed(done: map<nat, Result>, first: nat, n: nat): (list: seq<Entry>)
    requires AllDone(done, first, n)
    ensures |list| == n
    ensures forall j: nat :: j < n ==> first + j in done && list[j] == Entry(first + j, done[first + j])
  {
    if n == 0 then [] else Listed(done, first, n - 1) + [Entry(first + n - 1, done[first + n - 1])]
  }

  /** The window lists finished checks, one after the other from the oldest on, each with
      its time and its own result. */
  ghost predicate ShowsResults(r: Ring, done: map<nat, Result>)
    requires |r.storage| == SLOTS
  {
    && AllDone(done, Oldest(r.ticks), |Window(r)|)
    && Window(r) == Listed(done, Oldest(r.ticks), |Window(r)|)
  }

  /** The checks still running are the most recent ones. */
  ghost predicate LatestRunning(r: Ring) {
    forall k :: k in r.running ==> k > r.ticks - |r.running|
  }

  lemma WindowSlot(r: Ring, done: map<nat, Result>, j: nat)
    requires Inv(r, done) && j < |Window(r)|
    ensures SlotOf(Oldest(r.ticks) + j) == ReadSlot(r, j)
    ensures Oldest(r.ticks) + j <= r.ticks - |r.running|
    ensures Window(r)[j] == Entry(Oldest(r.ticks) + j, Found(done, Oldest(r.ticks) + j))
  {
    hide Found;
    if r.circled {
      assert Oldest(r.ticks) + j - 1 + SLOTS == r.ticks + 1 + j;
      ShiftedSlot(r.ticks + 1, j);
    }
  }

  lemma ShiftedSlot(n: nat, j: nat)
    requires n + j >= SLOTS
    ensures (n % SLOTS + j) % SLOTS == (n + j - SLOTS) % SLOTS
  {
  }

  /** In every interleaving the window has the times of consecutive checks from the oldest
      on, as many as are counted, each with its own result or, if it is still running, with
      the result of the check 720 ticks before it, or 0 ms. */
  lemma WindowShows(steps: seq<Step>)
    ensures var r, done := Run(steps), Results(steps);
            && |r.storage| == SLOTS && |Window(r)| == Min(r.ticks, SLOTS - 1) - |r.running|
            && forall j: nat :: j < |Window(r)| ==>
                 Window(r)[j] == Entry(Oldest(r.ticks) + j, Found(done, Oldest(r.ticks) + j))
  {
    EveryRun(steps);
    var r, done := Run(steps), Results(steps);
    assert |r.running| <= Min(r.ticks, SLOTS - 1) by { FewRunning(r.running, Oldest(r.ticks), r.ticks); }
    hide Inv, Found, Window, Run, Results;
    forall j: nat | j < |Window(r)|
      ensures Window(r)[j] == Entry(Oldest(r.ticks) + j, Found(done, Oldest(r.ticks) + j))
    {
      WindowSlot(r, done, j);
    }
  }

  lemma {:induction false} FewRunning(running: set<nat>, lo: nat, hi: int)
    requires lo <= hi + 1 && forall k :: k in running ==> lo <= k <= hi
    ensures |running| <= hi + 1 - lo
    decreases hi + 1 - lo
  {
    if lo <= hi {
      FewRunning(running - {hi}, lo, hi - 1);
    } else {
      assert running == {};
    }
  }

  /** The window shows only results, the oldest first and without a gap, exactly if the
      running checks are the latest. */
  lemma WindowIffInOrder(steps: seq<Step>)
    ensures |Run(steps).storage| == SLOTS
    ensures ShowsResults(Run(steps), Results(steps)) <==> LatestRunning(Run(steps))
  {
    EveryRun(steps);
    WindowShows(steps);
    var r, done := Run(steps), Results(steps);
    hide Holds, Run, Results, Window;
    var first, n := Oldest(r.ticks), |Window(r)|;
    assert n == r.ticks - |r.running| - first + 1;
    assert LatestRunning(r) <==> AllDone(done, first, n);
    if AllDone(done, first, n) {
      var list := Listed(done, first, n);
      forall j: nat | j < n ensures Window(r)[j] == list[j] {
        assert first + j in done;
      }
    }
  }

  /** Checks that finish before the next tick: after t of them the window is exactly the
      last min(t, 719) results in order.  While another one runs, it is the last ones but
      for the slot that one takes, which it does not cover. */
  lemma SequentialChecks(steps: seq<Step>)
    requires Run(steps).running <= {Run(steps).ticks}
    ensures var r, done := Run(steps), Results(steps);
            var n := Min(r.ticks, SLOTS - 1) - |r.running|;
            && |r.storage| == SLOTS && n >= 0
            && AllDone(done, Oldest(r.ticks), n)
            && Window(r) == Listed(done, Oldest(r.ticks), n)
            && (r.running == {} ==> n == Min(r.ticks, SLOTS - 1) && Oldest(r.ticks) + n - 1 == r.ticks)
            && (r.running != {} ==> forall j: nat :: j < n ==> ReadSlot(r, j) != SlotOf(r.ticks))
  {
    EveryRun(steps);
    WindowShows(steps);
    WindowIffInOrder(steps);
    var r, done := Run(steps), Results(steps);
    hide Run, Results, Window, Holds;
    if r.running != {} {
      assert r.running == {r.ticks};
      forall j: nat | j < |Window(r)| ensures ReadSlot(r, j) != SlotOf(r.ticks) {
        WindowSlot(r, done, j);
        SlotsDiffer(Oldest(r.ticks) + j, r.ticks);
      }
    }
  }

  /** The schedule in which each check finishes before the next tick. */
  function Sequential(results: seq<Result>): seq<Step> {
    if results == [] then [] else
      Sequential(results[..|results| - 1]) + [Tick] + [Finish(|results|, results[|results| - 1])]
  }

  /** One more check, begun and finished. */
  lemma OneCheck(steps: seq<Step>, result: Result)
    requires Run(steps).running == {}
    ensures var r, n, all := Run(steps), Run(steps).ticks + 1, steps + [Tick] + [Finish(Run(steps).ticks + 1, result)];
            Run(all).running == {} && Run(all).ticks == n && Results(all) == Results(steps)[n := result]
  {
    var n := Run(steps).ticks + 1;
    var begun := steps + [Tick];
    var all := begun + [Finish(n, result)];
    assert begun[..|begun| - 1] == steps && all[..|all| - 1] == begun;
    assert Run(begun) == Apply(Run(steps), Tick) && Results(begun) == Results(steps);
    assert Run(begun).running == {n};
  }

  ghost predicate HasResults(done: map<nat, Result>, results: seq<Result>) {
    forall k: nat {:trigger k in done} :: 0 < k <= |results| ==> k in done && done[k] == results[k - 1]
  }

  lemma OneMoreResult(done: map<nat, Result>, init: seq<Result>, last: Result)
    requires HasResults(done, init)
    ensures HasResults(done[|init| + 1 := last], init + [last])
  {
  }

  lemma NoChecksYet()
    ensures var r := Run([]); r.running == {} && r.ticks == 0 && HasResults(Results([]), [])
  {
  }

  lemma {:induction false} SequentialRuns(results: seq<Result>)
    ensures var r := Run(Sequential(results)); r.running == {} && r.ticks == |results|
    ensures HasResults(Results(Sequential(results)), results)
  {
    hide Run, Results, HasResults;
    if results != [] {
      var init, last := results[..|results| - 1], results[|results| - 1];
      assert results == init + [last];
      SequentialRuns(init);
      OneCheck(Sequential(init), last);
      OneMoreResult(Results(Sequential(init)), init, last);
    } else {
      NoChecksYet();
    }
  }

  /** For any results at all, of checks that each finish before the next tick, the window
      shows the last 719 of them, or all if there are fewer, in order, each as it was. */
  lemma SequentialWindow(results: seq<Result>)
    ensures var r, n := Run(Sequential(results)), if |results| < 719 then |results| else 719;
            && |r.storage| == SLOTS && |Window(r)| == n
            && forall j: nat :: j < n ==>
                 Window(r)[j] == Entry(|results| - n + j + 1, results[|results| - n + j])
  {
    hide Run, Results, Window, Sequential;
    SequentialRuns(results);
    SequentialChecks(Sequential(results));
    var r, done := Run(Sequential(results)), Results(Sequential(results));
    hide HasResults, Listed;
    var n := |Window(r)|;
    forall j: nat | j < n ensures Window(r)[j] == Entry(|results| - n + j + 1, results[|results| - n + j]) {
      assert Oldest(r.ticks) + j == |results| - n + j + 1;
      ListedEntry(done, results, Oldest(r.ticks), n, j);
    }
  }

  lemma ListedEntry(done: map<nat, Result>, results: seq<Result>, first: nat, n: nat, j: nat)
    requires AllDone(done, first, n) && HasResults(done, results) && j < n && 0 < first && first + n - 1 <= |results|
    ensures Listed(done, first, n)[j] == Entry(first + j, results[first + j - 1])
  {
    assert first + j in done;
  }

  /** Checks that overlap and finish out of order: the first, unfinished, is shown as a
      success in no time. */
  lemma OutOfOrderShowsUnfinished(result: Result)
    ensures var r := Run([Tick, Tick, Finish(2, result)]);
            |r.storage| == SLOTS && Window(r) == [Entry(1, Success(0))] && 1 in r.running
  {
    var a, b, c := [Tick], [Tick, Tick], [Tick, Tick, Finish(2, result)];
    assert c[..2] == b && b[..1] == a && a[..0] == [];
    AllUnused(SLOTS);
    var r1 := Apply(Start(), Tick);
    assert Run(a) == r1;
    var r2 := Apply(r1, Tick);
    assert Run(b) == r2;
    assert Run(c) == Apply(r2, Finish(2, result));
  }

  // ---------------------------------------------------------------------------------
  // The shared data

  /** What the handler prints: a stretch of successes, or one error. */
  datatype Line = Successes(entries: seq<Entry>) | OneFailure(entry: Entry)

  function Entries(line: Line): seq<Entry> {
    if line.Successes? then line.entries else [line.entry]
  }

  function AllEntries(lines: seq<Line>): seq<Entry> {
    if lines == [] then [] else AllEntries(lines[..|lines| - 1]) + Entries(lines[|lines| - 1])
  }

  lemma AllEntriesSnoc(lines: seq<Line>, line: Line)
    ensures AllEntries(lines + [line]) == AllEntries(lines) + Entries(line)
  {
    assert (lines + [line])[..|lines + [line]| - 1] == lines;
  }

  /** A line is an error exactly if its entry is one. */
  predicate Proper(line: Line) {
    match line
    case Successes(entries) => forall e <- entries :: e.result.Success?
    case OneFailure(entry) => entry.result.Failure?
  }

  /** Stretches of successes and failures take turns, so that every stretch is maximal. */
  predicate TakeTurns(lines: seq<Line>) {
    forall k :: 0 <= k < |lines| ==> (lines[k].Successes? <==> k % 2 == 0)
  }

  predicate AllProper(lines: seq<Line>) {
    forall k :: 0 <= k < |lines| ==> Proper(lines[k])
  }

  lemma FailureIsProper(src: Entry)
    requires src.result.Failure?
    ensures Proper(OneFailure(src)) && Proper(Successes([]))
    ensures Entries(OneFailure(src)) == [src]
  {
  }

  lemma ProperSnocLine(lines: seq<Line>, line: Line)
    requires AllProper(lines) && TakeTurns(lines) && Proper(line)
    requires line.Successes? <==> |lines| % 2 == 0
    ensures AllProper(lines + [line]) && TakeTurns(lines + [line])
  {
    hide Proper;
  }

  lemma ReadNext(r: Ring, n: nat)
    requires |r.storage| == SLOTS
    ensures ReadFrom(r, n + 1) == ReadFrom(r, n) + [r.storage[ReadSlot(r, n)]]
  {
  }

  lemma ProperSnoc(consecutive: seq<Entry>, src: Entry)
    requires Proper(Successes(consecutive)) && src.result.Success?
    ensures Proper(Successes(consecutive + [src]))
  {
  }

  class ConnData {
    const storage: array<Entry>
    var i: nat
    var circled: bool
    var head: nat
    var count: int
    var ticks: nat
    ghost var running: set<nat>

    constructor ()
      ensures storage.Length == SLOTS && fresh(storage) && Abs() == Start()
    {
      storage := new Entry[SLOTS](_ => ZERO);
      i, circled, head, count, ticks, running := 0, false, 0, 0, 0, {};
      new;
      AllUnused(SLOTS);
      assert storage[..] == Unused(SLOTS);
    }

    ghost function Abs(): Ring
      reads this, storage
    {
      Ring(storage[..], i, circled, head, count, ticks, running)
    }

    /** One turn of connectRoutine, with the beginning of the check it starts, which is given
        the returned slot. */
    method Begin() returns (dest: nat)
      requires storage.Length == SLOTS && i < SLOTS
      modifies this, storage
      ensures dest == old(i) && i < SLOTS
      ensures Abs() == Apply(old(Abs()), Tick)
    {
      dest := i;
      i := i + 1;
      if i >= storage.Length {
        circled := true;
        i := 0;
      }
      if circled {
        head := (i + 1) % storage.Length;
        count := count - 1;
      }
      storage[dest] := storage[dest].(stamp := ticks + 1);
      ticks, running := ticks + 1, running + {ticks + 1};
    }

    /** The end of a check: its result goes to the slot it was given, whoever has it now. */
    method End(dest: nat, ghost check: nat, result: Result)
      requires storage.Length == SLOTS && check > 0 && dest == SlotOf(check)
      modifies this, storage
      ensures Abs() == Apply(old(Abs()), Finish(check, result))
    {
      storage[dest] := storage[dest].(result := result);
      count := count + 1;
      running := running - {check};
    }

    /** connectHandler: the window, stretches of successes gathered into one line. */
    method Report() returns (lines: seq<Line>)
      requires storage.Length == SLOTS
      ensures AllEntries(lines) == Window(Abs())
      ensures forall k :: 0 <= k < |lines| ==>
                if k % 2 == 0 then lines[k].Successes? && forall e <- lines[k].entries :: e.result.Success?
                else lines[k].OneFailure? && lines[k].entry.result.Failure?
    {
      hide AllEntries, ReadFrom, Proper, AllProper, TakeTurns;
      ghost var r, read := Abs(), [];
      var consecutive := [];
      lines := [];
      NothingRead(r);
      var j := 0;
      while j < count
        invariant 0 <= j && (count >= 0 ==> j <= count) && (count < 0 ==> j == 0)
        invariant read == ReadFrom(r, j) == AllEntries(lines) + consecutive
        invariant Proper(Successes(consecutive)) && AllProper(lines) && TakeTurns(lines) && |lines| % 2 == 0
      {
        var src := storage[(head + j) % storage.Length];
        ReadNext(r, j);
        assert src == r.storage[ReadSlot(r, j)];
        if src.result.Failure? {
          AllEntriesSnoc(lines, Successes(consecutive));
          ProperSnocLine(lines, Successes(consecutive));
          lines := lines + [Successes(consecutive)];
          consecutive := [];
          AllEntriesSnoc(lines, OneFailure(src));
          FailureIsProper(src);
          ProperSnocLine(lines, OneFailure(src));
          lines := lines + [OneFailure(src)];
          assert AllEntries(lines) + consecutive == AllEntries(lines);
        } else {
          ProperSnoc(consecutive, src);
          assert AllEntries(lines) + (consecutive + [src]) == AllEntries(lines) + consecutive + [src];
          consecutive := consecutive + [src];
        }
        read := read + [src];
        j := j + 1;
      }
      AllEntriesSnoc(lines, Successes(consecutive));
      ProperSnocLine(lines, Successes(consecutive));
      lines := lines + [Successes(consecutive)];
      ReportedLines(lines);
    }
  }

  lemma ReportedLines(lines: seq<Line>)
    requires AllProper(lines) && TakeTurns(lines)
    ensures forall k :: 0 <= k < |lines| ==>
              if k % 2 == 0 then lines[k].Successes? && forall e <- lines[k].entries :: e.result.Success?
              else lines[k].OneFailure? && lines[k].entry.result.Failure?
  {
    forall k | 0 <= k < |lines|
      ensures if k % 2 == 0 then lines[k].Successes? && forall e <- lines[k].entries :: e.result.Success?
              else lines[k].OneFailure? && lines[k].entry.result.Failure?
    {
      assert Proper(lines[k]);
    }
  }

  lemma NothingRead(r: Ring)
    requires |r.storage| == SLOTS
    ensures ReadFrom(r, 0) == AllEntries([]) + [] == [] && Proper(Successes([])) && AllProper([]) && TakeTurns([])
  {
  }

  lemma {:induction false} AllUnused(n: nat)
    ensures forall k :: 0 <= k < n ==> Unused(n)[k] == ZERO
  {
    if n > 0 { AllUnused(n - 1); }
  }
}
