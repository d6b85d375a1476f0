/** The speaker queue: jobs arrive in any order and are played by sequence number. */
module Resequencer {
  import opened Wire

  datatype Job = Job(num: u32, text: string, pcm: seq<byte>)

  /** The goroutine's buffer and next number, and what it has played. */
  datatype Speaker = Speaker(buffer: seq<Job>, next: u32, played: seq<Job>)

  const START := Speaker([], 0, [])

  const WRAP := 0x1_0000_0000

  ghost predicate Sorted(b: seq<Job>) {
    forall i, j :: 0 <= i < j < |b| ==> b[i].num <= b[j].num
  }

  predicate HeadIsNext(s: Speaker) {
    s.buffer != [] && s.buffer[0].num == s.next
  }

  /** Play the head of the buffer. */
  function PlayHead(s: Speaker): Speaker
    requires s.buffer != []
  {
    Speaker(s.buffer[1..], (s.next + 1) % WRAP, s.played + [s.buffer[0]])
  }

  function Drain(s: Speaker): Speaker
    decreases |s.buffer|
  {
    if HeadIsNext(s) then Drain(PlayHead(s)) else s
  }

  /** The arrival of a job: the buffer is sorted, in some order among equal numbers, and
      drained. */
  ghost predicate Arrives(s: Speaker, job: Job, s': Speaker) {
    exists b: seq<Job> :: Sorted(b) && multiset(b) == multiset(s.buffer + [job]) && s' == Drain(s.(buffer := b))
  }

  /** The speaker's states over a run: one before each arrival, and the last. */
  ghost predicate IsRun(jobs: seq<Job>, states: seq<Speaker>) {
    && |states| == |jobs| + 1
    && states[0] == START
    && forall i {:trigger jobs[i]} :: 0 <= i < |jobs| ==> Arrives(states[i], jobs[i], states[i + 1])
  }

  /** A state that the arrivals can lead to. */
  ghost predicate Reaches(jobs: seq<Job>, s: Speaker) {
    exists states :: IsRun(jobs, states) && states[|jobs|] == s
  }

  // ---------------------------------------------------------------------------------
  // Counting by number

  function Count(jobs: seq<Job>, k: int): nat {
    if jobs == [] then 0 else (if jobs[0].num == k then 1 else 0) + Count(jobs[1..], k)
  }

  lemma {:induction false} CountAppend(a: seq<Job>, b: seq<Job>, k: int)
    ensures Count(a + b, k) == Count(a, k) + Count(b, k)
  {
    if a == [] {
      assert a + b == b;
    } else {
      assert (a + b)[1..] == a[1..] + b;
      CountAppend(a[1..], b, k);
    }
  }

  lemma WithoutOne(b: seq<Job>, i: nat, k: int)
    requires i < |b|
    ensures multiset(b[..i] + b[i + 1..]) == multiset(b) - multiset{b[i]}
    ensures Count(b, k) == Count(b[..i] + b[i + 1..], k) + if b[i].num == k then 1 else 0
  {
    assert b == b[..i] + ([b[i]] + b[i + 1..]);
    CountAppend(b[..i], [b[i]] + b[i + 1..], k);
    CountAppend(b[..i], b[i + 1..], k);
    assert ([b[i]] + b[i + 1..])[1..] == b[i + 1..];
  }

  lemma WithoutFirst(a: seq<Job>)
    requires a != []
    ensures multiset(a[1..]) == multiset(a) - multiset{a[0]}
  {
    assert a == [a[0]] + a[1..];
  }

  lemma {:induction false} CountPermuted(a: seq<Job>, b: seq<Job>, k: int)
    requires multiset(a) == multiset(b)
    ensures Count(a, k) == Count(b, k)
  {
    if a == [] {
      assert |b| == |multiset(b)| == |multiset(a)| == 0;
    } else {
      var i := Find(b, a[0]);
      WithoutOne(b, i, k);
      WithoutFirst(a);
      CountPermuted(a[1..], b[..i] + b[i + 1..], k);
    }
  }

  lemma Find(b: seq<Job>, x: Job) returns (i: nat)
    requires x in multiset(b)
    ensures i < |b| && b[i] == x
  {
    i :| 0 <= i < |b| && b[i] == x;
  }

  lemma {:induction false} CountMember(jobs: seq<Job>, k: int)
    ensures Count(jobs, k) > 0 <==> exists i :: 0 <= i < |jobs| && jobs[i].num == k
  {
    if jobs != [] {
      CountMember(jobs[1..], k);
      assert forall i :: 0 <= i < |jobs| - 1 ==> jobs[1..][i] == jobs[i + 1];
      if Count(jobs, k) > 0 && jobs[0].num != k {
        var i :| 0 <= i < |jobs| - 1 && jobs[1..][i].num == k;
        assert jobs[i + 1].num == k;
      }
      if i :| 0 <= i < |jobs| && jobs[i].num == k && i > 0 {
        assert jobs[1..][i - 1].num == k;
      }
    }
  }

  // ---------------------------------------------------------------------------------
  // What always holds

  /** The jobs played are numbers 0, 1, 2, ... in order, played and buffered jobs are the
      arrived ones, and the head of the sorted buffer is not playable. */
  ghost predicate Inv(jobs: seq<Job>, s: Speaker) {
    && (forall k :: 0 <= k < |s.played| ==> s.played[k].num == k % WRAP)
    && s.next == |s.played| % WRAP
    && multiset(s.played) + multiset(s.buffer) == multiset(jobs)
    && Sorted(s.buffer)
  }

  lemma {:induction false} DrainKeeps(jobs: seq<Job>, s: Speaker)
    requires Inv(jobs, s)
    ensures Inv(jobs, Drain(s)) && !HeadIsNext(Drain(s))
    decreases |s.buffer|
  {
    if HeadIsNext(s) {
      var s' := PlayHead(s);
      assert s.buffer == [s.buffer[0]] + s.buffer[1..];
      NextNumber(|s.played|);
      assert forall k :: 0 <= k < |s.played| ==> s'.played[k] == s.played[k];
      DrainKeeps(jobs, s');
    }
  }

  lemma NextNumber(n: nat)
    ensures (n % WRAP + 1) % WRAP == (n + 1) % WRAP
  {
  }

  lemma ArrivalKeeps(jobs: seq<Job>, s: Speaker, job: Job, s': Speaker)
    requires Inv(jobs, s) && Arrives(s, job, s')
    ensures Inv(jobs + [job], s') && !HeadIsNext(s')
  {
    var b: seq<Job> :| Sorted(b) && multiset(b) == multiset(s.buffer + [job]) && s' == Drain(s.(buffer := b));
    assert multiset(s.buffer + [job]) == multiset(s.buffer) + multiset{job};
    DrainKeeps(jobs + [job], s.(buffer := b));
  }

  lemma FirstState(jobs: seq<Job>, states: seq<Speaker>)
    requires IsRun(jobs, states)
    ensures Inv(jobs[..0], states[0]) && !HeadIsNext(states[0])
  {
  }

  lemma NextState(jobs: seq<Job>, states: seq<Speaker>, n: nat)
    requires IsRun(jobs, states) && 0 < n <= |jobs| && Inv(jobs[..n - 1], states[n - 1])
    ensures Inv(jobs[..n], states[n]) && !HeadIsNext(states[n])
  {
    hide Inv, Arrives;
    assert Arrives(states[n - 1], jobs[n - 1], states[n - 1 + 1]);
    ArrivalKeeps(jobs[..n - 1], states[n - 1], jobs[n - 1], states[n]);
    assert jobs[..n - 1] + [jobs[n - 1]] == jobs[..n];
  }

  lemma {:induction false} EveryState(jobs: seq<Job>, states: seq<Speaker>, n: nat)
    requires IsRun(jobs, states) && n <= |jobs|
    ensures Inv(jobs[..n], states[n]) && !HeadIsNext(states[n])
  {
    hide *;
    if n == 0 {
      FirstState(jobs, states);
    } else {
      EveryState(jobs, states, n - 1);
      NextState(jobs, states, n);
    }
  }

  /** After any arrivals at all, repeated numbers included. */
  lemma EveryRun(jobs: seq<Job>, s: Speaker)
    requires Reaches(jobs, s)
    ensures Inv(jobs, s) && !HeadIsNext(s)
  {
    var states :| IsRun(jobs, states) && states[|jobs|] == s;
    EveryState(jobs, states, |jobs|);
    assert jobs[..|jobs|] == jobs;
  }

  // ---------------------------------------------------------------------------------
  // Progress

  /** A number that was played is at the head of the buffer again. */
  predicate Blocked(s: Speaker) {
    s.buffer != [] && s.buffer[0].num < s.next
  }

  lemma {:induction false} PlayedOnce(played: seq<Job>, k: int)
    requires |played| < WRAP && forall i :: 0 <= i < |played| ==> played[i].num == i
    ensures Count(played, k) == if 0 <= k < |played| then 1 else 0
  {
    if played != [] {
      var n := |played| - 1;
      PlayedOnce(played[..n], k);
      assert played == played[..n] + [played[n]];
      CountAppend(played[..n], [played[n]], k);
      assert [played[n]][1..] == [];
    }
  }

  lemma PlayedCount(jobs: seq<Job>, s: Speaker)
    requires Inv(jobs, s) && |jobs| < WRAP
    ensures s.next == |s.played| && |s.played| + |s.buffer| == |jobs|
    ensures forall i :: 0 <= i < |s.played| ==> s.played[i].num == i
  {
    assert |multiset(jobs)| == |jobs|;
    assert |multiset(s.played) + multiset(s.buffer)| == |s.played| + |s.buffer|;
  }

  /** How often each number is played and buffered, while fewer jobs than numbers exist. */
  lemma Shares(jobs: seq<Job>, s: Speaker, k: int)
    requires Inv(jobs, s) && |jobs| < WRAP
    ensures Count(jobs, k) == Count(s.buffer, k) + if 0 <= k < s.next then 1 else 0
  {
    hide Count;
    PlayedCount(jobs, s);
    PlayedOnce(s.played, k);
    assert multiset(s.played + s.buffer) == multiset(jobs);
    CountPermuted(s.played + s.buffer, jobs, k);
    CountAppend(s.played, s.buffer, k);
  }

  /** n is the smallest number that has not arrived. */
  ghost predicate SmallestMissing(jobs: seq<Job>, n: int) {
    n >= 0 && Count(jobs, n) == 0 && forall k :: 0 <= k < n ==> Count(jobs, k) > 0
  }

  /** Unless it is blocked, the speaker waits for the smallest number that has not arrived,
      and has played all smaller ones. */
  lemma WaitsForSmallestMissing(jobs: seq<Job>, s: Speaker)
    requires Reaches(jobs, s) && |jobs| < WRAP && !Blocked(s)
    ensures SmallestMissing(jobs, s.next) && |s.played| == s.next
  {
    hide Count, Reaches;
    EveryRun(jobs, s);
    PlayedCount(jobs, s);
    forall k | 0 <= k < s.next ensures Count(jobs, k) > 0 {
      Shares(jobs, s, k);
    }
    Shares(jobs, s, s.next);
    CountMember(s.buffer, s.next);
    assert forall i :: 0 <= i < |s.buffer| ==> s.buffer[0].num <= s.buffer[i].num;
  }

  /** It is blocked exactly if it has played a number that has arrived more than once. */
  lemma BlockedIffPlayedAgain(jobs: seq<Job>, s: Speaker)
    requires Reaches(jobs, s) && |jobs| < WRAP
    ensures Blocked(s) <==> exists k :: 0 <= k < s.next && Count(jobs, k) > 1
  {
    hide Count, Reaches;
    EveryRun(jobs, s);
    assert forall i :: 0 <= i < |s.buffer| ==> s.buffer[0].num <= s.buffer[i].num;
    if Blocked(s) {
      var k := s.buffer[0].num;
      Shares(jobs, s, k);
      CountMember(s.buffer, k);
      assert Count(jobs, k) > 1;
    }
    forall k | 0 <= k < s.next && Count(jobs, k) > 1 ensures Blocked(s) {
      Shares(jobs, s, k);
      CountMember(s.buffer, k);
      var i :| 0 <= i < |s.buffer| && s.buffer[i].num == k;
    }
  }

  /** Number k has arrived more than once, and every smaller one at least once. */
  ghost predicate Repeated(jobs: seq<Job>, k: int) {
    k >= 0 && Count(jobs, k) > 1 && forall j :: 0 <= j < k ==> Count(jobs, j) > 0
  }

  /** Whether the speaker ends up blocked does not depend on the order of arrival: it does
      exactly if some number has arrived more than once and all smaller ones have arrived. */
  lemma BlockedIffRepeated(jobs: seq<Job>, s: Speaker)
    requires Reaches(jobs, s) && |jobs| < WRAP
    ensures Blocked(s) <==> exists k :: Repeated(jobs, k)
  {
    hide Count, Reaches, Blocked;
    EveryRun(jobs, s);
    BlockedIffPlayedAgain(jobs, s);
    if Blocked(s) {
      var k :| 0 <= k < s.next && Count(jobs, k) > 1;
      forall j | 0 <= j < k ensures Count(jobs, j) > 0 {
        Shares(jobs, s, j);
      }
      assert Repeated(jobs, k);
    } else {
      WaitsForSmallestMissing(jobs, s);
      assert forall k :: 0 <= k < s.next ==> Count(jobs, k) <= 1;
      assert forall k :: k > s.next ==> !Repeated(jobs, k);
    }
  }

  /** Every sequence of arrivals leads somewhere. */
  lemma {:induction false} SomeState(jobs: seq<Job>) returns (states: seq<Speaker>)
    ensures IsRun(jobs, states)
  {
    if jobs == [] {
      states := [START];
    } else {
      var n := |jobs| - 1;
      var before := SomeState(jobs[..n]);
      var b := SortedForm(before[n].buffer + [jobs[n]]);
      states := before + [Drain(before[n].(buffer := b))];
      forall i {:trigger jobs[i]} | 0 <= i < |jobs| ensures Arrives(states[i], jobs[i], states[i + 1]) {
        if i < n {
          assert jobs[..n][i] == jobs[i];
        }
      }
    }
  }

  lemma {:induction false} SortedForm(b: seq<Job>) returns (r: seq<Job>)
    ensures Sorted(r) && multiset(r) == multiset(b)
  {
    if b == [] {
      r := [];
    } else {
      var s := SortedForm(b[1..]);
      assert b == [b[0]] + b[1..];
      var i := Place(s, b[0]);
      InsertSorted(s, b[0], i);
      r := s[..i] + [b[0]] + s[i..];
    }
  }

  /** Where a job belongs among sorted ones. */
  lemma Place(s: seq<Job>, x: Job) returns (i: nat)
    ensures i <= |s| && (forall k :: 0 <= k < i ==> s[k].num <= x.num) && (i < |s| ==> x.num <= s[i].num)
  {
    i := 0;
    while i < |s| && s[i].num <= x.num
      invariant i <= |s| && forall k :: 0 <= k < i ==> s[k].num <= x.num
    {
      i := i + 1;
    }
  }

  /** Two jobs of number 0 do block it, and with `BlockedForEver` whatever comes after. */
  lemma RepeatBlocks(a: Job, b: Job)
    requires a.num == b.num == 0
    ensures exists s :: Reaches([a, b], s) && Blocked(s)
  {
    var jobs := [a, b];
    var states := SomeState(jobs);
    assert Reaches(jobs, states[2]);
    assert Repeated(jobs, 0) by {
      CountAppend([a], [b], 0);
      assert [a][1..] == [] && [b][1..] == [] && jobs == [a] + [b];
    }
    hide *;
    BlockedIffRepeated(jobs, states[2]);
  }

  /** Once blocked it never plays again. */
  lemma BlockedForEver(s: Speaker, job: Job, s': Speaker)
    requires Blocked(s) && Arrives(s, job, s')
    ensures Blocked(s') && s'.played == s.played && s'.next == s.next
  {
    var b: seq<Job> :| Sorted(b) && multiset(b) == multiset(s.buffer + [job]) && s' == Drain(s.(buffer := b));
    assert s.buffer[0] in multiset(b);
    var i :| 0 <= i < |b| && b[i] == s.buffer[0];
    assert b[0].num <= b[i].num;
  }

  /** Numbers 0 to n-1, each once, in any order of arrival: all are played, in order. */
  lemma EveryPermutationPlays(jobs: seq<Job>, s: Speaker)
    requires Reaches(jobs, s) && |jobs| < WRAP
    requires forall k :: Count(jobs, k) == if 0 <= k < |jobs| then 1 else 0
    ensures s.buffer == [] && |s.played| == |jobs| && multiset(s.played) == multiset(jobs)
    ensures forall k :: 0 <= k < |jobs| ==> s.played[k].num == k
  {
    hide Count, Reaches;
    EveryRun(jobs, s);
    PlayedCount(jobs, s);
    BlockedIffRepeated(jobs, s);
    WaitsForSmallestMissing(jobs, s);
    assert Count(jobs, s.next) == 0;
    assert s.buffer == [];
  }

  // ---------------------------------------------------------------------------------
  // The goroutine

  method Insert(sorted: seq<Job>, x: Job) returns (r: seq<Job>)
    requires Sorted(sorted)
    ensures Sorted(r) && multiset(r) == multiset(sorted) + multiset{x}
  {
    var i := 0;
    while i < |sorted| && sorted[i].num <= x.num
      invariant i <= |sorted| && forall j :: 0 <= j < i ==> sorted[j].num <= x.num
    {
      i := i + 1;
    }
    InsertSorted(sorted, x, i);
    r := sorted[..i] + [x] + sorted[i..];
  }

  class Player {
    var buffer: seq<Job>
    var nextSeq: u32
    var played: seq<Job>

    constructor ()
      ensures Abs() == START
    {
      buffer, nextSeq, played := [], 0, [];
    }

    ghost function Abs(): Speaker
      reads this
    {
      Speaker(buffer, nextSeq, played)
    }

    /** sort.Slice by number. */
    method SortBuffer()
      modifies `buffer
      ensures Sorted(buffer) && multiset(buffer) == old(multiset(buffer))
    {
      var jobs, sorted: seq<Job> := buffer, [];
      for n := 0 to |jobs|
        invariant Sorted(sorted) && multiset(sorted) == multiset(jobs[..n])
      {
        assert jobs[..n + 1] == jobs[..n] + [jobs[n]];
        sorted := Insert(sorted, jobs[n]);
      }
      assert jobs[..|jobs|] == jobs;
      buffer := sorted;
    }

    method Receive(job: Job)
      modifies this
      ensures Arrives(old(Abs()), job, Abs())
    {
      buffer := buffer + [job];
      ghost var unsorted := buffer;
      SortBuffer();
      ghost var s := Abs();
      assert Sorted(s.buffer) && multiset(s.buffer) == multiset(unsorted);
      while buffer != [] && buffer[0].num == nextSeq
        invariant Drain(Abs()) == Drain(s)
        decreases |buffer|
      {
        played := played + [buffer[0]];
        buffer := buffer[1..];
        nextSeq := (nextSeq + 1) % WRAP;
      }
    }
  }

  lemma InsertSorted(s: seq<Job>, x: Job, i: nat)
    requires Sorted(s) && i <= |s|
    requires forall j :: 0 <= j < i ==> s[j].num <= x.num
    requires i < |s| ==> x.num <= s[i].num
    ensures Sorted(s[..i] + [x] + s[i..])
    ensures multiset(s[..i] + [x] + s[i..]) == multiset(s) + multiset{x}
  {
    assert s == s[..i] + s[i..];
  }

  // ---------------------------------------------------------------------------------
  // Playing one job

  const MAX_CHUNK := 1024

  /** The chunk loop of spkPlay; a failing send ends it.  The chunks sent are full but for
      the last one, and join up to the front of the samples, or to all of them. */
  method SendChunks(pcm: seq<byte>, accepted: nat) returns (sent: seq<seq<byte>>, ok: bool)
    ensures forall k :: 0 <= k < |sent| ==> 0 < |sent[k]| <= MAX_CHUNK
    ensures forall k :: 0 <= k < |sent| - 1 ==> |sent[k]| == MAX_CHUNK
    ensures ok ==> Concat(sent) == pcm && (|sent| - 1) * MAX_CHUNK < |pcm| && |pcm| <= |sent| * MAX_CHUNK
    ensures !ok ==> |sent| == accepted && |sent| * MAX_CHUNK < |pcm| && Concat(sent) == pcm[..|sent| * MAX_CHUNK]
  {
    sent, ok := [], true;
    var offset := 0;
    assert Concat<byte>([]) == [];
    hide Concat;
    while offset < |pcm|
      invariant |sent| <= accepted && offset <= |pcm|
      invariant offset == |sent| * MAX_CHUNK || (offset == |pcm| < |sent| * MAX_CHUNK)
      invariant (|sent| - 1) * MAX_CHUNK < offset
      invariant forall k :: 0 <= k < |sent| ==> 0 < |sent[k]| <= MAX_CHUNK
      invariant forall k :: 0 <= k < |sent| ==> |sent[k]| == MAX_CHUNK || (k == |sent| - 1 && offset == |pcm|)
      invariant Concat(sent) == pcm[..offset]
      decreases |pcm| - offset
    {
      var end := if offset + MAX_CHUNK > |pcm| then |pcm| else offset + MAX_CHUNK;
      if |sent| == accepted {
        return sent, false;
      }
      ConcatSnoc(sent, pcm[offset..end]);
      assert pcm[..end] == pcm[..offset] + pcm[offset..end];
      sent := sent + [pcm[offset..end]];
      offset := end;
    }
    assert pcm[..|pcm|] == pcm;
  }
}
