/** Rebuilding audio groups and camera images from numbered chunks, as the audio and
    camera feeds of the gateway do.  The two feeds run the same algorithm on different
    message types, so it is modelled once over `Chunk`. */
module Reassembly {
  import opened Wire

  /** The uint32 whose int32 image is -1, the "no frame in progress" mark. */
  const ID_SENTINEL: u32 := 0xFFFF_FFFF

  /** Protobuf messages stay below 2 GiB, so a length always fits an int32. */
  type payload = s: seq<byte> | |s| < 0x8000_0000

  /** What both feeds read of a chunk message.  `capacity` is the size of the buffer that
      is allocated if this chunk starts a frame: that of 1600 two-byte samples for audio,
      width * height * 3, taken in uint32, for an image. */
  datatype Chunk = Chunk(id: u32, chunkId: u32, count: u32, capacity: u32, payload: payload)

  /** The feed's cache: `filled` is the written prefix of a buffer of `capacity` bytes. */
  datatype Cache = Cache(id: i32, invalid: bool, lastChunkId: i32, capacity: nat, filled: seq<byte>)

  /** The literal the feeds start from: LastChunkId is left at zero there. */
  const FIRST_CACHE := Cache(-1, false, 0, 0, [])

  /** What the Reset functions leave behind. */
  const RESET_CACHE := Cache(-1, false, -1, 0, [])

  /** Overrun is the slice-bounds panic of a payload that does not fit. */
  datatype Outcome = Dropped | Stored | Ready | Overrun

  /** The last chunk of a frame by its own numbering; the subtraction is uint32. */
  predicate Ends(ch: Chunk) {
    ToI32(ch.chunkId) == ToI32((ch.count - 1) % 0x1_0000_0000)
  }

  predicate Restarts(c: Cache, ch: Chunk) {
    (c.id == -1 || ToI32(ch.chunkId) == 0)
  }

  /** The effect of one chunk on the cache. */
  function Accept(c: Cache, ch: Chunk): (Cache, Outcome) {
    var id, k := ToI32(ch.id), ToI32(ch.chunkId);
    if Restarts(c, ch) && k != 0 then
      (c.(invalid := true), Dropped)
    else
      var c := if Restarts(c, ch) then RESET_CACHE.(id := id, capacity := ch.capacity) else c;
      if k != IncI32(c.lastChunkId) || id != c.id then
        (RESET_CACHE.(invalid := true), Dropped)
      else
        var size := |c.filled| + |ch.payload|;
        if size > c.capacity || size >= 0x8000_0000 then
          (c, Overrun)
        else
          (c.(filled := c.filled + ch.payload, lastChunkId := k), if Ends(ch) then Ready else Stored)
  }

  datatype Frame = Frame(id: u32, data: seq<byte>)

  /** A feed: its cache, the frames sent so far, and whether it has not panicked. */
  datatype Feed = Feed(cache: Cache, sent: seq<Frame>, alive: bool)

  const FIRST_FEED := Feed(FIRST_CACHE, [], true)

  function FeedStep(f: Feed, ch: Chunk): Feed {
    if !f.alive then f else
      var (c, outcome) := Accept(f.cache, ch);
      match outcome
      case Overrun => f.(cache := c, alive := false)
      case Ready => f.(cache := RESET_CACHE, sent := f.sent + [Frame(ToU32(c.id), c.filled)])
      case _ => f.(cache := c)
  }

  function Run(f: Feed, chunks: seq<Chunk>): Feed {
    if chunks == [] then f else FeedStep(Run(f, chunks[..|chunks| - 1]), chunks[|chunks| - 1])
  }

  lemma RunSnoc(f: Feed, chunks: seq<Chunk>, ch: Chunk)
    ensures Run(f, chunks + [ch]) == FeedStep(Run(f, chunks), ch)
  {
    assert (chunks + [ch])[..|chunks + [ch]| - 1] == chunks;
  }

  lemma {:induction false} RunAppend(f: Feed, a: seq<Chunk>, b: seq<Chunk>)
    ensures Run(f, a + b) == Run(Run(f, a), b)
  {
    if b == [] {
      assert a + b == a;
    } else {
      var init := b[..|b| - 1];
      RunAppend(f, a, init);
      RunSnoc(f, a + init, b[|b| - 1]);
      assert a + b == a + init + [b[|b| - 1]];
    }
  }

  // ---------------------------------------------------------------------------------
  // What a frame is, without the cache

  function Joined(g: seq<Chunk>): seq<byte> {
    if g == [] then [] else Joined(g[..|g| - 1]) + g[|g| - 1].payload
  }

  /** Chunks 0..|g|-1 of one frame, in order. */
  predicate Group(g: seq<Chunk>) {
    |g| > 0 && forall j :: 0 <= j < |g| ==> g[j].id == g[0].id && g[j].chunkId == j
  }

  /** A group that has not announced its end and can still be extended. */
  predicate Partial(g: seq<Chunk>) {
    Group(g) && g[0].id != ID_SENTINEL && forall j :: 0 <= j < |g| ==> !Ends(g[j])
  }

  /** A group whose last chunk, and no earlier one, announces the end. */
  predicate Whole(g: seq<Chunk>) {
    && Group(g)
    && Ends(g[|g| - 1])
    && (forall j :: 0 <= j < |g| - 1 ==> !Ends(g[j]))
    && (g[0].id != ID_SENTINEL || |g| == 1)
  }

  predicate Fits(g: seq<Chunk>)
    requires |g| > 0
  {
    |Joined(g)| <= g[0].capacity && |Joined(g)| < 0x8000_0000
  }

  /** The last m chunks. */
  function Tail(chunks: seq<Chunk>, m: nat): seq<Chunk>
    requires m <= |chunks|
  {
    chunks[|chunks| - m..]
  }

  /** The cache after a partial group. */
  function CacheOf(g: seq<Chunk>): Cache
    requires Group(g)
  {
    Cache(ToI32(g[0].id), false, ToI32(g[|g| - 1].chunkId), g[0].capacity, Joined(g))
  }

  /** The number of chunks the last one claims to complete. */
  function Span(chunks: seq<Chunk>): nat
    requires chunks != []
  {
    chunks[|chunks| - 1].chunkId + 1
  }

  /** The chunks end in a partial group. */
  predicate InProgress(chunks: seq<Chunk>) {
    chunks != [] && Span(chunks) <= |chunks| && Partial(Tail(chunks, Span(chunks)))
  }

  lemma JoinedSnoc(g: seq<Chunk>, ch: Chunk)
    ensures Joined(g + [ch]) == Joined(g) + ch.payload
  {
    assert (g + [ch])[..|g + [ch]| - 1] == g;
  }

  /** The cache reflects exactly the chunks received. */
  predicate Tracks(c: Cache, chunks: seq<Chunk>) {
    if InProgress(chunks) then
      c == CacheOf(Tail(chunks, Span(chunks))) && Fits(Tail(chunks, Span(chunks)))
    else
      c.id == -1
  }

  /** The trailing group once ch has arrived. */
  lemma TailSnoc(chunks: seq<Chunk>, ch: Chunk)
    requires ch.chunkId <= |chunks|
    ensures Tail(chunks + [ch], ch.chunkId + 1) == Tail(chunks, ch.chunkId) + [ch]
  {
  }

  /** A group grows exactly by the next chunk of the same frame. */
  lemma GroupSnoc(chunks: seq<Chunk>, ch: Chunk)
    requires 0 < ch.chunkId <= |chunks|
    ensures var g := Tail(chunks, ch.chunkId);
            Group(g + [ch]) <==> Group(g) && g[0].id == ch.id
    ensures Group(Tail(chunks, ch.chunkId)) ==> Span(chunks) == ch.chunkId
  {
    var g := Tail(chunks, ch.chunkId);
    if Group(g + [ch]) {
      assert forall j :: 0 <= j < |g| ==> g[j] == (g + [ch])[j];
      assert (g + [ch])[|g|] == ch;
    }
    if Group(g) {
      assert g[|g| - 1] == chunks[|chunks| - 1];
    }
  }

  /** The last chunk was appended to the buffer: it starts a frame or continues one. */
  predicate Linked(chunks: seq<Chunk>)
    requires chunks != []
  {
    && Span(chunks) <= |chunks|
    && (Span(chunks) == 1 || Whole(Tail(chunks, Span(chunks))) || Partial(Tail(chunks, Span(chunks))))
  }

  /** The last chunk completes a frame that fits its buffer. */
  predicate Completes(chunks: seq<Chunk>) {
    && chunks != []
    && Span(chunks) <= |chunks|
    && Whole(Tail(chunks, Span(chunks)))
    && Fits(Tail(chunks, Span(chunks)))
  }

  /** The last chunk does not fit the buffer it is to be written to. */
  predicate Overruns(chunks: seq<Chunk>) {
    chunks != [] && Linked(chunks) && !Fits(Tail(chunks, Span(chunks)))
  }

  /** What one more chunk must do, said of the received chunks alone. */
  predicate StepMeets(f: Feed, f': Feed, all: seq<Chunk>)
    requires all != []
  {
    && (f'.alive <==> !Overruns(all))
    && (f'.alive ==> Tracks(f'.cache, all))
    && f'.sent == if Completes(all)
                  then f.sent + [Frame(all[|all| - 1].id, Joined(Tail(all, Span(all))))] else f.sent
  }

  /** A first chunk, on its own. */
  lemma FirstGroup(ch: Chunk)
    requires ch.chunkId == 0
    ensures Group([ch]) && Joined([ch]) == ch.payload && (Fits([ch]) <==> |ch.payload| <= ch.capacity)
    ensures (Whole([ch]) <==> Ends(ch)) && (Partial([ch]) <==> !Ends(ch) && ch.id != ID_SENTINEL)
  {
    JoinedSnoc([], ch);
    assert [] + [ch] == [ch];
  }

  /** What any cache does with a first chunk. */
  lemma FirstAccepted(c: Cache, ch: Chunk)
    requires ch.chunkId == 0
    ensures var (c', outcome) := Accept(c, ch);
            if |ch.payload| > ch.capacity then
              outcome == Overrun
            else
              && c' == Cache(ToI32(ch.id), false, 0, ch.capacity, ch.payload)
              && outcome == (if Ends(ch) then Ready else Stored)
  {
  }

  lemma FirstChunkMeets(f: Feed, chunks: seq<Chunk>, ch: Chunk)
    requires f.alive && ch.chunkId == 0
    ensures StepMeets(f, FeedStep(f, ch), chunks + [ch])
  {
    hide Accept, Joined, Group, Whole, Partial, Fits, Ends;
    var all := chunks + [ch];
    assert Tail(all, 1) == [ch];
    FirstGroup(ch);
    FirstAccepted(f.cache, ch);
  }

  /** A partial group followed by its next chunk is whole or partial again. */
  lemma ExtendedGroup(g: seq<Chunk>, ch: Chunk)
    requires Partial(g) && ch.chunkId == |g| && ch.id == g[0].id
    ensures var h := g + [ch];
            && Group(h) && h[0] == g[0] && h[|h| - 1] == ch && Joined(h) == Joined(g) + ch.payload
            && (Whole(h) <==> Ends(ch)) && (Partial(h) <==> !Ends(ch))
  {
    var h := g + [ch];
    JoinedSnoc(g, ch);
    assert forall j :: 0 <= j < |g| ==> h[j] == g[j];
    assert h[|g|] == ch;
  }

  /** What the cache does with the successor of the group it holds. */
  lemma SuccessorAccepted(g: seq<Chunk>, ch: Chunk)
    requires Partial(g) && Fits(g) && ch.chunkId == |g| && ch.id == g[0].id
    requires Group(g + [ch]) && Joined(g + [ch]) == Joined(g) + ch.payload
    ensures Accept(CacheOf(g), ch) ==
              if !Fits(g + [ch]) then (CacheOf(g), Overrun)
              else (CacheOf(g + [ch]), if Ends(ch) then Ready else Stored)
  {
    assert g[|g| - 1].chunkId == |g| - 1;
    assert (g + [ch])[0] == g[0] && (g + [ch])[|g|] == ch;
  }

  lemma NextChunkMeets(f: Feed, chunks: seq<Chunk>, ch: Chunk)
    requires f.alive && Tracks(f.cache, chunks)
    requires 0 < ch.chunkId <= |chunks| && Partial(Tail(chunks, ch.chunkId))
    requires Tail(chunks, ch.chunkId)[0].id == ch.id
    ensures StepMeets(f, FeedStep(f, ch), chunks + [ch])
  {
    var g := Tail(chunks, ch.chunkId);
    TailSnoc(chunks, ch);
    GroupSnoc(chunks, ch);
    ExtendedGroup(g, ch);
    SuccessorAccepted(g, ch);
    NextFromGroup(f, chunks, ch, g);
  }

  lemma NextFromGroup(f: Feed, chunks: seq<Chunk>, ch: Chunk, g: seq<Chunk>)
    requires f.alive && |g| == ch.chunkId <= |chunks| && |g| > 0
    requires Tail(chunks + [ch], ch.chunkId + 1) == g + [ch]
    requires Group(g + [ch]) && (Whole(g + [ch]) <==> Ends(ch)) && (Partial(g + [ch]) <==> !Ends(ch))
    requires Accept(f.cache, ch) ==
               if !Fits(g + [ch]) then (f.cache, Overrun)
               else (CacheOf(g + [ch]), if Ends(ch) then Ready else Stored)
    ensures StepMeets(f, FeedStep(f, ch), chunks + [ch])
  {
    var all := chunks + [ch];
    assert all[|all| - 1] == ch;
    assert (g + [ch])[0].id == ch.id by { assert (g + [ch])[|g|] == ch; }
  }

  lemma StrayChunkMeets(f: Feed, chunks: seq<Chunk>, ch: Chunk)
    requires f.alive && Tracks(f.cache, chunks) && ch.chunkId != 0
    requires ch.chunkId <= |chunks| ==>
               !Partial(Tail(chunks, ch.chunkId)) || Tail(chunks, ch.chunkId)[0].id != ch.id
    ensures StepMeets(f, FeedStep(f, ch), chunks + [ch])
  {
    var all := chunks + [ch];
    if ch.chunkId <= |chunks| {
      var g := Tail(chunks, ch.chunkId);
      TailSnoc(chunks, ch);
      GroupSnoc(chunks, ch);
      assert forall j :: 0 <= j < |g| ==> (g + [ch])[j] == g[j];
      assert !Whole(g + [ch]) && !Partial(g + [ch]);
    }
    assert !Linked(all);
    if f.cache.id != -1 {
      MismatchResets(f.cache, chunks, ch);
    }
  }

  /** With a partial group in the cache, a chunk that is not its successor clears it. */
  lemma MismatchResets(c: Cache, chunks: seq<Chunk>, ch: Chunk)
    requires c.id != -1 && Tracks(c, chunks) && ch.chunkId != 0
    requires ch.chunkId <= |chunks| ==>
               !Partial(Tail(chunks, ch.chunkId)) || Tail(chunks, ch.chunkId)[0].id != ch.id
    ensures Accept(c, ch) == (RESET_CACHE.(invalid := true), Dropped)
  {
    var n := Span(chunks);
    var g := Tail(chunks, n);
    assert g[n - 1] == chunks[|chunks| - 1];
    assert c.lastChunkId == ToI32(n - 1) && c.id == ToI32(g[0].id);
  }

  /** One more chunk: what is sent, when the feed panics, and what the cache then holds are
      decided by the trailing chunks alone. */
  lemma StepTracks(f: Feed, chunks: seq<Chunk>, ch: Chunk)
    requires f.alive && Tracks(f.cache, chunks)
    ensures StepMeets(f, FeedStep(f, ch), chunks + [ch])
  {
    if ch.chunkId == 0 {
      FirstChunkMeets(f, chunks, ch);
    } else if ch.chunkId <= |chunks| && Partial(Tail(chunks, ch.chunkId)) && Tail(chunks, ch.chunkId)[0].id == ch.id {
      NextChunkMeets(f, chunks, ch);
    } else {
      StrayChunkMeets(f, chunks, ch);
    }
  }

  // ---------------------------------------------------------------------------------
  // Soundness and completeness on arbitrary chunk streams

  /** The frames a stream of chunks contains: one for every position that completes one. */
  function Frames(chunks: seq<Chunk>): seq<Frame> {
    if chunks == [] then [] else
      Frames(chunks[..|chunks| - 1]) +
      if Completes(chunks) then [Frame(chunks[|chunks| - 1].id, Joined(Tail(chunks, Span(chunks))))] else []
  }

  /** No chunk of the stream overruns its buffer. */
  predicate Clean(chunks: seq<Chunk>) {
    chunks == [] || (Clean(chunks[..|chunks| - 1]) && !Overruns(chunks))
  }

  lemma {:induction false} CleanMeans(chunks: seq<Chunk>)
    ensures Clean(chunks) <==> forall k :: 0 <= k <= |chunks| ==> !Overruns(chunks[..k])
  {
    if chunks != [] {
      var init := chunks[..|chunks| - 1];
      CleanMeans(init);
      assert chunks[..|chunks|] == chunks;
      if Clean(chunks) {
        forall k | 0 <= k <= |chunks| ensures !Overruns(chunks[..k]) {
          if k < |chunks| { assert init[..k] == chunks[..k]; }
        }
      } else if !Clean(init) {
        var k :| 0 <= k <= |init| && Overruns(init[..k]);
        assert chunks[..k] == init[..k];
      }
    }
  }

  /** The feed has panicked exactly if some chunk overran; until then it has sent exactly
      the frames of the stream. */
  predicate Faithful(f: Feed, chunks: seq<Chunk>) {
    && (f.alive <==> Clean(chunks))
    && (f.alive ==> Tracks(f.cache, chunks) && f.sent == Frames(chunks))
  }

  lemma FaithfulSnoc(f: Feed, init: seq<Chunk>, ch: Chunk)
    requires Faithful(f, init)
    ensures Faithful(FeedStep(f, ch), init + [ch])
  {
    var all := init + [ch];
    assert all[..|all| - 1] == init;
    if f.alive {
      StepTracks(f, init, ch);
      MeetsIsFaithful(f, FeedStep(f, ch), all);
    }
  }

  lemma MeetsIsFaithful(f: Feed, f': Feed, all: seq<Chunk>)
    requires all != [] && StepMeets(f, f', all)
    requires Clean(all[..|all| - 1]) && f.sent == Frames(all[..|all| - 1])
    ensures Faithful(f', all)
  {
  }

  lemma {:induction false} RunIsFaithful(chunks: seq<Chunk>)
    ensures Faithful(Run(FIRST_FEED, chunks), chunks)
  {
    if chunks != [] {
      var init, ch := chunks[..|chunks| - 1], chunks[|chunks| - 1];
      RunIsFaithful(init);
      FaithfulSnoc(Run(FIRST_FEED, init), init, ch);
      assert init + [ch] == chunks;
    }
  }

  /** Any stream, from the first cache on: the feed panics exactly when some chunk overruns
      its buffer, and until then it has sent exactly the frames the stream contains, and
      holds exactly the partial group that it ends in. */
  lemma FeedSendsExactlyTheFrames(chunks: seq<Chunk>)
    ensures var f := Run(FIRST_FEED, chunks);
            && (f.alive <==> forall k :: 0 <= k <= |chunks| ==> !Overruns(chunks[..k]))
            && (f.alive ==> f.sent == Frames(chunks) && Tracks(f.cache, chunks))
  {
    hide Run, Overruns, Tracks;
    RunIsFaithful(chunks);
    CleanMeans(chunks);
  }

  /** A first chunk larger than the buffer it asks for does make the feed panic. */
  lemma OversizeChunkPanics(ch: Chunk)
    requires ch.chunkId == 0 && |ch.payload| > ch.capacity
    ensures !Run(FIRST_FEED, [ch]).alive
  {
    assert [ch][..0] == [] && Run(FIRST_FEED, []) == FIRST_FEED;
    FirstAccepted(FIRST_CACHE, ch);
  }

  /** A partial group fed to any live feed leaves just that group in the cache. */
  lemma {:induction false} PartialGroupTaken(f: Feed, g: seq<Chunk>)
    requires f.alive && Partial(g) && Fits(g)
    ensures Run(f, g) == f.(cache := CacheOf(g))
  {
    hide Run, Partial, Fits, CacheOf, FeedStep, Joined;
    assert g != [] by { PartialPrefix(g); }
    var init, ch := g[..|g| - 1], g[|g| - 1];
    assert g == init + [ch];
    RunSnoc(f, init, ch);
    PartialPrefix(g);
    if init == [] {
      OneChunkTaken(f, ch);
    } else {
      PartialGroupTaken(f, init);
      OneMoreTaken(f, init, ch);
    }
  }

  /** The beginning of a partial group is one. */
  lemma PartialPrefix(g: seq<Chunk>)
    requires Partial(g) && Fits(g)
    ensures Group(g) && |g| > 0 && g[|g| - 1].chunkId == |g| - 1 && g[|g| - 1].id == g[0].id && !Ends(g[|g| - 1])
    ensures |g| > 1 ==> Partial(g[..|g| - 1]) && Fits(g[..|g| - 1])
  {
    assert g == g[..|g| - 1] + [g[|g| - 1]];
    JoinedSnoc(g[..|g| - 1], g[|g| - 1]);
  }

  lemma OneChunkTaken(f: Feed, ch: Chunk)
    requires f.alive && Partial([] + [ch]) && Fits([] + [ch])
    ensures FeedStep(Run(f, []), ch) == f.(cache := CacheOf([] + [ch]))
  {
    hide Accept, Partial, Fits, Ends, Joined;
    assert [] + [ch] == [ch];
    PartialPrefix([ch]);
    FirstGroup(ch);
    FirstAccepted(f.cache, ch);
  }

  lemma OneMoreTaken(f: Feed, g: seq<Chunk>, ch: Chunk)
    requires f.alive && Partial(g) && Fits(g) && Partial(g + [ch]) && Fits(g + [ch])
    ensures FeedStep(f.(cache := CacheOf(g)), ch) == f.(cache := CacheOf(g + [ch]))
  {
    hide Accept, Partial, Fits, Ends, Joined, CacheOf;
    PartialPrefix(g);
    PartialPrefix(g + [ch]);
    assert (g + [ch])[0] == g[0];
    JoinedSnoc(g, ch);
    SuccessorAccepted(g, ch);
  }

  /** All of a whole group but its last chunk is a partial group. */
  lemma WholePrefix(init: seq<Chunk>, ch: Chunk)
    requires Whole(init + [ch]) && Fits(init + [ch]) && init != []
    ensures Partial(init) && Fits(init) && ch.chunkId == |init| && ch.id == init[0].id && Ends(ch)
    ensures Group(init + [ch]) && Joined(init + [ch]) == Joined(init) + ch.payload
  {
    var g := init + [ch];
    JoinedSnoc(init, ch);
    assert g[|init|] == ch && forall j :: 0 <= j < |init| ==> g[j] == init[j];
  }

  /** The chunk that completes a group, arriving at a cache that holds the rest of it. */
  lemma LastChunkSends(f: Feed, init: seq<Chunk>, ch: Chunk)
    requires f.alive && Whole(init + [ch]) && Fits(init + [ch])
    requires init != [] ==> Group(init) && f.cache == CacheOf(init)
    ensures FeedStep(f, ch) == f.(cache := RESET_CACHE, sent := f.sent + [Frame(ch.id, Joined(init + [ch]))])
    ensures ch.id == (init + [ch])[0].id
  {
    if init == [] {
      OnlyChunkSends(f, ch);
      assert init + [ch] == [ch];
    } else {
      WholePrefix(init, ch);
      SuccessorAccepted(init, ch);
      hide Accept, Whole, Fits, Joined, Partial, Ends;
      assert (init + [ch])[0] == init[0];
    }
  }

  lemma OnlyChunkSends(f: Feed, ch: Chunk)
    requires f.alive && Whole([ch]) && Fits([ch])
    ensures FeedStep(f, ch) == f.(cache := RESET_CACHE, sent := f.sent + [Frame(ch.id, Joined([ch]))])
  {
    assert ch.chunkId == 0 by { assert [ch][0] == ch; }
    FirstGroup(ch);
    hide Whole, Fits, Joined, Accept, Ends;
    FirstAccepted(f.cache, ch);
  }

  /** Resynchronisation: whatever the cache holds, a whole group that fits is sent, byte
      for byte, and the cache is then empty. */
  lemma WholeGroupSent(f: Feed, g: seq<Chunk>)
    requires f.alive && Whole(g) && Fits(g)
    ensures Run(f, g) == f.(cache := RESET_CACHE, sent := f.sent + [Frame(g[0].id, Joined(g))])
  {
    var init, ch := g[..|g| - 1], g[|g| - 1];
    assert g == init + [ch];
    JoinedSnoc(init, ch);
    if init != [] {
      PartialGroupTaken(f, init);
    }
    assert Run(f, g) == FeedStep(Run(f, init), ch);
    LastChunkSends(Run(f, init), init, ch);
  }

  // ---------------------------------------------------------------------------------
  // Loss

  /** A frame as its sender has it: chunk j carries parts[j], and all carry the count. */
  datatype Source = Source(id: u32, capacity: u32, parts: seq<payload>)

  predicate WellSplit(s: Source) {
    && 0 < |s.parts| < 0x1_0000_0000
    && |Concat(s.parts)| <= s.capacity
    && |Concat(s.parts)| < 0x8000_0000
  }

  function ChunkOf(s: Source, j: nat): Chunk
    requires j < |s.parts| < 0x1_0000_0000
  {
    Chunk(s.id, j, |s.parts|, s.capacity, s.parts[j])
  }

  /** The first n chunks of s without those whose mask entry is false. */
  function Surviving(s: Source, mask: seq<bool>, n: nat): seq<Chunk>
    requires n <= |s.parts| == |mask| < 0x1_0000_0000
  {
    if n == 0 then [] else
      Surviving(s, mask, n - 1) + if mask[n - 1] then [ChunkOf(s, n - 1)] else []
  }

  predicate AllKept(mask: seq<bool>, n: nat)
    requires n <= |mask|
  {
    forall j :: 0 <= j < n ==> mask[j]
  }

  /** The cache after the first n > 0 chunks of s. */
  function CacheAfter(s: Source, n: nat): Cache
    requires 0 < n <= |s.parts| < 0x1_0000_0000
  {
    Cache(ToI32(s.id), false, ToI32(n - 1), s.capacity, Concat(s.parts[..n]))
  }

  predicate Masked(sources: seq<Source>, masks: seq<seq<bool>>) {
    |sources| == |masks| && forall i :: 0 <= i < |sources| ==> |masks[i]| == |sources[i].parts| < 0x1_0000_0000
  }

  /** The chunks of all the frames, in order, without the lost ones. */
  function Transmitted(sources: seq<Source>, masks: seq<seq<bool>>): seq<Chunk>
    requires Masked(sources, masks)
  {
    if sources == [] then [] else
      var n := |sources| - 1;
      Transmitted(sources[..n], masks[..n]) + Surviving(sources[n], masks[n], |masks[n]|)
  }

  /** The frames none of whose chunks was lost.  A frame of several chunks whose id is the
      sentinel is never put together. */
  function Intact(sources: seq<Source>, masks: seq<seq<bool>>): seq<Frame>
    requires Masked(sources, masks)
  {
    if sources == [] then [] else
      var n := |sources| - 1;
      Intact(sources[..n], masks[..n]) +
      if AllKept(masks[n], |masks[n]|) && Deliverable(sources[n])
      then [Frame(sources[n].id, Concat(sources[n].parts))] else []
  }

  predicate Deliverable(s: Source) {
    s.id != ID_SENTINEL || |s.parts| == 1
  }

  lemma PrefixFits(s: Source, n: nat)
    requires WellSplit(s) && 0 < n <= |s.parts|
    ensures Concat(s.parts[..n]) == Concat(s.parts[..n - 1]) + s.parts[n - 1]
    ensures |Concat(s.parts[..n])| <= |Concat(s.parts)|
  {
    assert s.parts[..n][..n - 1] == s.parts[..n - 1];
    assert s.parts == s.parts[..n] + s.parts[n..];
    ConcatAppend(s.parts[..n], s.parts[n..]);
  }

  /** Where a feed can be after n chunks of s when one of them has been lost. */
  predicate OutOfStep(c0: Cache, c: Cache, s: Source, n: nat)
    requires n <= |s.parts| < 0x1_0000_0000
  {
    c.id == -1 || (c == c0 && c.id != ToI32(s.id)) || (exists q: nat :: 0 < q < n && c == CacheAfter(s, q))
  }

  /** The first n chunks of s, some lost, fed to a feed that holds no part of s. */
  lemma {:induction false} LossWithinFrame(f: Feed, s: Source, mask: seq<bool>, n: nat)
    requires f.alive && WellSplit(s) && n <= |s.parts| == |mask|
    requires f.cache.id == -1 || f.cache.id != ToI32(s.id)
    ensures Follows(f, Run(f, Surviving(s, mask, n)), s, mask, n)
  {
    hide Run, Surviving, Follows, WellSplit, OutOfStep;
    assert |s.parts| < 0x1_0000_0000 by { SplitIsShort(s); }
    if n > 0 {
      LossWithinFrame(f, s, mask, n - 1);
      var before := Surviving(s, mask, n - 1);
      SurvivingNext(s, mask, n);
      if mask[n - 1] {
        RunSnoc(f, before, ChunkOf(s, n - 1));
        ChunkSurvives(f, Run(f, before), s, mask, n);
      } else {
        ChunkLost(f, Run(f, before), s, mask, n);
      }
    } else {
      NothingYet(f, s, mask);
    }
  }

  lemma SplitIsShort(s: Source)
    requires WellSplit(s)
    ensures |s.parts| < 0x1_0000_0000
  {
  }

  /** A feed f' after the first n chunks of s, some lost, that were fed to f. */
  ghost predicate Follows(f: Feed, f': Feed, s: Source, mask: seq<bool>, n: nat)
    requires n <= |s.parts| == |mask| < 0x1_0000_0000
  {
    && f'.alive
    && if n == 0 then f' == f
       else if !AllKept(mask, n) then f'.sent == f.sent && OutOfStep(f.cache, f'.cache, s, n)
       else if !Deliverable(s) then f'.sent == f.sent && f'.cache.id == -1
       else if n < |s.parts| then f'.sent == f.sent && f'.cache == CacheAfter(s, n)
       else f'.sent == f.sent + [Frame(s.id, Concat(s.parts))] && f'.cache == RESET_CACHE
  }

  lemma SurvivingNext(s: Source, mask: seq<bool>, n: nat)
    requires 0 < n <= |s.parts| == |mask| < 0x1_0000_0000
    ensures Surviving(s, mask, n) == Surviving(s, mask, n - 1) + if mask[n - 1] then [ChunkOf(s, n - 1)] else []
    ensures !mask[n - 1] ==> Surviving(s, mask, n) == Surviving(s, mask, n - 1)
  {
  }

  lemma NothingYet(f: Feed, s: Source, mask: seq<bool>)
    requires f.alive && |s.parts| == |mask| < 0x1_0000_0000
    ensures Follows(f, Run(f, Surviving(s, mask, 0)), s, mask, 0)
  {
  }

  lemma ChunkLost(f: Feed, f': Feed, s: Source, mask: seq<bool>, n: nat)
    requires 0 < n <= |s.parts| == |mask| < 0x1_0000_0000 && !mask[n - 1]
    requires f.cache.id == -1 || f.cache.id != ToI32(s.id)
    requires Follows(f, f', s, mask, n - 1)
    ensures Follows(f, f', s, mask, n)
  {
    hide CacheAfter, Concat;
    assert !AllKept(mask, n);
  }

  lemma ChunkSurvives(f: Feed, f': Feed, s: Source, mask: seq<bool>, n: nat)
    requires WellSplit(s) && 0 < n <= |s.parts| == |mask| < 0x1_0000_0000 && mask[n - 1] && f.alive
    requires Follows(f, f', s, mask, n - 1)
    ensures Follows(f, FeedStep(f', ChunkOf(s, n - 1)), s, mask, n)
  {
    hide FeedStep, Concat, CacheAfter, WellSplit, Deliverable, AllKept;
    PrefixFits(s, n);
    NextSurvivor(f, f', s, mask, n);
  }

  /** The step of `LossWithinFrame`: chunk n-1 of s survives. */
  lemma NextSurvivor(f0: Feed, f: Feed, s: Source, mask: seq<bool>, n: nat)
    requires WellSplit(s) && 0 < n <= |s.parts| == |mask| && mask[n - 1] && f.alive
    requires Concat(s.parts[..n]) == Concat(s.parts[..n - 1]) + s.parts[n - 1]
    requires |Concat(s.parts[..n])| <= |Concat(s.parts)|
    requires n > 1 && !AllKept(mask, n - 1) ==> OutOfStep(f0.cache, f.cache, s, n - 1)
    requires n > 1 && AllKept(mask, n - 1) && !Deliverable(s) ==> f.cache.id == -1
    requires n > 1 && AllKept(mask, n - 1) && Deliverable(s) ==> f.cache == CacheAfter(s, n - 1)
    ensures var f' := FeedStep(f, ChunkOf(s, n - 1));
            && f'.alive
            && if !AllKept(mask, n) then f'.sent == f.sent && f'.cache.id == -1
               else if !Deliverable(s) then f'.sent == f.sent && f'.cache.id == -1
               else if n < |s.parts| then f'.sent == f.sent && f'.cache == CacheAfter(s, n)
               else f'.sent == f.sent + [Frame(s.id, Concat(s.parts))] && f'.cache == RESET_CACHE
  {
    assert AllKept(mask, n) == AllKept(mask, n - 1);
    if n > 1 && !AllKept(mask, n - 1) {
      LostChunkNoticed(f0.cache, f.cache, s, n - 1);
    } else if n == 1 || Deliverable(s) {
      NextInStep(f.cache, s, n);
    }
    assert s.parts[..|s.parts|] == s.parts;
  }

  /** Chunk n-1 of s, arriving at a cache that holds all the earlier ones. */
  lemma NextInStep(c: Cache, s: Source, n: nat)
    requires WellSplit(s) && 0 < n <= |s.parts|
    requires n > 1 ==> c == CacheAfter(s, n - 1) && s.id != ID_SENTINEL
    requires Concat(s.parts[..n]) == Concat(s.parts[..n - 1]) + s.parts[n - 1]
    requires |Concat(s.parts[..n])| <= |Concat(s.parts)|
    ensures Accept(c, ChunkOf(s, n - 1)) == (CacheAfter(s, n), if n == |s.parts| then Ready else Stored)
  {
    if n == 1 {
      assert Concat(s.parts[..0]) == [];
    }
  }

  /** Once a chunk of s is missing, its next chunk empties the cache. */
  lemma LostChunkNoticed(c0: Cache, c: Cache, s: Source, n: nat)
    requires WellSplit(s) && 0 < n < |s.parts| && OutOfStep(c0, c, s, n)
    ensures Accept(c, ChunkOf(s, n)).0.id == -1 && Accept(c, ChunkOf(s, n)).1 == Dropped
  {
    if c.id != -1 && c.id == ToI32(s.id) {
      var q: nat :| 0 < q < n && c == CacheAfter(s, q);
    }
  }

  /** The ids a feed can be holding part of. */
  predicate Holds(c: Cache, sources: seq<Source>) {
    c.id == -1 || exists i :: 0 <= i < |sources| && c.id == ToI32(sources[i].id)
  }

  predicate DistinctIds(sources: seq<Source>) {
    forall i, j :: 0 <= i < j < |sources| ==> sources[i].id != sources[j].id
  }

  /** The step of `LossSafety`: one more frame, of a new id. */
  lemma OneMoreFrame(f: Feed, before: seq<Source>, s: Source, mask: seq<bool>)
    requires f.alive && Holds(f.cache, before) && WellSplit(s) && |mask| == |s.parts|
    requires forall i :: 0 <= i < |before| ==> before[i].id != s.id
    ensures var f' := Run(f, Surviving(s, mask, |mask|));
            && f'.alive && Holds(f'.cache, before + [s])
            && f'.sent == f.sent + if AllKept(mask, |mask|) && Deliverable(s)
                                   then [Frame(s.id, Concat(s.parts))] else []
  {
    hide Run, Surviving, Concat, AllKept, Deliverable;
    NewId(f.cache, before, s);
    LossWithinFrame(f, s, mask, |mask|);
    var f' := Run(f, Surviving(s, mask, |mask|));
    StillHeld(f.cache, f'.cache, before, s);
  }

  lemma NewId(c: Cache, before: seq<Source>, s: Source)
    requires Holds(c, before) && forall i :: 0 <= i < |before| ==> before[i].id != s.id
    ensures c.id == -1 || c.id != ToI32(s.id)
  {
  }

  lemma StillHeld(c: Cache, c': Cache, before: seq<Source>, s: Source)
    requires Holds(c, before)
    ensures c'.id == -1 || c'.id == c.id || c'.id == ToI32(s.id) ==> Holds(c', before + [s])
  {
    var all := before + [s];
    assert all[|before|] == s;
    assert forall i :: 0 <= i < |before| ==> all[i] == before[i];
  }

  /** Loss safety.  Frames with pairwise distinct ids are split into chunks and any chunks
      are lost: what the feed sends is exactly the frames whose chunks all arrived, in
      order, byte for byte, and it never panics. */
  lemma {:induction false} LossSafety(sources: seq<Source>, masks: seq<seq<bool>>)
    requires Masked(sources, masks) && DistinctIds(sources)
    requires forall i :: 0 <= i < |sources| ==> WellSplit(sources[i])
    ensures var f := Run(FIRST_FEED, Transmitted(sources, masks));
            f.alive && f.sent == Intact(sources, masks) && Holds(f.cache, sources)
  {
    hide Run, Surviving, Holds, AllKept, Deliverable, WellSplit, Concat;
    if sources != [] {
      var n := |sources| - 1;
      var init, s := sources[..n], sources[n];
      LossSafety(init, masks[..n]);
      var before, last := Transmitted(init, masks[..n]), Surviving(s, masks[n], |masks[n]|);
      RunAppend(FIRST_FEED, before, last);
      OneMoreFrame(Run(FIRST_FEED, before), init, s, masks[n]);
      assert init + [s] == sources;
    } else {
      NoFrames(masks);
    }
  }

  lemma NoFrames(masks: seq<seq<bool>>)
    requires Masked([], masks)
    ensures var f := Run(FIRST_FEED, Transmitted([], masks));
            f.alive && f.sent == Intact([], masks) && Holds(f.cache, [])
  {
  }

  /** The sentinel does break a frame: two chunks under it, none lost, and nothing sent. */
  lemma SentinelFrameLost(a: payload, b: payload)
    requires |a| + |b| <= 10
    ensures var s := Source(ID_SENTINEL, 10, [a, b]);
            Run(FIRST_FEED, Transmitted([s], [[true, true]])).sent == []
  {
    var s := Source(ID_SENTINEL, 10, [a, b]);
    assert Concat([a]) == Concat([]) + a;
    assert Concat([a, b]) == Concat([a]) + b by { assert [a, b][..1] == [a]; }
    LossSafety([s], [[true, true]]);
    assert Intact([s], [[true, true]]) == Intact([], []) by {
      assert [s][..0] == [] && [[true, true]][..0] == [];
    }
  }

  // ---------------------------------------------------------------------------------
  // The feed itself

  /** A sent response refers to the cache's buffer; it does not copy it. */
  datatype Emission = Emission(id: u32, buffer: array<byte>, size: nat)

  /** The frames that emissions denote now. */
  ghost function Views(sent: seq<Emission>): seq<Frame>
    requires WithinBuffers(sent)
    reads set e <- sent :: e.buffer
  {
    if sent == [] then [] else
      var e := sent[|sent| - 1];
      Views(sent[..|sent| - 1]) + [Frame(e.id, e.buffer[..e.size])]
  }

  ghost predicate WithinBuffers(sent: seq<Emission>) {
    forall e <- sent :: e.size <= e.buffer.Length
  }

  lemma ViewsSnoc(sent: seq<Emission>, e: Emission)
    requires WithinBuffers(sent) && e.size <= e.buffer.Length
    ensures WithinBuffers(sent + [e])
    ensures Views(sent + [e]) == Views(sent) + [Frame(e.id, e.buffer[..e.size])]
  {
    assert (sent + [e])[..|sent + [e]| - 1] == sent;
  }

  class FeedCache {
    var data: array?<byte>
    var id: i32
    var invalid: bool
    var size: i32
    var lastChunkId: i32

    constructor ()
      ensures Valid() && Abs() == FIRST_CACHE && data == null
    {
      data, id, invalid, size, lastChunkId := null, -1, false, 0, 0;
    }

    ghost predicate Valid()
      reads this
    {
      && 0 <= size <= (if data == null then 0 else data.Length)
      && (id != -1 ==> data != null)
    }

    ghost function Abs(): Cache
      requires Valid()
      reads this, data
    {
      if data == null then Cache(id, invalid, lastChunkId, 0, [])
      else Cache(id, invalid, lastChunkId, data.Length, data[..size])
    }

    method Reset()
      modifies this
      ensures Valid() && Abs() == RESET_CACHE && data == null
    {
      data, id, invalid, size, lastChunkId := null, -1, false, 0, -1;
    }

    /** Write behind what has been written. */
    method CopyIn(bytes: payload)
      requires data != null && 0 <= size && size + |bytes| <= data.Length && size + |bytes| < 0x8000_0000
      modifies this`size, data
      ensures size == old(size) + |bytes| && data[..size] == old(data[..size]) + bytes
    {
      forall i | 0 <= i < |bytes| {
        data[size + i] := bytes[i];
      }
      size := size + |bytes|;
    }

    method Unpack(ch: Chunk) returns (outcome: Outcome)
      requires Valid()
      modifies this, data
      ensures Valid() && (Abs(), outcome) == Accept(old(Abs()), ch)
      ensures data == null || data == old(data) || fresh(data)
      ensures outcome == Ready ==> data != null
    {
      var groupId, chunkId := ToI32(ch.id), ToI32(ch.chunkId);
      if id != -1 && chunkId == 0 {
        id := -1;
      }
      if id == -1 {
        if chunkId != 0 {
          invalid := true;
          return Dropped;
        }
        Reset();
        data := new byte[ch.capacity];
        id := groupId;
      }
      if chunkId != IncI32(lastChunkId) || groupId != id {
        Reset();
        invalid := true;
        return Dropped;
      }
      var dataSize := |ch.payload|;
      if size + dataSize >= 0x8000_0000 || size + dataSize > data.Length {
        return Overrun;
      }
      CopyIn(ch.payload);
      lastChunkId := chunkId;
      return if Ends(ch) then Ready else Stored;
    }
  }

  /** The cache's buffer is not one that has been sent. */
  ghost predicate Separate(cache: FeedCache, sent: seq<Emission>)
    reads cache
  {
    forall e <- sent :: e.buffer != cache.data
  }

  /** The body of the feeds' loops: unpack a chunk, send the frame it completes. */
  method Handle(cache: FeedCache, sent: seq<Emission>, ch: Chunk) returns (sent': seq<Emission>, alive: bool)
    requires cache.Valid() && WithinBuffers(sent) && Separate(cache, sent)
    modifies cache, cache.data
    ensures cache.Valid() && WithinBuffers(sent') && Separate(cache, sent')
    ensures Feed(cache.Abs(), Views(sent'), alive) == old(FeedStep(Feed(cache.Abs(), Views(sent), true), ch))
    ensures cache.data == null || cache.data == old(cache.data) || fresh(cache.data)
    ensures forall e <- sent' :: e in sent || e.buffer == old(cache.data) || fresh(e.buffer)
  {
    ghost var before := Views(sent);
    var outcome := cache.Unpack(ch);
    assert Views(sent) == before;
    sent', alive := sent, outcome != Overrun;
    if outcome == Ready {
      var e := Emission(ToU32(cache.id), cache.data, cache.size);
      ViewsSnoc(sent, e);
      sent' := sent + [e];
      cache.Reset();
    }
  }

  /** The loop of AudioFeed and CameraFeed over the chunks of their channel.  The result
      holds at the end of the run: no later chunk altered a buffer already sent. */
  method Serve(chunks: seq<Chunk>) returns (sent: seq<Emission>, alive: bool)
    ensures WithinBuffers(sent)
    ensures Views(sent) == Run(FIRST_FEED, chunks).sent && alive == Run(FIRST_FEED, chunks).alive
  {
    var cache := new FeedCache();
    sent, alive := [], true;
    var n := 0;
    assert Feed(cache.Abs(), Views(sent), alive) == Run(FIRST_FEED, chunks[..0]);
    hide *;
    while n < |chunks| && alive
      invariant n <= |chunks|
      invariant cache.Valid() && fresh(cache) && Separate(cache, sent)
      invariant cache.data != null ==> fresh(cache.data)
      invariant WithinBuffers(sent)
      invariant Feed(cache.Abs(), Views(sent), alive) == Run(FIRST_FEED, chunks[..n])
    {
      RunNext(chunks, n);
      sent, alive := Handle(cache, sent, chunks[n]);
      n := n + 1;
    }
    assert chunks[..|chunks|] == chunks;
    if !alive {
      DeadFeed(chunks, n);
    }
  }

  lemma RunNext(chunks: seq<Chunk>, n: nat)
    requires n < |chunks|
    ensures Run(FIRST_FEED, chunks[..n + 1]) == FeedStep(Run(FIRST_FEED, chunks[..n]), chunks[n])
  {
    hide Run, FeedStep;
    assert chunks[..n + 1] == chunks[..n] + [chunks[n]];
    RunSnoc(FIRST_FEED, chunks[..n], chunks[n]);
  }

  /** A feed that has panicked does nothing more. */
  lemma {:induction false} DeadFeed(chunks: seq<Chunk>, n: nat)
    requires n <= |chunks| && !Run(FIRST_FEED, chunks[..n]).alive
    ensures Run(FIRST_FEED, chunks) == Run(FIRST_FEED, chunks[..n])
    decreases |chunks| - n
  {
    if n < |chunks| {
      RunNext(chunks, n);
      DeadFeed(chunks, n + 1);
    } else {
      assert chunks[..n] == chunks;
    }
  }

  // ---------------------------------------------------------------------------------
  // The two feeds

  datatype AudioChunk = AudioChunk(groupId: u32, chunkId: u32, count: u32, signalPower: payload)

  datatype ImageChunk = ImageChunk(imageId: u32, chunkId: u32, count: u32, width: u32, height: u32, data: payload)

  function FromAudio(m: AudioChunk): Chunk {
    Chunk(m.groupId, m.chunkId, m.count, 1600 * 2, m.signalPower)
  }

  function FromImage(m: ImageChunk): Chunk {
    Chunk(m.imageId, m.chunkId, m.count, m.width * m.height * 3 % 0x1_0000_0000, m.data)
  }

  /** A first audio chunk makes the feed panic exactly if it is longer than 3200 bytes, and
      if it is the only one of its group it is otherwise sent as it is. */
  lemma FirstAudioChunk(m: AudioChunk)
    requires m.chunkId == 0
    ensures var f := Run(FIRST_FEED, [FromAudio(m)]);
            && (f.alive <==> |m.signalPower| <= 3200)
            && (f.alive && m.count == 1 ==> f.sent == [Frame(m.groupId, m.signalPower)])
  {
    FirstOfFeed(FromAudio(m));
  }

  /** The same of an image, with three bytes for each of its pixels. */
  lemma FirstImageChunk(m: ImageChunk)
    requires m.chunkId == 0
    ensures var f := Run(FIRST_FEED, [FromImage(m)]);
            && (f.alive <==> |m.data| <= m.width * m.height * 3 % 0x1_0000_0000)
            && (f.alive && m.count == 1 ==> f.sent == [Frame(m.imageId, m.data)])
  {
    hide FromImage;
    ImageFields(m);
    FirstOfFeed(FromImage(m));
  }

  lemma ImageFields(m: ImageChunk)
    ensures var ch := FromImage(m);
            && ch.id == m.imageId && ch.chunkId == m.chunkId && ch.count == m.count && ch.payload == m.data
            && ch.capacity == m.width * m.height * 3 % 0x1_0000_0000
  {
  }

  lemma FirstOfFeed(ch: Chunk)
    requires ch.chunkId == 0
    ensures var f := Run(FIRST_FEED, [ch]);
            && (f.alive <==> |ch.payload| <= ch.capacity)
            && (f.alive && ch.count == 1 ==> f.sent == [Frame(ch.id, ch.payload)])
  {
    assert [ch][..0] == [] && Run(FIRST_FEED, []) == FIRST_FEED;
    FirstAccepted(FIRST_CACHE, ch);
    ConversionsKeepBits(ch.id, 0);
  }

  /** AudioFeed, over the messages of its channel. */
  method AudioFeed(messages: seq<AudioChunk>) returns (sent: seq<Emission>, alive: bool)
    ensures WithinBuffers(sent)
    ensures var chunks := seq(|messages|, i requires 0 <= i < |messages| => FromAudio(messages[i]));
            Views(sent) == Run(FIRST_FEED, chunks).sent && alive == Run(FIRST_FEED, chunks).alive
  {
    sent, alive := Serve(seq(|messages|, i requires 0 <= i < |messages| => FromAudio(messages[i])));
  }

  /** CameraFeed. */
  method CameraFeed(messages: seq<ImageChunk>) returns (sent: seq<Emission>, alive: bool)
    ensures WithinBuffers(sent)
    ensures var chunks := seq(|messages|, i requires 0 <= i < |messages| => FromImage(messages[i]));
            Views(sent) == Run(FIRST_FEED, chunks).sent && alive == Run(FIRST_FEED, chunks).alive
  {
    sent, alive := Serve(seq(|messages|, i requires 0 <= i < |messages| => FromImage(messages[i])));
  }
}
