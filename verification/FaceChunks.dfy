/** Sending a face image to the robot: big-endian pixels are cut into numbered chunks, all
    filled into one array that is reused from chunk to chunk. */
module FaceChunks {
  import opened Wire

  const PIXELS_PER_CHUNK := 600
  const FACE_PIXELS := 17664

  /** A byte slice: its own bytes, and those between its length and its capacity, over which
      it may be re-sliced. */
  datatype Slice = Slice(bytes: seq<byte>, spare: seq<byte>) {
    function Backing(): seq<byte> { bytes + spare }
  }

  /** The image's way of being shown, copied into every chunk. */
  datatype Showing = Showing(durationMs: u32, interruptRunning: bool)

  datatype Chunk = Chunk(faceData: seq<u16>, numPixels: u16, chunkIndex: byte, numChunks: byte, showing: Showing)

  datatype Outcome = Sent | WriteFailed | Panicked

  /** The arguments of one sending. */
  datatype Job = Job(face: Slice, chunkCount: int, pixelsPerChunk: int, totalPixels: int, showing: Showing) {
    /** The pixels in chunk i. */
    function PixelCount(i: nat): int {
      if i == chunkCount - 1 then totalPixels - PIXELS_PER_CHUNK * i else PIXELS_PER_CHUNK
    }

    function FirstByte(i: nat): int {
      (pixelsPerChunk * 2) * i
    }

    function FinalByte(i: nat): int {
      FirstByte(i) + PixelCount(i) * 2
    }

    /** Chunk i can be sliced out of the image and fits the array. */
    predicate Fits(i: nat) {
      0 <= FirstByte(i) <= FinalByte(i) <= |face.Backing()| && PixelCount(i) <= PIXELS_PER_CHUNK
    }

    /** The pixels of chunk i. */
    function Pixels(i: nat): seq<u16>
      requires Fits(i)
    {
      BigEndian(face.Backing()[FirstByte(i)..FinalByte(i)])
    }

    /** `c` is chunk i, sent when the array held `before`: behind the chunk's own pixels
        what earlier chunks left is still there. */
    predicate IsChunk(i: nat, before: seq<u16>, c: Chunk) {
      Fits(i) && |before| == PIXELS_PER_CHUNK &&
      c.numPixels == PixelCount(i) &&
      c.faceData == Pixels(i) + before[PixelCount(i)..] &&
      c.chunkIndex == i % 256 && c.numChunks == chunkCount % 256 &&
      c.showing == showing
    }

    /** `sent` is the first chunks, filled one after the other into the one array. */
    predicate Chunks(sent: seq<Chunk>) {
      forall i :: 0 <= i < |sent| ==> IsChunk(i, Held(sent, i), sent[i])
    }

    /** The chunks sent are the first ones, and sending stopped for the reason given, when
        the robot takes `accepted` chunks. */
    predicate Ran(accepted: nat, out: Outcome, sent: seq<Chunk>) {
      Chunks(sent) && |sent| <= accepted &&
      match out
      case Sent => |sent| == if chunkCount < 0 then 0 else chunkCount
      case WriteFailed => |sent| == accepted < chunkCount && Fits(|sent|)
      case Panicked => |sent| < chunkCount && !Fits(|sent|)
    }
  }

  /** Pixels from bytes, most significant first. */
  function BigEndian(bs: seq<byte>): (r: seq<u16>)
    ensures |r| == |bs| / 2
    ensures forall p :: 0 <= p < |r| ==> r[p] == BigEndian16(bs[2 * p], bs[2 * p + 1])
  {
    seq(|bs| / 2, p requires 0 <= p < |bs| / 2 => BigEndian16(bs[2 * p], bs[2 * p + 1]))
  }

  function Zeros(n: nat): (r: seq<u16>)
    ensures |r| == n
    ensures forall p :: 0 <= p < n ==> r[p] == 0
  {
    seq(n, p => 0)
  }

  /** What the array holds when chunk i is begun. */
  function Held(sent: seq<Chunk>, i: nat): seq<u16>
    requires i <= |sent|
  {
    if i == 0 then Zeros(PIXELS_PER_CHUNK) else sent[i - 1].faceData
  }

  method SendFaceDataAsChunks(face: Slice, chunkCount: int, pixelsPerChunk: int, totalPixels: int,
                              showing: Showing, accepted: nat)
    returns (out: Outcome, sent: seq<Chunk>)
    ensures Job(face, chunkCount, pixelsPerChunk, totalPixels, showing).Ran(accepted, out, sent)
  {
    var job := Job(face, chunkCount, pixelsPerChunk, totalPixels, showing);
    var converted := new u16[PIXELS_PER_CHUNK](_ => 0);
    sent := [];
    var i := 0;
    Start(job, converted[..]);
    hide *;
    while i < chunkCount
      invariant |sent| == i <= if chunkCount < 0 then 0 else chunkCount
      invariant i <= accepted
      invariant converted[..] == Held(sent, i)
      invariant job.Chunks(sent)
    {
      var panicked, message := MakeChunk(job, i, converted);
      if panicked {
        Ended(job, accepted, Panicked, sent);
        return Panicked, sent;
      }
      if |sent| == accepted {
        Ended(job, accepted, WriteFailed, sent);
        return WriteFailed, sent;
      }
      AnotherChunk(job, sent, message);
      sent := sent + [message];
      i := i + 1;
    }
    Ended(job, accepted, Sent, sent);
    return Sent, sent;
  }

  lemma Start(job: Job, zeroed: seq<u16>)
    requires |zeroed| == PIXELS_PER_CHUNK && forall p :: 0 <= p < |zeroed| ==> zeroed[p] == 0
    ensures zeroed == Held([], 0) && job.Chunks([])
  {
  }

  lemma Ended(job: Job, accepted: nat, out: Outcome, sent: seq<Chunk>)
    requires job.Chunks(sent) && |sent| <= accepted
    requires out == Sent ==> |sent| == if job.chunkCount < 0 then 0 else job.chunkCount
    requires out != Sent ==> |sent| < job.chunkCount && (job.Fits(|sent|) <==> out == WriteFailed)
    requires out == WriteFailed ==> |sent| == accepted
    ensures job.Ran(accepted, out, sent)
  {
  }

  /** One pass of the outer loop, up to the write. */
  method MakeChunk(job: Job, i: nat, converted: array<u16>) returns (panicked: bool, message: Chunk)
    requires converted.Length == PIXELS_PER_CHUNK
    modifies converted
    ensures panicked <==> !job.Fits(i)
    ensures !panicked ==> job.IsChunk(i, old(converted[..]), message) && converted[..] == message.faceData
  {
    message := Chunk([], 0, 0, 0, job.showing);
    var pixelCount := PIXELS_PER_CHUNK;
    if i == job.chunkCount - 1 {
      pixelCount := job.totalPixels - PIXELS_PER_CHUNK * i;
    }
    var firstByte := (job.pixelsPerChunk * 2) * i;
    var finalByte := firstByte + pixelCount * 2;
    if !(0 <= firstByte <= finalByte <= |job.face.Backing()|) {
      return true, message;
    }
    var sliced := job.face.Backing()[firstByte..finalByte];
    panicked := Convert(sliced, pixelCount, converted);
    if !panicked {
      message := Chunk(converted[..], pixelCount, i % 256, job.chunkCount % 256, job.showing);
    }
  }

  /** The inner loop; it panics at the array's end. */
  method Convert(sliced: seq<byte>, pixelCount: nat, converted: array<u16>) returns (panicked: bool)
    requires |sliced| == 2 * pixelCount && converted.Length == PIXELS_PER_CHUNK
    modifies converted
    ensures panicked <==> pixelCount > PIXELS_PER_CHUNK
    ensures !panicked ==> converted[..] == BigEndian(sliced) + old(converted[..])[pixelCount..]
  {
    var j := 0;
    while j < pixelCount
      invariant 0 <= j <= pixelCount && j <= PIXELS_PER_CHUNK
      invariant forall p :: 0 <= p < j ==> converted[p] == BigEndian(sliced)[p]
      invariant forall p :: j <= p < PIXELS_PER_CHUNK ==> converted[p] == old(converted[p])
    {
      if j == converted.Length {
        return true;
      }
      var uintAsBytes := sliced[j * 2..j * 2 + 2];
      converted[j] := BigEndian16(uintAsBytes[0], uintAsBytes[1]);
      j := j + 1;
    }
    return false;
  }

  lemma HeldBefore(sent: seq<Chunk>, c: Chunk, k: nat)
    requires k <= |sent|
    ensures Held(sent + [c], k) == Held(sent, k)
  {
  }

  lemma AnotherChunk(job: Job, sent: seq<Chunk>, c: Chunk)
    requires job.Chunks(sent) && job.IsChunk(|sent|, Held(sent, |sent|), c)
    ensures job.Chunks(sent + [c]) && Held(sent + [c], |sent| + 1) == c.faceData
  {
    hide Job.IsChunk;
    var more := sent + [c];
    assert Held(more, |sent| + 1) == c.faceData;
    hide Held;
    forall k | 0 <= k < |more|
      ensures job.IsChunk(k, Held(more, k), more[k])
    {
      HeldBefore(sent, c, k);
      if k < |sent| { assert job.IsChunk(k, Held(sent, k), sent[k]); }
    }
  }

  lemma FewerChunks(job: Job, sent: seq<Chunk>)
    requires job.Chunks(sent) && sent != []
    ensures job.Chunks(sent[..|sent| - 1])
    ensures job.IsChunk(|sent| - 1, Held(sent, |sent| - 1), sent[|sent| - 1])
  {
    hide Job.IsChunk;
    var init := sent[..|sent| - 1];
    forall i | 0 <= i < |init|
      ensures job.IsChunk(i, Held(init, i), init[i])
    {
      assert Held(init, i) == Held(sent, i) && job.IsChunk(i, Held(sent, i), sent[i]);
    }
  }

  // ---------------------------------------------------------------------------------
  // What the caller asks for

  /** The caller's number of chunks. */
  function ChunkCount(total: nat): nat {
    (total + PIXELS_PER_CHUNK + 1) / PIXELS_PER_CHUNK
  }

  function ImageJob(face: Slice, total: nat, showing: Showing): Job {
    Job(face, ChunkCount(total), PIXELS_PER_CHUNK, total, showing)
  }

  /** The byte ranges tile the image, in order: one too many pixels are counted by the
      rounding exactly when the total is one short of a multiple of the chunk. */
  lemma RangesTile(face: Slice, total: nat, showing: Showing)
    ensures var job := ImageJob(face, total, showing);
            job.chunkCount > 0 && job.FirstByte(0) == 0 &&
            job.FinalByte(job.chunkCount - 1) == 2 * total &&
            (forall i: nat :: i + 1 < job.chunkCount ==> job.FinalByte(i) == job.FirstByte(i + 1)) &&
            ((forall i: nat :: i < job.chunkCount ==> 0 <= job.PixelCount(i) <= PIXELS_PER_CHUNK) <==>
             total % PIXELS_PER_CHUNK != PIXELS_PER_CHUNK - 1)
  {
    var job := ImageJob(face, total, showing);
    var last := job.chunkCount - 1;
    assert last == (total + 1) / PIXELS_PER_CHUNK;
    assert job.PixelCount(last) == total - PIXELS_PER_CHUNK * last;
  }

  /** Every chunk can be cut out iff the total is not one short of a multiple of the chunk,
      and the slice's capacity covers the image. */
  lemma AllFitIff(face: Slice, total: nat, showing: Showing)
    ensures var job := ImageJob(face, total, showing);
            (forall i: nat :: i < job.chunkCount ==> job.Fits(i)) <==>
            total % 600 != 599 && 2 * total <= |face.bytes| + |face.spare|
  {
    var job := ImageJob(face, total, showing);
    RangesTile(face, total, showing);
    var last := job.chunkCount - 1;
    assert job.FinalByte(last) == 2 * total;
    if job.PixelCount(last) < 0 || 2 * total > |face.Backing()| {
      assert !job.Fits(last);
    }
  }

  /** The sending succeeds exactly for totals not one short of a multiple of 600, a slice
      with the capacity for them, and a robot that takes every chunk. */
  lemma SucceedsIff(face: Slice, total: nat, showing: Showing, accepted: nat, out: Outcome, sent: seq<Chunk>)
    requires ImageJob(face, total, showing).Ran(accepted, out, sent)
    ensures out == Sent <==>
              total % 600 != 599 && 2 * total <= |face.bytes| + |face.spare| && total / 600 < accepted
  {
    var job := ImageJob(face, total, showing);
    AllFitIff(face, total, showing);
    if out == Sent {
      forall i: nat | i < job.chunkCount
        ensures job.Fits(i)
      {
        assert job.IsChunk(i, Held(sent, i), sent[i]);
      }
    }
  }

  /** 599 pixels cannot be sent: with just the image's bytes the first chunk is cut out too
      long, and with room behind them the second has minus one pixels. */
  lemma OnePixelShort(face: Slice, showing: Showing, accepted: nat, out: Outcome, sent: seq<Chunk>)
    requires ImageJob(face, 599, showing).Ran(accepted, out, sent) && accepted > 0
    ensures out == Panicked && |sent| == if |face.Backing()| < 1200 then 0 else 1
  {
    var job := ImageJob(face, 599, showing);
    assert !job.Fits(1) && (job.Fits(0) <==> |face.Backing()| >= 1200);
    if |sent| > 0 { ChunkFits(job, sent, 0); }
    if |sent| > 1 { ChunkFits(job, sent, 1); }
  }

  lemma ChunkFits(job: Job, sent: seq<Chunk>, i: nat)
    requires job.Chunks(sent) && i < |sent|
    ensures job.Fits(i)
  {
    assert job.IsChunk(i, Held(sent, i), sent[i]);
  }

  // ---------------------------------------------------------------------------------
  // The image arrives

  /** What the robot draws: of every chunk, its first NumPixels entries. */
  function Drawn(sent: seq<Chunk>): seq<u16>
    requires forall k :: 0 <= k < |sent| ==> sent[k].numPixels <= |sent[k].faceData|
  {
    if sent == [] then [] else
      var c := sent[|sent| - 1];
      Drawn(sent[..|sent| - 1]) + c.faceData[..c.numPixels]
  }

  lemma {:induction false} BigEndianAppend(a: seq<byte>, b: seq<byte>)
    requires |a| % 2 == 0
    ensures BigEndian(a + b) == BigEndian(a) + BigEndian(b)
  {
    var whole, parts := BigEndian(a + b), BigEndian(a) + BigEndian(b);
    forall p | 0 <= p < |whole|
      ensures whole[p] == parts[p]
    {
      assert whole[p] == BigEndian16((a + b)[2 * p], (a + b)[2 * p + 1]);
      if p >= |a| / 2 {
        assert (a + b)[2 * p] == b[2 * (p - |a| / 2)];
      }
    }
  }

  /** Whatever was sent before sending ended, however it ended, joins to the image's
      pixels so far. */
  lemma {:induction false} DrawnIsTheImageSoFar(face: Slice, total: nat, showing: Showing, sent: seq<Chunk>)
    requires |sent| <= ChunkCount(total) && ImageJob(face, total, showing).Chunks(sent)
    ensures var end := if sent == [] then 0 else ImageJob(face, total, showing).FinalByte(|sent| - 1);
            0 <= end <= |face.Backing()| && end % 2 == 0 &&
            (forall i :: 0 <= i < |sent| ==> sent[i].numPixels <= |sent[i].faceData|) &&
            Drawn(sent) == BigEndian(face.Backing()[..end])
  {
    hide Job.Chunks, Job.IsChunk, Job.Pixels, Job.Fits, Held, BigEndian, Job.PixelCount, Slice.Backing;
    if sent != [] {
      var job := ImageJob(face, total, showing);
      var k := |sent| - 1;
      var c := sent[k];
      FewerChunks(job, sent);
      DrawnIsTheImageSoFar(face, total, showing, sent[..k]);
      RangesTile(face, total, showing);
      LastChunk(job, k, face.Backing(), Held(sent, k), c);
      assert k == 0 || job.FinalByte(k - 1) == job.FirstByte(k);
    } else {
      NoChunks(face);
    }
  }

  lemma NoChunks(face: Slice)
    ensures BigEndian(face.Backing()[..0]) == []
  {
  }

  lemma LastChunk(job: Job, k: nat, image: seq<byte>, before: seq<u16>, c: Chunk)
    requires image == job.face.Backing() && job.IsChunk(k, before, c) && job.FirstByte(k) % 2 == 0
    ensures c.numPixels <= |c.faceData| && 0 <= job.FirstByte(k) <= job.FinalByte(k) <= |image|
    ensures BigEndian(image[..job.FinalByte(k)]) ==
              BigEndian(image[..job.FirstByte(k)]) + c.faceData[..c.numPixels]
  {
    var a, b := job.FirstByte(k), job.FinalByte(k);
    assert image[..b] == image[..a] + image[a..b];
    BigEndianAppend(image[..a], image[a..b]);
    assert |job.Pixels(k)| == job.PixelCount(k);
  }

  /** A sending that succeeds sends exactly the image: joined, the first NumPixels entries
      of the chunks are the big-endian decoding of its 2 * total bytes, though the array is
      reused. Up to 255 chunks, every chunk carries its own number and their count. */
  lemma SentImage(face: Slice, total: nat, showing: Showing, accepted: nat, sent: seq<Chunk>)
    requires ImageJob(face, total, showing).Ran(accepted, Sent, sent)
    ensures 2 * total <= |face.Backing()|
    ensures forall i :: 0 <= i < |sent| ==> sent[i].numPixels <= |sent[i].faceData| == PIXELS_PER_CHUNK
    ensures Drawn(sent) == BigEndian(face.Backing()[..2 * total])
    ensures 2 * total <= |face.bytes| ==> Drawn(sent) == BigEndian(face.bytes[..2 * total])
    ensures |sent| <= 255 ==> forall i :: 0 <= i < |sent| ==> sent[i].chunkIndex == i && sent[i].numChunks == |sent|
  {
    hide Job.Chunks, Job.IsChunk, Held, BigEndian;
    SucceedsIff(face, total, showing, accepted, Sent, sent);
    DrawnIsTheImageSoFar(face, total, showing, sent);
    RangesTile(face, total, showing);
    if 2 * total <= |face.bytes| {
      assert face.Backing()[..2 * total] == face.bytes[..2 * total];
    }
    forall i | 0 <= i < |sent|
      ensures sent[i].numPixels <= |sent[i].faceData| == PIXELS_PER_CHUNK
      ensures |sent| <= 255 ==> sent[i].chunkIndex == i && sent[i].numChunks == |sent|
    {
      NumberedChunk(ImageJob(face, total, showing), sent, i);
    }
  }

  lemma NumberedChunk(job: Job, sent: seq<Chunk>, i: nat)
    requires job.Chunks(sent) && i < |sent|
    ensures sent[i].numPixels == job.PixelCount(i) <= |sent[i].faceData| == PIXELS_PER_CHUNK
    ensures sent[i].chunkIndex == i % 256 && sent[i].numChunks == job.chunkCount % 256
  {
    assert job.IsChunk(i, Held(sent, i), sent[i]);
    assert |job.Pixels(i)| == job.PixelCount(i);
  }

  /** Every pixel of the image is its own two bytes, most significant first, wherever in the
      slice or behind it they are. */
  lemma EveryPixel(face: Slice, total: nat, showing: Showing, accepted: nat, sent: seq<Chunk>, p: nat)
    requires ImageJob(face, total, showing).Ran(accepted, Sent, sent) && p < total
    ensures forall i :: 0 <= i < |sent| ==> sent[i].numPixels <= |sent[i].faceData|
    ensures |Drawn(sent)| == total && 2 * total <= |face.bytes| + |face.spare|
    ensures Drawn(sent)[p] / 256 == ByteOf(face, 2 * p) && Drawn(sent)[p] % 256 == ByteOf(face, 2 * p + 1)
  {
    hide Job.Ran;
    SentImage(face, total, showing, accepted, sent);
    var image := face.Backing()[..2 * total];
    assert BigEndian(image)[p] == BigEndian16(image[2 * p], image[2 * p + 1]);
  }

  function ByteOf(face: Slice, i: nat): byte
    requires i < |face.bytes| + |face.spare|
  {
    if i < |face.bytes| then face.bytes[i] else face.spare[i - |face.bytes|]
  }

  /** Behind its own pixels a last chunk carries the ones of the chunk before. */
  lemma StalePixels(face: Slice, total: nat, showing: Showing, accepted: nat, sent: seq<Chunk>, i: nat)
    requires ImageJob(face, total, showing).Ran(accepted, Sent, sent) && 0 < i < |sent|
    ensures sent[i].numPixels <= PIXELS_PER_CHUNK == |sent[i - 1].faceData|
    ensures sent[i].faceData[sent[i].numPixels..] == sent[i - 1].faceData[sent[i].numPixels..]
  {
    assert ImageJob(face, total, showing).IsChunk(i, Held(sent, i), sent[i]);
  }

  /** The request's handler: the face is 17664 pixels in 30 chunks. The response is sent
      whatever the outcome, unless the handler panics. */
  method DisplayFaceImageRGB(face: Slice, showing: Showing, accepted: nat)
    returns (responded: bool, sent: seq<Chunk>)
    ensures responded <==> 2 * FACE_PIXELS <= |face.Backing()| || 1200 * (accepted + 1) <= |face.Backing()|
    ensures responded && accepted >= 30 ==>
              |sent| == 30 &&
              (forall i :: 0 <= i < 30 ==> sent[i].numPixels <= |sent[i].faceData|) &&
              Drawn(sent) == BigEndian(face.Backing()[..2 * FACE_PIXELS])
  {
    var chunkCount := (FACE_PIXELS + PIXELS_PER_CHUNK + 1) / PIXELS_PER_CHUNK;
    var out;
    out, sent := SendFaceDataAsChunks(face, chunkCount, PIXELS_PER_CHUNK, FACE_PIXELS, showing, accepted);
    responded := out != Panicked;
    ghost var job := ImageJob(face, FACE_PIXELS, showing);
    SucceedsIff(face, FACE_PIXELS, showing, accepted, out, sent);
    if out == Sent {
      SentImage(face, FACE_PIXELS, showing, accepted, sent);
    } else if out == WriteFailed {
      assert job.Fits(accepted);
    } else {
      assert !job.Fits(|sent|);
    }
  }
}
