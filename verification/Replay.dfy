/** Recorded frames as bytes: an eight-byte time, a four-byte length, both little-endian, and the data. */
module Replays {
  import opened Common

  type byte = b: nat | b < 256

  const MAX_FRAME := 16 * 1024 * 1024
  const HEADER := 12
  const TWO_32 := 0x1_0000_0000
  const TWO_63 := 0x8000_0000_0000_0000
  const TWO_64 := 0x1_0000_0000_0000_0000

  datatype Frame = Frame(timestampMs: int, data: seq<byte>)

  predicate IsTimestamp(ts: int) {
    -TWO_63 <= ts < TWO_63
  }

  /** The casts between the signed time and its unsigned image. */
  function Unsigned(ts: int): nat
    requires IsTimestamp(ts)
  {
    if ts < 0 then ts + TWO_64 else ts
  }

  function Signed(t: nat): (ts: int)
    requires t < TWO_64
    ensures IsTimestamp(ts) && Unsigned(ts) == t
  {
    if t < TWO_63 then t else t - TWO_64
  }

  function Pow256(k: nat): nat {
    if k == 0 then 1 else 256 * Pow256(k - 1)
  }

  function ToBytes(n: nat, k: nat): (bs: seq<byte>)
    ensures |bs| == k
  {
    if k == 0 then [] else [n % 256] + ToBytes(n / 256, k - 1)
  }

  function FromBytes(bs: seq<byte>): nat {
    if bs == [] then 0 else bs[0] + 256 * FromBytes(bs[1..])
  }

  lemma {:induction false} BytesOfNumber(n: nat, k: nat)
    requires n < Pow256(k)
    ensures FromBytes(ToBytes(n, k)) == n
  {
    if k > 0 {
      BytesOfNumber(n / 256, k - 1);
      assert ToBytes(n, k)[1..] == ToBytes(n / 256, k - 1);
    }
  }

  lemma {:induction false} NumberOfBytes(bs: seq<byte>)
    ensures FromBytes(bs) < Pow256(|bs|) && ToBytes(FromBytes(bs), |bs|) == bs
  {
    if bs != [] { NumberOfBytes(bs[1..]); }
  }

  lemma Widths()
    ensures Pow256(4) == TWO_32 && Pow256(8) == TWO_64
  {
    assert Pow256(4) == 256 * (256 * (256 * (256 * Pow256(0))));
    assert Pow256(8) == 256 * (256 * (256 * (256 * Pow256(4))));
  }

  /** `writeFrame`: the length is cast to 32 bits, the data is written whole. */
  function WriteFrame(f: Frame): (bs: seq<byte>)
    requires IsTimestamp(f.timestampMs)
    ensures |bs| == HEADER + |f.data|
  {
    ToBytes(Unsigned(f.timestampMs), 8) + ToBytes(|f.data| % TWO_32, 4) + f.data
  }

  lemma FourBytes(bs: seq<byte>)
    requires |bs| >= 4
    ensures FromBytes(bs) == bs[0] + 0x100 * bs[1] + 0x1_0000 * bs[2] + 0x100_0000 * bs[3]
                             + 0x1_0000_0000 * FromBytes(bs[4..])
  {
    assert FromBytes(bs[3..]) == bs[3] + 256 * FromBytes(bs[3..][1..]);
    assert FromBytes(bs[2..]) == bs[2] + 256 * FromBytes(bs[2..][1..]);
    assert FromBytes(bs[1..]) == bs[1] + 256 * FromBytes(bs[1..][1..]);
    assert bs[3..][1..] == bs[4..] && bs[2..][1..] == bs[3..] && bs[1..][1..] == bs[2..];
  }

  /** The bytes of a frame: the time in eight, the data's length in four, least significant first, then the data. */
  lemma FrameLayout(f: Frame)
    requires IsTimestamp(f.timestampMs)
    ensures var bs: seq<nat> := WriteFrame(f);
      && bs[0] + 0x100 * bs[1] + 0x1_0000 * bs[2] + 0x100_0000 * bs[3]
         + 0x1_0000_0000 * (bs[4] + 0x100 * bs[5] + 0x1_0000 * bs[6] + 0x100_0000 * bs[7])
         == (if f.timestampMs < 0 then f.timestampMs + TWO_64 else f.timestampMs)
      && bs[8] + 0x100 * bs[9] + 0x1_0000 * bs[10] + 0x100_0000 * bs[11] == |f.data| % TWO_32
      && bs[12..] == f.data
  {
    var bs := WriteFrame(f);
    Widths();
    BytesOfNumber(Unsigned(f.timestampMs), 8);
    BytesOfNumber(|f.data| % TWO_32, 4);
    FourBytes(bs[..8]);
    FourBytes(bs[..8][4..]);
    FourBytes(bs[8..12]);
    assert bs[..8] == ToBytes(Unsigned(f.timestampMs), 8) && bs[8..12] == ToBytes(|f.data| % TWO_32, 4);
  }

  ghost predicate Timed(frames: seq<Frame>) {
    forall f <- frames :: IsTimestamp(f.timestampMs)
  }

  predicate Small(f: Frame) {
    |f.data| <= MAX_FRAME
  }

  function WriteFrames(frames: seq<Frame>): seq<byte>
    requires Timed(frames)
  {
    if frames == [] then [] else WriteFrame(frames[0]) + WriteFrames(frames[1..])
  }

  function LengthAt(bs: seq<byte>): nat
    requires |bs| >= HEADER
  {
    FromBytes(bs[8..12])
  }

  function TimeAt(bs: seq<byte>): int
    requires |bs| >= HEADER
  {
    NumberOfBytes(bs[..8]);
    Widths();
    Signed(FromBytes(bs[..8]))
  }

  /** Does a whole frame of acceptable length start here? */
  predicate Readable(bs: seq<byte>) {
    |bs| >= HEADER && LengthAt(bs) <= MAX_FRAME && |bs| >= HEADER + LengthAt(bs)
  }

  function FirstFrame(bs: seq<byte>): Frame
    requires Readable(bs)
  {
    Frame(TimeAt(bs), bs[HEADER..HEADER + LengthAt(bs)])
  }

  /** What `load` makes of a file. */
  function ReadFrames(bs: seq<byte>): seq<Frame>
    decreases |bs|
  {
    if !Readable(bs) then [] else [FirstFrame(bs)] + ReadFrames(bs[HEADER + LengthAt(bs)..])
  }

  lemma HeaderReadsBack(f: Frame, rest: seq<byte>)
    requires IsTimestamp(f.timestampMs)
    ensures var bs := WriteFrame(f) + rest;
      LengthAt(bs) == |f.data| % TWO_32 && TimeAt(bs) == f.timestampMs && bs[HEADER..] == f.data + rest
  {
    var bs := WriteFrame(f) + rest;
    Widths();
    BytesOfNumber(Unsigned(f.timestampMs), 8);
    BytesOfNumber(|f.data| % TWO_32, 4);
    assert bs[..8] == ToBytes(Unsigned(f.timestampMs), 8);
    assert bs[8..12] == ToBytes(|f.data| % TWO_32, 4);
    assert bs[HEADER..] == f.data + rest;
  }

  lemma FrameReadsBack(f: Frame, rest: seq<byte>)
    requires IsTimestamp(f.timestampMs) && Small(f)
    ensures Readable(WriteFrame(f) + rest) && FirstFrame(WriteFrame(f) + rest) == f
    ensures ReadFrames(WriteFrame(f) + rest) == [f] + ReadFrames(rest)
  {
    var bs := WriteFrame(f) + rest;
    HeaderReadsBack(f, rest);
    assert |f.data| % TWO_32 == |f.data|;
    assert bs[HEADER..HEADER + |f.data|] == bs[HEADER..][..|f.data|] == f.data;
    assert bs[HEADER + |f.data|..] == bs[HEADER..][|f.data|..] == rest;
  }

  /** Some but not all bytes of a frame yield nothing. */
  lemma CutFrameIsUnreadable(f: Frame, n: nat)
    requires IsTimestamp(f.timestampMs) && Small(f) && n < |WriteFrame(f)|
    ensures ReadFrames(WriteFrame(f)[..n]) == []
  {
    var cut := WriteFrame(f)[..n];
    if n >= HEADER {
      HeaderReadsBack(f, []);
      assert WriteFrame(f) + [] == WriteFrame(f);
      assert cut[8..12] == WriteFrame(f)[8..12];
      assert |f.data| % TWO_32 == |f.data|;
    }
  }

  /** How many frames lie wholly within the first `n` bytes. */
  function WholeFrames(frames: seq<Frame>, n: nat): (k: nat)
    requires Timed(frames)
    ensures k <= |frames|
  {
    if frames == [] || n < |WriteFrame(frames[0])| then 0
    else 1 + WholeFrames(frames[1..], n - |WriteFrame(frames[0])|)
  }

  lemma {:induction false} WholeFramesMeans(frames: seq<Frame>, n: nat)
    requires Timed(frames)
    ensures var k := WholeFrames(frames, n);
      && |WriteFrames(frames[..k])| <= n
      && (k < |frames| ==> n < |WriteFrames(frames[..k + 1])|)
  {
    var k := WholeFrames(frames, n);
    if k > 0 {
      WholeFramesMeans(frames[1..], n - |WriteFrame(frames[0])|);
      assert frames[..k][1..] == frames[1..][..k - 1];
      if k < |frames| { assert frames[..k + 1][1..] == frames[1..][..k]; }
    }
  }

  lemma TakeAcross<T>(first: seq<T>, rest: seq<T>, n: nat)
    requires n <= |first| + |rest|
    ensures (first + rest)[..n] == if n < |first| then first[..n] else first + rest[..n - |first|]
  {
  }

  lemma LoadCutFirst(f: Frame, rest: seq<byte>, n: nat)
    requires IsTimestamp(f.timestampMs) && Small(f) && n < |WriteFrame(f)|
    ensures ReadFrames((WriteFrame(f) + rest)[..n]) == []
  {
    TakeAcross(WriteFrame(f), rest, n);
    CutFrameIsUnreadable(f, n);
  }

  lemma LoadPastFirst(f: Frame, rest: seq<byte>, n: nat)
    requires IsTimestamp(f.timestampMs) && Small(f) && |WriteFrame(f)| <= n <= |WriteFrame(f)| + |rest|
    ensures ReadFrames((WriteFrame(f) + rest)[..n]) == [f] + ReadFrames(rest[..n - |WriteFrame(f)|])
  {
    TakeAcross(WriteFrame(f), rest, n);
    FrameReadsBack(f, rest[..n - |WriteFrame(f)|]);
  }

  /** Loading the first `n` bytes of a recording returns exactly the frames wholly contained in them. */
  lemma {:induction false} LoadTruncated(frames: seq<Frame>, n: nat)
    requires Timed(frames) && (forall f <- frames :: Small(f)) && n <= |WriteFrames(frames)|
    ensures ReadFrames(WriteFrames(frames)[..n]) == frames[..WholeFrames(frames, n)]
  {
    if frames != [] {
      var f, others := frames[0], frames[1..];
      if n < |WriteFrame(f)| {
        LoadCutFirst(f, WriteFrames(others), n);
      } else {
        var m := n - |WriteFrame(f)|;
        LoadTruncated(others, m);
        LoadPastFirst(f, WriteFrames(others), n);
        TakeAcross([f], others, WholeFrames(frames, n));
        assert frames == [f] + others;
      }
    }
  }

  lemma Regroup<T>(a: seq<T>, b: seq<T>, c: seq<T>)
    ensures (a + b) + c == a + (b + c)
  {
  }

  lemma {:induction false} ReadAfter(frames: seq<Frame>, rest: seq<byte>)
    requires Timed(frames) && forall f <- frames :: Small(f)
    ensures ReadFrames(WriteFrames(frames) + rest) == frames + ReadFrames(rest)
  {
    if frames == [] {
      assert WriteFrames(frames) + rest == rest;
    } else {
      var first, others := frames[0], frames[1..];
      ReadAfter(others, rest);
      FrameReadsBack(first, WriteFrames(others) + rest);
      Regroup(WriteFrame(first), WriteFrames(others), rest);
      Regroup([first], others, ReadFrames(rest));
      assert frames == [first] + others;
    }
  }

  lemma {:induction false} WriteConcat(a: seq<Frame>, b: seq<Frame>)
    requires Timed(a) && Timed(b)
    ensures Timed(a + b) && WriteFrames(a + b) == WriteFrames(a) + WriteFrames(b)
  {
    if a == [] {
      assert a + b == b;
    } else {
      WriteConcat(a[1..], b);
      assert (a + b)[0] == a[0] && (a + b)[1..] == a[1..] + b;
      Regroup(WriteFrame(a[0]), WriteFrames(a[1..]), WriteFrames(b));
    }
  }

  /** A frame over 16 MiB ends the load or is read back wrong: with its length cut to 32 bits. */
  lemma LargeFrameReadsWrong(f: Frame, rest: seq<byte>)
    requires IsTimestamp(f.timestampMs) && !Small(f)
    ensures var read := ReadFrames(WriteFrame(f) + rest); read == [] || |read[0].data| == |f.data| % TWO_32 < |f.data|
    ensures |f.data| < TWO_32 ==> ReadFrames(WriteFrame(f) + rest) == []
  {
    HeaderReadsBack(f, rest);
  }

  function FirstLarge(frames: seq<Frame>): (k: nat)
    ensures k <= |frames| && (forall i :: 0 <= i < k ==> Small(frames[i])) && (k < |frames| ==> !Small(frames[k]))
  {
    if frames == [] || !Small(frames[0]) then 0 else 1 + FirstLarge(frames[1..])
  }

  lemma ReadFirst(a: seq<Frame>, b: seq<Frame>)
    requires Timed(a) && Timed(b) && forall f <- a :: Small(f)
    ensures Timed(a + b) && ReadFrames(WriteFrames(a + b)) == a + ReadFrames(WriteFrames(b))
  {
    WriteConcat(a, b);
    ReadAfter(a, WriteFrames(b));
  }

  lemma SplitAtLarge(frames: seq<Frame>)
    requires Timed(frames) && FirstLarge(frames) < |frames|
    ensures var k := FirstLarge(frames);
      ReadFrames(WriteFrames(frames)) ==
        frames[..k] + ReadFrames(WriteFrame(frames[k]) + WriteFrames(frames[k + 1..]))
  {
    var k := FirstLarge(frames);
    var a, b := frames[..k], frames[k..];
    assert frames == a + b;
    ReadFirst(a, b);
    assert b[0] == frames[k] && b[1..] == frames[k + 1..];
  }

  /** A recording reads back whole exactly when no frame is over 16 MiB. */
  lemma ReadsBackIff(frames: seq<Frame>)
    requires Timed(frames)
    ensures ReadFrames(WriteFrames(frames)) == frames <==> forall f <- frames :: Small(f)
  {
    if forall f <- frames :: Small(f) {
      ReadAfter(frames, []);
      assert WriteFrames(frames) + [] == WriteFrames(frames);
    } else {
      var k := FirstLarge(frames);
      assert k < |frames| by {
        var i :| 0 <= i < |frames| && !Small(frames[i]);
      }
      SplitAtLarge(frames);
      LargeFrameReadsWrong(frames[k], WriteFrames(frames[k + 1..]));
      var read := ReadFrames(WriteFrame(frames[k]) + WriteFrames(frames[k + 1..]));
      if read != [] { assert (frames[..k] + read)[k].data != frames[k].data; }
    }
  }

  /** Frames too large to load but short of 2^32 bytes end the load: everything before the first one is returned. */
  lemma LoadStopsAtLarge(frames: seq<Frame>)
    requires Timed(frames) && forall f <- frames :: |f.data| < TWO_32
    ensures ReadFrames(WriteFrames(frames)) == frames[..FirstLarge(frames)]
  {
    var k := FirstLarge(frames);
    if k < |frames| {
      SplitAtLarge(frames);
      LargeFrameReadsWrong(frames[k], WriteFrames(frames[k + 1..]));
    } else {
      assert forall f <- frames :: Small(f);
      ReadsBackIff(frames);
    }
  }

  lemma FirstFrameWritesBack(bs: seq<byte>)
    requires Readable(bs)
    ensures var f := FirstFrame(bs);
      IsTimestamp(f.timestampMs) && Small(f) && bs == WriteFrame(f) + bs[HEADER + LengthAt(bs)..]
  {
    var f := FirstFrame(bs);
    NumberOfBytes(bs[..8]);
    NumberOfBytes(bs[8..12]);
    assert |f.data| % TWO_32 == LengthAt(bs);
    assert bs == bs[..8] + bs[8..12] + f.data + bs[HEADER + LengthAt(bs)..];
  }

  /**
   * Whatever the file holds, writing the loaded frames gives back its beginning, and no frame starts where that
   * ends.
   */
  lemma {:induction false} LoadedFramesWriteBack(bs: seq<byte>)
    ensures var frames := ReadFrames(bs);
      && Timed(frames) && (forall f <- frames :: Small(f))
      && WriteFrames(frames) <= bs && !Readable(bs[|WriteFrames(frames)|..])
    decreases |bs|
  {
    if Readable(bs) {
      var f, rest := FirstFrame(bs), bs[HEADER + LengthAt(bs)..];
      FirstFrameWritesBack(bs);
      LoadedFramesWriteBack(rest);
      var frames := ReadFrames(bs);
      assert frames[1..] == ReadFrames(rest);
      assert bs[|WriteFrames(frames)|..] == rest[|WriteFrames(ReadFrames(rest))|..];
    }
  }

  // What the read loop finds at one position, in the terms of the file from there on.
  lemma HeaderAt(bs: seq<byte>, at: nat)
    requires at + HEADER <= |bs|
    ensures FromBytes(bs[at..at + 8]) < TWO_64 && TimeAt(bs[at..]) == Signed(FromBytes(bs[at..at + 8]))
    ensures LengthAt(bs[at..]) == FromBytes(bs[at + 8..at + 12])
    ensures var len := LengthAt(bs[at..]);
      at + HEADER + len <= |bs| ==>
        && bs[at..][HEADER..HEADER + len] == bs[at + HEADER..at + HEADER + len]
        && bs[at..][HEADER + len..] == bs[at + HEADER + len..]
  {
    var rest := bs[at..];
    assert bs[at..at + 8] == rest[..8] && bs[at + 8..at + 12] == rest[8..12];
    NumberOfBytes(bs[at..at + 8]);
    Widths();
  }

  /** The player over one file; `None` is a file that cannot be opened. */
  class ReplaySource {
    const file: Option<seq<byte>>
    var frames: seq<Frame>
    var cursor: nat

    constructor (file: Option<seq<byte>>)
      ensures this.file == file && frames == [] && cursor == 0
    {
      this.file, frames, cursor := file, [], 0;
    }

    method Load() returns (ok: bool)
      modifies this
      ensures file.None? ==> !ok && frames == old(frames) && cursor == old(cursor)
      ensures file.Some? ==> frames == ReadFrames(file.value) && cursor == 0 && ok == (frames != [])
    {
      if file.None? { return false; }
      var bs := file.value;
      frames := [];
      var at := 0;
      while true
        invariant at <= |bs| && ReadFrames(bs) == frames + ReadFrames(bs[at..])
        decreases |bs| - at
      {
        if |bs| - at < 8 { break; }
        if |bs| - at < HEADER { break; }
        HeaderAt(bs, at);
        var ts, len := FromBytes(bs[at..at + 8]), FromBytes(bs[at + 8..at + 12]);
        if len > MAX_FRAME { break; }
        if |bs| - at - HEADER < len { break; }
        var f := Frame(Signed(ts), bs[at + HEADER..at + HEADER + len]);
        assert ReadFrames(bs[at..]) == [f] + ReadFrames(bs[at + HEADER + len..]);
        Regroup(frames, [f], ReadFrames(bs[at + HEADER + len..]));
        frames := frames + [f];
        at := at + HEADER + len;
      }
      cursor := 0;
      return frames != [];
    }

    method Next() returns (f: Option<Frame>)
      modifies this`cursor
      ensures f == if old(cursor) < |frames| then Some(frames[old(cursor)]) else None
      ensures cursor == old(cursor) + if f.Some? then 1 else 0
    {
      if cursor >= |frames| { return None; }
      f := Some(frames[cursor]);
      cursor := cursor + 1;
    }

    method Remaining() returns (n: nat)
      ensures n == if cursor < |frames| then |frames[cursor..]| else 0
    {
      n := if cursor < |frames| then |frames| - cursor else 0;
    }

    method Reset()
      modifies this`cursor
      ensures cursor == 0
    {
      cursor := 0;
    }
  }

  /** A recording that is written, cut at any byte and loaded plays its whole frames in order, and then nothing. */
  method PlayRecording(recorded: seq<Frame>, n: nat) returns (played: seq<Frame>, end: Option<Frame>)
    requires Timed(recorded) && (forall f <- recorded :: Small(f)) && n <= |WriteFrames(recorded)|
    ensures played == recorded[..WholeFrames(recorded, n)] && end == None
  {
    var source := new ReplaySource(Some(WriteFrames(recorded)[..n]));
    var _ := source.Load();
    LoadTruncated(recorded, n);
    played := [];
    end := source.Next();
    while end.Some?
      invariant source.frames == recorded[..WholeFrames(recorded, n)] && source.cursor <= |source.frames|
      invariant end.Some? ==> source.cursor > 0 && end == Some(source.frames[source.cursor - 1])
      invariant played == source.frames[..if end.Some? then source.cursor - 1 else source.cursor]
      invariant end.None? ==> source.cursor == |source.frames|
      decreases |source.frames| - source.cursor, if end.Some? then 1 else 0
    {
      played := played + [end.value];
      end := source.Next();
    }
  }
}
