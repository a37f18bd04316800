/**
 * How the sticker commands cut a video into sticker windows, over exact
 * real seconds. `fig10` uses fixed 8.5-second chunks and refuses videos
 * over 59.5 seconds; the multi-sticker command divides the video into
 * the fewest equal windows of at most 10 seconds; the single-sticker
 * command accepts at most 10 seconds.
 */
module Segments {
  import opened Wrappers

  /** `Math.ceil` */
  function Ceil(x: real): (r: int)
    ensures x <= r as real < x + 1.0
  {
    -((-x).Floor)
  }

  /** A duration field of the message: absent, or a number. */
  predicate TruthyNumber(v: Option<real>) {
    v.Some? && v.value != 0.0
  }

  /** `videoMessage?.seconds || quotedMessage?.videoMessage?.seconds` */
  function ReportedSeconds(own: Option<real>, quoted: Option<real>): (r: Option<real>)
    ensures TruthyNumber(r) <==> TruthyNumber(own) || TruthyNumber(quoted)
    ensures TruthyNumber(own) ==> r == own
    ensures !TruthyNumber(own) ==> r == quoted
  {
    if TruthyNumber(own) then own else quoted
  }

  /** `fig10`'s duration: the same chain with a final `|| 0`, so a missing duration counts as 0. */
  function Fig10Seconds(own: Option<real>, quoted: Option<real>): (r: real)
    ensures TruthyNumber(ReportedSeconds(own, quoted)) ==> r == ReportedSeconds(own, quoted).value
    ensures !TruthyNumber(ReportedSeconds(own, quoted)) ==> r == 0.0
  {
    var s := ReportedSeconds(own, quoted);
    if TruthyNumber(s) then s.value else 0.0
  }

  /** A window of the video: `-ss start -t length`. */
  datatype Window = Window(start: real, length: real)

  /** Window `i` of a plan of equal windows: it starts at `i * length`. */
  function PlanWindow(i: nat, length: real): Window {
    Window(i as real * length, length)
  }

  /** `x.Floor` is the one integer `j` with `j <= x < j + 1`. */
  lemma FloorUnique(x: real, j: int)
    requires j as real <= x < j as real + 1.0
    ensures x.Floor == j
  {
  }

  /** Dividing both sides of `j * length <= t < (j + 1) * length` by the positive length. */
  lemma ScaleDown(j: int, length: real, t: real)
    requires length > 0.0
    requires j as real * length <= t < (j + 1) as real * length
    ensures j as real <= t / length < j as real + 1.0
  {
    assert (j + 1) as real == j as real + 1.0;
    var x := t / length;
    assert x * length == t;
    var lo := x - j as real;
    var hi := j as real + 1.0 - x;
    assert lo * length == t - j as real * length;
    assert hi * length == (j + 1) as real * length - t;
  }

  /**
   * Equal windows tile their span: every instant of `[0, count * length)`
   * lies in exactly one of the windows `0 .. count - 1`. So consecutive
   * windows abut, with no gap and no overlap.
   */
  lemma WindowContaining(count: nat, length: real, t: real) returns (i: nat)
    requires length > 0.0 && 0.0 <= t < count as real * length
    ensures i < count
    ensures PlanWindow(i, length).start <= t < PlanWindow(i, length).start + length
    ensures forall j: nat :: j < count && PlanWindow(j, length).start <= t < PlanWindow(j, length).start + length ==> j == i
  {
    var x := t / length;
    assert x * length == t;
    assert 0.0 <= x;
    assert x < count as real by {
      var d := count as real - x;
      assert d * length == count as real * length - t;
    }
    i := x.Floor;
    assert i as real * length <= t by {
      var d := x - i as real;
      assert d >= 0.0;
      assert d * length == t - i as real * length;
    }
    assert t < (i + 1) as real * length by {
      var d := (i + 1) as real - x;
      assert d > 0.0;
      assert d * length == (i + 1) as real * length - t;
      assert d * length > 0.0;
    }
    forall j: nat | j < count && PlanWindow(j, length).start <= t < PlanWindow(j, length).start + length
      ensures j == i
    {
      ScaleDown(j, length, t);
      FloorUnique(x, j);
    }
  }

  // ---------------------------------------------------------------- fig10

  const ChunkSeconds: real := 8.5
  const Fig10MaxSeconds: real := 59.5

  /** `fig10`'s part count: `Math.ceil(seconds / 8.5)`, or 1 when that is not positive. */
  function Fig10Parts(seconds: real): (n: nat)
    ensures n >= 1
  {
    var total := Ceil(seconds / ChunkSeconds);
    if total > 0 then total else 1
  }

  /** Every accepted duration, 0 to 59.5 seconds, gives between 1 and 7 parts. */
  lemma Fig10PartsBounds(seconds: real)
    requires 0.0 <= seconds <= Fig10MaxSeconds
    ensures 1 <= Fig10Parts(seconds) <= 7
  {
    assert seconds / ChunkSeconds <= 7.0;
  }

  /**
   * The parts cover the whole video, and no part is wasted: the chunks span
   * at least `seconds`, and for a positive duration the last chunk starts
   * before the video ends.
   */
  lemma Fig10PartsCover(seconds: real)
    requires 0.0 <= seconds
    ensures seconds <= Fig10Parts(seconds) as real * ChunkSeconds
    ensures seconds > 0.0 ==> (Fig10Parts(seconds) - 1) as real * ChunkSeconds < seconds
  {
    var x := seconds / ChunkSeconds;
    assert x * ChunkSeconds == seconds;
    var n := Fig10Parts(seconds);
    if seconds > 0.0 {
      assert x <= n as real && (n - 1) as real < x;
    } else {
      assert n == 1;
    }
  }

  /** Every instant of an accepted video lies in exactly one `fig10` chunk. */
  lemma Fig10ChunkContaining(seconds: real, t: real) returns (i: nat)
    requires 0.0 <= t < seconds
    ensures i < Fig10Parts(seconds)
    ensures PlanWindow(i, ChunkSeconds).start <= t < PlanWindow(i, ChunkSeconds).start + ChunkSeconds
    ensures forall j: nat :: j < Fig10Parts(seconds) && PlanWindow(j, ChunkSeconds).start <= t < PlanWindow(j, ChunkSeconds).start + ChunkSeconds ==> j == i
  {
    Fig10PartsCover(seconds);
    i := WindowContaining(Fig10Parts(seconds), ChunkSeconds, t);
  }

  // ------------------------------------------------------- equal windows

  const MaxStickerSeconds: real := 10.0

  /** `Math.ceil(seconds / maxDuration)` */
  function SegmentCount(seconds: real): int {
    Ceil(seconds / MaxStickerSeconds)
  }

  /** `seconds / numberOfStickers` */
  function SegmentLength(seconds: real): real
    requires SegmentCount(seconds) > 0
  {
    seconds / SegmentCount(seconds) as real
  }

  /**
   * For a positive duration: at least one segment, the fewest segments of
   * at most 10 seconds, and equal segments that add up to the duration.
   */
  lemma EqualPlan(seconds: real)
    requires seconds > 0.0
    ensures SegmentCount(seconds) >= 1
    ensures (SegmentCount(seconds) - 1) as real * MaxStickerSeconds < seconds
    ensures SegmentCount(seconds) as real * SegmentLength(seconds) == seconds
    ensures 0.0 < SegmentLength(seconds) <= MaxStickerSeconds
  {
    var x := seconds / MaxStickerSeconds;
    assert x * MaxStickerSeconds == seconds;
    var n := SegmentCount(seconds);
    assert x <= n as real && (n - 1) as real < x;
    assert n >= 1;
    var len := seconds / n as real;
    assert len * n as real == seconds;
    assert len <= MaxStickerSeconds by {
      assert len * n as real <= MaxStickerSeconds * n as real;
    }
  }

  /** Every instant of a positive-length video lies in exactly one of the equal segments. */
  lemma SegmentContaining(seconds: real, t: real) returns (i: nat)
    requires 0.0 <= t < seconds
    ensures SegmentCount(seconds) > 0 && i < SegmentCount(seconds)
    ensures PlanWindow(i, SegmentLength(seconds)).start <= t < PlanWindow(i, SegmentLength(seconds)).start + SegmentLength(seconds)
    ensures forall j: nat :: j < SegmentCount(seconds) && PlanWindow(j, SegmentLength(seconds)).start <= t < PlanWindow(j, SegmentLength(seconds)).start + SegmentLength(seconds) ==> j == i
  {
    EqualPlan(seconds);
    i := WindowContaining(SegmentCount(seconds), SegmentLength(seconds), t);
  }

  /** The single-sticker command's guard: a duration is required and may not exceed 10 seconds. */
  predicate SingleStickerAccepts(seconds: Option<real>) {
    TruthyNumber(seconds) && seconds.value <= MaxStickerSeconds
  }

  /**
   * For a positive duration the single-sticker command accepts exactly the
   * videos that the multi-sticker command renders as one sticker.
   */
  lemma SingleStickerIsOneSegment(seconds: real)
    requires seconds > 0.0
    ensures SingleStickerAccepts(Some(seconds)) <==> SegmentCount(seconds) == 1
  {
    var x := seconds / MaxStickerSeconds;
    assert x * MaxStickerSeconds == seconds;
    if seconds <= MaxStickerSeconds {
      assert x <= 1.0;
    } else {
      assert x > 1.0;
    }
  }
}
