/**
 * The WebP animation decoder's NIF functions: `add`, and `decode`, which turns
 * the frames of an animated WebP file into frames of 3-byte RGB pixels.
 * Reading the file and the WebP decoder itself are outside this model: they
 * appear as an input that is either the decoder's frames or a failure.
 */
module WebpDecode {
  import opened FixedWidth
  import opened Wrappers

  /** `add`: `i64` addition, wrapping around as a release build does. */
  function Add(a: I64, b: I64): (r: I64)
    ensures -TWO_TO_THE_63 <= a + b < TWO_TO_THE_63 ==> r == a + b
    ensures (a + b - r) % TWO_TO_THE_64 == 0
  {
    var sum := a + b;
    if sum >= TWO_TO_THE_63 then sum - TWO_TO_THE_64
    else if sum < -TWO_TO_THE_63 then sum + TWO_TO_THE_64
    else sum
  }

  /** The colour layouts a decoded frame can have. */
  datatype ColorMode = Rgb | Rgba | Bgr | Bgra

  /** One frame as the WebP decoder yields it. */
  datatype DecodedFrame = DecodedFrame(
    dimensions: (U32, U32),
    colorMode: ColorMode,
    data: seq<U8>,
    timestamp: I32)

  /** Why no frames could be obtained: the file read or the decoder construction failed. */
  datatype OpenError = ReadFailed | DecoderFailed

  /** What reading the file and constructing the decoder give: its frames in order, or a failure. */
  datatype Opened = Frames(frames: seq<DecodedFrame>) | OpenFailed(error: OpenError)

  /** A frame of the result: its pixels and its timestamp. */
  type Frame = (seq<seq<U8>>, I32)

  /** The decoded animation: its frames, and the size of the last frame decoded. */
  datatype Animation = Animation(frames: seq<Frame>, size: (U32, U32))

  /**
   * `chunks_exact(n)`: `s` cut into consecutive pieces of exactly `n`
   * elements; a shorter remainder at the end is dropped.
   */
  function ChunksExact<T>(s: seq<T>, n: nat): seq<seq<T>>
    requires n > 0
    decreases |s|
  {
    if |s| < n then [] else [s[..n]] + ChunksExact(s[n..], n)
  }

  /** There are `|s| / n` chunks: the remainder dropped is shorter than a chunk. */
  lemma {:induction false} ChunksExactLength<T>(s: seq<T>, n: nat)
    requires n > 0
    ensures n * |ChunksExact(s, n)| <= |s| < n * |ChunksExact(s, n)| + n
    ensures |ChunksExact(s, n)| == |s| / n
    decreases |s|
  {
    var r := ChunksExact(s, n);
    if |s| < n {
      DivUnique(|s|, n, 0);
    } else {
      ChunksExactLength(s[n..], n);
      MulStep(n, |r|);
      DivUnique(|s|, n, |r|);
    }
  }

  /** Chunk `i` is the `n` elements of `s` from offset `n * i`. */
  lemma {:induction false} ChunksExactAt<T>(s: seq<T>, n: nat, i: nat)
    requires n > 0 && i < |ChunksExact(s, n)|
    ensures n * i + n <= |s|
    ensures ChunksExact(s, n)[i] == s[n * i..n * i + n]
    decreases |s|
  {
    if i > 0 {
      ChunksExactAt(s[n..], n, i - 1);
      MulStep(n, i);
    }
  }

  lemma MulStep(n: nat, i: nat)
    requires i > 0
    ensures n * i == n * (i - 1) + n
  {
  }

  /** `n * a + n <= n * b` whenever `a < b`. */
  lemma {:induction false} MulGap(n: nat, a: nat, b: nat)
    ensures a < b ==> n * a + n <= n * b
    decreases b
  {
    if a < b {
      MulStep(n, b);
      MulGap(n, a, b - 1);
    }
  }

  /** Floor division is the only `q` with `n * q <= x < n * q + n`. */
  lemma DivUnique(x: nat, n: nat, q: nat)
    requires 0 < n && n * q <= x < n * q + n
    ensures x / n == q
  {
    assert x == n * (x / n) + x % n;
    MulGap(n, x / n, q);
    MulGap(n, q, x / n);
  }

  /** The first three elements of each chunk; the alpha byte of an RGBA pixel is dropped. */
  function DropAlpha(chunks: seq<seq<U8>>): (r: seq<seq<U8>>)
    requires forall i :: 0 <= i < |chunks| ==> |chunks[i]| >= 3
  {
    seq(|chunks|, i requires 0 <= i < |chunks| => chunks[i][..3])
  }

  /** The colour modes `decode` converts. */
  predicate Supported(mode: ColorMode) {
    mode == Rgb || mode == Rgba
  }

  /** The pixels of RGB frame data: consecutive 3-byte groups. */
  function RgbPixels(data: seq<U8>): (r: seq<seq<U8>>)
    ensures |r| == |data| / 3
    ensures forall i :: 0 <= i < |r| ==> 3 * i + 3 <= |data| && r[i] == data[3 * i..3 * i + 3]
  {
    ChunksExactLength(data, 3);
    forall i | 0 <= i < |data| / 3
      ensures 3 * i + 3 <= |data| && ChunksExact(data, 3)[i] == data[3 * i..3 * i + 3]
    {
      ChunksExactAt(data, 3, i);
    }
    ChunksExact(data, 3)
  }

  /** The pixels of RGBA frame data: the colour bytes of consecutive 4-byte groups. */
  function RgbaPixels(data: seq<U8>): (r: seq<seq<U8>>)
    ensures |r| == |data| / 4
    ensures forall i :: 0 <= i < |r| ==> 4 * i + 4 <= |data| && r[i] == data[4 * i..4 * i + 3]
  {
    ChunksExactLength(data, 4);
    forall i | 0 <= i < |data| / 4
      ensures 4 * i + 4 <= |data| && ChunksExact(data, 4)[i] == data[4 * i..4 * i + 4]
    {
      ChunksExactAt(data, 4, i);
    }
    DropAlpha(ChunksExact(data, 4))
  }

  /** The pixels of one frame: `None` for a colour mode other than RGB and RGBA. */
  function FramePixels(f: DecodedFrame): (r: Option<seq<seq<U8>>>)
    ensures r.Some? <==> Supported(f.colorMode)
    ensures r.Some? ==> forall i :: 0 <= i < |r.value| ==> |r.value[i]| == 3
    ensures f.colorMode == Rgb ==> |r.value| == |f.data| / 3 && forall i :: 0 <= i < |r.value| ==>
      3 * i + 3 <= |f.data| && r.value[i] == f.data[3 * i..3 * i + 3]
    ensures f.colorMode == Rgba ==> |r.value| == |f.data| / 4 && forall i :: 0 <= i < |r.value| ==>
      4 * i + 4 <= |f.data| && r.value[i] == f.data[4 * i..4 * i + 3]
  {
    match f.colorMode
    case Rgb => Some(RgbPixels(f.data))
    case Rgba => Some(RgbaPixels(f.data))
    case _ => None
  }

  /**
   * `decode`: converts every frame in order, and records the dimensions of
   * the last frame as the size. The first frame of an unsupported colour mode
   * makes the whole decode fail, whatever frames came before it.
   */
  method Decode(source: Opened) returns (r: Option<Animation>)
    ensures source.OpenFailed? ==> r.None?
    ensures source.Frames? ==>
      (r.None? <==> exists i :: 0 <= i < |source.frames| && !Supported(source.frames[i].colorMode))
    ensures r.Some? ==> source.Frames? && |r.value.frames| == |source.frames|
    ensures r.Some? ==> forall i :: 0 <= i < |r.value.frames| ==>
      r.value.frames[i] == (FramePixels(source.frames[i]).value, source.frames[i].timestamp)
    ensures r.Some? ==> r.value.size ==
                        if source.frames == [] then (0, 0) else source.frames[|source.frames| - 1].dimensions
  {
    if source.OpenFailed? {
      return None;
    }
    var frames := source.frames;
    var animation := Animation([], (0, 0));
    for i := 0 to |frames|
      invariant |animation.frames| == i
      invariant forall j :: 0 <= j < i ==> Supported(frames[j].colorMode)
      invariant forall j :: 0 <= j < i ==>
        animation.frames[j] == (FramePixels(frames[j]).value, frames[j].timestamp)
      invariant animation.size == if i == 0 then (0, 0) else frames[i - 1].dimensions
    {
      var frame := frames[i];
      animation := animation.(size := frame.dimensions);
      match frame.colorMode {
        case Rgb =>
          var rgb := RgbPixels(frame.data);
          animation := animation.(frames := animation.frames + [(rgb, frame.timestamp)]);
        case Rgba =>
          var rgb := RgbaPixels(frame.data);
          animation := animation.(frames := animation.frames + [(rgb, frame.timestamp)]);
        case _ =>
          return None;
      }
    }
    return Some(animation);
  }
}
