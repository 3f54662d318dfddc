/** The run-length codec of the boot menu's font: bootstrap/splashmenu/minui/mkfont.c writes it,
    gr_init_font in bootstrap/splashmenu/minui/graphics.c reads it. */
module FontRle {

  /** A pixel is true for 255 and false for 0. */
  type Bitmap = seq<bool>

  const MAX_RUN := 127

  function Repeat(v: bool, n: nat): (r: Bitmap)
    ensures |r| == n && forall i :: 0 <= i < n ==> r[i] == v
  {
    if n == 0 then [] else [v] + Repeat(v, n - 1)
  }

  /** The byte of a run: its count in the low seven bits, and its value in the high one. */
  function Chunk(v: bool, n: nat): (b: nat)
    requires n <= MAX_RUN
    ensures b < 256 && (b >= 128 <==> v) && b % 128 == n
  {
    if v then n + 128 else n
  }

  /** What a data byte stands for. */
  function Expand(b: nat): (r: Bitmap)
    ensures |r| == b % 128
  {
    Repeat(b % 256 >= 128, b % 128)
  }

  /** The pixels of a list of data bytes. */
  function Pixels(bytes: seq<nat>): Bitmap {
    if bytes == [] then [] else Expand(bytes[0]) + Pixels(bytes[1..])
  }

  /** The length of the run that a non-empty bitmap begins with. */
  function Run(s: Bitmap): (n: nat)
    requires s != []
    ensures 1 <= n <= |s|
    ensures forall i :: 0 <= i < n ==> s[i] == s[0]
    ensures n < |s| ==> s[n] != s[0]
  {
    if |s| == 1 || s[1] != s[0] then 1 else 1 + Run(s[1..])
  }

  function FirstRun(s: Bitmap): (n: nat)
    requires s != []
    ensures 1 <= n <= |s| && n <= MAX_RUN
  {
    if Run(s) < MAX_RUN then Run(s) else MAX_RUN
  }

  /** The encoding without its terminator: greedy runs. */
  function Encode(s: Bitmap): seq<nat> {
    if s == [] then [] else [Chunk(s[0], FirstRun(s))] + Encode(s[FirstRun(s)..])
  }

  lemma EncodeSplits(s: Bitmap, n: nat)
    requires s != [] && n == FirstRun(s)
    ensures Encode(s) == [Chunk(s[0], n)] + Encode(s[n..])
  {
  }

  lemma PixelsCons(b: nat, t: seq<nat>)
    ensures Pixels([b] + t) == Expand(b) + Pixels(t)
  {
    assert ([b] + t)[1..] == t;
  }

  /** The first run is what the first byte stands for. */
  lemma FirstChunk(s: Bitmap, n: nat)
    requires s != [] && n == FirstRun(s)
    ensures Expand(Chunk(s[0], n)) + s[n..] == s
  {
    assert Repeat(s[0], n) == s[..n];
  }

  /** Decoding the encoding gives the bitmap back, and no byte of it is the terminator. */
  lemma {:induction false} RoundTrip(s: Bitmap)
    ensures Pixels(Encode(s)) == s
    ensures forall i :: 0 <= i < |Encode(s)| ==> 0 < Encode(s)[i] < 256
  {
    if s != [] {
      var n := FirstRun(s);
      EncodeSplits(s, n);
      PixelsCons(Chunk(s[0], n), Encode(s[n..]));
      FirstChunk(s, n);
      RoundTrip(s[n..]);
      hide *;
    }
  }

  // ---------------------------------------------------------------- optimality

  lemma RunOfTail(s: Bitmap)
    requires |s| > 1
    ensures s[1] == s[0] ==> Run(s) == 1 + Run(s[1..])
    ensures s[1] != s[0] ==> Run(s) == 1
  {
  }

  /** Dropping the first pixel never makes the encoding longer. */
  lemma {:induction false} TailIsNoLonger(s: Bitmap)
    requires s != []
    ensures |Encode(s[1..])| <= |Encode(s)|
    decreases |s|
  {
    var n := FirstRun(s);
    if |s| > 1 && s[1] == s[0] {
      RunOfTail(s);
      var t := s[1..];
      var m := FirstRun(t);
      assert m == n - 1 || m == n;
      assert t[m..] == s[m + 1..];
      if m == n && m + 1 <= |s| && n < |s| {
        TailIsNoLonger(s[n..]);
        assert s[n..][1..] == s[n + 1..];
      }
    } else if |s| > 1 {
      RunOfTail(s);
    }
  }

  lemma {:induction false} SuffixIsNoLonger(s: Bitmap, k: nat)
    requires k <= |s|
    ensures |Encode(s[k..])| <= |Encode(s)|
    decreases k
  {
    if k > 0 {
      TailIsNoLonger(s);
      SuffixIsNoLonger(s[1..], k - 1);
      assert s[1..][k - 1..] == s[k..];
    } else {
      assert s[0..] == s;
    }
  }

  lemma RunAtLeast(s: Bitmap, n: nat)
    requires 0 < n <= |s| && forall i :: 0 <= i < n ==> s[i] == s[0]
    ensures Run(s) >= n
  {
  }

  /** The first run of a bitmap that begins with a byte's pixels covers these. */
  lemma FirstRunCovers(b: nat, s: Bitmap)
    requires b % 128 > 0
    ensures FirstRun(Expand(b) + s) >= b % 128
  {
    var e, t := Expand(b), Expand(b) + s;
    assert forall i :: 0 <= i < |e| ==> t[i] == e[i] == e[0];
    RunAtLeast(t, |e|);
    hide Run, Expand;
  }

  lemma TailBehind(e: Bitmap, s: Bitmap, n: nat)
    requires |e| <= n <= |e + s|
    ensures (e + s)[n..] == s[n - |e|..]
  {
  }

  /** One byte more cannot save more than itself. */
  lemma ChunkCostsOne(b: nat, s: Bitmap)
    ensures |Encode(Expand(b) + s)| <= 1 + |Encode(s)|
  {
    hide *;
    var e := Expand(b);
    var t := e + s;
    if e == [] {
      assert t == s;
    } else {
      var n := FirstRun(t);
      FirstRunCovers(b, s);
      EncodeSplits(t, n);
      TailBehind(e, s, n);
      SuffixIsNoLonger(s, n - |e|);
    }
  }

  /** Main theorem: no byte string that decodes to a bitmap is shorter than its encoding. */
  lemma {:induction false} EncodingIsShortest(bytes: seq<nat>)
    ensures |Encode(Pixels(bytes))| <= |bytes|
  {
    if bytes != [] {
      EncodingIsShortest(bytes[1..]);
      ChunkCostsOne(bytes[0], Pixels(bytes[1..]));
    }
  }

  // ---------------------------------------------------------------- mkfont.c

  /** The first colour byte of the pixels from the k-th on, as the encoder reads them: zero is 255. */
  function Read(rgb: seq<bv8>, k: nat, n: nat): (s: Bitmap)
    requires k + 3 * n <= |rgb|
    ensures |s| == n
    ensures forall i :: 0 <= i < n ==> s[i] == (rgb[k + 3 * i] == 0)
    decreases n
  {
    if n == 0 then [] else [rgb[k] == 0] + Read(rgb, k + 3, n - 1)
  }

  /** A run in progress is emitted when the pixel behind it differs or the run is full. */
  lemma RunEnds(v: bool, c: nat, rest: Bitmap)
    requires 1 <= c <= MAX_RUN
    requires rest == [] || rest[0] != v || c == MAX_RUN
    ensures Encode(Repeat(v, c) + rest) == [Chunk(v, c)] + Encode(rest)
  {
    var s := Repeat(v, c) + rest;
    RunAtLeast(s, c);
    assert c < |s| ==> s[c] == rest[0];
    assert FirstRun(s) == c;
    assert s[c..] == rest && s[0] == v;
    EncodeSplits(s, c);
    hide *;
  }

  lemma RunGrows(v: bool, c: nat, rest: Bitmap)
    ensures Repeat(v, c) + ([v] + rest) == Repeat(v, c + 1) + rest
    ensures Repeat(v, 1) == [v]
  {
    assert Repeat(v, c) + [v] == Repeat(v, c + 1);
  }

  lemma ReadCons(rgb: seq<bv8>, k: nat, n: nat)
    requires n > 0 && k + 3 * n <= |rgb|
    ensures Read(rgb, k, n) == [rgb[k] == 0] + Read(rgb, k + 3, n - 1)
  {
  }

  /** What the encoder has printed, and what it still has to print, make up `goal`. */
  ghost predicate Prints(bytes: seq<nat>, v: bool, c: nat, rest: Bitmap, goal: seq<nat>) {
    bytes + Encode(Repeat(v, c) + rest) == goal
  }

  lemma PrintsNext(bytes: seq<nat>, v: bool, c: nat, val: bool, rest: Bitmap, goal: seq<nat>)
    requires 1 <= c <= MAX_RUN && Prints(bytes, v, c, [val] + rest, goal)
    ensures val == v && c < MAX_RUN ==> Prints(bytes, v, c + 1, rest, goal)
    ensures val != v || c == MAX_RUN ==> Prints(bytes + [Chunk(v, c)], val, 1, rest, goal)
  {
    hide Repeat, Encode, Chunk;
    RunGrows(v, c, rest);
    RunGrows(val, 1, rest);
    if val != v || c == MAX_RUN {
      RunEnds(v, c, [val] + rest);
      assert bytes + ([Chunk(v, c)] + Encode([val] + rest)) == (bytes + [Chunk(v, c)]) + Encode([val] + rest);
    }
  }

  lemma PrintsLast(bytes: seq<nat>, v: bool, c: nat, goal: seq<nat>)
    requires 1 <= c <= MAX_RUN && Prints(bytes, v, c, [], goal)
    ensures bytes + [Chunk(v, c)] == goal
  {
    hide Repeat, Chunk;
    RunEnds(v, c, []);
    assert [Chunk(v, c)] + [] == [Chunk(v, c)];
  }

  /** main(), for an image of n pixels.  The bytes printed are the encoding and a terminating zero. */
  method MakeFont(rgb: seq<bv8>, pixels: nat) returns (bytes: seq<nat>)
    requires pixels > 0 && |rgb| >= 3 * pixels
    ensures bytes == Encode(Read(rgb, 0, pixels)) + [0]
  {
    hide Encode, Read, Repeat;
    ghost var goal := Encode(Read(rgb, 0, pixels));
    var n, x := pixels, 0;
    bytes := [];
    var runVal := rgb[x] == 0;
    var runCount := 1;
    ReadCons(rgb, x, n);
    RunGrows(runVal, 0, Read(rgb, x + 3, n - 1));
    n := n - 1;
    x := x + 3;
    assert [] + goal == goal;
    while n > 0
      invariant n >= 0 && x + 3 * n == 3 * pixels
      invariant 1 <= runCount <= MAX_RUN
      invariant Prints(bytes, runVal, runCount, Read(rgb, x, n), goal)
    {
      ReadCons(rgb, x, n);
      var val := rgb[x] == 0;
      n := n - 1;
      x := x + 3;
      PrintsNext(bytes, runVal, runCount, val, Read(rgb, x, n), goal);
      if val == runVal && runCount < MAX_RUN {
        runCount := runCount + 1;
      } else {
        bytes := bytes + [if runVal then runCount + 128 else runCount];
        runVal := val;
        runCount := 1;
      }
    }
    PrintsLast(bytes, runVal, runCount, goal);
    bytes := bytes + [if runVal then runCount + 128 else runCount];
    bytes := bytes + [0];
  }

  // ---------------------------------------------------------------- gr_init_font

  lemma {:induction false} PixelsConcat(a: seq<nat>, b: seq<nat>)
    ensures Pixels(a + b) == Pixels(a) + Pixels(b)
  {
    hide Expand;
    if a == [] {
      assert a + b == b;
    } else {
      assert a == [a[0]] + a[1..] && a + b == [a[0]] + (a[1..] + b);
      PixelsConcat(a[1..], b);
      PixelsCons(a[0], a[1..] + b);
    }
  }

  lemma NoPixels()
    ensures Pixels([]) == []
  {
  }

  lemma PixelsGrow(bytes: seq<nat>, i: nat, end: nat)
    requires i < end <= |bytes|
    ensures Pixels(bytes[..i + 1]) == Pixels(bytes[..i]) + Expand(bytes[i])
    ensures |Pixels(bytes[..i + 1])| <= |Pixels(bytes[..end])|
  {
    hide Expand;
    assert bytes[..i + 1] == bytes[..i] + [bytes[i]];
    PixelsConcat(bytes[..i], [bytes[i]]);
    PixelsCons(bytes[i], []);
    assert [bytes[i]] + [] == [bytes[i]];
    assert bytes[..end] == bytes[..i + 1] + bytes[i + 1..end];
    PixelsConcat(bytes[..i + 1], bytes[i + 1..end]);
  }

  /** memset of one run. */
  method Fill(bits: array<bool>, rle: nat, data: nat)
    requires data < 256 && rle + data % 128 <= bits.Length
    modifies bits
    ensures bits[..] == old(bits[..rle]) + Expand(data) + old(bits[rle + data % 128..])
  {
    forall k | 0 <= k < data % 128 {
      bits[rle + k] := data >= 128;
    }
  }

  lemma BitmapGrows(before: Bitmap, now: Bitmap, next: Bitmap, p: Bitmap, e: Bitmap, rle: nat)
    requires |p| == rle && rle + |e| <= |before| && now == p + before[rle..]
    requires next == now[..rle] + e + now[rle + |e|..]
    ensures next == (p + e) + before[rle + |e|..]
  {
  }

  /** The decoding loop, up to the terminator `end`: the bitmap is filled from its start and the rest of
      it is left alone. */
  method InitFont(rundata: seq<nat>, ghost end: nat, bits: array<bool>)
    requires end < |rundata| && rundata[end] == 0
    requires forall i :: 0 <= i < end ==> 0 < rundata[i] < 256
    requires |Pixels(rundata[..end])| <= bits.Length
    modifies bits
    ensures var p := Pixels(rundata[..end]);
            bits[..] == p + old(bits[..])[|p|..]
  {
    hide Pixels, Expand;
    ghost var before := bits[..];
    var i, rle := 0, 0;
    assert rundata[..0] == [];
    NoPixels();
    while rundata[i] != 0
      invariant 0 <= i <= end && rle == |Pixels(rundata[..i])| <= bits.Length
      invariant bits[..] == Pixels(rundata[..i]) + before[rle..]
      decreases end - i
    {
      var data := rundata[i];
      PixelsGrow(rundata, i, end);
      ghost var now := bits[..];
      Fill(bits, rle, data);
      BitmapGrows(before, now, bits[..], Pixels(rundata[..i]), Expand(data), rle);
      rle := rle + data % 128;
      i := i + 1;
    }
  }

  /** The two programs together: what the encoder prints is proper input for the decoder, whose loop stops
      at the encoder's terminator and restores every pixel. */
  lemma FontRoundTrip(rgb: seq<bv8>, pixels: nat, bytes: seq<nat>)
    requires pixels > 0 && |rgb| >= 3 * pixels
    requires bytes == Encode(Read(rgb, 0, pixels)) + [0]
    ensures var end := |bytes| - 1;
            && bytes[end] == 0 && (forall i :: 0 <= i < end ==> 0 < bytes[i] < 256)
            && Pixels(bytes[..end]) == Read(rgb, 0, pixels)
  {
    hide Encode, Pixels, Read;
    RoundTrip(Read(rgb, 0, pixels));
    assert bytes[..|bytes| - 1] == Encode(Read(rgb, 0, pixels));
  }
}
