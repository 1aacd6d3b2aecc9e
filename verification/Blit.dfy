/** Copying a packed 2-bit image into a packed 2-bit frame buffer, one destination word in a register. */
module Blit {
  import opened Arith

  /** The shift of pixel k of a 32-bit word, (15 - k) * 2: pixels go from the high bits to the low ones. */
  function Off(k: nat): bv32
    requires k < 16
  {
    match k
    case 0 => 30 case 1 => 28 case 2 => 26 case 3 => 24 case 4 => 22 case 5 => 20 case 6 => 18 case 7 => 16
    case 8 => 14 case 9 => 12 case 10 => 10 case 11 => 8 case 12 => 6 case 13 => 4 case 14 => 2 case _ => 0
  }

  /** The shift of pixel k of a byte, (3 - k) * 2. */
  function SrcOff(k: nat): bv32
    requires k < 4
  {
    match k
    case 0 => 6 case 1 => 4 case 2 => 2 case _ => 0
  }

  /** The two bits at shift p. */
  function At(w: bv32, p: bv32): bv32
    requires p < 32
  {
    (w >> p) & 3
  }

  function Pix(w: bv32, k: nat): bv32
    requires k < 16
  {
    At(w, Off(k))
  }

  function SrcPix(b: bv8, k: nat): bv32
    requires k < 4
  {
    At(b as bv32, SrcOff(k))
  }

  /** A byte moved so that its pixel at shift c comes to lie at shift o. */
  function Moved(s: bv32, o: bv32, c: bv32): bv32
    requires o < 32 && c < 32
  {
    if o >= c then s << (o - c) else s >> (c - o)
  }

  function And(a: bv32, b: bv32): bv32 { a & b }
  function Or(a: bv32, b: bv32): bv32 { a | b }
  function Not(a: bv32): bv32 { !a }

  function Mask(o: bv32): bv32
    requires o < 32
  {
    3 << o
  }

  /** pixel_word with the pixel at shift o taken from s. */
  function Replace(w: bv32, o: bv32, s: bv32): bv32
    requires o < 32
  {
    Or(And(w, Not(Mask(o))), And(s, Mask(o)))
  }

  lemma MovedPixel(s: bv32, o: bv32, c: bv32)
    requires s < 256 && o < 31 && c < 7 && o & 1 == 0 && c & 1 == 0
    ensures At(Moved(s, o, c), o) == At(s, c)
  {
  }

  lemma AtAnd(a: bv32, b: bv32, p: bv32)
    requires p < 31 && p & 1 == 0
    ensures At(And(a, b), p) == And(At(a, p), At(b, p))
  {
    if p == 0 { return; }
    if p == 2 { return; }
    if p == 4 { return; }
    if p == 6 { return; }
    if p == 8 { return; }
    if p == 10 { return; }
    if p == 12 { return; }
    if p == 14 { return; }
    if p == 16 { return; }
    if p == 18 { return; }
    if p == 20 { return; }
    if p == 22 { return; }
    if p == 24 { return; }
    if p == 26 { return; }
    if p == 28 { return; }
    if p == 30 { return; }
  }

  lemma AtOr(a: bv32, b: bv32, p: bv32)
    requires p < 31 && p & 1 == 0
    ensures At(Or(a, b), p) == Or(At(a, p), At(b, p))
  {
    if p == 0 { return; }
    if p == 2 { return; }
    if p == 4 { return; }
    if p == 6 { return; }
    if p == 8 { return; }
    if p == 10 { return; }
    if p == 12 { return; }
    if p == 14 { return; }
    if p == 16 { return; }
    if p == 18 { return; }
    if p == 20 { return; }
    if p == 22 { return; }
    if p == 24 { return; }
    if p == 26 { return; }
    if p == 28 { return; }
    if p == 30 { return; }
  }

  lemma MaskAt(o: bv32, p: bv32)
    requires o < 31 && p < 31 && o & 1 == 0 && p & 1 == 0
    ensures At(Mask(o), p) == if o == p then 3 else 0
    ensures At(Not(Mask(o)), p) == if o == p then 0 else 3
  {
  }

  lemma Units(w: bv32, p: bv32, z: bv32)
    requires p < 32
    ensures And(At(w, p), 3) == At(w, p) && And(z, 0) == 0 && Or(z, 0) == z && Or(0, z) == z
  {
  }

  lemma Replaced(w: bv32, o: bv32, s: bv32, p: bv32)
    requires o < 31 && p < 31 && o & 1 == 0 && p & 1 == 0
    ensures At(Replace(w, o, s), p) == if o == p then At(s, p) else At(w, p)
  {
    hide At, And, Or, Not, Mask;
    var m := Mask(o);
    AtOr(And(w, Not(m)), And(s, m), p);
    AtAnd(w, Not(m), p);
    AtAnd(s, m, p);
    MaskAt(o, p);
    Units(w, p, At(w, p));
    Units(s, p, At(s, p));
  }

  /** The register with pixel k replaced by pixel c of the byte, as the inner loop does it. */
  function Merge(w: bv32, k: nat, b: bv8, c: nat): bv32
    requires k < 16 && c < 4
  {
    Replace(w, Off(k), Moved(b as bv32, Off(k), SrcOff(c)))
  }

  lemma MergeIs(w: bv32, k: nat, b: bv8, c: nat, j: nat)
    requires k < 16 && c < 4 && j < 16
    ensures Pix(Merge(w, k, b, c), j) == if j == k then SrcPix(b, c) else Pix(w, j)
  {
    hide Moved, Replace, At;
    Offsets(k, c, j);
    Small(b);
    MovedPixel(b as bv32, Off(k), SrcOff(c));
    Replaced(w, Off(k), Moved(b as bv32, Off(k), SrcOff(c)), Off(j));
  }

  lemma Small(b: bv8)
    ensures (b as bv32) < 256
  {
  }

  lemma Offsets(k: nat, c: nat, j: nat)
    requires k < 16 && c < 4 && j < 16
    ensures Off(k) < 31 && Off(k) & 1 == 0 && Off(j) < 31 && Off(j) & 1 == 0 && SrcOff(c) < 7 && SrcOff(c) & 1 == 0
    ensures Off(k) == Off(j) <==> k == j
    ensures Off(k) as int == (15 - k) * 2 && SrcOff(c) as int == (3 - c) * 2
  {
  }

  // ---------------------------------------------------------------- images

  /** Pixel p of a frame buffer, counted row by row from the top left. */
  function DstPix(words: seq<bv32>, p: nat): bv32
    requires p < 16 * |words|
  {
    Pix(words[p / 16], p % 16)
  }

  /** Pixel (col, row) of an image whose rows are stride bytes long. */
  function SrcAt(src: seq<bv8>, stride: nat, col: nat, row: nat): bv32
    requires col / 4 < stride && row * stride + col / 4 < |src|
  {
    SrcPix(src[row * stride + col / 4], col % 4)
  }

  /** An image to be placed with its corner at (x, y) in a frame of w by h pixels. */
  datatype Job = Job(src: seq<bv8>, x: int, y: int, width: nat, height: nat, w: nat, h: nat) {

    predicate Valid() {
      width % 4 == 0 && width / 4 * height <= |src|
    }

    /** Pixel p of the frame lies under the image. */
    predicate Covers(p: nat)
      requires Valid()
    {
      0 < w && p < w * h && 0 <= p % w - x < width && 0 <= p / w - y < height
    }

    function Source(p: nat): bv32
      requires Valid() && Covers(p)
    {
      RowIn(width / 4, height, |src|, p / w - y, (p % w - x) / 4);
      SrcAt(src, width / 4, p % w - x, p / w - y)
    }

    /** The naive copy: pixel p of the frame afterwards. */
    function Copied(frame: seq<bv32>, p: nat): bv32
      requires Valid() && p < 16 * |frame|
    {
      if Covers(p) then Source(p) else DstPix(frame, p)
    }

    /** What the loops have done when the next pixel is (col, row) of the image: the rows above, and of this row
        what is left of it. */
    predicate Passed(p: nat, row: int, col: int)
      requires Valid()
    {
      Covers(p) && (p / w - y < row || (p / w - y == row && p % w - x < col))
    }
  }

  lemma RowIn(stride: nat, height: nat, size: nat, row: nat, col: nat)
    requires stride * height <= size && row < height && col < stride
    ensures row * stride + col < size
  {
    MulLess(row, height, stride);
    assert height * stride == stride * height;
  }

  /** The word register in place of the word it stands for. */
  function Shown(words: seq<bv32>, at: int, word: bv32): (r: seq<bv32>)
    ensures |r| == |words|
  {
    if 0 <= at < |words| then words[at := word] else words
  }

  ghost predicate Progress(job: Job, was: seq<bv32>, now: seq<bv32>, row: int, col: int)
    requires job.Valid()
  {
    |was| == |now|
    && forall p :: 0 <= p < 16 * |was| ==> DstPix(now, p) == HalfCopied(job, was, p, row, col)
  }

  function HalfCopied(job: Job, was: seq<bv32>, p: nat, row: int, col: int): bv32
    requires job.Valid() && p < 16 * |was|
  {
    if job.Passed(p, row, col) then job.Source(p) else DstPix(was, p)
  }

  /** The frame pixel that image pixel (col, row) lands on. */
  lemma Target(job: Job, row: int, col: int) returns (p: nat)
    requires job.Valid() && 0 <= col < job.width && 0 <= row < job.height
    requires 0 <= job.x + col < job.w && 0 <= job.y + row < job.h
    ensures p == (job.y + row) * job.w + job.x + col && job.Covers(p)
    ensures p / job.w == job.y + row && p % job.w == job.x + col
  {
    var q: nat, r: nat := job.y + row, job.x + col;
    assert q * job.w >= 0;
    p := q * job.w + r;
    DivUnique(p, job.w, q, r);
    MulLess(q, job.h, job.w);
    assert job.h * job.w == job.w * job.h;
  }

  lemma NextCopied(job: Job, was: seq<bv32>, row: int, col: int, q: nat, p: nat)
    requires job.Valid() && 0 <= row && 0 <= col && 0 <= job.x + col && 0 <= job.y + row
    requires job.Covers(p) && p / job.w == job.y + row && p % job.w == job.x + col && q < 16 * |was|
    ensures HalfCopied(job, was, q, row, col + 1) == if q == p then job.Source(p) else HalfCopied(job, was, q, row, col)
  {
    hide SrcAt, DstPix;
    DivBack(q, job.w);
    DivBack(p, job.w);
  }

  lemma MergedPixel(now: seq<bv32>, p: nat, b: bv8, c: nat, q: nat)
    requires p < 16 * |now| && q < 16 * |now| && c < 4
    ensures DstPix(now[p / 16 := Merge(now[p / 16], p % 16, b, c)], q)
         == if q == p then SrcPix(b, c) else DstPix(now, q)
  {
    hide Merge, Pix, SrcPix;
    if q / 16 == p / 16 {
      MergeIs(now[p / 16], p % 16, b, c, q % 16);
    }
  }

  /** Replacing one pixel in the register is one step of the naive copy. */
  lemma OnePixel(job: Job, was: seq<bv32>, now: seq<bv32>, row: int, col: int, p: nat)
    requires job.Valid() && Progress(job, was, now, row, col)
    requires 0 <= col < job.width && 0 <= row < job.height
    requires 0 <= job.x + col < job.w && 0 <= job.y + row < job.h
    requires p == (job.y + row) * job.w + job.x + col && p < 16 * |now|
    requires row * (job.width / 4) + col / 4 < |job.src|
    ensures var b := job.src[row * (job.width / 4) + col / 4];
            Progress(job, was, now[p / 16 := Merge(now[p / 16], p % 16, b, col % 4)], row, col + 1)
  {
    hide Merge, DstPix, SrcPix, HalfCopied;
    var t := Target(job, row, col);
    var b := job.src[row * (job.width / 4) + col / 4];
    var now' := now[p / 16 := Merge(now[p / 16], p % 16, b, col % 4)];
    assert job.Source(p) == SrcPix(b, col % 4);
    forall q | 0 <= q < 16 * |now| ensures DstPix(now', q) == HalfCopied(job, was, q, row, col + 1) {
      MergedPixel(now, p, b, col % 4, q);
      NextCopied(job, was, row, col, q, p);
    }
  }

  // ---------------------------------------------------------------- cga_bitblit

  /** Rows and columns of the image that fall into the frame: from top and left, up to bottom and right. */
  predicate Clip(job: Job, top: int, bottom: int, left: int, right: int) {
    && 0 <= top <= bottom <= job.height && 0 <= left <= right <= job.width
    && (top == 0 || top == -job.y) && (bottom == job.height || bottom == job.h - job.y)
    && (left == 0 || left == -job.x) && (right == job.width || right == job.w - job.x)
    && 0 <= job.y + top && job.y + bottom <= job.h && 0 <= job.x + left && job.x + right <= job.w
  }

  lemma ClipAll(job: Job, q: nat, top: int, bottom: int, left: int, right: int)
    requires job.Valid() && Clip(job, top, bottom, left, right) && job.Covers(q)
    ensures top <= q / job.w - job.y < bottom && left <= q % job.w - job.x < right
  {
    hide Clip;
    CoveredPlace(job, q);
    ClipRow(job, q / job.w, top, bottom, left, right);
    ClipCol(job, q % job.w, top, bottom, left, right);
  }

  lemma CoveredPlace(job: Job, q: nat)
    requires job.Valid() && job.Covers(q)
    ensures 0 < job.w && 0 <= q / job.w < job.h && 0 <= q % job.w < job.w
    ensures 0 <= q / job.w - job.y < job.height && 0 <= q % job.w - job.x < job.width
  {
    InFrame(q, job.w, job.h);
  }

  lemma InFrame(q: nat, w: nat, h: nat)
    requires 0 < w && q < w * h
    ensures q / w < h && q % w < w
  {
    assert h * w == w * h;
    DivBelow(q, w, h);
  }

  lemma ClipRow(job: Job, r: nat, top: int, bottom: int, left: int, right: int)
    requires Clip(job, top, bottom, left, right) && r < job.h && 0 <= r - job.y < job.height
    ensures top <= r - job.y < bottom
  {
  }

  lemma ClipCol(job: Job, c: nat, top: int, bottom: int, left: int, right: int)
    requires Clip(job, top, bottom, left, right) && c < job.w && 0 <= c - job.x < job.width
    ensures left <= c - job.x < right
  {
  }

  lemma Started(job: Job, was: seq<bv32>, top: int, bottom: int, left: int, right: int)
    requires job.Valid() && Clip(job, top, bottom, left, right)
    ensures Progress(job, was, was, top, left)
  {
    hide DstPix, Job.Source, Job.Covers;
    forall q | 0 <= q < 16 * |was| ensures DstPix(was, q) == HalfCopied(job, was, q, top, left) {
      if job.Covers(q) { ClipAll(job, q, top, bottom, left, right); }
    }
  }

  lemma NextRow(job: Job, was: seq<bv32>, now: seq<bv32>, row: int, top: int, bottom: int, left: int, right: int)
    requires job.Valid() && Clip(job, top, bottom, left, right) && Progress(job, was, now, row, right)
    ensures Progress(job, was, now, row + 1, left)
  {
    hide DstPix, Job.Source, Job.Covers;
    forall q | 0 <= q < 16 * |was| ensures DstPix(now, q) == HalfCopied(job, was, q, row + 1, left) {
      if job.Covers(q) { ClipAll(job, q, top, bottom, left, right); }
      assert DstPix(now, q) == HalfCopied(job, was, q, row, right);
    }
  }

  lemma Finished(job: Job, was: seq<bv32>, now: seq<bv32>, top: int, bottom: int, left: int, right: int)
    requires job.Valid() && Clip(job, top, bottom, left, right) && Progress(job, was, now, bottom, left)
    ensures IsCopy(job, was, now)
  {
    hide DstPix, Job.Source, Job.Covers;
    forall q | 0 <= q < 16 * |was| ensures DstPix(now, q) == job.Copied(was, q) {
      if job.Covers(q) { ClipAll(job, q, top, bottom, left, right); }
      assert DstPix(now, q) == HalfCopied(job, was, q, bottom, left);
    }
  }

  /** now is the frame was after the naive copy: every pixel under the image takes the image's pixel, no other one
      changes. */
  ghost predicate IsCopy(job: Job, was: seq<bv32>, now: seq<bv32>)
    requires job.Valid()
  {
    |now| == |was| && forall p :: 0 <= p < 16 * |was| ==> DstPix(now, p) == job.Copied(was, p)
  }

  predicate OutsideFrame(job: Job) {
    job.y >= job.h || job.y + job.height <= 0 || job.x >= job.w || job.x + job.width <= 0
  }

  lemma NotCovered(job: Job, q: nat)
    requires job.Valid() && OutsideFrame(job)
    ensures !job.Covers(q)
  {
    if job.Covers(q) { CoveredPlace(job, q); }
  }

  lemma Outside(job: Job, was: seq<bv32>)
    requires job.Valid() && OutsideFrame(job)
    ensures IsCopy(job, was, was)
  {
    hide DstPix, Job.Source, Job.Covers;
    forall q | 0 <= q < 16 * |was| ensures DstPix(was, q) == job.Copied(was, q) {
      NotCovered(job, q);
    }
  }

  /** Nothing to place, or nowhere to place it. */
  predicate NoPixels(job: Job) {
    job.width == 0 || job.height == 0 || job.w == 0 || job.h == 0
  }

  /** Where row row of the image starts in the image's bytes, and where its column 0 comes to lie in the frame. */
  function RowBase(job: Job, row: int): int { row * (job.width / 4) }
  function RowIndex(job: Job, row: int): int { (job.y + row) * job.w + job.x }

  lemma RowStep(job: Job, row: int)
    ensures RowBase(job, row + 1) == RowBase(job, row) + job.width / 4
    ensures RowIndex(job, row + 1) == RowIndex(job, row) + job.w
  {
    NextMultiple(row, job.width / 4);
    NextMultiple(job.y + row, job.w);
  }

  lemma ShownIs(words: seq<bv32>, at: int, w: bv32)
    requires 0 <= at < |words|
    ensures Shown(words, at, w) == words[at := w]
  {
  }

  lemma NothingShown(words: seq<bv32>)
    ensures forall w :: Shown(words, -1, w) == words
  {
  }

  /** The inner loop: columns left to right of one row, through the register. */
  method BlitRow(job: Job, dst: array<bv32>, ghost was: seq<bv32>, prev0: int, word0: bv32, base: nat, idx0: int,
                 ghost row: int, ghost top: int, ghost bottom: int, left: nat, right: nat)
    returns (prev: int, word: bv32)
    requires job.Valid() && Clip(job, top, bottom, left, right) && top <= row < bottom
    requires job.w * job.h <= 16 * dst.Length && |was| == dst.Length
    requires base == RowBase(job, row) && idx0 == RowIndex(job, row)
    requires -1 <= prev0 < dst.Length && Progress(job, was, Shown(dst[..], prev0, word0), row, left)
    modifies dst
    ensures -1 <= prev < dst.Length && (prev == -1 <==> prev0 == -1 && left == right)
    ensures prev == -1 ==> dst[..] == old(dst[..])
    ensures Progress(job, was, Shown(dst[..], prev, word), row, right)
  {
    hide Progress, Merge;
    prev, word := prev0, word0;
    for col := left to right
      invariant -1 <= prev < dst.Length && (prev == -1 <==> prev0 == -1 && col == left)
      invariant prev == -1 ==> dst[..] == old(dst[..])
      invariant Progress(job, was, Shown(dst[..], prev, word), row, col)
    {
      ghost var p := Target(job, row, col);
      RowIn(job.width / 4, job.height, |job.src|, row, col / 4);
      ghost var now := Shown(dst[..], prev, word);
      var idx := idx0 + col;
      if idx / 16 != prev {
        if prev != -1 {
          dst[prev] := word;
        }
        word := dst[idx / 16];
      }
      assert Shown(dst[..], idx / 16, word) == now;
      OnePixel(job, was, now, row, col, p);
      word := Merge(word, idx % 16, job.src[base + col / 4], col % 4);
      prev := idx / 16;
      assert Shown(dst[..], prev, word) == now[p / 16 := Merge(now[p / 16], p % 16, job.src[base + col / 4], col % 4)];
    }
  }

  /** The outer loop, over the rows of the image from top on, and the last flush of the register. wild: there was not
      one pixel, and the flush goes to an uninitialised place; the model stops before it. */
  method BlitRows(job: Job, dst: array<bv32>, base0: nat, idx00: int, rows: nat, left: nat, right: nat, ghost top: int)
    returns (wild: bool)
    requires job.Valid() && Clip(job, top, top + rows, left, right)
    requires job.w * job.h <= 16 * dst.Length
    requires base0 == RowBase(job, top) && idx00 == RowIndex(job, top)
    modifies dst
    ensures wild <==> rows == 0 || left == right
    ensures if wild then dst[..] == old(dst[..]) else IsCopy(job, old(dst[..]), dst[..])
  {
    hide Progress, IsCopy, Clip, Job.Valid, RowBase, RowIndex, Shown;
    NothingShown(dst[..]);
    ghost var was, bottom := dst[..], top + rows;
    Started(job, was, top, bottom, left, right);
    var base, idx0 := base0, idx00;
    var prev, word := -1, *;
    for row := 0 to rows
      invariant -1 <= prev < dst.Length && (prev == -1 <==> row == 0 || left == right)
      invariant prev == -1 ==> dst[..] == was
      invariant 0 <= base == RowBase(job, top + row) && idx0 == RowIndex(job, top + row)
      invariant Progress(job, was, Shown(dst[..], prev, word), top + row, left)
    {
      prev, word := BlitRow(job, dst, was, prev, word, base, idx0, top + row, top, bottom, left, right);
      NextRow(job, was, Shown(dst[..], prev, word), top + row, top, bottom, left, right);
      RowStep(job, top + row);
      base := base + job.width / 4;
      idx0 := idx0 + job.w;
    }
    Finished(job, was, Shown(dst[..], prev, word), top, bottom, left, right);
    if prev == -1 {
      return true;
    }
    ShownIs(dst[..], prev, word);
    dst[prev] := word;
    wild := false;
  }

  /** cga_bitblit. It does what it should, except for an image without pixels, or a frame without any, that passes the
      tests for lying outside. */
  method Bitblit(job: Job, dst: array<bv32>) returns (wild: bool)
    requires job.Valid() && job.w * job.h <= 16 * dst.Length
    modifies dst
    ensures wild <==> NoPixels(job) && !OutsideFrame(job)
    ensures if wild then dst[..] == old(dst[..]) else IsCopy(job, old(dst[..]), dst[..])
  {
    hide Progress, IsCopy, Job.Valid;
    var base, y, rows := 0, job.y, job.height as int;
    var stride := job.width / 4;
    if y >= job.h || y + rows <= 0 {
      Outside(job, dst[..]);
      return false;
    }
    if y < 0 {
      base := -y * stride;
      rows := rows + y;
      y := 0;
    }
    if y + rows > job.h {
      rows := job.h - y;
    }
    if job.x >= job.w || job.x + job.width <= 0 {
      Outside(job, dst[..]);
      return false;
    }
    var left := if job.x < 0 then -job.x else 0;
    var right := if job.x + job.width > job.w then job.w - job.x else job.width;
    wild := BlitRows(job, dst, base, y * job.w + job.x, rows, left, right, y - job.y);
  }
}
