/** Frames for the 5x5 WS2812 LED matrix: GRB colour words, the triangle icon, the word stream. */
module Matrix {
  import opened Types

  const MatrixWidth: nat := 5
  const MatrixHeight: nat := 5
  const MatrixSize: nat := MatrixWidth * MatrixHeight

  /**
   * `rgb_to_uint32`: green in bits 16..23, red in bits 8..15, blue in bits 0..7. The source
   * ORs shifted bytes; the three fields are disjoint, so the OR is the sum written here.
   */
  function RgbToGrb(r: u8, g: u8, b: u8): (w: u32)
    ensures w < 0x100_0000
  {
    g * 0x1_0000 + r * 0x100 + b
  }

  /** Each byte of a word: byte 0 is the least significant. */
  function ByteOf(w: u32, k: nat): (v: u8)
    requires k < 4
  {
    if k == 0 then w % 0x100 else ByteOf(w / 0x100, k - 1)
  }

  /** Green, red and blue are recoverable from bytes 2, 1 and 0 of the word; byte 3 is zero. */
  lemma RgbToGrbFields(r: u8, g: u8, b: u8)
    ensures ByteOf(RgbToGrb(r, g, b), 0) == b
    ensures ByteOf(RgbToGrb(r, g, b), 1) == r
    ensures ByteOf(RgbToGrb(r, g, b), 2) == g
    ensures ByteOf(RgbToGrb(r, g, b), 3) == 0
  {
    var w := RgbToGrb(r, g, b);
    assert w / 0x100 == g * 0x100 + r;
    assert w / 0x100 / 0x100 == g;
    assert ByteOf(w, 3) == ByteOf(w / 0x100, 2) == ByteOf(w / 0x100 / 0x100, 1);
    assert ByteOf(w, 2) == ByteOf(w / 0x100 / 0x100, 0);
  }

  /** Distinct colours give distinct words. */
  lemma RgbToGrbInjective(r: u8, g: u8, b: u8, r': u8, g': u8, b': u8)
    requires RgbToGrb(r, g, b) == RgbToGrb(r', g', b')
    ensures r == r' && g == g' && b == b'
  {
  }

  /** `c << 8u` on a 32-bit word: the top byte falls off and the low byte is zero. */
  function ShiftLeft8(c: u32): (w: u32)
    ensures w % 0x100 == 0
    ensures w / 0x100 == c % 0x100_0000
  {
    (c * 0x100) % 0x1_0000_0000
  }

  /** The words pushed to the matrix for a buffer of colours, in index order. */
  function Emit(colors: seq<u32>): (words: seq<u32>)
    ensures |words| == |colors|
    ensures forall i :: 0 <= i < |words| ==> words[i] % 0x100 == 0
    ensures forall i :: 0 <= i < |words| && colors[i] < 0x100_0000 ==> words[i] / 0x100 == colors[i]
  {
    seq(|colors|, i requires 0 <= i < |colors| => ShiftLeft8(colors[i]))
  }

  /** `update_matrix`: one word per entry of the first `size` colours, each shifted left by 8. */
  method UpdateMatrix(colors: array<u32>, size: int) returns (words: seq<u32>)
    requires size <= colors.Length
    ensures |words| == if size < 0 then 0 else size
    ensures forall i :: 0 <= i < |words| ==> words[i] == ShiftLeft8(colors[i])
  {
    words := [];
    var i := 0;
    while i < size
      invariant 0 <= i <= if size < 0 then 0 else size
      invariant |words| == i
      invariant forall k :: 0 <= k < i ==> words[k] == ShiftLeft8(colors[k])
    {
      words := words + [ShiftLeft8(colors[i])];
      i := i + 1;
    }
  }

  /** Indices of the matrix buffer lit by the triangle icon: 5..9, 11..13 and 17. */
  predicate IsTriangleCell(i: int) {
    5 <= i <= 9 || 11 <= i <= 13 || i == 17
  }

  /** Dim yellow, and off, as GRB words. */
  const Yellow: u32 := 0x0A0A00
  const Off: u32 := 0

  lemma IconColours()
    ensures RgbToGrb(10, 10, 0) == Yellow && RgbToGrb(0, 0, 0) == Off
  {
    assert 10 * 0x1_0000 + 10 * 0x100 + 0 == 0x0A0A00;
  }

  /** The buffer `draw_triangle` builds: yellow triangle cells on an unlit matrix. */
  function TriangleBuffer(on: bool): (buf: seq<u32>)
    ensures |buf| == MatrixSize
    ensures forall i :: 0 <= i < MatrixSize ==> buf[i] == 0x0A0A00 || buf[i] == 0
    ensures !on ==> forall i :: 0 <= i < MatrixSize ==> buf[i] == 0
  {
    seq(MatrixSize, i => if on && IsTriangleCell(i) then Yellow else Off)
  }

  /**
   * Row by row (index = 5 * row + column) the lit cells form a triangle pointing down: all five
   * columns of row 1, columns 1..3 of row 2, column 2 of row 3, nothing in rows 0 and 4.
   */
  predicate InInvertedTriangle(row: int, col: int) {
    1 <= row <= 3 && row - 1 <= col <= 5 - row
  }

  lemma TriangleIsInvertedTriangle(i: nat)
    requires i < MatrixSize
    ensures TriangleBuffer(true)[i] == 0x0A0A00 <==> InInvertedTriangle(i / MatrixWidth, i % MatrixWidth)
    ensures TriangleBuffer(true)[i] == 0 <==> !InInvertedTriangle(i / MatrixWidth, i % MatrixWidth)
  {
  }

  /**
   * `draw_triangle`: clear a 25-entry buffer, light the triangle's cells when `on`, and emit the
   * buffer. The two colours are the constants `rgb_to_uint32` yields (IconColours). The PIO
   * state machine is not modelled; the result is the word stream it receives.
   */
  method DrawTriangle(on: bool) returns (frame: seq<u32>)
    ensures frame == Emit(TriangleBuffer(on))
  {
    assert MatrixSize == 25;
    var yellow := Yellow;
    var off := Off;
    var matrixColors := new u32[MatrixSize];
    var i := 0;
    while i < MatrixSize
      invariant 0 <= i <= MatrixSize
      invariant forall k :: 0 <= k < i ==> matrixColors[k] == off
    {
      matrixColors[i] := off;
      i := i + 1;
    }
    if on {
      matrixColors[5] := yellow; matrixColors[6] := yellow; matrixColors[7] := yellow;
      matrixColors[8] := yellow; matrixColors[9] := yellow;
      matrixColors[11] := yellow; matrixColors[12] := yellow; matrixColors[13] := yellow;
      matrixColors[17] := yellow;
    }
    assert matrixColors[..] == TriangleBuffer(on);
    frame := UpdateMatrix(matrixColors, MatrixSize);
  }
}
