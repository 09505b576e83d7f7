/** Translation of a dual-motor rumble effect into the two motor bytes of the
    controller's six-value status report (xiaomiff_play, without its side effects). */
module Rumble {

  /** Length of the controller's status report field (XIOAMIFF_MSG_LENGTH). */
  const MsgLength: nat := 6

  /** Largest value of a signed 32-bit C `int`. */
  const IntMax: int := 0x7fff_ffff

  /** An unsigned 16-bit magnitude, as carried by `struct ff_rumble_effect`. */
  type U16 = x: int | 0 <= x < 0x1_0000

  /** The rumble part of a force-feedback effect. */
  datatype RumbleEffect = RumbleEffect(strongMagnitude: U16, weakMagnitude: U16)

  /** The motor byte for a 16-bit magnitude: `m * 0xff / 0xffff` in C `int`
      arithmetic. Both operands are non-negative, so C's truncating division
      agrees with Dafny's. The result is the integer part of m * 255 / 65535. */
  function Scale(m: U16): (b: int)
    ensures 0 <= b <= 0xff
    ensures b * 0xffff <= m * 0xff < (b + 1) * 0xffff
  {
    m * 0xff / 0xffff
  }

  /** The intermediate product `m * 0xff` never leaves the range of a 32-bit `int`. */
  lemma ScaleProductFitsInt(m: U16)
    ensures 0 <= m * 0xff <= 0xffff * 0xff <= IntMax
  {
  }

  /** The edge values: off stays off, full stays full, half is truncated down. */
  lemma ScaleEdges()
    ensures Scale(0) == 0
    ensures Scale(0xffff) == 0xff
    ensures Scale(0x8000) == 127
  {
  }

  /** An independent definition: since 0xffff == 0xff * 257, scaling is
      division by 257. */
  lemma ScaleIsDivisionBy257(m: U16)
    ensures Scale(m) == m / 257
  {
  }

  /** Scale(m) is the only byte that brackets m * 255 between consecutive
      multiples of 65535. */
  lemma ScaleUnique(m: U16, b: int)
    requires b * 0xffff <= m * 0xff < (b + 1) * 0xffff
    ensures Scale(m) == b
  {
  }

  /** Scaling never decreases: a stronger magnitude never gives a weaker byte. */
  lemma ScaleMonotone(m1: U16, m2: U16)
    requires m1 <= m2
    ensures Scale(m1) <= Scale(m2)
  {
  }

  /** Every byte is reached: the magnitude b * 257 scales back to exactly b. */
  lemma ScaleReachesEveryByte(b: int)
    requires 0 <= b <= 0xff
    ensures 0 <= b * 257 < 0x1_0000
    ensures Scale(b * 257) == b
  {
    ScaleIsDivisionBy257(b * 257);
  }

  /** The six-value buffer after xiaomiff_play's two writes: the weak motor
      byte goes to value[0] and the strong one to value[1]. */
  function Staged(buffer: seq<int>, e: RumbleEffect): (r: seq<int>)
    requires |buffer| == MsgLength
    ensures |r| == MsgLength
    ensures r[0] == Scale(e.weakMagnitude) && r[1] == Scale(e.strongMagnitude)
    ensures forall i :: 2 <= i < MsgLength ==> r[i] == buffer[i]
  {
    buffer[0 := Scale(e.weakMagnitude)][1 := Scale(e.strongMagnitude)]
  }

  /** Last write wins: staging twice keeps only the second effect's bytes. */
  lemma StagedOverwrites(buffer: seq<int>, e1: RumbleEffect, e2: RumbleEffect)
    requires |buffer| == MsgLength
    ensures Staged(Staged(buffer, e1), e2) == Staged(buffer, e2)
  {
  }

  /** Every value of the buffer is a byte. */
  predicate AllBytes(s: seq<int>)
  {
    forall i :: 0 <= i < |s| ==> 0 <= s[i] <= 0xff
  }

  /** Staging keeps a buffer of bytes a buffer of bytes. */
  lemma StagedKeepsBytes(buffer: seq<int>, e: RumbleEffect)
    requires |buffer| == MsgLength && AllBytes(buffer)
    ensures AllBytes(Staged(buffer, e))
  {
  }
}
