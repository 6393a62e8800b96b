/** 8XYn: the register-to-register instructions.

    Each case performs the source's assignments in the source's order and
    every later read sees the earlier writes, so the flag register VF is
    written after the sum in 8XY4 but before the operands are read again in
    8XY5, 8XY6, 8XY7 and 8XYE. The lemmas state what this computes,
    including the cases where X or Y is VF. */
module Arith {
  import opened Machine

  /** The low nibbles the 8XYn family knows. */
  predicate KnownAluOp(n: nat) {
    n <= 7 || n == 0xE
  }

  /** The register file after 8XYn, or None for an unknown n. The shifts
      of an unsigned byte, VX >> 1 and VX << 1, are written as halving and
      doubling; VX & 1 and VX >> 7 as the low and the high bit. */
  function Alu(V: seq<byte>, x: nat, y: nat, n: nat): (r: Option<seq<byte>>)
    requires |V| == RegisterCount && x < 16 && y < 16
    ensures r.Some? <==> KnownAluOp(n)
    ensures r.Some? ==> |r.value| == RegisterCount
    ensures r.Some? ==> forall j | 0 <= j < RegisterCount && j != x && j != VF :: r.value[j] == V[j]
    ensures r.Some? && n <= 3 && x != VF ==> r.value[VF] == V[VF]
  {
    if n == 0 then Some(V[x := V[y]])
    else if n == 1 then Some(V[x := BitOr(V[x], V[y])])
    else if n == 2 then Some(V[x := BitAnd(V[x], V[y])])
    else if n == 3 then Some(V[x := BitXor(V[x], V[y])])
    else if n == 4 then
      var sum := V[x := Wrap8(V[x] as int + V[y])];
      Some(sum[VF := if sum[y] > 0xFF - sum[x] then 1 else 0])
    else if n == 5 then
      var flagged := V[VF := if V[y] > V[x] then 0 else 1];
      Some(flagged[x := Wrap8(flagged[x] as int - flagged[y])])
    else if n == 6 then
      var flagged := V[VF := V[x] % 2];
      Some(flagged[x := flagged[x] / 2])
    else if n == 7 then
      var flagged := V[VF := if V[x] > V[y] then 0 else 1];
      Some(flagged[x := Wrap8(flagged[y] as int - flagged[x])])
    else if n == 0xE then
      var flagged := V[VF := V[x] / 128];
      Some(flagged[x := Wrap8(flagged[x] as int * 2)])
    else None
  }

  /** 8XY4 stores the sum mod 256, then sets VF by comparing VY with 255
      minus the NEW VX. VY is read again after the sum, so in 8XX4 it is the
      sum itself (VF is 1 exactly when the doubled VX is at least 128).
      Written that way the test is not the carry: with distinct operands a
      and b, VF is 1 exactly when a + 2b exceeds 255 (the sum did not wrap)
      or 511 (it wrapped). */
  lemma AddFlagFromUpdatedSum(V: seq<byte>, x: nat, y: nat)
    requires |V| == RegisterCount && x < VF && y < 16
    ensures var r := Alu(V, x, y, 4).value;
      var a: int, b: int := V[x], V[y];
      var sum := (a + b) % 256;
      var vy: int := if y == x then sum else b;
      && r[x] == sum
      && (r[VF] == 1 <==> vy > 255 - sum)
      && (r[VF] == 0 || r[VF] == 1)
      && (y == x ==> (r[VF] == 1 <==> sum >= 128))
      && (y != x ==> (r[VF] == 1 <==> if a + b < 256 then a + 2 * b > 255 else a + 2 * b > 511))
  {
  }

  lemma AddFlagIsNotCarry(V: seq<byte>)
    requires |V| == RegisterCount && V[1] == 100
    ensures V[0] == 100 ==> Alu(V, 0, 1, 4).value[0] == 200 && Alu(V, 0, 1, 4).value[VF] == 1
    ensures V[0] == 200 ==> Alu(V, 0, 1, 4).value[0] == 44 && Alu(V, 0, 1, 4).value[VF] == 0
  {
  }

  /** 8XY5: VF is 0 exactly on a borrow, and VX becomes VX - VY mod 256. */
  lemma SubBorrow(V: seq<byte>, x: nat, y: nat)
    requires |V| == RegisterCount && x < VF && y < VF
    ensures var r := Alu(V, x, y, 5).value;
      && r[x] == (V[x] as int - V[y]) % 256
      && r[x] == (if V[y] > V[x] then V[x] as int - V[y] + 256 else V[x] - V[y])
      && (r[VF] == 0 <==> V[y] > V[x])
      && (r[VF] == 1 <==> V[y] <= V[x])
  {
  }

  /** 8XY7: VF is 0 exactly on a borrow, and VX becomes VY - VX mod 256. */
  lemma ReverseSubBorrow(V: seq<byte>, x: nat, y: nat)
    requires |V| == RegisterCount && x < VF && y < VF
    ensures var r := Alu(V, x, y, 7).value;
      && r[x] == (V[y] as int - V[x]) % 256
      && r[x] == (if V[x] > V[y] then V[y] as int - V[x] + 256 else V[y] - V[x])
      && (r[VF] == 0 <==> V[x] > V[y])
      && (r[VF] == 1 <==> V[x] <= V[y])
  {
  }

  /** 8XY6 and 8XYE shift VX by one bit and leave the bit shifted out in VF:
      VF * 2 + VX' gives back VX after a right shift, VF * 256 + VX' gives
      back twice VX after a left shift. VY plays no part in either. */
  lemma Shifts(V: seq<byte>, x: nat, y: nat, y': nat)
    requires |V| == RegisterCount && x < VF && y < 16 && y' < 16
    ensures var r := Alu(V, x, y, 6).value;
      r[VF] <= 1 && r[x] as int * 2 + r[VF] == V[x]
    ensures var r := Alu(V, x, y, 0xE).value;
      r[VF] <= 1 && r[VF] as int * 256 + r[x] == V[x] as int * 2
    ensures Alu(V, x, y, 6) == Alu(V, x, y', 6) && Alu(V, x, y, 0xE) == Alu(V, x, y', 0xE)
  {
  }

  /** With VF as the destination the flag written first is overwritten:
      8FY4 leaves only the flag of the sum, 8FY5 the flag minus VY, 8FY7 VY
      minus the flag, 8FY6 always 0 and 8FYE twice the old top bit. */
  lemma FlagAsDestination(V: seq<byte>, y: nat)
    requires |V| == RegisterCount && y < VF
    ensures Alu(V, VF, y, 4).value[VF] == if V[y] > 255 - (V[VF] as int + V[y]) % 256 then 1 else 0
    ensures var flag: int := if V[y] > V[VF] then 0 else 1;
      Alu(V, VF, y, 5).value[VF] == (flag - V[y]) % 256
    ensures var flag: int := if V[VF] > V[y] then 0 else 1;
      Alu(V, VF, y, 7).value[VF] == (V[y] as int - flag) % 256
    ensures Alu(V, VF, y, 6).value[VF] == 0
    ensures Alu(V, VF, y, 0xE).value[VF] == 2 * (V[VF] as int / 128)
  {
  }

  /** With VF as the source operand of 8XY5 and 8XY7 the flag is written
      first and then read back in place of VY: 8XF5 leaves VX minus the
      flag and 8XF7 the flag minus VX; VF keeps the flag. */
  lemma FlagAsOperand(V: seq<byte>, x: nat)
    requires |V| == RegisterCount && x < VF
    ensures var flag: int := if V[VF] > V[x] then 0 else 1;
      var r := Alu(V, x, VF, 5).value;
      r[x] == (V[x] as int - flag) % 256 && r[VF] == flag
    ensures var flag: int := if V[x] > V[VF] then 0 else 1;
      var r := Alu(V, x, VF, 7).value;
      r[x] == (flag - V[x] as int) % 256 && r[VF] == flag
  {
  }
}
