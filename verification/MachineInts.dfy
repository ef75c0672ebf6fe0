/** Machine integers: the values that Go's int32, int64 and uint64 arithmetic keeps. */
module MachineInts {
  const TWO_32 := 0x1_0000_0000
  const TWO_62 := 0x4000_0000_0000_0000
  const TWO_63 := 0x8000_0000_0000_0000
  const TWO_64 := 0x1_0000_0000_0000_0000

  /** Two's complement of 32 and 64 bits. */
  function Wrap32(n: int): int {
    (n + 0x8000_0000) % 0x1_0000_0000 - 0x8000_0000
  }

  function Wrap64(n: int): int {
    (n + 0x8000_0000_0000_0000) % 0x1_0000_0000_0000_0000 - 0x8000_0000_0000_0000
  }

  lemma Wrap64Is(n: int)
    ensures var m := n % TWO_64; Wrap64(n) == if m >= TWO_63 then m - TWO_64 else m
  {
    WholeTurns64(n % TWO_64 + TWO_63, n / TWO_64);
  }

  lemma WrapsAdd(a: int, b: int)
    ensures Wrap32(Wrap32(a) + b) == Wrap32(a + b)
    ensures Wrap64(Wrap64(a) + b) == Wrap64(a + b)
  {
    var x, y := a + 0x8000_0000, a + 0x8000_0000_0000_0000;
    WholeTurns32(x % 0x1_0000_0000 + b, x / 0x1_0000_0000);
    WholeTurns64(y % 0x1_0000_0000_0000_0000 + b, y / 0x1_0000_0000_0000_0000);
  }

  lemma {:induction false} WholeTurns32(n: int, turns: int)
    ensures (n + 0x1_0000_0000 * turns) % 0x1_0000_0000 == n % 0x1_0000_0000
    decreases if turns < 0 then -turns else turns
  {
    if turns != 0 {
      WholeTurns32(n, if turns < 0 then turns + 1 else turns - 1);
    }
  }

  lemma {:induction false} WholeTurns64(n: int, turns: int)
    ensures (n + 0x1_0000_0000_0000_0000 * turns) % 0x1_0000_0000_0000_0000 == n % 0x1_0000_0000_0000_0000
    decreases if turns < 0 then -turns else turns
  {
    if turns != 0 {
      WholeTurns64(n, if turns < 0 then turns + 1 else turns - 1);
    }
  }
}
