/** memcpy, memmove and memset of lib.c, on an array that stands for the memory both pointers point into. */
module MemoryFunctions {
  import opened Bytes

  /** Memory after n bytes from src have been moved to dst as if through a buffer. */
  function Moved(m: seq<Byte>, dst: nat, src: nat, n: nat): (r: seq<Byte>)
    requires dst + n <= |m| && src + n <= |m|
    ensures |r| == |m|
    ensures forall k | 0 <= k < |m| :: r[k] == if dst <= k < dst + n then m[src + (k - dst)] else m[k]
  {
    m[..dst] + m[src..src + n] + m[dst + n..]
  }

  /** Memory after bytes have been copied one by one, lowest address first. */
  function CopiedUp(m: seq<Byte>, dst: nat, src: nat, n: nat): (r: seq<Byte>)
    requires dst + n <= |m| && src + n <= |m|
    ensures |r| == |m|
    decreases n
  {
    if n == 0 then m else CopiedUp(m[dst := m[src]], dst + 1, src + 1, n - 1)
  }

  /** Does the destination begin inside the source, behind its first byte? */
  predicate OverlapsUp(dst: nat, src: nat, n: nat) {
    src < dst < src + n
  }

  /** memcpy where the destination lies above the source: from dst on, the result repeats what lies
      dst - src bytes before. */
  lemma {:induction false} CopiedUpRepeats(m: seq<Byte>, dst: nat, src: nat, n: nat, k: nat)
    requires dst + n <= |m| && src < dst && k < |m|
    ensures var r := CopiedUp(m, dst, src, n);
      r[k] == if dst <= k < dst + n then r[k - (dst - src)] else m[k]
    decreases n
  {
    if n > 0 {
      var m1 := m[dst := m[src]];
      CopiedUpRepeats(m1, dst + 1, src + 1, n - 1, k);
      CopiedUpRepeats(m1, dst + 1, src + 1, n - 1, src);
    }
  }

  /** Copying upward moves correctly unless the destination begins inside the source. */
  lemma {:induction false} CopiedUpMoves(m: seq<Byte>, dst: nat, src: nat, n: nat)
    requires dst + n <= |m| && src + n <= |m| && !OverlapsUp(dst, src, n)
    ensures CopiedUp(m, dst, src, n) == Moved(m, dst, src, n)
    decreases n
  {
    if n > 0 {
      CopiedUpMoves(m[dst := m[src]], dst + 1, src + 1, n - 1);
    }
  }

  /** Bytes [src, src + n) repeat themselves after d places. */
  predicate Repeats(m: seq<Byte>, src: nat, n: nat, d: nat)
    requires src + n <= |m| && d > 0
  {
    forall k | src + d <= k < src + n :: m[k] == m[k - d]
  }

  lemma {:induction false} RepeatedIsMoved(m: seq<Byte>, dst: nat, src: nat, n: nat, j: nat)
    requires dst + n <= |m| && OverlapsUp(dst, src, n) && Repeats(m, src, n, dst - src) && j < n
    ensures CopiedUp(m, dst, src, n)[dst + j] == m[src + j]
    decreases j
  {
    var d := dst - src;
    CopiedUpRepeats(m, dst, src, n, dst + j);
    if j < d {
      CopiedUpRepeats(m, dst, src, n, src + j);
    } else {
      RepeatedIsMoved(m, dst, src, n, j - d);
      assert m[src + j] == m[src + j - d];
    }
  }

  /** Exactly when memcpy does what memmove does: always, unless the destination begins inside the
      source, and then only for contents that repeat with the distance as their period. */
  lemma {:induction false} CopiedUpMovesExactly(m: seq<Byte>, dst: nat, src: nat, n: nat)
    requires dst + n <= |m| && src + n <= |m|
    ensures CopiedUp(m, dst, src, n) == Moved(m, dst, src, n) <==>
      !OverlapsUp(dst, src, n) || Repeats(m, src, n, dst - src)
  {
    if !OverlapsUp(dst, src, n) {
      CopiedUpMoves(m, dst, src, n);
    } else {
      OverlapMovesExactly(m, dst, src, n);
    }
  }

  lemma {:induction false} OverlapMovesExactly(m: seq<Byte>, dst: nat, src: nat, n: nat)
    requires dst + n <= |m| && OverlapsUp(dst, src, n)
    ensures CopiedUp(m, dst, src, n) == Moved(m, dst, src, n) <==> Repeats(m, src, n, dst - src)
  {
    if CopiedUp(m, dst, src, n) == Moved(m, dst, src, n) {
      MovedRepeats(m, dst, src, n);
    }
    if Repeats(m, src, n, dst - src) {
      RepeatsMoved(m, dst, src, n);
    }
  }

  lemma {:induction false} MovedRepeats(m: seq<Byte>, dst: nat, src: nat, n: nat)
    requires dst + n <= |m| && OverlapsUp(dst, src, n) && CopiedUp(m, dst, src, n) == Moved(m, dst, src, n)
    ensures Repeats(m, src, n, dst - src)
  {
    var moved, d := Moved(m, dst, src, n), dst - src;
    forall k | src + d <= k < src + n
      ensures m[k] == m[k - d]
    {
      CopiedUpRepeats(m, dst, src, n, k + d);
      assert moved[k + d] == m[src + (k + d - dst)] && moved[k] == m[src + (k - dst)];
    }
  }

  lemma {:induction false} RepeatsMoved(m: seq<Byte>, dst: nat, src: nat, n: nat)
    requires dst + n <= |m| && OverlapsUp(dst, src, n) && Repeats(m, src, n, dst - src)
    ensures CopiedUp(m, dst, src, n) == Moved(m, dst, src, n)
  {
    hide Repeats;
    forall k | 0 <= k < |m|
      ensures CopiedUp(m, dst, src, n)[k] == Moved(m, dst, src, n)[k]
    {
      if dst <= k < dst + n {
        RepeatedIsMoved(m, dst, src, n, k - dst);
      } else {
        CopiedUpRepeats(m, dst, src, n, k);
      }
    }
  }

  method Memcpy(mem: array<Byte>, dst: nat, src: nat, n: nat)
    requires dst + n <= mem.Length && src + n <= mem.Length
    modifies mem
    ensures mem[..] == CopiedUp(old(mem[..]), dst, src, n)
  {
    var d, s, left := dst, src, n;
    while left > 0
      invariant d + left == dst + n && s + left == src + n
      invariant CopiedUp(mem[..], d, s, left) == CopiedUp(old(mem[..]), dst, src, n)
    {
      mem[d] := mem[s];
      left, s, d := left - 1, s + 1, d + 1;
    }
  }

  /** memmove gets every overlap right: it copies downward exactly when copying upward would not do. */
  method Memmove(mem: array<Byte>, dst: nat, src: nat, n: nat)
    requires dst + n <= mem.Length && src + n <= mem.Length
    modifies mem
    ensures mem[..] == Moved(old(mem[..]), dst, src, n)
  {
    ghost var was := mem[..];
    if src < dst && src + n > dst {
      ghost var moved := Moved(was, dst, src, n);
      var s, d, left := src + n, dst + n, n;
      while left > 0
        invariant 0 <= left <= n && s == src + left && d == dst + left
        invariant forall k | 0 <= k < d :: mem[k] == was[k]
        invariant forall k | d <= k < mem.Length :: mem[k] == moved[k]
      {
        left, d, s := left - 1, d - 1, s - 1;
        mem[d] := mem[s];
      }
      assert mem[..] == moved;
    } else {
      CopiedUpMoves(was, dst, src, n);
      var s, d, left := src, dst, n;
      while left > 0
        invariant d + left == dst + n && s + left == src + n
        invariant CopiedUp(mem[..], d, s, left) == CopiedUp(was, dst, src, n)
      {
        mem[d] := mem[s];
        left, s, d := left - 1, s + 1, d + 1;
      }
    }
  }

  /** c is an int; what is stored is its low byte. */
  method Memset(mem: array<Byte>, v: nat, c: int, n: nat)
    requires v + n <= mem.Length
    modifies mem
    ensures mem[..] == old(mem[..v]) + seq(n, _ => c % 256) + old(mem[v + n..])
  {
    ghost var was := mem[..];
    var p, left := v, n;
    while left > 0
      invariant 0 <= left <= n && p + left == v + n
      invariant forall k | 0 <= k < mem.Length :: mem[k] == if v <= k < p then c % 256 else was[k]
    {
      mem[p] := c % 256;
      p, left := p + 1, left - 1;
    }
    assert mem[..] == was[..v] + seq(n, _ => c % 256) + was[v + n..];
  }
}
