/** Lengths in network order, written and read through the memory of a host that keeps the lowest byte first. */
module WebSocketNumbers {
  import opened Basics
  import opened WebSocketFrames

  function Reverse(s: seq<byte>): (r: seq<byte>)
    ensures |r| == |s|
  {
    if s == [] then [] else Reverse(s[1..]) + [s[0]]
  }

  lemma {:induction false} MemoryIsReversed(n: nat, k: nat)
    ensures Reverse(Memory(n, k)) == BigEndian(n, k)
    decreases k
  {
    if k > 0 {
      MemoryIsReversed(n / 256, k - 1);
      assert Memory(n, k)[1..] == Memory(n / 256, k - 1);
    }
  }

  lemma {:induction false} FromBigIsReversed(s: seq<byte>)
    ensures FromBig(s) == FromMemory(Reverse(s))
    decreases |s|
  {
    if s != [] {
      var init, last := s[..|s| - 1], s[|s| - 1];
      FromBigIsReversed(init);
      ReverseLast(init, last);
      assert s == init + [last];
      assert Reverse(s)[1..] == Reverse(init);
    }
  }

  lemma {:induction false} ReverseLast(s: seq<byte>, x: byte)
    ensures Reverse(s + [x]) == [x] + Reverse(s)
    decreases |s|
  {
    if s != [] {
      ReverseLast(s[1..], x);
      assert (s + [x])[1..] == s[1..] + [x];
    }
  }

  /** Storing a number that has been swapped puts its highest byte first. */
  lemma StoredSwapped(n: nat, k: nat)
    ensures Memory(Swapped(n, k), k) == BigEndian(n, k) && Swapped(n, k) < Pow256(k)
  {
    FromBigIsReversed(Memory(n, k));
    MemoryBack(Reverse(Memory(n, k)));
    MemoryIsReversed(n, k);
  }

  /** Swapping a number that was read gives what its bytes say, the highest first. */
  lemma ReadSwapped(s: seq<byte>)
    ensures Swapped(FromMemory(s), |s|) == FromBig(s)
  {
    MemoryBack(s);
  }

  lemma {:induction false} MemorySplit(low: nat, high: nat, k: nat, j: nat)
    requires low < Pow256(k)
    ensures Memory(low + Pow256(k) * high, k + j) == Memory(low, k) + Memory(high, j)
    decreases k
  {
    if k > 0 {
      var p := Pow256(k - 1);
      assert low + Pow256(k) * high == low % 256 + 256 * (low / 256 + p * high);
      LowByte(low % 256, low / 256 + p * high);
      MemorySplit(low / 256, high, k - 1, j);
    }
  }

  lemma {:induction false} BigEndianSplit(low: nat, high: nat, k: nat, j: nat)
    requires low < Pow256(k)
    ensures BigEndian(low + Pow256(k) * high, j + k) == BigEndian(high, j) + BigEndian(low, k)
    decreases k
  {
    if k > 0 {
      var p := Pow256(k - 1);
      assert low + Pow256(k) * high == low % 256 + 256 * (low / 256 + p * high);
      LowByte(low % 256, low / 256 + p * high);
      BigEndianSplit(low / 256, high, k - 1, j);
    }
  }

  lemma {:induction false} FromMemorySplit(s: seq<byte>, t: seq<byte>)
    ensures FromMemory(s + t) == FromMemory(s) + Pow256(|s|) * FromMemory(t)
    decreases |s|
  {
    if s == [] {
      assert s + t == t;
    } else {
      FromMemorySplit(s[1..], t);
      assert (s + t)[1..] == s[1..] + t;
      Distribute(FromMemory(s[1..]), Pow256(|s| - 1), FromMemory(t));
    }
  }

  lemma Distribute(a: nat, p: nat, b: nat)
    ensures 256 * (a + p * b) == 256 * a + 256 * p * b
  {
  }

  lemma {:induction false} FromBigSplit(s: seq<byte>, t: seq<byte>)
    ensures FromBig(s + t) == FromBig(s) * Pow256(|t|) + FromBig(t)
    decreases |t|
  {
    if t == [] {
      assert s + t == s;
    } else {
      var init := t[..|t| - 1];
      FromBigSplit(s, init);
      assert (s + t)[..|s + t| - 1] == s + init;
      assert FromBig(s) * Pow256(|init|) * 256 == FromBig(s) * Pow256(|t|);
    }
  }

  const WORD := 0x1_0000_0000

  /** The two halves of a 64-bit number, each swapped and put in the other's place. */
  function Swapped64(n: nat): nat {
    Swapped(n % WORD, 4) * WORD + Swapped(n / WORD, 4)
  }

  lemma Stored64(n: nat)
    requires n < WORD * WORD
    ensures Memory(Swapped64(n), 8) == BigEndian(n, 8)
  {
    StoredHalves(n % WORD, n / WORD);
    assert n == n % WORD + WORD * (n / WORD);
  }

  lemma StoredHalves(low: nat, high: nat)
    requires low < WORD
    ensures Memory(Swapped(low, 4) * WORD + Swapped(high, 4), 8) == BigEndian(low + WORD * high, 8)
  {
    WordPower();
    StoredSwapped(low, 4);
    StoredSwapped(high, 4);
    SplitInHalves(Swapped(high, 4), Swapped(low, 4));
    BothHalves(low, high);
  }

  lemma WordPower()
    ensures Pow256(4) == WORD
  {
  }

  lemma SplitInHalves(low: nat, high: nat)
    requires low < WORD
    ensures Memory(high * WORD + low, 8) == Memory(low, 4) + Memory(high, 4)
  {
    WordPower();
    MemorySplit(low, high, 4, 4);
  }

  lemma BothHalves(low: nat, high: nat)
    requires low < WORD
    ensures BigEndian(low + WORD * high, 8) == BigEndian(high, 4) + BigEndian(low, 4)
  {
    WordPower();
    BigEndianSplit(low, high, 4, 4);
  }

  lemma Read64(s: seq<byte>)
    requires |s| == 8
    ensures Swapped64(FromMemory(s)) == FromBig(s)
  {
    WordPower();
    assert s == s[..4] + s[4..];
    FromMemorySplit(s[..4], s[4..]);
    FromBigSplit(s[..4], s[4..]);
    MemoryBack(s[..4]);
    ReadSwapped(s[..4]);
    ReadSwapped(s[4..]);
    Halves(FromMemory(s[..4]), FromMemory(s[4..]));
  }

  lemma Halves(low: nat, high: nat)
    requires low < WORD
    ensures (low + WORD * high) % WORD == low && (low + WORD * high) / WORD == high
  {
  }
}
