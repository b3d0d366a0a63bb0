/** The Internet checksum of sections 1 and 2 of RFC 1071, as computed by
    PingSender::inetChecksum (src/pingsender.cpp) on a little-endian machine. */
module InetChecksum {
  import opened Common
  import opened Bits

  type Bytes = seq<Byte>

  // ------------------------------------------------------------------
  // Specification: the one's complement sum of the 16-bit words
  // ------------------------------------------------------------------

  function WordOf(lo: Byte, hi: Byte): Word16 {
    (lo as int) + 0x100 * (hi as int)
  }

  /** The words in memory order; an odd last byte is padded with zero. */
  function Words(data: Bytes): seq<Word16> {
    if data == [] then []
    else if |data| == 1 then [WordOf(data[0], 0)]
    else [WordOf(data[0], data[1])] + Words(data[2..])
  }

  /** One's complement addition: the carry comes back in at the bottom. */
  function OnesAdd(a: Word16, b: Word16): Word16 {
    if a + b < 0x1_0000 then a + b else a + b - 0xFFFF
  }

  function OnesSum(ws: seq<Word16>): Word16 {
    if ws == [] then 0 else OnesAdd(ws[0], OnesSum(ws[1..]))
  }

  function Checksum(data: Bytes): Word16 {
    0xFFFF - OnesSum(Words(data))
  }

  function Sum(ws: seq<Word16>): nat {
    if ws == [] then 0 else (ws[0] as int) + Sum(ws[1..])
  }

  // ------------------------------------------------------------------
  // Congruence modulo 2^16 - 1
  // ------------------------------------------------------------------

  /** s represents the sum n: congruent to it, and zero only for zero. */
  ghost predicate Represents(s: nat, n: nat) {
    s <= 0xFFFF && (s == 0 <==> n == 0) && exists q: nat :: n == 0xFFFF * q + s
  }

  lemma RepresentsUnique(s: nat, t: nat, n: nat)
    requires Represents(s, n) && Represents(t, n)
    ensures s == t
  {
    var q: nat :| n == 0xFFFF * q + s;
    var r: nat :| n == 0xFFFF * r + t;
  }

  lemma {:induction false} OnesSumRepresents(ws: seq<Word16>)
    ensures Represents(OnesSum(ws), Sum(ws))
  {
    if ws == [] {
      assert Sum(ws) == 0xFFFF * 0 + OnesSum(ws);
    } else {
      OnesSumRepresents(ws[1..]);
      var q: nat :| Sum(ws[1..]) == 0xFFFF * q + OnesSum(ws[1..]);
      var carry := if ws[0] + OnesSum(ws[1..]) < 0x1_0000 then 0 else 1;
      assert Sum(ws) == 0xFFFF * (q + carry) + OnesSum(ws);
    }
  }

  /** Two folds of a non-negative 32-bit accumulator, truncated to 16 bits. */
  function Folded(sum: nat): nat {
    var once := sum / 0x1_0000 + sum % 0x1_0000;
    (once + once / 0x1_0000) % 0x1_0000
  }

  /** Two folds suffice below 2^31. */
  lemma FoldedRepresents(sum: nat)
    requires sum <= 0x7FFF_FFFF
    ensures Represents(Folded(sum), sum)
  {
    var h, l := sum / 0x1_0000, sum % 0x1_0000;
    var once := h + l;
    var c := once / 0x1_0000;
    assert h <= 0x7FFF && c <= 1;
    assert Folded(sum) == once % 0x1_0000 + c;
    assert sum == 0xFFFF * (h + c) + Folded(sum);
  }

  lemma FoldedIsOnesSum(ws: seq<Word16>)
    requires Sum(ws) <= 0x7FFF_FFFF
    ensures Folded(Sum(ws)) == OnesSum(ws)
  {
    hide Folded, OnesSum, Represents, Sum;
    FoldedRepresents(Sum(ws));
    OnesSumRepresents(ws);
    RepresentsUnique(Folded(Sum(ws)), OnesSum(ws), Sum(ws));
  }

  lemma {:induction false} SumBound(ws: seq<Word16>)
    ensures Sum(ws) <= 0xFFFF * |ws|
  {
    if ws != [] {
      SumBound(ws[1..]);
    }
  }

  lemma {:induction false} WordCount(data: Bytes)
    ensures |Words(data)| == (|data| + 1) / 2
  {
    if |data| > 1 {
      WordCount(data[2..]);
    }
  }

  // ------------------------------------------------------------------
  // The loop
  // ------------------------------------------------------------------

  /** The sum of the words from byte w on. */
  function RestOf(data: Bytes, w: nat): nat
    requires w <= |data|
  {
    Sum(Words(data[w..]))
  }

  lemma RestStep(data: Bytes, w: nat)
    requires w <= |data|
    ensures w + 1 < |data| ==> RestOf(data, w) == WordOf(data[w], data[w + 1]) + RestOf(data, w + 2)
    ensures w + 1 == |data| ==> RestOf(data, w) == WordOf(data[w], 0)
    ensures w == |data| ==> RestOf(data, w) == 0
  {
    var d := data[w..];
    if w + 1 < |data| {
      assert d[2..] == data[w + 2..] && d[0] == data[w] && d[1] == data[w + 1];
      FirstWord(d);
    } else if w + 1 == |data| {
      var word := WordOf(data[w], 0);
      assert Words(d) == [word] && [word][1..] == [];
      assert Sum([word]) == word + Sum([]);
    } else {
      assert d == [];
    }
  }

  lemma RestWhole(data: Bytes)
    ensures RestOf(data, 0) == Sum(Words(data))
  {
    assert data[0..] == data;
  }

  const INT_MAX := 0x7FFF_FFFF

  /** The bytes the loop sees: the length is cast to a signed 32-bit integer. */
  function Seen(data: Bytes): (r: Bytes)
    ensures |data| <= INT_MAX ==> r == data
    ensures r <= data
  {
    var nleft := |data| % 0x1_0000_0000;
    if nleft <= INT_MAX then data[..nleft] else []
  }

  /** The signed accumulator overflows, which C++ leaves undefined, exactly when
      the words add up to more than it holds; otherwise the answer is the
      complement of the one's complement sum. */
  method ComputeChecksum(data: Bytes) returns (answer: Option<Word16>)
    ensures answer.None? <==> Sum(Words(Seen(data))) > INT_MAX
    ensures answer.Some? ==> answer.value == Checksum(Seen(data))
  {
    hide Words, Sum, RestOf, OnesSum, WordOf;
    ghost var seen := Seen(data);
    var len := |data| % 0x1_0000_0000;
    var nleft := if len <= INT_MAX then len else len - 0x1_0000_0000;
    var sum, w := 0, 0;
    RestWhole(seen);
    assert |seen| == (if nleft < 0 then 0 else nleft);
    hide Seen;
    while nleft > 1
      invariant nleft >= 0 ==> w == |seen| - nleft
      invariant nleft < 0 ==> w == 0 == |seen|
      invariant w <= |seen| && 0 <= sum <= INT_MAX && sum + RestOf(seen, w) == RestOf(seen, 0)
      decreases nleft
    {
      RestStep(seen, w);
      sum := sum + WordOf(data[w], data[w + 1]);
      if sum > INT_MAX {
        return None;
      }
      w, nleft := w + 2, nleft - 2;
    }
    RestStep(seen, w);
    if nleft == 1 {
      sum := sum + WordOf(data[w], 0);
      if sum > INT_MAX {
        return None;
      }
    }
    FoldedIsOnesSum(Words(seen));
    sum := sum / 0x1_0000 + sum % 0x1_0000;
    sum := sum + sum / 0x1_0000;
    answer := Some(0xFFFF - sum % 0x1_0000);
  }

  /** Buffers of up to 65537 bytes never overflow the accumulator; from 65538
      bytes on some do. */
  lemma ShortBuffersFit(data: Bytes)
    requires |data| <= 0x1_0001
    ensures Seen(data) == data && Sum(Words(data)) <= INT_MAX
  {
    hide Words, Sum;
    WordCount(data);
    if |data| <= 0x1_0000 {
      SumBound(Words(data));
      assert |Words(data)| <= 0x8000;
    } else {
      OddSumBound(data);
    }
  }

  /** An odd last byte adds at most 255. */
  lemma {:induction false} OddSumBound(data: Bytes)
    requires |data| % 2 == 1
    ensures Sum(Words(data)) <= 0xFFFF * (|data| / 2) + 0xFF
    decreases |data|
  {
    if |data| == 1 {
      assert Words(data) == [WordOf(data[0], 0)];
    } else {
      OddSumBound(data[2..]);
      FirstWord(data);
    }
  }

  lemma {:induction false} AllOnesSum(n: nat)
    ensures Sum(Words(seq(2 * n, _ => 0xFF))) == 0xFFFF * n
  {
    var data := seq(2 * n, _ => 0xFF);
    if n > 0 {
      FirstWord(data);
      assert data[2..] == seq(2 * (n - 1), _ => 0xFF);
      AllOnesSum(n - 1);
    }
  }

  lemma LongBufferOverflows(n: nat)
    requires 0x1_0002 <= 2 * n <= INT_MAX
    ensures exists data: Bytes :: |data| == 2 * n && Seen(data) == data && Sum(Words(data)) > INT_MAX
  {
    AllOnesSum(n);
    var data: Bytes := seq(2 * n, _ => 0xFF);
    assert Seen(data) == data;
  }

  // ------------------------------------------------------------------
  // Verification by the receiver
  // ------------------------------------------------------------------

  /** Writes a word into the aligned field k. */
  function Store(data: Bytes, k: nat, v: Word16): Bytes
    requires 2 * k + 1 < |data|
  {
    data[2 * k := v % 0x100][2 * k + 1 := v / 0x100]
  }

  lemma {:induction false} StoreWords(data: Bytes, k: nat, v: Word16)
    requires 2 * k + 1 < |data|
    ensures k < |Words(data)| && Words(Store(data, k, v)) == Words(data)[k := v]
    decreases k
  {
    WordCount(data);
    var d := Store(data, k, v);
    FirstWord(data);
    FirstWord(d);
    if k == 0 {
      assert d[2..] == data[2..];
      hide Words;
      assert WordOf(d[0], d[1]) == v;
      assert Words(d) == [Words(d)[0]] + Words(d)[1..];
    } else {
      assert d[2..] == Store(data[2..], k - 1, v);
      StoreWords(data[2..], k - 1, v);
      hide Words;
      assert Words(d) == [Words(d)[0]] + Words(d)[1..];
      assert Words(data)[k := v] == [Words(data)[0]] + Words(data)[1..][k - 1 := v];
    }
  }

  lemma {:induction false} SumUpdate(ws: seq<Word16>, k: nat, v: Word16)
    requires k < |ws|
    ensures Sum(ws[k := v]) == Sum(ws) - ws[k] + v
    decreases k
  {
    if k == 0 {
      assert ws[k := v][1..] == ws[1..];
    } else {
      assert ws[k := v][1..] == ws[1..][k - 1 := v];
      SumUpdate(ws[1..], k - 1, v);
    }
  }

  /** Storing the checksum in a zeroed aligned field makes the buffer check out. */
  lemma StoredChecksumVerifies(data: Bytes, k: nat)
    requires 2 * k + 1 < |data| && data[2 * k] == 0 && data[2 * k + 1] == 0
    ensures Checksum(Store(data, k, Checksum(data))) == 0
  {
    var ws, c := Words(data), Checksum(data);
    StoreWords(data, k, c);
    StoreWords(data, k, 0);
    assert Store(data, k, 0) == data;
    assert ws[k] == 0 by { assert ws == ws[k := 0]; }
    SumUpdate(ws, k, c);
    var ws' := ws[k := c];
    OnesSumRepresents(ws);
    OnesSumRepresents(ws');
    var q: nat :| Sum(ws) == 0xFFFF * q + OnesSum(ws);
    assert Sum(ws') == 0xFFFF * q + 0xFFFF;
    assert Represents(0xFFFF, Sum(ws'));
    RepresentsUnique(OnesSum(ws'), 0xFFFF, Sum(ws'));
  }

  // ------------------------------------------------------------------
  // Byte order independence
  // ------------------------------------------------------------------

  function Swap(w: Word16): Word16 {
    0x100 * (w % 0x100) + w / 0x100
  }

  function SwapAll(data: Bytes): Bytes
    requires |data| % 2 == 0
  {
    if data == [] then [] else [data[1], data[0]] + SwapAll(data[2..])
  }

  /** Swapping commutes with one's complement addition. */
  lemma SwapAdd(a: Word16, b: Word16)
    ensures Swap(OnesAdd(a, b)) == OnesAdd(Swap(a), Swap(b))
  {
    var s, t := Swap(OnesAdd(a, b)), OnesAdd(Swap(a), Swap(b));
    SwapRepresents(a);
    SwapRepresents(b);
    SwapRepresents(OnesAdd(a, b));
    var n := 0x100 * (a + b);
    var e := if a + b < 0x1_0000 then 0 else 1;
    assert 0x100 * OnesAdd(a, b) == n - 0x100 * 0xFFFF * e;
    var f := if Swap(a) + Swap(b) < 0x1_0000 then 0 else 1;
    assert n == 0xFFFF * (a / 0x100 + b / 0x100 + f) + t;
    assert n == 0xFFFF * (OnesAdd(a, b) / 0x100 + 0x100 * e) + s;
    assert Represents(s, n) && Represents(t, n);
    RepresentsUnique(s, t, n);
  }

  /** Swapping multiplies by 2^8 modulo 2^16 - 1. */
  lemma SwapRepresents(w: Word16)
    ensures 0x100 * w == 0xFFFF * (w / 0x100) + Swap(w)
    ensures Swap(w) == 0 <==> w == 0
  {
  }

  /** Swapping the bytes of every word swaps the bytes of the checksum. */
  lemma ByteOrderIndependent(data: Bytes)
    requires |data| % 2 == 0
    ensures OnesSum(Words(SwapAll(data))) == Swap(OnesSum(Words(data)))
    ensures Checksum(SwapAll(data)) == Swap(Checksum(data))
  {
    hide OnesSum, Words, Swap;
    SwapSum(data);
    SwapComplement(OnesSum(Words(data)));
  }

  lemma {:induction false} SwapSum(data: Bytes)
    requires |data| % 2 == 0
    ensures OnesSum(Words(SwapAll(data))) == Swap(OnesSum(Words(data)))
  {
    if data != [] {
      hide OnesAdd, Swap, Words, WordOf;
      SwapSum(data[2..]);
      var d := SwapAll(data);
      assert d[2..] == SwapAll(data[2..]);
      FirstWord(data);
      FirstWord(d);
      SwapAdd(WordOf(data[0], data[1]), OnesSum(Words(data[2..])));
      SwapWord(data[0], data[1]);
    }
  }

  /** An odd buffer counts as if a zero byte followed it. */
  lemma PaddedWithZero(data: Bytes)
    requires |data| % 2 == 1
    ensures Words(data) == Words(data + [0]) && Checksum(data) == Checksum(data + [0])
  {
    PaddedWords(data);
  }

  lemma {:induction false} PaddedWords(data: Bytes)
    requires |data| % 2 == 1
    ensures Words(data) == Words(data + [0])
    decreases |data|
  {
    var padded := data + [0];
    if |data| == 1 {
      assert padded[0] == data[0] && padded[1] == 0 && padded[2..] == [];
      assert Words(padded) == [WordOf(data[0], 0)] + Words([]);
    } else {
      assert padded[2..] == data[2..] + [0];
      PaddedWords(data[2..]);
    }
  }

  lemma FirstWord(data: Bytes)
    requires |data| > 1
    ensures Words(data) != [] && Words(data)[0] == WordOf(data[0], data[1])
    ensures Words(data)[1..] == Words(data[2..])
  {
  }

  lemma SwapWord(lo: Byte, hi: Byte)
    ensures Swap(WordOf(lo, hi)) == WordOf(hi, lo)
  {
    var w := WordOf(lo, hi);
    assert w % 0x100 == lo && w / 0x100 == hi;
  }

  lemma SwapComplement(s: Word16)
    ensures Swap(0xFFFF - s) == 0xFFFF - Swap(s)
  {
    var h, l := s / 0x100, s % 0x100;
    assert 0xFFFF - s == 0x100 * (0xFF - h) + (0xFF - l);
  }
}
