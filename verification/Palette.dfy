/** Paletted containers: the three encodings of a run of cells, the bit packing
  * they share, and the client's reading of them. */
module Palette {
  import opened Bytes

  /** Bits per entry: the least indirect width, the greatest one, and the direct one. */
  datatype Kind = Kind(minBits: nat, maxBits: nat, directBits: nat)

  const BLOCK_PALETTE := Kind(4, 8, 15)
  const BIOME_PALETTE := Kind(1, 3, 7)

  predicate ValidKind(k: Kind) {
    1 <= k.minBits <= k.maxBits < k.directBits <= 32 && k.maxBits <= 16
  }

  // ---- The palette: distinct values in first-seen order ----

  function Distinct(values: seq<u32>): seq<u32> {
    if values == [] then []
    else
      var p := Distinct(values[..|values| - 1]);
      var v := values[|values| - 1];
      if v in p then p else p + [v]
  }

  function IndexOf(p: seq<u32>, v: u32): (i: nat)
    requires v in p
    ensures i < |p| && p[i] == v && v !in p[..i]
  {
    if p[0] == v then 0 else 1 + IndexOf(p[1..], v)
  }

  lemma {:induction false} DistinctFacts(values: seq<u32>)
    ensures var p := Distinct(values);
            && |p| <= |values|
            && (forall v :: v in p <==> v in values)
            && (forall i, j :: 0 <= i < j < |p| ==> p[i] != p[j])
  {
    if values != [] {
      var init, v := values[..|values| - 1], values[|values| - 1];
      DistinctFacts(init);
      assert values == init + [v];
    }
  }

  lemma {:induction false} IndexInPrefix(s: seq<u32>, x: u32, v: u32)
    requires v in s
    ensures v in s + [x] && IndexOf(s + [x], v) == IndexOf(s, v)
  {
    if s[0] != v {
      IndexInPrefix(s[1..], x, v);
      assert (s + [x])[1..] == s[1..] + [x];
    }
  }

  lemma {:induction false} IndexOfNew(s: seq<u32>, x: u32)
    requires x !in s
    ensures IndexOf(s + [x], x) == |s|
  {
    if s != [] {
      IndexOfNew(s[1..], x);
      assert (s + [x])[1..] == s[1..] + [x];
    }
  }

  /** First-seen order: palette positions follow the values' first occurrences. */
  lemma {:induction false} FirstSeenOrder(values: seq<u32>, i: nat, j: nat)
    requires i < j < |Distinct(values)|
    ensures Distinct(values)[i] in values && Distinct(values)[j] in values
    ensures IndexOf(values, Distinct(values)[i]) < IndexOf(values, Distinct(values)[j])
  {
    var init, x := values[..|values| - 1], values[|values| - 1];
    var p := Distinct(init);
    assert values == init + [x];
    DistinctFacts(init);
    IndexInPrefix(init, x, p[i]);
    if j < |p| {
      FirstSeenOrder(init, i, j);
      IndexInPrefix(init, x, p[j]);
    } else {
      IndexOfNew(init, x);
    }
  }

  function ValueSet(values: seq<u32>): set<u32> { set v | v in values }

  /** As many as there are different values. */
  lemma {:induction false} DistinctCount(values: seq<u32>)
    ensures |Distinct(values)| == |ValueSet(values)|
  {
    if values != [] {
      var init, x := values[..|values| - 1], values[|values| - 1];
      DistinctCount(init);
      DistinctFacts(init);
      assert values == init + [x];
      assert ValueSet(values) == ValueSet(init) + {x};
      assert x in init <==> x in ValueSet(init);
    }
  }

  // ---- The width ----

  /** The least b >= from with n <= 2^b. */
  function BitsFrom(n: nat, from: nat): (b: nat)
    ensures n <= Pow2(b) && from <= b
    ensures b == from || Pow2(b - 1) < n
    decreases n - Pow2(from)
  {
    if Pow2(from) >= n then from else BitsFrom(n, from + 1)
  }

  function BitsFor(n: nat): (b: nat)
    ensures n <= Pow2(b)
    ensures b == 0 || Pow2(b - 1) < n
  {
    BitsFrom(n, 0)
  }

  lemma BitsForLeast(n: nat, b: nat)
    requires n <= Pow2(b)
    ensures BitsFor(n) <= b
  {
    if BitsFor(n) > b {
      Pow2Monotonic(b, BitsFor(n) - 1);
    }
  }

  // ---- Packing into 64-bit words ----

  /** One word: entry j at bit j * bits, each entry cut to its width. */
  function Word(vs: seq<nat>, bits: nat): nat {
    if vs == [] then 0
    else
      var n := |vs| - 1;
      Word(vs[..n], bits) + vs[n] % Pow2(bits) * Pow2(n * bits)
  }

  /** Words of `per` entries each; no entry straddles two words. */
  function Pack(vs: seq<nat>, bits: nat, per: nat): seq<nat>
    requires per > 0
  {
    if |vs| == 0 then []
    else if |vs| <= per then [Word(vs, bits)]
    else [Word(vs[..per], bits)] + Pack(vs[per..], bits, per)
  }

  function WordCount(n: nat, per: nat): nat
    requires per > 0
  {
    (n + per - 1) / per
  }

  /** The client's view: the entry's bits cut out of its word. */
  function BitsAt(words: seq<nat>, bits: nat, per: nat, i: nat): nat
    requires per > 0 && i / per < |words|
  {
    words[i / per] / Pow2(i % per * bits) % Pow2(bits)
  }

  /** As many whole entries as fit 64 bits. */
  function PerWord(bits: nat): (per: nat)
    requires 1 <= bits <= 64
    ensures per >= 1 && per * bits <= 64
  {
    64 / bits
  }

  lemma {:induction false} WordBound(vs: seq<nat>, bits: nat)
    ensures Word(vs, bits) < Pow2(|vs| * bits)
  {
    if vs != [] {
      var n := |vs| - 1;
      hide Pow2;
      WordBound(vs[..n], bits);
      Pow2Add(n * bits, bits);
      NextWidth(n, bits);
      AppendBound(Word(vs[..n], bits), vs[n] % Pow2(bits), Pow2(n * bits), Pow2(bits));
    }
  }

  lemma NextWidth(n: nat, bits: nat)
    ensures (n + 1) * bits == n * bits + bits
  {
  }

  lemma AppendBound(w: nat, d: nat, p: nat, m: nat)
    requires w < p && d < m
    ensures w + d * p < p * m
  {
    MulMonotonic(p, d, m - 1);
    MulSub(p, m, 1);
  }

  /** Bit extraction undoes packing within a word. */
  lemma {:induction false} WordDigit(vs: seq<nat>, bits: nat, j: nat)
    requires j < |vs|
    ensures Word(vs, bits) / Pow2(j * bits) % Pow2(bits) == vs[j] % Pow2(bits)
  {
    var n := |vs| - 1;
    var w, d := Word(vs[..n], bits), vs[n] % Pow2(bits);
    var top := Pow2(n * bits);
    assert Word(vs, bits) == w + d * top;
    hide Pow2, Word;
    WordBound(vs[..n], bits);
    if j == n {
      TopDigit(w, d, top, Pow2(bits));
    } else {
      WordDigit(vs[..n], bits, j);
      var k := PowerGap(j, n, bits);
      LowDigit(w, d, Pow2(j * bits), Pow2(bits), k, top);
    }
  }

  lemma PowerGap(j: nat, n: nat, bits: nat) returns (k: nat)
    requires j < n
    ensures Pow2(n * bits) == Pow2(j * bits) * (Pow2(bits) * k)
  {
    hide Pow2;
    var gap := n - 1 - j;
    WidthAlgebra(j, gap, n, bits);
    Pow2Add(j * bits, bits + gap * bits);
    Pow2Add(bits, gap * bits);
    k := Pow2(gap * bits);
  }

  lemma WidthAlgebra(j: nat, k: nat, n: nat, bits: nat)
    requires j + 1 + k == n
    ensures j * bits + (bits + k * bits) == n * bits
  {
  }

  lemma TopDigit(w: nat, d: nat, p: nat, m: nat)
    requires w < p && d < m
    ensures (w + d * p) / p % m == d
  {
    assert w + d * p == w + p * d;
    DivModUnique(p, d, w);
    DivModUnique(m, 0, d);
  }

  lemma LowDigit(w: nat, d: nat, p: nat, m: nat, k: nat, top: nat)
    requires p > 0 && m > 0 && top == p * (m * k)
    ensures (w + d * top) / p % m == w / p % m
  {
    var q, r := w / p, w % p;
    LowAlgebra(d, p, m, k);
    assert w + d * top == r + p * (q + m * (k * d)) by {
      MulSub(p, q, -(m * (k * d)));
    }
    DivModUnique(p, q + m * (k * d), r);
    var e := q % m;
    assert q + m * (k * d) == e + m * (q / m + k * d) by {
      MulSub(m, q / m, -(k * d));
    }
    DivModUnique(m, q / m + k * d, e);
  }

  lemma LowAlgebra(d: nat, p: nat, m: nat, k: nat)
    ensures d * (p * (m * k)) == p * (m * (k * d))
  {
    assert d * (p * (m * k)) == p * (d * (m * k)) by { Swap(d, p, m * k); }
    assert d * (m * k) == m * (d * k) by { Swap(d, m, k); }
  }

  lemma Swap(a: nat, b: nat, c: nat)
    ensures a * (b * c) == b * (a * c)
  {
  }

  lemma WordCountStep(n: nat, per: nat)
    requires per > 0
    ensures n == 0 ==> WordCount(n, per) == 0
    ensures 0 < n <= per ==> WordCount(n, per) == 1
    ensures n > per ==> WordCount(n, per) == 1 + WordCount(n - per, per)
  {
    if 0 < n <= per {
      DivModUnique(per, 1, n - 1);
    } else if n > per {
      ShiftDivMod(n + per - 1, per);
    } else {
      DivModUnique(per, 0, per - 1);
    }
  }

  lemma ShiftDivMod(i: nat, per: nat)
    requires per > 0
    ensures i < per ==> i / per == 0 && i % per == i
    ensures i >= per ==> i / per == 1 + (i - per) / per && i % per == (i - per) % per
  {
    if i < per {
      DivModUnique(per, 0, i);
    } else {
      var r, q := (i - per) % per, (i - per) / per;
      assert i == r + per * (q + 1);
      DivModUnique(per, q + 1, r);
    }
  }

  lemma {:induction false} PackLength(vs: seq<nat>, bits: nat, per: nat)
    requires per > 0
    ensures |Pack(vs, bits, per)| == WordCount(|vs|, per)
    decreases |vs|
  {
    hide Word, WordCount;
    WordCountStep(|vs|, per);
    if |vs| > per {
      PackLength(vs[per..], bits, per);
    }
  }

  /** ceil(n / per) words; entry i is cut out of word i / per at bit (i mod per) * bits. */
  lemma {:induction false} PackEntry(vs: seq<nat>, bits: nat, per: nat, i: nat)
    requires per > 0 && i < |vs|
    ensures |Pack(vs, bits, per)| == WordCount(|vs|, per) && i / per < |Pack(vs, bits, per)|
    ensures BitsAt(Pack(vs, bits, per), bits, per, i) == vs[i] % Pow2(bits)
    decreases |vs|
  {
    hide Pow2, Word, WordCount;
    PackLength(vs, bits, per);
    ShiftDivMod(i, per);
    if i < per {
      var first := if |vs| <= per then vs else vs[..per];
      assert Pack(vs, bits, per)[0] == Word(first, bits);
      WordDigit(first, bits, i);
    } else {
      PackEntry(vs[per..], bits, per, i - per);
    }
  }

  /** With as many entries to a word as 64 bits hold, entry k of word w starts at bit k * bits. */
  lemma PackedWords(vs: seq<nat>, bits: nat, per: nat, w: nat, k: nat)
    requires 1 <= bits && per * bits <= 64 < per * bits + bits
    requires k < per && k + per * w < |vs|
    ensures bits <= 64 && w < |Pack(vs, bits, PerWord(bits))|
    ensures Pack(vs, bits, PerWord(bits))[w] / Pow2(k * bits) % Pow2(bits) == vs[k + per * w] % Pow2(bits)
  {
    hide Pow2, Pack;
    WidthBound(1, per, bits);
    DivModUnique(bits, per, 64 - per * bits);
    DivModUnique(per, w, k);
    PackEntry(vs, bits, per, k + per * w);
  }

  /** No word is more than the entries need. */
  lemma PackedCount(vs: seq<nat>, bits: nat)
    requires 1 <= bits <= 64
    ensures var n := |Pack(vs, bits, PerWord(bits))|; 64 / bits * n - 64 / bits < |vs| <= 64 / bits * n
  {
    hide Pack;
    PackLength(vs, bits, 64 / bits);
    CeilDivision(|vs|, 64 / bits);
  }

  lemma CeilDivision(n: nat, per: nat)
    requires per > 0
    ensures var q := WordCount(n, per); per * q - per < n <= per * q
  {
    var t := n + per - 1;
    assert t == per * (t / per) + t % per;
  }

  /** Every word's bits above its last entry are zero. */
  lemma {:induction false} PackUnusedBits(vs: seq<nat>, bits: nat, per: nat, w: nat)
    requires per > 0 && w < |Pack(vs, bits, per)|
    ensures Pack(vs, bits, per)[w] < Pow2(EntriesIn(|vs|, per, w) * bits)
    decreases |vs|
  {
    hide Pow2, Word;
    if w == 0 {
      WordBound(if |vs| <= per then vs else vs[..per], bits);
    } else {
      PackUnusedBits(vs[per..], bits, per, w - 1);
    }
  }

  /** How many of `n` entries lie in word `w`. */
  function EntriesIn(n: nat, per: nat, w: nat): (k: nat)
    requires per > 0
    ensures k <= per
    decreases w
  {
    if w == 0 then (if n < per then n else per)
    else if n < per then 0 else EntriesIn(n - per, per, w - 1)
  }

  lemma PackIs64Bit(vs: seq<nat>, bits: nat, per: nat, w: nat)
    requires per > 0 && per * bits <= 64 && w < |Pack(vs, bits, per)|
    ensures Pack(vs, bits, per)[w] < TWO64
  {
    hide Pow2, Word, Pack;
    PackUnusedBits(vs, bits, per, w);
    var k := EntriesIn(|vs|, per, w);
    WidthBound(k, per, bits);
    Pow64();
    Pow2Monotonic(k * bits, 64);
  }

  lemma WidthBound(k: nat, per: nat, bits: nat)
    requires k <= per && per * bits <= 64
    ensures k * bits <= 64
  {
    MulMonotonic(bits, k, per);
  }
}
