/** The word-array set of small numbers that the search uses as half of its cache key.
    A set is an array of 64-bit words updated in place; `Members` is the finite set it denotes. */
module Bitset {

  const WORD_BITS := 64

  /** `1 << minor`, the mask of one bit of a word. */
  function Mask(minor: bv6): bv64
  {
    (1 as bv64) << minor
  }

  /** The bit offset of a position, as the six-bit number the shift uses. */
  function Minor(offset: nat): bv6
    requires offset < WORD_BITS
  {
    offset as bv6
  }

  // The three word operations have names, so that proofs about sets need not look at their bits.

  function And(v: bv64, w: bv64): bv64 { v & w }

  function Or(v: bv64, w: bv64): bv64 { v | w }

  function AndNot(v: bv64, w: bv64): bv64 { v & !w }

  predicate TestAt(word: bv64, k: bv6)
  {
    And(word, Mask(k)) != 0
  }

  function SetAt(word: bv64, k: bv6): bv64
  {
    Or(word, Mask(k))
  }

  function ClearAt(word: bv64, k: bv6): bv64
  {
    AndNot(word, Mask(k))
  }

  /** Whether bit `offset` of a word is set. */
  predicate Test(word: bv64, offset: nat)
    requires offset < WORD_BITS
  {
    TestAt(word, Minor(offset))
  }

  /** `word | 1 << offset`. */
  function WithBit(word: bv64, offset: nat): bv64
    requires offset < WORD_BITS
  {
    SetAt(word, Minor(offset))
  }

  /** `word &^ 1 << offset`. */
  function WithoutBit(word: bv64, offset: nat): bv64
    requires offset < WORD_BITS
  {
    ClearAt(word, Minor(offset))
  }

  // ----- one word -----

  lemma MinorIsExact(offset: nat)
    requires offset < WORD_BITS
    ensures Minor(offset) as int == offset
  {
  }

  lemma SameMask(word: bv64, k: bv6)
    ensures TestAt(SetAt(word, k), k)
    ensures !TestAt(ClearAt(word, k), k)
  {
  }

  lemma MasksAreDistinct(a: bv6, b: bv6)
    requires a != b
    ensures And(Mask(a), Mask(b)) == 0
  {
  }

  lemma DisjointOr(word: bv64, m: bv64, k: bv64)
    requires And(m, k) == 0
    ensures And(Or(word, m), k) == And(word, k)
  {
  }

  lemma DisjointAndNot(word: bv64, m: bv64, k: bv64)
    requires And(m, k) == 0
    ensures And(AndNot(word, m), k) == And(word, k)
  {
  }

  lemma OtherMaskSet(word: bv64, a: bv6, b: bv6)
    requires a != b
    ensures TestAt(SetAt(word, a), b) == TestAt(word, b)
  {
    hide Mask, And, Or, AndNot;
    MasksAreDistinct(a, b);
    DisjointOr(word, Mask(a), Mask(b));
  }

  lemma OtherMaskClear(word: bv64, a: bv6, b: bv6)
    requires a != b
    ensures TestAt(ClearAt(word, a), b) == TestAt(word, b)
  {
    hide Mask, And, Or, AndNot;
    MasksAreDistinct(a, b);
    DisjointAndNot(word, Mask(a), Mask(b));
  }

  /** Setting or clearing one bit changes that bit and no other. */
  lemma OneBitChanges(word: bv64, a: nat, b: nat)
    requires a < WORD_BITS && b < WORD_BITS
    ensures Test(WithBit(word, a), b) <==> a == b || Test(word, b)
    ensures Test(WithoutBit(word, a), b) <==> a != b && Test(word, b)
  {
    hide Minor, TestAt, SetAt, ClearAt;
    MinorIsExact(a);
    MinorIsExact(b);
    if a == b {
      SameMask(word, Minor(a));
    } else {
      OtherMaskSet(word, Minor(a), Minor(b));
      OtherMaskClear(word, Minor(a), Minor(b));
    }
  }

  predicate AgreeOnByte(v: bv64, w: bv64, k: bv6)
  {
    && TestAt(v, k) == TestAt(w, k) && TestAt(v, k + 1) == TestAt(w, k + 1)
    && TestAt(v, k + 2) == TestAt(w, k + 2) && TestAt(v, k + 3) == TestAt(w, k + 3)
    && TestAt(v, k + 4) == TestAt(w, k + 4) && TestAt(v, k + 5) == TestAt(w, k + 5)
    && TestAt(v, k + 6) == TestAt(w, k + 6) && TestAt(v, k + 7) == TestAt(w, k + 7)
  }

  lemma ByteAgrees(v: bv64, w: bv64, k: bv6)
    requires forall k: bv6 :: TestAt(v, k) == TestAt(w, k)
    ensures AgreeOnByte(v, w, k)
  {
    hide TestAt;
  }

  lemma LowHalfAgrees(v: bv64, w: bv64)
    requires AgreeOnByte(v, w, 0) && AgreeOnByte(v, w, 8) && AgreeOnByte(v, w, 16) && AgreeOnByte(v, w, 24)
    ensures v & 0xFFFF_FFFF == w & 0xFFFF_FFFF
  {
  }

  lemma HighHalfAgrees(v: bv64, w: bv64)
    requires AgreeOnByte(v, w, 32) && AgreeOnByte(v, w, 40) && AgreeOnByte(v, w, 48) && AgreeOnByte(v, w, 56)
    ensures v & 0xFFFF_FFFF_0000_0000 == w & 0xFFFF_FFFF_0000_0000
  {
  }

  lemma HalvesDetermineWord(v: bv64, w: bv64)
    requires v & 0xFFFF_FFFF == w & 0xFFFF_FFFF
    requires v & 0xFFFF_FFFF_0000_0000 == w & 0xFFFF_FFFF_0000_0000
    ensures v == w
  {
  }

  lemma MasksDetermineWord(v: bv64, w: bv64)
    requires forall k: bv6 :: TestAt(v, k) == TestAt(w, k)
    ensures v == w
  {
    hide TestAt, AgreeOnByte;
    ByteAgrees(v, w, 0);
    ByteAgrees(v, w, 8);
    ByteAgrees(v, w, 16);
    ByteAgrees(v, w, 24);
    LowHalfAgrees(v, w);
    ByteAgrees(v, w, 32);
    ByteAgrees(v, w, 40);
    ByteAgrees(v, w, 48);
    ByteAgrees(v, w, 56);
    HighHalfAgrees(v, w);
    HalvesDetermineWord(v, w);
  }

  lemma MinorReaches(k: bv6)
    ensures (k as int) < WORD_BITS && Minor(k as int) == k
  {
  }

  /** Words with the same bits are the same word. */
  lemma BitsDetermineWord(v: bv64, w: bv64)
    requires forall i: nat | i < WORD_BITS :: Test(v, i) == Test(w, i)
    ensures v == w
  {
    hide Minor, TestAt;
    forall k: bv6
      ensures TestAt(v, k) == TestAt(w, k)
    {
      MinorReaches(k);
      assert Test(v, k as int) == Test(w, k as int);
    }
    MasksDetermineWord(v, w);
  }

  // ----- the set a word array denotes -----

  predicate Has(words: seq<bv64>, pos: int)
    requires 0 <= pos < WORD_BITS * |words|
  {
    Test(words[pos / WORD_BITS], pos % WORD_BITS)
  }

  function Members(words: seq<bv64>): set<int>
  {
    set pos: int | 0 <= pos < WORD_BITS * |words| && Has(words, pos)
  }

  lemma SetWords(words: seq<bv64>, pos: nat)
    requires pos < WORD_BITS * |words|
    ensures var major := pos / WORD_BITS;
            Members(words[major := WithBit(words[major], pos % WORD_BITS)]) == Members(words) + {pos}
  {
    hide Test, WithBit, WithoutBit;
    var major := pos / WORD_BITS;
    var words' := words[major := WithBit(words[major], pos % WORD_BITS)];
    forall q: int | 0 <= q < WORD_BITS * |words|
      ensures Has(words', q) <==> q == pos || Has(words, q)
    {
      OneBitChanges(words[major], pos % WORD_BITS, q % WORD_BITS);
    }
  }

  lemma ClearWords(words: seq<bv64>, pos: nat)
    requires pos < WORD_BITS * |words|
    ensures var major := pos / WORD_BITS;
            Members(words[major := WithoutBit(words[major], pos % WORD_BITS)]) == Members(words) - {pos}
  {
    hide Test, WithBit, WithoutBit;
    var major := pos / WORD_BITS;
    var words' := words[major := WithoutBit(words[major], pos % WORD_BITS)];
    forall q: int | 0 <= q < WORD_BITS * |words|
      ensures Has(words', q) <==> q != pos && Has(words, q)
    {
      OneBitChanges(words[major], pos % WORD_BITS, q % WORD_BITS);
    }
  }

  /** Two arrays of one length denote the same set only if they are equal word for word. */
  lemma MembersDetermineWords(a: seq<bv64>, b: seq<bv64>)
    requires |a| == |b|
    ensures Members(a) == Members(b) <==> a == b
  {
    if Members(a) == Members(b) {
      forall k | 0 <= k < |a|
        ensures a[k] == b[k]
      {
        forall i: nat | i < WORD_BITS
          ensures Test(a[k], i) == Test(b[k], i)
        {
          var pos := WORD_BITS * k + i;
          assert pos / WORD_BITS == k && pos % WORD_BITS == i;
          assert Has(a, pos) == (pos in Members(a));
          assert Has(b, pos) == (pos in Members(b));
        }
        BitsDetermineWord(a[k], b[k]);
      }
    }
  }

  // ----- counting -----

  /** The number of set bits below `k`; `OnesCount(w, 64)` is the library's population count. */
  function OnesCount(word: bv64, k: nat): nat
    requires k <= WORD_BITS
  {
    if k == 0 then 0 else OnesCount(word, k - 1) + (if Test(word, k - 1) then 1 else 0)
  }

  function PopCount(words: seq<bv64>): nat
  {
    if words == [] then 0
    else PopCount(words[..|words| - 1]) + OnesCount(words[|words| - 1], WORD_BITS)
  }

  function MembersBelow(words: seq<bv64>, bound: nat): set<int>
    requires bound <= WORD_BITS * |words|
  {
    set pos: int | 0 <= pos < bound && Has(words, pos)
  }

  lemma {:induction false} CountInWord(words: seq<bv64>, k: nat, i: nat)
    requires k < |words| && i <= WORD_BITS
    ensures |MembersBelow(words, WORD_BITS * k + i)| == |MembersBelow(words, WORD_BITS * k)| + OnesCount(words[k], i)
  {
    hide Test;
    if i > 0 {
      CountInWord(words, k, i - 1);
      var pos: nat := WORD_BITS * k + i - 1;
      var below := MembersBelow(words, pos);
      assert pos / WORD_BITS == k && pos % WORD_BITS == i - 1;
      assert MembersBelow(words, pos + 1) == if Has(words, pos) then below + {pos} else below;
    }
  }

  /** The population count is the cardinality of the set. */
  lemma {:induction false} PopCountIsCardinality(words: seq<bv64>)
    ensures PopCount(words) == |Members(words)|
  {
    if words == [] {
      assert Members(words) == {};
    } else {
      var k := |words| - 1;
      var front := words[..k];
      PopCountIsCardinality(front);
      CountInWord(words, k, WORD_BITS);
      assert MembersBelow(words, WORD_BITS * k) == Members(front) by {
        forall pos: int | 0 <= pos < WORD_BITS * k
          ensures Has(words, pos) == Has(front, pos)
        {
        }
      }
      assert MembersBelow(words, WORD_BITS * k + WORD_BITS) == Members(words);
    }
  }

  // ----- hashing -----

  /** Conversion of a count to an unsigned 64-bit word, with wrap-around. */
  function ToWord(n: nat): bv64
  {
    (n % 0x1_0000_0000_0000_0000) as bv64
  }

  function XorAll(seed: bv64, words: seq<bv64>): bv64
  {
    if words == [] then seed else XorAll(seed, words[..|words| - 1]) ^ words[|words| - 1]
  }

  function HashOf(words: seq<bv64>): bv64
  {
    XorAll(ToWord(PopCount(words)), words)
  }

  /** Equal sets over arrays of one length fall into the same bucket. */
  lemma EqualSetsHashEqually(a: seq<bv64>, b: seq<bv64>)
    requires |a| == |b|
    requires Members(a) == Members(b)
    ensures HashOf(a) == HashOf(b)
  {
    MembersDetermineWords(a, b);
  }

  // ----- the operations -----

  method NewBitset(bits: nat) returns (b: array<bv64>)
    ensures fresh(b)
    ensures bits <= WORD_BITS * b.Length < bits + WORD_BITS
    ensures Members(b[..]) == {}
  {
    var extra := 0;
    if bits % WORD_BITS != 0 {
      extra := 1;
    }
    var chunks := bits / WORD_BITS + extra;
    b := new bv64[chunks](_ => 0);
    forall pos: int | 0 <= pos < WORD_BITS * |b[..]|
      ensures !Has(b[..], pos)
    {
      assert b[..][pos / WORD_BITS] == 0;
    }
  }

  /** A copy that later updates of either array do not disturb. */
  method Clone(b: array<bv64>) returns (r: array<bv64>)
    ensures fresh(r)
    ensures r[..] == b[..]
  {
    r := new bv64[b.Length](_ => 0);
    for i := 0 to b.Length
      invariant r[..i] == b[..i]
    {
      r[i] := b[i];
    }
  }

  method Set(b: array<bv64>, pos: nat) returns (r: array<bv64>)
    requires pos < WORD_BITS * b.Length
    modifies b
    ensures r == b
    ensures Members(b[..]) == old(Members(b[..])) + {pos}
  {
    hide Test, WithBit, WithoutBit, Members;
    var major, minor := pos / WORD_BITS, pos % WORD_BITS;
    SetWords(b[..], pos);
    b[major] := WithBit(b[major], minor);
    assert b[..] == old(b[..])[major := WithBit(old(b[..])[major], minor)];
    r := b;
  }

  method Clear(b: array<bv64>, pos: nat) returns (r: array<bv64>)
    requires pos < WORD_BITS * b.Length
    modifies b
    ensures r == b
    ensures Members(b[..]) == old(Members(b[..])) - {pos}
  {
    hide Test, WithBit, WithoutBit, Members;
    var major, minor := pos / WORD_BITS, pos % WORD_BITS;
    ClearWords(b[..], pos);
    b[major] := WithoutBit(b[major], minor);
    assert b[..] == old(b[..])[major := WithoutBit(old(b[..])[major], minor)];
    r := b;
  }

  method Get(b: array<bv64>, pos: nat) returns (r: bool)
    requires pos < WORD_BITS * b.Length
    ensures r <==> pos in Members(b[..])
  {
    var major, minor := pos / WORD_BITS, pos % WORD_BITS;
    hide Test, WithBit, WithoutBit;
    r := Test(b[major], minor);
    assert r == Has(b[..], pos);
  }

  method Popcnt(b: array<bv64>) returns (total: nat)
    ensures total == |Members(b[..])|
    ensures total == PopCount(b[..])
  {
    total := 0;
    for i := 0 to b.Length
      invariant total == PopCount(b[..i])
    {
      assert b[..i + 1][..i] == b[..i];
      total := total + OnesCount(b[i], WORD_BITS);
    }
    assert b[..b.Length] == b[..];
    PopCountIsCardinality(b[..]);
  }

  method Hash(b: array<bv64>) returns (hash: bv64)
    ensures hash == HashOf(b[..])
  {
    hide Test, ToWord, Members;
    var total := Popcnt(b);
    hash := ToWord(total);
    for i := 0 to b.Length
      invariant hash == XorAll(ToWord(total), b[..i])
    {
      assert b[..i + 1][..i] == b[..i];
      hash := hash ^ b[i];
    }
    assert b[..b.Length] == b[..];
  }

  method Equals(b: array<bv64>, b2: array<bv64>) returns (r: bool)
    ensures r <==> b[..] == b2[..]
    ensures b.Length == b2.Length ==> (r <==> Members(b[..]) == Members(b2[..]))
  {
    if b.Length != b2.Length {
      return false;
    }
    MembersDetermineWords(b[..], b2[..]);
    for i := 0 to b.Length
      invariant b[..i] == b2[..i]
    {
      if b[i] != b2[i] {
        assert b[..][i] != b2[..][i];
        return false;
      }
    }
    assert b[..] == b[..b.Length] && b2[..] == b2[..b.Length];
    return true;
  }
}
