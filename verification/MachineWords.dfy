/** Single bits of 32-bit words and bytes, and the operations that set and clear them. */
module MachineWords {

  predicate Bit(w: bv32, k: bv8)
    requires k < 32
  {
    (w >> k) & 1 == 1
  }

  predicate ByteBit(w: bv8, k: bv8)
    requires k < 8
  {
    (w >> k) & 1 == 1
  }

  function WordMask(n: bv8): bv32
    requires n < 32
  {
    1 << n
  }
  function ByteMask(n: bv8): bv8
    requires n < 8
  {
    1 << n
  }
  function OrWord(w: bv32, m: bv32): bv32 { w | m }
  function OrByte(w: bv8, m: bv8): bv8 { w | m }
  function AndNotWord(w: bv32, m: bv32): bv32 { w & !m }
  function AndNotByte(w: bv8, m: bv8): bv8 { w & !m }

  lemma BitOfMask(n: bv8, k: bv8)
    requires n < 32 && k < 32
    ensures Bit(WordMask(n), k) <==> n == k
  {
  }

  lemma RawOr(w: bv32, m: bv32, k: bv8)
    requires k < 32
    ensures Bit(w | m, k) <==> Bit(w, k) || Bit(m, k)
  {
  }

  lemma RawAndNot(w: bv32, m: bv32, k: bv8)
    requires k < 32
    ensures Bit(w & !m, k) <==> Bit(w, k) && !Bit(m, k)
  {
  }

  lemma WordOps(w: bv32, m: bv32)
    ensures OrWord(w, m) == w | m && AndNotWord(w, m) == w & !m
  {
  }

  lemma BitOfOr(w: bv32, m: bv32, k: bv8)
    requires k < 32
    ensures Bit(OrWord(w, m), k) <==> Bit(w, k) || Bit(m, k)
  {
    hide Bit, OrWord, AndNotWord;
    RawOr(w, m, k);
    WordOps(w, m);
  }

  lemma BitOfAndNot(w: bv32, m: bv32, k: bv8)
    requires k < 32
    ensures Bit(AndNotWord(w, m), k) <==> Bit(w, k) && !Bit(m, k)
  {
    hide Bit, OrWord, AndNotWord;
    RawAndNot(w, m, k);
    WordOps(w, m);
  }

  lemma WordBits(w: bv32, n: bv8, k: bv8)
    requires n < 32 && k < 32
    ensures Bit(OrWord(w, WordMask(n)), k) <==> k == n || Bit(w, k)
    ensures Bit(AndNotWord(w, WordMask(n)), k) <==> k != n && Bit(w, k)
  {
    hide Bit, OrWord, AndNotWord, WordMask;
    BitOfMask(n, k);
    BitOfOr(w, WordMask(n), k);
    BitOfAndNot(w, WordMask(n), k);
  }

  lemma ByteBitOfMask(n: bv8, k: bv8)
    requires n < 8 && k < 8
    ensures ByteBit(ByteMask(n), k) <==> n == k
  {
  }

  lemma ByteBitOfOr(w: bv8, m: bv8, k: bv8)
    requires k < 8
    ensures ByteBit(OrByte(w, m), k) <==> ByteBit(w, k) || ByteBit(m, k)
  {
  }

  lemma ByteBitOfAndNot(w: bv8, m: bv8, k: bv8)
    requires k < 8
    ensures ByteBit(AndNotByte(w, m), k) <==> ByteBit(w, k) && !ByteBit(m, k)
  {
  }

  lemma ByteZero(w: bv8, m: bv8, k: bv8)
    requires k < 8
    ensures ByteBit(w, k) ==> w != 0
    ensures AndNotByte(w, m) != 0 ==> w != 0
  {
  }

  lemma ByteBits(w: bv8, n: bv8, k: bv8)
    requires n < 8 && k < 8
    ensures ByteBit(OrByte(w, ByteMask(n)), k) <==> k == n || ByteBit(w, k)
    ensures ByteBit(AndNotByte(w, ByteMask(n)), k) <==> k != n && ByteBit(w, k)
    ensures AndNotByte(w, ByteMask(n)) != 0 ==> w != 0
    ensures OrByte(w, ByteMask(n)) != 0 && (ByteBit(w, k) ==> w != 0)
  {
    hide ByteBit, OrByte, AndNotByte, ByteMask;
    ByteBitOfMask(n, k);
    ByteBitOfMask(n, n);
    ByteBitOfOr(w, ByteMask(n), k);
    ByteBitOfOr(w, ByteMask(n), n);
    ByteBitOfAndNot(w, ByteMask(n), k);
    ByteZero(w, ByteMask(n), k);
    ByteZero(OrByte(w, ByteMask(n)), ByteMask(n), n);
  }
}
