/** The ready bitmap of scheduler.c: one 32-bit word for up to 32 priorities, or a word over a
    table of 32 bytes for up to 256, with the decode step __rt_ffs of kservice.c. */
module ReadyBitmap {
  import opened MachineWords

  type Prio = bv8

  /** An index of rt_thread_ready_table. */
  datatype Index = At(number: bv8)

  /** rt_thread_ready_priority_group and rt_thread_ready_table. */
  datatype Bits = Bits(group: bv32, table: map<Index, bv8>)

  /** One row of __lowest_bit_bitmap; all sixteen rows agree but for their first entries. */
  function LowestInRow(column: bv8): bv8 {
    match column
    case 1 => 0 case 2 => 1 case 3 => 0 case 4 => 2 case 5 => 0 case 6 => 1 case 7 => 0 case 8 => 3
    case 9 => 0 case 10 => 1 case 11 => 0 case 12 => 2 case 13 => 0 case 14 => 1 case 15 => 0
    case _ => 0
  }

  function FirstOfRow(row: bv8): bv8 {
    match row
    case 1 => 4 case 2 => 5 case 3 => 4 case 4 => 6 case 5 => 4 case 6 => 5 case 7 => 4 case 8 => 7
    case 9 => 4 case 10 => 5 case 11 => 4 case 12 => 6 case 13 => 4 case 14 => 5 case 15 => 4
    case _ => 0
  }

  /** __lowest_bit_bitmap[b]. */
  function LowestBit(b: bv8): bv8 {
    if b & 15 == 0 then FirstOfRow(b >> 4) else LowestInRow(b & 15)
  }

  lemma LowestBitIs(b: bv8, k: bv8)
    requires k < 8
    ensures LowestBit(b) < 8
    ensures b != 0 ==> ByteBit(b, LowestBit(b))
    ensures ByteBit(b, k) ==> LowestBit(b) <= k
  {
  }

  /** __rt_ffs. */
  function Ffs(value: bv32): bv8 {
    if value == 0 then 0
    else if value & 0xff != 0 then LowestBit((value & 0xff) as bv8) + 1
    else if value & 0xff00 != 0 then LowestBit(((value & 0xff00) >> 8) as bv8) + 9
    else if value & 0xff0000 != 0 then LowestBit(((value & 0xff0000) >> 16) as bv8) + 17
    else LowestBit(((value & 0xff000000) >> 24) as bv8) + 25
  }

  lemma FfsIs(w: bv32, k: bv8)
    requires k < 32
    ensures Ffs(w) <= 32 && (Ffs(w) == 0 <==> w == 0)
    ensures w != 0 ==> Bit(w, Ffs(w) - 1)
    ensures Bit(w, k) ==> w != 0 && Ffs(w) - 1 <= k
  {
  }

  // Single operations, named so that proofs about the bitmap need not look inside them
  function Row(p: Prio): bv8 { p >> 3 }
  function Column(p: Prio): bv8 { p & 7 }
  /** (number << 3) + __rt_ffs(byte) - 1 */
  function Decoded(number: bv8, byte: bv8): Prio { (number << 3) + Ffs(byte as bv32) - 1 }

  /** The priority attributes of a thread: number, number_mask, high_mask. */
  datatype Attr = Attr(number: bv8, numberMask: bv32, highMask: bv8)

  /** Does the priority exist? RT_THREAD_PRIORITY_MAX > 32 selects the two-level bitmap. */
  predicate Known(wide: bool, p: Prio) { wide || p < 32 }

  /** The attributes as rt_thread_startup and rt_thread_control calculate them. */
  function AttrOf(wide: bool, p: Prio): Attr
    requires Known(wide, p)
  {
    SplitPrio(p, p);
    if wide then Attr(Row(p), WordMask(Row(p)), ByteMask(Column(p)))
    else Attr(0, WordMask(p), 0)
  }

  ghost predicate Whole(wide: bool, b: Bits) {
    forall n: bv8 :: wide && n < 32 ==> At(n) in b.table && (Bit(b.group, n) <==> b.table[At(n)] != 0)
  }

  ghost predicate Has(wide: bool, b: Bits, p: Prio)
    requires Known(wide, p)
  {
    SplitPrio(p, p);
    if wide then At(Row(p)) in b.table && ByteBit(b.table[At(Row(p))], Column(p)) else Bit(b.group, p)
  }

  function Byte(b: Bits, number: bv8): bv8 { if At(number) in b.table then b.table[At(number)] else 0 }

  /** The masking at the end of rt_schedule_insert_thread. */
  function Mark(wide: bool, b: Bits, a: Attr): Bits {
    Bits(OrWord(b.group, a.numberMask),
         if wide then b.table[At(a.number) := OrByte(Byte(b, a.number), a.highMask)] else b.table)
  }

  /** The masking at the end of rt_schedule_remove_thread. */
  function Unmark(wide: bool, b: Bits, a: Attr): Bits {
    if wide then
      var byte := AndNotByte(Byte(b, a.number), a.highMask);
      Bits(if byte == 0 then AndNotWord(b.group, a.numberMask) else b.group, b.table[At(a.number) := byte])
    else
      Bits(AndNotWord(b.group, a.numberMask), b.table)
  }

  lemma SplitPrio(p: Prio, q: Prio)
    ensures Row(p) < 32 && Column(p) < 8
    ensures Row(p) == Row(q) && Column(p) == Column(q) ==> p == q
    ensures Row(p) < Row(q) || (Row(p) == Row(q) && Column(p) <= Column(q)) ==> p <= q
  {
  }

  lemma MarkWhole(wide: bool, b: Bits, p: Prio)
    requires Known(wide, p) && Whole(wide, b)
    ensures Whole(wide, Mark(wide, b, AttrOf(wide, p)))
    ensures Whole(wide, Unmark(wide, b, AttrOf(wide, p)))
  {
    hide Bit, ByteBit, Row, Column, WordMask, ByteMask, OrWord, OrByte, AndNotWord, AndNotByte;
    SplitPrio(p, p);
    if wide {
      var a := AttrOf(wide, p);
      ByteBits(b.table[At(a.number)], Column(p), 0);
      var m, u := Mark(wide, b, a), Unmark(wide, b, a);
      forall n: bv8 | n < 32
        ensures Bit(m.group, n) <==> m.table[At(n)] != 0
        ensures Bit(u.group, n) <==> u.table[At(n)] != 0
      {
        WordBits(b.group, a.number, n);
      }
    }
  }

  /** Marking adds, and unmarking takes away, exactly the priority the attributes stand for. */
  lemma MarkHas(wide: bool, b: Bits, p: Prio, q: Prio)
    requires Known(wide, p) && Known(wide, q) && Whole(wide, b)
    ensures Has(wide, Mark(wide, b, AttrOf(wide, p)), q) <==> q == p || Has(wide, b, q)
    ensures Has(wide, Unmark(wide, b, AttrOf(wide, p)), q) <==> q != p && Has(wide, b, q)
  {
    hide Bit, ByteBit, Row, Column, WordMask, ByteMask, OrWord, OrByte, AndNotWord, AndNotByte;
    SplitPrio(p, q);
    SplitPrio(q, p);
    if wide {
      ByteBits(b.table[At(Row(p))], Column(p), Column(q));
    } else {
      WordBits(b.group, p, q);
    }
  }

  function First(w: bv32): bv8 { Ffs(w) - 1 }

  lemma FirstIs(w: bv32, k: bv8)
    requires k < 32
    ensures w != 0 ==> First(w) < 32 && Bit(w, First(w))
    ensures Bit(w, k) ==> w != 0 && First(w) <= k
  {
    hide Bit;
    FfsIs(w, k);
  }

  /** The number _get_highest_priority_thread calculates. */
  function Highest(wide: bool, b: Bits): Prio {
    if wide then Decoded(First(b.group), Byte(b, First(b.group))) else First(b.group)
  }

  lemma DecodedIs(w: bv8, number: bv8, k: bv8)
    requires w != 0 && number < 32 && k < 8
    ensures var h := Decoded(number, w);
      Row(h) == number && Column(h) < 8 && ByteBit(w, Column(h)) && (ByteBit(w, k) ==> Column(h) <= k)
  {
    var f := Ffs(w as bv32) - 1;
    assert w as bv32 & 0xff == w as bv32 && ((w as bv32 & 0xff) as bv8) == w;
    LowestBitIs(w, k);
    assert f == LowestBit(w);
    hide Ffs;
    assert ((number << 3) + f) >> 3 == number && ((number << 3) + f) & 7 == f;
  }

  /** The group word is zero exactly when no priority is marked; otherwise the decode step finds
      the most urgent marked one. */
  lemma HighestIs(wide: bool, b: Bits, q: Prio)
    requires Whole(wide, b) && Known(wide, q)
    ensures b.group != 0 ==> Known(wide, Highest(wide, b)) && Has(wide, b, Highest(wide, b))
    ensures Has(wide, b, q) ==> b.group != 0 && Highest(wide, b) <= q
  {
    hide Bit, ByteBit, Row, Column, Decoded, First;
    SplitPrio(q, q);
    FirstIs(b.group, if wide then Row(q) else q);
    if wide && Has(wide, b, q) {
      ByteBits(b.table[At(Row(q))], 0, Column(q));
    }
    if wide && b.group != 0 {
      WideHighest(b, q);
    }
  }

  lemma WideHighest(b: Bits, q: Prio)
    requires Whole(true, b) && b.group != 0
    ensures Has(true, b, Highest(true, b))
    ensures Has(true, b, q) ==> Highest(true, b) <= q
  {
    hide Bit, ByteBit, Row, Column, Decoded, First;
    SplitPrio(q, q);
    FirstIs(b.group, Row(q));
    var n := First(b.group);
    DecodedIs(b.table[At(n)], n, Column(q));
    if Has(true, b, q) {
      ByteBits(b.table[At(Row(q))], 0, Column(q));
      RowsLess(n, Highest(true, b), q);
    }
  }

  lemma RowsLess(n: bv8, h: Prio, q: Prio)
    requires Row(h) == n && n <= Row(q) && (Row(q) == n ==> Column(h) <= Column(q))
    ensures h <= q
  {
    SplitPrio(h, q);
  }

  lemma OrSame(w: bv32, n: bv8, byte: bv8, k: bv8)
    requires n < 32 && k < 8
    ensures Bit(w, n) ==> OrWord(w, WordMask(n)) == w
    ensures ByteBit(byte, k) ==> OrByte(byte, ByteMask(k)) == byte && byte != 0
  {
  }

  lemma AndNotSame(w: bv32, n: bv8, byte: bv8, k: bv8)
    requires n < 32 && k < 8
    ensures !Bit(w, n) ==> AndNotWord(w, WordMask(n)) == w
    ensures !ByteBit(byte, k) ==> AndNotByte(byte, ByteMask(k)) == byte
  {
  }

  /** Unmarking a priority that is not marked changes nothing. */
  lemma UnmarkSame(wide: bool, b: Bits, p: Prio)
    requires Known(wide, p) && Whole(wide, b) && !Has(wide, b, p)
    ensures Unmark(wide, b, AttrOf(wide, p)) == b
  {
    hide Bit, ByteBit, Row, Column, WordMask, ByteMask, AndNotWord, AndNotByte;
    SplitPrio(p, p);
    if wide {
      AndNotSame(b.group, Row(p), b.table[At(Row(p))], Column(p));
    } else {
      AndNotSame(b.group, p, 0, 0);
    }
  }

  /** Marking a priority already marked changes nothing. */
  lemma MarkSame(wide: bool, b: Bits, p: Prio)
    requires Known(wide, p) && Whole(wide, b) && Has(wide, b, p)
    ensures Mark(wide, b, AttrOf(wide, p)) == b
  {
    hide Bit, ByteBit, Row, Column, WordMask, ByteMask, OrWord, OrByte;
    SplitPrio(p, p);
    if wide {
      OrSame(b.group, Row(p), b.table[At(Row(p))], Column(p));
    } else {
      OrSame(b.group, p, 0, 0);
    }
  }
}
