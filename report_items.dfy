/** The short-item encoding of HID report descriptors (section 6.2.2.2 of HID
    1.11): one prefix byte holding bTag (bits 7..4), bType (bits 3..2) and bSize
    (bits 1..0, standing for 0, 1, 2 or 4 data bytes), followed by the data bytes.
    The prefix 0xFE introduces a long item (section 6.2.2.3), which this grammar
    does not cover. */
module HidReportItems {
  import opened UsbTypes

  datatype ItemType = Main | Global | Local | Reserved

  /** A short item: its type, its 4-bit tag and its data bytes. */
  datatype Item = Item(bType: ItemType, bTag: nat, data: seq<byte>)

  const LONG_ITEM_PREFIX: byte := 0xFE

  // Main item tags (section 6.2.2.4 of HID 1.11).
  const TAG_INPUT: nat := 0x8
  const TAG_COLLECTION: nat := 0xA
  const TAG_FEATURE: nat := 0xB
  const TAG_END_COLLECTION: nat := 0xC
  // Global item tags (section 6.2.2.7).
  const TAG_USAGE_PAGE: nat := 0x0
  const TAG_LOGICAL_MINIMUM: nat := 0x1
  const TAG_LOGICAL_MAXIMUM: nat := 0x2
  const TAG_REPORT_SIZE: nat := 0x7
  const TAG_REPORT_ID: nat := 0x8
  const TAG_REPORT_COUNT: nat := 0x9
  // Local item tags (section 6.2.2.8).
  const TAG_USAGE: nat := 0x0
  const TAG_USAGE_MINIMUM: nat := 0x1
  const TAG_USAGE_MAXIMUM: nat := 0x2

  function TypeCode(t: ItemType): (c: nat)
    ensures c < 4
  {
    match t
    case Main => 0
    case Global => 1
    case Local => 2
    case Reserved => 3
  }

  function TypeOfCode(c: nat): (t: ItemType)
    requires c < 4
  {
    if c == 0 then Main else if c == 1 then Global else if c == 2 then Local else Reserved
  }

  /** The number of data bytes that a bSize code stands for. */
  function DataSize(code: nat): (n: nat)
    requires code < 4
  {
    if code == 3 then 4 else code
  }

  /** The bSize code for a data length of 0, 1, 2 or 4 bytes. */
  function SizeCode(n: nat): (c: nat)
    ensures c < 4
  {
    if n == 4 then 3 else n % 4
  }

  /** An item the short encoding can carry, and which is not the long-item marker. */
  predicate WellFormed(it: Item)
  {
    && it.bTag < 16
    && |it.data| in {0, 1, 2, 4}
    && !(it.bTag == 15 && it.bType == Reserved && |it.data| == 2)
  }

  predicate AllWellFormed(items: seq<Item>)
  {
    forall i :: 0 <= i < |items| ==> WellFormed(items[i])
  }

  /** The prefix byte; only the low four bits of bTag fit, and only well-formed
      items are encoded faithfully. */
  function Prefix(it: Item): (b: byte)
  {
    it.bTag % 16 * 16 + TypeCode(it.bType) * 4 + SizeCode(|it.data|)
  }

  function EncodeItem(it: Item): (bytes: seq<byte>)
  {
    [Prefix(it)] + it.data
  }

  function EncodeItems(items: seq<Item>): (bytes: seq<byte>)
  {
    if items == [] then [] else EncodeItem(items[0]) + EncodeItems(items[1..])
  }

  /** Reads the item that starts at the first byte of `s`, if `s` holds a whole
      short item there. */
  function DecodeItem(s: seq<byte>): (r: Option<(Item, nat)>)
    ensures r.Some? ==> 0 < r.value.1 <= |s| && WellFormed(r.value.0)
    ensures r.Some? ==> s[..r.value.1] == EncodeItem(r.value.0)
  {
    if s == [] || s[0] == LONG_ITEM_PREFIX then None
    else
      var p := s[0];
      var n := DataSize(p % 4);
      if 1 + n > |s| then None
      else
        var it := Item(TypeOfCode(p / 4 % 4), p / 16, s[1..1 + n]);
        PrefixOfDecoded(p, s[1..1 + n]);
        Some((it, 1 + n))
  }

  /** Splits a byte string into short items; None when it ends inside an item or
      holds a long item. */
  function DecodeItems(s: seq<byte>): (r: Option<seq<Item>>)
    decreases |s|
    ensures r.Some? ==> AllWellFormed(r.value)
  {
    if s == [] then Some([])
    else
      match DecodeItem(s)
      case None => None
      case Some((it, n)) =>
        match DecodeItems(s[n..])
        case None => None
        case Some(rest) => Some([it] + rest)
  }

  /** Splitting hi * 4 + lo and hi * 16 + lo by division and remainder. */
  lemma DivModSplit4(hi: nat, lo: nat)
    requires lo < 4
    ensures (hi * 4 + lo) / 4 == hi && (hi * 4 + lo) % 4 == lo
  {
  }

  lemma DivModSplit16(hi: nat, lo: nat)
    requires lo < 16
    ensures (hi * 16 + lo) / 16 == hi && (hi * 16 + lo) % 16 == lo
  {
  }

  /** The prefix byte determines the type, tag and size of the item. */
  lemma PrefixDecodes(it: Item)
    requires WellFormed(it)
    ensures Prefix(it) != LONG_ITEM_PREFIX
    ensures Prefix(it) / 16 == it.bTag
    ensures TypeOfCode(Prefix(it) / 4 % 4) == it.bType
    ensures DataSize(Prefix(it) % 4) == |it.data|
  {
    var t, c := TypeCode(it.bType), SizeCode(|it.data|);
    DivModSplit16(it.bTag, t * 4 + c);
    DivModSplit4(it.bTag * 4 + t, c);
    assert Prefix(it) == (it.bTag * 4 + t) * 4 + c;
    DivModSplit4(it.bTag, t);
  }

  /** The item a prefix byte other than the long-item marker announces, with
      data of the length it announces, is well formed and has that prefix. */
  lemma PrefixOfDecoded(p: byte, data: seq<byte>)
    requires p != LONG_ITEM_PREFIX && |data| == DataSize(p % 4)
    ensures WellFormed(Item(TypeOfCode(p / 4 % 4), p / 16, data))
    ensures Prefix(Item(TypeOfCode(p / 4 % 4), p / 16, data)) == p
  {
    var it := Item(TypeOfCode(p / 4 % 4), p / 16, data);
    assert TypeCode(it.bType) == p / 4 % 4;
    assert SizeCode(|data|) == p % 4;
    assert p == (p / 16 * 4 + p / 4 % 4) * 4 + p % 4;
  }

  /** Decoding an encoded item gives it back, with the number of bytes it takes. */
  lemma DecodeEncodeItem(it: Item, rest: seq<byte>)
    requires WellFormed(it)
    ensures DecodeItem(EncodeItem(it) + rest) == Some((it, |EncodeItem(it)|))
  {
    PrefixDecodes(it);
    var s := EncodeItem(it) + rest;
    assert s[0] == Prefix(it);
    assert s[1..1 + |it.data|] == it.data;
  }

  /** Round trip: decoding the encoding of well-formed items gives the items back. */
  lemma {:induction false} DecodeEncode(items: seq<Item>)
    requires AllWellFormed(items)
    ensures DecodeItems(EncodeItems(items)) == Some(items)
  {
    if items != [] {
      var head := EncodeItem(items[0]);
      var tail := EncodeItems(items[1..]);
      DecodeEncodeItem(items[0], tail);
      assert (head + tail)[|head|..] == tail;
      DecodeEncode(items[1..]);
      assert [items[0]] + items[1..] == items;
    }
  }

  /** The other direction: whatever the decoder accepts is exactly the encoding of
      the items it returns, so the decoder and the encoder are inverse. */
  lemma {:induction false} EncodeDecode(s: seq<byte>)
    requires DecodeItems(s).Some?
    ensures EncodeItems(DecodeItems(s).value) == s
    decreases |s|
  {
    if s != [] {
      var (it, n) := DecodeItem(s).value;
      EncodeDecode(s[n..]);
      var items := DecodeItems(s).value;
      assert items[0] == it && items[1..] == DecodeItems(s[n..]).value;
      assert s == s[..n] + s[n..];
    }
  }

  lemma {:induction false} EncodeAppend(a: seq<Item>, b: seq<Item>)
    ensures EncodeItems(a + b) == EncodeItems(a) + EncodeItems(b)
  {
    if a != [] {
      assert (a + b)[1..] == a[1..] + b;
      EncodeAppend(a[1..], b);
    } else {
      assert a + b == b;
    }
  }

  lemma {:induction false} WellFormedAppend(a: seq<Item>, b: seq<Item>)
    requires AllWellFormed(a) && AllWellFormed(b)
    ensures AllWellFormed(a + b)
  {
  }

  /** Collection nesting depth after the items, or -1 once an End Collection has
      no open Collection. */
  function Depth(items: seq<Item>, open: nat): (depth: int)
  {
    if items == [] then open
    else if items[0].bType == Main && items[0].bTag == TAG_COLLECTION then Depth(items[1..], open + 1)
    else if items[0].bType == Main && items[0].bTag == TAG_END_COLLECTION then
      if open == 0 then -1 else Depth(items[1..], open - 1)
    else Depth(items[1..], open)
  }

  /** Every Collection item is closed by an End Collection item, and none is closed twice. */
  predicate Balanced(items: seq<Item>)
  {
    Depth(items, 0) == 0
  }

  /** Depth over a concatenation: the second part starts at the depth the first
      part ends at, as long as the first part never closed a collection too many. */
  lemma {:induction false} DepthAppend(a: seq<Item>, b: seq<Item>, open: nat)
    requires Depth(a, open) >= 0
    ensures Depth(a + b, open) == Depth(b, Depth(a, open))
  {
    if a == [] {
      assert a + b == b;
    } else {
      assert (a + b)[0] == a[0];
      assert (a + b)[1..] == a[1..] + b;
      if a[0].bType == Main && a[0].bTag == TAG_COLLECTION {
        DepthAppend(a[1..], b, open + 1);
      } else if a[0].bType == Main && a[0].bTag == TAG_END_COLLECTION {
        DepthAppend(a[1..], b, open - 1);
      } else {
        DepthAppend(a[1..], b, open);
      }
    }
  }
}
