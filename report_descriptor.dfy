/** HID_MOUSE_ReportDesc, the report descriptor of a keyboard, consumer-control,
    system-control and vendor device with report IDs 1 to 5, written as the items
    its per-byte annotations name. The table is laid out in pieces of at most five
    items; each piece is given both as items and as the bytes of
    HID_MOUSE_ReportDesc, and the two are proved to agree piece by piece, so
    that each proof stays a small computation on literals. */
module HidReportDescriptor {
  import opened UsbTypes
  import opened HidDefs
  import opened HidReportItems

  // One constructor per item kind that the report descriptor uses, named after
  // the bTag of its prefix.
  function UsagePage(d: seq<byte>): (it: Item) { Item(Global, TAG_USAGE_PAGE, d) }
  function LogicalMinimum(d: seq<byte>): (it: Item) { Item(Global, TAG_LOGICAL_MINIMUM, d) }
  function LogicalMaximum(d: seq<byte>): (it: Item) { Item(Global, TAG_LOGICAL_MAXIMUM, d) }
  function ReportSize(d: seq<byte>): (it: Item) { Item(Global, TAG_REPORT_SIZE, d) }
  function ReportId(d: seq<byte>): (it: Item) { Item(Global, TAG_REPORT_ID, d) }
  function ReportCount(d: seq<byte>): (it: Item) { Item(Global, TAG_REPORT_COUNT, d) }
  function Usage(d: seq<byte>): (it: Item) { Item(Local, TAG_USAGE, d) }
  function UsageMinimum(d: seq<byte>): (it: Item) { Item(Local, TAG_USAGE_MINIMUM, d) }
  function UsageMaximum(d: seq<byte>): (it: Item) { Item(Local, TAG_USAGE_MAXIMUM, d) }
  function Input(d: seq<byte>): (it: Item) { Item(Main, TAG_INPUT, d) }
  function Feature(d: seq<byte>): (it: Item) { Item(Main, TAG_FEATURE, d) }
  function Collection(d: seq<byte>): (it: Item) { Item(Main, TAG_COLLECTION, d) }
  function EndCollection(): (it: Item) { Item(Main, TAG_END_COLLECTION, []) }

  // keyboard, report ID 1
  const Keyboard1: seq<Item> := [UsagePage([0x01]), Usage([0x06]), Collection([0x01]), ReportId([0x01]), UsagePage([0x07])]
  const Keyboard1Bytes: seq<byte> := [0x05, 0x01, 0x09, 0x06, 0xA1, 0x01, 0x85, 0x01, 0x05, 0x07]
  lemma Keyboard1Encodes() ensures EncodeItems(Keyboard1) == Keyboard1Bytes {}
  lemma Keyboard1Shape() ensures AllWellFormed(Keyboard1) && Depth(Keyboard1, 0) == 1 {}
  const Keyboard2: seq<Item> := [UsageMinimum([0xE0]), UsageMaximum([0xE7]), LogicalMinimum([0x00]), LogicalMaximum([0x01]), ReportSize([0x01])]
  const Keyboard2Bytes: seq<byte> := [0x19, 0xE0, 0x29, 0xE7, 0x15, 0x00, 0x25, 0x01, 0x75, 0x01]
  lemma Keyboard2Encodes() ensures EncodeItems(Keyboard2) == Keyboard2Bytes {}
  lemma Keyboard2Shape() ensures AllWellFormed(Keyboard2) && Depth(Keyboard2, 1) == 1 {}
  const Keyboard3: seq<Item> := [ReportCount([0x08]), Input([0x02]), ReportSize([0x08]), ReportCount([0x01]), Input([0x01])]
  const Keyboard3Bytes: seq<byte> := [0x95, 0x08, 0x81, 0x02, 0x75, 0x08, 0x95, 0x01, 0x81, 0x01]
  lemma Keyboard3Encodes() ensures EncodeItems(Keyboard3) == Keyboard3Bytes {}
  lemma Keyboard3Shape() ensures AllWellFormed(Keyboard3) && Depth(Keyboard3, 1) == 1 {}
  const Keyboard4: seq<Item> := [UsagePage([0x07]), UsageMinimum([0x00]), UsageMaximum([0x65]), LogicalMinimum([0x00]), LogicalMaximum([0x65])]
  const Keyboard4Bytes: seq<byte> := [0x05, 0x07, 0x19, 0x00, 0x29, 0x65, 0x15, 0x00, 0x25, 0x65]
  lemma Keyboard4Encodes() ensures EncodeItems(Keyboard4) == Keyboard4Bytes {}
  lemma Keyboard4Shape() ensures AllWellFormed(Keyboard4) && Depth(Keyboard4, 1) == 1 {}
  const Keyboard5: seq<Item> := [ReportSize([0x08]), ReportCount([0x05]), Input([0x00]), EndCollection()]
  const Keyboard5Bytes: seq<byte> := [0x75, 0x08, 0x95, 0x05, 0x81, 0x00, 0xC0]
  lemma Keyboard5Encodes() ensures EncodeItems(Keyboard5) == Keyboard5Bytes {}
  lemma Keyboard5Shape() ensures AllWellFormed(Keyboard5) && Depth(Keyboard5, 1) == 0 {}

  // consumer control, report ID 2
  const Consumer1: seq<Item> := [UsagePage([0x0C]), Usage([0x01]), Collection([0x01]), ReportId([0x02])]
  const Consumer1Bytes: seq<byte> := [0x05, 0x0C, 0x09, 0x01, 0xA1, 0x01, 0x85, 0x02]
  lemma Consumer1Encodes() ensures EncodeItems(Consumer1) == Consumer1Bytes {}
  lemma Consumer1Shape() ensures AllWellFormed(Consumer1) && Depth(Consumer1, 0) == 1 {}
  const Consumer2: seq<Item> := [UsageMinimum([0x00]), UsageMaximum([0x3C, 0x02]), LogicalMinimum([0x00]), LogicalMaximum([0x3C, 0x02])]
  const Consumer2Bytes: seq<byte> := [0x19, 0x00, 0x2A, 0x3C, 0x02, 0x15, 0x00, 0x26, 0x3C, 0x02]
  lemma Consumer2Encodes() ensures EncodeItems(Consumer2) == Consumer2Bytes {}
  lemma Consumer2Shape() ensures AllWellFormed(Consumer2) && Depth(Consumer2, 1) == 1 {}
  const Consumer3: seq<Item> := [ReportCount([0x01]), ReportSize([0x10]), Input([0x00]), EndCollection()]
  const Consumer3Bytes: seq<byte> := [0x95, 0x01, 0x75, 0x10, 0x81, 0x00, 0xC0]
  lemma Consumer3Encodes() ensures EncodeItems(Consumer3) == Consumer3Bytes {}
  lemma Consumer3Shape() ensures AllWellFormed(Consumer3) && Depth(Consumer3, 1) == 0 {}

  // system control, report ID 3
  const System1: seq<Item> := [UsagePage([0x01]), Usage([0x80]), Collection([0x01]), ReportId([0x03]), UsageMinimum([0x81])]
  const System1Bytes: seq<byte> := [0x05, 0x01, 0x09, 0x80, 0xA1, 0x01, 0x85, 0x03, 0x19, 0x81]
  lemma System1Encodes() ensures EncodeItems(System1) == System1Bytes {}
  lemma System1Shape() ensures AllWellFormed(System1) && Depth(System1, 0) == 1 {}
  const System2: seq<Item> := [UsageMaximum([0x83]), LogicalMinimum([0x00]), LogicalMaximum([0x01]), ReportSize([0x01]), ReportCount([0x03])]
  const System2Bytes: seq<byte> := [0x29, 0x83, 0x15, 0x00, 0x25, 0x01, 0x75, 0x01, 0x95, 0x03]
  lemma System2Encodes() ensures EncodeItems(System2) == System2Bytes {}
  lemma System2Shape() ensures AllWellFormed(System2) && Depth(System2, 1) == 1 {}
  const System3: seq<Item> := [Input([0x02]), ReportCount([0x05]), Input([0x01]), EndCollection()]
  const System3Bytes: seq<byte> := [0x81, 0x02, 0x95, 0x05, 0x81, 0x01, 0xC0]
  lemma System3Encodes() ensures EncodeItems(System3) == System3Bytes {}
  lemma System3Shape() ensures AllWellFormed(System3) && Depth(System3, 1) == 0 {}

  // vendor page 0xFF01, report ID 4
  const VendorA1: seq<Item> := [UsagePage([0x01, 0xFF]), Usage([0x01]), Collection([0x01]), ReportId([0x04]), ReportCount([0x01])]
  const VendorA1Bytes: seq<byte> := [0x06, 0x01, 0xFF, 0x09, 0x01, 0xA1, 0x01, 0x85, 0x04, 0x95, 0x01]
  lemma VendorA1Encodes() ensures EncodeItems(VendorA1) == VendorA1Bytes {}
  lemma VendorA1Shape() ensures AllWellFormed(VendorA1) && Depth(VendorA1, 0) == 1 {}
  const VendorA2: seq<Item> := [ReportSize([0x08]), LogicalMinimum([0x01]), LogicalMaximum([0x0A]), Usage([0x20]), Feature([0x03])]
  const VendorA2Bytes: seq<byte> := [0x75, 0x08, 0x15, 0x01, 0x25, 0x0A, 0x09, 0x20, 0xB1, 0x03]
  lemma VendorA2Encodes() ensures EncodeItems(VendorA2) == VendorA2Bytes {}
  lemma VendorA2Shape() ensures AllWellFormed(VendorA2) && Depth(VendorA2, 1) == 1 {}
  const VendorA3: seq<Item> := [Usage([0x23]), Feature([0x03]), LogicalMaximum([0x4F]), Usage([0x21])]
  const VendorA3Bytes: seq<byte> := [0x09, 0x23, 0xB1, 0x03, 0x25, 0x4F, 0x09, 0x21]
  lemma VendorA3Encodes() ensures EncodeItems(VendorA3) == VendorA3Bytes {}
  lemma VendorA3Shape() ensures AllWellFormed(VendorA3) && Depth(VendorA3, 1) == 1 {}
  const VendorA4: seq<Item> := [Feature([0x03]), LogicalMaximum([0x30]), Usage([0x22]), Feature([0x03])]
  const VendorA4Bytes: seq<byte> := [0xB1, 0x03, 0x25, 0x30, 0x09, 0x22, 0xB1, 0x03]
  lemma VendorA4Encodes() ensures EncodeItems(VendorA4) == VendorA4Bytes {}
  lemma VendorA4Shape() ensures AllWellFormed(VendorA4) && Depth(VendorA4, 1) == 1 {}
  const VendorA5: seq<Item> := [ReportCount([0x03]), Usage([0x24]), Feature([0x03]), EndCollection()]
  const VendorA5Bytes: seq<byte> := [0x95, 0x03, 0x09, 0x24, 0xB1, 0x03, 0xC0]
  lemma VendorA5Encodes() ensures EncodeItems(VendorA5) == VendorA5Bytes {}
  lemma VendorA5Shape() ensures AllWellFormed(VendorA5) && Depth(VendorA5, 1) == 0 {}

  // vendor page 0xFF01, report ID 5
  const VendorB1: seq<Item> := [UsagePage([0x01, 0xFF]), Usage([0x01]), Collection([0x01]), ReportId([0x05]), ReportCount([0x01])]
  const VendorB1Bytes: seq<byte> := [0x06, 0x01, 0xFF, 0x09, 0x01, 0xA1, 0x01, 0x85, 0x05, 0x95, 0x01]
  lemma VendorB1Encodes() ensures EncodeItems(VendorB1) == VendorB1Bytes {}
  lemma VendorB1Shape() ensures AllWellFormed(VendorB1) && Depth(VendorB1, 0) == 1 {}
  const VendorB2: seq<Item> := [ReportSize([0x08]), LogicalMinimum([0x01]), LogicalMaximum([0x0A]), Usage([0x20]), Feature([0x03])]
  const VendorB2Bytes: seq<byte> := [0x75, 0x08, 0x15, 0x01, 0x25, 0x0A, 0x09, 0x20, 0xB1, 0x03]
  lemma VendorB2Encodes() ensures EncodeItems(VendorB2) == VendorB2Bytes {}
  lemma VendorB2Shape() ensures AllWellFormed(VendorB2) && Depth(VendorB2, 1) == 1 {}
  const VendorB3: seq<Item> := [Usage([0x23]), Feature([0x03]), LogicalMaximum([0x4F]), Usage([0x21])]
  const VendorB3Bytes: seq<byte> := [0x09, 0x23, 0xB1, 0x03, 0x25, 0x4F, 0x09, 0x21]
  lemma VendorB3Encodes() ensures EncodeItems(VendorB3) == VendorB3Bytes {}
  lemma VendorB3Shape() ensures AllWellFormed(VendorB3) && Depth(VendorB3, 1) == 1 {}
  const VendorB4: seq<Item> := [Feature([0x03]), LogicalMaximum([0x30]), Usage([0x22]), Feature([0x03])]
  const VendorB4Bytes: seq<byte> := [0xB1, 0x03, 0x25, 0x30, 0x09, 0x22, 0xB1, 0x03]
  lemma VendorB4Encodes() ensures EncodeItems(VendorB4) == VendorB4Bytes {}
  lemma VendorB4Shape() ensures AllWellFormed(VendorB4) && Depth(VendorB4, 1) == 1 {}
  const VendorB5: seq<Item> := [ReportCount([0x03]), Usage([0x24]), Feature([0x03]), EndCollection()]
  const VendorB5Bytes: seq<byte> := [0x95, 0x03, 0x09, 0x24, 0xB1, 0x03, 0xC0]
  lemma VendorB5Encodes() ensures EncodeItems(VendorB5) == VendorB5Bytes {}
  lemma VendorB5Shape() ensures AllWellFormed(VendorB5) && Depth(VendorB5, 1) == 0 {}
  /** HID_MOUSE_ReportDesc: the bytes of the table in order. */
  const ReportDescTable: seq<byte> :=
    Keyboard1Bytes +
    Keyboard2Bytes +
    Keyboard3Bytes +
    Keyboard4Bytes +
    Keyboard5Bytes +
    Consumer1Bytes +
    Consumer2Bytes +
    Consumer3Bytes +
    System1Bytes +
    System2Bytes +
    System3Bytes +
    VendorA1Bytes +
    VendorA2Bytes +
    VendorA3Bytes +
    VendorA4Bytes +
    VendorA5Bytes +
    VendorB1Bytes +
    VendorB2Bytes +
    VendorB3Bytes +
    VendorB4Bytes +
    VendorB5Bytes

  /** The items of the table in order. */
  const ReportItems: seq<Item> :=
    Keyboard1 +
    Keyboard2 +
    Keyboard3 +
    Keyboard4 +
    Keyboard5 +
    Consumer1 +
    Consumer2 +
    Consumer3 +
    System1 +
    System2 +
    System3 +
    VendorA1 +
    VendorA2 +
    VendorA3 +
    VendorA4 +
    VendorA5 +
    VendorB1 +
    VendorB2 +
    VendorB3 +
    VendorB4 +
    VendorB5

  lemma ReportDescLength()
    ensures |ReportDescTable| == HID_MOUSE_REPORT_DESC_SIZE
  {
  }

  /** The bytes of the table are the encoding of its items. */
  lemma ReportEncodes()
    ensures EncodeItems(ReportItems) == ReportDescTable
  {
    Keyboard1Encodes();
    Keyboard2Encodes();
    Keyboard3Encodes();
    Keyboard4Encodes();
    Keyboard5Encodes();
    Consumer1Encodes();
    Consumer2Encodes();
    Consumer3Encodes();
    System1Encodes();
    System2Encodes();
    System3Encodes();
    VendorA1Encodes();
    VendorA2Encodes();
    VendorA3Encodes();
    VendorA4Encodes();
    VendorA5Encodes();
    VendorB1Encodes();
    VendorB2Encodes();
    VendorB3Encodes();
    VendorB4Encodes();
    VendorB5Encodes();
    EncodeAppend(Keyboard1, Keyboard2);
    EncodeAppend(Keyboard1 + Keyboard2, Keyboard3);
    EncodeAppend(Keyboard1 + Keyboard2 + Keyboard3, Keyboard4);
    EncodeAppend(Keyboard1 + Keyboard2 + Keyboard3 + Keyboard4, Keyboard5);
    EncodeAppend(Keyboard1 + Keyboard2 + Keyboard3 + Keyboard4 + Keyboard5, Consumer1);
    EncodeAppend(Keyboard1 + Keyboard2 + Keyboard3 + Keyboard4 + Keyboard5 + Consumer1, Consumer2);
    EncodeAppend(Keyboard1 + Keyboard2 + Keyboard3 + Keyboard4 + Keyboard5 + Consumer1 + Consumer2, Consumer3);
    EncodeAppend(Keyboard1 + Keyboard2 + Keyboard3 + Keyboard4 + Keyboard5 + Consumer1 + Consumer2 + Consumer3, System1);
    EncodeAppend(Keyboard1 + Keyboard2 + Keyboard3 + Keyboard4 + Keyboard5 + Consumer1 + Consumer2 + Consumer3 + System1, System2);
    EncodeAppend(Keyboard1 + Keyboard2 + Keyboard3 + Keyboard4 + Keyboard5 + Consumer1 + Consumer2 + Consumer3 + System1 + System2, System3);
    EncodeAppend(Keyboard1 + Keyboard2 + Keyboard3 + Keyboard4 + Keyboard5 + Consumer1 + Consumer2 + Consumer3 + System1 + System2 + System3, VendorA1);
    EncodeAppend(Keyboard1 + Keyboard2 + Keyboard3 + Keyboard4 + Keyboard5 + Consumer1 + Consumer2 + Consumer3 + System1 + System2 + System3 + VendorA1, VendorA2);
    EncodeAppend(Keyboard1 + Keyboard2 + Keyboard3 + Keyboard4 + Keyboard5 + Consumer1 + Consumer2 + Consumer3 + System1 + System2 + System3 + VendorA1 + VendorA2, VendorA3);
    EncodeAppend(Keyboard1 + Keyboard2 + Keyboard3 + Keyboard4 + Keyboard5 + Consumer1 + Consumer2 + Consumer3 + System1 + System2 + System3 + VendorA1 + VendorA2 + VendorA3, VendorA4);
    EncodeAppend(Keyboard1 + Keyboard2 + Keyboard3 + Keyboard4 + Keyboard5 + Consumer1 + Consumer2 + Consumer3 + System1 + System2 + System3 + VendorA1 + VendorA2 + VendorA3 + VendorA4, VendorA5);
    EncodeAppend(Keyboard1 + Keyboard2 + Keyboard3 + Keyboard4 + Keyboard5 + Consumer1 + Consumer2 + Consumer3 + System1 + System2 + System3 + VendorA1 + VendorA2 + VendorA3 + VendorA4 + VendorA5, VendorB1);
    EncodeAppend(Keyboard1 + Keyboard2 + Keyboard3 + Keyboard4 + Keyboard5 + Consumer1 + Consumer2 + Consumer3 + System1 + System2 + System3 + VendorA1 + VendorA2 + VendorA3 + VendorA4 + VendorA5 + VendorB1, VendorB2);
    EncodeAppend(Keyboard1 + Keyboard2 + Keyboard3 + Keyboard4 + Keyboard5 + Consumer1 + Consumer2 + Consumer3 + System1 + System2 + System3 + VendorA1 + VendorA2 + VendorA3 + VendorA4 + VendorA5 + VendorB1 + VendorB2, VendorB3);
    EncodeAppend(Keyboard1 + Keyboard2 + Keyboard3 + Keyboard4 + Keyboard5 + Consumer1 + Consumer2 + Consumer3 + System1 + System2 + System3 + VendorA1 + VendorA2 + VendorA3 + VendorA4 + VendorA5 + VendorB1 + VendorB2 + VendorB3, VendorB4);
    EncodeAppend(Keyboard1 + Keyboard2 + Keyboard3 + Keyboard4 + Keyboard5 + Consumer1 + Consumer2 + Consumer3 + System1 + System2 + System3 + VendorA1 + VendorA2 + VendorA3 + VendorA4 + VendorA5 + VendorB1 + VendorB2 + VendorB3 + VendorB4, VendorB5);
  }

  /** Every item of the table has a short encoding, and the collections nest. */
  lemma ReportShape()
    ensures AllWellFormed(ReportItems)
    ensures Balanced(ReportItems)
  {
    Keyboard1Shape();
    Keyboard2Shape();
    Keyboard3Shape();
    Keyboard4Shape();
    Keyboard5Shape();
    Consumer1Shape();
    Consumer2Shape();
    Consumer3Shape();
    System1Shape();
    System2Shape();
    System3Shape();
    VendorA1Shape();
    VendorA2Shape();
    VendorA3Shape();
    VendorA4Shape();
    VendorA5Shape();
    VendorB1Shape();
    VendorB2Shape();
    VendorB3Shape();
    VendorB4Shape();
    VendorB5Shape();
    WellFormedAppend(Keyboard1, Keyboard2);
    DepthAppend(Keyboard1, Keyboard2, 0);
    WellFormedAppend(Keyboard1 + Keyboard2, Keyboard3);
    DepthAppend(Keyboard1 + Keyboard2, Keyboard3, 0);
    WellFormedAppend(Keyboard1 + Keyboard2 + Keyboard3, Keyboard4);
    DepthAppend(Keyboard1 + Keyboard2 + Keyboard3, Keyboard4, 0);
    WellFormedAppend(Keyboard1 + Keyboard2 + Keyboard3 + Keyboard4, Keyboard5);
    DepthAppend(Keyboard1 + Keyboard2 + Keyboard3 + Keyboard4, Keyboard5, 0);
    WellFormedAppend(Keyboard1 + Keyboard2 + Keyboard3 + Keyboard4 + Keyboard5, Consumer1);
    DepthAppend(Keyboard1 + Keyboard2 + Keyboard3 + Keyboard4 + Keyboard5, Consumer1, 0);
    WellFormedAppend(Keyboard1 + Keyboard2 + Keyboard3 + Keyboard4 + Keyboard5 + Consumer1, Consumer2);
    DepthAppend(Keyboard1 + Keyboard2 + Keyboard3 + Keyboard4 + Keyboard5 + Consumer1, Consumer2, 0);
    WellFormedAppend(Keyboard1 + Keyboard2 + Keyboard3 + Keyboard4 + Keyboard5 + Consumer1 + Consumer2, Consumer3);
    DepthAppend(Keyboard1 + Keyboard2 + Keyboard3 + Keyboard4 + Keyboard5 + Consumer1 + Consumer2, Consumer3, 0);
    WellFormedAppend(Keyboard1 + Keyboard2 + Keyboard3 + Keyboard4 + Keyboard5 + Consumer1 + Consumer2 + Consumer3, System1);
    DepthAppend(Keyboard1 + Keyboard2 + Keyboard3 + Keyboard4 + Keyboard5 + Consumer1 + Consumer2 + Consumer3, System1, 0);
    WellFormedAppend(Keyboard1 + Keyboard2 + Keyboard3 + Keyboard4 + Keyboard5 + Consumer1 + Consumer2 + Consumer3 + System1, System2);
    DepthAppend(Keyboard1 + Keyboard2 + Keyboard3 + Keyboard4 + Keyboard5 + Consumer1 + Consumer2 + Consumer3 + System1, System2, 0);
    WellFormedAppend(Keyboard1 + Keyboard2 + Keyboard3 + Keyboard4 + Keyboard5 + Consumer1 + Consumer2 + Consumer3 + System1 + System2, System3);
    DepthAppend(Keyboard1 + Keyboard2 + Keyboard3 + Keyboard4 + Keyboard5 + Consumer1 + Consumer2 + Consumer3 + System1 + System2, System3, 0);
    WellFormedAppend(Keyboard1 + Keyboard2 + Keyboard3 + Keyboard4 + Keyboard5 + Consumer1 + Consumer2 + Consumer3 + System1 + System2 + System3, VendorA1);
    DepthAppend(Keyboard1 + Keyboard2 + Keyboard3 + Keyboard4 + Keyboard5 + Consumer1 + Consumer2 + Consumer3 + System1 + System2 + System3, VendorA1, 0);
    WellFormedAppend(Keyboard1 + Keyboard2 + Keyboard3 + Keyboard4 + Keyboard5 + Consumer1 + Consumer2 + Consumer3 + System1 + System2 + System3 + VendorA1, VendorA2);
    DepthAppend(Keyboard1 + Keyboard2 + Keyboard3 + Keyboard4 + Keyboard5 + Consumer1 + Consumer2 + Consumer3 + System1 + System2 + System3 + VendorA1, VendorA2, 0);
    WellFormedAppend(Keyboard1 + Keyboard2 + Keyboard3 + Keyboard4 + Keyboard5 + Consumer1 + Consumer2 + Consumer3 + System1 + System2 + System3 + VendorA1 + VendorA2, VendorA3);
    DepthAppend(Keyboard1 + Keyboard2 + Keyboard3 + Keyboard4 + Keyboard5 + Consumer1 + Consumer2 + Consumer3 + System1 + System2 + System3 + VendorA1 + VendorA2, VendorA3, 0);
    WellFormedAppend(Keyboard1 + Keyboard2 + Keyboard3 + Keyboard4 + Keyboard5 + Consumer1 + Consumer2 + Consumer3 + System1 + System2 + System3 + VendorA1 + VendorA2 + VendorA3, VendorA4);
    DepthAppend(Keyboard1 + Keyboard2 + Keyboard3 + Keyboard4 + Keyboard5 + Consumer1 + Consumer2 + Consumer3 + System1 + System2 + System3 + VendorA1 + VendorA2 + VendorA3, VendorA4, 0);
    WellFormedAppend(Keyboard1 + Keyboard2 + Keyboard3 + Keyboard4 + Keyboard5 + Consumer1 + Consumer2 + Consumer3 + System1 + System2 + System3 + VendorA1 + VendorA2 + VendorA3 + VendorA4, VendorA5);
    DepthAppend(Keyboard1 + Keyboard2 + Keyboard3 + Keyboard4 + Keyboard5 + Consumer1 + Consumer2 + Consumer3 + System1 + System2 + System3 + VendorA1 + VendorA2 + VendorA3 + VendorA4, VendorA5, 0);
    WellFormedAppend(Keyboard1 + Keyboard2 + Keyboard3 + Keyboard4 + Keyboard5 + Consumer1 + Consumer2 + Consumer3 + System1 + System2 + System3 + VendorA1 + VendorA2 + VendorA3 + VendorA4 + VendorA5, VendorB1);
    DepthAppend(Keyboard1 + Keyboard2 + Keyboard3 + Keyboard4 + Keyboard5 + Consumer1 + Consumer2 + Consumer3 + System1 + System2 + System3 + VendorA1 + VendorA2 + VendorA3 + VendorA4 + VendorA5, VendorB1, 0);
    WellFormedAppend(Keyboard1 + Keyboard2 + Keyboard3 + Keyboard4 + Keyboard5 + Consumer1 + Consumer2 + Consumer3 + System1 + System2 + System3 + VendorA1 + VendorA2 + VendorA3 + VendorA4 + VendorA5 + VendorB1, VendorB2);
    DepthAppend(Keyboard1 + Keyboard2 + Keyboard3 + Keyboard4 + Keyboard5 + Consumer1 + Consumer2 + Consumer3 + System1 + System2 + System3 + VendorA1 + VendorA2 + VendorA3 + VendorA4 + VendorA5 + VendorB1, VendorB2, 0);
    WellFormedAppend(Keyboard1 + Keyboard2 + Keyboard3 + Keyboard4 + Keyboard5 + Consumer1 + Consumer2 + Consumer3 + System1 + System2 + System3 + VendorA1 + VendorA2 + VendorA3 + VendorA4 + VendorA5 + VendorB1 + VendorB2, VendorB3);
    DepthAppend(Keyboard1 + Keyboard2 + Keyboard3 + Keyboard4 + Keyboard5 + Consumer1 + Consumer2 + Consumer3 + System1 + System2 + System3 + VendorA1 + VendorA2 + VendorA3 + VendorA4 + VendorA5 + VendorB1 + VendorB2, VendorB3, 0);
    WellFormedAppend(Keyboard1 + Keyboard2 + Keyboard3 + Keyboard4 + Keyboard5 + Consumer1 + Consumer2 + Consumer3 + System1 + System2 + System3 + VendorA1 + VendorA2 + VendorA3 + VendorA4 + VendorA5 + VendorB1 + VendorB2 + VendorB3, VendorB4);
    DepthAppend(Keyboard1 + Keyboard2 + Keyboard3 + Keyboard4 + Keyboard5 + Consumer1 + Consumer2 + Consumer3 + System1 + System2 + System3 + VendorA1 + VendorA2 + VendorA3 + VendorA4 + VendorA5 + VendorB1 + VendorB2 + VendorB3, VendorB4, 0);
    WellFormedAppend(Keyboard1 + Keyboard2 + Keyboard3 + Keyboard4 + Keyboard5 + Consumer1 + Consumer2 + Consumer3 + System1 + System2 + System3 + VendorA1 + VendorA2 + VendorA3 + VendorA4 + VendorA5 + VendorB1 + VendorB2 + VendorB3 + VendorB4, VendorB5);
    DepthAppend(Keyboard1 + Keyboard2 + Keyboard3 + Keyboard4 + Keyboard5 + Consumer1 + Consumer2 + Consumer3 + System1 + System2 + System3 + VendorA1 + VendorA2 + VendorA3 + VendorA4 + VendorA5 + VendorB1 + VendorB2 + VendorB3 + VendorB4, VendorB5, 0);
  }

  /** The report descriptor is exactly the encoding of its annotated items: it is
      HID_MOUSE_REPORT_DESC_SIZE bytes long, the decoder reads the items back, and
      every collection it opens is closed. */
  lemma ReportDescriptorItems()
    ensures |ReportDescTable| == HID_MOUSE_REPORT_DESC_SIZE
    ensures AllWellFormed(ReportItems)
    ensures DecodeItems(ReportDescTable) == Some(ReportItems)
    ensures Balanced(ReportItems)
  {
    ReportDescLength();
    ReportEncodes();
    ReportShape();
    DecodeEncode(ReportItems);
  }
}
