/** The descriptor tables of the HID class driver as fixed byte sequences: the
    configuration descriptor (sections 9.6.3, 9.6.5 and 9.6.6 of USB 2.0), the HID
    descriptor (section 6.2.1 of HID 1.11), the device qualifier (section 9.6.2 of
    USB 2.0) and the report descriptor (short items, section 6.2.2.2 of HID 1.11),
    with the walk over the bLength chain that finds the endpoint descriptor. */
module HidDescriptors {
  import opened UsbTypes
  import opened HidDefs
  import opened HidReportDescriptor

  /** Offset of the endpoint descriptor in the configuration descriptor. */
  const EP_DESC_OFFSET: nat := 27
  /** Offset of bInterval inside an endpoint descriptor (section 9.6.6 of USB 2.0). */
  const B_INTERVAL_FIELD: nat := 6
  /** Offset of the HID descriptor in the configuration descriptor. */
  const HID_DESC_OFFSET: nat := 18

  /** USBD_HID_CfgDesc as initialised: configuration, interface, HID and endpoint
      descriptors, with the full-speed bInterval in the last byte. */
  const CfgDescTable: seq<byte> := [
    // configuration descriptor, offset 0
    0x09, DESC_TYPE_CONFIGURATION, USB_HID_CONFIG_DESC_SIZ % 0x100, 0x00,
    0x01, 0x01, 0x00, if USBD_SELF_POWERED then 0xE0 else 0xA0, USBD_MAX_POWER,
    // interface descriptor, offset 9
    0x09, DESC_TYPE_INTERFACE, 0x00, 0x00, 0x01, 0x03, 0x01, 0x01, 0,
    // HID descriptor, offset 18
    0x09, HID_DESCRIPTOR_TYPE, 0x11, 0x01, 0x00, 0x01, 0x22, HID_MOUSE_REPORT_DESC_SIZE % 0x100, 0x00,
    // endpoint descriptor, offset 27
    0x07, DESC_TYPE_ENDPOINT, HID_EPIN_ADDR, 0x03, HID_EPIN_SIZE, 0x00, HID_FS_BINTERVAL
  ]

  /** USBD_HID_Desc, the HID descriptor served on its own. */
  const HidDescTable: seq<byte> := [
    0x09, HID_DESCRIPTOR_TYPE, 0x11, 0x01, 0x00, 0x01, 0x22, HID_MOUSE_REPORT_DESC_SIZE % 0x100, 0x00
  ]

  /** USBD_HID_DeviceQualifierDesc. */
  const QualifierTable: seq<byte> := [
    LEN_DEV_QUALIFIER_DESC, DESC_TYPE_DEVICE_QUALIFIER, 0x00, 0x02, 0x00, 0x00, 0x00, 0x40, 0x01, 0x00
  ]

  /** The little-endian 16-bit field at `off`. */
  function Word(d: seq<byte>, off: nat): (w: nat)
    requires off + 2 <= |d|
  {
    d[off] as nat + 0x100 * (d[off + 1] as nat)
  }

  /** The layout of the configuration descriptor: a chain of descriptors whose
      bLength fields 9, 9, 9 and 7 lead from offset 0 to 9, 18, 27 and the end at
      34, and whose wTotalLength is the size of the table. */
  lemma CfgDescChain()
    ensures |CfgDescTable| == USB_HID_CONFIG_DESC_SIZ
    ensures CfgDescTable[0] == 9 && CfgDescTable[1] == DESC_TYPE_CONFIGURATION
    ensures CfgDescTable[9] == 9 && CfgDescTable[10] == DESC_TYPE_INTERFACE
    ensures CfgDescTable[18] == 9 && CfgDescTable[19] == HID_DESCRIPTOR_TYPE
    ensures CfgDescTable[27] == 7 && CfgDescTable[28] == DESC_TYPE_ENDPOINT
    ensures EP_DESC_OFFSET + CfgDescTable[EP_DESC_OFFSET] == |CfgDescTable|
    ensures Word(CfgDescTable, 2) == |CfgDescTable|
  {
  }

  /** The HID descriptor inside the configuration descriptor is the one served on
      its own. */
  lemma CfgDescEmbedsHidDesc()
    ensures |HidDescTable| == USB_HID_DESC_SIZ
    ensures CfgDescTable[HID_DESC_OFFSET..EP_DESC_OFFSET] == HidDescTable
  {
    assert forall i :: 0 <= i < 9 ==> CfgDescTable[HID_DESC_OFFSET + i] == HidDescTable[i];
  }

  /** Both copies of wItemLength give the length of the report descriptor. */
  lemma ItemLengthMatchesReport()
    ensures Word(CfgDescTable, 25) == |ReportDescTable|
    ensures Word(HidDescTable, 7) == |ReportDescTable|
  {
    ReportDescLength();
  }

  lemma QualifierLayout()
    ensures |QualifierTable| == LEN_DEV_QUALIFIER_DESC
    ensures QualifierTable[0] == |QualifierTable| && QualifierTable[1] == DESC_TYPE_DEVICE_QUALIFIER
    ensures Word(QualifierTable, 2) == 0x0200
    ensures QualifierTable[7] == 0x40 && QualifierTable[8] == 1
  {
  }

  /** Whether an endpoint descriptor for `addr` sits at `off` within `d`. */
  predicate EndpointAt(d: seq<byte>, addr: byte, off: nat)
  {
    off + 7 <= |d| && d[off] >= 7 && d[off + 1] == DESC_TYPE_ENDPOINT && d[off + 2] == addr
  }

  /** The walk along the bLength chain from `off`: the first endpoint descriptor for
      `addr`, or None when the chain leaves the buffer or a bLength of zero stops it. */
  function FindEndpointFrom(d: seq<byte>, addr: byte, off: nat): (r: Option<nat>)
    decreases |d| - off
    ensures r.Some? ==> off <= r.value && EndpointAt(d, addr, r.value)
    ensures EndpointAt(d, addr, off) ==> r == Some(off)
  {
    if off + 2 >= |d| || d[off] == 0 then None
    else if EndpointAt(d, addr, off) then Some(off)
    else FindEndpointFrom(d, addr, off + d[off])
  }

  /** USBD_GetEpDesc: the endpoint descriptor for `addr`, looked for after the
      configuration descriptor that opens `d`. */
  function FindEndpoint(d: seq<byte>, addr: byte): (r: Option<nat>)
    ensures r.Some? ==> EndpointAt(d, addr, r.value)
  {
    if d == [] then None else FindEndpointFrom(d, addr, d[0])
  }

  /** What a configuration-descriptor getter leaves in the table: the bInterval
      byte of the endpoint descriptor for `addr` set to `v`, or the table unchanged
      when there is no such descriptor. */
  function WithBInterval(d: seq<byte>, addr: byte, v: byte): (r: seq<byte>)
    ensures |r| == |d|
    ensures FindEndpoint(d, addr).None? ==> r == d
    ensures FindEndpoint(d, addr).Some? ==>
      var off := FindEndpoint(d, addr).value;
      r[off + B_INTERVAL_FIELD] == v && forall i :: 0 <= i < |d| && i != off + B_INTERVAL_FIELD ==> r[i] == d[i]
  {
    match FindEndpoint(d, addr)
    case None => d
    case Some(off) => d[off + B_INTERVAL_FIELD := v]
  }

  /** The chain walk finds the HID IN endpoint at offset 27 whatever its bInterval
      byte holds. */
  lemma FindHidEndpoint(w: byte)
    ensures FindEndpoint(CfgDescTable[33 := w], HID_EPIN_ADDR) == Some(EP_DESC_OFFSET)
  {
    var d := CfgDescTable[33 := w];
    assert EndpointAt(d, HID_EPIN_ADDR, 27);
    assert FindEndpointFrom(d, HID_EPIN_ADDR, 18) == Some(27);
    assert FindEndpointFrom(d, HID_EPIN_ADDR, 9) == Some(27);
  }

  /** Each getter rewrites exactly byte 33, the endpoint's bInterval, and a later
      getter overrides an earlier one. */
  lemma WithBIntervalCfgDesc(w: byte, v: byte)
    ensures WithBInterval(CfgDescTable[33 := w], HID_EPIN_ADDR, v) == CfgDescTable[33 := v]
  {
    FindHidEndpoint(w);
  }

  /** USBD_HID_GetDeviceQualifierDesc: the qualifier table and its size. */
  function GetDeviceQualifierDesc(): (r: (seq<byte>, u16))
    ensures r.1 == |r.0| == LEN_DEV_QUALIFIER_DESC
    ensures r.0[0] == r.1 && r.0[1] == DESC_TYPE_DEVICE_QUALIFIER
    ensures Word(r.0, 2) == 0x0200 && r.0[7] == 0x40 && r.0[8] == 1 && r.0[9] == 0
    ensures r.0 == QualifierTable
  {
    (QualifierTable, |QualifierTable|)
  }
}
