/** Device-side USB types and constants that the HID class driver shares with the
    device core: bytes and 16-bit words, return codes, link speed, device state,
    the SETUP packet (section 9.3 of USB 2.0) and the request and descriptor codes
    of chapter 9 of USB 2.0. */
module UsbTypes {

  /** An unsigned 8-bit value (`uint8_t`). */
  type byte = x: int | 0 <= x < 0x100

  /** An unsigned 16-bit value (`uint16_t`). */
  type u16 = x: int | 0 <= x < 0x1_0000

  datatype Option<+T> = None | Some(value: T)

  /** USBD_StatusTypeDef, the return code of every class callback. */
  datatype Status = Ok | Busy | EMem | Fail

  /** dev_speed as the device core reports it. */
  datatype Speed = HighSpeed | FullSpeed | LowSpeed

  /** dev_state as the device core tracks it (section 9.1 of USB 2.0). */
  datatype DeviceState = Default | Addressed | Configured | Suspended

  /** The eight-byte SETUP packet (section 9.3 of USB 2.0). */
  datatype SetupRequest = SetupRequest(bmRequest: byte, bRequest: byte, wValue: u16, wIndex: u16, wLength: u16)

  // Type field of bmRequestType, bits 6..5 (section 9.3.1 of USB 2.0).
  const REQ_TYPE_MASK: byte := 0x60
  const REQ_TYPE_STANDARD: byte := 0x00
  const REQ_TYPE_CLASS: byte := 0x20
  const REQ_TYPE_VENDOR: byte := 0x40

  // Standard request codes (table 9-4 of USB 2.0).
  const REQ_GET_STATUS: byte := 0x00
  const REQ_CLEAR_FEATURE: byte := 0x01
  const REQ_GET_DESCRIPTOR: byte := 0x06
  const REQ_GET_INTERFACE: byte := 0x0A
  const REQ_SET_INTERFACE: byte := 0x0B

  // Descriptor types (table 9-5 of USB 2.0).
  const DESC_TYPE_CONFIGURATION: byte := 0x02
  const DESC_TYPE_INTERFACE: byte := 0x04
  const DESC_TYPE_ENDPOINT: byte := 0x05
  const DESC_TYPE_DEVICE_QUALIFIER: byte := 0x06
  const LEN_DEV_QUALIFIER_DESC: byte := 0x0A

  /** bmAttributes transfer type "interrupt" (section 9.6.6 of USB 2.0). */
  const EP_TYPE_INTR: byte := 0x03

  /** `bm & USB_REQ_TYPE_MASK`: keeps bits 6..5 of bmRequestType. */
  function RequestType(bm: byte): (t: byte)
    ensures t in {REQ_TYPE_STANDARD, REQ_TYPE_CLASS, REQ_TYPE_VENDOR, REQ_TYPE_MASK}
    ensures bm < 0x20 ==> t == REQ_TYPE_STANDARD
    ensures t == ((bm as bv8) & 0x60) as byte
  {
    (bm / 0x20) % 4 * 0x20
  }

  /** `(uint8_t)w`: the low byte of a 16-bit word. */
  function LowByte(w: u16): (b: byte)
  {
    w % 0x100
  }

  /** `w >> 8`: the high byte of a 16-bit word. */
  function HighByte(w: u16): (b: byte)
  {
    w / 0x100
  }

  /** `addr & 0xF`: the endpoint number, which indexes the core's endpoint tables. */
  function EpIndex(addr: byte): (i: nat)
    ensures i < 16
  {
    addr % 16
  }
}
