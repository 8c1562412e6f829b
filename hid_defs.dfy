/** Build-time constants of the HID class driver, the per-instance record it
    allocates, and the requests it hands to the device core. */
module HidDefs {
  import opened UsbTypes

  /** A high-speed bInterval: the period is 2^(bInterval-1) microframes, 1..16
      (section 9.6.6 of USB 2.0). */
  type HsExponent = x: int | 1 <= x <= 16 witness 1

  /** A full-speed interrupt bInterval in milliseconds, 1..255 (section 9.6.6 of USB 2.0). */
  type FsInterval = x: int | 1 <= x <= 255 witness 1

  // Header constants. Their values are ST's defaults; every property below that
  // depends on a value says so.
  const HID_EPIN_ADDR: byte := 0x81
  const HID_EPIN_SIZE: byte := 0x04
  const HID_FS_BINTERVAL: FsInterval := 0x0A
  const HID_HS_BINTERVAL: HsExponent := 0x07
  const USBD_MAX_POWER: byte := 0x32
  const USBD_SELF_POWERED: bool := true

  // Descriptor sizes: the number of initialisers of each table.
  const USB_HID_CONFIG_DESC_SIZ: nat := 34
  const USB_HID_DESC_SIZ: nat := 9
  const HID_MOUSE_REPORT_DESC_SIZE: nat := 187

  // HID class descriptor types (section 7.1 of HID 1.11).
  const HID_DESCRIPTOR_TYPE: byte := 0x21
  const HID_REPORT_DESC: byte := 0x22

  // HID class requests (section 7.2 of HID 1.11).
  const HID_REQ_GET_IDLE: byte := 0x02
  const HID_REQ_GET_PROTOCOL: byte := 0x03
  const HID_REQ_SET_IDLE: byte := 0x0A
  const HID_REQ_SET_PROTOCOL: byte := 0x0B

  /** HID_StateTypeDef: whether a report is being sent on the IN endpoint. */
  datatype TransferState = Idle | Busy

  /** USBD_HID_HandleTypeDef, the block allocated by Init. */
  datatype Instance = Instance(protocol: byte, idleState: byte, altSetting: byte, state: TransferState)

  /** The two fields of an ep_in[] entry that the driver writes. */
  datatype EndpointState = EndpointState(isUsed: bool, bInterval: byte)

  /** A call into the device core: USBD_LL_Transmit, USBD_CtlSendData,
      USBD_CtlError, USBD_LL_OpenEP and USBD_LL_CloseEP. `data` is the buffer the
      call is given, `len` the number of bytes it is told to send from its start. */
  datatype Action =
    | Transmit(ep: byte, data: seq<byte>, len: u16)
    | CtlSend(data: seq<byte>, len: u16)
    | CtlError
    | OpenEP(ep: byte, epType: byte, size: byte)
    | CloseEP(ep: byte)
}
