/** The control-request dispatcher of the HID class driver (USBD_HID_Setup), as a
    function from the class instance, the device state and the SETUP packet to
    the new instance, the calls made into the device core and the return code. */
module HidSetup {
  import opened UsbTypes
  import opened HidDefs
  import opened HidReportDescriptor
  import opened HidDescriptors

  /** `MIN(size, wLength)`: the length of a descriptor reply. */
  function CappedLength(size: nat, wLength: u16): (len: u16)
    requires size < 0x1_0000
    ensures len <= size && len <= wLength
    ensures len == size || len == wLength
  {
    if size < wLength then size else wLength
  }

  /** The outcome of one SETUP request: the class instance afterwards, the calls
      made into the device core in order, and the return code. */
  datatype SetupResult = SetupResult(inst: Option<Instance>, actions: seq<Action>, status: Status)

  /** A stall: USBD_CtlError, USBD_FAIL, and the instance left as it was. */
  function Stall(h: Instance): (r: SetupResult)
  {
    SetupResult(Some(h), [CtlError], Fail)
  }

  /** A request that only replies: `data` sent with length `len`. */
  function Reply(h: Instance, data: seq<byte>, len: u16): (r: SetupResult)
  {
    SetupResult(Some(h), [CtlSend(data, len)], Ok)
  }

  /** A request that only changes the instance. */
  function Store(h: Instance): (r: SetupResult)
  {
    SetupResult(Some(h), [], Ok)
  }

  /** The HID class requests (section 7.2 of HID 1.11). */
  function ClassRequest(h: Instance, req: SetupRequest): (r: SetupResult)
  {
    if req.bRequest == HID_REQ_SET_PROTOCOL then Store(h.(protocol := LowByte(req.wValue)))
    else if req.bRequest == HID_REQ_GET_PROTOCOL then Reply(h, [h.protocol], 1)
    else if req.bRequest == HID_REQ_SET_IDLE then Store(h.(idleState := HighByte(req.wValue)))
    else if req.bRequest == HID_REQ_GET_IDLE then Reply(h, [h.idleState], 1)
    else Stall(h)
  }

  /** GET_DESCRIPTOR for the descriptor type in the high byte of wValue. */
  function GetDescriptor(h: Instance, req: SetupRequest): (r: SetupResult)
  {
    if HighByte(req.wValue) == HID_REPORT_DESC then
      Reply(h, ReportDescTable, CappedLength(HID_MOUSE_REPORT_DESC_SIZE, req.wLength))
    else if HighByte(req.wValue) == HID_DESCRIPTOR_TYPE then
      Reply(h, HidDescTable, CappedLength(USB_HID_DESC_SIZ, req.wLength))
    else Stall(h)
  }

  /** The standard requests the driver answers for its interface (section 9.4 of
      USB 2.0). */
  function StandardRequest(h: Instance, devState: DeviceState, req: SetupRequest): (r: SetupResult)
  {
    if req.bRequest == REQ_GET_STATUS then
      if devState == Configured then Reply(h, [0, 0], 2) else Stall(h)
    else if req.bRequest == REQ_GET_DESCRIPTOR then GetDescriptor(h, req)
    else if req.bRequest == REQ_GET_INTERFACE then
      if devState == Configured then Reply(h, [h.altSetting], 1) else Stall(h)
    else if req.bRequest == REQ_SET_INTERFACE then
      if devState == Configured then Store(h.(altSetting := LowByte(req.wValue))) else Stall(h)
    else if req.bRequest == REQ_CLEAR_FEATURE then Store(h)
    else Stall(h)
  }

  /** USBD_HID_Setup. Without an instance every request fails before dispatch and
      nothing is sent; otherwise a request either replies, changes one field of
      the instance, does nothing, or stalls, and it never touches the transfer
      state. */
  function SetupStep(inst: Option<Instance>, devState: DeviceState, req: SetupRequest): (r: SetupResult)
    ensures inst.None? ==> r == SetupResult(None, [], Fail)
    ensures inst.Some? ==> r.inst.Some? && r.inst.value.state == inst.value.state
    ensures inst.Some? ==> (r.status == Fail <==> r.actions == [CtlError])
    ensures r.status == Fail ==> r.inst == inst
    ensures r.status in {Ok, Fail} && |r.actions| <= 1
  {
    match inst
    case None => SetupResult(None, [], Fail)
    case Some(h) =>
      var t := RequestType(req.bmRequest);
      if t == REQ_TYPE_CLASS then ClassRequest(h, req)
      else if t == REQ_TYPE_STANDARD then StandardRequest(h, devState, req)
      else Stall(h)
  }

  /** The bytes a control reply puts on the wire. */
  function SentBytes(a: Action): (wire: seq<byte>)
    requires a.CtlSend? && a.len <= |a.data|
  {
    a.data[..a.len]
  }

  /** SET_PROTOCOL keeps the low byte of wValue and SET_IDLE its high byte; GET_PROTOCOL
      and GET_IDLE reply with one byte, the stored value; no other field changes. */
  lemma ClassRequestOutcomes(h: Instance, devState: DeviceState, req: SetupRequest)
    requires RequestType(req.bmRequest) == REQ_TYPE_CLASS
    ensures var r := SetupStep(Some(h), devState, req);
      && (req.bRequest == HID_REQ_SET_PROTOCOL ==>
            r == SetupResult(Some(h.(protocol := req.wValue % 0x100)), [], Ok))
      && (req.bRequest == HID_REQ_SET_IDLE ==>
            r == SetupResult(Some(h.(idleState := req.wValue / 0x100)), [], Ok))
      && (req.bRequest == HID_REQ_GET_PROTOCOL ==>
            r.status == Ok && r.inst == Some(h) && SentBytes(r.actions[0]) == [h.protocol])
      && (req.bRequest == HID_REQ_GET_IDLE ==>
            r.status == Ok && r.inst == Some(h) && SentBytes(r.actions[0]) == [h.idleState])
      && (req.bRequest !in {HID_REQ_SET_PROTOCOL, HID_REQ_GET_PROTOCOL, HID_REQ_SET_IDLE, HID_REQ_GET_IDLE} ==>
            r == SetupResult(Some(h), [CtlError], Fail))
  {
    assert [h.protocol][..1] == [h.protocol];
    assert [h.idleState][..1] == [h.idleState];
  }

  /** GET_STATUS, GET_INTERFACE and SET_INTERFACE act only in the Configured state and
      stall otherwise; CLEAR_FEATURE always succeeds and changes nothing; any other
      standard request except GET_DESCRIPTOR stalls. */
  lemma StandardRequestOutcomes(h: Instance, devState: DeviceState, req: SetupRequest)
    requires RequestType(req.bmRequest) == REQ_TYPE_STANDARD
    ensures var r := SetupStep(Some(h), devState, req);
      && (req.bRequest in {REQ_GET_STATUS, REQ_GET_INTERFACE, REQ_SET_INTERFACE} && devState != Configured ==>
            r == SetupResult(Some(h), [CtlError], Fail))
      && (req.bRequest == REQ_GET_STATUS && devState == Configured ==>
            r.status == Ok && r.inst == Some(h) && SentBytes(r.actions[0]) == [0, 0])
      && (req.bRequest == REQ_GET_INTERFACE && devState == Configured ==>
            r.status == Ok && r.inst == Some(h) && SentBytes(r.actions[0]) == [h.altSetting])
      && (req.bRequest == REQ_SET_INTERFACE && devState == Configured ==>
            r == SetupResult(Some(h.(altSetting := req.wValue % 0x100)), [], Ok))
      && (req.bRequest == REQ_CLEAR_FEATURE ==> r == SetupResult(Some(h), [], Ok))
      && (req.bRequest !in {REQ_GET_STATUS, REQ_CLEAR_FEATURE, REQ_GET_DESCRIPTOR, REQ_GET_INTERFACE, REQ_SET_INTERFACE} ==>
            r == SetupResult(Some(h), [CtlError], Fail))
  {
    assert [0, 0][..2] == [0, 0];
    assert [h.altSetting][..1] == [h.altSetting];
  }

  /** A vendor or reserved request type always stalls. */
  lemma OtherRequestTypesStall(h: Instance, devState: DeviceState, req: SetupRequest)
    requires RequestType(req.bmRequest) !in {REQ_TYPE_CLASS, REQ_TYPE_STANDARD}
    ensures SetupStep(Some(h), devState, req) == SetupResult(Some(h), [CtlError], Fail)
  {
  }

  /** GET_DESCRIPTOR sends the report descriptor or the HID descriptor from its start
      with length min(size, wLength), so the bytes on the wire are a prefix of the
      stored descriptor; any other descriptor type stalls. The device state does
      not matter. */
  lemma GetDescriptorOutcomes(h: Instance, devState: DeviceState, req: SetupRequest)
    requires RequestType(req.bmRequest) == REQ_TYPE_STANDARD && req.bRequest == REQ_GET_DESCRIPTOR
    ensures var r := SetupStep(Some(h), devState, req);
      && (HighByte(req.wValue) == HID_REPORT_DESC ==>
            && r.status == Ok && r.inst == Some(h) && |r.actions| == 1
            && r.actions[0].len == (if req.wLength < |ReportDescTable| then req.wLength else |ReportDescTable|)
            && SentBytes(r.actions[0]) == ReportDescTable[..r.actions[0].len])
      && (HighByte(req.wValue) == HID_DESCRIPTOR_TYPE ==>
            && r.status == Ok && r.inst == Some(h) && |r.actions| == 1
            && r.actions[0].len == (if req.wLength < |HidDescTable| then req.wLength else |HidDescTable|)
            && SentBytes(r.actions[0]) == HidDescTable[..r.actions[0].len])
      && (HighByte(req.wValue) !in {HID_REPORT_DESC, HID_DESCRIPTOR_TYPE} ==>
            r == SetupResult(Some(h), [CtlError], Fail))
  {
    ReportDescLength();
  }

  /** SET_PROTOCOL followed by GET_PROTOCOL replies with the low byte stored. */
  lemma SetThenGetProtocol(h: Instance, devState: DeviceState, setReq: SetupRequest, getReq: SetupRequest)
    requires RequestType(setReq.bmRequest) == REQ_TYPE_CLASS && setReq.bRequest == HID_REQ_SET_PROTOCOL
    requires RequestType(getReq.bmRequest) == REQ_TYPE_CLASS && getReq.bRequest == HID_REQ_GET_PROTOCOL
    ensures var r1 := SetupStep(Some(h), devState, setReq);
      var r2 := SetupStep(r1.inst, devState, getReq);
      r2.status == Ok && r2.actions == [CtlSend([setReq.wValue % 0x100], 1)]
  {
  }

  /** SET_IDLE followed by GET_IDLE replies with the high byte stored. */
  lemma SetThenGetIdle(h: Instance, devState: DeviceState, setReq: SetupRequest, getReq: SetupRequest)
    requires RequestType(setReq.bmRequest) == REQ_TYPE_CLASS && setReq.bRequest == HID_REQ_SET_IDLE
    requires RequestType(getReq.bmRequest) == REQ_TYPE_CLASS && getReq.bRequest == HID_REQ_GET_IDLE
    ensures var r1 := SetupStep(Some(h), devState, setReq);
      var r2 := SetupStep(r1.inst, devState, getReq);
      r2.status == Ok && r2.actions == [CtlSend([setReq.wValue / 0x100], 1)]
  {
  }

  /** A host asking for 500 bytes of the report descriptor gets all of it. */
  lemma ReportDescriptorRequestedWhole(h: Instance)
    ensures var req := SetupRequest(0x81, REQ_GET_DESCRIPTOR, 0x2200, 0, 500);
      var r := SetupStep(Some(h), Configured, req);
      r.status == Ok && r.actions == [CtlSend(ReportDescTable, |ReportDescTable|)]
  {
    ReportDescLength();
  }
}
