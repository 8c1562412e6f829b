/** Sequences of calls as the device core and an application make them, on a
    single-class device at full speed. */
module HidScenarios {
  import opened UsbTypes
  import opened HidDefs
  import opened HidReportDescriptor
  import opened HidSetup
  import opened HidClass

  /** A configured device whose host asks for 500 bytes of the report descriptor
      gets the whole descriptor. */
  method ReportDescriptorFetch(block: Instance) returns (status: Status, calls: seq<Action>)
    ensures status == Ok
    ensures calls == [CtlSend(ReportDescTable, HID_MOUSE_REPORT_DESC_SIZE)]
    ensures calls[0].len as nat == |ReportDescTable|
  {
    var dev := new HidDevice(false, 0, FullSpeed, Configured);
    var s := dev.Init(Some(block), 0);
    var before := |dev.log|;
    ReportDescLength();
    status := dev.Setup(SetupRequest(0x81, REQ_GET_DESCRIPTOR, 0x2200, 0, 500));
    calls := dev.log[before..];
  }

  /** A report submitted while Idle is transmitted once and makes the instance Busy;
      a second one before the completion is dropped; the completion makes the
      instance Idle again, so a third report is transmitted. */
  method SubmitDropComplete(block: Instance) returns (first: Status, second: Status, third: Status, calls: seq<Action>)
    ensures first == Ok && second == Ok && third == Ok
    ensures calls == [Transmit(HID_EPIN_ADDR, [0x01, 0xAA], 2), Transmit(HID_EPIN_ADDR, [0x03, 0xCC], 2)]
  {
    var dev := new HidDevice(false, 0, FullSpeed, Configured);
    var s := dev.Init(Some(block), 0);
    var start := |dev.log|;
    first := dev.SendReport([0x01, 0xAA], 2, 0, 0);
    assert dev.log[start..] == [Transmit(HID_EPIN_ADDR, [0x01, 0xAA], 2)];
    assert dev.slots[0].state == TransferState.Busy;
    second := dev.SendReport([0x02, 0xBB], 2, 0, 0);
    assert dev.log[start..] == [Transmit(HID_EPIN_ADDR, [0x01, 0xAA], 2)];
    s := dev.DataIn(HID_EPIN_ADDR % 16);
    assert dev.slots[0].state == Idle;
    third := dev.SendReport([0x03, 0xCC], 2, 0, 0);
    calls := dev.log[start..];
  }

  /** Before the device is configured, a report is dropped and still reported OK. */
  method SubmitUnconfigured(block: Instance) returns (status: Status, transmits: nat)
    ensures status == Ok && transmits == 0
  {
    var dev := new HidDevice(false, 0, FullSpeed, Addressed);
    var s := dev.Init(Some(block), 0);
    var start := |dev.log|;
    status := dev.SendReport([0x01], 1, 0, 0);
    assert dev.slots[0].state == Idle;
    transmits := |dev.log| - start;
  }

  /** SET_PROTOCOL with value 0 followed by GET_PROTOCOL replies with the byte 0. */
  method ProtocolRoundTrip(block: Instance) returns (setStatus: Status, getStatus: Status, calls: seq<Action>)
    ensures setStatus == Ok && getStatus == Ok
    ensures calls == [CtlSend([0], 1)]
  {
    var dev := new HidDevice(false, 0, FullSpeed, Configured);
    var s := dev.Init(Some(block), 0);
    var start := |dev.log|;
    setStatus := dev.Setup(SetupRequest(0x21, HID_REQ_SET_PROTOCOL, 0, 0, 0));
    getStatus := dev.Setup(SetupRequest(0xA1, HID_REQ_GET_PROTOCOL, 0, 0, 1));
    calls := dev.log[start..];
  }

  /** An unknown class request stalls and leaves the transfer state as it was. */
  method UnknownClassRequest(block: Instance) returns (status: Status, calls: seq<Action>, busy: bool)
    ensures status == Fail && calls == [CtlError] && busy
  {
    var dev := new HidDevice(false, 0, FullSpeed, Configured);
    var s := dev.Init(Some(block), 0);
    s := dev.SendReport([0x01], 1, 0, 0);
    var start := |dev.log|;
    status := dev.Setup(SetupRequest(0x21, 0x07, 0, 0, 0));
    calls := dev.log[start..];
    busy := dev.slots[0].state == TransferState.Busy;
  }

  /** Any request before Init fails at once, without a stall. */
  method SetupWithoutInstance() returns (status: Status, calls: nat)
    ensures status == Fail && calls == 0
  {
    var dev := new HidDevice(false, 0, FullSpeed, Configured);
    status := dev.Setup(SetupRequest(0x81, REQ_GET_DESCRIPTOR, 0x2200, 0, 500));
    calls := |dev.log|;
  }

  /** A failed allocation leaves no instance and opens no endpoint, and reports
      cannot be sent. */
  method InitOutOfMemory() returns (status: Status, report: Status, used: bool)
    ensures status == EMem && report == Fail && !used
  {
    var dev := new HidDevice(false, 0, HighSpeed, Configured);
    status := dev.Init(None, 0);
    report := dev.SendReport([0x01], 1, 0, 0);
    assert dev.log == [];
    used := dev.epIn[HID_EPIN_ADDR % 16].isUsed;
  }

  /** Init then DeInit leaves no instance and the endpoint unused; a second DeInit
      changes nothing but closes the endpoint once more. */
  method ActivateDeactivateTwice(block: Instance) returns (first: Status, second: Status, used: bool, interval: byte)
    ensures first == Ok && second == Ok && !used && interval == 0
  {
    var dev := new HidDevice(false, 0, HighSpeed, Configured);
    var s := dev.Init(Some(block), 0);
    assert dev.epIn[1] == EndpointState(true, HID_HS_BINTERVAL);
    first := dev.DeInit(0);
    assert dev.slots == map[];
    ghost var afterFirst := dev.epIn[..];
    second := dev.DeInit(0);
    assert dev.epIn[..] == afterFirst && dev.slots == map[];
    assert dev.log == [OpenEP(HID_EPIN_ADDR, EP_TYPE_INTR, HID_EPIN_SIZE), CloseEP(HID_EPIN_ADDR), CloseEP(HID_EPIN_ADDR)];
    used := dev.epIn[1].isUsed;
    interval := dev.epIn[1].bInterval;
  }

  /** A repeated completion notification has the effect of a single one. */
  method CompletionTwice(block: Instance) returns (status: Status, once: map<nat, Instance>, twice: map<nat, Instance>)
    ensures status == Ok && twice == once
    ensures once == map[0 := block.(state := Idle)]
  {
    var dev := new HidDevice(false, 0, FullSpeed, Configured);
    var s := dev.Init(Some(block), 0);
    s := dev.SendReport([0x01], 1, 0, 0);
    s := dev.DataIn(1);
    once := dev.slots;
    status := dev.DataIn(1);
    twice := dev.slots;
  }

  /** Init called again while a transmit is outstanding sets the instance Idle
      without closing the endpoint, so a second report is transmitted with no
      completion and no CloseEP in between: only the endpoint is opened again.
      The device core calls DeInit before any second Init, and DeInit closes the
      endpoint. */
  method ReinitWhileBusy(block: Instance) returns (calls: seq<Action>)
    ensures calls == [Transmit(HID_EPIN_ADDR, [0x01], 1),
                      OpenEP(HID_EPIN_ADDR, EP_TYPE_INTR, HID_EPIN_SIZE),
                      Transmit(HID_EPIN_ADDR, [0x02], 1)]
  {
    var dev := new HidDevice(false, 0, FullSpeed, Configured);
    var s := dev.Init(Some(block), 0);
    var start := |dev.log|;
    s := dev.SendReport([0x01], 1, 0, 0);
    s := dev.Init(Some(block), 0);
    s := dev.SendReport([0x02], 1, 0, 0);
    calls := dev.log[start..];
  }

  /** The high-speed getter and then the full-speed getter give back the table as
      initialised, with the high-speed exponent in between. */
  method GettersAlternate() returns (hs: byte, hsLength: u16, fs: byte, fsLength: u16)
    ensures hs == HID_HS_BINTERVAL && hsLength == 34
    ensures fs == HID_FS_BINTERVAL && fsLength == 34
  {
    var dev := new HidDevice(false, 0, HighSpeed, Configured);
    var buf;
    buf, hsLength := dev.GetHSCfgDesc();
    hs := buf[33];
    buf, fsLength := dev.GetFSCfgDesc();
    fs := buf[33];
  }
}
