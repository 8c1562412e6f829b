/** The HID class driver as it acts on the device record of the device core: the
    class-data slots (pClassDataCmsit), the IN-endpoint table (ep_in[]), the
    endpoint address it resolved last (HIDInEpAdd) and the configuration
    descriptor buffer the getters rewrite. Calls into the core are appended to a
    log instead of being performed. */
module HidClass {
  import opened UsbTypes
  import opened HidDefs
  import opened HidPolling
  import opened HidDescriptors
  import opened HidReportDescriptor
  import opened HidSetup

  class HidDevice {
    /** dev_state and dev_speed, which the device core maintains. */
    var devState: DeviceState
    var devSpeed: Speed
    /** pdev->classId: the class index the core is dispatching to. */
    const classId: nat
    /** Whether the driver is built for a composite device (USE_USBD_COMPOSITE). */
    const composite: bool
    /** pClassDataCmsit: a class index is present when its slot is non-NULL. */
    var slots: map<nat, Instance>
    /** ep_in[], indexed by the endpoint number `addr & 0xF`. */
    const epIn: array<EndpointState>
    /** HIDInEpAdd: HID_EPIN_ADDR, or in a composite build the address the core
        resolved last. */
    var hidInEpAdd: byte
    /** USBD_HID_CfgDesc. */
    const cfgDesc: array<byte>
    /** The calls made into the device core, in order. */
    var log: seq<Action>
    /** The class indices with a transmit started by SendReport and neither
        completed by DataIn nor abandoned by DeInit closing the endpoint. */
    ghost var pending: set<nat>

    ghost predicate Valid()
      reads this, cfgDesc
    {
      && epIn.Length == 16
      && cfgDesc.Length == USB_HID_CONFIG_DESC_SIZ
      && cfgDesc[..] == CfgDescTable[33 := cfgDesc[33]]
      && (!composite ==> hidInEpAdd == HID_EPIN_ADDR)
    }

    /** At most one report in flight: an instance with a transmit outstanding is
        Busy, so SendReport refuses to start another one. */
    ghost predicate Rendezvous()
      reads this
    {
      forall id :: id in pending && id in slots ==> slots[id].state == TransferState.Busy
    }

    constructor(composite: bool, classId: nat, devSpeed: Speed, devState: DeviceState)
      ensures Valid() && Rendezvous() && fresh(epIn) && fresh(cfgDesc)
      ensures this.composite == composite && this.classId == classId
      ensures this.devSpeed == devSpeed && this.devState == devState
      ensures slots == map[] && log == [] && pending == {}
      ensures hidInEpAdd == HID_EPIN_ADDR && cfgDesc[..] == CfgDescTable
      ensures forall i :: 0 <= i < epIn.Length ==> epIn[i] == EndpointState(false, 0)
    {
      this.composite := composite;
      this.classId := classId;
      this.devSpeed := devSpeed;
      this.devState := devState;
      slots := map[];
      log := [];
      pending := {};
      hidInEpAdd := HID_EPIN_ADDR;
      epIn := new EndpointState[16](_ => EndpointState(false, 0));
      cfgDesc := new byte[USB_HID_CONFIG_DESC_SIZ](i requires 0 <= i < USB_HID_CONFIG_DESC_SIZ => CfgDescTable[i]);
      new;
      assert cfgDesc[..] == CfgDescTable;
    }

    /** The address HIDInEpAdd holds after a composite build asks the core. */
    function ResolvedEpAdd(coreEpAdd: byte): (addr: byte)
      reads this
    {
      if composite then coreEpAdd else hidInEpAdd
    }

    /** USBD_HID_Init. `block` is what USBD_malloc returned: None when it failed,
        otherwise a block whose contents are whatever it held before; only its
        transfer state is set. Init neither closes the endpoint nor waits for a
        transmit still outstanding for `classId`: it only sets the state Idle, so
        the invariant is kept only when no such transmit exists. */
    method Init(block: Option<Instance>, coreEpAdd: byte) returns (status: Status)
      requires Valid()
      modifies this, epIn
      ensures Valid()
      ensures old(Rendezvous()) && (block.None? || classId !in old(pending)) ==> Rendezvous()
      ensures devState == old(devState) && devSpeed == old(devSpeed)
      ensures block.None? ==>
        && status == EMem && slots == old(slots) - {classId} && log == old(log)
        && hidInEpAdd == old(hidInEpAdd) && epIn[..] == old(epIn[..]) && pending == old(pending)
      ensures block.Some? ==>
        && status == Ok
        && hidInEpAdd == old(ResolvedEpAdd(coreEpAdd))
        && slots == old(slots)[classId := block.value.(state := Idle)]
        && epIn[..] == old(epIn[..])[EpIndex(hidInEpAdd) := EndpointState(true, BIntervalFor(devSpeed))]
        && log == old(log) + [OpenEP(hidInEpAdd, EP_TYPE_INTR, HID_EPIN_SIZE)]
        && pending == old(pending)
    {
      if block.None? {
        slots := slots - {classId};
        return EMem;
      }
      var hhid := block.value;
      slots := slots[classId := hhid];
      if composite {
        hidInEpAdd := coreEpAdd;
      }
      var ep := EpIndex(hidInEpAdd);
      if devSpeed == HighSpeed {
        epIn[ep] := epIn[ep].(bInterval := HID_HS_BINTERVAL);
      } else {
        epIn[ep] := epIn[ep].(bInterval := HID_FS_BINTERVAL);
      }
      log := log + [OpenEP(hidInEpAdd, EP_TYPE_INTR, HID_EPIN_SIZE)];
      epIn[ep] := epIn[ep].(isUsed := true);
      slots := slots[classId := hhid.(state := Idle)];
      status := Ok;
    }

    /** USBD_HID_DeInit: closes the endpoint, clears its ep_in[] entry and frees the
        instance if there is one. A transmit still outstanding is abandoned. */
    method DeInit(coreEpAdd: byte) returns (status: Status)
      requires Valid()
      modifies this, epIn
      ensures Valid() && (old(Rendezvous()) ==> Rendezvous())
      ensures devState == old(devState) && devSpeed == old(devSpeed)
      ensures status == Ok
      ensures hidInEpAdd == old(ResolvedEpAdd(coreEpAdd))
      ensures epIn[..] == old(epIn[..])[EpIndex(hidInEpAdd) := EndpointState(false, 0)]
      ensures slots == old(slots) - {classId} && classId !in slots
      ensures log == old(log) + [CloseEP(hidInEpAdd)]
      ensures pending == old(pending) - {classId}
    {
      if composite {
        hidInEpAdd := coreEpAdd;
      }
      log := log + [CloseEP(hidInEpAdd)];
      var ep := EpIndex(hidInEpAdd);
      epIn[ep] := epIn[ep].(isUsed := false);
      epIn[ep] := epIn[ep].(bInterval := 0);
      if classId in slots {
        slots := slots - {classId};
      }
      pending := pending - {classId};
      status := Ok;
    }

    /** The slot of the class being dispatched to, as an optional instance. */
    function CurrentInstance(): (inst: Option<Instance>)
      reads this
    {
      if classId in slots then Some(slots[classId]) else None
    }

    /** USBD_HID_Setup, specified by SetupStep. */
    method Setup(req: SetupRequest) returns (status: Status)
      requires Valid()
      modifies this
      ensures Valid() && (old(Rendezvous()) ==> Rendezvous())
      ensures devState == old(devState) && devSpeed == old(devSpeed)
      ensures hidInEpAdd == old(hidInEpAdd) && pending == old(pending)
      ensures var r := SetupStep(old(CurrentInstance()), old(devState), req);
        && status == r.status
        && log == old(log) + r.actions
        && CurrentInstance() == r.inst
        && slots.Keys == old(slots.Keys)
        && forall id :: id in slots && id != classId ==> slots[id] == old(slots[id])
    {
      if classId !in slots {
        return Fail;
      }
      var hhid := slots[classId];
      status := Ok;
      var t := RequestType(req.bmRequest);
      if t == REQ_TYPE_CLASS {
        if req.bRequest == HID_REQ_SET_PROTOCOL {
          slots := slots[classId := hhid.(protocol := LowByte(req.wValue))];
        } else if req.bRequest == HID_REQ_GET_PROTOCOL {
          log := log + [CtlSend([hhid.protocol], 1)];
        } else if req.bRequest == HID_REQ_SET_IDLE {
          slots := slots[classId := hhid.(idleState := HighByte(req.wValue))];
        } else if req.bRequest == HID_REQ_GET_IDLE {
          log := log + [CtlSend([hhid.idleState], 1)];
        } else {
          log := log + [CtlError];
          status := Fail;
        }
      } else if t == REQ_TYPE_STANDARD {
        if req.bRequest == REQ_GET_STATUS {
          if devState == Configured {
            log := log + [CtlSend([0, 0], 2)];
          } else {
            log := log + [CtlError];
            status := Fail;
          }
        } else if req.bRequest == REQ_GET_DESCRIPTOR {
          if HighByte(req.wValue) == HID_REPORT_DESC {
            var len := CappedLength(HID_MOUSE_REPORT_DESC_SIZE, req.wLength);
            log := log + [CtlSend(ReportDescTable, len)];
          } else if HighByte(req.wValue) == HID_DESCRIPTOR_TYPE {
            var len := CappedLength(USB_HID_DESC_SIZ, req.wLength);
            log := log + [CtlSend(HidDescTable, len)];
          } else {
            log := log + [CtlError];
            status := Fail;
          }
        } else if req.bRequest == REQ_GET_INTERFACE {
          if devState == Configured {
            log := log + [CtlSend([hhid.altSetting], 1)];
          } else {
            log := log + [CtlError];
            status := Fail;
          }
        } else if req.bRequest == REQ_SET_INTERFACE {
          if devState == Configured {
            slots := slots[classId := hhid.(altSetting := LowByte(req.wValue))];
          } else {
            log := log + [CtlError];
            status := Fail;
          }
        } else if req.bRequest == REQ_CLEAR_FEATURE {
        } else {
          log := log + [CtlError];
          status := Fail;
        }
      } else {
        log := log + [CtlError];
        status := Fail;
      }
    }

    /** The class index SendReport addresses: its argument in a composite build,
        pdev->classId otherwise. */
    function ReportClass(classIdArg: nat): (id: nat)
      reads this
    {
      if composite then classIdArg else classId
    }

    /** USBD_HID_SendReport: without an instance it fails and changes nothing;
        otherwise it returns OK, and it starts a transmit of `len` bytes of `report`
        exactly when the device is Configured and the instance Idle, making it Busy.
        While a transmit is outstanding nothing reaches the endpoint. */
    method SendReport(report: seq<byte>, len: u16, classIdArg: nat, coreEpAdd: byte) returns (status: Status)
      requires Valid()
      modifies this
      ensures Valid() && (old(Rendezvous()) ==> Rendezvous())
      ensures devState == old(devState) && devSpeed == old(devSpeed)
      ensures var id := old(ReportClass(classIdArg));
        && (id !in old(slots) ==>
              status == Fail && slots == old(slots) && log == old(log)
              && hidInEpAdd == old(hidInEpAdd) && pending == old(pending))
        && (id in old(slots) ==> status == Ok && hidInEpAdd == old(ResolvedEpAdd(coreEpAdd)))
        && (id in old(slots) && old(devState) == Configured && old(slots[id].state) == Idle ==>
              && slots == old(slots)[id := old(slots[id]).(state := TransferState.Busy)]
              && log == old(log) + [Transmit(hidInEpAdd, report, len)]
              && pending == old(pending) + {id})
        && (id in old(slots) && !(old(devState) == Configured && old(slots[id].state) == Idle) ==>
              slots == old(slots) && log == old(log) && pending == old(pending))
        && (old(Rendezvous()) && id in old(pending) ==> log == old(log))
    {
      var id := ReportClass(classIdArg);
      if id !in slots {
        return Fail;
      }
      var hhid := slots[id];
      if composite {
        hidInEpAdd := coreEpAdd;
      }
      if devState == Configured {
        if hhid.state == Idle {
          slots := slots[id := hhid.(state := TransferState.Busy)];
          log := log + [Transmit(hidInEpAdd, report, len)];
          pending := pending + {id};
        }
      }
      status := Ok;
    }

    /** USBD_HID_DataIn: the transmit has completed, the instance is Idle whatever
        it was before; nothing else changes. There is no check for a missing
        instance, so one is required. */
    method DataIn(epnum: byte) returns (status: Status)
      requires Valid() && classId in slots
      modifies this
      ensures Valid() && (old(Rendezvous()) ==> Rendezvous())
      ensures devState == old(devState) && devSpeed == old(devSpeed) && hidInEpAdd == old(hidInEpAdd)
      ensures status == Ok
      ensures slots == old(slots)[classId := old(slots[classId]).(state := Idle)]
      ensures log == old(log) && pending == old(pending) - {classId}
    {
      slots := slots[classId := slots[classId].(state := Idle)];
      pending := pending - {classId};
      status := Ok;
    }

    /** USBD_GetEpDesc followed by the bInterval write of a getter. */
    method SetEndpointBInterval(v: byte)
      requires Valid()
      modifies cfgDesc
      ensures Valid()
      ensures cfgDesc[..] == WithBInterval(old(cfgDesc[..]), HID_EPIN_ADDR, v)
      ensures cfgDesc[..] == CfgDescTable[33 := v]
    {
      WithBIntervalCfgDesc(cfgDesc[33], v);
      var ep := FindEndpoint(cfgDesc[..], HID_EPIN_ADDR);
      if ep.Some? {
        cfgDesc[ep.value + B_INTERVAL_FIELD] := v;
      }
    }

    /** USBD_HID_GetFSCfgDesc: the full-speed bInterval restores the table as
        initialised. */
    method GetFSCfgDesc() returns (buf: array<byte>, length: u16)
      requires Valid()
      modifies cfgDesc
      ensures Valid()
      ensures buf == cfgDesc && length == cfgDesc.Length == USB_HID_CONFIG_DESC_SIZ
      ensures cfgDesc[..] == WithBInterval(old(cfgDesc[..]), HID_EPIN_ADDR, HID_FS_BINTERVAL)
      ensures cfgDesc[..] == CfgDescTable
    {
      SetEndpointBInterval(HID_FS_BINTERVAL);
      assert CfgDescTable[33 := HID_FS_BINTERVAL] == CfgDescTable;
      length := cfgDesc.Length;
      buf := cfgDesc;
    }

    /** USBD_HID_GetHSCfgDesc: the high-speed exponent in the endpoint's bInterval. */
    method GetHSCfgDesc() returns (buf: array<byte>, length: u16)
      requires Valid()
      modifies cfgDesc
      ensures Valid()
      ensures buf == cfgDesc && length == cfgDesc.Length == USB_HID_CONFIG_DESC_SIZ
      ensures cfgDesc[..] == WithBInterval(old(cfgDesc[..]), HID_EPIN_ADDR, HID_HS_BINTERVAL)
      ensures cfgDesc[..] == CfgDescTable[33 := HID_HS_BINTERVAL]
    {
      SetEndpointBInterval(HID_HS_BINTERVAL);
      length := cfgDesc.Length;
      buf := cfgDesc;
    }

    /** USBD_HID_GetOtherSpeedCfgDesc: the full-speed bInterval, as GetFSCfgDesc. */
    method GetOtherSpeedCfgDesc() returns (buf: array<byte>, length: u16)
      requires Valid()
      modifies cfgDesc
      ensures Valid()
      ensures buf == cfgDesc && length == cfgDesc.Length == USB_HID_CONFIG_DESC_SIZ
      ensures cfgDesc[..] == WithBInterval(old(cfgDesc[..]), HID_EPIN_ADDR, HID_FS_BINTERVAL)
      ensures cfgDesc[..] == CfgDescTable
    {
      SetEndpointBInterval(HID_FS_BINTERVAL);
      assert CfgDescTable[33 := HID_FS_BINTERVAL] == CfgDescTable;
      length := cfgDesc.Length;
      buf := cfgDesc;
    }
  }
}
