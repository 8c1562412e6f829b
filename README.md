# HID class driver of the STM32 USB device library, in Dafny

This project models `usbd_hid.c`, the HID class driver of ST's USB device
library. The model covers:

- the class callbacks that the device core calls: Init, DeInit, Setup and DataIn;
- the application entry points SendReport and GetPollingInterval;
- the configuration-descriptor and device-qualifier getters;
- the four static descriptor tables.

The modules follow the structure of the driver:

| file | module | contents |
|---|---|---|
| `usb_types.dfy` | `UsbTypes` | bytes, 16-bit words and return codes; link speed and device state; the SETUP packet; the chapter 9 request and descriptor codes of USB 2.0 |
| `hid_defs.dfy` | `HidDefs` | the header constants; the class instance `USBD_HID_HandleTypeDef`; an `ep_in[]` entry; `Action`, the calls the driver makes into the device core |
| `polling.dfy` | `HidPolling` | `USBD_HID_GetPollingInterval` and the bInterval written at each speed |
| `report_items.dfy` | `HidReportItems` | the short-item encoding of report descriptors (section 6.2.2.2 of HID 1.11): encoder, decoder, their round trips, and collection nesting |
| `report_descriptor.dfy` | `HidReportDescriptor` | `HID_MOUSE_ReportDesc`, as bytes and as the items its per-byte annotations name, proved to agree |
| `descriptors.dfy` | `HidDescriptors` | `USBD_HID_CfgDesc`, `USBD_HID_Desc` and the device qualifier; the walk along the bLength chain that finds the endpoint descriptor; the bInterval rewrite of the getters |
| `setup.dfy` | `HidSetup` | `USBD_HID_Setup` as a pure function `SetupStep`, with its outcomes per request |
| `hid_device.dfy` | `HidClass` | `class HidDevice`, the imperative part of the driver |
| `hid_scenarios.dfy` | `HidScenarios` | sequences of calls made as the device core and an application make them |

`HidDevice` holds the part of the device record that the driver reads and writes:

- `slots` models `pClassDataCmsit`. A class index is present exactly when its slot is non-NULL.
- `epIn` models `ep_in[]`, as an array of `is_used`/`bInterval` pairs.
- `hidInEpAdd` models the file-static `HIDInEpAdd`.
- `cfgDesc` models `USBD_HID_CfgDesc`, as a byte array that the getters rewrite in place.
- `devState` and `devSpeed` are maintained by the device core.
- `log` records the calls the driver makes into the core, in order, instead of performing them. Those calls are `USBD_LL_OpenEP`, `USBD_LL_CloseEP`, `USBD_LL_Transmit`, `USBD_CtlSendData` and `USBD_CtlError`.

Two predicates hold the device invariants:

- `Valid()` keeps the configuration descriptor equal to its initial table everywhere except the endpoint's bInterval byte. In the single-class build it also keeps `HIDInEpAdd` at `HID_EPIN_ADDR`.
- `Rendezvous()` is the "one report in flight" invariant. A ghost set `pending` holds the class indices whose transmit SendReport started and that neither DataIn has completed nor DeInit has abandoned by closing the endpoint. Every present instance in that set is Busy. Setup, SendReport, DataIn and DeInit preserve it. Init preserves it when its class has no transmit outstanding, which holds whenever the device core calls DeInit before calling Init again; `HidScenarios.ReinitWhileBusy` shows what happens otherwise.

Both builds of the driver are covered. The constant `composite` selects `USE_USBD_COMPOSITE`. In a composite build, the address that `USBD_CoreGetEPAdd` would return is passed to Init, DeInit and SendReport as `coreEpAdd`.

The header `usbd_hid.h` is not part of this model. Its constants take ST's default values:

- `HID_EPIN_ADDR` 0x81;
- `HID_EPIN_SIZE` 4;
- `HID_FS_BINTERVAL` 10;
- `HID_HS_BINTERVAL` 7;
- `USBD_MAX_POWER` 0x32;
- a self-powered configuration.

The three table sizes are the number of initialisers in each table: 34, 9 and 187. The contracts refer to these constants by name where possible. The polling arithmetic is proved for every high-speed exponent from 1 to 16 and every full-speed interval, in `PollingIntervalFor`.

At high speed, Init and the high-speed getter write `HID_HS_BINTERVAL`, the exponent 7, into bInterval (usbd_hid.c:454 and 729). `USBD_HID_GetPollingInterval` returns the 8 ms that this exponent encodes (line 683). At full and low speed they write `HID_FS_BINTERVAL`, 10, which is the polling interval in milliseconds. `BIntervalEncodesPolling` states this relation.

## Model

| member | source | states |
|---|---|---|
| UsbTypes.RequestType | Middlewares/ST/STM32_USB_Device_Library/Class/HID/Src/usbd_hid.c:521 | the request type is `bmRequest & 0x60`, so bit 7 and bits 4..0 are ignored; it is one of the four request types, and a value below 0x20 is a standard request |
| HidPolling.PollingIntervalFor | Middlewares/ST/STM32_USB_Device_Library/Class/HID/Src/usbd_hid.c:673-693 | at high speed the interval is `2^(e-1) div 8`: it is 0 for exponents up to 3 and `2^(e-4)` above. At full and low speed it is the full-speed interval. It fits in 32 bits |
| HidPolling.GetPollingInterval | Middlewares/ST/STM32_USB_Device_Library/Class/HID/Src/usbd_hid.c:673-693 | with the configured constants: 8 ms at high speed, 10 ms otherwise |
| HidPolling.PollingIntervalExamples | Middlewares/ST/STM32_USB_Device_Library/Class/HID/Src/usbd_hid.c:678-690 | exponent 8 gives 16 ms; a full-speed interval of 10 gives 10 at full and low speed; exponents up to 3 give 0 |
| HidPolling.BIntervalEncodesPolling | Middlewares/ST/STM32_USB_Device_Library/Class/HID/Src/usbd_hid.c:453-460 | at full and low speed, the bInterval that Init and the getters write is the polling interval. At high speed it is the exponent whose period is the polling interval |
| HidReportItems.PrefixDecodes | Middlewares/ST/STM32_USB_Device_Library/Class/HID/Src/usbd_hid.c:221-410 | a well-formed item's prefix byte yields its bTag, bType and bSize, as the per-byte annotations read them, and is never the long-item marker |
| HidReportItems.DecodeItem | Middlewares/ST/STM32_USB_Device_Library/Class/HID/Src/usbd_hid.c:221-410 | an item read from the front of a byte string is well formed, and the bytes it consumes are exactly its encoding |
| HidReportItems.DecodeItems | Middlewares/ST/STM32_USB_Device_Library/Class/HID/Src/usbd_hid.c:221-410 | every item the decoder returns is well formed |
| HidReportItems.DecodeEncode | Middlewares/ST/STM32_USB_Device_Library/Class/HID/Src/usbd_hid.c:221-410 | decoding the encoding of well-formed items gives the items back |
| HidReportItems.EncodeDecode | Middlewares/ST/STM32_USB_Device_Library/Class/HID/Src/usbd_hid.c:221-410 | whatever the decoder accepts is the encoding of what it returns |
| HidReportItems.DepthAppend | Middlewares/ST/STM32_USB_Device_Library/Class/HID/Src/usbd_hid.c:221-410 | collection depth over a concatenation continues from the depth after the first part |
| HidReportDescriptor.ReportDescLength | Middlewares/ST/STM32_USB_Device_Library/Class/HID/Src/usbd_hid.c:221 | the report descriptor has `HID_MOUSE_REPORT_DESC_SIZE` bytes |
| HidReportDescriptor.ReportEncodes | Middlewares/ST/STM32_USB_Device_Library/Class/HID/Src/usbd_hid.c:221-410 | the table's bytes are exactly the encoding of the 94 items its annotations name |
| HidReportDescriptor.ReportShape | Middlewares/ST/STM32_USB_Device_Library/Class/HID/Src/usbd_hid.c:221-410 | every item has a short encoding, and each of the five collections is closed by an End Collection |
| HidReportDescriptor.ReportDescriptorItems | Middlewares/ST/STM32_USB_Device_Library/Class/HID/Src/usbd_hid.c:221-410 | the decoder reads the table back as exactly the annotated items: the bSize, bType and bTag annotations agree with the bytes |
| HidDescriptors.CfgDescChain | Middlewares/ST/STM32_USB_Device_Library/Class/HID/Src/usbd_hid.c:135-185 | the bLength chain 9/9/9/7 runs from offsets 0, 9, 18 and 27 to the end at 34, with configuration, interface, HID and endpoint types. wTotalLength equals the table size |
| HidDescriptors.CfgDescEmbedsHidDesc | Middlewares/ST/STM32_USB_Device_Library/Class/HID/Src/usbd_hid.c:164-173 | bytes 18 to 26 of the configuration descriptor are `USBD_HID_Desc`, which has `USB_HID_DESC_SIZ` bytes |
| HidDescriptors.ItemLengthMatchesReport | Middlewares/ST/STM32_USB_Device_Library/Class/HID/Src/usbd_hid.c:172-173 | wItemLength in the configuration descriptor and in `USBD_HID_Desc` (lines 199-200) both equal the length of the report descriptor |
| HidDescriptors.QualifierLayout | Middlewares/ST/STM32_USB_Device_Library/Class/HID/Src/usbd_hid.c:205-217 | the device qualifier is `USB_LEN_DEV_QUALIFIER_DESC` bytes long, its bLength is its size, and it declares USB 2.00, bMaxPacketSize0 0x40 and one other-speed configuration |
| HidDescriptors.FindEndpointFrom | Middlewares/ST/STM32_USB_Device_Library/Class/HID/Src/usbd_hid.c:705 | a position the walk returns holds an endpoint descriptor for the address, and a matching descriptor at the start position is returned |
| HidDescriptors.FindEndpoint | Middlewares/ST/STM32_USB_Device_Library/Class/HID/Src/usbd_hid.c:705 | stands in for `USBD_GetEpDesc`: a found position holds an endpoint descriptor for the address |
| HidDescriptors.WithBInterval | Middlewares/ST/STM32_USB_Device_Library/Class/HID/Src/usbd_hid.c:705-710 | a getter changes only the found endpoint's bInterval byte, and skips the write when no endpoint is found |
| HidDescriptors.FindHidEndpoint | Middlewares/ST/STM32_USB_Device_Library/Class/HID/Src/usbd_hid.c:175-184 | the walk finds the `HID_EPIN_ADDR` endpoint descriptor at offset 27, whatever the bInterval byte holds |
| HidDescriptors.WithBIntervalCfgDesc | Middlewares/ST/STM32_USB_Device_Library/Class/HID/Src/usbd_hid.c:703-754 | every getter rewrites exactly byte 33, and the last getter called decides its value |
| HidDescriptors.GetDeviceQualifierDesc | Middlewares/ST/STM32_USB_Device_Library/Class/HID/Src/usbd_hid.c:781-786 | returns `USBD_HID_DeviceQualifierDesc` with its size 10: bLength, the qualifier type, bcdUSB 2.00, bMaxPacketSize0 0x40, one other-speed configuration and the reserved byte 0 |
| HidSetup.CappedLength | Middlewares/ST/STM32_USB_Device_Library/Class/HID/Src/usbd_hid.c:567 | `MIN(size, wLength)`: the length is at most both arguments and equals one of them |
| HidSetup.SetupStep | Middlewares/ST/STM32_USB_Device_Library/Class/HID/Src/usbd_hid.c:508-624 | with no instance the result is FAIL with no call. With an instance, the result fails exactly when it stalls once. A failure leaves the instance unchanged. At most one call is made, and the transfer state is never touched |
| HidSetup.ClassRequestOutcomes | Middlewares/ST/STM32_USB_Device_Library/Class/HID/Src/usbd_hid.c:523-547 | SET_PROTOCOL stores the low byte of wValue and SET_IDLE the high byte. GET_PROTOCOL and GET_IDLE send one byte, the stored value. Any other class request stalls and changes nothing |
| HidSetup.StandardRequestOutcomes | Middlewares/ST/STM32_USB_Device_Library/Class/HID/Src/usbd_hid.c:548-615 | GET_STATUS sends two zero bytes, GET_INTERFACE sends AltSetting, and SET_INTERFACE stores the low byte of wValue. All three act only when Configured and otherwise stall. CLEAR_FEATURE succeeds with no change. Unknown requests stall |
| HidSetup.OtherRequestTypesStall | Middlewares/ST/STM32_USB_Device_Library/Class/HID/Src/usbd_hid.c:617-620 | a vendor or reserved request type stalls and returns FAIL |
| HidSetup.GetDescriptorOutcomes | Middlewares/ST/STM32_USB_Device_Library/Class/HID/Src/usbd_hid.c:563-581 | the report or HID descriptor is sent from its start with length `min(size, wLength)`, so the wire bytes are a prefix of it; any other type stalls |
| HidSetup.SetThenGetProtocol | Middlewares/ST/STM32_USB_Device_Library/Class/HID/Src/usbd_hid.c:526-532 | SET_PROTOCOL followed by GET_PROTOCOL sends back the low byte that was stored |
| HidSetup.SetThenGetIdle | Middlewares/ST/STM32_USB_Device_Library/Class/HID/Src/usbd_hid.c:534-540 | SET_IDLE followed by GET_IDLE sends back the high byte that was stored |
| HidSetup.ReportDescriptorRequestedWhole | Middlewares/ST/STM32_USB_Device_Library/Class/HID/Src/usbd_hid.c:563-569 | a request for 500 bytes of the report descriptor sends all 187 bytes |
| HidClass.HidDevice.constructor | Middlewares/ST/STM32_USB_Device_Library/Class/HID/Src/usbd_hid.c:413 | the initial state: `HIDInEpAdd` is `HID_EPIN_ADDR`, the configuration descriptor is its initial table (lines 135-185), there are no instances and nothing is pending |
| HidClass.HidDevice.Init | Middlewares/ST/STM32_USB_Device_Library/Class/HID/Src/usbd_hid.c:430-468 | on allocation failure: EMEM, the slot NULL, no endpoint opened. Otherwise the slot holds the block with state Idle, and the endpoint's bInterval is set by speed, then it is opened and marked used. Only the state of the block is initialised. The one-report invariant is kept when the class has no transmit outstanding |
| HidClass.HidDevice.DeInit | Middlewares/ST/STM32_USB_Device_Library/Class/HID/Src/usbd_hid.c:477-499 | closes the endpoint, clears `is_used` and `bInterval`, frees the slot if it holds an instance, and returns OK, also when called again |
| HidClass.HidDevice.Setup | Middlewares/ST/STM32_USB_Device_Library/Class/HID/Src/usbd_hid.c:508-624 | the return code, the calls and the new instance are those of `SetupStep`; nothing else changes |
| HidClass.HidDevice.SendReport | Middlewares/ST/STM32_USB_Device_Library/Class/HID/Src/usbd_hid.c:636-665 | with no instance: FAIL and no change. When Configured and Idle: Busy and exactly one transmit of `len` bytes on the IN endpoint. Otherwise nothing happens and OK is returned. While a transmit is pending, nothing reaches the endpoint |
| HidClass.HidDevice.DataIn | Middlewares/ST/STM32_USB_Device_Library/Class/HID/Src/usbd_hid.c:764-772 | the instance becomes Idle whatever it was, nothing else changes, and OK is returned. There is no NULL check, so an instance is required |
| HidClass.HidDevice.SetEndpointBInterval | Middlewares/ST/STM32_USB_Device_Library/Class/HID/Src/usbd_hid.c:705-710 | the endpoint lookup and bInterval write shared by the getters; only byte 33 changes |
| HidClass.HidDevice.GetFSCfgDesc | Middlewares/ST/STM32_USB_Device_Library/Class/HID/Src/usbd_hid.c:703-714 | writes `HID_FS_BINTERVAL`, which restores the table as initialised, and returns the buffer with length `sizeof(USBD_HID_CfgDesc)` |
| HidClass.HidDevice.GetHSCfgDesc | Middlewares/ST/STM32_USB_Device_Library/Class/HID/Src/usbd_hid.c:723-734 | writes `HID_HS_BINTERVAL` into byte 33 only and returns the buffer with its full length |
| HidClass.HidDevice.GetOtherSpeedCfgDesc | Middlewares/ST/STM32_USB_Device_Library/Class/HID/Src/usbd_hid.c:743-754 | writes `HID_FS_BINTERVAL`, as the full-speed getter does, and returns the buffer with its full length |
| HidScenarios.ReportDescriptorFetch | Middlewares/ST/STM32_USB_Device_Library/Class/HID/Src/usbd_hid.c:563-581 | after Init, GET_DESCRIPTOR(report, 500) succeeds, and the only call is one reply of the whole descriptor |
| HidScenarios.SubmitDropComplete | Middlewares/ST/STM32_USB_Device_Library/Class/HID/Src/usbd_hid.c:655-662 | a report while Idle is transmitted. A second report before DataIn (lines 764-772) is dropped with OK. After DataIn the third report is transmitted: the calls are exactly the transmits of the first and third reports |
| HidScenarios.SubmitUnconfigured | Middlewares/ST/STM32_USB_Device_Library/Class/HID/Src/usbd_hid.c:655-664 | a report before the device is Configured is dropped and OK is returned |
| HidScenarios.ProtocolRoundTrip | Middlewares/ST/STM32_USB_Device_Library/Class/HID/Src/usbd_hid.c:526-532 | SET_PROTOCOL(0) and then GET_PROTOCOL both succeed, and the only call is a reply of the single byte 0 |
| HidScenarios.UnknownClassRequest | Middlewares/ST/STM32_USB_Device_Library/Class/HID/Src/usbd_hid.c:542-546 | an unknown class request makes one CtlError call, returns FAIL and leaves a Busy transfer state Busy |
| HidScenarios.SetupWithoutInstance | Middlewares/ST/STM32_USB_Device_Library/Class/HID/Src/usbd_hid.c:516-519 | before Init, a request fails without any call into the core |
| HidScenarios.InitOutOfMemory | Middlewares/ST/STM32_USB_Device_Library/Class/HID/Src/usbd_hid.c:436-442 | a failed allocation gives EMEM and leaves the endpoint unused, and a later SendReport fails |
| HidScenarios.ActivateDeactivateTwice | Middlewares/ST/STM32_USB_Device_Library/Class/HID/Src/usbd_hid.c:477-499 | Init, DeInit, DeInit leaves no instance and the endpoint unused with bInterval 0; the second DeInit only closes the endpoint again |
| HidScenarios.CompletionTwice | Middlewares/ST/STM32_USB_Device_Library/Class/HID/Src/usbd_hid.c:764-772 | the slots after a second DataIn equal those after the first, with the instance Idle |
| HidScenarios.ReinitWhileBusy | Middlewares/ST/STM32_USB_Device_Library/Class/HID/Src/usbd_hid.c:436-467 | Init while a transmit is outstanding sets the instance Idle without closing the endpoint, so the calls are the first transmit, the OpenEP of the second Init and the second transmit, with no CloseEP and no DataIn in between |
| HidScenarios.GettersAlternate | Middlewares/ST/STM32_USB_Device_Library/Class/HID/Src/usbd_hid.c:703-734 | the high-speed getter leaves bInterval 7 and the full-speed getter then leaves 10, with length 34 each time |

## Left out

- Calls into the device core are entries in `HidDevice.log`, not implementations. They are `USBD_LL_OpenEP`, `USBD_LL_CloseEP`, `USBD_LL_Transmit`, `USBD_CtlSendData` and `USBD_CtlError`. The buffer and length handed to each call are recorded; what the core does with them is not modelled.
- `USBD_malloc` and `USBD_free` are not modelled as a heap. Init receives the result of the allocation as `block`. Freeing removes the slot. The uninitialised contents of a fresh block are whatever `block` holds.
- `USBD_GetEpDesc` is not part of this model. `FindEndpoint` stands in for it. It walks the bLength chain that starts after the configuration descriptor, looking for an endpoint descriptor with the address. It stops at a zero bLength or at the end of the buffer.
- `USBD_CoreGetEPAdd` is not part of this model. Its result is the parameter `coreEpAdd`.
- The class index of a composite device is a constant of the device object; how the core chooses it is not modelled.
- `pdev->pClassData`, which Init sets as an alias of the slot, is not modelled. The driver never reads it.
- The `cfgidx` argument of Init and DeInit is unused by the code and is not a parameter of the model. DataIn keeps `epnum`, unused as in the code.
- `Protocol`, `IdleState` and `AltSetting` are modelled as bytes. The code stores `(uint8_t)` casts into them and sends one byte from their address. The wider type the header may give them is not modelled.
- The `USBD_SELF_POWERED` choice and the header constants are fixed to one configuration, listed above. Alignment and DMA macros are not modelled.
- Interrupts and reentrancy are not modelled: every entry point is a sequential call.
- HidClass.HidDevice.Init: does not promise the one-report invariant when a transmit of its class is still outstanding, because the code then sets the state Idle without closing the endpoint. The device core calls DeInit, which closes it, before any second Init.
- The lifetime of the buffer a call is given is not modelled. `CtlSend` records a copy of the bytes at the time of the call. GET_STATUS passes `status_info`, a local variable of `USBD_HID_Setup` (usbd_hid.c:514 and 554), and the core finishes that send after Setup returns.
- The descriptor getters and the qualifier getter exist only in the single-class build. The model provides them for every device object.
- The meaning of report contents is not modelled. Reports are passed through as bytes.
- Long items (prefix 0xFE, section 6.2.2.3 of HID 1.11) are rejected by the item decoder; the report descriptor has none.
