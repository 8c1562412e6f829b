/** The polling interval of the interrupt IN endpoint, as a function of the link
    speed (USBD_HID_GetPollingInterval), and the bInterval value the driver
    writes for each speed. */
module HidPolling {
  import opened UsbTypes
  import opened HidDefs

  /** 2^k; `1U << k` for the shift amounts used here (k <= 15, so no 32-bit wrap). */
  function Pow2(k: nat): (p: nat)
    ensures p >= 1
  {
    if k == 0 then 1 else 2 * Pow2(k - 1)
  }

  lemma {:induction false} Pow2Add(a: nat, b: nat)
    ensures Pow2(a + b) == Pow2(a) * Pow2(b)
  {
    if a > 0 {
      Pow2Add(a - 1, b);
    }
  }

  lemma {:induction false} Pow2Monotonic(a: nat, b: nat)
    requires a <= b
    ensures Pow2(a) <= Pow2(b)
  {
    if a < b {
      Pow2Monotonic(a, b - 1);
    }
  }

  /** Dividing 2^k by eight, with truncation, for k >= 3 and for k <= 2. */
  lemma Pow2Div8(k: nat)
    ensures k >= 3 ==> Pow2(k) / 8 == Pow2(k - 3)
    ensures k <= 2 ==> Pow2(k) / 8 == 0
  {
    if k >= 3 {
      Pow2Add(3, k - 3);
      assert 3 + (k - 3) == k;
    } else {
      Pow2Monotonic(k, 2);
    }
  }

  /** The polling interval in milliseconds for a high-speed exponent `hsExp` and a
      full-speed interval `fs`: at high speed 2^(hsExp-1) microframes, divided by
      eight with truncation; at full and low speed `fs` itself. */
  function PollingIntervalFor(speed: Speed, hsExp: HsExponent, fs: FsInterval): (r: nat)
    ensures speed == HighSpeed && hsExp <= 3 ==> r == 0
    ensures speed == HighSpeed && hsExp >= 4 ==> r == Pow2(hsExp - 4)
    ensures speed != HighSpeed ==> r == fs
    ensures r < 0x1_0000_0000
  {
    if speed == HighSpeed then
      var k: nat := hsExp - 1;
      Pow2Div8(k);
      Pow2Monotonic(k, 15);
      assert Pow2(15) == 0x8000;
      Pow2(k) / 8
    else
      fs
  }

  /** USBD_HID_GetPollingInterval with the configured HID_HS_BINTERVAL and
      HID_FS_BINTERVAL. */
  function GetPollingInterval(speed: Speed): (r: nat)
    ensures speed == HighSpeed ==> r == 8
    ensures speed != HighSpeed ==> r == 10
  {
    PollingIntervalFor(speed, HID_HS_BINTERVAL, HID_FS_BINTERVAL)
  }

  /** Worked examples: exponent 8 at high speed gives 16 ms, a full-speed interval
      of 10 gives 10 ms, and an exponent of at most 3 gives 0 ms. */
  lemma PollingIntervalExamples(fs: FsInterval, e: HsExponent)
    ensures PollingIntervalFor(HighSpeed, 8, fs) == 16
    ensures PollingIntervalFor(FullSpeed, e, 10) == 10
    ensures PollingIntervalFor(LowSpeed, e, 10) == 10
    ensures e <= 3 ==> PollingIntervalFor(HighSpeed, e, fs) == 0
  {
  }

  /** The bInterval the driver writes into ep_in[] and into the endpoint descriptor:
      the exponent at high speed, the millisecond count otherwise. */
  function BIntervalFor(speed: Speed): (bInterval: byte)
  {
    if speed == HighSpeed then HID_HS_BINTERVAL else HID_FS_BINTERVAL
  }

  /** What the bInterval written means: at full and low speed it is the polling
      interval in milliseconds itself; at high speed it is the exponent, and the
      polling interval is the period it encodes, in milliseconds. */
  lemma BIntervalEncodesPolling(speed: Speed)
    ensures speed != HighSpeed ==> BIntervalFor(speed) == GetPollingInterval(speed)
    ensures speed == HighSpeed ==>
      BIntervalFor(speed) == HID_HS_BINTERVAL && GetPollingInterval(speed) == Pow2(BIntervalFor(speed) - 1) / 8
  {
    if speed == HighSpeed {
      Pow2Div8(HID_HS_BINTERVAL - 1);
    }
  }
}
