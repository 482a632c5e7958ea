/** The three status registers the PEX8619 debug tool decodes field by
    field: Debug Control (offset 0x1DC), Link Control/Link Status (0x78) and
    Link Control 2/Link Status 2 (0x98). Each decoder is a function of the
    32-bit value read; the tool's dictionary becomes one record per
    register, and link speeds are in tenths of a GT/s. Each register also
    gets an encoder, the register value with given fields, so that decoding
    can be shown to lose nothing. */
module Plx8619Registers {
  import opened Bits
  import opened Python

  // ---------------------------------------------------------------------
  // Debug Control, offset 0x1DC

  datatype DebugControl = DebugControl(
    upcfgTimerEnable: int,                  // bit 4
    smbusEnable: int,                       // bit 5
    ntP2pEnable: int,                       // bit 6
    upstreamPortId: int,                    // bits 8-11
    interruptFencingMode: int,              // bits 12-13
    configModeControl: int,                 // bit 15
    upstreamHotResetControl: int,           // bit 16
    noEepromLoadOnHotReset: int,            // bit 17
    ntModeEnable: int,                      // bit 18
    ntPortDlDownPropagationDisable: int,    // bit 19
    upstreamDlDownPropagationDisable: int,  // bit 20
    cutThruEnable: int,                     // bit 21
    ntPortNumber: int,                      // bits 24-27
    virtualInterfaceAccessEnable: int,      // bit 28
    linkInterfaceAccessEnable: int,         // bit 29
    inhibitNtLinkLoadOnHotReset: int,       // bit 30
    loadOnlyNtLinkOnHotReset: int)          // bit 31

  /** Whether every field fits its bits. */
  predicate DebugControlFits(d: DebugControl)
  {
    Bit(d.upcfgTimerEnable) && Bit(d.smbusEnable) && Bit(d.ntP2pEnable) &&
    0 <= d.upstreamPortId < 16 && 0 <= d.interruptFencingMode < 4 &&
    Bit(d.configModeControl) && Bit(d.upstreamHotResetControl) && Bit(d.noEepromLoadOnHotReset) &&
    Bit(d.ntModeEnable) && Bit(d.ntPortDlDownPropagationDisable) && Bit(d.upstreamDlDownPropagationDisable) &&
    Bit(d.cutThruEnable) && 0 <= d.ntPortNumber < 16 && Bit(d.virtualInterfaceAccessEnable) &&
    Bit(d.linkInterfaceAccessEnable) && Bit(d.inhibitNtLinkLoadOnHotReset) && Bit(d.loadOnlyNtLinkOnHotReset)
  }

  predicate Bit(x: int)
  {
    x == 0 || x == 1
  }

  /** plx_get_debug_control's decoding. */
  function DecodeDebugControl(val: int): (d: DebugControl)
    ensures DebugControlFits(d)
  {
    Pow2Table();
    DebugControl(
      Field(val, 4, 1), Field(val, 5, 1), Field(val, 6, 1), Field(val, 8, 4),
      Field(val, 12, 2), Field(val, 15, 1), Field(val, 16, 1), Field(val, 17, 1),
      Field(val, 18, 1), Field(val, 19, 1), Field(val, 20, 1), Field(val, 21, 1),
      Field(val, 24, 4), Field(val, 28, 1), Field(val, 29, 1), Field(val, 30, 1),
      Field(val, 31, 1))
  }

  /** The register value holding d's fields, with every other bit clear;
      fields are written lowest first. */
  function EncodeDebugControl(d: DebugControl): int
  {
    var v1 := Put4(0, 4, 1, d.upcfgTimerEnable, 5, 1, d.smbusEnable, 6, 1, d.ntP2pEnable,
      8, 4, d.upstreamPortId);
    var v2 := Put4(v1, 12, 2, d.interruptFencingMode, 15, 1, d.configModeControl,
      16, 1, d.upstreamHotResetControl, 17, 1, d.noEepromLoadOnHotReset);
    var v3 := Put4(v2, 18, 1, d.ntModeEnable, 19, 1, d.ntPortDlDownPropagationDisable,
      20, 1, d.upstreamDlDownPropagationDisable, 21, 1, d.cutThruEnable);
    var v4 := Put4(v3, 24, 4, d.ntPortNumber, 28, 1, d.virtualInterfaceAccessEnable,
      29, 1, d.linkInterfaceAccessEnable, 30, 1, d.inhibitNtLinkLoadOnHotReset);
    Put(v4, 31, 1, d.loadOnlyNtLinkOnHotReset)
  }

  /** Decoding loses nothing: every record whose fields fit comes back from
      the value that holds it. */
  lemma DebugControlRoundTrip(d: DebugControl)
    requires DebugControlFits(d)
    ensures DecodeDebugControl(EncodeDebugControl(d)) == d
  {
    Pow2Table();
    var v1 := Put4(0, 4, 1, d.upcfgTimerEnable, 5, 1, d.smbusEnable, 6, 1, d.ntP2pEnable,
      8, 4, d.upstreamPortId);
    var v2 := Put4(v1, 12, 2, d.interruptFencingMode, 15, 1, d.configModeControl,
      16, 1, d.upstreamHotResetControl, 17, 1, d.noEepromLoadOnHotReset);
    var v3 := Put4(v2, 18, 1, d.ntModeEnable, 19, 1, d.ntPortDlDownPropagationDisable,
      20, 1, d.upstreamDlDownPropagationDisable, 21, 1, d.cutThruEnable);
    var v4 := Put4(v3, 24, 4, d.ntPortNumber, 28, 1, d.virtualInterfaceAccessEnable,
      29, 1, d.linkInterfaceAccessEnable, 30, 1, d.inhibitNtLinkLoadOnHotReset);
    assert EncodeDebugControl(d) == Put(v4, 31, 1, d.loadOnlyNtLinkOnHotReset);
    FieldPutSame(v4, 31, 1, d.loadOnlyNtLinkOnHotReset);
    forall s: nat, w: nat | s + w <= 31
      ensures Field(Put(v4, 31, 1, d.loadOnlyNtLinkOnHotReset), s, w) == Field(v4, s, w)
    {
      FieldPutBelow(v4, 31, 1, d.loadOnlyNtLinkOnHotReset, s, w);
    }
    Put4Fields(0, 4, 1, d.upcfgTimerEnable, 5, 1, d.smbusEnable, 6, 1, d.ntP2pEnable,
      8, 4, d.upstreamPortId);
    Put4Fields(v1, 12, 2, d.interruptFencingMode, 15, 1, d.configModeControl,
      16, 1, d.upstreamHotResetControl, 17, 1, d.noEepromLoadOnHotReset);
    Put4Fields(v2, 18, 1, d.ntModeEnable, 19, 1, d.ntPortDlDownPropagationDisable,
      20, 1, d.upstreamDlDownPropagationDisable, 21, 1, d.cutThruEnable);
    Put4Fields(v3, 24, 4, d.ntPortNumber, 28, 1, d.virtualInterfaceAccessEnable,
      29, 1, d.linkInterfaceAccessEnable, 30, 1, d.inhibitNtLinkLoadOnHotReset);
  }

  // ---------------------------------------------------------------------
  // Link Control and Link Status, offset 0x78

  /** Link speeds in tenths of a GT/s, by speed code: the tool's table
      [0, 2.5, 5.0]. */
  const LinkSpeeds := [0, 25, 50]

  datatype LinkStatus = LinkStatus(
    aspmControl: int,                    // bits 0-1
    linkDisable: int,                    // bit 4
    commonClockConfiguration: int,       // bit 6
    extendedSync: int,                   // bit 7
    clockPowerManagement: int,           // bit 8
    bandwidthManagementIntEnable: int,   // bit 10
    autonomousBandwidthIntEnable: int,   // bit 11
    currentLinkSpeed: int,               // bits 16-19, through LinkSpeeds
    negotiatedLinkWidth: int,            // bits 20-25
    linkTraining: int,                   // bit 27
    slotClockConfiguration: int,         // bit 28
    dataLinkLayerLinkActive: int,        // bit 29
    bandwidthManagementStatus: int,      // bit 30
    autonomousBandwidthStatus: int)      // bit 31

  predicate LinkStatusFits(ls: LinkStatus)
  {
    0 <= ls.aspmControl < 4 && Bit(ls.linkDisable) && Bit(ls.commonClockConfiguration) &&
    Bit(ls.extendedSync) && Bit(ls.clockPowerManagement) && Bit(ls.bandwidthManagementIntEnable) &&
    Bit(ls.autonomousBandwidthIntEnable) && ls.currentLinkSpeed in LinkSpeeds &&
    0 <= ls.negotiatedLinkWidth < 64 && Bit(ls.linkTraining) && Bit(ls.slotClockConfiguration) &&
    Bit(ls.dataLinkLayerLinkActive) && Bit(ls.bandwidthManagementStatus) && Bit(ls.autonomousBandwidthStatus)
  }

  /** plx_get_link_status's decoding. The 4-bit speed code indexes the
      3-entry speed table, so codes 3 to 15 raise. */
  function DecodeLinkStatus(val: int): (r: Result<LinkStatus>)
    ensures r.Raise? <==> Field(val, 16, 4) >= 3
    ensures r.Raise? ==> r.exc == IndexError
    ensures r.Return? ==> LinkStatusFits(r.value)
  {
    Pow2Table();
    assert Pow2(6) == 64 by { Pow2Add(4, 2); }
    var speedCode := Field(val, 16, 4);
    if speedCode >= |LinkSpeeds| then Raise(IndexError)
    else
      Return(LinkStatus(
        Field(val, 0, 2), Field(val, 4, 1), Field(val, 6, 1), Field(val, 7, 1),
        Field(val, 8, 1), Field(val, 10, 1), Field(val, 11, 1), LinkSpeeds[speedCode],
        Field(val, 20, 6), Field(val, 27, 1), Field(val, 28, 1), Field(val, 29, 1),
        Field(val, 30, 1), Field(val, 31, 1)))
  }

  /** The code of a speed in the speed table. */
  function SpeedCodeOf(speeds: seq<int>, tenths: int): (code: nat)
    ensures tenths in speeds ==> code < |speeds| && speeds[code] == tenths
  {
    if speeds == [] || speeds[0] == tenths then 0 else 1 + SpeedCodeOf(speeds[1..], tenths)
  }

  /** The register value holding ls's fields, with every other bit clear. */
  function EncodeLinkStatus(ls: LinkStatus): int
  {
    var v1 := Put4(0, 0, 2, ls.aspmControl, 4, 1, ls.linkDisable, 6, 1, ls.commonClockConfiguration,
      7, 1, ls.extendedSync);
    var v2 := Put4(v1, 8, 1, ls.clockPowerManagement, 10, 1, ls.bandwidthManagementIntEnable,
      11, 1, ls.autonomousBandwidthIntEnable, 16, 4, SpeedCodeOf(LinkSpeeds, ls.currentLinkSpeed));
    var v3 := Put4(v2, 20, 6, ls.negotiatedLinkWidth, 27, 1, ls.linkTraining,
      28, 1, ls.slotClockConfiguration, 29, 1, ls.dataLinkLayerLinkActive);
    Put(Put(v3, 30, 1, ls.bandwidthManagementStatus), 31, 1, ls.autonomousBandwidthStatus)
  }

  /** Decoding loses nothing: every record whose fields fit, with a speed
      from the table, comes back from the value that holds it. */
  lemma LinkStatusRoundTrip(ls: LinkStatus)
    requires LinkStatusFits(ls)
    ensures DecodeLinkStatus(EncodeLinkStatus(ls)) == Return(ls)
  {
    Pow2Table();
    assert Pow2(6) == 64 by { Pow2Add(4, 2); }
    var code := SpeedCodeOf(LinkSpeeds, ls.currentLinkSpeed);
    var v1 := Put4(0, 0, 2, ls.aspmControl, 4, 1, ls.linkDisable, 6, 1, ls.commonClockConfiguration,
      7, 1, ls.extendedSync);
    var v2 := Put4(v1, 8, 1, ls.clockPowerManagement, 10, 1, ls.bandwidthManagementIntEnable,
      11, 1, ls.autonomousBandwidthIntEnable, 16, 4, code);
    var v3 := Put4(v2, 20, 6, ls.negotiatedLinkWidth, 27, 1, ls.linkTraining,
      28, 1, ls.slotClockConfiguration, 29, 1, ls.dataLinkLayerLinkActive);
    var v4 := Put(v3, 30, 1, ls.bandwidthManagementStatus);
    assert EncodeLinkStatus(ls) == Put(v4, 31, 1, ls.autonomousBandwidthStatus);
    FieldPutSame(v4, 31, 1, ls.autonomousBandwidthStatus);
    FieldPutSame(v3, 30, 1, ls.bandwidthManagementStatus);
    forall s: nat, w: nat | s + w <= 30
      ensures Field(Put(v4, 31, 1, ls.autonomousBandwidthStatus), s, w) == Field(v3, s, w)
    {
      FieldPutBelow(v4, 31, 1, ls.autonomousBandwidthStatus, s, w);
      FieldPutBelow(v3, 30, 1, ls.bandwidthManagementStatus, s, w);
    }
    FieldPutBelow(v4, 31, 1, ls.autonomousBandwidthStatus, 30, 1);
    Put4Fields(0, 0, 2, ls.aspmControl, 4, 1, ls.linkDisable, 6, 1, ls.commonClockConfiguration,
      7, 1, ls.extendedSync);
    Put4Fields(v1, 8, 1, ls.clockPowerManagement, 10, 1, ls.bandwidthManagementIntEnable,
      11, 1, ls.autonomousBandwidthIntEnable, 16, 4, code);
    Put4Fields(v2, 20, 6, ls.negotiatedLinkWidth, 27, 1, ls.linkTraining,
      28, 1, ls.slotClockConfiguration, 29, 1, ls.dataLinkLayerLinkActive);
  }

  // ---------------------------------------------------------------------
  // Link Control 2 and Link Status 2, offset 0x98

  /** Target link speeds in tenths of a GT/s, by speed code: the tool's
      table [-1, 2.5, 5.0]. */
  const TargetSpeeds := [-10, 25, 50]

  datatype LinkControl2 = LinkControl2(
    targetLinkSpeed: int,          // bits 0-3, through TargetSpeeds
    enterCompliance: int,          // bit 4
    selectableDeEmphasis: int,     // bit 6
    transmitMargin: int,           // from bit 7
    enterModifiedCompliance: int,  // bit 10
    complianceSos: int,            // bit 11
    complianceDeEmphasis: int,     // bit 12
    currentDeEmphasisLevel: int)   // bit 16

  predicate LinkControl2Fits(lc: LinkControl2, marginBits: nat)
  {
    lc.targetLinkSpeed in TargetSpeeds && Bit(lc.enterCompliance) && Bit(lc.selectableDeEmphasis) &&
    0 <= lc.transmitMargin < Pow2(marginBits) && Bit(lc.enterModifiedCompliance) &&
    Bit(lc.complianceSos) && Bit(lc.complianceDeEmphasis) && Bit(lc.currentDeEmphasisLevel)
  }

  /** The Link Control 2 decoding with the Transmit Margin field taken
      marginBits wide. */
  function DecodeLinkControl2With(val: int, marginBits: nat): (r: Result<LinkControl2>)
    requires marginBits <= 3
    ensures r.Raise? <==> Field(val, 0, 4) >= 3
    ensures r.Raise? ==> r.exc == IndexError
    ensures r.Return? ==> LinkControl2Fits(r.value, marginBits)
  {
    Pow2Table();
    var speedCode := Field(val, 0, 4);
    if speedCode >= |TargetSpeeds| then Raise(IndexError)
    else
      Return(LinkControl2(
        TargetSpeeds[speedCode], Field(val, 4, 1), Field(val, 6, 1), Field(val, 7, marginBits),
        Field(val, 10, 1), Field(val, 11, 1), Field(val, 12, 1), Field(val, 16, 1)))
  }

  /** plx_get_link_status_and_control2's decoding: Transmit Margin is read
      as two bits, 7 and 8. */
  function DecodeLinkControl2(val: int): (r: Result<LinkControl2>)
    ensures r.Raise? <==> Field(val, 0, 4) >= 3
    ensures r.Raise? ==> r.exc == IndexError
    ensures r.Return? ==> LinkControl2Fits(r.value, 2)
  {
    DecodeLinkControl2With(val, 2)
  }

  /** The decoding with Transmit Margin as the 3-bit field at bits 7-9 that
      section 7.8.19 of the PCI Express Base Specification, revision 3.0,
      defines. */
  function DecodeLinkControl2Intended(val: int): (r: Result<LinkControl2>)
    ensures r.Raise? <==> Field(val, 0, 4) >= 3
    ensures r.Raise? ==> r.exc == IndexError
    ensures r.Return? ==> LinkControl2Fits(r.value, 3)
  {
    DecodeLinkControl2With(val, 3)
  }

  /** The register value holding lc's fields, Transmit Margin at bits 7-9. */
  function EncodeLinkControl2(lc: LinkControl2): int
  {
    var v := Put4(0, 0, 4, SpeedCodeOf(TargetSpeeds, lc.targetLinkSpeed), 4, 1, lc.enterCompliance,
      6, 1, lc.selectableDeEmphasis, 7, 3, lc.transmitMargin);
    Put4(v, 10, 1, lc.enterModifiedCompliance, 11, 1, lc.complianceSos,
      12, 1, lc.complianceDeEmphasis, 16, 1, lc.currentDeEmphasisLevel)
  }

  /** Every field of lc, Transmit Margin at its full three bits, reads back
      from its encoding. */
  lemma LinkControl2Fields(lc: LinkControl2)
    requires LinkControl2Fits(lc, 3)
    ensures var v := EncodeLinkControl2(lc);
      Field(v, 0, 4) == SpeedCodeOf(TargetSpeeds, lc.targetLinkSpeed) && Field(v, 4, 1) == lc.enterCompliance &&
      Field(v, 6, 1) == lc.selectableDeEmphasis && Field(v, 7, 3) == lc.transmitMargin &&
      Field(v, 10, 1) == lc.enterModifiedCompliance && Field(v, 11, 1) == lc.complianceSos &&
      Field(v, 12, 1) == lc.complianceDeEmphasis && Field(v, 16, 1) == lc.currentDeEmphasisLevel
  {
    Pow2Table();
    var code := SpeedCodeOf(TargetSpeeds, lc.targetLinkSpeed);
    var v := Put4(0, 0, 4, code, 4, 1, lc.enterCompliance, 6, 1, lc.selectableDeEmphasis,
      7, 3, lc.transmitMargin);
    Put4Fields(0, 0, 4, code, 4, 1, lc.enterCompliance, 6, 1, lc.selectableDeEmphasis,
      7, 3, lc.transmitMargin);
    Put4Fields(v, 10, 1, lc.enterModifiedCompliance, 11, 1, lc.complianceSos,
      12, 1, lc.complianceDeEmphasis, 16, 1, lc.currentDeEmphasisLevel);
  }

  /** With the 3-bit Transmit Margin every register setting decodes back to
      itself. */
  lemma LinkControl2IntendedRoundTrip(lc: LinkControl2)
    requires LinkControl2Fits(lc, 3)
    ensures DecodeLinkControl2Intended(EncodeLinkControl2(lc)) == Return(lc)
  {
    LinkControl2Fields(lc);
  }

  /** As written, only margins 0-3 decode back to themselves: a margin of 4
      or more, which sets bit 9, is read without that bit. */
  lemma LinkControl2RoundTrip(lc: LinkControl2)
    requires LinkControl2Fits(lc, 3)
    ensures DecodeLinkControl2(EncodeLinkControl2(lc)) ==
      Return(lc.(transmitMargin := lc.transmitMargin % 4))
  {
    LinkControl2Fields(lc);
    Pow2Table();
    FieldPrefix(EncodeLinkControl2(lc), 7, 2, 1);
  }

  /** The value 0x200 sets only bit 9, the top bit of Transmit Margin: the
      tool reports margin 0 where the register holds 4. */
  lemma TransmitMarginDropsBit9()
    ensures DecodeLinkControl2(0x200).Return? && DecodeLinkControl2(0x200).value.transmitMargin == 0
    ensures DecodeLinkControl2Intended(0x200).Return? && DecodeLinkControl2Intended(0x200).value.transmitMargin == 4
  {
    Pow2Table();
    Pow2Add(4, 3);
    Pow2Add(7, 2);
  }
}
