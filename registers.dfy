/**
 * Register addresses, bit masks and fixed values used by the driver.
 * The numeric values of the MPL3115A2_* macros are defined in
 * Adafruit_MPL3115A2.h, which is not part of this model, so they are declared
 * here without a value: every property proved below holds whatever they are.
 * Only the literals that appear in the driver itself are given values.
 */
module Registers {

  import opened Wire

  /** The device's bus address (MPL3115A2_ADDRESS). */
  const Address: Byte

  /** Register addresses. */
  const WhoAmI: Byte
  const CtrlReg1: Byte
  const PtDataCfg: Byte
  const Status: Byte
  const PressureMsb: Byte
  const TempMsb: Byte

  /** Control register 1 bits: active mode, 128x oversampling, altimeter or barometer output. */
  const CtrlReg1Sbyb: Byte
  const CtrlReg1Os128: Byte
  const CtrlReg1Alt: Byte
  const CtrlReg1Bar: Byte

  /** Data-event configuration bits: temperature event, pressure/altitude event, data-ready event mode. */
  const PtDataCfgTdefe: Byte
  const PtDataCfgPdefe: Byte
  const PtDataCfgDrem: Byte

  /** Status register bits: pressure/altitude data ready, temperature data ready. */
  const StatusPdr: Byte
  const StatusTdr: Byte

  /** The identity byte `begin` expects in the WHOAMI register. */
  const ExpectedWhoAmI: Byte := 0xC4

  /** The pause, in milliseconds, after every status read while polling. */
  const PollDelayMs: nat := 10

  /** Control word written by `begin` and `getAltitude`: active, 128x oversampling, altimeter output. */
  const AltimeterMode: Byte := CtrlReg1Sbyb | CtrlReg1Os128 | CtrlReg1Alt

  /** Control word written by `getPressure`: active, 128x oversampling, barometer output. */
  const BarometerMode: Byte := CtrlReg1Sbyb | CtrlReg1Os128 | CtrlReg1Bar

  /** Data-event configuration written by `begin`. */
  const DataEventFlags: Byte := PtDataCfgTdefe | PtDataCfgPdefe | PtDataCfgDrem
}
