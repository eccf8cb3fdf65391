/**
 * Register dictionary of the drive used by the examples: logical address and
 * size in bytes of each register the applications map or read.
 */
module Registers {
  const REG_ADDR_CONTROL_WORD := 0x010
  const REG_SIZE_CONTROL_WORD := 2      // sizeof(uint16_t)

  const REG_ADDR_STATUS_WORD := 0x011
  const REG_SIZE_STATUS_WORD := 2       // sizeof(uint16_t)

  const REG_ADDR_CURR_Q_SETPOINT := 0x01A
  const REG_SIZE_CURR_Q_SETPOINT := 4   // sizeof(float)

  const REG_ADDR_BUS_VOLT_VALUE := 0x060
  const REG_SIZE_BUS_VOLT_VALUE := 4    // sizeof(float)

  const REG_ADDR_VENDOR_ID := 0x6E0
}
