/**
 * The register layer of main/hardware_layer.c: direction, level and pin
 * configuration of the GPIO block as stores into memory-mapped registers.
 * The stores are recorded, in order, in a `Registers` object; the word that
 * `config_GPIO` composes is a pure function with its fields proved
 * recoverable.
 */
module HardwareLayer {
  /* Register map of the GPIO block (main/hardware_config.h). */
  const GpioBase: int := 0x3F40_4000     // GPIO_REG_OFFSET_ADDR
  const OutW1ts: int := 0x08             // GPIO_OUT_W1TS_REG
  const OutW1tc: int := 0x0C             // GPIO_OUT_W1TC_REG
  const EnW1ts: int := 0x24              // GPIO_EN_W1TS_REG
  const EnW1tc: int := 0x28              // GPIO_EN_W1TC_REG
  const LevelReg: int := 0x3C            // GPIO_LEVEL_REG
  const IntStatusReg: int := 0x44        // GPIO_INTERRUPT_REG
  const IntW1tc: int := 0x4C             // GPIO_INTERRUPT_W1TC_REG

  const IntTypeShift: bv32 := 7          // INTERRUPT_TYPE_SHIFT
  const IntEnableShift: bv32 := 13       // INTERRUPT_ENABLE_SHIFT
  const IntNmiShift: bv32 := 14          // INTERRUPT_NMI_ENABLE_SHIFT
  const SyncFallingEdge: bv32 := 1       // INTERRUPT_SYNC_FALLING_EDGE
  const Sync2Shift: bv32 := 0            // INTERRUPT_SYNC2_SHIFT

  /** `GPIO_strength`. */
  datatype Strength = FiveMa | TenMa | TwentyMa | FortyMa

  /** `level`. */
  datatype Level = Low | High

  /** `interrupt_type`. */
  datatype InterruptType = Disable | RisingEdge | FallingEdge | BothEdges | LowLevel | HighLevel

  /** The enumerator's value. */
  function TypeCode(t: InterruptType): (c: bv32)
    ensures c < 6
  {
    match t
    case Disable => 0
    case RisingEdge => 1
    case FallingEdge => 2
    case BothEdges => 3
    case LowLevel => 4
    case HighLevel => 5
  }

  /** A `bool` widened to a register word. */
  function Bit(b: bool): bv32
  {
    if b then 1 else 0
  }

  /** The pin number an `int` becomes when passed as `unsigned short`. */
  function UShort(pin: int): (n: nat)
    ensures n < 0x1_0000 && (0 <= pin < 0x1_0000 ==> n == pin)
  {
    pin % 0x1_0000
  }

  /** The pin number an `int` becomes when passed as `uint32_t`. */
  function U32(pin: int): (n: nat)
    ensures n < 0x1_0000_0000 && (0 <= pin < 0x1_0000_0000 ==> n == pin)
  {
    pin % 0x1_0000_0000
  }

  /** One store of a 32-bit word into the register at `addr`. */
  datatype RegWrite = RegWrite(addr: int, value: bv32)

  /** `GPIO_PIN_REG(n)`: the offset of pin `n`'s configuration register. */
  function PinReg(n: nat): int
  {
    0x74 + 4 * n
  }

  /**
   * `BIT_MASK(pin)`, the 32-bit `1UL << pin`. A shift by 32 or more is
   * undefined in C; the model writes 0 for it.
   */
  function Mask(pin: nat): bv32
  {
    if pin < 32 then 1 << pin else 0
  }

  /** The word `config_GPIO` stores: interrupt enable, NMI enable, interrupt type and the synchronisation stage. */
  function ConfigWord(interruptEn: bool, nmi: bool, t: InterruptType): bv32
  {
    var w: bv32 := 0;
    var w := w | (Bit(interruptEn) << IntEnableShift);
    var w := w | (Bit(nmi) << IntNmiShift);
    var w := w | (TypeCode(t) << IntTypeShift);
    var w := w | SyncFallingEdge;
    w | (SyncFallingEdge << Sync2Shift)
  }

  /* --------------------------------------------------------------- lemmas */

  /**
   * Every field of the configuration word can be read back: bit 0 is the
   * synchronisation stage, bits 7-9 the interrupt type, bit 13 the interrupt
   * enable and bit 14 the NMI enable, and no other bit is set.
   */
  lemma ConfigWordFields(interruptEn: bool, nmi: bool, t: InterruptType)
    ensures var w := ConfigWord(interruptEn, nmi, t);
            w & 1 == 1 && (w >> 7) & 7 == TypeCode(t) &&
            ((w >> 13) & 1 == 1 <==> interruptEn) && ((w >> 14) & 1 == 1 <==> nmi) &&
            w & !0x6381 == 0
  {
    var c := TypeCode(t);
    assert c < 6;
  }

  /** Distinct settings give distinct words. */
  lemma ConfigWordInjective(ie1: bool, nmi1: bool, t1: InterruptType, ie2: bool, nmi2: bool, t2: InterruptType)
    ensures ConfigWord(ie1, nmi1, t1) == ConfigWord(ie2, nmi2, t2) <==> ie1 == ie2 && nmi1 == nmi2 && t1 == t2
  {
    ConfigWordFields(ie1, nmi1, t1);
    ConfigWordFields(ie2, nmi2, t2);
    if ConfigWord(ie1, nmi1, t1) == ConfigWord(ie2, nmi2, t2) {
      assert TypeCode(t1) == TypeCode(t2);
    }
  }

  /** A mask of a pin below 32 has exactly that pin's bit set. */
  lemma MaskSelectsPin(pin: nat, other: nat)
    requires pin < 32 && other < 32
    ensures (Mask(pin) >> other) & 1 == 1 <==> other == pin
  {
  }

  /* ------------------------------------------------------- the register file */

  /** The stores made into the memory-mapped registers, in order. */
  class Registers {
    var writes: seq<RegWrite>

    constructor ()
      ensures writes == []
    {
      writes := [];
    }

    /** `write_register`. */
    method WriteRegister(addr: int, val: bv32)
      modifies this
      ensures writes == old(writes) + [RegWrite(addr, val)]
    {
      writes := writes + [RegWrite(addr, val)];
    }

    /** `set_output_direction`: the pin's bit into the enable-set register. */
    method SetOutputDirection(pin: nat)
      modifies this
      ensures writes == old(writes) + [RegWrite(GpioBase + EnW1ts, Mask(pin))]
    {
      WriteRegister(GpioBase + EnW1ts, Mask(pin));
    }

    /** `set_input_direction`: the pin's bit into the enable-clear register. */
    method SetInputDirection(pin: nat)
      modifies this
      ensures writes == old(writes) + [RegWrite(GpioBase + EnW1tc, Mask(pin))]
    {
      WriteRegister(GpioBase + EnW1tc, Mask(pin));
    }

    /** `set_output_level`: LOW into the output-clear register, anything else into the output-set register. */
    method SetOutputLevel(pin: nat, level: Level)
      modifies this
      ensures writes == old(writes) + [RegWrite(GpioBase + (if level == Low then OutW1tc else OutW1ts), Mask(pin))]
    {
      if level == Low {
        WriteRegister(GpioBase + OutW1tc, Mask(pin));
      } else {
        WriteRegister(GpioBase + OutW1ts, Mask(pin));
      }
    }

    /**
     * `config_GPIO`: exactly one store, of the configuration word into the
     * pin's configuration register. The pull resistors and the drive strength
     * make up a multiplexer word whose store is disabled, so they change nothing.
     */
    method ConfigGpio(gpio: nat, pullUp: bool, pullDown: bool, current: Strength,
                      interruptEn: bool, nmi: bool, t: InterruptType)
      modifies this
      ensures writes == old(writes) + [RegWrite(GpioBase + PinReg(gpio), ConfigWord(interruptEn, nmi, t))]
    {
      WriteRegister(GpioBase + PinReg(gpio), ConfigWord(interruptEn, nmi, t));
    }

    /**
     * `init_wifi_reset_button_GPIO`: interrupt and NMI enabled on both edges,
     * the pin made an input, and its pending interrupt cleared.
     */
    method InitWifiResetButton(pin: nat)
      modifies this
      ensures writes == old(writes) + [RegWrite(GpioBase + PinReg(pin), ConfigWord(true, true, BothEdges)),
                                       RegWrite(GpioBase + EnW1tc, Mask(pin)),
                                       RegWrite(GpioBase + IntW1tc, Mask(pin))]
    {
      ConfigGpio(pin, true, false, FiveMa, true, true, BothEdges);
      SetInputDirection(pin);
      WriteRegister(GpioBase + IntW1tc, Mask(pin));
    }
  }
}
