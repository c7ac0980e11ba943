/**
The contactor bank (RelayManager.cpp): a 16-bit shadow of ten logical relays and
the active-low output latches of the MCP23S17 expander behind it. Machine words
are bit lists, bit 0 first.
*/
module RelayManager {
  const RELAY_TOTAL_CHANNELS: nat := 10
  const PINS: nat := 16

  type Byte = b: seq<bool> | |b| == 8 witness [false, false, false, false, false, false, false, false]
  type Word = w: seq<bool> | |w| == 16 witness [
    false, false, false, false, false, false, false, false,
    false, false, false, false, false, false, false, false]

  const ZEROS: Byte := [false, false, false, false, false, false, false, false]
  const ONES: Byte := [true, true, true, true, true, true, true, true]

  /** `~w`. */
  function Complement(w: Word): (c: Word)
    ensures forall k :: 0 <= k < PINS ==> c[k] == !w[k]
  {
    seq(PINS, k requires 0 <= k < PINS => !w[k])
  }

  /** `(1u << RELAY_TOTAL_CHANNELS) - 1`: the ten used bits set. */
  const ALL_CLOSED: Word := [
    true, true, true, true, true, true, true, true,
    true, true, false, false, false, false, false, false]
  const ALL_OPEN: Word := ZEROS + ZEROS

  /** The four expander registers the driver writes. */
  datatype Register = IODIRA | IODIRB | OLATA | OLATB

  datatype Write = Write(reg: Register, value: Byte)

  datatype Chip = Chip(iodirA: Byte, iodirB: Byte, olatA: Byte, olatB: Byte)

  /** Register contents after power-on reset of the expander: all inputs, all latches low. */
  const POWER_ON_CHIP: Chip := Chip(ONES, ONES, ZEROS, ZEROS)

  function Apply(c: Chip, w: Write): Chip {
    match w.reg
    case IODIRA => c.(iodirA := w.value)
    case IODIRB => c.(iodirB := w.value)
    case OLATA => c.(olatA := w.value)
    case OLATB => c.(olatB := w.value)
  }

  /** Pin k of port B after port A. */
  function Pin(a: Byte, b: Byte, k: nat): bool
    requires k < PINS
  {
    if k < 8 then a[k] else b[k - 8]
  }

  predicate IsOutput(c: Chip, k: nat)
    requires k < PINS
  {
    !Pin(c.iodirA, c.iodirB, k)
  }

  predicate LatchHigh(c: Chip, k: nat)
    requires k < PINS
  {
    Pin(c.olatA, c.olatB, k)
  }

  /** A relay is energized when its pin is an output and low. */
  predicate Energized(c: Chip, k: nat)
    requires k < PINS
  {
    IsOutput(c, k) && !LatchHigh(c, k)
  }

  /** A write that makes no pin an output while its latch is low. */
  ghost predicate OpensNoRelayPath(c: Chip, w: Write) {
    forall k :: 0 <= k < PINS && !IsOutput(c, k) && IsOutput(Apply(c, w), k) ==> LatchHigh(c, k)
  }

  /** The driver's fields together with the chip it drives. */
  datatype Relays = Relays(shadow: Word, initialized: bool, attached: bool, chip: Chip)

  predicate BankClosed(r: Relays) {
    r.shadow == ALL_CLOSED
  }

  predicate BankOpen(r: Relays) {
    r.shadow == ALL_OPEN
  }

  function WriteRegister(r: Relays, w: Write): Relays {
    if r.attached then r.(chip := Apply(r.chip, w)) else r
  }

  function LowByte(w: Word): Byte {
    w[..8]
  }

  function HighByte(w: Word): Byte {
    w[8..]
  }

  function WriteLatches(r: Relays, low: Byte, high: Byte): Relays {
    WriteRegister(WriteRegister(r, Write(OLATA, low)), Write(OLATB, high))
  }

  function WriteShadow(r: Relays, shadow: Word): Relays {
    var hw := Complement(shadow);
    WriteLatches(r.(shadow := shadow), LowByte(hw), HighByte(hw))
  }

  function Begun(r: Relays): Relays {
    var latched := WriteLatches(r.(attached := true), ONES, ONES);
    var driven := WriteRegister(WriteRegister(latched, Write(IODIRA, ZEROS)), Write(IODIRB, ZEROS));
    driven.(shadow := ALL_OPEN, initialized := true)
  }

  function AllOn(r: Relays): Relays {
    if r.initialized then WriteShadow(r, ALL_CLOSED) else r
  }

  function AllOff(r: Relays): Relays {
    WriteLatches(r.(shadow := ALL_OPEN), ONES, ONES)
  }

  function SetRelay(r: Relays, channel: nat, on: bool): Relays {
    if !r.initialized || channel >= RELAY_TOTAL_CHANNELS then r
    else WriteShadow(r, r.shadow[channel := on])
  }

  function GetRelayState(r: Relays, channel: nat): bool {
    channel < RELAY_TOTAL_CHANNELS && r.shadow[channel]
  }

  // ------------------------------------------------------------------
  // The hardware follows the shadow
  // ------------------------------------------------------------------

  /**
   The bank in operation: every pin is an output, exactly the relays of the shadow are energized, and
   the six unused pins are high.
  */
  ghost predicate Consistent(r: Relays) {
    && r.initialized && r.attached
    && (forall k :: 0 <= k < PINS ==> IsOutput(r.chip, k))
    && (forall k :: 0 <= k < PINS ==> (Energized(r.chip, k) <==> GetRelayState(r, k)))
  }

  lemma WriteShadowDrives(r: Relays, shadow: Word)
    requires Consistent(r)
    requires forall k :: RELAY_TOTAL_CHANNELS <= k < PINS ==> !shadow[k]
    ensures Consistent(WriteShadow(r, shadow)) && WriteShadow(r, shadow).shadow == shadow
  {
    var after := WriteShadow(r, shadow);
    forall k | 0 <= k < PINS
      ensures IsOutput(after.chip, k) == IsOutput(r.chip, k)
      ensures LatchHigh(after.chip, k) == !shadow[k]
    {
      assert Complement(shadow)[k] == !shadow[k];
    }
  }

  /** In operation `allOn` energizes exactly the ten contactors, `allOff` nothing. */
  lemma BankOperations(r: Relays)
    requires Consistent(r)
    ensures Consistent(AllOn(r)) && BankClosed(AllOn(r))
    ensures Consistent(AllOff(r)) && BankOpen(AllOff(r))
    ensures forall k :: 0 <= k < PINS ==> (Energized(AllOn(r).chip, k) <==> k < RELAY_TOTAL_CHANNELS)
    ensures forall k :: 0 <= k < PINS ==> !Energized(AllOff(r).chip, k)
  {
    hide WriteShadow;
    WriteShadowDrives(r, ALL_CLOSED);
    AllOffDeEnergizes(r);
    forall k | 0 <= k < PINS ensures IsOutput(AllOff(r).chip, k) == IsOutput(r.chip, k) {
    }
  }

  /** Setting one relay changes that relay and no other, on the shadow and on the pins. */
  lemma SetRelayIsLocal(r: Relays, channel: nat, on: bool)
    requires Consistent(r) && channel < RELAY_TOTAL_CHANNELS
    requires forall k :: RELAY_TOTAL_CHANNELS <= k < PINS ==> !r.shadow[k]
    ensures var after := SetRelay(r, channel, on);
            && Consistent(after)
            && forall k :: 0 <= k < PINS ==>
                 (Energized(after.chip, k) <==> if k == channel then on else Energized(r.chip, k))
  {
    hide WriteShadow;
    WriteShadowDrives(r, r.shadow[channel := on]);
  }

  /** `allOff` de-energizes every pin of an attached bank, whatever the chip held. */
  lemma AllOffDeEnergizes(r: Relays)
    requires r.attached
    ensures forall k :: 0 <= k < PINS ==> !Energized(AllOff(r).chip, k)
  {
  }

  // ------------------------------------------------------------------
  // Start-up order
  // ------------------------------------------------------------------

  /** What the guards refuse: closing before begin, channels out of range, and writes without a device. */
  lemma GuardsRefuse(r: Relays, channel: nat, on: bool)
    ensures !r.initialized ==> AllOn(r) == r && SetRelay(r, channel, on) == r
    ensures channel >= 10 ==> SetRelay(r, channel, on) == r && !GetRelayState(r, channel)
    ensures channel < 10 ==> GetRelayState(r, channel) == r.shadow[channel]
    ensures !r.attached ==>
              && AllOn(r).chip == AllOff(r).chip == SetRelay(r, channel, on).chip == r.chip
              && AllOff(r).shadow == ALL_OPEN
  {
  }

  /** No write of the list turns a low-latched pin into an output. */
  ghost predicate SafeSequence(c: Chip, ws: seq<Write>)
    decreases |ws|
  {
    ws == [] || (OpensNoRelayPath(c, ws[0]) && SafeSequence(Apply(c, ws[0]), ws[1..]))
  }

  /** The order matters: directions first would energize relays of a freshly reset chip. */
  lemma DirectionFirstIsUnsafe()
    ensures !OpensNoRelayPath(POWER_ON_CHIP, Write(IODIRA, ZEROS))
    ensures Energized(Apply(POWER_ON_CHIP, Write(IODIRA, ZEROS)), 0)
  {
    assert !IsOutput(POWER_ON_CHIP, 0);
  }

  lemma {:induction false} SafeSequenceAppend(c: Chip, ws: seq<Write>, w: Write)
    requires SafeSequence(c, ws) && OpensNoRelayPath(ApplyAll(c, ws), w)
    ensures SafeSequence(c, ws + [w])
    ensures ApplyAll(c, ws + [w]) == Apply(ApplyAll(c, ws), w)
    decreases |ws|
  {
    if ws == [] {
      assert ws + [w] == [w] && [w][1..] == [];
    } else {
      assert (ws + [w])[1..] == ws[1..] + [w];
      SafeSequenceAppend(Apply(c, ws[0]), ws[1..], w);
    }
  }

  function ApplyAll(c: Chip, ws: seq<Write>): Chip
    decreases |ws|
  {
    if ws == [] then c else ApplyAll(Apply(c, ws[0]), ws[1..])
  }

  /** A latch write turns no pin, and once the latches are high any direction write is safe. */
  lemma SafeWrites(c: Chip, w: Write)
    ensures w.reg.OLATA? || w.reg.OLATB? ==> OpensNoRelayPath(c, w)
    ensures c.olatA == ONES && c.olatB == ONES ==> OpensNoRelayPath(c, w)
  {
  }

  lemma BegunIsConsistent(r: Relays)
    ensures Consistent(Begun(r)) && BankOpen(Begun(r))
    ensures forall k :: 0 <= k < PINS ==> !Energized(Begun(r).chip, k)
  {
  }

  class RelayBank {
    var shadow: Word
    var initialized: bool
    var attached: bool
    /** The expander on the other side of the SPI bus. */
    var chip: Chip
    /** What the chip held at power-up, and every write it received since. */
    ghost const powerUp: Chip
    ghost var writes: seq<Write>

    ghost function Value(): Relays
      reads this
    {
      Relays(shadow, initialized, attached, chip)
    }

    /** No write so far has opened a path to a relay by turning a low pin into an output. */
    ghost predicate Safe()
      reads this
    {
      chip == ApplyAll(powerUp, writes) && SafeSequence(powerUp, writes)
    }

    constructor (power: Chip)
      ensures Value() == Relays(ALL_OPEN, false, false, power) && Safe()
    {
      shadow, initialized, attached := ALL_OPEN, false, false;
      chip, powerUp := power, power;
      writes := [];
    }

    method WriteReg(reg: Register, value: Byte)
      requires Safe() && OpensNoRelayPath(chip, Write(reg, value))
      modifies this`chip, this`writes
      ensures Safe()
      ensures Value() == WriteRegister(old(Value()), Write(reg, value))
    {
      if !attached {
        return;
      }
      SafeSequenceAppend(powerUp, writes, Write(reg, value));
      chip := Apply(chip, Write(reg, value));
      writes := writes + [Write(reg, value)];
    }

    /** `busOk` and `deviceOk` are the answers of the SPI driver. */
    method Begin(busOk: bool, deviceOk: bool) returns (ok: bool)
      requires Safe()
      modifies this
      ensures Safe()
      ensures ok <==> busOk && deviceOk
      ensures ok ==> Value() == Begun(old(Value())) && Consistent(Value()) && BankOpen(Value())
      ensures !ok ==> Value() == old(Value())
    {
      if !busOk {
        return false;
      }
      if !deviceOk {
        return false;
      }
      hide OpensNoRelayPath, Consistent, SafeSequence, ApplyAll;
      BegunIsConsistent(Value());
      attached := true;
      SafeWrites(chip, Write(OLATA, ONES));
      WriteReg(OLATA, ONES);
      SafeWrites(chip, Write(OLATB, ONES));
      WriteReg(OLATB, ONES);
      SafeWrites(chip, Write(IODIRA, ZEROS));
      WriteReg(IODIRA, ZEROS);
      SafeWrites(chip, Write(IODIRB, ZEROS));
      WriteReg(IODIRB, ZEROS);
      shadow := ALL_OPEN;
      initialized := true;
      return true;
    }

    method Set(channel: nat, on: bool)
      requires Safe()
      modifies this
      ensures Safe() && Value() == SetRelay(old(Value()), channel, on)
    {
      if !initialized || channel >= RELAY_TOTAL_CHANNELS {
        return;
      }
      shadow := shadow[channel := on];
      var hw := Complement(shadow);
      WriteReg(OLATA, LowByte(hw));
      WriteReg(OLATB, HighByte(hw));
    }

    method CloseAll()
      requires Safe()
      modifies this
      ensures Safe() && Value() == AllOn(old(Value()))
    {
      if !initialized {
        return;
      }
      shadow := ALL_CLOSED;
      var hw := Complement(shadow);
      WriteReg(OLATA, LowByte(hw));
      WriteReg(OLATB, HighByte(hw));
    }

    method OpenAll(silent: bool)
      requires Safe()
      modifies this
      ensures Safe() && Value() == AllOff(old(Value()))
    {
      shadow := ALL_OPEN;
      WriteReg(OLATA, ONES);
      WriteReg(OLATB, ONES);
    }

    method StateOf(channel: nat) returns (closed: bool)
      ensures closed == GetRelayState(Value(), channel)
    {
      if channel >= RELAY_TOTAL_CHANNELS {
        return false;
      }
      return shadow[channel];
    }

    /** `HMI_areAllContactorsClosed`. */
    method AreAllClosed() returns (closed: bool)
      ensures closed <==> forall k :: 0 <= k < RELAY_TOTAL_CHANNELS ==> shadow[k]
    {
      for channel := 0 to RELAY_TOTAL_CHANNELS
        invariant forall k :: 0 <= k < channel ==> shadow[k]
      {
        var on := StateOf(channel);
        if !on {
          return false;
        }
      }
      return true;
    }
  }
}
