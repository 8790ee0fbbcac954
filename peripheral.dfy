/**
 * The I2C target-mode ("peripheral") controller of `i2cperipheral.c`: its
 * fields `peripheral`, `sda_pin` and `scl_pin`, and the operations that bind
 * it to a hardware instance and release it again.
 *
 * The functions `ConstructStep` and `DeinitStep` state what one call does
 * to the controller and to the process-wide `ChipState`; the class
 * `I2CPeripheral` does the same work step by step and is proved to agree
 * with them.  The lemmas state the properties of the lifecycle.
 */
module Peripheral {
  import opened Base
  import opened Pins
  import opened Hardware

  /** The `uint8_t address` argument of construct. */
  type Address = a: int | 0 <= a < 256

  /** The target address actually programmed into the block. */
  const DEFAULT_ADDRESS: Address := 0x55

  /** A controller's fields as a value: `peripheral` (`None` is `NULL`), `sda_pin`, `scl_pin`. */
  datatype Ctl = Ctl(peripheral: Option<Handle>, sdaPin: PinNumber, sclPin: PinNumber)

  /** What one call leaves behind: the process-wide state, the controller, and whether it raised. */
  datatype Step = Step(chip: ChipState, ctl: Ctl, outcome: Outcome)

  /** `common_hal_i2cperipheral_i2c_peripheral_deinited`: only the SDA field is inspected. */
  predicate Deinited(c: Ctl)
  {
    c.sdaPin == NO_PIN
  }

  /** Both pin fields hold the sentinel. */
  predicate Unbound(c: Ctl)
  {
    c.sdaPin == NO_PIN && c.sclPin == NO_PIN
  }

  /** Both pin fields hold an accepted pair and `peripheral` is the block that pair selects. */
  predicate Live(c: Ctl)
  {
    InstanceFor(c.sclPin, c.sdaPin).Some? &&
    c.peripheral == Some(INSTANCES[InstanceFor(c.sclPin, c.sdaPin).value])
  }

  /** The controller invariant: pins are both assigned (to a matching block) or both the sentinel. */
  predicate Consistent(c: Ctl)
  {
    Live(c) || Unbound(c)
  }

  /** A live controller whose pins are claimed and routed and whose block is a target at 0x55. */
  predicate Bound(s: ChipState, c: Ctl)
  {
    WellFormed(s) && Live(c) &&
    c.sdaPin in s.claimed && c.sclPin in s.claimed &&
    c.sdaPin in s.routed && c.sclPin in s.routed &&
    s.mode[HwIndex(c.peripheral.value)] == Target(DEFAULT_ADDRESS)
  }

  /**
   * `common_hal_i2cperipheral_i2c_peripheral_construct`.  `peripheral` is
   * cleared first and set once the pair is accepted, before the enable
   * check.
   */
  function ConstructStep(s: ChipState, c: Ctl, scl: PinNumber, sda: PinNumber, address: Address): (r: Step)
    requires WellFormed(s)
    ensures WellFormed(r.chip)
    // A rejected pair raises "Invalid pins" with no side effect; only `peripheral` is cleared.
    ensures !(scl % 2 == 1 && sda == scl - 1) ==>
      r == Step(s, c.(peripheral := None), Fail(InvalidPins))
    // An accepted pair on an enabled block raises "I2C peripheral in use": nothing is
    // routed, programmed or claimed, the pin fields are untouched, `peripheral` is that block.
    ensures scl % 2 == 1 && sda == scl - 1 && Enabled(s.mode[(scl / 2) % 2]) ==>
      r == Step(s, c.(peripheral := Some(INSTANCES[(scl / 2) % 2])), Fail(PeripheralInUse))
    // Otherwise it passes: both pins are recorded, routed and claimed, and that block
    // alone becomes a target at 0x55, whatever `address` was.
    ensures r.outcome == Pass <==> scl % 2 == 1 && sda == scl - 1 && !Enabled(s.mode[(scl / 2) % 2])
    ensures r.outcome == Pass ==>
      var i: Instance := (scl / 2) % 2;
      r.ctl == Ctl(Some(INSTANCES[i]), sda, scl) &&
      r.chip.claimed == s.claimed + {sda, scl} &&
      r.chip.routed == s.routed + {sda, scl} &&
      r.chip.mode[i] == Target(DEFAULT_ADDRESS) &&
      r.chip.mode[1 - i] == s.mode[1 - i] &&
      r.chip.neverReset == s.neverReset &&
      Bound(r.chip, r.ctl) && !Deinited(r.ctl)
  {
    PairRule(scl, sda);
    match InstanceFor(scl, sda)
    case None => Step(s, c.(peripheral := None), Fail(InvalidPins))
    case Some(i) =>
      if Enabled(s.mode[i]) then
        Step(s, c.(peripheral := Some(INSTANCES[i])), Fail(PeripheralInUse))
      else
        Step(s.(mode := s.mode[i := Target(DEFAULT_ADDRESS)],
                claimed := s.claimed + {sda, scl},
                routed := s.routed + {sda, scl}),
             Ctl(Some(INSTANCES[i]), sda, scl),
             Pass)
  }

  /** What deinit needs of the controller: a live controller has a non-NULL `peripheral`. */
  predicate CanDeinit(c: Ctl)
  {
    !Deinited(c) ==> c.peripheral.Some?
  }

  /** `common_hal_i2cperipheral_i2c_peripheral_deinit`. */
  function DeinitStep(s: ChipState, c: Ctl): (r: Step)
    requires WellFormed(s) && CanDeinit(c)
    // It never raises, and deinited holds afterwards.
    ensures r.outcome == Pass && WellFormed(r.chip) && Deinited(r.ctl)
    // A deinitialised controller is left alone, and so is everything else.
    ensures Deinited(c) ==> r == Step(s, c, Pass)
    // A live controller clears its block's never-reset flag, disables that block alone,
    // releases both pins and sets both pin fields to the sentinel.
    ensures !Deinited(c) ==>
      var i := HwIndex(c.peripheral.value);
      r.ctl == Ctl(c.peripheral, NO_PIN, NO_PIN) &&
      r.chip.neverReset[i] == false && r.chip.neverReset[1 - i] == s.neverReset[1 - i] &&
      r.chip.mode[i] == Disabled && r.chip.mode[1 - i] == s.mode[1 - i] &&
      r.chip.claimed == s.claimed - {c.sdaPin, c.sclPin} &&
      r.chip.routed == s.routed - {c.sdaPin, c.sclPin}
  {
    if Deinited(c) then Step(s, c, Pass)
    else
      var i := HwIndex(c.peripheral.value);
      Step(s.(neverReset := s.neverReset[i := false],
              mode := s.mode[i := Disabled],
              claimed := s.claimed - {c.sdaPin} - {c.sclPin},
              routed := s.routed - {c.sdaPin} - {c.sclPin}),
           c.(sdaPin := NO_PIN, sclPin := NO_PIN),
           Pass)
  }

  // ---------------------------------------------------------------------
  // Construction

  /** The `address` argument is ignored: construct does the same for every address. */
  lemma ConstructIgnoresAddress(s: ChipState, c: Ctl, scl: PinNumber, sda: PinNumber, a1: Address, a2: Address)
    requires WellFormed(s)
    ensures ConstructStep(s, c, scl, sda, a1) == ConstructStep(s, c, scl, sda, a2)
  {
  }

  /** A block already bound to one controller cannot be bound by a second one. */
  lemma NoDoubleBinding(s: ChipState, c1: Ctl, c2: Ctl, scl: PinNumber, sda: PinNumber, address: Address)
    requires Bound(s, c1)
    requires InstanceFor(scl, sda) == Some(HwIndex(c1.peripheral.value))
    ensures ConstructStep(s, c2, scl, sda, address).outcome == Fail(PeripheralInUse)
    ensures ConstructStep(s, c2, scl, sda, address).chip == s
  {
  }

  /** Binding a second controller to the other block leaves the first one bound. */
  lemma ConstructKeepsOtherBinding(s: ChipState, c1: Ctl, c2: Ctl, scl: PinNumber, sda: PinNumber, address: Address)
    requires Bound(s, c1)
    ensures Bound(ConstructStep(s, c2, scl, sda, address).chip, c1)
  {
    var r := ConstructStep(s, c2, scl, sda, address);
    var j := HwIndex(c1.peripheral.value);
    if r.outcome == Pass {
      assert InstanceFor(scl, sda).Some?;
      var i := InstanceFor(scl, sda).value;
      assert i != j;
      assert r.chip.mode[j] == s.mode[j];
    }
  }

  /** From an unbound controller, construct keeps the controller invariant whether or not it raises. */
  lemma ConstructKeepsConsistent(s: ChipState, c: Ctl, scl: PinNumber, sda: PinNumber, address: Address)
    requires WellFormed(s) && Unbound(c)
    ensures Consistent(ConstructStep(s, c, scl, sda, address).ctl)
  {
  }

  /**
   * A failed construct on a controller that is already live does not keep
   * the invariant: the pins stay recorded while `peripheral` becomes `NULL`,
   * so a later deinit would index the instance table through a `NULL`
   * block.  The binding layer only constructs freshly allocated objects.
   */
  lemma ReconstructLeavesStalePins()
    ensures var s := ChipState([Disabled, Disabled], [false, false], {0, 1}, {0, 1});
      var live := Ctl(Some(I2C0), 0, 1);
      var r := ConstructStep(s, live, 3, 3, DEFAULT_ADDRESS);
      Consistent(live) && r.outcome == Fail(InvalidPins) &&
      !Consistent(r.ctl) && !CanDeinit(r.ctl)
  {
    var live := Ctl(Some(I2C0), 0, 1);
    assert InstanceFor(1, 0) == Some(0);
    assert Live(live);
  }

  // ---------------------------------------------------------------------
  // Deinitialisation

  /** For a consistent controller, checking only SDA is the same as checking both pins. */
  lemma DeinitedMeansUnbound(c: Ctl)
    requires Consistent(c)
    ensures Deinited(c) <==> Unbound(c)
  {
    if Live(c) {
      ValidPairSdaIsNotSentinel(c.sclPin, c.sdaPin);
    }
  }

  /** Deinit of a consistent controller is always possible and leaves it consistent. */
  lemma ConsistentDeinit(s: ChipState, c: Ctl)
    requires WellFormed(s) && Consistent(c)
    ensures CanDeinit(c) && Consistent(DeinitStep(s, c).ctl)
  {
  }

  /** Deinit is idempotent: a second call finds nothing to do. */
  lemma DeinitIdempotent(s: ChipState, c: Ctl)
    requires WellFormed(s) && CanDeinit(c)
    ensures var r := DeinitStep(s, c);
      WellFormed(r.chip) && CanDeinit(r.ctl) && DeinitStep(r.chip, r.ctl) == r
  {
  }

  /**
   * Deinit undoes construct: after a successful construct on pins that were
   * free, deinit returns the pin registry and the block to where they were,
   * apart from clearing the block's never-reset flag.
   */
  lemma DeinitUndoesConstruct(s: ChipState, c: Ctl, scl: PinNumber, sda: PinNumber, address: Address)
    requires WellFormed(s)
    requires sda !in s.claimed && scl !in s.claimed && sda !in s.routed && scl !in s.routed
    requires ConstructStep(s, c, scl, sda, address).outcome == Pass
    ensures var built := ConstructStep(s, c, scl, sda, address);
      var i := (scl / 2) % 2;
      CanDeinit(built.ctl) &&
      DeinitStep(built.chip, built.ctl).chip == s.(neverReset := s.neverReset[i := false]) &&
      Unbound(DeinitStep(built.chip, built.ctl).ctl)
  {
    var built := ConstructStep(s, c, scl, sda, address);
    var i := (scl / 2) % 2;
    ValidPairSdaIsNotSentinel(scl, sda);
    var r := DeinitStep(built.chip, built.ctl);
    assert HwIndex(built.ctl.peripheral.value) == i;
    assert r.chip.mode == s.mode by {
      assert r.chip.mode == s.mode[i := Target(DEFAULT_ADDRESS)][i := Disabled];
      assert !Enabled(s.mode[i]);
    }
    assert r.chip.claimed == s.claimed;
    assert r.chip.routed == s.routed;
  }

  /** Deinit of one bound controller leaves a controller bound to the other block bound. */
  lemma DeinitKeepsOtherBinding(s: ChipState, c1: Ctl, c2: Ctl)
    requires Bound(s, c1) && Bound(s, c2) && c1.peripheral != c2.peripheral
    ensures CanDeinit(c2) && Bound(DeinitStep(s, c2).chip, c1)
  {
    PairRule(c1.sclPin, c1.sdaPin);
    PairRule(c2.sclPin, c2.sdaPin);
    assert c1.sclPin != c2.sclPin;
  }

  // ---------------------------------------------------------------------
  // The reset sweep and bound controllers

  /** `reset_i2c` leaves a controller bound when its block is flagged never-reset. */
  lemma ResetKeepsProtectedBinding(s: ChipState, c: Ctl)
    requires Bound(s, c) && s.neverReset[HwIndex(c.peripheral.value)]
    ensures Bound(ResetAll(s), c)
  {
  }

  /** `reset_i2c` disables the block of a bound controller whose flag is clear. */
  lemma ResetReclaimsUnprotected(s: ChipState, c: Ctl)
    requires Bound(s, c) && !s.neverReset[HwIndex(c.peripheral.value)]
    ensures ResetAll(s).mode[HwIndex(c.peripheral.value)] == Disabled
    ensures !Bound(ResetAll(s), c)
  {
  }

  /**
   * The never-reset flags start clear and no operation of this file sets
   * one, so in the program as written they stay clear.
   */
  lemma FlagsStayClear(s: ChipState, c: Ctl, scl: PinNumber, sda: PinNumber, address: Address)
    requires WellFormed(s) && FlagsClear(s)
    ensures FlagsClear(ConstructStep(s, c, scl, sda, address).chip)
    ensures CanDeinit(c) ==> FlagsClear(DeinitStep(s, c).chip)
    ensures FlagsClear(ResetAll(s))
  {
  }

  // ---------------------------------------------------------------------
  // The controller object

  /** `i2cperipheral_i2c_peripheral_obj_t`, with the three fields this code touches. */
  class I2CPeripheral {
    var peripheral: Option<Handle>
    var sdaPin: PinNumber
    var sclPin: PinNumber

    /** The fields as a value. */
    function View(): Ctl
      reads this
    {
      Ctl(peripheral, sdaPin, sclPin)
    }

    /** The object as the binding layer allocates it, with whatever its fields hold. */
    constructor (peripheral: Option<Handle>, sdaPin: PinNumber, sclPin: PinNumber)
      ensures View() == Ctl(peripheral, sdaPin, sclPin)
    {
      this.peripheral := peripheral;
      this.sdaPin := sdaPin;
      this.sclPin := sclPin;
    }

    /** `common_hal_i2cperipheral_i2c_peripheral_construct`. */
    method Construct(chip: Chip, scl: PinNumber, sda: PinNumber, address: Address) returns (outcome: Outcome)
      requires chip.Valid()
      modifies this, chip`claimed, chip`routed, chip.mode
      ensures chip.Valid()
      ensures Step(chip.View(), View(), outcome) == ConstructStep(old(chip.View()), old(View()), scl, sda, address)
    {
      peripheral := None;
      if scl % 2 == 1 && sda % 2 == 0 && scl / 2 == sda / 2 {
        var instance := (scl / 2) % NUM_INSTANCES;
        peripheral := Some(INSTANCES[instance]);
      }
      if peripheral == None {
        return Fail(InvalidPins);
      }
      var block := peripheral.value;
      if Enabled(chip.mode[HwIndex(block)]) {
        return Fail(PeripheralInUse);
      }

      chip.SetI2CFunction(sda);
      chip.SetI2CFunction(scl);

      chip.SetTargetMode(block, DEFAULT_ADDRESS);

      sdaPin := sda;
      sclPin := scl;
      chip.ClaimPin(sda);
      chip.ClaimPin(scl);
      return Pass;
    }

    /** `common_hal_i2cperipheral_i2c_peripheral_deinit`. */
    method Deinit(chip: Chip)
      requires chip.Valid() && CanDeinit(View())
      modifies this, chip`claimed, chip`routed, chip.mode, chip.neverReset
      ensures chip.Valid()
      ensures Step(chip.View(), View(), Pass) == DeinitStep(old(chip.View()), old(View()))
    {
      if Deinited(View()) {
        return;
      }
      var block := peripheral.value;
      chip.neverReset[HwIndex(block)] := false;

      chip.DisableBlock(block);

      chip.ResetPinNumber(sdaPin);
      chip.ResetPinNumber(sclPin);
      sdaPin := NO_PIN;
      sclPin := NO_PIN;
    }
  }
}
