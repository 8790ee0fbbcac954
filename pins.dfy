/**
 * Pin numbers and the rule that maps an (SCL, SDA) pin pair to one of the
 * chip's I2C hardware instances.
 *
 * On this microcontroller family the I2C pins follow a fixed pattern: SCL
 * pins are odd, SDA pins are even, a pair belongs together when both give
 * the same value under integer division by two, and the pattern of
 * instances repeats every four GPIOs.  Pin numbers are unsigned bytes, so
 * Dafny's `/` and `%` agree with C's here.
 */
module Pins {
  import opened Base

  /** A GPIO number as the firmware stores it: an unsigned byte. */
  type PinNumber = n: int | 0 <= n < 256

  /** The number of I2C hardware instances on the chip. */
  const NUM_INSTANCES: nat := 2

  /** An index into the instance table. */
  type Instance = i: int | 0 <= i < NUM_INSTANCES

  /** The sentinel stored in a controller's pin fields once it is deinitialised. */
  const NO_PIN: PinNumber := 0xff

  /** The pairing rule: SCL odd, SDA even, and the same pair index. */
  predicate ValidPair(scl: PinNumber, sda: PinNumber)
  {
    scl % 2 == 1 && sda % 2 == 0 && scl / 2 == sda / 2
  }

  /**
   * The instance a pin pair selects, or `None` when the pair is rejected.
   * It depends on SCL alone: GPIOs 4k and 4k+1 go to instance 0, GPIOs
   * 4k+2 and 4k+3 to instance 1.
   */
  function InstanceFor(scl: PinNumber, sda: PinNumber): (r: Option<Instance>)
    ensures r.Some? <==> scl % 2 == 1 && sda == scl - 1
    ensures r.Some? ==> r.value == (if scl % 4 == 1 then 0 else 1)
  {
    PairRule(scl, sda);
    if ValidPair(scl, sda) then
      SclInstance(scl);
      Some((scl / 2) % NUM_INSTANCES)
    else None
  }

  /** For an odd SCL pin, `(scl / 2) % 2` is 0 exactly when SCL is 1 more than a multiple of 4. */
  lemma SclInstance(scl: PinNumber)
    requires scl % 2 == 1
    ensures (scl / 2) % 2 == (if scl % 4 == 1 then 0 else 1)
  {
    var q := scl / 4;
    assert scl == 4 * q + scl % 4;
    if scl % 4 == 1 {
      assert scl / 2 == 2 * q;
    } else {
      assert scl / 2 == 2 * q + 1;
    }
  }

  /** The pairing rule is the same as "SCL is odd and SDA is the pin just below it". */
  lemma PairRule(scl: PinNumber, sda: PinNumber)
    ensures ValidPair(scl, sda) <==> scl % 2 == 1 && sda == scl - 1
  {
    if scl % 2 == 1 && sda == scl - 1 {
      assert sda / 2 == scl / 2 && sda % 2 == 0;
    }
    if ValidPair(scl, sda) {
      assert scl == 2 * (scl / 2) + 1 && sda == 2 * (sda / 2);
    }
  }

  /** Two accepted pairs with the same SCL pin are the same pair, on the same instance. */
  lemma InstanceDeterminedByScl(scl: PinNumber, sda1: PinNumber, sda2: PinNumber)
    requires InstanceFor(scl, sda1).Some? && InstanceFor(scl, sda2).Some?
    ensures sda1 == sda2 && InstanceFor(scl, sda1) == InstanceFor(scl, sda2)
  {
    PairRule(scl, sda1);
    PairRule(scl, sda2);
  }

  /** An accepted SDA pin is even, so it is never the (odd) sentinel. */
  lemma ValidPairSdaIsNotSentinel(scl: PinNumber, sda: PinNumber)
    requires ValidPair(scl, sda)
    ensures sda != NO_PIN && sda != scl
  {
  }
}
