/**
 * Process-wide state that the I2C peripheral code works on: the table of
 * the two hardware I2C blocks and the `never_reset_i2c` flags, both static
 * to `i2cperipheral.c`, together with what each block is doing and the pin
 * registry, which other drivers share.
 *
 * The flags start clear and this file only ever writes `false` to them, so
 * in the program as written they stay clear (`FlagsStayClear`); the reset
 * lemmas are stated for any flags all the same.
 *
 * The SDK calls (`i2c_set_slave_mode`, `i2c_deinit`, `gpio_set_function`)
 * and the pin registry (`claim_pin`, `reset_pin_number`) are not part of
 * this model; each is represented by the effect on this state that the
 * peripheral code relies on.
 */
module Hardware {
  import opened Pins

  /** One hardware I2C block (`i2c0`, `i2c1`). */
  datatype Handle = I2C0 | I2C1

  /**
   * What a block is doing.  `Controller` stands for a block that another
   * driver has enabled; `Target` is slave mode answering one address.
   */
  datatype Mode = Disabled | Controller | Target(address: int)

  /** The `enable` bit of the block's `IC_ENABLE` register. */
  predicate Enabled(m: Mode)
  {
    !m.Disabled?
  }

  /** The instance table `i2c[2] = {i2c0, i2c1}`. */
  const INSTANCES: seq<Handle> := [I2C0, I2C1]

  /** `i2c_hw_index`: the table position of a block, the inverse of `INSTANCES`. */
  function HwIndex(h: Handle): (i: Instance)
    ensures INSTANCES[i] == h
  {
    match h
    case I2C0 => 0
    case I2C1 => 1
  }

  /** The process-wide state as a value. */
  datatype ChipState = ChipState(
    mode: seq<Mode>,          // one entry per instance
    neverReset: seq<bool>,    // `never_reset_i2c`
    claimed: set<PinNumber>,  // pins held in the pin registry
    routed: set<PinNumber>)   // pins whose GPIO function is I2C

  predicate WellFormed(s: ChipState)
  {
    |s.mode| == NUM_INSTANCES && |s.neverReset| == NUM_INSTANCES
  }

  /**
   * The block modes after the first `n` iterations of the `reset_i2c` loop:
   * each of those instances is disabled unless it is flagged never-reset.
   */
  function ResetPrefix(mode: seq<Mode>, neverReset: seq<bool>, n: nat): (r: seq<Mode>)
    requires n <= |mode| && n <= |neverReset|
    ensures |r| == |mode|
    ensures forall k :: 0 <= k < |mode| ==>
      r[k] == (if k < n && !neverReset[k] then Disabled else mode[k])
  {
    if n == 0 then mode
    else
      var done := ResetPrefix(mode, neverReset, n - 1);
      if neverReset[n - 1] then done else done[n - 1 := Disabled]
  }

  /**
   * The state after `reset_i2c`: an instance ends up disabled iff its
   * never-reset flag is clear or it was disabled already; a flagged
   * instance keeps whatever mode it had; nothing but the modes changes.
   */
  function ResetAll(s: ChipState): (r: ChipState)
    requires WellFormed(s)
    ensures WellFormed(r)
    ensures forall i: Instance :: !Enabled(r.mode[i]) <==> !s.neverReset[i] || !Enabled(s.mode[i])
    ensures forall i: Instance :: s.neverReset[i] ==> r.mode[i] == s.mode[i]
    ensures r.neverReset == s.neverReset && r.claimed == s.claimed && r.routed == s.routed
  {
    s.(mode := ResetPrefix(s.mode, s.neverReset, NUM_INSTANCES))
  }

  /** A second sweep finds nothing left to disable. */
  lemma ResetAllIdempotent(s: ChipState)
    requires WellFormed(s)
    ensures ResetAll(ResetAll(s)) == ResetAll(s)
  {
    var once := ResetAll(s).mode;
    var twice := ResetAll(ResetAll(s)).mode;
    assert |twice| == |once|;
    forall k | 0 <= k < |once|
      ensures twice[k] == once[k]
    {
    }
  }

  /** No never-reset flag is set. */
  predicate FlagsClear(s: ChipState)
  {
    forall i :: 0 <= i < |s.neverReset| ==> !s.neverReset[i]
  }

  /**
   * The table holds one entry per instance, `i2c0` first, and `i2c_hw_index`
   * undoes the table lookup `i2c[i]`.
   */
  lemma HwIndexOfTable(i: Instance)
    ensures |INSTANCES| == NUM_INSTANCES && INSTANCES[0] == I2C0 && INSTANCES[1] == I2C1
    ensures HwIndex(INSTANCES[i]) == i
  {
  }

  /**
   * The process-wide state as the firmware holds it: SDK register state of
   * the two blocks, the static `never_reset_i2c` array and the pin registry.
   */
  class Chip {
    var mode: array<Mode>
    var neverReset: array<bool>
    var claimed: set<PinNumber>
    var routed: set<PinNumber>

    ghost predicate Valid()
      reads this
    {
      mode.Length == NUM_INSTANCES && neverReset.Length == NUM_INSTANCES
    }

    /** The current state as a value. */
    function View(): ChipState
      reads this, mode, neverReset
    {
      ChipState(mode[..], neverReset[..], claimed, routed)
    }

    /**
     * The state when this code first runs: the static `never_reset_i2c`
     * array is zero-initialised, while the blocks and the pin registry are
     * as other drivers left them.
     */
    constructor (mode: seq<Mode>, claimed: set<PinNumber>, routed: set<PinNumber>)
      requires |mode| == NUM_INSTANCES
      ensures Valid() && View() == ChipState(mode, [false, false], claimed, routed)
      ensures fresh(this.mode) && fresh(neverReset)
    {
      this.mode := new Mode[] [mode[0], mode[1]];
      neverReset := new bool[] [false, false];
      this.claimed, this.routed := claimed, routed;
      new;
      assert this.mode[..] == mode;
    }

    /** `claim_pin`: the registry records the pin as in use. */
    method ClaimPin(p: PinNumber)
      modifies this`claimed
      ensures claimed == old(claimed) + {p}
    {
      claimed := claimed + {p};
    }

    /** `reset_pin_number`: the pin is released and returned to its default function. */
    method ResetPinNumber(p: PinNumber)
      modifies this`claimed, this`routed
      ensures claimed == old(claimed) - {p} && routed == old(routed) - {p}
    {
      claimed := claimed - {p};
      routed := routed - {p};
    }

    /** `gpio_set_function(p, GPIO_FUNC_I2C)`: the pin is routed to the I2C blocks. */
    method SetI2CFunction(p: PinNumber)
      modifies this`routed
      ensures routed == old(routed) + {p}
    {
      routed := routed + {p};
    }

    /** `i2c_set_slave_mode(h, true, address)`: the block is enabled as a target at `address`. */
    method SetTargetMode(h: Handle, address: int)
      requires Valid()
      modifies mode
      ensures mode[..] == old(mode[..])[HwIndex(h) := Target(address)]
    {
      mode[HwIndex(h)] := Target(address);
    }

    /** `i2c_deinit(h)`: the block is disabled. */
    method DisableBlock(h: Handle)
      requires Valid()
      modifies mode
      ensures mode[..] == old(mode[..])[HwIndex(h) := Disabled]
    {
      mode[HwIndex(h)] := Disabled;
    }

    /** `reset_i2c`: disable every instance not flagged never-reset. */
    method ResetI2C()
      requires Valid()
      modifies mode
      ensures Valid() && View() == ResetAll(old(View()))
    {
      for i := 0 to NUM_INSTANCES
        invariant mode[..] == ResetPrefix(old(mode[..]), neverReset[..], i)
      {
        if neverReset[i] {
          continue;
        }
        DisableBlock(INSTANCES[i]);
      }
    }
  }
}
