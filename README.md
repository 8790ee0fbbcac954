# I2C target-mode controller: pin binding and lifecycle

This project models the RP2040 common-hal layer of the `i2cperipheral`
module (`i2cperipheral.c`): how an I2C target-mode ("peripheral")
controller object is bound to one of the chip's two hardware I2C blocks
through a pin pair, and how it is released again.

- `Pins` (pins.dfy): pin numbers (unsigned bytes), the sentinel
  `NO_PIN = 0xff` and the pairing rule. An (SCL, SDA) pair is accepted when
  SCL is odd, SDA is even and both give the same value under `/ 2`. The
  pair then selects instance `(scl / 2) % 2`.
- `Hardware` (hardware.dfy): the process-wide state. It holds the
  instance table `i2c[2] = {i2c0, i2c1}` and `i2c_hw_index`; the table and
  the `never_reset_i2c` flags are `STATIC` to `i2cperipheral.c`. It records
  what each block is doing: `Disabled`, enabled by another driver
  (`Controller`), or a target at some address. It also holds the
  `never_reset_i2c` flags and the pin registry (claimed pins, and pins
  routed to the I2C function), which other drivers share. The flags start
  clear and this file only ever writes `false` to them, so in the program
  as written no flag is ever set (`FlagsStayClear`). The reset lemmas are
  stated for any flags, so they also describe flagged instances. `ChipState` is this state as a value.
  `ResetAll` is the `reset_i2c` sweep as a function. Class `Chip` holds the
  same state in arrays and fields. Its methods stand for the SDK and
  registry calls, and `Chip.ResetI2C` is the sweep loop.
- `Peripheral` (peripheral.dfy): the controller's fields `peripheral`
  (`None` is `NULL`), `sda_pin` and `scl_pin`. `ConstructStep` and
  `DeinitStep` say what one call of construct or deinit does to the
  controller and to the chip state, including which `ValueError` construct
  raises. Class `I2CPeripheral` performs the same steps in the source's
  order, and its methods are proved to agree with those functions. The
  lemmas state the lifecycle properties: the error cases, what a
  successful construct records, idempotent deinit, deinit undoing
  construct, one block never bound twice, and the effect of the reset
  sweep on bound controllers.

Raised exceptions (`mp_raise_ValueError`) are modelled as a returned
`Outcome`: `Fail(InvalidPins)` or `Fail(PeripheralInUse)`. The state at
the moment of the raise is the final state.

Points where the code's behaviour is worth stating explicitly:
- Construct programs the fixed target address `0x55` and ignores its
  `address` argument (i2cperipheral.c:76). `ConstructIgnoresAddress`
  states this.
- When the selected block is already enabled, `peripheral` is left
  pointing at that block, because it is assigned (line 63) before the
  enable check (line 68). A failed construct might be expected to have no
  side effects; here `peripheral` stays set. The pin fields, the registry
  and the hardware are untouched.
- A failed construct on a controller that is already live leaves its pin
  fields set while `peripheral` becomes `NULL` or changes.
  `ReconstructLeavesStalePins` shows this on a concrete state. The binding
  layer only constructs freshly allocated objects, so this is noted and
  not corrected.
- Deinit passes `peripheral` to the SDK's `i2c_hw_index` and `i2c_deinit`
  (lines 92 and 94) whenever `sda_pin` is not the sentinel. `DeinitStep`
  and `I2CPeripheral.Deinit` require `CanDeinit`: a controller with live
  pins has a block. This costs callers nothing. Deinit is reached only
  from I2CPeripheral.c:89 and I2CPeripheral.c:108, on an object that
  make_new returned. make_new returns only after construct succeeded
  (I2CPeripheral.c:78-79), and a raise leaves the object unreachable.
  `ConsistentDeinit` states that every consistent controller meets
  `CanDeinit`.

The SDK effects are assumptions, because that code is not part of this
model:
- `i2c_set_slave_mode(h, true, a)` makes block `h` an enabled target at
  address `a`.
- `i2c_deinit(h)` disables block `h`.
- `gpio_set_function(p, GPIO_FUNC_I2C)` routes pin `p` to I2C.
- `claim_pin` adds a pin to the registry.
- `reset_pin_number` removes a pin from the registry and from the I2C
  routing.

## Model

| member | source | states |
|---|---|---|
| Pins.ValidPair | i2cperipheral.c:61 | the pairing test: SCL odd, SDA even, and equal under `/ 2` |
| Pins.PairRule | i2cperipheral.c:59-61 | a pair is accepted iff SCL is odd and SDA is the pin just below it (SDA == SCL - 1) |
| Pins.InstanceFor | i2cperipheral.c:61-63 | an instance is selected iff SCL is odd and SDA == SCL - 1; it is 0 when SCL % 4 == 1 and 1 otherwise, so it depends on SCL alone |
| Pins.SclInstance | i2cperipheral.c:62 | for odd SCL, `(scl / 2) % 2` is 0 when SCL % 4 == 1 and 1 when SCL % 4 == 3 |
| Pins.InstanceDeterminedByScl | i2cperipheral.c:61-62 | two accepted pairs with the same SCL pin are the same pair and select the same instance |
| Pins.ValidPairSdaIsNotSentinel | i2cperipheral.c:61 | an accepted SDA pin is even, so it differs from NO_PIN (0xff) and from SCL |
| Hardware.Enabled | i2cperipheral.c:68 | the enable-bit test: a block is enabled unless it is disabled |
| Hardware.HwIndex | i2cperipheral.c:92 | `i2c_hw_index` returns the table position at which `i2c[]` holds the block |
| Hardware.HwIndexOfTable | i2cperipheral.c:44 | the table `INSTANCES` holds two entries, `i2c0` then `i2c1`; looking up `i2c[i]` and taking its hardware index gives back `i` |
| Hardware.ResetPrefix | i2cperipheral.c:47-53 | after the first n loop iterations, each instance below n is disabled unless flagged never-reset, and every other instance keeps its mode |
| Hardware.ResetAll | i2cperipheral.c:46-54 | after the sweep an instance is disabled iff its flag is clear or it was already disabled; flagged instances keep their mode; flags and pin registry are unchanged |
| Hardware.ResetAllIdempotent | i2cperipheral.c:46-54 | sweeping twice gives the same state as sweeping once |
| Hardware.Chip.constructor | i2cperipheral.c:43-44 | the static never-reset flags start all false; the block modes and the pin registry start as given, in two fresh arrays of two entries |
| Hardware.Chip.ClaimPin | i2cperipheral.c:80-81 | `claim_pin` adds exactly that pin to the claimed set |
| Hardware.Chip.ResetPinNumber | i2cperipheral.c:96-97 | `reset_pin_number` removes exactly that pin from the claimed set and the I2C routing |
| Hardware.Chip.SetI2CFunction | i2cperipheral.c:72-73 | `gpio_set_function` adds exactly that pin to the I2C routing |
| Hardware.Chip.SetTargetMode | i2cperipheral.c:76 | slave-mode setup makes that block, and no other, a target at the given address |
| Hardware.Chip.DisableBlock | i2cperipheral.c:94 | `i2c_deinit` disables that block and no other |
| Hardware.Chip.ResetI2C | i2cperipheral.c:46-54 | the loop leaves the chip in the state `ResetAll` gives for the state before it |
| Peripheral.ConstructStep | i2cperipheral.c:56-82 | a pair outside the rule raises "Invalid pins" with the chip state and pin fields unchanged and `peripheral` NULL; an accepted pair on an enabled block raises "I2C peripheral in use" with nothing routed, programmed or claimed, pin fields unchanged, `peripheral` that block; otherwise it passes, recording, routing and claiming both pins and making only that block a target at 0x55, flags unchanged, the controller bound and not deinited |
| Peripheral.ConstructIgnoresAddress | i2cperipheral.c:76 | construct gives the same result for every `address` argument |
| Peripheral.NoDoubleBinding | i2cperipheral.c:68-69 | a pair that selects the block of a bound controller is refused as in use, with the chip state unchanged |
| Peripheral.ConstructKeepsOtherBinding | i2cperipheral.c:72-81 | any construct of a second controller leaves an already bound controller bound |
| Peripheral.ConstructKeepsConsistent | i2cperipheral.c:58-81 | from an unbound controller, construct leaves the pins both set to an accepted pair matching `peripheral`, or both NO_PIN, whether or not it raises |
| Peripheral.ReconstructLeavesStalePins | i2cperipheral.c:58-66 | a failed construct on a live controller leaves its pins set with a NULL `peripheral`, which breaks the invariant and the precondition of deinit |
| Peripheral.Deinited | i2cperipheral.c:84-86 | `_deinited`: the controller counts as deinitialised when its SDA field holds NO_PIN |
| Peripheral.DeinitedMeansUnbound | i2cperipheral.c:84-86 | for a consistent controller, testing `sda_pin == NO_PIN` is the same as both pins being NO_PIN |
| Peripheral.DeinitStep | i2cperipheral.c:88-99 | deinit never raises and deinited holds afterwards; a deinitialised controller and the chip are left unchanged; a live one clears its block's never-reset flag, disables only that block, releases both pins and sets both pin fields to NO_PIN |
| Peripheral.ConsistentDeinit | i2cperipheral.c:88-99 | a consistent controller can always be deinitialised, and it is still consistent afterwards |
| Peripheral.DeinitIdempotent | i2cperipheral.c:88-99 | deinit twice gives the same result as deinit once |
| Peripheral.DeinitUndoesConstruct | i2cperipheral.c:72-99 | after a successful construct on free pins, deinit restores the block mode and the pin registry; only the never-reset flag differs, being cleared |
| Peripheral.DeinitKeepsOtherBinding | i2cperipheral.c:92-99 | deinit of one bound controller leaves a controller bound to the other block bound |
| Peripheral.ResetKeepsProtectedBinding | i2cperipheral.c:47-50 | the sweep leaves a bound controller bound when its block is flagged never-reset |
| Peripheral.ResetReclaimsUnprotected | i2cperipheral.c:47-53 | the sweep disables the block of a bound controller whose flag is clear, which unbinds it |
| Peripheral.FlagsStayClear | i2cperipheral.c:43 | with all never-reset flags clear, construct, deinit and the reset sweep all leave them clear |
| Peripheral.I2CPeripheral.constructor | I2CPeripheral.c:62 | a controller object holds the given field values |
| Peripheral.I2CPeripheral.Construct | i2cperipheral.c:56-82 | the step-by-step construct leaves the chip, the fields and the outcome exactly as `ConstructStep` gives |
| Peripheral.I2CPeripheral.Deinit | i2cperipheral.c:88-100 | the step-by-step deinit leaves the chip and the fields exactly as `DeinitStep` gives |

## Left out

- `common_hal_i2cperipheral_i2c_peripheral_write` (i2cperipheral.c:102-106): it only forwards to the SDK's `i2c_raw_blocking`, which is not part of this model, so there is no logic to state.
- The binding layer I2CPeripheral.c (argument parsing, object allocation, `deinit`, `__exit__`, `writeto`): it is glue. Its `writeto` relies on `normalize_buffer_bounds`, which is not part of this model. It also uses an undefined `stop`, calls a function that does not exist, and passes arguments that match no prototype, so a model would have to invent its behaviour.
- I2CPheripheral.h, `__init__.c` and the request object constructor: declarations, a module globals table and a back-pointer store, with no behaviour. The header's prototypes disagree with the implementation.
- Transactions: the read/write request state machine, repeated-start detection, timeouts, the per-operation lock and I/O error codes. The source does not implement them.
- Multiple target addresses, bus frequency, timeout and SMBus options: the source accepts none of them.
- GPIO multiplexer and DesignWare register layouts: each block is kept as an abstract mode and each pin as membership in the routed set.
- Concurrency: the code is single-threaded and runs each operation to completion, so every operation is one atomic step.
- Peripheral.ConstructKeepsConsistent: it is stated only from an unbound controller. No call site matches this. Construct is called only on a fresh `m_new_obj` object (I2CPeripheral.c:62, 78), and its pin fields are not set to NO_PIN. From such an object, or from a live one (see `ReconstructLeavesStalePins`), a construct that raises "Invalid pins" leaves a controller that is neither consistent nor deinitable. That controller is unreachable, because the raise discards the object. The invariant that matters is the Pass case of `ConstructStep`, which gives `Bound` from any starting controller.
