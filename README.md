# Flood-alert controller: a verified model of its decision logic

The firmware runs three FreeRTOS tasks on a Raspberry Pi Pico:

- A **sampling task** reads two ADC channels (water level and rain volume), filters each through a dead zone, and offers the resulting reading to two five-slot queues without blocking.
- A **display task** takes readings from the first queue. It classifies each one and shows "Alerta" or "Normal" on an SSD1306 screen.
- An **alert task** takes readings from the second queue, waiting at most 20 ms for each. It drives an RGB LED and a 5x5 WS2812 LED matrix, configures two PWM slices for the buzzers, and writes a duty level to channel A of each slice. The second buzzer is on GPIO 21, which is channel B of its slice, so the channel-A writes may never reach that pin. A blink phase (`blink_state`) alternates the warning triangle on successive alert cycles.

This project models the integer logic under those tasks and proves what each part promises.

- `types.dfy`: the C integer widths as subset types, the `Reading` record and `Option`.
- `risk.dfy`: the alert thresholds and the single classification predicate.
- `sampling.dfy`: the dead-zone filter and one sampling cycle that fans a reading out to both queues.
- `queues.dfy`: a fixed-capacity ring-buffer FIFO class. A send to a full queue drops the new reading. `Offer` is the pure specification of a send.
- `matrix.dfy`: GRB colour packing, the 8-bit shift applied when words are pushed to the matrix, `update_matrix` as a loop over an array, and `draw_triangle` filling a 25-entry array in place.
- `buzzer.dfy`: `set_volume_level` (clock divisor and wrap for both slices) and the 90% duty level.
- `alert_task.dfy`: the alert task's step as a pure function with a class wrapped around it. The class holds `blinkState` and has methods for one loop iteration and for a finite run of iterations.
- `display_task.dfy`: the display label, its agreement with the alert task, and one display-loop wait.

Two behaviours of the alert task are worth stating plainly:

- On a receive timeout (main.c:246, 271-272) the task does nothing in that iteration; it does not re-evaluate the last reading.
- A Normal reading (main.c:262-270) leaves `blink_state` as it is; the phase is not reset.

## Model

| member | source | states |
|---|---|---|
| Risk.ThresholdsArePercentOfFullScale | main.c:31-32 | the water threshold is 70% of 4095 truncated (2866); the rain threshold is 80% of 4095 (3276) |
| Risk.Classify | main.c:248-249 | the one alert predicate both consumers use (main.c:190-191 in the display task, main.c:248-249 in the alert task): Alert exactly when water >= 2866 or rain >= 3276 |
| Risk.ClassifyMonotone | main.c:190-191 | raising either field never turns Alert into Normal |
| Risk.ClassifyBoundaries | main.c:248-249 | water 2866 or rain 3276 alone gives Alert; water 2865 (or rain 3275) with the other field below its threshold gives Normal |
| Sampling.DeadZone | main.c:143-148 | the result is the raw value or 2039; it is 2039 exactly when raw is in [2019, 2059]; it differs from raw only inside that band |
| Sampling.FilterReading | main.c:139-158 | both channels of the published reading go through the same dead zone |
| Sampling.DeadZoneIdempotent | main.c:153-158 | filtering twice is the same as filtering once |
| Sampling.DeadZoneInAdcRange | main.c:141-148 | a sample in [0, 4095] stays in [0, 4095] |
| Sampling.FilterPreservesClassification | main.c:29-32 | the dead band lies below both thresholds, so filtering never changes the risk state |
| Sampling.SampleCycle | main.c:139-162 | one cycle publishes the filtered reading; each queue is updated from its own old contents by a drop-on-full send |
| Queues.Offer | main.c:161-162 | a send appends at the tail exactly when the queue is below capacity and leaves it unchanged otherwise; capacity is never exceeded |
| Queues.OfferAllKeepsEarliest | main.c:161-162 | a burst of sends into an unread queue keeps the earliest readings that fit and drops all later ones |
| Queues.BoundedQueue.constructor | main.c:289-290 | a new queue of the given capacity is empty |
| Queues.BoundedQueue.Send | main.c:161 | success exactly when not full; the contents become Offer of the old contents |
| Queues.BoundedQueue.Receive | main.c:246 | an empty queue yields None and stays empty; otherwise the oldest reading is removed and returned |
| Queues.FillAndOverflow | main.c:289-290 | five sends fill a new five-slot queue, the sixth send is refused, and the first receive returns the first reading |
| Matrix.RgbToGrb | main.c:65-67 | the packed word fits in 24 bits |
| Matrix.RgbToGrbFields | main.c:65-67 | green, red and blue are bytes 2, 1 and 0 of the word, and byte 3 is zero |
| Matrix.RgbToGrbInjective | main.c:65-67 | distinct colours pack to distinct words |
| Matrix.ShiftLeft8 | main.c:77 | in the 32-bit shift the low byte is always 0, and the remaining bytes hold the colour's low 24 bits |
| Matrix.Emit | main.c:75-79 | one word per colour; every low byte is 0; each 24-bit colour can be read back from its word |
| Matrix.UpdateMatrix | main.c:75-79 | exactly max(size, 0) words are emitted in index order, word i being colour i shifted left by 8 |
| Matrix.IconColours | main.c:83-84 | yellow is rgb_to_uint32(10,10,0) = 0x0A0A00; off is 0 |
| Matrix.TriangleBuffer | main.c:85-101 | 25 entries, each yellow or 0; all 0 when the icon is off |
| Matrix.TriangleIsInvertedTriangle | main.c:92-101 | when on, the cells 5..9, 11..13 and 17 are yellow and the rest 0. By row and column this is a downward triangle: 5, 3 and 1 cells wide in rows 1 to 3 |
| Matrix.DrawTriangle | main.c:82-105 | the in-place fill of the 25-entry buffer followed by update_matrix emits exactly the shifted triangle buffer |
| Buzzer.VolumeDivisor | main.c:112-122 | level 2 selects divisor 30; level 1 and every other level select 300 |
| Buzzer.SetVolumeLevel | main.c:107-130 | both slices receive the same configuration: wrap 41665 and divisor 30 for level 2, 300 otherwise |
| Buzzer.NinetyPercent | main.c:255-256 | the level is period * 0.9 rounded toward zero |
| Buzzer.AlertDutyValue | main.c:255-256 | the period is 41666 ticks and the on-phase level is 37499, a valid 16-bit level below the period |
| AlertTask.React | main.c:247-270 | Alert: LEDs (1,0,0), triangle drawn with the current phase, volume level 2, buzzers 37499 then 0. Normal: LEDs (0,0,1), triangle off, volume level 1, buzzers 0. Frame and PWM configuration always match the triangle flag and the volume level |
| AlertTask.Step | main.c:245-271 | a timeout changes nothing and writes nothing; an Alert reading flips the phase; a Normal reading keeps it; every reading writes React's outputs |
| AlertTask.BlinkParity | main.c:244-261 | after any run, the phase is the starting phase flipped once for each alert reading |
| AlertTask.SustainedAlertAlternates | main.c:253-261 | from the initial phase, under sustained alert, iteration i draws the icon exactly when i is odd and drives the buzzers to 37499 then 0 |
| AlertTask.TwoAlertsRestoreBlink | main.c:253-261 | two consecutive alert readings restore the phase, and the icon differs between them |
| AlertTask.TraceAt | main.c:245-273 | entry i of a run's outputs is the step taken from the phase left by the first i iterations |
| AlertTask.AlertController.constructor | main.c:244 | blink_state starts false |
| AlertTask.AlertController.HandleReceive | main.c:246-270 | the method, with the threshold test written as in the source, changes blink_state and writes outputs exactly as Step says |
| AlertTask.AlertController.Iterate | main.c:245-273 | receiving from an empty queue is a timeout and leaves everything unchanged; otherwise the oldest reading is consumed and handled |
| AlertTask.AlertController.Run | main.c:245-273 | a finite prefix of the loop ends in FinalBlink and writes Trace |
| DisplayTask.StateLabel | main.c:189-195 | the label is "Alerta" or "Normal", and "Alerta" exactly on an Alert reading |
| DisplayTask.DisplayAgreesWithAlertTask | main.c:190-191 | the display shows "Alerta" exactly when the alert task takes its alert branch (warning LED, phase flipped) on the same reading |
| DisplayTask.DisplayIteration | main.c:181-200 | with the source's inline test, an available reading is consumed and labelled by StateLabel; an empty queue leaves the display waiting |
| DisplayTask.NormalAlertNormalScenario | main.c:190-195 | readings (1500,1000), (3000,1000), (1500,1000) give Normal, Alerta, Normal and a calm, warning, calm LED |

## Left out

- `adc_to_rain_volume`, `adc_to_water_level` and the `%.1f` text (main.c:48-62, 196-206): floating-point conversions and formatting.
- Hardware setup: ADC, I2C, GPIO, PWM, PIO program loading and WS2812 initialisation. These are SDK calls with no decision logic.
- SSD1306 drawing (fill, border, divider, strings, send). The driver library is not part of this model.
- `vTaskDelay`, the 200/400/50/20 ms cadence, task priorities, stack sizes and the scheduler. The model is a sequence of steps, not time, and it has no concurrency.
- FreeRTOS queue internals and blocking receives. The five-slot queue is modelled as a ring buffer. "Timeout" (alert task) and "still waiting" (display task) are both an empty queue. Drop-on-full is the documented behaviour of a zero-timeout `xQueueSend`; it is not code in main.c.
- `gpio_irq_handler`, `reset_usb_boot` and the wiring in `main`: interrupt and reset plumbing.
- ADC reads are parameters of `SampleCycle`, and physical outputs are returned as values. The PIO word stream is a sequence, PWM writes are `VolumeConfig` values and `DutyPair` values (the channel-A level of each slice; the sound itself is not modelled), and LED writes are a `Leds` record.
- Matrix.DrawTriangle: uses the constants `Yellow` and `Off` for the two colours instead of calling `RgbToGrb` in its body; `Matrix.IconColours` proves they equal rgb_to_uint32(10,10,0) and rgb_to_uint32(0,0,0).
- Matrix.UpdateMatrix: requires `size` not to exceed the buffer length. A larger size reads past the end of the C array, which is undefined behaviour.
- Buzzer.NinetyPercent: models the double product `41666 * 0.9` as the exact rational 9 * 41666 / 10 before truncation. This does not model double rounding in general; for this one product, both round down to 37499.
- AlertTask.AlertController.Run: models a finite prefix of the endless loop, not the loop forever.
