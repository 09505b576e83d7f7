# hid-xiaomiff: force-feedback bridge for the Xiaomi Bluetooth game controller

This project models the core of a Linux HID driver, `hid-xiaomiff`, and proves properties of that model. The driver lets the kernel's generic rumble interface drive the controller's two motors. The controller takes its motor strengths in bytes 0 and 1 of a six-value feature report, not in a standard force-feedback report.

The model has four modules, one per concern of `linux-kernel/hid-xiaomiff.c`:

- `Rumble` (`rumble.dfy`) covers `xiaomiff_play`'s arithmetic. `Scale` maps a 16-bit magnitude to a motor byte. `Staged` gives the six-value buffer after play's two writes.
- `Dispatch` (`dispatch.dfy`) is a value-level model of the single work item. It holds the shared buffer and the work item's "pending" bit. `Step` and `Exec` run sequences of play, schedule, workqueue-run and cancel actions. They return every payload that is handed to set-report. All the interleaving properties are lemmas over `Exec`.
- `Hid` (`hid.dfy`) holds what the driver sees of the HID core. A `Field` has a `report_count` and an in-place `value` array. A `Report` is its list of fields, so `maxfield` is the list's length. A `Request` is one transport call. The module also defines the errno values.
- `XiaomiFF` (`xiaomiff.dfy`) is the driver itself. `Device` models the `hid_device`: its parsed feature reports, its drvdata pointer, and a transcript of transport requests. `Session` models `struct xiaomiff_device`: the recorded field, the device, the pending bit and a lifecycle. `Session.Play`, `Session.Worker`, `Session.RunPendingWork` and `Session.CancelWorkSync` change the object in place. Each is tied to `Dispatch.Step` through `Session.State()`. `Init`, `Probe` and `Remove` are the attach and detach paths.

Each kernel service the driver calls is modelled by its result, which is a parameter in `Platform`. These are `hid_parse`, `hid_hw_start`, `kzalloc` and `input_ff_create_memless`. The services that talk to the hardware become entries of `Device.transcript`. These are `hid_hw_request` with `HID_REQ_SET_REPORT`, `hid_hw_wait`, `hid_hw_start` with its `HID_CONNECT_FF` bit, `hid_hw_close` and `hid_hw_stop`. So does `cancel_work_sync`, as a `CancelSync` entry, so that its place before close and stop can be stated. `kfree` sets the session's lifecycle to `Freed`. Dereferencing a NULL or freed drvdata is the `RemoveOutcome` `NullDrvdata` or `UseAfterFree`.

What the code does that a reader may not expect:

- None of init's failures stops the bind. `xiaomi_probe` discards `xiaomiff_init`'s result and returns 0 once `hid_hw_start` succeeds. A device that failed validation is bound anyway, so it is possible to reach a NULL dereference when the device is removed.
- Validation has one error code for both failures. An empty feature-report list and an unexpected layout both return `-ENODEV`.
- The sequence in init is: `drvdata` is set, `FF_RUMBLE` is set and the memless device is created, and only after that are the motors zeroed and the zero report sent. The capability is announced before the zero write, not after it.
- `xiaomi_remove` has no `kfree` of its own. Once `input_ff_create_memless` has succeeded, the memless force-feedback layer owns the session pointer. That layer frees it when the input device is released, which `hid_hw_stop` sets off. That code is not part of this model, so after remove the session is `Detached`.
- If `input_ff_create_memless` fails, the session is freed but drvdata still points at it.

## Model

| member | source | states |
|---|---|---|
| `Rumble.Scale` | linux-kernel/hid-xiaomiff.c:45-49 | the byte lies in [0, 255] and is the integer part of m * 255 / 65535 (b * 65535 <= m * 255 < (b + 1) * 65535) |
| `Rumble.ScaleProductFitsInt` | linux-kernel/hid-xiaomiff.c:46-49 | the intermediate product m * 0xff is at most 65535 * 255, within a 32-bit signed int |
| `Rumble.ScaleEdges` | linux-kernel/hid-xiaomiff.c:45-49 | 0 maps to 0, 65535 to 255, 32768 to 127 |
| `Rumble.ScaleUnique` | linux-kernel/hid-xiaomiff.c:46-49 | the truncated quotient is the only value b with b * 65535 <= m * 255 < (b + 1) * 65535 |
| `Rumble.ScaleIsDivisionBy257` | linux-kernel/hid-xiaomiff.c:46-49 | scaling equals division by 257 for every magnitude |
| `Rumble.ScaleMonotone` | linux-kernel/hid-xiaomiff.c:45-49 | a larger magnitude never gives a smaller byte |
| `Rumble.ScaleReachesEveryByte` | linux-kernel/hid-xiaomiff.c:45-49 | every byte b is the image of the magnitude b * 257 (scaling is onto [0, 255]) |
| `Rumble.Staged` | linux-kernel/hid-xiaomiff.c:53-54 | the weak byte lands in value[0], the strong byte in value[1], values 2 to 5 are unchanged |
| `Rumble.StagedOverwrites` | linux-kernel/hid-xiaomiff.c:53-54 | staging a second effect erases all trace of the first |
| `Rumble.StagedKeepsBytes` | linux-kernel/hid-xiaomiff.c:53-54 | staging keeps every value of the buffer a byte |
| `Dispatch.Step` | linux-kernel/hid-xiaomiff.c:53-67 | an action transmits at most one payload, and it transmits one exactly when the workqueue runs a queued item |
| `Dispatch.ExecAppend` | linux-kernel/hid-xiaomiff.c:56-67 | running two action sequences in turn is running their concatenation, transmissions concatenated |
| `Dispatch.PlaysCoalesce` | linux-kernel/hid-xiaomiff.c:53-56 | consecutive plays send nothing, leave the item queued once and the last effect's bytes in the buffer |
| `Dispatch.IdleRunsDoNothing` | linux-kernel/hid-xiaomiff.c:61-67 | with nothing queued, any number of runs transmits nothing and changes nothing |
| `Dispatch.RunsTransmitOnce` | linux-kernel/hid-xiaomiff.c:56-67 | a queued item is transmitted exactly once, with the buffer's current contents, however many runs follow |
| `Dispatch.LastWriteWins` | linux-kernel/hid-xiaomiff.c:53-67 | any plays then any runs give exactly one transmission, carrying the last play's bytes, and leave nothing queued |
| `Dispatch.SchedulesCoalesce` | linux-kernel/hid-xiaomiff.c:56 | scheduling n >= 1 times queues the item once and sends nothing |
| `Dispatch.ScheduleBurstRunsOnce` | linux-kernel/hid-xiaomiff.c:56-67 | n >= 1 schedules followed by runs give one transmission, not n |
| `Dispatch.CancelStopsRuns` | linux-kernel/hid-xiaomiff.c:152 | after cancel nothing is queued and no run transmits until the next schedule |
| `Dispatch.CancelIdempotent` | linux-kernel/hid-xiaomiff.c:152 | cancelling twice is the same as cancelling once |
| `Dispatch.AtMostOneRunPerRequest` | linux-kernel/hid-xiaomiff.c:56-67 | transmissions plus a still-queued item never exceed the schedule requests plus the item queued at the start |
| `Dispatch.TransmitsOnlyBytes` | linux-kernel/hid-xiaomiff.c:45-66 | from a buffer of bytes, every transmitted payload and the final buffer consist of bytes |
| `Dispatch.WeakThenStrongSendsLast` | linux-kernel/hid-xiaomiff.c:45-67 | full weak then full strong rumble, before the work runs, sends one report with value[0] = 0 and value[1] = 255 |
| `XiaomiFF.Session.constructor` | linux-kernel/hid-xiaomiff.c:94-100 | a fresh session records the field and the device, nothing queued |
| `XiaomiFF.Session.Schedule` | linux-kernel/hid-xiaomiff.c:56 | the item is queued afterwards; the result is true exactly when it was not queued before |
| `XiaomiFF.Session.Play` | linux-kernel/hid-xiaomiff.c:39-59 | returns 0, writes the scaled weak and strong bytes to value[0] and value[1], keeps values 2 to 5, leaves the work queued; equals `Dispatch.Step` on `Play` |
| `XiaomiFF.Session.Worker` | linux-kernel/hid-xiaomiff.c:61-67 | appends one set-report of the field's current values to the transcript |
| `XiaomiFF.Session.RunPendingWork` | linux-kernel/hid-xiaomiff.c:61-67 | a queued item is unqueued and sends the current buffer once, an idle one sends nothing; equals `Dispatch.Step` on `Run` |
| `XiaomiFF.Session.CancelWorkSync` | linux-kernel/hid-xiaomiff.c:152 | nothing is queued afterwards; the result tells whether something was; the call is logged as `CancelSync`; equals `Dispatch.Step` on `Cancel` |
| `XiaomiFF.InitError` | linux-kernel/hid-xiaomiff.c:81-108 | init returns 0 exactly when the layout is valid, allocation succeeds and input_ff_create_memless succeeds; a bad layout gives -ENODEV, a failed allocation -ENOMEM, a failed memless creation its own error |
| `XiaomiFF.InitRequests` | linux-kernel/hid-xiaomiff.c:110-116 | init sends one set-report of six zeros and one wait when it succeeds, and nothing on any failure |
| `XiaomiFF.Init` | linux-kernel/hid-xiaomiff.c:69-121 | returns `InitError`. Through `InitEffects`: a bad layout or a failed allocation changes nothing; a failed memless creation leaves drvdata on a freed session and the buffer untouched; success leaves an armed, idle session over six zeros, registered with the memless layer. The transcript gains exactly `InitRequests` |
| `XiaomiFF.Probe` | linux-kernel/hid-xiaomiff.c:123-146 | a parse or start failure is returned with the device and the report buffer unchanged; after a successful start the result is 0 whatever init returned, init's effects hold, and the transcript is the start request followed by init's requests |
| `XiaomiFF.Remove` | linux-kernel/hid-xiaomiff.c:148-158 | a NULL drvdata or a freed session is a fault that changes nothing; otherwise the transcript gains cancel, close and stop in that order, nothing is left queued, and drvdata is cleared |
| `XiaomiFF.ProbeRemoveWithoutFeatureReports` | linux-kernel/hid-xiaomiff.c:141-152 | a controller with no feature reports is bound (probe returns 0) and removing it dereferences NULL |
| `XiaomiFF.ProbeRemoveWithFiveValueField` | linux-kernel/hid-xiaomiff.c:141-152 | a five-value first field is rejected by init, the device is still bound, and removing it dereferences NULL |
| `XiaomiFF.ProbeRemoveWhenFfCreateFails` | linux-kernel/hid-xiaomiff.c:98-152 | when memless creation fails probe still returns 0, and remove then uses the freed session |
| `XiaomiFF.ProbeChecked` | linux-kernel/hid-xiaomiff.c:123-146 | corrected probe: it returns 0 exactly when parse, start and init all succeed. A parse or start failure changes nothing. After a start, the result is init's error, init's effects hold (so drvdata is unchanged after a layout or allocation failure), and the transcript is start, init's requests, and stop when init failed. On success drvdata is an armed, idle session over six zeros |
| `XiaomiFF.AttachDetachChecked` | linux-kernel/hid-xiaomiff.c:123-158 | with the corrected probe, the device is bound exactly when parse, start and init succeed. Remove then always succeeds and leaves the session detached with no work queued, after start, the zero report, wait, cancel, close and stop in that order |

## Findings

| source | as written | input that shows it | evidently intended | confidence | as-written member | corrected member |
|---|---|---|---|---|---|---|
| linux-kernel/hid-xiaomiff.c:141-152 | probe ignores xiaomiff_init's result and returns 0, so a device that failed validation stays bound with a NULL drvdata, which remove dereferences | a device with no feature reports, or with a first field of 5 values, and every kernel service succeeding | probe returns init's error (after stopping the hardware) so remove is never called without a session | medium, not executed | `XiaomiFF.ProbeRemoveWithoutFeatureReports` | `XiaomiFF.ProbeChecked` |
| linux-kernel/hid-xiaomiff.c:98-107 | drvdata is set before input_ff_create_memless; on its failure the session is freed with drvdata still pointing at it, probe returns 0, and remove then uses freed memory | a six-value layout with input_ff_create_memless returning -ENOMEM | the failure is propagated so the device is not bound and remove never reads the freed session | medium, not executed | `XiaomiFF.ProbeRemoveWhenFfCreateFails` | `XiaomiFF.AttachDetachChecked` |

`Probe` stays as written, and so do the scenarios built on it. The corrected pair consists of `ProbeChecked` and `AttachDetachChecked`. It shows that returning init's error is enough to make every remove safe.

## Left out

- The real concurrency between the force-feedback callback and the workqueue worker is not modelled. Runs are sequential interleavings of atomic steps. So the accepted torn read, where a transmission mixes old and new bytes, is not modelled, and neither is the wait inside `cancel_work_sync` for a worker that is running.
- XiaomiFF.Session.CancelWorkSync: does not model the wait for a running worker, because runs are atomic in this model. What it does state is that the item is unqueued.
- XiaomiFF.Session.Play: requires an armed session. The memless layer calls `xiaomiff_play` only after it has been registered. A call that races with the lines between registration and `INIT_WORK` is a concurrency matter.
- The transport services are not modelled beyond their results and their transcript entries. These are `hid_hw_request`, `hid_hw_wait`, `hid_parse`, `hid_hw_start`, `hid_hw_close` and `hid_hw_stop`. The same goes for `input_ff_create_memless` and for `set_bit(FF_RUMBLE, ...)`, which is the `rumbleCapable` flag. A set-report's payload is the validated field's six values, and the report's other fields are not modelled.
- Hardware-write failures inside the worker are not modelled. The worker ignores them, so they can have no effect on the driver.
- `container_of` (lines 63-64) and `list_first_entry` on `hdev->inputs` (line 73) are not modelled. They are memory-layout idioms. The input device's feature bit is kept on `Device`.
- The value slots are unbounded integers, not `__s32`. Every value the driver stores lies in [0, 255], so this makes no difference.
- Releasing the session after remove is not modelled. `Stop` is an opaque transcript entry, so the memless layer's freeing of its private data when the input device goes away is not modelled, and the session stays `Detached`.
- Logging (`dbg_hid`, `hid_err`) is not modelled. Neither are the device-ID table, module registration, or the commented-out suspend and resume hooks (lines 160-182). None of them are driver logic.
