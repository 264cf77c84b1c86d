# tsnes demo harness — Dafny model

This project models the logic of the browser demo page of the tsnes NES
emulator (`demo/index.ts`). The page does three things:

- It assembles the uploaded ROM image from the file reader's `load` events into one byte buffer.
- It hands that buffer to the emulator and starts the always-on views (`status` and `screen`).
- It routes keyboard events to controller 1 and lets a checkbox start or stop the eight debug views together.

The emulator, the views' rendering and the DOM are outside the model. The
emulator is seen only as a controller 1 button map and as an opaque
accept/reject decision on the image. Each view is seen only as a running flag.

Modules, one per component:

- `RomBuffer` (`rom_buffer.dfy`): `Append` copies the old buffer and the chunk into a new array with two loops, like the two `set` calls. `Upload` holds the `buffer` variable the handler rebinds, plus a ghost list of the chunks delivered so far. Its invariant is that the buffer equals `Concat` of those chunks, in call order.
- `KeyBinding` (`key_binding.dfy`): the button enumeration, the binding table `CodeOf`, and the `switch` as `ButtonOf`, which is proved to be exactly the inverse of the table.
- `InputRouter` (`input_router.dfy`): `ApplyKey` is the controller state after one key event. Lemmas cover unbound keys, single-button updates, idempotence and press-then-release. `Controller.UpdateButton` is the emulator's setter, seen only as a map update.
- `DebugViews` (`debug_views.dfy`): the ten views, the state at boot, the effect of one checkbox change on the flags (`Toggled`) and on the element opacities (`Painted`), and the lemmas about them.
- `Harness` (`harness.dfy`): the file input's `change` handler, the `loadend` handler (`OnLoadEnd`), and `Session`. `Session` is what `startGame` sets up. Its methods are the checkbox handler and the keyboard handler, and each is proved against the functions above.

## Model

| member | source | states |
|---|---|---|
| `RomBuffer.Append` | demo/index.ts:23-29 | the result is a newly allocated array, exactly as long as the old buffer plus the chunk; its first part is the old buffer and its rest is the chunk, so nothing is dropped, reordered or duplicated |
| `RomBuffer.ConcatSnoc` | demo/index.ts:22-30 | one more append extends the concatenation of all chunks by exactly the new chunk |
| `RomBuffer.ConcatLength` | demo/index.ts:24 | the assembled image is as long as the sum of all chunk lengths |
| `RomBuffer.EmptyChunkIsNoOp` | demo/index.ts:22-30 | appending an empty chunk leaves the assembled image unchanged |
| `RomBuffer.Upload.constructor` | demo/index.ts:18 | an upload starts with an empty buffer and no chunks |
| `RomBuffer.Upload.OnLoad` | demo/index.ts:22-30 | after a `load` event the buffer is a newly allocated array holding the old buffer followed by the chunk, and it is still the concatenation of every chunk in call order |
| `KeyBinding.ButtonOf` | demo/index.ts:95-122 | a code maps to a button only if the table binds that code to that button, and every bound code maps to its button; everything else yields no button |
| `KeyBinding.ButtonOfCodeOf` | demo/index.ts:96-119 | each of the eight buttons is reached through its own key code |
| `KeyBinding.CodeOfInjective` | demo/index.ts:96-119 | no two buttons share a key code, so the eight codes map to eight distinct buttons |
| `KeyBinding.ShiftLeftIsUnbound` | demo/index.ts:111-121 | `ShiftRight` selects SELECT while `ShiftLeft` is not bound |
| `InputRouter.ApplyKey` | demo/index.ts:93-125 | exactly the button whose code is the event's code becomes pressed iff the event type is `keydown`; every other button keeps its state and no button is added or lost |
| `InputRouter.UnboundKeyIsIgnored` | demo/index.ts:120-121 | an event whose code has no binding leaves the controller state unchanged |
| `InputRouter.BoundKeySetsOneButton` | demo/index.ts:124 | a bound key sets that one button to `type == "keydown"` and leaves all other buttons unchanged |
| `InputRouter.ApplyKeyIdempotent` | demo/index.ts:124 | handling the same event twice, such as a repeated keydown, gives the same state as handling it once |
| `InputRouter.PressThenRelease` | demo/index.ts:91-124 | keydown then keyup of a bound key leaves that button released and every other button as it was |
| `InputRouter.Controller.UpdateButton` | demo/index.ts:124 | the setter changes only the given button's entry |
| `DebugViews.BootViews` | demo/index.ts:46-58 | after boot exactly `status` and `screen` are running; the eight debug views are stopped |
| `DebugViews.Toggled` | demo/index.ts:64-82 | all eight debug views take the checkbox value, the always-on views keep their state, and every view keeps a flag |
| `DebugViews.ToggledAllOrNothing` | demo/index.ts:64-82 | after a toggle any two debug views are in the same state |
| `DebugViews.ToggledLastWins` | demo/index.ts:61-89 | two toggles in a row end in the state of the second alone, so true then false stops the whole group |
| `DebugViews.ToggledIdempotent` | demo/index.ts:61-89 | toggling twice with the same value gives the same state as toggling once |
| `DebugViews.ToggledFromBoot` | demo/index.ts:57-82 | after boot and one toggle, a view runs iff it is always-on or the checkbox is checked |
| `DebugViews.Opacity` | demo/index.ts:87 | the opacity is `'1'` when the box is checked and `'0'` when it is not |
| `DebugViews.Painted` | demo/index.ts:84-88 | every `.debug` element gets the toggle's opacity, and the element count is unchanged |
| `DebugViews.PaintedLastWins` | demo/index.ts:84-88 | repainting with the same value changes nothing, and only the last value counts |
| `Harness.FileInput.OnChange` | demo/index.ts:13-18 | selecting a file disables the input and starts a fresh upload with an empty buffer |
| `Harness.Session.constructor` | demo/index.ts:43-58 | a session keeps the image it was built from, has controller 1 with every button released, and is in the boot view state |
| `Harness.Session.StartView` | demo/index.ts:65-72 | `start()` sets that one view running |
| `Harness.Session.StopView` | demo/index.ts:74-81 | `stop()` sets that one view stopped |
| `Harness.Session.OnDebugChange` | demo/index.ts:61-89 | the views end in `Toggled` of their old state and the elements end in `Painted` of theirs |
| `Harness.Session.KeyboardHandle` | demo/index.ts:93-125 | controller 1 ends in `ApplyKey` of its old state, keeping a flag for every button |
| `Harness.OnLoadEnd` | demo/index.ts:32-44 | a session exists iff the emulator accepts the concatenation of all chunks; it is built from exactly that image (of the summed length) and starts in the boot view state |

## Left out

- The emulator (`new Emulator`, everything behind `../src`), including ROM parsing and the internals of `updateButton`: it is code outside this file. The emulator is modelled as the `accepts` predicate on the image and as a button map.
- `InputRouter.Controller.constructor`: it assumes controller 1 starts with every button released. The real initial state belongs to the emulator, which is not part of this model.
- `DebugViews.AllStopped`: it assumes every view is stopped when it is constructed. The view classes (`Status`, `Screen`, `CpuRegister`, `PPURegister`, `DisASM`, `Palette`, `ParttenTable`, `NameTable`) are not part of this model, and their sampling and rendering are left out.
- The views' palette and pattern-table addresses (lines 51-54) only configure rendering, so they are not modelled.
- DOM access is not modelled: `getElementById`, `addEventListener`, `getElementsByClassName` and `style`. The `.debug` elements are an array of opacity strings passed to the handler, and the checkbox value is a parameter.
- The `FileReader` and its asynchrony are not modelled: `readAsArrayBuffer` and the event order. The handlers are methods that a caller invokes in delivery order.
- The reader delivers the whole file in one `load` event. The model still allows any number of chunks.
- The `catch` branch's `console.log` and `alert` (lines 35-39) are user-facing I/O. The model keeps only the outcome: no session is created.
- The code never re-enables the file input after a failed load. Only `input.disabled = true` exists (line 14), so the model has no re-enable either, even though a retry would need one.
- The code does not guard the `start()`/`stop()` calls against failure. The model treats them as never failing.
- Event types other than `keydown` and `keyup` never reach the handler, since it is registered only for those two. The model accepts any type string and treats every type but `keydown` as a release.
