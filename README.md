# Threelet input core, modelled in Dafny

Threelet is a small JavaScript framework around three.js. It has a WebVR/WebXR
render loop, controller helpers and mouse input. This project models its
input-event core and proves properties about it:

- **The VR controller poll.** `VRControlHelper.updateControllers` runs once per
  frame. It finds the gamepad for each controller slot (`_findGamepad`) and
  compares the touchpad (touched, pressed) and trigger readings with the
  recorded ones. It calls the `vr-…` listeners on every change and records
  the new readings. A slot whose controller is lost has its record cleared,
  and the call then returns.
- **Listener registration.** `on(name, f)` accepts only the sixteen
  listener names. It rewrites the two aliases and stores the listener in
  the helper's table (for `vr-` names) or the framework's own table.
- **The mouse classifier.** A closure flag `isDragging` decides whether a
  mouseup is a drag end or a click of its button.
- **Intersection choice.** `_raycast` picks one entry of the raycaster's
  result list.
- **Scene cleanup.** `freeObjects` and `disposeObject` remove named children
  from a scene and dispose of their geometry, materials and textures.
- **The plane application** (examples/templates/plane-app.js). It covers
  press-on-a-quad / release-on-the-same-quad clicks for each VR controller,
  the mouse click, the two squares of the plane, and the canvas cell
  arithmetic of `boxRect`, `boxText` and `drawInfo`.

Modules, one file each:

| file | module | contents |
|---|---|---|
| common.dfy | `Common` | `Option` (JavaScript `undefined`/`null`), `StartsWith` |
| events.dfy | `Events` | listener tables; a listener call is recorded as a `Call` on a log |
| gamepads.dfy | `Gamepads` | the gamepad snapshot and `_findGamepad` with its reference definition |
| vr_control.dfy | `VrControl` | the poll as a function of (state, listeners, snapshot) and the `VRControlHelper` class that performs it |
| threelet.dfy | `Threelets` | `on`, the mouse classifier, the `Threelet` class |
| raycasting.dfy | `Raycasting` | `_raycast` |
| scene.dfy | `Scenes` | `freeObjects`, `disposeObject`, `disposeMaterial` |
| plane_app.dfy | `PlaneApps` | the plane application's handlers and cell grid |

The stateful parts are classes whose fields the methods update:
`VRControlHelper`, `Threelet`, `Scene` and `PlaneApp`. Each method's
postcondition ties the new state to a specification function of the old
state. The lemmas are proved about those functions. The pure parts
(`_findGamepad`, `_raycast`, the classifier, the square predicates) are
functions.

Listeners are opaque tokens. Calling one appends a `Call(listener, name,
args)` to a log, so "fires" is a statement about that log. The gamepad
snapshot (`navigator.getGamepads()`) and the raycaster's intersection list
are parameters.

Behaviour of the code that the model follows:

- A lost controller makes `updateControllers` `return`, not `continue`.
  Slots after it are not polled in that frame, and the record of every
  later slot is left as it was (`PollStopsAtAbsentSlot`).
- An `undefined` touchpad record is replaced by `{touched: false, pressed:
  false, axes0: 0, axes1: 0}` before the comparison (src/index.js:245-252).
  A first reading of `true`, and a reading of `true` right after a lost
  controller comes back, therefore fires `touch-start` and `press-start`,
  just as the trigger's `undefined → false` default fires `trigger-press-start`.
  `FirstTrueReadingStartsEveryChannel` proves that all three channels
  start.
- A gamepad without the touchpad button or the trigger button makes
  reading `.touched`/`.pressed` of `undefined` throw a TypeError. The model
  has this as a `Throw` outcome:
  - The poll stops.
  - What was already written (pose, id, and for the trigger button the
    touchpad record and calls) is kept.
- The plane application registers its handlers under
  `xr-trigger-press-start` and `xr-trigger-press-end`. `on` does not list
  these names and ignores them (`XrNamesAreNotRegistered`). No event in
  this code base ever reaches those handlers. They are modelled as methods
  that a host would call directly.

## Model

| member | source | states |
|---|---|---|
| Events.Notify | src/index.js:256-259 | definition |
| Events.NotifyReachesRegisteredOnly | src/index.js:256-259 | a dispatch reaches only the listener registered under its own name, with the given arguments, and a listener under a name is reached exactly when it is that name and registered |
| Gamepads.IsSupported | src/index.js:186-189 | definition |
| Gamepads.FindFrom | src/index.js:184-193 | definition |
| Gamepads.FindGamepad | src/index.js:182-194 | definition |
| Gamepads.SupportedGamepads | src/index.js:185-188 | reference list of present gamepads with a supported id, in list order, no longer than the snapshot |
| Gamepads.FindFromSupported | src/index.js:184-193 | the lookup loop started at index i with j supported gamepads skipped returns the (id − j)-th supported gamepad of the rest of the list, or nothing |
| Gamepads.FindGamepadIsNthSupported | src/index.js:182-194 | `_findGamepad(id)` is the id-th (0-based) supported present gamepad, and `undefined` when there are fewer than id + 1 |
| Gamepads.FindGamepadResult | src/index.js:182-194 | a gamepad that is found is a present entry of the snapshot and has a supported id |
| Gamepads.SupportedAreListed | src/index.js:185-188 | every gamepad of the reference list is an entry of the snapshot |
| VrControl.Initial | src/index.js:21-26 | the initial controller state has the right number of slots and nothing recorded in any of them |
| VrControl.SlotStep | src/index.js:199-287 | processing slot i changes only slot i's record; every call it makes is a touchpad or trigger call about slot i |
| VrControl.PollFrom | src/index.js:199-287 | the poll keeps the number of slots and all four arrays the same length |
| VrControl.Poll | src/index.js:196-288 | definition |
| VrControl.TouchpadCalls | src/index.js:255-267 | at most two calls, each to the listener registered under its own name, with (i, axes0, axes1) of the reading |
| VrControl.TriggerCalls | src/index.js:280-286 | at most one call, to press-start when the reading is true and press-end otherwise, to a registered listener, with (i) |
| VrControl.TriggerButton | src/index.js:215 | definition |
| VrControl.AxisAt | src/index.js:242-243 | definition |
| VrControl.AbsentSlotIsCleared | src/index.js:204-213 | a missing gamepad or pose clears the slot's four entries, fires nothing and returns |
| VrControl.TouchpadEdges | src/index.js:240-273 | touch-start/touch-end fire exactly when `touched` turns true/false against the record (baseline false), press-start/press-end likewise for `pressed`, with (i, axes0, axes1); the new reading is recorded |
| VrControl.TouchpadCallsEdges | src/index.js:255-267 | the touchpad diff calls each of its four listeners exactly on that listener's edge, with the reading's arguments |
| VrControl.TriggerEdges | src/index.js:276-286 | the trigger is button 0 of a Daydream controller and button 1 otherwise; trigger press-start/press-end fire exactly on a true/false edge against the record (baseline false), with (i); the reading is recorded and the loop goes on |
| VrControl.SlotCallsOrdered | src/index.js:255-286 | within a slot, a touch call precedes a press call, which precedes a trigger call |
| VrControl.FirstTrueReadingStartsEveryChannel | src/index.js:245-286 | with nothing recorded, a reading of true on all three channels fires touch-start, press-start and trigger press-start, in that order |
| VrControl.SlotStepIsLocal | src/index.js:199-287 | a slot's calls, outcome and new record depend only on that slot's old record |
| VrControl.SlotStepIsSteady | src/index.js:240-286 | processing a slot again on the same snapshot fires nothing and changes nothing |
| VrControl.PollFromKeepsEarlierSlots | src/index.js:199-287 | the poll from slot i never changes the record of a slot before i |
| VrControl.RepollIsSilent | src/index.js:199-287 | polling the same snapshot a second time fires no listener, leaves the state as the first poll left it and ends the same way |
| VrControl.PollCallsInSlotOrder | src/index.js:199-287 | the poll's calls are ordered by slot, each is a touchpad or trigger call about a slot from i to the last one |
| VrControl.PollCallsOnlyReachedSlots | src/index.js:199-287 | a call about slot k is only made when every slot from i to k − 1 was read completely, so no call follows the slot where the poll returned or threw |
| VrControl.PollStopsAtAbsentSlot | src/index.js:204-212 | a lost slot k after fully readable slots ends the poll: calls only for slots before k, slot k cleared, later slots untouched, nothing thrown |
| VrControl.VRControlHelper.constructor | src/index.js:9-29 | two controller slots, nothing recorded, no listener |
| VrControl.VRControlHelper.Dispatch | src/index.js:256-259 | appends the call `Notify` describes to the log |
| VrControl.VRControlHelper.UpdateTouchpad | src/index.js:245-273 | the touchpad diff's calls are logged and the slot's touchpad record becomes the reading; nothing else changes |
| VrControl.VRControlHelper.UpdateTrigger | src/index.js:278-286 | the trigger diff's call is logged and the slot's trigger record becomes the reading; nothing else changes |
| VrControl.VRControlHelper.UpdateSlot | src/index.js:199-287 | one loop iteration has exactly the effect of `SlotStep` on the state and the log |
| VrControl.VRControlHelper.UpdateControllers | src/index.js:196-288 | the new state, the calls appended to the log and whether it threw are those of `Poll` on the old state |
| Threelets.Canonical | src/index.js:789-790 | definition |
| Threelets.Register | src/index.js:786-798 | definition |
| Threelets.RegisterRoutes | src/index.js:786-798 | an unlisted name changes nothing; for a listed one, the table picked by the `vr-` prefix maps the canonical name to the listener, keeps every other entry and gains no other key, the canonical name is a storable one, and the other table is unchanged |
| Threelets.AliasesRegisterAlike | src/index.js:789-790 | registering under `mouse-down` or `mouse-click` is the same as under `mouse-down-left` or `mouse-click-left` |
| Threelets.RegisterLastWriterWins | src/index.js:786-798 | registering twice under a name is the same as registering only the second listener |
| Threelets.VrNamesAreRegistrable | src/index.js:483-501 | the listed `vr-` names are exactly the six names the poll dispatches, and all are storable |
| Threelets.DownName | src/index.js:806-818 | definition |
| Threelets.ClickName | src/index.js:838-852 | definition |
| Threelets.MouseStep | src/index.js:799-855 | definition |
| Threelets.DraggingAfter | src/index.js:801-854 | definition |
| Threelets.DraggingIffMovedSinceLastDown | src/index.js:799-855 | after any event sequence, `isDragging` holds exactly when a mousemove came after the last mousedown (or, with no mousedown, the flag was already set) |
| Threelets.MouseUpClassification | src/index.js:828-854 | a mouseup looks up `mouse-drag-end` exactly when the mouse moved since the last mousedown, and otherwise the click name of its button (none for buttons other than 0, 1, 2) |
| Threelets.MouseNamesAreInMainTable | src/index.js:799-855 | every name the mouse listeners look up is storable and not a `vr-` name, so `on` stores it in the table they read |
| Threelets.Threelet.constructor | src/index.js:456-536 | both tables empty, flag clear, a fresh helper with nothing recorded |
| Threelets.Threelet.On | src/index.js:786-798 | the two tables become what `Register` gives, and each still holds only names `on` stores in it |
| Threelets.Threelet.SetEventListener | src/index.js:784 | the same effect as `on` |
| Threelets.Threelet.OnMouseDown | src/index.js:802-819 | clears the flag and logs the call of the button's down listener, if one is registered |
| Threelets.Threelet.OnMouseMove | src/index.js:820-827 | sets the flag and logs the call of the move listener, if one is registered |
| Threelets.Threelet.OnMouseUp | src/index.js:828-854 | keeps the flag and logs the call of the drag-end or click listener the classifier names |
| Raycasting.FirstOtherFace | src/index.js:859-866 | the first index from i whose face is not the excluded one, or none when all the remaining faces are the excluded one |
| Raycasting.Raycast | src/index.js:857-868 | with a face to exclude: the first intersection on another face, and `null` exactly when every intersection is on the excluded face; without one, the nearest intersection, and `null` exactly when there is none |
| Scenes.DisposeMaterial | src/index.js:899-902 | definition |
| Scenes.DisposeObject | src/index.js:903-907 | definition |
| Scenes.Kept | src/index.js:889-898 | definition |
| Scenes.Released | src/index.js:889-898 | definition |
| Scenes.DisposeObjectReleasesItsResources | src/index.js:899-907 | exactly the present geometry, material, material map and texture are disposed, and the map before its material |
| Scenes.KeptIsFilter | src/index.js:889-898 | a child stays in the scene exactly when its name does not start with the prefix |
| Scenes.FreeObjectsIsIdempotent | src/index.js:889-898 | freeing the same prefix again keeps every child and disposes nothing |
| Scenes.FreeObjects | src/index.js:889-898 | the scene keeps the children `Kept` describes, in order, and the disposals are those of the removed children, last child first |
| PlaneApps.IsPointOnLeftSquare | examples/templates/plane-app.js:136-138 | definition |
| PlaneApps.IsPointOnRightSquare | examples/templates/plane-app.js:139-141 | definition |
| PlaneApps.StartFace | examples/templates/plane-app.js:63-70 | definition |
| PlaneApps.PressEndClick | examples/templates/plane-app.js:74-91 | definition |
| PlaneApps.MouseClick | examples/templates/plane-app.js:34-41 | definition |
| PlaneApps.BoxRect | examples/templates/plane-app.js:191-193 | definition |
| PlaneApps.BoxText | examples/templates/plane-app.js:194-196 | definition |
| PlaneApps.SquaresAreMirroredAndDisjoint | examples/templates/plane-app.js:132-141 | the left and right squares are open, disjoint, mirror images across x = 0, which lies in neither |
| PlaneApps.SameQuadIsTrianglePair | examples/templates/plane-app.js:84-85 | two faces have the same floor(index / 2) exactly when they are the same triangle or the two triangles of one quad |
| PlaneApps.PressEndClickIff | examples/templates/plane-app.js:72-92 | a VR click on face f happens exactly when a start face was recorded, the release hits f, f is on the start face's quad and the hit is on the left square |
| PlaneApps.PressEndClickNarrowsMouseClick | examples/templates/plane-app.js:34-92 | a VR click reports the face a mouse click on the same hit reports; a mouse click on f is also the VR click of a press started on f or on its quad partner; no VR click where a mouse click reports nothing |
| PlaneApps.XrNamesAreNotRegistered | examples/templates/plane-app.js:62-72 | `on` with the two `xr-` names leaves both listener tables unchanged |
| PlaneApps.PlaneApp.constructor | examples/templates/plane-app.js:61 | no press started on either controller, no click yet |
| PlaneApps.PlaneApp.OnTriggerPressStart | examples/templates/plane-app.js:62-71 | records the hit face for controller i, or −1 on a miss |
| PlaneApps.PlaneApp.OnTriggerPressEnd | examples/templates/plane-app.js:72-92 | with no start recorded nothing changes; otherwise the start is forgotten and the click `PressEndClick` describes is reported |
| PlaneApps.PlaneApp.OnClick | examples/templates/plane-app.js:34-41 | reports the click `MouseClick` describes |
| PlaneApps.BoxRectTiles | examples/templates/plane-app.js:191-193 | a box starts at its cell's corner and is one cell high; two boxes side by side join into the box of their total width |
| PlaneApps.BoxTextInsideCell | examples/templates/plane-app.js:191-196 | the text anchor of a cell lies strictly inside that cell's box |
| PlaneApps.DrawInfo | examples/templates/plane-app.js:198-207 | sets the fill style and font, then writes line k in column 0 of row 3 + k, one text per line |

## Left out

- I/O and the host: WebGL rendering, the DOM, timers, `requestAnimationFrame`, `console.error` for an unknown name in `on`, and controller visibility and three.js objects. Only their effect on the modelled state is kept.
- `navigator.getGamepads` is a parameter (the snapshot). Its absence (`navigator.getGamepads` undefined, which makes `_findGamepad` throw) is not modelled.
- Listener calls are recorded, not run. A listener that re-enters the framework (calls `on` or polls during a dispatch) is not modelled. The log records calls in the order the code makes them: for the trigger, the record is written before the listener is called, as in the source.
- `_findGamepad` calls `navigator.getGamepads()` anew for every slot (src/index.js:183, reached from 201). `Poll`, `PollFrom` and `UpdateControllers` give one snapshot to all slots of a call, so a device list that changes between two slots of one poll is not modelled.
- A listener that throws ends the poll in the source; a throwing touchpad listener also keeps the touchpad record (src/index.js:270-273) from being written. Listener calls here always return, so only the TypeError of a missing button ends a poll early.
- `disposeObject` on an object whose `material` is an array of materials passes the array to `disposeMaterial`, where `mat.dispose()` (src/index.js:901) throws a TypeError. `Scenes.Material` is a single material, so this path is not modelled.
- Listeners are tokens, so a registered falsy value (`on(name, null)`), which the code would skip at dispatch, is not distinguished from a real listener.
- The JavaScript arrays of the controller state start empty and grow. The model gives them one `None` entry per controller from the start. Reading an entry is the same in both.
- `_raycast`'s face comparison is by object identity. The model compares face tokens. The raycaster itself (ray–triangle intersection, ordering by distance) and `raycastFromMouse`/`raycastFromController` are not modelled. Their result list is a parameter.
- `scene.remove` is by object identity and also detaches the child and fires three.js events. The model removes the child at the loop index from a sequence. `dispose()` calls are recorded as values.
- The plane's raycasts (`mouseToPlaneIntersect`, `vrcontrollerToPlaneIntersect`) are parameters. `onLeftPlaneClicked` is recorded as a click log. Canvas drawing is recorded as a list of drawing operations.
- `setupMouseInterface`, `setupTouchInterface`, `setupPointerInterface`, `SkyHelper`, `Utils`, the stats and controls modules and the render loop are not part of this model.
- Real numbers stand for JavaScript doubles in mouse coordinates, axes and plane points. Rounding is not modelled.
