# Super Metroid live-coach front end: a Dafny model

This project models the deterministic core of a browser front end that runs
a Super Metroid ROM in an SNES emulator next to a coaching panel. It has
four parts.

- **Map arithmetic** (`SNES9x-framework/map_tools.mjs`, module `MapTools`):
  - decoding Samus's room and global tile position from the console's work RAM;
  - turning pixels and tiles into Leaflet map degrees;
  - the map bounds and the room rectangles;
  - finding a room by its 16-bit pointer;
  - choosing the closest node in range of the player.

  Every division the model keeps is by 2, 16 or 128 and is exact on these
  values, so the model computes exactly with `real`. The hue's division by 5
  (map_tools.mjs:178) feeds only the drawing, which is left out.
- **Keyboard-to-controller input** (`tag-scripts/snes-emulator.js` and
  `_LC-old-version/helper.js`, module `Controller`):
  - the twelve-key table and `findInputIndex`;
  - the key-down and key-up handlers, which write the emulator's
    `input_state` dictionary in place;
  - the callback the core polls to read that dictionary.

  Both files hold the same table and handlers, so one model serves both.
- **The `<snes-emulator>` element** (module `SnesEmulator`):
  - `init` and its guards;
  - attribute handling;
  - the loop that inverts the libretro environment constants;
  - the guards of `getSaveState`, `loadSaveState` and `callWithMemory`.
- **The `<coach-whiteboard>` element** (module `Whiteboard`):
  - how `setContent` sorts text into empty, map request, image URL or
    Markdown, tested in the source's order;
  - the three map fields that `_createMap` sets and `_clearMap` resets.
- **The older page helper** (module `Helper`):
  - `displayMessage`, which relabels the sender and appends to the chat history;
  - `initPlayerState`;
  - the item bit flags, with their encode/decode round trip.

Module `Text` gives JavaScript's `trim`, ASCII `toLowerCase`, `startsWith`,
`includes`, first-only `replace` and number printing a precise meaning.
Module `Wrappers` holds `Option` and `Result`.

The model keeps several behaviours of the source exactly as written:

- `abstractify_pos` subtracts the **y** radius from both centres (map_tools.mjs:76).
  The x radius is read, so a short memory still fails on it first, but its
  value is never used. See `MapTools.AbstractifyPosIgnoresXRadius`.
- `init` lets an error from `load_game` or `unserialize` propagate. `setupEmulator`
  assigns the new emulator only on its last line (snes-emulator.js:152), so
  after such an error the ROM and state bytes are stored and
  `this.emulator` still names the previous emulator object. That object is
  not left intact, though: the imported core is one shared module
  (snes-emulator.js:39), and `setupEmulator` has already registered an
  input callback over its own new dictionary (:106-114) and run `init` and
  `load_game` on it (:133-134). So the previous object's input is no longer
  polled (`Core.pollsInput` becomes false), and its memory is the newly
  booted ROM's RAM when only `unserialize` threw. See
  `SnesEmulator.InitOutcomeOf`, `SnesEmulator.SnesEmulatorElement.InitDone`
  and `SnesEmulator.RejectedStateFailsInit`.
- `displayMessage` reads the "speak-response" checkbox after the bubble is
  appended and before the history entry is pushed. On a page without that
  checkbox the read throws, so the bubble is shown but nothing is logged.
  See `Helper.DisplayMessage`.
- `attributeChangedCallback` stores the value under the name made by replacing
  the first `-` with `Url`. For `rom-url` that name is `romUrlurl` and for
  `state-url` it is `stateUrlurl`, never `romUrl` or `stateUrl`. A re-run of
  `init` therefore still sees the old `romUrl`. See `SnesEmulator.AttributeTarget`.
- The whiteboard's map test accepts any text whose lowercase form starts with
  `map`, such as "Maple syrup". See `Whiteboard.MapRequestExamples`.
- `_createMap` calls `abstractify_pos_global(dv)` without the offsets table.
  The lookup into `undefined` throws whenever the area byte can be read, and a
  shorter memory throws a RangeError before that. The error is caught, so the
  whiteboard's player always stays at its start (258, 562). See
  `Whiteboard.PositionReadFails` and `Whiteboard.CoachWhiteboard.CreateMap`.
  The element method it calls, `callDataView`, is not defined by
  `<snes-emulator>`, which offers `callWithMemory`. The model makes the data
  view a parameter (None when there is none), and the outcome is the same
  either way.
- The whiteboard's player object has no radius of its own. The model gives it
  the radius of its range circle, 0.5.

Parameters stand for what comes from outside the model:

- the bytes a URL serves (`fetch`);
- the emulator's work RAM, as a byte sequence starting at work-RAM offset 0.
  `callWithMemory` hands over `get_memory_data(2).buffer`, and the model reads
  that buffer as a copy of the work RAM from its first byte;
- the core's `load_game` and `unserialize` (`boot` and `restore`). Each gives
  the work RAM it leaves, or None when it throws;
- what `serialize` returns;
- whether the page has a "speak-response" checkbox (`speakToggle`);
- the Markdown renderer `marked.parse` (None when it throws);
- the room and node tables;
- the timer handle `setInterval` returns.

## Model

| member | source | states |
|---|---|---|
| Text.Trim | tag-scripts/coach-whiteboard.js:43 | the result is empty exactly when the text is all whitespace; otherwise it starts and ends with non-whitespace and sits in the text with only whitespace around it |
| Text.LowerAscii | tag-scripts/coach-whiteboard.js:49 | same length; each ASCII capital becomes its small letter and every other character stays |
| Text.IndexOf | tag-scripts/snes-emulator.js:26 | the first position of the character, or the length when it is absent |
| Text.ReplaceFirst | tag-scripts/snes-emulator.js:26 | without the character the text is unchanged; otherwise only its first occurrence is replaced, the text before and after it kept |
| Text.DecimalInjective | tag-scripts/snes-emulator.js:108 | different numbers print as different decimal strings |
| MapTools.Uint8 | SNES9x-framework/map_tools.mjs:82-87 | a byte read succeeds exactly inside memory and yields 0..255 |
| MapTools.Int16LE | SNES9x-framework/map_tools.mjs:71-74 | a signed little-endian word read succeeds exactly when both bytes are inside memory and yields -32768..32767 |
| MapTools.DecodeEncodeInt16 | SNES9x-framework/map_tools.mjs:71-74 | reading back a stored signed word gives the stored value |
| MapTools.EncodeDecodeInt16 | SNES9x-framework/map_tools.mjs:71-74 | every two bytes are the encoding of the word read from them |
| MapTools.AbstractifyPos | SNES9x-framework/map_tools.mjs:70-78 | the room position is found exactly when memory reaches past the y-radius word; otherwise the error is an out-of-range read |
| MapTools.AbstractifyPosOfWords | SNES9x-framework/map_tools.mjs:70-78 | with the four words stored, the result is ((xCenter - yRadius)/16, (yCenter - yRadius)/16) for any x radius |
| MapTools.AbstractifyPosIgnoresXRadius | SNES9x-framework/map_tools.mjs:71 | changing the x-radius bytes does not change the result |
| MapTools.AbstractifyPosGlobal | SNES9x-framework/map_tools.mjs:80-93 | succeeds exactly when memory is long enough and the area byte has an offset; fails at the offset lookup exactly when the area byte is readable and missing from the table; the result is 16·offset + 16·map tile + room position, componentwise |
| MapTools.AreaOffsetsCoverZeroToSeven | SNES9x-framework/map_tools.mjs:16-26 | with the built-in table a position is found exactly for area bytes 0..7; any other area fails at the offset lookup |
| MapTools.CalculateSamusPos | SNES9x-framework/map_tools.mjs:127-131 | equals the global position with the built-in table whenever the bytes at 0x0b04/0x0b06 are readable, an out-of-range error otherwise; succeeds exactly for area bytes 0..7 |
| MapTools.Low16 | SNES9x-framework/map_tools.mjs:137 | `& 0xffff` yields a value in 0..65535 congruent to the input modulo 65536 |
| MapTools.GetSamusRoom | SNES9x-framework/map_tools.mjs:135-143 | null exactly when no room's low 16 address bits equal the address; otherwise the name of the first room, in table order, that matches |
| MapTools.PxyToLocRoundTrip | SNES9x-framework/map_tools.mjs:215-220 | the pixel-to-degree map and its inverse undo each other in both directions |
| MapTools.PxyToLocInjective | SNES9x-framework/map_tools.mjs:215-220 | distinct pixels map to distinct locations |
| MapTools.PosToLoc | SNES9x-framework/map_tools.mjs:227-229 | a tile position lands where pixel position 16 times it lands |
| MapTools.BoundsAreMapCorners | SNES9x-framework/map_tools.mjs:47-56 | the bounds are the images of the map's pixel corners, y flipped, and a pixel is on the map exactly when its location lies within the bounds |
| MapTools.MaxBoundsPadBounds | SNES9x-framework/map_tools.mjs:45-66 | the padding is 66 degrees, the max bounds extend the bounds by it on every side and strictly contain them |
| MapTools.RoomRect | SNES9x-framework/map_tools.mjs:152-175 | a rectangle exists exactly when the room's region has an area offset; its width and height are 256 times the extent and its start is on a map-tile boundary |
| MapTools.RoomStartTile | SNES9x-framework/map_tools.mjs:157-165 | a start tile exists exactly when the room's region has an area offset; otherwise the error names that region |
| MapTools.RoomStartTileOffsets | SNES9x-framework/map_tools.mjs:157-165 | for a room whose region has an area offset, the start tile is its map position plus that offset, with 7 more columns exactly when the name is one of the Crateria rooms beside Maridia |
| MapTools.RoomRectCornersAreTilePositions | SNES9x-framework/map_tools.mjs:167-177 | the rectangle's corners in degrees are `pos_to_loc` of the start and end map tiles, 16 tiles each |
| MapTools.Adjacent | SNES9x-framework/map_tools.mjs:100 | a node is kept exactly when it is in the list and within the radius; never more nodes than the list |
| MapTools.AdjacentOfOne | SNES9x-framework/map_tools.mjs:100 | a one-node list keeps its node exactly when it is in range |
| MapTools.AdjacentAppend | SNES9x-framework/map_tools.mjs:100 | filtering a concatenation is concatenating the filtered parts; with the one-node case this fixes the order and multiplicity of the kept nodes |
| MapTools.AdjacentCons | SNES9x-framework/map_tools.mjs:100 | a non-empty list keeps its head exactly when it is in range, then the tail's kept nodes |
| MapTools.KeptPosition | SNES9x-framework/map_tools.mjs:100 | kept node k stands at some list index i, and the list before i keeps exactly the first k kept nodes |
| MapTools.KeptPrefixStep | SNES9x-framework/map_tools.mjs:100 | a tail prefix keeping the tail's first kept nodes, with the head put back, keeps the list's first kept nodes |
| MapTools.ClosestInFilter | SNES9x-framework/map_tools.mjs:100-112 | the first closest of the kept nodes is, in the node list, in range, no farther than any in-range node and strictly nearer than every in-range node before it |
| MapTools.InRangeIsDistanceWithin | SNES9x-framework/map_tools.mjs:100 | for d the distance (d ≥ 0, d² the squared distance), the squared-distance test holds exactly when d is at most the radius |
| MapTools.SquareMonotone | SNES9x-framework/map_tools.mjs:146-150 | for non-negative numbers, squaring keeps the order in both directions |
| MapTools.ChainLe | SNES9x-framework/map_tools.mjs:146-150 | two steps of ≤ chain, strictly when either step is strict |
| MapTools.Closest | SNES9x-framework/map_tools.mjs:104-112 | no choice exactly for an empty list; otherwise the chosen node is at least distance and strictly closer than every node before it |
| MapTools.Player.AddNodeCircle | SNES9x-framework/map_tools.mjs:190-197 | the node list gains exactly one entry, the node's name at `pos_to_loc` of its position; nothing else changes |
| MapTools.Player.AddAllNodeCircles | SNES9x-framework/map_tools.mjs:209-211 | the node list gains one entry per node, in table order; nothing else changes |
| MapTools.Player.AdjacentNodeDetection | SNES9x-framework/map_tools.mjs:96-124 | with no node of the list in range the closest node is unchanged; otherwise it becomes the name of the node at some list index i that is in range, no farther than any in-range node and strictly nearer than every in-range node before it |
| MapTools.NodeEntriesAppend | SNES9x-framework/map_tools.mjs:209-211 | the entries for a table with one more node are the old entries plus that node's entry |
| Controller.KeysDistinct | tag-scripts/snes-emulator.js:156-169 | the table has twelve buttons and no two share a key |
| Controller.FindInputIndex | tag-scripts/snes-emulator.js:172 | -1 exactly when no button has that key (case-sensitive); otherwise the index of the button with that key |
| Controller.FindInputIndexOfButton | _LC-old-version/helper.js:88-90 | looking up a button's own key finds that button's index |
| Controller.FullscreenKeysUnmapped | tag-scripts/snes-emulator.js:174-184 | 'f' and 'F' map to no button |
| Controller.KeyState | tag-scripts/snes-emulator.js:185-186 | the key a handler writes for button idx is the key the core's query (0, 1, 0, idx) reads |
| Controller.InputKeyInjective | tag-scripts/snes-emulator.js:108 | different (port, device, input, id) queries read different dictionary keys |
| Controller.InputKey | tag-scripts/snes-emulator.js:108 | the key is made of digits and commas only and starts with the port number followed by a comma |
| Controller.InputStateLookup | tag-scripts/snes-emulator.js:106-114 | the query is non-zero exactly when its key is set to a non-zero value, and then it returns that value; otherwise 0 |
| Controller.LookupAfterWrite | tag-scripts/snes-emulator.js:106-114 | after writing button idx's entry, the query for that button reads the written value and every other query reads what it read before |
| Controller.Emulator.KeyDown | tag-scripts/snes-emulator.js:174-188 | 'f'/'F' only toggles fullscreen; a mapped key sets its entry to 1 so its query reads 1; an unmapped key changes nothing; every other query is unchanged |
| Controller.Emulator.KeyUp | tag-scripts/snes-emulator.js:190-194 | a mapped key sets its entry to 0 so its query reads 0; an unmapped key changes nothing; every other query and fullscreen are unchanged |
| SnesEmulator.EnvironmentCommandNames | tag-scripts/snes-emulator.js:85-90 | the keys are exactly the values of fields named ENVIRONMENT…; each maps to a field with that value and no later such field has it |
| SnesEmulator.StateFetch | tag-scripts/snes-emulator.js:43-47 | a state exists exactly when the state URL is non-empty and its fetch succeeds, and it is the fetched bytes |
| SnesEmulator.StartRam | tag-scripts/snes-emulator.js:133-137 | the core starts exactly when `load_game` succeeds and, if there is a state, `unserialize` accepts it; its RAM is then the restored state's, or the booted ROM's without a state |
| SnesEmulator.InitOutcomeOf | tag-scripts/snes-emulator.js:33-56 | no ROM exactly for an empty ROM URL; ROM fetch failure exactly when its fetch fails; core failure exactly when `load_game` rejects the ROM or `unserialize` rejects the fetched state; started otherwise |
| SnesEmulator.MissingStateStillStarts | tag-scripts/snes-emulator.js:43-47 | with a bootable ROM and an absent or unfetchable state URL, `init` starts the ROM alone |
| SnesEmulator.RejectedStateFailsInit | tag-scripts/snes-emulator.js:133-137 | a fetched state that `unserialize` rejects makes `init` fail, though the ROM was fetched |
| SnesEmulator.SnesEmulatorElement.Render | tag-scripts/snes-emulator.js:270-286 | the "No ROM" notice is shown exactly when there is no ROM URL |
| SnesEmulator.SnesEmulatorElement.Init | tag-scripts/snes-emulator.js:33-56 | the outcome is `InitOutcomeOf` the URLs; the notice follows the ROM URL; with no ROM URL or a failed ROM fetch, bytes and emulator stay as they were; once the ROM is fetched both byte fields are stored; once the ROM is fetched a previous emulator's input is no longer polled and its accepted states stay; a core that throws leaves `emulator` naming the previous object, whose memory is the booted ROM's RAM when `load_game` succeeded; otherwise a fresh, polled emulator with empty input, the RAM `StartRam` gives and the state it was handed, whose memory the previous object now shares |
| SnesEmulator.SnesEmulatorElement.Connected | tag-scripts/snes-emulator.js:16-21 | the three fields take the attributes; the outcome is `InitOutcomeOf` the two URL attributes, and the state left is what `init` leaves for it |
| SnesEmulator.SnesEmulatorElement.AttributeChanged | tag-scripts/snes-emulator.js:24-31 | other names change nothing; the two URL attributes are stored under the first-dash-replaced name, never in `romUrl`/`stateUrl`; `init` runs exactly for a non-empty 'rom-url', on the old URLs, leaving what `init` leaves; otherwise bytes, emulator, the emulator's fields and notice are unchanged |
| SnesEmulator.AttributeTarget | tag-scripts/snes-emulator.js:26 | for `head-tail` the property written is `head + "Url" + tail`, which differs from `head + "Url"` whenever tail is non-empty |
| SnesEmulator.SnesEmulatorElement.GetSaveState | tag-scripts/snes-emulator.js:235-244 | null without an emulator or core; otherwise what `serialize` returns |
| SnesEmulator.SnesEmulatorElement.LoadSaveState | tag-scripts/snes-emulator.js:246-255 | nothing changes without an emulator, a core or a state, or when `unserialize` rejects the state; otherwise the state is handed to `unserialize` once and the work RAM becomes the one it holds; the core flag and input polling never change |
| SnesEmulator.SnesEmulatorElement.CallWithMemory | tag-scripts/snes-emulator.js:257-268 | nothing without an emulator or core; otherwise the callback applied to the work RAM |
| Whiteboard.SchemeUnique | tag-scripts/coach-whiteboard.js:64 | at most one prefix of a text is an `https?://` scheme |
| Whiteboard.PatternPassesTest | tag-scripts/coach-whiteboard.js:64 | every text the image-URL pattern describes passes the test |
| Whiteboard.TestMatchesPattern | tag-scripts/coach-whiteboard.js:64 | every text that passes the test splits as scheme, name, '.', extension and optional query |
| Whiteboard.ImageUrlTestMatchesPattern | tag-scripts/coach-whiteboard.js:64 | the test accepts a text exactly when the regular expression does |
| Whiteboard.IsImageUrl | tag-scripts/coach-whiteboard.js:64 | an accepted text starts with a scheme of 7 or 8 characters and has, past it, a '.' followed by one of the six extensions and an optional query |
| Whiteboard.MapRequestExamples | tag-scripts/coach-whiteboard.js:49-52 | "MAP", "Maple syrup" and "please show map" are map requests; "a map" is not |
| Whiteboard.IsMapRequest | tag-scripts/coach-whiteboard.js:49-52 | a map request exactly when the lower-cased text starts with "map" or contains "show map" (the `=== 'map'` test adds nothing) |
| Whiteboard.MapTestIgnoresCase | tag-scripts/coach-whiteboard.js:49-52 | lower-casing the text first does not change the map test |
| Whiteboard.Classify | tag-scripts/coach-whiteboard.js:43-80 | the four outcomes are exclusive and exhaustive: empty exactly for empty trimmed text, map exactly for a map request, image exactly for a non-map text the pattern matches, Markdown otherwise, each carrying the trimmed text |
| Whiteboard.ClassifyIgnoresSurroundingSpace | tag-scripts/coach-whiteboard.js:43-47 | null, undefined and whitespace-only text are empty; trimming first does not change the outcome |
| Whiteboard.TrimIdempotent | tag-scripts/coach-whiteboard.js:43 | trimming twice is trimming once |
| Whiteboard.ContentText | tag-scripts/coach-whiteboard.js:43 | null and undefined give ""; a string gives "" exactly when it is all whitespace, and otherwise text with no whitespace at either end |
| Whiteboard.PositionReadFails | tag-scripts/coach-whiteboard.js:113-123 | the read `_createMap` makes never yields a position; with a readable area byte it fails at the offset lookup |
| Whiteboard.CoachWhiteboard.Render | tag-scripts/coach-whiteboard.js:28-34 | `#whiteboard` exists and shows the placeholder |
| Whiteboard.CoachWhiteboard.ClearMap | tag-scripts/coach-whiteboard.js:150-160 | the timer and the map are gone; the player is forgotten exactly when a map existed; with nothing open nothing changes, so a second call is a no-op |
| Whiteboard.CoachWhiteboard.Disconnected | tag-scripts/coach-whiteboard.js:24-26 | the same as clearing the map |
| Whiteboard.CoachWhiteboard.CreateMap | tag-scripts/coach-whiteboard.js:84-148 | the map is open with the new timer; a fresh player at (258, 562) with one node entry per node and no closest node; the three map fields agree |
| Whiteboard.CoachWhiteboard.SetContent | tag-scripts/coach-whiteboard.js:37-81 | nothing happens before `render`; otherwise the map is cleared and the display follows the classification, opening a map only for a map request; the three map fields keep agreeing |
| Whiteboard.CoachWhiteboard.Show | tag-scripts/coach-whiteboard.js:44-80 | each classification shows its own content; only a map request opens a map |
| Helper.ClassName | _LC-old-version/helper.js:41-51 | 'Player-name' exactly for Player, 'Coach-name' exactly for Coach, Expert or Assistant, 'FunctionCall' exactly for FunctionCallResults, '' otherwise |
| Helper.DisplayLabel | _LC-old-version/helper.js:47-51 | FunctionCallResults is relabelled with the wrench literal; every other sender keeps its name |
| Helper.BypassesMarkdown | _LC-old-version/helper.js:60-61 | the message skips Markdown exactly when the sender is FunctionCallResults or already the wrench and the message contains `<details>` |
| Helper.BypassOnlyForFunctionResults | _LC-old-version/helper.js:60-61 | Markdown is skipped exactly for a wrench-labelled sender whose message contains `<details>`; never for Player, Coach, Expert or Assistant |
| Helper.DisplayMessage | _LC-old-version/helper.js:33-76 | a falsy message changes nothing; otherwise a bubble is appended exactly when the message bypasses Markdown or the renderer returns, and one `{from: relabelled sender, text}` entry is appended exactly when, further, the speak-response checkbox exists; earlier entries stay as they were; for a non-empty message the call succeeds exactly in that last case |
| Helper.InitPlayerState | _LC-old-version/helper.js:149-165 | a record exactly for SuperMetroid and EarthBound, with the stated initial fields; null otherwise |
| Helper.ItemFlagsAreDistinctBits | _LC-old-version/helper.js:187-204 | each item flag is a single bit and no two items share one |
| Helper.ItemKeysDistinct | _LC-old-version/helper.js:187-204 | no two items share a key |
| Helper.EncodeSingleItem | _LC-old-version/helper.js:187-204 | one item encodes to its table value; no items encode to 0 |
| Helper.DecodeItems | _LC-old-version/helper.js:183-204 | an item is decoded exactly when its bit is set in the word |
| Helper.EncodeItemsBit | _LC-old-version/helper.js:183-204 | an item's bit is set in the encoding of a set exactly when the item is in the set |
| Helper.DecodeEncodeItems | _LC-old-version/helper.js:183-204 | OR-ing the bits of any set of items decodes back to that set |
| Helper.EncodeDecodeItems | _LC-old-version/helper.js:183-204 | re-encoding the decoded items gives the word less the bits no item uses |
| Helper.EncodeItemsWithinMask | _LC-old-version/helper.js:187-204 | no encoding sets a bit outside the items' bits |
| Helper.MorphBallAndVaria | _LC-old-version/helper.js:184-185 | Morph Ball with Varia is 0x0005 and decodes back to those two items; a fresh Super Metroid inventory holds no items |

## Left out

- The conversational tool-calling loop: the source has no such loop. `tag-scripts/live-coach.js` only sets up a chat client whose send call is disabled, and it is not part of this model.
- The snes9x core: loading, running, `serialize`/`unserialize` and `get_memory_data`. So are video conversion and audio. Their results are parameters, and memory is a byte sequence.
- Browser I/O: `fetch` (a parameter), `localStorage`, `prompt`, `getApiKey`, URL search parameters (`getGameFromSearchParams`), the state download and import buttons (`downloadGameState`, `exportState`/`importState`), and the toggle-map button in `initEmulatorPage`.
- Timing: `setInterval` polling, the 60 Hz `tick`, and the whiteboard's 100 ms position refresh. The refresh makes the same offsets-less read as `_createMap`, so it would never move the player either.
- Leaflet drawing: `L.map`, tile layers, circles, rectangles, styles, tooltips and `update_pos`. The model keeps only the numbers handed to Leaflet. The marker circle's radius 0.2 and the `map_area_names` table feed only that drawing.
- `mk_all_rooms_rect`: it draws one rectangle per room of a table that is not part of this model. The per-room arithmetic is `MapTools.RoomRect`.
- Whiteboard.CoachWhiteboard.CreateMap: does not model the call to `mk_all_rooms_rect` (coach-whiteboard.js:110). That call throws at a room whose region has no area offset (map_tools.mjs:159), after `_player` is set and before `_map` and `_updateInterval` are. The room table is not part of this model, so the model assumes every room's region has an offset. `MapTools.RoomStartTile` shows the failing lookup for one room.
- MapTools.Dist2: it compares squared distances instead of `Math.sqrt`, which orders distances the same way. Floating-point rounding of the source's divisions and square root is not modelled.
- The Markdown renderer, `innerHTML` and the header markup of a chat bubble. `marked.parse` is a parameter. `speechSynthesis` is left out.
- Text.LowerAscii: it lowers ASCII letters only. This is exact for the map test and for the case-insensitive image pattern, which compare against ASCII letters only.
- Whiteboard.ContentText: it takes a string or null. `String(msg)` of other values is not modelled.
- Document fullscreen is a boolean that the 'f' key toggles, without the browser's fullscreen API.
- The libretro `set_environment` callback: only the table of command names is modelled.
- When `init` runs again, the previous emulator's interval timer keeps running; this is not modelled.
- SnesEmulator.SnesEmulatorElement.Init: `init` is async and suspends at its imports and fetches (snes-emulator.js:39-47). Each run is modelled as finishing before the next one starts; two overlapping runs are not modelled.
- SnesEmulator.SnesEmulatorElement.Connected: `connectedCallback` calls `init` without awaiting it (snes-emulator.js:20). The model runs `init` to completion inside the callback, so a run overlapping a later one is not modelled.
- SnesEmulator.SnesEmulatorElement.AttributeChanged: `attributeChangedCallback` calls `init` without awaiting it (snes-emulator.js:28). The model runs `init` to completion inside the callback, so a run overlapping a later one is not modelled.
- SnesEmulator.SnesEmulatorElement.Init: when `load_game` throws, the shared core's RAM is not known, so the previous emulator's `memory` is left unconstrained in that case.
- Source files outside the four above are not part of this model.
