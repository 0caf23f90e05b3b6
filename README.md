# Terminal storm, USB report, shell-config and holiday tools: a verified model

This project models the core of a collection of terminal utilities in Dafny and proves properties of that model.

- **Storm animations.** There are four variants. Each has a rain/cloud/puddle/lightning simulation that draws into a character buffer:
  - `app/storm1.py`: objects plus module globals;
  - `app/stormnew.py`: a `StormAnimation` class over a `StormState`;
  - `app/storm.py`: dicts in module globals;
  - `scripts/bin/storm.py`: the same design as `app/storm.py` with a few changed rules.

  All four read their settings from `app/config.py`.
- **`scripts/bin/usb_analyzer.py`.** Finds USB block devices in the `lsblk` tree, selects and orders them for the report, scans a mounted directory, and draws bars.
- **`analyze_aliases_sections.py`.** Splits an aliases file into sections, either by header comments or by a content heuristic. The two copies, under `app/` and `scripts/bin/`, have the same logic. They differ only in the emoji of four `print` calls (lines 155, 179, 183, 185), which are mis-encoded in the scripts/bin copy. Printing is not modelled.
- **`app/split_aliases.py`.** Writes the sections out as module files, each with a generated header.
- **`analyze_shell_config.py`.** Extracts aliases and functions from `.aliases` and `.zshrc`, finds duplicates and hard-coded paths, and builds the report.
- **`scripts/bin/holiday_dashboard.py` and `scripts/bin/holiday_countdown.py`.** The dashboard's bars, colours, uptime, battery and weather panels. The countdown's search for the next holiday and its timer loop.

Modules and files:

| module | file | models |
|---|---|---|
| `PyNum`, `PySort`, `PyStr`, `PyDict` | py_num.dfy | Python's `int()`, `round()`, `randint`, stable `sort(key=...)`, the `str` methods the programs use, and insertion-ordered dicts |
| `StormConfig` | storm_config.dfy | `app/config.py` |
| `Screen` | screen.dfy | the character buffer and `set_char_in_buffer` |
| `PuddleMath`, `StormCommon` | puddle_math.dfy, storm_common.dfy | the puddle, effect and rain-count arithmetic that `storm1.py` and `stormnew.py` share |
| `Storm1`, `Storm1Frame`, `Storm1Globals`, `Storm1Lightning`, `Storm1Draw` | storm1*.dfy | `app/storm1.py` |
| `StormNew`, `StormNewState`, `StormNewAnimation` | stormnew*.dfy | `app/stormnew.py` |
| `StormDict`, `StormDictFrame`, `StormDictSky`, `StormDictDraw` | storm_dict*.dfy | `app/storm.py` |
| `StormScript`, `StormScriptSky` | storm_script*.dfy | `scripts/bin/storm.py` |
| `UsbAnalyzer`, `UsbBars`, `BarArith`, `UsbScan` | usb_analyzer.dfy, usb_scan.dfy | `scripts/bin/usb_analyzer.py` |
| `AliasSections` | aliases_sections.dfy | `analyze_aliases_sections.py` |
| `SplitAliases` | split_aliases.dfy | `app/split_aliases.py` |
| `ShellConfig` | shell_config.dfy | `analyze_shell_config.py` |
| `HolidayDashboard`, `HolidayCountdown` | holiday_dashboard.dfy, holiday_countdown.dfy | the two holiday scripts |

How the model is built:

- **Randomness** is an explicit draw. `random.randint(lo, hi)` is `PyNum.Pick(lo, hi, k)` for an arbitrary `k: nat`, so every value in the range can be drawn. `random() < p` is a boolean parameter, and `random.uniform(a, b)` is a real parameter bounded by `a` and `b`.
- **Objects** that the source updates in place are classes proved against pure functions of their state: storm1's and stormnew's `Raindrop`, `Cloud` and `Puddle`, and stormnew's `StormAnimation`.
- **Module globals** are a value record that the module-level methods update.
- **Loops** in the source are `while` loops with invariants, each tied to a recursive reference function about which the properties are proved.

## Model

| member | source | states |
|---|---|---|
| StormConfig.ConstantsConsistent | app/config.py:9-86 | the settings agree with each other: fewest drops ≤ most drops, narrowest cloud ≤ widest cloud, shortest rumble ≤ longest rumble, the flash ends before the flicker does, and the top puddle intensity is 3 |
| StormConfig.RainCharForWind | app/config.py:89-93 | the glyph is `/` exactly when the wind is ≥ 0.5, `\` exactly when it is ≤ -0.5, and the upright bar exactly in between |
| StormConfig.PuddleGlyph | app/storm1.py:228-229 | the glyph is one of `PUDDLE_CHARS`; it is `.` below intensity 1 and `≈` from the top intensity on |
| StormConfig.IndexToShape | app/config.py:46-51 | drawn index `k` picks the solid shape exactly when `k % 4 == 0` and the broken shape exactly when `k % 4 == 1` |
| StormConfig.Center | app/config.py:48 | `str.center`: the result has length `max(w, len(s))`; `s` comes back unchanged when it is already that wide, and otherwise sits at the centring offset |
| StormConfig.CenterLeft | app/config.py:48 | the left margin of `str.center` fits in the free space and is half of it, rounded either way |
| StormConfig.CenterPadding | app/config.py:48 | every cell of a centred text outside the text itself is a space |
| StormConfig.BrokenGroups | app/config.py:48 | the broken shape makes `w // 2` runs, each of 1 to 3 cloud glyphs |
| StormConfig.JoinGroups | app/config.py:48 | a non-empty list of runs joined by spaces is at least `2n - 1` long and starts and ends with a cloud glyph |
| StormConfig.ShapeLength | app/config.py:46-51 | the solid shape is `w` glyphs; the streaky and contained shapes are `w` long and framed by `-…-` or `(…)` when `w > 2`; the broken shape is as long as the wider of `w` and its joined runs |
| StormConfig.ShapeHasGlyph | app/config.py:46-51 | a shape strips to nothing exactly for the broken shape of width 1 |
| StormConfig.NonSpaceSurvivesStrip | app/storm1.py:123-125 | a text holding a non-whitespace character does not strip to the empty string |
| Screen.SetCharInBuffer | app/storm1.py:243-245 | an on-screen cell gets the new glyph and colour; every other cell is unchanged, and an off-screen write changes nothing |
| Screen.Compose | app/storm1.py:490-522 | the buffer has the screen's size, and each cell shows what the frame's writes, applied in order over the cleared background, leave there |
| Screen.ShownUntouched | app/storm1.py:243-245 | a cell that no write is aimed at keeps the background |
| Screen.ShownLastWrite | app/storm1.py:243-245 | the last write aimed at a cell decides what the cell shows |
| Screen.ShownConcat | app/storm1.py:490-522 | drawing one batch of writes after another equals drawing the second over what the first left |
| Screen.ShownGlyph | app/storm1.py:490-522 | when some write hits a cell and every write carries glyph `g`, the cell shows `g` |
| Screen.ShownTinted | app/storm1.py:492-494 | when the background and every write share one colour, every cell has that colour |
| Screen.TextWrites | app/storm1.py:163-167 | a text gives at most one write per character, all on its row and within its columns, all in its colour; when spaces are skipped, no write is a space |
| Screen.TextWritesAll | app/storm1.py:521-522 | without skipping, character `i` of the text is written to column `x0 + i` |
| Screen.TextOnTop | app/storm1.py:518-522 | text drawn last shows in full: column `x0 + i` shows character `i` |
| Screen.Tint | app/storm1.py:167 | `color_override or default`: the override when there is one, else the default colour |
| StormCommon.AgeEffects | app/storm1.py:334-336 | the aged list is no longer than before, and every effect left still has at least one frame of life |
| StormCommon.AgeEffectsMember | app/storm1.py:334-336 | an effect survives ageing exactly when it had more than one frame left, and it comes back one frame older |
| StormCommon.AgeEffectsSnoc | app/storm1.py:334-336 | ageing a list with one more effect appends that effect, one frame older, exactly when it had more than one frame left |
| StormCommon.OnScreen | app/storm1.py:318 | a fall reports a splash column exactly when it has one inside `[0, WIDTH)` |
| StormCommon.SplashesAt | app/storm1.py:319 | one splash effect per column, in order, on the splash line, with the full splash duration |
| StormCommon.TargetDrops | app/storm1.py:303 | the target lies between `MIN_RAINDROPS` and `MAX_RAINDROPS` and is the truncation of the interpolated count |
| StormCommon.WindFor | app/storm1.py:298-300 | the wind is between 0 and the largest gusted drift, and within the gust factor of the base drift |
| StormCommon.RemoveAt | app/storm1.py:309 | `list.pop(i)`: one element shorter, and exactly the popped element is missing from the multiset |
| StormCommon.Shrink | app/storm1.py:308-309 | the list ends with `min(len, n)` elements, all drawn from the old list; a list already short enough is unchanged |
| StormCommon.ShrinkStep | app/storm1.py:308-309 | one turn of the popping loop removes one drawn element and continues with the next draw |
| StormCommon.PopDrawn | app/storm1.py:308-309 | the popping loop leaves exactly `Shrink` of its input |
| StormCommon.ShrinkKeeps | app/storm1.py:308-309 | every element left after the loop was in the list before it |
| PuddleMath.Columns | app/storm1.py:178-181 | the columns of a span are exactly `lo ≤ x < lo + n` |
| PuddleMath.SpanColumns | app/storm1.py:178-185 | a puddle covers exactly `width` columns, `is_coord_inside` accepts exactly those, and the base column is one of them |
| PuddleMath.Merge | app/storm1.py:214-225 | the merged span runs from the leftmost edge of the two to the rightmost; it carries no disturbance; it is at least as wide as either input; its intensity is at most the cap, and `intensity * width` is at most the combined volume, equal to it unless the cap was hit |
| PuddleMath.SpreadVolume | app/storm1.py:219-223 | a volume spread over `nw > 0` columns and capped holds at most that volume, and exactly that volume unless the cap is reached |
| PuddleMath.MergeSpan | app/storm1.py:215-222 | every column of either puddle lies in the merged one, and the merged one covers exactly the hull of the two spans |
| PuddleMath.MergePositive | app/storm1.py:219-223 | merging puddles that hold water gives one that holds water |
| PuddleMath.MergeScan | app/storm1.py:352-367 | the merge loop emits at least one puddle and at most one per input puddle |
| PuddleMath.ScanHead | app/storm1.py:352-367 | when nothing to be scanned starts further left, the first puddle emitted starts where the current puddle started |
| PuddleMath.ScanWide | app/storm1.py:352-367 | puddles at least one column wide stay that wide through the scan |
| PuddleMath.ScanWet | app/storm1.py:352-367 | puddles holding water still hold water after the scan |
| PuddleMath.ScanGaps | app/storm1.py:360-364 | on input sorted by left edge, each emitted puddle starts more than `PUDDLE_MERGE_DISTANCE` columns after the previous one ends |
| PuddleMath.GapsSeparate | app/storm1.py:360-364 | gaps between neighbours add up: every later puddle clears every earlier one by more than the distance |
| PuddleMath.ScanCovers | app/storm1.py:352-367 | the scan loses no column: each column of each input puddle lies inside some emitted puddle |
| PuddleMath.Evaporate | app/storm1.py:199-200 | at storm intensity in [0, 1] a puddle loses between 0.01 and 0.03 per frame |
| PuddleMath.WidthFor | app/storm1.py:204-209 | the width lies between 1 and `PUDDLE_MAX_WIDTH_PER_POINT`, and is 1 up to the spread threshold |
| PuddleMath.WidthForGrowth | app/storm1.py:204-209 | more water never narrows a puddle; below intensity 5 a puddle is at most 2 wide; the largest width is reached exactly from intensity 8 on |
| PuddleMath.AgeDisturbances | app/storm1.py:195-197 | ageing never lengthens the list, and every disturbance left has at least one frame |
| PuddleMath.AgeMember | app/storm1.py:195-197 | a disturbance is present after ageing exactly when it was present one frame younger and keeps at least one frame |
| PuddleMath.Evolve | app/storm1.py:194-210 | a surviving puddle keeps its base, evaporates, ages its disturbances and takes the width `WidthFor` gives its new intensity |
| PuddleMath.Survivors | app/storm1.py:344 | the comprehension never grows the list, and every survivor holds water and is at least one column wide |
| PuddleMath.SurvivorsExact | app/storm1.py:344 | a puddle is among the survivors exactly when it is the evolved state of an input puddle that keeps water |
| PuddleMath.SortByLeft | app/storm1.py:350 | sorting by left edge permutes the puddles |
| PuddleMath.ScanProperties | app/storm1.py:350-367 | scanning a list sorted by left edge, whose puddles hold water and are at least one column wide, gives such puddles again, pairwise clear by more than the merge distance |
| PuddleMath.TickProperties | app/storm1.py:339-367 | after the puddle tick the list is no longer than the survivors, which are no more than the input; every puddle holds water and is at least one column wide; the puddles are sorted by left edge and pairwise separated |
| PuddleMath.TickCovers | app/storm1.py:339-367 | every column of every surviving puddle is still under some puddle after the merge |
| PuddleMath.FirstInside | app/storm1.py:321-326 | the index found holds `x` and no earlier puddle does; nothing is found exactly when no puddle holds `x` |
| PuddleMath.FirstInsideAt | app/storm1.py:321-326 | a left-to-right search that stops at the first puddle holding `x` finds the same index, and finds none when it runs off the end |
| Storm1Draw.FlashOverride | app/storm1.py:492 | there is an override exactly while the screen flash lasts, and it is `COLOR_SCREEN_FLASH` |
| Storm1Draw.SpanWritesClosed | app/storm1.py:230-240 | the span loop writes the on-screen columns from the puddle's left edge on, one write per column, left to right |
| Storm1Draw.PuddleWritesShape | app/storm1.py:227-240 | a puddle writes exactly its on-screen columns, each once, left to right, on its row; a disturbed column shows the disturbance look, and any other column shows the intensity glyph in the puddle colour |
| Storm1Draw.PuddleAsWrittenAgrees | app/storm1.py:227-240 | the puddle as written fails exactly when one of its on-screen columns is disturbed; otherwise it writes what the intended puddle draw writes |
| Storm1Draw.FirstSplashBreaksDraw | app/storm1.py:236 | the first splash into an empty puddle list leaves, after the puddle tick, one puddle that is still disturbed, so drawing it as written fails |
| Storm1Draw.LayerWrites | app/storm1.py:496-499 | every cloud write of a layer is in the layer's colour, or the flash colour |
| Storm1Draw.RainWrites | app/storm1.py:500-501 | every drop write is in the rain colour, or the flash colour, and lies above the splash line |
| Storm1Draw.PathWrites | app/storm1.py:506-507 | one write per bolt point, at that point, in the bolt's glyph |
| Storm1Draw.BoltWrites | app/storm1.py:503-507 | every bolt write is in the lightning colour, or the flash colour |
| Storm1Draw.EffectWrites | app/storm1.py:509-516 | one write per ground strike or splash, at its cell, in its glyph |
| Storm1Draw.PuddlesWrites | app/storm1.py:512-513 | while the flash lasts every puddle write is in the flash colour |
| Storm1Draw.FlashTintsFrame | app/storm1.py:492-522 | while the screen flash lasts, every cell of the frame, written or not, has the flash colour |
| Storm1Draw.RumbleOnTop | app/storm1.py:518-522 | while the rumble lasts, character `i` of its caption shows at column `(WIDTH - len) // 2 + i` of the rumble row |
| Storm1Draw.SplashOverPuddle | app/storm1.py:512-516 | a splash dot shows at its cell over any cloud, drop, bolt, strike or puddle, unless the rumble caption is on show on that row |
| Storm1Draw.BoltsOnlyWhileFlickering | app/storm1.py:503 | once the flicker is over, the frame is the same whatever bolts are still recorded |
| Storm1Draw.DrawScene | app/storm1.py:490-522 | the buffer has the screen's size, and each cell shows what the frame's writes leave over the cleared background |
| Storm1Draw.PuddlesAsWrittenAgrees | app/storm1.py:512-513 | the puddle loop as written fails exactly when some puddle has a disturbed on-screen column, and otherwise writes what the intended loop writes |
| Storm1Draw.SceneAsWrittenAgrees | app/storm1.py:490-522 | `draw_scene` as written produces no frame exactly when some puddle has a disturbed on-screen column; otherwise its frame is the intended one |
| Storm1.Respawn | app/storm1.py:45-69 | the drop takes the wind's glyph and a whole-number position. A side spawn, in strong wind with the 0.7 draw, starts left of the screen in wind ≥ 0 and right of it otherwise. Any other spawn is in columns `[0, width - 1]`, at row 0 unless it is the initial spawn. A side or initial spawn gets a row in `[0, max(0, sah - 1)]` |
| Storm1.FallSpec | app/storm1.py:71-84 | a drop splashes exactly when its next row reaches the splash line, at the rounded column; a splashing drop, or one blown out of `(-5, width + 5)`, respawns; any other drop moves one row down and drifts with the wind |
| Storm1.Raindrop.constructor | app/storm1.py:39-43 | a new drop remembers the screen width and storm height and is an initial spawn |
| Storm1.Raindrop.Reset | app/storm1.py:45-69 | the drop's new state is `Respawn` of its settings |
| Storm1.Raindrop.Update | app/storm1.py:71-84 | the returned splash and the drop's new state are the `Fall` of its old state |
| Storm1.DropWrites | app/storm1.py:86-90 | a drop gives at most one write; it gives one exactly when its rounded position is above the splash line and on the screen, and only there |
| Storm1.StripCloud | app/storm1.py:123-127 | a run of cloud glyphs strips to itself |
| Storm1.Regenerate | app/storm1.py:115-127 | the new width is at least 1 and is the length of the stripped picture |
| Storm1.CloudRows | app/storm1.py:107-110 | the row range is never empty; for a factor in [0, 1) and a divisor of at least 2 it lies inside the storm area |
| Storm1.Drift | app/storm1.py:130-147 | a cloud wraps exactly when its rounded column reaches the right edge or its right end passes the left edge. A cloud leaving on the right restarts 0 to 5 columns beyond its picture's length left of the screen; one leaving on the left restarts at `wb - 1` to `wb + 4`. A wrapped cloud takes a row in its layer's range; any other cloud moves by `step` and keeps its row |
| Storm1.Cloud.constructor | app/storm1.py:94-112 | a new cloud keeps its settings, has a regenerated shape, a column in `[-width, wb - 1]` and a row in its layer's range |
| Storm1.Cloud.RegenerateShape | app/storm1.py:115-127 | the width and picture are `Regenerate`'s, and the position is unchanged |
| Storm1.Cloud.Update | app/storm1.py:130-147 | the cloud stays valid, and its new state is the `Drift` of its old state |
| Storm1.CloudWrites | app/storm1.py:150-167 | every write of a cloud is on its row, shows a non-space glyph, and is in the layer's colour or the flash colour |
| Storm1.Splashed | app/storm1.py:187-188 | a splash adds half a unit of water, never above the cap, and changes nothing else |
| Storm1.Disturbed | app/storm1.py:190-192 | a disturbance leaves the base, intensity and width unchanged |
| Storm1.DisturbedExact | app/storm1.py:190-192 | afterwards there is exactly one disturbance at `x`, with the full lifetime, and the disturbances at other columns are unchanged |
| Storm1.Puddle.constructor | app/storm1.py:171-176 | a new puddle has the given base, intensity and width, and no disturbances |
| Storm1.Puddle.AddSplashContribution | app/storm1.py:187-188 | the new state is `Splashed` of the old one |
| Storm1.Puddle.AddDisturbance | app/storm1.py:190-192 | the new state is `Disturbed` of the old one |
| Storm1.Puddle.UpdateEffects | app/storm1.py:194-210 | the result says whether the puddle still holds water. A survivor becomes `Evolve` of its old state; a dry puddle keeps its width but has evaporated and aged its disturbances |
| Storm1.Puddle.Merge | app/storm1.py:213-225 | `Puddle.merge` returns a new puddle object whose state is `PuddleMath.Merge` of the two inputs |
| Storm1.Absorb | app/storm1.py:318-331 | when some puddle holds `x`, the first such puddle gets the splash and the disturbance and no other puddle changes; otherwise a new one-column puddle at `x`, disturbed there, is appended |
| Storm1.AbsorbInto | app/storm1.py:321-326 | the splash goes into the first puddle, in list order, that holds its column |
| Storm1.AbsorbKeeps | app/storm1.py:318-331 | absorbing a splash keeps every puddle wet and at least one column wide |
| Storm1.AbsorbAllKeeps | app/storm1.py:316-331 | a frame's worth of splashes keeps every puddle wet and at least one column wide |
| Storm1Frame.Kept | app/storm1.py:344 | the comprehension keeps some of the puddle objects and adds none |
| Storm1Frame.KeptValues | app/storm1.py:344 | the kept puddles hold exactly `Survivors` of the old values, in order |
| Storm1Frame.UpdateEach | app/storm1.py:344 | every puddle's flag says whether it survives, and every survivor now holds its evolved state |
| Storm1Frame.SurviveEach | app/storm1.py:344-345 | the survivors are distinct objects of the old list, and their states are `Survivors` of the old states |
| Storm1Frame.SurviveKeeping | app/storm1.py:344-345 | as `SurviveEach`, with the clouds still on the screen |
| Storm1Frame.SortKeyedValues | app/storm1.py:350 | sorting the objects by left edge orders their states as sorting the states alone would |
| Storm1Frame.Rearranged | app/storm1.py:350 | a sorted rearrangement holds every puddle object once, still beside its own state |
| Storm1Frame.SortPuddles | app/storm1.py:350 | the sort gives the same objects, each once, and their states are `SortByLeft` of the old states |
| Storm1Frame.ScanMerges | app/storm1.py:360-361 | a puddle starting within the merge distance is merged into the current one, and the scan goes on |
| Storm1Frame.ScanEmits | app/storm1.py:362-364 | a puddle further away emits the current one and becomes the current one |
| Storm1Frame.MergeStep | app/storm1.py:356-364 | one turn of the merge loop either emits the current puddle and moves on to `t[i]`, or merges `t[i]` into a new object; the emitted list plus the scan of the rest is unchanged |
| Storm1Frame.MergeRun | app/storm1.py:352-367 | the merge loop emits distinct objects whose states are `MergeScan` of the sorted states |
| Storm1Frame.SortMerge | app/storm1.py:350-367 | the sort and the merge loop give the scan of the states sorted by left edge, and leave the clouds alone |
| Storm1Frame.MergeKeeping | app/storm1.py:352-367 | as `MergeRun`, with the clouds still on the screen |
| Storm1Frame.TickFits | app/storm1.py:339-367 | puddle objects held once, whose states are a tick, hold water and are at least one column wide |
| Storm1Frame.TickPuddles | app/storm1.py:341-367 | the puddle states after the method are the tick of the old states |
| Storm1Frame.UpdatePuddles | app/storm1.py:339-367 | `update_puddles` changes only the puddle list, keeps the globals well formed, and leaves the tick of the old puddle states at the current storm intensity |
| Storm1Globals.Landed | app/storm1.py:316-318 | the splash columns of a frame are on the screen, at most one per drop |
| Storm1Globals.ResizeDrops | app/storm1.py:306-309 | the drop list ends with exactly the target length and every drop fits. A long list is `Shrink` of the old one; a short one keeps the old drops in front and appends initial spawns |
| Storm1Globals.MakeClouds | app/storm1.py:280-289 | the cloud loop makes `n` distinct new valid clouds, all with the layer's screen width, storm height, foreground flag, row factor and divisor |
| Storm1Globals.GrowDrops | app/storm1.py:306-307 | the appending loop keeps the old drops in front and appends initial spawns until there are `n` |
| Storm1Globals.ShrinkDrops | app/storm1.py:308-309 | the popping loop leaves `Shrink` of the list, with no object twice |
| Storm1Globals.UpdateClouds | app/storm1.py:371-375 | every cloud of a layer stays valid, and moves as its `Next` for the layer's step says |
| Storm1Globals.AbsorbSplash | app/storm1.py:320-331 | the inner loop leaves distinct puddle objects, old or new, whose states are `Absorb` of the old states |
| Storm1Globals.FindCovering | app/storm1.py:321-326 | the search returns `FirstInside` of the puddle states |
| Storm1Globals.SplashInto | app/storm1.py:322-324 | the list of objects is unchanged, and only puddle `i`'s state changes, to splashed and disturbed at `x` |
| Storm1Globals.AppendPuddle | app/storm1.py:327-331 | one new object is appended: a one-column puddle at `x` with the initial intensity and one disturbance at `x` |
| Storm1Globals.UpdateLayers | app/storm1.py:370-375 | both layers move, each cloud as its `Next` says for its layer's step |
| Storm1Globals.FallAll | app/storm1.py:316-319 | every drop's new state is its `Fall`, and the collected columns are `Landed` of the old states |
| Storm1Globals.Fallen | app/storm1.py:316-317 | the first `n` drops after their fall, one state per drop |
| Storm1Globals.FallOne | app/storm1.py:317 | drop `i` falls as `Fall` says, and no other drop changes |
| Storm1Globals.AbsorbEach | app/storm1.py:318-331 | the puddles after the frame's splash columns are `AbsorbAll` of the old states, and they stay wet and wide |
| Storm1Globals.InitializeGlobalStructures | app/storm1.py:247-289 | the globals start well formed, for the given screen size, with no drops, splashes or puddles, quiet lightning, no wind and the fewest drops. There are `NUM_CLOUDS_FG` foreground clouds (row factor 1/6, divisor 3) and `NUM_CLOUDS_BG` background clouds (factor 0, divisor 5) |
| Storm1Globals.UpdateStormParameters | app/storm1.py:291-309 | only the weather and the drops change; the wind is `WindFor`, the glyph follows the wind, and the drop list reaches exactly `TargetDrops`, by popping or by appending spawns |
| Storm1Globals.UpdateRainAndSplashes | app/storm1.py:312-336 | only the puddles and splashes change. Every drop falls. The puddles are `AbsorbAll` of the on-screen splash columns, and the splashes are the old ones plus one per splash column, aged one frame |
| Storm1Globals.UpdateAllClouds | app/storm1.py:370-375 | the foreground clouds move at the foreground speed and wind factor, and the background clouds at the slower background ones |
| Storm1Lightning.Deviation | app/storm1.py:386-388 | a sideways step moves at most `max(md, 2·[md > 0])` columns, and not at all when `md` is 0 |
| Storm1Lightning.BoltRows | app/storm1.py:383-390 | a bolt from row `y` to `yEnd` has one point per row, `yEnd - y + 1` points, or none when `y > yEnd`; point `i` is on row `y + i` |
| Storm1Lightning.ColumnOnScreen | app/storm1.py:390 | every column of a bolt after its first is on the screen |
| Storm1Lightning.ColumnStep | app/storm1.py:386-390 | from one row to the next, a bolt's column moves at most the step's reach |
| Storm1Lightning.ClampStep | app/storm1.py:390 | clamping to the screen never moves an on-screen column further than it was pushed |
| Storm1Lightning.GenerateBoltPath | app/storm1.py:377-391 | the loop builds `BoltRows` from the start row, first raised to the end row when it lay below it |
| Storm1Lightning.Deviate | app/storm1.py:386-390 | one step of the loop: the drawn deviation, then the clamp to `[0, WIDTH - 1]` |
| Storm1Lightning.FindChar | app/storm1.py:423 | `str.find`: the first index holding the character, or -1 exactly when there is none |
| Storm1Lightning.Sources | app/storm1.py:418 | the candidate clouds are foreground clouds whose rounded span reaches into the screen's columns |
| Storm1Lightning.StrikeStartOnScreen | app/storm1.py:418-435 | a bolt starts on the screen, inside the storm area |
| Storm1Lightning.BranchStep | app/storm1.py:472-487 | one round of the branch loop is `Branch`: nothing unless the main bolt has two points or more and there is room below the branch start |
| Storm1Lightning.BranchOff | app/storm1.py:474-487 | the branch off point `j` of the main bolt is `BranchAt` |
| Storm1Lightning.AddBranches | app/storm1.py:470-487 | the loop appends the branches of its `n` draws, in order |
| Storm1Lightning.MainPath | app/storm1.py:437-457 | the main bolt is `MainBolt`: an end row drawn from `[min(y + 2, sah - 1), sah - 1]`, and the bolt generated down to it |
| Storm1Lightning.StrikeBoltsOf | app/storm1.py:459-487 | the bolts of a strike are `StrikeBolts`: the main bolt in the primary glyph, then its branches when the strike is complex and the bolt has at least three points |
| Storm1Lightning.GroundStrike | app/storm1.py:461-468 | the ground strikes get one more at the bolt's end when it reaches `SPLASH_LINE_INDEX - 1` |
| Storm1Lightning.Strike | app/storm1.py:410-487 | the strike part of `update_lightning` is `Struck` |
| Storm1Lightning.UpdateLightning | app/storm1.py:393-487 | only the lightning globals change, and they become `NextLightning` of the old ones |
| Storm1Lightning.BoltRowsDescend | app/storm1.py:383-390 | a bolt drawn from an on-screen point to a row of the storm area descends: every point is on the screen, rows go up by one, and columns move at most the reach |
| Storm1Lightning.MainBoltShape | app/storm1.py:437-457 | the main bolt is never empty; it starts at the strike's start point, descends with reach 2, and ends on a row from `min(start + 2, sah - 1)` to `sah - 1` |
| Storm1Lightning.BranchSpanShorter | app/storm1.py:479 | a branch's row span, for a length factor of at most one, is less than the rows left to the main bolt's end |
| Storm1Lightning.BranchFrom | app/storm1.py:474-485 | a bolt drawn from a point of the main bolt other than its last, down to a lower row of the storm area, is a branch of it |
| Storm1Lightning.BranchShape | app/storm1.py:472-487 | a branch draw gives at most one bolt, a branch of the main bolt; with a length factor in [0.5, 1.0] it ends above the main bolt's last row |
| Storm1Lightning.BranchAtValue | app/storm1.py:474-485 | with room below its start, the branch off point `j` is the bolt generated from that point to the drawn end row |
| Storm1Lightning.BranchAtShape | app/storm1.py:474-487 | the branch off a point of the main bolt other than its last is a branch of the main bolt |
| Storm1Lightning.BranchBottomAbove | app/storm1.py:478-480 | with a length factor of at most one, the lowest end of a branch lies above the main bolt's last row |
| Storm1Lightning.BranchesShape | app/storm1.py:470-487 | a strike adds at most one branch per draw, and each is a branch of its main bolt |
| Storm1Lightning.BranchesEndAbove | app/storm1.py:470-487 | with length factors in [0.5, 1.0], every branch ends above the main bolt's last row |
| Storm1Lightning.LightningTimers | app/storm1.py:397-410 | a strike fires exactly when its chance comes up and the rumble and flicker both run out this frame. Without a strike, each countdown drops by one down to 0, the ground strikes age, and the bolts are cleared when the flicker ends |
| Storm1Lightning.StrikeTimers | app/storm1.py:411-414 | a strike restarts the flicker and the flash at their configured lengths, and draws a rumble length and a caption from the configured ones |
| Storm1Lightning.StrikeBoltsOfMain | app/storm1.py:459-487 | the main bolt comes first in the primary glyph, followed by at most `LIGHTNING_MAX_BRANCHES` branches of it. There are none unless the strike is complex and the bolt has three points or more. With length factors in [0.5, 1.0] every branch ends above the bolt's last row |
| Storm1Lightning.StrikeBoltsShape | app/storm1.py:415-487 | the bolts after a strike are those of its main bolt, which is non-empty and descends |
| Storm1Lightning.StrikeGroundEffect | app/storm1.py:461-468 | a strike adds a ground strike at its main bolt's end exactly when the bolt reaches the row above the splash line or lower; the ground strikes already there age |
| Storm1Lightning.NoStrikeOnStrike | app/storm1.py:410-411 | the frame after a strike is never armed, whatever it draws |
| StormNew.Fall | app/stormnew.py:96-110 | a drop splashes exactly when its next row reaches the splash line, at a column within 0.5 of its drifted position. A splashing drop, or one blown out of `(-5, width + 5)`, respawns from the top or the side. Any other drop moves one row down and drifts, keeping its glyph, which this version does not update while falling |
| StormNew.FallStaysAbove | app/stormnew.py:96-110 | a drop on a row of the storm area stays on one after falling, with its old glyph or the current wind's |
| StormNew.Raindrop.constructor | app/stormnew.py:71-77 | a new drop remembers the screen width and storm height and is an initial spawn |
| StormNew.Raindrop.Reset | app/stormnew.py:79-94 | the new state is the respawn that `app/storm1.py` also uses, since the two resets agree |
| StormNew.Raindrop.Update | app/stormnew.py:96-110 | the returned splash and the new state are `Fall` of the old state |
| StormNew.LayerOf | app/stormnew.py:128-134 | the foreground layer has the configured widths; the background layer has widths two narrower, which the configured values keep at least 1 |
| StormNew.RandomY | app/stormnew.py:143-147 | the row lies in the layer's range, which is inside the storm area |
| StormNew.RegeneratedWidth | app/stormnew.py:149-156 | the width is the length of the stripped picture. With widths of two or more the picture is the drawn shape and shows a glyph. With width 1, the broken shape leaves width 0 and an empty picture |
| StormNew.NewCloudIs | app/stormnew.py:122-141 | the new cloud is the drawn shape at the drawn column and row |
| StormNew.NewCloudOk | app/stormnew.py:122-141 | a new cloud is well formed, on a row of the storm area, and starts between minus its width and the last column |
| StormNew.Drifted | app/stormnew.py:158-170 | a cloud at or past the right edge restarts at minus its old picture's length; one wholly past the left edge restarts at the right edge; a wrapped cloud gets a new shape and row; any other cloud just moves by `step` |
| StormNew.DriftedOk | app/stormnew.py:158-170 | moving keeps a cloud well formed, and a cloud that wraps ends up at the edge opposite the one it left |
| StormNew.Cloud.constructor | app/stormnew.py:122-141 | the storm height is raised to at least 1, the layer is `LayerOf(is_foreground)`, and the state is `NewCloud` |
| StormNew.Cloud.RegenerateShape | app/stormnew.py:149-156 | the width and picture are `Regenerated`'s, and the position is unchanged |
| StormNew.Cloud.Update | app/stormnew.py:158-170 | the new state is `Drifted` by `base_speed + wind_drift * wind_factor` |
| StormNew.Splashed | app/stormnew.py:202-206 | half a unit more water, capped at `PUDDLE_MAX_INTENSITY`, never less water than before under the cap, and one more disturbance at `x` appended after the old ones, which all stay |
| StormNew.NewPuddle | app/stormnew.py:348-349 | a new puddle is one column at `x`, holds the initial intensity plus one splash, and has one disturbance at `x` |
| StormNew.Updated | app/stormnew.py:208-227 | the puddle evaporates and reports whether water is left. A survivor becomes `Evolve`; a dry puddle changes only its intensity |
| StormNew.UpdatedDisturbances | app/stormnew.py:217-226 | a surviving puddle keeps exactly the disturbances that had more than one frame left, each one frame older, and its width is between 1 and the largest width |
| StormNew.Puddle.constructor | app/stormnew.py:186-190 | a new puddle has the initial intensity, one column and no disturbances |
| StormNew.Puddle.Bounds | app/stormnew.py:192-195 | `get_bounds` is the puddle's left and right column |
| StormNew.Puddle.AddSplash | app/stormnew.py:202-206 | the new state is `Splashed` of the old one |
| StormNew.Puddle.Update | app/stormnew.py:208-227 | the result and the new state are `Updated` of the old state |
| StormNew.Puddle.Merge | app/stormnew.py:229-246 | a new puddle object whose state is `PuddleMath.Merge` of the two, capped at `PUDDLE_MAX_INTENSITY` |
| StormNewState.NewClouds | app/stormnew.py:285-288 | one cloud loop makes `n` clouds |
| StormNewState.NewCloudsOk | app/stormnew.py:285-288 | every new cloud is well formed on a row of the storm area |
| StormNewState.InitialOk | app/stormnew.py:268-288 | the new state is well formed: splash line `height - 2`, rumble line `height - 1`, storm area `height - 2`, the configured cloud counts, no drops, puddles or bolts, the fewest drops as the target, and quiet timers |
| StormNewState.Spawns | app/stormnew.py:320-321 | `m` initial spawns, in draw order |
| StormNewState.Resized | app/stormnew.py:320-323 | the list ends with exactly `n` drops. A short list keeps its drops in front and appends initial spawns; a long one keeps only drops it had |
| StormNewState.ParamsStepProperties | app/stormnew.py:307-323 | the new state is well formed, and only intensity, wind, target and drops change. The target lies between `MIN_RAINDROPS` and `MAX_RAINDROPS` and equals the number of drops; the wind is not negative |
| StormNewState.DriftLayer | app/stormnew.py:328-332 | each cloud of a layer is `Drifted` by the layer's step |
| StormNewState.DriftLayerOk | app/stormnew.py:328-332 | a drifted layer's clouds stay well formed |
| StormNewState.CloudsStep | app/stormnew.py:325-332 | only the two cloud layers change, and they keep their sizes; in calm or positive wind the foreground steps right by at least 0.3 and the background by at least 0.18 |
| StormNewState.Landed | app/stormnew.py:338-340 | at most one on-screen splash column per drop |
| StormNewState.LandedSnoc | app/stormnew.py:338-340 | one more drop adds its on-screen splash column, if any |
| StormNewState.Absorb | app/stormnew.py:343-350 | absorbing a splash keeps every puddle at least one column wide |
| StormNewState.AbsorbEffect | app/stormnew.py:343-350 | afterwards some puddle holds `x`. A hit changes no list length; a miss appends one puddle; no existing span moves |
| StormNewState.AbsorbAll | app/stormnew.py:338-350 | the list grows by at most one puddle per splash, and puddles stay at least one column wide |
| StormNewState.AbsorbAllCovers | app/stormnew.py:338-350 | after the frame's splashes every splash column lies under a puddle |
| StormNewState.Fallen | app/stormnew.py:338-339 | each drop after the frame is its `Fall` |
| StormNewState.RainStep | app/stormnew.py:334-356 | only the drops, puddles and splashes change, and the state stays well formed |
| StormNewState.RainStepSplashes | app/stormnew.py:334-356 | each on-screen splash of the frame lies under a puddle afterwards, and shows as a splash effect on the splash line with one frame used |
| StormNewState.SurvivorsSnoc | app/stormnew.py:365 | the survivors of a list with one more puddle gain that puddle's evolved state exactly when it survives |
| StormNewState.PuddlesStep | app/stormnew.py:358-384 | only the puddles change; they hold water, are sorted by left edge, are pairwise separated by more than the merge distance, and are no more than before |
| StormNewState.Decayed | app/stormnew.py:391-399 | each timer drops by one down to 0, the bolts are kept or cleared, and the ground strikes age |
| StormNewState.BoltStart | app/stormnew.py:416-425 | the start is on the screen, inside the storm area; with foreground clouds it is under the drawn cloud's rounded middle, one row below it, clamped |
| StormNewState.BoltEnd | app/stormnew.py:428-432 | there is no end row exactly when `y_start + 2 > sah - 1`; otherwise it lies in `[y_start + 2, sah - 1]` |
| StormNewState.TriggeredProperties | app/stormnew.py:406-436 | the timers are set whatever happens to the bolt, and the rumble and caption are drawn from the configured ones. With no room there is no bolt; otherwise at most one bolt, the main path in the primary glyph. Nothing else changes |
| StormNewState.LightningStep | app/stormnew.py:386-404 | one lightning step keeps the state well formed |
| StormNewState.LightningStepStarts | app/stormnew.py:402-404 | an event starts only when the draw says so and the flicker and rumble have both run out; without an event the step is the countdown alone; after an event the rumble is at least `RUMBLE_DURATION_MIN` |
| StormNewState.FrameStep | app/stormnew.py:299-305 | one frame keeps the state well formed and the screen size unchanged, leaves exactly the target number of drops, and leaves wet, separated puddles |
| StormNewAnimation.StormAnimation.constructor | app/stormnew.py:268-274 | a new animation is valid and holds the initialised default state |
| StormNewAnimation.StormAnimation.InitializeState | app/stormnew.py:276-288 | the state becomes `Initialized` of the old one |
| StormNewAnimation.StormAnimation.UpdateStormParameters | app/stormnew.py:307-323 | the state becomes `ParamsStep` of the old one |
| StormNewAnimation.StormAnimation.UpdateClouds | app/stormnew.py:325-332 | the state becomes `CloudsStep` of the old one |
| StormNewAnimation.StormAnimation.UpdateRainAndSplashes | app/stormnew.py:334-356 | the state becomes `RainStep` of the old one |
| StormNewAnimation.StormAnimation.UpdatePuddles | app/stormnew.py:358-384 | the state becomes `PuddlesStep` of the old one |
| StormNewAnimation.StormAnimation.UpdateLightning | app/stormnew.py:386-404 | the state becomes `LightningStep` of the old one |
| StormNewAnimation.StormAnimation.TriggerLightningEvent | app/stormnew.py:406-436 | the state becomes `Triggered` of the old one |
| StormNewAnimation.StormAnimation.Update | app/stormnew.py:299-305 | the animation stays valid and the state becomes `FrameStep` of the old one |
| StormNewAnimation.CloudLoop | app/stormnew.py:285-288 | the loop builds `NewClouds` |
| StormNewAnimation.ResizeDrops | app/stormnew.py:320-323 | the two loops leave `Resized` of the drop list |
| StormNewAnimation.SpawnDrops | app/stormnew.py:320-321 | a short list gets exactly the missing spawns appended; a long one is unchanged |
| StormNewAnimation.DriftPass | app/stormnew.py:328-332 | one layer's loop gives `DriftLayer` |
| StormNewAnimation.RainPass | app/stormnew.py:338-350 | the drop loop gives the fallen drops, the puddles after `AbsorbAll` of the landed columns, and one splash effect per landed column |
| StormNewAnimation.DropFalls | app/stormnew.py:339-350 | one pass of the loop extends what has been computed by one more drop |
| StormNewAnimation.Land | app/stormnew.py:341-350 | a landing adds its column to the absorbed splashes and to the started effects |
| StormNewAnimation.PuddlesPass | app/stormnew.py:361-384 | the body of `_update_puddles` gives `Tick` of the puddles |
| StormNewAnimation.Start | app/stormnew.py:268-274 | a terminal under four rows is refused; otherwise a new valid animation holds the initialised state |
| StormDict.ResetDrop | app/storm.py:187-197 | the drop keeps its glyph and lands on a whole column. From the side (wind stronger than the threshold and the 0.7 chance taken) it is on a row of the storm area, left of the screen in `[-int(abs(w)) - 3, -1]` for wind to the right, right of it in `[width, width + int(abs(w)) + 2]` otherwise; from the top it is on row 0 in `[0, width - 1]` |
| StormDict.FallD | app/storm.py:162-177 | a splash is reported exactly when the new row reaches the splash line, at a column within 0.5 of the drifted position; a splashing drop, or one outside the band `(-1, width + 1)`, is `ResetDrop` of its moved state; any other drop moves one row down and drifts, taking the frame's glyph |
| StormDict.Splashed | app/storm.py:172-174 | a missing column gets a new entry at the end of the dict, one column wide at `x`, holding one splash's worth; an existing one gains a splash's worth up to `PUDDLE_MAX_INTENSITY + 0.9`; every other entry is unchanged, and the dict stays well formed |
| StormDict.Soak | app/storm.py:162-174 | pouring a sequence of splashes keeps the dict well formed |
| StormDict.SoakSnoc | app/storm.py:162-174 | one more splash is one more `Splashed` after the earlier ones |
| StormDict.SoakKeys | app/storm.py:172-174 | the keys afterwards are exactly the old keys and the splash columns, the old keys first in their old order, and a column no splash hit keeps its puddle |
| StormDict.SoakIntensity | app/storm.py:174 | after `n >= 1` splashes at `x` the puddle there holds the smaller of the cap and its old water (none for a new puddle) plus `n` portions |
| StormDict.SoakOk | app/storm.py:169-174 | splashes on the screen keep every puddle on the screen, with water in range and a width of one or more |
| StormDict.Evaporated | app/storm.py:207-208 | one frame of evaporation always removes some water, for any storm intensity in `[0, 1]` |
| StormDict.SpreadWidth | app/storm.py:210-215 | the width is between 1 and `PUDDLE_MAX_WIDTH_PER_POINT`; 1 up to the spread threshold, and above it `min(PUDDLE_MAX_WIDTH_PER_POINT, 1 + int(i / threshold))` |
| StormDict.Dry | app/storm.py:199-217 | the new dict is well formed and holds exactly the visited keys whose puddle keeps water |
| StormDict.DryEntries | app/storm.py:204-217 | the new dict lists the visited survivors in visiting order, each holding its own puddle's evaporated water and spread width: no puddle merges or moves |
| StormDict.DryOk | app/storm.py:210-216 | every survivor holds some water and no more than before, and its width follows its water |
| StormDict.DriftD | app/storm.py:222-234 | width and picture never change; a cloud whose rounded column reaches the right edge restarts at minus its width on a row of `[minY, hi]`; one wholly past the left edge restarts in the last column on such a row; any other cloud moves by `step` and keeps its row |
| StormDict.DriftLayerD | app/storm.py:222-234 | every cloud of the layer, and only those, is `DriftD`, in order |
| StormDict.UpdateCloudsLayer | app/storm.py:220-234 | the loop's result is `DriftLayerD` with the step `base_speed` signed by the wind's direction plus `wind * wind_factor` |
| StormDict.NewCloudD | app/storm.py:124-135 | a new cloud has a width in `[minW, maxW]`, a picture of that many cloud glyphs, a column in `[-width, WIDTH - 1]` and a row in `[lo, hi]` |
| StormDict.MakeLayer | app/storm.py:124-135 | the loop builds exactly `n` clouds, cloud `i` being `NewCloudD` of draw `i` |
| StormDict.LayerRows | app/storm.py:127-133 | each layer's rows form a non-empty range inside the storm area |
| StormDict.InitializeGlobalStructures | app/storm.py:108-135 | on any terminal size: the initialiser raises exactly below two rows, where the background clouds' row range `[0, STORM_AREA_HEIGHT // 5]` is empty; otherwise empty drops, splashes and dict, quiet timers, zero intensity and wind, and the configured number of clouds in each layer, each a `NewCloudD` with the layer's widths and rows; the world is well formed exactly when the terminal has at least three rows and one column |
| StormDict.FirstParamsRaises | app/storm.py:150-155 | on a started terminal of two rows or no columns, the first `update_storm_parameters` enters the spawning loop, and its first drop's `randint(0, WIDTH - 1)` or `randint(0, STORM_AREA_HEIGHT - 1)` has an empty range, so the program raises |
| StormDict.Spawned | app/storm.py:153-155 | a spawned drop is on the storm area in the given glyph |
| StormDict.Spawns | app/storm.py:152-155 | exactly `n` spawned drops, drop `i` from draw `i` |
| StormDict.Resized | app/storm.py:152-157 | the list has exactly `n` drops; a short list keeps its drops as a prefix, a long one keeps a sub-multiset of its drops |
| StormDict.UpdateStormParameters | app/storm.py:137-157 | intensity, wind, rain glyph and target follow the storm intensity and gust, the drop list is `Resized` to the target (between the configured minimum and maximum), nothing else changes and the world stays well formed |
| StormDict.ResizeDrops | app/storm.py:152-157 | the two loops leave `Resized` of the list |
| StormDict.SpawnDrops | app/storm.py:152-155 | a short list gets exactly the missing spawns appended; a long one is unchanged |
| StormDictFrame.LandedD | app/storm.py:167-170 | at most one splash per drop, every splash column on the screen |
| StormDictFrame.RainStep | app/storm.py:160-185 | only drops, dict and splashes change, the drop count is kept and the world stays well formed |
| StormDictFrame.RainStepSplashes | app/storm.py:169-174 | every splash landing on the screen leaves a puddle at its column and a splash effect there on the splash line |
| StormDictFrame.RainStepMoves | app/storm.py:162-176 | a drop that neither reaches the splash line nor leaves the band moves one row down and the wind's drift across, in the frame's glyph |
| StormDictFrame.UpdateRainAndSplashes | app/storm.py:160-185 | the method's result is `RainStep` |
| StormDictFrame.DropFalls | app/storm.py:162-177 | one pass extends the loop invariant from drop `i` to `i + 1` |
| StormDictFrame.Land | app/storm.py:169-174 | the dict is `Soak` of the splashes so far plus this one, and the effects are the old ones plus one per such splash |
| StormDictFrame.Pour | app/storm.py:172-174 | the dict update is `Splashed` |
| StormDictFrame.AgeSplashes | app/storm.py:180-185 | the loop leaves the effects that had more than one frame left, each one frame older, in order |
| StormDictFrame.SortedKeys | app/storm.py:202 | every key of the dict exactly once, in increasing order |
| StormDictFrame.PuddleStep | app/storm.py:199-217 | only the dict changes and the world stays well formed |
| StormDictFrame.DryAscending | app/storm.py:202-216 | visiting keys in increasing order leaves a dict whose keys are increasing |
| StormDictFrame.AscendingSnoc | app/storm.py:216 | appending a larger key keeps the keys increasing |
| StormDictFrame.PuddleStepOrdered | app/storm.py:199-217 | afterwards the keys are increasing, and a column is kept exactly when its puddle kept some water |
| StormDictFrame.UpdatePuddles | app/storm.py:199-217 | the method's result is `PuddleStep` |
| StormDictFrame.Evaporate | app/storm.py:204-216 | one pass extends the new dict to `Dry` of the keys visited so far, which are distinct |
| StormDictFrame.DriftLayerDOk | app/storm.py:229-234 | a drifted layer keeps its clouds on the layer's rows |
| StormDictFrame.CloudsOk | app/storm.py:236-238 | drifting both layers keeps the world well formed |
| StormDictFrame.UpdateAllClouds | app/storm.py:236-238 | both layers are drifted with their own steps and rows, nothing else changes, and the world stays well formed |
| StormDictSky.GenerateBoltPath | app/storm.py:240-253 | the path is the reference `BoltRows`: one point per row from `y_start` to `y_end`, clamped to the screen |
| StormDictSky.Visible | app/storm.py:273 | a cloud is kept exactly when some of its columns are on the screen |
| StormDictSky.FilterKeeps | app/storm.py:273 | a filter keeps every element that passes |
| StormDictSky.StartD | app/storm.py:274-281 | the start column is on the screen and the start row is not negative |
| StormDictSky.BranchD | app/storm.py:298-306 | one branch draw adds at most one path |
| StormDictSky.BranchesD | app/storm.py:296-306 | `n` branch draws add at most `n` paths |
| StormDictSky.NextSkyFails | app/storm.py:283-284 | the step raises exactly when a strike fires from a start row at or below `sah - 2`, where `randint(start + 2, sah - 1)` has an empty range |
| StormDictSky.NextSkyTotal | app/storm.py:274-284 | on a storm area of five rows or more the step never raises |
| StormDictSky.NextSkyRaises | app/storm.py:274-284 | on a six-row terminal a strike from a foreground cloud on row 1 raises |
| StormDictSky.NoStrikeDuringRumble | app/storm.py:257-264 | with two or more rumble or flicker frames left no strike fires and only the timers move |
| StormDictSky.BranchDShape | app/storm.py:298-306 | with a length factor from `[0.5, 1.0]`, every branch has two or more points, leaves a point of the main bolt other than its first and last, descends one row per point with steps of at most two columns, and ends above the main bolt's last row |
| StormDictSky.BranchesDShape | app/storm.py:296-306 | every branch of a strike is such a branch of the main bolt |
| StormDictSky.StrikeShape | app/storm.py:264-306 | a strike restarts the timers, picks a caption from the list, and records the main bolt first, from the capped start down to a row inside the storm area, at least three points long; every later path is a branch of it |
| StormDictSky.AddBranches | app/storm.py:296-306 | the loop appends exactly `BranchesD` |
| StormDictSky.TryBranch | app/storm.py:298-306 | one pass adds exactly `BranchD` |
| StormDictSky.UpdateLightning | app/storm.py:255-306 | the method raises exactly when `NextSky` does, and otherwise changes only the lightning globals, to `NextSky` |
| StormDictSky.StrikeSkySome | app/storm.py:284-306 | when the end row's range is not empty the strike records the main bolt and then its branches |
| StormDictSky.Strike | app/storm.py:264-306 | the method's result is `StrikeSky` |
| StormDictDraw.CloudWritesD | app/storm.py:315-324 | a cloud's writes are all in the colour it is drawn in (the layer's, or the flash colour) |
| StormDictDraw.LayerWritesD | app/storm.py:315-324 | a layer's writes are all in the colour it is drawn in |
| StormDictDraw.RainWritesD | app/storm.py:327-328 | one write per drop, in order, at its rounded column and row in its glyph |
| StormDictDraw.BoltWritesD | app/storm.py:331-334 | the bolt writes are all in the colour they are drawn in (the bolt colour, or the flash colour) |
| StormDictDraw.SpanWritesD | app/storm.py:342-346 | the span's writes are on the screen, on the line, outside the already drawn columns, inside the span, left to right |
| StormDictDraw.SpanWritesAll | app/storm.py:342-346 | every column of the span that is on the screen and not yet drawn is written |
| StormDictDraw.ClaimWritesD | app/storm.py:337-346 | every puddle write is on the screen, on the splash line, in the puddle colour |
| StormDictDraw.ClaimOnce | app/storm.py:337-346 | no column is written twice |
| StormDictDraw.ClaimCovered | app/storm.py:338-346 | every on-screen column some puddle covers is written |
| StormDictDraw.ClaimFirst | app/storm.py:338-346 | each written column is written by the first puddle in dict order that covers it, in that puddle's glyph |
| StormDictDraw.ClaimedBy | app/storm.py:338-346 | the first covering puddle writes the column and no other write aims at it |
| StormDictDraw.DrawPuddles | app/storm.py:337-346 | the loop's writes are `ClaimWritesD` |
| StormDictDraw.DrawSpan | app/storm.py:341-346 | one puddle's span is appended as `SpanWritesD` and the drawn set is the set of written columns |
| StormDictDraw.FlashTintsScene | app/storm.py:310-312 | while the flash lasts every cell of the frame is in the flash colour |
| StormDictDraw.RumbleOnTopD | app/storm.py:353-357 | while the rumble lasts each caption character shows at its column of the rumble row, centred at `(WIDTH - len) // 2` |
| StormDictDraw.SplashOverPuddleD | app/storm.py:349-350 | a splash dot shows over whatever was drawn at its cell |
| StormDictDraw.SplashLineBackdrop | app/storm.py:349-357 | a splash-line column without a splash dot shows what clouds, rain, bolts and puddles left there |
| StormDictDraw.ClaimShown | app/storm.py:338-346 | the puddle writes leave at a column the glyph of the first puddle covering it |
| StormDictDraw.PuddleColumnShown | app/storm.py:337-350 | a splash-line column without a splash dot shows the first covering puddle's glyph, whatever later puddles cover it |
| StormDictDraw.BoltsOnlyWhileFlickeringD | app/storm.py:331 | with the flicker over the frame is the same whatever bolt paths are recorded |
| StormDictDraw.DrawSceneD | app/storm.py:308-357 | the buffer has the terminal's size and each cell shows what the frame's writes, applied in order over the cleared buffer, leave there |
| StormScript.ScriptRainChar | scripts/bin/storm.py:98-104 | the glyph leans right exactly when the wind is above 0.5, left exactly when it is below -0.5, and is upright exactly in `[-0.5, 0.5]` |
| StormScript.ScriptRainCharVsApp | scripts/bin/storm.py:98-104 | this rule and the one of `app/storm.py` differ exactly at a wind of 0.5 or -0.5, where this one stays upright and the other leans |
| StormScript.UpdateStormParameters | scripts/bin/storm.py:135-151 | intensity, wind, target and drop list change as in `app/storm.py`, the rain glyph follows `ScriptRainChar`, nothing else changes, the drop count equals the target and the world stays well formed |
| StormScript.Older | scripts/bin/storm.py:181-182 | every effect, in order, with one frame less |
| StormScript.FilterThenAge | scripts/bin/storm.py:180-182 | keeping the splashes with `life - 1 > 0` and then decrementing ages them exactly as decrementing and keeping the live ones does |
| StormScript.AgeSplashes | scripts/bin/storm.py:180-182 | the filter and the in-place decrement leave `AgeEffects` of the splashes |
| StormScript.UpdateRainAndSplashes | scripts/bin/storm.py:164-182 | the step equals the rain step of `app/storm.py` |
| StormScript.PuddleStep | scripts/bin/storm.py:184-196 | the world stays well formed |
| StormScript.PuddleStepKeeps | scripts/bin/storm.py:184-196 | the new dict lists, in the old key order, exactly the keys whose puddle keeps water, each holding its own evaporated and spread puddle; nothing merges or moves |
| StormScript.UpdatePuddles | scripts/bin/storm.py:184-196 | the method's result is `PuddleStep` |
| StormScript.UpdateCloudsLayer | scripts/bin/storm.py:198-208 | each cloud drifts as in `app/storm.py`, wrapping onto rows `[min_y_pos, sah // max(1, max_y_divisor)]` |
| StormScript.CloudRows | scripts/bin/storm.py:198-208 | a cloud either ends on a row of the wrap range or keeps its row and moves by the step |
| StormScript.UpdateAllClouds | scripts/bin/storm.py:210-212 | the foreground wraps onto rows `[sah/6, sah/3]`, the background onto `[0, sah/5]`, nothing else changes and the world stays well formed |
| StormScript.DrawScene | scripts/bin/storm.py:271-306 | the buffer has the terminal's size and shows the frame of `app/storm.py` with the white flash background |
| StormScriptSky.PlainDeviation | scripts/bin/storm.py:220 | a deviation is the drawn integer in `[-max_deviation, max_deviation]` |
| StormScriptSky.PlainDescends | scripts/bin/storm.py:214-223 | a path from an on-screen point descends one row per point, each step at most `max_deviation` columns sideways |
| StormScriptSky.PlainStep | scripts/bin/storm.py:219-222 | one step moves at most `max_deviation` columns |
| StormScriptSky.GenerateBoltPath | scripts/bin/storm.py:214-223 | the loop's path is the reference `BoltRows` with plain deviations: one point per row, clamped to the screen |
| StormScriptSky.StrikeTimers | scripts/bin/storm.py:232-254 | every strike restarts flicker and flash and starts a rumble of allowed length with a caption from the list; it records no bolt exactly when `y_end_min >= y_end_max` |
| StormScriptSky.ScriptStrikeShape | scripts/bin/storm.py:250-269 | with room, the main bolt comes first, starts at the uncapped start point, has three or more points, one per row, steps of at most one column, and ends on a row in `[start + 2, sah - 1]`; every later path is a branch of it |
| StormScriptSky.MainBranches | scripts/bin/storm.py:260-269 | the branches of a strike are branches of its main bolt |
| StormScriptSky.ScriptNoStrikeDuringRumble | scripts/bin/storm.py:227-232 | with two or more rumble or flicker frames left only the timers move |
| StormScriptSky.FlashWithoutBolt | scripts/bin/storm.py:250-253 | on a six-row terminal with a foreground cloud on row 1, where `app/storm.py` raises, this program flashes and rumbles with no bolt |
| StormScriptSky.TryBranch | scripts/bin/storm.py:263-269 | one pass adds exactly the branch of its draw |
| StormScriptSky.AddBranches | scripts/bin/storm.py:261-269 | the loop appends exactly the branches of its draws, in order |
| StormScriptSky.Strike | scripts/bin/storm.py:233-269 | the method's result is `ScriptStrike` |
| StormScriptSky.ScriptStrikeRoomy | scripts/bin/storm.py:254-269 | with room, the strike records the main bolt to the drawn end row and then, for a complex strike, its branches |
| StormScriptSky.UpdateLightning | scripts/bin/storm.py:225-269 | only the lightning globals change, to `ScriptNextSky`, and the step never raises |
| UsbAnalyzer.UsbInAppend | scripts/bin/usb_analyzer.py:54-61 | the walk of a device list splits at any point of the list |
| UsbAnalyzer.UsbInSnoc | scripts/bin/usb_analyzer.py:55-61 | one more device adds itself when it or a parent uses USB, then what its children add under that flag |
| UsbAnalyzer.RecurseDevices | scripts/bin/usb_analyzer.py:54-61 | the recursive loop appends exactly the USB walk of its devices to the list being built |
| UsbAnalyzer.FindUsbDevices | scripts/bin/usb_analyzer.py:45-64 | no data, or data without `blockdevices`, gives an empty list; otherwise the USB walk of the whole tree |
| UsbAnalyzer.Devices | scripts/bin/usb_analyzer.py:55 | the devices of a walk, one per entry, in order |
| UsbAnalyzer.DevicesAppend | scripts/bin/usb_analyzer.py:55 | the devices of two walks joined are the two device lists joined |
| UsbAnalyzer.AnyUsbSnoc | scripts/bin/usb_analyzer.py:56 | a line of ancestors extended by a device is on USB exactly when the line was or the device's transport is `usb` |
| UsbAnalyzer.UsbInIsUsbLines | scripts/bin/usb_analyzer.py:54-63 | the devices found are exactly the devices, in pre-order, that use USB or hang below one that does, each once |
| UsbAnalyzer.FindsTestStick | scripts/bin/test_usb_analyzer.py:13-40 | on the tree of the unit test (SATA disk `sda` with `sda1`, USB stick `sdb` with `sdb1`) exactly `sdb` and then `sdb1` are found |
| UsbAnalyzer.NameSetSnoc | scripts/bin/usb_analyzer.py:270-274 | the names of a list grown by one device are the old names plus its name |
| UsbAnalyzer.FirstByNameSnoc | scripts/bin/usb_analyzer.py:271-274 | one more device is kept exactly when its name has not been seen |
| UsbAnalyzer.FirstByNameSpec | scripts/bin/usb_analyzer.py:269-274 | de-duplication keeps devices of the list only, no name twice, every name, and every first occurrence of a name |
| UsbAnalyzer.FirstByNameNames | scripts/bin/usb_analyzer.py:269-274 | the kept devices come from the list, no name is kept twice, and every name of the list is kept |
| UsbAnalyzer.FirstByNameKeepsFirst | scripts/bin/usb_analyzer.py:269-274 | every device whose name no earlier device has is kept |
| UsbAnalyzer.ToReport | scripts/bin/usb_analyzer.py:262-267 | the loop keeps, in order, exactly the devices that are mounted or have no children |
| UsbAnalyzer.UniqueByName | scripts/bin/usb_analyzer.py:269-274 | the `seen_names` loop leaves the first device of each name, in order |
| UsbAnalyzer.SelectDevices | scripts/bin/usb_analyzer.py:262-286 | the method's result is the reportable devices, de-duplicated by name and sorted by `get_size` |
| UsbAnalyzer.SelectedOrder | scripts/bin/usb_analyzer.py:280-286 | the selection is sorted by size, smallest first and unparsable sizes last, and is a permutation of the de-duplicated reportable devices |
| UsbAnalyzer.SelectedStable | scripts/bin/usb_analyzer.py:286 | devices of one size keep the order in which they were found |
| UsbAnalyzer.SameNameSameDevice | scripts/bin/usb_analyzer.py:271-274 | two devices of the de-duplicated list with one name are the same device |
| UsbAnalyzer.SelectedNames | scripts/bin/usb_analyzer.py:262-286 | the report names every reportable USB device once, and lists only reportable devices that were found |
| UsbBars.DrawBar | scripts/bin/usb_analyzer.py:171-180 | for a count between 0 and the maximum the bar is `width` cells, full exactly in the first `filled` ones |
| UsbBars.FilledIsDiv | scripts/bin/usb_analyzer.py:176 | the filled cells are the floor of `count * width / max_count` |
| UsbBars.ShareInRange | scripts/bin/usb_analyzer.py:176 | `count / max_count` lies in `[0, 1]` for a count between 0 and a positive maximum |
| UsbBars.FilledInRange | scripts/bin/usb_analyzer.py:173-176 | a count between 0 and the maximum fills between none and all of the cells |
| UsbBars.BarEnds | scripts/bin/usb_analyzer.py:171-180 | the maximum fills the whole bar and 0 none of it |
| UsbBars.BarMonotone | scripts/bin/usb_analyzer.py:176 | a larger count never fills fewer cells |
| UsbScan.Count | scripts/bin/usb_analyzer.py:102-104 | a count of files never exceeds the number of files |
| UsbScan.SeenPairs | scripts/bin/usb_analyzer.py:112-121 | there is at most one `(size, path)` tuple per file |
| UsbScan.CountSnoc | scripts/bin/usb_analyzer.py:103-133 | one more file adds one to the counts it satisfies, its bytes to the sums when readable, and its tuple when readable |
| UsbScan.ReadOrSkipped | scripts/bin/usb_analyzer.py:111-125 | readable and skipped files add up to all files, and there is one tuple per readable file |
| UsbScan.SuffixWithinLanguage | scripts/bin/usb_analyzer.py:127-133 | a language counts at least as many files as any suffix that maps to it |
| UsbScan.StrLessIrreflexive | scripts/bin/usb_analyzer.py:119-121 | no path is smaller than itself in Python's string order |
| UsbScan.StrLessTransitive | scripts/bin/usb_analyzer.py:119-121 | Python's string order is transitive |
| UsbScan.StrLessTotal | scripts/bin/usb_analyzer.py:119-121 | any two different paths are ordered one way or the other |
| UsbScan.NotLessTransitive | scripts/bin/usb_analyzer.py:119-121 | "not smaller than" on `(size, path)` tuples is transitive |
| UsbScan.PairLessAsym | scripts/bin/usb_analyzer.py:119-121 | of two `(size, path)` tuples at most one is smaller than the other |
| UsbScan.RootLeast | scripts/bin/usb_analyzer.py:121 | no tuple of a list in heap order is smaller than its first one |
| UsbScan.SiftDown | scripts/bin/usb_analyzer.py:119 | `heapq._siftdown(heap, 0, pos)` keeps the list's length |
| UsbScan.SiftDownKeeps | scripts/bin/usb_analyzer.py:119 | `_siftdown` only moves tuples: the multiset is unchanged |
| UsbScan.SiftDownHeap | scripts/bin/usb_analyzer.py:119-121 | a list in heap order except at the link from `pos` to its parent is in heap order after `_siftdown` |
| UsbScan.Smaller | scripts/bin/usb_analyzer.py:121 | the child `_siftup` moves up is the left or the right child of `pos`, and exists |
| UsbScan.SiftHole | scripts/bin/usb_analyzer.py:121 | the hole walk of `_siftup` ends at a leaf of the same-length list |
| UsbScan.SiftHoleKeeps | scripts/bin/usb_analyzer.py:121 | the hole walk loses the tuple at its start and doubles the one at its leaf, and changes no other count |
| UsbScan.HoleStep | scripts/bin/usb_analyzer.py:121 | moving the smaller child into the hole keeps every parent link in order, and from the root restores the root's links |
| UsbScan.SiftHoleHeap | scripts/bin/usb_analyzer.py:121 | the hole walk ends with every parent link in order (the root's once it has left the root) |
| UsbScan.SiftUp | scripts/bin/usb_analyzer.py:121 | `heapq._siftup(heap, 0)` keeps the list's length |
| UsbScan.SiftUpKeeps | scripts/bin/usb_analyzer.py:121 | `_siftup` only moves tuples: the multiset is unchanged |
| UsbScan.HeapPush | scripts/bin/usb_analyzer.py:119 | `heappush` (append, then `_siftdown` from the last position) holds the old tuples and the pushed one, one more than before |
| UsbScan.PushHeap | scripts/bin/usb_analyzer.py:119 | a push keeps a list in heap order in heap order |
| UsbScan.HeapPushPop | scripts/bin/usb_analyzer.py:121 | `heappushpop` (the root swapped out for a larger tuple and sifted up, else the tuple returned) keeps the size, and what it keeps plus what it returns is what it held plus the pushed tuple |
| UsbScan.PushPopHeap | scripts/bin/usb_analyzer.py:121 | on a list in heap order `heappushpop` leaves a list in heap order and returns a tuple no larger than any it keeps |
| UsbScan.PushCounts | scripts/bin/usb_analyzer.py:119 | what a push leaves out is what was left out before |
| UsbScan.PushPopCounts | scripts/bin/usb_analyzer.py:121 | what a push and pop leave out is what was left out before plus the popped tuple |
| UsbScan.KeepTop | scripts/bin/usb_analyzer.py:115-121 | the heap step keeps the heap order and the ten largest tuples seen so far |
| UsbScan.PushTop | scripts/bin/usb_analyzer.py:118-119 | below ten a push keeps every tuple seen |
| UsbScan.PushPopTop | scripts/bin/usb_analyzer.py:120-121 | at ten a push and pop on a heap keeps the ten largest |
| UsbScan.HeapedTop | scripts/bin/usb_analyzer.py:115-121 | the list `heapq` builds from the tuples, one at a time, is in heap order and holds the ten largest |
| UsbScan.TopOfFew | scripts/bin/usb_analyzer.py:118-119 | when at most ten files were read the heap holds all of them |
| UsbScan.TopBySize | scripts/bin/usb_analyzer.py:115-121 | a file left out of the heap is no larger than any file kept |
| UsbScan.ExtStep | scripts/bin/usb_analyzer.py:127-129 | one more file keeps the suffix counts true to the files |
| UsbScan.LangStep | scripts/bin/usb_analyzer.py:130-133 | one more file keeps the language counts and byte sums true to the files |
| UsbScan.TallyStep | scripts/bin/usb_analyzer.py:103-133 | one more file keeps every counter true to the files and the heap equal to what `heapq` builds from their tuples |
| UsbScan.ReadStep | scripts/bin/usb_analyzer.py:112-133 | a readable file keeps the suffix and language tallies true to the files, and the heap what `heapq` builds, holding the ten largest |
| UsbScan.CountFile | scripts/bin/usb_analyzer.py:103-133 | the loop body's result is `Tally` of the file |
| UsbScan.RFindLast | scripts/bin/usb_analyzer.py:127 | `rfind` gives the last index holding the character, or -1 when there is none |
| UsbScan.NameShape | scripts/bin/usb_analyzer.py:109-127 | a path's last component has no `/` and ends the path |
| UsbScan.SuffixShape | scripts/bin/usb_analyzer.py:127 | `PurePath.suffix` is empty, or a dot and at least one character, with no other dot and no `/`, that ends the path; it is empty exactly when the last component ends in a dot or has no dot after its first character |
| UsbScan.RFindAt | scripts/bin/usb_analyzer.py:127 | an index holding the character with none after it is what `rfind` finds |
| UsbScan.NameIs | scripts/bin/usb_analyzer.py:109 | the last component of `root/file` is `file` |
| UsbScan.SuffixIs | scripts/bin/usb_analyzer.py:127 | a file named a non-empty stem and one dotted extension has that extension as its suffix |
| UsbScan.SuffixOfDoubleExt | scripts/bin/usb_analyzer.py:127 | `a.tar.gz` has the suffix `.gz` |
| UsbScan.SuffixOfDotFile | scripts/bin/usb_analyzer.py:127 | `.bashrc` has no suffix |
| UsbScan.SuffixOfTrailingDot | scripts/bin/usb_analyzer.py:127 | `x.` has no suffix |
| UsbScan.SuffixOfNoDot | scripts/bin/usb_analyzer.py:127 | `README` has no suffix |
| UsbScan.CountSuffix | scripts/bin/usb_analyzer.py:127-133 | the lower-cased pathlib suffix of the path, when non-empty, is counted, and its language with the file's bytes when the map knows it |
| UsbScan.TopSorted | scripts/bin/usb_analyzer.py:141 | sorting the heap keeps its tuples and orders them largest first |
| UsbScan.AnalyzeFiles | scripts/bin/usb_analyzer.py:66-145 | with the program's suffix map every counter describes the files, and the largest files are the ten largest readable ones, largest first, in the order the stable sort leaves `heapq`'s list |
| UsbScan.ScanFiles | scripts/bin/usb_analyzer.py:100-141 | the walk with any suffix map: every counter describes the files, and the largest files are `heapq`'s list of the ten largest, stably sorted largest first |
| UsbScan.ScanOne | scripts/bin/usb_analyzer.py:103-133 | one file extends the description, and `heapq`'s list, from the files before it |
| UsbScan.EqualSizesInHeapOrder | scripts/bin/usb_analyzer.py:119-141 | files `/m/b` then `/m/a` of five bytes each come out `/m/a` first: the push sifts the smaller tuple to the root and the stable sort keeps it there |
| UsbScan.CountFour | scripts/bin/test_usb_analyzer.py:84-92 | counting over four files is counting each |
| UsbScan.BytesFour | scripts/bin/test_usb_analyzer.py:84-98 | summing over four files is summing each |
| UsbScan.TestSuffixes | scripts/bin/usb_analyzer.py:81-95 | the map gives Python, JavaScript, Image and Markdown for the four suffixes of the integration test |
| UsbScan.TestFileExt | scripts/bin/test_usb_analyzer.py:84-88 | a file `dir/stem.ext` with a lower-case one-dot extension is counted under `.ext` |
| UsbScan.TestExts | scripts/bin/test_usb_analyzer.py:84-88 | the four files of the integration test have the suffixes `.py`, `.js`, `.jpg` and `.md` |
| UsbScan.TestFileCounts | scripts/bin/test_usb_analyzer.py:84-94 | the four files include none skipped and one `.py` |
| UsbScan.TestLanguageCounts | scripts/bin/test_usb_analyzer.py:84-99 | the four files count one each of Python, JavaScript and Image, and no Python bytes |
| UsbScan.ScansTestFiles | scripts/bin/test_usb_analyzer.py:76-99 | any stats describing the four files under such a map show 4 files, none skipped, one `.py`, one each of Python, JavaScript and Image, and 0 Python bytes |
| UsbScan.ScansTestDirectory | scripts/bin/test_usb_analyzer.py:76-99 | the scan of the integration test's four empty files gives exactly the counts the test expects |
| AliasSections.FindFrom | scripts/bin/analyze_aliases_sections.py:57-73 | the result is the first place at or after `from` where the piece occurs, and none means it occurs nowhere from there on |
| AliasSections.EmbedsEarlier | scripts/bin/analyze_aliases_sections.py:57-73 | pieces that fit in order from some place also fit from any earlier place |
| AliasSections.SearchFindsEmbedding | scripts/bin/analyze_aliases_sections.py:57-73 | taking each piece of a `A.*B` pattern at its first occurrence finds a match exactly when the pieces occur in order |
| AliasSections.FirstMatchSpec | scripts/bin/analyze_aliases_sections.py:72-76 | the rule found is the first in dict order whose pattern matches; none is found exactly when no pattern matches |
| AliasSections.HeadOfSpec | scripts/bin/analyze_aliases_sections.py:54-76 | a line is a header exactly when, stripped, it starts with `#` and some pattern matches it, and its rule is the first matching one |
| AliasSections.Heads | scripts/bin/analyze_aliases_sections.py:53-57 | the header rule of every line, one per line |
| AliasSections.NextFrom | scripts/bin/analyze_aliases_sections.py:53-78 | the result is the first header at or after `from`, or the end of the file |
| AliasSections.NextFromIs | scripts/bin/analyze_aliases_sections.py:53-78 | a header at `e` with none between `from` and `e` is the next header |
| AliasSections.Close | scripts/bin/analyze_aliases_sections.py:59-90 | closing the open section keeps the dict well formed |
| AliasSections.ScanNext | scripts/bin/analyze_aliases_sections.py:57-76 | one line keeps the dict well formed and the open section's start at or before it |
| AliasSections.ScanTo | scripts/bin/analyze_aliases_sections.py:52-78 | the loop so far keeps the dict well formed and the open section's start at or before the line reached |
| AliasSections.HeaderSections | scripts/bin/analyze_aliases_sections.py:52-90 | the sections found by headers form a well-formed dict |
| AliasSections.OpenedOk | scripts/bin/analyze_aliases_sections.py:59-69 | the open section, closed at the next header or the end, runs from its header under that header's name, and no later header before then has the name |
| AliasSections.EarlierOk | scripts/bin/analyze_aliases_sections.py:59-76 | a section stored earlier stays the last of its name while only headers of other names follow |
| AliasSections.CloseOk | scripts/bin/analyze_aliases_sections.py:59-90 | closing keeps every stored section the last of its name, keeps every header's name present, and leaves the dict empty exactly when no header was seen |
| AliasSections.ScanToInv | scripts/bin/analyze_aliases_sections.py:52-78 | the header loop keeps its invariant over every prefix of the file |
| AliasSections.HeaderSectionsSpec | scripts/bin/analyze_aliases_sections.py:52-90 | each section runs from a header to the line before the next header or the end, is named by the header's first matching rule and is the last header of that name; every header's name is present; there are none exactly when no line is a header |
| AliasSections.FindRule | scripts/bin/analyze_aliases_sections.py:72-76 | the loop's rule is `FirstMatch` |
| AliasSections.Kind | scripts/bin/analyze_aliases_sections.py:116-137 | a code line asks for `50-git` exactly when it holds a git keyword, `30-package` exactly when it holds a package keyword and no git keyword, `20-system` likewise after both, and nothing exactly when it holds none |
| AliasSections.Switch | scripts/bin/analyze_aliases_sections.py:108-113 | a blank or comment line never switches |
| AliasSections.Switches | scripts/bin/analyze_aliases_sections.py:107-137 | the switch of every line, one per line |
| AliasSections.HeurNext | scripts/bin/analyze_aliases_sections.py:107-139 | one line keeps the dict well formed |
| AliasSections.HeurTo | scripts/bin/analyze_aliases_sections.py:107-139 | the loop so far keeps the dict well formed |
| AliasSections.HeurClose | scripts/bin/analyze_aliases_sections.py:142-143 | recording the final section keeps the dict well formed |
| AliasSections.Heuristic | scripts/bin/analyze_aliases_sections.py:99-145 | the heuristic sections form a well-formed dict |
| AliasSections.RecordOk | scripts/bin/analyze_aliases_sections.py:119-143 | recording a non-empty open section keeps the sections disjoint slices of the file under their own names |
| AliasSections.HeurNextOk | scripts/bin/analyze_aliases_sections.py:107-139 | one line keeps the heuristic loop's invariant |
| AliasSections.HeurToInv | scripts/bin/analyze_aliases_sections.py:107-139 | the heuristic loop keeps its invariant over every prefix of the file |
| AliasSections.HeuristicSpec | scripts/bin/analyze_aliases_sections.py:99-145 | every heuristic section has priority 0, no depends and condition `always`, holds exactly the lines from its start to its end, at least one, under its own name, and no two overlap |
| AliasSections.HeurSwitching | scripts/bin/analyze_aliases_sections.py:107-139 | a line that switches to another section opens it from that line with only that line; any other line joins the open section |
| AliasSections.Analyze | scripts/bin/analyze_aliases_sections.py:21-97 | the result is a well-formed dict |
| AliasSections.AnalyzeFallsBack | scripts/bin/analyze_aliases_sections.py:92-95 | with no header line the result is the heuristic sections, and with one it is the header sections |
| AliasSections.AnalyzeAliasesFile | scripts/bin/analyze_aliases_sections.py:21-97 | the method's result is `Analyze` |
| AliasSections.ScanHeaders | scripts/bin/analyze_aliases_sections.py:52-78 | the `while` loop ends in the state `ScanTo` gives for the whole file |
| AliasSections.HeaderRule | scripts/bin/analyze_aliases_sections.py:54-76 | the header test for line `i` gives that line's header rule |
| AliasSections.HeaderLine | scripts/bin/analyze_aliases_sections.py:57-76 | one pass of the loop body is `ScanNext` |
| AliasSections.AnalyzeByContentHeuristics | scripts/bin/analyze_aliases_sections.py:99-145 | the method's result is `Heuristic` |
| AliasSections.HeuristicLine | scripts/bin/analyze_aliases_sections.py:108-139 | one pass of the loop body is `HeurNext` with the line's switch |
| AliasSections.Items | scripts/bin/analyze_aliases_sections.py:164-180 | one section per key, in dict order |
| AliasSections.ListingSpec | scripts/bin/analyze_aliases_sections.py:180 | the printed listing is sorted by priority, is a permutation of the sections, and keeps dict order among sections of one priority |
| AliasSections.FromHeaderCount | scripts/bin/analyze_aliases_sections.py:61-69 | a section opened by a header holds `end - start + 1` lines, at least one |
| AliasSections.HeaderLineCounts | scripts/bin/analyze_aliases_sections.py:52-90 | every header section holds `end - start + 1` lines, at least its header line |
| AliasSections.LineCountsAgree | scripts/bin/analyze_aliases_sections.py:171-181 | the line count written to the JSON, `len(content)`, equals the printed `end_line - start_line + 1` for every section, and is at least 1 |
| SplitAliases.PrefixesShape | app/split_aliases.py:12 | each of the fifteen removed prefixes is two digits and a hyphen |
| SplitAliases.RemoveFromDigitFree | app/split_aliases.py:12 | a name without digits comes out of the `.replace` chain unchanged |
| SplitAliases.ReplaceOther | app/split_aliases.py:12 | a prefix followed by a digit-free text holds no other prefix, so replacing another one changes nothing |
| SplitAliases.ReplaceSelf | app/split_aliases.py:12 | removing a prefix from itself followed by a digit-free text leaves that text |
| SplitAliases.ReplaceInside | app/split_aliases.py:12 | one `.replace` on a digit-free text with one prefix inside removes it when it is that prefix and changes nothing otherwise |
| SplitAliases.RemoveFromInside | app/split_aliases.py:12 | the rest of the chain removes the inner prefix, wherever it stands, exactly when it is one of the prefixes still to come |
| SplitAliases.ModuleNameRemoves | app/split_aliases.py:12 | the module name drops a priority prefix from anywhere in a digit-free name, not only its front, and leaves a digit-free name alone |
| SplitAliases.RemoveFromChars | app/split_aliases.py:12 | removing prefixes adds no character to a name |
| SplitAliases.DependsLineNone | app/split_aliases.py:13 | the depends line reads `none` exactly for no dependencies or the single dependency `none` |
| SplitAliases.JoinChars | app/split_aliases.py:13 | `', '.join` of parts without a character holds no such character |
| SplitAliases.LoadWhenRoundTrip | app/split_aliases.py:14 | the load line is `always` exactly for the condition `always`, and the condition can be read back from it |
| SplitAliases.RuleIsComment | app/split_aliases.py:16-20 | the ruler line is a comment without a newline |
| SplitAliases.LinesOfSplit | app/split_aliases.py:16-22 | the six header lines, written with newlines, split back into themselves: five comment lines and a blank one |
| SplitAliases.HeaderSplits | app/split_aliases.py:10-22 | for a name, condition and dependencies without newlines, the header is five comment lines and a blank line |
| SplitAliases.ModuleNameOneLine | app/split_aliases.py:12 | a name without newlines gives a module name without newlines |
| SplitAliases.LoadWhenOneLine | app/split_aliases.py:14 | a condition without newlines gives a load line without newlines |
| SplitAliases.DependsLineOneLine | app/split_aliases.py:13 | the depends line is a comment without newlines when the dependencies have none |
| SplitAliases.LabelsAreComments | app/split_aliases.py:13-19 | the labels of the header lines are comments without newlines |
| SplitAliases.CommentLine | app/split_aliases.py:17-18 | a comment label followed by a value without newlines is one comment line |
| SplitAliases.LeadRun | app/split_aliases.py:30-37 | the run is within the lines and the budget, all comment lines, and stops at a code line unless the lines or budget ran out |
| SplitAliases.KeptAll | app/split_aliases.py:36-39 | once the header is over every line is kept |
| SplitAliases.KeptHeader | app/split_aliases.py:30-39 | while the header lasts, the marked lines of the leading comment run (within the budget left) are dropped and every later line kept |
| SplitAliases.HeadCounted | app/split_aliases.py:32-35 | a comment line within the budget is kept unless marked and lengthens the leading run by one |
| SplitAliases.HeadOver | app/split_aliases.py:36-37 | any other line ends the header and is kept, with everything after it |
| SplitAliases.HeaderStep | app/split_aliases.py:32-39 | filtering a run of one more line is the first line's fate followed by the rest's |
| SplitAliases.ProcessedSpec | app/split_aliases.py:24-47 | a later module keeps all its lines; the first drops the marked lines of its leading comment run, at most 15 lines; the kept text is right-stripped, then a blank line and the `return 0` footer |
| SplitAliases.KeptStep | app/split_aliases.py:30-39 | one line of the loop drops it only when it is a marked comment line still inside the header, and then updates the two counters |
| SplitAliases.ProcessContent | app/split_aliases.py:24-47 | the method's result is `Processed` |
| SplitAliases.SliceBound | app/split_aliases.py:78 | Python's reading of a slice bound lies within the list |
| SplitAliases.PySlice | app/split_aliases.py:78 | in-range bounds give the ordinary slice, crossed bounds give nothing, and the slice is never longer than the list |
| SplitAliases.SectionsOf | app/split_aliases.py:70-79 | one section per metadata key, in key order, each sliced `all_lines[start:end + 1]` |
| SplitAliases.OrderedSpec | app/split_aliases.py:87 | the written order is sorted by priority, is a permutation of the sections, and keeps the metadata order within a priority |
| SplitAliases.SliceSections | app/split_aliases.py:70-79 | the loop's result is `SectionsOf` |
| SplitAliases.SplitModules | app/split_aliases.py:70-104 | one file per section, the `i`-th being the header and processed content of the `i`-th section in priority order, with only the first treated as the file's head |
| SplitAliases.WriteModules | app/split_aliases.py:89-104 | one file per sorted section, named `<name>.aliases`, holding its header and processed content |
| SplitAliases.FileFor | app/split_aliases.py:90-104 | the file written for a section is `ModuleFileFor` of it |
| ShellConfig.IndexFrom | analyze_shell_config.py:29 | the position of the first `=` (or newline) at or after a start, or the end of the line when there is none: the `[^=]+` and `.+` runs of the alias expression |
| ShellConfig.SpaceEnd | analyze_shell_config.py:29 | the end of the whitespace run from a start: every character before it is whitespace and the one at it is not |
| ShellConfig.RStripCons | analyze_shell_config.py:22 | right-stripping a text with one more character in front keeps that character unless everything after it strips away and it is itself whitespace |
| ShellConfig.StripSpaces | analyze_shell_config.py:31 | leading whitespace in front of a text does not change what `strip()` leaves |
| ShellConfig.AliasMatchSpec | analyze_shell_config.py:29-32 | the alias recogniser accepts a stripped line exactly when `alias\s+([^=]+)=(.+)` matches its start, and for every way the expression can split the line the result is the two stripped groups |
| ShellConfig.AliasGroups | analyze_shell_config.py:29-32 | any split the alias expression makes yields the stripped name and value the recogniser returns |
| ShellConfig.AliasMatchAt | analyze_shell_config.py:29-32 | once the first `=` after `alias` and the end of the value are known, the match is the stripped text between `alias` and `=` and the stripped text after `=` |
| ShellConfig.IndexAt | analyze_shell_config.py:29 | the first occurrence search returns a position exactly when no earlier occurrence lies between the start and it |
| ShellConfig.AliasName | analyze_shell_config.py:29-31 | the whitespace that `\s+` consumes does not change the stripped name group |
| ShellConfig.IdentEnd | analyze_shell_config.py:40 | the end of the run of `[a-zA-Z0-9_-]` characters from a start: what the greedy star takes |
| ShellConfig.FuncMatchSpec | analyze_shell_config.py:40-42 | the function recogniser finds a name exactly when `([a-zA-Z_][a-zA-Z0-9_-]*)\s*\(\s*\)\s*\{` matches the start of the line, and the name is the group the expression captures, for every way it can match |
| ShellConfig.FuncGroups | analyze_shell_config.py:40-42 | any way the function expression matches captures the name the recogniser returns |
| ShellConfig.SpaceRun | analyze_shell_config.py:40 | a whitespace run followed by a non-whitespace character is exactly what `\s*` consumes |
| ShellConfig.AliasEntries | analyze_shell_config.py:21-37 | one entry per line, entry `i` being the alias that line `i + 1` adds (none for empty, comment and non-matching lines) |
| ShellConfig.FuncEntries | analyze_shell_config.py:21-46 | one entry per line, entry `i` being the function that line `i + 1` adds |
| ShellConfig.Fill | analyze_shell_config.py:33-46 | filling a dict with `d[k] = v` entry by entry leaves a well-formed insertion-ordered dict |
| ShellConfig.FillStep | analyze_shell_config.py:21-46 | one more line either leaves the dict as it was or performs one `d[k] = v` |
| ShellConfig.FillEntries | analyze_shell_config.py:33-46 | the entries of the filled dict are those of the same assignments made on a plain map |
| ShellConfig.FillLastWins | analyze_shell_config.py:33-46 | a key is in the filled dict exactly when some entry names it, and then it holds the value of the last entry naming it |
| ShellConfig.FillHas | analyze_shell_config.py:33-46 | a key is filled exactly when some entry names it |
| ShellConfig.FillLast | analyze_shell_config.py:33-46 | a filled key holds the value of an entry for it after which no entry names it again |
| ShellConfig.AliasesLastWins | analyze_shell_config.py:12-48 | an alias is in the result exactly when some line defines it, and it holds the value, line number and stripped text of the last such line |
| ShellConfig.FunctionsLastWins | analyze_shell_config.py:12-48 | a function is in the result exactly when some line defines it, and it holds the line number and text of the last such line |
| ShellConfig.ExtractAliases | analyze_shell_config.py:12-48 | the loop over the newline-split text returns exactly the alias and function dicts that the line-by-line definition gives, and so inherits the last-definition-wins properties |
| ShellConfig.InsertIsPut | analyze_shell_config.py:113 | storing a name the dict lacks appends it to the key order |
| ShellConfig.PassValid | analyze_shell_config.py:104-124 | a pass of the duplicate check leaves a well-formed dict |
| ShellConfig.Missing | analyze_shell_config.py:104-124 | a name is among those a pass adds exactly when it is visited and was not there before |
| ShellConfig.MissingSame | analyze_shell_config.py:129-140 | two dicts holding the same visited names miss the same ones |
| ShellConfig.MissingAll | analyze_shell_config.py:104-113 | against an empty dict every visited name is new |
| ShellConfig.PassSpec | analyze_shell_config.py:104-124 | a pass keeps every earlier entry, adds each new name after the old ones with its record located in the file, holds no other name, and records one duplicate for each visited name that was already present |
| ShellConfig.PassEntries | analyze_shell_config.py:104-124 | the dict a pass leaves: old names then new ones in visiting order, old entries kept, new ones recorded |
| ShellConfig.PassMembers | analyze_shell_config.py:104-124 | a pass holds the old names and the visited ones, and no other |
| ShellConfig.PassKeeps | analyze_shell_config.py:105-111 | a name already present is never overwritten: the first definition wins |
| ShellConfig.PassAdds | analyze_shell_config.py:112-113 | each visited name that was absent is stored with the record located in the file being read |
| ShellConfig.PassKeys | analyze_shell_config.py:104-124 | the key order after a pass is the old order followed by the new names in visiting order |
| ShellConfig.PassRecords | analyze_shell_config.py:105-111 | the duplicates of a pass are read off the dict as it was before the pass: a name added by the same pass is never reported against itself |
| ShellConfig.NoDupsAgainstNothing | analyze_shell_config.py:104-113 | a pass against an empty dict records no duplicate |
| ShellConfig.AllAliasesSpec | analyze_shell_config.py:100-124 | `all_aliases` lists the `.aliases` names then the new `.zshrc` names, holds each name's first definition located in its file, and the duplicates are exactly the `.zshrc` aliases `.aliases` already defines |
| ShellConfig.AllAliasKeys | analyze_shell_config.py:100-124 | the names of `all_aliases` are those of `.aliases`, then the `.zshrc` names `.aliases` lacks |
| ShellConfig.AllAliasValues | analyze_shell_config.py:100-124 | each entry of `all_aliases` is the `.aliases` definition when there is one and the `.zshrc` one otherwise |
| ShellConfig.AllAliasDups | analyze_shell_config.py:115-122 | the alias duplicates are those the `.zshrc` loop finds against `.aliases` |
| ShellConfig.AllAliasesValid | analyze_shell_config.py:100-124 | `all_aliases` is a well-formed dict |
| ShellConfig.FirstAliasPass | analyze_shell_config.py:104-113 | the `.aliases` loop fills `all_aliases` with every alias of the file, in order, and records no duplicate |
| ShellConfig.FirstAliasKeys | analyze_shell_config.py:104-113 | the `.aliases` loop lists the names of `.aliases` in order |
| ShellConfig.FirstAliasEntries | analyze_shell_config.py:104-113 | the `.aliases` loop records every alias of `.aliases`, located there |
| ShellConfig.FirstAliasNoDups | analyze_shell_config.py:104-111 | the duplicate branch of the `.aliases` loop is never taken |
| ShellConfig.Load | analyze_shell_config.py:129-130 | the unchecked `.aliases` function loop leaves a well-formed dict |
| ShellConfig.LoadSpec | analyze_shell_config.py:129-130 | loading the `.aliases` functions into an empty dict lists them in order, each located in `.aliases` |
| ShellConfig.AllFunctionsSpec | analyze_shell_config.py:127-140 | `all_functions` lists the `.aliases` functions then the new `.zshrc` ones, holds each first definition, and function duplicates are exactly the `.zshrc` functions `.aliases` already defines |
| ShellConfig.ReadLinesJoin | analyze_shell_config.py:54-55 | the lines `readlines()` gives, each keeping its newline, join back to the file's text |
| ShellConfig.PathEnd | analyze_shell_config.py:69-71 | the end of what a greedy `[^"\s]+` takes: every character before it is a path character and the one at it is not |
| ShellConfig.SegEnd | analyze_shell_config.py:70 | the end of what a greedy `[^"\s/]+` takes |
| ShellConfig.PathRun | analyze_shell_config.py:69-71 | every character the path run passes over is a path character |
| ShellConfig.SegRun | analyze_shell_config.py:70 | every character the segment run passes over is a segment character |
| ShellConfig.LeadAtSlice | analyze_shell_config.py:68-72 | the fixed lead of an expression is at a position exactly when the slice there equals it |
| ShellConfig.MatchEnd | analyze_shell_config.py:74-76 | a match starting at a position, when there is one, is non-empty and ends inside the line |
| ShellConfig.MatchShape | analyze_shell_config.py:68-76 | a match found at a position has the shape of its expression: the lead, then the runs the expression demands |
| ShellConfig.SegmentShape | analyze_shell_config.py:68-76 | a match of an expression with a directory segment is the lead, segment characters, a slash, then path characters |
| ShellConfig.PlainShape | analyze_shell_config.py:68-76 | a match of an expression without a segment is the lead followed by path characters only |
| ShellConfig.FindIterShape | analyze_shell_config.py:74-76 | every path `finditer` reports has the shape of the expression it was found with |
| ShellConfig.PathEndReaches | analyze_shell_config.py:68-71 | a run of path characters is taken whole by the greedy path run |
| ShellConfig.SegEndAt | analyze_shell_config.py:69 | the segment run stops exactly at the first character that is not a segment character |
| ShellConfig.MatchComplete | analyze_shell_config.py:68-76 | every text of the expression's shape starting at a position is found there, and the match found is at least as long, so it is the longest |
| ShellConfig.SegmentFound | analyze_shell_config.py:69 | a text of the segment expression's shape is found, ending where the greedy path run after its slash ends |
| ShellConfig.PlainFound | analyze_shell_config.py:68-71 | a text of a plain expression's shape is found, ending where the greedy path run after the lead ends |
| ShellConfig.FindIterLeftmost | analyze_shell_config.py:73-75 | `finditer` first reports the longest match at the leftmost position where a text of the shape starts, then goes on from its end |
| ShellConfig.FindIterEmpty | analyze_shell_config.py:73-75 | `finditer` reports nothing exactly when no text of the shape starts anywhere from the position on |
| ShellConfig.Found | analyze_shell_config.py:68-76 | one list of matches per expression |
| ShellConfig.FoundAt | analyze_shell_config.py:74-75 | list `i` of matches is what `finditer` gives for expression `i` |
| ShellConfig.FoundStep | analyze_shell_config.py:74-75 | one more expression adds its matches after those of the earlier ones |
| ShellConfig.CommentMatches | analyze_shell_config.py:77 | a comment line gives no record for any match |
| ShellConfig.CommentLists | analyze_shell_config.py:74-84 | a comment line gives no record for any of the expressions |
| ShellConfig.PlainMatches | analyze_shell_config.py:76-84 | any other line gives one record per match, carrying the matched path, in order |
| ShellConfig.ListStep | analyze_shell_config.py:74-84 | the records for one more expression follow those for the expressions before it |
| ShellConfig.PlainLists | analyze_shell_config.py:74-84 | a line that is not a comment gives one record per match of the three expressions, expression by expression |
| ShellConfig.LineRecordsSpec | analyze_shell_config.py:57-84 | a comment line yields no record; any other line yields the `/home/me/` record when it holds that text, then one record per match of each expression in order |
| ShellConfig.AddMatches | analyze_shell_config.py:76-84 | the innermost loop appends exactly the records of one expression's matches |
| ShellConfig.AddLine | analyze_shell_config.py:57-84 | one pass of the outer loop appends exactly the records of that line |
| ShellConfig.AddPatterns | analyze_shell_config.py:74-84 | the loop over the expressions appends the records of each expression in turn |
| ShellConfig.PatternStep | analyze_shell_config.py:74-84 | the records up to expression `q` followed by those of expression `q` are the records up to `q + 1` |
| ShellConfig.FindHardcodedPaths | analyze_shell_config.py:50-86 | the scan returns exactly the records of every line, numbered from 1, in line order |
| ShellConfig.AtMostOne | analyze_shell_config.py:151 | over distinct names the comprehension `name == cmd` holds at most one name, and exactly one when the command is an alias |
| ShellConfig.NoConflicts | analyze_shell_config.py:147-156 | the conflict list is always empty, since `len(cmd_aliases) > 1` cannot hold over the keys of a dict |
| ShellConfig.FindConflicts | analyze_shell_config.py:147-156 | the loop over the commands returns the conflict list, which is empty |
| ShellConfig.Recommendations | analyze_shell_config.py:174-181 | each of the three pieces of advice is given exactly when its kind of finding occurred, and no more than three are given |
| ShellConfig.Recommend | analyze_shell_config.py:173-181 | the three `if` statements build exactly that list |
| ShellConfig.MergePass | analyze_shell_config.py:104-124 | the checked loop computes one pass of the duplicate check, dict and duplicates |
| ShellConfig.LoadPass | analyze_shell_config.py:129-130 | the unchecked loop computes the load |
| ShellConfig.ReportSpec | analyze_shell_config.py:99-171 | the report counts each alias and function name once, lists as duplicates exactly the `.zshrc` aliases then the `.zshrc` functions that `.aliases` already defines, concatenates the path issues of both files, and lists no conflict; every count is the length of its list |
| ShellConfig.BuildReport | analyze_shell_config.py:99-183 | the merging, conflict and recommendation steps build that report |
| ShellConfig.AnalyzeFiles | analyze_shell_config.py:88-183 | the report for the two files' texts: no conflict, counts that match their lists, and recommendations that follow the duplicates and path issues |
| HolidayDashboard.BarShape | scripts/bin/holiday_dashboard.py:67-71 | for a percentage in [0, 100] the bar has exactly fifteen cells, the first `int(percent / 100 * 15)` of them full blocks and the rest light shade |
| HolidayDashboard.FilledMono | scripts/bin/holiday_dashboard.py:69-70 | a higher percentage never fills fewer cells; 0 fills none and 100 fills all fifteen |
| HolidayDashboard.BarColor | scripts/bin/holiday_dashboard.py:73-74 | the bar is red exactly above 85 (or when the caller asked for red and the usage is at most 60), yellow exactly between 60 and 85 (or when asked for), and the caller's colour at 60 or below |
| HolidayDashboard.CloseFrom | scripts/bin/holiday_dashboard.py:76 | the first `]` at or after a position, or the end of the text: every character before it differs from `]` |
| HolidayDashboard.MarkupRoundTrip | scripts/bin/holiday_dashboard.py:76 | the markup `[tag]body[/tag]` of a tag without `]` reads back as that tag and that body |
| HolidayDashboard.CloseAt | scripts/bin/holiday_dashboard.py:76 | the search for `]` stops at the first one after the start |
| HolidayDashboard.GetBarReadsBack | scripts/bin/holiday_dashboard.py:67-76 | reading the markup `get_bar` returns gives back the colour chosen by the thresholds and the fifteen-cell bar |
| HolidayDashboard.UptimeSpec | scripts/bin/holiday_dashboard.py:131-134 | the minutes lie in [0, 59] and hours and minutes give the truncated uptime rounded down to a whole minute; a non-negative uptime gives non-negative hours |
| HolidayDashboard.SystemStatsColors | scripts/bin/holiday_dashboard.py:130-145 | the memory bar reads back as a green-based bar of the memory percentage and the disk bar as a blue-based one of the disk percentage, each keeping its base colour up to 60 |
| HolidayDashboard.BatteryColor | scripts/bin/holiday_dashboard.py:174 | green exactly when plugged in, red exactly when unplugged below 20, cyan exactly when unplugged at 20 or more |
| HolidayDashboard.DrawSymbol | scripts/bin/holiday_dashboard.py:175 | `+` exactly when plugged in and `-` exactly when not |
| HolidayDashboard.Icon | scripts/bin/holiday_dashboard.py:173 | the plug icon exactly when plugged in and the battery icon exactly when not |
| HolidayDashboard.DigitsNoColon | scripts/bin/holiday_dashboard.py:169-170 | a text of digits holds no `:`, so the fields of `str(timedelta)` do not split inside a number |
| HolidayDashboard.SplitNone | scripts/bin/holiday_dashboard.py:170 | splitting a text without the separator leaves it whole |
| HolidayDashboard.DayPrefixNoColon | scripts/bin/holiday_dashboard.py:169-170 | the day part of `str(timedelta)` holds no `:` |
| HolidayDashboard.TimeLeftFields | scripts/bin/holiday_dashboard.py:168-170 | for a real remaining time the text is the day part, the hours of the day, `:` and the two-digit minutes: the seconds are dropped |
| HolidayDashboard.FirstTwoFields | scripts/bin/holiday_dashboard.py:170 | the first two of three colon-separated fields, joined again, are the first field, `:` and the second |
| HolidayDashboard.TimeLeftReadsBack | scripts/bin/holiday_dashboard.py:166-170 | under a day left the text is hours, `:` and two-digit minutes, which read back as the whole minutes left |
| HolidayDashboard.GetPowerStats | scripts/bin/holiday_dashboard.py:147-150 | the stats are absent exactly when no battery is reported |
| HolidayDashboard.PowerBar | scripts/bin/holiday_dashboard.py:172-180 | the battery bar reads back in the threshold colour over the battery colour; an unplugged battery below 20 shows a red bar and a plugged one at 60 or below a green bar |
| HolidayDashboard.WeatherIconSpec | scripts/bin/holiday_dashboard.py:202-208 | each icon stands for exactly its own codes: sun for 0, cloud for 1-3, fog for 45 and 48, rain for 51-67, snow for 71-77, storm from 95, and `qm` for every other code |
| HolidayDashboard.Last5 | scripts/bin/holiday_dashboard.py:199-200 | `s[-5:]`: the last five characters, or the whole text when shorter |
| HolidayDashboard.WeatherSpec | scripts/bin/holiday_dashboard.py:186-212 | the weather reads `ERR` exactly when the request fails, the reply has no weather code, or a sunrise or sunset list is empty; otherwise its description starts with the icon of the code |
| HolidayCountdown.UpcomingMembers | scripts/bin/holiday_countdown.py:21-26 | `upcoming` holds exactly the midnights and names of the holidays after now |
| HolidayCountdown.SortedFirst | scripts/bin/holiday_countdown.py:29-30 | the first element of a list sorted by a key has the least key |
| HolidayCountdown.NextHolidaySpec | scripts/bin/holiday_countdown.py:13-30 | the result is `None` exactly when no holiday is ahead; otherwise it is a holiday ahead of now whose midnight comes no later than that of any holiday ahead |
| HolidayCountdown.GetNextHoliday | scripts/bin/holiday_countdown.py:13-30 | the loop, sort and pick compute that result: `None` exactly when nothing is ahead, else the earliest holiday ahead |
| HolidayCountdown.StartAsWrittenRaises | scripts/bin/holiday_countdown.py:33-37 | with no holiday ahead the start as written raises where the corrected one reports that none was found, and the written start never reaches the message |
| HolidayCountdown.EmptyCalendar | scripts/bin/holiday_countdown.py:33-37 | an empty calendar is such an input |
| HolidayCountdown.StartSpec | scripts/bin/holiday_countdown.py:33-41 | the corrected start reports that nothing was found exactly when no holiday is ahead, and otherwise targets the next holiday, as the written start does |
| HolidayCountdown.DivmodSpec | scripts/bin/holiday_countdown.py:54-55 | for the seconds of a day the hours lie in [0, 23], the minutes and seconds in [0, 59], and together they give the seconds back |
| HolidayCountdown.DecomposeSpec | scripts/bin/holiday_countdown.py:46-55 | the days, hours, minutes and seconds printed account for every whole second remaining, and a positive span has no negative days |
| HolidayCountdown.TimeStrFields | scripts/bin/holiday_countdown.py:53-59 | the time string is the days, `d `, then two-digit hours, minutes and seconds at fixed places, each reading back as its value |
| HolidayCountdown.TimeStrLayout | scripts/bin/holiday_countdown.py:59 | the layout of the time string for fields below 100 |
| HolidayCountdown.Countdown | scripts/bin/holiday_countdown.py:43-67 | the loop prints the time string for each reading while time remains, and ends with the holiday message exactly when some reading leaves no time, at the first such reading; otherwise it runs until the readings run out |
| PyNum.Trunc | scripts/bin/holiday_dashboard.py:70 | `int(x)` truncates toward zero: for a non-negative value the greatest integer not above it, for a negative one the least integer not below it |
| PyNum.TruncMono | scripts/bin/holiday_dashboard.py:70 | truncation keeps the order of its arguments |
| PyNum.Round | app/storm1.py:79 | `round(x)` lies within a half of `x`, and a tie goes to the even neighbour |
| PyNum.Pick | app/storm1.py:58 | `random.randint(lo, hi)` yields a value in [lo, hi] whatever the generator draws |
| PySort.SortBySorted | scripts/bin/holiday_countdown.py:29 | `list.sort(key=...)` leaves the list ordered by its key |
| PySort.SortByStable | app/split_aliases.py:87 | the sort is stable: elements sharing a key keep their original relative order |
| PyStr.LStripRemovesSpaces | analyze_shell_config.py:22 | `lstrip` removes leading whitespace and nothing else: the result is a suffix of the text |
| PyStr.RStripRemovesSpaces | analyze_shell_config.py:22 | `rstrip` removes trailing whitespace and nothing else: the result is a prefix of the text |
| PyStr.Lower | scripts/bin/usb_analyzer.py:127 | `str.lower()` maps every character on its own and keeps the length |
| PyStr.NatStrValue | scripts/bin/holiday_countdown.py:59 | the decimal digits `str(n)` writes read back as `n` |
| PyStr.ZeroPad2Value | scripts/bin/holiday_countdown.py:59 | `f"{n:02}"` of a number below 100 takes exactly two places and reads back as the number |
| PyStr.SplitUnlines | analyze_shell_config.py:19 | splitting a text written line by line at its newlines gives back the lines and one empty piece after the last newline |
| PyDict.Put | analyze_shell_config.py:33 | `d[k] = v` maps `k` to `v` and leaves every other entry; a new key goes last in iteration order and a key already present keeps its place |

## Left out

Terminal, clock and randomness:

- Rendering and the frame loop: `render_screen`, the ANSI strings, writing to standard output, `main_animation_loop`, `StormAnimation.run`, `time.sleep` and the `__main__` blocks of the four storm programs. The model stops at the composed character buffer.
- `os.get_terminal_size`: the terminal's columns and rows are the record fields `width` and `height`, taken as inputs.
- The storm clock `(sin(storm_cycle_angle) + 1) / 2` and the random gust: the storm intensity is a real input in [0, 1], and the gust is a real input bounded by the gust factor.
- The random generator itself: each `randint`, `randrange`, `random() < p`, `uniform` and `choice` is an arbitrary draw passed in, and every property holds for every draw. Seeding and replay are not modelled.
- Floating point: positions, winds and intensities are exact reals, and Python's `int()` and `round()` on them are `PyNum.Trunc` and `PyNum.Round`. Rounding error and IEEE special values are not modelled.
- Puddle identifiers built from `time.time()` (app/storm1.py:172): they are never read by the simulation, so the puddle values carry none.
- The `draw` methods of `Raindrop`, `Cloud` and `Puddle` in app/stormnew.py (lines 112-120, 172-184, 248-265). They are only called from the drawing code after line 438, which is not part of this model.
- Everything in app/stormnew.py after line 438, including `_generate_bolt_path`. `StormNewAnimation.StormAnimation.TriggerLightningEvent` takes that generator as a parameter, `boltPath`, so its contract says nothing about the shape of the main bolt's path.

Representation choices:

- `StormNewAnimation.StormAnimation`: the `StormState` record is one value field, `state`, rather than an object with fields of its own. The record is owned by the animation alone, so in-place updates and whole-record stores are the same. Aliasing of the state by other objects is not modelled.
- `Storm1Globals.UpdateRainAndSplashes`: every drop falls first, then the splashes are absorbed into the puddles in landing order. The source interleaves the two per drop. A drop's fall never reads the puddles, so the resulting state is the same.
- The four cloud shapes of `CLOUD_SHAPE_PATTERNS` (app/config.py:46-51) form an enumeration chosen by a draw, instead of a list of lambdas picked by `random.choice`.
- Python's `list.sort(key=...)` and `sorted(...)` are one stable insertion sort, `PySort.SortBy`, proved sorted and stable. `reverse=True` is a sort on the negated key, which keeps the same stability.
- Python dicts are `PyDict.Dict`: a key list in insertion order beside a map.
- Strings are sequences of characters. `str.strip`, `str.lower` and `\s` know only ASCII whitespace and ASCII letters.
- Each regular expression is a hand-written recogniser: the alias and function patterns and the three `path_patterns` in analyze_shell_config.py, and the header patterns in analyze_aliases_sections.py. In analyze_shell_config.py each recogniser is proved in both directions. The alias and function recognisers accept exactly the decompositions their expression describes. The path recogniser finds exactly the texts of the expression's shape, and it finds them leftmost first with the longest end, as `re.finditer` does.
- The branch at app/storm1.py:449-454, which makes a one-point bolt, is not modelled. Line 447 clamps the lower bound, so the branch can never be taken, and `Storm1Lightning.MainPath` proves it dead.
- `StormDictSky`: when the end row's `randint` at app/storm.py:283-284 has an empty range, the model returns `None` in place of the `ValueError` the program raises. This happens on a terminal of six rows with a foreground cloud on row 1.
- scripts/bin/storm.py returns early at lines 250-253 with a `>=` test. That test also skips the case `y_start + 2 == sah - 1`, where the end row's `randint` would still succeed. The model follows the code, and `StormScriptSky.ScriptStrikeShape` covers only the cases with room.
- StormDict.UpdateStormParameters requires a well-formed world: at least three rows and one column. On a terminal of two rows or no columns, both storm programs start and then raise at the first `update_storm_parameters` (app/storm.py:150-155, scripts/bin/storm.py:144-149). `StormDict.InitializeGlobalStructures` returns such a world as not well formed, and `StormDict.FirstParamsRaises` proves the raise; the raise is not returned as a value.
- scripts/bin/storm.py's `initialize_global_structures` and `set_char_in_buffer` differ from app/storm.py only in two ways. It sets the row indices at module level and in the `__main__` block (scripts/bin/storm.py:349-352) rather than in the initialiser, and its clouds have no `id` key, which nothing reads. Both programs are modelled by `StormDict.InitializeGlobalStructures` and `Screen`.

The other tools:

- scripts/bin/usb_analyzer.py:
  - `get_drive_info` (the `lsblk` subprocess and its JSON) is not modelled; the device tree is an input.
  - `print_title`, `human_readable_size` (which uses `math.log`, `pow` and float `round`), `format_output` and the printing in `main` are not modelled.
  - `shutil.disk_usage`, `os.path.isdir`, `time.sleep` and the progress line are not modelled.
  - `os.walk` is a sequence of visited files. Each file carries its path, `root/file`, and the size `lstat` gave, or none when `lstat` raised `OSError` or `ValueError`. The suffix is computed from the path as `PurePath.suffix` computes it on POSIX paths; paths are taken as pathlib leaves them, with no trailing `/` and no `.` or empty components.
  - The `PermissionError` and `OSError` handlers around the whole walk are not modelled. A walk that is cut short is the same as a shorter sequence of files.
- analyze_aliases_sections.py, app/split_aliases.py and analyze_shell_config.py: file reading and writing, `chmod`, JSON and pickle output, and printing are not modelled. Lines, metadata and file texts arrive as values, and written files leave as values.
- scripts/bin/holiday_dashboard.py:
  - psutil, the network requests, `glob` and reading the battery's wattage files are not modelled. Their readings are inputs.
  - The GLaDOS and hacker phrases, the network and GPU panels, and `rich` rendering are not modelled.
  - The wattage's `:.1f` formatting is not modelled, so `HolidayDashboard.GetPowerStats` returns the sign without the number.
  - The temperature is the text Python would print for it.
  - psutil's `POWER_TIME_UNLIMITED` and `POWER_TIME_UNKNOWN` are the constants -2 and -1 that psutil gives them.
- scripts/bin/holiday_countdown.py:
  - The `holidays` library is not modelled; the calendar of (date, name) entries is an input.
  - `datetime.now()` is an input: one reading for the search, and a finite list of readings for the loop.
  - `HolidayCountdown.Countdown`: a `KeyboardInterrupt` is modelled as the readings running out, so the contract cannot say when the user interrupts.
  - Printing, the ANSI colours, `strftime` and `time.sleep` are not modelled.

## Findings

| source | as written | input that shows it | evidently intended | confidence | as-written member | corrected member |
|---|---|---|---|---|---|---|
| app/storm1.py:236 | `Puddle.draw` reads `config.PUDDLE_DISTURBANCE_CHAR` and `config.COLOR_PUDDLE_DISTURBANCE`, which app/config.py does not define, so drawing a disturbed on-screen column raises `AttributeError` | the first drop that lands on screen: its new puddle is still disturbed after the puddle tick, so the next `draw_scene` raises | a disturbed column is drawn in a distinct disturbance glyph and colour; the model takes that look as the parameter `look` | not executed | Storm1Draw.FirstSplashBreaksDraw | Storm1Draw.PuddleWritesShape |
| scripts/bin/holiday_countdown.py:33 | `countdown` unpacks the result of `get_next_holiday()` before the `None` test at line 35, so with no holiday ahead it raises `TypeError`, and the message at line 36 is never printed | an empty holiday calendar, or one whose dates have all passed | test the result for `None` first and print "Could not find an upcoming holiday." | not executed | HolidayCountdown.StartAsWrittenRaises | HolidayCountdown.StartSpec |
| app/storm.py:283-284 | when a strike starts from row `sah - 2` or lower, the end row is drawn by `randint(max(bolt_y_start + 2, STORM_AREA_HEIGHT // 2), STORM_AREA_HEIGHT - 1)`, whose lower bound then exceeds its upper bound, which raises `ValueError` and ends the animation | a terminal of six rows (a storm area of four) with a foreground cloud on row 1: the strike starts on row 2 and the draw is `randint(4, 3)` | skip the bolt when the end row has no room and still flash and rumble, as scripts/bin/storm.py does at lines 250-253 (`StormScriptSky.StrikeTimers` proves that version never raises) | not executed | StormDictSky.NextSkyRaises | StormScriptSky.FlashWithoutBolt |
