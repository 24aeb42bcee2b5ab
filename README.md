# q3playground core in Dafny

q3playground is a small Quake III map viewer written in C. It loads a BSP
level, renders it, and moves the player around it with Quake-style physics.
This project models the core of its `main.c` and proves properties of that
model:

* **BSP queries.** `bsp_find_leaf` descends the node tree to the leaf that
  holds a point. `bsp_cluster_visible` reads one bit of the packed
  potentially-visible-set matrix.
* **Plane cache.** `plane_type_for_normal` tells axial planes from the rest.
  `signbits_for_normal` packs the signs of a normal's components.
  `init_planes` fills the cache of both for every plane of the map.
* **Box tracing.** `trace` sweeps an axis-aligned box from a start to an end
  point through the BSP tree and finds how far it gets and which brush plane
  stops it. It works through `trace_node`, `trace_leaf` and `trace_brush`;
  `trace_point` is `trace` with a zero-sized box. The trace record
  (`struct trace_work`) is a class whose fields the methods update in place.
  Each method is proved to leave the record exactly as a recursive
  specification function computes, and the properties are proved about those
  functions.
* **Sliding movement.** `clip_velocity` removes the part of a velocity that
  goes into a plane. `slide` tries up to four traces per frame, gathering up
  to five clip planes, and bends the velocity along them (crease of two
  planes, dead stop at a third).
* **Entity lump.** `lex_entities` is the tokenizer of the text of
  `{ "key" "value" ... }` blocks. It writes a NUL over each closing quote in
  place, so that every string token becomes a C string inside the buffer.
  `entities_expect` and `parse_entities` build the entity list from those
  tokens. `entity_get` and `entity_by_classname` look fields and entities up
  with C-string comparison.

Files, in dependency order:

* `wrappers.dfy`: Option.
* `geometry.dfy`: vectors.
* `bsp.dfy`: map data and BSP queries.
* `planes.dfy`: plane cache.
* `trace_spec.dfy`: specification of tracing.
* `trace.dfy`: the trace record and its methods.
* `trace_props.dfy`: properties of tracing.
* `slide.dfy`: clip_velocity and slide.
* `entities.dfy`: lexer, parser and lookups.

Numbers are modelled as `real`, so `float` rounding is not modelled. Indices
into the map arrays are checked by a `WellFormed` predicate on the world.
The recursion over the node tree terminates through a ghost rank. The rank
gives every node a number larger than those of its child nodes.

## Model

| member | source | states |
|---|---|---|
| Bsp.LeafAt | main.c:644-669 | the descent from any child reference ends in an existing leaf; a negative reference `-(l+1)` is leaf `l` |
| Bsp.FindLeaf | main.c:644-669 | the loop over nodes returns the leaf index the recursive descent from the root computes, and it is within the leaf array |
| Bsp.LeafAtRankIndependent | main.c:644-669 | the leaf found does not depend on the ghost rank used to justify termination, only on the tree and the point |
| Bsp.TwoLeafWorldLookups | main.c:644-669 | in a one-plane map, a point in front of the plane lands in the front leaf and a point behind it in the back leaf |
| Bsp.VisibilityRoundTrip | main.c:680-686 | for a visibility matrix packed eight clusters per byte, row by row of `sz` bytes, the byte-and-bit lookup returns exactly the matrix entry |
| Bsp.SelfVisible | main.c:680-686 | a cluster whose row marks itself visible is reported visible from itself |
| Planes.PlaneTypeForNormal | main.c:1576-1591 | the type is the first axis whose normal component is exactly 1 or -1 (`PLANE_X`..`PLANE_Z`), or `PLANE_NONAXIAL` when no component is |
| Planes.SignBitsUpToBits | main.c:1593-1608 | after `k` loop steps the bit pattern is below `2^k` and bit `i` is set exactly when component `i` is negative |
| Planes.SignBits | main.c:1593-1608 | the sign bits are below 8 and bit `i` is set if and only if component `i` of the normal is negative |
| Planes.SignBitsForNormal | main.c:1593-1608 | the loop computes the sign bits: bit `i` set if and only if component `i` is negative |
| Planes.InitPlanes | main.c:1610-1621 | a fresh cache array whose entry `i` holds the sign bits and type of map plane `i`, for every plane |
| Planes.DescribedCacheInRange | main.c:1610-1621 | an initialised cache has an entry per plane with sign bits below 8, so every corner lookup of the trace is in range |
| TraceSpec.SweepOfShape | main.c:1509-1553 | the recentred box is symmetric about the origin and as wide as the original; start and end move by the box midpoint |
| TraceSpec.CornerTable | main.c:1509-1553 | corner `k` of the offset table takes the box maximum on axis `i` exactly when bit `i` of `k` is set, else the minimum |
| TraceSpec.PointSweep | main.c:1568-1574 | a point trace leaves start and end unshifted and has all eight corner offsets zero |
| TraceSpec.SideIsEntryOrExit | main.c:1315-1336 | a side that is neither missed nor behind is entered (start further out than end) or exited (start inside, end outside) |
| TraceSpec.ClipSide | main.c:1315-1336 | one side only raises the entry fraction and lowers the exit fraction; when the entry rises, the closest plane becomes this side's plane (the fraction values are stated by TraceProps.ClipSideValues) |
| TraceSpec.ClipSides | main.c:1274-1337 | the side loop never lowers the entry fraction and keeps "a raised entry has a plane" |
| TraceSpec.ClipSidesStep | main.c:1308-1337 | one side either ends the loop with its outside flags (a missed side) or is folded into the clip before the next side |
| TraceSpec.BrushStep | main.c:1339-1348 | the brush result keeps the gathered flags; frac lowers only to a closer entry, recording its plane; frac becomes 0 when no outside flag was seen, and the plane is then the entry plane if the entry lowered frac, else unchanged; a missed brush changes neither frac nor plane |
| TraceSpec.BrushHit | main.c:1262-1349 | tracing a brush never raises frac and keeps it non-negative |
| TraceSpec.LeafBrushes | main.c:1364-1392 | the leaf's brush loop never raises frac and keeps it non-negative |
| TraceSpec.SweepOf | main.c:1509-1553 | the sweep carries the eight corner offsets the plane lookups index by sign bits |
| TraceSpec.NodeCross | main.c:1441-1449 | passing a node to one child, or splitting it, never raises a non-negative frac and keeps it non-negative |
| TraceSpec.NodeSplit | main.c:1477-1491 | tracing the near part and then the far part of a split segment never raises a non-negative frac and keeps it non-negative |
| TraceSpec.EndPos | main.c:1557-1565 | the end position is the start for frac 0 and, for any frac in [0, 1], lies between start and end on every axis |
| TraceSpec.LerpOnSegment | main.c:1562-1564 | interpolating with a fraction in [0, 1] gives a point between start and end on every axis |
| TraceSpec.SplitFractions | main.c:1451-1475 | the near side is the back child exactly when the start is behind the end; both split fractions are clamped into [0, 1] |
| TraceSpec.NodeWalk | main.c:1394-1492 | the descent never raises frac and keeps it non-negative |
| TraceSpec.TraceOf | main.c:1504-1566 | a whole trace yields a fraction in [0, 1] |
| TraceWorkState.TraceWork.SideAt | main.c:1285-1293 | the start and end distances of a brush side, pushed out by the corner its plane's sign bits select, are the specification's |
| TraceWorkState.TraceWork.MarkOutside | main.c:1300-1306 | the record's flags gain the starts-out and ends-out bits for a side with a positive start or end distance |
| TraceWorkState.TraceWork.Settle | main.c:1339-1348 | the end of trace_brush leaves frac and plane as BrushStep computes |
| TraceWorkState.TraceWork.ClipEntryExit | main.c:1319-1336 | entering or exiting a side updates the clip as ClipSide computes |
| TraceWorkState.TraceWork.TraceBrush | main.c:1262-1349 | trace_brush leaves frac, flags and plane exactly as BrushHit computes from the old record |
| TraceWorkState.TraceWork.TraceLeaf | main.c:1364-1392 | trace_leaf leaves the record as the brush loop LeafBrushes computes, stopping at frac 0 |
| TraceWorkState.TraceWork.NodeDistanceAt | main.c:1418-1439 | the node's start and end distances and box margin are those NodeDistances computes: one coordinate and the box extent for an axial plane, dot products and a 2048 margin (0 for a point) otherwise |
| TraceWorkState.TraceWork.SplitSegment | main.c:1451-1475 | the near side and the two clamped split fractions are the specification's |
| TraceWorkState.TraceWork.TraceNode | main.c:1394-1492 | the recursive descent leaves the record as NodeWalk computes |
| TraceWorkState.TraceWork.TraceSplit | main.c:1477-1491 | the two recursive calls on the near and far parts leave the record as NodeSplit computes |
| TraceWorkState.TraceWork.Trace | main.c:1504-1566 | the record holds the recentred sweep; frac, flags and plane are TraceOf from the old plane; frac is in [0, 1]; endpos is end when frac is 1, else start + frac·(end − start) |
| TraceWorkState.TraceWork.TracePoint | main.c:1568-1574 | trace_point is a trace with a zero box: same guarantees with mins = maxs = 0 |
| TraceProps.ClipSidesFlags | main.c:1300-1306 | the side loop only adds flags, never clears one |
| TraceProps.BrushHitSettled | main.c:1262-1349 | after a brush, every earlier flag is still set; once an outside flag is set, a lowered frac comes with a recorded plane (some plane, possibly one recorded earlier), and a recorded plane stays recorded |
| TraceProps.LeafBrushesSettled | main.c:1364-1392 | the same holds across the brush loop of a leaf |
| TraceProps.NodeWalkSettled | main.c:1394-1492 | the same holds across the whole descent |
| TraceProps.NodeCrossSettled | main.c:1441-1449 | the same holds for a node passed wholly to one child |
| TraceProps.NodeSplitSettled | main.c:1477-1491 | the same holds for a node split into two child traces |
| TraceProps.ClipSideValues | main.c:1319-1336 | when a side raises the entry fraction, the sweep's distance to that side, at the new fraction, is exactly `SURF_CLIP_EPSILON`; when it lowers the exit fraction, the distance at the new exit fraction is exactly `-SURF_CLIP_EPSILON` |
| TraceProps.ClipSidesEntry | main.c:1274-1337 | after the side loop, a raised entry fraction comes with a closest plane that belongs to a brush side the sweep enters at exactly that fraction |
| TraceProps.BrushHitStops | main.c:1262-1349 | after a brush, an unchanged frac keeps its plane, and a frac that dropped but is still positive has a plane of a side the sweep enters at exactly that frac |
| TraceProps.LeafBrushesStops | main.c:1364-1392 | the same holds across the brush loop of a leaf |
| TraceProps.NodeWalkStops | main.c:1394-1492 | the same holds across the whole descent |
| TraceProps.NodeCrossStops | main.c:1441-1449 | the same holds for a node passed wholly to one child |
| TraceProps.NodeSplitStops | main.c:1477-1491 | the same holds for a node split into two child traces |
| TraceProps.TraceStopsAtPlane | main.c:1504-1566 | a clear trace keeps the old plane; a trace stopped at a frac strictly between 0 and 1 reports the plane of a brush side that the recentred sweep enters at exactly that frac |
| TraceProps.LeafBrushesNoSolid | main.c:1364-1392 | a leaf without solid brushes leaves the record unchanged |
| TraceProps.NodeWalkNoSolid | main.c:1394-1492 | in a map without solid brushes the descent leaves the record unchanged |
| TraceProps.NodeCrossNoSolid | main.c:1441-1491 | the same for a node's one-child or split step |
| TraceProps.NothingSolidNothingBlocks | main.c:1504-1566 | in a map without solid brushes every trace returns frac 1, no flags and the old plane, and ends at `end` |
| TraceProps.EmbeddedScan | main.c:1274-1337 | over sides that have both endpoints behind them, the side loop changes neither the clip nor the flags |
| TraceProps.EmbeddedBrushStops | main.c:1339-1348 | a move wholly inside a solid brush, before any outside flag, gives frac 0 with flags and plane unchanged: no blocking plane is recorded |
| Slide.BackoffLeavesNonNegative | main.c:1938-1958 | with overbounce at least 1, the normal component left after subtracting the backoff is never negative |
| Slide.ClipVelocityLeavesPlane | main.c:1938-1958 | for a unit normal and overbounce at least 1, the clipped velocity does not move into the plane |
| Slide.ClipVelocityExact | main.c:1938-1958 | with overbounce 1 the clipped velocity is exactly parallel to the plane |
| Slide.ClipVelocityKeepsTangent | main.c:1938-1958 | clipping keeps the velocity's component along any direction in the plane |
| Slide.CreaseSteps | main.c:2080-2129 | the inner plane loop always produces a clipped velocity or a dead stop, never "unclipped" |
| Slide.ClipMoveUnclipped | main.c:2059-2135 | the plane loops leave the velocity alone exactly when it moves into none of the tracked planes |
| Slide.CreaseStepsDeadStop | main.c:2080-2129 | the inner plane loop of plane `i` stops dead only if some other plane `k` gives a crease velocity that moves into a third plane |
| Slide.ClipMoveDeadStop | main.c:2059-2129 | the plane loops stop dead only at the first tracked plane the velocity moves into, and only if one of that plane's creases moves into a third plane |
| Slide.SingleClip | main.c:2080-2129 | when the once-clipped velocity moves into no other plane, the result is that single clip |
| Slide.Deflect | main.c:2029-2057 | a full plane list stops the player; a plane near a tracked one nudges the velocity by its normal and keeps the list; any deflection keeps the list or appends the hit normal, and the list stays within five planes |
| Slide.Bumps | main.c:2007-2136 | each bump makes one more trace, never more than four in all |
| Slide.Start | main.c:1977-2005 | the set-up starts with one or two tracked planes (ground normal if any, then the normalised velocity), at the current position with the whole frame time |
| Slide.SlideOf | main.c:1968-2143 | a slide makes between one and four traces |
| Slide.LaterBumpsBlocked | main.c:2007-2142 | once one trace has been blocked, slide returns "blocked" however the loop ends |
| Slide.FirstTraceDecides | main.c:2007-2142 | slide returns "blocked" exactly when the first trace is blocked; otherwise it makes one trace, moves to its end position and keeps the velocity (the end velocity under gravity) |
| Slide.FullPlaneListStops | main.c:2029-2032 | a blocked trace with five tracked planes zeroes the velocity and reports blocked |
| Slide.DeadStopStops | main.c:2007-2136 | a blocked trace with a new plane whose clipping ends in a dead crease (main.c:2116-2128) zeroes the velocity, reports blocked and leaves the player where the trace stopped |
| Slide.Player.FindNearPlane | main.c:2039-2049 | the loop stops early exactly when some tracked plane's normal has a dot product above 0.99 with the hit normal, and the plane it stops at is such a plane |
| Slide.Player.ThirdPlaneBlocks | main.c:2116-2128 | the loop finds a plane other than the two creased ones that the crease velocity moves into exactly when one exists |
| Slide.Player.DeflectAt | main.c:2029-2135 | the plane array and velocities after a blocked trace are those Deflect computes, or the player stops |
| Slide.Player.ClipPlanes | main.c:2059-2135 | the nested plane loops compute ClipMove over the tracked planes |
| Slide.Player.Bump | main.c:2007-2136 | one bump either ends the slide with the result of the bump loop or passes on a state whose remaining loop has the same result |
| Slide.Player.Slide | main.c:1968-2143 | the player's velocity, position and the return value are those SlideOf computes from the old velocity and position |
| Entities.QuoteEnd | main.c:756-765 | the scan stops at the first closing quote or NUL after the string start |
| Entities.SkipBlanks | main.c:740-749 | skipping whitespace stops at the first non-space character, before the NUL |
| Entities.TokenAt | main.c:751-775 | a token consumes at least one character (NUL included); a NUL yields kind 0; a closing quote lies inside the token |
| Entities.LexAt | main.c:736-778 | a lexed token starts at or after the lexer position and ends within the text; a NUL gives kind 0 |
| Entities.LexSkipsBlanks | main.c:740-749 | every skipped character is whitespace, and the line count grows by the number of newlines skipped |
| Entities.LexToken | main.c:736-778 | a quote gives a string token whose text starts after it and which ends at its closing quote, or at the NUL when unterminated; NUL gives kind 0; any other byte is a one-character token of its own code |
| Entities.LexFollowsText | main.c:736-778 | lexing the buffer from `p` gives the token lexing the original text would give, and the buffer still matches the text from the next position on |
| Entities.LexLeavesStrings | main.c:751-770 | lexing only turns a closing quote into NUL, and a string token then reads, as a C string, exactly the characters between its quotes |
| Entities.DenotesCString | main.c:790-802 | a string whose NUL terminator is in place reads, as a C string, as the quoted text |
| Entities.Advance | main.c:736-778 | the lexer position moves forward on every token and stays within the text |
| Entities.Lexer.FindTokenStart | main.c:740-749 | the whitespace loop stops where SkipBlanks says |
| Entities.Lexer.FindQuoteEnd | main.c:756-765 | the string loop stops where QuoteEnd says |
| Entities.Lexer.ReadToken | main.c:736-778 | kind, position, line count, string start and the buffer (closing quote turned into NUL) are those of the token at the old position |
| Entities.Lexer.Lex | main.c:736-778 | the lexer state advances to the next token of the original text; only a closing quote in the buffer is changed, into NUL |
| Entities.Lexer.Expect | main.c:822-841 | on the expected kind it advances one token and returns 1; otherwise it changes nothing and returns 0 |
| Entities.Lexer.ReadField | main.c:867-881 | a key string followed by a value string gives a field of the two string starts, each reading as its quoted text; a key without a value stops with the non-string token current |
| Entities.Lexer.ReadFields | main.c:866-881 | the field loop reads the fields ScanFields computes from the text, or reports an abandoned block when a key has no value; every field reads as its quoted text |
| Entities.ScanFields | main.c:866-881 | a finished field scan ends on a non-string token and only appends to the fields so far |
| Entities.Blocks | main.c:858-889 | the block loop only appends entities |
| Entities.Close | main.c:883-889 | closing a block only appends entities |
| Entities.BlockAppended | main.c:858-889 | a block whose field loop closes appends exactly the fields that loop read; without a `}` after them the parse ends there, with one it ends at the end of the text or goes on with the next block |
| Entities.AbandonedBlockDropped | main.c:873-875 | a block whose field loop is abandoned on a key without a value is dropped, and the entities parsed before it are the result |
| Entities.UnclosedBlockKept | main.c:883-888 | a block whose `}` is missing is still kept, because it is appended before the brace is checked |
| Entities.MissingValueDropsBlock | main.c:873-875 | a block whose last key has no value is dropped, and parsing stops |
| Entities.LookupFirst | main.c:790-802 | the lookup finds nothing exactly when no field's key equals the key as a C string; otherwise it returns the value of the first such field |
| Entities.ParsedField | main.c:790-802 | for a parsed entity, a key matches exactly when its quoted text equals the key, and the value reads as its quoted text |
| Entities.EntityGet | main.c:790-802 | the loop returns the value of the first field whose key matches, or nothing |
| Entities.EntityList.EntityByClassname | main.c:804-820 | nothing exactly when no entity has a matching classname field; otherwise the first entity that has one |
| Entities.EntityList.ParseEntities | main.c:843-890 | the entity list is ParseOf of the original text; the buffer differs only by quotes turned into NUL; every parsed key and value reads as its quoted text |

## Left out

- Floating point: every `float` is a `real`. The results of the model are the exact results of the formulas, without rounding. The reciprocal `idistance` of trace_node is written as a division.
- trace_node's `start_frac` and `end_frac` are passed along by the source but never read, so the model drops them.
- Slide.Player.Slide: the trace and nrm3 are parameters (`trace`, `normalize`). The trace stands for the box trace from the camera position with the player's box, and always delivers a plane normal. In the source, a box that starts inside a solid brush gets frac 0 without any plane being recorded (TraceProps.EmbeddedBrushStops). slide then reads `work.plane`, a field of an uninitialised local record, at main.c:2041 and main.c:2056; the model does not capture that read.
- Slide.Start: without gravity, `end_velocity` is never assigned in the source but is clipped alongside the velocity. The model starts it equal to the velocity; its value never reaches a result.
- The sliding movement's globals (velocity, camera position, ground normal, delta time, gravity) are the fields of Slide.Player or parameters of Slide.Player.Slide. Player box size and camera updates outside slide are not part of this model.
- Entities: characters are bytes below 256 (`Bytes`). `TokenOf` reads them as signed chars, so bytes 128..255 give negative token kinds, as `(int)*lex->p` does.
- Bsp.ClusterVisible: takes non-negative cluster numbers. The renderer (main.c:2236-2249) passes leaf clusters unchecked, and a cluster of -1 (a leaf outside the map) gives a negative byte index and a negative shift at main.c:684-685; the model does not capture that call.
- Slide.CreaseStepsDeadStop: states only that a dead stop needs a blocked crease, not the converse. Whether the loop reaches a crease depends on the clipped velocity carried from earlier planes, which the lemma does not track.
- Entities: the warnings of lex_entities and entities_expect (describe_entities_token, log_print) are logging only, and are left out.
- Entities.EntityList.EntityByClassname: it returns the field list of the entity rather than a pointer into the global vector. The global `entities` vector is the field of Entities.EntityList, holding values.
- Entities.EntityList.ParseEntities: the buffer contract says only quotes are cleared and every parsed string denotes its quoted text. It does not name the exact set of quotes cleared, which Entities.Lexer.Lex states token by token.
- Entities.EntityList.ParseEntities: freeing the previous entity vectors is replaced by reassigning the list.
- Bsp.FindLeaf and the trace methods take a ghost rank (`Ranked`) as an extra precondition. It stands for the source's assumption that the map's node tree has no cycles.
- Map loading, the renderer (SDL, OpenGL), input handling, the spawn-point search that uses entity_by_classname, and the rest of `main.c` are not part of this model.
