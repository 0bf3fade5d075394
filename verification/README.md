# Breadcrumbs core in Dafny

Breadcrumbs is a browser new-tab extension. This project models the parts
of it that hold self-contained logic and proves properties of them.

- **The settings panel script** (`src/script.js`, modules `Panel` and `Theme`):
  - dragging a panel while clamping it to the viewport;
  - the expand/collapse click, which is suppressed while a drag is under way;
  - the global single-key shortcuts;
  - the four tables of CSS custom properties that a theme writes on `:root`;
  - the click handler `select` installs on theme-menu buttons.

  The DOM becomes classes whose fields are the properties the script
  writes. The cursor, the bounding rectangle, the focused element's
  `nodeName` and the `prefers-color-scheme` query become parameters.
- **The string-keyed graph `Wgraph`**, in both copies (modules `Wgraph` and
  `ArchiveWgraph`). Each is a class over a map from tag to `Node` objects
  whose adjacency lists grow in place. Both are proved against one pure
  value model (module `Adjacency`).
- **The `ReadFile` loader of `data/main.cpp`** (module `Loader`). Its loop
  runs over the token sequence of the input file. It is proved to compute a
  pure fold, and lemmas state what that fold builds:
  - one node per distinct tag;
  - the first link seen for each tag;
  - edges exactly between consecutive tags, with "false" acting as a
    chain break.
- **The inline part of Corrade's `JsonToken`** (module `JsonToken`, 64-bit
  layout):
  - the packed 64-bit word;
  - `type()`, `isParsed()` and `parsedType()`;
  - `firstChild()` and `next()` over the flat depth-first token list;
  - the assertions guarding the `as*()` getters.

`data/main.cpp` includes `"wgraph.h"` but calls a three-argument `add`.
That matches `Archive/data/wgraph.h`, so `Loader.ReadFile` runs against
`ArchiveWgraph.Wgraph`.

Modelling choices that go beyond the code:

- `offsetLeft` and `offsetTop` are taken to read back the last `style.left`
  and `style.top` written.
- `getComputedStyle(par).maxWidth` is the parent's `maxWidth` field.
- A cleared `style.maxHeight` is "".
- Numbers passed to `setProperty` are written as JavaScript prints them
  (`1.0` as "1").
- The 64-bit union of a token is read little-endian for its 32-bit and
  8-bit members.

`childCount()` is implemented in `Json.cpp`, which is not part of this
model. Its documentation (Json.h:884-897) says it counts all nested tokens,
and also that an object key "always returns 1". `next()` adds `childCount()`
to skip a whole tree, and that only works for a key whose value is an
object or an array if the key's count includes the value's tree. The model
therefore counts a key as its value plus the value's nested tokens
(`JsonToken.KeyNextSkipsValue`).

The graph's `size()` returns `N`, which only the constructor assigns (0).
The model keeps `N == 0` as a class invariant, and `Size` is proved to
return 0 however many nodes were added.

## Model

| member | source | states |
|---|---|---|
| `Panel.AxisStep` | src/script.js:194-202 | one axis of `elementDrag`'s boundary test: the candidate is taken when positive and not blocked at the far edge, else the old position is kept, and a non-positive candidate writes 0 / -1; its behaviour is stated by `Panel.StepBounds`, `Panel.StepFollowsCursor` and `Panel.StepAtFarEdge` |
| `Panel.Step` | src/script.js:188-202 | one `elementDrag` call on the closure state: new deltas from the stored cursor, the cursor stored, both axes updated by `Panel.AxisStep`; proved equal to `Panel.DragPanel.ElementDrag` and characterised by the three lemmas below |
| `Panel.StepBounds` | src/script.js:188-202 | a drag step writes `left` as 0 or a positive value and `top` as -1 or a positive value, so a panel placed that way stays placed; afterwards `pos3`/`pos4` hold the current cursor |
| `Panel.StepFollowsCursor` | src/script.js:188-202 | away from the far edges a positive candidate position is taken exactly (the panel moves by the cursor's displacement); a candidate of 0 or less pins `left` at 0 and `top` at -1 |
| `Panel.StepAtFarEdge` | src/script.js:199-202 | a move toward the origin is always applied (clamped at 0 / -1); when the rectangle reaches the viewport's right (bottom) edge, a move away from the origin leaves the panel where it is whenever the candidate position is positive, so a placed panel stays put |
| `Panel.TrailFollowsCursor` | src/script.js:188-191 | because every move stores its cursor, deltas add up: after any run of unobstructed moves the panel is displaced by exactly the cursor's displacement since mouse-down |
| `Panel.DragPanel.constructor` | src/script.js:160 | the four closure variables start at 0 |
| `Panel.DragPanel.ElementDrag` | src/script.js:180-210 | the imperative `elementDrag` with `resize()` leaves position, deltas and cursor equal to the pure step `Step` and the transform at `scale(1.04)` |
| `Panel.Expand` | src/script.js:136-150 | the click listener's state change when no drag is running; `Panel.ExpandToggles`, `Panel.ExpandTwiceRestores` and `Panel.ExpandKeepsWidthWithActive` state its effect and `Panel.Page.Click` applies it |
| `Panel.ExpandToggles` | src/script.js:136-150 | a click clears a set `maxHeight` and sets a cleared one to the cap (750px for the drag panel, 150px for a row); a row keeps `active` and width; a panel flips `active` and gets 107.5px exactly when its width was 150px, otherwise 150px |
| `Panel.ExpandTwiceRestores` | src/script.js:136-150 | two clicks restore a collapsed header, provided a panel's width is already one of its two values |
| `Panel.ExpandKeepsWidthWithActive` | src/script.js:139-142 | a panel that is `active` exactly when narrow stays so after a click |
| `Panel.Route` | src/script.js:30-44 | nothing is clicked while a TEXTAREA or INPUT has focus; "s" clicks the settings box; "c", "b" and "t" click their tab exactly when the settings box is active; every other key clicks nothing |
| `Panel.Page.constructor` | src/script.js:11-71 | the page starts with `isDrag` and `isTextHover` false and no document drag handlers, which satisfies the handler invariant |
| `Panel.Page.TextMouseOver` | src/script.js:61 | `mouseover` on a text element sets `isTextHover` and nothing else |
| `Panel.Page.TextMouseLeave` | src/script.js:60 | `mouseleave` on a text element clears `isTextHover` and nothing else |
| `Panel.Page.DragMouseDown` | src/script.js:166-179 | ignored entirely while `isTextHover`; otherwise records the cursor in `pos3`/`pos4` and installs the element's move and release handlers, changing nothing else; keeps the handler invariant |
| `Panel.Page.MouseMove` | src/script.js:180-183 | with no handler installed nothing changes; otherwise `isDrag` becomes true and the installed element takes one drag step (`Step`) |
| `Panel.Page.CloseDrag` | src/script.js:212-220 | the release timer puts the element back to `scale(1.0)` without moving it, clears `isDrag` and removes both handlers |
| `Panel.Page.Click` | src/script.js:131-152 | while `isDrag` the header, its parent and its content are unchanged; otherwise they change as `Expand` says |
| `Panel.Page.KeyDown` | src/script.js:30-44 | the control clicked is the one `Route` picks, and it changes as a click does; when none is picked no control changes |
| `Theme.VariableNamesDistinct` | src/script.js:257-280 | the 24 custom properties a theme writes are pairwise distinct |
| `Theme.TablesWriteSameProperties` | src/script.js:256-370 | all four tables write the same 24 properties in the same order |
| `Theme.Resolve` | src/script.js:310-372 | "Light", or "Follow device theme" without a dark preference, gives light; "Twilight" and "Arctic" give their own tables; every other id, including "Dark", gives dark |
| `Theme.Apply` | src/script.js:256-280 | the `setProperty` calls of a theme function run in order; `Theme.ApplyEffect` and `Theme.ThemeOverwritesPrevious` state the resulting style, and `Theme.Root.WriteAll` is proved equal to it |
| `Theme.ApplyEffect` | src/script.js:257-280 | after a run of writes with distinct names each name holds its value and every other property is as before |
| `Theme.ThemeOverwritesPrevious` | src/script.js:310-371 | applying a theme gives the same value for each of the 24 properties whatever was set before, and leaves every other property alone |
| `Theme.Root.SetProperty` | src/script.js:257 | one `setProperty` overwrites one property |
| `Theme.Root.WriteAll` | src/script.js:257-280 | the loop of `setProperty` calls leaves the style equal to `Apply` of the table |
| `Theme.Root.ChangeToDark` | src/script.js:256-281 | writes the dark table |
| `Theme.Root.ChangeToLight` | src/script.js:283-308 | writes the light table |
| `Theme.Root.ChangeTheme` | src/script.js:310-372 | writes the table `Resolve` picks for the id and the media query's answer |
| `Theme.SelectClick` | src/script.js:225-253 | after a click exactly the clicked button of the menu is selected (even if it was selected before); other nodes keep their state; the clicked id is stored and its theme applied |
| `Adjacency.AddValue` | wgraph.h:30 | `add` inserts a node with the given payload and no neighbours only when the key is absent; existing keys keep their nodes |
| `Adjacency.ConnectValue` | wgraph.h:31 | `connect` on the graph's value, both tags required to be keys since `find` is dereferenced; `Adjacency.ConnectEffect` states its effect |
| `Adjacency.ConnectEffect` | wgraph.h:31 | `connect(t1, t2)` keeps keys, tags and payloads, appends `t2` to `t1`'s list and `t1` to `t2`'s, appends the node to its own list twice when `t1 == t2`, and changes no other list |
| `Adjacency.AddConnectGrow` | Archive/data/wgraph.h:32-33 | `add` and `connect` only extend adjacency lists and never change a tag or payload |
| `Adjacency.AddConnectPreserveShape` | wgraph.h:30-31 | both operations keep every node under its own tag and every neighbour a key |
| `Wgraph.Node.constructor` | wgraph.h:11 | a new node has the given tag and size and no neighbours |
| `Wgraph.Node.Add` | wgraph.h:13 | `push_back` of the neighbour |
| `Wgraph.Wgraph.ValueShape` | wgraph.h:30-34 | in a valid graph every node is stored under its own tag and every neighbour is in the table |
| `Wgraph.Wgraph.constructor` | wgraph.h:28 | the graph starts empty with `N == 0` |
| `Wgraph.Wgraph.Size` | wgraph.h:29 | `size()` returns 0, since `N` is never updated |
| `Wgraph.Wgraph.Find` | wgraph.h:32-34 | returns the node stored under the tag, or null when the tag is absent; the table is read-only |
| `Wgraph.Wgraph.Add` | wgraph.h:30 | the graph's value becomes `AddValue` of the old one; old keys keep their node objects and a new key gets a fresh node |
| `Wgraph.Wgraph.Connect` | wgraph.h:31 | with both tags present, the graph's value becomes `ConnectValue` of the old one, and the invariant is kept |
| `ArchiveWgraph.Node.constructor` | Archive/data/wgraph.h:12 | a new node has the given tag, link and size and no neighbours |
| `ArchiveWgraph.Node.Add` | Archive/data/wgraph.h:14 | `push_back` of the neighbour |
| `ArchiveWgraph.Wgraph.ValueShape` | Archive/data/wgraph.h:32-36 | in a valid graph every node is stored under its own tag and every neighbour is in the table |
| `ArchiveWgraph.Wgraph.constructor` | Archive/data/wgraph.h:30 | the graph starts empty with `N == 0` |
| `ArchiveWgraph.Wgraph.Size` | Archive/data/wgraph.h:31 | `size()` returns 0, since `N` is never updated |
| `ArchiveWgraph.Wgraph.Find` | Archive/data/wgraph.h:34-36 | returns the stored node or null, without touching the table |
| `ArchiveWgraph.Wgraph.Add` | Archive/data/wgraph.h:32 | the value becomes `AddValue` with payload (link, size), so a duplicate tag keeps its first link and size; old keys keep their node objects |
| `ArchiveWgraph.Wgraph.Connect` | Archive/data/wgraph.h:33 | with both tags present, the value becomes `ConnectValue` of the old one |
| `Loader.TagsRead` | data/main.cpp:16-18 | the tags are the tokens at even positions, one per pair read, including a final unpaired tag |
| `Loader.Links` | data/main.cpp:17-18 | each tag's link is the next token, or "" when the stream ends after the tag |
| `Loader.Step` | data/main.cpp:19-22 | one iteration adds exactly the tag's key; its `connect` is only ever applied to two keys |
| `Loader.Load` | data/main.cpp:14-23 | the loop as a fold of `Loader.Step` over the pairs read; `Loader.ReadFile` is proved equal to it, and `Loader.LoadKeys`, `Loader.LoadEdges`, `Loader.LoadEdgeCount` and `Loader.LoadInfo` state what it builds |
| `Loader.ReadFile` | data/main.cpp:14-23 | the loop leaves the graph valid and equal to `Load` of the old graph over the tokens, starting from the sentinel "false" |
| `Loader.LoadKeys` | data/main.cpp:16-19 | the keys after loading are the old keys plus every tag read |
| `Loader.LoadGrows` | data/main.cpp:19-21 | loading only adds nodes and extends lists; no tag, link or size is overwritten |
| `Loader.LoadShape` | data/main.cpp:19-21 | loading keeps every node under its own tag and every neighbour a key |
| `Loader.StepEdges` | data/main.cpp:19-21 | one iteration adds exactly the edge between the new tag and the previous one, in both directions, unless the previous one is "false" |
| `Loader.LoadEdges` | data/main.cpp:14-22 | `m` is a neighbour of `t` after loading iff it was before or the two are consecutive in the chain of tags and the first of them is not "false" |
| `Loader.StepEdgeCount` | data/main.cpp:19-21 | one iteration appends the previous tag to the new tag's list and the new tag to the previous one's, once each, unless the previous one is "false" |
| `Loader.LoadEdgeCount` | data/main.cpp:14-22 | the number of times `m` occurs in `t`'s list after loading is its count before plus one per time `t` and `m` are read consecutively with the first not "false", so a pair read twice leaves two entries |
| `Loader.StepGrows` | data/main.cpp:19-21 | one iteration only extends the graph, and a tag read for the first time gets the link read with it and size 100 |
| `Loader.LoadHeadInfo` | data/main.cpp:16-19 | a first tag that was not a key ends up with the link read beside it and size 100, whatever follows |
| `Loader.LoadNewInfo` | data/main.cpp:16-19 | a tag that was not a key ends up with the link read with its first occurrence and size 100 |
| `Loader.LoadInfo` | data/main.cpp:16-19 | a node that existed keeps its link and size; a new node has the link read with the first occurrence of its tag and size 100 |
| `Loader.ReadIntoEmpty` | data/main.cpp:7-26 | into the empty graph: one node per distinct tag under its own tag, first link and size 100, neighbours exactly along the chain of tags with "false" as a break |
| `JsonToken.LayoutPartitionsWord` | a_r_c_h_i_v_e___/corrade/src/Corrade/Utility/Json.h:1212-1242 | the type, parsed-type, three flag and size masks are pairwise disjoint and cover all 64 bits |
| `JsonToken.Type.Code` | a_r_c_h_i_v_e___/corrade/src/Corrade/Utility/Json.h:541-656 | the public types are numbered 1 to 6 |
| `JsonToken.ParsedType.Code` | a_r_c_h_i_v_e___/corrade/src/Corrade/Utility/Json.h:663-808 | the parsed types fit the 3-bit field |
| `JsonToken.PublicTypeMatchesPrivate` | a_r_c_h_i_v_e___/corrade/src/Corrade/Utility/Json.h:1216-1222 | each public `Type` enumerator equals the private `k << 61` constant, is non-zero and lies inside `TypeMask` |
| `JsonToken.Unpack` | a_r_c_h_i_v_e___/corrade/src/Corrade/Utility/Json.h:1212-1242 | the fields read out of any word fit their widths |
| `JsonToken.UnpackPack` | a_r_c_h_i_v_e___/corrade/src/Corrade/Utility/Json.h:1212-1242 | fields that fit their widths are read back unchanged after packing |
| `JsonToken.PackUnpack` | a_r_c_h_i_v_e___/corrade/src/Corrade/Utility/Json.h:1212-1242 | every word is the packing of its fields |
| `JsonToken.FlagsAreTheFlagGroup` | a_r_c_h_i_v_e___/corrade/src/Corrade/Utility/Json.h:1237-1239 | the key, global and escaped flags are the three bits of the flag group |
| `JsonToken.TypeOf` | a_r_c_h_i_v_e___/corrade/src/Corrade/Utility/Json.h:1335-1337 | `type()` lies inside `TypeMask` and is the stored type code shifted into place |
| `JsonToken.DecodeType` | a_r_c_h_i_v_e___/corrade/src/Corrade/Utility/Json.h:1335-1345 | a word's type bits name a public `Type` exactly when one has that value |
| `JsonToken.ParsedTypeOf` | a_r_c_h_i_v_e___/corrade/src/Corrade/Utility/Json.h:1359-1361 | `parsedType()` lies inside `ParsedTypeMask` |
| `JsonToken.DecodeParsedType` | a_r_c_h_i_v_e___/corrade/src/Corrade/Utility/Json.h:663-808 | every value of the parsed-type bits is one of the eight enumerators |
| `JsonToken.IsParsed` | a_r_c_h_i_v_e___/corrade/src/Corrade/Utility/Json.h:1347-1349 | `isParsed()` on the 64-bit layout; `JsonToken.IsParsedIffNotNone` relates it to `parsedType()` |
| `JsonToken.IsParsedIffNotNone` | a_r_c_h_i_v_e___/corrade/src/Corrade/Utility/Json.h:1347-1361 | `isParsed()` holds iff `parsedType()` is not `ParsedType::None` |
| `JsonToken.ChildCount` | a_r_c_h_i_v_e___/corrade/src/Corrade/Utility/Json.h:884-897 | the number of nested tokens: the stored count for a container and 0 for other values; for an object key it follows the reading argued above (1 plus the value's own nested tokens), not the header's "always returns 1"; `JsonToken.KeyNextSkipsValue` and `JsonToken.ChildrenTileSubtree` state what that gives `next()` |
| `JsonToken.FirstChild` | a_r_c_h_i_v_e___/corrade/src/Corrade/Utility/Json.h:1372-1392 | `firstChild()`: the following slot for a non-empty container or an object key, none otherwise; `JsonToken.FirstChildIffChildren` states it |
| `JsonToken.FirstChildIffChildren` | a_r_c_h_i_v_e___/corrade/src/Corrade/Utility/Json.h:1372-1392 | in a well-formed token list `firstChild()` is the next slot exactly when `childCount()` is non-zero, and that child's tree lies inside the token's |
| `JsonToken.KeyNextSkipsValue` | a_r_c_h_i_v_e___/corrade/src/Corrade/Utility/Json.h:884-897 | an object key's `next()` is its value's `next()` |
| `JsonToken.Next` | a_r_c_h_i_v_e___/corrade/src/Corrade/Utility/Json.h:956-958 | `next()`: the slot after the token's whole tree; `JsonToken.NextOfLeaf`, `JsonToken.KeyNextSkipsValue`, `JsonToken.Siblings` and `JsonToken.ChildrenTileSubtree` state its behaviour |
| `JsonToken.NextOfLeaf` | a_r_c_h_i_v_e___/corrade/src/Corrade/Utility/Json.h:956-958 | a token without a first child has the following slot as `next()` |
| `JsonToken.Siblings` | a_r_c_h_i_v_e___/corrade/src/Corrade/Utility/Json.h:940-958 | walking with `next()` across a run of trees visits roots in order, each root's `next()` being the following root, and the last ends the run |
| `JsonToken.ImmediateChildren` | a_r_c_h_i_v_e___/corrade/src/Corrade/Utility/Json.h:917-937 | the immediate children reached through `firstChild()` and `next()` (the roots inside the nested range that `children()` returns): empty exactly when `firstChild()` is null, starting at `firstChild()` and inside the token's tree |
| `JsonToken.SiblingsCover` | a_r_c_h_i_v_e___/corrade/src/Corrade/Utility/Json.h:72-80 | every slot of a run of trees lies in the tree of one of the roots `next()` visits |
| `JsonToken.ChildrenTileSubtree` | a_r_c_h_i_v_e___/corrade/src/Corrade/Utility/Json.h:72-80 | the children's trees tile the parent's: the last child's `next()` is the parent's and every nested slot lies under some child |
| `JsonToken.Signed32` | a_r_c_h_i_v_e___/corrade/src/Corrade/Utility/Json.h:1424-1428 | the two's-complement reading of 32 bits is in the `int32` range, negative iff the top bit is set, and congruent to the bits |
| `JsonToken.Signed64` | a_r_c_h_i_v_e___/corrade/src/Corrade/Utility/Json.h:1437-1441 | the same for 64 bits |
| `JsonToken.Low32` | a_r_c_h_i_v_e___/corrade/src/Corrade/Utility/Json.h:1412-1428 | the 32-bit members of the union are below 2^32 |
| `JsonToken.AsNull` | a_r_c_h_i_v_e___/corrade/src/Corrade/Utility/Json.h:1394-1398 | succeeds iff the type is Null and the token is parsed |
| `JsonToken.AsBool` | a_r_c_h_i_v_e___/corrade/src/Corrade/Utility/Json.h:1400-1404 | succeeds iff the type is Bool and the token is parsed |
| `JsonToken.AsDouble` | a_r_c_h_i_v_e___/corrade/src/Corrade/Utility/Json.h:1406-1410 | succeeds iff the parsed type is Double |
| `JsonToken.AsFloat` | a_r_c_h_i_v_e___/corrade/src/Corrade/Utility/Json.h:1412-1416 | succeeds iff the parsed type is Float |
| `JsonToken.AsUnsignedInt` | a_r_c_h_i_v_e___/corrade/src/Corrade/Utility/Json.h:1418-1422 | succeeds iff the parsed type is UnsignedInt, with a value below 2^32 |
| `JsonToken.AsInt` | a_r_c_h_i_v_e___/corrade/src/Corrade/Utility/Json.h:1424-1428 | succeeds iff the parsed type is Int, with a value in the `int32` range |
| `JsonToken.AsUnsignedLong` | a_r_c_h_i_v_e___/corrade/src/Corrade/Utility/Json.h:1430-1434 | succeeds iff the parsed type is UnsignedLong, with a value below 2^64 |
| `JsonToken.AsLong` | a_r_c_h_i_v_e___/corrade/src/Corrade/Utility/Json.h:1436-1441 | succeeds iff the parsed type is Long, with a value in the `int64` range |
| `JsonToken.AsSize` | a_r_c_h_i_v_e___/corrade/src/Corrade/Utility/Json.h:1444-1452 | succeeds iff the parsed type is `ParsedType::Size` |
| `JsonToken.AsSizeIsAsUnsignedLong` | a_r_c_h_i_v_e___/corrade/src/Corrade/Utility/Json.h:788-796 | with `Size` aliasing `UnsignedLong`, `asSize()` accepts exactly what `asUnsignedLong()` accepts and returns the same value |
| `JsonToken.NumericGettersExclusive` | a_r_c_h_i_v_e___/corrade/src/Corrade/Utility/Json.h:1394-1441 | every getter that succeeds implies `isParsed()`, and at most one numeric getter accepts a token |
| `JsonToken.ParseStringsImpliesKeys` | a_r_c_h_i_v_e___/corrade/src/Corrade/Utility/Json.h:226-242 | an option set containing `ParseStrings` contains `ParseStringKeys` |

## Left out

- `src/graph.js` is not part of this model. It configures d3's force simulation and zoom and the PIXI renderer (foreign libraries) with floating-point positions and animation-frame scheduling.
- `src/bubble_content_script.js` and the `chrome.storage` calls in `src/script.js` (`startup` and `store`) are asynchronous platform I/O. The id `store` would receive is the return value of `Theme.SelectClick`.
- `runclick` and `switches` in `src/script.js` are synchronous start-up DOM wiring and are not part of this model: `runclick` looks up the stored theme's element and clicks it (that click is `Theme.SelectClick`), and `switches` sets `defaultChecked` on the first child of every switch.
- `src/test.js` is an unused prototype that cannot work as written (`children.size` on an array, a `find` that returns nothing, a `par` never assigned), so it has no intended behaviour to state.
- The Magnum EGL application test is not part of this model: GPU context creation through libraries not shown.
- `Json`'s tokenizer and `parse*` functions live in `Json.cpp`, which is not part of this model. The token list is an input, and `JsonToken.WellFormed` states what the tokenizer is taken to produce.
- Floating-point values are out of scope. `JsonToken.AsDouble` and `JsonToken.AsFloat` return the stored bit patterns, not numbers.
- The 32-bit NaN-boxing layout of `JsonToken` is not modelled; only the 64-bit branch is.
- `JsonToken.FirstChild` and `JsonToken.Next` return slot indices. A `nullptr` is `None`, and pointer arithmetic past the list is not modelled.
- `print`, `printConnect` and `operator<<` in both graph headers, and the file opening, error exit and `argc` check of `data/main.cpp`, are output and process handling. `ReadFile` takes the file's token sequence.
- Wgraph.Wgraph.Add: the `Node` allocated for a key that is already present is never freed. The model allocates it too but does not track the leak.
- Both graph headers store raw pointers. The model has no deletion, so dangling pointers cannot arise.
- CSS transitions and the 10 ms `setTimeout` of `closeDragElement` are not modelled as time. The timer is the separate event `Panel.Page.CloseDrag`, and the script's `transition` string is not recorded. `Panel.Page.CloseDrag` puts down whichever element holds the mouse-up handler when the timer fires, while the script puts down the element whose `closeDragElement` started the timer; the two differ only when another mouse-down arrives within those 10 ms.
- Panel.Page.MouseMove: takes the bounding rectangle as a parameter. It does not check that the rectangle agrees with `left`/`top`, since the layout engine computes it.
- Panel.Page.KeyDown: does not state that a control other than the one clicked is unchanged when the four controls share DOM elements, as it cannot see the page's markup.
- The viewport size is read once at load, as the script does. Window resizing is not modelled.
