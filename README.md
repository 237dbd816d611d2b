# MiniMetroAI core, modelled in Dafny

MiniMetroAI is a small Mini Metro style game written in Python with pygame.
Stations of three shapes (circle, square, triangle) are placed on a grid next to
a river. Passengers wait at a station for a station of another shape. The player
connects stations with coloured train lines. Trains cycle along a line and pick
passengers up and drop them off. Maps, with one river each, are generated and
saved as numbered JSON files.

This project models the game's logic and proves properties of it:

- **Station placement.** `Stations.Station.GenerateNewStation` filters the shared
  candidate grid (`Stations.GridCandidates`) by the river margin and the forbidden
  distance to existing stations, picks a point, and removes that point from the grid
  in place. `Stations.Station.GenerateInitialStations` places at most one station per
  shape, in a fixed order. Also modelled: the click hit-test and passenger spawning.
- **Passenger layout.** Rows of four slots, to the right of the station.
- **Train lines.** Appending stations when absent, the sidebar selection state, and
  the stepwise integer route between two stations (horizontal, vertical or diagonal
  unit steps).
- **Trains.** Cyclic movement, boarding oldest passengers first up to the capacity,
  and drop-off.
- **The connection register.** Stores unordered station pairs, each at most once.
- **Map file numbering.** The next `map_NNN.json` name for a directory listing.
- **River generation.** The choice of two different borders and of the endpoints on
  them, the 100 x coordinates of the centre line, the thickness profile and its
  maximum. The maximum is the distance the river polygon is buffered by.
- **Sidebar input.** The play and restart buttons, and the "activate exactly the
  clicked line" update.

Modelling choices:

- **Coordinates.** Points are integer pairs. A Euclidean distance compared with an
  integer bound is stated on squares: `sqrt(D) > d` is `D > d * d` for `d >= 0`.
- **The river.** It is the parameter `river: Point -> real`, the distance from a
  point to the river polygon. A point is placed only when that distance exceeds the
  margin.
- **Randomness.** `random.choice`, `random.randint` and the spawn coin become
  nondeterministic choice (`:|`) within the bounds the code draws from.
- **pygame rectangles.** `collidepoint` is the half-open box test `Geometry.Rect.CollidePoint`.
- **Settings.** The game's settings module is not part of this model. Its constants
  (FORBIDDEN_DISTANCE, RIVER_MARGIN, PASSENGER_SPAWN_INTERVAL, BORDER_MARGIN, GRID_SIZE)
  are parameters of the operations that use them.

Files: `wrappers.dfy` (Option, Result), `geometry.dfy`, `seqs.dfy` (the list
operations the code uses), `passengers.dfy`, `stations.dfy`, `train_lines.dfy`,
`trains.dfy`, `connections.dfy`, `map_generation.dfy`, `map_utils.dfy`, `sidebar.dfy`.

## Model

| member | source | states |
|---|---|---|
| Seqs.RemoveFirst | src/models/stations.py:75 | `list.remove(x)` for an element x of the list: the result is one shorter and is the list with its first occurrence of x cut out |
| Seqs.RemoveFirstMultiset | src/models/stations.py:75 | removing exactly one copy of x and nothing else |
| Seqs.RemoveFirstMembers | src/models/stations.py:108 | removal makes no element appear, and makes none but x disappear |
| Seqs.RemoveFirstDistinct | maps/map_utils.py:7-9 | from a list without duplicates, such as the four borders, removing x leaves exactly the other elements |
| Seqs.Select | src/models/stations.py:66-70 | a comprehension with an `if` keeps exactly the elements that pass the test, in order, and never lengthens the list |
| Seqs.Range | src/models/stations.py:90-91 | every value of `range(start, stop, step)` lies in [start, stop) for a positive step and in (stop, start] for a negative one |
| Seqs.RangeElement | src/models/stations.py:90-91 | the i-th value of `range(start, stop, step)` with a positive step is start + i * step and lies in [start, stop) |
| Seqs.Lattice | src/main.py:23-27 | the nested comprehension over xs and ys has \|xs\| * \|ys\| points, and p is among them iff p.x is in xs and p.y is in ys |
| Passengers.CalculatePosition | src/models/passengers.py:13-20 | the x offset is 20, 40, 60 or 80, and the y offset is 20 * (index div 4) |
| Passengers.NewPassenger | src/models/passengers.py:8-10 | the constructor stores exactly the computed slot as the position, together with the shape |
| Passengers.FirstSlot | src/models/passengers.py:18-20 | index 0 is placed at (bx + 20, by) |
| Passengers.RowOfFour | src/models/passengers.py:16-19 | indices 4k to 4k+3 share the row 20k below the station, at x offsets 20, 40, 60 and 80 |
| Passengers.LayoutInjective | src/models/passengers.py:16-20 | two indices with the same slot are equal: distinct indices get distinct slots |
| Passengers.SlotReuse | src/models/stations.py:28 | the spawn index is the current queue length, so after a train pops k passengers from the front of a queue of at least 2k laid out by index, the next passenger spawned gets the slot of one still waiting |
| Stations.Station.constructor | src/models/stations.py:10-16 | stores x, y and shape (the radius is the constant 20); no passengers; spawn timer 0 |
| Stations.Station.SpawnPassenger | src/models/stations.py:18-29 | before the interval has passed, nothing changes. Otherwise either nothing changes (the coin) or exactly one passenger is appended, with every older one kept: its shape is one of the three and differs from the station's, its slot index is the old count, and the timer becomes the elapsed time |
| Stations.Station.Contains | src/models/stations.py:112-127 | circle: true iff dx² + dy² ≤ 20². Square: true iff the point is in the closed box of half-width 20. Triangle: true iff \|dx\| ≤ 20 and \|dy\| ≤ 8. Any other shape: false. Every hit lies in the closed box |
| Stations.TriangleHalfHeight | src/models/stations.py:124-126 | for integer offsets, the bound of half the triangle height (20·√3/4 ≈ 8.66) is exactly \|dy\| ≤ 8 |
| Stations.ContainsCentre | src/models/stations.py:112-127 | a station contains its own centre iff its shape is one of the three |
| Stations.CircleWithinSquare | src/models/stations.py:117-121 | a click that hits a circle station also hits a square station at the same place |
| Stations.Station.GenerateNewStation | src/models/stations.py:61-78 | None iff no point of the grid is farther than the margin from the river and farther than the forbidden distance from every existing station; on None the grid is unchanged. On success the point came from the grid and passes both tests, and the grid is the old grid with that point's first occurrence removed (one shorter, one copy less, order kept). The station is new, its shape is one of the three, and it has no passengers |
| Stations.Station.GenerateInitialStations | src/models/stations.py:81-110 | at most three stations, the i-th with the i-th shape of circle, square, triangle. Each has x in range(FD, width − sidebar, grid) and y in range(FD, height, grid), and is farther than FD from the river. They are pairwise farther than FD apart. When fewer than three are placed, every candidate is either used or within FD of a placed station. All are new and carry no passengers |
| Geometry.FartherThan | src/models/stations.py:69 | `Point(p).distance(Point(q)) > d`, stated on squares; for d ≥ 0 no point passes it against itself |
| Geometry.Rect.CollidePoint | src/models/train_lines.py:18 | pygame's half-open `collidepoint`; a rect with no positive width and height catches no click |
| Stations.IsValidPlacement | src/models/stations.py:68-69 | the placement rule; for a non-negative forbidden distance, a point occupied by an existing station never passes it |
| Stations.FarFromStations | src/models/stations.py:102 | `all(Point(x, y).distance(Point(s.x, s.y)) > d for s in stations)`; for d ≥ 0 it fails at the position of any of those stations |
| Stations.InitialCandidates | src/models/stations.py:87-93 | p is a candidate iff p.x is in range(FD, width − sidebar, grid), p.y is in range(FD, height, grid), and p is farther than FD from the river |
| Stations.PlacedApartPairwise | src/models/stations.py:100-107 | stations placed one at a time, each far from the earlier ones, are pairwise far apart |
| Stations.GridCandidates.constructor | src/main.py:23-27 | the shared grid is the x-major lattice of range(margin, width, grid) × range(margin, height, grid) |
| Stations.GridPointBounds | src/main.py:23-27 | with a positive grid size, each grid point lies in [margin, width) × [margin, height), a whole number of steps from the margin |
| TrainLines.SelectorRect | src/models/train_lines.py:18 | the selector is 40 × 40 and centred on the sidebar centre |
| TrainLines.SelectorRectHits | src/models/train_lines.py:18 | the selector catches exactly the clicks with x in [cx−20, cx+20) and y in [cy−20, cy+20), which includes the centre |
| TrainLines.TrainLine.constructor | src/models/train_lines.py:6-13 | stores the colour; no stations; inactive; not blocked; no sidebar position |
| TrainLines.TrainLine.SetSidebarPosition | src/models/train_lines.py:15-18 | records the centre and the selector around it, and leaves the stations and flags unchanged |
| TrainLines.TrainLine.ToggleActive | src/models/train_lines.py:20-22 | negates active and changes nothing else |
| TrainLines.ToggleTwice | src/models/train_lines.py:20-22 | toggling twice restores active |
| TrainLines.TrainLine.AddConnection | src/models/train_lines.py:24-30 | the new list is the old list followed by the absent stations (station1 first). Both stations are on the line afterwards. The list grows by 0, 1 or 2, the old entries keep their places, and a duplicate-free list stays duplicate-free |
| TrainLines.AppendAbsentKeepsDistinct | src/models/train_lines.py:26-29 | appending only an absent station keeps the list duplicate-free |
| TrainLines.OffsetPath | src/models/train_lines.py:68-73 | offset index 0 returns the path unchanged |
| TrainLines.Step | src/models/train_lines.py:103-109 | one loop iteration is a king step that moves towards the end on each axis without passing it, and lowers the Chebyshev distance by exactly 1 |
| TrainLines.ApproachingWalkStep | src/models/train_lines.py:102-110 | appending a step keeps the path a walk of king steps, each one closer to the end, inside the bounding box |
| TrainLines.CalculateSimplifiedPath | src/models/train_lines.py:93-112 | the path starts at start and ends at end. Its length is max(\|dx\|, \|dy\|) + 1. Neighbouring points are one unit step apart, the Chebyshev distance to the end drops by 1 per step, and every point lies in the box of start and end |
| Trains.NextIndex | src/models/trains.py:13-14 | with more than one station the index becomes i+1, or 0 after the last, and stays in [0, n). With 0 or 1 stations it is unchanged |
| Trains.AdvanceCompose | src/models/trains.py:11-14 | a + b moves are a moves followed by b moves |
| Trains.AdvanceClimbs | src/models/trains.py:11-14 | before the wrap, k moves from i reach i + k |
| Trains.AdvanceFullCycle | src/models/trains.py:11-14 | on a line of n > 1 stations, n moves return the train to its station |
| Trains.AdvanceVisitsAll | src/models/trains.py:11-14 | within n moves the train calls at every station of the line |
| Trains.LineShapes | src/models/trains.py:20 | the i-th entry is the shape of the line's i-th station |
| Trains.Matching | src/models/trains.py:19-21 | the popped passengers the loop keeps: exactly those whose shape is a shape of the line |
| Trains.PopCount | src/models/trains.py:18-19 | the number of passengers the loop pops is at most the queue's length |
| Trains.MatchingSnoc | src/models/trains.py:19-21 | popping one more passenger adds it to the boarded ones iff its shape is served |
| Trains.PopCountRespectsCapacity | src/models/trains.py:18-21 | a train at or below capacity is never loaded above it |
| Trains.PopCountStops | src/models/trains.py:18 | the loop stops only when the train is full or the queue is empty |
| Trains.PopCountEager | src/models/trains.py:18 | each pop happens while the train is below capacity |
| Trains.BoardOne | src/models/trains.py:18-21 | one iteration pops q[j], boards it iff its shape is served, and leaves one pop fewer to go |
| Trains.BoardDone | src/models/trains.py:18-21 | when the loop ends, the train is within capacity (if it started so), and either full or the queue is empty |
| Trains.Remaining | src/models/trains.py:26-32 | the kept passengers are exactly those not bound for the station's shape, and none of them is |
| Trains.RemainingPartition | src/models/trains.py:26-32 | every passenger is either kept or dropped off |
| Trains.RemainingIdempotent | src/models/trains.py:24-32 | a second drop-off at the same station changes nothing |
| Trains.Train.constructor | src/models/trains.py:5-9 | stores the line and the capacity (6 by default); no passengers; index 0 |
| Trains.Train.Move | src/models/trains.py:11-14 | the index becomes NextIndex(i, number of stations), and the passengers are unchanged |
| Trains.Train.PickUpPassengers | src/models/trains.py:16-22 | with k the pop count: the station's queue becomes its old suffix from k (taken only from the front), and the train gains the first k popped passengers whose shape the line serves, in order. It never goes above capacity if it started within it, and ends full or with the station empty. The spawn timer and the index are unchanged |
| Trains.Train.DropOffPassengers | src/models/trains.py:24-32 | the passengers become exactly the old ones bound for other shapes, in their order |
| Connections.Connect | src/utils/connections.py:1-4 | afterwards the pair is recorded. If it was already recorded in either orientation the list is unchanged; otherwise (a, b) is appended at the end with earlier entries untouched |
| Connections.ConnectionList.constructor | src/main.py:44 | the connection list starts empty |
| Connections.ConnectionList.CreateConnection | src/utils/connections.py:1-4 | the list becomes Connect(old list, s1, s2), and preserves "no pair twice, none in both orientations" |
| Connections.AppendUnconnectedKeepsWellFormed | src/utils/connections.py:3-4 | appending an unrecorded pair keeps the register well formed |
| Connections.RegisterWellFormed | src/utils/connections.py:1-4 | any sequence of calls from an empty list yields a well-formed register that records every requested pair and has no more entries than calls |
| MapGeneration.StartsWith | maps/map_generation.py:48 | `s.startswith(p)` iff s is p followed by some text |
| MapGeneration.EndsWith | maps/map_generation.py:48 | `s.endswith(p)` iff s is some text followed by p |
| MapGeneration.NumberPart | maps/map_generation.py:49 | `f.split("_")[1].split(".")[0]` of a "map_" name is the text that directly follows "map_", and holds neither "_" nor "." |
| MapGeneration.IsDigits | maps/map_generation.py:49 | `isdigit()` over ASCII; a digit string holds neither separator |
| MapGeneration.ParseDecimal | maps/map_generation.py:49 | `int(s)` of a digit string; it is 0 iff every digit is "0" |
| MapGeneration.Counted | maps/map_generation.py:48-49 | the names the two comprehensions keep: "map_" prefix, ".json" suffix, and an all-digit number part |
| MapGeneration.NumberOf | maps/map_generation.py:49 | `int(...)` of the number part of a counted name; it is 0 iff every digit of that part is "0" |
| MapGeneration.GetNextFilename | maps/map_generation.py:46-51 | the result is itself a counted name whose number is one more than the largest counted number (0 when there is none) |
| MapGeneration.Before | maps/map_generation.py:49 | `s.split(c)[0]`: the longest prefix of s without c, followed in s by c unless it is all of s |
| MapGeneration.BeforeAt | maps/map_generation.py:49 | splitting a + c + b at c, with c not in a, gives a |
| MapGeneration.SecondField | maps/map_generation.py:49 | `s.split(c)[1]` for an s holding c: it contains no c and is the text right after the first c of s, up to the next c or the end |
| MapGeneration.SecondFieldOf | maps/map_generation.py:49 | with c not in a or b, `(a + c + b).split(c)[1]` is b |
| MapGeneration.NumberPartOf | maps/map_generation.py:49 | the number part of "map_" + d + ".json", for digits d, is d |
| MapGeneration.Digits | maps/map_generation.py:51 | the decimal digits of n, which parse back to n |
| MapGeneration.Pad3 | maps/map_generation.py:51 | the padded number is all digits and at least three long |
| MapGeneration.ParseLeadingZero | maps/map_generation.py:49 | a leading zero does not change the parsed value |
| MapGeneration.PadRoundTrip | maps/map_generation.py:49-51 | parsing the zero-padded digits of n gives n back |
| MapGeneration.Numbers | maps/map_generation.py:48-49 | n is among the numbers iff some counted name in the listing carries n |
| MapGeneration.MaxOrZero | maps/map_generation.py:50 | an upper bound of every number that is one of them, or 0 for none |
| MapGeneration.NumberPartOfName | maps/map_generation.py:49-51 | the name for n starts with "map_" and its number part is the padded n |
| MapGeneration.FormatName | maps/map_generation.py:51 | `f"map_{n:03d}.json"`: the name starts with "map_" and ends with ".json" |
| MapGeneration.FormatNameCounted | maps/map_generation.py:48-51 | the name for n is itself counted and carries n |
| MapGeneration.NextFilenameShape | maps/map_generation.py:51 | the result is "map_" + at least three digits + ".json" |
| MapGeneration.NextFilenameExceeds | maps/map_generation.py:48-51 | the result's number is greater than that of every counted name in the listing |
| MapGeneration.NextFilenameIsFree | maps/map_generation.py:46-51 | the result is not a name in the listing |
| MapGeneration.NextFilenameFirst | maps/map_generation.py:50-51 | with no counted names the result is "map_001.json" |
| MapGeneration.NumbersNone | maps/map_generation.py:48-50 | a listing without counted names yields no numbers |
| MapGeneration.NextFilenameIgnoresOthers | maps/map_generation.py:48-49 | names that are not counted do not affect the result |
| MapGeneration.NumbersOfCounted | maps/map_generation.py:48-49 | the numbers come from the counted names alone |
| MapGeneration.NoTruncation | maps/map_generation.py:51 | number 1000 is written in full: "map_1000.json" |
| MapUtils.Zip | maps/map_utils.py:53 | `list(zip(x, y))` pairs the i-th x with the i-th y |
| MapUtils.LinspaceStep | maps/map_utils.py:33-34 | for two or more values, n − 1 steps span exactly b − a, and the step has the sign of b − a |
| MapUtils.Linspace | maps/map_utils.py:33-34 | n values, the i-th being a + i·step |
| MapUtils.LinspaceEnds | maps/map_utils.py:33-34 | the first value is a and, from two values on, the last is b |
| MapUtils.LinspaceBetween | maps/map_utils.py:33-34 | every value lies between a and b |
| MapUtils.LinspaceMonotone | maps/map_utils.py:33-34 | with a ≤ b the values never decrease |
| MapUtils.KnownCurve | maps/map_utils.py:32-51 | the curve types that do not raise ValueError: "linear", "parabolic", "sine" and "cosine" |
| MapUtils.StartRange | maps/map_utils.py:13-20 | the randint bounds of the free start coordinate: from −offset to width // 2 on the top and bottom borders, to height // 2 on the left and right ones |
| MapUtils.EndRange | maps/map_utils.py:22-29 | the randint bounds of the free end coordinate: from width // 2 to width + offset on the top and bottom borders, from height // 2 to height + offset on the left and right ones |
| MapUtils.RandInt | maps/map_utils.py:14-29 | `randint(lo, hi)` gives a value in [lo, hi] iff lo ≤ hi, and ValueError otherwise |
| MapUtils.OnBorder | maps/map_utils.py:13-29 | top (v, −offset), bottom (v, height+offset), left (−offset, v), right (width+offset, v) |
| MapUtils.ChooseEndpoints | maps/map_utils.py:7-29 | on success the end border differs from the start border. The start's free coordinate is in [−offset, width//2] (top, bottom) or [−offset, height//2] (left, right). The end's is in [width//2, width+offset] or [height//2, height+offset]. Failure means a randint range can be empty |
| MapUtils.GenerateLine | maps/map_utils.py:5-53 | offset defaults to 50 and the curve type to "linear". An unknown curve type raises. A parabolic river whose endpoints share their x raises ZeroDivisionError (lines 37-39), and only that case does so among known curve types with non-empty ranges; every other known curve with non-empty ranges succeeds, and a parabolic result has endpoints with different x. A result has valid endpoints and exactly 100 points; its x values are the evenly spaced values from start.x to end.x, so the first x is start.x and the last is end.x. A linear river's y values are evenly spaced from start.y to end.y |
| MapUtils.VerticalRiverReachable | maps/map_utils.py:13-29 | whenever the ranges are non-empty, the draws can give a top start and a bottom end both at x = width // 2, the input on which the parabolic branch divides by zero |
| MapUtils.GenerateThickness | maps/map_utils.py:54-58 | the profile has length 2·(n div 2) |
| MapUtils.ThicknessProfile | maps/map_utils.py:54-58 | for n ≥ 4 the profile starts with start, ends with end, and has mid at both middle positions. For n in 2..3 it is [start, mid] |
| MapUtils.ThicknessBetween | maps/map_utils.py:54-58 | no thickness exceeds the largest of the three given ones |
| MapUtils.MaxOf | maps/map_utils.py:71 | `max` of a non-empty list is one of its values and at least every value |
| MapUtils.RiverBufferDistance | maps/map_utils.py:60-71 | fails iff the path has fewer than 2 points; the buffer distance is a value of the path's thickness profile |
| MapUtils.BufferDistanceIsMax | maps/map_utils.py:66-71 | for 4 or more points the buffer distance is max(start, mid, end), and for 2 or 3 it is max(start, mid) |
| Sidebar.HandleSidebarEvents | src/utils/sidebar.py:92-98 | a non-click returns (running, false). A click on play toggles running (play wins over restart). A click on restart alone returns (running, true). Restart is requested only in that case |
| Sidebar.PlayTwiceRestores | src/utils/sidebar.py:94-95 | two clicks on play restore the running state |
| Sidebar.Hits | src/utils/sidebar.py:103 | `line.sidebar_rect.collidepoint(mouse_pos)` for a line whose selector was placed; a line whose selector has zero width or height catches no click |
| Sidebar.LastHit | src/utils/sidebar.py:102-106 | the index of the last line among the first k whose selector catches the click, or None if none does |
| Sidebar.HandleSidebarClick | src/utils/sidebar.py:100-107 | if no selector catches the click, no active flag changes. Otherwise a line is active iff it is the last hit line, so with distinct lines exactly that one is. Stations and selectors are unchanged (only active is in the frame) |
| Sidebar.SelectorsDisjoint | src/main.py:38-40 | selectors on one column whose centres are 40 or more apart vertically (as the game sets them up) never catch the same click |

## Left out

- River geometry: Shapely's `polygon.distance` is the uninterpreted parameter `river`. `LineString.buffer` is not modelled; only the buffer distance it is given is.
- Settings module: the game's constants are not part of this model. The operations take them as parameters.
- Randomness: the model does not claim the choices are uniform. The real-valued draws of `random.uniform` in the parabolic, sine and cosine branches are not modelled.
- MapUtils.GenerateLine: the floating-point y values of the parabolic, sine and cosine curves (the random midpoint and amplitude, numpy trigonometry) come from the caller's `curveY` and are not stated. Only their number and their x values are. The parabolic branch's division by zero is modelled as the error DivisionByZero. The sine and cosine branches divide a numpy array by a zero wavelength in the same case; numpy does not raise there, and the resulting inf/nan y values are not modelled. Points and thicknesses are exact reals, not floats.
- MapUtils.GenerateLine: also returns the drawn endpoints next to the points, so the contract can speak about them. The code returns only the points.
- MapUtils.RiverBufferDistance: for fewer than two path points the code raises (max of an empty profile, or a LineString of one point). The model follows the code and returns an error, rather than the empty polygon a reader might expect.
- MapUtils.GenerateThickness: the segment count is a `nat`, so the negative counts on which numpy raises are not modelled.
- TrainLines.OffsetPath: only offset index 0 is modelled. Other offsets use a float square root and divide by zero when two consecutive path points coincide.
- Stations.Station.Contains: the floating-point square root of the circle test is replaced by the exact comparison on squares. A correctly rounded square root agrees with it for integer coordinates. The triangle test is likewise exact for integer offsets (\|dy\| ≤ 8).
- Station distances: `Point.distance(...) > FORBIDDEN_DISTANCE` is stated exactly on squares for an integer bound, not with float rounding.
- Sidebar.HandleSidebarClick: requires every line's selector to be set. The code would raise AttributeError on a line without one; every line the game builds has a selector.
- MapGeneration.IsDigits: `str.isdigit` and `int` are modelled for the ASCII digits 0-9. Other Unicode digit characters are not. For a name such as "map_².json", `isdigit()` is True and `int()` raises ValueError, so `get_next_filename` raises where GetNextFilename (which does not count the name) returns a name.
- Seqs.Range: requires a non-zero step. Python's `range` raises ValueError for step 0, so a grid size of 0 makes `generate_initial_stations` (src/models/stations.py:90-91) and the grid of src/main.py:23-27 raise; Stations.Station.GenerateInitialStations and Stations.GridCandidates.constructor carry the same requirement and do not model that error.
- Stations.Station.SpawnPassenger: the elapsed time and the spawn timer are exact reals. The code compares floats from `time.time()`, whose rounding is not modelled.
- The module-level `add_connection` in src/models/train_lines.py:55-61 repeats the method's body word for word and is not modelled separately.
- TrainLine's `trains` list is left out. No modelled operation reads or writes it.
- Printing and debug messages, pygame drawing (`draw` methods, the sidebar and grid drawing helpers), the main event loop, wall-clock timing, restart, map loading and saving, and `os.listdir`: the listing is the parameter of `GetNextFilename`.
