# OurPlane: the player plane sprite of PlayPlane

A model of the player-controlled plane of a 2D arcade shooter (`OurPlane` in
`src/plane-bug.py`). The plane knows the playfield size, its two idle images,
its four explosion frames, its rectangle (size and top-left corner), its speed
and an alive flag. Four move operations shift the rectangle by the speed along
one axis and clamp it to the playfield with `max`/`min`, keeping a 60-pixel strip
free at the bottom. `reset` puts the plane back at its start position and
marks it alive.

Two modules:

- `PlaneGeometry` (`plane_geometry.dfy`) holds the position arithmetic as values.
  It defines the playfield and sprite size (`Geometry`), the corner (`Placement`),
  the four moves (`Move`) and one move step (`Step`). It also defines a sequence
  of moves (`Run`), the start position (`Spawn`) and the bounds (`InBounds`,
  under the size condition `Fits`). The lemmas about them are here.
- `OurPlaneSprite` (`our_plane.dfy`) holds the class `OurPlane`. Its fields
  mirror the Python object's attributes and are updated in place. Every move
  and `Reset` ties the new state to the functions of `PlaneGeometry`; loading
  is stated with `FirstFailure` and `LoadedPrefix` in `OurPlaneSprite`. The module also
  models how the explosion frame names are built, loading in order with a stop
  at the first failure, and a `Create` method for the failing construction.

Image decoding is a parameter. A `Loader` maps a file name to `Some(surface)`
or to `None` when the file is missing or corrupt. `Surface` is an opaque type.
The sprite's width and height are constructor parameters in place of the
rectangle of the first idle image.

Python's `//` is floor division. For the divisor 2 it gives the same result as
Dafny's `/` on `int`, also for a negative numerator, so the start column
`(W - w) // 2` is written `(W - w) / 2`. Coordinates are unbounded integers.
The program keeps the position in the graphics library's rectangle type, which
stores fixed-width integers; for screen-sized playfields they never overflow,
so no wrap-around is modelled.

Error messages: when an explosion frame fails to load, the program's message
names that frame (`src/plane-bug.py:61`). When an idle image fails, the message
carries only the graphics library's error (`src/plane-bug.py:34`). `Create`
follows the loading order and returns the name of the first image that fails
in both cases.

## Model

| member | source | states |
|---|---|---|
| `PlaneGeometry.Max` | src/plane-bug.py:65 | the result is at least both arguments and equals one of them (Python `max`) |
| `PlaneGeometry.Min` | src/plane-bug.py:70 | the result is at most both arguments and equals one of them (Python `min`) |
| `PlaneGeometry.SpawnCentred` | src/plane-bug.py:40-41 | the free space left and right of the start column differ by 0 or 1 (floor division); the start row is the lowest allowed row `height - 60 - rect.height` |
| `PlaneGeometry.SpawnInBounds` | src/plane-bug.py:40-41 | if the sprite fits on the playfield, the start position is inside the bounds |
| `PlaneGeometry.StepClamps` | src/plane-bug.py:64-77 | each move leaves the other coordinate unchanged; the moved coordinate is the shifted value or the edge and never passes the edge it moves towards |
| `PlaneGeometry.StepInBounds` | src/plane-bug.py:64-77 | if speed >= 0, the sprite fits and it is in bounds, every move keeps it in bounds |
| `PlaneGeometry.StepAtEdgeIsNoop` | src/plane-bug.py:64-77 | with speed >= 0, a move against the edge the sprite stands on changes nothing |
| `PlaneGeometry.StepIsNoopIffAtEdge` | src/plane-bug.py:64-77 | with speed > 0 and the sprite in bounds, a move changes nothing exactly when the sprite is at that move's edge |
| `PlaneGeometry.DownAfterSpawnIsNoop` | src/plane-bug.py:67-70 | moving down from the start position changes nothing, since the start row is the lowest allowed row |
| `PlaneGeometry.RunInBounds` | src/plane-bug.py:64-77 | any sequence of moves from an in-bounds position stays in bounds |
| `PlaneGeometry.RepeatAtEdgeIsNoop` | src/plane-bug.py:72-73 | repeating a move any number of times against the edge the sprite stands on keeps the position (e.g. `move_left` at `left == 0`) |
| `PlaneGeometry.SpawnExample` | src/plane-bug.py:40-41 | playfield 480 by 700, sprite 100 by 75: start at (190, 565), the lowest row is 565, moving down is blocked |
| `OurPlaneSprite.FrameNamesSpelled` | src/plane-bug.py:53 | the explosion frame names are `hero_blowup_n1.png` to `hero_blowup_n4.png`, in that order |
| `OurPlaneSprite.FrameNamesDistinct` | src/plane-bug.py:53 | there are four frame names and no two are equal |
| `OurPlaneSprite.FirstFailureNoneIff` | src/plane-bug.py:54-61 | loading stops at no failure exactly when every named image loads |
| `OurPlaneSprite.LoadedPrefixAll` | src/plane-bug.py:54-59 | when every image loads, one frame is appended per name, in name order |
| `OurPlaneSprite.LoadedPrefixStopsAtFailure` | src/plane-bug.py:54-61 | on a failure, the appended frames are the images of the names before the failing one, in order (the k-th frame is the k-th name's image), those names all load, and the failing name comes right after them |
| `OurPlaneSprite.AssetsLoad` | src/plane-bug.py:25-31 | all six images loading means both idle images and all four explosion frames load |
| `OurPlaneSprite.OurPlane.constructor` | src/plane-bug.py:19-48 | records the playfield and sprite size, speed 10, alive, the two idle images; the start position is `Spawn`; four explosion frames, the k-th being the image of the k-th name; in bounds whenever the sprite fits |
| `OurPlaneSprite.OurPlane.LoadDestroyImages` | src/plane-bug.py:51-61 | appends exactly the frames of the names before the first failing one, in order, and returns that failing name, or `None` when all load |
| `OurPlaneSprite.OurPlane.MoveUp` | src/plane-bug.py:64-65 | `top == max(old top - speed, 0)`; only `top` may change; keeps the invariant |
| `OurPlaneSprite.OurPlane.MoveDown` | src/plane-bug.py:67-70 | `top == min(old top + speed, height - 60 - rect.height)`; only `top` may change; keeps the invariant |
| `OurPlaneSprite.OurPlane.MoveLeft` | src/plane-bug.py:72-73 | `left == max(old left - speed, 0)`; only `left` may change; keeps the invariant |
| `OurPlaneSprite.OurPlane.MoveRight` | src/plane-bug.py:75-77 | `left == min(old left + speed, width - rect.width)`; only `left` may change; keeps the invariant |
| `OurPlaneSprite.OurPlane.Reset` | src/plane-bug.py:80-83 | the position is the construction-time start position, recomputed from fields it does not change, and the plane is alive. A second call therefore changes nothing. Only `left`, `top` and `active` may change. The invariant holds whenever the sprite fits |
| `OurPlaneSprite.Create` | src/plane-bug.py:19-61 | fails exactly when some image does not load, naming the first such image in loading order; otherwise a fresh plane with the given sizes and speed 10, at the start position, alive, holding the two idle images and four explosion frames, the k-th being the image of the k-th frame name |

## Left out

- Image decoding, `convert_alpha`, `get_rect` and the collision mask (`pygame.mask.from_surface`) are left out. These are graphics library calls. Images are opaque `Surface` values from a caller-supplied `Loader`, and the sprite size is a constructor parameter.
- `BASE_DIR` and the `os.path.join` path building are left out. Images are named by their file names only.
- The process exit (`SystemExit`) on a failed load is left out. The constructor requires every image to load. `Create` returns the name of the first image that fails, and `LoadDestroyImages` returns the name of the frame that fails. The error message text is not modelled.
- The `pygame.sprite.Sprite` base class, rendering and collision are left out. They belong to the game loop, not to this object.
- Moves are not guarded on `active`. The source does not guard them either, so a plane that is not alive still moves.
- Nothing in the model sets `active` to false. In the program, other parts of the game clear it by writing the field directly.
- The invariant after construction is stated only under `Fits`, the condition that the sprite fits on the playfield above the margin and the speed is not negative. The source does not check this, and for a sprite that is too large the start position lies outside the bounds.
- The fixed width of the graphics library's rectangle coordinates is not modelled. Positions are unbounded integers, which agree with the program for any screen-sized playfield.
