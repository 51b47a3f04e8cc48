/** The player plane sprite: its playfield, its images, its rectangle, its
    speed and its alive flag, updated in place by the move and reset
    operations. Image decoding is outside the model: a loaded image is an
    opaque `Surface` and loading is a function passed in by the caller. */
module OurPlaneSprite {
  import opened PlaneGeometry

  /** A decoded image; its pixels play no part in the model. */
  type Surface

  datatype Option<T> = None | Some(value: T)

  /** Building the plane either gives the plane or names the image file that
      could not be loaded (where the program stops with an error message). */
  datatype Result<T> = Ok(value: T) | Err(asset: string)

  /** Loads an image file by name; `None` when the file is missing or corrupt. */
  type Loader = string -> Option<Surface>

  const HeroOne: string := "hero1.png"
  const HeroTwo: string := "hero2.png"

  /** The decimal digit for `d`. */
  function DecimalDigit(d: nat): char
    requires d < 10
  {
    "0123456789"[d]
  }

  /** File name of the `i`-th explosion frame, for the single-digit numbers the
      plane uses. */
  function FrameName(i: nat): string
    requires i < 10
  {
    "hero_blowup_n" + [DecimalDigit(i)] + ".png"
  }

  /** The explosion frames' file names, numbered 1 to 4. */
  function FrameNames(): seq<string> {
    seq(4, k requires 0 <= k < 4 => FrameName(k + 1))
  }

  /** Every image the plane loads, in the order it loads them. */
  function AssetNames(): seq<string> {
    [HeroOne, HeroTwo] + FrameNames()
  }

  /** Every named image loads. */
  predicate AllLoad(load: Loader, names: seq<string>) {
    forall k :: 0 <= k < |names| ==> load(names[k]).Some?
  }

  /** The first name, in order, whose image does not load. */
  function FirstFailure(load: Loader, names: seq<string>): Option<string> {
    if names == [] then None
    else if load(names[0]).None? then Some(names[0])
    else FirstFailure(load, names[1..])
  }

  /** The images of the names before the first one that does not load. */
  function LoadedPrefix(load: Loader, names: seq<string>): seq<Surface> {
    if names == [] || load(names[0]).None? then []
    else [load(names[0]).value] + LoadedPrefix(load, names[1..])
  }

  /** The explosion frame names are spelled out in order. */
  lemma FrameNamesSpelled()
    ensures FrameNames() == ["hero_blowup_n1.png", "hero_blowup_n2.png", "hero_blowup_n3.png", "hero_blowup_n4.png"]
  {
    assert FrameName(1) == "hero_blowup_n1.png";
    assert FrameName(2) == "hero_blowup_n2.png";
    assert FrameName(3) == "hero_blowup_n3.png";
    assert FrameName(4) == "hero_blowup_n4.png";
  }

  /** There are four explosion frame names and no two are the same. */
  lemma FrameNamesDistinct()
    ensures |FrameNames()| == 4
    ensures forall j, k :: 0 <= j < k < 4 ==> FrameNames()[j] != FrameNames()[k]
  {
    forall j, k | 0 <= j < k < 4
      ensures FrameNames()[j] != FrameNames()[k]
    {
      assert FrameNames()[j][13] != FrameNames()[k][13];
    }
  }

  /** Loading stops at a failure exactly when some image does not load. */
  lemma {:induction false} FirstFailureNoneIff(load: Loader, names: seq<string>)
    ensures FirstFailure(load, names) == None <==> AllLoad(load, names)
    decreases |names|
  {
    if names != [] {
      FirstFailureNoneIff(load, names[1..]);
      if load(names[0]).Some? && !AllLoad(load, names) {
        var k :| 0 <= k < |names| && load(names[k]).None?;
        assert names[1..][k - 1] == names[k];
      }
    }
  }

  /** When every image loads, the loaded frames are the images of the names,
      one per name and in the same order. */
  lemma {:induction false} LoadedPrefixAll(load: Loader, names: seq<string>)
    requires AllLoad(load, names)
    ensures |LoadedPrefix(load, names)| == |names|
    ensures forall k :: 0 <= k < |names| ==> LoadedPrefix(load, names)[k] == load(names[k]).value
    decreases |names|
  {
    if names != [] {
      assert load(names[0]).Some?;
      assert AllLoad(load, names[1..]) by {
        forall k | 0 <= k < |names[1..]| ensures load(names[1..][k]).Some? {
          assert names[1..][k] == names[k + 1];
        }
      }
      LoadedPrefixAll(load, names[1..]);
    }
  }

  /** When some image does not load, the frames loaded before it are those of
      the names in front of it, and the first failing name is the one right
      after them. */
  lemma {:induction false} LoadedPrefixStopsAtFailure(load: Loader, names: seq<string>)
    requires FirstFailure(load, names).Some?
    ensures var n := |LoadedPrefix(load, names)|;
      n < |names| && names[n] == FirstFailure(load, names).value &&
      load(names[n]).None? && AllLoad(load, names[..n]) &&
      forall k :: 0 <= k < n ==> LoadedPrefix(load, names)[k] == load(names[k]).value
    decreases |names|
  {
    if load(names[0]).Some? {
      LoadedPrefixStopsAtFailure(load, names[1..]);
      var n := |LoadedPrefix(load, names[1..])|;
      assert names[..n + 1] == [names[0]] + names[1..][..n];
    }
  }

  /** All six images loading splits into the two idle images and the four
      explosion frames loading. */
  lemma AssetsLoad(load: Loader)
    requires AllLoad(load, AssetNames())
    ensures load(HeroOne).Some? && load(HeroTwo).Some?
    ensures AllLoad(load, FrameNames())
  {
    assert AssetNames()[0] == HeroOne && AssetNames()[1] == HeroTwo;
    forall k | 0 <= k < |FrameNames()| ensures load(FrameNames()[k]).Some? {
      assert AssetNames()[k + 2] == FrameNames()[k];
    }
  }

  class OurPlane {
    /** Playfield size. */
    var width: int
    var height: int
    /** The two idle images. */
    var imageOne: Surface
    var imageTwo: Surface
    /** The sprite's rectangle: its size and its top-left corner. */
    var rectWidth: int
    var rectHeight: int
    var left: int
    var top: int
    var speed: int
    /** True while the plane is alive; other parts of the game clear it. */
    var active: bool
    /** The explosion animation frames, in order. */
    var destroyImages: seq<Surface>

    function Geo(): Geometry
      reads this
    {
      Geometry(width, height, rectWidth, rectHeight, speed)
    }

    function At(): Placement
      reads this
    {
      Placement(left, top)
    }

    /** The sprite fits on the playfield and lies inside it. */
    ghost predicate Valid()
      reads this
    {
      Fits(Geo()) && InBounds(Geo(), At())
    }

    /** Builds the plane for a playfield of `bgWidth` by `bgHeight` with a
        sprite of `spriteWidth` by `spriteHeight`, loading every image. */
    constructor (bgWidth: int, bgHeight: int, spriteWidth: int, spriteHeight: int, load: Loader)
      requires load(HeroOne).Some? && load(HeroTwo).Some?
      requires AllLoad(load, FrameNames())
      ensures Geo() == Geometry(bgWidth, bgHeight, spriteWidth, spriteHeight, InitialSpeed)
      ensures At() == Spawn(Geo())
      ensures active
      ensures imageOne == load(HeroOne).value && imageTwo == load(HeroTwo).value
      ensures |destroyImages| == 4
      ensures forall k :: 0 <= k < 4 ==> destroyImages[k] == load(FrameNames()[k]).value
      ensures Fits(Geo()) ==> Valid()
    {
      width, height := bgWidth, bgHeight;
      imageOne := load(HeroOne).value;
      imageTwo := load(HeroTwo).value;
      rectWidth, rectHeight := spriteWidth, spriteHeight;
      left := (bgWidth - spriteWidth) / 2;
      top := bgHeight - spriteHeight - MarginBottom;
      speed := InitialSpeed;
      active := true;
      destroyImages := [];
      new;
      FirstFailureNoneIff(load, FrameNames());
      var failed := LoadDestroyImages(load);
      assert failed == None;
      LoadedPrefixAll(load, FrameNames());
      if Fits(Geo()) {
        SpawnInBounds(Geo());
      }
    }

    /** Appends the explosion frames in name order, stopping at the first name
        whose image does not load and returning that name. */
    method LoadDestroyImages(load: Loader) returns (failed: Option<string>)
      modifies this`destroyImages
      ensures failed == FirstFailure(load, FrameNames())
      ensures destroyImages == old(destroyImages) + LoadedPrefix(load, FrameNames())
    {
      var names := FrameNames();
      var i := 0;
      while i < |names|
        invariant 0 <= i <= |names|
        invariant FirstFailure(load, names[i..]) == FirstFailure(load, names)
        invariant old(destroyImages) + LoadedPrefix(load, names) == destroyImages + LoadedPrefix(load, names[i..])
      {
        assert names[i..][1..] == names[i + 1..];
        var img := load(names[i]);
        if img.None? {
          return Some(names[i]);
        }
        destroyImages := destroyImages + [img.value];
        i := i + 1;
      }
      return None;
    }

    method MoveUp()
      modifies this`top
      ensures top == Max(old(top) - speed, 0)
      ensures At() == Step(Geo(), old(At()), Up)
      ensures old(Valid()) ==> Valid()
    {
      top := Max(top - speed, 0);
    }

    method MoveDown()
      modifies this`top
      ensures top == Min(old(top) + speed, height - MarginBottom - rectHeight)
      ensures At() == Step(Geo(), old(At()), Down)
      ensures old(Valid()) ==> Valid()
    {
      var maxTop := height - MarginBottom - rectHeight;
      top := Min(top + speed, maxTop);
    }

    method MoveLeft()
      modifies this`left
      ensures left == Max(old(left) - speed, 0)
      ensures At() == Step(Geo(), old(At()), Left)
      ensures old(Valid()) ==> Valid()
    {
      left := Max(left - speed, 0);
    }

    method MoveRight()
      modifies this`left
      ensures left == Min(old(left) + speed, width - rectWidth)
      ensures At() == Step(Geo(), old(At()), Right)
      ensures old(Valid()) ==> Valid()
    {
      var maxLeft := width - rectWidth;
      left := Min(left + speed, maxLeft);
    }

    /** Respawn: back to the start position, alive again. The images are kept. */
    method Reset()
      modifies this`left, this`top, this`active
      ensures At() == Spawn(Geo()) && active
      ensures Fits(Geo()) ==> Valid()
    {
      left := (width - rectWidth) / 2;
      top := height - rectHeight - MarginBottom;
      active := true;
      if Fits(Geo()) {
        SpawnInBounds(Geo());
      }
    }
  }

  /** Builds the plane if every image loads; otherwise names the first image,
      in loading order, that does not. */
  method Create(bgWidth: int, bgHeight: int, spriteWidth: int, spriteHeight: int, load: Loader)
    returns (r: Result<OurPlane>)
    ensures r.Err? <==> !AllLoad(load, AssetNames())
    ensures r.Err? ==> Some(r.asset) == FirstFailure(load, AssetNames())
    ensures r.Ok? ==> fresh(r.value) && r.value.active && r.value.At() == Spawn(r.value.Geo())
    ensures r.Ok? ==> r.value.Geo() == Geometry(bgWidth, bgHeight, spriteWidth, spriteHeight, InitialSpeed)
    ensures r.Ok? ==> load(HeroOne) == Some(r.value.imageOne) && load(HeroTwo) == Some(r.value.imageTwo)
    ensures r.Ok? ==> |r.value.destroyImages| == 4
    ensures r.Ok? ==> forall k :: 0 <= k < 4 ==> load(FrameNames()[k]) == Some(r.value.destroyImages[k])
  {
    FirstFailureNoneIff(load, AssetNames());
    var failed := FirstFailure(load, AssetNames());
    if failed.Some? {
      return Err(failed.value);
    }
    AssetsLoad(load);
    var plane := new OurPlane(bgWidth, bgHeight, spriteWidth, spriteHeight, load);
    return Ok(plane);
  }
}
