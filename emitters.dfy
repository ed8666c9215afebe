/** The sprite emitter (ofApp.h:65-103, ofApp.cpp:140-286): a small state
    machine (`started`, `count`, `lastSpawned`) that feeds one sprite system.
    `Spawner` is the value an emitter and its system amount to for spawning;
    `Next` is one call of `Emitter::update` on that value, and the class
    `Emitter` is proved to perform exactly `Next` in place. */
module Emitters {
  import opened Geometry
  import opened Sprites
  import Seqs

  /** What `update` reads and writes of an emitter and its sprite system. */
  datatype Spawner = Spawner(
    started: bool,
    count: int,
    lastSpawned: real,
    setNo: bool,
    noChild: int,
    rate: real,
    trans: Vec2,
    velocity: Vec2,
    lifespan: real,
    haveChildImage: bool,
    childImage: Image,
    childWidth: real,
    childHeight: real,
    sprites: seq<Sprite>)

  /** The spawn settings, which `update`, `start` and `stop` never change. */
  predicate SameConfig(a: Spawner, b: Spawner)
  {
    a.(started := b.started, count := b.count, lastSpawned := b.lastSpawned, sprites := b.sprites) == b
  }

  /** The rate-mode test `(time - lastSpawned) > (1000.0 / rate)`. A rate of
      zero makes the interval an infinite float, which no finite elapsed time
      exceeds. */
  predicate RateDue(now: real, lastSpawned: real, rate: real)
  {
    rate != 0.0 && now - lastSpawned > 1000.0 / rate
  }

  /** The sprite `update` builds: a default sprite, given the child image if
      there is one, then the emitter's velocity and lifespan, the position
      `pos`, birth time `now`, and the child size (which overrides the image
      size). */
  function Child(s: Spawner, pos: Vec2, now: real): (r: Sprite)
    ensures r.trans == pos && r.birthtime == now
    ensures r.velocity == s.velocity && r.lifespan == s.lifespan
    ensures r.width == s.childWidth && r.height == s.childHeight
    ensures r.haveImage == s.haveChildImage
    ensures r.image == if s.haveChildImage then s.childImage else NoImage
    ensures r.(trans := Origin, birthtime := 0.0, velocity := Origin, lifespan := Immortal,
               width := 40.0, height := 80.0, haveImage := false, image := NoImage) == DefaultSprite
  {
    var base := if s.haveChildImage then WithImage(DefaultSprite, s.childImage) else DefaultSprite;
    base.(velocity := s.velocity, lifespan := s.lifespan, trans := pos, birthtime := now,
          width := s.childWidth, height := s.childHeight)
  }

  /** The sprites one `update` at time `now` appends: none when stopped; in
      burst mode one at the emitter while `count < noChild`; in rate mode one
      at the muzzle, `muzzle(velocity)` ahead of the emitter, once the
      interval has passed. */
  function Spawned(s: Spawner, now: real, muzzle: Vec2 -> Vec2): (r: seq<Sprite>)
    ensures |r| <= 1
    ensures r != [] <==> s.started && (if s.setNo then s.count < s.noChild else RateDue(now, s.lastSpawned, s.rate))
    ensures r != [] && s.setNo ==> r[0] == Child(s, s.trans, now)
    ensures r != [] && !s.setNo ==> r[0] == Child(s, s.trans.Plus(muzzle(s.velocity)), now)
  {
    if !s.started then []
    else if s.setNo then
      if s.count < s.noChild then [Child(s, s.trans, now)] else []
    else if RateDue(now, s.lastSpawned, s.rate) then [Child(s, s.trans.Plus(muzzle(s.velocity)), now)]
    else []
  }

  /** `Emitter::update` at time `now` and frame rate `frameRate`. A stopped
      emitter only runs the removal loop, which leaves the odd-indexed
      sprites; a started one appends what `Spawned` gives, counts a burst
      spawn, records the spawn time, and then updates its sprite system. */
  function Next(s: Spawner, now: real, frameRate: real, muzzle: Vec2 -> Vec2): (r: Spawner)
    requires frameRate > 0.0
    ensures SameConfig(s, r) && r.started == s.started
  {
    if !s.started then s.(sprites := OddIndexed(s.sprites))
    else
      var born := Spawned(s, now, muzzle);
      s.(count := if s.setNo && born != [] then s.count + 1 else s.count,
         lastSpawned := if born != [] then now else s.lastSpawned,
         sprites := AfterUpdate(s.sprites + born, now, frameRate))
  }

  /** `Emitter::start` at time `now`. */
  function Restart(s: Spawner, now: real): (r: Spawner)
    ensures SameConfig(s, r) && r.sprites == s.sprites
  {
    s.(started := true, count := 0, lastSpawned := now)
  }

  /** What the game loop does to an invader emitter it reaches: update it
      when started, otherwise only start it. */
  function Activate(s: Spawner, now: real, frameRate: real, muzzle: Vec2 -> Vec2): (r: Spawner)
    requires frameRate > 0.0
    ensures SameConfig(s, r) && r.started
    ensures !s.started ==> r.sprites == s.sprites && r.count == 0 && r.lastSpawned == now
  {
    if s.started then Next(s, now, frameRate, muzzle) else Restart(s, now)
  }

  /** Successive updates at the times `times`, all at one frame rate. */
  function Run(s: Spawner, times: seq<real>, frameRate: real, muzzle: Vec2 -> Vec2): (r: Spawner)
    requires frameRate > 0.0
    ensures SameConfig(s, r) && r.started == s.started
  {
    if times == [] then s
    else Next(Run(s, times[..|times| - 1], frameRate, muzzle), times[|times| - 1], frameRate, muzzle)
  }

  /** Every sprite spawned during `Run(s, times, ...)`, in spawn order. */
  function Spawns(s: Spawner, times: seq<real>, frameRate: real, muzzle: Vec2 -> Vec2): seq<Sprite>
    requires frameRate > 0.0
  {
    if times == [] then []
    else
      var init := times[..|times| - 1];
      Spawns(s, init, frameRate, muzzle) + Spawned(Run(s, init, frameRate, muzzle), times[|times| - 1], muzzle)
  }

  /** A stopped update leaves exactly the sprites at odd positions, unchanged
      and unmoved, and nothing else. */
  lemma StoppedUpdate(s: Spawner, now: real, frameRate: real, muzzle: Vec2 -> Vec2)
    requires frameRate > 0.0 && !s.started
    ensures var r := Next(s, now, frameRate, muzzle);
      && |r.sprites| == |s.sprites| / 2
      && (forall k :: 0 <= k < |r.sprites| ==> r.sprites[k] == s.sprites[2 * k + 1])
      && r == s.(sprites := r.sprites)
  {
  }

  /** A stopped emitter with an empty system keeps it empty. */
  lemma StoppedStaysEmpty(s: Spawner, now: real, frameRate: real, muzzle: Vec2 -> Vec2)
    requires frameRate > 0.0
    ensures !s.started && s.sprites == [] ==> Next(s, now, frameRate, muzzle).sprites == []
  {
    if !s.started {
      StoppedUpdate(s, now, frameRate, muzzle);
    }
  }

  /** `n` halved `j` times, rounding down each time. */
  function Halved(n: nat, j: nat): nat
  {
    if j == 0 then n else Halved(n, j - 1) / 2
  }

  /** Repeated stopped updates empty the system: each one halves the number
      of sprites, rounding down, so after `j` of them at most `n - j` of the
      `n` sprites remain. */
  lemma {:induction false} StoppedDrains(s: Spawner, times: seq<real>, frameRate: real, muzzle: Vec2 -> Vec2)
    requires frameRate > 0.0 && !s.started
    ensures |Run(s, times, frameRate, muzzle).sprites| == Halved(|s.sprites|, |times|)
    ensures |Run(s, times, frameRate, muzzle).sprites| <= if |times| < |s.sprites| then |s.sprites| - |times| else 0
    ensures Spawns(s, times, frameRate, muzzle) == []
    decreases |times|
  {
    if times != [] {
      var init := times[..|times| - 1];
      StoppedDrains(s, init, frameRate, muzzle);
      StoppedUpdate(Run(s, init, frameRate, muzzle), times[|times| - 1], frameRate, muzzle);
    }
  }

  /** Each update spawns at most one sprite. */
  lemma {:induction false} AtMostOnePerUpdate(s: Spawner, times: seq<real>, frameRate: real, muzzle: Vec2 -> Vec2)
    requires frameRate > 0.0
    ensures |Spawns(s, times, frameRate, muzzle)| <= |times|
    decreases |times|
  {
    if times != [] {
      AtMostOnePerUpdate(s, times[..|times| - 1], frameRate, muzzle);
    }
  }

  /** Burst mode: `count` counts the spawns, one per update until it reaches
      `noChild`, and never passes `noChild` once at or below it; so after a
      `start` at most `noChild` sprites are spawned. */
  lemma {:induction false} BurstTotal(s: Spawner, times: seq<real>, frameRate: real, muzzle: Vec2 -> Vec2)
    requires frameRate > 0.0 && s.started && s.setNo
    ensures var r := Run(s, times, frameRate, muzzle);
      && r.count == s.count + |Spawns(s, times, frameRate, muzzle)|
      && r.count == if s.count + |times| <= s.noChild then s.count + |times|
                    else if s.count <= s.noChild then s.noChild
                    else s.count
    decreases |times|
  {
    if times != [] {
      BurstTotal(s, times[..|times| - 1], frameRate, muzzle);
    }
  }

  /** After `start`, burst mode spawns exactly `min(updates, noChild)` sprites
      (none for a negative `noChild`). */
  lemma BurstAfterStart(s: Spawner, now: real, times: seq<real>, frameRate: real, muzzle: Vec2 -> Vec2)
    requires frameRate > 0.0 && s.setNo
    ensures var n := |Spawns(Restart(s, now), times, frameRate, muzzle)|;
      n == if |times| <= s.noChild then |times| else if 0 <= s.noChild then s.noChild else 0
  {
    BurstTotal(Restart(s, now), times, frameRate, muzzle);
  }

  /** The birth times of `ss`. */
  function Births(ss: seq<Sprite>): (r: seq<real>)
    ensures |r| == |ss|
    ensures forall i :: 0 <= i < |ss| ==> r[i] == ss[i].birthtime
  {
    seq(|ss|, i requires 0 <= i < |ss| => ss[i].birthtime)
  }

  /** Each time in `ts` is more than `gap` after the one before it, the first
      more than `gap` after `t0`. */
  predicate Spaced(t0: real, ts: seq<real>, gap: real)
  {
    && (|ts| > 0 ==> ts[0] - t0 > gap)
    && forall i :: 0 < i < |ts| ==> ts[i] - ts[i - 1] > gap
  }

  /** `lastSpawned` is the birth time of the latest spawn, in either mode. */
  lemma {:induction false} LastSpawnedIsLatest(s: Spawner, times: seq<real>, frameRate: real, muzzle: Vec2 -> Vec2)
    requires frameRate > 0.0
    ensures var sp := Spawns(s, times, frameRate, muzzle);
      Run(s, times, frameRate, muzzle).lastSpawned == if sp == [] then s.lastSpawned else sp[|sp| - 1].birthtime
    decreases |times|
  {
    if times != [] {
      LastSpawnedIsLatest(s, times[..|times| - 1], frameRate, muzzle);
    }
  }

  /** Every spawned sprite is born at one of the update times. */
  lemma {:induction false} BornAtUpdates(s: Spawner, times: seq<real>, frameRate: real, muzzle: Vec2 -> Vec2)
    requires frameRate > 0.0
    ensures forall x :: x in Spawns(s, times, frameRate, muzzle) ==> x.birthtime in times
    decreases |times|
  {
    if times != [] {
      var init := times[..|times| - 1];
      BornAtUpdates(s, init, frameRate, muzzle);
      forall x | x in Spawns(s, times, frameRate, muzzle)
        ensures x.birthtime in times
      {
        if x in Spawns(s, init, frameRate, muzzle) {
          assert x.birthtime in init;
        }
      }
    }
  }

  /** Rate mode: successive spawns are more than `1000 / rate` ms apart, the
      first more than that after the `lastSpawned` the run started from. */
  lemma {:induction false} RateSpacing(s: Spawner, times: seq<real>, frameRate: real, muzzle: Vec2 -> Vec2)
    requires frameRate > 0.0 && s.started && !s.setNo && s.rate != 0.0
    ensures Spaced(s.lastSpawned, Births(Spawns(s, times, frameRate, muzzle)), 1000.0 / s.rate)
    decreases |times|
  {
    if times != [] {
      var init := times[..|times| - 1];
      RateSpacing(s, init, frameRate, muzzle);
      LastSpawnedIsLatest(s, init, frameRate, muzzle);
      var sp0 := Spawns(s, init, frameRate, muzzle);
      var born := Spawned(Run(s, init, frameRate, muzzle), times[|times| - 1], muzzle);
      BirthsAppend(sp0, born);
      if born != [] {
        SpacedSnoc(s.lastSpawned, Births(sp0), born[0].birthtime, 1000.0 / s.rate);
      }
    }
  }

  lemma BirthsAppend(a: seq<Sprite>, b: seq<Sprite>)
    ensures Births(a + b) == Births(a) + Births(b)
  {
  }

  /** A time more than `gap` after the latest one keeps the spacing. */
  lemma SpacedSnoc(t0: real, ts: seq<real>, t: real, gap: real)
    requires Spaced(t0, ts, gap) && t - (if ts == [] then t0 else ts[|ts| - 1]) > gap
    ensures Spaced(t0, ts + [t], gap)
  {
  }

  /** Rate mode with a positive rate: `k` spawns take more than `k` intervals,
      so no run spawns faster than the rate. */
  lemma {:induction false} RateBound(t0: real, ts: seq<real>, gap: real)
    requires Spaced(t0, ts, gap) && 0.0 <= gap
    ensures ts != [] ==> ts[|ts| - 1] - t0 > (|ts| as real) * gap
    decreases |ts|
  {
    if |ts| == 1 {
      assert ts[0] - t0 > gap;
      assert (|ts| as real) * gap == gap;
    } else if |ts| > 1 {
      var init := ts[..|ts| - 1];
      forall i | 0 < i < |init|
        ensures init[i] - init[i - 1] > gap
      {
        assert ts[i] - ts[i - 1] > gap;
      }
      assert ts[|ts| - 1] - ts[|ts| - 2] > gap;
      RateBound(t0, init, gap);
      assert (|ts| as real) * gap == (|init| as real) * gap + gap;
    }
  }

  /** `Emitter`, with the `BaseObject` fields it inherits. `sys` is set once,
      by the constructor. */
  class Emitter {
    var trans: Vec2
    var scale: Vec2
    var rot: real
    var bSelected: bool
    var speed: real
    const sys: SpriteSystem
    var rate: real
    var lifespan: real
    var started: bool
    var lastSpawned: real
    var childImage: Image
    var image: Image
    var drawable: bool
    var haveChildImage: bool
    var haveImage: bool
    var width: real
    var height: real
    var childWidth: real
    var childHeight: real
    var noChild: int
    var setNo: bool
    var count: int
    var velocity: Vec2
    var verVelocity: Vec2
    var horVelocity: Vec2
    var acceleration: Vec2
    var damping: real
    var angle: real

    /** The emitter and its sprite system as a `Spawner`. */
    ghost function State(): Spawner
      reads this, sys
    {
      Spawner(started, count, lastSpawned, setNo, noChild, rate, trans, velocity, lifespan,
              haveChildImage, childImage, childWidth, childHeight, sys.sprites)
    }

    /** `Emitter(spriteSys)`: the header's initialisers, the base-object
        defaults and the constructor body. `noChild` has no initialiser, so
        the value copied into the system's `noChild` is indeterminate. */
    constructor (spriteSys: SpriteSystem)
      modifies spriteSys`noChild, spriteSys`setNo
      ensures sys == spriteSys
      ensures trans == Origin && scale == Vec2(1.0, 1.0) && rot == 0.0
      ensures lifespan == Immortal && !started && lastSpawned == 0.0 && rate == 1.0
      ensures !haveChildImage && !haveImage && drawable
      ensures velocity == Vec2(100.0, 100.0)
      ensures width == 50.0 && height == 50.0 && childWidth == 10.0 && childHeight == 10.0
      ensures !setNo && count == 0
      ensures childImage == NoImage && image == NoImage
      ensures spriteSys.noChild == noChild && !spriteSys.setNo
      ensures spriteSys.sprites == old(spriteSys.sprites)
      ensures State() == Spawner(false, 0, 0.0, false, noChild, 1.0, Origin, Vec2(100.0, 100.0), Immortal,
                                 false, NoImage, 10.0, 10.0, old(spriteSys.sprites))
    {
      trans := Origin;
      scale := Vec2(1.0, 1.0);
      rot := 0.0;
      haveImage := false;
      setNo := false;
      count := 0;
      childImage := NoImage;
      image := NoImage;
      sys := spriteSys;
      lifespan := Immortal;
      started := false;
      lastSpawned := 0.0;
      rate := 1.0;
      haveChildImage := false;
      velocity := Vec2(100.0, 100.0);
      drawable := true;
      width := 50.0;
      height := 50.0;
      childWidth := 10.0;
      childHeight := 10.0;
      new;
      spriteSys.noChild := noChild;
      spriteSys.setNo := setNo;
    }

    /** `update` at time `now`; the rate-mode muzzle offset
        `normalize(velocity) * 30` is `muzzle(velocity)`. */
    method Update(now: real, frameRate: real, muzzle: Vec2 -> Vec2)
      requires frameRate > 0.0
      modifies this`count, this`lastSpawned, sys`sprites
      ensures State() == Next(old(State()), now, frameRate, muzzle)
    {
      if !started {
        RemoveLoop();
      } else {
        ghost var st := State();
        var time := now;
        if setNo {
          if count < noChild {
            var sprite := DefaultSprite;
            if haveChildImage {
              sprite := WithImage(sprite, childImage);
            }
            sprite := sprite.(velocity := velocity, lifespan := lifespan, trans := trans, birthtime := time,
                              width := childWidth, height := childHeight);
            assert sprite == Child(st, trans, time);
            sys.Add(sprite);
            count := count + 1;
            lastSpawned := time;
          }
        } else {
          if rate != 0.0 && time - lastSpawned > 1000.0 / rate {
            var sprite := DefaultSprite;
            if haveChildImage {
              sprite := WithImage(sprite, childImage);
            }
            sprite := sprite.(velocity := velocity, lifespan := lifespan, birthtime := time,
                              width := childWidth, height := childHeight);
            sprite := sprite.(trans := trans.Plus(muzzle(velocity)), birthtime := time);
            assert sprite == Child(st, trans.Plus(muzzle(velocity)), time);
            sys.Add(sprite);
            lastSpawned := time;
          }
        }
        assert sys.sprites == st.sprites + Spawned(st, now, muzzle);
        sys.Update(time, frameRate);
      }
    }

    /** The loop a stopped `update` runs, `for (i = 0; i < size; i++)
        sys->remove(i)`: the vector shrinks as `i` grows, so it erases the
        sprites at even positions and keeps those at odd ones. */
    method RemoveLoop()
      modifies sys`sprites
      ensures sys.sprites == OddIndexed(old(sys.sprites))
    {
      ghost var s0 := sys.sprites;
      ghost var m := 0;
      var i := 0;
      while i < |sys.sprites|
        invariant m == if 2 * i <= |s0| then 2 * i else |s0|
        invariant sys.sprites == OddIndexed(s0[..m]) + s0[m..]
        decreases |s0| - m
      {
        assert 2 * i < |s0|;
        RemoveEvenStep(s0, i);
        sys.Remove(i);
        i := i + 1;
        m := if 2 * i <= |s0| then 2 * i else |s0|;
      }
      assert s0[..m] == s0;
    }

    /** `start` at time `now`. */
    method Start(now: real)
      modifies this`started, this`count, this`lastSpawned
      ensures State() == Restart(old(State()), now)
    {
      started := true;
      lastSpawned := now;
      count := 0;
    }

    /** `stop`: only clears `started`; the sprites stay until later updates. */
    method Stop()
      modifies this`started
      ensures State() == old(State()).(started := false)
    {
      started := false;
    }

    method SetPosition(pos: Vec2)
      modifies this`trans
      ensures State() == old(State()).(trans := pos)
    {
      trans := pos;
    }

    method SetLifespan(life: real)
      modifies this`lifespan
      ensures State() == old(State()).(lifespan := life)
    {
      lifespan := life;
    }

    method SetVelocity(v: Vec2)
      modifies this`velocity
      ensures State() == old(State()).(velocity := v)
    {
      velocity := v;
    }

    /** `setChildImage`: the child image and its size. */
    method SetChildImage(img: Image)
      modifies this`childImage, this`haveChildImage, this`childWidth, this`childHeight
      ensures State() == old(State()).(haveChildImage := true, childImage := img,
                                       childWidth := img.width, childHeight := img.height)
    {
      childImage := img;
      haveChildImage := true;
      childWidth := img.width;
      childHeight := img.height;
    }

    /** `setChildSize(w, h)`: the size of future children, nothing else. */
    method SetChildSize(w: real, h: real)
      modifies this`childWidth, this`childHeight
      ensures State() == old(State()).(childWidth := w, childHeight := h)
    {
      childWidth := w;
      childHeight := h;
    }

    /** `setImage`: the emitter's own image and its size. */
    method SetImage(img: Image)
      modifies this`image, this`haveImage, this`width, this`height
      ensures image == img && haveImage
      ensures width == img.width && height == img.height
      ensures State() == old(State())
    {
      image := img;
      haveImage := true;
      width := img.width;
      height := img.height;
    }

    method SetRate(r: real)
      modifies this`rate
      ensures State() == old(State()).(rate := r)
    {
      rate := r;
    }

    /** `integrate`: one frame of motion, acceleration, then damping. */
    method Integrate(frameRate: real)
      requires frameRate > 0.0
      modifies this`trans, this`velocity
      ensures trans == old(trans).Plus(old(velocity).Over(frameRate))
      ensures velocity == old(velocity).Plus(acceleration.Over(frameRate)).Times(damping)
    {
      trans := trans.Plus(velocity.Over(frameRate));
      velocity := velocity.Plus(acceleration.Over(frameRate));
      velocity := velocity.Times(damping);
    }
  }
}
