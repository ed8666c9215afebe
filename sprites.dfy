/** Sprites and the sprite system that owns them (ofApp.h:16-59,
    ofApp.cpp:5-130). A sprite is a value: the system stores copies in an
    ordered vector, here a `seq<Sprite>` field that its methods reassign. */
module Sprites {
  import opened Geometry
  import Seqs

  /** An image handle, reduced to what the simulation reads of it: its size. */
  datatype Image = Image(width: real, height: real)

  /** A default-constructed `ofImage`: nothing loaded. */
  const NoImage := Image(0.0, 0.0)

  /** The lifespan sentinel for a sprite that never expires. */
  const Immortal: real := -1.0

  /** `Sprite` with the `BaseObject` fields it inherits. Times are in
      milliseconds, velocities in pixels per second. */
  datatype Sprite = Sprite(
    trans: Vec2,
    scale: Vec2,
    rot: real,
    bSelected: bool,
    speed: real,
    velocity: Vec2,
    image: Image,
    birthtime: real,
    lifespan: real,
    name: string,
    haveImage: bool,
    width: real,
    height: real)

  /** `Sprite::Sprite()` run after `BaseObject::BaseObject()`. */
  const DefaultSprite := Sprite(
    trans := Origin, scale := Vec2(1.0, 1.0), rot := 0.0, bSelected := false,
    speed := 0.0, velocity := Origin, image := NoImage, birthtime := 0.0,
    lifespan := Immortal, name := "UnamedSprite", haveImage := false,
    width := 40.0, height := 80.0)

  /** `Sprite::age()`, with the clock reading `now` passed in. */
  function Age(s: Sprite, now: real): (a: real)
    ensures (0.0 <= a) == (s.birthtime <= now)
  {
    now - s.birthtime
  }

  /** The test `SpriteSystem::update` erases a sprite by. */
  predicate Expired(s: Sprite, now: real)
  {
    s.lifespan != Immortal && Age(s, now) > s.lifespan
  }

  /** A default-constructed sprite is immortal: `update` never erases it,
      whatever its age (its birth time 0 makes that the whole elapsed time). */
  lemma DefaultSpriteImmortal(now: real)
    ensures !Expired(DefaultSprite, now) && Age(DefaultSprite, now) == now
  {
  }

  /** Once expired, a sprite stays expired. */
  lemma ExpiryLasts(s: Sprite, t1: real, t2: real)
    requires t1 <= t2 && Expired(s, t1)
    ensures Expired(s, t2)
  {
  }

  /** A sprite born at `now` is erased by the same frame's `update` exactly
      when its lifespan is negative without being the immortal -1. */
  lemma NewbornExpired(s: Sprite, now: real)
    requires s.birthtime == now
    ensures Expired(s, now) <==> s.lifespan < 0.0 && s.lifespan != Immortal
  {
  }

  /** `Sprite::setImage`: binds the image and takes its size, nothing else. */
  function WithImage(s: Sprite, img: Image): (r: Sprite)
    ensures r.haveImage && r.image == img
    ensures r.width == img.width && r.height == img.height
    ensures r.(image := s.image, haveImage := s.haveImage, width := s.width, height := s.height) == s
  {
    s.(image := img, haveImage := true, width := img.width, height := img.height)
  }

  /** One frame of motion: the per-second velocity scaled by the frame time. */
  function Moved(s: Sprite, frameRate: real): (r: Sprite)
    requires frameRate > 0.0
    ensures r.trans.Minus(s.trans) == s.velocity.Over(frameRate)
    ensures r.(trans := s.trans) == s
  {
    s.(trans := s.trans.Plus(s.velocity.Over(frameRate)))
  }

  /** Every sprite moved once, in place: same number, same order. */
  function MoveAll(ss: seq<Sprite>, frameRate: real): (r: seq<Sprite>)
    requires frameRate > 0.0
    ensures |r| == |ss| && forall i :: 0 <= i < |ss| ==> r[i] == Moved(ss[i], frameRate)
  {
    seq(|ss|, i requires 0 <= i < |ss| => Moved(ss[i], frameRate))
  }

  function Unexpired(now: real): Sprite -> bool
  {
    (s: Sprite) => !Expired(s, now)
  }

  /** The sprites the expiry pass of `update` keeps, in order. */
  function Survivors(ss: seq<Sprite>, now: real): seq<Sprite>
  {
    Seqs.Filter(ss, Unexpired(now))
  }

  /** What `SpriteSystem::update` leaves: the survivors, each moved once. */
  function AfterUpdate(ss: seq<Sprite>, now: real, frameRate: real): seq<Sprite>
    requires frameRate > 0.0
  {
    MoveAll(Survivors(ss, now), frameRate)
  }

  function Outside(point: Vec2, dist: real): Sprite -> bool
  {
    (s: Sprite) => !Near(s.trans, point, dist)
  }

  /** The sprites `removeNear(point, dist)` keeps, in order. */
  function FarFrom(ss: seq<Sprite>, point: Vec2, dist: real): seq<Sprite>
  {
    Seqs.Filter(ss, Outside(point, dist))
  }

  /** The elements at odd positions 1, 3, 5, ... of `ss`. */
  function OddIndexed(ss: seq<Sprite>): (r: seq<Sprite>)
    ensures |r| == |ss| / 2
    ensures forall k :: 0 <= k < |r| ==> r[k] == ss[2 * k + 1]
  {
    if |ss| < 2 then [] else [ss[1]] + OddIndexed(ss[2..])
  }

  /** Picking odd positions distributes over a split at an even length. */
  lemma {:induction false} OddIndexedAppend(x: seq<Sprite>, y: seq<Sprite>)
    requires |x| % 2 == 0
    ensures OddIndexed(x + y) == OddIndexed(x) + OddIndexed(y)
    decreases |x|
  {
    if x == [] {
      assert x + y == y;
    } else {
      assert (x + y)[2..] == x[2..] + y;
      OddIndexedAppend(x[2..], y);
    }
  }

  /** One pass of the loop `for (i = 0; i < size; i++) remove(i)` over `ss`:
      after `i` passes the vector holds the odd-indexed sprites of the first
      `m = min(2i, |ss|)` and then the rest of `ss` untouched, and pass `i`
      erases the even-indexed `ss[2i]`. */
  lemma RemoveEvenStep(ss: seq<Sprite>, i: nat)
    requires 2 * i < |ss|
    ensures var cur := OddIndexed(ss[..2 * i]) + ss[2 * i..];
      var m := if 2 * i + 2 <= |ss| then 2 * i + 2 else |ss|;
      && i < |cur|
      && cur[..i] + cur[i + 1..] == OddIndexed(ss[..m]) + ss[m..]
  {
    var m := if 2 * i + 2 <= |ss| then 2 * i + 2 else |ss|;
    var done := OddIndexed(ss[..2 * i]);
    var cur := done + ss[2 * i..];
    assert ss[..m] == ss[..2 * i] + ss[2 * i..m];
    OddIndexedAppend(ss[..2 * i], ss[2 * i..m]);
    assert cur[..i] == done;
    assert cur[i + 1..] == ss[2 * i + 1..];
    if m == 2 * i + 2 {
      assert ss[2 * i + 1..] == [ss[2 * i + 1]] + ss[m..];
    }
  }

  /** The expiry pass erases exactly the expired sprites: each unexpired
      sprite is kept as often as it occurs, none that has expired is. */
  lemma SurvivorsExact(ss: seq<Sprite>, now: real, x: Sprite)
    ensures multiset(Survivors(ss, now))[x] == if Expired(x, now) then 0 else multiset(ss)[x]
    ensures forall s :: s in Survivors(ss, now) ==> !Expired(s, now)
  {
    Seqs.FilterCount(ss, Unexpired(now), x);
    Seqs.FilterMembers(ss, Unexpired(now));
  }

  /** The survivors keep their relative order. */
  lemma SurvivorsInOrder(a: seq<Sprite>, b: seq<Sprite>, now: real)
    ensures Survivors(a + b, now) == Survivors(a, now) + Survivors(b, now)
  {
    Seqs.FilterConcat(a, b, Unexpired(now));
  }

  /** An immortal sprite is never erased by `update`, however old it is; it
      comes out moved by one frame. */
  lemma ImmortalSurvives(ss: seq<Sprite>, now: real, frameRate: real, x: Sprite)
    requires frameRate > 0.0
    requires x in ss && x.lifespan == Immortal
    ensures Moved(x, frameRate) in AfterUpdate(ss, now, frameRate)
  {
    SurvivorsExact(ss, now, x);
    var sv := Survivors(ss, now);
    assert x in multiset(sv);
    var i :| 0 <= i < |sv| && sv[i] == x;
    assert AfterUpdate(ss, now, frameRate)[i] == Moved(x, frameRate);
  }

  /** `removeNear` erases exactly the sprites strictly closer than `dist`. */
  lemma FarFromExact(ss: seq<Sprite>, point: Vec2, dist: real, x: Sprite)
    ensures multiset(FarFrom(ss, point, dist))[x] == if Near(x.trans, point, dist) then 0 else multiset(ss)[x]
    ensures forall s :: s in FarFrom(ss, point, dist) ==> !Near(s.trans, point, dist)
  {
    Seqs.FilterCount(ss, Outside(point, dist), x);
    Seqs.FilterMembers(ss, Outside(point, dist));
  }

  /** With a distance of zero or less, `removeNear` erases nothing. */
  lemma FarFromNonPositive(ss: seq<Sprite>, point: Vec2, dist: real)
    requires dist <= 0.0
    ensures FarFrom(ss, point, dist) == ss
  {
    Seqs.FilterAll(ss, Outside(point, dist));
  }

  /** `SpriteSystem`: an ordered vector of sprites and an optional collision
      sound. Playing the sound is counted in the ghost field `soundPlays`. */
  class SpriteSystem {
    var sprites: seq<Sprite>
    var haveSound: bool
    ghost var soundPlays: nat
    /** Written by the `Emitter` constructor and never read. */
    var noChild: int
    var setNo: bool

    /** `new SpriteSystem()`: value-initialisation zeroes `noChild`. */
    constructor ()
      ensures sprites == [] && !haveSound && soundPlays == 0
      ensures noChild == 0 && !setNo
    {
      sprites := [];
      haveSound := false;
      soundPlays := 0;
      noChild := 0;
      setNo := false;
    }

    /** `add`: appends a copy of `s`. */
    method Add(s: Sprite)
      modifies this`sprites
      ensures sprites == old(sprites) + [s]
    {
      sprites := sprites + [s];
    }

    /** `remove(i)`: erases position `i`; the source does not check the bound,
        and erasing outside the vector is undefined behaviour. */
    method Remove(i: int)
      requires 0 <= i < |sprites|
      modifies this`sprites
      ensures sprites == old(sprites)[..i] + old(sprites)[i + 1..]
    {
      sprites := sprites[..i] + sprites[i + 1..];
    }

    /** `removeNear(point, dist)`: erases every sprite strictly closer than
        `dist` to `point`, plays the sound once per erased sprite when one is
        configured, and returns how many were erased. */
    method RemoveNear(point: Vec2, dist: real) returns (count: int)
      modifies this`sprites, this`soundPlays
      ensures sprites == FarFrom(old(sprites), point, dist)
      ensures count == |old(sprites)| - |sprites| && 0 <= count
      ensures soundPlays == old(soundPlays) + if haveSound then count else 0
    {
      ghost var s0, plays0 := sprites, soundPlays;
      ghost var k := 0;
      var i := 0;
      count := 0;
      while i < |sprites|
        invariant 0 <= k <= |s0|
        invariant i == |FarFrom(s0[..k], point, dist)|
        invariant sprites == FarFrom(s0[..k], point, dist) + s0[k..]
        invariant count == k - i
        invariant soundPlays == plays0 + if haveSound then count else 0
        decreases |sprites| - i
      {
        Seqs.EraseStep(s0, k, Outside(point, dist), sprites, i);
        assert Outside(point, dist)(s0[k]) == !Near(s0[k].trans, point, dist);
        if Near(sprites[i].trans, point, dist) {
          sprites := sprites[..i] + sprites[i + 1..];
          count := count + 1;
          if haveSound {
            soundPlays := soundPlays + 1;
          }
        } else {
          i := i + 1;
        }
        k := k + 1;
      }
      assert s0[..k] == s0;
    }

    /** `update`: erases the sprites whose finite lifespan has run out at
        `now`, then moves every remaining sprite by one frame. */
    method Update(now: real, frameRate: real)
      requires frameRate > 0.0
      modifies this`sprites
      ensures sprites == AfterUpdate(old(sprites), now, frameRate)
    {
      if |sprites| == 0 {
        return;
      }
      ExpirePass(now);
      MovePass(frameRate);
    }

    /** The first loop of `update`: erase, in one pass, every sprite that has
        expired at `now`. */
    method ExpirePass(now: real)
      modifies this`sprites
      ensures sprites == Survivors(old(sprites), now)
    {
      ghost var s0 := sprites;
      ghost var k := 0;
      var i := 0;
      while i < |sprites|
        invariant 0 <= k <= |s0|
        invariant i == |Survivors(s0[..k], now)|
        invariant sprites == Survivors(s0[..k], now) + s0[k..]
        decreases |sprites| - i
      {
        Seqs.EraseStep(s0, k, Unexpired(now), sprites, i);
        assert Unexpired(now)(s0[k]) == !Expired(s0[k], now);
        if Expired(sprites[i], now) {
          sprites := sprites[..i] + sprites[i + 1..];
        } else {
          i := i + 1;
        }
        k := k + 1;
      }
      assert s0[..k] == s0;
    }

    /** The second loop of `update`: move each sprite by one frame. */
    method MovePass(frameRate: real)
      requires frameRate > 0.0
      modifies this`sprites
      ensures sprites == MoveAll(old(sprites), frameRate)
    {
      var j := 0;
      while j < |sprites|
        invariant 0 <= j <= |sprites| == |old(sprites)|
        invariant forall m :: 0 <= m < j ==> sprites[m] == Moved(old(sprites)[m], frameRate)
        invariant forall m :: j <= m < |sprites| ==> sprites[m] == old(sprites)[m]
      {
        sprites := sprites[j := Moved(sprites[j], frameRate)];
        j := j + 1;
      }
    }
  }
}
