/** The per-frame rules of the game (`ofApp`, ofApp.cpp:300-1066): the
    collision bookkeeping, the play-area clamp, the level and level-up rules,
    the activation of the invader emitters, the bonus drop and the fire key.
    The pure definitions come first; the class `App` performs them in place. */
module Game {
  import opened Geometry
  import opened Sprites
  import opened Emitters
  import opened CppInt
  import Seqs

  /** The movement direction the arrow keys select (ofApp.h:11). */
  datatype MoveDir = MoveStop | MoveLeft | MoveRight | MoveUp | MoveDown

  // ---------------------------------------------------------------------
  // The play-area clamp (ofApp.cpp:744-755)

  /** `gun->trans` after the bound checks: x is compared with the left edge
      first, y against the bottom edge first. */
  function Clamped(p: Vec2, area: Rect): (r: Vec2)
    ensures area.Contains(r)
    ensures area.Contains(p) ==> r == p
  {
    var x := if p.x < area.Left() then area.Left() else if p.x > area.Right() then area.Right() else p.x;
    var y := if p.y > area.Bottom() then area.Bottom() else if p.y < area.Top() then area.Top() else p.y;
    Vec2(x, y)
  }

  function Gap(a: real, b: real): real { if a < b then b - a else a - b }

  /** The clamp moves each coordinate to the nearest point of the area:
      no point of the area is closer to the original on either axis. */
  lemma ClampedIsNearest(p: Vec2, area: Rect, q: Vec2)
    requires area.Contains(q)
    ensures Gap(Clamped(p, area).x, p.x) <= Gap(q.x, p.x)
    ensures Gap(Clamped(p, area).y, p.y) <= Gap(q.y, p.y)
  {
  }

  // ---------------------------------------------------------------------
  // Level and level-up (ofApp.cpp:627-637, 757-758)

  /** `level = score/10 + 1`, with C++ integer division. */
  function LevelFor(score: int): (level: int)
    ensures 0 <= score ==> 1 <= level && (level - 1) * 10 <= score < level * 10
  {
    QuotRem(score, 10);
    Quot(score, 10) + 1
  }

  /** A higher score never gives a lower level. */
  lemma LevelMonotone(a: int, b: int)
    requires 0 <= a <= b
    ensures LevelFor(a) <= LevelFor(b)
  {
  }

  /** The level-up flag and the gun's fire rate. */
  datatype Boost = Boost(levelup: bool, rate: real)

  /** One frame of the level-up rule at `level`: on a multiple of three a
      raised flag multiplies the rate by 1.5 and is lowered; any other level
      raises it. Either way the flag afterwards says whether `level` was off
      the multiples of three. */
  function LevelUpStep(b: Boost, level: int): (r: Boost)
    ensures r.levelup == (Rem(level, 3) != 0)
  {
    if Rem(level, 3) == 0 then
      if b.levelup then Boost(false, b.rate * 1.5) else b
    else Boost(true, b.rate)
  }

  /** The rule applied once per frame, at the levels `levels` in turn. */
  function LevelUpRun(b: Boost, levels: seq<int>): Boost
  {
    if levels == [] then b else LevelUpStep(LevelUpRun(b, levels[..|levels| - 1]), levels[|levels| - 1])
  }

  /** How many frames of `levels` are on a multiple of three whose previous
      frame was not (the first frame counts when the flag starts raised). */
  function Entries(levelup: bool, levels: seq<int>): nat
  {
    if levels == [] then 0
    else
      var k := |levels| - 1;
      var entered := Rem(levels[k], 3) == 0 && (if k == 0 then levelup else Rem(levels[k - 1], 3) != 0);
      Entries(levelup, levels[..k]) + if entered then 1 else 0
  }

  function Pow(x: real, n: nat): real
  {
    if n == 0 then 1.0 else Pow(x, n - 1) * x
  }

  /** Over any sequence of frames the rate is multiplied by 1.5 exactly once
      per entry into a multiple of three, and the flag ends up telling
      whether the last level was off the multiples of three. */
  lemma {:induction false} BoostPerEntry(b: Boost, levels: seq<int>)
    ensures LevelUpRun(b, levels).rate == b.rate * Pow(1.5, Entries(b.levelup, levels))
    ensures LevelUpRun(b, levels).levelup == if levels == [] then b.levelup else Rem(levels[|levels| - 1], 3) != 0
    decreases |levels|
  {
    if levels != [] {
      var k := |levels| - 1;
      var init := levels[..k];
      BoostPerEntry(b, init);
      var n := Entries(b.levelup, init);
      if k > 0 {
        assert init[k - 1] == levels[k - 1];
      }
      assert b.rate * Pow(1.5, n) * 1.5 == b.rate * (Pow(1.5, n) * 1.5);
    }
  }

  // ---------------------------------------------------------------------
  // Which invader emitters run (ofApp.cpp:650-673)

  /** The range of a C++ `int`, and the conversion of an `int` to `size_t`
      that the comparison `level <= aliens.size()` performs. */
  const IntMin: int := -0x8000_0000
  const IntLimit: int := 0x8000_0000
  const SizeLimit: int := 0x1_0000_0000_0000_0000

  function AsSize(n: int): int
  {
    if n < 0 then n + SizeLimit else n
  }

  /** How many leading invader emitters a frame reaches: `level` of them when
      `level <= aliens.size()`, else all. A negative level converts to a huge
      unsigned value, so it reaches all of them too. */
  function ActiveCount(level: int, n: int): (r: int)
    requires IntMin <= level && 0 <= n < IntLimit
    ensures 0 <= r <= n
    ensures r == if 0 <= level && level <= n then level else n
  {
    if AsSize(level) <= n then level else n
  }

  /** One frame of the activation rule on the invader spawners `ss`: the
      first `n` are activated (updated when started, else only started), the
      others are left alone. */
  function Activated(ss: seq<Spawner>, n: int, now: real, frameRate: real, muzzle: Vec2 -> Vec2): (r: seq<Spawner>)
    requires frameRate > 0.0
    ensures |r| == |ss|
  {
    seq(|ss|, k requires 0 <= k < |ss| => if k < n then Activate(ss[k], now, frameRate, muzzle) else ss[k])
  }

  /** A frame at `level` touches only the leading `ActiveCount` emitters:
      each of them ends started with its settings unchanged, one that was
      idle is only started (so it spawns nothing that frame), and every
      emitter past them is untouched. */
  lemma ActivationTouchesPrefix(ss: seq<Spawner>, level: int, now: real, frameRate: real, muzzle: Vec2 -> Vec2)
    requires frameRate > 0.0 && IntMin <= level && |ss| < IntLimit
    ensures var n := ActiveCount(level, |ss|);
      var r := Activated(ss, n, now, frameRate, muzzle);
      && (forall k :: 0 <= k < n ==> r[k].started && SameConfig(ss[k], r[k]))
      && (forall k :: 0 <= k < n && !ss[k].started ==> r[k].sprites == ss[k].sprites && r[k].lastSpawned == now)
      && (forall k :: 0 <= k < n && ss[k].started ==> r[k] == Next(ss[k], now, frameRate, muzzle))
      && (forall k :: n <= k < |ss| ==> r[k] == ss[k])
  {
  }

  /** An idle rate-mode invader emitter that a frame at time `t1` starts
      fires its first invader at the next frame `t2` exactly when a whole
      interval `1000 / rate` has passed since `t1`. */
  lemma FirstInvaderWaits(ss: seq<Spawner>, n: int, t1: real, t2: real, frameRate: real, muzzle: Vec2 -> Vec2, k: nat)
    requires frameRate > 0.0 && k < |ss| && k < n && !ss[k].started && !ss[k].setNo
    ensures var s := Activated(ss, n, t1, frameRate, muzzle)[k];
      Spawned(s, t2, muzzle) != [] <==> RateDue(t2, t1, ss[k].rate)
  {
  }

  // ---------------------------------------------------------------------
  // The bonus drop (ofApp.cpp:767-772)

  /** `int(currentplaytime) % 20000 <= 20`. */
  predicate BonusDue(t: real)
    ensures t < 21.0 ==> BonusDue(t)
  {
    Rem(Trunc(t), 20000) <= 20
  }

  /** The remainder of `n` within the 20-second period that starts at `k`. */
  lemma PeriodRemainder(n: int, k: int)
    requires 0 <= k && 20000 * k <= n < 20000 * k + 20000
    ensures Rem(n, 20000) == n - 20000 * k
  {
  }

  /** From play time zero on, a bonus is due during the first 21 ms of every
      20-second period ... */
  lemma BonusInWindow(t: real, k: int)
    requires 0 <= k && 20000.0 * k as real <= t < 20000.0 * k as real + 21.0
    ensures BonusDue(t)
  {
    var n := Trunc(t);
    assert 20000 * k <= n <= 20000 * k + 20;
    PeriodRemainder(n, k);
  }

  /** ... and at no other time. */
  lemma NoBonusOutsideWindow(t: real, k: int)
    requires 0 <= k && 20000.0 * k as real + 21.0 <= t < 20000.0 * (k + 1) as real
    ensures !BonusDue(t)
  {
    var n := Trunc(t);
    assert 20000 * k + 21 <= n < 20000 * k + 20000;
    PeriodRemainder(n, k);
  }

  // ---------------------------------------------------------------------
  // Collisions (ofApp.cpp:885-917)

  /** The positions of the gun's missiles. */
  function Missiles(ss: seq<Sprite>): (r: seq<Vec2>)
    ensures |r| == |ss| && forall i :: 0 <= i < |ss| ==> r[i] == ss[i].trans
  {
    if ss == [] then [] else Missiles(ss[..|ss| - 1]) + [ss[|ss| - 1].trans]
  }

  /** An invader fleet after the missiles have been checked against it, and
      how many of them hit. */
  datatype Tally = Tally(fleet: seq<Sprite>, hits: nat)

  /** The inner loop of `checkCollisions`: for each missile in turn,
      `removeNear(missile, dist)` on the fleet, scoring one point whenever it
      removes anything, however many. Every hit removes at least one sprite. */
  function Volley(fleet: seq<Sprite>, missiles: seq<Vec2>, dist: real): (r: Tally)
    ensures r.hits <= |missiles|
    ensures r.hits <= |fleet| - |r.fleet|
  {
    if missiles == [] then Tally(fleet, 0)
    else
      var t := Volley(fleet, missiles[..|missiles| - 1], dist);
      var after := FarFrom(t.fleet, missiles[|missiles| - 1], dist);
      Tally(after, t.hits + if |t.fleet| - |after| != 0 then 1 else 0)
  }

  /** No invader that survives a volley is within `dist` of any missile, and
      every survivor was in the fleet. */
  lemma {:induction false} VolleyClears(fleet: seq<Sprite>, missiles: seq<Vec2>, dist: real)
    ensures forall x :: x in Volley(fleet, missiles, dist).fleet ==> x in fleet
    ensures forall x, j :: x in Volley(fleet, missiles, dist).fleet && 0 <= j < |missiles| ==> !Near(x.trans, missiles[j], dist)
    decreases |missiles|
  {
    if missiles != [] {
      var init := missiles[..|missiles| - 1];
      var p := missiles[|missiles| - 1];
      VolleyClears(fleet, init, dist);
      var t := Volley(fleet, init, dist);
      Seqs.FilterMembers(t.fleet, Outside(p, dist));
      forall x, j | x in Volley(fleet, missiles, dist).fleet && 0 <= j < |missiles|
        ensures !Near(x.trans, missiles[j], dist)
      {
        assert Outside(p, dist)(x);
        if j < |init| {
          assert missiles[j] == init[j];
        }
      }
    }
  }

  /** A volley scores nothing exactly when it removes nothing. */
  lemma {:induction false} VolleyScoresIffRemoves(fleet: seq<Sprite>, missiles: seq<Vec2>, dist: real)
    ensures Volley(fleet, missiles, dist).hits == 0 <==> Volley(fleet, missiles, dist).fleet == fleet
    decreases |missiles|
  {
    if missiles != [] {
      var init := missiles[..|missiles| - 1];
      var p := missiles[|missiles| - 1];
      VolleyScoresIffRemoves(fleet, init, dist);
      var t := Volley(fleet, init, dist);
      if Volley(fleet, missiles, dist).hits == 0 {
        Seqs.FilterKeepsAll(t.fleet, Outside(p, dist));
      }
    }
  }

  /** One invader emitter's turn in `checkCollisions`: the volley, then
      `removeNear(gun position, hurtDist)`, which costs a life when it removes
      anything. */
  datatype Pass = Pass(fleet: seq<Sprite>, hits: nat, hurt: bool)

  function AlienPass(fleet: seq<Sprite>, missiles: seq<Vec2>, gunPos: Vec2, hitDist: real, hurtDist: real): (r: Pass)
    ensures r.hits <= |missiles|
  {
    var v := Volley(fleet, missiles, hitDist);
    var after := FarFrom(v.fleet, gunPos, hurtDist);
    Pass(after, v.hits, |v.fleet| - |after| != 0)
  }

  /** A turn costs a life exactly when an invader that survived the volley
      is within `hurtDist` of the gun; the invaders left are clear of the gun
      and of every missile. */
  lemma AlienPassHurts(fleet: seq<Sprite>, missiles: seq<Vec2>, gunPos: Vec2, hitDist: real, hurtDist: real)
    ensures var v := Volley(fleet, missiles, hitDist);
      AlienPass(fleet, missiles, gunPos, hitDist, hurtDist).hurt <==> exists x :: x in v.fleet && Near(x.trans, gunPos, hurtDist)
    ensures var r := AlienPass(fleet, missiles, gunPos, hitDist, hurtDist);
      forall x :: x in r.fleet ==>
        (x in fleet && !Near(x.trans, gunPos, hurtDist)
         && forall j :: 0 <= j < |missiles| ==> !Near(x.trans, missiles[j], hitDist))
  {
    var v := Volley(fleet, missiles, hitDist);
    var after := FarFrom(v.fleet, gunPos, hurtDist);
    VolleyClears(fleet, missiles, hitDist);
    Seqs.FilterMembers(v.fleet, Outside(gunPos, hurtDist));
    if x :| x in v.fleet && Near(x.trans, gunPos, hurtDist) {
      FarFromExact(v.fleet, gunPos, hurtDist, x);
      if |after| == |v.fleet| {
        Seqs.FilterKeepsAll(v.fleet, Outside(gunPos, hurtDist));
      }
    } else {
      Seqs.FilterAll(v.fleet, Outside(gunPos, hurtDist));
    }
  }

  /** The points scored over all turns. */
  function TotalHits(ps: seq<Pass>): nat
  {
    if ps == [] then 0 else TotalHits(ps[..|ps| - 1]) + ps[|ps| - 1].hits
  }

  /** The lives lost over all turns: at most one per invader emitter. */
  function Hurts(ps: seq<Pass>): (r: nat)
    ensures r <= |ps|
  {
    if ps == [] then 0 else Hurts(ps[..|ps| - 1]) + if ps[|ps| - 1].hurt then 1 else 0
  }

  /** The totals over the first `i + 1` turns extend those over the first `i`. */
  lemma TotalsStep(ps: seq<Pass>, i: nat)
    requires i < |ps|
    ensures TotalHits(ps[..i + 1]) == TotalHits(ps[..i]) + ps[i].hits
    ensures Hurts(ps[..i + 1]) == Hurts(ps[..i]) + if ps[i].hurt then 1 else 0
  {
    assert ps[..i + 1][..i] == ps[..i];
  }

  /** At most one point per (invader emitter, missile) pair. */
  lemma {:induction false} TotalHitsBound(ps: seq<Pass>, m: nat)
    requires forall k :: 0 <= k < |ps| ==> ps[k].hits <= m
    ensures TotalHits(ps) <= |ps| * m
    decreases |ps|
  {
    if ps != [] {
      TotalHitsBound(ps[..|ps| - 1], m);
      assert (|ps| - 1) * m + m == |ps| * m;
    }
  }

  // ---------------------------------------------------------------------
  // The intro glide (ofApp.cpp:639-644)

  /** Before the game starts the gun rises 3 pixels a frame, down to the
      line `windowHeight * 2 / 3` (integer arithmetic). */
  function GlideFloor(windowHeight: int): (f: real)
    ensures 0 <= windowHeight ==> 3.0 * f <= 2.0 * windowHeight as real < 3.0 * f + 3.0
  {
    Quot(windowHeight * 2, 3) as real
  }

  /** One idle frame: the gun never ends above the line, and otherwise
      rises by exactly 3 pixels. */
  function Glide(y: real, windowHeight: int): (r: real)
    ensures GlideFloor(windowHeight) <= r
    ensures r == y - 3.0 || r == GlideFloor(windowHeight)
  {
    var y' := y - 3.0;
    if y' <= GlideFloor(windowHeight) then GlideFloor(windowHeight) else y'
  }

  function GlideRun(y: real, windowHeight: int, frames: nat): real
  {
    if frames == 0 then y else Glide(GlideRun(y, windowHeight, frames - 1), windowHeight)
  }

  /** After `n >= 1` idle frames the gun stands at `y - 3n` or on the floor
      line, whichever is lower on screen (the larger y). */
  lemma {:induction false} GlideSettles(y: real, windowHeight: int, frames: nat)
    requires 1 <= frames
    ensures var f := GlideFloor(windowHeight);
      var y' := y - 3.0 * frames as real;
      GlideRun(y, windowHeight, frames) == if y' <= f then f else y'
    decreases frames
  {
    if frames > 1 {
      GlideSettles(y, windowHeight, frames - 1);
    }
  }

  // ---------------------------------------------------------------------
  // Set-up (ofApp.cpp:300-547)

  /** The images and sound-load results the set-up reads from disk, for the
      gun, the missile, the bonus pill and the five invaders. */
  datatype Assets = Assets(
    gunImage: Image,
    missleImage: Image,
    alienImages: seq<Image>,
    lifeSound: bool,
    alienSounds: seq<bool>)

  /** `e->drawable = false`: the emitter itself is not drawn. */
  method Hide(e: Emitter)
    modifies e`drawable
    ensures !e.drawable && e.State() == old(e.State())
  {
    e.drawable := false;
  }

  /** `e->childImage.resize(size, size)`: only the drawn child image changes;
      the child size used for hit tests stays what `setChildImage` set. */
  method ResizeChildImage(e: Emitter, size: real)
    modifies e`childImage
    ensures e.State() == old(e.State()).(childImage := Image(size, size))
  {
    e.childImage := Image(size, size);
  }

  /** `if (e->sys->collideSound.load(...)) e->sys->haveSound = true;` */
  method LoadCollideSound(e: Emitter, loaded: bool)
    modifies e.sys`haveSound
    ensures e.sys.haveSound == (loaded || old(e.sys.haveSound))
    ensures e.State() == old(e.State())
  {
    if loaded {
      e.sys.haveSound := true;
    }
  }

  /** The gun's motion fields as the set-up leaves them: at rest (`speed` is
      the length of the zero vector), no acceleration, damping 0.99. */
  method StillGun(g: Emitter)
    modifies g`verVelocity, g`horVelocity, g`speed, g`acceleration, g`damping, g`rot, g`angle
    ensures g.verVelocity == Origin && g.horVelocity == Origin && g.speed == 0.0
    ensures g.acceleration == Origin && g.damping == 0.99 && g.rot == 0.0 && g.angle == 0.0
    ensures g.State() == old(g.State())
  {
    g.verVelocity := Origin;
    g.horVelocity := Origin;
    g.speed := 0.0;
    g.acceleration := Origin;
    g.damping := 0.99;
    g.rot := 0.0;
    g.angle := 0.0;
  }

  /** `life->noChild = 1; life->setNo = true;`: one child per start. */
  method LimitToOneChild(e: Emitter)
    modifies e`noChild, e`setNo
    ensures e.State() == old(e.State()).(noChild := 1, setNo := true)
  {
    e.noChild := 1;
    e.setNo := true;
  }

  /** Where and how the set-up places one invader emitter. */
  datatype InvaderPlan = InvaderPlan(pos: Vec2, size: real, speed: real, lifespan: real, baseRate: real)

  /** The five invaders of a `w` x `h` window, in the order they are pushed
      onto `aliens`; the positions use integer division. All of them fall
      at 200 to 500 px/s, live 5 to 7 seconds and start inside the window;
      only the first fires at the base rate 1, the others at 0.5. */
  function InvaderPlans(w: int, h: int): (r: seq<InvaderPlan>)
    ensures |r| == 5
    ensures forall k :: 0 <= k < 5 ==>
      && 200.0 <= r[k].speed <= 500.0 && 5000.0 <= r[k].lifespan <= 7000.0
      && (r[k].size == 40.0 || r[k].size == 50.0)
    ensures r[0].baseRate == 1.0 && forall k :: 1 <= k < 5 ==> r[k].baseRate == 0.5
    ensures 0 <= w && 10 <= h ==>
      forall k :: 0 <= k < 5 ==> 0.0 <= r[k].pos.x <= w as real && 0.0 <= r[k].pos.y <= h as real
  {
    [ InvaderPlan(Vec2(Quot(w, 2) as real, 10.0), 50.0, 200.0, 5000.0, 1.0),
      InvaderPlan(Vec2(Quot(w, 3) as real, 10.0), 40.0, 300.0, 7000.0, 0.5),
      InvaderPlan(Vec2(w as real, Quot(h, 3) as real), 50.0, 400.0, 7000.0, 0.5),
      InvaderPlan(Vec2(Quot(w, 3) as real, 10.0), 40.0, 500.0, 7000.0, 0.5),
      InvaderPlan(Vec2(0.0, Quot(h * 2, 3) as real), 50.0, 400.0, 7000.0, 0.5) ]
  }

  /** The state of an invader emitter right after the set-up: idle, empty,
      with children of `size` x `size` and a rate that grows by 0.1 per
      minute of `currentplaytime`. */
  function Deployed(p: InvaderPlan, playtime: real, noChild: int): (r: Spawner)
    ensures !r.started && r.sprites == [] && r.count == 0 && !r.setNo
    ensures r.childWidth == r.childHeight == p.size && r.childImage == Image(p.size, p.size)
    ensures r.rate == playtime / 60000.0 * 0.1 + p.baseRate
  {
    Spawner(false, 0, 0.0, false, noChild, playtime / 60000.0 * 0.1 + p.baseRate, p.pos, Vec2(0.0, p.speed),
            p.lifespan, true, Image(p.size, p.size), p.size, p.size, [])
  }

  /** One invader emitter as the set-up configures it: hidden, with its
      child image resized to the plan's size and children of that size. */
  method NewInvader(p: InvaderPlan, img: Image, playtime: real, sound: bool) returns (e: Emitter)
    ensures fresh(e) && fresh(e.sys)
    ensures e.State() == Deployed(p, playtime, e.noChild)
    ensures e.sys.haveSound == sound
  {
    var sys := new SpriteSystem();
    e := new Emitter(sys);
    Hide(e);
    e.SetPosition(p.pos);
    e.SetChildImage(img);
    ResizeChildImage(e, p.size);
    e.SetVelocity(Vec2(0.0, p.speed));
    e.SetLifespan(p.lifespan);
    e.SetRate(playtime / 60000.0 * 0.1 + p.baseRate);
    e.SetChildSize(p.size, p.size);
    LoadCollideSound(e, sound);
  }

  /** The first `|fleet|` invaders are set up as planned, each with its own
      sprite system, none of them one of the objects in `apart`, all of
      them among the objects in `born`. */
  ghost predicate FleetReady(fleet: seq<Emitter>, plans: seq<InvaderPlan>, sounds: seq<bool>, playtime: real,
                             apart: set<object>, born: set<object>)
    reads set k | 0 <= k < |fleet| :: fleet[k]
    reads set k | 0 <= k < |fleet| :: fleet[k].sys
  {
    && |fleet| <= |plans| && |fleet| <= |sounds|
    && (forall k :: 0 <= k < |fleet| ==>
          fleet[k].State() == Deployed(plans[k], playtime, fleet[k].noChild) && fleet[k].sys.haveSound == sounds[k])
    && (forall k, l :: 0 <= k < l < |fleet| ==> fleet[k] != fleet[l] && fleet[k].sys != fleet[l].sys)
    && (forall k :: 0 <= k < |fleet| ==> fleet[k] !in apart && fleet[k].sys !in apart)
    && (forall k :: 0 <= k < |fleet| ==> fleet[k] in born && fleet[k].sys in born)
  }

  /** One invader block of the set-up: the next planned invader is set up
      and pushed onto the list. */
  method PushInvader(fleet: seq<Emitter>, plans: seq<InvaderPlan>, images: seq<Image>, sounds: seq<bool>,
                     playtime: real, ghost apart: set<object>, ghost born: set<object>)
    returns (fleet': seq<Emitter>, ghost born': set<object>)
    requires |fleet| < |plans| == |images| == |sounds|
    requires FleetReady(fleet, plans, sounds, playtime, apart, born)
    ensures |fleet'| == |fleet| + 1 && fleet'[..|fleet|] == fleet
    ensures born' == born + {fleet'[|fleet|], fleet'[|fleet|].sys} && fresh(born' - born)
    ensures FleetReady(fleet', plans, sounds, playtime, apart, born')
  {
    var i := |fleet|;
    var e := NewInvader(plans[i], images[i], playtime, sounds[i]);
    fleet' := fleet + [e];
    born' := born + {e, e.sys};
  }

  /** The five invader emitters, pushed onto the list in order. */
  method NewFleet(w: int, h: int, images: seq<Image>, sounds: seq<bool>, playtime: real, ghost apart: set<object>)
    returns (fleet: seq<Emitter>)
    requires |images| == 5 && |sounds| == 5
    ensures |fleet| == 5
    ensures forall k :: 0 <= k < 5 ==>
      fleet[k].State() == Deployed(InvaderPlans(w, h)[k], playtime, fleet[k].noChild) && fleet[k].sys.haveSound == sounds[k]
    ensures forall k, l :: 0 <= k < l < 5 ==> fleet[k].sys != fleet[l].sys
    ensures forall k :: 0 <= k < 5 ==> fleet[k].sys !in apart
    ensures forall k :: 0 <= k < 5 ==> fresh(fleet[k]) && fresh(fleet[k].sys)
  {
    var plans := InvaderPlans(w, h);
    ghost var born := {};
    fleet, born := PushInvader([], plans, images, sounds, playtime, apart, born);
    fleet, born := PushInvader(fleet, plans, images, sounds, playtime, apart, born);
    assert fresh(born);
    fleet, born := PushInvader(fleet, plans, images, sounds, playtime, apart, born);
    assert fresh(born);
    fleet, born := PushInvader(fleet, plans, images, sounds, playtime, apart, born);
    assert fresh(born);
    fleet, born := PushInvader(fleet, plans, images, sounds, playtime, apart, born);
    assert fresh(born);
  }

  /** The player's gun as the set-up configures it: at the bottom centre of
      the window, firing missiles upward three times a second. */
  method NewGun(w: int, h: int, gunImage: Image, missleImage: Image) returns (g: Emitter)
    ensures fresh(g) && fresh(g.sys)
    ensures g.State() == Spawner(false, 0, 0.0, false, g.noChild, 3.0, Vec2(w as real / 2.0, h as real),
                                 Vec2(0.0, -1000.0), h as real, true, missleImage,
                                 missleImage.width, missleImage.height, [])
    ensures g.height == gunImage.height
  {
    var sys := new SpriteSystem();
    g := new Emitter(sys);
    g.SetImage(gunImage);
    g.SetChildImage(missleImage);
    g.SetPosition(Vec2(w as real / 2.0, h as real));
    g.SetVelocity(Vec2(0.0, -1000.0));
    g.SetRate(3.0);
    g.SetLifespan(h as real);
    StillGun(g);
  }

  /** The bonus emitter as the set-up configures it: hidden at the top of the
      window, dropping one pill (drawn at 50 x 50, colliding at the 75 x 75
      size it had when set as child image) each time it is started. */
  method NewBonus(dropX: real, sound: bool) returns (l: Emitter)
    ensures fresh(l) && fresh(l.sys)
    ensures l.State() == Spawner(false, 0, 0.0, true, 1, 1.0, Vec2(dropX, 0.0), Vec2(0.0, 200.0), 7000.0,
                                 true, Image(50.0, 50.0), 75.0, 75.0, [])
    ensures l.sys.haveSound == sound
  {
    var sys := new SpriteSystem();
    l := new Emitter(sys);
    Hide(l);
    l.SetChildImage(Image(75.0, 75.0));
    ResizeChildImage(l, 50.0);
    l.SetPosition(Vec2(dropX, 0.0));
    l.SetVelocity(Vec2(0.0, 200.0));
    LimitToOneChild(l);
    l.SetLifespan(7000.0);
    LoadCollideSound(l, sound);
  }

  /** The collision distance of `checkCollisions` between two sprites of
      heights `a` and `b`: half of each. */
  function Reach(a: real, b: real): (r: real)
    ensures r == (a + b) / 2.0
    ensures 0.0 <= a && 0.0 <= b ==> 0.0 <= r
  {
    a / 2.0 + b / 2.0
  }

  /** The emitters of a list, as a set. */
  ghost function Members(es: seq<Emitter>): (r: set<Emitter>)
    ensures forall k :: 0 <= k < |es| ==> es[k] in r
  {
    if es == [] then {} else Members(es[..|es| - 1]) + {es[|es| - 1]}
  }

  /** The sprite systems of a list of emitters, as a set. */
  ghost function Systems(es: seq<Emitter>): (r: set<SpriteSystem>)
    ensures forall k :: 0 <= k < |es| ==> es[k].sys in r
  {
    if es == [] then {} else Systems(es[..|es| - 1]) + {es[|es| - 1].sys}
  }

  /** `Members` holds the list's emitters and nothing else. */
  lemma {:induction false} MembersOnly(es: seq<Emitter>)
    ensures forall e :: e in Members(es) ==> exists k :: 0 <= k < |es| && es[k] == e
    decreases |es|
  {
    if es != [] {
      var n := |es| - 1;
      MembersOnly(es[..n]);
      forall e | e in Members(es)
        ensures exists k :: 0 <= k < |es| && es[k] == e
      {
        if e != es[n] {
          assert e in Members(es[..n]);
          var k :| 0 <= k < n && es[..n][k] == e;
          assert es[k] == e;
        }
      }
    }
  }

  /** `Systems` holds the systems of the list's emitters and nothing else. */
  lemma {:induction false} SystemsOnly(es: seq<Emitter>)
    ensures forall o :: o in Systems(es) ==> exists k :: 0 <= k < |es| && es[k].sys == o
    decreases |es|
  {
    if es != [] {
      var n := |es| - 1;
      SystemsOnly(es[..n]);
      forall o | o in Systems(es)
        ensures exists k :: 0 <= k < |es| && es[k].sys == o
      {
        if o != es[n].sys {
          assert o in Systems(es[..n]);
          var k :| 0 <= k < n && es[..n][k].sys == o;
          assert es[k].sys == o;
        }
      }
    }
  }

  /** A system that belongs to no emitter of the list is not among them. */
  lemma {:induction false} SystemsApart(es: seq<Emitter>, o: SpriteSystem)
    requires forall k :: 0 <= k < |es| ==> es[k].sys != o
    ensures o !in Systems(es)
    decreases |es|
  {
    if es != [] {
      SystemsApart(es[..|es| - 1], o);
    }
  }

  /** No two emitters of the list share a sprite system (so no two are the
      same emitter either): each emitter's system is none of its
      predecessors'. */
  ghost predicate DistinctSystems(es: seq<Emitter>)
  {
    es == [] || (DistinctSystems(es[..|es| - 1]) && es[|es| - 1].sys !in Systems(es[..|es| - 1]))
  }

  /** With distinct systems, updating the `i`-th emitter's system touches no
      other emitter's. */
  lemma {:induction false} DistinctAt(es: seq<Emitter>, i: nat)
    requires DistinctSystems(es) && i < |es|
    ensures forall k :: 0 <= k < |es| && k != i ==> es[k].sys != es[i].sys
    decreases |es|
  {
    var n := |es| - 1;
    if i < n {
      DistinctAt(es[..n], i);
    }
    assert forall k :: 0 <= k < n ==> es[..n][k] == es[k];
  }

  /** Systems distinct pairwise are distinct in the sense above. */
  lemma {:induction false} DistinctFromPairs(es: seq<Emitter>)
    requires forall k, l :: 0 <= k < l < |es| ==> es[k].sys != es[l].sys
    ensures DistinctSystems(es)
    decreases |es|
  {
    if es != [] {
      var n := |es| - 1;
      DistinctFromPairs(es[..n]);
      SystemsApart(es[..n], es[n].sys);
    }
  }

  /** The sprites of each emitter's system. */
  ghost function Sprouts(es: seq<Emitter>): (r: seq<seq<Sprite>>)
    reads Systems(es)
    ensures |r| == |es| && forall k :: 0 <= k < |es| ==> r[k] == es[k].sys.sprites
  {
    if es == [] then [] else Sprouts(es[..|es| - 1]) + [es[|es| - 1].sys.sprites]
  }

  /** The collision sounds each emitter's system has played. */
  ghost function SoundPlays(es: seq<Emitter>): (r: seq<nat>)
    reads Systems(es)
    ensures |r| == |es| && forall k :: 0 <= k < |es| ==> r[k] == es[k].sys.soundPlays
  {
    if es == [] then [] else SoundPlays(es[..|es| - 1]) + [es[|es| - 1].sys.soundPlays]
  }

  /** The child heights of a list of emitters. */
  ghost function ChildHeights(es: seq<Emitter>): (r: seq<real>)
    reads es
    ensures |r| == |es| && forall k :: 0 <= k < |es| ==> r[k] == es[k].childHeight
  {
    if es == [] then [] else ChildHeights(es[..|es| - 1]) + [es[|es| - 1].childHeight]
  }

  /** The turns of the invader emitters whose fleets are `fleets` and whose
      child heights are `heights`, in list order, against the missiles at
      `missiles` of a gun at `gunPos`. */
  function Passes(fleets: seq<seq<Sprite>>, heights: seq<real>, missiles: seq<Vec2>, gunPos: Vec2,
                  gunChildHeight: real, gunHeight: real): (r: seq<Pass>)
    requires |fleets| == |heights|
    ensures |r| == |fleets|
  {
    if fleets == [] then []
    else
      var n := |fleets| - 1;
      Passes(fleets[..n], heights[..n], missiles, gunPos, gunChildHeight, gunHeight)
        + [AlienPass(fleets[n], missiles, gunPos, Reach(gunChildHeight, heights[n]), Reach(gunHeight, heights[n]))]
  }

  /** Without missiles no turn scores a point. */
  lemma {:induction false} NoShotsNoScore(fleets: seq<seq<Sprite>>, heights: seq<real>, gunPos: Vec2,
                                          gunChildHeight: real, gunHeight: real)
    requires |fleets| == |heights|
    ensures TotalHits(Passes(fleets, heights, [], gunPos, gunChildHeight, gunHeight)) == 0
    decreases |fleets|
  {
    if fleets != [] {
      var n := |fleets| - 1;
      NoShotsNoScore(fleets[..n], heights[..n], gunPos, gunChildHeight, gunHeight);
      var ps := Passes(fleets, heights, [], gunPos, gunChildHeight, gunHeight);
      assert ps[..n] == Passes(fleets[..n], heights[..n], [], gunPos, gunChildHeight, gunHeight);
    }
  }

  /** Turn `k` is the pass of the `k`-th fleet, with the collision distances
      its emitter's child height gives. */
  lemma {:induction false} PassesAt(fleets: seq<seq<Sprite>>, heights: seq<real>, missiles: seq<Vec2>, gunPos: Vec2,
                                    gunChildHeight: real, gunHeight: real, k: nat)
    requires |fleets| == |heights| && k < |fleets|
    ensures Passes(fleets, heights, missiles, gunPos, gunChildHeight, gunHeight)[k]
      == AlienPass(fleets[k], missiles, gunPos, Reach(gunChildHeight, heights[k]), Reach(gunHeight, heights[k]))
    decreases |fleets|
  {
    var n := |fleets| - 1;
    if k < n {
      PassesAt(fleets[..n], heights[..n], missiles, gunPos, gunChildHeight, gunHeight, k);
    }
  }

  /** The inner loop of `checkCollisions`: each of the gun's missiles
      `shots` in turn erases the invaders of `target` within `dist` of it,
      scoring one point if it erased any. */
  method Fire(target: SpriteSystem, shots: seq<Sprite>, dist: real) returns (hits: nat)
    modifies target`sprites, target`soundPlays
    ensures Tally(target.sprites, hits) == Volley(old(target.sprites), Missiles(shots), dist)
    ensures target.soundPlays == old(target.soundPlays)
      + if target.haveSound then |old(target.sprites)| - |target.sprites| else 0
  {
    ghost var fleet, missiles, plays := target.sprites, Missiles(shots), target.soundPlays;
    hits := 0;
    var j := 0;
    while j < |shots|
      invariant 0 <= j <= |shots|
      invariant Tally(target.sprites, hits) == Volley(fleet, missiles[..j], dist)
      invariant target.soundPlays == plays + if target.haveSound then |fleet| - |target.sprites| else 0
    {
      var removed := target.RemoveNear(shots[j].trans, dist);
      if removed != 0 {
        hits := hits + 1;
      }
      assert missiles[..j + 1][..j] == missiles[..j];
      j := j + 1;
    }
    assert missiles[..j] == missiles;
  }

  /** One invader emitter's turn in `checkCollisions`: the volley, then the
      invaders within `hurtDist` of the gun at `gunPos` are erased, costing a
      life if there were any. */
  method Turn(target: SpriteSystem, shots: seq<Sprite>, gunPos: Vec2, hitDist: real, hurtDist: real)
    returns (hits: nat, hurt: bool)
    modifies target`sprites, target`soundPlays
    ensures Pass(target.sprites, hits, hurt) == AlienPass(old(target.sprites), Missiles(shots), gunPos, hitDist, hurtDist)
    ensures target.soundPlays == old(target.soundPlays)
      + if target.haveSound then |old(target.sprites)| - |target.sprites| else 0
  {
    hits := Fire(target, shots, hitDist);
    var removed := target.RemoveNear(gunPos, hurtDist);
    hurt := removed != 0;
  }

  /** Midway through the outer loop of `checkCollisions`: of the passes the
      invader emitters of `es` make against the missiles `shots` of the gun at
      `gunPos`, the first `i` have been made, the other emitters still hold
      `fleets` and have played `plays` sounds, and `points` and `lives` count
      the passes made that scored and that hurt. */
  ghost predicate Midway(es: seq<Emitter>, shots: seq<Sprite>, gunPos: Vec2, gunChildHeight: real, gunHeight: real,
                         fleets: seq<seq<Sprite>>, heights: seq<real>, plays: seq<nat>, i: nat, points: int, lives: int)
    reads es, Systems(es)
  {
    && DistinctSystems(es) && i <= |es| && |fleets| == |es| && |plays| == |es|
    && (forall k :: 0 <= k < i ==>
          es[k].sys.soundPlays == plays[k] + if es[k].sys.haveSound then |fleets[k]| - |es[k].sys.sprites| else 0)
    && (forall k :: i <= k < |es| ==> es[k].sys.soundPlays == plays[k])
    && heights == ChildHeights(es)
    && var ps := Passes(fleets, heights, Missiles(shots), gunPos, gunChildHeight, gunHeight);
    && (forall k :: 0 <= k < i ==> es[k].sys.sprites == ps[k].fleet)
    && (forall k :: i <= k < |es| ==> es[k].sys.sprites == fleets[k])
    && points == TotalHits(ps[..i]) && lives == Hurts(ps[..i])
  }

  /** The body of the outer loop of `checkCollisions`: the `i`-th invader
      emitter of `es` takes its turn, with the collision distances its child
      height gives, and the score and the lives lost are counted. */
  method TurnAt(es: seq<Emitter>, i: nat, shots: seq<Sprite>, gunPos: Vec2, gunChildHeight: real, gunHeight: real,
                ghost fleets: seq<seq<Sprite>>, ghost heights: seq<real>, ghost plays: seq<nat>, points: nat, lives: nat)
    returns (points': nat, lives': nat)
    requires i < |es| && Midway(es, shots, gunPos, gunChildHeight, gunHeight, fleets, heights, plays, i, points, lives)
    modifies es[i].sys`sprites, es[i].sys`soundPlays
    ensures Midway(es, shots, gunPos, gunChildHeight, gunHeight, fleets, heights, plays, i + 1, points', lives')
  {
    var e := es[i];
    ghost var ps := Passes(fleets, heights, Missiles(shots), gunPos, gunChildHeight, gunHeight);
    PassesAt(fleets, heights, Missiles(shots), gunPos, gunChildHeight, gunHeight, i);
    DistinctAt(es, i);
    TotalsStep(ps, i);
    var hits, hurt := Turn(e.sys, shots, gunPos, Reach(gunChildHeight, e.childHeight), Reach(gunHeight, e.childHeight));
    points' := points + hits;
    lives' := if hurt then lives + 1 else lives;
  }

  /** The outer loop of `checkCollisions`: every invader emitter of `es` in
      list order takes its turn against the missiles `shots` of the gun at
      `gunPos`; `points` and `lives` count the turns that scored and that
      hurt. */
  method AllTurns(es: seq<Emitter>, shots: seq<Sprite>, gunPos: Vec2, gunChildHeight: real, gunHeight: real)
    returns (points: nat, lives: nat, ghost ps: seq<Pass>)
    requires DistinctSystems(es)
    modifies Systems(es)`sprites, Systems(es)`soundPlays
    ensures ps == Passes(old(Sprouts(es)), old(ChildHeights(es)), Missiles(shots), gunPos, gunChildHeight, gunHeight)
    ensures forall k :: 0 <= k < |es| ==> es[k].sys.sprites == ps[k].fleet
    ensures points == TotalHits(ps) && lives == Hurts(ps)
    ensures forall k :: 0 <= k < |es| ==>
      es[k].sys.soundPlays == old(es[k].sys.soundPlays)
        + if es[k].sys.haveSound then |old(es[k].sys.sprites)| - |es[k].sys.sprites| else 0
  {
    ghost var fleets, heights, plays := Sprouts(es), ChildHeights(es), SoundPlays(es);
    points, lives := 0, 0;
    var i := 0;
    while i < |es|
      // Midway is the state after `i` turns, as one predicate that TurnAt
      // takes and gives back
      invariant Midway(es, shots, gunPos, gunChildHeight, gunHeight, fleets, heights, plays, i, points, lives) == true
    {
      points, lives := TurnAt(es, i, shots, gunPos, gunChildHeight, gunHeight, fleets, heights, plays, points, lives);
      i := i + 1;
    }
    ps := Passes(fleets, heights, Missiles(shots), gunPos, gunChildHeight, gunHeight);
    assert ps[..i] == ps;
  }

  // ---------------------------------------------------------------------
  // The invader emitters in place (ofApp.cpp:650-673, 1008-1011)

  /** The emitters of a list of emitters, as spawners. */
  ghost function Spawners(es: seq<Emitter>): (r: seq<Spawner>)
    reads es, Systems(es)
    ensures |r| == |es| && forall k :: 0 <= k < |es| ==> r[k] == es[k].State()
  {
    if es == [] then [] else Spawners(es[..|es| - 1]) + [es[|es| - 1].State()]
  }

  /** An emitter whose system is none of the list's is none of its emitters. */
  lemma {:induction false} MembersApart(es: seq<Emitter>, e: Emitter)
    requires e.sys !in Systems(es)
    ensures e !in Members(es) && e !in es
    decreases |es|
  {
    if es != [] {
      MembersApart(es[..|es| - 1], e);
    }
  }

  /** Midway through the activation loop: of the emitters of `es`, which
      held `ss`, the first `i` have been activated and the rest are as they
      were. */
  ghost predicate Reached(es: seq<Emitter>, ss: seq<Spawner>, i: nat, now: real, frameRate: real, muzzle: Vec2 -> Vec2)
    reads es, Systems(es)
  {
    && frameRate > 0.0 && DistinctSystems(es) && i <= |es| && |ss| == |es|
    && (forall k :: 0 <= k < i ==> es[k].State() == Activate(ss[k], now, frameRate, muzzle))
    && (forall k :: i <= k < |es| ==> es[k].State() == ss[k])
  }

  /** The body of the activation loop: the `i`-th emitter is updated if it
      was started and started otherwise. */
  method ActivateAt(es: seq<Emitter>, i: nat, ghost ss: seq<Spawner>, now: real, frameRate: real, muzzle: Vec2 -> Vec2)
    requires i < |es| && Reached(es, ss, i, now, frameRate, muzzle)
    modifies {es[i]}`started, {es[i]}`count, {es[i]}`lastSpawned, es[i].sys`sprites
    ensures Reached(es, ss, i + 1, now, frameRate, muzzle)
  {
    var e := es[i];
    DistinctAt(es, i);
    if e.started {
      e.Update(now, frameRate, muzzle);
    } else {
      e.Start(now);
    }
  }

  /** The activation loop over the first `n` emitters of `es`. */
  method ActivateFirst(es: seq<Emitter>, n: nat, now: real, frameRate: real, muzzle: Vec2 -> Vec2)
    requires frameRate > 0.0 && DistinctSystems(es) && n <= |es|
    modifies Members(es)`started, Members(es)`count, Members(es)`lastSpawned, Systems(es)`sprites
    ensures Spawners(es) == Activated(old(Spawners(es)), n, now, frameRate, muzzle)
  {
    ghost var ss := Spawners(es);
    var i := 0;
    while i < n
      invariant i <= n
      invariant Reached(es, ss, i, now, frameRate, muzzle) == true
    {
      ActivateAt(es, i, ss, now, frameRate, muzzle);
      i := i + 1;
    }
  }

  /** The spawners `ss` with the first `n` marked started and nothing else
      changed: no count or spawn time is reset. */
  function Woken(ss: seq<Spawner>, n: int): (r: seq<Spawner>)
    ensures |r| == |ss|
  {
    seq(|ss|, k requires 0 <= k < |ss| => if k < n then ss[k].(started := true) else ss[k])
  }

  /** Marking started differs from `start`: a rate-mode emitter woken this
      way keeps its old spawn time, so it fires at once if an interval has
      passed since then, whereas a started one waits a whole interval. */
  lemma WokenKeepsSchedule(ss: seq<Spawner>, n: int, now: real, t0: real, muzzle: Vec2 -> Vec2, k: nat)
    requires k < |ss| && k < n && !ss[k].setNo
    ensures Spawned(Woken(ss, n)[k], now, muzzle) != [] <==> RateDue(now, ss[k].lastSpawned, ss[k].rate)
    ensures Spawned(Restart(ss[k], t0), now, muzzle) != [] <==> RateDue(now, t0, ss[k].rate)
  {
  }

  /** Midway through that loop: the first `i` emitters of `es`, which held
      `ss`, have been marked started and the rest are as they were. */
  ghost predicate Woke(es: seq<Emitter>, ss: seq<Spawner>, i: nat)
    reads es, Systems(es)
  {
    && DistinctSystems(es) && i <= |es| && |ss| == |es|
    && (forall k :: 0 <= k < i ==> es[k].State() == ss[k].(started := true))
    && (forall k :: i <= k < |es| ==> es[k].State() == ss[k])
  }

  /** The body of that loop: the `i`-th emitter is marked started. */
  method WakeAt(es: seq<Emitter>, ghost ss: seq<Spawner>, i: nat)
    requires i < |es| && Woke(es, ss, i)
    modifies {es[i]}`started
    ensures Woke(es, ss, i + 1)
  {
    DistinctAt(es, i);
    es[i].started := true;
  }

  /** `for (i = 0; i < level; i++) aliens[i]->started = true;` */
  method Wake(es: seq<Emitter>, n: int)
    requires DistinctSystems(es) && n <= |es|
    modifies Members(es)`started
    ensures Spawners(es) == Woken(old(Spawners(es)), n)
  {
    ghost var ss := Spawners(es);
    var i := 0;
    while i < n
      invariant i == 0 || i <= n
      invariant Woke(es, ss, i) == true
    {
      WakeAt(es, ss, i);
      i := i + 1;
    }
  }

  /** `ofApp`, reduced to the state the simulation reads and writes. The
      emitters `gun` and `life` are set once by the set-up; the
      invader list `aliens` is cleared when the game ends. */
  class App {
    const gun: Emitter
    const life: Emitter
    var aliens: seq<Emitter>
    var score: int
    var gunLife: int
    var level: int
    var levelup: bool
    var hit: int
    var startAnim: bool
    var gameOver: bool
    var gameStartTime: real
    var currentplaytime: real
    var playtime: real
    var playarea: Rect
    var moveDir: MoveDir
    var bSpaceDown: bool

    /** Every emitter owns its own sprite system and the invader emitters
        are distinct, so updating one touches no other. */
    ghost predicate Valid()
      reads this`aliens
    {
      && gun != life && gun.sys != life.sys
      && gun.sys !in AlienSystems() && life.sys !in AlienSystems()
      && DistinctSystems(aliens)
      && |aliens| < IntLimit
    }

    /** Before the first press of the space key the gun is not armed and has
        fired nothing, so nothing scores: the score is still 0 and the level,
        at most 1, reaches no missing invader. */
    ghost predicate Idle()
      reads this, gun, gun.sys
    {
      !startAnim ==> !gun.started && gun.sys.sprites == [] && score == 0 && level <= 1 && 1 <= |aliens|
    }

    ghost function AlienEmitters(): set<Emitter>
      reads this`aliens
    {
      Members(aliens)
    }

    ghost function AlienSystems(): set<SpriteSystem>
      reads this`aliens
    {
      Systems(aliens)
    }

    /** The invaders of every invader emitter, in list order. */
    ghost function Fleets(): (r: seq<seq<Sprite>>)
      reads this`aliens, AlienSystems()
      ensures |r| == |aliens| && forall k :: 0 <= k < |aliens| ==> r[k] == aliens[k].sys.sprites
    {
      Sprouts(aliens)
    }

    /** `setup()` for a window of `w` x `h` pixels: the emitters and their
        parameters, the play area and the score keeping. `dropX` is the
        random x position of the bonus emitter and `playtime0` the value
        `currentplaytime` holds, which the invader rates are computed from. */
    constructor (w: int, h: int, assets: Assets, dropX: real, playtime0: real)
      requires |assets.alienImages| == 5 && |assets.alienSounds| == 5
      ensures Valid() && fresh(gun) && fresh(gun.sys) && fresh(life) && fresh(life.sys)
      ensures |aliens| == 5
      ensures score == 0 && gunLife == 3 && level == 0 && hit == 0
      ensures !levelup && !startAnim && !bSpaceDown && !gameOver
      ensures playarea == Rect(20.0, 20.0, (w - 20) as real, (h - 20) as real)
      ensures gun.State() == Spawner(false, 0, 0.0, false, gun.noChild, 3.0, Vec2(w as real / 2.0, h as real),
                                     Vec2(0.0, -1000.0), h as real, true, assets.missleImage,
                                     assets.missleImage.width, assets.missleImage.height, [])
      ensures gun.height == assets.gunImage.height
      ensures life.State() == Spawner(false, 0, 0.0, true, 1, 1.0, Vec2(dropX, 0.0), Vec2(0.0, 200.0), 7000.0,
                                      true, Image(50.0, 50.0), 75.0, 75.0, [])
      ensures life.sys.haveSound == assets.lifeSound
      ensures forall k :: 0 <= k < 5 ==>
        aliens[k].State() == Deployed(InvaderPlans(w, h)[k], playtime0, aliens[k].noChild)
        && aliens[k].sys.haveSound == assets.alienSounds[k]
      ensures forall k :: 0 <= k < 5 ==> fresh(aliens[k]) && fresh(aliens[k].sys)
      ensures fresh(AlienEmitters()) && fresh(AlienSystems())
      ensures Idle()
    {
      var g := NewGun(w, h, assets.gunImage, assets.missleImage);
      var l := NewBonus(dropX, assets.lifeSound);
      var fleet := NewFleet(w, h, assets.alienImages, assets.alienSounds, playtime0, {g, g.sys, l, l.sys});
      SystemsApart(fleet, g.sys);
      SystemsApart(fleet, l.sys);
      DistinctFromPairs(fleet);

      gun := g;
      life := l;
      aliens := fleet;
      MembersOnly(fleet);
      SystemsOnly(fleet);
      playarea := Rect(20.0, 20.0, (w - 20) as real, (h - 20) as real);
      levelup := false;
      startAnim := false;
      bSpaceDown := false;
      gameOver := false;
      score := 0;
      hit := 0;
      gunLife := 3;
      level := 0;
    }
  
    /** `checkCollisions`: the bonus pill near the gun gives a life; then
        every invader emitter takes its turn against the gun's missiles. */
    method CheckCollisions() returns (ghost bonus: bool, ghost ps: seq<Pass>)
      requires Valid()
      modifies this`score, this`gunLife, life.sys`sprites, life.sys`soundPlays
      modifies AlienSystems()`sprites, AlienSystems()`soundPlays
      ensures life.sys.sprites == FarFrom(old(life.sys.sprites), old(gun.trans), Reach(old(gun.height), old(life.childHeight)))
      ensures bonus <==> |life.sys.sprites| != |old(life.sys.sprites)|
      ensures ps == Passes(old(Fleets()), old(ChildHeights(aliens)), Missiles(old(gun.sys.sprites)), old(gun.trans),
                           old(gun.childHeight), old(gun.height))
      ensures forall k :: 0 <= k < |aliens| ==> aliens[k].sys.sprites == ps[k].fleet
      ensures score == old(score) + TotalHits(ps) >= old(score)
      ensures gunLife == old(gunLife) + (if bonus then 1 else 0) - Hurts(ps)
      ensures gun.sys.sprites == old(gun.sys.sprites)
      ensures life.sys.soundPlays == old(life.sys.soundPlays)
        + if life.sys.haveSound then |old(life.sys.sprites)| - |life.sys.sprites| else 0
      ensures forall k :: 0 <= k < |aliens| ==>
        aliens[k].sys.soundPlays == old(aliens[k].sys.soundPlays)
          + if aliens[k].sys.haveSound then |old(aliens[k].sys.sprites)| - |aliens[k].sys.sprites| else 0
    {
      var shots, gunPos, gunChildHeight, gunHeight := gun.sys.sprites, gun.trans, gun.childHeight, gun.height;
      var lifeHeight := life.childHeight;
      var points, lives;
      points, lives, ps := AllTurns(aliens, shots, gunPos, gunChildHeight, gunHeight);
      var removed := life.sys.RemoveNear(gunPos, Reach(gunHeight, lifeHeight));
      bonus := removed != 0;
      var lifeGain := if removed != 0 then 1 else 0;
      score := score + points;
      gunLife := gunLife + lifeGain - lives;
    }

    /** The level-up rule of `update`, at the current level. */
    method LevelUpRule()
      modifies this`levelup, gun`rate
      ensures Boost(levelup, gun.rate) == LevelUpStep(old(Boost(levelup, gun.rate)), level)
    {
      if Rem(level, 3) == 0 {
        if levelup {
          gun.rate := gun.rate * 1.5;
          levelup := false;
        }
      } else {
        levelup := true;
      }
    }

    /** Before the game starts the gun glides up towards the line two thirds
        down a window `windowHeight` pixels high. */
    method IntroGlide(windowHeight: int)
      modifies gun`trans
      ensures gun.trans == if startAnim then old(gun.trans) else old(gun.trans).(y := Glide(old(gun.trans).y, windowHeight))
    {
      if !startAnim {
        gun.trans := gun.trans.(y := gun.trans.y - 3.0);
        if gun.trans.y <= Quot(windowHeight * 2, 3) as real {
          gun.trans := gun.trans.(y := Quot(windowHeight * 2, 3) as real);
        }
      }
    }

    /** Once the game has started, the invader emitters the level reaches
        are activated, in list order. */
    method ActivateAliens(now: real, frameRate: real, muzzle: Vec2 -> Vec2)
      requires Valid() && frameRate > 0.0 && IntMin <= level
      modifies AlienEmitters()`started, AlienEmitters()`count, AlienEmitters()`lastSpawned, AlienSystems()`sprites
      ensures Spawners(aliens) == if startAnim then Activated(old(Spawners(aliens)), ActiveCount(level, |aliens|), now, frameRate, muzzle)
                                  else old(Spawners(aliens))
      ensures gun.State() == old(gun.State())
    {
      MembersApart(aliens, gun);
      if startAnim {
        if AsSize(level) <= |aliens| {
          ActivateFirst(aliens, level, now, frameRate, muzzle);
        } else {
          ActivateFirst(aliens, |aliens|, now, frameRate, muzzle);
        }
      }
    }

    /** The end of the game: once started, a gun with no lives left stops,
        the lives drop to -1, the play time in seconds is recorded and the
        invader list is cleared. A frame that takes the lives past zero
        without stopping on it does not end the game. */
    method GameOverRule(now: real)
      requires Valid()
      modifies this`gunLife, this`gameOver, this`playtime, this`aliens, gun`started
      ensures Valid()
      ensures var over := startAnim && old(gunLife) == 0;
        && gunLife == (if over then -1 else old(gunLife))
        && gameOver == (over || old(gameOver))
        && playtime == (if over then (now - gameStartTime) / 1000.0 else old(playtime))
        && aliens == (if over then [] else old(aliens))
        && gun.State() == if over then old(gun.State()).(started := false) else old(gun.State())
    {
      if startAnim {
        if gunLife == 0 {
          gunLife := -1;
          gun.Stop();
          gameOver := true;
          playtime := (now - gameStartTime) / 1000.0;
          aliens := [];
        }
      }
    }

    /** The play-area bound check on the gun's position. */
    method ClampGun()
      modifies gun`trans
      ensures gun.trans == Clamped(old(gun.trans), playarea)
    {
      if gun.trans.x < playarea.Left() {
        gun.trans := gun.trans.(x := playarea.Left());
      } else if gun.trans.x > playarea.Right() {
        gun.trans := gun.trans.(x := playarea.Right());
      }
      if gun.trans.y > playarea.Bottom() {
        gun.trans := gun.trans.(y := playarea.Bottom());
      } else if gun.trans.y < playarea.Top() {
        gun.trans := gun.trans.(y := playarea.Top());
      }
    }

    /** `level = score/10 + 1`. */
    method UpdateLevel()
      modifies this`level
      ensures level == LevelFor(score)
    {
      level := Quot(score, 10) + 1;
    }

    /** Once the game has started: the play time is measured, the bonus
        emitter is updated and moved to `(dropX, 0)`, and it is started
        during the first 21 ms of every 20-second period. */
    method BonusStep(now: real, frameRate: real, muzzle: Vec2 -> Vec2, dropX: real)
      requires frameRate > 0.0
      modifies this`currentplaytime, life`started, life`count, life`lastSpawned, life`trans, life.sys`sprites
      ensures currentplaytime == if startAnim then now - gameStartTime else old(currentplaytime)
      ensures var moved := Next(old(life.State()), now, frameRate, muzzle).(trans := Vec2(dropX, 0.0));
        life.State() == if !startAnim then old(life.State())
                        else if BonusDue(now - gameStartTime) then Restart(moved, now)
                        else moved
    {
      if startAnim {
        currentplaytime := now - gameStartTime;
        life.Update(now, frameRate, muzzle);
        life.SetPosition(Vec2(dropX, 0.0));
        if Rem(Trunc(currentplaytime), 20000) <= 20 {
          life.Start(now);
        }
      }
    }

    /** One call of `update` at time `now` and frame rate `frameRate`:
        `UpdatePlay`, then `UpdateRules`. Whatever
        happened, the gun ends the frame inside the play area, the level
        matches the score, the score has not gone down and a game that was
        over stays over. */
    method Frame(now: real, frameRate: real, muzzle: Vec2 -> Vec2, windowHeight: int, dropX: real)
      requires Valid() && frameRate > 0.0 && IntMin <= level
      modifies this`levelup, this`score, this`gunLife, this`gameOver, this`playtime, this`aliens, this`level
      modifies this`currentplaytime
      modifies gun`started, gun`count, gun`lastSpawned, gun`rate, gun`trans, gun.sys`sprites
      modifies life`started, life`count, life`lastSpawned, life`trans, life.sys`sprites, life.sys`soundPlays
      modifies AlienEmitters()`started, AlienEmitters()`count, AlienEmitters()`lastSpawned
      modifies AlienSystems()`sprites, AlienSystems()`soundPlays
      ensures Valid()
      ensures playarea.Contains(gun.trans)
      ensures level == LevelFor(score) && old(score) <= score
      ensures old(gameOver) ==> gameOver
      ensures aliens == old(aliens) || aliens == []
      ensures old(Idle()) ==> Idle()
    {
      UpdatePlay(now, frameRate, muzzle, windowHeight);
      UpdateRules(now, frameRate, muzzle, dropX);
    }

    /** The emitters' part of `update`, then `checkCollisions`: points are
        only ever gained. */
    method UpdatePlay(now: real, frameRate: real, muzzle: Vec2 -> Vec2, windowHeight: int)
      requires Valid() && frameRate > 0.0 && IntMin <= level
      modifies this`levelup, this`score, this`gunLife
      modifies gun`count, gun`lastSpawned, gun`rate, gun`trans, gun.sys`sprites
      modifies life.sys`sprites, life.sys`soundPlays
      modifies AlienEmitters()`started, AlienEmitters()`count, AlienEmitters()`lastSpawned
      modifies AlienSystems()`sprites, AlienSystems()`soundPlays
      ensures old(score) <= score
      ensures gun.started == old(gun.started)
      ensures !gun.started && old(gun.sys.sprites) == [] ==> gun.sys.sprites == [] && score == old(score)
    {
      StoppedStaysEmpty(gun.State(), now, frameRate, muzzle);
      UpdateEmitters(now, frameRate, muzzle, windowHeight);
      Collide();
    }

    /** `checkCollisions` as `update` relies on it: the score never drops,
        and a gun that has fired nothing scores nothing. */
    method Collide()
      requires Valid()
      modifies this`score, this`gunLife, life.sys`sprites, life.sys`soundPlays
      modifies AlienSystems()`sprites, AlienSystems()`soundPlays
      ensures old(score) <= score
      ensures old(gun.sys.sprites) == [] ==> score == old(score)
      ensures gun.sys.sprites == old(gun.sys.sprites)
    {
      NoShotsNoScore(Fleets(), ChildHeights(aliens), gun.trans, gun.childHeight, gun.height);
      var bonus, ps := CheckCollisions();
    }

    /** The first part of `update`, in the source's order: the gun's
        emitter and the invader emitters are updated. */
    method UpdateEmitters(now: real, frameRate: real, muzzle: Vec2 -> Vec2, windowHeight: int)
      requires Valid() && frameRate > 0.0 && IntMin <= level
      modifies this`levelup
      modifies gun`count, gun`lastSpawned, gun`rate, gun`trans, gun.sys`sprites
      modifies AlienEmitters()`started, AlienEmitters()`count, AlienEmitters()`lastSpawned, AlienSystems()`sprites
      ensures Boost(levelup, gun.rate) == LevelUpStep(old(Boost(levelup, gun.rate)), level)
      ensures gun.trans == if startAnim then old(gun.trans) else old(gun.trans).(y := Glide(old(gun.trans).y, windowHeight))
      ensures gun.State() == Next(old(gun.State()), now, frameRate, muzzle).(rate := gun.rate, trans := gun.trans)
      ensures Spawners(aliens) == if startAnim then Activated(old(Spawners(aliens)), ActiveCount(level, |aliens|), now, frameRate, muzzle)
                                  else old(Spawners(aliens))
    {
      GunStep(now, frameRate, muzzle, windowHeight);
      assert Spawners(aliens) == old(Spawners(aliens));
      ActivateAliens(now, frameRate, muzzle);
    }

    /** The gun's part of `update`: its emitter is updated, then the
        level-up rule and the intro glide change its rate and position. */
    method GunStep(now: real, frameRate: real, muzzle: Vec2 -> Vec2, windowHeight: int)
      requires Valid() && frameRate > 0.0
      modifies this`levelup, gun`count, gun`lastSpawned, gun`rate, gun`trans, gun.sys`sprites
      ensures Boost(levelup, gun.rate) == LevelUpStep(old(Boost(levelup, gun.rate)), level)
      ensures gun.trans == if startAnim then old(gun.trans) else old(gun.trans).(y := Glide(old(gun.trans).y, windowHeight))
      ensures gun.State() == Next(old(gun.State()), now, frameRate, muzzle).(rate := gun.rate, trans := gun.trans)
      ensures forall k :: 0 <= k < |aliens| ==> aliens[k].State() == old(aliens[k].State())
    {
      MembersApart(aliens, gun);
      gun.Update(now, frameRate, muzzle);
      LevelUpRule();
      IntroGlide(windowHeight);
    }

    /** The rest of `update`: the end of the game, the play-area clamp, the
        level and the bonus drop. The gun ends inside the play area and the
        level matches the score, which is left as it was. */
    method UpdateRules(now: real, frameRate: real, muzzle: Vec2 -> Vec2, dropX: real)
      requires Valid() && frameRate > 0.0
      modifies this`gunLife, this`gameOver, this`playtime, this`aliens, this`level, this`currentplaytime
      modifies gun`started, gun`trans
      modifies life`started, life`count, life`lastSpawned, life`trans, life.sys`sprites
      ensures Valid()
      ensures playarea.Contains(gun.trans)
      ensures level == LevelFor(score)
      ensures old(gameOver) ==> gameOver
      ensures aliens == old(aliens) || aliens == []
      ensures var over := startAnim && old(gunLife) == 0;
        && gunLife == (if over then -1 else old(gunLife))
        && gameOver == (over || old(gameOver))
        && playtime == (if over then (now - gameStartTime) / 1000.0 else old(playtime))
        && aliens == (if over then [] else old(aliens))
        && gun.started == (!over && old(gun.started))
      ensures gun.trans == Clamped(old(gun.trans), playarea)
      ensures currentplaytime == if startAnim then now - gameStartTime else old(currentplaytime)
      ensures var moved := Next(old(life.State()), now, frameRate, muzzle).(trans := Vec2(dropX, 0.0));
        life.State() == if !startAnim then old(life.State())
                        else if BonusDue(now - gameStartTime) then Restart(moved, now)
                        else moved
    {
      GameOverRule(now);
      ClampGun();
      UpdateLevel();
      BonusStep(now, frameRate, muzzle, dropX);
    }

    /** The space key. The first press starts the game at `now` and marks
        the first `level` invader emitters started; later presses, until
        the game is over, mark the gun started. Neither resets a count or a
        spawn time. */
    method PressSpace(now: real)
      requires Valid() && (!startAnim ==> level <= |aliens|)
      modifies this`startAnim, this`gameStartTime, AlienEmitters()`started, gun`started
      ensures startAnim
      ensures gameStartTime == if old(startAnim) then old(gameStartTime) else now
      ensures Spawners(aliens) == if old(startAnim) then old(Spawners(aliens)) else Woken(old(Spawners(aliens)), level)
      ensures gun.State() == if old(startAnim) && !gameOver then old(gun.State()).(started := true) else old(gun.State())
    {
      if !startAnim {
        StartGame(now);
      } else if !gameOver {
        ArmGun();
      }
    }

    /** The first press of the space key. */
    method StartGame(now: real)
      requires Valid() && level <= |aliens|
      modifies this`startAnim, this`gameStartTime, AlienEmitters()`started
      ensures startAnim && gameStartTime == now
      ensures Spawners(aliens) == Woken(old(Spawners(aliens)), level)
      ensures gun.State() == old(gun.State())
    {
      MembersApart(aliens, gun);
      startAnim := true;
      gameStartTime := now;
      Wake(aliens, level);
    }

    /** A later press of the space key: the gun is marked started. */
    method ArmGun()
      requires Valid()
      modifies gun`started
      ensures gun.State() == old(gun.State()).(started := true)
      ensures Spawners(aliens) == old(Spawners(aliens))
    {
      MembersApart(aliens, gun);
      if !gun.started {
        gun.started := true;
      }
    }

    /** Releasing the space key stops the gun's fire; nothing is reset. */
    method ReleaseSpace()
      modifies this`bSpaceDown, gun`started
      ensures !bSpaceDown
      ensures gun.State() == old(gun.State()).(started := false)
      ensures old(Idle()) ==> Idle()
    {
      bSpaceDown := false;
      gun.started := false;
    }
  }
}
