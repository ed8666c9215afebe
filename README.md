# 2DShootingGame: the sprite engine and the per-frame game rules

This project models the simulation core of an openFrameworks arcade shooter. The player's gun fires missiles upward. Five invader emitters drop invaders. A bonus emitter drops an extra-life pill every twenty seconds.

Three types carry the state:

- A `Sprite` is a value: position, velocity, birth time, lifespan and size.
- A `SpriteSystem` is an ordered vector of sprites, kept in a `seq<Sprite>` field that its methods reassign.
- An `Emitter` is a small state machine (`started`, `count`, `lastSpawned`) that feeds one sprite system.

The game object `ofApp` (class `App`) holds the gun, the bonus emitter and the list of invader emitters. Each frame it runs the emitter updates, the collision pass, the score, level and life bookkeeping, the play-area clamp and the bonus drop. The key events start the game and arm or stop the gun when the space key is pressed or released. Until the first press the game is idle (`App.Idle`): the gun is not armed and has fired nothing, the score is 0 and the level is at most 1.

Each file is one module:

- `cpp_int.dfy`: C++ integer `/` and `%`, which truncate toward zero, and the float-to-`int` conversion.
- `geometry.dfy`: 2-D vectors, the strict distance test (decided on squares), and `ofRectangle` edges.
- `seqs.dfy`: the erase-while-iterating idiom as a generic order-preserving filter.
- `sprites.dfy`: `Sprite`, the specification functions of the removal and update passes, and the class `SpriteSystem`, whose loops are proved against them.
- `emitters.dfy`: `Spawner`, the value an emitter and its system amount to, and `Next`, one `update` on it. It also holds lemmas about runs of updates (burst totals, rate spacing, draining) and the class `Emitter`, proved to perform `Next` in place.
- `game.dfy`: the pure rules (clamp, level, level-up, activation, bonus window, collision passes), the set-up, and the class `App`.

Some behaviours of the code are worth stating plainly:

- `removeNear` plays the sound once per erased sprite (ofApp.cpp:93-95).
- A stopped emitter's removal loop leaves the sprites at odd positions, `floor(n/2)` of them (ofApp.cpp:190-194).
- A missile scores one point per invader emitter it hits, however many invaders it erases (ofApp.cpp:907-911).

The model follows the code where the source's comments say otherwise:

- The level-up multiplies the gun's rate by 1.5, although the comment says 15% (ofApp.cpp:627-630).
- The level is `score/10 + 1`, although the comment says "quotient of 20" (ofApp.cpp:757-758).

Clock readings (`ofGetElapsedTimeMillis`), the frame rate, the window size and `ofRandom` results are parameters. Floats are modelled as reals.

One frame takes one clock reading, `now`. It stands for every reading the source takes during that frame: in `Sprite::age` (ofApp.cpp:32-34), in `Emitter::update` (ofApp.cpp:196) and in `ofApp::update` (ofApp.cpp:719 and 760). The model assumes they all return the same value.

## Model

| member | source | states |
|---|---|---|
| CppInt.Trunc | ofApp.cpp:768 | `int(x)` drops the fraction toward zero: the result is within 1 of `x` on the side of zero |
| CppInt.Quot | ofApp.cpp:758 | C++ `/` on ints; agrees with Euclidean division for a non-negative dividend and positive divisor |
| CppInt.Rem | ofApp.cpp:628 | C++ `%` on ints; agrees with Euclidean remainder for a non-negative dividend and positive divisor |
| CppInt.QuotRem | ofApp.cpp:758 | the C++ identity `a == b*(a/b) + a%b`, with `|a%b| < |b|` and the remainder taking the sign of `a` |
| Geometry.NearIffCloserThan | ofApp.cpp:88-89 | the squared test `Near(p, q, d)` holds exactly when the true length of `p - q` is `< d`, for every `d`, negative included |
| Seqs.Filter | ofApp.cpp:87-98 | the one-pass erase keeps at most the elements it saw |
| Seqs.FilterConcat | ofApp.cpp:87-98 | erasing distributes over concatenation, so survivors keep their relative order |
| Seqs.FilterMembers | ofApp.cpp:87-98 | only elements that pass the test are kept |
| Seqs.FilterCount | ofApp.cpp:87-98 | each element that passes is kept as often as it occurs, every other one is erased |
| Seqs.FilterKeepsAll | ofApp.cpp:87-98 | a pass that kept as many elements as it saw erased nothing |
| Seqs.FilterAll | ofApp.cpp:87-98 | nothing is erased when every element passes |
| Seqs.EraseStep | ofApp.cpp:87-98 | one iteration of `it = v.erase(it)` / `++it` turns the state after `k` examined elements into the state after `k + 1` |
| Sprites.Age | ofApp.cpp:32-34 | `Sprite::age` is non-negative exactly when the sprite was born no later than `now` |
| Sprites.DefaultSpriteImmortal | ofApp.cpp:18-28 | a default-constructed sprite (lifespan -1, birth time 0) is never expired, and its age is the whole elapsed time |
| Sprites.ExpiryLasts | ofApp.cpp:117 | once past its lifespan, a sprite stays past it at every later time |
| Sprites.NewbornExpired | ofApp.cpp:117 | a sprite born at `now` is already expired exactly when its lifespan is negative and not -1 |
| Sprites.Moved | ofApp.cpp:128 | one frame moves a sprite by `velocity / frameRate` and changes nothing else |
| Sprites.MoveAll | ofApp.cpp:127-129 | every sprite moved once, in place: same number, same order |
| Sprites.WithImage | ofApp.cpp:39-44 | `Sprite::setImage` binds the image and takes its size, changing nothing else |
| Sprites.OddIndexed | ofApp.cpp:190-194 | the sprites at odd positions: `floor(n/2)` of them, `r[k] == ss[2k+1]` |
| Sprites.RemoveEvenStep | ofApp.cpp:190-194 | pass `i` of `for (i < size) remove(i)` erases the original sprite `2i` and keeps `2i+1` |
| Sprites.SurvivorsExact | ofApp.cpp:116-123 | the expiry pass erases exactly the sprites with `lifespan != -1 && age > lifespan`, keeping the multiplicity of the rest |
| Sprites.SurvivorsInOrder | ofApp.cpp:116-123 | expiry keeps the survivors' relative order |
| Sprites.ImmortalSurvives | ofApp.cpp:117 | a sprite with lifespan -1 is never erased by `update`, however old; it comes out moved one frame |
| Sprites.FarFromExact | ofApp.cpp:87-98 | `removeNear` erases exactly the sprites strictly closer than `dist`, keeping the multiplicity of the rest |
| Sprites.FarFromNonPositive | ofApp.cpp:88-89 | with `dist <= 0` nothing is erased |
| Sprites.SpriteSystem.constructor | ofApp.h:46-59 | a fresh system is empty, has no sound, has played nothing and has `noChild == 0` |
| Sprites.SpriteSystem.Add | ofApp.cpp:68-70 | appends the sprite at the end |
| Sprites.SpriteSystem.Remove | ofApp.cpp:76-78 | erases position `i` and shifts the rest down; requires `i` in range, as `erase` does |
| Sprites.SpriteSystem.RemoveNear | ofApp.cpp:82-100 | leaves exactly the sprites at distance `>= dist`, in order; returns how many were erased; counts one sound play per erased sprite when a sound is loaded |
| Sprites.SpriteSystem.Update | ofApp.cpp:106-130 | erases the expired sprites, then moves every survivor by `velocity / frameRate` |
| Sprites.SpriteSystem.ExpirePass | ofApp.cpp:116-123 | the first loop leaves exactly the survivors, in order |
| Sprites.SpriteSystem.MovePass | ofApp.cpp:127-129 | the second loop moves each sprite by one frame, in place |
| Emitters.Child | ofApp.cpp:200-207 | a spawned sprite carries the emitter's velocity and lifespan, the child image if set, the child size, the given position and `birthtime = now` |
| Emitters.Spawned | ofApp.cpp:197-235 | at most one sprite; one exactly when started and (burst: `count < noChild`; rate: `now - lastSpawned > 1000/rate`); at the emitter in burst mode, at the muzzle in rate mode |
| Emitters.Next | ofApp.cpp:189-240 | one `update` never changes a spawn setting or the `started` flag |
| Emitters.Restart | ofApp.cpp:244-248 | `start` changes no spawn setting and leaves the sprites alone |
| Emitters.Activate | ofApp.cpp:654-659 | the game loop leaves a reached emitter started; an idle one is only started, with its sprites untouched |
| Emitters.Run | ofApp.cpp:189-240 | successive updates keep the spawn settings and the `started` flag |
| Emitters.StoppedUpdate | ofApp.cpp:190-194 | a stopped update leaves exactly the originally odd-indexed sprites, unmoved, and nothing else changes |
| Emitters.StoppedStaysEmpty | ofApp.cpp:190-194 | a stopped emitter with an empty system keeps it empty |
| Emitters.StoppedDrains | ofApp.cpp:190-194 | each stopped update halves the sprites, rounding down, so `j` of them leave `Halved(n, j)`, at most `n - j`, and spawn nothing |
| Emitters.AtMostOnePerUpdate | ofApp.cpp:197-235 | a run of updates spawns at most one sprite per update |
| Emitters.BurstTotal | ofApp.cpp:197-212 | burst mode: `count` counts the spawns and stops at `noChild` |
| Emitters.BurstAfterStart | ofApp.cpp:244-248 | after `start`, burst mode spawns exactly `min(updates, noChild)` sprites |
| Emitters.LastSpawnedIsLatest | ofApp.cpp:209-234 | `lastSpawned` is the birth time of the latest spawn, in either mode |
| Emitters.BornAtUpdates | ofApp.cpp:205 | every spawned sprite is born at one of the update times |
| Emitters.RateSpacing | ofApp.cpp:218 | rate mode: successive spawns are more than `1000/rate` ms apart, the first more than that after `lastSpawned` |
| Emitters.RateBound | ofApp.cpp:218 | `k` such spawns take more than `k` intervals |
| Emitters.Emitter.constructor | ofApp.cpp:142-158 | the defaults of the header and constructor: stopped, rate mode, `count == 0`, no images, rate 1, and the system's sprites untouched |
| Emitters.Emitter.Update | ofApp.cpp:189-240 | performs exactly `Next` on the emitter and its system |
| Emitters.Emitter.RemoveLoop | ofApp.cpp:190-194 | the stopped loop leaves `OddIndexed` of the sprites |
| Emitters.Emitter.Start | ofApp.cpp:244-248 | performs exactly `Restart` |
| Emitters.Emitter.Stop | ofApp.cpp:250-253 | clears `started` only |
| Emitters.Emitter.SetPosition | ofApp.cpp:11-13 | sets the position only |
| Emitters.Emitter.SetLifespan | ofApp.cpp:256-258 | sets the lifespan only |
| Emitters.Emitter.SetVelocity | ofApp.cpp:260-262 | sets the velocity only |
| Emitters.Emitter.SetChildImage | ofApp.cpp:264-269 | sets the child image and flag, and the child size from the image |
| Emitters.Emitter.SetChildSize | ofApp.h:75 | sets exactly `childWidth` and `childHeight` |
| Emitters.Emitter.SetImage | ofApp.cpp:271-276 | sets the emitter's own image and size; no spawn setting changes |
| Emitters.Emitter.SetRate | ofApp.cpp:278-280 | sets the rate only |
| Emitters.Emitter.Integrate | ofApp.cpp:281-286 | position by velocity, velocity by acceleration, then damping |
| Game.Clamped | ofApp.cpp:744-755 | the clamped position lies in the play area; a position already inside is unchanged |
| Game.ClampedIsNearest | ofApp.cpp:744-755 | on each axis no point of the area is closer to the original than the clamped one |
| Game.LevelFor | ofApp.cpp:758 | for a non-negative score, the level is the `L >= 1` with `10(L-1) <= score < 10L` |
| Game.LevelMonotone | ofApp.cpp:758 | a higher score never gives a lower level |
| Game.LevelUpStep | ofApp.cpp:628-637 | after the rule, `levelup` says whether the level is off the multiples of 3 |
| Game.BoostPerEntry | ofApp.cpp:628-637 | over any sequence of frames the rate is multiplied by 1.5 exactly once per entry into a multiple of 3 |
| Game.ActiveCount | ofApp.cpp:651-672 | the loop reaches `level` emitters when `0 <= level <= size`, else all (a negative level converts to a huge `size_t`) |
| Game.Activated | ofApp.cpp:650-673 | activation keeps the number of emitters |
| Game.ActivationTouchesPrefix | ofApp.cpp:650-673 | only the first `ActiveCount` emitters change: those end started; an idle one is only started; the rest are untouched |
| Game.FirstInvaderWaits | ofApp.cpp:657-659 | an idle rate-mode invader started at `t1` first fires at `t2` iff `t2 - t1 > 1000/rate` |
| Game.BonusInWindow | ofApp.cpp:768 | a bonus is due during the first 21 ms of every 20-second period of play |
| Game.NoBonusOutsideWindow | ofApp.cpp:768 | and at no other time |
| Game.BonusDue | ofApp.cpp:768 | a bonus is due at every play time under 21 ms |
| Game.Reach | ofApp.cpp:890-901 | a collision distance is the mean of two sizes, and is never negative for non-negative sizes |
| Game.Volley | ofApp.cpp:904-912 | the missiles score at most one point each against one invader emitter, and never more points than invaders erased |
| Game.VolleyClears | ofApp.cpp:905-911 | no invader surviving the volley is within range of any missile, and every survivor was there before |
| Game.VolleyScoresIffRemoves | ofApp.cpp:905-911 | a volley scores nothing exactly when it erases nothing |
| Game.AlienPass | ofApp.cpp:899-915 | one emitter's turn scores at most one point per missile |
| Game.AlienPassHurts | ofApp.cpp:912-914 | a turn costs a life iff an invader surviving the volley is within range of the gun; the survivors are clear of the gun and of every missile |
| Game.Hurts | ofApp.cpp:912-914 | at most one life is lost per invader emitter |
| Game.NoShotsNoScore | ofApp.cpp:903-911 | without missiles no turn scores a point |
| Game.TotalHitsBound | ofApp.cpp:903-911 | the score rises by at most one per (invader emitter, missile) pair |
| Game.GlideFloor | ofApp.cpp:640-642 | the line `ofGetWindowHeight() * 2 / 3` in integer arithmetic: within 1 below two thirds of the height |
| Game.Glide | ofApp.cpp:639-644 | one idle frame: the gun never ends above the line, and otherwise rises by exactly 3 pixels |
| Game.GlideSettles | ofApp.cpp:639-644 | after `n` idle frames the gun stands at `y - 3n` or on the two-thirds line |
| Game.Hide | ofApp.cpp:380 | `drawable = false` changes nothing the simulation reads |
| Game.ResizeChildImage | ofApp.cpp:382 | resizing the child image leaves the hit-test child size as it was |
| Game.LoadCollideSound | ofApp.cpp:388-391 | a loaded sound sets `haveSound`, a failed load leaves it |
| Game.StillGun | ofApp.cpp:363-371 | the gun's motion fields at set-up: at rest, damping 0.99 |
| Game.LimitToOneChild | ofApp.cpp:385-386 | the bonus emitter is put in burst mode with one child |
| Game.InvaderPlans | ofApp.cpp:393-478 | the five invaders of the set-up, in push order: all fall at 200 to 500 px/s, live 5 to 7 s, are 40 or 50 px and start inside the window; only the first has base rate 1, the others 0.5 |
| Game.Deployed | ofApp.cpp:397-404 | an invader emitter after set-up: idle, empty, child size equal to its resized image, rate `currentplaytime/60000*0.1 + base` |
| Game.NewInvader | ofApp.cpp:397-408 | one invader block of the set-up produces `Deployed` with its own new sprite system |
| Game.PushInvader | ofApp.cpp:409-410 | pushing keeps the earlier invaders, adds one newly allocated emitter with a newly allocated system, and keeps all systems distinct |
| Game.NewFleet | ofApp.cpp:393-478 | five invaders as planned, each newly allocated with its own newly allocated system, none of them the gun's or the bonus's |
| Game.NewGun | ofApp.cpp:341-371 | the gun: bottom centre, rate 3, missiles upward at 1000 px/s, lifespan the window height |
| Game.NewBonus | ofApp.cpp:374-391 | the bonus: hidden at `(x, 0)`, burst of one, 50 x 50 image but 75 x 75 hit size |
| Game.Passes | ofApp.cpp:899-916 | one turn per invader emitter, in list order |
| Game.Fire | ofApp.cpp:905-911 | the inner loop performs exactly `Volley` on the emitter's system; with a sound loaded, one play per invader erased |
| Game.Turn | ofApp.cpp:899-915 | one turn performs exactly `AlienPass`; with a sound loaded, one play per invader erased |
| Game.TurnAt | ofApp.cpp:899-915 | the outer loop body extends the completed turns by one, the totals by its points and life, and the sound count of that emitter only |
| Game.AllTurns | ofApp.cpp:899-916 | every invader system ends as its turn leaves it, with one sound play per invader erased when it has a sound; points and lives lost are the totals over all turns |
| Game.ActivateAt | ofApp.cpp:653-659 | the loop body updates a started emitter, starts an idle one, and touches no other |
| Game.ActivateFirst | ofApp.cpp:650-673 | the emitters end as `Activated` says |
| Game.Woken | ofApp.cpp:1008-1011 | marking started keeps the number of emitters |
| Game.WokenKeepsSchedule | ofApp.cpp:1008-1011 | a rate-mode emitter marked started fires iff an interval has passed since its old `lastSpawned`; one restarted at `t0` would fire iff an interval has passed since `t0` |
| Game.WakeAt | ofApp.cpp:1009-1010 | the loop body marks one emitter started and touches no other |
| Game.Wake | ofApp.cpp:1008-1011 | the first `level` emitters are marked started, nothing reset |
| Game.App.constructor | ofApp.cpp:300-547 | `setup()`: score 0, 3 lives, level 0, idle (`Idle` holds); the play area; the gun, bonus and five invaders as configured, each newly allocated with its own new system, so the sets of invader emitters and systems are new too |
| Game.App.CheckCollisions | ofApp.cpp:885-917 | the pill gives at most one life; each invader system ends as its turn leaves it; the score rises by the total points; at most one life per emitter is lost; every system with a sound plays it once per sprite erased; the gun's missiles are untouched |
| Game.App.Collide | ofApp.cpp:885-917 | `checkCollisions` seen from `update`: the score never drops, a gun with no missiles scores nothing, and the missiles are untouched |
| Game.App.LevelUpRule | ofApp.cpp:628-637 | flag and rate follow `LevelUpStep` at the current level |
| Game.App.IntroGlide | ofApp.cpp:639-644 | before the start the gun glides as `Glide`; after it, it stays |
| Game.App.ActivateAliens | ofApp.cpp:650-673 | once started, the invader emitters end as `Activated` at `ActiveCount(level)`; the gun is untouched |
| Game.App.GunStep | ofApp.cpp:624-644 | the gun is updated once, its rate and flag follow `LevelUpStep`, it glides before the start; no invader emitter changes |
| Game.App.UpdateEmitters | ofApp.cpp:624-673 | the gun part as `GunStep`, then the invader emitters end as `Activated` once started and are untouched before |
| Game.App.GameOverRule | ofApp.cpp:719-740 | at exactly zero lives: lives -1, gun stopped, game over, play time recorded, invaders cleared; otherwise nothing changes |
| Game.App.ClampGun | ofApp.cpp:744-755 | the gun's position becomes `Clamped` to the play area |
| Game.App.UpdateLevel | ofApp.cpp:758 | the level matches the score |
| Game.App.BonusStep | ofApp.cpp:759-773 | once started: play time measured; the bonus emitter is updated and moved, and started when the bonus is due |
| Game.App.Frame | ofApp.cpp:549-775 | after a frame the gun lies in the play area, the level matches the score, the score has not gone down, a game that was over stays over, the invader list is kept or, at game over, emptied, and `Idle` is kept: before the first space press nothing scores and the level stays at most 1 |
| Game.App.UpdatePlay | ofApp.cpp:624-680 | the emitters' part of the frame and the collisions never lower the score and keep the gun's started flag; a stopped gun with no missiles keeps none and scores nothing |
| Game.App.UpdateRules | ofApp.cpp:717-773 | the rest of the frame: at zero lives after the start the game ends, the play time is recorded and the invaders are cleared; the gun is clamped to the play area; the level matches the score; once started, the play time is measured and the bonus emitter is updated, moved to `dropX` and restarted when the bonus is due |
| Game.App.PressSpace | ofApp.cpp:1003-1020 | the game is started; the first press wakes the first `level` invaders; a later press arms the gun unless the game is over; nothing is reset |
| Game.App.StartGame | ofApp.cpp:1004-1012 | the first press records the start time and wakes the first `level` invader emitters; the gun is untouched |
| Game.App.ArmGun | ofApp.cpp:1014-1019 | a later press marks the gun started without resetting `count` or `lastSpawned` |
| Game.App.ReleaseSpace | ofApp.cpp:1060-1064 | releasing the key stops the gun's fire and nothing else, so `Idle` is kept |

## Left out

- Drawing is left out (`Sprite::draw`, `SpriteSystem::draw`, `Emitter::draw`, `Background::draw`, `ofApp::draw`): renderer calls only.
- Loading images and sounds is a parameter (`Assets`), and playback is left out: framework I/O. The collision sound of `removeNear` is kept as the ghost counter `soundPlays`.
- The enemy-wave trajectories (`curveEval`, `curveEvaly`) and the random velocity and position rewrites after `checkCollisions` (ofApp.cpp:683-715, 867-879) are left out: sine, `PI` and `ofRandom`. The bonus emitter's random x position is the parameter `dropX`.
- The particle effects (`expEmit`, `expEmitShip`, `thrusterShip`, the forces) are left out: their classes are not part of this model.
- The damped ship motion of the arrow keys (ofApp.cpp:552-607) and the scrolling background are left out: frame-rate-scaled float kinematics. `Emitter::integrate` is modelled but never called, as in the source.
- Keys other than space are left out: arrows, `x`, return (re-running `setup`), `m`, shift, `i`, and the mouse callbacks. `moveDir` is kept as a field of the five-state `MoveDir`.
- TransformObject.h is not part of this model: it is a declaration with no definitions and no uses.
- The rate-mode muzzle offset `normalize(velocity) * 30` needs a square root, so it is the parameter `muzzle`.
- The z components of the three-component vectors are left out: they are always zero here.
- Float rounding is left out: floats are reals, and `float t = ofGetElapsedTimeMillis()` is the real `now`.
- Game.App.CheckCollisions: score and lives are added once after the loops, not per hit. No statement in between reads them, so the final values are the same.
- Game.App.CheckCollisions: the bonus pill is checked after the invaders' turns, not before. The two touch disjoint sprite systems. Both change `gunLife` (the pill adds one, each invader turn that reaches the gun takes one away), but the changes add up the same in either order and nothing reads `gunLife` in between, so the outcome is the same.
- Game.App.UpdatePlay: states that the score does not go down, that the gun's flag is kept, and what happens before the gun is armed. The exact effect of each step is in the contracts of the methods it calls.
- Game.App.Frame: states the invariants of a frame, not the composed effect of every step, which the contracts of its parts give.
- Game.App.ActivateAliens: requires `level` to be within the range of a C++ `int`. The model's level is an unbounded integer, and nothing bounds the score from which it is computed.
- Game.App.PressSpace: requires `level <= aliens.size()` on the first press. The source indexes `aliens[i]` without a bound check, and reading past the end is undefined behaviour. The bound holds in every run of the modelled events (the constructor, `Frame`, `PressSpace` and `ReleaseSpace`): `Idle`, which the constructor sets up and `Frame` and `ReleaseSpace` keep, gives a level of at most 1 and at least one invader emitter before the first press. The `x` key, which is not modelled, breaks it: it sets `gameOver` and empties `aliens` (ofApp.cpp:1024-1028) but leaves `startAnim` false, and `level` is 1 after any frame (ofApp.cpp:758), so `x` followed by space reads `aliens[0]` of an empty vector (ofApp.cpp:1007-1010). This is an out-of-bounds read in the source.
- Game.NewBonus: the pill image is assumed to load, at the 75 x 75 size it is resized to (ofApp.cpp:376-377). The source does not check that load, and the pill's size is not taken from `Assets`.
- Score and lives are unbounded integers: `int` overflow is not modelled.
