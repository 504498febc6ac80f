# Asteroids — a Dafny model of the game core

This project models the core of a small Windows Forms Asteroids game. The
ship sits at the centre of the window and turns with the arrow keys, and
space fires bullets (at most eight are live). Asteroids fade in, drift, and
fade out once they have left the screen. A bullet that hits an asteroid
splits it: a large one becomes two medium ones, a medium one becomes three
small ones, and a small one is destroyed. Each split scores 100, 200 or 300
points. An asteroid that hits the ship costs a life. A bonus-life
accumulator awards one life each time it exceeds 10000. The number of
asteroids the game keeps alive, the difficulty, rises by one every 50 timer
ticks.

The model has six modules:

- `Values` (values.dfy) holds the shared plain values: points, sizes,
  colours, the asteroid size enumeration, keys, and C#'s truncating integer
  division as the code uses it.
- `Fading` (fade.dfy) is the asteroid fade state machine as a pure
  function, with lemmas about its timing.
- `ScoreText` (score_text.dfy) covers the "000000" score format and the
  integer parser the overlay reads the score back with.
- `Lists` (lists.dfy) covers removing every marked entry from a list while
  keeping the order, and the distinctness of the entity lists.
- `Assets` (assets.dfy) has the entity classes `Player`, `Bullet`,
  `Asteroid` and `UserInterface`, the shared random generator `Rand`,
  `Clamp`, and the coarse distance test.
- `Game` (game.dfy) has the form as a class `Form`. It holds the timer
  tick, the frame (`Render`), the bullet pass, the player pass, the split,
  the prune step and the keyboard handlers.

The entities are classes whose fields the methods update in place, as in
the source. Each method is proved against functions and predicates on
values: `Fading.Step`, `ClockStep`, `BonusStep`, `Without`, `PassFacts`,
`ShipFacts`, `Doomed`. Lemmas state the source's promises about those
functions.

The hit tests call the exact intersection test as an oracle `overlap` on
two outlines. The collision passes keep a ghost record of every test they
make. `Volleyed` records the bullet pass: row `r` belongs to bullet `r` and
holds one test per entry of the list, each as `Tried` says, and the hits are
exactly the accepted tests, in order. `Sightings` records the player pass.
`Collided` joins the two records for a whole frame and is carried from the
passes up to the timer tick. Through `Seated` it ties what the player pass
saw to the asteroids as the frame began: the ones listed then alive or not
and placed as they were, the spawned one and the fragments not yet alive. Some consequences of the code that these
contracts make explicit:

- The bullet pass visits asteroids appended by splits earlier in the same
  pass: each row is as long as the list has grown by the fragments of the
  hits so far (`RowTested`).
- A bullet that has already hit keeps being tested, so one bullet can split
  several asteroids in one frame.
- An asteroid already marked by one bullet can be hit, and split, by a
  later bullet of the same pass: a test does not look at the marks. Every
  accepted pair splits its asteroid exactly once (`PassFacts`).
- Each test that finds an asteroid within reach takes both outlines, and so
  turns the asteroid once. A later test compares the outline at the
  rotation the earlier tests left (`SpinsFrom`, `Spun`), and the ship turns
  once per asteroid it reaches (`Facing`).
- The game stops exactly when a crash takes the lives to 0. If a pass
  starts with no lives, it never stops the game.

Two behaviours of the code worth noting:

- With eight live bullets, pressing space removes the oldest bullet and
  fires nothing, leaving seven (Form1.cs:378-381).
- The difficulty first rises on the 51st timer tick, not the 50th. The
  counter is compared with 50 before that tick is counted (Form1.cs:125-129,
  153).

## Model

| member | source | states |
|---|---|---|
| Values.Radius | Asteroids/Asteroids/Form1.cs:22-27 | an asteroid's radius is its size's enumeration value: 20, 40 or 60 |
| Values.HalfTrunc | Asteroids/Asteroids/Assets.cs:145 | halving an int truncates toward zero: for n >= 0 the result h has 2h <= n <= 2h+1, for negative n it has the mirrored bound |
| Values.Twentieth | Asteroids/Asteroids/Assets.cs:534 | dividing an int by 20 truncates toward zero, with the matching bounds on either sign |
| Assets.Clamp | Asteroids/Asteroids/Assets.cs:344-347 | the result lies in [min, max] when min <= max; a value already in range is returned unchanged; a value below min gives min, one above max gives max |
| Assets.ClampIdempotent | Asteroids/Asteroids/Assets.cs:344-347 | clamping twice to the same range is clamping once |
| Assets.Near | Asteroids/Asteroids/Assets.cs:72-82 | the coarse test holds only when the radii sum is non-negative; two entities at the same point always pass it |
| Assets.TurnedLinear | Asteroids/Asteroids/Assets.cs:420 | N outline queries turn an entity by exactly N times its rotation delta: `Turned(r, d, N) == r + N·d`; `Game.FacingLinear` and `Game.SpinsLinear` apply it to the tests the passes make |
| Assets.Rand.constructor | Asteroids/Asteroids/Assets.cs:21 | the shared generator starts at the first value of its stream, and every value lies in [0, 1) |
| Assets.Rand.NextDouble | Asteroids/Asteroids/Assets.cs:266-268 | each draw returns the next value of the stream, which lies in [0, 1), and advances the cursor by one |
| Assets.Player.constructor | Asteroids/Asteroids/Assets.cs:103-112 | a new ship is at the given position, yellow, not moving or turning, with radius 20 |
| Assets.Player.Tick | Asteroids/Asteroids/Assets.cs:143-150 | the ship is re-centred at half the playfield size (integer division), which lies inside a non-negative playfield, and is stopped |
| Assets.Player.GetPath | Asteroids/Asteroids/Assets.cs:118-138 | the outline is the ship's shape at its location and current rotation; the rotation then advances by one delta |
| Assets.Bullet.constructor | Asteroids/Asteroids/Assets.cs:181-191 | a new bullet starts at the ship's location and heading (not the position argument), white, unmarked, with speeds -6, radius 5 and no spin |
| Assets.Flight | Asteroids/Asteroids/Assets.cs:198-204 | a bullet moves along its heading by its speeds; with equal speeds and a consistent sine and cosine, one step is as long as the speed whatever the heading |
| Assets.OutsideScreen | Asteroids/Asteroids/Assets.cs:207-208 | a point is off the playfield exactly when clamping it to the playfield would move it |
| Assets.Bullet.Tick | Asteroids/Asteroids/Assets.cs:196-209 | the bullet moves one step along its heading; it is marked exactly when it was marked before or is now off the playfield |
| Assets.Bullet.GetPath | Asteroids/Asteroids/Assets.cs:214-229 | the outline is the bullet's shape at its location and rotation; its rotation delta is never set, so the rotation stays put |
| Assets.Asteroid.constructor | Asteroids/Asteroids/Assets.cs:260-273 | a new asteroid is at the given position with the radius of its size; it is transparent, fading in, neither dying nor marked, and so not alive; its seven-vertex polygon takes the first 15 draws, then its spin takes draw 16 (in [-3, 3)) and its velocities draws 17 and 18 (in [-2.5, 2.5)), 18 draws in all |
| Assets.Asteroid.PolygonDraws | Asteroids/Asteroids/Assets.cs:283-335 | the polygon generator takes one draw per vertex for the angle steps, one for the starting angle and one per vertex for the radii: 2n + 1 draws for n vertices |
| Assets.Asteroid.Collidable | Asteroids/Asteroids/Assets.cs:254 | an asteroid is alive (`IsAlive`) once its fade-in is over: a new one is not alive; a valid alive asteroid is fully opaque unless dying, and one at alpha 0 is marked |
| Assets.Offscreen | Asteroids/Asteroids/Assets.cs:366-367 | an asteroid is off screen when it is more than 25 pixels past an edge: that is the playfield test on a field enlarged by 25 on every side, and such a point is outside the playfield itself |
| Assets.Asteroid.Fade | Asteroids/Asteroids/Assets.cs:393-401 | the colour takes the current alpha and keeps its red, green and blue |
| Assets.Asteroid.Tick | Asteroids/Asteroids/Assets.cs:349-389 | the asteroid drifts by its velocity, and its fade state makes exactly one step of `Fading.Step`, dying if it is now more than 25 pixels off screen; the reachable-state invariant is kept |
| Assets.Asteroid.GetPath | Asteroids/Asteroids/Assets.cs:407-425 | the outline is the asteroid's own polygon at its location and rotation; the rotation then advances by one delta |
| Assets.UserInterface.constructor | Asteroids/Asteroids/Assets.cs:514-526 | a new overlay shows the given lives, and its stored text reads back as the given score |
| Assets.UserInterface.SetScore | Asteroids/Asteroids/Assets.cs:506 | writing the score stores its "000000" text, which reads back as the same score |
| Assets.UserInterface.GetScore | Asteroids/Asteroids/Assets.cs:506 | reading the score returns the number the stored text parses to |
| Assets.UserInterface.Tick | Asteroids/Asteroids/Assets.cs:532-535 | the overlay sits a twentieth of the playfield in from the top-left corner, inside a non-negative playfield |
| Fading.Step | Asteroids/Asteroids/Assets.cs:366-388 | one update: the fade-in flag only clears; dying and marked only get set; dying is set exactly when it was set or the asteroid is now off screen; marked is set exactly when it was set or the asteroid is dying, done fading in and at alpha 0; alpha rises only by 15 and only while fading in, and falls only by 15 and only while dying after the fade-in; an opaque fading-in asteroid that is dying starts its fade-out in the same update |
| Fading.StepKeepsInv | Asteroids/Asteroids/Assets.cs:371-388 | one update keeps the fade state reachable: alpha is a multiple of 15 in [0, 255], a finished fade-in is opaque unless dying, and a finished fade at alpha 0 is marked |
| Fading.RunKeepsInv | Asteroids/Asteroids/Assets.cs:371-388 | over any number of updates, alpha stays a multiple of 15 within [0, 255] |
| Fading.RunMonotone | Asteroids/Asteroids/Assets.cs:366-388 | over any number of updates, a cleared fade-in flag stays cleared and set dying and marked flags stay set |
| Fading.FadeInProgress | Asteroids/Asteroids/Assets.cs:371-378 | during its first 17 updates a new asteroid has alpha 15 times the updates so far, is still fading in and unmarked, and is dying exactly when it has been off screen |
| Fading.AliveExactlyAfter18 | Asteroids/Asteroids/Assets.cs:254 | a new asteroid is alive (done fading in) exactly from its 18th update on |
| Fading.RunSplit | Asteroids/Asteroids/Assets.cs:349-389 | running updates in two stretches is running them all at once |
| Fading.FadeOut | Asteroids/Asteroids/Assets.cs:380-388 | a dying asteroid that has finished fading in loses 15 alpha per update down to 0 and no further, and is marked exactly once alpha has reached 0 |
| Fading.FadeOutFromOpaque | Asteroids/Asteroids/Assets.cs:380-388 | from full opacity, a dying asteroid is marked after exactly 17 updates |
| ScoreText.Format | Asteroids/Asteroids/Assets.cs:506 | the "000000" text of a non-negative score is at least six digits; a negative score gets a minus sign before at least six digits |
| ScoreText.FormatRoundTrip | Asteroids/Asteroids/Assets.cs:506 | parsing the written text of any score gives back that score |
| ScoreText.FormatWidth | Asteroids/Asteroids/Assets.cs:506 | a non-negative score is written with exactly six digits when it is below one million, and its digits denote the score |
| Lists.Without | Asteroids/Asteroids/Form1.cs:188-189 | removal never lengthens a list |
| Lists.WithoutMembers | Asteroids/Asteroids/Form1.cs:188-189 | after removal, an entity is in the list exactly when it was there before and is not removed |
| Lists.WithoutAppend | Asteroids/Asteroids/Form1.cs:188-189 | removal distributes over concatenation |
| Lists.WithoutKeepsOrder | Asteroids/Asteroids/Form1.cs:188-189 | two survivors stay in the order they had before |
| Lists.WithoutDistinct | Asteroids/Asteroids/Form1.cs:188-189 | removal keeps a list free of duplicates |
| Game.Points | Asteroids/Asteroids/Form1.cs:289-313 | a split scores 400 minus five times the asteroid's radius: 100, 200 or 300, more for smaller asteroids |
| Game.Fragments | Asteroids/Asteroids/Form1.cs:289-307 | only a small asteroid leaves no fragments, and the fragments together always weigh less than the asteroid they replace |
| Game.FragmentSize | Asteroids/Asteroids/Form1.cs:289-307 | the fragments are one size down, 20 smaller in radius, and worth at least as many points |
| Game.TotalPoints | Asteroids/Asteroids/Form1.cs:286-320 | the points of a run of splits lie between 100 and 300 per split |
| Game.TotalFragments | Asteroids/Asteroids/Form1.cs:286-320 | a run of splits leaves at most 3 fragments per split |
| Game.RocksPruned | Asteroids/Asteroids/Form1.cs:188 | removing the marked asteroids keeps exactly the unmarked ones, and no duplicates appear |
| Game.ShotsPruned | Asteroids/Asteroids/Form1.cs:189 | removing the marked bullets keeps exactly the unmarked ones, and no duplicates appear |
| Game.HitsAppend | Asteroids/Asteroids/Form1.cs:286-313 | the points, fragment counts and hit sets of consecutive runs of hits add up |
| Game.FacingLinear | Asteroids/Asteroids/Form1.cs:210-215 | when test n of the player pass is made, the ship has turned by exactly its rotation delta times the number of earlier asteroids it reached |
| Game.SpinsLinear | Asteroids/Asteroids/Form1.cs:259-263 | after a run of bullet tests, each asteroid has turned by exactly its rotation delta times the number of tests that found it within reach |
| Game.SightsFrom | Asteroids/Asteroids/Form1.cs:182-185 | after the bullet pass, the player pass sees each asteroid where the bullet tests found it and at the rotation those tests left |
| Game.ShipOutcome | Asteroids/Asteroids/Form1.cs:225-243 | after the player pass the score is reported exactly when the pass started with lives and they reached 0; then the game has stopped and the report is the score; a game that still has lives keeps running |
| Game.DifficultySchedule | Asteroids/Asteroids/Form1.cs:125-153 | from a zero counter the difficulty first rises on the 51st tick and then every 50 ticks; after n ticks the counter is (n-1) mod 50 + 1 |
| Game.ClockStep | Asteroids/Asteroids/Form1.cs:125-153 | one timer tick keeps the counter in [1, 50] once it is in [0, 50]; the difficulty rises by one, and the counter restarts at 1, exactly when the counter was 50 |
| Game.BonusSchedule | Asteroids/Asteroids/Form1.cs:113-122 | without further scoring, an accumulator e earns min(n, (e-1) div 10000) lives in n ticks and keeps the rest; exactly 10000 earns none |
| Game.BonusStep | Asteroids/Asteroids/Form1.cs:113-117 | one check trades 10000 of the accumulator for a life exactly when it exceeds 10000, so the accumulator plus 10000 per life is conserved, and a positive accumulator stays positive |
| Game.Form.constructor | Asteroids/Asteroids/Form1.cs:54-82 | a new form has no bullets or asteroids, is not running, and starts with score 0, accumulator 0, three lives, difficulty 10 and tick count 0; the overlay is at (40, 30) and the ship at (400, 300) |
| Game.Form.StartGame | Asteroids/Asteroids/Form1.cs:88-91 | the menu's signal sets whether a game runs |
| Game.Form.Spawn | Asteroids/Asteroids/Form1.cs:293 | a fresh, newborn asteroid of the given size and position is appended, unmarked, and the form stays valid |
| Game.Form.SpawnMany | Asteroids/Asteroids/Form1.cs:291-294 | n fresh, newborn, unmarked asteroids of the given size at the given position are appended after the existing ones |
| Game.Form.Split | Asteroids/Asteroids/Form1.cs:286-320 | a large asteroid leaves 2 medium and scores 100; a medium one leaves 3 small and scores 200; a small one leaves none and scores 300; score and accumulator grow alike, the fragments are fresh, newborn and unmarked at its location, and the overlay shows the new score |
| Game.Form.SplitInto | Asteroids/Asteroids/Form1.cs:289-307 | one branch of the split: n fragments appended and the points added to score and accumulator |
| Game.Form.AddPoints | Asteroids/Asteroids/Form1.cs:309-319 | score and accumulator grow by the same points, and the overlay shows the score |
| Game.Form.KeyUp | Asteroids/Asteroids/Form1.cs:352-365 | releasing an arrow key stops the ship turning; other keys change nothing |
| Game.Form.KeyDown | Asteroids/Asteroids/Form1.cs:371-405 | space with fewer than eight bullets fires one new bullet at the ship; space with eight drops the oldest; right sets the turn rate to 10 and left to -10; other keys change nothing; at most eight bullets stay live |
| Game.Form.Fire | Asteroids/Asteroids/Form1.cs:378-379 | a fresh, unmarked bullet at the ship's location and heading is appended |
| Game.Form.DropOldest | Asteroids/Asteroids/Form1.cs:380-381 | the oldest bullet is removed and the others keep their order |
| Game.Form.AwardBonusLife | Asteroids/Asteroids/Form1.cs:113-123 | above 10000 the accumulator buys one life (shown on the overlay) and keeps the excess; otherwise nothing changes |
| Game.Form.TestHit | Asteroids/Asteroids/Form1.cs:259-277 | a pair hits exactly when the coarse test passes and the oracle finds the outlines intersect; a hit marks both and splits the asteroid once, adding its points and fragments; a miss changes no mark or score; the entries appended are still fading in (`Unborn`) |
| Game.Form.Probe | Asteroids/Asteroids/Form1.cs:259-267 | the hit test: coarse test, then the oracle on both outlines at their current rotations; the asteroid turns only when the coarse test passes |
| Game.Form.OnHit | Asteroids/Asteroids/Form1.cs:270-277 | a hit marks the bullet and the asteroid and splits the asteroid; a miss changes nothing; the fragments a split appends are still fading in, so every entry past a given position that was fading in still is (`Unborn`) |
| Game.Form.MarkBoth | Asteroids/Asteroids/Form1.cs:272-273 | both entities are marked, and only the asteroid's entry of the marks changes |
| Game.Form.MarkRock | Asteroids/Asteroids/Form1.cs:235 | only the marked asteroid's entry of the marks changes |
| Game.Form.Sweep | Asteroids/Asteroids/Form1.cs:256-279 | a bullet's row tests every entry of the list in order, up to the end of the list as the row's own splits grow it; each test compares the bullet's outline with the entry's at its location and at the rotation it had when the row began, and hits exactly when the coarse test passes and the oracle accepts; the row's hits are exactly its accepted tests in order, each splitting its asteroid once; an entry turns once if its test found it within reach; the bullet is marked once it hit |
| Game.Form.Visit | Asteroids/Asteroids/Form1.cs:258-277 | test j of a row is recorded as the row's next test, taken from both outlines at their current rotations and hitting exactly when near and the oracle accepts; the row's accounting is kept, and the work left in the row decreases; the entries appended are still fading in (`Unborn`) |
| Game.Form.Aim | Asteroids/Asteroids/Form1.cs:259-267 | the test on a listed asteroid hits exactly when the coarse test passes and the oracle accepts both outlines at their current rotations; no mark changes, and only that asteroid's rotation entry turns, once, when near |
| Game.Form.BulletPass | Asteroids/Asteroids/Form1.cs:252-281 | every bullet, in order, tests every asteroid of the list as it grows, fragments of earlier splits included; each test is a call of the oracle on the two outlines at their locations and rotations (`Volleyed`, `Placed`); the hits are exactly the accepted tests, in order; each splits its asteroid exactly once, so the score, the accumulator and the list grow by exactly those splits; an asteroid or bullet is marked afterwards exactly when it was marked before or was in an accepted pair; each asteroid turned once per test that found it within reach |
| Game.Form.Rows | Asteroids/Asteroids/Form1.cs:254-280 | the loop over the bullets: after all of them, the record of every row and the accounting of the whole pass hold (`Passing`) |
| Game.Form.Row | Asteroids/Asteroids/Form1.cs:254-280 | one bullet's row extends the pass's record by its row of tests and its accepted hits, and its accounting by their splits |
| Game.Form.Shot | Asteroids/Asteroids/Form1.cs:254-280 | a bullet's row changes the mark of that bullet only, moves no asteroid listed before it and appends only asteroids still fading in |
| Game.Form.PlayerPass | Asteroids/Asteroids/Form1.cs:204-247 | each asteroid is tested once, in list order, by the ship turned once per earlier asteroid it reached; each test compares the ship's and the asteroid's outlines at their locations and current rotations, and hits exactly when the asteroid is alive, within reach and the oracle accepts; each hit costs one life and marks that asteroid; the game stops, and the score is reported, exactly when the lives reach 0; afterwards each asteroid has turned once if the ship reached it |
| Game.Form.Scan | Asteroids/Asteroids/Form1.cs:206-246 | the loop of the player pass: after all tests, the lives, the marks and the report are as `ShipFacts` says, and the tests and rotations as `Scanning` says |
| Game.Form.Crash | Asteroids/Asteroids/Form1.cs:225-243 | the outcome of one test: a hit costs a life and marks the asteroid, stopping the game exactly at 0 lives, and the pass's record moves on by one test |
| Game.Form.Collide | Asteroids/Asteroids/Form1.cs:206-246 | one test of the player pass keeps its accounting |
| Game.Form.Look | Asteroids/Asteroids/Form1.cs:209-223 | one test of the player pass is recorded as compared |
| Game.Form.Contact | Asteroids/Asteroids/Form1.cs:209-223 | the ship hits an asteroid exactly when it is alive, within reach, and the oracle finds the outlines intersect; both turn only when the first two hold |
| Game.Form.LoseLife | Asteroids/Asteroids/Form1.cs:225-243 | one life less, shown on the overlay; the asteroid is marked; the game stops and the score is reported exactly when the lives are now 0 |
| Game.Form.PruneAsteroids | Asteroids/Asteroids/Form1.cs:188 | the asteroids become the old list without its marked entries |
| Game.Form.PruneBullets | Asteroids/Asteroids/Form1.cs:189 | the bullets become the old list without its marked entries |
| Game.Form.Purge | Asteroids/Asteroids/Form1.cs:188-189 | both lists lose exactly their marked entries, in order |
| Game.Form.TickBullets | Asteroids/Asteroids/Form1.cs:193 | every bullet flies one step and is marked once off the playfield |
| Game.Form.TickAsteroids | Asteroids/Asteroids/Form1.cs:194 | every asteroid drifts one step and its fade state makes one step |
| Game.Form.TickRocks | Asteroids/Asteroids/Form1.cs:194 | every asteroid drifts one step, makes one fade step and stays in a reachable fade state |
| Game.Form.Draw | Asteroids/Asteroids/Form1.cs:196-198 | drawing takes each outline once, turning the ship and every asteroid by one rotation delta |
| Game.Form.Replenish | Asteroids/Asteroids/Form1.cs:179-180 | with fewer asteroids than the difficulty, one fresh large unmarked asteroid is appended at the spawn point; otherwise nothing changes |
| Game.Form.CrashPass | Asteroids/Asteroids/Form1.cs:185 | the player pass after the bullet pass: lives drop by one per crash and the game stops exactly when that takes them to 0; the marked asteroids are exactly the doomed ones; every crash is the ship's oracle test of that asteroid, which it saw where the bullet tests had found it and at the rotation they left, alive and placed as when the frame began for the asteroids listed then and not yet alive for those added since (`Collided`, `Seated`) |
| Game.CrashSeen | Asteroids/Asteroids/Form1.cs:210 | in a frame's passes the ship can only have hit an asteroid that was listed and alive when the frame began, with its centre then within the two radii of the ship's |
| Game.Form.Volley | Asteroids/Asteroids/Form1.cs:179-183 | the spawn check, then the bullet pass over the list it left, with its record of tests (`Volleyed`, `Placed`, `SpinsFrom`) against the rotations before the check; a spawned asteroid starts unturned |
| Game.Form.Shoot | Asteroids/Asteroids/Form1.cs:183 | the bullet pass and its record of tests, restated against the list before the spawn check |
| Game.Form.Engage | Asteroids/Asteroids/Form1.cs:179-185 | after the spawn check and both passes: points for every accepted pair, one life per crash, the game stopped exactly when a crash took the lives to 0, and marks exactly on the doomed asteroids and on bullets marked before or that hit; every hit and every crash is an oracle test recorded by `Collided`, whose player pass saw each asteroid alive and placed as when the frame began, and the spawned asteroid and the fragments as not yet alive (`Seated`); the ship and the asteroids are turned as `Facing` and `Swung` say |
| Game.Form.Resolve | Asteroids/Asteroids/Form1.cs:179-189 | the collision part of the frame and the prune: the asteroids left are the tested ones minus the doomed ones, and the bullets left are the frame's bullets minus those marked before and those that hit, both in order; the hits and crashes are the oracle tests recorded by `Collided`, tied to the asteroids' alive states and positions when the frame began (`Seated`) |
| Game.Form.Advance | Asteroids/Asteroids/Form1.cs:192-198 | the update and drawing steps keep the form valid, place the overlay and the ship and reset the ship's speeds to 0 |
| Game.Form.MoveCraft | Asteroids/Asteroids/Form1.cs:192-193 | the overlay and the ship are placed, the ship's two speeds are reset to 0 (`Player.Tick`), and every bullet flies one step |
| Game.Form.MoveRocks | Asteroids/Asteroids/Form1.cs:194-198 | every asteroid drifts and makes one fade step; the drawing step turns the ship and every asteroid once by its own rotation step; the form stays valid |
| Game.Form.Render | Asteroids/Asteroids/Form1.cs:173-199 | one frame: the list grows by the spawn and the fragments; score and accumulator gain the hits' points; lives lose the crashes; the game stops exactly when a crash takes the lives to 0; the remaining asteroids and bullets are the survivors in order; the hits and crashes are the oracle tests recorded by `Collided`, tied to the asteroids' alive states and positions when the frame began (`Seated`) |
| Game.Form.Play | Asteroids/Asteroids/Form1.cs:140-146 | when a game runs, one frame is played, with its tests recorded by `Collided` and tied to the asteroids as the frame began (`Seated`); when none runs, no entity, score or life changes |
| Game.Form.Housekeep | Asteroids/Asteroids/Form1.cs:112-129 | the bonus-life block makes one `BonusStep`; the difficulty block and the later count make one `ClockStep`; the score, the marks and what the collision passes start from (`Outset`) do not change |
| Game.Form.RaiseDifficulty | Asteroids/Asteroids/Form1.cs:125-129 | when the counter is 50, the difficulty rises by one and the counter restarts, so that counting the tick completes one `ClockStep` |
| Game.Form.CountTick | Asteroids/Asteroids/Form1.cs:153 | the tick is counted |
| Game.Form.PlayAndCount | Asteroids/Asteroids/Form1.cs:140-153 | a frame if a game runs, with its tests recorded by `Collided` and tied to the asteroids as the frame began (`Seated`), and nothing changes otherwise; then the tick is counted; the difficulty is left as it is |
| Game.Form.TimerTick | Asteroids/Asteroids/Form1.cs:110-154 | the clock makes one `ClockStep` and the bonus one `BonusStep`; then, if a game runs, the frame's points, crashes and removals apply as for `Render`, with its tests recorded by `Collided` and tied to the asteroids as the frame began (`Seated`); otherwise no entity, score or overlay text changes |

## Left out

- The random asteroid polygon is not generated (`MakePolyPath`, the vertex steps, the radius spikes). An asteroid stands for its own fixed polygon.
- The polygon regions and their intersection are not computed. The exact hit test is an oracle `overlap` supplied by the caller.
- The spawn placement is not drawn from the form's generator, and the safe-zone retry loop of `GenerateAsteroid` is not modelled. The spawn point is a parameter, because the retry depends on region intersection, which is an oracle here. So the model does not capture that `GenerateAsteroid` always discards the first asteroid it builds, nor that the one it keeps has had its outline taken inside the loop (Form1.cs:332-339), which leaves its rotation at its rotation delta rather than 0.
- Single-precision floats are modelled as exact reals, so float rounding is not modelled. Sine and cosine are parameters (`Trig`).
- `Rand` stands in for `System.Random`. It is a stream of values in [0, 1) with a cursor. The generator's own algorithm is not modelled.
- Integers are unbounded: the 32-bit wrap-around of the score, the accumulator, the lives and the counters is not modelled, because the game never gets near it.
- `ScoreText.Parse` accepts an optional sign followed by digits. It does not model `int.Parse`'s surrounding whitespace, culture settings or overflow, since the stored text is always written by `Format`.
- Drawing, the double buffer, the one-second pause after a crash, the waiting screen, the game menu, the name dialog and the high-score file are not modelled. They are rendering, timing or persistence with no effect on the game state here.
- The score report to the menu on game over is modelled as a returned `Some(score)`.
- The `GetRegion` methods are not modelled. They only feed the region intersection.
- Game.Form.Render: does not restate per-entity movement. `MoveCraft`, `MoveRocks`, `TickBullets` and `TickAsteroids` state it, and `Render` states the survivors, scores, lives and game state.
- Game.Form.Advance: states the overlay and ship placement, the ship's speed reset and validity only, for the same reason. The bullet and asteroid movement is stated by `MoveCraft` and `MoveRocks`.
- Game.Form.TimerTick: does not restate the tested list's growth or the entity movement. `Render` states the first, and `MoveCraft`/`MoveRocks` state the second.
- Game.Form.Resolve: does not restate the rotations of the ship and the asteroids after the passes. `Engage` states them (`Facing`, `Swung`), and the drawing step turns them again in the same frame (`Draw`).
- Game.Form.Render: does not restate the rotations after the passes either, for the same reason. `Play`, `PlayAndCount` and `TimerTick` carry what `Render` states.
