/** The game form: the score, lives, bonus-life accumulator, difficulty and
    tick counter, the lists of live bullets and asteroids, and what the timer
    tick and the keyboard do to them. */
module Game {
  import opened Values
  import opened Assets
  import opened Lists
  import ScoreText
  import Fading

  const WindowSize := Size(800, 600)
  const StartLives := 3
  const StartDifficulty := 10
  const BonusThreshold := 10000
  const DifficultyPeriod := 50
  const MaxBullets := 8
  const TurnRate: real := 10.0

  /** Points (and bonus-life progress) for destroying an asteroid of a size:
      the smaller the asteroid, the more it is worth. */
  function Points(size: AsterSize): (p: int)
    ensures p == 400 - 5 * Radius(size)
    ensures 100 <= p <= 300
  {
    match size
    case Large => 100
    case Medium => 200
    case Small => 300
  }

  /** How many fragments an asteroid of a size breaks into: only the
      smallest size leaves none, and the fragments together always weigh less
      than the asteroid they replace. */
  function Fragments(size: AsterSize): (n: nat)
    ensures n == 0 <==> size == Small
    ensures n * Weight(FragmentSize(size)) < Weight(size)
  {
    match size
    case Large => 2
    case Medium => 3
    case Small => 0
  }

  /** The size of those fragments (a small asteroid has none): one size down. */
  function FragmentSize(size: AsterSize): (f: AsterSize)
    ensures size != Small ==> Radius(f) == Radius(size) - 20
    ensures Points(f) >= Points(size)
  {
    match size
    case Large => Medium
    case Medium => Small
    case Small => Small
  }

  /** A bullet that hit an asteroid during a collision pass. */
  datatype Strike = Strike(bullet: Bullet, rock: Asteroid)

  /** Points scored by a sequence of hits, each splitting its asteroid once. */
  function TotalPoints(hits: seq<Strike>): (t: int)
    ensures 100 * |hits| <= t <= 300 * |hits|
  {
    if hits == [] then 0 else TotalPoints(hits[..|hits| - 1]) + Points(hits[|hits| - 1].rock.size)
  }

  /** Fragments created by a sequence of hits. */
  function TotalFragments(hits: seq<Strike>): (t: nat)
    ensures t <= 3 * |hits|
  {
    if hits == [] then 0 else TotalFragments(hits[..|hits| - 1]) + Fragments(hits[|hits| - 1].rock.size)
  }

  ghost function BulletsHit(hits: seq<Strike>): set<Bullet> {
    set h | h in hits :: h.bullet
  }

  ghost function RocksHit(hits: seq<Strike>): set<Asteroid> {
    set h | h in hits :: h.rock
  }

  /** A bound on how many asteroid tests a bullet's row can still make:
      a split replaces an asteroid by fragments of smaller total weight. */
  function Weight(size: AsterSize): nat
  {
    match size
    case Small => 1
    case Medium => 4
    case Large => 9
  }

  function Load(s: seq<Asteroid>): nat
  {
    if s == [] then 0 else Weight(s[0].size) + Load(s[1..])
  }

  lemma {:induction false} LoadAppend(x: seq<Asteroid>, y: seq<Asteroid>)
    ensures Load(x + y) == Load(x) + Load(y)
  {
    if x == [] {
      assert x + y == y;
    } else {
      LoadAppend(x[1..], y);
      assert (x + y)[1..] == x[1..] + y;
    }
  }

  lemma {:induction false} LoadUniform(s: seq<Asteroid>, size: AsterSize)
    requires forall k :: 0 <= k < |s| ==> s[k].size == size
    ensures Load(s) == |s| * Weight(size)
  {
    if s != [] {
      LoadUniform(s[1..], size);
    }
  }

  /** Testing asteroid `j` of a row and appending the fragments of a split
      lowers the load still ahead of the row. */
  lemma SweepStep(row: seq<Asteroid>, now: seq<Asteroid>, j: nat)
    requires j < |row| <= |now| && now[..|row|] == row
    requires |now| - |row| <= Fragments(row[j].size)
    requires forall k :: |row| <= k < |now| ==> now[k].size == FragmentSize(row[j].size)
    ensures Load(now[j + 1..]) < Load(row[j..])
  {
    var kids := now[|row|..];
    assert now[j + 1..] == row[j + 1..] + kids;
    LoadAppend(row[j + 1..], kids);
    LoadUniform(kids, FragmentSize(row[j].size));
    assert row[j..][1..] == row[j + 1..];
  }

  /** Facts about a list that grew at the end while its entry `j` was visited. */
  lemma PrefixStep<T>(origin: seq<T>, row: seq<T>, now: seq<T>, j: nat)
    requires |origin| <= |row| && row[..|origin|] == origin
    requires j < |row| <= |now| && now[..|row|] == row
    ensures now[..|origin|] == origin
    ensures now[..j + 1] == row[..j] + [row[j]]
    ensures forall k :: 0 <= k < |row| ==> now[k] == row[k]
  {
    assert now[..j + 1] == now[..|row|][..j + 1];
  }

  /** The hits of a row stay hits of bullet `b` against already tested entries. */
  lemma FoundStep(found: seq<Strike>, b: Bullet, row: seq<Asteroid>, now: seq<Asteroid>, j: nat, hit: bool)
    requires j < |row| && |now| >= j + 1 && now[..j + 1] == row[..j] + [row[j]]
    requires forall h :: h in found ==> h.bullet == b && h.rock in row[..j]
    ensures var found' := if hit then found + [Strike(b, row[j])] else found;
      forall h :: h in found' ==> h.bullet == b && h.rock in now[..j + 1]
  {
  }

  lemma TotalsSnoc(hits: seq<Strike>, h: Strike)
    ensures TotalPoints(hits + [h]) == TotalPoints(hits) + Points(h.rock.size)
    ensures TotalFragments(hits + [h]) == TotalFragments(hits) + Fragments(h.rock.size)
  {
    assert (hits + [h])[..|hits|] == hits;
  }

  /** Scores, fragment counts and hit sets add up over consecutive runs of hits. */
  lemma {:induction false} HitsAppend(x: seq<Strike>, y: seq<Strike>)
    ensures TotalPoints(x + y) == TotalPoints(x) + TotalPoints(y)
    ensures TotalFragments(x + y) == TotalFragments(x) + TotalFragments(y)
    ensures RocksHit(x + y) == RocksHit(x) + RocksHit(y)
    ensures BulletsHit(x + y) == BulletsHit(x) + BulletsHit(y)
  {
    if y == [] {
      assert x + y == x;
    } else {
      var y0 := y[..|y| - 1];
      HitsAppend(x, y0);
      assert (x + y)[..|x + y| - 1] == x + y0;
    }
  }

  /** The asteroids of a list that are marked for removal. */
  function MarkedRocks(s: seq<Asteroid>): set<Asteroid>
    reads s`isMarkedForDeath
  {
    set a | a in s && a.isMarkedForDeath
  }

  /** Removing the marked asteroids keeps exactly the unmarked ones, without duplicates. */
  lemma RocksPruned(s: seq<Asteroid>)
    ensures var r := Without(s, MarkedRocks(s));
      && (forall k :: 0 <= k < |r| ==> r[k] in s && !r[k].isMarkedForDeath)
      && (forall k :: 0 <= k < |s| && !s[k].isMarkedForDeath ==> s[k] in r)
      && (Distinct(s) ==> Distinct(r))
  {
    WithoutEntries(s, MarkedRocks(s));
    if Distinct(s) {
      WithoutDistinct(s, MarkedRocks(s));
    }
  }

  /** Removing the marked bullets keeps exactly the unmarked ones, without duplicates. */
  lemma ShotsPruned(s: seq<Bullet>)
    ensures var r := Without(s, MarkedShots(s));
      && (forall k :: 0 <= k < |r| ==> r[k] in s && !r[k].isMarkedForDeath)
      && (forall k :: 0 <= k < |s| && !s[k].isMarkedForDeath ==> s[k] in r)
      && (Distinct(s) ==> Distinct(r))
  {
    WithoutEntries(s, MarkedShots(s));
    if Distinct(s) {
      WithoutDistinct(s, MarkedShots(s));
    }
  }

  /** The bullets of a list that are marked for removal. */
  function MarkedShots(s: seq<Bullet>): set<Bullet>
    reads s`isMarkedForDeath
  {
    set b | b in s && b.isMarkedForDeath
  }

  /** Every asteroid of a list is in a reachable fade state. Stated element
      by element from the end, like `Distinct`. */
  ghost predicate AllValid(s: seq<Asteroid>)
    reads s`alpha, s`fadingIn, s`dying, s`isMarkedForDeath, s`baseColor
  {
    s == [] || (s[|s| - 1].Valid() && AllValid(s[..|s| - 1]))
  }

  /** The element-wise form of `AllValid`. */
  lemma {:induction false} AllValidPointwise(s: seq<Asteroid>)
    ensures AllValid(s) <==> forall k :: 0 <= k < |s| ==> s[k].Valid()
  {
    if s != [] {
      var init := s[..|s| - 1];
      AllValidPointwise(init);
      assert forall k :: 0 <= k < |init| ==> init[k] == s[k];
    }
  }

  lemma AllValidAppend(s: seq<Asteroid>, x: Asteroid)
    requires AllValid(s) && x.Valid()
    ensures AllValid(s + [x])
  {
    assert (s + [x])[..|s|] == s;
  }

  lemma AllValidWithout(s: seq<Asteroid>, dead: set<Asteroid>)
    requires AllValid(s)
    ensures AllValid(Without(s, dead))
  {
    WithoutEntries(s, dead);
    AllValidPointwise(s);
    AllValidPointwise(Without(s, dead));
  }

  /** The marks of a list's asteroids, in list order. */
  ghost function MarkSeq(s: seq<Asteroid>): (m: seq<bool>)
    reads s`isMarkedForDeath
    ensures |m| == |s|
  {
    if s == [] then [] else MarkSeq(s[..|s| - 1]) + [s[|s| - 1].isMarkedForDeath]
  }

  /** `MarkSeq` entry by entry; kept out of its contract so that the
      bookkeeping of the passes does not unfold it at every step. */
  lemma {:induction false} MarkSeqAt(s: seq<Asteroid>)
    ensures forall k :: 0 <= k < |s| ==> MarkSeq(s)[k] == s[k].isMarkedForDeath
  {
    if s != [] {
      MarkSeqAt(s[..|s| - 1]);
    }
  }

  /** The marks of `n` asteroids none of which is marked. */
  function Unmarked(n: nat): (m: seq<bool>)
    ensures |m| == n && forall k :: 0 <= k < n ==> !m[k]
  {
    seq(n, _ => false)
  }

  lemma UnmarkedSnoc(m: seq<bool>, n: nat)
    ensures m + Unmarked(n) + [false] == m + Unmarked(n + 1)
  {
    assert Unmarked(n) + [false] == Unmarked(n + 1);
  }

  /** The marks after one test, entry by entry. */
  lemma MarksUpdate(before: seq<bool>, after: seq<bool>, j: nat, hit: bool, n: nat)
    requires j < |before| && after == before[j := before[j] || hit] + Unmarked(n)
    ensures |after| == |before| + n
    ensures forall k :: 0 <= k < |before| && k != j ==> after[k] == before[k]
    ensures after[j] == (before[j] || hit)
    ensures forall k :: |before| <= k < |after| ==> !after[k]
  {
    var updated := before[j := before[j] || hit];
    assert forall k :: 0 <= k < |before| ==> after[k] == updated[k];
    assert forall k :: |before| <= k < |after| ==> after[k] == Unmarked(n)[k - |before|];
  }

  /** The marks `m` of the list `now` are those recorded for the first
      `|origin|` entries at some earlier point (`marks0`), set for every
      asteroid that was hit since, and set for a newer entry only if it was hit. */
  ghost predicate MarksFrom(origin: seq<Asteroid>, marks0: seq<bool>, found: seq<Strike>, now: seq<Asteroid>, m: seq<bool>)
  {
    && |origin| == |marks0| <= |now| == |m|
    && (forall k {:trigger m[k]} :: 0 <= k < |origin| ==> m[k] == (marks0[k] || now[k] in RocksHit(found)))
    && (forall k {:trigger m[k]} :: |origin| <= k < |now| ==> m[k] == (now[k] in RocksHit(found)))
  }

  /** One test of a bullet's row keeps the marks accounted for: only the
      tested asteroid may become marked, and only by a hit; its fragments
      start unmarked. */
  lemma MarksStep(origin: seq<Asteroid>, marks0: seq<bool>, found: seq<Strike>,
                  row: seq<Asteroid>, before: seq<bool>, now: seq<Asteroid>, after: seq<bool>,
                  j: nat, hit: bool, b: Bullet)
    requires MarksFrom(origin, marks0, found, row, before)
    requires j < |row| <= |now| == |after| && now[..|row|] == row && Distinct(now)
    requires forall k :: 0 <= k < |row| && k != j ==> after[k] == before[k]
    requires after[j] == (before[j] || hit)
    requires forall k :: |row| <= k < |now| ==> !after[k]
    requires forall h :: h in found ==> h.bullet == b && h.rock in row[..j]
    ensures MarksFrom(origin, marks0, if hit then found + [Strike(b, row[j])] else found, now, after)
  {
    var found' := if hit then found + [Strike(b, row[j])] else found;
    assert RocksHit(found') == RocksHit(found) + (if hit then {row[j]} else {});
    DistinctPairs(now);
    forall k | |row| <= k < |now|
      ensures now[k] !in RocksHit(found')
    {
      assert now[k] !in now[..j + 1];
    }
  }

  /** The marks of a list's bullets, in list order. */
  ghost function ShotMarks(s: seq<Bullet>): (m: seq<bool>)
    reads s`isMarkedForDeath
    ensures |m| == |s|
  {
    if s == [] then [] else ShotMarks(s[..|s| - 1]) + [s[|s| - 1].isMarkedForDeath]
  }

  /** `ShotMarks` entry by entry. */
  lemma {:induction false} ShotMarksAt(s: seq<Bullet>)
    ensures forall k :: 0 <= k < |s| ==> ShotMarks(s)[k] == s[k].isMarkedForDeath
  {
    if s != [] {
      ShotMarksAt(s[..|s| - 1]);
    }
  }

  /** The marks `m` of the bullets `shots` are those recorded earlier
      (`marks0`), set for every bullet that hit an asteroid since. */
  ghost predicate ShotMarksFrom(marks0: seq<bool>, hits: seq<Strike>, shots: seq<Bullet>, m: seq<bool>)
  {
    && |marks0| == |shots| == |m|
    && (forall k :: 0 <= k < |shots| ==> m[k] == (marks0[k] || shots[k] in BulletsHit(hits)))
  }

  /** A bullet's row changes the mark of that bullet only, and sets it exactly
      when the row found a hit. */
  lemma ShotMarksStep(marks0: seq<bool>, hits: seq<Strike>, found: seq<Strike>,
                      shots: seq<Bullet>, before: seq<bool>, after: seq<bool>, i: nat)
    requires ShotMarksFrom(marks0, hits, shots, before)
    requires i < |shots| == |after| && forall p, q :: 0 <= p < q < |shots| ==> shots[p] != shots[q]
    requires forall k :: 0 <= k < |shots| && k != i ==> after[k] == before[k]
    requires after[i] == (before[i] || found != [])
    requires forall h :: h in found ==> h.bullet == shots[i]
    ensures ShotMarksFrom(marks0, hits + found, shots, after)
  {
    HitsAppend(hits, found);
    assert found != [] ==> found[0] in found;
    assert BulletsHit(found) == if found == [] then {} else {shots[i]};
  }

  /** Composing two stretches of a pass: the marks accounted for up to `row`
      and the marks accounted for from `row` to `now` give the marks accounted
      for from the start. */
  lemma MarksCompose(origin: seq<Asteroid>, marks0: seq<bool>, hits: seq<Strike>,
                     row: seq<Asteroid>, mrow: seq<bool>, found: seq<Strike>, now: seq<Asteroid>, mnow: seq<bool>)
    requires MarksFrom(origin, marks0, hits, row, mrow)
    requires MarksFrom(row, mrow, found, now, mnow)
    requires |origin| <= |row| && row[..|origin|] == origin && now[..|row|] == row && Distinct(now)
    requires forall h :: h in hits ==> h.rock in row
    ensures MarksFrom(origin, marks0, hits + found, now, mnow)
  {
    HitsAppend(hits, found);
    DistinctPairs(now);
    forall k | |row| <= k < |now|
      ensures now[k] !in RocksHit(hits)
    {
      assert now[k] !in now[..|row|];
    }
    assert forall k :: 0 <= k < |row| ==> now[k] == row[k];
  }

  lemma PrefixGrow<T>(origin: seq<T>, row: seq<T>, now: seq<T>)
    requires |origin| <= |row| <= |now| && row[..|origin|] == origin && now[..|row|] == row
    ensures now[..|origin|] == origin
    ensures forall k :: 0 <= k < |row| ==> now[k] == row[k]
  {
    assert now[..|origin|] == now[..|row|][..|origin|];
  }

  /** One test of the bullet pass: bullet `bullet` against asteroid `rock`,
      whether their centres were within the two radii (`near`), the two
      outlines compared (`view`; the source takes them only when `near`) and
      whether the pair was accepted (`hit`). */
  datatype Trial = Trial(bullet: Bullet, rock: Asteroid, near: bool, view: (Path, Path), hit: bool)

  /** A test as the source makes it: `near` is the centre test at the
      locations of the two outlines, and the pair is accepted exactly when it
      is near and the oracle finds the bullet's outline and the asteroid's
      intersect. */
  predicate Tried(t: Trial, overlap: (Path, Path) -> bool)
  {
    && t.view.0.template == BulletModel && t.view.1.template == Rock(t.rock)
    && t.near == Near(t.view.0.location, t.bullet.radius, t.view.1.location, t.rock.radius)
    && t.hit == (t.near && overlap(t.view.0, t.view.1))
  }

  /** The accepted pairs among `trials`, in order. */
  function Accepted(trials: seq<Trial>): (hits: seq<Strike>)
    ensures |hits| <= |trials|
  {
    if trials == [] then []
    else
      var t := trials[|trials| - 1];
      Accepted(trials[..|trials| - 1]) + (if t.hit then [Strike(t.bullet, t.rock)] else [])
  }

  lemma {:induction false} AcceptedAppend(x: seq<Trial>, y: seq<Trial>)
    ensures Accepted(x + y) == Accepted(x) + Accepted(y)
  {
    if y != [] {
      var y' := y[..|y| - 1];
      assert (x + y)[..|x + y| - 1] == x + y';
      AcceptedAppend(x, y');
    } else {
      assert x + y == x;
    }
  }

  /** How many of `trials` found `rock` within reach: each such test took
      the asteroid's outline and so turned it once. */
  function NearCount(trials: seq<Trial>, rock: Asteroid): (n: nat)
    ensures n <= |trials|
    ensures (forall k :: 0 <= k < |trials| ==> trials[k].rock != rock) ==> n == 0
  {
    if trials == [] then 0
    else
      var t := trials[|trials| - 1];
      NearCount(trials[..|trials| - 1], rock) + (if t.rock == rock && t.near then 1 else 0)
  }

  lemma {:induction false} NearCountAppend(x: seq<Trial>, y: seq<Trial>, rock: Asteroid)
    ensures NearCount(x + y, rock) == NearCount(x, rock) + NearCount(y, rock)
  {
    if y != [] {
      var y' := y[..|y| - 1];
      assert (x + y)[..|x + y| - 1] == x + y';
      NearCountAppend(x, y', rock);
    } else {
      assert x + y == x;
    }
  }

  /** In a row, whose tests visit each entry of a list without duplicates
      once, an entry is turned once if its test was near and not at all
      otherwise. */
  lemma {:induction false} NearCountRow(trials: seq<Trial>, now: seq<Asteroid>, k: nat)
    requires |trials| <= |now| && k < |now| && Distinct(now)
    requires forall i :: 0 <= i < |trials| ==> trials[i].rock == now[i]
    ensures NearCount(trials, now[k]) == if k < |trials| && trials[k].near then 1 else 0
  {
    if trials != [] {
      var n := |trials| - 1;
      NearCountRow(trials[..n], now, k);
      if k != n {
        DistinctAt(now, k);
      }
    }
  }

  /** Turning N times and then M times is turning N + M times. */
  lemma {:induction false} TurnedAdd(rotation: real, delta: real, n: nat, m: nat)
    ensures Turned(Turned(rotation, delta, n), delta, m) == Turned(rotation, delta, n + m)
  {
    if m > 0 {
      TurnedAdd(rotation, delta, n, m - 1);
    }
  }

  /** The trials of a pass, row after row. */
  function Flatten(rows: seq<seq<Trial>>): (f: seq<Trial>)
    ensures rows != [] ==> f == Flatten(rows[..|rows| - 1]) + rows[|rows| - 1]
  {
    if rows == [] then [] else Flatten(rows[..|rows| - 1]) + rows[|rows| - 1]
  }

  /** The rotation entry `k` of a list had when a pass began, when the
      entries then present had the rotations `spins` and the entries added
      since were created unturned. */
  function StartSpin(spins: seq<real>, k: nat): real
  {
    if k < |spins| then spins[k] else 0.0
  }

  /** The rotations of a list's asteroids, in list order. */
  ghost function RotSeq(s: seq<Asteroid>): (m: seq<real>)
    reads s`rotation
    ensures |m| == |s|
  {
    if s == [] then [] else RotSeq(s[..|s| - 1]) + [s[|s| - 1].rotation]
  }

  lemma {:induction false} RotSeqAt(s: seq<Asteroid>)
    ensures forall k :: 0 <= k < |s| ==> RotSeq(s)[k] == s[k].rotation
  {
    if s != [] {
      RotSeqAt(s[..|s| - 1]);
    }
  }

  /** The rotations `spins` of the list `now` are those it started from
      (`start`, unturned for later entries), turned once for every test in
      `trials` that found the asteroid within reach. */
  ghost predicate SpinsFrom(start: seq<real>, trials: seq<Trial>, now: seq<Asteroid>, spins: seq<real>)
  {
    && |spins| == |now|
    && forall k {:trigger spins[k]} :: 0 <= k < |now| ==>
      spins[k] == Turned(StartSpin(start, k), now[k].rotationDelta, NearCount(trials, now[k]))
  }

  /** The first tests of bullet `b`'s row, one per entry of the list `now`
      in list order: each compared the bullet's outline `shot` with the
      entry's outline at its location and at the rotation it had when the
      row began (`spins0` for the entries of `origin`, none yet for the
      fragments the row appended), and went as `Tried` says; the row's hits
      are the accepted tests, in order. */
  ghost predicate RowTrials(b: Bullet, shot: Path, origin: seq<Asteroid>, spins0: seq<real>, trials: seq<Trial>,
                            found: seq<Strike>, now: seq<Asteroid>, overlap: (Path, Path) -> bool)
    reads now`location
  {
    && |origin| == |spins0| && |trials| <= |now|
    && found == Accepted(trials)
    && forall k :: 0 <= k < |trials| ==>
      && trials[k].bullet == b && trials[k].rock == now[k] && trials[k].view.0 == shot
      && trials[k].view.1.location == now[k].location && trials[k].view.1.rotation == StartSpin(spins0, k)
      && Tried(trials[k], overlap)
  }

  /** While a row runs, the asteroids of the list `now` have the rotations
      `spins`: each the rotation it had when the row began, turned once if
      its test in the row was near. */
  predicate RowSpins(spins0: seq<real>, trials: seq<Trial>, now: seq<Asteroid>, spins: seq<real>)
  {
    && |spins| == |now|
    && forall k {:trigger spins[k]} :: 0 <= k < |now| ==>
      spins[k] == Turned(StartSpin(spins0, k), now[k].rotationDelta, if k < |trials| && trials[k].near then 1 else 0)
  }

  /** The rotations of `n` asteroids just created. */
  function Unturned(n: nat): (m: seq<real>)
    ensures |m| == n && forall k :: 0 <= k < n ==> m[k] == 0.0
  {
    seq(n, _ => 0.0)
  }

  lemma UnturnedSnoc(m: seq<real>, n: nat)
    ensures m + Unturned(n) + [0.0] == m + Unturned(n + 1)
  {
    assert Unturned(n) + [0.0] == Unturned(n + 1);
  }

  /** A list whose rotations are `spins0` followed by new asteroids' is
      where a row, or a pass, starts from. */
  lemma SpinsStart(spins0: seq<real>, trials: seq<Trial>, now: seq<Asteroid>, spins: seq<real>)
    requires |spins0| <= |now| && spins == spins0 + Unturned(|now| - |spins0|) && trials == []
    ensures RowSpins(spins0, trials, now, spins) && SpinsFrom(spins0, trials, now, spins)
  {
    assert forall k :: |spins0| <= k < |now| ==> spins[k] == Unturned(|now| - |spins0|)[k - |spins0|];
  }

  /** The test of entry `|trials|` of a row turns that entry once if it was
      near, and the fragments a hit appends start unturned; the entry had
      the rotation it began the row with. */
  lemma SpinsStep(spins0: seq<real>, trials: seq<Trial>, t: Trial, row: seq<Asteroid>, before: seq<real>,
                  now: seq<Asteroid>, after: seq<real>)
    requires RowSpins(spins0, trials, row, before) && |spins0| <= |row|
    requires |trials| < |row| <= |now| && now[..|row|] == row
    requires after == before[|trials| := Turned(before[|trials|], row[|trials|].rotationDelta, if t.near then 1 else 0)] +
      Unturned(|now| - |row|)
    ensures before[|trials|] == StartSpin(spins0, |trials|)
    ensures RowSpins(spins0, trials + [t], now, after)
  {
    var j := |trials|;
    forall k | 0 <= k < |now|
      ensures after[k] == Turned(StartSpin(spins0, k), now[k].rotationDelta, if k < j + 1 && (trials + [t])[k].near then 1 else 0)
    {
      if k < |row| {
        assert now[k] == now[..|row|][k];
      } else {
        assert after[k] == Unturned(|now| - |row|)[k - |row|];
      }
    }
  }

  lemma RowTrialsStart(b: Bullet, shot: Path, origin: seq<Asteroid>, spins0: seq<real>, overlap: (Path, Path) -> bool)
    requires |origin| == |spins0|
    ensures RowTrials(b, shot, origin, spins0, [], [], origin, overlap)
  {
  }

  /** The test of entry `j` of the row (the list goes from `row` to `now`). */
  lemma TrialsStep(b: Bullet, shot: Path, origin: seq<Asteroid>, spins0: seq<real>, trials: seq<Trial>,
                   found: seq<Strike>, row: seq<Asteroid>, now: seq<Asteroid>, t: Trial, overlap: (Path, Path) -> bool)
    requires RowTrials(b, shot, origin, spins0, trials, found, row, overlap)
    requires |trials| < |row| <= |now| && now[..|row|] == row
    requires t.bullet == b && t.rock == row[|trials|] && t.view.0 == shot && Tried(t, overlap)
    requires t.view.1.location == row[|trials|].location && t.view.1.rotation == StartSpin(spins0, |trials|)
    ensures RowTrials(b, shot, origin, spins0, trials + [t], if t.hit then found + [Strike(b, t.rock)] else found, now, overlap)
  {
    assert (trials + [t])[..|trials|] == trials;
    assert forall k :: 0 <= k < |row| ==> now[k] == row[k] by {
      assert forall k :: 0 <= k < |row| ==> now[..|row|][k] == now[k];
    }
  }

  /** A finished row, its rotations read as counts of near tests. */
  lemma RowSpinsCount(spins0: seq<real>, trials: seq<Trial>, now: seq<Asteroid>, spins: seq<real>)
    requires |trials| <= |now| && Distinct(now) && RowSpins(spins0, trials, now, spins)
    requires forall i :: 0 <= i < |trials| ==> trials[i].rock == now[i]
    ensures SpinsFrom(spins0, trials, now, spins)
  {
    forall k | 0 <= k < |now|
      ensures spins[k] == Turned(StartSpin(spins0, k), now[k].rotationDelta, NearCount(trials, now[k]))
    {
      NearCountRow(trials, now, k);
    }
  }

  /** Composing the rotations of two stretches of a pass: from `start` to
      the list `row` (`spinsRow`) by the tests `done`, then from `row` to
      `now` by a row's tests `more`. */
  lemma SpinsCompose(start: seq<real>, done: seq<Trial>, row: seq<Asteroid>, spinsRow: seq<real>,
                     more: seq<Trial>, now: seq<Asteroid>, spins: seq<real>)
    requires SpinsFrom(start, done, row, spinsRow) && SpinsFrom(spinsRow, more, now, spins)
    requires |start| <= |row| <= |now| && now[..|row|] == row && Distinct(now)
    requires forall t :: t in done ==> t.rock in row
    ensures SpinsFrom(start, done + more, now, spins)
  {
    forall k | 0 <= k < |now|
      ensures spins[k] == Turned(StartSpin(start, k), now[k].rotationDelta, NearCount(done + more, now[k]))
    {
      SpinComposeAt(start, done, row, spinsRow, more, now, spins, k);
    }
  }

  lemma SpinComposeAt(start: seq<real>, done: seq<Trial>, row: seq<Asteroid>, spinsRow: seq<real>,
                      more: seq<Trial>, now: seq<Asteroid>, spins: seq<real>, k: nat)
    requires SpinsFrom(start, done, row, spinsRow) && SpinsFrom(spinsRow, more, now, spins)
    requires |start| <= |row| <= |now| && now[..|row|] == row && Distinct(now)
    requires forall t :: t in done ==> t.rock in row
    requires k < |now|
    ensures spins[k] == Turned(StartSpin(start, k), now[k].rotationDelta, NearCount(done + more, now[k]))
  {
    var x := now[k];
    if k < |row| {
      assert x == row[k] by {
        assert now[k] == now[..|row|][k];
      }
      TurnTwice(StartSpin(start, k), x.rotationDelta, done, more, x, spinsRow[k], spins[k]);
    } else {
      AbsentFromDone(done, row, now, k);
      NearCountAppend(done, more, x);
    }
  }

  lemma TurnTwice(s0: real, d: real, done: seq<Trial>, more: seq<Trial>, x: Asteroid, mid: real, fin: real)
    requires mid == Turned(s0, d, NearCount(done, x)) && fin == Turned(mid, d, NearCount(more, x))
    ensures fin == Turned(s0, d, NearCount(done + more, x))
  {
    NearCountAppend(done, more, x);
    TurnedAdd(s0, d, NearCount(done, x), NearCount(more, x));
  }

  /** An entry appended after `row` was not tested by any of `done`, all of
      whose asteroids are in `row`. */
  lemma AbsentFromDone(done: seq<Trial>, row: seq<Asteroid>, now: seq<Asteroid>, k: nat)
    requires |row| <= k < |now| && now[..|row|] == row && Distinct(now)
    requires forall t :: t in done ==> t.rock in row
    ensures NearCount(done, now[k]) == 0
  {
    DistinctPairs(now);
    assert now[k] !in now[..|row|];
    assert forall i :: 0 <= i < |done| ==> done[i].rock != now[k] by {
      assert forall i :: 0 <= i < |done| ==> done[i] in done;
    }
  }

  /** Row `tests` of the bullet pass, made by bullet `b` from its outline
      `shot` after the earlier rows' tests `done`, for a list that began with
      `n0` entries turned as `spins0` says: it tested every entry from the
      first to the end of the list as it stood when the row ended (fragments
      appended by the row included), in list order; each asteroid's outline
      was at the rotation the near tests in `done` had turned it to; and
      every test went as `Tried` says. */
  ghost predicate RowTested(n0: nat, spins0: seq<real>, b: Bullet, shot: Path, done: seq<Trial>, tests: seq<Trial>,
                            now: seq<Asteroid>, overlap: (Path, Path) -> bool)
  {
    && |tests| == n0 + TotalFragments(Accepted(done + tests)) && |tests| <= |now|
    && forall k :: 0 <= k < |tests| ==>
      && tests[k].bullet == b && tests[k].rock == now[k] && tests[k].view.0 == shot
      && tests[k].view.1.rotation == Turned(StartSpin(spins0, k), now[k].rotationDelta, NearCount(done, now[k]))
      && Tried(tests[k], overlap)
  }

  /** What the bullet pass has established about its tests once some rows
      are done: row `r` was bullet `shots[r]`'s, from its outline
      `shotPaths[r]`, as `RowTested` says, and the hits are the accepted
      tests, in order. */
  ghost predicate Volleyed(n0: nat, spins0: seq<real>, shots: seq<Bullet>, shotPaths: seq<Path>,
                           rows: seq<seq<Trial>>, hits: seq<Strike>, now: seq<Asteroid>, overlap: (Path, Path) -> bool)
  {
    && |rows| <= |shots| == |shotPaths|
    && hits == Accepted(Flatten(rows))
    && RowsTested(n0, spins0, shots, shotPaths, rows, now, overlap)
  }

  /** Row `r` of `rows` was bullet `shots[r]`'s, from its outline
      `shotPaths[r]`, after the tests of the rows before it, as `RowTested`
      says. */
  ghost predicate RowsTested(n0: nat, spins0: seq<real>, shots: seq<Bullet>, shotPaths: seq<Path>,
                             rows: seq<seq<Trial>>, now: seq<Asteroid>, overlap: (Path, Path) -> bool)
  {
    && |rows| <= |shots| && |rows| <= |shotPaths|
    && forall r {:trigger shotPaths[r]} :: 0 <= r < |rows| ==>
      RowTested(n0, spins0, shots[r], shotPaths[r], Flatten(rows[..r]), rows[r], now, overlap)
  }

  /** The rows stay as `RowTested` says while the list grows. */
  lemma RowsTestedGrow(n0: nat, spins0: seq<real>, shots: seq<Bullet>, shotPaths: seq<Path>,
                       rows: seq<seq<Trial>>, row: seq<Asteroid>, now: seq<Asteroid>, overlap: (Path, Path) -> bool)
    requires RowsTested(n0, spins0, shots, shotPaths, rows, row, overlap)
    requires |row| <= |now| && now[..|row|] == row
    ensures RowsTested(n0, spins0, shots, shotPaths, rows, now, overlap)
  {
    forall r | 0 <= r < |rows|
      ensures RowTested(n0, spins0, shots[r], shotPaths[r], Flatten(rows[..r]), rows[r], now, overlap)
    {
      RowTestedGrow(n0, spins0, shots[r], shotPaths[r], Flatten(rows[..r]), rows[r], row, now, overlap);
    }
  }

  /** Each test's asteroid outline was at that asteroid's location in `now`. */
  ghost predicate Placed(rows: seq<seq<Trial>>, now: seq<Asteroid>)
    reads now`location
  {
    forall r {:trigger RowPlaced(rows[r], now)} :: 0 <= r < |rows| ==> RowPlaced(rows[r], now)
  }

  /** Each of a row's tests compared the outline of the entry of `now` at
      its position, at that entry's location. */
  ghost predicate RowPlaced(tests: seq<Trial>, now: seq<Asteroid>)
    reads now`location
  {
    |tests| <= |now| && forall k :: 0 <= k < |tests| ==> tests[k].view.1.location == now[k].location
  }

  /** The rows stay placed while the list grows. */
  lemma PlacedGrow(rows: seq<seq<Trial>>, row: seq<Asteroid>, now: seq<Asteroid>)
    requires Placed(rows, row) && |row| <= |now| && now[..|row|] == row
    ensures Placed(rows, now)
  {
    assert forall k :: 0 <= k < |row| ==> now[k] == row[k] by {
      assert forall k :: 0 <= k < |row| ==> now[..|row|][k] == now[k];
    }
    forall r | 0 <= r < |rows|
      ensures RowPlaced(rows[r], now)
    {
      assert RowPlaced(rows[r], row);
    }
  }

  /** The outline of each bullet, at its location and rotation. */
  ghost function ShotPaths(s: seq<Bullet>): (m: seq<Path>)
    reads s`location, s`rotation
    ensures |m| == |s|
  {
    if s == [] then [] else ShotPaths(s[..|s| - 1]) + [Path(BulletModel, s[|s| - 1].location, s[|s| - 1].rotation)]
  }

  lemma {:induction false} ShotPathsAt(s: seq<Bullet>)
    ensures forall k :: 0 <= k < |s| ==> ShotPaths(s)[k] == Path(BulletModel, s[k].location, s[k].rotation)
  {
    if s != [] {
      ShotPathsAt(s[..|s| - 1]);
    }
  }

  /** Bullets that neither moved nor turned keep their outlines. */
  twostate lemma {:induction false} ShotPathsKept(s: seq<Bullet>)
    requires forall x :: x in s ==> x.location == old(x.location) && x.rotation == old(x.rotation)
    ensures ShotPaths(s) == old(ShotPaths(s))
  {
    if s != [] {
      ShotPathsKept(s[..|s| - 1]);
    }
  }

  lemma VolleyedStart(n0: nat, spins0: seq<real>, shots: seq<Bullet>, shotPaths: seq<Path>, now: seq<Asteroid>,
                      overlap: (Path, Path) -> bool)
    requires |shots| == |shotPaths|
    ensures Volleyed(n0, spins0, shots, shotPaths, [], [], now, overlap) && Placed([], now)
  {
  }

  /** An earlier row stays as `RowTested` says while the list grows. */
  lemma RowTestedGrow(n0: nat, spins0: seq<real>, b: Bullet, shot: Path, done: seq<Trial>, tests: seq<Trial>,
                      row: seq<Asteroid>, now: seq<Asteroid>, overlap: (Path, Path) -> bool)
    requires RowTested(n0, spins0, b, shot, done, tests, row, overlap)
    requires |row| <= |now| && now[..|row|] == row
    ensures RowTested(n0, spins0, b, shot, done, tests, now, overlap)
  {
    assert forall k :: 0 <= k < |row| ==> now[k] == row[k] by {
      assert forall k :: 0 <= k < |row| ==> now[..|row|][k] == now[k];
    }
  }

  /** A finished row of bullet `|rows|`, whose tests `more` were made from
      the list `row` (turned as `spinsRow`) and left the list `now`, is as
      `RowTested` says. */
  lemma RowTestedNew(n0: nat, spins0: seq<real>, shots: seq<Bullet>, shotPaths: seq<Path>, rows: seq<seq<Trial>>,
                     hits: seq<Strike>, row: seq<Asteroid>, spinsRow: seq<real>, more: seq<Trial>, found: seq<Strike>,
                     now: seq<Asteroid>, overlap: (Path, Path) -> bool)
    requires hits == Accepted(Flatten(rows)) && |rows| < |shots| == |shotPaths|
    requires forall t :: t in Flatten(rows) ==> t.rock in row
    requires SpinsFrom(spins0, Flatten(rows), row, spinsRow)
    requires RowTrials(shots[|rows|], shotPaths[|rows|], row, spinsRow, more, found, now, overlap)
    requires |more| == |now| == n0 + TotalFragments(hits + found)
    requires |spins0| <= |row| <= |now| && now[..|row|] == row && Distinct(now)
    ensures RowTested(n0, spins0, shots[|rows|], shotPaths[|rows|], Flatten(rows), more, now, overlap)
  {
    AcceptedAppend(Flatten(rows), more);
    forall k | 0 <= k < |more|
      ensures more[k].view.1.rotation == Turned(StartSpin(spins0, k), now[k].rotationDelta, NearCount(Flatten(rows), now[k]))
    {
      if k >= |row| {
        AbsentFromDone(Flatten(rows), row, now, k);
      } else {
        assert now[k] == now[..|row|][k];
      }
    }
  }

  /** A finished row of bullet `|rows|` extends what the pass has
      established about its tests. */
  lemma VolleyedStep(n0: nat, spins0: seq<real>, shots: seq<Bullet>, shotPaths: seq<Path>, rows: seq<seq<Trial>>,
                     hits: seq<Strike>, row: seq<Asteroid>, spinsRow: seq<real>, more: seq<Trial>, found: seq<Strike>,
                     now: seq<Asteroid>, spins: seq<real>, overlap: (Path, Path) -> bool)
    requires Volleyed(n0, spins0, shots, shotPaths, rows, hits, row, overlap) && Placed(rows, row)
    requires |rows| < |shots| && SpinsFrom(spins0, Flatten(rows), row, spinsRow)
    requires forall t :: t in Flatten(rows) ==> t.rock in row
    requires RowTrials(shots[|rows|], shotPaths[|rows|], row, spinsRow, more, found, now, overlap)
    requires RowSpins(spinsRow, more, now, spins)
    requires |more| == |now| == n0 + TotalFragments(hits + found)
    requires |spins0| <= |row| <= |now| && now[..|row|] == row && Distinct(now)
    ensures Volleyed(n0, spins0, shots, shotPaths, rows + [more], hits + found, now, overlap)
    ensures Placed(rows + [more], now)
    ensures SpinsFrom(spins0, Flatten(rows + [more]), now, spins)
    ensures forall t :: t in Flatten(rows + [more]) ==> t.rock in now
  {
    assert Flatten(rows + [more]) == Flatten(rows) + more by {
      assert (rows + [more])[..|rows|] == rows;
    }
    RowTestedNew(n0, spins0, shots, shotPaths, rows, hits, row, spinsRow, more, found, now, overlap);
    VolleyedGrow(n0, spins0, shots, shotPaths, rows, hits, row, more, found, now, overlap);
    PlacedStep(rows, row, more, now);
    RocksStep(rows, row, more, now);
    RowSpinsCount(spinsRow, more, now, spins);
    SpinsCompose(spins0, Flatten(rows), row, spinsRow, more, now, spins);
  }

  lemma VolleyedGrow(n0: nat, spins0: seq<real>, shots: seq<Bullet>, shotPaths: seq<Path>, rows: seq<seq<Trial>>,
                     hits: seq<Strike>, row: seq<Asteroid>, more: seq<Trial>, found: seq<Strike>,
                     now: seq<Asteroid>, overlap: (Path, Path) -> bool)
    requires Volleyed(n0, spins0, shots, shotPaths, rows, hits, row, overlap) && |rows| < |shots|
    requires found == Accepted(more) && Flatten(rows + [more]) == Flatten(rows) + more
    requires RowTested(n0, spins0, shots[|rows|], shotPaths[|rows|], Flatten(rows), more, now, overlap)
    requires |row| <= |now| && now[..|row|] == row
    ensures Volleyed(n0, spins0, shots, shotPaths, rows + [more], hits + found, now, overlap)
  {
    AcceptedAppend(Flatten(rows), more);
    RowsTestedGrow(n0, spins0, shots, shotPaths, rows, row, now, overlap);
    var rows' := rows + [more];
    forall r | 0 <= r < |rows'|
      ensures RowTested(n0, spins0, shots[r], shotPaths[r], Flatten(rows'[..r]), rows'[r], now, overlap)
    {
      if r < |rows| {
        assert rows'[..r] == rows[..r];
      } else {
        assert rows'[..r] == rows;
      }
    }
  }

  lemma PlacedStep(rows: seq<seq<Trial>>, row: seq<Asteroid>, more: seq<Trial>, now: seq<Asteroid>)
    requires Placed(rows, row) && |row| <= |now| && now[..|row|] == row && RowPlaced(more, now)
    ensures Placed(rows + [more], now)
  {
    PlacedGrow(rows, row, now);
    assert (rows + [more])[..|rows|] == rows;
  }

  lemma RocksStep(rows: seq<seq<Trial>>, row: seq<Asteroid>, more: seq<Trial>, now: seq<Asteroid>)
    requires forall t :: t in Flatten(rows) ==> t.rock in row
    requires |row| <= |now| && now[..|row|] == row && Flatten(rows + [more]) == Flatten(rows) + more
    requires forall k :: 0 <= k < |more| ==> k < |now| && more[k].rock == now[k]
    ensures forall t :: t in Flatten(rows + [more]) ==> t.rock in now
  {
    assert forall k :: 0 <= k < |row| ==> now[k] == row[k] by {
      assert forall k :: 0 <= k < |row| ==> now[..|row|][k] == now[k];
    }
    forall t | t in Flatten(rows + [more])
      ensures t.rock in now
    {
      if t in more {
        var k :| 0 <= k < |more| && more[k] == t;
      } else {
        assert t in Flatten(rows);
        assert t.rock in row;
      }
    }
  }

  /** What a bullet's row of the bullet pass has established once its
      first `j` entries are tested: the list `now` still begins with the list
      `origin` the row started from and grew by the fragments of the hits
      `found` so far; every hit is bullet `b` against one of those first `j`
      entries; the score and the accumulator gained what the hits are worth;
      and the bullet is marked once it hit (`bmark0` is its mark before the
      row). The asteroids' marks are accounted for by `MarksFrom` alongside. */
  ghost predicate RowFacts(origin: seq<Asteroid>, found: seq<Strike>, b: Bullet, j: nat,
                           now: seq<Asteroid>, gained: int, extraGained: int, bmark0: bool, bmark: bool)
  {
    && j <= |now| && |origin| <= |now| && now[..|origin|] == origin
    && gained == TotalPoints(found) && extraGained == TotalPoints(found)
    && |now| == |origin| + TotalFragments(found)
    && (forall h :: h in found ==> h.bullet == b && h.rock in now[..j])
    && bmark == (bmark0 || found != [])
  }

  lemma RowStart(origin: seq<Asteroid>, marks0: seq<bool>, b: Bullet, bmark: bool)
    requires |origin| == |marks0|
    ensures RowFacts(origin, [], b, 0, origin, 0, 0, bmark, bmark)
    ensures MarksFrom(origin, marks0, [], origin, marks0)
  {
    assert RocksHit([]) == {};
    assert origin[..|origin|] == origin;
  }

  /** Testing entry `j` of the row (the list goes from `row` to `now`): a
      hit appends its fragments, gains its points and marks the bullet. */
  lemma RowFactsStep(origin: seq<Asteroid>, found: seq<Strike>, b: Bullet, j: nat,
                  row: seq<Asteroid>, g: int, x: int, bmark0: bool, bm: bool,
                  now: seq<Asteroid>, g': int, x': int, bm': bool, hit: bool)
    requires RowFacts(origin, found, b, j, row, g, x, bmark0, bm)
    requires j < |row| <= |now| && now[..|row|] == row
    requires |now| == |row| + (if hit then Fragments(row[j].size) else 0)
    requires g' == g + (if hit then Points(row[j].size) else 0)
    requires x' == x + (if hit then Points(row[j].size) else 0)
    requires bm' == (bm || hit)
    ensures RowFacts(origin, if hit then found + [Strike(b, row[j])] else found, b, j + 1, now, g', x', bmark0, bm')
  {
    PrefixStep(origin, row, now, j);
    TotalsSnoc(found, Strike(b, row[j]));
    FoundStep(found, b, row, now, j, hit);
  }

  /** Testing entry `j` of the row (the list goes from `row` to `now`, the
      marks from `before` to `after`): only entry `j` may become marked, only
      by a hit, and a hit appends its fragments unmarked and gains its points. */
  lemma VisitStep(origin: seq<Asteroid>, marks0: seq<bool>, found: seq<Strike>, b: Bullet, j: nat,
                  row: seq<Asteroid>, before: seq<bool>, g: int, x: int, bmark0: bool, bm: bool,
                  now: seq<Asteroid>, after: seq<bool>, g': int, x': int, bm': bool, hit: bool)
    requires RowFacts(origin, found, b, j, row, g, x, bmark0, bm)
    requires MarksFrom(origin, marks0, found, row, before)
    requires j < |row| <= |now| && now[..|row|] == row && Distinct(now)
    requires |now| == |row| + (if hit then Fragments(row[j].size) else 0)
    requires after == before[j := before[j] || hit] + Unmarked(|now| - |row|)
    requires g' == g + (if hit then Points(row[j].size) else 0)
    requires x' == x + (if hit then Points(row[j].size) else 0)
    requires bm' == (bm || hit)
    ensures RowFacts(origin, if hit then found + [Strike(b, row[j])] else found, b, j + 1, now, g', x', bmark0, bm')
    ensures MarksFrom(origin, marks0, if hit then found + [Strike(b, row[j])] else found, now, after)
  {
    RowFactsStep(origin, found, b, j, row, g, x, bmark0, bm, now, g', x', bm', hit);
    MarksUpdate(before, after, j, hit, |now| - |row|);
    MarksStep(origin, marks0, found, row, before, now, after, j, hit, b);
  }

  /** Where bullet `b`'s row stands after its first `j` tests, in values:
      `now` is the list, `marks` and `spins` its marks and rotations, `g` and
      `x` the points gained in the row and `bm` the bullet's mark. */
  ghost predicate RowAt(b: Bullet, overlap: (Path, Path) -> bool, origin: seq<Asteroid>, marks0: seq<bool>, bmark0: bool,
                        shot: Path, spins0: seq<real>, found: seq<Strike>, trials: seq<Trial>, j: nat,
                        now: seq<Asteroid>, marks: seq<bool>, spins: seq<real>, g: int, x: int, bm: bool)
    reads now`location
  {
    && RowFacts(origin, found, b, j, now, g, x, bmark0, bm)
    && MarksFrom(origin, marks0, found, now, marks)
    && |trials| == j
    && RowTrials(b, shot, origin, spins0, trials, found, now, overlap)
    && RowSpins(spins0, trials, now, spins)
  }

  /** Where the bullet pass stands after the rows of its first `i` bullets,
      in values: `shots` are the bullets and `now` the list, `marks`,
      `smarks` and `spins` the marks of the two lists and the rotations, `g`
      and `x` the points gained in the pass. */
  ghost predicate PassAt(overlap: (Path, Path) -> bool, origin: seq<Asteroid>, marks0: seq<bool>, shots0: seq<bool>,
                         spins0: seq<real>, shotPaths: seq<Path>, hits: seq<Strike>, rows: seq<seq<Trial>>, i: nat,
                         shots: seq<Bullet>, now: seq<Asteroid>, marks: seq<bool>, smarks: seq<bool>, spins: seq<real>,
                         g: int, x: int)
  {
    && i <= |shots| == |shotPaths|
    && PassFacts(origin, marks0, shots0, hits, shots, now, marks, smarks, g, x)
    && |rows| == i && |spins0| <= |now|
    && Volleyed(|origin|, spins0, shots, shotPaths, rows, hits, now, overlap)
    && SpinsFrom(spins0, Flatten(rows), now, spins)
    && (forall t :: t in Flatten(rows) ==> t.rock in now)
  }

  /** One test `t` of a row, on entry `j`: the row moves on by one entry,
      with the test recorded, and the load still to visit drops. */
  lemma VisitDone(b: Bullet, overlap: (Path, Path) -> bool, origin: seq<Asteroid>, marks0: seq<bool>, bmark0: bool,
                  shot: Path, spins0: seq<real>, found: seq<Strike>, trials: seq<Trial>, j: nat,
                  row: seq<Asteroid>, before: seq<bool>, rots: seq<real>, g: int, x: int, bm: bool, t: Trial,
                  found': seq<Strike>, trials': seq<Trial>,
                  now: seq<Asteroid>, after: seq<bool>, spins: seq<real>, g': int, x': int, bm': bool)
    requires RowAt(b, overlap, origin, marks0, bmark0, shot, spins0, found, trials, j, row, before, rots, g, x, bm)
    requires j < |row| <= |now| && now[..|row|] == row && Distinct(now)
    requires t.bullet == b && t.rock == row[j] && t.view.0 == shot && Tried(t, overlap)
    requires t.view.1.location == row[j].location && t.view.1.rotation == rots[j]
    requires found' == (if t.hit then found + [Strike(b, row[j])] else found) && trials' == trials + [t]
    requires |now| == |row| + (if t.hit then Fragments(row[j].size) else 0)
    requires forall k :: |row| <= k < |now| ==> now[k].size == FragmentSize(row[j].size)
    requires after == before[j := before[j] || t.hit] + Unmarked(|now| - |row|)
    requires spins == rots[j := Turned(rots[j], row[j].rotationDelta, if t.near then 1 else 0)] + Unturned(|now| - |row|)
    requires g' == g + (if t.hit then Points(row[j].size) else 0)
    requires x' == x + (if t.hit then Points(row[j].size) else 0)
    requires bm' == (bm || t.hit)
    ensures RowAt(b, overlap, origin, marks0, bmark0, shot, spins0, found', trials', j + 1, now, after, spins, g', x', bm')
    ensures Load(now[j + 1..]) < Load(row[j..])
  {
    VisitStep(origin, marks0, found, b, j, row, before, g, x, bmark0, bm, now, after, g', x', bm', t.hit);
    SweepStep(row, now, j);
    SpinsStep(spins0, trials, t, row, rots, now, spins);
    TrialsStep(b, shot, origin, spins0, trials, found, row, now, t, overlap);
  }

  /** What the bullet pass has established once some of its rows are done:
      the list `now` still begins with the list `origin` the pass started
      from and grew by the fragments of the hits so far; every hit pairs one
      of the bullets `shots` with an asteroid of the list; the score and the
      accumulator gained what the hits are worth; and the marks of the
      asteroids and of the bullets are accounted for by the hits. */
  ghost predicate PassFacts(origin: seq<Asteroid>, marks0: seq<bool>, shots0: seq<bool>, hits: seq<Strike>,
                            shots: seq<Bullet>, now: seq<Asteroid>, marks: seq<bool>, shotMarks: seq<bool>,
                            gained: int, extraGained: int)
  {
    && |origin| <= |now| && now[..|origin|] == origin
    && gained == TotalPoints(hits) && extraGained == TotalPoints(hits)
    && |now| == |origin| + TotalFragments(hits)
    && (forall h :: h in hits ==> h.bullet in shots && h.rock in now)
    && MarksFrom(origin, marks0, hits, now, marks)
    && ShotMarksFrom(shots0, hits, shots, shotMarks)
  }

  /** A sequence that differs from `before` at `i` only is `before` updated at `i`. */
  lemma SeqUpdateAt<T>(after: seq<T>, before: seq<T>, i: nat, v: T)
    requires |after| == |before| && i < |before| && after[i] == v
    requires forall k :: 0 <= k < |before| && k != i ==> after[k] == before[k]
    ensures after == before[i := v]
  {
  }

  /** What a bullet pass over a list that extends `base` by the unmarked
      entries `tail` has established, restated against `base`. */
  lemma PassOutcome(base: seq<Asteroid>, marks: seq<bool>, tail: seq<bool>, origin: seq<Asteroid>, marks0: seq<bool>,
                    shots0: seq<bool>, hits: seq<Strike>, shots: seq<Bullet>, now: seq<Asteroid>, marksNow: seq<bool>,
                    shotMarks: seq<bool>, gained: int, extraGained: int)
    requires |origin| == |base| + |tail| && origin[..|base|] == base
    requires marks0 == marks + tail && forall k :: 0 <= k < |tail| ==> !tail[k]
    requires PassFacts(origin, marks0, shots0, hits, shots, now, marksNow, shotMarks, gained, extraGained)
    ensures |now| == |base| + |tail| + TotalFragments(hits) && now[..|base|] == base
    ensures gained == TotalPoints(hits) && extraGained == TotalPoints(hits)
    ensures MarksFrom(origin, marks0, hits, now, marksNow)
    ensures |marks| <= |marks0| && marks0[..|marks|] == marks
    ensures forall k :: |marks| <= k < |marks0| ==> !marks0[k]
  {
    assert now[..|base|] == now[..|origin|][..|base|];
    assert forall k :: |marks| <= k < |marks0| ==> marks0[k] == tail[k - |marks|];
  }

  lemma PassStart(origin: seq<Asteroid>, marks0: seq<bool>, shots: seq<Bullet>, shots0: seq<bool>)
    requires |origin| == |marks0| && |shots| == |shots0|
    ensures PassFacts(origin, marks0, shots0, [], shots, origin, marks0, shots0, 0, 0)
  {
    assert RocksHit([]) == {} && BulletsHit([]) == {};
    assert origin[..|origin|] == origin;
  }

  /** A finished row of bullet `i` extends what the pass has established. */
  lemma RowStep(origin: seq<Asteroid>, marks0: seq<bool>, shots0: seq<bool>, hits: seq<Strike>, shots: seq<Bullet>,
                row: seq<Asteroid>, mrow: seq<bool>, srow: seq<bool>, g: int, x: int,
                i: nat, found: seq<Strike>, now: seq<Asteroid>, mnow: seq<bool>, snow: seq<bool>,
                gr: int, xr: int, bm0: bool, bm: bool, g': int, x': int)
    requires PassFacts(origin, marks0, shots0, hits, shots, row, mrow, srow, g, x)
    requires i < |shots| == |srow| && Distinct(shots) && Distinct(now)
    requires RowFacts(row, found, shots[i], |now|, now, gr, xr, bm0, bm)
    requires MarksFrom(row, mrow, found, now, mnow)
    requires srow[i] == bm0 && snow == srow[i := bm]
    requires g' == g + gr && x' == x + xr
    ensures PassFacts(origin, marks0, shots0, hits + found, shots, now, mnow, snow, g', x')
  {
    assert forall k :: 0 <= k < |shots| && k != i ==> snow[k] == srow[k];
    assert now[..|now|] == now;
    PrefixGrow(origin, row, now);
    MarksCompose(origin, marks0, hits, row, mrow, found, now, mnow);
    DistinctPairs(shots);
    ShotMarksStep(shots0, hits, found, shots, srow, snow, i);
    HitsAppend(hits, found);
  }

  /** How many of the tests hit. */
  function Count(hits: seq<bool>): (n: nat)
    ensures n <= |hits|
  {
    if hits == [] then 0 else Count(hits[..|hits| - 1]) + (if hits[|hits| - 1] then 1 else 0)
  }

  /** The marks `marks0` with every entry among the first `|hits|` whose test hit set. */
  function Struck(marks0: seq<bool>, hits: seq<bool>): (m: seq<bool>)
    requires |hits| <= |marks0|
    ensures |m| == |marks0|
    ensures forall k :: 0 <= k < |hits| ==> m[k] == (marks0[k] || hits[k])
    ensures forall k :: |hits| <= k < |marks0| ==> m[k] == marks0[k]
  {
    seq(|marks0|, k requires 0 <= k < |marks0| => marks0[k] || (k < |hits| && hits[k]))
  }

  /** What the player pass has established once the first `|hits|`
      asteroids are tested (`hits[k]`: whether the ship hit asteroid `k`):
      each hit cost one life and marked its asteroid; the game stopped, and
      the score was reported, exactly when the lives went down to 0 on one
      of those hits, which happens when the hits number at least the lives
      the pass started with and that number was positive. */
  ghost predicate ShipFacts(lives0: int, running0: bool, score: int, marks0: seq<bool>, hits: seq<bool>,
                            lives: int, running: bool, reported: Option<int>, marks: seq<bool>)
  {
    && |hits| <= |marks0|
    && lives == lives0 - Count(hits)
    && running == (running0 && !(0 < lives0 <= Count(hits)))
    && reported == (if 0 < lives0 <= Count(hits) then Some(score) else None)
    && marks == Struck(marks0, hits)
  }

  lemma ShipStart(lives0: int, running0: bool, score: int, marks0: seq<bool>)
    ensures ShipFacts(lives0, running0, score, marks0, [], lives0, running0, None, marks0)
  {
    assert Struck(marks0, []) == marks0;
  }

  /** The test of the next asteroid: a hit costs a life and marks the
      asteroid, and stops the game and reports the score when it takes the
      lives to 0; a miss changes nothing. */
  lemma ShipStep(lives0: int, running0: bool, score: int, marks0: seq<bool>, hits: seq<bool>,
                 lives: int, running: bool, reported: Option<int>, marks: seq<bool>,
                 hit: bool, lives': int, running': bool, reported': Option<int>, marks': seq<bool>)
    requires ShipFacts(lives0, running0, score, marks0, hits, lives, running, reported, marks)
    requires |hits| < |marks0|
    requires hit ==> && lives' == lives - 1 && running' == (running && lives' != 0)
                     && reported' == (if lives' == 0 then Some(score) else reported)
                     && marks' == marks[|hits| := true]
    requires !hit ==> lives' == lives && running' == running && reported' == reported && marks' == marks
    ensures ShipFacts(lives0, running0, score, marks0, hits + [hit], lives', running', reported', marks')
  {
    assert (hits + [hit])[..|hits|] == hits;
    assert Count(hits + [hit]) == Count(hits) + (if hit then 1 else 0);
  }

  /** Once the lives the pass started with were positive and the ship hit at
      least that many asteroids, the game is over and the score was reported;
      with fewer hits, or with no lives to begin with, it goes on. */
  lemma ShipOutcome(lives0: int, running0: bool, score: int, marks0: seq<bool>, hits: seq<bool>,
                    lives: int, running: bool, reported: Option<int>, marks: seq<bool>)
    requires ShipFacts(lives0, running0, score, marks0, hits, lives, running, reported, marks)
    ensures reported.Some? <==> (lives0 > 0 && lives <= 0)
    ensures reported.Some? ==> !running && reported.value == score
    ensures running0 && lives > 0 ==> running
  {
  }

  /** The ship as a test of the player pass sees it: where it is, its
      radius, its rotation and its rotation delta. */
  datatype Pose = Pose(location: Point, radius: real, rotation: real, delta: real)

  ghost function PoseOf(p: Player): (r: Pose)
    reads p
    ensures r.location == p.location && r.radius == p.radius && r.rotation == p.rotation && r.delta == p.rotationDelta
  {
    Pose(p.location, p.radius, p.rotation, p.rotationDelta)
  }

  /** An asteroid as the player pass sees it: whether it is alive (its
      fade-in is over), where it is, its radius, its rotation and its
      rotation delta. */
  datatype Sight = Sight(alive: bool, at: Point, radius: real, rotation: real, delta: real)

  ghost function SightOf(a: Asteroid): (r: Sight)
    reads a`fadingIn, a`location, a`rotation
    ensures r.alive == a.IsAlive() && r.at == a.location && r.radius == a.radius
    ensures r.rotation == a.rotation && r.delta == a.rotationDelta
  {
    Sight(a.IsAlive(), a.location, a.radius, a.rotation, a.rotationDelta)
  }

  /** What the player pass sees of each asteroid of `s`, in list order. */
  ghost function SightSeq(s: seq<Asteroid>): (m: seq<Sight>)
    reads s`fadingIn, s`location, s`rotation
    ensures |m| == |s|
  {
    if s == [] then [] else SightSeq(s[..|s| - 1]) + [SightOf(s[|s| - 1])]
  }

  lemma {:induction false} SightAt(s: seq<Asteroid>)
    ensures forall k :: 0 <= k < |s| ==> SightSeq(s)[k] == SightOf(s[k])
  {
    if s != [] {
      SightAt(s[..|s| - 1]);
    }
  }

  /** Whether the ship `ship` reaches an asteroid seen as `s`: the asteroid
      is alive and the centres are within the two radii. Only then are the
      outlines taken, which turns both. */
  predicate Reached(ship: Pose, s: Sight)
  {
    s.alive && Near(ship.location, ship.radius, s.at, s.radius)
  }

  /** How many of the first `n` asteroids (seen as `sights`) the ship reaches. */
  function Reaches(ship: Pose, sights: seq<Sight>, n: nat): (c: nat)
    requires n <= |sights|
    ensures c <= n
  {
    if n == 0 then 0 else Reaches(ship, sights, n - 1) + (if Reached(ship, sights[n - 1]) then 1 else 0)
  }

  /** The ship as test `n` of the player pass sees it, when it was `ship`
      as the pass began: turned once for each earlier test that reached
      its asteroid. */
  function Facing(ship: Pose, sights: seq<Sight>, n: nat): (r: Pose)
    requires n <= |sights|
    ensures r.location == ship.location && r.radius == ship.radius && r.delta == ship.delta
  {
    ship.(rotation := Turned(ship.rotation, ship.delta, Reaches(ship, sights, n)))
  }

  /** The player-asteroid test as the source makes it, of the ship `ship`
      and the asteroid `a` seen as `s`: the outlines compared are the ship's
      and the asteroid's at their locations and current rotations, and it is
      a hit exactly when the ship reaches the asteroid and the oracle finds
      the two outlines intersect. */
  predicate Seen(ship: Pose, a: Asteroid, s: Sight, hit: bool, view: (Path, Path), overlap: (Path, Path) -> bool)
  {
    && view == (Path(ShipModel, ship.location, ship.rotation), Path(Rock(a), s.at, s.rotation))
    && hit == (Reached(ship, s) && overlap(view.0, view.1))
  }

  /** The first `|hits|` tests of the player pass, for the ship `ship` and
      the asteroids `rocks` as the pass began (seen as `sights`): test `k`
      was made by the ship turned as `Facing` says, and compared the
      outlines `views[k]` and hit as `Seen` says. */
  predicate Sightings(ship: Pose, rocks: seq<Asteroid>, sights: seq<Sight>,
                      hits: seq<bool>, views: seq<(Path, Path)>, overlap: (Path, Path) -> bool)
  {
    && |sights| == |rocks| && |hits| == |views| <= |rocks|
    && forall k {:trigger views[k]} :: 0 <= k < |hits| ==>
      Seen(Facing(ship, sights, k), rocks[k], sights[k], hits[k], views[k], overlap)
  }

  lemma SightingsStep(ship: Pose, rocks: seq<Asteroid>, sights: seq<Sight>,
                      hits: seq<bool>, views: seq<(Path, Path)>, overlap: (Path, Path) -> bool, hit: bool, view: (Path, Path))
    requires Sightings(ship, rocks, sights, hits, views, overlap) && |hits| < |rocks|
    requires Seen(Facing(ship, sights, |hits|), rocks[|hits|], sights[|hits|], hit, view, overlap)
    ensures Sightings(ship, rocks, sights, hits + [hit], views + [view], overlap)
  {
    assert forall k :: 0 <= k < |hits| ==> (hits + [hit])[k] == hits[k] && (views + [view])[k] == views[k];
  }

  /** The rotations `rots` of the asteroids seen as `sights` once the
      player pass has made its first `n` tests: each the rotation it had as
      the pass began, turned once if its test was made and reached it. */
  predicate Swung(ship: Pose, sights: seq<Sight>, n: nat, rots: seq<real>)
  {
    && |rots| == |sights| && n <= |sights|
    && forall k {:trigger rots[k]} :: 0 <= k < |sights| ==>
      rots[k] == Turned(sights[k].rotation, sights[k].delta, if k < n && Reached(ship, sights[k]) then 1 else 0)
  }

  lemma SwungStart(ship: Pose, sights: seq<Sight>, rots: seq<real>)
    requires |rots| == |sights| && forall k :: 0 <= k < |sights| ==> rots[k] == sights[k].rotation
    ensures Swung(ship, sights, 0, rots)
  {
  }

  /** Test `n` of the player pass turns its asteroid exactly when it reaches it. */
  lemma SwungStep(ship: Pose, sights: seq<Sight>, n: nat, rots: seq<real>, rot: real)
    requires Swung(ship, sights, n, rots) && n < |sights|
    requires rot == Turned(rots[n], sights[n].delta, if Reached(ship, sights[n]) then 1 else 0)
    ensures Swung(ship, sights, n + 1, rots[n := rot])
  {
    assert rots[n] == sights[n].rotation;
  }

  /** The ship turns exactly when test `n` reaches its asteroid. */
  lemma FacingStep(ship: Pose, sights: seq<Sight>, n: nat)
    requires n < |sights|
    ensures Facing(ship, sights, n + 1).rotation
         == Turned(Facing(ship, sights, n).rotation, ship.delta, if Reached(ship, sights[n]) then 1 else 0)
  {
  }

  /** In closed form: when test `n` of the player pass is made, the ship
      has turned by its rotation delta once per earlier asteroid it reached. */
  lemma FacingLinear(ship: Pose, sights: seq<Sight>, n: nat)
    requires n <= |sights|
    ensures Facing(ship, sights, n).rotation == ship.rotation + (Reaches(ship, sights, n) as real) * ship.delta
  {
    TurnedLinear(ship.rotation, ship.delta, Reaches(ship, sights, n));
  }

  /** In closed form: after the tests `trials`, entry `k` of `now` has
      turned by its rotation delta once per test that found it within reach. */
  lemma {:induction false} SpinsLinear(start: seq<real>, trials: seq<Trial>, now: seq<Asteroid>, spins: seq<real>, k: nat)
    requires SpinsFrom(start, trials, now, spins) && k < |now|
    ensures spins[k] == StartSpin(start, k) + (NearCount(trials, now[k]) as real) * now[k].rotationDelta
  {
    TurnedValue(StartSpin(start, k), now[k].rotationDelta, NearCount(trials, now[k]), spins[k]);
  }

  lemma TurnedValue(rotation: real, delta: real, n: nat, r: real)
    requires r == Turned(rotation, delta, n)
    ensures r == rotation + (n as real) * delta
  {
    TurnedLinear(rotation, delta, n);
  }

  /** Each test of `rows` compared its asteroid's outline where the player
      pass then saw that asteroid (`sights`): the bullet pass moves nothing. */
  ghost predicate Located(rows: seq<seq<Trial>>, sights: seq<Sight>)
  {
    forall r {:trigger RowLocated(rows[r], sights)} :: 0 <= r < |rows| ==> RowLocated(rows[r], sights)
  }

  ghost predicate RowLocated(tests: seq<Trial>, sights: seq<Sight>)
  {
    |tests| <= |sights| && forall k :: 0 <= k < |tests| ==> tests[k].view.1.location == sights[k].at
  }

  /** The player pass saw the asteroids of `tested` (as `sights`) with their
      own radii and deltas, at the rotations the bullet pass left: those of
      `spins0`, turned once for every test of `trials` that was near. */
  ghost predicate Spun(spins0: seq<real>, trials: seq<Trial>, tested: seq<Asteroid>, sights: seq<Sight>)
  {
    && |sights| == |tested|
    && forall k {:trigger sights[k]} :: 0 <= k < |tested| ==>
      && sights[k].rotation == Turned(StartSpin(spins0, k), tested[k].rotationDelta, NearCount(trials, tested[k]))
      && sights[k].delta == tested[k].rotationDelta && sights[k].radius == tested[k].radius
  }

  /** What the asteroids of `now` look like after a bullet pass with the
      tests `rows`, which found each at its location and turned it as
      `SpinsFrom` says. */
  lemma SightsFrom(rows: seq<seq<Trial>>, spins0: seq<real>, now: seq<Asteroid>, sights: seq<Sight>)
    requires Placed(rows, now) && SpinsFrom(spins0, Flatten(rows), now, RotSeq(now)) && sights == SightSeq(now)
    ensures Located(rows, sights) && Spun(spins0, Flatten(rows), now, sights)
  {
    SightAt(now);
    RotSeqAt(now);
    PlacedAt(rows, now, sights);
  }

  lemma {:induction false} PlacedAt(rows: seq<seq<Trial>>, now: seq<Asteroid>, sights: seq<Sight>)
    requires Placed(rows, now) && |sights| == |now|
    requires forall k :: 0 <= k < |now| ==> sights[k].at == now[k].location
    ensures Located(rows, sights)
  {
    if rows != [] {
      var n := |rows| - 1;
      PlacedAt(rows[..n], now, sights);
      assert RowPlaced(rows[n], now);
      assert forall r :: 0 <= r < n ==> rows[r] == rows[..n][r];
    }
  }

  /** Every entry of `s` from position `n` on is still fading in, as the
      asteroids a frame adds (the spawned one, the fragments) are. */
  ghost predicate Unborn(s: seq<Asteroid>, n: nat)
    reads s`fadingIn
  {
    forall k :: n <= k < |s| ==> s[k].fadingIn
  }

  /** A list that grew at the end by entries still fading in keeps its
      entries from `n` on fading in. */
  lemma UnbornGrow(s: seq<Asteroid>, t: seq<Asteroid>, n: nat)
    requires n <= |s| <= |t| && t[..|s|] == s && Unborn(s, n) && Unborn(t, |s|)
    ensures Unborn(t, n)
  {
    assert forall k :: n <= k < |s| ==> t[k] == s[k] by {
      assert forall k :: 0 <= k < |s| ==> t[..|s|][k] == t[k];
    }
  }

  /** What the player pass sees, when the list `s0` (seen as `seen`) grew
      to `s` by entries still fading in while no entry of `s0` moved or
      changed its fade-in state. */
  lemma Reseated(seen: seq<Sight>, s0: seq<Asteroid>, s: seq<Asteroid>)
    requires |seen| == |s0| <= |s| && s[..|s0|] == s0 && Unborn(s, |s0|)
    requires forall k :: 0 <= k < |s0| ==> seen[k].alive == s0[k].IsAlive() && seen[k].at == s0[k].location
    ensures Seated(seen, SightSeq(s))
  {
    SightAt(s);
    assert forall k :: 0 <= k < |s0| ==> s[k] == s0[k] by {
      assert forall k :: 0 <= k < |s0| ==> s[..|s0|][k] == s[k];
    }
  }

  /** What the collision passes of a frame start from: the length `n0` of
      the list once the spawn check has run, the rotations `spins` of the
      asteroids listed before it and how they looked then (`seen`), the
      bullets `shots` and their outlines `shotPaths`, and the ship. */
  datatype Start = Start(n0: nat, spins: seq<real>, seen: seq<Sight>, shots: seq<Bullet>, shotPaths: seq<Path>, ship: Pose)

  /** The player pass saw each asteroid listed when the frame began alive or
      not, and where, as it was then (`seen`), and every asteroid added
      during the frame (the spawned one, the fragments) as not yet alive. */
  ghost predicate Seated(seen: seq<Sight>, sights: seq<Sight>)
  {
    && |seen| <= |sights|
    && forall k {:trigger sights[k]} :: 0 <= k < |sights| ==>
      if k < |seen| then sights[k].alive == seen[k].alive && sights[k].at == seen[k].at else !sights[k].alive
  }

  /** The two collision passes of a frame from `start`, over the list
      `tested` left by the spawn check: the bullet pass made the tests `rows`
      and accepted `hits`, as `Volleyed` says; the player pass saw the
      asteroids as `sights` (alive and placed as when the frame began, as
      `Seated` says, where those tests had found them, at the rotations they
      left) and made one test per asteroid, comparing `views` and hitting as
      `crashes` says. */
  ghost predicate Collided(start: Start, rows: seq<seq<Trial>>, hits: seq<Strike>, tested: seq<Asteroid>,
                           sights: seq<Sight>, crashes: seq<bool>, views: seq<(Path, Path)>, overlap: (Path, Path) -> bool)
  {
    && Volleyed(start.n0, start.spins, start.shots, start.shotPaths, rows, hits, tested, overlap)
    && |crashes| == |tested| && Sightings(start.ship, tested, sights, crashes, views, overlap)
    && Located(rows, sights) && Spun(start.spins, Flatten(rows), tested, sights)
    && Seated(start.seen, sights)
  }

  /** The ship can only have hit an asteroid that was listed and alive when
      the frame began, and whose centre was then within the two radii of
      the ship's. */
  lemma CrashSeen(start: Start, rows: seq<seq<Trial>>, hits: seq<Strike>, tested: seq<Asteroid>, sights: seq<Sight>,
                  crashes: seq<bool>, views: seq<(Path, Path)>, overlap: (Path, Path) -> bool, k: nat)
    requires Collided(start, rows, hits, tested, sights, crashes, views, overlap)
    requires k < |crashes| && crashes[k]
    ensures k < |start.seen| && start.seen[k].alive
    ensures Near(start.ship.location, start.ship.radius, start.seen[k].at, sights[k].radius)
  {
    assert Seen(Facing(start.ship, sights, k), tested[k], sights[k], crashes[k], views[k], overlap);
  }

  /** The asteroids of `tested` that a frame removes: those already marked
      when the frame began (`marks0` holds those marks for the entries that
      existed then), those a bullet hit and those the ship hit. */
  ghost function Doomed(tested: seq<Asteroid>, marks0: seq<bool>, hits: seq<Strike>, crashes: seq<bool>): set<Asteroid>
  {
    set k | 0 <= k < |tested| && ((k < |marks0| && marks0[k]) || tested[k] in RocksHit(hits) || (k < |crashes| && crashes[k]))
      :: tested[k]
  }

  /** After both passes the marked asteroids `dead` are the doomed ones:
      the bullet pass left the marks `m1` (starting from `marks0`, which
      extends the frame's first marks `old0` by unmarked entries) and the
      player pass set those of the asteroids the ship hit. */
  lemma DoomedMarks(old0: seq<bool>, origin: seq<Asteroid>, marks0: seq<bool>, hits: seq<Strike>,
                    tested: seq<Asteroid>, m1: seq<bool>, crashes: seq<bool>, dead: set<Asteroid>)
    requires MarksFrom(origin, marks0, hits, tested, m1)
    requires |old0| <= |marks0| && marks0[..|old0|] == old0 && forall k :: |old0| <= k < |marks0| ==> !marks0[k]
    requires |crashes| == |tested| && Distinct(tested)
    requires forall k :: 0 <= k < |tested| ==> (tested[k] in dead <==> Struck(m1, crashes)[k])
    requires forall x :: x in dead ==> x in tested
    ensures dead == Doomed(tested, old0, hits, crashes)
  {
    DistinctPairs(tested);
    forall k | 0 <= k < |tested|
      ensures tested[k] in Doomed(tested, old0, hits, crashes) <==> Struck(m1, crashes)[k]
    {
      if k < |old0| {
        assert marks0[k] == marks0[..|old0|][k];
      }
    }
  }

  /** The marked asteroids of `s`, by position. */
  lemma MarkedRocksAt(s: seq<Asteroid>)
    ensures forall k :: 0 <= k < |s| ==> (s[k] in MarkedRocks(s) <==> MarkSeq(s)[k])
    ensures forall x :: x in MarkedRocks(s) ==> x in s
  {
    MarkSeqAt(s);
  }

  /** The marked bullets of `s`, by position. */
  lemma MarkedShotsAt(s: seq<Bullet>)
    ensures forall k :: 0 <= k < |s| ==> (s[k] in MarkedShots(s) <==> ShotMarks(s)[k])
    ensures forall x :: x in MarkedShots(s) ==> x in s
  {
    ShotMarksAt(s);
  }

  /** After the bullet pass the marked bullets `dead` are those marked
      before it (`dead0`) and those that hit. */
  lemma ShotsDead(shots: seq<Bullet>, shots0: seq<bool>, dead0: set<Bullet>, hits: seq<Strike>, m: seq<bool>, dead: set<Bullet>)
    requires ShotMarksFrom(shots0, hits, shots, m)
    requires forall h :: h in hits ==> h.bullet in shots
    requires forall k :: 0 <= k < |shots| ==> (shots[k] in dead0 <==> shots0[k])
    requires forall x :: x in dead0 ==> x in shots
    requires forall k :: 0 <= k < |shots| ==> (shots[k] in dead <==> m[k])
    requires forall x :: x in dead ==> x in shots
    ensures dead == dead0 + BulletsHit(hits)
  {
    forall x | x in BulletsHit(hits)
      ensures x in shots
    {
      var h :| h in hits && h.bullet == x;
    }
  }

  /** Bullet `b` has flown one frame from `from`, and it is marked when it
      was marked before (`marked`) or is now off the playfield. */
  ghost predicate Flew(b: Bullet, from: Point, marked: bool, s: Size, trig: Trig)
    reads b`location, b`rotation, b`isMarkedForDeath
  {
    && b.location == Flight(from, b.rotation, b.xSpeed, b.ySpeed, trig)
    && b.isMarkedForDeath == (marked || OutsideScreen(b.location, s))
  }

  /** Asteroid `a` has drifted one frame from `from` by its velocity, and
      its fade state has made one step from `before`. */
  ghost predicate Drifted(a: Asteroid, from: Point, before: Fading.FadeState, s: Size)
    reads a`location, a`alpha, a`fadingIn, a`dying, a`isMarkedForDeath
  {
    && a.location == Point(from.x + a.xSpeed, from.y + a.ySpeed)
    && a.Lifecycle() == Fading.Step(before, Offscreen(a.location, s))
  }

  /** The tick counter and the difficulty (the number of asteroids the game keeps alive). */
  datatype Clock = Clock(tickCount: int, difficulty: int)

  /** What one timer tick does to the clock: every 50 ticks the difficulty
      rises by one and the counter restarts; the counter then counts the tick. */
  function ClockStep(c: Clock): (r: Clock)
    ensures 0 <= c.tickCount <= DifficultyPeriod ==> 1 <= r.tickCount <= DifficultyPeriod
    ensures r.difficulty == c.difficulty || (r.difficulty == c.difficulty + 1 && r.tickCount == 1)
    ensures r.difficulty == c.difficulty + 1 <==> c.tickCount == DifficultyPeriod
  {
    if c.tickCount == DifficultyPeriod then Clock(1, c.difficulty + 1)
    else Clock(c.tickCount + 1, c.difficulty)
  }

  function ClockRun(c: Clock, n: nat): Clock
  {
    if n == 0 then c else ClockStep(ClockRun(c, n - 1))
  }

  /** From a fresh game, the difficulty first rises on the 51st tick and then
      every 50 ticks; after n >= 1 ticks the counter is in [1, 50]. */
  lemma {:induction false} DifficultySchedule(d: int, n: nat)
    requires n >= 1
    ensures ClockRun(Clock(0, d), n) == Clock((n - 1) % DifficultyPeriod + 1, d + (n - 1) / DifficultyPeriod)
  {
    if n > 1 {
      DifficultySchedule(d, n - 1);
      var m := n - 2;
      if m % 50 == 49 {
        assert (m + 1) % 50 == 0 && (m + 1) / 50 == m / 50 + 1;
      } else {
        assert (m + 1) % 50 == m % 50 + 1 && (m + 1) / 50 == m / 50;
      }
    }
  }

  /** The bonus-life accumulator and the lives, as one timer tick changes them
      before the frame is played. */
  datatype Bonus = Bonus(extraGuy: int, lives: int)

  /** One check of the accumulator: above 10000 it is traded for a life.
      The accumulator plus 10000 per life is conserved, and the accumulator
      stays positive. */
  function BonusStep(b: Bonus): (r: Bonus)
    ensures r.extraGuy + BonusThreshold * r.lives == b.extraGuy + BonusThreshold * b.lives
    ensures b.lives <= r.lives <= b.lives + 1
    ensures r.lives == b.lives + 1 <==> b.extraGuy > BonusThreshold
    ensures b.extraGuy > 0 ==> r.extraGuy > 0
  {
    if b.extraGuy > BonusThreshold then Bonus(b.extraGuy - BonusThreshold, b.lives + 1) else b
  }

  function BonusRun(b: Bonus, n: nat): Bonus
  {
    if n == 0 then b else BonusStep(BonusRun(b, n - 1))
  }

  function Min(a: int, b: int): int {
    if a <= b then a else b
  }

  /** With no further scoring, an accumulator of e earns one life per tick
      while it exceeds 10000 and keeps the remainder: after n ticks the game has
      awarded min(n, (e - 1) / 10000) lives, and an accumulator of at most
      10000 earns none. */
  lemma {:induction false} BonusSchedule(e: int, lives: int, n: nat)
    ensures var awards := if e <= 0 then 0 else Min(n, (e - 1) / BonusThreshold);
      BonusRun(Bonus(e, lives), n) == Bonus(e - BonusThreshold * awards, lives + awards)
  {
    if n > 0 {
      BonusSchedule(e, lives, n - 1);
      var awards := if e <= 0 then 0 else Min(n - 1, (e - 1) / BonusThreshold);
      if awards < (e - 1) / BonusThreshold {
        assert e - BonusThreshold * awards > BonusThreshold;
      } else {
        assert e - BonusThreshold * awards <= BonusThreshold;
      }
    }
  }

  /** The game window's state. The player-asset list of the form always holds
      the overlay and the ship, so they are two fields here. */
  class Form {
    var asteroids: seq<Asteroid>
    var bullets: seq<Bullet>
    const player: Player
    const ui: UserInterface
    const rand: Rand
    var gameRunning: bool
    var score: int
    var extraGuy: int
    var lives: int
    var difficulty: int
    var tickCount: int

    /** The overlay shows the current lives and the current score, written
        in the six-digit format (which reads back as the score, by
        `ScoreText.FormatRoundTrip`). */
    ghost predicate Shown()
      reads this`score, this`lives, ui`lives, ui`scoreText
    {
      ui.lives == lives && ui.scoreText == ScoreText.Format(score)
    }

    /** The accumulator is a non-negative amount that differs from the score
        by the 10000s already turned into lives; the tick counter is in
        [0, 50]; the difficulty never falls below its start value. */
    ghost predicate Counters()
      reads this`score, this`extraGuy, this`tickCount, this`difficulty
    {
      && 0 <= extraGuy <= score && (score - extraGuy) % BonusThreshold == 0
      && 0 <= tickCount <= DifficultyPeriod && difficulty >= StartDifficulty
    }

    /** At most eight bullets are live; no entity is in a list twice; every
        asteroid is in a reachable fade state. */
    ghost predicate Populated()
      reads this`asteroids, this`bullets, asteroids`alpha, asteroids`fadingIn, asteroids`dying, asteroids`isMarkedForDeath, asteroids`baseColor
    {
      && |bullets| <= MaxBullets
      && Distinct(asteroids) && Distinct(bullets)
      && AllValid(asteroids)
    }

    ghost predicate Valid()
      reads this, ui`lives, ui`scoreText, asteroids`alpha, asteroids`fadingIn, asteroids`dying, asteroids`isMarkedForDeath, asteroids`baseColor
    {
      rand.Valid() && Shown() && Counters() && Populated()
    }

    constructor (rand: Rand)
      requires rand.Valid()
      ensures Valid() && this.rand == rand && fresh(player) && fresh(ui)
      ensures asteroids == [] && bullets == [] && !gameRunning
      ensures score == 0 && extraGuy == 0 && lives == StartLives
      ensures difficulty == StartDifficulty && tickCount == 0
      ensures ui.location == Point(40.0, 30.0) && ui.lives == StartLives
      ensures player.location == Point(400.0, 300.0) && player.rotation == 0.0 && player.rotationDelta == 0.0
    {
      asteroids := [];
      bullets := [];
      gameRunning := false;
      score := 0;
      extraGuy := 0;
      lives := StartLives;
      difficulty := StartDifficulty;
      tickCount := 0;
      this.rand := rand;
      ui := new UserInterface(Point(WindowSize.width as real / 20.0, WindowSize.height as real / 20.0), 0, StartLives);
      player := new Player(Point(HalfTrunc(WindowSize.width) as real, HalfTrunc(WindowSize.height) as real));
    }

    /** The menu's start signal. */
    method StartGame(start: bool)
      modifies this`gameRunning
      ensures gameRunning == start
    {
      gameRunning := start;
    }

    /** Adds a new asteroid of `size` at `at` to the end of the list. */
    method Spawn(at: Point, size: AsterSize) returns (ghost a: Asteroid)
      requires Valid()
      modifies this`asteroids, rand`used
      ensures Valid() && fresh(a)
      ensures asteroids == old(asteroids) + [a]
      ensures a.location == at && a.size == size && a.Lifecycle() == Fading.Newborn
      ensures MarkSeq(asteroids) == old(MarkSeq(asteroids)) + [false]
      ensures RotSeq(asteroids) == old(RotSeq(asteroids)) + [0.0]
    {
      var rock := new Asteroid(at, size, rand);
      Append(rock);
      a := rock;
    }

    /** Adds an asteroid that is not yet in the list to its end. */
    method Append(rock: Asteroid)
      requires Valid() && rock.Valid() && rock !in asteroids
      modifies this`asteroids
      ensures Valid() && asteroids == old(asteroids) + [rock]
      ensures MarkSeq(asteroids) == old(MarkSeq(asteroids)) + [rock.isMarkedForDeath]
      ensures RotSeq(asteroids) == old(RotSeq(asteroids)) + [rock.rotation]
    {
      assert (asteroids + [rock])[..|asteroids|] == asteroids;
      DistinctAppend(asteroids, rock);
      AllValidAppend(asteroids, rock);
      asteroids := asteroids + [rock];
    }

    /** Appends `n` new asteroids of `size` at `at`. */
    method SpawnMany(at: Point, size: AsterSize, n: nat)
      requires Valid()
      modifies this`asteroids, rand`used
      ensures Valid()
      ensures |asteroids| == |old(asteroids)| + n && asteroids[..|old(asteroids)|] == old(asteroids)
      ensures forall k :: |old(asteroids)| <= k < |asteroids| ==>
        fresh(asteroids[k]) && asteroids[k].location == at &&
        asteroids[k].size == size && asteroids[k].Lifecycle() == Fading.Newborn
      ensures MarkSeq(asteroids) == old(MarkSeq(asteroids)) + Unmarked(n)
      ensures RotSeq(asteroids) == old(RotSeq(asteroids)) + Unturned(n)
    {
      for i := 0 to n
        invariant Valid()
        invariant |asteroids| == |old(asteroids)| + i && asteroids[..|old(asteroids)|] == old(asteroids)
        invariant forall k :: |old(asteroids)| <= k < |asteroids| ==>
          fresh(asteroids[k]) && asteroids[k].location == at &&
          asteroids[k].size == size && asteroids[k].Lifecycle() == Fading.Newborn
        invariant MarkSeq(asteroids) == old(MarkSeq(asteroids)) + Unmarked(i)
        invariant RotSeq(asteroids) == old(RotSeq(asteroids)) + Unturned(i)
      {
        var child := Spawn(at, size);
        UnmarkedSnoc(old(MarkSeq(asteroids)), i);
        UnturnedSnoc(old(RotSeq(asteroids)), i);
      }
    }

    /** Splitting a destroyed asteroid: a large one leaves two medium ones, a
        medium one three small ones, all at its location and appended after the
        existing asteroids; the score and the accumulator both grow by 100, 200
        or 300; the overlay shows the new score. */
    method Split(a: Asteroid)
      requires Valid()
      modifies this`asteroids, this`score, this`extraGuy, ui`scoreText, rand`used
      ensures Valid()
      ensures score == old(score) + Points(a.size) && extraGuy == old(extraGuy) + Points(a.size)
      ensures |asteroids| == |old(asteroids)| + Fragments(a.size)
      ensures asteroids[..|old(asteroids)|] == old(asteroids)
      ensures forall k :: |old(asteroids)| <= k < |asteroids| ==>
        fresh(asteroids[k]) && asteroids[k].location == a.location &&
        asteroids[k].size == FragmentSize(a.size) && asteroids[k].Lifecycle() == Fading.Newborn
      ensures MarkSeq(asteroids) == old(MarkSeq(asteroids)) + Unmarked(Fragments(a.size))
      ensures RotSeq(asteroids) == old(RotSeq(asteroids)) + Unturned(Fragments(a.size))
    {
      if a.size == Large {
        SplitInto(a.location, Medium, 2, 100);
      }
      if a.size == Medium {
        SplitInto(a.location, Small, 3, 200);
      }
      if a.size == Small {
        AddPoints(300);
        assert MarkSeq(asteroids) + Unmarked(0) == MarkSeq(asteroids);
        assert RotSeq(asteroids) + Unturned(0) == RotSeq(asteroids);
      }
    }

    /** One branch of `Split` that leaves fragments: `n` new asteroids of
        `size` at `at`, and `points` for the score and the accumulator. */
    method SplitInto(at: Point, size: AsterSize, n: nat, points: nat)
      requires Valid()
      modifies this`asteroids, this`score, this`extraGuy, ui`scoreText, rand`used
      ensures Valid()
      ensures score == old(score) + points && extraGuy == old(extraGuy) + points
      ensures |asteroids| == |old(asteroids)| + n && asteroids[..|old(asteroids)|] == old(asteroids)
      ensures forall k :: |old(asteroids)| <= k < |asteroids| ==>
        fresh(asteroids[k]) && asteroids[k].location == at &&
        asteroids[k].size == size && asteroids[k].Lifecycle() == Fading.Newborn
      ensures MarkSeq(asteroids) == old(MarkSeq(asteroids)) + Unmarked(n)
      ensures RotSeq(asteroids) == old(RotSeq(asteroids)) + Unturned(n)
    {
      SpawnMany(at, size, n);
      AddPoints(points);
    }

    /** Adds to the score and to the bonus-life accumulator alike, and shows
        the new score on the overlay. */
    method AddPoints(points: nat)
      requires Valid()
      modifies this`score, this`extraGuy, ui`scoreText
      ensures Valid()
      ensures score == old(score) + points && extraGuy == old(extraGuy) + points
    {
      score := score + points;
      extraGuy := extraGuy + points;
      ui.SetScore(score);
    }

    /** Releasing an arrow key stops the ship turning; other keys do nothing. */
    method KeyUp(key: Key)
      modifies player`rotationDelta
      ensures player.rotationDelta == if key == Right || key == Left then 0.0 else old(player.rotationDelta)
    {
      if key == Right || key == Left {
        player.rotationDelta := 0.0;
      }
    }

    /** Space fires: with fewer than eight bullets a new one is appended
        (see `Fire`), with eight the oldest is dropped instead. The right and
        left arrows set the ship turning by 10 or -10 degrees per frame. */
    method KeyDown(key: Key)
      requires Valid()
      modifies this`bullets, player`rotationDelta
      ensures Valid()
      ensures key == Space && |old(bullets)| < MaxBullets ==> Fired(old(bullets), bullets, player)
      ensures key == Space && |old(bullets)| >= MaxBullets ==> bullets == old(bullets)[1..]
      ensures key != Space ==> bullets == old(bullets)
      ensures player.rotationDelta == match key
        case Right => TurnRate
        case Left => -TurnRate
        case _ => old(player.rotationDelta)
    {
      if key == Space {
        if |bullets| < MaxBullets {
          Fire();
        } else {
          DropOldest();
        }
      } else if key == Right {
        player.rotationDelta := TurnRate;
      } else if key == Left {
        player.rotationDelta := -TurnRate;
      }
    }

    /** `now` is `before` with one new, unmarked bullet appended at the ship's
        location and heading. */
    ghost predicate Fired(before: seq<Bullet>, now: seq<Bullet>, ship: Player)
      reads now, ship
    {
      && |now| == |before| + 1 && now[..|before|] == before
      && !now[|before|].isMarkedForDeath && now[|before|] !in before
      && now[|before|].location == ship.location && now[|before|].rotation == ship.rotation
    }

    method Fire()
      requires Valid() && |bullets| < MaxBullets
      modifies this`bullets
      ensures Valid() && Fired(old(bullets), bullets, player)
      ensures fresh(bullets[|old(bullets)|])
    {
      var shot := new Bullet(Point(0.0, 0.0), player);
      DistinctAppend(bullets, shot);
      bullets := bullets + [shot];
    }

    method DropOldest()
      requires Valid() && |bullets| > 0
      modifies this`bullets
      ensures Valid() && bullets == old(bullets)[1..]
    {
      DistinctTail(bullets);
      bullets := bullets[1..];
    }

    /** The bonus-life block of the timer tick: above 10000 the accumulator
        buys one life and keeps the excess. */
    method AwardBonusLife()
      requires Valid()
      modifies this`lives, this`extraGuy, ui`lives
      ensures Valid()
      ensures Bonus(extraGuy, lives) == BonusStep(Bonus(old(extraGuy), old(lives)))
    {
      if extraGuy > BonusThreshold {
        lives := lives + 1;
        extraGuy := extraGuy - BonusThreshold;
        ui.lives := lives;
      }
    }

    /** One bullet-asteroid test of the bullet pass. When the centres are
        within the two radii, both outlines are taken (turning each by its
        rotation delta) and the hit test decides; a hit marks both and splits
        the asteroid. */
    method TestHit(b: Bullet, a: Asteroid, j: nat, overlap: (Path, Path) -> bool, ghost n: nat) returns (hit: bool)
      requires Valid() && b in bullets && j < |asteroids| && asteroids[j] == a
      requires n <= |asteroids| && Unborn(asteroids, n)
      modifies this`asteroids, this`score, this`extraGuy, ui`scoreText, rand`used
      modifies b`isMarkedForDeath, b`rotation, a`isMarkedForDeath, a`rotation
      ensures Valid() && bullets == old(bullets)
      ensures hit == (Near(b.location, b.radius, a.location, a.radius) &&
        overlap(Path(BulletModel, b.location, old(b.rotation)), Path(Rock(a), a.location, old(a.rotation))))
      ensures b.isMarkedForDeath == (old(b.isMarkedForDeath) || hit)
      ensures a.isMarkedForDeath == (old(a.isMarkedForDeath) || hit)
      ensures |old(asteroids)| <= |asteroids| && asteroids[..|old(asteroids)|] == old(asteroids)
      ensures MarkSeq(asteroids) == old(MarkSeq(asteroids))[j := old(MarkSeq(asteroids))[j] || hit] +
        Unmarked(|asteroids| - |old(asteroids)|)
      ensures score == old(score) + (if hit then Points(a.size) else 0)
      ensures extraGuy == old(extraGuy) + (if hit then Points(a.size) else 0)
      ensures |asteroids| == |old(asteroids)| + (if hit then Fragments(a.size) else 0)
      ensures forall k :: |old(asteroids)| <= k < |asteroids| ==>
        fresh(asteroids[k]) && asteroids[k].size == FragmentSize(a.size)
      ensures forall x :: x in asteroids ==> x in old(asteroids) || fresh(x)
      ensures Unborn(asteroids, n)
      ensures b.rotation == old(b.rotation)
      ensures RotSeq(asteroids) == old(RotSeq(asteroids))[j := Turned(old(a.rotation), a.rotationDelta,
        if Near(b.location, b.radius, a.location, a.radius) then 1 else 0)] + Unturned(|asteroids| - |old(asteroids)|)
    {
      hit := Aim(b, a, j, overlap);
      OnHit(b, a, j, hit, n);
    }

    /** The test itself, on a listed asteroid: only its entry in the rotation list can turn. */
    method Aim(b: Bullet, a: Asteroid, j: nat, overlap: (Path, Path) -> bool) returns (hit: bool)
      requires Valid() && b in bullets && j < |asteroids| && asteroids[j] == a
      modifies b`rotation, a`rotation
      ensures Valid() && asteroids == old(asteroids) && MarkSeq(asteroids) == old(MarkSeq(asteroids))
      ensures b.isMarkedForDeath == old(b.isMarkedForDeath) && a.isMarkedForDeath == old(a.isMarkedForDeath)
      ensures hit == (Near(b.location, b.radius, a.location, a.radius) &&
        overlap(Path(BulletModel, b.location, old(b.rotation)), Path(Rock(a), a.location, old(a.rotation))))
      ensures b.rotation == old(b.rotation)
      ensures RotSeq(asteroids) == old(RotSeq(asteroids))[j := Turned(old(a.rotation), a.rotationDelta,
        if Near(b.location, b.radius, a.location, a.radius) then 1 else 0)]
    {
      ghost var rots := RotSeq(asteroids);
      RotSeqAt(asteroids);
      hit := Probe(b, a, overlap);
      RotSeqAt(asteroids);
      DistinctPairs(asteroids);
      SeqUpdateAt(RotSeq(asteroids), rots, j, a.rotation);
    }

    /** The hit test of one bullet-asteroid pair: when the centres are within
        the two radii, both outlines are taken (which turns each by its
        rotation delta) and the oracle decides whether they intersect. */
    static method Probe(b: Bullet, a: Asteroid, overlap: (Path, Path) -> bool) returns (hit: bool)
      modifies b`rotation, a`rotation
      ensures hit == (Near(b.location, b.radius, a.location, a.radius) &&
        overlap(Path(BulletModel, b.location, old(b.rotation)), Path(Rock(a), a.location, old(a.rotation))))
      ensures b.rotation == old(b.rotation)
      ensures a.rotation == if Near(b.location, b.radius, a.location, a.radius) then Turned(old(a.rotation), a.rotationDelta, 1) else old(a.rotation)
    {
      hit := false;
      if Near(b.location, b.radius, a.location, a.radius) {
        var shot := b.GetPath();
        var rock := a.GetPath();
        hit := overlap(shot, rock);
      }
    }

    /** What a bullet-asteroid test does with its outcome: a hit marks both,
        and an asteroid that is marked and was hit is split. */
    method OnHit(b: Bullet, a: Asteroid, j: nat, hit: bool, ghost n: nat)
      requires Valid() && b in bullets && j < |asteroids| && asteroids[j] == a
      requires n <= |asteroids| && Unborn(asteroids, n)
      modifies this`asteroids, this`score, this`extraGuy, ui`scoreText, rand`used
      modifies b`isMarkedForDeath, a`isMarkedForDeath
      ensures Valid() && bullets == old(bullets)
      ensures b.isMarkedForDeath == (old(b.isMarkedForDeath) || hit)
      ensures a.isMarkedForDeath == (old(a.isMarkedForDeath) || hit)
      ensures |old(asteroids)| <= |asteroids| && asteroids[..|old(asteroids)|] == old(asteroids)
      ensures MarkSeq(asteroids) == old(MarkSeq(asteroids))[j := old(MarkSeq(asteroids))[j] || hit] +
        Unmarked(|asteroids| - |old(asteroids)|)
      ensures score == old(score) + (if hit then Points(a.size) else 0)
      ensures extraGuy == old(extraGuy) + (if hit then Points(a.size) else 0)
      ensures |asteroids| == |old(asteroids)| + (if hit then Fragments(a.size) else 0)
      ensures forall k :: |old(asteroids)| <= k < |asteroids| ==>
        fresh(asteroids[k]) && asteroids[k].size == FragmentSize(a.size)
      ensures forall x :: x in asteroids ==> x in old(asteroids) || fresh(x)
      ensures Unborn(asteroids, n)
      ensures RotSeq(asteroids) == old(RotSeq(asteroids)) + Unturned(|asteroids| - |old(asteroids)|)
    {
      if hit {
        MarkBoth(b, a, j);
      }
      if a.isMarkedForDeath && hit {
        ghost var listed := asteroids;
        Split(a);
        UnbornGrow(listed, asteroids, n);
      }
      if !hit {
        assert MarkSeq(asteroids) + Unmarked(0) == MarkSeq(asteroids);
        assert RotSeq(asteroids) + Unturned(0) == RotSeq(asteroids);
      }
    }

    /** Marks a bullet and entry `j` of the asteroid list for removal. */
    method MarkBoth(b: Bullet, a: Asteroid, j: nat)
      requires Valid() && j < |asteroids| && asteroids[j] == a
      modifies b`isMarkedForDeath, a`isMarkedForDeath
      ensures Valid() && b.isMarkedForDeath && a.isMarkedForDeath
      ensures MarkSeq(asteroids) == old(MarkSeq(asteroids))[j := true]
    {
      MarkRock(a, j);
      b.isMarkedForDeath := true;
    }

    /** Marks entry `j` of the asteroid list for removal. */
    method MarkRock(a: Asteroid, j: nat)
      requires Valid() && j < |asteroids| && asteroids[j] == a
      modifies a`isMarkedForDeath
      ensures Valid() && a.isMarkedForDeath
      ensures MarkSeq(asteroids) == old(MarkSeq(asteroids))[j := true]
    {
      AllValidPointwise(asteroids);
      DistinctPairs(asteroids);
      MarkSeqAt(asteroids);
      a.isMarkedForDeath := true;
      AllValidPointwise(asteroids);
      MarkSeqAt(asteroids);
    }

    /** The row of bullet `b` in the bullet pass: it is tested against every
        asteroid from the first to the last, fragments appended during the
        row included (the row ends only when it has reached the end of the
        list as it is then). The ghost `trials` holds one test per entry of
        the final list, in list order, each as `Tried` says, from the
        bullet's outline and the entry's outline at the rotation it had when
        the row began; the hits `found` are exactly the accepted tests, in
        order; every entry whose test was near is turned once. */
    /** Where bullet `b`'s row stands after its first `j` tests. */
    ghost predicate Sweeping(b: Bullet, overlap: (Path, Path) -> bool, origin: seq<Asteroid>, marks0: seq<bool>,
                             score0: int, extra0: int, bmark0: bool, shot: Path, spins0: seq<real>,
                             found: seq<Strike>, trials: seq<Trial>, j: nat)
      reads this, ui, rand, b, asteroids
    {
      && Valid() && b in bullets && shot == Path(BulletModel, b.location, b.rotation)
      && RowAt(b, overlap, origin, marks0, bmark0, shot, spins0, found, trials, j,
               asteroids, MarkSeq(asteroids), RotSeq(asteroids), score - score0, extraGuy - extra0, b.isMarkedForDeath)
    }

    method Sweep(b: Bullet, overlap: (Path, Path) -> bool, ghost n: nat) returns (ghost found: seq<Strike>, ghost trials: seq<Trial>)
      requires Valid() && b in bullets && n <= |asteroids| && Unborn(asteroids, n)
      modifies this`asteroids, this`score, this`extraGuy, ui`scoreText, rand`used
      modifies b`isMarkedForDeath, b`rotation, asteroids`isMarkedForDeath, asteroids`rotation
      ensures bullets == old(bullets) && b.rotation == old(b.rotation)
      ensures forall x :: x in asteroids ==> x in old(asteroids) || fresh(x)
      ensures Unborn(asteroids, n)
      ensures Sweeping(b, overlap, old(asteroids), old(MarkSeq(asteroids)), old(score), old(extraGuy), old(b.isMarkedForDeath),
                       Path(BulletModel, b.location, b.rotation), old(RotSeq(asteroids)), found, trials, |asteroids|)
    {
      found, trials := [], [];
      ghost var origin, marks0, spins0 := asteroids, MarkSeq(asteroids), RotSeq(asteroids);
      ghost var score0, extra0, bmark0 := score, extraGuy, b.isMarkedForDeath;
      ghost var shot := Path(BulletModel, b.location, b.rotation);
      RowStart(origin, marks0, b, bmark0);
      RowTrialsStart(b, shot, origin, spins0, overlap);
      SpinsStart(spins0, [], asteroids, RotSeq(asteroids));
      var j := 0;
      while j < |asteroids|
        invariant bullets == old(bullets) && b.rotation == old(b.rotation)
        invariant forall x :: x in asteroids ==> x in origin || fresh(x)
        invariant n <= |asteroids| && Unborn(asteroids, n)
        invariant Sweeping(b, overlap, origin, marks0, score0, extra0, bmark0, shot, spins0, found, trials, j)
        decreases Load(asteroids[j..])
      {
        var hit;
        assert asteroids[j] in asteroids;
        hit, found, trials := Visit(b, asteroids[j], j, overlap, origin, marks0, found, score0, extra0, bmark0,
                                    shot, spins0, trials, n);
        j := j + 1;
      }
    }

    /** `TestHit` on entry `j` of a bullet's row, with the bookkeeping of the
        row: the test is recorded as the next of `trials`. */
    method Visit(b: Bullet, a: Asteroid, j: nat, overlap: (Path, Path) -> bool,
                 ghost origin: seq<Asteroid>, ghost marks0: seq<bool>, ghost found: seq<Strike>,
                 ghost score0: int, ghost extra0: int, ghost bmark0: bool,
                 ghost shot: Path, ghost spins0: seq<real>, ghost trials: seq<Trial>, ghost n: nat)
      returns (hit: bool, ghost found': seq<Strike>, ghost trials': seq<Trial>)
      requires j < |asteroids| && asteroids[j] == a
      requires Sweeping(b, overlap, origin, marks0, score0, extra0, bmark0, shot, spins0, found, trials, j)
      requires n <= |asteroids| && Unborn(asteroids, n)
      modifies this`asteroids, this`score, this`extraGuy, ui`scoreText, rand`used
      modifies b`isMarkedForDeath, b`rotation, a`isMarkedForDeath, a`rotation
      ensures bullets == old(bullets) && b.rotation == old(b.rotation)
      ensures forall x :: x in asteroids ==> x in old(asteroids) || fresh(x)
      ensures Sweeping(b, overlap, origin, marks0, score0, extra0, bmark0, shot, spins0, found', trials', j + 1)
      ensures |old(asteroids)| <= |asteroids| && Unborn(asteroids, n)
      ensures Load(asteroids[j + 1..]) < Load(old(asteroids)[j..])
    {
      ghost var row, before, rots := asteroids, MarkSeq(asteroids), RotSeq(asteroids);
      ghost var g, x, bm := score - score0, extraGuy - extra0, b.isMarkedForDeath;
      RotSeqAt(asteroids);
      ghost var near := Near(b.location, b.radius, a.location, a.radius);
      ghost var view := (shot, Path(Rock(a), a.location, a.rotation));
      hit := TestHit(b, a, j, overlap, n);
      found' := if hit then found + [Strike(b, a)] else found;
      ghost var t := Trial(b, a, near, view, hit);
      trials' := trials + [t];
      VisitDone(b, overlap, origin, marks0, bmark0, shot, spins0, found, trials, j, row, before, rots, g, x, bm, t, found', trials',
                asteroids, MarkSeq(asteroids), RotSeq(asteroids), score - score0, extraGuy - extra0, b.isMarkedForDeath);
    }

    /** Where the bullet pass stands after the rows of its first `i`
        bullets: what `PassFacts` says, the bullets still have the outlines
        `shotPaths` they had when the pass began, and the tests made so far
        are the rows `rows`, as `Volleyed` and `Placed` say, having turned
        the asteroids as `SpinsFrom` says. */
    ghost predicate Passing(overlap: (Path, Path) -> bool, origin: seq<Asteroid>, marks0: seq<bool>, shots0: seq<bool>,
                            score0: int, extra0: int, spins0: seq<real>, shotPaths: seq<Path>,
                            hits: seq<Strike>, rows: seq<seq<Trial>>, i: nat)
      reads this, ui, rand, bullets, asteroids
    {
      && Valid() && ShotPaths(bullets) == shotPaths
      && PassAt(overlap, origin, marks0, shots0, spins0, shotPaths, hits, rows, i, bullets,
                asteroids, MarkSeq(asteroids), ShotMarks(bullets), RotSeq(asteroids), score - score0, extraGuy - extra0)
      && Placed(rows, asteroids) && Unborn(asteroids, |origin|)
    }

    /** The bullet pass: every bullet is tested against every asteroid,
        including the fragments appended by splits earlier in the same pass.
        The ghost results list the accepted pairs in the order they were
        found and every test made, row by row. `PassFacts` says that each hit
        split its asteroid exactly once (the score, the accumulator and the
        list grew by exactly what those splits add) and that an entity is
        marked afterwards exactly when it was marked before or took part in
        an accepted pair; `Volleyed` says that the hits are exactly the
        accepted tests, each test comparing the bullet's outline with the
        asteroid's at its location and current rotation as `Tried` says;
        `SpinsFrom` says every asteroid was turned once per near test. */
    method BulletPass(overlap: (Path, Path) -> bool, ghost shots0: seq<bool>, ghost score0: int, ghost extra0: int,
                      ghost spins0: seq<real>)
      returns (ghost hits: seq<Strike>, ghost rows: seq<seq<Trial>>)
      requires Valid() && shots0 == ShotMarks(bullets) && score0 == score && extra0 == extraGuy
      requires |spins0| <= |asteroids| && RotSeq(asteroids) == spins0 + Unturned(|asteroids| - |spins0|)
      modifies this`asteroids, this`score, this`extraGuy, ui`scoreText, rand`used
      modifies bullets`isMarkedForDeath, bullets`rotation, asteroids`isMarkedForDeath, asteroids`rotation
      ensures Valid() && bullets == old(bullets)
      ensures forall k :: 0 <= k < |asteroids| ==> asteroids[k] in old(asteroids) || fresh(asteroids[k])
      ensures PassFacts(old(asteroids), old(MarkSeq(asteroids)), shots0, hits, bullets,
                        asteroids, MarkSeq(asteroids), ShotMarks(bullets), score - score0, extraGuy - extra0)
      ensures MarkedShots(bullets) == old(MarkedShots(bullets)) + BulletsHit(hits)
      ensures |rows| == |bullets| && ShotPaths(bullets) == old(ShotPaths(bullets))
      ensures Volleyed(|old(asteroids)|, spins0, bullets, ShotPaths(bullets), rows, hits, asteroids, overlap)
      ensures Unborn(asteroids, |old(asteroids)|)
      ensures Placed(rows, asteroids)
      ensures SpinsFrom(spins0, Flatten(rows), asteroids, RotSeq(asteroids))
    {
      ghost var origin, marks0, dead0 := asteroids, MarkSeq(asteroids), MarkedShots(bullets);
      ghost var shotPaths := ShotPaths(bullets);
      MarkedShotsAt(bullets);
      PassStart(origin, marks0, bullets, shots0);
      VolleyedStart(|origin|, spins0, bullets, shotPaths, asteroids, overlap);
      SpinsStart(spins0, [], asteroids, RotSeq(asteroids));
      hits, rows := Rows(overlap, origin, marks0, shots0, score0, extra0, spins0, shotPaths);
      MarkedShotsAt(bullets);
      ShotsDead(bullets, shots0, dead0, hits, ShotMarks(bullets), MarkedShots(bullets));
    }

    /** The loop of `BulletPass`: the rows of all bullets, in list order. */
    method Rows(overlap: (Path, Path) -> bool, ghost origin: seq<Asteroid>, ghost marks0: seq<bool>, ghost shots0: seq<bool>,
                ghost score0: int, ghost extra0: int, ghost spins0: seq<real>, ghost shotPaths: seq<Path>)
      returns (ghost hits: seq<Strike>, ghost rows: seq<seq<Trial>>)
      requires Passing(overlap, origin, marks0, shots0, score0, extra0, spins0, shotPaths, [], [], 0)
      modifies this`asteroids, this`score, this`extraGuy, ui`scoreText, rand`used
      modifies bullets`isMarkedForDeath, bullets`rotation, asteroids`isMarkedForDeath, asteroids`rotation
      ensures bullets == old(bullets)
      ensures forall k :: 0 <= k < |asteroids| ==> asteroids[k] in old(asteroids) || fresh(asteroids[k])
      ensures Passing(overlap, origin, marks0, shots0, score0, extra0, spins0, shotPaths, hits, rows, |bullets|)
    {
      hits, rows := [], [];
      for i := 0 to |bullets|
        invariant bullets == old(bullets)
        invariant forall k :: 0 <= k < |asteroids| ==> asteroids[k] in old(asteroids) || fresh(asteroids[k])
        invariant Passing(overlap, origin, marks0, shots0, score0, extra0, spins0, shotPaths, hits, rows, i)
      {
        assert bullets[i] in old(bullets);
        hits, rows := Row(i, bullets[i], overlap, origin, marks0, shots0, score0, extra0, spins0, shotPaths, hits, rows);
      }
    }

    /** `Sweep` for bullet `i`, with the bookkeeping of the whole pass: its
        hits join `hits` and its row of tests joins `rows`. */
    method Row(i: nat, b: Bullet, overlap: (Path, Path) -> bool,
               ghost origin: seq<Asteroid>, ghost marks0: seq<bool>, ghost shots0: seq<bool>,
               ghost score0: int, ghost extra0: int, ghost spins0: seq<real>, ghost shotPaths: seq<Path>,
               ghost hits: seq<Strike>, ghost rows: seq<seq<Trial>>)
      returns (ghost hits': seq<Strike>, ghost rows': seq<seq<Trial>>)
      requires i < |bullets| && bullets[i] == b
      requires Passing(overlap, origin, marks0, shots0, score0, extra0, spins0, shotPaths, hits, rows, i)
      modifies this`asteroids, this`score, this`extraGuy, ui`scoreText, rand`used
      modifies b`isMarkedForDeath, b`rotation, asteroids`isMarkedForDeath, asteroids`rotation
      ensures bullets == old(bullets)
      ensures forall k :: 0 <= k < |asteroids| ==> asteroids[k] in old(asteroids) || fresh(asteroids[k])
      ensures Passing(overlap, origin, marks0, shots0, score0, extra0, spins0, shotPaths, hits', rows', i + 1)
    {
      ghost var row, mrow, srow, spinsRow := asteroids, MarkSeq(asteroids), ShotMarks(bullets), RotSeq(asteroids);
      ShotPathsAt(bullets);
      var found, more := Shot(i, b, overlap, |origin|);
      hits', rows' := hits + found, rows + [more];
      RowDone(i, b, overlap, origin, marks0, shots0, score0, extra0, spins0, shotPaths, hits, rows,
              row, mrow, srow, old(score), old(extraGuy), old(b.isMarkedForDeath), spinsRow, found, more,
              Path(BulletModel, b.location, b.rotation));
    }

    /** A finished row of bullet `i` (the list went from `row` to the
        current one, its marks from `mrow`, the bullets' marks from `srow`,
        the score and the accumulator from `scoreRow` and `extraRow`, the
        rotations from `spinsRow`) extends where the pass stands by its hits
        and its tests. */
    lemma RowDone(i: nat, b: Bullet, overlap: (Path, Path) -> bool,
                  origin: seq<Asteroid>, marks0: seq<bool>, shots0: seq<bool>,
                  score0: int, extra0: int, spins0: seq<real>, shotPaths: seq<Path>,
                  hits: seq<Strike>, rows: seq<seq<Trial>>,
                  row: seq<Asteroid>, mrow: seq<bool>, srow: seq<bool>, scoreRow: int, extraRow: int, bm0: bool,
                  spinsRow: seq<real>, found: seq<Strike>, more: seq<Trial>, shot: Path)
      requires i < |bullets| == |srow| && bullets[i] == b
      requires PassAt(overlap, origin, marks0, shots0, spins0, shotPaths, hits, rows, i, bullets,
                      row, mrow, srow, spinsRow, scoreRow - score0, extraRow - extra0)
      requires Placed(rows, row)
      requires ShotPaths(bullets) == shotPaths && shot == shotPaths[i]
      requires Sweeping(b, overlap, row, mrow, scoreRow, extraRow, bm0, shot, spinsRow, found, more, |asteroids|)
      requires srow[i] == bm0 && ShotMarks(bullets) == srow[i := b.isMarkedForDeath]
      requires Unborn(asteroids, |origin|)
      ensures Passing(overlap, origin, marks0, shots0, score0, extra0, spins0, shotPaths, hits + found, rows + [more], i + 1)
    {
      RowCounted(i, b, overlap, origin, marks0, shots0, score0, extra0, hits, row, mrow, srow, scoreRow, extraRow, bm0,
                 shot, spinsRow, found, more);
      RowTestsDone(i, b, overlap, origin, spins0, shotPaths, hits, rows, row, spinsRow, found, more);
    }

    /** `RowDone` for the hits, the marks, the score and the list. */
    lemma RowCounted(i: nat, b: Bullet, overlap: (Path, Path) -> bool,
                     origin: seq<Asteroid>, marks0: seq<bool>, shots0: seq<bool>, score0: int, extra0: int,
                     hits: seq<Strike>, row: seq<Asteroid>, mrow: seq<bool>, srow: seq<bool>,
                     scoreRow: int, extraRow: int, bm0: bool, shot: Path,
                     spinsRow: seq<real>, found: seq<Strike>, more: seq<Trial>)
      requires i < |bullets| == |srow| && bullets[i] == b
      requires PassFacts(origin, marks0, shots0, hits, bullets, row, mrow, srow, scoreRow - score0, extraRow - extra0)
      requires Sweeping(b, overlap, row, mrow, scoreRow, extraRow, bm0, shot, spinsRow, found, more, |asteroids|)
      requires srow[i] == bm0 && ShotMarks(bullets) == srow[i := b.isMarkedForDeath]
      ensures PassFacts(origin, marks0, shots0, hits + found, bullets, asteroids, MarkSeq(asteroids), ShotMarks(bullets),
                        score - score0, extraGuy - extra0)
    {
      RowStep(origin, marks0, shots0, hits, bullets, row, mrow, srow, scoreRow - score0, extraRow - extra0,
              i, found, asteroids, MarkSeq(asteroids), ShotMarks(bullets),
              score - scoreRow, extraGuy - extraRow, bm0, b.isMarkedForDeath, score - score0, extraGuy - extra0);
    }

    /** `RowDone` for the tests and the rotations. */
    lemma RowTestsDone(i: nat, b: Bullet, overlap: (Path, Path) -> bool, origin: seq<Asteroid>,
                    spins0: seq<real>, shotPaths: seq<Path>, hits: seq<Strike>, rows: seq<seq<Trial>>,
                    row: seq<Asteroid>, spinsRow: seq<real>, found: seq<Strike>, more: seq<Trial>)
      requires i < |bullets| && bullets[i] == b && |rows| == i && |bullets| == |shotPaths|
      requires Volleyed(|origin|, spins0, bullets, shotPaths, rows, hits, row, overlap) && Placed(rows, row)
      requires |spins0| <= |row| && SpinsFrom(spins0, Flatten(rows), row, spinsRow)
      requires forall t :: t in Flatten(rows) ==> t.rock in row
      requires Valid() && RowTrials(b, shotPaths[i], row, spinsRow, more, found, asteroids, overlap)
      requires RowSpins(spinsRow, more, asteroids, RotSeq(asteroids)) && |more| == |asteroids|
      requires |asteroids| == |origin| + TotalFragments(hits + found)
      requires |row| <= |asteroids| && asteroids[..|row|] == row
      ensures Volleyed(|origin|, spins0, bullets, shotPaths, rows + [more], hits + found, asteroids, overlap)
      ensures Placed(rows + [more], asteroids)
      ensures SpinsFrom(spins0, Flatten(rows + [more]), asteroids, RotSeq(asteroids))
      ensures forall t :: t in Flatten(rows + [more]) ==> t.rock in asteroids
    {
      VolleyedStep(|origin|, spins0, bullets, shotPaths, rows, hits, row, spinsRow, more, found, asteroids,
                   RotSeq(asteroids), overlap);
    }

    /** `Sweep`, with what it leaves alone: the asteroids it started from
        do not move, and no bullet moves or turns. */
    method SweepKept(b: Bullet, overlap: (Path, Path) -> bool, ghost n: nat) returns (ghost found: seq<Strike>, ghost trials: seq<Trial>)
      requires Valid() && b in bullets && n <= |asteroids| && Unborn(asteroids, n)
      modifies this`asteroids, this`score, this`extraGuy, ui`scoreText, rand`used
      modifies b`isMarkedForDeath, b`rotation, asteroids`isMarkedForDeath, asteroids`rotation
      ensures bullets == old(bullets) && b.rotation == old(b.rotation)
      ensures forall x :: x in asteroids ==> x in old(asteroids) || fresh(x)
      ensures Unborn(asteroids, n)
      ensures Sweeping(b, overlap, old(asteroids), old(MarkSeq(asteroids)), old(score), old(extraGuy), old(b.isMarkedForDeath),
                       Path(BulletModel, b.location, b.rotation), old(RotSeq(asteroids)), found, trials, |asteroids|)
      ensures forall x :: x in old(asteroids) ==> x.location == old(x.location)
      ensures ShotPaths(bullets) == old(ShotPaths(bullets))
      ensures forall x :: x in bullets && x != b ==> x.isMarkedForDeath == old(x.isMarkedForDeath)
    {
      found, trials := Sweep(b, overlap, n);
      ShotPathsKept(bullets);
    }

    /** `Sweep` for bullet `i`, with its effect on the bullets' marks stated
        as an update of the mark sequence at `i`. */
    method Shot(i: nat, b: Bullet, overlap: (Path, Path) -> bool, ghost n: nat)
      returns (ghost found: seq<Strike>, ghost trials: seq<Trial>)
      requires Valid() && i < |bullets| && bullets[i] == b && n <= |asteroids| && Unborn(asteroids, n)
      modifies this`asteroids, this`score, this`extraGuy, ui`scoreText, rand`used
      modifies b`isMarkedForDeath, b`rotation, asteroids`isMarkedForDeath, asteroids`rotation
      ensures bullets == old(bullets) && b.rotation == old(b.rotation)
      ensures forall k :: 0 <= k < |asteroids| ==> asteroids[k] in old(asteroids) || fresh(asteroids[k])
      ensures Unborn(asteroids, n)
      ensures Sweeping(b, overlap, old(asteroids), old(MarkSeq(asteroids)), old(score), old(extraGuy), old(b.isMarkedForDeath),
                       Path(BulletModel, b.location, b.rotation), old(RotSeq(asteroids)), found, trials, |asteroids|)
      ensures forall x :: x in old(asteroids) ==> x.location == old(x.location)
      ensures ShotPaths(bullets) == old(ShotPaths(bullets))
      ensures old(ShotMarks(bullets))[i] == old(b.isMarkedForDeath)
      ensures ShotMarks(bullets) == old(ShotMarks(bullets))[i := b.isMarkedForDeath]
    {
      ghost var srow := ShotMarks(bullets);
      assert forall k :: 0 <= k < |bullets| ==> srow[k] == bullets[k].isMarkedForDeath by {
        ShotMarksAt(bullets);
      }
      assert b in bullets;
      found, trials := SweepKept(b, overlap, n);
      ShotMarksAt(bullets);
      DistinctAt(bullets, i);
      SeqUpdateAt(ShotMarks(bullets), srow, i, b.isMarkedForDeath);
    }

    /** Where the player pass stands after its first `i` tests, for the ship
        `ship` and the asteroids seen as `sights` when it began: the tests are
        recorded as `Sightings` says, the ship is turned as `Facing` says and
        the asteroids as `Swung` says. */
    ghost predicate Scanning(ship: Pose, sights: seq<Sight>, hits: seq<bool>, views: seq<(Path, Path)>,
                             overlap: (Path, Path) -> bool, i: nat)
      reads this`asteroids, player, asteroids`rotation
    {
      && |hits| == i <= |asteroids| == |sights|
      && PoseOf(player) == Facing(ship, sights, i)
      && Sightings(ship, asteroids, sights, hits, views, overlap)
      && Swung(ship, sights, i, RotSeq(asteroids))
    }

    /** The player pass: the ship is tested against every asteroid in list
        order. The ghost results say, per asteroid, whether the ship hit it
        and which two outlines were compared, as `Sightings` says of the ship
        and the asteroids as the pass began; `ShipFacts` says what the hits
        did to the lives, the marks and the game; the ship ends up turned
        once per asteroid it reached and each asteroid once if the ship
        reached it. */
    method PlayerPass(overlap: (Path, Path) -> bool) returns (reported: Option<int>, ghost hits: seq<bool>, ghost views: seq<(Path, Path)>)
      requires Valid()
      modifies this`lives, this`gameRunning, ui`lives, player`rotation, asteroids`isMarkedForDeath, asteroids`rotation
      ensures Valid() && asteroids == old(asteroids)
      ensures ShipFacts(old(lives), old(gameRunning), score, old(MarkSeq(asteroids)), hits,
                        lives, gameRunning, reported, MarkSeq(asteroids))
      ensures |hits| == |asteroids|
      ensures Sightings(old(PoseOf(player)), asteroids, old(SightSeq(asteroids)), hits, views, overlap)
      ensures PoseOf(player) == Facing(old(PoseOf(player)), old(SightSeq(asteroids)), |asteroids|)
      ensures Swung(old(PoseOf(player)), old(SightSeq(asteroids)), |asteroids|, RotSeq(asteroids))
    {
      ghost var lives0, running0, marks0 := lives, gameRunning, MarkSeq(asteroids);
      ghost var ship, sights := PoseOf(player), SightSeq(asteroids);
      SightAt(asteroids);
      RotSeqAt(asteroids);
      SwungStart(ship, sights, RotSeq(asteroids));
      ShipStart(lives0, running0, score, marks0);
      reported, hits, views := Scan(overlap, ship, sights, lives0, running0, marks0);
    }

    /** The loop of the player pass: one Collide per asteroid, in list order. */
    method Scan(overlap: (Path, Path) -> bool, ghost ship: Pose, ghost sights: seq<Sight>,
                ghost lives0: int, ghost running0: bool, ghost marks0: seq<bool>)
      returns (reported: Option<int>, ghost hits: seq<bool>, ghost views: seq<(Path, Path)>)
      requires Valid() && |sights| == |asteroids|
      requires forall k :: 0 <= k < |asteroids| ==> sights[k] == SightOf(asteroids[k])
      requires ShipFacts(lives0, running0, score, marks0, [], lives, gameRunning, None, MarkSeq(asteroids))
      requires Scanning(ship, sights, [], [], overlap, 0)
      modifies this`lives, this`gameRunning, ui`lives, player`rotation, asteroids`isMarkedForDeath, asteroids`rotation
      ensures Valid() && asteroids == old(asteroids)
      ensures ShipFacts(lives0, running0, score, marks0, hits, lives, gameRunning, reported, MarkSeq(asteroids))
      ensures Scanning(ship, sights, hits, views, overlap, |asteroids|)
    {
      reported, hits, views := None, [], [];
      for i := 0 to |asteroids|
        invariant Valid() && asteroids == old(asteroids)
        invariant forall k :: 0 <= k < |asteroids| ==> sights[k] == old(SightOf(asteroids[k]))
        invariant ShipFacts(lives0, running0, score, marks0, hits, lives, gameRunning, reported, MarkSeq(asteroids))
        invariant Scanning(ship, sights, hits, views, overlap, i)
      {
        var hit;
        ghost var view;
        assert asteroids[i].fadingIn == old(asteroids[i].fadingIn) && asteroids[i].location == old(asteroids[i].location);
        reported, hit, view := Collide(i, asteroids[i], overlap, ship, sights, lives0, running0, marks0, hits, views, reported);
        hits, views := hits + [hit], views + [view];
      }
    }

    /** The test of entry `i` of the player pass, with the bookkeeping of the pass. */
    method Collide(i: nat, a: Asteroid, overlap: (Path, Path) -> bool, ghost ship: Pose, ghost sights: seq<Sight>,
                   ghost lives0: int, ghost running0: bool, ghost marks0: seq<bool>, ghost hits: seq<bool>,
                   ghost views: seq<(Path, Path)>, reported: Option<int>)
      returns (reported': Option<int>, hit: bool, ghost view: (Path, Path))
      requires Valid() && i < |asteroids| && asteroids[i] == a
      requires Scanning(ship, sights, hits, views, overlap, i)
      requires a.IsAlive() == sights[i].alive && a.location == sights[i].at && a.radius == sights[i].radius
      requires a.rotationDelta == sights[i].delta
      requires ShipFacts(lives0, running0, score, marks0, hits, lives, gameRunning, reported, MarkSeq(asteroids))
      modifies this`lives, this`gameRunning, ui`lives, player`rotation, a`isMarkedForDeath, a`rotation
      ensures Valid()
      ensures ShipFacts(lives0, running0, score, marks0, hits + [hit], lives, gameRunning, reported', MarkSeq(asteroids))
      ensures Scanning(ship, sights, hits + [hit], views + [view], overlap, i + 1)
    {
      hit, view := Look(i, a, overlap, ship, sights, hits, views);
      reported' := Crash(i, a, hit, ship, sights, lives0, running0, marks0, hits, views + [view], overlap, reported);
    }

    /** What the outcome `hit` of test `i` of the player pass does, with the
        bookkeeping of the pass. */
    method Crash(i: nat, a: Asteroid, hit: bool, ghost ship: Pose, ghost sights: seq<Sight>,
                 ghost lives0: int, ghost running0: bool, ghost marks0: seq<bool>, ghost hits: seq<bool>,
                 ghost views: seq<(Path, Path)>, ghost overlap: (Path, Path) -> bool, reported: Option<int>)
      returns (reported': Option<int>)
      requires Valid() && i < |asteroids| && asteroids[i] == a
      requires ShipFacts(lives0, running0, score, marks0, hits, lives, gameRunning, reported, MarkSeq(asteroids))
      requires Scanning(ship, sights, hits + [hit], views, overlap, i + 1)
      modifies this`lives, this`gameRunning, ui`lives, a`isMarkedForDeath
      ensures Valid()
      ensures ShipFacts(lives0, running0, score, marks0, hits + [hit], lives, gameRunning, reported', MarkSeq(asteroids))
      ensures Scanning(ship, sights, hits + [hit], views, overlap, i + 1)
    {
      ghost var lives1, running1, marks1 := lives, gameRunning, MarkSeq(asteroids);
      reported' := reported;
      if hit {
        var lost := LoseLife(a, i);
        if lost.Some? {
          reported' := lost;
        }
      }
      ShipStep(lives0, running0, score, marks0, hits, lives1, running1, reported, marks1,
               hit, lives, gameRunning, reported', MarkSeq(asteroids));
    }

    /** `Contact` for entry `i` of the player pass, recorded in `Sightings`:
        the ship and the asteroid turn exactly when the ship reaches it. */
    method Look(i: nat, a: Asteroid, overlap: (Path, Path) -> bool, ghost ship: Pose, ghost sights: seq<Sight>,
                ghost hits: seq<bool>, ghost views: seq<(Path, Path)>)
      returns (hit: bool, ghost view: (Path, Path))
      requires Valid() && i < |asteroids| && asteroids[i] == a
      requires Scanning(ship, sights, hits, views, overlap, i)
      requires a.IsAlive() == sights[i].alive && a.location == sights[i].at && a.radius == sights[i].radius
      requires a.rotationDelta == sights[i].delta
      modifies player`rotation, a`rotation
      ensures Valid()
      ensures Scanning(ship, sights, hits + [hit], views + [view], overlap, i + 1)
    {
      ghost var rots := RotSeq(asteroids);
      RotSeqAt(asteroids);
      hit, view := Contact(player, a, overlap);
      FacingStep(ship, sights, i);
      SightingsStep(ship, asteroids, sights, hits, views, overlap, hit, view);
      RotSeqAt(asteroids);
      DistinctAt(asteroids, i);
      SeqUpdateAt(RotSeq(asteroids), rots, i, a.rotation);
      SwungStep(ship, sights, i, rots, a.rotation);
    }

    /** The ship-asteroid hit test: for a living asteroid whose centre is
        within the two radii of the ship's, both outlines are taken (turning
        each by its rotation delta) and the oracle decides. */
    static method Contact(ship: Player, a: Asteroid, overlap: (Path, Path) -> bool) returns (hit: bool, ghost view: (Path, Path))
      modifies ship`rotation, a`rotation
      ensures view == (Path(ShipModel, ship.location, old(ship.rotation)), Path(Rock(a), a.location, old(a.rotation)))
      ensures hit == (a.IsAlive() && Near(ship.location, ship.radius, a.location, a.radius) && overlap(view.0, view.1))
      ensures a.IsAlive() && Near(ship.location, ship.radius, a.location, a.radius) ==>
        ship.rotation == Turned(old(ship.rotation), ship.rotationDelta, 1) && a.rotation == Turned(old(a.rotation), a.rotationDelta, 1)
      ensures !(a.IsAlive() && Near(ship.location, ship.radius, a.location, a.radius)) ==>
        ship.rotation == old(ship.rotation) && a.rotation == old(a.rotation)
    {
      hit := false;
      view := (Path(ShipModel, ship.location, ship.rotation), Path(Rock(a), a.location, a.rotation));
      if a.IsAlive() && Near(ship.location, ship.radius, a.location, a.radius) {
        var outline := ship.GetPath();
        var rock := a.GetPath();
        hit := overlap(outline, rock);
      }
    }

    /** What a ship-asteroid hit does: one life less (shown on the overlay),
        the asteroid marked for removal, and when that was the last life the
        game stops and the score is reported. */
    method LoseLife(a: Asteroid, i: nat) returns (lost: Option<int>)
      requires Valid() && i < |asteroids| && asteroids[i] == a
      modifies this`lives, this`gameRunning, ui`lives, a`isMarkedForDeath
      ensures Valid()
      ensures lives == old(lives) - 1 && gameRunning == (old(gameRunning) && lives != 0)
      ensures lost == if lives == 0 then Some(score) else None
      ensures MarkSeq(asteroids) == old(MarkSeq(asteroids))[i := true]
      ensures asteroids == old(asteroids) && PoseOf(player) == old(PoseOf(player)) && RotSeq(asteroids) == old(RotSeq(asteroids))
    {
      lives := lives - 1;
      ui.lives := lives;
      MarkRock(a, i);
      lost := None;
      if lives == 0 {
        gameRunning := false;
        lost := Some(score);
      }
    }

    /** Removes every marked asteroid, keeping the others in order
        (`RocksPruned` and `WithoutKeepsOrder` say what survives). */
    method PruneAsteroids()
      requires Valid()
      modifies this`asteroids
      ensures Valid() && bullets == old(bullets)
      ensures asteroids == Without(old(asteroids), MarkedRocks(old(asteroids)))
    {
      var survivors := Without(asteroids, MarkedRocks(asteroids));
      RocksPruned(asteroids);
      AllValidWithout(asteroids, MarkedRocks(asteroids));
      asteroids := survivors;
    }

    /** Removes every marked bullet, keeping the others in order
        (`ShotsPruned` and `WithoutKeepsOrder` say what survives). */
    method PruneBullets()
      requires Valid()
      modifies this`bullets
      ensures Valid() && asteroids == old(asteroids)
      ensures bullets == Without(old(bullets), MarkedShots(old(bullets)))
    {
      var survivors := Without(bullets, MarkedShots(bullets));
      ShotsPruned(bullets);
      bullets := survivors;
    }

    /** The bullets' update step: each bullet flies one frame and is marked
        once it has left the playfield. */
    method TickBullets(s: Size, trig: Trig)
      requires Distinct(bullets)
      modifies bullets`location, bullets`isMarkedForDeath
      ensures forall k :: 0 <= k < |bullets| ==>
        Flew(bullets[k], old(bullets[k].location), old(bullets[k].isMarkedForDeath), s, trig)
    {
      DistinctPairs(bullets);
      for i := 0 to |bullets|
        invariant forall k :: 0 <= k < i ==>
          Flew(bullets[k], old(bullets[k].location), old(bullets[k].isMarkedForDeath), s, trig)
        invariant forall k :: i <= k < |bullets| ==>
          bullets[k].location == old(bullets[k].location) && bullets[k].isMarkedForDeath == old(bullets[k].isMarkedForDeath)
      {
        bullets[i].Tick(s, trig);
      }
    }

    /** The asteroids' update step: each asteroid drifts one frame and its
        fade state makes one step. */
    method TickAsteroids(s: Size)
      requires Valid()
      modifies asteroids`location, asteroids`alpha, asteroids`fadingIn, asteroids`dying, asteroids`isMarkedForDeath, asteroids`baseColor
      ensures Valid()
      ensures forall k :: 0 <= k < |asteroids| ==>
        Drifted(asteroids[k], old(asteroids[k].location), old(asteroids[k].Lifecycle()), s)
    {
      AllValidPointwise(asteroids);
      TickRocks(s);
      AllValidPointwise(asteroids);
    }

    /** The loop of `TickAsteroids`, over asteroids that are each in a reachable fade state. */
    method TickRocks(s: Size)
      requires Distinct(asteroids) && forall k :: 0 <= k < |asteroids| ==> asteroids[k].Valid()
      modifies asteroids`location, asteroids`alpha, asteroids`fadingIn, asteroids`dying, asteroids`isMarkedForDeath, asteroids`baseColor
      ensures forall k :: 0 <= k < |asteroids| ==> asteroids[k].Valid()
      ensures forall k :: 0 <= k < |asteroids| ==>
        Drifted(asteroids[k], old(asteroids[k].location), old(asteroids[k].Lifecycle()), s)
    {
      for i := 0 to |asteroids|
        invariant forall k :: 0 <= k < i ==>
          asteroids[k].Valid() && Drifted(asteroids[k], old(asteroids[k].location), old(asteroids[k].Lifecycle()), s)
        invariant forall k :: i <= k < |asteroids| ==>
          && asteroids[k].Valid() && asteroids[k].location == old(asteroids[k].location)
          && asteroids[k].Lifecycle() == old(asteroids[k].Lifecycle())
      {
        DistinctAt(asteroids, i);
        asteroids[i].Tick(s);
      }
    }

    /** The drawing step: the outline of the ship and of every asteroid is
        taken once, which turns each by its rotation delta. */
    method Draw()
      requires Distinct(asteroids)
      modifies player`rotation, asteroids`rotation
      ensures player.rotation == Turned(old(player.rotation), player.rotationDelta, 1)
      ensures forall k :: 0 <= k < |asteroids| ==>
        asteroids[k].rotation == Turned(old(asteroids[k].rotation), asteroids[k].rotationDelta, 1)
    {
      var outline := player.GetPath();
      DistinctPairs(asteroids);
      for i := 0 to |asteroids|
        invariant player.rotation == Turned(old(player.rotation), player.rotationDelta, 1)
        invariant forall k :: 0 <= k < i ==>
          asteroids[k].rotation == Turned(old(asteroids[k].rotation), asteroids[k].rotationDelta, 1)
        invariant forall k :: i <= k < |asteroids| ==> asteroids[k].rotation == old(asteroids[k].rotation)
      {
        var rock := asteroids[i].GetPath();
      }
    }

    /** The start of a frame: a new large asteroid at `spawnAt` when there
        are fewer asteroids than the difficulty. */
    method Replenish(spawnAt: Point)
      requires Valid()
      modifies this`asteroids, rand`used
      ensures Valid()
      ensures |asteroids| == |old(asteroids)| + (if |old(asteroids)| < difficulty then 1 else 0)
      ensures asteroids[..|old(asteroids)|] == old(asteroids)
      ensures |old(asteroids)| < difficulty ==>
        fresh(asteroids[|old(asteroids)|]) && asteroids[|old(asteroids)|].location == spawnAt && asteroids[|old(asteroids)|].size == Large
      ensures MarkSeq(asteroids) == old(MarkSeq(asteroids)) + (if |old(asteroids)| < difficulty then [false] else [])
      ensures RotSeq(asteroids) == old(RotSeq(asteroids)) + Unturned(|asteroids| - |old(asteroids)|)
      ensures forall k :: 0 <= k < |asteroids| ==> asteroids[k] in old(asteroids) || fresh(asteroids[k])
      ensures Unborn(asteroids, |old(asteroids)|)
    {
      if |asteroids| < difficulty {
        var rock := Spawn(spawnAt, Large);
      } else {
        assert MarkSeq(asteroids) + [] == MarkSeq(asteroids);
        assert RotSeq(asteroids) + Unturned(0) == RotSeq(asteroids);
      }
    }

    /** The player pass, after a bullet pass that left the marks accounted
        for by `MarksFrom`: afterwards the marked asteroids are the doomed
        ones. */
    method CrashPass(overlap: (Path, Path) -> bool, ghost old0: seq<bool>, ghost origin: seq<Asteroid>,
                     ghost marks0: seq<bool>, ghost hits: seq<Strike>, ghost start: Start, ghost rows: seq<seq<Trial>>,
                     ghost lives0: int, ghost running0: bool, ghost n0: nat, ghost spins0: seq<real>, ghost shotPaths: seq<Path>)
      returns (reported: Option<int>, ghost crashes: seq<bool>, ghost sights: seq<Sight>, ghost views: seq<(Path, Path)>)
      requires Valid() && MarksFrom(origin, marks0, hits, asteroids, MarkSeq(asteroids))
      requires |old0| <= |marks0| && marks0[..|old0|] == old0 && forall k :: |old0| <= k < |marks0| ==> !marks0[k]
      requires start.shots == bullets && start.ship == PoseOf(player) && lives == lives0 && gameRunning == running0
      requires start.n0 == n0 && start.spins == spins0 && start.shotPaths == shotPaths
      requires Volleyed(n0, spins0, bullets, shotPaths, rows, hits, asteroids, overlap)
      requires Placed(rows, asteroids) && SpinsFrom(spins0, Flatten(rows), asteroids, RotSeq(asteroids))
      requires Seated(start.seen, SightSeq(asteroids))
      modifies this`lives, this`gameRunning, ui`lives, player`rotation, asteroids`isMarkedForDeath, asteroids`rotation
      ensures Valid() && asteroids == old(asteroids) && bullets == old(bullets)
      ensures score == old(score) && extraGuy == old(extraGuy) && MarkedShots(bullets) == old(MarkedShots(bullets))
      ensures |crashes| == |asteroids| && lives == lives0 - Count(crashes)
      ensures gameRunning == (running0 && !(0 < lives0 <= Count(crashes)))
      ensures reported == (if 0 < lives0 <= Count(crashes) then Some(score) else None)
      ensures MarkedRocks(asteroids) == Doomed(asteroids, old0, hits, crashes)
      ensures Collided(start, rows, hits, asteroids, sights, crashes, views, overlap)
      ensures sights == old(SightSeq(asteroids))
      ensures PoseOf(player) == Facing(start.ship, sights, |asteroids|)
      ensures Swung(start.ship, sights, |asteroids|, RotSeq(asteroids))
    {
      ghost var m1 := MarkSeq(asteroids);
      sights := SightSeq(asteroids);
      SightsFrom(rows, spins0, asteroids, sights);
      SightAt(asteroids);
      reported, crashes, views := PlayerPass(overlap);
      MarkedRocksAt(asteroids);
      DoomedMarks(old0, origin, marks0, hits, asteroids, m1, crashes, MarkedRocks(asteroids));
    }

    /** What the collision passes of a frame start from, when the spawn
        check adds an asteroid to a list shorter than `d`. */
    ghost function Outset(d: int): (r: Start)
      reads this`asteroids, this`bullets, asteroids, bullets, player
      ensures r.n0 == |asteroids| + (if |asteroids| < d then 1 else 0) && r.shots == bullets
      ensures |r.spins| == |asteroids| && |r.seen| == |asteroids| && |r.shotPaths| == |bullets|
    {
      Start(|asteroids| + (if |asteroids| < d then 1 else 0), RotSeq(asteroids), SightSeq(asteroids), bullets,
            ShotPaths(bullets), PoseOf(player))
    }

    /** One frame while the game runs: the spawn check and the collision
        passes (`Engage`), the removal of every marked asteroid and bullet
        (`Purge`), then the update and drawing steps (`Advance`). The
        asteroids left are those the passes saw (`tested`) minus the doomed
        ones, and the bullets left are those the frame began with minus the
        ones already marked and the ones that hit, both in their order. */
    method Render(s: Size, spawnAt: Point, overlap: (Path, Path) -> bool, trig: Trig)
      returns (reported: Option<int>, ghost hits: seq<Strike>, ghost tested: seq<Asteroid>, ghost crashes: seq<bool>,
               ghost rows: seq<seq<Trial>>, ghost sights: seq<Sight>, ghost views: seq<(Path, Path)>)
      requires Valid()
      modifies this`asteroids, this`bullets, this`score, this`extraGuy, this`lives, this`gameRunning
      modifies ui, rand, player, asteroids, bullets
      ensures Valid()
      ensures |tested| == |old(asteroids)| + (if |old(asteroids)| < difficulty then 1 else 0) + TotalFragments(hits)
      ensures tested[..|old(asteroids)|] == old(asteroids)
      ensures score == old(score) + TotalPoints(hits) && extraGuy == old(extraGuy) + TotalPoints(hits)
      ensures |crashes| == |tested| && lives == old(lives) - Count(crashes)
      ensures gameRunning == (old(gameRunning) && !(0 < old(lives) <= Count(crashes)))
      ensures reported == (if 0 < old(lives) <= Count(crashes) then Some(score) else None)
      ensures asteroids == Without(tested, Doomed(tested, old(MarkSeq(asteroids)), hits, crashes))
      ensures bullets == Without(old(bullets), old(MarkedShots(bullets)) + BulletsHit(hits))
      ensures Collided(old(Outset(difficulty)), rows, hits, tested, sights, crashes, views, overlap)
    {
      reported, hits, tested, crashes, rows, sights, views := Resolve(spawnAt, overlap);
      Advance(s, trig);
    }

    /** The collision part of a frame (`Engage`) and the removal of what it
        marked (`Purge`). */
    method Resolve(spawnAt: Point, overlap: (Path, Path) -> bool)
      returns (reported: Option<int>, ghost hits: seq<Strike>, ghost tested: seq<Asteroid>, ghost crashes: seq<bool>,
               ghost rows: seq<seq<Trial>>, ghost sights: seq<Sight>, ghost views: seq<(Path, Path)>)
      requires Valid()
      modifies this`asteroids, this`bullets, this`score, this`extraGuy, this`lives, this`gameRunning
      modifies ui`scoreText, ui`lives, rand`used, player`rotation
      modifies bullets`isMarkedForDeath, bullets`rotation, asteroids`isMarkedForDeath, asteroids`rotation
      ensures Valid()
      ensures forall k :: 0 <= k < |asteroids| ==> asteroids[k] in old(asteroids) || fresh(asteroids[k])
      ensures forall k :: 0 <= k < |bullets| ==> bullets[k] in old(bullets)
      ensures |tested| == |old(asteroids)| + (if |old(asteroids)| < difficulty then 1 else 0) + TotalFragments(hits)
      ensures tested[..|old(asteroids)|] == old(asteroids)
      ensures score == old(score) + TotalPoints(hits) && extraGuy == old(extraGuy) + TotalPoints(hits)
      ensures |crashes| == |tested| && lives == old(lives) - Count(crashes)
      ensures gameRunning == (old(gameRunning) && !(0 < old(lives) <= Count(crashes)))
      ensures reported == (if 0 < old(lives) <= Count(crashes) then Some(score) else None)
      ensures asteroids == Without(tested, Doomed(tested, old(MarkSeq(asteroids)), hits, crashes))
      ensures bullets == Without(old(bullets), old(MarkedShots(bullets)) + BulletsHit(hits))
      ensures Collided(old(Outset(difficulty)), rows, hits, tested, sights, crashes, views, overlap)
    {
      reported, hits, crashes, rows, sights, views := Engage(spawnAt, overlap);
      tested := asteroids;
      Purge();
    }

    /** The spawn check and both collision passes of a frame: the score and
        the accumulator grow by what the accepted pairs split off, each crash
        costs a life, and afterwards the marked asteroids are the doomed ones
        and the marked bullets are those marked before and those that hit. */
    method Engage(spawnAt: Point, overlap: (Path, Path) -> bool)
      returns (reported: Option<int>, ghost hits: seq<Strike>, ghost crashes: seq<bool>,
               ghost rows: seq<seq<Trial>>, ghost sights: seq<Sight>, ghost views: seq<(Path, Path)>)
      requires Valid()
      modifies this`asteroids, this`score, this`extraGuy, this`lives, this`gameRunning
      modifies ui`scoreText, ui`lives, rand`used, player`rotation
      modifies bullets`isMarkedForDeath, bullets`rotation, asteroids`isMarkedForDeath, asteroids`rotation
      ensures Valid() && bullets == old(bullets)
      ensures forall k :: 0 <= k < |asteroids| ==> asteroids[k] in old(asteroids) || fresh(asteroids[k])
      ensures |asteroids| == |old(asteroids)| + (if |old(asteroids)| < difficulty then 1 else 0) + TotalFragments(hits)
      ensures asteroids[..|old(asteroids)|] == old(asteroids)
      ensures score == old(score) + TotalPoints(hits) && extraGuy == old(extraGuy) + TotalPoints(hits)
      ensures |crashes| == |asteroids| && lives == old(lives) - Count(crashes)
      ensures gameRunning == (old(gameRunning) && !(0 < old(lives) <= Count(crashes)))
      ensures reported == (if 0 < old(lives) <= Count(crashes) then Some(score) else None)
      ensures MarkedRocks(asteroids) == Doomed(asteroids, old(MarkSeq(asteroids)), hits, crashes)
      ensures MarkedShots(bullets) == old(MarkedShots(bullets)) + BulletsHit(hits)
      ensures Collided(old(Outset(difficulty)), rows, hits, asteroids, sights, crashes, views, overlap)
      ensures PoseOf(player) == Facing(old(PoseOf(player)), sights, |asteroids|)
      ensures Swung(old(PoseOf(player)), sights, |asteroids|, RotSeq(asteroids))
    {
      ghost var spawned, marks0;
      ghost var start := Outset(difficulty);
      SightAt(asteroids);
      hits, spawned, marks0, rows := Volley(spawnAt, overlap);
      Reseated(start.seen, old(asteroids), asteroids);
      reported, crashes, sights, views := CrashPass(overlap, old(MarkSeq(asteroids)), spawned, marks0, hits, start, rows,
                                                    old(lives), old(gameRunning), |spawned|, old(RotSeq(asteroids)),
                                                    old(ShotPaths(bullets)));
    }

    /** The spawn check, then the bullet pass over the list it left
        (`spawned`, whose marks are `marks0`: those of the list before the
        check and, for a spawned asteroid, one unmarked entry). The pass's
        tests are `rows`, as `Volleyed` says, from the rotations the list
        had before the check (a spawned asteroid starts unturned). */
    method Volley(spawnAt: Point, overlap: (Path, Path) -> bool)
      returns (ghost hits: seq<Strike>, ghost spawned: seq<Asteroid>, ghost marks0: seq<bool>, ghost rows: seq<seq<Trial>>)
      requires Valid()
      modifies this`asteroids, this`score, this`extraGuy, ui`scoreText, rand`used
      modifies bullets`isMarkedForDeath, bullets`rotation, asteroids`isMarkedForDeath, asteroids`rotation
      ensures Valid() && bullets == old(bullets)
      ensures forall k :: 0 <= k < |asteroids| ==> asteroids[k] in old(asteroids) || fresh(asteroids[k])
      ensures |asteroids| == |old(asteroids)| + (if |old(asteroids)| < difficulty then 1 else 0) + TotalFragments(hits)
      ensures asteroids[..|old(asteroids)|] == old(asteroids)
      ensures score == old(score) + TotalPoints(hits) && extraGuy == old(extraGuy) + TotalPoints(hits)
      ensures MarksFrom(spawned, marks0, hits, asteroids, MarkSeq(asteroids))
      ensures |old(MarkSeq(asteroids))| <= |marks0| && marks0[..|old(MarkSeq(asteroids))|] == old(MarkSeq(asteroids))
      ensures forall k :: |old(MarkSeq(asteroids))| <= k < |marks0| ==> !marks0[k]
      ensures MarkedShots(bullets) == old(MarkedShots(bullets)) + BulletsHit(hits)
      ensures |rows| == |bullets| && |spawned| == |old(asteroids)| + (if |old(asteroids)| < difficulty then 1 else 0)
      ensures Volleyed(|spawned|, old(RotSeq(asteroids)), bullets, old(ShotPaths(bullets)), rows, hits, asteroids, overlap)
      ensures Placed(rows, asteroids) && SpinsFrom(old(RotSeq(asteroids)), Flatten(rows), asteroids, RotSeq(asteroids))
      ensures Unborn(asteroids, |old(asteroids)|)
    {
      ghost var tail: seq<bool> := if |asteroids| < difficulty then [false] else [];
      Replenish(spawnAt);
      spawned, marks0 := asteroids, MarkSeq(asteroids);
      assert MarkedShots(bullets) == old(MarkedShots(bullets));
      assert ShotPaths(bullets) == old(ShotPaths(bullets));
      label Spawned:
      hits, rows := Shoot(overlap, old(asteroids), old(MarkSeq(asteroids)), tail, old(RotSeq(asteroids)));
      forall k | 0 <= k < |asteroids|
        ensures asteroids[k] in old(asteroids) || fresh(asteroids[k])
      {
        ghost var x := asteroids[k];
        if old@Spawned(allocated(x)) {
          assert x in spawned;
        }
      }
    }

    /** The bullet pass over a list that extends `base` (whose marks are
        `marks` and whose rotations are `spins`) by the unmarked, unturned
        entries `tail`, with what it establishes restated against `base`. */
    method Shoot(overlap: (Path, Path) -> bool, ghost base: seq<Asteroid>, ghost marks: seq<bool>, ghost tail: seq<bool>,
                 ghost spins: seq<real>)
      returns (ghost hits: seq<Strike>, ghost rows: seq<seq<Trial>>)
      requires Valid()
      requires |asteroids| == |base| + |tail| && asteroids[..|base|] == base
      requires MarkSeq(asteroids) == marks + tail && forall k :: 0 <= k < |tail| ==> !tail[k]
      requires |spins| == |base| && RotSeq(asteroids) == spins + Unturned(|tail|)
      requires Unborn(asteroids, |base|)
      modifies this`asteroids, this`score, this`extraGuy, ui`scoreText, rand`used
      modifies bullets`isMarkedForDeath, bullets`rotation, asteroids`isMarkedForDeath, asteroids`rotation
      ensures Valid() && bullets == old(bullets)
      ensures forall k :: 0 <= k < |asteroids| ==> asteroids[k] in old(asteroids) || fresh(asteroids[k])
      ensures |asteroids| == |base| + |tail| + TotalFragments(hits) && asteroids[..|base|] == base
      ensures score == old(score) + TotalPoints(hits) && extraGuy == old(extraGuy) + TotalPoints(hits)
      ensures MarksFrom(old(asteroids), old(MarkSeq(asteroids)), hits, asteroids, MarkSeq(asteroids))
      ensures |marks| <= |old(MarkSeq(asteroids))| && old(MarkSeq(asteroids))[..|marks|] == marks
      ensures forall k :: |marks| <= k < |old(MarkSeq(asteroids))| ==> !old(MarkSeq(asteroids))[k]
      ensures MarkedShots(bullets) == old(MarkedShots(bullets)) + BulletsHit(hits)
      ensures |rows| == |bullets| && ShotPaths(bullets) == old(ShotPaths(bullets))
      ensures Volleyed(|old(asteroids)|, spins, bullets, ShotPaths(bullets), rows, hits, asteroids, overlap)
      ensures Unborn(asteroids, |base|)
      ensures Placed(rows, asteroids) && SpinsFrom(spins, Flatten(rows), asteroids, RotSeq(asteroids))
    {
      ghost var shots0 := ShotMarks(bullets);
      hits, rows := BulletPass(overlap, shots0, score, extraGuy, spins);
      UnbornGrow(old(asteroids), asteroids, |base|);
      PassOutcome(base, marks, tail, old(asteroids), old(MarkSeq(asteroids)), shots0, hits, bullets,
                  asteroids, MarkSeq(asteroids), ShotMarks(bullets), score - old(score), extraGuy - old(extraGuy));
    }

    /** The removal of every marked asteroid and every marked bullet. */
    method Purge()
      requires Valid()
      modifies this`asteroids, this`bullets
      ensures Valid()
      ensures asteroids == Without(old(asteroids), old(MarkedRocks(asteroids)))
      ensures bullets == Without(old(bullets), old(MarkedShots(bullets)))
      ensures forall k :: 0 <= k < |asteroids| ==> asteroids[k] in old(asteroids)
      ensures forall k :: 0 <= k < |bullets| ==> bullets[k] in old(bullets)
    {
      PruneAsteroids();
      PruneBullets();
      WithoutEntries(old(asteroids), old(MarkedRocks(asteroids)));
      WithoutEntries(old(bullets), old(MarkedShots(bullets)));
    }

    /** The update step of the overlay, the ship, the bullets and the
        asteroids, then the drawing step. */
    method Advance(s: Size, trig: Trig)
      requires Valid()
      modifies ui`location, player`location, player`xSpeed, player`ySpeed, player`rotation
      modifies bullets`location, bullets`isMarkedForDeath
      modifies asteroids`location, asteroids`alpha, asteroids`fadingIn, asteroids`dying, asteroids`isMarkedForDeath
      modifies asteroids`baseColor, asteroids`rotation
      ensures Valid()
      ensures ui.location == Point(Twentieth(s.width) as real, Twentieth(s.height) as real)
      ensures player.location == Point(HalfTrunc(s.width) as real, HalfTrunc(s.height) as real)
      ensures player.xSpeed == 0.0 && player.ySpeed == 0.0
    {
      MoveCraft(s, trig);
      MoveRocks(s);
    }

    /** The update step of the overlay, the ship and the bullets. */
    method MoveCraft(s: Size, trig: Trig)
      requires Distinct(bullets)
      modifies ui`location, player`location, player`xSpeed, player`ySpeed
      modifies bullets`location, bullets`isMarkedForDeath
      ensures ui.location == Point(Twentieth(s.width) as real, Twentieth(s.height) as real)
      ensures player.location == Point(HalfTrunc(s.width) as real, HalfTrunc(s.height) as real)
      ensures player.xSpeed == 0.0 && player.ySpeed == 0.0
      ensures forall k :: 0 <= k < |bullets| ==>
        Flew(bullets[k], old(bullets[k].location), old(bullets[k].isMarkedForDeath), s, trig)
    {
      ui.Tick(s);
      player.Tick(s);
      TickBullets(s, trig);
    }

    /** The update step of the asteroids, then the drawing step. */
    method MoveRocks(s: Size)
      requires Valid()
      modifies player`rotation
      modifies asteroids`location, asteroids`alpha, asteroids`fadingIn, asteroids`dying, asteroids`isMarkedForDeath
      modifies asteroids`baseColor, asteroids`rotation
      ensures Valid()
      ensures forall k :: 0 <= k < |asteroids| ==>
        Drifted(asteroids[k], old(asteroids[k].location), old(asteroids[k].Lifecycle()), s)
      ensures player.rotation == Turned(old(player.rotation), player.rotationDelta, 1)
      ensures forall k :: 0 <= k < |asteroids| ==>
        asteroids[k].rotation == Turned(old(asteroids[k].rotation), asteroids[k].rotationDelta, 1)
    {
      TickAsteroids(s);
      Draw();
    }

    /** The timer tick: the bonus-life block, the difficulty block, a frame
        when the game runs (otherwise the waiting screen, which changes
        nothing here), and the tick count. */
    method TimerTick(s: Size, spawnAt: Point, overlap: (Path, Path) -> bool, trig: Trig)
      returns (reported: Option<int>, ghost hits: seq<Strike>, ghost tested: seq<Asteroid>, ghost crashes: seq<bool>,
               ghost rows: seq<seq<Trial>>, ghost sights: seq<Sight>, ghost views: seq<(Path, Path)>)
      requires Valid()
      modifies this, ui, rand, player, asteroids, bullets
      ensures Valid()
      ensures Clock(tickCount, difficulty) == ClockStep(Clock(old(tickCount), old(difficulty)))
      ensures var bonus := BonusStep(Bonus(old(extraGuy), old(lives)));
        && score == old(score) + TotalPoints(hits) && extraGuy == bonus.extraGuy + TotalPoints(hits)
        && lives == bonus.lives - Count(crashes)
        && gameRunning == (old(gameRunning) && !(0 < bonus.lives <= Count(crashes)))
        && reported == (if old(gameRunning) && 0 < bonus.lives <= Count(crashes) then Some(score) else None)
      ensures !old(gameRunning) ==> hits == [] && crashes == [] && asteroids == old(asteroids) && bullets == old(bullets)
      ensures !old(gameRunning) ==> unchanged(rand, player) && unchanged(asteroids) && unchanged(bullets)
      ensures !old(gameRunning) ==> unchanged(ui`location, ui`scoreText)
      ensures old(gameRunning) ==>
        && asteroids == Without(tested, Doomed(tested, old(MarkSeq(asteroids)), hits, crashes))
        && bullets == Without(old(bullets), old(MarkedShots(bullets)) + BulletsHit(hits))
        && var d := difficulty; Collided(old(Outset(d)), rows, hits, tested, sights, crashes, views, overlap)
    {
      Housekeep();
      reported, hits, tested, crashes, rows, sights, views := PlayAndCount(s, spawnAt, overlap, trig);
    }

    /** The rest of the timer tick after the two blocks: a frame if a game
        runs, then the tick count. */
    method PlayAndCount(s: Size, spawnAt: Point, overlap: (Path, Path) -> bool, trig: Trig)
      returns (reported: Option<int>, ghost hits: seq<Strike>, ghost tested: seq<Asteroid>, ghost crashes: seq<bool>,
               ghost rows: seq<seq<Trial>>, ghost sights: seq<Sight>, ghost views: seq<(Path, Path)>)
      requires Valid() && tickCount < DifficultyPeriod
      modifies this`asteroids, this`bullets, this`score, this`extraGuy, this`lives, this`gameRunning, this`tickCount
      modifies ui, rand, player, asteroids, bullets
      ensures Valid() && tickCount == old(tickCount) + 1 && difficulty == old(difficulty)
      ensures score == old(score) + TotalPoints(hits) && extraGuy == old(extraGuy) + TotalPoints(hits)
      ensures lives == old(lives) - Count(crashes)
      ensures gameRunning == (old(gameRunning) && !(0 < old(lives) <= Count(crashes)))
      ensures reported == (if old(gameRunning) && 0 < old(lives) <= Count(crashes) then Some(score) else None)
      ensures !old(gameRunning) ==> hits == [] && crashes == [] && asteroids == old(asteroids) && bullets == old(bullets)
      ensures !old(gameRunning) ==> unchanged(ui, rand, player) && unchanged(asteroids) && unchanged(bullets)
      ensures old(gameRunning) ==>
        && asteroids == Without(tested, Doomed(tested, old(MarkSeq(asteroids)), hits, crashes))
        && bullets == Without(old(bullets), old(MarkedShots(bullets)) + BulletsHit(hits))
        && Collided(old(Outset(difficulty)), rows, hits, tested, sights, crashes, views, overlap)
    {
      reported, hits, tested, crashes, rows, sights, views := Play(s, spawnAt, overlap, trig);
      CountTick();
    }

    /** The bonus-life block and the difficulty block of the timer tick. */
    method Housekeep()
      requires Valid()
      modifies this`lives, this`extraGuy, ui`lives, this`tickCount, this`difficulty
      ensures Valid() && tickCount < DifficultyPeriod
      ensures Bonus(extraGuy, lives) == BonusStep(Bonus(old(extraGuy), old(lives)))
      ensures Clock(tickCount + 1, difficulty) == ClockStep(Clock(old(tickCount), old(difficulty)))
      ensures score == old(score) && gameRunning == old(gameRunning)
      ensures MarkSeq(asteroids) == old(MarkSeq(asteroids)) && MarkedShots(bullets) == old(MarkedShots(bullets))
      ensures forall d :: Outset(d) == old(Outset(d))
    {
      AwardBonusLife();
      RaiseDifficulty();
    }

    /** The tick counter counts the tick. */
    method CountTick()
      requires Valid() && tickCount < DifficultyPeriod
      modifies this`tickCount
      ensures Valid() && tickCount == old(tickCount) + 1
    {
      tickCount := tickCount + 1;
    }

    /** The difficulty block of the timer tick: on the 50th counted tick the
        difficulty rises by one and the counter restarts. */
    method RaiseDifficulty()
      requires Valid()
      modifies this`tickCount, this`difficulty
      ensures Valid() && tickCount < DifficultyPeriod
      ensures Clock(tickCount + 1, difficulty) == ClockStep(Clock(old(tickCount), old(difficulty)))
    {
      if tickCount == DifficultyPeriod {
        difficulty := difficulty + 1;
        tickCount := 0;
      }
    }

    /** The part of the timer tick that depends on whether a game is running:
        a frame if it is, and (the waiting screen aside) nothing otherwise. */
    method Play(s: Size, spawnAt: Point, overlap: (Path, Path) -> bool, trig: Trig)
      returns (reported: Option<int>, ghost hits: seq<Strike>, ghost tested: seq<Asteroid>, ghost crashes: seq<bool>,
               ghost rows: seq<seq<Trial>>, ghost sights: seq<Sight>, ghost views: seq<(Path, Path)>)
      requires Valid()
      modifies this`asteroids, this`bullets, this`score, this`extraGuy, this`lives, this`gameRunning
      modifies ui, rand, player, asteroids, bullets
      ensures Valid()
      ensures score == old(score) + TotalPoints(hits) && extraGuy == old(extraGuy) + TotalPoints(hits)
      ensures lives == old(lives) - Count(crashes)
      ensures gameRunning == (old(gameRunning) && !(0 < old(lives) <= Count(crashes)))
      ensures reported == (if old(gameRunning) && 0 < old(lives) <= Count(crashes) then Some(score) else None)
      ensures !old(gameRunning) ==> hits == [] && crashes == [] && asteroids == old(asteroids) && bullets == old(bullets)
      ensures !old(gameRunning) ==> unchanged(ui, rand, player) && unchanged(asteroids) && unchanged(bullets)
      ensures old(gameRunning) ==>
        && asteroids == Without(tested, Doomed(tested, old(MarkSeq(asteroids)), hits, crashes))
        && bullets == Without(old(bullets), old(MarkedShots(bullets)) + BulletsHit(hits))
        && Collided(old(Outset(difficulty)), rows, hits, tested, sights, crashes, views, overlap)
    {
      if gameRunning {
        reported, hits, tested, crashes, rows, sights, views := Render(s, spawnAt, overlap, trig);
      } else {
        reported, hits, tested, crashes := None, [], asteroids, [];
        rows, sights, views := [], [], [];
      }
    }
  }
}
