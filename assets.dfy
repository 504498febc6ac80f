/** The game's entities: the player's ship, its bullets, the asteroids and the
    score/lives overlay, with the per-frame update and outline query each one
    has, plus the small numeric helpers they use.

    An outline query (`GetPath`) returns the entity's shape placed at its
    location and turned by its rotation, and as a side effect advances the
    rotation by the rotation delta: querying an outline N times turns the
    entity N times. The polygon geometry itself is not computed: a `Path`
    records which template is placed where and at what angle, and whether two
    outlines intersect is left to an oracle supplied by the caller. */
module Assets {
  import opened Values
  import Fading
  import ScoreText

  /** The value `Math.PI` the bullet heading is computed with. */
  const Pi: real := 3.141592653589793

  /** Limits `value` to the inclusive range [min, max]. */
  function Clamp(value: real, min: int, max: int): (r: real)
    ensures min <= max ==> min as real <= r <= max as real
    ensures min as real <= value <= max as real ==> r == value
    ensures value < min as real ==> r == min as real
    ensures min <= max && value > max as real ==> r == max as real
  {
    if value < min as real then min as real
    else if value > max as real then max as real
    else value
  }

  lemma ClampIdempotent(value: real, min: int, max: int)
    requires min <= max
    ensures Clamp(Clamp(value, min, max), min, max) == Clamp(value, min, max)
  {
  }

  /** The coarse collision test: the distance between two centres is at most
      the sum of the radii. `sqrt(d2) <= radii` is written without the square
      root, as `radii >= 0 && d2 <= radii * radii`. */
  function Near(a: Point, ra: real, b: Point, rb: real): (r: bool)
    ensures r ==> ra + rb >= 0.0
    ensures a == b && ra + rb >= 0.0 ==> r
  {
    var dx, dy, radii := a.x - b.x, a.y - b.y, ra + rb;
    radii >= 0.0 && dx * dx + dy * dy <= radii * radii
  }

  /** The shape an outline is made from: the ship's triangle, the bullet's
      rectangle, or the polygon an asteroid generated for itself (that
      polygon is fixed at construction, so the asteroid stands for it). */
  datatype Template = ShipModel | BulletModel | Rock(owner: Asteroid)

  /** An outline: a template translated to `location`, then rotated by `rotation` degrees. */
  datatype Path = Path(template: Template, location: Point, rotation: real)

  /** The sine and cosine the bullet's heading is computed with. */
  datatype Trig = Trig(sin: real -> real, cos: real -> real)

  /** The rotation after `n` outline queries, each turning by `delta`. */
  function Turned(rotation: real, delta: real, n: nat): real
  {
    if n == 0 then rotation else Turned(rotation, delta, n - 1) + delta
  }

  /** N outline queries turn an entity by exactly N times its rotation delta. */
  lemma {:induction false} TurnedLinear(rotation: real, delta: real, n: nat)
    ensures Turned(rotation, delta, n) == rotation + (n as real) * delta
  {
    if n > 0 {
      TurnedLinear(rotation, delta, n - 1);
      assert (n as real) * delta == ((n - 1) as real) * delta + delta;
    }
  }

  /** The random number generator shared by all asteroids: the sequence of
      values `NextDouble` returns, and how many of them have been drawn. */
  class Rand {
    const draws: nat -> real
    var used: nat

    ghost predicate Valid() {
      forall k: nat :: 0.0 <= draws(k) < 1.0
    }

    constructor (draws: nat -> real)
      requires forall k: nat :: 0.0 <= draws(k) < 1.0
      ensures Valid() && this.draws == draws && used == 0
    {
      this.draws := draws;
      used := 0;
    }

    method NextDouble() returns (d: real)
      requires Valid()
      modifies this`used
      ensures d == draws(old(used)) && used == old(used) + 1
      ensures 0.0 <= d < 1.0
    {
      d := draws(used);
      used := used + 1;
    }
  }

  /** The ship, locked to the centre of the playfield; input sets how fast it turns. */
  class Player {
    var location: Point
    var rotation: real
    var rotationDelta: real
    var xSpeed: real
    var ySpeed: real
    const radius: real
    const baseColor: Color

    constructor (pos: Point)
      ensures location == pos && rotation == 0.0 && rotationDelta == 0.0
      ensures xSpeed == 0.0 && ySpeed == 0.0 && radius == 20.0 && baseColor == Yellow
    {
      location := pos;
      baseColor := Yellow;
      xSpeed, ySpeed := 0.0, 0.0;
      rotation, rotationDelta := 0.0, 0.0;
      radius := 20.0;
    }

    /** Re-centres the ship (halving the size with integer division) and stops it. */
    method Tick(s: Size)
      modifies this`location, this`xSpeed, this`ySpeed
      ensures location == Point(HalfTrunc(s.width) as real, HalfTrunc(s.height) as real)
      ensures s.width >= 0 && s.height >= 0 ==>
        0.0 <= location.x <= s.width as real && 0.0 <= location.y <= s.height as real
      ensures xSpeed == 0.0 && ySpeed == 0.0
    {
      location := Point(HalfTrunc(s.width) as real, HalfTrunc(s.height) as real);
      xSpeed := 0.0;
      ySpeed := 0.0;
    }

    method GetPath() returns (p: Path)
      modifies this`rotation
      ensures p == Path(ShipModel, location, old(rotation))
      ensures rotation == Turned(old(rotation), rotationDelta, 1)
    {
      p := Path(ShipModel, location, rotation);
      rotation := rotation + rotationDelta;
    }
  }

  /** Where a bullet at `from` is one frame later, flying along the heading
      `rotation` (in degrees) at the speeds `xSpeed` and `ySpeed`. With equal
      speeds and a sine and cosine that agree (sin² + cos² = 1 at that angle),
      the step is as long as the speed whatever the heading. */
  function Flight(from: Point, rotation: real, xSpeed: real, ySpeed: real, trig: Trig): (r: Point)
    ensures var a := rotation * Pi / 180.0;
      var dx, dy := r.x - from.x, r.y - from.y;
      trig.sin(a) * trig.sin(a) + trig.cos(a) * trig.cos(a) == 1.0 && xSpeed == ySpeed ==>
        dx * dx + dy * dy == xSpeed * xSpeed
  {
    var a := rotation * Pi / 180.0;
    var s, c := trig.sin(a), trig.cos(a);
    Point(from.x - s * xSpeed, from.y + c * ySpeed)
  }

  /** Whether a bullet at `p` has left the playfield; a point that has not
      is left alone by clamping to the playfield. */
  function OutsideScreen(p: Point, s: Size): (r: bool)
    ensures !r ==> Clamp(p.x, 0, s.width) == p.x && Clamp(p.y, 0, s.height) == p.y
    ensures r ==> Clamp(p.x, 0, s.width) != p.x || Clamp(p.y, 0, s.height) != p.y
  {
    p.x > s.width as real || p.x < 0.0 || p.y > s.height as real || p.y < 0.0
  }

  /** A shot: created at the ship's location and heading, it flies straight
      until it leaves the playfield. Its rotation delta is never assigned. */
  class Bullet {
    var location: Point
    var rotation: real
    const rotationDelta: real := 0.0
    const xSpeed: real
    const ySpeed: real
    const radius: real
    const baseColor: Color
    var isMarkedForDeath: bool

    /** The position argument is not used: the bullet starts where the ship is. */
    constructor (pos: Point, player: Player)
      ensures location == player.location && rotation == player.rotation && rotationDelta == 0.0
      ensures xSpeed == -6.0 && ySpeed == -6.0 && radius == 5.0 && baseColor == White
      ensures !isMarkedForDeath
    {
      location := player.location;
      baseColor := White;
      xSpeed, ySpeed := -6.0, -6.0;
      rotation := player.rotation;
      radius := 5.0;
      isMarkedForDeath := false;
    }

    /** One step along the heading; leaving the playfield marks the bullet. */
    method Tick(s: Size, trig: Trig)
      modifies this`location, this`isMarkedForDeath
      ensures location == Flight(old(location), rotation, xSpeed, ySpeed, trig)
      ensures isMarkedForDeath == (old(isMarkedForDeath) || OutsideScreen(location, s))
    {
      var dx := location.x - trig.sin(rotation * Pi / 180.0) * xSpeed;
      var dy := location.y + trig.cos(rotation * Pi / 180.0) * ySpeed;
      location := Point(dx, dy);
      if OutsideScreen(location, s) {
        isMarkedForDeath := true;
      }
    }

    method GetPath() returns (p: Path)
      modifies this`rotation
      ensures p == Path(BulletModel, location, old(rotation))
      ensures rotation == Turned(old(rotation), rotationDelta, 1)
      ensures rotation == old(rotation)
    {
      p := Path(BulletModel, location, rotation);
      rotation := rotation + rotationDelta;
    }
  }

  /** Whether an asteroid at `p` has drifted more than 25 pixels past an
      edge: such a point is outside the playfield, and a point within the
      margin of 25 is not off screen. */
  function Offscreen(p: Point, s: Size): (r: bool)
    ensures r ==> OutsideScreen(p, s)
    ensures r == OutsideScreen(Point(p.x + 25.0, p.y + 25.0), Size(s.width + 50, s.height + 50))
  {
    p.x > (s.width + 25) as real || p.x < (0 - 25) as real || p.y > (s.height + 25) as real || p.y < (0 - 25) as real
  }

  /** A rock drifting at a constant velocity, fading in after it is created and
      fading out once it has drifted off screen. */
  class Asteroid {
    var location: Point
    var rotation: real
    const rotationDelta: real
    const xSpeed: real
    const ySpeed: real
    const radius: real
    const size: AsterSize
    var baseColor: Color
    var alpha: int
    var fadingIn: bool
    var dying: bool
    var isMarkedForDeath: bool

    /** Collidable once the fade-in is over. */
    predicate IsAlive()
      reads this`fadingIn
    {
      !fadingIn
    }

    function Lifecycle(): Fading.FadeState
      reads this`alpha, this`fadingIn, this`dying, this`isMarkedForDeath
    {
      Fading.FadeState(alpha, fadingIn, dying, isMarkedForDeath)
    }

    /** The fade state is a reachable one, and the colour is red with the
        current alpha (before the first update it is still the opaque red it
        was created with). */
    ghost predicate Valid()
      reads this`alpha, this`fadingIn, this`dying, this`isMarkedForDeath, this`baseColor
    {
      && Fading.Inv(Lifecycle())
      && baseColor.r == Red.r && baseColor.g == Red.g && baseColor.b == Red.b
      && (baseColor.a as int == alpha || (alpha == 0 && fadingIn))
    }

    /** A new asteroid is not yet collidable; a valid asteroid that is
        collidable is fully opaque unless it is already fading out, and one
        that has faded out completely is marked for death. */
    lemma Collidable()
      requires Valid()
      ensures Lifecycle() == Fading.Newborn ==> !IsAlive()
      ensures IsAlive() && !dying ==> alpha == Fading.Opaque
      ensures IsAlive() && alpha == 0 ==> isMarkedForDeath
    {
    }

    /** The draws the polygon generator takes from the shared generator: one
        angle step per vertex, the starting angle, then one radius per vertex.
        The polygon they shape is not modelled, only how far they move the
        generator on. */
    static method PolygonDraws(rand: Rand, vertices: nat)
      requires rand.Valid()
      modifies rand`used
      ensures rand.used == old(rand.used) + 2 * vertices + 1
    {
      for i := 0 to vertices
        invariant rand.used == old(rand.used) + i
      {
        var step := rand.NextDouble();
      }
      var angle := rand.NextDouble();
      for i := 0 to vertices
        invariant rand.used == old(rand.used) + vertices + 1 + i
      {
        var spread := rand.NextDouble();
      }
    }

    /** A seven-vertex polygon is generated first (15 draws), then the
        rotation delta and the velocity take the next three draws. */
    constructor (pos: Point, size: AsterSize, rand: Rand)
      requires rand.Valid()
      modifies rand`used
      ensures Valid()
      ensures location == pos && this.size == size && radius == Radius(size) as real
      ensures Lifecycle() == Fading.Newborn && !IsAlive()
      ensures rotation == 0.0 && baseColor == Red
      ensures rand.used == old(rand.used) + 18
      ensures rotationDelta == rand.draws(old(rand.used) + 15) * 6.0 - 3.0
      ensures xSpeed == rand.draws(old(rand.used) + 16) * 5.0 - 2.5
      ensures ySpeed == rand.draws(old(rand.used) + 17) * 5.0 - 2.5
      ensures -3.0 <= rotationDelta < 3.0 && -2.5 <= xSpeed < 2.5 && -2.5 <= ySpeed < 2.5
    {
      PolygonDraws(rand, 7);
      var spin := rand.NextDouble();
      var vx := rand.NextDouble();
      var vy := rand.NextDouble();
      location := pos;
      radius := Radius(size) as real;
      baseColor := Red;
      rotation := 0.0;
      rotationDelta := spin * 6.0 - 3.0;
      xSpeed := vx * 5.0 - 2.5;
      ySpeed := vy * 5.0 - 2.5;
      alpha := 0;
      this.size := size;
      fadingIn := true;
      dying := false;
      isMarkedForDeath := false;
    }

    /** Sets the colour's alpha to the current alpha, keeping red, green and
        blue; a colour channel outside [0, 255] would be rejected. */
    method Fade()
      requires 0 <= alpha <= 255
      modifies this`baseColor
      ensures baseColor == Color(alpha as byte, old(baseColor).r, old(baseColor).g, old(baseColor).b)
    {
      baseColor := Color(alpha as byte, baseColor.r, baseColor.g, baseColor.b);
    }

    /** One frame: drift by the velocity, start dying once off screen, then
        run the fade-in block and the fade-out block. */
    method Tick(s: Size)
      requires Valid()
      modifies this`location, this`alpha, this`fadingIn, this`dying, this`isMarkedForDeath, this`baseColor
      ensures Valid()
      ensures location == Point(old(location).x + xSpeed, old(location).y + ySpeed)
      ensures Lifecycle() == Fading.Step(old(Lifecycle()), Offscreen(location, s))
    {
      ghost var before := Lifecycle();
      location := Point(location.x + xSpeed, location.y + ySpeed);
      if Offscreen(location, s) {
        dying := true;
      }
      if fadingIn {
        if alpha < 255 {
          alpha := alpha + 15;
        } else {
          fadingIn := false;
        }
        Fade();
      }
      if dying && !fadingIn {
        if alpha >= 15 {
          alpha := alpha - 15;
        }
        if alpha == 0 {
          isMarkedForDeath := true;
        }
        Fade();
      }
      Fading.StepKeepsInv(before, Offscreen(location, s));
    }

    method GetPath() returns (p: Path)
      modifies this`rotation
      ensures p == Path(Rock(this), location, old(rotation))
      ensures rotation == Turned(old(rotation), rotationDelta, 1)
    {
      p := Path(Rock(this), location, rotation);
      rotation := rotation + rotationDelta;
    }
  }

  /** The overlay showing the score and the remaining lives. The score is
      kept as text and converted on every read and write. */
  class UserInterface {
    var location: Point
    var lives: int
    var scoreText: string
    const baseColor: Color

    ghost predicate Valid()
      reads this`scoreText
    {
      ScoreText.Parse(scoreText).Some?
    }

    constructor (pos: Point, score: int, lives: int)
      ensures location == pos && this.lives == lives && baseColor == White
      ensures scoreText == ScoreText.Format(score) && ScoreText.Parse(scoreText) == Some(score)
    {
      location := pos;
      this.lives := lives;
      scoreText := ScoreText.Format(score);
      baseColor := White;
      ScoreText.FormatRoundTrip(score);
    }

    /** Writing the score property. */
    method SetScore(n: int)
      modifies this`scoreText
      ensures scoreText == ScoreText.Format(n)
      ensures ScoreText.Parse(scoreText) == Some(n)
    {
      scoreText := ScoreText.Format(n);
      ScoreText.FormatRoundTrip(n);
    }

    /** Keeps the overlay in the top-left corner, a twentieth of the way in. */
    method Tick(s: Size)
      modifies this`location
      ensures location == Point(Twentieth(s.width) as real, Twentieth(s.height) as real)
      ensures s.width >= 0 && s.height >= 0 ==>
        0.0 <= location.x <= s.width as real && 0.0 <= location.y <= s.height as real
    {
      location := Point(Twentieth(s.width) as real, Twentieth(s.height) as real);
    }

    /** Reading the score property: the number the stored text denotes. */
    method GetScore() returns (n: int)
      requires Valid()
      ensures ScoreText.Parse(scoreText) == Some(n)
    {
      n := ScoreText.Parse(scoreText).value;
    }
  }
}
