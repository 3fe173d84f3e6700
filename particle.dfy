/**
 * The value-level model of one atom of the animation (js/Atom.js, copied in js/Mizu.js and
 * js/h2o.js): its kinds, its state, and the pure rules for hit-testing, drifting, falling and
 * (re)labelling that the atom classes apply in place.
 */
module Particles {
  import opened Wrappers
  import opened Platform

  /** The three atom classes H, O and H2o. */
  datatype Kind = H | O | H2o

  /** Coordinate: a point on the canvas. */
  datatype Coordinate = Coordinate(x: real, y: real)

  /**
   * The state of one atom: position, size and radius, velocity (H and O only), and the
   * per-kind flags: `merged` and `h2Rendered` for H, `deleted` for H2o.
   */
  datatype Particle = Particle(
    kind: Kind,
    x: real, y: real,
    w: real, h: real, r: real,
    vx: real, vy: real,
    merged: bool, h2Rendered: bool, deleted: bool)

  /** Magnitude of the random impulse added to the velocity on every update. */
  const SpeedFactor: real := 0.075
  /** The speed limit of H and O. */
  const MaxSpeed: real := 1.05
  /** Font size, before scaling, of the glyph an H or O is drawn with. */
  const FontPx: real := 24.0

  /** The flags each kind may carry: an H2 label only on a merged H, expiry only on H2o. */
  ghost predicate Consistent(p: Particle) {
    && (p.h2Rendered ==> p.merged)
    && (p.kind != H ==> !p.merged && !p.h2Rendered)
    && (p.kind != H2o ==> !p.deleted)
  }

  /** A freshly constructed atom: every number 0 and every flag clear. */
  function Blank(kind: Kind): (p: Particle)
    ensures p.kind == kind && Consistent(p)
  {
    Particle(kind, 0.0, 0.0, 0.0, 0.0, 0.0, 0.0, 0.0, false, false, false)
  }

  // ---------------------------------------------------------------- names and kinds

  /** The name each kind is requested by. */
  function KindName(k: Kind): string {
    match k
    case H => "H"
    case O => "O"
    case H2o => "H2o"
  }

  /**
   * Why creating an atom throws (createAtom in js/Mizu.js, factory in js/h2o.js): a name
   * the switch does not know, or a droplet asked for without a coordinate.
   */
  datatype CreateError = UnknownName | NoCoordinate

  /** AtomFactory.factory's switch: the kind a name selects, or None (undefined) for any other name. */
  function KindOf(name: string): (k: Option<Kind>)
    ensures k.Some? <==> name == "H" || name == "O" || name == "H2o"
  {
    if name == "H" then Some(H)
    else if name == "O" then Some(O)
    else if name == "H2o" then Some(H2o)
    else None
  }

  /** KindOf and KindName are inverse to each other. */
  lemma KindOfKindName(k: Kind, name: string)
    ensures KindOf(KindName(k)) == Some(k)
    ensures KindOf(name) == Some(k) ==> KindName(k) == name
  {
  }

  /** getName: 'H2' for a merged H, 'H' for a free one, 'O' for O and the empty name for H2o. */
  function Name(p: Particle): (n: string)
    ensures n == "H2" <==> p.kind == H && p.merged
    ensures n == "H" <==> p.kind == H && !p.merged
    ensures n == "O" <==> p.kind == O
    ensures n == "" <==> p.kind == H2o
  {
    match p.kind
    case H => if p.merged then "H2" else "H"
    case O => "O"
    case H2o => ""
  }

  // ---------------------------------------------------------------- scale

  /** Atom.getScale: 1.0 on a canvas narrower than 768 pixels, 1.2 otherwise. */
  function AtomScale(sw: real): (s: real)
    ensures s == 1.0 || s == 1.2
    ensures s == 1.0 <==> sw < 768.0
  {
    if sw < 768.0 then 1.0 else 1.2
  }

  /** The simulators' getScale: 1.0 below 768 pixels, 1.2 below 1280, 1.5 from there on. */
  function SimulatorScale(cw: real): (s: real)
    ensures s == 1.0 || s == 1.2 || s == 1.5
    ensures s == 1.0 <==> cw < 768.0
    ensures s == 1.5 <==> 1280.0 <= cw
  {
    if cw < 768.0 then 1.0
    else if cw >= 768.0 && cw < 1280.0 then 1.2
    else 1.5
  }

  /** Both scales grow with the canvas width, and they agree below 1280 pixels. */
  lemma ScalesMonotone(a: real, b: real)
    requires a <= b
    ensures AtomScale(a) <= AtomScale(b)
    ensures SimulatorScale(a) <= SimulatorScale(b)
    ensures a < 1280.0 ==> SimulatorScale(a) == AtomScale(a)
    ensures AtomScale(a) <= SimulatorScale(a)
  {
  }

  // ---------------------------------------------------------------- hit test

  /** `s` is the square root of `t`. */
  ghost predicate RootOf(s: real, t: real) {
    0.0 <= s && s * s == t
  }

  /**
   * Atom.isHit(tx, ty, tr) for an atom at (x, y) with radius r: the centres are closer than
   * the sum of the radii. Stated on squared distances, so no square root is needed.
   */
  predicate Hits(x: real, y: real, r: real, tx: real, ty: real, tr: real) {
    var dx := tx - x;
    var dy := ty - y;
    var reach := r + tr;
    0.0 < reach && dx * dx + dy * dy < reach * reach
  }

  /** `a.isHit(t.x, t.y, t.r)`. */
  predicate HitsAtom(a: Particle, t: Particle) {
    Hits(a.x, a.y, a.r, t.x, t.y, t.r)
  }

  /** For non-negative reals, comparing squares is comparing the numbers. */
  lemma SquaresOrdered(a: real, b: real)
    requires 0.0 <= a && 0.0 <= b
    ensures a < b <==> a * a < b * b
  {
    if a < b {
      assert a * b - a * a == a * (b - a) >= 0.0;
      assert b * b - a * b == b * (b - a) > 0.0;
    } else {
      assert b * a - b * b == b * (a - b) >= 0.0;
      assert a * a - b * a == a * (a - b) >= 0.0;
    }
  }

  /**
   * The squared test is exactly the source's test `sqrt(dx*dx + dy*dy) < r + tr` whenever
   * the host's square root is a square root.
   */
  lemma HitsIsDistanceTest(x: real, y: real, r: real, tx: real, ty: real, tr: real, host: Host)
    requires RootOf(host.sqrt((tx - x) * (tx - x) + (ty - y) * (ty - y)),
                    (tx - x) * (tx - x) + (ty - y) * (ty - y))
    ensures Hits(x, y, r, tx, ty, tr) <==>
            host.sqrt((tx - x) * (tx - x) + (ty - y) * (ty - y)) < r + tr
  {
    var d := host.sqrt((tx - x) * (tx - x) + (ty - y) * (ty - y));
    if 0.0 < r + tr {
      SquaresOrdered(d, r + tr);
    }
  }

  /** Swapping the roles of the two atoms does not change the answer. */
  lemma HitsSymmetric(x: real, y: real, r: real, tx: real, ty: real, tr: real)
    ensures Hits(x, y, r, tx, ty, tr) == Hits(tx, ty, tr, x, y, r)
  {
    assert (tx - x) * (tx - x) == (x - tx) * (x - tx);
    assert (ty - y) * (ty - y) == (y - ty) * (y - ty);
  }

  // ---------------------------------------------------------------- drifting (H and O)

  /** A velocity, in pixels per frame. */
  datatype Velocity = Velocity(vx: real, vy: real)

  /** The squared length of a velocity. */
  function Norm2(v: Velocity): real {
    v.vx * v.vx + v.vy * v.vy
  }

  /** The speed limit: a velocity faster than MaxSpeed is rescaled onto it. */
  function Clamp(v: Velocity, speed: real): Velocity {
    if speed > MaxSpeed then Velocity(v.vx / speed * MaxSpeed, v.vy / speed * MaxSpeed) else v
  }

  /**
   * When `speed` is the length of v: a velocity within the limit is left as it is; a
   * faster one keeps its direction (it is scaled by a factor in (0, 1)) and gets length
   * exactly MaxSpeed. Either way the result is within the limit.
   */
  lemma ClampLimitsSpeed(v: Velocity, speed: real)
    requires RootOf(speed, Norm2(v))
    ensures var c := Clamp(v, speed);
            && Norm2(c) <= MaxSpeed * MaxSpeed
            && (Norm2(v) <= MaxSpeed * MaxSpeed ==> c == v)
            && (Norm2(v) > MaxSpeed * MaxSpeed ==>
                  && Norm2(c) == MaxSpeed * MaxSpeed
                  && 0.0 < MaxSpeed / speed < 1.0
                  && c == Velocity(MaxSpeed / speed * v.vx, MaxSpeed / speed * v.vy))
  {
    SquaresOrdered(speed, MaxSpeed);
    if speed > MaxSpeed {
      var q := MaxSpeed / speed;
      assert q * speed == MaxSpeed;
      assert v.vx / speed * MaxSpeed == q * v.vx;
      assert v.vy / speed * MaxSpeed == q * v.vy;
      calc {
        (q * v.vx) * (q * v.vx) + (q * v.vy) * (q * v.vy);
        (q * q) * (v.vx * v.vx + v.vy * v.vy);
        (q * q) * (speed * speed);
        (q * speed) * (q * speed);
        MaxSpeed * MaxSpeed;
      }
    }
  }

  /**
   * Toroidal wrap-around on one axis, the two checks in the source's order: past the far
   * edge the atom reappears at -size/2; then, past the near edge, at bound + size/2.
   */
  function Wrap(pos: real, size: real, bound: real): real {
    var a := if pos > bound + size / 2.0 then -(size / 2.0) else pos;
    if a + size < 0.0 then bound + size / 2.0 else a
  }

  /** For non-negative sizes, the three regions of Wrap and the interval it lands in. */
  lemma WrapRegions(pos: real, size: real, bound: real)
    requires 0.0 <= size && 0.0 <= bound
    ensures -size <= Wrap(pos, size, bound) <= bound + size / 2.0
    ensures pos > bound + size / 2.0 ==> Wrap(pos, size, bound) == -(size / 2.0)
    ensures pos + size < 0.0 ==> Wrap(pos, size, bound) == bound + size / 2.0
    ensures -size <= pos <= bound + size / 2.0 ==> Wrap(pos, size, bound) == pos
  {
  }

  /**
   * Atom.updatePosition for H and O: a random impulse of SpeedFactor in the direction
   * 2·π·u, the speed limit, one step, and wrap-around on both axes.
   */
  function Drift(p: Particle, sw: real, sh: real, u: Unit, host: Host): (q: Particle)
    ensures q.(x := p.x, y := p.y, vx := p.vx, vy := p.vy) == p
  {
    var v := Impulse(p, u, host);
    var c := Clamp(v, Speed(v, host));
    p.(vx := c.vx, vy := c.vy, x := Wrap(p.x + c.vx, p.w, sw), y := Wrap(p.y + c.vy, p.h, sh))
  }

  /** The length of a velocity, by the host's square root. */
  function Speed(v: Velocity, host: Host): real {
    host.sqrt(Norm2(v))
  }

  /** The velocity right after the impulse of SpeedFactor in the direction 2·π·u. */
  function Impulse(p: Particle, u: Unit, host: Host): Velocity {
    var angle := 2.0 * Pi * u;
    Velocity(p.vx + SpeedFactor * host.cos(angle), p.vy + SpeedFactor * host.sin(angle))
  }

  /**
   * After a drift, with non-negative sizes and canvas, the atom lies in
   * [-w, sw + w/2] x [-h, sh + h/2].
   */
  lemma DriftBounds(p: Particle, sw: real, sh: real, u: Unit, host: Host)
    requires 0.0 <= p.w && 0.0 <= p.h && 0.0 <= sw && 0.0 <= sh
    ensures var q := Drift(p, sw, sh, u, host);
            -p.w <= q.x <= sw + p.w / 2.0 && -p.h <= q.y <= sh + p.h / 2.0
  {
    var q := Drift(p, sw, sh, u, host);
    WrapRegions(p.x + q.vx, p.w, sw);
    WrapRegions(p.y + q.vy, p.h, sh);
  }

  /**
   * If the host's square root is right at the post-impulse velocity v: the new velocity is
   * within the speed limit; it is v when v is within the limit, and otherwise v rescaled by
   * a factor in (0, 1) to length exactly MaxSpeed.
   */
  lemma DriftSpeed(p: Particle, sw: real, sh: real, u: Unit, host: Host)
    requires var v := Impulse(p, u, host); RootOf(Speed(v, host), Norm2(v))
    ensures var q := Drift(p, sw, sh, u, host);
            var v := Impulse(p, u, host);
            && Norm2(Velocity(q.vx, q.vy)) <= MaxSpeed * MaxSpeed
            && (Norm2(v) <= MaxSpeed * MaxSpeed ==> q.vx == v.vx && q.vy == v.vy)
            && (Norm2(v) > MaxSpeed * MaxSpeed ==>
                  && Norm2(Velocity(q.vx, q.vy)) == MaxSpeed * MaxSpeed
                  && 0.0 < MaxSpeed / Speed(v, host) < 1.0
                  && q.vx == MaxSpeed / Speed(v, host) * v.vx
                  && q.vy == MaxSpeed / Speed(v, host) * v.vy)
  {
    var v := Impulse(p, u, host);
    ClampLimitsSpeed(v, Speed(v, host));
  }

  // ---------------------------------------------------------------- falling (H2o)

  /**
   * H2o.updatePosition (js/Atom.js, js/Mizu.js): sideways by cos((y + 5u)/100), down by a
   * tenth of the width, and expired once at or below the bottom edge.
   */
  function Fall(p: Particle, sh: real, u: Unit, host: Host): (q: Particle)
    ensures q.(x := p.x, y := p.y, deleted := p.deleted) == p
  {
    var dx: real := (u as real) * 5.0;
    var x := p.x + host.cos((p.y + dx) / 100.0);
    var y := p.y + p.w * 0.1;
    p.(x := x, y := y, deleted := p.deleted || y >= sh)
  }

  /**
   * A fall moves down by exactly w/10 (so strictly down for a positive width), and the
   * droplet is expired afterwards iff it was before or it has reached the bottom edge:
   * the flag is never cleared.
   */
  lemma FallExpires(p: Particle, sh: real, u: Unit, host: Host)
    ensures var q := Fall(p, sh, u, host);
            && q.y - p.y == p.w / 10.0
            && (0.0 < p.w ==> q.y > p.y)
            && (q.deleted <==> p.deleted || q.y >= sh)
            && (p.deleted ==> q.deleted)
  {
  }

  /**
   * On a 100 x 100 canvas, a droplet made at (0, 0) has not expired after one fall, and
   * one made at (0, 500) has, whatever the draws for its width and its fall.
   */
  lemma DropletExpiryExamples(u: Unit, u2: Unit, host: Host)
    ensures !Fall(Droplet(Blank(H2o), Coordinate(0.0, 0.0), u, 100.0), 100.0, u2, host).deleted
    ensures Fall(Droplet(Blank(H2o), Coordinate(0.0, 500.0), u, 100.0), 100.0, u2, host).deleted
  {
    var w := DropletWidth(u, 100.0);
    assert 18.0 <= w < 28.0;
  }

  /** The droplets of `qs` that have not expired, in their order. */
  function Survivors(qs: seq<Particle>): (r: seq<Particle>)
    ensures |r| <= |qs|
    decreases |qs|
  {
    if |qs| == 0 then []
    else Survivors(qs[..|qs| - 1]) + (if qs[|qs| - 1].deleted then [] else [qs[|qs| - 1]])
  }

  /**
   * Survivors is the filter it is meant to be: no expired droplet is kept, each kept one
   * comes from the input, every unexpired one is kept, and there are no more than before.
   */
  lemma {:induction false} SurvivorsFilter(qs: seq<Particle>)
    ensures var r := Survivors(qs);
            && |r| <= |qs|
            && (forall k :: 0 <= k < |r| ==> !r[k].deleted && r[k] in qs)
            && (forall k :: 0 <= k < |qs| && !qs[k].deleted ==> qs[k] in r)
    decreases |qs|
  {
    if |qs| > 0 {
      var front := qs[..|qs| - 1];
      SurvivorsFilter(front);
      var r := Survivors(qs);
      forall k | 0 <= k < |r|
        ensures !r[k].deleted && r[k] in qs
      {
        if k < |Survivors(front)| {
          assert r[k] == Survivors(front)[k];
          assert r[k] in front;
        }
      }
      forall k | 0 <= k < |qs| && !qs[k].deleted
        ensures qs[k] in r
      {
        if k < |qs| - 1 {
          assert qs[k] == front[k];
        }
      }
    }
  }

  /** One more droplet at the end is kept iff it has not expired. */
  lemma SurvivorsSnoc(qs: seq<Particle>, q: Particle)
    ensures Survivors(qs + [q]) == Survivors(qs) + (if q.deleted then [] else [q])
  {
    assert (qs + [q])[..|qs|] == qs;
  }

  /** One more droplet at the front is kept iff it has not expired. */
  lemma {:induction false} SurvivorsCons(q: Particle, qs: seq<Particle>)
    ensures Survivors([q] + qs) == (if q.deleted then [] else [q]) + Survivors(qs)
    decreases |qs|
  {
    var keep := if q.deleted then [] else [q];
    if |qs| == 0 {
      assert [q] + qs == [] + [q];
      SurvivorsSnoc([], q);
    } else {
      var front := qs[..|qs| - 1];
      var last := qs[|qs| - 1];
      assert qs == front + [last];
      assert [q] + qs == ([q] + front) + [last];
      SurvivorsSnoc([q] + front, last);
      SurvivorsCons(q, front);
      SurvivorsSnoc(front, last);
    }
  }

  /** updatePosition, dispatched on the kind: H2o falls, H and O drift. */
  function Moved(p: Particle, sw: real, sh: real, u: Unit, host: Host): Particle {
    if p.kind == H2o then Fall(p, sh, u, host) else Drift(p, sw, sh, u, host)
  }

  /** Moving keeps the kind, the size and the H flags, and never clears an expiry. */
  lemma MovedKeepsFlags(p: Particle, sw: real, sh: real, u: Unit, host: Host)
    requires Consistent(p)
    ensures var q := Moved(p, sw, sh, u, host);
            && q.kind == p.kind && q.w == p.w && q.h == p.h && q.r == p.r
            && q.merged == p.merged && q.h2Rendered == p.h2Rendered
            && (p.deleted ==> q.deleted) && Consistent(q)
  {
  }

  // ---------------------------------------------------------------- drawing properties

  /**
   * initializeDrawingProperties for H and O: the atom moves to the coordinate and takes the
   * measured width of its name, in a 24·scale pixel font, as width, height and diameter.
   */
  function Labelled(p: Particle, c: Coordinate, sw: real, host: Host): (q: Particle)
    ensures q.(x := p.x, y := p.y, w := p.w, h := p.h, r := p.r) == p
    ensures q.x == c.x && q.y == c.y && q.w == q.h == q.r * 2.0
  {
    var size := host.measure(Name(p), FontPx * AtomScale(sw));
    p.(x := c.x, y := c.y, w := size, h := size, r := size / 2.0)
  }

  /** The random diameter of a droplet (Atom.js, Mizu.js): in [18, 28) pixels, scaled. */
  function DropletWidth(u: Unit, sw: real): (w: real)
    ensures 18.0 * AtomScale(sw) <= w < 28.0 * AtomScale(sw)
  {
    (u * 10.0 + 18.0) * AtomScale(sw)
  }

  /** H2o.initializeDrawingProperties: at the coordinate, square, radius left as it was. */
  function Droplet(p: Particle, c: Coordinate, u: Unit, sw: real): (q: Particle)
    ensures q.(x := p.x, y := p.y, w := p.w, h := p.h) == p
    ensures q.x == c.x && q.y == c.y && q.w == q.h == DropletWidth(u, sw)
  {
    var w := DropletWidth(u, sw);
    p.(x := c.x, y := c.y, w := w, h := w)
  }

  /**
   * initializeDrawingProperties dispatched on the kind: a droplet for H2o, a label otherwise.
   * `u` is the draw the droplet's width is taken from (a label ignores it).
   */
  function Initialized(p: Particle, c: Coordinate, u: Unit, sw: real, host: Host): Particle {
    if p.kind == H2o then Droplet(p, c, u, sw) else Labelled(p, c, sw, host)
  }

  /**
   * How many times initializeDrawingProperties calls Math.random: once for the droplet's
   * width or for getColor, except on a merged H, whose getColor keeps the colour it had.
   */
  function InitDraws(p: Particle): nat {
    if p.kind == H && p.merged then 0 else 1
  }

  /**
   * Initialising moves the atom to the coordinate, gives it a square box, and changes
   * nothing but position, size and radius; a droplet keeps its radius and its width is in
   * range; the flags stay consistent.
   */
  lemma InitializedPlaces(p: Particle, c: Coordinate, u: Unit, sw: real, host: Host)
    requires Consistent(p)
    ensures var q := Initialized(p, c, u, sw, host);
            && q.x == c.x && q.y == c.y && q.w == q.h
            && q.(x := p.x, y := p.y, w := p.w, h := p.h, r := p.r) == p
            && (p.kind == H2o ==> q.r == p.r && 18.0 * AtomScale(sw) <= q.w < 28.0 * AtomScale(sw))
            && (p.kind != H2o ==> q.w == 2.0 * q.r)
            && Consistent(q)
  {
  }

  /**
   * H.render's bookkeeping (js/Atom.js, js/Mizu.js): the first time a merged H is drawn it
   * is relabelled as H2 in place and remembers that it was.
   */
  function Rendered(p: Particle, sw: real, host: Host): Particle {
    if p.kind == H && p.merged && !p.h2Rendered then
      Labelled(p.(h2Rendered := true), Coordinate(p.x, p.y), sw, host)
    else p
  }

  /**
   * Rendering relabels at most once and only after merging, keeps the position and the
   * merge flag, and preserves `h2Rendered ==> merged`.
   */
  lemma RenderedOnce(p: Particle, sw: real, host: Host)
    requires Consistent(p)
    ensures var q := Rendered(p, sw, host);
            && Rendered(q, sw, host) == q
            && (q != p ==> p.kind == H && p.merged && !p.h2Rendered)
            && q.(w := p.w, h := p.h, r := p.r, h2Rendered := p.h2Rendered) == p
            && (p.kind == H && p.merged ==> q.h2Rendered)
            && Consistent(q)
  {
  }

  /** markAsMerged: the H is merged from now on; nothing else changes. */
  function Merge(p: Particle): (q: Particle)
    ensures q.merged && q.(merged := p.merged) == p
  {
    p.(merged := true)
  }

  /** Merging twice is merging once, and a merged H reports the name 'H2'. */
  lemma MergeIdempotent(p: Particle)
    requires p.kind == H
    ensures Merge(Merge(p)) == Merge(p)
    ensures Merge(p).merged && Name(Merge(p)) == "H2"
  {
  }
}
