/**
 * The atom classes of the older simulator, js/h2o.js: H, O and H2o over one base class Atom.
 * They share the drifting and the hit test of js/Atom.js, but an H has no "already relabelled"
 * flag (it is relabelled once per merge, by reRender), and a droplet is smaller and falls by
 * its own rule. The value-level rules live here beside the class.
 */
module LegacyAtoms {
  import opened Platform
  import opened Particles

  // ---------------------------------------------------------------- value rules

  /** The random diameter of a legacy droplet: ((u · 10) + 15) · scale, in [15, 25) pixels, scaled. */
  function LegacyDropletWidth(u: Unit, sw: real): (w: real)
    ensures 15.0 * AtomScale(sw) <= w < 25.0 * AtomScale(sw)
  {
    (u * 10.0 + 15.0) * AtomScale(sw)
  }

  /** H2o.initializeDrawingProperties: at the coordinate, square; the radius is never set. */
  function LegacyDroplet(p: Particle, c: Coordinate, u: Unit, sw: real): (q: Particle)
    ensures q.(x := p.x, y := p.y, w := p.w, h := p.h) == p
    ensures q.x == c.x && q.y == c.y && q.w == q.h == LegacyDropletWidth(u, sw)
  {
    var w := LegacyDropletWidth(u, sw);
    p.(x := c.x, y := c.y, w := w, h := w)
  }

  /**
   * H2o.updatePosition: down by 2, sideways by cos((y + 5u)/100) taken at the new y, down
   * again by sin((x + 5u)/100) taken at the new x; the delete flag is raised at or below the
   * bottom edge.
   */
  function LegacyFall(p: Particle, sh: real, u: Unit, host: Host): (q: Particle)
    ensures q.(x := p.x, y := p.y, deleted := p.deleted) == p
  {
    var dx: real := (u as real) * 5.0;
    var y1 := p.y + 2.0;
    var x := p.x + host.cos((y1 + dx) / 100.0);
    var y := y1 + host.sin((x + dx) / 100.0);
    p.(x := x, y := y, deleted := p.deleted || y >= sh)
  }

  /**
   * With cos and sin in [-1, 1], a fall moves a droplet down by between 1 and 3 pixels and
   * sideways by at most 1, and the flag is set afterwards iff it was set before or the
   * droplet has reached the bottom edge: it is never cleared.
   */
  lemma LegacyFallDescends(p: Particle, sh: real, u: Unit, host: Host)
    requires TrigBounded(host)
    ensures var q := LegacyFall(p, sh, u, host);
            && 1.0 <= q.y - p.y <= 3.0 && -1.0 <= q.x - p.x <= 1.0
            && (q.deleted <==> p.deleted || q.y >= sh)
            && (p.deleted ==> q.deleted)
  {
    var dx: real := (u as real) * 5.0;
    var y1 := p.y + 2.0;
    var x := p.x + host.cos((y1 + dx) / 100.0);
    assert -1.0 <= host.cos((y1 + dx) / 100.0) <= 1.0;
    assert -1.0 <= host.sin((x + dx) / 100.0) <= 1.0;
  }

  /** updatePosition, dispatched on the kind: H2o falls by the legacy rule, H and O drift. */
  function LegacyMoved(p: Particle, sw: real, sh: real, u: Unit, host: Host): Particle {
    if p.kind == H2o then LegacyFall(p, sh, u, host) else Drift(p, sw, sh, u, host)
  }

  /** initializeDrawingProperties, dispatched on the kind: a legacy droplet, or a label. */
  function LegacyInitialized(p: Particle, c: Coordinate, u: Unit, sw: real, host: Host): Particle {
    if p.kind == H2o then LegacyDroplet(p, c, u, sw) else Labelled(p, c, sw, host)
  }

  /** H.reRender: labelled again, by its current name, where it stands. */
  function Relabelled(p: Particle, sw: real, host: Host): (q: Particle)
    ensures q.x == p.x && q.y == p.y && q.kind == p.kind && q.merged == p.merged
  {
    Labelled(p, Coordinate(p.x, p.y), sw, host)
  }

  /**
   * Relabelling a merged H a second time changes nothing: after its first merge, an H
   * absorbing more partners keeps position, size and radius.
   */
  lemma RelabelledStable(p: Particle, sw: real, host: Host)
    requires p.kind == H
    ensures var q := Relabelled(Merge(p), sw, host);
            && Relabelled(Merge(q), sw, host) == q
            && q.merged && Name(q) == "H2" && q.x == p.x && q.y == p.y
  {
  }

  // ---------------------------------------------------------------- the class

  class Atom {
    /** Which of the classes H, O and H2o this object is an instance of. */
    const kind: Kind
    /** The canvas size given to the constructor. */
    const sw: real
    const sh: real

    var x: real
    var y: real
    var w: real
    var h: real
    var r: real
    var vx: real
    var vy: real
    /** H: isMerged. */
    var merged: bool
    /** H2o: deleteFlag. */
    var deleted: bool

    /** isHit(targetX, targetY, targetR), on squared distances (see Particles.Hits). */
    predicate IsHit(tx: real, ty: real, tr: real)
      reads this
    {
      Hits(x, y, r, tx, ty, tr)
    }

    /** The state of the atom as a value; these atoms never carry the H2 label flag. */
    function View(): (p: Particle)
      reads this
      ensures p.kind == kind && !p.h2Rendered
    {
      Particle(kind, x, y, w, h, r, vx, vy, merged, false, deleted)
    }

    ghost predicate Valid()
      reads this
    {
      Consistent(View())
    }

    /**
     * new H(sw, sh), new O(sw, sh), new H2o(sw, sh): velocity 0, flags clear; position, size
     * and radius (undefined until initializeDrawingProperties) start at 0.
     */
    constructor (kind: Kind, sw: real, sh: real)
      ensures this.kind == kind && this.sw == sw && this.sh == sh
      ensures View() == Blank(kind) && Valid()
    {
      this.kind := kind;
      this.sw := sw;
      this.sh := sh;
      x, y, w, h, r, vx, vy := 0.0, 0.0, 0.0, 0.0, 0.0, 0.0, 0.0;
      merged, deleted := false, false;
    }

    /**
     * initializeDrawingProperties(coordinate): H and O take getColor's draw (none for a
     * merged H, which keeps its colour) and measure their name; H2o draws its width.
     */
    method InitializeDrawingProperties(c: Coordinate, rng: Random, host: Host)
      requires Valid()
      modifies this, rng
      ensures View() == LegacyInitialized(old(View()), c, rng.stream(old(rng.drawn)), sw, host)
      ensures rng.drawn == old(rng.drawn) + InitDraws(old(View()))
      ensures Valid()
    {
      if kind == H2o {
        var d := rng.Next();
        var size := LegacyDropletWidth(d, sw);
        x := c.x;
        y := c.y;
        w := size;
        h := size;
      } else {
        if !(kind == H && merged) {
          var colour := rng.Next();
        }
        var size := host.measure(Name(View()), FontPx * AtomScale(sw));
        x := c.x;
        y := c.y;
        w := size;
        h := size;
        r := size / 2.0;
      }
    }

    /** updatePosition, as overridden by H2o: H2o falls, H and O drift. */
    method UpdatePosition(rng: Random, host: Host)
      requires Valid()
      modifies this, rng
      ensures View() == LegacyMoved(old(View()), sw, sh, rng.stream(old(rng.drawn)), host)
      ensures rng.drawn == old(rng.drawn) + 1
      ensures Valid()
    {
      if kind == H2o {
        FallStep(rng, host);
      } else {
        DriftStep(rng, host);
      }
    }

    /** Atom.updatePosition: impulse, speed limit, step and wrap-around, in the source's order. */
    method DriftStep(rng: Random, host: Host)
      modifies this, rng
      ensures View() == Drift(old(View()), sw, sh, rng.stream(old(rng.drawn)), host)
      ensures rng.drawn == old(rng.drawn) + 1
    {
      Accelerate(rng, host);
      x := x + vx;
      y := y + vy;
      if x > sw + w / 2.0 {
        x := -(w / 2.0);
      }
      if x + w < 0.0 {
        x := sw + w / 2.0;
      }
      if y > sh + h / 2.0 {
        y := -(h / 2.0);
      }
      if y + h < 0.0 {
        y := sh + h / 2.0;
      }
    }

    /** The first half of Atom.updatePosition: the random impulse and the speed limit. */
    method Accelerate(rng: Random, host: Host)
      modifies this`vx, this`vy, rng
      ensures var v := Impulse(old(View()), rng.stream(old(rng.drawn)), host);
              Velocity(vx, vy) == Clamp(v, Speed(v, host))
      ensures rng.drawn == old(rng.drawn) + 1
    {
      ghost var p := View();
      var u := rng.Next();
      var angle := 2.0 * Pi * u;
      vx := vx + SpeedFactor * host.cos(angle);
      vy := vy + SpeedFactor * host.sin(angle);
      ghost var v := Impulse(p, u, host);
      assert Velocity(vx, vy) == v;
      assert vx * vx + vy * vy == Norm2(v);
      var speed := host.sqrt(vx * vx + vy * vy);
      if speed > MaxSpeed {
        vx := vx / speed * MaxSpeed;
        vy := vy / speed * MaxSpeed;
      }
    }

    /** H2o.updatePosition. */
    method FallStep(rng: Random, host: Host)
      modifies this, rng
      ensures View() == LegacyFall(old(View()), sh, rng.stream(old(rng.drawn)), host)
      ensures rng.drawn == old(rng.drawn) + 1
    {
      var u := rng.Next();
      var dx: real := (u as real) * 5.0;
      y := y + 2.0;
      x := x + host.cos((y + dx) / 100.0);
      y := y + host.sin((x + dx) / 100.0);
      if y >= sh {
        deleted := true;
      }
    }

    /** H.reRender: initializeDrawingProperties at its own position. */
    method ReRender(rng: Random, host: Host)
      requires kind == H && Valid()
      modifies this, rng
      ensures View() == Relabelled(old(View()), sw, host)
      ensures rng.drawn == old(rng.drawn) + InitDraws(old(View()))
      ensures Valid()
    {
      InitializeDrawingProperties(Coordinate(x, y), rng, host);
    }
  }
}
