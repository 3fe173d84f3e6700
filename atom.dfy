/**
 * The atom classes of js/Atom.js (and their copy in js/Mizu.js) as one Dafny class: the
 * kind H, O or H2o is a constant of the object, the drawing state and the flags are fields
 * that the methods update in place, and `View()` is the value the Particles module reasons
 * about.
 */
module Atoms {
  import opened Wrappers
  import opened Platform
  import opened Particles

  class Atom {
    /** Which of the classes H, O and H2o this object is an instance of. */
    const kind: Kind
    /** The canvas size given to the constructor. */
    const sw: real
    const sh: real

    var x: real
    var y: real
    var w: real
    var h: real
    var r: real
    var vx: real
    var vy: real
    /** H: merged into H2 (isMerged); H: already relabelled as H2 (isH2Rendered). */
    var merged: bool
    var h2Rendered: bool
    /** H2o: below the bottom edge (isDeleted). */
    var deleted: bool

    /** isHit(targetX, targetY, targetR), on squared distances (see Particles.Hits). */
    predicate IsHit(tx: real, ty: real, tr: real)
      reads this
    {
      Hits(x, y, r, tx, ty, tr)
    }

    /** The state of the atom as a value. */
    function View(): (p: Particle)
      reads this
      ensures p.kind == kind
    {
      Particle(kind, x, y, w, h, r, vx, vy, merged, h2Rendered, deleted)
    }

    ghost predicate Valid()
      reads this
    {
      Consistent(View())
    }

    /** new H(sw, sh), new O(sw, sh), new H2o(sw, sh): every field at its initial value. */
    constructor (kind: Kind, sw: real, sh: real)
      ensures this.kind == kind && this.sw == sw && this.sh == sh
      ensures View() == Blank(kind) && Valid()
    {
      this.kind := kind;
      this.sw := sw;
      this.sh := sh;
      x, y, w, h, r, vx, vy := 0.0, 0.0, 0.0, 0.0, 0.0, 0.0, 0.0;
      merged, h2Rendered, deleted := false, false, false;
    }

    /** H.markAsMerged (js/Atom.js). */
    method MarkAsMerged()
      requires kind == H && Valid()
      modifies this`merged
      ensures View() == Merge(old(View())) && Valid()
    {
      merged := true;
    }

    /**
     * initializeDrawingProperties(coordinate): H and O measure their name and move to the
     * coordinate; H2o draws its width and moves to the coordinate. getColor's draw is made
     * and its value, a colour, is not part of the model.
     */
    method InitializeDrawingProperties(c: Coordinate, rng: Random, host: Host)
      requires Valid()
      modifies this, rng
      ensures View() == Initialized(old(View()), c, rng.stream(old(rng.drawn)), sw, host)
      ensures rng.drawn == old(rng.drawn) + InitDraws(old(View()))
      ensures Valid()
    {
      ghost var u := rng.stream(rng.drawn);
      InitializedPlaces(View(), c, u, sw, host);
      if kind == H2o {
        var d := rng.Next();
        var size := DropletWidth(d, sw);
        x := c.x;
        y := c.y;
        w := size;
        h := size;
      } else {
        if !(kind == H && merged) {
          var colour := rng.Next();
        }
        var size := host.measure(Name(View()), FontPx * AtomScale(sw));
        x := c.x;
        y := c.y;
        w := size;
        h := size;
        r := size / 2.0;
      }
    }

    /** updatePosition, as overridden by H2o: H2o falls, H and O drift. */
    method UpdatePosition(rng: Random, host: Host)
      requires Valid()
      modifies this, rng
      ensures View() == Moved(old(View()), sw, sh, rng.stream(old(rng.drawn)), host)
      ensures rng.drawn == old(rng.drawn) + 1
      ensures Valid()
    {
      MovedKeepsFlags(View(), sw, sh, rng.stream(rng.drawn), host);
      if kind == H2o {
        FallStep(rng, host);
      } else {
        DriftStep(rng, host);
      }
    }

    /**
     * Atom.updatePosition: impulse, speed limit, step and wrap-around, in the source's
     * order.
     */
    method DriftStep(rng: Random, host: Host)
      modifies this, rng
      ensures View() == Drift(old(View()), sw, sh, rng.stream(old(rng.drawn)), host)
      ensures rng.drawn == old(rng.drawn) + 1
    {
      Accelerate(rng, host);
      x := x + vx;
      y := y + vy;
      if x > sw + w / 2.0 {
        x := -(w / 2.0);
      }
      if x + w < 0.0 {
        x := sw + w / 2.0;
      }
      if y > sh + h / 2.0 {
        y := -(h / 2.0);
      }
      if y + h < 0.0 {
        y := sh + h / 2.0;
      }
    }

    /** The first half of Atom.updatePosition: the random impulse and the speed limit. */
    method Accelerate(rng: Random, host: Host)
      modifies this`vx, this`vy, rng
      ensures var v := Impulse(old(View()), rng.stream(old(rng.drawn)), host);
              Velocity(vx, vy) == Clamp(v, Speed(v, host))
      ensures rng.drawn == old(rng.drawn) + 1
    {
      ghost var p := View();
      var u := rng.Next();
      var angle := 2.0 * Pi * u;
      vx := vx + SpeedFactor * host.cos(angle);
      vy := vy + SpeedFactor * host.sin(angle);
      ghost var v := Impulse(p, u, host);
      assert Velocity(vx, vy) == v;
      assert vx * vx + vy * vy == Norm2(v);
      var speed := host.sqrt(vx * vx + vy * vy);
      if speed > MaxSpeed {
        vx := vx / speed * MaxSpeed;
        vy := vy / speed * MaxSpeed;
      }
    }

    /** H2o.updatePosition: sideways along a cosine, down by a tenth of the width. */
    method FallStep(rng: Random, host: Host)
      modifies this, rng
      ensures View() == Fall(old(View()), sh, rng.stream(old(rng.drawn)), host)
      ensures rng.drawn == old(rng.drawn) + 1
    {
      var u := rng.Next();
      var dx: real := (u as real) * 5.0;
      x := x + host.cos((y + dx) / 100.0);
      y := y + w * 0.1;
      if y >= sh {
        deleted := true;
      }
    }

    /**
     * render(ctx): only H changes state, the first time it is drawn after merging, when it
     * is relabelled as H2 where it stands (a merged H draws nothing from Math.random).
     */
    method Render(rng: Random, host: Host)
      requires Valid()
      modifies this, rng
      ensures View() == Rendered(old(View()), sw, host)
      ensures rng.drawn == old(rng.drawn)
      ensures Valid()
    {
      RenderedOnce(View(), sw, host);
      if kind == H && merged && !h2Rendered {
        h2Rendered := true;
        InitializeDrawingProperties(Coordinate(x, y), rng, host);
      }
    }
  }

  /**
   * AtomFactory.factory(name, width, height) (js/Atom.js): a new atom of the named class
   * for 'H', 'O' and 'H2o', and nothing (undefined) for any other name.
   */
  method Factory(name: string, width: real, height: real) returns (a: Option<Atom>)
    ensures a.None? <==> KindOf(name).None?
    ensures a.Some? ==> && fresh(a.value) && KindOf(name) == Some(a.value.kind)
                        && a.value.View() == Blank(a.value.kind) && a.value.Valid()
                        && a.value.sw == width && a.value.sh == height
  {
    var k := KindOf(name);
    if k.Some? {
      var atom := new Atom(k.value, width, height);
      a := Some(atom);
    } else {
      a := None;
    }
  }
}
