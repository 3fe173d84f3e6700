/**
 * One frame of MizuSimulator (js/Mizu.js) on a concrete start: two H and one O, at rest, all
 * at the origin of a canvas at least 100 pixels wide and high, with glyphs at least 4 pixels
 * wide. The H at slot 0 merges with the one at slot 1, the O then consumes that H2, and one
 * droplet results.
 */
module MizuScenario {
  import opened Platform
  import opened Particles
  import opened MizuSpec

  /** What the scenario needs of the host: a sound sqrt, bounded cos and sin, wide glyphs. */
  ghost predicate Reasonable(s: Stage) {
    && SqrtSound(s.host) && TrigBounded(s.host)
    && 100.0 <= s.cw && 100.0 <= s.ch
    && forall t, px :: 4.0 <= s.host.measure(t, px)
  }

  /** An atom of the kind labelled at the origin and at rest, as the scenario starts it. */
  function AtOrigin(s: Stage, kind: Kind): (p: Particle)
    requires kind != H2o
    ensures p.kind == kind && p.x == 0.0 && p.y == 0.0 && p.vx == 0.0 && p.vy == 0.0
    ensures !p.merged && !p.h2Rendered && !p.deleted
  {
    Labelled(Blank(kind), Coordinate(0.0, 0.0), s.cw, s.host)
  }

  /** A number between -c and c has a square of at most c * c. */
  lemma SquareBound(a: real, c: real)
    requires -c <= a <= c
    ensures a * a <= c * c
  {
    assert c * c - a * a == (c - a) * (c + a);
    assert 0.0 <= c - a && 0.0 <= c + a;
  }

  /**
   * An atom at rest at the origin, of size at least 4, drifts by at most 0.075 on each
   * axis and keeps its size and radius.
   */
  lemma DriftFromRest(s: Stage, p: Particle, u: Unit)
    requires Reasonable(s)
    requires p.x == 0.0 && p.y == 0.0 && p.vx == 0.0 && p.vy == 0.0 && 4.0 <= p.w && 4.0 <= p.h
    ensures var q := Drift(p, s.cw, s.ch, u, s.host);
            && -0.075 <= q.x <= 0.075 && -0.075 <= q.y <= 0.075
            && q.w == p.w && q.h == p.h && q.r == p.r
  {
    var v := Impulse(p, u, s.host);
    var angle := 2.0 * Pi * u;
    assert -1.0 <= s.host.cos(angle) <= 1.0 && -1.0 <= s.host.sin(angle) <= 1.0;
    assert -0.075 <= v.vx <= 0.075 && -0.075 <= v.vy <= 0.075;
    SquareBound(v.vx, 0.075);
    SquareBound(v.vy, 0.075);
    var speed := Speed(v, s.host);
    assert 0.0 <= speed && speed * speed == Norm2(v) <= 0.01125;
    SquaresOrdered(speed, MaxSpeed);
    assert Clamp(v, speed) == v;
  }

  /** Two atoms within 1 of each other on both axes, radii at least 2, touch. */
  lemma NearHits(a: Particle, t: Particle)
    requires -1.0 <= t.x - a.x <= 1.0 && -1.0 <= t.y - a.y <= 1.0
    requires 2.0 <= a.r && 2.0 <= t.r
    ensures HitsAtom(a, t)
  {
    SquareBound(t.x - a.x, 1.0);
    SquareBound(t.y - a.y, 1.0);
    SquareBound(4.0, a.r + t.r);
  }

  /** The start: H and H at slots 0 and 1, O at slot 0, no droplets, after d draws. */
  function Start(s: Stage, d: nat): World {
    World([AtOrigin(s, H), AtOrigin(s, H)], [AtOrigin(s, O)], [], d)
  }

  /**
   * renderH on the start: the H at slot 0 merges with the one at slot 1 and is relabelled
   * H2 near the origin; slot 1 gets a new H, which then drifts and stays free.
   */
  lemma ScenarioH(s: Stage, d: nat)
    requires Reasonable(s)
    ensures var r := HPass(s, Start(s, d), 0);
            && |r.h| == 2 && r.o == [AtOrigin(s, O)] && r.h2o == []
            && r.h[0].merged && Name(r.h[0]) == "H2" && !r.h[1].merged
            && -0.075 <= r.h[0].x <= 0.075 && -0.075 <= r.h[0].y <= 0.075 && 2.0 <= r.h[0].r
  {
    var w := Start(s, d);
    var a := AtOrigin(s, H);
    var a0 := Drift(a, s.cw, s.ch, s.stream(d), s.host);
    DriftFromRest(s, a, s.stream(d));
    assert Rendered(a0, s.cw, s.host) == a0;
    var w1 := HDrifted(s, w, 0);
    assert w1 == World([a0, a], w.o, [], d + 1);
    NearHits(a0, a);
    var hm := Rendered(Merge(a0), s.cw, s.host);
    var newH := Spawn(s, H, d + 1);
    var v1 := World([hm, newH], w.o, [], d + 1 + SpawnDraws);
    assert Partner(s, w1, 0, 1) == v1 by {
      assert w1.h[0 := hm][1 := newH] == [hm, newH];
    }
    assert HVisit(s, w, 0) == v1;
    var f1 := Drift(newH, s.cw, s.ch, s.stream(d + 1 + SpawnDraws), s.host);
    assert Rendered(f1, s.cw, s.host) == f1;
    var v2 := World([hm, f1], w.o, [], d + 2 + SpawnDraws);
    assert HDrifted(s, v1, 1) == v2 by {
      assert v1.h[1 := f1] == [hm, f1];
    }
    assert HVisit(s, v1, 1) == v2;
    assert HPass(s, w, 0) == HPass(s, v1, 1) == HPass(s, v2, 2) == v2;
  }

  /**
   * renderO after that: the O drifts, hits the H2 at slot 0 and consumes it, which gives
   * one droplet near the origin; the free H at slot 1 is not touched.
   */
  lemma ScenarioO(s: Stage, w: World)
    requires Reasonable(s)
    requires |w.h| == 2 && w.o == [AtOrigin(s, O)] && w.h2o == []
    requires w.h[0].merged && !w.h[1].merged && 2.0 <= w.h[0].r
    requires -0.075 <= w.h[0].x <= 0.075 && -0.075 <= w.h[0].y <= 0.075
    ensures var r := OPass(s, w, 0);
            && |r.h| == 2 && |r.o| == 1 && |r.h2o| == 1
            && -0.075 <= r.h2o[0].y <= 0.075 && !r.h2o[0].deleted
            && 18.0 * AtomScale(s.cw) <= r.h2o[0].w < 28.0 * AtomScale(s.cw)
  {
    var b := AtOrigin(s, O);
    var b0 := Drift(b, s.cw, s.ch, s.stream(w.drawn), s.host);
    DriftFromRest(s, b, s.stream(w.drawn));
    var w1 := ODrifted(s, w, 0);
    assert w1 == World(w.h, [b0], [], w.drawn + 1);
    NearHits(b0, w.h[0]);
    var v := Absorb(s, w1, 0, b0, false, 0);
    assert Consume(s, w1, 0, b0, false, 0) == Consume(s, v, 0, b0, true, 1);
    assert v.h[1] == w.h[1];
    assert Consume(s, v, 0, b0, true, 1) == Consume(s, v, 0, b0, true, 2) == v;
    assert OVisit(s, w, 0) == v;
    assert OPass(s, w, 0) == OPass(s, v, 1) == v;
  }

  /** renderH2o after that: the droplet falls and, still far above the bottom, stays. */
  lemma ScenarioDrip(s: Stage, w: World)
    requires Reasonable(s)
    requires |w.h2o| == 1 && -0.075 <= w.h2o[0].y <= 0.075 && !w.h2o[0].deleted
    requires w.h2o[0].w < 28.0 * AtomScale(s.cw)
    ensures var r := Drip(s, w, 1);
            |r.h| == |w.h| && |r.o| == |w.o| && |r.h2o| == 1
  {
    var q := Fall(w.h2o[0], s.ch, s.stream(w.drawn), s.host);
    assert q.y < 4.0;
    var v := DripVisit(s, w, 0);
    assert v == Fallen(s, w, 0);
    assert Drip(s, w, 1) == DripFrom(s, w, 1) == DripBelow(s, w, 0) == DripFrom(s, v, 0) == v;
  }

  /**
   * The whole frame: afterwards there are still 2 H and 1 O and there is one droplet; the H
   * that became H2 during the frame was the one at the lower slot.
   */
  lemma TwoHydrogensAndAnOxygen(s: Stage, d: nat)
    requires Reasonable(s)
    ensures var r := Frame(s, Start(s, d));
            |r.h| == 2 && |r.o| == 1 && |r.h2o| == 1
    ensures var r := HPass(s, Start(s, d), 0);
            |r.h| == 2 && r.h[0].merged && Name(r.h[0]) == "H2" && !r.h[1].merged
  {
    var w1 := HPass(s, Start(s, d), 0);
    ScenarioH(s, d);
    var w2 := OPass(s, w1, 0);
    ScenarioO(s, w1);
    ScenarioDrip(s, w2);
  }
}
