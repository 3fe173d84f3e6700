/**
 * What one frame of MizuSimulator (js/Mizu.js) does to the three lists of atoms, as pure
 * functions over their values: renderH, renderO and renderH2o, in the order renderFrame
 * calls them, and init. The class in module Mizu is proved to compute exactly these.
 */
module MizuSpec {
  import opened Platform
  import opened Particles
  import opened Arrays

  /** What a frame depends on besides the atoms: canvas size, host functions, Math.random. */
  datatype Stage = Stage(cw: real, ch: real, host: Host, stream: nat -> Unit)

  /** The simulator's lists h, o and h2o, and the number of Math.random calls made so far. */
  datatype World = World(h: seq<Particle>, o: seq<Particle>, h2o: seq<Particle>, drawn: nat)

  /** Every particle in `ps` is of the given kind and carries consistent flags. */
  ghost predicate AllOf(ps: seq<Particle>, kind: Kind) {
    forall k :: 0 <= k < |ps| ==> ps[k].kind == kind && Consistent(ps[k])
  }

  /** Each list holds atoms of its own kind only. */
  ghost predicate WellFormed(w: World) {
    AllOf(w.h, H) && AllOf(w.o, O) && AllOf(w.h2o, H2o)
  }

  /** Math.random calls of createAtom('H') and createAtom('O'): x, y, and getColor. */
  const SpawnDraws: nat := 3

  /**
   * createAtom('H') or createAtom('O') with draws k, k+1 (and k+2 for the colour): a new atom
   * of that kind labelled at (cw·u, ch·u').
   */
  function Spawn(s: Stage, kind: Kind, k: nat): (p: Particle)
    requires kind != H2o
    ensures p.kind == kind && !p.merged && !p.h2Rendered && Consistent(p)
    ensures p.x == s.cw * s.stream(k) && p.y == s.ch * s.stream(k + 1)
  {
    Labelled(Blank(kind), Coordinate(s.cw * s.stream(k), s.ch * s.stream(k + 1)), s.cw, s.host)
  }

  /** createAtom('H2o', c) with draw k for the width: a new droplet at c, not yet expired. */
  function SpawnDroplet(s: Stage, c: Coordinate, k: nat): (p: Particle)
    ensures p.kind == H2o && !p.deleted && p.x == c.x && p.y == c.y && Consistent(p)
    ensures 18.0 * AtomScale(s.cw) <= p.w < 28.0 * AtomScale(s.cw)
  {
    Droplet(Blank(H2o), c, s.stream(k), s.cw)
  }

  // ---------------------------------------------------------------- init

  /** `n` atoms made by createAtom(kind) one after the other, starting at draw k. */
  function Spawns(s: Stage, kind: Kind, k: nat, n: nat): (r: seq<Particle>)
    requires kind != H2o
    ensures |r| == n
    decreases n
  {
    if n == 0 then [] else [Spawn(s, kind, k)] + Spawns(s, kind, k + SpawnDraws, n - 1)
  }

  /** One more spawn is one more element, made from the next three draws. */
  lemma {:induction false} SpawnsSnoc(s: Stage, kind: Kind, k: nat, n: nat)
    requires kind != H2o
    ensures Spawns(s, kind, k, n + 1) == Spawns(s, kind, k, n) + [Spawn(s, kind, k + SpawnDraws * n)]
    decreases n
  {
    if n > 0 {
      SpawnsSnoc(s, kind, k + SpawnDraws, n - 1);
      assert k + SpawnDraws + SpawnDraws * (n - 1) == k + SpawnDraws * n;
    }
  }

  /** The t-th atom of a run of spawns is made from draws k + 3t onwards. */
  lemma {:induction false} SpawnsAt(s: Stage, kind: Kind, k: nat, n: nat, t: nat)
    requires kind != H2o && t < n
    ensures Spawns(s, kind, k, n)[t] == Spawn(s, kind, k + SpawnDraws * t)
    decreases n
  {
    if t > 0 {
      SpawnsAt(s, kind, k + SpawnDraws, n - 1, t - 1);
      assert k + SpawnDraws + SpawnDraws * (t - 1) == k + SpawnDraws * t;
    }
  }

  /** One of init's loops: `n` new atoms of the kind pushed onto their list. */
  function PushSpawns(s: Stage, w: World, kind: Kind, n: nat): World
    requires kind != H2o
  {
    var ps := Spawns(s, kind, w.drawn, n);
    if kind == H then World(w.h + ps, w.o, w.h2o, w.drawn + SpawnDraws * n)
    else World(w.h, w.o + ps, w.h2o, w.drawn + SpawnDraws * n)
  }

  /** One more turn of init's loop pushes one more atom, made from the next three draws. */
  lemma PushSpawnsSnoc(s: Stage, w: World, kind: Kind, n: nat)
    requires kind != H2o
    ensures var v := PushSpawns(s, w, kind, n);
            var p := Spawn(s, kind, v.drawn);
            PushSpawns(s, w, kind, n + 1)
              == if kind == H then World(v.h + [p], v.o, v.h2o, v.drawn + SpawnDraws)
                 else World(v.h, v.o + [p], v.h2o, v.drawn + SpawnDraws)
  {
    var ps := Spawns(s, kind, w.drawn, n);
    SpawnsSnoc(s, kind, w.drawn, n);
    Associative(w.h, ps, [Spawn(s, kind, w.drawn + SpawnDraws * n)]);
    Associative(w.o, ps, [Spawn(s, kind, w.drawn + SpawnDraws * n)]);
  }

  /** init(hLength, oLength): push hLength new H, then oLength new O. */
  function Init(s: Stage, w: World, n: nat, m: nat): World {
    PushSpawns(s, PushSpawns(s, w, H, n), O, m)
  }

  // ---------------------------------------------------------------- renderH

  /** `t` is a partner for `a`: not merged yet and within reach. */
  predicate Free(a: Particle, t: Particle) {
    !t.merged && HitsAtom(a, t)
  }

  /**
   * renderH from slot i on: each H drifts and is drawn; a free one then scans the slots
   * after it and merges with the first free H it hits, which is replaced by a new H.
   */
  function HPass(s: Stage, w: World, i: nat): (r: World)
    requires i <= |w.h|
    decreases |w.h| - i
  {
    if i == |w.h| then w else HPass(s, HVisit(s, w, i), i + 1)
  }

  /** One iteration of renderH's outer loop, at slot i. */
  function HVisit(s: Stage, w: World, i: nat): (r: World)
    requires i < |w.h|
    ensures |r.h| == |w.h|
  {
    var w1 := HDrifted(s, w, i);
    if w1.h[i].merged then w1 else Partner(s, w1, i, i + 1)
  }

  /** `_h.updatePosition(); _h.render(...)`: the H at slot i drifts, on one draw, and is drawn. */
  function HDrifted(s: Stage, w: World, i: nat): (r: World)
    requires i < |w.h|
    ensures |r.h| == |w.h|
  {
    var p := Rendered(Drift(w.h[i], s.cw, s.ch, s.stream(w.drawn), s.host), s.cw, s.host);
    World(w.h[i := p], w.o, w.h2o, w.drawn + 1)
  }

  /** renderH's inner loop for the H at slot i, from slot j on. */
  function Partner(s: Stage, w: World, i: nat, j: nat): (r: World)
    requires i < j <= |w.h|
    ensures |r.h| == |w.h|
    decreases |w.h| - j
  {
    if j == |w.h| then w
    else if !Free(w.h[i], w.h[j]) then Partner(s, w, i, j + 1)
    else World(w.h[i := Rendered(Merge(w.h[i]), s.cw, s.host)][j := Spawn(s, H, w.drawn)],
               w.o, w.h2o, w.drawn + SpawnDraws)
  }

  // ---------------------------------------------------------------- renderO

  /**
   * renderO from slot idx on: each O drifts, then consumes every merged H it hits; the
   * first hit replaces the O by a new one, and each hit replaces the H2 by a new H and adds
   * a droplet where the O stood.
   */
  function OPass(s: Stage, w: World, idx: nat): World
    requires idx <= |w.o|
    decreases |w.o| - idx
  {
    if idx == |w.o| then w else OPass(s, OVisit(s, w, idx), idx + 1)
  }

  /** The O pass from slot idx is one visit followed by the pass from idx + 1. */
  lemma OPassStep(s: Stage, w: World, idx: nat)
    requires idx < |w.o|
    ensures OPass(s, w, idx) == OPass(s, OVisit(s, w, idx), idx + 1)
  {
  }

  /** One iteration of renderO's outer loop, at slot idx: the O drifts, then consumes. */
  function OVisit(s: Stage, w: World, idx: nat): (r: World)
    requires idx < |w.o|
    ensures |r.o| == |w.o|
  {
    var w1 := ODrifted(s, w, idx);
    Consume(s, w1, idx, w1.o[idx], false, 0)
  }

  /** `_o.updatePosition()`: the O at slot idx drifts, on one draw. */
  function ODrifted(s: Stage, w: World, idx: nat): (r: World)
    requires idx < |w.o|
    ensures |r.o| == |w.o|
  {
    World(w.h, w.o[idx := Drift(w.o[idx], s.cw, s.ch, s.stream(w.drawn), s.host)], w.h2o, w.drawn + 1)
  }

  /**
   * renderO's inner loop from slot m on, for the drifted O `p` that sat at slot idx;
   * `replaced` says whether indexOf already fails to find it there.
   */
  function Consume(s: Stage, w: World, idx: nat, p: Particle, replaced: bool, m: nat): (r: World)
    requires idx < |w.o| && m <= |w.h|
    ensures |r.o| == |w.o|
    decreases |w.h| - m
  {
    if m == |w.h| then w
    else if !(w.h[m].merged && HitsAtom(p, w.h[m])) then Consume(s, w, idx, p, replaced, m + 1)
    else Consume(s, Absorb(s, w, idx, p, replaced, m), idx, p, true, m + 1)
  }

  /**
   * One hit of the O `p` on the H2 at slot m: unless it was replaced already, the O's slot
   * gets createAtom('O'); the H2's slot gets createAtom('H'); a droplet is pushed at p.
   */
  function Absorb(s: Stage, w: World, idx: nat, p: Particle, replaced: bool, m: nat): (r: World)
    requires idx < |w.o| && m < |w.h|
    ensures |r.h| == |w.h| && |r.o| == |w.o|
  {
    var w1 := if replaced then w
              else World(w.h, w.o[idx := Spawn(s, O, w.drawn)], w.h2o, w.drawn + SpawnDraws);
    var w2 := World(w1.h[m := Spawn(s, H, w1.drawn)], w1.o, w1.h2o, w1.drawn + SpawnDraws);
    World(w2.h, w2.o, w2.h2o + [SpawnDroplet(s, Coordinate(p.x, p.y), w2.drawn)], w2.drawn + 1)
  }

  // ---------------------------------------------------------------- renderH2o

  /**
   * renderH2o over the first i droplets, from the last one down: each falls, and one that
   * has expired is spliced out.
   */
  function Drip(s: Stage, w: World, i: nat): World
    requires i <= |w.h2o|
  {
    DripFrom(s, w, i)
  }

  /** Drip by recursion: nothing is left below slot 0; otherwise slot i - 1 is next. */
  function DripFrom(s: Stage, w: World, i: nat): World
    requires i <= |w.h2o|
    decreases i, 0
  {
    if i == 0 then w else DripBelow(s, w, i - 1)
  }

  /** The visit of slot i, then the drip over the slots below it. */
  function DripBelow(s: Stage, w: World, i: nat): World
    requires i < |w.h2o|
    decreases i, 1
  {
    DripFrom(s, DripVisit(s, w, i), i)
  }

  /**
   * A world one visit of slot n - 1 on from w drips to the same end t as w does: renderH2o's
   * loop keeps its result while it counts down.
   */
  lemma DripAfterVisit(s: Stage, w: World, v: World, n: nat, t: World)
    requires 0 < n <= |w.h2o| && Drip(s, w, n) == t && v == DripVisit(s, w, n - 1)
    ensures n - 1 <= |v.h2o| && Drip(s, v, n - 1) == t
  {
    assert DripFrom(s, w, n) == DripBelow(s, w, n - 1) == DripFrom(s, v, n - 1);
  }

  /** One iteration of renderH2o's loop, at slot i: the droplet falls; if expired, it goes. */
  function DripVisit(s: Stage, w: World, i: nat): (r: World)
    requires i < |w.h2o|
    ensures |r.h2o| >= i
  {
    var w1 := Fallen(s, w, i);
    if w1.h2o[i].deleted then World(w1.h, w1.o, Splice(w1.h2o, i), w1.drawn) else w1
  }

  /** `_h2o.updatePosition()`: the droplet at slot i falls, on one draw. */
  function Fallen(s: Stage, w: World, i: nat): (r: World)
    requires i < |w.h2o|
    ensures |r.h2o| == |w.h2o|
  {
    World(w.h, w.o, w.h2o[i := Fall(w.h2o[i], s.ch, s.stream(w.drawn), s.host)], w.drawn + 1)
  }

  // ---------------------------------------------------------------- frames

  /** renderFrame: renderH, then renderO, then renderH2o. */
  function Frame(s: Stage, w: World): World {
    var w1 := HPass(s, w, 0);
    var w2 := OPass(s, w1, 0);
    Drip(s, w2, |w2.h2o|)
  }

  /** `n` frames in a row, as the animation loop runs them. */
  function Run(s: Stage, w: World, n: nat): World
    decreases n
  {
    if n == 0 then w else Run(s, Frame(s, w), n - 1)
  }
}
