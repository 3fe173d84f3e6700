/**
 * What one frame of the older H2oSimulator (js/h2o.js) does to its three lists, as pure
 * functions over their values, in the order start() calls them: renderH, renderO and
 * renderH2o. The lists, the stage and init are those of module MizuSpec, named by their
 * qualified names; the passes are this simulator's own. A frame can end with a
 * TypeError thrown part-way through renderO, so a frame has an Outcome.
 */
module LegacySpec {
  import opened Platform
  import opened Particles
  import opened LegacyAtoms
  import MizuSpec

  /**
   * How a call ends: normally, or by a TypeError thrown part-way, in which case `w` holds
   * the lists as the throw left them (the writes before it stay, the steps after it do not
   * happen, and the animation loop is not called again).
   */
  datatype Outcome = Completed(w: MizuSpec.World) | Threw(w: MizuSpec.World)

  /** factory('H2o', c) with draw k for the width: a new legacy droplet at c. */
  function SpawnDroplet(s: MizuSpec.Stage, c: Coordinate, k: nat): (p: Particle)
    ensures p.kind == H2o && !p.deleted && p.x == c.x && p.y == c.y && Consistent(p)
    ensures 15.0 * AtomScale(s.cw) <= p.w < 25.0 * AtomScale(s.cw)
  {
    LegacyDroplet(Blank(H2o), c, s.stream(k), s.cw)
  }

  // ---------------------------------------------------------------- renderH

  /**
   * renderH from slot i on: each H drifts; a free one then scans the slots after it, and
   * merges with every free H it hits (the loop continues after a hit), each of which is
   * replaced by a new H.
   */
  function HPass(s: MizuSpec.Stage, w: MizuSpec.World, i: nat): MizuSpec.World
    requires i <= |w.h|
    decreases |w.h| - i
  {
    if i == |w.h| then w else HPass(s, HVisit(s, w, i), i + 1)
  }

  /** One iteration of renderH's outer loop, at slot i. */
  function HVisit(s: MizuSpec.Stage, w: MizuSpec.World, i: nat): (r: MizuSpec.World)
    requires i < |w.h|
    ensures |r.h| == |w.h|
  {
    var w1 := HDrifted(s, w, i);
    if w1.h[i].merged then w1 else Partners(s, w1, i, i + 1)
  }

  /** `_h.updatePosition(); _h.render(ctx)`: the H at slot i drifts, on one draw. */
  function HDrifted(s: MizuSpec.Stage, w: MizuSpec.World, i: nat): (r: MizuSpec.World)
    requires i < |w.h|
    ensures |r.h| == |w.h|
  {
    MizuSpec.World(w.h[i := Drift(w.h[i], s.cw, s.ch, s.stream(w.drawn), s.host)], w.o, w.h2o, w.drawn + 1)
  }

  /**
   * renderH's inner loop for the H at slot i, over the snapshot of the slots from j on. A
   * slot is rewritten only when the scan is at it, so the snapshot and the live list agree
   * on every slot still to come; the new H written into a slot is never a target.
   */
  function Partners(s: MizuSpec.Stage, w: MizuSpec.World, i: nat, j: nat): (r: MizuSpec.World)
    requires i < j <= |w.h|
    ensures |r.h| == |w.h|
    decreases |w.h| - j
  {
    if j == |w.h| then w else Partners(s, Probe(s, w, i, j), i, j + 1)
  }

  /** One turn of that loop: a merged target is skipped; a free one that `_h` hits is paired. */
  function Probe(s: MizuSpec.Stage, w: MizuSpec.World, i: nat, j: nat): (r: MizuSpec.World)
    requires i < |w.h| && j < |w.h|
    ensures |r.h| == |w.h|
  {
    if MizuSpec.Free(w.h[i], w.h[j]) then Pair(s, w, i, j) else w
  }

  /**
   * One hit: `_h.isMerged = true; _h.reRender(ctx)` (a merged H draws no colour), then
   * `atoms[atoms.indexOf(target)] = this.factory('H')`.
   */
  function Pair(s: MizuSpec.Stage, w: MizuSpec.World, i: nat, j: nat): (r: MizuSpec.World)
    requires i < |w.h| && j < |w.h|
    ensures |r.h| == |w.h|
  {
    RenewH(s, Marked(s, w, i), j)
  }

  /** `_h.isMerged = true; _h.reRender(ctx)`: the H at slot i merges and is labelled again. */
  function Marked(s: MizuSpec.Stage, w: MizuSpec.World, i: nat): (r: MizuSpec.World)
    requires i < |w.h|
    ensures |r.h| == |w.h|
  {
    MizuSpec.World(w.h[i := Relabelled(Merge(w.h[i]), s.cw, s.host)], w.o, w.h2o, w.drawn)
  }

  /** `atoms[k] = this.factory('H')`: slot k of the H list gets a new H. */
  function RenewH(s: MizuSpec.Stage, w: MizuSpec.World, k: nat): (r: MizuSpec.World)
    requires k < |w.h|
    ensures |r.h| == |w.h|
  {
    MizuSpec.World(w.h[k := MizuSpec.Spawn(s, H, w.drawn)], w.o, w.h2o, w.drawn + MizuSpec.SpawnDraws)
  }

  // ---------------------------------------------------------------- renderO

  /**
   * renderO from slot idx on: each O drifts, then consumes the merged H it hits; the first
   * hit of an O replaces it and its second hit throws. A throw ends the pass.
   */
  function OPass(s: MizuSpec.Stage, w: MizuSpec.World, idx: nat): Outcome
    requires idx <= |w.o|
    decreases |w.o| - idx
  {
    if idx == |w.o| then Completed(w)
    else
      match OVisit(s, w, idx)
      case Completed(v) => OPass(s, v, idx + 1)
      case Threw(v) => Threw(v)
  }

  /** One iteration of renderO's outer loop, at slot idx: the O drifts, then consumes. */
  function OVisit(s: MizuSpec.Stage, w: MizuSpec.World, idx: nat): (r: Outcome)
    requires idx < |w.o|
    ensures |r.w.o| == |w.o|
  {
    var w1 := MizuSpec.ODrifted(s, w, idx);
    Consume(s, w1, idx, w1.o[idx], false, 0)
  }

  /**
   * renderO's inner loop from slot m on, for the drifted O `p` that sat at slot idx, over the
   * snapshot `hAtoms.filter(h => h.isMerged)`. A slot is rewritten only when the loop is at
   * it, and only with a free H, so visiting the merged slots of the live list is visiting
   * the snapshot. `replaced` says whether the O has already been replaced, so that
   * indexOf(_o) is -1 and `atoms[-1].clear()` throws on the next hit.
   */
  function Consume(s: MizuSpec.Stage, w: MizuSpec.World, idx: nat, p: Particle, replaced: bool, m: nat): (r: Outcome)
    requires idx < |w.o| && m <= |w.h|
    ensures |r.w.o| == |w.o|
    decreases |w.h| - m
  {
    if m == |w.h| then Completed(w)
    else if !(w.h[m].merged && HitsAtom(p, w.h[m])) then Consume(s, w, idx, p, replaced, m + 1)
    else if replaced then Threw(w)
    else Consume(s, Absorb(s, w, idx, p, m), idx, p, true, m + 1)
  }

  /**
   * The first hit of the O `p` on the H2 at slot m: the O's slot gets factory('O'), the
   * H2's slot factory('H'), and a droplet is pushed at p.
   */
  function Absorb(s: MizuSpec.Stage, w: MizuSpec.World, idx: nat, p: Particle, m: nat): (r: MizuSpec.World)
    requires idx < |w.o| && m < |w.h|
    ensures |r.h| == |w.h| && |r.o| == |w.o|
  {
    Dropped(s, RenewH(s, RenewO(s, w, idx), m), Coordinate(p.x, p.y))
  }

  /** `atoms[k] = this.factory('O')`: slot k of the O list gets a new O. */
  function RenewO(s: MizuSpec.Stage, w: MizuSpec.World, k: nat): (r: MizuSpec.World)
    requires k < |w.o|
    ensures |r.h| == |w.h| && |r.o| == |w.o|
  {
    MizuSpec.World(w.h, w.o[k := MizuSpec.Spawn(s, O, w.drawn)], w.h2o, w.drawn + MizuSpec.SpawnDraws)
  }

  /** `h2oAtoms.push(this.factory('H2o', c))`: a new droplet at the end of the list. */
  function Dropped(s: MizuSpec.Stage, w: MizuSpec.World, c: Coordinate): (r: MizuSpec.World)
    ensures |r.h| == |w.h| && |r.o| == |w.o| && |r.h2o| == |w.h2o| + 1
  {
    MizuSpec.World(w.h, w.o, w.h2o + [SpawnDroplet(s, c, w.drawn)], w.drawn + 1)
  }

  // ---------------------------------------------------------------- renderH2o

  /**
   * renderH2o's `for (const _h2o of atoms)` from position k of the live list: the droplet
   * there falls, then every flagged droplet is spliced out, and the loop goes on at k + 1
   * of the list as it now is, until k runs past its end.
   */
  function Drip(s: MizuSpec.Stage, w: MizuSpec.World, k: nat): MizuSpec.World
    decreases |w.h2o| - k
  {
    if k >= |w.h2o| then w else Drip(s, Purge(Fallen(s, w, k)), k + 1)
  }

  /** `_h2o.updatePosition(); _h2o.render(ctx)`: the droplet at slot k falls, on one draw. */
  function Fallen(s: MizuSpec.Stage, w: MizuSpec.World, k: nat): (r: MizuSpec.World)
    requires k < |w.h2o|
    ensures |r.h2o| == |w.h2o|
  {
    MizuSpec.World(w.h, w.o, w.h2o[k := LegacyFall(w.h2o[k], s.ch, s.stream(w.drawn), s.host)], w.drawn + 1)
  }

  /**
   * renderH2o's inner loop: over a reversed copy of the list, every droplet whose flag is
   * set is spliced out at its indexOf; the others stay in their order.
   */
  function Purge(w: MizuSpec.World): (r: MizuSpec.World)
    ensures |r.h2o| <= |w.h2o|
  {
    MizuSpec.World(w.h, w.o, Survivors(w.h2o), w.drawn)
  }

  // ---------------------------------------------------------------- frames

  /** start(): renderH, then renderO, then, unless renderO threw, renderH2o. */
  function Frame(s: MizuSpec.Stage, w: MizuSpec.World): Outcome {
    var w1 := HPass(s, w, 0);
    match OPass(s, w1, 0)
    case Threw(v) => Threw(v)
    case Completed(v) => Completed(Drip(s, v, 0))
  }
}
