/**
 * What the passes of MizuSimulator (js/Mizu.js) guarantee, proved about the functions of
 * MizuSpec that the class is proved to compute: population sizes, which slots a pass may
 * write and with what, that a merge is never undone, that every droplet is moved once and
 * exactly the expired ones are removed, and that each list keeps atoms of its own kind.
 */
module MizuProps {
  import opened Platform
  import opened Particles
  import opened Arrays
  import opened MizuSpec

  // ---------------------------------------------------------------- createAtom and init

  /** createAtom('H') and createAtom('O') place the atom inside the canvas [0, cw) x [0, ch). */
  lemma SpawnInCanvas(s: Stage, kind: Kind, k: nat)
    requires kind != H2o && 0.0 < s.cw && 0.0 < s.ch
    ensures var p := Spawn(s, kind, k);
            0.0 <= p.x < s.cw && 0.0 <= p.y < s.ch
  {
    var u: real, v: real := s.stream(k), s.stream(k + 1);
    assert 0.0 <= s.cw * u < s.cw by {
      assert s.cw - s.cw * u == s.cw * (1.0 - u) > 0.0;
    }
    assert 0.0 <= s.ch * v < s.ch by {
      assert s.ch - s.ch * v == s.ch * (1.0 - v) > 0.0;
    }
    var p := Spawn(s, kind, k);
    assert p.x == s.cw * u && p.y == s.ch * v;
  }

  /**
   * init(n, m) appends n new H and then m new O, made three draws each from consecutive
   * draws (SpawnsAt says which), and leaves the droplets alone.
   */
  lemma InitLists(s: Stage, w: World, n: nat, m: nat)
    ensures Init(s, w, n, m)
            == World(w.h + Spawns(s, H, w.drawn, n),
                     w.o + Spawns(s, O, w.drawn + SpawnDraws * n, m),
                     w.h2o, w.drawn + SpawnDraws * n + SpawnDraws * m)
  {
  }

  /** init keeps every list a list of atoms of its own kind with consistent flags. */
  lemma InitWellFormed(s: Stage, w: World, n: nat, m: nat)
    requires WellFormed(w)
    ensures WellFormed(Init(s, w, n, m))
  {
    InitLists(s, w, n, m);
    var hs := Spawns(s, H, w.drawn, n);
    var os := Spawns(s, O, w.drawn + SpawnDraws * n, m);
    assert AllOf(hs, H) by {
      forall t | 0 <= t < n
        ensures hs[t].kind == H && Consistent(hs[t])
      {
        SpawnsAt(s, H, w.drawn, n, t);
      }
    }
    assert AllOf(os, O) by {
      forall t | 0 <= t < m
        ensures os[t].kind == O && Consistent(os[t])
      {
        SpawnsAt(s, O, w.drawn + SpawnDraws * n, m, t);
      }
    }
    AllOfJoin(w.h, hs, H);
    AllOfJoin(w.o, os, O);
  }

  /** Joining two lists of atoms of a kind gives a list of atoms of that kind. */
  lemma AllOfJoin(a: seq<Particle>, b: seq<Particle>, kind: Kind)
    requires AllOf(a, kind) && AllOf(b, kind)
    ensures AllOf(a + b, kind)
  {
    forall k | 0 <= k < |a + b|
      ensures (a + b)[k].kind == kind && Consistent((a + b)[k])
    {
      if k >= |a| {
        assert (a + b)[k] == b[k - |a|];
      }
    }
  }

  // ---------------------------------------------------------------- renderH

  /**
   * The partner scan of the H at slot i from slot j: if no H in slots j.. is free for it,
   * nothing changes; otherwise, for the first free one at slot k, the H at i is merged (and
   * relabelled when drawn), slot k and only slot k gets a new H, and no other slot changes.
   */
  lemma {:induction false} PartnerIsFirstHit(s: Stage, w: World, i: nat, j: nat)
    requires i < j <= |w.h|
    ensures var r := Partner(s, w, i, j);
            && (r == w <==> forall k :: j <= k < |w.h| ==> !Free(w.h[i], w.h[k]))
            && (r != w ==>
                  exists k :: && j <= k < |w.h| && Free(w.h[i], w.h[k])
                              && (forall l :: j <= l < k ==> !Free(w.h[i], w.h[l]))
                              && r == World(w.h[i := Rendered(Merge(w.h[i]), s.cw, s.host)]
                                               [k := Spawn(s, H, w.drawn)],
                                            w.o, w.h2o, w.drawn + SpawnDraws))
    decreases |w.h| - j
  {
    var r := Partner(s, w, i, j);
    if j < |w.h| {
      if !Free(w.h[i], w.h[j]) {
        PartnerIsFirstHit(s, w, i, j + 1);
        assert r == Partner(s, w, i, j + 1);
        if r != w {
          var k :| && j + 1 <= k < |w.h| && Free(w.h[i], w.h[k])
                   && (forall l :: j + 1 <= l < k ==> !Free(w.h[i], w.h[l]))
                   && r == World(w.h[i := Rendered(Merge(w.h[i]), s.cw, s.host)]
                                    [k := Spawn(s, H, w.drawn)],
                                 w.o, w.h2o, w.drawn + SpawnDraws);
          assert forall l :: j <= l < k ==> !Free(w.h[i], w.h[l]);
        }
      } else {
        assert r.drawn != w.drawn;
      }
    }
  }

  /** The H flags go from "free" to "merged" to "relabelled" and never back. */
  ghost predicate HStep(p: Particle, q: Particle) {
    && (p.merged ==> q.merged)
    && (p.h2Rendered ==> q.h2Rendered)
  }

  /**
   * One visit of renderH, at slot i: the H there drifts and keeps its merge flag unless it
   * merges now; at most one later slot, holding a free H, is given a new free H; nothing
   * else changes, and every slot keeps an H with consistent flags.
   */
  lemma HVisitShape(s: Stage, w: World, i: nat)
    requires i < |w.h|
    ensures var r := HVisit(s, w, i);
            && |r.h| == |w.h| && r.o == w.o && r.h2o == w.h2o
            && w.drawn + 1 <= r.drawn <= w.drawn + 1 + SpawnDraws
            && HStep(w.h[i], r.h[i])
            && (forall k :: 0 <= k < |w.h| && k != i && r.h[k] != w.h[k] ==>
                  i < k && !w.h[k].merged && r.h[k] == Spawn(s, H, w.drawn + 1))
            && (forall k, l :: 0 <= k < l < |w.h| && r.h[k] != w.h[k] && r.h[l] != w.h[l] ==>
                  k == i)
            && (WellFormed(w) ==> WellFormed(r))
  {
    var w1 := HDrifted(s, w, i);
    var p := Drift(w.h[i], s.cw, s.ch, s.stream(w.drawn), s.host);
    assert w1.h[i] == Rendered(p, s.cw, s.host);
    if !w1.h[i].merged {
      PartnerIsFirstHit(s, w1, i, i + 1);
    }
    if WellFormed(w) {
      MovedKeepsFlags(w.h[i], s.cw, s.ch, s.stream(w.drawn), s.host);
      RenderedOnce(p, s.cw, s.host);
      var r := HVisit(s, w, i);
      forall k | 0 <= k < |r.h|
        ensures r.h[k].kind == H && Consistent(r.h[k])
      {
      }
    }
  }

  /**
   * renderH from slot i on keeps the number of H, touches neither the O nor the droplets,
   * leaves the slots before i alone, never clears a merge or a relabelling, and keeps every
   * slot an H with consistent flags.
   */
  lemma {:induction false} HPassShape(s: Stage, w: World, i: nat)
    requires i <= |w.h|
    ensures var r := HPass(s, w, i);
            && |r.h| == |w.h| && r.o == w.o && r.h2o == w.h2o
            && r.h[..i] == w.h[..i]
            && w.drawn + (|w.h| - i) <= r.drawn
            && (forall k :: 0 <= k < |w.h| && WellFormed(w) ==> HStep(w.h[k], r.h[k]))
            && (WellFormed(w) ==> WellFormed(r))
    decreases |w.h| - i
  {
    if i < |w.h| {
      var v := HVisit(s, w, i);
      HVisitShape(s, w, i);
      HPassShape(s, v, i + 1);
      var r := HPass(s, w, i);
      assert r == HPass(s, v, i + 1);
      forall k | 0 <= k < i
        ensures r.h[k] == w.h[k]
      {
        assert r.h[k] == r.h[..i + 1][k] == v.h[..i + 1][k] == v.h[k];
      }
      if WellFormed(w) {
        forall k | 0 <= k < |w.h|
          ensures HStep(w.h[k], r.h[k])
        {
          if k <= i {
            assert r.h[k] == r.h[..i + 1][k] == v.h[k];
          } else if v.h[k] != w.h[k] {
            assert !w.h[k].merged && Consistent(w.h[k]);
          }
        }
      }
    }
  }

  // ---------------------------------------------------------------- renderO

  /** The number of merged H (H2) in a list. */
  function MergedCount(h: seq<Particle>): nat {
    |set k | 0 <= k < |h| && h[k].merged|
  }

  /** Turning one H2 into a free H lowers the count of H2 by one. */
  lemma MergedCountUnmerge(h: seq<Particle>, m: nat, x: Particle)
    requires m < |h| && h[m].merged && !x.merged
    ensures MergedCount(h[m := x]) == MergedCount(h) - 1
  {
    var a := set k | 0 <= k < |h| && h[k].merged;
    var g := h[m := x];
    var b := set k | 0 <= k < |g| && g[k].merged;
    assert b == a - {m};
  }

  /** The merged H from slot m on that the O `p` hits: the hits of renderO's inner loop. */
  function HitCount(h: seq<Particle>, p: Particle, m: nat): nat
    requires m <= |h|
    decreases |h| - m
  {
    if m == |h| then 0
    else (if h[m].merged && HitsAtom(p, h[m]) then 1 else 0) + HitCount(h, p, m + 1)
  }

  /** Only the slots from m on count. */
  lemma {:induction false} HitCountFrame(h: seq<Particle>, g: seq<Particle>, p: Particle, m: nat)
    requires m <= |h| == |g| && h[m..] == g[m..]
    ensures HitCount(h, p, m) == HitCount(g, p, m)
    decreases |h| - m
  {
    if m < |h| {
      assert h[m] == h[m..][0] == g[m];
      assert h[m + 1..] == h[m..][1..];
      assert g[m + 1..] == g[m..][1..];
      HitCountFrame(h, g, p, m + 1);
    }
  }

  /** A hit is either the O's first one in this pass or a later one. */
  lemma AbsorbShape(s: Stage, w: World, idx: nat, p: Particle, replaced: bool, m: nat)
    requires idx < |w.o| && m < |w.h|
    ensures var r := Absorb(s, w, idx, p, replaced, m);
            && r.h == w.h[m := r.h[m]] && r.h[m].kind == H && Consistent(r.h[m])
            && !r.h[m].merged
            && r.o == (if replaced then w.o else w.o[idx := Spawn(s, O, w.drawn)])
            && r.h2o == w.h2o + [r.h2o[|w.h2o|]]
            && r.h2o[|w.h2o|] == SpawnDroplet(s, Coordinate(p.x, p.y), r.drawn - 1)
            && r.drawn == w.drawn + SpawnDraws + 1 + (if replaced then 0 else SpawnDraws)
  {
  }

  /**
   * renderO's inner loop for the O `p` from slot m on: every merged H it hits is replaced by
   * a new free H, and every other slot is left alone.
   */
  lemma {:induction false} ConsumeSlots(s: Stage, w: World, idx: nat, p: Particle, replaced: bool, m: nat)
    requires idx < |w.o| && m <= |w.h|
    ensures var r := Consume(s, w, idx, p, replaced, m);
            && |r.h| == |w.h| && r.h[..m] == w.h[..m]
            && (forall k :: m <= k < |w.h| ==>
                  if w.h[k].merged && HitsAtom(p, w.h[k])
                  then r.h[k].kind == H && !r.h[k].merged && Consistent(r.h[k])
                  else r.h[k] == w.h[k])
    decreases |w.h| - m
  {
    if m < |w.h| {
      var r := Consume(s, w, idx, p, replaced, m);
      if !(w.h[m].merged && HitsAtom(p, w.h[m])) {
        ConsumeSlots(s, w, idx, p, replaced, m + 1);
        assert r.h[..m] == r.h[..m + 1][..m];
      } else {
        var v := Absorb(s, w, idx, p, replaced, m);
        AbsorbShape(s, w, idx, p, replaced, m);
        ConsumeSlots(s, v, idx, p, true, m + 1);
        assert r == Consume(s, v, idx, p, true, m + 1);
        assert r.h[..m] == r.h[..m + 1][..m] == v.h[..m + 1][..m];
        assert r.h[m] == r.h[..m + 1][m] == v.h[m];
      }
    }
  }

  /**
   * renderO's inner loop for the O `p` at slot idx, from slot m on: the O's slot is given a
   * new O on the first hit only, and not at all once `replaced`.
   */
  lemma {:induction false} ConsumeReplacesOnce(s: Stage, w: World, idx: nat, p: Particle, replaced: bool, m: nat)
    requires idx < |w.o| && m <= |w.h|
    ensures Consume(s, w, idx, p, replaced, m).o
            == if replaced || HitCount(w.h, p, m) == 0 then w.o else w.o[idx := Spawn(s, O, w.drawn)]
    decreases |w.h| - m
  {
    if m < |w.h| {
      if !(w.h[m].merged && HitsAtom(p, w.h[m])) {
        ConsumeReplacesOnce(s, w, idx, p, replaced, m + 1);
      } else {
        var v := Absorb(s, w, idx, p, replaced, m);
        AbsorbShape(s, w, idx, p, replaced, m);
        ConsumeReplacesOnce(s, v, idx, p, true, m + 1);
      }
    }
  }

  /**
   * renderO's inner loop for the O `p` from slot m on adds one droplet for each hit, each
   * at p, new and not expired, behind the droplets so far.
   */
  lemma {:induction false} ConsumeDroplets(s: Stage, w: World, idx: nat, p: Particle, replaced: bool, m: nat)
    requires idx < |w.o| && m <= |w.h|
    ensures var r := Consume(s, w, idx, p, replaced, m);
            && |r.h2o| == |w.h2o| + HitCount(w.h, p, m)
            && r.h2o[..|w.h2o|] == w.h2o
            && (forall t :: |w.h2o| <= t < |r.h2o| ==>
                  && r.h2o[t].kind == H2o && !r.h2o[t].deleted && Consistent(r.h2o[t])
                  && r.h2o[t].x == p.x && r.h2o[t].y == p.y)
    decreases |w.h| - m
  {
    if m < |w.h| {
      if !(w.h[m].merged && HitsAtom(p, w.h[m])) {
        ConsumeDroplets(s, w, idx, p, replaced, m + 1);
      } else {
        var v := Absorb(s, w, idx, p, replaced, m);
        AbsorbShape(s, w, idx, p, replaced, m);
        ConsumeDroplets(s, v, idx, p, true, m + 1);
        assert v.h[m + 1..] == w.h[m + 1..];
        HitCountFrame(v.h, w.h, p, m + 1);
        var r := Consume(s, w, idx, p, replaced, m);
        assert r == Consume(s, v, idx, p, true, m + 1);
        assert r.h2o[..|w.h2o|] == r.h2o[..|v.h2o|][..|w.h2o|];
        forall t | |w.h2o| <= t < |r.h2o|
          ensures && r.h2o[t].kind == H2o && !r.h2o[t].deleted && Consistent(r.h2o[t])
                  && r.h2o[t].x == p.x && r.h2o[t].y == p.y
        {
          if t == |w.h2o| {
            assert r.h2o[t] == r.h2o[..|v.h2o|][t] == v.h2o[t];
          }
        }
      }
    }
  }

  /** In renderO's inner loop each new droplet stands for one H2 turned back into an H. */
  lemma {:induction false} ConsumeConserves(s: Stage, w: World, idx: nat, p: Particle, replaced: bool, m: nat)
    requires idx < |w.o| && m <= |w.h|
    ensures var r := Consume(s, w, idx, p, replaced, m);
            |r.h2o| + MergedCount(r.h) == |w.h2o| + MergedCount(w.h)
    decreases |w.h| - m
  {
    if m < |w.h| {
      if !(w.h[m].merged && HitsAtom(p, w.h[m])) {
        ConsumeConserves(s, w, idx, p, replaced, m + 1);
      } else {
        var v := Absorb(s, w, idx, p, replaced, m);
        AbsorbShape(s, w, idx, p, replaced, m);
        ConsumeConserves(s, v, idx, p, true, m + 1);
        MergedCountUnmerge(w.h, m, v.h[m]);
      }
    }
  }

  /**
   * One visit of renderO, at slot idx: the O there drifts and consumes; the H list keeps
   * its length and every free H; the droplets so far stay in front; each new droplet
   * stands for one H2 consumed.
   */
  lemma OVisitShape(s: Stage, w: World, idx: nat)
    requires idx < |w.o|
    ensures var r := OVisit(s, w, idx);
            && |r.h| == |w.h| && |r.o| == |w.o|
            && (forall k :: 0 <= k < |w.o| && k != idx ==> r.o[k] == w.o[k])
            && (forall k :: 0 <= k < |w.h| && r.h[k] != w.h[k] ==> w.h[k].merged)
            && (forall k :: 0 <= k < |w.h| ==>
                  (r.h[k].kind == H && Consistent(r.h[k])) || r.h[k] == w.h[k])
            && |w.h2o| <= |r.h2o| && r.h2o[..|w.h2o|] == w.h2o
            && (forall t :: |w.h2o| <= t < |r.h2o| ==> r.h2o[t].kind == H2o && Consistent(r.h2o[t]))
            && |r.h2o| + MergedCount(r.h) == |w.h2o| + MergedCount(w.h)
            && (WellFormed(w) ==> r.o[idx].kind == O && Consistent(r.o[idx]))
  {
    var w1 := ODrifted(s, w, idx);
    ConsumeSlots(s, w1, idx, w1.o[idx], false, 0);
    ConsumeReplacesOnce(s, w1, idx, w1.o[idx], false, 0);
    ConsumeDroplets(s, w1, idx, w1.o[idx], false, 0);
    ConsumeConserves(s, w1, idx, w1.o[idx], false, 0);
    if WellFormed(w) {
      MovedKeepsFlags(w.o[idx], s.cw, s.ch, s.stream(w.drawn), s.host);
    }
  }

  /**
   * renderO from slot idx on keeps the number of H and of O, leaves every free H and the
   * O before idx alone, only appends droplets, and each droplet it adds stands for one H2
   * it consumed.
   */
  lemma {:induction false} OPassShape(s: Stage, w: World, idx: nat)
    requires idx <= |w.o|
    ensures var r := OPass(s, w, idx);
            && |r.h| == |w.h| && |r.o| == |w.o|
            && r.o[..idx] == w.o[..idx]
            && (forall k :: 0 <= k < |w.h| && !w.h[k].merged ==> r.h[k] == w.h[k])
            && |w.h2o| <= |r.h2o| && r.h2o[..|w.h2o|] == w.h2o
            && |r.h2o| + MergedCount(r.h) == |w.h2o| + MergedCount(w.h)
    decreases |w.o| - idx
  {
    if idx < |w.o| {
      var v := OVisit(s, w, idx);
      OVisitShape(s, w, idx);
      OPassShape(s, v, idx + 1);
      var r := OPass(s, w, idx);
      assert r == OPass(s, v, idx + 1);
      forall k | 0 <= k < idx
        ensures r.o[k] == w.o[k]
      {
        assert r.o[k] == r.o[..idx + 1][k] == v.o[k];
      }
      assert r.h2o[..|w.h2o|] == r.h2o[..|v.h2o|][..|w.h2o|];
    }
  }

  /** renderO keeps every list a list of atoms of its own kind with consistent flags. */
  lemma {:induction false} OPassWellFormed(s: Stage, w: World, idx: nat)
    requires idx <= |w.o| && WellFormed(w)
    ensures WellFormed(OPass(s, w, idx))
    decreases |w.o| - idx
  {
    if idx < |w.o| {
      var v := OVisit(s, w, idx);
      OVisitShape(s, w, idx);
      assert WellFormed(v);
      OPassWellFormed(s, v, idx + 1);
    }
  }

  // ---------------------------------------------------------------- renderH2o

  /**
   * The droplets `ps` after one fall each, as renderH2o's reverse loop makes them: the last
   * one falls on draw d, the one before it on draw d + 1, and so on.
   */
  function Falls(s: Stage, ps: seq<Particle>, d: nat): (r: seq<Particle>)
    ensures |r| == |ps|
    decreases |ps|
  {
    if |ps| == 0 then []
    else Falls(s, ps[..|ps| - 1], d + 1) + [Fall(ps[|ps| - 1], s.ch, s.stream(d), s.host)]
  }

  /** A prefix one longer is the shorter prefix and one more element. */
  lemma PrefixSnoc<T>(a: seq<T>, i: nat)
    requires 0 < i <= |a|
    ensures a[..i] == a[..i - 1] + [a[i - 1]]
  {
  }

  /** One more droplet at the end falls first, on the first draw. */
  lemma FallsSnoc(s: Stage, ps: seq<Particle>, q: Particle, d: nat)
    ensures Falls(s, ps + [q], d) == Falls(s, ps, d + 1) + [Fall(q, s.ch, s.stream(d), s.host)]
  {
    assert (ps + [q])[..|ps|] == ps;
  }

  /** The visit of slot i - 1 replaces that droplet by its fall, or by nothing if expired. */
  lemma DripVisitParts(s: Stage, w: World, i: nat)
    requires 0 < i <= |w.h2o|
    ensures var q := Fall(w.h2o[i - 1], s.ch, s.stream(w.drawn), s.host);
            DripVisit(s, w, i - 1)
              == World(w.h, w.o, w.h2o[..i - 1] + (if q.deleted then [] else [q]) + w.h2o[i..],
                       w.drawn + 1)
  {
    var q := Fall(w.h2o[i - 1], s.ch, s.stream(w.drawn), s.host);
    if q.deleted {
      assert Splice(w.h2o[i - 1 := q], i - 1) == w.h2o[..i - 1] + w.h2o[i..];
    } else {
      assert w.h2o[i - 1 := q] == w.h2o[..i - 1] + [q] + w.h2o[i..];
    }
  }

  /**
   * What DripFilters claims for the first i droplets of w follows from what it claims for
   * the first i - 1 droplets of the world after the visit of slot i - 1.
   */
  lemma DripFiltersStep(s: Stage, w: World, i: nat)
    requires 0 < i <= |w.h2o|
    ensures var v := DripVisit(s, w, i - 1);
            && i - 1 <= |v.h2o|
            && World(v.h, v.o, Survivors(Falls(s, v.h2o[..i - 1], v.drawn)) + v.h2o[i - 1..],
                     v.drawn + (i - 1))
               == World(w.h, w.o, Survivors(Falls(s, w.h2o[..i], w.drawn)) + w.h2o[i..],
                        w.drawn + i)
  {
    var pre, rest := w.h2o[..i - 1], w.h2o[i..];
    var q := Fall(w.h2o[i - 1], s.ch, s.stream(w.drawn), s.host);
    var kept := if q.deleted then [] else [q];
    var v := DripVisit(s, w, i - 1);
    DripVisitParts(s, w, i);
    assert v.h2o == pre + kept + rest;
    assert v.h2o[..i - 1] == pre;
    assert v.h2o[i - 1..] == kept + rest;
    var left := Survivors(Falls(s, pre, w.drawn + 1));
    PrefixSnoc(w.h2o, i);
    FallsSnoc(s, pre, w.h2o[i - 1], w.drawn);
    SurvivorsSnoc(Falls(s, pre, w.drawn + 1), q);
    assert Survivors(Falls(s, w.h2o[..i], w.drawn)) == left + kept;
    Associative(left, kept, rest);
  }

  /**
   * renderH2o over the first i droplets, counting down: each of them falls exactly once,
   * on consecutive draws from the top slot down, exactly the ones that expired are removed,
   * the rest keep their order, slots from i on are left alone, and nothing else changes.
   */
  lemma {:induction false} DripFilters(s: Stage, w: World, i: nat)
    requires i <= |w.h2o|
    ensures Drip(s, w, i)
            == World(w.h, w.o, Survivors(Falls(s, w.h2o[..i], w.drawn)) + w.h2o[i..], w.drawn + i)
    decreases i
  {
    if i > 0 {
      var v := DripVisit(s, w, i - 1);
      DripAfterVisit(s, w, v, i, Drip(s, w, i));
      DripFilters(s, v, i - 1);
      DripFiltersStep(s, w, i);
    } else {
      assert w.h2o[..0] == [] && w.h2o[0..] == w.h2o;
    }
  }

  /** A fall keeps a droplet a droplet with consistent flags. */
  lemma {:induction false} FallsKeepKind(s: Stage, ps: seq<Particle>, d: nat)
    requires AllOf(ps, H2o)
    ensures AllOf(Falls(s, ps, d), H2o)
    decreases |ps|
  {
    if |ps| > 0 {
      FallsKeepKind(s, ps[..|ps| - 1], d + 1);
    }
  }

  /** Filtering keeps droplets droplets. */
  lemma {:induction false} SurvivorsKeepKind(qs: seq<Particle>)
    requires AllOf(qs, H2o)
    ensures AllOf(Survivors(qs), H2o)
    decreases |qs|
  {
    if |qs| > 0 {
      SurvivorsKeepKind(qs[..|qs| - 1]);
    }
  }

  /**
   * The whole of renderH2o: every droplet falls once, the expired ones are gone, no
   * remaining droplet is expired, there are no more droplets than before, h and o are
   * untouched, and the droplets keep consistent flags.
   */
  lemma DripAll(s: Stage, w: World)
    ensures var r := Drip(s, w, |w.h2o|);
            && r == World(w.h, w.o, Survivors(Falls(s, w.h2o, w.drawn)), w.drawn + |w.h2o|)
            && |r.h2o| <= |w.h2o|
            && (forall k :: 0 <= k < |r.h2o| ==> !r.h2o[k].deleted)
            && (WellFormed(w) ==> WellFormed(r))
  {
    var n := |w.h2o|;
    var fs := Falls(s, w.h2o, w.drawn);
    DripFilters(s, w, n);
    assert w.h2o[..n] == w.h2o;
    assert w.h2o[n..] == [];
    assert Survivors(fs) + w.h2o[n..] == Survivors(fs);
    SurvivorsFilter(fs);
    if WellFormed(w) {
      FallsKeepKind(s, w.h2o, w.drawn);
      SurvivorsKeepKind(fs);
    }
  }

  // ---------------------------------------------------------------- frames

  /**
   * One frame keeps the number of H and of O, leaves no expired droplet, and keeps every
   * list a list of atoms of its own kind.
   */
  lemma FrameShape(s: Stage, w: World)
    ensures var r := Frame(s, w);
            && |r.h| == |w.h| && |r.o| == |w.o|
            && (forall k :: 0 <= k < |r.h2o| ==> !r.h2o[k].deleted)
            && (WellFormed(w) ==> WellFormed(r))
  {
    var w1 := HPass(s, w, 0);
    var w2 := OPass(s, w1, 0);
    HPassShape(s, w, 0);
    OPassShape(s, w1, 0);
    if WellFormed(w) {
      OPassWellFormed(s, w1, 0);
    }
    DripAll(s, w2);
  }

  /** Any number of frames keeps the populations of H and O and the well-formedness. */
  lemma {:induction false} RunShape(s: Stage, w: World, n: nat)
    ensures var r := Run(s, w, n);
            && |r.h| == |w.h| && |r.o| == |w.o|
            && (WellFormed(w) ==> WellFormed(r))
    decreases n
  {
    if n > 0 {
      FrameShape(s, w);
      RunShape(s, Frame(s, w), n - 1);
    }
  }
}
