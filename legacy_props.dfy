/**
 * What the passes of the older H2oSimulator (js/h2o.js) guarantee, proved about the
 * functions of LegacySpec that the class is proved to compute. Where the older simulator
 * behaves differently from MizuSimulator, the lemmas here say how: one H takes every free H
 * it hits, a second hit of an O throws, and a droplet behind an expired one is skipped.
 */
module LegacyProps {
  import opened Platform
  import opened Particles
  import opened LegacyAtoms
  import opened MizuSpec
  import opened LegacySpec
  import MizuProps

  // ---------------------------------------------------------------- renderH

  /** The free H in slots [j, k) that `a` hits. */
  function FreeHits(h: seq<Particle>, a: Particle, j: nat, k: nat): nat
    requires j <= k <= |h|
    decreases k - j
  {
    if j == k then 0 else (if Free(a, h[j]) then 1 else 0) + FreeHits(h, a, j + 1, k)
  }

  /** Only the slots in [j, k) count. */
  lemma {:induction false} FreeHitsFrame(h: seq<Particle>, g: seq<Particle>, a: Particle, j: nat, k: nat)
    requires j <= k <= |h| && k <= |g| && forall l :: j <= l < k ==> h[l] == g[l]
    ensures FreeHits(h, a, j, k) == FreeHits(g, a, j, k)
    decreases k - j
  {
    if j < k {
      FreeHitsFrame(h, g, a, j + 1, k);
    }
  }

  /**
   * renderH's inner loop once `_h` has merged: its label no longer changes, and every free
   * H it hits from slot j on is replaced by a new H, on consecutive draws; the loop goes on
   * after each hit.
   */
  lemma {:induction false} PartnersAfterMerge(s: Stage, w: World, i: nat, j: nat)
    requires i < j <= |w.h| && Relabelled(Merge(w.h[i]), s.cw, s.host) == w.h[i]
    ensures var r := Partners(s, w, i, j);
            var a := w.h[i];
            && r.o == w.o && r.h2o == w.h2o && |r.h| == |w.h|
            && (forall k :: 0 <= k < j ==> r.h[k] == w.h[k])
            && r.drawn == w.drawn + SpawnDraws * FreeHits(w.h, a, j, |w.h|)
            && (forall k :: j <= k < |w.h| ==>
                  r.h[k] == if Free(a, w.h[k]) then Spawn(s, H, w.drawn + SpawnDraws * FreeHits(w.h, a, j, k))
                            else w.h[k])
    decreases |w.h| - j
  {
    if j < |w.h| {
      var a := w.h[i];
      var v := Probe(s, w, i, j);
      var hit := Free(a, w.h[j]);
      assert v.h == (if hit then w.h[j := Spawn(s, H, w.drawn)] else w.h) by {
        if hit {
          assert w.h[i := Relabelled(Merge(a), s.cw, s.host)] == w.h;
        }
      }
      assert v.drawn == w.drawn + (if hit then SpawnDraws else 0);
      PartnersAfterMerge(s, v, i, j + 1);
      var r := Partners(s, w, i, j);
      assert r == Partners(s, v, i, j + 1);
      FreeHitsFrame(v.h, w.h, a, j + 1, |w.h|);
      forall k: nat {:trigger FreeHits(w.h, a, j + 1, k)} | j < k < |w.h|
        ensures FreeHits(v.h, a, j + 1, k) == FreeHits(w.h, a, j + 1, k)
      {
        FreeHitsFrame(v.h, w.h, a, j + 1, k);
      }
    }
  }

  /** renderH's inner loop passes over the targets `_h` does not take. */
  lemma {:induction false} PartnersSkip(s: Stage, w: World, i: nat, j: nat, k: nat)
    requires i < j <= k <= |w.h| && forall l :: j <= l < k ==> !Free(w.h[i], w.h[l])
    ensures Partners(s, w, i, j) == Partners(s, w, i, k)
    decreases k - j
  {
    if j < k {
      PartnersSkip(s, w, i, j + 1, k);
    }
  }

  /** With no free H within reach from slot j on, renderH's inner loop changes nothing. */
  lemma PartnersNoHit(s: Stage, w: World, i: nat, j: nat)
    requires i < j <= |w.h| && forall l :: j <= l < |w.h| ==> !Free(w.h[i], w.h[l])
    ensures Partners(s, w, i, j) == w
  {
    PartnersSkip(s, w, i, j, |w.h|);
  }

  /**
   * renderH's inner loop for a free H at slot i whose first free target from slot j on is
   * at slot k: the H merges and is relabelled H2 (its position kept, its size and radius
   * measured for the new name), slot k gets a new H, and the scan goes on after slot k with
   * the H2, which PartnersAfterMerge describes.
   */
  lemma PartnersFirstHit(s: Stage, w: World, i: nat, j: nat, k: nat)
    requires i < j <= k < |w.h| && w.h[i].kind == H
    requires Free(w.h[i], w.h[k]) && forall l :: j <= l < k ==> !Free(w.h[i], w.h[l])
    ensures var v := Pair(s, w, i, k);
            var q := v.h[i];
            && Partners(s, w, i, j) == Partners(s, v, i, k + 1)
            && q == Relabelled(Merge(w.h[i]), s.cw, s.host) && Relabelled(Merge(q), s.cw, s.host) == q
            && q.merged && Name(q) == "H2" && q.x == w.h[i].x && q.y == w.h[i].y
            && v.h == w.h[i := q][k := Spawn(s, H, w.drawn)] && v.drawn == w.drawn + SpawnDraws
            && v.o == w.o && v.h2o == w.h2o
  {
    RelabelledStable(w.h[i], s.cw, s.host);
    PartnersSkip(s, w, i, j, k);
  }

  /**
   * What `continue` after a hit does: an H that hits two free H in one scan takes both of
   * them, each replaced by a new H, where MizuSimulator's `break` stops at the first.
   */
  lemma TwoPartnersTaken(s: Stage, w: World)
    requires |w.h| == 3 && w.h[0].kind == H
    requires Free(w.h[0], w.h[1]) && Free(Relabelled(Merge(w.h[0]), s.cw, s.host), w.h[2])
    ensures var r := Partners(s, w, 0, 1);
            && r.h == [Relabelled(Merge(w.h[0]), s.cw, s.host), Spawn(s, H, w.drawn),
                       Spawn(s, H, w.drawn + SpawnDraws)]
            && r.drawn == w.drawn + 2 * SpawnDraws
  {
    PartnersFirstHit(s, w, 0, 1, 1);
    var v := Pair(s, w, 0, 1);
    PartnersAfterMerge(s, v, 0, 2);
    assert FreeHits(v.h, v.h[0], 2, 2) == 0;
    assert FreeHits(v.h, v.h[0], 2, 3) == 1;
  }

  /**
   * One turn of renderH's inner loop keeps the lists' lengths, the O and the droplets; a hit
   * merges the H at slot i and gives slot j a new free H, and a miss changes nothing. Every
   * slot keeps an H with consistent flags, and no merge is undone.
   */
  lemma ProbeShape(s: Stage, w: World, i: nat, j: nat)
    requires i < j < |w.h|
    ensures var r := Probe(s, w, i, j);
            && r.o == w.o && r.h2o == w.h2o
            && (forall k :: 0 <= k < |w.h| && k != i && k != j ==> r.h[k] == w.h[k])
            && (r.h[j] == w.h[j] || (!w.h[j].merged && r.h[j] == Spawn(s, H, w.drawn)))
            && (forall k :: 0 <= k < |w.h| && w.h[k].merged ==> r.h[k].merged)
            && (WellFormed(w) ==> WellFormed(r))
  {
  }

  /** renderH's inner loop for slot i leaves the slots before j, the O and the droplets alone. */
  lemma {:induction false} PartnersShape(s: Stage, w: World, i: nat, j: nat)
    requires i < j <= |w.h|
    ensures var r := Partners(s, w, i, j);
            && r.o == w.o && r.h2o == w.h2o
            && (forall k :: 0 <= k < j && k != i ==> r.h[k] == w.h[k])
            && (forall k :: 0 <= k < |w.h| && w.h[k].merged ==> r.h[k].merged)
            && (WellFormed(w) ==> WellFormed(r))
    decreases |w.h| - j
  {
    if j < |w.h| {
      ProbeShape(s, w, i, j);
      PartnersShape(s, Probe(s, w, i, j), i, j + 1);
    }
  }

  /**
   * renderH from slot i on keeps the number of H, touches neither the O nor the droplets,
   * leaves the slots before i alone, never undoes a merge, and keeps every slot an H with
   * consistent flags.
   */
  lemma {:induction false} HPassShape(s: Stage, w: World, i: nat)
    requires i <= |w.h|
    ensures var r := LegacySpec.HPass(s, w, i);
            && |r.h| == |w.h| && r.o == w.o && r.h2o == w.h2o
            && (forall k :: 0 <= k < i ==> r.h[k] == w.h[k])
            && (WellFormed(w) ==> WellFormed(r))
            && (forall k :: 0 <= k < |w.h| && WellFormed(w) && w.h[k].merged ==> r.h[k].merged)
    decreases |w.h| - i
  {
    if i < |w.h| {
      var w1 := LegacySpec.HDrifted(s, w, i);
      var v := LegacySpec.HVisit(s, w, i);
      if WellFormed(w) {
        MovedKeepsFlags(w.h[i], s.cw, s.ch, s.stream(w.drawn), s.host);
        assert WellFormed(w1);
      }
      if !w1.h[i].merged {
        PartnersShape(s, w1, i, i + 1);
      }
      HPassShape(s, v, i + 1);
    }
  }

  // ---------------------------------------------------------------- renderO

  /** The first slot from m on holding a merged H that the O `p` hits. */
  function FirstHit(h: seq<Particle>, p: Particle, m: nat): (k: nat)
    requires m <= |h| && MizuProps.HitCount(h, p, m) > 0
    ensures m <= k < |h| && h[k].merged && HitsAtom(p, h[k])
    ensures forall l :: m <= l < k ==> !(h[l].merged && HitsAtom(p, h[l]))
    decreases |h| - m
  {
    if h[m].merged && HitsAtom(p, h[m]) then m else FirstHit(h, p, m + 1)
  }

  /**
   * One hit of renderO's inner loop: the O's slot gets a new O, the H2's slot a new H
   * (drawn after it), and one new droplet at the O is pushed (drawn last).
   */
  lemma AbsorbShape(s: Stage, w: World, idx: nat, p: Particle, m: nat)
    requires idx < |w.o| && m < |w.h|
    ensures var r := LegacySpec.Absorb(s, w, idx, p, m);
            && r.o == w.o[idx := Spawn(s, O, w.drawn)]
            && r.h == w.h[m := Spawn(s, H, w.drawn + SpawnDraws)]
            && r.h2o == w.h2o + [LegacySpec.SpawnDroplet(s, Coordinate(p.x, p.y), w.drawn + 2 * SpawnDraws)]
            && r.drawn == w.drawn + 2 * SpawnDraws + 1
  {
  }

  /**
   * renderO's inner loop for the O `p` from slot m on, by the number of H2 it hits there:
   * with none, nothing changes; an O already replaced throws at its next hit with nothing
   * changed; otherwise the first hit is absorbed, and the loop completes if that was the
   * only hit and throws at the second one if not.
   */
  lemma {:induction false} ConsumeResult(s: Stage, w: World, idx: nat, p: Particle, replaced: bool, m: nat)
    requires idx < |w.o| && m <= |w.h|
    ensures var n := MizuProps.HitCount(w.h, p, m);
            LegacySpec.Consume(s, w, idx, p, replaced, m)
            == if n == 0 then Completed(w)
               else if replaced then Threw(w)
               else
                 var v := LegacySpec.Absorb(s, w, idx, p, FirstHit(w.h, p, m));
                 if n == 1 then Completed(v) else Threw(v)
    decreases |w.h| - m
  {
    if m < |w.h| {
      if !(w.h[m].merged && HitsAtom(p, w.h[m])) {
        ConsumeResult(s, w, idx, p, replaced, m + 1);
      } else if !replaced {
        var v := LegacySpec.Absorb(s, w, idx, p, m);
        AbsorbShape(s, w, idx, p, m);
        ConsumeResult(s, v, idx, p, true, m + 1);
        assert v.h[m + 1..] == w.h[m + 1..];
        MizuProps.HitCountFrame(v.h, w.h, p, m + 1);
      }
    }
  }

  /**
   * The bug of the second hit: an O within reach of two H2 in one frame is replaced at the
   * first, and at the second indexOf finds it no longer in the list and `atoms[-1].clear()`
   * throws, ending the frame with one droplet made and the second H2 still in place.
   */
  lemma SecondHitThrows(s: Stage, w: World, idx: nat, p: Particle)
    requires idx < |w.o| && MizuProps.HitCount(w.h, p, 0) >= 2
    ensures var k := FirstHit(w.h, p, 0);
            var v := LegacySpec.Absorb(s, w, idx, p, k);
            && LegacySpec.Consume(s, w, idx, p, false, 0) == Threw(v)
            && |v.h2o| == |w.h2o| + 1
            && MizuProps.HitCount(v.h, p, k + 1) >= 1
  {
    var k := FirstHit(w.h, p, 0);
    var v := LegacySpec.Absorb(s, w, idx, p, k);
    ConsumeResult(s, w, idx, p, false, 0);
    AbsorbHitsAfter(w.h, p, 0);
    AbsorbShape(s, w, idx, p, k);
    assert v.h[k + 1..] == w.h[k + 1..];
    MizuProps.HitCountFrame(v.h, w.h, p, k + 1);
  }

  /** The hits from m on are the first one and the hits after it. */
  lemma {:induction false} AbsorbHitsAfter(h: seq<Particle>, p: Particle, m: nat)
    requires m <= |h| && MizuProps.HitCount(h, p, m) > 0
    ensures MizuProps.HitCount(h, p, m) == 1 + MizuProps.HitCount(h, p, FirstHit(h, p, m) + 1)
    decreases |h| - m
  {
    if !(h[m].merged && HitsAtom(p, h[m])) {
      AbsorbHitsAfter(h, p, m + 1);
    }
  }

  /**
   * One visit of renderO, at slot idx: the O there drifts and consumes; the H list keeps its
   * length and every free H; the droplets so far stay in front, with at most one new one;
   * each new droplet stands for one H2 consumed; the lists keep atoms of their own kinds.
   */
  lemma OVisitShape(s: Stage, w: World, idx: nat)
    requires idx < |w.o|
    ensures var r := LegacySpec.OVisit(s, w, idx).w;
            && |r.h| == |w.h| && |r.o| == |w.o|
            && (forall k :: 0 <= k < |w.o| && k != idx ==> r.o[k] == w.o[k])
            && (forall k :: 0 <= k < |w.h| && r.h[k] != w.h[k] ==> w.h[k].merged)
            && |w.h2o| <= |r.h2o| <= |w.h2o| + 1 && r.h2o[..|w.h2o|] == w.h2o
            && |r.h2o| + MizuProps.MergedCount(r.h) == |w.h2o| + MizuProps.MergedCount(w.h)
            && (WellFormed(w) ==> WellFormed(r))
  {
    var w1 := ODrifted(s, w, idx);
    var p := w1.o[idx];
    ConsumeResult(s, w1, idx, p, false, 0);
    if WellFormed(w) {
      MovedKeepsFlags(w.o[idx], s.cw, s.ch, s.stream(w.drawn), s.host);
      assert WellFormed(w1);
    }
    if MizuProps.HitCount(w1.h, p, 0) > 0 {
      var k := FirstHit(w1.h, p, 0);
      AbsorbShape(s, w1, idx, p, k);
      MizuProps.MergedCountUnmerge(w1.h, k, Spawn(s, H, w1.drawn + SpawnDraws));
    }
  }

  /**
   * renderO from slot idx on, whether it completes or throws, keeps the number of H and of
   * O, leaves every free H and the O before idx alone, only appends droplets, at most one
   * for each O it visits, and each droplet it adds stands for one H2 it consumed.
   */
  lemma {:induction false} OPassShape(s: Stage, w: World, idx: nat)
    requires idx <= |w.o|
    ensures var r := LegacySpec.OPass(s, w, idx).w;
            && |r.h| == |w.h| && |r.o| == |w.o|
            && (forall k :: 0 <= k < idx ==> r.o[k] == w.o[k])
            && (forall k :: 0 <= k < |w.h| && !w.h[k].merged ==> r.h[k] == w.h[k])
            && |w.h2o| <= |r.h2o| <= |w.h2o| + (|w.o| - idx) && r.h2o[..|w.h2o|] == w.h2o
            && |r.h2o| + MizuProps.MergedCount(r.h) == |w.h2o| + MizuProps.MergedCount(w.h)
            && (WellFormed(w) ==> WellFormed(r))
    decreases |w.o| - idx
  {
    if idx < |w.o| {
      var v := LegacySpec.OVisit(s, w, idx).w;
      OVisitShape(s, w, idx);
      if LegacySpec.OVisit(s, w, idx).Completed? {
        OPassShape(s, v, idx + 1);
        var r := LegacySpec.OPass(s, w, idx).w;
        assert r.h2o[..|w.h2o|] == r.h2o[..|v.h2o|][..|w.h2o|];
      }
    }
  }

  // ---------------------------------------------------------------- renderH2o

  /** A fall keeps a droplet a droplet with consistent flags. */
  lemma FallenKeepsKind(s: Stage, w: World, k: nat)
    requires k < |w.h2o| && AllOf(w.h2o, H2o)
    ensures AllOf(LegacySpec.Fallen(s, w, k).h2o, H2o)
  {
    var f := LegacySpec.Fallen(s, w, k).h2o;
    forall t | 0 <= t < |f|
      ensures f[t].kind == H2o && Consistent(f[t])
    {
    }
  }

  /**
   * renderH2o from position k: h and o are untouched, the list does not grow, it keeps
   * droplets only, and once one droplet has been visited none left is expired.
   */
  lemma {:induction false} DripShape(s: Stage, w: World, k: nat)
    ensures var r := LegacySpec.Drip(s, w, k);
            && r.h == w.h && r.o == w.o && |r.h2o| <= |w.h2o|
            && (k < |w.h2o| ==> forall t :: 0 <= t < |r.h2o| ==> !r.h2o[t].deleted)
            && (AllOf(w.h2o, H2o) ==> AllOf(r.h2o, H2o))
    decreases |w.h2o| - k
  {
    if k < |w.h2o| {
      var f := LegacySpec.Fallen(s, w, k);
      var v := Purge(f);
      SurvivorsFilter(f.h2o);
      if AllOf(w.h2o, H2o) {
        FallenKeepsKind(s, w, k);
        MizuProps.SurvivorsKeepKind(f.h2o);
      }
      DripShape(s, v, k + 1);
    }
  }

  /**
   * The bug of the skipped droplet: when a droplet is spliced out of the list that the
   * for-of loop is walking, the droplet behind it moves into its place and is passed over.
   * With two droplets, the first within a pixel of the bottom edge, the second never falls
   * in this frame, and only one draw is made.
   */
  lemma SkipAfterRemoval(s: Stage, w: World)
    requires |w.h2o| == 2 && TrigBounded(s.host)
    requires s.ch <= w.h2o[0].y + 1.0 && !w.h2o[1].deleted
    ensures var r := LegacySpec.Drip(s, w, 0);
            r == World(w.h, w.o, [w.h2o[1]], w.drawn + 1)
  {
    var d0 := w.h2o[0];
    LegacyFallDescends(d0, s.ch, s.stream(w.drawn), s.host);
    var f := LegacySpec.Fallen(s, w, 0);
    var q := LegacyFall(d0, s.ch, s.stream(w.drawn), s.host);
    assert q.deleted;
    assert f.h2o == [q] + [w.h2o[1]];
    SurvivorsCons(q, [w.h2o[1]]);
    SurvivorsSnoc([], w.h2o[1]);
    assert [] + [w.h2o[1]] == [w.h2o[1]];
  }

  // ---------------------------------------------------------------- frames

  /**
   * One frame of the older simulator, whether it completes or throws, keeps the number of
   * H and of O and keeps every list a list of its own atoms; a completed frame leaves no
   * expired droplet behind.
   */
  lemma FrameShape(s: Stage, w: World)
    ensures var r := LegacySpec.Frame(s, w);
            && |r.w.h| == |w.h| && |r.w.o| == |w.o|
            && (r.Completed? ==> forall t :: 0 <= t < |r.w.h2o| ==> !r.w.h2o[t].deleted)
            && (WellFormed(w) ==> WellFormed(r.w))
  {
    var w1 := LegacySpec.HPass(s, w, 0);
    HPassShape(s, w, 0);
    OPassShape(s, w1, 0);
    var v := LegacySpec.OPass(s, w1, 0).w;
    DripShape(s, v, 0);
  }
}
