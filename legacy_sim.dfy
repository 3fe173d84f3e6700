/**
 * H2oSimulator (js/h2o.js): three lists of legacy atom objects that every frame updates in
 * place. Each method is proved to leave the lists, read as values, as the functions of
 * module LegacySpec say (or, for init, MizuSpec.Init), and to keep every list free of
 * repeated objects.
 */
module LegacySimulation {
  import opened Wrappers
  import opened Platform
  import opened Particles
  import opened Arrays
  import opened LegacyAtoms
  import opened MizuSpec
  import opened LegacySpec

  /** The values of a list of atoms. */
  function Views(s: seq<Atom>): seq<Particle>
    reads s
  {
    seq(|s|, k reads s requires 0 <= k < |s| => s[k].View())
  }

  /**
   * A list of the simulator: no object twice, every atom of the given kind, made for this
   * canvas, and with consistent flags.
   */
  ghost predicate Members(s: seq<Atom>, kind: Kind, cw: real, ch: real)
    reads s
  {
    && Distinct(s)
    && forall k :: 0 <= k < |s| ==>
         s[k].kind == kind && s[k].sw == cw && s[k].sh == ch && s[k].Valid()
  }

  /** Appending an atom appends its value. */
  lemma ViewsSnoc(s: seq<Atom>, a: Atom)
    ensures Views(s + [a]) == Views(s) + [a.View()]
  {
  }

  /** A list stays a list of members when a new atom of its kind is appended. */
  lemma MembersSnoc(s: seq<Atom>, a: Atom, kind: Kind, cw: real, ch: real)
    requires Members(s, kind, cw, ch) && a !in s
    requires a.kind == kind && a.sw == cw && a.sh == ch && a.Valid()
    ensures Members(s + [a], kind, cw, ch)
  {
  }

  /** Replacing the atom in a slot replaces its value. */
  lemma ViewsUpdate(s: seq<Atom>, j: nat, a: Atom)
    requires j < |s|
    ensures Views(s[j := a]) == Views(s)[j := a.View()]
  {
  }

  /** A list stays a list of members when a slot is given a new atom of its kind. */
  lemma MembersUpdate(s: seq<Atom>, j: nat, a: Atom, kind: Kind, cw: real, ch: real)
    requires Members(s, kind, cw, ch) && a !in s && j < |s|
    requires a.kind == kind && a.sw == cw && a.sh == ch && a.Valid()
    ensures Members(s[j := a], kind, cw, ch)
  {
  }

  /** Removing a slot removes its value. */
  lemma ViewsSplice(s: seq<Atom>, i: nat)
    requires i < |s|
    ensures Views(Splice(s, i)) == Splice(Views(s), i)
  {
  }

  /** A list stays a list of members when a slot is spliced out. */
  lemma MembersSplice(s: seq<Atom>, i: nat, kind: Kind, cw: real, ch: real)
    requires Members(s, kind, cw, ch) && i < |s|
    ensures Members(Splice(s, i), kind, cw, ch)
  {
    var r := Splice(s, i);
    forall a, b | 0 <= a < b < |r|
      ensures r[a] != r[b]
    {
      var a' := if a < i then a else a + 1;
      var b' := if b < i then b else b + 1;
      assert r[a] == s[a'] && r[b] == s[b'] && a' < b';
    }
  }

  /**
   * Splicing out slot t - 1 when it holds an expired droplet, or leaving it when it does
   * not, turns "filtered from t on" into "filtered from t - 1 on".
   */
  lemma PurgeStep(vs: seq<Particle>, now: seq<Particle>, t: nat)
    requires 0 < t <= |vs| && now == vs[..t] + Survivors(vs[t..])
    ensures (if vs[t - 1].deleted then Splice(now, t - 1) else now)
            == vs[..t - 1] + Survivors(vs[t - 1..])
  {
    assert vs[t - 1..] == [vs[t - 1]] + vs[t..];
    SurvivorsCons(vs[t - 1], vs[t..]);
    assert vs[..t] == vs[..t - 1] + [vs[t - 1]];
    if vs[t - 1].deleted {
      assert Splice(now, t - 1) == vs[..t - 1] + Survivors(vs[t..]);
    }
  }

  class H2oSimulator {
    var h: seq<Atom>
    var o: seq<Atom>
    var h2o: seq<Atom>
    /** The size of the canvas (window.innerWidth and innerHeight). */
    const cw: real
    const ch: real
    const host: Host
    const rng: Random

    /** Every atom of `s` was allocated by the current method. */
    twostate predicate Fresh(new s: seq<Atom>) {
      forall k :: 0 <= k < |s| ==> !old(allocated(s[k]))
    }

    /** Joining two lists of new atoms gives a list of new atoms. */
    twostate lemma FreshJoin(new s: seq<Atom>, new t: seq<Atom>)
      requires Fresh(s) && Fresh(t)
      ensures Fresh(s + t)
    {
    }

    /** Appending a new atom to a list of new atoms gives a list of new atoms. */
    twostate lemma FreshSnoc(new s: seq<Atom>, new x: Atom)
      requires Fresh(s) && !old(allocated(x))
      ensures Fresh(s + [x])
    {
    }

    /** The lists as values, and the number of Math.random calls so far. */
    function State(): World
      reads this, rng, h, o, h2o
    {
      World(Views(h), Views(o), Views(h2o), rng.drawn)
    }

    /** What a frame depends on besides the atoms. */
    function Env(): Stage {
      Stage(cw, ch, host, rng.stream)
    }

    ghost predicate Valid()
      reads this, h, o, h2o
    {
      Members(h, H, cw, ch) && Members(o, O, cw, ch) && Members(h2o, H2o, cw, ch)
    }

    /** new H2oSimulator(): a canvas of the given size and three empty lists. */
    constructor (cw: real, ch: real, host: Host, rng: Random)
      ensures this.cw == cw && this.ch == ch && this.host == host && this.rng == rng
      ensures h == [] && o == [] && h2o == [] && Valid()
    {
      this.cw := cw;
      this.ch := ch;
      this.host := host;
      this.rng := rng;
      h, o, h2o := [], [], [];
    }

    /**
     * factory(atomName, coordinate): a new H or O labelled at a random point, or a new
     * droplet at the coordinate. An unknown name leaves `atom` undefined, which throws
     * before anything is drawn; a droplet without a coordinate throws after its width has
     * been drawn.
     */
    method Factory(name: string, c: Option<Coordinate>) returns (r: Result<Atom, CreateError>)
      modifies rng
      ensures KindOf(name).None? ==> r == Failure(UnknownName) && rng.drawn == old(rng.drawn)
      ensures KindOf(name) == Some(H2o) && c.None? ==>
                r == Failure(NoCoordinate) && rng.drawn == old(rng.drawn) + 1
      ensures (KindOf(name) == Some(H) || KindOf(name) == Some(O)) ==>
                && r.Success? && fresh(r.value) && Some(r.value.kind) == KindOf(name)
                && r.value.View() == Spawn(Env(), r.value.kind, old(rng.drawn))
                && rng.drawn == old(rng.drawn) + SpawnDraws
      ensures KindOf(name) == Some(H2o) && c.Some? ==>
                && r.Success? && fresh(r.value) && r.value.kind == H2o
                && r.value.View() == LegacySpec.SpawnDroplet(Env(), c.value, old(rng.drawn))
                && rng.drawn == old(rng.drawn) + 1
      ensures r.Success? ==> r.value.sw == cw && r.value.sh == ch && r.value.Valid()
    {
      var k := KindOf(name);
      if k.None? {
        return Failure(UnknownName);
      }
      if k.value == H2o {
        if c.None? {
          var width := rng.Next();
          return Failure(NoCoordinate);
        }
        var atom := MakeDroplet(c.value);
        return Success(atom);
      }
      var atom := MakeAtom(k.value);
      return Success(atom);
    }

    /**
     * factory('H') and factory('O'): a new atom labelled at (cw·u, ch·u') for the next two
     * draws u and u', after which its colour is drawn.
     */
    method MakeAtom(kind: Kind) returns (a: Atom)
      requires kind != H2o
      modifies rng
      ensures fresh(a) && a.kind == kind && a.View() == Spawn(Env(), kind, old(rng.drawn))
      ensures rng.drawn == old(rng.drawn) + SpawnDraws
      ensures a.sw == cw && a.sh == ch && a.Valid()
    {
      a := new Atom(kind, cw, ch);
      var ux := rng.Next();
      var uy := rng.Next();
      a.InitializeDrawingProperties(Coordinate(cw * ux, ch * uy), rng, host);
    }

    /** factory('H2o', c): a new droplet at c, its width from the next draw. */
    method MakeDroplet(c: Coordinate) returns (a: Atom)
      modifies rng
      ensures fresh(a) && a.kind == H2o && a.View() == LegacySpec.SpawnDroplet(Env(), c, old(rng.drawn))
      ensures rng.drawn == old(rng.drawn) + 1
      ensures a.sw == cw && a.sh == ch && a.Valid()
    {
      a := new Atom(H2o, cw, ch);
      a.InitializeDrawingProperties(c, rng, host);
    }

    // ------------------------------------------------------------ init

    /** init(hLength, oLength): push hLength new H atoms, then oLength new O atoms. */
    method Init(n: nat, m: nat)
      requires Valid()
      modifies this, rng
      ensures Valid() && State() == MizuSpec.Init(Env(), old(State()), n, m)
    {
      InitH(n);
      InitO(m);
    }

    /** init's first loop: `n` times `this.h.push(this.factory('H'))`. */
    method InitH(n: nat)
      requires Valid()
      modifies this, rng
      ensures Valid() && State() == PushSpawns(Env(), old(State()), H, n)
    {
      ghost var w := State();
      var i := 0;
      while i < n
        invariant 0 <= i <= n && Valid()
        invariant State() == PushSpawns(Env(), w, H, i)
      {
        PushSpawnsSnoc(Env(), w, H, i);
        PushH();
        i := i + 1;
      }
    }

    /** init's second loop: `m` times `this.o.push(this.factory('O'))`. */
    method InitO(m: nat)
      requires Valid()
      modifies this, rng
      ensures Valid() && State() == PushSpawns(Env(), old(State()), O, m)
    {
      ghost var w := State();
      var i := 0;
      while i < m
        invariant 0 <= i <= m && Valid()
        invariant State() == PushSpawns(Env(), w, O, i)
      {
        PushSpawnsSnoc(Env(), w, O, i);
        PushO();
        i := i + 1;
      }
    }

    /** One iteration of init's first loop. */
    method PushH()
      requires Valid()
      modifies this, rng
      ensures Valid()
      ensures var w := old(State());
              State() == World(w.h + [Spawn(Env(), H, w.drawn)], w.o, w.h2o, w.drawn + SpawnDraws)
    {
      var a := MakeAtom(H);
      ViewsSnoc(h, a);
      MembersSnoc(h, a, H, cw, ch);
      h := h + [a];
    }

    /** One iteration of init's second loop. */
    method PushO()
      requires Valid()
      modifies this, rng
      ensures Valid()
      ensures var w := old(State());
              State() == World(w.h, w.o + [Spawn(Env(), O, w.drawn)], w.h2o, w.drawn + SpawnDraws)
    {
      var a := MakeAtom(O);
      ViewsSnoc(o, a);
      MembersSnoc(o, a, O, cw, ch);
      o := o + [a];
    }

    // ------------------------------------------------------------ renderH

    /** The first two steps of renderH's outer loop: `_h.updatePosition(); _h.render(ctx)`. */
    method MoveH(i: nat)
      requires Valid() && i < |h|
      modifies h[i], rng
      ensures Valid()
      ensures State() == LegacySpec.HDrifted(Env(), old(State()), i)
    {
      ghost var w := State();
      var a := h[i];
      a.UpdatePosition(rng, host);
      assert a.View() == Drift(w.h[i], cw, ch, rng.stream(w.drawn), host);
      assert Views(h) == w.h[i := a.View()];
    }

    /** The first half of renderH's hit: `_h.isMerged = true; _h.reRender(ctx)`. */
    method MarkH(i: nat)
      requires Valid() && i < |h|
      modifies h[i], rng
      ensures Valid()
      ensures State() == Marked(Env(), old(State()), i)
    {
      ghost var w := State();
      var a := h[i];
      a.merged := true;
      a.ReRender(rng, host);
      assert Views(h) == w.h[i := a.View()];
    }

    /** The second half of renderH's hit: `atoms[targetIndex] = this.factory('H')`. */
    method ReplaceH(j: nat)
      requires Valid() && j < |h|
      modifies this, rng
      ensures Valid()
      ensures State() == RenewH(Env(), old(State()), j)
      ensures o == old(o) && h2o == old(h2o)
      ensures |h| == |old(h)| && fresh(h[j]) && forall k :: 0 <= k < |h| && k != j ==> h[k] == old(h[k])
    {
      var b := MakeAtom(H);
      ViewsUpdate(h, j, b);
      MembersUpdate(h, j, b, H, cw, ch);
      h := h[j := b];
    }

    /** renderH's hit on the target at slot j: `_h` merges and is relabelled, slot j gets a new H. */
    method PairAt(i: nat, j: nat)
      requires Valid() && i < j < |h|
      modifies this, h[i], rng
      ensures Valid()
      ensures State() == Pair(Env(), old(State()), i, j)
      ensures o == old(o) && h2o == old(h2o)
      ensures |h| == |old(h)| && fresh(h[j]) && forall k :: 0 <= k < |h| && k != j ==> h[k] == old(h[k])
    {
      MarkH(i);
      ReplaceH(j);
    }

    /**
     * One turn of renderH's inner loop: the target `candidate`, at slot j, is skipped if
     * merged; if `_h` hits it, they pair up.
     */
    method ProbeTarget(i: nat, j: nat, candidate: Atom)
      requires Valid() && i < j < |h| && h[j] == candidate
      modifies this, h[i], rng
      ensures Valid() && |h| == |old(h)|
      ensures State() == Probe(Env(), old(State()), i, j)
      ensures o == old(o) && h2o == old(h2o) && h[i] == old(h[i])
      ensures forall k :: 0 <= k < |h| && k != j ==> h[k] == old(h[k])
      ensures h[j] == old(h[j]) || fresh(h[j])
    {
      if !candidate.merged && h[i].IsHit(candidate.x, candidate.y, candidate.r) {
        var targetIndex := IndexOf(h, candidate);
        IndexOfDistinct(h, j);
        PairAt(i, targetIndex);
      }
    }

    /**
     * renderH's inner loop for the H at slot i, over `atoms.slice(atoms.indexOf(_h) + 1)`:
     * every target that is not merged and is hit makes the H merge again, and its slot
     * (found by indexOf) gets a new H; the loop goes on after a hit. Only the slot the loop
     * is at is ever rewritten, so the copy and the live list agree on every slot still to
     * come, and the target is read from the live list.
     */
    method ScanPartners(i: nat)
      requires Valid() && i < |h|
      modifies this, h[i], rng
      ensures Valid()
      ensures State() == Partners(Env(), old(State()), i, i + 1)
      ensures o == old(o) && h2o == old(h2o)
      ensures |h| == |old(h)| && h[i] == old(h[i])
      ensures forall a :: a in h ==> a in old(h) || fresh(a)
    {
      ghost var target := Partners(Env(), State(), i, i + 1);
      var at := IndexOf(h, h[i]);
      IndexOfDistinct(h, i);
      var j := at + 1;
      while j < |h|
        invariant i < j <= |h| == |old(h)| && Valid() && Partners(Env(), State(), i, j) == target
        invariant h[i] == old(h[i]) && o == old(o) && h2o == old(h2o)
        invariant forall a :: a in h ==> a in old(h) || fresh(a)
      {
        ghost var before := State();
        assert Partners(Env(), before, i, j) == Partners(Env(), Probe(Env(), before, i, j), i, j + 1);
        ProbeTarget(i, j, h[j]);
        j := j + 1;
      }
    }

    /** One iteration of renderH's outer loop, at slot i. */
    method VisitH(i: nat)
      requires Valid() && i < |h|
      modifies this, h[i], rng
      ensures Valid()
      ensures State() == LegacySpec.HVisit(Env(), old(State()), i)
      ensures o == old(o) && h2o == old(h2o)
      ensures |h| == |old(h)| && forall a :: a in h ==> a in old(h) || fresh(a)
    {
      MoveH(i);
      if h[i].merged {
        return;
      }
      ScanPartners(i);
    }

    /** renderH(this.h). */
    method RenderH()
      requires Valid()
      modifies this, h, rng
      ensures Valid()
      ensures State() == LegacySpec.HPass(Env(), old(State()), 0)
      ensures o == old(o) && h2o == old(h2o)
    {
      ghost var target := LegacySpec.HPass(Env(), State(), 0);
      var i := 0;
      while i < |h|
        invariant i <= |h| == |old(h)| && Valid()
        invariant o == old(o) && h2o == old(h2o)
        invariant LegacySpec.HPass(Env(), State(), i) == target
        invariant forall a :: a in h ==> a in old(h) || fresh(a)
      {
        assert h[i] in h;
        VisitH(i);
        i := i + 1;
      }
    }

    // ------------------------------------------------------------ renderO

    /** The first two steps of renderO's outer loop: `_o.updatePosition(); _o.render(ctx)`. */
    method MoveO(idx: nat)
      requires Valid() && idx < |o|
      modifies o[idx], rng
      ensures Valid()
      ensures State() == ODrifted(Env(), old(State()), idx)
    {
      ghost var w := State();
      var a := o[idx];
      a.UpdatePosition(rng, host);
      assert a.View() == Drift(w.o[idx], cw, ch, rng.stream(w.drawn), host);
      assert Views(o) == w.o[idx := a.View()];
    }

    /** renderO's `atoms[oIndex] = this.factory('O')`. */
    method ReplaceO(idx: nat)
      requires Valid() && idx < |o|
      modifies this, rng
      ensures Valid()
      ensures State() == RenewO(Env(), old(State()), idx)
      ensures h == old(h) && h2o == old(h2o)
      ensures |o| == |old(o)| && fresh(o[idx]) && forall k :: 0 <= k < |o| && k != idx ==> o[k] == old(o[k])
    {
      var b := MakeAtom(O);
      ViewsUpdate(o, idx, b);
      MembersUpdate(o, idx, b, O, cw, ch);
      o := o[idx := b];
    }

    /** renderO's `hAtoms[h2Index] = this.factory('H')`, at the slot indexOf finds. */
    method RefillH(m: nat)
      requires Valid() && m < |h|
      modifies this, rng
      ensures Valid()
      ensures State() == RenewH(Env(), old(State()), m)
      ensures o == old(o) && h2o == old(h2o) && |h| == |old(h)|
    {
      var hi := IndexOf(h, h[m]);
      IndexOfDistinct(h, m);
      ReplaceH(hi);
    }

    /** renderO's `h2oAtoms.push(this.factory('H2o', new Coordinate(_o.x, _o.y)))`. */
    method PushDroplet(c: Coordinate)
      requires Valid()
      modifies this, rng
      ensures Valid()
      ensures State() == Dropped(Env(), old(State()), c)
      ensures h == old(h) && o == old(o)
      ensures |h2o| > 0 && h2o == old(h2o) + [h2o[|h2o| - 1]] && fresh(h2o[|h2o| - 1])
    {
      var d := MakeDroplet(c);
      ViewsSnoc(h2o, d);
      MembersSnoc(h2o, d, H2o, cw, ch);
      h2o := h2o + [d];
    }

    /** renderO's `atoms[oIndex] = this.factory('O')`, at the slot indexOf(a) finds. */
    method RefillO(idx: nat, a: Atom)
      requires Valid() && idx < |o| && o[idx] == a
      modifies this, rng
      ensures Valid()
      ensures State() == RenewO(Env(), old(State()), idx)
      ensures h == old(h) && h2o == old(h2o) && a !in o && |o| == |old(o)|
      ensures forall k :: 0 <= k < |o| && k != idx ==> o[k] == old(o[k])
    {
      var oi := IndexOf(o, a);
      IndexOfDistinct(o, idx);
      ReplaceO(oi);
      forall k | 0 <= k < |o|
        ensures o[k] != a
      {
        if k != idx {
          assert old(o[k]) != old(o[idx]);
        }
      }
    }

    /**
     * The first hit of the O object `a`, at slot idx, on the merged H at slot m: the O's slot
     * gets a new O, the H's slot a new H, and a droplet is pushed where `a` stands.
     */
    method AbsorbAt(idx: nat, a: Atom, m: nat)
      requires Valid() && idx < |o| && m < |h| && o[idx] == a
      modifies this, rng
      ensures Valid()
      ensures State() == LegacySpec.Absorb(Env(), old(State()), idx, a.View(), m)
      ensures a !in o && |o| == |old(o)| && |h| == |old(h)|
      ensures forall k :: 0 <= k < |o| && k != idx ==> o[k] == old(o[k])
      ensures |h2o| > 0 && h2o == old(h2o) + [h2o[|h2o| - 1]] && fresh(h2o[|h2o| - 1])
    {
      RefillO(idx, a);
      RefillH(m);
      PushDroplet(Coordinate(a.x, a.y));
    }

    /**
     * renderO's inner loop for the O object `a` at slot idx, over the merged H: the first hit
     * is absorbed; at a second hit indexOf(a) is -1 and `atoms[-1].clear()` throws.
     */
    method ConsumeO(idx: nat, a: Atom) returns (threw: bool, ghost added: seq<Atom>)
      requires Valid() && idx < |o| && o[idx] == a
      modifies this, rng
      ensures Valid()
      ensures LegacySpec.Consume(Env(), old(State()), idx, a.View(), false, 0)
              == if threw then Threw(State()) else Completed(State())
      ensures |o| == |old(o)| && |h| == |old(h)|
      ensures forall k :: 0 <= k < |o| && k != idx ==> o[k] == old(o[k])
      ensures h2o == old(h2o) + added && Fresh(added)
    {
      ghost var target := LegacySpec.Consume(Env(), State(), idx, a.View(), false, 0);
      var m := 0;
      added := [];
      while m < |h|
        invariant m <= |h| == |old(h)| && |o| == |old(o)| && idx < |o| && Valid()
        invariant o[idx] == a || a !in o
        invariant LegacySpec.Consume(Env(), State(), idx, a.View(), o[idx] != a, m) == target
        invariant forall k :: 0 <= k < |o| && k != idx ==> o[k] == old(o[k])
        invariant h2o == old(h2o) + added && Fresh(added)
      {
        var h2 := h[m];
        if !h2.merged {
          m := m + 1;
          continue;
        }
        if a.IsHit(h2.x, h2.y, h2.r) {
          var oi := IndexOf(o, a);
          if oi < 0 {
            return true, added;
          }
          AbsorbAt(idx, a, m);
          ghost var d := h2o[|h2o| - 1];
          Associative(old(h2o), added, [d]);
          FreshSnoc(added, d);
          added := added + [d];
        }
        m := m + 1;
      }
      threw := false;
    }

    /** One iteration of renderO's outer loop, at slot idx. */
    method VisitO(idx: nat) returns (threw: bool, ghost added: seq<Atom>)
      requires Valid() && idx < |o|
      modifies this, o[idx], rng
      ensures Valid()
      ensures LegacySpec.OVisit(Env(), old(State()), idx) == if threw then Threw(State()) else Completed(State())
      ensures |o| == |old(o)| && |h| == |old(h)|
      ensures forall k :: 0 <= k < |o| && k != idx ==> o[k] == old(o[k])
      ensures h2o == old(h2o) + added && Fresh(added)
    {
      var a := o[idx];
      MoveO(idx);
      assert a.View() == State().o[idx];
      threw, added := ConsumeO(idx, a);
    }

    /** renderO(this.o, this.h, this.h2o); `threw` says it ended in a TypeError. */
    method RenderO() returns (threw: bool, ghost added: seq<Atom>)
      requires Valid()
      modifies this, o, rng
      ensures Valid()
      ensures LegacySpec.OPass(Env(), old(State()), 0) == if threw then Threw(State()) else Completed(State())
      ensures h2o == old(h2o) + added && Fresh(added)
    {
      ghost var target := LegacySpec.OPass(Env(), State(), 0);
      var idx := 0;
      added := [];
      while idx < |o|
        invariant idx <= |o| == |old(o)| && Valid()
        invariant LegacySpec.OPass(Env(), State(), idx) == target
        invariant forall k :: idx <= k < |o| ==> o[k] == old(o[k])
        invariant h2o == old(h2o) + added && Fresh(added)
      {
        ghost var before := State();
        ghost var delta;
        threw, delta := VisitO(idx);
        Associative(old(h2o), added, delta);
        FreshJoin(added, delta);
        added := added + delta;
        if threw {
          assert LegacySpec.OPass(Env(), before, idx) == Threw(State());
          return;
        }
        assert LegacySpec.OPass(Env(), before, idx) == LegacySpec.OPass(Env(), State(), idx + 1);
        idx := idx + 1;
      }
      threw := false;
    }

    // ------------------------------------------------------------ renderH2o

    /** The first two steps of renderH2o's loop: `_h2o.updatePosition(); _h2o.render(ctx)`. */
    method MoveDroplet(k: nat)
      requires Valid() && k < |h2o|
      modifies h2o[k], rng
      ensures Valid()
      ensures State() == LegacySpec.Fallen(Env(), old(State()), k)
    {
      ghost var w := State();
      var a := h2o[k];
      a.UpdatePosition(rng, host);
      assert a.View() == LegacyFall(w.h2o[k], ch, rng.stream(w.drawn), host);
      assert Views(h2o) == w.h2o[k := a.View()];
    }

    /** renderH2o's `atoms.splice(at, 1)` of a flagged droplet. */
    method RemoveDroplet(at: nat)
      requires Valid() && at < |h2o|
      modifies this
      ensures Valid()
      ensures State() == World(old(State()).h, old(State()).o, Splice(old(State()).h2o, at), old(rng.drawn))
      ensures h == old(h) && o == old(o) && h2o == Splice(old(h2o), at)
      ensures forall a :: a in h2o ==> a in old(h2o)
    {
      ViewsSplice(h2o, at);
      MembersSplice(h2o, at, H2o, cw, ch);
      h2o := Splice(h2o, at);
    }

    /**
     * One turn of renderH2o's inner loop, at the droplet `candidate` that sits at slot t - 1:
     * spliced out at its indexOf if its flag is set. Read as values, the list goes from
     * "filtered from t on" to "filtered from t - 1 on".
     */
    method PurgeAt(candidate: Atom, t: nat, ghost vs: seq<Particle>)
      requires Valid() && 0 < t <= |h2o| && t <= |vs| && h2o[t - 1] == candidate
      requires candidate.View() == vs[t - 1] && Views(h2o) == vs[..t] + Survivors(vs[t..])
      modifies this
      ensures Valid() && h == old(h) && o == old(o) && t - 1 <= |h2o|
      ensures forall k :: 0 <= k < t - 1 ==> h2o[k] == old(h2o[k])
      ensures Views(h2o) == vs[..t - 1] + Survivors(vs[t - 1..])
      ensures forall a :: a in h2o ==> a in old(h2o)
    {
      PurgeStep(vs, Views(h2o), t);
      if candidate.deleted {
        var at := IndexOf(h2o, candidate);
        IndexOfDistinct(h2o, t - 1);
        RemoveDroplet(at);
      }
    }

    /**
     * renderH2o's inner loop: over `atoms.slice().reverse()`, every droplet whose flag is set
     * is spliced out at its indexOf.
     */
    method PurgeDroplets()
      requires Valid()
      modifies this
      ensures Valid()
      ensures State() == Purge(old(State()))
      ensures h == old(h) && o == old(o)
      ensures forall a :: a in h2o ==> a in old(h2o)
    {
      var snapshot := h2o;
      ghost var vs := Views(snapshot);
      var t := |snapshot|;
      assert vs[t..] == [];
      while t > 0
        invariant t <= |h2o| && t <= |vs| == |snapshot| && Valid() && h == old(h) && o == old(o)
        invariant forall k :: 0 <= k < t ==> h2o[k] == snapshot[k]
        invariant Views(h2o) == vs[..t] + Survivors(vs[t..])
        invariant forall a :: a in h2o ==> a in snapshot
      {
        var candidate := snapshot[t - 1];
        assert candidate.View() == vs[t - 1];
        PurgeAt(candidate, t, vs);
        t := t - 1;
      }
      assert vs[..0] == [] && vs[0..] == vs;
    }

    /** One iteration of renderH2o's loop, at the droplet in slot k. */
    method VisitH2o(k: nat)
      requires Valid() && k < |h2o|
      modifies this, h2o[k], rng
      ensures Valid()
      ensures State() == Purge(LegacySpec.Fallen(Env(), old(State()), k))
      ensures h == old(h) && o == old(o)
      ensures forall a :: a in h2o ==> a in old(h2o)
    {
      MoveDroplet(k);
      PurgeDroplets();
    }

    /**
     * renderH2o(this.h2o): `for (const _h2o of atoms)` over the live list, which the purge
     * shortens while the loop runs.
     */
    method RenderH2o()
      requires Valid()
      modifies this, h2o, rng
      ensures Valid()
      ensures State() == LegacySpec.Drip(Env(), old(State()), 0)
      ensures h == old(h) && o == old(o)
    {
      ghost var target := LegacySpec.Drip(Env(), State(), 0);
      var k := 0;
      while k < |h2o|
        invariant Valid() && h == old(h) && o == old(o)
        invariant LegacySpec.Drip(Env(), State(), k) == target
        invariant forall a :: a in h2o ==> a in old(h2o)
        decreases |h2o| - k
      {
        assert h2o[k] in h2o;
        VisitH2o(k);
        k := k + 1;
      }
    }

    // ------------------------------------------------------------ start

    /**
     * start(): renderH, renderO, renderH2o. `threw` says renderO threw, which skips
     * renderH2o and ends the animation loop.
     */
    method Start() returns (threw: bool)
      requires Valid()
      modifies this, h, o, h2o, rng
      ensures Valid()
      ensures LegacySpec.Frame(Env(), old(State())) == if threw then Threw(State()) else Completed(State())
    {
      RenderH();
      ghost var added;
      threw, added := RenderO();
      if !threw {
        RenderH2o();
      }
    }
  }
}
