/**
 * MizuSimulator (js/Mizu.js): three lists of atom objects that every frame updates in place.
 * Each method is proved to leave the lists, read as values, as the functions of module
 * MizuSpec say, and to keep every list free of repeated objects.
 */
module Mizu {
  import opened Wrappers
  import opened Platform
  import opened Particles
  import opened Arrays
  import opened Atoms
  import opened MizuSpec

  /** The values of a list of atoms. */
  function Views(s: seq<Atom>): seq<Particle>
    reads s
  {
    seq(|s|, k reads s requires 0 <= k < |s| => s[k].View())
  }

  /**
   * A list of the simulator: no object twice, every atom of the given kind, made for this
   * canvas, and with consistent flags.
   */
  ghost predicate Members(s: seq<Atom>, kind: Kind, cw: real, ch: real)
    reads s
  {
    && Distinct(s)
    && forall k :: 0 <= k < |s| ==>
         s[k].kind == kind && s[k].sw == cw && s[k].sh == ch && s[k].Valid()
  }

  /** Appending an atom appends its value. */
  lemma ViewsSnoc(s: seq<Atom>, a: Atom)
    ensures Views(s + [a]) == Views(s) + [a.View()]
  {
  }

  /** A list stays a list of members when a new atom of its kind is appended. */
  lemma MembersSnoc(s: seq<Atom>, a: Atom, kind: Kind, cw: real, ch: real)
    requires Members(s, kind, cw, ch) && a !in s
    requires a.kind == kind && a.sw == cw && a.sh == ch && a.Valid()
    ensures Members(s + [a], kind, cw, ch)
  {
  }

  /** Replacing the atom in a slot replaces its value. */
  lemma ViewsUpdate(s: seq<Atom>, j: nat, a: Atom)
    requires j < |s|
    ensures Views(s[j := a]) == Views(s)[j := a.View()]
  {
  }

  /** A list stays a list of members when a slot is given a new atom of its kind. */
  lemma MembersUpdate(s: seq<Atom>, j: nat, a: Atom, kind: Kind, cw: real, ch: real)
    requires Members(s, kind, cw, ch) && a !in s && j < |s|
    requires a.kind == kind && a.sw == cw && a.sh == ch && a.Valid()
    ensures Members(s[j := a], kind, cw, ch)
  {
  }

  /** Removing a slot removes its value. */
  lemma ViewsSplice(s: seq<Atom>, i: nat)
    requires i < |s|
    ensures Views(Splice(s, i)) == Splice(Views(s), i)
  {
  }

  /** A list stays a list of members when a slot is spliced out. */
  lemma MembersSplice(s: seq<Atom>, i: nat, kind: Kind, cw: real, ch: real)
    requires Members(s, kind, cw, ch) && i < |s|
    ensures Members(Splice(s, i), kind, cw, ch)
  {
    var r := Splice(s, i);
    forall a, b | 0 <= a < b < |r|
      ensures r[a] != r[b]
    {
      var a' := if a < i then a else a + 1;
      var b' := if b < i then b else b + 1;
      assert r[a] == s[a'] && r[b] == s[b'] && a' < b';
    }
  }

  class MizuSimulator {
    var h: seq<Atom>
    var o: seq<Atom>
    var h2o: seq<Atom>
    /** The size of the canvas (window.innerWidth and innerHeight). */
    const cw: real
    const ch: real
    const host: Host
    const rng: Random

    /** Every atom of `s` was allocated by the current method. */
    twostate predicate Fresh(new s: seq<Atom>) {
      forall k :: 0 <= k < |s| ==> !old(allocated(s[k]))
    }

    /** Joining two lists of new atoms gives a list of new atoms. */
    twostate lemma FreshJoin(new s: seq<Atom>, new t: seq<Atom>)
      requires Fresh(s) && Fresh(t)
      ensures Fresh(s + t)
    {
    }

    twostate lemma FreshSnoc(new s: seq<Atom>, new x: Atom)
      requires Fresh(s) && !old(allocated(x))
      ensures Fresh(s + [x])
    {
    }

    /** The lists as values, and the number of Math.random calls so far. */
    function State(): World
      reads this, rng, h, o, h2o
    {
      World(Views(h), Views(o), Views(h2o), rng.drawn)
    }

    /** What a frame depends on besides the atoms. */
    function Env(): Stage {
      Stage(cw, ch, host, rng.stream)
    }

    ghost predicate Valid()
      reads this, h, o, h2o
    {
      Members(h, H, cw, ch) && Members(o, O, cw, ch) && Members(h2o, H2o, cw, ch)
    }

    /** new MizuSimulator(): a canvas of the given size and three empty lists. */
    constructor (cw: real, ch: real, host: Host, rng: Random)
      ensures this.cw == cw && this.ch == ch && this.host == host && this.rng == rng
      ensures h == [] && o == [] && h2o == [] && Valid()
    {
      this.cw := cw;
      this.ch := ch;
      this.host := host;
      this.rng := rng;
      h, o, h2o := [], [], [];
    }

    /**
     * createAtom(atomName, coordinate): a new H or O labelled at a random point, or a new
     * droplet at the coordinate. An unknown name throws before anything is drawn; a droplet
     * without a coordinate throws after its width has been drawn.
     */
    method CreateAtom(name: string, c: Option<Coordinate>) returns (r: Result<Atom, CreateError>)
      modifies rng
      ensures KindOf(name).None? ==> r == Failure(UnknownName) && rng.drawn == old(rng.drawn)
      ensures KindOf(name) == Some(H2o) && c.None? ==>
                r == Failure(NoCoordinate) && rng.drawn == old(rng.drawn) + 1
      ensures (KindOf(name) == Some(H) || KindOf(name) == Some(O)) ==>
                && r.Success? && fresh(r.value) && Some(r.value.kind) == KindOf(name)
                && r.value.View() == Spawn(Env(), r.value.kind, old(rng.drawn))
                && rng.drawn == old(rng.drawn) + SpawnDraws
      ensures KindOf(name) == Some(H2o) && c.Some? ==>
                && r.Success? && fresh(r.value) && r.value.kind == H2o
                && r.value.View() == SpawnDroplet(Env(), c.value, old(rng.drawn))
                && rng.drawn == old(rng.drawn) + 1
      ensures r.Success? ==> r.value.sw == cw && r.value.sh == ch && r.value.Valid()
    {
      var k := KindOf(name);
      if k.None? {
        return Failure(UnknownName);
      }
      if k.value == H2o {
        if c.None? {
          var width := rng.Next();
          return Failure(NoCoordinate);
        }
        var atom := MakeDroplet(c.value);
        return Success(atom);
      }
      var atom := MakeAtom(k.value);
      return Success(atom);
    }

    /** init(hLength, oLength): push hLength new H atoms, then oLength new O atoms. */
    method Init(n: nat, m: nat)
      requires Valid()
      modifies this, rng
      ensures Valid() && State() == MizuSpec.Init(Env(), old(State()), n, m)
    {
      InitH(n);
      InitO(m);
    }

    /** init's first loop: `n` times `this.h.push(this.createAtom('H'))`. */
    method InitH(n: nat)
      requires Valid()
      modifies this, rng
      ensures Valid() && State() == PushSpawns(Env(), old(State()), H, n)
    {
      ghost var w := State();
      var i := 0;
      while i < n
        invariant 0 <= i <= n && Valid()
        invariant State() == PushSpawns(Env(), w, H, i)
      {
        PushSpawnsSnoc(Env(), w, H, i);
        PushH();
        i := i + 1;
      }
    }

    /** init's second loop: `m` times `this.o.push(this.createAtom('O'))`. */
    method InitO(m: nat)
      requires Valid()
      modifies this, rng
      ensures Valid() && State() == PushSpawns(Env(), old(State()), O, m)
    {
      ghost var w := State();
      var i := 0;
      while i < m
        invariant 0 <= i <= m && Valid()
        invariant State() == PushSpawns(Env(), w, O, i)
      {
        PushSpawnsSnoc(Env(), w, O, i);
        PushO();
        i := i + 1;
      }
    }

    /**
     * createAtom('H') and createAtom('O'): a new atom labelled at (cw·u, ch·u') for the next
     * two draws u and u', after which its colour is drawn.
     */
    method MakeAtom(kind: Kind) returns (a: Atom)
      requires kind != H2o
      modifies rng
      ensures fresh(a) && a.kind == kind && a.View() == Spawn(Env(), kind, old(rng.drawn))
      ensures rng.drawn == old(rng.drawn) + SpawnDraws
      ensures a.sw == cw && a.sh == ch && a.Valid()
    {
      a := new Atom(kind, cw, ch);
      var ux := rng.Next();
      var uy := rng.Next();
      a.InitializeDrawingProperties(Coordinate(cw * ux, ch * uy), rng, host);
    }

    /** createAtom('H2o', c): a new droplet at c, its width from the next draw. */
    method MakeDroplet(c: Coordinate) returns (a: Atom)
      modifies rng
      ensures fresh(a) && a.kind == H2o && a.View() == SpawnDroplet(Env(), c, old(rng.drawn))
      ensures rng.drawn == old(rng.drawn) + 1
      ensures a.sw == cw && a.sh == ch && a.Valid()
    {
      a := new Atom(H2o, cw, ch);
      a.InitializeDrawingProperties(c, rng, host);
    }

    /** One iteration of init's first loop: `this.h.push(this.createAtom('H'))`. */
    method PushH()
      requires Valid()
      modifies this, rng
      ensures Valid()
      ensures var w := old(State());
              State() == World(w.h + [Spawn(Env(), H, w.drawn)], w.o, w.h2o, w.drawn + SpawnDraws)
    {
      var a := MakeAtom(H);
      ViewsSnoc(h, a);
      MembersSnoc(h, a, H, cw, ch);
      h := h + [a];
    }

    /** One iteration of init's second loop: `this.o.push(this.createAtom('O'))`. */
    method PushO()
      requires Valid()
      modifies this, rng
      ensures Valid()
      ensures var w := old(State());
              State() == World(w.h, w.o + [Spawn(Env(), O, w.drawn)], w.h2o, w.drawn + SpawnDraws)
    {
      var a := MakeAtom(O);
      ViewsSnoc(o, a);
      MembersSnoc(o, a, O, cw, ch);
      o := o + [a];
    }

    // ------------------------------------------------------------ renderH

    /** The first two steps of renderH's outer loop: `_h.updatePosition(); _h.render(...)`. */
    method MoveH(i: nat)
      requires Valid() && i < |h|
      modifies h[i], rng
      ensures Valid()
      ensures State() == HDrifted(Env(), old(State()), i)
    {
      ghost var w := State();
      var a := h[i];
      a.UpdatePosition(rng, host);
      a.Render(rng, host);
      assert a.View() == Rendered(Drift(w.h[i], cw, ch, rng.stream(w.drawn), host), cw, host);
      assert Views(h) == w.h[i := a.View()];
    }

    /** The first half of renderH's hit: `_h.isMerged = true; _h.render(...)`. */
    method MarkH(i: nat)
      requires Valid() && i < |h|
      modifies h[i], rng
      ensures Valid()
      ensures var w := old(State());
              State() == World(w.h[i := Rendered(Merge(w.h[i]), cw, host)], w.o, w.h2o, w.drawn)
    {
      var a := h[i];
      a.merged := true;
      a.Render(rng, host);
    }

    /** The second half of renderH's hit: `atoms[j] = this.createAtom('H')`. */
    method ReplaceH(j: nat)
      requires Valid() && j < |h|
      modifies this, rng
      ensures Valid()
      ensures var w := old(State());
              State() == World(w.h[j := Spawn(Env(), H, w.drawn)], w.o, w.h2o, w.drawn + SpawnDraws)
      ensures o == old(o) && h2o == old(h2o)
      ensures |h| == |old(h)| && fresh(h[j]) && forall k :: 0 <= k < |h| && k != j ==> h[k] == old(h[k])
    {
      var b := MakeAtom(H);
      ViewsUpdate(h, j, b);
      MembersUpdate(h, j, b, H, cw, ch);
      h := h[j := b];
    }

    /**
     * renderH's inner loop for the H at slot i: the first later H that is not merged and is
     * hit becomes the partner, and the loop breaks.
     */
    method PairH(i: nat)
      requires Valid() && i < |h|
      modifies this, h[i], rng
      ensures Valid()
      ensures State() == Partner(Env(), old(State()), i, i + 1)
      ensures o == old(o) && h2o == old(h2o)
      ensures |h| == |old(h)| && forall k :: 0 <= k < |h| ==> h[k] == old(h[k]) || fresh(h[k])
    {
      ghost var w := State();
      var j := i + 1;
      while j < |h|
        invariant i < j <= |h| && State() == w
        invariant Partner(Env(), w, i, j) == Partner(Env(), w, i, i + 1)
      {
        var target := h[j];
        if !target.merged && h[i].IsHit(target.x, target.y, target.r) {
          ghost var hs := w.h[i := Rendered(Merge(w.h[i]), cw, host)][j := Spawn(Env(), H, w.drawn)];
          MarkH(i);
          ReplaceH(j);
          assert State() == World(hs, w.o, w.h2o, w.drawn + SpawnDraws);
          return;
        }
        j := j + 1;
      }
    }

    /** One iteration of renderH's outer loop, at slot i. */
    method VisitH(i: nat)
      requires Valid() && i < |h|
      modifies this, h[i], rng
      ensures Valid()
      ensures State() == HVisit(Env(), old(State()), i)
      ensures HPass(Env(), State(), i + 1) == HPass(Env(), old(State()), i)
      ensures o == old(o) && h2o == old(h2o)
      ensures |h| == |old(h)| && forall k :: 0 <= k < |h| ==> h[k] == old(h[k]) || fresh(h[k])
    {
      MoveH(i);
      if h[i].merged {
        return;
      }
      PairH(i);
    }

    /** renderH(this.h). */
    method RenderH()
      requires Valid()
      modifies this, h, rng
      ensures Valid()
      ensures State() == HPass(Env(), old(State()), 0)
      ensures o == old(o) && h2o == old(h2o)
    {
      ghost var target := HPass(Env(), State(), 0);
      var i := 0;
      while i < |h|
        invariant i <= |h| == |old(h)| && Valid()
        invariant o == old(o) && h2o == old(h2o)
        invariant HPass(Env(), State(), i) == target
        invariant forall k :: 0 <= k < |h| ==> h[k] == old(h[k]) || fresh(h[k])
      {
        VisitH(i);
        i := i + 1;
      }
    }

    // ------------------------------------------------------------ renderO

    /** The first two steps of renderO's outer loop: `_o.updatePosition(); _o.render(...)`. */
    method MoveO(idx: nat)
      requires Valid() && idx < |o|
      modifies o[idx], rng
      ensures Valid()
      ensures State() == ODrifted(Env(), old(State()), idx)
    {
      ghost var w := State();
      var a := o[idx];
      a.UpdatePosition(rng, host);
      a.Render(rng, host);
      assert a.View() == Drift(w.o[idx], cw, ch, rng.stream(w.drawn), host);
      assert Views(o) == w.o[idx := a.View()];
    }

    /** renderO's `atoms[oIndex] = this.createAtom('O')`. */
    method ReplaceO(idx: nat)
      requires Valid() && idx < |o|
      modifies this, rng
      ensures Valid()
      ensures var w := old(State());
              State() == World(w.h, w.o[idx := Spawn(Env(), O, w.drawn)], w.h2o, w.drawn + SpawnDraws)
      ensures h == old(h) && h2o == old(h2o)
      ensures |o| == |old(o)| && fresh(o[idx]) && forall k :: 0 <= k < |o| && k != idx ==> o[k] == old(o[k])
    {
      var b := MakeAtom(O);
      ViewsUpdate(o, idx, b);
      MembersUpdate(o, idx, b, O, cw, ch);
      o := o[idx := b];
    }

    /** renderO's `h2oAtoms.push(this.createAtom('H2o', new Coordinate(_o.x, _o.y)))`. */
    method PushDroplet(c: Coordinate)
      requires Valid()
      modifies this, rng
      ensures Valid()
      ensures var w := old(State());
              State() == World(w.h, w.o, w.h2o + [SpawnDroplet(Env(), c, w.drawn)], w.drawn + 1)
      ensures h == old(h) && o == old(o)
      ensures |h2o| > 0 && h2o == old(h2o) + [h2o[|h2o| - 1]] && fresh(h2o[|h2o| - 1])
    {
      var d := MakeDroplet(c);
      ViewsSnoc(h2o, d);
      MembersSnoc(h2o, d, H2o, cw, ch);
      h2o := h2o + [d];
    }

    /**
     * renderO's `atoms.indexOf(_o)` guard: the slot of the O object `a` gets a new O, unless
     * `a` has been replaced already and indexOf returns -1.
     */
    method RefillO(idx: nat, a: Atom)
      requires Valid() && idx < |o|
      requires o[idx] == a || a !in o
      modifies this, rng
      ensures Valid() && a !in o
      ensures old(o[idx]) == a ==> Views(o) == old(Views(o))[idx := Spawn(Env(), O, old(rng.drawn))]
                                   && rng.drawn == old(rng.drawn) + SpawnDraws
      ensures old(o[idx]) != a ==> o == old(o) && rng.drawn == old(rng.drawn)
      ensures Views(h) == old(Views(h)) && Views(h2o) == old(Views(h2o))
      ensures h == old(h) && h2o == old(h2o)
      ensures |o| == |old(o)| && forall k :: 0 <= k < |o| && k != idx ==> o[k] == old(o[k])
    {
      var oi := IndexOf(o, a);
      if oi >= 0 {
        IndexOfDistinct(o, idx);
        ReplaceO(oi);
      }
    }

    /** renderO's `hAtoms.indexOf(_h2)` guard, which always finds the H at slot m. */
    method RefillH(m: nat)
      requires Valid() && m < |h|
      modifies this, rng
      ensures Valid()
      ensures Views(h) == old(Views(h))[m := Spawn(Env(), H, old(rng.drawn))]
      ensures Views(o) == old(Views(o)) && Views(h2o) == old(Views(h2o))
      ensures rng.drawn == old(rng.drawn) + SpawnDraws
      ensures o == old(o) && h2o == old(h2o) && |h| == |old(h)|
    {
      var hi := IndexOf(h, h[m]);
      IndexOfDistinct(h, m);
      if hi >= 0 {
        ReplaceH(hi);
      }
    }

    /**
     * One hit of renderO: the O object `a`, which sat at slot idx, hits the merged H at slot
     * m; then a droplet is pushed where `a` stands.
     */
    method AbsorbAt(idx: nat, a: Atom, m: nat)
      requires Valid() && idx < |o| && m < |h|
      requires o[idx] == a || a !in o
      modifies this, rng
      ensures Valid()
      ensures State() == Absorb(Env(), old(State()), idx, a.View(), old(o[idx]) != a, m)
      ensures a !in o && |o| == |old(o)| && |h| == |old(h)|
      ensures forall k :: 0 <= k < |o| && k != idx ==> o[k] == old(o[k])
      ensures |h2o| > 0 && h2o == old(h2o) + [h2o[|h2o| - 1]] && fresh(h2o[|h2o| - 1])
    {
      ghost var w := State();
      ghost var w1 := if o[idx] != a then w
                      else World(w.h, w.o[idx := Spawn(Env(), O, w.drawn)], w.h2o, w.drawn + SpawnDraws);
      RefillO(idx, a);
      assert State() == w1;
      ghost var w2 := World(w1.h[m := Spawn(Env(), H, w1.drawn)], w1.o, w1.h2o, w1.drawn + SpawnDraws);
      RefillH(m);
      assert State() == w2;
      var c := Coordinate(a.x, a.y);
      PushDroplet(c);
      assert State() == World(w2.h, w2.o, w2.h2o + [SpawnDroplet(Env(), c, w2.drawn)], w2.drawn + 1);
    }

    /**
     * renderO's inner loop for the O object `a` at slot idx: every merged H it hits is
     * consumed; an H that is not merged is skipped without a test.
     */
    method ConsumeO(idx: nat, a: Atom) returns (ghost added: seq<Atom>)
      requires Valid() && idx < |o| && o[idx] == a
      modifies this, rng
      ensures Valid()
      ensures State() == Consume(Env(), old(State()), idx, a.View(), false, 0)
      ensures |o| == |old(o)| && |h| == |old(h)|
      ensures forall k :: 0 <= k < |o| && k != idx ==> o[k] == old(o[k])
      ensures h2o == old(h2o) + added && Fresh(added)
    {
      var m := 0;
      added := [];
      while m < |h|
        invariant m <= |h| == |old(h)| && |o| == |old(o)| && idx < |o| && Valid()
        invariant o[idx] == a || a !in o
        invariant Consume(Env(), State(), idx, a.View(), o[idx] != a, m)
                  == Consume(Env(), old(State()), idx, a.View(), false, 0)
        invariant forall k :: 0 <= k < |o| && k != idx ==> o[k] == old(o[k])
        invariant h2o == old(h2o) + added && Fresh(added)
      {
        var target := h[m];
        if !target.merged {
          m := m + 1;
          continue;
        }
        if a.IsHit(target.x, target.y, target.r) {
          AbsorbAt(idx, a, m);
          ghost var d := h2o[|h2o| - 1];
          Associative(old(h2o), added, [d]);
          assert !old(allocated(d));
          FreshSnoc(added, d);
          added := added + [d];
        }
        m := m + 1;
      }
    }

    /** One iteration of renderO's outer loop, at slot idx. */
    method VisitO(idx: nat) returns (ghost added: seq<Atom>)
      requires Valid() && idx < |o|
      modifies this, o[idx], rng
      ensures Valid()
      ensures State() == OVisit(Env(), old(State()), idx)
      ensures |o| == |old(o)| && |h| == |old(h)|
      ensures forall k :: 0 <= k < |o| && k != idx ==> o[k] == old(o[k])
      ensures h2o == old(h2o) + added && Fresh(added)
    {
      var a := o[idx];
      MoveO(idx);
      assert a.View() == State().o[idx];
      added := ConsumeO(idx, a);
    }

    /** renderO(this.o, this.h, this.h2o). */
    method RenderO() returns (ghost added: seq<Atom>)
      requires Valid()
      modifies this, o, rng
      ensures Valid()
      ensures State() == OPass(Env(), old(State()), 0)
      ensures h2o == old(h2o) + added && Fresh(added)
    {
      ghost var target := OPass(Env(), State(), 0);
      var idx := 0;
      added := [];
      while idx < |o|
        invariant idx <= |o| == |old(o)| && Valid()
        invariant OPass(Env(), State(), idx) == target
        invariant forall k :: idx <= k < |o| ==> o[k] == old(o[k])
        invariant h2o == old(h2o) + added && Fresh(added)
      {
        OPassStep(Env(), State(), idx);
        ghost var delta := VisitO(idx);
        Associative(old(h2o), added, delta);
        assert Fresh(delta);
        FreshJoin(added, delta);
        added := added + delta;
        idx := idx + 1;
      }
    }

    // ------------------------------------------------------------ renderH2o

    /** The first two steps of renderH2o's loop: `_h2o.updatePosition(); _h2o.render(...)`. */
    method MoveDroplet(i: nat)
      requires Valid() && i < |h2o|
      modifies h2o[i], rng
      ensures Valid()
      ensures State() == Fallen(Env(), old(State()), i)
    {
      ghost var w := State();
      var a := h2o[i];
      a.UpdatePosition(rng, host);
      a.Render(rng, host);
      assert a.View() == Fall(w.h2o[i], ch, rng.stream(w.drawn), host);
      assert Views(h2o) == w.h2o[i := a.View()];
    }

    /** renderH2o's `atoms.splice(i, 1)` of an expired droplet. */
    method RemoveDroplet(i: nat)
      requires Valid() && i < |h2o|
      modifies this
      ensures Valid()
      ensures State() == World(old(State()).h, old(State()).o, Splice(old(State()).h2o, i), old(rng.drawn))
      ensures h == old(h) && o == old(o) && h2o == Splice(old(h2o), i)
    {
      ViewsSplice(h2o, i);
      MembersSplice(h2o, i, H2o, cw, ch);
      h2o := Splice(h2o, i);
    }

    /** One iteration of renderH2o's loop, at slot n - 1. */
    method VisitH2o(n: nat)
      requires Valid() && 0 < n <= |h2o|
      modifies this, h2o[n - 1], rng
      ensures Valid()
      ensures State() == DripVisit(Env(), old(State()), n - 1)
      ensures h == old(h) && o == old(o)
      ensures forall k :: 0 <= k < n - 1 ==> h2o[k] == old(h2o[k])
    {
      MoveDroplet(n - 1);
      if h2o[n - 1].deleted {
        RemoveDroplet(n - 1);
      }
    }

    /** renderH2o(this.h2o): from the last droplet down to the first. */
    method RenderH2o()
      requires Valid()
      modifies this, h2o, rng
      ensures Valid()
      ensures State() == Drip(Env(), old(State()), |old(h2o)|)
      ensures h == old(h) && o == old(o)
    {
      ghost var target := Drip(Env(), State(), |h2o|);
      var n: nat := |h2o|;
      while n > 0
        invariant n <= |h2o| && n <= |old(h2o)| && Valid()
        invariant Drip(Env(), State(), n) == target
        invariant h == old(h) && o == old(o)
        invariant forall k :: 0 <= k < n ==> h2o[k] == old(h2o[k])
      {
        ghost var before := State();
        VisitH2o(n);
        DripAfterVisit(Env(), before, State(), n, target);
        n := n - 1;
      }
    }

    // ------------------------------------------------------------ renderFrame

    /** renderFrame: renderH, renderO and renderH2o over the simulator's lists. */
    method RenderFrame()
      requires Valid()
      modifies this, h, o, h2o, rng
      ensures Valid()
      ensures State() == Frame(Env(), old(State()))
    {
      RenderH();
      ghost var added := RenderO();
      assert Fresh(added);
      RenderH2o();
    }
  }
}
