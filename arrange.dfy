/** Setting up a planet system: `arrangeplanets` picks sizes and positions
    from pseudo-random draws and rejects overlapping candidates, and `main`
    links the planets into the chain the physics walks. */
module Arrange {
  import opened CMath
  import opened Bodies
  import opened Flight

  /** The table `sizes[5]` that random sizes are drawn from. */
  const Sizes: seq<int> := [3, 4, 5, 6, 9]

  /** Where `arrangeplanets` can place a body of size `s`: the column range
      `[s, ncols-s-1]` and the line range `[3 + s/2, nlines-5-s + s/2]`. */
  predicate InBounds(x: int, y: int, s: int, nlines: int, ncols: int) {
    s <= x <= ncols - s - 1 && 3 + Half(s) <= y <= nlines - 5 - s + Half(s)
  }

  /** The squared aspect-corrected distance of `arrangeplanets`: the column
      offset is halved as a real before squaring. */
  function SpacingSq(x1: int, y1: int, x2: int, y2: int): (d2: real)
    ensures 0.0 <= d2
  {
    var dx := (x1 - x2) as real / 2.0;
    var dy := (y1 - y2) as real;
    dx * dx + dy * dy
  }

  /** The least distance two bodies must keep: the sum of the real
      half-sizes. */
  function MinDist(s1: int, s2: int): real {
    s1 as real / 2.0 + s2 as real / 2.0
  }

  /** The spacing test of `arrangeplanets` is passed: the corrected distance
      is not below the least distance. The source compares with `sqrt`;
      `ApartIsSqrtTest` shows the two agree. */
  predicate Apart(x1: int, y1: int, s1: int, x2: int, y2: int, s2: int) {
    var mindist := MinDist(s1, s2);
    !(0.0 < mindist && SpacingSq(x1, y1, x2, y2) < mindist * mindist)
  }

  /** The candidate column `rand() % (colsrange - 2*s) + (mincols + s)` for
      a planet of size `s` and the draw `d`; it lies in the column bounds. */
  function CandidateX(d: nat, s: int, ncols: int): (cx: int)
    requires 3 <= s <= 9 && 18 < ncols
    ensures s <= cx <= ncols - s - 1
  {
    d % (ncols - 2 * s) + s
  }

  /** The candidate line `rand() % (linesrange - s) + (minlines + s/2)`; it
      lies in the line bounds. */
  function CandidateY(d: nat, s: int, nlines: int): (cy: int)
    requires 3 <= s <= 9 && 16 < nlines
    ensures 3 + Half(s) <= cy <= nlines - 5 - s + Half(s)
  {
    d % (nlines - 7 - s) + 3 + Half(s)
  }

  /** A candidate at `(cx, cy)` of size `s` passes the spacing test against
      every planet placed so far. */
  predicate ClearOf(cx: int, cy: int, s: int, px: seq<int>, py: seq<int>, ps: seq<int>)
    requires |px| == |py| == |ps|
  {
    forall k :: 0 <= k < |px| ==> Apart(cx, cy, s, px[k], py[k], ps[k])
  }

  /** An accepted candidate: its position and the number of draws consumed
      up to and including it. */
  datatype Candidate = Candidate(x: int, y: int, used: nat)

  /** The `while (!clear)` loop for one planet of size `s`, on values: the
      first pair of draws from `from` on whose candidate is clear of the
      planets placed so far (`px`, `py`, `ps`); none when fewer than two
      draws are left before one is. */
  function FirstClear(px: seq<int>, py: seq<int>, ps: seq<int>, s: int,
                      draws: seq<nat>, from: nat, nlines: int, ncols: int): (r: Option<Candidate>)
    requires |px| == |py| == |ps| && 3 <= s <= 9 && 18 < ncols && 16 < nlines
    ensures r.Some? ==> from + 2 <= r.value.used <= |draws|
    decreases |draws| - from
  {
    if |draws| < from + 2 then None
    else
      var cx, cy := CandidateX(draws[from], s, ncols), CandidateY(draws[from + 1], s, nlines);
      if ClearOf(cx, cy, s, px, py, ps) then Some(Candidate(cx, cy, from + 2))
      else FirstClear(px, py, ps, s, draws, from + 2, nlines, ncols)
  }

  /** The positions of all planets: those already placed (`px`, `py`),
      then each later planet of `ss` at its first clear candidate, with the
      draws consumed; none when the draws run out first. */
  datatype Placement = Placement(x: seq<int>, y: seq<int>, used: nat)

  function PlaceFrom(px: seq<int>, py: seq<int>, ss: seq<int>, draws: seq<nat>, from: nat,
                     nlines: int, ncols: int): (r: Option<Placement>)
    requires |px| == |py| <= |ss| && 18 < ncols && 16 < nlines
    requires forall k :: 0 <= k < |ss| ==> ss[k] in Sizes
    ensures r.Some? ==> |r.value.x| == |ss| && |r.value.y| == |ss|
    decreases |ss| - |px|
  {
    if |px| == |ss| then Some(Placement(px, py, from))
    else
      assert ss[|px|] in Sizes;
      match FirstClear(px, py, ss[..|px|], ss[|px|], draws, from, nlines, ncols)
      case None => None
      case Some(c) => PlaceFrom(px + [c.x], py + [c.y], ss, draws, c.used, nlines, ncols)
  }

  /** The sizes of `arrangeplanets`: 9 and 9, then one table entry per
      draw. */
  function DrawnSizes(num: nat, draws: seq<nat>): (s: seq<int>)
    requires 2 <= num && num - 2 <= |draws|
    ensures |s| == num && s[0] == 9 && s[1] == 9
    ensures forall k :: 0 <= k < num ==> s[k] in Sizes
    ensures forall k :: 2 <= k < num ==> s[k] == Sizes[draws[k - 2] % 5]
  {
    [9, 9] + seq(num - 2, k requires 0 <= k < num - 2 => Sizes[draws[k] % 5])
  }

  /** A planet system: sizes, positions and the draws consumed. */
  datatype Setup = Setup(s: seq<int>, x: seq<int>, y: seq<int>, used: nat)

  /** `arrangeplanets` on values: the sizes from the first `num - 2` draws,
      the first planet from the next two, then every later planet at its
      first clear candidate. None exactly when the draws run out first. */
  function Arrangement(num: nat, nlines: int, ncols: int, draws: seq<nat>): (r: Option<Setup>)
    requires 2 <= num && 18 < ncols && 16 < nlines
    ensures r.Some? ==> |r.value.s| == num && |r.value.x| == num && |r.value.y| == num
  {
    if |draws| < num then None
    else
      var s := DrawnSizes(num, draws);
      var x0, y0 := CandidateX(draws[num - 2], 9, ncols), CandidateY(draws[num - 1], 9, nlines);
      match PlaceFrom([x0], [y0], s, draws, num, nlines, ncols)
      case None => None
      case Some(p) => Some(Setup(s, p.x, p.y, p.used))
  }

  /** The inner `for` loop of `arrangeplanets`: candidate `i` is clear when
      it is apart from every planet placed before it, checked from `i-1`
      down to `0`. */
  method IsClear(xa: array<int>, ya: array<int>, sa: array<int>, i: int) returns (clear: bool)
    requires 0 <= i < xa.Length && i < ya.Length && i < sa.Length
    ensures clear <==> forall k :: 0 <= k < i ==> Apart(xa[i], ya[i], sa[i], xa[k], ya[k], sa[k])
  {
    clear := true;
    var j := i - 1;
    while j >= 0
      invariant -1 <= j < i
      invariant clear <==> forall k :: j < k < i ==> Apart(xa[i], ya[i], sa[i], xa[k], ya[k], sa[k])
    {
      var dx := (xa[i] - xa[j]) as real / 2.0;
      var dy := (ya[i] - ya[j]) as real;
      var dist2 := dx * dx + dy * dy;
      var mindist := sa[i] as real / 2.0 + sa[j] as real / 2.0;
      assert dist2 == SpacingSq(xa[i], ya[i], xa[j], ya[j]) && mindist == MinDist(sa[i], sa[j]);
      if 0.0 < mindist && dist2 < mindist * mindist {
        clear := false;
      }
      j := j - 1;
    }
  }

  /** One candidate position (lines 249-250 and 254-255): column
      `CandidateX` and line `CandidateY` for the draws `d1` and `d2`. */
  method DrawPosition(xa: array<int>, ya: array<int>, sa: array<int>, i: int,
                      d1: nat, d2: nat, nlines: int, ncols: int)
    requires 0 <= i < xa.Length && i < ya.Length && i < sa.Length
    requires xa != ya && sa != xa && sa != ya
    requires 3 <= sa[i] <= 9 && 18 < ncols && 16 < nlines
    modifies xa, ya
    ensures xa[..] == old(xa[..])[i := CandidateX(d1, sa[i], ncols)]
    ensures ya[..] == old(ya[..])[i := CandidateY(d2, sa[i], nlines)]
    ensures InBounds(xa[i], ya[i], sa[i], nlines, ncols)
  {
    var minlines := 3;
    var maxlines := nlines - 4;
    var linesrange := maxlines - minlines;
    var mincols := 0;
    var maxcols := ncols;
    var colsrange := maxcols - mincols;
    xa[i] := d1 % (colsrange - 2 * sa[i]) + (mincols + sa[i]);
    ya[i] := d2 % (linesrange - sa[i]) + (minlines + Half(sa[i]));
  }

  /** One step of `PlaceFrom`: it places the next planet at `FirstClear`'s
      candidate and carries on from there, or fails with it. */
  lemma PlaceFromUnfold(px: seq<int>, py: seq<int>, ss: seq<int>,
                        draws: seq<nat>, from: nat, nlines: int, ncols: int)
    requires |px| == |py| < |ss| && 18 < ncols && 16 < nlines
    requires forall k :: 0 <= k < |ss| ==> ss[k] in Sizes
    ensures var n := |px|;
      var c := FirstClear(px, py, ss[..n], ss[n], draws, from, nlines, ncols);
      PlaceFrom(px, py, ss, draws, from, nlines, ncols) ==
        if c.None? then None else PlaceFrom(px + [c.value.x], py + [c.value.y], ss, draws, c.value.used, nlines, ncols)
  {
    assert ss[|px|] in Sizes;
  }

  /** Placing the next planet at `FirstClear`'s candidate `c` leaves the
      rest of `PlaceFrom` to start from `c`. */
  lemma PlacedNext(px: seq<int>, py: seq<int>, ss: seq<int>, draws: seq<nat>, from: nat,
                   nlines: int, ncols: int, qx: seq<int>, qy: seq<int>)
    requires |px| == |py| < |ss| && 18 < ncols && 16 < nlines
    requires forall k :: 0 <= k < |ss| ==> ss[k] in Sizes
    requires |qx| == |qy| == |px| + 1 && qx[..|px|] == px && qy[..|py|] == py
    ensures var n := |px|;
      var c := FirstClear(px, py, ss[..n], ss[n], draws, from, nlines, ncols);
      c.Some? && c.value.x == qx[n] && c.value.y == qy[n] ==>
        PlaceFrom(px, py, ss, draws, from, nlines, ncols) == PlaceFrom(qx, qy, ss, draws, c.value.used, nlines, ncols)
  {
    PlaceFromUnfold(px, py, ss, draws, from, nlines, ncols);
    assert qx == px + [qx[|px|]] && qy == py + [qy[|py|]];
  }

  /** The rejection loop of `arrangeplanets` (lines 251-265): for each planet
      from the second on, candidates are drawn until one is clear of every
      earlier planet. The result is `PlaceFrom`'s. */
  method PlaceRest(xa: array<int>, ya: array<int>, sa: array<int>,
                   nlines: int, ncols: int, draws: seq<nat>, from: nat)
    returns (ok: bool, used: nat)
    requires xa.Length == ya.Length == sa.Length && 1 <= xa.Length
    requires xa != ya && sa != xa && sa != ya
    requires from <= |draws| && 18 < ncols && 16 < nlines
    requires forall k :: 0 <= k < sa.Length ==> sa[k] in Sizes
    requires InBounds(xa[0], ya[0], sa[0], nlines, ncols)
    modifies xa, ya
    ensures var p := PlaceFrom(old(xa[..1]), old(ya[..1]), sa[..], draws, from, nlines, ncols);
      ok == p.Some? && (ok ==> xa[..] == p.value.x && ya[..] == p.value.y && used == p.value.used)
    ensures from <= used <= |draws| && (!ok ==> |draws| - used < 2)
    ensures xa[0] == old(xa[0]) && ya[0] == old(ya[0])
    ensures ok ==> from + 2 * (xa.Length - 1) <= used
    ensures ok ==> forall k :: 0 <= k < xa.Length ==> InBounds(xa[k], ya[k], sa[k], nlines, ncols)
    ensures ok ==> forall a, b :: 0 <= b < a < xa.Length ==>
                     Apart(xa[a], ya[a], sa[a], xa[b], ya[b], sa[b])
  {
    var num := xa.Length;
    ghost var ss := sa[..];
    assert forall k :: 0 <= k < |ss| ==> ss[k] in Sizes;
    ghost var target := PlaceFrom(xa[..1], ya[..1], ss, draws, from, nlines, ncols);
    used := from;
    var i := 1;
    while i < num
      invariant 1 <= i <= num
      invariant from <= used
      invariant used <= |draws|
      invariant xa[0] == old(xa[0]) && ya[0] == old(ya[0])
      invariant PlaceFrom(xa[..i], ya[..i], ss, draws, used, nlines, ncols) == target
    {
      ghost var px, py := xa[..i], ya[..i];
      var placed;
      placed, used := PlaceOne(xa, ya, sa, i, nlines, ncols, draws, used);
      assert xa[0] == xa[..i][0] == px[0] && ya[0] == ya[..i][0] == py[0];
      if !placed {
        return false, used;
      }
      i := i + 1;
    }
    assert xa[..num] == xa[..] && ya[..num] == ya[..];
    assert PlaceFrom(xa[..], ya[..], ss, draws, used, nlines, ncols) == Some(Placement(xa[..], ya[..], used));
    ok := true;
    PlaceFromSound(old(xa[..1]), old(ya[..1]), ss, draws, from, nlines, ncols);
  }

  /** The `while (!clear)` loop for planet `i`: candidate positions are
      drawn until one is apart from every earlier planet. Only planet `i`
      moves. The result is `FirstClear`'s, so `ok` is false exactly when
      fewer than two draws are left before a clear candidate comes up. */
  method PlaceOne(xa: array<int>, ya: array<int>, sa: array<int>, i: nat,
                  nlines: int, ncols: int, draws: seq<nat>, from: nat)
    returns (ok: bool, used: nat)
    requires xa.Length == ya.Length == sa.Length && 1 <= i < xa.Length
    requires xa != ya && sa != xa && sa != ya
    requires from <= |draws| && 18 < ncols && 16 < nlines
    requires forall k :: 0 <= k < sa.Length ==> sa[k] in Sizes
    modifies xa, ya
    ensures var c := FirstClear(old(xa[..i]), old(ya[..i]), sa[..i], sa[i], draws, from, nlines, ncols);
      ok == c.Some? && (ok ==> xa[i] == c.value.x && ya[i] == c.value.y && used == c.value.used)
    ensures var p := PlaceFrom(old(xa[..i]), old(ya[..i]), sa[..], draws, from, nlines, ncols);
      if ok then p == PlaceFrom(xa[..i + 1], ya[..i + 1], sa[..], draws, used, nlines, ncols) else p.None?
    ensures from <= used <= |draws| && (!ok ==> |draws| - used < 2)
    ensures ok ==> from + 2 <= used
    ensures xa[..i] == old(xa[..i]) && ya[..i] == old(ya[..i])
    ensures xa[i + 1..] == old(xa[i + 1..]) && ya[i + 1..] == old(ya[i + 1..])
    ensures ok ==> InBounds(xa[i], ya[i], sa[i], nlines, ncols)
    ensures ok ==> forall k :: 0 <= k < i ==> Apart(xa[i], ya[i], sa[i], xa[k], ya[k], sa[k])
  {
    ghost var px, py, ps := xa[..i], ya[..i], sa[..i];
    ghost var target := FirstClear(px, py, ps, sa[i], draws, from, nlines, ncols);
    used := from;
    var clear := false;
    while !clear
      invariant from <= used <= |draws|
      invariant xa[..i] == px && ya[..i] == py
      invariant xa[i + 1..] == old(xa[i + 1..]) && ya[i + 1..] == old(ya[i + 1..])
      invariant !clear ==> FirstClear(px, py, ps, sa[i], draws, used, nlines, ncols) == target
      invariant clear ==> target == Some(Candidate(xa[i], ya[i], used))
      decreases |draws| - used, if clear then 0 else 1
    {
      if |draws| - used < 2 {
        ok := false;
        PlaceFromUnfold(px, py, sa[..], draws, from, nlines, ncols);
        assert sa[..][..i] == ps;
        return;
      }
      ghost var x0, y0 := xa[..], ya[..];
      assert x0[..i] == px && y0[..i] == py;
      DrawPosition(xa, ya, sa, i, draws[used], draws[used + 1], nlines, ncols);
      assert xa[..i] == x0[..i] && ya[..i] == y0[..i];
      assert xa[i + 1..] == x0[i + 1..] && ya[i + 1..] == y0[i + 1..];
      used := used + 2;
      clear := IsClear(xa, ya, sa, i);
      assert clear <==> ClearOf(xa[i], ya[i], sa[i], px, py, ps);
    }
    ok := true;
    FirstClearSound(px, py, ps, sa[i], draws, from, nlines, ncols);
    assert forall k :: 0 <= k < i ==> xa[k] == px[k] && ya[k] == py[k] && sa[k] == ps[k];
    PlacedNext(px, py, sa[..], draws, from, nlines, ncols, xa[..i + 1], ya[..i + 1]);
  }

  /** Lines 229-265 of `arrangeplanets`: the sizes, then the first position,
      then for each later planet candidates until one is apart from all
      earlier planets. `rand()` is the sequence `draws`; `used` counts the
      draws consumed. The result is `Arrangement`'s: the source draws for
      ever, and here `ok` is false exactly when the draws run out first. */
  method ChooseLayout(num: int, nlines: int, ncols: int, draws: seq<nat>)
    returns (ok: bool, used: nat, s: seq<int>, x: seq<int>, y: seq<int>)
    requires 2 <= num && 18 < ncols && 16 < nlines
    ensures var a := Arrangement(num, nlines, ncols, draws);
      ok == a.Some? && (ok ==> s == a.value.s && x == a.value.x && y == a.value.y && used == a.value.used)
    ensures used <= |draws|
    ensures !ok ==> |draws| - used < 2
    ensures ok ==> 3 * num - 2 <= used
    ensures ok ==> |s| == num && |x| == num && |y| == num
    ensures ok ==> s[0] == 9 && s[1] == 9
    ensures ok ==> forall i :: 2 <= i < num ==> s[i] == Sizes[draws[i - 2] % 5]
    ensures ok ==> x[0] == draws[num - 2] % (ncols - 18) + 9 &&
                   y[0] == draws[num - 1] % (nlines - 16) + 7
    ensures ok ==> forall i :: 0 <= i < num ==> InBounds(x[i], y[i], s[i], nlines, ncols)
    ensures ok ==> forall i, j :: 0 <= j < i < num ==> Apart(x[i], y[i], s[i], x[j], y[j], s[j])
  {
    var sa := new int[num];
    var xa := new int[num];
    var ya := new int[num];
    used := 0;
    sa[0] := 9;
    sa[1] := 9;
    var i := 2;
    while i < num
      invariant 2 <= i <= num && used == i - 2 && used <= |draws|
      invariant sa[0] == 9 && sa[1] == 9
      invariant forall k :: 2 <= k < i ==> sa[k] == Sizes[draws[k - 2] % 5]
    {
      if used == |draws| {
        return false, used, sa[..], xa[..], ya[..];
      }
      sa[i] := Sizes[draws[used] % 5];
      used := used + 1;
      i := i + 1;
    }
    if |draws| - used < 2 {
      return false, used, sa[..], xa[..], ya[..];
    }
    assert sa[..] == DrawnSizes(num, draws);
    DrawPosition(xa, ya, sa, 0, draws[used], draws[used + 1], nlines, ncols);
    assert xa[..1] == [CandidateX(draws[num - 2], 9, ncols)];
    assert ya[..1] == [CandidateY(draws[num - 1], 9, nlines)];
    used := used + 2;
    ok, used := PlaceRest(xa, ya, sa, nlines, ncols, draws, used);
    s, x, y := sa[..], xa[..], ya[..];
    if ok {
      ArrangementSound(num, nlines, ncols, draws);
    }
  }

  /** Lines 267-270 of `arrangeplanets`: each planet slot is overwritten with
      a Planet of the chosen size and position. */
  method PlacePlanets(planets: array<Body>, s: seq<int>, x: seq<int>, y: seq<int>)
    requires |s| == planets.Length && |x| == planets.Length && |y| == planets.Length
    requires forall i, j :: 0 <= i < j < planets.Length ==> planets[i] != planets[j]
    modifies planets[..]
    ensures forall i :: 0 <= i < planets.Length ==>
      planets[i].View() == BodyView(x[i], y[i], s[i], s[i] as real) &&
      planets[i].vmag == 0.0 && planets[i].vtheta == 0.0 && planets[i].nextBody == null
  {
    var i := 0;
    while i < planets.Length
      invariant 0 <= i <= planets.Length
      invariant forall k :: 0 <= k < i ==>
        planets[k].View() == BodyView(x[k], y[k], s[k], s[k] as real) &&
        planets[k].vmag == 0.0 && planets[k].vtheta == 0.0 && planets[k].nextBody == null
    {
      planets[i].InitPlanet(x[i] as real, y[i] as real, s[i]);
      TruncIntegral(x[i]);
      TruncIntegral(y[i]);
      i := i + 1;
    }
  }

  /** `arrangeplanets`: the planets take the sizes and positions of
      `Arrangement`. On success every planet is at rest and unlinked, the
      first two have size 9 and the rest a size of the table, every planet
      lies within its bounds, and every pair passes the spacing test. */
  method ArrangePlanets(planets: array<Body>, nlines: int, ncols: int, draws: seq<nat>)
    returns (ok: bool, used: nat)
    requires 2 <= planets.Length && 18 < ncols && 16 < nlines
    requires forall i, j :: 0 <= i < j < planets.Length ==> planets[i] != planets[j]
    modifies planets[..]
    ensures var a := Arrangement(planets.Length, nlines, ncols, draws);
      ok == a.Some? && (ok ==> used == a.value.used && forall i :: 0 <= i < planets.Length ==>
        planets[i].View() == BodyView(a.value.x[i], a.value.y[i], a.value.s[i], a.value.s[i] as real))
    ensures used <= |draws| && (!ok ==> |draws| - used < 2)
    ensures ok ==> planets[0].size == 9 && planets[1].size == 9
    ensures ok ==> forall i :: 0 <= i < planets.Length ==>
      planets[i].size in Sizes && planets[i].mass == planets[i].size as real &&
      InBounds(planets[i].x, planets[i].y, planets[i].size, nlines, ncols) &&
      planets[i].vmag == 0.0 && planets[i].vtheta == 0.0 && planets[i].nextBody == null
    ensures ok ==> forall i, j :: 0 <= j < i < planets.Length ==>
      Apart(planets[i].x, planets[i].y, planets[i].size, planets[j].x, planets[j].y, planets[j].size)
  {
    var s, x, y;
    ok, used, s, x, y := ChooseLayout(planets.Length, nlines, ncols, draws);
    if ok {
      assert forall i :: 0 <= i < planets.Length ==> s[i] in Sizes;
      PlacePlanets(planets, s, x, y);
    }
  }

  /** The linking loop of `main` as written: `planets[i]` is linked to
      `planets[i+1]` only for `i < num - 2`, so the chain from `planets[0]`
      stops at `planets[num-2]` and never reaches the last planet. */
  method LinkChain(planets: array<Body>)
    requires 2 <= planets.Length
    requires forall i, j :: 0 <= i < j < planets.Length ==> planets[i] != planets[j]
    requires forall i :: 0 <= i < planets.Length ==> planets[i].nextBody == null
    modifies planets[..]
    ensures IsChain(planets[0], planets[..planets.Length - 1])
    ensures planets[planets.Length - 1] !in planets[..planets.Length - 1]
    ensures planets[planets.Length - 1].nextBody == null
    ensures forall i :: 0 <= i < planets.Length ==> planets[i].View() == old(planets[i].View())
    ensures forall i :: 0 <= i < planets.Length ==>
      planets[i].vmag == old(planets[i].vmag) && planets[i].vtheta == old(planets[i].vtheta)
  {
    var num := planets.Length;
    var i := 0;
    while i < num - 2
      invariant 0 <= i <= num - 2
      invariant forall k :: 0 <= k < i ==> planets[k].nextBody == planets[k + 1]
      invariant forall k :: i <= k < num ==> planets[k].nextBody == null
      invariant forall k :: 0 <= k < num ==> planets[k].View() == old(planets[k].View())
      invariant forall k :: 0 <= k < num ==>
        planets[k].vmag == old(planets[k].vmag) && planets[k].vtheta == old(planets[k].vtheta)
    {
      planets[i].SetNext(planets[i + 1]);
      i := i + 1;
    }
    ChainIffLinked(planets[0], planets[..num - 1]);
  }

  /** The evidently intended linking loop, `i < num - 1`: the chain from
      `planets[0]` visits every planet in index order. */
  method LinkAll(planets: array<Body>)
    requires 1 <= planets.Length
    requires forall i, j :: 0 <= i < j < planets.Length ==> planets[i] != planets[j]
    requires forall i :: 0 <= i < planets.Length ==> planets[i].nextBody == null
    modifies planets[..]
    ensures IsChain(planets[0], planets[..])
    ensures forall i :: 0 <= i < planets.Length ==> planets[i].View() == old(planets[i].View())
    ensures forall i :: 0 <= i < planets.Length ==>
      planets[i].vmag == old(planets[i].vmag) && planets[i].vtheta == old(planets[i].vtheta)
  {
    var num := planets.Length;
    var i := 0;
    while i < num - 1
      invariant 0 <= i <= num - 1
      invariant forall k :: 0 <= k < i ==> planets[k].nextBody == planets[k + 1]
      invariant forall k :: i <= k < num ==> planets[k].nextBody == null
      invariant forall k :: 0 <= k < num ==> planets[k].View() == old(planets[k].View())
      invariant forall k :: 0 <= k < num ==>
        planets[k].vmag == old(planets[k].vmag) && planets[k].vtheta == old(planets[k].vtheta)
    {
      planets[i].SetNext(planets[i + 1]);
      i := i + 1;
    }
    ChainIffLinked(planets[0], planets[..]);
  }

  /** The candidate `FirstClear` accepts comes from the last two draws it
      consumes, lies in bounds and is clear of the planets placed so far. */
  lemma {:induction false} FirstClearSound(px: seq<int>, py: seq<int>, ps: seq<int>, s: int,
                                           draws: seq<nat>, from: nat, nlines: int, ncols: int)
    requires |px| == |py| == |ps| && 3 <= s <= 9 && 18 < ncols && 16 < nlines
    requires FirstClear(px, py, ps, s, draws, from, nlines, ncols).Some?
    ensures var c := FirstClear(px, py, ps, s, draws, from, nlines, ncols).value;
      from + 2 <= c.used <= |draws| &&
      c.x == CandidateX(draws[c.used - 2], s, ncols) && c.y == CandidateY(draws[c.used - 1], s, nlines) &&
      InBounds(c.x, c.y, s, nlines, ncols) && ClearOf(c.x, c.y, s, px, py, ps)
    decreases |draws| - from
  {
    var cx, cy := CandidateX(draws[from], s, ncols), CandidateY(draws[from + 1], s, nlines);
    if !ClearOf(cx, cy, s, px, py, ps) {
      FirstClearSound(px, py, ps, s, draws, from + 2, nlines, ncols);
    }
  }

  /** Every pair of draws `FirstClear` passes over before the accepted one
      gave a candidate that is not clear: the source's loop takes the first
      clear candidate, not just some clear one. */
  lemma {:induction false} FirstClearIsFirst(px: seq<int>, py: seq<int>, ps: seq<int>, s: int,
                                             draws: seq<nat>, from: nat, nlines: int, ncols: int)
    requires |px| == |py| == |ps| && 3 <= s <= 9 && 18 < ncols && 16 < nlines
    requires FirstClear(px, py, ps, s, draws, from, nlines, ncols).Some?
    ensures var c := FirstClear(px, py, ps, s, draws, from, nlines, ncols).value;
      forall j :: 0 <= j && from + 2 * j + 2 < c.used ==>
        !ClearOf(CandidateX(draws[from + 2 * j], s, ncols), CandidateY(draws[from + 2 * j + 1], s, nlines),
                 s, px, py, ps)
    decreases |draws| - from
  {
    var cx, cy := CandidateX(draws[from], s, ncols), CandidateY(draws[from + 1], s, nlines);
    if !ClearOf(cx, cy, s, px, py, ps) {
      FirstClearSound(px, py, ps, s, draws, from + 2, nlines, ncols);
      FirstClearIsFirst(px, py, ps, s, draws, from + 2, nlines, ncols);
      var c := FirstClear(px, py, ps, s, draws, from, nlines, ncols).value;
      forall j | 0 <= j && from + 2 * j + 2 < c.used
        ensures !ClearOf(CandidateX(draws[from + 2 * j], s, ncols), CandidateY(draws[from + 2 * j + 1], s, nlines),
                         s, px, py, ps)
      {
        if 0 < j {
          assert from + 2 * j == (from + 2) + 2 * (j - 1);
        }
      }
    }
  }

  /** A planet in bounds and clear of the planets placed so far can join
      them: all stay in bounds and pairwise apart. */
  lemma SpreadExtend(px: seq<int>, py: seq<int>, ss: seq<int>, cx: int, cy: int,
                     nlines: int, ncols: int)
    requires |px| == |py| < |ss|
    requires forall k :: 0 <= k < |px| ==> InBounds(px[k], py[k], ss[k], nlines, ncols)
    requires forall a, b :: 0 <= b < a < |px| ==> Apart(px[a], py[a], ss[a], px[b], py[b], ss[b])
    requires InBounds(cx, cy, ss[|px|], nlines, ncols)
    requires ClearOf(cx, cy, ss[|px|], px, py, ss[..|px|])
    ensures var qx, qy := px + [cx], py + [cy];
      (forall k :: 0 <= k < |qx| ==> InBounds(qx[k], qy[k], ss[k], nlines, ncols)) &&
      (forall a, b :: 0 <= b < a < |qx| ==> Apart(qx[a], qy[a], ss[a], qx[b], qy[b], ss[b]))
  {
    var n, qx, qy := |px|, px + [cx], py + [cy];
    forall k | 0 <= k < n + 1
      ensures InBounds(qx[k], qy[k], ss[k], nlines, ncols)
    {
      if k < n {
        assert qx[k] == px[k] && qy[k] == py[k];
      }
    }
    forall a, b | 0 <= b < a < n + 1
      ensures Apart(qx[a], qy[a], ss[a], qx[b], qy[b], ss[b])
    {
      assert qx[b] == px[b] && qy[b] == py[b];
      if a < n {
        assert qx[a] == px[a] && qy[a] == py[a];
      } else {
        assert ss[..n][b] == ss[b];
      }
    }
  }

  /** `PlaceFrom` keeps the planets already placed and places every later
      one in bounds and apart from all earlier ones, consuming at least two
      draws per planet. */
  lemma {:induction false} PlaceFromSound(px: seq<int>, py: seq<int>, ss: seq<int>,
                                          draws: seq<nat>, from: nat, nlines: int, ncols: int)
    requires |px| == |py| <= |ss| && 18 < ncols && 16 < nlines && from <= |draws|
    requires forall k :: 0 <= k < |ss| ==> ss[k] in Sizes
    requires forall k :: 0 <= k < |px| ==> InBounds(px[k], py[k], ss[k], nlines, ncols)
    requires forall a, b :: 0 <= b < a < |px| ==> Apart(px[a], py[a], ss[a], px[b], py[b], ss[b])
    requires PlaceFrom(px, py, ss, draws, from, nlines, ncols).Some?
    ensures var p := PlaceFrom(px, py, ss, draws, from, nlines, ncols).value;
      p.x[..|px|] == px && p.y[..|px|] == py &&
      from + 2 * (|ss| - |px|) <= p.used <= |draws| &&
      (forall k :: 0 <= k < |ss| ==> InBounds(p.x[k], p.y[k], ss[k], nlines, ncols)) &&
      (forall a, b :: 0 <= b < a < |ss| ==> Apart(p.x[a], p.y[a], ss[a], p.x[b], p.y[b], ss[b]))
    decreases |ss| - |px|
  {
    var n := |px|;
    if n < |ss| {
      assert ss[n] in Sizes;
      FirstClearSound(px, py, ss[..n], ss[n], draws, from, nlines, ncols);
      var c := FirstClear(px, py, ss[..n], ss[n], draws, from, nlines, ncols).value;
      var qx, qy := px + [c.x], py + [c.y];
      PlaceFromUnfold(px, py, ss, draws, from, nlines, ncols);
      SpreadExtend(px, py, ss, c.x, c.y, nlines, ncols);
      PlaceFromSound(qx, qy, ss, draws, c.used, nlines, ncols);
      var p := PlaceFrom(qx, qy, ss, draws, c.used, nlines, ncols).value;
      assert p.x[..n] == p.x[..n + 1][..n] && p.y[..n] == p.y[..n + 1][..n];
    }
  }

  /** What `arrangeplanets` guarantees of a planet system: sizes 9, 9 and
      then table sizes from the draws, the first planet from the two draws
      after the sizes, every planet in bounds, and every pair apart. */
  lemma ArrangementSound(num: nat, nlines: int, ncols: int, draws: seq<nat>)
    requires 2 <= num && 18 < ncols && 16 < nlines
    requires Arrangement(num, nlines, ncols, draws).Some?
    ensures var a := Arrangement(num, nlines, ncols, draws).value;
      3 * num - 2 <= a.used <= |draws| && a.s == DrawnSizes(num, draws) &&
      a.x[0] == CandidateX(draws[num - 2], 9, ncols) && a.y[0] == CandidateY(draws[num - 1], 9, nlines) &&
      (forall i :: 0 <= i < num ==> InBounds(a.x[i], a.y[i], a.s[i], nlines, ncols)) &&
      (forall i, j :: 0 <= j < i < num ==> Apart(a.x[i], a.y[i], a.s[i], a.x[j], a.y[j], a.s[j]))
  {
    var s := DrawnSizes(num, draws);
    var x0, y0 := CandidateX(draws[num - 2], 9, ncols), CandidateY(draws[num - 1], 9, nlines);
    PlaceFromSound([x0], [y0], s, draws, num, nlines, ncols);
  }

  /** More draws never change an accepted candidate: `FirstClear` fails only
      by running out of draws. */
  lemma {:induction false} FirstClearExtend(px: seq<int>, py: seq<int>, ps: seq<int>, s: int,
                                            draws: seq<nat>, more: seq<nat>, from: nat,
                                            nlines: int, ncols: int)
    requires |px| == |py| == |ps| && 3 <= s <= 9 && 18 < ncols && 16 < nlines
    requires FirstClear(px, py, ps, s, draws, from, nlines, ncols).Some?
    ensures FirstClear(px, py, ps, s, draws + more, from, nlines, ncols) ==
            FirstClear(px, py, ps, s, draws, from, nlines, ncols)
    decreases |draws| - from
  {
    assert (draws + more)[from] == draws[from] && (draws + more)[from + 1] == draws[from + 1];
    var cx, cy := CandidateX(draws[from], s, ncols), CandidateY(draws[from + 1], s, nlines);
    if !ClearOf(cx, cy, s, px, py, ps) {
      FirstClearExtend(px, py, ps, s, draws, more, from + 2, nlines, ncols);
    }
  }

  /** More draws never change a placement that succeeded. */
  lemma {:induction false} PlaceFromExtend(px: seq<int>, py: seq<int>, ss: seq<int>,
                                           draws: seq<nat>, more: seq<nat>, from: nat,
                                           nlines: int, ncols: int)
    requires |px| == |py| <= |ss| && 18 < ncols && 16 < nlines
    requires forall k :: 0 <= k < |ss| ==> ss[k] in Sizes
    requires PlaceFrom(px, py, ss, draws, from, nlines, ncols).Some?
    ensures PlaceFrom(px, py, ss, draws + more, from, nlines, ncols) ==
            PlaceFrom(px, py, ss, draws, from, nlines, ncols)
    decreases |ss| - |px|
  {
    var n := |px|;
    if n < |ss| {
      assert ss[n] in Sizes;
      FirstClearExtend(px, py, ss[..n], ss[n], draws, more, from, nlines, ncols);
      var c := FirstClear(px, py, ss[..n], ss[n], draws, from, nlines, ncols).value;
      PlaceFromExtend(px + [c.x], py + [c.y], ss, draws, more, c.used, nlines, ncols);
    }
  }

  /** `arrangeplanets` fails only by running out of draws: a planet system
      found from some draws is found unchanged from any longer sequence that
      starts with them. */
  lemma MoreDrawsSameSystem(num: nat, nlines: int, ncols: int, draws: seq<nat>, more: seq<nat>)
    requires 2 <= num && 18 < ncols && 16 < nlines
    requires Arrangement(num, nlines, ncols, draws).Some?
    ensures Arrangement(num, nlines, ncols, draws + more) == Arrangement(num, nlines, ncols, draws)
  {
    var d := draws + more;
    assert DrawnSizes(num, d) == DrawnSizes(num, draws);
    assert d[num - 2] == draws[num - 2] && d[num - 1] == draws[num - 1];
    var s := DrawnSizes(num, draws);
    var x0, y0 := CandidateX(draws[num - 2], 9, ncols), CandidateY(draws[num - 1], 9, nlines);
    PlaceFromExtend([x0], [y0], s, draws, more, num, nlines, ncols);
  }

  /** The spacing test is the source's `sqrt` comparison, stated exactly. */
  lemma ApartIsSqrtTest(T: Trig, x1: int, y1: int, s1: int, x2: int, y2: int, s2: int)
    requires Lawful(T)
    ensures Apart(x1, y1, s1, x2, y2, s2) <==>
              !(T.sqrt(SpacingSq(x1, y1, x2, y2)) < MinDist(s1, s2))
  {
    SqrtLess(T, SpacingSq(x1, y1, x2, y2), MinDist(s1, s2));
  }

  /** Two size-9 planets that pass the spacing test do not cover each
      other's centre: from the centre of one, the collision test against the
      other fails. */
  lemma ApartCentresMiss(a: BodyView, b: BodyView)
    requires a.size == 9 && b.size == 9 && Apart(a.x, a.y, a.size, b.x, b.y, b.size)
    ensures !Hits(a.x, a.y, b)
  {
    assert Half(9) == 4;
    assert CorrectedDistSq(a.x, a.y, b) == ((a.x - b.x) as real / 2.0) * ((a.x - b.x) as real / 2.0)
                                           + ((a.y - b.y) as real) * ((a.y - b.y) as real);
  }

  /** With the chain as linked by the source, the collision test never
      reports the last planet, wherever the missile is. With two planets (a
      terminal of fewer than 2100 cells) the last planet is the first
      player's target. */
  lemma LastPlanetNeverHit(planets: seq<Body>, px: int, py: int)
    requires 2 <= |planets|
    requires forall i, j :: 0 <= i < j < |planets| ==> planets[i] != planets[j]
    ensures var chain := planets[..|planets| - 1];
      BodyAt(chain, FirstHit(px, py, Views(chain))) != planets[|planets| - 1]
  {
    var chain := planets[..|planets| - 1];
    var r := FirstHit(px, py, Views(chain));
    if r.Some? {
      assert chain[r.value] == planets[r.value];
    }
  }

  /** With every planet linked, a missile at the centre of the target planet
      of a two-planet system is reported as hitting it, given the spacing
      the arrangement guarantees. */
  lemma TargetHitWhenAllLinked(planets: seq<Body>)
    requires |planets| == 2
    requires planets[0].size == 9 && planets[1].size == 9
    requires Apart(planets[1].x, planets[1].y, 9, planets[0].x, planets[0].y, 9)
    ensures BodyAt(planets, FirstHit(planets[1].x, planets[1].y, Views(planets))) == planets[1]
  {
    var vs := Views(planets);
    ApartCentresMiss(vs[1], vs[0]);
    HitAtCentre(vs[1]);
  }
}
