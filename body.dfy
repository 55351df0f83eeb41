/** The bodies of the game (planets, asteroids, the missile) and their
    physics: the gravitational pull of the chain of bodies on a missile, the
    velocity update from a force, and the move by one frame.

    The C++ class hierarchy Body / Asteroid / Planet / Missile becomes one
    class `Body` with one named constructor per C++ constructor; the kinds
    differ only in how their fields are initialised. Positions are `int`
    fields, as in the source, so every double written to them is truncated. */
module Bodies {
  import opened CMath

  /** A force or a velocity in Cartesian components. */
  datatype Vec = Vec(x: real, y: real) {
    function Plus(w: Vec): Vec { Vec(x + w.x, y + w.y) }
    function Scale(k: real): Vec { Vec(k * x, k * y) }
    function NormSq(): real { x * x + y * y }
  }

  /** What the physics reads of a body: position, size and mass. */
  datatype BodyView = BodyView(x: int, y: int, size: int, mass: real)

  /** The angle the source computes from a displacement `(dx, dy)`:
      `atan(dy / dx)`, plus `PI` when `dx < 0`. With `dx == 0` the double
      division yields an infinity, and `atan` of it is `atanInf` with the sign
      of `dy`. Both components zero gives `atan(NaN)`, so it is excluded. */
  function Heading(T: Trig, dx: real, dy: real): real
    requires dx != 0.0 || dy != 0.0
  {
    var a := if dx != 0.0 then T.atan(dy / dx)
             else if 0.0 < dy then T.atanInf else -T.atanInf;
    if dx < 0.0 then a + PI else a
  }

  /** `delx` and `dely` of `getforce`: the horizontal offset is halved with
      integer division, because positions are `int` fields. */
  function DelX(mx: int, v: BodyView): int { Half(v.x - mx) }
  function DelY(my: int, v: BodyView): int { v.y - my }

  /** `distsq` of `getforce`: an exact non-negative integer. */
  function DistSq(mx: int, my: int, v: BodyView): (d: nat)
    ensures d == DelX(mx, v) * DelX(mx, v) + DelY(my, v) * DelY(my, v)
    ensures d == 0 <==> DelX(mx, v) == 0 && DelY(my, v) == 0
  {
    var dx, dy := DelX(mx, v), DelY(my, v);
    SquaresZero(dx, dy);
    dx * dx + dy * dy
  }

  lemma SquaresZero(a: int, b: int)
    ensures 0 <= a * a + b * b
    ensures a * a + b * b == 0 <==> a == 0 && b == 0
  {
    if a != 0 { assert 1 <= a * a by { if a < 0 { assert a * a == (-a) * (-a); } } }
    if b != 0 { assert 1 <= b * b by { if b < 0 { assert b * b == (-b) * (-b); } } }
  }

  /** `Fmag` of `getforce`: the inverse-square law, and no force at all from
      a body at distance zero. */
  function Magnitude(mmass: real, bmass: real, distsq: nat): real {
    if distsq != 0 then (mmass * bmass) / distsq as real else 0.0
  }

  /** The pull of one body `v` on a body of mass `mmass` at `(mx, my)`:
      one level of the recursion in `getforce`. */
  function Pull(T: Trig, mx: int, my: int, mmass: real, v: BodyView): Vec {
    var dx, dy := DelX(mx, v), DelY(my, v);
    var theta := if dx == 0 && dy == 0 then 0.0 else Heading(T, dx as real, dy as real);
    var fmag := Magnitude(mmass, v.mass, DistSq(mx, my, v));
    Vec(fmag * T.cos(theta), fmag * T.sin(theta))
  }

  /** The total pull of a sequence of bodies, each counted once, summed in
      sequence order; the reference definition `getforce` is proved against. */
  function NetForce(T: Trig, mx: int, my: int, mmass: real, vs: seq<BodyView>): Vec {
    if vs == [] then Vec(0.0, 0.0)
    else Pull(T, mx, my, mmass, vs[0]).Plus(NetForce(T, mx, my, mmass, vs[1..]))
  }

  /** The Cartesian velocity after `setvelocity` adds the acceleration
      `force / mass` to the current polar velocity. */
  function Accelerated(T: Trig, vmag: real, vtheta: real, mass: real, force: Vec): Vec
    requires mass != 0.0
  {
    Vec(vmag * T.cos(vtheta) + force.x / mass, vmag * T.sin(vtheta) + force.y / mass)
  }

  /** The position after `movebody`: one frame of the velocity, the vertical
      step halved, each coordinate truncated into its `int` field. */
  function Moved(T: Trig, x: int, y: int, vmag: real, vtheta: real): (int, int) {
    (Trunc(x as real + vmag * T.cos(vtheta)), Trunc(y as real + vmag * T.sin(vtheta) / 2.0))
  }

  class Body {
    var vtheta: real   // heading of the velocity, in radians
    var vmag: real     // speed, in columns per frame
    var x: int
    var y: int
    var size: int      // diameter, in lines
    var mass: real
    var nextBody: Body?

    /** `Body::Construct`: position truncated from doubles, at rest, unlinked. */
    method Construct(x0: real, y0: real)
      modifies this
      ensures x == Trunc(x0) && y == Trunc(y0)
      ensures vtheta == 0.0 && vmag == 0.0 && nextBody == null
      ensures size == old(size) && mass == old(mass)
    {
      x := Trunc(x0);
      y := Trunc(y0);
      vtheta := 0.0;
      vmag := 0.0;
      nextBody := null;
    }

    /** The field writes of `Planet::Planet(x0, y0, s)`; copy-assigning a
        Planet temporary into an existing Body writes the same fields. */
    method InitPlanet(x0: real, y0: real, s: int)
      modifies this
      ensures x == Trunc(x0) && y == Trunc(y0) && size == s && mass == s as real
      ensures vtheta == 0.0 && vmag == 0.0 && nextBody == null
    {
      Construct(x0, y0);
      size := s;
      mass := size as real;
      nextBody := null;
    }

    /** The field writes of `Asteroid::Asteroid(x0, y0, s)`. */
    method InitAsteroid(x0: real, y0: real, s: int)
      modifies this
      ensures x == Trunc(x0) && y == Trunc(y0) && size == s && mass == s as real
      ensures vtheta == 0.0 && vmag == 0.0 && nextBody == null
    {
      Construct(x0, y0);
      size := s;
      mass := size as real;
      nextBody := null;
    }

    /** `Planet(x0, y0)`: a planet of the default size 9. */
    constructor Planet(x0: real, y0: real)
      ensures x == Trunc(x0) && y == Trunc(y0) && size == 9 && mass == 9.0
      ensures vtheta == 0.0 && vmag == 0.0 && nextBody == null
    {
      new;
      InitPlanet(x0, y0, 9);
    }

    /** `Planet(x0, y0, s)`. */
    constructor SizedPlanet(x0: real, y0: real, s: int)
      ensures x == Trunc(x0) && y == Trunc(y0) && size == s && mass == s as real
      ensures vtheta == 0.0 && vmag == 0.0 && nextBody == null
    {
      new;
      InitPlanet(x0, y0, s);
    }

    /** `Asteroid(x0, y0)`: an asteroid of the default size 6. */
    constructor Asteroid(x0: real, y0: real)
      ensures x == Trunc(x0) && y == Trunc(y0) && size == 6 && mass == 6.0
      ensures vtheta == 0.0 && vmag == 0.0 && nextBody == null
    {
      new;
      InitAsteroid(x0, y0, 6);
    }

    /** `Asteroid(x0, y0, s)`. */
    constructor SizedAsteroid(x0: real, y0: real, s: int)
      ensures x == Trunc(x0) && y == Trunc(y0) && size == s && mass == s as real
      ensures vtheta == 0.0 && vmag == 0.0 && nextBody == null
    {
      new;
      InitAsteroid(x0, y0, s);
    }

    /** `Missile(origin, v0, vphi, originrad)`: launched at speed `v0` and
        angle `vphi` (degrees), placed `originrad` from the origin's centre
        along that angle (the vertical offset halved, both rounded up), with
        mass 3 and no successor. Its `size` is left unset, as in the source,
        and nothing of `origin` is copied but its position. */
    constructor Missile(T: Trig, origin: Body, v0: real, vphi: real, originrad: real)
      ensures vtheta == vphi * PI / 180.0 && vmag == v0
      ensures x == origin.x + Ceil(originrad * T.cos(vtheta))
      ensures y == origin.y + Ceil(originrad / 2.0 * T.sin(vtheta))
      ensures mass == 3.0 && nextBody == null
    {
      var phi := vphi * PI / 180.0;
      vtheta := phi;
      vmag := v0;
      var delx := Ceil(originrad * T.cos(phi));
      var dely := Ceil(originrad / 2.0 * T.sin(phi));
      x := Trunc(origin.GetX() + delx as real);
      y := Trunc(origin.GetY() + dely as real);
      mass := 3.0;
      nextBody := null;
      new;
      TruncIntegral(origin.x + delx);
      TruncIntegral(origin.y + dely);
    }

    function GetX(): real reads this { x as real }
    function GetY(): real reads this { y as real }
    function GetSize(): int reads this { size }
    function GetMass(): real reads this { mass }

    /** What the physics reads of this body. */
    function View(): BodyView reads this { BodyView(x, y, size, mass) }

    /** `setnext`: relinks this body and changes nothing else. */
    method SetNext(nextOne: Body?)
      modifies this
      ensures GetNext() == nextOne
      ensures x == old(x) && y == old(y) && size == old(size) && mass == old(mass)
      ensures vmag == old(vmag) && vtheta == old(vtheta)
    {
      nextBody := nextOne;
    }

    function GetNext(): Body? reads this { nextBody }

    /** `getforce`: the pull on this body of every body on the chain from
        `input` to the null terminator. The recursion follows `nextBody`; the
        ghost `chain` lists the bodies it visits. This body is only read. */
    function GetForce(T: Trig, input: Body, ghost chain: seq<Body>): (f: Vec)
      reads this, chain
      requires IsChain(input, chain)
      decreases |chain|
      ensures f == NetForce(T, x, y, mass, Views(chain))
    {
      var own := Pull(T, x, y, mass, input.View());
      assert Views(chain)[1..] == Views(chain[1..]);
      if input.nextBody != null then own.Plus(GetForce(T, input.nextBody, chain[1..]))
      else assert IsChain(null, chain[1..]); own
    }

    /** `setvelocity`: adds `force / mass` to the Cartesian velocity and stores
        the result back in polar form. Only `vmag` and `vtheta` change. */
    method SetVelocity(T: Trig, force: Vec)
      requires mass != 0.0
      requires var v := Accelerated(T, vmag, vtheta, mass, force); v.x != 0.0 || v.y != 0.0
      modifies this
      ensures var v := old(Accelerated(T, vmag, vtheta, mass, force));
        vmag == T.sqrt(v.NormSq()) && vtheta == Heading(T, v.x, v.y)
      ensures Lawful(T) ==>
        0.0 <= vmag && vmag * vmag == old(Accelerated(T, vmag, vtheta, mass, force)).NormSq()
      ensures x == old(x) && y == old(y) && size == old(size) && mass == old(mass)
      ensures nextBody == old(nextBody)
    {
      var oldvmag, oldvtheta, m := vmag, vtheta, mass;
      var vx := oldvmag * T.cos(oldvtheta);
      var vy := oldvmag * T.sin(oldvtheta);
      vx := vx + force.x / m;
      vy := vy + force.y / m;
      vmag := T.sqrt(vx * vx + vy * vy);
      var newvtheta := if vx != 0.0 then T.atan(vy / vx)
                       else if 0.0 < vy then T.atanInf else -T.atanInf;
      if vx < 0.0 {
        newvtheta := newvtheta + PI;
      }
      vtheta := newvtheta;
      assert Vec(vx, vy) == old(Accelerated(T, vmag, vtheta, mass, force));
      assert vmag == T.sqrt(vx * vx + vy * vy);
      assert Vec(vx, vy).NormSq() == vx * vx + vy * vy;
      assert vtheta == Heading(T, vx, vy);
    }

    /** `movebody`: one frame of motion; only the position changes. */
    method MoveBody(T: Trig)
      modifies this
      ensures (x, y) == Moved(T, old(x), old(y), old(vmag), old(vtheta))
      ensures vmag == old(vmag) && vtheta == old(vtheta)
      ensures size == old(size) && mass == old(mass) && nextBody == old(nextBody)
    {
      var v, phi := vmag, vtheta;
      var oldx, oldy := x as real, y as real;
      var vx := v * T.cos(phi);
      var vy := v * T.sin(phi);
      assert Moved(T, x, y, v, phi).0 == Trunc(oldx + vx);
      assert Moved(T, x, y, v, phi).1 == Trunc(oldy + vy / 2.0);
      x, y := Trunc(oldx + vx), Trunc(oldy + vy / 2.0);

    }
  }

  /** The bodies reached from `head` by following `nextBody` are exactly
      `chain`, in order, and the last one's successor is null. */
  ghost predicate IsChain(head: Body?, chain: seq<Body>)
    reads chain
    decreases |chain|
  {
    if chain == [] then head == null
    else head == chain[0] && IsChain(chain[0].nextBody, chain[1..])
  }

  /** The same chain stated index by index. */
  ghost predicate Linked(chain: seq<Body>)
    reads chain
  {
    && (forall i :: 0 <= i < |chain| - 1 ==> chain[i].nextBody == chain[i + 1])
    && (chain != [] ==> chain[|chain| - 1].nextBody == null)
  }

  /** What the physics reads of each body of a chain, in chain order. */
  ghost function Views(chain: seq<Body>): (vs: seq<BodyView>)
    reads chain
    ensures |vs| == |chain|
    ensures forall i :: 0 <= i < |chain| ==> vs[i] == chain[i].View()
  {
    if chain == [] then [] else [chain[0].View()] + Views(chain[1..])
  }

  /** Following the links from `head` gives `chain` exactly when `chain`
      starts at `head` and each element links to the next. */
  lemma {:induction false} ChainIffLinked(head: Body?, chain: seq<Body>)
    ensures IsChain(head, chain) <==>
      (if chain == [] then head == null else head == chain[0] && Linked(chain))
    decreases |chain|
  {
    if chain != [] {
      ChainIffLinked(chain[0].nextBody, chain[1..]);
      var tail := chain[1..];
      if Linked(chain) {
        assert Linked(tail) by {
          forall i | 0 <= i < |tail| - 1 ensures tail[i].nextBody == tail[i + 1] {
            assert tail[i] == chain[i + 1];
          }
        }
      }
      if IsChain(head, chain) && tail != [] {
        assert chain[0].nextBody == tail[0];
        forall i | 0 <= i < |chain| - 1 ensures chain[i].nextBody == chain[i + 1] {
          if 0 < i { assert chain[i] == tail[i - 1]; }
        }
      }
    }
  }

  /** A chain that ends at null visits each body exactly once. */
  lemma ChainDistinct(head: Body?, chain: seq<Body>)
    requires IsChain(head, chain)
    ensures forall i, j :: 0 <= i < j < |chain| ==> chain[i] != chain[j]
  {
    ChainIffLinked(head, chain);
    forall i, j | 0 <= i < j < |chain| ensures chain[i] != chain[j] {
      NoRepeat(chain, i, j);
    }
  }

  lemma {:induction false} NoRepeat(chain: seq<Body>, i: nat, j: nat)
    requires Linked(chain) && i < j < |chain|
    ensures chain[i] != chain[j]
    decreases |chain| - j
  {
    if j + 1 < |chain| {
      NoRepeat(chain, i + 1, j + 1);
      assert chain[i].nextBody == chain[i + 1];
      assert chain[j].nextBody == chain[j + 1];
    } else {
      assert chain[i].nextBody == chain[i + 1];
      assert chain[j].nextBody == null;
    }
  }

  /** Summing over two blocks of bodies is summing over each in turn. */
  lemma {:induction false} NetForceAppend(T: Trig, mx: int, my: int, mmass: real, a: seq<BodyView>, b: seq<BodyView>)
    ensures NetForce(T, mx, my, mmass, a + b) ==
            NetForce(T, mx, my, mmass, a).Plus(NetForce(T, mx, my, mmass, b))
  {
    if a == [] {
      assert a + b == b;
    } else {
      assert (a + b)[0] == a[0] && (a + b)[1..] == a[1..] + b;
      NetForceAppend(T, mx, my, mmass, a[1..], b);
      var p := Pull(T, mx, my, mmass, a[0]);
      var ra, rb := NetForce(T, mx, my, mmass, a[1..]), NetForce(T, mx, my, mmass, b);
      assert NetForce(T, mx, my, mmass, a + b) == p.Plus(ra.Plus(rb));
      assert NetForce(T, mx, my, mmass, a) == p.Plus(ra);
      PlusAssoc(p, ra, rb);
    }
  }

  lemma PlusAssoc(p: Vec, q: Vec, r: Vec)
    ensures p.Plus(q.Plus(r)) == p.Plus(q).Plus(r)
  {
  }

  /** In exact arithmetic the total pull does not depend on where the chain
      starts: rotating the chain leaves it unchanged. */
  lemma NetForceRotate(T: Trig, mx: int, my: int, mmass: real, a: seq<BodyView>, b: seq<BodyView>)
    ensures NetForce(T, mx, my, mmass, a + b) == NetForce(T, mx, my, mmass, b + a)
  {
    NetForceAppend(T, mx, my, mmass, a, b);
    NetForceAppend(T, mx, my, mmass, b, a);
  }

  /** A body at the missile's row and at most one column away pulls with zero
      force: `delx` truncates to 0, so `distsq` is 0. */
  lemma PullOfNeighbour(T: Trig, mx: int, my: int, mmass: real, v: BodyView)
    requires v.y == my && -1 <= v.x - mx <= 1
    ensures Pull(T, mx, my, mmass, v) == Vec(0.0, 0.0)
  {
    assert DelX(mx, v) == 0;
  }

  /** The pull has the inverse-square magnitude `mmass * bmass / distsq`,
      and zero at distance zero. */
  lemma PullMagnitude(T: Trig, mx: int, my: int, mmass: real, v: BodyView)
    requires Lawful(T)
    ensures var f := Magnitude(mmass, v.mass, DistSq(mx, my, v));
      Pull(T, mx, my, mmass, v).NormSq() == f * f
  {
    var dx, dy := DelX(mx, v), DelY(my, v);
    var theta := if dx == 0 && dy == 0 then 0.0 else Heading(T, dx as real, dy as real);
    var f := Magnitude(mmass, v.mass, DistSq(mx, my, v));
    var c, s := T.cos(theta), T.sin(theta);
    assert c * c + s * s == 1.0;
    calc {
      Pull(T, mx, my, mmass, v).NormSq();
      (f * c) * (f * c) + (f * s) * (f * s);
      f * f * (c * c + s * s);
      f * f;
    }
  }

  /** The pull scales linearly with the mass it acts on. */
  lemma PullLinearInMass(T: Trig, mx: int, my: int, mmass: real, k: real, v: BodyView)
    ensures Pull(T, mx, my, k * mmass, v) == Pull(T, mx, my, mmass, v).Scale(k)
  {
    var d := DistSq(mx, my, v);
    if d != 0 {
      var dd := d as real;
      assert (k * mmass * v.mass) / dd == k * ((mmass * v.mass) / dd);
    }
  }

  /** One frame from rest under the force (6, 0) on a body of mass 3: speed 2,
      heading 0, and a move of two columns along the same row. */
  lemma IntegrationStep(T: Trig, x: int, y: int)
    requires Lawful(T)
    ensures Accelerated(T, 0.0, 0.0, 3.0, Vec(6.0, 0.0)) == Vec(2.0, 0.0)
    ensures T.sqrt(Vec(2.0, 0.0).NormSq()) == 2.0 && Heading(T, 2.0, 0.0) == 0.0
    ensures Moved(T, x, y, 2.0, 0.0) == (x + 2, y)
  {
    assert Vec(2.0, 0.0).NormSq() == 4.0;
    var q := T.sqrt(4.0);
    assert 0.0 <= q && q * q == 4.0;
    if q < 2.0 { MulStrict(q, 2.0); } else if 2.0 < q { MulStrict(2.0, q); }
    assert 0.0 / 2.0 == 0.0;
    TruncIntegral(x + 2);
    TruncIntegral(y);
  }
}
