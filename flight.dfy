/** The flight of a missile: the collision test against the chain of bodies,
    the bounds test, and the frame loop of `fireproj` that runs force,
    velocity, move, collision test and bounds test in that order. */
module Flight {
  import opened CMath
  import opened Bodies

  datatype Option<T> = None | Some(value: T)

  /** How a flight ends. `Ended(hit)` is the source's return from `fireproj`:
      the body hit, or none if the missile left the field. A flight that has
      not ended when the frame budget runs out is `OutOfFuel`; `Undefined` is
      a frame whose new velocity is zero, where the source divides 0 by 0. */
  datatype Ending<H> = Ended(hit: H) | OutOfFuel | Undefined

  /** The collision test of `checkcollision` for one body: the projectile is
      strictly closer to the centre than the radius `size / 2` (integer
      division), the horizontal offset halved as a real number. The source
      compares `sqrt(d2) < rad`; `HitsIsSqrtTest` shows the two agree. */
  predicate Hits(px: int, py: int, v: BodyView) {
    var rad := Half(v.size);
    0 < rad && CorrectedDistSq(px, py, v) < (rad * rad) as real
  }

  /** The squared aspect-corrected distance `xdiff^2 + ydiff^2`. */
  function CorrectedDistSq(px: int, py: int, v: BodyView): real {
    var xdiff := Abs(px - v.x) as real / 2.0;
    var ydiff := Abs(py - v.y) as real;
    xdiff * xdiff + ydiff * ydiff
  }

  /** The index of the first body, in chain order, that the projectile at
      `(px, py)` hits; none if it hits no body. */
  function FirstHit(px: int, py: int, vs: seq<BodyView>): (r: Option<nat>)
    ensures r.None? <==> forall i :: 0 <= i < |vs| ==> !Hits(px, py, vs[i])
    ensures r.Some? ==> r.value < |vs| && Hits(px, py, vs[r.value]) &&
                        forall j :: 0 <= j < r.value ==> !Hits(px, py, vs[j])
  {
    if vs == [] then None
    else if Hits(px, py, vs[0]) then Some(0)
    else match FirstHit(px, py, vs[1..])
      case None => None
      case Some(k) => Some(k + 1)
  }

  /** The body of `chain` at index `r`, or null. */
  function BodyAt(chain: seq<Body>, r: Option<nat>): Body? {
    if r.Some? && r.value < |chain| then chain[r.value] else null
  }

  /** `checkcollision`: walks the chain from `head` and returns the first body
      the projectile hits, or null when it hits none. */
  method CheckCollision(proj: Body, head: Body?, ghost chain: seq<Body>) returns (collided: Body?)
    requires IsChain(head, chain)
    ensures collided == BodyAt(chain, FirstHit(proj.x, proj.y, Views(chain)))
    ensures collided == null <==> forall i :: 0 <= i < |chain| ==> !Hits(proj.x, proj.y, chain[i].View())
    ensures collided != null ==>
      exists k :: 0 <= k < |chain| && collided == chain[k] && Hits(proj.x, proj.y, chain[k].View()) &&
                  forall j :: 0 <= j < k ==> !Hits(proj.x, proj.y, chain[j].View())
  {
    var iter := head;
    ghost var k := 0;
    while iter != null
      invariant 0 <= k <= |chain|
      invariant IsChain(iter, chain[k..])
      invariant forall j :: 0 <= j < k ==> !Hits(proj.x, proj.y, chain[j].View())
      decreases |chain| - k
    {
      assert iter == chain[k];
      var rad := Half(iter.GetSize());
      var xdiff := Abs(proj.x - iter.x) as real / 2.0;
      var ydiff := Abs(proj.y - iter.y) as real;
      assert CorrectedDistSq(proj.x, proj.y, iter.View()) == xdiff * xdiff + ydiff * ydiff;
      if 0 < rad && xdiff * xdiff + ydiff * ydiff < (rad * rad) as real {
        break;
      }
      assert chain[k..][1..] == chain[k + 1..];
      iter := iter.GetNext();
      k := k + 1;
    }
    collided := iter;
    if collided == null {
      assert chain[k..] == [];
    }
  }

  /** `checkSides`: the missile is out of bounds unless it lies strictly
      inside the margins, columns 2 .. cols-3 and lines 3 .. lines-4. */
  function CheckSides(mx: int, my: int, cols: int, lines: int): (out: bool)
    ensures !out <==> 1 < mx < cols - 2 && 2 < my < lines - 3
  {
    if mx < cols - 2 && mx > 1 then
      if my < lines - 3 && my > 2 then false else true
    else true
  }

  /** The moving state of a missile. */
  datatype Craft = Craft(x: int, y: int, vmag: real, vtheta: real, mass: real)

  function CraftOf(b: Body): Craft reads b {
    Craft(b.x, b.y, b.vmag, b.vtheta, b.mass)
  }

  /** One frame of physics in `fireproj`'s order: the pull of `vs`, the
      velocity update, the move. None when the new velocity is zero, where
      the source's heading is `atan(0/0)`. */
  function Step(T: Trig, c: Craft, vs: seq<BodyView>): (r: Option<Craft>)
    requires c.mass != 0.0
    ensures r.Some? ==> r.value.mass == c.mass
  {
    var f := NetForce(T, c.x, c.y, c.mass, vs);
    var v := Accelerated(T, c.vmag, c.vtheta, c.mass, f);
    if v.x == 0.0 && v.y == 0.0 then None
    else
      var vmag := T.sqrt(v.NormSq());
      var vtheta := Heading(T, v.x, v.y);
      var p := Moved(T, c.x, c.y, vmag, vtheta);
      Some(Craft(p.0, p.1, vmag, vtheta, c.mass))
  }

  /** A flight of at most `fuel` frames: after each frame the collision test,
      then the bounds test; the flight ends at the first frame where either
      fires, with the collision result of that frame. */
  function Fly(T: Trig, c: Craft, vs: seq<BodyView>, ncols: int, nlines: int, fuel: nat): (Craft, Ending<Option<nat>>)
    requires c.mass != 0.0
    decreases fuel
  {
    if fuel == 0 then (c, OutOfFuel)
    else match Step(T, c, vs)
      case None => (c, Undefined)
      case Some(n) =>
        var hit := FirstHit(n.x, n.y, vs);
        if CheckSides(n.x, n.y, ncols, nlines) || hit.Some? then (n, Ended(hit))
        else Fly(T, n, vs, ncols, nlines, fuel - 1)
  }

  /** The source's view of an ending: the body hit, as a pointer into the chain. */
  function Resolve(e: Ending<Option<nat>>, chain: seq<Body>): Ending<Body?> {
    match e
    case Ended(h) => Ended(BodyAt(chain, h))
    case OutOfFuel => OutOfFuel
    case Undefined => Undefined
  }

  /** The first three calls of a frame of `fireproj`: `getforce` on the
      chain, `setvelocity`, `movebody`. Reports false, changing nothing, at a
      zero new velocity, where the source's heading is `atan(0/0)`. */
  method Advance(T: Trig, missile: Body, head: Body, ghost chain: seq<Body>) returns (moved: bool)
    requires IsChain(head, chain) && missile !in chain && missile.mass != 0.0
    modifies missile
    ensures Views(chain) == old(Views(chain))
    ensures var r := Step(T, old(CraftOf(missile)), Views(chain));
      moved == r.Some? && CraftOf(missile) == if moved then r.value else old(CraftOf(missile))
    ensures missile.size == old(missile.size) && missile.nextBody == old(missile.nextBody)
  {
    ghost var c := CraftOf(missile);
    var missileforce := missile.GetForce(T, head, chain);
    var v := Accelerated(T, missile.vmag, missile.vtheta, missile.mass, missileforce);
    if v.x == 0.0 && v.y == 0.0 {
      return false;
    }
    missile.SetVelocity(T, missileforce);
    missile.MoveBody(T);
    moved := true;
  }

  /** `fireproj`: moves the missile frame by frame until it hits a body or
      leaves the field, and returns the body hit (null when it left). The
      chain's bodies do not move. */
  method FireProj(T: Trig, missile: Body, head: Body, ghost chain: seq<Body>,
                  nlines: int, ncols: int, fuel: nat) returns (ending: Ending<Body?>)
    requires IsChain(head, chain) && missile !in chain && missile.mass != 0.0
    modifies missile
    ensures Views(chain) == old(Views(chain))
    ensures var (c, e) := Fly(T, old(CraftOf(missile)), old(Views(chain)), ncols, nlines, fuel);
      CraftOf(missile) == c && ending == Resolve(e, chain)
    ensures missile.size == old(missile.size) && missile.nextBody == old(missile.nextBody)
  {
    ghost var vs := Views(chain);
    ghost var target := Fly(T, CraftOf(missile), vs, ncols, nlines, fuel);
    var collided: Body? := null;
    var left: nat := fuel;
    while collided == null
      invariant left <= fuel
      invariant IsChain(head, chain) && Views(chain) == vs
      invariant missile.mass == old(missile.mass)
      invariant missile.size == old(missile.size) && missile.nextBody == old(missile.nextBody)
      invariant collided == null ==> Fly(T, CraftOf(missile), vs, ncols, nlines, left) == target
      invariant collided != null ==> CraftOf(missile) == target.0 && Resolve(target.1, chain) == Ended(collided)
      decreases left, if collided == null then 1 else 0
    {
      if left == 0 {
        return OutOfFuel;
      }
      ghost var c := CraftOf(missile);
      var moved := Advance(T, missile, head, chain);
      if !moved {
        return Undefined;
      }
      FlyStep(T, c, vs, ncols, nlines, left);
      collided := CheckCollision(missile, head, chain);
      var sidecoll := CheckSides(Trunc(missile.GetX()), Trunc(missile.GetY()), ncols, nlines);
      TruncIntegral(missile.x);
      TruncIntegral(missile.y);
      left := left - 1;
      if sidecoll {
        break;
      }
    }
    ending := Ended(collided);
  }

  /** One frame of `Fly`: after a step that moves the craft, the flight ends
      there on a hit or at the edge, and otherwise goes on from the new craft
      with one frame less. */
  lemma FlyStep(T: Trig, c: Craft, vs: seq<BodyView>, ncols: int, nlines: int, fuel: nat)
    requires c.mass != 0.0 && 0 < fuel && Step(T, c, vs).Some?
    ensures var n := Step(T, c, vs).value;
      var hit := FirstHit(n.x, n.y, vs);
      Fly(T, c, vs, ncols, nlines, fuel) ==
        if CheckSides(n.x, n.y, ncols, nlines) || hit.Some? then (n, Ended(hit))
        else Fly(T, n, vs, ncols, nlines, fuel - 1)
  {
  }

  /** The collision test is the source's `sqrt` comparison, stated exactly. */
  lemma HitsIsSqrtTest(T: Trig, px: int, py: int, v: BodyView)
    requires Lawful(T)
    ensures Hits(px, py, v) <==> T.sqrt(CorrectedDistSq(px, py, v)) < Half(v.size) as real
  {
    var rad := Half(v.size) as real;
    SqrtLess(T, CorrectedDistSq(px, py, v), rad);
    assert (Half(v.size) * Half(v.size)) as real == rad * rad;
  }

  /** A projectile at the centre of a body of size at least 2 (all sizes used
      are 3 or more) hits it. */
  lemma HitAtCentre(v: BodyView)
    requires 2 <= v.size
    ensures Hits(v.x, v.y, v)
  {
    assert 1 <= Half(v.size);
  }

  /** A projectile at corrected distance exactly `size / 2` does not hit. */
  lemma MissAtRadius(px: int, py: int, v: BodyView)
    requires CorrectedDistSq(px, py, v) == (Half(v.size) * Half(v.size)) as real
    ensures !Hits(px, py, v)
  {
  }

  /** A size-5 body has radius 2: hit one line or three columns from the
      centre, missed two lines or four columns away. */
  lemma SizeFiveRadius(v: BodyView)
    requires v.size == 5
    ensures Hits(v.x, v.y + 1, v) && !Hits(v.x, v.y + 2, v)
    ensures Hits(v.x + 3, v.y, v) && !Hits(v.x + 4, v.y, v)
  {
    assert Half(5) == 2;
  }

  /** Of two bodies that both cover the projectile, the one earlier in the
      chain is reported. */
  lemma EarlierBodyWins(px: int, py: int, vs: seq<BodyView>, i: nat, j: nat)
    requires i < j < |vs| && Hits(px, py, vs[i]) && Hits(px, py, vs[j])
    ensures FirstHit(px, py, vs).Some? && FirstHit(px, py, vs).value <= i
  {
  }

  /** When a flight ends, it ends at a frame where the missile hit the body
      reported, the first in chain order, or left the field having hit none. */
  lemma {:induction false} FlightEndsAtHitOrEdge(T: Trig, c: Craft, vs: seq<BodyView>,
                                                 ncols: int, nlines: int, fuel: nat)
    requires c.mass != 0.0
    ensures var (n, e) := Fly(T, c, vs, ncols, nlines, fuel);
      e.Ended? ==> e.hit == FirstHit(n.x, n.y, vs) &&
                   (e.hit.Some? || CheckSides(n.x, n.y, ncols, nlines))
    decreases fuel
  {
    if fuel > 0 {
      match Step(T, c, vs)
      case None =>
      case Some(n) =>
        FlightEndsAtHitOrEdge(T, n, vs, ncols, nlines, fuel - 1);
    }
  }

  /** A flight that has ended ends the same way with any larger budget: the
      frame budget only cuts off flights that have not ended. */
  lemma {:induction false} FlightFuelIrrelevant(T: Trig, c: Craft, vs: seq<BodyView>,
                                                ncols: int, nlines: int, fuel: nat, extra: nat)
    requires c.mass != 0.0
    requires !Fly(T, c, vs, ncols, nlines, fuel).1.OutOfFuel?
    ensures Fly(T, c, vs, ncols, nlines, fuel + extra) == Fly(T, c, vs, ncols, nlines, fuel)
    decreases fuel
  {
    match Step(T, c, vs)
    case None =>
    case Some(n) =>
      if !(CheckSides(n.x, n.y, ncols, nlines) || FirstHit(n.x, n.y, vs).Some?) {
        FlightFuelIrrelevant(T, n, vs, ncols, nlines, fuel - 1, extra);
        assert fuel + extra - 1 == fuel - 1 + extra;
      }
  }
}
