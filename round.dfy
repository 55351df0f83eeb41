/** One pass of the main loop of `main`: the current player fires a missile
    from their planet at the other player's planet, the shooter scores when
    the missile hits that planet, and the turn passes on. */
module Round {
  import opened CMath
  import opened Bodies
  import opened Flight

  /** The control code `inputparam` returns for the fire key. */
  const FireCode: int := 3

  /** The launch radius `main` passes to the `Missile` constructor. */
  const LaunchRadius: real := 9.0

  /** The `score` slot of a player: `score[player]` with `false` as 0. */
  function Slot(player: bool): (k: nat)
    ensures k < 2 && (k == 1 <==> player)
  {
    if player then 1 else 0
  }

  /** The planet a player fires from, and the one they aim at. */
  function Home(player: bool): nat { if player then 1 else 0 }
  function Target(player: bool): nat { if player then 0 else 1 }

  /** The missile as the `Missile` constructor leaves it: at the edge of
      the launch circle around `origin` in direction `vphi` degrees, with
      speed `v0` and mass 3. */
  function Launch(T: Trig, origin: BodyView, v0: real, vphi: real): (c: Craft)
    ensures c.mass == 3.0 && c.vmag == v0 && c.vtheta == vphi * PI / 180.0
  {
    var theta := vphi * PI / 180.0;
    Craft(origin.x + Ceil(LaunchRadius * T.cos(theta)),
          origin.y + Ceil(LaunchRadius / 2.0 * T.sin(theta)), v0, theta, 3.0)
  }

  /** The scores after a fire by `player` that hit the target planet or
      not: the shooter's slot rises by one exactly on a hit. */
  function ScoreAfter(score: seq<int>, player: bool, hit: bool): (s: seq<int>)
    requires |score| == 2
    ensures |s| == 2
  {
    if hit then score[Slot(player) := score[Slot(player)] + 1] else score
  }

  /** Lines 90-101 of `main`, the branch taken on the fire code: a
      missile is launched from the player's planet and flown; the player
      scores when it ends on the opponent's planet, and the turn passes.
      Any other code changes nothing. The source's flight may never end;
      when the fuel runs out, or the flight reaches the undefined heading
      `atan(0/0)`, the turn does not pass and nothing is scored. */
  method PlayTurn(T: Trig, planets: array<Body>, head: Body, ghost chain: seq<Body>,
                  score: array<int>, player: bool, ctrl: int, v1: real, vtheta: real,
                  nlines: int, ncols: int, fuel: nat)
    returns (nextPlayer: bool, outcome: Option<Ending<Body?>>)
    requires 2 <= planets.Length && score.Length == 2 && IsChain(head, chain)
    modifies score
    ensures Views(chain) == old(Views(chain))
    ensures ctrl != FireCode ==> outcome == None
    ensures ctrl == FireCode ==>
      outcome == Some(Resolve(Fly(T, Launch(T, planets[Home(player)].View(), v1, vtheta),
                                  Views(chain), ncols, nlines, fuel).1, chain))
    ensures score[..] == ScoreAfter(old(score[..]), player,
                                    outcome == Some(Ending<Body?>.Ended(planets[Target(player)])))
    ensures nextPlayer == (if outcome.Some? && outcome.value.Ended? then !player else player)
  {
    nextPlayer := player;
    outcome := None;
    if ctrl == FireCode {
      var start := if player then planets[1] else planets[0];
      var missile := new Body.Missile(T, start, v1, vtheta, LaunchRadius);
      assert CraftOf(missile) == Launch(T, start.View(), v1, vtheta);
      var ending := FireProj(T, missile, head, chain, nlines, ncols, fuel);
      outcome := Some(ending);
      if ending.Ended? {
        var opponent := if player then planets[0] else planets[1];
        if ending.hit == opponent {
          score[Slot(player)] := score[Slot(player)] + 1;
        }
        nextPlayer := !player;
      }
    }
  }

  /** Only the shooter's score can change, and by at most one. */
  lemma OnlyShooterScores(score: seq<int>, player: bool, hit: bool)
    requires |score| == 2
    ensures ScoreAfter(score, player, hit)[Slot(!player)] == score[Slot(!player)]
    ensures ScoreAfter(score, player, hit)[Slot(player)] == score[Slot(player)] + (if hit then 1 else 0)
  {
  }

  /** A flight that ends, ends on the opponent's planet only if that planet
      is the first body in the chain the missile's last position hits. */
  lemma {:induction false} HitTargetMeansFirstHit(T: Trig, c: Craft, chain: seq<Body>,
                                                 target: Body, ncols: int, nlines: int, fuel: nat)
    requires c.mass != 0.0
    ensures var (n, e) := Fly(T, c, Views(chain), ncols, nlines, fuel);
      Resolve(e, chain) == Ending<Body?>.Ended(target) <==>
        e.Ended? && BodyAt(chain, FirstHit(n.x, n.y, Views(chain))) == target
  {
    FlightEndsAtHitOrEdge(T, c, Views(chain), ncols, nlines, fuel);
  }

  /** With the chain `main` builds (every planet but the last), a flight
      never ends on the last planet. In a two-planet game that is the first
      player's target, so `ScoreAfter` never credits the first player. */
  lemma {:induction false} LastPlanetNeverScored(T: Trig, c: Craft, planets: seq<Body>,
                                                ncols: int, nlines: int, fuel: nat)
    requires c.mass != 0.0 && 2 <= |planets|
    requires forall i, j :: 0 <= i < j < |planets| ==> planets[i] != planets[j]
    ensures var chain := planets[..|planets| - 1];
      Resolve(Fly(T, c, Views(chain), ncols, nlines, fuel).1, chain) != Ending<Body?>.Ended(planets[|planets| - 1])
  {
    var chain := planets[..|planets| - 1];
    var (n, e) := Fly(T, c, Views(chain), ncols, nlines, fuel);
    HitTargetMeansFirstHit(T, c, chain, planets[|planets| - 1], ncols, nlines, fuel);
    var r := FirstHit(n.x, n.y, Views(chain));
    if r.Some? {
      assert chain[r.value] == planets[r.value];
    }
  }
}
