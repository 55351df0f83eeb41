# battleplanets in Dafny

A model of the exact, non-trigonometric core of *battleplanets*, a
two-player terminal artillery game. Each player fires a missile from their
planet at the other player's planet. Gravity from a chain of planets bends
the flight. The model covers:

- **Bodies** (`body.dfy`): the `Body` object, with the fields of `Body.h`
  and one named constructor for each C++ constructor (`Planet`,
  `Asteroid`, `Missile`). It also covers the `nextBody` chain, the
  recursive `getforce` over that chain, `setvelocity` and `movebody`.
  Positions are `int` fields, so the integer halving in `getforce` and the
  truncation in `movebody` are written out.
- **Flight** (`flight.dfy`): `checkcollision`, walking the chain with a
  pointer. It also covers the rectangle test `checkSides` and the frame loop
  `fireproj` in the source's order: force, velocity, move, collision test,
  bounds test. The flight is a pure function `Fly` with a frame budget.
  The heap method `FireProj` is proved to follow it.
- **Arrangement** (`arrange.dfy`): `arrangeplanets`, with `rand()` supplied
  as a sequence of draws. This covers the size table, the first position,
  the rejection loops that keep planets apart, and planet construction. It
  also covers the chain-linking loop of `main`, as written and corrected.
- **Rounds** (`round.dfy`): one pass of `main`'s loop after input. On the
  fire code a missile is launched and flown, the shooter scores on a hit of
  the opponent's planet, and the turn passes.
- **Number formatting** (`itoa.dfy`): `itoa` writes the digits least
  significant first into a buffer, adds a `-` and a NUL, then calls
  `reverse` to reverse the text in place.
- **C arithmetic** (`cmath.dfy`):
  - C's truncating `/ 2`, `abs`, double-to-int truncation and `ceil`;
  - the `PI` constant 3.1415;
  - a `Trig` value that carries `sin`, `cos`, `atan` and `sqrt`, passed to
    every member that needs them, with the laws (`Lawful`) that the proofs
    rely on.

The distance comparisons of `checkcollision` and `arrangeplanets` are stated
exactly, in squared form over reals. `SqrtLess` shows that they agree with
the source's `sqrt(d) < r` for any lawful square root.

## Model

| member | source | states |
|---|---|---|
| CMath.Half | main.cpp:120 | C's `n / 2` truncates toward zero: the remainder is 0 or 1 for `n >= 0`, and 0 or -1 for `n <= 0` |
| CMath.Abs | main.cpp:125-126 | `abs` gives `n` or `-n`, never negative |
| CMath.Trunc | Body.cpp:196-197 | assigning a double to an `int` field truncates toward zero |
| CMath.Ceil | Body.cpp:61-62 | `ceil(r)` is an integer in `[r, r + 1)` |
| CMath.SqrtLess | main.cpp:127-128 | `sqrt(d2) < r` holds exactly when `r` is positive and `d2 < r*r` |
| Bodies.Heading | Body.cpp:118-127 | `Ftheta` is `atan(dely/delx)`, plus `PI` when `delx < 0`; a zero `delx` gives `atan` of an infinity with the sign of `dely`, and both offsets zero is excluded. It carries no contract; `PullMagnitude` and `IntegrationStep` use it |
| Bodies.Magnitude | Body.cpp:131-133 | `Fmag` is `m1*m2/distsq`, and 0 when `distsq` is 0. It carries no contract; `PullMagnitude` states the length of the pull it gives |
| Bodies.Pull | Body.cpp:112-136 | one level of `getforce`: a force of length `Fmag` at angle `Ftheta`. It carries no contract; `PullMagnitude`, `PullOfNeighbour` and `PullLinearInMass` state its length, its zero case and its scaling |
| Bodies.DistSq | Body.cpp:112-129 | `distsq` is the non-negative integer `delx^2 + dely^2`, where `delx` is the truncated half. It is zero only when both offsets are zero |
| Bodies.Body.Construct | Body.cpp:9-17 | sets the truncated position, zero speed and heading, and a null next pointer; size and mass are kept |
| Bodies.Body.InitPlanet | Body.cpp:44-50 | position, size `s`, mass equal to size, at rest, unlinked |
| Bodies.Body.InitAsteroid | Body.cpp:28-34 | position, size `s`, mass equal to size, at rest, unlinked |
| Bodies.Body.Planet | Body.cpp:36-42 | default planet: size 9 and mass 9, at rest, unlinked |
| Bodies.Body.SizedPlanet | Body.cpp:44-50 | planet of size `s` with mass `s`, at rest, unlinked |
| Bodies.Body.Asteroid | Body.cpp:20-26 | default asteroid: size 6 and mass 6, at rest, unlinked |
| Bodies.Body.SizedAsteroid | Body.cpp:28-34 | asteroid of size `s` with mass `s`, at rest, unlinked |
| Bodies.Body.Missile | Body.cpp:54-71 | heading `vphi*PI/180`, speed `v0`, and mass 3 whatever the origin. The position is the origin plus the `ceil` offsets. Unlinked |
| Bodies.Body.GetX | Body.cpp:75-77 | `getx` reads the position's column. It carries no contract |
| Bodies.Body.GetY | Body.cpp:79-81 | `gety` reads the position's line. It carries no contract |
| Bodies.Body.GetSize | Body.cpp:83-85 | `getsize` reads the size. It carries no contract |
| Bodies.Body.GetMass | Body.cpp:87-89 | `getmass` reads the mass. It carries no contract |
| Bodies.Body.GetNext | Body.cpp:98-100 | `getnext` reads the link; `SetNext` states that it returns the pointer last set. It carries no contract |
| Bodies.Body.SetNext | Body.cpp:94-100 | `GetNext()` returns the pointer last set; no other field changes |
| Bodies.Body.GetForce | Body.cpp:108-151 | the force is the sum of each body's pull, over every body from `input` to the null terminator in chain order |
| Bodies.Body.SetVelocity | Body.cpp:155-179 | the new speed and heading are the polar form of the old Cartesian components plus `force/mass`. The speed is non-negative with the right square. Only speed and heading change |
| Bodies.Body.MoveBody | Body.cpp:183-198 | `x := trunc(x + vx)` and `y := trunc(y + vy/2)`; speed, heading, size, mass and link are unchanged |
| Bodies.ChainIffLinked | main.cpp:118-131 | following `nextBody` from `head` visits exactly `chain` when `head` is its first element, each element links to the next, and the last links to null |
| Bodies.ChainDistinct | Body.cpp:140-146 | a chain visits every body at most once |
| Bodies.NetForceAppend | Body.cpp:138-146 | the force of two chains one after the other is the sum of their forces |
| Bodies.NetForceRotate | Body.cpp:138-146 | the total force does not depend on where the chain starts |
| Bodies.PullOfNeighbour | Body.cpp:112-133 | a body on the same row and at most one column away pulls with zero force, because `delx` truncates to 0 |
| Bodies.PullMagnitude | Body.cpp:129-136 | one body's pull has length `m1*m2/distsq`, or zero at `distsq == 0` |
| Bodies.PullLinearInMass | Body.cpp:133 | scaling the missile's mass scales each pull by the same factor |
| Bodies.IntegrationStep | Body.cpp:155-198 | worked frame: a missile of mass 3 at rest under force (6, 0) gets speed 2 and heading 0, and moves two columns right |
| Flight.Hits | main.cpp:120-128 | the collision test for one body: the corrected distance is strictly below the radius `size/2`. It carries no contract; `HitsIsSqrtTest`, `HitAtCentre`, `MissAtRadius` and `SizeFiveRadius` state what it accepts |
| Flight.FirstHit | main.cpp:117-135 | none exactly when no body is hit; otherwise the index of a body that is hit, with no earlier body hit |
| Flight.CheckCollision | main.cpp:117-135 | the pointer walk returns the first body in chain order that the projectile hits, or null when no body is hit |
| Flight.CheckSides | main.cpp:274-288 | false exactly when `1 < x < cols-2` and `2 < y < lines-3` |
| Flight.Step | main.cpp:298-300 | one frame never changes the missile's mass |
| Flight.Fly | main.cpp:293-311 | the flight on values: frames in the order force, velocity, move, collision test, bounds test, ending at the first frame where a test fires. It carries no contract; `FlightEndsAtHitOrEdge` and `FlightFuelIrrelevant` state how it ends, and `FireProj` is proved to follow it |
| Flight.Advance | main.cpp:298-300 | `getforce`, `setvelocity` and `movebody` on the heap missile give the frame `Step` computes. The missile's size and link and every chain body are unchanged |
| Flight.FireProj | main.cpp:293-311 | the heap loop ends with the missile state and the result of `Fly`; each frame runs force, velocity, move, collision, bounds. The missile's size and link and every chain body are unchanged |
| Flight.HitsIsSqrtTest | main.cpp:120-128 | the squared test is the source's `sqrt(xdiff^2 + ydiff^2) < size/2` |
| Flight.HitAtCentre | main.cpp:120-128 | a projectile at the centre of a body of size at least 2 hits it |
| Flight.MissAtRadius | main.cpp:125-128 | at corrected distance exactly `size/2` there is no hit, because the test is strict |
| Flight.SizeFiveRadius | main.cpp:120-128 | a size-5 body has radius 2: it reaches one line and three columns from its centre, and no further |
| Flight.EarlierBodyWins | main.cpp:119-132 | when two bodies are hit, the result is no later than the earlier one |
| Flight.FlightEndsAtHitOrEdge | main.cpp:293-311 | a flight ends with the collision result at its last position, and only on a hit or on the bounds test |
| Flight.FlightFuelIrrelevant | main.cpp:295-309 | a flight that ends within the frame budget ends the same way with any larger budget |
| Arrange.IsClear | main.cpp:256-263 | the candidate is clear exactly when it is apart from every earlier planet |
| Arrange.CandidateX | main.cpp:254 | the candidate column `rand % (colsrange - 2s) + s` lies in the column bounds `[s, ncols-s-1]` |
| Arrange.CandidateY | main.cpp:255 | the candidate line `rand % (linesrange - s) + 3 + s/2` lies in the line bounds `[3 + s/2, nlines-5-s + s/2]` |
| Arrange.DrawPosition | main.cpp:254-255 | the candidate is `CandidateX` and `CandidateY` of the two draws; it lies in bounds and no other entry changes |
| Arrange.FirstClear | main.cpp:253-264 | the `while (!clear)` loop on values accepts a candidate only after two more draws, and never past the draws supplied |
| Arrange.FirstClearSound | main.cpp:253-264 | the accepted candidate is `CandidateX`/`CandidateY` of the last two draws consumed, in bounds and apart from every earlier planet |
| Arrange.FirstClearIsFirst | main.cpp:253-264 | every pair of draws passed over before the accepted one gave a candidate that overlaps an earlier planet |
| Arrange.FirstClearExtend | main.cpp:253-264 | more draws never change an accepted candidate, so the loop fails only by running out of draws |
| Arrange.PlaceOne | main.cpp:252-264 | the heap loop for planet `i` gives `FirstClear`'s candidate and draw count, and fails exactly when `FirstClear` does; only planet `i` moves, in bounds and apart from every earlier planet |
| Arrange.PlaceFrom | main.cpp:251-265 | placing every later planet in turn with `FirstClear` gives one position for each size |
| Arrange.PlaceFromSound | main.cpp:251-265 | the placed planets keep the given prefix, all lie in bounds, every pair is apart, and each later planet consumed at least two draws |
| Arrange.PlaceFromExtend | main.cpp:251-265 | more draws never change a placement that succeeded |
| Arrange.PlaceRest | main.cpp:251-265 | the heap loop gives `PlaceFrom`'s positions and draw count and fails exactly when it does; every planet in bounds and every pair apart; the first planet is kept |
| Arrange.DrawnSizes | main.cpp:240-245 | sizes 9 and 9, then `sizes[rand % 5]` from the first `num - 2` draws, all in the table |
| Arrange.Arrangement | main.cpp:240-265 | the whole set-up on values gives a size and a position for each of the `num` planets |
| Arrange.ArrangementSound | main.cpp:240-265 | the set-up has the drawn sizes, the first planet at `CandidateX`/`CandidateY` of the two draws after them, every planet in bounds, every pair apart, and uses at least `3*num - 2` draws |
| Arrange.MoreDrawsSameSystem | main.cpp:240-265 | more draws never change a set-up that succeeded, so a failure means only that the draws ran out |
| Arrange.ChooseLayout | main.cpp:229-265 | the array code gives `Arrangement`'s sizes, positions and draw count and fails exactly when it does; sizes 9, 9, then `sizes[rand % 5]`; the first position from the draws; every planet in bounds and every pair apart |
| Arrange.PlacePlanets | main.cpp:267-270 | each planet gets the chosen position and size, with mass equal to size, at rest and unlinked |
| Arrange.ArrangePlanets | main.cpp:229-271 | the constructed planets take `Arrangement`'s positions and sizes and it fails exactly when `Arrangement` does; sizes 9, 9 and then table sizes, each in bounds and pairwise apart, with mass equal to size |
| Arrange.LinkChain | main.cpp:52-54 | the loop as written links `planets[0..num-2]` into a chain from `planets[0]`; the last planet is not in it and its link stays null. No position, size, mass, speed or heading changes |
| Arrange.LinkAll | main.cpp:52-54 | the corrected loop `i < num - 1` links every planet into a chain from `planets[0]`. No position, size, mass, speed or heading changes |
| Arrange.ApartIsSqrtTest | main.cpp:258-260 | the squared spacing test is the source's `!(sqrt(...) < mindist)` |
| Arrange.ApartCentresMiss | main.cpp:257-262 | for two size-9 planets that are apart, a projectile at the centre of one does not hit the other |
| Arrange.LastPlanetNeverHit | main.cpp:52-54 | with the chain as written, no collision test ever returns the last planet |
| Arrange.TargetHitWhenAllLinked | main.cpp:96 | with every planet linked, a projectile at the centre of `planets[1]` hits `planets[1]` |
| Round.Slot | main.cpp:97 | `score[player]` indexes slot 1 exactly for player 2 |
| Round.Launch | main.cpp:93-94 | the launched missile has mass 3, speed `v1` and heading `vtheta*PI/180` |
| Round.PlayTurn | main.cpp:90-101 | on the fire code the missile from the player's planet is flown as `Fly` says. The shooter scores exactly when it ends on the opponent's planet, and the turn passes when it ends. Any other code changes nothing |
| Round.OnlyShooterScores | main.cpp:96-98 | the other player's score never changes; the shooter's rises by one exactly on a hit |
| Round.HitTargetMeansFirstHit | main.cpp:95-96 | a flight ends on the target exactly when the target is the first body hit at the final position |
| Round.LastPlanetNeverScored | main.cpp:52-54 | with the chain as written, no flight ends on the last planet, so in a two-planet game player 1 never scores |
| Itoa.ReversedIndex | main.cpp:333-341 | position `i` of the reversal holds position `n-1-i` |
| Itoa.Reverse | main.cpp:333-341 | the first `length` characters are reversed in place and the rest untouched; a length of zero or less changes nothing |
| Itoa.Quot | main.cpp:364 | C's `num / base` truncates toward zero: it keeps the sign of `num` and has a smaller magnitude |
| Itoa.Rem | main.cpp:362 | C's `num % base` has the sign of `num` and a magnitude below `base` |
| Itoa.QuotRem | main.cpp:362-364 | quotient times base plus remainder is the number; on non-negative numbers they are the Euclidean ones |
| Itoa.PutDigits | main.cpp:361-365 | the loop writes the digits least significant first at the start of the buffer and nothing else |
| Itoa.Terminate | main.cpp:366-370 | a `-` for a negative decimal number, then the NUL, right after the digits |
| Itoa.Itoa | main.cpp:344-375 | the buffer starts with the text of `num` and a NUL, the rest is untouched, and the buffer is returned |
| Itoa.DigitChar | main.cpp:363 | the character for a remainder: `'0'..'9'` below 10 and `'a'..'z'` from 10 on, and `DigitValue` reads each back to its remainder |
| Itoa.LowDigits | main.cpp:361-365 | what the loop writes, least significant digit first; nothing exactly for 0 |
| Itoa.ItoaText | main.cpp:344-375 | the text `itoa` writes, as written. It carries no contract; `ItoaSign`, `NoLeadingZero`, `ItoaRoundTrip` and `NegativeHexAsWritten` state what it is |
| Itoa.ItoaTextIntended | main.cpp:354-355 | the conversion the comment describes: a negative number in a base other than 10 is written as its unsigned 32-bit value. It carries no contract; `IntendedReadsBackUnsigned` states that it reads back modulo 2^32 |
| Itoa.DigitsInBase | main.cpp:363 | for a non-negative number every character written is a digit of the base, with `'a'..` for values above 9 |
| Itoa.DigitsRoundTrip | main.cpp:361-373 | the reversed digits read back, most significant first, to the number |
| Itoa.DigitsMostSignificantFirst | main.cpp:361-373 | the text of `n` is the text of `n / base` followed by the digit of `n % base` |
| Itoa.LastWrittenNotZero | main.cpp:361-365 | the last digit written for a non-zero number is not `'0'` |
| Itoa.NoLeadingZero | main.cpp:361-373 | the text of a non-zero number has no leading zero |
| Itoa.ItoaSign | main.cpp:356-368 | a negative decimal number is `-` followed by the digits of its absolute value |
| Itoa.PositiveRoundTrip | main.cpp:361-373 | the text of a positive number reads back to it |
| Itoa.NegativeRoundTrip | main.cpp:356-373 | the text of a negative decimal number reads back to it |
| Itoa.ItoaRoundTrip | main.cpp:344-375 | reading the text back gives the number, for every decimal number and every non-negative number in any base |
| Itoa.ScoreFitsBuffer | main.cpp:315-321 | a score from 0 to 9999 fits with its NUL in the five-character buffer of `printscore` |
| Itoa.NegativeHexAsWritten | main.cpp:354-364 | as written, -1 in base 16 becomes `"/"` |
| Itoa.IntendedReadsBackUnsigned | main.cpp:354-355 | the conversion the comment describes reads back, in a base other than 10, to the number modulo 2^32 |
| Itoa.Unsigned | main.cpp:354-355 | the unsigned value of an `int`'s 32-bit pattern is the number modulo 2^32 |

## Left out

- Drawing and I/O: the ncurses set-up, `setupinterface`, `printbody`/`erasebody` and their glyph tables, the screen half of `printscore`, and the missile marker.
- `inputparam`: the keystrokes become the control code and the two launch values passed to `PlayTurn`: the speed `v1` and the launch angle `vtheta` in degrees. The text-to-number conversion `atof` is not modelled.
- `wait`: a busy loop on the clock that only paces the animation.
- `main`'s outer loop: the `'n'` code (erase, re-arrange, re-link) is covered only by `ArrangePlanets` and `LinkChain`, which run in that order. Quitting is not modelled.
- Floating point: doubles are real numbers. `sin`, `cos`, `atan` and `sqrt` are parameters with a few stated laws, and `atan` of an infinite ratio is a parameter too. No trajectory shape is proved, and neither is a bound on flight length.
- Flight.Fly: the source flight may never end; here it has a frame budget, and `OutOfFuel` marks a budget that ran out.
- Bodies.Body.SetVelocity: requires a non-zero new velocity, because the source's heading is then `atan(0/0)`. `Fly` reports that frame as `Undefined`.
- Flight.Step: its own contract states only that the mass is kept; what a frame computes is tied to the heap by `Advance` and `FireProj`.
- Round.PlayTurn: on `OutOfFuel` or `Undefined` the turn does not pass and nothing is scored, because the source would still be flying. The unused `player` argument of `fireproj` is dropped.
- Arrange.ChooseLayout: requires at least 19 columns and 17 lines, where every modulus of the source is positive. It reports failure when the draws run out, because the source draws for ever; `MoreDrawsSameSystem` shows that this is the only way it fails.
- Randomness: `srand`, `time` and `rand` become the sequence of draws.
- Memory: `new`/`delete` of the missile, and the variable-length arrays `planets`, `s`, `x`, `y`. The planets are an array of objects, and the sizes and positions are sequences. `Missile`'s uninitialised `size` is not given a value.
- Integer width: `int` is unbounded except inside `itoa`, whose inputs are C `int`s.
- Itoa.Itoa: requires a base from 2 to 36, a buffer longer than the text, and not the least `int` in base 10. The source writes past a short buffer and overflows on `-INT_MIN`.
- The number of planets, `area / 700`, is a parameter; `ChooseLayout` requires at least two.

## Findings

| source | as written | input that shows it | evidently intended | confidence | as-written member | corrected member |
|---|---|---|---|---|---|---|
| main.cpp:52-54 | the link loop runs `i < num - 2`, so `planets[num-1]` is never linked into the chain used by physics and collision | `num == 2` (an 80x24 terminal): only `planets[0]` is in the chain, so player 1's target `planets[1]` can never be hit | link every planet: `i < num - 1` | not executed | Arrange.LinkChain, Arrange.LastPlanetNeverHit, Round.LastPlanetNeverScored | Arrange.LinkAll, Arrange.TargetHitWhenAllLinked |
| main.cpp:354-364 | a negative number in a base other than 10 goes through the loop with C's signed `%`, so its digits fall below `'0'` | `itoa(-1, buf, 16)` writes `"/"` | the value of the same 32-bit pattern taken as unsigned, `"ffffffff"` | not executed | Itoa.ItoaText, Itoa.NegativeHexAsWritten | Itoa.ItoaTextIntended, Itoa.IntendedReadsBackUnsigned |
