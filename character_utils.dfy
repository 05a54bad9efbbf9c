/**
 * Placement and legality predicates over the line of characters, and the
 * placement of the three characters at the start of a run
 * (src/utils/characterUtils.ts).
 */
module CharacterUtils {
  import opened Theater

  const CharacterTypes: seq<CharacterType> := [YoungWoman, BoyGlasses, BoyAfro]
  const Colors: seq<string> := ["#ff6b9d", "#4ecdc4", "#45b7d1"]

  // ---------------------------------------------------------------------------
  // Initial placement
  // ---------------------------------------------------------------------------

  /** JavaScript's Math.round: the nearest integer, halves rounded upwards. */
  function MathRound(x: real): (n: int)
    ensures n as real - 0.5 <= x < n as real + 0.5
  {
    (x + 0.5).Floor
  }

  /** Rounding the quarter, half and three-quarter points is exact integer division. */
  lemma RoundedPoints(lineLength: int)
    ensures MathRound(lineLength as real / 4.0) == (lineLength + 2) / 4
    ensures MathRound(lineLength as real / 2.0) == (lineLength + 1) / 2
    ensures MathRound((3 * lineLength) as real / 4.0) == (3 * lineLength + 2) / 4
  {
  }

  /** The unadjusted spots: the rounded quarter, half and three-quarter points. */
  function SpacedPositions(lineLength: int): (positions: seq<int>)
    ensures positions == [(lineLength + 2) / 4, (lineLength + 1) / 2, (3 * lineLength + 2) / 4]
  {
    RoundedPoints(lineLength);
    [MathRound(lineLength as real / 4.0),
     MathRound(lineLength as real / 2.0),
     MathRound((3 * lineLength) as real / 4.0)]
  }

  function Clamp(lineLength: int, pos: int): int
  {
    if lineLength - 1 < pos then (if lineLength - 1 < 0 then 0 else lineLength - 1)
    else if pos < 0 then 0 else pos
  }

  /** Steps a candidate cell forward while it is taken and not yet the last cell. */
  function Bump(taken: seq<int>, pos: int, lineLength: int): int
    decreases lineLength - pos
  {
    if pos in taken && pos < lineLength - 1 then Bump(taken, pos + 1, lineLength) else pos
  }

  /** The bumped cell is the first cell from `pos` on that is free, or the last cell. */
  lemma {:induction false} BumpIsFirstFree(taken: seq<int>, pos: int, lineLength: int)
    ensures pos <= Bump(taken, pos, lineLength)
    ensures pos < lineLength - 1 ==> Bump(taken, pos, lineLength) <= lineLength - 1
    ensures pos >= lineLength - 1 ==> Bump(taken, pos, lineLength) == pos
    ensures Bump(taken, pos, lineLength) in taken ==> Bump(taken, pos, lineLength) >= lineLength - 1
    ensures forall w :: pos <= w < Bump(taken, pos, lineLength) ==> w in taken
    decreases lineLength - pos
  {
    if pos in taken && pos < lineLength - 1 {
      BumpIsFirstFree(taken, pos + 1, lineLength);
    }
  }

  /**
   * The cell of character `index`: its spot clamped to the line, then bumped
   * past the unadjusted spots of the characters before it.
   */
  function SettledPosition(positions: seq<int>, index: nat, lineLength: int): int
    requires index < |positions|
  {
    Bump(positions[..index], Clamp(lineLength, positions[index]), lineLength)
  }

  /** The clamp-and-bump of one spot, as a loop. */
  method SettlePosition(positions: seq<int>, index: nat, lineLength: int) returns (validPos: int)
    requires index < |positions|
    ensures validPos == SettledPosition(positions, index, lineLength)
    ensures lineLength >= 1 ==> 0 <= validPos < lineLength
    ensures Clamp(lineLength, positions[index]) <= validPos
    ensures validPos in positions[..index] ==> validPos == Clamp(lineLength, lineLength - 1)
    ensures forall w :: Clamp(lineLength, positions[index]) <= w < validPos ==> w in positions[..index]
  {
    var taken := positions[..index];
    var start := Clamp(lineLength, positions[index]);
    validPos := start;
    while validPos in taken && validPos < lineLength - 1
      invariant start <= validPos
      invariant Bump(taken, validPos, lineLength) == Bump(taken, start, lineLength)
      decreases lineLength - validPos
    {
      validPos := validPos + 1;
    }
    BumpIsFirstFree(taken, start, lineLength);
  }

  /** Draws one of the four body orientations from a random number in [0, 1). */
  function OrientationFromRandom(r: real): (d: BodyOrientation)
    requires 0.0 <= r < 1.0
    ensures (d / 90) as real <= 4.0 * r < (d / 90 + 1) as real
  {
    var k := (r * 4.0).Floor;
    BodyOrientations[k]
  }

  /** Every orientation is drawn, on its own quarter of [0, 1). */
  lemma EveryOrientationDrawn(k: nat)
    requires k < 4
    ensures OrientationFromRandom(k as real / 4.0) == 90 * k
  {
  }

  /** Three numbers from Math.random, one per character in order. */
  predicate RandomDraws(random: seq<real>)
  {
    |random| == 3 && forall i :: 0 <= i < 3 ==> 0.0 <= random[i] < 1.0
  }

  function DigitChar(d: nat): char
    requires d < 10
  {
    "0123456789"[d]
  }

  /** Decimal notation of a natural number, as in a template literal. */
  function NatToString(n: nat): string
  {
    if n < 10 then [DigitChar(n)] else NatToString(n / 10) + [DigitChar(n % 10)]
  }

  function CharacterId(index: nat): string
  {
    "character_" + NatToString(index)
  }

  function InitialCharacter(index: nat, position: int, r: real): Character
    requires index < 3 && 0.0 <= r < 1.0
  {
    Character(
      id := CharacterId(index),
      kind := CharacterTypes[index],
      position := position,
      bodyOrientation := OrientationFromRandom(r),
      headOrientation := 0,
      animationState := AnimationState.Idle,
      animationProgress := 1.0,
      color := Colors[index])
  }

  /** The characters a run starts with. */
  function InitialCharacters(lineLength: int, random: seq<real>): (cs: seq<Character>)
    requires RandomDraws(random)
    ensures |cs| == 3
    ensures cs[0].kind == YoungWoman && cs[1].kind == BoyGlasses && cs[2].kind == BoyAfro
    ensures cs[0].id == "character_0" && cs[1].id == "character_1" && cs[2].id == "character_2"
    ensures forall i :: 0 <= i < 3 ==>
      && cs[i].headOrientation == 0
      && cs[i].animationState == AnimationState.Idle
      && cs[i].animationProgress == 1.0
      && cs[i].bodyOrientation == OrientationFromRandom(random[i])
  {
    var positions := SpacedPositions(lineLength);
    seq(3, i requires 0 <= i < 3 =>
      InitialCharacter(i, SettledPosition(positions, i, lineLength), random[i]))
  }

  /** Places the three characters, settling each spot with its own loop. */
  method InitializeCharacters(lineLength: int, random: seq<real>) returns (cs: seq<Character>)
    requires RandomDraws(random)
    ensures cs == InitialCharacters(lineLength, random)
  {
    var positions := SpacedPositions(lineLength);
    var validPositions: seq<int> := [];
    for index := 0 to 3
      invariant |validPositions| == index
      invariant forall k :: 0 <= k < index ==>
        validPositions[k] == SettledPosition(positions, k, lineLength)
    {
      var validPos := SettlePosition(positions, index, lineLength);
      validPositions := validPositions + [validPos];
    }
    cs := seq(3, i requires 0 <= i < 3 =>
      InitialCharacter(i, validPositions[i], random[i]));
  }

  /** Every character stands on the line and no two share a cell or an id. */
  ghost predicate WellPlaced(cs: seq<Character>, lineLength: int)
  {
    && (forall i :: 0 <= i < |cs| ==> 0 <= cs[i].position < lineLength)
    && (forall i, j :: 0 <= i < j < |cs| ==> cs[i].position != cs[j].position)
    && (forall i, j :: 0 <= i < j < |cs| ==> cs[i].id != cs[j].id)
  }

  /** On a line of at least one cell every initial position lies on the line. */
  lemma InitialPositionsInBounds(lineLength: int, random: seq<real>)
    requires RandomDraws(random)
    requires lineLength >= 1
    ensures forall i :: 0 <= i < 3 ==> 0 <= InitialCharacters(lineLength, random)[i].position < lineLength
  {
  }

  /**
   * From four cells on (the configuration form enforces five), the spots
   * need no adjustment and the characters are well placed.
   */
  lemma InitialCharactersWellPlaced(lineLength: int, random: seq<real>)
    requires RandomDraws(random)
    requires lineLength >= 4
    ensures WellPlaced(InitialCharacters(lineLength, random), lineLength)
    ensures InitialCharacters(lineLength, random)[0].position == (lineLength + 2) / 4
    ensures InitialCharacters(lineLength, random)[1].position == (lineLength + 1) / 2
    ensures InitialCharacters(lineLength, random)[2].position == (3 * lineLength + 2) / 4
  {
  }

  /** On three cells the last two characters land on the same cell. */
  lemma InitialPositionsCollideOnThreeCells(random: seq<real>)
    requires RandomDraws(random)
    ensures InitialCharacters(3, random)[1].position == InitialCharacters(3, random)[2].position == 2
  {
  }

  // ---------------------------------------------------------------------------
  // Queries over the line
  // ---------------------------------------------------------------------------

  /** The first character standing at `position`, if any. */
  function CharacterAt(cs: seq<Character>, position: int): (r: Option<Character>)
    ensures r.Some? <==> exists i :: 0 <= i < |cs| && cs[i].position == position
    ensures r.Some? ==> exists i :: 0 <= i < |cs| && cs[i] == r.value && FirstAt(cs, i, position)
  {
    if cs == [] then None
    else if cs[0].position == position then
      assert FirstAt(cs, 0, position);
      Some(cs[0])
    else
      var r := CharacterAt(cs[1..], position);
      assert forall i :: 0 <= i < |cs[1..]| && FirstAt(cs[1..], i, position) ==> FirstAt(cs, i + 1, position);
      assert forall i :: 0 <= i < |cs[1..]| ==> cs[1..][i] == cs[i + 1];
      r
  }

  /** Index `i` holds the first character of `cs` standing at `position`. */
  ghost predicate FirstAt(cs: seq<Character>, i: nat, position: int)
    requires i < |cs|
  {
    cs[i].position == position && forall j :: 0 <= j < i ==> cs[j].position != position
  }

  /** Whether some character stands at `position`. */
  function IsPositionOccupied(cs: seq<Character>, position: int): (occupied: bool)
    ensures occupied <==> exists i :: 0 <= i < |cs| && cs[i].position == position
  {
    if cs == [] then false
    else cs[0].position == position || IsPositionOccupied(cs[1..], position)
  }

  /** A cell is occupied exactly when looking it up finds a character. */
  lemma OccupiedIffFound(cs: seq<Character>, position: int)
    ensures IsPositionOccupied(cs, position) <==> CharacterAt(cs, position).Some?
    ensures CharacterAt(cs, position).Some? ==> CharacterAt(cs, position).value.position == position
  {
  }

  /** `c` is another character standing right next to `subject`. */
  predicate IsAdjacentTo(c: Character, subject: Character)
  {
    c.id != subject.id && (c.position == subject.position - 1 || c.position == subject.position + 1)
  }

  /** The characters next to `subject`, in their original order. */
  function AdjacentCharacters(cs: seq<Character>, subject: Character): (r: seq<Character>)
    ensures |r| <= |cs|
    ensures forall c :: c in r <==> c in cs && IsAdjacentTo(c, subject)
  {
    if cs == [] then []
    else
      var rest := AdjacentCharacters(cs[1..], subject);
      assert forall c :: c in cs <==> c == cs[0] || c in cs[1..];
      (if IsAdjacentTo(cs[0], subject) then [cs[0]] else []) + rest
  }

  /** Filtering keeps order: it distributes over concatenation. */
  lemma {:induction false} AdjacentCharactersAppend(a: seq<Character>, b: seq<Character>, subject: Character)
    ensures AdjacentCharacters(a + b, subject) == AdjacentCharacters(a, subject) + AdjacentCharacters(b, subject)
  {
    if a == [] {
      assert a + b == b;
    } else {
      assert (a + b)[1..] == a[1..] + b;
      AdjacentCharactersAppend(a[1..], b, subject);
    }
  }

  /** A single character is kept exactly when it is adjacent. */
  lemma AdjacentCharactersSingle(c: Character, subject: Character)
    ensures AdjacentCharacters([c], subject) == if IsAdjacentTo(c, subject) then [c] else []
  {
  }

  /** The cell a character facing along the line would step into. */
  function ForwardTarget(c: Character): int
    requires c.bodyOrientation == 90 || c.bodyOrientation == 270
  {
    if c.bodyOrientation == 90 then c.position + 1 else c.position - 1
  }

  /**
   * A character may step forward when it faces along the line with its head
   * forward and the cell ahead is on the line and free.
   */
  function CanMoveForward(c: Character, cs: seq<Character>, lineLength: int): (ok: bool)
    ensures c.bodyOrientation == 0 || c.bodyOrientation == 180 ==> !ok
    ensures c.headOrientation != 0 ==> !ok
    ensures ok <==>
      && (c.bodyOrientation == 90 || c.bodyOrientation == 270)
      && c.headOrientation == 0
      && 0 <= ForwardTarget(c) < lineLength
      && forall i :: 0 <= i < |cs| ==> cs[i].position != ForwardTarget(c)
  {
    if c.bodyOrientation != 90 && c.bodyOrientation != 270 then false
    else if c.headOrientation != 0 then false
    else
      var targetPosition := if c.bodyOrientation == 90 then c.position + 1 else c.position - 1;
      if targetPosition < 0 || targetPosition >= lineLength then false
      else !IsPositionOccupied(cs, targetPosition)
  }

  /** A character at 3 facing 90 is blocked by one at 4 and free without it. */
  lemma CanMoveForwardBlocker(a: Character, b: Character, lineLength: int)
    requires a.position == 3 && a.bodyOrientation == 90 && a.headOrientation == 0
    requires b.position == 4 && lineLength >= 5
    ensures !CanMoveForward(a, [a, b], lineLength)
    ensures CanMoveForward(a, [a], lineLength)
    ensures ForwardTarget(a) == 4
  {
    assert [a, b][1].position == 4;
  }

  /** `c` and `other` stand on opposite sides of each other and face each other. */
  predicate Faces(c: Character, other: Character)
  {
    if c.position < other.position then c.bodyOrientation == 90 && other.bodyOrientation == 270
    else if c.position > other.position then c.bodyOrientation == 270 && other.bodyOrientation == 90
    else false
  }

  /** Whether `c` faces some character of `others`. */
  function FacesAny(c: Character, others: seq<Character>): (b: bool)
    ensures b <==> exists i :: 0 <= i < |others| && Faces(c, others[i])
  {
    if others == [] then false
    else Faces(c, others[0]) || FacesAny(c, others[1..])
  }

  /** `other` is the next character on the side `c` faces, and faces back. */
  predicate FacingNeighbour(c: Character, other: Character)
  {
    || (other.position == c.position + 1 && c.bodyOrientation == 90 && other.bodyOrientation == 270)
    || (other.position == c.position - 1 && c.bodyOrientation == 270 && other.bodyOrientation == 90)
  }

  /**
   * A character may start an interaction when its head is forward and an
   * adjacent character faces it.
   */
  function CanInitiateInteraction(c: Character, cs: seq<Character>): (ok: bool)
    ensures c.headOrientation != 0 ==> !ok
    ensures ok <==>
      c.headOrientation == 0 && exists i :: 0 <= i < |cs| && cs[i].id != c.id && FacingNeighbour(c, cs[i])
  {
    if c.headOrientation != 0 then false
    else
      var adjacent := AdjacentCharacters(cs, c);
      FacingNeighbourAmongAdjacent(c, cs);
      FacesAny(c, adjacent)
  }

  lemma FacingNeighbourAmongAdjacent(c: Character, cs: seq<Character>)
    ensures FacesAny(c, AdjacentCharacters(cs, c)) <==>
      exists i :: 0 <= i < |cs| && cs[i].id != c.id && FacingNeighbour(c, cs[i])
  {
    var adjacent := AdjacentCharacters(cs, c);
    if FacesAny(c, adjacent) {
      var k :| 0 <= k < |adjacent| && Faces(c, adjacent[k]);
      assert adjacent[k] in adjacent;
      var i :| 0 <= i < |cs| && cs[i] == adjacent[k];
      assert cs[i].id != c.id && FacingNeighbour(c, cs[i]);
    }
    if exists i :: 0 <= i < |cs| && cs[i].id != c.id && FacingNeighbour(c, cs[i]) {
      var i :| 0 <= i < |cs| && cs[i].id != c.id && FacingNeighbour(c, cs[i]);
      assert cs[i] in cs && IsAdjacentTo(cs[i], c);
      assert cs[i] in adjacent;
      var k :| 0 <= k < |adjacent| && adjacent[k] == cs[i];
      assert Faces(c, adjacent[k]);
    }
  }

  /** Facing each other is symmetric. */
  lemma FacingNeighbourSymmetric(a: Character, b: Character)
    ensures FacingNeighbour(a, b) <==> FacingNeighbour(b, a)
  {
  }

  /** Two head-forward, distinct characters facing each other may both initiate. */
  lemma FacingPairBothInitiate(a: Character, b: Character, cs: seq<Character>)
    requires a in cs && b in cs
    requires a.id != b.id
    requires a.headOrientation == 0 && b.headOrientation == 0
    requires FacingNeighbour(a, b)
    ensures CanInitiateInteraction(a, cs) && CanInitiateInteraction(b, cs)
  {
  }

  /**
   * At 2 facing 90 and at 3 facing 270 both may initiate; turning the second
   * to face 90 makes both refuse.
   */
  lemma InteractionExample(a: Character, b: Character)
    requires a.id != b.id && a.headOrientation == 0 && b.headOrientation == 0
    requires a.position == 2 && a.bodyOrientation == 90
    requires b.position == 3 && b.bodyOrientation == 270
    ensures CanInitiateInteraction(a, [a, b]) && CanInitiateInteraction(b, [a, b])
    ensures var b' := b.(bodyOrientation := 90);
      !CanInitiateInteraction(a, [a, b']) && !CanInitiateInteraction(b', [a, b'])
  {
  }
}
