/**
 * The data model of the theater: the character record, its orientation and
 * animation types, the simulation configuration, and the closed unions of
 * actions and interaction outcomes (src/types/theater.ts).
 */
module Theater {

  /** The value `find(...) || null` returns: a character or nothing. */
  datatype Option<T> = None | Some(value: T)

  /** `lineLength` cells on the line; `actionInterval` in milliseconds. */
  datatype SimulationConfig = SimulationConfig(lineLength: int, actionInterval: real)

  datatype SimulationState = Configuration | Running | Paused

  datatype CharacterType = YoungWoman | BoyGlasses | BoyAfro

  /** Body facing in degrees: 90 faces increasing positions, 270 decreasing ones. */
  type BodyOrientation = d: int | d == 0 || d == 90 || d == 180 || d == 270

  /** Head facing in degrees, relative to the body. */
  type HeadOrientation = h: int | h == -90 || h == 0 || h == 90

  /** Animation progress: 1 means settled and ready for a new action. */
  type Progress = p: real | 0.0 <= p <= 1.0

  datatype ActionType =
    | MoveForward
    | TurnBodyLeft
    | TurnBodyRight
    | TurnHeadLeft
    | TurnHeadRight
    | InitiateInteraction
    | Idle

  datatype AnimationState =
    | Idle
    | Walking
    | TurningBody
    | TurningHead
    | InteractingEmbrace
    | InteractingAttempt

  datatype Character = Character(
    id: string,
    kind: CharacterType,
    position: int,
    bodyOrientation: BodyOrientation,
    headOrientation: HeadOrientation,
    animationState: AnimationState,
    animationProgress: Progress,
    color: string)

  datatype InteractionType = MutualEmbrace | UnilateralAttempt | NoInteraction

  /** An interaction outcome and the ids of the characters involved. */
  datatype InteractionResult = InteractionResult(kind: InteractionType, characters: seq<string>)

  const BodyOrientations: seq<BodyOrientation> := [0, 90, 180, 270]
  const HeadOrientations: seq<HeadOrientation> := [-90, 0, 90]

  const AllActionTypes: seq<ActionType> :=
    [MoveForward, TurnBodyLeft, TurnBodyRight, TurnHeadLeft, TurnHeadRight,
     InitiateInteraction, ActionType.Idle]

  const AllAnimationStates: seq<AnimationState> :=
    [AnimationState.Idle, Walking, TurningBody, TurningHead, InteractingEmbrace, InteractingAttempt]

  /** Every body orientation is one of the four listed values, at a unique index. */
  function BodyOrientationIndex(d: BodyOrientation): (i: nat)
    ensures i < |BodyOrientations| == 4
    ensures BodyOrientations[i] == d
    ensures forall j :: 0 <= j < |BodyOrientations| && BodyOrientations[j] == d ==> j == i
  {
    d / 90
  }

  /** Every head orientation is one of the three listed values, at a unique index. */
  function HeadOrientationIndex(h: HeadOrientation): (i: nat)
    ensures i < |HeadOrientations| == 3
    ensures HeadOrientations[i] == h
    ensures forall j :: 0 <= j < |HeadOrientations| && HeadOrientations[j] == h ==> j == i
  {
    (h + 90) / 90
  }

  /** The action union is closed: exactly seven members, each at its own index. */
  function ActionTypeIndex(a: ActionType): (i: nat)
    ensures i < |AllActionTypes| == 7
    ensures AllActionTypes[i] == a
    ensures forall j :: 0 <= j < |AllActionTypes| && AllActionTypes[j] == a ==> j == i
  {
    match a
    case MoveForward => 0
    case TurnBodyLeft => 1
    case TurnBodyRight => 2
    case TurnHeadLeft => 3
    case TurnHeadRight => 4
    case InitiateInteraction => 5
    case Idle => 6
  }

  /** The animation-state union is closed: exactly six members, each at its own index. */
  function AnimationStateIndex(s: AnimationState): (i: nat)
    ensures i < |AllAnimationStates| == 6
    ensures AllAnimationStates[i] == s
    ensures forall j :: 0 <= j < |AllAnimationStates| && AllAnimationStates[j] == s ==> j == i
  {
    match s
    case Idle => 0
    case Walking => 1
    case TurningBody => 2
    case TurningHead => 3
    case InteractingEmbrace => 4
    case InteractingAttempt => 5
  }
}
