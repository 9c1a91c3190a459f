/**
 The backend's pickup state machine: the transition table that every courier and
 merchant pickup command goes through, one version per transition.
 */
module PickupEngine {
  import opened Options

  datatype PickupState = CourierAssigned | Travelling | Arrived | Waiting | EndedBeforeCustody

  datatype PickupAction =
    | StartTravel
    | MarkArrived
    | AcknowledgeArrival
    | CorrectArrival
    | CorrectWaiting
    | EndAttempt

  /** The state an action leads to, or nothing when the engine raises a conflict. */
  function TargetState(state: PickupState, action: PickupAction): Option<PickupState> {
    match (state, action)
    case (EndedBeforeCustody, _) => None
    case (_, EndAttempt) => Some(EndedBeforeCustody)
    case (CourierAssigned, StartTravel) => Some(Travelling)
    case (Travelling, MarkArrived) => Some(Arrived)
    case (Arrived, AcknowledgeArrival) => Some(Waiting)
    case (Arrived, CorrectArrival) => Some(Travelling)
    case (Waiting, CorrectWaiting) => Some(Arrived)
    case _ => None
  }

  datatype Versioned = Versioned(state: PickupState, version: int)

  /** One command against a pickup: a conflict changes nothing, a transition adds one to the version. */
  function Advance(p: Versioned, action: PickupAction): Versioned {
    match TargetState(p.state, action)
    case None => p
    case Some(target) => Versioned(target, p.version + 1)
  }

  function Run(p: Versioned, actions: seq<PickupAction>): Versioned
    decreases |actions|
  {
    if actions == [] then p else Run(Advance(p, actions[0]), actions[1..])
  }

  /** The actions that actually moved the pickup, each with the version it was applied at. */
  function Applied(p: Versioned, actions: seq<PickupAction>): seq<(PickupAction, int)>
    decreases |actions|
  {
    if actions == [] then []
    else
      var rest := Applied(Advance(p, actions[0]), actions[1..]);
      if TargetState(p.state, actions[0]).Some? then [(actions[0], p.version)] + rest else rest
  }

  /** The version counts the applied actions, so equal versions mean that nothing has happened. */
  lemma {:induction false} VersionCountsApplied(p: Versioned, actions: seq<PickupAction>)
    ensures Run(p, actions).version == p.version + |Applied(p, actions)|
    ensures Applied(p, actions) == [] ==> Run(p, actions) == p
    decreases |actions|
  {
    if actions != [] {
      VersionCountsApplied(Advance(p, actions[0]), actions[1..]);
    }
  }

  // ----- the lifecycle as a height

  /** How far a pickup has got, while its attempt has not ended. */
  function Level(state: PickupState): int {
    match state
    case CourierAssigned => 0
    case Travelling => 1
    case Arrived => 2
    case Waiting => 3
    case EndedBeforeCustody => -1
  }

  /** Where an action may be taken, and how it moves the level. */
  function From(action: PickupAction): int {
    match action
    case StartTravel => 0
    case MarkArrived => 1
    case AcknowledgeArrival => 2
    case CorrectArrival => 2
    case CorrectWaiting => 3
    case EndAttempt => 0
  }

  function Rise(action: PickupAction): int {
    if action == StartTravel || action == MarkArrived || action == AcknowledgeArrival then 1 else -1
  }

  /** Three actions rise one level, the two corrections undo the last two rises, and any open attempt can end. */
  lemma ActionsMoveOneLevel(state: PickupState, action: PickupAction)
    ensures TargetState(state, action).Some? <==>
              state != EndedBeforeCustody && (action == EndAttempt || Level(state) == From(action))
    ensures TargetState(state, action).Some? ==>
              if action == EndAttempt then TargetState(state, action).value == EndedBeforeCustody
              else Level(TargetState(state, action).value) == Level(state) + Rise(action) >= 0
  {
  }

  /** Rises less corrections. */
  function Net(applied: seq<(PickupAction, int)>): int {
    if applied == [] then 0 else Rise(applied[0].0) + Net(applied[1..])
  }

  /** Over every run that does not end the attempt, the level is the rises less the corrections. */
  lemma {:induction false} LevelIsNet(p: Versioned, actions: seq<PickupAction>)
    requires p.state != EndedBeforeCustody && Run(p, actions).state != EndedBeforeCustody
    ensures Level(Run(p, actions).state) == Level(p.state) + Net(Applied(p, actions))
    decreases |actions|
  {
    if actions != [] {
      ActionsMoveOneLevel(p.state, actions[0]);
      var next := Advance(p, actions[0]);
      if next.state == EndedBeforeCustody {
        StaysEnded(next, actions[1..]);
      } else {
        LevelIsNet(next, actions[1..]);
        var rest := Applied(next, actions[1..]);
        assert ([(actions[0], p.version)] + rest)[1..] == rest;
      }
    }
  }

  lemma {:induction false} StaysEnded(p: Versioned, actions: seq<PickupAction>)
    requires p.state == EndedBeforeCustody
    ensures Run(p, actions) == p
    decreases |actions|
  {
    if actions != [] {
      StaysEnded(p, actions[1..]);
    }
  }
}
