/** The event catalog of `core/event.py`: every event carries the number,
  * description, priority and ballistic flag of its definition tuple, and
  * `from_str` maps a case-insensitive name to the event. A lower priority
  * number is more urgent. */
module Events {
  import opened Wrappers
  import Util

  datatype Event =
    | Noop | BatteryLow | Shutdown | HighTemperature | CollisionDetect
    | EmergencyAstern | Gamepad | Stop | Halt | Brake
    | Button | Standby | BumperPort | BumperCntr | BumperStbd
    | InfraredPortSide | InfraredPort | InfraredCntr | InfraredStbd | InfraredStbdSide
    | FullAhead | HalfAhead | SlowAhead | DeadSlowAhead | Ahead
    | Astern | DeadSlowAstern | SlowAstern | HalfAstern | FullAstern
    | IncreaseSpeed | Even | DecreaseSpeed | TurnAheadPort | TurnToPort
    | TurnAsternPort | SpinPort | SpinStbd | TurnAsternStbd | TurnToStbd
    | TurnAheadStbd | Roam | Sniff | Video | EventL2
    | EventR1 | Lights | MotionDetect | ForwardVelocity | Theta
    | PortVelocity | PortTheta | StbdVelocity | StbdTheta | NoAction
    | ClockTick | ClockTock

  /** The numeric part of an event's definition tuple: its number, its
    * priority and whether it is ballistic. */
  datatype Definition = Definition(number: nat, priority: nat, ballistic: bool)

  function Define(e: Event): Definition {
    match e
    case Noop             => Definition(  0, 1000, false)
    case BatteryLow       => Definition( 10,    1, true)
    case Shutdown         => Definition( 11,    1, true)
    case HighTemperature  => Definition( 12,    1, false)
    case CollisionDetect  => Definition( 13,    2, false)
    case EmergencyAstern  => Definition( 14,    2, true)
    case Gamepad          => Definition( 20,   10, false)
    case Stop             => Definition( 54,   12, true)
    case Halt             => Definition( 55,   13, false)
    case Brake            => Definition( 56,   14, false)
    case Button           => Definition( 57,   15, false)
    case Standby          => Definition( 58,   16, false)
    case BumperPort       => Definition(111,   40, true)
    case BumperCntr       => Definition(112,   40, true)
    case BumperStbd       => Definition(113,   40, true)
    case InfraredPortSide => Definition(120,   50, true)
    case InfraredPort     => Definition(121,   50, true)
    case InfraredCntr     => Definition(122,   50, true)
    case InfraredStbd     => Definition(123,   50, true)
    case InfraredStbdSide => Definition(124,   50, true)
    case FullAhead        => Definition(145,  100, false)
    case HalfAhead        => Definition(146,  100, false)
    case SlowAhead        => Definition(147,  100, false)
    case DeadSlowAhead    => Definition(148,  100, false)
    case Ahead            => Definition(149,  100, false)
    case Astern           => Definition(150,  100, false)
    case DeadSlowAstern   => Definition(151,  100, false)
    case SlowAstern       => Definition(152,  100, false)
    case HalfAstern       => Definition(153,  100, false)
    case FullAstern       => Definition(154,  100, false)
    case IncreaseSpeed    => Definition(160,  100, false)
    case Even             => Definition(161,  100, false)
    case DecreaseSpeed    => Definition(162,  100, false)
    case TurnAheadPort    => Definition(170,  100, false)
    case TurnToPort       => Definition(171,  100, false)
    case TurnAsternPort   => Definition(172,  100, false)
    case SpinPort         => Definition(173,  100, false)
    case SpinStbd         => Definition(180,  100, false)
    case TurnAsternStbd   => Definition(181,  100, false)
    case TurnToStbd       => Definition(182,  100, false)
    case TurnAheadStbd    => Definition(183,  100, false)
    case Roam             => Definition(190,  100, false)
    case Sniff            => Definition(191,  100, true)
    case Video            => Definition(192,  150, false)
    case EventL2          => Definition(193,  150, false)
    case EventR1          => Definition(194,  150, false)
    case Lights           => Definition(195,  150, false)
    case MotionDetect     => Definition(196,  150, false)
    case ForwardVelocity  => Definition(201,  200, false)
    case Theta            => Definition(202,  200, false)
    case PortVelocity     => Definition(203,  200, false)
    case PortTheta        => Definition(204,  200, false)
    case StbdVelocity     => Definition(205,  200, false)
    case StbdTheta        => Definition(206,  200, false)
    case NoAction         => Definition(500,  500, false)
    case ClockTick        => Definition(501,  500, false)
    case ClockTock        => Definition(502,  500, false)
  }

  /** The description in an event's definition tuple. */
  function Description(e: Event): (r: string)
    ensures r != []
  {
    match e
    case Noop             => "no operation"
    case BatteryLow       => "battery low"
    case Shutdown         => "shutdown"
    case HighTemperature  => "high temperature"
    case CollisionDetect  => "collision detect"
    case EmergencyAstern  => "emergency astern"
    case Gamepad          => "gamepad"
    case Stop             => "stop"
    case Halt             => "halt"
    case Brake            => "brake"
    case Button           => "button"
    case Standby          => "standby"
    case BumperPort       => "bumper port"
    case BumperCntr       => "bumper center"
    case BumperStbd       => "bumper starboard"
    case InfraredPortSide => "infrared port side"
    case InfraredPort     => "infrared port"
    case InfraredCntr     => "infrared cntr"
    case InfraredStbd     => "infrared stbd"
    case InfraredStbdSide => "infrared stbd side"
    case FullAhead        => "full ahead"
    case HalfAhead        => "half ahead"
    case SlowAhead        => "slow ahead"
    case DeadSlowAhead    => "dead slow ahead"
    case Ahead            => "ahead"
    case Astern           => "astern"
    case DeadSlowAstern   => "dead slow astern"
    case SlowAstern       => "slow astern"
    case HalfAstern       => "half astern"
    case FullAstern       => "full astern"
    case IncreaseSpeed    => "increase speed"
    case Even             => "even"
    case DecreaseSpeed    => "decrease speed"
    case TurnAheadPort    => "turn ahead port"
    case TurnToPort       => "turn to port"
    case TurnAsternPort   => "turn astern port"
    case SpinPort         => "spin port"
    case SpinStbd         => "spin starboard"
    case TurnAsternStbd   => "turn astern starboard"
    case TurnToStbd       => "turn to starboard"
    case TurnAheadStbd    => "turn ahead starboard"
    case Roam             => "roam"
    case Sniff            => "sniff"
    case Video            => "video"
    case EventL2          => "L2"
    case EventR1          => "cruise"
    case Lights           => "lights"
    case MotionDetect     => "motion detect"
    case ForwardVelocity  => "forward velocity"
    case Theta            => "theta"
    case PortVelocity     => "port velocity"
    case PortTheta        => "port theta"
    case StbdVelocity     => "starboard velocity"
    case StbdTheta        => "starboard theta"
    case NoAction         => "no action"
    case ClockTick        => "tick"
    case ClockTock        => "tock"
  }

  /** The enum member name, which is also `str(event)`. */
  function Name(e: Event): (r: string)
    ensures r != [] && 'A' <= r[0] <= 'Z'
  {
    match e
    case Noop             => "NOOP"
    case BatteryLow       => "BATTERY_LOW"
    case Shutdown         => "SHUTDOWN"
    case HighTemperature  => "HIGH_TEMPERATURE"
    case CollisionDetect  => "COLLISION_DETECT"
    case EmergencyAstern  => "EMERGENCY_ASTERN"
    case Gamepad          => "GAMEPAD"
    case Stop             => "STOP"
    case Halt             => "HALT"
    case Brake            => "BRAKE"
    case Button           => "BUTTON"
    case Standby          => "STANDBY"
    case BumperPort       => "BUMPER_PORT"
    case BumperCntr       => "BUMPER_CNTR"
    case BumperStbd       => "BUMPER_STBD"
    case InfraredPortSide => "INFRARED_PORT_SIDE"
    case InfraredPort     => "INFRARED_PORT"
    case InfraredCntr     => "INFRARED_CNTR"
    case InfraredStbd     => "INFRARED_STBD"
    case InfraredStbdSide => "INFRARED_STBD_SIDE"
    case FullAhead        => "FULL_AHEAD"
    case HalfAhead        => "HALF_AHEAD"
    case SlowAhead        => "SLOW_AHEAD"
    case DeadSlowAhead    => "DEAD_SLOW_AHEAD"
    case Ahead            => "AHEAD"
    case Astern           => "ASTERN"
    case DeadSlowAstern   => "DEAD_SLOW_ASTERN"
    case SlowAstern       => "SLOW_ASTERN"
    case HalfAstern       => "HALF_ASTERN"
    case FullAstern       => "FULL_ASTERN"
    case IncreaseSpeed    => "INCREASE_SPEED"
    case Even             => "EVEN"
    case DecreaseSpeed    => "DECREASE_SPEED"
    case TurnAheadPort    => "TURN_AHEAD_PORT"
    case TurnToPort       => "TURN_TO_PORT"
    case TurnAsternPort   => "TURN_ASTERN_PORT"
    case SpinPort         => "SPIN_PORT"
    case SpinStbd         => "SPIN_STBD"
    case TurnAsternStbd   => "TURN_ASTERN_STBD"
    case TurnToStbd       => "TURN_TO_STBD"
    case TurnAheadStbd    => "TURN_AHEAD_STBD"
    case Roam             => "ROAM"
    case Sniff            => "SNIFF"
    case Video            => "VIDEO"
    case EventL2          => "EVENT_L2"
    case EventR1          => "EVENT_R1"
    case Lights           => "LIGHTS"
    case MotionDetect     => "MOTION_DETECT"
    case ForwardVelocity  => "FORWARD_VELOCITY"
    case Theta            => "THETA"
    case PortVelocity     => "PORT_VELOCITY"
    case PortTheta        => "PORT_THETA"
    case StbdVelocity     => "STBD_VELOCITY"
    case StbdTheta        => "STBD_THETA"
    case NoAction         => "NO_ACTION"
    case ClockTick        => "CLOCK_TICK"
    case ClockTock        => "CLOCK_TOCK"
  }

  function Value(e: Event): nat { Define(e).number }
  /** `priority`: from 1, the most urgent, to 1000 for NOOP; bumpers
    * (40) are more urgent than the infrared sensors (50). */
  function Priority(e: Event): (r: nat)
    ensures 1 <= r <= 1000
    ensures e in {BumperPort, BumperCntr, BumperStbd} ==> r == 40
    ensures e in {InfraredPortSide, InfraredPort, InfraredCntr, InfraredStbd, InfraredStbdSide} ==> r == 50
  {
    Define(e).priority
  }

  /** `is_ballistic`: every bumper and infrared event is ballistic, and no
    * ballistic event is less urgent than priority 100. */
  function IsBallistic(e: Event): (r: bool)
    ensures e in {BumperPort, BumperCntr, BumperStbd} ==> r
    ensures e in {InfraredPortSide, InfraredPort, InfraredCntr, InfraredStbd, InfraredStbdSide} ==> r
    ensures r ==> Priority(e) <= 100
  {
    Define(e).ballistic
  }

  /** Every event, in declaration order. */
  const AllEvents: seq<Event> := [
    Noop, BatteryLow, Shutdown, HighTemperature, CollisionDetect, EmergencyAstern,
    Gamepad, Stop, Halt, Brake, Button, Standby,
    BumperPort, BumperCntr, BumperStbd, InfraredPortSide, InfraredPort, InfraredCntr,
    InfraredStbd, InfraredStbdSide, FullAhead, HalfAhead, SlowAhead, DeadSlowAhead,
    Ahead, Astern, DeadSlowAstern, SlowAstern, HalfAstern, FullAstern,
    IncreaseSpeed, Even, DecreaseSpeed, TurnAheadPort, TurnToPort, TurnAsternPort,
    SpinPort, SpinStbd, TurnAsternStbd, TurnToStbd, TurnAheadStbd, Roam,
    Sniff, Video, EventL2, EventR1, Lights, MotionDetect,
    ForwardVelocity, Theta, PortVelocity, PortTheta, StbdVelocity, StbdTheta,
    NoAction, ClockTick, ClockTock
  ]

  /** The events `from_str` recognises, in the order it tests their names;
    * the other eleven events cannot be parsed. */
  const FromStrOrder: seq<Event> := [
    BatteryLow, Shutdown, Stop, Halt, Brake, Button,
    Standby, BumperPort, BumperCntr, BumperStbd, InfraredPort, InfraredCntr,
    InfraredStbd, InfraredPortSide, InfraredStbdSide, EmergencyAstern, FullAhead, HalfAhead,
    SlowAhead, DeadSlowAhead, Ahead, Astern, DeadSlowAstern, SlowAstern,
    HalfAstern, FullAstern, IncreaseSpeed, Even, DecreaseSpeed, TurnAheadPort,
    TurnToPort, TurnAsternPort, SpinPort, SpinStbd, TurnAsternStbd, TurnToStbd,
    TurnAheadStbd, Roam, ForwardVelocity, Theta, PortVelocity, PortTheta,
    StbdVelocity, StbdTheta, Sniff, NoAction
  ]

  // ------------------------------------------------------- number and name

  /** The member with a given definition number (`Event(n)` on the enum). */
  function EventNumbered(n: nat): Option<Event> {
    match n
    case 0    => Some(Noop)
    case 10   => Some(BatteryLow)
    case 11   => Some(Shutdown)
    case 12   => Some(HighTemperature)
    case 13   => Some(CollisionDetect)
    case 14   => Some(EmergencyAstern)
    case 20   => Some(Gamepad)
    case 54   => Some(Stop)
    case 55   => Some(Halt)
    case 56   => Some(Brake)
    case 57   => Some(Button)
    case 58   => Some(Standby)
    case 111  => Some(BumperPort)
    case 112  => Some(BumperCntr)
    case 113  => Some(BumperStbd)
    case 120  => Some(InfraredPortSide)
    case 121  => Some(InfraredPort)
    case 122  => Some(InfraredCntr)
    case 123  => Some(InfraredStbd)
    case 124  => Some(InfraredStbdSide)
    case 145  => Some(FullAhead)
    case 146  => Some(HalfAhead)
    case 147  => Some(SlowAhead)
    case 148  => Some(DeadSlowAhead)
    case 149  => Some(Ahead)
    case 150  => Some(Astern)
    case 151  => Some(DeadSlowAstern)
    case 152  => Some(SlowAstern)
    case 153  => Some(HalfAstern)
    case 154  => Some(FullAstern)
    case 160  => Some(IncreaseSpeed)
    case 161  => Some(Even)
    case 162  => Some(DecreaseSpeed)
    case 170  => Some(TurnAheadPort)
    case 171  => Some(TurnToPort)
    case 172  => Some(TurnAsternPort)
    case 173  => Some(SpinPort)
    case 180  => Some(SpinStbd)
    case 181  => Some(TurnAsternStbd)
    case 182  => Some(TurnToStbd)
    case 183  => Some(TurnAheadStbd)
    case 190  => Some(Roam)
    case 191  => Some(Sniff)
    case 192  => Some(Video)
    case 193  => Some(EventL2)
    case 194  => Some(EventR1)
    case 195  => Some(Lights)
    case 196  => Some(MotionDetect)
    case 201  => Some(ForwardVelocity)
    case 202  => Some(Theta)
    case 203  => Some(PortVelocity)
    case 204  => Some(PortTheta)
    case 205  => Some(StbdVelocity)
    case 206  => Some(StbdTheta)
    case 500  => Some(NoAction)
    case 501  => Some(ClockTick)
    case 502  => Some(ClockTock)
    case _    => None
  }

  /** The member with a given name (`Event[name]` on the enum). The names
    * are sorted by length first, which keeps the comparisons few. */
  function EventNamed(name: string): Option<Event> {
    match |name|
    case 4 => (
      match name
      case "NOOP" => Some(Noop)
      case "STOP" => Some(Stop)
      case "HALT" => Some(Halt)
      case "EVEN" => Some(Even)
      case "ROAM" => Some(Roam)
      case _ => None)
    case 5 => (
      match name
      case "BRAKE" => Some(Brake)
      case "AHEAD" => Some(Ahead)
      case "SNIFF" => Some(Sniff)
      case "VIDEO" => Some(Video)
      case "THETA" => Some(Theta)
      case _ => None)
    case 6 => (
      match name
      case "BUTTON" => Some(Button)
      case "ASTERN" => Some(Astern)
      case "LIGHTS" => Some(Lights)
      case _ => None)
    case 7 => (
      match name
      case "GAMEPAD" => Some(Gamepad)
      case "STANDBY" => Some(Standby)
      case _ => None)
    case 8 => (
      match name
      case "SHUTDOWN" => Some(Shutdown)
      case "EVENT_L2" => Some(EventL2)
      case "EVENT_R1" => Some(EventR1)
      case _ => None)
    case 9 => (
      match name
      case "SPIN_PORT" => Some(SpinPort)
      case "SPIN_STBD" => Some(SpinStbd)
      case "NO_ACTION" => Some(NoAction)
      case _ => None)
    case 10 => (
      match name
      case "FULL_AHEAD" => Some(FullAhead)
      case "HALF_AHEAD" => Some(HalfAhead)
      case "SLOW_AHEAD" => Some(SlowAhead)
      case "PORT_THETA" => Some(PortTheta)
      case "STBD_THETA" => Some(StbdTheta)
      case "CLOCK_TICK" => Some(ClockTick)
      case "CLOCK_TOCK" => Some(ClockTock)
      case _ => None)
    case 11 => (
      match name
      case "BATTERY_LOW" => Some(BatteryLow)
      case "BUMPER_PORT" => Some(BumperPort)
      case "BUMPER_CNTR" => Some(BumperCntr)
      case "BUMPER_STBD" => Some(BumperStbd)
      case "SLOW_ASTERN" => Some(SlowAstern)
      case "HALF_ASTERN" => Some(HalfAstern)
      case "FULL_ASTERN" => Some(FullAstern)
      case _ => None)
    case 12 => (
      match name
      case "TURN_TO_PORT" => Some(TurnToPort)
      case "TURN_TO_STBD" => Some(TurnToStbd)
      case _ => None)
    case 13 => (
      match name
      case "INFRARED_PORT" => Some(InfraredPort)
      case "INFRARED_CNTR" => Some(InfraredCntr)
      case "INFRARED_STBD" => Some(InfraredStbd)
      case "MOTION_DETECT" => Some(MotionDetect)
      case "PORT_VELOCITY" => Some(PortVelocity)
      case "STBD_VELOCITY" => Some(StbdVelocity)
      case _ => None)
    case 14 => (
      match name
      case "INCREASE_SPEED" => Some(IncreaseSpeed)
      case "DECREASE_SPEED" => Some(DecreaseSpeed)
      case _ => None)
    case 15 => (
      match name
      case "DEAD_SLOW_AHEAD" => Some(DeadSlowAhead)
      case "TURN_AHEAD_PORT" => Some(TurnAheadPort)
      case "TURN_AHEAD_STBD" => Some(TurnAheadStbd)
      case _ => None)
    case 16 => (
      match name
      case "HIGH_TEMPERATURE" => Some(HighTemperature)
      case "COLLISION_DETECT" => Some(CollisionDetect)
      case "EMERGENCY_ASTERN" => Some(EmergencyAstern)
      case "DEAD_SLOW_ASTERN" => Some(DeadSlowAstern)
      case "TURN_ASTERN_PORT" => Some(TurnAsternPort)
      case "TURN_ASTERN_STBD" => Some(TurnAsternStbd)
      case "FORWARD_VELOCITY" => Some(ForwardVelocity)
      case _ => None)
    case 18 => (
      match name
      case "INFRARED_PORT_SIDE" => Some(InfraredPortSide)
      case "INFRARED_STBD_SIDE" => Some(InfraredStbdSide)
      case _ => None)
    case _ => None
  }

  /** The member names are distinct. */
  lemma NameInjective(a: Event, b: Event)
    requires Name(a) == Name(b)
    ensures a == b
  {
    EventNamedName(a);
    EventNamedName(b);
  }

  /** Each name leads back to its event. */
  lemma EventNamedName(e: Event)
    ensures EventNamed(Name(e)) == Some(e)
  {
    match e
    case Noop => NamedNoop();
    case BatteryLow => NamedBatteryLow();
    case Shutdown => NamedShutdown();
    case HighTemperature => NamedHighTemperature();
    case CollisionDetect => NamedCollisionDetect();
    case EmergencyAstern => NamedEmergencyAstern();
    case Gamepad => NamedGamepad();
    case Stop => NamedStop();
    case Halt => NamedHalt();
    case Brake => NamedBrake();
    case Button => NamedButton();
    case Standby => NamedStandby();
    case BumperPort => NamedBumperPort();
    case BumperCntr => NamedBumperCntr();
    case BumperStbd => NamedBumperStbd();
    case InfraredPortSide => NamedInfraredPortSide();
    case InfraredPort => NamedInfraredPort();
    case InfraredCntr => NamedInfraredCntr();
    case InfraredStbd => NamedInfraredStbd();
    case InfraredStbdSide => NamedInfraredStbdSide();
    case FullAhead => NamedFullAhead();
    case HalfAhead => NamedHalfAhead();
    case SlowAhead => NamedSlowAhead();
    case DeadSlowAhead => NamedDeadSlowAhead();
    case Ahead => NamedAhead();
    case Astern => NamedAstern();
    case DeadSlowAstern => NamedDeadSlowAstern();
    case SlowAstern => NamedSlowAstern();
    case HalfAstern => NamedHalfAstern();
    case FullAstern => NamedFullAstern();
    case IncreaseSpeed => NamedIncreaseSpeed();
    case Even => NamedEven();
    case DecreaseSpeed => NamedDecreaseSpeed();
    case TurnAheadPort => NamedTurnAheadPort();
    case TurnToPort => NamedTurnToPort();
    case TurnAsternPort => NamedTurnAsternPort();
    case SpinPort => NamedSpinPort();
    case SpinStbd => NamedSpinStbd();
    case TurnAsternStbd => NamedTurnAsternStbd();
    case TurnToStbd => NamedTurnToStbd();
    case TurnAheadStbd => NamedTurnAheadStbd();
    case Roam => NamedRoam();
    case Sniff => NamedSniff();
    case Video => NamedVideo();
    case EventL2 => NamedEventL2();
    case EventR1 => NamedEventR1();
    case Lights => NamedLights();
    case MotionDetect => NamedMotionDetect();
    case ForwardVelocity => NamedForwardVelocity();
    case Theta => NamedTheta();
    case PortVelocity => NamedPortVelocity();
    case PortTheta => NamedPortTheta();
    case StbdVelocity => NamedStbdVelocity();
    case StbdTheta => NamedStbdTheta();
    case NoAction => NamedNoAction();
    case ClockTick => NamedClockTick();
    case ClockTock => NamedClockTock();
  }

  lemma NamedNoop() ensures EventNamed("NOOP") == Some(Noop) {}
  lemma NamedBatteryLow() ensures EventNamed("BATTERY_LOW") == Some(BatteryLow) {}
  lemma NamedShutdown() ensures EventNamed("SHUTDOWN") == Some(Shutdown) {}
  lemma NamedHighTemperature() ensures EventNamed("HIGH_TEMPERATURE") == Some(HighTemperature) {}
  lemma NamedCollisionDetect() ensures EventNamed("COLLISION_DETECT") == Some(CollisionDetect) {}
  lemma NamedEmergencyAstern() ensures EventNamed("EMERGENCY_ASTERN") == Some(EmergencyAstern) {}
  lemma NamedGamepad() ensures EventNamed("GAMEPAD") == Some(Gamepad) {}
  lemma NamedStop() ensures EventNamed("STOP") == Some(Stop) {}
  lemma NamedHalt() ensures EventNamed("HALT") == Some(Halt) {}
  lemma NamedBrake() ensures EventNamed("BRAKE") == Some(Brake) {}
  lemma NamedButton() ensures EventNamed("BUTTON") == Some(Button) {}
  lemma NamedStandby() ensures EventNamed("STANDBY") == Some(Standby) {}
  lemma NamedBumperPort() ensures EventNamed("BUMPER_PORT") == Some(BumperPort) {}
  lemma NamedBumperCntr() ensures EventNamed("BUMPER_CNTR") == Some(BumperCntr) {}
  lemma NamedBumperStbd() ensures EventNamed("BUMPER_STBD") == Some(BumperStbd) {}
  lemma NamedInfraredPortSide() ensures EventNamed("INFRARED_PORT_SIDE") == Some(InfraredPortSide) {}
  lemma NamedInfraredPort() ensures EventNamed("INFRARED_PORT") == Some(InfraredPort) {}
  lemma NamedInfraredCntr() ensures EventNamed("INFRARED_CNTR") == Some(InfraredCntr) {}
  lemma NamedInfraredStbd() ensures EventNamed("INFRARED_STBD") == Some(InfraredStbd) {}
  lemma NamedInfraredStbdSide() ensures EventNamed("INFRARED_STBD_SIDE") == Some(InfraredStbdSide) {}
  lemma NamedFullAhead() ensures EventNamed("FULL_AHEAD") == Some(FullAhead) {}
  lemma NamedHalfAhead() ensures EventNamed("HALF_AHEAD") == Some(HalfAhead) {}
  lemma NamedSlowAhead() ensures EventNamed("SLOW_AHEAD") == Some(SlowAhead) {}
  lemma NamedDeadSlowAhead() ensures EventNamed("DEAD_SLOW_AHEAD") == Some(DeadSlowAhead) {}
  lemma NamedAhead() ensures EventNamed("AHEAD") == Some(Ahead) {}
  lemma NamedAstern() ensures EventNamed("ASTERN") == Some(Astern) {}
  lemma NamedDeadSlowAstern() ensures EventNamed("DEAD_SLOW_ASTERN") == Some(DeadSlowAstern) {}
  lemma NamedSlowAstern() ensures EventNamed("SLOW_ASTERN") == Some(SlowAstern) {}
  lemma NamedHalfAstern() ensures EventNamed("HALF_ASTERN") == Some(HalfAstern) {}
  lemma NamedFullAstern() ensures EventNamed("FULL_ASTERN") == Some(FullAstern) {}
  lemma NamedIncreaseSpeed() ensures EventNamed("INCREASE_SPEED") == Some(IncreaseSpeed) {}
  lemma NamedEven() ensures EventNamed("EVEN") == Some(Even) {}
  lemma NamedDecreaseSpeed() ensures EventNamed("DECREASE_SPEED") == Some(DecreaseSpeed) {}
  lemma NamedTurnAheadPort() ensures EventNamed("TURN_AHEAD_PORT") == Some(TurnAheadPort) {}
  lemma NamedTurnToPort() ensures EventNamed("TURN_TO_PORT") == Some(TurnToPort) {}
  lemma NamedTurnAsternPort() ensures EventNamed("TURN_ASTERN_PORT") == Some(TurnAsternPort) {}
  lemma NamedSpinPort() ensures EventNamed("SPIN_PORT") == Some(SpinPort) {}
  lemma NamedSpinStbd() ensures EventNamed("SPIN_STBD") == Some(SpinStbd) {}
  lemma NamedTurnAsternStbd() ensures EventNamed("TURN_ASTERN_STBD") == Some(TurnAsternStbd) {}
  lemma NamedTurnToStbd() ensures EventNamed("TURN_TO_STBD") == Some(TurnToStbd) {}
  lemma NamedTurnAheadStbd() ensures EventNamed("TURN_AHEAD_STBD") == Some(TurnAheadStbd) {}
  lemma NamedRoam() ensures EventNamed("ROAM") == Some(Roam) {}
  lemma NamedSniff() ensures EventNamed("SNIFF") == Some(Sniff) {}
  lemma NamedVideo() ensures EventNamed("VIDEO") == Some(Video) {}
  lemma NamedEventL2() ensures EventNamed("EVENT_L2") == Some(EventL2) {}
  lemma NamedEventR1() ensures EventNamed("EVENT_R1") == Some(EventR1) {}
  lemma NamedLights() ensures EventNamed("LIGHTS") == Some(Lights) {}
  lemma NamedMotionDetect() ensures EventNamed("MOTION_DETECT") == Some(MotionDetect) {}
  lemma NamedForwardVelocity() ensures EventNamed("FORWARD_VELOCITY") == Some(ForwardVelocity) {}
  lemma NamedTheta() ensures EventNamed("THETA") == Some(Theta) {}
  lemma NamedPortVelocity() ensures EventNamed("PORT_VELOCITY") == Some(PortVelocity) {}
  lemma NamedPortTheta() ensures EventNamed("PORT_THETA") == Some(PortTheta) {}
  lemma NamedStbdVelocity() ensures EventNamed("STBD_VELOCITY") == Some(StbdVelocity) {}
  lemma NamedStbdTheta() ensures EventNamed("STBD_THETA") == Some(StbdTheta) {}
  lemma NamedNoAction() ensures EventNamed("NO_ACTION") == Some(NoAction) {}
  lemma NamedClockTick() ensures EventNamed("CLOCK_TICK") == Some(ClockTick) {}
  lemma NamedClockTock() ensures EventNamed("CLOCK_TOCK") == Some(ClockTock) {}

  // ------------------------------------------------------------ properties

  /** `is_ignoreable`: priority 500 or more, which is NOOP and the three
    * events declared as "other behaviours". */
  function IsIgnoreable(e: Event): (r: bool)
    ensures r <==> e in {Noop, NoAction, ClockTick, ClockTock}
  {
    Priority(e) >= 500
  }

  /** `compare_to_priority_of`, which `core/event.py` does not define: 1 when
    * this event is more urgent (a lower priority number), -1 when less
    * urgent, 0 for equal priority. */
  function CompareToPriorityOf(e: Event, other: Event): (r: int)
    ensures r == 1 <==> Priority(e) < Priority(other)
    ensures r == -1 <==> Priority(e) > Priority(other)
    ensures r == 0 <==> Priority(e) == Priority(other)
  {
    if Priority(e) < Priority(other) then 1
    else if Priority(e) > Priority(other) then -1
    else 0
  }

  // ---------------------------------------------------------------- from_str

  /** `Event.from_str`: the upper-cased text is compared with the listed
    * names in turn; any other text raises NotImplementedError. */
  function FromStr(text: string): (r: Result<Event>)
    ensures r.Ok? ==> r.value in FromStrOrder && Name(r.value) == Util.Upper(text)
    ensures r.Err? ==> r.error == NotImplementedError
    ensures r.Err? ==> forall k :: 0 <= k < |FromStrOrder| ==> Name(FromStrOrder[k]) != Util.Upper(text)
  {
    match FirstNamed(FromStrOrder, Util.Upper(text))
    case Some(e) => Ok(e)
    case None => Err(NotImplementedError)
  }

  /** The first event of `order` whose name is `name`. */
  function FirstNamed(order: seq<Event>, name: string): (r: Option<Event>)
    ensures r.Some? ==> r.value in order && Name(r.value) == name
    ensures r.None? ==> forall k :: 0 <= k < |order| ==> Name(order[k]) != name
  {
    if order == [] then None
    else if Name(order[0]) == name then Some(order[0])
    else FirstNamed(order[1..], name)
  }

  /** Since names are distinct, the first match is the only one. */
  lemma {:induction false} FirstNamedFinds(order: seq<Event>, e: Event)
    requires e in order
    ensures FirstNamed(order, Name(e)) == Some(e)
  {
    if Name(order[0]) == Name(e) {
      NameInjective(order[0], e);
    } else {
      FirstNamedFinds(order[1..], e);
    }
  }

  /** Any spelling of a listed name, in any case, gives that event. */
  lemma FromStrFindsNamed(text: string, e: Event)
    requires e in FromStrOrder && Util.Upper(text) == Name(e)
    ensures FromStr(text) == Ok(e)
  {
    FirstNamedFinds(FromStrOrder, e);
  }

  /** Texts that differ only in letter case parse alike. */
  lemma FromStrIgnoresCase(a: string, b: string)
    requires Util.SameIgnoringCase(a, b)
    ensures FromStr(a) == FromStr(b)
  {
    Util.UpperIgnoresCase(a, b);
  }

  /** The eleven events that `from_str` does not list cannot be named. */
  lemma FromStrRejectsUnlisted(text: string, e: Event)
    requires e !in FromStrOrder && Util.Upper(text) == Name(e)
    ensures FromStr(text) == Err(NotImplementedError)
  {
    var r := FromStr(text);
    if r.Ok? {
      NameInjective(r.value, e);
      assert false;
    }
  }

  // ------------------------------------------------- is_bumper / is_infrared

  /** `Event.is_bumper` as written: it tests the numbers 10 to 19. */
  function IsBumperAsWritten(e: Event): (r: bool)
    ensures r <==> e in {BatteryLow, Shutdown, HighTemperature, CollisionDetect, EmergencyAstern}
    ensures r ==> !IsBumper(e)
  {
    10 <= Value(e) < 20
  }

  /** `Event.is_infrared` as written: it tests the numbers 20 to 29. */
  function IsInfraredAsWritten(e: Event): (r: bool)
    ensures r <==> e == Gamepad
    ensures r ==> !IsInfrared(e)
  {
    20 <= Value(e) < 30
  }

  /** The ranges as written miss every bumper and infrared event and accept
    * emergency and gamepad events instead. */
  lemma BumperRangesAsWrittenMisclassify()
    ensures !IsBumperAsWritten(BumperPort) && !IsBumperAsWritten(BumperCntr) && !IsBumperAsWritten(BumperStbd)
    ensures IsBumperAsWritten(BatteryLow) && IsBumperAsWritten(Shutdown)
    ensures !IsInfraredAsWritten(InfraredPort) && IsInfraredAsWritten(Gamepad)
  {
  }

  /** `is_bumper` with the range of the bumper block, numbers 110 to 119. */
  function IsBumper(e: Event): (r: bool)
    ensures r <==> e in {BumperPort, BumperCntr, BumperStbd}
  {
    110 <= Value(e) < 120
  }

  /** `is_infrared` with the range of the infrared block, numbers 120 to 129. */
  function IsInfrared(e: Event): (r: bool)
    ensures r <==> e in {InfraredPortSide, InfraredPort, InfraredCntr, InfraredStbd, InfraredStbdSide}
  {
    120 <= Value(e) < 130
  }
}
