/**
 * The key-to-joystick mapping of Keyboard2Joy: the configured slot indices and
 * the joystick snapshot that one key byte produces.
 */
module Joystick {
  import opened KeyCodes

  /**
   * The node's configuration: the lengths of the axes and buttons vectors and
   * the slot bound to each key. l2Lt and r2Rt are loaded but no key uses them.
   */
  datatype Config = Config(
    axes: int, buttons: int,
    left: int, right: int, up: int, down: int,
    xA: int, oB: int, squareX: int, triangleY: int,
    r1Rb: int, r2Rt: int, l1Lb: int, l2Lt: int)

  /**
   * The source never checks its slot indices: every slot a key writes must lie
   * inside the vector it indexes.
   */
  predicate ValidConfig(cfg: Config) {
    && 0 <= cfg.left < cfg.axes && 0 <= cfg.right < cfg.axes
    && 0 <= cfg.up < cfg.axes && 0 <= cfg.down < cfg.axes
    && 0 <= cfg.squareX < cfg.buttons && 0 <= cfg.oB < cfg.buttons
    && 0 <= cfg.r1Rb < cfg.buttons && 0 <= cfg.l1Lb < cfg.buttons
    && 0 <= cfg.xA < cfg.buttons && 0 <= cfg.triangleY < cfg.buttons
  }

  /** A position in the joystick message. */
  datatype Slot = AxisSlot(index: int) | ButtonSlot(index: int)

  /** The one assignment a case of the switch performs. */
  datatype Write = Write(slot: Slot, value: int)

  /** The case bodies of the switch: the slot each key writes and the value it stores. */
  function Target(cfg: Config, k: Key): (w: Write)
    ensures w.slot.AxisSlot? <==> k.Left? || k.Right? || k.Up? || k.Down?
    ensures w.slot.AxisSlot? ==> w.value == 1 || w.value == -1
    ensures w.slot.ButtonSlot? ==> w.value == 1
  {
    match k
    case Left => Write(AxisSlot(cfg.left), 1)
    case Right => Write(AxisSlot(cfg.right), -1)
    case Up => Write(AxisSlot(cfg.up), 1)
    case Down => Write(AxisSlot(cfg.down), -1)
    case A => Write(ButtonSlot(cfg.squareX), 1)
    case D => Write(ButtonSlot(cfg.oB), 1)
    case E => Write(ButtonSlot(cfg.r1Rb), 1)
    case Q => Write(ButtonSlot(cfg.l1Lb), 1)
    case S => Write(ButtonSlot(cfg.xA), 1)
    case W => Write(ButtonSlot(cfg.triangleY), 1)
  }

  /** A joystick message: axis values (only -1, 0 and 1 are ever stored) and button values. */
  datatype Joy = Joy(axes: seq<int>, buttons: seq<int>)

  predicate InRange(j: Joy, s: Slot) {
    match s
    case AxisSlot(i) => 0 <= i < |j.axes|
    case ButtonSlot(i) => 0 <= i < |j.buttons|
  }

  function At(j: Joy, s: Slot): int
    requires InRange(j, s)
  {
    match s
    case AxisSlot(i) => j.axes[i]
    case ButtonSlot(i) => j.buttons[i]
  }

  /** The slots of a message that hold something other than 0. */
  function NonNeutral(j: Joy): set<Slot> {
    (set i | 0 <= i < |j.axes| && j.axes[i] != 0 :: AxisSlot(i))
      + (set i | 0 <= i < |j.buttons| && j.buttons[i] != 0 :: ButtonSlot(i))
  }

  /** A message of the configured shape with every slot at 0. */
  function Neutral(cfg: Config): (j: Joy)
    requires cfg.axes >= 0 && cfg.buttons >= 0
    ensures |j.axes| == cfg.axes && |j.buttons| == cfg.buttons
    ensures NonNeutral(j) == {}
  {
    Joy(seq(cfg.axes, _ => 0), seq(cfg.buttons, _ => 0))
  }

  function Apply(j: Joy, w: Write): (r: Joy)
    requires InRange(j, w.slot)
  {
    match w.slot
    case AxisSlot(i) => j.(axes := j.axes[i := w.value])
    case ButtonSlot(i) => j.(buttons := j.buttons[i := w.value])
  }

  lemma TargetInRange(cfg: Config, k: Key)
    requires ValidConfig(cfg)
    ensures InRange(Neutral(cfg), Target(cfg, k).slot)
  {
  }

  /**
   * The message one key byte produces: every slot reset to 0, then the slot
   * bound to the byte's key, if it has one, set.
   */
  function Snapshot(cfg: Config, c: byte): (j: Joy)
    requires ValidConfig(cfg)
    ensures |j.axes| == cfg.axes && |j.buttons| == cfg.buttons
    ensures forall i :: 0 <= i < |j.axes| ==> -1 <= j.axes[i] <= 1
    ensures forall i :: 0 <= i < |j.buttons| ==> 0 <= j.buttons[i] <= 1
  {
    match Decode(c)
    case None => Neutral(cfg)
    case Some(k) =>
      TargetInRange(cfg, k);
      Apply(Neutral(cfg), Target(cfg, k))
  }

  /**
   * Exactly one slot is non-zero after a recognised byte, the configured one,
   * holding the key's value; no slot is non-zero after any other byte.
   */
  lemma SnapshotSingleSlot(cfg: Config, c: byte)
    requires ValidConfig(cfg)
    ensures Decode(c).None? ==> NonNeutral(Snapshot(cfg, c)) == {}
    ensures Decode(c).Some? ==>
      var w := Target(cfg, Decode(c).value);
      && NonNeutral(Snapshot(cfg, c)) == {w.slot}
      && InRange(Snapshot(cfg, c), w.slot)
      && At(Snapshot(cfg, c), w.slot) == w.value
  {
  }

  /** The arrow keys each write one axis with a fixed sign; every button stays 0. */
  lemma ArrowSnapshots(cfg: Config)
    requires ValidConfig(cfg)
    ensures Snapshot(cfg, KeyLeft) == Joy(Neutral(cfg).axes[cfg.left := 1], Neutral(cfg).buttons)
    ensures Snapshot(cfg, KeyRight) == Joy(Neutral(cfg).axes[cfg.right := -1], Neutral(cfg).buttons)
    ensures Snapshot(cfg, KeyUp) == Joy(Neutral(cfg).axes[cfg.up := 1], Neutral(cfg).buttons)
    ensures Snapshot(cfg, KeyDown) == Joy(Neutral(cfg).axes[cfg.down := -1], Neutral(cfg).buttons)
  {
  }

  /** The letter keys each press one button; every axis stays 0. */
  lemma LetterSnapshots(cfg: Config)
    requires ValidConfig(cfg)
    ensures Snapshot(cfg, KeyA) == Joy(Neutral(cfg).axes, Neutral(cfg).buttons[cfg.squareX := 1])
    ensures Snapshot(cfg, KeyD) == Joy(Neutral(cfg).axes, Neutral(cfg).buttons[cfg.oB := 1])
    ensures Snapshot(cfg, KeyE) == Joy(Neutral(cfg).axes, Neutral(cfg).buttons[cfg.r1Rb := 1])
    ensures Snapshot(cfg, KeyQ) == Joy(Neutral(cfg).axes, Neutral(cfg).buttons[cfg.l1Lb := 1])
    ensures Snapshot(cfg, KeyS) == Joy(Neutral(cfg).axes, Neutral(cfg).buttons[cfg.xA := 1])
    ensures Snapshot(cfg, KeyW) == Joy(Neutral(cfg).axes, Neutral(cfg).buttons[cfg.triangleY := 1])
  {
  }
}
