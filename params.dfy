/**
 * Keyboard2Joy's constructor: each configuration member is loaded from the
 * parameter server, keeping its current value when the option is not set.
 */
module Params {
  import opened Joystick

  /** NodeHandle::param: the server's value for the option if it has one, else the default. */
  function Param(server: map<string, int>, name: string, default: int): int {
    if name in server then server[name] else default
  }

  /** The option names the constructor reads. */
  const OptionNames: set<string> := {
    "axes", "buttons", "left", "right", "up", "down", "x_a", "o_b",
    "square_x", "triangle_y", "l1_lb", "l2_lt", "r1_rb", "r2_rt"}

  /** The configuration member each option name is meant for. */
  function OptionValue(cfg: Config, name: string): int
    requires name in OptionNames
  {
    match name
    case "axes" => cfg.axes
    case "buttons" => cfg.buttons
    case "left" => cfg.left
    case "right" => cfg.right
    case "up" => cfg.up
    case "down" => cfg.down
    case "x_a" => cfg.xA
    case "o_b" => cfg.oB
    case "square_x" => cfg.squareX
    case "triangle_y" => cfg.triangleY
    case "l1_lb" => cfg.l1Lb
    case "l2_lt" => cfg.l2Lt
    case "r1_rb" => cfg.r1Rb
    case "r2_rt" => cfg.r2Rt
  }

  /**
   * The constructor as written: the "right" option is loaded into the left
   * member (after "left" was), and the right member is never loaded.
   * `fields` holds the members' values before the constructor runs.
   */
  function LoadConfigAsWritten(server: map<string, int>, fields: Config): (cfg: Config)
    ensures cfg.right == fields.right
    ensures cfg.left == if "right" in server then server["right"] else Param(server, "left", fields.left)
  {
    var left := Param(server, "left", fields.left);
    var left := Param(server, "right", left);
    Config(
      Param(server, "axes", fields.axes), Param(server, "buttons", fields.buttons),
      left, fields.right, Param(server, "up", fields.up), Param(server, "down", fields.down),
      Param(server, "x_a", fields.xA), Param(server, "o_b", fields.oB),
      Param(server, "square_x", fields.squareX), Param(server, "triangle_y", fields.triangleY),
      Param(server, "r1_rb", fields.r1Rb), Param(server, "r2_rt", fields.r2Rt),
      Param(server, "l1_lb", fields.l1Lb), Param(server, "l2_lt", fields.l2Lt))
  }

  /**
   * Setting "right" on the server changes the left member and leaves the
   * right member at whatever it held before: with left = 0 and right = 1
   * configured, LEFT then acts on axis 1, and RIGHT on the never-loaded
   * right member.
   */
  lemma RightOptionMisbound(fields: Config)
    ensures var cfg := LoadConfigAsWritten(map["left" := 0, "right" := 1], fields);
      OptionValue(cfg, "left") == 1 && OptionValue(cfg, "right") == fields.right
  {
  }

  /** The constructor as intended: every option loaded into its own member. */
  function LoadConfig(server: map<string, int>, fields: Config): (cfg: Config)
    ensures forall name :: name in OptionNames ==>
      OptionValue(cfg, name) == Param(server, name, OptionValue(fields, name))
  {
    Config(
      Param(server, "axes", fields.axes), Param(server, "buttons", fields.buttons),
      Param(server, "left", fields.left), Param(server, "right", fields.right),
      Param(server, "up", fields.up), Param(server, "down", fields.down),
      Param(server, "x_a", fields.xA), Param(server, "o_b", fields.oB),
      Param(server, "square_x", fields.squareX), Param(server, "triangle_y", fields.triangleY),
      Param(server, "r1_rb", fields.r1Rb), Param(server, "r2_rt", fields.r2Rt),
      Param(server, "l1_lb", fields.l1Lb), Param(server, "l2_lt", fields.l2Lt))
  }

  /**
   * With every option loaded into its own member, the value set for an
   * option is the value read back under that option's name, and setting it
   * changes no other member.
   */
  lemma LoadConfigHonoursOptions(server: map<string, int>, fields: Config, name: string, v: int)
    requires name in OptionNames
    ensures OptionValue(LoadConfig(server[name := v], fields), name) == v
    ensures forall other :: other in OptionNames && other != name ==>
      OptionValue(LoadConfig(server[name := v], fields), other) == OptionValue(LoadConfig(server, fields), other)
  {
  }

  /**
   * The defect is confined to the left and right members: every other member
   * is loaded as intended.
   */
  lemma AsWrittenVsIntended(server: map<string, int>, fields: Config)
    ensures LoadConfigAsWritten(server, fields)
         == LoadConfig(server, fields).(left := Param(server, "right", Param(server, "left", fields.left)),
                                        right := fields.right)
  {
  }
}
