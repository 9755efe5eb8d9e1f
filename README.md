# keyboard_to_joy: a verified model of the keystroke-to-joystick node

`keyboard_to_joy` is a ROS node. It puts the terminal into raw mode and reads
one key byte at a time. It turns each byte into a `sensor_msgs/Joy` message and
publishes it when the byte is one of the ten keys; any other byte publishes
nothing. The arrow keys drive four configurable axis slots
(+1 or -1). The letters `a d e q s w` press six configurable button slots (1).
Before each keystroke, every slot is reset to 0.

This Dafny project models the three parts of `src/keyboard_to_joy.cpp` that
hold logic:

- **Key loop** (`Teleop`, over `KeyCodes` and `Joystick`).
  - `Keyboard2Joy::keyLoop` is modelled imperatively. `Teleop.Keystroke` works
    on two arrays: it zeroes both in place, then runs the `switch`, which writes
    at most one slot and sets `dirty`.
  - `Teleop.KeyLoop` is the `for(;;)` loop over a finite sequence of read
    outcomes. It publishes when `dirty` is set and then clears it. Publishing
    appends the message to the returned log.
  - Both methods are proved against the specification functions
    `Joystick.Snapshot` (the message one byte produces) and
    `Teleop.Publications` (the log a run of bytes produces).
- **Windows key translation** (`ConsoleInput`). The `readOne` chain from
  virtual-key codes to key bytes is the function `Translate`. The polling loop
  that throws away other events is the method `ReadOne`.
- **Terminal mode** (`TerminalMode`).
  - `KeyboardReader` is a class whose constructor saves the terminal's mode and
    switches the terminal to `RawMode`. `Shutdown` restores the saved mode.
  - `RunNode` models `main`. It runs a shutdown after the loop, plus a second
    one when SIGINT arrives while quitting. The terminal ends in the mode it
    started in.
- **Configuration loading** (`Params`). The constructor's `param` calls are
  modelled twice: as written, and corrected (see Findings).

Behaviour of the code that the model keeps:

- Matching is per byte. The `ESC` and `[` of an arrow key's escape sequence
  match nothing. Upper-case `A`-`D` are the arrow bytes themselves.
- `read` returning 0 (end of input) leaves `c` as it was. The previous byte is
  then processed again, and published again when it matched a case
  (`Teleop.EndOfFileRepeatsLastKey`). The
  first value of `c` is indeterminate, so it is a parameter, `c0`.
- Slot indices are never checked. `Joystick.ValidConfig` requires every slot a
  key writes to lie inside its vector.
- On Windows the code reads the record's virtual-key field without looking at
  the event type or at whether the key went down. A key release therefore
  yields a byte too. No virtual key produces `a`, because the chain has no
  branch for VK 0x41.
- The constants are the ones on Linux: ICANON = 0x2, ECHO = 0x8, VEOF = 4 and
  VEOL = 11.
- The return values of `tcgetattr` and `tcsetattr` are ignored.
- Key codes are the raw bytes read; there is no separate symbol for a byte
  that matches nothing.
- `shutdown` restores the saved mode on every call.

## Model

| member | source | states |
|---|---|---|
| `KeyCodes.Decode` | src/keyboard_to_joy.cpp:12-22 | a byte hits a case of the switch only if it is that key's KEYCODE value |
| `KeyCodes.DecodeIsInverseOfCode` | src/keyboard_to_joy.cpp:221-273 | a byte selects key k if and only if it is k's KEYCODE: the switch recognises exactly the ten defined codes |
| `KeyCodes.EscapeSequenceBytes` | src/keyboard_to_joy.cpp:12-15 | ESC and '[' match no case; upper-case 'A'..'D' are the UP, DOWN, RIGHT and LEFT codes |
| `Joystick.Neutral` | src/keyboard_to_joy.cpp:212-219 | after the reset loops the message has the configured lengths and no non-zero slot |
| `Joystick.Target` | src/keyboard_to_joy.cpp:223-272 | arrow keys write an axis slot with +1 or -1, letter keys write a button slot with 1; every case writes a non-zero value |
| `Joystick.Snapshot` | src/keyboard_to_joy.cpp:190-273 | the message for any byte, after the reset and the switch, keeps the configured lengths; axes hold only -1..1 and buttons only 0..1 |
| `Joystick.SnapshotSingleSlot` | src/keyboard_to_joy.cpp:221-273 | a recognised byte leaves exactly one non-zero slot, its configured one, holding its value; any other byte leaves none |
| `Joystick.ArrowSnapshots` | src/keyboard_to_joy.cpp:223-242 | LEFT sets axes[left]=1, RIGHT axes[right]=-1, UP axes[up]=1, DOWN axes[down]=-1; all else 0 |
| `Joystick.LetterSnapshots` | src/keyboard_to_joy.cpp:243-272 | a, d, e, q, s, w set square_x, o_b, r1_rb, l1_lb, x_a, triangle_y to 1; all else 0 |
| `Teleop.Processed` | src/keyboard_to_joy.cpp:44-51 | the loop processes at most one byte per read |
| `Teleop.Publications` | src/keyboard_to_joy.cpp:275-279 | at most one message is published per processed byte |
| `Teleop.Emitted` | src/keyboard_to_joy.cpp:275-279 | exactly one message when a case matched, none otherwise; its only non-zero slot is the key's |
| `Teleop.Keystroke` | src/keyboard_to_joy.cpp:212-273 | whatever the arrays held, they end as the byte's snapshot (no leak between keystrokes, same byte gives same arrays); dirty becomes set exactly when a case matched |
| `Teleop.KeyLoop` | src/keyboard_to_joy.cpp:185-283 | the published log is the snapshots of the matched bytes among those processed, in order; dirty is clear at the start of every iteration |
| `Teleop.PublicationsAppend` | src/keyboard_to_joy.cpp:197-280 | each keystroke publishes independently: the log for two runs of bytes is the two logs concatenated |
| `Teleop.PublishedOncePerMatch` | src/keyboard_to_joy.cpp:275-279 | a further keystroke adds exactly one message, its snapshot, when it matched a case, and nothing otherwise |
| `Teleop.PublishedAreSnapshots` | src/keyboard_to_joy.cpp:221-279 | every published message is the snapshot of some recognised byte among those processed |
| `Teleop.NothingAfterError` | src/keyboard_to_joy.cpp:204-208 | the loop stops at the first failed read: nothing after it is processed |
| `Teleop.EndOfFileRun` | src/keyboard_to_joy.cpp:47-51 | n reads that each return 0 process the byte `c` last held n times |
| `Teleop.RepeatedKeyPublications` | src/keyboard_to_joy.cpp:221-279 | a recognised byte processed n times publishes its snapshot n times |
| `Teleop.EndOfFileRepeatsLastKey` | src/keyboard_to_joy.cpp:47-51 | a read returning 0 keeps the previous byte, so UP then two empty reads publishes three UP messages |
| `ConsoleInput.Translate` | src/keyboard_to_joy.cpp:62-106 | every produced byte is one the key loop recognises, never `a`; VK 0x41 produces nothing |
| `ConsoleInput.TranslateInverse` | src/keyboard_to_joy.cpp:62-106 | the translation is one-to-one: a code yields a byte if and only if it is that byte's virtual key |
| `ConsoleInput.TranslateRange` | src/keyboard_to_joy.cpp:62-106 | the bytes the Windows path can return are exactly the recognised ones except `a` |
| `ConsoleInput.ReadOne` | src/keyboard_to_joy.cpp:53-108 | returns the byte of the first record that translates, after discarding every earlier record; with none, it is still polling once the queue is consumed |
| `TerminalMode.RawMode` | src/keyboard_to_joy.cpp:34-40 | raw mode clears ICANON and ECHO, keeps every other lflag bit and the other flag words, sets VEOL=1 and VEOF=2, and keeps the other control characters |
| `TerminalMode.RawModeForgetsOnlyItsChanges` | src/keyboard_to_joy.cpp:36-40 | two modes with the same raw mode agree on everything except ICANON, ECHO, VEOL and VEOF |
| `TerminalMode.KeyboardReader.constructor` | src/keyboard_to_joy.cpp:27-43 | saves the terminal's mode as cooked and puts the terminal into the raw mode derived from it |
| `TerminalMode.KeyboardReader.Shutdown` | src/keyboard_to_joy.cpp:111-116 | the terminal's mode becomes the saved cooked mode, so a second call changes nothing |
| `TerminalMode.RunNode` | src/keyboard_to_joy.cpp:162-182 | the loop runs in raw mode; after the loop and the quit (plus a second shutdown from SIGINT), the terminal is back in its initial mode |
| `Params.LoadConfigAsWritten` | src/keyboard_to_joy.cpp:138-157 | as written, the right member is never loaded and the "right" option overrides the left member |
| `Params.RightOptionMisbound` | src/keyboard_to_joy.cpp:143-144 | with left=0 and right=1 configured, the left member is 1 and the right member keeps its old value |
| `Params.AsWrittenVsIntended` | src/keyboard_to_joy.cpp:140-157 | the constructor as written differs from the intended load only in the left and right members |
| `Params.LoadConfig` | src/keyboard_to_joy.cpp:140-157 | corrected load: every option's member holds the server's value for that option, or its prior value when the option is not set |
| `Params.LoadConfigHonoursOptions` | src/keyboard_to_joy.cpp:140-157 | with each option loaded into its own member, the value set under a name is the value read back under it, and no other member changes |

## Left out

- ROS plumbing is not modelled: `ros::init`, `advertise`, `ros::shutdown` and
  `ROS_DEBUG`. Publishing is appending to the returned log. The parameter
  server is a map from option names to integers.
- The `tcgetattr`, `tcsetattr` and `read` system calls are not modelled, and
  neither are the console API calls (`GetStdHandle`, `PeekConsoleInput`,
  `ReadConsoleInput`). They become a `Terminal` object with a mode field, a
  sequence of read outcomes and a queue of input records.
- The model's loops stop when their finite input runs out. The source would
  block in `read`, or keep polling, forever.
- The asynchronous side of SIGINT is not modelled: `signal`, `exit`, and the
  handler interrupting the loop mid-iteration. This is interrupt handling.
  `RunNode` keeps only the fact that `shutdown` may run twice.
- `puts`, `perror` and the debug output are not modelled. They are console
  output only.
- `joy.axes` holds floats in the source. The model uses integers, because only
  -1, 0 and 1 are ever stored.
- On Windows the reader's constructor and `shutdown` do nothing. `RunNode`
  models the POSIX build only.
- The uninitialised member values that serve as `param` defaults are a
  parameter, `fields`. `l2_lt` and `r2_rt` are loaded but no key uses them.
- `Teleop.KeyLoop` and `TerminalMode.RunNode` take the configuration as plain
  integers, including an independent `right`. The loading defect is modelled
  separately, in `Params`.

## Findings

| source | as written | input that shows it | evidently intended | confidence | as-written member | corrected member |
|---|---|---|---|---|---|---|
| src/keyboard_to_joy.cpp:144 | `param("right", left_, left_)` loads the "right" option into `left_` | server options left=0, right=1: `left_` becomes 1 and `right_` keeps its uninitialised value | `param("right", right_, right_)` | high; not executed | `Params.RightOptionMisbound` | `Params.LoadConfigHonoursOptions` |
