/**
 * KeyboardReader's terminal handling on POSIX: the constructor saves the
 * terminal's mode and switches it to raw mode; shutdown puts the saved mode
 * back. Also main(), which ties the reader's lifetime to the key loop.
 */
module TerminalMode {
  import opened KeyCodes
  import opened Joystick
  import opened Teleop

  /**
   * The parts of a struct termios the reader touches or copies: the four
   * flag words and the control characters, indexed by their V* position.
   */
  datatype Termios = Termios(iflag: bv32, oflag: bv32, cflag: bv32, lflag: bv32, cc: map<nat, byte>)

  // Linux values of the flags and control-character positions used.
  const Icanon: bv32 := 0x2
  const Echo: bv32 := 0x8
  const Veof: nat := 4
  const Veol: nat := 11

  /**
   * The raw mode derived from the saved mode: a copy of it with canonical
   * input and echo switched off, VEOL set to 1 and VEOF to 2.
   */
  function RawMode(cooked: Termios): (raw: Termios)
    ensures raw.lflag & Icanon == 0 && raw.lflag & Echo == 0
    ensures raw.lflag & !(Icanon | Echo) == cooked.lflag & !(Icanon | Echo)
    ensures raw.iflag == cooked.iflag && raw.oflag == cooked.oflag && raw.cflag == cooked.cflag
    ensures raw.cc.Keys == cooked.cc.Keys + {Veol, Veof}
    ensures raw.cc[Veol] == 1 && raw.cc[Veof] == 2
    ensures forall i :: i in cooked.cc && i != Veol && i != Veof ==> raw.cc[i] == cooked.cc[i]
  {
    cooked.(lflag := cooked.lflag & !(Icanon | Echo), cc := cooked.cc[Veol := 1][Veof := 2])
  }

  /**
   * Raw mode forgets only the ICANON and ECHO bits of lflag and the VEOL
   * and VEOF characters: two modes with the same raw mode differ in nothing
   * else.
   */
  lemma RawModeForgetsOnlyItsChanges(s: Termios, t: Termios)
    requires RawMode(s) == RawMode(t)
    ensures s.iflag == t.iflag && s.oflag == t.oflag && s.cflag == t.cflag
    ensures s.lflag & !(Icanon | Echo) == t.lflag & !(Icanon | Echo)
    ensures forall i :: i != Veol && i != Veof ==> (i in s.cc <==> i in t.cc)
    ensures forall i :: i in s.cc && i != Veol && i != Veof ==> s.cc[i] == t.cc[i]
  {
  }

  /** The controlling terminal on file descriptor 0 and its current mode. */
  class Terminal {
    var mode: Termios

    constructor (mode: Termios)
      ensures this.mode == mode
    {
      this.mode := mode;
    }
  }

  class KeyboardReader {
    const tty: Terminal
    var cooked: Termios

    /** Save the terminal's mode, then put the terminal into raw mode. */
    constructor (tty: Terminal)
      modifies tty
      ensures this.tty == tty
      ensures cooked == old(tty.mode)
      ensures tty.mode == RawMode(cooked)
    {
      this.tty := tty;
      cooked := tty.mode;
      tty.mode := RawMode(tty.mode);
    }

    /**
     * Put the saved mode back. The saved mode is never changed, so calling
     * this again leaves the terminal as the first call did.
     */
    method Shutdown()
      modifies tty
      ensures tty.mode == cooked
    {
      tty.mode := cooked;
    }
  }

  /**
   * main(): construct the reader (raw mode), run the key loop, then quit,
   * which shuts the reader down. A SIGINT delivered while quitting runs the
   * shutdown a second time. Returns the terminal's mode while the key loop
   * runs (raw), what was published, and the terminal's final mode, which is
   * the mode it had before the node started.
   */
  method RunNode(initial: Termios, cfg: Config, c0: byte, input: seq<ReadResult>, interruptedWhileQuitting: bool)
    returns (loopMode: Termios, published: seq<Joy>, final: Termios)
    requires ValidConfig(cfg)
    ensures loopMode == RawMode(initial)
    ensures published == Publications(cfg, Processed(c0, input))
    ensures final == initial
  {
    var tty := new Terminal(initial);
    var reader := new KeyboardReader(tty);
    loopMode := tty.mode;
    published := KeyLoop(cfg, c0, input);
    reader.Shutdown();
    if interruptedWhileQuitting {
      reader.Shutdown();
    }
    final := tty.mode;
  }
}
