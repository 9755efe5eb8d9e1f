/**
 * The key bytes the node recognises (the KEYCODE_* definitions of
 * src/keyboard_to_joy.cpp) and the symbolic keys they stand for.
 */
module KeyCodes {
  import opened Wrappers

  /** One byte read from the terminal (the `char c` of the key loop). */
  newtype byte = b: int | 0 <= b < 0x100

  // Arrow keys: the final byte of the terminal's ESC '[' x escape sequence.
  const KeyRight: byte := 0x43
  const KeyLeft: byte := 0x44
  const KeyUp: byte := 0x41
  const KeyDown: byte := 0x42

  // Lower-case letters.
  const KeyA: byte := 0x61
  const KeyD: byte := 0x64
  const KeyE: byte := 0x65
  const KeyQ: byte := 0x71
  const KeyS: byte := 0x73
  const KeyW: byte := 0x77

  // Bytes that are not keys of their own.
  const Escape: byte := 0x1B
  const OpenBracket: byte := 0x5B

  /** The ten keys that have a case in the key loop's switch. */
  datatype Key = Left | Right | Up | Down | A | D | E | Q | S | W

  /** The byte each key is recognised by. */
  function Code(k: Key): byte {
    match k
    case Left => KeyLeft
    case Right => KeyRight
    case Up => KeyUp
    case Down => KeyDown
    case A => KeyA
    case D => KeyD
    case E => KeyE
    case Q => KeyQ
    case S => KeyS
    case W => KeyW
  }

  /** Which case label of the switch a byte hits, if any. */
  function Decode(c: byte): (r: Option<Key>)
    ensures r.Some? ==> Code(r.value) == c
  {
    if c == KeyLeft then Some(Left)
    else if c == KeyRight then Some(Right)
    else if c == KeyUp then Some(Up)
    else if c == KeyDown then Some(Down)
    else if c == KeyA then Some(A)
    else if c == KeyD then Some(D)
    else if c == KeyE then Some(E)
    else if c == KeyQ then Some(Q)
    else if c == KeyS then Some(S)
    else if c == KeyW then Some(W)
    else None
  }

  /** Decoding and the key codes are inverse: a byte decodes to a key exactly when it is that key's code. */
  lemma DecodeIsInverseOfCode(c: byte, k: Key)
    ensures Decode(c) == Some(k) <==> Code(k) == c
  {
  }

  /**
   * Matching is per byte: the ESC and '[' that precede an arrow key's final
   * byte are not keys, and upper-case 'A'..'D' are taken for the arrows.
   */
  lemma EscapeSequenceBytes()
    ensures Decode(Escape) == None && Decode(OpenBracket) == None
    ensures Decode('A' as byte) == Some(Up) && Decode('B' as byte) == Some(Down)
    ensures Decode('C' as byte) == Some(Right) && Decode('D' as byte) == Some(Left)
  {
  }
}
