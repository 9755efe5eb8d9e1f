/**
 * The Windows branch of KeyboardReader::readOne: poll the console's input
 * queue and translate virtual-key codes into the key bytes the key loop
 * recognises.
 */
module ConsoleInput {
  import opened Wrappers
  import opened KeyCodes

  /** A Windows WORD: the width of a virtual-key code. */
  newtype word = w: int | 0 <= w < 0x1_0000

  const VkLeft: word := 0x25
  const VkUp: word := 0x26
  const VkRight: word := 0x27
  const VkDown: word := 0x28
  const VkA: word := 0x41

  /**
   * One console input record. The reader reads the key-event view of the
   * record's union whatever kind of event it is and whether the key went
   * down or up, so a record is modelled by that field alone: for a key event
   * it is the virtual-key code, for any other event whatever the union holds
   * at that position.
   */
  datatype InputRecord = InputRecord(virtualKeyCode: word)

  /**
   * The if/else-if chain on the virtual-key code: arrows and the letters D, E,
   * Q, S, W give a key byte; every other code (the letter A among them) gives
   * none.
   */
  function Translate(vk: word): (r: Option<byte>)
    ensures r.Some? ==> Decode(r.value).Some? && r.value != KeyA
    ensures vk == VkA ==> r == None
  {
    if vk == VkLeft then Some(KeyLeft)
    else if vk == VkUp then Some(KeyUp)
    else if vk == VkRight then Some(KeyRight)
    else if vk == VkDown then Some(KeyDown)
    else if vk == 0x44 then Some(KeyD)
    else if vk == 0x45 then Some(KeyE)
    else if vk == 0x51 then Some(KeyQ)
    else if vk == 0x53 then Some(KeyS)
    else if vk == 0x57 then Some(KeyW)
    else None
  }

  /** The virtual key a byte comes from on this path, if any. */
  function VirtualKeyOf(c: byte): Option<word> {
    if c == KeyLeft then Some(VkLeft)
    else if c == KeyUp then Some(VkUp)
    else if c == KeyRight then Some(VkRight)
    else if c == KeyDown then Some(VkDown)
    else if c == KeyD then Some(0x44)
    else if c == KeyE then Some(0x45)
    else if c == KeyQ then Some(0x51)
    else if c == KeyS then Some(0x53)
    else if c == KeyW then Some(0x57)
    else None
  }

  /** The translation is one-to-one: a code yields a byte exactly when the byte comes from that code. */
  lemma TranslateInverse(vk: word, c: byte)
    ensures Translate(vk) == Some(c) <==> VirtualKeyOf(c) == Some(vk)
  {
  }

  /**
   * The bytes this path can produce are exactly nine of the ten the key loop
   * recognises: every key but A, which therefore never reaches the mapper on
   * Windows.
   */
  lemma {:induction false} TranslateRange(c: byte)
    ensures (exists vk :: Translate(vk) == Some(c)) <==> Decode(c).Some? && c != KeyA
  {
    if Decode(c).Some? && c != KeyA {
      var vk := VirtualKeyOf(c).value;
      TranslateInverse(vk, c);
    }
  }

  /**
   * readOne's polling loop over the records that arrive: records whose code
   * translates to nothing are consumed and discarded; the first that
   * translates ends the call with its byte. When the queue runs dry the
   * source keeps polling forever; the model then returns None having
   * consumed the whole queue.
   */
  method ReadOne(queue: seq<InputRecord>) returns (c: Option<byte>, consumed: nat)
    ensures consumed <= |queue|
    ensures c.None? ==> consumed == |queue|
    ensures c.Some? ==> 0 < consumed && Translate(queue[consumed - 1].virtualKeyCode) == c
    ensures forall k :: 0 <= k < consumed && (c.None? || k < consumed - 1) ==>
              Translate(queue[k].virtualKeyCode).None?
  {
    consumed := 0;
    while consumed < |queue|
      invariant consumed <= |queue|
      invariant forall k :: 0 <= k < consumed ==> Translate(queue[k].virtualKeyCode).None?
    {
      var record := queue[consumed];
      consumed := consumed + 1;
      var t := Translate(record.virtualKeyCode);
      if t.Some? {
        return t, consumed;
      }
    }
    return None, consumed;
  }
}
