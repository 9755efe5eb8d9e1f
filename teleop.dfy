/**
 * Keyboard2Joy::keyLoop: read a byte, reset the message, apply the byte's
 * case of the switch, and publish when a case matched.
 */
module Teleop {
  import opened KeyCodes
  import opened Joystick

  /**
   * The outcome of one read(2) of one byte: a byte, a return of 0 (end of
   * input, which leaves `c` as it was), or a negative return (the failure
   * that ends the loop).
   */
  datatype ReadResult = Byte(b: byte) | EndOfFile | Error

  /**
   * The bytes the switch sees, in order, until a failed read ends the loop.
   * `last` is the value `c` holds before the first read; a read that returns
   * 0 leaves it in place, so that byte is seen again.
   */
  function Processed(last: byte, input: seq<ReadResult>): (keys: seq<byte>)
    ensures |keys| <= |input|
    decreases |input|
  {
    if input == [] then []
    else match input[0]
      case Error => []
      case Byte(b) => [b] + Processed(b, input[1..])
      case EndOfFile => [last] + Processed(last, input[1..])
  }

  /** What one iteration hands to the publisher: one snapshot if the byte matched a case, else nothing. */
  function Emitted(cfg: Config, c: byte): (ps: seq<Joy>)
    requires ValidConfig(cfg)
    ensures |ps| == if Decode(c).Some? then 1 else 0
    ensures forall p :: p in ps ==> NonNeutral(p) == {Target(cfg, Decode(c).value).slot}
  {
    if Decode(c).Some? then [Snapshot(cfg, c)] else []
  }

  /** The messages published while the loop processes `keys`. */
  function Publications(cfg: Config, keys: seq<byte>): (ps: seq<Joy>)
    requires ValidConfig(cfg)
    ensures |ps| <= |keys|
  {
    if keys == [] then [] else Emitted(cfg, keys[0]) + Publications(cfg, keys[1..])
  }

  /**
   * One iteration's update of the message: zero every axis and button, then
   * apply the switch. Whatever the arrays held before, they end as the
   * byte's snapshot, so nothing leaks from one keystroke into the next.
   */
  method Keystroke(cfg: Config, axes: array<int>, buttons: array<int>, c: byte, dirty: bool)
    returns (nowDirty: bool)
    requires ValidConfig(cfg)
    requires axes.Length == cfg.axes && buttons.Length == cfg.buttons && axes != buttons
    modifies axes, buttons
    ensures Joy(axes[..], buttons[..]) == Snapshot(cfg, c)
    ensures nowDirty == (dirty || Decode(c).Some?)
  {
    for i := 0 to axes.Length
      invariant forall k :: 0 <= k < i ==> axes[k] == 0
    {
      axes[i] := 0;
    }
    for i := 0 to buttons.Length
      invariant forall k :: 0 <= k < axes.Length ==> axes[k] == 0
      invariant forall k :: 0 <= k < i ==> buttons[k] == 0
    {
      buttons[i] := 0;
    }
    ghost var zero := Neutral(cfg);
    assert Joy(axes[..], buttons[..]) == zero;
    nowDirty := dirty;
    if c == KeyLeft {
      axes[cfg.left] := 1;
      nowDirty := true;
    } else if c == KeyRight {
      axes[cfg.right] := -1;
      nowDirty := true;
    } else if c == KeyUp {
      axes[cfg.up] := 1;
      nowDirty := true;
    } else if c == KeyDown {
      axes[cfg.down] := -1;
      nowDirty := true;
    } else if c == KeyA {
      buttons[cfg.squareX] := 1;
      nowDirty := true;
    } else if c == KeyD {
      buttons[cfg.oB] := 1;
      nowDirty := true;
    } else if c == KeyE {
      buttons[cfg.r1Rb] := 1;
      nowDirty := true;
    } else if c == KeyQ {
      buttons[cfg.l1Lb] := 1;
      nowDirty := true;
    } else if c == KeyS {
      buttons[cfg.xA] := 1;
      nowDirty := true;
    } else if c == KeyW {
      buttons[cfg.triangleY] := 1;
      nowDirty := true;
    }
  }

  /** One read's worth of Processed: how the remaining input at position i unfolds. */
  lemma ProcessedAt(last: byte, input: seq<ReadResult>, i: nat)
    requires i < |input|
    ensures Processed(last, input[i..]) ==
      match input[i]
      case Error => []
      case Byte(b) => [b] + Processed(b, input[i + 1..])
      case EndOfFile => [last] + Processed(last, input[i + 1..])
  {
  }

  /** The key loop's invariant survives one iteration that processes `c`. */
  lemma PublishStep(cfg: Config, c: byte, before: seq<Joy>, keys: seq<byte>, rest: seq<byte>, total: seq<Joy>)
    requires ValidConfig(cfg)
    requires keys == [c] + rest
    requires before + Publications(cfg, keys) == total
    ensures (before + Emitted(cfg, c)) + Publications(cfg, rest) == total
  {
  }

  /**
   * The key loop over a finite input: returns the messages published, in
   * order. `c0` is the indeterminate initial value of `c`. The loop ends at
   * the first failed read or when the input is exhausted.
   */
  method KeyLoop(cfg: Config, c0: byte, input: seq<ReadResult>) returns (published: seq<Joy>)
    requires ValidConfig(cfg)
    ensures published == Publications(cfg, Processed(c0, input))
  {
    var c := c0;
    var dirty := false;
    var axes := new int[cfg.axes];
    var buttons := new int[cfg.buttons];
    published := [];
    var i := 0;
    while i < |input|
      invariant 0 <= i <= |input|
      invariant !dirty
      invariant axes.Length == cfg.axes && buttons.Length == cfg.buttons && axes != buttons
      invariant published + Publications(cfg, Processed(c, input[i..])) == Publications(cfg, Processed(c0, input))
    {
      ProcessedAt(c, input, i);
      if input[i].Error? {
        assert Publications(cfg, Processed(c, input[i..])) == [];
        return;
      }
      ghost var prev := c;
      if input[i].Byte? {
        c := input[i].b;
      }
      ghost var before := published;
      dirty := Keystroke(cfg, axes, buttons, c, dirty);
      if dirty {
        published := published + [Joy(axes[..], buttons[..])];
        dirty := false;
      }
      assert published == before + Emitted(cfg, c);
      PublishStep(cfg, c, before, Processed(prev, input[i..]), Processed(c, input[i + 1..]),
                  Publications(cfg, Processed(c0, input)));
      i := i + 1;
    }
  }

  /** Publishing is per keystroke: the messages for two runs of keys are those of each, in order. */
  lemma {:induction false} PublicationsAppend(cfg: Config, keys: seq<byte>, more: seq<byte>)
    requires ValidConfig(cfg)
    ensures Publications(cfg, keys + more) == Publications(cfg, keys) + Publications(cfg, more)
  {
    if keys == [] {
      assert keys + more == more;
    } else {
      assert (keys + more)[1..] == keys[1..] + more;
      PublicationsAppend(cfg, keys[1..], more);
    }
  }

  /**
   * One more keystroke publishes exactly one message, its snapshot, when the
   * byte matches a case, and nothing otherwise.
   */
  lemma PublishedOncePerMatch(cfg: Config, keys: seq<byte>, c: byte)
    requires ValidConfig(cfg)
    ensures Decode(c).Some? ==> Publications(cfg, keys + [c]) == Publications(cfg, keys) + [Snapshot(cfg, c)]
    ensures Decode(c).None? ==> Publications(cfg, keys + [c]) == Publications(cfg, keys)
  {
    PublicationsAppend(cfg, keys, [c]);
    assert [c][1..] == [];
  }

  /**
   * Every published message is the snapshot of some recognised byte among
   * the keys, so it has exactly one non-zero slot.
   */
  lemma {:induction false} PublishedAreSnapshots(cfg: Config, keys: seq<byte>, n: nat)
    requires ValidConfig(cfg)
    requires n < |Publications(cfg, keys)|
    ensures exists i :: 0 <= i < |keys| && Decode(keys[i]).Some? && Publications(cfg, keys)[n] == Snapshot(cfg, keys[i])
  {
    if Decode(keys[0]).Some? && n == 0 {
      assert Publications(cfg, keys)[0] == Snapshot(cfg, keys[0]);
    } else {
      var m := if Decode(keys[0]).Some? then n - 1 else n;
      assert Publications(cfg, keys)[n] == Publications(cfg, keys[1..])[m];
      PublishedAreSnapshots(cfg, keys[1..], m);
      var i :| 0 <= i < |keys[1..]| && Decode(keys[1..][i]).Some? && Publications(cfg, keys[1..])[m] == Snapshot(cfg, keys[1..][i]);
      assert keys[1..][i] == keys[i + 1];
    }
  }

  /** A failed read ends the loop: nothing after it is ever processed. */
  lemma {:induction false} NothingAfterError(last: byte, input: seq<ReadResult>, rest: seq<ReadResult>)
    ensures Processed(last, input + [Error] + rest) == Processed(last, input)
    decreases |input|
  {
    if input == [] {
      assert (input + [Error] + rest)[0] == Error;
    } else {
      assert (input + [Error] + rest)[1..] == input[1..] + [Error] + rest;
      match input[0]
      case Error =>
      case Byte(b) => NothingAfterError(b, input[1..], rest);
      case EndOfFile => NothingAfterError(last, input[1..], rest);
    }
  }

  /** A run of reads that return 0 processes the byte `c` last held, once per read. */
  lemma {:induction false} EndOfFileRun(last: byte, n: nat)
    ensures Processed(last, seq(n, _ => EndOfFile)) == seq(n, _ => last)
  {
    if n > 0 {
      assert seq(n, _ => EndOfFile)[1..] == seq(n - 1, _ => EndOfFile);
      EndOfFileRun(last, n - 1);
      assert seq(n, _ => last) == [last] + seq(n - 1, _ => last);
    }
  }

  /** A recognised byte processed n times publishes its snapshot n times. */
  lemma {:induction false} RepeatedKeyPublications(cfg: Config, c: byte, n: nat)
    requires ValidConfig(cfg) && Decode(c).Some?
    ensures Publications(cfg, seq(n, _ => c)) == seq(n, _ => Snapshot(cfg, c))
  {
    if n > 0 {
      assert seq(n, _ => c)[1..] == seq(n - 1, _ => c);
      RepeatedKeyPublications(cfg, c, n - 1);
      assert seq(n, _ => Snapshot(cfg, c)) == [Snapshot(cfg, c)] + seq(n - 1, _ => Snapshot(cfg, c));
    }
  }

  /**
   * A read that returns 0 leaves `c` unchanged, so the previous key is
   * processed and published again: one UP followed by two empty reads
   * publishes three identical messages.
   */
  lemma EndOfFileRepeatsLastKey(cfg: Config, c0: byte)
    requires ValidConfig(cfg)
    ensures Publications(cfg, Processed(c0, [Byte(KeyUp), EndOfFile, EndOfFile]))
         == [Snapshot(cfg, KeyUp), Snapshot(cfg, KeyUp), Snapshot(cfg, KeyUp)]
  {
    var input := [Byte(KeyUp), EndOfFile, EndOfFile];
    EndOfFileRun(KeyUp, 2);
    assert input[1..] == seq(2, _ => EndOfFile);
    assert Processed(c0, input) == seq(3, _ => KeyUp);
    RepeatedKeyPublications(cfg, KeyUp, 3);
  }
}
