/** The PCA9685 16-channel PWM expander as the driver sees it: register
    constants, the byte encoding of one channel write, and the mode-register
    bit manipulations used when the prescaler is programmed. */
module Pca9685 {
  import opened Numbers

  datatype Option<T> = None | Some(value: T)

  /** One byte of an I2C buffer. */
  type Byte = x: int | 0 <= x < 256

  /** A buffer handed to the bus in one write transaction. */
  type Frame = seq<Byte>

  const PCA9685_ADDRESS: int := 0x40
  const MODE1: Byte := 0x00
  const PRESCALE: Byte := 0xfe
  const LED0_ON_L: Byte := 0x06
  const CHANNELS: int := 16

  /** The channels the chip has; any other index is silently ignored. */
  predicate ValidChannel(channel: int) {
    0 <= channel <= 15
  }

  /** JavaScript's ToInt32 on an integral number: the value modulo 2^32,
      read as a signed 32-bit integer. The bitwise operators apply it first. */
  function ToInt32(x: int): (r: int)
    ensures -0x8000_0000 <= r < 0x8000_0000
    ensures (x - r) % 0x1_0000_0000 == 0
    ensures -0x8000_0000 <= x < 0x8000_0000 ==> r == x
  {
    var m := x % 0x1_0000_0000;
    if m >= 0x8000_0000 then m - 0x1_0000_0000 else m
  }

  /** `v & 0xff` */
  function LowByte(v: int): Byte {
    ToInt32(v) % 256
  }

  /** `(v >> 8) & 0xff`; the arithmetic shift is a floor division of the
      32-bit value by 256. */
  function HighByte(v: int): Byte {
    (ToInt32(v) / 256) % 256
  }

  /** A little-endian byte pair read back as a number. */
  function Word(lo: Byte, hi: Byte): int {
    lo as int + 256 * hi as int
  }

  /** Euclidean division by 2^16 is determined by quotient and remainder. */
  lemma ModWord(a: int, c: int)
    requires 0 <= c < 0x1_0000
    ensures (0x1_0000 * a + c) % 0x1_0000 == c
  {
    var x := 0x1_0000 * a + c;
    var q, r := x / 0x1_0000, x % 0x1_0000;
    assert 0x1_0000 * (q - a) == c - r;
  }

  /** The two bytes of a tick value are its value modulo 2^16, low byte first. */
  lemma ByteSplit(v: int)
    ensures Word(LowByte(v), HighByte(v)) == v % 0x1_0000
    ensures 0 <= v < 0x1_0000 ==> Word(LowByte(v), HighByte(v)) == v
  {
    var t := ToInt32(v);
    var q, r := t / 256, t % 256;
    var a, b := q / 256, q % 256;
    assert t == 0x1_0000 * a + (256 * b + r);
    var k := (v - t) / 0x1_0000_0000;
    assert v == 0x1_0000 * (a + 0x1_0000 * k) + (256 * b + r);
    ModWord(a + 0x1_0000 * k, 256 * b + r);
    if 0 <= v < 0x1_0000 {
      ModWord(0, v);
    }
  }

  /** The 5-byte payload setPwm sends: the channel's ON_L register address,
      then the on and off tick values, each as a little-endian pair. */
  function PwmFrame(channel: int, on: int, off: int): (f: Frame)
    requires ValidChannel(channel)
    ensures |f| == 5
    ensures f[0] == LED0_ON_L + 4 * channel
  {
    [LED0_ON_L + 4 * channel, LowByte(on), HighByte(on), LowByte(off), HighByte(off)]
  }

  /** Bytes 1-2 and 3-4 of a payload hold the on and off ticks modulo 2^16. */
  lemma PwmFrameWords(channel: int, on: int, off: int)
    requires ValidChannel(channel)
    ensures Word(PwmFrame(channel, on, off)[1], PwmFrame(channel, on, off)[2]) == on % 0x1_0000
    ensures Word(PwmFrame(channel, on, off)[3], PwmFrame(channel, on, off)[4]) == off % 0x1_0000
  {
    ByteSplit(on);
    ByteSplit(off);
  }

  /** The frames one setPwm call puts on the bus: none for a channel outside
      0..15, otherwise exactly its payload. */
  function PwmWrite(channel: int, on: int, off: int): (w: seq<Frame>)
    ensures |w| <= 1
    ensures w == [] <==> !ValidChannel(channel)
    ensures w != [] ==> w == [PwmFrame(channel, on, off)]
  {
    if ValidChannel(channel) then [PwmFrame(channel, on, off)] else []
  }

  /** A setPwm call, as a value. */
  datatype PwmCall = PwmCall(channel: int, on: int, off: int)

  /** The frames a sequence of setPwm calls puts on the bus, in order. */
  function CallWrites(calls: seq<PwmCall>): seq<Frame>
  {
    if calls == [] then []
    else
      var c := calls[|calls| - 1];
      CallWrites(calls[..|calls| - 1]) + PwmWrite(c.channel, c.on, c.off)
  }

  /** One more call adds its frames at the end. */
  lemma CallWritesSnoc(calls: seq<PwmCall>, c: PwmCall)
    ensures CallWrites(calls + [c]) == CallWrites(calls) + PwmWrite(c.channel, c.on, c.off)
  {
    assert (calls + [c])[..|calls|] == calls;
  }

  lemma {:induction false} CallWritesAppend(a: seq<PwmCall>, b: seq<PwmCall>)
    ensures CallWrites(a + b) == CallWrites(a) + CallWrites(b)
    decreases |b|
  {
    if b == [] {
      assert a + b == a;
    } else {
      var b' := b[..|b| - 1];
      assert (a + b)[..|a + b| - 1] == a + b';
      CallWritesAppend(a, b');
    }
  }

  /** The calls that switch channels 0..n-1 off, in channel order. */
  function ZeroCalls(n: nat): (calls: seq<PwmCall>)
    ensures |calls| == n
    ensures forall k :: 0 <= k < n ==> calls[k] == PwmCall(k, 0, 0)
  {
    seq(n, k => PwmCall(k, 0, 0))
  }

  /** A log extended by switching off one more channel. */
  lemma ZeroCallsLogSnoc(w0: seq<Frame>, n: nat)
    ensures w0 + CallWrites(ZeroCalls(n + 1)) == (w0 + CallWrites(ZeroCalls(n))) + PwmWrite(n, 0, 0)
  {
    assert ZeroCalls(n + 1) == ZeroCalls(n) + [PwmCall(n, 0, 0)];
    CallWritesSnoc(ZeroCalls(n), PwmCall(n, 0, 0));
    AppendAssoc(w0, CallWrites(ZeroCalls(n)), PwmWrite(n, 0, 0));
  }

  /** Reads a payload back into the call that produced it. */
  function DecodeFrame(f: Frame): Option<PwmCall>
  {
    if |f| == 5 && f[0] >= LED0_ON_L && (f[0] - LED0_ON_L) % 4 == 0
       && ValidChannel((f[0] - LED0_ON_L) / 4)
    then Some(PwmCall((f[0] - LED0_ON_L) / 4, Word(f[1], f[2]), Word(f[3], f[4])))
    else None
  }

  /** Decoding a payload recovers the channel and both tick values modulo 2^16. */
  lemma DecodePwmFrame(channel: int, on: int, off: int)
    requires ValidChannel(channel)
    ensures DecodeFrame(PwmFrame(channel, on, off))
            == Some(PwmCall(channel, on % 0x1_0000, off % 0x1_0000))
  {
    var f := PwmFrame(channel, on, off);
    var d := f[0] - LED0_ON_L;
    assert d % 4 == 0 && d / 4 == channel by {
      assert d == 4 * channel;
    }
    assert Word(f[1], f[2]) == on % 0x1_0000 && Word(f[3], f[4]) == off % 0x1_0000 by {
      PwmFrameWords(channel, on, off);
    }
  }

  /** Tick values that fit 16 bits come back unchanged. */
  lemma DecodePwmFrameExact(channel: int, on: int, off: int)
    requires ValidChannel(channel)
    requires 0 <= on < 0x1_0000 && 0 <= off < 0x1_0000
    ensures DecodeFrame(PwmFrame(channel, on, off)) == Some(PwmCall(channel, on, off))
  {
    DecodePwmFrame(channel, on, off);
    ModWord(0, on);
    ModWord(0, off);
  }

  /** MODE1 while the prescaler is written: `(oldmode & 0x7f) | 0x10`, i.e.
      RESTART (bit 7) cleared, SLEEP (bit 4) set, the other bits kept. */
  function SleepMode(oldMode: bv8): (m: bv8)
    ensures m & 0x10 == 0x10
    ensures m & 0x80 == 0
    ensures m & 0x6f == oldMode & 0x6f
  {
    (oldMode & 0x7f) | 0x10
  }

  /** MODE1 after the oscillator has settled: `oldmode | 0xa1`, i.e. RESTART
      (bit 7), auto-increment (bit 5) and ALLCALL (bit 0) set, the rest kept. */
  function RestartMode(oldMode: bv8): (m: bv8)
    ensures m & 0xa1 == 0xa1
    ensures m & 0x5e == oldMode & 0x5e
  {
    oldMode | 0xa1
  }
}
