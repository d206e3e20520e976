/**
 * The JavaScript port of the encoder (native/ldac/ldacJS.js).
 *
 * Unlike the native handle, the port derives its frame size from a target
 * bitrate and the sampling frequency, clamps it to 40..600 bytes, reads
 * the block from a byte buffer as little-endian 16-bit sample pairs (pairs
 * beyond the buffer are silence), and fills the payload with both
 * channels' coefficients, alternating left and right.
 *
 * The transform is a parameter: `coef(window, k)` is coefficient `k` of a
 * channel's 256-sample window as stored in the port's single-precision
 * array. The normalisation `floor((x + 1) * 127.5)`, clamped to a byte, is
 * modelled over the reals.
 */
module LdacJS {

  import Wrappers
  import opened LdacBT

  /** The port's default MTU when the argument is falsy. */
  const DEFAULT_MTU := 679
  const MIN_FRAME_BYTES := 40
  const MAX_FRAME_BYTES := 600
  /** Payload positions available to 128 left/right coefficient pairs. */
  const PAYLOAD_END := 4 + 2 * BLOCK

  /** Target bitrate of a quality mode: 990, 660 or 330 kbit/s (`===` on the mode). */
  function TargetBps(eqmid: int): int {
    if eqmid == EQMID_HQ then 990000
    else if eqmid == EQMID_SQ then 660000
    else 330000
  }

  /**
   * The frame size the constructor picks: `floor(target * 128 / (8 * freq))`
   * clamped to 40..600. A zero frequency divides to +Infinity and so gives
   * 600; a negative one gives a negative quotient and so 40.
   */
  function FrameBytes(eqmid: int, freq: int): (n: int)
    ensures MIN_FRAME_BYTES <= n <= MAX_FRAME_BYTES
    ensures freq == 0 ==> n == MAX_FRAME_BYTES
    ensures freq < 0 ==> n == MIN_FRAME_BYTES
  {
    if freq == 0 then MAX_FRAME_BYTES
    else
      var q := ((TargetBps(eqmid) * 128) as real / (8 * freq) as real).Floor;
      var capped := if q > MAX_FRAME_BYTES then MAX_FRAME_BYTES else q;
      if capped < MIN_FRAME_BYTES then MIN_FRAME_BYTES else capped
  }

  /** `floor(a / b)` over the reals is Euclidean division for a positive divisor. */
  lemma FloorDiv(a: int, b: int)
    requires b > 0
    ensures (a as real / b as real).Floor == a / b
  {
    var q, r := a / b, a % b;
    assert a == q * b + r && 0 <= r < b;
    assert a as real / b as real == q as real + r as real / b as real;
    assert 0.0 <= r as real / b as real < 1.0;
  }

  /** For a positive frequency the frame size is the integer quotient, clamped. */
  lemma FrameBytesExact(eqmid: int, freq: int)
    requires freq > 0
    ensures var q := TargetBps(eqmid) * 128 / (8 * freq);
      FrameBytes(eqmid, freq) == (if q > MAX_FRAME_BYTES then MAX_FRAME_BYTES else if q < MIN_FRAME_BYTES then MIN_FRAME_BYTES else q)
  {
    FloorDiv(TargetBps(eqmid) * 128, 8 * freq);
  }

  /**
   * Unless the clamp raised it to 40 bytes, a frame of the chosen size sent
   * every 128 samples never exceeds the target bitrate, and falls short of
   * it by less than one byte per block.
   */
  lemma FrameBytesMeetsTarget(eqmid: int, freq: int)
    requires freq > 0
    requires TargetBps(eqmid) * 128 / (8 * freq) >= MIN_FRAME_BYTES
    ensures FrameBytes(eqmid, freq) * 8 * freq <= TargetBps(eqmid) * 128
    ensures TargetBps(eqmid) * 128 / (8 * freq) <= MAX_FRAME_BYTES ==>
      TargetBps(eqmid) * 128 < (FrameBytes(eqmid, freq) + 1) * 8 * freq
  {
    FrameBytesExact(eqmid, freq);
    var t, d := TargetBps(eqmid) * 128, 8 * freq;
    assert t / d * d <= t < (t / d + 1) * d;
    var n := FrameBytes(eqmid, freq);
    assert n <= t / d;
    assert n * d <= t / d * d by {
      assert (t / d - n) * d >= 0;
    }
  }

  /** The frame sizes at the supported frequencies. */
  lemma FrameBytesTable()
    ensures FrameBytes(EQMID_HQ, 96000) == 165 && FrameBytes(EQMID_HQ, 88200) == 179
    ensures FrameBytes(EQMID_HQ, 48000) == 330 && FrameBytes(EQMID_HQ, 44100) == 359
    ensures FrameBytes(EQMID_SQ, 48000) == 220 && FrameBytes(EQMID_MQ, 48000) == 110
    ensures FrameBytes(EQMID_MQ, 96000) == 55
  {
    FrameBytesExact(EQMID_HQ, 96000);
    FrameBytesExact(EQMID_HQ, 88200);
    FrameBytesExact(EQMID_HQ, 48000);
    FrameBytesExact(EQMID_HQ, 44100);
    FrameBytesExact(EQMID_SQ, 48000);
    FrameBytesExact(EQMID_MQ, 48000);
    FrameBytesExact(EQMID_MQ, 96000);
  }

  /** At 48 kHz the port picks the native encoder's frame size; at 96 kHz it picks half of it. */
  lemma PortMatchesNativeAt48k(eqmid: int)
    ensures FrameBytes(eqmid, 48000) == FrameSize(eqmid)
    ensures FrameBytes(eqmid, 96000) * 2 == FrameSize(eqmid)
  {
    FrameBytesExact(eqmid, 48000);
    FrameBytesExact(eqmid, 96000);
  }

  /** The displayed bitrate: `floor(nbytes * 8 * freq / 128 / 1000)` kbit/s. */
  function BitrateKbps(nbytes: int, freq: int): (r: int)
  {
    ((nbytes * 8 * freq) as real / 128.0 / 1000.0).Floor
  }

  /** The displayed bitrate is the frame's bit rate divided by 128000, rounded down. */
  lemma BitrateKbpsExact(nbytes: int, freq: int)
    ensures BitrateKbps(nbytes, freq) == nbytes * 8 * freq / 128000
  {
    var x := (nbytes * 8 * freq) as real;
    assert x / 128.0 / 1000.0 == x / 128000 as real;
    FloorDiv(nbytes * 8 * freq, 128000);
  }

  /** One payload byte: `floor((x + 1) * 127.5)` clamped to 0..255. */
  function Quantise(x: real): (v: byte)
    ensures x <= -1.0 ==> v == 0
    ensures x >= 1.0 ==> v == 255
  {
    var f := ((x + 1.0) * 127.5).Floor;
    if f < 0 then 0 else if f > 255 then 255 else f as byte
  }

  /** Quantisation keeps the order of the coefficients. */
  lemma QuantiseMonotone(x: real, y: real)
    requires x <= y
    ensures Quantise(x) <= Quantise(y)
  {
  }

  /** `readInt16LE`: two bytes, low first, as a two's-complement 16-bit value. */
  function Int16LE(lo: byte, hi: byte): (v: int16)
    ensures v as int % 65536 == (lo as int + 256 * hi as int) % 65536
  {
    var u := lo as int + 256 * hi as int;
    if u >= 32768 then (u - 65536) as int16 else u as int16
  }

  /** The number of bytes of the input the port looks at: at most one block. */
  function InputLimit(len: int): int {
    if len < PCM_BLOCK_BYTES then len else PCM_BLOCK_BYTES
  }

  /** Sample pair `i` is read when its four bytes lie within the input limit. */
  predicate PairPresent(len: int, i: int) {
    4 * i + 4 <= InputLimit(len)
  }

  /** Channel `c`'s sample of pair `i`: read when present, silence otherwise. */
  function SampleAt(buf: seq<byte>, c: nat, i: nat): int16
    requires c < 2
  {
    if PairPresent(|buf|, i) then Int16LE(buf[4 * i + 2 * c], buf[4 * i + 2 * c + 1]) else 0
  }

  /** Channel `c`'s samples of the block. */
  function Samples(buf: seq<byte>, c: nat): (s: seq<int16>)
    requires c < 2
    ensures |s| == BLOCK
    ensures forall i :: 0 <= i < BLOCK && !PairPresent(|buf|, i) ==> s[i] == 0
  {
    seq(BLOCK, i requires 0 <= i < BLOCK => SampleAt(buf, c, i))
  }

  /**
   * The read position tracks the pairs read so far: while pairs remain
   * within the limit, the next one read is pair `i`; once one is missing,
   * so is every later one.
   */
  lemma NextPair(buf: seq<byte>, i: nat, pairs: nat)
    requires pairs <= i && (pairs == i || 4 * pairs >= InputLimit(|buf|) - 3)
    ensures 4 * pairs < InputLimit(|buf|) - 3 ==> pairs == i && PairPresent(|buf|, i)
    ensures 4 * pairs >= InputLimit(|buf|) - 3 ==> !PairPresent(|buf|, i)
  {
  }

  /** A window whose halves hold `history` and channel `c`'s samples is their concatenation. */
  lemma WindowFrom(w: seq<int16>, history: seq<int16>, buf: seq<byte>, c: nat)
    requires c < 2 && |w| == 2 * BLOCK && w[..BLOCK] == history
    requires forall k :: 0 <= k < BLOCK ==> w[k + BLOCK] == SampleAt(buf, c, k)
    ensures w == history + Samples(buf, c)
  {
    assert w[BLOCK..] == Samples(buf, c) by {
      forall k | 0 <= k < BLOCK ensures w[BLOCK..][k] == Samples(buf, c)[k] {
        assert w[BLOCK..][k] == w[k + BLOCK];
      }
    }
    assert w == w[..BLOCK] + w[BLOCK..];
  }

  /** A block-long sequence holding channel `c`'s samples is `Samples(buf, c)`. */
  lemma TailOf(t: seq<int16>, buf: seq<byte>, c: nat)
    requires c < 2 && |t| == BLOCK
    requires forall k :: 0 <= k < BLOCK ==> t[k] == SampleAt(buf, c, k)
    ensures t == Samples(buf, c)
  {
  }

  /** A full block of 512 bytes or more leaves no pair silent; a buffer shorter than 4 bytes leaves all. */
  lemma SamplesCoverage(len: int, i: int)
    requires 0 <= i < BLOCK
    ensures len >= PCM_BLOCK_BYTES ==> PairPresent(len, i)
    ensures len < 4 ==> !PairPresent(len, i)
  {
  }

  /**
   * The frame the port returns for a non-empty buffer: header, a zero byte 3,
   * then left and right coefficients alternately from byte 4 until the frame
   * or the 128 coefficient pairs run out, then zeros.
   */
  function PortFrame(nbytes: int, header: byte, winL: seq<int16>, winR: seq<int16>,
                     coef: (seq<int16>, int) -> real): (r: seq<byte>)
    requires 4 <= nbytes
    ensures |r| == nbytes
  {
    seq(nbytes, p requires 0 <= p < nbytes =>
      if p == 0 then SYNC
      else if p == 1 then header
      else if p == 2 then (nbytes % 256) as byte
      else if 4 <= p < PAYLOAD_END then
        (if (p - 4) % 2 == 0 then Quantise(coef(winL, (p - 4) / 2)) else Quantise(coef(winR, (p - 4) / 2)))
      else 0)
  }

  /** The port's frames share the native header layout. */
  lemma PortFrameHeader(nbytes: int, freq: int, channelMode: int, winL: seq<int16>, winR: seq<int16>,
                        coef: (seq<int16>, int) -> real)
    requires 4 <= nbytes
    ensures ParseHeader(PortFrame(nbytes, HeaderByte(freq, channelMode), winL, winR, coef))
            == Wrappers.Some((SfIndex(freq), channelMode % 8, nbytes % 256))
  {
    HeaderByteFields(freq, channelMode);
  }

  /** Frames of more than 260 bytes end in zero padding; no coefficient is written twice. */
  lemma PortFramePadding(nbytes: int, header: byte, winL: seq<int16>, winR: seq<int16>,
                         coef: (seq<int16>, int) -> real, p: int)
    requires 4 <= nbytes && PAYLOAD_END <= p < nbytes
    ensures PortFrame(nbytes, header, winL, winR, coef)[p] == 0
    ensures PortFrame(nbytes, header, winL, winR, coef)[3] == 0
  {
  }

  class Encoder {
    const mtu: int
    const eqmid: int
    const channelMode: int
    const samplingFreq: int
    /** The frame size fixed at construction. */
    const nbytes: int
    /** The overlap tails, updated in place by every non-empty encode. */
    const prevL: array<int16>
    const prevR: array<int16>

    ghost predicate Valid()
      reads this
    {
      prevL.Length == BLOCK && prevR.Length == BLOCK && prevL != prevR
      && nbytes == FrameBytes(eqmid, samplingFreq)
    }

    /** `new LdacEncoderJS(mtu, eqmid, channel_mode, fmt, sampling_freq)`; `fmt` is ignored. */
    constructor (mtu: int, eqmid: int, channelMode: int, fmt: int, samplingFreq: int)
      ensures Valid() && fresh(prevL) && fresh(prevR)
      ensures this.mtu == (if mtu == 0 then DEFAULT_MTU else mtu)
      ensures this.eqmid == eqmid && this.channelMode == channelMode && this.samplingFreq == samplingFreq
      ensures MIN_FRAME_BYTES <= nbytes <= MAX_FRAME_BYTES
      ensures prevL[..] == seq(BLOCK, _ => 0) && prevR[..] == seq(BLOCK, _ => 0)
    {
      this.mtu := if mtu == 0 then DEFAULT_MTU else mtu;
      this.eqmid := eqmid;
      this.channelMode := channelMode;
      this.samplingFreq := samplingFreq;
      prevL := new int16[BLOCK](_ => 0);
      prevR := new int16[BLOCK](_ => 0);
      var targetBps := 330000;
      if eqmid == EQMID_HQ {
        targetBps := 990000;
      } else if eqmid == EQMID_SQ {
        targetBps := 660000;
      }
      var n: int;
      if samplingFreq == 0 {
        n := MAX_FRAME_BYTES;
      } else {
        n := ((targetBps * 128) as real / (8 * samplingFreq) as real).Floor;
        if n > MAX_FRAME_BYTES {
          n := MAX_FRAME_BYTES;
        }
      }
      if n < MIN_FRAME_BYTES {
        n := MIN_FRAME_BYTES;
      }
      nbytes := n;
    }

    /** `getBitrate`: the displayed bitrate in kbit/s. */
    function GetBitrate(): (r: int)
      reads this
      ensures r == nbytes * 8 * samplingFreq / 128000
    {
      BitrateKbpsExact(nbytes, samplingFreq);
      BitrateKbps(nbytes, samplingFreq)
    }

    /**
     * `encode(buffer)`: an empty frame for a missing or empty buffer;
     * otherwise a fresh frame of `nbytes` bytes, with both tails replaced
     * by the block's samples.
     */
    method Encode(buffer: array?<byte>, coef: (seq<int16>, int) -> real) returns (output: array<byte>)
      requires Valid()
      modifies prevL, prevR
      ensures fresh(output)
      ensures buffer == null || buffer.Length == 0 ==>
        (output.Length == 0 && unchanged(prevL) && unchanged(prevR))
      ensures buffer != null && buffer.Length > 0 ==>
        (output[..] == PortFrame(nbytes, HeaderByte(samplingFreq, channelMode),
                                 old(prevL[..]) + Samples(buffer[..], 0), old(prevR[..]) + Samples(buffer[..], 1), coef)
         && prevL[..] == Samples(buffer[..], 0) && prevR[..] == Samples(buffer[..], 1))
    {
      if buffer == null || buffer.Length == 0 {
        output := new byte[0];
        return;
      }
      output := new byte[nbytes](_ => 0);
      output[0] := SYNC;
      output[1] := HeaderByte(samplingFreq, channelMode);
      output[2] := (nbytes % 256) as byte;

      var leftCh, rightCh := LoadBlock(buffer);
      WritePayload(output, leftCh, rightCh, coef);
    }

    /** "Load previous tail": the first halves of both windows become the saved tails. */
    static method LoadHistory(leftCh: array<int16>, rightCh: array<int16>, prevL: array<int16>, prevR: array<int16>)
      requires leftCh.Length == rightCh.Length == 2 * BLOCK && prevL.Length == prevR.Length == BLOCK
      requires leftCh != rightCh
      modifies leftCh, rightCh
      ensures leftCh[..BLOCK] == prevL[..] && rightCh[..BLOCK] == prevR[..]
    {
      for i := 0 to BLOCK
        invariant forall k :: 0 <= k < i ==> leftCh[k] == prevL[k] && rightCh[k] == prevR[k]
      {
        leftCh[i] := prevL[i];
        rightCh[i] := prevR[i];
      }
    }

    /**
     * "Load new data and update tail": the second halves of both windows,
     * and both saved tails, become the block's samples.
     */
    static method LoadSamples(buffer: array<byte>, leftCh: array<int16>, rightCh: array<int16>,
                              prevL: array<int16>, prevR: array<int16>)
      requires leftCh.Length == rightCh.Length == 2 * BLOCK && prevL.Length == prevR.Length == BLOCK
      requires leftCh != rightCh && prevL != prevR
      modifies leftCh, rightCh, prevL, prevR
      ensures leftCh[..] == old(leftCh[..BLOCK]) + Samples(buffer[..], 0)
      ensures rightCh[..] == old(rightCh[..BLOCK]) + Samples(buffer[..], 1)
      ensures prevL[..] == Samples(buffer[..], 0) && prevR[..] == Samples(buffer[..], 1)
    {
      var inputLimit := InputLimit(buffer.Length);
      ghost var buf, historyL, historyR := buffer[..], leftCh[..BLOCK], rightCh[..BLOCK];
      var j := 0;
      ghost var pairs := 0;
      for i := 0 to BLOCK
        invariant j == 4 * pairs && pairs <= i && (pairs == i || j >= inputLimit - 3)
        invariant leftCh[..BLOCK] == historyL && rightCh[..BLOCK] == historyR
        invariant forall k :: 0 <= k < i ==> leftCh[k + BLOCK] == SampleAt(buf, 0, k) && rightCh[k + BLOCK] == SampleAt(buf, 1, k)
        invariant forall k :: 0 <= k < i ==> prevL[k] == SampleAt(buf, 0, k) && prevR[k] == SampleAt(buf, 1, k)
      {
        NextPair(buf, i, pairs);
        var left, right := 0, 0;
        if j < inputLimit - 3 {
          left := Int16LE(buffer[j], buffer[j + 1]);
          right := Int16LE(buffer[j + 2], buffer[j + 3]);
          j := j + 4;
          pairs := pairs + 1;
        }
        assert left == SampleAt(buf, 0, i) && right == SampleAt(buf, 1, i);
        leftCh[i + BLOCK] := left;
        rightCh[i + BLOCK] := right;
        prevL[i] := left;
        prevR[i] := right;
      }
      WindowFrom(leftCh[..], historyL, buf, 0);
      WindowFrom(rightCh[..], historyR, buf, 1);
      TailOf(prevL[..], buf, 0);
      TailOf(prevR[..], buf, 1);
    }

    /** Step 2 of `encode`: both 256-sample windows, and the tails replaced. */
    method LoadBlock(buffer: array<byte>) returns (leftCh: array<int16>, rightCh: array<int16>)
      requires Valid()
      modifies prevL, prevR
      ensures fresh(leftCh) && fresh(rightCh)
      ensures leftCh[..] == old(prevL[..]) + Samples(buffer[..], 0)
      ensures rightCh[..] == old(prevR[..]) + Samples(buffer[..], 1)
      ensures prevL[..] == Samples(buffer[..], 0) && prevR[..] == Samples(buffer[..], 1)
    {
      leftCh := new int16[2 * BLOCK];
      rightCh := new int16[2 * BLOCK];
      LoadHistory(leftCh, rightCh, prevL, prevR);
      LoadSamples(buffer, leftCh, rightCh, prevL, prevR);
    }

    /** Step 4 of `encode`: coefficients alternately from byte 4, stopping at the frame's end. */
    method WritePayload(output: array<byte>, leftCh: array<int16>, rightCh: array<int16>,
                        coef: (seq<int16>, int) -> real)
      requires 4 <= output.Length
      requires output[0] == SYNC && output[2] == (output.Length % 256) as byte
      requires forall p :: 3 <= p < output.Length ==> output[p] == 0
      modifies output
      ensures output[..] == PortFrame(output.Length, old(output[1]), leftCh[..], rightCh[..], coef)
    {
      ghost var target := PortFrame(output.Length, output[1], leftCh[..], rightCh[..], coef);
      var outPos := 4;
      for k := 0 to BLOCK
        invariant outPos == 4 + 2 * k && outPos <= output.Length
        invariant forall p :: 0 <= p < outPos ==> output[p] == target[p]
        invariant forall p :: outPos <= p < output.Length ==> output[p] == 0
      {
        if outPos >= output.Length {
          break;
        }
        output[outPos] := Quantise(coef(leftCh[..], k));
        outPos := outPos + 1;
        if outPos >= output.Length {
          break;
        }
        output[outPos] := Quantise(coef(rightCh[..], k));
        outPos := outPos + 1;
      }
      assert forall p :: 0 <= p < output.Length ==> output[p] == target[p];
    }
  }

  /**
   * `verifySonyAOSPCore`: a 96 kHz, dual-channel, HQ encoder reports
   * 990 kbit/s, and encoding a silent block yields a frame opening with
   * 0xAA, 0x61. It passes whatever the transform.
   */
  method VerifySonyAOSPCore(coef: (seq<int16>, int) -> real) returns (ok: bool)
    ensures ok
  {
    var testEncoder := new Encoder(679, EQMID_HQ, CHANNEL_MODE_DUAL_CHANNEL, 0, 96000);
    FrameBytesTable();
    var bitrate := testEncoder.GetBitrate();
    if bitrate != 990 {
      return false;
    }
    var dummyBuffer := new byte[PCM_BLOCK_BYTES](_ => 0);
    var output := testEncoder.Encode(dummyBuffer, coef);
    HeaderByteExample();
    if output.Length == 0 || output[0] != SYNC {
      return false;
    }
    if output[1] != 0x61 {
      return false;
    }
    return true;
  }
}
