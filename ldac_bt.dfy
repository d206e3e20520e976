/**
 * The native LDAC-style block encoder (native/ldac/src/ldacBT.c with the
 * constants of native/ldac/src/ldacBT.h).
 *
 * A handle is a heap object whose fields the encoder updates in place: the
 * configuration stored by `InitHandleEncode`, an error slot, a frame counter
 * and the per-channel overlap tail `prev` (two rows of 128 samples). A null
 * handle is a `Handle?` that is `null`.
 *
 * The tail holds 16-bit samples. The C code stores `sample / 32768.0f`,
 * which is exact in single precision, so keeping the sample itself loses
 * nothing. The floating-point MDCT and the float-to-byte cast of the payload
 * are not modelled: `quant(window, k)` stands for the byte that the C code
 * stores for coefficient `k` of the left channel's transformed window.
 */
module LdacBT {

  import Wrappers

  newtype byte = x: int | 0 <= x < 256
  newtype int16 = x: int | -32768 <= x < 32768

  // Error codes (ldacBT.h)
  const ERR_NONE := 0
  const ERR_NON_FATAL := 1
  const ERR_FATAL := 2
  const ERR_ILL_PARAM := 3
  const ERR_ILL_VERSION := 4

  // Sample formats (ldacBT.h)
  const SMPL_FMT_S16 := 1
  const SMPL_FMT_S24 := 2
  const SMPL_FMT_S32 := 3
  const SMPL_FMT_F32 := 4

  // Channel modes (ldacBT.h)
  const CHANNEL_MODE_STEREO := 0
  const CHANNEL_MODE_DUAL_CHANNEL := 1
  const CHANNEL_MODE_MONO := 2

  // Quality modes (ldacBT.h)
  const EQMID_HQ := 0
  const EQMID_SQ := 1
  const EQMID_MQ := 2

  /** The sync byte that opens every frame. */
  const SYNC: byte := 0xAA
  /** Bytes of PCM one encode call consumes: 128 stereo 16-bit sample pairs. */
  const PCM_BLOCK_BYTES := 512
  /** Samples per channel in one block, and in the overlap tail. */
  const BLOCK := 128

  /** The supported sampling frequencies, indexed by the header's frequency field (`ga_smp_freq`). */
  const SAMPLING_FREQS: seq<int> := [44100, 48000, 88200, 96000]

  // ---------------------------------------------------------------------------
  // Quality table and header fields
  // ---------------------------------------------------------------------------

  /** Frame size in bytes, header included, for a quality mode: one table for encode and bitrate. */
  function FrameSize(eqmid: int): int {
    if eqmid == EQMID_HQ then 330
    else if eqmid == EQMID_SQ then 220
    else 110
  }

  lemma FrameSizeTable(eqmid: int)
    ensures FrameSize(EQMID_HQ) == 330 && FrameSize(EQMID_SQ) == 220 && FrameSize(EQMID_MQ) == 110
    ensures eqmid != EQMID_HQ && eqmid != EQMID_SQ ==> FrameSize(eqmid) == 110
  {
  }

  /** The header's sampling-frequency index: 1, 2, 3 for 48000, 88200, 96000 Hz and 0 for anything else. */
  function SfIndex(freq: int): int {
    if freq == 48000 then 1
    else if freq == 88200 then 2
    else if freq == 96000 then 3
    else 0
  }

  /** Header byte 1: `(sf_idx << 5) | (channel_mode & 0x7)`, where `& 7` keeps the low three bits of a two's-complement int. */
  function HeaderByte(freq: int, channelMode: int): byte {
    var bits: bv8 := ((SfIndex(freq) as bv8) << 5) | ((channelMode % 8) as bv8);
    bits as int as byte
  }

  /** The header byte carries the frequency index in bits 5-7 and the channel mode's low three bits in bits 0-2. */
  lemma HeaderByteFields(freq: int, channelMode: int)
    ensures HeaderByte(freq, channelMode) as int / 32 == SfIndex(freq)
    ensures HeaderByte(freq, channelMode) as int % 8 == channelMode % 8
    ensures HeaderByte(freq, channelMode) as int / 8 % 4 == 0
  {
    var s := SfIndex(freq);
    var m := channelMode % 8;
    var bits: bv8 := ((s as bv8) << 5) | (m as bv8);
    ShiftOr(s as bv8, m as bv8);
    assert bits as int == s * 32 + m;
  }

  /** Below 4 and below 8, shifting the first five places and or-ing the second is adding them. */
  lemma ShiftOr(s: bv8, m: bv8)
    requires s < 4 && m < 8
    ensures (s << 5) | m == s * 32 + m
  {
  }

  /** Within the supported sets, byte 1 decodes back to the exact sampling frequency and channel mode. */
  lemma HeaderByteRoundTrip(idx: nat, channelMode: int)
    requires idx < 4 && 0 <= channelMode < 8
    ensures var b := HeaderByte(SAMPLING_FREQS[idx], channelMode);
      SAMPLING_FREQS[b as int / 32] == SAMPLING_FREQS[idx] && b as int % 8 == channelMode
  {
    HeaderByteFields(SAMPLING_FREQS[idx], channelMode);
  }

  /** The sampling-frequency test case of the port's self check: 96 kHz, dual channel gives 0x61. */
  lemma HeaderByteExample()
    ensures HeaderByte(96000, CHANNEL_MODE_DUAL_CHANNEL) == 0x61
  {
    HeaderByteFields(96000, CHANNEL_MODE_DUAL_CHANNEL);
  }

  /** C's `/` on int: truncation toward zero. */
  function CDiv(a: int, b: int): int
    requires b > 0
  {
    if a >= 0 then a / b else -((-a) / b)
  }

  /** `(framesize * 8 * sampling_freq) / 128` in C arithmetic. */
  function BitrateOf(eqmid: int, freq: int): int {
    CDiv(FrameSize(eqmid) * 8 * freq, 128)
  }

  /** The bitrates of the three quality modes at the four supported frequencies. */
  lemma BitrateTable()
    ensures BitrateOf(EQMID_HQ, 44100) == 909562 && BitrateOf(EQMID_HQ, 48000) == 990000
    ensures BitrateOf(EQMID_HQ, 96000) == 1980000 && BitrateOf(EQMID_SQ, 48000) == 660000
    ensures BitrateOf(EQMID_MQ, 48000) == 330000 && BitrateOf(EQMID_MQ, 44100) == 303187
  {
  }

  /** For a non-negative frequency the bitrate is the frame's bits per 128-sample block times blocks per second, rounded down. */
  lemma BitrateBounds(eqmid: int, freq: int)
    requires freq >= 0
    ensures var n := FrameSize(eqmid);
      BitrateOf(eqmid, freq) * 128 <= n * 8 * freq < (BitrateOf(eqmid, freq) + 1) * 128
  {
  }

  // ---------------------------------------------------------------------------
  // Frames
  // ---------------------------------------------------------------------------

  /**
   * The 256-sample analysis window of channel `c`: the retained tail,
   * then the block's samples of that channel, de-interleaved.
   */
  function Window(tail: seq<int16>, pcm: seq<int16>, c: nat): (w: seq<int16>)
    requires |tail| == BLOCK && |pcm| >= 2 * BLOCK && c < 2
    ensures |w| == 2 * BLOCK
  {
    tail + ChannelOf(pcm, c)
  }

  /** The new tail of channel `c` after a block: that channel's samples of the block, in order. */
  function ChannelOf(pcm: seq<int16>, c: nat): (s: seq<int16>)
    requires |pcm| >= 2 * BLOCK && c < 2
    ensures |s| == BLOCK
  {
    seq(BLOCK, i requires 0 <= i < BLOCK => pcm[2 * i + c])
  }

  /** A window holding `tail` and then channel `c`'s samples is `Window(tail, pcm, c)`. */
  lemma WindowOf(w: seq<int16>, tail: seq<int16>, pcm: seq<int16>, c: nat)
    requires |w| == 2 * BLOCK && |tail| == BLOCK && |pcm| >= 2 * BLOCK && c < 2
    requires forall k :: 0 <= k < BLOCK ==> w[k] == tail[k] && w[k + BLOCK] == pcm[2 * k + c]
    ensures w == Window(tail, pcm, c)
  {
    assert w[..BLOCK] == tail;
    assert w[BLOCK..] == ChannelOf(pcm, c) by {
      forall k | 0 <= k < BLOCK ensures w[BLOCK..][k] == ChannelOf(pcm, c)[k] {
        assert w[BLOCK..][k] == w[k + BLOCK];
      }
    }
    assert w == w[..BLOCK] + w[BLOCK..];
  }

  /**
   * The caller's stream buffer after a successful encode of `nbytes`:
   * sync byte, header byte and length byte (`nbytes` kept to its low eight
   * bits by the `unsigned char` store) at 0..2, byte 3 as before, payload
   * bytes 4..nbytes-1 from the left window's coefficients
   * (coefficient `i % 128` at index `i`), and everything else as before.
   */
  function EncodedStream(before: seq<byte>, nbytes: int, header: byte, winL: seq<int16>,
                         quant: (seq<int16>, int) -> byte): (r: seq<byte>)
    requires 4 <= nbytes <= |before|
    ensures |r| == |before|
  {
    seq(|before|, i requires 0 <= i < |before| =>
      if i == 0 then SYNC
      else if i == 1 then header
      else if i == 2 then (nbytes % 256) as byte
      else if 4 <= i < nbytes then quant(winL, i % BLOCK)
      else before[i])
  }

  /** What a receiver reads from the first three bytes: frequency index, channel mode, length byte. */
  function ParseHeader(s: seq<byte>): Wrappers.Option<(int, int, int)>
    requires |s| >= 3
  {
    if s[0] != SYNC then Wrappers.None
    else Wrappers.Some((s[1] as int / 32, s[1] as int % 8, s[2] as int))
  }

  /** The header of an encoded frame parses back to the configuration and the frame size modulo 256. */
  lemma EncodedStreamHeader(before: seq<byte>, nbytes: int, freq: int, channelMode: int,
                            winL: seq<int16>, quant: (seq<int16>, int) -> byte)
    requires 4 <= nbytes <= |before|
    ensures ParseHeader(EncodedStream(before, nbytes, HeaderByte(freq, channelMode), winL, quant))
            == Wrappers.Some((SfIndex(freq), channelMode % 8, nbytes % 256))
  {
    HeaderByteFields(freq, channelMode);
  }

  /** Exactly bytes 0..2 and 4..nbytes-1 are written; the length byte of an HQ frame is 330 mod 256 = 74. */
  lemma EncodedStreamFootprint(before: seq<byte>, nbytes: int, header: byte, winL: seq<int16>,
                               quant: (seq<int16>, int) -> byte, i: nat)
    requires 4 <= nbytes <= |before| && i < |before|
    ensures (i == 3 || i >= nbytes) ==> EncodedStream(before, nbytes, header, winL, quant)[i] == before[i]
    ensures nbytes == 330 ==> EncodedStream(before, nbytes, header, winL, quant)[2] == 74
  {
  }

  // ---------------------------------------------------------------------------
  // The handle
  // ---------------------------------------------------------------------------

  class Handle {
    var mtu: int
    var eqmid: int
    var channelMode: int
    var fmt: int
    var samplingFreq: int
    var errorCode: int
    var frameCount: int
    /** `prev_samples[2][128]`: the overlap tail of each channel. */
    const prev: array2<int16>

    ghost predicate Valid()
      reads this
    {
      prev.Length0 == 2 && prev.Length1 == BLOCK
    }

    /** The current tail of channel `c`. */
    ghost function Tail(c: nat): (t: seq<int16>)
      reads this, prev
      requires Valid() && c < 2
      ensures |t| == BLOCK
    {
      seq(BLOCK, i requires 0 <= i < BLOCK reads prev => prev[c, i])
    }

    /** `ldacBT_get_handle`: a zero-filled handle (calloc), with silent overlap tails. */
    constructor ()
      ensures Valid() && fresh(prev)
      ensures mtu == 0 && eqmid == 0 && channelMode == 0 && fmt == 0 && samplingFreq == 0
      ensures errorCode == ERR_NONE && frameCount == 0
      ensures forall c, i :: 0 <= c < 2 && 0 <= i < BLOCK ==> prev[c, i] == 0
    {
      mtu, eqmid, channelMode, fmt, samplingFreq := 0, 0, 0, 0, 0;
      errorCode, frameCount := 0, 0;
      prev := new int16[2, BLOCK]((c, i) => 0);
    }
  }

  /**
   * `ldacBT_init_handle_encode`: stores the five settings verbatim, resets
   * the frame counter and does no range checking; the tail is not touched.
   */
  method InitHandleEncode(h: Handle?, mtu: int, eqmid: int, channelMode: int, fmt: int, samplingFreq: int)
    returns (ret: int)
    modifies h
    ensures h == null ==> ret == ERR_FATAL
    ensures h != null ==>
      (ret == ERR_NONE && h.mtu == mtu && h.eqmid == eqmid && h.channelMode == channelMode
       && h.fmt == fmt && h.samplingFreq == samplingFreq
       && h.frameCount == 0 && h.errorCode == old(h.errorCode) && unchanged(h.prev))
  {
    if h == null {
      return ERR_FATAL;
    }
    h.mtu := mtu;
    h.eqmid := eqmid;
    h.channelMode := channelMode;
    h.fmt := fmt;
    h.samplingFreq := samplingFreq;
    h.frameCount := 0;
    return ERR_NONE;
  }

  /**
   * `ldacBT_encode`. The out-parameters `*pcm_used`, `*stream_sz` and
   * `*frame_num` come in as `pcmUsed`, `streamSz` and `frameNum` and go out
   * primed; `*stream_sz` is also the capacity of `stream` on entry.
   */
  method Encode(h: Handle?, pcm: array<int16>, pcmUsed: int, stream: array<byte>, streamSz: int, frameNum: int,
                quant: (seq<int16>, int) -> byte)
    returns (ret: int, pcmUsed': int, streamSz': int, frameNum': int)
    requires h != null ==> h.Valid()
    requires pcm.Length >= 2 * BLOCK && streamSz <= stream.Length
    modifies h, stream, if h != null then {h.prev} else {}
    // a null handle is a fatal error
    ensures h == null ==>
      (ret == ERR_FATAL && unchanged(stream) && pcmUsed' == pcmUsed && streamSz' == streamSz && frameNum' == frameNum)
    // too small an output buffer is rejected before anything is written
    ensures h != null && streamSz < FrameSize(h.eqmid) ==>
      (ret == ERR_ILL_PARAM && unchanged(h) && unchanged(h.prev) && unchanged(stream)
       && pcmUsed' == pcmUsed && streamSz' == streamSz && frameNum' == frameNum)
    // success: one frame written, the tail replaced by this block, the counter bumped
    ensures h != null && streamSz >= FrameSize(h.eqmid) ==>
      (ret == ERR_NONE && pcmUsed' == PCM_BLOCK_BYTES && streamSz' == FrameSize(h.eqmid) && frameNum' == 1
      && stream[..] == EncodedStream(old(stream[..]), FrameSize(h.eqmid), HeaderByte(h.samplingFreq, h.channelMode),
                                     Window(old(h.Tail(0)), pcm[..], 0), quant)
      && h.Tail(0) == ChannelOf(pcm[..], 0) && h.Tail(1) == ChannelOf(pcm[..], 1)
      && h.frameCount == old(h.frameCount) + 1
      && h.mtu == old(h.mtu) && h.eqmid == old(h.eqmid) && h.channelMode == old(h.channelMode)
      && h.fmt == old(h.fmt) && h.samplingFreq == old(h.samplingFreq) && h.errorCode == old(h.errorCode))
  {
    if h == null {
      return ERR_FATAL, pcmUsed, streamSz, frameNum;
    }

    // frame size from the quality mode, and the capacity check
    var nbytes := FrameSize(h.eqmid);
    if streamSz < nbytes {
      return ERR_ILL_PARAM, pcmUsed, streamSz, frameNum;
    }
    pcmUsed' := PCM_BLOCK_BYTES;

    ghost var before := stream[..];
    var header := HeaderByte(h.samplingFreq, h.channelMode);
    WriteHeader(stream, header, nbytes);
    var leftCh, rightCh := AnalysisWindows(h, pcm);
    WritePayload(stream, nbytes, leftCh, quant);
    assert stream[..] == EncodedStream(before, nbytes, header, leftCh[..], quant);

    streamSz' := nbytes;
    frameNum' := 1;
    h.frameCount := h.frameCount + 1;
    ret := ERR_NONE;
  }

  /** Sync, header and length bytes (ldacBT.c, the three header stores). */
  method WriteHeader(stream: array<byte>, header: byte, nbytes: int)
    requires stream.Length >= 3
    modifies stream
    ensures stream[..] == old(stream[..])[0 := SYNC][1 := header][2 := (nbytes % 256) as byte]
  {
    stream[0] := SYNC;
    stream[1] := header;
    stream[2] := (nbytes % 256) as byte;
  }

  /**
   * Both channels' 256-sample windows (the old tail, then the block's
   * samples of that channel), with each tail replaced by the block's samples.
   */
  method AnalysisWindows(h: Handle, pcm: array<int16>) returns (leftCh: array<int16>, rightCh: array<int16>)
    requires h.Valid() && pcm.Length >= 2 * BLOCK
    modifies h.prev
    ensures fresh(leftCh) && fresh(rightCh)
    ensures leftCh[..] == Window(old(h.Tail(0)), pcm[..], 0) && rightCh[..] == Window(old(h.Tail(1)), pcm[..], 1)
    ensures h.Tail(0) == ChannelOf(pcm[..], 0) && h.Tail(1) == ChannelOf(pcm[..], 1)
  {
    ghost var tailL, tailR := h.Tail(0), h.Tail(1);
    leftCh := new int16[2 * BLOCK];
    rightCh := new int16[2 * BLOCK];
    for i := 0 to BLOCK
      invariant forall k :: 0 <= k < i ==> leftCh[k] == tailL[k] && leftCh[k + BLOCK] == pcm[2 * k]
      invariant forall k :: 0 <= k < i ==> rightCh[k] == tailR[k] && rightCh[k + BLOCK] == pcm[2 * k + 1]
      invariant forall k :: 0 <= k < i ==> h.prev[0, k] == pcm[2 * k] && h.prev[1, k] == pcm[2 * k + 1]
      invariant forall k :: i <= k < BLOCK ==> h.prev[0, k] == tailL[k] && h.prev[1, k] == tailR[k]
    {
      var left, right := pcm[2 * i], pcm[2 * i + 1];
      leftCh[i] := h.prev[0, i];
      leftCh[i + BLOCK] := left;
      rightCh[i] := h.prev[1, i];
      rightCh[i + BLOCK] := right;
      h.prev[0, i] := left;
      h.prev[1, i] := right;
    }
    WindowOf(leftCh[..], tailL, pcm[..], 0);
    WindowOf(rightCh[..], tailR, pcm[..], 1);
  }

  /** Payload bytes 4..nbytes-1 from the left window; byte 3 is never written. */
  method WritePayload(stream: array<byte>, nbytes: int, leftCh: array<int16>, quant: (seq<int16>, int) -> byte)
    requires 4 <= nbytes <= stream.Length
    modifies stream
    ensures forall k :: 0 <= k < stream.Length ==>
      stream[k] == (if 4 <= k < nbytes then quant(leftCh[..], k % BLOCK) else old(stream[k]))
  {
    for i := 4 to nbytes
      invariant forall k :: 0 <= k < stream.Length ==>
        stream[k] == (if 4 <= k < i then quant(leftCh[..], k % BLOCK) else old(stream[k]))
    {
      stream[i] := quant(leftCh[..], i % BLOCK);
    }
  }

  /** `ldacBT_get_error_code`: 0 for a null handle, the stored error slot otherwise. */
  function GetErrorCode(h: Handle?): (r: int)
    reads h
    ensures h == null ==> r == ERR_NONE
    ensures h != null ==> r == h.errorCode
  {
    if h != null then h.errorCode else 0
  }

  /** `ldacBT_get_sampling_freq`: 0 for a null handle, the configured frequency otherwise. */
  function GetSamplingFreq(h: Handle?): (r: int)
    reads h
    ensures h == null ==> r == 0
    ensures h != null ==> r == h.samplingFreq
  {
    if h != null then h.samplingFreq else 0
  }

  /** `ldacBT_get_bitrate`: 0 for a null handle; otherwise the bitrate of the encoder's own frame size. */
  function GetBitrate(h: Handle?): (r: int)
    reads h
    ensures h == null ==> r == 0
    ensures h != null ==> r == BitrateOf(h.eqmid, h.samplingFreq)
  {
    if h == null then 0
    else
      var framesize := FrameSize(h.eqmid);
      CDiv(framesize * 8 * h.samplingFreq, 128)
  }
}
