/**
 Positioning a playback stream and reading the position back, in milliseconds
 (cae/cae_jack.cpp, cae/cae_alsa.cpp, lib/rdwavefile.cpp): what rounding to whole frames costs,
 and up to which position 32 bits are enough.
 */
module SeekPosition {
  import opened Arithmetic
  import opened JackStream

  /** The frame that a position in a PCM file falls in: bytes first, then whole blocks. */
  function PcmOffset(rate: nat, align: nat, ms: nat): nat
    requires align > 0
  {
    Product(Product(rate, align), ms) / 1000 / align
  }

  /** The frame offset kept for an MPEG file: whole MPEG frames of 1152. */
  function MpegOffset(rate: nat, ms: nat): nat {
    Product(rate, ms) / 1000 / 1152 * 1152
  }

  /** The byte offset sought in the file. */
  function PcmBytes(rate: nat, align: nat, ms: nat): nat
    requires align > 0
  {
    Product(PcmOffset(rate, align, ms), align)
  }

  function MpegBytes(rate: nat, align: nat, ms: nat): nat {
    Product(MpegOffset(rate, ms) / 1152, align)
  }

  /** The position reported when `consumed` more frames have been played. */
  function Reported(offset: nat, consumed: nat, rate: nat): nat
    requires rate > 0
  {
    1000 * (offset + consumed) / rate
  }

  /** The detour through bytes does not matter: the PCM offset is the exact one, rounded down. */
  lemma PcmOffsetExact(rate: nat, align: nat, ms: nat)
    requires align > 0
    ensures PcmOffset(rate, align, ms) == Product(rate, ms) / 1000
  {
    ProductAssociates(rate, align, ms);
    ProductCommutes(align, ms);
    ProductAssociates(rate, ms, align);
    ScaledDivision(Product(rate, ms), align);
  }

  lemma ScaledDivision(x: nat, align: nat)
    requires align > 0
    ensures Product(x, align) / 1000 / align == x / 1000
  {
    var f, r := x / 1000, x % 1000;
    assert x == 1000 * f + r;
    ProductDistributes(1000 * f, r, align);
    ProductAssociates(1000, f, align);
    ProductGrows(r, 999, align);
    var q := Product(x, align) / 1000;
    assert Product(f, align) <= q < Product(f, align) + align;
    QuotientAtMost(q, align, f);
    QuotientAtLeast(q, align, f);
  }

  /** A frame offset short of the exact one by less than `slack` frames reads back late by
      nothing, and early by less than `slack` frames and one millisecond. */
  lemma ReadBack(rate: nat, ms: nat, offset: nat, slack: nat)
    requires rate > 0
    requires 1000 * offset <= Product(rate, ms) < 1000 * offset + 1000 * slack
    ensures Reported(offset, 0, rate) <= ms
    ensures Product(ms - Reported(offset, 0, rate), rate) < 1000 * slack + rate
    ensures Reported(offset, 0, rate) == ms <==> 1000 * offset == Product(rate, ms)
  {
    var q := Reported(offset, 0, rate);
    ProductCommutes(rate, ms);
    QuotientBounds(1000 * offset, rate);
    QuotientAtMost(1000 * offset, rate, ms);
    ProductDistributes(q, ms - q, rate);
    if 1000 * offset == Product(rate, ms) {
      QuotientAtLeast(1000 * offset, rate, ms);
    }
  }

  lemma LessThanTwo(n: nat, rate: nat)
    requires rate >= 1000 && Product(n, rate) < 1000 + rate
    ensures n <= 1
  {
    if n > 1 {
      ProductGrows(2, n, rate);
    }
  }

  /** PCM: what is read back is the position sought or, from 1000 frames a second up, one
      millisecond less; it is exact when the position falls on a frame. The byte offset is the
      frame offset in whole blocks. */
  lemma PcmSeekReport(rate: nat, align: nat, ms: nat)
    requires rate > 0 && align > 0
    ensures var offset := PcmOffset(rate, align, ms); var q := Reported(offset, 0, rate);
            && q <= ms && (rate >= 1000 ==> ms <= q + 1)
            && (q == ms <==> Product(rate, ms) % 1000 == 0)
            && PcmBytes(rate, align, ms) / align == offset && Product(offset, align) == PcmBytes(rate, align, ms)
  {
    PcmOffsetExact(rate, align, ms);
    var offset := PcmOffset(rate, align, ms);
    ReadBack(rate, ms, offset, 1);
    if rate >= 1000 {
      LessThanTwo(ms - Reported(offset, 0, rate), rate);
    }
    QuotientAtMost(PcmBytes(rate, align, ms), align, offset);
    QuotientAtLeast(PcmBytes(rate, align, ms), align, offset);
  }

  /** MPEG: what is read back is early by less than one MPEG frame and one millisecond. */
  lemma MpegSeekReport(rate: nat, align: nat, ms: nat)
    requires rate > 0 && align > 0
    ensures var offset := MpegOffset(rate, ms); var q := Reported(offset, 0, rate);
            && q <= ms && Product(ms - q, rate) < 1152000 + rate
            && (q == ms <==> Product(rate, ms) % 1152000 == 0)
            && offset % 1152 == 0 && MpegBytes(rate, align, ms) / align * 1152 == offset
  {
    var x := Product(rate, ms);
    var offset := MpegOffset(rate, ms);
    assert x / 1000 / 1152 == x / 1152000;
    ReadBack(rate, ms, offset, 1152);
    QuotientAtMost(MpegBytes(rate, align, ms), align, offset / 1152);
    QuotientAtLeast(MpegBytes(rate, align, ms), align, offset / 1152);
  }

  // ---------------------------------------------------------------- fields of 32 bits

  lemma {:induction false} ProductUpTo(rate: nat, ms: nat, last: nat)
    requires rate > 0
    ensures Product(rate, ms) <= last <==> ms <= last / rate
  {
    ProductCommutes(rate, ms);
    if Product(ms, rate) <= last {
      QuotientAtLeast(last, rate, ms);
    } else if ms <= last / rate {
      QuotientBounds(last, rate);
      ProductGrows(ms, last / rate, rate);
    }
  }

  /** The byte offset computed fits the `unsigned` that it is computed in. */
  predicate PcmInRange(rate: nat, align: nat, ms: nat) { Product(Product(rate, align), ms) / 1000 < WORD }

  /** The last position whose bytes, with the start of the data added, fit the `int` that the
      file is positioned by. */
  function LastSought(rate: nat, align: nat, dataStart: Offset, ms: nat): nat
    requires rate > 0 && align > 0 && ms > 0
  {
    (ms * ((WORD / 2 - 1 - dataStart) / align + 1) - 1) / rate
  }

  lemma {:induction false} BytesUpTo(frame: nat, align: nat, dataStart: Offset)
    requires align > 0
    ensures Product(frame, align) + dataStart < WORD / 2 <==> frame <= (WORD / 2 - 1 - dataStart) / align
  {
    ProductCommutes(frame, align);
    ProductUpTo(align, frame, WORD / 2 - 1 - dataStart);
  }

  /** The offset in bytes fits up to a last position, which the rate and the block size give. */
  lemma {:induction false} PcmInRangeExactly(rate: nat, align: nat, ms: nat)
    requires rate > 0 && align > 0
    ensures Product(rate, align) > 0
    ensures PcmInRange(rate, align, ms) <==> ms <= (1000 * WORD - 1) / Product(rate, align)
  {
    ProductGrows(1, rate, align);
    ProductUpTo(Product(rate, align), ms, 1000 * WORD - 1);
  }

  /** The bytes sought fit up to another one, before that. */
  lemma {:induction false} PcmSoughtExactly(rate: nat, align: nat, dataStart: Offset, ms: nat)
    requires rate > 0 && align > 0
    ensures PcmBytes(rate, align, ms) + dataStart < WORD / 2 <==> ms <= LastSought(rate, align, dataStart, 1000)
  {
    var q := (WORD / 2 - 1 - dataStart) / align;
    PcmOffsetExact(rate, align, ms);
    BytesUpTo(PcmOffset(rate, align, ms), align, dataStart);
    ThousandUpTo(Product(rate, ms), q);
    ProductUpTo(rate, ms, 1000 * (q + 1) - 1);
  }

  lemma {:induction false} ThousandUpTo(x: nat, q: nat)
    ensures x / 1000 <= q <==> x <= 1000 * (q + 1) - 1
  {
  }

  /** The frame computed fits its `unsigned`, in whole MPEG frames the `int` that it is kept in,
      and in bytes the one that the file is positioned by. */
  predicate MpegInRange(rate: nat, align: nat, dataStart: Offset, ms: nat) {
    && Product(rate, ms) / 1000 < WORD && MpegOffset(rate, ms) < WORD / 2
    && MpegBytes(rate, align, ms) + dataStart < WORD / 2
  }

  lemma {:induction false} MpegInRangeExactly(rate: nat, align: nat, dataStart: Offset, ms: nat)
    requires rate > 0 && align > 0
    ensures MpegInRange(rate, align, dataStart, ms) <==>
            ms <= (1000 * (1152 * 1864136) - 1) / rate && ms <= LastSought(rate, align, dataStart, 1152000)
  {
    var x := Product(rate, ms);
    ProductUpTo(rate, ms, 1000 * (1152 * 1864136) - 1);
    var q := (WORD / 2 - 1 - dataStart) / align;
    BytesUpTo(MpegOffset(rate, ms) / 1152, align, dataStart);
    assert MpegOffset(rate, ms) / 1152 == x / 1152000;
    assert x / 1152000 <= q <==> x <= 1152000 * (q + 1) - 1;
    ProductUpTo(rate, ms, 1152000 * (q + 1) - 1);
  }

  // ---------------------------------------------------------------- positioning a stream

  /** The frame kept is the one asked for exactly when the offset in bytes fits. */
  lemma {:induction false} KeptExactly(rate: nat, align: nat, ms: nat)
    requires 0 < align <= WORD
    ensures KeptFrame(rate, align, ms) == Product(rate, ms) / 1000 <==> PcmInRange(rate, align, ms)
  {
    PcmOffsetExact(rate, align, ms);
    var u := Product(Product(rate, align), ms) / 1000;
    if u >= WORD {
      QuotientBounds(u, align);
      QuotientBounds(u % WORD, align);
      if u / align == u % WORD / align {
        assert false;
      }
    }
  }

  /** A successful positioning of a stream reads the file on from the frame that it reports, as
      long as the bytes sought fit; otherwise from its beginning, or from where it was. */
  lemma {:induction false} StreamSeekReport(s: Stream, ms: nat)
    requires Valid(s) && SeekFrame(s, ms) <= |s.file| / s.channels
    ensures var t := Seek(s, ms); var bytes := Product(t.offset, 2 * s.channels);
            && (t.offset == Product(s.rate, ms) / 1000 <==> PcmInRange(s.rate, 2 * s.channels, ms))
            && t.start == (if bytes + s.dataStart < WORD / 2 then t.offset * s.channels
                           else if bytes < WORD / 2 then s.position else 0)
            && t.played == []
  {
    KeptExactly(s.rate, 2 * s.channels, ms);
  }

  /** The file is read on from the very frame asked for if and only if the position is not beyond
      the last one that fits, or the file was there already. */
  lemma {:induction false} StreamSeekExactly(s: Stream, ms: nat)
    requires Valid(s) && SeekFrame(s, ms) <= |s.file| / s.channels
    ensures var t := Seek(s, ms); var frame := Product(s.rate, ms) / 1000; var align := 2 * s.channels;
            t.offset == frame && t.start == frame * s.channels <==>
            ms <= LastSought(s.rate, align, s.dataStart, 1000) ||
            (PcmBytes(s.rate, align, ms) < WORD / 2 && s.position == frame * s.channels)
  {
    var align := 2 * s.channels;
    StreamSeekReport(s, ms);
    PcmSoughtExactly(s.rate, align, s.dataStart, ms);
    PcmOffsetExact(s.rate, align, ms);
    if PcmBytes(s.rate, align, ms) < WORD / 2 {
      SoughtInRange(s.rate, align, ms);
    } else {
      NotFromZero(Product(s.rate, ms) / 1000, s.channels);
    }
  }

  lemma {:induction false} NotFromZero(frame: nat, channels: nat)
    requires 0 < channels && Product(frame, 2 * channels) >= WORD / 2
    ensures frame * channels > 0
  {
    if frame > 0 {
      ProductMonotone(1, frame, channels);
    }
  }

  lemma {:induction false} SoughtInRange(rate: nat, align: nat, ms: nat)
    requires 0 < align < 65536 && PcmBytes(rate, align, ms) < WORD / 2
    ensures PcmInRange(rate, align, ms)
  {
    QuotientBounds(Product(Product(rate, align), ms) / 1000, align);
  }

  /** Three hours into a long file, 48000 frames a second: the position reported is that asked
      for, and the file is read from its beginning. */
  lemma {:induction false} LateSeekReadsBeginning(s: Stream, ms: nat)
    requires Valid(s) && s.rate == 48000 && s.channels == 2 && ms == 11184811
    requires |s.file| / s.channels >= 536870928
    ensures Seek(s, ms).offset == 536870928 == Product(s.rate, ms) / 1000 && Seek(s, ms).start == 0
  {
    assert Product(48000, 4) == 192000 && Product(192000, 11184811) == 2147483712000;
    assert Product(48000, 11184811) == 536870928000;
    StreamSeekReport(s, ms);
    assert Product(536870928, 4) == 2147483712;
  }

  // ---------------------------------------------------------------- positions while playing

  /** The position reported of a stream, by the frames that it has played. */
  function PositionOf(s: Stream): nat
    requires s.channels > 0 && s.rate > 0 && s.offset >= 0
  {
    Reported(s.offset, |s.played| / s.channels, s.rate)
  }

  lemma {:induction false} WholeMilliseconds(frames: nat, rate: nat)
    requires rate > 0
    ensures 1000 * frames / rate * rate <= 1000 * frames < (1000 * frames / rate + 1) * rate
  {
  }

  /** Of a stream that was positioned where it reads, or just loaded, the whole milliseconds are
      reported at which the frame begins that is played next. */
  lemma {:induction false} PositionExactly(s: Stream)
    requires Valid(s) && s.offset >= 0 && s.start == s.offset * s.channels
    ensures var frame := (s.start + |s.played|) / s.channels;
            && frame * s.channels == s.start + |s.played|
            && PositionOf(s) * s.rate <= 1000 * frame < (PositionOf(s) + 1) * s.rate
            && (s.ring != [] ==>
                frame * s.channels < |s.file| && s.ring[0] == s.file[frame * s.channels] as real / 32768.0)
  {
    var frame := s.offset + |s.played| / s.channels;
    assert |s.played + s.ring + Floats(s.file[s.position..])| == |Floats(s.file[s.start..])|;
    assert |s.played| == s.position - s.start - |s.ring|;
    WholePlayed(s.start, |s.played|, s.offset, s.channels);
    WholeMilliseconds(frame, s.rate);
    if s.ring != [] {
      NextSample(s.played, s.ring, s.file[s.position..], s.file, s.start);
    }
  }

  lemma {:induction false} WholePlayed(start: nat, played: nat, offset: nat, channels: int)
    requires 1 <= channels <= 2 && start == offset * channels && played % channels == 0
    ensures (start + played) / channels == offset + played / channels
    ensures (start + played) / channels * channels == start + played
  {
  }

  lemma {:induction false} NextSample(played: seq<real>, ring: seq<real>, rest: seq<int>, file: seq<int>, start: nat)
    requires ring != [] && start <= |file| && played + ring + Floats(rest) == Floats(file[start..])
    ensures start + |played| < |file| && ring[0] == file[start + |played|] as real / 32768.0
  {
    var all := Floats(file[start..]);
    assert ring[0] == (played + ring + Floats(rest))[|played|] == all[|played|];
    assert all[|played|] == ToFloat(file[start..][|played|]);
  }

  lemma {:induction false} CallbackPlays(s: Stream, nframes: nat, audible: bool)
    requires Valid(s) && s.playing && nframes * s.channels <= |s.ring|
    ensures var t := Callback(s, nframes, audible);
            && t.offset == s.offset && t.rate == s.rate && t.channels == s.channels
            && |t.played| / t.channels == |s.played| / s.channels + nframes
  {
    PlayedOn(|s.played|, nframes, s.channels);
  }

  /** A callback moves the position on by the frames that it plays: a second of them by exactly
      a thousand milliseconds. */
  lemma {:induction false} PositionAdvances(s: Stream, nframes: nat, audible: bool)
    requires Valid(s) && s.playing && s.offset >= 0 && nframes * s.channels <= |s.ring|
    ensures var t := Callback(s, nframes, audible);
            && t.rate == s.rate && t.channels == s.channels && t.offset == s.offset
            && PositionOf(t) == 1000 * (s.offset + |s.played| / s.channels + nframes) / s.rate
            && PositionOf(s) <= PositionOf(t)
            && (nframes == s.rate ==> PositionOf(t) == PositionOf(s) + 1000)
  {
    CallbackPlays(s, nframes, audible);
    FramesOn(s.offset + |s.played| / s.channels, nframes, s.rate);
  }

  lemma {:induction false} FramesOn(frames: nat, nframes: nat, rate: nat)
    requires rate > 0
    ensures 1000 * frames / rate <= 1000 * (frames + nframes) / rate
    ensures nframes == rate ==> 1000 * (frames + nframes) / rate == 1000 * frames / rate + 1000
  {
    Further(1000 * frames, 1000 * nframes, rate);
    if nframes == rate {
      QuotientIs(1000 * frames + 1000 * rate, rate, 1000 * frames / rate + 1000, 1000 * frames % rate);
    }
  }

  lemma {:induction false} PlayedOn(played: nat, nframes: nat, channels: int)
    requires 1 <= channels <= 2
    ensures (played + nframes * channels) / channels == played / channels + nframes
  {
  }

  lemma {:induction false} Further(n: nat, m: nat, rate: nat)
    requires rate > 0
    ensures n / rate <= (n + m) / rate
  {
    QuotientBounds(n, rate);
    QuotientAtLeast(n + m, rate, n / rate);
  }
}
