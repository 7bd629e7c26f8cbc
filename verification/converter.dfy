/**
 * The audio converter's pure parts: the byte-level format validators, the
 * table of ffmpeg input formats, the "is conversion needed" rule, the
 * conversion statistics and the concurrency-limit range check.
 *
 * Running ffmpeg (and its timeouts and semaphore) is not modelled; its
 * outcome is a parameter of ConvertToWAV.
 */
module AudioConverter {
  import opened Wrappers
  import opened Strings

  // ---------------------------------------------------------------------------
  // Byte patterns
  // ---------------------------------------------------------------------------

  /** The 32 MiB upper bound and the 100-byte lower bound on audio data. */
  const MaxAudioBytes: nat := 32 * 1024 * 1024
  const MinAudioBytes: nat := 100

  const Riff: seq<byte> := [0x52, 0x49, 0x46, 0x46]   // "RIFF"
  const Wave: seq<byte> := [0x57, 0x41, 0x56, 0x45]   // "WAVE"
  const Id3: seq<byte> := [0x49, 0x44, 0x33]          // "ID3"
  const OggS: seq<byte> := [0x4F, 0x67, 0x67, 0x53]   // "OggS"
  const FLaC: seq<byte> := [0x66, 0x4C, 0x61, 0x43]   // "fLaC"
  const Ftyp: seq<byte> := [0x66, 0x74, 0x79, 0x70]   // "ftyp"
  const Mdat: seq<byte> := [0x6D, 0x64, 0x61, 0x74]   // "mdat"
  const Moov: seq<byte> := [0x6D, 0x6F, 0x6F, 0x76]   // "moov"
  const Free: seq<byte> := [0x66, 0x72, 0x65, 0x65]   // "free"

  /** The MPEG frame-sync prefixes, in the order they are tried. */
  const SyncPatterns: seq<seq<byte>> := [[0xFF, 0xFB], [0xFF, 0xFA], [0xFF, 0xF3], [0xFF, 0xF2], [0xFF, 0xE3], [0xFF, 0xE2]]

  /** The MP4 boxes an M4A file may start with. */
  const M4aBoxes: seq<seq<byte>> := [Ftyp, Mdat, Moov, Free]

  predicate BytesPrefix(data: seq<byte>, p: seq<byte>) {
    |p| <= |data| && data[..|p|] == p
  }

  predicate BytesAt(data: seq<byte>, p: seq<byte>, i: nat) {
    i + |p| <= |data| && data[i..i + |p|] == p
  }

  /** `bytes.Contains(data, p)`. */
  predicate BytesContain(data: seq<byte>, p: seq<byte>) {
    exists i: nat :: i <= |data| && BytesAt(data, p, i)
  }

  /** The first pattern (in list order) that prefixes the data. */
  function FirstPrefix(data: seq<byte>, patterns: seq<seq<byte>>): (r: Option<nat>)
    ensures r.Some? ==> r.value < |patterns| && BytesPrefix(data, patterns[r.value])
    ensures r.None? <==> forall i :: 0 <= i < |patterns| ==> !BytesPrefix(data, patterns[i])
  {
    if |patterns| == 0 then None
    else if BytesPrefix(data, patterns[0]) then Some(0)
    else match FirstPrefix(data, patterns[1..])
      case Some(i) => Some(i + 1)
      case None => None
  }

  /** The first pattern (in list order) that occurs in the data. */
  function FirstContained(data: seq<byte>, patterns: seq<seq<byte>>): (r: Option<nat>)
    ensures r.Some? ==> r.value < |patterns| && BytesContain(data, patterns[r.value])
    ensures r.None? <==> forall i :: 0 <= i < |patterns| ==> !BytesContain(data, patterns[i])
  {
    if |patterns| == 0 then None
    else if BytesContain(data, patterns[0]) then Some(0)
    else match FirstContained(data, patterns[1..])
      case Some(i) => Some(i + 1)
      case None => None
  }

  // ---------------------------------------------------------------------------
  // Validators (None means the data passed)
  // ---------------------------------------------------------------------------

  /** validateWAV: 44 bytes, a RIFF prefix, and WAVE within bytes 8..15. */
  function ValidateWAV(data: seq<byte>): (r: Option<string>)
    ensures r.None? <==> |data| >= 44 && BytesPrefix(data, Riff) && BytesContain(data[8..16], Wave)
  {
    if |data| < 44 then Some("invalid WAV file: too short (need at least 44 bytes)")
    else if !BytesPrefix(data, Riff) then Some("invalid WAV file: missing RIFF header")
    else if !BytesContain(data[8..16], Wave) then Some("invalid WAV file: missing WAVE format")
    else None
  }

  /** validateMP3: 10 bytes, then an ID3 tag or one of the frame-sync prefixes. */
  function ValidateMP3(data: seq<byte>): (r: Option<string>)
    ensures r.None? <==>
      |data| >= 10 && (BytesPrefix(data, Id3) || exists i :: 0 <= i < |SyncPatterns| && BytesPrefix(data, SyncPatterns[i]))
  {
    if |data| < 10 then Some("invalid MP3 file: too short")
    else if BytesPrefix(data, Id3) then None
    else if FirstPrefix(data, SyncPatterns).Some? then None
    else Some("invalid MP3 file: missing valid header or sync pattern")
  }

  /** validateOpus: 8 bytes and an Ogg container prefix. */
  function ValidateOpus(data: seq<byte>): (r: Option<string>)
    ensures r.None? <==> |data| >= 8 && BytesPrefix(data, OggS)
  {
    if |data| < 8 then Some("invalid OPUS file: too short")
    else if !BytesPrefix(data, OggS) then Some("invalid OPUS file: missing OGG container header")
    else None
  }

  /** validateFLAC: 4 bytes and a fLaC prefix. */
  function ValidateFLAC(data: seq<byte>): (r: Option<string>)
    ensures r.None? <==> BytesPrefix(data, FLaC)
  {
    if |data| < 4 then Some("invalid FLAC file: too short")
    else if !BytesPrefix(data, FLaC) then Some("invalid FLAC file: missing fLaC header")
    else None
  }

  /**
   * validateM4A: one of the four boxes occurs in the first 20 bytes. The
   * source slices `data[:20]` after only checking for 8 bytes, so data of 8
   * to 19 bytes would panic; the requires keeps exactly the inputs it handles.
   */
  function ValidateM4A(data: seq<byte>): (r: Option<string>)
    requires |data| < 8 || |data| >= 20
    ensures r.None? <==> |data| >= 20 && exists i :: 0 <= i < |M4aBoxes| && BytesContain(data[..20], M4aBoxes[i])
  {
    if |data| < 8 then Some("invalid M4A file: too short")
    else if BytesContain(data[..20], Ftyp) then assert M4aBoxes[0] == Ftyp; None
    else if FirstContained(data[..20], M4aBoxes).Some? then None
    else Some("invalid M4A file: missing valid box header")
  }

  /** The format-specific validator ValidateAudioData dispatches to, if any. */
  function FormatCheck(format: string, data: seq<byte>): (r: Option<string>)
    requires |data| >= MinAudioBytes
    ensures Lower(format) == "wav" ==> r == ValidateWAV(data)
    ensures Lower(format) == "mp3" ==> r == ValidateMP3(data)
    ensures Lower(format) == "opus" ==> r == ValidateOpus(data)
    ensures Lower(format) == "flac" ==> r == ValidateFLAC(data)
    ensures Lower(format) in {"m4a", "aac"} ==> r == ValidateM4A(data)
    ensures Lower(format) !in ValidatedFormats ==> r.None?
  {
    match Lower(format)
    case "wav" => ValidateWAV(data)
    case "mp3" => ValidateMP3(data)
    case "opus" => ValidateOpus(data)
    case "flac" => ValidateFLAC(data)
    case "m4a" => ValidateM4A(data)
    case "aac" => ValidateM4A(data)
    case _ => None
  }

  /**
   * ValidateAudioData: the size checks in order (empty, over 32 MiB, under
   * 100 bytes), then the validator of the lower-cased format; unknown formats
   * pass.
   */
  function ValidateAudioData(data: seq<byte>, format: string): (r: Option<string>)
    ensures |data| == 0 ==> r == Some("empty audio data")
    ensures |data| > MaxAudioBytes ==>
      r == Some("audio file too large: " + NatToString(|data|) + " bytes (max: " + NatToString(MaxAudioBytes) + " bytes)")
    ensures 0 < |data| < MinAudioBytes ==>
      r == Some("audio file too small: " + NatToString(|data|) + " bytes (min: " + NatToString(MinAudioBytes) + " bytes)")
    ensures r.None? ==> MinAudioBytes <= |data| <= MaxAudioBytes
    ensures MinAudioBytes <= |data| <= MaxAudioBytes ==> r == FormatCheck(format, data)
  {
    if |data| == 0 then Some("empty audio data")
    else if |data| > MaxAudioBytes then
      Some("audio file too large: " + NatToString(|data|) + " bytes (max: " + NatToString(MaxAudioBytes) + " bytes)")
    else if |data| < MinAudioBytes then
      Some("audio file too small: " + NatToString(|data|) + " bytes (min: " + NatToString(MinAudioBytes) + " bytes)")
    else FormatCheck(format, data)
  }

  /** The formats that have a validator of their own. */
  const ValidatedFormats: set<string> := {"wav", "mp3", "opus", "flac", "m4a", "aac"}

  /**
   * For data within the size bounds, ValidateAudioData accepts exactly the
   * data carrying the lower-cased format's header: RIFF/WAVE for "wav", an
   * ID3 tag or a frame-sync prefix for "mp3", OggS for "opus", fLaC for
   * "flac", one of the four boxes within the first 20 bytes (a window the
   * 100-byte minimum guarantees) for "m4a" and "aac"; any other format
   * passes.
   */
  lemma ValidatedHeaders(data: seq<byte>, format: string)
    ensures var ok := ValidateAudioData(data, format).None?;
      var sized := MinAudioBytes <= |data| <= MaxAudioBytes;
      && (Lower(format) == "wav" ==> (ok <==> sized && BytesPrefix(data, Riff) && BytesContain(data[8..16], Wave)))
      && (Lower(format) == "mp3" ==>
           (ok <==> sized && (BytesPrefix(data, Id3) || exists i :: 0 <= i < |SyncPatterns| && BytesPrefix(data, SyncPatterns[i]))))
      && (Lower(format) == "opus" ==> (ok <==> sized && BytesPrefix(data, OggS)))
      && (Lower(format) == "flac" ==> (ok <==> sized && BytesPrefix(data, FLaC)))
      && (Lower(format) in {"m4a", "aac"} ==>
           (ok <==> sized && exists i :: 0 <= i < |M4aBoxes| && BytesContain(data[..20], M4aBoxes[i])))
      && (Lower(format) !in ValidatedFormats ==> (ok <==> sized))
  {
  }

  // ---------------------------------------------------------------------------
  // Formats
  // ---------------------------------------------------------------------------

  /** The ffmpeg `-f` argument for each known (lower-case) input format. */
  const FFmpegFormats: map<string, string> := map[
    "opus" := "ogg", "mp3" := "mp3", "m4a" := "m4a", "aac" := "m4a", "flac" := "flac",
    "wav" := "wav", "ogg" := "ogg", "wma" := "asf", "amr" := "amr", "3gp" := "3gp"]

  /** getFFmpegInputFormat: the table entry of the lower-cased format, or the format unchanged. */
  function FFmpegInputFormat(format: string): (r: string)
    ensures Lower(format) in FFmpegFormats ==> r == FFmpegFormats[Lower(format)]
    ensures Lower(format) !in FFmpegFormats ==> r == format
  {
    match Lower(format)
    case "opus" => "ogg"
    case "mp3" => "mp3"
    case "m4a" => "m4a"
    case "aac" => "m4a"
    case "flac" => "flac"
    case "wav" => "wav"
    case "ogg" => "ogg"
    case "wma" => "asf"
    case "amr" => "amr"
    case "3gp" => "3gp"
    case _ => format
  }

  /** The formats listed without ffmpeg. */
  const BaseFormats: seq<string> := ["wav", "mp3", "m4a", "flac"]

  /** GetSupportedFormats: the base list, extended by six formats when ffmpeg is available. */
  function GetSupportedFormats(ffmpegAvailable: bool): (r: seq<string>)
    ensures |r| >= |BaseFormats| && r[..|BaseFormats|] == BaseFormats
    ensures ffmpegAvailable <==> |r| > |BaseFormats|
    ensures forall f :: f in r ==> f in FFmpegFormats
  {
    if ffmpegAvailable then ["wav", "mp3", "m4a", "flac", "opus", "aac", "wma", "ogg", "amr", "3gp"]
    else BaseFormats
  }

  /** IsConversionNeeded: every format but "wav" (in any letter case) is converted. */
  predicate IsConversionNeeded(format: string) {
    Lower(format) != "wav"
  }

  // ---------------------------------------------------------------------------
  // Statistics
  // ---------------------------------------------------------------------------

  /** The conversion counters; `totalTime` sums the elapsed times passed in. */
  datatype Stats = Stats(total: int, successful: int, failed: int, totalTime: int, averageSize: int)

  const NoStats := Stats(0, 0, 0, 0, 0)

  /** Go's `/` on integers: truncation toward zero. */
  function GoDiv(a: int, b: int): int
    requires b > 0
  {
    if a >= 0 then a / b else -((-a) / b)
  }

  /** recordConversion: one more conversion, successful or failed, and the running average size. */
  function RecordConversion(s: Stats, inputSize: nat, elapsed: int, success: bool): (r: Stats)
    ensures r.total == s.total + 1 && r.totalTime == s.totalTime + elapsed
    ensures r.successful == s.successful + (if success then 1 else 0)
    ensures r.failed == s.failed + (if success then 0 else 1)
    ensures s.total == s.successful + s.failed ==> r.total == r.successful + r.failed
  {
    var total := s.total + 1;
    var s1 := s.(total := total, totalTime := s.totalTime + elapsed,
      successful := if success then s.successful + 1 else s.successful,
      failed := if success then s.failed else s.failed + 1);
    if total > 0 then s1.(averageSize := GoDiv(s.averageSize * (total - 1) + inputSize, total)) else s1
  }

  /** A quotient of a value at most m*n by n is at most m. */
  lemma QuotientAtMost(a: int, n: int, m: int)
    requires n > 0 && 0 <= a <= m * n
    ensures 0 <= a / n <= m
  {
    var q := a / n;
    assert q * n <= a;
  }

  /** The running average stays within [0, bound] when it was and the new size is. */
  lemma AverageWithinBound(s: Stats, inputSize: nat, elapsed: int, success: bool, bound: int)
    requires s.total >= 0 && 0 <= s.averageSize <= bound && inputSize <= bound
    ensures 0 <= RecordConversion(s, inputSize, elapsed, success).averageSize <= bound
  {
    var n := s.total + 1;
    var a := s.averageSize * (n - 1) + inputSize;
    assert s.averageSize * (n - 1) <= bound * (n - 1) by {
      assert (bound - s.averageSize) * (n - 1) >= 0;
    }
    assert a <= bound * n;
    QuotientAtMost(a, n, bound);
  }

  /** Replaying a history of (input size, success) records from zero. */
  function Replay(history: seq<(nat, bool)>): Stats {
    if |history| == 0 then NoStats
    else
      var last := history[|history| - 1];
      RecordConversion(Replay(history[..|history| - 1]), last.0, 0, last.1)
  }

  function MaxSize(history: seq<(nat, bool)>): nat {
    if |history| == 0 then 0
    else
      var m := MaxSize(history[..|history| - 1]);
      var x := history[|history| - 1].0;
      if x > m then x else m
  }

  /**
   * After any history: Total = Successful + Failed = number of conversions,
   * and the integer running average lies in [0, largest input size seen].
   */
  lemma {:induction false} ReplayInvariant(history: seq<(nat, bool)>)
    ensures var s := Replay(history);
      s.total == |history| && s.total == s.successful + s.failed && 0 <= s.averageSize <= MaxSize(history)
  {
    if |history| > 0 {
      var prefix := history[..|history| - 1];
      ReplayInvariant(prefix);
      var last := history[|history| - 1];
      AverageWithinBound(Replay(prefix), last.0, 0, last.1, MaxSize(history));
    }
  }

  // ---------------------------------------------------------------------------
  // The converter
  // ---------------------------------------------------------------------------

  /** The concurrency limit at start-up. */
  const DefaultConcurrencyLimit: int := 4

  datatype Converter = Converter(concurrencyLimit: int, stats: Stats)

  const NewAudioConverter := Converter(DefaultConcurrencyLimit, NoStats)

  /** UpdateConcurrencyLimit: limits outside 1..20 are ignored. */
  function UpdateConcurrencyLimit(c: Converter, newLimit: int): (r: Converter)
    ensures r.stats == c.stats
    ensures r.concurrencyLimit == newLimit <==> 1 <= newLimit <= 20 || newLimit == c.concurrencyLimit
    ensures r.concurrencyLimit == c.concurrencyLimit || r.concurrencyLimit == newLimit
  {
    if newLimit <= 0 || newLimit > 20 then c else c.(concurrencyLimit := newLimit)
  }

  /** Starting from the default, the limit always stays within 1..20. */
  lemma {:induction false} ConcurrencyLimitInRange(updates: seq<int>)
    ensures 1 <= ApplyLimits(NewAudioConverter, updates).concurrencyLimit <= 20
  {
    ApplyLimitsKeepsRange(NewAudioConverter, updates);
  }

  function ApplyLimits(c: Converter, updates: seq<int>): Converter
    decreases |updates|
  {
    if |updates| == 0 then c else ApplyLimits(UpdateConcurrencyLimit(c, updates[0]), updates[1..])
  }

  lemma {:induction false} ApplyLimitsKeepsRange(c: Converter, updates: seq<int>)
    requires 1 <= c.concurrencyLimit <= 20
    ensures 1 <= ApplyLimits(c, updates).concurrencyLimit <= 20
    decreases |updates|
  {
    if |updates| > 0 {
      ApplyLimitsKeepsRange(UpdateConcurrencyLimit(c, updates[0]), updates[1..]);
    }
  }

  /** What happened on the ffmpeg path, which is not modelled. */
  datatype FfmpegOutcome =
    | Unavailable
    | QueueTimeout
    | Ran(output: Result<seq<byte>, string>)

  /**
   * ConvertToWAV: "wav" data (in any letter case) is returned unchanged and
   * counted as a successful conversion; otherwise the ffmpeg outcome decides.
   * Every call records exactly one conversion of the input's size.
   */
  function ConvertToWAV(c: Converter, data: seq<byte>, format: string, elapsed: int, ffmpeg: FfmpegOutcome)
    : (r: (Result<seq<byte>, string>, Converter))
    ensures !IsConversionNeeded(format) ==> r.0 == Success(data)
    ensures r.1 == c.(stats := RecordConversion(c.stats, |data|, elapsed, r.0.Success?))
    ensures IsConversionNeeded(format) && ffmpeg.Ran? ==> r.0 == ffmpeg.output
    ensures IsConversionNeeded(format) && !ffmpeg.Ran? ==> r.0.Failure?
  {
    if Lower(format) == "wav" then
      (Success(data), c.(stats := RecordConversion(c.stats, |data|, elapsed, true)))
    else
      match ffmpeg
      case Unavailable =>
        (Failure("ffmpeg not available, cannot convert " + format + " to wav"),
         c.(stats := RecordConversion(c.stats, |data|, elapsed, false)))
      case QueueTimeout =>
        (Failure("conversion queue timeout, too many concurrent conversions"),
         c.(stats := RecordConversion(c.stats, |data|, elapsed, false)))
      case Ran(out) =>
        (out, c.(stats := RecordConversion(c.stats, |data|, elapsed, out.Success?)))
  }
}
