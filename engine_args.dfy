/**
 * The media worker's side of a request (ffmpeg-worker.js): the payload the
 * main thread posts, the ffmpeg command lines built from it for `transcode`
 * and `remux`, and the wording of a bootstrap failure.
 */
module EngineArgs {
  import opened Wrappers
  import opened Text

  /** The `payload` of a request; absent options are `None`. */
  datatype RequestPayload = RequestPayload(
    name: Option<string>,
    buffer: seq<bv8>,
    hasAudio: Option<bool>,
    crf: Option<string>,
    preset: Option<string>,
    audioBitrate: Option<string>)

  /** JavaScript's `v || d` on an optional string: the default replaces an absent or empty value. */
  function OrDefault(v: Option<string>, d: string): string {
    if v.Some? && v.value != "" then v.value else d
  }

  /** The request said outright that there is no audio (`payload?.hasAudio === false`). */
  predicate Silent(p: RequestPayload) {
    p.hasAudio == Some(false)
  }

  /** The file the input bytes are written to. */
  function InputName(p: RequestPayload): (r: string)
    ensures EndsWith(r, ".src")
  {
    OrDefault(p.name, "input") + ".src"
  }

  const OutputName := "payload.mp4"

  /** `flag` is immediately followed by `value` at index `i`. */
  predicate PairAt(args: seq<string>, i: int, flag: string, value: string) {
    0 <= i && i + 1 < |args| && args[i] == flag && args[i + 1] == value
  }

  predicate HasPair(args: seq<string>, flag: string, value: string) {
    exists i :: 0 <= i < |args| && PairAt(args, i, flag, value)
  }

  /** The option values a caller chose are not themselves ffmpeg flags. */
  predicate PlainOptions(p: RequestPayload) {
    && (p.crf.None? || p.crf.value == "" || p.crf.value[0] != '-')
    && (p.preset.None? || p.preset.value == "" || p.preset.value[0] != '-')
    && (p.audioBitrate.None? || p.audioBitrate.value == "" || p.audioBitrate.value[0] != '-')
  }

  /** The fixed video half of a transcode's command line. */
  function TranscodeVideoArgs(p: RequestPayload): (r: seq<string>)
    ensures |r| == 14
  {
    ["-i", InputName(p), "-map", "0:v:0", "-c:v", "libx264",
     "-crf", OrDefault(p.crf, "20"), "-preset", OrDefault(p.preset, "medium"),
     "-pix_fmt", "yuv420p", "-movflags", "+faststart"]
  }

  /** The audio half: drop audio when told there is none, else map the first audio stream if any and encode it to AAC. */
  function TranscodeAudioArgs(p: RequestPayload): (r: seq<string>)
    ensures Silent(p) ==> r == ["-an"]
    ensures !Silent(p) ==> |r| == 6
  {
    if Silent(p) then ["-an"]
    else ["-map", "0:a:0?", "-c:a", "aac", "-b:a", OrDefault(p.audioBitrate, "128k")]
  }

  /**
   * The command line of a transcode: H.264 video with the chosen (or default
   * "20") CRF and (or default "medium") preset, and either no audio at all or
   * the first audio stream, if any, re-encoded to AAC at the chosen (or default
   * "128k") bit rate.
   */
  function TranscodeArgs(p: RequestPayload): (args: seq<string>)
    ensures |args| >= 16
    ensures args[..2] == ["-i", InputName(p)] && args[|args| - 1] == OutputName
    ensures HasPair(args, "-map", "0:v:0") && HasPair(args, "-c:v", "libx264")
    ensures HasPair(args, "-crf", OrDefault(p.crf, "20"))
    ensures HasPair(args, "-preset", OrDefault(p.preset, "medium"))
    ensures HasPair(args, "-pix_fmt", "yuv420p") && HasPair(args, "-movflags", "+faststart")
    ensures !Silent(p) ==> HasPair(args, "-map", "0:a:0?") && HasPair(args, "-c:a", "aac")
    ensures !Silent(p) ==> HasPair(args, "-b:a", OrDefault(p.audioBitrate, "128k"))
    ensures Silent(p) ==> "-an" in args
  {
    var args := TranscodeVideoArgs(p) + TranscodeAudioArgs(p) + [OutputName];
    assert PairAt(args, 2, "-map", "0:v:0") && PairAt(args, 4, "-c:v", "libx264");
    assert PairAt(args, 6, "-crf", OrDefault(p.crf, "20"));
    assert PairAt(args, 8, "-preset", OrDefault(p.preset, "medium"));
    assert PairAt(args, 10, "-pix_fmt", "yuv420p") && PairAt(args, 12, "-movflags", "+faststart");
    if !Silent(p) then
      assert PairAt(args, 14, "-map", "0:a:0?") && PairAt(args, 16, "-c:a", "aac");
      assert PairAt(args, 18, "-b:a", OrDefault(p.audioBitrate, "128k"));
      args
    else
      assert args[14] == "-an";
      args
  }

  /** A flag is never a plain option value, nor its default when that is not the flag. */
  lemma PlainIsNotFlag(v: Option<string>, d: string, flag: string)
    requires v.None? || v.value == "" || v.value[0] != '-'
    requires |flag| > 0 && flag[0] == '-' && d != flag
    ensures OrDefault(v, d) != flag
  {
    if v.Some? && v.value != "" {
      assert v.value[0] != flag[0];
    }
  }

  /** The input file name, ending in ".src", is never a flag that does not. */
  lemma InputIsNotAFlag(p: RequestPayload, flag: string)
    requires !EndsWith(flag, ".src")
    ensures InputName(p) != flag
  {
  }

  /** Under plain options, a flag that is none of the video half's own flags does not occur in it. */
  lemma VideoArgsExclude(p: RequestPayload, flag: string)
    requires PlainOptions(p)
    requires |flag| > 0 && flag[0] == '-' && !EndsWith(flag, ".src")
    requires flag != "-i" && flag != "-map" && flag != "-c:v" && flag != "-crf"
    requires flag != "-preset" && flag != "-pix_fmt" && flag != "-movflags"
    ensures flag !in TranscodeVideoArgs(p)
  {
    InputIsNotAFlag(p, flag);
    PlainIsNotFlag(p.crf, "20", flag);
    PlainIsNotFlag(p.preset, "medium", flag);
  }

  /**
   * Unless an option value is itself a flag, a transcode drops audio ("-an")
   * exactly when the request said there is no audio; a silent transcode
   * neither selects nor encodes an audio stream.
   */
  lemma TranscodeSilentIff(p: RequestPayload)
    requires PlainOptions(p)
    ensures ("-an" in TranscodeArgs(p)) <==> Silent(p)
    ensures Silent(p) ==> "-c:a" !in TranscodeArgs(p) && "-b:a" !in TranscodeArgs(p)
  {
    var args := TranscodeArgs(p);
    assert args == TranscodeVideoArgs(p) + TranscodeAudioArgs(p) + [OutputName];
    VideoArgsExclude(p, "-an");
    if Silent(p) {
      VideoArgsExclude(p, "-c:a");
      VideoArgsExclude(p, "-b:a");
    } else {
      PlainIsNotFlag(p.audioBitrate, "128k", "-an");
      assert "-an" !in TranscodeAudioArgs(p);
    }
  }

  /**
   * The command line of a remux, grown by `push` as the worker does: the video
   * stream copied, then either "-an" or the first audio stream, if any,
   * copied, then the MP4 muxer with the index moved to the front.
   */
  method RemuxArgs(p: RequestPayload) returns (args: seq<string>)
    ensures |args| >= 11
    ensures args[..6] == ["-i", InputName(p), "-map", "0:v:0", "-c:v", "copy"]
    ensures args[|args| - 5..] == ["-movflags", "+faststart", "-f", "mp4", OutputName]
    ensures ("-an" in args) <==> Silent(p)
    ensures !Silent(p) ==> args[6..10] == ["-map", "0:a:0?", "-c:a", "copy"]
    ensures "aac" !in args
  {
    args := ["-i", InputName(p), "-map", "0:v:0", "-c:v", "copy"];
    InputIsNotAFlag(p, "-an");
    InputIsNotAFlag(p, "aac");
    if Silent(p) {
      args := args + ["-an"];
    } else {
      args := args + ["-map", "0:a:0?", "-c:a", "copy"];
    }
    args := args + ["-movflags", "+faststart", "-f", "mp4"];
    args := args + [OutputName];
  }

  /** What was thrown: an object with a string `message`, or any other truthy value and its `String(...)` form. */
  datatype Thrown = WithMessage(message: string) | Other(rendered: string)

  function ThrownText(e: Thrown): string {
    match e
    case WithMessage(m) => m
    case Other(t) => t
  }

  const BootstrapPrefix := "FFmpeg bootstrap failed"

  /**
   * `formatBootstrapError`: the text always starts with "FFmpeg bootstrap
   * failed"; a message that already does is kept as it is, any other message
   * is appended after ": ", and a missing (falsy) error gives the bare
   * sentence.
   */
  function FormatBootstrapError(error: Option<Thrown>): (r: string)
    ensures StartsWith(r, BootstrapPrefix)
    ensures error.None? ==> r == BootstrapPrefix + "."
    ensures error.Some? && StartsWith(ThrownText(error.value), BootstrapPrefix) ==> r == ThrownText(error.value)
    ensures error.Some? && !StartsWith(ThrownText(error.value), BootstrapPrefix) ==>
      r == BootstrapPrefix + ": " + ThrownText(error.value)
  {
    if error.None? then BootstrapPrefix + "."
    else
      var message := ThrownText(error.value);
      if StartsWith(message, BootstrapPrefix) then message
      else
        var r := BootstrapPrefix + ": " + message;
        assert r[..|BootstrapPrefix|] == BootstrapPrefix;
        r
  }

  /**
   * Formatting is idempotent: re-throwing a formatted message (as
   * `ensureFFmpeg` does with the stored bootstrap error) never doubles the prefix.
   */
  lemma FormatBootstrapErrorIdempotent(error: Option<Thrown>)
    ensures FormatBootstrapError(Some(WithMessage(FormatBootstrapError(error)))) == FormatBootstrapError(error)
  {
  }
}
