/**
 * The probe-text classifier of the media worker (ffmpeg-worker.js, `analyse`
 * and `codec`): the engine's diagnostic text is cut into trimmed lines, three
 * lines are picked out by fixed markers, codec and format tokens are cut out
 * of them, and the tokens are matched against the H.264, AAC and MP4-family
 * patterns.  Each regular expression of the source is an explicit predicate.
 */
module Classifier {
  import opened Wrappers
  import opened Text

  /** What `analyse` returns: the tokens it extracted and the flags it derived from them. */
  datatype ProbeResult = ProbeResult(
    format: Option<string>,
    container: Option<string>,
    videoCodec: Option<string>,
    audioCodec: Option<string>,
    hasAudio: bool,
    containerOK: bool,
    videoOK: bool,
    audioOK: bool,
    copySafe: bool,
    isCompatible: bool)

  const InputPrefix := "Input #0"
  const FormatMarker := "Input #0,"
  const VideoStream := "Stream #0:0"
  const VideoMarker := "Video:"
  const AudioStream := "Stream #0:"
  const AudioMarker := "Audio:"

  /** The diagnostic text split at line feeds, each line trimmed. */
  function Lines(text: string): (r: seq<string>)
    ensures |r| == |Split(text, '\n')|
    ensures forall k :: 0 <= k < |r| ==> r[k] == Trim(Split(text, '\n')[k])
  {
    var pieces := Split(text, '\n');
    seq(|pieces|, k requires 0 <= k < |pieces| => Trim(pieces[k]))
  }

  /** `lines[i]` is the first line satisfying `p`. */
  predicate FirstAt(lines: seq<string>, p: string -> bool, i: int) {
    0 <= i < |lines| && p(lines[i]) && forall j :: 0 <= j < i ==> !p(lines[j])
  }

  /** Only one line can be the first satisfying `p`. */
  lemma FirstAtUnique(lines: seq<string>, p: string -> bool, i: int, j: int)
    requires FirstAt(lines, p, i) && FirstAt(lines, p, j)
    ensures i == j
  {
  }

  /** `Array.prototype.find`: the first line satisfying `p`, if any. */
  function Find(lines: seq<string>, p: string -> bool): (r: Option<string>)
    ensures r.None? <==> forall l :: l in lines ==> !p(l)
    ensures r.Some? ==> exists i :: FirstAt(lines, p, i) && lines[i] == r.value
    ensures forall i :: FirstAt(lines, p, i) ==> r == Some(lines[i])
  {
    if lines == [] then None
    else if p(lines[0]) then (assert FirstAt(lines, p, 0); Some(lines[0]))
    else
      var r := Find(lines[1..], p);
      if r.Some? then
        var i :| FirstAt(lines[1..], p, i) && lines[1..][i] == r.value;
        assert FirstAt(lines, p, i + 1);
        assert forall j :: FirstAt(lines, p, j) ==> j == i + 1 by {
          forall j | FirstAt(lines, p, j)
            ensures j == i + 1
          {
            FirstAtUnique(lines, p, j, i + 1);
          }
        }
        r
      else
        r
  }

  predicate IsInputLine(line: string) {
    StartsWith(line, InputPrefix)
  }

  predicate IsVideoLine(line: string) {
    Contains(line, VideoStream) && Contains(line, VideoMarker)
  }

  predicate IsAudioLine(line: string) {
    Contains(line, AudioStream) && Contains(line, AudioMarker)
  }

  /** `line[start..end]` runs from `start` up to the next comma, or to the end of the line when there is none. */
  predicate CommaEnd(line: string, start: int, end: int) {
    0 <= start <= end <= |line| && ',' !in line[start..end] && (end == |line| || line[end] == ',')
  }

  /** The index of the first comma at or after `start`, or the length of the line when there is none. */
  function NextComma(line: string, start: nat): (end: nat)
    requires start <= |line|
    ensures CommaEnd(line, start, end)
    decreases |line| - start
  {
    if start == |line| || line[start] == ',' then start
    else
      var end := NextComma(line, start + 1);
      assert line[start..end] == [line[start]] + line[start + 1..end];
      end
  }

  /** Only one end runs up to the next comma. */
  lemma CommaEndUnique(line: string, start: int, e1: int, e2: int)
    requires CommaEnd(line, start, e1) && CommaEnd(line, start, e2)
    ensures e1 == e2
  {
    forall k | start <= k < e1
      ensures line[k] != ','
    {
      assert line[start..e1][k - start] == line[k];
    }
    forall k | start <= k < e2
      ensures line[k] != ','
    {
      assert line[start..e2][k - start] == line[k];
    }
  }

  /**
   * `codec(line, marker)`: nothing when the marker does not occur; otherwise the
   * text after its first occurrence, cut at the first comma and trimmed.
   */
  function Codec(line: string, marker: string): (r: Option<string>)
    ensures r.None? <==> !Contains(line, marker)
    ensures r.Some? ==>
      var start := IndexOf(line, marker).value + |marker|;
      r.value == Trim(line[start..NextComma(line, start)])
    ensures r.Some? ==> ',' !in r.value
    ensures r.Some? ==> r.value == [] || (!IsSpace(r.value[0]) && !IsSpace(r.value[|r.value| - 1]))
  {
    match IndexOf(line, marker)
    case None => None
    case Some(idx) =>
      var start := idx + |marker|;
      var token := Before(line[start..], ',');
      CommaEndIsBefore(line, start, NextComma(line, start));
      Some(Trim(token))
  }

  /** The text from `start` up to the next comma is what `split(',')[0]` gives for the rest of the line. */
  lemma CommaEndIsBefore(line: string, start: int, end: int)
    requires CommaEnd(line, start, end)
    ensures Before(line[start..], ',') == line[start..end]
  {
    var after := line[start..];
    assert after[..end - start] == line[start..end];
    BeforeAt(after, ',', end - start);
  }

  /**
   * `\s*([^,]+)` anchored at the start of `rest`: the run of non-commas after
   * the white space; when only white space precedes the next comma (or the
   * end), backtracking hands the last white-space character to the capture;
   * with neither, no match.
   */
  function CaptureAfterMarker(rest: string): (r: Option<string>)
    ensures r.Some? ==> r.value != [] && ',' !in r.value
    ensures var t := TrimStart(rest); t != [] && t[0] != ',' ==> r == Some(Before(t, ','))
    ensures var t := TrimStart(rest); |t| < |rest| && (t == [] || t[0] == ',') ==> r == Some([rest[|rest| - |t| - 1]])
    ensures r.None? <==> rest == [] || rest[0] == ','
  {
    var t := TrimStart(rest);
    assert |t| < |rest| ==> IsSpace(rest[0]) && rest[0] != ',';
    assert |t| == |rest| ==> t == rest;
    if t != [] && t[0] != ',' then
      Some(Before(t, ','))
    else if |t| < |rest| then
      var c := rest[|rest| - |t| - 1];
      assert IsSpace(c);
      Some([c])
    else
      None
  }

  /**
   * The regular expression `/Input #0,\s*([^,]+)/` searched from index `from`:
   * the capture at the first position where the marker occurs and the rest of
   * the pattern matches.
   */
  function CaptureFrom(line: string, from: nat): (r: Option<string>)
    decreases |line| - from
    ensures r.Some? ==> r.value != [] && ',' !in r.value
    ensures r.Some? ==> exists j :: from <= j && OccursAt(line, FormatMarker, j)
    ensures (forall j :: from <= j ==> !OccursAt(line, FormatMarker, j)) ==> r.None?
  {
    if from + |FormatMarker| > |line| then None
    else if line[from..from + |FormatMarker|] == FormatMarker then
      assert OccursAt(line, FormatMarker, from);
      var here := CaptureAfterMarker(line[from + |FormatMarker|..]);
      if here.Some? then here else CaptureFrom(line, from + 1)
    else CaptureFrom(line, from + 1)
  }

  /** The format token captured from the input line, when the regular expression matches. */
  function CaptureFormat(line: string): (r: Option<string>)
    ensures r.Some? ==> r.value != [] && ',' !in r.value && Contains(line, FormatMarker)
    ensures !Contains(line, FormatMarker) ==> r.None?
    ensures IndexOf(line, FormatMarker).Some? ==>
      var t := TrimStart(line[IndexOf(line, FormatMarker).value + |FormatMarker|..]);
      t != [] && t[0] != ',' ==> r == Some(Before(t, ','))
  {
    var j := IndexOf(line, FormatMarker);
    if j.Some? then
      CaptureSkipsToFirstOccurrence(line, 0, j.value);
      CaptureFrom(line, 0)
    else
      CaptureFrom(line, 0)
  }

  /** Positions before the first occurrence of the marker do not change the search. */
  lemma {:induction false} CaptureSkipsToFirstOccurrence(line: string, from: nat, first: nat)
    requires from <= first && OccursAt(line, FormatMarker, first)
    requires forall j :: from <= j < first ==> !OccursAt(line, FormatMarker, j)
    ensures CaptureFrom(line, from) == CaptureFrom(line, first)
    decreases first - from
  {
    if from < first {
      assert !OccursAt(line, FormatMarker, from);
      CaptureSkipsToFirstOccurrence(line, from + 1, first);
    }
  }

  /** A marker followed directly by a non-comma always yields a capture. */
  lemma {:induction false} CaptureFindsMatch(line: string, from: nat, j: nat)
    requires from <= j && OccursAt(line, FormatMarker, j)
    requires j + |FormatMarker| < |line| && line[j + |FormatMarker|] != ','
    ensures CaptureFrom(line, from).Some?
    decreases j - from
  {
    if from == j {
      assert line[from..from + |FormatMarker|] == FormatMarker;
      var rest := line[from + |FormatMarker|..];
      assert rest != [] && rest[0] != ',';
    } else if !(OccursAt(line, FormatMarker, from) && CaptureAfterMarker(line[from + |FormatMarker|..]).Some?) {
      CaptureFindsMatch(line, from + 1, j);
    }
  }

  /** `/h\.?264|avc1/i`. */
  predicate H264Like(codec: string) {
    var c := Lower(codec);
    Contains(c, "h264") || Contains(c, "h.264") || Contains(c, "avc1")
  }

  /** `/aac|mp4a/i`. */
  predicate AacLike(codec: string) {
    var c := Lower(codec);
    Contains(c, "aac") || Contains(c, "mp4a")
  }

  /** `\bw\b` at index `i`, for a word `w` that begins and ends with word characters. */
  predicate WholeWordAt(s: string, w: string, i: int) {
    && OccursAt(s, w, i)
    && (i == 0 || !IsWordChar(s[i - 1]))
    && (i + |w| == |s| || !IsWordChar(s[i + |w|]))
  }

  predicate HasWord(s: string, w: string) {
    exists i | 0 <= i <= |s| :: WholeWordAt(s, w, i)
  }

  /** `/\bmp4\b|\bm4v\b|\bisom\b/`. */
  predicate HasMp4Like(s: string) {
    HasWord(s, "mp4") || HasWord(s, "m4v") || HasWord(s, "isom")
  }

  /** A codec token counts only when it is present and non-empty (JavaScript truthiness). */
  predicate Truthy(token: Option<string>) {
    token.Some? && token.value != ""
  }

  /** The format token: the capture from the first line starting with "Input #0". */
  function FormatOf(lines: seq<string>): (r: Option<string>)
    ensures (forall l :: l in lines ==> !IsInputLine(l)) ==> r.None?
    ensures forall i :: FirstAt(lines, IsInputLine, i) ==> r == CaptureFormat(lines[i])
    ensures r.Some? ==> r.value != [] && ',' !in r.value
    ensures r.Some? ==> exists l :: l in lines && IsInputLine(l) && CaptureFormat(l) == r
  {
    var input := Find(lines, IsInputLine);
    if input.Some? then CaptureFormat(input.value) else None
  }

  /** `videoCodec`: the codec token of the first line naming stream 0:0 as video. */
  function VideoCodecOf(lines: seq<string>): (r: Option<string>)
    ensures (forall l :: l in lines ==> !IsVideoLine(l)) <==> r.None?
    ensures forall i :: FirstAt(lines, IsVideoLine, i) ==> r == Codec(lines[i], VideoMarker)
    ensures r.Some? ==> exists l :: l in lines && IsVideoLine(l) && Codec(l, VideoMarker) == r
  {
    var line := Find(lines, IsVideoLine);
    if line.Some? then Codec(line.value, VideoMarker) else None
  }

  /** `audioCodec`: the codec token of the first line naming a stream of input 0 as audio. */
  function AudioCodecOf(lines: seq<string>): (r: Option<string>)
    ensures (forall l :: l in lines ==> !IsAudioLine(l)) <==> r.None?
    ensures forall i :: FirstAt(lines, IsAudioLine, i) ==> r == Codec(lines[i], AudioMarker)
    ensures r.Some? ==> exists l :: l in lines && IsAudioLine(l) && Codec(l, AudioMarker) == r
  {
    var line := Find(lines, IsAudioLine);
    if line.Some? then Codec(line.value, AudioMarker) else None
  }

  /**
   * `container`: the first comma-separated piece of the lower-cased format,
   * trimmed, or nothing when that is empty.  The captured format holds no
   * comma, so this is the whole lower-cased format, trimmed.
   */
  function ContainerOf(format: Option<string>): (r: Option<string>)
    requires format.Some? ==> ',' !in format.value
    ensures r.Some? <==> format.Some? && Trim(Lower(format.value)) != []
    ensures r.Some? ==> r.value == Trim(Lower(format.value))
  {
    var normalized := Lower(format.GetOr(""));
    LowerKeepsOthers(format.GetOr(""), ',');
    BeforeAbsent(normalized, ',');
    var first := Trim(Split(normalized, ',')[0]);
    if first != [] then Some(first) else None
  }

  /**
   * `/\bmp4\b|\bm4v\b|\bisom\b/` applied to the lower-cased format, or to ""
   * when there is none; the empty string holds no word.
   */
  function Mp4LikeFormat(format: Option<string>): (r: bool)
    ensures r == (format.Some? && HasMp4Like(Lower(format.value)))
  {
    var normalized := Lower(format.GetOr(""));
    assert |normalized| == 0 ==> !HasMp4Like(normalized);
    HasMp4Like(normalized)
  }

  /** `analyse(text)`. */
  function Analyse(text: string): (r: ProbeResult)
    ensures r.copySafe == (r.containerOK && r.videoOK && r.audioOK)
    ensures r.isCompatible == r.copySafe
    ensures r.hasAudio == Truthy(r.audioCodec)
    ensures !r.hasAudio ==> r.audioOK
    ensures r.videoOK == (Truthy(r.videoCodec) && H264Like(r.videoCodec.value))
    ensures r.audioOK == (!r.hasAudio || AacLike(r.audioCodec.value))
    ensures r.containerOK == (r.format.Some? && HasMp4Like(Lower(r.format.value)))
    ensures r.format == FormatOf(Lines(text))
    ensures r.container == ContainerOf(r.format)
    ensures r.videoCodec == VideoCodecOf(Lines(text))
    ensures r.audioCodec == AudioCodecOf(Lines(text))
  {
    var lines := Lines(text);
    var format := FormatOf(lines);
    var videoCodec := VideoCodecOf(lines);
    var audioCodec := AudioCodecOf(lines);
    var container := ContainerOf(format);
    var hasMp4Like := Mp4LikeFormat(format);
    var videoOK := Truthy(videoCodec) && H264Like(videoCodec.value);
    var audioOK := !Truthy(audioCodec) || AacLike(audioCodec.value);
    var containerOK := hasMp4Like;
    var copySafe := containerOK && videoOK && audioOK;
    ProbeResult(format, container, videoCodec, audioCodec, Truthy(audioCodec),
                containerOK, videoOK, audioOK, copySafe, copySafe)
  }

  /**
   * The header line ffmpeg prints for an MP4 file names the demuxer list
   * "mov,mp4,m4a,3gp,3g2,mj2", e.g.
   * "Input #0, mov,mp4,m4a,3gp,3g2,mj2, from 'probe.bin':".
   */
  function Mp4Header(tail: string): string {
    FormatMarker + " mov," + tail
  }

  /** The capture from such a header is the first demuxer name only. */
  lemma Mp4HeaderCapture(tail: string)
    ensures CaptureFormat(Mp4Header(tail)) == Some("mov")
  {
    var line := Mp4Header(tail);
    assert line[0..|FormatMarker|] == FormatMarker;
    assert IndexFrom(line, FormatMarker, 0) == Some(0);
    var rest := line[|FormatMarker|..];
    assert rest == " mov," + tail;
    assert TrimStart(rest) == rest[1..];
    var t := rest[1..];
    assert t == "mov," + tail;
    assert t[3] == ',' && t[..3] == "mov";
    BeforeFirst(t, ',', 3);
  }

  /** The stream line ffmpeg prints for H.264 video, e.g. "Stream #0:0(und): Video: h264 (High), yuv420p, …". */
  function H264StreamLine(tail: string): string {
    "Stream #0:0(und): Video: h264 (High), " + tail
  }

  /** The line names stream 0:0 as video, and its codec token is the text between "Video:" and the next comma, which is H.264-like. */
  lemma H264StreamCodec(tail: string)
    ensures IsVideoLine(H264StreamLine(tail))
    ensures Codec(H264StreamLine(tail), VideoMarker) == Some("h264 (High)")
    ensures H264Like("h264 (High)")
  {
    H264StreamIsVideo(tail);
    H264StreamToken(tail);
    HighProfileIsH264("h264 (High)");
  }

  lemma HighProfileIsH264(token: string)
    requires token == "h264 (High)"
    ensures H264Like(token)
  {
    var c := Lower(token);
    assert c[0] == token[0] && c[1] == token[1] && c[2] == token[2] && c[3] == token[3];
    assert c[0..4] == "h264";
    assert OccursAt(c, "h264", 0);
  }

  lemma H264StreamIsVideo(tail: string)
    ensures IsVideoLine(H264StreamLine(tail))
  {
    var line := H264StreamLine(tail);
    H264StreamMarker(tail);
    assert line[..11] == VideoStream;
    assert OccursAt(line, VideoStream, 0);
  }

  lemma H264StreamToken(tail: string)
    ensures Codec(H264StreamLine(tail), VideoMarker) == Some("h264 (High)")
  {
    var line := H264StreamLine(tail);
    var head := "Stream #0:0(und): Video: h264 (High)";
    H264StreamMarker(tail);
    assert line[..|head|] == head;
    assert line[24..|head|] == " h264 (High)" && line[|head|] == ',';
    assert CommaEnd(line, 24, |head|);
    CommaEndUnique(line, 24, |head|, NextComma(line, 24));
    TrimLeadingSpace(" h264 (High)");
  }

  /** The first "Video:" in the H.264 stream line is at index 18. */
  lemma H264StreamMarker(tail: string)
    ensures IndexOf(H264StreamLine(tail), VideoMarker) == Some(18)
  {
    var line := H264StreamLine(tail);
    var head := "Stream #0:0(und): Video: h264 (High)";
    assert line[..|head|] == head;
    assert line[18..24] == head[18..24] == VideoMarker;
    assert OccursAt(line, VideoMarker, 18);
    var idx := IndexOf(line, VideoMarker).value;
    assert line[idx..idx + 6][0] == 'V';
    assert forall j :: 0 <= j < 18 ==> line[j] == head[j] != 'V';
  }

  lemma TrimLeadingSpace(s: string)
    requires s == " h264 (High)"
    ensures Trim(s) == "h264 (High)"
  {
    assert TrimStart(s) == s[1..];
  }

  /** "mov" contains none of the MP4-family words. */
  lemma MovIsNotMp4Like()
    ensures !HasMp4Like(Lower("mov"))
  {
    assert Lower("mov") == "mov";
    forall i | 0 <= i <= 3
      ensures !WholeWordAt("mov", "mp4", i) && !WholeWordAt("mov", "m4v", i) && !WholeWordAt("mov", "isom", i)
    {
      if i == 0 {
        assert "mov"[0..3] == "mov";
      }
    }
  }

  /**
   * As written, the capture keeps only the first comma-separated demuxer name,
   * so an MP4 file is classified with format "mov" and is not container-OK,
   * hence never copy-safe.
   */
  lemma Mp4HeaderIsNotContainerOK(text: string, tail: string)
    requires Find(Lines(text), IsInputLine) == Some(Mp4Header(tail))
    ensures Analyse(text).format == Some("mov")
    ensures !Analyse(text).containerOK && !Analyse(text).copySafe
  {
    Mp4HeaderCapture(tail);
    MovIsNotMp4Like();
  }
}
