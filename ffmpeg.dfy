// The pure part of the ffmpeg wrapper: turning what ffprobe prints into a
// metadata dictionary, the fallbacks when it fails, the pixel-format bit
// depths, the duration probe's image guard, the order of the image
// thumbnail methods and the frame sampling of sequence animations.  The
// processes themselves are inputs: how a run ended and what it printed.

module FFmpeg {
  import opened Wrappers
  import opened Json
  import Text
  import Paths
  import Sorting
  import Entities
  import Metadata

  // ------------------------------------------------------------ the inputs

  /** How an ffprobe run ended: its exit code and what it printed, or the timeout. */
  datatype ProbeRun = Finished(returnCode: int, stdout: string) | TimedOut

  /** What `Path.stat()` answers: the size and the change and modification times. */
  datatype Stat = Stat(size: int, ctime: real, mtime: real)

  /**
   * The Python built-ins and system calls the parsing relies on that are
   * not written out here: `json.loads` (with the decoder's error text),
   * `float` of a string, `round(x, 3)`, and `stat` of a path (`None` where
   * it raises).
   */
  datatype Host = Host(decode: string -> Result<Json>, parseFloat: string -> Option<real>, round3: real -> real,
                       stat: string -> Option<Stat>)

  // ------------------------------------------------------------- basic info

  /** `Path(p).suffix.lstrip('.').lower()`: the extension without its dot, lower-cased. */
  function Extension(path: string): (r: string)
    ensures Paths.Suffix(Paths.Name(path)) == "" ==> r == ""
    ensures Paths.Suffix(Paths.Name(path)) != "" ==> "." + r == Text.Lower(Paths.Suffix(Paths.Name(path)))
  {
    var suffix := Paths.Suffix(Paths.Name(path));
    if suffix == "" then "" else Text.Lower(suffix[1..])
  }

  /**
   * `_get_basic_file_info`: the size, the format and the two times when
   * the file can be stat'ed, and the format alone otherwise.
   */
  function BasicFileInfo(path: string, host: Host): (r: map<string, Json>)
    ensures "format" in r && r["format"] == JStr(Extension(path))
    ensures "file_size" in r <==> host.stat(path).Some?
    ensures host.stat(path).Some? ==> r.Keys == {"format", "file_size", "created_at", "modified_at"}
                                      && r["file_size"] == JInt(host.stat(path).value.size)
    ensures host.stat(path).None? ==> r.Keys == {"format"}
  {
    match host.stat(path)
    case Some(st) =>
      map["file_size" := JInt(st.size), "format" := JStr(Extension(path)), "created_at" := JFloat(st.ctime),
          "modified_at" := JFloat(st.mtime)]
    case None => map["format" := JStr(Extension(path))]
  }

  // ------------------------------------------------------------ bit depths

  /** The pixel formats whose bit depth is known. */
  const BitDepths: map<string, int> :=
    map["yuv420p" := 8, "yuv422p" := 8, "yuv444p" := 8, "yuv420p10le" := 10, "yuv422p10le" := 10,
        "yuv444p10le" := 10, "yuv420p12le" := 12, "yuv422p12le" := 12, "yuv444p12le" := 12, "rgb24" := 8,
        "rgba" := 8, "rgb48le" := 16, "rgba64le" := 16]

  /**
   * `_get_bit_depth`: `None` for a missing or empty format and for an
   * unknown one, else the depth of the lower-cased name; a format that is
   * not a string has no `lower` and raises.
   */
  function BitDepth(pixelFormat: Json): (r: Option<Option<int>>)
    ensures !Truthy(pixelFormat) ==> r == Some(None)
    ensures r.None? <==> Truthy(pixelFormat) && !pixelFormat.JStr?
    ensures pixelFormat.JStr? && pixelFormat.s != "" ==>
              r == Some(if Text.Lower(pixelFormat.s) in BitDepths then Some(BitDepths[Text.Lower(pixelFormat.s)]) else None)
    ensures r.Some? && r.value.Some? ==> r.value.value in {8, 10, 12, 16}
  {
    if !Truthy(pixelFormat) then Some(None)
    else if !pixelFormat.JStr? then None
    else
      var name := Text.Lower(pixelFormat.s);
      Some(if name in BitDepths then Some(BitDepths[name]) else None)
  }

  /** Lower-casing twice is lower-casing once. */
  lemma {:induction false} LowerTwice(s: string)
    ensures Text.Lower(Text.Lower(s)) == Text.Lower(s)
  {
    if s != [] {
      LowerTwice(s[1..]);
      assert Text.Lower(s) == [Text.LowerChar(s[0])] + Text.Lower(s[1..]);
      assert Text.Lower(s)[1..] == Text.Lower(s[1..]);
    }
  }

  /** The lookup ignores the case of the format name. */
  lemma BitDepthIgnoresCase(s: string)
    ensures BitDepth(JStr(s)) == BitDepth(JStr(Text.Lower(s)))
  {
    LowerTwice(s);
  }

  // ------------------------------------------------------------ frame rate

  /**
   * `_parse_fps`: `"n/d"` is `round(float(n) / float(d), 3)`, anything
   * else `float(s)`; a malformed part or a zero denominator gives `None`;
   * a value that is not a string raises.
   */
  function ParseFps(v: Json, host: Host): (r: Option<Option<real>>)
    ensures r.None? <==> !v.JStr?
    ensures v.JStr? && '/' !in v.s ==> r == Some(host.parseFloat(v.s))
    ensures v.JStr? && |Text.Split(v.s, '/')| != 2 && '/' in v.s ==> r == Some(None)
    ensures r.Some? && r.value.Some? && '/' in v.s ==>
              var parts := Text.Split(v.s, '/');
              && |parts| == 2 && host.parseFloat(parts[0]).Some? && host.parseFloat(parts[1]).Some?
              && host.parseFloat(parts[1]).value != 0.0
              && r.value.value == host.round3(host.parseFloat(parts[0]).value / host.parseFloat(parts[1]).value)
  {
    if !v.JStr? then None
    else if '/' in v.s then
      var parts := Text.Split(v.s, '/');
      if |parts| != 2 then Some(None)
      else match (host.parseFloat(parts[0]), host.parseFloat(parts[1]))
        case (Some(n), Some(d)) => if d == 0.0 then Some(None) else Some(Some(host.round3(n / d)))
        case _ => Some(None)
    else Some(host.parseFloat(v.s))
  }

  // --------------------------------------------------------------- streams

  /** `d.get(k, default)` on a dictionary. */
  function Get(d: map<string, Json>, k: string, default: Json): Json
  {
    if k in d then d[k] else default
  }

  /** `stream.get('codec_type') == t`. */
  predicate OfType(stream: map<string, Json>, t: string)
  {
    "codec_type" in stream && stream["codec_type"] == JStr(t)
  }

  /** The index of the first stream of type `t`. */
  function FirstOfType(streams: seq<map<string, Json>>, t: string): (r: Option<nat>)
    ensures r.Some? ==> r.value < |streams| && OfType(streams[r.value], t)
    ensures r.Some? ==> forall j :: 0 <= j < r.value ==> !OfType(streams[j], t)
    ensures r.None? ==> forall j :: 0 <= j < |streams| ==> !OfType(streams[j], t)
  {
    if streams == [] then None
    else if OfType(streams[0], t) then Some(0)
    else match FirstOfType(streams[1..], t)
      case None => None
      case Some(k) => Some(k + 1)
  }

  /** The first stream of type `t`, when there is one. */
  function Chosen(streams: seq<map<string, Json>>, t: string): Option<map<string, Json>>
  {
    match FirstOfType(streams, t)
    case None => None
    case Some(k) => Some(streams[k])
  }

  /** One more stream changes the choice only when none was made and the new stream has the type. */
  lemma {:induction false} ChosenAppend(streams: seq<map<string, Json>>, x: map<string, Json>, t: string)
    ensures Chosen(streams + [x], t) ==
            if Chosen(streams, t).Some? then Chosen(streams, t) else if OfType(x, t) then Some(x) else None
  {
    if streams != [] {
      assert (streams + [x])[1..] == streams[1..] + [x];
      ChosenAppend(streams[1..], x, t);
    }
  }

  /**
   * The stream loop of `_parse_video_metadata`: the first video stream and
   * the first audio stream.
   */
  method SelectStreams(streams: seq<map<string, Json>>)
    returns (video: Option<map<string, Json>>, audio: Option<map<string, Json>>)
    ensures video == Chosen(streams, "video") && audio == Chosen(streams, "audio")
  {
    video, audio := None, None;
    var i := 0;
    while i < |streams|
      invariant 0 <= i <= |streams|
      invariant video == Chosen(streams[..i], "video") && audio == Chosen(streams[..i], "audio")
    {
      ChosenAppend(streams[..i], streams[i], "video");
      ChosenAppend(streams[..i], streams[i], "audio");
      assert streams[..i + 1] == streams[..i] + [streams[i]];
      if OfType(streams[i], "video") && video.None? {
        video := Some(streams[i]);
      } else if OfType(streams[i], "audio") && audio.None? {
        audio := Some(streams[i]);
      }
      i := i + 1;
    }
    assert streams[..i] == streams;
  }

  /** The dictionaries of a list of streams; `None` when one is not a dictionary, whose `get` raises. */
  function Dicts(a: seq<Json>): (r: Option<seq<map<string, Json>>>)
    ensures r.Some? <==> forall i :: 0 <= i < |a| ==> a[i].JObj?
    ensures r.Some? ==> |r.value| == |a| && forall i :: 0 <= i < |a| ==> r.value[i] == a[i].m
  {
    if a == [] then Some([])
    else if !a[0].JObj? then None
    else match Dicts(a[1..])
      case None => None
      case Some(rest) => Some([a[0].m] + rest)
  }

  /**
   * `for stream in probe_data['streams']`: a list is walked element by
   * element; an empty dictionary or string yields nothing; any other value
   * raises, at `get` on a key or character or because it is not iterable.
   */
  function StreamDicts(v: Json): (r: Option<seq<map<string, Json>>>)
    ensures v.JArr? ==> r == Dicts(v.a)
    ensures !v.JArr? && Truthy(v) ==> r.None?
  {
    match v
    case JArr(a) => Dicts(a)
    case JObj(m) => if m == map[] then Some([]) else None
    case JStr(s) => if s == "" then Some([]) else None
    case _ => None
  }

  // ------------------------------------------------------------ parsing

  /** `format_info.get('format_name', '').split(',')[0]`; `None` when the name is not a string. */
  function FormatName(info: map<string, Json>): (r: Option<string>)
    ensures r.Some? ==> ',' !in r.value
    ensures r.Some? ==> Get(info, "format_name", JStr("")).JStr?
                        && Text.StartsWith(Get(info, "format_name", JStr("")).s, r.value)
  {
    var name := Get(info, "format_name", JStr(""));
    if !name.JStr? then None else Some(FirstField(name.s, ','))
  }

  /** The text before the first separator, as `s.split(sep)[0]`. */
  function FirstField(s: string, sep: char): (r: string)
    ensures sep !in r && Text.StartsWith(s, r)
    ensures r == Text.Split(s, sep)[0]
  {
    var k := Text.FindChar(s, sep);
    if k == -1 then s else s[..k]
  }

  /** The tag keys copied from `format.tags`. */
  const TagKeys: set<string> := {"title", "artist", "album", "date", "comment"}

  /** None of the tag keys is one of the format fields. */
  lemma TagKeysApart(tags: map<string, Json>)
    requires tags.Keys == TagKeys
    ensures "format" !in tags && "duration" !in tags && "bitrate" !in tags
    ensures "file_size" !in tags && "frame_count" !in tags
  {
  }

  /** The tag fields, each `None` when the tags lack it; `None` when the tags are not a dictionary. */
  function TagFields(tags: Json): (r: Option<map<string, Json>>)
    ensures r.Some? <==> tags.JObj?
    ensures r.Some? ==> r.value.Keys == TagKeys
    ensures r.Some? ==> forall k :: k in r.value ==> r.value[k] == Get(tags.m, k, JNull)
  {
    if !tags.JObj? then None
    else Some(map k | k in TagKeys :: Get(tags.m, k, JNull))
  }

  /** The format fields with the tags added; the tags never replace a format field. */
  function WithTags(fields: map<string, Json>, tags: map<string, Json>): (r: map<string, Json>)
    requires tags.Keys == TagKeys
    ensures forall k :: k in fields && k !in TagKeys ==> k in r && r[k] == fields[k]
    ensures "frame_count" in r <==> "frame_count" in fields
  {
    TagKeysApart(tags);
    fields + tags
  }

  /**
   * The format part of a video's metadata: the first format name, the
   * duration (0 when absent), the bit rate when it is truthy, the size (0
   * when absent) and the tags when there are any; `None` when a
   * conversion raises.
   */
  function VideoFormatFields(info: Json, host: Host): (r: Option<map<string, Json>>)
    ensures r.Some? ==> info.JObj? && "frame_count" !in r.value
    ensures r.Some? ==> "format" in r.value && "duration" in r.value && r.value["duration"].JFloat?
                        && "bitrate" in r.value && "file_size" in r.value
    ensures r.Some? ==> (r.value["bitrate"].JNull? <==> !Truthy(Get(info.m, "bit_rate", JNull)))
  {
    if !info.JObj? then None
    else
      var name := FormatName(info.m);
      var duration := FloatOf(Get(info.m, "duration", JInt(0)), host.parseFloat);
      var bitRate := Get(info.m, "bit_rate", JNull);
      var bitrate := if Truthy(bitRate) then IntOf(bitRate) else Some(0);
      var size := IntOf(Get(info.m, "size", JInt(0)));
      if name.None? || duration.None? || bitrate.None? || size.None? then None
      else
        var fields := map["format" := JStr(name.value), "duration" := JFloat(duration.value),
                          "bitrate" := if Truthy(bitRate) then JInt(bitrate.value) else JNull,
                          "file_size" := JInt(size.value)];
        if "tags" !in info.m then Some(fields)
        else match TagFields(info.m["tags"])
          case None => None
          case Some(tags) =>
            TagKeysApart(tags);
            Some(WithTags(fields, tags))
  }

  /** `None` as `JNull`, a number as itself. */
  function OptReal(x: Option<real>): Json { if x.Some? then JFloat(x.value) else JNull }

  function OptInt(x: Option<int>): Json { if x.Some? then JInt(x.value) else JNull }

  /**
   * The picture fields of a stream: codec, size, pixel format, colour
   * space and range, and the bit depth; `None` when a conversion raises.
   */
  function PictureFields(stream: map<string, Json>): (r: Option<map<string, Json>>)
    ensures r.Some? ==> r.value.Keys == PictureKeys
    ensures r.Some? ==> r.value["width"].JInt? && r.value["height"].JInt?
    ensures r.Some? ==> r.value["codec"] == Get(stream, "codec_name", JNull)
                        && r.value["pixel_format"] == Get(stream, "pix_fmt", JNull)
  {
    var width := IntOf(Get(stream, "width", JInt(0)));
    var height := IntOf(Get(stream, "height", JInt(0)));
    var depth := BitDepth(Get(stream, "pix_fmt", JNull));
    if width.None? || height.None? || depth.None? then None
    else Some(map["codec" := Get(stream, "codec_name", JNull), "width" := JInt(width.value),
                  "height" := JInt(height.value), "pixel_format" := Get(stream, "pix_fmt", JNull),
                  "colorspace" := Get(stream, "color_space", JNull), "color_range" := Get(stream, "color_range", JNull),
                  "bit_depth" := OptInt(depth.value)])
  }

  /** The keys the picture fields write. */
  const PictureKeys: set<string> := {"codec", "width", "height", "pixel_format", "colorspace", "color_range",
                                     "bit_depth"}

  /** The audio fields of a video's first audio stream. */
  function AudioFields(stream: map<string, Json>): (r: Option<map<string, Json>>)
    ensures r.Some? ==> "has_audio" in r.value && r.value["has_audio"] == JBool(true)
  {
    var channels := IntOf(Get(stream, "channels", JInt(0)));
    var rate := IntOf(Get(stream, "sample_rate", JInt(0)));
    if channels.None? || rate.None? then None
    else Some(map["has_audio" := JBool(true), "audio_codec" := Get(stream, "codec_name", JNull),
                  "audio_channels" := JInt(channels.value), "audio_sample_rate" := JInt(rate.value)])
  }

  /** `int(duration * fps)` when both are truthy: the frame count a video stream adds. */
  function FrameCount(m: map<string, Json>): (r: Option<int>)
    ensures r.Some? ==> "duration" in m && "fps" in m && m["duration"].JFloat? && m["fps"].JFloat?
                        && m["duration"].f != 0.0 && m["fps"].f != 0.0
  {
    if "duration" in m && "fps" in m then CountOf(m["duration"], m["fps"]) else None
  }

  /** `int(duration * fps)` when both are non-zero floats. */
  function CountOf(duration: Json, fps: Json): (r: Option<int>)
    ensures r.Some? ==> duration.JFloat? && fps.JFloat? && duration.f != 0.0 && fps.f != 0.0
  {
    if duration.JFloat? && fps.JFloat? && duration.f != 0.0 && fps.f != 0.0
    then Some(Truncate(duration.f * fps.f))
    else None
  }

  /** `round(width / height, 3)` when width and height are truthy and the height is positive. */
  function WithAspect(m: map<string, Json>, host: Host): (r: map<string, Json>)
    ensures "aspect_ratio" in r && "aspect_ratio" !in m ==>
              "width" in m && "height" in m && m["width"].JInt? && m["height"].JInt?
              && m["width"].i != 0 && m["height"].i > 0
    ensures forall k :: k != "aspect_ratio" ==> (k in r <==> k in m) && (k in m ==> r[k] == m[k])
  {
    if "width" in m && "height" in m && m["width"].JInt? && m["height"].JInt? && m["width"].i != 0
       && m["height"].i > 0
    then m["aspect_ratio" := JFloat(host.round3(m["width"].i as real / m["height"].i as real))]
    else m
  }

  /**
   * The first video stream's part: its picture fields and frame rate, and
   * the frame count when the duration and the rate are both truthy;
   * `None` when a conversion raises.
   */
  function VideoPart(m: map<string, Json>, video: map<string, Json>, host: Host): (r: Option<map<string, Json>>)
    requires "frame_count" !in m
    ensures r.Some? ==> "codec" in r.value && r.value["codec"] == Get(video, "codec_name", JNull)
  {
    var picture := PictureFields(video);
    var fps := ParseFps(Get(video, "r_frame_rate", JStr("0/1")), host);
    if picture.None? || fps.None? then None else Some(WithVideo(m, picture.value, fps.value))
  }

  /** The picture fields and the rate added to `m`, then the frame count. */
  function WithVideo(m: map<string, Json>, picture: map<string, Json>, fps: Option<real>): (r: map<string, Json>)
    requires "frame_count" !in m && picture.Keys == PictureKeys
    ensures "codec" in r && r["codec"] == picture["codec"] && "fps" in r && r["fps"] == OptReal(fps)
    ensures "frame_count" in r <==> FrameCount(r).Some?
    ensures FrameCount(r).Some? ==> r["frame_count"] == JInt(FrameCount(r).value)
    ensures ("duration" in r <==> "duration" in m) && ("duration" in m ==> r["duration"] == m["duration"])
  {
    PictureKeysApart(picture);
    WithFrameCount((m + picture)["fps" := OptReal(fps)])
  }

  /** Sets `frame_count` when the duration and the rate are truthy. */
  function WithFrameCount(m: map<string, Json>): (r: map<string, Json>)
    requires "frame_count" !in m
    ensures "frame_count" in r <==> FrameCount(r).Some?
    ensures FrameCount(r).Some? ==> r["frame_count"] == JInt(FrameCount(r).value)
    ensures forall k :: k != "frame_count" ==> (k in r <==> k in m) && (k in m ==> r[k] == m[k])
  {
    var count := FrameCount(m);
    if count.Some? then
      FrameCountIgnoresCount(m, JInt(count.value));
      m["frame_count" := JInt(count.value)]
    else m
  }

  /** Setting `frame_count` does not change the count the duration and rate give. */
  lemma FrameCountIgnoresCount(m: map<string, Json>, v: Json)
    ensures FrameCount(m["frame_count" := v]) == FrameCount(m)
  {
    var m' := m["frame_count" := v];
    assert "duration" in m' <==> "duration" in m;
    assert "fps" in m' <==> "fps" in m;
    if "duration" in m && "fps" in m {
      assert m'["duration"] == m["duration"] && m'["fps"] == m["fps"];
    }
  }

  /** The picture fields hold neither the duration, the rate nor a frame count. */
  lemma PictureKeysApart(picture: map<string, Json>)
    requires picture.Keys == PictureKeys
    ensures "duration" !in picture && "fps" !in picture && "frame_count" !in picture
  {
  }

  /** The keys the audio part writes. */
  const AudioKeys: set<string> := {"has_audio", "audio_codec", "audio_channels", "audio_sample_rate"}

  /** The first audio stream's part, or `has_audio = False` without one. */
  function WithAudio(m: map<string, Json>, audio: Option<map<string, Json>>): (r: Option<map<string, Json>>)
    ensures r.Some? ==> "has_audio" in r.value && (r.value["has_audio"] == JBool(true) <==> audio.Some?)
    ensures r.Some? ==> forall k :: k in m && k !in AudioKeys ==> k in r.value && r.value[k] == m[k]
  {
    if audio.None? then Some(m["has_audio" := JBool(false)])
    else
      var sound := AudioFields(audio.value);
      if sound.None? then None else Some(m + sound.value)
  }

  /**
   * The stream part of a video's metadata, added to the format part: the
   * first video stream's part and the first audio stream's part.
   */
  function VideoStreamFields(m: map<string, Json>, streams: seq<map<string, Json>>, host: Host)
    : (r: Option<map<string, Json>>)
    requires "frame_count" !in m
    ensures r.Some? ==> "has_audio" in r.value
    ensures r.Some? ==> (r.value["has_audio"] == JBool(true) <==> Chosen(streams, "audio").Some?)
    ensures r.Some? && Chosen(streams, "video").Some? ==>
              "codec" in r.value && r.value["codec"] == Get(Chosen(streams, "video").value, "codec_name", JNull)
  {
    var video := Chosen(streams, "video");
    var withVideo := if video.None? then Some(m) else VideoPart(m, video.value, host);
    if withVideo.None? then None else WithAudio(withVideo.value, Chosen(streams, "audio"))
  }

  /**
   * `_parse_video_metadata`: the format part when the probe has one, the
   * stream part when it lists streams, then the aspect ratio; `None` when
   * anything raises, which the caller turns into the basic file info.
   */
  function VideoMetadata(probe: Json, host: Host): (r: Option<map<string, Json>>)
    ensures probe.JObj? && "format" !in probe.m && "streams" !in probe.m ==> r == Some(map[])
    ensures probe.JObj? && "format" in probe.m && "streams" !in probe.m && r.Some? ==>
              "format" in r.value && "duration" in r.value && r.value["duration"].JFloat?
              && "bitrate" in r.value && "file_size" in r.value
    ensures probe.JObj? && "streams" in probe.m && r.Some? ==> "has_audio" in r.value
  {
    var format, streams := Member(probe, "format"), Member(probe, "streams");
    if format.None? || streams.None? then None
    else
      var formatPart := if format.value.None? then Some(map[]) else VideoFormatFields(format.value.value, host);
      if formatPart.None? then None
      else if streams.value.None? then Some(WithAspect(formatPart.value, host))
      else
        var ss := StreamDicts(streams.value.value);
        var m := if ss.None? then None else VideoStreamFields(formatPart.value, ss.value, host);
        if m.None? then None else Some(WithAspect(m.value, host))
  }

  /**
   * The first video stream and the first audio stream are the ones used:
   * `has_audio` is true exactly when some stream is audio, and the codec
   * is the first video stream's.
   */
  lemma VideoUsesFirstStreams(probe: Json, host: Host, m: map<string, Json>)
    requires probe.JObj? && "streams" in probe.m && probe.m["streams"].JArr?
    requires VideoMetadata(probe, host) == Some(m)
    ensures Dicts(probe.m["streams"].a).Some?
    ensures var ss := Dicts(probe.m["streams"].a).value;
            && "has_audio" in m
            && (m["has_audio"] == JBool(true) <==> exists i :: 0 <= i < |ss| && OfType(ss[i], "audio"))
            && (Chosen(ss, "video").Some? ==> "codec" in m && m["codec"] == Get(Chosen(ss, "video").value, "codec_name", JNull))
  {
    var ss := Dicts(probe.m["streams"].a).value;
    var formatPart := if "format" in probe.m then VideoFormatFields(probe.m["format"], host) else Some(map[]);
    var sm := VideoStreamFields(formatPart.value, ss, host).value;
    assert m == WithAspect(sm, host);
    if exists i :: 0 <= i < |ss| && OfType(ss[i], "audio") {
      assert Chosen(ss, "audio").Some?;
    }
  }

  /**
   * `_parse_image_metadata`: the first format name and the size when the
   * probe has a format, and the first stream's picture fields with the
   * aspect ratio when it has a non-empty stream list; `None` when
   * anything raises.
   */
  function ImageMetadata(probe: Json, host: Host): (r: Option<map<string, Json>>)
    ensures r.Some? && "aspect_ratio" in r.value ==> "width" in r.value && "height" in r.value
  {
    var format, streams := Member(probe, "format"), Member(probe, "streams");
    if format.None? || streams.None? then None
    else
      var formatPart := if format.value.None? then Some(map[]) else ImageFormatFields(format.value.value);
      if formatPart.None? then None
      else if streams.value.None? || !Truthy(streams.value.value) then formatPart
      else if !streams.value.value.JArr? || !streams.value.value.a[0].JObj? then None
      else
        var picture := PictureFields(streams.value.value.a[0].m);
        if picture.None? then None else Some(WithAspect(formatPart.value + picture.value, host))
  }

  /** The format part of an image's metadata: the first format name and the size (0 when absent). */
  function ImageFormatFields(info: Json): (r: Option<map<string, Json>>)
    ensures r.Some? ==> info.JObj? && r.value.Keys == {"format", "file_size"}
  {
    if !info.JObj? then None
    else
      var name, size := FormatName(info.m), IntOf(Get(info.m, "size", JInt(0)));
      if name.None? || size.None? then None
      else Some(map["format" := JStr(name.value), "file_size" := JInt(size.value)])
  }

  // ------------------------------------------------------------ extraction

  /** The error `extract_video_info` raises on a timeout. */
  function TimeoutError(timeout: int): string
  {
    "FFprobe timeout after " + Text.IntToString(timeout) + " seconds"
  }

  const ParseErrorPrefix := "Failed to parse FFprobe output: "

  /**
   * `extract_video_info`: a timeout and output that is not JSON raise;
   * a failed run and a parse that raises fall back to the basic file info,
   * since the generic handler catches them.
   */
  function VideoInfo(path: string, run: ProbeRun, timeout: int, host: Host): (r: Result<map<string, Json>>)
    ensures run.TimedOut? ==> r == Err(TimeoutError(timeout))
    ensures run.Finished? && run.returnCode != 0 ==> r == Ok(BasicFileInfo(path, host))
    ensures r.Err? <==> run.TimedOut? || (run.returnCode == 0 && host.decode(run.stdout).Err?)
    ensures run.Finished? && run.returnCode == 0 && host.decode(run.stdout).Err? ==>
              r == Err(ParseErrorPrefix + host.decode(run.stdout).error)
    ensures run.Finished? && run.returnCode == 0 && host.decode(run.stdout).Ok? ==>
              r == Ok(match VideoMetadata(host.decode(run.stdout).value, host)
                      case Some(m) => m
                      case None => BasicFileInfo(path, host))
  {
    match run
    case TimedOut => Err(TimeoutError(timeout))
    case Finished(code, out) =>
      if code != 0 then Ok(BasicFileInfo(path, host))
      else match host.decode(out)
        case Err(e) => Err(ParseErrorPrefix + e)
        case Ok(probe) =>
          match VideoMetadata(probe, host)
          case Some(m) => Ok(m)
          case None => Ok(BasicFileInfo(path, host))
  }

  /** `extract_image_info`: every failure falls back to the basic file info. */
  function ImageInfo(path: string, run: ProbeRun, host: Host): (r: map<string, Json>)
    ensures run.TimedOut? || run.returnCode != 0 || host.decode(run.stdout).Err? ==> r == BasicFileInfo(path, host)
    ensures run.Finished? && run.returnCode == 0 && host.decode(run.stdout).Ok?
            && ImageMetadata(host.decode(run.stdout).value, host).Some? ==>
              r == ImageMetadata(host.decode(run.stdout).value, host).value
  {
    if run.TimedOut? || run.returnCode != 0 then BasicFileInfo(path, host)
    else match host.decode(run.stdout)
      case Err(_) => BasicFileInfo(path, host)
      case Ok(probe) =>
        match ImageMetadata(probe, host)
        case Some(m) => m
        case None => BasicFileInfo(path, host)
  }

  /** The extractor a worker uses, each path probed by the run `runs` gives for it. */
  function ExtractorFor(runs: string -> ProbeRun, timeout: int, host: Host): Metadata.Extractor
  {
    Metadata.Extractor(p => VideoInfo(p, runs(p), timeout, host), p => Ok(ImageInfo(p, runs(p), host)))
  }

  /**
   * Only a video can make a worker fail, and only by a timeout or output
   * that is not JSON: image probing always yields a dictionary.
   */
  lemma WorkerFailsOnlyOnVideoProbe(e: Entities.MediaEntity, runs: string -> ProbeRun, timeout: int, host: Host,
                                    path: Metadata.PathField)
    ensures var r := Metadata.WorkerOutput(e, ExtractorFor(runs, timeout, host), path);
            r.ExtractionFailed? <==>
              e.entityType == Entities.Video
              && (runs(e.path).TimedOut? || (runs(e.path).returnCode == 0 && host.decode(runs(e.path).stdout).Err?))
  {
  }

  // ---------------------------------------------------------- duration

  /** The suffixes `get_video_duration` treats as single images. */
  const ImageSuffixes: set<string> := {".png", ".jpg", ".jpeg", ".tiff", ".tif", ".bmp", ".gif", ".webp", ".exr",
                                       ".hdr"}

  /**
   * `get_video_duration`: `None` for an image suffix whatever ffprobe
   * would answer (it is not run); otherwise the format's duration as a
   * float, and `None` on any failure.
   */
  function VideoDuration(path: string, run: ProbeRun, host: Host): (r: Option<real>)
    ensures Text.Lower(Paths.Suffix(Paths.Name(path))) in ImageSuffixes ==> r.None?
    ensures run.TimedOut? || run.returnCode != 0 || host.decode(run.stdout).Err? ==> r.None?
    ensures r.Some? ==> var probe := host.decode(run.stdout).value;
                        && probe.JObj? && "format" in probe.m && probe.m["format"].JObj?
                        && "duration" in probe.m["format"].m
                        && r == FloatOf(probe.m["format"].m["duration"], host.parseFloat)
  {
    if Text.Lower(Paths.Suffix(Paths.Name(path))) in ImageSuffixes then None
    else if run.TimedOut? || run.returnCode != 0 then None
    else match host.decode(run.stdout)
      case Err(_) => None
      case Ok(probe) =>
        match Member(probe, "format")
        case Some(Some(format)) =>
          if format.JObj? && "duration" in format.m then FloatOf(format.m["duration"], host.parseFloat) else None
        case _ => None
  }

  /** An image suffix makes the answer independent of the probe. */
  lemma DurationSkipsImages(path: string, run1: ProbeRun, run2: ProbeRun, host: Host)
    requires Text.Lower(Paths.Suffix(Paths.Name(path))) in ImageSuffixes
    ensures VideoDuration(path, run1, host) == VideoDuration(path, run2, host) == None
  {
  }

  // --------------------------------------------------- image thumbnails

  /** The three ffmpeg invocations `extract_image_thumbnail` tries, in this order. */
  datatype ImageMethod = WithAlpha | Simple | ExplicitFormat

  const ImageMethods: seq<ImageMethod> := [WithAlpha, Simple, ExplicitFormat]

  /**
   * `extract_image_thumbnail`: the methods are tried in order until one
   * succeeds; the answer is whether one did and the methods that ran.
   */
  function ImageThumbnail(succeeds: ImageMethod -> bool): (r: (bool, seq<ImageMethod>))
    ensures r.0 <==> exists m :: m in ImageMethods && succeeds(m)
    ensures 1 <= |r.1| <= 3 && r.1 == ImageMethods[..|r.1|]
    ensures forall i :: 0 <= i < |r.1| - 1 ==> !succeeds(r.1[i])
    ensures r.0 <==> succeeds(r.1[|r.1| - 1])
  {
    if succeeds(WithAlpha) then (true, [WithAlpha])
    else if succeeds(Simple) then (true, [WithAlpha, Simple])
    else (succeeds(ExplicitFormat), ImageMethods)
  }

  /** The input format the last method names: `png_pipe` for a `.png` file, `image2` otherwise. */
  function InputFormat(path: string): (r: string)
    ensures r == "png_pipe" <==> Text.Lower(Paths.Suffix(Paths.Name(path))) == ".png"
    ensures r != "png_pipe" ==> r == "image2"
  {
    if Text.Lower(Paths.Suffix(Paths.Name(path))) == ".png" then "png_pipe" else "image2"
  }

  // ------------------------------------------------------ frame sampling

  /** The whole quotient of `a` by `c`, by repeated subtraction. */
  function Quotient(a: nat, c: nat): nat
    requires c > 0
    decreases a
  {
    if a < c then 0 else 1 + Quotient(a - c, c)
  }

  /** The frame index the sampling loop picks for step `i`: `int(i * (n / count))`. */
  function SampleIndex(i: nat, n: nat, count: nat): (r: nat)
    requires count > 0
    ensures i < count && n > 0 ==> r < n
  {
    if i < count && n > 0 then
      ScaleStrict(i, count, n);
      assert count * n == n * count;
      QuotientBelow(i * n, count, n);
      Quotient(i * n, count)
    else
      Quotient(i * n, count)
  }

  /** A larger dividend never has a smaller quotient. */
  lemma {:induction false} QuotientMonotone(a: nat, b: nat, c: nat)
    requires c > 0 && a <= b
    ensures Quotient(a, c) <= Quotient(b, c)
    decreases a
  {
    if a >= c {
      QuotientMonotone(a - c, b - c, c);
    }
  }

  /** A dividend below `k * c` has a quotient below `k`. */
  lemma {:induction false} QuotientBelow(a: nat, c: nat, k: nat)
    requires c > 0
    ensures a < k * c ==> Quotient(a, c) < k
    decreases k
  {
    if k > 0 && a >= c {
      QuotientBelow(a - c, c, k - 1);
      assert (k - 1) * c == k * c - c;
    }
  }

  /** Multiplying by a positive factor keeps a strict order. */
  lemma {:induction false} ScaleStrict(i: nat, j: nat, n: nat)
    requires i < j && n > 0
    ensures i * n < j * n
    decreases n
  {
    if n > 1 {
      ScaleStrict(i, j, n - 1);
      assert i * n == i * (n - 1) + i && j * n == j * (n - 1) + j;
    }
  }

  /** With more files than frames, consecutive indices differ by at least one. */
  lemma SampleIndexStep(i: nat, n: nat, count: nat)
    requires 0 < count < n
    ensures SampleIndex(i, n, count) < SampleIndex(i + 1, n, count)
  {
    assert (i + 1) * n == i * n + n;
    QuotientMonotone(i * n + count, (i + 1) * n, count);
    assert Quotient(i * n + count, count) == 1 + Quotient(i * n, count);
  }

  /** The first step picks the first file. */
  lemma SampleIndexZero(n: nat, count: nat)
    requires count > 0
    ensures SampleIndex(0, n, count) == 0
  {
  }

  /** The sampled indices increase strictly, so no frame is taken twice and the order is kept. */
  lemma {:induction false} SampleIndicesIncrease(i: nat, j: nat, n: nat, count: nat)
    requires 0 < count < n && i < j
    ensures SampleIndex(i, n, count) < SampleIndex(j, n, count)
    decreases j - i
  {
    SampleIndexStep(j - 1, n, count);
    if i < j - 1 {
      SampleIndicesIncrease(i, j - 1, n, count);
    }
  }

  /**
   * The frames of `generate_animated_thumbnail_from_sequence`, before any
   * ffmpeg runs: `None` (the call answers false) for fewer than two files
   * and for a zero frame count, whose interval divides by zero; all the
   * sorted files when there are no more than the frame count; otherwise
   * the file at `int(i * (n / count))` for each step `i`.
   */
  method SequenceFrames(files: seq<string>, frameCount: int) returns (r: Option<seq<string>>)
    ensures |files| < 2 ==> r.None?
    ensures |files| >= 2 && |files| <= frameCount ==> r == Some(Sorting.SortStrings(files))
    ensures |files| >= 2 && frameCount == 0 ==> r.None?
    ensures |files| >= 2 && frameCount < 0 ==> r == Some([])
    ensures |files| >= 2 && 0 < frameCount < |files| ==>
              && r.Some? && |r.value| == frameCount
              && forall i :: 0 <= i < frameCount ==>
                   r.value[i] == Sorting.SortStrings(files)[SampleIndex(i, |files|, frameCount)]
  {
    if |files| < 2 {
      return None;
    }
    var sorted := Sorting.SortStrings(files);
    if |sorted| <= frameCount {
      return Some(sorted);
    }
    if frameCount == 0 {
      return None;
    }
    if frameCount < 0 {
      // the range of a negative count is empty
      return Some([]);
    }
    var sampled: seq<string> := [];
    var i := 0;
    while i < frameCount
      invariant 0 <= i <= frameCount && |sampled| == i
      invariant forall j :: 0 <= j < i ==> sampled[j] == sorted[SampleIndex(j, |sorted|, frameCount)]
    {
      var index := SampleIndex(i, |sorted|, frameCount);
      if index < |sorted| {
        sampled := sampled + [sorted[index]];
      }
      i := i + 1;
    }
    r := Some(sampled);
  }

  /**
   * The sampled frames are files of the sequence, in the sorted order,
   * none taken twice, the first frame first.
   */
  lemma SampledFramesOrdered(files: seq<string>, frameCount: nat, frames: seq<string>)
    requires 0 < frameCount < |files| && |frames| == frameCount
    requires forall i :: 0 <= i < frameCount ==>
               frames[i] == Sorting.SortStrings(files)[SampleIndex(i, |files|, frameCount)]
    ensures frames[0] == Sorting.SortStrings(files)[0]
    ensures forall i :: 0 <= i < frameCount ==> frames[i] in files
    ensures forall i, j :: 0 <= i < j < frameCount ==>
              SampleIndex(i, |files|, frameCount) < SampleIndex(j, |files|, frameCount) < |files|
    ensures forall i, j :: 0 <= i < j < frameCount ==> Sorting.StrLe(frames[i], frames[j])
  {
    var sorted := Sorting.SortStrings(files);
    SampleIndexZero(|files|, frameCount);
    forall i | 0 <= i < frameCount
      ensures frames[i] in files
    {
      assert frames[i] in multiset(sorted);
    }
    forall i, j | 0 <= i < j < frameCount
      ensures SampleIndex(i, |files|, frameCount) < SampleIndex(j, |files|, frameCount) < |files|
      ensures Sorting.StrLe(frames[i], frames[j])
    {
      SampleIndicesIncrease(i, j, |files|, frameCount);
    }
  }
}
