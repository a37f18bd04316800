/**
 * The multi-sticker command (`sticker-multi`): an image becomes one
 * sticker; a video is divided into the fewest equal segments of at most
 * 10 seconds, and each segment is sent as its own sticker, labelled with
 * its part number when there are several. Downloads and sends are tried
 * three times. Any error deletes every file the command made and is
 * rethrown as one of three messages.
 */
module StickerMulti {
  import opened Wrappers
  import opened JsString
  import opened Segments
  import opened StickerErrors
  import opened MediaEnv

  const NoDurationText := "Não foi possível determinar a duração do vídeo. Tente novamente."

  function ImageDownloadFailure(m: string): string {
    "Falha ao baixar imagem após 3 tentativas: " + m
  }

  function ImageSendFailure(m: string): string {
    "Falha ao enviar figurinha após 3 tentativas: " + m
  }

  function SegmentSendFailure(part: nat, m: string): string {
    "Falha ao enviar figurinha " + NatToString(part) + " após 3 tentativas: " + m
  }

  /**
   * The notice sent before a multi-part video. `secondsText` and
   * `lengthText` are the video's duration as JavaScript prints a number and
   * the segment length printed with one decimal place.
   */
  function SplitNotice(secondsText: string, count: nat, lengthText: string): string {
    "⏱️ Vídeo de " + secondsText + "s detectado!\n\n" +
    "Criando " + NatToString(count) + " figurinhas de ~" + lengthText + "s cada...\n\n" +
    "Aguarde alguns segundos... ⏳"
  }

  function FinalReply(count: nat): string {
    "✅ " + NatToString(count) + " figurinhas criadas com sucesso!"
  }

  /** The number of loop iterations: `Math.ceil(seconds / 10)`, and none when that is not positive. */
  function StickerCount(seconds: real): (n: nat)
    ensures n > 0 ==> SegmentCount(seconds) == n
    ensures seconds > 0.0 ==> n == SegmentCount(seconds)
    ensures seconds <= 0.0 ==> n == 0
  {
    var n := SegmentCount(seconds);
    if n > 0 then n else 0
  }

  /** Segment `i` (from 0) of `count`: the pack's author carries ` (i+1/count)` when there are several segments. */
  function SegmentMetadata(username: string, botName: string, i: nat, count: nat): StickerMetadata {
    if count > 1 then StickerMetadata(username + PartSuffix(i + 1, count), botName)
    else StickerMetadata(username, botName)
  }

  /** The metadata of every segment, in segment order. */
  function SegmentPlan(username: string, botName: string, count: nat): (r: seq<StickerMetadata>)
    ensures |r| == count
    ensures forall i :: 0 <= i < count ==> r[i] == SegmentMetadata(username, botName, i, count)
  {
    seq(count, i requires 0 <= i < count => SegmentMetadata(username, botName, i, count))
  }

  /** The window of every segment, in segment order: `-ss i * length -t length`. */
  function VideoWindows(seconds: real): (r: seq<Window>)
    ensures |r| == StickerCount(seconds)
    ensures forall i :: 0 <= i < |r| ==> r[i] == PlanWindow(i, SegmentLength(seconds))
  {
    var n := StickerCount(seconds);
    if n == 0 then [] else seq(n, i requires 0 <= i < n => PlanWindow(i, SegmentLength(seconds)))
  }

  /** Two segments of one video never carry the same author label. */
  lemma SegmentMetadataDistinct(username: string, botName: string, i: nat, j: nat, count: nat)
    requires i < count && j < count && i != j
    ensures SegmentMetadata(username, botName, i, count) != SegmentMetadata(username, botName, j, count)
  {
    PartSuffixInjective(i + 1, j + 1, count);
    var a, b := username + PartSuffix(i + 1, count), username + PartSuffix(j + 1, count);
    assert PartSuffix(i + 1, count) == a[|username|..] && PartSuffix(j + 1, count) == b[|username|..];
  }

  /**
   * The requested windows cover a video of positive length exactly: every
   * instant of it lies in one and only one of them.
   */
  lemma VideoWindowsTile(seconds: real, t: real) returns (i: nat)
    requires 0.0 <= t < seconds
    ensures i < |VideoWindows(seconds)|
    ensures VideoWindows(seconds)[i].start <= t < VideoWindows(seconds)[i].start + VideoWindows(seconds)[i].length
    ensures forall j :: 0 <= j < |VideoWindows(seconds)| && j != i ==>
      !(VideoWindows(seconds)[j].start <= t < VideoWindows(seconds)[j].start + VideoWindows(seconds)[j].length)
  {
    i := SegmentContaining(seconds, t);
    var w := VideoWindows(seconds);
    forall j | 0 <= j < |w| && j != i
      ensures !(w[j].start <= t < w[j].start + w[j].length)
    {
      assert w[j] == PlanWindow(j, SegmentLength(seconds));
    }
  }

  /**
   * What a failing step of one segment throws, named by the last event it
   * logged: a failed ffmpeg run (execChild's own error), an output file
   * ffmpeg did not leave (`Segmento <part> não foi criado pelo FFmpeg`), a
   * failed tagging, or the third failed send.
   */
  ghost predicate SegmentThrew(meta: StickerMetadata, part: nat, cause: string, last: Event) {
    || (last.Render? && !last.ok)
    || (last.Render? && last.ok && cause == SegmentMissing(part))
    || last == Tag(meta, false)
    || (last.Send? && !last.ok && exists m :: cause == SegmentSendFailure(part, m))
  }

  /** What a failing step of the image path throws, named by the last event it logged. */
  ghost predicate ImageThrew(meta: StickerMetadata, cause: string, last: Event) {
    || (last == Fetch(Image, false) && exists m :: cause == ImageDownloadFailure(m))
    || (last.Render? && !last.ok)
    || last == Tag(meta, false)
    || (last.Send? && !last.ok && exists m :: cause == ImageSendFailure(m))
  }

  /** What a failing step of the video path throws: the third failed download, or a step of one of the `count` segments. */
  ghost predicate VideoThrew(username: string, botName: string, count: nat, cause: string, last: Event) {
    || (last == Fetch(Video, false) && cause == MultiVideoDownloadFailure)
    || exists i :: 0 <= i < count && SegmentThrew(SegmentMetadata(username, botName, i, count), i + 1, cause, last)
  }

  /**
   * How the `catch` block treats the video path's errors: three failed
   * downloads are rethrown as the generic wrapper, and a segment ffmpeg
   * did not leave as the FFmpeg error.
   */
  lemma VideoThrewClassified(username: string, botName: string, count: nat, cause: string, last: Event)
    requires VideoThrew(username, botName, count, cause, last)
    ensures last.Fetch? ==> ClassifyMulti(cause) == MultiGenericPrefix + MultiVideoDownloadFailure
    ensures last.Render? && last.ok ==> ClassifyMulti(cause) == MultiFfmpegText
  {
    if last.Fetch? {
      MultiVideoDownloadFailureIsGeneric();
    } else if last.Render? && last.ok {
      var i :| 0 <= i < count && SegmentThrew(SegmentMetadata(username, botName, i, count), i + 1, cause, last);
      MissingSegmentIsProcessing(i + 1);
    }
  }

  /** A timeout behind three failed image downloads reaches the user as a connection error. */
  lemma ImageThrewClassified(meta: StickerMetadata, cause: string, last: Event)
    requires ImageThrew(meta, cause, last) && last.Fetch?
    ensures exists m :: cause == ImageDownloadFailure(m) && (Includes(m, "ETIMEDOUT") ==> ClassifyMulti(cause) == MultiConnectionText)
  {
    var m :| cause == ImageDownloadFailure(m);
    if Includes(m, "ETIMEDOUT") {
      MultiImageDownloadKeepsCause(m);
    }
  }

  /** The paths a variable and a list hold, as the cleanup sees them. */
  function Held(input: Option<string>, temp: seq<string>): seq<string> {
    (if input.Some? then [input.value] else []) + temp
  }

  /**
   * The handler. `username` is the sender's display name and `botName` the
   * `${BOT_EMOJI} ${BOT_NAME}` prefix; `ghost cause` is the message of the
   * error caught, when one was.
   */
  method Handle(env: Env, isImage: bool, isVideo: bool, own: Option<real>, quoted: Option<real>,
                username: string, botName: string, secondsText: string, lengthText: string)
    returns (outcome: Outcome, ghost cause: string)
    modifies env
    ensures !isImage && !isVideo ==> outcome == InvalidParameter && env.log == old(env.log)
    ensures env.files == old(env.files)
    ensures isImage || isVideo ==>
      |env.log| > |old(env.log)| && env.log[..|old(env.log)|] == old(env.log) && env.log[|old(env.log)|] == WaitReact
    ensures outcome.Thrown? ==> outcome.message == ClassifyMulti(cause)
    ensures outcome.ErrorReplied? ==>
      !isImage && outcome.text == NoDurationText && !TruthyNumber(ReportedSeconds(own, quoted)) &&
      env.tagged == old(env.tagged) && env.delivered == old(env.delivered) && env.windows == old(env.windows) &&
      env.log[|env.log| - 1] == ErrorReply(NoDurationText)
    ensures isImage && outcome == Completed ==>
      env.tagged == old(env.tagged) + [StickerMetadata(username, botName)] &&
      |env.delivered| == |old(env.delivered)| + 1 && env.windows == old(env.windows)
    ensures !isImage && isVideo && outcome == Completed ==>
      TruthyNumber(ReportedSeconds(own, quoted)) &&
      var seconds := ReportedSeconds(own, quoted).value;
      var n := StickerCount(seconds);
      env.tagged == old(env.tagged) + SegmentPlan(username, botName, n) &&
      env.windows == old(env.windows) + VideoWindows(seconds) &&
      |env.delivered| == |old(env.delivered)| + n &&
      env.log[|env.log| - 1] == (if n > 1 then Reply(FinalReply(n)) else SuccessReact)
    ensures !isImage && isVideo && !TruthyNumber(ReportedSeconds(own, quoted)) ==>
      outcome == ErrorReplied(NoDurationText) || (outcome.Thrown? && cause == MultiVideoDownloadFailure)
    ensures outcome.Thrown? && isImage ==>
      |old(env.log)| + 1 < |env.log| && ImageThrew(StickerMetadata(username, botName), cause, env.log[|env.log| - 1])
    ensures outcome.Thrown? && !isImage ==>
      var seconds := ReportedSeconds(own, quoted);
      var count := if TruthyNumber(seconds) then StickerCount(seconds.value) else 0;
      |old(env.log)| + 1 < |env.log| && VideoThrew(username, botName, count, cause, env.log[|env.log| - 1])
  {
    cause := "";
    if !isImage && !isVideo {
      return InvalidParameter, cause;
    }
    env.Emit(WaitReact);
    ghost var base := env.files;
    var result, input, temp;
    if isImage {
      result, input, temp := ImageBranch(env, StickerMetadata(username, botName));
    } else {
      result, input, temp := VideoBranch(env, own, quoted, username, botName, secondsText, lengthText);
    }
    if result.ErrorReplied? {
      return result, cause;
    }
    env.Discard(input, temp, base);
    if result.Thrown? {
      cause := result.message;
      outcome := Thrown(ClassifyMulti(result.message));
    } else {
      outcome := Completed;
    }
  }

  /**
   * The image path: download (three tries, 2 s and 4 s apart), convert
   * with ffmpeg, delete the download, tag, react, send (three tries, 1 s
   * and 2 s apart). `Thrown` carries the raw message of the error.
   */
  method ImageBranch(env: Env, meta: StickerMetadata) returns (result: Outcome, input: Option<string>, temp: seq<string>)
    modifies env
    ensures result == Completed || result.Thrown?
    ensures OnlyAdded(env.files, old(env.files), Held(input, temp))
    ensures old(env.log) <= env.log
    ensures env.windows == old(env.windows)
    ensures result == Completed ==>
      input.None? && env.tagged == old(env.tagged) + [meta] && |env.delivered| == |old(env.delivered)| + 1
    ensures result.Thrown? ==> |old(env.log)| < |env.log| && ImageThrew(meta, result.message, env.log[|env.log| - 1])
  {
    input, temp := None, [];
    var download, failures := env.DownloadWithRetry(Image, 2000);
    if download.Err? {
      return Thrown(ImageDownloadFailure(download.error)), input, temp;
    }
    input := Some(download.value);
    var output := env.FreshPath();
    temp := [output];
    var err := env.Exec(download.value, output, None);
    if err.Some? {
      return Thrown(err.value), input, temp;
    }
    env.DeleteIfExists(download.value);
    input := None;
    assert OnlyAdded(env.files, old(env.files), temp);
    ghost var mid := env.files;
    var paths;
    result, paths := SendImage(env, output, meta);
    OnlyAddedTrans(old(env.files), mid, env.files, temp, paths);
    temp := temp + paths;
  }

  /** Tag the converted image, react with success, then send it (three tries, 1 s and 2 s apart). */
  method SendImage(env: Env, output: string, meta: StickerMetadata) returns (result: Outcome, paths: seq<string>)
    modifies env
    ensures result == Completed || result.Thrown?
    ensures OnlyAdded(env.files, old(env.files), paths)
    ensures old(env.log) <= env.log
    ensures env.windows == old(env.windows)
    ensures result == Completed ==>
      env.tagged == old(env.tagged) + [meta] && |paths| == 1 && env.delivered == old(env.delivered) + [paths[0]] &&
      exists f :: env.log == old(env.log) + [Tag(meta, true), SuccessReact] +
                            RetryTrace(Send(paths[0], false), Send(paths[0], true), Linear(1000), f, true)
    ensures result.Thrown? ==>
      |old(env.log)| < |env.log| &&
      var last := env.log[|env.log| - 1];
      last == Tag(meta, false) || (last.Send? && !last.ok && exists m :: result.message == ImageSendFailure(m))
  {
    var sticker := env.TagToFile(output, meta);
    if sticker.Err? {
      return Thrown(sticker.error), [];
    }
    paths := [sticker.value];
    env.Emit(SuccessReact);
    var sendError, sendFailures := env.SendWithRetry(sticker.value, Linear(1000));
    if sendError.Some? {
      return Thrown(ImageSendFailure(sendError.value)), paths;
    }
    assert env.log == old(env.log) + [Tag(meta, true), SuccessReact] +
                      RetryTrace(Send(paths[0], false), Send(paths[0], true), Linear(1000), sendFailures, true);
    result := Completed;
  }

  /**
   * The video path: download (three tries), read the duration, announce a
   * multi-part video, make every segment, delete the download, react and,
   * for several segments, confirm. `Thrown` carries the raw message.
   */
  method VideoBranch(env: Env, own: Option<real>, quoted: Option<real>, username: string, botName: string,
                     secondsText: string, lengthText: string)
    returns (result: Outcome, input: Option<string>, temp: seq<string>)
    modifies env
    ensures result == Completed || result.Thrown? || result == ErrorReplied(NoDurationText)
    ensures OnlyAdded(env.files, old(env.files), Held(input, temp))
    ensures old(env.log) <= env.log
    ensures result.ErrorReplied? ==>
      !TruthyNumber(ReportedSeconds(own, quoted)) && env.files == old(env.files) &&
      env.tagged == old(env.tagged) && env.delivered == old(env.delivered) && env.windows == old(env.windows) &&
      |env.log| > 0 && env.log[|env.log| - 1] == ErrorReply(NoDurationText)
    ensures !TruthyNumber(ReportedSeconds(own, quoted)) ==>
      result.ErrorReplied? || result == Thrown(MultiVideoDownloadFailure)
    ensures result.ErrorReplied? ==>
      forall e :: e in env.log[|old(env.log)|..] ==> e.Fetch? || e.Pause? || e == ErrorReply(NoDurationText)
    ensures result == Completed ==>
      TruthyNumber(ReportedSeconds(own, quoted)) && input.None? &&
      var seconds := ReportedSeconds(own, quoted).value;
      var n := StickerCount(seconds);
      env.tagged == old(env.tagged) + SegmentPlan(username, botName, n) &&
      env.windows == old(env.windows) + VideoWindows(seconds) &&
      |env.delivered| == |old(env.delivered)| + n &&
      |env.log| > 0 && env.log[|env.log| - 1] == (if n > 1 then Reply(FinalReply(n)) else SuccessReact)
    ensures result.Thrown? ==>
      var seconds := ReportedSeconds(own, quoted);
      var count := if TruthyNumber(seconds) then StickerCount(seconds.value) else 0;
      |old(env.log)| < |env.log| && VideoThrew(username, botName, count, result.message, env.log[|env.log| - 1])
  {
    input, temp := None, [];
    var download, failures := env.DownloadWithRetry(Video, 2000);
    if download.Err? {
      return Thrown(MultiVideoDownloadFailure), input, temp;
    }
    input := Some(download.value);
    var seconds := ReportedSeconds(own, quoted);
    if !TruthyNumber(seconds) {
      RetryTraceEvents(Fetch(Video, false), Fetch(Video, true), Linear(2000), failures, true);
      env.DeleteIfExists(download.value);
      env.Emit(ErrorReply(NoDurationText));
      return ErrorReplied(NoDurationText), None, temp;
    }
    result, input, temp := SplitVideo(env, download.value, seconds.value, username, botName, secondsText, lengthText, old(env.files));
  }

  /**
   * A video whose duration is known: announce several segments, make every
   * segment, delete the download, react and, for several segments, confirm.
   * `base` is the set of files before the download.
   */
  method SplitVideo(env: Env, video: string, seconds: real, username: string, botName: string,
                    secondsText: string, lengthText: string, ghost base: set<string>)
    returns (result: Outcome, input: Option<string>, temp: seq<string>)
    requires OnlyAdded(env.files, base, [video])
    modifies env
    ensures result == Completed || result.Thrown?
    ensures OnlyAdded(env.files, base, Held(input, temp))
    ensures old(env.log) <= env.log
    ensures result == Completed ==>
      var n := StickerCount(seconds);
      input.None? &&
      env.tagged == old(env.tagged) + SegmentPlan(username, botName, n) &&
      env.windows == old(env.windows) + VideoWindows(seconds) &&
      |env.delivered| == |old(env.delivered)| + n &&
      |env.log| > 0 && env.log[|env.log| - 1] == (if n > 1 then Reply(FinalReply(n)) else SuccessReact)
    ensures result.Thrown? ==>
      |old(env.log)| < |env.log| && VideoThrew(username, botName, StickerCount(seconds), result.message, env.log[|env.log| - 1])
  {
    input := Some(video);
    var n := StickerCount(seconds);
    if n > 1 {
      env.Emit(Reply(SplitNotice(secondsText, n, lengthText)));
    }
    ghost var mid := env.files;
    var err;
    err, temp := SegmentLoop(env, video, seconds, username, botName);
    OnlyAddedTrans(base, mid, env.files, [video], temp);
    if err.Some? {
      return Thrown(err.value), input, temp;
    }
    env.DeleteIfExists(video);
    input := None;
    env.Emit(SuccessReact);
    if n > 1 {
      env.Emit(Reply(FinalReply(n)));
    }
    result := Completed;
  }

  /** The segment loop; it stops at the first segment that throws. */
  method SegmentLoop(env: Env, input: string, seconds: real, username: string, botName: string)
    returns (err: Option<string>, temp: seq<string>)
    modifies env
    ensures OnlyAdded(env.files, old(env.files), temp)
    ensures old(env.log) <= env.log
    ensures err.None? ==>
      var n := StickerCount(seconds);
      env.tagged == old(env.tagged) + SegmentPlan(username, botName, n) &&
      env.windows == old(env.windows) + VideoWindows(seconds) &&
      |env.delivered| == |old(env.delivered)| + n
    ensures err.Some? ==>
      var n := StickerCount(seconds);
      |old(env.log)| < |env.log| &&
      exists i :: 0 <= i < n && SegmentThrew(SegmentMetadata(username, botName, i, n), i + 1, err.value, env.log[|env.log| - 1])
  {
    var n := StickerCount(seconds);
    ghost var plan := SegmentPlan(username, botName, n);
    ghost var windows := VideoWindows(seconds);
    temp := [];
    var i := 0;
    while i < n
      invariant i <= n
      invariant OnlyAdded(env.files, old(env.files), temp)
      invariant old(env.log) <= env.log
      invariant env.tagged == old(env.tagged) + plan[..i]
      invariant env.windows == old(env.windows) + windows[..i]
      invariant |env.delivered| == |old(env.delivered)| + i
    {
      ghost var mid := env.files;
      var paths;
      err, paths := MakeSegment(env, input, i, n, PlanWindow(i, SegmentLength(seconds)), SegmentMetadata(username, botName, i, n));
      OnlyAddedTrans(old(env.files), mid, env.files, temp, paths);
      temp := temp + paths;
      if err.Some? {
        return;
      }
      assert plan[..i + 1] == plan[..i] + [plan[i]];
      assert windows[..i + 1] == windows[..i] + [windows[i]];
      i := i + 1;
    }
    assert plan[..n] == plan && windows[..n] == windows;
    err := None;
  }

  /**
   * One segment: cut and convert it with ffmpeg into a fresh `.webp`,
   * check that the file exists, tag it, send it (three tries, 1 s and 2 s
   * apart) and, unless it is the last, wait half a second.
   */
  method MakeSegment(env: Env, input: string, i: nat, count: nat, window: Window, meta: StickerMetadata)
    returns (err: Option<string>, paths: seq<string>)
    modifies env
    ensures OnlyAdded(env.files, old(env.files), paths)
    ensures old(env.log) <= env.log
    ensures env.windows == old(env.windows) + [window]
    ensures err.None? ==> env.tagged == old(env.tagged) + [meta] && |env.delivered| == |old(env.delivered)| + 1
    ensures |paths| > 0 && (paths[0] !in env.files ==>
      err.Some? && env.tagged == old(env.tagged) && env.delivered == old(env.delivered))
    ensures err.Some? ==> |old(env.log)| < |env.log| && SegmentThrew(meta, i + 1, err.value, env.log[|env.log| - 1])
  {
    var output := env.FreshPath();
    paths := [output];
    err := env.Exec(input, output, Some(window));
    if err.Some? {
      return;
    }
    if output !in env.files {
      return Some(SegmentMissing(i + 1)), paths;
    }
    var sticker := env.TagToFile(output, meta);
    if sticker.Err? {
      return Some(sticker.error), paths;
    }
    paths := paths + [sticker.value];
    var sendError, failures := env.SendWithRetry(sticker.value, Linear(1000));
    if sendError.Some? {
      return Some(SegmentSendFailure(i + 1, sendError.value)), paths;
    }
    if i + 1 < count {
      env.Sleep(500);
    }
  }
}
