/**
 * The single-sticker command (`sticker`): an image, or a video of at most
 * 10 seconds, becomes one sticker tagged with the sender's name. The
 * download and the send are tried three times; ffmpeg and connection
 * errors become error replies, anything else is rethrown wrapped, and the
 * files the command made are deleted on every path, except the output a
 * failed `createSticker` may leave behind: its path never reaches the command.
 */
module Sticker {
  import opened Wrappers
  import opened JsString
  import opened Segments
  import opened StickerErrors
  import opened MediaEnv

  const TooLongText := "O vídeo deve ter no máximo 10 segundos."
  const ProcessingText := "Erro ao processar a mídia. O arquivo pode estar corrompido."
  const ConnectionText := "Erro de conexão. Tente novamente."

  /**
   * What a failing render step throws, named by the last event it logged:
   * a `createSticker` rejection (`FFmpeg failed: …`), a failed tagging, or
   * the third failed send (`Erro ao enviar figurinha.`).
   */
  ghost predicate RenderThrew(meta: StickerMetadata, cause: string, last: Event) {
    || (last.Render? && !last.ok && exists stderr :: cause == FfmpegFailure(stderr))
    || last == Tag(meta, false)
    || (last.Send? && !last.ok && cause == SingleSendFailure)
  }

  /** What a failing step of the `try` block throws: the third failed download, or a failing render step. */
  ghost predicate StepThrew(isImage: bool, meta: StickerMetadata, cause: string, last: Event) {
    || (isImage && last == Fetch(Image, false) && cause == SingleImageDownloadFailure)
    || (!isImage && last == Fetch(Video, false) && cause == SingleVideoDownloadFailure)
    || RenderThrew(meta, cause, last)
  }

  /**
   * How the `catch` block treats each step's error: an ffmpeg failure is
   * answered as a processing error, the command's own download and send
   * messages are rethrown wrapped, so a connection reply can only come from
   * the tagging step.
   */
  lemma StepThrewClassified(isImage: bool, meta: StickerMetadata, cause: string, last: Event)
    requires StepThrew(isImage, meta, cause, last)
    ensures last.Render? ==> ClassifySingle(cause) == ProcessingReply
    ensures last.Fetch? || last.Send? ==> ClassifySingle(cause) == Rethrow(SingleGenericPrefix + cause)
    ensures ClassifySingle(cause) == ConnectionReply ==> last == Tag(meta, false)
  {
    if last.Render? {
      var stderr :| cause == FfmpegFailure(stderr);
      CreateStickerFailureIsProcessing(stderr);
    } else if last.Fetch? || last.Send? {
      OwnMessageRethrown(cause);
    }
  }

  /** The command's own download and send messages are rethrown wrapped. */
  lemma OwnMessageRethrown(cause: string)
    requires cause == SingleImageDownloadFailure || cause == SingleVideoDownloadFailure || cause == SingleSendFailure
    ensures ClassifySingle(cause) == Rethrow(SingleGenericPrefix + cause)
  {
    if cause == SingleImageDownloadFailure {
      SingleImageDownloadFailureRethrows();
    } else if cause == SingleVideoDownloadFailure {
      SingleVideoDownloadFailureRethrows();
    } else {
      SingleSendFailureRethrows();
    }
  }

  /**
   * The handler. `meta` is `{ username, botName }`; `ghost cause` is the
   * message of the error caught, when one was; `ghost leftover` is the
   * output a failed `createSticker` left, which the `finally` block cannot
   * name, so it survives the run.
   */
  method Handle(env: Env, isImage: bool, isVideo: bool, own: Option<real>, quoted: Option<real>, meta: StickerMetadata)
    returns (outcome: Outcome, ghost cause: string, ghost leftover: set<string>)
    modifies env
    ensures !isImage && !isVideo ==> outcome == InvalidParameter && env.log == old(env.log)
    ensures env.files == old(env.files) + leftover && env.windows == old(env.windows)
    ensures |leftover| <= 1 && leftover !! old(env.files)
    ensures leftover != {} ==> outcome == ErrorReplied(ProcessingText)
    ensures isImage || isVideo ==>
      |env.log| > |old(env.log)| && env.log[..|old(env.log)|] == old(env.log) && env.log[|old(env.log)|] == WaitReact
    ensures outcome == Completed ==>
      env.tagged == old(env.tagged) + [meta] && |env.delivered| == |old(env.delivered)| + 1
    ensures outcome.Thrown? ==> ClassifySingle(cause) == Rethrow(outcome.message)
    ensures outcome.ErrorReplied? ==> |env.log| > 0 && env.log[|env.log| - 1] == ErrorReply(outcome.text)
    ensures outcome.ErrorReplied? ==>
      (outcome.text == TooLongText && !isImage && !SingleStickerAccepts(ReportedSeconds(own, quoted)) &&
       env.tagged == old(env.tagged) && env.delivered == old(env.delivered)) ||
      (outcome.text == ProcessingText && ClassifySingle(cause) == ProcessingReply) ||
      (outcome.text == ConnectionText && ClassifySingle(cause) == ConnectionReply)
    ensures !isImage && isVideo && !SingleStickerAccepts(ReportedSeconds(own, quoted)) ==>
      outcome == ErrorReplied(TooLongText) || cause == SingleVideoDownloadFailure
    ensures outcome.Thrown? ==>
      |old(env.log)| + 1 < |env.log| && StepThrew(isImage, meta, cause, env.log[|env.log| - 1])
    ensures outcome.ErrorReplied? && outcome.text != TooLongText ==>
      |old(env.log)| + 2 < |env.log| && StepThrew(isImage, meta, cause, env.log[|env.log| - 2])
  {
    cause, leftover := "", {};
    if !isImage && !isVideo {
      return InvalidParameter, cause, leftover;
    }
    env.Emit(WaitReact);
    outcome, cause, leftover := Attempt(env, isImage, isVideo, own, quoted, meta);
  }

  /** The `try`, `catch` and `finally` blocks, after the wait reaction. */
  method Attempt(env: Env, isImage: bool, isVideo: bool, own: Option<real>, quoted: Option<real>, meta: StickerMetadata)
    returns (outcome: Outcome, ghost cause: string, ghost leftover: set<string>)
    modifies env
    ensures env.files == old(env.files) + leftover && env.windows == old(env.windows)
    ensures |leftover| <= 1 && leftover !! old(env.files)
    ensures leftover != {} ==> outcome == ErrorReplied(ProcessingText)
    ensures old(env.log) <= env.log
    ensures outcome == Completed ==>
      env.tagged == old(env.tagged) + [meta] && |env.delivered| == |old(env.delivered)| + 1
    ensures outcome.Thrown? ==> ClassifySingle(cause) == Rethrow(outcome.message)
    ensures outcome.ErrorReplied? ==> |env.log| > 0 && env.log[|env.log| - 1] == ErrorReply(outcome.text)
    ensures outcome.ErrorReplied? ==>
      (outcome.text == TooLongText && !isImage && !SingleStickerAccepts(ReportedSeconds(own, quoted)) &&
       env.tagged == old(env.tagged) && env.delivered == old(env.delivered)) ||
      (outcome.text == ProcessingText && ClassifySingle(cause) == ProcessingReply) ||
      (outcome.text == ConnectionText && ClassifySingle(cause) == ConnectionReply)
    ensures !isImage && isVideo && !SingleStickerAccepts(ReportedSeconds(own, quoted)) ==>
      outcome == ErrorReplied(TooLongText) || cause == SingleVideoDownloadFailure
    ensures outcome.Thrown? ==>
      |old(env.log)| < |env.log| && StepThrew(isImage, meta, cause, env.log[|env.log| - 1])
    ensures outcome.ErrorReplied? && outcome.text != TooLongText ==>
      |old(env.log)| + 1 < |env.log| && StepThrew(isImage, meta, cause, env.log[|env.log| - 2])
  {
    cause := "";
    ghost var base := env.files;
    var result, held;
    result, held, leftover := Process(env, isImage, isVideo, own, quoted, meta);
    outcome := result;
    if result.Thrown? {
      cause := result.message;
      if leftover != {} {
        var stderr :| cause == FfmpegFailure(stderr);
        CreateStickerFailureIsProcessing(stderr);
      }
      ghost var last := env.log[|env.log| - 1];
      outcome := Catch(env, result.message);
      assert env.log[|env.log| - (if outcome.Thrown? then 1 else 2)] == last;
    }
    env.Discard(None, held, base + leftover);
  }

  /** The `catch` block: an error reply for an ffmpeg or connection error, else the wrapped rethrow. */
  method Catch(env: Env, message: string) returns (outcome: Outcome)
    modifies env
    ensures outcome.Thrown? ==> ClassifySingle(message) == Rethrow(outcome.message)
    ensures outcome.ErrorReplied? ==>
      (outcome.text == ProcessingText && ClassifySingle(message) == ProcessingReply) ||
      (outcome.text == ConnectionText && ClassifySingle(message) == ConnectionReply)
    ensures outcome.Thrown? || outcome.ErrorReplied?
    ensures env.log == old(env.log) + (if outcome.ErrorReplied? then [ErrorReply(outcome.text)] else [])
    ensures env.files == old(env.files) && env.tagged == old(env.tagged)
    ensures env.delivered == old(env.delivered) && env.windows == old(env.windows)
  {
    match ClassifySingle(message)
    case ProcessingReply =>
      env.Emit(ErrorReply(ProcessingText));
      outcome := ErrorReplied(ProcessingText);
    case ConnectionReply =>
      env.Emit(ErrorReply(ConnectionText));
      outcome := ErrorReplied(ConnectionText);
    case Rethrow(m) =>
      outcome := Thrown(m);
  }

  /**
   * The `try` block: download (three tries, 2 s and 4 s apart), check a
   * video's duration, then render, tag and send. `Thrown` carries the raw
   * message; `held` lists the files the `finally` block looks at.
   */
  method Process(env: Env, isImage: bool, isVideo: bool, own: Option<real>, quoted: Option<real>, meta: StickerMetadata)
    returns (result: Outcome, held: seq<string>, ghost leftover: set<string>)
    modifies env
    ensures result == Completed || result.Thrown? || result == ErrorReplied(TooLongText)
    ensures OnlyAdded(env.files, old(env.files) + leftover, held)
    ensures |leftover| <= 1 && leftover !! old(env.files)
    ensures leftover != {} ==> result.Thrown? && exists stderr :: result.message == FfmpegFailure(stderr)
    ensures old(env.log) <= env.log
    ensures env.windows == old(env.windows)
    ensures result == Completed ==>
      env.tagged == old(env.tagged) + [meta] && |env.delivered| == |old(env.delivered)| + 1
    ensures result.ErrorReplied? ==>
      !isImage && !SingleStickerAccepts(ReportedSeconds(own, quoted)) &&
      env.tagged == old(env.tagged) && env.delivered == old(env.delivered) &&
      |env.log| > 0 && env.log[|env.log| - 1] == ErrorReply(TooLongText)
    ensures !isImage && !SingleStickerAccepts(ReportedSeconds(own, quoted)) ==>
      result.ErrorReplied? || result == Thrown(SingleVideoDownloadFailure)
    ensures result.ErrorReplied? ==>
      forall e :: e in env.log[|old(env.log)|..] ==> e.Fetch? || e.Pause? || e == ErrorReply(TooLongText)
    ensures result.Thrown? ==> |old(env.log)| < |env.log| && StepThrew(isImage, meta, result.message, env.log[|env.log| - 1])
  {
    leftover := {};
    var download, failures := env.DownloadWithRetry(if isImage then Image else Video, 2000);
    if download.Err? {
      assert old(env.files) + leftover == env.files;
      return Thrown(if isImage then SingleImageDownloadFailure else SingleVideoDownloadFailure), [], leftover;
    }
    var input := download.value;
    if !isImage && !SingleStickerAccepts(ReportedSeconds(own, quoted)) {
      RetryTraceEvents(Fetch(Video, false), Fetch(Video, true), Linear(2000), failures, true);
      env.DeleteIfExists(input);
      env.Emit(ErrorReply(TooLongText));
      assert old(env.files) + leftover == old(env.files);
      return ErrorReplied(TooLongText), [], leftover;
    }
    result, held, leftover := Render(env, input, isVideo, meta, old(env.files));
  }

  /**
   * `createSticker`, delete the download, tag the sticker into a new file,
   * react with success, then send it (three tries, 1 s apart). `leftover`
   * is what a failed `createSticker` left: `stickerPath` is still null then.
   */
  method Render(env: Env, input: string, isVideo: bool, meta: StickerMetadata, ghost base: set<string>)
    returns (result: Outcome, held: seq<string>, ghost leftover: set<string>)
    requires input in env.files && OnlyAdded(env.files, base, [input])
    modifies env
    ensures result == Completed || result.Thrown?
    ensures OnlyAdded(env.files, base + leftover, held)
    ensures |leftover| <= 1 && leftover !! old(env.files)
    ensures leftover != {} ==> result.Thrown? && exists stderr :: result.message == FfmpegFailure(stderr)
    ensures old(env.log) <= env.log
    ensures env.windows == old(env.windows)
    ensures result == Completed ==>
      env.tagged == old(env.tagged) + [meta] && |held| == 2 && env.delivered == old(env.delivered) + [held[1]] &&
      exists f :: env.log == old(env.log) + [Event.Render(input, held[0], None, true), Tag(meta, true), SuccessReact] +
                            RetryTrace(Send(held[1], false), Send(held[1], true), Constant(1000), f, true)
    ensures result.Thrown? ==> |old(env.log)| < |env.log| && RenderThrew(meta, result.message, env.log[|env.log| - 1])
  {
    var sticker;
    sticker, leftover := env.CreateSticker(input, isVideo);
    if sticker.Err? {
      return Thrown(sticker.error), [input], leftover;
    }
    env.DeleteIfExists(input);
    held := [sticker.value];
    var final := env.TagToFile(sticker.value, meta);
    if final.Err? {
      return Thrown(final.error), held, leftover;
    }
    held := held + [final.value];
    env.Emit(SuccessReact);
    var sendError, sendFailures := env.SendWithRetry(final.value, Constant(1000));
    if sendError.Some? {
      return Thrown(SingleSendFailure), held, leftover;
    }
    assert env.log == old(env.log) + [Event.Render(input, held[0], None, true), Tag(meta, true), SuccessReact] +
                      RetryTrace(Send(held[1], false), Send(held[1], true), Constant(1000), sendFailures, true);
    result := Completed;
  }
}
