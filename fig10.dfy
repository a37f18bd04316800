/**
 * The `fig10` command: a video of at most 59.5 seconds becomes one sticker
 * per 8.5-second chunk, each sent with the part label in its pack name;
 * any failure becomes a single error reply, and every file the run made
 * is deleted at the end, except the output of a failed ffmpeg run, whose
 * path the handler never learns.
 */
module Fig10 {
  import opened Wrappers
  import opened Segments
  import opened MediaEnv

  const TooLongText := "O vídeo é muito longo! O limite máximo é 60 segundos."
  const FailureText := "Erro ao processar o vídeo longo."

  /** Part `i` (from 0) of `count`: the pack's bot name carries ` (i+1/count)`. */
  function PartMetadata(username: string, botName: string, i: nat, count: nat): StickerMetadata {
    StickerMetadata(username, botName + PartSuffix(i + 1, count))
  }

  /** The metadata of every part, in part order. */
  function PlanMetadata(username: string, botName: string, count: nat): (r: seq<StickerMetadata>)
    ensures |r| == count
    ensures forall i :: 0 <= i < count ==> r[i] == PartMetadata(username, botName, i, count)
  {
    seq(count, i requires 0 <= i < count => PartMetadata(username, botName, i, count))
  }

  /** Different parts of one video carry different pack names. */
  lemma PartMetadataDistinct(username: string, botName: string, i: nat, j: nat, count: nat)
    ensures i != j ==> PartMetadata(username, botName, i, count) != PartMetadata(username, botName, j, count)
  {
    PartSuffixInjective(i + 1, j + 1, count);
    var a, b := botName + PartSuffix(i + 1, count), botName + PartSuffix(j + 1, count);
    assert PartSuffix(i + 1, count) == a[|botName|..] && PartSuffix(j + 1, count) == b[|botName|..];
  }

  /** The window of every part, in part order: `i * 8.5` seconds on, 8.5 seconds long. */
  function PartWindows(count: nat): (r: seq<Window>)
    ensures |r| == count
    ensures forall i :: 0 <= i < count ==> r[i] == PlanWindow(i, ChunkSeconds)
  {
    seq(count, i requires 0 <= i < count => PlanWindow(i, ChunkSeconds))
  }

  /** The part windows of an accepted video cover every instant of it, each by exactly one window. */
  lemma PartWindowsCover(seconds: real, t: real) returns (i: nat)
    requires 0.0 <= t < seconds
    ensures i < |PartWindows(Fig10Parts(seconds))|
    ensures PartWindows(Fig10Parts(seconds))[i].start <= t < PartWindows(Fig10Parts(seconds))[i].start + ChunkSeconds
    ensures forall j :: 0 <= j < |PartWindows(Fig10Parts(seconds))| && j != i ==>
      !(PartWindows(Fig10Parts(seconds))[j].start <= t < PartWindows(Fig10Parts(seconds))[j].start + ChunkSeconds)
  {
    i := Fig10ChunkContaining(seconds, t);
    var w := PartWindows(Fig10Parts(seconds));
    forall j | 0 <= j < |w| && j != i
      ensures !(w[j].start <= t < w[j].start + ChunkSeconds)
    {
      assert w[j] == PlanWindow(j, ChunkSeconds);
    }
  }

  /**
   * The handler. `own` and `quoted` are the `seconds` fields of the
   * message's video and of the quoted video; `username` is the sender's
   * display name and `botName` the `${BOT_EMOJI} ${BOT_NAME}` prefix.
   * `createdStickers` is the list of paths the run pushed.
   *
   * An accepted video starts with the wait reaction and ends with exactly
   * one of the success reaction and the error reply. On success one
   * sticker per part was tagged, in part order, and delivered; on failure
   * the tagged stickers are the first parts of the plan. Every part renders
   * the whole video: no cut window is ever asked for. Nothing the run
   * made outlives it except `leftover`, the output a failed `createSticker`
   * may leave: it is never pushed, so the `finally` block misses it.
   */
  method Handle(env: Env, isVideo: bool, own: Option<real>, quoted: Option<real>, username: string, botName: string)
    returns (outcome: Outcome, createdStickers: seq<string>, ghost leftover: set<string>)
    modifies env
    ensures !isVideo ==> outcome == InvalidParameter && env.log == old(env.log)
    ensures isVideo && Fig10Seconds(own, quoted) > Fig10MaxSeconds ==>
      outcome == ErrorReplied(TooLongText) && env.log == old(env.log) + [ErrorReply(TooLongText)]
    ensures isVideo && Fig10Seconds(own, quoted) <= Fig10MaxSeconds ==>
      (outcome == Completed || outcome == ErrorReplied(FailureText)) &&
      |env.log| >= |old(env.log)| + 2 && env.log[..|old(env.log)|] == old(env.log) &&
      env.log[|old(env.log)|] == WaitReact &&
      |old(env.tagged)| <= |env.tagged| && env.tagged[..|old(env.tagged)|] == old(env.tagged)
    ensures isVideo && Fig10Seconds(own, quoted) <= Fig10MaxSeconds ==>
      var plan := PlanMetadata(username, botName, Fig10Parts(Fig10Seconds(own, quoted)));
      var tags := env.tagged[|old(env.tagged)|..];
      |tags| <= |plan| && tags == plan[..|tags|] &&
      (outcome == Completed ==>
        tags == plan && |env.delivered| == |old(env.delivered)| + |plan| && env.log[|env.log| - 1] == SuccessReact) &&
      (outcome != Completed ==> env.log[|env.log| - 1] == ErrorReply(FailureText))
    ensures (!isVideo || Fig10Seconds(own, quoted) > Fig10MaxSeconds) ==>
      env.files == old(env.files) && env.tagged == old(env.tagged) && env.delivered == old(env.delivered)
    ensures env.windows == old(env.windows)
    ensures env.files <= old(env.files) + leftover
    ensures |leftover| <= 1 && leftover !! old(env.files)
    ensures leftover != {} ==> outcome == ErrorReplied(FailureText)
    ensures forall f :: f in old(env.files) && f !in env.files ==> f in createdStickers
  {
    leftover := {};
    if !isVideo {
      return InvalidParameter, [], leftover;
    }
    var seconds := Fig10Seconds(own, quoted);
    if seconds > Fig10MaxSeconds {
      env.Emit(ErrorReply(TooLongText));
      return ErrorReplied(TooLongText), [], leftover;
    }
    env.Emit(WaitReact);
    var plan := PlanMetadata(username, botName, Fig10Parts(seconds));
    ghost var k, w;
    outcome, createdStickers, k, w, leftover := Run(env, plan, false);
    assert env.tagged[|old(env.tagged)|..] == plan[..k];
  }

  /** A 20-second video is planned as three parts. */
  lemma TwentySecondsIsThreeParts()
    ensures Fig10Parts(20.0) == 3
  {
    assert 20.0 / ChunkSeconds == 40.0 / 17.0;
  }

  /**
   * The handler as written, on a 20-second video: when it completes, three
   * stickers were tagged and delivered, yet no part asked for a window, so
   * each one renders the video from its start.
   */
  method TwentySecondsAsWritten(env: Env) returns (outcome: Outcome)
    modifies env
    ensures outcome == Completed ==>
      |env.tagged| == |old(env.tagged)| + 3 && |env.delivered| == |old(env.delivered)| + 3 &&
      env.windows == old(env.windows)
  {
    TwentySecondsIsThreeParts();
    var created;
    ghost var leftover;
    outcome, created, leftover := Handle(env, true, Some(20.0), None, "user", "bot");
  }

  /**
   * The handler as its comments and `Ffmpeg.cutVideo` intend it: each part
   * first cuts its own 8.5-second window out of the video and renders that.
   * On success one window per part was asked for, in part order, and the
   * windows cover the video (`PartWindowsCover`); the cut files are
   * deleted with the rest.
   */
  method HandleWithCuts(env: Env, isVideo: bool, own: Option<real>, quoted: Option<real>, username: string, botName: string)
    returns (outcome: Outcome, createdStickers: seq<string>, ghost leftover: set<string>)
    modifies env
    ensures !isVideo ==> outcome == InvalidParameter && env.log == old(env.log)
    ensures isVideo && Fig10Seconds(own, quoted) > Fig10MaxSeconds ==>
      outcome == ErrorReplied(TooLongText) && env.log == old(env.log) + [ErrorReply(TooLongText)]
    ensures isVideo && Fig10Seconds(own, quoted) <= Fig10MaxSeconds ==>
      (outcome == Completed || outcome == ErrorReplied(FailureText)) &&
      |env.log| >= |old(env.log)| + 2 && env.log[..|old(env.log)|] == old(env.log) &&
      env.log[|old(env.log)|] == WaitReact
    ensures outcome == Completed ==>
      var n := Fig10Parts(Fig10Seconds(own, quoted));
      env.tagged == old(env.tagged) + PlanMetadata(username, botName, n) &&
      |env.delivered| == |old(env.delivered)| + n &&
      env.windows == old(env.windows) + PartWindows(n)
    ensures (!isVideo || Fig10Seconds(own, quoted) > Fig10MaxSeconds) ==>
      env.files == old(env.files) && env.tagged == old(env.tagged) && env.delivered == old(env.delivered) &&
      env.windows == old(env.windows)
    ensures env.files <= old(env.files) + leftover
    ensures |leftover| <= 1 && leftover !! old(env.files)
    ensures leftover != {} ==> outcome == ErrorReplied(FailureText)
    ensures forall f :: f in old(env.files) && f !in env.files ==> f in createdStickers
  {
    leftover := {};
    if !isVideo {
      return InvalidParameter, [], leftover;
    }
    var seconds := Fig10Seconds(own, quoted);
    if seconds > Fig10MaxSeconds {
      env.Emit(ErrorReply(TooLongText));
      return ErrorReplied(TooLongText), [], leftover;
    }
    env.Emit(WaitReact);
    var plan := PlanMetadata(username, botName, Fig10Parts(seconds));
    ghost var k, w;
    outcome, createdStickers, k, w, leftover := Run(env, plan, true);
  }

  /**
   * Everything after the wait reaction: download, the parts, the reply,
   * the `finally` cleanup. `k` parts were tagged; with `cut`, each part
   * asks for its own window and `w` windows were asked for; `leftover` is
   * the unlisted output of the ffmpeg run that failed, if it left one.
   */
  method Run(env: Env, plan: seq<StickerMetadata>, cut: bool)
    returns (outcome: Outcome, createdStickers: seq<string>, ghost k: nat, ghost w: nat, ghost leftover: set<string>)
    modifies env
    ensures outcome == Completed || outcome == ErrorReplied(FailureText)
    ensures |env.log| > |old(env.log)| && env.log[..|old(env.log)|] == old(env.log)
    ensures k <= |plan| && env.tagged == old(env.tagged) + plan[..k]
    ensures outcome == Completed ==>
      k == |plan| && |env.delivered| == |old(env.delivered)| + |plan| && env.log[|env.log| - 1] == SuccessReact
    ensures outcome != Completed ==> env.log[|env.log| - 1] == ErrorReply(FailureText)
    ensures k <= w <= |plan| && (outcome == Completed ==> w == |plan|)
    ensures env.windows == old(env.windows) + (if cut then PartWindows(|plan|)[..w] else [])
    ensures env.files <= old(env.files) + leftover
    ensures |leftover| <= 1 && leftover !! old(env.files)
    ensures leftover != {} ==> outcome == ErrorReplied(FailureText)
    ensures forall f :: f in old(env.files) && f !in env.files ==> f in createdStickers
  {
    ghost var before := env.files;
    var download := env.Download(Video);
    var failed := true;
    createdStickers := [];
    k, w, leftover := 0, 0, {};
    if download.Ok? {
      failed, createdStickers, k, w, leftover := RenderParts(env, download.value, plan, cut);
      env.DeleteIfExists(download.value);
    }
    assert forall f :: f in env.files ==> f in before || f in createdStickers || f in leftover;
    if failed {
      env.Emit(ErrorReply(FailureText));
      outcome := ErrorReplied(FailureText);
    } else {
      env.Emit(SuccessReact);
      outcome := Completed;
    }
    env.DeleteAll(createdStickers);
  }

  /**
   * The part loop: part after part until one throws. `failed` says
   * whether the loop stopped early; `created` lists every path pushed;
   * `k` parts were tagged; `leftover` is the unlisted output the failing
   * part's ffmpeg run left, if any.
   */
  method RenderParts(env: Env, input: string, plan: seq<StickerMetadata>, cut: bool)
    returns (failed: bool, created: seq<string>, ghost k: nat, ghost w: nat, ghost leftover: set<string>)
    modifies env
    ensures |env.log| >= |old(env.log)| && env.log[..|old(env.log)|] == old(env.log)
    ensures k <= |plan| && env.tagged == old(env.tagged) + plan[..k]
    ensures !failed ==> k == |plan| && |env.delivered| == |old(env.delivered)| + |plan|
    ensures k <= w <= |plan| && (!failed ==> w == |plan|)
    ensures env.windows == old(env.windows) + (if cut then PartWindows(|plan|)[..w] else [])
    ensures old(env.files) <= env.files
    ensures forall f :: f in env.files ==> f in old(env.files) || f in created || f in leftover
    ensures |leftover| <= 1 && leftover !! old(env.files)
    ensures leftover != {} ==> failed
  {
    failed := false;
    created := [];
    k, w, leftover := 0, 0, {};
    ghost var windows := PartWindows(|plan|);
    var i := 0;
    while i < |plan| && !failed
      invariant 0 <= i <= k <= w <= |plan| && (k == i || failed) && (w == i || failed)
      invariant env.windows == old(env.windows) + (if cut then windows[..w] else [])
      invariant |env.log| >= |old(env.log)| && env.log[..|old(env.log)|] == old(env.log)
      invariant env.tagged == old(env.tagged) + plan[..k]
      invariant |env.delivered| == |old(env.delivered)| + i
      invariant old(env.files) <= env.files
      invariant forall f :: f in env.files ==> f in old(env.files) || f in created || f in leftover
      invariant |leftover| <= 1 && leftover !! old(env.files)
      invariant leftover != {} ==> failed
      decreases |plan| - i, if failed then 0 else 1
    {
      var ok, paths, tagged, left := MakePart(env, input, plan[i], if cut then Some(PlanWindow(i, ChunkSeconds)) else None);
      assert windows[..i + 1] == windows[..i] + [windows[i]];
      w := i + 1;
      if tagged {
        assert plan[..i + 1] == plan[..i] + [plan[i]];
        k := i + 1;
      }
      created := created + paths;
      leftover := left;
      if ok {
        i := i + 1;
      } else {
        failed := true;
      }
    }
  }

  /**
   * One iteration of the part loop: render the whole input (or, given a
   * window, cut that window out first and render the cut), then deliver
   * it (`DeliverPart`). `ok` is false when a step threw; `tagged` says
   * whether the metadata step succeeded; `leftover` is the output a failed
   * ffmpeg run left, which is never pushed to the list.
   */
  method MakePart(env: Env, input: string, meta: StickerMetadata, window: Option<Window>)
    returns (ok: bool, created: seq<string>, tagged: bool, ghost leftover: set<string>)
    modifies env
    ensures ok ==> tagged
    ensures env.tagged == old(env.tagged) + (if tagged then [meta] else [])
    ensures |env.delivered| == |old(env.delivered)| + (if ok then 1 else 0)
    ensures old(env.log) <= env.log
    ensures env.windows == old(env.windows) + (if window.Some? then [window.value] else [])
    ensures old(env.files) <= env.files
    ensures forall f :: f in env.files ==> f in old(env.files) || f in created || f in leftover
    ensures |leftover| <= 1 && leftover !! old(env.files)
    ensures leftover != {} ==> !ok && !tagged
  {
    ok, tagged := false, false;
    var source;
    source, created, leftover := PartSource(env, input, window);
    if source.None? {
      return;
    }
    var sticker;
    sticker, leftover := env.CreateSticker(source.value, true);
    if sticker.Err? {
      return;
    }
    var more;
    ok, more, tagged := DeliverPart(env, sticker.value, meta);
    created := created + [sticker.value] + more;
  }

  /**
   * What a part renders: the input itself, or, given a window, the cut of
   * that window (pushed to the list); `None` when the cut failed, leaving
   * at most its unlisted output.
   */
  method PartSource(env: Env, input: string, window: Option<Window>)
    returns (source: Option<string>, created: seq<string>, ghost leftover: set<string>)
    modifies env
    ensures window.None? ==> source == Some(input) && created == [] && leftover == {} && env.files == old(env.files)
    ensures source.None? ==> created == [] && env.files == old(env.files) + leftover
    ensures source.Some? && window.Some? ==>
      created == [source.value] && leftover == {} && env.files == old(env.files) + {source.value}
    ensures |leftover| <= 1 && leftover !! old(env.files)
    ensures old(env.log) <= env.log
    ensures env.windows == old(env.windows) + (if window.Some? then [window.value] else [])
    ensures env.tagged == old(env.tagged) && env.delivered == old(env.delivered)
  {
    source, created, leftover := Some(input), [], {};
    if window.Some? {
      var clip;
      clip, leftover := env.CutVideo(input, window.value);
      if clip.Err? {
        return None, [], leftover;
      }
      source, created := Some(clip.value), [clip.value];
    }
  }

  /**
   * The rest of one part, once its sticker is rendered: tag a copy of it,
   * write that to `<sticker>.tmp.webp` (pushed to the list), send it and
   * pause a second.
   */
  method DeliverPart(env: Env, sticker: string, meta: StickerMetadata) returns (ok: bool, created: seq<string>, tagged: bool)
    modifies env
    ensures ok ==> tagged
    ensures env.tagged == old(env.tagged) + (if tagged then [meta] else [])
    ensures |env.delivered| == |old(env.delivered)| + (if ok then 1 else 0)
    ensures old(env.log) <= env.log
    ensures env.windows == old(env.windows)
    ensures created == (if tagged then [sticker + ".tmp.webp"] else [])
    ensures env.files == old(env.files) + (if tagged then {sticker + ".tmp.webp"} else {})
  {
    ok, tagged, created := false, false, [];
    var tagError := env.TagToBuffer(sticker, meta);
    if tagError.Some? {
      return;
    }
    tagged := true;
    var finalPath := sticker + ".tmp.webp";
    env.WriteFile(finalPath);
    created := [finalPath];
    var sendError := env.SendSticker(finalPath);
    if sendError.Some? {
      return;
    }
    env.Sleep(1000);
    ok := true;
  }
}
