/**
 * The world the sticker commands act on: the temporary files that exist,
 * the sequence of things the bot did (reactions, replies, downloads,
 * ffmpeg runs, metadata tagging, sends, pauses), and what came out of it:
 * the metadata written into stickers, the stickers delivered to the chat
 * and the cut windows asked of ffmpeg. Downloads, ffmpeg,
 * `addStickerMetadata` and sends are abstract operations that may fail;
 * every file they create gets a name not in use.
 */
module MediaEnv {
  import opened Wrappers
  import opened JsString
  import opened Segments
  import opened StickerErrors

  datatype Media = Image | Video

  /** The sticker pack fields written by `addStickerMetadata`. */
  datatype StickerMetadata = StickerMetadata(username: string, botName: string)

  datatype Event =
    | WaitReact
    | SuccessReact
    | ErrorReply(text: string)
    | Reply(text: string)
    | Fetch(media: Media, ok: bool)                                  // one download attempt
    | Pause(ms: int)                                                 // an awaited timer
    | Render(input: string, output: string, window: Option<Window>, ok: bool)  // one ffmpeg run
    | Tag(meta: StickerMetadata, ok: bool)                           // one `addStickerMetadata`
    | Send(path: string, ok: bool)                                   // one `sendStickerFromFile` attempt

  /** How a handler ends. */
  datatype Outcome =
    | InvalidParameter           // `InvalidParameterError` thrown before any work
    | ErrorReplied(text: string) // an error reply was sent and the handler returned
    | Completed
    | Thrown(message: string)    // an error propagates to the dispatcher

  // ------------------------------------------------------------ retries

  /** The pause after failed attempt `k`: `step * k`, or a constant. */
  datatype Backoff = Linear(step: int) | Constant(delay: int)

  function Delay(b: Backoff, attempt: nat): int {
    match b
    case Linear(step) => step * attempt
    case Constant(delay) => delay
  }

  const MaxAttempts: nat := 3

  /** `failures` failed attempts, each followed by its pause. */
  function FailedAttempts(fail: Event, b: Backoff, failures: nat): seq<Event>
    decreases failures
  {
    if failures == 0 then [] else FailedAttempts(fail, b, failures - 1) + [fail, Pause(Delay(b, failures))]
  }

  /** A bounded retry: the failed attempts with their pauses, then the attempt that ended the loop. */
  function RetryTrace(fail: Event, success: Event, b: Backoff, failures: nat, succeeded: bool): seq<Event> {
    FailedAttempts(fail, b, failures) + [if succeeded then success else fail]
  }

  /** A retry loop of three attempts stops at the first success; it gives up after the third failure. */
  predicate RetryEnded(failures: nat, succeeded: bool) {
    if succeeded then failures < MaxAttempts else failures == MaxAttempts - 1
  }

  /**
   * The shape of a retry: attempt `j + 1` is at index `2 * j` and is
   * followed by the pause `Delay(b, j + 1)`; the last attempt has no pause.
   * With the loop's bound, at most three attempts are made.
   */
  lemma {:induction false} RetryTraceShape(fail: Event, success: Event, b: Backoff, failures: nat, succeeded: bool)
    ensures var t := RetryTrace(fail, success, b, failures, succeeded);
      |t| == 2 * failures + 1 &&
      (forall j :: 0 <= j < failures ==> t[2 * j] == fail && t[2 * j + 1] == Pause(Delay(b, j + 1))) &&
      t[2 * failures] == (if succeeded then success else fail)
    ensures RetryEnded(failures, succeeded) ==> failures + 1 <= MaxAttempts
  {
    FailedAttemptsShape(fail, b, failures);
  }

  /** A retry logs nothing but its attempts and the pauses between them. */
  lemma {:induction false} RetryTraceEvents(fail: Event, success: Event, b: Backoff, failures: nat, succeeded: bool)
    ensures forall e :: e in RetryTrace(fail, success, b, failures, succeeded) ==> e == fail || e == success || e.Pause?
  {
    FailedAttemptsEvents(fail, b, failures);
  }

  lemma {:induction false} FailedAttemptsEvents(fail: Event, b: Backoff, failures: nat)
    ensures forall e :: e in FailedAttempts(fail, b, failures) ==> e == fail || e.Pause?
    decreases failures
  {
    if failures > 0 {
      FailedAttemptsEvents(fail, b, failures - 1);
    }
  }

  lemma {:induction false} FailedAttemptsShape(fail: Event, b: Backoff, failures: nat)
    ensures var t := FailedAttempts(fail, b, failures);
      |t| == 2 * failures &&
      forall j :: 0 <= j < failures ==> t[2 * j] == fail && t[2 * j + 1] == Pause(Delay(b, j + 1))
  {
    if failures > 0 {
      FailedAttemptsShape(fail, b, failures - 1);
    }
  }

  // ------------------------------------------------------------- labels

  /** ` (<part>/<count>)`, the part label the multi-part commands append. */
  function PartSuffix(part: nat, count: nat): string {
    " (" + NatToString(part) + "/" + NatToString(count) + ")"
  }

  /** The label names its part: two different parts of one plan never carry the same label. */
  lemma PartSuffixInjective(i: nat, j: nat, count: nat)
    ensures PartSuffix(i, count) == PartSuffix(j, count) ==> i == j
  {
    var a, b := NatToString(i), NatToString(j);
    var tail := NatToString(count) + ")";
    assert PartSuffix(i, count) == " (" + (a + ['/'] + tail);
    assert PartSuffix(j, count) == " (" + (b + ['/'] + tail);
    if PartSuffix(i, count) == PartSuffix(j, count) {
      assert a + ['/'] + tail == PartSuffix(i, count)[2..];
      assert b + ['/'] + tail == PartSuffix(j, count)[2..];
      DigitsBeforeSeparator(a, tail, b, tail, '/');
      NatToStringInjective(i, j);
    }
  }

  /** The sender's display name: `pushName || notifyName || userLid.replace(/@lid/, "")`. */
  function Username(pushName: Option<string>, notifyName: Option<string>, userLid: string): (r: string)
    ensures pushName.Some? && pushName.value != "" ==> r == pushName.value
  {
    if pushName.Some? && pushName.value != "" then pushName.value
    else if notifyName.Some? && notifyName.value != "" then notifyName.value
    else ReplaceFirst(userLid, "@lid", "")
  }

  /** Without a push name or notify name, a member `<number>@lid` is called `<number>`. */
  lemma UsernameFromLid(number: string)
    requires AllDigits(number)
    ensures Username(None, None, number + "@lid") == number
  {
    ReplaceLidSuffix(number);
  }

  lemma {:induction false} ReplaceLidSuffix(number: string)
    requires AllDigits(number)
    ensures ReplaceFirst(number + "@lid", "@lid", "") == number
  {
    if number == [] {
      assert number + "@lid" == "@lid";
    } else {
      assert (number + "@lid")[0] == number[0];
      assert !StartsWith(number + "@lid", "@lid");
      assert (number + "@lid")[1..] == number[1..] + "@lid";
      ReplaceLidSuffix(number[1..]);
    }
  }

  // ---------------------------------------------------------------- world

  // --------------------------------------------------------- temp files

  /**
   * `files` is `base` plus some of the paths in `added`, none of which
   * existed in `base`: the files a command made are all on its lists.
   */
  ghost predicate OnlyAdded(files: set<string>, base: set<string>, added: seq<string>) {
    base <= files &&
    (forall f :: f in files && f !in base ==> f in added) &&
    (forall p :: p in added ==> p !in base)
  }

  /** Two steps that each only added listed files only added the files of both lists. */
  lemma OnlyAddedTrans(base: set<string>, mid: set<string>, files: set<string>, a: seq<string>, b: seq<string>)
    requires OnlyAdded(mid, base, a) && OnlyAdded(files, mid, b)
    ensures OnlyAdded(files, base, a + b)
  {
    forall f | f in files && f !in base ensures f in a + b {
      if f in mid {
        assert f in a;
      } else {
        assert f in b;
      }
    }
  }

  class Env {
    /** The files that exist. */
    var files: set<string>
    /** Everything the bot did, in order. */
    var log: seq<Event>
    /** The metadata of every successful `addStickerMetadata` call, in order. */
    var tagged: seq<StickerMetadata>
    /** The files that reached the chat as stickers, in order. */
    var delivered: seq<string>
    /** The cut windows ffmpeg was asked for, in order. */
    var windows: seq<Window>

    /** A name no existing file has: the temporary names are taken to be unique. */
    method FreshPath() returns (p: string)
      ensures p !in files
    {
      var rest := files;
      var longest: nat := 0;
      while rest != {}
        invariant rest <= files
        invariant forall f :: f in files && f !in rest ==> |f| <= longest
        decreases rest
      {
        var f :| f in rest;
        if |f| > longest {
          longest := |f|;
        }
        rest := rest - {f};
      }
      p := seq(longest + 1, _ => 'x');
    }

    /** A reaction or reply; these are taken not to fail. */
    method Emit(e: Event)
      modifies this
      ensures log == old(log) + [e]
      ensures files == old(files) && tagged == old(tagged) && delivered == old(delivered) && windows == old(windows)
    {
      log := log + [e];
    }

    /** `await new Promise(r => setTimeout(r, ms))` */
    method Sleep(ms: int)
      modifies this
      ensures log == old(log) + [Pause(ms)]
      ensures files == old(files) && tagged == old(tagged) && delivered == old(delivered) && windows == old(windows)
    {
      log := log + [Pause(ms)];
    }

    /** `downloadImage` / `downloadVideo`: on success a new file holds the media. */
    method Download(media: Media) returns (r: Result<string, string>)
      modifies this
      ensures r.Ok? ==> r.value !in old(files) && files == old(files) + {r.value}
      ensures r.Err? ==> files == old(files)
      ensures log == old(log) + [Fetch(media, r.Ok?)]
      ensures tagged == old(tagged) && delivered == old(delivered) && windows == old(windows)
    {
      var ok: bool :| true;
      if ok {
        var p := FreshPath();
        files := files + {p};
        r := Ok(p);
      } else {
        var message: string :| true;
        r := Err(message);
      }
      log := log + [Fetch(media, ok)];
    }

    /**
     * `Ffmpeg.createSticker(input, isVideo)`: a new `.webp` file, or a
     * rejection whose message is `FFmpeg failed: <stderr>`. It takes no
     * window: the whole input is rendered. The output path is chosen inside
     * the service and only returned on success; a failed run may still
     * have written it, and `leftover` is that file, which no caller can name.
     */
    method CreateSticker(input: string, isVideo: bool) returns (r: Result<string, string>, ghost leftover: set<string>)
      modifies this
      ensures r.Ok? ==> r.value !in old(files) && files == old(files) + {r.value} && leftover == {}
      ensures r.Err? ==> files == old(files) + leftover && exists stderr :: r.error == FfmpegFailure(stderr)
      ensures |leftover| <= 1 && leftover !! old(files)
      ensures log == old(log) + [Render(input, if r.Ok? then r.value else "", None, r.Ok?)]
      ensures tagged == old(tagged) && delivered == old(delivered) && windows == old(windows)
    {
      var p := FreshPath();
      var ok: bool :| true;
      leftover := {};
      if ok {
        files := files + {p};
        r := Ok(p);
      } else {
        var written: bool :| true;
        if written {
          files := files + {p};
          leftover := {p};
        }
        var stderr: string :| true;
        r := Err(FfmpegFailure(stderr));
      }
      log := log + [Render(input, if r.Ok? then r.value else "", None, ok)];
    }

    /**
     * `Ffmpeg.cutVideo(input, start, duration)`: a new `.mp4` holding only
     * the window, or a rejection whose message is `FFmpeg failed: <stderr>`;
     * as with `CreateSticker`, a failed run may leave its unnamed output.
     */
    method CutVideo(input: string, window: Window) returns (r: Result<string, string>, ghost leftover: set<string>)
      modifies this
      ensures r.Ok? ==> r.value !in old(files) && files == old(files) + {r.value} && leftover == {}
      ensures r.Err? ==> files == old(files) + leftover && exists stderr :: r.error == FfmpegFailure(stderr)
      ensures |leftover| <= 1 && leftover !! old(files)
      ensures log == old(log) + [Render(input, if r.Ok? then r.value else "", Some(window), r.Ok?)]
      ensures windows == old(windows) + [window]
      ensures tagged == old(tagged) && delivered == old(delivered)
    {
      var p := FreshPath();
      var ok: bool :| true;
      leftover := {};
      if ok {
        files := files + {p};
        r := Ok(p);
      } else {
        var written: bool :| true;
        if written {
          files := files + {p};
          leftover := {p};
        }
        var stderr: string :| true;
        r := Err(FfmpegFailure(stderr));
      }
      log := log + [Render(input, if r.Ok? then r.value else "", Some(window), ok)];
      windows := windows + [window];
    }

    /**
     * An ffmpeg child process writing to `output`, cut to `window` when one
     * is given: it may fail, and whether or not it reports success it may
     * or may not leave the output file.
     */
    method Exec(input: string, output: string, window: Option<Window>) returns (err: Option<string>)
      modifies this
      ensures files == old(files) || files == old(files) + {output}
      ensures log == old(log) + [Render(input, output, window, err.None?)]
      ensures windows == old(windows) + (if window.Some? then [window.value] else [])
      ensures tagged == old(tagged) && delivered == old(delivered)
    {
      var created: bool :| true;
      if created {
        files := files + {output};
      }
      var ok: bool :| true;
      if ok {
        err := None;
      } else {
        var message: string :| true;
        err := Some(message);
      }
      log := log + [Render(input, output, window, ok)];
      if window.Some? {
        windows := windows + [window.value];
      }
    }

    /**
     * `addStickerMetadata(await fs.promises.readFile(source), meta)` as the
     * multi-sticker and single-sticker commands use it: a path to a new
     * file. Reading a missing file fails.
     */
    method TagToFile(source: string, meta: StickerMetadata) returns (r: Result<string, string>)
      modifies this
      ensures source !in old(files) ==> r.Err?
      ensures r.Ok? ==> r.value !in old(files) && files == old(files) + {r.value}
      ensures r.Err? ==> files == old(files)
      ensures log == old(log) + [Tag(meta, r.Ok?)]
      ensures tagged == old(tagged) + (if r.Ok? then [meta] else [])
      ensures delivered == old(delivered) && windows == old(windows)
    {
      var ok: bool :| true;
      if ok && source in files {
        var p := FreshPath();
        files := files + {p};
        r := Ok(p);
        tagged := tagged + [meta];
      } else {
        var message: string :| true;
        r := Err(message);
      }
      log := log + [Tag(meta, r.Ok?)];
    }

    /**
     * The same call as `fig10` uses it: the tagged sticker comes back in
     * memory and `fig10` writes it to a file itself.
     */
    method TagToBuffer(source: string, meta: StickerMetadata) returns (err: Option<string>)
      modifies this
      ensures source !in old(files) ==> err.Some?
      ensures files == old(files)
      ensures log == old(log) + [Tag(meta, err.None?)]
      ensures tagged == old(tagged) + (if err.None? then [meta] else [])
      ensures delivered == old(delivered) && windows == old(windows)
    {
      var ok: bool :| true;
      if ok && source in files {
        err := None;
        tagged := tagged + [meta];
      } else {
        var message: string :| true;
        err := Some(message);
      }
      log := log + [Tag(meta, err.None?)];
    }

    /** `fs.writeFileSync(path, data)`: creates or overwrites the file. */
    method WriteFile(path: string)
      modifies this
      ensures files == old(files) + {path}
      ensures log == old(log) && tagged == old(tagged) && delivered == old(delivered) && windows == old(windows)
    {
      files := files + {path};
    }

    /** One `sendStickerFromFile(path)`. */
    method SendSticker(path: string) returns (err: Option<string>)
      modifies this
      ensures log == old(log) + [Send(path, err.None?)]
      ensures delivered == old(delivered) + (if err.None? then [path] else [])
      ensures files == old(files) && tagged == old(tagged) && windows == old(windows)
    {
      var ok: bool :| true;
      if ok {
        err := None;
        delivered := delivered + [path];
      } else {
        var message: string :| true;
        err := Some(message);
      }
      log := log + [Send(path, ok)];
    }

    /** `if (path && fs.existsSync(path)) fs.unlinkSync(path)` */
    method DeleteIfExists(path: string)
      modifies this
      ensures files == old(files) - {path}
      ensures log == old(log) && tagged == old(tagged) && delivered == old(delivered) && windows == old(windows)
    {
      if path in files {
        files := files - {path};
      }
    }

    /** `paths.forEach(p => { if (fs.existsSync(p)) fs.unlinkSync(p) })` */
    method DeleteAll(paths: seq<string>)
      modifies this
      ensures files == old(files) - set p | p in paths
      ensures log == old(log) && tagged == old(tagged) && delivered == old(delivered) && windows == old(windows)
    {
      for k := 0 to |paths|
        invariant files == old(files) - set p | p in paths[..k]
        invariant log == old(log) && tagged == old(tagged) && delivered == old(delivered) && windows == old(windows)
      {
        assert paths[..k + 1] == paths[..k] + [paths[k]];
        DeleteIfExists(paths[k]);
      }
      assert paths[..|paths|] == paths;
    }

    /**
     * The cleanup every sticker command ends with: the input, when the
     * variable still holds it, and every listed temporary file. Whatever the
     * command made is gone and nothing that existed before is touched.
     */
    method Discard(input: Option<string>, temp: seq<string>, ghost base: set<string>)
      requires OnlyAdded(files, base, (if input.Some? then [input.value] else []) + temp)
      modifies this
      ensures files == base
      ensures log == old(log) && tagged == old(tagged) && delivered == old(delivered) && windows == old(windows)
    {
      ghost var listed := (if input.Some? then [input.value] else []) + temp;
      if input.Some? {
        DeleteIfExists(input.value);
      }
      DeleteAll(temp);
      forall f | f in base ensures f in files {
        assert f !in listed;
      }
    }

    /**
     * Up to three downloads; after failed attempt `k` the loop waits
     * `step * k` milliseconds; the error of the third failure is returned.
     */
    method DownloadWithRetry(media: Media, step: int) returns (r: Result<string, string>, ghost failures: nat)
      modifies this
      ensures RetryEnded(failures, r.Ok?)
      ensures log == old(log) + RetryTrace(Fetch(media, false), Fetch(media, true), Linear(step), failures, r.Ok?)
      ensures r.Ok? ==> r.value !in old(files) && files == old(files) + {r.value}
      ensures r.Err? ==> files == old(files)
      ensures tagged == old(tagged) && delivered == old(delivered) && windows == old(windows)
    {
      var attempt := 1;
      failures := 0;
      while true
        invariant 1 <= attempt <= MaxAttempts && failures == attempt - 1
        invariant log == old(log) + FailedAttempts(Fetch(media, false), Linear(step), failures)
        invariant files == old(files)
        invariant tagged == old(tagged) && delivered == old(delivered) && windows == old(windows)
        decreases MaxAttempts - attempt
      {
        r := Download(media);
        if r.Ok? || attempt == MaxAttempts {
          return;
        }
        Sleep(step * attempt);
        attempt := attempt + 1;
        failures := failures + 1;
      }
    }

    /** Up to three sends of one file, with the given pause after each failure; the file is delivered at most once. */
    method SendWithRetry(path: string, b: Backoff) returns (err: Option<string>, ghost failures: nat)
      modifies this
      ensures RetryEnded(failures, err.None?)
      ensures log == old(log) + RetryTrace(Send(path, false), Send(path, true), b, failures, err.None?)
      ensures delivered == old(delivered) + (if err.None? then [path] else [])
      ensures files == old(files) && tagged == old(tagged) && windows == old(windows)
    {
      var attempt := 1;
      failures := 0;
      while true
        invariant 1 <= attempt <= MaxAttempts && failures == attempt - 1
        invariant log == old(log) + FailedAttempts(Send(path, false), b, failures)
        invariant files == old(files) && delivered == old(delivered)
        invariant tagged == old(tagged) && windows == old(windows)
        decreases MaxAttempts - attempt
      {
        err := SendSticker(path);
        if err.None? || attempt == MaxAttempts {
          return;
        }
        Sleep(Delay(b, attempt));
        attempt := attempt + 1;
        failures := failures + 1;
      }
    }
  }
}
