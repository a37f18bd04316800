# bot-marcio: a verified model of the command core

This project models the core of a WhatsApp group bot written in JavaScript. It models the
sticker commands, the marriage-proposal commands, the phone-number and LID (WhatsApp's linked
identifier) commands, and the hide-tag command. It proves properties of that model in Dafny.

- **Sticker commands.**
  - `fig10` cuts a video of at most 59.5 s into 8.5 s parts.
  - `sticker-multi` makes one sticker from an image, or splits a video into equal segments of at most 10 s.
  - `sticker` turns an image, or a video of at most 10 s, into one sticker.

  Each handler is an imperative method over an `Env` object. `Env` holds:
  - the set of temporary files that exist;
  - a log of what the bot did;
  - the metadata written into stickers, the stickers delivered and the cut windows requested.

  Downloads, ffmpeg, `addStickerMetadata` and sends are `Env` methods that may fail.
  The contracts cover:
  - the retry loops;
  - the segment plan and its windows;
  - the part labels;
  - the temp-file cleanup on every exit path;
  - how a caught error message is classified.
- **Marriage proposals.** There is a `ProposalStore` class whose field is the two-level map group → target → proposal. Its methods are specified by the map functions `Swept`, `Put` and `Delete`. The `casar` (propose), `aceitar` (accept) and `rejeitar` (reject) handlers are methods over a store.
- **Identifiers.**
  - `onlyNumbers`.
  - Target resolution.
  - The `lid` command.
  - Brazilian number normalisation (`gay`) and number variations (`nazista`, in `taxista.js`).
  - The percentage tables, which are proved to partition 0..100.
- **`hide-tag`.** Which text is sent, and to whom.

Durations are exact reals and integers are unbounded. `now` is a parameter in place of `Date.now()`, and random numbers are parameters too. Each sticker-command module ends in a `Handle` method whose contract is the whole behaviour of that command.

## Model

| member | source | states |
|---|---|---|
| SafeUtils.OnlyNumbersOf | src/utils/safe-utils.js:7-12 | A missing, empty or non-string value gives ""; the result is digits only and no longer than the input |
| SafeUtils.OnlyNumbers | src/utils/safe-utils.js:11 | The result is digits only and no longer than the input |
| SafeUtils.OnlyNumbersConcat | src/utils/safe-utils.js:11 | The filter distributes over concatenation, so it keeps exactly the input's digits in their order |
| SafeUtils.OnlyNumbersFixesDigits | src/utils/safe-utils.js:11 | An all-digit string is returned unchanged |
| SafeUtils.OnlyNumbersIdempotent | src/utils/safe-utils.js:11 | Filtering twice is filtering once |
| SafeUtils.OnlyNumbersOfLid | src/utils/safe-utils.js:11 | The digits of `<digits>@lid` are `<digits>` |
| SafeUtils.OnlyNumbersOfMention | src/utils/safe-utils.js:11 | The digits of `@<digits>` are `<digits>` |
| JsString.IncludesIffOccurs | src/commands/member/funny/lid.js:28 | `includes` holds iff the needle occurs at some index |
| JsString.TrimBounds | src/commands/admin/hide-tag.js:48-49 | `trim()` keeps a contiguous middle slice, removes only whitespace around it, and neither end of the slice is whitespace |
| JsString.TrimEmptyIffBlank | src/commands/admin/hide-tag.js:48 | The trimmed text is non-empty iff the text has a non-whitespace character |
| JsString.NatToStringInjective | src/commands/member/sticker2.js:210 | Different counts print differently |
| Target.ResolveTarget | src/commands/member/funny/lid.js:12-25 | Missing argument iff no args and not a reply; unidentified iff a falsy reply LID or an empty first argument; otherwise the reply LID, or the argument's digits + "@lid" |
| Target.MentionDigits | src/commands/member/funny/lid.js:18 | A typed non-empty argument always resolves, and the target's digits are the argument's digits |
| Lid.ClassifyLid | src/commands/member/funny/lid.js:28 | Direct number iff the target contains "@s.whatsapp.net" |
| Lid.Handle | src/commands/member/funny/lid.js:11-42 | InvalidParameter and error reply exactly as target resolution says; otherwise the identifier is the target's digits, the type label and the warning line follow the classification, and the mentions are exactly [target] |
| Lid.TypedTargetIsGroupLid | src/commands/member/funny/lid.js:18-28 | A typed target is always reported as "LID de Grupo" |
| Gay.NormalizePhoneNumber | src/commands/member/funny/gay.js:25-34 | Digits only; "55" is prepended exactly when the digits are 10 or 11 long and do not start with "55", otherwise the digits are returned |
| Gay.NormalizeIdempotent | src/commands/member/funny/gay.js:25-34 | Normalising twice is normalising once |
| Gay.CalculateGayPercentage | src/commands/member/funny/gay.js:39-47 | A special number yields its table value; any other yields the random draw |
| Gay.SpecialNumberIsFixed | src/commands/member/funny/gay.js:7-10 | Both special numbers yield 0 and 100, whether the LID carries the country code or not |
| Gay.LocalNumberGetsCountryCode | src/commands/member/funny/gay.js:28-31 | A 10-digit local number gets "55", and the same number with "55" is left alone |
| Gay.GayRangesPartition | src/commands/member/funny/gay.js:13-20 | Every percentage 0..100 lies in exactly one range, so `find` never fails; 0 is "hetero.mp4" and 100 is "gay_5.mp4" |
| Gay.Handle | src/commands/member/funny/gay.js:55-92 | Error cases follow target resolution. Otherwise the percentage is `calculateGayPercentage` of the normalised number, so a special number gets its fixed value and any other number gets the draw. The GIF and the result text are those of the range `find` picks for that percentage. The mention is "@" + the normalised number, and the mentions are [target] |
| Gay.HandleSpecialNumber | src/commands/member/funny/gay.js:7-10 | A special number typed as the argument reaches the reply with its fixed percentage and GIF (0 and "hetero.mp4", or 100 and "gay_5.mp4"), whatever the draw |
| PercentRanges.Find | src/commands/member/funny/gay.js:78 | `find` returns the first range that holds the value, and nothing iff none does |
| PercentRanges.ContiguousPartitions | src/commands/member/funny/gay.js:13-20 | A gap-free, ordered table from lo to hi holds every value in lo..hi in exactly one range |
| Taxista.RealPhoneIn | src/commands/member/funny/taxista.js:20-28 | A mapped LID gives its phone; any other gives its digits |
| Taxista.GetRealPhoneNumber | src/commands/member/funny/taxista.js:8-28 | With the empty LID map, the real phone is the LID's digits |
| Taxista.AddNew | src/commands/member/funny/taxista.js:33-36 | Set insertion keeps order and has no duplicates; the element is present afterwards |
| Taxista.BaseVariations | src/commands/member/funny/taxista.js:31-41 | The number first, then its country-code variant; no duplicates, one or two entries |
| Taxista.AddMobileNine | src/commands/member/funny/taxista.js:45-50 | Adds exactly the mobile-nine variants of one entry, without duplicates |
| Taxista.AddAllMobileNine | src/commands/member/funny/taxista.js:43-51 | Adds exactly the mobile-nine variants of the snapshot's entries, keeping the prefix |
| Taxista.NumberVariationsShape | src/commands/member/funny/taxista.js:30-54 | The number is first, there are no duplicates and at most 4 entries, and the entries are exactly the number, its country-code variant and their mobile-nine variants |
| Taxista.CountryCodeKeepsDigits | src/commands/member/funny/taxista.js:35-41 | A country-code variant of digits is digits |
| Taxista.MobileNineKeepsDigits | src/commands/member/funny/taxista.js:45-50 | A mobile-nine variant of digits is digits |
| Taxista.VariationsKeepDigits | src/commands/member/funny/taxista.js:35-51 | All variations of a digit string are digit strings |
| Taxista.GetAllNumberVariations | src/commands/member/funny/taxista.js:30-54 | The imperative `Set` and `forEach` build yields the specified variations |
| Taxista.FindWithCountryCode | src/commands/member/funny/taxista.js:72 | The first variation starting with "55" of length ≥ 12, or none iff no variation qualifies |
| Taxista.GetDisplayNumber | src/commands/member/funny/taxista.js:69-74 | The first variation with a country code, else the real phone itself |
| Taxista.CalculateTaxistaPercentage | src/commands/member/funny/taxista.js:56-67 | The value of the first variation in the special table, else the random draw |
| Taxista.TaxistaRangesPartition | src/commands/member/funny/taxista.js:10-18 | Every percentage 0..100 lies in exactly one range |
| Taxista.Handle | src/commands/member/funny/taxista.js:82-112 | Error cases follow target resolution; the shown number is the display number, the percentage is the draw, the mentions are [target], and the GIF and result message are those of the first `TAXISTA_RANGES` entry holding the draw |
| HideTag.Mentions | src/commands/admin/hide-tag.js:26 | The participants' ids, in order |
| HideTag.QuotedText | src/commands/admin/hide-tag.js:35-39 | Priority order: a non-empty `conversation` wins, then `extendedTextMessage.text`, then the image caption, then the video caption; none iff all four are empty or missing |
| HideTag.Handle | src/commands/admin/hide-tag.js:25-56 | Exactly one message, always to all mentions. A reply sends the quoted text, or the "mark a text message" prompt when there is none; otherwise it sends the trimmed argument if non-blank, else the default text |
| HideTag.HandleTextIsNeverBlank | src/commands/admin/hide-tag.js:41-54 | The text sent is never empty; a non-blank argument is sent trimmed at both ends; a blank one gives the default text |
| MarriageProposals.Live | src/utils/marriage-proposals.js:15-24 | The sweep keeps exactly the entries at most five minutes old, unchanged |
| MarriageProposals.Lookup | src/utils/marriage-proposals.js:37-40 | An entry is found iff its group and target are present |
| MarriageProposals.SweptLookup | src/utils/marriage-proposals.js:15-28 | After a sweep an entry survives iff it was there and `now - timestamp <= 300000`; no group is left empty |
| MarriageProposals.ExpiryBoundary | src/utils/marriage-proposals.js:10-24 | An entry exactly five minutes old is kept, and one a millisecond older is dropped |
| MarriageProposals.SweptIdempotent | src/utils/marriage-proposals.js:15-28 | Sweeping twice at one instant is sweeping once |
| MarriageProposals.PutLookup | src/utils/marriage-proposals.js:48-59 | After create, the (group, target) entry is the new proposal and every other entry is unchanged; no group becomes empty |
| MarriageProposals.DeleteLookup | src/utils/marriage-proposals.js:66-75 | Remove deletes only the (group, target) entry, is a no-op for an absent group, and leaves no empty group |
| MarriageProposals.RemoveDoesNotSweep | src/utils/marriage-proposals.js:66-75 | Remove keeps another expired entry, which a sweep would drop |
| MarriageProposals.GetExpirationTime | src/utils/marriage-proposals.js:80-82 | The expiry time is 300000 ms |
| MarriageProposals.ProposalStore.constructor | src/utils/marriage-proposals.js:8 | The store starts empty |
| MarriageProposals.ProposalStore.CleanExpired | src/utils/marriage-proposals.js:15-28 | The nested delete loops leave exactly the swept map, with no empty group |
| MarriageProposals.ProposalStore.HasPending | src/utils/marriage-proposals.js:37-40 | Sweeps every group, then returns the live entry for (group, target) or nothing |
| MarriageProposals.ProposalStore.Create | src/utils/marriage-proposals.js:48-59 | Sweeps, then sets (group, target) to {sender, now}, creating the group or overwriting the entry |
| MarriageProposals.ProposalStore.Remove | src/utils/marriage-proposals.js:66-75 | The map becomes `Delete(old, group, target)` with no sweep |
| Casar.Handle | src/commands/member/funny/casar.js:66-146 | InvalidParameter, unknown target and self-proposal leave the store unchanged. A live proposal to the target keeps the swept store and names its proposer. Otherwise exactly (group, target) ↦ {sender, now} is added |
| Casar.Expire | src/commands/member/funny/casar.js:129-145 | The callback as written sweeps at its own instant; it notifies and removes iff the swept store still holds the sender's proposal |
| Casar.LateCallbackFindsNothing | src/commands/member/funny/casar.js:129-133 | A callback later than five minutes after the proposal finds nothing |
| Casar.LateExpiryScenario | src/commands/member/funny/casar.js:129-145 | A proposal at 0 and a callback at 300001 ms: no expiry notice is sent |
| Casar.ProposeAtZero | src/commands/member/funny/casar.js:97-107 | A proposal into an empty store adds exactly its one entry |
| Casar.ExpireUnswept | src/commands/member/funny/casar.js:129-133 | The corrected callback notifies and removes iff the sender's proposal is still stored, however late it fires |
| Casar.OnTimeExpiryScenario | src/commands/member/funny/casar.js:129-145 | With the corrected callback, the same scenario sends the notice and removes the entry |
| Aceitar.Handle | src/commands/member/funny/aceitar.js:48-98 | No args gives InvalidParameter with the store unchanged. The lookup is (group, acceptor) after a sweep. With no entry: no pending, and the store is the swept store. A different proposer: a reply naming the real one, and nothing is removed. A matching proposer: that one entry is removed. An empty store stays empty |
| Rejeitar.Handle | src/commands/member/funny/rejeitar.js:16-80 | No args gives InvalidParameter; an argument without digits gives an error, store untouched; otherwise as `aceitar`, removing exactly the matching entry |
| ProposalFlow.ProposeThenAnswerAsWritten | src/commands/member/funny/aceitar.js:7-65 | With the three separate Maps, a fresh proposal is neither acceptable nor rejectable |
| ProposalFlow.ProposeThenAccept | src/commands/member/funny/aceitar.js:62-82 | With one shared store, a proposal is accepted by its target within five minutes and consumed |
| ProposalFlow.ProposeThenAcceptShared | src/commands/member/funny/aceitar.js:65-82 | Concrete run of the shared-store wiring: proposed, then accepted |
| ProposalFlow.ProposeThenRejectShared | src/commands/member/funny/rejeitar.js:42-59 | Concrete run on the shared store: proposed, then rejected and removed |
| Segments.Ceil | src/commands/member/sticker2.js:168 | `Math.ceil`: the least integer not below x |
| Segments.ReportedSeconds | src/commands/member/sticker2.js:153-156 | The message's own duration if truthy, else the quoted video's |
| Segments.Fig10Seconds | src/commands/member/fig10.js:34-37 | The reported duration, or 0 when it is missing or zero |
| Segments.Fig10Parts | src/commands/member/fig10.js:58-62 | At least one part |
| Segments.Fig10PartsBounds | src/commands/member/fig10.js:40-62 | An accepted duration 0..59.5 s yields 1 to 7 parts |
| Segments.Fig10PartsCover | src/commands/member/fig10.js:58-62 | The parts cover the duration, and one part fewer would not |
| Segments.WindowContaining | src/commands/member/fig10.js:65-66 | Windows `i·L` of length L abut: each instant in `[0, n·L)` lies in exactly one |
| Segments.Fig10ChunkContaining | src/commands/member/fig10.js:58-66 | Each instant of the video lies in exactly one 8.5 s part window |
| Segments.EqualPlan | src/commands/member/sticker2.js:152-169 | For s > 0: count ≥ 1, (count−1)·10 < s, count·length = s, and 0 < length ≤ 10 |
| Segments.SegmentContaining | src/commands/member/sticker2.js:183-184 | Each instant of the video lies in exactly one segment window |
| Segments.SingleStickerIsOneSegment | src/commands/member/sticker.js:86-91 | For s > 0, `sticker` accepts exactly the videos that `sticker-multi` renders as one segment |
| MediaEnv.RetryTraceShape | src/commands/member/sticker2.js:61-79 | A retry logs attempt k+1 at index 2k with the pause `Delay(k+1)` after it; it makes at most 3 attempts and stops at the first success |
| MediaEnv.RetryTraceEvents | src/commands/member/sticker.js:62-84 | A retry logs only its attempts and pauses |
| MediaEnv.PartSuffixInjective | src/commands/member/sticker2.js:209-211 | Different part numbers give different " (i/n)" labels |
| MediaEnv.UsernameFromLid | src/commands/member/sticker2.js:45-48 | Without a push or notify name, `<digits>@lid` is called `<digits>` |
| MediaEnv.OnlyAddedTrans | src/commands/member/sticker2.js:82-106 | Files added in two steps, each listed, are all on the combined list |
| MediaEnv.Env.FreshPath | src/commands/member/sticker2.js:81 | A temporary name not in use |
| MediaEnv.Env.Download | src/commands/member/fig10.js:55 | One download attempt: a new file, or an error with no file |
| MediaEnv.Env.CreateSticker | src/services/ffmpeg.js:26-106 | A new `.webp` or the error "FFmpeg failed: …"; no window is requested. A failed run may leave at most one new file, its output, whose path is not returned |
| MediaEnv.Env.CutVideo | src/services/ffmpeg.js:26-71 | A new clip of the given window, requested in `windows`, or the error "FFmpeg failed: …", after which at most its unreturned output is left |
| MediaEnv.Env.Exec | src/commands/member/sticker2.js:185-200 | One ffmpeg child process: the window, if any, is requested; it may fail and may or may not leave its output |
| MediaEnv.Env.TagToFile | src/commands/member/sticker2.js:214-218 | Reading a missing file fails; success adds one new file and records the metadata |
| MediaEnv.Env.TagToBuffer | src/commands/member/fig10.js:86-87 | Records the metadata on success; a missing source fails |
| MediaEnv.Env.WriteFile | src/commands/member/fig10.js:90-91 | The path exists afterwards |
| MediaEnv.Env.SendSticker | src/commands/member/sticker2.js:223 | One send attempt; a success is delivered |
| MediaEnv.Env.DeleteIfExists | src/commands/member/sticker2.js:265-267 | The path no longer exists; nothing else changes |
| MediaEnv.Env.DeleteAll | src/commands/member/sticker2.js:264-268 | Every listed path is gone and every other file remains |
| MediaEnv.Env.Discard | src/commands/member/sticker2.js:273-280 | Deleting the input and the temp list restores exactly the files that existed before the command |
| MediaEnv.Env.DownloadWithRetry | src/commands/member/sticker2.js:61-79 | At most 3 downloads with pauses of step·k after failure k; at most one new file |
| MediaEnv.Env.SendWithRetry | src/commands/member/sticker2.js:110-128 | At most 3 sends with the given pause after each failure; the sticker is delivered at most once |
| Fig10.PlanMetadata | src/commands/member/fig10.js:81-84 | Part i's bot name carries " (i+1/count)" |
| Fig10.PartMetadataDistinct | src/commands/member/fig10.js:81-84 | Different parts get different pack names |
| Fig10.PartWindows | src/commands/member/fig10.js:66 | Part i's window starts at i·8.5 and lasts 8.5 s |
| Fig10.PartWindowsCover | src/commands/member/fig10.js:58-75 | The part windows cover every instant of an accepted video exactly once |
| Fig10.Handle | src/commands/member/fig10.js:26-115 | A non-video throws; over 59.5 s gives only the error reply, before the wait reaction. Otherwise: the wait reaction, then parts tagged in part order as a prefix of the plan. The run ends in exactly one of the success reaction (all parts delivered) or the single error reply; it never rethrows and requests no cut window. The only file it can leave is the unpushed output of a failed `createSticker` (at most one, and only with the error reply) |
| Fig10.Run | src/commands/member/fig10.js:51-115 | Download, parts, then one reaction or error reply; the `finally` block removes the input and every pushed path, so only a failed ffmpeg run's unpushed output (at most one, only with the error reply) can remain |
| Fig10.RenderParts | src/commands/member/fig10.js:65-99 | The loop tags plan[..k] and delivers one sticker per finished part; with cuts it requests the windows in part order |
| Fig10.MakePart | src/commands/member/fig10.js:70-98 | One part: delivered only if tagged; every file it makes is on its list, except the output of a failed ffmpeg run, which is never pushed (at most one, and the part is neither tagged nor delivered) |
| Fig10.PartSource | src/commands/member/fig10.js:70-77 | Without a window the part renders the input itself; with one, the cut clip is pushed, and a failed cut leaves at most its unpushed output |
| Fig10.DeliverPart | src/commands/member/fig10.js:79-98 | Tagged iff `addStickerMetadata` succeeded, then exactly `<sticker>.tmp.webp` is written and pushed; delivered only if tagged and the send succeeded |
| Fig10.TwentySecondsIsThreeParts | src/commands/member/fig10.js:58-62 | A 20 s video is planned as 3 parts |
| Fig10.TwentySecondsAsWritten | src/commands/member/fig10.js:70-75 | As written, a completed 20 s run delivers 3 stickers yet requests no window |
| Fig10.HandleWithCuts | src/commands/member/fig10.js:70-75 | The corrected handler: on success, part i is rendered from window i·8.5, in order |
| StickerErrors.ClassifyMulti | src/commands/member/sticker2.js:282-300 | Connection markers first, then "FFmpeg", else the generic wrapper |
| StickerErrors.ClassifySingle | src/commands/member/sticker.js:131-138 | "FFmpeg" first, then ETIMEDOUT/ECONNREFUSED, else the rethrow wrapped |
| StickerErrors.CreateStickerFailureIsProcessing | src/commands/member/sticker.js:131-133 | Any `createSticker` failure is answered as a processing error |
| StickerErrors.OrdersDisagree | src/commands/member/sticker2.js:282-298 | The two commands classify "FFmpeg failed: connect ETIMEDOUT" differently |
| StickerErrors.NoConnectionMarker | src/commands/member/sticker2.js:282-288 | A message lacking "E" and one letter of "mmg.whatsapp.net" mentions no connection marker |
| StickerErrors.MissingSegmentIsProcessing | src/commands/member/sticker2.js:202-204 | A missing segment file is reported as the FFmpeg error |
| StickerErrors.MultiVideoDownloadFailureIsGeneric | src/commands/member/sticker2.js:142-146 | The video download failure text matches no marker, so it is wrapped generically despite naming a connection problem |
| StickerErrors.MultiImageDownloadKeepsCause | src/commands/member/sticker2.js:71-75 | An image download that timed out is classified as a connection error |
| StickerErrors.SingleRethrows | src/commands/member/sticker.js:131-138 | A message missing a letter of each marker is rethrown wrapped |
| StickerErrors.SingleImageDownloadFailureRethrows | src/commands/member/sticker.js:69 | The image download failure is always rethrown |
| StickerErrors.SingleVideoDownloadFailureRethrows | src/commands/member/sticker.js:81 | The video download failure is always rethrown |
| StickerErrors.SingleSendFailureRethrows | src/commands/member/sticker.js:122 | The send failure is always rethrown |
| StickerMulti.StickerCount | src/commands/member/sticker2.js:168-183 | The loop count is `ceil(s/10)`, and none for s ≤ 0 |
| StickerMulti.SegmentPlan | src/commands/member/sticker2.js:207-212 | Segment i's username carries " (i+1/n)" only when n > 1 |
| StickerMulti.VideoWindows | src/commands/member/sticker2.js:183-189 | Window i starts at i·(s/n) and lasts s/n |
| StickerMulti.SegmentMetadataDistinct | src/commands/member/sticker2.js:207-212 | Different segments get different labels |
| StickerMulti.VideoWindowsTile | src/commands/member/sticker2.js:183-189 | The windows tile `[0, s)` exactly |
| StickerMulti.Handle | src/commands/member/sticker2.js:36-302 | Neither image nor video throws before any work. Every other path starts with the wait reaction and ends with the file set as it was. A thrown error is the classification of its cause, and the last event names the step that threw. For an image: the third failed download (message "Falha ao baixar imagem após 3 tentativas: …"), ffmpeg, tagging, or the third failed send ("Falha ao enviar figurinha após 3 tentativas: …"). For a video: the third failed download (the fixed message) or a step of segment i+1 of n. A missing duration gives only the error reply. A completed image tags and delivers one sticker. A completed video tags the segment plan in order, requests exactly the segment windows, delivers n stickers, and ends with the final reply for n > 1 |
| StickerMulti.ImageBranch | src/commands/member/sticker2.js:60-128 | Download, convert, delete the input; completion tags once and delivers once; a throw comes from the download (with its cause in the message), ffmpeg, tagging or the send, named by the last event |
| StickerMulti.SendImage | src/commands/member/sticker2.js:102-128 | On completion the log gains exactly: the successful tagging, the success reaction, then the send retry with pauses of 1 s·k; one sticker is delivered. A throw is the failed tagging, or the third failed send with "Falha ao enviar figurinha após 3 tentativas: …" |
| StickerMulti.VideoBranch | src/commands/member/sticker2.js:131-165 | A missing duration deletes the input, replies and makes no ffmpeg run; a throw is the third failed download with the fixed message, or a step of one segment; otherwise as SplitVideo |
| StickerMulti.SplitVideo | src/commands/member/sticker2.js:168-260 | Notice for n > 1; the segments; input deleted; success reaction, then the final reply for n > 1; a throw comes from a step of segment i+1 of n |
| StickerMulti.SegmentLoop | src/commands/member/sticker2.js:183-246 | Segments in order until one throws, and the throw names a step of some segment i+1 of n; with none thrown, plan, windows and n deliveries |
| StickerMulti.MakeSegment | src/commands/member/sticker2.js:184-245 | A segment whose output is missing throws "Segmento <i+1> não foi criado pelo FFmpeg" and is neither tagged nor sent; a throw is a failed ffmpeg run, that missing file, a failed tagging, or the third failed send with "Falha ao enviar figurinha <i+1> após 3 tentativas: …" |
| StickerMulti.VideoThrewClassified | src/commands/member/sticker2.js:282-300 | Of the video path's throws, three failed downloads reach the user as the generic wrapper, and a segment ffmpeg did not leave as the FFmpeg error |
| StickerMulti.ImageThrewClassified | src/commands/member/sticker2.js:71-75 | A timeout behind three failed image downloads reaches the user as the connection error |
| Sticker.Handle | src/commands/member/sticker.js:34-153 | Neither image nor video throws. Otherwise, after the wait reaction, the files are restored on every path except for the output of a failed `createSticker`, which the `finally` block cannot name (at most one file, and only with the processing reply). The outcome is the too-long reply, a processing or connection reply by classification, a wrapped rethrow, or one tagged and delivered sticker. A caught error is named by the event just before the catch: the third failed download ("Falha ao baixar imagem." or "Falha ao baixar vídeo."), `createSticker` ("FFmpeg failed: …"), tagging, or the third failed send ("Erro ao enviar figurinha.") |
| Sticker.Attempt | src/commands/member/sticker.js:60-152 | The `try`, `catch` and `finally` blocks: the same outcome and step guarantees as the handler. The files are restored except for at most one output of a failed `createSticker`, which comes only with the processing reply |
| Sticker.Catch | src/commands/member/sticker.js:127-139 | The classification picks the reply or the rethrown message |
| Sticker.Process | src/commands/member/sticker.js:60-125 | A missing or over-10 s duration deletes the input and replies, with no ffmpeg run; a throw is the third failed download with its fixed message or a failing render step; only a failed `createSticker` adds an unlisted file |
| Sticker.Render | src/commands/member/sticker.js:101-125 | On completion the log gains exactly: the successful `createSticker`, the tagging, the success reaction, then the send retry with constant 1 s pauses; that one sticker is delivered. A throw is `createSticker` ("FFmpeg failed: …"), tagging, or the third failed send ("Erro ao enviar figurinha."). Every file it adds is held for the `finally` block, except a failed `createSticker`'s output (`stickerPath` is still null) |
| Sticker.StepThrewClassified | src/commands/member/sticker.js:127-139 | Of the `try` block's throws, a `createSticker` failure gets the processing reply and the command's own download and send messages are rethrown wrapped, so a connection reply can only come from the tagging step |
| Sticker.OwnMessageRethrown | src/commands/member/sticker.js:69-138 | The three messages the command throws itself are always rethrown wrapped |

## Left out

- The socket, message dispatch and the text and GIF rendering of replies are left out; replies are events with their decisive text.
- Sends, reactions and replies other than sticker sends never fail in the model. File writes never fail.
- Timers are `Pause` events, and the `casar` expiry callback is a method called at a chosen instant.
- `getRandomNumber` is a parameter, limited to 0..100 where the handler relies on it.
- Number printing (`${seconds}`, `toFixed(1)` in the notices) is a parameter, as text.
- StickerMulti.VideoWindows: the window offsets and lengths are exact reals. The ffmpeg command prints them with `toFixed(2)`, and that rounding is left out, so `VideoWindowsTile` holds of the plan, not of the rounded command: for 25 s the printed windows leave [16.66, 16.67) uncovered.
- Console logging is left out.
- `onlyNumbers` is imported from `src/utils/index.js`, which is not part of this model. It is taken to be the digit filter of `src/utils/safe-utils.js`.
- `src/services/ffmpeg.js` is modelled only through the contracts of `createSticker`, `cutVideo` and the raw ffmpeg child process. Its command lines and the external tools are left out.
- `addStickerMetadata` is not part of this model. `fig10` uses its result as a buffer that it writes to `<sticker>.tmp.webp`; `sticker` and `sticker-multi` use it as a path. Both uses are modelled as written.
- The `hide-tag` reaction "📢" is left out. It is sent unconditionally before the text.
- The dispatcher is left out, including which of `fig10.js` and `sticker2.js` wins the shared command name `fig10`.
- Temporary names are assumed fresh.
- Sticker.Handle, Sticker.Attempt, Fig10.Handle, Fig10.MakePart: do not promise that every file the run made is deleted. `createSticker` and `cutVideo` choose their output path themselves and reject without deleting it, so a failed run's output is never seen by the `finally` block. The contracts bound it to at most one new file, left only with the error reply.
- The messages of a failed ffmpeg child process, of `addStickerMetadata`, and of the underlying download and send errors are arbitrary strings. A failure of those steps is named by its log event, not by its text.
- Fig10.Handle: proves only that no file outlives the run (files ⊆ before plus a failed ffmpeg run's output). Its `<sticker>.tmp.webp` name is derived rather than fresh, so it could be an existing file that the cleanup deletes.
- Casar.Handle: both store calls of one invocation use the same `now`.
- `fig10` passes a start and a duration to `createSticker`, which ignores them. The model does not claim its parts are windowed (see Findings).

## Findings

| source | as written | input that shows it | evidently intended | confidence | as-written member | corrected member |
|---|---|---|---|---|---|---|
| src/commands/member/funny/aceitar.js:7 | `casar`, `aceitar` and the utilities module each keep a separate Map, and `rejeitar` reads the utilities one | `1@lid` runs `casar @2`, then `2@lid` runs `aceitar @1` one second later: "no pending proposal" | one store shared by the three commands | high (not executed) | ProposalFlow.ProposeThenAnswerAsWritten | ProposalFlow.ProposeThenAcceptShared |
| src/commands/member/funny/casar.js:130 | the expiry callback looks the proposal up through `hasPendingProposal`, which first sweeps entries older than five minutes | proposal at 0 ms, timer firing at 300001 ms: the entry is swept and no expiry notice is sent | the callback finds the unanswered proposal, removes it and announces it | medium (not executed) | Casar.LateExpiryScenario | Casar.OnTimeExpiryScenario |
| src/commands/member/fig10.js:70-75 | `createSticker(inputPath, true, startTime, CHUNK_DURATION)`; `createSticker` takes only `(inputPath, isVideo)`, so every part renders the video from its start | a 20 s video: 3 stickers are sent and none is cut | cut part i's 8.5 s window with `cutVideo` and render the cut | high (not executed) | Fig10.TwentySecondsAsWritten | Fig10.HandleWithCuts |
