/**
 * How the two sticker commands turn a caught error message into what the
 * user sees. The multi-sticker command tests the connection markers first
 * and rethrows one of three messages; the single-sticker command tests
 * "FFmpeg" first, answers with an error reply for the two known kinds and
 * rethrows everything else wrapped.
 */
module StickerErrors {
  import opened JsString

  /** `error.message` mentions one of the markers of a failed connection to WhatsApp's media servers. */
  predicate MentionsConnection(m: string) {
    Includes(m, "ETIMEDOUT") || Includes(m, "AggregateError") || Includes(m, "getaddrinfo ENOTFOUND") ||
    Includes(m, "connect ECONNREFUSED") || Includes(m, "mmg.whatsapp.net")
  }

  const MultiConnectionText := "Erro de conexão ao baixar mídia do WhatsApp. Tente novamente em alguns segundos."
  const MultiFfmpegText := "Erro ao processar mídia com FFmpeg. Verifique se o arquivo não está corrompido."
  const MultiGenericPrefix := "Erro ao processar a figurinha: "

  /** The message of the error the multi-sticker command rethrows for a caught message `m`. */
  function ClassifyMulti(m: string): (r: string)
    ensures MentionsConnection(m) ==> r == MultiConnectionText
    ensures !MentionsConnection(m) && Includes(m, "FFmpeg") ==> r == MultiFfmpegText
    ensures !MentionsConnection(m) && !Includes(m, "FFmpeg") ==> r == MultiGenericPrefix + m
  {
    if MentionsConnection(m) then MultiConnectionText
    else if Includes(m, "FFmpeg") then MultiFfmpegText
    else MultiGenericPrefix + m
  }

  datatype SingleOutcome =
    | ProcessingReply      // error reply: the media may be corrupt
    | ConnectionReply      // error reply: connection error
    | Rethrow(message: string)

  const SingleGenericPrefix := "Erro ao processar sticker: "

  /** What the single-sticker command does with a caught message `m`. */
  function ClassifySingle(m: string): (r: SingleOutcome)
    ensures Includes(m, "FFmpeg") ==> r == ProcessingReply
    ensures !Includes(m, "FFmpeg") && (Includes(m, "ETIMEDOUT") || Includes(m, "ECONNREFUSED")) ==> r == ConnectionReply
    ensures !Includes(m, "FFmpeg") && !Includes(m, "ETIMEDOUT") && !Includes(m, "ECONNREFUSED") ==>
      r == Rethrow(SingleGenericPrefix + m)
  {
    if Includes(m, "FFmpeg") then ProcessingReply
    else if Includes(m, "ETIMEDOUT") || Includes(m, "ECONNREFUSED") then ConnectionReply
    else Rethrow(SingleGenericPrefix + m)
  }

  /** The message of the error `Ffmpeg.createSticker` rejects with: `FFmpeg failed: <stderr>`. */
  function FfmpegFailure(stderr: string): string {
    "FFmpeg failed: " + stderr
  }

  /** The multi-sticker command's error for a segment whose output file is missing. */
  function SegmentMissing(part: nat): string {
    "Segmento " + NatToString(part) + " não foi criado pelo FFmpeg"
  }

  /** A failed `createSticker` is always answered as a processing error, whatever ffmpeg printed. */
  lemma CreateStickerFailureIsProcessing(stderr: string)
    ensures ClassifySingle(FfmpegFailure(stderr)) == ProcessingReply
  {
    IncludesInfix("", "FFmpeg", " failed: " + stderr);
    assert "" + "FFmpeg" + (" failed: " + stderr) == FfmpegFailure(stderr);
  }

  /**
   * The two orders disagree: an ffmpeg failure whose output reports a
   * timeout is a connection error for the multi-sticker command and a
   * processing error for the single-sticker command.
   */
  lemma OrdersDisagree()
    ensures ClassifyMulti(FfmpegFailure("connect ETIMEDOUT")) == MultiConnectionText
    ensures ClassifySingle(FfmpegFailure("connect ETIMEDOUT")) == ProcessingReply
  {
    IncludesInfix("FFmpeg failed: connect ", "ETIMEDOUT", "");
    assert "FFmpeg failed: connect " + "ETIMEDOUT" + "" == FfmpegFailure("connect ETIMEDOUT");
    CreateStickerFailureIsProcessing("connect ETIMEDOUT");
  }

  /** A message lacking `E` and one character of `mmg.whatsapp.net` carries no connection marker. */
  lemma NoConnectionMarker(m: string, k: nat)
    requires 'E' !in m && k < |"mmg.whatsapp.net"| && "mmg.whatsapp.net"[k] !in m
    ensures !MentionsConnection(m)
  {
    MissingCharExcludes(m, "ETIMEDOUT", 0);
    MissingCharExcludes(m, "AggregateError", 9);
    MissingCharExcludes(m, "getaddrinfo ENOTFOUND", 12);
    MissingCharExcludes(m, "connect ECONNREFUSED", 8);
    MissingCharExcludes(m, "mmg.whatsapp.net", k);
  }

  /** A missing segment is reported as an ffmpeg processing error, never as a connection error. */
  lemma MissingSegmentIsProcessing(part: nat)
    ensures ClassifyMulti(SegmentMissing(part)) == MultiFfmpegText
  {
    MissingSegmentChars(part);
    NoConnectionMarker(SegmentMissing(part), 4);
    MissingSegmentNamesFfmpeg(part);
  }

  lemma MissingSegmentChars(part: nat)
    ensures 'E' !in SegmentMissing(part) && 'w' !in SegmentMissing(part)
  {
    var d := NatToString(part);
    forall k | 0 <= k < |d| ensures d[k] != 'E' && d[k] != 'w' {
      assert IsDigit(d[k]);
    }
  }

  lemma MissingSegmentNamesFfmpeg(part: nat)
    ensures Includes(SegmentMissing(part), "FFmpeg")
  {
    var pre := "Segmento " + NatToString(part) + " não foi criado pelo ";
    IncludesInfix(pre, "FFmpeg", "");
    assert " não foi criado pelo FFmpeg" == " não foi criado pelo " + "FFmpeg";
    assert pre + "FFmpeg" + "" == SegmentMissing(part);
  }

  /** Written in pieces so that the character lemmas below stay cheap for the solver. */
  const MultiVideoDownloadFailure :=
    "Falha ao " + "baixar " + "vídeo após " + "3 tentativas" + ". Problema " + "de conexão " + "com " + "WhatsApp."

  /**
   * After three failed video downloads the multi-sticker command rethrows
   * the generic wrapper: its own download message carries none of the
   * connection markers, whatever the underlying failure was.
   */
  lemma MultiVideoDownloadFailureIsGeneric()
    ensures ClassifyMulti(MultiVideoDownloadFailure) == MultiGenericPrefix + MultiVideoDownloadFailure
  {
    MultiVideoDownloadFailureChars();
    NoConnectionMarker(MultiVideoDownloadFailure, 2);
    MissingCharExcludes(MultiVideoDownloadFailure, "FFmpeg", 5);
  }

  lemma MultiVideoDownloadFailureChars()
    ensures 'E' !in MultiVideoDownloadFailure && 'g' !in MultiVideoDownloadFailure
  {
    MultiVideoDownloadFailureLacks('E');
    MultiVideoDownloadFailureLacks('g');
  }

  lemma MultiVideoDownloadFailureLacks(c: char)
    requires c == 'E' || c == 'g'
    ensures c !in MultiVideoDownloadFailure
  {
  }

  /**
   * The image download message keeps the underlying error text, so a
   * timeout behind three failed image downloads is reported as a
   * connection error.
   */
  lemma MultiImageDownloadKeepsCause(cause: string)
    requires Includes(cause, "ETIMEDOUT")
    ensures ClassifyMulti("Falha ao baixar imagem após 3 tentativas: " + cause) == MultiConnectionText
  {
    IncludesWithin("Falha ao baixar imagem após 3 tentativas: ", cause, "", "ETIMEDOUT");
    assert "Falha ao baixar imagem após 3 tentativas: " + cause + "" == "Falha ao baixar imagem após 3 tentativas: " + cause;
  }

  const SingleImageDownloadFailure := "Falha ao baixar imagem."
  const SingleVideoDownloadFailure := "Falha ao baixar vídeo."
  const SingleSendFailure := "Erro ao enviar figurinha."

  /** A message lacking one character of each of `FFmpeg`, `ETIMEDOUT` and `ECONNREFUSED` is rethrown wrapped. */
  lemma SingleRethrows(m: string, f: nat, t: nat, c: nat)
    requires f < 6 && "FFmpeg"[f] !in m
    requires t < 9 && "ETIMEDOUT"[t] !in m
    requires c < 12 && "ECONNREFUSED"[c] !in m
    ensures ClassifySingle(m) == Rethrow(SingleGenericPrefix + m)
  {
    MissingCharExcludes(m, "FFmpeg", f);
    MissingCharExcludes(m, "ETIMEDOUT", t);
    MissingCharExcludes(m, "ECONNREFUSED", c);
  }

  /**
   * The single-sticker command's own download and send failures carry no
   * marker, so they are always rethrown wrapped; its connection reply can
   * only come from another step.
   */
  lemma SingleImageDownloadFailureRethrows()
    ensures ClassifySingle(SingleImageDownloadFailure) == Rethrow(SingleGenericPrefix + SingleImageDownloadFailure)
  {
    SingleRethrows(SingleImageDownloadFailure, 3, 0, 0);
  }

  lemma SingleVideoDownloadFailureRethrows()
    ensures ClassifySingle(SingleVideoDownloadFailure) == Rethrow(SingleGenericPrefix + SingleVideoDownloadFailure)
  {
    SingleRethrows(SingleVideoDownloadFailure, 3, 0, 0);
  }

  lemma SingleSendFailureRethrows()
    ensures ClassifySingle(SingleSendFailure) == Rethrow(SingleGenericPrefix + SingleSendFailure)
  {
    var a, b := "Erro ao enviar ", "figurinha.";
    assert 'F' !in a && 'F' !in b && 'T' !in a && 'T' !in b && 'C' !in a && 'C' !in b;
    SingleRethrows(SingleSendFailure, 0, 1, 1);
  }
}
