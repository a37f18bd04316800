/**
 * Target resolution shared by the `casar`, `gay`, `nazista` and `lid`
 * commands: `isReply ? replyLid : args[0] ? `${onlyNumbers(args[0])}@lid` : null`,
 * preceded by the "no argument and not a reply" guard.
 */
module Target {
  import opened Wrappers
  import opened JsString
  import opened SafeUtils

  datatype Resolution =
    | MissingArgument       // InvalidParameterError is thrown
    | Unidentified          // the target is null: an error reply is sent
    | Resolved(lid: string) // the target identifier

  /** JavaScript truthiness of an optional string. */
  predicate Truthy(v: Option<string>) {
    v.Some? && v.value != ""
  }

  function ResolveTarget(args: seq<string>, isReply: bool, replyLid: Option<string>): (r: Resolution)
    ensures r.MissingArgument? <==> |args| == 0 && !isReply
    ensures r.Unidentified? <==> (isReply && !Truthy(replyLid)) || (!isReply && |args| > 0 && args[0] == "")
    ensures r.Resolved? && isReply ==> replyLid == Some(r.lid) && r.lid != ""
    ensures r.Resolved? && !isReply ==> r.lid == OnlyNumbers(args[0]) + "@lid"
  {
    if |args| == 0 && !isReply then MissingArgument
    else if isReply then (if Truthy(replyLid) then Resolved(replyLid.value) else Unidentified)
    else if args[0] != "" then Resolved(OnlyNumbersOf(Str(args[0])) + "@lid")
    else Unidentified
  }

  /** A mention written as an argument resolves to its digits, and those are the digits of the target. */
  lemma MentionDigits(args: seq<string>, replyLid: Option<string>)
    requires |args| > 0 && args[0] != ""
    ensures ResolveTarget(args, false, replyLid).Resolved?
    ensures OnlyNumbers(ResolveTarget(args, false, replyLid).lid) == OnlyNumbers(args[0])
  {
    OnlyNumbersOfLid(OnlyNumbers(args[0]));
  }
}
