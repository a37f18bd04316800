/** The `lid` command: shows the digits of a user's identifier and what kind of identifier it is. */
module Lid {
  import opened Wrappers
  import opened JsString
  import opened SafeUtils
  import opened Target

  datatype LidType = DirectNumber | GroupLid

  function TypeLabel(t: LidType): string {
    match t
    case DirectNumber => "Número Direto"
    case GroupLid => "LID de Grupo"
  }

  const GroupLidWarning := "⚠️ Este é um LID de grupo, não o número real do usuário."
  const DirectNumberNote := "✅ Este é o número real do usuário."

  datatype LidReply =
    | InvalidParameter
    | ErrorReply
    | Info(lidType: string, identifier: string, fullLid: string, note: string, mentions: seq<string>)

  /** `lidType`: a direct number is one that contains the personal-chat suffix. */
  function ClassifyLid(targetLid: string): (t: LidType)
    ensures t.DirectNumber? <==> exists i :: OccursAt(targetLid, "@s.whatsapp.net", i)
  {
    IncludesIffOccurs(targetLid, "@s.whatsapp.net");
    if Includes(targetLid, "@s.whatsapp.net") then DirectNumber else GroupLid
  }

  /** `handle` */
  function Handle(args: seq<string>, isReply: bool, replyLid: Option<string>): (r: LidReply)
    ensures r.InvalidParameter? <==> ResolveTarget(args, isReply, replyLid).MissingArgument?
    ensures r.ErrorReply? <==> ResolveTarget(args, isReply, replyLid).Unidentified?
    ensures r.Info? ==> var lid := ResolveTarget(args, isReply, replyLid).lid;
      && r.fullLid == lid
      && r.identifier == OnlyNumbers(lid)
      && r.lidType == TypeLabel(ClassifyLid(lid))
      && (r.note == GroupLidWarning <==> ClassifyLid(lid).GroupLid?)
      && (r.note == DirectNumberNote <==> ClassifyLid(lid).DirectNumber?)
      && r.mentions == [lid]
  {
    match ResolveTarget(args, isReply, replyLid)
    case MissingArgument => InvalidParameter
    case Unidentified => ErrorReply
    case Resolved(lid) =>
      var cleanLid := OnlyNumbersOf(Str(lid));
      var lidType := TypeLabel(ClassifyLid(lid));
      var note := if lidType == "LID de Grupo" then GroupLidWarning else DirectNumberNote;
      Info(lidType, cleanLid, lid, note, [lid])
  }

  /**
   * A target typed as an argument is always reported as a group LID, with the
   * argument's digits as its identifier: only a replied-to message can show a direct number.
   */
  lemma TypedTargetIsGroupLid(args: seq<string>, replyLid: Option<string>)
    requires |args| > 0 && args[0] != ""
    ensures Handle(args, false, replyLid).Info?
    ensures Handle(args, false, replyLid).lidType == "LID de Grupo"
    ensures Handle(args, false, replyLid).identifier == OnlyNumbers(args[0])
  {
    var lid := OnlyNumbers(args[0]) + "@lid";
    MentionDigits(args, replyLid);
    assert '.' !in lid by {
      assert forall i :: 0 <= i < |OnlyNumbers(args[0])| ==> IsDigit(lid[i]);
    }
    assert "@s.whatsapp.net"[11] == '.';
    MissingCharExcludes(lid, "@s.whatsapp.net", 11);
    IncludesIffOccurs(lid, "@s.whatsapp.net");
  }
}
