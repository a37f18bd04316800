/**
 * The `rejeitar` command: the sender turns down the pending proposal of
 * the member they mention, in the shared proposal store.
 */
module Rejeitar {
  import opened Wrappers
  import opened JsString
  import opened SafeUtils
  import opened MarriageProposals

  datatype RejectReply =
    | InvalidParameter                                        // thrown: no argument
    | UnknownProposer                                         // error reply: the argument has no digits
    | NoPending                                               // "you have no pending proposal"
    | WrongProposer(pendingNumber: string, mentionedNumber: string)
    | Rejected(senderNumber: string, proposerNumber: string, mentions: seq<string>)

  /**
   * The handler: unlike `aceitar`, an argument without digits is refused
   * before the store is consulted, so that path does not sweep.
   */
  method Handle(store: ProposalStore, args: seq<string>, sender: string, remoteJid: string, now: int)
    returns (r: RejectReply)
    requires store.Valid()
    modifies store
    ensures store.Valid()
    ensures r.InvalidParameter? <==> |args| == 0
    ensures r.UnknownProposer? <==> |args| > 0 && OnlyNumbersOf(Str(args[0])) == ""
    ensures r.InvalidParameter? || r.UnknownProposer? ==> store.groups == old(store.groups)
    ensures |args| > 0 && OnlyNumbersOf(Str(args[0])) != "" ==>
      var proposerNumber := OnlyNumbersOf(Str(args[0]));
      var proposerLid := proposerNumber + "@lid";
      var swept := Swept(old(store.groups), now);
      match Lookup(swept, remoteJid, sender)
      case None => r == NoPending && store.groups == swept
      case Some(p) =>
        if p.senderLid != proposerLid then
          r == WrongProposer(OnlyNumbers(p.senderLid), proposerNumber) && store.groups == swept
        else
          r == Rejected(OnlyNumbers(sender), proposerNumber, [sender, proposerLid]) &&
          store.groups == Delete(swept, remoteJid, sender)
  {
    if |args| == 0 {
      return InvalidParameter;
    }
    var proposerNumber := OnlyNumbersOf(Str(args[0]));
    if proposerNumber == "" {
      return UnknownProposer;
    }
    var proposerLid := proposerNumber + "@lid";
    OnlyNumbersOfLid(proposerNumber);
    var proposal := store.HasPending(remoteJid, sender, now);
    if proposal.None? {
      return NoPending;
    }
    if proposal.value.senderLid != proposerLid {
      return WrongProposer(OnlyNumbers(proposal.value.senderLid), OnlyNumbers(proposerLid));
    }
    store.Remove(remoteJid, sender);
    r := Rejected(OnlyNumbers(sender), OnlyNumbers(proposerLid), [sender, proposerLid]);
  }
}
