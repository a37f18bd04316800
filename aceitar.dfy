/**
 * The `aceitar` command: the sender accepts the pending proposal of the
 * member they mention. The command file keeps its own copy of the
 * proposal store, which no command ever writes to.
 */
module Aceitar {
  import opened Wrappers
  import opened JsString
  import opened SafeUtils
  import opened MarriageProposals

  datatype AcceptReply =
    | InvalidParameter                                        // thrown: no argument
    | NoPending                                               // "you have no pending proposal"
    | WrongProposer(pendingNumber: string, mentionedNumber: string)
    | Accepted(senderNumber: string, proposerNumber: string, mentions: seq<string>)

  /**
   * The handler: the proposer named is `<digits of args[0]>@lid`; the
   * proposal looked up (after a sweep) is the one addressed to the sender.
   */
  method Handle(store: ProposalStore, args: seq<string>, sender: string, remoteJid: string, now: int)
    returns (r: AcceptReply)
    requires store.Valid()
    modifies store
    ensures store.Valid()
    ensures r.InvalidParameter? <==> |args| == 0
    ensures |args| == 0 ==> store.groups == old(store.groups)
    ensures |args| > 0 ==>
      var proposerLid := OnlyNumbersOf(Str(args[0])) + "@lid";
      var swept := Swept(old(store.groups), now);
      match Lookup(swept, remoteJid, sender)
      case None => r == NoPending && store.groups == swept
      case Some(p) =>
        if p.senderLid != proposerLid then
          r == WrongProposer(OnlyNumbers(p.senderLid), OnlyNumbersOf(Str(args[0]))) && store.groups == swept
        else
          r == Accepted(OnlyNumbers(sender), OnlyNumbersOf(Str(args[0])), [sender, proposerLid]) &&
          store.groups == Delete(swept, remoteJid, sender)
    ensures old(store.groups) == map[] ==> store.groups == map[] && (r.InvalidParameter? || r.NoPending?)
  {
    if |args| == 0 {
      return InvalidParameter;
    }
    var digits := OnlyNumbersOf(Str(args[0]));
    var proposerLid := digits + "@lid";
    OnlyNumbersOfLid(digits);
    var proposal := store.HasPending(remoteJid, sender, now);
    if proposal.None? {
      return NoPending;
    }
    if proposal.value.senderLid != proposerLid {
      return WrongProposer(OnlyNumbers(proposal.value.senderLid), OnlyNumbers(proposerLid));
    }
    store.Remove(remoteJid, sender);
    r := Accepted(OnlyNumbers(sender), OnlyNumbers(proposerLid), [sender, proposerLid]);
  }
}
