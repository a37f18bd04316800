/**
 * How the three proposal commands meet their stores. As the command files
 * are written, `casar` writes to its own store, `aceitar` reads its own
 * (always empty) store and `rejeitar` reads the shared store of the
 * utilities module, so a proposal can be neither accepted nor rejected.
 * The evidently intended wiring hands all three commands one store.
 */
module ProposalFlow {
  import opened Wrappers
  import opened JsString
  import opened SafeUtils
  import opened Target
  import opened MarriageProposals
  import Casar
  import Aceitar
  import Rejeitar

  /** As written: `1@lid` proposes to `@2`, and a second later `2@lid` answers with `@1`. */
  method ProposeThenAnswerAsWritten() returns (proposed: Casar.CasarReply, accepted: Aceitar.AcceptReply,
                                              rejected: Rejeitar.RejectReply)
    ensures proposed.Proposed?
    ensures accepted == Aceitar.NoPending && rejected == Rejeitar.NoPending
  {
    var shared := new ProposalStore();
    var casarStore := new ProposalStore();
    var aceitarStore := new ProposalStore();
    proposed := Casar.ProposeAtZero(casarStore);
    OnlyNumbersOfMention("1");
    accepted := Aceitar.Handle(aceitarStore, ["@1"], "2@lid", "g", 1000);
    assert Swept(map[], 1000) == map[];
    rejected := Rejeitar.Handle(shared, ["@1"], "2@lid", "g", 1000);
  }

  /**
   * With one store shared by the commands: a proposal made at `now` to a
   * target with no live proposal is accepted by that target, naming the
   * proposer's number, at any instant at most five minutes later, and the
   * acceptance consumes it.
   */
  method ProposeThenAccept(store: ProposalStore, casarArgs: seq<string>, isReply: bool, replyLid: Option<string>,
                           proposerDigits: string, remoteJid: string, now: int,
                           acceptArgs: seq<string>, later: int)
    returns (proposed: Casar.CasarReply, accepted: Aceitar.AcceptReply)
    requires store.Valid()
    requires AllDigits(proposerDigits)
    requires ResolveTarget(casarArgs, isReply, replyLid).Resolved?
    requires ResolveTarget(casarArgs, isReply, replyLid).lid != proposerDigits + "@lid"
    requires Lookup(Swept(store.groups, now), remoteJid, ResolveTarget(casarArgs, isReply, replyLid).lid) == None
    requires |acceptArgs| > 0 && OnlyNumbersOf(Str(acceptArgs[0])) == proposerDigits
    requires later - now <= FiveMinutes
    modifies store
    ensures proposed.Proposed? && accepted.Accepted?
    ensures Lookup(store.groups, remoteJid, ResolveTarget(casarArgs, isReply, replyLid).lid) == None
  {
    var sender := proposerDigits + "@lid";
    var target := ResolveTarget(casarArgs, isReply, replyLid).lid;
    ghost var swept := Swept(store.groups, now);
    proposed := Casar.Handle(store, casarArgs, isReply, replyLid, sender, remoteJid, now);
    PutLookup(swept, remoteJid, target, Proposal(sender, now), remoteJid, target);
    SweptLookup(store.groups, later, remoteJid, target);
    accepted := Aceitar.Handle(store, acceptArgs, target, remoteJid, later);
    DeleteLookup(Swept(Put(swept, remoteJid, target, Proposal(sender, now)), later), remoteJid, target, remoteJid, target);
  }

  /** The same exchange as `ProposeThenAnswerAsWritten`, with one store: accepted. */
  method ProposeThenAcceptShared() returns (proposed: Casar.CasarReply, accepted: Aceitar.AcceptReply)
    ensures proposed.Proposed? && accepted.Accepted?
  {
    var store := new ProposalStore();
    OnlyNumbersOfMention("1");
    OnlyNumbersOfMention("2");
    assert ResolveTarget(["@2"], false, None) == Resolved("2@lid");
    assert Swept(map[], 0) == map[];
    assert "2@lid"[0] != "1@lid"[0];
    proposed, accepted := ProposeThenAccept(store, ["@2"], false, None, "1", "g", 0, ["@1"], 1000);
  }

  /** With one store, the target can instead reject the proposal, which consumes it. */
  method ProposeThenRejectShared() returns (proposed: Casar.CasarReply, rejected: Rejeitar.RejectReply,
                                           pending: Option<Proposal>)
    ensures proposed.Proposed? && rejected.Rejected? && pending == None
  {
    var store := new ProposalStore();
    proposed := Casar.ProposeAtZero(store);
    OnlyNumbersOfMention("1");
    SweptLookup(store.groups, 1000, "g", "2@lid");
    rejected := Rejeitar.Handle(store, ["@1"], "2@lid", "g", 1000);
    pending := Lookup(store.groups, "g", "2@lid");
    DeleteLookup(Swept(Put(map[], "g", "2@lid", Proposal("1@lid", 0)), 1000), "g", "2@lid", "g", "2@lid");
  }
}
