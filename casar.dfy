/**
 * The `casar` command: propose to the mentioned or replied-to member. The
 * command file keeps its own copy of the proposal store (a separate
 * object of `ProposalStore`), and schedules a five-minute expiry callback.
 */
module Casar {
  import opened Wrappers
  import opened SafeUtils
  import opened Target
  import opened MarriageProposals

  datatype CasarReply =
    | InvalidParameter                                     // thrown: no argument and not a reply
    | UnknownTarget                                        // error reply: no target
    | SelfProposal                                         // "you cannot marry yourself"
    | AlreadyPending(targetNumber: string, proposerNumber: string)
    | Proposed(senderNumber: string, targetNumber: string, mentions: seq<string>)

  /**
   * The handler. Both store calls read the clock; the model gives them the
   * same instant `now`. A `Proposed` outcome is followed by the expiry
   * callback `Expire(store, remoteJid, <target>, sender, <later>)`.
   */
  method Handle(store: ProposalStore, args: seq<string>, isReply: bool, replyLid: Option<string>,
                sender: string, remoteJid: string, now: int) returns (r: CasarReply)
    requires store.Valid()
    modifies store
    ensures store.Valid()
    ensures r.InvalidParameter? <==> ResolveTarget(args, isReply, replyLid).MissingArgument?
    ensures r.UnknownTarget? <==> ResolveTarget(args, isReply, replyLid).Unidentified?
    ensures r.SelfProposal? <==> ResolveTarget(args, isReply, replyLid) == Resolved(sender)
    ensures r.InvalidParameter? || r.UnknownTarget? || r.SelfProposal? ==> store.groups == old(store.groups)
    ensures ResolveTarget(args, isReply, replyLid).Resolved? && ResolveTarget(args, isReply, replyLid).lid != sender ==>
      var target := ResolveTarget(args, isReply, replyLid).lid;
      var swept := Swept(old(store.groups), now);
      match Lookup(swept, remoteJid, target)
      case Some(p) =>
        r == AlreadyPending(OnlyNumbers(target), OnlyNumbers(p.senderLid)) && store.groups == swept
      case None =>
        r == Proposed(OnlyNumbers(sender), OnlyNumbers(target), [sender, target]) &&
        store.groups == Put(swept, remoteJid, target, Proposal(sender, now))
  {
    var resolution := ResolveTarget(args, isReply, replyLid);
    if resolution.MissingArgument? {
      return InvalidParameter;
    }
    if resolution.Unidentified? {
      return UnknownTarget;
    }
    var targetLid := resolution.lid;
    if targetLid == sender {
      return SelfProposal;
    }
    var existing := store.HasPending(remoteJid, targetLid, now);
    if existing.Some? {
      return AlreadyPending(OnlyNumbers(targetLid), OnlyNumbers(existing.value.senderLid));
    }
    ghost var swept := store.groups;
    store.Create(remoteJid, targetLid, sender, now);
    SweptIdempotent(old(store.groups), now);
    assert Swept(swept, now) == swept;
    r := Proposed(OnlyNumbers(sender), OnlyNumbers(targetLid), [sender, targetLid]);
  }

  /**
   * The expiry callback as written: it asks `hasPendingProposal`, which
   * sweeps first, and notifies only when an entry from the same proposer
   * is still there.
   */
  method Expire(store: ProposalStore, remoteJid: string, targetLid: string, sender: string, now: int)
    returns (notified: bool)
    requires store.Valid()
    modifies store
    ensures store.Valid()
    ensures var p := Lookup(Swept(old(store.groups), now), remoteJid, targetLid);
      notified <==> p.Some? && p.value.senderLid == sender
    ensures store.groups == if notified then Delete(Swept(old(store.groups), now), remoteJid, targetLid)
                            else Swept(old(store.groups), now)
  {
    var stillPending := store.HasPending(remoteJid, targetLid, now);
    notified := stillPending.Some? && stillPending.value.senderLid == sender;
    if notified {
      store.Remove(remoteJid, targetLid);
    }
  }

  /**
   * The callback runs five minutes after the proposal was sent, and the
   * proposal was stamped before sending; by then any entry stamped more
   * than five minutes earlier has been swept, so the proposer's own entry
   * can never be found and the expiry notice is never sent.
   */
  lemma LateCallbackFindsNothing(groups: Groups, remoteJid: string, targetLid: string, p: Proposal, now: int)
    requires Lookup(groups, remoteJid, targetLid) == Some(p)
    requires now > p.timestamp + FiveMinutes
    ensures Lookup(Swept(groups, now), remoteJid, targetLid) == None
  {
    SweptLookup(groups, now, remoteJid, targetLid);
  }

  /** Proposal at instant 0, callback one millisecond after the five minutes: no notice. */
  method LateExpiryScenario() returns (proposed: CasarReply, notified: bool)
    ensures proposed.Proposed? && !notified
  {
    var store := new ProposalStore();
    proposed := ProposeAtZero(store);
    LateCallbackFindsNothing(store.groups, "g", "2@lid", Proposal("1@lid", 0), FiveMinutes + 1);
    notified := Expire(store, "g", "2@lid", "1@lid", FiveMinutes + 1);
  }

  /** Member `1@lid` proposes to `@2` in group `g` of an empty store at instant 0. */
  method ProposeAtZero(store: ProposalStore) returns (proposed: CasarReply)
    requires store.Valid() && store.groups == map[]
    modifies store
    ensures store.Valid() && proposed.Proposed?
    ensures store.groups == Put(map[], "g", "2@lid", Proposal("1@lid", 0))
  {
    OnlyNumbersOfMention("2");
    assert ResolveTarget(["@2"], false, None) == Resolved("2@lid");
    assert Swept(map[], 0) == map[];
    proposed := Handle(store, ["@2"], false, None, "1@lid", "g", 0);
  }

  /**
   * The callback as evidently intended: look the entry up without sweeping,
   * so a proposal still unanswered when the timer fires is removed and
   * announced as expired, however late the timer is.
   */
  method ExpireUnswept(store: ProposalStore, remoteJid: string, targetLid: string, sender: string)
    returns (notified: bool)
    requires store.Valid()
    modifies store
    ensures store.Valid()
    ensures var p := Lookup(old(store.groups), remoteJid, targetLid);
      notified <==> p.Some? && p.value.senderLid == sender
    ensures store.groups == if notified then Delete(old(store.groups), remoteJid, targetLid) else old(store.groups)
  {
    var stillPending := Lookup(store.groups, remoteJid, targetLid);
    notified := stillPending.Some? && stillPending.value.senderLid == sender;
    if notified {
      store.Remove(remoteJid, targetLid);
    }
  }

  /** The same scenario with the intended callback: the notice is sent and the entry removed. */
  method OnTimeExpiryScenario() returns (proposed: CasarReply, notified: bool, pending: Option<Proposal>)
    ensures proposed.Proposed? && notified && pending == None
  {
    var store := new ProposalStore();
    proposed := ProposeAtZero(store);
    notified := ExpireUnswept(store, "g", "2@lid", "1@lid");
    pending := Lookup(store.groups, "g", "2@lid");
  }
}
