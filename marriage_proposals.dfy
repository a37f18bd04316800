/**
 * The pending marriage-proposal store: group id -> target id ->
 * {senderLid, timestamp}, with a five-minute expiry applied by a sweep
 * before every query and every creation. The shared utility module and
 * the `casar` and `aceitar` command files each hold one such store; each
 * is an object of the class below.
 */
module MarriageProposals {
  import opened Wrappers

  /** `FIVE_MINUTES`, in milliseconds. */
  const FiveMinutes: int := 5 * 60 * 1000

  datatype Proposal = Proposal(senderLid: string, timestamp: int)

  /** `pendingProposals`: `Map<groupId, { [targetLid]: Proposal }>` */
  type Groups = map<string, map<string, Proposal>>

  /** The sweep's test: strictly more than five minutes old. */
  predicate Expired(p: Proposal, now: int) {
    now - p.timestamp > FiveMinutes
  }

  /** The entries of one group that a sweep at `now` keeps. */
  function Live(proposals: map<string, Proposal>, now: int): (r: map<string, Proposal>)
    ensures forall t :: t in r <==> t in proposals && !Expired(proposals[t], now)
    ensures forall t :: t in r ==> r[t] == proposals[t]
  {
    map t | t in proposals && !Expired(proposals[t], now) :: proposals[t]
  }

  /** The store after `cleanExpiredProposals` at `now`: live entries kept, emptied groups dropped. */
  function Swept(groups: Groups, now: int): Groups {
    map g | g in groups && Live(groups[g], now) != map[] :: Live(groups[g], now)
  }

  /** `pendingProposals.get(groupId)?.[targetLid]` */
  function Lookup(groups: Groups, groupId: string, targetLid: string): (r: Option<Proposal>)
    ensures r.Some? <==> groupId in groups && targetLid in groups[groupId]
  {
    if groupId in groups && targetLid in groups[groupId] then Some(groups[groupId][targetLid]) else None
  }

  /** The assignment `pendingProposals.get(groupId)[targetLid] = proposal`, creating the group if needed. */
  function Put(groups: Groups, groupId: string, targetLid: string, p: Proposal): Groups {
    groups[groupId := (if groupId in groups then groups[groupId] else map[])[targetLid := p]]
  }

  /** `removeProposal`'s effect: the entry goes, and its group too if that left it empty. */
  function Delete(groups: Groups, groupId: string, targetLid: string): Groups {
    if groupId !in groups then groups
    else
      var proposals := groups[groupId] - {targetLid};
      if proposals == map[] then groups - {groupId} else groups[groupId := proposals]
  }

  /** No group key maps to an empty record. */
  ghost predicate NoEmptyGroup(groups: Groups) {
    forall g :: g in groups ==> groups[g] != map[]
  }

  /**
   * After a sweep an entry is still there exactly when it was there and is
   * at most five minutes old; the survivors are unchanged and no group is left empty.
   */
  lemma SweptLookup(groups: Groups, now: int, groupId: string, targetLid: string)
    ensures Lookup(Swept(groups, now), groupId, targetLid) ==
      if Lookup(groups, groupId, targetLid).Some? && now - Lookup(groups, groupId, targetLid).value.timestamp <= FiveMinutes
      then Lookup(groups, groupId, targetLid) else None
    ensures NoEmptyGroup(Swept(groups, now))
  {
    if groupId in groups && targetLid in groups[groupId] && !Expired(groups[groupId][targetLid], now) {
      assert targetLid in Live(groups[groupId], now);
    }
  }

  /** A proposal exactly five minutes old is kept; one a millisecond older is swept. */
  lemma ExpiryBoundary(groupId: string, targetLid: string, p: Proposal)
    ensures Lookup(Swept(map[groupId := map[targetLid := p]], p.timestamp + FiveMinutes), groupId, targetLid) == Some(p)
    ensures Lookup(Swept(map[groupId := map[targetLid := p]], p.timestamp + FiveMinutes + 1), groupId, targetLid) == None
  {
    SweptLookup(map[groupId := map[targetLid := p]], p.timestamp + FiveMinutes, groupId, targetLid);
    SweptLookup(map[groupId := map[targetLid := p]], p.timestamp + FiveMinutes + 1, groupId, targetLid);
  }

  /** Sweeping twice at the same instant is sweeping once. */
  lemma SweptIdempotent(groups: Groups, now: int)
    ensures Swept(Swept(groups, now), now) == Swept(groups, now)
  {
    var s := Swept(groups, now);
    forall g | g in s ensures Live(s[g], now) == s[g] {
    }
  }

  /** Writing an entry makes exactly that entry visible and leaves every other one as it was. */
  lemma PutLookup(groups: Groups, groupId: string, targetLid: string, p: Proposal, g: string, t: string)
    ensures Lookup(Put(groups, groupId, targetLid, p), g, t) ==
      if g == groupId && t == targetLid then Some(p) else Lookup(groups, g, t)
    ensures NoEmptyGroup(groups) ==> NoEmptyGroup(Put(groups, groupId, targetLid, p))
  {
    assert targetLid in Put(groups, groupId, targetLid, p)[groupId];
  }

  /**
   * Removing an entry makes it absent and leaves every other entry as it
   * was, expired or not; an absent group leaves the store unchanged; no
   * group is left empty.
   */
  lemma DeleteLookup(groups: Groups, groupId: string, targetLid: string, g: string, t: string)
    ensures Lookup(Delete(groups, groupId, targetLid), g, t) ==
      if g == groupId && t == targetLid then None else Lookup(groups, g, t)
    ensures groupId !in groups ==> Delete(groups, groupId, targetLid) == groups
    ensures NoEmptyGroup(groups) ==> NoEmptyGroup(Delete(groups, groupId, targetLid))
  {
    if groupId in groups && g == groupId && t != targetLid && t in groups[groupId] {
      assert t in groups[groupId] - {targetLid};
    }
  }

  /**
   * `removeProposal` does not sweep: an expired entry of another target
   * survives a removal, while a sweep at the same instant drops it.
   */
  lemma RemoveDoesNotSweep(groupId: string, targetLid: string, other: string, p: Proposal, now: int)
    requires other != targetLid && Expired(p, now)
    ensures Lookup(Delete(map[groupId := map[other := p]], groupId, targetLid), groupId, other) == Some(p)
    ensures Lookup(Swept(map[groupId := map[other := p]], now), groupId, other) == None
  {
    DeleteLookup(map[groupId := map[other := p]], groupId, targetLid, groupId, other);
    SweptLookup(map[groupId := map[other := p]], now, groupId, other);
  }

  /** `getExpirationTime`: five minutes, in milliseconds. */
  function GetExpirationTime(): (r: int)
    ensures r == 300000
  {
    FiveMinutes
  }

  class ProposalStore {
    var groups: Groups

    ghost predicate Valid()
      reads this
    {
      NoEmptyGroup(groups)
    }

    /** A module-level `new Map()`. */
    constructor ()
      ensures Valid() && groups == map[]
    {
      groups := map[];
    }

    /** The inner loop of the sweep: `delete proposals[targetLid]` for every expired entry of one group. */
    static method SweepGroup(proposals: map<string, Proposal>, now: int) returns (r: map<string, Proposal>)
      ensures r == Live(proposals, now)
    {
      r := proposals;
      var pending := proposals.Keys;
      while pending != {}
        invariant pending <= proposals.Keys
        invariant forall t :: t in r <==> t in proposals && (t in pending || !Expired(proposals[t], now))
        invariant forall t :: t in r ==> r[t] == proposals[t]
        decreases pending
      {
        var t :| t in pending;
        if Expired(r[t], now) {
          r := r - {t};
        }
        pending := pending - {t};
      }
    }

    /** `cleanExpiredProposals`, with `Date.now()` passed in as `now`. */
    method CleanExpired(now: int)
      modifies this
      ensures groups == Swept(old(groups), now)
      ensures Valid()
    {
      var pending := groups.Keys;
      while pending != {}
        invariant pending <= old(groups).Keys
        invariant forall g :: g in groups <==> g in old(groups) && (g in pending || Live(old(groups)[g], now) != map[])
        invariant forall g :: g in groups ==> groups[g] == if g in pending then old(groups)[g] else Live(old(groups)[g], now)
        decreases pending
      {
        var g :| g in pending;
        var proposals := SweepGroup(groups[g], now);
        if proposals == map[] {
          groups := groups - {g};
        } else {
          groups := groups[g := proposals];
        }
        pending := pending - {g};
      }
      SweptLookup(old(groups), now, "", "");
    }

    /** `hasPendingProposal`: sweeps every group, then looks the entry up. */
    method HasPending(groupId: string, targetLid: string, now: int) returns (r: Option<Proposal>)
      modifies this
      ensures groups == Swept(old(groups), now) && Valid()
      ensures r == Lookup(groups, groupId, targetLid)
      ensures r.Some? ==> Lookup(old(groups), groupId, targetLid) == r && now - r.value.timestamp <= FiveMinutes
    {
      CleanExpired(now);
      SweptLookup(old(groups), now, groupId, targetLid);
      if groupId in groups && targetLid in groups[groupId] {
        r := Some(groups[groupId][targetLid]);
      } else {
        r := None;
      }
    }

    /** `createProposal`: sweeps, then records `{senderLid, timestamp: now}` for the target, replacing any entry. */
    method Create(groupId: string, targetLid: string, senderLid: string, now: int)
      modifies this
      ensures groups == Put(Swept(old(groups), now), groupId, targetLid, Proposal(senderLid, now))
      ensures Valid()
      ensures Lookup(groups, groupId, targetLid) == Some(Proposal(senderLid, now))
    {
      CleanExpired(now);
      ghost var swept := groups;
      var proposals := if groupId in groups then groups[groupId] else map[];
      groups := groups[groupId := proposals[targetLid := Proposal(senderLid, now)]];
      assert groups == Put(swept, groupId, targetLid, Proposal(senderLid, now));
      PutLookup(swept, groupId, targetLid, Proposal(senderLid, now), groupId, targetLid);
    }

    /** `removeProposal`: deletes one entry, and its group if that left it empty; no sweep. */
    method Remove(groupId: string, targetLid: string)
      requires Valid()
      modifies this
      ensures groups == Delete(old(groups), groupId, targetLid)
      ensures Valid()
      ensures Lookup(groups, groupId, targetLid) == None
    {
      if groupId in groups {
        var proposals := groups[groupId] - {targetLid};
        if proposals == map[] {
          groups := groups - {groupId};
        } else {
          groups := groups[groupId := proposals];
        }
      }
      DeleteLookup(old(groups), groupId, targetLid, groupId, targetLid);
    }
  }
}
