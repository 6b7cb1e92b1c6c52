/** The store of offline authorisations as an object. */
module LanAuthorizer {
  import opened Prelude
  import opened LanGrants

  class OfflineLanAuthorisationStore {
    const cfg: Config
    var offlineAuthorisations: map<string, Grant>
    var usedLanNonces: map<string, int>
    /** Every challenge accepted since the store was opened. */
    ghost var accepted: seq<Acceptance>
    /** What was stored when it was opened, and every call since. */
    ghost const stored: State
    ghost var trace: seq<Event>

    ghost function View(): State
      reads this
    {
      State(offlineAuthorisations, usedLanNonces, accepted)
    }

    /** The object is where its history leads, and the clock never went back. */
    ghost predicate Valid()
      reads this
    {
      InOrder(trace) && stored.accepted == [] && View() == Run(cfg, stored, trace)
    }

    ghost predicate NotBefore(now: int)
      reads this
    {
      0 < now && Clock(trace) <= now
    }

    constructor (cfg: Config, offlineAuthorisations: map<string, Grant>, usedLanNonces: map<string, int>)
      ensures Valid() && trace == [] && this.cfg == cfg && View() == State(offlineAuthorisations, usedLanNonces, [])
    {
      this.cfg := cfg;
      this.offlineAuthorisations, this.usedLanNonces, accepted := offlineAuthorisations, usedLanNonces, [];
      stored, trace := State(offlineAuthorisations, usedLanNonces, []), [];
    }

    lemma Extend(event: Event)
      requires InOrder(trace) && NotBefore(event.now)
      ensures InOrder(trace + [event])
      ensures Run(cfg, stored, trace + [event]) == Step(cfg, Run(cfg, stored, trace), event)
    {
      hide Step;
      assert Init(trace + [event]) == trace;
    }

    method Enroll(enrolment: Enrolment, uuid: string, now: int) returns (grant: Option<Grant>)
      requires Valid() && NotBefore(now)
      modifies this
      ensures Valid() && trace == old(trace) + [Event.Enroll(enrolment, uuid, now)]
      ensures grant == if IsComplete(enrolment) then Some(NewGrant(cfg, enrolment, uuid, now)) else None
      ensures usedLanNonces == old(usedLanNonces) && accepted == old(accepted)
      ensures offlineAuthorisations ==
        if grant.Some? then old(offlineAuthorisations)[grant.value.id := grant.value] else old(offlineAuthorisations)
    {
      hide Run, InOrder;
      Extend(Event.Enroll(enrolment, uuid, now));
      trace := trace + [Event.Enroll(enrolment, uuid, now)];
      if !IsComplete(enrolment) {
        return None;
      }
      var next := NewGrant(cfg, enrolment, uuid, now);
      offlineAuthorisations := offlineAuthorisations[next.id := next];
      grant := Some(next);
    }

    method Revoke(id: string, now: int) returns (found: bool)
      requires Valid() && NotBefore(now)
      modifies this
      ensures Valid() && trace == old(trace) + [Event.Revoke(id, now)]
      ensures found == (id in old(offlineAuthorisations))
      ensures usedLanNonces == old(usedLanNonces) && accepted == old(accepted)
      ensures offlineAuthorisations ==
        if found then old(offlineAuthorisations)[id := Revoked(old(offlineAuthorisations)[id], now)]
        else old(offlineAuthorisations)
    {
      hide Run, InOrder;
      Extend(Event.Revoke(id, now));
      trace := trace + [Event.Revoke(id, now)];
      if id !in offlineAuthorisations {
        return false;
      }
      offlineAuthorisations := offlineAuthorisations[id := Revoked(offlineAuthorisations[id], now)];
      found := true;
    }

    /** Revokes the grants of a device in a copy of the records, and counts them. */
    static method RevokeRecords(records: map<string, Grant>, trustedDeviceId: string, now: int)
      returns (next: map<string, Grant>, count: nat)
      ensures next == RevokedFor(records, trustedDeviceId, now)
      ensures count == |GrantsOf(records, trustedDeviceId)|
    {
      next, count := records, 0;
      var rest := records.Keys;
      ghost var done := {};
      while rest != {}
        invariant rest <= records.Keys == next.Keys
        invariant forall id | id in records ::
          next[id] == if id in rest then records[id] else RevokedIf(records[id], trustedDeviceId, now)
        invariant forall id :: id in done <==> id in records && id !in rest && IsOf(records[id], trustedDeviceId)
        invariant count == |done|
      {
        var id :| id in rest;
        rest := rest - {id};
        if IsOf(records[id], trustedDeviceId) {
          next := next[id := Revoked(records[id], now)];
          count := count + 1;
          done := done + {id};
        }
      }
      assert done == GrantsOf(records, trustedDeviceId);
    }

    lemma NothingToRevoke(trustedDeviceId: string, now: int)
      requires |GrantsOf(offlineAuthorisations, trustedDeviceId)| == 0
      ensures RevokedFor(offlineAuthorisations, trustedDeviceId, now) == offlineAuthorisations
    {
      forall id | id in offlineAuthorisations
        ensures RevokedFor(offlineAuthorisations, trustedDeviceId, now)[id] == offlineAuthorisations[id]
      {
        assert id !in GrantsOf(offlineAuthorisations, trustedDeviceId);
      }
    }

    method RevokeDevice(trustedDeviceId: string, now: int) returns (count: nat)
      requires Valid() && NotBefore(now)
      modifies this
      ensures Valid() && trace == old(trace) + [Event.RevokeDevice(trustedDeviceId, now)]
      ensures count == |GrantsOf(old(offlineAuthorisations), trustedDeviceId)| &&
        GrantsOf(offlineAuthorisations, trustedDeviceId) == {}
      ensures View() == old(View()).(grants := RevokedFor(old(offlineAuthorisations), trustedDeviceId, now))
    {
      hide Run, InOrder;
      Extend(Event.RevokeDevice(trustedDeviceId, now));
      trace := trace + [Event.RevokeDevice(trustedDeviceId, now)];
      var next, revoked := RevokeRecords(offlineAuthorisations, trustedDeviceId, now);
      count := revoked;
      if count > 0 {
        offlineAuthorisations := next;
      } else {
        NothingToRevoke(trustedDeviceId, now);
      }
    }

    method Verify(grantId: string, challenge: Option<Challenge>, signature: string, now: int)
      returns (principal: Option<Principal>)
      requires Valid() && NotBefore(now)
      modifies this
      ensures Valid() && trace == old(trace) + [Event.Verify(grantId, challenge, signature, now)]
      ensures principal.Some? <==> IsAccepted(cfg, old(View()), grantId, challenge, signature, now)
      ensures principal.Some? ==>
        principal == Some(Principal(old(offlineAuthorisations)[grantId],
                                    "user:" + old(offlineAuthorisations)[grantId].userId))
      ensures offlineAuthorisations == old(offlineAuthorisations)
      ensures accepted == old(accepted) + if principal.Some? then [Acceptance(grantId, challenge.value, now)] else []
      ensures usedLanNonces == if principal.Some? then old(usedLanNonces)[challenge.value.nonce := now]
                               else old(usedLanNonces)
    {
      hide Run, InOrder;
      Extend(Event.Verify(grantId, challenge, signature, now));
      trace := trace + [Event.Verify(grantId, challenge, signature, now)];
      if grantId !in offlineAuthorisations || challenge.None? {
        return None;
      }
      var grant, c := offlineAuthorisations[grantId], challenge.value;
      if grant.revokedAt.Some? || (grant.expiresAt.Some? && grant.expiresAt.value != 0 &&
        grant.expiresAt.value <= now) {
        return None;
      }
      if c.homeId != grant.homeId || c.hubInstallId != grant.hubInstallId || AreaOf(c) !in grant.areaIds {
        return None;
      }
      if COMMAND_SCOPE !in grant.scope || grant.householdRole != "TENANT" {
        return None;
      }
      if !cfg.crypto.isKey(grant.publicKey) || !VerifyLanProof(cfg.crypto, c, signature, grant.publicKey, now) {
        return None;
      }
      if c.nonce == "" || IsUsed(usedLanNonces, c.nonce) {
        return None;
      }
      usedLanNonces := usedLanNonces[c.nonce := now];
      accepted := accepted + [Acceptance(grantId, c, now)];
      principal := Some(Principal(grant, "user:" + grant.userId));
    }

    method Prune(now: int)
      requires Valid() && NotBefore(now)
      modifies this
      ensures Valid() && trace == old(trace) + [Event.Prune(now)]
      ensures offlineAuthorisations == old(offlineAuthorisations) && accepted == old(accepted)
      ensures forall nonce :: nonce in usedLanNonces <==>
        nonce in old(usedLanNonces) && now - old(usedLanNonces)[nonce] < Memory(cfg)
      ensures forall nonce | nonce in usedLanNonces :: usedLanNonces[nonce] == old(usedLanNonces)[nonce]
    {
      hide Run, InOrder;
      Extend(Event.Prune(now));
      trace := trace + [Event.Prune(now)];
      usedLanNonces := Pruned(usedLanNonces, now - Memory(cfg));
    }
  }
}
