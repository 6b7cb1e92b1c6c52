/**
  Offline authorisations for commands over the local network.  Cryptography is a pair of unknown predicates; times
  are positive integer milliseconds, and an absent expiry or revocation is None.
 */
module LanGrants {
  import opened Prelude

  const MAX_PROOF_AGE_MS := 30000
  const DAY_MS := 24 * 60 * 60 * 1000
  const COMMAND_SCOPE := "tenant:device-command"

  /** Names that every object inherits, so that a nonce so named always counts as used. */
  const INHERITED := {"constructor", "__defineGetter__", "__defineSetter__", "hasOwnProperty", "__lookupGetter__",
                      "__lookupSetter__",
                      "isPrototypeOf", "propertyIsEnumerable", "toString", "valueOf", "__proto__", "toLocaleString"}

  datatype Grant = Grant(
    id: string, homeId: string, hubInstallId: string, membershipId: string, trustedDeviceId: string, userId: string,
    householdRole: string, publicKey: string, areaIds: set<string>, scope: set<string>,
    issuedAt: int, expiresAt: Option<int>, revokedAt: Option<int>)

  /** What is asked for; an absent identifier is "", an absent time of issue 0. */
  datatype Enrolment = Enrolment(
    id: string, homeId: string, hubInstallId: string, membershipId: string, trustedDeviceId: string, userId: string,
    householdRole: string, publicKey: string, areaIds: seq<string>, scope: seq<string>, issuedAt: int,
    expiresAt: Option<int>)

  datatype Challenge = Challenge(homeId: string, hubInstallId: string, areaId: string, areaIds: seq<string>,
                                 deviceId: string, controlId: string, valueDigest: string, nonce: string, issuedAt: int)

  datatype Principal = Principal(grant: Grant, sub: string)

  /** Which texts are public keys, and which signatures they verify. */
  datatype Crypto = Crypto(isKey: string -> bool, signed: (string, Challenge, string) -> bool)

  datatype Config = Config(crypto: Crypto, maxOfflineMs: int)

  /** A challenge that was accepted. */
  datatype Acceptance = Acceptance(grantId: string, challenge: Challenge, at: int)

  datatype State = State(grants: map<string, Grant>, usedNonces: map<string, int>, accepted: seq<Acceptance>)

  datatype Event =
    | Enroll(enrolment: Enrolment, uuid: string, now: int)
    | Revoke(id: string, now: int)
    | RevokeDevice(trustedDeviceId: string, now: int)
    | Verify(grantId: string, challenge: Option<Challenge>, signature: string, now: int)
    | Prune(now: int)

  // ---------------------------------------------------------------- steps

  predicate IsComplete(e: Enrolment) {
    && e.homeId != "" && e.hubInstallId != "" && e.membershipId != "" && e.trustedDeviceId != "" && e.publicKey != ""
    && e.areaIds != [] && COMMAND_SCOPE in e.scope
  }

  function Min(a: int, b: int): int {
    if a < b then a else b
  }

  function Max(a: int, b: int): int {
    if a < b then b else a
  }

  function GrantId(e: Enrolment, uuid: string): string {
    if e.id != "" then e.id else uuid
  }

  function NewGrant(cfg: Config, e: Enrolment, uuid: string, now: int): Grant {
    var issuedAt := if e.issuedAt != 0 then e.issuedAt else now;
    Grant(GrantId(e, uuid), e.homeId, e.hubInstallId, e.membershipId, e.trustedDeviceId, e.userId,
          if e.householdRole != "" then e.householdRole else "TENANT", e.publicKey,
          (set a | a in e.areaIds), (set a | a in e.scope), issuedAt,
          if e.expiresAt.None? then None else Some(Min(e.expiresAt.value, issuedAt + cfg.maxOfflineMs)), None)
  }

  function Revoked(grant: Grant, now: int): Grant {
    grant.(revokedAt := Some(now))
  }

  predicate IsOf(grant: Grant, trustedDeviceId: string) {
    grant.trustedDeviceId == trustedDeviceId && grant.revokedAt.None?
  }

  function RevokedIf(grant: Grant, trustedDeviceId: string, now: int): Grant {
    if IsOf(grant, trustedDeviceId) then Revoked(grant, now) else grant
  }

  function RevokedFor(grants: map<string, Grant>, trustedDeviceId: string, now: int): map<string, Grant> {
    map id | id in grants :: RevokedIf(grants[id], trustedDeviceId, now)
  }

  /** The unrevoked grants of a device. */
  function GrantsOf(grants: map<string, Grant>, trustedDeviceId: string): set<string> {
    set id | id in grants && IsOf(grants[id], trustedDeviceId)
  }

  predicate VerifyLanProof(crypto: Crypto, challenge: Challenge, signature: string, publicKey: string, now: int) {
    && signature != ""
    && 0 <= now - challenge.issuedAt <= MAX_PROOF_AGE_MS
    && crypto.signed(publicKey, challenge, signature)
  }

  function AreaOf(challenge: Challenge): string {
    if challenge.areaId != "" then challenge.areaId
    else if challenge.areaIds != [] then challenge.areaIds[0] else ""
  }

  /** What a grant must be for a challenge, apart from the nonce. */
  predicate Admits(cfg: Config, grant: Grant, challenge: Challenge, signature: string, now: int) {
    && (grant.expiresAt.Some? && grant.expiresAt.value != 0 ==> grant.expiresAt.value > now)
    && challenge.homeId == grant.homeId && challenge.hubInstallId == grant.hubInstallId
    && AreaOf(challenge) in grant.areaIds
    && COMMAND_SCOPE in grant.scope && grant.householdRole == "TENANT"
    && cfg.crypto.isKey(grant.publicKey)
    && VerifyLanProof(cfg.crypto, challenge, signature, grant.publicKey, now)
  }

  predicate IsUsed(usedNonces: map<string, int>, nonce: string) {
    nonce in INHERITED || (nonce in usedNonces && usedNonces[nonce] != 0)
  }

  predicate IsAccepted(cfg: Config, s: State, grantId: string, challenge: Option<Challenge>, signature: string,
                       now: int) {
    && challenge.Some? && grantId in s.grants && s.grants[grantId].revokedAt.None?
    && Admits(cfg, s.grants[grantId], challenge.value, signature, now)
    && challenge.value.nonce != "" && !IsUsed(s.usedNonces, challenge.value.nonce)
  }

  /** How long nonces are remembered. */
  function Memory(cfg: Config): int {
    Max(cfg.maxOfflineMs, DAY_MS)
  }

  function Pruned(usedNonces: map<string, int>, cutoff: int): map<string, int> {
    map nonce | nonce in usedNonces && usedNonces[nonce] > cutoff :: usedNonces[nonce]
  }

  function Step(cfg: Config, s: State, e: Event): State {
    match e
    case Enroll(enrolment, uuid, now) =>
      if !IsComplete(enrolment) then s
      else s.(grants := s.grants[GrantId(enrolment, uuid) := NewGrant(cfg, enrolment, uuid, now)])
    case Revoke(id, now) =>
      if id in s.grants then s.(grants := s.grants[id := Revoked(s.grants[id], now)]) else s
    case RevokeDevice(trustedDeviceId, now) => s.(grants := RevokedFor(s.grants, trustedDeviceId, now))
    case Verify(grantId, challenge, signature, now) =>
      if IsAccepted(cfg, s, grantId, challenge, signature, now)
      then s.(usedNonces := s.usedNonces[challenge.value.nonce := now],
              accepted := s.accepted + [Acceptance(grantId, challenge.value, now)])
      else s
    case Prune(now) => s.(usedNonces := Pruned(s.usedNonces, now - Memory(cfg)))
  }

  /** The state after a run from a stored one. */
  function Run(cfg: Config, stored: State, trace: seq<Event>): State {
    if trace == [] then stored
    else Step(cfg, Run(cfg, stored, Init(trace)), Last(trace))
  }

  /** A positive clock that does not go back. */
  ghost predicate InOrder(trace: seq<Event>) {
    && (forall i | 0 <= i < |trace| :: 0 < trace[i].now)
    && (forall i, j | 0 <= i < j < |trace| :: trace[i].now <= trace[j].now)
  }

  function Clock(trace: seq<Event>): int {
    if trace == [] then 0 else Last(trace).now
  }

  lemma PrefixIsInOrder(trace: seq<Event>)
    requires InOrder(trace) && trace != []
    ensures InOrder(Init(trace)) && Clock(Init(trace)) <= Last(trace).now && 0 < Last(trace).now
  {}

  // ---------------------------------------------------------------- nonces

  /** An accepted nonce is remembered, or its time to be remembered is over. */
  predicate IsRemembered(cfg: Config, usedNonces: map<string, int>, a: Acceptance, clock: int) {
    || (a.challenge.nonce in usedNonces && usedNonces[a.challenge.nonce] >= a.at > 0)
    || clock - a.at >= Memory(cfg)
  }

  ghost predicate Sound(cfg: Config, s: State, clock: int) {
    && (forall i | 0 <= i < |s.accepted| :: IsRemembered(cfg, s.usedNonces, s.accepted[i], clock))
    && (forall i | 0 <= i < |s.accepted| ::
         0 <= clock - s.accepted[i].at && 0 <= s.accepted[i].at - s.accepted[i].challenge.issuedAt <= MAX_PROOF_AGE_MS)
    && (forall i, j | 0 <= i < j < |s.accepted| && s.accepted[i].challenge.nonce == s.accepted[j].challenge.nonce ::
          s.accepted[j].at - s.accepted[i].at >= Memory(cfg))
  }

  lemma StepIsSound(cfg: Config, s: State, e: Event, clock: int)
    requires Sound(cfg, s, clock) && clock <= e.now && 0 < e.now
    ensures Sound(cfg, Step(cfg, s, e), e.now)
  {
    hide NewGrant, RevokedFor, IsComplete, Admits;
    match e
    case Verify(grantId, challenge, signature, now) =>
      if IsAccepted(cfg, s, grantId, challenge, signature, now) {
        AcceptedIsFresh(cfg, s, grantId, challenge.value, signature, now);
        hide IsAccepted;
        AcceptingIsSound(cfg, s, grantId, challenge.value, now, clock);
      }
    case Prune(now) =>
      forall i | 0 <= i < |s.accepted|
        ensures IsRemembered(cfg, Pruned(s.usedNonces, now - Memory(cfg)), s.accepted[i], now)
      {
        assert IsRemembered(cfg, s.usedNonces, s.accepted[i], clock);
      }
    case _ =>
  }

  lemma AcceptedIsFresh(cfg: Config, s: State, grantId: string, challenge: Challenge, signature: string, now: int)
    requires IsAccepted(cfg, s, grantId, Some(challenge), signature, now)
    ensures 0 <= now - challenge.issuedAt <= MAX_PROOF_AGE_MS && !IsUsed(s.usedNonces, challenge.nonce)
  {}

  lemma AcceptingIsSound(cfg: Config, s: State, grantId: string, challenge: Challenge, now: int, clock: int)
    requires Sound(cfg, s, clock) && clock <= now && 0 < now
    requires 0 <= now - challenge.issuedAt <= MAX_PROOF_AGE_MS && !IsUsed(s.usedNonces, challenge.nonce)
    ensures Sound(cfg, s.(usedNonces := s.usedNonces[challenge.nonce := now],
                          accepted := s.accepted + [Acceptance(grantId, challenge, now)]), now)
  {
    forall i | 0 <= i < |s.accepted|
      ensures IsRemembered(cfg, s.usedNonces[challenge.nonce := now], s.accepted[i], now)
      ensures s.accepted[i].challenge.nonce == challenge.nonce ==> now - s.accepted[i].at >= Memory(cfg)
    {
      assert IsRemembered(cfg, s.usedNonces, s.accepted[i], clock);
    }
  }

  lemma {:induction false} RunIsSound(cfg: Config, stored: State, trace: seq<Event>)
    requires InOrder(trace) && stored.accepted == []
    ensures Sound(cfg, Run(cfg, stored, trace), Clock(trace))
  {
    if trace == [] {
    } else {
      PrefixIsInOrder(trace);
      RunIsSound(cfg, stored, Init(trace));
      StepIsSound(cfg, Run(cfg, stored, Init(trace)), Last(trace), Clock(Init(trace)));
    }
  }

  /** A nonce is accepted again at the earliest when the time for which nonces are remembered has passed. */
  lemma NoncesRest(cfg: Config, stored: State, trace: seq<Event>, i: nat, j: nat)
    requires InOrder(trace) && stored.accepted == [] && i < j < |Run(cfg, stored, trace).accepted|
    requires var accepted := Run(cfg, stored, trace).accepted;
      accepted[i].challenge.nonce == accepted[j].challenge.nonce
    ensures var accepted := Run(cfg, stored, trace).accepted; accepted[j].at - accepted[i].at >= Memory(cfg) >= DAY_MS
  {
    RunIsSound(cfg, stored, trace);
  }

  /** No challenge is accepted twice, whatever is enrolled, revoked, verified and pruned in between. */
  lemma NoChallengeTwice(cfg: Config, stored: State, trace: seq<Event>, i: nat, j: nat)
    requires InOrder(trace) && stored.accepted == [] && i < j < |Run(cfg, stored, trace).accepted|
    ensures var accepted := Run(cfg, stored, trace).accepted; accepted[i].challenge != accepted[j].challenge
  {
    RunIsSound(cfg, stored, trace);
    var accepted := Run(cfg, stored, trace).accepted;
    if accepted[i].challenge == accepted[j].challenge {
      NoncesRest(cfg, stored, trace, i, j);
    }
  }

  // ---------------------------------------------------------------- grants

  /**
    The grant a run leaves in force under an identifier: the last one enrolled or stored, unless it or its device
    was revoked since.
   */
  function InForce(cfg: Config, stored: State, trace: seq<Event>, id: string): Option<Grant> {
    if trace == [] then
      if id in stored.grants && stored.grants[id].revokedAt.None? then Some(stored.grants[id]) else None
    else
      var before := InForce(cfg, stored, Init(trace), id);
      match Last(trace)
      case Enroll(enrolment, uuid, now) =>
        if IsComplete(enrolment) && GrantId(enrolment, uuid) == id
        then Some(NewGrant(cfg, enrolment, uuid, now)) else before
      case Revoke(revoked, _) => if revoked == id then None else before
      case RevokeDevice(device, _) => if before.Some? && before.value.trustedDeviceId == device then None else before
      case _ => before
  }

  lemma {:induction false} StoreKnowsGrants(cfg: Config, stored: State, trace: seq<Event>, id: string)
    ensures var s := Run(cfg, stored, trace);
      InForce(cfg, stored, trace, id) ==
      if id in s.grants && s.grants[id].revokedAt.None? then Some(s.grants[id]) else None
  {
    if trace == [] {
    } else {
      StoreKnowsGrants(cfg, stored, Init(trace), id);
    }
  }

  /** A challenge is accepted exactly if a grant in force admits it and its nonce is new. */
  lemma AcceptedExactlyWhen(cfg: Config, stored: State, trace: seq<Event>, grantId: string, challenge: Challenge,
                            signature: string, now: int)
    requires InOrder(trace) && stored.accepted == [] && Clock(trace) <= now
    ensures var s := Run(cfg, stored, trace);
      var grant := InForce(cfg, stored, trace, grantId);
      && (IsAccepted(cfg, s, grantId, Some(challenge), signature, now) <==>
            grant.Some? && Admits(cfg, grant.value, challenge, signature, now) && challenge.nonce != "" &&
              !IsUsed(s.usedNonces, challenge.nonce))
      && (IsAccepted(cfg, s, grantId, Some(challenge), signature, now) ==>
            forall i | 0 <= i < |s.accepted| && s.accepted[i].challenge.nonce == challenge.nonce ::
              now - s.accepted[i].at >= Memory(cfg))
  {
    StoreKnowsGrants(cfg, stored, trace, grantId);
    RunIsSound(cfg, stored, trace);
    var s := Run(cfg, stored, trace);
    forall i | 0 <= i < |s.accepted| ensures IsRemembered(cfg, s.usedNonces, s.accepted[i], Clock(trace)) {}
  }

  /** No event of a run enrols the identifier. */
  predicate NotEnrolled(trace: seq<Event>, id: string) {
    forall k | 0 <= k < |trace| && trace[k].Enroll? :: GrantId(trace[k].enrolment, trace[k].uuid) != id
  }

  lemma StepKeepsRevoked(cfg: Config, s: State, e: Event, id: string)
    requires id in s.grants && s.grants[id].revokedAt.Some?
    requires e.Enroll? ==> GrantId(e.enrolment, e.uuid) != id
    ensures var s' := Step(cfg, s, e);
      && id in s'.grants && s'.grants[id].revokedAt.Some?
      && (|| s'.accepted == s.accepted
          || (s'.accepted == s.accepted + [Last(s'.accepted)] && Last(s'.accepted).grantId != id))
  {}

  /** A revoked grant stays revoked until its identifier is enrolled again: nothing is accepted for it meanwhile. */
  lemma {:induction false} RevokedStaysRevoked(cfg: Config, s: State, trace: seq<Event>, id: string)
    requires id in s.grants && s.grants[id].revokedAt.Some? && NotEnrolled(trace, id)
    ensures var s' := Run(cfg, s, trace);
      && id in s'.grants && s'.grants[id].revokedAt.Some?
      && |s.accepted| <= |s'.accepted|
      && forall i | |s.accepted| <= i < |s'.accepted| :: s'.accepted[i].grantId != id
  {
    if trace == [] {
    } else {
      hide Step;
      assert forall k | 0 <= k < |trace| - 1 :: Init(trace)[k] == trace[k];
      RevokedStaysRevoked(cfg, s, Init(trace), id);
      StepKeepsRevoked(cfg, Run(cfg, s, Init(trace)), Last(trace), id);
    }
  }
}
