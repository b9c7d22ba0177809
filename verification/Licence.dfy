/** Licence documents and the process-wide licence state: validity, the heartbeat tick and
    adoption from the store. Times are in seconds. */
module Licence {
  import opened Options

  const HOUR := 3600
  const HEARTBEAT_INTERVAL := 24 * HOUR
  const HEARTBEAT_GRACE := 72 * HOUR
  const HEARTBEAT_RETRY := HOUR

  datatype Kind = Trial | Commercial

  datatype Doc = Doc(
    licensee: string,
    expiresAt: int,
    issuedAt: Option<int>,
    kind: Kind,
    fingerprint: Option<string>,
    requiresHeartbeat: bool)

  datatype Problem = Expired | FingerprintMismatch | HeartbeatGraceExpired | MissingIssuedAt | Revoked

  datatype State = State(doc: Option<Doc>, revoked: Option<string>, lastAttempt: Option<int>, lastError: Option<string>)

  /** None when the document is usable at `now`; an unknown local fingerprint is not checked. */
  function Validity(doc: Doc, localFp: string, now: int): Option<Problem> {
    if doc.expiresAt <= now then Some(Expired)
    else if doc.fingerprint.Some? && localFp != "" && doc.fingerprint.value != localFp then Some(FingerprintMismatch)
    else if doc.requiresHeartbeat && doc.issuedAt.None? then Some(MissingIssuedAt)
    else if doc.requiresHeartbeat && now - doc.issuedAt.value > HEARTBEAT_GRACE then Some(HeartbeatGraceExpired)
    else None
  }

  /** The document is in force here and now. */
  predicate InForce(doc: Doc, localFp: string, now: int) {
    && now < doc.expiresAt
    && (doc.fingerprint.None? || localFp == "" || doc.fingerprint.value == localFp)
    && (doc.requiresHeartbeat ==> doc.issuedAt.Some? && now <= doc.issuedAt.value + HEARTBEAT_GRACE)
  }

  /** What is wrong with a document that is not in force; the first applies. */
  lemma ProblemsInOrder(doc: Doc, localFp: string, now: int)
    ensures Validity(doc, localFp, now).None? <==> InForce(doc, localFp, now)
    ensures Validity(doc, localFp, now) == Some(Expired) <==> doc.expiresAt <= now
    ensures Validity(doc, localFp, now) == Some(FingerprintMismatch) <==>
      now < doc.expiresAt && localFp != "" && doc.fingerprint.Some? && doc.fingerprint.value != localFp
    ensures Validity(doc, localFp, now) == Some(MissingIssuedAt) ==> doc.requiresHeartbeat && doc.issuedAt.None?
    ensures Validity(doc, localFp, now) == Some(HeartbeatGraceExpired) ==>
      doc.requiresHeartbeat && doc.issuedAt.Some? && now > doc.issuedAt.value + HEARTBEAT_GRACE
  {
  }

  function ProblemFor(s: State, localFp: string, now: int): Option<Problem> {
    if s.revoked.Some? then Some(Revoked)
    else if s.doc.None? then None
    else Validity(s.doc.value, localFp, now)
  }

  predicate HeartbeatDue(s: State, now: int) {
    if s.doc.None? || !s.doc.value.requiresHeartbeat then false
    else if s.revoked.Some? then s.lastAttempt.Some? ==> now - s.lastAttempt.value >= HEARTBEAT_RETRY
    else if s.doc.value.issuedAt.None? then true
    else if now - s.doc.value.issuedAt.value < HEARTBEAT_INTERVAL then false
    else s.lastAttempt.Some? && s.lastError.Some? ==> now - s.lastAttempt.value >= HEARTBEAT_RETRY
  }

  /** The last attempt is a retry interval ago, or there was none. */
  predicate MayRetry(s: State, now: int) {
    match s.lastAttempt
    case None => true
    case Some(last) => now >= last + HEARTBEAT_RETRY
  }

  /** A heartbeat is called for: by a revoked licence at the retry cadence, by one never
      signed at once, and else once the signature is an interval old, after a failure at
      the retry cadence. */
  predicate CallsForHeartbeat(s: State, now: int) {
    && s.doc.Some? && s.doc.value.requiresHeartbeat
    && (s.revoked.Some? ==> MayRetry(s, now))
    && (s.revoked.None? && s.doc.value.issuedAt.Some? ==>
          now >= s.doc.value.issuedAt.value + HEARTBEAT_INTERVAL && (s.lastError.Some? ==> MayRetry(s, now)))
  }

  /** How one heartbeat attempt ends. */
  datatype Exchange =
    | Refreshed(doc: Doc)
    | Denied(reason: string)
    | Unavailable(error: string)
    | Unconfigured
    | KeyUnavailable

  /** The state once a tick that read the clock at `now` is over. */
  function AfterTick(s: State, now: int, e: Exchange): State {
    if !HeartbeatDue(s, now) then s
    else
      var t := s.(lastAttempt := Some(now));
      match e
      case Refreshed(doc) => t.(doc := Some(doc), revoked := None, lastError := None)
      case Denied(reason) => t.(revoked := Some(reason), lastError := Some(reason))
      case Unavailable(error) => t.(lastError := Some(error))
      case Unconfigured =>
        t.(lastError := Some("license requires heartbeat but LICENSE_SERVER_URL/LICENSE_SERVER_TOKEN are unset"))
      case KeyUnavailable => t
  }

  lemma DueMeans(s: State, now: int)
    ensures HeartbeatDue(s, now) <==> CallsForHeartbeat(s, now)
  {
  }

  // ----- adoption ------------------------------------------------------------------------------

  function Issued(doc: Doc): int {
    doc.issuedAt.GetOr(0)
  }

  predicate ShouldAdopt(s: State, candidate: Doc, localFp: string, now: int) {
    if s.doc.None? then true
    else if s.doc.value == candidate then false
    else if Validity(candidate, localFp, now).Some? then false
    else if ProblemFor(s, localFp, now).Some? then true
    else match (s.doc.value.kind, candidate.kind)
      case (Trial, Commercial) => true
      case (Commercial, Trial) => false
      case _ => Issued(candidate) > Issued(s.doc.value)
  }

  function AfterReload(s: State, candidate: Doc, localFp: string, now: int): State {
    if ShouldAdopt(s, candidate, localFp, now) then s.(doc := Some(candidate), revoked := None, lastError := None)
    else s
  }

  /** The process-wide state, updated in place. */
  class Holder {
    var doc: Option<Doc>
    var revoked: Option<string>
    var lastAttempt: Option<int>
    var lastError: Option<string>

    ghost function View(): State
      reads this
    {
      State(doc, revoked, lastAttempt, lastError)
    }

    constructor (s: State)
      ensures View() == s
    {
      doc, revoked, lastAttempt, lastError := s.doc, s.revoked, s.lastAttempt, s.lastError;
    }

    /** heartbeat_tick, once the store file needs no reload. */
    method HeartbeatTick(now: int, e: Exchange)
      modifies this
      ensures View() == AfterTick(old(View()), now, e)
      ensures !CallsForHeartbeat(old(View()), now) ==> View() == old(View())
      ensures CallsForHeartbeat(old(View()), now) ==>
        && lastAttempt == Some(now)
        && doc == (if e.Refreshed? then Some(e.doc) else old(doc))
        && revoked == (if e.Refreshed? then None else if e.Denied? then Some(e.reason) else old(revoked))
        && (e.Refreshed? ==> lastError.None?) && (e.KeyUnavailable? ==> lastError == old(lastError))
        && (e.Denied? || e.Unavailable? || e.Unconfigured? ==> lastError.Some?)
    {
      if !HeartbeatDue(State(doc, revoked, lastAttempt, lastError), now) {
        return;
      }
      lastAttempt := Some(now);
      match e
      case Refreshed(fresher) =>
        doc := Some(fresher);
        revoked := None;
        lastError := None;
      case Denied(reason) =>
        revoked := Some(reason);
        lastError := Some(reason);
      case Unavailable(error) => lastError := Some(error);
      case Unconfigured =>
        lastError := Some("license requires heartbeat but LICENSE_SERVER_URL/LICENSE_SERVER_TOKEN are unset");
      case KeyUnavailable =>
    }

    /** reload_store_if_changed, once the changed file has been verified. */
    method ReloadStore(candidate: Doc, localFp: string, now: int)
      modifies this
      ensures View() == AfterReload(old(View()), candidate, localFp, now)
      // Only a document in force replaces another, unless there was none.
      ensures View() != old(View()) ==> doc == Some(candidate) && revoked.None? && lastError.None?
      ensures doc == Some(candidate) && old(doc).Some? && old(doc).value != candidate ==>
        InForce(candidate, localFp, now)
      ensures old(doc).None? ==> doc == Some(candidate)
      ensures
        && old(doc).Some? && InForce(candidate, localFp, now) && old(doc).value != candidate
        && (old(revoked).Some? || !InForce(old(doc).value, localFp, now))
        ==> doc == Some(candidate)
    {
      if ShouldAdopt(State(doc, revoked, lastAttempt, lastError), candidate, localFp, now) {
        doc := Some(candidate);
        revoked := None;
        lastError := None;
      }
    }
  }
}
