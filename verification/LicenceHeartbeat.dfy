/** Heartbeat timing: how long the licence server may be away before offline grace runs out. */
module LicenceHeartbeat {
  import opened Options
  import opened Licence

  /** A run of the background ticks. Tick n reads the clock at time(n) and, when it attempts
      a heartbeat, ends it after took(n). */
  datatype Run = Run(start: State, time: nat -> int, reply: nat -> Exchange, took: nat -> int, localFp: string)

  /** The state before tick n. */
  function StateAt(r: Run, n: nat): State {
    if n == 0 then r.start else AfterTick(StateAt(r, n - 1), r.time(n - 1), r.reply(n - 1))
  }

  predicate Attempts(r: Run, n: nat) {
    HeartbeatDue(StateAt(r, n), r.time(n))
  }

  predicate Fails(r: Run, n: nat) {
    Attempts(r, n) && !r.reply(n).Refreshed?
  }

  /** The first failed attempt since the last successful one, before tick n. */
  function FirstFailure(r: Run, n: nat): Option<int> {
    if n == 0 then None
    else if !Attempts(r, n - 1) then FirstFailure(r, n - 1)
    else if r.reply(n - 1).Refreshed? then None
    else Some(FirstFailure(r, n - 1).GetOr(r.time(n - 1)))
  }

  /** A document of this install that does not lapse for any other reason. */
  predicate Sound(doc: Doc, localFp: string) {
    doc.requiresHeartbeat && doc.issuedAt.Some? && (doc.fingerprint.Some? ==> doc.fingerprint.value == localFp)
  }

  /** Ticks come at most `gap` apart, an exchange takes at most `delay` and is over before
      the next tick, the server never denies, and signs at the time of the exchange. */
  ghost predicate Regular(r: Run, gap: int, delay: int) {
    && gap >= 0 && delay >= 0
    && (forall n: nat :: r.time(n) + r.took(n) <= r.time(n + 1) <= r.time(n) + gap && 0 <= r.took(n) <= delay)
    && (forall n: nat :: !r.reply(n).Denied?)
    && (forall n: nat :: r.reply(n).Refreshed? ==>
      Sound(r.reply(n).doc, r.localFp) && r.time(n) <= r.reply(n).doc.issuedAt.value <= r.time(n) + r.took(n))
    && r.start.doc.Some? && Sound(r.start.doc.value, r.localFp) && r.start.revoked.None? && r.start.lastError.None?
    && r.time(0) <= r.start.doc.value.issuedAt.value + HEARTBEAT_INTERVAL + gap
  }

  /** From the first to the last failed attempt of any unavailable stretch at most `length`. */
  ghost predicate Brief(r: Run, length: int) {
    forall n: nat {:trigger Fails(r, n)} :: Fails(r, n) ==> r.time(n) - FirstFailure(r, n).GetOr(r.time(n)) <= length
  }

  /** 47 hours less two ticks and the exchange. */
  function Tolerated(gap: int, delay: int): int {
    47 * HOUR - 2 * gap - delay
  }

  function IssuedAt(s: State): int
    requires s.doc.Some? && s.doc.value.issuedAt.Some?
  {
    s.doc.value.issuedAt.value
  }

  /** What holds before every tick: attempts fall due one interval after the signature and
      are retried hourly, give or take a tick. */
  predicate Retrying(r: Run, n: nat, gap: int) {
    var s := StateAt(r, n);
    && s.doc.Some? && Sound(s.doc.value, r.localFp) && s.revoked.None?
    && (s.lastError.Some? ==> FirstFailure(r, n).Some?)
    && match FirstFailure(r, n)
       case None => r.time(n) <= IssuedAt(s) + HEARTBEAT_INTERVAL + gap
       case Some(first) =>
         && IssuedAt(s) + HEARTBEAT_INTERVAL <= first <= IssuedAt(s) + HEARTBEAT_INTERVAL + gap
         && s.lastAttempt.Some?
         && first <= s.lastAttempt.value <= r.time(n) <= s.lastAttempt.value + HEARTBEAT_RETRY + gap
  }

  lemma {:induction false} AlwaysRetrying(r: Run, n: nat, gap: int, delay: int)
    requires Regular(r, gap, delay)
    ensures Retrying(r, n, gap)
    decreases n
  {
    if n > 0 {
      AlwaysRetrying(r, n - 1, gap, delay);
      assert r.time(n - 1) + r.took(n - 1) <= r.time(n - 1 + 1) <= r.time(n - 1) + gap;
      assert !r.reply(n - 1).Denied?;
      if Attempts(r, n - 1) {
        RetryingAfterAttempt(r, n, gap);
      }
    }
  }

  lemma RetryingAfterAttempt(r: Run, n: nat, gap: int)
    requires n > 0 && Retrying(r, n - 1, gap) && Attempts(r, n - 1) && !r.reply(n - 1).Denied? && gap >= 0
    requires 0 <= r.took(n - 1) <= r.time(n) - r.time(n - 1) <= gap
    requires r.reply(n - 1).Refreshed? ==>
      var doc := r.reply(n - 1).doc;
      Sound(doc, r.localFp) && r.time(n - 1) <= doc.issuedAt.value <= r.time(n - 1) + r.took(n - 1)
    ensures Retrying(r, n, gap)
  {
  }

  /** The last attempt of an unavailable stretch is within the stretch. */
  lemma {:induction false} LastAttemptInStretch(r: Run, n: nat, gap: int, delay: int, length: int)
    requires Regular(r, gap, delay) && Brief(r, length)
    ensures Retrying(r, n, gap)
    ensures FirstFailure(r, n).Some? ==> StateAt(r, n).lastAttempt.value <= FirstFailure(r, n).value + length
    decreases n
  {
    AlwaysRetrying(r, n, gap, delay);
    if n > 0 {
      LastAttemptInStretch(r, n - 1, gap, delay, length);
      if Fails(r, n - 1) {
        assert r.time(n - 1) - FirstFailure(r, n - 1).GetOr(r.time(n - 1)) <= length;
        LastAttemptNow(r, n);
      } else if !Attempts(r, n - 1) {
        assert StateAt(r, n) == StateAt(r, n - 1);
      }
    }
  }

  /** After a failed tick, that tick is the last attempt. */
  lemma LastAttemptNow(r: Run, n: nat)
    requires n > 0 && Fails(r, n - 1)
    ensures StateAt(r, n).lastAttempt == Some(r.time(n - 1))
    ensures FirstFailure(r, n) == Some(FirstFailure(r, n - 1).GetOr(r.time(n - 1)))
  {
  }

  /** Before every tick at least the exchange's time is left of the grace. */
  lemma AgeAtTick(r: Run, n: nat, gap: int, delay: int)
    requires Regular(r, gap, delay) && Tolerated(gap, delay) >= 0 && Brief(r, Tolerated(gap, delay))
    ensures StateAt(r, n).doc.Some? && Sound(StateAt(r, n).doc.value, r.localFp) && StateAt(r, n).revoked.None?
    ensures r.time(n) - IssuedAt(StateAt(r, n)) <= HEARTBEAT_GRACE - delay
  {
    LastAttemptInStretch(r, n, gap, delay, Tolerated(gap, delay));
  }

  /** The state at an instant between tick n and the next: a refreshed document takes over
      when the exchange ends. */
  function StateIn(r: Run, n: nat, t: int): State {
    if Attempts(r, n) && t < r.time(n) + r.took(n) then StateAt(r, n) else StateAt(r, n + 1)
  }

  /** No unavailable stretch this short ever takes an unexpired licence out of grace, at
      any instant of any run. */
  lemma NeverOutOfGrace(r: Run, n: nat, t: int, gap: int, delay: int)
    requires Regular(r, gap, delay) && Tolerated(gap, delay) >= 0 && Brief(r, Tolerated(gap, delay))
    requires r.time(n) <= t <= r.time(n + 1)
    ensures StateIn(r, n, t).doc.Some?
    ensures StateIn(r, n, t).doc.value.expiresAt > t ==> ProblemFor(StateIn(r, n, t), r.localFp, t).None?
  {
    AgeAtTick(r, n, gap, delay);
    AgeAtTick(r, n + 1, gap, delay);
    assert 0 <= r.took(n) <= delay;
  }

  /** No heartbeat from tick `from` on succeeds before tick `to`. */
  ghost predicate NoRefresh(r: Run, from: nat, to: nat) {
    forall k: nat :: from <= k < to ==> !(Attempts(r, k) && r.reply(k).Refreshed?)
  }

  /** A denial revokes the licence for good: whatever the clock says, it stays refused until
      a heartbeat succeeds. */
  lemma {:induction false} DenialRevokes(r: Run, n: nat, m: nat, t: int)
    requires Attempts(r, n) && r.reply(n).Denied? && n < m && NoRefresh(r, n + 1, m)
    ensures StateAt(r, m).revoked.Some? && ProblemFor(StateAt(r, m), r.localFp, t) == Some(Revoked)
    decreases m
  {
    if m > n + 1 {
      DenialRevokes(r, n, m - 1, t);
      assert !(Attempts(r, m - 1) && r.reply(m - 1).Refreshed?);
    }
  }

  /** And a heartbeat that succeeds lifts it. */
  lemma RefreshRestores(r: Run, n: nat, t: int)
    requires Attempts(r, n) && r.reply(n).Refreshed? && InForce(r.reply(n).doc, r.localFp, t)
    ensures ProblemFor(StateAt(r, n + 1), r.localFp, t).None?
  {
  }

  // ----- in terms of the server's outages --------------------------------------------------------

  ghost predicate DownAll(down: int -> bool, a: int, b: int) {
    forall t :: a <= t <= b ==> down(t)
  }

  /** Only an outage makes an attempt fail; outages last at most `length`, and between two of
      them the server is up for longer than any wait between attempts. */
  ghost predicate Outages(r: Run, down: int -> bool, gap: int, length: int) {
    && (forall n: nat {:trigger Fails(r, n)} :: Fails(r, n) ==> down(r.time(n)))
    && (forall a, b {:trigger DownAll(down, a, b)} ::
      a <= b <= a + HEARTBEAT_RETRY + gap && down(a) && down(b) ==> DownAll(down, a, b))
    && (forall a, b {:trigger DownAll(down, a, b)} :: a <= b && DownAll(down, a, b) ==> b - a <= length)
  }

  lemma {:induction false} StretchIsOneOutage(r: Run, down: int -> bool, n: nat, gap: int, delay: int, length: int)
    requires Regular(r, gap, delay) && Outages(r, down, gap, length)
    ensures
      FirstFailure(r, n).Some? ==>
        StateAt(r, n).lastAttempt.Some? && DownAll(down, FirstFailure(r, n).value, StateAt(r, n).lastAttempt.value)
    decreases n
  {
    if n > 0 {
      var m := n - 1;
      StretchIsOneOutage(r, down, m, gap, delay, length);
      AlwaysRetrying(r, m, gap, delay);
      if Fails(r, m) {
        LastAttemptNow(r, n);
        if FirstFailure(r, m).Some? {
          DownUntil(down, FirstFailure(r, m).value, StateAt(r, m).lastAttempt.value, r.time(m), gap);
        }
      } else if !Attempts(r, m) {
        assert StateAt(r, n) == StateAt(r, m);
      }
    }
  }

  /** An outage reaches as far as the next failed attempt. */
  lemma DownUntil(down: int -> bool, first: int, last: int, next: int, gap: int)
    requires first <= last <= next <= last + HEARTBEAT_RETRY + gap && DownAll(down, first, last) && down(next)
    requires forall a, b {:trigger DownAll(down, a, b)} ::
      a <= b <= a + HEARTBEAT_RETRY + gap && down(a) && down(b) ==> DownAll(down, a, b)
    ensures DownAll(down, first, next)
  {
    assert DownAll(down, last, next);
  }

  /** Outages no longer than tolerated never take an unexpired licence out of grace. */
  lemma OutagesAreSurvived(r: Run, down: int -> bool, n: nat, t: int, gap: int, delay: int)
    requires Regular(r, gap, delay) && Tolerated(gap, delay) >= 0 && Outages(r, down, gap, Tolerated(gap, delay))
    requires r.time(n) <= t <= r.time(n + 1)
    ensures StateIn(r, n, t).doc.Some?
    ensures StateIn(r, n, t).doc.value.expiresAt > t ==> ProblemFor(StateIn(r, n, t), r.localFp, t).None?
  {
    forall k: nat | Fails(r, k) ensures r.time(k) - FirstFailure(r, k).GetOr(r.time(k)) <= Tolerated(gap, delay) {
      StretchIsOneOutage(r, down, k, gap, delay, Tolerated(gap, delay));
      AlwaysRetrying(r, k, gap, delay);
      if FirstFailure(r, k).Some? {
        assert DownAll(down, StateAt(r, k).lastAttempt.value, r.time(k));
        assert DownAll(down, FirstFailure(r, k).value, r.time(k));
      }
    }
    NeverOutOfGrace(r, n, t, gap, delay);
  }
}
