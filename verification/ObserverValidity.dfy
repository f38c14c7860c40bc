/** The shapes in which a persisted client passes the validation. */
module ObserverValidity {
  import opened Wrappers
  import opened Blanks
  import opened ObserverSummary
  import opened ObserverState

  /** Both counts or none, and never more rows returned than there are. */
  predicate Pair(returned: Option<nat>, total: Option<nat>) {
    || (returned, total) == (None, None)
    || (returned.Some? && total.Some? && returned.value <= total.value)
  }

  predicate Untried(p: Poll) {
    p.startedAt < p.deadline
    && p == Poll(p.startedAt, p.deadline, p.startedAt, 0, 0, None, None, None, None, None)
  }

  /** The last attempt lies in the poll's time and before the next one. */
  predicate InTime(p: Poll) {
    p.latestAttempt.Some? && p.startedAt <= p.latestAttempt.value < p.nextAttempt <= p.deadline
  }

  predicate OnlyErrors(p: Poll) {
    && 0 < p.attempts == p.errors
    && p.lastAttemptError == p.latestError && p.latestError.Some?
    && (p.lastReturned, p.lastTotal) == (None, None)
  }

  predicate PageLast(p: Poll) {
    && p.errors < p.attempts
    && p.lastAttemptError.None? && (p.latestError.Some? <==> p.errors > 0)
    && p.lastTotal.Some? && Pair(p.lastReturned, p.lastTotal)
  }

  predicate ErrorLast(p: Poll) {
    && 0 < p.errors < p.attempts
    && p.lastAttemptError == p.latestError && p.latestError.Some?
    && Pair(p.lastReturned, p.lastTotal)
  }

  /** An open poll was not tried yet, got only errors, or ends with a page or an error. */
  lemma PollExactly(p: Poll)
    ensures ValidPoll(p) <==> Untried(p) || (InTime(p) && (OnlyErrors(p) || PageLast(p) || ErrorLast(p)))
  {
  }

  /** A closed poll started after the create and before the results, and its errors are
      among its attempts. */
  predicate Sane(r: Results, created: int) {
    var p := r.poll;
    && created <= p.startedAt < p.deadline && p.startedAt <= r.completedAt
    && p.errors <= p.attempts && (p.latestError.Some? <==> p.errors > 0)
    && Pair(r.returned, r.total) && (r.total.Some? ==> p.errors < p.attempts)
  }

  predicate Completed(r: Results) {
    && r.completed && r.poll.termination.ByCompletion?
    && r.total.Some? && r.error.None? && r.poll.latestAttempt == Some(r.completedAt)
  }

  /** The last attempt came back at or after the deadline. */
  predicate TimedOut(r: Results) {
    && !r.completed && r.poll.termination.ByDeadline?
    && r.poll.attempts > 0 && r.poll.latestAttempt == Some(r.completedAt) && r.poll.deadline <= r.completedAt
    && (if r.error.Some? then r.error == r.poll.latestError else r.total.Some?)
  }

  /** Nothing was asked at or after the deadline. */
  predicate RanOut(r: Results) {
    && !r.completed && r.poll.termination.ByExpiry?
    && r.poll.deadline <= r.completedAt && (r.error.Some? || r.total.Some?)
    && (if r.poll.attempts == 0 then r.poll.latestAttempt.None?
        else r.poll.latestAttempt.Some? && r.poll.startedAt <= r.poll.latestAttempt.value < r.poll.deadline)
  }

  /** A client whose create did not succeed has nothing else; one whose create succeeded
      has an identifier and then nothing yet, an open poll, or results. */
  lemma ClientExactly(c: ClientState)
    ensures
      ValidClient(c) <==>
        if c.create.Some? && c.create.value.Succeeded? then
          var created := c.create.value.completedAt;
          && !BlankId(c.create.value.searchId)
          && !(c.poll.Some? && c.results.Some?)
          && (c.poll.Some? ==>
                var p := c.poll.value;
                created <= p.startedAt
                && (Untried(p) || (InTime(p) && (OnlyErrors(p) || PageLast(p) || ErrorLast(p)))))
          && (c.results.Some? ==>
                var r := c.results.value;
                Sane(r, created) && (Completed(r) || TimedOut(r) || RanOut(r)))
        else c.poll.None? && c.results.None?
  {
  }

  /** The numbers of a state: every cycle and every skip took a slot, and so did a pending
      action, which has the last of them until its cycle is recorded. */
  predicate Numbered(s: State) {
    var open := if s.pending.Some? && s.pending.value.outcome.None? then 1 else 0;
    && s.scheduler.nextCycle == s.driver.cycles + open + 1
    && s.scheduler.nextSlot == s.driver.cycles + s.driver.skips + open + 1
    && (s.pending.Some? ==>
          var p := s.pending.value;
          && 0 < p.cycle == s.scheduler.nextCycle - 1 && p.queryIndex == s.scheduler.nextSlot - 2
          && 0 < p.reportSeq == s.summary.nextSeq && s.scheduler.nextActionAt.None?
          && (p.outcome.Some? ==> p.outcome.value.number == p.cycle && p.outcome.value.actionId == p.actionId))
  }

  predicate SoundAction(p: PendingAction) {
    && !BlankId(p.query) && ValidClient(p.rust) && ValidClient(p.mfc)
    && p.rustRun.processId > 0 && p.mfcRun.processId > 0 && !BlankId(p.rustRun.runId) && !BlankId(p.mfcRun.runId)
    && (p.evidence.Some? ==>
          p.outcome.Some? && forall c: Client ::
            p.Get(c).create.Some? && !p.Get(c).create.value.Prepared?
            && (p.Get(c).create.value.Succeeded? ==> p.Get(c).results.Some?))
  }

  /** The files a store holds and those it dropped are the ones it saw. */
  predicate Kept(r: Retention, counted: nat) {
    r.retained + r.omitted == r.seen <= counted
  }

  /** A state is valid when its summary is, its numbers fit each other, what is pending is
      sound, its times are not blank, and its stores saw no more files than were counted. */
  lemma StateExactly(s: State)
    ensures
      Valid(s) <==>
        && ValidSummary(s.summary) && Numbered(s) && (s.pending.Some? ==> SoundAction(s.pending.value))
        && s.checkpoints.first != Some(Blank) && s.checkpoints.latest != Some(Blank)
        && Kept(s.actionRetention, s.summary.actions) && Kept(s.checkpointRetention, s.checkpoints.count)
  {
    hide ValidClient, ValidSummary;
    if s.pending.Some? {
      var p := s.pending.value;
      assert p.Get(Rust) == p.rust && p.Get(Mfc) == p.mfc;
    }
  }
}
