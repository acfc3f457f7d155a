/** The outbox state machine, and the repository several workers share. */
module Outbox {
  import opened Text

  type Millis = int

  datatype JobState = PENDING | SENDING | SENT | RETRY_WAIT | DEAD

  datatype Event =
    | Enqueued(at: Millis)
    | SendStarted(at: Millis, attempt: nat)
    | MarkedSent(at: Millis, messageId: string)
    | Died(at: Millis)
    | RetryScheduled(at: Millis, availableAt: Millis)
    | RecoveredStalledSend(at: Millis, availableAt: Millis)

  datatype Backoff = Backoff(baseMs: int, maxMs: int)

  datatype Job = Job(
    jobId: string, idempotencyKey: string, recipients: seq<string>,
    state: JobState, attempts: nat, maxAttempts: int, backoff: Backoff,
    availableAt: Millis, messageId: Option<string>, sentAt: Option<Millis>,
    lastError: Option<string>, history: seq<Event>)

  datatype Refusal =
    | MissingJobId | MissingKey | UnsupportedPurpose | NoRecipients | MissingUnsubscribe
    | InvitationNeedsOneRecipient | BadMaxAttempts | InvalidTimestamp
    | AlreadySent | Dead | AlreadySending | NotDue | MissingMessageId | NotSending | KeptSent

  type Checked<+T> = Result<T, Refusal>

  /** A parsed timestamp; None is one that does not parse. */
  type Stamp = Option<Millis>

  const PURPOSES: set<string> := {
    "profile_request", "linkedin_request", "interview_question", "clarification",
    "profile_confirmation", "conversation", "private_match_preview", "joint_introduction",
    "stop_confirmation", "deletion_confirmation", "enrollment_invitation" }

  // ----- transitions ------------------------------------------------------

  function Pow2(n: nat): (r: int)
    ensures r >= 1
  {
    if n == 0 then 1 else 2 * Pow2(n - 1)
  }

  function Ceiling(attempt: nat, b: Backoff): int
    requires attempt >= 1
  {
    var grown := b.baseMs * Pow2(attempt - 1);
    if grown <= b.maxMs then grown else b.maxMs
  }

  /** `Math.floor(random() * ceiling)`, with `random` a number in [0, 1). */
  function BackoffMs(attempt: nat, b: Backoff, random: real): int
    requires attempt >= 1
  {
    (random * Ceiling(attempt, b) as real).Floor
  }

  function EnqueueEmail(jobId: string, key: string, purpose: string, recipients: seq<string>,
                        enqueuedAt: Stamp, unsubscribable: bool, maxAttempts: int, b: Backoff): Checked<Job> {
    if jobId == "" then Err(MissingJobId)
    else if key == "" then Err(MissingKey)
    else if purpose !in PURPOSES then Err(UnsupportedPurpose)
    else if recipients == [] then Err(NoRecipients)
    else if purpose == "enrollment_invitation" && !unsubscribable then Err(MissingUnsubscribe)
    else if purpose == "enrollment_invitation" && |recipients| != 1 then Err(InvitationNeedsOneRecipient)
    else if maxAttempts < 1 then Err(BadMaxAttempts)
    else if enqueuedAt.None? then Err(InvalidTimestamp)
    else Ok(Job(jobId, key, recipients, PENDING, 0, maxAttempts, b, enqueuedAt.value,
                None, None, None, [Enqueued(enqueuedAt.value)]))
  }

  function BeginSend(job: Job, now: Stamp): Checked<Job> {
    match job.state
    case SENT => Err(AlreadySent)
    case DEAD => Err(Dead)
    case SENDING => Err(AlreadySending)
    case _ =>
      if now.None? then Err(InvalidTimestamp)
      else if now.value < job.availableAt then Err(NotDue)
      else Ok(job.(state := SENDING, attempts := job.attempts + 1,
                   history := job.history + [SendStarted(now.value, job.attempts + 1)]))
  }

  function MarkSent(job: Job, messageId: string, sentAt: Stamp): Checked<Job> {
    if messageId == "" then Err(MissingMessageId)
    else if job.state == SENT then
      if job.messageId == Some(messageId) then Ok(job) else Err(AlreadySent)
    else if job.state != SENDING then Err(NotSending)
    else if sentAt.None? then Err(InvalidTimestamp)
    else Ok(job.(state := SENT, messageId := Some(messageId), sentAt := sentAt, lastError := None,
                 history := job.history + [MarkedSent(sentAt.value, messageId)]))
  }

  /** Back to waiting, or dead when no attempt is left. */
  function GiveUpOrWait(job: Job, at: Millis, random: real, recovered: bool): Job
    requires job.attempts >= 1
  {
    if job.attempts >= job.maxAttempts then
      job.(state := DEAD, history := job.history + [Died(at)])
    else
      var due := at + BackoffMs(job.attempts, job.backoff, random);
      job.(state := RETRY_WAIT, availableAt := due,
           history := job.history
             + [if recovered then RecoveredStalledSend(at, due) else RetryScheduled(at, due)])
  }

  function MarkFailed(job: Job, at: Stamp, error: Option<string>, permanent: bool, random: real): Checked<Job>
    requires job.state == SENDING ==> job.attempts >= 1
  {
    if job.state != SENDING then Err(NotSending)
    else if at.None? then Err(InvalidTimestamp)
    else
      var next := job.(lastError := error);
      if permanent then Ok(next.(state := DEAD, history := next.history + [Died(at.value)]))
      else Ok(GiveUpOrWait(next, at.value, random, false))
  }

  /** When the send now in doubt was claimed. */
  function LastStart(history: seq<Event>): Option<Millis> {
    if history == [] then None
    else
      match history[|history| - 1]
      case SendStarted(at, _) => Some(at)
      case _ => LastStart(history[..|history| - 1])
  }

  function RecoverStalledSend(job: Job, now: Stamp, stalledAfterMs: int, random: real): Checked<Job>
    requires job.state == SENDING ==> job.attempts >= 1
  {
    if job.state != SENDING then Ok(job)
    else if now.None? then Err(InvalidTimestamp)
    else
      var started := LastStart(job.history);
      if started.Some? && now.value - started.value < stalledAfterMs then Ok(job)
      else Ok(GiveUpOrWait(job, now.value, random, true))
  }

  predicate IsDue(job: Job, now: Millis) {
    job.state != SENT && job.state != DEAD && job.state != SENDING && now >= job.availableAt
  }

  // ----- one job ----------------------------------------------------------

  /** What may be done to a job one worker holds. */
  datatype Action =
    | Begin(now: Stamp)
    | Sent(messageId: string, sentAt: Stamp)
    | Failed(at: Stamp, error: Option<string>, permanent: bool, random: real)
    | Recover(now: Stamp, stalledAfterMs: int, random: real)

  function Apply(job: Job, a: Action): Checked<Job>
    requires job.state == SENDING ==> job.attempts >= 1
  {
    match a
    case Begin(now) => BeginSend(job, now)
    case Sent(id, at) => MarkSent(job, id, at)
    case Failed(at, error, permanent, random) => MarkFailed(job, at, error, permanent, random)
    case Recover(now, after, random) => RecoverStalledSend(job, now, after, random)
  }

  function Starts(history: seq<Event>): nat {
    if history == [] then 0
    else Starts(history[..|history| - 1]) + (if history[|history| - 1].SendStarted? then 1 else 0)
  }

  /** Steps a job still has in it. */
  function Fuel(job: Job): int {
    2 * (job.maxAttempts - job.attempts) + (if job.state == SENDING then 1 else 0)
  }

  predicate Sound(job: Job) {
    && job.maxAttempts >= 1
    && (job.state == PENDING ==> job.attempts == 0)
    && (job.state == PENDING || job.state == RETRY_WAIT ==> job.attempts < job.maxAttempts)
    && (job.state == SENDING || job.state == SENT ==> 1 <= job.attempts)
    && job.attempts <= job.maxAttempts
    && (job.messageId.Some? <==> job.state == SENT)
    && job.attempts == Starts(job.history)
    && |job.history| + Fuel(job) <= 1 + 2 * job.maxAttempts
  }

  lemma EnqueuedIsSound(jobId: string, key: string, purpose: string, recipients: seq<string>,
                        at: Stamp, unsubscribable: bool, maxAttempts: int, b: Backoff)
    ensures var r := EnqueueEmail(jobId, key, purpose, recipients, at, unsubscribable, maxAttempts, b);
            r.Ok? ==> Sound(r.value) && r.value.state == PENDING && r.value.idempotencyKey == key
  {
    if at.Some? {
      var h := [Enqueued(at.value)];
      assert h[..|h| - 1] == [];
    }
  }

  lemma StartsSnoc(history: seq<Event>, e: Event)
    ensures Starts(history + [e]) == Starts(history) + (if e.SendStarted? then 1 else 0)
  {
    var all := history + [e];
    assert all[..|all| - 1] == history;
  }

  /** A transition that changes a job records one event; only a send start counts an attempt. */
  lemma ApplyRecords(job: Job, a: Action) returns (e: Event)
    requires Sound(job) && Apply(job, a).Ok? && Apply(job, a).value != job
    ensures var next := Apply(job, a).value;
            && next.history == job.history + [e]
            && next.attempts == job.attempts + (if e.SendStarted? then 1 else 0)
            && next.idempotencyKey == job.idempotencyKey && next.maxAttempts == job.maxAttempts
            && Fuel(next) < Fuel(job) && (job.state == SENDING) != e.SendStarted?
            && (e.SendStarted? <==> next.state == SENDING)
  {
    var next := Apply(job, a).value;
    e := next.history[|job.history|];
  }

  lemma ApplyKeepsShape(job: Job, a: Action)
    requires Sound(job) && Apply(job, a).Ok?
    ensures var next := Apply(job, a).value;
            && next.maxAttempts >= 1
            && (next.state == PENDING ==> next.attempts == 0)
            && (next.state == PENDING || next.state == RETRY_WAIT ==> next.attempts < next.maxAttempts)
            && (next.state == SENDING || next.state == SENT ==> 1 <= next.attempts)
            && next.attempts <= next.maxAttempts
            && (next.messageId.Some? <==> next.state == SENT)
  {
  }

  /**
   Every transition keeps a job sound, and every one that changes it uses up
   fuel: `beginSend` needs no check of its own to respect the attempt limit.
   */
  lemma ApplyKeepsSound(job: Job, a: Action)
    requires Sound(job) && Apply(job, a).Ok?
    ensures var next := Apply(job, a).value;
            && Sound(next) && next.idempotencyKey == job.idempotencyKey
            && next.maxAttempts == job.maxAttempts && next.attempts >= job.attempts
            && job.history <= next.history
            && (next == job || (Fuel(next) < Fuel(job) && |next.history| == |job.history| + 1))
  {
    ApplyKeepsShape(job, a);
    if Apply(job, a).value != job {
      var e := ApplyRecords(job, a);
      StartsSnoc(job.history, e);
    }
  }

  ghost predicate JobRun(job: Job, actions: seq<Action>, final: Job)
    decreases |actions|
  {
    if actions == [] then final == job
    else
      && (job.state == SENDING ==> job.attempts >= 1)
      && (match Apply(job, actions[0])
          case Ok(next) => JobRun(next, actions[1..], final)
          case Err(_) => JobRun(job, actions[1..], final))
  }

  /**
   However long a run, a job changes at most 2 * maxAttempts times: its history
   is never longer than that and one, and the send starts in it are its attempts.
   */
  lemma {:induction false} RunsAreBounded(job: Job, actions: seq<Action>, final: Job)
    requires Sound(job) && JobRun(job, actions, final)
    ensures Sound(final) && final.maxAttempts == job.maxAttempts
    ensures |final.history| <= 1 + 2 * job.maxAttempts
    ensures job.history <= final.history && job.attempts <= final.attempts
    ensures final == job || Fuel(final) < Fuel(job)
    ensures job.state == SENT || job.state == DEAD ==> final == job
    decreases |actions|
  {
    if actions != [] {
      if Apply(job, actions[0]).Ok? {
        ApplyKeepsSound(job, actions[0]);
        RunsAreBounded(Apply(job, actions[0]).value, actions[1..], final);
      } else {
        RunsAreBounded(job, actions[1..], final);
      }
    }
  }

  /** A job may be claimed exactly when `isDue` says so. */
  lemma DueIffClaimable(job: Job, now: Millis)
    ensures IsDue(job, now) <==> BeginSend(job, Some(now)).Ok?
  {
  }

  lemma ProductIsNonNegative(a: real, b: real)
    requires a >= 0.0 && b >= 0.0
    ensures a * b >= 0.0
    ensures a > 0.0 && b > 0.0 ==> a * b > 0.0
  {
  }

  lemma FloorIsBounded(x: real, c: int)
    requires 0.0 <= x <= c as real
    ensures 0 <= x.Floor <= c && (x < c as real ==> x.Floor < c)
  {
  }

  lemma JitterIsBounded(c: int, random: real)
    requires 0.0 <= random < 1.0 && c >= 0
    ensures 0 <= (random * c as real).Floor <= c
    ensures c > 0 ==> (random * c as real).Floor < c
  {
    var most := c as real;
    ProductIsNonNegative(random, most);
    ProductIsNonNegative(1.0 - random, most);
    var x := random * most;
    assert (1.0 - random) * most == most - x;
    FloorIsBounded(x, c);
  }

  lemma CeilingIsCapped(attempt: nat, b: Backoff)
    requires attempt >= 1 && b.baseMs >= 0 && b.maxMs >= 0
    ensures 0 <= Ceiling(attempt, b) <= b.maxMs
  {
    assert b.baseMs * Pow2(attempt - 1) >= 0;
  }

  lemma WaitIsBounded(job: Job, at: Millis, random: real, recovered: bool)
    requires 1 <= job.attempts < job.maxAttempts
    requires 0.0 <= random < 1.0 && job.backoff.baseMs >= 0 && job.backoff.maxMs >= 0
    ensures var next := GiveUpOrWait(job, at, random, recovered);
            var most := Ceiling(job.attempts, job.backoff);
            && next.state == RETRY_WAIT && most <= job.backoff.maxMs
            && at <= next.availableAt <= at + most
            && (most > 0 ==> next.availableAt < at + most)
  {
    var c := Ceiling(job.attempts, job.backoff);
    CeilingIsCapped(job.attempts, job.backoff);
    JitterIsBounded(c, random);
    assert BackoffMs(job.attempts, job.backoff, random) == (random * c as real).Floor;
  }

  /** When a failure is reported, or a send found stalled, and the draw for the wait. */
  function ReportedAt(a: Action): Stamp {
    match a
    case Begin(now) => now
    case Sent(_, at) => at
    case Failed(at, _, _, _) => at
    case Recover(now, _, _) => now
  }

  function Draw(a: Action): real {
    match a
    case Failed(_, _, _, random) => random
    case Recover(_, _, random) => random
    case _ => 0.0
  }

  /** A failure that may be tried again, or a send old enough to be given up. */
  predicate CallsForRetry(job: Job, a: Action) {
    (a.Failed? && a.at.Some? && !a.permanent)
    || (a.Recover? && a.now.Some?
        && (LastStart(job.history).Some? ==> a.now.value - LastStart(job.history).value >= a.stalledAfterMs))
  }

  /**
   A job in flight is put to wait exactly when a failure or a recovery calls for
   it and an attempt is left; it then waits at least nothing and at most the
   capped exponential, from the report on.
   */
  lemma RetryTimeIsBounded(job: Job, a: Action)
    requires Sound(job) && job.state == SENDING
    requires 0.0 <= Draw(a) < 1.0 && job.backoff.baseMs >= 0 && job.backoff.maxMs >= 0
    ensures var r := Apply(job, a);
            r.Ok? && r.value.state == RETRY_WAIT <==> CallsForRetry(job, a) && job.attempts < job.maxAttempts
    ensures CallsForRetry(job, a) && job.attempts < job.maxAttempts ==>
              var due, at, most := Apply(job, a).value.availableAt, ReportedAt(a).value, Ceiling(job.attempts, job.backoff);
              most <= job.backoff.maxMs && at <= due <= at + most && (most > 0 ==> due < at + most)
  {
    if CallsForRetry(job, a) && job.attempts < job.maxAttempts {
      match a
      case Failed(at, error, _, random) => WaitIsBounded(job.(lastError := error), at.value, random, false);
      case Recover(now, _, random) => WaitIsBounded(job, now.value, random, true);
    }
  }

  // ----- the repository ---------------------------------------------------

  /** `outboxKey`, trimming and hash included: any function, "" where it throws. */
  type RowId = string -> string

  type Rows = map<string, Job>

  datatype Write = Enqueue(job: Job) | Save(job: Job)

  /** What one write leaves in the store; refused writes leave it alone. */
  function Written(k: RowId, rows: Rows, w: Write): Rows {
    var id := k(w.job.idempotencyKey);
    if id == "" then rows
    else if id in rows && (w.Enqueue? || rows[id].state == SENT) then rows
    else rows[id := w.job]
  }

  ghost function AllWritten(k: RowId, rows: Rows, writes: seq<Write>): Rows
    decreases |writes|
  {
    if writes == [] then rows else AllWritten(k, Written(k, rows, writes[0]), writes[1..])
  }

  /** Every row sits under the id of its own key, so a key never has two rows. */
  predicate Keyed(k: RowId, rows: Rows) {
    forall id :: id in rows ==> id != "" && k(rows[id].idempotencyKey) == id
  }

  class OutboxRepository {
    const rowId: RowId
    var rows: Rows

    constructor (rowId: RowId)
      ensures rows == map[] && this.rowId == rowId
    {
      this.rowId, rows := rowId, map[];
    }

    method EnqueueJob(job: Job) returns (r: Checked<(Job, bool)>)
      modifies this
      ensures rows == Written(rowId, old(rows), Enqueue(job))
      ensures var id := rowId(job.idempotencyKey);
              if id == "" then r == Err(MissingKey)
              else r == Ok(if id in old(rows) then (old(rows)[id], true) else (job, false))
    {
      var id := rowId(job.idempotencyKey);
      if id == "" { return Err(MissingKey); }
      if id in rows { return Ok((rows[id], true)); }
      rows := rows[id := job];
      r := Ok((job, false));
    }

    method SaveJob(job: Job) returns (r: Checked<Job>)
      modifies this
      ensures rows == Written(rowId, old(rows), Save(job))
      ensures var id := rowId(job.idempotencyKey);
              if id == "" then r == Err(MissingKey)
              else if id in old(rows) && old(rows)[id].state == SENT then
                r == if job.state == SENT && job.messageId == old(rows)[id].messageId
                     then Ok(old(rows)[id]) else Err(KeptSent)
              else r == Ok(job)
    {
      var id := rowId(job.idempotencyKey);
      if id == "" { return Err(MissingKey); }
      if id in rows && rows[id].state == SENT {
        if job.state != SENT { return Err(KeptSent); }
        if rows[id].messageId != job.messageId { return Err(KeptSent); }
        return Ok(rows[id]);
      }
      rows := rows[id := job];
      r := Ok(job);
    }
  }

  lemma WriteKeepsSent(k: RowId, rows: Rows, w: Write)
    requires Keyed(k, rows)
    ensures Keyed(k, Written(k, rows, w)) && rows.Keys <= Written(k, rows, w).Keys
    ensures forall id :: id in rows && rows[id].state == SENT ==> Written(k, rows, w)[id] == rows[id]
  {
  }

  /**
   Whatever any number of workers write, from however stale a copy: a row that
   once reached SENT is never changed again, and no row is ever lost or doubled.
   */
  lemma {:induction false} SentIsForever(k: RowId, rows: Rows, writes: seq<Write>, id: string)
    requires Keyed(k, rows)
    ensures Keyed(k, AllWritten(k, rows, writes)) && rows.Keys <= AllWritten(k, rows, writes).Keys
    ensures id in rows && rows[id].state == SENT ==> AllWritten(k, rows, writes)[id] == rows[id]
    decreases |writes|
  {
    if writes != [] {
      WriteKeepsSent(k, rows, writes[0]);
      SentIsForever(k, Written(k, rows, writes[0]), writes[1..], id);
    }
  }

  // ----- workers that hold copies -----------------------------------------

  /**
   One read, one transition and one write on the row of `id`. With `held` the
   worker acts on a copy it read before; without it, on what is stored now.
   */
  datatype Turn = Turn(id: string, action: Action, held: Option<Job>)

  ghost predicate Saving(k: RowId, rows: Rows, t: Turn) {
    && t.id in rows
    && var copy := if t.held.Some? then t.held.value else rows[t.id];
       && k(copy.idempotencyKey) == t.id
       && (copy.state == SENDING ==> copy.attempts >= 1)
       && Apply(copy, t.action).Ok?
  }

  ghost function AfterTurn(k: RowId, rows: Rows, t: Turn): Rows {
    if !Saving(k, rows, t) then rows
    else
      var copy := if t.held.Some? then t.held.value else rows[t.id];
      Written(k, rows, Save(Apply(copy, t.action).value))
  }

  /** A SENT row refuses every save, so the worker that tried one stops there. */
  ghost predicate Stored(k: RowId, rows: Rows, t: Turn) {
    Saving(k, rows, t) && rows[t.id].state != SENT
  }

  /** A handoff to the mail server is a claim that was stored. */
  ghost predicate HandsOff(k: RowId, rows: Rows, t: Turn, id: string) {
    t.id == id && t.action.Begin? && Stored(k, rows, t)
  }

  ghost function Handoffs(k: RowId, rows: Rows, turns: seq<Turn>, id: string): nat
    decreases |turns|
  {
    if turns == [] then 0
    else
      (if HandsOff(k, rows, turns[0], id) then 1 else 0)
      + Handoffs(k, AfterTurn(k, rows, turns[0]), turns[1..], id)
  }

  /** The attempts that one stored save, made from another copy than the row's, takes off the row. */
  ghost function Taken(k: RowId, rows: Rows, t: Turn, id: string): int {
    if t.id == id && Stored(k, rows, t) && t.held.Some? then rows[id].attempts - t.held.value.attempts else 0
  }

  ghost function TakenBack(k: RowId, rows: Rows, turns: seq<Turn>, id: string): int
    decreases |turns|
  {
    if turns == [] then 0
    else Taken(k, rows, turns[0], id) + TakenBack(k, AfterTurn(k, rows, turns[0]), turns[1..], id)
  }

  ghost function AfterTurns(k: RowId, rows: Rows, turns: seq<Turn>): Rows
    decreases |turns|
  {
    if turns == [] then rows else AfterTurns(k, AfterTurn(k, rows, turns[0]), turns[1..])
  }

  ghost predicate SoundRows(k: RowId, rows: Rows) {
    Keyed(k, rows) && forall id :: id in rows ==> Sound(rows[id])
  }

  /** A copy is fresh when nothing was written since it was read. */
  ghost predicate AllFresh(k: RowId, rows: Rows, turns: seq<Turn>)
    decreases |turns|
  {
    turns == [] ||
    (&& (turns[0].held.Some? && turns[0].id in rows ==> turns[0].held.value == rows[turns[0].id])
     && AllFresh(k, AfterTurn(k, rows, turns[0]), turns[1..]))
  }

  lemma FreshTurn(k: RowId, rows: Rows, t: Turn, id: string)
    requires SoundRows(k, rows) && id in rows
    requires t.held.Some? && t.id in rows ==> t.held.value == rows[t.id]
    ensures SoundRows(k, AfterTurn(k, rows, t)) && id in AfterTurn(k, rows, t)
    ensures var next := AfterTurn(k, rows, t)[id];
            && next.maxAttempts == rows[id].maxAttempts
            && next.attempts == rows[id].attempts
                 + (if HandsOff(k, rows, t, id) then 1 else 0)
  {
    if Saving(k, rows, t) {
      var job := rows[t.id];
      var next := Apply(job, t.action).value;
      ApplyKeepsSound(job, t.action);
      SavedTurn(k, rows, t);
      assert job.state == SENT ==> next == job;
    }
  }

  lemma SavedTurn(k: RowId, rows: Rows, t: Turn)
    requires SoundRows(k, rows) && Saving(k, rows, t)
    requires t.held.Some? ==> t.held.value == rows[t.id]
    requires Sound(Apply(rows[t.id], t.action).value)
    requires Apply(rows[t.id], t.action).value.idempotencyKey == rows[t.id].idempotencyKey
    ensures SoundRows(k, AfterTurn(k, rows, t))
    ensures AfterTurn(k, rows, t)
         == if rows[t.id].state == SENT then rows else rows[t.id := Apply(rows[t.id], t.action).value]
  {
    WriteKeepsSent(k, rows, Save(Apply(rows[t.id], t.action).value));
  }

  lemma ApplyCounts(job: Job, a: Action)
    requires (job.state == SENDING ==> job.attempts >= 1) && Apply(job, a).Ok?
    ensures Apply(job, a).value.attempts == job.attempts + (if a.Begin? then 1 else 0)
    ensures Apply(job, a).value.idempotencyKey == job.idempotencyKey
  {
  }

  lemma TurnAccounts(k: RowId, rows: Rows, t: Turn, id: string)
    requires Keyed(k, rows) && id in rows
    ensures Keyed(k, AfterTurn(k, rows, t)) && id in AfterTurn(k, rows, t)
    ensures AfterTurn(k, rows, t)[id].attempts
         == rows[id].attempts + (if HandsOff(k, rows, t, id) then 1 else 0) - Taken(k, rows, t, id)
  {
    if Saving(k, rows, t) {
      var copy := if t.held.Some? then t.held.value else rows[t.id];
      ApplyCounts(copy, t.action);
      WriteKeepsSent(k, rows, Save(Apply(copy, t.action).value));
    }
  }

  /**
   The exact account, whatever copies are saved: a row has been handed off as
   often as its attempts rose, and once more for each attempt a save from
   another copy took back. So handoffs stay within a limit exactly when the
   attempts stored at the end and those taken back do.
   */
  lemma {:induction false} HandoffsAccount(k: RowId, rows: Rows, turns: seq<Turn>, id: string)
    requires Keyed(k, rows) && id in rows
    ensures id in AfterTurns(k, rows, turns)
    ensures rows[id].attempts + Handoffs(k, rows, turns, id)
         == AfterTurns(k, rows, turns)[id].attempts + TakenBack(k, rows, turns, id)
    decreases |turns|
  {
    if turns != [] {
      TurnAccounts(k, rows, turns[0], id);
      HandoffsAccount(k, AfterTurn(k, rows, turns[0]), turns[1..], id);
    }
  }

  lemma {:induction false} FreshTakesNothing(k: RowId, rows: Rows, turns: seq<Turn>, id: string)
    requires AllFresh(k, rows, turns)
    ensures TakenBack(k, rows, turns, id) == 0
    decreases |turns|
  {
    if turns != [] { FreshTakesNothing(k, AfterTurn(k, rows, turns[0]), turns[1..], id); }
  }

  lemma {:induction false} FreshStaysSound(k: RowId, rows: Rows, turns: seq<Turn>, id: string)
    requires SoundRows(k, rows) && AllFresh(k, rows, turns) && id in rows
    ensures SoundRows(k, AfterTurns(k, rows, turns)) && id in AfterTurns(k, rows, turns)
    ensures AfterTurns(k, rows, turns)[id].maxAttempts == rows[id].maxAttempts
    decreases |turns|
  {
    if turns != [] {
      FreshTurn(k, rows, turns[0], id);
      FreshStaysSound(k, AfterTurn(k, rows, turns[0]), turns[1..], id);
    }
  }

  /** When every save starts from the stored row, handoffs never pass the limit. */
  lemma HandoffsAreBounded(k: RowId, rows: Rows, turns: seq<Turn>, id: string)
    requires SoundRows(k, rows) && AllFresh(k, rows, turns) && id in rows
    ensures id in AfterTurns(k, rows, turns)
    ensures AfterTurns(k, rows, turns)[id].attempts == rows[id].attempts + Handoffs(k, rows, turns, id)
    ensures rows[id].attempts + Handoffs(k, rows, turns, id) <= rows[id].maxAttempts
  {
    HandoffsAccount(k, rows, turns, id);
    FreshTakesNothing(k, rows, turns, id);
    FreshStaysSound(k, rows, turns, id);
  }

  /** Claims are fresh, though a worker may still report on a claim it has lost. */
  ghost predicate ClaimsFresh(k: RowId, rows: Rows, turns: seq<Turn>)
    decreases |turns|
  {
    turns == [] ||
    (&& (turns[0].action.Begin? && turns[0].held.Some? && turns[0].id in rows
         ==> turns[0].held.value == rows[turns[0].id])
     && ClaimsFresh(k, AfterTurn(k, rows, turns[0]), turns[1..]))
  }

  function FirstClaim(start: Job): Job
    requires start.state == PENDING && start.availableAt == 0
  {
    BeginSend(start, Some(0)).value
  }

  /**
   Fresh claims alone are not enough: a worker that reports failure from the
   copy it claimed, after its send was recovered and claimed again, lowers the
   stored count, and a job limited to two attempts is handed off three times.
   */
  lemma StaleFailureHandsOffAgain(k: RowId, start: Job, rows: Rows) returns (turns: seq<Turn>)
    requires Sound(start) && start.state == PENDING && start.availableAt == 0 && start.maxAttempts == 2
    requires k(start.idempotencyKey) != "" && rows == map[k(start.idempotencyKey) := start]
    ensures ClaimsFresh(k, rows, turns)
    ensures Handoffs(k, rows, turns, k(start.idempotencyKey)) == 3
    ensures k(start.idempotencyKey) in AfterTurns(k, rows, turns)
    ensures AfterTurns(k, rows, turns)[k(start.idempotencyKey)].attempts + TakenBack(k, rows, turns, k(start.idempotencyKey)) == 3
  {
    var id := k(start.idempotencyKey);
    var j1 := FirstClaim(start);
    var t1 := Turn(id, Begin(Some(0)), None);
    var t2 := Turn(id, Recover(Some(10), 0, 0.0), None);
    var t3 := Turn(id, Begin(Some(10)), None);
    var t4 := Turn(id, Failed(Some(10), None, false, 0.0), Some(j1));
    var t5 := Turn(id, Begin(Some(10)), None);
    turns := [t1, t2, t3, t4, t5];
    var r1 := AfterTurn(k, rows, t1);
    assert r1 == map[id := j1];
    StartsSnoc(start.history, SendStarted(0, 1));
    assert LastStart(j1.history) == Some(0);
    var r2 := AfterTurn(k, r1, t2);
    assert Saving(k, r1, t2) && r2[id].state == RETRY_WAIT && r2[id].attempts == 1 && r2[id].availableAt == 10;
    assert r2.Keys == {id} && k(r2[id].idempotencyKey) == id && r2[id].maxAttempts == 2;
    var r3 := AfterTurn(k, r2, t3);
    assert Saving(k, r2, t3) && r3[id].state == SENDING && r3[id].attempts == 2 && k(r3[id].idempotencyKey) == id;
    var r4 := AfterTurn(k, r3, t4);
    assert Saving(k, r3, t4) && r4[id].state == RETRY_WAIT && r4[id].attempts == 1 && r4[id].availableAt == 10;
    assert k(r4[id].idempotencyKey) == id && Saving(k, r4, t5);
    ThreeClaims(k, rows, t1, r1, t2, r2, t3, r3, t4, r4, t5, id);
    HandoffsAccount(k, rows, turns, id);
  }

  lemma ThreeClaims(k: RowId, r0: Rows, t1: Turn, r1: Rows, t2: Turn, r2: Rows, t3: Turn, r3: Rows, t4: Turn,
                    r4: Rows, t5: Turn, id: string)
    requires r1 == AfterTurn(k, r0, t1) && r2 == AfterTurn(k, r1, t2) && r3 == AfterTurn(k, r2, t3)
    requires r4 == AfterTurn(k, r3, t4)
    requires t1.id == t3.id == t5.id == id && t1.action.Begin? && t3.action.Begin? && t5.action.Begin?
    requires !t2.action.Begin? && !t4.action.Begin?
    requires t1.held.None? && t3.held.None? && t5.held.None?
    requires Stored(k, r0, t1) && Stored(k, r2, t3) && Stored(k, r4, t5)
    ensures Handoffs(k, r0, [t1, t2, t3, t4, t5], id) == 3 && ClaimsFresh(k, r0, [t1, t2, t3, t4, t5])
  {
    var s := [t1, t2, t3, t4, t5];
    assert s[1..] == [t2, t3, t4, t5] && s[1..][1..] == [t3, t4, t5];
    assert [t3, t4, t5][1..] == [t4, t5] && [t4, t5][1..] == [t5] && [t5][1..] == [];
    var r5 := AfterTurn(k, r4, t5);
    assert Handoffs(k, r4, [t5], id) == 1 + Handoffs(k, r5, [], id) && ClaimsFresh(k, r4, [t5]);
    assert Handoffs(k, r3, [t4, t5], id) == 1 && ClaimsFresh(k, r3, [t4, t5]);
    assert Handoffs(k, r2, [t3, t4, t5], id) == 2 && ClaimsFresh(k, r2, [t3, t4, t5]);
    assert Handoffs(k, r1, s[1..], id) == 2 && ClaimsFresh(k, r1, s[1..]);
  }
}
