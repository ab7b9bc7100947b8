/** `ActionMailer::ARSendmail`: the daemon that claims queued rows, sends
    them through one SMTP session per batch, records each outcome on the
    row, and repeats on a fixed delay. */
module Sendmail {
  import opened Queue
  import opened Smtp
  import opened Claim
  import opened Delivery

  const DEFAULT_DELAY: nat := 60
  const DEFAULT_TABLE_NAME: string := "Email"
  const DEFAULT_MAX_AGE: nat := 86400 * 7

  /** The options hash `initialize` receives. */
  datatype Options = Options(
    batchSize: Option<nat>,
    delay: Option<nat>,
    tableName: Option<string>,
    maxAge: Option<nat>,
    once: bool,
    verbose: bool)

  /** `x ||= d` on an option that is either set or nil. */
  function OrDefault<T>(o: Option<T>, d: T): T
  {
    if o.Some? then o.value else d
  }

  /** The settings the run loop reads. */
  datatype Config = Config(batchSize: Option<nat>, delay: nat, maxAge: nat, once: bool)

  /** The settings `initialize` derives from its options: 60 seconds of
      delay, 'Email' as table and seven days of maximum age when absent; a
      given value, 0 included, is kept. */
  function Configure(o: Options): (c: Config)
    ensures c.delay == (if o.delay.Some? then o.delay.value else 60)
    ensures c.maxAge == (if o.maxAge.Some? then o.maxAge.value else 604800)
    ensures c.batchSize == o.batchSize && c.once == o.once
  {
    Config(o.batchSize, OrDefault(o.delay, DEFAULT_DELAY), OrDefault(o.maxAge, DEFAULT_MAX_AGE), o.once)
  }

  /** The array of claimed rows handed to `deliver`, which empties it with
      `shift`. */
  class MailBatch {
    var emails: seq<Email>

    constructor (emails: seq<Email>)
      ensures this.emails == emails
    {
      this.emails := emails;
    }
  }

  class ARSendmail {
    var batchSize: Option<nat>
    var delay: nat
    var maxAge: nat
    var verbose: bool
    const once: bool
    const emailClass: Table
    var failedAuthCount: nat
    ghost var slept: seq<int>

    /** `initialize`: the table name is resolved against the model classes
        the application defines. */
    constructor (options: Options, classes: map<string, Table>)
      requires OrDefault(options.tableName, DEFAULT_TABLE_NAME) in classes
      ensures Settings() == Configure(options)
      ensures emailClass == classes[OrDefault(options.tableName, DEFAULT_TABLE_NAME)]
      ensures verbose == options.verbose
      ensures failedAuthCount == 0 && slept == []
    {
      var c := Configure(options);
      batchSize := c.batchSize;
      delay := c.delay;
      emailClass := classes[OrDefault(options.tableName, DEFAULT_TABLE_NAME)];
      once := c.once;
      verbose := options.verbose;
      maxAge := c.maxAge;
      failedAuthCount := 0;
      slept := [];
    }

    function Settings(): Config
      reads this
    {
      Config(batchSize, delay, maxAge, once)
    }

    /** Everything `deliver` reads or writes, as one value. */
    ghost function EngineOf(batch: MailBatch, smtp: SmtpSession): Engine
      reads this, emailClass, batch, smtp
    {
      Engine(emailClass.rows, batch.emails, smtp.replies, smtp.resetCalls, smtp.accepted, failedAuthCount, slept)
    }

    /** Everything `run` leaves behind, as one value. */
    ghost function DaemonOf(): Daemon
      reads this, emailClass
    {
      Daemon(emailClass.rows, failedAuthCount, slept)
    }

    /** `cleanup`: with `max_age` 0 nothing happens; otherwise every stale
        row is marked failed and the number of matching rows is returned. */
    method Cleanup(now: int) returns (expired: nat)
      requires emailClass.Valid()
      modifies emailClass
      ensures emailClass.Valid()
      ensures emailClass.rows == Claim.Cleanup(maxAge, old(emailClass.rows), now)
      ensures expired == if maxAge == 0 then 0 else CountStale(old(emailClass.rows), now - maxAge)
    {
      if maxAge == 0 {
        return 0;
      }
      var timeout := now - maxAge;
      CleanupKeepsKeys(maxAge, emailClass.rows, now);
      expired := CountStale(emailClass.rows, timeout);
      emailClass.rows := Expire(emailClass.rows, timeout);
    }

    /** `find_emails`: the claimable rows, in table order, capped at
        `batch_size` when one is set. */
    function FindEmails(now: int): (found: seq<Email>)
      reads this, emailClass
      requires emailClass.Valid()
      ensures InKeyOrder(emailClass.rows, found)
      ensures forall k | 0 <= k < |found| :: Claimable(found[k], now)
      ensures batchSize.Some? ==> |found| <= batchSize.value
      ensures batchSize.None? || |found| < batchSize.value ==>
                forall i | 0 <= i < |emailClass.rows| && Claimable(emailClass.rows[i], now) :: emailClass.rows[i] in found
    {
      ClaimSelects(emailClass.rows, now, batchSize);
      ClaimBatch(emailClass.rows, now, batchSize)
    }

    /** The `rescue Net::SMTPAuthenticationError` clause of `deliver`. */
    method AuthFailure(err: SmtpError) returns (raised: Option<SmtpError>)
      modifies this`failedAuthCount, this`slept
      ensures failedAuthCount == old(failedAuthCount) + 1
      ensures raised == (if failedAuthCount >= MAX_AUTH_FAILURES then Some(err) else None)
      ensures slept == old(slept) + (if raised.None? then [delay] else [])
    {
      failedAuthCount := failedAuthCount + 1;
      if failedAuthCount >= MAX_AUTH_FAILURES {
        return Some(err);
      }
      slept := slept + [delay];
      raised := None;
    }

    /** One turn of `deliver`'s loop: shift the next message off the batch,
        stamp the attempt, send it, record the reply on the message, reset
        the session after a permanent or transient error, and save the
        message unless the send raised an authentication error, lost the
        connection or raised an exception `deliver` does not rescue, or the
        RSET raised. */
    method TakeNext(batch: MailBatch, smtp: SmtpSession, now: int) returns (reply: Reply)
      requires emailClass.Valid() && batch.emails != []
      modifies emailClass, batch, smtp
      ensures emailClass.Valid()
      ensures reply == NextReply(old(smtp.replies))
      ensures EngineOf(batch, smtp) == Advance(old(EngineOf(batch, smtp)), now)
    {
      var email := batch.emails[0];
      batch.emails := batch.emails[1..];
      email := email.(lastSendAttempt := now, attempts := email.attempts + 1);
      reply := smtp.SendMessage(email.mail, email.from, email.to);
      match reply {
        case Accepted(status) =>
          email := email.(failed := false, sentAt := Some(now), successStatus := Some(status));
        case Rejected(err) =>
          email := email.(lastError := Some(ErrorReport(ClassName(reply), err)), failed := true);
          smtp.Reset();
        case Busy(err) =>
          email := email.(lastError := Some(ErrorReport(ClassName(reply), err)));
        case Transient(_, err) =>
          email := email.(lastError := Some(ErrorReport(ClassName(reply), err)));
          smtp.Reset();
        case AuthRefused(_) =>
          return;
        case Dropped =>
          return;
        case Unhandled(_) =>
          return;
        case ResetFailed(_, _) =>
          smtp.Reset();
          return;
      }
      emailClass.Save(email);
    }

    /** `deliver(emails)`: the effect on the table, the batch, the session,
        the counter and the sleeps is the one Delivery.Deliver describes. */
    method Deliver(batch: MailBatch, smtp: SmtpSession, now: int) returns (raised: Option<SmtpError>)
      requires emailClass.Valid()
      modifies this`failedAuthCount, this`slept, emailClass, batch, smtp
      ensures emailClass.Valid()
      ensures EngineOf(batch, smtp) == Delivery.Deliver(old(EngineOf(batch, smtp)), smtp.opening, now, delay).state
      ensures raised == Delivery.Deliver(old(EngineOf(batch, smtp)), smtp.opening, now, delay).raised
    {
      match smtp.opening
      case OpenDropped =>
        raised := None;
      case OpenRefused(err) =>
        raised := AuthFailure(err);
      case OpenFailed(err) =>
        raised := Some(err);
      case Opened =>
        failedAuthCount := 0;
        ghost var start := EngineOf(batch, smtp);
        while batch.emails != []
          invariant emailClass.Valid()
          invariant failedAuthCount == 0 && slept == old(slept)
          invariant Send(EngineOf(batch, smtp), now) == Send(start, now)
          decreases |batch.emails|
        {
          var reply := TakeNext(batch, smtp, now);
          match reply {
            case Busy(_) =>
              slept := slept + [delay];
              return None;
            case AuthRefused(err) =>
              raised := AuthFailure(err);
              return;
            case Dropped =>
              return None;
            case Unhandled(err) =>
              return Some(err);
            case ResetFailed(Swallowed, _) =>
              return None;
            case ResetFailed(AuthRescued, err) =>
              raised := AuthFailure(err);
              return;
            case ResetFailed(NotRescued, err) =>
              return Some(err);
            case _ =>
          }
        }
        raised := None;
    }

    /** One pass of `run`'s loop, up to the check of `once`: cleanup, then
        the claim and `deliver` inside the transaction, whose rollback
        restores the table when an error leaves `deliver`. */
    method RunPass(t: Tick) returns (raised: Option<SmtpError>)
      requires emailClass.Valid()
      modifies this`failedAuthCount, this`slept, emailClass
      ensures emailClass.Valid()
      ensures DaemonOf() == Iterate(Settings(), old(DaemonOf()), t).daemon
      ensures raised == Iterate(Settings(), old(DaemonOf()), t).raised
    {
      var expired := Cleanup(t.now);
      raised := None;
      if !t.conflict {
        var savepoint := emailClass.rows;
        var found := FindEmails(t.now);
        if found != [] {
          var batch := new MailBatch(found);
          var smtp := new SmtpSession(t.opening, t.replies);
          raised := Deliver(batch, smtp, t.now);
          if raised.Some? {
            emailClass.Restore(savepoint);
          }
        }
      }
    }

    /** `run`: cleanup, claim, deliver a non-empty batch, then stop after one
        pass when `once` is set, or sleep `delay` when the pass took less
        than `delay` and go on. The loop ends when an error leaves
        `deliver` (an authentication error re-raised, or an exception it
        does not rescue), or when the passes given run out (the process being
        stopped). */
    method Run(ticks: seq<Tick>) returns (raised: Option<SmtpError>)
      requires emailClass.Valid()
      modifies this`failedAuthCount, this`slept, emailClass
      ensures emailClass.Valid()
      ensures DaemonOf() == RunLoop(Settings(), old(DaemonOf()), ticks).daemon
      ensures raised == RunLoop(Settings(), old(DaemonOf()), ticks).raised
    {
      var i := 0;
      raised := None;
      while i < |ticks|
        invariant 0 <= i <= |ticks|
        invariant emailClass.Valid()
        invariant RunLoop(Settings(), DaemonOf(), ticks[i..]) == RunLoop(Settings(), old(DaemonOf()), ticks)
        decreases |ticks| - i
      {
        var t := ticks[i];
        assert ticks[i..][0] == t && ticks[i..][1..] == ticks[i + 1..];
        raised := RunPass(t);
        if raised.Some? || once {
          return;
        }
        if t.now + delay > t.finished {
          slept := slept + [delay];
        }
        i := i + 1;
      }
      raised := None;
    }
  }

  // ---------------------------------------------------------------------
  // The run loop as a function

  /** What one pass of the loop meets: the clock when it starts and when
      its work is done, whether the claim transaction hit a conflict, and
      the SMTP session it would open. */
  datatype Tick = Tick(now: int, finished: int, conflict: bool, opening: StartReply, replies: seq<Reply>)

  datatype Daemon = Daemon(rows: seq<Email>, authFailures: nat, slept: seq<int>)

  datatype Ran = Ran(daemon: Daemon, raised: Option<SmtpError>)

  /** One pass: cleanup, then the claim inside the transaction, then
      `deliver` when the claim is not empty. A transaction conflict undoes
      the claim and what followed it. An error leaving `deliver` leaves the
      transaction too, which rolls back every save of the batch; the
      counter and the sleeps, which live outside the database, stay as
      `deliver` left them. */
  function Iterate(cfg: Config, d: Daemon, t: Tick): Ran
  {
    var cleaned := Claim.Cleanup(cfg.maxAge, d.rows, t.now);
    if t.conflict then Ran(d.(rows := cleaned), None)
    else
      var batch := ClaimBatch(cleaned, t.now, cfg.batchSize);
      if batch == [] then Ran(d.(rows := cleaned), None)
      else
        var r := Delivery.Deliver(Engine(cleaned, batch, t.replies, 0, [], d.authFailures, d.slept), t.opening, t.now, cfg.delay);
        Ran(Daemon(if r.raised.Some? then cleaned else r.state.rows, r.state.authFailures, r.state.slept), r.raised)
  }

  /** `sleep @delay if now + @delay > Time.now` */
  function Pause(cfg: Config, d: Daemon, t: Tick): Daemon
  {
    if t.now + cfg.delay > t.finished then d.(slept := d.slept + [cfg.delay]) else d
  }

  function RunLoop(cfg: Config, d: Daemon, ticks: seq<Tick>): Ran
    decreases |ticks|
  {
    if ticks == [] then Ran(d, None)
    else
      var r := Iterate(cfg, d, ticks[0]);
      if r.raised.Some? || cfg.once then r
      else RunLoop(cfg, Pause(cfg, r.daemon, ticks[0]), ticks[1..])
  }

  // ---------------------------------------------------------------------
  // What run promises

  /** With `once` set the loop makes exactly one pass and never sleeps
      after it. */
  lemma RunOnce(cfg: Config, d: Daemon, ticks: seq<Tick>)
    requires cfg.once && ticks != []
    ensures RunLoop(cfg, d, ticks) == Iterate(cfg, d, ticks[0])
  {
  }

  /** A pass that raises leaves the table as cleanup made it: the
      transaction rolls back every save of the batch. */
  lemma RaisingPassRollsBack(cfg: Config, d: Daemon, t: Tick)
    requires Iterate(cfg, d, t).raised.Some?
    ensures Iterate(cfg, d, t).daemon.rows == Claim.Cleanup(cfg.maxAge, d.rows, t.now)
  {
  }

  /** An empty claim opens no session: even a session that would refuse
      authentication leaves the counter and the sleeps alone. */
  lemma EmptyClaimSkipsDelivery(cfg: Config, d: Daemon, t: Tick)
    requires ClaimBatch(Claim.Cleanup(cfg.maxAge, d.rows, t.now), t.now, cfg.batchSize) == []
    ensures Iterate(cfg, d, t) == Ran(d.(rows := Claim.Cleanup(cfg.maxAge, d.rows, t.now)), None)
  {
  }

  /** After a pass the loop sleeps exactly `delay`, and only when the pass
      took less than `delay`. */
  lemma PauseRule(cfg: Config, d: Daemon, t: Tick)
    ensures t.finished - t.now < cfg.delay ==> Pause(cfg, d, t).slept == d.slept + [cfg.delay]
    ensures t.finished - t.now >= cfg.delay ==> Pause(cfg, d, t) == d
  {
  }

  /** `deliver` sleeps at most once, and then exactly `delay`. */
  lemma DeliverSleepsDelay(s: Engine, opening: StartReply, now: int, delay: nat)
    ensures var slept := Delivery.Deliver(s, opening, now, delay).state.slept;
      slept == s.slept || slept == s.slept + [delay]
  {
    if opening.Opened? {
      SendKeepsCounter(s.(authFailures := 0), now);
    }
  }

  /** A pass sleeps at most once, and then exactly `delay`. */
  lemma IterateSleepsDelay(cfg: Config, d: Daemon, t: Tick)
    ensures var slept := Iterate(cfg, d, t).daemon.slept;
      slept == d.slept || slept == d.slept + [cfg.delay]
  {
    var cleaned := Claim.Cleanup(cfg.maxAge, d.rows, t.now);
    var batch := ClaimBatch(cleaned, t.now, cfg.batchSize);
    DeliverSleepsDelay(Engine(cleaned, batch, t.replies, 0, [], d.authFailures, d.slept), t.opening, t.now, cfg.delay);
  }

  /** `slept` is `base` followed by sleeps of exactly `delay`. */
  ghost predicate SleepsExtend(slept: seq<int>, base: seq<int>, delay: nat)
  {
    |base| <= |slept| && slept[..|base|] == base
    && forall i | |base| <= i < |slept| :: slept[i] == delay
  }

  lemma SleepsExtendTrans(a: seq<int>, b: seq<int>, c: seq<int>, delay: nat)
    requires SleepsExtend(b, a, delay) && SleepsExtend(c, b, delay)
    ensures SleepsExtend(c, a, delay)
  {
    assert c[..|a|] == b[..|a|];
  }

  /** Every sleep of the loop, in `deliver` or between passes, lasts
      exactly `delay`: the loop never sleeps a negative or partial time. */
  lemma {:induction false} RunSleepsDelay(cfg: Config, d: Daemon, ticks: seq<Tick>)
    decreases |ticks|
    ensures SleepsExtend(RunLoop(cfg, d, ticks).daemon.slept, d.slept, cfg.delay)
  {
    if ticks != [] {
      var t := ticks[0];
      IterateSleepsDelay(cfg, d, t);
      var r := Iterate(cfg, d, t);
      if r.raised.None? && !cfg.once {
        var p := Pause(cfg, r.daemon, t);
        assert SleepsExtend(p.slept, d.slept, cfg.delay);
        RunSleepsDelay(cfg, p, ticks[1..]);
        assert RunLoop(cfg, d, ticks) == RunLoop(cfg, p, ticks[1..]);
        SleepsExtendTrans(d.slept, p.slept, RunLoop(cfg, p, ticks[1..]).daemon.slept, cfg.delay);
      }
    }
  }

  /** Cleanup runs before the claim: a row that this pass's cleanup
      expires is never attempted in the same pass; it ends the pass exactly
      as it was, marked failed. */
  lemma ExpiredRowUntouched(cfg: Config, d: Daemon, t: Tick, i: nat)
    requires WellKeyed(d.rows)
    requires cfg.maxAge != 0 && i < |d.rows| && Stale(d.rows[i], t.now - cfg.maxAge)
    ensures |Iterate(cfg, d, t).daemon.rows| == |d.rows|
    ensures Iterate(cfg, d, t).daemon.rows[i] == d.rows[i].(failed := true)
  {
    var cleaned := Claim.Cleanup(cfg.maxAge, d.rows, t.now);
    CleanupMarksStale(cfg.maxAge, d.rows, t.now);
    CleanupKeepsKeys(cfg.maxAge, d.rows, t.now);
    assert cleaned[i] == d.rows[i].(failed := true);
    var batch := ClaimBatch(cleaned, t.now, cfg.batchSize);
    if !t.conflict && batch != [] {
      ClaimSelects(cleaned, t.now, cfg.batchSize);
      ExpiredNotClaimed(cfg.maxAge, d.rows, t.now, cfg.batchSize, i);
      var s := Engine(cleaned, batch, t.replies, 0, [], d.authFailures, d.slept);
      assert KeysInTable(batch, cleaned);
      assert DistinctKeys(batch);
      forall j | 0 <= j < |batch| ensures batch[j].id != i {
        assert batch[j] in batch;
      }
      DeliverKeepsRow(s, t.opening, t.now, cfg.delay, i);
    }
  }
}
