# ar_mailer: the queueing delivery method and the ar_sendmail engine, in Dafny

ar_mailer replaces ActionMailer's direct SMTP delivery with a queue. The
delivery method `activerecord` (`perform_delivery_activerecord`) writes one
row per destination into an email table instead of sending the mail. A
separate daemon, `ActionMailer::ARSendmail`, works that queue. It:

- expires stale rows (`cleanup`);
- claims the rows due for an attempt (`find_emails`);
- sends them through one SMTP session per batch (`deliver`);
- records each outcome on its row;
- retries authentication failures up to `MAX_AUTH_FAILURES`;
- repeats every `delay` seconds (`run`), or once with `once` set.

This project models that core and proves what it promises. The modules follow
the program's structure:

| module | file | what it holds |
|---|---|---|
| `Queue` | queue.dfy | the `Email` row; the `Table` class (`create` with the model's `validates_presence_of`, `save!`) |
| `Smtp` | smtp.dfy | replies of Net::SMTP as a datatype (one case per exception class `deliver` rescues, one for any exception it does not, and one for a send whose RSET then raised, with the rescue that catches the RSET's exception); the `SmtpSession` class, which hands out a script of replies and counts RSETs |
| `Claim` | claim.dfy | the claim condition and limit of `find_emails`; the expiry of `cleanup`, as functions of the rows |
| `Delivery` | delivery.dfy | `deliver` as a function of the table, batch, session, counter and sleeps, with its properties |
| `Sendmail` | sendmail.dfy | the `ARSendmail` class (`initialize`, `cleanup`, `find_emails`, `deliver`, `run`), proved against `Delivery` and against the `RunLoop` function of the loop |
| `ArMailer` | mailer.dfy | `email_class=`/`email_class` and `perform_delivery_activerecord` on a `MailerBase` class |

The imperative parts keep their form:

- `ARSendmail.Deliver` consumes the caller's `MailBatch` front first, changes
  each message's fields, saves it through the table and updates
  `failedAuthCount`.
- `ARSendmail.Run` loops over its passes.
- `ArMailer.CreateRows`, the loop of `perform_delivery_activerecord`, calls
  `Table.Create` once per destination.

Each of these methods is proved equal to a pure specification function
(`Delivery.Deliver`, `Sendmail.RunLoop`, `ArMailer.Enqueued`). The lemmas about
those functions state the promised behaviour.

The world outside is given as values:

- **Clock:** `now` for a pass, and `finished` for when its work ended.
- **Session:** how opening it goes (`StartReply`) and the reply each send will
  get.
- **Sleeps:** recorded in a ghost list instead of taken.
- **Class lookup:** `constantize` looks a name up in a map of the model
  classes the application defines.

Three behaviours of the code that a reader might not expect:

- `failed_auth_count` is reset to 0 when a session opens
  (lib/action_mailer/ar_sendmail.rb:461), not when a send succeeds.
- `run` sleeps the whole `delay` whenever a pass took less than `delay`
  (lib/action_mailer/ar_sendmail.rb:565), not only the time remaining.
- `cleanup`'s condition does not test `failed`
  (lib/action_mailer/ar_sendmail.rb:435).

## Model

| member | source | states |
|---|---|---|
| Queue.Table.Create | lib/action_mailer/ar_sendmail.rb:142 | `create` on a class that validates the presence of `from`, `to` and `mail` appends nothing and yields no key when one of them is nil or blank. Otherwise, and always without validation, it appends exactly one fresh row under the next key: not sent, not failed, `attempts` read as 0, `created_at` now. The table stays keyed by position |
| Queue.Table.Restore | lib/action_mailer/ar_sendmail.rb:558-561 | a rolled-back transaction returns the table to the rows it held when the transaction began |
| Queue.Table.Save | lib/action_mailer/ar_sendmail.rb:491 | `save!` replaces the row with the message's key by the message and changes no other row |
| Smtp.SmtpSession.SendMessage | lib/action_mailer/ar_sendmail.rb:467 | `send_message` gets the session's next reply; the server has the message only when it accepted it |
| Smtp.SmtpSession.Reset | lib/action_mailer/ar_sendmail.rb:478 | `reset` issues one RSET; an RSET that raises is the `ResetFailed` reply of the send before it, which `Delivery` follows out of the loop (see `Delivery.DeliverResetFails`) |
| Claim.EligibleExactly | lib/action_mailer/ar_sendmail.rb:523 | the claim condition selects every row with `sent_at` nil, not failed and last attempted more than 300 s ago, and only those, each once, in table order |
| Claim.ClaimSelects | lib/action_mailer/ar_sendmail.rb:522-528 | the claimed batch holds only claimable table rows, in key order, at most `batch_size` of them; a claimable row is missing only when the cap is reached |
| Claim.ExpireRowwise | lib/action_mailer/ar_sendmail.rb:435-436 | `update_all` sets `failed` on exactly the rows with `last_send_attempt > 0`, `created_at < timeout` and `sent_at` nil, whether already failed or not, and changes nothing else |
| Claim.CleanupMarksStale | lib/action_mailer/ar_sendmail.rb:432-436 | with `max_age` 0 cleanup changes no row; otherwise a row ends failed exactly when it was failed or stale for `now - max_age`, and no other field changes |
| Claim.ExpireIdempotent | lib/action_mailer/ar_sendmail.rb:434-436 | a second cleanup with the same timeout changes nothing more |
| Claim.CleanupKeepsKeys | lib/action_mailer/ar_sendmail.rb:436 | cleanup keeps the table keyed by position |
| Claim.ExpiredNotClaimed | lib/action_mailer/ar_sendmail.rb:557-559 | a row cleanup has just expired is never in the claim that follows |
| Delivery.OutcomeFields | lib/action_mailer/ar_sendmail.rb:464-490 | a sent message gets `last_send_attempt = now` and one more attempt. Success sets `sent_at`, clears `failed` and records the response. A 55x reply (`Net::SMTPFatalError`) sets `failed` and `last_error`. Busy and transient errors set only `last_error` (with the exception class, message and backtrace) and keep `failed` and `sent_at` |
| Delivery.ThroughIsFirstHalt | lib/action_mailer/ar_sendmail.rb:462-492 | the batch goes on past every reply that is not busy, an authentication error, a lost connection, an exception `deliver` does not rescue or a failed RSET, and stops at the first that is |
| Delivery.SendStops | lib/action_mailer/ar_sendmail.rb:462-492 | the loop drains the batch exactly when no reply halts it, and otherwise ends on the first halting reply |
| Delivery.SendConsumes | lib/action_mailer/ar_sendmail.rb:462-463 | the loop takes messages strictly front first: it leaves the input empty, or holding exactly the messages after the one that halted it |
| Delivery.SendResets | lib/action_mailer/ar_sendmail.rb:462-492 | the loop issues one RSET per 55x or transient reply it consumes, including the failed RSET of the reply that halts it |
| Delivery.CountResetsSnoc | lib/action_mailer/ar_sendmail.rb:478-489 | counting the RSETs of one more reply adds one exactly when that reply calls `reset` |
| Delivery.SendTransmits | lib/action_mailer/ar_sendmail.rb:462-473 | the server receives exactly the body, sender and recipient (`send_message email.mail, email.from, email.to`) of each message accepted before the halt, in batch order, and nothing else |
| Delivery.SentAllAccepted | lib/action_mailer/ar_sendmail.rb:467 | when every send is accepted, the server receives each message of the batch as its own body, sender and recipient, one per message, in batch order |
| Delivery.SendKeepsCounter | lib/action_mailer/ar_sendmail.rb:462-492 | the loop itself touches neither the authentication failure counter nor the sleeps |
| Delivery.SendWrites | lib/action_mailer/ar_sendmail.rb:462-492 | the loop's effect on the table is that of `Written`, which follows the rows alone |
| Delivery.WrittenKeeps | lib/action_mailer/ar_sendmail.rb:482-491 | a row that no saved message names keeps its contents, and the table keeps its length |
| Delivery.WrittenLength | lib/action_mailer/ar_sendmail.rb:491 | saving keeps the table's length |
| Delivery.WrittenSavesFirst | lib/action_mailer/ar_sendmail.rb:463-491 | the first message, when saved, lands on its own row with the fields its reply dictates |
| Delivery.WrittenSaves | lib/action_mailer/ar_sendmail.rb:462-491 | message j, when saved, lands on its own row with the fields its reply dictates |
| Delivery.DeliverRefusedAtStart | lib/action_mailer/ar_sendmail.rb:495-503 | an authentication error opening the session touches no message and bumps the counter. At 2 it is re-raised without a sleep; below 2 `deliver` sleeps one `delay` and returns |
| Delivery.DeliverDroppedAtStart | lib/action_mailer/ar_sendmail.rb:504-505 | server busy, system call and TLS errors while connecting are swallowed and change nothing |
| Delivery.DeliverFailsAtStart | lib/action_mailer/ar_sendmail.rb:459-506 | any other exception while connecting propagates out of `deliver` as it is, touching no message, counter, sleep or row |
| Delivery.DeliverOpened | lib/action_mailer/ar_sendmail.rb:460-506 | an opened session resets the counter to 0 (1 after an authentication error raised by a send or its RSET). Only an exception `deliver` does not rescue, raised by the send or by its RSET and ending the batch, is raised. The batch is consumed front first up to the halt; the server receives the body, sender and recipient of each message accepted before it, in order; and one RSET is issued per 55x or transient reply up to it, a failed one included. It sleeps one `delay` exactly when busy or an authentication error (of a send or of its RSET) ended the batch |
| Delivery.DeliverOpenedEnding | lib/action_mailer/ar_sendmail.rb:460-506 | the reply that ends the batch decides what is raised, the counter and the sleeps |
| Delivery.DeliverOpenedTaken | lib/action_mailer/ar_sendmail.rb:462-473 | the batch is consumed front first, up to and including the halting message, and the server receives exactly the accepted messages before the halt, as body, sender and recipient |
| Delivery.DeliverOpenedResets | lib/action_mailer/ar_sendmail.rb:474-490 | one RSET per 55x or transient reply before the halt, and one more when the halt is a failed RSET |
| Delivery.DeliverSavesInOrder | lib/action_mailer/ar_sendmail.rb:462-491 | every message before the halt, and a busy one, is saved on its own row as its reply dictates; every other row is unchanged |
| Delivery.DeliverKeepsRow | lib/action_mailer/ar_sendmail.rb:444-506 | whatever the session does, a row no message of the batch names keeps its contents, and the table keeps its length |
| Delivery.DeliverServerBusy | lib/action_mailer/ar_sendmail.rb:479-484 | busy on message k saves it with the error and its attempt and does not fail it. Later messages stay queued with their rows untouched, and no RSET is issued for it. It sleeps one `delay` and raises nothing |
| Delivery.DeliverDroppedMidBatch | lib/action_mailer/ar_sendmail.rb:504-505 | a lost connection mid-batch saves neither that message nor later ones, sleeps nothing and raises nothing |
| Delivery.DeliverUnhandledMidBatch | lib/action_mailer/ar_sendmail.rb:462-492 | an exception `deliver` does not rescue on message k leaves it: that message and later ones are not saved, their rows are untouched, nothing sleeps and the counter stays 0 |
| Delivery.DeliverResetFails | lib/action_mailer/ar_sendmail.rb:474-505 | a send answered 55x or transient whose `session.reset` then raises leaves the loop before `save!`: that message and later ones stay unsaved and the RSET was issued. Server busy, a system call or a TLS error is swallowed with no sleep and the counter at 0. An authentication error (a 53z answer to RSET) goes to the authentication rescue: the counter becomes 1 and `deliver` sleeps one `delay` and raises nothing. Any other exception leaves `deliver`, with no sleep and the counter at 0 |
| Delivery.DeliverDrains | lib/action_mailer/ar_sendmail.rb:462-492 | without a halting reply the input ends empty, every message is saved, the server receives every accepted one, the counter is 0, nothing sleeps or is raised |
| Sendmail.Configure | lib/action_mailer/ar_sendmail.rb:413-423 | `initialize` defaults: `delay` 60, `max_age` seven days, `batch_size` as given (nil = no cap); a given value, 0 included, is kept |
| Sendmail.ARSendmail.constructor | lib/action_mailer/ar_sendmail.rb:413-426 | the settings are `Configure`'s, the email class is the one the table name (default `Email`) names, and the counter starts at 0 |
| Sendmail.ARSendmail.Cleanup | lib/action_mailer/ar_sendmail.rb:432-439 | the table becomes `Claim.Cleanup` of the old one, and the count returned is the number of stale rows |
| Sendmail.ARSendmail.FindEmails | lib/action_mailer/ar_sendmail.rb:522-529 | returns only claimable rows of the table, in key order, at most `batch_size`; every claimable row unless the cap is reached |
| Sendmail.ARSendmail.AuthFailure | lib/action_mailer/ar_sendmail.rb:495-503 | bumps the counter; re-raises at `MAX_AUTH_FAILURES`, otherwise sleeps one `delay` |
| Sendmail.ARSendmail.TakeNext | lib/action_mailer/ar_sendmail.rb:462-491 | one turn of the loop changes table, batch and session exactly as `Delivery.Advance` |
| Sendmail.ARSendmail.Deliver | lib/action_mailer/ar_sendmail.rb:444-506 | the new table, batch, session, counter and sleeps, and what is raised, are those of `Delivery.Deliver` |
| Sendmail.ARSendmail.RunPass | lib/action_mailer/ar_sendmail.rb:555-563 | one pass changes the table, counter and sleeps exactly as `Iterate`: cleanup, then claim and `deliver` in the transaction, whose saves are rolled back when an error leaves `deliver` |
| Sendmail.ARSendmail.Run | lib/action_mailer/ar_sendmail.rb:551-567 | the loop's effect and what it raises are those of `RunLoop` over the passes given: it stops at the first pass that raises, with that pass's saves rolled back |
| Sendmail.RaisingPassRollsBack | lib/action_mailer/ar_sendmail.rb:557-561 | a pass whose `deliver` raises leaves the table exactly as cleanup made it: the transaction's rollback undoes every save of the batch |
| Sendmail.RunOnce | lib/action_mailer/ar_sendmail.rb:564 | with `once` set the loop makes exactly one pass and no sleep after it |
| Sendmail.EmptyClaimSkipsDelivery | lib/action_mailer/ar_sendmail.rb:560 | `deliver` is never called on an empty batch: the pass only cleans up, and the counter and sleeps are untouched |
| Sendmail.PauseRule | lib/action_mailer/ar_sendmail.rb:565 | after a pass the loop sleeps exactly `delay` when the pass took less than `delay`, and not at all otherwise |
| Sendmail.DeliverSleepsDelay | lib/action_mailer/ar_sendmail.rb:479-503 | `deliver` sleeps at most once, and then exactly `delay` |
| Sendmail.IterateSleepsDelay | lib/action_mailer/ar_sendmail.rb:555-563 | a pass sleeps at most once, and then exactly `delay` |
| Sendmail.RunSleepsDelay | lib/action_mailer/ar_sendmail.rb:551-567 | every sleep of the loop lasts exactly `delay`: never negative or partial |
| Sendmail.ExpiredRowUntouched | lib/action_mailer/ar_sendmail.rb:557-560 | cleanup runs before the claim: a row this pass expires is never attempted in it, and ends the pass as it was, marked failed |
| ArMailer.KeptSound | lib/action_mailer/ar_sendmail.rb:142 | the destinations that get a row are among the mail's destinations, no more of them, and each passes the class's validation |
| ArMailer.KeptSubsequence | lib/action_mailer/ar_mailer.rb:36-37 | the destinations that get a row are exactly the passing destinations, picked by strictly increasing positions: in destination order, a repeated destination once per occurrence |
| ArMailer.KeptComplete | lib/action_mailer/ar_sendmail.rb:142 | every destination that passes the class's validation gets a row |
| ArMailer.KeptAll | lib/action_mailer/ar_mailer.rb:36-37 | without validation, or when every row passes it, every destination gets a row, in order |
| ArMailer.RowsForShape | lib/action_mailer/ar_mailer.rb:36-37 | one row per destination, row i to destination i under the i-th next key |
| ArMailer.CreateRows | lib/action_mailer/ar_mailer.rb:36-38 | one `create` per destination, in order: the table becomes its old rows followed by the rows of the kept destinations, and stays keyed |
| ArMailer.EnqueueAppends | lib/action_mailer/ar_mailer.rb:32-38 | enqueuing appends one row per kept destination after the existing rows, in destination order. Each row has that `to`, passes validation, and holds the whole encoded mail, the first sender only as `from` (nil when the sender list is empty), no attempts, not sent, not failed and `created_at` now. Existing rows are unchanged and the table stays keyed. When every destination passes validation, every one gets a row |
| ArMailer.EnqueuedClaimable | lib/action_mailer/ar_mailer.rb:37 | a freshly enqueued row is pending: the claim condition holds for it |
| ArMailer.MailerBase.constructor | lib/action_mailer/ar_mailer.rb:21 | the email class name defaults to `Email` |
| ArMailer.MailerBase.SetEmailClass | lib/action_mailer/ar_mailer.rb:23-25 | `email_class=` records the class's name |
| ArMailer.MailerBase.EmailClass | lib/action_mailer/ar_mailer.rb:27-29 | `email_class` is the class the recorded name denotes, or NameError when no class has that name |
| ArMailer.MailerBase.PerformDeliveryActiveRecord | lib/action_mailer/ar_mailer.rb:35-39 | appends `Enqueued` rows to the current email class's table and no other. With an empty destination list nothing happens. Otherwise it raises NameError when the name denotes no class, and NoMethodError when the mail has no `from` at all, and then creates nothing |

## Left out

- SMTP I/O: opening the connection, STARTTLS and the settings passed to
  `smtp.start` (lib/action_mailer/ar_sendmail.rb:446-460) are left out. So is
  the RSET patch of Net::SMTP (lib/action_mailer/ar_sendmail.rb:9-22). A
  session is the reply script it will produce.
- Errors raised while a session closes (`smtp.start`'s ensure) are not
  modelled. One of the classes rescued at
  lib/action_mailer/ar_sendmail.rb:504 would change nothing; any other would
  leave `deliver` after the batch's saves.
- A reply script shorter than the batch reads as a lost connection.
- Time passing inside a pass is not modelled. Each pass has one `now`, used for
  cleanup, the claim and every stamp in `deliver`; `finished` is the clock
  when the pass's work is done.
- Row locking (`:lock => true`) is left out: it serves concurrency between
  processes. The transaction's rollback is modelled; a `TransactionError` is
  a pass whose claim and delivery have no effect. Cleanup, which runs outside
  the transaction, still applies.
- Sendmail.ARSendmail.RunPass: the transaction is opened on the constant
  `Email` (lib/action_mailer/ar_sendmail.rb:558) whatever the table name; an
  application without an `Email` class gets a NameError there. The model
  assumes the queue's class shares that connection, so the rollback covers
  its saves.
- Logging is left out: `log`, `verbose` output and the logger. The log line of
  `cleanup` is the count that `ARSendmail.Cleanup` returns.
- Process plumbing is left out: `process_args`, `usage`, `self.run`,
  daemonizing, pid files, `install_signal_handlers`, `do_exit` and
  `remove_pid_file`. These are option parsing, the environment, signals and
  process exit.
- `create_migration`, `create_model` and `mailq` are left out: they print text
  templates and reports.
- `smtp_settings`, and the deprecation warning of `ARMailer.inherited`, are
  left out: they are library proxies and log output.
- `constantize` is a lookup in a map of the application's classes.
  ARSendmail's `initialize` requires the table name to name a class, where the
  source raises NameError.
- Sendmail.ARSendmail.Run: the source loops until a signal stops the process.
  The model runs over a finite list of passes, and ending that list stands for
  the stop.
- Sendmail.ARSendmail.FindEmails: when the cap is reached, the contract does
  not say which claimable rows are taken. An SQL LIMIT without ORDER BY fixes
  no order. The model takes the first rows in key order.
- Options are natural numbers. A negative `BatchSize`, `Delay` or `MaxAge` is
  not modelled.
- A `save!` or `update_all` that fails in the database (a lost connection, a
  failed validation on a row being saved) is not modelled: the table accepts
  every save.
- `Blank` is Ruby's `blank?` on strings: empty or made only of the six ASCII
  whitespace characters. Other values' `blank?` does not arise, since
  `to`, `from` and `mail` are strings or nil.
- ArMailer.MailerBase.PerformDeliveryActiveRecord: a mail's destinations are
  a list, and a mail with none is an empty list, on which nothing happens.
  TMail's `destinations` is nil for a mail with no To, Cc or Bcc, and `each`
  on it at lib/action_mailer/ar_mailer.rb:36 would raise NoMethodError; TMail
  is not part of this model.
- `last_error` holds the exception's message and backtrace, not Ruby's
  formatting of arbitrary exception objects.
