/** `ARSendmail#deliver` as a function of the state it touches: the email
    table, the caller's batch (consumed front first, like `emails.shift`),
    the SMTP session, the authentication failure counter and the sleeps.
    The class method in module Sendmail is proved to compute exactly this. */
module Delivery {
  import opened Queue
  import opened Smtp

  /** `MAX_AUTH_FAILURES`: consecutive authentication failures that make
      `deliver` give up and re-raise. */
  const MAX_AUTH_FAILURES: nat := 2

  datatype Engine = Engine(
    rows: seq<Email>,              // the email table
    queue: seq<Email>,             // what is left of the batch handed to deliver
    replies: seq<Reply>,           // replies the session has still to give
    resets: nat,                   // RSET commands issued on the session
    accepted: seq<Transmission>,   // messages the server took
    authFailures: nat,             // failed_auth_count
    slept: seq<int>)               // every sleep, in order

  /** How the loop over the batch ended. */
  datatype Stop = Drained | Backoff | AuthFailed(error: SmtpError) | Lost | Aborted(error: SmtpError)

  datatype Pass = Pass(state: Engine, stop: Stop)

  /** The state after `deliver`, and the error it re-raises, if any. */
  datatype Delivered = Delivered(state: Engine, raised: Option<SmtpError>)

  /** A reply that leaves the loop before `save!`: it is raised out of the
      `begin` block, or by the RSET inside one of its rescue clauses, to be
      rescued by the method or not at all. */
  predicate Unsaved(r: Reply)
  {
    r.AuthRefused? || r.Dropped? || r.Unhandled? || r.ResetFailed?
  }

  /** A reply whose exception no rescue of `deliver` catches. */
  predicate Raises(r: Reply)
  {
    r.Unhandled? || (r.ResetFailed? && r.rescuedBy.NotRescued?)
  }

  /** A reply whose exception the authentication rescue catches: raised by
      the send, or by the RSET after it. */
  predicate AuthFails(r: Reply)
  {
    r.AuthRefused? || (r.ResetFailed? && r.rescuedBy.AuthRescued?)
  }

  /** A reply that ends the batch. */
  predicate Halts(r: Reply)
  {
    r.Busy? || Unsaved(r)
  }

  /** A reply after which the session is reset: a permanent or transient
      error. The batch goes on unless the RSET itself failed. */
  predicate Resets(r: Reply)
  {
    r.Rejected? || r.Transient? || r.ResetFailed?
  }

  /** The in-memory copy of a message once its send has returned `r`. */
  function Outcome(e: Email, r: Reply, now: int): Email
  {
    var tried := e.(lastSendAttempt := now, attempts := e.attempts + 1);
    match r
    case Accepted(status) => tried.(failed := false, sentAt := Some(now), successStatus := Some(status))
    case Rejected(err) => tried.(lastError := Some(ErrorReport(ClassName(r), err)), failed := true)
    case Busy(err) => tried.(lastError := Some(ErrorReport(ClassName(r), err)))
    case Transient(_, err) => tried.(lastError := Some(ErrorReport(ClassName(r), err)))
    case AuthRefused(_) => tried
    case Dropped => tried
    case Unhandled(_) => tried
    case ResetFailed(_, _) => tried
  }

  /** Every send stamps the attempt and counts it; success records the
      response and clears `failed`, a permanent error sets `failed` and
      `last_error`, and busy or transient errors set only `last_error`,
      with the exception's class, message and backtrace. */
  lemma OutcomeFields(e: Email, r: Reply, now: int)
    ensures var o := Outcome(e, r, now);
      && o.id == e.id && o.to == e.to && o.from == e.from && o.mail == e.mail && o.createdAt == e.createdAt
      && o.lastSendAttempt == now && o.attempts == e.attempts + 1
      && (r.Accepted? ==> o.sentAt == Some(now) && !o.failed && o.successStatus == Some(r.status) && o.lastError == e.lastError)
      && (r.Rejected? ==> o.failed && o.sentAt == e.sentAt && o.successStatus == e.successStatus
                          && o.lastError == Some(ErrorReport("Net::SMTPFatalError", r.error)))
      && (r.Transient? || r.Busy? ==>
            o.failed == e.failed && o.sentAt == e.sentAt && o.successStatus == e.successStatus
            && o.lastError == Some(ErrorReport(ClassName(r), r.error)))
  {
  }

  /** What `send_message email.mail, email.from, email.to` hands the
      server: the body, the sender and the recipient, in that order. */
  function Handed(e: Email): Transmission
  {
    Transmission(e.mail, e.from, e.to)
  }

  /** One turn of the `until emails.empty?` loop: shift the first message,
      stamp it, send it, and apply what its reply dictates. The message is
      saved unless the reply was an authentication error, a lost
      connection, an exception `deliver` does not rescue or a failed RSET,
      which leave the loop before `save!`. */
  function Advance(s: Engine, now: int): Engine
    requires s.queue != []
  {
    var r := NextReply(s.replies);
    var e := Outcome(s.queue[0], r, now);
    s.(queue := s.queue[1..],
       replies := Rest(s.replies),
       rows := if Unsaved(r) then s.rows else Store(s.rows, e),
       accepted := if r.Accepted? then s.accepted + [Handed(s.queue[0])] else s.accepted,
       resets := if Resets(r) then s.resets + 1 else s.resets)
  }

  function StopFor(r: Reply): Stop
  {
    match r
    case Busy(_) => Backoff
    case AuthRefused(err) => AuthFailed(err)
    case Unhandled(err) => Aborted(err)
    case ResetFailed(Swallowed, _) => Lost
    case ResetFailed(AuthRescued, err) => AuthFailed(err)
    case ResetFailed(NotRescued, err) => Aborted(err)
    case _ => Lost
  }

  /** The loop inside an open session, up to the reply that ends it. */
  function Send(s: Engine, now: int): Pass
    decreases |s.queue|
  {
    if s.queue == [] then Pass(s, Drained)
    else if Halts(NextReply(s.replies)) then Pass(Advance(s, now), StopFor(NextReply(s.replies)))
    else Send(Advance(s, now), now)
  }

  /** The `rescue Net::SMTPAuthenticationError` clause. */
  function Escalate(s: Engine, err: SmtpError, delay: nat): Delivered
  {
    var n := s.authFailures + 1;
    if n >= MAX_AUTH_FAILURES then Delivered(s.(authFailures := n), Some(err))
    else Delivered(s.(authFailures := n, slept := s.slept + [delay]), None)
  }

  /** `deliver`: open the session, run the batch, handle what ended it. */
  function Deliver(s: Engine, opening: StartReply, now: int, delay: nat): Delivered
  {
    match opening
    case OpenDropped => Delivered(s, None)
    case OpenRefused(err) => Escalate(s, err, delay)
    case OpenFailed(err) => Delivered(s, Some(err))
    case Opened =>
      var p := Send(s.(authFailures := 0), now);
      match p.stop
      case Drained => Delivered(p.state, None)
      case Lost => Delivered(p.state, None)
      case Aborted(err) => Delivered(p.state, Some(err))
      case Backoff => Delivered(p.state.(slept := p.state.slept + [delay]), None)
      case AuthFailed(err) => Escalate(p.state, err, delay)
  }

  // ---------------------------------------------------------------------
  // Where a batch stops, counted over the reply script

  /** How many messages of a batch of n get a reply that lets the batch go on. */
  function Through(replies: seq<Reply>, n: nat): (k: nat)
    ensures k <= n
  {
    if n == 0 || Halts(NextReply(replies)) then 0 else 1 + Through(Rest(replies), n - 1)
  }

  /** How many of the first k replies call for an RSET. */
  function CountResets(replies: seq<Reply>, k: nat): nat
  {
    if k == 0 then 0 else (if Resets(NextReply(replies)) then 1 else 0) + CountResets(Rest(replies), k - 1)
  }

  /** What the server receives from the first k messages of a batch: the
      body, sender and recipient of each message whose reply accepts it,
      in batch order. */
  function Sent(queue: seq<Email>, replies: seq<Reply>, k: nat): seq<Transmission>
    requires k <= |queue|
  {
    if k == 0 then []
    else (if NextReply(replies).Accepted? then [Handed(queue[0])] else []) + Sent(queue[1..], Rest(replies), k - 1)
  }

  /** How many messages of the batch are saved: those before the halt, and
      the busy one if the halt is a busy reply. */
  function Saved(replies: seq<Reply>, n: nat): nat
  {
    var k := Through(replies, n);
    if k < n && ReplyAt(replies, k).Busy? then k + 1 else k
  }

  /** The batch stops at the first halting reply, and only there. */
  lemma {:induction false} ThroughIsFirstHalt(replies: seq<Reply>, n: nat)
    ensures forall j | 0 <= j < Through(replies, n) :: !Halts(ReplyAt(replies, j))
    ensures Through(replies, n) < n ==> Halts(ReplyAt(replies, Through(replies, n)))
  {
    ReplyAtRest(replies, 0);
    if n > 0 && !Halts(NextReply(replies)) {
      ThroughIsFirstHalt(Rest(replies), n - 1);
      forall j | 0 <= j < Through(replies, n)
        ensures !Halts(ReplyAt(replies, j))
      {
        if j > 0 {
          ReplyAtRest(replies, j - 1);
        }
      }
      ReplyAtRest(replies, Through(Rest(replies), n - 1));
    }
  }

  /** What one turn does to everything but the rows. */
  lemma AdvanceShape(s: Engine, now: int)
    requires s.queue != []
    ensures var t := Advance(s, now); var r := NextReply(s.replies);
      && t.queue == s.queue[1..] && t.replies == Rest(s.replies)
      && t.resets == s.resets + (if Resets(r) then 1 else 0)
      && t.accepted == s.accepted + (if r.Accepted? then [Handed(s.queue[0])] else [])
      && t.authFailures == s.authFailures && t.slept == s.slept
  {
  }

  /** The loop ends at the first halting reply, or drains the batch. */
  lemma {:induction false} SendStops(s: Engine, now: int)
    decreases |s.queue|
    ensures var p := Send(s, now); var n := |s.queue|; var k := Through(s.replies, n);
      && (p.stop.Drained? <==> k == n)
      && (k < n ==> p.stop == StopFor(ReplyAt(s.replies, k)))
  {
    ReplyAtRest(s.replies, 0);
    if s.queue != [] && !Halts(NextReply(s.replies)) {
      var t := Advance(s, now);
      assert t.queue == s.queue[1..] && t.replies == Rest(s.replies);
      assert Send(s, now) == Send(t, now);
      var k' := Through(t.replies, |t.queue|);
      assert Through(s.replies, |s.queue|) == k' + 1;
      SendStops(t, now);
      ReplyAtRest(s.replies, k');
    }
  }

  /** The loop takes messages front first: once it stops, every message
      after the one that got the halting reply is still queued. */
  lemma {:induction false} SendConsumes(s: Engine, now: int)
    decreases |s.queue|
    ensures var n := |s.queue|; var k := Through(s.replies, n);
      Send(s, now).state.queue == if k < n then s.queue[k + 1..] else []
  {
    if s.queue != [] {
      var t := Advance(s, now);
      assert t.queue == s.queue[1..] && t.replies == Rest(s.replies);
      if !Halts(NextReply(s.replies)) {
        assert Send(s, now) == Send(t, now);
        assert Through(s.replies, |s.queue|) == Through(t.replies, |t.queue|) + 1;
        SendConsumes(t, now);
      }
    }
  }

  /** How many replies the loop consumes: those that let it go on, and the
      one that halts it. */
  function Consumed(replies: seq<Reply>, n: nat): nat
  {
    var k := Through(replies, n);
    if k < n then k + 1 else k
  }

  /** The loop issues one RSET per permanent or transient reply it
      consumes, the failed RSET of a halting reply included. */
  lemma {:induction false} SendResets(s: Engine, now: int)
    decreases |s.queue|
    ensures Send(s, now).state.resets == s.resets + CountResets(s.replies, Consumed(s.replies, |s.queue|))
  {
    if s.queue != [] {
      var t := Advance(s, now);
      assert t.resets == s.resets + (if Resets(NextReply(s.replies)) then 1 else 0);
      if !Halts(NextReply(s.replies)) {
        assert Send(s, now) == Send(t, now);
        assert Consumed(s.replies, |s.queue|) == Consumed(t.replies, |t.queue|) + 1;
        SendResets(t, now);
      }
    }
  }

  /** Counting one reply further adds that reply. */
  lemma {:induction false} CountResetsSnoc(replies: seq<Reply>, k: nat)
    decreases k
    ensures CountResets(replies, k + 1) == CountResets(replies, k) + (if Resets(ReplyAt(replies, k)) then 1 else 0)
  {
    ReplyAtRest(replies, 0);
    if k > 0 {
      CountResetsSnoc(Rest(replies), k - 1);
      ReplyAtRest(replies, k - 1);
    }
  }

  /** When every one of the first k sends is accepted, the server receives
      the first k messages, each as its own body, sender and recipient, in
      batch order. */
  lemma {:induction false} SentAllAccepted(queue: seq<Email>, replies: seq<Reply>, k: nat)
    requires k <= |queue|
    requires forall j | 0 <= j < k :: ReplyAt(replies, j).Accepted?
    ensures |Sent(queue, replies, k)| == k
    ensures forall j | 0 <= j < k :: Sent(queue, replies, k)[j] == Transmission(queue[j].mail, queue[j].from, queue[j].to)
  {
    if k > 0 {
      ReplyAtRest(replies, 0);
      forall j | 0 <= j < k - 1
        ensures ReplyAt(Rest(replies), j).Accepted?
      {
        ReplyAtRest(replies, j);
      }
      SentAllAccepted(queue[1..], Rest(replies), k - 1);
    }
  }

  /** A turn whose reply does not halt leaves the rest of the loop to do. */
  lemma SendGoesOn(s: Engine, now: int)
    requires s.queue != [] && !Halts(NextReply(s.replies))
    ensures Send(s, now) == Send(Advance(s, now), now)
    ensures Through(s.replies, |s.queue|) == Through(Rest(s.replies), |s.queue| - 1) + 1
  {
  }

  /** What the server receives from k + 1 messages: the first, when
      accepted, then what it receives from the next k. */
  lemma SentFirst(queue: seq<Email>, replies: seq<Reply>, k: nat)
    requires k < |queue|
    ensures Sent(queue, replies, k + 1)
      == (if NextReply(replies).Accepted? then [Handed(queue[0])] else []) + Sent(queue[1..], Rest(replies), k)
  {
  }

  /** The loop hands the server exactly the body, sender and recipient of
      each accepted message before the halt, in batch order. */
  lemma {:induction false} SendTransmits(s: Engine, now: int)
    decreases |s.queue|
    ensures Send(s, now).state.accepted == s.accepted + Sent(s.queue, s.replies, Through(s.replies, |s.queue|))
  {
    if s.queue != [] {
      if !Halts(NextReply(s.replies)) {
        SendTransmits(Advance(s, now), now);
        SendGoesOn(s, now);
        TransmitsGoOn(s, now, Through(Rest(s.replies), |s.queue| - 1));
      } else {
        assert Through(s.replies, |s.queue|) == 0;
      }
    }
  }

  /** The step of SendTransmits: the first message's transmission, then
      what the next k messages hand over. */
  lemma TransmitsGoOn(s: Engine, now: int, k: nat)
    requires k < |s.queue|
    ensures var t := Advance(s, now);
      t.accepted + Sent(t.queue, t.replies, k) == s.accepted + Sent(s.queue, s.replies, k + 1)
  {
    var t := Advance(s, now);
    var rest := Sent(s.queue[1..], Rest(s.replies), k);
    assert t.queue == s.queue[1..] && t.replies == Rest(s.replies);
    SentFirst(s.queue, s.replies, k);
    if NextReply(s.replies).Accepted? {
      assert t.accepted == s.accepted + [Handed(s.queue[0])];
      assert s.accepted + ([Handed(s.queue[0])] + rest) == (s.accepted + [Handed(s.queue[0])]) + rest;
    } else {
      assert t.accepted == s.accepted;
      assert [] + rest == rest;
    }
  }

  /** The loop touches neither the counter nor the sleeps. */
  lemma {:induction false} SendKeepsCounter(s: Engine, now: int)
    decreases |s.queue|
    ensures Send(s, now).state.authFailures == s.authFailures
    ensures Send(s, now).state.slept == s.slept
  {
    if s.queue != [] && !Halts(NextReply(s.replies)) {
      var t := Advance(s, now);
      assert Send(s, now) == Send(t, now);
      SendKeepsCounter(t, now);
    }
  }

  /** No two messages of the sequence share a key. */
  ghost predicate DistinctKeys(q: seq<Email>)
  {
    forall a, b | 0 <= a < b < |q| :: q[a].id != q[b].id
  }

  /** Every message in the batch names a row of the table. */
  ghost predicate KeysInTable(q: seq<Email>, rows: seq<Email>)
  {
    forall j | 0 <= j < |q| :: q[j].id < |rows|
  }

  /** The table after the loop, followed on the rows alone. */
  function Written(rows: seq<Email>, queue: seq<Email>, replies: seq<Reply>, now: int): seq<Email>
    decreases |queue|
  {
    if queue == [] then rows
    else
      var r := NextReply(replies);
      if Unsaved(r) then rows
      else
        var stored := Store(rows, Outcome(queue[0], r, now));
        if r.Busy? then stored else Written(stored, queue[1..], Rest(replies), now)
  }

  /** The loop's table is the one Written describes. */
  lemma {:induction false} SendWrites(s: Engine, now: int)
    decreases |s.queue|
    ensures Send(s, now).state.rows == Written(s.rows, s.queue, s.replies, now)
  {
    if s.queue != [] && !Halts(NextReply(s.replies)) {
      SendWrites(Advance(s, now), now);
    }
  }

  /** How many are saved, as the first turn splits it. */
  lemma SavedStep(replies: seq<Reply>, n: nat)
    requires n > 0
    ensures !Halts(NextReply(replies)) ==> Saved(replies, n) == Saved(Rest(replies), n - 1) + 1
    ensures NextReply(replies).Busy? ==> Saved(replies, n) == 1
    ensures Unsaved(NextReply(replies)) ==> Saved(replies, n) == 0
  {
    ReplyAtRest(replies, 0);
    ReplyAtRest(replies, Through(Rest(replies), n - 1));
  }

  /** A row that none of the saved messages names is not the first
      message's, when that one is saved, nor any saved message's of the
      rest of the batch. */
  lemma UnnamedByRest(queue: seq<Email>, replies: seq<Reply>, i: nat)
    requires queue != [] && !Unsaved(NextReply(replies))
    requires forall j | 0 <= j < Saved(replies, |queue|) :: queue[j].id != i
    ensures queue[0].id != i
    ensures !Halts(NextReply(replies)) ==> forall j | 0 <= j < Saved(Rest(replies), |queue| - 1) :: queue[1..][j].id != i
  {
    SavedStep(replies, |queue|);
    if !Halts(NextReply(replies)) {
      forall j | 0 <= j < Saved(Rest(replies), |queue| - 1)
        ensures queue[1..][j].id != i
      {
        assert queue[1..][j] == queue[j + 1];
      }
    }
  }

  /** The loop writes no row beyond the table, and a row that none of the
      saved messages names keeps its contents. */
  lemma {:induction false} WrittenKeeps(rows: seq<Email>, queue: seq<Email>, replies: seq<Reply>, now: int, i: nat)
    requires i < |rows|
    requires forall j | 0 <= j < Saved(replies, |queue|) :: queue[j].id != i
    decreases |queue|
    ensures |Written(rows, queue, replies, now)| == |rows|
    ensures Written(rows, queue, replies, now)[i] == rows[i]
  {
    WrittenLength(rows, queue, replies, now);
    if queue != [] {
      var r := NextReply(replies);
      if !Unsaved(r) {
        UnnamedByRest(queue, replies, i);
        var stored := Store(rows, Outcome(queue[0], r, now));
        if !r.Busy? {
          WrittenKeeps(stored, queue[1..], Rest(replies), now, i);
        }
      }
    }
  }

  /** The loop keeps the table's length. */
  lemma {:induction false} WrittenLength(rows: seq<Email>, queue: seq<Email>, replies: seq<Reply>, now: int)
    decreases |queue|
    ensures |Written(rows, queue, replies, now)| == |rows|
  {
    if queue != [] {
      var r := NextReply(replies);
      if !Halts(r) {
        WrittenLength(Store(rows, Outcome(queue[0], r, now)), queue[1..], Rest(replies), now);
      }
    }
  }

  /** The first message, when saved, lands on its own row as its reply
      dictates. */
  lemma WrittenSavesFirst(rows: seq<Email>, queue: seq<Email>, replies: seq<Reply>, now: int)
    requires KeysInTable(queue, rows) && DistinctKeys(queue)
    requires 0 < Saved(replies, |queue|)
    ensures |Written(rows, queue, replies, now)| == |rows|
    ensures Written(rows, queue, replies, now)[queue[0].id] == Outcome(queue[0], ReplyAt(replies, 0), now)
  {
    WrittenLength(rows, queue, replies, now);
    SavedStep(replies, |queue|);
    ReplyAtRest(replies, 0);
    var r := NextReply(replies);
    var stored := Store(rows, Outcome(queue[0], r, now));
    if !r.Busy? {
      var tail := queue[1..];
      assert Written(rows, queue, replies, now) == Written(stored, tail, Rest(replies), now);
      forall j' | 0 <= j' < Saved(Rest(replies), |tail|) ensures tail[j'].id != queue[0].id {
        assert tail[j'] == queue[j' + 1];
      }
      WrittenKeeps(stored, tail, Rest(replies), now, queue[0].id);
    }
  }

  /** A message that goes on is stored first; the rest of the batch is
      then written over the stored table, still keyed by distinct keys. */
  lemma WrittenShift(rows: seq<Email>, queue: seq<Email>, replies: seq<Reply>, now: int)
    requires KeysInTable(queue, rows) && DistinctKeys(queue)
    requires queue != [] && !Halts(NextReply(replies))
    ensures var stored := Store(rows, Outcome(queue[0], NextReply(replies), now));
      && |stored| == |rows|
      && Written(rows, queue, replies, now) == Written(stored, queue[1..], Rest(replies), now)
      && KeysInTable(queue[1..], stored) && DistinctKeys(queue[1..])
  {
    var stored := Store(rows, Outcome(queue[0], NextReply(replies), now));
    assert |stored| == |rows|;
    assert forall x | 0 <= x < |queue| - 1 :: queue[1..][x] == queue[x + 1];
  }

  /** Message j, when saved, lands on its own row as its reply dictates. */
  lemma {:induction false} WrittenSaves(rows: seq<Email>, queue: seq<Email>, replies: seq<Reply>, now: int, j: nat)
    requires KeysInTable(queue, rows) && DistinctKeys(queue)
    requires j < Saved(replies, |queue|)
    decreases j
    ensures |Written(rows, queue, replies, now)| == |rows|
    ensures j < |queue|
    ensures Written(rows, queue, replies, now)[queue[j].id] == Outcome(queue[j], ReplyAt(replies, j), now)
  {
    if j == 0 {
      WrittenSavesFirst(rows, queue, replies, now);
    } else {
      SavedStep(replies, |queue|);
      var r := NextReply(replies);
      assert !Halts(r);
      var stored := Store(rows, Outcome(queue[0], r, now));
      var tail := queue[1..];
      WrittenShift(rows, queue, replies, now);
      WrittenSaves(stored, tail, Rest(replies), now, j - 1);
      ReplyAtRest(replies, j - 1);
      assert tail[j - 1] == queue[j];
    }
  }

  // ---------------------------------------------------------------------
  // What deliver promises

  /** An authentication error while opening the session touches no message
      and bumps the counter; at MAX_AUTH_FAILURES it is re-raised without a
      sleep, below that `deliver` sleeps one delay and returns. */
  lemma DeliverRefusedAtStart(s: Engine, err: SmtpError, now: int, delay: nat)
    ensures var d := Deliver(s, OpenRefused(err), now, delay);
      && d.state == s.(authFailures := s.authFailures + 1, slept := d.state.slept)
      && (d.raised.Some? <==> s.authFailures + 1 >= MAX_AUTH_FAILURES)
      && (d.raised.Some? ==> d.raised.value == err && d.state.slept == s.slept)
      && (d.raised.None? ==> d.state.slept == s.slept + [delay])
  {
  }

  /** Connection errors while opening the session are swallowed: nothing
      changes and nothing is raised. */
  lemma DeliverDroppedAtStart(s: Engine, now: int, delay: nat)
    ensures Deliver(s, OpenDropped, now, delay) == Delivered(s, None)
  {
  }

  /** Any other error while opening the session leaves `deliver` as it
      came: nothing changes, the counter included, and the error is
      raised. */
  lemma DeliverFailsAtStart(s: Engine, err: SmtpError, now: int, delay: nat)
    ensures Deliver(s, OpenFailed(err), now, delay) == Delivered(s, Some(err))
  {
  }

  /** Once the session is open: the counter is 0 again (1 if a send is
      refused for authentication), nothing is raised unless a send or its
      RSET fails with an exception `deliver` does not rescue, the batch is
      consumed front first up to the first halting reply, one RSET is issued
      per permanent or transient reply up to it, and `deliver` sleeps one
      delay exactly when a busy or authentication reply ended the batch. */
  lemma DeliverOpened(s: Engine, now: int, delay: nat)
    ensures var d := Deliver(s, Opened, now, delay); var n := |s.queue|; var k := Through(s.replies, n);
      && d.raised == (if k < n && Raises(ReplyAt(s.replies, k)) then Some(ReplyAt(s.replies, k).error) else None)
      && d.state.authFailures == (if k < n && AuthFails(ReplyAt(s.replies, k)) then 1 else 0)
      && d.state.slept == s.slept + (if k < n && (ReplyAt(s.replies, k).Busy? || AuthFails(ReplyAt(s.replies, k))) then [delay] else [])
      && d.state.queue == (if k < n then s.queue[k + 1..] else [])
      && d.state.accepted == s.accepted + Sent(s.queue, s.replies, k)
      && d.state.resets == s.resets + CountResets(s.replies, k) + (if k < n && ReplyAt(s.replies, k).ResetFailed? then 1 else 0)
  {
    DeliverOpenedEnding(s, now, delay);
    DeliverOpenedTaken(s, now, delay);
    DeliverOpenedResets(s, now, delay);
  }

  /** The reply that ended the batch decides what `deliver` raises, the
      counter and the sleeps. */
  lemma DeliverOpenedEnding(s: Engine, now: int, delay: nat)
    ensures var d := Deliver(s, Opened, now, delay); var n := |s.queue|; var k := Through(s.replies, n);
      && d.raised == (if k < n && Raises(ReplyAt(s.replies, k)) then Some(ReplyAt(s.replies, k).error) else None)
      && d.state.authFailures == (if k < n && AuthFails(ReplyAt(s.replies, k)) then 1 else 0)
      && d.state.slept == s.slept + (if k < n && (ReplyAt(s.replies, k).Busy? || AuthFails(ReplyAt(s.replies, k))) then [delay] else [])
  {
    SendStops(s.(authFailures := 0), now);
    SendKeepsCounter(s.(authFailures := 0), now);
  }

  /** After an open session everything but the counter and the sleeps is
      as the loop left it. */
  lemma DeliverOpenedIsLoop(s: Engine, now: int, delay: nat)
    ensures var d := Deliver(s, Opened, now, delay); var p := Send(s.(authFailures := 0), now);
      d.state == p.state.(authFailures := d.state.authFailures, slept := d.state.slept)
  {
  }

  /** The messages the loop took: the batch is consumed front first up to
      the halting reply, and the server receives the accepted ones. */
  lemma DeliverOpenedTaken(s: Engine, now: int, delay: nat)
    ensures var d := Deliver(s, Opened, now, delay); var n := |s.queue|; var k := Through(s.replies, n);
      && d.state.queue == (if k < n then s.queue[k + 1..] else [])
      && d.state.accepted == s.accepted + Sent(s.queue, s.replies, k)
  {
    DeliverOpenedIsLoop(s, now, delay);
    SendConsumes(s.(authFailures := 0), now);
    SendTransmits(s.(authFailures := 0), now);
  }

  /** The RSETs the loop issued: one per permanent or transient reply up
      to the halt, the failed RSET of a halting reply included. */
  lemma DeliverOpenedResets(s: Engine, now: int, delay: nat)
    ensures var d := Deliver(s, Opened, now, delay); var n := |s.queue|; var k := Through(s.replies, n);
      d.state.resets == s.resets + CountResets(s.replies, k) + (if k < n && ReplyAt(s.replies, k).ResetFailed? then 1 else 0)
  {
    var n := |s.queue|;
    var k := Through(s.replies, n);
    var s0 := s.(authFailures := 0);
    var d := Deliver(s, Opened, now, delay);
    assert d.state.resets == Send(s0, now).state.resets by {
      DeliverOpenedIsLoop(s, now, delay);
    }
    SendResets(s0, now);
    if k < n {
      assert Consumed(s.replies, n) == k + 1;
      ThroughIsFirstHalt(s.replies, n);
      CountResetsSnoc(s.replies, k);
    }
  }

  /** Within an open session every message taken before the halt is saved
      with its attempt stamped, `attempts` up by exactly one, and the fields
      its reply dictates; so is a message answered busy. Every other row is
      left as it was. */
  lemma DeliverSavesInOrder(s: Engine, now: int, delay: nat)
    requires KeysInTable(s.queue, s.rows) && DistinctKeys(s.queue)
    ensures var d := Deliver(s, Opened, now, delay); var m := Saved(s.replies, |s.queue|);
      && |d.state.rows| == |s.rows|
      && (forall j | 0 <= j < m :: d.state.rows[s.queue[j].id] == Outcome(s.queue[j], ReplyAt(s.replies, j), now))
      && (forall i | 0 <= i < |s.rows| && (forall j | 0 <= j < m :: s.queue[j].id != i) :: d.state.rows[i] == s.rows[i])
  {
    var s0 := s.(authFailures := 0);
    SendWrites(s0, now);
    var written := Written(s.rows, s.queue, s.replies, now);
    assert Deliver(s, Opened, now, delay).state.rows == written;
    WrittenLength(s.rows, s.queue, s.replies, now);
    var m := Saved(s.replies, |s.queue|);
    forall j | 0 <= j < m
      ensures written[s.queue[j].id] == Outcome(s.queue[j], ReplyAt(s.replies, j), now)
    {
      WrittenSaves(s.rows, s.queue, s.replies, now, j);
    }
    forall i | 0 <= i < |s.rows| && (forall j | 0 <= j < m :: s.queue[j].id != i)
      ensures written[i] == s.rows[i]
    {
      WrittenKeeps(s.rows, s.queue, s.replies, now, i);
    }
  }

  /** `deliver` never touches a row that no message of the batch names,
      however the session goes. */
  lemma DeliverKeepsRow(s: Engine, opening: StartReply, now: int, delay: nat, i: nat)
    requires KeysInTable(s.queue, s.rows) && DistinctKeys(s.queue)
    requires i < |s.rows| && forall j | 0 <= j < |s.queue| :: s.queue[j].id != i
    ensures var d := Deliver(s, opening, now, delay);
      |d.state.rows| == |s.rows| && d.state.rows[i] == s.rows[i]
  {
    if opening.Opened? {
      DeliverSavesInOrder(s, now, delay);
    }
  }

  /** A busy reply to message k: that message is saved with the error and
      its attempt, every later message stays queued with its row untouched,
      no RSET is issued for it, `deliver` sleeps one delay and raises
      nothing. */
  lemma DeliverServerBusy(s: Engine, now: int, delay: nat, k: nat)
    requires KeysInTable(s.queue, s.rows) && DistinctKeys(s.queue)
    requires k < |s.queue| && ReplyAt(s.replies, k).Busy?
    requires forall j | 0 <= j < k :: !Halts(ReplyAt(s.replies, j))
    ensures var d := Deliver(s, Opened, now, delay);
      && |d.state.rows| == |s.rows|
      && d.raised.None?
      && d.state.slept == s.slept + [delay]
      && d.state.queue == s.queue[k + 1..]
      && d.state.rows[s.queue[k].id] == Outcome(s.queue[k], ReplyAt(s.replies, k), now)
      && d.state.rows[s.queue[k].id].lastSendAttempt == now
      && d.state.rows[s.queue[k].id].failed == s.queue[k].failed
      && d.state.resets == s.resets + CountResets(s.replies, k)
      && (forall j | k < j < |s.queue| :: d.state.rows[s.queue[j].id] == s.rows[s.queue[j].id])
  {
    var n := |s.queue|;
    var d := Deliver(s, Opened, now, delay);
    ThroughIsFirstHalt(s.replies, n);
    assert Through(s.replies, n) == k;
    assert d.raised.None? && d.state.slept == s.slept + [delay] && d.state.queue == s.queue[k + 1..]
        && d.state.resets == s.resets + CountResets(s.replies, k) by {
      DeliverOpened(s, now, delay);
    }
    assert Saved(s.replies, n) == k + 1;
    assert |d.state.rows| == |s.rows| && d.state.rows[s.queue[k].id] == Outcome(s.queue[k], ReplyAt(s.replies, k), now)
        && forall j | k < j < n :: d.state.rows[s.queue[j].id] == s.rows[s.queue[j].id] by {
      DeliverSavesInOrder(s, now, delay);
      forall j | k < j < n
        ensures d.state.rows[s.queue[j].id] == s.rows[s.queue[j].id]
      {
        assert forall j' | 0 <= j' < k + 1 :: s.queue[j'].id != s.queue[j].id;
      }
    }
    OutcomeFields(s.queue[k], ReplyAt(s.replies, k), now);
  }

  /** A connection error during a send: that message is not saved (its row
      keeps its contents), nothing is raised and `deliver` does not sleep. */
  lemma DeliverDroppedMidBatch(s: Engine, now: int, delay: nat, k: nat)
    requires KeysInTable(s.queue, s.rows) && DistinctKeys(s.queue)
    requires k < |s.queue| && ReplyAt(s.replies, k).Dropped?
    requires forall j | 0 <= j < k :: !Halts(ReplyAt(s.replies, j))
    ensures var d := Deliver(s, Opened, now, delay);
      && |d.state.rows| == |s.rows|
      && d.raised.None?
      && d.state.slept == s.slept
      && (forall j | k <= j < |s.queue| :: d.state.rows[s.queue[j].id] == s.rows[s.queue[j].id])
  {
    var n := |s.queue|;
    ThroughIsFirstHalt(s.replies, n);
    assert Through(s.replies, n) == k;
    DeliverOpened(s, now, delay);
    DeliverSavesInOrder(s, now, delay);
  }

  /** An exception `deliver` does not rescue, raised by a send: that
      message and every later one stay unsaved, nothing sleeps, the counter
      stays 0, and the exception leaves `deliver`. */
  lemma DeliverUnhandledMidBatch(s: Engine, now: int, delay: nat, k: nat)
    requires KeysInTable(s.queue, s.rows) && DistinctKeys(s.queue)
    requires k < |s.queue| && ReplyAt(s.replies, k).Unhandled?
    requires forall j | 0 <= j < k :: !Halts(ReplyAt(s.replies, j))
    ensures var d := Deliver(s, Opened, now, delay);
      && |d.state.rows| == |s.rows|
      && d.raised == Some(ReplyAt(s.replies, k).error)
      && d.state.slept == s.slept && d.state.authFailures == 0
      && (forall j | k <= j < |s.queue| :: d.state.rows[s.queue[j].id] == s.rows[s.queue[j].id])
  {
    var n := |s.queue|;
    ThroughIsFirstHalt(s.replies, n);
    assert Through(s.replies, n) == k;
    DeliverOpened(s, now, delay);
    DeliverSavesInOrder(s, now, delay);
  }

  /** A failed RSET after the send of message k: that message keeps its
      row unsaved, as does every later one, and the RSET was issued. The
      rescue that catches the RSET's exception decides the rest: the last
      rescue swallows it; the authentication rescue counts a failure and
      sleeps one delay, as the counter was reset to 0 when the session
      opened; any other exception leaves `deliver`. */
  lemma DeliverResetFails(s: Engine, now: int, delay: nat, k: nat)
    requires KeysInTable(s.queue, s.rows) && DistinctKeys(s.queue)
    requires k < |s.queue| && ReplyAt(s.replies, k).ResetFailed?
    requires forall j | 0 <= j < k :: !Halts(ReplyAt(s.replies, j))
    ensures var d := Deliver(s, Opened, now, delay); var r := ReplyAt(s.replies, k);
      && |d.state.rows| == |s.rows|
      && d.raised == (if r.rescuedBy.NotRescued? then Some(r.error) else None)
      && d.state.authFailures == (if r.rescuedBy.AuthRescued? then 1 else 0)
      && d.state.slept == s.slept + (if r.rescuedBy.AuthRescued? then [delay] else [])
      && d.state.resets == s.resets + CountResets(s.replies, k) + 1
      && (forall j | k <= j < |s.queue| :: d.state.rows[s.queue[j].id] == s.rows[s.queue[j].id])
  {
    var n := |s.queue|;
    ThroughIsFirstHalt(s.replies, n);
    assert Through(s.replies, n) == k;
    DeliverOpened(s, now, delay);
    DeliverSavesInOrder(s, now, delay);
  }

  /** A batch with no halting reply is drained: the input ends empty,
      every message is saved, nothing sleeps and nothing is raised. */
  lemma DeliverDrains(s: Engine, now: int, delay: nat)
    requires forall j | 0 <= j < |s.queue| :: !Halts(ReplyAt(s.replies, j))
    ensures var d := Deliver(s, Opened, now, delay);
      && d.raised.None? && d.state.queue == [] && d.state.slept == s.slept
      && d.state.authFailures == 0
      && d.state.accepted == s.accepted + Sent(s.queue, s.replies, |s.queue|)
      && Saved(s.replies, |s.queue|) == |s.queue|
  {
    var n := |s.queue|;
    ThroughIsFirstHalt(s.replies, n);
    assert Through(s.replies, n) == n;
    DeliverOpened(s, now, delay);
  }
}
