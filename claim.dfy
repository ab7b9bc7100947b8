/** The two queries the engine runs against the email table: the claim of
    rows to attempt (`find_emails`) and the bulk expiry of stale rows
    (`cleanup`'s `update_all`), as functions of the rows. */
module Claim {
  import opened Queue

  /** Seconds a row must rest after an attempt before it is claimed again. */
  const ELIGIBILITY_WINDOW: int := 300

  /** `sent_at IS NULL AND failed = 0 AND (now - last_send_attempt) > 300` */
  predicate Claimable(e: Email, now: int)
  {
    e.sentAt.None? && !e.failed && now - e.lastSendAttempt > ELIGIBILITY_WINDOW
  }

  /** The rows matching the claim condition, in table order. */
  function Eligible(rows: seq<Email>, now: int): seq<Email>
  {
    if rows == [] then []
    else
      var last := rows[|rows| - 1];
      Eligible(rows[..|rows| - 1], now) + (if Claimable(last, now) then [last] else [])
  }

  /** `:limit => batch_size`, applied only when a batch size is set. */
  function Limit(s: seq<Email>, limit: Option<nat>): seq<Email>
  {
    if limit.Some? && limit.value < |s| then s[..limit.value] else s
  }

  /** The batch `find_emails` returns. */
  function ClaimBatch(rows: seq<Email>, now: int, limit: Option<nat>): seq<Email>
  {
    Limit(Eligible(rows, now), limit)
  }

  /** Row `rows[k]` and only such rows, in increasing key order. */
  ghost predicate InKeyOrder(rows: seq<Email>, s: seq<Email>)
  {
    (forall k | 0 <= k < |s| :: s[k].id < |rows| && rows[s[k].id] == s[k])
    && (forall a, b | 0 <= a < b < |s| :: s[a].id < s[b].id)
  }

  /** Eligible holds exactly the claimable rows, each once, in table order. */
  lemma {:induction false} EligibleExactly(rows: seq<Email>, now: int)
    requires WellKeyed(rows)
    ensures InKeyOrder(rows, Eligible(rows, now))
    ensures forall k | 0 <= k < |Eligible(rows, now)| :: Claimable(Eligible(rows, now)[k], now)
    ensures forall i | 0 <= i < |rows| && Claimable(rows[i], now) :: rows[i] in Eligible(rows, now)
  {
    if rows != [] {
      var init := rows[..|rows| - 1];
      var last := rows[|rows| - 1];
      assert WellKeyed(init);
      EligibleExactly(init, now);
      var e0 := Eligible(init, now);
      assert forall k | 0 <= k < |e0| :: e0[k].id < |init| && init[e0[k].id] == e0[k];
      forall i | 0 <= i < |rows| && Claimable(rows[i], now)
        ensures rows[i] in Eligible(rows, now)
      {
        if i < |rows| - 1 {
          assert init[i] == rows[i];
        }
      }
    }
  }

  /** What `find_emails` promises: every row it returns is claimable and is
      the table's row with that key, rows come in table order, at most
      `batch_size` of them, and the cap is the only reason a claimable row
      is missing. */
  lemma ClaimSelects(rows: seq<Email>, now: int, limit: Option<nat>)
    requires WellKeyed(rows)
    ensures InKeyOrder(rows, ClaimBatch(rows, now, limit))
    ensures forall k | 0 <= k < |ClaimBatch(rows, now, limit)| :: Claimable(ClaimBatch(rows, now, limit)[k], now)
    ensures limit.Some? ==> |ClaimBatch(rows, now, limit)| <= limit.value
    ensures limit.None? || |ClaimBatch(rows, now, limit)| < limit.value ==>
              forall i | 0 <= i < |rows| && Claimable(rows[i], now) :: rows[i] in ClaimBatch(rows, now, limit)
  {
    EligibleExactly(rows, now);
    var e := Eligible(rows, now);
    var c := ClaimBatch(rows, now, limit);
    assert forall k | 0 <= k < |c| :: c[k] == e[k];
  }

  /** `last_send_attempt > 0 AND created_at < timeout AND sent_at IS NULL`;
      the `failed` column is not part of the condition. */
  predicate Stale(e: Email, timeout: int)
  {
    e.lastSendAttempt > 0 && e.createdAt < timeout && e.sentAt.None?
  }

  /** `update_all({:failed => true}, conditions)` over the table. */
  function Expire(rows: seq<Email>, timeout: int): seq<Email>
  {
    if rows == [] then []
    else
      var e := rows[0];
      [if Stale(e, timeout) then e.(failed := true) else e] + Expire(rows[1..], timeout)
  }

  /** The number `update_all` reports: the rows matching the condition. */
  function CountStale(rows: seq<Email>, timeout: int): nat
  {
    if rows == [] then 0
    else (if Stale(rows[0], timeout) then 1 else 0) + CountStale(rows[1..], timeout)
  }

  /** `cleanup`: nothing when `max_age` is 0, otherwise expiry with
      `timeout = now - max_age`. */
  function Cleanup(maxAge: nat, rows: seq<Email>, now: int): seq<Email>
  {
    if maxAge == 0 then rows else Expire(rows, now - maxAge)
  }

  /** Expiry marks exactly the stale rows failed and changes nothing else. */
  lemma {:induction false} ExpireRowwise(rows: seq<Email>, timeout: int)
    ensures |Expire(rows, timeout)| == |rows|
    ensures forall i | 0 <= i < |rows| ::
              Expire(rows, timeout)[i] == if Stale(rows[i], timeout) then rows[i].(failed := true) else rows[i]
  {
    if rows != [] {
      ExpireRowwise(rows[1..], timeout);
      var r := Expire(rows, timeout);
      forall i | 0 <= i < |rows|
        ensures r[i] == if Stale(rows[i], timeout) then rows[i].(failed := true) else rows[i]
      {
        if i > 0 {
          assert r[i] == Expire(rows[1..], timeout)[i - 1];
          assert rows[1..][i - 1] == rows[i];
        }
      }
    }
  }

  /** What `cleanup` promises for both settings of `max_age`. */
  lemma CleanupMarksStale(maxAge: nat, rows: seq<Email>, now: int)
    ensures maxAge == 0 ==> Cleanup(maxAge, rows, now) == rows
    ensures |Cleanup(maxAge, rows, now)| == |rows|
    ensures maxAge != 0 ==> forall i | 0 <= i < |rows| ::
              Cleanup(maxAge, rows, now)[i].failed == (rows[i].failed || Stale(rows[i], now - maxAge))
    ensures forall i | 0 <= i < |rows| ::
              Cleanup(maxAge, rows, now)[i] == rows[i].(failed := Cleanup(maxAge, rows, now)[i].failed)
  {
    ExpireRowwise(rows, now - maxAge);
  }

  /** Running `cleanup` twice in the same second changes nothing more. */
  lemma ExpireIdempotent(rows: seq<Email>, timeout: int)
    ensures Expire(Expire(rows, timeout), timeout) == Expire(rows, timeout)
  {
    var once := Expire(rows, timeout);
    ExpireRowwise(rows, timeout);
    ExpireRowwise(once, timeout);
  }

  /** Expiry keeps every row's key, so the table stays keyed by position. */
  lemma CleanupKeepsKeys(maxAge: nat, rows: seq<Email>, now: int)
    requires WellKeyed(rows)
    ensures WellKeyed(Cleanup(maxAge, rows, now))
  {
    ExpireRowwise(rows, now - maxAge);
  }

  /** A row cleanup has just expired is never in the claim that follows. */
  lemma ExpiredNotClaimed(maxAge: nat, rows: seq<Email>, now: int, limit: Option<nat>, i: nat)
    requires WellKeyed(rows)
    requires maxAge != 0 && i < |rows| && Stale(rows[i], now - maxAge)
    ensures forall e | e in ClaimBatch(Cleanup(maxAge, rows, now), now, limit) :: e.id != i
  {
    var cleaned := Cleanup(maxAge, rows, now);
    CleanupMarksStale(maxAge, rows, now);
    CleanupKeepsKeys(maxAge, rows, now);
    ClaimSelects(cleaned, now, limit);
  }
}
