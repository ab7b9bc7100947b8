/** The enqueue side: ActionMailer's `activerecord` delivery method, which
    turns one outgoing mail into queue rows instead of sending it, and the
    class-level setting naming the model class those rows go to. */
module ArMailer {
  import opened Queue
  import Claim

  const DEFAULT_EMAIL_CLASS: string := "Email"

  /** What the delivery method reads from a TMail message: its encoded
      form, its From addresses (None when the mail has no From header, where
      TMail's `from` is nil) and its envelope destinations. */
  datatype OutgoingMail = OutgoingMail(encoded: string, from: Option<seq<string>>, destinations: seq<string>)

  /** The errors `perform_delivery_activerecord` lets out: `constantize` of
      a name that denotes no class, and `first` called on a nil `from`. */
  datatype EnqueueError = NameError | NoMethodError

  /** `mail.from.first`: nil for an empty list of senders. */
  function FirstSender(from: seq<string>): Option<string>
  {
    if from == [] then None else Some(from[0])
  }

  /** The sender every row of `mail` gets. */
  function SenderOf(mail: OutgoingMail): Option<string>
  {
    if mail.from.Some? then FirstSender(mail.from.value) else None
  }

  /** The destinations whose row the model class accepts, in order. */
  function Kept(validates: bool, dests: seq<string>, from: Option<string>, body: string): seq<string>
  {
    if dests == [] then []
    else
      var k := |dests| - 1;
      Kept(validates, dests[..k], from, body) + (if Acceptable(validates, dests[k], from, body) then [dests[k]] else [])
  }

  /** The rows `create` writes for `dests`, one per destination in order, the
      first taking key `n`. */
  function RowsFor(n: nat, dests: seq<string>, from: Option<string>, body: string, now: int): seq<Email>
  {
    if dests == [] then []
    else
      var k := |dests| - 1;
      RowsFor(n, dests[..k], from, body, now) + [NewRow(n + k, dests[k], from, body, now)]
  }

  /** The rows enqueuing `mail` appends to a table holding `n` rows, for a
      model class that validates presence or not. */
  function Enqueued(n: nat, mail: OutgoingMail, now: int, validates: bool): seq<Email>
  {
    var from := SenderOf(mail);
    RowsFor(n, Kept(validates, mail.destinations, from, mail.encoded), from, mail.encoded, now)
  }

  /** Only destinations the class accepts are kept, and nothing else. */
  lemma {:induction false} KeptSound(validates: bool, dests: seq<string>, from: Option<string>, body: string)
    ensures |Kept(validates, dests, from, body)| <= |dests|
    ensures forall x | x in Kept(validates, dests, from, body) :: x in dests && Acceptable(validates, x, from, body)
  {
    if dests != [] {
      var init := dests[..|dests| - 1];
      KeptSound(validates, init, from, body);
      assert forall x | x in init :: x in dests;
    }
  }

  /** `idx` lists, in increasing order, the positions in `dests` of exactly
      the destinations the class accepts, and `kept` holds the destinations
      at those positions. */
  ghost predicate PicksAccepted(validates: bool, dests: seq<string>, from: Option<string>, body: string,
                                kept: seq<string>, idx: seq<nat>)
  {
    && |idx| == |kept|
    && (forall j | 0 <= j < |idx| :: idx[j] < |dests| && kept[j] == dests[idx[j]])
    && (forall j, l | 0 <= j < l < |idx| :: idx[j] < idx[l])
    && (forall i | 0 <= i < |dests| :: Acceptable(validates, dests[i], from, body) <==> i in idx)
  }

  /** One more destination extends the picking by its own position
      exactly when the class accepts it. */
  lemma PicksSnoc(validates: bool, dests: seq<string>, from: Option<string>, body: string,
                  before: seq<string>, idx0: seq<nat>)
    requires dests != []
    requires PicksAccepted(validates, dests[..|dests| - 1], from, body, before, idx0)
    ensures var k := |dests| - 1;
      if Acceptable(validates, dests[k], from, body)
      then PicksAccepted(validates, dests, from, body, before + [dests[k]], idx0 + [k])
      else PicksAccepted(validates, dests, from, body, before, idx0)
  {
    var k := |dests| - 1;
    var init := dests[..k];
    assert forall j | 0 <= j < |idx0| :: idx0[j] < k;
    forall i | 0 <= i < k
      ensures Acceptable(validates, dests[i], from, body) <==> i in idx0
    {
      assert init[i] == dests[i];
    }
    assert k !in idx0;
    if Acceptable(validates, dests[k], from, body) {
      var kept := before + [dests[k]];
      var idx := idx0 + [k];
      forall j | 0 <= j < |idx|
        ensures idx[j] < |dests| && kept[j] == dests[idx[j]]
      {
        if j < |idx0| {
          assert init[idx0[j]] == dests[idx0[j]];
        }
      }
      assert forall i | 0 <= i < k :: i in idx <==> i in idx0;
    } else {
      forall j | 0 <= j < |idx0|
        ensures idx0[j] < |dests| && before[j] == dests[idx0[j]]
      {
        assert init[idx0[j]] == dests[idx0[j]];
      }
    }
  }

  /** The kept destinations are the accepted ones as a subsequence of the
      mail's destinations: one entry per accepted position, repeats
      included, in destination order. */
  lemma {:induction false} KeptSubsequence(validates: bool, dests: seq<string>, from: Option<string>, body: string)
    ensures exists idx: seq<nat> :: PicksAccepted(validates, dests, from, body, Kept(validates, dests, from, body), idx)
  {
    if dests == [] {
      var none: seq<nat> := [];
      assert PicksAccepted(validates, dests, from, body, Kept(validates, dests, from, body), none);
    } else {
      var k := |dests| - 1;
      var before := Kept(validates, dests[..k], from, body);
      KeptSubsequence(validates, dests[..k], from, body);
      var idx0: seq<nat> :| PicksAccepted(validates, dests[..k], from, body, before, idx0);
      PicksSnoc(validates, dests, from, body, before, idx0);
      if Acceptable(validates, dests[k], from, body) {
        assert PicksAccepted(validates, dests, from, body, Kept(validates, dests, from, body), idx0 + [k]);
      } else {
        assert PicksAccepted(validates, dests, from, body, Kept(validates, dests, from, body), idx0);
      }
    }
  }

  /** Every destination the class accepts is kept. */
  lemma {:induction false} KeptComplete(validates: bool, dests: seq<string>, from: Option<string>, body: string)
    ensures forall i | 0 <= i < |dests| && Acceptable(validates, dests[i], from, body) :: dests[i] in Kept(validates, dests, from, body)
  {
    if dests != [] {
      var k := |dests| - 1;
      var init := dests[..k];
      KeptComplete(validates, init, from, body);
      forall i | 0 <= i < k && Acceptable(validates, dests[i], from, body)
        ensures dests[i] in Kept(validates, dests, from, body)
      {
        assert init[i] == dests[i];
      }
    }
  }

  /** Without validation, or when every row passes it, every destination is
      kept, in order. */
  lemma {:induction false} KeptAll(validates: bool, dests: seq<string>, from: Option<string>, body: string)
    requires forall i | 0 <= i < |dests| :: Acceptable(validates, dests[i], from, body)
    ensures Kept(validates, dests, from, body) == dests
  {
    if dests != [] {
      var k := |dests| - 1;
      var init := dests[..k];
      forall i | 0 <= i < |init|
        ensures Acceptable(validates, init[i], from, body)
      {
        assert init[i] == dests[i];
      }
      KeptAll(validates, init, from, body);
      assert Acceptable(validates, dests[k], from, body);
      assert Kept(validates, dests, from, body) == init + [dests[k]];
      assert dests == init + [dests[k]];
    }
  }

  /** One row per destination; row i goes to destination i under key n + i. */
  lemma {:induction false} RowsForShape(n: nat, dests: seq<string>, from: Option<string>, body: string, now: int)
    ensures |RowsFor(n, dests, from, body, now)| == |dests|
    ensures forall i | 0 <= i < |dests| :: RowsFor(n, dests, from, body, now)[i] == NewRow(n + i, dests[i], from, body, now)
  {
    if dests != [] {
      var k := |dests| - 1;
      RowsForShape(n, dests[..k], from, body, now);
      var r := RowsFor(n, dests, from, body, now);
      forall i | 0 <= i < |dests|
        ensures r[i] == NewRow(n + i, dests[i], from, body, now)
      {
        if i < k {
          assert dests[..k][i] == dests[i];
        }
      }
    }
  }

  /** Taking one more destination keeps one more row exactly when the
      class accepts it. */
  lemma KeptStep(validates: bool, dests: seq<string>, i: nat, from: Option<string>, body: string)
    requires i < |dests|
    ensures Kept(validates, dests[..i + 1], from, body)
         == Kept(validates, dests[..i], from, body) + (if Acceptable(validates, dests[i], from, body) then [dests[i]] else [])
  {
    assert dests[..i + 1][..i] == dests[..i];
  }

  /** One more kept destination adds its row under the next key. */
  lemma RowsForSnoc(n: nat, dests: seq<string>, x: string, from: Option<string>, body: string, now: int)
    ensures RowsFor(n, dests + [x], from, body, now) == RowsFor(n, dests, from, body, now) + [NewRow(n + |dests|, x, from, body, now)]
  {
    assert (dests + [x])[..|dests|] == dests;
  }

  /** One more destination adds its row under the next key exactly when
      the class accepts it. */
  lemma EnqueueStep(n: nat, validates: bool, dests: seq<string>, i: nat, from: Option<string>, body: string, now: int)
    requires i < |dests|
    ensures var before := Kept(validates, dests[..i], from, body);
      var after := Kept(validates, dests[..i + 1], from, body);
      && after == before + (if Acceptable(validates, dests[i], from, body) then [dests[i]] else [])
      && RowsFor(n, after, from, body, now)
         == RowsFor(n, before, from, body, now)
            + (if Acceptable(validates, dests[i], from, body) then [NewRow(n + |before|, dests[i], from, body, now)] else [])
  {
    var before := Kept(validates, dests[..i], from, body);
    KeptStep(validates, dests, i, from, body);
    if Acceptable(validates, dests[i], from, body) {
      RowsForSnoc(n, before, dests[i], from, body, now);
    } else {
      assert Kept(validates, dests[..i + 1], from, body) == before;
    }
  }

  /** What `perform_delivery_activerecord` promises for a mail: one new row
      per destination the model class accepts, appended after the existing
      rows in destination order, each with that destination as `to`, the
      whole encoded mail as body, the first sender only as `from`, and the
      defaults of a fresh row; the table stays keyed by position. A class
      without validation, or a mail whose rows all pass, gets exactly one
      row per destination. */
  lemma EnqueueAppends(rows: seq<Email>, mail: OutgoingMail, now: int, validates: bool)
    requires WellKeyed(rows)
    ensures var kept := Kept(validates, mail.destinations, SenderOf(mail), mail.encoded);
      var after := rows + Enqueued(|rows|, mail, now, validates);
      && |after| == |rows| + |kept|
      && after[..|rows|] == rows
      && WellKeyed(after)
      && (forall i | 0 <= i < |kept| ::
           var e := after[|rows| + i];
           && e.to == kept[i] && Acceptable(validates, e.to, e.from, e.mail)
           && e.mail == mail.encoded
           && e.from == (if mail.from.None? || mail.from.value == [] then None else Some(mail.from.value[0]))
           && e.attempts == 0 && e.lastSendAttempt == 0 && e.sentAt.None? && !e.failed
           && e.createdAt == now)
      && ((forall i | 0 <= i < |mail.destinations| :: Acceptable(validates, mail.destinations[i], SenderOf(mail), mail.encoded))
           ==> kept == mail.destinations)
  {
    var from := SenderOf(mail);
    var kept := Kept(validates, mail.destinations, from, mail.encoded);
    KeptSound(validates, mail.destinations, from, mail.encoded);
    if forall i | 0 <= i < |mail.destinations| :: Acceptable(validates, mail.destinations[i], from, mail.encoded) {
      KeptAll(validates, mail.destinations, from, mail.encoded);
    }
    RowsForShape(|rows|, kept, from, mail.encoded, now);
    var after := rows + Enqueued(|rows|, mail, now, validates);
    forall i | 0 <= i < |after|
      ensures after[i].id == i
    {
      if i >= |rows| {
        assert after[i] == Enqueued(|rows|, mail, now, validates)[i - |rows|];
      }
    }
  }

  /** A freshly enqueued row is pending: the next claim more than 300
      seconds after the epoch picks it up. */
  lemma EnqueuedClaimable(n: nat, mail: OutgoingMail, now: int, validates: bool, later: int, i: nat)
    requires later > Claim.ELIGIBILITY_WINDOW && i < |Enqueued(n, mail, now, validates)|
    ensures Claim.Claimable(Enqueued(n, mail, now, validates)[i], later)
  {
    var from := SenderOf(mail);
    RowsForShape(n, Kept(validates, mail.destinations, from, mail.encoded), from, mail.encoded, now);
  }

  /** The loop of `CreateRows` stays on course: after the `create` for
      destination i the table holds the rows of the destinations kept so
      far. */
  lemma CreateStep(start: seq<Email>, prev: seq<Email>, next: seq<Email>, kept: seq<string>,
                   validates: bool, dests: seq<string>, i: nat, from: Option<string>, body: string, now: int)
    requires i < |dests|
    requires kept == Kept(validates, dests[..i], from, body)
    requires prev == start + RowsFor(|start|, kept, from, body, now)
    requires |prev| == |start| + |kept|
    requires next == prev + (if Acceptable(validates, dests[i], from, body) then [NewRow(|prev|, dests[i], from, body, now)] else [])
    ensures var kept' := kept + (if Acceptable(validates, dests[i], from, body) then [dests[i]] else []);
      && kept' == Kept(validates, dests[..i + 1], from, body)
      && next == start + RowsFor(|start|, kept', from, body, now)
      && |next| == |start| + |kept'|
  {
    EnqueueStep(|start|, validates, dests, i, from, body, now);
  }

  /** The `each` over the destinations once the class and the sender are
      known: one `create` per destination, in order. */
  method CreateRows(t: Table, dests: seq<string>, from: Option<string>, body: string, now: int)
    requires t.Valid()
    modifies t
    ensures t.Valid()
    ensures t.rows == old(t.rows) + RowsFor(|old(t.rows)|, Kept(t.validatesPresence, dests, from, body), from, body, now)
  {
    ghost var start := t.rows;
    ghost var kept: seq<string> := [];
    for i := 0 to |dests|
      invariant t.Valid()
      invariant kept == Kept(t.validatesPresence, dests[..i], from, body)
      invariant t.rows == start + RowsFor(|start|, kept, from, body, now)
      invariant |t.rows| == |start| + |kept|
    {
      ghost var prev := t.rows;
      var id := t.Create(dests[i], from, body, now);
      CreateStep(start, prev, t.rows, kept, t.validatesPresence, dests, i, from, body, now);
      kept := kept + (if Acceptable(t.validatesPresence, dests[i], from, body) then [dests[i]] else []);
    }
    assert dests[..|dests|] == dests;
  }

  /** `ActionMailer::Base` as far as queueing goes: the class variable
      naming the email class, and the model classes the application
      defines, by name. */
  class MailerBase {
    var emailClassName: string
    const classes: map<string, Table>

    /** `@@email_class_name = 'Email'`. */
    constructor (classes: map<string, Table>)
      ensures emailClassName == DEFAULT_EMAIL_CLASS && this.classes == classes
    {
      emailClassName := DEFAULT_EMAIL_CLASS;
      this.classes := classes;
    }

    /** `email_class=`: records the class's name. */
    method SetEmailClass(klass: string)
      modifies this`emailClassName
      ensures emailClassName == klass
    {
      emailClassName := klass;
    }

    /** `email_class`: the class the recorded name denotes, or None where
        `constantize` raises NameError. */
    function EmailClass(): (t: Option<Table>)
      reads this
      ensures t.Some? <==> emailClassName in classes
      ensures t.Some? ==> t.value == classes[emailClassName]
    {
      if emailClassName in classes then Some(classes[emailClassName]) else None
    }

    ghost predicate Valid()
      reads this, classes.Values
    {
      forall t | t in classes.Values :: t.Valid()
    }

    /** `perform_delivery_activerecord(mail)`: calls `create` once per
        destination on the current email class. The class and the sender
        are looked up for every destination, and nothing in the loop changes
        what they yield, so the lookups are made once here, before the first
        destination: a name that denotes no class, or a mail without a From
        header, fails before any row is made, and a mail without
        destinations never looks them up. */
    method PerformDeliveryActiveRecord(mail: OutgoingMail, now: int) returns (error: Option<EnqueueError>)
      requires Valid()
      modifies classes.Values
      ensures Valid()
      ensures error == if mail.destinations == [] then None
                       else if emailClassName !in classes then Some(NameError)
                       else if mail.from.None? then Some(NoMethodError)
                       else None
      ensures emailClassName in classes ==>
                var t := classes[emailClassName];
                t.rows == old(t.rows) + (if error.None? then Enqueued(|old(t.rows)|, mail, now, t.validatesPresence) else [])
      ensures forall t | t in classes.Values && (emailClassName !in classes || t != classes[emailClassName]) ::
                t.rows == old(t.rows)
    {
      if mail.destinations == [] {
        return None;
      }
      var klass := EmailClass();
      if klass.None? {
        return Some(NameError);
      }
      if mail.from.None? {
        return Some(NoMethodError);
      }
      CreateRows(klass.value, mail.destinations, FirstSender(mail.from.value), mail.encoded, now);
      error := None;
    }
  }
}
