/** The email table: one row per queued message (the `emails` table of the
    ActiveRecord schema), and the two ways the engine writes to it: creating
    a row and saving a changed copy of a row back over it. */
module Queue {

  datatype Option<T> = None | Some(value: T)

  /** A queued message as the table stores it. Timestamps are whole seconds.
      `id` is the row's primary key and also its position in the table. */
  datatype Email = Email(
    id: nat,
    to: string,
    from: Option<string>,
    mail: string,             // the fully encoded message
    lastSendAttempt: int,     // 0 until the first attempt
    attempts: nat,
    lastError: Option<string>,
    successStatus: Option<string>,
    sentAt: Option<int>,
    failed: bool,
    createdAt: int)

  /** The row `Email.create` makes: column defaults from the schema
      (`last_send_attempt` 0, `failed` false), `created_at` stamped with the
      current time, and `attempts` 0. The schema gives `attempts` no
      default, so the column starts NULL; `increment` reads NULL as 0. */
  function NewRow(id: nat, to: string, from: Option<string>, mail: string, now: int): (e: Email)
  {
    Email(id, to, from, mail, 0, 0, None, None, None, false, now)
  }

  /** The characters Ruby's `\s` matches. */
  predicate IsSpace(c: char)
  {
    c == ' ' || c == '\t' || c == '\n' || c == '\r' || c == '\U{000B}' || c == '\U{000C}'
  }

  /** `String#blank?`: empty or white space only. */
  predicate Blank(s: string)
  {
    s == [] || (IsSpace(s[0]) && Blank(s[1..]))
  }

  /** Whether a model class accepts a new row: with
      `validates_presence_of :from, :to, :mail` declared, all three must be
      present and not blank. */
  predicate Acceptable(validatesPresence: bool, to: string, from: Option<string>, mail: string)
  {
    !validatesPresence || (!Blank(to) && from.Some? && !Blank(from.value) && !Blank(mail))
  }

  /** Row i carries primary key i. */
  ghost predicate WellKeyed(rows: seq<Email>)
  {
    forall i | 0 <= i < |rows| :: rows[i].id == i
  }

  /** `save!`: the row whose key is e.id takes every field of e. A key that
      names no row updates nothing. */
  function Store(rows: seq<Email>, e: Email): (r: seq<Email>)
  {
    if e.id < |rows| then rows[e.id := e] else rows
  }

  /** An ActiveRecord model class: its table's rows in key order, and
      whether the class validates the presence of `from`, `to` and `mail`
      (the class `--create-model` generates does). */
  class Table {
    var rows: seq<Email>
    const validatesPresence: bool

    ghost predicate Valid()
      reads this
    {
      WellKeyed(rows)
    }

    constructor (validatesPresence: bool)
      ensures Valid() && rows == [] && this.validatesPresence == validatesPresence
    {
      rows := [];
      this.validatesPresence := validatesPresence;
    }

    /** `create`: appends a fresh row and returns its key; a record that
        fails validation is returned unsaved, and no row is written. */
    method Create(to: string, from: Option<string>, mail: string, now: int) returns (id: Option<nat>)
      requires Valid()
      modifies this
      ensures Valid()
      ensures id == if Acceptable(validatesPresence, to, from, mail) then Some(|old(rows)|) else None
      ensures rows == old(rows) + (if Acceptable(validatesPresence, to, from, mail) then [NewRow(|old(rows)|, to, from, mail, now)] else [])
    {
      if !Acceptable(validatesPresence, to, from, mail) {
        return None;
      }
      id := Some(|rows|);
      rows := rows + [NewRow(|rows|, to, from, mail, now)];
    }

    /** `save!` of an in-memory copy of a row. */
    method Save(e: Email)
      requires Valid()
      modifies this
      ensures Valid()
      ensures rows == Store(old(rows), e)
    {
      if e.id < |rows| {
        rows := rows[e.id := e];
      }
    }

    /** The rollback of a transaction: the table returns to the rows it
        held when the transaction began. */
    method Restore(savepoint: seq<Email>)
      requires WellKeyed(savepoint)
      modifies this
      ensures Valid()
      ensures rows == savepoint
    {
      rows := savepoint;
    }
  }
}
