/** The SMTP side of a delivery run, as values. Net::SMTP signals each
    failure with its own exception class; here every outcome of a send is
    one case of a closed datatype, and a session is a script of such
    outcomes. The cases follow Net::SMTP's exception classes, not the reply
    codes of section 4.2.1 of RFC 5321: a 4yz reply raises SMTPServerBusy,
    a 50z reply SMTPSyntaxError, a 53z reply SMTPAuthenticationError, a 55z
    reply SMTPFatalError and any other SMTPUnknownError. */
module Smtp {
  import opened Queue

  /** The message and backtrace that an SMTP exception carries. */
  datatype SmtpError = SmtpError(message: string, backtrace: seq<string>)

  /** The three exception classes the engine treats as transient. */
  datatype TransientKind = UnknownError | SyntaxError | TimeoutError

  /** What one `send_message` call yields. */
  datatype Reply =
    | Accepted(status: string)                        // the server took the message; its response text
    | Rejected(error: SmtpError)                      // Net::SMTPFatalError, a 55z reply
    | Busy(error: SmtpError)                          // Net::SMTPServerBusy
    | Transient(kind: TransientKind, error: SmtpError)
    | AuthRefused(error: SmtpError)                   // Net::SMTPAuthenticationError
    | Dropped                                         // broken pipe, connection reset, TLS error
    | Unhandled(error: SmtpError)                     // any other exception, e.g. EOFError or IOError: deliver does not rescue it
    | ResetFailed(rescuedBy: ResetRescue, error: SmtpError)  // a Rejected or Transient send whose RSET then raised `error`

  /** Which of `deliver`'s own rescues catches the exception a failed RSET
      raises. `reset` is a plain `getok 'RSET'`, so its reply raises the
      same classes as any other command. */
  datatype ResetRescue =
    | Swallowed     // Net::SMTPServerBusy, a system call error or a TLS error: the last rescue
    | AuthRescued   // Net::SMTPAuthenticationError, a 53z reply: the authentication rescue
    | NotRescued    // anything else, e.g. Net::SMTPFatalError or IOError: it leaves `deliver`

  /** What opening the session (`smtp.start`) yields. */
  datatype StartReply =
    | Opened
    | OpenRefused(error: SmtpError)   // Net::SMTPAuthenticationError while authenticating
    | OpenDropped                     // server busy, a system call error or a TLS error while connecting
    | OpenFailed(error: SmtpError)    // any other exception, e.g. a timeout, an unknown host or a 554 greeting

  /** One message handed to the server: body, sender, recipient. */
  datatype Transmission = Transmission(mail: string, from: Option<string>, to: string)

  /** The next reply of a script. A script that has run out stands for a
      connection that is gone. */
  function NextReply(replies: seq<Reply>): Reply
  {
    if replies == [] then Dropped else replies[0]
  }

  function Rest(replies: seq<Reply>): seq<Reply>
  {
    if replies == [] then [] else replies[1..]
  }

  /** The reply the j-th send of a session gets. */
  function ReplyAt(replies: seq<Reply>, j: nat): (r: Reply)
    ensures j < |replies| ==> r == replies[j]
    ensures j >= |replies| ==> r == Dropped
  {
    if j < |replies| then replies[j] else Dropped
  }

  lemma ReplyAtRest(replies: seq<Reply>, j: nat)
    ensures ReplyAt(Rest(replies), j) == ReplyAt(replies, j + 1)
    ensures NextReply(replies) == ReplyAt(replies, 0)
  {
  }

  function ClassName(r: Reply): string
  {
    match r
    case Rejected(_) => "Net::SMTPFatalError"
    case Busy(_) => "Net::SMTPServerBusy"
    case Transient(UnknownError, _) => "Net::SMTPUnknownError"
    case Transient(SyntaxError, _) => "Net::SMTPSyntaxError"
    case Transient(TimeoutError, _) => "Timeout::Error"
    case AuthRefused(_) => "Net::SMTPAuthenticationError"
    case _ => ""
  }

  function Join(lines: seq<string>, sep: string): string
  {
    if lines == [] then ""
    else if |lines| == 1 then lines[0]
    else lines[0] + sep + Join(lines[1..], sep)
  }

  /** The text stored in `last_error` for a failed send. */
  function ErrorReport(className: string, e: SmtpError): string
  {
    "Exception: " + className + "\n\nMessage:\n" + e.message
      + "\n\nBacktrace:\n" + Join(e.backtrace, "\n\t")
  }

  /** One SMTP session with the configured server: how opening it went, the
      replies still to come, and what the server has seen so far (the RSET
      commands of section 4.1.1.5 of RFC 5321, and the messages it
      accepted). */
  class SmtpSession {
    const opening: StartReply
    var replies: seq<Reply>
    var resetCalls: nat
    var accepted: seq<Transmission>

    constructor (opening: StartReply, replies: seq<Reply>)
      ensures this.opening == opening && this.replies == replies
      ensures resetCalls == 0 && accepted == []
    {
      this.opening := opening;
      this.replies := replies;
      resetCalls := 0;
      accepted := [];
    }

    /** `send_message(mail, from, to)`: takes the next reply of the script. */
    method SendMessage(mail: string, from: Option<string>, to: string) returns (r: Reply)
      modifies this`replies, this`accepted
      ensures r == NextReply(old(replies)) && replies == Rest(old(replies))
      ensures accepted == old(accepted) + (if r.Accepted? then [Transmission(mail, from, to)] else [])
    {
      r := NextReply(replies);
      replies := Rest(replies);
      if r.Accepted? {
        accepted := accepted + [Transmission(mail, from, to)];
      }
    }

    /** `reset`: issues RSET without closing the connection. Whether the
        server accepts it is part of the reply script: a `ResetFailed`
        reply stands for a send whose RSET raised. */
    method Reset()
      modifies this`resetCalls
      ensures resetCalls == old(resetCalls) + 1
    {
      resetCalls := resetCalls + 1;
    }
  }
}
