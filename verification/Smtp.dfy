/** How the outcome of one SMTP submission is classified (internal/accountmail/smtp.go).
    Replies are read as in section 4.2.1 of RFC 5321: 4yz and 5yz are definite refusals. */
module Smtp {
  import opened Common

  /** What the client sees at one stage: success, a numbered refusal, or a broken transport. */
  datatype Reply = Fine | Refused(code: nat) | Broken

  datatype Stage = Opening | Mail | Recipient | Data | Write | Accept

  /** One exchange, and whether the server in fact took the message. */
  datatype Dialogue = Dialogue(
      opening: Reply, mail: Reply, recipient: Reply, data: Reply, write: Reply, accept: Reply, kept: bool)

  datatype MailError =
    | DeliveryError(stage: Stage, uncertain: bool, cause: Reply)
    | Foreign

  predicate Definite(r: Reply) {
    r.Refused? && 400 <= r.code <= 599
  }

  /** What the protocol guarantees: nothing is taken before DATA is granted, a definite
      refusal after it means the message was not taken, and the final success means it was. */
  predicate Consistent(d: Dialogue) {
    && (d.kept ==> d.opening == Fine && d.mail == Fine && d.recipient == Fine && d.data == Fine)
    && (d.kept ==> !Definite(d.write) && (d.write == Fine ==> !Definite(d.accept)))
    && (Taken(d) ==> d.kept)
  }

  predicate Taken(d: Dialogue) {
    d.opening == Fine && d.mail == Fine && d.recipient == Fine && d.data == Fine && d.write == Fine && d.accept == Fine
  }

  function DataError(stage: Stage, r: Reply): MailError {
    DeliveryError(stage, !Definite(r), r)
  }

  predicate Uncertain(e: Option<MailError>) {
    match e
    case None => false
    case Some(Foreign) => true
    case Some(DeliveryError(_, uncertain, _)) => uncertain
  }

  predicate Temporary(e: Option<MailError>) {
    match e
    case Some(DeliveryError(_, uncertain, cause)) => !uncertain && cause.Refused? && 400 <= cause.code < 500
    case _ => false
  }

  /** The error a submission ends with, if any. */
  function Outcome(d: Dialogue): Option<MailError> {
    if d.opening != Fine then Some(DeliveryError(Opening, false, d.opening))
    else if d.mail != Fine then Some(DeliveryError(Mail, false, d.mail))
    else if d.recipient != Fine then Some(DeliveryError(Recipient, false, d.recipient))
    else if d.data != Fine then Some(DeliveryError(Data, false, d.data))
    else if d.write != Fine then Some(DataError(Write, d.write))
    else if d.accept != Fine then Some(DataError(Accept, d.accept))
    else None
  }

  /** Drives the client stage by stage; a failed write is not followed by the final dot. */
  method Submit(d: Dialogue) returns (e: Option<MailError>)
    requires Consistent(d)
    ensures e == Outcome(d)
    ensures e == None ==> d.kept
    ensures e.Some? && !Uncertain(e) ==> !d.kept
  {
    if d.opening != Fine {
      return Some(DeliveryError(Opening, false, d.opening));
    }
    if d.mail != Fine {
      return Some(DeliveryError(Mail, false, d.mail));
    }
    if d.recipient != Fine {
      return Some(DeliveryError(Recipient, false, d.recipient));
    }
    if d.data != Fine {
      return Some(DeliveryError(Data, false, d.data));
    }
    if d.write != Fine {
      return Some(DataError(Write, d.write));
    }
    if d.accept != Fine {
      return Some(DataError(Accept, d.accept));
    }
    return None;
  }

  /** Classification is exact: an outcome is uncertain precisely when the same replies are
      consistent with the message taken and with the message lost. */
  lemma UncertainIffUnknown(d: Dialogue)
    requires Consistent(d)
    ensures Uncertain(Outcome(d)) <==> Consistent(d.(kept := true)) && Consistent(d.(kept := false))
  {
  }

  /** A temporary error is a 4yz refusal, and a refused message was not taken. */
  lemma TemporaryMeansNotTaken(d: Dialogue)
    requires Consistent(d) && Temporary(Outcome(d))
    ensures !d.kept
    ensures exists r ::
        r in {d.opening, d.mail, d.recipient, d.data, d.write, d.accept} && r.Refused? && 400 <= r.code < 500
  {
    var e := Outcome(d).value;
    assert e.cause in {d.opening, d.mail, d.recipient, d.data, d.write, d.accept};
  }
}
