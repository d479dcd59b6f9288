/** The standalone solution form (`ProblemSubmitter`): an RA and a code
    field, a guard against blank input, and the submission request. */
module ProblemSubmitter {
  import opened Js
  import opened Types
  import Api

  const BlankInputError := "Informe RA e o código."
  const SentMessage := "Submissão enviada com sucesso!"
  const SendError := "Falha ao enviar a solução."

  /** `!s.trim()`: the string is empty once white space is trimmed. */
  predicate Blank(s: string)
  {
    Trim(s) == ""
  }

  /** The guard lets a submit through exactly when both fields contain
      something other than white space. */
  lemma GuardIff(ra: string, code: string)
    ensures !(Blank(ra) || Blank(code)) <==> !AllWhitespace(ra) && !AllWhitespace(code)
  {
    TrimEmptyIff(ra);
    TrimEmptyIff(code);
  }

  datatype SubmitOutcome =
    | Refused                    // a field is blank: no request
    | Sent                       // the request succeeded
    | Failed(message: string)    // the request was rejected

  /** What `handleSubmit` ends in, for the two fields and the way the
      request settles. */
  function SubmitOutcomeOf(ra: string, code: string, reply: Settled<Submission>): SubmitOutcome
  {
    if Blank(ra) || Blank(code) then Refused
    else match reply
      case Fulfilled(_) => Sent
      case Rejected(reason) => Failed(Coalesce(ErrorFieldOf(reason), SendError))
  }

  /** A submit is refused exactly when a field is all white space, and sent
      exactly when it passed that guard and the request succeeded. A failure
      shows the server's `error` whenever there is one, even "", since `??`
      only replaces `null` and `undefined`, and the default text otherwise. */
  lemma SubmitOutcomeMeaning(ra: string, code: string, reply: Settled<Submission>)
    ensures var r := SubmitOutcomeOf(ra, code, reply);
      (r.Refused? <==> AllWhitespace(ra) || AllWhitespace(code))
      && (r.Sent? <==> !r.Refused? && reply.Fulfilled?)
      && (r.Failed? ==> (reply.Rejected?
            && (ErrorFieldOf(reply.reason).Some? ==> r.message == ErrorFieldOf(reply.reason).value)
            && (ErrorFieldOf(reply.reason).None? ==> r.message == SendError)))
  {
    GuardIff(ra, code);
  }

  /** A server answer whose `error` is the empty string leaves `err` empty:
      the submit fails with no message on screen. */
  lemma EmptyServerErrorIsSilent(ra: string, code: string)
    requires !AllWhitespace(ra) && !AllWhitespace(code)
    ensures SubmitOutcomeOf(ra, code, Rejected(Rejection(Some(ErrorBody(None, Some(""))))))
         == Failed("")
  {
    GuardIff(ra, code);
  }

  class ProblemSubmitter {
    /** `problema._id`, fixed by the parent. */
    const problemaId: string
    var ra: string
    var code: string
    var loading: bool
    var ok: string
    var err: string
    var calls: seq<Api.Endpoint>

    constructor (problema: Problema)
      ensures problemaId == problema.id && ra == "" && code == "" && !loading && ok == "" && err == "" && calls == []
    {
      problemaId := problema.id;
      ra, code, loading, ok, err, calls := "", "", false, "", "", [];
    }

    /** The submit button is disabled while a request is in flight. */
    predicate SubmitEnabled()
      reads this
    {
      !loading
    }

    method SetRa(value: string)
      modifies this`ra
      ensures ra == value
    {
      ra := value;
    }

    method SetCode(value: string)
      modifies this`code
      ensures code == value
    {
      code := value;
    }

    /** `handleSubmit`; `reply` is how `criarSubmissao` settles. The request
        carries the fields untrimmed. */
    method HandleSubmit(reply: Settled<Submission>)
      modifies this
      ensures ra == old(ra)
      ensures old(SubmitEnabled()) ==> SubmitEnabled()
      ensures match SubmitOutcomeOf(old(ra), old(code), reply)
        case Refused =>
          err == BlankInputError && ok == "" && calls == old(calls)
          && code == old(code) && loading == old(loading)
        case Sent =>
          ok == SentMessage && err == "" && code == "" && !loading
          && calls == old(calls) + [Api.CriarSubmissao(problemaId, old(code), Some(old(ra)))]
        case Failed(m) =>
          err == m && ok == "" && code == old(code) && !loading
          && calls == old(calls) + [Api.CriarSubmissao(problemaId, old(code), Some(old(ra)))]
    {
      ok, err := "", "";
      if Blank(ra) || Blank(code) {
        err := BlankInputError;
        return;
      }
      loading := true;
      calls := calls + [Api.CriarSubmissao(problemaId, code, Some(ra))];
      match reply {
        case Fulfilled(_) =>
          ok := SentMessage;
          code := "";
        case Rejected(reason) =>
          err := Coalesce(ErrorFieldOf(reason), SendError);
      }
      loading := false;
    }
  }
}
