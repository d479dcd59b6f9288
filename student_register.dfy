/** Student sign-up (`StudentRegister`): the form state, the registration
    request, and the RA check that runs once the request has succeeded. */
module StudentRegister {
  import opened Js
  import opened Types
  import Api

  const NomeCompletoField := "nomeCompleto"
  const RaField := "ra"
  const SemestreField := "semestre"

  const InvalidRaError := "RA inválido, por favor verifique seu RA"
  const RegisterError := "Erro ao cadastrar aluno"

  /** The form as first rendered: the three fields, all empty. */
  const InitialForm: map<string, string> :=
    map[NomeCompletoField := "", RaField := "", SemestreField := ""]

  /** The three fields the form reads are always present. */
  predicate HasFields(form: map<string, string>)
  {
    NomeCompletoField in form && RaField in form && SemestreField in form
  }

  // ---------------------------------------------------------------------
  // The RA check

  /** `s[i] !== c` is false only when code unit `i` exists and is `c`; past
      the end `s[i]` is `undefined`, which differs from every character. */
  predicate CharIs(s: string, i: nat, c: char)
  {
    i < |Utf16(s)| && Utf16(s)[i] == c as int
  }

  /** The check as the handler writes it: the first three code units must
      be `2`, `1`, `1`, and `length`, which counts code units, must stay
      below seven. */
  predicate RaAccepted(ra: string)
  {
    !(!CharIs(ra, 0, '2') || !CharIs(ra, 1, '1') || !CharIs(ra, 2, '1'))
    && !(|Utf16(ra)| >= 7)
  }

  /** The first three code units are `211` exactly when the first three
      characters are. */
  lemma StartsWith211(ra: string)
    ensures CharIs(ra, 0, '2') && CharIs(ra, 1, '1') && CharIs(ra, 2, '1')
        <==> 3 <= |ra| && ra[..3] == "211"
  {
    var u := Utf16(ra);
    Utf16Head(ra, '2');
    if ra != [] && ra[0] == '2' {
      var r1 := ra[1..];
      Utf16Head(r1, '1');
      if r1 != [] && r1[0] == '1' {
        var r2 := r1[1..];
        Utf16Head(r2, '1');
        assert u[1..] == Utf16(r1) && Utf16(r1)[1..] == Utf16(r2);
        if 3 <= |ra| && ra[..3] == "211" {
          assert r2 != [] && r2[0] == ra[..3][2];
        }
        if r2 != [] && r2[0] == '1' {
          assert ra[..3] == [ra[0], r1[0], r2[0]];
        }
      } else {
        assert u[1..] == Utf16(r1);
        if 3 <= |ra| {
          assert ra[..3][1] == r1[0];
        }
      }
    } else if 3 <= |ra| {
      assert ra[..3][0] == ra[0];
    }
  }

  /** The accepted RAs are exactly those that start with `211` and are at
      most six code units long. */
  lemma RaAcceptedIff(ra: string)
    ensures RaAccepted(ra) <==> 3 <= |ra| && ra[..3] == "211" && |Utf16(ra)| <= 6
  {
    StartsWith211(ra);
  }

  /** For an RA with no character above U+FFFF, code units and characters
      agree: three to six characters starting with `211`. */
  lemma RaAcceptedPlain(ra: string)
    requires forall i :: 0 <= i < |ra| ==> ra[i] as int < 0x1_0000
    ensures RaAccepted(ra) <==> 3 <= |ra| <= 6 && ra[..3] == "211"
  {
    RaAcceptedIff(ra);
    Utf16Length(ra);
  }

  /** A character above U+FFFF counts twice towards the length limit: `211`
      followed by two emoji is five characters but seven code units. */
  lemma AstralCharactersCountTwice()
    ensures !RaAccepted("211\U{1F600}\U{1F600}")
  {
    var ra := "211\U{1F600}\U{1F600}";
    assert Utf16(ra[4..]) == CodeUnits(ra[4]);
    assert Utf16(ra[3..]) == CodeUnits(ra[3]) + Utf16(ra[4..]);
    assert Utf16(ra) == [ra[0] as int, ra[1] as int, ra[2] as int] + Utf16(ra[3..]);
  }

  // ---------------------------------------------------------------------
  // What a submit produces

  /** The request `handleSubmit` makes: the semester goes through `parseInt`,
      so an unchosen semester is sent as `NaN`. */
  function RegistrationRequest(form: map<string, string>): Api.Endpoint
    requires HasFields(form)
  {
    Api.CadastrarAluno(form[NomeCompletoField], form[RaField], ParseInt(form[SemestreField]))
  }

  datatype SubmitOutcome =
    | Failed(message: string)    // the request was rejected
    | RaRefused                  // the request succeeded, the RA check did not
    | Accepted(path: string)     // success screen, then navigation to `path`

  /** What `handleSubmit` ends in, for the RA in the form and the way the
      request settles. */
  function SubmitOutcomeOf(ra: string, reply: Settled<Aluno>): SubmitOutcome
  {
    match reply
    case Rejected(reason) => Failed(OrElse(MessageOf(reason), RegisterError))
    case Fulfilled(_) => if RaAccepted(ra) then Accepted("/aluno/" + ra) else RaRefused
  }

  /** A submit succeeds exactly when the request succeeded and the RA
      starts with `211` and is at most six code units long, and then leads to the
      student's page; it fails exactly when the request failed, always with
      a message, the server's when it sent a non-empty one. */
  lemma SubmitOutcomeMeaning(ra: string, reply: Settled<Aluno>)
    ensures var r := SubmitOutcomeOf(ra, reply);
      (r.Failed? <==> reply.Rejected?)
      && (r.Failed? ==> r.message != "" && (Truthy(MessageOf(reply.reason)) ==> r.message == MessageOf(reply.reason).value))
      && (r.Accepted? <==> reply.Fulfilled? && 3 <= |ra| && ra[..3] == "211" && |Utf16(ra)| <= 6)
      && (r.Accepted? ==> r.path == "/aluno/" + ra)
  {
    RaAcceptedIff(ra);
  }

  /** Every semester the select offers is sent as its number; a form
      submitted with no semester chosen sends `null` (`NaN` serialised). */
  lemma SemestreSent(form: map<string, string>, n: nat)
    requires HasFields(form)
    ensures 1 <= n <= 8 && form[SemestreField] == NatToString(n) ==>
      Api.Body(RegistrationRequest(form)) == Some(Api.JObject([
        ("nomeCompleto", Api.JString(form[NomeCompletoField])),
        ("ra", Api.JString(form[RaField])),
        ("semestre", Api.JNumber(n))]))
    ensures form[SemestreField] == "" ==>
      Api.Body(RegistrationRequest(form)) == Some(Api.JObject([
        ("nomeCompleto", Api.JString(form[NomeCompletoField])),
        ("ra", Api.JString(form[RaField])),
        ("semestre", Api.JNull)]))
  {
    ParseIntOfNumeral(n);
  }

  /** The RA is checked only after the registration succeeded: a refused RA
      has already been sent to the server, and a rejected request reports
      the server's message whatever the RA. */
  lemma RaCheckedAfterRegistration(ra: string, reply: Settled<Aluno>)
    requires !(3 <= |ra| && ra[..3] == "211" && |Utf16(ra)| <= 6)
    ensures reply.Fulfilled? ==> SubmitOutcomeOf(ra, reply) == RaRefused
    ensures reply.Rejected? ==> SubmitOutcomeOf(ra, reply) == Failed(OrElse(MessageOf(reply.reason), RegisterError))
  {
    RaAcceptedIff(ra);
  }

  // ---------------------------------------------------------------------
  // The component

  class StudentRegister {
    var formData: map<string, string>
    var loading: bool
    var error: string
    var success: bool
    /** The path the two-second timer will navigate to, once scheduled. */
    var scheduledNavigation: Option<string>
    var calls: seq<Api.Endpoint>

    constructor ()
      ensures formData == InitialForm && HasFields(formData)
      ensures !loading && error == "" && !success && scheduledNavigation == None && calls == []
    {
      formData := InitialForm;
      loading, error, success := false, "", false;
      scheduledNavigation, calls := None, [];
    }

    /** The success screen replaces the form once `success` is set. */
    predicate ShowsConfirmation()
      reads this
    {
      success
    }

    /** `handleInputChange`: one field changes and the error is cleared. */
    method HandleInputChange(field: string, value: string)
      modifies this`formData, this`error
      ensures formData == old(formData)[field := value] && error == ""
      ensures HasFields(old(formData)) ==> HasFields(formData)
    {
      formData := formData[field := value];
      error := "";
    }

    /** `handleSubmit`; `reply` is how `cadastrarAluno` settles. */
    method HandleSubmit(reply: Settled<Aluno>)
      requires HasFields(formData)
      modifies this
      ensures calls == old(calls) + [RegistrationRequest(old(formData))]
      ensures formData == old(formData) && !loading
      ensures var outcome := SubmitOutcomeOf(old(formData)[RaField], reply);
        (outcome.Failed? ==> error == outcome.message && success == old(success) && scheduledNavigation == old(scheduledNavigation))
        && (outcome.RaRefused? ==> error == InvalidRaError && success == old(success) && scheduledNavigation == old(scheduledNavigation))
        && (outcome.Accepted? ==> error == "" && success && scheduledNavigation == Some(outcome.path))
      ensures ShowsConfirmation() <==> old(ShowsConfirmation()) || SubmitOutcomeOf(old(formData)[RaField], reply).Accepted?
    {
      loading := true;
      error := "";
      calls := calls + [Api.CadastrarAluno(formData[NomeCompletoField], formData[RaField], ParseInt(formData[SemestreField]))];
      match reply {
        case Rejected(reason) =>
          error := OrElse(MessageOf(reason), RegisterError);
        case Fulfilled(_) =>
          var ra := formData[RaField];
          if !CharIs(ra, 0, '2') || !CharIs(ra, 1, '1') || !CharIs(ra, 2, '1') {
            error := InvalidRaError;
          } else if |Utf16(ra)| >= 7 {
            error := InvalidRaError;
          } else {
            success := true;
            scheduledNavigation := Some("/aluno/" + ra);
          }
      }
      loading := false;
    }
  }
}
