/** The HTTP gateway of the client (`apiService`): the request interceptor
    that attaches the bearer token from `localStorage`, the token write of
    `loginProfessor`, and how each method unwraps the response body. The
    transport and the server are not modelled: each call is given the way
    the server's answer settles. */
module Api {
  import opened Js
  import opened Types
  import opened WebStorage

  /** A JSON value as axios hands it over in `response.data` (numbers are integral here). */
  datatype Json =
    | JNull
    | JBool(b: bool)
    | JNumber(n: int)
    | JString(s: string)
    | JArray(elements: seq<Json>)
    | JObject(members: seq<(string, Json)>)

  /** What reading a property `data.key` yields. */
  datatype Property = Undefined | Defined(value: Json) | TypeError

  /** `data.key`: a property of `null` throws; an absent member, or a
      property of any other non-object, is `undefined`; the last member with
      the key wins. */
  function Get(data: Json, key: string): Property
  {
    match data
    case JNull => TypeError
    case JObject(ms) => LastMember(ms, key)
    case _ => Undefined
  }

  /** The value of the last member named `key`; reading a member never throws. */
  function LastMember(ms: seq<(string, Json)>, key: string): (r: Property)
    ensures !r.TypeError?
    ensures r.Defined? <==> exists i :: 0 <= i < |ms| && ms[i].0 == key
  {
    if ms == [] then Undefined
    else if ms[|ms| - 1].0 == key then Defined(ms[|ms| - 1].1)
    else
      var r := LastMember(ms[..|ms| - 1], key);
      assert forall i :: 0 <= i < |ms| - 1 ==> ms[..|ms| - 1][i] == ms[i];
      r
  }

  /** The value read is that of the last member with the key. */
  lemma {:induction false} LastMemberIsLast(ms: seq<(string, Json)>, key: string)
    ensures LastMember(ms, key).Defined? ==>
      exists i :: 0 <= i < |ms| && ms[i] == (key, LastMember(ms, key).value)
                  && forall j :: i < j < |ms| ==> ms[j].0 != key
  {
    if ms != [] && ms[|ms| - 1].0 != key {
      var init := ms[..|ms| - 1];
      LastMemberIsLast(init, key);
      if LastMember(ms, key).Defined? {
        var i :| 0 <= i < |init| && init[i] == (key, LastMember(init, key).value)
                 && forall j :: i < j < |init| ==> init[j].0 != key;
        assert ms[i] == init[i];
        assert forall j :: i < j < |ms| - 1 ==> ms[j] == init[j];
      }
    }
  }

  /** JavaScript truthiness of a JSON value. */
  predicate JsonTruthy(v: Json)
  {
    match v
    case JNull => false
    case JBool(b) => b
    case JNumber(n) => n != 0
    case JString(s) => s != ""
    case _ => true
  }

  /** `String(v)`, which `localStorage.setItem` applies to the value it stores. */
  function JsonToString(v: Json): string
  {
    match v
    case JNull => "null"
    case JBool(b) => if b then "true" else "false"
    case JNumber(n) => NumberToString(n)
    case JString(s) => s
    case JArray(es) => JoinElements(es)
    case JObject(_) => "[object Object]"
  }

  /** `Array.prototype.toString`: elements joined by commas, `null` as "". */
  function JoinElements(es: seq<Json>): string
    decreases es, 0
  {
    if es == [] then ""
    else
      var first := if es[0] == JNull then "" else JsonToString(es[0]);
      if |es| == 1 then first else first + "," + JoinElements(es[1..])
  }

  // ---------------------------------------------------------------------
  // The methods of apiService

  datatype Verb = GET | POST | PUT | PATCH | DELETE

  /** One method of `apiService` with its arguments. `resolverProblema`,
      which no view calls, is not part of this model. */
  datatype Endpoint =
    | GetStatus
    | CadastrarAluno(nomeCompleto: string, ra: string, semestre: Option<int>)
    | BuscarAlunoPorRa(aluno: string)
    | ObterRanking
    | LoginProfessor(nome: string, senha: string)
    | CadastrarProfessor(nome: string, senha: string)
    | ListarProblemas
    | ObterProblema(id: string)
    | CriarProblema(titulo: string, descricao: string, nivel: int)
    | ListarProblemasDoProfessor
    | AtualizarProblema(id: string, patch: Json)
    | DeletarProblema(id: string)
    | CriarSubmissao(challengeId: string, code: string, studentRa: Option<string>)
    | ListarSubmissoes(challenge: string)
    | AvaliarSubmissao(id: string, status: SubmissionStatus, feedback: Option<string>)

  function StatusText(s: SubmissionStatus): string
  {
    match s
    case StatusPending => "pending"
    case StatusApproved => "approved"
    case StatusRejected => "rejected"
  }

  /** The verb and path (relative to the base URL) each method requests. */
  function Route(ep: Endpoint): (Verb, string)
  {
    match ep
    case GetStatus => (GET, "/status")
    case CadastrarAluno(_, _, _) => (POST, "/alunos/cadastrar")
    case BuscarAlunoPorRa(ra) => (GET, "/alunos/buscar/" + ra)
    case ObterRanking => (GET, "/alunos/ranking")
    case LoginProfessor(_, _) => (POST, "/professores/login")
    case CadastrarProfessor(_, _) => (POST, "/professores/cadastrar")
    case ListarProblemas => (GET, "/problemas")
    case ObterProblema(id) => (GET, "/problemas/" + id)
    case CriarProblema(_, _, _) => (POST, "/problemas")
    case ListarProblemasDoProfessor => (GET, "/problemas/professor/meus")
    case AtualizarProblema(id, _) => (PUT, "/problemas/" + id)
    case DeletarProblema(id) => (DELETE, "/problemas/" + id)
    case CriarSubmissao(_, _, _) => (POST, "/submissoes")
    case ListarSubmissoes(id) => (GET, "/submissoes/" + id)
    case AvaliarSubmissao(id, _, _) => (PATCH, "/submissoes/" + id)
  }

  /** The JSON body each method sends; members that are `undefined` are
      omitted and `NaN` is written as `null`, as `JSON.stringify` does. */
  function Body(ep: Endpoint): Option<Json>
  {
    match ep
    case CadastrarAluno(nome, ra, semestre) =>
      Some(JObject([("nomeCompleto", JString(nome)), ("ra", JString(ra)),
                    ("semestre", if semestre.Some? then JNumber(semestre.value) else JNull)]))
    case LoginProfessor(nome, senha) => Some(JObject([("nome", JString(nome)), ("senha", JString(senha))]))
    case CadastrarProfessor(nome, senha) => Some(JObject([("nome", JString(nome)), ("senha", JString(senha))]))
    case CriarProblema(titulo, descricao, nivel) =>
      Some(JObject([("titulo", JString(titulo)), ("descricao", JString(descricao)), ("nivel", JNumber(nivel))]))
    case AtualizarProblema(_, patch) => Some(patch)
    case CriarSubmissao(challengeId, code, ra) =>
      // the members are listed in one fixed order; the callers' own order is not modelled
      Some(JObject([("challengeId", JString(challengeId)), ("code", JString(code))]
                   + (if ra.Some? then [("ra", JString(ra.value))] else [])))
    case AvaliarSubmissao(_, status, feedback) =>
      Some(JObject([("status", JString(StatusText(status)))]
                   + (if feedback.Some? then [("feedback", JString(feedback.value))] else [])))
    case _ => None
  }

  /** How a method turns `response.data` into its result. */
  datatype Unwrap =
    | WholeData              // `return response.data`
    | Field(key: string)     // `return response.data.key`
    | FieldOrData(key: string)  // `return response.data.key ?? response.data`
    | NoValue                // `await api.delete(...)`, resolving to undefined

  function UnwrapRule(ep: Endpoint): Unwrap
  {
    match ep
    case CadastrarAluno(_, _, _) => Field("aluno")
    case CriarProblema(_, _, _) => Field("problema")
    case AtualizarProblema(_, _) => Field("problema")
    case CriarSubmissao(_, _, _) => FieldOrData("submission")
    case AvaliarSubmissao(_, _, _) => FieldOrData("submission")
    case ListarSubmissoes(_) => FieldOrData("submissions")
    case DeletarProblema(_) => NoValue
    case _ => WholeData
  }

  /** A value the promise resolves to; `None` is `undefined`. */
  type Resolved = Option<Json>

  /** The rejection a `TypeError` thrown inside the method produces: it carries no response. */
  const Thrown := Rejection(None)

  function ApplyUnwrap(rule: Unwrap, data: Json): Settled<Resolved>
  {
    match rule
    case WholeData => Fulfilled(Some(data))
    case NoValue => Fulfilled(None)
    case Field(key) =>
      (match Get(data, key)
       case TypeError => Rejected(Thrown)
       case Undefined => Fulfilled(None)
       case Defined(v) => Fulfilled(Some(v)))
    case FieldOrData(key) =>
      (match Get(data, key)
       case TypeError => Rejected(Thrown)
       case Undefined => Fulfilled(Some(data))
       case Defined(v) => Fulfilled(Some(if v == JNull then data else v)))
  }

  /** How a method's promise settles, given how the HTTP request settled. */
  function Outcome(ep: Endpoint, reply: Settled<Json>): Settled<Resolved>
  {
    match reply
    case Rejected(r) => Rejected(r)
    case Fulfilled(data) =>
      if ep.LoginProfessor? && data == JNull then Rejected(Thrown)   // `response.data.token` throws
      else ApplyUnwrap(UnwrapRule(ep), data)
  }

  // ---------------------------------------------------------------------
  // Interceptor and token write

  const TokenKey := "token"
  const DefaultHeaders: map<string, string> := map["Content-Type" := "application/json"]

  /** The headers after the request interceptor ran over `items`. */
  function Intercepted(headers: map<string, string>, items: map<string, string>): map<string, string>
  {
    if TokenKey in items && items[TokenKey] != "" then
      headers["Authorization" := "Bearer " + items[TokenKey]]
    else headers
  }

  /** The storage after `loginProfessor`'s answer was handled. */
  function AfterReply(ep: Endpoint, items: map<string, string>, reply: Settled<Json>): map<string, string>
  {
    if ep.LoginProfessor? && reply.Fulfilled? then
      match Get(reply.value, "token")
      case Defined(v) => if JsonTruthy(v) then items[TokenKey := JsonToString(v)] else items
      case _ => items
    else items
  }

  /** One request as it leaves the client. */
  datatype Request = Request(verb: Verb, path: string, body: Option<Json>, headers: map<string, string>)

  function RequestFor(ep: Endpoint, items: map<string, string>): Request
  {
    Request(Route(ep).0, Route(ep).1, Body(ep), Intercepted(DefaultHeaders, items))
  }

  /** The axios instance together with the log of requests it has sent. */
  class ApiClient {
    const storage: LocalStorage
    var sent: seq<Request>

    constructor (storage: LocalStorage)
      ensures this.storage == storage && sent == []
    {
      this.storage := storage;
      sent := [];
    }

    /** Runs the request interceptor over a fresh config: `Authorization`
        is set from `localStorage.token` when that is a non-empty string. */
    method Intercept() returns (headers: map<string, string>)
      ensures headers == Intercepted(DefaultHeaders, storage.items)
    {
      headers := DefaultHeaders;
      var token := storage.GetItem(TokenKey);
      if token.Some? && token.value != "" {
        headers := headers["Authorization" := "Bearer " + token.value];
      }
    }

    /** Calls one method of `apiService`; `reply` is how the HTTP request settles. */
    method Call(ep: Endpoint, reply: Settled<Json>) returns (result: Settled<Resolved>)
      modifies this, storage
      ensures sent == old(sent) + [RequestFor(ep, old(storage.items))]
      ensures result == Outcome(ep, reply)
      ensures storage.items == AfterReply(ep, old(storage.items), reply)
    {
      var headers := Intercept();
      sent := sent + [Request(Route(ep).0, Route(ep).1, Body(ep), headers)];
      match reply
      case Rejected(r) =>
        result := Rejected(r);
      case Fulfilled(data) =>
        if ep.LoginProfessor? {
          var token := Get(data, "token");
          if token.TypeError? {
            result := Rejected(Thrown);
            return;
          }
          if token.Defined? && JsonTruthy(token.value) {
            storage.SetItem(TokenKey, JsonToString(token.value));
          }
        }
        result := ApplyUnwrap(UnwrapRule(ep), data);
    }
  }

  // ---------------------------------------------------------------------
  // Properties

  /** The interceptor sets `Authorization` to the bearer form of the stored
      token exactly when `token` holds a non-empty string, and otherwise
      passes the headers through unchanged. */
  lemma InterceptorBearer(headers: map<string, string>, items: map<string, string>)
    requires "Authorization" !in headers
    ensures var h := Intercepted(headers, items);
      ("Authorization" in h <==> TokenKey in items && items[TokenKey] != "")
      && ("Authorization" in h ==> h["Authorization"] == "Bearer " + items[TokenKey])
      && ("Authorization" !in h ==> h == headers)
      && (forall k :: k in headers ==> k in h && h[k] == headers[k])
  {
  }

  /** The interceptor only looks at the `token` key. */
  lemma InterceptorReadsOnlyToken(headers: map<string, string>, a: map<string, string>, b: map<string, string>)
    requires (TokenKey in a <==> TokenKey in b) && (TokenKey in a ==> a[TokenKey] == b[TokenKey])
    ensures Intercepted(headers, a) == Intercepted(headers, b)
  {
  }

  /** `loginProfessor` stores the token exactly when the answer carries a
      truthy `token`, and no method writes any other key. */
  lemma LoginTokenWrite(ep: Endpoint, items: map<string, string>, reply: Settled<Json>)
    ensures var after := AfterReply(ep, items, reply);
      (forall k :: k != TokenKey ==> (k in after <==> k in items) && (k in items ==> after[k] == items[k]))
      && (after != items ==> ep.LoginProfessor? && reply.Fulfilled?)
      && (ep.LoginProfessor? && reply.Fulfilled? && reply.value.JObject? ==>
            match LastMember(reply.value.members, "token")
            case Defined(JString(t)) => after == (if t != "" then items[TokenKey := t] else items)
            case Defined(v) => after == (if JsonTruthy(v) then items[TokenKey := JsonToString(v)] else items)
            case _ => after == items)
      && (ep.LoginProfessor? && reply.Fulfilled? && !reply.value.JObject? ==> after == items)
  {
  }

  /** Creating and evaluating a submission resolve to `data.submission`
      unless that is `null` or `undefined`, in which case to `data` itself;
      listing resolves to `data.submissions` by the same rule, so a bare
      array body is listed as it is. Falsy values such as "" or 0 are kept,
      since `??` is not `||`. A `null` body throws when the member is read. */
  lemma SubmissionUnwrap(ep: Endpoint, data: Json)
    requires ep.CriarSubmissao? || ep.AvaliarSubmissao? || ep.ListarSubmissoes?
    ensures data == JNull ==> Outcome(ep, Fulfilled(data)) == Rejected(Thrown)
    ensures data.JArray? ==> Outcome(ep, Fulfilled(data)) == Fulfilled(Some(data))
    ensures var key := if ep.ListarSubmissoes? then "submissions" else "submission";
      data != JNull ==>
        Outcome(ep, Fulfilled(data)) ==
          match Get(data, key)
          case Defined(v) => Fulfilled(Some(if v == JNull then data else v))
          case _ => Fulfilled(Some(data))
  {
    var key := if ep.ListarSubmissoes? then "submissions" else "submission";
    assert UnwrapRule(ep) == FieldOrData(key);
  }

  /** `cadastrarAluno` resolves to `data.aluno`, `criarProblema` and
      `atualizarProblema` to `data.problema` (`undefined` when absent, a
      rejection when the body is `null`), `deletarProblema` to `undefined`,
      and every other method to `data` itself. */
  lemma OtherUnwraps(ep: Endpoint, data: Json)
    requires !(ep.CriarSubmissao? || ep.AvaliarSubmissao? || ep.ListarSubmissoes?)
    ensures ep.CadastrarAluno? || ep.CriarProblema? || ep.AtualizarProblema? ==>
      var key := if ep.CadastrarAluno? then "aluno" else "problema";
      Outcome(ep, Fulfilled(data)) ==
        match Get(data, key)
        case TypeError => Rejected(Thrown)
        case Undefined => Fulfilled(None)
        case Defined(v) => Fulfilled(Some(v))
    ensures ep.DeletarProblema? ==> Outcome(ep, Fulfilled(data)) == Fulfilled(None)
    ensures (!(ep.CadastrarAluno? || ep.CriarProblema? || ep.AtualizarProblema? || ep.DeletarProblema?)
             && !(ep.LoginProfessor? && data == JNull)) ==>
      Outcome(ep, Fulfilled(data)) == Fulfilled(Some(data))
  {
  }

  /** A rejected request rejects every method with the same reason. */
  lemma RejectionPropagates(ep: Endpoint, r: Rejection, items: map<string, string>)
    ensures Outcome(ep, Rejected(r)) == Rejected(r)
    ensures AfterReply(ep, items, Rejected(r)) == items
  {
  }
}
