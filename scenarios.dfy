/** How the session store and the HTTP gateway meet: the teacher login
    sequence (`loginProfessor`, then `login`) over one shared
    `localStorage`, and what `logout` leaves behind for the interceptor.
    The two files keep the token under different keys, `token` (written by
    the gateway) and `professorToken` (written by the session store). */
module Scenarios {
  import opened Js
  import opened Types
  import opened WebStorage
  import Api
  import AuthContext

  const LoginError := "Erro ao fazer login"

  /** `data.key` read as a string; members that are missing or not strings
      read as absent. */
  function StringMember(data: Api.Json, key: string): Option<string>
  {
    match Api.Get(data, key)
    case Defined(v) => if v.JString? then Some(v.s) else None
    case _ => None
  }

  /** The teacher `loginProfessor` resolves to: the answer body itself. */
  function ProfessorOf(data: Api.Json): Professor
  {
    Professor(StringMember(data, "_id"), StringMember(data, "nome"), StringMember(data, "token"))
  }

  /** The teacher a login reply signs in, if it signs one in. */
  function SignedIn(reply: Settled<Api.Json>): Option<Professor>
  {
    match reply
    case Fulfilled(data) => if data == Api.JNull then None else Some(ProfessorOf(data))
    case Rejected(_) => None
  }

  /** A teacher is signed in exactly when the `loginProfessor` promise
      resolves, and it is the teacher read from what it resolves to: a null
      body makes the gateway's `response.data.token` throw, and a rejection
      propagates. */
  lemma SignedInIffResolved(nome: string, senha: string, reply: Settled<Api.Json>)
    ensures var outcome := Api.Outcome(Api.LoginProfessor(nome, senha), reply);
      (SignedIn(reply).Some? <==> outcome.Fulfilled?)
      && (outcome.Fulfilled? ==> outcome.value.Some? && SignedIn(reply) == Some(ProfessorOf(outcome.value.value)))
  {
    assert Api.UnwrapRule(Api.LoginProfessor(nome, senha)) == Api.WholeData;
  }

  /** The storage after the login form was submitted with the given reply. */
  function TeacherLoginItems(items: map<string, string>, nome: string, senha: string, reply: Settled<Api.Json>): map<string, string>
  {
    var afterApi := Api.AfterReply(Api.LoginProfessor(nome, senha), items, reply);
    match SignedIn(reply)
    case Some(p) => AuthContext.LoginItems(afterApi, p)
    case None => afterApi
  }

  /** `TeacherLogin.handleSubmit`: `loginProfessor`, then `login` with what
      it resolves to, then navigation to the dashboard; a failure shows the
      server's message or the default. */
  method TeacherLoginSubmit(client: Api.ApiClient, auth: AuthContext.AuthProvider,
                            nome: string, senha: string, reply: Settled<Api.Json>)
    returns (error: string, navigated: bool)
    requires client.storage == auth.storage
    modifies client, auth, client.storage
    ensures client.storage.items == TeacherLoginItems(old(client.storage.items), nome, senha, reply)
    ensures navigated <==> SignedIn(reply).Some?
    ensures navigated ==> auth.professor == SignedIn(reply) && error == ""
    ensures !navigated ==> auth.professor == old(auth.professor) && error != ""
    ensures reply.Rejected? ==> error == OrElse(MessageOf(reply.reason), LoginError)
  {
    error, navigated := "", false;
    var result := client.Call(Api.LoginProfessor(nome, senha), reply);
    match result {
      case Fulfilled(Some(data)) =>
        auth.Login(ProfessorOf(data));
        navigated := true;
      case Fulfilled(None) =>
        // `loginProfessor` resolves to the body itself, never to `undefined`
        error := LoginError;
      case Rejected(reason) =>
        error := OrElse(MessageOf(reason), LoginError);
    }
  }

  // ---------------------------------------------------------------------
  // Properties

  /** `logout` removes neither `token` nor anything the interceptor reads,
      so the headers of later requests are exactly those before it. */
  lemma LogoutKeepsBearer(headers: map<string, string>, items: map<string, string>)
    ensures Api.Intercepted(headers, AuthContext.LogoutItems(items)) == Api.Intercepted(headers, items)
  {
    var after := AuthContext.LogoutItems(items);
    assert Api.TokenKey in after <==> Api.TokenKey in items;
    Api.InterceptorReadsOnlyToken(headers, after, items);
  }

  /** A successful login with a non-empty string token stores it under both
      keys, and a restart restores the signed-in teacher. */
  lemma LoginStoresTokenTwice(items: map<string, string>, nome: string, senha: string,
                              ms: seq<(string, Api.Json)>, t: string)
    requires Api.LastMember(ms, "token") == Api.Defined(Api.JString(t)) && t != ""
    ensures var after := TeacherLoginItems(items, nome, senha, Fulfilled(Api.JObject(ms)));
      Api.TokenKey in after && after[Api.TokenKey] == t
      && AuthContext.ProfessorTokenKey in after && after[AuthContext.ProfessorTokenKey] == t
      && AuthContext.RestoreOutcomeOf(after) == AuthContext.Restored(ProfessorOf(Api.JObject(ms)))
  {
    var data := Api.JObject(ms);
    assert Api.Get(data, "token") == Api.Defined(Api.JString(t));
    var p := ProfessorOf(data);
    assert p.token == Some(t);
    var afterApi := Api.AfterReply(Api.LoginProfessor(nome, senha), items, Fulfilled(data));
    assert afterApi == items[Api.TokenKey := t];
    assert SignedIn(Fulfilled(data)) == Some(p);
    var after := AuthContext.LoginItems(afterApi, p);
    assert TeacherLoginItems(items, nome, senha, Fulfilled(data)) == after;
    AuthContext.LoginWrites(afterApi, p);
    assert Api.TokenKey != AuthContext.ProfessorKey && Api.TokenKey != AuthContext.ProfessorTokenKey;
    AuthContext.LoginThenRestore(afterApi, p);
  }

  /** Login, then logout: the session is gone, but the gateway's `token`
      survives and every later request still carries `Bearer` and it. */
  lemma BearerSurvivesLogout(items: map<string, string>, nome: string, senha: string,
                             ms: seq<(string, Api.Json)>, t: string)
    requires Api.LastMember(ms, "token") == Api.Defined(Api.JString(t)) && t != ""
    ensures var after := AuthContext.LogoutItems(TeacherLoginItems(items, nome, senha, Fulfilled(Api.JObject(ms))));
      AuthContext.RestoreOutcomeOf(after) == AuthContext.NothingSaved
      && Api.Intercepted(Api.DefaultHeaders, after) == Api.DefaultHeaders["Authorization" := "Bearer " + t]
  {
    var loggedIn := TeacherLoginItems(items, nome, senha, Fulfilled(Api.JObject(ms)));
    LoginStoresTokenTwice(items, nome, senha, ms, t);
    LogoutKeepsBearer(Api.DefaultHeaders, loggedIn);
    AuthContext.LogoutClears(loggedIn);
  }

  /** A failed login writes nothing and signs nobody in. */
  lemma FailedLoginWritesNothing(items: map<string, string>, nome: string, senha: string, r: Rejection)
    ensures TeacherLoginItems(items, nome, senha, Rejected(r)) == items
    ensures SignedIn(Rejected(r)) == None
  {
    Api.RejectionPropagates(Api.LoginProfessor(nome, senha), r, items);
  }
}
