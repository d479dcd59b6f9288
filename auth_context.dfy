/** The session store (`AuthProvider`): the teacher held in memory and the
    two `localStorage` keys it persists, `professor` (a JSON blob of the
    teacher's `_id` and `nome`) and `professorToken`. */
module AuthContext {
  import opened Js
  import opened Types
  import opened WebStorage
  import JsonText

  const ProfessorKey := "professor"
  const ProfessorTokenKey := "professorToken"

  /** The object `login` serialises: only `_id` and `nome`; members that are
      `undefined` are dropped by `JSON.stringify`. */
  function BlobMembers(p: Professor): seq<JsonText.Member>
  {
    (if p.id.Some? then [("_id", p.id.value)] else [])
    + (if p.nome.Some? then [("nome", p.nome.value)] else [])
  }

  function ProfessorBlob(p: Professor): string
  {
    JsonText.Stringify(BlobMembers(p))
  }

  /** The storage after `login(p)`. */
  function LoginItems(items: map<string, string>, p: Professor): map<string, string>
  {
    var withBlob := items[ProfessorKey := ProfessorBlob(p)];
    if Truthy(p.token) then withBlob[ProfessorTokenKey := p.token.value] else withBlob
  }

  /** The storage after `logout()`. */
  function LogoutItems(items: map<string, string>): map<string, string>
  {
    items - {ProfessorKey, ProfessorTokenKey}
  }

  /** What the start-up effect finds in storage. */
  datatype RestoreOutcome =
    | NothingSaved               // a key is missing or empty: nothing happens
    | Restored(professor: Professor)  // `{...JSON.parse(blob), token: savedToken}`
    | Corrupt                    // `JSON.parse` threw: both keys are removed

  function RestoreOutcomeOf(items: map<string, string>): RestoreOutcome
  {
    if !(Truthy(ItemOf(items, ProfessorKey)) && Truthy(ItemOf(items, ProfessorTokenKey))) then NothingSaved
    else
      match JsonText.Parse(items[ProfessorKey])
      case None => Corrupt
      case Some(ms) =>
        Restored(Professor(JsonText.Lookup(ms, "_id"), JsonText.Lookup(ms, "nome"), Some(items[ProfessorTokenKey])))
  }

  class AuthProvider {
    const storage: LocalStorage
    var professor: Option<Professor>

    /** The provider as first rendered: no teacher in memory. */
    constructor (storage: LocalStorage)
      ensures this.storage == storage && professor == None
    {
      this.storage := storage;
      professor := None;
    }

    /** `isAuthenticated`: `!!professor`, and any object is truthy. */
    function IsAuthenticated(): bool
      reads this
    {
      professor.Some?
    }

    /** The mount effect that reloads a persisted session. */
    method Restore()
      modifies this, storage
      ensures match RestoreOutcomeOf(old(storage.items))
        case NothingSaved => professor == old(professor) && storage.items == old(storage.items)
        case Restored(p) => professor == Some(p) && storage.items == old(storage.items)
        case Corrupt => professor == old(professor) && storage.items == LogoutItems(old(storage.items))
    {
      var savedProfessor := storage.GetItem(ProfessorKey);
      var savedToken := storage.GetItem(ProfessorTokenKey);
      if Truthy(savedProfessor) && Truthy(savedToken) {
        var parsed := JsonText.Parse(savedProfessor.value);
        if parsed.Some? {
          var ms := parsed.value;
          professor := Some(Professor(JsonText.Lookup(ms, "_id"), JsonText.Lookup(ms, "nome"), Some(savedToken.value)));
        } else {
          storage.RemoveItem(ProfessorKey);
          storage.RemoveItem(ProfessorTokenKey);
        }
      }
    }

    method Login(p: Professor)
      modifies this, storage
      ensures professor == Some(p) && IsAuthenticated()
      ensures storage.items == LoginItems(old(storage.items), p)
    {
      professor := Some(p);
      storage.SetItem(ProfessorKey, ProfessorBlob(p));
      if Truthy(p.token) {
        storage.SetItem(ProfessorTokenKey, p.token.value);
      }
    }

    method Logout()
      modifies this, storage
      ensures professor == None && !IsAuthenticated()
      ensures storage.items == LogoutItems(old(storage.items))
    {
      professor := None;
      storage.RemoveItem(ProfessorKey);
      storage.RemoveItem(ProfessorTokenKey);
    }
  }

  // ---------------------------------------------------------------------
  // Properties

  /** The persisted blob parses back to exactly `_id` and `nome`: the token
      is never part of it. */
  lemma BlobHoldsIdentityOnly(p: Professor)
    ensures JsonText.Parse(ProfessorBlob(p)) == Some(BlobMembers(p))
    ensures JsonText.Lookup(BlobMembers(p), "_id") == p.id
    ensures JsonText.Lookup(BlobMembers(p), "nome") == p.nome
    ensures JsonText.Lookup(BlobMembers(p), "token") == None
  {
    JsonText.ParseStringify(BlobMembers(p));
  }

  /** `login` writes the blob, writes `professorToken` only for a truthy
      token (otherwise an earlier value stays), and leaves every other key
      as it was. */
  lemma LoginWrites(items: map<string, string>, p: Professor)
    ensures var after := LoginItems(items, p);
      after[ProfessorKey] == ProfessorBlob(p)
      && (Truthy(p.token) ==> after[ProfessorTokenKey] == p.token.value)
      && (!Truthy(p.token) ==> (ProfessorTokenKey in after <==> ProfessorTokenKey in items)
                               && (ProfessorTokenKey in items ==> after[ProfessorTokenKey] == items[ProfessorTokenKey]))
      && (forall k :: k != ProfessorKey && k != ProfessorTokenKey ==>
            (k in after <==> k in items) && (k in items ==> after[k] == items[k]))
  {
  }

  /** `logout` leaves neither key, whatever was stored, touches no other key,
      and a second `logout` changes nothing. */
  lemma LogoutClears(items: map<string, string>)
    ensures ProfessorKey !in LogoutItems(items) && ProfessorTokenKey !in LogoutItems(items)
    ensures forall k :: k != ProfessorKey && k != ProfessorTokenKey ==>
      (k in LogoutItems(items) <==> k in items) && (k in items ==> LogoutItems(items)[k] == items[k])
    ensures LogoutItems(LogoutItems(items)) == LogoutItems(items)
    ensures RestoreOutcomeOf(LogoutItems(items)) == NothingSaved
  {
  }

  /** Round trip: after `login` with a truthy token, a restart restores the
      same `_id`, `nome` and token. */
  lemma LoginThenRestore(items: map<string, string>, p: Professor)
    requires Truthy(p.token)
    ensures RestoreOutcomeOf(LoginItems(items, p)) == Restored(p)
  {
    BlobHoldsIdentityOnly(p);
    var after := LoginItems(items, p);
    assert after[ProfessorKey] == ProfessorBlob(p);
    assert ProfessorBlob(p) != "";
  }

  /** `login` with no token keeps an earlier `professorToken`, so a restart
      restores the new teacher with the previous teacher's token. */
  lemma LoginWithoutTokenRestoresOldToken(items: map<string, string>, p: Professor)
    requires !Truthy(p.token)
    requires ProfessorTokenKey in items && items[ProfessorTokenKey] != ""
    ensures RestoreOutcomeOf(LoginItems(items, p))
         == Restored(p.(token := Some(items[ProfessorTokenKey])))
  {
    BlobHoldsIdentityOnly(p);
    assert ProfessorBlob(p) != "";
  }

  /** A blob that does not parse is discarded together with the token, so
      the next start finds nothing to restore. */
  lemma CorruptRestoreClears(items: map<string, string>)
    requires RestoreOutcomeOf(items) == Corrupt
    ensures ProfessorKey in items && JsonText.Parse(items[ProfessorKey]) == None
    ensures RestoreOutcomeOf(LogoutItems(items)) == NothingSaved
  {
  }

  /** Restore acts only when both keys hold non-empty strings. */
  lemma RestoreNeedsBothKeys(items: map<string, string>)
    ensures RestoreOutcomeOf(items) != NothingSaved <==>
      ProfessorKey in items && items[ProfessorKey] != ""
      && ProfessorTokenKey in items && items[ProfessorTokenKey] != ""
  {
  }
}
