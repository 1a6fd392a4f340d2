// The authentication server actions: sign-in, citizen sign-up, sign-out,
// password recovery and reset, and the three admin operations on municipal
// staff accounts. As for the event actions, a pure function computes each
// action's answer and the provider and profile state after it, and the
// method that performs the action on the store is proved to agree with it.

module AuthActions {

  import opened Optional
  import opened Types
  import opened Seqs
  import opened Db
  import Text

  /** The { success, error } answer of an action, or the redirect it ends with. */
  datatype AuthResult = Success(notice: Option<string>) | Failure(error: string) | Redirect(target: string)
                      | TypeError

  const MissingCredentials := "Email e password sono obbligatori"
  const InvalidCredentials := "Credenziali non valide"
  const AccountDisabled := "Account disattivato. Contatta l'amministratore."
  const AllFieldsRequired := "Tutti i campi sono obbligatori"
  const PasswordMismatch := "Le password non coincidono"
  const PasswordTooShort := "La password deve essere di almeno 6 caratteri"
  const EmailTaken := "Email gi\U{E0} registrata"
  const RegistrationFailed := "Errore durante la registrazione"
  const ProfileFailed := "Errore durante la creazione del profilo"
  const RegistrationDone := "Registrazione completata! Controlla la tua email per confermare l'account."
  const EmailRequired := "Email obbligatoria"
  const RecoveryFailed := "Errore durante l'invio dell'email"
  const RecoverySent := "Email di recupero inviata! Controlla la tua casella di posta."
  const ResetFailed := "Errore durante il reset della password"
  const NotAuthorized := "Non autorizzato"
  const OnlyAdminCreate := "Solo gli admin possono creare utenti comunali"
  const CreateUserFailed := "Errore durante la creazione dell'utente"
  const OnlyAdminUpdate := "Solo gli admin possono modificare utenti comunali"
  const UpdateFailed := "Errore durante l'aggiornamento"
  const OnlyAdminDelete := "Solo gli admin possono eliminare utenti comunali"
  const DeleteUserFailed := "Errore durante l'eliminazione"

  /** The shortest password the sign-up and reset forms accept. */
  const MinPasswordLength := 6

  // ---------------------------------------------------------------------
  // The identity provider
  // ---------------------------------------------------------------------

  /** The provider's error for an identifier it already holds. */
  const DuplicateIdMessage := "Database error saving new user"

  /** What the provider keeps: one identity per key and one per address. */
  predicate IdentitiesValid(identities: seq<Identity>)
  {
    forall i, j :: 0 <= i < j < |identities| ==>
      identities[i].id != identities[j].id && identities[i].email != identities[j].email
  }

  /** The identity registered under an address, the first when several are. */
  function FindIdentity(identities: seq<Identity>, email: string): (r: Option<Identity>)
    ensures r.Some? ==> r.value in identities && r.value.email == email
    ensures r.None? <==> EmailFree(identities, email)
  {
    if identities == [] then None
    else if identities[0].email == email then Some(identities[0])
    else FindIdentity(identities[1..], email)
  }

  /** signInWithPassword: the key of a confirmed identity with this address and password. */
  function Authenticate(identities: seq<Identity>, email: string, password: string): (r: Option<Id>)
    ensures r.Some? ==> exists i :: (0 <= i < |identities| && identities[i].id == r.value
      && identities[i].email == email && identities[i].password == password && identities[i].confirmed)
  {
    match FindIdentity(identities, email)
    case None => None
    case Some(ident) =>
      if ident.password == password && ident.confirmed then Some(ident.id) else None
  }

  /** The provider's answer to creating an identity: the identity, or the message of its error. */
  datatype ProviderAnswer = Issued(identity: Identity) | Refused(message: string)

  /**
   * signUp and admin.createUser: refused with the given message when the
   * provider fails on its own, with `taken` (the provider's wording, which
   * each call may word differently) for an address it already holds;
   * otherwise a new identity, confirmed or not.
   */
  function ProviderCreate(identities: seq<Identity>, email: string, password: string, newId: Id,
                          confirmed: bool, providerError: Option<string>, taken: string): (r: ProviderAnswer)
    ensures r.Issued? ==> (r.identity == Identity(newId, email, password, confirmed)
      && EmailFree(identities, email) && IdentityFree(identities, newId))
    ensures r.Issued? <==> providerError.None? && EmailFree(identities, email) && IdentityFree(identities, newId)
    ensures providerError.None? && !EmailFree(identities, email) ==> r == Refused(taken)
  {
    if providerError.Some? then Refused(providerError.value)
    else if !EmailFree(identities, email) then Refused(taken)
    else if !IdentityFree(identities, newId) then Refused(DuplicateIdMessage)
    else Issued(Identity(newId, email, password, confirmed))
  }

  /** The error text the two sign-up actions show for a provider error. */
  function ProviderErrorText(message: string, fallback: string): string
  {
    if Text.Contains(message, "already registered") then EmailTaken else fallback
  }

  /** A new profile row: the column defaults, active, with both notification channels on. */
  function NewProfile(id: Id, email: string, nome: string, cognome: string, role: Role): User
  {
    User(id, email, nome, cognome, role, true, true, true, None)
  }

  /** The profile insert: refused on a store failure or a key already present. */
  function InsertProfile(users: map<Id, User>, profile: User, storeFails: bool): (r: Option<map<Id, User>>)
    ensures r.Some? ==> profile.id !in users && r.value == users[profile.id := profile]
  {
    if storeFails || profile.id in users then None else Some(users[profile.id := profile])
  }

  // ---------------------------------------------------------------------
  // login
  // ---------------------------------------------------------------------

  /** Where a signed-in user lands: by the role of the profile, when there is one. */
  function HomeFor(role: Option<Role>): string
  {
    if role == Some(Admin) then "/admin"
    else if role == Some(Comunale) then "/dashboard"
    else "/"
  }

  /** The answer of login and the session after it. */
  function SignIn(session: Option<Id>, identities: seq<Identity>, users: map<Id, User>, form: FormData)
    : (AuthResult, Option<Id>)
  {
    var email := Field(form, "email");
    var password := Field(form, "password");
    if email == "" || password == "" then (Failure(MissingCredentials), session)
    else match Authenticate(identities, email, password)
      case None => (Failure(InvalidCredentials), session)
      case Some(uid) =>
        if uid in users && !users[uid].isActive then (Failure(AccountDisabled), None)
        else (Redirect(HomeFor(RoleOf(users, uid))), Some(uid))
  }

  method Login(db: Database, form: FormData) returns (r: AuthResult)
    modifies db`session
    ensures (r, db.session) == SignIn(old(db.session), db.identities, db.users, form)
  {
    var email := Field(form, "email");
    var password := Field(form, "password");
    if email == "" || password == "" {
      return Failure(MissingCredentials);
    }
    var signedIn := Authenticate(db.identities, email, password);
    if signedIn.None? {
      return Failure(InvalidCredentials);
    }
    db.session := signedIn;
    var uid := signedIn.value;
    var profile := if uid in db.users then Some(db.users[uid]) else None;
    if profile.Some? && !profile.value.isActive {
      db.session := None;
      return Failure(AccountDisabled);
    }
    r := Redirect(HomeFor(RoleOf(db.users, uid)));
  }

  /** An empty address or password is refused before the provider is asked, and nobody is signed in. */
  lemma SignInNeedsBothFields(session: Option<Id>, identities: seq<Identity>, users: map<Id, User>, form: FormData)
    ensures var (r, s) := SignIn(session, identities, users, form);
      && (r == Failure(MissingCredentials) <==> Field(form, "email") == "" || Field(form, "password") == "")
      && (r == Failure(InvalidCredentials) <==>
            Field(form, "email") != "" && Field(form, "password") != ""
            && Authenticate(identities, Field(form, "email"), Field(form, "password")).None?)
      && (r.Failure? && r.error != AccountDisabled ==> s == session)
  {
  }

  /**
   * After the provider accepts the credentials: a profile marked inactive signs
   * the user out again; a missing profile counts as active and lands on '/';
   * otherwise the landing page follows the role.
   */
  lemma SignInAfterAuthentication(session: Option<Id>, identities: seq<Identity>, users: map<Id, User>,
                                  form: FormData, uid: Id)
    requires Field(form, "email") != "" && Field(form, "password") != ""
    requires Authenticate(identities, Field(form, "email"), Field(form, "password")) == Some(uid)
    ensures var (r, s) := SignIn(session, identities, users, form);
      && (uid in users && !users[uid].isActive ==> r == Failure(AccountDisabled) && s == None)
      && (uid !in users ==> r == Redirect("/") && s == Some(uid))
      && (uid in users && users[uid].isActive ==>
            s == Some(uid)
            && (users[uid].role == Admin ==> r == Redirect("/admin"))
            && (users[uid].role == Comunale ==> r == Redirect("/dashboard"))
            && (users[uid].role == Cittadino ==> r == Redirect("/")))
  {
  }

  /** Among the identities, the first with a given address is the one with it, when addresses are unique. */
  lemma {:induction false} FindIdentityUnique(identities: seq<Identity>, k: nat)
    requires IdentitiesValid(identities) && k < |identities|
    ensures FindIdentity(identities, identities[k].email) == Some(identities[k])
    decreases k
  {
    if k > 0 {
      var rest := identities[1..];
      assert identities[0].email != identities[k].email;
      assert IdentitiesValid(rest) by {
        forall a, b | 0 <= a < b < |rest|
          ensures rest[a].id != rest[b].id && rest[a].email != rest[b].email
        {
          assert rest[a] == identities[a + 1] && rest[b] == identities[b + 1];
        }
      }
      FindIdentityUnique(rest, k - 1);
    }
  }

  /** Appending an identity for a new address leaves every other lookup as it was and finds the new one. */
  lemma {:induction false} FindIdentityAppend(identities: seq<Identity>, ident: Identity, email: string)
    requires EmailFree(identities, ident.email)
    ensures FindIdentity(identities + [ident], email)
      == if email == ident.email then Some(ident) else FindIdentity(identities, email)
    decreases |identities|
  {
    if identities != [] {
      assert (identities + [ident])[1..] == identities[1..] + [ident];
      FindIdentityAppend(identities[1..], ident, email);
    } else {
      assert (identities + [ident])[1..] == [];
    }
  }

  // ---------------------------------------------------------------------
  // registraCittadino
  // ---------------------------------------------------------------------

  /** The sign-up form's checks, in order: all four fields, the confirmation, the length. */
  function SignUpCheck(form: FormData): Option<string>
  {
    var password := Field(form, "password");
    if Field(form, "email") == "" || password == "" || Field(form, "nome") == "" || Field(form, "cognome") == "" then
      Some(AllFieldsRequired)
    else if password != Field(form, "confirmPassword") then Some(PasswordMismatch)
    else if |password| < MinPasswordLength then Some(PasswordTooShort)
    else None
  }

  /** Creates the identity, then the profile with the given role; a failed profile leaves the identity in place. */
  function CreateAccount(identities: seq<Identity>, users: map<Id, User>, form: FormData, role: Role,
                         confirmed: bool, newId: Id, providerError: Option<string>, taken: string, storeFails: bool,
                         fallback: string, done: AuthResult): (AuthResult, seq<Identity>, map<Id, User>)
  {
    var email := Field(form, "email");
    match ProviderCreate(identities, email, Field(form, "password"), newId, confirmed, providerError, taken)
    case Refused(message) => (Failure(ProviderErrorText(message, fallback)), identities, users)
    case Issued(ident) =>
      match InsertProfile(users, NewProfile(ident.id, email, Field(form, "nome"), Field(form, "cognome"), role),
                          storeFails)
      case None => (Failure(ProfileFailed), identities + [ident], users)
      case Some(t) => (done, identities + [ident], t)
  }

  /** The answer of registraCittadino, the identities and the profiles after it. */
  function Register(identities: seq<Identity>, users: map<Id, User>, form: FormData, newId: Id,
                    providerError: Option<string>, taken: string, storeFails: bool): (AuthResult, seq<Identity>, map<Id, User>)
  {
    match SignUpCheck(form)
    case Some(error) => (Failure(error), identities, users)
    case None =>
      CreateAccount(identities, users, form, Cittadino, false, newId, providerError, taken, storeFails,
                    RegistrationFailed, Success(Some(RegistrationDone)))
  }

  /** Performs the provider call and the profile insert on the store. */
  method CreateAccountOn(db: Database, form: FormData, role: Role, confirmed: bool, newId: Id,
                         providerError: Option<string>, taken: string, storeFails: bool, fallback: string, done: AuthResult)
    returns (r: AuthResult)
    modifies db`identities, db`users
    ensures (r, db.identities, db.users)
      == CreateAccount(old(db.identities), old(db.users), form, role, confirmed, newId, providerError, taken, storeFails,
                       fallback, done)
  {
    var email := Field(form, "email");
    var answer := ProviderCreate(db.identities, email, Field(form, "password"), newId, confirmed, providerError, taken);
    if answer.Refused? {
      return Failure(ProviderErrorText(answer.message, fallback));
    }
    db.identities := db.identities + [answer.identity];
    var profile := NewProfile(answer.identity.id, email, Field(form, "nome"), Field(form, "cognome"), role);
    var inserted := InsertProfile(db.users, profile, storeFails);
    if inserted.None? {
      return Failure(ProfileFailed);
    }
    db.users := inserted.value;
    r := done;
  }

  method RegistraCittadino(db: Database, form: FormData, newId: Id, providerError: Option<string>, taken: string, storeFails: bool)
    returns (r: AuthResult)
    modifies db`identities, db`users
    ensures (r, db.identities, db.users) == Register(old(db.identities), old(db.users), form, newId, providerError, taken, storeFails)
  {
    var error := SignUpCheck(form);
    if error.Some? {
      return Failure(error.value);
    }
    r := CreateAccountOn(db, form, Cittadino, false, newId, providerError, taken, storeFails, RegistrationFailed,
                         Success(Some(RegistrationDone)));
  }

  /** The sign-up checks run in order: missing fields, then a mismatched confirmation, then a short password. */
  lemma SignUpCheckOrder(form: FormData)
    ensures var missing := Field(form, "email") == "" || Field(form, "password") == ""
                           || Field(form, "nome") == "" || Field(form, "cognome") == "";
      && (SignUpCheck(form) == Some(AllFieldsRequired) <==> missing)
      && (SignUpCheck(form) == Some(PasswordMismatch) <==>
            !missing && Field(form, "password") != Field(form, "confirmPassword"))
      && (SignUpCheck(form) == Some(PasswordTooShort) <==>
            !missing && Field(form, "password") == Field(form, "confirmPassword")
            && |Field(form, "password")| < MinPasswordLength)
      && (SignUpCheck(form).None? ==> |Field(form, "password")| >= MinPasswordLength)
  {
  }

  /** A form the checks refuse reaches neither the provider nor the profiles table. */
  lemma RegisterRefusedWritesNothing(identities: seq<Identity>, users: map<Id, User>, form: FormData, newId: Id,
                                     providerError: Option<string>, taken: string, storeFails: bool)
    requires SignUpCheck(form).Some?
    ensures Register(identities, users, form, newId, providerError, taken, storeFails)
      == (Failure(SignUpCheck(form).value), identities, users)
  {
  }

  /**
   * A successful sign-up adds one unconfirmed identity under the new key and
   * a citizen profile for it; nothing else changes.
   */
  lemma RegisterSuccess(identities: seq<Identity>, users: map<Id, User>, form: FormData, newId: Id,
                        providerError: Option<string>, taken: string, storeFails: bool)
    requires Register(identities, users, form, newId, providerError, taken, storeFails).0.Success?
    ensures var (_, ids, t) := Register(identities, users, form, newId, providerError, taken, storeFails);
      && ids == identities + [Identity(newId, form["email"], form["password"], false)]
      && newId !in users
      && t == users[newId := User(newId, form["email"], form["nome"], form["cognome"], Cittadino, true, true, true, None)]
      && EmailFree(identities, form["email"]) && |form["password"]| >= MinPasswordLength
  {
    SignUpCheckOrder(form);
  }

  /** The provider's message decides the error text: the taken-address text exactly when it says 'already registered'. */
  lemma RegisterProviderError(identities: seq<Identity>, users: map<Id, User>, form: FormData, newId: Id,
                              message: string, taken: string, storeFails: bool)
    requires SignUpCheck(form).None?
    ensures var (r, ids, t) := Register(identities, users, form, newId, Some(message), taken, storeFails);
      && ids == identities && t == users
      && (r == Failure(EmailTaken) <==> Text.Contains(message, "already registered"))
      && (r == Failure(RegistrationFailed) <==> !Text.Contains(message, "already registered"))
  {
  }

  /**
   * Signing up with an address the provider already holds writes nothing; the
   * answer is 'Email già registrata' exactly when the provider's refusal says
   * 'already registered', and the generic sign-up error otherwise.
   */
  lemma RegisterTakenEmail(identities: seq<Identity>, users: map<Id, User>, form: FormData, newId: Id,
                           taken: string, storeFails: bool)
    requires SignUpCheck(form).None? && !EmailFree(identities, Field(form, "email"))
    ensures var (r, ids, t) := Register(identities, users, form, newId, None, taken, storeFails);
      && ids == identities && t == users
      && r == Failure(if Text.Contains(taken, "already registered") then EmailTaken else RegistrationFailed)
  {
  }

  /** A failed profile insert leaves the new identity behind without a profile. */
  lemma RegisterOrphan(identities: seq<Identity>, users: map<Id, User>, form: FormData, newId: Id, taken: string)
    requires SignUpCheck(form).None? && EmailFree(identities, Field(form, "email")) && IdentityFree(identities, newId)
    ensures var (r, ids, t) := Register(identities, users, form, newId, None, taken, true);
      && r == Failure(ProfileFailed) && t == users
      && ids == identities + [Identity(newId, Field(form, "email"), Field(form, "password"), false)]
  {
  }

  /** An account just registered cannot sign in until its address is confirmed. */
  lemma RegisteredCannotSignInYet(identities: seq<Identity>, users: map<Id, User>, form: FormData, newId: Id,
                                  providerError: Option<string>, taken: string, storeFails: bool, session: Option<Id>)
    requires Register(identities, users, form, newId, providerError, taken, storeFails).0.Success?
    ensures var (_, ids, t) := Register(identities, users, form, newId, providerError, taken, storeFails);
      SignIn(session, ids, t, form).0 == Failure(InvalidCredentials)
  {
    var (_, ids, t) := Register(identities, users, form, newId, providerError, taken, storeFails);
    RegisterSuccess(identities, users, form, newId, providerError, taken, storeFails);
    FindIdentityAppend(identities, Identity(newId, form["email"], form["password"], false), form["email"]);
  }

  /** Sign-up keeps one identity per key and per address. */
  lemma CreateAccountPreservesValid(identities: seq<Identity>, users: map<Id, User>, form: FormData, role: Role,
                                    confirmed: bool, newId: Id, providerError: Option<string>, taken: string, storeFails: bool,
                                    fallback: string, done: AuthResult)
    requires IdentitiesValid(identities)
    ensures IdentitiesValid(CreateAccount(identities, users, form, role, confirmed, newId, providerError, taken, storeFails,
                                          fallback, done).1)
  {
    var answer := ProviderCreate(identities, Field(form, "email"), Field(form, "password"), newId, confirmed,
                                 providerError, taken);
    if answer.Issued? {
      var ids := identities + [answer.identity];
      forall i, j | 0 <= i < j < |ids| ensures ids[i].id != ids[j].id && ids[i].email != ids[j].email {
        if j == |identities| {
          assert ids[i] == identities[i];
        } else {
          assert ids[i] == identities[i] && ids[j] == identities[j];
        }
      }
    }
  }

  // ---------------------------------------------------------------------
  // logout
  // ---------------------------------------------------------------------

  method Logout(db: Database) returns (r: AuthResult)
    modifies db`session
    ensures db.session == None && r == Redirect("/login")
  {
    db.session := None;
    r := Redirect("/login");
  }

  // ---------------------------------------------------------------------
  // recuperaPassword
  // ---------------------------------------------------------------------

  /** The answer of recuperaPassword; sending the e-mail changes nothing in the store. */
  function RequestReset(form: FormData, providerFails: bool): (r: AuthResult)
    ensures r.Success? <==> Field(form, "email") != "" && !providerFails
  {
    if Field(form, "email") == "" then Failure(EmailRequired)
    else if providerFails then Failure(RecoveryFailed)
    else Success(Some(RecoverySent))
  }

  method RecuperaPassword(db: Database, form: FormData, providerFails: bool) returns (r: AuthResult)
    ensures r == RequestReset(form, providerFails)
  {
    var email := Field(form, "email");
    if email == "" {
      return Failure(EmailRequired);
    }
    if providerFails {
      return Failure(RecoveryFailed);
    }
    r := Success(Some(RecoverySent));
  }

  // ---------------------------------------------------------------------
  // resetPassword
  // ---------------------------------------------------------------------

  /** updateUser: the signed-in identity's password replaced; every other identity kept. */
  function SetPassword(identities: seq<Identity>, uid: Id, password: string): (r: seq<Identity>)
    ensures |r| == |identities|
    ensures forall i :: 0 <= i < |r| ==>
      r[i] == if identities[i].id == uid then identities[i].(password := password) else identities[i]
  {
    if identities == [] then []
    else [if identities[0].id == uid then identities[0].(password := password) else identities[0]]
         + SetPassword(identities[1..], uid, password)
  }

  /**
   * The answer of resetPassword and the identities after it. The two fields
   * are compared as FormData gives them, absent ones included; when both are
   * absent the comparison passes and reading the length of the missing
   * password throws.
   */
  function ChangePassword(session: Option<Id>, identities: seq<Identity>, form: FormData, providerFails: bool)
    : (AuthResult, seq<Identity>)
  {
    var password := Get(form, "password");
    if password != Get(form, "confirmPassword") then (Failure(PasswordMismatch), identities)
    else if password.None? then (TypeError, identities)
    else if |password.value| < MinPasswordLength then (Failure(PasswordTooShort), identities)
    else if providerFails || session.None? || IdentityFree(identities, session.value) then
      (Failure(ResetFailed), identities)
    else (Redirect("/login"), SetPassword(identities, session.value, password.value))
  }

  method ResetPassword(db: Database, form: FormData, providerFails: bool) returns (r: AuthResult)
    modifies db`identities
    ensures (r, db.identities) == ChangePassword(db.session, old(db.identities), form, providerFails)
  {
    var password := Get(form, "password");
    var confirmPassword := Get(form, "confirmPassword");
    if password != confirmPassword {
      return Failure(PasswordMismatch);
    }
    if password.None? {
      return TypeError;
    }
    if |password.value| < MinPasswordLength {
      return Failure(PasswordTooShort);
    }
    if providerFails || db.session.None? || IdentityFree(db.identities, db.session.value) {
      return Failure(ResetFailed);
    }
    db.identities := SetPassword(db.identities, db.session.value, password.value);
    r := Redirect("/login");
  }

  /** A mismatch is reported before a short password; only a reset that redirects writes anything. */
  lemma ChangePasswordOrder(session: Option<Id>, identities: seq<Identity>, form: FormData, providerFails: bool)
    ensures var (r, ids) := ChangePassword(session, identities, form, providerFails);
      && (r == Failure(PasswordMismatch) <==> Get(form, "password") != Get(form, "confirmPassword"))
      && (r == Failure(PasswordTooShort) <==>
            Get(form, "password") == Get(form, "confirmPassword") && Get(form, "password").Some?
            && |form["password"]| < MinPasswordLength)
      && (r != Redirect("/login") ==> ids == identities)
  {
  }

  /** After a reset the signed-in user signs in with the new password, and only with it. */
  lemma ChangePasswordThenSignIn(session: Option<Id>, identities: seq<Identity>, form: FormData, k: nat,
                                 other: string)
    requires IdentitiesValid(identities) && k < |identities| && identities[k].confirmed
    requires session == Some(identities[k].id)
    requires ChangePassword(session, identities, form, false).0 == Redirect("/login")
    requires other != form["password"]
    ensures var ids := ChangePassword(session, identities, form, false).1;
      && Authenticate(ids, identities[k].email, form["password"]) == Some(identities[k].id)
      && Authenticate(ids, identities[k].email, other) == None
  {
    var ids := SetPassword(identities, identities[k].id, form["password"]);
    assert IdentitiesValid(ids) by {
      forall i, j | 0 <= i < j < |ids| ensures ids[i].id != ids[j].id && ids[i].email != ids[j].email {
        assert identities[i].id != identities[j].id && identities[i].email != identities[j].email;
      }
    }
    FindIdentityUnique(ids, k);
  }

  // ---------------------------------------------------------------------
  // creaUtenteComunale, toggleUtenteComunale, eliminaUtenteComunale
  // ---------------------------------------------------------------------

  /** The admin check the three staff operations share: None when the caller is a signed-in admin. */
  function AdminCheck(session: Option<Id>, users: map<Id, User>, refusal: string): (r: Option<string>)
    ensures r.None? <==> session.Some? && RoleOf(users, session.value) == Some(Admin)
  {
    if session.None? then Some(NotAuthorized)
    else if RoleOf(users, session.value) != Some(Admin) then Some(refusal)
    else None
  }

  /** The answer of creaUtenteComunale, the identities and the profiles after it. */
  function CreateStaff(session: Option<Id>, identities: seq<Identity>, users: map<Id, User>, form: FormData,
                       newId: Id, providerError: Option<string>, taken: string, storeFails: bool)
    : (AuthResult, seq<Identity>, map<Id, User>)
  {
    match AdminCheck(session, users, OnlyAdminCreate)
    case Some(error) => (Failure(error), identities, users)
    case None =>
      if Field(form, "email") == "" || Field(form, "password") == "" || Field(form, "nome") == ""
         || Field(form, "cognome") == "" then
        (Failure(AllFieldsRequired), identities, users)
      else
        CreateAccount(identities, users, form, Comunale, true, newId, providerError, taken, storeFails,
                      CreateUserFailed, Success(None))
  }

  method CreaUtenteComunale(db: Database, form: FormData, newId: Id, providerError: Option<string>, taken: string, storeFails: bool)
    returns (r: AuthResult)
    modifies db`identities, db`users
    ensures (r, db.identities, db.users)
      == CreateStaff(db.session, old(db.identities), old(db.users), form, newId, providerError, taken, storeFails)
  {
    var refusal := AdminCheck(db.session, db.users, OnlyAdminCreate);
    if refusal.Some? {
      return Failure(refusal.value);
    }
    if Field(form, "email") == "" || Field(form, "password") == "" || Field(form, "nome") == ""
       || Field(form, "cognome") == "" {
      return Failure(AllFieldsRequired);
    }
    r := CreateAccountOn(db, form, Comunale, true, newId, providerError, taken, storeFails, CreateUserFailed, Success(None));
  }

  /** The answer of toggleUtenteComunale and the profiles after it: any target's flag is set, whatever its role. */
  function SetActive(session: Option<Id>, users: map<Id, User>, userId: Id, isActive: bool, storeFails: bool)
    : (AuthResult, map<Id, User>)
  {
    match AdminCheck(session, users, OnlyAdminUpdate)
    case Some(error) => (Failure(error), users)
    case None =>
      if storeFails then (Failure(UpdateFailed), users)
      else if userId in users then (Success(None), users[userId := users[userId].(isActive := isActive)])
      else (Success(None), users)
  }

  method ToggleUtenteComunale(db: Database, userId: Id, isActive: bool, storeFails: bool) returns (r: AuthResult)
    modifies db`users
    ensures (r, db.users) == SetActive(db.session, old(db.users), userId, isActive, storeFails)
  {
    var refusal := AdminCheck(db.session, db.users, OnlyAdminUpdate);
    if refusal.Some? {
      return Failure(refusal.value);
    }
    if storeFails {
      return Failure(UpdateFailed);
    }
    if userId in db.users {
      db.users := db.users[userId := db.users[userId].(isActive := isActive)];
    }
    r := Success(None);
  }

  /** deleteUser: the identity removed, keeping the others in order. */
  function WithoutIdentity(identities: seq<Identity>, id: Id): (r: seq<Identity>)
    ensures IdentityFree(r, id) && IsSubsequence(r, identities)
    ensures forall i :: 0 <= i < |identities| && identities[i].id != id ==> identities[i] in r
  {
    var p := (i: Identity) => i.id != id;
    FilterIsSubsequence(identities, p);
    Filter(identities, p)
  }

  /** The answer of eliminaUtenteComunale, the identities and the profiles after it (the profile goes with the identity). */
  function DeleteAccount(session: Option<Id>, identities: seq<Identity>, users: map<Id, User>, userId: Id,
                         providerFails: bool): (AuthResult, seq<Identity>, map<Id, User>)
  {
    match AdminCheck(session, users, OnlyAdminDelete)
    case Some(error) => (Failure(error), identities, users)
    case None =>
      if providerFails || IdentityFree(identities, userId) then (Failure(DeleteUserFailed), identities, users)
      else (Success(None), WithoutIdentity(identities, userId), users - {userId})
  }

  method EliminaUtenteComunale(db: Database, userId: Id, providerFails: bool) returns (r: AuthResult)
    modifies db`identities, db`users
    ensures (r, db.identities, db.users) == DeleteAccount(db.session, old(db.identities), old(db.users), userId, providerFails)
  {
    var refusal := AdminCheck(db.session, db.users, OnlyAdminDelete);
    if refusal.Some? {
      return Failure(refusal.value);
    }
    if providerFails || IdentityFree(db.identities, userId) {
      return Failure(DeleteUserFailed);
    }
    db.identities := WithoutIdentity(db.identities, userId);
    db.users := db.users - {userId};
    r := Success(None);
  }

  /** A caller who is not a signed-in admin changes nothing through any of the three staff operations. */
  lemma StaffOperationsNeedAdmin(session: Option<Id>, identities: seq<Identity>, users: map<Id, User>,
                                 form: FormData, newId: Id, userId: Id, isActive: bool,
                                 providerError: Option<string>, taken: string, fails: bool)
    requires session.None? || RoleOf(users, session.value) != Some(Admin)
    ensures var (r, ids, t) := CreateStaff(session, identities, users, form, newId, providerError, taken, fails);
      ids == identities && t == users
      && r == Failure(if session.None? then NotAuthorized else OnlyAdminCreate)
    ensures var (r, t) := SetActive(session, users, userId, isActive, fails);
      t == users && r == Failure(if session.None? then NotAuthorized else OnlyAdminUpdate)
    ensures var (r, ids, t) := DeleteAccount(session, identities, users, userId, fails);
      ids == identities && t == users
      && r == Failure(if session.None? then NotAuthorized else OnlyAdminDelete)
  {
  }

  /**
   * A staff account made by an admin is confirmed and holds a municipal
   * profile, so it signs in at once and lands on the dashboard.
   */
  lemma CreateStaffThenSignIn(session: Option<Id>, identities: seq<Identity>, users: map<Id, User>, form: FormData,
                              newId: Id, providerError: Option<string>, taken: string, storeFails: bool, later: Option<Id>)
    requires CreateStaff(session, identities, users, form, newId, providerError, taken, storeFails).0.Success?
    ensures var (_, ids, t) := CreateStaff(session, identities, users, form, newId, providerError, taken, storeFails);
      && newId in t && t[newId].role == Comunale && t[newId].isActive
      && SignIn(later, ids, t, form) == (Redirect("/dashboard"), Some(newId))
  {
    var email := Field(form, "email");
    var ident := Identity(newId, email, Field(form, "password"), true);
    assert ProviderCreate(identities, email, Field(form, "password"), newId, true, providerError, taken) == Issued(ident);
    FindIdentityAppend(identities, ident, email);
  }

  /** toggleUtenteComunale sets the flag of any existing profile, an admin's included, and touches no other field or row. */
  lemma SetActiveAnyTarget(session: Option<Id>, users: map<Id, User>, userId: Id, isActive: bool)
    requires session.Some? && RoleOf(users, session.value) == Some(Admin) && userId in users
    ensures var (r, t) := SetActive(session, users, userId, isActive, false);
      && r == Success(None) && t.Keys == users.Keys
      && t[userId] == users[userId].(isActive := isActive)
      && forall u :: u in users && u != userId ==> t[u] == users[u]
  {
  }

  /**
   * Nothing on the server stops an admin from switching off their own
   * profile; every later sign-in as that user then ends signed out.
   */
  lemma AdminCanDeactivateSelf(uid: Id, identities: seq<Identity>, users: map<Id, User>, form: FormData,
                               later: Option<Id>)
    requires RoleOf(users, uid) == Some(Admin)
    requires Field(form, "email") != "" && Field(form, "password") != ""
    requires Authenticate(identities, Field(form, "email"), Field(form, "password")) == Some(uid)
    ensures var (r, t) := SetActive(Some(uid), users, uid, false, false);
      r == Success(None) && SignIn(later, identities, t, form) == (Failure(AccountDisabled), None)
  {
  }

  /** A deletion removes the identity and keeps every other one, in order. */
  lemma DeleteAccountRemovesIdentity(session: Option<Id>, identities: seq<Identity>, users: map<Id, User>,
                                     userId: Id)
    requires DeleteAccount(session, identities, users, userId, false).0.Success?
    ensures var ids := DeleteAccount(session, identities, users, userId, false).1;
      && IdentityFree(ids, userId)
      && (forall i :: 0 <= i < |identities| && identities[i].id != userId ==> identities[i] in ids)
  {
    assert DeleteAccount(session, identities, users, userId, false).1 == WithoutIdentity(identities, userId);
  }

  /** The profile goes with the identity; every other profile is kept as it was. */
  lemma DeleteAccountRemovesProfile(session: Option<Id>, identities: seq<Identity>, users: map<Id, User>,
                                    userId: Id)
    requires DeleteAccount(session, identities, users, userId, false).0.Success?
    ensures var t := DeleteAccount(session, identities, users, userId, false).2;
      && userId !in t && (forall u :: u in users && u != userId ==> u in t && t[u] == users[u])
      && t.Keys <= users.Keys
  {
    assert DeleteAccount(session, identities, users, userId, false).2 == users - {userId};
  }
}
