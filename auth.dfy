/** The credential store and login/registration flow
    (features/auth.py, features/auth_user_registration.py): a YAML file
    holding `credentials.usernames` and optional cookie settings, the
    registration form that adds one user to it, and the session flag that
    switches between the login and registration screens. The password
    hasher is a parameter. */
module Auth {
  import opened Wrappers

  /** One entry of `credentials.usernames`. */
  datatype User = User(name: string, password: string, email: string)

  /** The `credentials` mapping; `usernames` may be missing from the file. */
  datatype Credentials = Credentials(usernames: Option<map<string, User>>)

  /** The optional `cookie` mapping; each of its keys may be missing. */
  datatype Cookie = Cookie(name: Option<string>, key: Option<string>, expiryDays: Option<int>)

  /** A loaded configuration document. */
  datatype Config = Config(credentials: Option<Credentials>, cookie: Option<Cookie>)

  /** The file on disk: absent, or present with a document that may be
      empty (`yaml.load` gives `None`). */
  datatype ConfigFile = Absent | Present(doc: Option<Config>)

  /** What a fresh file is created with: no users, no cookie settings. */
  const Initial: Config := Config(Some(Credentials(Some(map[]))), None)

  /** The user map of a configuration, empty where the keys are missing. */
  function Users(c: Config): map<string, User> {
    match c.credentials
    case None => map[]
    case Some(creds) => creds.usernames.GetOr(map[])
  }

  /** Both keys of the user map are present. */
  predicate WellShaped(c: Config) {
    c.credentials.Some? && c.credentials.value.usernames.Some?
  }

  /** The shape fix applied after loading: an empty document, a missing
      `credentials` or a missing `usernames` each becomes an empty user map;
      the users already present and the cookie settings are kept. */
  function Normalise(doc: Option<Config>): (c: Config)
    ensures WellShaped(c)
    ensures doc.None? ==> c == Initial
    ensures doc.Some? ==> Users(c) == Users(doc.value) && c.cookie == doc.value.cookie
    ensures doc.Some? && WellShaped(doc.value) ==> c == doc.value
  {
    match doc
    case None => Initial
    case Some(cfg) =>
      match cfg.credentials
      case None => cfg.(credentials := Some(Credentials(Some(map[]))))
      case Some(creds) =>
        if creds.usernames.None? then cfg.(credentials := Some(Credentials(Some(map[])))) else cfg
  }

  /** Normalising an already normalised configuration changes nothing. */
  lemma NormaliseIdempotent(doc: Option<Config>)
    ensures Normalise(Some(Normalise(doc))) == Normalise(doc)
  {
  }

  /** The file after start-up: a missing file is created with the initial
      document; an existing one is left as it is. */
  function Initialised(f: ConfigFile): (g: ConfigFile)
    ensures g.Present?
    ensures f.Present? ==> g == f
    ensures f.Absent? ==> g == Present(Some(Initial))
  {
    if f.Absent? then Present(Some(Initial)) else f
  }

  /** The cookie name, key and expiry passed to the authenticator: each
      taken from the `cookie` mapping when present there, otherwise
      "auth_cookie", "random_key_123" and 30 days. */
  function CookieSettings(c: Config): (r: (string, string, int))
    ensures c.cookie.None? ==> r == ("auth_cookie", "random_key_123", 30)
    ensures c.cookie.Some? ==>
      && r.0 == c.cookie.value.name.GetOr("auth_cookie")
      && r.1 == c.cookie.value.key.GetOr("random_key_123")
      && r.2 == c.cookie.value.expiryDays.GetOr(30)
  {
    var cookie := c.cookie.GetOr(Cookie(None, None, None));
    (cookie.name.GetOr("auth_cookie"), cookie.key.GetOr("random_key_123"), cookie.expiryDays.GetOr(30))
  }

  datatype Registration = MissingFields | DuplicateUsername | Registered

  /** "Submit Registration" on a configuration: the configuration afterwards
      and what the form reports. Username, password and email must be
      non-empty (the full name may be empty); a taken username is refused
      before the password is hashed; otherwise exactly one user is added,
      holding the hashed password. */
  function AfterRegistration(c: Config, username: string, name: string, password: string, email: string,
                             hash: string -> string): (r: (Config, Registration))
    ensures r.1 == MissingFields <==> username == "" || password == "" || email == ""
    ensures r.1 == DuplicateUsername <==> username != "" && password != "" && email != "" && username in Users(c)
    ensures r.1 != Registered ==> r.0 == c
    ensures r.1 == Registered ==>
      && WellShaped(r.0)
      && Users(r.0) == Users(c)[username := User(name, hash(password), email)]
      && r.0.cookie == c.cookie
  {
    if username == "" || password == "" || email == "" then (c, MissingFields)
    else
      var users := Users(c);
      if username in users then (c, DuplicateUsername)
      else
        var user := User(name, hash(password), email);
        (c.(credentials := Some(Credentials(Some(users[username := user])))), Registered)
  }

  /** A registration leaves every other user exactly as it was and adds no
      user besides the new one. */
  lemma RegistrationKeepsOthers(c: Config, username: string, name: string, password: string, email: string,
                                hash: string -> string, other: string)
    requires other != username
    ensures var c' := AfterRegistration(c, username, name, password, email, hash).0;
            && (other in Users(c') <==> other in Users(c))
            && (other in Users(c) ==> Users(c')[other] == Users(c)[other])
  {
  }

  /** The same username cannot be registered twice: the second submission
      is refused and changes nothing. */
  lemma SecondRegistrationRefused(c: Config, username: string, n1: string, p1: string, e1: string,
                                  n2: string, p2: string, e2: string, hash: string -> string)
    requires AfterRegistration(c, username, n1, p1, e1, hash).1 == Registered
    requires p2 != "" && e2 != ""
    ensures var c' := AfterRegistration(c, username, n1, p1, e1, hash).0;
            AfterRegistration(c', username, n2, p2, e2, hash) == (c', DuplicateUsername)
  {
  }

  /** The hasher is consulted only for a registration that succeeds: every
      refused submission comes out the same under any two hashers. */
  lemma RefusalIgnoresHasher(c: Config, username: string, name: string, password: string, email: string,
                             h1: string -> string, h2: string -> string)
    requires AfterRegistration(c, username, name, password, email, h1).1 != Registered
    ensures AfterRegistration(c, username, name, password, email, h1)
         == AfterRegistration(c, username, name, password, email, h2)
  {
  }

  /** The configuration file and its in-memory copy as the registration
      page holds them. */
  class CredentialStore {
    var file: ConfigFile
    var config: Config

    /** Start-up: create a missing file, load it and normalise the result. */
    constructor Load(disk: ConfigFile)
      ensures file == Initialised(disk)
      ensures config == Normalise(Initialised(disk).doc)
      ensures WellShaped(config)
    {
      var loaded := Initialised(disk);
      file := loaded;
      config := Normalise(loaded.doc);
    }

    /** "Submit Registration": the in-memory configuration becomes the one
        `AfterRegistration` gives, and only a successful registration
        rewrites the file, with exactly that configuration. */
    method SubmitRegistration(username: string, name: string, password: string, email: string,
                              hash: string -> string) returns (outcome: Registration)
      modifies this
      ensures (config, outcome) == AfterRegistration(old(config), username, name, password, email, hash)
      ensures outcome == Registered ==> file == Present(Some(config))
      ensures outcome != Registered ==> file == old(file) && config == old(config)
    {
      if username == "" || password == "" || email == "" {
        return MissingFields;
      }
      var creds := config.credentials.GetOr(Credentials(None));
      var users := creds.usernames.GetOr(map[]);
      if username in users {
        return DuplicateUsername;
      }
      var hashed := hash(password);
      users := users[username := User(name, hashed, email)];
      config := config.(credentials := Some(Credentials(Some(users))));
      file := Present(Some(config));
      outcome := Registered;
    }
  }

  /** `st.session_state["authentication_status"]`: `None`, `False` or `True`. */
  datatype AuthStatus = NotAttempted | Rejected | Authenticated

  datatype Screen = LoginScreen | RegistrationScreen

  /** The `authentication()` dispatch: the registration form exactly when
      the `register` flag is set and true, the login form otherwise. */
  function ScreenFor(register: Option<bool>): (s: Screen)
    ensures s == RegistrationScreen <==> register == Some(true)
  {
    if register.GetOr(false) then RegistrationScreen else LoginScreen
  }

  /** The session state the two screens share. */
  class Session {
    var status: AuthStatus
    var register: Option<bool>

    constructor ()
      ensures status == NotAttempted && register == None
      ensures ScreenFor(register) == LoginScreen
    {
      status := NotAttempted;
      register := None;
    }

    /** The "Register" button, shown below the login form only while the
        user is not authenticated; pressing it switches to registration. */
    method ClickRegister()
      modifies this
      ensures status == old(status)
      ensures old(status) != Authenticated ==> register == Some(true) && ScreenFor(register) == RegistrationScreen
      ensures old(status) == Authenticated ==> register == old(register)
    {
      if status != Authenticated {
        register := Some(true);
      }
    }

    /** "Back to Login" switches back to the login form. */
    method BackToLogin()
      modifies this
      ensures status == old(status)
      ensures register == Some(false) && ScreenFor(register) == LoginScreen
    {
      register := Some(false);
    }
  }
}
