/**
 * Registration in the older server of `finance/backend/server.js`. Its login and
 * user list behave as the main server's (`Backend.Login`, `Backend.ListUsers`);
 * registration differs: it stores a three-field document and checks for a
 * duplicate address with the address exactly as submitted.
 */
module LegacyBackend {
  import opened JsonData
  import opened Wrappers
  import opened Text
  import opened Store
  import Backend

  const AllFieldsRequired := "All fields (name, email, password) are required"

  /** `users.some(user => user.email === email)`, with the address as submitted. */
  predicate RawEmailTaken(users: seq<Doc>, email: Json) {
    exists i :: 0 <= i < |users| && "email" in users[i] && StrictEq(users[i]["email"], email)
  }

  /** `{ name: name.trim(), email: email.trim().toLowerCase(), password }` */
  function NewUser(name: string, email: string, password: Json): Doc {
    map["name" := JStr(Trim(name)), "email" := JStr(Normalize(email)), "password" := password]
  }

  /** Registration goes through: fields present, store readable, no stored address `===` the raw one, string fields. */
  predicate Accepted(s: StoreFile, body: Doc) {
    && Backend.RegisterFieldsPresent(body)
    && Readable(s)
    && !RawEmailTaken(Loaded(s), body["email"])
    && body["name"].JStr? && body["email"].JStr?
  }

  method Register(f: UserFile, body: Doc) returns (resp: Backend.Reply)
    modifies f
    ensures !Backend.RegisterFieldsPresent(body) ==>
      resp == Backend.Failure(400, AllFieldsRequired) && f.file == old(f.file)
    ensures Backend.RegisterFieldsPresent(body) && !Readable(old(f.file)) ==>
      resp == Backend.Failure(500, Backend.InternalError) && f.file == old(f.file)
    ensures Backend.RegisterFieldsPresent(body) && Readable(old(f.file)) && RawEmailTaken(Loaded(old(f.file)), body["email"]) ==>
      resp == Backend.Failure(409, Backend.EmailAlreadyRegistered) && f.file == Initialised(old(f.file))
    ensures (Backend.RegisterFieldsPresent(body) && Readable(old(f.file)) && !RawEmailTaken(Loaded(old(f.file)), body["email"]) &&
             !(body["name"].JStr? && body["email"].JStr?)) ==>
      resp == Backend.Failure(500, Backend.InternalError) && f.file == Initialised(old(f.file))
    ensures Accepted(old(f.file), body) ==>
      var u := NewUser(body["name"].s, body["email"].s, body["password"]);
      && f.file == Holds(Loaded(old(f.file)) + [u])
      && resp == Backend.Reply(201, JObj(map[
           "success" := JBool(true),
           "message" := JStr("Registration successful"),
           "user" := JObj(map["name" := u["name"], "email" := u["email"]])]))
  {
    if !Backend.RegisterFieldsPresent(body) {
      return Backend.Failure(400, AllFieldsRequired);
    }
    var read := f.ReadUsers();
    if read.None? {
      return Backend.Failure(500, Backend.InternalError);
    }
    var users := read.value;
    if RawEmailTaken(users, body["email"]) {
      return Backend.Failure(409, Backend.EmailAlreadyRegistered);
    }
    var name := body["name"];
    var email := body["email"];
    if !name.JStr? || !email.JStr? {
      return Backend.Failure(500, Backend.InternalError);
    }
    var newUser := NewUser(name.s, email.s, body["password"]);
    users := users + [newUser];
    f.WriteUsers(users);
    resp := Backend.Reply(201, JObj(map[
      "success" := JBool(true),
      "message" := JStr("Registration successful"),
      "user" := JObj(map["name" := newUser["name"], "email" := newUser["email"]])]));
  }

  /** Legacy registration still stores only normalised addresses. */
  lemma RegistrationKeepsNormalized(users: seq<Doc>, name: string, email: string, password: Json)
    requires Backend.EmailsNormalized(users)
    ensures Backend.EmailsNormalized(users + [NewUser(name, email, password)])
  {
    var u := NewUser(name, email, password);
    assert "email" in u && u["email"] == JStr(Normalize(email));
    NormalizeIdempotent(email);
    Backend.AppendKeepsNormalized(users, u);
  }

  /** How the two sample addresses normalise. */
  lemma SampleAddresses()
    ensures Normalize("ann@x.com") == "ann@x.com"
    ensures Normalize("Ann@x.com") == "ann@x.com"
  {
    var stored: string := "ann@x.com";
    var typed: string := "Ann@x.com";
    assert NoSpace(stored);
    assert NoSpace(typed);
    TrimOfNoSpace(stored);
    TrimOfNoSpace(typed);
    assert Lower(stored) == stored;
    assert Lower(typed) == stored;
  }

  /**
   * The duplicate check compares the stored, normalised addresses with the
   * address as typed: an address registered in lower case can be registered
   * again by typing it with a capital, and the store then holds two users with
   * the same address.
   */
  lemma DuplicateCheckMissesCase()
    ensures
      var users := [NewUser("Ann", "ann@x.com", JStr("secret1"))];
      var body := map["name" := JStr("Ann"), "email" := JStr("Ann@x.com"), "password" := JStr("secret2")];
      && Backend.Registry(users)
      && Accepted(Holds(users), body)
      && !Backend.EmailsDistinct(users + [NewUser("Ann", "Ann@x.com", JStr("secret2"))])
  {
    SampleAddresses();
    var users := [NewUser("Ann", "ann@x.com", JStr("secret1"))];
    var body := map["name" := JStr("Ann"), "email" := JStr("Ann@x.com"), "password" := JStr("secret2")];
    assert users[0]["email"] == JStr("ann@x.com");
    assert !StrictEq(users[0]["email"], JStr("Ann@x.com"));
    assert !RawEmailTaken(users, body["email"]);
    var both := users + [NewUser("Ann", "Ann@x.com", JStr("secret2"))];
    assert both[0]["email"] == both[1]["email"];
  }
}
