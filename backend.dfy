/**
 * The Express server of `backend/server.js`: registration, login, the user
 * document read / shallow-merge update, transaction append and the user list,
 * each a load / compute / rewrite-whole-store sequence over `users.json`.
 */
module Backend {
  import opened JsonData
  import opened Wrappers
  import opened Text
  import opened Seqs
  import opened Ledger
  import opened Store

  /** An HTTP answer: status code and JSON body. */
  datatype Reply = Reply(status: nat, body: Json)

  /** `res.status(status).json({ success: false, message })` */
  function Failure(status: nat, message: string): Reply {
    Reply(status, JObj(map["success" := JBool(false), "message" := JStr(message)]))
  }

  /** `res.status(status).json({ success: true, message, user })` */
  function Success(status: nat, message: string, user: Doc): Reply {
    Reply(status, JObj(map["success" := JBool(true), "message" := JStr(message), "user" := JObj(user)]))
  }

  const InternalError := "Internal server error"
  const UserNotFound := "User not found"

  /** `const { password, ...safeUser } = user` */
  function WithoutPassword(u: Doc): (r: Doc)
    ensures "password" !in r
    ensures forall k :: k != "password" ==> (k in r <==> k in u) && (k in r ==> r[k] == u[k])
  {
    u - {"password"}
  }

  /** `u.email === e` for a string `e`. */
  predicate EmailIs(u: Doc, e: string) {
    "email" in u && u["email"] == JStr(e)
  }

  /** `users.some(user => user.email === e)` */
  predicate EmailTaken(users: seq<Doc>, e: string) {
    exists i :: 0 <= i < |users| && EmailIs(users[i], e)
  }

  /** `users.findIndex(u => u.email === e)` */
  function FindUser(users: seq<Doc>, e: string): int {
    IndexOf(users, (u: Doc) => EmailIs(u, e))
  }

  // ---------------------------------------------------------------------------
  // Store invariants

  /** Every stored address is a string that is already trimmed and lower-cased. */
  predicate EmailsNormalized(users: seq<Doc>) {
    forall i :: 0 <= i < |users| ==>
      "email" in users[i] && users[i]["email"].JStr? && Normalize(users[i]["email"].s) == users[i]["email"].s
  }

  /** No two stored users share an address. */
  predicate EmailsDistinct(users: seq<Doc>) {
    forall i, j :: 0 <= i < j < |users| && "email" in users[i] && "email" in users[j] ==>
      users[i]["email"] != users[j]["email"]
  }

  /** Addresses identify users: unique under trimmed, case-insensitive comparison. */
  predicate Registry(users: seq<Doc>) {
    EmailsNormalized(users) && EmailsDistinct(users)
  }

  /** A change of the store that keeps the registry when it held before. */
  predicate RegistryKept(before: seq<Doc>, after: seq<Doc>) {
    Registry(before) ==> Registry(after)
  }

  /** Under the registry invariant two users never normalise to the same address. */
  lemma RegistryMeansUniqueKeys(users: seq<Doc>, i: nat, j: nat)
    requires Registry(users)
    requires i < j < |users|
    ensures Normalize(users[i]["email"].s) != Normalize(users[j]["email"].s)
  {
  }

  /** Appending a user whose address is a normalised string keeps every address normalised. */
  lemma AppendKeepsNormalized(users: seq<Doc>, u: Doc)
    requires EmailsNormalized(users)
    requires "email" in u && u["email"].JStr? && Normalize(u["email"].s) == u["email"].s
    ensures EmailsNormalized(users + [u])
  {
  }

  /** Appending a user whose normalised address is not yet taken keeps the registry. */
  lemma AppendKeepsRegistry(users: seq<Doc>, u: Doc)
    requires Registry(users)
    requires "email" in u && u["email"].JStr? && Normalize(u["email"].s) == u["email"].s
    requires !EmailTaken(users, u["email"].s)
    ensures Registry(users + [u])
  {
    var all := users + [u];
    forall i, j | 0 <= i < j < |all| && "email" in all[i] && "email" in all[j]
      ensures all[i]["email"] != all[j]["email"]
    {
      if j == |users| {
        assert !EmailIs(users[i], u["email"].s);
      }
    }
  }

  /** Replacing a user by a document with the same address keeps the registry. */
  lemma ReplaceKeepsRegistry(users: seq<Doc>, i: nat, v: Doc)
    requires Registry(users)
    requires i < |users|
    requires "email" in v && v["email"] == users[i]["email"]
    ensures Registry(users[i := v])
  {
    var all := users[i := v];
    assert forall j :: 0 <= j < |all| ==> "email" in all[j] && all[j]["email"] == users[j]["email"];
  }

  // ---------------------------------------------------------------------------
  // Ledger consistency (the balance is derived from the transactions)

  /** `recomputeBalanceFromTransactions` written into `dashboard.balance`, for a given ledger. */
  predicate BalanceMatches(dashboard: map<string, Json>, ledger: seq<Json>) {
    "balance" in dashboard && dashboard["balance"] == BalanceJson(Recompute(Amounts(ledger)))
  }

  /** The stored balance is the one derived from the stored transactions. */
  predicate BalanceConsistent(u: Doc) {
    && "transactions" in u && u["transactions"].JArr?
    && "dashboard" in u && u["dashboard"].JObj?
    && BalanceMatches(u["dashboard"].fields, u["transactions"].items)
  }

  // ---------------------------------------------------------------------------
  // POST /register

  const AllFieldsRequired := "All fields are required"
  const EmailAlreadyRegistered := "Email already registered"

  predicate RegisterFieldsPresent(body: Doc) {
    Has(body, "name") && Has(body, "email") && Has(body, "password")
  }

  /** The document registration creates: every derived field at zero or empty. */
  function NewUser(name: string, email: string, password: Json): Doc {
    map[
      "name" := JStr(name),
      "email" := JStr(email),
      "password" := password,
      "dashboard" := JObj(map[
        "balance" := BalanceJson(Balance(0, 0, 0)),
        "quickAddDefaults" := JObj(map["categories" := JArr([]), "lastUsedDate" := JNull]),
        "miniCharts" := JObj(map[
          "incomeVsExpense" := JObj(map["income" := JNum(0), "expense" := JNum(0)]),
          "recentTransactions" := JArr([])])]),
      "transactions" := JArr([]),
      "budgets" := JObj(map[]),
      "reports" := JObj(map[
        "categoryBreakdown" := JObj(map[]),
        "netWorthTrend" := JArr([]),
        "monthlySpending" := JArr([])]),
      "settings" := JObj(map["theme" := JStr("light"), "exportFormat" := JArr([])])]
  }

  /** A new user starts with an empty ledger, a zero balance that is consistent with it, and an empty trail. */
  lemma NewUserIsConsistent(name: string, email: string, password: Json)
    ensures BalanceConsistent(NewUser(name, email, password))
    ensures NewUser(name, email, password)["transactions"] == JArr([])
    ensures NewUser(name, email, password)["dashboard"].fields["balance"] == BalanceJson(Balance(0, 0, 0))
  {
    assert Amounts([]) == [];
  }

  /** Registration goes through: fields present, store readable, string name and address not yet taken. */
  predicate RegisterAccepted(s: StoreFile, body: Doc) {
    && RegisterFieldsPresent(body)
    && Readable(s)
    && body["email"].JStr? && body["name"].JStr?
    && !EmailTaken(Loaded(s), Normalize(body["email"].s))
  }

  /** A user registered under an address not yet taken keeps addresses normalised and unique. */
  lemma RegistrationKeepsRegistry(users: seq<Doc>, name: string, email: string, password: Json)
    requires !EmailTaken(users, Normalize(email))
    ensures Registry(users) ==> Registry(users + [NewUser(Trim(name), Normalize(email), password)])
  {
    var e := Normalize(email);
    var u := NewUser(Trim(name), e, password);
    assert "email" in u && u["email"] == JStr(e);
    if Registry(users) {
      NormalizeIdempotent(email);
      AppendKeepsRegistry(users, u);
    }
  }

  method Register(f: UserFile, body: Doc) returns (resp: Reply)
    modifies f
    ensures !RegisterFieldsPresent(body) ==> resp == Failure(400, AllFieldsRequired) && f.file == old(f.file)
    ensures resp.status == 400 <==> !RegisterFieldsPresent(body)
    ensures resp.status == 409 <==>
      RegisterFieldsPresent(body) && Readable(old(f.file)) && body["email"].JStr? &&
      EmailTaken(Loaded(old(f.file)), Normalize(body["email"].s))
    ensures resp.status == 409 ==> resp == Failure(409, EmailAlreadyRegistered)
    ensures resp.status == 201 <==> RegisterAccepted(old(f.file), body)
    ensures resp.status == 201 ==>
      var u := NewUser(Trim(body["name"].s), Normalize(body["email"].s), body["password"]);
      && f.file == Holds(Loaded(old(f.file)) + [u])
      && resp == Success(201, "Registration successful", WithoutPassword(u))
    ensures resp.status !in {201, 400, 409} ==> resp == Failure(500, InternalError)
    ensures resp.status != 201 && resp.status != 400 ==> f.file == Initialised(old(f.file))
    ensures RegistryKept(Loaded(old(f.file)), Loaded(f.file))
  {
    if !RegisterFieldsPresent(body) {
      return Failure(400, AllFieldsRequired);
    }
    var read := f.ReadUsers();
    if read.None? {
      return Failure(500, InternalError);
    }
    var users := read.value;
    var email := body["email"];
    // `email.trim()` inside the `some` callback only runs when there is a user to test.
    if users != [] && !email.JStr? {
      return Failure(500, InternalError);
    }
    if email.JStr? && EmailTaken(users, Normalize(email.s)) {
      return Failure(409, EmailAlreadyRegistered);
    }
    var name := body["name"];
    if !name.JStr? || !email.JStr? {
      return Failure(500, InternalError);
    }
    var newUser := NewUser(Trim(name.s), Normalize(email.s), body["password"]);
    RegistrationKeepsRegistry(users, name.s, email.s, body["password"]);
    users := users + [newUser];
    f.WriteUsers(users);
    resp := Success(201, "Registration successful", WithoutPassword(newUser));
  }

  // ---------------------------------------------------------------------------
  // POST /login

  const CredentialsRequired := "Email and password are required"
  const InvalidCredentials := "Invalid credentials"

  /** `u.password === password` */
  predicate PasswordIs(u: Doc, password: Json) {
    "password" in u && StrictEq(u["password"], password)
  }

  /** The user `users.find(u => u.email === e && u.password === password)` returns, by index. */
  function LoginIndex(users: seq<Doc>, e: string, password: Json): int {
    IndexOf(users, (u: Doc) => EmailIs(u, e) && PasswordIs(u, password))
  }

  /** Login finds a user exactly when one has the normalised address and the same password. */
  lemma LoginIndexMeansMatch(users: seq<Doc>, e: string, password: Json)
    ensures LoginIndex(users, e, password) >= 0 <==>
      exists i :: 0 <= i < |users| && EmailIs(users[i], e) && PasswordIs(users[i], password)
    ensures LoginIndex(users, e, password) >= 0 ==>
      var i := LoginIndex(users, e, password);
      EmailIs(users[i], e) && PasswordIs(users[i], password)
  {
    var i := LoginIndex(users, e, password);
    if i == -1 {
      forall j | 0 <= j < |users|
        ensures !(EmailIs(users[j], e) && PasswordIs(users[j], password))
      {
        var p := (u: Doc) => EmailIs(u, e) && PasswordIs(u, password);
        assert !p(users[j]);
      }
    }
  }

  method Login(f: UserFile, body: Doc) returns (resp: Reply)
    modifies f
    ensures !(Has(body, "email") && Has(body, "password")) ==>
      resp == Failure(400, CredentialsRequired) && f.file == old(f.file)
    ensures resp.status == 400 <==> !(Has(body, "email") && Has(body, "password"))
    ensures resp.status != 400 ==> f.file == Initialised(old(f.file))
    ensures resp.status == 200 <==>
      && Has(body, "email") && Has(body, "password") && Readable(old(f.file)) && body["email"].JStr?
      && LoginIndex(Loaded(old(f.file)), Normalize(body["email"].s), body["password"]) >= 0
    ensures resp.status == 200 ==>
      var users := Loaded(old(f.file));
      resp == Success(200, "Login successful",
        WithoutPassword(users[LoginIndex(users, Normalize(body["email"].s), body["password"])]))
    ensures resp.status == 401 ==> resp == Failure(401, InvalidCredentials)
    ensures resp.status == 500 <==>
      Has(body, "email") && Has(body, "password") &&
      (!Readable(old(f.file)) || (Loaded(old(f.file)) != [] && !body["email"].JStr?))
    ensures resp.status in {200, 400, 401, 500}
  {
    if !(Has(body, "email") && Has(body, "password")) {
      return Failure(400, CredentialsRequired);
    }
    var read := f.ReadUsers();
    if read.None? {
      return Failure(500, InternalError);
    }
    var users := read.value;
    var email := body["email"];
    // `email.trim()` inside the `find` callback only runs when there is a user to test.
    if users != [] && !email.JStr? {
      return Failure(500, InternalError);
    }
    var i := if email.JStr? then LoginIndex(users, Normalize(email.s), body["password"]) else -1;
    if i == -1 {
      return Failure(401, InvalidCredentials);
    }
    resp := Success(200, "Login successful", WithoutPassword(users[i]));
  }

  // ---------------------------------------------------------------------------
  // GET /user/:email

  method GetUser(f: UserFile, param: string) returns (resp: Reply)
    modifies f
    ensures f.file == Initialised(old(f.file))
    ensures !Readable(old(f.file)) ==> resp == Failure(500, InternalError)
    ensures Readable(old(f.file)) ==>
      var users := Loaded(old(f.file));
      var i := FindUser(users, Lower(param));
      && (i == -1 ==> resp == Failure(404, UserNotFound))
      && (i >= 0 ==> resp == Reply(200, JObj(WithoutPassword(users[i]))))
  {
    var read := f.ReadUsers();
    if read.None? {
      return Failure(500, InternalError);
    }
    var users := read.value;
    var i := FindUser(users, Lower(param));
    if i == -1 {
      return Failure(404, UserNotFound);
    }
    resp := Reply(200, JObj(WithoutPassword(users[i])));
  }

  // ---------------------------------------------------------------------------
  // PUT /user/:email

  /** The keys the merge treats specially; every other key is copied wholesale. */
  const MergeManaged: set<string> := {"email", "password", "dashboard"}

  /** `merged.transactions` of `{ ...stored, ...body }`, when it is an array. */
  function MergedLedger(stored: Doc, body: Doc): Option<seq<Json>> {
    var m := stored + body;
    if "transactions" in m && m["transactions"].JArr? then Some(m["transactions"].items) else None
  }

  /**
   * `{ ...stored, ...body }` with the stored address forced back and the stored
   * password kept unless the body carries a truthy one.
   */
  function Protected(stored: Doc, body: Doc): Doc {
    var m0 := stored + body;
    var m1 := if "email" in stored then m0["email" := stored["email"]] else m0 - {"email"};
    if Has(body, "password") then m1
    else if "password" in stored then m1["password" := stored["password"]]
    else m1 - {"password"}
  }

  /** `dashboard.balance` recomputed whenever `transactions` is an array. */
  function WithBalance(m: Doc): Eval<Doc> {
    if "transactions" in m && m["transactions"].JArr? then
      match RecomputeFromTransactions(m["transactions"].items)
      case Throws => Throws
      case Done(b) =>
        match SlotOf(m, "dashboard")
        case Primitive => Throws
        case Array(_) => Done(m)
        case Fresh => Done(m["dashboard" := JObj(map["balance" := BalanceJson(b)])])
        case Object(dm) => Done(m["dashboard" := JObj(dm["balance" := BalanceJson(b)])])
    else
      Done(m)
  }

  /** The document PUT /user/:email stores, or the TypeError it throws. */
  function Merge(stored: Doc, body: Doc): Eval<Doc> {
    WithBalance(Protected(stored, body))
  }

  /** The merge only ever touches the protected keys and the dashboard. */
  lemma MergeFrame(stored: Doc, body: Doc, r: Eval<Doc>)
    requires r == Merge(stored, body)
    ensures r.Done? ==> forall k :: k !in MergeManaged ==>
      (k in r.value <==> k in stored + body) && (k in r.value ==> r.value[k] == (stored + body)[k])
  {
  }

  /** Every key the body carries, other than the protected ones, replaces the stored value wholesale. */
  lemma MergeReplacesWholesale(stored: Doc, body: Doc, k: string)
    requires Merge(stored, body).Done?
    requires k !in MergeManaged && k in body
    ensures k in Merge(stored, body).value && Merge(stored, body).value[k] == body[k]
  {
    MergeFrame(stored, body, Merge(stored, body));
  }

  /** The address can never be changed through an update. */
  lemma MergeKeepsEmail(stored: Doc, body: Doc)
    requires Merge(stored, body).Done?
    ensures "email" in Merge(stored, body).value <==> "email" in stored
    ensures "email" in stored ==> Merge(stored, body).value["email"] == stored["email"]
  {
  }

  /** A truthy password in the body replaces the stored one; otherwise the stored one is kept. */
  lemma MergePassword(stored: Doc, body: Doc)
    requires Merge(stored, body).Done?
    ensures Has(body, "password") ==>
      "password" in Merge(stored, body).value && Merge(stored, body).value["password"] == body["password"]
    ensures !Has(body, "password") ==>
      ("password" in Merge(stored, body).value <==> "password" in stored) &&
      ("password" in stored ==> Merge(stored, body).value["password"] == stored["password"])
  {
  }

  /** Without an array of transactions the merge cannot throw and the dashboard is what the spread gave. */
  lemma MergeWithoutLedger(stored: Doc, body: Doc)
    requires MergedLedger(stored, body).None?
    ensures Merge(stored, body).Done?
    ensures Merge(stored, body).value == Protected(stored, body)
    ensures ("dashboard" in Merge(stored, body).value <==> "dashboard" in stored + body)
    ensures "dashboard" in stored + body ==> Merge(stored, body).value["dashboard"] == (stored + body)["dashboard"]
  {
  }

  /**
   * With an array of transactions (the body's or the stored one) the balance is
   * recomputed from it: the merge throws on a `null` element or a non-object
   * truthy dashboard, leaves an array dashboard alone, and otherwise writes the
   * recomputed balance, keeping the dashboard's other keys.
   */
  lemma MergeRecomputesBalance(stored: Doc, body: Doc)
    requires MergedLedger(stored, body).Some?
    ensures
      var ledger := MergedLedger(stored, body).value;
      var slot := SlotOf(stored + body, "dashboard");
      var r := Merge(stored, body);
      && (r.Throws? <==> JNull in ledger || slot.Primitive?)
      && (r.Done? && slot.Array? ==> r.value["dashboard"] == (stored + body)["dashboard"])
      && (r.Done? && !slot.Array? ==>
            "dashboard" in r.value && r.value["dashboard"].JObj? &&
            BalanceMatches(r.value["dashboard"].fields, ledger) &&
            r.value["dashboard"].fields - {"balance"} == SlotFields(slot) - {"balance"})
  {
    var m := Protected(stored, body);
    assert m["transactions"] == (stored + body)["transactions"];
    assert SlotOf(m, "dashboard") == SlotOf(stored + body, "dashboard");
  }

  /** An update never changes an address, so the registry survives it. */
  lemma MergeKeepsRegistry(users: seq<Doc>, i: nat, body: Doc)
    requires i < |users|
    requires Merge(users[i], body).Done?
    ensures Registry(users) ==> Registry(users[i := Merge(users[i], body).value])
  {
    if Registry(users) {
      MergeKeepsEmail(users[i], body);
      ReplaceKeepsRegistry(users, i, Merge(users[i], body).value);
    }
  }

  method UpdateUser(f: UserFile, param: string, body: Doc) returns (resp: Reply)
    modifies f
    ensures !Readable(old(f.file)) ==> resp == Failure(500, InternalError) && f.file == old(f.file)
    ensures Readable(old(f.file)) ==>
      var users := Loaded(old(f.file));
      var i := FindUser(users, Lower(param));
      && (i == -1 ==> resp == Failure(404, UserNotFound) && f.file == Initialised(old(f.file)))
      && (i >= 0 && Merge(users[i], body).Throws? ==> resp == Failure(500, InternalError) && f.file == Initialised(old(f.file)))
      && (i >= 0 && Merge(users[i], body).Done? ==>
            var merged := Merge(users[i], body).value;
            f.file == Holds(users[i := merged]) && resp == Reply(200, JObj(WithoutPassword(merged))))
    ensures RegistryKept(Loaded(old(f.file)), Loaded(f.file))
  {
    var read := f.ReadUsers();
    if read.None? {
      return Failure(500, InternalError);
    }
    var users := read.value;
    var i := FindUser(users, Lower(param));
    if i == -1 {
      return Failure(404, UserNotFound);
    }
    resp := SaveMerged(f, users, i, body);
  }

  /** The merge of the found user and the rewrite of the store, once the user is found. */
  method SaveMerged(f: UserFile, users: seq<Doc>, i: nat, body: Doc) returns (resp: Reply)
    requires i < |users| && f.file == Holds(users)
    modifies f
    ensures Merge(users[i], body).Throws? ==> resp == Failure(500, InternalError) && f.file == Holds(users)
    ensures Merge(users[i], body).Done? ==>
      var merged := Merge(users[i], body).value;
      f.file == Holds(users[i := merged]) && resp == Reply(200, JObj(WithoutPassword(merged)))
    ensures RegistryKept(users, Loaded(f.file))
  {
    var merged := Merge(users[i], body);
    if merged.Throws? {
      return Failure(500, InternalError);
    }
    MergeKeepsRegistry(users, i, body);
    f.WriteUsers(users[i := merged.value]);
    resp := Reply(200, JObj(WithoutPassword(merged.value)));
  }

  // ---------------------------------------------------------------------------
  // POST /user/:email/transaction

  const TransactionInvalid := "transaction must include description, category and numeric amount"

  /** The amount is a number and the description and category are truthy. */
  predicate ValidTransactionBody(body: Doc) {
    "amount" in body && body["amount"].JNum? && Has(body, "description") && Has(body, "category")
  }

  /** `{ id: Date.now(), date: date || today, description, category, amount }` */
  function NewTransaction(body: Doc, now: int, today: string): Json
    requires ValidTransactionBody(body)
  {
    JObj(map[
      "id" := JNum(now),
      "date" := OrDefault(body, "date", JStr(today)),
      "description" := body["description"],
      "category" := body["category"],
      "amount" := body["amount"]])
  }

  function Abs(n: int): nat {
    if n < 0 then -n else n
  }

  /** `recent.push(x); recent.slice(-7)`: the trail of the last seven absolute amounts. */
  function PushRecent(recent: seq<Json>, x: Json): (r: seq<Json>)
    ensures 1 <= |r| <= 7 && |r| <= |recent| + 1
    ensures r[|r| - 1] == x
    ensures r == (recent + [x])[|recent| + 1 - |r|..]
  {
    LastN(recent + [x], 7)
  }

  /** The trail grows by one until it holds seven amounts, then stays at seven. */
  lemma PushRecentLength(recent: seq<Json>, x: Json)
    ensures |PushRecent(recent, x)| == if |recent| < 7 then |recent| + 1 else 7
  {
  }

  /** The trail after appending each of `xs` in turn. */
  function TrailAfter(recent: seq<Json>, xs: seq<Json>): seq<Json>
    decreases |xs|
  {
    if xs == [] then recent else TrailAfter(PushRecent(recent, xs[0]), xs[1..])
  }

  /** Appending one by one keeps the last seven of everything appended so far. */
  lemma {:induction false} TrailAfterIsLastSeven(recent: seq<Json>, xs: seq<Json>)
    requires xs != []
    ensures TrailAfter(recent, xs) == LastN(recent + xs, 7)
    decreases |xs|
  {
    assert recent + xs == (recent + [xs[0]]) + xs[1..];
    if |xs| == 1 {
      assert xs[1..] == [];
    } else {
      TrailAfterIsLastSeven(PushRecent(recent, xs[0]), xs[1..]);
      LastNAbsorbs(recent + [xs[0]], xs[1..], 7);
    }
  }

  /** After at least seven additions the trail is exactly the last seven added, in order. */
  lemma RecentTrailHoldsLastSeven(recent: seq<Json>, xs: seq<Json>)
    requires |xs| >= 7
    ensures TrailAfter(recent, xs) == xs[|xs| - 7..]
  {
    TrailAfterIsLastSeven(recent, xs);
    assert (recent + xs)[|recent + xs| - 7..] == xs[|xs| - 7..];
  }

  /** Recording a transaction throws on the document: which property access of the handler fails. */
  predicate RecordThrows(u: Doc, tx: Json) {
    var ts := SlotOf(u, "transactions");
    var dash := SlotOf(u, "dashboard");
    var mini := SlotOf(SlotFields(dash), "miniCharts");
    var recent := SlotOf(SlotFields(mini), "recentTransactions");
    || ts.Object? || ts.Primitive?
    || JNull in SlotItems(ts) + [tx]
    || dash.Primitive?
    || ((dash.Fresh? || dash.Object?) && mini.Primitive?)
    || ((dash.Fresh? || dash.Object?) && (mini.Fresh? || mini.Object?) && (recent.Object? || recent.Primitive?))
  }

  /** The document after a transaction was recorded: what changed, and that nothing else did. */
  predicate TransactionRecorded(u: Doc, v: Doc, tx: Json, x: nat) {
    var ledger := SlotItems(SlotOf(u, "transactions")) + [tx];
    var dash := SlotOf(u, "dashboard");
    && v - {"transactions", "dashboard"} == u - {"transactions", "dashboard"}
    && "transactions" in v && v["transactions"] == JArr(ledger)
    && "dashboard" in v
    && (dash.Array? ==> v["dashboard"] == u["dashboard"])
    && (!dash.Array? ==> v["dashboard"].JObj? && DashboardRecorded(SlotFields(dash), v["dashboard"].fields, ledger, x))
  }

  /** The dashboard after a transaction: balance recomputed, trail pushed, every other key kept. */
  predicate DashboardRecorded(before: map<string, Json>, after: map<string, Json>, ledger: seq<Json>, x: nat) {
    var mini := SlotOf(before, "miniCharts");
    && after - {"balance", "miniCharts"} == before - {"balance", "miniCharts"}
    && BalanceMatches(after, ledger)
    && "miniCharts" in after
    && (mini.Array? ==> after["miniCharts"] == before["miniCharts"])
    && (!mini.Array? ==>
          after["miniCharts"].JObj? &&
          var m0 := SlotFields(mini);
          var m1 := after["miniCharts"].fields;
          m1 - {"recentTransactions"} == m0 - {"recentTransactions"} &&
          "recentTransactions" in m1 &&
          m1["recentTransactions"] == JArr(PushRecent(SlotItems(SlotOf(m0, "recentTransactions")), JNum(x))))
  }

  /** Writing a key that is then removed leaves the remainder of the map as it was. */
  lemma WriteThenRemove(m: map<string, Json>, k: string, v: Json, ks: set<string>)
    requires k in ks
    ensures m[k := v] - ks == m - ks
  {
  }

  /** An array `miniCharts` takes no trail: the dashboard only gets the recomputed balance. */
  lemma ArrayMiniRecorded(before: map<string, Json>, ledger: seq<Json>, b: Balance, x: nat)
    requires RecomputeFromTransactions(ledger) == Done(b)
    requires SlotOf(before, "miniCharts").Array?
    ensures DashboardRecorded(before, before["balance" := BalanceJson(b)], ledger, x)
  {
    var after := before["balance" := BalanceJson(b)];
    assert b == Recompute(Amounts(ledger));
    WriteThenRemove(before, "balance", BalanceJson(b), {"balance", "miniCharts"});
    assert "miniCharts" in before && after["miniCharts"] == before["miniCharts"];
  }

  /** The balance is written and no dashboard key but the balance and `miniCharts` changes. */
  lemma BalanceWritten(before: map<string, Json>, ledger: seq<Json>, b: Balance, mini: Json, after: map<string, Json>)
    requires RecomputeFromTransactions(ledger) == Done(b)
    requires after == before["balance" := BalanceJson(b)]["miniCharts" := mini]
    ensures after - {"balance", "miniCharts"} == before - {"balance", "miniCharts"}
    ensures BalanceMatches(after, ledger)
  {
    var keys := {"balance", "miniCharts"};
    WriteThenRemove(before, "balance", BalanceJson(b), keys);
    WriteThenRemove(before["balance" := BalanceJson(b)], "miniCharts", mini, keys);
    assert b == Recompute(Amounts(ledger));
  }

  /** The trail is pushed and no other key of `miniCharts` changes. */
  lemma TrailWritten(m0: map<string, Json>, trail: Json, after: map<string, Json>)
    requires "miniCharts" in after && after["miniCharts"] == JObj(m0["recentTransactions" := trail])
    ensures
      var m1 := after["miniCharts"].fields;
      && m1 - {"recentTransactions"} == m0 - {"recentTransactions"}
      && "recentTransactions" in m1 && m1["recentTransactions"] == trail
  {
    WriteThenRemove(m0, "recentTransactions", trail, {"recentTransactions"});
  }

  /** An absent or object `miniCharts` gets the pushed trail beside the recomputed balance. */
  lemma ObjectMiniRecorded(before: map<string, Json>, ledger: seq<Json>, b: Balance, x: nat,
                           m0: map<string, Json>, trail: Json, after: map<string, Json>)
    requires RecomputeFromTransactions(ledger) == Done(b)
    requires SlotOf(before, "miniCharts").Fresh? || SlotOf(before, "miniCharts").Object?
    requires m0 == SlotFields(SlotOf(before, "miniCharts"))
    requires trail == JArr(PushRecent(SlotItems(SlotOf(m0, "recentTransactions")), JNum(x)))
    requires after == before["balance" := BalanceJson(b)]["miniCharts" := JObj(m0["recentTransactions" := trail])]
    ensures DashboardRecorded(before, after, ledger, x)
  {
    BalanceWritten(before, ledger, b, JObj(m0["recentTransactions" := trail]), after);
    TrailWritten(m0, trail, after);
  }

  /**
   * The in-place updates of `users[idx]`: push the transaction, recompute the
   * balance, push the absolute amount onto the recent trail and keep its last seven.
   */
  method RecordTransaction(u: Doc, tx: Json, amount: int) returns (r: Eval<Doc>)
    ensures r.Throws? <==> RecordThrows(u, tx)
    ensures r.Done? ==> TransactionRecorded(u, r.value, tx, Abs(amount))
  {
    // users[idx].transactions = users[idx].transactions || []; users[idx].transactions.push(tx)
    var ts := SlotOf(u, "transactions");
    if ts.Object? || ts.Primitive? {
      return Throws;
    }
    var ledger := SlotItems(ts) + [tx];
    var v := u["transactions" := JArr(ledger)];
    // users[idx].dashboard.balance = recomputeBalanceFromTransactions(users[idx].transactions)
    var balance := RecomputeFromTransactions(ledger);
    if balance.Throws? {
      return Throws;
    }
    var dash := SlotOf(u, "dashboard");
    if dash.Primitive? {
      return Throws;
    }
    if dash.Array? {
      return Done(v);
    }
    var dm := SlotFields(dash)["balance" := BalanceJson(balance.value)];
    // users[idx].dashboard.miniCharts = users[idx].dashboard.miniCharts || {}
    var mini := SlotOf(SlotFields(dash), "miniCharts");
    if mini.Primitive? {
      return Throws;
    }
    if mini.Array? {
      ArrayMiniRecorded(SlotFields(dash), ledger, balance.value, Abs(amount));
    } else {
      // const recent = miniCharts.recentTransactions || []; recent.push(Math.abs(amount))
      var recent := SlotOf(SlotFields(mini), "recentTransactions");
      if recent.Object? || recent.Primitive? {
        return Throws;
      }
      var trail := PushRecent(SlotItems(recent), JNum(Abs(amount)));
      dm := dm["miniCharts" := JObj(SlotFields(mini)["recentTransactions" := JArr(trail)])];
      ObjectMiniRecorded(SlotFields(dash), ledger, balance.value, Abs(amount),
                         SlotFields(mini), JArr(trail), dm);
    }
    v := v["dashboard" := JObj(dm)];
    r := Done(v);
  }

  /** A recorded transaction leaves the stored balance consistent with the stored ledger. */
  lemma RecordedIsConsistent(u: Doc, v: Doc, tx: Json, x: nat)
    requires TransactionRecorded(u, v, tx, x)
    requires !SlotOf(u, "dashboard").Array?
    ensures BalanceConsistent(v)
  {
  }

  /** Recording keeps the address, so the registry invariant survives it. */
  lemma RecordedKeepsEmail(u: Doc, v: Doc, tx: Json, x: nat)
    requires TransactionRecorded(u, v, tx, x)
    ensures ("email" in v <==> "email" in u) && ("email" in u ==> v["email"] == u["email"])
  {
    RecordedKeepsOtherKeys(u, v, tx, x);
    SameOutside(u, v, {"transactions", "dashboard"}, "email");
  }

  /** Recording touches only the ledger and the dashboard of the document. */
  lemma RecordedKeepsOtherKeys(u: Doc, v: Doc, tx: Json, x: nat)
    requires TransactionRecorded(u, v, tx, x)
    ensures v - {"transactions", "dashboard"} == u - {"transactions", "dashboard"}
  {
  }

  /** Two documents equal outside the keys `rest` agree on every other key. */
  lemma SameOutside(u: Doc, v: Doc, rest: set<string>, k: string)
    requires v - rest == u - rest
    requires k !in rest
    ensures (k in v <==> k in u) && (k in u ==> v[k] == u[k])
  {
    if k in u {
      assert k in u - rest && (u - rest)[k] == u[k];
    }
    if k in v {
      assert k in v - rest && (v - rest)[k] == v[k];
    }
  }

  /** Recording a transaction never changes an address, so the registry survives it. */
  lemma RecordingKeepsRegistry(users: seq<Doc>, i: nat, tx: Json, x: nat, v: Doc)
    requires i < |users|
    requires TransactionRecorded(users[i], v, tx, x)
    ensures Registry(users) ==> Registry(users[i := v])
  {
    if Registry(users) {
      RecordedKeepsEmail(users[i], v, tx, x);
      ReplaceKeepsRegistry(users, i, v);
    }
  }

  method AddTransaction(f: UserFile, param: string, body: Doc, now: int, today: string) returns (resp: Reply)
    modifies f
    ensures !ValidTransactionBody(body) ==> resp == Failure(400, TransactionInvalid) && f.file == old(f.file)
    ensures ValidTransactionBody(body) && !Readable(old(f.file)) ==>
      resp == Failure(500, InternalError) && f.file == old(f.file)
    ensures ValidTransactionBody(body) && Readable(old(f.file)) ==>
      var users := Loaded(old(f.file));
      var i := FindUser(users, Lower(param));
      var tx := NewTransaction(body, now, today);
      && (i == -1 ==> resp == Failure(404, UserNotFound) && f.file == Initialised(old(f.file)))
      && (i >= 0 && RecordThrows(users[i], tx) ==> resp == Failure(500, InternalError) && f.file == Initialised(old(f.file)))
      && (i >= 0 && !RecordThrows(users[i], tx) ==>
            && f.file.Holds? && |f.file.users| == |users|
            && (forall j :: 0 <= j < |users| && j != i ==> f.file.users[j] == users[j])
            && TransactionRecorded(users[i], f.file.users[i], tx, Abs(body["amount"].n))
            && resp == Success(200, "Transaction added", WithoutPassword(f.file.users[i])))
    ensures RegistryKept(Loaded(old(f.file)), Loaded(f.file))
  {
    if !ValidTransactionBody(body) {
      return Failure(400, TransactionInvalid);
    }
    var read := f.ReadUsers();
    if read.None? {
      return Failure(500, InternalError);
    }
    var users := read.value;
    var i := FindUser(users, Lower(param));
    if i == -1 {
      return Failure(404, UserNotFound);
    }
    var tx := NewTransaction(body, now, today);
    resp := SaveRecorded(f, users, i, tx, body["amount"].n);
  }

  /** Recording on the found user and the rewrite of the store, once the user is found. */
  method SaveRecorded(f: UserFile, users: seq<Doc>, i: nat, tx: Json, amount: int) returns (resp: Reply)
    requires i < |users| && f.file == Holds(users)
    modifies f
    ensures RecordThrows(users[i], tx) ==> resp == Failure(500, InternalError) && f.file == Holds(users)
    ensures !RecordThrows(users[i], tx) ==>
      && f.file.Holds? && |f.file.users| == |users|
      && (forall j :: 0 <= j < |users| && j != i ==> f.file.users[j] == users[j])
      && TransactionRecorded(users[i], f.file.users[i], tx, Abs(amount))
      && resp == Success(200, "Transaction added", WithoutPassword(f.file.users[i]))
    ensures RegistryKept(users, Loaded(f.file))
  {
    var recorded := RecordTransaction(users[i], tx, amount);
    if recorded.Throws? {
      return Failure(500, InternalError);
    }
    RecordingKeepsRegistry(users, i, tx, Abs(amount), recorded.value);
    f.WriteUsers(users[i := recorded.value]);
    resp := Success(200, "Transaction added", WithoutPassword(recorded.value));
  }

  // ---------------------------------------------------------------------------
  // GET /users

  /** `users.map(({ password, ...user }) => user)` */
  function SafeList(users: seq<Doc>): (r: seq<Json>)
    ensures |r| == |users|
    ensures forall i :: 0 <= i < |users| ==> r[i] == JObj(WithoutPassword(users[i]))
  {
    seq(|users|, i requires 0 <= i < |users| => JObj(WithoutPassword(users[i])))
  }

  method ListUsers(f: UserFile) returns (resp: Reply)
    modifies f
    ensures f.file == Initialised(old(f.file))
    ensures !Readable(old(f.file)) ==> resp == Failure(500, "Failed to retrieve users")
    ensures Readable(old(f.file)) ==> resp == Reply(200, JArr(SafeList(Loaded(old(f.file)))))
  {
    var read := f.ReadUsers();
    if read.None? {
      return Failure(500, "Failed to retrieve users");
    }
    resp := Reply(200, JArr(SafeList(read.value)));
  }
}
