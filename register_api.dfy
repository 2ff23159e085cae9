/** POST /api/members/register (app/api/members/register/route.ts): validates
    the body, refuses a taken e-mail, and creates a member account. Date
    parsing (`new Date(s)` and its NaN test) is the parameter `parseDate`;
    the bcrypt hash the handler stores is the input `hashed`; the values the
    store generates for a new row are the input `gen`. */
module RegisterApi {
  import opened Base
  import opened Users
  import opened Http
  import opened Tokens
  import Login

  /** The parsed JSON body: every field optional, two spellings for the name
      and for the date of birth. `None` stands for a body that is not JSON. */
  datatype RegisterBody = RegisterBody(fullName: Option<string>, name: Option<string>,
                                       email: Option<string>, password: Option<string>,
                                       dob: Option<string>, dateOfBirth: Option<string>)

  /** The fields of a body that passed validation. */
  datatype Registration = Registration(name: string, email: string, password: string, dateOfBirth: Date)

  /** The values the store fills in for a new row. */
  datatype Generated = Generated(id: string, uniqueId: string, createdAt: Date)

  /** The `select` of the create call: the new row without its hash. */
  datatype CreatedUser = CreatedUser(id: string, uniqueId: string, name: Option<string>, email: string,
                                     dateOfBirth: Option<Date>, role: Role, createdAt: Date)

  datatype RegisterReply = Registered(user: CreatedUser) | RegisterError(error: string)

  /** The response together with the table it leaves behind. */
  datatype Outcome = Outcome(response: Response<RegisterReply>, rows: seq<User>)

  /** `body.name ?? body.fullName` */
  function NameOf(body: RegisterBody): Option<string> {
    Coalesce(body.name, body.fullName)
  }

  /** `body.dateOfBirth ?? body.dob` */
  function DateOf(body: RegisterBody): Option<string> {
    Coalesce(body.dateOfBirth, body.dob)
  }

  /** The four presence checks in their order, then the date check. */
  function Validate(body: RegisterBody, parseDate: string -> Option<Date>): (r: Result<Registration, string>)
    ensures r.Ok? <==> Truthy(NameOf(body)) && Truthy(body.email) && Truthy(body.password)
                       && Truthy(DateOf(body)) && parseDate(DateOf(body).value).Some?
    ensures r.Ok? ==> r.value == Registration(NameOf(body).value, body.email.value, body.password.value,
                                              parseDate(DateOf(body).value).value)
    ensures !Truthy(NameOf(body)) ==> r == Err("Name is required")
    ensures Truthy(NameOf(body)) && !Truthy(body.email) ==> r == Err("Email is required")
    ensures Truthy(NameOf(body)) && Truthy(body.email) && !Truthy(body.password) ==> r == Err("Password is required")
    ensures Truthy(NameOf(body)) && Truthy(body.email) && Truthy(body.password) && !Truthy(DateOf(body)) ==>
              r == Err("Date of birth is required")
    ensures r.Err? && Truthy(NameOf(body)) && Truthy(body.email) && Truthy(body.password) && Truthy(DateOf(body)) ==>
              r == Err("Invalid date format, use YYYY-MM-DD")
  {
    if !Truthy(NameOf(body)) then Err("Name is required")
    else if !Truthy(body.email) then Err("Email is required")
    else if !Truthy(body.password) then Err("Password is required")
    else if !Truthy(DateOf(body)) then Err("Date of birth is required")
    else match parseDate(DateOf(body).value)
      case None => Err("Invalid date format, use YYYY-MM-DD")
      case Some(d) => Ok(Registration(NameOf(body).value, body.email.value, body.password.value, d))
  }

  /** The row `create` inserts: a member with the given name, e-mail, hash and
      birth date, and nothing else set. */
  function NewMember(reg: Registration, hashed: string, gen: Generated): (u: User)
    ensures u.role == Member && u.email == reg.email && u.passwordHash == hashed
    ensures u.name == Some(reg.name) && u.dateOfBirth == Some(reg.dateOfBirth)
    ensures u.id == gen.id && u.title.None? && u.phone.None? && u.address.None? && u.image.None?
  {
    User(gen.id, gen.uniqueId, reg.email, hashed, Some(reg.name), Member, Some(reg.dateOfBirth),
         None, None, None, None, gen.createdAt)
  }

  /** The projection the handler answers with. */
  function Project(u: User): (p: CreatedUser)
    ensures p.id == u.id && p.email == u.email && p.role == u.role && p.name == u.name
  {
    CreatedUser(u.id, u.uniqueId, u.name, u.email, u.dateOfBirth, u.role, u.createdAt)
  }

  function Refuse(rows: seq<User>, status: int, error: string): Handled<Outcome> {
    Returned(Outcome(JsonWithStatus(RegisterError(error), status), rows))
  }

  /** `POST(req)`. A failure of the e-mail lookup (`lookupFault`) is not
      caught; a failure of the insert (`createFault`, or a key the insert
      finds taken) is answered with 500. */
  function Register(rows: seq<User>, body: Option<RegisterBody>, parseDate: string -> Option<Date>,
                    lookupFault: bool, hashed: string, gen: Generated, createFault: bool): (r: Handled<Outcome>)
    ensures body.None? ==> r == Refuse(rows, 400, "Invalid JSON")
    ensures body.Some? && Validate(body.value, parseDate).Err? ==>
              r == Refuse(rows, 400, Validate(body.value, parseDate).error)
    ensures r.Threw? <==> body.Some? && Validate(body.value, parseDate).Ok? && lookupFault
    ensures r.Returned? ==> r.response.response.cookie.None?
    ensures r.Returned? ==> (r.response.response.status == 201 <==> r.response.rows != rows)
    ensures r.Returned? && r.response.response.status == 409 <==>
              body.Some? && Validate(body.value, parseDate).Ok? && !lookupFault
              && FindByEmail(rows, Validate(body.value, parseDate).value.email).Some?
    ensures r.Returned? && r.response.response.status == 201 ==>
              var u := NewMember(Validate(body.value, parseDate).value, hashed, gen);
              r.response == Outcome(Response(201, Registered(Project(u)), None), rows + [u])
    ensures body.Some? && Validate(body.value, parseDate).Ok? && !lookupFault
            && FindByEmail(rows, Validate(body.value, parseDate).value.email).None? ==>
              var u := NewMember(Validate(body.value, parseDate).value, hashed, gen);
              r.Returned?
              && (r.response.response.status == 201 <==> Created(rows, u, createFault).Some?)
              && (r.response.response.status != 201 ==> r == Refuse(rows, 500, "Database error"))
  {
    if body.None? then Refuse(rows, 400, "Invalid JSON")
    else match Validate(body.value, parseDate)
      case Err(e) => Refuse(rows, 400, e)
      case Ok(reg) =>
        if lookupFault then Threw
        else if FindByEmail(rows, reg.email).Some? then Refuse(rows, 409, "Email already registered")
        else
          var u := NewMember(reg, hashed, gen);
          match Created(rows, u, createFault)
          case None => Refuse(rows, 500, "Database error")
          case Some(next) =>
            assert |next| == |rows| + 1;
            Returned(Outcome(JsonWithStatus(Registered(Project(u)), 201), next))
  }

  /** `??` is not `||`: an empty `name` hides a present `fullName`. */
  lemma EmptyNameShadowsFullName(body: RegisterBody, parseDate: string -> Option<Date>)
    requires body.name == Some("") && Truthy(body.fullName)
    ensures Register([], Some(body), parseDate, false, "", Generated("", "", 0), false)
            == Refuse([], 400, "Name is required")
  {
  }

  /** Registering keeps the table's unique keys. */
  lemma RegisterKeepsKeys(rows: seq<User>, body: Option<RegisterBody>, parseDate: string -> Option<Date>,
                          lookupFault: bool, hashed: string, gen: Generated, createFault: bool)
    requires UniqueKeys(rows)
    requires Register(rows, body, parseDate, lookupFault, hashed, gen, createFault).Returned?
    ensures UniqueKeys(Register(rows, body, parseDate, lookupFault, hashed, gen, createFault).response.rows)
  {
    var r := Register(rows, body, parseDate, lookupFault, hashed, gen, createFault);
    if r.response.response.status == 201 {
      var u := NewMember(Validate(body.value, parseDate).value, hashed, gen);
      CreatedKeepsKeys(rows, u, createFault);
    }
  }

  /** A fresh registration can log in at once at the member endpoint with the
      password it registered, provided the stored hash matches that password. */
  lemma {:induction false} RegisterThenMemberLogin(c: Codec, env: Env, rows: seq<User>, body: RegisterBody,
                                                   parseDate: string -> Option<Date>, hashed: string,
                                                   gen: Generated, checkPassword: (string, string) -> bool)
    requires Register(rows, Some(body), parseDate, false, hashed, gen, false).Returned?
    requires Register(rows, Some(body), parseDate, false, hashed, gen, false).response.response.status == 201
    requires checkPassword(body.password.value, hashed)
    ensures var after := Register(rows, Some(body), parseDate, false, hashed, gen, false).response.rows;
            var u := NewMember(Validate(body, parseDate).value, hashed, gen);
            Login.MemberLogin(c, env, after, Some(Login.Credentials(body.email, body.password)), false, checkPassword)
            == Login.Welcome(c, env, u)
  {
    var reg := Validate(body, parseDate).value;
    var u := NewMember(reg, hashed, gen);
    var after := rows + [u];
    assert after[|after| - 1] == u;
    assert FindByEmail(after, reg.email) == Some(u);
  }

  /** The handler as it runs against the table: the response, and the table
      updated exactly as `Register` says. */
  method RegisterMember(table: UserTable, body: Option<RegisterBody>, parseDate: string -> Option<Date>,
                        lookupFault: bool, hashed: string, gen: Generated, createFault: bool)
    returns (r: Handled<Response<RegisterReply>>)
    requires table.Valid()
    modifies table
    ensures table.Valid()
    ensures var spec := Register(old(table.rows), body, parseDate, lookupFault, hashed, gen, createFault);
            (r.Threw? <==> spec.Threw?)
            && (spec.Returned? ==> r == Returned(spec.response.response) && table.rows == spec.response.rows)
            && (spec.Threw? ==> table.rows == old(table.rows))
  {
    if body.None? {
      return Returned(JsonWithStatus(RegisterError("Invalid JSON"), 400));
    }
    var v := Validate(body.value, parseDate);
    if v.Err? {
      return Returned(JsonWithStatus(RegisterError(v.error), 400));
    }
    var reg := v.value;
    if lookupFault {
      return Threw;
    }
    if FindByEmail(table.rows, reg.email).Some? {
      return Returned(JsonWithStatus(RegisterError("Email already registered"), 409));
    }
    var u := NewMember(reg, hashed, gen);
    var ok := table.Create(u, createFault);
    if !ok {
      return Returned(JsonWithStatus(RegisterError("Database error"), 500));
    }
    r := Returned(JsonWithStatus(Registered(Project(u)), 201));
  }
}
