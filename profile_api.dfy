/** PUT /api/members/profile (app/api/members/profile/route.ts): the
    signed-in account edits its own profile. Date parsing is the parameter
    `parseDate`; an unparsable date reaches the store as an invalid date,
    which the store refuses. */
module Profile {
  import opened Base
  import opened Cookies
  import opened Tokens
  import opened Users
  import opened Http

  /** The parsed JSON body; `None` when it is not JSON. */
  datatype ProfileBody = ProfileBody(name: Option<string>, email: Option<string>, dateOfBirth: Option<string>,
                                     title: Option<string>, phone: Option<string>, address: Option<string>)

  /** The `data` record of the update: the three required fields always,
      each optional field only when supplied (`None` leaves it out).
      `dateOfBirth` is `None` for an invalid date. */
  datatype UpdateData = UpdateData(name: string, email: string, dateOfBirth: Option<Date>,
                                   title: Option<string>, phone: Option<string>, address: Option<string>)

  /** `field !== undefined && field.trim() !== ''` */
  predicate Supplied(field: Option<string>) {
    field.Some? && Trim(field.value) != ""
  }

  /** The value an optional field contributes to `data`. */
  function Contribution(field: Option<string>): (r: Option<string>)
    ensures r.Some? <==> Supplied(field)
    ensures r.Some? ==> r.value == Trim(field.value) && r.value != ""
  {
    if Supplied(field) then Some(Trim(field.value)) else None
  }

  /** The `data` record the handler builds for a body that passed validation. */
  function DataFor(body: ProfileBody, parseDate: string -> Option<Date>): UpdateData
    requires body.name.Some? && body.email.Some? && body.dateOfBirth.Some?
  {
    UpdateData(Trim(body.name.value), Trim(body.email.value), parseDate(body.dateOfBirth.value),
               Contribution(body.title), Contribution(body.phone), Contribution(body.address))
  }

  /** Step 5: the record starts with the trimmed name and e-mail and the
      date, and each optional field is inserted in place when supplied. */
  method BuildUpdateData(body: ProfileBody, parseDate: string -> Option<Date>) returns (data: UpdateData)
    requires body.name.Some? && body.email.Some? && body.dateOfBirth.Some?
    ensures data == DataFor(body, parseDate)
    ensures data.name == Trim(body.name.value) && data.email == Trim(body.email.value)
    ensures data.title.Some? <==> Supplied(body.title)
    ensures data.phone.Some? <==> Supplied(body.phone)
    ensures data.address.Some? <==> Supplied(body.address)
  {
    data := UpdateData(Trim(body.name.value), Trim(body.email.value), parseDate(body.dateOfBirth.value),
                       None, None, None);
    if body.title.Some? && Trim(body.title.value) != "" {
      data := data.(title := Some(Trim(body.title.value)));
    }
    if body.phone.Some? && Trim(body.phone.value) != "" {
      data := data.(phone := Some(Trim(body.phone.value)));
    }
    if body.address.Some? && Trim(body.address.value) != "" {
      data := data.(address := Some(Trim(body.address.value)));
    }
  }

  /** The row after `update({ where: { id }, data })`: the fields in `data`
      take their new values, every other column keeps its stored one. */
  function Apply(u: User, data: UpdateData, dob: Date): (v: User)
    ensures v.id == u.id && v.uniqueId == u.uniqueId && v.passwordHash == u.passwordHash
    ensures v.role == u.role && v.image == u.image && v.createdAt == u.createdAt
    ensures v.name == Some(data.name) && v.email == data.email && v.dateOfBirth == Some(dob)
    ensures v.title == (if data.title.Some? then data.title else u.title)
    ensures v.phone == (if data.phone.Some? then data.phone else u.phone)
    ensures v.address == (if data.address.Some? then data.address else u.address)
  {
    u.(name := Some(data.name), email := data.email, dateOfBirth := Some(dob),
       title := if data.title.Some? then data.title else u.title,
       phone := if data.phone.Some? then data.phone else u.phone,
       address := if data.address.Some? then data.address else u.address)
  }

  /** The `select` of the update: every column but the password hash. */
  datatype ProfileUser = ProfileUser(id: string, uniqueId: string, name: Option<string>, email: string,
                                     dateOfBirth: Option<Date>, title: Option<string>, phone: Option<string>,
                                     address: Option<string>, image: Option<string>, role: Role, createdAt: Date)

  function Project(u: User): ProfileUser {
    ProfileUser(u.id, u.uniqueId, u.name, u.email, u.dateOfBirth, u.title, u.phone, u.address, u.image,
                u.role, u.createdAt)
  }

  datatype ProfileReply = ProfileUpdated(user: ProfileUser) | ProfileError(error: string)

  /** The response together with the table it leaves behind. */
  datatype Outcome = Outcome(response: Response<ProfileReply>, rows: seq<User>)

  function Answer(rows: seq<User>, status: int, error: string): Handled<Outcome> {
    Returned(Outcome(JsonWithStatus(ProfileError(error), status), rows))
  }

  /** The three required fields are present and non-empty. */
  predicate HasRequired(body: ProfileBody) {
    Truthy(body.name) && Truthy(body.email) && Truthy(body.dateOfBirth)
  }

  /** The account the request's session names, when its token verifies. */
  function Caller(c: Codec, env: Env, cookies: map<string, string>): Option<Option<string>> {
    if PresentToken(cookies).Some? && VerifyJwt(c, env, PresentToken(cookies).value).Some?
    then Some(UserIdOf(VerifyJwt(c, env, PresentToken(cookies).value).value))
    else None
  }

  /** The store's update for a caller whose e-mail check passed: 500 when
      the date is invalid, the caller has no row, the new e-mail is taken
      by another row, or the store fails. */
  function Store(rows: seq<User>, userId: Option<string>, data: UpdateData, fault: bool): (r: Handled<Outcome>)
    requires UniqueKeys(rows)
    ensures r.Returned?
    ensures r.response.response.status == 200 || r.response == Outcome(JsonWithStatus(ProfileError("Failed to update profile"), 500), rows)
    ensures r.response.response.status == 200 <==>
              userId.Some? && data.dateOfBirth.Some? && FindById(rows, userId.value).Some?
              && Updated(rows, userId.value, Apply(FindById(rows, userId.value).value, data, data.dateOfBirth.value),
                         fault).Some?
    ensures r.response.response.status == 200 ==>
              var u := Apply(FindById(rows, userId.value).value, data, data.dateOfBirth.value);
              r.response == Outcome(Json(ProfileUpdated(Project(u))), Updated(rows, userId.value, u, fault).value)
  {
    if userId.None? || data.dateOfBirth.None? then Answer(rows, 500, "Failed to update profile")
    else match FindById(rows, userId.value)
      case None => Answer(rows, 500, "Failed to update profile")
      case Some(current) =>
        var u := Apply(current, data, data.dateOfBirth.value);
        match Updated(rows, userId.value, u, fault)
        case None => Answer(rows, 500, "Failed to update profile")
        case Some(next) => Returned(Outcome(Json(ProfileUpdated(Project(u))), next))
  }

  /** `PUT(req)`. A failure of the e-mail lookup (`lookupFault`) is not
      caught; a failure of the update (`updateFault`) is answered with 500. */
  function PutProfile(c: Codec, env: Env, cookies: map<string, string>, rows: seq<User>, body: Option<ProfileBody>,
                      parseDate: string -> Option<Date>, lookupFault: bool, updateFault: bool): (r: Handled<Outcome>)
    requires UniqueKeys(rows)
    ensures PresentToken(cookies).None? ==> r == Answer(rows, 401, "Not authenticated")
    ensures PresentToken(cookies).Some? && Caller(c, env, cookies).None? ==> r == Answer(rows, 401, "Invalid token")
    ensures r.Threw? <==> Caller(c, env, cookies).Some? && (body.None? || (HasRequired(body.value) && lookupFault))
    ensures Caller(c, env, cookies).Some? && body.Some? && !HasRequired(body.value) ==>
              r == Answer(rows, 400, "Name, email, and dateOfBirth are required")
    ensures r.Returned? && r.response.response.status == 409 <==>
              Caller(c, env, cookies).Some? && body.Some? && HasRequired(body.value) && !lookupFault
              && FindByEmail(rows, body.value.email.value).Some?
              && Some(FindByEmail(rows, body.value.email.value).value.id) != Caller(c, env, cookies).value
    ensures r.Returned? && r.response.response.status != 200 ==> r.response.rows == rows
    ensures r.Returned? ==> r.response.response.cookie.None?
    ensures Caller(c, env, cookies).Some? && body.Some? && HasRequired(body.value) && !lookupFault
            && (FindByEmail(rows, body.value.email.value).None?
                || Some(FindByEmail(rows, body.value.email.value).value.id) == Caller(c, env, cookies).value) ==>
              r == Store(rows, Caller(c, env, cookies).value, DataFor(body.value, parseDate), updateFault)
  {
    match PresentToken(cookies)
    case None => Answer(rows, 401, "Not authenticated")
    case Some(token) =>
      match VerifyJwt(c, env, token)
      case None => Answer(rows, 401, "Invalid token")
      case Some(claims) =>
        var userId := UserIdOf(claims);
        if body.None? then Threw
        else if !HasRequired(body.value) then Answer(rows, 400, "Name, email, and dateOfBirth are required")
        else if lookupFault then Threw
        else
          var existing := FindByEmail(rows, body.value.email.value);
          if existing.Some? && Some(existing.value.id) != userId then Answer(rows, 409, "That email is already in use")
          else Store(rows, userId, DataFor(body.value, parseDate), updateFault)
  }

  /** A successful update rewrites the caller's row, and only it: the
      trimmed name and e-mail and the date always, each optional field
      trimmed when supplied and as stored otherwise; the answer is that
      row without its hash. */
  lemma {:induction false} UpdateTouchesOnlyCaller(c: Codec, env: Env, cookies: map<string, string>, rows: seq<User>,
                                                   body: ProfileBody, parseDate: string -> Option<Date>)
    requires UniqueKeys(rows)
    requires var r := PutProfile(c, env, cookies, rows, Some(body), parseDate, false, false);
             r.Returned? && r.response.response.status == 200
    ensures Caller(c, env, cookies).Some? && Caller(c, env, cookies).value.Some?
    ensures var id := Caller(c, env, cookies).value.value;
            var after := PutProfile(c, env, cookies, rows, Some(body), parseDate, false, false).response.rows;
            var data := DataFor(body, parseDate);
            data.dateOfBirth.Some?
            && |after| == |rows|
            && (forall k :: 0 <= k < |rows| && rows[k].id != id ==> after[k] == rows[k])
            && (exists k :: (0 <= k < |rows| && rows[k].id == id
                             && after[k] == Apply(rows[k], data, data.dateOfBirth.value)
                             && PutProfile(c, env, cookies, rows, Some(body), parseDate, false, false).response.response.body
                                == ProfileUpdated(Project(after[k]))))
  {
    var id := Caller(c, env, cookies).value.value;
    var data := DataFor(body, parseDate);
    var current := FindById(rows, id).value;
    var k :| 0 <= k < |rows| && rows[k] == current;
    var u := Apply(current, data, data.dateOfBirth.value);
    assert Updated(rows, id, u, false).Some?;
  }

  /** Re-submitting the caller's own e-mail is not a conflict. */
  lemma OwnEmailAccepted(c: Codec, env: Env, cookies: map<string, string>, rows: seq<User>, k: nat,
                         body: ProfileBody, parseDate: string -> Option<Date>)
    requires UniqueKeys(rows) && k < |rows|
    requires Caller(c, env, cookies) == Some(Some(rows[k].id))
    requires HasRequired(body) && body.email == Some(rows[k].email)
    ensures PutProfile(c, env, cookies, rows, Some(body), parseDate, false, false).response.response.status != 409
  {
    FindByEmailUnique(rows, k);
  }

  /** The conflict check uses the e-mail as sent, the update the trimmed
      e-mail: a padded copy of another account's address passes the check
      and is then refused by the store's unique constraint, with 500. */
  lemma PaddedEmailReachesStore(c: Codec, env: Env, cookies: map<string, string>, rows: seq<User>, k: nat, j: nat,
                                body: ProfileBody, parseDate: string -> Option<Date>)
    requires UniqueKeys(rows) && k < |rows| && j < |rows| && k != j
    requires Caller(c, env, cookies) == Some(Some(rows[k].id))
    requires HasRequired(body) && body.email == Some(" " + rows[j].email)
    requires FindByEmail(rows, " " + rows[j].email).None?
    requires parseDate(body.dateOfBirth.value).Some?
    requires Trim(" " + rows[j].email) == rows[j].email
    ensures PutProfile(c, env, cookies, rows, Some(body), parseDate, false, false)
            == Answer(rows, 500, "Failed to update profile")
  {
    FindByIdUnique(rows, k);
  }

  /** The update step against the table, as `Store` describes it. */
  method StoreUpdate(table: UserTable, userId: Option<string>, data: UpdateData, fault: bool)
    returns (r: Handled<Response<ProfileReply>>)
    requires table.Valid()
    modifies table
    ensures table.Valid()
    ensures r == Returned(Store(old(table.rows), userId, data, fault).response.response)
    ensures table.rows == Store(old(table.rows), userId, data, fault).response.rows
  {
    var failed := JsonWithStatus(ProfileError("Failed to update profile"), 500);
    if userId.None? || data.dateOfBirth.None? {
      return Returned(failed);
    }
    var current := FindById(table.rows, userId.value);
    if current.None? {
      return Returned(failed);
    }
    var u := Apply(current.value, data, data.dateOfBirth.value);
    var ok := table.Update(userId.value, u, fault);
    if !ok {
      return Returned(failed);
    }
    r := Returned(Json(ProfileUpdated(Project(u))));
  }

  /** The handler as it runs against the table: the `data` record built in
      place, then one update of the caller's row. */
  method UpdateProfile(table: UserTable, c: Codec, env: Env, cookies: map<string, string>, body: Option<ProfileBody>,
                       parseDate: string -> Option<Date>, lookupFault: bool, updateFault: bool)
    returns (r: Handled<Response<ProfileReply>>)
    requires table.Valid()
    modifies table
    ensures table.Valid()
    ensures var spec := PutProfile(c, env, cookies, old(table.rows), body, parseDate, lookupFault, updateFault);
            (r.Threw? <==> spec.Threw?)
            && (spec.Returned? ==> r == Returned(spec.response.response) && table.rows == spec.response.rows)
            && (spec.Threw? ==> table.rows == old(table.rows))
  {
    var token := PresentToken(cookies);
    if token.None? {
      return Returned(JsonWithStatus(ProfileError("Not authenticated"), 401));
    }
    var claims := VerifyJwt(c, env, token.value);
    if claims.None? {
      return Returned(JsonWithStatus(ProfileError("Invalid token"), 401));
    }
    var userId := UserIdOf(claims.value);
    if body.None? {
      return Threw;
    }
    if !HasRequired(body.value) {
      return Returned(JsonWithStatus(ProfileError("Name, email, and dateOfBirth are required"), 400));
    }
    if lookupFault {
      return Threw;
    }
    var existing := FindByEmail(table.rows, body.value.email.value);
    if existing.Some? && Some(existing.value.id) != userId {
      return Returned(JsonWithStatus(ProfileError("That email is already in use"), 409));
    }
    var data := BuildUpdateData(body.value, parseDate);
    r := StoreUpdate(table, userId, data, updateFault);
  }
}
