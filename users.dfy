/** The `User` table behind the data-access client, as far as the handlers
    use it: rows, the two unique keys (`id`, `email`), `findUnique`,
    `create` and `update`. The client itself is not modelled; a store
    failure is an explicit `fault` input. */
module Users {
  import opened Base

  datatype User = User(
    id: string,
    uniqueId: string,
    email: string,
    passwordHash: string,
    name: Option<string>,
    role: Role,
    dateOfBirth: Option<Date>,
    title: Option<string>,
    phone: Option<string>,
    address: Option<string>,
    image: Option<string>,
    createdAt: Date)

  /** The table's unique constraints on `id` and on `email`. */
  ghost predicate UniqueKeys(rows: seq<User>) {
    forall i, j :: 0 <= i < j < |rows| ==> rows[i].id != rows[j].id && rows[i].email != rows[j].email
  }

  /** The two unique columns a row is looked up by. */
  datatype UniqueColumn = IdColumn | EmailColumn

  /** A row's value in a unique column. */
  function KeyOf(u: User, column: UniqueColumn): string {
    match column
    case IdColumn => u.id
    case EmailColumn => u.email
  }

  /** Position of the last row holding `key` in `column`, if any (under
      the unique keys, of the only such row). */
  function IndexOf(rows: seq<User>, column: UniqueColumn, key: string): (r: Option<nat>)
    ensures r.Some? ==> r.value < |rows| && KeyOf(rows[r.value], column) == key
    ensures r.None? ==> forall i :: 0 <= i < |rows| ==> KeyOf(rows[i], column) != key
  {
    if rows == [] then None
    else if KeyOf(rows[|rows| - 1], column) == key then Some(|rows| - 1)
    else IndexOf(rows[..|rows| - 1], column, key)
  }

  /** `findUnique({ where: { email } })` */
  function FindByEmail(rows: seq<User>, email: string): (r: Option<User>)
    ensures r.Some? ==> r.value in rows && r.value.email == email
    ensures r.None? ==> forall u :: u in rows ==> u.email != email
  {
    match IndexOf(rows, EmailColumn, email)
    case None => None
    case Some(i) => Some(rows[i])
  }

  /** `findUnique({ where: { id } })` */
  function FindById(rows: seq<User>, id: string): (r: Option<User>)
    ensures r.Some? ==> r.value in rows && r.value.id == id
    ensures r.None? ==> forall u :: u in rows ==> u.id != id
  {
    match IndexOf(rows, IdColumn, id)
    case None => None
    case Some(i) => Some(rows[i])
  }

  /** Under the unique constraints a lookup finds THE row with that key. */
  lemma FindByEmailUnique(rows: seq<User>, k: nat)
    requires UniqueKeys(rows) && k < |rows|
    ensures FindByEmail(rows, rows[k].email) == Some(rows[k])
  {
  }

  lemma FindByIdUnique(rows: seq<User>, k: nat)
    requires UniqueKeys(rows) && k < |rows|
    ensures FindById(rows, rows[k].id) == Some(rows[k])
  {
  }

  /** `create({ data })`: the table with the new row appended, or `None` when
      the store throws (a failure, or a unique key already taken). */
  function Created(rows: seq<User>, u: User, fault: bool): (r: Option<seq<User>>)
    ensures r.Some? <==> !fault && FindByEmail(rows, u.email).None? && FindById(rows, u.id).None?
    ensures r.Some? ==> r.value == rows + [u]
  {
    if fault || FindByEmail(rows, u.email).Some? || FindById(rows, u.id).Some? then None
    else Some(rows + [u])
  }

  /** `update({ where: { id }, data })` with the row's new value `u`: `None`
      when the store throws (a failure, no row with that id, or the new e-mail
      taken by another row). */
  function Updated(rows: seq<User>, id: string, u: User, fault: bool): (r: Option<seq<User>>)
    requires UniqueKeys(rows) && u.id == id
    ensures r.Some? <==> !fault && FindById(rows, id).Some?
                         && (forall k :: 0 <= k < |rows| && rows[k].id != id ==> rows[k].email != u.email)
    ensures r.Some? ==> |r.value| == |rows|
                        && forall k :: 0 <= k < |rows| ==> r.value[k] == if rows[k].id == id then u else rows[k]
  {
    match IndexOf(rows, IdColumn, id)
    case None => None
    case Some(i) =>
      if fault || exists k :: 0 <= k < |rows| && rows[k].id != id && rows[k].email == u.email then None
      else Some(rows[i := u])
  }

  /** Creating keeps the unique constraints. */
  lemma CreatedKeepsKeys(rows: seq<User>, u: User, fault: bool)
    requires UniqueKeys(rows) && Created(rows, u, fault).Some?
    ensures UniqueKeys(Created(rows, u, fault).value)
  {
    var r := rows + [u];
    forall i, j | 0 <= i < j < |r| ensures r[i].id != r[j].id && r[i].email != r[j].email {
      if j == |rows| { assert rows[i] in rows; }
    }
  }

  /** Updating keeps the unique constraints. */
  lemma UpdatedKeepsKeys(rows: seq<User>, id: string, u: User, fault: bool)
    requires UniqueKeys(rows) && u.id == id && Updated(rows, id, u, fault).Some?
    ensures UniqueKeys(Updated(rows, id, u, fault).value)
  {
    var r := Updated(rows, id, u, fault).value;
    forall i, j | 0 <= i < j < |r| ensures r[i].id != r[j].id && r[i].email != r[j].email {
      if rows[i].id == id && rows[j].id == id {
        assert false;
      }
    }
  }

  /** The mutable table. */
  class UserTable {
    var rows: seq<User>

    ghost predicate Valid()
      reads this
    {
      UniqueKeys(rows)
    }

    constructor (initial: seq<User>)
      requires UniqueKeys(initial)
      ensures Valid() && rows == initial
    {
      rows := initial;
    }

    /** `prisma.user.create`: `false` when it throws, nothing changed then. */
    method Create(u: User, fault: bool) returns (ok: bool)
      requires Valid()
      modifies this
      ensures Valid()
      ensures ok <==> Created(old(rows), u, fault).Some?
      ensures rows == if ok then Created(old(rows), u, fault).value else old(rows)
    {
      var next := Created(rows, u, fault);
      ok := next.Some?;
      if ok {
        CreatedKeepsKeys(rows, u, fault);
        rows := next.value;
      }
    }

    /** `prisma.user.update`: `false` when it throws, nothing changed then. */
    method Update(id: string, u: User, fault: bool) returns (ok: bool)
      requires Valid() && u.id == id
      modifies this
      ensures Valid()
      ensures ok <==> Updated(old(rows), id, u, fault).Some?
      ensures rows == if ok then Updated(old(rows), id, u, fault).value else old(rows)
    {
      var next := Updated(rows, id, u, fault);
      ok := next.Some?;
      if ok {
        UpdatedKeepsKeys(rows, id, u, fault);
        rows := next.value;
      }
    }
  }
}
