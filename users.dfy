/**
 * The `users` table (src/modules/users/entities/user.entity.ts) and the thin
 * repository wrapper of src/modules/users/users.service.ts over it: rows in
 * insertion order, `findOne` returning the first matching row, `create`
 * appending, `update(id, partial)` rewriting the row with that id.
 */
module Users {
  import opened Wrappers

  /**
   * A user row. `provider` is stored as text because the services write
   * values ('phone_otp', 'email_pwd', 'email_otp') next to the AuthProvider
   * members. `profileCompleted`, `isAdvisor` and `questionnaireCompleted` are
   * read and written by the services although the entity file does not list them.
   */
  datatype User = User(
    id: string,
    email: Option<string>,
    password: Option<string>,
    phone: Option<string>,
    provider: string,
    isEmailVerified: bool,
    isPhoneVerified: bool,
    isDeleted: bool,
    lastLoginAt: Option<int>,
    profileCompleted: bool,
    isAdvisor: bool,
    questionnaireCompleted: bool)

  /**
   * The row `usersRepo.save(usersRepo.create(partial))` stores: the given
   * columns and the column defaults. `password` is never among the given
   * columns in this core.
   */
  function NewUser(id: string, email: Option<string>, phone: Option<string>, provider: string): User
  {
    User(id, email, None, phone, provider, false, false, false, None, false, false, false)
  }

  /** The partial updates the services pass to `usersService.update`. */
  datatype Patch =
    | MarkEmailVerified
    | MarkPhoneVerified
    | SetLastLoginAt(at: int)
    | SetProvider(provider: string)
    | MarkQuestionnaireCompleted

  function Apply(u: User, p: Patch): (v: User)
    ensures v.id == u.id && v.email == u.email && v.phone == u.phone && v.password == u.password
  {
    match p
    case MarkEmailVerified => u.(isEmailVerified := true)
    case MarkPhoneVerified => u.(isPhoneVerified := true)
    case SetLastLoginAt(at) => u.(lastLoginAt := Some(at))
    case SetProvider(provider) => u.(provider := provider)
    case MarkQuestionnaireCompleted => u.(questionnaireCompleted := true)
  }

  /** The `where` clause of `findOne`. */
  datatype Key = ById(id: string) | ByEmail(email: string) | ByPhone(phone: string)

  predicate Matches(u: User, key: Key)
  {
    match key
    case ById(id) => u.id == id
    case ByEmail(email) => u.email == Some(email)
    case ByPhone(phone) => u.phone == Some(phone)
  }

  /** `findOne({ where })`: the first row that matches, if any. */
  function FindFirst(rows: seq<User>, key: Key): (r: Option<User>)
    ensures r.Some? ==> r.value in rows && Matches(r.value, key)
    ensures r.None? <==> forall u :: u in rows ==> !Matches(u, key)
  {
    if |rows| == 0 then None
    else if Matches(rows[0], key) then Some(rows[0])
    else FindFirst(rows[1..], key)
  }

  /** A row appended to the table is found only when no earlier row matches. */
  lemma {:induction false} FindFirstAppend(rows: seq<User>, u: User, key: Key)
    ensures FindFirst(rows + [u], key) ==
      if FindFirst(rows, key).Some? then FindFirst(rows, key)
      else if Matches(u, key) then Some(u) else None
  {
    if |rows| > 0 {
      assert (rows + [u])[1..] == rows[1..] + [u];
      FindFirstAppend(rows[1..], u, key);
    }
  }

  /** The primary key and the unique email and phone columns. */
  ghost predicate UniqueRows(rows: seq<User>)
  {
    forall i, j :: 0 <= i < j < |rows| ==>
      rows[i].id != rows[j].id
      && (rows[i].email.Some? ==> rows[i].email != rows[j].email)
      && (rows[i].phone.Some? ==> rows[i].phone != rows[j].phone)
  }

  /** With unique ids, looking a row up by its id finds exactly that row. */
  lemma {:induction false} FindOwnId(rows: seq<User>, u: User)
    requires UniqueRows(rows) && u in rows
    ensures FindFirst(rows, ById(u.id)) == Some(u)
  {
    if rows[0] != u {
      assert u in rows[1..];
      assert UniqueRows(rows[1..]) by {
        forall i, j | 0 <= i < j < |rows| - 1
          ensures rows[1..][i].id != rows[1..][j].id
        {
          assert rows[1..][i] == rows[i + 1] && rows[1..][j] == rows[j + 1];
        }
      }
      FindOwnId(rows[1..], u);
    }
  }

  /** `update({ id }, partial)`: only the row with that id changes. */
  function UpdateRows(rows: seq<User>, id: string, patch: Patch): (r: seq<User>)
  {
    seq(|rows|, i requires 0 <= i < |rows| => if rows[i].id == id then Apply(rows[i], patch) else rows[i])
  }

  lemma UpdateKeepsUnique(rows: seq<User>, id: string, patch: Patch)
    requires UniqueRows(rows)
    ensures UniqueRows(UpdateRows(rows, id, patch))
  {
  }

  lemma InsertKeepsUnique(rows: seq<User>, u: User)
    requires UniqueRows(rows)
    requires FindFirst(rows, ById(u.id)).None?
    requires u.email.Some? ==> FindFirst(rows, ByEmail(u.email.value)).None?
    requires u.phone.Some? ==> FindFirst(rows, ByPhone(u.phone.value)).None?
    ensures UniqueRows(rows + [u])
  {
    var all := rows + [u];
    forall i, j | 0 <= i < j < |all|
      ensures all[i].id != all[j].id
      ensures all[i].email.Some? ==> all[i].email != all[j].email
      ensures all[i].phone.Some? ==> all[i].phone != all[j].phone
    {
      if j == |rows| {
        assert all[i] in rows;
      }
    }
  }

  class UserStore {
    var rows: seq<User>

    ghost predicate Valid()
      reads this
    {
      UniqueRows(rows)
    }

    constructor()
      ensures rows == [] && Valid()
    {
      rows := [];
    }

    /** `usersService.findById`. */
    function FindById(id: string): Option<User>
      reads this
    {
      FindFirst(rows, ById(id))
    }

    /** `usersService.findByEmail`. */
    function FindByEmail(email: string): Option<User>
      reads this
    {
      FindFirst(rows, ByEmail(email))
    }

    /** `usersService.findByPhone`. */
    function FindByPhone(phone: string): Option<User>
      reads this
    {
      FindFirst(rows, ByPhone(phone))
    }

    /** Whether `u` can be inserted without breaking a unique column. */
    predicate CanInsert(u: User)
      reads this
    {
      FindById(u.id).None?
      && (u.email.Some? ==> FindByEmail(u.email.value).None?)
      && (u.phone.Some? ==> FindByPhone(u.phone.value).None?)
    }

    /** `usersService.create`: inserts a new row. */
    method Create(u: User)
      requires Valid() && CanInsert(u)
      modifies this
      ensures Valid()
      ensures rows == old(rows) + [u]
    {
      InsertKeepsUnique(rows, u);
      rows := rows + [u];
    }

    /** `usersService.update(id, partial)`. */
    method Update(id: string, patch: Patch)
      requires Valid()
      modifies this
      ensures Valid()
      ensures rows == UpdateRows(old(rows), id, patch)
    {
      UpdateKeepsUnique(rows, id, patch);
      rows := UpdateRows(rows, id, patch);
    }
  }
}
