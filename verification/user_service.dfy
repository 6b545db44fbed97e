/**
 The user service. It keeps no store: `getAllUsers` returns a fixed list
 and the other calls validate their input and echo a result. The clock
 readings `createUser` takes (`Date.now()` and today's date) are
 parameters.
 */
module UserService {
  import opened Js

  /** How a call ends: a value, or a thrown `Error` with its message. */
  datatype Result<T> = Success(value: T) | Failure(message: string)

  datatype User = User(
    id: int,
    name: Value,
    email: Value,
    role: Value,
    active: Value,
    createdAt: string,
    lastLogin: Value)

  /** The user `createUser` returns: a `User` plus the password as given. */
  datatype NewUser = NewUser(user: User, password: Value)

  /** The result of `updateUser`. */
  datatype UpdatedUser = UpdatedUser(id: int, name: Value, email: Value, role: Value, active: Value)

  /** The result of `updateUserProfile`. */
  datatype Profile = Profile(
    id: int,
    name: Value,
    email: Value,
    phone: Value,
    department: Value,
    position: Value,
    avatar: Value)

  const RequiredMessage := "Name, email, and role are required"
  const InvalidIdMessage := "Invalid user ID"

  /** `getAllUsers`: always the same two active users, with Ids 1 and 2. */
  function GetAllUsers(): (users: seq<User>)
    ensures |users| == 2
    ensures users[0].id == 1 && users[1].id == 2
    ensures forall i :: 0 <= i < |users| ==> users[i].active == Bool(true)
    ensures forall i :: 0 <= i < |users| ==> ValidNewUser(UserData(users[i]))
  {
    [ User(1, Str("John Admin"), Str("john@example.com"), Str("Admin"), Bool(true),
           "2024-01-15", Str("2024-01-20")),
      User(2, Str("Sarah Manager"), Str("sarah@example.com"), Str("Manager"), Bool(true),
           "2024-01-10", Str("2024-01-19")) ]
  }

  /** The caller data a user's fields would be submitted as. */
  function UserData(u: User): Record {
    map["Name" := u.name, "email" := u.email, "role" := u.role, "active" := u.active]
  }

  /** `createUser`'s check: `Name`, `email` and `role` all truthy. */
  predicate ValidNewUser(d: Record) {
    Truthy(Get(d, "Name")) && Truthy(Get(d, "email")) && Truthy(Get(d, "role"))
  }

  /**
   `createUser`: reject unless `Name`, `email` and `role` are all truthy;
   otherwise copy them, default `active` to true only when it is
   undefined, and start with no login.
   */
  function CreateUser(d: Record, now: int, today: string): (r: Result<NewUser>)
    ensures r.Failure? <==> !ValidNewUser(d)
    ensures r.Failure? ==> r.message == "Name, email, and role are required"
    ensures r.Success? ==>
              && r.value.user.id == now
              && r.value.user.createdAt == today
              && r.value.user.name == Get(d, "Name")
              && r.value.user.email == Get(d, "email")
              && r.value.user.role == Get(d, "role")
              && r.value.user.lastLogin == Null
              && r.value.password == Get(d, "password")
              && (Get(d, "active") == Undefined ==> r.value.user.active == Bool(true))
              && (Get(d, "active") != Undefined ==> r.value.user.active == Get(d, "active"))
  {
    if !Truthy(Get(d, "Name")) || !Truthy(Get(d, "email")) || !Truthy(Get(d, "role")) then
      Failure(RequiredMessage)
    else
      var active := if Get(d, "active") != Undefined then Get(d, "active") else Bool(true);
      Success(NewUser(
        User(now, Get(d, "Name"), Get(d, "email"), Get(d, "role"), active, today, Null),
        Get(d, "password")))
  }

  /** `updateUser`: the parsed id and the four fields exactly as given. */
  function UpdateUser(id: Value, d: Record): (r: Result<UpdatedUser>)
    ensures r.Failure? <==> IsNaNId(id)
    ensures r.Failure? ==> r.message == "Invalid user ID"
    ensures r.Success? ==>
              r.value == UpdatedUser(ParseIntValue(id).value, Get(d, "Name"), Get(d, "email"),
                                     Get(d, "role"), Get(d, "active"))
  {
    match ParseIntValue(id)
    case None => Failure(InvalidIdMessage)
    case Some(n) => Success(UpdatedUser(n, Get(d, "Name"), Get(d, "email"), Get(d, "role"), Get(d, "active")))
  }

  /** `deleteUser`: `true` for any id `parseInt` accepts. */
  function DeleteUser(id: Value): (r: Result<bool>)
    ensures r == Success(true) <==> !IsNaNId(id)
    ensures r.Failure? ==> r.message == "Invalid user ID"
  {
    if IsNaNId(id) then Failure(InvalidIdMessage) else Success(true)
  }

  /** `resetPassword`: the new password is not looked at; only the id is checked. */
  function ResetPassword(userId: Value, newPassword: Value): (r: Result<bool>)
    ensures r == Success(true) <==> !IsNaNId(userId)
    ensures r.Failure? ==> r.message == "Invalid user ID"
  {
    if IsNaNId(userId) then Failure(InvalidIdMessage) else Success(true)
  }

  /** `updateUserProfile`: the parsed id and the six profile fields exactly as given. */
  function UpdateUserProfile(userId: Value, d: Record): (r: Result<Profile>)
    ensures r.Failure? <==> IsNaNId(userId)
    ensures r.Failure? ==> r.message == "Invalid user ID"
    ensures r.Success? ==>
              && r.value.id == ParseIntValue(userId).value
              && r.value.name == Get(d, "Name") && r.value.email == Get(d, "email")
              && r.value.phone == Get(d, "phone") && r.value.department == Get(d, "department")
              && r.value.position == Get(d, "position") && r.value.avatar == Get(d, "avatar")
  {
    match ParseIntValue(userId)
    case None => Failure(InvalidIdMessage)
    case Some(n) =>
      Success(Profile(n, Get(d, "Name"), Get(d, "email"), Get(d, "phone"),
                      Get(d, "department"), Get(d, "position"), Get(d, "avatar")))
  }

  /**
   Updating a created user with its own id and fields returns what was
   created: every numeric id is accepted and the fields come back as sent.
   */
  lemma UpdateOfCreatedUserKeepsFields(d: Record, now: int, today: string)
    requires CreateUser(d, now, today).Success?
    ensures var u := CreateUser(d, now, today).value.user;
            UpdateUser(Num(u.id), UserData(u)) ==
              Success(UpdatedUser(u.id, u.name, u.email, u.role, u.active))
  {
    ParseIntOfNumber(now);
  }

  /** The four id checks accept and reject the same ids. */
  lemma IdChecksAgree(id: Value, d: Record, p: Value)
    ensures UpdateUser(id, d).Success? <==> DeleteUser(id).Success?
    ensures DeleteUser(id) == ResetPassword(id, p)
    ensures UpdateUserProfile(id, d).Success? <==> DeleteUser(id).Success?
  {
  }
}
