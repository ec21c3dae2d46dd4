/** The user table of the accounts app (`MstUsers`) and its manager: `create_user`
    fills in missing flags, `create_superuser` forces them, and both build the record,
    set its password and save it. */
module AccountsModels {
  import opened Wrappers

  /** A point in time as stored in a `DateTimeField` (the clock itself is an input). */
  type Time = int

  /** The stored password: `set_password(None)` marks it unusable. */
  datatype Password = Unusable | Hashed(raw: string)

  /** One row of `MstUsers`. */
  datatype User = User(
    id: nat,
    username: Option<string>,
    email: string,
    isActive: bool,
    isSuperuser: bool,
    isStaff: bool,
    createdAt: Time,
    password: Password)

  const UsernameMaxLength: nat := 10

  // ---------------------------------------------------------------------------
  // Keyword arguments of the manager methods

  /** A value passed as an extra keyword argument. */
  datatype Field = Flag(b: bool) | Text(s: string) | Null

  type ExtraFields = map<string, Field>

  const FlagNames: set<string> := {"is_active", "is_staff", "is_superuser"}

  /** The keyword arguments accepted besides `email`: the flags and `username`. The
      model's other columns (`user_id`, `created_at`, `last_login`) are not among them. */
  const FieldNames: set<string> := FlagNames + {"username"}

  /** Flags are given as booleans and the user name as text or `None`. */
  predicate WellTyped(extra: ExtraFields)
  {
    forall k :: k in extra ==> (k in FlagNames ==> extra[k].Flag?) && (k == "username" ==> !extra[k].Flag?)
  }

  /** Python `fields.setdefault(name, v)`: adds `name` with `v` only when it is absent. */
  function SetDefault(fields: ExtraFields, name: string, v: Field): (r: ExtraFields)
    ensures r.Keys == fields.Keys + {name}
    ensures r[name] == if name in fields then fields[name] else v
    ensures forall k :: k in fields ==> r[k] == fields[k]
  {
    if name in fields then fields else fields[name := v]
  }

  /** The keyword arguments after `create_user`'s three `setdefault` calls. */
  function DefaultedFlags(extra: ExtraFields): (r: ExtraFields)
    ensures r.Keys == extra.Keys + FlagNames
    ensures forall k :: k in extra ==> r[k] == extra[k]
    ensures forall k :: k in FlagNames && k !in extra ==> r[k] == Flag(false)
    ensures WellTyped(extra) ==> WellTyped(r)
  {
    var f1 := SetDefault(extra, "is_active", Flag(false));
    var f2 := SetDefault(f1, "is_staff", Flag(false));
    SetDefault(f2, "is_superuser", Flag(false))
  }

  /** The keyword arguments after `create_superuser` assigns the three flags. */
  function ForcedFlags(extra: ExtraFields): (r: ExtraFields)
    ensures r.Keys == extra.Keys + FlagNames
    ensures forall k :: k in FlagNames ==> r[k] == Flag(true)
    ensures forall k :: k in extra && k !in FlagNames ==> r[k] == extra[k]
    ensures WellTyped(extra) ==> WellTyped(r)
  {
    extra["is_active" := Flag(true)]["is_staff" := Flag(true)]["is_superuser" := Flag(true)]
  }

  /** The value of a flag keyword, or the model default `False` when it is absent. */
  function FlagValue(fields: ExtraFields, name: string): bool
  {
    if name in fields && fields[name].Flag? then fields[name].b else false
  }

  /** The user name keyword, or the model default `None` when it is absent. */
  function UsernameValue(fields: ExtraFields): Option<string>
  {
    if "username" in fields && fields["username"].Text? then Some(fields["username"].s) else None
  }

  /** `self.model(email=email, **fields)`: the unsaved record; its password is set next. */
  function NewRecord(id: nat, email: string, fields: ExtraFields, now: Time): User
  {
    User(id, UsernameValue(fields), email,
         FlagValue(fields, "is_active"), FlagValue(fields, "is_superuser"), FlagValue(fields, "is_staff"),
         now, Unusable)
  }

  /** `user.set_password(password)`: `None` marks the password unusable. */
  function SetPassword(u: User, password: Option<string>): User
  {
    u.(password := if password.Some? then Hashed(password.value) else Unusable)
  }

  /** `self.model(email=email, **fields)` followed by `set_password(password)`:
      the unsaved user record. */
  function BuildUser(id: nat, email: string, fields: ExtraFields, password: Option<string>, now: Time): (u: User)
    ensures u.id == id && u.email == email && u.createdAt == now
    ensures u.password == (if password.Some? then Hashed(password.value) else Unusable)
  {
    SetPassword(NewRecord(id, email, fields, now), password)
  }

  /** With no extra keyword arguments the record takes the model defaults: inactive,
      not staff, not superuser, no user name. */
  lemma ModelDefaults(id: nat, email: string, password: Option<string>, now: Time)
    ensures var u := BuildUser(id, email, map[], password, now);
            !u.isActive && !u.isStaff && !u.isSuperuser && u.username.None?
  {
  }

  /** `create_user` keeps every flag the caller supplied and makes each missing one False. */
  lemma CreateUserFlags(id: nat, email: string, extra: ExtraFields, password: Option<string>, now: Time)
    requires WellTyped(extra)
    ensures var u := BuildUser(id, email, DefaultedFlags(extra), password, now);
            && u.isActive == ("is_active" in extra && extra["is_active"].b)
            && u.isStaff == ("is_staff" in extra && extra["is_staff"].b)
            && u.isSuperuser == ("is_superuser" in extra && extra["is_superuser"].b)
            && u.username == UsernameValue(extra)
  {
    var f := DefaultedFlags(extra);
    assert "is_active" in FlagNames && "is_staff" in FlagNames && "is_superuser" in FlagNames;
    assert "username" in extra ==> f["username"] == extra["username"];
  }

  /** `create_superuser` makes every flag True, whatever the caller supplied. */
  lemma CreateSuperuserFlags(id: nat, email: string, extra: ExtraFields, password: Option<string>, now: Time)
    ensures var u := BuildUser(id, email, ForcedFlags(extra), password, now);
            u.isActive && u.isStaff && u.isSuperuser && u.username == UsernameValue(extra)
  {
    var f := ForcedFlags(extra);
    assert "is_active" in FlagNames && "is_staff" in FlagNames && "is_superuser" in FlagNames;
    assert "username" in extra ==> f["username"] == extra["username"];
  }

  /** No two users share an email (`unique=True`). */
  predicate UniqueEmails(users: map<nat, User>)
  {
    forall a, b :: a in users && b in users && a != b ==> users[a].email != users[b].email
  }

  /** `MstUsers.objects.get(email=email)`: the user with this email, if there is one. */
  function UserWithEmail(users: map<nat, User>, email: string): (r: Option<nat>)
    requires UniqueEmails(users)
    ensures r.Some? ==> r.value in users && users[r.value].email == email
    ensures r.None? ==> forall id :: id in users ==> users[id].email != email
  {
    if exists id :: id in users && users[id].email == email then
      var id :| id in users && users[id].email == email;
      Some(id)
    else None
  }

  /** Adding a user whose email no one holds keeps the emails unique. */
  lemma InsertKeepsUniqueEmails(users: map<nat, User>, id: nat, u: User)
    requires UniqueEmails(users) && id !in users
    requires forall j :: j in users ==> users[j].email != u.email
    ensures UniqueEmails(users[id := u])
  {
  }

  function UnexpectedKeyword(): Error
  {
    Error("TypeError", "MstUsers")
  }

  function DuplicateEmail(): Error
  {
    Error("IntegrityError", "email")
  }

  /** The `MstUsers` table; `nextId` is the next value of the `user_id` sequence. */
  class UserTable {
    var users: map<nat, User>
    var nextId: nat

    ghost predicate Valid()
      reads this
    {
      && (forall id :: id in users ==> id < nextId && users[id].id == id)
      && UniqueEmails(users)
    }

    constructor ()
      ensures Valid() && users == map[]
    {
      users := map[];
      nextId := 0;
    }

    /** `UserManager._create_user`: normalize the email, build the record from the
        keyword arguments, set its password and save it. */
    method CreateRecord(email: string, password: Option<string>, fields: ExtraFields,
                        normalize: string -> string, now: Time) returns (r: Result<User>)
      requires Valid()
      modifies this
      ensures Valid()
      ensures !(fields.Keys <= FieldNames) ==> r == Failure(UnexpectedKeyword()) && users == old(users)
      ensures fields.Keys <= FieldNames && UserWithEmail(old(users), normalize(email)).Some? ==>
                r == Failure(DuplicateEmail()) && users == old(users)
      ensures r.Success? ==>
                && r.value == BuildUser(old(nextId), normalize(email), fields, password, now)
                && old(nextId) !in old(users)
                && users == old(users)[old(nextId) := r.value]
      ensures r.Failure? ==> users == old(users)
      ensures fields.Keys <= FieldNames && UserWithEmail(old(users), normalize(email)).None? ==> r.Success?
    {
      var e := normalize(email);
      if !(fields.Keys <= FieldNames) {
        return Failure(UnexpectedKeyword());
      }
      var user := NewRecord(nextId, e, fields, now);
      user := SetPassword(user, password);
      if UserWithEmail(users, e).Some? {
        return Failure(DuplicateEmail());
      }
      assert nextId !in users;
      InsertKeepsUniqueEmails(users, nextId, user);
      users := users[nextId := user];
      nextId := nextId + 1;
      r := Success(user);
    }

    /** `UserManager.create_user`: each flag the caller left out becomes False. */
    method CreateUser(email: string, password: Option<string>, extra: ExtraFields,
                      normalize: string -> string, now: Time) returns (r: Result<User>)
      requires Valid()
      modifies this
      ensures Valid()
      ensures r.Success? ==>
                && r.value == BuildUser(old(nextId), normalize(email), DefaultedFlags(extra), password, now)
                && users == old(users)[old(nextId) := r.value]
      ensures r.Failure? ==> users == old(users)
      ensures r.Success? <==> extra.Keys <= FieldNames && UserWithEmail(old(users), normalize(email)).None?
      ensures !(extra.Keys <= FieldNames) ==> r == Failure(UnexpectedKeyword())
      ensures extra.Keys <= FieldNames && UserWithEmail(old(users), normalize(email)).Some? ==>
                r == Failure(DuplicateEmail())
    {
      var fields := extra;
      fields := SetDefault(fields, "is_active", Flag(false));
      fields := SetDefault(fields, "is_staff", Flag(false));
      fields := SetDefault(fields, "is_superuser", Flag(false));
      r := CreateRecord(email, password, fields, normalize, now);
    }

    /** `UserManager.create_superuser`: the three flags are set to True; a `None` password
        becomes an unusable one, as in `create_user`. */
    method CreateSuperuser(email: string, password: Option<string>, extra: ExtraFields,
                           normalize: string -> string, now: Time) returns (r: Result<User>)
      requires Valid()
      modifies this
      ensures Valid()
      ensures r.Success? ==>
                && r.value == BuildUser(old(nextId), normalize(email), ForcedFlags(extra), password, now)
                && users == old(users)[old(nextId) := r.value]
      ensures r.Failure? ==> users == old(users)
      ensures r.Success? <==> extra.Keys <= FieldNames && UserWithEmail(old(users), normalize(email)).None?
      ensures !(extra.Keys <= FieldNames) ==> r == Failure(UnexpectedKeyword())
      ensures extra.Keys <= FieldNames && UserWithEmail(old(users), normalize(email)).Some? ==>
                r == Failure(DuplicateEmail())
    {
      var fields := extra;
      fields := fields["is_active" := Flag(true)];
      fields := fields["is_staff" := Flag(true)];
      fields := fields["is_superuser" := Flag(true)];
      r := CreateRecord(email, password, fields, normalize, now);
    }
  }
}
