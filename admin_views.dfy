/** The staff pages: the analysis listing with its four filters, sort order, waiting
    numbers and dropdown options (`PicturesManagerView`), the user listing with its
    staff filter (`UsersManagerView`), and the two-step user edit through the
    session (`UserEditView.post`, `UserEditConfirmView.post`). */
module AdminViews {
  import opened Wrappers
  import opened Text
  import opened Sorting
  import opened AccountsModels
  import opened AnalyzerModels
  import opened AnalyzerViews

  // ---------------------------------------------------------------------------
  // PicturesManagerView

  /** The reference meaning of the listing filter: each parameter that is given and
      non-empty requires equality on its column; the others require nothing. */
  predicate AdminFilter(r: Row, user: Option<string>, status: Option<string>, error: Option<string>, model: Option<string>)
  {
    && (Truthy(user) ==> r.ownerEmail == user.value)
    && (Truthy(status) ==> r.analysis.status.Value() == status.value)
    && (Truthy(error) ==> r.analysis.errorName == Some(error.value))
    && (Truthy(model) ==> r.analysis.modelName == model.value)
  }

  /** One `Q(...)` term of the filter. */
  datatype Constraint =
    | OwnerEmailIs(email: string)
    | StatusIs(value: string)
    | ErrorNameIs(errorName: string)
    | ModelNameIs(modelName: string)

  predicate Holds(r: Row, c: Constraint)
  {
    match c
    case OwnerEmailIs(e) => r.ownerEmail == e
    case StatusIs(v) => r.analysis.status.Value() == v
    case ErrorNameIs(n) => r.analysis.errorName == Some(n)
    case ModelNameIs(m) => r.analysis.modelName == m
  }

  /** A row passes the conjunction of the terms (`Q()` alone passes every row). */
  predicate SatisfiesAll(r: Row, filters: seq<Constraint>)
  {
    forall k :: 0 <= k < |filters| ==> Holds(r, filters[k])
  }

  /** `filters = Q()` followed by one `filters &= Q(...)` per given parameter. The
      terms built select exactly the rows of the reference filter, and with no
      parameter given there is no term at all. */
  method BuildFilters(user: Option<string>, status: Option<string>, error: Option<string>, model: Option<string>)
    returns (filters: seq<Constraint>)
    ensures forall r :: SatisfiesAll(r, filters) <==> AdminFilter(r, user, status, error, model)
    ensures !Truthy(user) && !Truthy(status) && !Truthy(error) && !Truthy(model) <==> filters == []
  {
    filters := [];
    if Truthy(user) {
      SatisfiesSnoc(filters, OwnerEmailIs(user.value));
      filters := filters + [OwnerEmailIs(user.value)];
    }
    assert forall r :: SatisfiesAll(r, filters) <==> (Truthy(user) ==> r.ownerEmail == user.value);
    if Truthy(status) {
      SatisfiesSnoc(filters, StatusIs(status.value));
      filters := filters + [StatusIs(status.value)];
    }
    assert forall r :: SatisfiesAll(r, filters) <==>
      (Truthy(user) ==> r.ownerEmail == user.value) && (Truthy(status) ==> r.analysis.status.Value() == status.value);
    if Truthy(error) {
      SatisfiesSnoc(filters, ErrorNameIs(error.value));
      filters := filters + [ErrorNameIs(error.value)];
    }
    assert forall r :: SatisfiesAll(r, filters) <==>
      (Truthy(user) ==> r.ownerEmail == user.value) && (Truthy(status) ==> r.analysis.status.Value() == status.value) &&
      (Truthy(error) ==> r.analysis.errorName == Some(error.value));
    if Truthy(model) {
      SatisfiesSnoc(filters, ModelNameIs(model.value));
      filters := filters + [ModelNameIs(model.value)];
    }
  }

  /** Adding one term `&= Q(...)` narrows the filter by exactly that term. */
  lemma SatisfiesSnoc(filters: seq<Constraint>, c: Constraint)
    ensures forall r :: SatisfiesAll(r, filters + [c]) <==> SatisfiesAll(r, filters) && Holds(r, c)
  {
    forall r ensures SatisfiesAll(r, filters + [c]) <==> SatisfiesAll(r, filters) && Holds(r, c) {
      if SatisfiesAll(r, filters + [c]) {
        forall k | 0 <= k < |filters| ensures Holds(r, filters[k]) {
          assert (filters + [c])[k] == filters[k];
        }
        assert (filters + [c])[|filters|] == c;
      }
    }
  }

  /** The analyses of the staff listing, filtered and ordered by upload time. */
  function AdminListing(rows: seq<Row>, user: Option<string>, status: Option<string>, error: Option<string>,
                        model: Option<string>, sort: Option<string>): seq<Row>
  {
    OrderByUpload(Filter(rows, r => AdminFilter(r, user, status, error, model)), SortAscending(sort))
  }

  /** The staff listing holds exactly the rows that meet every given filter, each as
      often as in the table, ordered by upload time, ascending only for `'asc'`. */
  lemma AdminListingContents(rows: seq<Row>, user: Option<string>, status: Option<string>, error: Option<string>,
                             model: Option<string>, sort: Option<string>)
    ensures var l := AdminListing(rows, user, status, error, model, sort);
            && (forall k :: 0 <= k < |l| ==> AdminFilter(l[k], user, status, error, model))
            && (forall k :: 0 <= k < |rows| && AdminFilter(rows[k], user, status, error, model) ==> rows[k] in l)
            && (forall i, j :: 0 <= i < j < |l| ==>
                  if GetOr(sort, "desc") == "asc" then UploadTime(l[i]) <= UploadTime(l[j]) else UploadTime(l[i]) >= UploadTime(l[j]))
            && (forall r :: multiset(l)[r] == if AdminFilter(r, user, status, error, model) then multiset(rows)[r] else 0)
  {
    var p := r => AdminFilter(r, user, status, error, model);
    var f := Filter(rows, p);
    var l := OrderByUpload(f, SortAscending(sort));
    OrderByUploadSorted(f, SortAscending(sort));
    SameElements(f, l);
    FilterMembers(rows, p);
    AdminListingCounts(rows, user, status, error, model, sort);
  }

  /** Each row meeting every given filter appears in the staff listing as often as in
      the table, and no other row appears. */
  lemma AdminListingCounts(rows: seq<Row>, user: Option<string>, status: Option<string>, error: Option<string>,
                           model: Option<string>, sort: Option<string>)
    ensures var l := AdminListing(rows, user, status, error, model, sort);
            forall r :: multiset(l)[r] == if AdminFilter(r, user, status, error, model) then multiset(rows)[r] else 0
  {
    var p := r => AdminFilter(r, user, status, error, model);
    OrderByUploadSorted(Filter(rows, p), SortAscending(sort));
    forall r ensures multiset(Filter(rows, p))[r] == if AdminFilter(r, user, status, error, model) then multiset(rows)[r] else 0 {
      FilterMultiplicity(rows, p, r);
    }
  }

  /** With no filter parameter given, the listing is every analysis, reordered. */
  lemma AbsentFiltersKeepEverything(rows: seq<Row>, sort: Option<string>)
    ensures multiset(AdminListing(rows, None, None, None, None, sort)) == multiset(rows)
  {
    var p := r => AdminFilter(r, None, None, None, None);
    FilterAll(rows, p);
    OrderByUploadSorted(Filter(rows, p), SortAscending(sort));
  }

  /** The non-null, non-empty error names, in table order. */
  function ErrorNames(rows: seq<Row>): (r: seq<string>)
    ensures forall k :: 0 <= k < |r| ==> r[k] != ""
  {
    if |rows| == 0 then []
    else
      var n := rows[0].analysis.errorName;
      (if n.Some? && n.value != "" then [n.value] else []) + ErrorNames(rows[1..])
  }

  lemma {:induction false} ErrorNamesMembership(rows: seq<Row>, x: string)
    ensures x in ErrorNames(rows) <==> x != "" && exists k :: 0 <= k < |rows| && rows[k].analysis.errorName == Some(x)
    decreases |rows|
  {
    if |rows| > 0 {
      ErrorNamesMembership(rows[1..], x);
      if exists k :: 0 <= k < |rows[1..]| && rows[1..][k].analysis.errorName == Some(x) {
        var k :| 0 <= k < |rows[1..]| && rows[1..][k].analysis.errorName == Some(x);
        assert rows[k + 1] == rows[1..][k];
      }
      if exists k :: 0 <= k < |rows| && rows[k].analysis.errorName == Some(x) {
        var k :| 0 <= k < |rows| && rows[k].analysis.errorName == Some(x);
        if k > 0 {
          assert rows[1..][k - 1] == rows[k];
        }
      }
    }
  }

  /** The error dropdown: the distinct error names, null and empty excluded. */
  function ErrorOptions(rows: seq<Row>): seq<string>
  {
    Distinct(ErrorNames(rows))
  }

  /** An error name is offered exactly when some analysis carries it and it is not
      empty; none is offered twice. */
  lemma ErrorOptionsExact(rows: seq<Row>, x: string)
    ensures x in ErrorOptions(rows) <==> x != "" && exists k :: 0 <= k < |rows| && rows[k].analysis.errorName == Some(x)
    ensures NoDuplicates(ErrorOptions(rows))
  {
    ErrorNamesMembership(rows, x);
    var u := ErrorNames(rows);
    var d := Distinct(u);
    if x in d {
      var i :| 0 <= i < |d| && d[i] == x;
    }
    if x in u {
      var i :| 0 <= i < |u| && u[i] == x;
    }
  }

  function ModelNames(rows: seq<Row>): (r: seq<string>)
    ensures |r| == |rows| && forall k :: 0 <= k < |rows| ==> r[k] == rows[k].analysis.modelName
  {
    seq(|rows|, k requires 0 <= k < |rows| => rows[k].analysis.modelName)
  }

  /** The model dropdown: the distinct model names of all analyses. */
  function ModelOptions(rows: seq<Row>): seq<string>
  {
    Distinct(ModelNames(rows))
  }

  /** A model name is offered exactly when some analysis used it; none twice. */
  lemma ModelOptionsExact(rows: seq<Row>, x: string)
    ensures x in ModelOptions(rows) <==> exists k :: 0 <= k < |rows| && rows[k].analysis.modelName == x
    ensures NoDuplicates(ModelOptions(rows))
  {
    var u := ModelNames(rows);
    var d := Distinct(u);
    if x in d {
      var i :| 0 <= i < |d| && d[i] == x;
      var j :| 0 <= j < |u| && u[j] == x;
    }
  }

  /** The user dropdown: the emails of the active users (the query sets no order). */
  function UserOptions(users: map<nat, User>): set<string>
  {
    set id | id in users && users[id].isActive :: users[id].email
  }

  /** With unique emails, an email is offered exactly when its user is active. */
  lemma UserOptionsExact(users: map<nat, User>, id: nat)
    requires UniqueEmails(users) && id in users
    ensures users[id].email in UserOptions(users) <==> users[id].isActive
  {
    if users[id].email in UserOptions(users) {
      var other :| other in users && users[other].isActive && users[other].email == users[id].email;
    }
  }

  /** `PicturesManagerView.get_context_data`: the filtered and sorted listing built
      from the `&=` terms, each row's waiting number over all waiting analyses, and
      the three dropdowns. */
  method PicturesContext(rows: seq<Row>, users: map<nat, User>, user: Option<string>, status: Option<string>,
                         error: Option<string>, model: Option<string>, sort: Option<string>)
    returns (listing: seq<Row>, numbers: seq<Option<nat>>, userOptions: set<string>, errorOptions: seq<string>,
             modelOptions: seq<string>)
    ensures listing == AdminListing(rows, user, status, error, model, sort)
    ensures |numbers| == |listing|
    ensures forall k :: 0 <= k < |listing| ==>
              numbers[k] == WaitingNumber(WaitingPositions(QueueIds(PendingQueue(rows))), listing[k])
    ensures userOptions == UserOptions(users) && errorOptions == ErrorOptions(rows) && modelOptions == ModelOptions(rows)
  {
    var filters := BuildFilters(user, status, error, model);
    FilterPointwise(rows, r => SatisfiesAll(r, filters), r => AdminFilter(r, user, status, error, model));
    listing := OrderByUpload(Filter(rows, r => SatisfiesAll(r, filters)), SortAscending(sort));
    numbers := AssignWaitingNumbers(listing, rows);
    userOptions := UserOptions(users);
    errorOptions := ErrorOptions(rows);
    modelOptions := ModelOptions(rows);
  }

  // ---------------------------------------------------------------------------
  // UsersManagerView

  /** The staff filter: it applies only when the parameter is exactly `'True'` or
      `'False'`. */
  function StaffFilter(selected: Option<string>): (r: Option<bool>)
    ensures r.Some? <==> selected == Some("True") || selected == Some("False")
    ensures r.Some? ==> (r.value <==> selected == Some("True"))
  {
    if selected == Some("True") || selected == Some("False") then Some(selected == Some("True")) else None
  }

  predicate StaffMatches(u: User, selected: Option<string>)
  {
    StaffFilter(selected).Some? ==> u.isStaff == StaffFilter(selected).value
  }

  function CreatedTime(u: User): real
  {
    u.createdAt as real
  }

  /** The user listing: filtered by staff flag, ordered by creation time. */
  function UsersListing(users: seq<User>, selected: Option<string>, sort: Option<string>): seq<User>
  {
    var f := Filter(users, u => StaffMatches(u, selected));
    if SortAscending(sort) then SortAsc(f, CreatedTime) else SortDesc(f, CreatedTime)
  }

  /** The user listing holds exactly the matching users; any parameter other than
      exactly `'True'` or `'False'` lists every user. */
  lemma UsersListingContents(users: seq<User>, selected: Option<string>, sort: Option<string>)
    ensures var l := UsersListing(users, selected, sort);
            && (forall k :: 0 <= k < |l| ==>
                  (selected == Some("True") ==> l[k].isStaff) && (selected == Some("False") ==> !l[k].isStaff))
            && (forall k :: 0 <= k < |users| && StaffMatches(users[k], selected) ==> users[k] in l)
            && (selected != Some("True") && selected != Some("False") ==> multiset(l) == multiset(users))
            && (forall u :: multiset(l)[u] == if StaffMatches(u, selected) then multiset(users)[u] else 0)
  {
    var l := UsersListing(users, selected, sort);
    UsersListingMembers(users, selected, sort);
    if selected == Some("True") {
      assert forall k :: 0 <= k < |l| ==> l[k].isStaff;
    } else if selected == Some("False") {
      assert forall k :: 0 <= k < |l| ==> !l[k].isStaff;
    } else {
      assert multiset(l) == multiset(users) by {
        FilterAll(users, u => StaffMatches(u, selected));
      }
    }
    UsersListingCounts(users, selected, sort);
  }

  /** The user listing holds only matching users, and every matching user. */
  lemma UsersListingMembers(users: seq<User>, selected: Option<string>, sort: Option<string>)
    ensures var l := UsersListing(users, selected, sort);
            && (forall k :: 0 <= k < |l| ==> StaffMatches(l[k], selected))
            && (forall k :: 0 <= k < |users| && StaffMatches(users[k], selected) ==> users[k] in l)
  {
    var p := u => StaffMatches(u, selected);
    var f := Filter(users, p);
    SameElements(f, UsersListing(users, selected, sort));
    FilterMembers(users, p);
  }

  /** Each matching user appears in the user listing as often as in the table, and
      no other user appears. */
  lemma UsersListingCounts(users: seq<User>, selected: Option<string>, sort: Option<string>)
    ensures forall u :: multiset(UsersListing(users, selected, sort))[u] == if StaffMatches(u, selected) then multiset(users)[u] else 0
  {
    var p := u => StaffMatches(u, selected);
    assert multiset(UsersListing(users, selected, sort)) == multiset(Filter(users, p));
    forall u ensures multiset(Filter(users, p))[u] == if StaffMatches(u, selected) then multiset(users)[u] else 0 {
      FilterMultiplicity(users, p, u);
    }
  }

  /** The user listing is in creation order: oldest first for `sort=asc`, newest
      first otherwise (the default is `desc`). */
  lemma UsersListingOrdered(users: seq<User>, selected: Option<string>, sort: Option<string>)
    ensures var l := UsersListing(users, selected, sort);
            forall i, j :: 0 <= i < j < |l| ==>
              if GetOr(sort, "desc") == "asc" then CreatedTime(l[i]) <= CreatedTime(l[j]) else CreatedTime(l[i]) >= CreatedTime(l[j])
  {
    var f := Filter(users, u => StaffMatches(u, selected));
    if SortAscending(sort) {
      SortAscSorted(f, CreatedTime);
    } else {
      SortDescSorted(f, CreatedTime);
    }
  }

  // ---------------------------------------------------------------------------
  // UserEditView.post and UserEditConfirmView.post

  /** `request.session['edit_user']`: the user and the three proposed values. */
  datatype PendingEdit = PendingEdit(userId: nat, email: string, username: string, isStaff: bool)

  /** The session of the staff member's browser. */
  class Session {
    var editUser: Option<PendingEdit>

    constructor ()
      ensures editUser.None?
    {
      editUser := None;
    }
  }

  /** The edit the form proposes: email and username stripped (missing ones read
      as empty), staff only for exactly `'True'`. */
  function ProposedEdit(u: User, email: Option<string>, username: Option<string>, isStaff: Option<string>): PendingEdit
  {
    PendingEdit(u.id, Strip(GetOr(email, "")), Strip(GetOr(username, "")), GetOr(isStaff, "") == "True")
  }

  /** The proposal changes nothing, a null username counting as empty. */
  predicate IsNoOp(u: User, e: PendingEdit)
  {
    e.email == u.email && e.username == GetOr(u.username, "") && e.isStaff == u.isStaff
  }

  /** The three assignments of the confirm step; every other field is kept, and the
      username is stored as given, an empty one as `''` rather than null. */
  function ApplyEdit(u: User, e: PendingEdit): (v: User)
    ensures v.email == e.email && v.username == Some(e.username) && v.isStaff == e.isStaff
    ensures v.id == u.id && v.isActive == u.isActive && v.isSuperuser == u.isSuperuser
    ensures v.createdAt == u.createdAt && v.password == u.password
  {
    u.(email := e.email, username := Some(e.username), isStaff := e.isStaff)
  }

  /** Applying a proposal leaves the user as it was exactly when the proposal is a
      no-op and the user already had a username; a no-op proposal on a null username
      would still turn it into `''`. */
  lemma NoOpIffUnchanged(u: User, e: PendingEdit)
    ensures ApplyEdit(u, e) == u <==> IsNoOp(u, e) && u.username.Some?
  {
    if ApplyEdit(u, e) == u {
      assert ApplyEdit(u, e).username == u.username;
    }
  }

  const NoChangeMessage: string := "内容が変更されていません。"

  datatype EditOutcome = UserNotFound | Unchanged(message: string) | RedirectToConfirm | RedirectToUsers | SaveFailed(error: Error)

  /** `UserEditView.post`: a missing user is a 404; a proposal equal to the current
      values writes nothing; otherwise the proposal is kept in the session for the
      confirm step and the user is not touched. */
  method UserEditPost(table: AccountsModels.UserTable, session: Session, userId: nat,
                      email: Option<string>, username: Option<string>, isStaff: Option<string>)
    returns (r: EditOutcome)
    modifies session
    ensures userId !in table.users ==> r == UserNotFound && session.editUser == old(session.editUser)
    ensures userId in table.users && IsNoOp(table.users[userId], ProposedEdit(table.users[userId], email, username, isStaff)) ==>
              r == Unchanged(NoChangeMessage) && session.editUser == old(session.editUser)
    ensures userId in table.users && !IsNoOp(table.users[userId], ProposedEdit(table.users[userId], email, username, isStaff)) ==>
              r == RedirectToConfirm && session.editUser == Some(ProposedEdit(table.users[userId], email, username, isStaff))
  {
    if userId !in table.users {
      return UserNotFound;
    }
    var user := table.users[userId];
    var proposal := ProposedEdit(user, email, username, isStaff);
    if IsNoOp(user, proposal) {
      return Unchanged(NoChangeMessage);
    }
    session.editUser := Some(proposal);
    r := RedirectToConfirm;
  }

  /** Another user already holds the email (the save would break `unique=True`). */
  predicate EmailHeldByOther(users: map<nat, User>, id: nat, email: string)
  {
    exists other :: other in users && other != id && users[other].email == email
  }

  /** `UserEditConfirmView.post`: without a pending edit nothing happens; a missing
      user is a 404; an email another user holds makes the save fail and keeps the
      session; otherwise the three fields are saved and the pending edit removed. */
  method UserEditConfirmPost(table: AccountsModels.UserTable, session: Session) returns (r: EditOutcome)
    requires table.Valid()
    modifies table, session
    ensures table.Valid() && table.nextId == old(table.nextId)
    ensures old(session.editUser).None? ==>
              r == RedirectToUsers && table.users == old(table.users) && session.editUser == old(session.editUser)
    ensures old(session.editUser).Some? && old(session.editUser).value.userId !in old(table.users) ==>
              r == UserNotFound && table.users == old(table.users) && session.editUser == old(session.editUser)
    ensures old(session.editUser).Some? && old(session.editUser).value.userId in old(table.users) ==>
              var e := old(session.editUser).value;
              if EmailHeldByOther(old(table.users), e.userId, e.email) then
                r == SaveFailed(DuplicateEmail()) && table.users == old(table.users) && session.editUser == old(session.editUser)
              else
                r == RedirectToUsers && table.users == old(table.users)[e.userId := ApplyEdit(old(table.users)[e.userId], e)] &&
                session.editUser.None?
  {
    if session.editUser.None? {
      return RedirectToUsers;
    }
    var editData := session.editUser.value;
    if editData.userId !in table.users {
      return UserNotFound;
    }
    var user := table.users[editData.userId];
    user := user.(email := editData.email);
    user := user.(username := Some(editData.username));
    user := user.(isStaff := editData.isStaff);
    if EmailHeldByOther(table.users, editData.userId, editData.email) {
      return SaveFailed(DuplicateEmail());
    }
    table.users := table.users[editData.userId := user];
    session.editUser := None;
    r := RedirectToUsers;
  }
}
