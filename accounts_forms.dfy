/** The sign-up form's email rule (`SignUpForm.clean_email`) and the length cap of
    the email-change request form. */
module AccountsForms {
  import opened Wrappers
  import opened Text
  import opened AccountsModels

  function EmailTaken(): Error
  {
    Error("ValidationError", "この Email を持ったユーザーは既に存在します。")
  }

  /** `SignUpForm.clean_email`: an address that nobody has is accepted; an address
      held by an inactive (never activated) user is freed by deleting that user; an
      address held by an active user is refused. The accepted value is the input. */
  method CleanEmail(table: UserTable, email: string) returns (r: Result<string>)
    requires table.Valid()
    modifies table
    ensures table.Valid() && table.nextId == old(table.nextId)
    ensures r.Success? ==> r.value == email
    ensures UserWithEmail(old(table.users), email).None? ==>
              r == Success(email) && table.users == old(table.users)
    ensures UserWithEmail(old(table.users), email).Some? ==>
              var id := UserWithEmail(old(table.users), email).value;
              if old(table.users)[id].isActive then
                r == Failure(EmailTaken()) && table.users == old(table.users)
              else
                r == Success(email) && table.users == old(table.users) - {id}
  {
    var existing := UserWithEmail(table.users, email);
    if existing.Some? {
      if !table.users[existing.value].isActive {
        table.users := table.users - {existing.value};
      } else {
        return Failure(EmailTaken());
      }
    }
    r := Success(email);
  }

  /** Once `clean_email` accepts an address, no user holds it, so saving the new
      user cannot hit the unique constraint. */
  lemma CleanEmailFreesAddress(users: map<nat, User>, email: string)
    requires UniqueEmails(users)
    requires UserWithEmail(users, email).Some? ==> !users[UserWithEmail(users, email).value].isActive
    ensures var after := if UserWithEmail(users, email).Some? then users - {UserWithEmail(users, email).value} else users;
            UniqueEmails(after) && UserWithEmail(after, email).None?
  {
    var after := if UserWithEmail(users, email).Some? then users - {UserWithEmail(users, email).value} else users;
    forall id | id in after ensures after[id].email != email {
      if UserWithEmail(users, email).Some? {
        assert id != UserWithEmail(users, email).value;
      }
    }
  }

  const EmailMaxLength: nat := 255

  /** The email field of `EmailChangeRequestForm`: the stripped input is required, at
      most 255 characters long and a valid address (`isAddress` stands for the email
      validator). */
  function CleanChangeRequestEmail(raw: string, isAddress: string -> bool): (r: Result<string>)
    ensures r.Success? <==> (Strip(raw) != "" && |Strip(raw)| <= EmailMaxLength && isAddress(Strip(raw)))
    ensures r.Success? ==> r.value == Strip(raw) && 1 <= |r.value| <= EmailMaxLength
  {
    var v := Strip(raw);
    if v == "" then Failure(Error("ValidationError", "This field is required."))
    else if |v| > EmailMaxLength then Failure(Error("ValidationError", "Ensure this value has at most 255 characters."))
    else if !isAddress(v) then Failure(Error("ValidationError", "Enter a valid email address."))
    else Success(v)
  }
}
