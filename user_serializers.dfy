/** Registration (`RegisterSerializer`): the field checks of the password
    fields, the confirmation check of `validate`, and `create`, which drops
    the confirmation from the validated data and builds the account. */
module UserSerializers {
  import opened Base

  /** Request data: field name to value. */
  type Data = map<string, string>

  const MinPasswordLength := 8

  datatype RegisterError =
    | InvalidFields    // a field check of `is_valid` failed
    | PasswordsDiffer  // "Passwords do not match."

  /** The account row `create` builds. */
  datatype Account = Account(username: string, bio: string, avatar: Option<string>)

  /** The field checks of `is_valid`: the username is given, and both password
      fields are given with at least eight characters. */
  predicate FieldsValid(data: Data) {
    && "username" in data && data["username"] != ""
    && "password" in data && |data["password"]| >= MinPasswordLength
    && "password_confirm" in data && |data["password_confirm"]| >= MinPasswordLength
  }

  /** `RegisterSerializer.validate`, which runs after the field checks and so
      finds both password fields present. */
  function Validate(data: Data): (r: Result<Data, RegisterError>)
    requires "password" in data && "password_confirm" in data
    ensures r.Failure? <==> data["password"] != data["password_confirm"]
    ensures r.Success? ==> r.value == data
    ensures r.Failure? ==> r.error == PasswordsDiffer
  {
    if data["password"] != data["password_confirm"] then Failure(PasswordsDiffer) else Success(data)
  }

  /** The account built from validated data: the username, the bio or `''`,
      the avatar or `None`. */
  function NewAccount(data: Data): (a: Account)
    requires "username" in data
    ensures a.username == data["username"]
    ensures "bio" in data ==> a.bio == data["bio"]
    ensures "bio" !in data ==> a.bio == ""
    ensures "avatar" in data ==> a.avatar == Some(data["avatar"])
    ensures "avatar" !in data ==> a.avatar.None?
  {
    Account(data["username"],
            if "bio" in data then data["bio"] else "",
            if "avatar" in data then Some(data["avatar"]) else None)
  }

  /** The confirmation field plays no part in the account. */
  lemma AccountIgnoresConfirmation(data: Data)
    requires "username" in data
    ensures NewAccount(data - {"password_confirm"}) == NewAccount(data)
  {
  }

  /** The validated data of one serializer, which `create` changes in place. */
  class ValidatedData {
    var entries: Data

    constructor (data: Data)
      ensures entries == data
    {
      entries := data;
    }

    /** `RegisterSerializer.create`, without the password hashing: pop
        `password_confirm`, then build the account from what is left. */
    method Create() returns (account: Account)
      requires "password_confirm" in entries && "username" in entries
      modifies this
      ensures entries == old(entries) - {"password_confirm"}
      ensures account == NewAccount(old(entries))
    {
      entries := entries - {"password_confirm"};
      account := Account(entries["username"],
                         if "bio" in entries then entries["bio"] else "",
                         if "avatar" in entries then Some(entries["avatar"]) else None);
    }
  }

  /** `RegisterView.post` on the serializer: field checks, `validate`, then
      `save`, which calls `create`. An account is created iff the fields are
      valid and the two passwords are equal. */
  method Register(data: Data) returns (result: Result<Account, RegisterError>)
    ensures result.Success? <==> FieldsValid(data) && data["password"] == data["password_confirm"]
    ensures result.Success? ==> result.value == NewAccount(data)
    ensures !FieldsValid(data) ==> result == Failure(InvalidFields)
    ensures FieldsValid(data) && data["password"] != data["password_confirm"] ==> result == Failure(PasswordsDiffer)
  {
    if !FieldsValid(data) {
      return Failure(InvalidFields);
    }
    var checked := Validate(data);
    if checked.Failure? {
      return Failure(checked.error);
    }
    var validated := new ValidatedData(checked.value);
    var account := validated.Create();
    result := Success(account);
  }
}
