/**
 * The validator of the change-password form
 * (app/scenes/ChangePassword/ChangePasswordForm.js): each of the two fields
 * is required only once the other one has been filled in.
 */
module ChangePassword {
  import opened Wrappers

  /** The form values; a field the user has not touched is absent. */
  datatype PasswordFields = PasswordFields(oldPassword: Option<string>, password: Option<string>)

  const OldPasswordKey := "oldPassword"
  const PasswordKey := "password"
  const OldPasswordMissing := "Please enter your old password"
  const PasswordMissing := "Please enter a new password"

  /** A field is filled in when it is present and not empty (JavaScript truthiness of a string). */
  predicate Filled(field: Option<string>) {
    field.Some? && field.value != ""
  }

  /** `!field || field.length === 0` */
  predicate Blank(field: Option<string>) {
    field.None? || |field.value| == 0
  }

  /**
   * `validate`: the old password is reported missing exactly when a new
   * password is filled in without it, and the new password exactly when the
   * old one is filled in without it; nothing else is ever reported.
   */
  function Validate(values: PasswordFields): (errors: map<string, string>)
    ensures errors.Keys <= {OldPasswordKey, PasswordKey}
    ensures OldPasswordKey in errors <==> Filled(values.password) && !Filled(values.oldPassword)
    ensures PasswordKey in errors <==> Filled(values.oldPassword) && !Filled(values.password)
    ensures OldPasswordKey in errors ==> errors[OldPasswordKey] == OldPasswordMissing
    ensures PasswordKey in errors ==> errors[PasswordKey] == PasswordMissing
  {
    var empty: map<string, string> := map[];
    var afterOld := if Filled(values.password) && Blank(values.oldPassword)
      then empty[OldPasswordKey := OldPasswordMissing] else empty;
    if Filled(values.oldPassword) && Blank(values.password)
      then afterOld[PasswordKey := PasswordMissing] else afterOld
  }

  /** With neither field filled in, or with both, the form is valid. */
  lemma NoErrorsWhenBothOrNeither(values: PasswordFields)
    requires Filled(values.oldPassword) == Filled(values.password)
    ensures Validate(values) == map[]
  {
  }

  /** Filling in only the new password reports exactly the missing old password. */
  lemma OnlyNewPasswordGiven(values: PasswordFields)
    requires Filled(values.password) && !Filled(values.oldPassword)
    ensures Validate(values) == map[OldPasswordKey := OldPasswordMissing]
  {
  }

  /** Filling in only the old password reports exactly the missing new password. */
  lemma OnlyOldPasswordGiven(values: PasswordFields)
    requires Filled(values.oldPassword) && !Filled(values.password)
    ensures Validate(values) == map[PasswordKey := PasswordMissing]
  {
  }

  /** The two errors are never reported together. */
  lemma NeverBothErrors(values: PasswordFields)
    ensures |Validate(values)| <= 1
  {
  }
}
