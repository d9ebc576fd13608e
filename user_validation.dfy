/** `createUserZodSchema` and `createProfileZodSchema` (src/app/modules/user/user.validation.ts) as parsers of a decoded body. */
module UserValidation {
  import opened Wrappers
  import opened Json
  import opened Formats
  import opened TripValidation

  datatype ProfileInput = ProfileInput(bio: Option<string>, age: Option<int>)

  datatype UserCreate = UserCreate(name: string, email: string, password: string, profile: Option<ProfileInput>)

  /** `createProfileZodSchema`: optional text `bio`, optional number `age`, with no coercion. */
  function ParseProfile(v: Json): Option<ProfileInput> {
    if !v.JObj? then None
    else
      var bio := Get(v.fields, "bio");
      var age := Get(v.fields, "age");
      if (bio.None? || bio.value.JStr?) && (age.None? || age.value.JNum?)
      then Some(ProfileInput(if bio.Some? then Some(bio.value.s) else None, if age.Some? then Some(age.value.n) else None))
      else None
  }

  /** `createUserZodSchema`. */
  function ParseUser(f: FormatChecks, v: Json): Option<UserCreate> {
    if !v.JObj? then None
    else
      var name := Get(v.fields, "name");
      var email := Get(v.fields, "email");
      var password := Get(v.fields, "password");
      var profile := Get(v.fields, "profile");
      var parsedProfile := if profile.Some? then ParseProfile(profile.value) else None;
      if name.Some? && name.value.JStr? && Utf16Length(name.value.s) >= 1
         && email.Some? && email.value.JStr? && f.isEmail(email.value.s)
         && password.Some? && password.value.JStr? && Utf16Length(password.value.s) >= 4
         && (profile.None? || parsedProfile.Some?)
      then Some(UserCreate(name.value.s, email.value.s, password.value.s, parsedProfile))
      else None
  }

  /** A body with every required field in form is accepted, with the values it gave. */
  lemma UserAccepted(f: FormatChecks, name: string, email: string, password: string)
    requires Utf16Length(name) >= 1 && f.isEmail(email) && Utf16Length(password) >= 4
    ensures ParseUser(f, JObj([("name", JStr(name)), ("email", JStr(email)), ("password", JStr(password))]))
         == Some(UserCreate(name, email, password, None))
  {
    var fields := [("name", JStr(name)), ("email", JStr(email)), ("password", JStr(password))];
    assert fields[..2] == [("name", JStr(name)), ("email", JStr(email))];
    assert fields[..2][..1] == [("name", JStr(name))];
    assert Get(fields, "profile") == None;
    assert Get(fields[..2][..1], "name") == Some(JStr(name));
    assert Get(fields[..2], "name") == Some(JStr(name));
    assert Get(fields, "name") == Some(JStr(name));
    assert Get(fields, "email") == Some(JStr(email));
  }

  /** An empty name, an e-mail that fails the format check, or a password under four UTF-16 code units is rejected. */
  lemma UserFieldRules(f: FormatChecks, v: Json)
    requires v.JObj?
    ensures ParseUser(f, v).Some? ==>
      var u := ParseUser(f, v).value;
      u.name != [] && f.isEmail(u.email) && Utf16Length(u.password) >= 4 &&
      Get(v.fields, "name") == Some(JStr(u.name)) && Get(v.fields, "email") == Some(JStr(u.email)) &&
      Get(v.fields, "password") == Some(JStr(u.password))
    ensures Get(v.fields, "password").Some? && Get(v.fields, "password").value.JStr? && Utf16Length(Get(v.fields, "password").value.s) < 4
      ==> ParseUser(f, v) == None
  {
  }

  /** `.min(4)` counts UTF-16 code units: a password of two emoji is long enough, one of three plain letters is not. */
  lemma PasswordLengthInCodeUnits(f: FormatChecks, name: string, email: string)
    requires name != [] && f.isEmail(email)
    ensures ParseUser(f, JObj([("name", JStr(name)), ("email", JStr(email)), ("password", JStr("\U{1F600}\U{1F600}"))])).Some?
    ensures ParseUser(f, JObj([("name", JStr(name)), ("email", JStr(email)), ("password", JStr("abc"))])) == None
  {
    Utf16LengthAstral();
    UserAccepted(f, name, email, "\U{1F600}\U{1F600}");
    Utf16LengthBasic("abc");
    var fields := [("name", JStr(name)), ("email", JStr(email)), ("password", JStr("abc"))];
    assert Get(fields, "password") == Some(JStr("abc"));
  }

  /** The profile's age is not coerced: its decimal text is rejected, while the trip budget's decimal text is read as a number. */
  lemma AgeNotCoerced(n: nat)
    ensures ParseProfile(JObj([("age", JStr(IntText(n)))])) == None
    ensures ParseProfile(JObj([("age", JNum(n))])) == Some(ProfileInput(None, Some(n)))
    ensures ParseBudget(Some(JStr(IntText(n)))) == Some(n)
  {
    BudgetFromText(n);
  }

  /** The profile is optional, and a present profile must itself be accepted. */
  lemma ProfileOptional(f: FormatChecks, v: Json)
    requires v.JObj?
    ensures ParseUser(f, v).Some? ==>
      var p := Get(v.fields, "profile");
      (p.None? ==> ParseUser(f, v).value.profile.None?) &&
      (p.Some? ==> ParseProfile(p.value).Some? && ParseUser(f, v).value.profile == ParseProfile(p.value))
  {
  }
}
