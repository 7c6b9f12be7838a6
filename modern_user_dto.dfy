/**
 * The user record of the modern shop domain: an id, an e-mail address and a
 * first and last name, built from a database or session array.
 */
module ModernUserDto {
  import opened Wrappers
  import opened PhpStrings
  import opened PhpValues

  datatype User = User(id: PhpInt, email: string, firstName: string, lastName: string)

  /** UserDTO::fullName: both names joined by one space, trimmed. */
  function FullName(u: User): (r: string)
    ensures r == [] || (!IsTrimChar(r[0]) && !IsTrimChar(r[|r| - 1]))
  {
    Trim(u.firstName + " " + u.lastName)
  }

  /** The full name is the joined names with only trim() blanks cut from either end. */
  lemma FullNameParts(u: User) returns (w1: string, w2: string)
    ensures u.firstName + " " + u.lastName == w1 + FullName(u) + w2
    ensures AllBlank(w1, TrimChars) && AllBlank(w2, TrimChars)
  {
    w1, w2 := StripParts(u.firstName + " " + u.lastName, TrimChars);
  }

  /** Without a last name the full name is the trimmed first name. */
  lemma FullNameWithoutLastName(u: User)
    requires u.lastName == ""
    ensures FullName(u) == Trim(u.firstName)
  {
    var w1, w2 := StripParts(u.firstName, TrimChars);
    assert u.firstName + " " + u.lastName == w1 + Trim(u.firstName) + (w2 + " ");
    StripPadding(w1, Trim(u.firstName), w2 + " ", TrimChars);
  }

  /** Without a first name the full name is the trimmed last name. */
  lemma FullNameWithoutFirstName(u: User)
    requires u.firstName == ""
    ensures FullName(u) == Trim(u.lastName)
  {
    var t := Strip(u.lastName, TrimChars);
    var w1, w2 := StripParts(u.lastName, TrimChars);
    var pad := " " + w1;
    assert AllBlank(pad, TrimChars) by {
      forall k | 0 <= k < |pad|
        ensures IsBlank(pad[k], TrimChars)
      {
        if k > 0 {
          assert pad[k] == w1[k - 1];
        }
      }
    }
    assert u.firstName + " " == " ";
    ConcatAssoc(" ", w1 + t, w2);
    ConcatAssoc(" ", w1, t);
    StripPadding(pad, t, w2, TrimChars);
  }

  /** Two names without blank ends are joined unchanged. */
  lemma FullNameOfTrimmedNames(u: User)
    requires u.firstName != [] && !IsTrimChar(u.firstName[0])
    requires u.lastName != [] && !IsTrimChar(u.lastName[|u.lastName| - 1])
    ensures FullName(u) == u.firstName + " " + u.lastName
  {
    var s := u.firstName + " " + u.lastName;
    assert s[0] == u.firstName[0] && s[|s| - 1] == u.lastName[|u.lastName| - 1];
    StripKeeps(s, TrimChars);
  }

  /** A string argument under strict_types: a missing key reads as null, and anything but a string is a TypeError. */
  function StringArgument(v: Value): (r: Result<string, TypeError>)
    ensures r.Success? <==> v.Str?
    ensures r.Success? ==> r.value == v.s
  {
    if v.Str? then Success(v.s) else Failure(TypeError)
  }

  /**
   * UserDTO::fromArray: id is cast to int, email and firstname must be
   * strings, and lastname defaults to the empty string when missing or null.
   */
  function FromArray(data: Row): (r: Result<User, TypeError>)
    ensures r.Success? <==>
      Coalesce(Field(data, "email"), Null).Str? && Coalesce(Field(data, "firstname"), Null).Str? &&
      Coalesce(Field(data, "lastname"), Str("")).Str?
    ensures r.Success? ==>
      r.value.id == IntCast(Coalesce(Field(data, "id"), Null)) &&
      r.value.email == data["email"].s && r.value.firstName == data["firstname"].s &&
      r.value.lastName == (if IsSet(Field(data, "lastname")) then data["lastname"].s else "")
  {
    var email := StringArgument(Coalesce(Field(data, "email"), Null));
    var firstName := StringArgument(Coalesce(Field(data, "firstname"), Null));
    var lastName := StringArgument(Coalesce(Field(data, "lastname"), Str("")));
    if email.Failure? || firstName.Failure? || lastName.Failure? then Failure(TypeError)
    else Success(User(IntCast(Coalesce(Field(data, "id"), Null)), email.value, firstName.value, lastName.value))
  }

  /** The array shape fromArray documents for a user. */
  function ArrayOf(u: User): Row {
    map["id" := Int(u.id), "email" := Str(u.email), "firstname" := Str(u.firstName), "lastname" := Str(u.lastName)]
  }

  /** Every user is read back from its documented array. */
  lemma FromArrayOf(u: User)
    ensures FromArray(ArrayOf(u)) == Success(u)
  {
    var data := ArrayOf(u);
    assert Field(data, "id") == Some(Int(u.id));
    assert Field(data, "lastname") == Some(Str(u.lastName));
  }

  /** Leaving lastname out gives an empty last name, and the full name is the trimmed first name. */
  lemma FromArrayWithoutLastName(id: PhpInt, email: string, firstName: string)
    ensures FromArray(map["id" := Int(id), "email" := Str(email), "firstname" := Str(firstName)]) ==
      Success(User(id, email, firstName, ""))
    ensures FullName(User(id, email, firstName, "")) == Trim(firstName)
  {
    var data := map["id" := Int(id), "email" := Str(email), "firstname" := Str(firstName)];
    assert Field(data, "id") == Some(Int(id));
    assert Field(data, "lastname") == None;
    FullNameWithoutLastName(User(id, email, firstName, ""));
  }
}
