/** Whether an identifier (phone or e-mail) belongs to a known user and
    whether that user is a client (CheckUserTypeService.java), and the mask
    the service writes to its log in place of the identifier.
    `PhoneUtils.normalize` is the parameter `normalize`; `None` stands for
    its `null`, which matches no phone. */
module CheckUserType {
  import opened Wrappers
  import opened Text
  import opened Users

  /** `CheckUserTypeResponse`. */
  datatype UserType = UserType(userExists: bool, isClient: bool)

  /** `findUserByIdentifier`: by normalized phone first, then by the
      trimmed, lower-cased identifier as an e-mail. */
  function FindUserByIdentifier(us: seq<User>, normalize: string -> Option<string>, identifier: string): (r: Option<User>)
    ensures r.Some? ==> r.value in us
  {
    var byPhone := if normalize(identifier).Some? then FindByPhone(us, normalize(identifier).value) else None;
    if byPhone.None? then FindByEmail(us, ToLowerAscii(Trim(identifier))) else byPhone
  }

  /** `check`. */
  function Check(us: seq<User>, normalize: string -> Option<string>, identifier: string): (t: UserType)
    ensures t.userExists <==> FindUserByIdentifier(us, normalize, identifier).Some?
    ensures t.isClient ==> t.userExists
  {
    match FindUserByIdentifier(us, normalize, identifier)
    case None => UserType(false, false)
    case Some(user) => UserType(true, user.role == Some(CLIENT))
  }

  /** An identifier that matches nobody: not a user, and not a client either. */
  lemma UnknownIdentifier(us: seq<User>, normalize: string -> Option<string>, identifier: string)
    requires normalize(identifier).Some? ==> forall i :: 0 <= i < |us| ==> us[i].phone != normalize(identifier)
    requires forall i :: 0 <= i < |us| ==> us[i].email != Some(ToLowerAscii(Trim(identifier)))
    ensures Check(us, normalize, identifier) == UserType(false, false)
  {
  }

  /** The answer is that of the user found: exists, and a client exactly
      when the role is CLIENT. */
  lemma FoundUser(us: seq<User>, normalize: string -> Option<string>, identifier: string)
    requires FindUserByIdentifier(us, normalize, identifier).Some?
    ensures Check(us, normalize, identifier)
            == UserType(true, FindUserByIdentifier(us, normalize, identifier).value.role == Some(CLIENT))
  {
  }

  /** A phone match wins over any e-mail match, and the e-mail is tried only
      when no phone matches. */
  lemma PhoneFirst(us: seq<User>, normalize: string -> Option<string>, identifier: string)
    ensures normalize(identifier).Some? && FindByPhone(us, normalize(identifier).value).Some? ==>
              FindUserByIdentifier(us, normalize, identifier) == FindByPhone(us, normalize(identifier).value)
    ensures (normalize(identifier).None? || FindByPhone(us, normalize(identifier).value).None?) ==>
              FindUserByIdentifier(us, normalize, identifier) == FindByEmail(us, ToLowerAscii(Trim(identifier)))
  {
  }

  /** Upper-case letters and surrounding blanks do not hide an e-mail. */
  lemma EmailLookupIgnoresCaseAndBlanks(us: seq<User>, normalize: string -> Option<string>, a: string, b: string)
    requires normalize(a).None? && normalize(b).None?
    requires ToLowerAscii(Trim(a)) == ToLowerAscii(Trim(b))
    ensures Check(us, normalize, a) == Check(us, normalize, b)
  {
  }

  const Stars: string := "***"

  /** `maskIdentifier`. */
  function MaskIdentifier(identifier: Option<string>): (m: string)
    ensures identifier.None? || |identifier.value| < 4 ==> m == Stars
  {
    if identifier.None? || |identifier.value| < 4 then Stars
    else
      var s := identifier.value;
      if '@' in s then [s[0]] + Stars + s[IndexOf(s, '@')..]
      else
        var len := |s|;
        s[..if 6 < len - 4 then 6 else len - 4] + Stars + s[len - 2..]
  }

  /** An e-mail keeps its first character and everything from the first
      '@' on; the rest of the local part becomes "***". */
  lemma EmailMask(s: string)
    requires |s| >= 4 && '@' in s
    ensures var m, k := MaskIdentifier(Some(s)), IndexOf(s, '@');
            m == [s[0]] + Stars + s[k..] && |m| == |s| - k + 4
  {
  }

  /** A phone-like identifier shows at most its first six characters and its
      last two, always hiding at least two, and the mask is never longer
      than the identifier plus the stars. */
  lemma PhoneMaskHides(s: string)
    requires |s| >= 4 && '@' !in s
    ensures var m := MaskIdentifier(Some(s));
            var shown := if 6 < |s| - 4 then 6 else |s| - 4;
            m == s[..shown] + Stars + s[|s| - 2..]
            && shown + 2 <= |s| - 2
            && |m| - |Stars| <= |s| - 2
            && (|s| >= 10 ==> |m| == 11)
  {
  }

  /** A twelve-character phone keeps its first six and last two characters
      (the code's output; its comment shows seven kept in front). */
  lemma PhoneMaskExample(s: string)
    requires s == "+79991234567"
    ensures MaskIdentifier(Some(s)) == "+79991***67"
  {
    assert forall i :: 0 <= i < |s| ==> s[i] != '@';
    assert s[..6] == "+79991" && s[10..] == "67";
  }

  lemma EmailMaskExample(s: string)
    requires s == "user@example.com"
    ensures MaskIdentifier(Some(s)) == "u***@example.com"
  {
    EmailExampleShape(s);
    EmailMaskOf(s);
  }

  lemma EmailExampleShape(s: string)
    requires s == "user@example.com"
    ensures |s| >= 5 && s[4] == '@' && (forall j :: 0 <= j < 4 ==> s[j] != '@')
    ensures s[0] == 'u' && s[4..] == "@example.com"
  {
  }

  /** The e-mail mask of an identifier "u...@example.com" whose first '@'
      is at 4. */
  lemma EmailMaskOf(s: string)
    requires |s| >= 5 && s[4] == '@' && (forall j :: 0 <= j < 4 ==> s[j] != '@')
    requires s[0] == 'u' && s[4..] == "@example.com"
    ensures MaskIdentifier(Some(s)) == "u***@example.com"
  {
    assert IndexOf(s, '@') == 4;
    assert [s[0]] + Stars + s[4..] == "u***@example.com";
  }
}
