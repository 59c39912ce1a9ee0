/** The signed-in user's label and avatar in components/auth/user-menu.tsx. */
module UserMenu {
  import opened Nullable
  import opened JsText

  const FallbackName: string := "User"

  /** The provider's `user_metadata`; either field may be missing. */
  datatype Metadata = Metadata(name: Option<string>, avatarUrl: Option<string>)

  datatype User = User(email: Option<string>, metadata: Option<Metadata>)

  function MetadataName(user: User): Option<string> {
    if user.metadata.Some? then user.metadata.value.name else None
  }

  function AvatarUrl(user: User): Option<string> {
    if user.metadata.Some? then user.metadata.value.avatarUrl else None
  }

  /** `user.user_metadata?.name || user.email || 'User'`. */
  function DisplayName(user: User): (r: string)
    ensures r != ""
    ensures Truthy(MetadataName(user)) ==> r == MetadataName(user).value
    ensures !Truthy(MetadataName(user)) && Truthy(user.email) ==> r == user.email.value
    ensures !Truthy(MetadataName(user)) && !Truthy(user.email) ==> r == FallbackName
  {
    var name := MetadataName(user);
    if Truthy(name) then name.value
    else if Truthy(user.email) then user.email.value
    else FallbackName
  }

  /** `parts.map(part => part[0]).join('')`: an empty part maps to
      `undefined`, which `join` writes as nothing. */
  function HeadChars(parts: seq<string>): (r: string)
    ensures |r| <= |parts|
  {
    if parts == [] then []
    else (if parts[0] != [] then [parts[0][0]] else []) + HeadChars(parts[1..])
  }

  /** Reference reading of the same thing: scanning left to right, keep each
      character that is not a space and follows a space or the start. */
  function WordStarts(s: string, atStart: bool): string {
    if s == [] then []
    else if s[0] == ' ' then WordStarts(s[1..], true)
    else (if atStart then [s[0]] else []) + WordStarts(s[1..], false)
  }

  lemma {:induction false} HeadCharsAreWordStarts(s: string)
    ensures HeadChars(Split(s, ' ')) == WordStarts(s, true)
    ensures HeadChars(Split(s, ' ')[1..]) == WordStarts(s, false)
  {
    if s != [] {
      var rest := Split(s[1..], ' ');
      HeadCharsAreWordStarts(s[1..]);
      if s[0] == ' ' {
        assert ([[]] + rest)[1..] == rest;
      } else {
        var parts := [[s[0]] + rest[0]] + rest[1..];
        assert parts[1..] == rest[1..];
      }
    }
  }

  /** `getInitials`: the first character of every space-separated word,
      upper-cased, at most two of them. */
  function GetInitials(name: string): (r: string)
    ensures |r| <= 2
    ensures r == Take(ToUpper(WordStarts(name, true)), 2)
  {
    HeadCharsAreWordStarts(name);
    Take(ToUpper(HeadChars(Split(name, ' '))), 2)
  }

  lemma TwoWordInitials()
    ensures GetInitials("kim mj") == "KM"
  {
    assert WordStarts("mj", false) == "";
    assert WordStarts("mj", true) == "m";
    assert WordStarts("kim mj", true) == "km";
    assert ToUpper("km") == "KM";
  }

  lemma SpacedInitials()
    ensures GetInitials(" a  b c") == "AB"
  {
    assert WordStarts("c", true) == "c";
    assert WordStarts(" b c", true) == "bc";
    assert WordStarts(" a  b c", true) == "abc";
    assert ToUpper("abc") == "ABC";
  }

  /** The avatar slot: the picture with the display name as its text, or the
      initials of the display name. */
  datatype Avatar = Picture(src: string, alt: string) | Initials(text: string)

  function AvatarOf(user: User): (a: Avatar)
    ensures a.Picture? <==> Truthy(AvatarUrl(user))
    ensures a.Picture? ==> a.src == AvatarUrl(user).value && a.alt == DisplayName(user)
    ensures a.Initials? ==> a.text == GetInitials(DisplayName(user)) && |a.text| <= 2
  {
    var url := AvatarUrl(user);
    if Truthy(url) then Picture(url.value, DisplayName(user)) else Initials(GetInitials(DisplayName(user)))
  }

  /** Without metadata the email, or else `User`, names the user. */
  lemma NoMetadata(email: Option<string>)
    ensures DisplayName(User(email, None)) == if Truthy(email) then email.value else FallbackName
    ensures AvatarOf(User(None, None)) == Initials("U")
  {
    assert GetInitials(FallbackName) == "U";
  }
}
