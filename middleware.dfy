/** The two authentication gates put in front of routes. RequireAuth answers
    401 unless the Authorization header carries a bearer token of at least ten
    bytes (a placeholder for real token checking, and a stricter,
    case-sensitive reading of the "Bearer" scheme of section 2.1 of RFC 6750);
    OptionalAuth never answers itself and only attaches the user when the
    same header would have been accepted. */
module Middleware {
  import opened Common
  import opened Text

  /** The context locals `user_id` and `user_role`. */
  datatype User = User(id: string, role: string)

  datatype Outcome =
    | Rejected(status: int, message: string)   // the 401 JSON reply; the chain stops
    | Accepted(user: User)                     // locals set, `c.Next()` called

  const BearerPrefix: string := "Bearer "
  const MinTokenLength: nat := 10
  const PlaceholderUser: User := User("user_123", "admin")

  /** The checks, in order; the first that fails decides the reply. */
  function RequireAuth(header: string): (r: Outcome)
    ensures r.Rejected? ==> r.status == 401
    ensures r.Accepted? ==> r.user == PlaceholderUser
  {
    if header == "" then Rejected(401, "Authorization header required")
    else if !HasPrefix(header, BearerPrefix) then
      Rejected(401, "Invalid authorization format. Expected 'Bearer <token>'")
    else
      var token := TrimPrefix(header, BearerPrefix);
      if token == "" then Rejected(401, "Token required")
      else if Utf8Len(token) < MinTokenLength then Rejected(401, "Invalid token")
      else Accepted(PlaceholderUser)
  }

  /** The user OptionalAuth attaches, if any; the request always proceeds. */
  function OptionalAuth(header: string): (user: Option<User>)
    ensures user.Some? ==> user.value == PlaceholderUser
  {
    if header != "" && HasPrefix(header, BearerPrefix) then
      var token := TrimPrefix(header, BearerPrefix);
      if Utf8Len(token) >= MinTokenLength then Some(PlaceholderUser) else None
    else None
  }

  /** RequireAuth accepts exactly the headers "Bearer " + t with t at least
      ten bytes long in UTF-8. */
  lemma AcceptedIff(header: string)
    ensures RequireAuth(header).Accepted? <==>
      exists t :: header == BearerPrefix + t && Utf8Len(t) >= MinTokenLength
  {
    if exists t :: header == BearerPrefix + t && Utf8Len(t) >= MinTokenLength {
      var t :| header == BearerPrefix + t && Utf8Len(t) >= MinTokenLength;
      assert header[..|BearerPrefix|] == BearerPrefix;
      assert header[|BearerPrefix|..] == t;
    }
    if RequireAuth(header).Accepted? {
      var t := TrimPrefix(header, BearerPrefix);
      assert header == BearerPrefix + t;
    }
  }

  /** Which message each malformed header gets. */
  lemma RejectionReasons(header: string, t: string)
    ensures header == "" ==> RequireAuth(header) == Rejected(401, "Authorization header required")
    ensures header != "" && !HasPrefix(header, "Bearer ") ==>
      RequireAuth(header) == Rejected(401, "Invalid authorization format. Expected 'Bearer <token>'")
    ensures header == "Bearer " ==> RequireAuth(header) == Rejected(401, "Token required")
    ensures header == "Bearer " + t && t != "" && Utf8Len(t) < 10 ==> RequireAuth(header) == Rejected(401, "Invalid token")
  {
    if header == "Bearer " + t {
      assert HasPrefix(header, BearerPrefix);
      assert TrimPrefix(header, BearerPrefix) == t;
    }
  }

  /** The length is counted in bytes, not characters: six two-byte
      characters make a token long enough. */
  lemma TokenLengthCountsBytes()
    ensures |"\U{e9}\U{e9}\U{e9}\U{e9}\U{e9}\U{e9}"| == 6
    ensures RequireAuth("Bearer \U{e9}\U{e9}\U{e9}\U{e9}\U{e9}\U{e9}") == Accepted(PlaceholderUser)
  {
    var t := "\U{e9}\U{e9}\U{e9}\U{e9}\U{e9}\U{e9}";
    assert Utf8Width('\U{e9}') == 2;
    assert Utf8Len(t[5..]) == 2;
    assert Utf8Len(t[4..]) == 4;
    assert Utf8Len(t[3..]) == 6;
    assert Utf8Len(t[2..]) == 8;
    assert Utf8Len(t[1..]) == 10;
    assert TrimPrefix("Bearer " + t, BearerPrefix) == t;
  }

  /** The prefix is compared byte for byte: a lower-case scheme name is
      refused even with a long token. */
  lemma SchemeIsCaseSensitive(t: string)
    ensures RequireAuth("bearer " + t) == Rejected(401, "Invalid authorization format. Expected 'Bearer <token>'")
  {
    var h := "bearer " + t;
    assert h[0] != BearerPrefix[0];
  }

  /** OptionalAuth attaches the user exactly when RequireAuth would let the
      request through, and then the same user. */
  lemma OptionalAgreesWithRequired(header: string)
    ensures OptionalAuth(header).Some? <==> RequireAuth(header).Accepted?
    ensures OptionalAuth(header).Some? ==> OptionalAuth(header).value == RequireAuth(header).user
  {
  }
}
