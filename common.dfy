/** Values shared by the backend and the front end: optional values and
    results, MongoDB object identifiers, Go string lengths, the HTTP status
    codes and messages of constant/messages.go, the user record of
    models/user.go and the request-local slot that the middlewares fill. */
module Common {

  datatype Option<+T> = None | Some(value: T)

  datatype Result<+T, +E> = Ok(value: T) | Err(error: E)

  // HTTP status codes used by the handlers and middlewares.
  const StatusOK := 200
  const StatusBadRequest := 400
  const StatusUnauthorized := 401
  const StatusForbidden := 403
  const StatusInternalServerError := 500

  // Response messages (constant/messages.go).
  const SuccessCreated := "Resource created successfully"
  const SuccessUpdated := "Resource updated successfully"
  const ErrBadRequest := "Bad request"
  const ErrUnauthorized := "Unauthorized"
  const ErrForbidden := "Forbidden"
  const ErrInternalServer := "Internal server error"

  /** What a Fiber middleware or validator does with a request: pass it on
      with `c.Next()`, or answer it with a status code and a JSON message. */
  datatype Gate = Next | Halt(status: int, message: string)

  predicate IsHexDigit(c: char) {
    '0' <= c <= '9' || 'a' <= c <= 'f' || 'A' <= c <= 'F'
  }

  predicate IsLowerHexDigit(c: char) {
    '0' <= c <= '9' || 'a' <= c <= 'f'
  }

  /** The canonical text of a 12-byte ObjectID: 24 lower-case hex digits,
      as `ObjectID.Hex()` prints it. */
  predicate IsCanonicalHex(s: string) {
    |s| == 24 && forall i :: 0 <= i < |s| ==> IsLowerHexDigit(s[i])
  }

  /** A MongoDB ObjectID, identified with its canonical hex text. */
  type ObjectId = s: string | IsCanonicalHex(s) witness "000000000000000000000000"

  /** primitive.NilObjectID, the zero value of an ObjectID. */
  const NilObjectId: ObjectId := "000000000000000000000000"

  function LowerHexDigit(c: char): (d: char)
    requires IsHexDigit(c)
    ensures IsLowerHexDigit(d)
    ensures IsLowerHexDigit(c) ==> d == c
  {
    if 'A' <= c <= 'F' then (c as int + 32) as char else c
  }

  function LowerHex(s: string): (r: string)
    requires forall i :: 0 <= i < |s| ==> IsHexDigit(s[i])
    ensures |r| == |s|
    ensures forall i :: 0 <= i < |s| ==> r[i] == LowerHexDigit(s[i])
  {
    if s == [] then [] else [LowerHexDigit(s[0])] + LowerHex(s[1..])
  }

  /** primitive.ObjectIDFromHex: exactly 24 characters, each a hex digit of
      either case (hex.DecodeString accepts both); the identifier is the
      decoded bytes, whose canonical text is the lower-cased input. */
  function ObjectIDFromHex(s: string): (r: Option<ObjectId>)
    ensures r.Some? <==> |s| == 24 && forall i :: 0 <= i < |s| ==> IsHexDigit(s[i])
    ensures r.Some? ==> forall i :: 0 <= i < 24 ==> r.value[i] == LowerHexDigit(s[i])
  {
    if |s| == 24 && forall i :: 0 <= i < |s| ==> IsHexDigit(s[i]) then
      var t := LowerHex(s);
      assert IsCanonicalHex(t);
      Some(t)
    else
      None
  }

  /** Parsing the canonical text of an identifier gives the identifier back
      (the round trip `ObjectIDFromHex(id.Hex()) == id`). */
  lemma HexRoundTrip(id: ObjectId)
    ensures ObjectIDFromHex(id) == Some(id)
  {
    var r := ObjectIDFromHex(id);
    assert r.Some?;
    assert forall i :: 0 <= i < 24 ==> r.value[i] == id[i];
    var a: string, b: string := r.value, id;
    assert |a| == |b| && forall i :: 0 <= i < |a| ==> a[i] == b[i];
    assert a == b;
  }

  /** Number of bytes of the UTF-8 encoding of one code point. */
  function RuneLen(c: char): (n: nat)
    ensures 1 <= n <= 4
    ensures n == 1 <==> c as int < 0x80
  {
    if c as int < 0x80 then 1
    else if c as int < 0x800 then 2
    else if c as int < 0x10000 then 3
    else 4
  }

  /** Go's `len` of a string: its length in UTF-8 bytes, not in characters.
      Strings are modelled as sequences of code points. */
  function Utf8Len(s: string): (n: nat)
    ensures |s| <= n <= 4 * |s|
    ensures n == 0 <==> s == []
  {
    if s == [] then 0 else RuneLen(s[0]) + Utf8Len(s[1..])
  }

  /** On ASCII text the byte length and the character length agree. */
  lemma {:induction false} Utf8LenAscii(s: string)
    requires forall i :: 0 <= i < |s| ==> s[i] as int < 0x80
    ensures Utf8Len(s) == |s|
  {
    if s != [] {
      Utf8LenAscii(s[1..]);
    }
  }

  /** The user document of models/user.go. */
  datatype User = User(
    id: ObjectId,
    fullName: string,
    email: string,
    password: string,
    assignedIssues: seq<ObjectId>,
    projectSize: int,
    subscriptions: seq<ObjectId>,
    ownedProjects: seq<ObjectId>,
    teamProjects: seq<ObjectId>,
    isAdmin: bool,
    verificationToken: string,
    isVerified: bool)

  /** A `models.User{...}` literal that sets only these four fields; every
      other field keeps Go's zero value. */
  function UserWith(id: ObjectId, fullName: string, email: string, isAdmin: bool): User
  {
    User(id, fullName, email, "", [], 0, [], [], [], isAdmin, "", false)
  }

  /** What `c.Locals("user")` holds: nothing (nil), a *models.User, or a
      value of some other type. */
  datatype Local = NoLocal | UserLocal(user: User) | OtherLocal
}
