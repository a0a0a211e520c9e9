/** The authentication gate in front of every protected route
    (backend/middleware/authMiddleware.js). It reads the Authorization header,
    demands the exact shape `Bearer <token>`, hands the token to the JWT
    verifier (an oracle here: JWT signatures and expiry are not modelled) and,
    on success, admits the request with the identity {id, role, farm_id},
    where farm_id is read from either of the two claim names tokens have
    carried. Accept stands for assigning req.user and calling next(). */
module AuthMiddleware {
  import opened Values

  /** The payload the JWT verifier returns. `farmId` is the older claim
      name for the farm; tokens issued today carry `farm_id`. */
  datatype Claims = Claims(id: int, role: string, farm_id: FarmRef, farmId: FarmRef,
                           iat: int, exp: int)

  /** req.user, the identity every downstream handler trusts. */
  datatype Identity = Identity(id: int, role: string, farm_id: FarmRef)

  /** Reject: the 401 reply, and next() is not called. Accept: next() runs with req.user set. */
  datatype GateResult = Reject(status: int, message: string) | Accept(user: Identity)

  const NoToken := "No token provided"
  const BadFormat := "Invalid token format"
  const BadToken := "Invalid or expired token"

  /** `s.split(" ")`: the pieces between single spaces, empty pieces kept. */
  function Split(s: string): (parts: seq<string>)
    ensures |parts| >= 1
  {
    if s == [] then [""]
    else
      var rest := Split(s[1..]);
      if s[0] == ' ' then [""] + rest else [[s[0]] + rest[0]] + rest[1..]
  }

  /** `parts.join(" ")`. */
  function Join(parts: seq<string>): string
    requires |parts| >= 1
  {
    if |parts| == 1 then parts[0] else parts[0] + " " + Join(parts[1..])
  }

  /** Splitting loses nothing: no piece holds a space and joining the pieces
      with single spaces gives the header back. */
  lemma {:induction false} SplitJoin(s: string)
    ensures forall k :: 0 <= k < |Split(s)| ==> ' ' !in Split(s)[k]
    ensures Join(Split(s)) == s
  {
    if s != [] {
      SplitJoin(s[1..]);
      var rest := Split(s[1..]);
      if s[0] == ' ' {
        assert Split(s) == [""] + rest;
        assert ([""] + rest)[1..] == rest;
        assert s == [' '] + s[1..];
      } else {
        var parts := Split(s);
        assert parts == [[s[0]] + rest[0]] + rest[1..];
        assert parts[1..] == rest[1..];
        if |rest| == 1 {
          assert s == [s[0]] + rest[0];
        } else {
          assert Join(rest) == rest[0] + " " + Join(rest[1..]);
          assert s == [s[0]] + rest[0] + " " + Join(rest[1..]);
        }
        forall k | 0 <= k < |parts| ensures ' ' !in parts[k] {
          if k > 0 {
            assert parts[k] == rest[k];
          }
        }
      }
    }
  }

  lemma {:induction false} SplitNoSpace(t: string)
    requires ' ' !in t
    ensures Split(t) == [t]
  {
    if t != [] {
      SplitNoSpace(t[1..]);
      assert t == [t[0]] + t[1..];
    }
  }

  lemma {:induction false} SplitAtSpace(w: string, t: string)
    requires ' ' !in w
    ensures Split(w + " " + t) == [w] + Split(t)
  {
    if w == [] {
      var s := w + " " + t;
      assert s[0] == ' ' && s[1..] == t;
    } else {
      SplitAtSpace(w[1..], t);
      var s := w + " " + t;
      assert s[0] == w[0] && s[1..] == w[1..] + " " + t;
      assert [w[0]] + w[1..] == w;
    }
  }

  /** The header shape the gate admits: "Bearer", one space, then a token
      with no space in it (possibly empty). */
  predicate WellFormed(h: string) {
    |h| >= 7 && h[..7] == "Bearer " && ' ' !in h[7..]
  }

  /** The format test of the source (exactly two space-separated parts, the
      first exactly "Bearer") holds exactly for well-formed headers, and the
      second part is then everything after "Bearer ". */
  lemma FormatCheck(h: string)
    ensures (|Split(h)| == 2 && Split(h)[0] == "Bearer") <==> WellFormed(h)
    ensures WellFormed(h) ==> Split(h)[1] == h[7..]
  {
    if WellFormed(h) {
      assert h == "Bearer" + " " + h[7..];
      SplitAtSpace("Bearer", h[7..]);
      SplitNoSpace(h[7..]);
    }
    if |Split(h)| == 2 && Split(h)[0] == "Bearer" {
      SplitJoin(h);
      var parts := Split(h);
      assert Join(parts[1..]) == parts[1];
      assert h == "Bearer" + " " + parts[1];
      assert h[7..] == parts[1];
    }
  }

  /** The identity built from verified claims. */
  function Normalize(c: Claims): (u: Identity)
    ensures u.id == c.id && u.role == c.role
    ensures Truthy(c.farm_id) ==> u.farm_id == c.farm_id
    ensures !Truthy(c.farm_id) ==> u.farm_id == c.farmId
    ensures Truthy(u.farm_id) <==> Truthy(c.farm_id) || Truthy(c.farmId)
  {
    Identity(c.id, c.role, OrElse(c.farm_id, c.farmId))
  }

  /** The middleware: absent header first, then format, then verification.
      Only a well-formed header reaches the verifier, and what it verifies
      is exactly the text after "Bearer ". */
  function Authenticate(header: Option<string>, verify: string -> Option<Claims>): (r: GateResult)
    ensures r.Reject? ==> r.status == 401
    ensures r == Reject(401, NoToken) <==> !Filled(header)
    ensures r == Reject(401, BadFormat) <==> Filled(header) && !WellFormed(header.value)
    ensures r == Reject(401, BadToken) <==>
              Filled(header) && WellFormed(header.value) && verify(header.value[7..]).None?
    ensures r.Accept? <==>
              Filled(header) && WellFormed(header.value) && verify(header.value[7..]).Some?
    ensures r.Accept? ==> r.user == Normalize(verify(header.value[7..]).value)
  {
    if !Filled(header) then Reject(401, NoToken)
    else
      var parts := Split(header.value);
      FormatCheck(header.value);
      if |parts| != 2 || parts[0] != "Bearer" then Reject(401, BadFormat)
      else
        match verify(parts[1])
        case None => Reject(401, BadToken)
        case Some(decoded) => Accept(Normalize(decoded))
  }

  /** Two spaces after the scheme give three parts: rejected as malformed,
      whatever the verifier would say. */
  lemma DoubleSpaceRejected(token: string, verify: string -> Option<Claims>)
    ensures Authenticate(Some("Bearer  " + token), verify) == Reject(401, BadFormat)
  {
    var h := "Bearer  " + token;
    assert h[7..][0] == ' ';
  }

  /** The scheme is case-sensitive: "bearer" is rejected as malformed. */
  lemma LowerCaseSchemeRejected(token: string, verify: string -> Option<Claims>)
    ensures Authenticate(Some("bearer " + token), verify) == Reject(401, BadFormat)
  {
    var h := "bearer " + token;
    assert h[0] != 'B';
  }

  /** A token alone, without the scheme, is rejected as malformed. */
  lemma BareTokenRejected(token: string, verify: string -> Option<Claims>)
    requires token != "" && ' ' !in token
    ensures Authenticate(Some(token), verify) == Reject(401, BadFormat)
  {
    if |token| >= 7 {
      assert token[6] in token;
    }
  }
}
