/**
 The authentication gate in front of every protected endpoint: take the
 second space-separated part of the Authorization header as the token, and
 hand it to the token verifier. The verifier (signature and expiry check)
 is an oracle from token to claim.
 */
module Auth {
  import opened Records

  /** The fields of `fields` glued back together with single spaces. */
  function Join(fields: seq<string>): string
  {
    if |fields| == 0 then []
    else if |fields| == 1 then fields[0]
    else fields[0] + [' '] + Join(fields[1..])
  }

  /**
   `s.split(' ')`: the maximal runs between single spaces, empty runs
   included, so there is always at least one field and a string without a
   space is its own only field.
   */
  function Split(s: string): (r: seq<string>)
    ensures |r| >= 1
    ensures forall k :: 0 <= k < |r| ==> ' ' !in r[k]
    ensures ' ' !in s ==> r == [s]
    ensures ' ' in s ==> |r| >= 2
  {
    if s == [] then [[]]
    else
      var rest := Split(s[1..]);
      if s[0] == ' ' then [[]] + rest
      else
        assert [s[0]] + s[1..] == s;
        [[s[0]] + rest[0]] + rest[1..]
  }

  /** Splitting and joining again gives back the header. */
  lemma {:induction false} SplitJoin(s: string)
    ensures Join(Split(s)) == s
  {
    if s != [] {
      var rest := Split(s[1..]);
      SplitJoin(s[1..]);
      if s[0] == ' ' {
        assert Split(s) == [[]] + rest;
        assert s == [' '] + s[1..];
      } else {
        var r := Split(s);
        assert r[1..] == rest[1..];
        if |rest| == 1 {
          assert Join(rest) == rest[0];
        } else {
          assert Join(rest) == rest[0] + [' '] + Join(rest[1..]);
        }
        assert s == [s[0]] + s[1..];
      }
    }
  }

  /** Splitting after a space-free first field peels that field off. */
  lemma {:induction false} SplitCons(a: string, b: string)
    requires ' ' !in a
    ensures Split(a + [' '] + b) == [a] + Split(b)
  {
    if a == [] {
      assert a + [' '] + b == [' '] + b;
      assert ([' '] + b)[1..] == b;
    } else {
      assert (a + [' '] + b)[1..] == a[1..] + [' '] + b;
      SplitCons(a[1..], b);
      assert [a[0]] + a[1..] == a;
    }
  }

  /** Joining space-free fields and splitting again gives back the fields. */
  lemma {:induction false} JoinSplit(fields: seq<string>)
    requires |fields| >= 1
    requires forall k :: 0 <= k < |fields| ==> ' ' !in fields[k]
    ensures Split(Join(fields)) == fields
  {
    if |fields| > 1 {
      JoinSplit(fields[1..]);
      SplitCons(fields[0], Join(fields[1..]));
      assert [fields[0]] + fields[1..] == fields;
    }
  }

  /**
   `authHeader && authHeader.split(' ')[1]`: no header gives no token; an
   empty header short-circuits to the empty string, which is a token (it
   is not null); otherwise the second field, if the header has one.
   */
  function BearerToken(header: Option<string>): (t: Option<string>)
    ensures t.None? <==> header.None? || (header.value != [] && ' ' !in header.value)
    ensures header == Some([]) ==> t == Some([])
    ensures t.Some? ==> ' ' !in t.value
  {
    match header
    case None => None
    case Some(h) =>
      if h == [] then Some(h)
      else
        var parts := Split(h);
        if |parts| >= 2 then Some(parts[1]) else None
  }

  /**
   A header `<scheme> <token>` (possibly followed by more space-separated
   parts) yields exactly `<token>`, whatever the scheme word says.
   */
  lemma BearerTokenOfHeader(scheme: string, token: string, rest: string)
    requires ' ' !in scheme && ' ' !in token
    requires rest == [] || rest[0] == ' '
    ensures BearerToken(Some(scheme + [' '] + token + rest)) == Some(token)
  {
    var h := scheme + [' '] + token + rest;
    assert h == scheme + [' '] + (token + rest);
    SplitCons(scheme, token + rest);
    if rest == [] {
      assert token + rest == token;
    } else {
      assert token + rest == token + [' '] + rest[1..];
      SplitCons(token, rest[1..]);
    }
  }

  /**
   `authenticateToken`: 401 (NoToken) when there is no token, 403
   (InvalidToken) when the verifier rejects it, otherwise the verified claim.
   */
  function Authenticate(header: Option<string>, verifyToken: string -> Option<Claim>): (r: Result<Claim>)
    ensures r.Ok? || r == Err(NoToken) || r == Err(InvalidToken)
    ensures r == Err(NoToken) <==> header.None? || (header.value != [] && ' ' !in header.value)
    ensures r.Ok? ==> exists t :: ' ' !in t && verifyToken(t) == Some(r.value)
    ensures header == Some([]) ==> (r == Err(InvalidToken) <==> verifyToken([]).None?)
  {
    match BearerToken(header)
    case None => Err(NoToken)
    case Some(t) =>
      match verifyToken(t)
      case None => Err(InvalidToken)
      case Some(claim) => Ok(claim)
  }

  /**
   With a header `<scheme> <token>`, possibly followed by more
   space-separated parts, the gate admits exactly what the verifier accepts.
   */
  lemma AuthenticateBearer(scheme: string, token: string, rest: string, verifyToken: string -> Option<Claim>)
    requires ' ' !in scheme && ' ' !in token
    requires rest == [] || rest[0] == ' '
    ensures Authenticate(Some(scheme + [' '] + token + rest), verifyToken) ==
            (match verifyToken(token)
             case None => Err(InvalidToken)
             case Some(c) => Ok(c))
  {
    BearerTokenOfHeader(scheme, token, rest);
  }
}
