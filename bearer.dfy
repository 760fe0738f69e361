/**
 * The bearer-token gate of src/middleware/auth.ts: the token is the second space-separated
 * field of the Authorization header; a missing or empty one is answered 401, one that fails
 * verification 403, and a valid one sets `req.user` and calls `next`.
 */
module Bearer {
  import opened Wrappers
  import opened Jwt
  import opened Errors

  /** JavaScript `s.split(sep)` for a one-character separator: the pieces between separators, in order. */
  function Split(s: string, sep: char): (parts: seq<string>)
    ensures |parts| >= 1
    ensures forall i :: 0 <= i < |parts| ==> sep !in parts[i]
  {
    if s == [] then [""]
    else
      var rest := Split(s[1..], sep);
      if s[0] == sep then [""] + rest
      else [[s[0]] + rest[0]] + rest[1..]
  }

  /** JavaScript `parts.join(sep)`. */
  function Join(parts: seq<string>, sep: char): string
    requires |parts| >= 1
  {
    if |parts| == 1 then parts[0] else parts[0] + [sep] + Join(parts[1..], sep)
  }

  /** Splitting loses nothing: joining the pieces gives the string back. */
  lemma {:induction false} JoinSplit(s: string, sep: char)
    ensures Join(Split(s, sep), sep) == s
  {
    if s != [] {
      JoinSplit(s[1..], sep);
      var rest := Split(s[1..], sep);
      if s[0] != sep {
        var parts := [[s[0]] + rest[0]] + rest[1..];
        if |rest| > 1 {
          assert parts[1..] == rest[1..];
          assert Join(rest, sep) == rest[0] + [sep] + Join(rest[1..], sep);
        }
      } else {
        assert ([""] + rest)[1..] == rest;
      }
    }
  }

  /** Splitting a join of separator-free pieces gives the pieces back. */
  lemma {:induction false} SplitJoin(parts: seq<string>, sep: char)
    requires |parts| >= 1
    requires forall i :: 0 <= i < |parts| ==> sep !in parts[i]
    ensures Split(Join(parts, sep), sep) == parts
  {
    if |parts| == 1 {
      SplitPiece(parts[0], [], sep);
      assert parts[0] + [] == parts[0];
      assert parts == [parts[0]];
    } else {
      SplitJoin(parts[1..], sep);
      SplitPiece(parts[0], [sep] + Join(parts[1..], sep), sep);
      assert parts[0] + [sep] + Join(parts[1..], sep) == parts[0] + ([sep] + Join(parts[1..], sep));
      assert ([sep] + Join(parts[1..], sep))[1..] == Join(parts[1..], sep);
      assert [parts[0]] + parts[1..] == parts;
    }
  }

  /** A separator-free piece in front of a tail that is empty or starts with the separator becomes the tail's first piece's prefix. */
  lemma {:induction false} SplitPiece(p: string, tail: string, sep: char)
    requires sep !in p
    requires tail == [] || tail[0] == sep
    ensures Split(p + tail, sep) == (if tail == [] then [p] else [p] + Split(tail[1..], sep))
  {
    if p == [] {
      assert p + tail == tail;
      if tail != [] {
        assert Split(tail, sep) == [""] + Split(tail[1..], sep);
      }
    } else {
      SplitPiece(p[1..], tail, sep);
      assert (p + tail)[1..] == p[1..] + tail;
      assert [p[0]] + p[1..] == p;
    }
  }

  /** `req.headers.authorization?.split(" ")[1]`: undefined when there is no header or no second field. */
  function TokenOf(authorization: Option<string>): Option<string> {
    match authorization
    case None => None
    case Some(h) =>
      var parts := Split(h, ' ');
      if |parts| > 1 then Some(parts[1]) else None
  }

  /** The token is the text between the first and second space; the scheme word is not checked. */
  lemma TokenIsSecondField(scheme: string, token: string, rest: string)
    requires ' ' !in scheme && ' ' !in token
    requires rest == [] || rest[0] == ' '
    ensures TokenOf(Some(scheme + " " + token + rest)) == Some(token)
  {
    var tail := token + rest;
    SplitPiece(token, rest, ' ');
    SplitPiece(scheme, " " + tail, ' ');
    assert scheme + " " + token + rest == scheme + (" " + tail);
    assert (" " + tail)[1..] == tail;
  }

  /** A header without a space has no token. */
  lemma NoSpaceNoToken(h: string)
    requires ' ' !in h
    ensures TokenOf(Some(h)) == None
  {
    SplitPiece(h, [], ' ');
    assert h + [] == h;
  }

  /** "Bearer  x" (two spaces) yields the empty token, which the gate answers with 401. */
  lemma DoubleSpaceExample()
    ensures TokenOf(Some("Bearer  x")) == Some("")
  {
    TokenIsSecondField("Bearer", "", " x");
    assert "Bearer" + " " + "" + " x" == "Bearer  x";
  }

  /** The three ways the gate ends. */
  datatype Decision = Unauthorized | Forbidden | Authenticated(user: Payload)

  /** The request and response objects the middleware reads and writes. */
  class Exchange {
    const authorization: Option<string>
    var user: Option<Payload>
    var response: Option<Reply>
    var nextCalls: nat

    constructor (authorization: Option<string>)
      ensures this.authorization == authorization
      ensures user == None && response == None && nextCalls == 0
    {
      this.authorization := authorization;
      user := None;
      response := None;
      nextCalls := 0;
    }
  }

  /** authenticateToken, with `verifyToken` as the verification function. */
  method AuthenticateToken(x: Exchange, verify: Verifier) returns (d: Decision)
    requires x.response == None
    modifies x
    ensures d == Unauthorized <==> TokenOf(x.authorization) in {None, Some("")}
    ensures d == Forbidden <==> (exists t :: TokenOf(x.authorization) == Some(t) && t != "" && verify(t).None?)
    ensures d.Authenticated? ==> TokenOf(x.authorization).Some? && verify(TokenOf(x.authorization).value) == Some(d.user)
    ensures d == Unauthorized ==> x.response == Some(Reply(401, "Unauthorized")) && x.nextCalls == old(x.nextCalls) && x.user == old(x.user)
    ensures d == Forbidden ==> x.response == Some(Reply(403, "Forbidden")) && x.nextCalls == old(x.nextCalls) && x.user == old(x.user)
    ensures d.Authenticated? ==> x.user == Some(d.user) && x.nextCalls == old(x.nextCalls) + 1 && x.response == None
  {
    var token := TokenOf(x.authorization);
    if token == None || token == Some("") {
      x.response := Some(Reply(401, "Unauthorized"));
      return Unauthorized;
    }
    var payload := verify(token.value);
    if payload.None? {
      x.response := Some(Reply(403, "Forbidden"));
      return Forbidden;
    }
    x.user := payload;
    x.nextCalls := x.nextCalls + 1;
    d := Authenticated(payload.value);
  }
}
