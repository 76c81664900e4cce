/**
 * The authentication middleware: it takes the token from the second
 * space-separated field of the `Authorization` header (the scheme word is
 * never looked at), answers 401 when there is no token, 403 when the token
 * does not verify, and otherwise attaches the decoded user id to the request
 * and calls `next` once. JWT verification is an oracle given as a parameter.
 */
module AuthMiddleware {
  import opened Wrappers

  /** A user id as a JWT payload carries it: the text of the database id. */
  type UserId = string

  const NoTokenMessage: string := "Access Denied! No token provided."
  const BadTokenMessage: string := "Invalid or expired token!"

  /** What the middleware does with a request: answer it with an error status,
      or set `req.user` and call `next` exactly once. */
  datatype Outcome = Deny(status: nat, message: string) | Next(user: UserId)

  /** JavaScript's `s.split(sep)` for a one-character separator: every
      occurrence of `sep` ends a field, so empty fields are kept. */
  function Split(s: string, sep: char): (fields: seq<string>)
    ensures |fields| >= 1
    ensures forall k :: 0 <= k < |fields| ==> sep !in fields[k]
  {
    if s == [] then [""]
    else
      var rest := Split(s[1..], sep);
      if s[0] == sep then [""] + rest
      else [[s[0]] + rest[0]] + rest[1..]
  }

  /** Puts fields back together with `sep` between them. */
  function Join(fields: seq<string>, sep: char): string
    requires |fields| >= 1
  {
    if |fields| == 1 then fields[0] else fields[0] + [sep] + Join(fields[1..], sep)
  }

  /** Splitting loses nothing: joining the fields gives back the header. */
  lemma {:induction false} JoinSplit(s: string, sep: char)
    ensures Join(Split(s, sep), sep) == s
  {
    if s != [] {
      var rest := Split(s[1..], sep);
      JoinSplit(s[1..], sep);
      if s[0] == sep {
        assert Split(s, sep) == [""] + rest;
        assert ([""] + rest)[1..] == rest;
      } else {
        var fields := Split(s, sep);
        assert fields == [[s[0]] + rest[0]] + rest[1..];
        if |rest| == 1 {
          assert s == [s[0]] + s[1..];
        } else {
          assert fields[1..] == rest[1..];
          assert Join(rest, sep) == rest[0] + [sep] + Join(rest[1..], sep);
          assert s == [s[0]] + s[1..];
        }
      }
    }
  }

  /** A separator-free prefix becomes the first field. */
  lemma {:induction false} SplitPrefix(a: string, sep: char, b: string)
    requires sep !in a
    ensures Split(a + [sep] + b, sep) == [a] + Split(b, sep)
  {
    if a == [] {
      assert a + [sep] + b == [sep] + b;
      assert ([sep] + b)[1..] == b;
    } else {
      SplitPrefix(a[1..], sep, b);
      assert (a + [sep] + b)[1..] == a[1..] + [sep] + b;
      assert [a[0]] + a[1..] == a;
    }
  }

  /** A string without the separator is a single field. */
  lemma {:induction false} SplitWhole(a: string, sep: char)
    requires sep !in a
    ensures Split(a, sep) == [a]
  {
    if a != [] {
      SplitWhole(a[1..], sep);
      assert [a[0]] + a[1..] == a;
    }
  }

  /** Splitting is the inverse of joining separator-free fields. */
  lemma {:induction false} SplitJoin(fields: seq<string>, sep: char)
    requires |fields| >= 1
    requires forall k :: 0 <= k < |fields| ==> sep !in fields[k]
    ensures Split(Join(fields, sep), sep) == fields
  {
    if |fields| == 1 {
      SplitWhole(fields[0], sep);
    } else {
      SplitJoin(fields[1..], sep);
      SplitPrefix(fields[0], sep, Join(fields[1..], sep));
      assert [fields[0]] + fields[1..] == fields;
    }
  }

  /** `req.header("Authorization")?.split(" ")[1]`, kept only when truthy:
      absent for a missing header, for a header with no space, and for an
      empty second field. */
  function HeaderToken(header: Option<string>): (token: Option<string>)
    ensures token.Some? ==> token.value != "" && ' ' !in token.value
  {
    if header.None? then None
    else
      var fields := Split(header.value, ' ');
      if |fields| >= 2 && fields[1] != "" then Some(fields[1]) else None
  }

  /** The middleware's decision for a request with the given header, where
      `verify` is JWT verification: the decoded user id, or failure. */
  function Authenticate(header: Option<string>, verify: string -> Option<UserId>): (o: Outcome)
    ensures o.Deny? ==> o == Deny(401, NoTokenMessage) || o == Deny(403, BadTokenMessage)
    ensures o.Next? ==> HeaderToken(header).Some? && verify(HeaderToken(header).value) == Some(o.user)
  {
    match HeaderToken(header)
    case None => Deny(401, NoTokenMessage)
    case Some(token) =>
      match verify(token)
      case None => Deny(403, BadTokenMessage)
      case Some(id) => Next(id)
  }

  /** No `Authorization` header: 401, and `next` is not called. */
  lemma MissingHeaderDenied(verify: string -> Option<UserId>)
    ensures Authenticate(None, verify) == Deny(401, NoTokenMessage)
  {
  }

  /** The token is the field after the first space, up to the next space or
      the end of the header, whatever word comes before it. */
  lemma TokenIsSecondField(scheme: string, token: string, tail: string)
    requires ' ' !in scheme && ' ' !in token && token != ""
    ensures HeaderToken(Some(scheme + " " + token)) == Some(token)
    ensures HeaderToken(Some(scheme + " " + token + " " + tail)) == Some(token)
  {
    SplitWhole(token, ' ');
    SplitPrefix(scheme, ' ', token);
    assert scheme + " " + token == scheme + [' '] + token;
    SplitPrefix(token, ' ', tail);
    SplitPrefix(scheme, ' ', token + " " + tail);
    assert scheme + " " + token + " " + tail == scheme + [' '] + (token + [' '] + tail);
  }

  /** Conversely, a token found in a header is its second field: the header
      is some space-free word, a space, the token, and then either nothing or
      a space and the rest. */
  lemma TokenComesAfterFirstSpace(header: string, token: string)
    requires HeaderToken(Some(header)) == Some(token)
    ensures (exists scheme :: ' ' !in scheme && header == scheme + " " + token) ||
            (exists scheme, tail :: ' ' !in scheme && header == scheme + " " + token + " " + tail)
  {
    var fields := Split(header, ' ');
    JoinSplit(header, ' ');
    var scheme := fields[0];
    assert ' ' !in scheme;
    if |fields| == 2 {
      assert Join(fields[1..], ' ') == token;
      assert header == scheme + " " + token;
      assert ' ' !in scheme && header == scheme + " " + token;
    } else {
      var tail := Join(fields[2..], ' ');
      assert fields[1..][1..] == fields[2..];
      assert Join(fields[1..], ' ') == token + " " + tail;
      assert header == scheme + " " + token + " " + tail;
      assert ' ' !in scheme && header == scheme + " " + token + " " + tail;
    }
  }

  /** The scheme word is never checked: any space-free word in front of the
      same remainder gives the same outcome. */
  lemma SchemeIgnored(scheme1: string, scheme2: string, rest: string, verify: string -> Option<UserId>)
    requires ' ' !in scheme1 && ' ' !in scheme2
    ensures Authenticate(Some(scheme1 + " " + rest), verify) == Authenticate(Some(scheme2 + " " + rest), verify)
  {
    SplitPrefix(scheme1, ' ', rest);
    SplitPrefix(scheme2, ' ', rest);
    assert scheme1 + " " + rest == scheme1 + [' '] + rest;
    assert scheme2 + " " + rest == scheme2 + [' '] + rest;
  }

  /** A header without a space (a bare `Bearer`, say) has no token: 401. */
  lemma NoSpaceDenied(header: string, verify: string -> Option<UserId>)
    requires ' ' !in header
    ensures Authenticate(Some(header), verify) == Deny(401, NoTokenMessage)
  {
    SplitWhole(header, ' ');
  }

  /** An empty second field gives 401: the first space is followed by the
      end of the header (`"Bearer "`) or by another space (`"Bearer  x"`). */
  lemma EmptySecondFieldDenied(scheme: string, rest: string, verify: string -> Option<UserId>)
    requires ' ' !in scheme
    requires rest == "" || rest[0] == ' '
    ensures Authenticate(Some(scheme + " " + rest), verify) == Deny(401, NoTokenMessage)
  {
    SplitPrefix(scheme, ' ', rest);
    assert scheme + " " + rest == scheme + [' '] + rest;
    assert Split(rest, ' ')[0] == "";
  }

  /** Whenever the header yields no token, the answer is 401, never 403. */
  lemma NoTokenDenied(header: Option<string>, verify: string -> Option<UserId>)
    requires HeaderToken(header).None?
    ensures Authenticate(header, verify) == Deny(401, NoTokenMessage)
  {
  }

  /** A token that fails verification: 403, and `next` is not called. */
  lemma UnverifiedTokenForbidden(header: string, verify: string -> Option<UserId>)
    requires HeaderToken(Some(header)).Some? && verify(HeaderToken(Some(header)).value).None?
    ensures Authenticate(Some(header), verify) == Deny(403, BadTokenMessage)
  {
  }

  /** A token that verifies: `req.user` is the decoded id and `next` is called once. */
  lemma VerifiedTokenPasses(header: string, verify: string -> Option<UserId>, id: UserId)
    requires HeaderToken(Some(header)).Some? && verify(HeaderToken(Some(header)).value) == Some(id)
    ensures Authenticate(Some(header), verify) == Next(id)
  {
  }
}
