/**
 * The CSRF guard of app.py: lazily issued per-session tokens (`csrf_token`) and the
 * check of a submitted POST against the stored token (`submitted_request_valid`).
 *
 * This is the persistent-token variant: a token, once stored, is returned unchanged
 * by every later call and is never removed by validation.
 */
module Csrf {
  import opened Wrappers
  import opened Forms

  /** The session key and the form field under which the token travels. */
  const TokenKey: string := "csrf_token"
  const TokenLength: nat := 64
  /** The `count` consecutive characters starting at `first`. */
  function CharRange(first: char, count: nat): (r: string)
    requires first as int + count <= 0xD800
    ensures |r| == count && forall i :: 0 <= i < count ==> r[i] as int == first as int + i
  {
    seq(count, i requires 0 <= i < count => (first as int + i) as char)
  }

  /** `string.ascii_letters + string.digits`: a-z, then A-Z, then 0-9. */
  const TokenCharacters: string := CharRange('a', 26) + CharRange('A', 26) + CharRange('0', 10)

  predicate IsAsciiAlphanumeric(c: char)
  {
    'a' <= c <= 'z' || 'A' <= c <= 'Z' || '0' <= c <= '9'
  }

  /** A string as `csrf_token` generates it. */
  predicate IsGeneratedToken(t: string)
  {
    |t| == TokenLength && forall i :: 0 <= i < |t| ==> t[i] in TokenCharacters
  }

  /** The alphabet holds exactly the 62 ASCII letters and digits. */
  lemma TokenCharactersAlphanumeric()
    ensures |TokenCharacters| == 62
    ensures forall c :: c in TokenCharacters <==> IsAsciiAlphanumeric(c)
  {
    forall c | IsAsciiAlphanumeric(c) ensures c in TokenCharacters {
      if 'a' <= c <= 'z' {
        assert TokenCharacters[c as int - 'a' as int] == c by { assert CharRange('a', 26)[c as int - 'a' as int] == c; }
      } else if 'A' <= c <= 'Z' {
        assert TokenCharacters[26 + c as int - 'A' as int] == c by { assert CharRange('A', 26)[c as int - 'A' as int] == c; }
      } else {
        assert TokenCharacters[52 + c as int - '0' as int] == c by { assert CharRange('0', 10)[c as int - '0' as int] == c; }
      }
    }
  }

  /** A generated token is a non-empty string of 64 ASCII letters and digits. */
  lemma GeneratedTokenShape(t: string)
    requires IsGeneratedToken(t)
    ensures t != "" && forall i :: 0 <= i < |t| ==> IsAsciiAlphanumeric(t[i])
  {
  }

  /**
   * `''.join(random.choice(characters) for _ in range(64))`; each `random.choice` is a
   * nondeterministic pick from the alphabet.
   */
  method RandomToken() returns (t: string)
    ensures IsGeneratedToken(t)
  {
    t := "";
    for k := 0 to TokenLength
      invariant |t| == k
      invariant forall i :: 0 <= i < |t| ==> t[i] in TokenCharacters
    {
      assert TokenCharacters[0] in TokenCharacters;
      var c :| c in TokenCharacters;
      t := t + [c];
    }
  }

  /**
   * `submitted_request_valid()`: the request passes only when a non-empty token is
   * stored in the session and the form's first `csrf_token` value is that same token.
   * Being a function of the session's contents, it cannot change the session.
   */
  function SubmittedRequestValid(session: map<string, string>, form: Form): (valid: bool)
    ensures valid <==>
      TokenKey in session && session[TokenKey] != "" &&
      FormGet(form, TokenKey) == Some(session[TokenKey])
  {
    var realToken := if TokenKey in session then Some(session[TokenKey]) else None;
    var submittedToken := FormGet(form, TokenKey);
    if realToken.None? || realToken.value == "" then false        // we never expected a POST
    else if submittedToken.None? || submittedToken.value == "" then false  // token lost or not supplied
    else if submittedToken.value != realToken.value then false    // outdated or forged token
    else true
  }

  /** Submitting a token that `csrf_token` generated, unchanged, passes the check. */
  lemma GeneratedTokenValidates(session: map<string, string>, form: Form)
    requires TokenKey in session && IsGeneratedToken(session[TokenKey])
    requires FormGet(form, TokenKey) == Some(session[TokenKey])
    ensures SubmittedRequestValid(session, form)
  {
  }

  /** The per-browser session store, `flask.session`, holding string values. */
  class Session {
    var data: map<string, string>

    constructor (initial: map<string, string>)
      ensures data == initial
    {
      data := initial;
    }

    /**
     * `csrf_token()`: returns the stored token, first storing a freshly generated one
     * when the session holds none.
     */
    method CsrfToken() returns (token: string)
      modifies this
      ensures TokenKey in data && data[TokenKey] == token
      ensures TokenKey in old(data) ==> token == old(data)[TokenKey] && data == old(data)
      ensures TokenKey !in old(data) ==>
        IsGeneratedToken(token) && data == old(data)[TokenKey := token]
    {
      if TokenKey !in data {
        var randomString := RandomToken();
        data := data[TokenKey := randomString];
      }
      token := data[TokenKey];
    }

    /**
     * Reading the token twice gives the same value, and the second read leaves the
     * session as the first left it.
     */
    method CsrfTokenIdempotent() returns (first: string, second: string)
      modifies this
      ensures first == second
      ensures TokenKey in data && data[TokenKey] == first
      ensures TokenKey in old(data) ==> data == old(data)
      ensures TokenKey !in old(data) ==> IsGeneratedToken(first) && data == old(data)[TokenKey := first]
    {
      first := CsrfToken();
      ghost var afterFirst := data;
      second := CsrfToken();
      assert data == afterFirst;
    }

    /**
     * A session that has issued a token to a form accepts that form's submission,
     * and the check leaves the session unchanged (persistent-token variant).
     */
    method IssueThenValidate(form: Form) returns (token: string, valid: bool)
      modifies this
      ensures TokenKey in data && data[TokenKey] == token
      ensures TokenKey in old(data) ==> data == old(data)
      ensures FormGet(form, TokenKey) == Some(token) && token != "" ==> valid
      ensures TokenKey !in old(data) ==> (valid <==> FormGet(form, TokenKey) == Some(token))
    {
      token := CsrfToken();
      if TokenKey !in old(data) {
        GeneratedTokenShape(token);
      }
      valid := SubmittedRequestValid(data, form);
    }
  }
}
