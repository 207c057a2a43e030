/** The sign-in form's submit handler: exchange the credentials for a token,
    store it and decide where to go. The HTTP exchange is an input: whether
    the response was `ok`, and its body text. */
module Login {
  import opened Wrappers
  import opened Strings
  import opened Token

  /** What the handler leaves behind: navigation to the index page, or an
      error message shown in the form. */
  datatype Outcome = RedirectToIndex | ShowError(message: string)

  const BadCredentials: string := "Invalid username or password"
  const BadToken: string := "Invalid token received"

  /** The text `user:pass` that is base64-encoded into the Basic credential. */
  function Credentials(user: string, pass: string): (c: string)
    ensures |c| == |user| + 1 + |pass|
    ensures c[..|user|] == user && c[|user|] == ':' && c[|user| + 1..] == pass
  {
    user + ":" + pass
  }

  /** A user name without a colon can be read back from the credential text,
      as section 2 of RFC 7617 requires; the password is the rest. */
  lemma CredentialsRoundTrip(user: string, pass: string)
    requires ':' !in user
    ensures Split(Credentials(user, pass), ':')[0] == user
    ensures Credentials(user, pass)[|user| + 1..] == pass
  {
    SplitAfterPrefix(user, ':', pass);
  }

  /** The body both starts and ends with a double quote (a lone `"` does). */
  predicate IsQuoted(t: string)
  {
    |t| >= 1 && t[0] == '"' && t[|t| - 1] == '"'
  }

  /** `token.slice(1, -1)` when the token is quoted: one character comes off
      each end, so a lone `"` becomes empty; an unquoted token is kept. */
  function StripQuotes(t: string): (r: string)
    ensures !IsQuoted(t) ==> r == t
    ensures IsQuoted(t) ==> |r| == if |t| >= 2 then |t| - 2 else 0
    ensures IsQuoted(t) && |t| >= 2 ==> "\"" + r + "\"" == t
  {
    if IsQuoted(t) then (if |t| >= 2 then t[1..|t| - 1] else "") else t
  }

  /** Stripping undoes quoting, exactly once. */
  lemma StripQuotesOfQuoted(x: string)
    ensures StripQuotes("\"" + x + "\"") == x
  {
    var q := "\"" + x + "\"";
    assert q[1..|q| - 1] == x;
  }

  /** Stripping removes one pair, not all: `""x""` becomes `"x"`, and a lone
      quote becomes empty. */
  lemma StripQuotesExamples()
    ensures StripQuotes("\"\"x\"\"") == "\"x\""
    ensures StripQuotes("\"x\"") == "x"
    ensures StripQuotes("\"") == ""
    ensures StripQuotes("x\"") == "x\""
  {
    StripQuotesOfQuoted("\"x\"");
    StripQuotesOfQuoted("x");
  }

  /** The token the handler derives from a successful response body:
      trimmed, then unquoted. */
  function ReceivedToken(body: string): (tok: string)
    ensures |tok| <= |body|
    ensures tok == Trim(body) || "\"" + tok + "\"" == Trim(body) || (tok == "" && Trim(body) == "\"")
    ensures tok == Trim(body) <==> !IsQuoted(Trim(body))
  {
    StripQuotes(Trim(body))
  }

  /** The submit handler, from the response and the stored value to the new
      stored value and the outcome. */
  function SignIn(ok: bool, body: string, stored: Option<string>): (r: (Option<string>, Outcome))
    ensures !ok ==> r.0 == stored && r.1 == ShowError(BadCredentials)
    ensures ok ==> r.0 == Some(ReceivedToken(body))
    ensures ok ==> (r.1 == RedirectToIndex <==> IsValidToken(Some(ReceivedToken(body))))
    ensures ok && !IsValidToken(Some(ReceivedToken(body))) ==> r.1 == ShowError(BadToken)
    ensures r.1 == RedirectToIndex || r.1 == ShowError(BadCredentials) || r.1 == ShowError(BadToken)
  {
    if !ok then (stored, ShowError(BadCredentials))
    else
      var token := ReceivedToken(body);
      (Some(token), if IsValidToken(Some(token)) then RedirectToIndex else ShowError(BadToken))
  }

  /** The token is written before it is validated: a quoted body without
      dots, padded with white space, leaves that text stored even though the
      form reports "Invalid token received". */
  lemma MalformedTokenIsStored(stored: Option<string>, pre: string, x: string, post: string)
    requires forall k :: 0 <= k < |pre| ==> IsWhiteSpace(pre[k])
    requires forall k :: 0 <= k < |post| ==> IsWhiteSpace(post[k])
    requires '.' !in x
    ensures SignIn(true, pre + "\"" + x + "\"" + post, stored) == (Some(x), ShowError(BadToken))
  {
    var body := pre + "\"" + x + "\"" + post;
    var quoted := "\"" + x + "\"";
    assert ReceivedToken(body) == x by {
      assert body == pre + quoted + post;
      TrimPadded(pre, quoted, post);
      StripQuotesOfQuoted(x);
    }
    assert !IsValidToken(Some(x)) by {
      SplitNoSep(x, '.');
    }
  }

  /** A well-formed token, quoted and padded with white space, signs the user
      in, and it is stored without the quotes. */
  lemma QuotedTokenAccepted(stored: Option<string>, pre: string, a: string, b: string, c: string, post: string)
    requires forall k :: 0 <= k < |pre| ==> IsWhiteSpace(pre[k])
    requires forall k :: 0 <= k < |post| ==> IsWhiteSpace(post[k])
    requires a != [] && b != [] && c != []
    requires '.' !in a && '.' !in b && '.' !in c
    ensures SignIn(true, pre + "\"" + (a + "." + b + "." + c) + "\"" + post, stored)
      == (Some(a + "." + b + "." + c), RedirectToIndex)
  {
    var token := a + "." + b + "." + c;
    var body := pre + "\"" + token + "\"" + post;
    var quoted := "\"" + token + "\"";
    assert ReceivedToken(body) == token by {
      assert body == pre + quoted + post;
      TrimPadded(pre, quoted, post);
      StripQuotesOfQuoted(token);
    }
    assert IsValidToken(Some(token)) by {
      ThreeSegmentsValid(a, b, c);
    }
  }

  /** The handler as written, step by step: reject a failed response, trim,
      strip the quotes, store, then validate (storing a second time on
      success). */
  method Submit(store: TokenStore, ok: bool, body: string) returns (outcome: Outcome)
    modifies store
    ensures (store.jwt, outcome) == SignIn(ok, body, old(store.jwt))
  {
    if !ok {
      return ShowError(BadCredentials);
    }
    var token := StripQuotes(Trim(body));
    store.jwt := Some(token);
    if IsValidToken(Some(token)) {
      store.jwt := Some(token);
      outcome := RedirectToIndex;
    } else {
      outcome := ShowError(BadToken);
    }
  }

  /** The login page's load check: a visitor whose stored token is valid is
      sent on to the index page; nothing is changed either way. */
  method AlreadySignedIn(store: TokenStore) returns (redirect: bool)
    ensures redirect <==> store.jwt.Some? && IsValidToken(store.jwt)
  {
    redirect := IsValidToken(store.jwt);
  }
}
