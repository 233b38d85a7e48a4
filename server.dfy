/**
 * The pure decisions of the server bootstrap: the CORS allowlist, the CORS
 * origin check, and the MongoDB connection string's password substitution.
 * Environment variables are parameters; `None` is an unset variable.
 */
module Server {
  import opened Wrappers

  const LocalFrontend := "http://localhost:3000"
  const LocalBackend := "http://localhost:5000"
  const CorsMessage := "The CORS policy for this site does not allow access from the specified Origin."
  const Placeholder := "<PASSWORD>"

  /** `filter(Boolean)` over strings: drops unset entries and empty strings, keeping order. */
  function KeepTruthy(xs: seq<Option<string>>): (r: seq<string>)
    ensures forall s :: s in r <==> s != "" && Some(s) in xs
    ensures |r| <= |xs|
    ensures r == [] <==> forall i :: 0 <= i < |xs| ==> xs[i].None? || xs[i].value == ""
  {
    if xs == [] then []
    else (if xs[0].Some? && xs[0].value != "" then [xs[0].value] else []) + KeepTruthy(xs[1..])
  }

  /** The allowed origins: both local origins, then `FRONTEND_URL` when it is set and non-empty. */
  function AllowedOrigins(frontendUrl: Option<string>): (r: seq<string>)
    ensures LocalFrontend in r && LocalBackend in r
    ensures "" !in r
    ensures forall o :: o in r <==> o == LocalFrontend || o == LocalBackend || (frontendUrl == Some(o) && o != "")
    // in order: the two local origins, then the frontend
    ensures r == [LocalFrontend, LocalBackend] + (if frontendUrl.Some? && frontendUrl.value != "" then [frontendUrl.value] else [])
  {
    var xs := [Some(LocalFrontend), Some(LocalBackend), frontendUrl];
    var tail := if frontendUrl.Some? && frontendUrl.value != "" then [frontendUrl.value] else [];
    assert [frontendUrl][1..] == [];
    assert KeepTruthy([frontendUrl]) == tail + KeepTruthy([]);
    assert xs[1..][1..] == [frontendUrl];
    assert KeepTruthy(xs[1..]) == [LocalBackend] + tail;
    assert KeepTruthy(xs) == [LocalFrontend] + ([LocalBackend] + tail);
    KeepTruthy(xs)
  }

  /** `xs.indexOf(x)`: the first position holding `x`, or -1. */
  function IndexOf(xs: seq<string>, x: string): (r: int)
    ensures -1 <= r < |xs|
    ensures r == -1 <==> x !in xs
    ensures r >= 0 ==> xs[r] == x && forall j :: 0 <= j < r ==> xs[j] != x
  {
    if xs == [] then -1
    else if xs[0] == x then 0
    else
      var k := IndexOf(xs[1..], x);
      if k == -1 then -1 else k + 1
  }

  /** What the origin callback answers: `callback(null, true)` or `callback(new Error(msg), false)`. */
  datatype CorsDecision = Allow | Deny(message: string)

  /**
   * The CORS origin callback. A request without an origin (or with an empty
   * one) is allowed; otherwise the origin must be in the allowlist.
   */
  function CorsOrigin(allowed: seq<string>, origin: Option<string>): (d: CorsDecision)
    ensures origin.None? ==> d == Allow
    ensures d.Allow? <==> origin.None? || origin.value == "" || origin.value in allowed
    ensures d.Deny? ==> d.message == CorsMessage
  {
    if origin.None? || origin.value == "" then Allow
    else if IndexOf(allowed, origin.value) == -1 then Deny(CorsMessage)
    else Allow
  }

  /** `pat` occurs in `s` at position `i`. */
  predicate OccursAt(s: string, pat: string, i: nat)
  {
    i + |pat| <= |s| && s[i..i + |pat|] == pat
  }

  /** `s.indexOf(pat, from)`: the first occurrence at or after `from`, or -1. */
  function FindFrom(s: string, pat: string, from: nat): (r: int)
    requires from <= |s|
    decreases |s| - from
    ensures r == -1 || (from <= r && OccursAt(s, pat, r))
    ensures r == -1 ==> forall j :: from <= j <= |s| ==> !OccursAt(s, pat, j)
    ensures r >= 0 ==> forall j :: from <= j < r ==> !OccursAt(s, pat, j)
  {
    if from + |pat| > |s| then -1
    else if s[from..from + |pat|] == pat then from
    else
      assert |pat| > 0;
      FindFrom(s, pat, from + 1)
  }

  /**
   * ECMAScript GetSubstitution for a string pattern (no capture groups): in
   * the replacement, `$$` is `$`, `$&` the matched text, `` $` `` the text
   * before the match and `$'` the text after it; any other `$` is literal.
   */
  function Expand(repl: string, matched: string, before: string, after: string): string
  {
    if repl == [] then ""
    else if repl[0] == '$' && |repl| >= 2 && repl[1] == '$' then "$" + Expand(repl[2..], matched, before, after)
    else if repl[0] == '$' && |repl| >= 2 && repl[1] == '&' then matched + Expand(repl[2..], matched, before, after)
    else if repl[0] == '$' && |repl| >= 2 && repl[1] == '`' then before + Expand(repl[2..], matched, before, after)
    else if repl[0] == '$' && |repl| >= 2 && repl[1] == '\'' then after + Expand(repl[2..], matched, before, after)
    else [repl[0]] + Expand(repl[1..], matched, before, after)
  }

  /** A replacement text without `$` is inserted literally. */
  lemma {:induction false} ExpandLiteral(repl: string, matched: string, before: string, after: string)
    requires '$' !in repl
    ensures Expand(repl, matched, before, after) == repl
  {
    if repl != [] {
      assert repl == [repl[0]] + repl[1..];
      ExpandLiteral(repl[1..], matched, before, after);
    }
  }

  /** `s.replace(pat, repl)` with a string pattern: only the first occurrence is replaced. */
  function Replace(s: string, pat: string, repl: string): (r: string)
    ensures FindFrom(s, pat, 0) == -1 ==> r == s
    // the first occurrence becomes the expanded replacement; the text around it is kept
    ensures forall p: nat :: OccursAt(s, pat, p) && (forall j :: 0 <= j < p ==> !OccursAt(s, pat, j)) ==>
      r == s[..p] + Expand(repl, pat, s[..p], s[p + |pat|..]) + s[p + |pat|..]
  {
    var p := FindFrom(s, pat, 0);
    if p == -1 then s
    else s[..p] + Expand(repl, pat, s[..p], s[p + |pat|..]) + s[p + |pat|..]
  }

  /**
   * The connection string: `MONGO_URI.replace("<PASSWORD>", DATABASE_PASSWORD)`.
   * An unset `MONGO_URI` throws a TypeError; an unset password is inserted
   * as the text "undefined".
   */
  function DatabaseUri(mongoUri: Option<string>, password: Option<string>): (r: Result<string, string>)
    ensures r.Failure? <==> mongoUri.None?
  {
    if mongoUri.None? then Failure("Cannot read properties of undefined (reading 'replace')")
    else Success(Replace(mongoUri.value, Placeholder, if password.Some? then password.value else "undefined"))
  }

  /** A connection string without the placeholder is used as it is. */
  lemma DatabaseUriWithoutPlaceholder(uri: string, password: Option<string>)
    requires forall j :: 0 <= j <= |uri| ==> !OccursAt(uri, Placeholder, j)
    ensures DatabaseUri(Some(uri), password) == Success(uri)
  {
    assert FindFrom(uri, Placeholder, 0) == -1;
  }

  /**
   * With a password free of `$`, the connection string is the configured one
   * with its first placeholder, at `p`, swapped for the password: the text
   * before it and everything after it are unchanged.
   */
  lemma DatabaseUriSubstitutes(uri: string, password: string, p: nat)
    requires '$' !in password
    requires OccursAt(uri, Placeholder, p)
    requires forall j :: 0 <= j < p ==> !OccursAt(uri, Placeholder, j)
    ensures DatabaseUri(Some(uri), Some(password)) == Success(uri[..p] + password + uri[p + |Placeholder|..])
  {
    assert FindFrom(uri, Placeholder, 0) == p;
    var before, after := uri[..p], uri[p + |Placeholder|..];
    assert Replace(uri, Placeholder, password) == before + Expand(password, Placeholder, before, after) + after;
    ExpandLiteral(password, Placeholder, before, after);
  }

  /** A `$`-free prefix of the replacement is copied literally before the rest is expanded. */
  lemma {:induction false} ExpandLiteralPrefix(x: string, rest: string, matched: string, before: string, after: string)
    requires '$' !in x
    ensures Expand(x + rest, matched, before, after) == x + Expand(rest, matched, before, after)
  {
    if x != [] {
      assert (x + rest)[0] == x[0];
      assert (x + rest)[1..] == x[1..] + rest;
      ExpandLiteralPrefix(x[1..], rest, matched, before, after);
      assert x == [x[0]] + x[1..];
    } else {
      assert x + rest == rest;
    }
  }

  /** In `x + "$&" + y` with no other `$`, the `$&` becomes the matched text. */
  lemma ExpandDollarAmpersand(x: string, y: string, matched: string, before: string, after: string)
    requires '$' !in x && '$' !in y
    ensures Expand(x + "$&" + y, matched, before, after) == x + matched + y
  {
    var tail := "$&" + y;
    assert x + "$&" + y == x + tail;
    ExpandLiteralPrefix(x, tail, matched, before, after);
    assert tail[0] == '$' && tail[1] == '&' && tail[2..] == y;
    assert Expand(tail, matched, before, after) == matched + Expand(y, matched, before, after);
    ExpandLiteral(y, matched, before, after);
    assert x + (matched + y) == x + matched + y;
  }

  /**
   * A password `x + "$&" + y` whose only `$` is that one gets the placeholder
   * text itself spliced back in between `x` and `y`.
   */
  lemma DollarAmpersandInPassword(before: string, after: string, x: string, y: string)
    requires forall j :: 0 <= j < |before| ==> !OccursAt(before + Placeholder + after, Placeholder, j)
    requires '$' !in x && '$' !in y
    ensures DatabaseUri(Some(before + Placeholder + after), Some(x + "$&" + y))
         == Success(before + x + Placeholder + y + after)
  {
    var uri := before + Placeholder + after;
    var p := |before|;
    assert uri[..p] == before;
    assert uri[p + |Placeholder|..] == after;
    assert OccursAt(uri, Placeholder, p);
    assert FindFrom(uri, Placeholder, 0) == p;
    var repl := x + "$&" + y;
    var expanded := Expand(repl, Placeholder, uri[..p], uri[p + |Placeholder|..]);
    assert Replace(uri, Placeholder, repl) == uri[..p] + expanded + uri[p + |Placeholder|..];
    ExpandDollarAmpersand(x, y, Placeholder, before, after);
    assert expanded == x + Placeholder + y;
    assert before + (x + Placeholder + y) + after == before + x + Placeholder + y + after;
    assert DatabaseUri(Some(uri), Some(repl)) == Success(Replace(uri, Placeholder, repl));
  }
}
