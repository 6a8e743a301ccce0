/**
 * The configuration the exporter reads at start-up: its own basic-auth
 * credentials, the Rossum credentials with the account's API base url
 * derived from the username, and the relay's bin endpoint. The environment
 * values are parameters; a variable that is not set is `None`.
 */
module Credentials {
  import opened Wrappers
  import opened Errors

  datatype AppCredentials = AppCredentials(username: string, password: string)

  datatype RossumCredentials = RossumCredentials(username: string, password: string, url: string)

  /** The characters deleted from the username to form the account's host name. */
  const SpecialCharacters: string := "!#$%&'*+/=?^`{|}~()<>[]:;.@,\"\\"

  const AppMessage: string := "Environment variables 'USERNAME' and 'PASSWORD' must be set."
  const RossumMessage: string := "Environment variables 'ROSSUM_USERNAME' and 'ROSSUM_PASSWORD' must be set."

  /** The relay service's endpoint that creates a bin. */
  const PostbinUrl: string := "https://www.postb.in/api/bin"

  /** Python's truth value of an environment lookup: set and non-empty. */
  predicate IsSet(v: Option<string>) {
    v.Some? && v.value != ""
  }

  /** `s.translate(str.maketrans("", "", SpecialCharacters))`: `s` with every special character deleted. */
  function StripSpecial(s: string): string {
    if s == [] then []
    else (if s[0] in SpecialCharacters then [] else [s[0]]) + StripSpecial(s[1..])
  }

  /** The Rossum API base url of an account. */
  function RossumUrl(username: string): string {
    "https://" + StripSpecial(username) + ".rossum.app/api/v1/"
  }

  /** `load_app_credentials`: both values must be set, and are returned as they are. */
  function LoadAppCredentials(username: Option<string>, password: Option<string>): (r: Result<AppCredentials, Failure>)
    ensures r.Ok? <==> IsSet(username) && IsSet(password)
    ensures r.Ok? ==> r.value == AppCredentials(username.value, password.value)
    ensures r.Err? ==> r.error == ValueError(AppMessage)
  {
    if !IsSet(username) || !IsSet(password) then Err(ValueError(AppMessage))
    else Ok(AppCredentials(username.value, password.value))
  }

  /** `load_rossum_credentials`: both values must be set; the url is derived from the username. */
  function LoadRossumCredentials(username: Option<string>, password: Option<string>): (r: Result<RossumCredentials, Failure>)
    ensures r.Ok? <==> IsSet(username) && IsSet(password)
    ensures r.Ok? ==> r.value.username == username.value && r.value.password == password.value
    ensures r.Err? ==> r.error == ValueError(RossumMessage)
  {
    if !IsSet(username) || !IsSet(password) then Err(ValueError(RossumMessage))
    else Ok(RossumCredentials(username.value, password.value, RossumUrl(username.value)))
  }

  /** `t` can be obtained from `s` by deleting characters. */
  ghost predicate IsSubsequence(t: string, s: string)
    decreases |s|
  {
    if t == [] then true
    else if s == [] then false
    else (t[0] == s[0] && IsSubsequence(t[1..], s[1..])) || IsSubsequence(t, s[1..])
  }

  /** No special character survives the stripping. */
  lemma {:induction false} StripSpecialRemovesAll(s: string)
    ensures forall i | 0 <= i < |StripSpecial(s)| :: StripSpecial(s)[i] !in SpecialCharacters
    ensures |StripSpecial(s)| <= |s|
    decreases |s|
  {
    if s != [] {
      StripSpecialRemovesAll(s[1..]);
    }
  }

  /** The stripped name keeps the other characters in their order. */
  lemma {:induction false} StripSpecialIsSubsequence(s: string)
    ensures IsSubsequence(StripSpecial(s), s)
    decreases |s|
  {
    if s != [] {
      StripSpecialIsSubsequence(s[1..]);
      var t := StripSpecial(s);
      if s[0] !in SpecialCharacters {
        assert t == [s[0]] + StripSpecial(s[1..]);
        assert t[0] == s[0] && t[1..] == StripSpecial(s[1..]);
      } else {
        assert t == StripSpecial(s[1..]);
      }
    }
  }

  /** Every character that is not special occurs as often in the stripped name as in the username. */
  lemma {:induction false} StripSpecialKeepsOthers(s: string, c: char)
    ensures multiset(StripSpecial(s))[c] == if c in SpecialCharacters then 0 else multiset(s)[c]
    decreases |s|
  {
    if s != [] {
      StripSpecialKeepsOthers(s[1..], c);
      assert s == [s[0]] + s[1..];
    }
  }

  /** Stripping twice is stripping once. */
  lemma {:induction false} StripSpecialIdempotent(s: string)
    ensures StripSpecial(StripSpecial(s)) == StripSpecial(s)
    decreases |s|
  {
    if s != [] {
      StripSpecialIdempotent(s[1..]);
      if s[0] in SpecialCharacters {
        assert StripSpecial(s) == StripSpecial(s[1..]);
      } else {
        var t := StripSpecial(s);
        assert t == [s[0]] + StripSpecial(s[1..]);
        assert t[1..] == StripSpecial(s[1..]);
        assert StripSpecial(t) == [s[0]] + StripSpecial(t[1..]);
        assert StripSpecial(t[1..]) == t[1..];
      }
    }
  }

  /**
   * The url of a loaded account is `https://`, the stripped username, and
   * `.rossum.app/api/v1/`; it ends in `/`, and the host label between the
   * scheme and the domain holds none of `/ : @ .`, so it stays one label.
   */
  lemma RossumUrlShape(username: Option<string>, password: Option<string>)
    requires IsSet(username) && IsSet(password)
    ensures var url := LoadRossumCredentials(username, password).value.url;
            var host := StripSpecial(username.value);
            |url| == 8 + |host| + 19
            && url[..8] == "https://" && url[8..8 + |host|] == host && url[8 + |host|..] == ".rossum.app/api/v1/"
            && url[|url| - 1] == '/'
            && forall i | 0 <= i < |host| :: host[i] != '/' && host[i] != ':' && host[i] != '@' && host[i] != '.'
  {
    StripSpecialRemovesAll(username.value);
    var host := StripSpecial(username.value);
    var url := LoadRossumCredentials(username, password).value.url;
    assert url == "https://" + host + ".rossum.app/api/v1/";
    assert '/' in SpecialCharacters && ':' in SpecialCharacters && '@' in SpecialCharacters && '.' in SpecialCharacters;
  }
}
