/**
 * The Authorization header of the HTTP Basic scheme (section 2 of RFC 7617)
 * that the deploy request carries.
 */
module Credentials {
  import opened Wrappers
  import opened Text
  import Base64

  /** The user-pass string: user name, one colon, password, taken verbatim. */
  function UserPass(username: string, password: string): string {
    username + ":" + password
  }

  /**
   * The header value `Basic <base64 of the user-pass bytes>`. `charset` is the
   * platform's string-to-bytes conversion (`String.getBytes()`), which this
   * model does not fix. The text after `Basic ` decodes back to exactly the
   * bytes of the verbatim user-pass string.
   */
  function AuthorizationValue(username: string, password: string, charset: string -> seq<Base64.Byte>): (h: string)
    ensures StartsWith(h, "Basic ")
    ensures Base64.Decode(h[|"Basic "|..]) == Some(charset(username + ":" + password))
  {
    var bytes := charset(UserPass(username, password));
    Base64.DecodeEncode(bytes);
    var h := "Basic " + Base64.Encode(bytes);
    assert h[|"Basic "|..] == Base64.Encode(bytes);
    h
  }

  /**
   * The header is the only text that starts with `Basic ` and decodes to the
   * user-pass bytes: decoding accepts nothing but the canonical encoding.
   */
  lemma AuthorizationValueIsUnique(h: string, username: string, password: string, charset: string -> seq<Base64.Byte>)
    requires StartsWith(h, "Basic ")
    requires Base64.Decode(h[|"Basic "|..]) == Some(charset(username + ":" + password))
    ensures h == AuthorizationValue(username, password, charset)
  {
    var a := AuthorizationValue(username, password, charset);
    var n := |"Basic "|;
    Base64.DecodeDeterminesText(h[n..], a[n..]);
    assert h == h[..n] + h[n..] && a == a[..n] + a[n..];
  }

  /** How a receiver splits a user-pass string: at the first colon. */
  function SplitUserPass(userPass: string): Option<(string, string)> {
    match IndexOf(userPass, ':')
    case None => None
    case Some(i) => Some((userPass[..i], userPass[i + 1..]))
  }

  /**
   * A user name without a colon comes back intact from the user-pass string,
   * and so does the password, even when it holds colons itself.
   */
  lemma UserPassSplits(username: string, password: string)
    requires ':' !in username
    ensures SplitUserPass(UserPass(username, password)) == Some((username, password))
  {
    var s := UserPass(username, password);
    assert s == username + [':'] + password;
    IndexOfAfter(username, ':', password);
    assert s[..|username|] == username;
    assert s[|username| + 1..] == password;
  }
}
