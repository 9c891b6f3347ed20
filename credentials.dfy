/** The torrent client's login credentials and their `Display` text. */
module Credentials {

  import opened Errors

  datatype QBCreds = QBCreds(username: string, password: string)

  const UserField := "username="
  const PasswordField := "&password="

  /** `Display for QBCreds`. */
  function CredsText(c: QBCreds): (t: string)
    ensures |t| == |UserField| + |c.username| + |PasswordField| + |c.password|
  {
    UserField + c.username + PasswordField + c.password
  }

  /** The index of the first `x` in `s`, or `|s|` when there is none. */
  function IndexOf(s: string, x: char): (i: nat)
    ensures i <= |s|
    ensures i < |s| ==> s[i] == x
    ensures forall j :: 0 <= j < i ==> s[j] != x
  {
    if s == [] then 0
    else if s[0] == x then 0
    else 1 + IndexOf(s[1..], x)
  }

  /** Reads credentials back from a displayed text: the user name runs up to
      the first `&`, which must open the password field. */
  function ParseCreds(t: string): (r: Option<QBCreds>)
    ensures r.Some? ==> CredsText(r.value) == t
  {
    if |t| < |UserField| || t[..|UserField|] != UserField then None
    else
      var rest := t[|UserField|..];
      var i := IndexOf(rest, '&');
      if |rest| - i < |PasswordField| || rest[i..i + |PasswordField|] != PasswordField then None
      else
        var c := QBCreds(rest[..i], rest[i + |PasswordField|..]);
        SplitThree(rest, i, i + |PasswordField|);
        SplitThree(t, |UserField|, |UserField|);
        Some(c)
  }

  lemma SplitThree(s: string, i: nat, j: nat)
    requires i <= j <= |s|
    ensures s == s[..i] + s[i..j] + s[j..]
  {
  }

  /** The displayed text determines the credentials whenever the user name
      holds no `&`. */
  lemma {:induction false} CredsTextRoundTrip(c: QBCreds)
    requires '&' !in c.username
    ensures ParseCreds(CredsText(c)) == Some(c)
  {
    var t := CredsText(c);
    var rest := c.username + PasswordField + c.password;
    assert t == UserField + rest;
    assert t[..|UserField|] == UserField;
    assert t[|UserField|..] == rest;
    IndexOfPrefix(c.username, PasswordField + c.password, '&');
    assert rest[..|c.username|] == c.username;
    assert rest[|c.username|..] == PasswordField + c.password;
  }

  lemma {:induction false} IndexOfPrefix(a: string, b: string, x: char)
    requires x !in a && b != [] && b[0] == x
    ensures IndexOf(a + b, x) == |a|
  {
    if a != [] {
      assert (a + b)[1..] == a[1..] + b;
      IndexOfPrefix(a[1..], b, x);
    }
  }

  /** With an `&` in the user name the text is ambiguous: two different
      credentials display the same. */
  lemma CredsTextAmbiguous()
    ensures CredsText(QBCreds("a", "b&password=c")) == CredsText(QBCreds("a&password=b", "c"))
  {
  }
}
