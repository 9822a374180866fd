/** Stand-ins for the two libraries the core calls: `bcrypt` (hash and
    compare) and `jsonwebtoken` (sign and verify). Each stand-in keeps the one
    property the core relies on and nothing more. */
module Crypto {
  import opened Common

  // ---------------------------------------------------------------------
  // bcrypt

  const HashPrefix := "$2a$10$"

  /** `bcrypt.hashSync(p, 10)`: an injective encoding that never returns its
      input (salt and one-wayness are not modelled). */
  function Hash(p: string): (h: string)
    ensures h != p
  {
    assert |HashPrefix + p| > |p|;
    HashPrefix + p
  }

  /** `bcrypt.compareSync(p, h)`: `h` is the hash of `p`. */
  predicate Compare(p: string, h: string) {
    h == Hash(p)
  }

  /** Comparing a password against a stored hash succeeds exactly for the
      password that was hashed. */
  lemma CompareHash(p: string, q: string)
    ensures Compare(p, Hash(q)) <==> p == q
  {
    if Hash(q) == Hash(p) {
      assert Hash(q)[|HashPrefix|..] == q;
      assert Hash(p)[|HashPrefix|..] == p;
    }
  }

  /** Only a value in the hash format can match: a password stored as plain
      text without the format's prefix matches no password. */
  lemma CompareNeedsPrefix(p: string, h: string)
    requires !(|h| >= |HashPrefix| && h[..|HashPrefix|] == HashPrefix)
    ensures !Compare(p, h)
  {
    assert (HashPrefix + p)[..|HashPrefix|] == HashPrefix;
  }

  // ---------------------------------------------------------------------
  // jsonwebtoken

  /** The decoded payload of a token. */
  datatype Claims = Claims(id: string)

  /** Escapes the payload so that a token never contains a space (a real token
      is base64url text): `' '` becomes `"%s"` and `'%'` becomes `"%%"`. */
  function Escape(s: string): (t: string)
    ensures ' ' !in t
    decreases |s|
  {
    if s == [] then []
    else (if s[0] == ' ' then "%s" else if s[0] == '%' then "%%" else [s[0]]) + Escape(s[1..])
  }

  /** Inverse of `Escape`; None on text that `Escape` cannot produce. */
  function Unescape(t: string): Option<string>
    decreases |t|
  {
    if t == [] then Some([])
    else if t[0] == '%' then
      if |t| >= 2 && (t[1] == 's' || t[1] == '%') then
        match Unescape(t[2..])
        case None => None
        case Some(rest) => Some([if t[1] == 's' then ' ' else '%'] + rest)
      else None
    else if t[0] == ' ' then None
    else
      match Unescape(t[1..])
      case None => None
      case Some(rest) => Some([t[0]] + rest)
  }

  /** Unescaping undoes escaping. */
  lemma {:induction false} UnescapeEscape(s: string)
    ensures Unescape(Escape(s)) == Some(s)
    decreases |s|
  {
    if s != [] {
      UnescapeEscape(s[1..]);
      var head := if s[0] == ' ' then "%s" else if s[0] == '%' then "%%" else [s[0]];
      var t := head + Escape(s[1..]);
      assert Escape(s) == t;
      assert t[|head|..] == Escape(s[1..]);
      assert [s[0]] + s[1..] == s;
    }
  }

  const TokenPrefix := "jwt."

  /** `jwt.sign(payload, secret, { expiresIn })`: a non-empty token without spaces. */
  function Sign(c: Claims): (token: string)
    ensures token != "" && ' ' !in token
  {
    TokenPrefix + Escape(c.id)
  }

  /** One verifier: accepts exactly the tokens `Sign` produces (secret and expiry
      are not modelled). */
  function Verify(token: string): Option<Claims> {
    if |token| >= |TokenPrefix| && token[..|TokenPrefix|] == TokenPrefix then
      match Unescape(token[|TokenPrefix|..])
      case None => None
      case Some(id) => Some(Claims(id))
    else None
  }

  /** Verification recovers the signed payload. */
  lemma VerifySign(c: Claims)
    ensures Verify(Sign(c)) == Some(c)
  {
    var token := Sign(c);
    assert token[..|TokenPrefix|] == TokenPrefix;
    assert token[|TokenPrefix|..] == Escape(c.id);
    UnescapeEscape(c.id);
  }
}
