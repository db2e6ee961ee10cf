/** The small vocabulary of JavaScript values the request handlers inspect:
    optional values, client-supplied arguments with their truthiness and
    `String(...)` conversion, `slice(0, n)`, `trim()`, and the claims a
    verified bearer token decodes to. */
module Js {

  datatype Option<+T> = None | Some(value: T)

  datatype Result<+T, +E> = Ok(value: T) | Err(error: E)

  /** A server-side clock reading (ISO timestamp text is not modelled). */
  type Timestamp = int

  /** A value a client sends where the handler expects a string: missing,
      an explicit null, or a string. Numbers, booleans and objects sent in
      these positions are not modelled. */
  datatype Arg = Undefined | Null | Str(s: string)

  /** JavaScript truthiness of an argument: only a non-empty string is truthy. */
  predicate Truthy(a: Arg) {
    a.Str? && a.s != ""
  }

  /** `String(a)`. */
  function ToStr(a: Arg): (r: string)
    ensures a.Str? ==> r == a.s
    ensures a.Undefined? ==> r == "undefined"
    ensures a.Null? ==> r == "null"
  {
    match a
    case Undefined => "undefined"
    case Null => "null"
    case Str(s) => s
  }

  /** `String(a || d)`: the argument when it is truthy, the default otherwise. */
  function OrDefault(a: Arg, d: string): (r: string)
    ensures Truthy(a) ==> r == a.s
    ensures !Truthy(a) ==> r == d
  {
    if Truthy(a) then a.s else d
  }

  function Min(a: int, b: int): int {
    if a <= b then a else b
  }

  /** `s.slice(0, n)`: the longest prefix of `s` of length at most `n`. */
  function Take(s: string, n: nat): (r: string)
    ensures |r| == Min(|s|, n)
    ensures r == s[..|r|]
  {
    if |s| <= n then s else s[..n]
  }

  /** The characters `String.prototype.trim` removes, restricted to the
      ASCII white space, the no-break space and the byte-order mark. */
  predicate IsSpace(c: char) {
    c == ' ' || c == '\t' || c == '\n' || c == '\r' || c == '\U{B}' || c == '\U{C}'
    || c == '\U{A0}' || c == '\U{FEFF}'
  }

  /** `s` without its leading characters in `space`. */
  function TrimStart(s: string, space: char -> bool): (r: string)
    ensures |r| <= |s| && r == s[|s| - |r|..]
    ensures r == [] || !space(r[0])
    ensures forall i :: 0 <= i < |s| - |r| ==> space(s[i])
  {
    if s != [] && space(s[0]) then TrimStart(s[1..], space) else s
  }

  /** `s` without its trailing characters in `space`. */
  function TrimEnd(s: string, space: char -> bool): (r: string)
    ensures |r| <= |s| && r == s[..|r|]
    ensures r == [] || !space(r[|r| - 1])
    ensures forall i :: |r| <= i < |s| ==> space(s[i])
  {
    if s != [] && space(s[|s| - 1]) then TrimEnd(s[..|s| - 1], space) else s
  }

  /** `s` without the characters in `space` at either end: empty exactly
      when every character is one of them, and otherwise starting and
      ending with a character that is not. */
  function TrimBy(s: string, space: char -> bool): (r: string)
    ensures r == [] <==> forall i :: 0 <= i < |s| ==> space(s[i])
    ensures r != [] ==> !space(r[0]) && !space(r[|r| - 1])
  {
    var t := TrimStart(s, space);
    var r := TrimEnd(t, space);
    assert r == [] ==> forall i :: 0 <= i < |s| ==> space(s[i]) by {
      if r == [] {
        assert t == [];
      }
    }
    assert (forall i :: 0 <= i < |s| ==> space(s[i])) ==> r == [] by {
      if r != [] {
        assert r[0] == t[0] == s[|s| - |t|];
      }
    }
    assert r != [] ==> r[0] == t[0];
    r
  }

  /** A string that neither starts nor ends with a character in `space` is
      its own trimming. */
  lemma TrimKeepsUnpadded(s: string, space: char -> bool)
    requires s != [] && !space(s[0]) && !space(s[|s| - 1])
    ensures TrimBy(s, space) == s
  {
  }

  /** `s.trim()`. */
  function Trim(s: string): (r: string)
    ensures r == [] <==> forall i :: 0 <= i < |s| ==> IsSpace(s[i])
    ensures r != [] ==> !IsSpace(r[0]) && !IsSpace(r[|r| - 1])
  {
    TrimBy(s, IsSpace)
  }

  /** The claims a verified token decodes to. `sub` is absent when the
      token carried none. */
  datatype Claims = Claims(sub: Option<string>, iss: string, aud: string)

  /** `jwt.verify(token, JWT_SECRET, {issuer, audience})` under the server's
      fixed configuration: the decoded claims, or None when it throws. The
      signature check and expiry are left abstract. */
  type Verifier = string -> Option<Claims>
}
