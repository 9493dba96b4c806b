// Small value types and character classes shared by every module.

module Common {
  datatype Option<+T> = None | Some(value: T)

  // The error is the stable code the source returns or throws.
  datatype Result<+T> = Ok(value: T) | Err(error: string)

  // What a durable port does to a call: a fault decides what the caller is told, and
  // LostWrite also that nothing was kept.
  datatype Fault = NoFault | LostWrite | LostAcknowledgement

  type Byte = b: int | 0 <= b < 256
  type Bytes = seq<Byte>

  const MAX_SAFE_INTEGER: int := 9007199254740991

  function Last<T>(s: seq<T>): T
    requires s != []
  {
    s[|s| - 1]
  }
}

// The anchored regular expressions of the source, as predicates.
module Names {
  predicate Digit(c: char) { '0' <= c <= '9' }

  predicate Lower(c: char) { 'a' <= c <= 'z' }

  predicate AlphaNum(c: char) { Digit(c) || Lower(c) || 'A' <= c <= 'Z' }

  predicate LowerHex(c: char) { Digit(c) || 'a' <= c <= 'f' }

  // ^[A-Za-z0-9][A-Za-z0-9_.:-]{0,127}$
  predicate Token(s: string) {
    && 1 <= |s| <= 128
    && AlphaNum(s[0])
    && forall i :: 0 <= i < |s| ==> AlphaNum(s[i]) || s[i] in {'_', '.', ':', '-'}
  }

  // ^[A-Za-z0-9][A-Za-z0-9_:-]{0,127}$, the same without the '.' framing delimiter.
  predicate UndottedToken(s: string) {
    Token(s) && '.' !in s
  }

  // ^[A-Za-z0-9_.:-]{1,128}$
  predicate Opaque(s: string) {
    && 1 <= |s| <= 128
    && forall i :: 0 <= i < |s| ==> AlphaNum(s[i]) || s[i] in {'_', '.', ':', '-'}
  }

  // ^[a-z0-9][a-z0-9-]{0,62}$
  predicate TopicPart(s: string) {
    && 1 <= |s| <= 63
    && s[0] != '-'
    && forall i :: 0 <= i < |s| ==> Digit(s[i]) || Lower(s[i]) || s[i] == '-'
  }

  // A lower-case UUID that is not the nil UUID.
  predicate Uuid(s: string) {
    && |s| == 36
    && (forall i :: 0 <= i < 36 ==> if i in {8, 13, 18, 23} then s[i] == '-' else LowerHex(s[i]))
    && exists i :: 0 <= i < 36 && s[i] != '-' && s[i] != '0'
  }
}
