/** Tunnel names: internal/names/names.go. */
module Names {
  import opened Wrappers
  import opened Text

  const RESERVED := {"admin", "api", "relay", "status", "tcp", "www"}

  datatype NameError = BadLength | Reserved | EdgeHyphen | BadCharacter

  predicate IsLabelChar(c: char) {
    'a' <= c <= 'z' || '0' <= c <= '9' || c == '-'
  }

  predicate AllLabelChars(s: string) {
    forall i :: 0 <= i < |s| ==> IsLabelChar(s[i])
  }

  /** A usable name: a lower-case letter-digit-hyphen label of section 2.3.1 of RFC 1035, as relaxed
      by section 2.1 of RFC 1123, at least three characters long and not reserved. */
  predicate IsName(s: string) {
    3 <= |s| <= 63 && AllLabelChars(s) && s[0] != '-' && s[|s| - 1] != '-'
    && s !in {"admin", "api", "relay", "status", "tcp", "www"}
  }

  function Normalize(fold: Casing, value: string): Result<string, NameError> {
    var name := Lower(fold, TrimSpace(value));
    if ByteLength(name) < 3 || ByteLength(name) > 63 then Err(BadLength)
    else if name in RESERVED then Err(Reserved)
    else if name[0] == '-' || name[|name| - 1] == '-' then Err(EdgeHyphen)
    else if !AllLabelChars(name) then Err(BadCharacter)
    else Ok(name)
  }

  lemma LabelIsPlain(fold: Casing, s: string)
    requires AllLabelChars(s)
    ensures Lower(fold, s) == s && TrimSpace(s) == s && ByteLength(s) == |s|
  {
    forall i | 0 <= i < |s|
      ensures fold(s[i]) == s[i] && s[i] as int < 128 && !IsSpace(s[i])
    {
      assert IsLabelChar(s[i]);
    }
    if s == "" {
      assert TrimSpace(s) == s;
    }
  }

  /** `Normalize` accepts exactly the values whose trimmed, lower-cased form is a name, and returns that form. */
  lemma NormalizeAccepts(fold: Casing, value: string)
    ensures Normalize(fold, value).Ok? <==> IsName(Lower(fold, TrimSpace(value)))
    ensures Normalize(fold, value).Ok? ==> Normalize(fold, value).value == Lower(fold, TrimSpace(value))
  {
    var name := Lower(fold, TrimSpace(value));
    if AllLabelChars(name) {
      LabelIsPlain(fold, name);
    }
  }

  /** Why a value is refused, for ASCII values: by length, then by the reserved list, then by its edges. */
  lemma NormalizeRefuses(fold: Casing, value: string)
    requires IsAscii(value)
    ensures var name, r := Lower(fold, TrimSpace(value)), Normalize(fold, value);
            && (r == Err(BadLength) <==> !(3 <= |name| <= 63))
            && (r == Err(Reserved) <==> name in {"admin", "api", "relay", "status", "tcp", "www"})
            && (r == Err(EdgeHyphen) <==> 3 <= |name| <= 63 && (name[0] == '-' || name[|name| - 1] == '-'))
  {
    TrimSpaceIsAscii(value);
    assert IsAscii(Lower(fold, TrimSpace(value)));
  }

  /** The fixed points of `Normalize` are exactly the names. */
  lemma NormalizeFixesNames(fold: Casing, s: string)
    ensures Normalize(fold, s) == Ok(s) <==> IsName(s)
  {
    NormalizeAccepts(fold, s);
    if IsName(s) {
      LabelIsPlain(fold, s);
    }
  }

  /** `Normalize` is idempotent: what it returns, it returns unchanged. */
  lemma NormalizeIdempotent(fold: Casing, value: string)
    requires Normalize(fold, value).Ok?
    ensures Normalize(fold, Normalize(fold, value).value) == Normalize(fold, value)
  {
    NormalizeAccepts(fold, value);
    NormalizeFixesNames(fold, Normalize(fold, value).value);
  }
}
