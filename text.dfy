/** String helpers that follow the JavaScript semantics the components rely on:
    `String.prototype.trim`, truthiness of strings, `s || null`, `o ?? ""` and
    the UTF-16 `length` of a string. */
module Text {
  import opened Wrappers

  /** The characters `trim` strips: ECMAScript WhiteSpace (tab, vertical tab, form
      feed, space, no-break space, byte order mark and the space separators of
      Unicode category Zs) and LineTerminator (LF, CR, LS, PS). */
  predicate IsTrimmable(c: char) {
    || c == '\t' || c == '\n' || c == '\U{000B}' || c == '\U{000C}' || c == '\r'
    || c == ' ' || c == '\U{00A0}' || c == '\U{1680}'
    || ('\U{2000}' <= c <= '\U{200A}')
    || c == '\U{2028}' || c == '\U{2029}' || c == '\U{202F}' || c == '\U{205F}'
    || c == '\U{3000}' || c == '\U{FEFF}'
  }

  /** Drops the trimmable characters at the front. */
  function TrimStart(s: string): string {
    if |s| > 0 && IsTrimmable(s[0]) then TrimStart(s[1..]) else s
  }

  /** Drops the trimmable characters at the back. */
  function TrimEnd(s: string): string {
    if |s| > 0 && IsTrimmable(s[|s| - 1]) then TrimEnd(s[..|s| - 1]) else s
  }

  /** `s.trim()`. */
  function Trim(s: string): string {
    TrimEnd(TrimStart(s))
  }

  /** `TrimStart(s)` is the suffix of `s` that starts at its first non-trimmable
      character: everything before it is trimmable. */
  lemma {:induction false} TrimStartShape(s: string)
    ensures |TrimStart(s)| <= |s| && TrimStart(s) == s[|s| - |TrimStart(s)|..]
    ensures TrimStart(s) == [] || !IsTrimmable(TrimStart(s)[0])
    ensures forall i :: 0 <= i < |s| - |TrimStart(s)| ==> IsTrimmable(s[i])
  {
    if |s| > 0 && IsTrimmable(s[0]) {
      TrimStartShape(s[1..]);
      forall i | 0 <= i < |s| - |TrimStart(s)| ensures IsTrimmable(s[i]) {
        if i > 0 {
          assert s[i] == s[1..][i - 1];
        }
      }
    }
  }

  /** `TrimEnd(s)` is the prefix of `s` that ends at its last non-trimmable
      character: everything after it is trimmable. */
  lemma {:induction false} TrimEndShape(s: string)
    ensures |TrimEnd(s)| <= |s| && TrimEnd(s) == s[..|TrimEnd(s)|]
    ensures TrimEnd(s) == [] || !IsTrimmable(TrimEnd(s)[|TrimEnd(s)| - 1])
    ensures forall i :: |TrimEnd(s)| <= i < |s| ==> IsTrimmable(s[i])
  {
    if |s| > 0 && IsTrimmable(s[|s| - 1]) {
      TrimEndShape(s[..|s| - 1]);
    }
  }

  /** `s.trim()` is falsy exactly when every character of `s` is trimmable. */
  lemma TrimEmptyIff(s: string)
    ensures Trim(s) == [] <==> forall i :: 0 <= i < |s| ==> IsTrimmable(s[i])
  {
    TrimStartShape(s);
    TrimEndShape(TrimStart(s));
  }

  /** Where `s.trim()` starts inside `s`. */
  function TrimOffset(s: string): nat {
    if |TrimStart(s)| <= |s| then |s| - |TrimStart(s)| else 0
  }

  /** A trimmed string is the slice of the original that starts at its first and
      ends at its last non-trimmable character. */
  lemma TrimShape(s: string)
    ensures TrimOffset(s) + |Trim(s)| <= |s|
    ensures Trim(s) == s[TrimOffset(s)..TrimOffset(s) + |Trim(s)|]
    ensures Trim(s) == [] || (!IsTrimmable(Trim(s)[0]) && !IsTrimmable(Trim(s)[|Trim(s)| - 1]))
  {
    var a := TrimStart(s);
    var r := TrimEnd(a);
    TrimStartShape(s);
    TrimEndShape(a);
    if r != [] {
      assert r[0] == a[0];
    }
  }

  /** Trimming a trimmed string changes nothing. */
  lemma TrimIdempotent(s: string)
    ensures Trim(Trim(s)) == Trim(s)
  {
    var r := Trim(s);
    TrimShape(s);
    if r != [] {
      assert TrimStart(r) == r;
      assert TrimEnd(r) == r;
    }
  }

  /** A JavaScript string in a condition: `undefined`, `null` and `""` are falsy. */
  predicate Present(o: Option<string>) {
    o.Some? && o.value != ""
  }

  /** `s || null`: the empty string becomes null. */
  function NullIfEmpty(s: string): (r: Option<string>)
    ensures r.None? <==> s == ""
    ensures r.Some? ==> r.value == s
  {
    if s == "" then None else Some(s)
  }

  /** `o ?? ""`: null becomes the empty string. */
  function OrEmpty(o: Option<string>): (r: string)
    ensures o.Some? ==> r == o.value
  {
    match o
    case None => ""
    case Some(s) => s
  }

  /** Turning a form field into a nullable column value and back gives the field. */
  lemma OrEmptyNullIfEmpty(s: string)
    ensures OrEmpty(NullIfEmpty(s)) == s
  {
  }

  /** Turning a nullable column value into a form field and back gives the value
      exactly when the value was not the empty string. */
  lemma NullIfEmptyOrEmpty(o: Option<string>)
    ensures NullIfEmpty(OrEmpty(o)) == o <==> o != Some("")
  {
  }

  /** The number of UTF-16 code units of `s`, which is JavaScript's `s.length`:
      characters outside the Basic Multilingual Plane take two. */
  function Utf16Length(s: string): (n: nat)
    ensures |s| <= n <= 2 * |s|
    ensures (forall i :: 0 <= i < |s| ==> s[i] <= '\U{FFFF}') ==> n == |s|
  {
    if s == [] then 0 else (if s[0] <= '\U{FFFF}' then 1 else 2) + Utf16Length(s[1..])
  }
}
