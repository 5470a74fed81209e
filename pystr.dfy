/** The three Python string built-ins the converter relies on:
    `str.strip()`, `str.split(sep)` and `str.startswith(prefix)`.
    Whitespace is Python's ASCII whitespace; characters above U+007F are
    never treated as whitespace here. */
module PyStr {

  /** Python's `str.isspace` restricted to ASCII: space, tab, line feed,
      vertical tab, form feed, carriage return and the four separators
      U+001C to U+001F. */
  predicate IsSpace(c: char) {
    c == ' ' || 9 <= c as int <= 13 || 0x1c <= c as int <= 0x1f
  }

  /** Every character of `s[lo..hi]` is whitespace. */
  predicate SpacesBetween(s: string, lo: int, hi: int)
    requires 0 <= lo && hi <= |s|
  {
    forall j :: lo <= j < hi ==> IsSpace(s[j])
  }

  /** `r` is what is left of `s` once `i` characters of whitespace are
      removed from its front and the rest from its end. */
  predicate PaddedAt(s: string, r: string, i: nat) {
    i + |r| <= |s| && s[i..i + |r|] == r && SpacesBetween(s, 0, i) && SpacesBetween(s, i + |r|, |s|)
  }

  /** `r` is `s` with some whitespace removed from each end. */
  ghost predicate PaddedBy(s: string, r: string) {
    exists i: nat :: PaddedAt(s, r, i)
  }

  /** `r` neither starts nor ends with whitespace. */
  predicate Trimmed(r: string) {
    r == [] || (!IsSpace(r[0]) && !IsSpace(r[|r| - 1]))
  }

  /** The index of the first non-whitespace character at or after `i`. */
  function SkipSpaces(s: string, i: nat): (k: nat)
    requires i <= |s|
    ensures i <= k <= |s| && SpacesBetween(s, i, k)
    ensures k < |s| ==> !IsSpace(s[k])
    decreases |s| - i
  {
    if i < |s| && IsSpace(s[i]) then SkipSpaces(s, i + 1) else i
  }

  /** The end of `s[lo..j]` once its trailing whitespace is dropped. */
  function SkipSpacesBack(s: string, lo: nat, j: nat): (k: nat)
    requires lo <= j <= |s|
    ensures lo <= k <= j && SpacesBetween(s, k, j)
    ensures lo < k ==> !IsSpace(s[k - 1])
  {
    if lo < j && IsSpace(s[j - 1]) then SkipSpacesBack(s, lo, j - 1) else j
  }

  /** `s.strip()`: leading whitespace off (lstrip), then trailing
      whitespace off (rstrip). The result is trimmed, and empty exactly
      when `s` is all whitespace. */
  function Strip(s: string): (r: string)
    ensures PaddedBy(s, r) && Trimmed(r)
    ensures r == [] <==> SpacesBetween(s, 0, |s|)
  {
    var a := SkipSpaces(s, 0);
    var b := SkipSpacesBack(s, a, |s|);
    assert PaddedAt(s, s[a..b], a);
    s[a..b]
  }

  /** Strip is determined by its contract: a trimmed string left after
      removing whitespace from both ends of `s` is `Strip(s)`. */
  lemma {:induction false} StripUnique(s: string, r: string)
    requires PaddedBy(s, r) && Trimmed(r)
    ensures r == Strip(s)
  {
    var i: nat :| PaddedAt(s, r, i);
    var t := Strip(s);
    var j: nat :| PaddedAt(s, t, j);
    if r == [] {
      assert SpacesBetween(s, 0, |s|) by {
        forall k | 0 <= k < |s| ensures IsSpace(s[k]) {
          if k < i { } else { }
        }
      }
    } else {
      // both begin at the first non-whitespace character of s and end
      // after its last one
      assert i == j;
      assert i + |r| == j + |t|;
    }
  }

  /** Stripping twice removes nothing more. */
  lemma {:induction false} StripIdempotent(s: string)
    ensures Strip(Strip(s)) == Strip(s)
  {
    var r := Strip(s);
    assert PaddedAt(r, r, 0) by { assert r[0..0 + |r|] == r; }
    StripUnique(r, r);
  }

  /** `s.startswith(p)`. */
  predicate StartsWith(s: string, p: string) {
    |p| <= |s| && s[..|p|] == p
  }

  /** Number of occurrences of `c` in `s`. */
  function Count(s: string, c: char): (n: nat)
    ensures n <= |s|
    ensures n == 0 <==> c !in s
  {
    if s == [] then 0 else (if s[0] == c then 1 else 0) + Count(s[1..], c)
  }

  /** `sep.join(fields)` for a one-character separator. */
  function Join(fields: seq<string>, sep: char): string
    requires |fields| > 0
  {
    if |fields| == 1 then fields[0] else fields[0] + [sep] + Join(fields[1..], sep)
  }

  /** `s.split(sep)` for a one-character separator: `k` separators give
      `k + 1` fields, empty fields are kept, and joining the fields with the
      separator gives back `s`. */
  function Split(s: string, sep: char): (r: seq<string>)
    ensures |r| == Count(s, sep) + 1
    ensures forall k :: 0 <= k < |r| ==> sep !in r[k]
    ensures Join(r, sep) == s
  {
    if s == [] then [""]
    else
      var rest := Split(s[1..], sep);
      if s[0] == sep then
        assert [""] + rest == [""] + rest[..];
        [""] + rest
      else
        var r := [[s[0]] + rest[0]] + rest[1..];
        assert r[1..] == rest[1..];
        assert |rest| > 1 ==> Join(rest, sep) == rest[0] + [sep] + Join(rest[1..], sep);
        r
  }

  /** Splitting what was joined gives back the separator-free fields. */
  lemma {:induction false} SplitJoin(fields: seq<string>, sep: char)
    requires |fields| > 0
    requires forall k :: 0 <= k < |fields| ==> sep !in fields[k]
    ensures Split(Join(fields, sep), sep) == fields
  {
    if |fields| == 1 {
      SplitNoSep(fields[0], sep);
    } else {
      SplitJoin(fields[1..], sep);
      SplitPrefix(fields[0], Join(fields[1..], sep), sep);
    }
  }

  /** A string without the separator is a single field. */
  lemma {:induction false} SplitNoSep(s: string, sep: char)
    requires sep !in s
    ensures Split(s, sep) == [s]
  {
    if s != [] {
      SplitNoSep(s[1..], sep);
    }
  }

  /** A separator-free prefix followed by the separator becomes the first
      field. */
  lemma {:induction false} SplitPrefix(a: string, b: string, sep: char)
    requires sep !in a
    ensures Split(a + [sep] + b, sep) == [a] + Split(b, sep)
  {
    if a == [] {
      assert a + [sep] + b == [sep] + b;
      assert ([sep] + b)[1..] == b;
    } else {
      var s := a + [sep] + b;
      assert s[0] == a[0] != sep;
      assert s[1..] == a[1..] + [sep] + b;
      SplitPrefix(a[1..], b, sep);
      var rest := Split(s[1..], sep);
      assert rest[0] == a[1..] && rest[1..] == Split(b, sep);
      assert Split(s, sep) == [[a[0]] + rest[0]] + rest[1..];
      assert [a[0]] + a[1..] == a;
    }
  }
}
