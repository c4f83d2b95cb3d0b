/** Python's string primitives used by the core: `str.isspace`, `str.strip` and `str.join`. */
module Strings {

  /** The characters for which Python's `str.isspace()` holds, i.e. what `str.strip()` removes. */
  predicate IsSpace(c: char) {
    || ('\t' <= c <= '\r')
    || ('\U{1C}' <= c <= '\U{20}')
    || c == '\U{85}' || c == '\U{A0}' || c == '\U{1680}'
    || ('\U{2000}' <= c <= '\U{200A}')
    || c == '\U{2028}' || c == '\U{2029}' || c == '\U{202F}' || c == '\U{205F}' || c == '\U{3000}'
  }

  /** True when every character of `s` is whitespace (vacuously for ""). */
  predicate AllSpace(s: string) {
    forall i :: 0 <= i < |s| ==> IsSpace(s[i])
  }

  /** True when no character of `s` is whitespace. */
  predicate NoSpace(s: string) {
    forall i :: 0 <= i < |s| ==> !IsSpace(s[i])
  }

  /** `s.lstrip()`: drops the leading run of whitespace. */
  function TrimStart(s: string): (r: string)
    ensures |r| <= |s| && r == s[|s| - |r|..]
    ensures r == [] || !IsSpace(r[0])
    ensures AllSpace(s[..|s| - |r|])
  {
    if s != [] && IsSpace(s[0]) then
      var r := TrimStart(s[1..]);
      assert s[..|s| - |r|] == [s[0]] + s[1..][..|s| - 1 - |r|];
      r
    else s
  }

  /** `s.rstrip()`: drops the trailing run of whitespace. */
  function TrimEnd(s: string): (r: string)
    ensures |r| <= |s| && r == s[..|r|]
    ensures r == [] || !IsSpace(r[|r| - 1])
    ensures AllSpace(s[|r|..])
  {
    if s != [] && IsSpace(s[|s| - 1]) then
      var t := s[..|s| - 1];
      var r := TrimEnd(t);
      assert s[|r|..] == t[|r|..] + [s[|s| - 1]];
      r
    else s
  }

  /** `s.strip()`: the infix of `s` left after removing whitespace at both ends. */
  function Strip(s: string): (r: string)
    ensures r == [] || (!IsSpace(r[0]) && !IsSpace(r[|r| - 1]))
    ensures |r| <= |s|
  {
    TrimEnd(TrimStart(s))
  }

  /** Stripping gives "" exactly when the string is made of whitespace only. */
  lemma StripEmptyIff(s: string)
    ensures Strip(s) == [] <==> AllSpace(s)
  {
    var t := TrimStart(s);
    if Strip(s) == [] {
      assert AllSpace(t[0..]);
      assert s[..|s| - |t|] == s;
    }
  }

  /** A string without whitespace is left as it is by `strip`. */
  lemma StripNoSpace(s: string)
    requires NoSpace(s)
    ensures Strip(s) == s
  {
  }

  /** `sep.join(parts)`. */
  function Join(parts: seq<string>, sep: string): (r: string)
    ensures |parts| == 0 ==> r == ""
    ensures |parts| == 1 ==> r == parts[0]
  {
    if |parts| == 0 then ""
    else if |parts| == 1 then parts[0]
    else Join(parts[..|parts| - 1], sep) + sep + parts[|parts| - 1]
  }

  /** The joined text starts with the first part and its separator, and ends with the separator and the last part. */
  lemma {:induction false} JoinEnds(parts: seq<string>, sep: string)
    requires |parts| >= 2
    ensures parts[0] + sep <= Join(parts, sep)
    ensures var r, last := Join(parts, sep), parts[|parts| - 1];
            |sep| + |last| <= |r| && r[|r| - |sep| - |last|..] == sep + last
  {
    var init := parts[..|parts| - 1];
    if |parts| > 2 {
      JoinEnds(init, sep);
      assert init[0] == parts[0];
    }
  }

  /** With a whitespace separator, the joined text is whitespace-only exactly when every part is. */
  lemma {:induction false} JoinAllSpaceIff(parts: seq<string>, sep: string)
    requires AllSpace(sep)
    ensures AllSpace(Join(parts, sep)) <==> forall i :: 0 <= i < |parts| ==> AllSpace(parts[i])
  {
    if |parts| > 1 {
      var init := parts[..|parts| - 1];
      var last := parts[|parts| - 1];
      JoinAllSpaceIff(init, sep);
      var j := Join(init, sep);
      assert Join(parts, sep) == j + sep + last;
      if AllSpace(Join(parts, sep)) {
        forall i | 0 <= i < |j| ensures IsSpace(j[i]) { assert j[i] == Join(parts, sep)[i]; }
        forall i | 0 <= i < |last| ensures IsSpace(last[i]) {
          assert last[i] == Join(parts, sep)[|j| + |sep| + i];
        }
        forall i | 0 <= i < |parts| ensures AllSpace(parts[i]) {
          if i < |parts| - 1 { assert parts[i] == init[i]; }
        }
      } else {
        assert !AllSpace(j) || !AllSpace(last);
        if !AllSpace(j) {
          var k :| 0 <= k < |j| && !IsSpace(j[k]);
          var i :| 0 <= i < |init| && !AllSpace(init[i]);
          assert parts[i] == init[i];
        }
      }
    }
  }
}
