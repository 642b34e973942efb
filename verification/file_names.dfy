/** The object-store key of an uploaded file: the original name with characters that are
    hostile to file systems deleted and every whitespace run turned into one underscore
    (`cleanName`), prefixed by the upload time in milliseconds (`safeFileName`). */
module FileNames {
  import opened Decimal
  import opened Records

  /** The characters the first replacement deletes: \ / : * ? " < > | */
  predicate IsForbidden(c: char) {
    c == '\\' || c == '/' || c == ':' || c == '*' || c == '?' || c == '"' || c == '<' || c == '>' || c == '|'
  }

  /** The characters JavaScript's `\s` matches: tab, line feed, vertical tab, form feed,
      carriage return, space, no-break space, the Unicode space separators, the line and
      paragraph separators and the byte order mark. */
  predicate IsJsSpace(c: char) {
    var x := c as int;
    (0x09 <= x <= 0x0D) || x == 0x20 || x == 0xA0 || x == 0x1680 || (0x2000 <= x <= 0x200A)
    || x == 0x2028 || x == 0x2029 || x == 0x202F || x == 0x205F || x == 0x3000 || x == 0xFEFF
  }

  predicate NoForbidden(s: string) {
    forall i :: 0 <= i < |s| ==> !IsForbidden(s[i])
  }

  predicate NoSpace(s: string) {
    forall i :: 0 <= i < |s| ==> !IsJsSpace(s[i])
  }

  /** `replace(/[\\/:*?"<>|]/g, '')`: every forbidden character deleted; the name never grows. */
  function StripForbidden(s: string): (r: string)
    ensures NoForbidden(r)
    ensures |r| <= |s|
  {
    if s == [] then []
    else if IsForbidden(s[0]) then StripForbidden(s[1..])
    else [s[0]] + StripForbidden(s[1..])
  }

  /** Every character that is not forbidden is kept exactly as often as it occurs. */
  lemma {:induction false} StripForbiddenKeepsOthers(s: string)
    ensures forall c :: !IsForbidden(c) ==> multiset(StripForbidden(s))[c] == multiset(s)[c]
  {
    if s != [] {
      StripForbiddenKeepsOthers(s[1..]);
      assert s == [s[0]] + s[1..];
    }
  }

  /** The rest of `s` after its leading whitespace run. */
  function DropSpaces(s: string): (r: string)
    ensures |r| <= |s| && r == s[|s| - |r|..]
    ensures r == [] || !IsJsSpace(r[0])
    ensures forall i :: 0 <= i < |s| - |r| ==> IsJsSpace(s[i])
  {
    if s != [] && IsJsSpace(s[0]) then DropSpaces(s[1..]) else s
  }

  /** `replace(/\s+/g, '_')`: each maximal whitespace run becomes one underscore; no
      whitespace is left and no forbidden character is introduced. */
  function CollapseSpaces(s: string): (r: string)
    ensures NoSpace(r)
    ensures |r| <= |s|
    ensures NoForbidden(s) ==> NoForbidden(r)
    decreases |s|
  {
    if s == [] then []
    else if IsJsSpace(s[0]) then "_" + CollapseSpaces(DropSpaces(s))
    else [s[0]] + CollapseSpaces(s[1..])
  }

  /** `cleanName`: no forbidden character and no whitespace remain, and the name never grows. */
  function CleanName(originalName: string): (r: string)
    ensures NoForbidden(r) && NoSpace(r)
    ensures |r| <= |originalName|
  {
    CollapseSpaces(StripForbidden(originalName))
  }

  /** `safeFileName`: the decimal upload time, a dash, and the cleaned name. */
  function SafeFileName(uploadTime: nat, originalName: string): (key: string)
    ensures NoForbidden(key) && NoSpace(key)
  {
    var digits := NatToString(uploadTime);
    var key := digits + "-" + CleanName(originalName);
    assert forall i :: 0 <= i < |digits| ==> key[i] == digits[i];
    key
  }

  lemma {:induction false} StripForbiddenKeepsClean(s: string)
    requires NoForbidden(s)
    ensures StripForbidden(s) == s
  {
    if s != [] {
      StripForbiddenKeepsClean(s[1..]);
    }
  }

  /** One step of the deletion: the first character survives exactly when it is not forbidden. */
  lemma StripForbiddenCons(c: char, s: string)
    ensures StripForbidden([c] + s) == (if IsForbidden(c) then "" else [c]) + StripForbidden(s)
  {
    var cs := [c] + s;
    assert cs[0] == c && cs[1..] == s;
  }

  /** Deleting forbidden characters distributes over concatenation (so it works character by
      character, keeping order). */
  lemma {:induction false} StripForbiddenConcat(a: string, b: string)
    ensures StripForbidden(a + b) == StripForbidden(a) + StripForbidden(b)
  {
    if a == [] {
      assert a + b == b;
    } else {
      var c, rest := a[0], a[1..];
      var kept: string := if IsForbidden(c) then "" else [c];
      assert a == [c] + rest;
      Assoc([c], rest, b);
      StripForbiddenCons(c, rest + b);
      StripForbiddenConcat(rest, b);
      StripForbiddenCons(c, rest);
      Assoc(kept, StripForbidden(rest), StripForbidden(b));
    }
  }

  /** Regrouping a concatenation, called at the two steps of `StripForbiddenConcat` that
      regroup; naming those steps keeps that proof well inside the solver's budget. */
  lemma Assoc(x: string, y: string, z: string)
    ensures x + y + z == x + (y + z)
  {
  }

  lemma {:induction false} CollapseSpacesKeepsClean(s: string)
    requires NoSpace(s)
    ensures CollapseSpaces(s) == s
  {
    if s != [] {
      CollapseSpacesKeepsClean(s[1..]);
    }
  }

  lemma {:induction false} DropSpacesSkipsRun(w: string, b: string)
    requires forall i :: 0 <= i < |w| ==> IsJsSpace(w[i])
    requires b == [] || !IsJsSpace(b[0])
    ensures DropSpaces(w + b) == b
  {
    if w != [] {
      assert (w + b)[1..] == w[1..] + b;
      DropSpacesSkipsRun(w[1..], b);
    }
  }

  lemma {:induction false} DropSpacesPrefix(a: string, rest: string)
    requires a != [] && !IsJsSpace(a[|a| - 1])
    ensures DropSpaces(a + rest) == DropSpaces(a) + rest
  {
    if IsJsSpace(a[0]) {
      assert (a + rest)[1..] == a[1..] + rest;
      DropSpacesPrefix(a[1..], rest);
    }
  }

  /** The regrouping the whitespace-run proof needs around the underscore, stated once and
      called at its two uses for the same reason as `Assoc`. */
  lemma Regroup(x: string, y: string, z: string)
    ensures x + (y + "_" + z) == x + y + "_" + z
  {
  }

  lemma CollapseRunAtStart(w: string, b: string)
    requires w != [] && forall i :: 0 <= i < |w| ==> IsJsSpace(w[i])
    requires b == [] || !IsJsSpace(b[0])
    ensures CollapseSpaces(w + b) == "_" + CollapseSpaces(b)
  {
    assert (w + b)[0] == w[0];
    DropSpacesSkipsRun(w, b);
  }

  lemma DropSpacesBeforeRun(a: string, w: string, b: string)
    requires a != [] && !IsJsSpace(a[|a| - 1])
    ensures DropSpaces(a + w + b) == DropSpaces(a) + w + b
  {
    assert a + w + b == a + (w + b);
    DropSpacesPrefix(a, w + b);
  }

  lemma DropSpacesKeepsLast(a: string)
    requires a != [] && IsJsSpace(a[0]) && !IsJsSpace(a[|a| - 1])
    ensures |DropSpaces(a)| < |a|
    ensures DropSpaces(a) != [] && !IsJsSpace(DropSpaces(a)[|DropSpaces(a)| - 1])
  {
    var a' := DropSpaces(a);
    assert a' != [] && a'[|a'| - 1] == a[|a| - 1];
  }

  /** A leading whitespace run becomes one underscore, whatever follows the part it starts. */
  lemma CollapseLeadingRun(a: string, w: string, b: string)
    requires a != [] && IsJsSpace(a[0]) && !IsJsSpace(a[|a| - 1])
    ensures CollapseSpaces(a + w + b) == "_" + CollapseSpaces(DropSpaces(a) + w + b)
    ensures CollapseSpaces(a) == "_" + CollapseSpaces(DropSpaces(a))
  {
    assert (a + w + b)[0] == a[0];
    DropSpacesBeforeRun(a, w, b);
  }

  /** A leading character that is not whitespace is copied to the front of the result,
      whatever follows the part it starts. */
  lemma CollapseFirstChar(a: string, w: string, b: string)
    requires a != [] && !IsJsSpace(a[0]) && !IsJsSpace(a[|a| - 1])
    ensures a[1..] == [] || !IsJsSpace(a[1..][|a[1..]| - 1])
    ensures CollapseSpaces(a + w + b) == [a[0]] + CollapseSpaces(a[1..] + w + b)
    ensures CollapseSpaces(a) == [a[0]] + CollapseSpaces(a[1..])
  {
    var s := a + w + b;
    assert s[0] == a[0] && s[1..] == a[1..] + w + b;
    assert a[1..] == [] || a[1..][|a[1..]| - 1] == a[|a| - 1];
  }

  /** Each whitespace run becomes exactly one underscore: a run `w` between a part `a` that
      does not end in whitespace and a part `b` that does not start with it is replaced by a
      single `_`, and the two sides are collapsed independently. */
  lemma {:induction false} CollapseSpacesRun(a: string, w: string, b: string)
    requires a == [] || !IsJsSpace(a[|a| - 1])
    requires w != [] && forall i :: 0 <= i < |w| ==> IsJsSpace(w[i])
    requires b == [] || !IsJsSpace(b[0])
    ensures CollapseSpaces(a + w + b) == CollapseSpaces(a) + "_" + CollapseSpaces(b)
    decreases |a|
  {
    if a == [] {
      assert a + w + b == w + b;
      CollapseRunAtStart(w, b);
    } else if IsJsSpace(a[0]) {
      var a' := DropSpaces(a);
      DropSpacesKeepsLast(a);
      CollapseSpacesRun(a', w, b);
      CollapseLeadingRun(a, w, b);
      Regroup("_", CollapseSpaces(a'), CollapseSpaces(b));
    } else {
      CollapseFirstChar(a, w, b);
      CollapseSpacesRun(a[1..], w, b);
      Regroup([a[0]], CollapseSpaces(a[1..]), CollapseSpaces(b));
    }
  }

  /** Cleaning a cleaned name changes nothing. */
  lemma CleanNameIdempotent(originalName: string)
    ensures CleanName(CleanName(originalName)) == CleanName(originalName)
  {
    var once := CleanName(originalName);
    StripForbiddenKeepsClean(once);
    CollapseSpacesKeepsClean(once);
  }

  /** The number of leading digits of `s`. */
  function DigitPrefixLength(s: string): (n: nat)
    ensures n <= |s| && AllDigits(s[..n])
    ensures n < |s| ==> !IsDigit(s[n])
  {
    if s != [] && IsDigit(s[0]) then
      var n := 1 + DigitPrefixLength(s[1..]);
      assert forall i :: 1 <= i < n ==> s[..n][i] == s[1..][..n - 1][i - 1];
      n
    else 0
  }

  /** Reads a key back into its upload time and its cleaned name: the leading digits, which
      must be followed by a dash, and everything after that dash. */
  function SplitKey(key: string): (r: Option<(nat, string)>)
  {
    var n := DigitPrefixLength(key);
    if n < |key| && key[n] == '-' then Some((ParseDigits(key[..n]), key[n + 1..])) else None
  }

  lemma {:induction false} DigitPrefixOfNumeral(digits: string, rest: string)
    requires AllDigits(digits)
    requires rest == [] || !IsDigit(rest[0])
    ensures DigitPrefixLength(digits + rest) == |digits|
  {
    if digits != [] {
      assert (digits + rest)[1..] == digits[1..] + rest;
      DigitPrefixOfNumeral(digits[1..], rest);
    }
  }

  /** A stored key determines the upload time and the cleaned name it was built from. */
  lemma SafeFileNameSplits(uploadTime: nat, originalName: string)
    ensures SplitKey(SafeFileName(uploadTime, originalName)) == Some((uploadTime, CleanName(originalName)))
  {
    var digits := NatToString(uploadTime);
    var key := SafeFileName(uploadTime, originalName);
    assert key == digits + ("-" + CleanName(originalName));
    DigitPrefixOfNumeral(digits, "-" + CleanName(originalName));
    assert key[..|digits|] == digits;
    ParseNatToString(uploadTime);
  }
}
