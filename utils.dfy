/**
 * The entity-id slug builder of utils.py. The Unicode normalisation step is
 * not modelled; the pipeline starts by dropping every non-ASCII character
 * (what encoding to ASCII with "ignore" does) and then follows the remaining
 * stages: drop punctuation, strip outer whitespace, lower-case, and turn
 * each run of whitespace and dashes into one underscore.
 */
module Utils {

  /** What Python's `\s` and `str.strip()` treat as whitespace, restricted to ASCII. */
  predicate IsSpace(c: char) {
    c == ' ' || ('\t' <= c <= '\r') || ('\U{1C}' <= c <= '\U{1F}')
  }

  predicate IsUpper(c: char) { 'A' <= c <= 'Z' }
  predicate IsLower(c: char) { 'a' <= c <= 'z' }
  predicate IsDigit(c: char) { '0' <= c <= '9' }
  predicate IsAlnum(c: char) { IsUpper(c) || IsLower(c) || IsDigit(c) }

  /** Python's `\w` on an ASCII character. */
  predicate IsWordChar(c: char) { IsAlnum(c) || c == '_' }

  /** The characters of the class `[\s\-]`. */
  predicate IsSeparator(c: char) { IsSpace(c) || c == '-' }

  /** The alphabet of a slug: lower-case letters, digits and the underscore. */
  predicate IsSlugChar(c: char) { IsLower(c) || IsDigit(c) || c == '_' }

  predicate IsSlug(s: string) {
    forall i :: 0 <= i < |s| ==> IsSlugChar(s[i])
  }

  predicate AllSpace(s: string) {
    forall i :: 0 <= i < |s| ==> IsSpace(s[i])
  }

  predicate AllSeparators(s: string) {
    forall i :: 0 <= i < |s| ==> IsSeparator(s[i])
  }

  predicate IsAscii(s: string) {
    forall i :: 0 <= i < |s| ==> s[i] < '\U{80}'
  }

  /** Every character is a word character, whitespace or a dash. */
  predicate IsCleaned(s: string) {
    forall i :: 0 <= i < |s| ==> IsWordChar(s[i]) || IsSeparator(s[i])
  }

  /** Every character is a lower-case letter, a digit, '_', whitespace or a dash. */
  predicate IsLoweredCleaned(s: string) {
    forall i :: 0 <= i < |s| ==> IsSlugChar(s[i]) || IsSeparator(s[i])
  }

  // ---------------------------------------------------------------------
  // The stages of the pipeline
  // ---------------------------------------------------------------------

  /** Encoding to ASCII with errors ignored: every non-ASCII character is dropped. */
  function DropNonAscii(s: string): (r: string)
    ensures |r| <= |s|
    ensures IsAscii(r)
  {
    if s == [] then []
    else (if s[0] < '\U{80}' then [s[0]] else []) + DropNonAscii(s[1..])
  }

  /** `re.sub(r"[^\w\s-]", "", s)` on an ASCII string. */
  function DropPunctuation(s: string): (r: string)
    ensures |r| <= |s|
    ensures IsCleaned(r)
  {
    if s == [] then []
    else (if IsWordChar(s[0]) || IsSeparator(s[0]) then [s[0]] else []) + DropPunctuation(s[1..])
  }

  /** Leading whitespace removed. */
  function TrimStart(s: string): (r: string)
    ensures |r| <= |s|
    ensures forall i :: 0 <= i < |r| ==> r[i] == s[|s| - |r| + i]
    ensures r == [] || !IsSpace(r[0])
  {
    if s != [] && IsSpace(s[0]) then TrimStart(s[1..]) else s
  }

  /** Trailing whitespace removed. */
  function TrimEnd(s: string): (r: string)
    ensures |r| <= |s|
    ensures forall i :: 0 <= i < |r| ==> r[i] == s[i]
    ensures r == [] || !IsSpace(r[|r| - 1])
  {
    if s != [] && IsSpace(s[|s| - 1]) then TrimEnd(s[..|s| - 1]) else s
  }

  /** `str.strip()`: the longest all-whitespace prefix and suffix removed. */
  function Strip(s: string): (r: string)
    ensures |r| <= |s|
    ensures r == [] || (!IsSpace(r[0]) && !IsSpace(r[|r| - 1]))
  {
    TrimEnd(TrimStart(s))
  }

  /** A string without whitespace at either end is its own strip. */
  lemma StripOfTrimmed(s: string)
    requires s == [] || (!IsSpace(s[0]) && !IsSpace(s[|s| - 1]))
    ensures Strip(s) == s
  {
  }

  /** Stripping keeps a cleaned string cleaned: it only removes characters. */
  lemma StripKeepsCleaned(s: string)
    requires IsCleaned(s)
    ensures IsCleaned(Strip(s))
  {
    TrimStartKeepsCleaned(s);
    TrimEndKeepsCleaned(TrimStart(s));
  }

  lemma {:induction false} TrimStartKeepsCleaned(s: string)
    requires IsCleaned(s)
    ensures IsCleaned(TrimStart(s))
  {
    if s != [] && IsSpace(s[0]) {
      assert IsCleaned(s[1..]) by {
        forall i | 0 <= i < |s| - 1
          ensures IsWordChar(s[1..][i]) || IsSeparator(s[1..][i])
        {
          assert s[1..][i] == s[i + 1];
        }
      }
      TrimStartKeepsCleaned(s[1..]);
    }
  }

  lemma {:induction false} TrimEndKeepsCleaned(s: string)
    requires IsCleaned(s)
    ensures IsCleaned(TrimEnd(s))
  {
    if s != [] && IsSpace(s[|s| - 1]) {
      assert IsCleaned(s[..|s| - 1]);
      TrimEndKeepsCleaned(s[..|s| - 1]);
    }
  }

  function ToLowerChar(c: char): (d: char)
    ensures IsUpper(c) ==> IsLower(d)
    ensures IsUpper(c) ==> d == "abcdefghijklmnopqrstuvwxyz"[c as int - 'A' as int]
    ensures !IsUpper(c) ==> d == c
  {
    if IsUpper(c) then (c as int + 32) as char else c
  }

  /** `str.lower()` on an ASCII string. */
  function Lower(s: string): (r: string)
    ensures |r| == |s|
    ensures forall i :: 0 <= i < |s| ==> r[i] == ToLowerChar(s[i])
  {
    if s == [] then [] else [ToLowerChar(s[0])] + Lower(s[1..])
  }

  /** Leading whitespace and dashes removed. */
  function DropSeparators(s: string): (r: string)
    ensures |r| <= |s|
    ensures forall i :: 0 <= i < |r| ==> r[i] == s[|s| - |r| + i]
    ensures r == [] || !IsSeparator(r[0])
  {
    if s != [] && IsSeparator(s[0]) then DropSeparators(s[1..]) else s
  }

  /** `re.sub(r"[\s\-]+", "_", s)`: the regular expression is greedy, so each maximal run becomes one '_'. */
  function Collapse(s: string): (r: string)
    ensures forall i :: 0 <= i < |r| ==> !IsSeparator(r[i])
    decreases |s|
  {
    if s == [] then []
    else if IsSeparator(s[0]) then
      var rest := DropSeparators(s[1..]);
      "_" + Collapse(rest)
    else
      [s[0]] + Collapse(s[1..])
  }

  /** The slug of `value`, used in entity ids and in the storage key. */
  function Slugify(value: string): (slug: string)
    ensures IsSlug(slug)
  {
    var cleaned := DropPunctuation(DropNonAscii(value));
    var stripped := Strip(cleaned);
    StripKeepsCleaned(cleaned);
    var lowered := Lower(stripped);
    CollapseMakesSlug(lowered);
    Collapse(lowered)
  }

  /** Collapsing a lower-cased, cleaned string leaves only slug characters. */
  lemma {:induction false} CollapseMakesSlug(s: string)
    requires IsLoweredCleaned(s)
    ensures IsSlug(Collapse(s))
    decreases |s|
  {
    if s != [] {
      if IsSeparator(s[0]) {
        var rest := DropSeparators(s[1..]);
        assert IsLoweredCleaned(rest) by {
          forall i | 0 <= i < |rest| ensures IsSlugChar(rest[i]) || IsSeparator(rest[i]) {
            assert rest[i] == s[1..][|s| - 1 - |rest| + i];
          }
        }
        CollapseMakesSlug(rest);
        CollapseAtSeparator(s);
      } else {
        CollapseMakesSlug(s[1..]);
      }
    }
  }

  // ---------------------------------------------------------------------
  // Properties
  // ---------------------------------------------------------------------

  /** The output has no whitespace and no dash. */
  lemma SlugHasNoSeparators(value: string)
    ensures forall i :: 0 <= i < |Slugify(value)| ==> !IsSpace(Slugify(value)[i]) && Slugify(value)[i] != '-'
  {
  }

  // The filtering stages keep every character they do not remove.

  /** The ASCII stage is the identity on an ASCII string. */
  lemma {:induction false} DropNonAsciiKeepsAscii(s: string)
    requires IsAscii(s)
    ensures DropNonAscii(s) == s
  {
    if s != [] {
      assert IsAscii(s[1..]) by {
        forall i | 0 <= i < |s| - 1
          ensures s[1..][i] < '\U{80}'
        {
          assert s[1..][i] == s[i + 1];
        }
      }
      DropNonAsciiKeepsAscii(s[1..]);
    }
  }

  /** The punctuation stage is the identity on a string of word characters, whitespace and dashes. */
  lemma {:induction false} DropPunctuationKeepsCleaned(s: string)
    requires IsCleaned(s)
    ensures DropPunctuation(s) == s
  {
    if s != [] {
      assert IsCleaned(s[1..]) by {
        forall i | 0 <= i < |s| - 1
          ensures IsWordChar(s[1..][i]) || IsSeparator(s[1..][i])
        {
          assert s[1..][i] == s[i + 1];
        }
      }
      DropPunctuationKeepsCleaned(s[1..]);
    }
  }

  /** A character at or above U+0080 is deleted, not replaced, by the ASCII stage. */
  lemma DropNonAsciiDrops(a: string, c: char, b: string)
    requires c >= '\U{80}'
    ensures DropNonAscii(a + [c] + b) == DropNonAscii(a + b)
  {
    DropNonAsciiAppend(a + [c], b);
    DropNonAsciiAppend(a, [c]);
    DropNonAsciiAppend(a, b);
    assert DropNonAscii([c]) == [] by {
      assert [c][1..] == [];
    }
  }

  /** A character outside `[\w\s-]` is deleted, not replaced, by the punctuation stage. */
  lemma DropPunctuationDrops(a: string, c: char, b: string)
    requires !IsWordChar(c) && !IsSeparator(c)
    ensures DropPunctuation(a + [c] + b) == DropPunctuation(a + b)
  {
    DropPunctuationAppend(a + [c], b);
    DropPunctuationAppend(a, [c]);
    DropPunctuationAppend(a, b);
    assert DropPunctuation([c]) == [] by {
      assert [c][1..] == [];
    }
  }

  // Idempotence: every stage leaves a slug unchanged.

  lemma {:induction false} DropNonAsciiKeepsSlug(s: string)
    requires IsSlug(s)
    ensures DropNonAscii(s) == s
  {
    DropNonAsciiKeepsAscii(s);
  }

  lemma {:induction false} DropPunctuationKeepsSlug(s: string)
    requires IsSlug(s)
    ensures DropPunctuation(s) == s
  {
    DropPunctuationKeepsCleaned(s);
  }

  lemma {:induction false} LowerKeepsSlug(s: string)
    requires IsSlug(s)
    ensures Lower(s) == s
  {
    if s != [] {
      LowerKeepsSlug(s[1..]);
    }
  }

  lemma {:induction false} CollapseKeepsSlug(s: string)
    requires IsSlug(s)
    ensures Collapse(s) == s
  {
    if s != [] {
      CollapseKeepsSlug(s[1..]);
    }
  }

  /** A slug is its own slug, so `Slugify` is idempotent. */
  lemma SlugifyIdempotent(value: string)
    ensures Slugify(Slugify(value)) == Slugify(value)
  {
    var s := Slugify(value);
    DropNonAsciiKeepsSlug(s);
    DropPunctuationKeepsSlug(s);
    assert Strip(s) == s;
    LowerKeepsSlug(s);
    CollapseKeepsSlug(s);
  }

  // Outer whitespace does not matter.

  lemma {:induction false} DropNonAsciiAppend(a: string, b: string)
    ensures DropNonAscii(a + b) == DropNonAscii(a) + DropNonAscii(b)
  {
    if a != [] {
      assert (a + b)[0] == a[0] && (a + b)[1..] == a[1..] + b;
      DropNonAsciiAppend(a[1..], b);
    } else {
      assert a + b == b;
    }
  }

  lemma {:induction false} DropPunctuationAppend(a: string, b: string)
    ensures DropPunctuation(a + b) == DropPunctuation(a) + DropPunctuation(b)
  {
    if a != [] {
      assert (a + b)[0] == a[0] && (a + b)[1..] == a[1..] + b;
      DropPunctuationAppend(a[1..], b);
    } else {
      assert a + b == b;
    }
  }

  lemma {:induction false} DropNonAsciiKeepsSpace(w: string)
    requires AllSpace(w)
    ensures DropNonAscii(w) == w
  {
    if w != [] {
      DropNonAsciiKeepsSpace(w[1..]);
    }
  }

  lemma {:induction false} DropPunctuationKeepsSpace(w: string)
    requires AllSpace(w)
    ensures DropPunctuation(w) == w
  {
    if w != [] {
      DropPunctuationKeepsSpace(w[1..]);
    }
  }

  lemma {:induction false} TrimStartAppend(a: string, b: string)
    ensures TrimStart(a) == [] ==> TrimStart(a + b) == TrimStart(b)
    ensures TrimStart(a) != [] ==> TrimStart(a + b) == TrimStart(a) + b
  {
    if a == [] {
      assert a + b == b;
    } else {
      assert (a + b)[0] == a[0];
      if IsSpace(a[0]) {
        assert (a + b)[1..] == a[1..] + b;
        TrimStartAppend(a[1..], b);
      }
    }
  }

  lemma {:induction false} TrimEndAppend(a: string, b: string)
    ensures TrimEnd(b) == [] ==> TrimEnd(a + b) == TrimEnd(a)
    ensures TrimEnd(b) != [] ==> TrimEnd(a + b) == a + TrimEnd(b)
    decreases |b|
  {
    if b == [] {
      assert a + b == a;
    } else {
      var n := |b| - 1;
      assert (a + b)[|a + b| - 1] == b[n];
      if IsSpace(b[n]) {
        assert (a + b)[..|a + b| - 1] == a + b[..n];
        TrimEndAppend(a, b[..n]);
      }
    }
  }

  lemma {:induction false} TrimStartAllSpace(w: string)
    requires AllSpace(w)
    ensures TrimStart(w) == []
  {
    if w != [] {
      TrimStartAllSpace(w[1..]);
    }
  }

  lemma {:induction false} TrimEndAllSpace(w: string)
    requires AllSpace(w)
    ensures TrimEnd(w) == []
    decreases |w|
  {
    if w != [] {
      TrimEndAllSpace(w[..|w| - 1]);
    }
  }

  lemma StripSurrounded(lead: string, s: string, trail: string)
    requires AllSpace(lead) && AllSpace(trail)
    ensures Strip(lead + s + trail) == Strip(s)
  {
    assert lead + s + trail == lead + (s + trail);
    TrimStartAllSpace(lead);
    TrimEndAllSpace(trail);
    TrimStartAppend(lead, s + trail);
    TrimStartAppend(s, trail);
    if TrimStart(s) == [] {
      TrimStartAllSpace(trail);
    } else {
      TrimEndAppend(TrimStart(s), trail);
    }
  }

  /** Leading and trailing whitespace of the input does not change the slug. */
  lemma SlugifyIgnoresOuterSpace(lead: string, value: string, trail: string)
    requires AllSpace(lead) && AllSpace(trail)
    ensures Slugify(lead + value + trail) == Slugify(value)
  {
    DropNonAsciiAppend(lead + value, trail);
    DropNonAsciiAppend(lead, value);
    DropNonAsciiKeepsSpace(lead);
    DropNonAsciiKeepsSpace(trail);
    var v := DropNonAscii(value);
    DropPunctuationAppend(lead + v, trail);
    DropPunctuationAppend(lead, v);
    DropPunctuationKeepsSpace(lead);
    DropPunctuationKeepsSpace(trail);
    StripSurrounded(lead, DropPunctuation(v), trail);
  }

  // Each maximal run of whitespace and dashes becomes exactly one '_'.

  lemma {:induction false} DropSeparatorsOfRun(run: string, b: string)
    requires AllSeparators(run)
    requires b == [] || !IsSeparator(b[0])
    ensures DropSeparators(run + b) == b
  {
    if run != [] {
      assert (run + b)[1..] == run[1..] + b;
      DropSeparatorsOfRun(run[1..], b);
    }
  }

  lemma {:induction false} DropSeparatorsAppend(a: string, b: string)
    requires DropSeparators(a) != []
    ensures DropSeparators(a + b) == DropSeparators(a) + b
  {
    assert a != [];
    assert (a + b)[0] == a[0];
    if IsSeparator(a[0]) {
      assert (a + b)[1..] == a[1..] + b;
      DropSeparatorsAppend(a[1..], b);
    }
  }

  /** Collapsing distributes over a split that does not fall inside a run. */
  lemma {:induction false} CollapseAppend(x: string, y: string)
    requires x == [] || !IsSeparator(x[|x| - 1])
    ensures Collapse(x + y) == Collapse(x) + Collapse(y)
    decreases |x|, 1
  {
    if x == [] {
      assert x + y == y;
    } else if !IsSeparator(x[0]) {
      CollapseAppendAtChar(x, y);
    } else {
      CollapseAppendAtSeparator(x, y);
    }
  }

  lemma {:induction false} CollapseAppendAtChar(x: string, y: string)
    requires x != [] && !IsSeparator(x[0]) && !IsSeparator(x[|x| - 1])
    ensures Collapse(x + y) == Collapse(x) + Collapse(y)
    decreases |x|, 0
  {
    var tail := x[1..];
    assert Collapse(x + y) == [x[0]] + Collapse(tail + y) by {
      assert (x + y)[0] == x[0] && (x + y)[1..] == tail + y;
    }
    assert tail != [] ==> tail[|tail| - 1] == x[|x| - 1];
    CollapseAppend(tail, y);
    ConcatAssoc([x[0]], Collapse(tail), Collapse(y));
  }

  lemma {:induction false} CollapseAppendAtSeparator(x: string, y: string)
    requires x != [] && IsSeparator(x[0]) && !IsSeparator(x[|x| - 1])
    ensures Collapse(x + y) == Collapse(x) + Collapse(y)
    decreases |x|, 0
  {
    var tail := x[1..];
    var x' := DropSeparators(tail);
    assert x' != [] && !IsSeparator(x'[|x'| - 1]) by {
      assert tail != [] && tail[|tail| - 1] == x[|x| - 1];
      DropSeparatorsKeepsEnd(tail);
    }
    assert Collapse(x + y) == "_" + Collapse(x' + y) by {
      assert (x + y)[0] == x[0] && (x + y)[1..] == tail + y;
      CollapseAtSeparator(x + y);
      DropSeparatorsAppend(tail, y);
    }
    CollapseAtSeparator(x);
    CollapseAppend(x', y);
    ConcatAssoc("_", Collapse(x'), Collapse(y));
  }

  lemma ConcatAssoc(a: string, b: string, c: string)
    ensures a + (b + c) == (a + b) + c
  {
  }

  lemma CollapseAtSeparator(s: string)
    requires s != [] && IsSeparator(s[0])
    ensures Collapse(s) == "_" + Collapse(DropSeparators(s[1..]))
  {
  }

  /** A maximal run of whitespace and dashes between `a` and `b` becomes exactly one '_'. */
  lemma CollapseRun(a: string, run: string, b: string)
    requires run != [] && AllSeparators(run)
    requires a == [] || !IsSeparator(a[|a| - 1])
    requires b == [] || !IsSeparator(b[0])
    ensures Collapse(a + (run + b)) == Collapse(a) + ("_" + Collapse(b))
  {
    CollapseRunAlone(run, b);
    CollapseAppend(a, run + b);
  }

  lemma CollapseRunAlone(run: string, b: string)
    requires run != [] && AllSeparators(run)
    requires b == [] || !IsSeparator(b[0])
    ensures Collapse(run + b) == "_" + Collapse(b)
  {
    var s := run + b;
    assert s[0] == run[0] && s[1..] == run[1..] + b;
    DropSeparatorsOfRun(run[1..], b);
  }

  lemma {:induction false} DropSeparatorsKeepsEnd(s: string)
    requires s != [] && !IsSeparator(s[|s| - 1])
    ensures DropSeparators(s) != [] && DropSeparators(s)[|DropSeparators(s)| - 1] == s[|s| - 1]
  {
    if IsSeparator(s[0]) {
      assert |s| > 1 && s[1..][|s| - 2] == s[|s| - 1];
      DropSeparatorsKeepsEnd(s[1..]);
    }
  }

  // Letters and digits keep their order (and are lower-cased).

  /** The ASCII letters and digits of `s`, in order. */
  function Alnums(s: string): (r: string)
    ensures forall i :: 0 <= i < |r| ==> IsAlnum(r[i])
  {
    if s == [] then [] else (if IsAlnum(s[0]) then [s[0]] else []) + Alnums(s[1..])
  }

  lemma {:induction false} AlnumsAppend(a: string, b: string)
    ensures Alnums(a + b) == Alnums(a) + Alnums(b)
  {
    if a != [] {
      assert (a + b)[0] == a[0] && (a + b)[1..] == a[1..] + b;
      AlnumsAppend(a[1..], b);
    } else {
      assert a + b == b;
    }
  }

  lemma {:induction false} AlnumsDropNonAscii(s: string)
    ensures Alnums(DropNonAscii(s)) == Alnums(s)
  {
    if s != [] {
      AlnumsDropNonAscii(s[1..]);
      AlnumsAppend(if s[0] < '\U{80}' then [s[0]] else [], DropNonAscii(s[1..]));
    }
  }

  lemma {:induction false} AlnumsDropPunctuation(s: string)
    ensures Alnums(DropPunctuation(s)) == Alnums(s)
  {
    if s != [] {
      AlnumsDropPunctuation(s[1..]);
      AlnumsAppend(if IsWordChar(s[0]) || IsSeparator(s[0]) then [s[0]] else [], DropPunctuation(s[1..]));
    }
  }

  lemma {:induction false} AlnumsTrimStart(s: string)
    ensures Alnums(TrimStart(s)) == Alnums(s)
  {
    if s != [] && IsSpace(s[0]) {
      AlnumsTrimStart(s[1..]);
    }
  }

  lemma {:induction false} AlnumsTrimEnd(s: string)
    ensures Alnums(TrimEnd(s)) == Alnums(s)
    decreases |s|
  {
    if s != [] && IsSpace(s[|s| - 1]) {
      var n := |s| - 1;
      AlnumsTrimEnd(s[..n]);
      assert s == s[..n] + [s[n]];
      AlnumsAppend(s[..n], [s[n]]);
    }
  }

  lemma {:induction false} AlnumsLower(s: string)
    ensures Alnums(Lower(s)) == Lower(Alnums(s))
  {
    if s != [] {
      AlnumsLower(s[1..]);
      assert Lower(s)[1..] == Lower(s[1..]);
      AlnumsAppend(if IsAlnum(s[0]) then [s[0]] else [], Alnums(s[1..]));
    }
  }

  lemma {:induction false} AlnumsDropSeparators(s: string)
    ensures Alnums(DropSeparators(s)) == Alnums(s)
  {
    if s != [] && IsSeparator(s[0]) {
      AlnumsDropSeparators(s[1..]);
    }
  }

  lemma {:induction false} AlnumsCollapse(s: string)
    ensures Alnums(Collapse(s)) == Alnums(s)
    decreases |s|
  {
    if s != [] {
      var tail := s[1..];
      if IsSeparator(s[0]) {
        var rest := DropSeparators(tail);
        AlnumsDropSeparators(tail);
        AlnumsCollapse(rest);
        assert Collapse(s) == "_" + Collapse(rest);
        AlnumsAppend("_", Collapse(rest));
      } else {
        AlnumsCollapse(tail);
        assert Collapse(s) == [s[0]] + Collapse(tail);
        AlnumsAppend([s[0]], Collapse(tail));
      }
    }
  }

  /** The letters and digits of the slug are those of the input, in order, lower-cased. */
  lemma SlugifyKeepsAlnums(value: string)
    ensures Alnums(Slugify(value)) == Lower(Alnums(value))
  {
    var a := DropNonAscii(value);
    var c := DropPunctuation(a);
    var t := TrimStart(c);
    var st := Strip(c);
    AlnumsDropNonAscii(value);
    AlnumsDropPunctuation(a);
    AlnumsTrimStart(c);
    AlnumsTrimEnd(t);
    AlnumsLower(st);
    AlnumsCollapse(Lower(st));
  }

  /** Lower-casing leaves a string without upper-case letters unchanged. */
  lemma LowerKeepsNonUpper(s: string)
    requires forall i :: 0 <= i < |s| ==> !IsUpper(s[i])
    ensures Lower(s) == s
  {
  }

  /** The character facts the join of two slugs by a separator run has. */
  lemma JoinedSlugsFacts(a: string, run: string, b: string)
    requires a != [] && b != [] && IsSlug(a) && IsSlug(b) && AllSeparators(run)
    ensures IsAscii(a + (run + b)) && IsCleaned(a + (run + b))
    ensures forall i :: 0 <= i < |a + (run + b)| ==> !IsUpper((a + (run + b))[i])
    ensures !IsSpace((a + (run + b))[0]) && !IsSpace((a + (run + b))[|a + (run + b)| - 1])
  {
    var s := a + (run + b);
    forall i | 0 <= i < |s|
      ensures s[i] < '\U{80}' && (IsWordChar(s[i]) || IsSeparator(s[i])) && !IsUpper(s[i])
    {
      if i < |a| {
        assert s[i] == a[i];
      } else if i < |a| + |run| {
        assert s[i] == run[i - |a|];
      } else {
        assert s[i] == b[i - |a| - |run|];
      }
    }
    assert s[0] == a[0] && s[|s| - 1] == b[|b| - 1];
  }

  /**
   * Two slugs joined by a run of whitespace and dashes slugify to the two
   * slugs joined by a single underscore: the run reaches the last stage
   * intact and becomes one '_' there.
   */
  lemma SlugifyJoinsWords(a: string, run: string, b: string)
    requires a != [] && b != [] && IsSlug(a) && IsSlug(b)
    requires run != [] && AllSeparators(run)
    ensures Slugify(a + (run + b)) == a + ("_" + b)
  {
    var s := a + (run + b);
    JoinedSlugsFacts(a, run, b);
    assert DropPunctuation(DropNonAscii(s)) == s by {
      DropNonAsciiKeepsAscii(s);
      DropPunctuationKeepsCleaned(s);
    }
    assert Strip(s) == s by {
      StripOfTrimmed(s);
    }
    assert Lower(s) == s by {
      LowerKeepsNonUpper(s);
    }
    CollapseJoinedSlugs(a, run, b);
  }

  lemma CollapseJoinedSlugs(a: string, run: string, b: string)
    requires a != [] && b != [] && IsSlug(a) && IsSlug(b)
    requires run != [] && AllSeparators(run)
    ensures Collapse(a + (run + b)) == a + ("_" + b)
  {
    assert IsSlugChar(a[|a| - 1]) && IsSlugChar(b[0]);
    CollapseRun(a, run, b);
    CollapseKeepsSlug(a);
    CollapseKeepsSlug(b);
  }
}
