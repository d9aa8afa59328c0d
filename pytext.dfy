/**
 * The three Python string operations the compliance evaluator relies on:
 * `str.strip()` (blank-field checks), `str.lower()` (case-insensitive matching)
 * and the substring test `needle in haystack`.
 */
module PyText {

  /** Python's `str.isspace()` for one character: the ASCII whitespace and the
      information separators, NEL, NO-BREAK SPACE and the Unicode space separators. */
  predicate IsSpace(c: char)
  {
    var n := c as int;
    || 9 <= n <= 13
    || 28 <= n <= 32
    || n == 0x85 || n == 0xA0 || n == 0x1680
    || 0x2000 <= n <= 0x200A
    || n == 0x2028 || n == 0x2029 || n == 0x202F || n == 0x205F || n == 0x3000
  }

  /** True when every character of `s` is whitespace (vacuously for ""). */
  ghost predicate AllSpace(s: string)
  {
    forall k :: 0 <= k < |s| ==> IsSpace(s[k])
  }

  /** `r` is `s[i..]` cut to `|r|` characters, and everything cut from either
      end is whitespace. */
  ghost predicate TrimmedAt(s: string, r: string, i: int)
  {
    0 <= i && i + |r| <= |s| && r == s[i..i + |r|] && AllSpace(s[..i]) && AllSpace(s[i + |r|..])
  }

  /** Python's `s.strip()`: drops whitespace from both ends. */
  function Strip(s: string): (r: string)
    decreases |s|
  {
    if s != [] && IsSpace(s[0]) then Strip(s[1..])
    else if s != [] && IsSpace(s[|s| - 1]) then Strip(s[..|s| - 1])
    else s
  }

  /** `strip` removes whitespace from the two ends of `s`, and nothing else:
      what it returns is a slice of `s` with only whitespace on either side. */
  lemma {:induction false} StripTrims(s: string)
    ensures exists i :: TrimmedAt(s, Strip(s), i)
    decreases |s|
  {
    var r := Strip(s);
    if s != [] && IsSpace(s[0]) {
      StripTrims(s[1..]);
      var i :| TrimmedAt(s[1..], r, i);
      assert s[1..][i..i + |r|] == s[i + 1..i + 1 + |r|];
      assert s[1..][i + |r|..] == s[i + 1 + |r|..];
      assert forall k :: 0 < k < i + 1 ==> s[k] == s[1..][..i][k - 1];
      assert TrimmedAt(s, r, i + 1);
    } else if s != [] && IsSpace(s[|s| - 1]) {
      StripTrims(s[..|s| - 1]);
      var i :| TrimmedAt(s[..|s| - 1], r, i);
      assert s[..|s| - 1][i..i + |r|] == s[i..i + |r|];
      assert s[..|s| - 1][..i] == s[..i];
      assert forall k :: i + |r| <= k < |s| - 1 ==> s[k] == s[..|s| - 1][i + |r|..][k - i - |r|];
      assert TrimmedAt(s, r, i);
    } else {
      assert TrimmedAt(s, s, 0);
    }
  }

  /** What `strip` returns starts and ends with a non-whitespace character. */
  lemma {:induction false} StripEnds(s: string)
    ensures Strip(s) == [] || (!IsSpace(Strip(s)[0]) && !IsSpace(Strip(s)[|Strip(s)| - 1]))
    decreases |s|
  {
    if s != [] && IsSpace(s[0]) {
      StripEnds(s[1..]);
    } else if s != [] && IsSpace(s[|s| - 1]) {
      StripEnds(s[..|s| - 1]);
    }
  }

  /** A field is blank, as Python's `not s.strip()` decides, exactly when every
      character of it is whitespace. */
  lemma {:induction false} StripBlank(s: string)
    ensures Strip(s) == [] <==> AllSpace(s)
    decreases |s|
  {
    if s != [] && IsSpace(s[0]) {
      StripBlank(s[1..]);
      assert AllSpace(s) <==> AllSpace(s[1..]) by {
        if AllSpace(s[1..]) {
          forall k | 0 <= k < |s| ensures IsSpace(s[k]) {
            if k > 0 { assert s[k] == s[1..][k - 1]; }
          }
        }
      }
    } else if s != [] && IsSpace(s[|s| - 1]) {
      StripBlank(s[..|s| - 1]);
      assert AllSpace(s) <==> AllSpace(s[..|s| - 1]) by {
        if AllSpace(s[..|s| - 1]) {
          forall k | 0 <= k < |s| ensures IsSpace(s[k]) {
            if k < |s| - 1 { assert s[k] == s[..|s| - 1][k]; }
          }
        }
      }
    } else if s != [] {
      assert !IsSpace(s[0]);
    }
  }

  /** Case folding of one character, for the ASCII letters. */
  function LowerChar(c: char): (r: char)
  {
    if 'A' <= c <= 'Z' then (c as int + 32) as char else c
  }

  /** Python's `s.lower()`, restricted to ASCII case mapping: same length, each
      character folded on its own. */
  function Lower(s: string): (r: string)
    ensures |r| == |s|
    ensures forall i :: 0 <= i < |s| ==> r[i] == LowerChar(s[i])
  {
    seq(|s|, i requires 0 <= i < |s| => LowerChar(s[i]))
  }

  /** `word` occurs in `text` starting at position `i`. */
  ghost predicate OccursAt(text: string, word: string, i: int)
  {
    0 <= i && i + |word| <= |text| && text[i..i + |word|] == word
  }

  /** Python's substring test `word in text`. */
  function Contains(text: string, word: string): (r: bool)
    ensures r <==> exists i :: OccursAt(text, word, i)
    decreases |text|
  {
    if word <= text then
      assert OccursAt(text, word, 0);
      true
    else if text == [] then
      false
    else
      var r := Contains(text[1..], word);
      assert r ==> exists i :: OccursAt(text, word, i) by {
        if r {
          var i :| OccursAt(text[1..], word, i);
          assert text[i + 1..i + 1 + |word|] == text[1..][i..i + |word|];
          assert OccursAt(text, word, i + 1);
        }
      }
      assert (exists i :: OccursAt(text, word, i)) ==> r by {
        if exists i :: OccursAt(text, word, i) {
          var i :| OccursAt(text, word, i);
          assert i != 0;
          assert text[1..][i - 1..i - 1 + |word|] == text[i..i + |word|];
          assert OccursAt(text[1..], word, i - 1);
        }
      }
      r
  }

  /** Folding twice is folding once. */
  lemma LowerIdempotent(s: string)
    ensures Lower(Lower(s)) == Lower(s)
  {
  }

  /** A word written in lower case is found in the folded text wherever the text
      spells it in any mix of cases: `Contains` after `Lower` is case-insensitive. */
  lemma {:induction false} ContainsLowerAt(text: string, word: string, i: int)
    requires 0 <= i && i + |word| <= |text|
    requires Lower(text[i..i + |word|]) == word
    ensures Contains(Lower(text), word)
  {
    var lt := Lower(text);
    forall k | 0 <= k < |word| ensures lt[i..i + |word|][k] == word[k] {
      assert lt[i + k] == LowerChar(text[i + k]);
      assert text[i..i + |word|][k] == text[i + k];
    }
    assert OccursAt(lt, word, i);
  }
}
