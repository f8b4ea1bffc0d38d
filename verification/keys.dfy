/**
 * The key rewriting of the token-usage service, on ASCII strings:
 * `normalizeContainerKey` (camelCase to snake_case) and
 * `normalizeBreakdownKey` (drop array-index path segments, camelCase to
 * snake_case, collapse runs of underscores, drop one leading underscore).
 * Each regular-expression replacement is one recursive function.
 */
module KeyText {

  predicate IsUpper(c: char) { 'A' <= c <= 'Z' }

  predicate IsDigit(c: char) { '0' <= c <= '9' }

  function ToLower(c: char): char {
    if IsUpper(c) then (c as int - 'A' as int + 'a' as int) as char else c
  }

  // ---------------------------------------------------------------------------
  // Shapes of a normalised key

  predicate NoUpper(s: string) {
    forall i :: 0 <= i < |s| ==> !IsUpper(s[i])
  }

  /** No "__" anywhere. */
  predicate NoDoubleUnderscore(s: string)
    decreases |s|
  {
    |s| < 2 || (!(s[0] == '_' && s[1] == '_') && NoDoubleUnderscore(s[1..]))
  }

  /** No '.' immediately followed by a digit. */
  predicate NoIndexSegment(s: string)
    decreases |s|
  {
    |s| < 2 || (!(s[0] == '.' && IsDigit(s[1])) && NoIndexSegment(s[1..]))
  }

  predicate StartsWith(s: string, c: char) {
    |s| > 0 && s[0] == c
  }

  // ---------------------------------------------------------------------------
  // .replace(/\.(\d+)/g, '')

  function DropDigits(s: string): (r: string)
    ensures |r| <= |s| && r == s[|s| - |r|..]
    ensures |r| == 0 || !IsDigit(r[0])
    decreases |s|
  {
    if |s| > 0 && IsDigit(s[0]) then DropDigits(s[1..]) else s
  }

  /** Every '.' followed by a run of digits is removed, together with the whole run. */
  function StripIndexSegments(s: string): (r: string)
    ensures NoIndexSegment(r)
    ensures (|s| == 0 || !IsDigit(s[0])) ==> (|r| == 0 || !IsDigit(r[0]))
    decreases |s|
  {
    if |s| == 0 then ""
    else if |s| >= 2 && s[0] == '.' && IsDigit(s[1]) then StripIndexSegments(DropDigits(s[1..]))
    else
      var rest := StripIndexSegments(s[1..]);
      assert ([s[0]] + rest)[1..] == rest;
      [s[0]] + rest
  }

  // ---------------------------------------------------------------------------
  // .replace(/([A-Z])/g, '_$1') and .toLowerCase()

  /** An underscore is inserted in front of every upper-case letter. */
  function MarkUpper(s: string): (r: string)
    ensures |r| == 0 <==> |s| == 0
    ensures |s| > 0 ==> r[0] == (if IsUpper(s[0]) then '_' else s[0])
    decreases |s|
  {
    if |s| == 0 then ""
    else (if IsUpper(s[0]) then ['_', s[0]] else [s[0]]) + MarkUpper(s[1..])
  }

  function Lower(s: string): (r: string)
    ensures |r| == |s|
    ensures forall i :: 0 <= i < |s| ==> r[i] == ToLower(s[i])
    ensures NoUpper(r)
  {
    seq(|s|, i requires 0 <= i < |s| => ToLower(s[i]))
  }

  /**
   * `normalizeContainerKey`: camelCase to snake_case, then lower case.
   * Underscores are not collapsed. The result has no capital; a key with a
   * capital grows by at least one underscore, and a key without one is left
   * as it is.
   */
  function CamelToSnake(s: string): (r: string)
    ensures NoUpper(r)
    ensures |r| >= |s|
    ensures (exists k :: 0 <= k < |s| && IsUpper(s[k])) ==> |r| > |s|
    ensures NoUpper(s) ==> r == s
  {
    var r := Lower(MarkUpper(s));
    MarkUpperNotShorter(s);
    assert (exists k :: 0 <= k < |s| && IsUpper(s[k])) ==> |r| > |s| by {
      if exists k :: 0 <= k < |s| && IsUpper(s[k]) {
        var k :| 0 <= k < |s| && IsUpper(s[k]);
        MarkUpperLonger(s, k);
      }
    }
    assert NoUpper(s) ==> r == s by {
      if NoUpper(s) {
        MarkUpperIdentity(s);
      }
    }
    r
  }

  /** Marking capitals never shortens a key, and lengthens one that has a capital. */
  lemma {:induction false} MarkUpperLonger(s: string, k: int)
    requires 0 <= k < |s| && IsUpper(s[k])
    ensures |MarkUpper(s)| > |s|
    decreases |s|
  {
    if k > 0 {
      MarkUpperLonger(s[1..], k - 1);
    } else {
      MarkUpperNotShorter(s[1..]);
    }
  }

  lemma {:induction false} MarkUpperNotShorter(s: string)
    ensures |MarkUpper(s)| >= |s|
    decreases |s|
  {
    if |s| > 0 {
      MarkUpperNotShorter(s[1..]);
    }
  }


  // ---------------------------------------------------------------------------
  // .replace(/__+/g, '_') and .replace(/^_/, '')

  function DropUnderscores(s: string): (r: string)
    ensures |r| <= |s| && r == s[|s| - |r|..]
    ensures |r| == 0 || r[0] != '_'
    decreases |s|
  {
    if |s| > 0 && s[0] == '_' then DropUnderscores(s[1..]) else s
  }

  /** Every run of underscores becomes a single underscore. */
  function CollapseUnderscores(s: string): (r: string)
    ensures NoDoubleUnderscore(r)
    ensures |r| == 0 <==> |s| == 0
    ensures |s| > 0 ==> r[0] == s[0]
    decreases |s|
  {
    if |s| == 0 then ""
    else if s[0] == '_' then
      var rest := CollapseUnderscores(DropUnderscores(s[1..]));
      assert (['_'] + rest)[1..] == rest;
      ['_'] + rest
    else
      var rest := CollapseUnderscores(s[1..]);
      assert ([s[0]] + rest)[1..] == rest;
      [s[0]] + rest
  }

  function StripLeadingUnderscore(s: string): (r: string)
    ensures r == s || (StartsWith(s, '_') && r == s[1..])
  {
    if StartsWith(s, '_') then s[1..] else s
  }

  /**
   * `normalizeBreakdownKey`. The result has no upper-case letter, no "__",
   * does not start with '_', and has no '.' followed by a digit.
   */
  function NormalizeBreakdownKey(key: string): (r: string)
    ensures NoUpper(r)
    ensures NoDoubleUnderscore(r)
    ensures !StartsWith(r, '_')
    ensures NoIndexSegment(r)
  {
    var stripped := StripIndexSegments(key);
    var lowered := Lower(MarkUpper(stripped));
    var collapsed := CollapseUnderscores(lowered);
    MarkUpperKeepsIndexFree(stripped);
    LowerKeepsIndexFree(MarkUpper(stripped));
    CollapseKeeps(lowered);
    SuffixKeeps(collapsed);
    StripLeadingUnderscore(collapsed)
  }

  // ---------------------------------------------------------------------------
  // The later rewrites keep what the earlier ones established

  lemma {:induction false} MarkUpperKeepsIndexFree(s: string)
    requires NoIndexSegment(s)
    ensures NoIndexSegment(MarkUpper(s))
    decreases |s|
  {
    if |s| > 0 {
      MarkUpperKeepsIndexFree(s[1..]);
      var rest := MarkUpper(s[1..]);
      if IsUpper(s[0]) {
        assert (['_', s[0]] + rest)[1..] == [s[0]] + rest;
        assert ([s[0]] + rest)[1..] == rest;
      } else {
        assert ([s[0]] + rest)[1..] == rest;
      }
    }
  }

  lemma {:induction false} LowerKeepsIndexFree(s: string)
    requires NoIndexSegment(s)
    ensures NoIndexSegment(Lower(s))
    decreases |s|
  {
    if |s| >= 2 {
      LowerKeepsIndexFree(s[1..]);
      assert Lower(s)[1..] == Lower(s[1..]);
    }
  }

  /** Collapsing underscores keeps a string free of upper case and of index segments. */
  lemma {:induction false} CollapseKeeps(s: string)
    ensures NoUpper(s) ==> NoUpper(CollapseUnderscores(s))
    ensures NoIndexSegment(s) ==> NoIndexSegment(CollapseUnderscores(s))
    decreases |s|
  {
    if |s| > 0 {
      var r := CollapseUnderscores(s);
      if s[0] == '_' {
        var d := DropUnderscores(s[1..]);
        CollapseKeeps(d);
        NoUpperSuffix(s, |s| - |d|);
        NoIndexSuffix(s, |s| - |d|);
        assert r[1..] == CollapseUnderscores(d);
      } else {
        CollapseKeeps(s[1..]);
        NoUpperSuffix(s, 1);
        assert r[1..] == CollapseUnderscores(s[1..]);
      }
    }
  }

  lemma NoUpperSuffix(s: string, k: int)
    requires 0 <= k <= |s|
    ensures NoUpper(s) ==> NoUpper(s[k..])
  {
  }

  lemma {:induction false} NoIndexSuffix(s: string, k: int)
    requires 0 <= k <= |s|
    ensures NoIndexSegment(s) ==> NoIndexSegment(s[k..])
    decreases k
  {
    if k > 0 && |s| >= 2 {
      NoIndexSuffix(s[1..], k - 1);
      assert s[1..][k - 1..] == s[k..];
    }
  }

  lemma {:induction false} NoDoubleSuffix(s: string, k: int)
    requires 0 <= k <= |s|
    ensures NoDoubleUnderscore(s) ==> NoDoubleUnderscore(s[k..])
    decreases k
  {
    if k > 0 && |s| >= 2 {
      NoDoubleSuffix(s[1..], k - 1);
      assert s[1..][k - 1..] == s[k..];
    }
  }

  /** Dropping the leading underscore keeps every shape the collapsed key has. */
  lemma SuffixKeeps(s: string)
    requires NoDoubleUnderscore(s)
    ensures NoUpper(s) ==> NoUpper(StripLeadingUnderscore(s))
    ensures NoIndexSegment(s) ==> NoIndexSegment(StripLeadingUnderscore(s))
    ensures NoDoubleUnderscore(StripLeadingUnderscore(s))
    ensures !StartsWith(StripLeadingUnderscore(s), '_')
  {
    if StartsWith(s, '_') {
      NoUpperSuffix(s, 1);
      NoIndexSuffix(s, 1);
      NoDoubleSuffix(s, 1);
    }
  }

  // ---------------------------------------------------------------------------
  // Each rewrite is the identity on strings that already have its shape

  lemma {:induction false} StripIndexIdentity(s: string)
    requires NoIndexSegment(s)
    ensures StripIndexSegments(s) == s
    decreases |s|
  {
    if |s| > 0 {
      NoIndexSuffix(s, 1);
      StripIndexIdentity(s[1..]);
    }
  }

  lemma {:induction false} MarkUpperIdentity(s: string)
    requires NoUpper(s)
    ensures MarkUpper(s) == s
    decreases |s|
  {
    if |s| > 0 {
      NoUpperSuffix(s, 1);
      MarkUpperIdentity(s[1..]);
    }
  }

  lemma {:induction false} CollapseIdentity(s: string)
    requires NoDoubleUnderscore(s)
    ensures CollapseUnderscores(s) == s
    decreases |s|
  {
    if |s| > 0 {
      NoDoubleSuffix(s, 1);
      CollapseIdentity(s[1..]);
      if s[0] == '_' {
        assert DropUnderscores(s[1..]) == s[1..];
      }
    }
  }

  /** A key that already has every shape of a normalised key is left as it is. */
  lemma NormalizeFixed(key: string)
    requires NoUpper(key) && NoDoubleUnderscore(key) && NoIndexSegment(key) && !StartsWith(key, '_')
    ensures NormalizeBreakdownKey(key) == key
  {
    StripIndexIdentity(key);
    MarkUpperIdentity(key);
    assert Lower(key) == key;
    CollapseIdentity(key);
  }

  /** Normalising a normalised key changes nothing. */
  lemma NormalizeIdempotent(key: string)
    ensures NormalizeBreakdownKey(NormalizeBreakdownKey(key)) == NormalizeBreakdownKey(key)
  {
    NormalizeFixed(NormalizeBreakdownKey(key));
  }

  /** The recursive shapes, read position by position. */
  lemma {:induction false} NoDoubleByIndex(s: string)
    requires forall i :: 0 <= i < |s| - 1 ==> !(s[i] == '_' && s[i + 1] == '_')
    ensures NoDoubleUnderscore(s)
    decreases |s|
  {
    if |s| >= 2 {
      var t := s[1..];
      assert forall i :: 0 <= i < |t| ==> t[i] == s[i + 1];
      NoDoubleByIndex(s[1..]);
    }
  }

  lemma {:induction false} NoIndexByIndex(s: string)
    requires forall i :: 0 <= i < |s| - 1 ==> !(s[i] == '.' && IsDigit(s[i + 1]))
    ensures NoIndexSegment(s)
    decreases |s|
  {
    if |s| >= 2 {
      var t := s[1..];
      assert forall i :: 0 <= i < |t| ==> t[i] == s[i + 1];
      NoIndexByIndex(s[1..]);
    }
  }

  /** Marking upper-case letters works character by character, so it distributes over concatenation. */
  lemma {:induction false} MarkUpperAppend(a: string, b: string)
    ensures MarkUpper(a + b) == MarkUpper(a) + MarkUpper(b)
    decreases |a|
  {
    if |a| == 0 {
      assert a + b == b;
    } else {
      assert (a + b)[1..] == a[1..] + b;
      MarkUpperAppend(a[1..], b);
    }
  }

  // ---------------------------------------------------------------------------
  // Keys whose normal form can be read off

  /** A snake_case key that already has every normalised shape, checked position by position. */
  lemma SnakeKeyIsNormal(key: string)
    requires NoUpper(key)
    requires forall i :: 0 <= i < |key| - 1 ==> !(key[i] == '_' && key[i + 1] == '_')
    requires forall i :: 0 <= i < |key| - 1 ==> !(key[i] == '.' && IsDigit(key[i + 1]))
    requires !StartsWith(key, '_')
    ensures NormalizeBreakdownKey(key) == key
  {
    NoDoubleByIndex(key);
    NoIndexByIndex(key);
    NormalizeFixed(key);
  }

  predicate LowerWord(s: string) {
    forall i :: 0 <= i < |s| ==> 'a' <= s[i] <= 'z'
  }

  lemma MarkCapital(x: char, word: string)
    requires IsUpper(x) && LowerWord(word)
    ensures MarkUpper([x] + word) == ['_', x] + word
  {
    assert ([x] + word)[1..] == word;
    MarkUpperIdentity(word);
  }

  lemma CamelOneMarked(a: string, x: char, b: string)
    requires LowerWord(a) && LowerWord(b) && IsUpper(x)
    ensures MarkUpper(a + [x] + b) == a + ['_', x] + b
  {
    assert a + [x] + b == a + ([x] + b);
    MarkUpperAppend(a, [x] + b);
    MarkUpperIdentity(a);
    MarkCapital(x, b);
    assert a + (['_', x] + b) == a + ['_', x] + b;
  }

  lemma CamelMarked(a: string, x: char, b: string, y: char, c: string)
    requires LowerWord(a) && LowerWord(b) && LowerWord(c) && IsUpper(x) && IsUpper(y)
    ensures MarkUpper(a + [x] + b + [y] + c) == a + ['_', x] + b + ['_', y] + c
  {
    var head := a + [x] + b;
    assert a + [x] + b + [y] + c == head + ([y] + c);
    MarkUpperAppend(head, [y] + c);
    CamelOneMarked(a, x, b);
    MarkCapital(y, c);
    assert a + ['_', x] + b + (['_', y] + c) == a + ['_', x] + b + ['_', y] + c;
  }

  lemma CamelLowered(a: string, x: char, b: string, y: char, c: string)
    requires LowerWord(a) && LowerWord(b) && LowerWord(c) && IsUpper(x) && IsUpper(y)
    ensures Lower(a + ['_', x] + b + ['_', y] + c) == a + ['_', ToLower(x)] + b + ['_', ToLower(y)] + c
  {
  }

  lemma CamelShapes(a: string, x: char, b: string, y: char, c: string)
    requires LowerWord(a) && LowerWord(b) && LowerWord(c) && IsUpper(x) && IsUpper(y)
    ensures NoIndexSegment(a + [x] + b + [y] + c)
    ensures NoDoubleUnderscore(a + ['_', ToLower(x)] + b + ['_', ToLower(y)] + c)
  {
    NoIndexByIndex(a + [x] + b + [y] + c);
    NoDoubleByIndex(a + ['_', ToLower(x)] + b + ['_', ToLower(y)] + c);
  }

  /**
   * A camelCase key of three lower-case words joined by two capitals becomes
   * the snake_case key: an underscore before each capital, then lower case.
   */
  lemma NormalizeCamelCase(a: string, x: char, b: string, y: char, c: string)
    requires |a| > 0 && LowerWord(a) && LowerWord(b) && LowerWord(c) && IsUpper(x) && IsUpper(y)
    ensures NormalizeBreakdownKey(a + [x] + b + [y] + c) == a + ['_', ToLower(x)] + b + ['_', ToLower(y)] + c
  {
    var key := a + [x] + b + [y] + c;
    var snake := a + ['_', ToLower(x)] + b + ['_', ToLower(y)] + c;
    CamelShapes(a, x, b, y, c);
    StripIndexIdentity(key);
    CamelMarked(a, x, b, y, c);
    CamelLowered(a, x, b, y, c);
    CollapseIdentity(snake);
  }

  // ---------------------------------------------------------------------------
  // Dotted paths

  /** `path.join('.')`. */
  function Join(path: seq<string>): string
    decreases |path|
  {
    if |path| == 0 then ""
    else if |path| == 1 then path[0]
    else path[0] + "." + Join(path[1..])
  }

  /** `key.split('.').pop()`: everything after the last '.', or the whole key when it has none. */
  function LastSegment(key: string): string
    decreases |key|
  {
    if |key| == 0 || key[|key| - 1] == '.' then ""
    else LastSegment(key[..|key| - 1]) + [key[|key| - 1]]
  }

  /** A dot-free key is its own last segment. */
  lemma {:induction false} LastSegmentNoDot(key: string)
    requires forall i :: 0 <= i < |key| ==> key[i] != '.'
    ensures LastSegment(key) == key
    decreases |key|
  {
    if |key| > 0 {
      var init := key[..|key| - 1];
      LastSegmentNoDot(init);
      assert init + [key[|key| - 1]] == key;
    }
  }

  /** The last segment is what follows the last dot. */
  lemma {:induction false} LastSegmentAfterDot(prefix: string, segment: string)
    requires forall i :: 0 <= i < |segment| ==> segment[i] != '.'
    ensures LastSegment(prefix + "." + segment) == segment
    decreases |segment|
  {
    var key := prefix + "." + segment;
    if |segment| > 0 {
      var init := segment[..|segment| - 1];
      assert key[..|key| - 1] == prefix + "." + init;
      assert key[|key| - 1] == segment[|segment| - 1];
      LastSegmentAfterDot(prefix, init);
      assert init + [segment[|segment| - 1]] == segment;
    } else {
      assert key[|key| - 1] == '.';
    }
  }

  /** The decimal digits of `n` (`String(i)`). */
  function NatToString(n: nat): (r: string)
    ensures |r| > 0
    decreases n
  {
    var d := ['0' + (n % 10) as char];
    if n < 10 then d else NatToString(n / 10) + d
  }
}
