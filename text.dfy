/**
 * The JavaScript string operations the application relies on, over `string` (a sequence of
 * UTF-16 code units in JavaScript, of `char` here): `toLowerCase`, `toUpperCase`, `trim`,
 * `startsWith`, `includes`, `split` on one character and `replace` of the first occurrence.
 */
module Text {

  /**
   * `toLowerCase` on one code unit, for the ASCII and Latin-1 letters and for the two
   * capitals outside Latin-1 that Latin-1 letters upper-case to: 'Ÿ' (U+0178) and the
   * Greek 'Μ' (U+039C). Every other code unit is left as it is, although JavaScript maps
   * many letters outside Latin-1 too.
   */
  function LowerChar(c: char): char {
    if 'A' <= c <= 'Z' then (c as int + 32) as char
    else if 'À' <= c <= 'Þ' && c != '×' then (c as int + 32) as char
    else if c == '\U{178}' then 'ÿ'
    else if c == '\U{39C}' then '\U{3BC}'
    else c
  }

  /**
   * `toUpperCase` on one code unit, for the ASCII and Latin-1 letters: 'ÿ' becomes 'Ÿ'
   * (U+0178) and the micro sign 'µ' the Greek 'Μ' (U+039C). 'ß' is left to `UpperOf`.
   * Every other code unit is left as it is (JavaScript maps, for one, 'ı' and 'ſ' too).
   */
  function UpperChar(c: char): char {
    if 'a' <= c <= 'z' then (c as int - 32) as char
    else if 'à' <= c <= 'þ' && c != '÷' then (c as int - 32) as char
    else if c == 'ÿ' then '\U{178}'
    else if c == '\U{B5}' then '\U{39C}'
    else c
  }

  function Lower(s: string): (r: string)
    ensures |r| == |s|
  {
    seq(|s|, i requires 0 <= i < |s| => LowerChar(s[i]))
  }

  /** `toUpperCase` of one code unit: 'ß' has no one-letter capital and becomes "SS". */
  function UpperOf(c: char): string {
    if c == 'ß' then "SS" else [UpperChar(c)]
  }

  /** `toUpperCase`; the result is longer than the input by one for every 'ß'. */
  function Upper(s: string): (r: string)
    ensures |r| >= |s|
    ensures s == [] ==> r == []
  {
    if s == [] then [] else UpperOf(s[0]) + Upper(s[1..])
  }

  /** ECMAScript WhiteSpace and LineTerminator code points, the set `trim` removes. */
  predicate IsSpace(c: char) {
    || c == ' ' || c == '\t' || c == '\n' || c == '\r' || c == '\U{B}' || c == '\U{C}'
    || c == '\U{A0}' || c == '\U{1680}' || ('\U{2000}' <= c <= '\U{200A}')
    || c == '\U{2028}' || c == '\U{2029}' || c == '\U{202F}' || c == '\U{205F}'
    || c == '\U{3000}' || c == '\U{FEFF}'
  }

  function TrimStart(s: string): (r: string)
    ensures |r| <= |s|
    ensures r == s[|s| - |r|..]
    ensures r == [] || !IsSpace(r[0])
    ensures forall i :: 0 <= i < |s| - |r| ==> IsSpace(s[i])
  {
    if s != [] && IsSpace(s[0]) then TrimStart(s[1..]) else s
  }

  function TrimEnd(s: string): (r: string)
    ensures |r| <= |s|
    ensures r == s[..|r|]
    ensures r == [] || !IsSpace(r[|r| - 1])
    ensures forall i :: |r| <= i < |s| ==> IsSpace(s[i])
  {
    if s != [] && IsSpace(s[|s| - 1]) then TrimEnd(s[..|s| - 1]) else s
  }

  /** `trim`: drops leading and trailing white space. */
  function Trim(s: string): string {
    TrimEnd(TrimStart(s))
  }

  /** Empty or white space only. */
  predicate Blank(s: string) {
    forall i :: 0 <= i < |s| ==> IsSpace(s[i])
  }

  predicate StartsWith(s: string, p: string) {
    |p| <= |s| && s[..|p|] == p
  }

  /** `s.includes(t)`: t occurs in s at some position (the empty string occurs everywhere). */
  predicate Includes(s: string, t: string)
    decreases |s|
  {
    StartsWith(s, t) || (s != [] && Includes(s[1..], t))
  }

  /** `s.replace(p, "")` with a string pattern: removes the first occurrence of p, if any. */
  function RemoveFirst(s: string, p: string): (r: string)
    decreases |s|
  {
    if StartsWith(s, p) then s[|p|..]
    else if s == [] then s
    else [s[0]] + RemoveFirst(s[1..], p)
  }

  /** `s.split(c)` for a one-character separator: the pieces between the separators. */
  function Split(s: string, c: char): (r: seq<string>)
    ensures |r| >= 1
    ensures forall k :: 0 <= k < |r| ==> c !in r[k]
    decreases |s|
  {
    if c !in s then [s]
    else
      var k := FirstIndex(s, c);
      [s[..k]] + Split(s[k + 1..], c)
  }

  /** The position of the first occurrence of c in s. */
  function FirstIndex(s: string, c: char): (k: nat)
    requires c in s
    ensures k < |s| && s[k] == c && c !in s[..k]
  {
    if s[0] == c then 0 else 1 + FirstIndex(s[1..], c)
  }

  // ---------------------------------------------------------------- lemmas

  lemma LowerIdempotent(s: string)
    ensures Lower(Lower(s)) == Lower(s)
  {
    assert forall i :: 0 <= i < |s| ==> LowerChar(LowerChar(s[i])) == LowerChar(s[i]);
  }

  lemma LowerConcat(a: string, b: string)
    ensures Lower(a + b) == Lower(a) + Lower(b)
  {
  }

  /** Lower-casing only touches letters, so it neither creates nor removes white space. */
  lemma LowerKeepsSpace(c: char)
    ensures IsSpace(LowerChar(c)) == IsSpace(c)
  {
  }

  lemma {:induction false} TrimStartLower(s: string)
    ensures TrimStart(Lower(s)) == Lower(TrimStart(s))
    decreases |s|
  {
    if s != [] {
      LowerKeepsSpace(s[0]);
      if IsSpace(s[0]) {
        assert Lower(s)[1..] == Lower(s[1..]);
        TrimStartLower(s[1..]);
      }
    }
  }

  lemma {:induction false} TrimEndLower(s: string)
    ensures TrimEnd(Lower(s)) == Lower(TrimEnd(s))
    decreases |s|
  {
    if s != [] {
      LowerKeepsSpace(s[|s| - 1]);
      if IsSpace(s[|s| - 1]) {
        assert Lower(s)[..|s| - 1] == Lower(s[..|s| - 1]);
        TrimEndLower(s[..|s| - 1]);
      }
    }
  }

  /** Trimming and lower-casing commute. */
  lemma TrimLower(s: string)
    ensures Trim(Lower(s)) == Lower(Trim(s))
  {
    TrimStartLower(s);
    TrimEndLower(TrimStart(s));
  }

  lemma {:induction false} TrimIdempotent(s: string)
    ensures Trim(Trim(s)) == Trim(s)
  {
    var t := Trim(s);
    var u := TrimStart(s);
    assert t == TrimEnd(u);
    if t != [] {
      // t starts where u starts, and u does not start with white space
      assert t[0] == u[0];
      assert TrimStart(t) == t;
      assert TrimEnd(t) == t;
    }
  }

  /** t occurs in s at position i. */
  predicate OccursAt(s: string, t: string, i: int) {
    0 <= i && i + |t| <= |s| && s[i..i + |t|] == t
  }

  lemma {:induction false} IncludesAt(s: string, t: string, i: nat)
    requires OccursAt(s, t, i)
    ensures Includes(s, t)
    decreases i
  {
    if i > 0 {
      assert s[1..][i - 1..i - 1 + |t|] == t;
      IncludesAt(s[1..], t, i - 1);
    }
  }

  lemma {:induction false} IncludesWitness(s: string, t: string) returns (i: nat)
    requires Includes(s, t)
    ensures OccursAt(s, t, i)
    decreases |s|
  {
    if StartsWith(s, t) {
      i := 0;
    } else {
      var j := IncludesWitness(s[1..], t);
      assert s[1..][j..j + |t|] == s[j + 1..j + 1 + |t|];
      i := j + 1;
    }
  }

  /** `includes` means: occurs at some position, in both directions. */
  lemma IncludesIff(s: string, t: string)
    ensures Includes(s, t) <==> exists i :: OccursAt(s, t, i)
  {
    if Includes(s, t) {
      var i := IncludesWitness(s, t);
    }
    if exists i :: OccursAt(s, t, i) {
      var i :| OccursAt(s, t, i);
      IncludesAt(s, t, i);
    }
  }

  /** An included string is no longer than the including one, and equal when as long. */
  lemma IncludesBounds(s: string, t: string)
    ensures Includes(s, t) ==> |t| <= |s| && (|t| == |s| ==> s == t)
  {
    if Includes(s, t) {
      var i := IncludesWitness(s, t);
    }
  }

  /** Trimming a blank string leaves nothing at either end. */
  lemma {:induction false} BlankTrimsAway(s: string)
    ensures Blank(s) ==> TrimStart(s) == [] && TrimEnd(s) == []
  {
    if Blank(s) && s != [] {
      assert Blank(s[1..]) && Blank(s[..|s| - 1]);
      BlankTrimsAway(s[1..]);
      BlankTrimsAway(s[..|s| - 1]);
    }
  }

  /** `!s.trim()` holds exactly for the blank strings. */
  lemma TrimEmptyIffBlank(s: string)
    ensures Trim(s) == "" <==> Blank(s)
  {
    BlankTrimsAway(s);
  }

  /**
   * Latin-1 text without 'ß' and 'µ': the text on which lower-casing forgets an upper-casing.
   * 'ß' upper-cases to "SS" and the micro sign 'µ' to the Greek 'Μ', whose lower case is 'μ';
   * outside Latin-1 JavaScript has more such letters ('ı', 'ſ', 'İ', final 'ς', ...), whose
   * mappings are not modelled.
   */
  predicate FoldsBack(s: string) {
    forall i :: 0 <= i < |s| ==> s[i] <= '\U{FF}' && s[i] != 'ß' && s[i] != '\U{B5}'
  }

  /** Lower-casing forgets an upper-casing on text that folds back. */
  lemma {:induction false} LowerUpper(s: string)
    requires FoldsBack(s)
    ensures Lower(Upper(s)) == Lower(s)
  {
    if s != [] {
      var c, t := s[0], s[1..];
      assert s == [c] + t;
      assert FoldsBack(t) by {
        assert forall i :: 0 <= i < |t| ==> t[i] == s[i + 1];
      }
      LowerUpper(t);
      LowerConcat(UpperOf(c), Upper(t));
      LowerConcat([c], t);
      assert Lower(UpperOf(c)) == [LowerChar(c)];
    }
  }

  /** The two exceptions: "ß" comes back as "ss", "µ" as the Greek "μ". */
  lemma LowerUpperExceptions()
    ensures Lower(Upper("ß")) == "ss"
    ensures Lower(Upper("\U{B5}")) == "\U{3BC}"
  {
    assert Upper("ß") == "SS" + Upper("");
    assert Upper("\U{B5}") == "\U{39C}" + Upper("");
  }

  /** Leading white space is all `trimStart` drops. */
  lemma {:induction false} TrimStartBlankPrefix(pre: string, y: string)
    requires Blank(pre)
    ensures TrimStart(pre + y) == TrimStart(y)
  {
    if pre != [] {
      var s := pre + y;
      assert s[0] == pre[0] && IsSpace(s[0]);
      assert s[1..] == pre[1..] + y;
      assert TrimStart(s) == TrimStart(s[1..]);
      assert Blank(pre[1..]) by {
        forall i | 0 <= i < |pre| - 1 ensures IsSpace(pre[1..][i]) {
          assert pre[1..][i] == pre[i + 1];
        }
      }
      TrimStartBlankPrefix(pre[1..], y);
    } else {
      assert pre + y == y;
    }
  }

  /** Trailing white space is all `trimEnd` drops. */
  lemma {:induction false} TrimEndBlankSuffix(y: string, post: string)
    requires Blank(post)
    ensures TrimEnd(y + post) == TrimEnd(y)
  {
    if post != [] {
      var s := y + post;
      var n := |s|;
      assert s[n - 1] == post[|post| - 1] && IsSpace(s[n - 1]);
      assert s[..n - 1] == y + post[..|post| - 1];
      assert TrimEnd(s) == TrimEnd(s[..n - 1]);
      var q := post[..|post| - 1];
      assert Blank(q) by {
        forall i | 0 <= i < |q| ensures IsSpace(q[i]) {
          assert q[i] == post[i];
        }
      }
      TrimEndBlankSuffix(y, q);
    } else {
      assert y + post == y;
    }
  }

  /** `trimStart` of a concatenation stops inside the first part unless that part is blank. */
  lemma {:induction false} TrimStartAppend(x: string, post: string)
    ensures !Blank(x) ==> TrimStart(x + post) == TrimStart(x) + post
    ensures Blank(x) ==> TrimStart(x + post) == TrimStart(post)
  {
    if Blank(x) {
      TrimStartBlankPrefix(x, post);
    } else if IsSpace(x[0]) {
      assert (x + post)[0] == x[0] && (x + post)[1..] == x[1..] + post;
      assert !Blank(x[1..]) by {
        var i :| 0 <= i < |x| && !IsSpace(x[i]);
        assert x[1..][i - 1] == x[i];
      }
      TrimStartAppend(x[1..], post);
    } else {
      assert (x + post)[0] == x[0];
    }
  }

  /** `trim` ignores white space added around a string. */
  lemma TrimPadding(pre: string, x: string, post: string)
    requires Blank(pre) && Blank(post)
    ensures Trim(pre + x + post) == Trim(x)
  {
    assert pre + x + post == pre + (x + post);
    TrimStartBlankPrefix(pre, x + post);
    TrimStartAppend(x, post);
    if Blank(x) {
      BlankTrimsAway(post);
      BlankTrimsAway(x);
    } else {
      TrimEndBlankSuffix(TrimStart(x), post);
    }
  }

  /** Every character of an included string occurs in the including one. */
  lemma IncludedCharsOccur(s: string, t: string, c: char)
    ensures Includes(s, t) && c in t ==> c in s
  {
    if Includes(s, t) && c in t {
      var i := IncludesWitness(s, t);
      var k :| 0 <= k < |t| && t[k] == c;
      assert s[i + k] == s[i..i + |t|][k];
    }
  }

  /** Splitting a string made of a separator-free piece, the separator and a rest. */
  lemma SplitCons(a: string, c: char, b: string)
    requires c !in a
    ensures Split(a + [c] + b, c) == [a] + Split(b, c)
  {
    var s := a + [c] + b;
    assert s[|a|] == c;
    var k := FirstIndex(s, c);
    assert s[..|a|] == a;
    assert k == |a| by {
      assert forall j :: 0 <= j < |a| ==> s[j] != c;
    }
    assert s[k + 1..] == b;
  }

  lemma SplitNone(a: string, c: char)
    requires c !in a
    ensures Split(a, c) == [a]
  {
  }

  lemma RemoveFirstPrefix(p: string, s: string)
    ensures RemoveFirst(p + s, p) == s
  {
    assert (p + s)[..|p|] == p;
  }

  /** `trim` keeps every character that is not white space. */
  lemma TrimKeepsNonSpace(s: string, c: char)
    requires !IsSpace(c)
    ensures c in Trim(s) <==> c in s
  {
    TrimStartKeepsNonSpace(s, c);
    TrimEndKeepsNonSpace(TrimStart(s), c);
  }

  lemma TrimStartKeepsNonSpace(s: string, c: char)
    requires !IsSpace(c)
    ensures c in TrimStart(s) <==> c in s
  {
    SpacePrefixKeeps(s, |s| - |TrimStart(s)|, c);
  }

  /** Dropping a white-space prefix keeps every other character. */
  lemma SpacePrefixKeeps(s: string, d: nat, c: char)
    requires d <= |s| && !IsSpace(c)
    requires forall i :: 0 <= i < d ==> IsSpace(s[i])
    ensures c in s[d..] <==> c in s
  {
    var p := s[..d];
    assert s == p + s[d..];
    assert c !in p by {
      assert forall i :: 0 <= i < |p| ==> IsSpace(p[i]);
    }
  }

  lemma TrimEndKeepsNonSpace(s: string, c: char)
    requires !IsSpace(c)
    ensures c in TrimEnd(s) <==> c in s
  {
    var t := TrimEnd(s);
    if c in s {
      var i :| 0 <= i < |s| && s[i] == c;
      assert i < |t|;
      assert t[i] == s[i];
    }
    if c in t {
      var j :| 0 <= j < |t| && t[j] == c;
      assert s[j] == t[j];
    }
  }

  /** Lower-casing neither creates nor removes a 'ß'. */
  lemma LowerKeepsSharpS(s: string)
    ensures 'ß' in Lower(s) <==> 'ß' in s
  {
    if 'ß' in Lower(s) {
      var i :| 0 <= i < |s| && Lower(s)[i] == 'ß';
      assert s[i] == 'ß';
    }
    if 'ß' in s {
      var i :| 0 <= i < |s| && s[i] == 'ß';
      assert Lower(s)[i] == 'ß';
    }
  }

  /** Upper-casing leaves no 'ß': it becomes "SS". */
  lemma {:induction false} UpperHasNoSharpS(s: string)
    ensures 'ß' !in Upper(s)
  {
    if s != [] {
      UpperHasNoSharpS(s[1..]);
    }
  }
}
