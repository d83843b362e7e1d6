/**
 * The string operations the filter engine uses: `trim()`, `toLowerCase()` and
 * `includes()`.
 */
module JsStrings {

  /** The ECMAScript WhiteSpace and LineTerminator code points, which `trim()` removes. */
  predicate IsWhiteSpace(c: char) {
    var k := c as int;
    || k == 0x09 || k == 0x0A || k == 0x0B || k == 0x0C || k == 0x0D
    || k == 0x20 || k == 0xA0 || k == 0x1680
    || (0x2000 <= k <= 0x200A)
    || k == 0x2028 || k == 0x2029 || k == 0x202F || k == 0x205F || k == 0x3000 || k == 0xFEFF
  }

  /** Drops leading white space. */
  function TrimStart(s: string): (r: string)
    ensures |r| <= |s| && r == s[|s| - |r|..]
    ensures forall i :: 0 <= i < |s| - |r| ==> IsWhiteSpace(s[i])
    ensures r != [] ==> !IsWhiteSpace(r[0])
  {
    if s != [] && IsWhiteSpace(s[0]) then TrimStart(s[1..]) else s
  }

  /** Drops trailing white space. */
  function TrimEnd(s: string): (r: string)
    ensures |r| <= |s| && r == s[..|r|]
    ensures forall i :: |r| <= i < |s| ==> IsWhiteSpace(s[i])
    ensures r != [] ==> !IsWhiteSpace(r[|r| - 1])
  {
    if s != [] && IsWhiteSpace(s[|s| - 1]) then TrimEnd(s[..|s| - 1]) else s
  }

  /** `s.trim()`. */
  function Trim(s: string): string {
    TrimEnd(TrimStart(s))
  }

  /** A trimmed string neither starts nor ends with white space. */
  predicate IsTrimmed(s: string) {
    s == [] || (!IsWhiteSpace(s[0]) && !IsWhiteSpace(s[|s| - 1]))
  }

  /**
   * `Trim` removes exactly a white-space prefix and a white-space suffix, and what
   * remains is trimmed.
   */
  lemma TrimIsInnerSlice(s: string)
    ensures var r := Trim(s);
      && IsTrimmed(r)
      && |s| - |TrimStart(s)| + |r| <= |s|
      && r == s[|s| - |TrimStart(s)|..|s| - |TrimStart(s)| + |r|]
  {
    TrimIsTrimmed(s);
    TrimIsSlice(s);
  }

  lemma TrimIsTrimmed(s: string)
    ensures IsTrimmed(Trim(s))
  {
    var t := TrimStart(s);
    var r := TrimEnd(t);
    if r != [] {
      assert r == t[..|r|];
      assert r[0] == t[0];
    }
  }

  lemma TrimIsSlice(s: string)
    ensures var a, r := |s| - |TrimStart(s)|, Trim(s);
      a + |r| <= |s| && r == s[a..a + |r|]
  {
    var t := TrimStart(s);
    var r := TrimEnd(t);
    var a := |s| - |t|;
    SliceOfSuffix(s, a, |r|);
  }

  lemma SliceOfSuffix<T>(s: seq<T>, a: nat, n: nat)
    requires a + n <= |s|
    ensures s[a..][..n] == s[a..a + n]
  {
  }

  /** Trimming twice is trimming once. */
  lemma TrimIdempotent(s: string)
    ensures Trim(Trim(s)) == Trim(s)
  {
    var r := Trim(s);
    TrimIsInnerSlice(s);
    TrimmedIsFixed(r);
  }

  lemma TrimmedIsFixed(s: string)
    requires IsTrimmed(s)
    ensures Trim(s) == s
  {
    assert TrimStart(s) == s;
  }

  /** Lower-case mapping of one character: ASCII and Latin-1 capitals. */
  function LowerChar(c: char): char {
    var k := c as int;
    if (0x41 <= k <= 0x5A) || (0xC0 <= k <= 0xDE && k != 0xD7) then (k + 32) as char else c
  }

  /** `s.toLowerCase()`, character by character. */
  function ToLower(s: string): (r: string)
    ensures |r| == |s|
    ensures forall i :: 0 <= i < |s| ==> r[i] == LowerChar(s[i])
  {
    if s == [] then [] else [LowerChar(s[0])] + ToLower(s[1..])
  }

  /** Lower-casing twice is lower-casing once. */
  lemma ToLowerIdempotent(s: string)
    ensures ToLower(ToLower(s)) == ToLower(s)
  {
    var once := ToLower(s);
    var twice := ToLower(once);
    assert |twice| == |once|;
    forall i | 0 <= i < |once| ensures twice[i] == once[i] {
      assert once[i] == LowerChar(s[i]);
    }
  }

  /** Lower-casing never turns a character into white space or white space into something else. */
  lemma LowerCharKeepsWhiteSpace(c: char)
    ensures IsWhiteSpace(LowerChar(c)) <==> IsWhiteSpace(c)
  {
  }

  /** `text.includes(q)`. */
  predicate Contains(text: string, q: string) {
    q <= text || (text != [] && Contains(text[1..], q))
  }

  /** `Contains` holds exactly when `q` starts at some position of `text`. */
  lemma ContainsAt(text: string, q: string)
    ensures Contains(text, q) <==> exists i :: 0 <= i <= |text| && q <= text[i..]
  {
    if Contains(text, q) {
      ContainsWitness(text, q);
    }
    if i :| 0 <= i <= |text| && q <= text[i..] {
      ContainsFrom(text, q, i);
    }
  }

  lemma {:induction false} ContainsWitness(text: string, q: string)
    requires Contains(text, q)
    ensures exists i :: 0 <= i <= |text| && q <= text[i..]
  {
    if q <= text {
      assert text[0..] == text;
    } else {
      ContainsWitness(text[1..], q);
      var i :| 0 <= i <= |text[1..]| && q <= text[1..][i..];
      assert text[1..][i..] == text[i + 1..];
    }
  }

  lemma {:induction false} ContainsFrom(text: string, q: string, i: nat)
    requires i <= |text| && q <= text[i..]
    ensures Contains(text, q)
    decreases i
  {
    if i == 0 {
      assert text[0..] == text;
    } else {
      assert text[1..][i - 1..] == text[i..];
      ContainsFrom(text[1..], q, i - 1);
    }
  }

  /** A text in which the query's first character never occurs does not contain the query. */
  lemma {:induction false} ContainsNeedsFirstChar(text: string, q: string)
    requires q != [] && q[0] !in text
    ensures !Contains(text, q)
  {
    if text != [] {
      assert q[0] != text[0];
      assert q[0] !in text[1..] by {
        forall c | c in text[1..] ensures c in text {
          var i :| 0 <= i < |text[1..]| && text[1..][i] == c;
          assert text[i + 1] == c;
        }
      }
      ContainsNeedsFirstChar(text[1..], q);
    }
  }
}
