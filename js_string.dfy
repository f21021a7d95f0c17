/**
 * The two pieces of JavaScript string semantics the handlers rely on: the
 * truthiness of a string (`if (username && password)`) and
 * `String.prototype.trim` (`feedbackMessage.trim().length === 0`).
 */
module JsString {

  /** A string is truthy exactly when it is not empty. */
  predicate Truthy(s: string) {
    s != ""
  }

  /**
   * The characters `trim` removes: ECMAScript's WhiteSpace and LineTerminator
   * code points (tab, line feed, vertical tab, form feed, carriage return,
   * space, no-break space, the Zs separators, line and paragraph separator,
   * and the byte order mark).
   */
  predicate IsWhitespace(ch: char) {
    var n := ch as int;
    n == 0x09 || n == 0x0A || n == 0x0B || n == 0x0C || n == 0x0D || n == 0x20 ||
    n == 0xA0 || n == 0x1680 || (0x2000 <= n <= 0x200A) || n == 0x2028 || n == 0x2029 ||
    n == 0x202F || n == 0x205F || n == 0x3000 || n == 0xFEFF
  }

  predicate AllWhitespace(s: string) {
    forall i :: 0 <= i < |s| ==> IsWhitespace(s[i])
  }

  /** `s` with its leading whitespace removed. */
  function TrimStart(s: string): (r: string)
    ensures |r| <= |s| && r == s[|s| - |r|..]
    ensures AllWhitespace(s[..|s| - |r|])
    ensures r == [] || !IsWhitespace(r[0])
  {
    if s != [] && IsWhitespace(s[0]) then
      var t := TrimStart(s[1..]);
      assert AllWhitespace(s[..|s| - |t|]) by {
        forall i | 0 <= i < |s| - |t| ensures IsWhitespace(s[i]) {
          if 0 < i { assert s[1..][..|s| - 1 - |t|][i - 1] == s[i]; }
        }
      }
      t
    else s
  }

  /** `s` with its trailing whitespace removed. */
  function TrimEnd(s: string): (r: string)
    ensures |r| <= |s| && r == s[..|r|]
    ensures AllWhitespace(s[|r|..])
    ensures r == [] || !IsWhitespace(r[|r| - 1])
  {
    if s != [] && IsWhitespace(s[|s| - 1]) then
      var t := TrimEnd(s[..|s| - 1]);
      assert s[|t|..] == s[..|s| - 1][|t|..] + [s[|s| - 1]];
      assert AllWhitespace(s[|t|..]) by {
        forall i | |t| <= i < |s| ensures IsWhitespace(s[i]) {
          if i < |s| - 1 { assert s[..|s| - 1][|t|..][i - |t|] == s[i]; }
        }
      }
      t
    else s
  }

  /**
   * `s.trim()`: neither starts nor ends with whitespace, and it is empty
   * exactly when every character of `s` is whitespace.
   */
  function Trim(s: string): (r: string)
    ensures |r| <= |s|
    ensures r == [] || (!IsWhitespace(r[0]) && !IsWhitespace(r[|r| - 1]))
    ensures r == [] <==> AllWhitespace(s)
  {
    var t := TrimStart(s);
    var r := TrimEnd(t);
    assert r == [] ==> AllWhitespace(s) by {
      if r == [] {
        assert t == [];
        assert s[..|s|] == s;
      }
    }
    assert r != [] ==> !AllWhitespace(s) by {
      if r != [] { assert t[0] == r[0] && s[|s| - |t|] == t[0]; }
    }
    r
  }
}
