/**
 * The few JavaScript built-ins the point-of-sale handlers depend on:
 * `String.prototype.trim`, the `||` fallback on a possibly missing string,
 * and `Array.prototype.filter` with a predicate on the element's position.
 */
module JsRuntime {
  import opened Wrappers

  /**
   * The code points `trim` removes: WhiteSpace and LineTerminator of ECMA-262
   * (sections 12.2 and 12.3): TAB, VT, FF, ZWNBSP, every space separator of
   * Unicode category Zs, LF, CR, LINE SEPARATOR and PARAGRAPH SEPARATOR.
   * The ideographic space U+3000 of Japanese input methods is among them.
   */
  predicate IsTrimmable(c: char) {
    c == '\t' || c == '\U{000B}' || c == '\U{000C}' || c == '\U{FEFF}'
    || c == ' ' || c == '\U{00A0}' || c == '\U{1680}' || ('\U{2000}' <= c <= '\U{200A}')
    || c == '\U{202F}' || c == '\U{205F}' || c == '\U{3000}'
    || c == '\n' || c == '\r' || c == '\U{2028}' || c == '\U{2029}'
  }

  /** Drops the leading trimmable characters. */
  function TrimStart(s: string): (r: string)
    ensures |r| <= |s|
    ensures r != [] ==> !IsTrimmable(r[0])
  {
    if s != [] && IsTrimmable(s[0]) then TrimStart(s[1..]) else s
  }

  /** `TrimStart` keeps a suffix and drops only trimmable characters. */
  lemma {:induction false} TrimStartDropsTrimmable(s: string)
    ensures TrimStart(s) == s[|s| - |TrimStart(s)|..]
    ensures forall i :: 0 <= i < |s| - |TrimStart(s)| ==> IsTrimmable(s[i])
  {
    if s != [] && IsTrimmable(s[0]) {
      TrimStartDropsTrimmable(s[1..]);
      assert s[1..][|s| - 1 - |TrimStart(s)|..] == s[|s| - |TrimStart(s)|..];
      forall i | 1 <= i < |s| - |TrimStart(s)| ensures IsTrimmable(s[i]) {
        assert s[i] == s[1..][i - 1];
      }
    }
  }

  /** Drops the trailing trimmable characters. */
  function TrimEnd(s: string): (r: string)
    ensures |r| <= |s|
    ensures r != [] ==> !IsTrimmable(r[|r| - 1])
  {
    if s != [] && IsTrimmable(s[|s| - 1]) then TrimEnd(s[..|s| - 1]) else s
  }

  /** `TrimEnd` keeps a prefix and drops only trimmable characters. */
  lemma {:induction false} TrimEndDropsTrimmable(s: string)
    ensures TrimEnd(s) == s[..|TrimEnd(s)|]
    ensures forall i :: |TrimEnd(s)| <= i < |s| ==> IsTrimmable(s[i])
  {
    if s != [] && IsTrimmable(s[|s| - 1]) {
      TrimEndDropsTrimmable(s[..|s| - 1]);
      assert s[..|s| - 1][..|TrimEnd(s)|] == s[..|TrimEnd(s)|];
      forall i | |TrimEnd(s)| <= i < |s| - 1 ensures IsTrimmable(s[i]) {
        assert s[i] == s[..|s| - 1][i];
      }
    }
  }

  /** `s.trim()`. */
  function Trim(s: string): (r: string)
    ensures |r| <= |s|
  {
    TrimEnd(TrimStart(s))
  }

  /** A trimmed string is the contiguous slice of the input between the dropped front and back. */
  lemma TrimIsSlice(s: string)
    ensures var k := |s| - |TrimStart(s)|;
      k + |Trim(s)| <= |s| && Trim(s) == s[k..k + |Trim(s)|]
  {
    var t := TrimStart(s);
    var k := |s| - |t|;
    TrimStartDropsTrimmable(s);
    TrimEndDropsTrimmable(t);
    assert t == s[k..];
    assert Trim(s) == t[..|Trim(s)|];
    assert s[k..][..|Trim(s)|] == s[k..k + |Trim(s)|];
  }

  /** Neither end of a trimmed string is trimmable. */
  lemma TrimLeavesNoEdgeSpace(s: string)
    ensures Trim(s) != [] ==> !IsTrimmable(Trim(s)[0]) && !IsTrimmable(Trim(s)[|Trim(s)| - 1])
  {
    TrimEndDropsTrimmable(TrimStart(s));
  }

  /** `!s.trim()`: the trimmed text is the empty string, which JavaScript treats as false. */
  predicate IsBlank(s: string) {
    Trim(s) == ""
  }

  /** A string is blank exactly when every one of its characters is trimmable. */
  lemma BlankIffAllTrimmable(s: string)
    ensures IsBlank(s) <==> forall i :: 0 <= i < |s| ==> IsTrimmable(s[i])
  {
    var t := TrimStart(s);
    TrimStartDropsTrimmable(s);
    TrimEndDropsTrimmable(t);
    if t != [] {
      assert !IsTrimmable(t[0]);
      assert t[0] == s[|s| - |t|];
      assert TrimEnd(t) != [] by {
        assert 0 < |t| && !IsTrimmable(t[0]);
      }
    }
  }

  /**
   * `value || fallback` where `value` is a string field that may be absent:
   * the value when it is present and non-empty (truthy), the fallback otherwise.
   */
  function OrElse(value: Option<string>, fallback: string): (r: string)
    ensures value.Some? && value.value != "" ==> r == value.value
    ensures value.None? || value.value == "" ==> r == fallback
    ensures r == "" ==> fallback == ""
  {
    match value
    case Some(v) => if v != "" then v else fallback
    case None => fallback
  }

  /**
   * `s.filter((_, i) => i !== index)`: keeps every element whose position is
   * not `index`, in order. Built from the end so that positions stay those of `s`.
   */
  function WithoutIndex<T>(s: seq<T>, index: int): (r: seq<T>)
    ensures r == if 0 <= index < |s| then s[..index] + s[index + 1..] else s
    decreases |s|
  {
    if s == [] then []
    else
      var front := s[..|s| - 1];
      WithoutIndex(front, index) + (if index == |s| - 1 then [] else [s[|s| - 1]])
  }
}
