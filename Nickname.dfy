/**
 * The nickname step every game starts with: the raw text of the input field
 * is trimmed the way the platform's string trim does it, and the result is
 * accepted only when it is long enough.
 */
module Nickname {

  import opened Optional

  /** The shortest nickname the clicker, dodge and rock-paper-scissors games accept. */
  const MIN_NICKNAME_LENGTH: nat := 2

  /**
   * The characters trim removes: the white-space characters (tab, vertical
   * tab, form feed, the byte order mark and every space separator) and the
   * line terminators (line feed, carriage return, line and paragraph separator).
   */
  predicate IsSpace(c: char)
  {
    c in TRIM_SET
  }

  const TRIM_SET: set<char> := {
    '\t', '\n', '\U{000B}', '\U{000C}', '\r', ' ', '\U{00A0}', '\U{1680}',
    '\U{2000}', '\U{2001}', '\U{2002}', '\U{2003}', '\U{2004}', '\U{2005}',
    '\U{2006}', '\U{2007}', '\U{2008}', '\U{2009}', '\U{200A}',
    '\U{2028}', '\U{2029}', '\U{202F}', '\U{205F}', '\U{3000}', '\U{FEFF}'
  }

  /** Neither end of `t` is a character that trim removes. */
  predicate Trimmed(t: string)
  {
    t == [] || (!IsSpace(t[0]) && !IsSpace(t[|t| - 1]))
  }

  /** How many removable characters `s` starts with. */
  function LeadingSpaces(s: string): (n: nat)
    ensures n <= |s| && AllSpace(s[..n])
    ensures n < |s| ==> !IsSpace(s[n])
  {
    if s != [] && IsSpace(s[0]) then
      var m := LeadingSpaces(s[1..]);
      assert s[..m + 1] == [s[0]] + s[1..][..m];
      AllSpaceCons(s[0], s[1..][..m]);
      assert m + 1 < |s| ==> s[m + 1] == s[1..][m];
      m + 1
    else
      0
  }

  /** Drop the leading removable characters: what is dropped is all removable, what is kept starts with a kept character. */
  function TrimStart(s: string): (r: string)
    ensures |r| <= |s| && r == s[|s| - |r|..] && AllSpace(s[..|s| - |r|])
    ensures r != [] ==> !IsSpace(r[0])
  {
    s[LeadingSpaces(s)..]
  }

  /** Drop the trailing removable characters: what is dropped is all removable, what is kept ends with a kept character. */
  function TrimEnd(s: string): (r: string)
    ensures |r| <= |s| && r == s[..|r|] && AllSpace(s[|r|..])
    ensures r != [] ==> !IsSpace(r[|r| - 1])
  {
    if s != [] && IsSpace(s[|s| - 1]) then
      var init := s[..|s| - 1];
      var r := TrimEnd(init);
      assert init[..|r|] == s[..|r|];
      assert s[|r|..] == init[|r|..] + [s[|s| - 1]];
      r
    else
      s
  }

  predicate AllSpace(s: string)
  {
    forall k :: 0 <= k < |s| ==> IsSpace(s[k])
  }

  lemma AllSpaceCons(c: char, t: string)
    requires IsSpace(c) && AllSpace(t)
    ensures AllSpace([c] + t)
  {
  }

  /**
   * `s.trim()`: it cuts off a run of removable characters at each end and
   * nothing else. The result is a contiguous slice of the input, whatever
   * lies outside it is removable, and the slice itself starts and ends with
   * a kept character.
   */
  function Trim(s: string): (r: string)
    ensures Trimmed(r)
    ensures exists i, j :: 0 <= i <= j <= |s| && r == s[i..j] && AllSpace(s[..i]) && AllSpace(s[j..])
  {
    var t := TrimStart(s);
    var r := TrimEnd(t);
    var i := |s| - |t|;
    var j := i + |r|;
    assert r == s[i..j];
    assert s[j..] == t[|r|..];
    assert r != [] ==> r[0] == t[0];
    r
  }

  /** Trimming twice is trimming once. */
  lemma TrimIdempotent(s: string)
    ensures Trim(Trim(s)) == Trim(s)
  {
    TrimOfTrimmed(Trim(s));
  }

  lemma TrimOfTrimmed(t: string)
    requires Trimmed(t)
    ensures Trim(t) == t
  {
    assert TrimStart(t) == t;
  }

  /**
   * The nickname gate: the trimmed input is accepted exactly when it has at
   * least `minLength` characters; otherwise nothing is stored.
   */
  function Gate(raw: string, minLength: nat): (r: Option<string>)
    ensures r.Some? <==> |Trim(raw)| >= minLength
    ensures r.Some? ==> |r.value| >= minLength && Trimmed(r.value) && r.value == Trim(raw)
  {
    var name := Trim(raw);
    if |name| < minLength then None else Some(name)
  }

  /** Blank input (only removable characters) is never accepted. */
  lemma BlankRejected(raw: string, minLength: nat)
    requires AllSpace(raw) && minLength >= 1
    ensures Gate(raw, minLength) == None
  {
    TrimStartOfBlank(raw);
  }

  lemma {:induction false} TrimStartOfBlank(s: string)
    requires AllSpace(s)
    ensures TrimStart(s) == []
  {
    if s != [] {
      TrimStartOfBlank(s[1..]);
    }
  }
}
