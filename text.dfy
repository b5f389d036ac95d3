/**
 * The string operations the importer calls: JavaScript's `trim`, `toLowerCase`
 * (restricted to ASCII letters) and the decimal rendering of `'' + n`.
 */
module Text {

  /** The white-space characters `String.prototype.trim` removes (ASCII subset). */
  predicate IsSpace(c: char) {
    c == ' ' || c == '\t' || c == '\n' || c == '\r' || c == '\U{000B}' || c == '\U{000C}'
  }

  function TrimStart(s: string): (r: string)
    ensures |r| <= |s| && r == s[|s| - |r|..]
    ensures forall i :: 0 <= i < |s| - |r| ==> IsSpace(s[i])
    ensures r == [] || !IsSpace(r[0])
  {
    if s != [] && IsSpace(s[0]) then TrimStart(s[1..]) else s
  }

  function TrimEnd(s: string): (r: string)
    ensures |r| <= |s| && r == s[..|r|]
    ensures forall i :: |r| <= i < |s| ==> IsSpace(s[i])
    ensures r == [] || !IsSpace(r[|r| - 1])
  {
    if s != [] && IsSpace(s[|s| - 1]) then TrimEnd(s[..|s| - 1]) else s
  }

  /** Everything of `s` before index `i` and from index `j` on is white space. */
  predicate SpaceOutside(s: string, i: int, j: int) {
    && 0 <= i <= j <= |s|
    && (forall k :: 0 <= k < i ==> IsSpace(s[k]))
    && (forall k :: j <= k < |s| ==> IsSpace(s[k]))
  }

  /** `s.trim()`: white space removed at both ends (`TrimIsInfix` says which infix is left). */
  function Trim(s: string): (r: string)
    ensures |r| <= |s|
    ensures r == [] || (!IsSpace(r[0]) && !IsSpace(r[|r| - 1]))
  {
    var t := TrimStart(s);
    var r := TrimEnd(t);
    assert r != [] ==> r[0] == t[0];
    r
  }

  /**
   * The trim of `s` is the infix of `s` between its leading and its trailing
   * white space, and it neither starts nor ends with white space.
   */
  lemma TrimIsInfix(s: string)
    ensures exists i, j :: SpaceOutside(s, i, j) && Trim(s) == s[i..j]
  {
    var t := TrimStart(s);
    var r := TrimEnd(t);
    var i := |s| - |t|;
    assert r == s[i..i + |r|];
    forall k | i + |r| <= k < |s| ensures IsSpace(s[k]) {
      assert s[k] == t[k - i];
    }
    assert SpaceOutside(s, i, i + |r|);
  }

  /** A string that neither starts nor ends with white space is its own trim. */
  lemma TrimOfTrimmed(s: string)
    requires s == [] || (!IsSpace(s[0]) && !IsSpace(s[|s| - 1]))
    ensures Trim(s) == s
  {
    assert TrimStart(s) == s;
  }

  lemma TrimIdempotent(s: string)
    ensures Trim(Trim(s)) == Trim(s)
  {
    TrimOfTrimmed(Trim(s));
  }

  /**
   * Joining two non-empty trimmed strings with a line feed gives a trimmed
   * string, so a final `trim()` leaves the joined text intact.
   */
  lemma TrimJoined(a: string, b: string)
    requires a != [] && Trim(a) == a
    requires b != [] && Trim(b) == b
    ensures Trim(a + "\n" + b) == a + "\n" + b
  {
    var j := a + "\n" + b;
    assert j[0] == a[0] && j[|j| - 1] == b[|b| - 1];
    TrimOfTrimmed(j);
  }

  /** A line feed before a non-empty trimmed string is trimmed away. */
  lemma TrimLeadingBreak(b: string)
    requires b != [] && Trim(b) == b
    ensures Trim("\n" + b) == b
  {
    assert ("\n" + b)[1..] == b;
    assert TrimStart("\n" + b) == TrimStart(b);
  }

  /** A line feed after a non-empty trimmed string is trimmed away. */
  lemma TrimTrailingBreak(a: string)
    requires a != [] && Trim(a) == a
    ensures Trim(a + "\n") == a
  {
    var j := a + "\n";
    assert !IsSpace(a[0]) && !IsSpace(a[|a| - 1]);
    assert j[0] == a[0];
    assert TrimStart(j) == j;
    assert j[..|j| - 1] == a;
    assert TrimEnd(a) == a;
    assert TrimEnd(j) == TrimEnd(a);
  }

  function LowerChar(c: char): (d: char)
    ensures 'A' <= c <= 'Z' ==> d as int == c as int + 32
    ensures !('A' <= c <= 'Z') ==> d == c
  {
    if 'A' <= c <= 'Z' then (c as int + 32) as char else c
  }

  /** `s.toLowerCase()` on ASCII letters; every other character is kept. */
  function ToLower(s: string): (r: string)
    ensures |r| == |s|
    ensures forall i :: 0 <= i < |s| ==> r[i] == LowerChar(s[i])
  {
    seq(|s|, i requires 0 <= i < |s| => LowerChar(s[i]))
  }

  function Digit(d: nat): (c: char)
    requires d < 10
    ensures '0' <= c <= '9'
  {
    ('0' as int + d) as char
  }

  /** `'' + n` for a natural number: its decimal digits, most significant first. */
  function NatToString(n: nat): (r: string)
    ensures |r| >= 1
    ensures n < 10 <==> |r| == 1
    ensures r[|r| - 1] == Digit(n % 10)
  {
    if n < 10 then [Digit(n)] else NatToString(n / 10) + [Digit(n % 10)]
  }

  /** Different numbers have different decimal renderings. */
  lemma {:induction false} NatToStringInjective(a: nat, b: nat)
    requires NatToString(a) == NatToString(b)
    ensures a == b
  {
    if a >= 10 && b >= 10 {
      var ra, rb := NatToString(a), NatToString(b);
      assert ra[..|ra| - 1] == NatToString(a / 10);
      assert rb[..|rb| - 1] == NatToString(b / 10);
      NatToStringInjective(a / 10, b / 10);
    }
  }
}
