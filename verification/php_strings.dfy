/** The two pieces of PHP string semantics the token authenticator relies on:
    `trim()` with its default character list, and the truthiness of a string. */
module PhpStrings {

  /** The characters `trim()` strips by default: space, tab, line feed,
      carriage return, NUL and vertical tab. */
  predicate IsTrimChar(c: char) {
    c == ' ' || c == '\t' || c == '\n' || c == '\r' || c == '\0' || c == '\U{000B}'
  }

  /** Where the run of trim characters that starts at index `i` ends: the
      first index from `i` on that holds no trim character, or `|s|`. */
  function LeadingRunEnd(s: string, i: nat): (e: nat)
    requires i <= |s|
    ensures i <= e <= |s|
    ensures forall j :: i <= j < e ==> IsTrimChar(s[j])
    ensures e < |s| ==> !IsTrimChar(s[e])
    decreases |s| - i
  {
    if i < |s| && IsTrimChar(s[i]) then LeadingRunEnd(s, i + 1) else i
  }

  /** Where the run of trim characters that ends just before index `j` starts,
      scanning back no further than `lo`. */
  function TrailingRunStart(s: string, lo: nat, j: nat): (b: nat)
    requires lo <= j <= |s|
    ensures lo <= b <= j
    ensures forall k :: b <= k < j ==> IsTrimChar(s[k])
    ensures b > lo ==> !IsTrimChar(s[b - 1])
    decreases j
  {
    if j > lo && IsTrimChar(s[j - 1]) then TrailingRunStart(s, lo, j - 1) else j
  }

  /** `ltrim()`: drops the leading run of trim characters. */
  function TrimLeft(s: string): (r: string)
    ensures |r| <= |s| && r == s[|s| - |r|..]
    ensures forall i :: 0 <= i < |s| - |r| ==> IsTrimChar(s[i])
    ensures |r| > 0 ==> !IsTrimChar(r[0])
  {
    s[LeadingRunEnd(s, 0)..]
  }

  /** `rtrim()`: drops the trailing run of trim characters. */
  function TrimRight(s: string): (r: string)
    ensures |r| <= |s| && r == s[..|r|]
    ensures forall i :: |r| <= i < |s| ==> IsTrimChar(s[i])
    ensures |r| > 0 ==> !IsTrimChar(r[|r| - 1])
  {
    s[..TrailingRunStart(s, 0, |s|)]
  }

  /** `trim()`: the input with its leading and trailing runs of trim
      characters removed, and nothing else. The result is the factor of `s`
      starting where the leading run ends; everything before and after it is
      a trim character; it neither starts nor ends with one; and it is empty
      exactly when every character of `s` is one. Like PHP's own
      implementation it finds both ends on the input itself; `TrimIsBothSides`
      relates it to `ltrim()` followed by `rtrim()`. */
  function Trim(s: string): (r: string)
    ensures |r| <= |s|
    ensures var k := |s| - |TrimLeft(s)|;
      && k + |r| <= |s|
      && r == s[k..k + |r|]
      && (forall i :: 0 <= i < k ==> IsTrimChar(s[i]))
      && (forall i :: k + |r| <= i < |s| ==> IsTrimChar(s[i]))
    ensures |r| > 0 ==> !IsTrimChar(r[0]) && !IsTrimChar(r[|r| - 1])
    ensures r == [] <==> forall i :: 0 <= i < |s| ==> IsTrimChar(s[i])
  {
    var a := LeadingRunEnd(s, 0);
    s[a..TrailingRunStart(s, a, |s|)]
  }

  /** `trim()` strips the same characters as `ltrim()` followed by `rtrim()`. */
  lemma TrimIsBothSides(s: string)
    ensures Trim(s) == TrimRight(TrimLeft(s))
  {
    var l := TrimLeft(s);
    var a := |s| - |l|;
    assert forall i :: 0 <= i < |l| ==> l[i] == s[a + i];
  }

  /** Trimming a string twice strips nothing more than trimming it once. */
  lemma TrimIdempotent(s: string)
    ensures Trim(Trim(s)) == Trim(s)
  {
    var t := Trim(s);
    if |t| > 0 {
      TrimKeepsUnpadded(t);
    }
  }

  /** PHP's `(bool)` conversion of a string: only `""` and `"0"` are false. */
  predicate IsFalsy(s: string) {
    s == "" || s == "0"
  }

  /** `!trim($s)`: true for blank strings and for `"0"` surrounded by blanks. */
  predicate IsBlankOrZero(s: string) {
    IsFalsy(Trim(s))
  }

  /** Concrete inputs: the empty string and `"0"` are rejected. */
  lemma EmptyAndZeroRejected()
    ensures IsBlankOrZero("") && IsBlankOrZero("0")
  {
    assert TrimLeft("0") == "0";
    assert TrimRight("0") == "0";
  }

  /** Concrete inputs: a zero padded with blanks is rejected too, because the
      test is made on the trimmed string. */
  lemma PaddedZeroRejected()
    ensures IsBlankOrZero(" 0\n")
  {
    assert TrimLeft(" 0\n") == "0\n";
    assert TrimRight("0\n") == "0";
  }

  /** A string that neither starts nor ends with a trim character is left as
      it is. */
  lemma TrimKeepsUnpadded(s: string)
    requires |s| > 0 && !IsTrimChar(s[0]) && !IsTrimChar(s[|s| - 1])
    ensures Trim(s) == s
  {
    assert LeadingRunEnd(s, 0) == 0;
    assert TrailingRunStart(s, 0, |s|) == |s|;
  }

  /** An unpadded string other than `"0"` passes the credential test. */
  lemma UnpaddedAccepted(s: string)
    requires |s| > 0 && !IsTrimChar(s[0]) && !IsTrimChar(s[|s| - 1]) && s != "0"
    ensures !IsBlankOrZero(s)
  {
    TrimKeepsUnpadded(s);
  }

  /** The strings `!trim(...)` rejects: only trim characters, or a single `'0'`
      among trim characters. */
  predicate BlankOrPaddedZero(s: string) {
    || (forall i :: 0 <= i < |s| ==> IsTrimChar(s[i]))
    || exists k :: 0 <= k < |s| && s[k] == '0' && forall i :: 0 <= i < |s| && i != k ==> IsTrimChar(s[i])
  }

  /** `!trim($s)` holds for exactly the blank strings and the blank-padded
      `"0"`, for every input. */
  lemma {:induction false} BlankOrZeroCharacterised(s: string)
    ensures IsBlankOrZero(s) <==> BlankOrPaddedZero(s)
  {
    var r := Trim(s);
    var k := |s| - |TrimLeft(s)|;
    if r == "0" {
      assert s[k] == '0';
      forall i | 0 <= i < |s| && i != k
        ensures IsTrimChar(s[i])
      {
      }
    }
    if BlankOrPaddedZero(s) && !(forall i :: 0 <= i < |s| ==> IsTrimChar(s[i])) {
      var z :| 0 <= z < |s| && s[z] == '0' && forall i :: 0 <= i < |s| && i != z ==> IsTrimChar(s[i]);
      assert s[k] == r[0] && s[k + |r| - 1] == r[|r| - 1];
      assert k == z;
      assert |r| == 1;
      assert r == "0";
    }
  }
}
