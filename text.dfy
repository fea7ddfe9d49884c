/** String helpers with the semantics of the JavaScript String methods the
    backend and frontend call: trim, toLowerCase/toUpperCase (ASCII letters),
    includes, startsWith and split on a single character. */
module Text {

  /** The ECMAScript WhiteSpace and LineTerminator code points: exactly what
      String.prototype.trim removes from both ends. */
  predicate IsSpace(c: char) {
    c == '\t' || c == '\n' || c == '\U{000B}' || c == '\U{000C}' || c == '\r' || c == ' '
    || c == '\U{00A0}' || c == '\U{1680}' || ('\U{2000}' <= c <= '\U{200A}')
    || c == '\U{2028}' || c == '\U{2029}' || c == '\U{202F}' || c == '\U{205F}'
    || c == '\U{3000}' || c == '\U{FEFF}'
  }

  predicate AllSpace(s: string) {
    forall k :: 0 <= k < |s| ==> IsSpace(s[k])
  }

  /** Drops leading white space; the result is a suffix of `s`. */
  function TrimStart(s: string): (r: string)
    ensures |r| <= |s| && r == s[|s| - |r|..]
    ensures AllSpace(s[..|s| - |r|])
    ensures r == [] || !IsSpace(r[0])
  {
    if |s| > 0 && IsSpace(s[0]) then
      var r := TrimStart(s[1..]);
      assert r == s[|s| - |r|..] by {
        assert s[1..][|s| - 1 - |r|..] == s[|s| - |r|..];
      }
      assert AllSpace(s[..|s| - |r|]) by {
        assert s[..|s| - |r|] == [s[0]] + s[1..][..|s| - 1 - |r|];
      }
      r
    else s
  }

  /** Drops trailing white space; the result is a prefix of `s`. */
  function TrimEnd(s: string): (r: string)
    ensures |r| <= |s| && r == s[..|r|]
    ensures AllSpace(s[|r|..])
    ensures r == [] || !IsSpace(r[|r| - 1])
  {
    if |s| > 0 && IsSpace(s[|s| - 1]) then
      var r := TrimEnd(s[..|s| - 1]);
      assert s[|r|..] == s[..|s| - 1][|r|..] + [s[|s| - 1]];
      r
    else s
  }

  /** String.prototype.trim */
  function Trim(s: string): string {
    TrimEnd(TrimStart(s))
  }

  /** `Trim(s)` is the slice of `s` left once the white space at both ends is
      removed, and it neither starts nor ends with white space. */
  lemma TrimSlice(s: string)
    ensures exists i, j :: 0 <= i <= j <= |s| && Trim(s) == s[i..j]
                           && AllSpace(s[..i]) && AllSpace(s[j..])
    ensures Trim(s) == [] || (!IsSpace(Trim(s)[0]) && !IsSpace(Trim(s)[|Trim(s)| - 1]))
  {
    var i, j := TrimBounds(s);
    TrimEnds(s);
  }

  lemma TrimBounds(s: string) returns (i: nat, j: nat)
    ensures i <= j <= |s| && Trim(s) == s[i..j] && AllSpace(s[..i]) && AllSpace(s[j..])
  {
    var a := TrimStart(s);
    var e := TrimEnd(a);
    assert Trim(s) == e;
    i := |s| - |a|;
    j := i + |e|;
    SliceOfSuffix(s, i, |e|);
    assert e == s[i..j];
    assert s[j..] == a[|e|..];
  }

  lemma SliceOfSuffix(s: string, i: nat, n: nat)
    requires i + n <= |s|
    ensures s[i..][..n] == s[i..i + n] && s[i + n..] == s[i..][n..]
  {
  }

  lemma TrimEnds(s: string)
    ensures Trim(s) == [] || (!IsSpace(Trim(s)[0]) && !IsSpace(Trim(s)[|Trim(s)| - 1]))
  {
    var a := TrimStart(s);
    var e := TrimEnd(a);
    assert e == a[..|e|];
    assert e == [] || e[0] == a[0];
  }

  /** A string trims to the empty string exactly when it is all white space. */
  lemma TrimEmptyIff(s: string)
    ensures Trim(s) == [] <==> AllSpace(s)
  {
    var a := TrimStart(s);
    if Trim(s) == [] {
      assert a == a[|TrimEnd(a)|..];
      assert a == [];
      assert s == s[..|s| - |a|];
    } else {
      assert a != [] && !IsSpace(a[0]);
      assert s[|s| - |a|] == a[0];
    }
  }

  /** A string without white space at its ends is its own trim. */
  lemma TrimNoop(s: string)
    requires s == [] || (!IsSpace(s[0]) && !IsSpace(s[|s| - 1]))
    ensures Trim(s) == s
  {
  }

  /** ASCII case mapping, as toLowerCase/toUpperCase do on ASCII letters. */
  function LowerChar(c: char): char {
    if 'A' <= c <= 'Z' then (c as int + 32) as char else c
  }

  function UpperChar(c: char): char {
    if 'a' <= c <= 'z' then (c as int - 32) as char else c
  }

  function Lower(s: string): (r: string)
    ensures |r| == |s|
  {
    seq(|s|, k requires 0 <= k < |s| => LowerChar(s[k]))
  }

  function Upper(s: string): (r: string)
    ensures |r| == |s|
  {
    seq(|s|, k requires 0 <= k < |s| => UpperChar(s[k]))
  }

  predicate IsLower(s: string) {
    forall k :: 0 <= k < |s| ==> !('A' <= s[k] <= 'Z')
  }

  /** Lowering gives a lower-case string, and lowering a lower-case string
      changes nothing. */
  lemma LowerIsLower(s: string)
    ensures IsLower(Lower(s))
    ensures IsLower(s) ==> Lower(s) == s
  {
  }

  lemma LowerAppend(a: string, b: string)
    ensures Lower(a + b) == Lower(a) + Lower(b)
  {
    assert forall k :: 0 <= k < |a + b| ==> Lower(a + b)[k] == (Lower(a) + Lower(b))[k];
  }

  /** White space has no case, so trimming and lowering commute. */
  lemma TrimLowerCommute(s: string)
    ensures Trim(Lower(s)) == Lower(Trim(s))
  {
    TrimStartLower(s);
    TrimEndLower(TrimStart(s));
  }

  lemma {:induction false} TrimStartLower(s: string)
    ensures TrimStart(Lower(s)) == Lower(TrimStart(s))
  {
    if |s| > 0 {
      assert Lower(s)[1..] == Lower(s[1..]);
      LowerCharSpace(s[0]);
      if IsSpace(s[0]) { TrimStartLower(s[1..]); }
    }
  }

  lemma {:induction false} TrimEndLower(s: string)
    ensures TrimEnd(Lower(s)) == Lower(TrimEnd(s))
  {
    if |s| > 0 {
      assert Lower(s)[..|s| - 1] == Lower(s[..|s| - 1]);
      LowerCharSpace(s[|s| - 1]);
      if IsSpace(s[|s| - 1]) { TrimEndLower(s[..|s| - 1]); }
    }
  }

  /** White space has no case. */
  lemma LowerCharSpace(c: char)
    ensures IsSpace(LowerChar(c)) <==> IsSpace(c)
  {
  }

  /** String.prototype.startsWith */
  predicate StartsWith(s: string, prefix: string) {
    |prefix| <= |s| && s[..|prefix|] == prefix
  }

  /** The declarative meaning of String.prototype.includes. */
  ghost predicate Occurs(needle: string, hay: string) {
    exists i :: OccursAt(needle, hay, i)
  }

  predicate OccursAt(needle: string, hay: string, i: int) {
    0 <= i && i + |needle| <= |hay| && hay[i..i + |needle|] == needle
  }

  /** String.prototype.includes, by scanning each start position. */
  function Includes(hay: string, needle: string): (r: bool)
    ensures r <==> Occurs(needle, hay)
    decreases |hay|
  {
    if StartsWith(hay, needle) then
      assert OccursAt(needle, hay, 0);
      true
    else if hay == [] then
      false
    else
      var rest := Includes(hay[1..], needle);
      if rest then
        var i :| OccursAt(needle, hay[1..], i);
        assert hay[i + 1..i + 1 + |needle|] == hay[1..][i..i + |needle|];
        assert OccursAt(needle, hay, i + 1);
        true
      else
        assert forall i :: OccursAt(needle, hay, i) ==> i == 0 || OccursAt(needle, hay[1..], i - 1) by {
          forall i | OccursAt(needle, hay, i) && i != 0 ensures OccursAt(needle, hay[1..], i - 1) {
            assert hay[1..][i - 1..i - 1 + |needle|] == hay[i..i + |needle|];
          }
        }
        false
  }

  /** The empty string occurs in every string, so `includes("")` is always true. */
  lemma IncludesEmpty(hay: string)
    ensures Includes(hay, "")
  {
    assert OccursAt("", hay, 0);
  }

  /** String.prototype.split with a one-character separator: never empty. */
  function Split(s: string, sep: char): (parts: seq<string>)
    ensures |parts| >= 1
    ensures forall k :: 0 <= k < |parts| ==> sep !in parts[k]
  {
    if s == [] then [""]
    else
      var rest := Split(s[1..], sep);
      if s[0] == sep then [""] + rest
      else [[s[0]] + rest[0]] + rest[1..]
  }

  /** Array.prototype.join with a one-character separator. */
  function Join(parts: seq<string>, sep: char): string {
    if parts == [] then ""
    else if |parts| == 1 then parts[0]
    else parts[0] + [sep] + Join(parts[1..], sep)
  }

  /** Joining the pieces of a split gives back the original string. */
  lemma {:induction false} JoinSplit(s: string, sep: char)
    ensures Join(Split(s, sep), sep) == s
  {
    if s != [] {
      JoinSplit(s[1..], sep);
      var rest := Split(s[1..], sep);
      if s[0] == sep {
        assert Split(s, sep)[1..] == rest;
      } else {
        var p := Split(s, sep);
        assert p[1..] == rest[1..];
        if |rest| == 1 {
          assert s == [s[0]] + rest[0];
        } else {
          assert Join(rest, sep) == rest[0] + [sep] + Join(rest[1..], sep);
          assert s == [s[0]] + Join(rest, sep);
        }
      }
    }
  }

  /** The text before the first separator is the first piece of a split. */
  lemma {:induction false} SplitHead(a: string, sep: char, rest: string)
    requires sep !in a
    ensures Split(a + [sep] + rest, sep)[0] == a
    ensures Split(a + [sep] + rest, sep)[1..] == Split(rest, sep)
  {
    if a != [] {
      assert (a + [sep] + rest)[1..] == a[1..] + [sep] + rest;
      SplitHead(a[1..], sep, rest);
    } else {
      assert (a + [sep] + rest)[1..] == rest;
    }
  }

  /** The first piece of a split is a prefix, followed by the separator or
      by the end of the string. */
  lemma SplitFirst(s: string, sep: char)
    ensures var p := Split(s, sep)[0];
            |p| <= |s| && s[..|p|] == p && (|p| < |s| ==> s[|p|] == sep)
  {
    var parts := Split(s, sep);
    JoinSplit(s, sep);
    if |parts| > 1 {
      assert s == parts[0] + [sep] + Join(parts[1..], sep);
    }
  }

  /** Every character other than the separator lies in some piece. */
  lemma {:induction false} SplitCovers(s: string, sep: char)
    ensures forall k :: 0 <= k < |s| && s[k] != sep ==> exists p :: p in Split(s, sep) && s[k] in p
  {
    if s != [] {
      SplitCovers(s[1..], sep);
      var rest := Split(s[1..], sep);
      var parts := Split(s, sep);
      forall k | 0 <= k < |s| && s[k] != sep ensures exists p :: p in parts && s[k] in p {
        if k == 0 {
          assert s[0] != sep && parts[0] == [s[0]] + rest[0];
          assert s[k] in parts[0];
        } else {
          assert s[k] == s[1..][k - 1];
          var p :| p in rest && s[k] in p;
          if s[0] == sep {
            assert parts == [""] + rest;
            assert p in parts;
          } else if p == rest[0] {
            assert s[k] in parts[0];
          } else {
            var i :| 0 <= i < |rest| && rest[i] == p;
            assert i > 0 && parts[i] == p;
          }
        }
      }
    }
  }

  /** A string without the separator is a single piece. */
  lemma {:induction false} SplitNone(a: string, sep: char)
    requires sep !in a
    ensures Split(a, sep) == [a]
  {
    if a != [] {
      SplitNone(a[1..], sep);
      assert a == [a[0]] + a[1..];
    }
  }

  /** Splitting a join of separator-free pieces gives back the pieces. */
  lemma {:induction false} SplitJoin(parts: seq<string>, sep: char)
    requires |parts| >= 1
    requires forall k :: 0 <= k < |parts| ==> sep !in parts[k]
    ensures Split(Join(parts, sep), sep) == parts
  {
    if |parts| == 1 {
      SplitNone(parts[0], sep);
    } else {
      SplitJoin(parts[1..], sep);
      SplitHead(parts[0], sep, Join(parts[1..], sep));
      var r := Split(Join(parts, sep), sep);
      assert r == [r[0]] + r[1..];
    }
  }

  predicate IsDigit(c: char) {
    '0' <= c <= '9'
  }

  predicate IsDigits(s: string) {
    s != [] && forall k :: 0 <= k < |s| ==> IsDigit(s[k])
  }
}
