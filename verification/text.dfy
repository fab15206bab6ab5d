/** The string operations of the Java platform and of commons-lang that the
    build step relies on, over `seq<char>`. */
module Text {

  /** A Java `String` reference: either `null` or a character sequence. */
  datatype JString = Null | Str(chars: string)

  /** `StringUtils.isEmpty`: true for `null` and for the empty string. */
  predicate IsEmpty(s: JString) {
    s.Null? || s.chars == []
  }

  // ---------------------------------------------------------------------
  // Reference decomposition of a string at every occurrence of a separator

  /** The pieces between consecutive occurrences of `sep` (empty pieces kept). */
  function Pieces(s: string, sep: char): (r: seq<string>)
    ensures |r| >= 1
    ensures forall i :: 0 <= i < |r| ==> sep !in r[i]
    decreases |s|
  {
    if s == [] then [[]]
    else
      var rest := Pieces(s[1..], sep);
      if s[0] == sep then [[]] + rest
      else [[s[0]] + rest[0]] + rest[1..]
  }

  /** Joins pieces with `sep` between each pair: the inverse of `Pieces`. */
  function Join(ps: seq<string>, sep: char): string
    requires |ps| >= 1
    decreases |ps|
  {
    if |ps| == 1 then ps[0] else ps[0] + [sep] + Join(ps[1..], sep)
  }

  /** The non-empty elements of `ps`, in their original order. */
  function NonEmpty(ps: seq<string>): (r: seq<string>)
    ensures |r| <= |ps|
    ensures forall i :: 0 <= i < |r| ==> r[i] != []
    decreases |ps|
  {
    if ps == [] then []
    else
      var last := ps[|ps| - 1];
      NonEmpty(ps[..|ps| - 1]) + (if last == [] then [] else [last])
  }

  /** The filter keeps exactly the non-empty elements. */
  lemma {:induction false} NonEmptyMembers(ps: seq<string>, p: string)
    ensures p in NonEmpty(ps) <==> p in ps && p != []
    decreases |ps|
  {
    if ps != [] {
      var init, last := ps[..|ps| - 1], ps[|ps| - 1];
      NonEmptyMembers(init, p);
      assert ps == init + [last];
    }
  }

  /** The non-empty pieces of `s` between occurrences of `sep`. */
  function Fields(s: string, sep: char): seq<string> {
    NonEmpty(Pieces(s, sep))
  }

  lemma {:induction false} JoinPieces(s: string, sep: char)
    ensures Join(Pieces(s, sep), sep) == s
    decreases |s|
  {
    if s != [] {
      JoinPieces(s[1..], sep);
      var rest := Pieces(s[1..], sep);
      if s[0] != sep && |rest| > 1 {
        assert Join(rest, sep) == rest[0] + [sep] + Join(rest[1..], sep);
        assert ([[s[0]] + rest[0]] + rest[1..])[1..] == rest[1..];
      }
    }
  }

  lemma {:induction false} PiecesWithoutSeparator(s: string, sep: char)
    requires sep !in s
    ensures Pieces(s, sep) == [s]
    decreases |s|
  {
    if s != [] {
      PiecesWithoutSeparator(s[1..], sep);
      assert [s[0]] + s[1..] == s;
    }
  }

  /** The pieces of a string are determined by the string. */
  lemma {:induction false} PiecesFirst(a: string, sep: char, b: string)
    requires sep !in a
    ensures Pieces(a + [sep] + b, sep) == [a] + Pieces(b, sep)
    decreases |a|
  {
    if a == [] {
      assert a + [sep] + b == [sep] + b;
      assert ([sep] + b)[1..] == b;
    } else {
      assert (a + [sep] + b)[1..] == a[1..] + [sep] + b;
      PiecesFirst(a[1..], sep, b);
      assert [a[0]] + a[1..] == a;
    }
  }

  /** `Pieces` is the only decomposition into separator-free pieces that
      joins back to the string. */
  lemma {:induction false} PiecesUnique(ps: seq<string>, sep: char)
    requires |ps| >= 1
    requires forall i :: 0 <= i < |ps| ==> sep !in ps[i]
    ensures Pieces(Join(ps, sep), sep) == ps
    decreases |ps|
  {
    if |ps| == 1 {
      PiecesWithoutSeparator(ps[0], sep);
    } else {
      PiecesUnique(ps[1..], sep);
      PiecesFirst(ps[0], sep, Join(ps[1..], sep));
      assert [ps[0]] + ps[1..] == ps;
    }
  }

  lemma {:induction false} JoinAppend(p: seq<string>, q: seq<string>, sep: char)
    requires |p| >= 1 && |q| >= 1
    ensures Join(p + q, sep) == Join(p, sep) + [sep] + Join(q, sep)
    decreases |p|
  {
    if |p| == 1 {
      assert (p + q)[1..] == q;
    } else {
      assert (p + q)[1..] == p[1..] + q;
      JoinAppend(p[1..], q, sep);
    }
  }

  /** A separator splits the string into the pieces before it and after it. */
  lemma PiecesConcat(a: string, sep: char, b: string)
    ensures Pieces(a + [sep] + b, sep) == Pieces(a, sep) + Pieces(b, sep)
  {
    var p, q := Pieces(a, sep), Pieces(b, sep);
    JoinPieces(a, sep);
    JoinPieces(b, sep);
    JoinAppend(p, q, sep);
    forall i | 0 <= i < |p + q| ensures sep !in (p + q)[i] {
      if i >= |p| { assert (p + q)[i] == q[i - |p|]; }
    }
    PiecesUnique(p + q, sep);
  }

  lemma {:induction false} NonEmptyAppend(p: seq<string>, q: seq<string>)
    ensures NonEmpty(p + q) == NonEmpty(p) + NonEmpty(q)
    decreases |q|
  {
    if q == [] {
      assert p + q == p;
    } else {
      var last := q[|q| - 1];
      assert (p + q)[..|p + q| - 1] == p + q[..|q| - 1];
      NonEmptyAppend(p, q[..|q| - 1]);
    }
  }

  lemma FieldsConcat(a: string, sep: char, b: string)
    ensures Fields(a + [sep] + b, sep) == Fields(a, sep) + Fields(b, sep)
  {
    PiecesConcat(a, sep, b);
    NonEmptyAppend(Pieces(a, sep), Pieces(b, sep));
  }

  /** A doubled separator splits into the same fields as a single one. */
  lemma FieldsMergeSeparators(a: string, sep: char, b: string)
    ensures Fields(a + [sep, sep] + b, sep) == Fields(a + [sep] + b, sep)
  {
    var a1 := a + [sep];
    assert a + [sep, sep] + b == a1 + [sep] + b;
    FieldsConcat(a1, sep, b);
    FieldsTrailingSeparator(a, sep);
    FieldsConcat(a, sep, b);
  }

  /** A separator at the end adds no field. */
  lemma FieldsTrailingSeparator(a: string, sep: char)
    ensures Fields(a + [sep], sep) == Fields(a, sep)
  {
    FieldsConcat(a, sep, []);
    assert a + [sep] + [] == a + [sep];
    var none: seq<string> := [];
    assert Fields([], sep) == none by {
      assert [[]][..0] == none;
    }
  }

  // ---------------------------------------------------------------------
  // commons-lang StringUtils.split(str, separatorChars) with one separator

  /** `StringUtils.split(s, [sep])`: scans the string once, starting a new
      token after each separator and emitting only non-empty tokens, so runs
      of separators act as one and leading or trailing ones are ignored. */
  function SplitByChar(s: string, sep: char): (r: seq<string>)
    ensures r == Fields(s, sep)
    ensures forall k :: 0 <= k < |r| ==> r[k] != [] && sep !in r[k]
  {
    ScanIsFields([], s, sep);
    var ps := Pieces(s, sep);
    assert [] + ps[0] == ps[0];
    assert [ps[0]] + ps[1..] == ps;
    assert Scan([], s, sep) == Fields(s, sep);
    FieldsProper(s, sep);
    Scan([], s, sep)
  }

  /** Every field is non-empty and free of the separator. */
  lemma FieldsProper(s: string, sep: char)
    ensures forall k :: 0 <= k < |Fields(s, sep)| ==> Fields(s, sep)[k] != [] && sep !in Fields(s, sep)[k]
  {
    var ps, fs := Pieces(s, sep), Fields(s, sep);
    forall k | 0 <= k < |fs|
      ensures sep !in fs[k]
    {
      NonEmptyMembers(ps, fs[k]);
    }
  }

  /** The scan of `SplitByChar` with `token` the characters seen since the
      last separator. */
  function Scan(token: string, s: string, sep: char): seq<string>
    decreases |s|
  {
    if s == [] then (if token == [] then [] else [token])
    else if s[0] == sep then (if token == [] then [] else [token]) + Scan([], s[1..], sep)
    else Scan(token + [s[0]], s[1..], sep)
  }

  lemma {:induction false} ScanIsFields(token: string, s: string, sep: char)
    ensures Scan(token, s, sep) == NonEmpty([token + Pieces(s, sep)[0]] + Pieces(s, sep)[1..])
    decreases |s|
  {
    var ps := Pieces(s, sep);
    if s == [] {
      assert token + [] == token;
      assert NonEmpty([token]) == NonEmpty([]) + (if token == [] then [] else [token]) by {
        assert [token][..0] == [];
      }
    } else {
      var rest := Pieces(s[1..], sep);
      ScanIsFields(if s[0] == sep then [] else token + [s[0]], s[1..], sep);
      if s[0] == sep {
        assert [] + rest[0] == rest[0];
        assert [rest[0]] + rest[1..] == rest;
        NonEmptyAppend([token], rest);
        assert [token] + rest == [token + ps[0]] + ps[1..] by {
          assert ps == [[]] + rest;
          assert token + [] == token;
        }
        assert NonEmpty([token]) == (if token == [] then [] else [token]) by {
          assert [token][..0] == [];
        }
      } else {
        assert token + [s[0]] + rest[0] == token + ([s[0]] + rest[0]);
      }
    }
  }

  // ---------------------------------------------------------------------
  // java.lang.String.split(regex) for a one-character literal regex

  /** `s.split(sep)` with limit 0: no match gives `[s]`; otherwise all pieces
      with the trailing empty ones removed. */
  function RegexSplit(s: string, sep: char): (r: seq<string>)
    ensures sep !in s ==> r == [s]
    ensures sep in s ==> r <= Pieces(s, sep) && (r == [] || r[|r| - 1] != [])
    ensures forall i :: |r| <= i < |Pieces(s, sep)| ==> Pieces(s, sep)[i] == []
  {
    if sep !in s then
      PiecesWithoutSeparator(s, sep);
      [s]
    else DropTrailingEmpty(Pieces(s, sep))
  }

  /** `ps` without its trailing run of empty strings. */
  function DropTrailingEmpty(ps: seq<string>): (r: seq<string>)
    ensures r <= ps
    ensures r == [] || r[|r| - 1] != []
    ensures forall i :: |r| <= i < |ps| ==> ps[i] == []
    decreases |ps|
  {
    if ps != [] && ps[|ps| - 1] == [] then DropTrailingEmpty(ps[..|ps| - 1]) else ps
  }

  lemma {:induction false} NonEmptyOfDropTrailing(ps: seq<string>)
    ensures NonEmpty(DropTrailingEmpty(ps)) == NonEmpty(ps)
    decreases |ps|
  {
    if ps != [] && ps[|ps| - 1] == [] {
      NonEmptyOfDropTrailing(ps[..|ps| - 1]);
    }
  }

  /** Dropping empty strings makes `String.split` agree with the reference. */
  lemma RegexSplitNonEmpty(s: string, sep: char)
    ensures NonEmpty(RegexSplit(s, sep)) == Fields(s, sep)
  {
    if sep in s {
      NonEmptyOfDropTrailing(Pieces(s, sep));
    } else {
      PiecesWithoutSeparator(s, sep);
    }
  }

  // ---------------------------------------------------------------------
  // java.lang.String.trim and StringUtils.trimToEmpty

  /** A character that `String.trim` removes: code point at most U+0020. */
  predicate IsBlank(c: char) {
    c <= ' '
  }

  /** The index of the first non-blank character of `s` at or after `i`,
      or `|s|` when there is none. */
  function TrimFrom(s: string, i: nat): (r: nat)
    requires i <= |s|
    ensures i <= r <= |s|
    ensures forall k :: i <= k < r ==> IsBlank(s[k])
    ensures r == |s| || !IsBlank(s[r])
    decreases |s| - i
  {
    if i < |s| && IsBlank(s[i]) then TrimFrom(s, i + 1) else i
  }

  /** The end of `s[lo..j]` once blanks are cut off its back. */
  function TrimTo(s: string, lo: nat, j: nat): (r: nat)
    requires lo <= j <= |s|
    ensures lo <= r <= j
    ensures forall k :: r <= k < j ==> IsBlank(s[k])
    ensures r == lo || !IsBlank(s[r - 1])
    decreases j
  {
    if lo < j && IsBlank(s[j - 1]) then TrimTo(s, lo, j - 1) else j
  }

  /** `String.trim`: the longest infix of `s` that neither starts nor ends
      with a blank, obtained by cutting blanks off the front and then off the
      back. */
  function Trim(s: string): (r: string)
    ensures r == [] || (!IsBlank(r[0]) && !IsBlank(r[|r| - 1]))
    ensures exists i, j :: 0 <= i <= j <= |s| && r == s[i..j] && BlankOutside(s, i, j)
  {
    var i := TrimFrom(s, 0);
    var j := TrimTo(s, i, |s|);
    assert BlankOutside(s, i, j);
    s[i..j]
  }

  /** Every character of `s` before `i` and from `j` on is blank. */
  predicate BlankOutside(s: string, i: nat, j: nat)
    requires i <= j <= |s|
  {
    (forall k :: 0 <= k < i ==> IsBlank(s[k])) && (forall k :: j <= k < |s| ==> IsBlank(s[k]))
  }

  /** A string that neither starts nor ends with a blank is its own trim. */
  lemma TrimOfTrimmed(s: string)
    requires s == [] || (!IsBlank(s[0]) && !IsBlank(s[|s| - 1]))
    ensures Trim(s) == s
  {
  }

  /** `StringUtils.trimToEmpty`: `null` becomes the empty string. */
  function TrimToEmpty(s: JString): (r: string)
    ensures s.Null? ==> r == []
    ensures s.Str? ==> r == Trim(s.chars)
    ensures s.Str? ==> |r| <= |s.chars|
    ensures Trim(r) == r
  {
    if s.Null? then []
    else
      var t := Trim(s.chars);
      TrimOfTrimmed(t);
      t
  }
}
