/**
 * The JavaScript string operations the command handlers rely on: `trim`,
 * `toLowerCase`/`toUpperCase`, `indexOf`, `split`, `join` and `replace` with a
 * string pattern. Strings are sequences of characters.
 */
module JsStrings {

  /** The characters of ECMAScript's WhiteSpace and LineTerminator productions, which `trim` removes and `parseInt` skips. */
  predicate IsSpace(c: char) {
    || c == '\t' || c == '\n' || c == '\U{B}' || c == '\U{C}' || c == '\r' || c == ' '
    || c == '\U{A0}' || c == '\U{1680}' || ('\U{2000}' <= c <= '\U{200A}')
    || c == '\U{2028}' || c == '\U{2029}' || c == '\U{202F}' || c == '\U{205F}'
    || c == '\U{3000}' || c == '\U{FEFF}'
  }

  /** Leading white space removed: the longest suffix of s that does not start with white space. */
  function TrimStart(s: string): (r: string)
    ensures |r| <= |s| && r == s[|s| - |r|..]
    ensures forall i :: 0 <= i < |s| - |r| ==> IsSpace(s[i])
    ensures r == [] || !IsSpace(r[0])
    decreases |s|
  {
    if |s| > 0 && IsSpace(s[0]) then TrimStart(s[1..]) else s
  }

  /** Trailing white space removed: the longest prefix of s that does not end with white space. */
  function TrimEnd(s: string): (r: string)
    ensures |r| <= |s| && r == s[..|r|]
    ensures forall i :: |r| <= i < |s| ==> IsSpace(s[i])
    ensures r == [] || !IsSpace(r[|r| - 1])
    decreases |s|
  {
    if |s| > 0 && IsSpace(s[|s| - 1]) then TrimEnd(s[..|s| - 1]) else s
  }

  /** `s.trim()` */
  function Trim(s: string): (r: string)
    ensures |r| <= |s|
    ensures r == [] || (!IsSpace(r[0]) && !IsSpace(r[|r| - 1]))
  {
    TrimEnd(TrimStart(s))
  }

  /** A string with no white space at either end is its own trim. */
  lemma TrimUnpadded(s: string)
    requires s == [] || (!IsSpace(s[0]) && !IsSpace(s[|s| - 1]))
    ensures Trim(s) == s
  {
  }

  /** Trailing white space after an unpadded word is exactly what trim drops. */
  lemma {:induction false} TrimTrailingSpace(w: string, pad: string)
    requires w != [] && !IsSpace(w[0]) && !IsSpace(w[|w| - 1])
    requires forall i :: 0 <= i < |pad| ==> IsSpace(pad[i])
    ensures Trim(w + pad) == w
  {
    assert TrimStart(w + pad) == w + pad;
    if pad != [] {
      assert (w + pad)[..|w + pad| - 1] == w + pad[..|pad| - 1];
      TrimTrailingSpace(w, pad[..|pad| - 1]);
    }
  }

  function LowerChar(c: char): char {
    if 'A' <= c <= 'Z' then (c as int + 32) as char else c
  }

  function UpperChar(c: char): char {
    if 'a' <= c <= 'z' then (c as int - 32) as char else c
  }

  /** `s.toLowerCase()`, on the ASCII letters. */
  function ToLower(s: string): (r: string)
    ensures |r| == |s|
    ensures forall i :: 0 <= i < |s| ==> r[i] == LowerChar(s[i])
  {
    seq(|s|, i requires 0 <= i < |s| => LowerChar(s[i]))
  }

  /** `s.toUpperCase()`, on the ASCII letters. */
  function ToUpper(s: string): (r: string)
    ensures |r| == |s|
    ensures forall i :: 0 <= i < |s| ==> r[i] == UpperChar(s[i])
  {
    seq(|s|, i requires 0 <= i < |s| => UpperChar(s[i]))
  }

  /** `s.substring(0, 1).toUpperCase() + s.substring(1)`: the first letter capitalised, the rest kept. */
  function Capitalize(s: string): (r: string)
    ensures |r| == |s|
    ensures s != [] ==> r[0] == UpperChar(s[0]) && r[1..] == s[1..]
  {
    if s == [] then [] else ToUpper(s[..1]) + s[1..]
  }

  /** pat occurs in s starting at index i. */
  predicate OccursAt(s: string, pat: string, i: int) {
    0 <= i && i + |pat| <= |s| && s[i..i + |pat|] == pat
  }

  /** `s.indexOf(pat)`: the first index where pat occurs, or -1. */
  function IndexOf(s: string, pat: string): (r: int)
    ensures -1 <= r <= |s|
    ensures r >= 0 ==> OccursAt(s, pat, r)
    ensures r >= 0 ==> forall i :: 0 <= i < r ==> !OccursAt(s, pat, i)
    ensures r < 0 ==> forall i :: 0 <= i <= |s| ==> !OccursAt(s, pat, i)
    decreases |s|
  {
    if |s| < |pat| then -1
    else if s[..|pat|] == pat then 0
    else
      var k := IndexOf(s[1..], pat);
      assert forall i :: 1 <= i <= |s| ==> (OccursAt(s, pat, i) <==> OccursAt(s[1..], pat, i - 1)) by {
        forall i | 1 <= i <= |s|
          ensures OccursAt(s, pat, i) <==> OccursAt(s[1..], pat, i - 1)
        {
          if i + |pat| <= |s| {
            assert s[1..][i - 1..i - 1 + |pat|] == s[i..i + |pat|];
          }
        }
      }
      if k < 0 then -1 else k + 1
  }

  /** With a single-character pattern, indexOf finds the first position holding that character. */
  lemma {:induction false} IndexOfChar(s: string, c: char, k: nat)
    requires k < |s| && s[k] == c
    requires forall i :: 0 <= i < k ==> s[i] != c
    ensures IndexOf(s, [c]) == k
  {
    assert OccursAt(s, [c], k);
    forall i | 0 <= i < k ensures !OccursAt(s, [c], i) {
      assert s[i..i + 1] == [s[i]];
    }
  }

  /** A single character that s does not contain is not found in it. */
  lemma IndexOfAbsentChar(s: string, c: char)
    requires c !in s
    ensures IndexOf(s, [c]) < 0
  {
    forall i | 0 <= i < |s| ensures !OccursAt(s, [c], i) {
      assert s[i..i + 1] == [s[i]];
    }
  }

  /** `s.split(sep)`: the pieces between the non-overlapping occurrences of sep, found left to right; the empty separator splits into single characters. */
  function Split(s: string, sep: string): (parts: seq<string>)
    ensures sep != [] ==> |parts| >= 1
    decreases |s|
  {
    if sep == [] then seq(|s|, i requires 0 <= i < |s| => [s[i]])
    else
      var i := IndexOf(s, sep);
      if i < 0 then [s] else [s[..i]] + Split(s[i + |sep|..], sep)
  }

  /** The first piece of a split by one character is the text up to the first occurrence of that character. */
  lemma SplitFirstPiece(s: string, c: char)
    ensures var w := Split(s, [c])[0];
            |w| <= |s| && w == s[..|w|] && (|w| == |s| || s[|w|] == c) && c !in w
  {
    SplitPiecesAvoidSeparator(s, c);
    var i := IndexOf(s, [c]);
    if i >= 0 {
      assert s[i..i + 1] == [c];
    }
  }

  /** w ends s and is either all of s or preceded in it by c. */
  predicate EndsAfter(s: string, w: string, c: char) {
    |w| <= |s| && w == s[|s| - |w|..] && (|w| == |s| || s[|s| - |w| - 1] == c)
  }

  /** What ends a text after c still ends it with more text in front. */
  lemma EndsAfterExtend(front: string, c: char, rest: string, w: string)
    requires EndsAfter(rest, w, c)
    ensures EndsAfter(front + [c] + rest, w, c)
  {
    var s := front + [c] + rest;
    assert s[|front| + 1..] == rest;
    assert s[|s| - |w|..] == rest[|rest| - |w|..];
    if |w| == |rest| {
      assert s[|s| - |w| - 1] == c;
    } else {
      assert s[|s| - |w| - 1] == rest[|rest| - |w| - 1];
    }
  }

  /** The last piece of a split by one character is the text after the last occurrence of that character. */
  lemma SplitLastPiece(s: string, c: char)
    ensures EndsAfter(s, Split(s, [c])[|Split(s, [c])| - 1], c)
    ensures c !in Split(s, [c])[|Split(s, [c])| - 1]
  {
    assert LastPiece(s, c) == Split(s, [c])[|Split(s, [c])| - 1];
    SplitLastPieceEnds(s, c);
    SplitPiecesAvoidSeparator(s, c);
  }

  /** The last piece of a split by one character. */
  function LastPiece(s: string, c: char): string {
    Split(s, [c])[|Split(s, [c])| - 1]
  }

  /** The last piece of a split by one character ends the text, after an occurrence of that character or as all of it. */
  lemma {:induction false} SplitLastPieceEnds(s: string, c: char)
    ensures EndsAfter(s, LastPiece(s, c), c)
    decreases |s|
  {
    var i := IndexOf(s, [c]);
    if i >= 0 {
      SplitAtFirst(s, c, i);
      SplitLastPieceEnds(s[i + 1..], c);
      EndsAfterExtend(s[..i], c, s[i + 1..], LastPiece(s[i + 1..], c));
    } else {
      SplitWithout(s, c);
    }
  }

  /** Where c first occurs, the split takes off the text before it and goes on after it. */
  lemma SplitAtFirst(s: string, c: char, i: int)
    requires i == IndexOf(s, [c]) && i >= 0
    ensures s == s[..i] + [c] + s[i + 1..]
    ensures LastPiece(s, c) == LastPiece(s[i + 1..], c)
  {
    var sep := [c];
    assert |sep| == 1 && sep != [];
    assert s[i..i + 1] == sep;
    var t := Split(s[i + |sep|..], sep);
    assert Split(s, sep) == [s[..i]] + t;
    assert |t| >= 1;
    assert ([s[..i]] + t)[|t|] == t[|t| - 1];
  }

  /** Without c, the text is its only piece. */
  lemma SplitWithout(s: string, c: char)
    requires IndexOf(s, [c]) < 0
    ensures EndsAfter(s, LastPiece(s, c), c)
  {
    assert LastPiece(s, c) == s;
    assert s[|s| - |s|..] == s;
  }

  /** `parts.join(sep)` */
  function Join(parts: seq<string>, sep: string): string
  {
    if |parts| == 0 then "" else if |parts| == 1 then parts[0] else parts[0] + sep + Join(parts[1..], sep)
  }

  /** Joining appends one piece behind the separator. */
  lemma {:induction false} JoinSnoc(parts: seq<string>, x: string, sep: string)
    requires parts != []
    ensures Join(parts + [x], sep) == Join(parts, sep) + sep + x
  {
    if |parts| > 1 {
      assert (parts + [x])[1..] == parts[1..] + [x];
      JoinSnoc(parts[1..], x, sep);
    }
  }

  lemma {:induction false} JoinChars(s: string)
    ensures Join(seq(|s|, i requires 0 <= i < |s| => [s[i]]), "") == s
  {
    var parts := seq(|s|, i requires 0 <= i < |s| => [s[i]]);
    if |s| > 1 {
      assert parts[1..] == seq(|s[1..]|, i requires 0 <= i < |s[1..]| => [s[1..][i]]);
      JoinChars(s[1..]);
      assert s == [s[0]] + s[1..];
    }
  }

  /** Joining puts the first piece in front of the others, behind the separator. */
  lemma JoinCons(x: string, parts: seq<string>, sep: string)
    requires parts != []
    ensures Join([x] + parts, sep) == x + sep + Join(parts, sep)
  {
    assert ([x] + parts)[1..] == parts;
  }

  /** Splitting and joining again with the same separator gives back the original string. */
  lemma {:induction false} JoinSplit(s: string, sep: string)
    ensures Join(Split(s, sep), sep) == s
    decreases |s|
  {
    if sep == [] {
      JoinChars(s);
    } else {
      var i := IndexOf(s, sep);
      if i >= 0 {
        var rest := s[i + |sep|..];
        var tail := Split(rest, sep);
        JoinSplit(rest, sep);
        assert Split(s, sep) == [s[..i]] + tail;
        JoinCons(s[..i], tail, sep);
        assert s[i..i + |sep|] == sep;
        assert s == s[..i] + s[i..i + |sep|] + rest;
      }
    }
  }

  /** Splitting on a character that none of the pieces contains takes the joined pieces apart again. */
  lemma {:induction false} SplitJoin(parts: seq<string>, c: char)
    requires parts != []
    requires forall k :: 0 <= k < |parts| ==> c !in parts[k]
    ensures Split(Join(parts, [c]), [c]) == parts
  {
    if |parts| == 1 {
      IndexOfAbsentChar(parts[0], c);
    } else {
      var s := Join(parts, [c]);
      var rest := Join(parts[1..], [c]);
      assert s == parts[0] + [c] + rest;
      assert s[|parts[0]|] == c;
      forall i | 0 <= i < |parts[0]| ensures s[i] != c {
        assert s[i] == parts[0][i];
      }
      IndexOfChar(s, c, |parts[0]|);
      assert s[..|parts[0]|] == parts[0];
      assert s[|parts[0]| + 1..] == rest;
      SplitJoin(parts[1..], c);
    }
  }

  /** No piece of a split by a single character contains that character. */
  lemma {:induction false} SplitPiecesAvoidSeparator(s: string, c: char)
    ensures forall k :: 0 <= k < |Split(s, [c])| ==> c !in Split(s, [c])[k]
    decreases |s|
  {
    var i := IndexOf(s, [c]);
    var bound := if i < 0 then |s| else i;
    forall j | 0 <= j < bound ensures s[j] != c {
      assert s[j..j + 1] == [s[j]];
      assert !OccursAt(s, [c], j);
    }
    if i >= 0 {
      SplitPiecesAvoidSeparator(s[i + 1..], c);
      assert Split(s, [c]) == [s[..i]] + Split(s[i + 1..], [c]);
    }
  }

  /** `s.split(q).join("")` with q possibly undefined: every non-overlapping occurrence of q removed; splitting by undefined leaves s whole. */
  function RemoveAll(s: string, q: string): (r: string)
    ensures IndexOf(s, q) < 0 && q != [] ==> r == s
  {
    Join(Split(s, q), "")
  }

  /** When the first occurrence of q in p + q is the appended one, removing q leaves p. */
  lemma RemoveAppended(p: string, q: string)
    requires q != []
    requires IndexOf(p + q, q) == |p|
    ensures RemoveAll(p + q, q) == p
  {
    assert (p + q)[|p| + |q|..] == [];
    assert (p + q)[..|p|] == p;
    assert Split([], q) == [[]];
    assert Split(p + q, q) == [p, []];
    assert [p, []][1..] == [[]];
    assert Join([p, []], "") == p + "" + [];
  }

  /** `s.replace(pat, rep)` with a string pattern: only the first occurrence is replaced. */
  function ReplaceFirst(s: string, pat: string, rep: string): (r: string)
    ensures IndexOf(s, pat) < 0 ==> r == s
    ensures IndexOf(s, pat) >= 0 ==> |r| == |s| - |pat| + |rep|
    ensures IndexOf(s, pat) >= 0 ==> r[..IndexOf(s, pat)] == s[..IndexOf(s, pat)]
    ensures IndexOf(s, pat) >= 0 ==> r[IndexOf(s, pat)..IndexOf(s, pat) + |rep|] == rep
    ensures IndexOf(s, pat) >= 0 ==> r[IndexOf(s, pat) + |rep|..] == s[IndexOf(s, pat) + |pat|..]
  {
    var i := IndexOf(s, pat);
    if i < 0 then s else s[..i] + rep + s[i + |pat|..]
  }
}
