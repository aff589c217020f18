/**
 * String handling shared by the client and the server: the whitespace classes of
 * JavaScript and Python, trimming, splitting on a separator character, Python's
 * argument-less `str.split()`, decimal text of integers and SQLite's text order.
 */
module Text {

  /** Characters removed by JavaScript's `String.prototype.trim` (ECMAScript WhiteSpace and LineTerminator). */
  predicate IsJsSpace(c: char)
  {
    var n := c as int;
    (9 <= n <= 13) || n == 0x20 || n == 0xA0 || n == 0x1680 || (0x2000 <= n <= 0x200A)
    || n == 0x2028 || n == 0x2029 || n == 0x202F || n == 0x205F || n == 0x3000 || n == 0xFEFF
  }

  /** Characters for which Python's `str.isspace` holds; `strip()` and `split()` use this class. */
  predicate IsPySpace(c: char)
  {
    var n := c as int;
    (9 <= n <= 13) || (0x1C <= n <= 0x20) || n == 0x85 || n == 0xA0 || n == 0x1680
    || (0x2000 <= n <= 0x200A) || n == 0x2028 || n == 0x2029 || n == 0x202F || n == 0x205F || n == 0x3000
  }

  /** `s` with its leading characters in class `sp` removed. */
  function TrimStart(s: string, sp: char -> bool): (r: string)
    ensures |r| <= |s| && r == s[|s| - |r|..]
    ensures r == [] || !sp(r[0])
    ensures forall i :: 0 <= i < |s| - |r| ==> sp(s[i])
    decreases |s|
  {
    if s != [] && sp(s[0]) then
      var r := TrimStart(s[1..], sp);
      assert s[1..][|s| - 1 - |r|..] == s[|s| - |r|..];
      assert forall i :: 1 <= i < |s| - |r| ==> s[i] == s[1..][i - 1];
      r
    else s
  }

  /** `s` with its trailing characters in class `sp` removed. */
  function TrimEnd(s: string, sp: char -> bool): (r: string)
    ensures |r| <= |s| && r == s[..|r|]
    ensures r == [] || !sp(r[|r| - 1])
    ensures forall i :: |r| <= i < |s| ==> sp(s[i])
    decreases |s|
  {
    if s != [] && sp(s[|s| - 1]) then
      var r := TrimEnd(s[..|s| - 1], sp);
      assert s[..|s| - 1][..|r|] == s[..|r|];
      assert forall i :: |r| <= i < |s| - 1 ==> s[i] == s[..|s| - 1][i];
      r
    else s
  }

  /**
   * Both ends trimmed: the result is the middle of `s` that starts after the
   * leading `sp` characters, everything before and after it is in class `sp`,
   * and it neither starts nor ends with such a character.
   */
  function Trim(s: string, sp: char -> bool): (r: string)
    ensures |r| <= |s|
    ensures MiddleAt(s, r, |s| - |TrimStart(s, sp)|, sp)
    ensures r == [] || (!sp(r[0]) && !sp(r[|r| - 1]))
  {
    var a := TrimStart(s, sp);
    var b := TrimEnd(a, sp);
    TrimmedMiddle(s, a, b, sp);
    b
  }

  /** What is left after dropping `|s| - |a|` leading and then `|a| - |b|` trailing `sp` characters. */
  lemma TrimmedMiddle(s: string, a: string, b: string, sp: char -> bool)
    requires |a| <= |s| && a == s[|s| - |a|..] && forall k :: 0 <= k < |s| - |a| ==> sp(s[k])
    requires |b| <= |a| && b == a[..|b|] && forall k :: |b| <= k < |a| ==> sp(a[k])
    ensures MiddleAt(s, b, |s| - |a|, sp)
  {
    var i := |s| - |a|;
    forall k | i + |b| <= k < |s| ensures sp(s[k]) {
      assert s[k] == a[k - i];
    }
  }

  /** `r` is `s[i..i + |r|]`, and every character of `s` outside it is in class `sp`. */
  predicate MiddleAt(s: string, r: string, i: int, sp: char -> bool)
  {
    0 <= i <= |s| - |r| && r == s[i..i + |r|]
    && (forall k :: 0 <= k < i ==> sp(s[k])) && (forall k :: i + |r| <= k < |s| ==> sp(s[k]))
  }

  /** JavaScript `s.trim()`. */
  function JsTrim(s: string): string { Trim(s, IsJsSpace) }

  /** Python `s.strip()`. */
  function PyStrip(s: string): string { Trim(s, IsPySpace) }

  /** Trimming twice is trimming once. */
  lemma {:induction false} TrimIdempotent(s: string, sp: char -> bool)
    ensures Trim(Trim(s, sp), sp) == Trim(s, sp)
  {
    var r := Trim(s, sp);
    assert r == [] || !sp(r[0]);
    assert TrimStart(r, sp) == r;
    assert TrimEnd(r, sp) == r;
  }

  /** Index of the first `sep` in `s`, or `|s|` when there is none. */
  function IndexOf(s: string, sep: char): (i: nat)
    ensures i <= |s|
    ensures i < |s| ==> s[i] == sep
    ensures forall k :: 0 <= k < i ==> s[k] != sep
    decreases |s|
  {
    if s == [] then 0 else if s[0] == sep then 0 else 1 + IndexOf(s[1..], sep)
  }

  /** Number of occurrences of `c` in `s`. */
  function Count(s: string, c: char): nat
    decreases |s|
  {
    if s == [] then 0 else (if s[0] == c then 1 else 0) + Count(s[1..], c)
  }

  /**
   * `s.split(sep)` for a one-character separator, which JavaScript and Python
   * agree on: the text between consecutive separators, empty pieces included.
   * Defined a character at a time: a separator opens a new piece, any other
   * character goes to the front of the first piece.
   */
  function Split(s: string, sep: char): (r: seq<string>)
    ensures |r| >= 1
    decreases |s|
  {
    if s == [] then [[]]
    else
      var rest := Split(s[1..], sep);
      if s[0] == sep then [[]] + rest else [[s[0]] + rest[0]] + rest[1..]
  }

  /** Concatenation is associative (stated for any element type, so that no element is compared). */
  lemma AppendAssoc<T>(a: seq<T>, b: seq<T>, c: seq<T>)
    ensures a + (b + c) == (a + b) + c
  {
  }

  /** Pieces glued back with the separator. */
  function Join(pieces: seq<string>, sep: char): string
    decreases |pieces|
  {
    if pieces == [] then "" else if |pieces| == 1 then pieces[0] else pieces[0] + [sep] + Join(pieces[1..], sep)
  }

  lemma CountAppend(a: string, b: string, c: char)
    ensures Count(a + b, c) == Count(a, c) + Count(b, c)
    decreases |a|
  {
    if a != [] {
      assert (a + b)[1..] == a[1..] + b;
      CountAppend(a[1..], b, c);
    } else {
      assert a + b == b;
    }
  }

  lemma CountNone(s: string, c: char)
    requires forall k :: 0 <= k < |s| ==> s[k] != c
    ensures Count(s, c) == 0
    decreases |s|
  {
    if s != [] { CountNone(s[1..], c); }
  }

  /** Joining a piece in front of at least one more. */
  lemma JoinCons(p: string, tail: seq<string>, sep: char)
    requires tail != []
    ensures Join([p] + tail, sep) == p + [sep] + Join(tail, sep)
  {
    assert ([p] + tail)[1..] == tail;
  }

  /** Splitting then joining gives the input back. */
  lemma {:induction false} SplitJoin(s: string, sep: char)
    ensures Join(Split(s, sep), sep) == s
    decreases |s|
  {
    if s != [] {
      var rest := Split(s[1..], sep);
      SplitJoin(s[1..], sep);
      if s[0] == sep {
        JoinCons([], rest, sep);
      } else if |rest| == 1 {
        assert Split(s, sep) == [[s[0]] + rest[0]];
      } else {
        JoinCons([s[0]] + rest[0], rest[1..], sep);
        JoinCons(rest[0], rest[1..], sep);
        assert rest == [rest[0]] + rest[1..];
      }
      assert s == [s[0]] + s[1..];
    }
  }

  /** There is one piece more than there are separators. */
  lemma {:induction false} SplitCount(s: string, sep: char)
    ensures |Split(s, sep)| == Count(s, sep) + 1
    decreases |s|
  {
    if s != [] {
      SplitCount(s[1..], sep);
    }
  }

  /** No piece holds the separator. */
  lemma {:induction false} SplitPiecesFree(s: string, sep: char)
    ensures forall p, k :: p in Split(s, sep) && 0 <= k < |p| ==> p[k] != sep
    decreases |s|
  {
    if s != [] {
      var rest := Split(s[1..], sep);
      SplitPiecesFree(s[1..], sep);
      if s[0] != sep {
        var first := [s[0]] + rest[0];
        assert rest[0] in rest;
        assert forall k :: 1 <= k < |first| ==> first[k] == rest[0][k - 1];
        assert forall p :: p in rest[1..] ==> p in rest;
      }
    }
  }

  /** Splitting at a separator written between two texts splits each of them. */
  lemma {:induction false} SplitAppend(a: string, b: string, sep: char)
    ensures Split(a + ([sep] + b), sep) == Split(a, sep) + Split(b, sep)
    decreases |a|
  {
    var x := [sep] + b;
    if a == [] {
      assert a + x == x && x[1..] == b;
    } else {
      var s := a + x;
      assert s[0] == a[0] && s[1..] == a[1..] + x;
      SplitAppend(a[1..], b, sep);
      var r1 := Split(a[1..], sep);
      var r2 := Split(b, sep);
      if a[0] != sep {
        assert (r1 + r2)[0] == r1[0];
        assert (r1 + r2)[1..] == r1[1..] + r2;
      }
    }
  }

  /** A text without the separator is one piece. */
  lemma {:induction false} SplitNone(s: string, sep: char)
    requires forall k :: 0 <= k < |s| ==> s[k] != sep
    ensures Split(s, sep) == [s]
    decreases |s|
  {
    if s != [] {
      SplitNone(s[1..], sep);
      assert s == [s[0]] + s[1..];
    }
  }

  /** Trimming leaves nothing exactly when every character is a space. */
  lemma TrimEmpty(s: string, sp: char -> bool)
    ensures Trim(s, sp) == [] <==> forall k :: 0 <= k < |s| ==> sp(s[k])
  {
  }

  /** Leading non-space run of `s` (in Python's sense). */
  function WordLen(s: string): (n: nat)
    ensures n <= |s|
    ensures forall k :: 0 <= k < n ==> !IsPySpace(s[k])
    ensures n < |s| ==> IsPySpace(s[n])
    decreases |s|
  {
    if s == [] || IsPySpace(s[0]) then 0 else 1 + WordLen(s[1..])
  }

  /** A word in Python's sense: not empty, no whitespace. */
  predicate IsWord(t: string)
  {
    t != [] && forall k :: 0 <= k < |t| ==> !IsPySpace(t[k])
  }

  /** Python `s.split()` with no argument: the maximal runs of non-space characters, in order. */
  function PySplit(s: string): (r: seq<string>)
    ensures forall w :: w in r ==> IsWord(w)
    decreases |s|
  {
    if s == [] then []
    else if IsPySpace(s[0]) then PySplit(s[1..])
    else var n := WordLen(s); [s[..n]] + PySplit(s[n..])
  }

  /** Leading spaces do not change what `split()` returns. */
  lemma {:induction false} PySplitSkipsSpaces(w: string, s: string)
    requires forall k :: 0 <= k < |w| ==> IsPySpace(w[k])
    ensures PySplit(w + s) == PySplit(s)
    decreases |w|
  {
    if w != [] {
      assert (w + s)[1..] == w[1..] + s;
      PySplitSkipsSpaces(w[1..], s);
    } else {
      assert w + s == s;
    }
  }

  /** A word followed by nothing or by a space: `split()` gives the word, then whatever the rest splits into. */
  lemma PySplitWordThen(a: string, rest: string)
    requires a != [] && forall k :: 0 <= k < |a| ==> !IsPySpace(a[k])
    requires rest == [] || IsPySpace(rest[0])
    ensures PySplit(a + rest) == [a] + PySplit(rest)
  {
    WordLenOfWord(a, rest);
    assert (a + rest)[0] == a[0];
    assert (a + rest)[..|a|] == a && (a + rest)[|a|..] == rest;
  }

  /** A word, then at least one space, then a word: `split()` returns exactly the two words. */
  lemma {:induction false} PySplitTwoWords(a: string, gap: string, b: string)
    requires a != [] && b != [] && gap != []
    requires forall k :: 0 <= k < |a| ==> !IsPySpace(a[k])
    requires forall k :: 0 <= k < |b| ==> !IsPySpace(b[k])
    requires forall k :: 0 <= k < |gap| ==> IsPySpace(gap[k])
    ensures PySplit(a + gap + b) == [a, b]
  {
    var s := a + gap + b;
    WordLenOfWord(a, gap + b);
    assert s == a + (gap + b);
    assert s[..|a|] == a && s[|a|..] == gap + b;
    PySplitSkipsSpaces(gap, b);
    WordLenOfWord(b, []);
    assert b + [] == b;
    assert b[|b|..] == [];
    assert PySplit(b) == [b] + PySplit([]);
  }

  lemma {:induction false} WordLenOfWord(a: string, rest: string)
    requires forall k :: 0 <= k < |a| ==> !IsPySpace(a[k])
    requires rest == [] || IsPySpace(rest[0])
    ensures WordLen(a + rest) == |a|
    decreases |a|
  {
    if a != [] {
      assert (a + rest)[0] == a[0];
      assert (a + rest)[1..] == a[1..] + rest;
      assert forall k :: 0 <= k < |a[1..]| ==> a[1..][k] == a[k + 1];
      WordLenOfWord(a[1..], rest);
    } else {
      assert a + rest == rest;
    }
  }

  /** Every character of `s` is whitespace (the empty text included). */
  predicate AllSpace(s: string)
  {
    forall k :: 0 <= k < |s| ==> IsPySpace(s[k])
  }

  /** `gaps[0] + words[0] + gaps[1] + ... + words[n - 1] + gaps[n]`. */
  function Interleave(words: seq<string>, gaps: seq<string>): string
    requires |gaps| == |words| + 1
    decreases |words|
  {
    if words == [] then gaps[0] else gaps[0] + words[0] + Interleave(words[1..], gaps[1..])
  }

  /** Whitespace runs that can separate words: all whitespace, and not empty between two words. */
  predicate Separates(gaps: seq<string>)
  {
    (forall i :: 0 <= i < |gaps| ==> AllSpace(gaps[i])) && (forall i :: 0 < i < |gaps| - 1 ==> gaps[i] != [])
  }

  /** The whitespace runs around and between the words of `s`, as `PySplit` skips them. */
  function PySplitGaps(s: string): (g: seq<string>)
    ensures |g| >= 1
    ensures s != [] && IsPySpace(s[0]) ==> g[0] != []
    decreases |s|
  {
    if s == [] then [[]]
    else if IsPySpace(s[0]) then
      var g := PySplitGaps(s[1..]);
      [[s[0]] + g[0]] + g[1..]
    else [[]] + PySplitGaps(s[WordLen(s)..])
  }

  /** Words separated by whitespace runs split back into exactly those words. */
  lemma {:induction false} PySplitInterleave(words: seq<string>, gaps: seq<string>)
    requires |gaps| == |words| + 1 && Separates(gaps)
    requires forall w :: w in words ==> IsWord(w)
    ensures PySplit(Interleave(words, gaps)) == words
    decreases |words|
  {
    if words == [] {
      PySplitSkipsSpaces(gaps[0], []);
      assert gaps[0] + [] == gaps[0];
    } else {
      var rest := Interleave(words[1..], gaps[1..]);
      assert Separates(gaps[1..]) by {
        forall i | 0 < i < |gaps[1..]| - 1 ensures gaps[1..][i] != [] {
          assert gaps[1..][i] == gaps[i + 1];
        }
      }
      assert forall w :: w in words[1..] ==> w in words;
      PySplitInterleave(words[1..], gaps[1..]);
      assert rest == [] || IsPySpace(rest[0]) by {
        if words[1..] != [] {
          assert gaps[1] != [];
          assert rest == gaps[1] + (words[1] + Interleave(words[2..], gaps[2..]));
        }
      }
      assert words[0] in words;
      PySplitWordThen(words[0], rest);
      PySplitSkipsSpaces(gaps[0], words[0] + rest);
      assert Interleave(words, gaps) == gaps[0] + (words[0] + rest);
      assert words == [words[0]] + words[1..];
    }
  }

  /** `s` is its words interleaved with the runs `PySplitGaps` gives. */
  predicate Covered(s: string)
  {
    |PySplitGaps(s)| == |PySplit(s)| + 1 && Separates(PySplitGaps(s))
    && Interleave(PySplit(s), PySplitGaps(s)) == s
  }

  /** Every text is its words interleaved with the whitespace runs `PySplit` skips. */
  lemma {:induction false} PySplitCovers(s: string)
    ensures |PySplitGaps(s)| == |PySplit(s)| + 1 && Separates(PySplitGaps(s))
    ensures Interleave(PySplit(s), PySplitGaps(s)) == s
    decreases |s|
  {
    if s == [] {
    } else if IsPySpace(s[0]) {
      PySplitCovers(s[1..]);
      CoveredAfterSpace(s);
    } else {
      PySplitCovers(s[WordLen(s)..]);
      CoveredAfterWord(s);
    }
  }

  /** Text put in front of the first run comes out in front of the interleaving. */
  lemma InterleaveFront(words: seq<string>, g: seq<string>, c: string)
    requires |g| == |words| + 1
    ensures Interleave(words, [c + g[0]] + g[1..]) == c + Interleave(words, g)
  {
    var gs := [c + g[0]] + g[1..];
    assert gs[0] == c + g[0] && gs[1..] == g[1..];
    if words != [] {
      AppendAssoc(c, g[0], words[0]);
      AppendAssoc(c, g[0] + words[0], Interleave(words[1..], g[1..]));
    }
  }

  /** A word with an empty run before it comes out first. */
  lemma InterleaveWord(x: string, words: seq<string>, g: seq<string>)
    requires |g| == |words| + 1
    ensures Interleave([x] + words, [[]] + g) == x + Interleave(words, g)
  {
    assert ([x] + words)[1..] == words && ([[]] + g)[1..] == g;
  }

  /** A space in front of a covered text joins its first run. */
  lemma CoveredAfterSpace(s: string)
    requires s != [] && IsPySpace(s[0]) && Covered(s[1..])
    ensures Covered(s)
  {
    var g := PySplitGaps(s[1..]);
    assert PySplitGaps(s) == [[s[0]] + g[0]] + g[1..];
    assert PySplit(s) == PySplit(s[1..]);
    InterleaveFront(PySplit(s[1..]), g, [s[0]]);
    assert s == [s[0]] + s[1..];
    SeparatesJoinFront(g, [s[0]]);
  }

  /** Whitespace put in front of the first run keeps the runs separating. */
  lemma SeparatesJoinFront(g: seq<string>, c: string)
    requires |g| >= 1 && Separates(g) && AllSpace(c)
    ensures Separates([c + g[0]] + g[1..])
  {
    var gs := [c + g[0]] + g[1..];
    assert forall i :: 1 <= i < |gs| ==> gs[i] == g[i];
    assert AllSpace(g[0]);
    assert AllSpace(gs[0]) by {
      assert forall k :: |c| <= k < |gs[0]| ==> gs[0][k] == g[0][k - |c|];
    }
  }

  /** A word in front of a covered text that starts with a space (or is empty) is its first word. */
  lemma CoveredAfterWord(s: string)
    requires s != [] && !IsPySpace(s[0]) && Covered(s[WordLen(s)..])
    ensures Covered(s)
  {
    var n := WordLen(s);
    var w := PySplit(s[n..]);
    var g := PySplitGaps(s[n..]);
    assert |g| == |w| + 1 && Separates(g) && Interleave(w, g) == s[n..];
    assert |g| > 1 ==> g[0] != [] by {
      if s[n..] != [] {
        assert s[n..][0] == s[n];
      }
    }
    SeparatesEmptyFront(g);
    assert PySplitGaps(s) == [[]] + g;
    assert PySplit(s) == [s[..n]] + w;
    InterleaveWord(s[..n], w, g);
    assert s == s[..n] + s[n..];
  }

  /** An empty run put in front of runs whose first is not empty (when it is not the last) still separates. */
  lemma SeparatesEmptyFront(g: seq<string>)
    requires Separates(g) && (|g| > 1 ==> g[0] != [])
    ensures Separates([[]] + g)
  {
    var gs := [[]] + g;
    assert forall i :: 1 <= i < |gs| ==> gs[i] == g[i - 1];
  }

  /** The number a text of decimal digits denotes. */
  function DecimalValue(r: string): nat
    requires forall k :: 0 <= k < |r| ==> '0' <= r[k] <= '9'
    decreases |r|
  {
    if r == [] then 0 else 10 * DecimalValue(r[..|r| - 1]) + (r[|r| - 1] - '0') as int
  }

  /** Decimal digits of a natural number, most significant first, with no leading zero. */
  function NatText(n: nat): (r: string)
    ensures r != [] && forall k :: 0 <= k < |r| ==> '0' <= r[k] <= '9'
    ensures DecimalValue(r) == n
    ensures r[0] == '0' ==> r == "0"
    decreases n
  {
    var d := ['0' + (n % 10) as char];
    if n < 10 then d
    else
      var t := NatText(n / 10);
      assert (t + d)[..|t + d| - 1] == t;
      t + d
  }

  /** Python `str(n)` for an integer: decimal digits with a leading `-` when negative. */
  function IntText(n: int): string
  {
    if n < 0 then "-" + NatText(-n) else NatText(n)
  }

  /** SQLite's BINARY collation on text: comparison character by character (UTF-8 byte order is code-point order). */
  predicate TextLe(a: string, b: string)
    decreases |a|
  {
    a == [] || (b != [] && (a[0] < b[0] || (a[0] == b[0] && TextLe(a[1..], b[1..]))))
  }

  /** Any two texts are ordered one way or the other. */
  lemma {:induction false} TextLeTotal(a: string, b: string)
    ensures TextLe(a, b) || TextLe(b, a)
    decreases |a|
  {
    if a != [] && b != [] && a[0] == b[0] { TextLeTotal(a[1..], b[1..]); }
  }

  /** The order is transitive. */
  lemma {:induction false} TextLeTrans(a: string, b: string, c: string)
    requires TextLe(a, b) && TextLe(b, c)
    ensures TextLe(a, c)
    decreases |a|
  {
    if a != [] && a[0] == b[0] && b[0] == c[0] { TextLeTrans(a[1..], b[1..], c[1..]); }
  }
}
