/** The string searches the HTTP parser is made of. */
module HttpText {

  /** Position of the first `c`, or the length if there is none. */
  function IndexOf(s: string, c: char): (i: nat)
    ensures i <= |s|
    ensures i < |s| ==> s[i] == c
    ensures forall k :: 0 <= k < i ==> s[k] != c
  {
    if s == [] then 0 else if s[0] == c then 0 else 1 + IndexOf(s[1..], c)
  }

  /** Position of the last `c`, or -1. */
  function LastIndexOf(s: string, c: char): (i: int)
    ensures -1 <= i < |s|
    ensures i >= 0 ==> s[i] == c
    ensures forall k :: i < k < |s| ==> s[k] != c
  {
    if s == [] then -1
    else if s[|s| - 1] == c then |s| - 1
    else LastIndexOf(s[..|s| - 1], c)
  }

  predicate OccursAt(s: string, text: string, i: nat) {
    i + |text| <= |s| && forall j :: 0 <= j < |text| ==> s[i + j] == text[j]
  }

  /** First position of `text` in `s` at or after `start`, or -1. */
  function Find(s: string, text: string, start: nat): (i: int)
    ensures i == -1 || (start <= i && OccursAt(s, text, i))
    ensures i >= 0 ==> forall k :: start <= k < i ==> !OccursAt(s, text, k)
    ensures i == -1 ==> forall k :: start <= k ==> !OccursAt(s, text, k)
    decreases |s| - start
  {
    if start + |text| > |s| then -1
    else if OccursAt(s, text, start) then start
    else Find(s, text, start + 1)
  }

  /** The pieces `std::getline` yields with separator `sep`: an empty last piece is
      not reported. */
  function Pieces(s: string, sep: char): seq<string> {
    if s == [] then []
    else
      var i := IndexOf(s, sep);
      if i == |s| then [s] else [s[..i]] + Pieces(s[i + 1..], sep)
  }

  predicate Free(s: string, c: char) {
    forall i :: 0 <= i < |s| ==> s[i] != c
  }

  /** At most `n` characters from `start` on. */
  function Clamped(s: string, start: nat, n: nat): string
    requires start <= |s|
  {
    if start + n <= |s| then s[start..start + n] else s[start..]
  }

  // ---- facts --------------------------------------------------------------

  lemma FirstAt(s: string, c: char, i: nat)
    requires i < |s| && s[i] == c && Free(s[..i], c)
    ensures IndexOf(s, c) == i
  {
    assert forall k :: 0 <= k < i ==> s[..i][k] == s[k];
  }

  lemma NoneAt(s: string, c: char)
    requires Free(s, c)
    ensures IndexOf(s, c) == |s|
  {
  }

  lemma PiecesCons(piece: string, sep: char, rest: string)
    requires Free(piece, sep)
    ensures Pieces(piece + [sep] + rest, sep) == [piece] + Pieces(rest, sep)
  {
    var s := piece + [sep] + rest;
    assert s[..|piece|] == piece;
    FirstAt(s, sep, |piece|);
    assert s[|piece| + 1..] == rest;
  }

  lemma PiecesLast(piece: string, sep: char)
    requires Free(piece, sep) && piece != []
    ensures Pieces(piece, sep) == [piece]
  {
    NoneAt(piece, sep);
  }

  /** Where a text first occurs is determined by it. */
  lemma FoundAt(s: string, text: string, start: nat, i: nat)
    requires start <= i && OccursAt(s, text, i)
    requires forall k :: start <= k < i ==> !OccursAt(s, text, k)
    ensures Find(s, text, start) == i
  {
  }

  const CRLF := "\r\n"
  const BLANK := "\r\n\r\n"

  /** Lines of a header block end in CRLF; the block ends with an empty line. */
  function Block(lines: seq<string>): string {
    if lines == [] then CRLF else lines[0] + CRLF + Block(lines[1..])
  }

  predicate IsLine(l: string) {
    l != [] && Free(l, '\r') && Free(l, '\n')
  }

  predicate AreLines(lines: seq<string>) {
    forall i :: 0 <= i < |lines| ==> IsLine(lines[i])
  }

  lemma NotHere(s: string, text: string, k: nat, j: nat)
    requires j < |text| && k + j < |s| && s[k + j] != text[j]
    ensures !OccursAt(s, text, k)
  {
  }

  lemma ShiftedOccurs(p: string, t: string, text: string, j: nat)
    ensures OccursAt(p + t, text, |p| + j) <==> OccursAt(t, text, j)
  {
    assert forall m :: 0 <= m < |t| ==> (p + t)[|p| + m] == t[m];
    if OccursAt(p + t, text, |p| + j) {
      forall m | 0 <= m < |text|
        ensures t[j + m] == text[m]
      {
        assert (p + t)[|p| + j + m] == text[m];
      }
    }
  }

  lemma BlockSize(lines: seq<string>)
    requires AreLines(lines) && lines != []
    ensures |Block(lines)| >= 4 && Block(lines)[0] != '\r'
  {
    assert IsLine(lines[0]);
  }

  /** The first blank line of a message is the one that ends its header block. */
  lemma {:induction false} BlankAt(lines: seq<string>, rest: string, k: nat)
    requires AreLines(lines) && lines != [] && |Block(lines)| >= 4
    requires k <= |Block(lines)| - 4
    ensures OccursAt(Block(lines) + rest, BLANK, k) <==> k == |Block(lines)| - 4
  {
    var l, tail := lines[0], lines[1..];
    var n, t := |l|, Block(tail) + rest;
    var p := l + CRLF;
    var s := p + t;
    assert Block(lines) + rest == s;
    if k < n {
      assert s[k] == l[k] && l[k] != '\r';
      NotHere(s, BLANK, k, 0);
    } else if tail == [] {
      assert t == CRLF + rest;
    } else {
      BlockSize(tail);
      if k < n + 2 {
        assert s[n + 1] == '\n' && s[n + 2] == t[0] == Block(tail)[0];
        NotHere(s, BLANK, k, if k == n then 2 else 0);
      } else {
        BlankAt(tail, rest, k - n - 2);
        ShiftedOccurs(p, t, BLANK, k - n - 2);
      }
    }
  }

  lemma HeaderEnd(lines: seq<string>, rest: string)
    requires AreLines(lines) && lines != []
    ensures |Block(lines)| >= 4 && Find(Block(lines) + rest, BLANK, 0) == |Block(lines)| - 4
  {
    BlockSize(lines);
    var s, n := Block(lines) + rest, |Block(lines)| - 4;
    forall k: nat | k <= n
      ensures OccursAt(s, BLANK, k) <==> k == n
    {
      BlankAt(lines, rest, k);
    }
    FoundAt(s, BLANK, 0, n);
  }

  function WithCr(lines: seq<string>): seq<string> {
    if lines == [] then [] else [lines[0] + "\r"] + WithCr(lines[1..])
  }

  /** Splitting a header block at newlines gives its lines, each with its CR, and the
      CR of the blank line. */
  lemma {:induction false} BlockPieces(lines: seq<string>)
    requires AreLines(lines)
    ensures Pieces(Block(lines), '\n') == WithCr(lines) + ["\r"]
  {
    hide Pieces;
    if lines == [] {
      assert Block(lines) == "\r" + ['\n'] + "";
      PiecesCons("\r", '\n', "");
      PiecesNone('\n');
    } else {
      var l, tail := lines[0], lines[1..];
      BlockPieces(tail);
      assert Block(lines) == (l + "\r") + ['\n'] + Block(tail);
      assert IsLine(l) && Free(l + "\r", '\n');
      PiecesCons(l + "\r", '\n', Block(tail));
    }
  }

  lemma PiecesNone(sep: char)
    ensures Pieces("", sep) == []
  {
  }

  lemma FirstLine(lines: seq<string>)
    requires AreLines(lines) && lines != []
    ensures Find(Block(lines), CRLF, 0) == |lines[0]|
    ensures Block(lines)[..|lines[0]|] == lines[0]
  {
    var s, n := Block(lines), |lines[0]|;
    assert s == lines[0] + CRLF + Block(lines[1..]);
    forall k: nat | k < n
      ensures !OccursAt(s, CRLF, k)
    {
      assert s[k] == lines[0][k] && lines[0][k] != '\r';
      NotHere(s, CRLF, k, 0);
    }
    FoundAt(s, CRLF, 0, n);
  }
}
