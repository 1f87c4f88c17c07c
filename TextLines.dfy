// Whitespace handling of the golden-file comparers in tests/: Python's
// str.isspace, str.rstrip, str.strip, str.split with no argument and
// " ".join, on lines as file.readlines returns them.
module TextLines {

  /**
   * Python's str.isspace on the ASCII characters: the controls 9-13
   * (tab, line feed, vertical tab, form feed, carriage return), the
   * separators 28-31 and space.
   */
  predicate IsSpace(c: char) {
    c in {'\t', '\n', '\U{000B}', '\U{000C}', '\r', '\U{001C}', '\U{001D}', '\U{001E}', '\U{001F}', ' '}
  }

  /** Every character of s is whitespace (the empty string included). */
  predicate Blank(s: string) { forall i :: 0 <= i < |s| ==> IsSpace(s[i]) }

  /**
   * str.rstrip(): s without its trailing whitespace. The result is a prefix
   * of s, what was removed is all whitespace, and the result does not end
   * in whitespace; the leading whitespace stays.
   */
  function RStrip(s: string): (r: string)
    ensures |r| <= |s| && r == s[..|r|] && Blank(s[|r|..])
    ensures r == [] || !IsSpace(r[|r| - 1])
    decreases |s|
  {
    if s != [] && IsSpace(s[|s| - 1]) then RStrip(s[..|s| - 1]) else s
  }

  /** str.lstrip(): s without its leading whitespace. */
  function LStrip(s: string): (r: string)
    ensures |r| <= |s| && r == s[|s| - |r|..] && Blank(s[..|s| - |r|])
    ensures r == [] || !IsSpace(r[0])
    decreases |s|
  {
    if s != [] && IsSpace(s[0]) then LStrip(s[1..]) else s
  }

  /** str.strip(): both ends. */
  function Strip(s: string): string {
    LStrip(RStrip(s))
  }

  /** A line strips to nothing exactly when it is all whitespace. */
  lemma StripEmpty(s: string)
    ensures Strip(s) == [] <==> Blank(s)
    ensures RStrip(s) == [] <==> Blank(s)
  {
    var r := RStrip(s);
    if r == [] {
      assert s[|r|..] == s;
    } else {
      assert r[|r| - 1] == s[|r| - 1];
      assert !Blank(s);
      assert r[..|r|] == r;
      assert !Blank(r[..|r|]);
    }
  }

  /** rstrip is idempotent: a stripped line strips to itself. */
  lemma RStripIdempotent(s: string)
    ensures RStrip(RStrip(s)) == RStrip(s)
  {
  }

  // ------------------------------------------------------------- fields

  /** The length of the run of non-whitespace characters at the start of s. */
  function WordLength(s: string): (n: nat)
    ensures n <= |s| && (n < |s| ==> IsSpace(s[n]))
    ensures forall i :: 0 <= i < n ==> !IsSpace(s[i])
  {
    if s == [] || IsSpace(s[0]) then 0 else 1 + WordLength(s[1..])
  }

  /** A word: non-empty, no whitespace. */
  predicate Word(w: string) { w != [] && forall i :: 0 <= i < |w| ==> !IsSpace(w[i]) }

  /**
   * str.split() with no separator: the maximal runs of non-whitespace
   * characters, in order; whitespace at either end gives no empty field.
   */
  function Fields(s: string): (r: seq<string>)
    ensures forall j :: 0 <= j < |r| ==> Word(r[j])
    decreases |s|
  {
    if s == [] then []
    else if IsSpace(s[0]) then Fields(s[1..])
    else
      var n := WordLength(s);
      [s[..n]] + Fields(s[n..])
  }

  /** " ".join(ws): the words with one space between neighbours. */
  function JoinSpaced(ws: seq<string>): string {
    if ws == [] then []
    else if |ws| == 1 then ws[0]
    else ws[0] + " " + JoinSpaced(ws[1..])
  }

  /** "\n".join(lines). */
  function JoinLines(lines: seq<string>): string {
    if lines == [] then []
    else if |lines| == 1 then lines[0]
    else lines[0] + "\n" + JoinLines(lines[1..])
  }

  /** Splitting words joined with single spaces gives the words back. */
  lemma {:induction false} SplitJoin(ws: seq<string>)
    requires forall j :: 0 <= j < |ws| ==> Word(ws[j])
    ensures Fields(JoinSpaced(ws)) == ws
  {
    if ws == [] {
    } else if |ws| == 1 {
      WordFields(ws[0], []);
      assert ws[0] + [] == ws[0];
    } else {
      SplitJoin(ws[1..]);
      var tail := " " + JoinSpaced(ws[1..]);
      assert Fields(tail) == ws[1..];
      WordFields(ws[0], tail);
      assert ws[0] + " " + JoinSpaced(ws[1..]) == ws[0] + tail;
    }
  }

  /** A word followed by text that is empty or starts with whitespace is the first field. */
  lemma WordFields(w: string, rest: string)
    requires Word(w) && (rest == [] || IsSpace(rest[0]))
    ensures Fields(w + rest) == [w] + Fields(rest)
  {
    var s := w + rest;
    WordLengthOf(w, rest);
    assert s[..|w|] == w && s[|w|..] == rest;
  }

  lemma {:induction false} WordLengthOf(w: string, rest: string)
    requires forall i :: 0 <= i < |w| ==> !IsSpace(w[i])
    requires rest == [] || IsSpace(rest[0])
    ensures WordLength(w + rest) == |w|
    decreases |w|
  {
    if w != [] {
      assert (w + rest)[1..] == w[1..] + rest;
      WordLengthOf(w[1..], rest);
    }
  }

  /** What a command-line comparer ends with: its exit status and what it wrote to stdout and stderr. */
  datatype Outcome = Outcome(status: int, stdout: string, stderr: string)
}
