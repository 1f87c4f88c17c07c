// The lexer tests' golden-file comparison (tests/compare_tokens.py): the
// reference file and the lexer's output are normalised alike (blank lines
// dropped, trailing whitespace cut) and compared as lists of lines.
module CompareTokens {
  import opened TextLines

  /**
   * The normalisation of load_lines and load_actual: every line that is
   * not all whitespace, without its trailing whitespace, in input order.
   * Each result line is non-empty and does not end in whitespace.
   */
  function Normalize(lines: seq<string>): (r: seq<string>)
    ensures |r| <= |lines|
    ensures forall j :: 0 <= j < |r| ==> Trimmed(r[j])
  {
    if lines == [] then []
    else
      var rest := Normalize(lines[1..]);
      if Strip(lines[0]) == [] then rest
      else
        KeptIsTrimmed(lines[0]);
        [RStrip(lines[0])] + rest
  }

  /** A kept line: non-empty and not ending in whitespace. */
  predicate Trimmed(s: string) { s != [] && !IsSpace(s[|s| - 1]) }

  lemma KeptIsTrimmed(line: string)
    requires Strip(line) != []
    ensures Trimmed(RStrip(line))
  {
    StripEmpty(line);
  }

  /** One line: dropped exactly when it is all whitespace, else kept without its trailing whitespace. */
  lemma NormalizeLine(line: string)
    ensures Normalize([line]) == if Blank(line) then [] else [RStrip(line)]
  {
    StripEmpty(line);
    assert [line][1..] == [];
  }

  /** Normalisation works line by line and keeps the order: it distributes over concatenation. */
  lemma {:induction false} NormalizeAppend(a: seq<string>, b: seq<string>)
    ensures Normalize(a + b) == Normalize(a) + Normalize(b)
  {
    if a == [] {
      assert a + b == b;
    } else {
      assert (a + b)[0] == a[0] && (a + b)[1..] == a[1..] + b;
      NormalizeAppend(a[1..], b);
    }
  }

  /** Normalising normalised lines changes nothing. */
  lemma {:induction false} NormalizeIdempotent(lines: seq<string>)
    ensures Normalize(Normalize(lines)) == Normalize(lines)
  {
    if lines != [] {
      NormalizeIdempotent(lines[1..]);
      var l := lines[0];
      StripEmpty(l);
      if !Blank(l) {
        var r := RStrip(l);
        RStripIdempotent(l);
        StripEmpty(r);
        NormalizeAppend([r], Normalize(lines[1..]));
        NormalizeLine(r);
        assert !Blank(r) by {
          assert !IsSpace(r[|r| - 1]);
        }
      }
    }
  }

  /** main: the exit status and the report of a run with the arguments counted by argc (the program name included). */
  function Compare(argc: nat, refLines: seq<string>, actualLines: seq<string>): (o: Outcome)
    ensures o.status == 2 <==> argc != 2
    ensures argc == 2 ==> (o.status == 0 <==> Normalize(refLines) == Normalize(actualLines))
    ensures o.status == 0 || o.status == 1 || o.status == 2
    ensures o.status == 0 ==> o.stdout == [] && o.stderr == []
    ensures o.stdout == []
  {
    if argc != 2 then Outcome(2, [], "Usage: compare_tokens.py <ref-file>\n")
    else
      var ref := Normalize(refLines);
      var actual := Normalize(actualLines);
      if ref == actual then Outcome(0, [], [])
      else Outcome(1, [], "Token mismatch:\n" + "Expected:\n" + JoinLines(ref) + "\n" + "\nActual:\n" + JoinLines(actual) + "\n")
  }

  /** The verdict does not depend on which side is the reference. */
  lemma CompareSymmetric(refLines: seq<string>, actualLines: seq<string>)
    ensures Compare(2, refLines, actualLines).status == Compare(2, actualLines, refLines).status
  {
  }

  /** A blank line added to the reference never changes the verdict. */
  lemma CompareIgnoresBlank(refLines: seq<string>, actualLines: seq<string>, blank: string)
    requires Blank(blank)
    ensures Compare(2, refLines + [blank], actualLines).status == Compare(2, refLines, actualLines).status
  {
    NormalizeDropsBlank(refLines, blank);
  }

  lemma NormalizeDropsBlank(lines: seq<string>, blank: string)
    requires Blank(blank)
    ensures Normalize(lines + [blank]) == Normalize(lines)
  {
    NormalizeAppend(lines, [blank]);
    NormalizeLine(blank);
    assert Normalize(lines) + [] == Normalize(lines);
  }

  /** Comparing an already normalised reference gives the same verdict. */
  lemma CompareNormalized(refLines: seq<string>, actualLines: seq<string>)
    ensures Compare(2, Normalize(refLines), actualLines).status == Compare(2, refLines, actualLines).status
  {
    NormalizeIdempotent(refLines);
  }
}
