// The parser tests' trace comparison (tests/compare_trace.py): of a trace
// only the "move" steps count, each reduced to the fields between its step
// number and its action; the scan stops where the IR output begins.
module CompareTrace {
  import opened Common
  import opened TextLines

  /** The IR output begins with a line that, stripped, starts with "define ". */
  predicate Sentinel(line: string) {
    var l := Strip(line);
    |l| >= 7 && l[..7] == "define "
  }

  /** What one line contributes: the fields between the first and the last, when it is a move step of three or more fields. */
  function MoveOf(line: string): Option<string> {
    var parts := Fields(Strip(line));
    if |parts| < 3 || parts[|parts| - 1] != "move" then None
    else Some(JoinSpaced(parts[1..|parts| - 1]))
  }

  /** What the loop does with one line: skip it, stop before it, or collect its entry. */
  datatype LineKind = Skip | Stop | Move(entry: string)

  /** A blank line is skipped, a sentinel stops the scan, a move line yields its entry, any other line is skipped. */
  function KindOf(line: string): LineKind {
    if Strip(line) == [] then Skip
    else if Sentinel(line) then Stop
    else match MoveOf(line)
      case None => Skip
      case Some(entry) => Move(entry)
  }

  function Kinds(lines: seq<string>): (ks: seq<LineKind>)
    ensures |ks| == |lines| && forall i :: 0 <= i < |lines| ==> ks[i] == KindOf(lines[i])
  {
    seq(|lines|, i requires 0 <= i < |lines| => KindOf(lines[i]))
  }

  /** The entries of the move lines in order, up to the first sentinel. */
  function Collect(ks: seq<LineKind>): (r: seq<string>)
    ensures |r| <= |ks|
  {
    if ks == [] then []
    else match ks[0]
      case Stop => []
      case Skip => Collect(ks[1..])
      case Move(entry) => [entry] + Collect(ks[1..])
  }

  /** The moves of a trace (load_moves_from_lines). */
  function Moves(lines: seq<string>): (r: seq<string>)
    ensures |r| <= |lines|
  {
    Collect(Kinds(lines))
  }

  /** load_moves_from_lines: the loop over the lines, skipping, stopping and collecting as it goes. */
  method LoadMoves(lines: seq<string>) returns (moves: seq<string>)
    ensures moves == Moves(lines)
  {
    ghost var ks := Kinds(lines);
    moves := [];
    var i := 0;
    assert ks[0..] == ks;
    while i < |lines|
      invariant 0 <= i <= |lines|
      invariant moves + Collect(ks[i..]) == Collect(ks)
    {
      CollectAt(ks, i);
      var stop, entry := ScanLine(lines[i]);
      if stop {
        AppendEmpty(moves);
        return;  // the IR output begins
      }
      if entry.Some? {
        AppendAssoc(moves, [entry.value], Collect(ks[i + 1..]));
        moves := moves + [entry.value];
      }
      i := i + 1;
    }
    AppendEmpty(moves);
  }

  /**
   * The body of the loop for one line: stop at the sentinel; skip a blank
   * line, a line of fewer than three fields or one whose last field is not
   * "move"; otherwise yield the fields between the first and the last.
   */
  method ScanLine(raw: string) returns (stop: bool, entry: Option<string>)
    ensures stop <==> KindOf(raw).Stop?
    ensures !stop ==> (entry.Some? <==> KindOf(raw).Move?) && (entry.Some? ==> entry.value == KindOf(raw).entry)
  {
    var line := Strip(raw);
    if line == [] {
      return false, None;
    }
    if |line| >= 7 && line[..7] == "define " {
      return true, None;
    }
    var parts := Fields(line);
    if |parts| < 3 {
      return false, None;
    }
    var action := parts[|parts| - 1];
    if action != "move" {
      return false, None;
    }
    return false, Some(JoinSpaced(parts[1..|parts| - 1]));
  }

  lemma AppendAssoc(a: seq<string>, b: seq<string>, c: seq<string>)
    ensures (a + b) + c == a + (b + c)
  {
  }

  lemma AppendEmpty(a: seq<string>)
    ensures a + [] == a
  {
  }

  /** The collected entries from position i on, by the kind at i. */
  lemma CollectAt(ks: seq<LineKind>, i: nat)
    requires i < |ks|
    ensures ks[i].Stop? ==> Collect(ks[i..]) == []
    ensures ks[i].Skip? ==> Collect(ks[i..]) == Collect(ks[i + 1..])
    ensures ks[i].Move? ==> Collect(ks[i..]) == [ks[i].entry] + Collect(ks[i + 1..])
  {
    assert ks[i..][0] == ks[i] && ks[i..][1..] == ks[i + 1..];
  }

  /** Nothing after a stop contributes. */
  lemma {:induction false} CollectStops(before: seq<LineKind>, after: seq<LineKind>)
    ensures Collect(before + [Stop] + after) == Collect(before)
  {
    if before == [] {
      assert before + [Stop] + after == [Stop] + after;
    } else {
      var ks := before + [Stop] + after;
      assert ks[0] == before[0] && ks[1..] == before[1..] + [Stop] + after;
      CollectStops(before[1..], after);
    }
  }

  /** Kinds before any stop contribute in order. */
  lemma {:induction false} CollectAppend(a: seq<LineKind>, b: seq<LineKind>)
    requires Stop !in a
    ensures Collect(a + b) == Collect(a) + Collect(b)
  {
    if a == [] {
      assert a + b == b;
    } else {
      assert (a + b)[0] == a[0] && (a + b)[1..] == a[1..] + b;
      CollectAppend(a[1..], b);
    }
  }

  lemma KindsAppend(a: seq<string>, b: seq<string>)
    ensures Kinds(a + b) == Kinds(a) + Kinds(b)
  {
    var k := Kinds(a + b);
    forall i | 0 <= i < |a + b| ensures k[i] == (Kinds(a) + Kinds(b))[i] {
      if i < |a| {
        assert (a + b)[i] == a[i];
      } else {
        assert (a + b)[i] == b[i - |a|];
      }
    }
  }

  /** Nothing after a sentinel line contributes: the moves are those of the lines before it. */
  lemma SentinelStops(before: seq<string>, sentinel: string, after: seq<string>)
    requires Sentinel(sentinel)
    ensures Moves(before + [sentinel] + after) == Moves(before)
    ensures |Moves(before + [sentinel] + after)| <= |before|
  {
    KindsAppend(before + [sentinel], after);
    KindsAppend(before, [sentinel]);
    assert Kinds([sentinel]) == [Stop];
    CollectStops(Kinds(before), Kinds(after));
  }

  /** Lines before any sentinel contribute in order: the moves of two pieces are concatenated. */
  lemma MovesAppend(a: seq<string>, b: seq<string>)
    requires forall j :: 0 <= j < |a| ==> !Sentinel(a[j])
    ensures Moves(a + b) == Moves(a) + Moves(b)
  {
    KindsAppend(a, b);
    assert Stop !in Kinds(a);
    CollectAppend(Kinds(a), Kinds(b));
  }

  /**
   * An entry reads back as the fields it was made of: split again, it gives
   * the fields between the step number and the action, so entries compare
   * field by field, whatever spacing the trace used.
   */
  lemma EntryFields(line: string)
    requires MoveOf(line).Some?
    ensures var parts := Fields(Strip(line));
      Fields(MoveOf(line).value) == parts[1..|parts| - 1]
  {
    var parts := Fields(Strip(line));
    SplitJoin(parts[1..|parts| - 1]);
  }

  /** main: the exit status and the report; "Trace mismatch:" goes to stdout, the details to stderr. */
  function Compare(argc: nat, refLines: seq<string>, actualLines: seq<string>): (o: Outcome)
    ensures o.status == 2 <==> argc != 2
    ensures argc == 2 ==> (o.status == 0 <==> Moves(refLines) == Moves(actualLines))
    ensures o.status == 0 || o.status == 1 || o.status == 2
    ensures o.status == 0 ==> o.stdout == [] && o.stderr == []
    ensures o.status == 1 ==> o.stdout == "Trace mismatch:\n"
  {
    if argc != 2 then Outcome(2, [], "Usage: compare_trace.py <ref-file>\n")
    else
      var ref := Moves(refLines);
      var actual := Moves(actualLines);
      if ref == actual then Outcome(0, [], [])
      else Outcome(1, "Trace mismatch:\n", "Expected moves:\n" + JoinLines(ref) + "\n" + "\nActual moves:\n" + JoinLines(actual) + "\n")
  }

  /** Whatever follows the IR sentinel in the actual trace never changes the verdict. */
  lemma CompareIgnoresIr(refLines: seq<string>, before: seq<string>, sentinel: string, ir: seq<string>)
    requires Sentinel(sentinel)
    ensures Compare(2, refLines, before + [sentinel] + ir).status == Compare(2, refLines, before).status
  {
    SentinelStops(before, sentinel, ir);
  }
}
