/**
 * The per-file source position index used by the lexer and by diagnostics
 * (the `File` struct and `source_file_*` calls exercised by test_file,
 * src/compiler_tests/tests.c:101-127).
 *
 * Every file occupies its own range of one global offset space starting at
 * `start_id`.  The file keeps the offsets at which its lines start, in
 * increasing order; the first entry is `start_id`, and the lexer appends one
 * entry per line terminator it crosses.  A position query returns the
 * 1-based number of the last line that starts at or before the offset; an
 * offset before the file clamps to line 1 and an offset beyond the last
 * recorded start belongs to the last line seen so far.
 */
module SourceFiles {

  /** The entries only increase. */
  ghost predicate StrictlyIncreasing(s: seq<nat>)
  {
    forall i, j :: 0 <= i < j < |s| ==> s[i] < s[j]
  }

  /** How many recorded line starts are at or before off. */
  function CountAtMost(starts: seq<nat>, off: nat): (n: nat)
    ensures n <= |starts|
  {
    if starts == [] then 0
    else (if starts[0] <= off then 1 else 0) + CountAtMost(starts[1..], off)
  }

  /** The line of off: the number of line starts at or before it, and at least 1. */
  function LineOf(starts: seq<nat>, off: nat): (line: nat)
    ensures 1 <= line && (starts != [] ==> line <= |starts|)
  {
    var n := CountAtMost(starts, off);
    if n == 0 then 1 else n
  }

  /** When the first k entries are at or before off and the rest after it, k entries are counted. */
  lemma {:induction false} CountAtSplit(s: seq<nat>, off: nat, k: nat)
    requires k <= |s|
    requires forall i :: 0 <= i < k ==> s[i] <= off
    requires forall i :: k <= i < |s| ==> off < s[i]
    ensures CountAtMost(s, off) == k
  {
    if s != [] {
      if k == 0 {
        CountAtSplit(s[1..], off, 0);
      } else {
        CountAtSplit(s[1..], off, k - 1);
      }
    }
  }

  /** In increasing entries, the counted ones are a prefix: exactly those before the count are at or before off. */
  lemma {:induction false} CountIsSplit(s: seq<nat>, off: nat)
    requires StrictlyIncreasing(s)
    ensures forall i :: 0 <= i < CountAtMost(s, off) ==> s[i] <= off
    ensures forall i :: CountAtMost(s, off) <= i < |s| ==> off < s[i]
  {
    if s != [] {
      var t := s[1..];
      assert StrictlyIncreasing(t) by {
        forall i, j | 0 <= i < j < |t| ensures t[i] < t[j] {
          assert t[i] == s[i + 1] && t[j] == s[j + 1];
        }
      }
      CountIsSplit(t, off);
      if off < s[0] {
        assert CountAtMost(t, off) == 0 by {
          if t != [] {
            assert off < t[0];
          }
        }
      }
      forall i | 0 <= i < CountAtMost(s, off) ensures s[i] <= off {
        if i > 0 { assert s[i] == t[i - 1]; }
      }
      forall i | CountAtMost(s, off) <= i < |s| ensures off < s[i] {
        if i > 0 { assert s[i] == t[i - 1]; } else { assert CountAtMost(s, off) == 0; }
      }
    }
  }

  /**
   * The line of off is the 1-based index of the rightmost recorded start at
   * or before it: the element before it is at most off, the next one (if
   * recorded) is beyond off; an offset before the first entry is on line 1,
   * and an offset at or beyond the last entry is on the last line.
   */
  lemma LineIsRightmostStart(s: seq<nat>, off: nat)
    requires |s| >= 1 && StrictlyIncreasing(s)
    ensures 1 <= LineOf(s, off) <= |s|
    ensures s[0] <= off ==> s[LineOf(s, off) - 1] <= off
    ensures LineOf(s, off) < |s| ==> off < s[LineOf(s, off)]
    ensures off < s[0] ==> LineOf(s, off) == 1
    ensures s[|s| - 1] <= off ==> LineOf(s, off) == |s|
  {
    CountIsSplit(s, off);
  }

  /** Appending one start adds one to the count exactly when it is at or before off. */
  lemma {:induction false} CountAppend(s: seq<nat>, x: nat, off: nat)
    ensures CountAtMost(s + [x], off) == CountAtMost(s, off) + (if x <= off then 1 else 0)
  {
    if s != [] {
      assert (s + [x])[1..] == s[1..] + [x];
      CountAppend(s[1..], x, off);
    }
  }

  /** A start beyond the last one keeps the table strictly increasing. */
  lemma AppendKeepsIncreasing(s: seq<nat>, x: nat)
    requires |s| >= 1 && StrictlyIncreasing(s) && s[|s| - 1] < x
    ensures StrictlyIncreasing(s + [x])
  {
    forall i, j | 0 <= i < j < |s| + 1
      ensures (s + [x])[i] < (s + [x])[j]
    {
      if j == |s| {
        assert i == |s| - 1 || s[i] < s[|s| - 1];
      }
    }
  }

  /**
   * Appending a start above all recorded ones keeps the table increasing,
   * leaves the line of every offset below the new start unchanged, and puts
   * the offsets from the new start on the new last line.
   */
  lemma AppendKeepsEarlierLines(s: seq<nat>, x: nat, off: nat)
    requires |s| >= 1 && StrictlyIncreasing(s) && s[|s| - 1] < x
    ensures StrictlyIncreasing(s + [x])
    ensures off < x ==> LineOf(s + [x], off) == LineOf(s, off)
    ensures x <= off ==> LineOf(s + [x], off) == |s| + 1
  {
    CountAppend(s, x, off);
    LineIsRightmostStart(s, off);
    if x <= off {
      CountIsSplit(s, off);
      assert CountAtMost(s, off) == |s|;
    }
  }

  /** A resolved position: the 1-based line and the distance from that line's start. */
  datatype Position = Position(line: nat, col: int)

  /** The position index of one source file. */
  class SourceFile {
    /** Where byte 0 of the file lives in the global offset space. */
    const startId: nat
    /** The global offsets at which the lines found so far start. */
    var lineStarts: seq<nat>

    ghost predicate Valid()
      reads this
    {
      |lineStarts| >= 1 && lineStarts[0] == startId && StrictlyIncreasing(lineStarts)
    }

    /** Opening a file records line 1 at its start (tests.c:104-106). */
    constructor (startId: nat)
      ensures Valid()
      ensures this.startId == startId && lineStarts == [startId]
    {
      this.startId := startId;
      lineStarts := [startId];
    }

    /** The offset of the most recently recorded line start. */
    function LastLineStart(): nat
      reads this
      requires Valid()
    {
      lineStarts[|lineStarts| - 1]
    }

    /**
     * Records that a new line starts at offset, which the lexer reaches only
     * after every line start recorded so far (source_file_append_line_end).
     */
    method AppendLineStart(offset: nat)
      requires Valid() && LastLineStart() < offset
      modifies this
      ensures Valid()
      ensures lineStarts == old(lineStarts) + [offset]
    {
      AppendKeepsIncreasing(lineStarts, offset);
      lineStarts := lineStarts + [offset];
    }

    /**
     * The position of a global offset (source_file_find_position_in_file):
     * a binary search for the rightmost line start at or before offset.
     */
    method FindPosition(offset: nat) returns (pos: Position)
      requires Valid()
      ensures pos.line == LineOf(lineStarts, offset)
      ensures 1 <= pos.line <= |lineStarts|
      ensures startId <= offset ==> lineStarts[pos.line - 1] <= offset
      ensures pos.line < |lineStarts| ==> offset < lineStarts[pos.line]
      ensures pos.col == offset - lineStarts[pos.line - 1]
    {
      var lo, hi := 0, |lineStarts|;
      while lo < hi
        invariant 0 <= lo <= hi <= |lineStarts|
        invariant forall i :: 0 <= i < lo ==> lineStarts[i] <= offset
        invariant forall i :: hi <= i < |lineStarts| ==> offset < lineStarts[i]
        decreases hi - lo
      {
        var mid := (lo + hi) / 2;
        if lineStarts[mid] <= offset {
          lo := mid + 1;
        } else {
          hi := mid;
        }
      }
      CountAtSplit(lineStarts, offset, lo);
      LineIsRightmostStart(lineStarts, offset);
      var line := if lo == 0 then 1 else lo;
      pos := Position(line, offset - lineStarts[line - 1]);
    }
  }
}
