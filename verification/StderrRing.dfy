/** The bounded ring of redacted stderr lines that the app-server client keeps for error messages. */
module StderrRings {
  import opened JoinedLines
  import opened Redaction
  import opened RedactionTheorems
  import opened RedactSecretsTheorems

  const DEFAULT_LINES := 400
  const DEFAULT_BYTES := 2 * 1024 * 1024

  /** The line and byte bounds; a bound that is not positive takes its default. */
  datatype Bounds = Bounds(lines: int, bytes: int)

  function Normalized(b: Bounds): Bounds {
    Bounds(if b.lines <= 0 then DEFAULT_LINES else b.lines, if b.bytes <= 0 then DEFAULT_BYTES else b.bytes)
  }

  function Bytes(lines: seq<string>): nat {
    if lines == [] then 0 else |lines[0]| + Bytes(lines[1..])
  }

  predicate Fits(b: Bounds, lines: seq<string>) {
    |lines| <= b.lines && Bytes(lines) <= b.bytes
  }

  /** What is left when lines are dropped from the front until both bounds are met. */
  function Retained(b: Bounds, lines: seq<string>): seq<string> {
    if lines == [] || Fits(b, lines) then lines else Retained(b, lines[1..])
  }

  function RedactedLines(lines: seq<string>): seq<string> {
    seq(|lines|, i requires 0 <= i < |lines| => Redacted(lines[i]))
  }

  lemma {:induction false} BytesAppend(lines: seq<string>, line: string)
    ensures Bytes(lines + [line]) == Bytes(lines) + |line|
  {
    if lines != [] {
      assert (lines + [line])[1..] == lines[1..] + [line];
      BytesAppend(lines[1..], line);
    } else {
      assert lines + [line] == [line];
    }
  }

  /** The retained lines are the longest suffix of the history that meets both bounds. */
  lemma {:induction false} RetainedIsLongest(b: Bounds, lines: seq<string>)
    requires 0 <= b.lines && 0 <= b.bytes
    ensures var kept := Retained(b, lines); var k := |lines| - |kept|;
      && 0 <= k && kept == lines[k..] && Fits(b, kept)
      && forall j: nat :: j < k ==> !Fits(b, lines[j..])
  {
    if lines != [] && !Fits(b, lines) {
      RetainedIsLongest(b, lines[1..]);
      var k := |lines| - |Retained(b, lines)|;
      forall j: nat | j < k
        ensures !Fits(b, lines[j..])
      {
        if j > 0 {
          assert lines[1..][j - 1..] == lines[j..];
        } else {
          assert lines[0..] == lines;
        }
      }
    }
  }

  function Concat(lines: seq<string>): string {
    if lines == [] then "" else lines[0] + Concat(lines[1..])
  }

  lemma {:induction false} BytesMean(lines: seq<string>)
    ensures Bytes(lines) == |Concat(lines)|
  {
    if lines != [] {
      BytesMean(lines[1..]);
    }
  }

  /** More lines than the one bound, or more characters in them than the other. */
  ghost predicate TooMuch(b: Bounds, lines: seq<string>) {
    |lines| > b.lines || |Concat(lines)| > b.bytes
  }

  /** The same in plain terms: what is kept is not too much, and a line more would be. */
  lemma RetainedMeans(b: Bounds, lines: seq<string>)
    requires 0 <= b.lines && 0 <= b.bytes
    ensures var kept := Retained(b, lines); var k := |lines| - |kept|;
      && 0 <= k && kept == lines[k..] && !TooMuch(b, kept)
      && forall j: nat :: j < k ==> TooMuch(b, lines[j..])
  {
    RetainedIsLongest(b, lines);
    var k := |lines| - |Retained(b, lines)|;
    BytesMean(Retained(b, lines));
    forall j: nat | j < k
      ensures TooMuch(b, lines[j..])
    {
      BytesMean(lines[j..]);
    }
  }

  /** Lines dropped before a line arrives would be dropped after it too. */
  lemma {:induction false} RetainedAppend(b: Bounds, lines: seq<string>, line: string)
    ensures Retained(b, Retained(b, lines) + [line]) == Retained(b, lines + [line])
  {
    if lines != [] && !Fits(b, lines) {
      RetainedAppend(b, lines[1..], line);
      BytesAppend(lines, line);
      assert (lines + [line])[1..] == lines[1..] + [line];
    }
  }

  /** Retained lines have been redacted, and redacting them again changes nothing. */
  lemma {:induction false} RetainedAreFixed(b: Bounds, lines: seq<string>)
    requires forall line <- lines :: Redacted(line) == line
    ensures forall line <- Retained(b, lines) :: Redacted(line) == line
  {
    hide Redacted, Fits;
    if lines != [] && !Fits(b, lines) {
      RetainedAreFixed(b, lines[1..]);
    }
  }

  lemma RedactedLinesAreFixed(lines: seq<string>)
    ensures forall line <- RedactedLines(lines) :: Redacted(line) == line
  {
    hide Redacted;
    forall i | 0 <= i < |lines|
      ensures Redacted(RedactedLines(lines)[i]) == RedactedLines(lines)[i]
    {
      RedactedIsFixed(lines[i]);
    }
  }

  class StderrRing {
    const bounds: Bounds
    var stderrLines: seq<string>
    var stderrBytes: int
    /** Every line read so far. */
    ghost var history: seq<string>

    ghost predicate Valid()
      reads this
    {
      && bounds.lines > 0 && bounds.bytes > 0
      && stderrLines == Retained(bounds, RedactedLines(history))
      && stderrBytes == Bytes(stderrLines)
    }

    constructor (limits: Bounds)
      ensures Valid() && history == [] && stderrLines == []
      ensures bounds == Bounds(if limits.lines > 0 then limits.lines else 400, if limits.bytes > 0 then limits.bytes else 2097152)
    {
      bounds := Normalized(limits);
      stderrLines, stderrBytes, history := [], 0, [];
    }

    method DropUntilFits()
      requires stderrBytes == Bytes(stderrLines)
      modifies this`stderrLines, this`stderrBytes
      ensures stderrLines == Retained(bounds, old(stderrLines)) && stderrBytes == Bytes(stderrLines)
    {
      while |stderrLines| > bounds.lines || stderrBytes > bounds.bytes
        invariant stderrBytes == Bytes(stderrLines)
        invariant Retained(bounds, stderrLines) == Retained(bounds, old(stderrLines))
        decreases |stderrLines|
      {
        if |stderrLines| == 0 {
          break;
        }
        stderrBytes := stderrBytes - |stderrLines[0]|;
        stderrLines := stderrLines[1..];
      }
    }

    /** One round of drainStderr. */
    method Take(text: string)
      requires Valid()
      modifies this
      ensures Valid() && history == old(history) + [text]
    {
      var line := RedactSecrets(text);
      ghost var before := RedactedLines(history);
      RetainedAppend(bounds, before, line);
      BytesAppend(stderrLines, line);
      stderrLines := stderrLines + [line];
      stderrBytes := stderrBytes + |line|;
      DropUntilFits();
      history := history + [text];
      assert RedactedLines(history) == before + [line];
    }

    /** drainStderr, over the lines the scanner delivers. */
    method Drain(texts: seq<string>)
      requires Valid()
      modifies this
      ensures Valid() && history == old(history) + texts
    {
      for n := 0 to |texts|
        invariant Valid() && history == old(history) + texts[..n]
      {
        Take(texts[n]);
      }
    }

    /**
      StderrTail redacts the joined lines once more. It returns them as they are if and only if no
      retained line but the last leaves a JSON value open.
     */
    method StderrTail() returns (tail: string)
      requires Valid()
      ensures tail == Redacted(Join(stderrLines)) && TokenFree(tail)
      ensures forall p <- Passes() :: Masked(MARK, p, tail)
      ensures tail == Join(stderrLines) <==> ClosedLines(stderrLines)
    {
      hide Redacted, Masked, TokenFree, ClosedLines, Join;
      RedactedLinesAreFixed(history);
      RetainedAreFixed(bounds, RedactedLines(history));
      JoinIsFixedIff(stderrLines);
      var joined := Join(stderrLines);
      RedactedMasksValues(joined);
      tail := RedactSecrets(joined);
    }
  }
}
