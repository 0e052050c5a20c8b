/** Newline-terminated lines of a byte stream: what a reader that waits for a
    whole line has, and what is left over. */
module Lines {
  import opened Common

  const NEWLINE := '\n'

  /** The length of the first line with its newline, zero when there is none. */
  function FirstLine(s: string): (n: nat)
    ensures n <= |s|
  {
    if s == "" then 0
    else if s[0] == NEWLINE then 1
    else
      var n := FirstLine(s[1..]);
      if n == 0 then 0 else n + 1
  }

  predicate NoNewline(s: string) {
    forall i :: 0 <= i < |s| ==> s[i] != NEWLINE
  }

  /** One line: a newline at its end and nowhere else. */
  predicate IsLine(line: string) {
    && line != "" && line[|line| - 1] == NEWLINE
    && forall i :: 0 <= i < |line| - 1 ==> line[i] != NEWLINE
  }

  lemma {:induction false} FirstLineHolds(s: string)
    ensures var n := FirstLine(s);
            if n == 0 then NoNewline(s) else IsLine(s[..n])
  {
    if s != "" && s[0] != NEWLINE {
      FirstLineHolds(s[1..]);
      var n := FirstLine(s[1..]);
      assert forall i :: 1 <= i < |s| ==> s[i] == s[1..][i - 1];
      assert n > 0 ==> forall i :: 1 <= i <= n ==> s[i] == s[1..][..n][i - 1];
    }
  }

  lemma {:induction false} FirstLineIs(s: string, n: nat)
    requires 0 < n <= |s| && s[n - 1] == NEWLINE && forall i :: 0 <= i < n - 1 ==> s[i] != NEWLINE
    ensures FirstLine(s) == n
  {
    if n > 1 {
      FirstLineIs(s[1..], n - 1);
    }
  }

  /** The complete lines of `s`, each with its newline. */
  function Split(s: string): seq<string>
    decreases |s|
  {
    var n := FirstLine(s);
    if n == 0 then [] else [s[..n]] + Split(s[n..])
  }

  /** What follows the last newline. */
  function Rest(s: string): string
    decreases |s|
  {
    var n := FirstLine(s);
    if n == 0 then s else Rest(s[n..])
  }

  function Join(lines: seq<string>): string {
    if lines == [] then "" else lines[0] + Join(lines[1..])
  }

  /** A line in front of a stream is its first line. */
  lemma SplitCons(line: string, s: string)
    requires IsLine(line)
    ensures Split(line + s) == [line] + Split(s)
    ensures Rest(line + s) == Rest(s)
  {
    FirstLineIs(line + s, |line|);
    assert (line + s)[..|line|] == line && (line + s)[|line|..] == s;
  }

  /** A stream with a newline in it is its first line and the stream after it. */
  lemma Cut(s: string) returns (line: string, after: string)
    requires FirstLine(s) > 0
    ensures s == line + after && IsLine(line) && |after| < |s|
    ensures Split(s) == [line] + Split(after) && Rest(s) == Rest(after)
  {
    FirstLineHolds(s);
    line, after := s[..FirstLine(s)], s[FirstLine(s)..];
  }

  lemma {:induction false} SplitLines(s: string)
    ensures forall i :: 0 <= i < |Split(s)| ==> IsLine(Split(s)[i])
    ensures NoNewline(Rest(s))
    decreases |s|
  {
    if FirstLine(s) > 0 {
      var line, after := Cut(s);
      SplitLines(after);
    } else {
      FirstLineHolds(s);
    }
  }

  lemma JoinCons(line: string, lines: seq<string>)
    ensures Join([line] + lines) == line + Join(lines)
  {
    assert ([line] + lines)[1..] == lines;
  }

  /** The lines and the left-over are the stream. */
  lemma {:induction false} SplitRestores(s: string)
    ensures Join(Split(s)) + Rest(s) == s
    decreases |s|
  {
    if FirstLine(s) > 0 {
      var line, after := Cut(s);
      SplitRestores(after);
      JoinCons(line, Split(after));
      Assoc(line, Join(Split(after)), Rest(after));
    }
  }

  /** A stream taken in pieces: the complete lines of the first piece stay, and
      its left-over joins the second. */
  lemma {:induction false} SplitConcat(a: string, b: string)
    ensures Split(a + b) == Split(a) + Split(Rest(a) + b)
    ensures Rest(a + b) == Rest(Rest(a) + b)
    decreases |a|
  {
    if FirstLine(a) > 0 {
      var line, after := Cut(a);
      SplitConcat(after, b);
      SplitCons(line, after + b);
      Assoc(line, after, b);
      Assoc([line], Split(after), Split(Rest(after) + b));
    }
  }

  /** The lines of a cut-off stream are the first lines of the whole. */
  lemma SplitPrefix(s: string, n: nat)
    requires n <= |s|
    ensures Split(s[..n]) <= Split(s)
  {
    assert s == s[..n] + s[n..];
    SplitConcat(s[..n], s[n..]);
  }

  lemma {:induction false} SplitJoin(lines: seq<string>)
    requires forall i :: 0 <= i < |lines| ==> IsLine(lines[i])
    ensures Split(Join(lines)) == lines
  {
    if lines != [] {
      SplitJoin(lines[1..]);
      SplitCons(lines[0], Join(lines[1..]));
    }
  }

  lemma {:induction false} JoinConcat(a: seq<string>, b: seq<string>)
    ensures Join(a + b) == Join(a) + Join(b)
  {
    if a == [] {
      assert a + b == b;
    } else {
      assert (a + b)[0] == a[0] && (a + b)[1..] == a[1..] + b;
      JoinConcat(a[1..], b);
    }
  }
}
