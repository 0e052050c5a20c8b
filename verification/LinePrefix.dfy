/** The log prefixer: tags each line of a subprocess with its backend, however
    the line was cut into writes. */
module LinePrefix {
  import opened Common
  import opened Lines

  function Tagged(prefix: string, lines: seq<string>): seq<string> {
    seq(|lines|, i requires 0 <= i < |lines| => prefix + lines[i])
  }

  /** The shared log: takes `room` more writes, all of them when unlimited. */
  class Sink {
    var content: string
    var room: Option<nat>

    constructor ()
      ensures content == "" && room == None
    {
      content, room := "", None;
    }

    method Write(s: string) returns (ok: bool)
      modifies this
      ensures ok <==> old(room) != Some(0)
      ensures content == old(content) + if ok then s else ""
      ensures room == if old(room).Some? && ok then Some(old(room).value - 1) else old(room)
    {
      if room == Some(0) {
        return false;
      }
      content := content + s;
      if room.Some? {
        room := Some(room.value - 1);
      }
      return true;
    }
  }

  /** How many of `n` lines a sink takes. */
  function Taken(room: Option<nat>, n: nat): (k: nat)
    ensures k <= n
  {
    if room.Some? && room.value < n then room.value else n
  }

  class PrefixWriter {
    const out: Sink
    const prefix: string
    var buf: string

    constructor (out: Sink, prefix: string)
      ensures this.out == out && this.prefix == prefix && buf == ""
    {
      this.out, this.prefix, buf := out, prefix, "";
    }

    /** Takes in a chunk of any shape. Every complete line goes out tagged until
        the sink refuses one; that line is lost, and what follows it stays. */
    method Write(p: string) returns (n: nat, ok: bool)
      modifies this`buf, out
      ensures n == |p|
      ensures var lines := Split(old(buf) + p);
              var k := Taken(old(out.room), |lines|);
              && (ok <==> k == |lines|)
              && out.content == old(out.content) + Join(Tagged(prefix, lines[..k]))
              && (ok ==> buf == Rest(old(buf) + p))
              && (!ok ==> buf == Join(lines[k + 1..]) + Rest(old(buf) + p))
              && (old(out.room).None? ==> out.room.None?)
      ensures old(out.room).None? ==>
                forall chunks :: After(prefix, chunks) == (old(out.content), old(buf)) ==>
                  After(prefix, chunks + [p]) == (out.content, buf)
    {
      forall chunks | After(prefix, chunks) == (out.content, buf)
        ensures After(prefix, chunks + [p])
             == (out.content + Join(Tagged(prefix, Split(buf + p))), Rest(buf + p))
      {
        assert (chunks + [p])[..|chunks|] == chunks;
      }
      n := |p|;
      buf := buf + p;
      ghost var all, lines := buf, Split(buf);
      ghost var k := 0;
      assert lines[..0] == [];
      while true
        invariant 0 <= k <= |lines|
        invariant Split(buf) == lines[k..] && Rest(buf) == Rest(all)
        invariant out.content == old(out.content) + Join(Tagged(prefix, lines[..k]))
        invariant old(out.room).None? ==> out.room.None?
        invariant old(out.room).Some? ==> out.room.Some? && out.room.value + k == old(out.room.value)
        decreases |buf|
      {
        var end := FirstLine(buf);
        if end == 0 {
          break;
        }
        var line := buf[..end];
        buf := buf[end..];
        assert line == lines[k] && Split(buf) == lines[k..][1..];
        assert lines[k..][1..] == lines[k + 1..];
        var written := out.Write(prefix + line);
        if !written {
          SplitRestores(buf);
          return n, false;
        }
        TaggedAppend(prefix, lines, k);
        Assoc(old(out.content), Join(Tagged(prefix, lines[..k])), prefix + line);
        k := k + 1;
      }
      assert Rest(buf) == buf;
      assert lines[..k] == lines;
      return n, true;
    }
  }

  lemma TaggedAppend(prefix: string, lines: seq<string>, k: nat)
    requires k < |lines|
    ensures Join(Tagged(prefix, lines[..k + 1])) == Join(Tagged(prefix, lines[..k])) + (prefix + lines[k])
  {
    assert Tagged(prefix, lines[..k + 1]) == Tagged(prefix, lines[..k]) + [prefix + lines[k]];
    JoinConcat(Tagged(prefix, lines[..k]), [prefix + lines[k]]);
    assert [prefix + lines[k]][1..] == [];
  }

  // ---- Chunking ----

  /** Sink and buffer after a sequence of writes to a sink that does not fail. */
  function After(prefix: string, chunks: seq<string>): (string, string) {
    if chunks == [] then ("", "")
    else
      var (out, buf) := After(prefix, chunks[..|chunks| - 1]);
      var all := buf + chunks[|chunks| - 1];
      (out + Join(Tagged(prefix, Split(all))), Rest(all))
  }

  function Concatenated(chunks: seq<string>): string {
    if chunks == [] then "" else Concatenated(chunks[..|chunks| - 1]) + chunks[|chunks| - 1]
  }

  /** The result of any sequence of writes depends on the concatenated input
      alone: each of its complete lines tagged, the left-over buffered. */
  lemma {:induction false} ChunkingIndependent(prefix: string, chunks: seq<string>)
    ensures var s := Concatenated(chunks);
            After(prefix, chunks) == (Join(Tagged(prefix, Split(s))), Rest(s))
  {
    if chunks != [] {
      var n := |chunks| - 1;
      var s := Concatenated(chunks[..n]);
      ChunkingIndependent(prefix, chunks[..n]);
      SplitConcat(s, chunks[n]);
      var lines, more := Split(s), Split(Rest(s) + chunks[n]);
      assert Tagged(prefix, lines + more) == Tagged(prefix, lines) + Tagged(prefix, more);
      JoinConcat(Tagged(prefix, lines), Tagged(prefix, more));
    } else {
      assert Split("") == [] && Tagged(prefix, []) == [];
    }
  }

  function Untagged(prefix: string, lines: seq<string>): seq<string> {
    seq(|lines|, i requires 0 <= i < |lines| => if |lines[i]| >= |prefix| then lines[i][|prefix|..] else lines[i])
  }

  /** Takes the tag off each line of what was written. */
  function Stripped(prefix: string, out: string): string {
    Join(Untagged(prefix, Split(out)))
  }

  lemma TagsComeOff(prefix: string, lines: seq<string>)
    ensures Untagged(prefix, Tagged(prefix, lines)) == lines
  {
    forall i | 0 <= i < |lines|
      ensures Untagged(prefix, Tagged(prefix, lines))[i] == lines[i]
    {
      assert (prefix + lines[i])[|prefix|..] == lines[i];
    }
  }

  lemma TaggedIsLine(prefix: string, line: string)
    requires NoNewline(prefix) && IsLine(line)
    ensures IsLine(prefix + line)
  {
  }

  /** Tagged lines are lines as long as the tag is not itself broken into lines. */
  lemma TaggedLines(prefix: string, lines: seq<string>)
    requires NoNewline(prefix) && forall i :: 0 <= i < |lines| ==> IsLine(lines[i])
    ensures Split(Join(Tagged(prefix, lines))) == Tagged(prefix, lines)
  {
    forall i | 0 <= i < |lines|
      ensures IsLine(Tagged(prefix, lines)[i])
    {
      TaggedIsLine(prefix, lines[i]);
    }
    SplitJoin(Tagged(prefix, lines));
  }

  /** Nothing is lost or invented: taking the tags off and adding the buffer
      gives the input back. */
  lemma StripRestores(prefix: string, chunks: seq<string>)
    requires NoNewline(prefix)
    ensures var (out, buf) := After(prefix, chunks);
            Stripped(prefix, out) + buf == Concatenated(chunks)
  {
    var s := Concatenated(chunks);
    ChunkingIndependent(prefix, chunks);
    SplitLines(s);
    TaggedLines(prefix, Split(s));
    TagsComeOff(prefix, Split(s));
    SplitRestores(s);
  }
}
