/**
 * The transcript of App.tsx: its rows and the plain-text content handleDownload
 * builds from them (`transcript.map(l => `[${l.time}] ${l.text}`).join('\n')`).
 */
module Transcript {
  import opened Wrappers

  /** One transcript row, `{ time, text }`; the time is an opaque locale time string. */
  datatype Line = Line(time: string, text: string)

  /** The text of the newest row, if any: `transcript[transcript.length - 1]?.text`. */
  function LastText(ls: seq<Line>): (last: Option<string>)
    ensures last.None? <==> ls == []
    ensures last.Some? ==> last.value == ls[|ls| - 1].text
  {
    if ls == [] then None else Some(ls[|ls| - 1].text)
  }

  /** One exported row: `[time] text`. */
  function Render(l: Line): string {
    "[" + l.time + "] " + l.text
  }

  function Renders(ls: seq<Line>): (rs: seq<string>)
    ensures |rs| == |ls| && forall i :: 0 <= i < |ls| ==> rs[i] == Render(ls[i])
  {
    seq(|ls|, i requires 0 <= i < |ls| => Render(ls[i]))
  }

  /** Array.prototype.join('\n'): the parts with one newline between neighbours and none at the end. */
  function Join(parts: seq<string>): string
    decreases |parts|
  {
    if parts == [] then ""
    else if |parts| == 1 then parts[0]
    else parts[0] + "\n" + Join(parts[1..])
  }

  /** The content of the downloaded transcript file. */
  function Export(ls: seq<Line>): string {
    Join(Renders(ls))
  }

  /** String.prototype.split('\n'): the pieces between newlines (one piece for a text without any). */
  function SplitLines(s: string): (pieces: seq<string>)
    ensures |pieces| >= 1
    decreases |s|
  {
    if s == [] then [""]
    else
      var rest := SplitLines(s[1..]);
      if s[0] == '\n' then [""] + rest else [[s[0]] + rest[0]] + rest[1..]
  }

  ghost predicate OneLine(s: string) {
    '\n' !in s
  }

  /** The two-row example: `[{t1,"Hello"},{t2,"Thanks"}]` exports as `[t1] Hello\n[t2] Thanks`. */
  lemma ExportExample()
    ensures Export([Line("t1", "Hello"), Line("t2", "Thanks")]) == "[t1] Hello\n[t2] Thanks"
  {
    var ls := [Line("t1", "Hello"), Line("t2", "Thanks")];
    var rs := ["[t1] Hello", "[t2] Thanks"];
    assert Render(ls[0]) == rs[0];
    assert Render(ls[1]) == rs[1];
    assert Renders(ls) == rs;
    JoinPair(rs[0], rs[1]);
  }

  lemma JoinPair(a: string, b: string)
    ensures Join([a, b]) == a + "\n" + b
  {
    assert [a, b][1..] == [b];
  }

  /** A new row adds exactly one newline and its rendering, at the end. */
  lemma {:induction false} ExportAppend(ls: seq<Line>, l: Line)
    ensures Export(ls + [l]) == if ls == [] then Render(l) else Export(ls) + "\n" + Render(l)
    decreases |ls|
  {
    assert Renders(ls + [l]) == Renders(ls) + [Render(l)];
    JoinAppend(Renders(ls), Render(l));
  }

  lemma {:induction false} JoinAppend(parts: seq<string>, p: string)
    ensures Join(parts + [p]) == if parts == [] then p else Join(parts) + "\n" + p
    decreases |parts|
  {
    if |parts| > 1 {
      assert (parts + [p])[1..] == parts[1..] + [p];
      JoinAppend(parts[1..], p);
    } else if |parts| == 1 {
      assert (parts + [p])[1..] == [p];
    }
  }

  /** Splitting a text that has no newline gives the text back as the only piece. */
  lemma {:induction false} SplitOneLine(s: string)
    requires OneLine(s)
    ensures SplitLines(s) == [s]
    decreases |s|
  {
    if s != [] {
      assert s == [s[0]] + s[1..];
      SplitOneLine(s[1..]);
    }
  }

  /** A newline-free first piece followed by a newline is split off as the first piece. */
  lemma {:induction false} SplitAfterPiece(p: string, rest: string)
    requires OneLine(p)
    ensures SplitLines(p + "\n" + rest) == [p] + SplitLines(rest)
    decreases |p|
  {
    if p == [] {
      assert p + "\n" + rest == "\n" + rest;
      assert ("\n" + rest)[1..] == rest;
    } else {
      assert (p + "\n" + rest)[1..] == p[1..] + "\n" + rest;
      assert p == [p[0]] + p[1..];
      SplitAfterPiece(p[1..], rest);
    }
  }

  /** Splitting undoes joining when no part holds a newline. */
  lemma {:induction false} SplitJoin(parts: seq<string>)
    requires parts != []
    requires forall i :: 0 <= i < |parts| ==> OneLine(parts[i])
    ensures SplitLines(Join(parts)) == parts
    decreases |parts|
  {
    if |parts| == 1 {
      SplitOneLine(parts[0]);
    } else {
      SplitAfterPiece(parts[0], Join(parts[1..]));
      SplitJoin(parts[1..]);
      assert parts == [parts[0]] + parts[1..];
    }
  }

  /**
   * The exported file reads back as one `[time] text` row per transcript line,
   * in transcript order, when no time or text holds a newline.
   */
  lemma ExportRoundTrip(ls: seq<Line>)
    requires ls != []
    requires forall i :: 0 <= i < |ls| ==> OneLine(ls[i].time) && OneLine(ls[i].text)
    ensures SplitLines(Export(ls)) == Renders(ls)
    ensures |SplitLines(Export(ls))| == |ls|
  {
    forall i | 0 <= i < |ls| ensures OneLine(Renders(ls)[i]) {
      assert Renders(ls)[i] == "[" + ls[i].time + "] " + ls[i].text;
    }
    SplitJoin(Renders(ls));
  }
}
