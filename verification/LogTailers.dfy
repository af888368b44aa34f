/** The log tailer: lines appended to agents' log files become text events, once each and in order. */
module LogTailers {
  import opened Wrappers
  import opened Events

  // ---- Lines ----

  /** The characters at which Python splits lines, once a file is read with its newlines translated. */
  predicate IsBreak(c: char) {
    c == '\n' || c == '\U{B}' || c == '\U{C}' || c == '\U{1C}' || c == '\U{1D}' || c == '\U{1E}'
    || c == '\U{85}' || c == '\U{2028}' || c == '\U{2029}'
  }

  /** By code point: line feed, vertical tab, form feed, the separators, next line, line and paragraph separator. */
  lemma BreaksAre(c: char)
    ensures IsBreak(c) <==> c as int in [10, 11, 12, 28, 29, 30, 133, 8232, 8233]
  {
  }

  function SplitFrom(s: string, line: string): seq<string>
    decreases |s|
  {
    if s == [] then (if line == [] then [] else [line])
    else if IsBreak(s[0]) then [line] + SplitFrom(s[1..], [])
    else SplitFrom(s[1..], line + [s[0]])
  }

  /** `str.splitlines`: an unfinished last line counts as a line. */
  function SplitLines(s: string): seq<string> {
    SplitFrom(s, [])
  }

  predicate WholeLines(s: string) {
    s == [] || IsBreak(s[|s| - 1])
  }

  lemma {:induction false} SplitAfterBreak(a: string, b: string, line: string)
    requires a != [] && IsBreak(a[|a| - 1])
    ensures SplitFrom(a + b, line) == SplitFrom(a, line) + SplitLines(b)
    decreases |a|
  {
    assert (a + b)[1..] == a[1..] + b;
    if |a| == 1 {
      assert a[1..] + b == b;
    } else if IsBreak(a[0]) {
      SplitAfterBreak(a[1..], b, []);
    } else {
      SplitAfterBreak(a[1..], b, line + [a[0]]);
    }
  }

  lemma {:induction false} LineCount(b: string, line: string)
    requires b != []
    ensures |SplitFrom(b, line)| == |SplitLines(b)|
    decreases |b|
  {
    if !IsBreak(b[0]) {
      if |b| == 1 {
        assert SplitFrom(b[1..], line + [b[0]]) == [line + [b[0]]];
        assert SplitFrom(b[1..], [] + [b[0]]) == [[] + [b[0]]];
      } else {
        LineCount(b[1..], line + [b[0]]);
        LineCount(b[1..], [] + [b[0]]);
      }
    }
  }

  lemma {:induction false} TornLineCount(a: string, b: string, line: string)
    requires b != [] && (if a == [] then line != [] else !IsBreak(a[|a| - 1]))
    ensures |SplitFrom(a + b, line)| == |SplitFrom(a, line)| + |SplitLines(b)| - 1
    decreases |a|
  {
    if a == [] {
      assert a + b == b;
      LineCount(b, line);
    } else {
      assert (a + b)[1..] == a[1..] + b;
      if IsBreak(a[0]) { TornLineCount(a[1..], b, []); } else { TornLineCount(a[1..], b, line + [a[0]]); }
    }
  }

  /** Reading in two parts gives the same lines exactly when no line is torn between them. */
  lemma SplitConcatIff(a: string, b: string)
    ensures SplitLines(a + b) == SplitLines(a) + SplitLines(b) <==> WholeLines(a) || b == []
  {
    if b == [] {
      assert a + b == a;
    } else if a == [] {
      assert a + b == b;
    } else if WholeLines(a) {
      SplitAfterBreak(a, b, []);
    } else {
      TornLineCount(a, b, []);
    }
  }

  function Unlines(lines: seq<string>): string {
    if lines == [] then [] else lines[0] + ['\n'] + Unlines(lines[1..])
  }

  predicate NoBreaks(line: string) {
    forall i :: 0 <= i < |line| ==> !IsBreak(line[i])
  }

  /** Lines written one after the other, each ended by a newline, are the lines read. */
  lemma {:induction false} SplitUndoesUnlines(lines: seq<string>)
    requires forall i :: 0 <= i < |lines| ==> NoBreaks(lines[i])
    ensures SplitLines(Unlines(lines)) == lines && WholeLines(Unlines(lines))
  {
    if lines != [] {
      var first := lines[0] + ['\n'];
      SplitUndoesUnlines(lines[1..]);
      LineBefore(lines[0], [], []);
      assert lines[0] + (['\n'] + []) == first && [] + lines[0] == lines[0];
      SplitAfterBreak(first, Unlines(lines[1..]), []);
      assert lines == [lines[0]] + lines[1..];
      var all := Unlines(lines);
      assert |lines| > 1 ==> all[|all| - 1] == Unlines(lines[1..])[|Unlines(lines[1..])| - 1];
    }
  }

  /** What comes before a newline, after what was read of the line already, is one line. */
  lemma {:induction false} LineBefore(s: string, line: string, rest: string)
    requires NoBreaks(s)
    ensures SplitFrom(s + (['\n'] + rest), line) == [line + s] + SplitLines(rest)
    decreases |s|
  {
    var all := s + (['\n'] + rest);
    if s == [] {
      assert all[1..] == rest && line + s == line;
    } else {
      assert all[1..] == s[1..] + (['\n'] + rest);
      LineBefore(s[1..], line + [s[0]], rest);
      assert (line + [s[0]]) + s[1..] == line + s;
    }
  }

  // ---- Events ----

  type Parser = string -> Option<string>

  /** The texts of the lines that are assistant messages, in order. */
  function Texts(parse: Parser, lines: seq<string>): seq<string> {
    if lines == [] then []
    else Texts(parse, lines[..|lines| - 1]) + var p := parse(lines[|lines| - 1]); if p.Some? then [p.value] else []
  }

  lemma {:induction false} TextsConcat(parse: Parser, a: seq<string>, b: seq<string>)
    ensures Texts(parse, a + b) == Texts(parse, a) + Texts(parse, b)
  {
    if b == [] {
      assert a + b == a;
    } else {
      assert (a + b)[..|a + b| - 1] == a + b[..|b| - 1];
      TextsConcat(parse, a, b[..|b| - 1]);
    }
  }

  lemma TextsAppend(parse: Parser, lines: seq<string>, line: string)
    ensures Texts(parse, lines + [line]) == Texts(parse, lines) + if parse(line).Some? then [parse(line).value] else []
  {
    assert (lines + [line])[..|lines|] == lines;
  }

  /** What the file system says: the file's size, and its text when it is opened; either may fail. */
  datatype Poll = Poll(size: Option<nat>, text: Option<string>)

  /** Where reading starts: a file smaller than what was read has been rotated. */
  function StartOf(offset: nat, size: nat): nat {
    if size < offset then 0 else offset
  }

  datatype Tail = Tail(offset: nat, emitted: seq<string>)

  /** What a poll reads, if it reads at all. */
  function NewData(offset: nat, p: Poll): Option<string> {
    if p.size.None? || p.text.None? || StartOf(offset, p.size.value) == p.size.value then None
    else
      var start := StartOf(offset, p.size.value);
      Some(if start <= |p.text.value| then p.text.value[start..] else [])
  }

  function Polled(parse: Parser, t: Tail, p: Poll): Tail {
    var d := NewData(t.offset, p);
    if d.None? then t
    else Tail(StartOf(t.offset, p.size.value) + |d.value|, t.emitted + Texts(parse, SplitLines(d.value)))
  }

  datatype TextEvent = TextEvent(agent: string, text: string)

  function EventsOf(agent: string, texts: seq<string>): seq<TextEvent> {
    if texts == [] then [] else EventsOf(agent, texts[..|texts| - 1]) + [TextEvent(agent, texts[|texts| - 1])]
  }

  lemma EventsAppend(agent: string, texts: seq<string>, text: string)
    ensures EventsOf(agent, texts + [text]) == EventsOf(agent, texts) + [TextEvent(agent, text)]
  {
    assert (texts + [text])[..|texts|] == texts;
  }

  class LogTailer {
    const parse: Parser
    var offsets: map<string, nat>
    var events: seq<TextEvent>

    constructor (parse: Parser)
      ensures this.parse == parse && offsets == map[] && events == []
    {
      this.parse := parse;
      offsets := map[];
      events := [];
    }

    function Offset(path: string): nat
      reads this
    {
      if path in offsets then offsets[path] else 0
    }

    method EmitLines(agent: string, lines: seq<string>)
      modifies this`events
      ensures events == old(events) + EventsOf(agent, Texts(parse, lines))
    {
      for i := 0 to |lines|
        invariant events == old(events) + EventsOf(agent, Texts(parse, lines[..i]))
      {
        ghost var texts := Texts(parse, lines[..i]);
        TextsAppend(parse, lines[..i], lines[i]);
        assert lines[..i + 1] == lines[..i] + [lines[i]];
        var parsed := parse(lines[i]);
        if parsed.Some? {
          EventsAppend(agent, texts, parsed.value);
          events := events + [TextEvent(agent, parsed.value)];
        } else {
          assert texts + [] == texts;
        }
      }
      assert lines[..|lines|] == lines;
    }

    /** Reads the new lines of one file and emits their events. */
    method TailFile(path: string, agent: string, file: Poll)
      modifies this
      ensures var t := Polled(parse, Tail(old(Offset(path)), []), file);
        Offset(path) == t.offset && events == old(events) + EventsOf(agent, t.emitted)
      ensures forall other :: other != path ==> Offset(other) == old(Offset(other))
    {
      var offset := Offset(path);
      if file.size.None? { return; }
      if file.size.value < offset { offset := 0; }
      if file.size.value == offset { return; }
      if file.text.None? { return; }
      var newData := if offset <= |file.text.value| then file.text.value[offset..] else [];
      offsets := offsets[path := offset + |newData|];
      EmitLines(agent, SplitLines(newData));
      assert [] + Texts(parse, SplitLines(newData)) == Texts(parse, SplitLines(newData));
    }
  }

  // ---- Any schedule of polls ----

  function PollAll(parse: Parser, polls: seq<Poll>): Tail {
    if polls == [] then Tail(0, []) else Polled(parse, PollAll(parse, polls[..|polls| - 1]), polls[|polls| - 1])
  }

  /** The file at a poll: `size` characters at first, and when opened a prefix of `file` no shorter, of whole lines. */
  predicate Grown(file: string, offset: nat, p: Poll) {
    && (p.size.Some? ==> offset <= p.size.value)
    && (p.size.Some? && p.text.Some? ==> p.size.value <= |p.text.value|)
    && (p.text.Some? ==> p.text.value <= file && WholeLines(p.text.value))
  }

  /** The file only ever grows, towards `file`, by whole lines. */
  predicate OnlyGrows(parse: Parser, file: string, polls: seq<Poll>) {
    polls != [] ==>
      && OnlyGrows(parse, file, polls[..|polls| - 1])
      && Grown(file, PollAll(parse, polls[..|polls| - 1]).offset, polls[|polls| - 1])
  }

  lemma PollKeeps(parse: Parser, file: string, t: Tail, p: Poll)
    requires Grown(file, t.offset, p) && t.offset <= |file| && WholeLines(file[..t.offset])
    requires t.emitted == Texts(parse, SplitLines(file[..t.offset]))
    ensures var t' := Polled(parse, t, p);
      && t.offset <= t'.offset <= |file| && WholeLines(file[..t'.offset])
      && t'.emitted == Texts(parse, SplitLines(file[..t'.offset]))
  {
    var d := NewData(t.offset, p);
    if d.Some? {
      var text := p.text.value;
      assert text == file[..|text|];
      var a, b := file[..t.offset], text[t.offset..];
      assert a + b == text;
      SplitConcatIff(a, b);
      TextsConcat(parse, SplitLines(a), SplitLines(b));
    }
  }

  /**
   * Whatever the schedule of polls, and whichever of them fail, the texts emitted for a file
   * that only grows by whole lines are those of its lines up to the offset, in order and once each.
   */
  lemma {:induction false} EveryLineOnce(parse: Parser, file: string, polls: seq<Poll>)
    requires OnlyGrows(parse, file, polls)
    ensures var t := PollAll(parse, polls);
      && t.offset <= |file| && WholeLines(file[..t.offset])
      && t.emitted == Texts(parse, SplitLines(file[..t.offset]))
  {
    if polls != [] {
      EveryLineOnce(parse, file, polls[..|polls| - 1]);
      PollKeeps(parse, file, PollAll(parse, polls[..|polls| - 1]), polls[|polls| - 1]);
    }
  }

  /** Two schedules that read equally far emit the same texts. */
  lemma SchedulesAgree(parse: Parser, file: string, ps: seq<Poll>, qs: seq<Poll>)
    requires OnlyGrows(parse, file, ps) && OnlyGrows(parse, file, qs)
    requires PollAll(parse, ps).offset == PollAll(parse, qs).offset
    ensures PollAll(parse, ps).emitted == PollAll(parse, qs).emitted
  {
    EveryLineOnce(parse, file, ps);
    EveryLineOnce(parse, file, qs);
  }

  /** A poll that does not fail leaves nothing unread of what the file held when its size was taken. */
  lemma PollCatchesUp(parse: Parser, file: string, polls: seq<Poll>)
    requires OnlyGrows(parse, file, polls) && polls != []
    requires polls[|polls| - 1].size.Some? && polls[|polls| - 1].text.Some?
    ensures polls[|polls| - 1].size.value <= PollAll(parse, polls).offset
  {
    EveryLineOnce(parse, file, polls[..|polls| - 1]);
  }

  /** A file that shrank below what was read is read again from its start. */
  lemma RotatedFileIsReadAnew(parse: Parser, t: Tail, text: string)
    requires 0 < |text| < t.offset
    ensures Polled(parse, t, Poll(Some(|text|), Some(text)))
         == Tail(|text|, t.emitted + Texts(parse, SplitLines(text)))
  {
    assert text[0..] == text;
  }

  /** An emptied file makes no difference until it grows again. */
  lemma EmptiedFileIsSkipped(parse: Parser, t: Tail, text: Option<string>)
    ensures Polled(parse, t, Poll(Some(0), text)) == t
  {
  }

  /** A line written in two parts with a poll between them is lost, though one poll would have emitted it. */
  lemma TornLineIsLost(parse: Parser, a: string, b: string)
    requires a != [] && b != [] && !IsBreak(a[|a| - 1]) && parse(a).None? && parse(b).None? && parse(a + b).Some?
    requires (forall i :: 0 <= i < |a| ==> !IsBreak(a[i])) && (forall i :: 0 <= i < |b| ==> !IsBreak(b[i]))
    ensures var torn := PollAll(parse, [Poll(Some(|a|), Some(a)), Poll(Some(|a + b|), Some(a + b))]);
      var once := PollAll(parse, [Poll(Some(|a + b|), Some(a + b))]);
      torn.offset == once.offset && torn.emitted == [] && once.emitted == [parse(a + b).value]
  {
    OneLine(a, []);
    OneLine(b, []);
    OneLine(a + b, []);
    var p, q := Poll(Some(|a|), Some(a)), Poll(Some(|a + b|), Some(a + b));
    OnlyLine(parse, a);
    OnlyLine(parse, b);
    OnlyLine(parse, a + b);
    assert [p, q][..1] == [p] && [p][..0] == [] && [q][..0] == [];
    assert a[0..] == a && (a + b)[0..] == a + b && (a + b)[|a|..] == b;
    assert PollAll(parse, [p]) == Tail(|a|, []);
  }

  lemma {:induction false} OneLine(s: string, line: string)
    requires s + line != [] && forall i :: 0 <= i < |s| ==> !IsBreak(s[i])
    ensures SplitFrom(s, line) == [line + s]
    decreases |s|
  {
    if s == [] {
      assert line + s == line;
    } else {
      OneLine(s[1..], line + [s[0]]);
      assert (line + [s[0]]) + s[1..] == line + s;
    }
  }

  lemma OnlyLine(parse: Parser, s: string)
    requires s != [] && SplitFrom(s, []) == [[] + s]
    ensures Texts(parse, SplitLines(s)) == if parse(s).Some? then [parse(s).value] else []
  {
    assert [] + s == s;
    TextsAppend(parse, [], s);
    assert [] + [s] == [s];
  }
}
