/** Reading the newest records of a JSON-lines log and of its rotated predecessor: `tailJSONL` and
    `readRotated` (dashboard/main.go). `decode` stands for the JSON decoder. */
module LogTail {
  import opened Text

  /** Longest line the enlarged scanner buffer delivers; a longer one ends the scan. */
  const MAX_RECORD: nat := 8 * 1024 * 1024 - 1

  type Decoder<R> = string -> Option<R>

  /** The lines of a text; what follows the last newline counts only if it is not empty. */
  function Lines(text: string): seq<string> {
    Terminated(Split(text, '\n'))
  }

  function Terminated(parts: seq<string>): seq<string> {
    if parts != [] && parts[|parts| - 1] == "" then parts[..|parts| - 1] else parts
  }

  /** The end of the file from a byte offset, without the line the offset falls into. */
  function Window(text: string, maxRead: nat): string {
    if |text| <= maxRead then text
    else
      var tail := text[|text| - maxRead..];
      var i := IndexOf(tail, '\n');
      if i == |tail| then "" else tail[i + 1..]
  }

  function Scanned(lines: seq<string>): seq<string> {
    if lines == [] || |lines[0]| > MAX_RECORD then [] else [lines[0]] + Scanned(lines[1..])
  }

  /** The records among the lines, in file order. */
  function Records<R>(lines: seq<string>, decode: Decoder<R>): seq<R> {
    if lines == [] then []
    else
      Records(lines[..|lines| - 1], decode) +
      match decode(lines[|lines| - 1])
      case None => []
      case Some(r) => [r]
  }

  function Last<R>(s: seq<R>, n: nat): seq<R> {
    if |s| <= n then s else s[|s| - n..]
  }

  function Reversed<R>(s: seq<R>): seq<R> {
    seq(|s|, i requires 0 <= i < |s| => s[|s| - 1 - i])
  }

  /** The newest `limit` records of a file, newest first. */
  function Newest<R>(lines: seq<string>, decode: Decoder<R>, limit: nat): seq<R> {
    Reversed(Last(Records(lines, decode), limit))
  }

  /** The scanning loop keeps at most three times `limit` records and cuts back to twice `limit`,
      which never costs a record that the result needs. */
  method TailLines<R>(lines: seq<string>, decode: Decoder<R>, limit: nat) returns (result: seq<R>)
    ensures result == Newest(lines, decode, limit)
    ensures |result| <= limit
  {
    hide Records;
    var kept: seq<R> := [];
    ghost var all: seq<R>, width := [], limit;
    var i := 0;
    NoRecords(decode);
    assert lines[..0] == [];
    while i < |lines|
      invariant 0 <= i <= |lines| && |kept| <= 3 * limit
      invariant all == Records(lines[..i], decode) && width >= limit && kept == Last(all, width)
    {
      RecordsSnoc(lines[..i], lines[i], decode);
      assert lines[..i + 1] == lines[..i] + [lines[i]];
      match decode(lines[i]) {
        case None =>
        case Some(r) =>
          kept := kept + [r];
          all, width := all + [r], width + 1;
          if |kept| > 3 * limit {
            kept := kept[|kept| - 2 * limit..];
            width := 2 * limit;
          }
      }
      i := i + 1;
    }
    assert lines[..i] == lines;
    result := NewestOf(kept, limit);
    assert Last(kept, limit) == Last(all, limit);
  }

  lemma NoRecords<R>(decode: Decoder<R>)
    ensures Records([], decode) == []
  {
  }

  lemma RecordsSnoc<R>(lines: seq<string>, line: string, decode: Decoder<R>)
    ensures Records(lines + [line], decode) == Records(lines,
        decode) + match decode(line) case None => [] case Some(r) => [r]
  {
    assert (lines + [line])[..|lines|] == lines;
  }

  method NewestOf<R>(kept: seq<R>, limit: nat) returns (result: seq<R>)
    ensures result == Reversed(Last(kept, limit))
  {
    result := [];
    var j := |kept|;
    while j > 0 && |result| < limit
      invariant 0 <= j <= |kept| && |result| == |kept| - j <= limit
      invariant result == Reversed(kept[j..])
    {
      j := j - 1;
      result := result + [kept[j]];
    }
    assert kept[j..] == Last(kept, limit);
  }

  /** `tailJSONL` */
  method TailJSONL<R>(text: string, decode: Decoder<R>, limit: nat, maxRead: nat) returns (result: seq<R>)
    ensures result == Newest(Scanned(Lines(Window(text, maxRead))), decode, limit)
    ensures |result| <= limit
  {
    result := TailLines(Scanned(Lines(Window(text, maxRead))), decode, limit);
  }

  /** `readRotated`: when the current file is short, continue in the rotated one. */
  method ReadRotated<R>(current: string, previous: string, decode: Decoder<R>, limit: nat, maxRead: nat)
    returns (result: seq<R>)
    ensures var old', new' := Scanned(Lines(Window(previous, maxRead))), Scanned(Lines(Window(current, maxRead)));
            result == Reversed(Last(Records(old', decode) + Records(new', decode), limit))
  {
    hide Scanned, Lines, Window, Records, Last, Reversed;
    ghost var older := Records(Scanned(Lines(Window(previous, maxRead))), decode);
    ghost var newer := Records(Scanned(Lines(Window(current, maxRead))), decode);
    result := TailJSONL(current, decode, limit, maxRead);
    LastAcross(older, newer, limit);
    if |result| >= limit {
      return;
    }
    var more := TailJSONL(previous, decode, limit - |result|, maxRead);
    result := result + more;
  }

  lemma LastAcross<R>(older: seq<R>, newer: seq<R>, limit: nat)
    ensures |Reversed(Last(newer, limit))| == if |newer| < limit then |newer| else limit
    ensures |newer| >= limit ==> Last(older + newer, limit) == Last(newer, limit)
    ensures |newer| < limit ==>
      Reversed(Last(older + newer, limit)) == Reversed(Last(newer, limit)) + Reversed(Last(older, limit - |newer|))
  {
    hide Reversed;
    ReversedAppend(Last(older, if |newer| < limit then limit - |newer| else 0), newer);
    ReversedLength(Last(newer, limit));
    if |newer| < limit {
      assert Last(older + newer, limit) == Last(older, limit - |newer|) + newer;
    }
  }

  lemma ReversedLength<R>(s: seq<R>)
    ensures |Reversed(s)| == |s|
  {
  }

  lemma ReversedAppend<R>(a: seq<R>, b: seq<R>)
    ensures Reversed(a + b) == Reversed(b) + Reversed(a)
  {
  }

  // ---- reading from the middle of a file ---------------------------------

  lemma {:induction false} SplitAt(p: string, rest: string)
    ensures Split(p + ['\n'] + rest, '\n') == Split(p, '\n') + Split(rest, '\n')
    decreases |p|
  {
    hide Split, IndexOf;
    if '\n' !in p {
      SplitCons(p, '\n', rest);
      SplitWhole(p);
    } else {
      var head, tail := CutAt(p);
      SplitAt(tail, rest);
      assert p + ['\n'] + rest == head + ['\n'] + (tail + ['\n'] + rest);
      SplitCons(head, '\n', tail + ['\n'] + rest);
      SplitCons(head, '\n', tail);
    }
  }

  lemma SplitWhole(p: string)
    requires '\n' !in p
    ensures Split(p, '\n') == [p]
  {
  }

  /** A text with a line end is a first line, the line end, and the rest. */
  lemma CutAt(p: string) returns (head: string, tail: string)
    requires '\n' in p
    ensures p == head + ['\n'] + tail && '\n' !in head
  {
    var i := IndexOf(p, '\n');
    head, tail := p[..i], p[i + 1..];
  }

  /** A byte offset never produces a torn line: the window's lines are the last lines of the file. */
  lemma WindowIsSuffix(text: string, maxRead: nat)
    ensures var all, some := Lines(text), Lines(Window(text, maxRead));
            |some| <= |all| && some == all[|all| - |some|..]
  {
    hide Lines;
    if |text| <= maxRead || WindowEmpty(text, maxRead) {
      EmptyLines();
    } else {
      var before := WindowCut(text, maxRead);
      LinesAfter(before, Window(text, maxRead));
    }
  }

  predicate WindowEmpty(text: string, maxRead: nat) {
    Window(text, maxRead) == ""
  }

  /** The window is what follows some line end of the file. */
  lemma WindowCut(text: string, maxRead: nat) returns (before: string)
    requires |text| > maxRead && Window(text, maxRead) != ""
    ensures text == before + ['\n'] + Window(text, maxRead)
  {
    hide IndexOf;
    var tail := text[|text| - maxRead..];
    IndexIsThere(tail);
    before := text[..|text| - maxRead + IndexOf(tail, '\n')];
  }

  lemma IndexIsThere(s: string)
    ensures IndexOf(s, '\n') < |s| ==> s[IndexOf(s, '\n')] == '\n'
  {
  }

  /** The lines of a text after a line end are the last lines of the whole. */
  lemma LinesAfter(p: string, rest: string)
    ensures var all, some := Lines(p + ['\n'] + rest), Lines(rest);
            |some| <= |all| && some == all[|all| - |some|..]
  {
    hide Split, Terminated;
    SplitAt(p, rest);
    SplitSome(rest);
    TerminatedAppend(Split(p, '\n'), Split(rest, '\n'));
  }

  lemma SplitSome(s: string)
    ensures Split(s, '\n') != []
  {
  }

  lemma TerminatedAppend(a: seq<string>, b: seq<string>)
    requires b != []
    ensures Terminated(a + b) == a + Terminated(b)
  {
  }

  lemma EmptyLines()
    ensures Lines("") == []
  {
    assert Split("", '\n') == [""];
  }
}
