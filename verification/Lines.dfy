/** Newline-framed text: `split('\n')`, and the log framing every line of which ends with a newline. */
module Lines {
  import opened Prelude

  predicate NoNewline(s: string) { '\n' !in s }

  function Split(s: string): (r: seq<string>)
    ensures |r| > 0
  {
    if s == "" then [""]
    else
      var rest := Split(s[1..]);
      if s[0] == '\n' then [""] + rest else [[s[0]] + rest[0]] + rest[1..]
  }

  /** `join('\n')`. */
  function Join(lines: seq<string>): string {
    if lines == [] then ""
    else if |lines| == 1 then lines[0]
    else lines[0] + "\n" + Join(lines[1..])
  }

  /** Every line followed by its newline. */
  function LogText(lines: seq<string>): string {
    if lines == [] then "" else lines[0] + "\n" + LogText(lines[1..])
  }

  /** The line reader of every log file: empty text, or lines of which the last is closed. */
  function LogLines(text: string): Result<seq<string>, ()> {
    if text == "" then Ok([])
    else if text[|text| - 1] != '\n' then Err(())
    else Ok(Split(text[..|text| - 1]))
  }

  lemma {:induction false} SplitLine(line: string)
    requires NoNewline(line)
    ensures Split(line) == [line]
  {
    if line != "" {
      assert line[0] in line;
      SplitLine(line[1..]);
      assert [line[0]] + line[1..] == line;
    }
  }

  lemma {:induction false} SplitFirst(line: string, rest: string)
    requires NoNewline(line)
    ensures Split(line + "\n" + rest) == [line] + Split(rest)
  {
    var s := line + "\n" + rest;
    if line == "" {
      assert s[1..] == rest;
    } else {
      assert s[1..] == line[1..] + "\n" + rest;
      assert line[0] in line;
      SplitFirst(line[1..], rest);
      assert [line[0]] + line[1..] == line;
    }
  }

  lemma {:induction false} SplitJoin(lines: seq<string>)
    requires lines != [] && forall l :: l in lines ==> NoNewline(l)
    ensures Split(Join(lines)) == lines
  {
    if |lines| == 1 {
      SplitLine(lines[0]);
    } else {
      SplitFirst(lines[0], Join(lines[1..]));
      SplitJoin(lines[1..]);
    }
  }

  lemma {:induction false} LogTextIsJoin(lines: seq<string>)
    requires lines != []
    ensures LogText(lines) == Join(lines) + "\n"
  {
    if |lines| > 1 { LogTextIsJoin(lines[1..]); }
  }

  /** Reading a log gives back the lines it was written from. */
  lemma LogRoundTrip(lines: seq<string>)
    requires forall l :: l in lines ==> NoNewline(l)
    ensures LogLines(LogText(lines)) == Ok(lines)
  {
    if lines != [] {
      LogTextIsJoin(lines);
      var t := LogText(lines);
      assert t[..|t| - 1] == Join(lines);
      SplitJoin(lines);
    }
  }

  lemma {:induction false} LogTextAppend(lines: seq<string>, line: string)
    ensures LogText(lines + [line]) == LogText(lines) + line + "\n"
  {
    if lines == [] {
      assert lines + [line] == [line];
      assert LogText([line]) == line + "\n" + LogText([line][1..]);
    } else {
      assert (lines + [line])[1..] == lines[1..] + [line];
      LogTextAppend(lines[1..], line);
    }
  }

  lemma {:induction false} JoinSplit(s: string)
    ensures Join(Split(s)) == s
    ensures forall l :: l in Split(s) ==> NoNewline(l)
  {
    if s != "" {
      JoinSplit(s[1..]);
      var rest := Split(s[1..]);
      if s[0] == '\n' {
        assert ([""] + rest)[1..] == rest;
      } else {
        var head := [s[0]] + rest[0];
        assert ([head] + rest[1..])[1..] == rest[1..];
        forall l | l in [head] + rest[1..] ensures NoNewline(l) {
          if l != head { assert l in rest; } else { assert rest[0] in rest; }
        }
      }
    }
  }

  /** Whatever text the line reader accepts is the framing of the lines it returns. */
  lemma LogLinesInverse(text: string)
    requires LogLines(text).Ok?
    ensures LogText(LogLines(text).value) == text
    ensures forall l :: l in LogLines(text).value ==> NoNewline(l)
  {
    if text != "" {
      var body := text[..|text| - 1];
      JoinSplit(body);
      LogTextIsJoin(Split(body));
      assert text == body + "\n";
    }
  }
}
