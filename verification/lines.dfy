/** The accounts file as text: every value is written followed by `endl`,
    and every value is read back with `getline`, which stops at a newline
    and drops it. */
module Lines {

  /** No line may contain the separator if it is to survive a round trip. */
  predicate LineSafe(line: string) {
    '\n' !in line
  }

  predicate AllLineSafe(lines: seq<string>) {
    forall i :: 0 <= i < |lines| ==> LineSafe(lines[i])
  }

  /** What a run of `out << line << endl` leaves in the file. */
  function Render(lines: seq<string>): string {
    if lines == [] then [] else lines[0] + "\n" + Render(lines[1..])
  }

  /** Repeated `getline` over `text`, `cur` holding the characters of the
      current line read so far.  A last line without a newline is still
      read; a file that ends with a newline yields no empty last line. */
  function SplitFrom(text: string, cur: string): (lines: seq<string>)
    requires LineSafe(cur)
    ensures AllLineSafe(lines)
    decreases |text|
  {
    if text == [] then (if cur == [] then [] else [cur])
    else if text[0] == '\n' then [cur] + SplitFrom(text[1..], [])
    else SplitFrom(text[1..], cur + [text[0]])
  }

  function Split(text: string): seq<string> {
    SplitFrom(text, [])
  }

  /** Reading one written line gives back that line, whatever follows. */
  lemma {:induction false} SplitLine(line: string, rest: string, cur: string)
    requires LineSafe(line) && LineSafe(cur)
    ensures SplitFrom(line + "\n" + rest, cur) == [cur + line] + SplitFrom(rest, [])
    decreases |line|
  {
    if line == [] {
      var text := line + "\n" + rest;
      assert text[0] == '\n' && text[1..] == rest;
      assert cur + line == cur;
    } else {
      var text := line + "\n" + rest;
      assert text[0] == line[0];
      assert text[1..] == line[1..] + "\n" + rest;
      SplitLine(line[1..], rest, cur + [line[0]]);
      assert cur + [line[0]] + line[1..] == cur + line;
    }
  }

  /** Splitting rendered lines gives the lines back, when none contains a
      newline. */
  lemma {:induction false} SplitRender(lines: seq<string>)
    requires AllLineSafe(lines)
    ensures Split(Render(lines)) == lines
    decreases |lines|
  {
    if lines != [] {
      SplitLine(lines[0], Render(lines[1..]), []);
      assert [] + lines[0] == lines[0];
      SplitRender(lines[1..]);
    }
  }

  lemma {:induction false} RenderSplitFrom(text: string, cur: string)
    requires LineSafe(cur)
    requires (text == [] && cur == []) || (text != [] && text[|text| - 1] == '\n')
    ensures Render(SplitFrom(text, cur)) == cur + text
    decreases |text|
  {
    if text == [] {
    } else if text[0] == '\n' {
      var rest := text[1..];
      if rest != [] {
        assert rest[|rest| - 1] == text[|text| - 1];
      }
      RenderSplitFrom(rest, []);
      var ls := [cur] + SplitFrom(rest, []);
      assert ls[1..] == SplitFrom(rest, []);
      assert text == "\n" + rest;
    } else {
      var rest := text[1..];
      assert rest != [] && rest[|rest| - 1] == text[|text| - 1];
      RenderSplitFrom(rest, cur + [text[0]]);
      assert cur + [text[0]] + rest == cur + text;
    }
  }

  /** A file written entirely by `endl`-terminated lines is exactly the
      rendering of the lines `getline` reads from it. */
  lemma RenderSplit(text: string)
    requires text == [] || text[|text| - 1] == '\n'
    ensures Render(Split(text)) == text
  {
    RenderSplitFrom(text, []);
  }
}
