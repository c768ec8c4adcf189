// A text as its lines: what lies between the line feeds. A carriage return stays in its line.
module TextLines {
  type Line = s: string | '\n' !in s witness ""

  function Lines(text: string): (lines: seq<Line>)
    ensures lines != []
  {
    if text == "" then [""]
    else
      var rest := Lines(text[1..]);
      if text[0] == '\n' then [""] + rest else [[text[0]] + rest[0]] + rest[1..]
  }

  function Join(lines: seq<Line>): string
    requires lines != []
  {
    if |lines| == 1 then lines[0] else lines[0] + "\n" + Join(lines[1..])
  }

  lemma {:induction false} JoinLines(text: string)
    ensures Join(Lines(text)) == text
  {
    if text != "" {
      JoinLines(text[1..]);
      var rest := Lines(text[1..]);
      if text[0] == '\n' {
        assert ([""] + rest)[1..] == rest;
      } else {
        var lines := [[text[0]] + rest[0]] + rest[1..];
        assert lines[1..] == rest[1..];
      }
    }
  }

  lemma {:induction false} LinesJoin(lines: seq<Line>)
    requires lines != []
    ensures Lines(Join(lines)) == lines
    decreases |lines|, |lines[0]|
  {
    if lines[0] == "" {
      if |lines| == 1 {
        assert Join(lines) == "";
      } else {
        LinesJoin(lines[1..]);
        assert Join(lines)[1..] == Join(lines[1..]);
        assert lines == [""] + lines[1..];
      }
    } else {
      var first := lines[0];
      var rest: seq<Line> := [first[1..]] + lines[1..];
      LinesJoin(rest);
      assert rest[1..] == lines[1..];
      assert Join(lines)[1..] == Join(rest);
      assert Join(lines)[0] == first[0];
      assert [first[0]] + first[1..] == first;
      assert lines == [first] + lines[1..];
    }
  }

  // Equal lines, equal texts.
  lemma JoinInjective(a: seq<Line>, b: seq<Line>)
    requires a != [] && b != [] && Join(a) == Join(b)
    ensures a == b
  {
    LinesJoin(a);
    LinesJoin(b);
  }
}
