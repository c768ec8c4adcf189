// The search in terms of the lines, and Create in terms of the text.
module MsaaCreate {
  import opened Wrappers
  import opened TextLines
  import opened MsaaSyntax
  import opened MsaaDefaults
  import opened MsaaProofs

  // ---- the search

  // The only section, from its header to the next header.
  predicate IsPlace(lines: seq<Line>, start: nat, end: nat) {
    && start < end <= |lines| && IsSection(lines[start])
    && (forall i :: 0 <= i < |lines| && i != start ==> !IsSection(lines[i]))
    && (forall i :: start < i < end ==> !IsHeader(lines[i])) && (end < |lines| ==> IsHeader(lines[end]))
  }

  predicate IsOnlyKey(lines: seq<Line>, start: nat, end: nat, key: Option<nat>)
    requires end <= |lines|
  {
    match key
    case None => forall i :: start <= i < end ==> !HasKey(lines, i)
    case Some(k) =>
      start <= k < end && HasKey(lines, k) && forall i :: start <= i < end && i != k ==> !HasKey(lines, i)
  }

  // The search fails without a section.
  lemma NoSectionIff(lines: seq<Line>)
    ensures FindKey(lines) == NoSection <==> forall i :: 0 <= i < |lines| ==> !IsSection(lines[i])
  {
    hide IsSection, IsHeader, HasKey;
  }

  // It finds this section with this key exactly when there is no other.
  lemma FoundIff(lines: seq<Line>, start: nat, end: nat, key: Option<nat>)
    ensures FindKey(lines) == At(start, end, key) <==> IsPlace(lines, start, end) && IsOnlyKey(lines, start, end, key)
  {
    hide IsSection, IsHeader, HasKey;
    if FindKey(lines) == At(start, end, key) {
      hide FindKey;
      FoundKey(lines);
      if key.Some? {
        OnlyOneKey(lines);
      }
    } else if IsPlace(lines, start, end) && IsOnlyKey(lines, start, end, key) {
      hide FindKey;
      if key.Some? {
        FoundBy(lines, start, end, key.value);
      } else {
        FoundNone(lines, start, end);
      }
    }
  }

  predicate TwoSections(lines: seq<Line>, i: nat, j: nat) {
    i < j < |lines| && IsSection(lines[i]) && IsSection(lines[j])
  }

  predicate TwoKeys(lines: seq<Line>, start: nat, end: nat, i: nat, j: nat) {
    IsPlace(lines, start, end) && start <= i < j < end && HasKey(lines, i) && HasKey(lines, j)
  }

  // And it is ambiguous exactly with two sections, or with two keys in the only one.
  lemma AmbiguousIff(lines: seq<Line>)
    ensures FindKey(lines) == Ambiguous <==>
      || (exists i: nat, j: nat :: TwoSections(lines, i, j))
      || (exists start: nat, end: nat, i: nat, j: nat :: TwoKeys(lines, start, end, i, j))
  {
    hide IsSection, IsHeader, HasKey;
    match FindKey(lines) {
    case Ambiguous => AmbiguousIsDouble(lines);
    case NoSection =>
      NoSectionIff(lines);
    case At(start', end', key) =>
      FoundIff(lines, start', end', key);
      forall start: nat, end: nat, i: nat, j: nat ensures !TwoKeys(lines, start, end, i, j) {
        if TwoKeys(lines, start, end, i, j) {
          OnePlace(lines, start, end, start', end');
          assert false;
        }
      }
    }
  }

  lemma AmbiguousIsDouble(lines: seq<Line>)
    requires FindKey(lines) == Ambiguous
    ensures
      || (exists i: nat, j: nat :: TwoSections(lines, i, j))
      || (exists start: nat, end: nat, i: nat, j: nat :: TwoKeys(lines, start, end, i, j))
  {
    hide IsSection, IsHeader, HasKey;
    var start := FirstSection(lines, 0);
    var second := FirstSection(lines, start + 1);
    if second == |lines| {
      SectionHeader(lines[start]);
      var end := FirstHeader(lines, start + 1);
      var key := FirstKey(lines, start, end);
      assert TwoKeys(lines, start, end, key, FirstKey(lines, key + 1, end));
    } else {
      assert TwoSections(lines, start, second);
    }
  }

  lemma SectionHeader(line: Line)
    ensures IsSection(line) ==> IsHeader(line)
  {
  }

  lemma OnePlace(lines: seq<Line>, start: nat, end: nat, start': nat, end': nat)
    requires IsPlace(lines, start, end) && IsPlace(lines, start', end')
    ensures start == start' && end == end'
  {
    hide IsSection, IsHeader;
  }

  // ---- Create

  predicate HasReturnFeed(text: string) {
    exists i :: 0 <= i < |text| - 1 && text[i] == '\r' && text[i + 1] == '\n'
  }

  lemma {:induction false} ReturnsIff(lines: seq<Line>)
    requires lines != []
    ensures HasReturnFeed(Join(lines)) <==> HasReturns(lines)
  {
    if |lines| > 1 {
      var first, rest := lines[0], lines[1..];
      ReturnsIff(rest);
      ReturnFeedSplit(first, Join(rest));
      assert HasReturns(lines) <==> (first != "" && first[|first| - 1] == '\r') || HasReturns(rest) by {
        forall i | 0 <= i < |rest| ensures rest[i] == lines[i + 1] {
        }
        if HasReturns(rest) {
          var i :| 0 <= i < |rest| - 1 && rest[i] != "" && rest[i][|rest[i]| - 1] == '\r';
          assert lines[i + 1] == rest[i];
        }
        if HasReturns(lines) {
          var i :| 0 <= i < |lines| - 1 && lines[i] != "" && lines[i][|lines[i]| - 1] == '\r';
          assert i > 0 ==> rest[i - 1] == lines[i];
        }
      }
    }
  }

  lemma ReturnFeedSplit(first: Line, rest: string)
    ensures HasReturnFeed(first + "\n" + rest) <==>
      (first != "" && first[|first| - 1] == '\r') || HasReturnFeed(rest)
  {
    var text, n := first + "\n" + rest, |first|;
    assert forall k :: 0 <= k < |rest| ==> text[n + 1 + k] == rest[k];
    assert forall k :: 0 <= k < n ==> text[k] == first[k] && text[k] != '\n';
    assert text[n] == '\n';
    if HasReturnFeed(text) {
      var i :| 0 <= i < |text| - 1 && text[i] == '\r' && text[i + 1] == '\n';
      assert i >= n - 1;
      assert i > n ==> rest[i - n - 1] == '\r' && rest[i - n] == '\n';
    }
    if HasReturnFeed(rest) {
      var i :| 0 <= i < |rest| - 1 && rest[i] == '\r' && rest[i + 1] == '\n';
      assert text[n + 1 + i] == '\r' && text[n + 1 + (i + 1)] == '\n';
    }
    if n > 0 && first[n - 1] == '\r' {
      assert text[n - 1] == '\r';
    }
  }

  // Where the section ends in the text.
  function SectionEnd(text: string, end: nat): nat {
    if end < |Lines(text)| then |Before(Lines(text)[..end])| else |text|
  }

  // The text with the key added at e.
  function WithKey(text: string, e: nat): string
    requires e <= |text|
  {
    var newline := if HasReturnFeed(text) then "\r\n" else "\n";
    var separator := if e > 0 && text[e - 1] != '\n' then newline else "";
    text[..e] + separator + "Anti Aliasing=0" + newline + text[e..]
  }

  lemma InsideText(lines: seq<Line>, line: Line, end: nat)
    requires 0 < end < |lines|
    ensures var before, after := Before(lines[..end]), Join(lines[end..]);
      && Join(lines) == before + after && |before| > 0 && before[|before| - 1] == '\n'
      && Join(lines[..end] + [line] + lines[end..]) == before + line + "\n" + after
  {
    JoinFront(lines[..end], lines[end..]);
    assert lines[..end] + lines[end..] == lines;
    JoinFront(lines[..end], [line] + lines[end..]);
    assert lines[..end] + [line] + lines[end..] == lines[..end] + ([line] + lines[end..]);
    assert ([line] + lines[end..])[1..] == lines[end..];
  }

  lemma AtTextEnd(front: seq<Line>, last: Line, line: Line, ending: string)
    requires (front != [] || last != "") && '\n' !in ending
    ensures var text := Join(front + [last]);
      && text == Before(front) + last && |text| > 0 && (text[|text| - 1] == '\n' <==> last == "")
      && Join(front + [line, ""]) == Before(front) + line + "\n"
      && Join(front + [last + ending, line, ""]) == Before(front) + last + ending + "\n" + line + "\n"
  {
    JoinFront(front, [last]);
    JoinFront(front, [line, ""]);
    assert [line, ""][1..] == [""];
    var back := [last + ending, line, ""];
    JoinFront(front, back);
    assert back[1..] == [line, ""];
    assert last != "" ==> last[|last| - 1] in last;
  }

  // Without a key, Create adds one at the end of the section, in the text's own line ending, behind a
  // line end of its own when the section has none.
  lemma CreateAddsKey(text: string, start: nat, end: nat)
    requires FindKey(Lines(text)) == At(start, end, None)
    ensures SectionEnd(text, end) <= |text|
    ensures Create(text) == Some(WithKey(text, SectionEnd(text, end)))
  {
    hide *;
    PlaceInText(text);
    CreatedByAdding(text, end);
    if end < |Lines(text)| {
      AddedInside(text, end);
    } else {
      AddedAtEnd(text);
      EndOfText(text, end);
    }
  }

  lemma EndOfText(text: string, end: nat)
    requires end >= |Lines(text)|
    ensures SectionEnd(text, end) == |text|
  {
  }

  lemma EndingIs(text: string)
    ensures Ending(Lines(text)) == if HasReturnFeed(text) then "\r" else ""
    ensures '\n' !in "Anti Aliasing=0" + Ending(Lines(text))
  {
    hide HasReturns, HasReturnFeed, Lines, Join;
    JoinLines(text);
    ReturnsIff(Lines(text));
  }

  lemma PlaceInText(text: string)
    requires FindKey(Lines(text)).At?
    ensures 0 < FindKey(Lines(text)).end <= |Lines(text)| && (|Lines(text)| == 1 ==> Lines(text)[0] != "")
  {
    hide IsSection, IsHeader, HasKey, FindKey, Lines;
    FoundKey(Lines(text));
    LastIsApart(Lines(text), FindKey(Lines(text)).start);
  }

  lemma CreatedByAdding(text: string, end: nat)
    requires FindKey(Lines(text)).At? && FindKey(Lines(text)).key == None && FindKey(Lines(text)).end == end <= |Lines(text)|
    ensures AreLines(AddKey(Lines(text), end)) && Create(text) == Some(Join(AddKey(Lines(text), end)))
  {
    hide FindKey, AddKey, Join, Lines;
    CreatedLines(Lines(text));
  }

  lemma LastIsApart(lines: seq<Line>, start: nat)
    requires start < |lines| && IsSection(lines[start])
    ensures |lines| == 1 ==> lines[0] != ""
  {
    assert !IsHeader("");
  }

  lemma AddedInside(text: string, end: nat)
    requires 0 < end < |Lines(text)|
    ensures SectionEnd(text, end) <= |text| && AreLines(AddKey(Lines(text), end))
    ensures Join(AddKey(Lines(text), end)) == WithKey(text, SectionEnd(text, end))
  {
    hide HasReturns, HasReturnFeed, Lines, Before, Join;
    var lines := Lines(text);
    EndingIs(text);
    var line: Line := "Anti Aliasing=0" + Ending(lines);
    JoinLines(text);
    InsideText(lines, line, end);
    var before, after := Before(lines[..end]), Join(lines[end..]);
    assert text[..|before|] == before && text[|before|..] == after;
    assert text[|before| - 1] == '\n';
    var newline := Ending(lines) + "\n";
    assert before + line + "\n" + after == before + "" + "Anti Aliasing=0" + newline + after;
  }

  lemma WithKeyAtEnd(text: string, line: string, ending: string)
    requires text != "" && ending == (if HasReturnFeed(text) then "\r" else "") && line == "Anti Aliasing=0" + ending
    ensures WithKey(text, |text|) == text + (if text[|text| - 1] == '\n' then "" else ending + "\n") + line + "\n"
  {
    hide HasReturnFeed;
    var newline := if HasReturnFeed(text) then "\r\n" else "\n";
    assert newline == ending + "\n" && text[..|text|] == text && text[|text|..] == "";
  }

  lemma AddKeyAtEnd(lines: seq<Line>, line: string)
    requires lines != [] && line == "Anti Aliasing=0" + Ending(lines)
    ensures var front, last := lines[..|lines| - 1], lines[|lines| - 1];
      AddKey(lines, |lines|) == front + if last == "" then [line, ""] else [last + Ending(lines), line, ""]
  {
    hide HasReturns;
  }

  lemma AddedAtEnd(text: string)
    requires |Lines(text)| == 1 ==> Lines(text)[0] != ""
    ensures AreLines(AddKey(Lines(text), |Lines(text)|))
    ensures Join(AddKey(Lines(text), |Lines(text)|)) == WithKey(text, |text|)
  {
    hide HasReturns, HasReturnFeed, Lines, Before, Join, WithKey, AddKey;
    var lines := Lines(text);
    var n := |lines| - 1;
    EndingIs(text);
    var line: Line := "Anti Aliasing=0" + Ending(lines);
    JoinLines(text);
    AddKeyAtEnd(lines, line);
    assert lines[..n] + [lines[n]] == lines;
    AtTextEnd(lines[..n], lines[n], line, Ending(lines));
    WithKeyAtEnd(text, line, Ending(lines));
    if lines[n] == "" {
      assert text + "" == text;
    } else {
      assert text + (Ending(lines) + "\n") == text + Ending(lines) + "\n";
    }
  }
}
