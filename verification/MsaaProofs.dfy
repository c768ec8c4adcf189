// What Create and Restore promise together, and what Restore leaves alone in an edited text.
module MsaaProofs {
  import opened Wrappers
  import opened TextLines
  import opened MsaaSyntax
  import opened MsaaDefaults

  // Two lines that mean the same to the search.
  predicate Alike(a: seq<Line>, i: nat, b: seq<Line>, j: nat)
    requires i < |a| && j < |b|
  {
    && (IsSection(a[i]) <==> IsSection(b[j])) && (IsHeader(a[i]) <==> IsHeader(b[j]))
    && (HasKey(a, i) <==> HasKey(b, j))
  }

  lemma FindDepends(a: seq<Line>, b: seq<Line>)
    requires |a| == |b| && forall i :: 0 <= i < |a| ==> Alike(a, i, b, i)
    ensures FindKey(a) == FindKey(b)
  {
    hide Alike, IsSection, IsHeader, HasKey, FirstSection, FirstHeader, FirstKey;
    SectionDepends(a, b, 0);
    var start := FirstSection(a, 0);
    if start < |a| {
      SectionDepends(a, b, start + 1);
      HeaderDepends(a, b, start + 1);
      var end := FirstHeader(a, start + 1);
      KeyDepends(a, b, start, end);
      var key := FirstKey(a, start, end);
      if key < end {
        KeyDepends(a, b, key + 1, end);
      }
    }
  }

  lemma SectionDepends(a: seq<Line>, b: seq<Line>, from: nat)
    requires |a| == |b| && from <= |a| && forall i :: 0 <= i < |a| ==> Alike(a, i, b, i)
    ensures FirstSection(a, from) == FirstSection(b, from)
  {
    hide IsSection, IsHeader, HasKey;
    var i, j := FirstSection(a, from), FirstSection(b, from);
    assert i < |a| ==> Alike(a, i, b, i);
    assert j < |a| ==> Alike(a, j, b, j);
  }

  lemma HeaderDepends(a: seq<Line>, b: seq<Line>, from: nat)
    requires |a| == |b| && from <= |a| && forall i :: 0 <= i < |a| ==> Alike(a, i, b, i)
    ensures FirstHeader(a, from) == FirstHeader(b, from)
  {
    hide IsSection, IsHeader, HasKey;
    var i, j := FirstHeader(a, from), FirstHeader(b, from);
    assert i < |a| ==> Alike(a, i, b, i);
    assert j < |a| ==> Alike(a, j, b, j);
  }

  lemma KeyDepends(a: seq<Line>, b: seq<Line>, from: nat, end: nat)
    requires |a| == |b| && from <= end <= |a| && forall i :: 0 <= i < |a| ==> Alike(a, i, b, i)
    ensures FirstKey(a, from, end) == FirstKey(b, from, end)
  {
    hide IsSection, IsHeader, HasKey;
    var i, j := FirstKey(a, from, end), FirstKey(b, from, end);
    assert i < end ==> Alike(a, i, b, i);
    assert j < end ==> Alike(a, j, b, j);
  }

  // ---- a replaced number

  lemma ReplacedIsFound(lines: seq<Line>, key: nat, number: string)
    requires key < |lines| && HasKey(lines, key) && NumberOf(KeyAt(lines, key).value).Some? && IsNumber(number)
    ensures var lines' := ReplaceNumber(lines, key, number);
      && AreLines(lines') && |lines'| == |lines| && FindKey(lines') == FindKey(lines)
      && HasKey(lines', key) && KeyAt(lines', key) == SetNumber(KeyAt(lines, key), number)
      && NumberOf(KeyAt(lines', key).value) == Some(number)
  {
    hide IsSection, IsHeader, KeyOf, NumberOf, SetNumber, FindKey, IsNumber;
    SetNumberIsKey(lines[key], Terminated(lines, key), number);
    var lines': seq<Line> := ReplaceNumber(lines, key, number);
    KeyIsNotHeader(lines[key], Terminated(lines, key));
    KeyIsNotHeader(lines'[key], Terminated(lines', key));
    SectionIsHeader(lines[key]);
    SectionIsHeader(lines'[key]);
    forall i | 0 <= i < |lines| ensures Alike(lines, i, lines', i) {
      assert i != key ==> lines'[i] == lines[i];
    }
    FindDepends(lines, lines');
  }

  lemma SectionIsHeader(line: Line)
    ensures IsSection(line) ==> IsHeader(line)
  {
  }

  // Setting a number and setting the old one again changes nothing.
  lemma SetBack(key: Key, number: string)
    requires NumberOf(key.value).Some? && IsNumber(number)
    ensures NumberOf(SetNumber(key, number).value) == Some(number)
    ensures SetNumber(SetNumber(key, number), NumberOf(key.value).value) == key
  {
    hide IsNumber, IsTail;
    NumberIsNumber(key.value);
    var rest := key.value[|NumberOf(key.value).value|..];
    NumberOfJoined(number, rest);
    assert (number + rest)[|number|..] == rest;
  }

  lemma KeyUndone(lines: seq<Line>, key: nat)
    requires FindKey(lines).At? && FindKey(lines).key == Some(key) && NumberOf(KeyAt(lines, key).value).Some?
    ensures AreLines(ReplaceNumber(lines, key, "0"))
    ensures Restored(ReplaceNumber(lines, key, "0"), lines) == Some(lines)
  {
    hide HasKey, KeyAt, NumberOf, FindKey, IsNumber, ToInt, ReplaceNumber, Restored;
    FoundKey(lines);
    NewContent();
    ReplacedIsFound(lines, key, "0");
    ReplacedTwice(lines, key, "0");
    RestoredByNumber(ReplaceNumber(lines, key, "0"), lines, key, key);
  }

  lemma RestoredByNumber(current: seq<Line>, original: seq<Line>, key: nat, originalKey: nat)
    requires FindKey(current).At? && FindKey(current).key == Some(key) && key < |current| && HasKey(current, key)
    requires NumberOf(KeyAt(current, key).value).Some? && ToInt(NumberOf(KeyAt(current, key).value).value) == 0
    requires FindKey(original).At? && FindKey(original).key == Some(originalKey)
    requires originalKey < |original| && HasKey(original, originalKey)
    requires NumberOf(KeyAt(original, originalKey).value).Some?
    ensures Restored(current, original)
      == Some(ReplaceNumber(current, key, NumberOf(KeyAt(original, originalKey).value).value))
  {
    hide FindKey, NumberOf, HasKey, KeyAt, ToInt, ReplaceNumber, RemoveKey;
  }

  lemma ReplacedTwice(lines: seq<Line>, key: nat, number: string)
    requires key < |lines| && HasKey(lines, key) && NumberOf(KeyAt(lines, key).value).Some? && IsNumber(number)
    ensures var lines' := ReplaceNumber(lines, key, number);
      && AreLines(lines') && |lines'| == |lines|
      && HasKey(lines', key) && NumberOf(KeyAt(lines', key).value).Some?
      && ReplaceNumber(lines', key, NumberOf(KeyAt(lines, key).value).value) == lines
  {
    hide KeyOf, NumberOf, SetNumber, IsNumber, FindKey;
    var was := KeyAt(lines, key);
    NumberIsNumber(was.value);
    ReplacedIsFound(lines, key, number);
    SetBack(was, number);
    KeyIsWhole(lines[key], Terminated(lines, key));
  }

  lemma FoundKey(lines: seq<Line>)
    requires FindKey(lines).At?
    ensures FindKey(lines).start < FindKey(lines).end <= |lines|
    ensures FindKey(lines).key.Some? ==>
      FindKey(lines).start <= FindKey(lines).key.value < FindKey(lines).end && HasKey(lines, FindKey(lines).key.value)
    ensures FindKey(lines).key == None ==>
      forall i :: FindKey(lines).start <= i < FindKey(lines).end ==> !HasKey(lines, i)
    ensures FindKey(lines).end < |lines| ==> IsHeader(lines[FindKey(lines).end])
    ensures forall i :: FindKey(lines).start < i < FindKey(lines).end ==> !IsHeader(lines[i])
    ensures IsSection(lines[FindKey(lines).start])
    ensures forall i :: 0 <= i < |lines| && i != FindKey(lines).start ==> !IsSection(lines[i])
  {
  }

  // What is true of a section with one key at `key` makes the search find it.
  lemma FoundBy(lines: seq<Line>, start: nat, end: nat, key: nat)
    requires start <= key < end <= |lines| && start < end && HasKey(lines, key)
    requires IsSection(lines[start]) && forall i :: 0 <= i < |lines| && i != start ==> !IsSection(lines[i])
    requires end < |lines| ==> IsHeader(lines[end])
    requires forall i :: start < i < end ==> !IsHeader(lines[i])
    requires forall i :: start <= i < end && i != key ==> !HasKey(lines, i)
    ensures FindKey(lines) == At(start, end, Some(key))
  {
    hide IsSection, IsHeader, HasKey;
    assert FirstSection(lines, 0) == start;
    assert FirstSection(lines, start + 1) == |lines|;
    assert FirstHeader(lines, start + 1) == end;
    assert FirstKey(lines, start, end) == key;
    assert FirstKey(lines, key + 1, end) == end;
  }

  // ---- an added key

  function Inserted(lines: seq<Line>, at: nat, line: Line): seq<Line>
    requires at <= |lines|
  {
    lines[..at] + [line] + lines[at..]
  }

  lemma InsertedIsFound(lines: seq<Line>, at: nat, line: Line)
    requires FindKey(lines).At? && FindKey(lines).key == None && at < |lines|
    requires FindKey(lines).start < at == FindKey(lines).end || (at + 1 == FindKey(lines).end == |lines| && FindKey(lines).start < at)
    requires KeyOf(line, true).Some?
    ensures FindKey(Inserted(lines, at, line)) == At(FindKey(lines).start, FindKey(lines).end + 1, Some(at))
  {
    hide IsSection, IsHeader, KeyOf, FindKey;
    FoundKey(lines);
    var start, end := FindKey(lines).start, FindKey(lines).end;
    var lines' := Inserted(lines, at, line);
    KeyIsNotHeader(line, true);
    SectionIsHeader(line);
    assert lines'[at] == line;
    assert forall i :: 0 <= i < at ==> lines'[i] == lines[i];
    assert forall i :: at < i < |lines'| ==> lines'[i] == lines[i - 1];
    forall i | start <= i < end + 1 && i != at ensures !HasKey(lines', i) {
      assert !HasKey(lines, if i < at then i else i - 1);
    }
    FoundBy(lines', start, end + 1, at);
  }

  predicate Undoable(lines: seq<Line>)
    requires lines != []
  {
    match FindKey(lines)
    case At(_, _, Some(_)) => true
    case At(_, end, None) => end < |lines| || lines[|lines| - 1] == ""
    case _ => false
  }

  lemma AddedUndone(lines: seq<Line>)
    requires lines != [] && FindKey(lines).At? && FindKey(lines).key == None && Undoable(lines)
    ensures AreLines(AddKey(lines, FindKey(lines).end))
    ensures Restored(AddKey(lines, FindKey(lines).end), lines) == Some(lines)
  {
    hide IsSection, IsHeader, HasKey, KeyOf, KeyAt, NumberOf, FindKey, Restored, RemoveKey, AddKey, Inserted;
    FoundKey(lines);
    EmptyIsNoHeader();
    var start, end, line := FindKey(lines).start, FindKey(lines).end, "Anti Aliasing=0" + Ending(lines);
    NewKey(Ending(lines));
    SectionIsHeader(lines[start]);
    var at := if end < |lines| then end else end - 1;
    AddedIsInserted(lines, end);
    InsertedIsFound(lines, at, line);
    InsertedAt(lines, at, line);
    RestoredByRemoval(lines, at, line);
  }

  lemma AddedIsInserted(lines: seq<Line>, end: nat)
    requires lines != [] && end <= |lines| && (end < |lines| || lines[|lines| - 1] == "")
    ensures var line := "Anti Aliasing=0" + Ending(lines);
      '\n' !in line && AddKey(lines, end) == Inserted(lines, if end < |lines| then end else end - 1, line)
  {
    hide HasReturns;
  }

  lemma RestoredByRemoval(lines: seq<Line>, at: nat, line: Line)
    requires at < |lines| && FindKey(lines).At? && FindKey(lines).key == None
    requires var lines' := Inserted(lines, at, line);
      FindKey(lines').At? && FindKey(lines').key == Some(at) && HasKey(lines', at)
      && NumberOf(KeyAt(lines', at).value).Some? && ToInt(NumberOf(KeyAt(lines', at).value).value) == 0
    ensures Restored(Inserted(lines, at, line), lines) == Some(lines)
  {
    hide FindKey, KeyOf, NumberOf, ToInt;
    var lines' := Inserted(lines, at, line);
    assert lines'[..at] == lines[..at] && lines'[at + 1..] == lines[at..];
    assert RemoveKey(lines', at) == lines[..at] + lines[at..] == lines;
  }

  lemma InsertedAt(lines: seq<Line>, at: nat, line: Line)
    requires at < |lines| && KeyOf(line, true).Some?
    ensures var lines' := Inserted(lines, at, line);
      at < |lines'| && HasKey(lines', at) && KeyAt(lines', at) == KeyOf(line, true).value
  {
    hide KeyOf;
  }

  lemma EmptyIsNoHeader()
    ensures !IsHeader("")
  {
  }

  // ---- the round trip

  // Without a line feed at the end of the section nothing that Restore does gives the text back: a
  // key and a line feed were added, and at most one line is removed.
  lemma AddedToLastLine(lines: seq<Line>)
    requires lines != [] && FindKey(lines).At? && FindKey(lines).key == None && !Undoable(lines)
    ensures AreLines(AddKey(lines, FindKey(lines).end))
    ensures Restored(AddKey(lines, FindKey(lines).end), lines) != Some(lines)
  {
    hide IsSection, IsHeader, KeyOf, NumberOf, SetNumber, FindKey, HasReturns, ToInt;
    FoundKey(lines);
    NewKey(Ending(lines));
    var added: seq<Line> := AddKey(lines, FindKey(lines).end);
    assert |added| == |lines| + 2;
  }

  // Create followed by Restore gives the text back exactly when the key was there before, or the
  // section ends in a line feed.
  lemma RestoreUndoesCreate(text: string)
    requires Create(text).Some?
    ensures Restore(Create(text).value, text) == Some(text) <==> Undoable(Lines(text))
  {
    hide FindKey, NumberOf, KeyOf, ToInt, AddKey, ReplaceNumber, Restored, AreLines;
    var lines := Lines(text);
    match FindKey(lines) {
    case At(_, end, None) => if Undoable(lines) { AddedUndone(lines); } else { AddedToLastLine(lines); }
    case At(_, _, Some(key)) => KeyUndone(lines, key);
    case _ =>
    }
    RestoreOnLines(text, Created(lines).value);
  }

  lemma RestoreOnLines(text: string, created: seq<string>)
    requires Created(Lines(text)) == Some(created)
    ensures AreLines(created) && Create(text) == Some(Join(created))
    ensures Restore(Join(created), text) == Some(text) <==> Restored(created, Lines(text)) == Some(Lines(text))
  {
    hide Created, Restored;
    CreatedLines(Lines(text));
    LinesJoin(created);
    JoinLines(text);
    if Restored(created, Lines(text)).Some? {
      RestoredLines(created, Lines(text));
      if Join(Restored(created, Lines(text)).value) == text {
        JoinInjective(Restored(created, Lines(text)).value, Lines(text));
      }
    }
  }

  // ---- an edited text

  function Before(lines: seq<Line>): string { if lines == [] then "" else Join(lines) + "\n" }

  function After(lines: seq<Line>): string { if lines == [] then "" else "\n" + Join(lines) }

  lemma {:induction false} JoinAround(before: seq<Line>, line: Line, after: seq<Line>)
    ensures Join(before + [line] + after) == Before(before) + line + After(after)
  {
    var all := before + [line] + after;
    if before == [] {
      assert all == [line] + after && all[1..] == after;
    } else {
      assert all[0] == before[0] && all[1..] == before[1..] + [line] + after;
      JoinAround(before[1..], line, after);
    }
  }

  // The number is made of zeros.
  predicate Zeros(number: string) { forall c <- number :: c == '0' }

  lemma ZerosAreZero(number: string)
    requires IsNumber(number)
    ensures Zeros(number) <==> ToInt(number) == 0
  {
    ZeroIff(number);
  }

  // The key was found, and its number is 0.
  predicate HasZero(lines: seq<Line>) {
    && FindKey(lines).At? && FindKey(lines).key.Some?
    && var key := FindKey(lines).key.value;
       key < |lines| && HasKey(lines, key)
       && NumberOf(KeyAt(lines, key).value).Some? && Zeros(NumberOf(KeyAt(lines, key).value).value)
  }

  // The text up to the number of the key on line i, and the text behind it.
  function BeforeNumber(lines: seq<Line>, i: nat): string
    requires i < |lines| && HasKey(lines, i)
  {
    Before(lines[..i]) + KeyAt(lines, i).prefix
  }

  function AfterNumber(lines: seq<Line>, i: nat): string
    requires i < |lines| && HasKey(lines, i) && NumberOf(KeyAt(lines, i).value).Some?
  {
    var key := KeyAt(lines, i);
    key.value[|NumberOf(key.value).value|..] + key.ending + After(lines[i + 1..])
  }

  // Line i with its line feed, if it has one, and the text behind that.
  function LineText(lines: seq<Line>, i: nat): string
    requires i < |lines|
  {
    lines[i] + if Terminated(lines, i) then "\n" else ""
  }

  function AfterLine(lines: seq<Line>, i: nat): string
    requires i < |lines|
  {
    if Terminated(lines, i) then Join(lines[i + 1..]) else ""
  }

  // r is the text with the number x of the key on line i replaced by y, and nothing else.
  predicate NumberReplaced(text: string, i: nat, y: string, r: string) {
    var lines := Lines(text);
    && i < |lines| && HasKey(lines, i) && NumberOf(KeyAt(lines, i).value).Some?
    && text == BeforeNumber(lines, i) + NumberOf(KeyAt(lines, i).value).value + AfterNumber(lines, i)
    && r == BeforeNumber(lines, i) + y + AfterNumber(lines, i)
  }

  // r is the text without line i, and nothing else.
  predicate LineRemoved(text: string, i: nat, r: string) {
    var lines := Lines(text);
    && i < |lines|
    && text == Before(lines[..i]) + LineText(lines, i) + AfterLine(lines, i)
    && r == Before(lines[..i]) + AfterLine(lines, i)
  }

  // What Restore makes of a text, place by place: nothing, unless the key that the search finds
  // has the number 0. Then that number becomes the number of the original's key, or that key's
  // line goes when the original has no such key.
  predicate OnlyTheKey(text: string, original: string, r: string) {
    if !HasZero(Lines(text)) then r == text
    else
      var key, place := FindKey(Lines(text)).key.value, FindKey(Lines(original));
      if place.At? && place.key.Some? then
        && place.key.value < |Lines(original)| && HasKey(Lines(original), place.key.value)
        && NumberOf(KeyAt(Lines(original), place.key.value).value).Some?
        && NumberReplaced(text, key, NumberOf(KeyAt(Lines(original), place.key.value).value).value, r)
      else !place.Ambiguous? && LineRemoved(text, key, r)
  }

  lemma NumberSpliced(text: string, key: nat, number: string)
    requires key < |Lines(text)| && HasKey(Lines(text), key)
    requires NumberOf(KeyAt(Lines(text), key).value).Some? && IsNumber(number)
    ensures AreLines(ReplaceNumber(Lines(text), key, number))
    ensures NumberReplaced(text, key, number, Join(ReplaceNumber(Lines(text), key, number)))
  {
    hide KeyOf, NumberOf, IsNumber, FindKey, ToInt, Join, Before, After, Lines;
    var lines := Lines(text);
    var was := KeyAt(lines, key);
    JoinLines(text);
    NumberIsNumber(was.value);
    ReplacedIsFound(lines, key, number);
    KeyIsWhole(lines[key], Terminated(lines, key));
    var front, back := lines[..key], lines[key + 1..];
    assert lines == front + [lines[key]] + back;
    JoinAround(front, lines[key], back);
    JoinAround(front, Whole(SetNumber(was, number)), back);
    var x := NumberOf(was.value).value;
    Regrouped(Before(front), was.prefix, x, was.value[|x|..], was.ending, After(back));
    Regrouped(Before(front), was.prefix, number, was.value[|x|..], was.ending, After(back));
  }

  lemma Regrouped(a: string, b: string, c: string, d: string, e: string, f: string)
    ensures a + (b + (c + d) + e) + f == (a + b) + c + (d + e + f)
  {
  }

  lemma RemovedSpliced(text: string, key: nat)
    requires key < |Lines(text)|
    ensures AreLines(RemoveKey(Lines(text), key))
    ensures LineRemoved(text, key, Join(RemoveKey(Lines(text), key)))
  {
    hide Before, Lines;
    var lines := Lines(text);
    JoinLines(text);
    var line, front, back := lines[key], lines[..key], lines[key + 1..];
    if Terminated(lines, key) {
      assert lines == front + ([line] + back) && ([line] + back)[1..] == back;
      JoinFront(front, [line] + back);
      JoinFront(front, back);
      assert Before(front) + (line + "\n" + Join(back)) == Before(front) + (line + "\n") + Join(back);
    } else {
      assert lines == front + [line];
      JoinFront(front, [line]);
      JoinFront(front, [""]);
    }
  }

  lemma {:induction false} JoinFront(front: seq<Line>, back: seq<Line>)
    requires back != []
    ensures Join(front + back) == Before(front) + Join(back)
  {
    if front == [] {
      assert front + back == back;
    } else {
      assert (front + back)[1..] == front[1..] + back;
      JoinFront(front[1..], back);
    }
  }

  lemma RestoreTouchesOnlyTheKey(current: string, original: string)
    requires Restore(current, original).Some?
    ensures OnlyTheKey(current, original, Restore(current, original).value)
  {
    hide NumberOf, KeyOf, ToInt, IsNumber, NumberReplaced, LineRemoved;
    JoinLines(current);
    var lines, others := Lines(current), Lines(original);
    FoundKeyIn(lines);
    FoundKeyIn(others);
    if FindKey(lines).At? && FindKey(lines).key.Some? {
      ZeroIsHasZero(lines);
    }
    if HasZero(lines) {
      var key := FindKey(lines).key.value;
      match FindKey(others)
      case At(_, _, Some(originalKey)) =>
        NumberIsNumber(KeyAt(others, originalKey).value);
        NumberSpliced(current, key, NumberOf(KeyAt(others, originalKey).value).value);
      case _ => RemovedSpliced(current, key);
    }
  }

  lemma ZeroIsHasZero(lines: seq<Line>)
    requires FindKey(lines).At? && FindKey(lines).key.Some?
             && FindKey(lines).key.value < |lines| && HasKey(lines, FindKey(lines).key.value)
    ensures var number := NumberOf(KeyAt(lines, FindKey(lines).key.value).value);
      HasZero(lines) <==> number.Some? && ToInt(number.value) == 0
  {
    hide NumberOf, KeyOf, FindKey, ToInt, IsNumber, Zeros;
    var value := KeyAt(lines, FindKey(lines).key.value).value;
    if NumberOf(value).Some? {
      NumberIsNumber(value);
      ZerosAreZero(NumberOf(value).value);
    }
  }

  lemma FoundKeyIn(lines: seq<Line>)
    ensures FindKey(lines).At? && FindKey(lines).key.Some? ==>
      FindKey(lines).key.value < |lines| && HasKey(lines, FindKey(lines).key.value)
  {
  }

  // A value that does not start with a number, or whose number has a digit other than 0, is the
  // user's: it stays, whatever the original was.
  lemma NonZeroIsKept(current: string, original: string)
    requires FindKey(Lines(current)).At? && FindKey(Lines(current)).key.Some?
    requires var number := NumberOf(KeyAt(Lines(current), FindKey(Lines(current)).key.value).value);
             number.Some? ==> exists c <- number.value :: c != '0'
    ensures Restore(current, original) == Some(current)
  {
    hide NumberOf, KeyOf, FindKey, ToInt;
    JoinLines(current);
    FoundKeyIn(Lines(current));
    ZeroIsHasZero(Lines(current));
  }

  // ---- restoring twice

  lemma FoundNone(lines: seq<Line>, start: nat, end: nat)
    requires start < end <= |lines|
    requires IsSection(lines[start]) && forall i :: 0 <= i < |lines| && i != start ==> !IsSection(lines[i])
    requires end < |lines| ==> IsHeader(lines[end])
    requires forall i :: start < i < end ==> !IsHeader(lines[i])
    requires forall i :: start <= i < end ==> !HasKey(lines, i)
    ensures FindKey(lines) == At(start, end, None)
  {
  }

  lemma OnlyOneKey(lines: seq<Line>)
    requires FindKey(lines).At? && FindKey(lines).key.Some?
    ensures forall i :: FindKey(lines).start <= i < FindKey(lines).end && i != FindKey(lines).key.value ==> !HasKey(lines, i)
  {
    hide IsSection, IsHeader, HasKey;
  }

  lemma RemovedIsGone(lines: seq<Line>)
    requires FindKey(lines).At? && FindKey(lines).key.Some?
    ensures var key := FindKey(lines).key.value;
      && AreLines(RemoveKey(lines, key))
      && FindKey(RemoveKey(lines, key)).At? && FindKey(RemoveKey(lines, key)).key == None
  {
    hide IsSection, IsHeader, KeyOf, FindKey;
    FoundKey(lines);
    OnlyOneKey(lines);
    var start, end, key := FindKey(lines).start, FindKey(lines).end, FindKey(lines).key.value;
    KeyIsNotHeader(lines[key], Terminated(lines, key));
    SectionIsHeader(lines[start]);
    if Terminated(lines, key) {
      var less: seq<Line> := lines[..key] + lines[key + 1..];
      assert forall i :: 0 <= i < key ==> less[i] == lines[i];
      assert forall i :: key <= i < |less| ==> less[i] == lines[i + 1];
      forall i | start <= i < end - 1 ensures !HasKey(less, i) {
        assert !HasKey(lines, if i < key then i else i + 1);
      }
      FoundNone(less, start, end - 1);
    } else {
      var less: seq<Line> := lines[..key] + [""];
      EmptyIsNothing();
      assert forall i :: 0 <= i < key ==> less[i] == lines[i];
      forall i | start <= i < end ensures !HasKey(less, i) {
        assert i != key ==> !HasKey(lines, i);
      }
      FoundNone(less, start, end);
    }
  }

  lemma EmptyIsNothing()
    ensures !IsHeader("") && !IsSection("") && KeyOf("", false) == None
  {
  }

  lemma SetTwice(key: Key, number: string)
    requires NumberOf(key.value).Some? && IsNumber(number)
    ensures NumberOf(SetNumber(key, number).value) == Some(number)
    ensures SetNumber(SetNumber(key, number), number) == SetNumber(key, number)
  {
    hide IsNumber, IsTail;
    NumberIsNumber(key.value);
    var rest := key.value[|NumberOf(key.value).value|..];
    NumberOfJoined(number, rest);
    assert (number + rest)[|number|..] == rest;
  }

  lemma ReplacedAgain(lines: seq<Line>, original: seq<Line>, key: nat, number: string)
    requires FindKey(lines).At? && FindKey(lines).key == Some(key) && key < |lines| && HasKey(lines, key)
    requires NumberOf(KeyAt(lines, key).value).Some? && IsNumber(number)
    requires FindKey(original).At? && FindKey(original).key.Some?
    requires FindKey(original).key.value < |original| && HasKey(original, FindKey(original).key.value)
    requires NumberOf(KeyAt(original, FindKey(original).key.value).value) == Some(number)
    ensures AreLines(ReplaceNumber(lines, key, number))
    ensures Restored(ReplaceNumber(lines, key, number), original) == Some(ReplaceNumber(lines, key, number))
  {
    hide KeyOf, NumberOf, SetNumber, FindKey, IsNumber, ToInt;
    ReplacedIsFound(lines, key, number);
    SetTwice(KeyAt(lines, key), number);
    var once: seq<Line> := ReplaceNumber(lines, key, number);
    assert ReplaceNumber(once, key, number) == once;
  }

  // Restoring what was restored changes nothing, so a recovery may be repeated.
  lemma RestoreIsIdempotent(current: string, original: string)
    requires Restore(current, original).Some?
    ensures Restore(Restore(current, original).value, original) == Restore(current, original)
  {
    hide NumberOf, KeyOf, ToInt, IsNumber, ReplaceNumber, RemoveKey;
    var lines, originalLines := Lines(current), Lines(original);
    JoinLines(current);
    FoundKeyIn(lines);
    FoundKeyIn(originalLines);
    var restored := Restored(lines, originalLines).value;
    RestoredLines(lines, originalLines);
    LinesJoin(restored);
    if restored != lines {
      var key := FindKey(lines).key.value;
      match FindKey(originalLines)
      case At(_, _, Some(originalKey)) =>
        var number := NumberOf(KeyAt(originalLines, originalKey).value).value;
        NumberIsNumber(KeyAt(originalLines, originalKey).value);
        ReplacedAgain(lines, originalLines, key, number);
      case _ =>
        RemovedIsGone(lines);
    }
  }
}
