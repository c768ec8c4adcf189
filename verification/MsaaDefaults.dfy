// MonitorMsaaDefaults.cs: setting the Anti Aliasing key of the Graphics Options section to 0, and
// undoing that later in a text which may have been edited since.
module MsaaDefaults {
  import opened Wrappers
  import opened TextLines
  import opened MsaaSyntax

  predicate Terminated(lines: seq<Line>, i: nat) { i + 1 < |lines| }

  predicate HasKey(lines: seq<Line>, i: nat)
    requires i < |lines|
  {
    KeyOf(lines[i], Terminated(lines, i)).Some?
  }

  function FirstSection(lines: seq<Line>, from: nat): (i: nat)
    requires from <= |lines|
    ensures from <= i <= |lines| && (i < |lines| ==> IsSection(lines[i]))
    ensures forall k :: from <= k < i ==> !IsSection(lines[k])
    decreases |lines| - from
  {
    if from < |lines| && !IsSection(lines[from]) then FirstSection(lines, from + 1) else from
  }

  function FirstHeader(lines: seq<Line>, from: nat): (i: nat)
    requires from <= |lines|
    ensures from <= i <= |lines| && (i < |lines| ==> IsHeader(lines[i]))
    ensures forall k :: from <= k < i ==> !IsHeader(lines[k])
    decreases |lines| - from
  {
    if from < |lines| && !IsHeader(lines[from]) then FirstHeader(lines, from + 1) else from
  }

  function FirstKey(lines: seq<Line>, from: nat, end: nat): (i: nat)
    requires from <= end <= |lines|
    ensures from <= i <= end && (i < end ==> HasKey(lines, i))
    ensures forall k :: from <= k < i ==> !HasKey(lines, k)
    decreases end - from
  {
    if from < end && !HasKey(lines, from) then FirstKey(lines, from + 1, end) else from
  }

  // The section's lines, and the line of its key. Ambiguous stands for the two exceptions.
  datatype Place = NoSection | Ambiguous | At(start: nat, end: nat, key: Option<nat>)

  function FindKey(lines: seq<Line>): Place {
    var start := FirstSection(lines, 0);
    if start == |lines| then NoSection
    else if FirstSection(lines, start + 1) < |lines| then Ambiguous
    else
      var end := FirstHeader(lines, start + 1);
      var key := FirstKey(lines, start, end);
      if key == end then At(start, end, None)
      else if FirstKey(lines, key + 1, end) < end then Ambiguous
      else At(start, end, Some(key))
  }

  // The loop over the headers: an earlier section makes a later one an error.
  method Find(lines: seq<Line>) returns (place: Place)
    ensures place == FindKey(lines)
  {
    hide IsSection, IsHeader, KeyOf;
    var found: Option<nat> := None;
    var i := 0;
    while i < |lines|
      invariant 0 <= i <= |lines|
      invariant found == None ==> forall k :: 0 <= k < i ==> !IsSection(lines[k])
      invariant found.Some? ==> found.value < i && IsSection(lines[found.value])
      invariant found.Some? ==> forall k :: 0 <= k < i && k != found.value ==> !IsSection(lines[k])
    {
      if IsSection(lines[i]) {
        if found.Some? {
          return Ambiguous;
        }
        found := Some(i);
      }
      i := i + 1;
    }
    if found == None {
      return NoSection;
    }
    var end := FirstHeader(lines, found.value + 1);
    var key := FirstKey(lines, found.value, end);
    if key == end {
      return At(found.value, end, None);
    }
    if FirstKey(lines, key + 1, end) < end {
      return Ambiguous;
    }
    return At(found.value, end, Some(key));
  }

  // ---- Create and Restore, on lines

  // The text has a carriage return before some line feed.
  predicate HasReturns(lines: seq<Line>) {
    exists i :: 0 <= i < |lines| - 1 && lines[i] != "" && lines[i][|lines[i]| - 1] == '\r'
  }

  function Ending(lines: seq<Line>): string { if HasReturns(lines) then "\r" else "" }

  // A new key at the end of the section; a last line without line feed gets one first.
  function AddKey(lines: seq<Line>, end: nat): seq<string>
    requires lines != [] && end <= |lines|
  {
    var ending := Ending(lines);
    var line, last := "Anti Aliasing=0" + ending, lines[|lines| - 1];
    if end < |lines| then lines[..end] + [line] + lines[end..]
    else if last == "" then lines[..end - 1] + [line, ""]
    else lines[..end - 1] + [last + ending, line, ""]
  }

  function KeyAt(lines: seq<Line>, i: nat): Key
    requires i < |lines| && HasKey(lines, i)
  {
    KeyOf(lines[i], Terminated(lines, i)).value
  }

  function ReplaceNumber(lines: seq<Line>, i: nat, number: string): seq<string>
    requires i < |lines| && HasKey(lines, i) && NumberOf(KeyAt(lines, i).value).Some?
  {
    lines[..i] + [Whole(SetNumber(KeyAt(lines, i), number))] + lines[i + 1..]
  }

  // The key goes with its line feed, so the last line leaves an empty one behind.
  function RemoveKey(lines: seq<Line>, i: nat): seq<string>
    requires i < |lines|
  {
    if Terminated(lines, i) then lines[..i] + lines[i + 1..] else lines[..i] + [""]
  }

  predicate AreLines(lines: seq<string>) { lines != [] && forall line <- lines :: '\n' !in line }

  function Created(lines: seq<Line>): Option<seq<string>>
    requires lines != []
  {
    match FindKey(lines)
    case At(_, end, None) => Some(AddKey(lines, end))
    case At(_, _, Some(key)) =>
      if NumberOf(KeyAt(lines, key).value) == None then None else Some(ReplaceNumber(lines, key, "0"))
    case _ => None
  }

  // Only a number 0 is taken for the session's own value.
  function Restored(current: seq<Line>, original: seq<Line>): Option<seq<string>> {
    match FindKey(current)
    case Ambiguous => None
    case At(_, _, Some(key)) =>
      var number := NumberOf(KeyAt(current, key).value);
      if number == None || ToInt(number.value) != 0 then Some(current)
      else (
        match FindKey(original)
        case Ambiguous => None
        case At(_, _, Some(originalKey)) =>
          var originalNumber := NumberOf(KeyAt(original, originalKey).value);
          if originalNumber == None then None else Some(ReplaceNumber(current, key, originalNumber.value))
        case _ => Some(RemoveKey(current, key)))
    case _ => Some(current)
  }

  lemma CreatedLines(lines: seq<Line>)
    requires lines != [] && Created(lines).Some?
    ensures AreLines(Created(lines).value)
  {
    hide IsSection, IsHeader, KeyOf, NumberOf, SetNumber, IsNumber, HasReturns;
    match FindKey(lines)
    case At(_, end, None) => NewKey(Ending(lines));
    case At(_, _, Some(key)) =>
      NewContent();
      SetNumberIsKey(lines[key], Terminated(lines, key), "0");
    case _ =>
  }

  lemma RestoredLines(current: seq<Line>, original: seq<Line>)
    requires current != [] && Restored(current, original).Some?
    ensures AreLines(Restored(current, original).value)
  {
    hide IsSection, IsHeader, KeyOf, NumberOf, SetNumber, IsNumber, ToInt;
    match FindKey(current)
    case At(_, _, Some(key)) =>
      match FindKey(original) {
      case At(_, _, Some(originalKey)) =>
        if NumberOf(KeyAt(original, originalKey).value).Some? && NumberOf(KeyAt(current, key).value).Some? {
          NumberIsNumber(KeyAt(original, originalKey).value);
          SetNumberIsKey(current[key], Terminated(current, key), NumberOf(KeyAt(original, originalKey).value).value);
        }
      case _ =>
      }
    case _ =>
  }

  // ---- Create and Restore, on texts; None is an exception

  function Create(original: string): Option<string> {
    if Created(Lines(original)) == None then None
    else
      CreatedLines(Lines(original));
      Some(Join(Created(Lines(original)).value))
  }

  function Restore(current: string, original: string): Option<string> {
    if Restored(Lines(current), Lines(original)) == None then None
    else
      RestoredLines(Lines(current), Lines(original));
      Some(Join(Restored(Lines(current), Lines(original)).value))
  }
}
