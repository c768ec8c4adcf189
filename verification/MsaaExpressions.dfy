// The three expressions as the concatenations that they match, the number in decimal places, and the
// search and Create in terms of characters.
module MsaaExpressions {
  import opened Wrappers
  import opened TextLines
  import opened MsaaSyntax
  import opened MsaaDefaults
  import opened MsaaProofs

  predicate AllBlank(s: string) { forall c <- s :: c == ' ' || c == '\t' }

  predicate NoBreak(s: string) { '\r' !in s && '\n' !in s }

  predicate IsComment(s: string) { s == "" || ((s[0] == ';' || s[0] == '#') && NoBreak(s)) }

  // ---- letter case and white space

  predicate IsLetter(c: char) { 'A' <= c <= 'Z' || 'a' <= c <= 'z' }

  // One letter, in either case, or the same character.
  predicate SameLetter(a: char, b: char) {
    a == b || (IsLetter(a) && IsLetter(b) && (a as int - b as int == 32 || b as int - a as int == 32))
  }

  lemma SameNameIff(a: string, b: string)
    ensures SameName(a, b) <==> |a| == |b| && forall i :: 0 <= i < |a| ==> SameLetter(a[i], b[i])
  {
    forall i | 0 <= i < |a| && i < |b| ensures SameLetter(a[i], b[i]) <==> Lower(a[i]) == Lower(b[i]) {
      SameLower(a[i], b[i]);
    }
  }

  lemma SameLower(a: char, b: char)
    ensures SameLetter(a, b) <==> Lower(a) == Lower(b)
  {
  }

  // The section's header: its name is this one, in any letter case, between white space.
  lemma SectionIff(line: Line)
    ensures IsSection(line) <==>
      && HeaderName(line).Some?
      && var name := Trimmed(HeaderName(line).value);
         |name| == |"Graphics Options"| && forall i :: 0 <= i < |name| ==> SameLetter(name[i], "Graphics Options"[i])
  {
    hide HeaderName, Trimmed, SameName;
    if HeaderName(line).Some? {
      SameNameIff(Trimmed(HeaderName(line).value), "Graphics Options");
    }
  }

  predicate AllWhite(s: string) { forall c <- s :: IsWhite(c) }

  // The white space at both ends, and the rest.
  predicate TrimParts(s: string, before: string, t: string, after: string) {
    && s == before + t + after && AllWhite(before) && AllWhite(after)
    && (t == "" ==> after == "") && (t != "" ==> !IsWhite(t[0]) && !IsWhite(t[|t| - 1]))
  }

  lemma {:induction false} TrimIs(s: string, before: string, t: string, after: string)
    requires TrimParts(s, before, t, after)
    ensures Trimmed(s) == t
    decreases |s|
  {
    if before != "" {
      assert s[0] == before[0] && before[0] in before;
      assert s[1..] == before[1..] + t + after;
      assert forall c <- before[1..] :: c in before;
      TrimIs(s[1..], before[1..], t, after);
    } else if after != "" {
      var n := |after| - 1;
      assert s[0] == t[0] && s[|s| - 1] == after[n] && after[n] in after;
      assert s[..|s| - 1] == before + t + after[..n];
      assert forall c <- after[..n] :: c in after;
      TrimIs(s[..|s| - 1], before, t, after[..n]);
    } else {
      assert s == t;
    }
  }

  // ---- section headers

  predicate HeaderParts(line: string, lead: string, name: string, gap: string, comment: string, ending: string) {
    && line == lead + "[" + name + "]" + gap + comment + ending
    && AllBlank(lead) && name != "" && ']' !in name && NoBreak(name) && AllBlank(gap) && IsComment(comment)
    && (ending == "" || ending == "\r")
  }

  lemma BlanksThen(lead: string, rest: string)
    requires AllBlank(lead) && (rest != "" ==> !IsBlank(rest[0]))
    ensures Blanks(lead + rest, 0) == |lead|
  {
    var i := Blanks(lead + rest, 0);
    assert forall k :: 0 <= k < |lead| ==> (lead + rest)[k] == lead[k] && lead[k] in lead;
    assert i >= |lead|;
    assert rest != "" ==> (lead + rest)[|lead|] == rest[0];
  }

  lemma TailHasParts(tail: string)
    requires IsTail(tail) && NoBreak(tail)
    ensures var i := Blanks(tail, 0); tail == tail[..i] + tail[i..] && AllBlank(tail[..i]) && IsComment(tail[i..])
  {
  }

  lemma PartsAreTail(gap: string, comment: string)
    requires AllBlank(gap) && IsComment(comment)
    ensures IsTail(gap + comment) && NoBreak(gap + comment)
  {
    BlanksThen(gap, comment);
    assert comment != "" ==> (gap + comment)[|gap|] == comment[0];
    assert forall c <- gap + comment :: c in gap || c in comment;
  }

  lemma HeaderSplit(line: string, open: nat, close: nat)
    requires open < close < |line| && line[open] == '[' && line[close] == ']'
    ensures line == line[..open] + "[" + line[open + 1..close] + "]" + line[close + 1..]
  {
    assert line[open..open + 1] == "[" && line[close..close + 1] == "]";
    assert line == line[..open] + line[open..open + 1] + line[open + 1..close] + line[close..close + 1] + line[close + 1..];
  }

  lemma BlankPart(s: string, from: nat, to: nat)
    requires from <= to <= |s| && Blanks(s, from) == to
    ensures AllBlank(s[from..to]) && (to < |s| ==> s[to] != ' ' && s[to] != '\t')
  {
  }

  lemma ReturnPart(rest: string)
    ensures var tail := WithoutReturn(rest);
      rest == tail + rest[|tail|..] && (rest[|tail|..] == "" || rest[|tail|..] == "\r")
  {
  }

  lemma PartHasNoBreak(line: Line, from: nat, to: nat)
    requires from <= to <= |line| && '\r' !in line[from..to]
    ensures NoBreak(line[from..to])
  {
    assert forall c <- line[from..to] :: c in line;
  }

  // Where the header's parts lie.
  predicate HeaderAt(line: Line, open: nat, close: nat) {
    && open + 1 < close < |line| && Blanks(line, 0) == open && IndexOf(line, ']', open + 1) == close
    && line[open] == '[' && '\r' !in line[open + 1..close]
    && '\r' !in WithoutReturn(line[close + 1..]) && IsTail(WithoutReturn(line[close + 1..]))
  }

  lemma HeaderPlaces(line: Line) returns (open: nat, close: nat)
    requires IsHeader(line)
    ensures HeaderAt(line, open, close) && HeaderName(line).value == line[open + 1..close]
  {
    open := Blanks(line, 0);
    close := IndexOf(line, ']', open + 1);
  }

  lemma HeaderHasParts(line: Line)
    requires IsHeader(line)
    ensures exists lead, gap, comment, ending ::
      HeaderParts(line, lead, HeaderName(line).value, gap, comment, ending)
  {
    hide HeaderParts, HeaderAt, HeaderName;
    var open, close := HeaderPlaces(line);
    HeaderPartsAt(line, open, close);
    var rest := line[close + 1..];
    var tail := WithoutReturn(rest);
    var i := Blanks(tail, 0);
    assert HeaderParts(line, line[..open], HeaderName(line).value, tail[..i], tail[i..], rest[|tail|..]);
  }

  lemma HeaderPartsAt(line: Line, open: nat, close: nat)
    requires HeaderAt(line, open, close)
    ensures var rest := line[close + 1..];
      var tail := WithoutReturn(rest);
      var i := Blanks(tail, 0);
      HeaderParts(line, line[..open], line[open + 1..close], tail[..i], tail[i..], rest[|tail|..])
  {
    hide Blanks, IndexOf, IsTail, AllBlank, IsComment, WithoutReturn;
    var rest := line[close + 1..];
    var tail := WithoutReturn(rest);
    var i := Blanks(tail, 0);
    ReturnPart(rest);
    WithoutReturnPart(line, close + 1);
    TailHasParts(tail);
    HeaderSplit(line, open, close);
    BlankPart(line, 0, open);
    PartHasNoBreak(line, open + 1, close);
    NoBracketInside(line, open + 1, close);
    assert line[0..open] == line[..open];
    Together(line[..open] + "[" + line[open + 1..close] + "]", tail[..i], tail[i..], rest[|tail|..]);
  }

  lemma Together(front: string, gap: string, comment: string, ending: string)
    ensures front + ((gap + comment) + ending) == front + gap + comment + ending
  {
  }

  lemma NoBracketInside(line: string, from: nat, close: nat)
    requires from <= close <= |line| && IndexOf(line, ']', from) == close
    ensures ']' !in line[from..close]
  {
  }

  lemma WithoutReturnPart(line: Line, from: nat)
    requires from <= |line| && '\r' !in WithoutReturn(line[from..])
    ensures NoBreak(WithoutReturn(line[from..]))
  {
    assert forall c <- WithoutReturn(line[from..]) :: c in line;
  }

  lemma PartsAreHeader(line: Line, lead: string, name: string, gap: string, comment: string, ending: string)
    requires HeaderParts(line, lead, name, gap, comment, ending)
    ensures HeaderName(line) == Some(name)
  {
    hide Blanks, IndexOf, IsTail, AllBlank, IsComment, HeaderName, WithoutReturn;
    Together(lead + "[" + name + "]", gap, comment, ending);
    var rest := gap + comment + ending;
    HeaderSlices(line, lead, name, rest);
    BlanksThen(lead, "[" + name + "]" + rest);
    CloseIs(line, lead, name, rest);
    PartsAreTail(gap, comment);
    ReturnOff(gap + comment, ending);
    HeaderFrom(line, |lead|, |lead| + 1 + |name|);
  }

  lemma HeaderSlices(line: string, lead: string, name: string, rest: string)
    requires line == lead + "[" + name + "]" + rest
    ensures line == lead + ("[" + name + "]" + rest)
    ensures var close := |lead| + 1 + |name|; line[|lead| + 1..close] == name && line[close + 1..] == rest
    ensures line[|lead|] == '['
  {
  }

  lemma HeaderFrom(line: Line, open: nat, close: nat)
    requires HeaderAt(line, open, close)
    ensures HeaderName(line) == Some(line[open + 1..close])
  {
  }

  lemma ReturnOff(s: string, ending: string)
    requires NoBreak(s) && (ending == "" || ending == "\r")
    ensures WithoutReturn(s + ending) == s
  {
    assert s + "" == s;
    assert s != "" ==> s[|s| - 1] in s;
  }

  lemma CloseIs(line: string, lead: string, name: string, rest: string)
    requires line == lead + ("[" + name + "]" + rest) && ']' !in name
    ensures IndexOf(line, ']', |lead| + 1) == |lead| + 1 + |name|
  {
    var from, i := |lead| + 1, IndexOf(line, ']', |lead| + 1);
    assert forall k :: 0 <= k < |name| ==> line[from + k] == name[k] && name[k] in name;
    assert line[from + |name|] == ']';
  }

  // A line is a header with this name exactly when it is made of these parts.
  lemma HeaderIff(line: Line, name: string)
    ensures HeaderName(line) == Some(name) <==>
      exists lead, gap, comment, ending :: HeaderParts(line, lead, name, gap, comment, ending)
  {
    if HeaderName(line) == Some(name) {
      HeaderHasParts(line);
    }
    forall lead, gap, comment, ending | HeaderParts(line, lead, name, gap, comment, ending)
      ensures HeaderName(line) == Some(name)
    {
      PartsAreHeader(line, lead, name, gap, comment, ending);
    }
  }

  // ---- the key

  predicate KeyParts(
      line: string, terminated: bool, lead: string, word: string, gap: string, more: string, value: string, ending: string)
  {
    && line == lead + word + gap + "=" + more + value + ending
    && AllBlank(lead) && AllBlank(gap) && AllBlank(more) && SameName(word, "Anti Aliasing") && NoBreak(value)
    && (value != "" ==> value[0] != ' ' && value[0] != '\t')
    && (ending == "" || (terminated && ending == "\r"))
  }

  lemma BlanksFrom(s: string, from: nat, gap: string, rest: string)
    requires from <= |s| && s[from..] == gap + rest && AllBlank(gap) && (rest != "" ==> !IsBlank(rest[0]))
    ensures Blanks(s, from) == from + |gap|
  {
    var i := Blanks(s, from);
    assert |s| == from + |gap| + |rest|;
    assert forall k :: 0 <= k < |gap| ==> s[from + k] == s[from..][k] == gap[k] && gap[k] in gap;
    assert rest != "" ==> s[from + |gap|] == s[from..][|gap|] == rest[0];
  }

  lemma PartsArePrefix(lead: string, word: string, gap: string, more: string, value: string)
    requires AllBlank(lead) && AllBlank(gap) && AllBlank(more) && SameName(word, KeyName)
    requires value != "" ==> !IsBlank(value[0])
    ensures PrefixLength(lead + word + gap + "=" + more + value) == Some(|lead| + |word| + |gap| + 1 + |more|)
  {
    hide Blanks, PrefixLength, AllBlank, SameName;
    var s := lead + word + gap + "=" + more + value;
    var name, equals := |lead|, |lead| + |word| + |gap|;
    WordIsLong(word);
    RestOf(lead, word, gap, more, value);
    BlanksFrom(s, 0, lead, word + gap + "=" + more + value);
    BlanksFrom(s, name + |word|, gap, "=" + more + value);
    BlanksFrom(s, equals + 1, more, value);
    PrefixFrom(s, name, equals, equals + 1 + |more|);
  }

  lemma WordIsLong(word: string)
    requires SameName(word, KeyName)
    ensures |word| == |KeyName| && !IsBlank(word[0])
  {
    assert Lower(word[0]) == Lower(KeyName[0]);
  }

  lemma RestOf(lead: string, word: string, gap: string, more: string, value: string)
    ensures var s, name, equals := lead + word + gap + "=" + more + value, |lead|, |lead| + |word| + |gap|;
      && s[0..] == lead + (word + gap + "=" + more + value) && s[name..name + |word|] == word
      && s[name + |word|..] == gap + ("=" + more + value) && s[equals] == '=' && s[equals + 1..] == more + value
  {
    var s, name := lead + word + gap + "=" + more + value, |lead|;
    assert s == lead + word + (gap + "=" + more + value);
    assert s == lead + word + gap + ("=" + more + value);
    assert s == lead + word + gap + "=" + (more + value);
  }

  lemma PartsAreKey(
      line: Line, terminated: bool, lead: string, word: string, gap: string, more: string, value: string, ending: string)
    requires KeyParts(line, terminated, lead, word, gap, more, value, ending)
    ensures KeyOf(line, terminated) == Some(Key(lead + word + gap + "=" + more, value, ending))
  {
    hide PrefixLength, Blanks;
    var key := Key(lead + word + gap + "=" + more, value, ending);
    PartsArePrefix(lead, word, gap, more, value);
    WordHasNoBreak(word);
    var content := key.prefix + key.value;
    assert forall c <- content :: c in lead || c in word || c in gap || c == '=' || c in more || c in value;
    assert content[|lead| + |word| + |gap|] == '=';
    assert IsKey(key, terminated);
    KeyOfParts(key, terminated);
    assert Whole(key) == line;
  }

  lemma WordHasNoBreak(word: string)
    requires SameName(word, KeyName)
    ensures NoBreak(word)
  {
    forall i | 0 <= i < |word| ensures word[i] != '\r' && word[i] != '\n' {
      assert Lower(word[i]) == Lower(KeyName[i]);
    }
  }

  lemma KeyHasParts(line: Line, terminated: bool)
    requires KeyOf(line, terminated).Some?
    ensures var key := KeyOf(line, terminated).value;
      exists lead, word, gap, more ::
        && KeyParts(line, terminated, lead, word, gap, more, key.value, key.ending)
        && key.prefix == lead + word + gap + "=" + more
  {
    hide PrefixLength, SameName, KeyOf, Blanks, AllBlank;
    PartsOf(line, terminated);
    var key := KeyOf(line, terminated).value;
    var s, p := key.prefix + key.value, |key.prefix|;
    PrefixParts(s, p);
    var name: nat, equals: nat :| PrefixAt(s, name, equals, p);
    var middle := name + |KeyName|;
    var lead, word, gap, more := s[0..name], s[name..middle], s[middle..equals], s[equals + 1..p];
    BlankPart(s, 0, name);
    BlankPart(s, middle, equals);
    BlankPart(s, equals + 1, p);
    PrefixSplit(s, name, middle, equals, p);
    assert s[..p] == key.prefix && s[p..] == key.value;
    assert p < |s| ==> key.value[0] == s[p];
    assert forall c <- key.value :: c in s;
    assert KeyParts(line, terminated, lead, word, gap, more, key.value, key.ending);
  }

  lemma PrefixSplit(s: string, name: nat, middle: nat, equals: nat, p: nat)
    requires name <= middle <= equals < p <= |s| && s[equals] == '='
    ensures s[..p] == s[0..name] + s[name..middle] + s[middle..equals] + "=" + s[equals + 1..p]
  {
    assert s[equals..equals + 1] == "=";
    assert s[..p] == s[0..name] + s[name..middle] + s[middle..equals] + s[equals..equals + 1] + s[equals + 1..p];
  }

  // A line is the key with this prefix, value and ending exactly when it is made of these parts.
  lemma KeyIff(line: Line, terminated: bool, key: Key)
    ensures KeyOf(line, terminated) == Some(key) <==>
      exists lead, word, gap, more ::
        && KeyParts(line, terminated, lead, word, gap, more, key.value, key.ending)
        && key.prefix == lead + word + gap + "=" + more
  {
    hide KeyOf, KeyParts;
    if KeyOf(line, terminated) == Some(key) {
      KeyHasParts(line, terminated);
    }
    forall lead, word, gap, more |
        KeyParts(line, terminated, lead, word, gap, more, key.value, key.ending)
        && key.prefix == lead + word + gap + "=" + more
      ensures KeyOf(line, terminated) == Some(key)
    {
      PartsAreKey(line, terminated, lead, word, gap, more, key.value, key.ending);
    }
  }

  // ---- the value

  // A number in digits, no greater than the largest 32-bit one, then blanks and perhaps a comment.
  predicate NumberParts(value: string, number: string, gap: string, comment: string) {
    && value == number + gap + comment && AllBlank(gap) && IsComment(comment)
    && number != "" && (forall c <- number :: '0' <= c <= '9') && ToInt(number) <= 2147483647
  }

  lemma NumberHasParts(value: string)
    requires NoBreak(value) && NumberOf(value).Some?
    ensures exists gap, comment :: NumberParts(value, NumberOf(value).value, gap, comment)
  {
    hide NumberOf, IsTail, AllBlank, IsComment, Blanks, ToInt;
    var number := NumberOf(value).value;
    NumberIsNumber(value);
    var tail := value[|number|..];
    assert forall c <- tail :: c in value;
    TailHasParts(tail);
    var i := Blanks(tail, 0);
    assert value == number + tail[..i] + tail[i..];
    assert NumberParts(value, number, tail[..i], tail[i..]);
  }

  lemma PartsAreNumber(value: string, number: string, gap: string, comment: string)
    requires NumberParts(value, number, gap, comment)
    ensures NumberOf(value) == Some(number)
  {
    hide NumberOf, IsTail, AllBlank, IsComment, ToInt;
    PartsAreTail(gap, comment);
    assert value == number + (gap + comment);
    NumberOfJoined(number, gap + comment);
  }

  // A value has this number exactly when it is made of these parts.
  lemma NumberIff(value: string, number: string)
    requires NoBreak(value)
    ensures NumberOf(value) == Some(number) <==> exists gap, comment :: NumberParts(value, number, gap, comment)
  {
    hide NumberOf, NumberParts;
    if NumberOf(value) == Some(number) {
      NumberHasParts(value);
    }
    forall gap, comment | NumberParts(value, number, gap, comment) ensures NumberOf(value) == Some(number) {
      PartsAreNumber(value, number, gap, comment);
    }
  }
}
