// The three expressions of MonitorMsaaDefaults.cs, on lines: section headers, the Anti Aliasing key,
// and its value. Letter case is ASCII case.
module MsaaSyntax {
  import opened Wrappers
  import opened TextLines

  predicate IsBlank(c: char) { c == ' ' || c == '\t' }

  predicate IsDigit(c: char) { '0' <= c <= '9' }

  // The first position from `from` on that is not blank.
  function Blanks(s: string, from: nat): (i: nat)
    requires from <= |s|
    ensures from <= i <= |s| && (i < |s| ==> !IsBlank(s[i])) && forall k :: from <= k < i ==> IsBlank(s[k])
    decreases |s| - from
  {
    if from < |s| && IsBlank(s[from]) then Blanks(s, from + 1) else from
  }

  // Blanks, and perhaps a comment.
  predicate IsTail(s: string) {
    var i := Blanks(s, 0);
    i == |s| || s[i] == ';' || s[i] == '#'
  }

  function IndexOf(s: string, c: char, from: nat): (i: nat)
    requires from <= |s|
    ensures from <= i <= |s| && (i < |s| ==> s[i] == c) && forall k :: from <= k < i ==> s[k] != c
    decreases |s| - from
  {
    if from < |s| && s[from] != c then IndexOf(s, c, from + 1) else from
  }

  function WithoutReturn(s: string): string {
    if s != "" && s[|s| - 1] == '\r' then s[..|s| - 1] else s
  }

  // ---- section headers

  function HeaderName(line: Line): Option<string> {
    var open := Blanks(line, 0);
    if open == |line| || line[open] != '[' then None
    else
      var close := IndexOf(line, ']', open + 1);
      if close == |line| || close == open + 1 || '\r' in line[open + 1..close] then None
      else
        var tail := WithoutReturn(line[close + 1..]);
        if '\r' in tail || !IsTail(tail) then None else Some(line[open + 1..close])
  }

  predicate IsHeader(line: Line) { HeaderName(line).Some? }

  function Lower(c: char): char { if 'A' <= c <= 'Z' then c - 'A' + 'a' else c }

  predicate SameName(a: string, b: string) {
    |a| == |b| && forall i :: 0 <= i < |a| ==> Lower(a[i]) == Lower(b[i])
  }

  predicate IsWhite(c: char) {
    var n := c as int;
    || 9 <= n <= 13 || n == 32 || n == 0x85 || n == 0xA0 || n == 0x1680 || 0x2000 <= n <= 0x200A
    || n == 0x2028 || n == 0x2029 || n == 0x202F || n == 0x205F || n == 0x3000
  }

  function Trimmed(s: string): string
    decreases |s|
  {
    if s == "" then s
    else if IsWhite(s[0]) then Trimmed(s[1..])
    else if IsWhite(s[|s| - 1]) then Trimmed(s[..|s| - 1])
    else s
  }

  predicate IsSection(line: Line) {
    IsHeader(line) && SameName(Trimmed(HeaderName(line).value), "Graphics Options")
  }

  // ---- the key

  const KeyName: string := "Anti Aliasing"

  // Where the value begins: after blanks, the name, blanks, "=" and blanks.
  function PrefixLength(content: string): Option<nat> {
    var name := Blanks(content, 0);
    if |content| < name + |KeyName| || !SameName(content[name..name + |KeyName|], KeyName) then None
    else
      var equals := Blanks(content, name + |KeyName|);
      if equals == |content| || content[equals] != '=' then None
      else Some(Blanks(content, equals + 1))
  }

  datatype Key = Key(prefix: string, value: string, ending: string)

  function Whole(key: Key): string { key.prefix + key.value + key.ending }

  // A carriage return belongs to the line's ending only when a line feed follows.
  function Content(line: Line, terminated: bool): string { if terminated then WithoutReturn(line) else line }

  function KeyOf(line: Line, terminated: bool): Option<Key> {
    var content := Content(line, terminated);
    if '\r' in content || PrefixLength(content) == None then None
    else
      var p := PrefixLength(content).value;
      if p > |content| then None else Some(Key(content[..p], content[p..], line[|content|..]))
  }

  // ---- the value

  function Digits(s: string): (n: nat)
    ensures n <= |s| && (n < |s| ==> !IsDigit(s[n])) && forall k :: 0 <= k < n ==> IsDigit(s[k])
  {
    if s != "" && IsDigit(s[0]) then 1 + Digits(s[1..]) else 0
  }

  function ToInt(digits: string): int {
    if digits == "" then 0 else 10 * ToInt(digits[..|digits| - 1]) + (digits[|digits| - 1] as int - '0' as int)
  }

  function Pow10(n: nat): nat { if n == 0 then 1 else 10 * Pow10(n - 1) }

  lemma OneMoreDigit(front: string, last: char)
    ensures ToInt(front + [last]) == 10 * ToInt(front) + (last as int - '0' as int)
  {
    assert (front + [last])[..|front|] == front;
  }

  lemma DigitValue(c: char)
    requires IsDigit(c)
    ensures ToInt([c]) == c as int - '0' as int
  {
    OneMoreDigit("", c);
    assert "" + [c] == [c];
  }

  lemma {:induction false} PlaceValue(a: string, b: string)
    ensures ToInt(a + b) == ToInt(a) * Pow10(|b|) + ToInt(b)
  {
    if b == "" {
      assert a + b == a;
    } else {
      var front, last := b[..|b| - 1], b[|b| - 1];
      PlaceValue(a, front);
      OneMoreDigit(a + front, last);
      OneMoreDigit(front, last);
      assert a + b == a + front + [last] && b == front + [last];
      Distribute(ToInt(a), Pow10(|front|));
    }
  }

  lemma Distribute(x: int, y: int)
    ensures x * (10 * y) == 10 * (x * y)
  {
  }

  // Only zeros make 0.
  lemma {:induction false} ZeroIff(digits: string)
    requires forall c <- digits :: IsDigit(c)
    ensures ToInt(digits) >= 0 && (ToInt(digits) == 0 <==> forall c <- digits :: c == '0')
  {
    if digits != "" {
      var front, last := digits[..|digits| - 1], digits[|digits| - 1];
      assert digits == front + [last];
      assert last in digits && forall c <- front :: c in digits;
      assert forall c <- digits :: c in front || c == last;
      ZeroIff(front);
      OneMoreDigit(front, last);
    }
  }

  const MaxInt32: int := 0x7FFF_FFFF

  predicate IsNumber(s: string) {
    s != "" && (forall c <- s :: IsDigit(c)) && ToInt(s) <= MaxInt32
  }

  // The number a value starts with, when the rest is blanks or a comment.
  function NumberOf(value: string): Option<string> {
    var n := Digits(value);
    if n == 0 || !IsTail(value[n..]) || ToInt(value[..n]) > MaxInt32 then None else Some(value[..n])
  }

  function SetNumber(key: Key, number: string): Key
    requires NumberOf(key.value).Some?
  {
    key.(value := number + key.value[|NumberOf(key.value).value|..])
  }

  // ---- what the expressions have in common

  lemma KeyIsWhole(line: Line, terminated: bool)
    requires KeyOf(line, terminated).Some?
    ensures Whole(KeyOf(line, terminated).value) == line
  {
  }

  lemma BlanksAgree(s: string, t: string, from: nat, p: nat)
    requires from <= p <= |s| && p <= |t| && s[..p] == t[..p]
    requires Blanks(s, from) <= p && (p < |t| ==> !IsBlank(t[p]))
    ensures Blanks(t, from) == Blanks(s, from)
  {
  }

  // The prefix, by the positions of the name, the equals sign and the value.
  predicate PrefixAt(s: string, name: nat, equals: nat, p: nat) {
    && name + |KeyName| <= equals < p <= |s| && s[equals] == '='
    && Blanks(s, 0) == name && Blanks(s, name + |KeyName|) == equals && Blanks(s, equals + 1) == p
    && SameName(s[name..name + |KeyName|], KeyName)
  }

  lemma PrefixParts(s: string, p: nat)
    requires PrefixLength(s) == Some(p)
    ensures exists name, equals :: PrefixAt(s, name, equals, p)
  {
    var name := Blanks(s, 0);
    var equals := Blanks(s, name + |KeyName|);
    assert PrefixAt(s, name, equals, p);
  }

  lemma PrefixFrom(s: string, name: nat, equals: nat, p: nat)
    requires PrefixAt(s, name, equals, p)
    ensures PrefixLength(s) == Some(p)
  {
  }

  lemma SamePart(s: string, t: string, p: nat, from: nat, to: nat)
    requires from <= to <= p <= |s| && p <= |t| && s[..p] == t[..p]
    ensures s[from..to] == t[from..to]
  {
    forall i | 0 <= i < to - from ensures s[from..to][i] == t[from..to][i] {
      assert s[from + i] == s[..p][from + i] && t[from + i] == t[..p][from + i];
    }
  }

  // The prefix does not depend on the value, as long as that does not begin with a blank.
  lemma PrefixAgree(s: string, t: string, p: nat)
    requires PrefixLength(s) == Some(p) && p <= |s| && p <= |t| && s[..p] == t[..p]
    requires p < |t| ==> !IsBlank(t[p])
    ensures PrefixLength(t) == Some(p)
  {
    hide PrefixLength, SameName, Blanks;
    PrefixParts(s, p);
    var name: nat, equals: nat :| PrefixAt(s, name, equals, p);
    BlanksAgree(s, t, 0, p);
    BlanksAgree(s, t, name + |KeyName|, p);
    BlanksAgree(s, t, equals + 1, p);
    SamePart(s, t, p, name, name + |KeyName|);
    assert s[equals] == s[..p][equals] == t[equals];
    PrefixFrom(t, name, equals, p);
  }

  lemma NumberOfJoined(number: string, rest: string)
    requires IsNumber(number) && IsTail(rest)
    ensures NumberOf(number + rest) == Some(number)
  {
    var value := number + rest;
    var n := Digits(value);
    assert value[|number|..] == rest && value[..|number|] == number;
    assert forall k :: 0 <= k < |number| ==> value[k] == number[k] && number[k] in number;
    assert rest != "" ==> value[|number|] == rest[0] && !IsDigit(rest[0]);
    assert n == |number|;
  }

  lemma NumberIsNumber(value: string)
    requires NumberOf(value).Some?
    ensures IsNumber(NumberOf(value).value)
    ensures IsTail(value[|NumberOf(value).value|..])
    ensures value == NumberOf(value).value + value[|NumberOf(value).value|..]
  {
  }

  // A line is a key exactly when it is made of the parts of one.
  predicate IsKey(key: Key, terminated: bool) {
    var content := key.prefix + key.value;
    && '\r' !in content && '\n' !in content && content != "" && PrefixLength(content) == Some(|key.prefix|)
    && (key.ending == "" || (terminated && key.ending == "\r"))
  }

  lemma PartsOf(line: Line, terminated: bool)
    requires KeyOf(line, terminated).Some?
    ensures var key := KeyOf(line, terminated).value; Whole(key) == line && IsKey(key, terminated)
  {
    hide PrefixLength;
    var key, content := KeyOf(line, terminated).value, Content(line, terminated);
    KeyIsWhole(line, terminated);
    assert key.prefix + key.value == content;
    assert content == line[..|content|];
    PrefixNotEmpty(content);
  }

  lemma PrefixNotEmpty(content: string)
    ensures PrefixLength(content).Some? ==> content != "" && PrefixLength(content).value <= |content|
  {
  }

  lemma KeyOfParts(key: Key, terminated: bool)
    requires IsKey(key, terminated)
    ensures '\n' !in Whole(key) && KeyOf(Whole(key), terminated) == Some(key)
  {
    hide PrefixLength;
    var content := key.prefix + key.value;
    EndingStays(content, key.ending, terminated);
    assert content[..|key.prefix|] == key.prefix && content[|key.prefix|..] == key.value;
  }

  // A key with another number is a key with that number, on the same line.
  lemma SetNumberIsKey(line: Line, terminated: bool, number: string)
    requires KeyOf(line, terminated).Some? && NumberOf(KeyOf(line, terminated).value.value).Some? && IsNumber(number)
    ensures var key := SetNumber(KeyOf(line, terminated).value, number);
      && '\n' !in Whole(key)
      && KeyOf(Whole(key), terminated) == Some(key)
      && NumberOf(key.value) == Some(number)
  {
    PartsOf(line, terminated);
    SetNumberParts(KeyOf(line, terminated).value, terminated, number);
    KeyOfParts(SetNumber(KeyOf(line, terminated).value, number), terminated);
  }

  lemma SetNumberParts(key: Key, terminated: bool, number: string)
    requires IsKey(key, terminated) && NumberOf(key.value).Some? && IsNumber(number)
    ensures IsKey(SetNumber(key, number), terminated) && NumberOf(SetNumber(key, number).value) == Some(number)
  {
    hide PrefixLength, NumberOf;
    NumberIsNumber(key.value);
    var rest := key.value[|NumberOf(key.value).value|..];
    NumberOfJoined(number, rest);
    var content, content' := key.prefix + key.value, key.prefix + (number + rest);
    assert forall c <- number :: c != '\r' && c != '\n' && !IsBlank(c);
    assert forall c <- rest :: c in key.value;
    assert forall c <- content' :: c in key.prefix || c in number || c in rest;
    assert forall c <- key.prefix :: c in content;
    assert forall c <- key.value :: c in content;
    assert content[..|key.prefix|] == key.prefix == content'[..|key.prefix|];
    assert content'[|key.prefix|] == number[0] && number[0] in number;
    PrefixAgree(content, content', |key.prefix|);
  }

  lemma EndingStays(content: string, ending: string, terminated: bool)
    requires '\r' !in content && content != "" && '\n' !in content && (ending == "" || (terminated && ending == "\r"))
    ensures '\n' !in content + ending
    ensures Content(content + ending, terminated) == content && (content + ending)[|content|..] == ending
  {
  }

  lemma KeyIsNotHeader(line: Line, terminated: bool)
    requires KeyOf(line, terminated).Some?
    ensures !IsHeader(line)
  {
    var content := Content(line, terminated);
    var name := Blanks(content, 0);
    assert content == line[..|content|];
    assert content[name..name + |KeyName|][0] == content[name] == line[name];
    assert Lower(line[name]) == Lower(KeyName[0]);
    assert Blanks(line, 0) == name;
  }

  // The line Create adds.
  lemma NewKey(ending: string)
    requires ending == "" || ending == "\r"
    ensures var line := "Anti Aliasing=0" + ending;
      && '\n' !in line
      && KeyOf(line, true) == Some(Key("Anti Aliasing=", "0", ending)) && NumberOf("0") == Some("0") && ToInt("0") == 0
  {
    var key := Key("Anti Aliasing=", "0", ending);
    NewContent();
    assert key.prefix + key.value == "Anti Aliasing=0";
    KeyOfParts(key, true);
    assert Whole(key) == "Anti Aliasing=0" + ending;
    assert "0" + "" == "0";
    NumberOfJoined("0", "");
  }

  lemma NewContent()
    ensures PrefixLength("Anti Aliasing=0") == Some(14) && IsNumber("0") && ToInt("0") == 0
  {
    var content := "Anti Aliasing=0";
    assert Blanks(content, 0) == 0;
    assert content[0..13] == KeyName;
    assert Blanks(content, 13) == 13 && content[13] == '=';
    assert Blanks(content, 14) == 14;
    assert "0"[..0] == "";
  }
}
