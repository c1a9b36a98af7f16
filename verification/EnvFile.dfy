/**
  An environment file: its lines, and the settings they assign.
*/
module EnvFile {
  import opened Text

  // --------------------------------------------------------------- text lines

  /** The characters at which `str.splitlines` breaks. */
  predicate IsBreak(c: char) {
    || '\n' <= c <= '\r'
    || '\U{1c}' <= c <= '\U{1e}'
    || c == '\U{85}' || c == '\U{2028}' || c == '\U{2029}'
  }

  predicate OneLine(s: string) {
    forall c :: c in s ==> !IsBreak(c)
  }

  function BreakAt(s: string): (i: nat)
    ensures i <= |s| && (forall k :: 0 <= k < i ==> !IsBreak(s[k])) && (i < |s| ==> IsBreak(s[i]))
  {
    if s == "" || IsBreak(s[0]) then 0 else 1 + BreakAt(s[1..])
  }

  /** `str.splitlines`: a carriage return and a newline are one break; no empty line after the last break. */
  function SplitLines(s: string): (lines: seq<string>)
    ensures forall l :: l in lines ==> OneLine(l)
    decreases |s|
  {
    if s == "" then []
    else
      var i := BreakAt(s);
      if i == |s| then [s]
      else
        var next := if s[i] == '\r' && i + 1 < |s| && s[i + 1] == '\n' then i + 2 else i + 1;
        [s[..i]] + SplitLines(s[next..])
  }

  function Terminated(lines: seq<string>): string {
    if lines == [] then "" else lines[0] + "\n" + Terminated(lines[1..])
  }

  /** `"\n".join(lines) + "\n"` */
  function FileText(lines: seq<string>): string {
    if lines == [] then "\n" else Terminated(lines)
  }

  lemma BreakAfter(first: string, rest: string)
    requires OneLine(first)
    ensures BreakAt(first + "\n" + rest) == |first|
  {
    var text := first + "\n" + rest;
    assert text[|first|] == '\n';
    forall k | 0 <= k < |first| ensures !IsBreak(text[k]) {
      assert text[k] == first[k] && first[k] in first;
    }
  }

  lemma SplitFirst(first: string, rest: string)
    requires OneLine(first)
    ensures SplitLines(first + "\n" + rest) == [first] + SplitLines(rest)
  {
    var text, i := first + "\n" + rest, |first|;
    BreakAfter(first, rest);
    assert text[..i] == first && text[i] == '\n' && text[i + 1..] == rest;
  }

  lemma {:induction false} SplitUndoesTerminated(lines: seq<string>)
    requires forall l :: l in lines ==> OneLine(l)
    ensures SplitLines(Terminated(lines)) == lines
  {
    if lines != [] {
      var first, tail := lines[0], lines[1..];
      assert first in lines && forall l :: l in tail ==> l in lines;
      SplitUndoesTerminated(tail);
      SplitFirst(first, Terminated(tail));
      assert lines == [first] + tail;
    }
  }

  /** Any break ends a line. */
  lemma BreakEndsLine(line: string, c: char, rest: string)
    requires OneLine(line) && IsBreak(c) && (c == '\r' && rest != "" ==> rest[0] != '\n')
    ensures SplitLines(line + ([c] + rest)) == [line] + SplitLines(rest)
  {
    EndsAt(line, [c] + rest);
    var text, i := line + ([c] + rest), |line|;
    assert text[i + 1..] == rest;
    assert i + 1 < |text| ==> text[i + 1] == rest[0];
  }

  /** A carriage return and a newline end one line. */
  lemma PairEndsLine(line: string, rest: string)
    requires OneLine(line)
    ensures SplitLines(line + (['\r', '\n'] + rest)) == [line] + SplitLines(rest)
  {
    EndsAt(line, ['\r', '\n'] + rest);
    var text, i := line + (['\r', '\n'] + rest), |line|;
    assert BreakAt(text) == i && text[i] == '\r' && text[i + 1] == '\n';
    assert text[i + 2..] == rest;
  }

  /** A last line needs no break, and there is no empty line after the last break. */
  lemma LastLine(line: string)
    requires OneLine(line)
    ensures SplitLines(line) == if line == "" then [] else [line]
  {
    if BreakAt(line) < |line| { assert line[BreakAt(line)] in line; }
  }

  lemma EndsAt(line: string, rest: string)
    requires OneLine(line) && rest != "" && IsBreak(rest[0])
    ensures BreakAt(line + rest) == |line| && (line + rest)[..|line|] == line && (line + rest)[|line|] == rest[0]
  {
    var text := line + rest;
    assert text[|line|] == rest[0];
    forall k | 0 <= k < |line| ensures !IsBreak(text[k]) { assert text[k] == line[k] && line[k] in line; }
  }

  /** What was written is read back line by line; only an empty file becomes one empty line. */
  lemma FileReadsBack(lines: seq<string>)
    requires forall l :: l in lines ==> OneLine(l)
    ensures SplitLines(FileText(lines)) == if lines == [] then [""] else lines
  {
    if lines == [] {
      SplitUndoesTerminated([""]);
      assert Terminated([""]) == "\n" by { assert [""][1..] == []; }
    } else {
      SplitUndoesTerminated(lines);
    }
  }

  // ----------------------------------------------------------------- settings

  function StripLeft(s: string): string {
    if s != "" && IsSpace(s[0]) then StripLeft(s[1..]) else s
  }

  function StripRight(s: string): string {
    if s != "" && IsSpace(s[|s| - 1]) then StripRight(s[..|s| - 1]) else s
  }

  function Strip(s: string): string {
    StripRight(StripLeft(s))
  }

  function IndexOf(s: string, c: char): (i: nat)
    ensures i <= |s| && (forall k :: 0 <= k < i ==> s[k] != c) && (i < |s| ==> s[i] == c)
  {
    if s == "" || s[0] == c then 0 else 1 + IndexOf(s[1..], c)
  }

  datatype Setting = Setting(key: string, value: string)

  /** A line is a setting unless it is blank, a comment, or has no equals sign. */
  function Parse(line: string): Option<Setting> {
    var item := Strip(line);
    var at := IndexOf(item, '=');
    if item == "" || item[0] == '#' || at == |item| then None
    else Some(Setting(Strip(item[..at]), Strip(item[at + 1..])))
  }

  function Print(s: Setting): string {
    s.key + "=" + s.value
  }

  predicate KeyOk(key: string) {
    IsTrimmed(key) && '=' !in key && (key != "" ==> key[0] != '#')
  }

  lemma {:induction false} StripLeftTrims(s: string)
    ensures StripLeft(s) != "" ==> !IsSpace(StripLeft(s)[0])
    ensures forall c :: c in StripLeft(s) ==> c in s
    ensures s != "" && !IsSpace(s[0]) ==> StripLeft(s) == s
  {
    if s != "" && IsSpace(s[0]) { StripLeftTrims(s[1..]); }
  }

  lemma {:induction false} StripRightTrims(s: string)
    ensures StripRight(s) != "" ==> !IsSpace(StripRight(s)[|StripRight(s)| - 1]) && StripRight(s)[0] == s[0]
    ensures forall c :: c in StripRight(s) ==> c in s
    ensures IsTrimmed(s) ==> StripRight(s) == s
    ensures StripRight(s) == "" && s != "" ==> IsSpace(s[0])
  {
    if s != "" && IsSpace(s[|s| - 1]) { StripRightTrims(s[..|s| - 1]); }
  }

  lemma StripTrims(s: string)
    ensures IsTrimmed(Strip(s)) && (IsTrimmed(s) ==> Strip(s) == s)
    ensures forall c :: c in Strip(s) ==> c in s
    ensures s != "" && !IsSpace(s[0]) ==> Strip(s) != "" && Strip(s)[0] == s[0]
  {
    StripLeftTrims(s);
    StripRightTrims(StripLeft(s));
  }

  /** What a line parses to can be printed again. */
  lemma ParsedIsPrintable(line: string)
    requires Parse(line).Some?
    ensures KeyOk(Parse(line).value.key) && IsTrimmed(Parse(line).value.value)
  {
    var item := Strip(line);
    var at := IndexOf(item, '=');
    StripTrims(line);
    StripTrims(item[..at]);
    StripTrims(item[at + 1..]);
    assert forall k :: 0 <= k < at ==> item[..at][k] == item[k];
  }

  lemma ParsedIsOneLine(line: string)
    requires OneLine(line) && Parse(line).Some?
    ensures OneLine(Parse(line).value.key)
  {
    var item := Strip(line);
    var at := IndexOf(item, '=');
    StripTrims(line);
    StripTrims(item[..at]);
  }

  /** A printed setting parses back to itself. */
  lemma PrintedParses(s: Setting)
    requires KeyOk(s.key) && IsTrimmed(s.value)
    ensures Parse(Print(s)) == Some(s)
  {
    var line := Print(s);
    var at := |s.key|;
    assert line[at] == '=' && line[..at] == s.key && line[at + 1..] == s.value;
    assert !IsSpace('=');
    StripTrims(line);
    assert IsTrimmed(line);
    assert IndexOf(line, '=') == at by {
      assert forall k :: 0 <= k < at ==> line[k] == s.key[k] && s.key[k] in s.key;
    }
    StripTrims(s.key);
    StripTrims(s.value);
  }

  // ------------------------------------------------- which lines are settings

  predicate Blank(s: string) {
    forall c :: c in s ==> IsSpace(c)
  }

  /** This text with white space around it. */
  ghost predicate Around(s: string, x: string) {
    exists a, b :: Blank(a) && Blank(b) && s == a + x + b
  }

  lemma {:induction false} StripLeftSplits(s: string) returns (a: string)
    ensures Blank(a) && s == a + StripLeft(s)
  {
    a := "";
    if s != "" && IsSpace(s[0]) {
      var rest := StripLeftSplits(s[1..]);
      a := [s[0]] + rest;
    }
  }

  lemma {:induction false} StripRightSplits(s: string) returns (b: string)
    ensures Blank(b) && s == StripRight(s) + b
  {
    b := "";
    if s != "" && IsSpace(s[|s| - 1]) {
      var rest := StripRightSplits(s[..|s| - 1]);
      b := rest + [s[|s| - 1]];
    }
  }

  lemma {:induction false} StripLeftOf(a: string, s: string)
    requires Blank(a) && (s != "" ==> !IsSpace(s[0]))
    ensures StripLeft(a + s) == s
  {
    if a == "" {
      assert a + s == s;
    } else {
      assert a[0] in a && (a + s)[1..] == a[1..] + s;
      StripLeftOf(a[1..], s);
    }
  }

  lemma {:induction false} StripRightOf(s: string, b: string)
    requires Blank(b) && (s != "" ==> !IsSpace(s[|s| - 1]))
    ensures StripRight(s + b) == s
  {
    if b == "" {
      assert s + b == s;
    } else {
      var n := |b| - 1;
      assert b[n] in b && (s + b)[..|s + b| - 1] == s + b[..n];
      StripRightOf(s, b[..n]);
    }
  }

  /** Stripping yields the trimmed text that has only white space around it. */
  lemma StripIsExact(s: string, x: string)
    ensures Strip(s) == x <==> IsTrimmed(x) && Around(s, x)
  {
    StripTrims(s);
    var a := StripLeftSplits(s);
    var b := StripRightSplits(StripLeft(s));
    assert s == a + Strip(s) + b;
    if IsTrimmed(x) && Around(s, x) {
      var a', b' :| Blank(a') && Blank(b') && s == a' + x + b';
      if x == "" {
        assert s == a' + b' && (a' + b') + "" == s;
        StripLeftOf(a' + b', "");
      } else {
        assert s == a' + (x + b');
        StripLeftOf(a', x + b');
        StripRightOf(x, b');
      }
    }
  }

  lemma {:induction false} StripLeftKeeps(left: string, rest: string)
    requires rest != "" && !IsSpace(rest[0])
    ensures StripLeft(left + rest) == StripLeft(left) + rest
  {
    if left == "" {
      assert left + rest == rest;
    } else if IsSpace(left[0]) {
      assert (left + rest)[1..] == left[1..] + rest;
      StripLeftKeeps(left[1..], rest);
    }
  }

  lemma {:induction false} StripRightKeeps(rest: string, right: string)
    requires rest != "" && !IsSpace(rest[|rest| - 1])
    ensures StripRight(rest + right) == rest + StripRight(right)
  {
    if right == "" {
      assert rest + right == rest;
    } else if IsSpace(right[|right| - 1]) {
      assert (rest + right)[..|rest + right| - 1] == rest + right[..|right| - 1];
      StripRightKeeps(rest, right[..|right| - 1]);
    }
  }

  lemma StripLeftFirst(s: string)
    ensures Strip(StripLeft(s)) == Strip(s)
    ensures StripLeft(s) != "" ==> Strip(s) != "" && Strip(s)[0] == StripLeft(s)[0]
  {
    StripLeftTrims(s);
    StripLeftOf("", StripLeft(s));
    assert "" + StripLeft(s) == StripLeft(s);
    StripRightTrims(StripLeft(s));
  }

  lemma AroundGrows(s: string, x: string, b: string)
    requires Around(s, x) && Blank(b)
    ensures Around(s + b, x)
  {
    var a, c :| Blank(a) && Blank(c) && s == a + x + c;
    assert s + b == a + x + (c + b) && Blank(c + b);
  }

  lemma StripRightFirst(s: string)
    ensures Strip(StripRight(s)) == Strip(s)
  {
    var x := Strip(StripRight(s));
    StripIsExact(StripRight(s), x);
    var b := StripRightSplits(s);
    AroundGrows(StripRight(s), x, b);
    StripIsExact(s, x);
  }

  lemma FirstIs(s: string, c: char, at: nat)
    requires at < |s| && s[at] == c && forall k :: 0 <= k < at ==> s[k] != c
    ensures IndexOf(s, c) == at
  {
  }

  lemma FirstEquals(left: string, right: string)
    requires '=' !in left
    ensures IndexOf(left + "=" + right, '=') == |left|
  {
    var item := left + "=" + right;
    assert forall k :: 0 <= k < |left| ==> item[k] == left[k] && left[k] in left;
    FirstIs(item, '=', |left|);
  }

  lemma ItemIs(left: string, right: string)
    ensures Strip(left + "=" + right) == StripLeft(left) + "=" + StripRight(right)
  {
    var rest, before := "=" + right, StripLeft(left) + "=";
    assert !IsSpace('=') && rest[0] == '=' && before[|before| - 1] == '=';
    assert left + "=" + right == left + rest;
    StripLeftKeeps(left, rest);
    assert StripLeft(left) + rest == before + right;
    StripRightKeeps(before, right);
  }

  lemma ItemOf(left: string, right: string)
    requires '=' !in left
    ensures var item := Strip(left + "=" + right);
            item == StripLeft(left) + "=" + StripRight(right) && IndexOf(item, '=') == |StripLeft(left)|
  {
    ItemIs(left, right);
    StripLeftTrims(left);
    FirstEquals(StripLeft(left), StripRight(right));
  }

  /**
    What any line parses to: it is split at its first equals sign, and both sides are
    stripped; without one, or with a first character `#`, it is no setting.
  */
  lemma ParseIsExact(left: string, right: string)
    requires '=' !in left
    ensures Parse(left) == None
    ensures Parse(left + "=" + right) ==
            if Strip(left) != "" && Strip(left)[0] == '#' then None else Some(Setting(Strip(left), Strip(right)))
  {
    StripTrims(left);
    ItemOf(left, right);
    StripLeftFirst(left);
    StripRightFirst(right);
    var item := StripLeft(left) + "=" + StripRight(right);
    var at := |StripLeft(left)|;
    assert item[..at] == StripLeft(left) && item[at + 1..] == StripRight(right);
  }

  type Parsed = seq<Option<Setting>>

  function ParseAll(lines: seq<string>): (p: Parsed)
    ensures |p| == |lines| && forall i :: 0 <= i < |lines| ==> p[i] == Parse(lines[i])
  {
    seq(|lines|, i requires 0 <= i < |lines| => Parse(lines[i]))
  }

  /** The last assignment of each key. */
  function Assigned(parsed: Parsed): map<string, string> {
    if parsed == [] then map[]
    else
      var before, last := Assigned(parsed[..|parsed| - 1]), parsed[|parsed| - 1];
      if last.None? then before else before[last.value.key := last.value.value]
  }

  /** The effective settings of a file: the last assignment wins. */
  function Effective(lines: seq<string>): map<string, string> {
    Assigned(ParseAll(lines))
  }

  const PLACEHOLDER := "__CHANGE_ME__"

  predicate Marked(value: string) {
    exists i :: 0 <= i <= |value| && PLACEHOLDER <= value[i..]
  }

  lemma UnmarkedWithout(value: string)
    requires '_' !in value
    ensures !Marked(value)
  {
    forall i | 0 <= i <= |value| ensures !(PLACEHOLDER <= value[i..]) {
      assert i < |value| ==> value[i..][0] == value[i];
    }
  }

  /** The value in force is the one that the last line for a key assigns. */
  lemma {:induction false} AssignedIsLast(parsed: Parsed, key: string, value: string)
    ensures key in Assigned(parsed) && Assigned(parsed)[key] == value <==>
              exists i :: 0 <= i < |parsed| && parsed[i] == Some(Setting(key, value))
                          && forall j :: i < j < |parsed| ==> parsed[j].None? || parsed[j].value.key != key
  {
    if parsed != [] {
      var init := parsed[..|parsed| - 1];
      assert forall i :: 0 <= i < |init| ==> init[i] == parsed[i];
      AssignedIsLast(init, key, value);
    }
  }
}
