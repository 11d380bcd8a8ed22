/** The lines of iptables-save data: the reader that takes them apart and the buffer that writes them. */
module SaveLines {

  // Lines and trimming

  /** The position of the first newline from i on, or the end of the data. */
  function LineEnd(data: string, i: nat): (end: nat)
    requires i <= |data|
    ensures i <= end <= |data|
    decreases |data| - i
  {
    if i == |data| || data[i] == '\n' then i else LineEnd(data, i + 1)
  }

  function RawLine(data: string, i: nat): string
    requires i <= |data|
  {
    data[i..LineEnd(data, i)]
  }

  function TrimLeft(s: string): string {
    if s != [] && s[0] == ' ' then TrimLeft(s[1..]) else s
  }

  function TrimRight(s: string): string {
    if s != [] && s[|s| - 1] == ' ' then TrimRight(s[..|s| - 1]) else s
  }

  function Trim(s: string): string {
    TrimRight(TrimLeft(s))
  }

  predicate Terminated(data: string, i: nat)
    requires i <= |data|
  {
    LineEnd(data, i) < |data|
  }

  // What the reader returns

  /** At the end of the data without a newline, a line of one character is lost, so is a line that ends in spaces,
      and so is a last character that stands alone. */
  function Unterminated(left: string): string {
    if |left| <= 1 || left[|left| - 1] == ' ' then []
    else if left[|left| - 2] == ' ' then TrimRight(left[..|left| - 1])
    else left
  }

  function LineRead(data: string, i: nat): string
    requires i <= |data|
  {
    if Terminated(data, i) then Trim(RawLine(data, i)) else Unterminated(TrimLeft(RawLine(data, i)))
  }

  function NextIndex(data: string, i: nat): (next: nat)
    requires i <= |data|
    ensures next <= |data| && (i < |data| ==> i < next)
  {
    if Terminated(data, i) then LineEnd(data, i) + 1 else |data|
  }

  predicate EndsInWord(s: string) {
    |s| >= 2 && s[|s| - 1] != ' ' && s[|s| - 2] != ' '
  }

  /** The line is returned whole: it ends in a newline, or is blank, or ends in two characters that are no spaces. */
  predicate Kept(data: string, i: nat)
    requires i <= |data|
  {
    var raw := RawLine(data, i);
    Terminated(data, i) || Trim(raw) == [] || EndsInWord(raw)
  }

  lemma {:induction false} TrimLeftIsSuffix(s: string)
    ensures |TrimLeft(s)| <= |s| && TrimLeft(s) == s[|s| - |TrimLeft(s)|..]
    ensures TrimLeft(s) != [] ==> TrimLeft(s)[0] != ' '
    ensures forall k :: 0 <= k < |s| - |TrimLeft(s)| ==> s[k] == ' '
  {
    if s != [] && s[0] == ' ' {
      var rest, t := s[1..], TrimLeft(s[1..]);
      TrimLeftIsSuffix(rest);
      assert rest[|rest| - |t|..] == s[|s| - |t|..];
      forall k | 0 < k < |s| - |t| ensures s[k] == ' ' { assert s[k] == rest[k - 1]; }
    }
  }

  lemma {:induction false} TrimRightIsPrefix(s: string)
    ensures |TrimRight(s)| <= |s| && TrimRight(s) == s[..|TrimRight(s)|]
    ensures TrimRight(s) != [] ==> TrimRight(s)[|TrimRight(s)| - 1] != ' '
    ensures forall k :: |TrimRight(s)| <= k < |s| ==> s[k] == ' '
  {
    if s != [] && s[|s| - 1] == ' ' { TrimRightIsPrefix(s[..|s| - 1]); }
  }

  lemma UnterminatedExactly(left: string)
    requires left != [] ==> left[0] != ' '
    ensures TrimRight(left) == [] <==> left == []
    ensures Unterminated(left) == TrimRight(left) <==> left == [] || EndsInWord(left)
  {
    TrimRightIsPrefix(left);
    if |left| > 1 && left[|left| - 1] != ' ' && left[|left| - 2] == ' ' { TrimRightIsPrefix(left[..|left| - 1]); }
  }

  lemma EndsAlike(raw: string, left: string)
    requires |left| <= |raw| && left == raw[|raw| - |left|..] && left != [] && left[0] != ' '
    requires forall k :: 0 <= k < |raw| - |left| ==> raw[k] == ' '
    ensures EndsInWord(left) <==> EndsInWord(raw)
  {
    assert left[|left| - 1] == raw[|raw| - 1];
    assert |left| >= 2 ==> left[|left| - 2] == raw[|raw| - 2];
  }

  /** The reader returns the trimmed line if and only if the line is kept. */
  lemma LineReadExactly(data: string, i: nat)
    requires i <= |data|
    ensures LineRead(data, i) == Trim(RawLine(data, i)) <==> Kept(data, i)
  {
    var raw := RawLine(data, i);
    var left := TrimLeft(raw);
    TrimLeftIsSuffix(raw);
    UnterminatedExactly(left);
    if left != [] { EndsAlike(raw, left); }
  }

  /** Without a newline at the end, a last word of one letter is dropped. */
  lemma LastLetterIsLost()
    ensures LineRead("a b", 0) == "a" && Trim(RawLine("a b", 0)) == "a b"
  {
    var data := "a b";
    LineEndIs(data, 0, 3);
    assert data[0..3] == data && data[..2] == "a ";
    TrimRightIs("a ", 1);
    assert "a "[..1] == "a";
  }

  // The reader

  method SkipSpaces(data: string, i: nat) returns (start: nat)
    requires i <= |data|
    ensures i <= start <= |data| && (forall k :: i <= k < start ==> data[k] == ' ') && (start < |data| ==> data[start] != ' ')
  {
    start := i;
    while start < |data| && data[start] == ' '
      invariant i <= start <= |data| && forall k :: i <= k < start ==> data[k] == ' '
    {
      start := start + 1;
    }
  }

  lemma {:induction false} LineEndIs(data: string, i: nat, end: nat)
    requires i <= end <= |data| && (forall k :: i <= k < end ==> data[k] != '\n') && (end < |data| ==> data[end] == '\n')
    ensures LineEnd(data, i) == end
    decreases end - i
  {
    if i < end { LineEndIs(data, i + 1, end); }
  }

  lemma {:induction false} TrimLeftIs(s: string, k: nat)
    requires k <= |s| && (forall j :: 0 <= j < k ==> s[j] == ' ') && (k < |s| ==> s[k] != ' ')
    ensures TrimLeft(s) == s[k..]
  {
    if k > 0 { TrimLeftIs(s[1..], k - 1); }
  }

  lemma {:induction false} TrimRightIs(s: string, k: nat)
    requires k <= |s| && (forall j :: k <= j < |s| ==> s[j] == ' ') && (k > 0 ==> s[k - 1] != ' ')
    ensures TrimRight(s) == s[..k]
    decreases |s|
  {
    if k < |s| { TrimRightIs(s[..|s| - 1], k); }
  }

  /** What lies between the first character of the line and the end of the line, less what is trimmed from the left. */
  lemma LeftIs(data: string, i: nat, left: nat, end: nat)
    requires i <= left <= end <= |data| && (forall k :: i <= k < end ==> data[k] != '\n') && (end < |data| ==> data[end] == '\n')
    requires (forall k :: i <= k < left ==> data[k] == ' ') && (left < end ==> data[left] != ' ')
    ensures LineEnd(data, i) == end && TrimLeft(RawLine(data, i)) == data[left..end]
  {
    LineEndIs(data, i, end);
    TrimLeftIs(data[i..end], left - i);
  }

  /** A line that ends in a newline is cut where its last spaces begin. */
  lemma TerminatedIs(data: string, i: nat, left: nat, right: nat, end: nat)
    requires i <= left <= right <= end < |data| && (forall k :: i <= k < end ==> data[k] != '\n') && data[end] == '\n'
    requires (forall k :: i <= k < left ==> data[k] == ' ') && (left < end ==> data[left] != ' ')
    requires (forall k :: right <= k < end ==> data[k] == ' ') && (left < right ==> data[right - 1] != ' ')
    ensures LineRead(data, i) == data[left..right] && NextIndex(data, i) == end + 1
  {
    LeftIs(data, i, left, end);
    var s, k := data[left..end], right - left;
    assert forall j :: 0 <= j < |s| ==> s[j] == data[left + j];
    TrimRightIs(s, k);
    assert s[..k] == data[left..right];
  }

  /** Without a newline the line is cut at its last spaces too, even when one more character follows. */
  lemma UnterminatedIs(data: string, i: nat, left: nat, right: nat)
    requires i <= left < |data| - 1 && left < right <= |data| && (forall k :: i <= k < |data| ==> data[k] != '\n')
    requires (forall k :: i <= k < left ==> data[k] == ' ') && data[left] != ' ' && data[|data| - 1] != ' '
    requires right == |data| || (right < |data| - 1 && forall k :: right <= k < |data| - 1 ==> data[k] == ' ')
    requires data[right - 1] != ' ' && (right == |data| ==> data[|data| - 2] != ' ')
    ensures LineRead(data, i) == data[left..right] && NextIndex(data, i) == |data|
  {
    LeftIs(data, i, left, |data|);
    TailIs(data, left, right);
  }

  lemma TailIs(data: string, left: nat, right: nat)
    requires left < |data| - 1 && left < right <= |data| && data[|data| - 1] != ' '
    requires right == |data| || (right < |data| - 1 && forall k :: right <= k < |data| - 1 ==> data[k] == ' ')
    requires data[right - 1] != ' ' && (right == |data| ==> data[|data| - 2] != ' ')
    ensures Unterminated(data[left..|data|]) == data[left..right]
  {
    var tail := data[left..|data|];
    if right < |data| {
      var kept := tail[..|tail| - 1];
      assert kept == data[left..|data| - 1];
      TrimRightIs(kept, right - left);
      assert kept[..right - left] == data[left..right];
    }
  }

  /** Left-trim, then go to the end of the line, remembering where the last run of spaces began. */
  method ReadLine(readIndex: nat, data: string) returns (line: string, next: nat)
    requires readIndex <= |data|
    ensures line == LineRead(data, readIndex) && next == NextIndex(data, readIndex)
  {
    var left := SkipSpaces(data, readIndex);
    var cur, right := left, -1;
    while cur < |data|
      invariant left <= cur <= |data| && -1 <= right < cur && (forall k :: left <= k < cur ==> data[k] != '\n')
      invariant right == -1 ==> cur == left || data[cur - 1] != ' '
      invariant right >= 0 ==> left < right && data[right - 1] != ' ' && forall k :: right <= k < cur ==> data[k] == ' '
      invariant left < cur == |data| ==> data[cur - 1] == ' '
    {
      if data[cur] == ' ' {
        if right == -1 { right := cur; }
      } else if data[cur] == '\n' || cur == |data| - 1 {
        if cur <= left {
          if data[cur] == '\n' { TerminatedIs(data, readIndex, left, cur, cur); }
          else { LeftIs(data, readIndex, left, |data|); }
          return [], cur + 1;
        }
        if data[cur] == '\n' { TerminatedIs(data, readIndex, left, if right == -1 then cur else right, cur); }
        else { UnterminatedIs(data, readIndex, left, if right == -1 then |data| else right); }
        if right == -1 {
          right := cur;
          if cur == |data| - 1 && data[cur] != '\n' { right := cur + 1; }
        }
        return data[left..right], cur + 1;
      } else {
        right := -1;
      }
      cur := cur + 1;
    }
    LeftIs(data, readIndex, left, |data|);
    return [], cur;
  }

  // The printer

  function Print(lines: seq<string>): string {
    if lines == [] then [] else lines[0] + ['\n'] + Print(lines[1..])
  }

  function JoinSpaces(parts: seq<string>): string {
    if parts == [] then []
    else if |parts| == 1 then parts[0]
    else parts[0] + [' '] + JoinSpaces(parts[1..])
  }

  /** An argument of a printed line: one string, or several that are joined by spaces. */
  datatype Arg = One(s: string) | Many(parts: seq<string>)

  function Text(arg: Arg): string {
    if arg.One? then arg.s else JoinSpaces(arg.parts)
  }

  function Texts(args: seq<Arg>): seq<string> {
    if args == [] then [] else [Text(args[0])] + Texts(args[1..])
  }

  lemma {:induction false} JoinSnoc(parts: seq<string>, last: string)
    ensures JoinSpaces(parts + [last]) == JoinSpaces(parts) + (if parts == [] then last else [' '] + last)
  {
    if parts == [] {
      assert parts + [last] == [last];
    } else {
      assert (parts + [last])[1..] == parts[1..] + [last];
      JoinSnoc(parts[1..], last);
    }
  }

  lemma {:induction false} PrintSnoc(lines: seq<string>, line: string)
    ensures Print(lines + [line]) == Print(lines) + line + ['\n']
  {
    if lines == [] {
      assert lines + [line] == [line];
      assert [line][1..] == [];
    } else {
      assert (lines + [line])[1..] == lines[1..] + [line];
      PrintSnoc(lines[1..], line);
    }
  }

  class LineBuffer {
    var bytes: string
    /** The lines written since the last reset. */
    ghost var lines: seq<string>

    ghost predicate Valid()
      reads this
    {
      bytes == Print(lines)
    }

    constructor ()
      ensures Valid() && lines == []
    {
      bytes, lines := [], [];
    }

    method WriteBytes(line: string)
      requires Valid()
      modifies this
      ensures Valid() && lines == old(lines) + [line]
    {
      PrintSnoc(lines, line);
      bytes := bytes + line;
      bytes := bytes + ['\n'];
      lines := lines + [line];
    }

    method Write(args: seq<Arg>)
      requires Valid()
      modifies this
      ensures Valid() && lines == old(lines) + [JoinSpaces(Texts(args))]
    {
      var i := 0;
      while i < |args|
        invariant i <= |args| && lines == old(lines)
        invariant bytes == old(bytes) + JoinSpaces(Texts(args[..i]))
      {
        TextsSnoc(args, i);
        JoinSnoc(Texts(args[..i]), Text(args[i]));
        if i > 0 { bytes := bytes + [' ']; }
        var text := Joined(args[i]);
        bytes := bytes + text;
        i := i + 1;
      }
      assert args[..i] == args;
      PrintSnoc(lines, JoinSpaces(Texts(args)));
      bytes := bytes + ['\n'];
      lines := lines + [JoinSpaces(Texts(args))];
    }

    method Reset()
      modifies this
      ensures Valid() && lines == []
    {
      bytes, lines := [], [];
    }
  }

  lemma {:induction false} TextsSnoc(args: seq<Arg>, i: nat)
    requires i < |args|
    ensures Texts(args[..i + 1]) == Texts(args[..i]) + [Text(args[i])]
    ensures Texts(args[..i]) == [] <==> i == 0
    decreases |args|
  {
    if i == 0 {
      assert args[..1] == [args[0]];
    } else {
      TextsSnoc(args[1..], i - 1);
      assert args[..i + 1][1..] == args[1..][..i] && args[..i][1..] == args[1..][..i - 1];
    }
  }

  method Joined(arg: Arg) returns (text: string)
    ensures text == Text(arg)
  {
    if arg.One? { return arg.s; }
    text := [];
    var parts, i := arg.parts, 0;
    while i < |parts|
      invariant i <= |parts| && text == JoinSpaces(parts[..i])
    {
      assert parts[..i + 1] == parts[..i] + [parts[i]];
      JoinSnoc(parts[..i], parts[i]);
      if i > 0 { text := text + [' ']; }
      text := text + parts[i];
      i := i + 1;
    }
    assert parts[..i] == parts;
  }

  // Printing, then reading

  function ReadAll(data: string, i: nat): seq<string>
    requires i <= |data|
    decreases |data| - i
  {
    if i == |data| then [] else [LineRead(data, i)] + ReadAll(data, NextIndex(data, i))
  }

  predicate OneLine(s: string) {
    '\n' !in s
  }

  function TrimAll(lines: seq<string>): seq<string> {
    if lines == [] then [] else [Trim(lines[0])] + TrimAll(lines[1..])
  }

  lemma LineReadFrom(data: string, i: nat, line: string, after: string)
    requires i <= |data| && data[i..] == line + ['\n'] + after && OneLine(line)
    ensures LineRead(data, i) == Trim(line) && NextIndex(data, i) == i + |line| + 1 <= |data|
    ensures data[i + |line| + 1..] == after
  {
    var rest := data[i..];
    assert forall k :: 0 <= k < |rest| ==> data[i + k] == rest[k];
    assert forall k :: i <= k < i + |line| ==> data[k] == line[k - i];
    assert rest[|line|] == '\n' && data[i + |line|] == '\n';
    LineEndIs(data, i, i + |line|);
    assert data[i..i + |line|] == rest[..|line|] == line;
    assert data[i + |line| + 1..] == rest[|line| + 1..] == after;
  }

  lemma ReadStep(data: string, i: nat, line: string, next: nat)
    requires i < |data| && LineRead(data, i) == line && NextIndex(data, i) == next <= |data|
    ensures ReadAll(data, i) == [line] + ReadAll(data, next)
  {
  }

  lemma {:induction false} ReadFrom(data: string, i: nat, lines: seq<string>)
    requires i <= |data| && data[i..] == Print(lines)
    requires forall k :: 0 <= k < |lines| ==> OneLine(lines[k])
    ensures ReadAll(data, i) == TrimAll(lines)
    decreases |lines|
  {
    if lines != [] {
      var first, rest := lines[0], lines[1..];
      assert Print(lines) == first + ['\n'] + Print(rest);
      LineReadFrom(data, i, first, Print(rest));
      ReadFrom(data, i + |first| + 1, rest);
      ReadStep(data, i, Trim(first), i + |first| + 1);
    }
  }

  /** Reading what was printed gives the lines back, trimmed. */
  lemma PrintThenRead(lines: seq<string>)
    requires forall k :: 0 <= k < |lines| ==> OneLine(lines[k])
    ensures ReadAll(Print(lines), 0) == TrimAll(lines)
  {
    var data := Print(lines);
    assert data[0..] == data;
    ReadFrom(data, 0, lines);
  }
}
