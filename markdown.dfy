/**
  The escaper for Telegram's "MarkdownV2" formatting mode
  (`escape_markdown_v2` in src/simple_ads.py). It first doubles every
  backslash and then, character by character, puts a backslash in front of each
  reserved character. `Escaped` states the combined effect per input character;
  `Unescape` is its inverse, which reads an escaped text back.
*/
module MarkdownV2 {

  import opened Wrappers

  /** The characters, other than the backslash, that MarkdownV2 reserves. */
  const Reserved: string := "_*[]()~`>#+-=|{}.!"

  predicate IsReserved(c: char) {
    c in Reserved
  }

  /** A character that the escaper prefixes with a backslash. */
  predicate NeedsEscape(c: char) {
    c == '\\' || IsReserved(c)
  }

  function EscapeChar(c: char): string {
    if NeedsEscape(c) then ['\\', c] else [c]
  }

  /** The escaped form of `s`: each character escaped on its own, in order. */
  function Escaped(s: string): string {
    if s == [] then [] else Escaped(s[..|s| - 1]) + EscapeChar(s[|s| - 1])
  }

  /** The number of characters of `s` that get a backslash. */
  function EscapeCount(s: string): nat {
    if s == [] then 0 else EscapeCount(s[..|s| - 1]) + (if NeedsEscape(s[|s| - 1]) then 1 else 0)
  }

  /** Every backslash written twice: the first step of the escaper. */
  function DoubleBackslashes(s: string): string {
    if s == [] then []
    else DoubleBackslashes(s[..|s| - 1]) + (if s[|s| - 1] == '\\' then "\\\\" else [s[|s| - 1]])
  }

  /** What the escaper's loop makes of a text: a backslash before each reserved character only. */
  function EscapeReserved(s: string): string {
    if s == [] then []
    else EscapeReserved(s[..|s| - 1]) + (if IsReserved(s[|s| - 1]) then ['\\', s[|s| - 1]] else [s[|s| - 1]])
  }

  /**
    Reads an escaped text back: a backslash must be followed by a character that
    needs escaping, and a reserved character or backslash may not stand alone.
  */
  function Unescape(t: string): Option<string> {
    if t == [] then Some([])
    else if t[0] == '\\' then
      if |t| >= 2 && NeedsEscape(t[1]) then
        match Unescape(t[2..])
        case None => None
        case Some(rest) => Some([t[1]] + rest)
      else None
    else if IsReserved(t[0]) then None
    else
      match Unescape(t[1..])
      case None => None
      case Some(rest) => Some([t[0]] + rest)
  }

  /** `escape_markdown_v2`: double the backslashes, then escape the reserved characters in a loop. */
  method EscapeMarkdownV2(text: string) returns (escaped: string)
    ensures escaped == Escaped(text)
  {
    var doubled := DoubleBackslashes(text);
    escaped := "";
    for i := 0 to |doubled|
      invariant escaped == EscapeReserved(doubled[..i])
    {
      var c := doubled[i];
      assert doubled[..i + 1][..i] == doubled[..i];
      if IsReserved(c) {
        escaped := escaped + ['\\', c];
      } else {
        escaped := escaped + [c];
      }
    }
    assert doubled[..|doubled|] == doubled;
    ReservedAfterDoubling(text);
  }

  lemma {:induction false} EscapeReservedAppend(a: string, b: string)
    ensures EscapeReserved(a + b) == EscapeReserved(a) + EscapeReserved(b)
    decreases |b|
  {
    if b == [] {
      assert a + b == a;
    } else {
      var b' := b[..|b| - 1];
      assert (a + b)[..|a + b| - 1] == a + b';
      EscapeReservedAppend(a, b');
    }
  }

  /** Doubling the backslashes and then escaping the reserved characters is `Escaped`. */
  lemma {:induction false} ReservedAfterDoubling(s: string)
    ensures EscapeReserved(DoubleBackslashes(s)) == Escaped(s)
  {
    if s != [] {
      var p, c := s[..|s| - 1], s[|s| - 1];
      ReservedAfterDoubling(p);
      var tail := if c == '\\' then "\\\\" else [c];
      EscapeReservedAppend(DoubleBackslashes(p), tail);
      if c == '\\' {
        assert tail == ['\\'] + ['\\'];
        EscapeReservedAppend(['\\'], ['\\']);
        assert ['\\'][..0] == [];
      } else {
        assert tail[..0] == [];
      }
    }
  }

  lemma {:induction false} EscapedAppend(a: string, b: string)
    ensures Escaped(a + b) == Escaped(a) + Escaped(b)
    decreases |b|
  {
    if b == [] {
      assert a + b == a;
    } else {
      var b' := b[..|b| - 1];
      assert (a + b)[..|a + b| - 1] == a + b';
      EscapedAppend(a, b');
    }
  }

  /** The escaped text is longer than the input by exactly the number of escaped characters. */
  lemma {:induction false} EscapedLength(s: string)
    ensures |Escaped(s)| == |s| + EscapeCount(s)
  {
    if s != [] {
      EscapedLength(s[..|s| - 1]);
    }
  }

  /** Removing the escape backslashes recovers the input. */
  lemma {:induction false} UnescapeEscaped(s: string)
    ensures Unescape(Escaped(s)) == Some(s)
    decreases |s|
  {
    if s != [] {
      var c, rest := s[0], s[1..];
      assert s == [c] + rest;
      EscapedAppend([c], rest);
      assert [c][..0] == [];
      UnescapeEscaped(rest);
      var t := Escaped(s);
      if NeedsEscape(c) {
        assert t[2..] == Escaped(rest);
      } else {
        assert t[1..] == Escaped(rest);
      }
    }
  }

  /** Every text that reads back is the escaped form of what it reads back to. */
  lemma {:induction false} EscapedUnescape(t: string, s: string)
    requires Unescape(t) == Some(s)
    ensures t == Escaped(s)
    decreases |t|
  {
    if t != [] {
      var k := if t[0] == '\\' then 2 else 1;
      var rest := s[1..];
      EscapedUnescape(t[k..], rest);
      assert s == [s[0]] + rest;
      EscapedAppend([s[0]], rest);
      assert [s[0]][..0] == [];
      assert t == t[..k] + t[k..];
    }
  }
}
