/** Unicode text as sequences of scalar values: whitespace, UTF-16 length, trimming, and "ink". */
module Options {
  datatype Option<+T> = None | Some(value: T)
}

module Text {

  /** The characters with the Unicode White_Space property, which is what char::is_whitespace tests. */
  predicate IsWhitespace(c: char) {
    var n := c as int;
    || 0x09 <= n <= 0x0D || n == 0x20 || n == 0x85 || n == 0xA0 || n == 0x1680
    || 0x2000 <= n <= 0x200A || n == 0x2028 || n == 0x2029 || n == 0x202F || n == 0x205F || n == 0x3000
  }

  predicate IsBlank(s: string) {
    forall i | 0 <= i < |s| :: IsWhitespace(s[i])
  }

  /** A trimmed, nonempty string. */
  predicate IsTrimmed(s: string) {
    s != [] && !IsWhitespace(s[0]) && !IsWhitespace(s[|s| - 1])
  }

  /** Number of UTF-16 code units of one scalar value. */
  function Utf16Width(c: char): nat {
    if c as int < 0x10000 then 1 else 2
  }

  function Utf16Len(s: string): nat {
    if s == [] then 0 else Utf16Width(s[0]) + Utf16Len(s[1..])
  }

  function TrimStart(s: string): string {
    if s != [] && IsWhitespace(s[0]) then TrimStart(s[1..]) else s
  }

  function TrimEnd(s: string): string {
    if s != [] && IsWhitespace(s[|s| - 1]) then TrimEnd(s[..|s| - 1]) else s
  }

  function Trim(s: string): string {
    TrimEnd(TrimStart(s))
  }

  /** The non-whitespace characters of s, in order. */
  function Ink(s: string): string {
    if s == [] then [] else (if IsWhitespace(s[0]) then [] else [s[0]]) + Ink(s[1..])
  }

  /** The ink of every string of a list, concatenated. */
  function InkAll(parts: seq<string>): string {
    if parts == [] then [] else Ink(parts[0]) + InkAll(parts[1..])
  }

  lemma {:induction false} Utf16LenConcat(a: string, b: string)
    ensures Utf16Len(a + b) == Utf16Len(a) + Utf16Len(b)
  {
    if a == [] {
      assert a + b == b;
    } else {
      assert (a + b)[1..] == a[1..] + b;
      Utf16LenConcat(a[1..], b);
    }
  }

  lemma {:induction false} InkConcat(a: string, b: string)
    ensures Ink(a + b) == Ink(a) + Ink(b)
  {
    if a == [] {
      assert a + b == b;
    } else {
      assert (a + b)[1..] == a[1..] + b;
      InkConcat(a[1..], b);
    }
  }

  lemma {:induction false} InkAllConcat(a: seq<string>, b: seq<string>)
    ensures InkAll(a + b) == InkAll(a) + InkAll(b)
  {
    if a == [] {
      assert a + b == b;
    } else {
      assert (a + b)[1..] == a[1..] + b;
      InkAllConcat(a[1..], b);
    }
  }

  lemma InkAllPush(a: seq<string>, x: string)
    ensures InkAll(a + [x]) == InkAll(a) + Ink(x)
  {
    InkAllConcat(a, [x]);
    assert [x][1..] == [];
  }

  /** Splitting a string splits its ink. */
  lemma {:induction false} InkSplit(s: string, k: nat)
    requires k <= |s|
    ensures Ink(s) == Ink(s[..k]) + Ink(s[k..])
  {
    if k == 0 {
      assert s[0..] == s;
    } else {
      assert s[1..][..k - 1] == s[..k][1..] && s[1..][k - 1..] == s[k..];
      InkSplit(s[1..], k - 1);
    }
  }

  lemma {:induction false} BlankHasNoInk(s: string)
    ensures IsBlank(s) <==> Ink(s) == []
  {
    if s != [] {
      BlankHasNoInk(s[1..]);
      if IsBlank(s[1..]) && IsWhitespace(s[0]) {
        forall i | 0 <= i < |s| ensures IsWhitespace(s[i]) {
          if i > 0 { assert s[i] == s[1..][i - 1]; }
        }
      }
      if IsBlank(s) {
        forall i | 0 <= i < |s[1..]| ensures IsWhitespace(s[1..][i]) {
          assert s[1..][i] == s[i + 1];
        }
      }
    }
  }

  /** Trimming drops no ink, never lengthens, and leaves either nothing or a trimmed string. */
  lemma {:induction false} TrimStartProperties(s: string)
    ensures Ink(TrimStart(s)) == Ink(s)
    ensures Utf16Len(TrimStart(s)) <= Utf16Len(s)
    ensures TrimStart(s) == [] || !IsWhitespace(TrimStart(s)[0])
  {
    if s != [] && IsWhitespace(s[0]) {
      TrimStartProperties(s[1..]);
    }
  }

  lemma {:induction false} TrimEndProperties(s: string)
    ensures Ink(TrimEnd(s)) == Ink(s)
    ensures Utf16Len(TrimEnd(s)) <= Utf16Len(s)
    ensures TrimEnd(s) == [] || !IsWhitespace(TrimEnd(s)[|TrimEnd(s)| - 1])
    ensures TrimEnd(s) <= s
  {
    if s != [] && IsWhitespace(s[|s| - 1]) {
      var front := s[..|s| - 1];
      assert s == front + [s[|s| - 1]];
      TrimEndProperties(front);
      InkConcat(front, [s[|s| - 1]]);
      Utf16LenConcat(front, [s[|s| - 1]]);
    }
  }

  lemma TrimProperties(s: string)
    ensures Ink(Trim(s)) == Ink(s)
    ensures Utf16Len(Trim(s)) <= Utf16Len(s)
    ensures Trim(s) == [] || IsTrimmed(Trim(s))
    ensures Trim(s) == [] <==> IsBlank(s)
  {
    TrimStartProperties(s);
    TrimEndProperties(TrimStart(s));
    BlankHasNoInk(s);
    BlankHasNoInk(Trim(s));
  }

  /** Trimming is the identity on a trimmed string. */
  lemma TrimOfTrimmed(s: string)
    requires s == [] || IsTrimmed(s)
    ensures Trim(s) == s
  {
  }

  // ---- lines --------------------------------------------------------------------------------------

  /** The position of the first c, or the length. */
  function IndexOf(s: string, c: char): (i: nat)
    ensures i <= |s| && (forall k | 0 <= k < i :: s[k] != c) && (i < |s| ==> s[i] == c)
  {
    if s == [] || s[0] == c then 0 else 1 + IndexOf(s[1..], c)
  }

  function StripCarriageReturn(line: string): string {
    if line != [] && line[|line| - 1] == '\r' then line[..|line| - 1] else line
  }

  /** str::lines: a final newline ends the last line, and a carriage return before a newline is dropped. */
  function Lines(s: string): seq<string> {
    if s == [] then []
    else
      var i := IndexOf(s, '\n');
      if i == |s| then [s] else [StripCarriageReturn(s[..i])] + Lines(s[i + 1..])
  }

  /** parts.join(separator) */
  function Join(parts: seq<string>, separator: string): string {
    if parts == [] then []
    else if |parts| == 1 then parts[0]
    else Join(parts[..|parts| - 1], separator) + separator + parts[|parts| - 1]
  }

  /** Joining all but the first part, behind the first. */
  lemma {:induction false} JoinFirst(parts: seq<string>, separator: string)
    requires |parts| > 1
    ensures Join(parts, separator) == parts[0] + separator + Join(parts[1..], separator)
  {
    var n := |parts| - 1;
    if n > 1 {
      JoinFirst(parts[..n], separator);
      assert parts[..n][1..] == parts[1..][..n - 1] && parts[1..][n - 1] == parts[n];
    }
  }

  /** A separator without ink adds none. */
  lemma {:induction false} JoinInk(parts: seq<string>, separator: string)
    requires Ink(separator) == []
    ensures Ink(Join(parts, separator)) == InkAll(parts)
  {
    if |parts| == 1 {
      assert parts[1..] == [];
    } else if |parts| > 1 {
      var front, last := parts[..|parts| - 1], parts[|parts| - 1];
      assert parts == front + [last];
      JoinInk(front, separator);
      InkConcat(Join(front, separator) + separator, last);
      InkConcat(Join(front, separator), separator);
      InkAllPush(front, last);
    }
  }
}
