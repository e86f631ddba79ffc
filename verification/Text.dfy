/** The parts of Go's `strings` package that the parsers and printers use.

    A Go string is a sequence of bytes, so every `char` of a string in this project stands
    for one byte. Literals are ASCII. */
module Text {
  // The runes of Go's `unicode.IsSpace`, by the width of their UTF-8 encoding.

  predicate Space1(a: char) {
    a == ' ' || '\t' <= a <= '\r'
  }

  predicate Space2(a: char, b: char) {
    a == '\U{C2}' && (b == '\U{85}' || b == '\U{A0}')
  }

  predicate Space3(a: char, b: char, c: char) {
    || (a == '\U{E1}' && b == '\U{9A}' && c == '\U{80}')
    || (a == '\U{E2}' && b == '\U{80}' && ('\U{80}' <= c <= '\U{8A}' || c == '\U{A8}' || c == '\U{A9}' || c == '\U{AF}'))
    || (a == '\U{E2}' && b == '\U{81}' && c == '\U{9F}')
    || (a == '\U{E3}' && b == '\U{80}' && c == '\U{80}')
  }

  /** Width of the white-space rune that starts `s`, or 0 if there is none. */
  function LeadingSpace(s: string): (n: nat)
    ensures n <= |s|
  {
    if |s| >= 1 && Space1(s[0]) then 1
    else if |s| >= 2 && Space2(s[0], s[1]) then 2
    else if |s| >= 3 && Space3(s[0], s[1], s[2]) then 3
    else 0
  }

  /** Width of the white-space rune that ends `s`, or 0. */
  function TrailingSpace(s: string): (n: nat)
    ensures n <= |s|
  {
    var n := |s|;
    if n >= 1 && Space1(s[n - 1]) then 1
    else if n >= 2 && Space2(s[n - 2], s[n - 1]) then 2
    else if n >= 3 && Space3(s[n - 3], s[n - 2], s[n - 1]) then 3
    else 0
  }

  function TrimLeft(s: string): (t: string)
    ensures |t| <= |s|
    decreases |s|
  {
    var n := LeadingSpace(s);
    if n == 0 then s else TrimLeft(s[n..])
  }

  function TrimRight(s: string): (t: string)
    ensures |t| <= |s|
    decreases |s|
  {
    var n := TrailingSpace(s);
    if n == 0 then s else TrimRight(s[..|s| - n])
  }

  /** Go's `strings.TrimSpace`. */
  function TrimSpace(s: string): (t: string)
    ensures |t| <= |s|
  {
    TrimRight(TrimLeft(s))
  }

  /** Nothing to trim at either end. */
  predicate Trimmed(s: string) {
    LeadingSpace(s) == 0 && TrailingSpace(s) == 0
  }

  /** Spaces and tabs only. */
  predicate Blank(s: string) {
    forall i | 0 <= i < |s| :: s[i] == ' ' || s[i] == '\t'
  }

  /** Every `char` stands for a byte. */
  predicate Bytes(s: string) {
    forall i | 0 <= i < |s| :: s[i] as int < 256
  }

  /** Go's `strings.IndexByte`, with `|s|` for "not found". */
  function IndexByte(s: string, c: char): (i: nat)
    ensures i <= |s|
    ensures c !in s[..i]
    ensures i < |s| ==> s[i] == c
    ensures i == |s| <==> c !in s
  {
    if s == [] then 0
    else if s[0] == c then 0
    else
      assert s == [s[0]] + s[1..];
      var i := IndexByte(s[1..], c) + 1;
      assert s[..i] == [s[0]] + s[1..][..i - 1];
      i
  }

  /** Go's `strings.Split(s, string(sep))`. */
  function Split(s: string, sep: char): (parts: seq<string>)
    ensures |parts| >= 1
    decreases |s|
  {
    var i := IndexByte(s, sep);
    if i == |s| then [s] else [s[..i]] + Split(s[i + 1..], sep)
  }

  /** Go's `strings.Join(parts, string(sep))`. */
  function Join(parts: seq<string>, sep: char): string {
    if parts == [] then ""
    else if |parts| == 1 then parts[0]
    else parts[0] + [sep] + Join(parts[1..], sep)
  }

  /** Go's `strings.HasPrefix`. */
  predicate HasPrefix(s: string, prefix: string) {
    prefix <= s
  }

  /** Go's `strings.HasSuffix`. */
  predicate HasSuffix(s: string, suffix: string) {
    |suffix| <= |s| && s[|s| - |suffix|..] == suffix
  }

  /** The ASCII part of Go's `strings.ToLower`. */
  function ToLower(s: string): string {
    if s == [] then [] else [LowerChar(s[0])] + ToLower(s[1..])
  }

  function LowerChar(c: char): char {
    if 'A' <= c <= 'Z' then ((c as int) + 32) as char else c
  }

  /** The value of a hexadecimal digit, or -1. */
  function HexValue(c: char): (v: int)
    ensures -1 <= v < 16
  {
    if '0' <= c <= '9' then c as int - '0' as int
    else if 'a' <= c <= 'f' then c as int - 'a' as int + 10
    else if 'A' <= c <= 'F' then c as int - 'A' as int + 10
    else -1
  }

  lemma {:induction false} Assoc(a: string, b: string, c: string)
    ensures (a + b) + c == a + (b + c)
  {
  }

  lemma {:induction false} IndexOfFirst(a: string, c: char, b: string)
    requires c !in a
    ensures var s := a + ([c] + b);
            IndexByte(s, c) == |a| < |s| && s[..|a|] == a && s[|a| + 1..] == b
  {
    var s := a + ([c] + b);
    if a == [] {
      assert s[0] == c;
    } else {
      assert s[0] == a[0] && a[0] in a;
      assert s[1..] == a[1..] + ([c] + b);
      IndexOfFirst(a[1..], c, b);
    }
    assert s[..|a|] == a && s[|a| + 1..] == b;
  }

  /** A text splits at the first separator in one way only. */
  lemma {:induction false} CutUnique(c: char, a: string, b: string, a': string, b': string)
    requires a + ([c] + b) == a' + ([c] + b') && c !in a && c !in a'
    ensures a == a' && b == b'
  {
    IndexOfFirst(a, c, b);
    IndexOfFirst(a', c, b');
  }

  lemma {:induction false} LowerWord(w: string)
    requires forall i | 0 <= i < |w| :: !('A' <= w[i] <= 'Z')
    ensures ToLower(w) == w
  {
    if w != "" {
      LowerWord(w[1..]);
    }
  }

  lemma {:induction false} LeftTrimmed(s: string)
    ensures var t := TrimLeft(s); t == s[|s| - |t|..] && LeadingSpace(t) == 0
    decreases |s|
  {
    var n := LeadingSpace(s);
    hide LeadingSpace;
    if n != 0 {
      LeftTrimmed(s[n..]);
      assert forall k: nat | k <= |s| - n :: s[n..][k..] == s[n + k..];
    }
  }

  lemma {:induction false} RightTrimmed(s: string)
    ensures TrimRight(s) <= s && TrailingSpace(TrimRight(s)) == 0
    decreases |s|
  {
    var n := TrailingSpace(s);
    hide TrailingSpace;
    if n != 0 {
      RightTrimmed(s[..|s| - n]);
    }
  }

  lemma {:induction false} TrimmedIsFixed(s: string)
    requires Trimmed(s)
    ensures TrimSpace(s) == s
  {
  }

  lemma {:induction false} TrimmedResult(s: string) returns (n: nat)
    ensures Trimmed(TrimSpace(s)) && TrimSpace(TrimSpace(s)) == TrimSpace(s)
    ensures n + |TrimSpace(s)| <= |s| && TrimSpace(s) == s[n..n + |TrimSpace(s)|]
  {
    hide TrimLeft, TrimRight, LeadingSpace, TrailingSpace;
    var t := TrimLeft(s);
    var u := TrimRight(t);
    LeftTrimmed(s);
    RightTrimmed(t);
    LeadingOfPrefix(u, t);
    TrimmedIsFixed(u);
    n := |s| - |t|;
    assert s[n..][..|u|] == s[n..n + |u|];
  }

  lemma {:induction false} TrimTwice(s: string)
    ensures TrimSpace(TrimSpace(s)) == TrimSpace(s)
  {
    var n := TrimmedResult(s);
  }

  lemma {:induction false} LeadingOfPrefix(u: string, t: string)
    requires u <= t && LeadingSpace(t) == 0
    ensures LeadingSpace(u) == 0
  {
    hide Space1, Space2, Space3;
    assert forall i | 0 <= i < |u| :: u[i] == t[i];
  }

  /** A text that starts and ends with visible ASCII characters is trimmed. */
  lemma {:induction false} VisibleEnds(s: string)
    requires s != [] && '!' <= s[0] <= '~' && '!' <= s[|s| - 1] <= '~'
    ensures Trimmed(s)
  {
  }

  lemma {:induction false} TrimLeftBlank(pad: string, s: string)
    requires Blank(pad)
    ensures TrimLeft(pad + s) == TrimLeft(s)
  {
    hide TrimLeft;
    if pad == [] {
      assert pad + s == s;
    } else {
      assert pad + s == [pad[0]] + (pad[1..] + s);
      DropLeadingBlank(pad[0], pad[1..] + s);
      TrimLeftBlank(pad[1..], s);
    }
  }

  lemma {:induction false} DropLeadingBlank(c: char, s: string)
    requires c == ' ' || c == '\t'
    ensures TrimLeft([c] + s) == TrimLeft(s)
  {
    assert LeadingSpace([c] + s) == 1;
    assert ([c] + s)[1..] == s;
  }

  lemma {:induction false} TrimRightBlank(s: string, pad: string)
    requires Blank(pad)
    ensures TrimRight(s + pad) == TrimRight(s)
    decreases |pad|
  {
    hide TrimRight;
    if pad == [] {
      assert s + pad == s;
    } else {
      var whole, init := s + pad, pad[..|pad| - 1];
      assert whole == (s + init) + [pad[|pad| - 1]];
      DropTrailingBlank(s + init, pad[|pad| - 1]);
      TrimRightBlank(s, init);
    }
  }

  lemma {:induction false} DropTrailingBlank(s: string, c: char)
    requires c == ' ' || c == '\t'
    ensures TrimRight(s + [c]) == TrimRight(s)
  {
    var whole := s + [c];
    assert TrailingSpace(whole) == 1;
    assert whole[..|whole| - 1] == s;
  }

  /** Padding a trimmed text with blanks and trimming it gives the text back. */
  lemma {:induction false} TrimPadded(left: string, s: string, right: string)
    requires Blank(left) && Blank(right) && s != [] && '!' <= s[0] <= '~' && Trimmed(s)
    ensures TrimSpace(left + (s + right)) == s
  {
    TrimLeftBlank(left, s + right);
    assert (s + right)[0] == s[0];
    assert TrimLeft(s + right) == s + right;
    TrimRightBlank(s, right);
  }

  lemma {:induction false} BlankTrimsAway(s: string)
    requires Blank(s)
    ensures TrimSpace(s) == ""
  {
    assert TrimLeft("") == "" && TrimRight("") == "";
    hide TrimLeft, TrimRight;
    TrimLeftBlank(s, "");
    assert s + "" == s;
  }

  /** Splitting undoes joining when no part holds the separator. */
  lemma {:induction false} SplitJoin(parts: seq<string>, sep: char)
    requires parts != [] && forall p | p in parts :: sep !in p
    ensures Split(Join(parts, sep), sep) == parts
  {
    hide IndexByte;
    if |parts| == 1 {
      assert sep !in parts[0];
    } else {
      var rest := Join(parts[1..], sep);
      assert sep !in parts[0];
      IndexOfFirst(parts[0], sep, rest);
      Assoc(parts[0], [sep], rest);
      SplitJoin(parts[1..], sep);
    }
  }
}
