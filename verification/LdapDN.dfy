/** LDAP distinguished names of directory principals (section 2.4 of RFC 4514).

    `ldapSplitDN` ranges over the runes of its input; on valid UTF-8 that is the same as
    ranging over its bytes, because only ASCII characters are treated specially. */
module LdapDN {
  import opened Wrappers
  import opened Text

  /** A kind the directory does not know is written as a user. */
  datatype Kind = User | Organization | Group | Resource | Other(name: string)

  datatype Principal = Principal(kind: Kind, id: string)

  // ---------- escaping ----------

  function HexDigit(n: nat): (c: char)
    requires n < 16
    ensures HexValue(c) == n
  {
    if n < 10 then (n + 48) as char else (n + 87) as char
  }

  predicate Special(c: char) {
    c == ',' || c == '+' || c == '"' || c == '\\' || c == '<' || c == '>' || c == ';' || c == '=' || c == '\0'
  }

  predicate NeedsEscape(s: string, i: nat)
    requires i < |s|
  {
    || Special(s[i])
    || (i == 0 && (s[i] == ' ' || s[i] == '#'))
    || (i == |s| - 1 && s[i] == ' ')
  }

  function Token(s: string, i: nat): (t: string)
    requires i < |s|
  {
    if NeedsEscape(s, i) then ['\\', HexDigit(s[i] as int / 16), HexDigit(s[i] as int % 16)] else [s[i]]
  }

  /** The escaped form of the first `n` bytes of a value. */
  function EscapeUpTo(s: string, n: nat): string
    requires n <= |s|
  {
    if n == 0 then "" else EscapeUpTo(s, n - 1) + Token(s, n - 1)
  }

  function Escape(s: string): string {
    EscapeUpTo(s, |s|)
  }

  method EscapeDNValue(value: string) returns (b: string)
    ensures b == Escape(value)
  {
    b := "";
    for i := 0 to |value|
      invariant b == EscapeUpTo(value, i)
    {
      var c := value[i];
      var needsEscape := c == ',' || c == '+' || c == '"' || c == '\\' || c == '<' || c == '>' || c == ';' || c == '=' || c == '\0';
      if i == 0 && (c == ' ' || c == '#') {
        needsEscape := true;
      }
      if i == |value| - 1 && c == ' ' {
        needsEscape := true;
      }
      if needsEscape {
        b := b + ['\\', HexDigit(c as int / 16), HexDigit(c as int % 16)];
        continue;
      }
      b := b + [c];
    }
  }

  function Unescape(v: string): string
    decreases |v|
  {
    if v == "" then ""
    else if v[0] != '\\' || |v| == 1 then [v[0]] + Unescape(v[1..])
    else if |v| >= 3 && HexValue(v[1]) >= 0 && HexValue(v[2]) >= 0 then
      [(16 * HexValue(v[1]) + HexValue(v[2])) as char] + Unescape(v[3..])
    else [v[1]] + Unescape(v[2..])
  }

  lemma {:induction false} UnescapeNothing()
    ensures Unescape("") == ""
  {
  }

  lemma {:induction false} UnescapeAt(v: string, i: nat)
    requires i < |v|
    ensures var u := Unescape(v[i..]);
            if v[i] != '\\' || i + 1 == |v| then u == [v[i]] + Unescape(v[i + 1..])
            else if i + 2 < |v| && HexValue(v[i + 1]) >= 0 && HexValue(v[i + 2]) >= 0 then
              u == [(16 * HexValue(v[i + 1]) + HexValue(v[i + 2])) as char] + Unescape(v[i + 3..])
            else u == [v[i + 1]] + Unescape(v[i + 2..])
  {
    var rest := v[i..];
    assert rest[1..] == v[i + 1..];
    assert i + 1 < |v| ==> rest[2..] == v[i + 2..];
    assert i + 2 < |v| ==> rest[3..] == v[i + 3..];
  }

  method UnescapeDNValue(value: string) returns (b: string)
    ensures b == Unescape(value)
  {
    hide Unescape;
    UnescapeNothing();
    b := "";
    var i := 0;
    assert value[0..] == value;
    while i < |value|
      invariant 0 <= i <= |value|
      invariant Unescape(value) == b + Unescape(value[i..])
    {
      UnescapeAt(value, i);
      if value[i] != '\\' || i + 1 >= |value| {
        b := b + [value[i]];
      } else if i + 2 < |value| && HexValue(value[i + 1]) >= 0 && HexValue(value[i + 2]) >= 0 {
        b := b + [(16 * HexValue(value[i + 1]) + HexValue(value[i + 2])) as char];
        i := i + 2;
      } else {
        i := i + 1;
        b := b + [value[i]];
      }
      i := i + 1;
    }
    assert value[i..] == "" && b + "" == b;
  }

  // ---------- splitting ----------

  function SplitFrom(s: string, part: string, escaped: bool): (parts: seq<string>)
    ensures parts != []
    decreases |s|
  {
    if s == "" then [TrimSpace(part)]
    else if escaped then SplitFrom(s[1..], part + [s[0]], false)
    else if s[0] == '\\' then SplitFrom(s[1..], part + [s[0]], true)
    else if s[0] == ',' then [TrimSpace(part)] + SplitFrom(s[1..], "", false)
    else SplitFrom(s[1..], part + [s[0]], false)
  }

  function SplitDN(dn: string): (parts: seq<string>)
    ensures parts != []
  {
    SplitFrom(TrimSpace(dn), "", false)
  }

  method SplitDistinguishedName(dn: string) returns (parts: seq<string>)
    ensures parts == SplitDN(dn)
  {
    hide TrimSpace;
    parts := [];
    var b := "";
    var escaped := false;
    var s := TrimSpace(dn);
    assert s[0..] == s;
    assert [] + SplitDN(dn) == SplitDN(dn);
    for i := 0 to |s|
      invariant SplitDN(dn) == parts + SplitFrom(s[i..], b, escaped)
    {
      var r := s[i];
      assert s[i..][1..] == s[i + 1..];
      if escaped {
        b := b + [r];
        escaped := false;
        continue;
      }
      if r == '\\' {
        b := b + [r];
        escaped := true;
        continue;
      }
      if r == ',' {
        assert parts + ([TrimSpace(b)] + SplitFrom(s[i + 1..], "", false))
            == (parts + [TrimSpace(b)]) + SplitFrom(s[i + 1..], "", false);
        parts := parts + [TrimSpace(b)];
        b := "";
        continue;
      }
      b := b + [r];
    }
    parts := parts + [TrimSpace(b)];
  }

  // ---------- principals ----------

  function Attribute(k: Kind): string {
    match k
    case Organization => "ou"
    case Group => "cn"
    case Resource => "cn"
    case _ => "uid"
  }

  function Parent(k: Kind): string {
    match k
    case Organization => "ou=organizations"
    case Group => "ou=groups"
    case Resource => "ou=resources"
    case _ => "ou=users"
  }

  function Known(k: Kind): Kind {
    if k.Other? then User else k
  }

  function PrincipalDN(p: Principal, baseDN: string): string {
    (Attribute(p.kind) + "=" + Escape(p.id)) + ("," + (Parent(p.kind) + ("," + baseDN)))
  }

  function PrincipalFromDN(dn: string): Option<Principal> {
    var parts := SplitDN(dn);
    if |parts| < 2 then None else
    var first := TrimSpace(parts[0]);
    var i := IndexByte(first, '=');
    if i == |first| then None else
    var attr, value := ToLower(TrimSpace(first[..i])), Unescape(TrimSpace(first[i + 1..]));
    var parent := ToLower(TrimSpace(parts[1]));
    if attr == "uid" && parent == "ou=users" then Some(Principal(User, value))
    else if attr == "ou" && parent == "ou=organizations" then Some(Principal(Organization, value))
    else if attr == "cn" && parent == "ou=groups" then Some(Principal(Group, value))
    else if attr == "cn" && parent == "ou=resources" then Some(Principal(Resource, value))
    else None
  }

  // ---------- what escaping guarantees ----------

  lemma {:induction false} UnescapePlain(c: char, rest: string)
    requires c != '\\'
    ensures Unescape([c] + rest) == [c] + Unescape(rest)
    ensures Complete([c] + rest) == Complete(rest)
  {
    assert ([c] + rest)[1..] == rest;
  }

  lemma {:induction false} UnescapeHex(a: char, b: char, rest: string)
    requires HexValue(a) >= 0 && HexValue(b) >= 0
    ensures Unescape(['\\', a, b] + rest) == [(16 * HexValue(a) + HexValue(b)) as char] + Unescape(rest)
    ensures Complete(['\\', a, b] + rest) == Complete(rest)
  {
    assert (['\\', a, b] + rest)[3..] == rest;
  }

  /** A token stands for its byte. */
  lemma {:induction false} UnescapeToken(s: string, i: nat, rest: string)
    requires i < |s|
    ensures Unescape(Token(s, i) + rest) == [s[i]] + Unescape(rest)
    ensures Complete(Token(s, i) + rest) == Complete(rest)
  {
    hide Unescape, Complete;
    var c := s[i] as int;
    if NeedsEscape(s, i) {
      UnescapeHex(HexDigit(c / 16), HexDigit(c % 16), rest);
    } else {
      UnescapePlain(s[i], rest);
    }
  }

  /** Unescaping undoes escaping, whatever follows. */
  lemma {:induction false} UnescapeEscaped(s: string, n: nat, rest: string)
    requires n <= |s|
    ensures Unescape(EscapeUpTo(s, n) + rest) == s[..n] + Unescape(rest)
  {
    hide Unescape, Token;
    if n == 0 {
      assert EscapeUpTo(s, n) + rest == rest;
    } else {
      var t := Token(s, n - 1);
      Assoc(EscapeUpTo(s, n - 1), t, rest);
      UnescapeEscaped(s, n - 1, t + rest);
      UnescapeToken(s, n - 1, rest);
      assert s[..n] == s[..n - 1] + [s[n - 1]];
      Assoc(s[..n - 1], [s[n - 1]], Unescape(rest));
    }
  }

  lemma {:induction false} EscapeRoundTrip(s: string)
    ensures Unescape(Escape(s)) == s
  {
    UnescapeEscaped(s, |s|, "");
    assert Escape(s) + "" == Escape(s) && s[..|s|] + "" == s;
  }

  /** The splitter sees no separator in an escaped value. */
  lemma {:induction false} SplitSkipsEscaped(s: string, n: nat, rest: string, part: string)
    requires n <= |s|
    ensures SplitFrom(EscapeUpTo(s, n) + rest, part, false) == SplitFrom(rest, part + EscapeUpTo(s, n), false)
  {
    hide TrimSpace;
    if n == 0 {
      assert EscapeUpTo(s, n) + rest == rest && part + "" == part;
    } else {
      var e, t := EscapeUpTo(s, n - 1), Token(s, n - 1);
      Assoc(e, t, rest);
      SplitSkipsEscaped(s, n - 1, t + rest, part);
      TokenSkipped(s, n - 1, rest, part + e);
      Assoc(part, e, t);
    }
  }

  lemma {:induction false} TokenSkipped(s: string, i: nat, rest: string, part: string)
    requires i < |s|
    ensures SplitFrom(Token(s, i) + rest, part, false) == SplitFrom(rest, part + Token(s, i), false)
  {
    hide TrimSpace;
    var t := Token(s, i);
    if NeedsEscape(s, i) {
      assert t + rest == [t[0]] + ([t[1]] + ([t[2]] + rest));
      SplitPush(t[0], [t[1]] + ([t[2]] + rest), part, false);
      SplitPush(t[1], [t[2]] + rest, part + [t[0]], true);
      SplitPush(t[2], rest, part + [t[0]] + [t[1]], false);
      assert part + [t[0]] + [t[1]] + [t[2]] == part + t;
    } else {
      SplitPush(s[i], rest, part, false);
    }
  }

  lemma {:induction false} SplitPush(c: char, rest: string, part: string, escaped: bool)
    ensures escaped || c != ',' ==>
              SplitFrom([c] + rest, part, escaped) == SplitFrom(rest, part + [c], !escaped && c == '\\')
    ensures SplitFrom("," + rest, part, false) == [TrimSpace(part)] + SplitFrom(rest, "", false)
  {
    hide TrimSpace;
    assert ([c] + rest)[1..] == rest && ("," + rest)[1..] == rest;
  }

  lemma {:induction false} SplitPlain(s: string, rest: string, part: string)
    requires ',' !in s && '\\' !in s
    ensures SplitFrom(s + rest, part, false) == SplitFrom(rest, part + s, false)
  {
    hide TrimSpace, SplitFrom;
    if s == "" {
      assert s + rest == rest && part + s == part;
    } else {
      assert s == [s[0]] + s[1..] && s[0] in s;
      Assoc([s[0]], s[1..], rest);
      SplitPush(s[0], s[1..] + rest, part, false);
      SplitPlain(s[1..], rest, part + [s[0]]);
      Assoc(part, [s[0]], s[1..]);
    }
  }

  // ---------- what trimming takes away from an escaped value ----------

  /** Made of plain characters and complete hexadecimal escapes. */
  predicate Complete(v: string)
    decreases |v|
  {
    if v == "" then true
    else if v[0] != '\\' then Complete(v[1..])
    else |v| >= 3 && HexValue(v[1]) >= 0 && HexValue(v[2]) >= 0 && Complete(v[3..])
  }

  lemma {:induction false} EscapedIsComplete(s: string, n: nat, rest: string)
    requires n <= |s|
    ensures Complete(EscapeUpTo(s, n) + rest) == Complete(rest)
  {
    if n == 0 {
      assert EscapeUpTo(s, n) + rest == rest;
    } else {
      var t := Token(s, n - 1);
      Assoc(EscapeUpTo(s, n - 1), t, rest);
      EscapedIsComplete(s, n - 1, t + rest);
      UnescapeToken(s, n - 1, rest);
    }
  }

  predicate RawBytes(u: string) {
    forall i | 0 <= i < |u| :: u[i] != '\\' && HexValue(u[i]) < 0
  }

  lemma {:induction false} UnescapeRaw(u: string, v: string)
    requires RawBytes(u)
    ensures Unescape(u + v) == u + Unescape(v) && Complete(u + v) == Complete(v)
  {
    if u == "" {
      assert u + v == v;
    } else {
      assert (u + v)[1..] == u[1..] + v;
      UnescapeRaw(u[1..], v);
    }
  }

  /** An escape that starts a complete value is not continued by raw bytes. */
  lemma {:induction false} EscapeWithin(v: string, u: string)
    requires RawBytes(u) && Complete(v + u) && v != "" && v[0] == '\\'
    ensures |v| >= 3 && HexValue(v[1]) >= 0 && HexValue(v[2]) >= 0 && v == ['\\', v[1], v[2]] + v[3..] && Complete(v[3..] + u)
  {
    hide HexValue;
    var w := v + u;
    assert forall k | |v| <= k < |w| :: HexValue(w[k]) < 0;
    assert w[3..] == v[3..] + u;
  }

  lemma {:induction false} UnescapeBeforeRaw(v: string, u: string)
    requires RawBytes(u) && Complete(v + u)
    ensures Complete(v) && Unescape(v + u) == Unescape(v) + u
    decreases |v|
  {
    hide Unescape, HexValue;
    if v == "" {
      assert v + u == u && u + "" == u;
      UnescapeRaw(u, "");
      UnescapeNothing();
    } else if v[0] != '\\' {
      assert v == [v[0]] + v[1..];
      Assoc([v[0]], v[1..], u);
      UnescapePlain(v[0], v[1..] + u);
      UnescapePlain(v[0], v[1..]);
      UnescapeBeforeRaw(v[1..], u);
    } else {
      EscapeWithin(v, u);
      var t := ['\\', v[1], v[2]];
      assert v == t + v[3..];
      Assoc(t, v[3..], u);
      UnescapeHex(v[1], v[2], v[3..] + u);
      UnescapeHex(v[1], v[2], v[3..]);
      UnescapeBeforeRaw(v[3..], u);
    }
  }

  lemma {:induction false} SpacesAreRaw(s: string)
    ensures RawBytes(s[..LeadingSpace(s)]) && RawBytes(s[|s| - TrailingSpace(s)..])
  {
  }

  /** Trimming a complete value shortens what it unescapes to by as many bytes as it removes. */
  lemma {:induction false} UnescapeTrimmedRight(v: string)
    requires Complete(v)
    ensures Complete(TrimRight(v)) && |Unescape(TrimRight(v))| == |Unescape(v)| - (|v| - |TrimRight(v)|)
    decreases |v|
  {
    var n := TrailingSpace(v);
    if n > 0 {
      var front, u := v[..|v| - n], v[|v| - n..];
      SpacesAreRaw(v);
      assert v == front + u;
      UnescapeBeforeRaw(front, u);
      UnescapeTrimmedRight(front);
    }
  }

  lemma {:induction false} UnescapeTrimmedLeft(v: string)
    requires Complete(v)
    ensures Complete(TrimLeft(v)) && |Unescape(TrimLeft(v))| == |Unescape(v)| - (|v| - |TrimLeft(v)|)
    decreases |v|
  {
    var n := LeadingSpace(v);
    if n > 0 {
      SpacesAreRaw(v);
      assert v == v[..n] + v[n..];
      UnescapeRaw(v[..n], v[n..]);
      UnescapeTrimmedLeft(v[n..]);
    }
  }

  /** No white space at either end, other than the space character. */
  predicate EdgesSurvive(id: string) {
    && (LeadingSpace(id) == 0 || id[0] == ' ')
    && (TrailingSpace(id) == 0 || id[|id| - 1] == ' ')
  }

  lemma {:induction false} PrefixOfEscape(s: string, n: nat)
    requires n <= |s|
    ensures EscapeUpTo(s, n) <= Escape(s)
    decreases |s| - n
  {
    if n < |s| { PrefixOfEscape(s, n + 1); }
  }

  lemma {:induction false} EscapeLeading(id: string)
    ensures LeadingSpace(Escape(id)) == 0 <==> LeadingSpace(id) == 0 || id[0] == ' '
  {
    if id != "" {
      EscapeStart(id);
      hide Escape, EscapeUpTo;
    }
  }

  /** The first bytes of an escaped value. */
  lemma {:induction false} EscapeStart(id: string)
    requires id != ""
    ensures var e := Escape(id);
            && e != ""
            && (if NeedsEscape(id, 0) then e[0] == '\\' else
                && e[0] == id[0]
                && (|id| == 1 ==> |e| == 1)
                && (|id| > 1 ==> |e| > 1 && (if NeedsEscape(id, 1) then e[1] == '\\' else
                      && e[1] == id[1]
                      && (|id| == 2 ==> |e| == 2)
                      && (|id| > 2 ==> |e| > 2 && e[2] == if NeedsEscape(id, 2) then '\\' else id[2]))))
  {
    hide NeedsEscape;
    var e := Escape(id);
    PrefixOfEscape(id, 1);
    assert EscapeUpTo(id, 1) == Token(id, 0);
    if |id| >= 2 {
      PrefixOfEscape(id, 2);
      assert EscapeUpTo(id, 2) == Token(id, 0) + Token(id, 1);
    }
    if |id| >= 3 {
      PrefixOfEscape(id, 3);
      assert EscapeUpTo(id, 3) == Token(id, 0) + Token(id, 1) + Token(id, 2);
    }
  }

  /** A text that ends with a visible ASCII character ends with no white space. */
  lemma {:induction false} VisibleEnd(s: string)
    requires s != "" && '!' <= s[|s| - 1] <= '~'
    ensures TrailingSpace(s) == 0
  {
  }

  lemma {:induction false} EscapeTrailing(id: string)
    ensures TrailingSpace(Escape(id)) == 0 <==> TrailingSpace(id) == 0 || id[|id| - 1] == ' '
  {
    var n := |id|;
    if n >= 1 {
      assert Escape(id) == EscapeUpTo(id, n - 1) + Token(id, n - 1);
      if NeedsEscape(id, n - 1) {
        VisibleEnd(Escape(id));
        if id[n - 1] != ' ' && id[n - 1] != '\0' { VisibleEnd(id); }
      } else {
        PlainTrailing(id);
      }
    }
  }

  lemma {:induction false} PlainTrailing(id: string)
    requires id != "" && !NeedsEscape(id, |id| - 1)
    ensures TrailingSpace(Escape(id)) == 0 <==> TrailingSpace(id) == 0
  {
    var n := |id|;
    assert Escape(id) == EscapeUpTo(id, n - 1) + Token(id, n - 1);
    if n >= 2 {
      assert EscapeUpTo(id, n - 1) == EscapeUpTo(id, n - 2) + Token(id, n - 2);
    }
    if n >= 3 {
      assert EscapeUpTo(id, n - 2) == EscapeUpTo(id, n - 3) + Token(id, n - 3);
    }
  }

  // ---------- names of principals ----------

  lemma {:induction false} TrailingAfter(a: string, e: string)
    requires a != "" && '!' <= a[|a| - 1] <= '~'
    ensures TrailingSpace(a + e) == TrailingSpace(e)
  {
    var s, n := a + e, |a + e|;
    assert |e| >= 1 ==> s[n - 1] == e[|e| - 1];
    assert |e| >= 2 ==> s[n - 2] == e[|e| - 2];
    assert |e| >= 3 ==> s[n - 3] == e[|e| - 3];
    assert |e| == 0 ==> s[n - 1] == a[|a| - 1];
    assert |e| == 1 ==> s[n - 2] == a[|a| - 1];
    assert |e| == 2 ==> s[n - 3] == a[|a| - 1];
  }

  lemma {:induction false} TrimRightAfter(a: string, e: string)
    requires a != "" && '!' <= a[|a| - 1] <= '~'
    ensures TrimRight(a + e) == a + TrimRight(e)
    decreases |e|
  {
    TrailingAfter(a, e);
    hide TrailingSpace;
    var n := TrailingSpace(e);
    if n != 0 {
      assert (a + e)[..|a + e| - n] == a + e[..|e| - n];
      TrimRightAfter(a, e[..|e| - n]);
    }
  }

  lemma {:induction false} TrimAfter(a: string, e: string)
    requires a != "" && '!' <= a[0] <= '~' && '!' <= a[|a| - 1] <= '~'
    ensures TrimSpace(a + e) == a + TrimRight(e)
  {
    TrimRightAfter(a, e);
    assert (a + e)[0] == a[0];
  }

  lemma {:induction false} KindWords(k: Kind)
    ensures var a := Attribute(k) + "=";
            && ',' !in a && '\\' !in a && a != "" && '!' <= a[0] <= '~' && '!' <= a[|a| - 1] <= '~'
            && '=' !in Attribute(k) && TrimSpace(Attribute(k)) == Attribute(k) && ToLower(Attribute(k)) == Attribute(k)
    ensures var w := Parent(k);
            && ',' !in w && '\\' !in w && TrimSpace(w) == w && ToLower(w) == w
  {
    hide TrimSpace, ToLower, Parent;
    PlainWord(Attribute(k));
    ParentWord(k);
  }

  lemma {:induction false} ParentWord(k: Kind)
    ensures var w := Parent(k);
            && ',' !in w && '\\' !in w && TrimSpace(w) == w && ToLower(w) == w
  {
    hide TrimSpace, ToLower;
    PlainWord(Parent(k));
  }

  /** A word in lower case with visible ends is not changed by the reader. */
  lemma {:induction false} PlainWord(w: string)
    requires w != "" && '!' <= w[0] <= '~' && '!' <= w[|w| - 1] <= '~' && forall i | 0 <= i < |w| :: !('A' <= w[i] <= 'Z')
    ensures TrimSpace(w) == w && ToLower(w) == w
  {
    VisibleEnds(w);
    TrimmedIsFixed(w);
    LowerWord(w);
  }

  /** Splitting `attribute=escaped,parent,base`. */
  lemma {:induction false} SplitName(a: string, id: string, parent: string, base: string)
    requires ',' !in a && '\\' !in a && ',' !in parent && '\\' !in parent
    ensures SplitFrom(a + (Escape(id) + ("," + (parent + ("," + base)))), "", false)
            == [TrimSpace(a + Escape(id))] + ([TrimSpace(parent)] + SplitFrom(base, "", false))
  {
    hide TrimSpace, SplitFrom;
    var e, last := Escape(id), "," + base;
    var tail := "," + (parent + last);
    SplitPlain(a, e + tail, "");
    SplitSkipsEscaped(id, |id|, tail, a);
    SplitPush(',', parent + last, a + e, false);
    SplitPlain(parent, last, "");
    SplitPush(',', base, parent, false);
    assert "" + a == a && "" + parent == parent;
  }

  lemma {:induction false} TrimName(a: string, e: string, parent: string, base: string)
    requires a != "" && '!' <= a[0] <= '~'
    ensures TrimSpace((a + e) + ("," + (parent + ("," + base)))) == a + (e + ("," + (parent + ("," + TrimRight(base)))))
  {
    hide TrimSpace, TrimRight;
    var front := a + (e + ("," + (parent + ",")));
    var base' := TrimRight(base);
    TrimAfter(front, base);
    RegroupName(a, e, parent, base);
    RegroupName(a, e, parent, base');
    Assoc(a, e, "," + (parent + ("," + base')));
  }

  lemma {:induction false} RegroupName(a: string, e: string, parent: string, base: string)
    ensures (a + e) + ("," + (parent + ("," + base))) == (a + (e + ("," + (parent + ",")))) + base
  {
  }

  /** The parts the splitter finds in a principal's name. */
  lemma {:induction false} PartsOfName(p: Principal, baseDN: string)
    ensures var parts := SplitDN(PrincipalDN(p, baseDN));
            && |parts| >= 2
            && parts[0] == Attribute(p.kind) + "=" + TrimRight(Escape(p.id))
            && parts[1] == Parent(p.kind)
  {
    hide TrimSpace, TrimRight, SplitFrom, Attribute, Parent, ToLower;
    var a, e := Attribute(p.kind) + "=", Escape(p.id);
    KindWords(p.kind);
    TrimName(a, e, Parent(p.kind), baseDN);
    SplitName(a, p.id, Parent(p.kind), TrimRight(baseDN));
    TrimAfter(a, e);
  }

  lemma {:induction false} TrimRightIdempotent(s: string)
    ensures TrimRight(TrimRight(s)) == TrimRight(s)
  {
    RightTrimmed(s);
  }

  /** Reading a principal's name gives its kind back, and its identifier less what trimming removes. */
  lemma {:induction false} NameRead(p: Principal, baseDN: string)
    ensures PrincipalFromDN(PrincipalDN(p, baseDN))
            == Some(Principal(Known(p.kind), Unescape(TrimSpace(TrimRight(Escape(p.id))))))
  {
    PartsOfName(p, baseDN);
    KindWords(p.kind);
    TrimRightIdempotent(Escape(p.id));
    hide TrimSpace, TrimRight, SplitDN, Unescape, Escape, PrincipalDN, ToLower;
    var attr, e := Attribute(p.kind), TrimRight(Escape(p.id));
    TrimAfter(attr + "=", e);
    Assoc(attr, "=", e);
    IndexOfFirst(attr, '=', e);
    NameChosen(p.kind);
  }

  lemma {:induction false} NameChosen(k: Kind)
    ensures Attribute(k) == "uid" && Parent(k) == "ou=users" <==> Known(k) == User
    ensures Attribute(k) == "ou" && Parent(k) == "ou=organizations" <==> Known(k) == Organization
    ensures Attribute(k) == "cn" && Parent(k) == "ou=groups" <==> Known(k) == Group
    ensures Attribute(k) == "cn" && Parent(k) == "ou=resources" <==> Known(k) == Resource
  {
    assert "ou=users"[3] != "ou=groups"[3] && "ou=users"[3] != "ou=resources"[3];
  }

  /** Trimming keeps an escaped identifier exactly when its edges survive. */
  lemma {:induction false} TrimmedEscape(id: string)
    ensures Unescape(TrimSpace(TrimRight(Escape(id)))) == id <==> EdgesSurvive(id)
  {
    var e := Escape(id);
    EscapedIsComplete(id, |id|, "");
    assert e + "" == e;
    EscapeRoundTrip(id);
    EscapeLeading(id);
    EscapeTrailing(id);
    TrimShortens(e);
  }

  /** Trimming a complete value changes what it means exactly when it removes something. */
  lemma {:induction false} TrimShortens(e: string)
    requires Complete(e)
    ensures Unescape(TrimSpace(TrimRight(e))) == Unescape(e) <==> LeadingSpace(e) == 0 && TrailingSpace(e) == 0
  {
    hide Unescape, Complete, LeadingSpace, TrailingSpace;
    var r := TrimRight(e);
    UnescapeTrimmedRight(e);
    UnescapeTrimmedLeft(r);
    UnescapeTrimmedRight(TrimLeft(r));
    if Unescape(TrimSpace(r)) == Unescape(e) {
      assert |r| == |e| && |TrimLeft(r)| == |r|;
    }
  }

  /** Main result: a principal's name reads back as the principal exactly when its identifier has
      no white space other than spaces at its ends. */
  lemma {:induction false} NameRoundTrip(p: Principal, baseDN: string)
    ensures PrincipalFromDN(PrincipalDN(p, baseDN)) == Some(Principal(Known(p.kind), p.id)) <==> EdgesSurvive(p.id)
  {
    hide PrincipalFromDN, PrincipalDN, EdgesSurvive;
    NameRead(p, baseDN);
    TrimmedEscape(p.id);
  }

  /** Main result: under one base, different principals have different names. */
  lemma {:induction false} NamesAreDistinct(p: Principal, q: Principal, baseDN: string)
    requires PrincipalDN(p, baseDN) == PrincipalDN(q, baseDN)
    ensures Known(p.kind) == Known(q.kind) && p.id == q.id
  {
    KindWords(p.kind);
    KindWords(q.kind);
    NoComma(p.id, |p.id|);
    NoComma(q.id, |q.id|);
    hide TrimSpace, Escape, Attribute, Parent, Unescape, ToLower;
    var a, b := Attribute(p.kind), Attribute(q.kind);
    CutUnique(',', a + "=" + Escape(p.id), Parent(p.kind) + ("," + baseDN), b + "=" + Escape(q.id), Parent(q.kind) + ("," + baseDN));
    CutUnique(',', Parent(p.kind), baseDN, Parent(q.kind), baseDN);
    Assoc(a, "=", Escape(p.id));
    Assoc(b, "=", Escape(q.id));
    CutUnique('=', a, Escape(p.id), b, Escape(q.id));
    EscapeRoundTrip(p.id);
    EscapeRoundTrip(q.id);
    KindOfWords(p.kind, q.kind);
  }

  lemma {:induction false} KindOfWords(k: Kind, l: Kind)
    ensures Attribute(k) == Attribute(l) && Parent(k) == Parent(l) ==> Known(k) == Known(l)
  {
    NameChosen(k);
    NameChosen(l);
  }

  lemma {:induction false} NoComma(s: string, n: nat)
    requires n <= |s|
    ensures ',' !in EscapeUpTo(s, n)
  {
    if n > 0 {
      NoComma(s, n - 1);
    }
  }

  /** A leading tab is lost. */
  lemma {:induction false} TabIsLost(baseDN: string)
    ensures PrincipalFromDN(PrincipalDN(Principal(User, "\ta"), baseDN)) != Some(Principal(User, "\ta"))
  {
    hide PrincipalFromDN, PrincipalDN;
    NameRoundTrip(Principal(User, "\ta"), baseDN);
  }
}
