/** CalDAV resource paths: building, percent-encoding (section 2.1 of RFC 3986) and parsing. */
module CalendarPath {
  import opened Wrappers
  import opened Text

  const MAX_SEGMENT: nat := 200

  datatype Resource =
    | WellKnown
    | Root
    | PrincipalCollection
    | Principal(userID: string)
    | CalendarHome(userID: string)
    | Inbox(userID: string)
    | Outbox(userID: string)
    | Collection(userID: string, calendarID: string)
    | Object(userID: string, calendarID: string, objectName: string)

  datatype Error =
    | Required | TooLong | Reserved | Separator | LineBreak | Control | NotICS
    | EncodedSeparator | BadEscape | NotCanonical | Unsupported

  // ---------- segments ----------

  /** Go's `unicode.IsControl` on some character of the text. */
  predicate HasControl(s: string) {
    s != "" && (s[0] < ' ' || s[0] == 127 as char || (s[0] == 0xC2 as char && |s| > 1 && 0x80 as char <= s[1] < 0xA0 as char) || HasControl(s[1..]))
  }

  function ValidateSegment(s: string): Result<string, Error> {
    var v := TrimSpace(s);
    if v == "" then Err(Required)
    else if |v| > MAX_SEGMENT then Err(TooLong)
    else if v == "." || v == ".." then Err(Reserved)
    else if '/' in v || '\\' in v then Err(Separator)
    else if '\r' in v || '\n' in v then Err(LineBreak)
    else if HasControl(v) then Err(Control)
    else Ok(v)
  }

  function ValidateObjectName(s: string): Result<string, Error> {
    var v := ValidateSegment(s);
    if v.Ok? && !HasSuffix(ToLower(v.value), ".ics") then Err(NotICS) else v
  }

  // ---------- percent-encoding ----------

  predicate Unreserved(c: char) {
    'a' <= c <= 'z' || 'A' <= c <= 'Z' || '0' <= c <= '9' || c in "-_.~$&+:=@"
  }

  function UpperHex(n: nat): (c: char)
    requires n < 16
    ensures HexValue(c) == n && Unreserved(c)
  {
    if n < 10 then (n + 48) as char else (n + 55) as char
  }

  function EscapeByte(c: char): string {
    if Unreserved(c) then [c] else ['%', UpperHex(c as int / 16 % 16), UpperHex(c as int % 16)]
  }

  /** Go's `url.PathEscape`. */
  function PathEscape(s: string): string {
    if s == "" then "" else EscapeByte(s[0]) + PathEscape(s[1..])
  }

  /** Go's `url.PathUnescape`. */
  function PathUnescape(s: string): Option<string>
    decreases |s|
  {
    if s == "" then Some("")
    else if s[0] != '%' then After(s[0], PathUnescape(s[1..]))
    else if |s| < 3 || HexValue(s[1]) < 0 || HexValue(s[2]) < 0 then None
    else After((16 * HexValue(s[1]) + HexValue(s[2])) as char, PathUnescape(s[3..]))
  }

  function After(c: char, rest: Option<string>): Option<string> {
    if rest.None? then None else Some([c] + rest.value)
  }

  /** An encoded slash or backslash. */
  predicate StartsEncodedSeparator(s: string) {
    |s| >= 3 && s[0] == '%' && ((s[1] == '2' && (s[2] == 'f' || s[2] == 'F')) || (s[1] == '5' && (s[2] == 'c' || s[2] == 'C')))
  }

  predicate HasEncodedSeparator(s: string) {
    s != "" && (StartsEncodedSeparator(s) || HasEncodedSeparator(s[1..]))
  }

  /** An encoded separator shows up within so many rounds of decoding. */
  predicate HidesSeparator(s: string, rounds: nat)
    decreases rounds
  {
    rounds > 0 &&
    (HasEncodedSeparator(s) || (PathUnescape(s).Some? && PathUnescape(s).value != s && HidesSeparator(PathUnescape(s).value, rounds - 1)))
  }

  method ContainsEncodedPathSeparator(path: string) returns (found: bool)
    ensures found == HidesSeparator(path, 4)
  {
    hide HasEncodedSeparator, PathUnescape;
    var value := path;
    for i := 0 to 4
      invariant HidesSeparator(path, 4) == HidesSeparator(value, 4 - i)
    {
      if HasEncodedSeparator(value) { return true; }
      var decoded := PathUnescape(value);
      if decoded.None? || decoded.value == value { return false; }
      value := decoded.value;
    }
    return false;
  }

  // ---------- building ----------

  /** A path of decoded segments. */
  function PathOf(segments: seq<string>, slash: bool): string {
    "/" + (Join(segments, '/') + (if slash then "/" else ""))
  }

  function EscapeAll(segments: seq<string>): (escaped: seq<string>)
    ensures |escaped| == |segments|
  {
    if segments == [] then [] else [PathEscape(segments[0])] + EscapeAll(segments[1..])
  }

  /** The segments of a resource's path, once accepted, and whether the path ends with a slash. */
  function SegmentsOf(r: Resource): Result<(seq<string>, bool), Error> {
    if r.WellKnown? then Ok(([".well-known", "caldav"], false))
    else if r.Root? then Ok((["caldav"], false))
    else if r.PrincipalCollection? then Ok((["caldav", "principals"], false))
    else
      var u := ValidateSegment(r.userID);
      if u.Err? then Err(u.error)
      else if r.Principal? then Ok((["caldav", "principals", u.value], true))
      else if r.CalendarHome? then Ok((["caldav", "calendars", u.value], true))
      else if r.Inbox? then Ok((["caldav", "calendars", u.value, "inbox"], true))
      else if r.Outbox? then Ok((["caldav", "calendars", u.value, "outbox"], true))
      else
        var c := ValidateSegment(r.calendarID);
        if c.Err? then Err(c.error)
        else if r.Collection? then Ok((["caldav", "calendars", u.value, c.value], true))
        else
          var o := ValidateObjectName(r.objectName);
          if o.Err? then Err(o.error) else Ok((["caldav", "calendars", u.value, c.value, o.value], false))
  }

  /** The path builders. */
  function Build(r: Resource): Result<string, Error> {
    var s := SegmentsOf(r);
    if s.Err? then Err(s.error) else Ok(PathOf(EscapeAll(s.value.0), s.value.1))
  }

  // ---------- parsing ----------

  function CleanParts(parts: seq<string>, rooted: bool, kept: seq<string>): seq<string>
    decreases |parts|
  {
    if parts == [] then kept
    else if parts[0] == "" || parts[0] == "." then CleanParts(parts[1..], rooted, kept)
    else if parts[0] != ".." then CleanParts(parts[1..], rooted, kept + [parts[0]])
    else if kept != [] && kept[|kept| - 1] != ".." then CleanParts(parts[1..], rooted, kept[..|kept| - 1])
    else CleanParts(parts[1..], rooted, if rooted then kept else kept + [".."])
  }

  /** Go's `path.Clean`. */
  function Clean(path: string): string {
    var rooted := path != "" && path[0] == '/';
    var kept := Join(CleanParts(Split(path, '/'), rooted, []), '/');
    if rooted then "/" + kept else if kept == "" then "." else kept
  }

  function TrimSlashes(s: string): string
    decreases |s|
  {
    if s != "" && s[|s| - 1] == '/' then TrimSlashes(s[..|s| - 1]) else s
  }

  function TrimLeadingSlashes(s: string): string {
    if s != "" && s[0] == '/' then TrimLeadingSlashes(s[1..]) else s
  }

  function SplitPathSegments(path: string): seq<string> {
    var inner := TrimSlashes(TrimLeadingSlashes(path));
    if inner == "" then [] else Split(inner, '/')
  }

  function OneSlash(path: string): string {
    if path != "/" && HasSuffix(path, "/") then TrimSlashes(path) + "/" else path
  }

  predicate Canonical(path: string) {
    var cleaned := Clean(path);
    (if HasSuffix(path, "/") && cleaned != "/" then cleaned + "/" else cleaned) == path
  }

  function Resolve(segments: seq<string>): Result<Resource, Error> {
    if segments == [] || segments[0] != "caldav" then Err(Unsupported)
    else if |segments| == 2 && segments[1] == "principals" then Ok(PrincipalCollection)
    else if |segments| == 3 && segments[1] == "principals" then
      var u := ValidateSegment(segments[2]);
      if u.Err? then Err(u.error) else Ok(Principal(u.value))
    else if |segments| >= 3 && segments[1] == "calendars" then
      var u := ValidateSegment(segments[2]);
      if u.Err? then Err(u.error)
      else if |segments| == 3 then Ok(CalendarHome(u.value))
      else
        var c := ValidateSegment(segments[3]);
        if c.Err? then Err(c.error)
        else if |segments| == 4 then
          if c.value == "inbox" then Ok(Inbox(u.value))
          else if c.value == "outbox" then Ok(Outbox(u.value))
          else Ok(Collection(u.value, c.value))
        else if |segments| == 5 then
          var o := ValidateObjectName(segments[4]);
          if o.Err? then Err(o.error) else Ok(Object(u.value, c.value, o.value))
        else Err(Unsupported)
    else Err(Unsupported)
  }

  function ParseResourcePath(raw: string): Result<Resource, Error> {
    if raw == "" then Err(Required)
    else if '\r' in raw || '\n' in raw then Err(LineBreak)
    else if HidesSeparator(raw, 4) then Err(EncodedSeparator)
    else if PathUnescape(raw).None? then Err(BadEscape)
    else
      var parsed := OneSlash(PathUnescape(raw).value);
      if !Canonical(parsed) then Err(NotCanonical)
      else if parsed == "/.well-known/caldav" then Ok(WellKnown)
      else if parsed == "/caldav" || parsed == "/caldav/" then Ok(Root)
      else Resolve(SplitPathSegments(parsed))
  }

  // ---------- round trip ----------

  /** The resource a built path names: identifiers trimmed, and the two scheduling collections told apart. */
  function Named(r: Resource): Resource {
    if r.WellKnown? || r.Root? || r.PrincipalCollection? then r
    else
      var u := TrimSpace(r.userID);
      if r.Principal? then Principal(u)
      else if r.CalendarHome? then CalendarHome(u)
      else if r.Inbox? then Inbox(u)
      else if r.Outbox? then Outbox(u)
      else
        var c := TrimSpace(r.calendarID);
        if r.Object? then Object(u, c, TrimSpace(r.objectName))
        else if c == "inbox" then Inbox(u) else if c == "outbox" then Outbox(u) else Collection(u, c)
  }

  lemma {:induction false} ValidSegment(s: string)
    requires ValidateSegment(s).Ok? && Bytes(s)
    ensures var v := ValidateSegment(s).value;
            && v == TrimSpace(s) && ValidateSegment(v) == Ok(v)
            && BytesSegment(v)
  {
    hide HasControl, TrimSpace;
    var n := TrimmedResult(s);
  }

  predicate PlainSegment(s: string) {
    s != "" && s != "." && s != ".." && '/' !in s
  }

  // ---------- percent-encoding round trip ----------

  lemma {:induction false} EscapedHidesNothing(s: string, rest: string)
    requires Bytes(s) && '/' !in s && '\\' !in s
    ensures HasEncodedSeparator(PathEscape(s) + rest) == HasEncodedSeparator(rest)
  {
    if s == "" {
      assert "" + rest == rest;
    } else {
      var tail := PathEscape(s[1..]) + rest;
      Assoc(EscapeByte(s[0]), PathEscape(s[1..]), rest);
      EscapedHidesNothing(s[1..], rest);
      EscapedByteHidesNothing(s[0], tail);
    }
  }

  lemma {:induction false} EscapedByteHidesNothing(c: char, tail: string)
    requires c as int < 256 && c != '/' && c != '\\'
    ensures HasEncodedSeparator(EscapeByte(c) + tail) == HasEncodedSeparator(tail)
  {
    if Unreserved(c) {
      NoneAtStart(c, tail);
    } else {
      var h, l := UpperHex(c as int / 16 % 16), UpperHex(c as int % 16);
      assert EscapeByte(c) + tail == ['%'] + ([h] + ([l] + tail));
      NoneAtStart(l, tail);
      NoneAtStart(h, [l] + tail);
      var all := ['%'] + ([h] + ([l] + tail));
      assert all[0] == '%' && all[1] == h && all[2] == l && all[1..] == [h] + ([l] + tail);
      assert c as int == 16 * HexValue(h) + HexValue(l);
    }
  }

  lemma {:induction false} NoneAtStart(c: char, tail: string)
    requires c != '%'
    ensures HasEncodedSeparator([c] + tail) == HasEncodedSeparator(tail)
  {
    assert ([c] + tail)[1..] == tail;
  }

  function Glue(s: string, rest: Option<string>): Option<string> {
    if rest.None? then None else Some(s + rest.value)
  }

  lemma {:induction false} UnescapeEscaped(s: string, rest: string)
    requires Bytes(s)
    ensures PathUnescape(PathEscape(s) + rest) == Glue(s, PathUnescape(rest))
  {
    hide PathUnescape, EscapeByte;
    if s == "" {
      GlueNothing(PathUnescape(rest));
      assert "" + rest == rest;
    } else {
      var tail := PathEscape(s[1..]) + rest;
      Assoc(EscapeByte(s[0]), PathEscape(s[1..]), rest);
      UnescapeEscaped(s[1..], rest);
      UnescapeByte(s[0], tail);
      GlueMore(s, PathUnescape(rest));
    }
  }

  lemma {:induction false} GlueNothing(rest: Option<string>)
    ensures Glue("", rest) == rest
  {
    if rest.Some? {
      assert "" + rest.value == rest.value;
    }
  }

  lemma {:induction false} GlueMore(s: string, rest: Option<string>)
    requires s != ""
    ensures After(s[0], Glue(s[1..], rest)) == Glue(s, rest)
  {
    if rest.Some? {
      assert [s[0]] + (s[1..] + rest.value) == s + rest.value;
    }
  }

  lemma {:induction false} UnescapeByte(c: char, tail: string)
    requires c as int < 256
    ensures PathUnescape(EscapeByte(c) + tail) == After(c, PathUnescape(tail))
  {
    var all := EscapeByte(c) + tail;
    if Unreserved(c) {
      assert all[0] == c && all[1..] == tail;
    } else {
      UnescapeTriple(UpperHex(c as int / 16 % 16), UpperHex(c as int % 16), tail);
    }
  }

  lemma {:induction false} UnescapeTriple(h: char, l: char, tail: string)
    requires HexValue(h) >= 0 && HexValue(l) >= 0
    ensures PathUnescape(['%', h, l] + tail) == After((16 * HexValue(h) + HexValue(l)) as char, PathUnescape(tail))
  {
    hide HexValue;
    var all := ['%', h, l] + tail;
    assert all[0] == '%' && all[1] == h && all[2] == l && all[3..] == tail;
  }

  predicate PlainSegments(segments: seq<string>) {
    segments != [] && forall i | 0 <= i < |segments| :: BytesSegment(segments[i])
  }

  predicate BytesSegment(s: string) {
    PlainSegment(s) && Bytes(s) && '\\' !in s
  }

  lemma {:induction false} JoinMore(first: string, rest: seq<string>, tail: string)
    requires rest != []
    ensures Join([first] + rest, '/') + tail == first + ("/" + (Join(rest, '/') + tail))
  {
    assert ([first] + rest)[1..] == rest;
    Assoc(first + "/", Join(rest, '/'), tail);
    Assoc(first, "/", Join(rest, '/') + tail);
  }

  lemma {:induction false} EscapedJoin(segments: seq<string>, tail: string)
    requires PlainSegments(segments) && (tail == "" || tail == "/")
    ensures PathUnescape(Join(EscapeAll(segments), '/') + tail) == Some(Join(segments, '/') + tail)
    ensures !HasEncodedSeparator(Join(EscapeAll(segments), '/') + tail)
  {
    hide PathUnescape, HasEncodedSeparator, PathEscape;
    var first := segments[0];
    if |segments| == 1 {
      assert EscapeAll(segments) == [PathEscape(first)];
      PlainTail(tail);
      UnescapeEscaped(first, tail);
      EscapedHidesNothing(first, tail);
    } else {
      var rest := segments[1..];
      EscapedJoin(rest, tail);
      var next := Join(EscapeAll(rest), '/') + tail;
      assert segments == [first] + rest && EscapeAll(segments) == [PathEscape(first)] + EscapeAll(rest);
      JoinMore(first, rest, tail);
      JoinMore(PathEscape(first), EscapeAll(rest), tail);
      SlashFirst(next);
      UnescapeEscaped(first, "/" + next);
      EscapedHidesNothing(first, "/" + next);
    }
  }

  lemma {:induction false} PlainTail(tail: string)
    requires tail == "" || tail == "/"
    ensures PathUnescape(tail) == Some(tail) && !HasEncodedSeparator(tail)
  {
    if tail == "/" {
      assert tail == ['/'] + "";
      assert tail[1..] == "";
      assert PathUnescape(tail[1..]) == Some("");
    }
  }

  lemma {:induction false} SlashFirst(s: string)
    ensures PathUnescape("/" + s) == After('/', PathUnescape(s)) && HasEncodedSeparator("/" + s) == HasEncodedSeparator(s)
  {
    assert ("/" + s)[1..] == s;
  }

  /** Decoding a built path gives the path of its segments, and no encoded separator stands in it. */
  lemma {:induction false} EscapedPath(segments: seq<string>, slash: bool)
    requires PlainSegments(segments)
    ensures PathUnescape(PathOf(EscapeAll(segments), slash)) == Some(PathOf(segments, slash))
    ensures !HasEncodedSeparator(PathOf(EscapeAll(segments), slash))
  {
    hide PathUnescape, HasEncodedSeparator;
    var tail := if slash then "/" else "";
    EscapedJoin(segments, tail);
    SlashFirst(Join(EscapeAll(segments), '/') + tail);
  }

  lemma {:induction false} NoLineBreak(s: string)
    ensures '\r' !in PathEscape(s) && '\n' !in PathEscape(s)
  {
    hide EscapeByte;
    if s != "" {
      NoLineBreak(s[1..]);
      NoLineBreakInByte(s[0]);
    }
  }

  lemma {:induction false} NoLineBreakInByte(c: char)
    ensures '\r' !in EscapeByte(c) && '\n' !in EscapeByte(c)
  {
    hide UpperHex;
    assert !Unreserved('\r') && !Unreserved('\n');
  }

  lemma {:induction false} NoLineBreaks(segments: seq<string>, slash: bool)
    ensures '\r' !in PathOf(EscapeAll(segments), slash) && '\n' !in PathOf(EscapeAll(segments), slash)
  {
    JoinNoLineBreak(segments);
  }

  lemma {:induction false} JoinNoLineBreak(segments: seq<string>)
    ensures '\r' !in Join(EscapeAll(segments), '/') && '\n' !in Join(EscapeAll(segments), '/')
  {
    hide PathEscape;
    if segments != [] {
      NoLineBreak(segments[0]);
      JoinNoLineBreak(segments[1..]);
      assert EscapeAll(segments)[1..] == EscapeAll(segments[1..]);
    }
  }

  // ---------- canonical paths ----------

  lemma {:induction false} JoinEnds(segments: seq<string>)
    requires PlainSegments(segments)
    ensures var j := Join(segments, '/'); j != "" && j[0] != '/' && j[|j| - 1] != '/'
  {
    if |segments| > 1 {
      JoinEnds(segments[1..]);
      assert Join(segments, '/') == segments[0] + ['/'] + Join(segments[1..], '/');
    }
  }

  lemma {:induction false} JoinSlash(segments: seq<string>)
    requires segments != []
    ensures Join([""] + segments, '/') == "/" + Join(segments, '/')
    ensures Join(segments + [""], '/') == Join(segments, '/') + "/"
  {
    assert ([""] + segments)[1..] == segments;
    if |segments| == 1 {
      assert (segments + [""])[1..] == [""];
    } else {
      JoinSlash(segments[1..]);
      assert (segments + [""])[1..] == segments[1..] + [""];
      Assoc(segments[0] + "/", Join(segments[1..], '/'), "/");
    }
  }

  lemma {:induction false} CleanKeeps(segments: seq<string>, tail: seq<string>, kept: seq<string>)
    requires forall i | 0 <= i < |segments| :: PlainSegment(segments[i])
    requires tail == [] || tail == [""]
    ensures CleanParts(segments + tail, true, kept) == kept + segments
    decreases |segments|
  {
    if segments == [] {
      assert segments + tail == tail && kept + segments == kept;
      if tail != [] { assert tail[1..] == []; }
    } else {
      assert (segments + tail)[1..] == segments[1..] + tail;
      assert (kept + [segments[0]]) + segments[1..] == kept + segments;
      CleanKeeps(segments[1..], tail, kept + [segments[0]]);
    }
  }

  lemma {:induction false} CleanPath(segments: seq<string>, slash: bool)
    requires PlainSegments(segments)
    ensures Clean(PathOf(segments, slash)) == PathOf(segments, false)
  {
    hide CleanParts, Split, Join;
    var tail: seq<string> := if slash then [""] else [];
    var parts := [""] + (segments + tail);
    JoinSlash(segments);
    JoinSlash(segments + tail);
    assert segments + [] == segments && Join(segments, '/') + "" == Join(segments, '/');
    assert PathOf(segments, slash) == Join(parts, '/');
    forall p | p in parts ensures '/' !in p {
      if p in segments { assert BytesSegment(p); }
    }
    SplitJoin(parts, '/');
    SkipFirst(segments + tail);
    CleanKeeps(segments, tail, []);
    assert [] + segments == segments;
  }

  lemma {:induction false} SkipFirst(parts: seq<string>)
    ensures CleanParts([""] + parts, true, []) == CleanParts(parts, true, [])
  {
    assert ([""] + parts)[1..] == parts;
  }

  /** The path of plain segments is canonical and is taken apart into them. */
  lemma {:induction false} PlainPath(segments: seq<string>, slash: bool)
    requires PlainSegments(segments)
    ensures OneSlash(PathOf(segments, slash)) == PathOf(segments, slash)
    ensures Canonical(PathOf(segments, slash))
    ensures SplitPathSegments(PathOf(segments, slash)) == segments
  {
    hide Clean, Split, Join, TrimSlashes, TrimLeadingSlashes;
    var path, inner := PathOf(segments, slash), Join(segments, '/');
    JoinEnds(segments);
    CleanPath(segments, slash);
    assert inner + "" == inner;
    assert PathOf(segments, false) == "/" + inner;
    if slash {
      assert path == ("/" + inner) + "/";
    }
    EndsWithSlash(path);
    assert HasSuffix(path, "/") == slash;
    TrimsTo("/" + inner, slash);
    assert path == "/" + (if slash then inner + "/" else inner);
    TrimsFirst(if slash then inner + "/" else inner);
    TrimsTo(inner, slash);
    forall p | p in segments ensures '/' !in p {
      assert BytesSegment(p);
    }
    SplitJoin(segments, '/');
  }

  lemma {:induction false} EndsWithSlash(s: string)
    requires s != ""
    ensures HasSuffix(s, "/") <==> s[|s| - 1] == '/'
  {
    assert s[|s| - 1..] == [s[|s| - 1]];
  }

  lemma {:induction false} TrimsTo(s: string, slash: bool)
    requires s != "" && s[|s| - 1] != '/'
    ensures TrimSlashes(if slash then s + "/" else s) == s
  {
    assert (s + "/")[..|s|] == s;
  }

  lemma {:induction false} TrimsFirst(s: string)
    requires s != "" && s[0] != '/'
    ensures TrimLeadingSlashes("/" + s) == s
  {
    assert ("/" + s)[1..] == s;
  }

  // ---------- main results ----------

  predicate ByteFields(r: Resource) {
    && (!(r.WellKnown? || r.Root? || r.PrincipalCollection?) ==> Bytes(r.userID))
    && (r.Collection? || r.Object? ==> Bytes(r.calendarID))
    && (r.Object? ==> Bytes(r.objectName))
  }

  lemma {:induction false} BuiltSegments(r: Resource)
    requires ByteFields(r) && SegmentsOf(r).Ok?
    ensures PlainSegments(SegmentsOf(r).value.0)
    ensures !r.WellKnown? && !r.Root? ==> Resolve(SegmentsOf(r).value.0) == Ok(Named(r))
  {
    hide ValidateSegment, ValidateObjectName, TrimSpace, BytesSegment;
    assert FixedWords() by { FixedWordsArePlain(); }
    if !(r.WellKnown? || r.Root? || r.PrincipalCollection?) {
      ValidSegment(r.userID);
      if r.Object? {
        ValidObject(r);
      } else if r.Collection? {
        ValidSegment(r.calendarID);
      } else if r.Inbox? || r.Outbox? {
        FixedSegments();
      }
    }
  }

  lemma {:induction false} ValidObject(r: Resource)
    requires ByteFields(r) && r.Object? && SegmentsOf(r).Ok?
    ensures PlainSegments(SegmentsOf(r).value.0) && Resolve(SegmentsOf(r).value.0) == Ok(Named(r))
  {
    hide ValidateSegment, TrimSpace, BytesSegment, ToLower, HasSuffix;
    assert FixedWords() by { FixedWordsArePlain(); }
    ValidSegment(r.userID);
    ValidSegment(r.calendarID);
    ValidSegment(r.objectName);
  }

  lemma {:induction false} FixedWordsArePlain()
    ensures FixedWords()
  {
  }

  lemma {:induction false} FixedSegments()
    ensures ValidateSegment("inbox") == Ok("inbox") && ValidateSegment("outbox") == Ok("outbox")
  {
    hide ValidateSegment, TrimSpace;
    VisibleSegment("inbox");
    VisibleSegment("outbox");
  }

  lemma {:induction false} VisibleSegment(s: string)
    requires forall i | 0 <= i < |s| :: '!' <= s[i] <= '~' && s[i] != '/' && s[i] != '\\'
    requires 2 < |s| <= MAX_SEGMENT
    ensures ValidateSegment(s) == Ok(s) && TrimSpace(s) == s
  {
    VisibleEnds(s);
    TrimmedIsFixed(s);
    Visible(s);
    hide TrimSpace, HasControl;
  }

  lemma {:induction false} Visible(s: string)
    requires forall i | 0 <= i < |s| :: '!' <= s[i] <= '~'
    ensures !HasControl(s)
  {
    if s != "" {
      Visible(s[1..]);
    }
  }

  predicate FixedWords() {
    && BytesSegment("caldav") && BytesSegment(".well-known") && BytesSegment("principals")
    && BytesSegment("calendars") && BytesSegment("inbox") && BytesSegment("outbox")
  }

  /** The decoded path of an accepted resource. */
  function DecodedPath(r: Resource): string
    requires SegmentsOf(r).Ok?
  {
    PathOf(SegmentsOf(r).value.0, SegmentsOf(r).value.1)
  }

  lemma {:induction false} DecodesOnce(r: Resource)
    requires ByteFields(r) && Build(r).Ok?
    ensures PathUnescape(Build(r).value) == Some(DecodedPath(r))
    ensures HidesSeparator(Build(r).value, 4) == HidesSeparator(DecodedPath(r), 3)
  {
    hide SegmentsOf, PathUnescape, HasEncodedSeparator, PathOf;
    BuiltSegments(r);
    EscapedPath(SegmentsOf(r).value.0, SegmentsOf(r).value.1);
  }

  /** Main result: a built path is parsed back to the resource it names if and only if no encoded separator
      shows up within three rounds of decoding the path's own segments; otherwise it is refused. */
  lemma {:induction false} BuiltPathParses(r: Resource)
    requires ByteFields(r) && Build(r).Ok?
    ensures ParseResourcePath(Build(r).value) == if HidesSeparator(DecodedPath(r), 3) then Err(EncodedSeparator) else Ok(Named(r))
  {
    hide SegmentsOf, PathUnescape, HasEncodedSeparator, PathOf, HidesSeparator, OneSlash, Canonical, SplitPathSegments, Resolve;
    var (segments, slash) := SegmentsOf(r).value;
    BuiltSegments(r);
    DecodesOnce(r);
    NoLineBreaks(segments, slash);
    PlainPath(segments, slash);
    FixedPaths(r);
    PathNotEmpty(EscapeAll(segments), slash);
  }

  lemma {:induction false} PathNotEmpty(segments: seq<string>, slash: bool)
    ensures PathOf(segments, slash) != ""
  {
  }

  /** The paths that are recognised as a whole. */
  lemma {:induction false} FixedPaths(r: Resource)
    requires ByteFields(r) && SegmentsOf(r).Ok?
    ensures DecodedPath(r) == "/.well-known/caldav" <==> r.WellKnown?
    ensures DecodedPath(r) == "/caldav" || DecodedPath(r) == "/caldav/" <==> r.Root?
  {
    hide SegmentsOf, SplitPathSegments, PathOf, PlainSegments, OneSlash, Canonical;
    var (segments, slash) := SegmentsOf(r).value;
    BuiltSegments(r);
    FixedSegmentsOf(r);
    PlainPath(segments, slash);
    WholePaths();
  }

  lemma {:induction false} FixedSegmentsOf(r: Resource)
    requires SegmentsOf(r).Ok?
    ensures SegmentsOf(r).value.0 == [".well-known", "caldav"] <==> r.WellKnown?
    ensures SegmentsOf(r).value.0 == ["caldav"] <==> r.Root?
    ensures r.WellKnown? || r.Root? ==> !SegmentsOf(r).value.1
  {
    hide ValidateSegment, ValidateObjectName;
    var segments := SegmentsOf(r).value.0;
    assert !r.WellKnown? ==> segments[0] == "caldav";
    assert !r.WellKnown? && !r.Root? ==> |segments| > 1;
  }

  lemma {:induction false} WholePaths()
    ensures "/.well-known/caldav" == PathOf([".well-known", "caldav"], false) && SplitPathSegments("/.well-known/caldav") == [".well-known", "caldav"]
    ensures "/caldav" == PathOf(["caldav"], false) && SplitPathSegments("/caldav") == ["caldav"]
    ensures "/caldav/" == PathOf(["caldav"], true) && SplitPathSegments("/caldav/") == ["caldav"]
  {
    hide SplitPathSegments, OneSlash, Canonical, BytesSegment, Join;
    var two, one := [".well-known", "caldav"], ["caldav"];
    assert FixedWords() by { FixedWordsArePlain(); }
    assert BytesSegment(two[0]) && BytesSegment(two[1]);
    PlainPath(two, false);
    PlainPath(one, false);
    PlainPath(one, true);
    JoinOne("caldav");
    JoinTwo(".well-known", "caldav");
    assert "/" + (".well-known" + "/" + "caldav" + "") == "/.well-known/caldav";
    assert "/" + ("caldav" + "") == "/caldav";
    assert "/" + ("caldav" + "/") == "/caldav/";
  }

  lemma {:induction false} JoinOne(a: string)
    ensures Join([a], '/') == a
  {
  }

  lemma {:induction false} JoinTwo(a: string, b: string)
    ensures Join([a, b], '/') == a + "/" + b
  {
    assert [a, b][1..] == [b];
  }

  /** Main result: paths tell resources apart. */
  lemma {:induction false} BuildIsInjective(r: Resource, r': Resource)
    requires ByteFields(r) && ByteFields(r') && Build(r).Ok? && Build(r') == Build(r)
    ensures Named(r) == Named(r')
  {
    hide SegmentsOf, SplitPathSegments, PathOf, PathUnescape, HidesSeparator, Resolve, Named, OneSlash, Canonical, PlainSegments;
    DecodesOnce(r);
    DecodesOnce(r');
    BuiltSegments(r);
    BuiltSegments(r');
    FixedPaths(r);
    FixedPaths(r');
    PlainPath(SegmentsOf(r).value.0, SegmentsOf(r).value.1);
    PlainPath(SegmentsOf(r').value.0, SegmentsOf(r').value.1);
  }

  lemma {:induction false} SeparatorStays(left: string, s: string, right: string)
    requires HasEncodedSeparator(s)
    ensures HasEncodedSeparator(left + (s + right))
  {
    if left != "" {
      assert (left + (s + right))[1..] == left[1..] + (s + right);
      SeparatorStays(left[1..], s, right);
    } else {
      assert left + (s + right) == s + right;
      if !StartsEncodedSeparator(s) {
        assert (s + right)[1..] == s[1..] + right;
        assert "" + (s[1..] + right) == s[1..] + right;
        SeparatorStays("", s[1..], right);
      }
    }
  }

  /** A calendar id with an encoded separator, such as `a%2fb`, is accepted by the builder, and its path is
      refused by the parser. */
  lemma {:induction false} EncodedSeparatorIsRefused(u: string, c: string)
    requires Bytes(u) && Bytes(c) && Build(Collection(u, c)).Ok? && HasEncodedSeparator(TrimSpace(c))
    ensures ParseResourcePath(Build(Collection(u, c)).value) == Err(EncodedSeparator)
  {
    hide ValidateSegment, HasEncodedSeparator, PathUnescape, TrimSpace, ParseResourcePath, PathOf;
    var r := Collection(u, c);
    ValidSegment(u);
    ValidSegment(c);
    JoinFour(TrimSpace(u), TrimSpace(c));
    SeparatorStays("/caldav/calendars/" + TrimSpace(u) + "/", TrimSpace(c), "/");
    BuiltPathParses(r);
  }

  lemma {:induction false} EncodedSeparatorIsAccepted(u: string)
    requires ValidateSegment(u).Ok?
    ensures Build(Collection(u, "a%2fb")).Ok? && HasEncodedSeparator(TrimSpace("a%2fb"))
  {
    hide ValidateSegment, TrimSpace, HasEncodedSeparator;
    VisibleSegment("a%2fb");
    assert "a%2fb" == "a" + ("%2f" + "b");
    EncodedSlash();
    SeparatorStays("a", "%2f", "b");
  }

  lemma {:induction false} EncodedSlash()
    ensures HasEncodedSeparator("%2f")
  {
    assert StartsEncodedSeparator("%2f");
  }

  lemma {:induction false} JoinFour(u: string, c: string)
    ensures PathOf(["caldav", "calendars", u, c], true) == "/caldav/calendars/" + u + "/" + (c + "/")
  {
    var parts := ["caldav", "calendars", u, c];
    assert parts[1..] == ["calendars", u, c] && parts[1..][1..] == [u, c];
    JoinTwo(u, c);
    assert Join(parts[1..], '/') == "calendars" + "/" + Join([u, c], '/');
  }
}
