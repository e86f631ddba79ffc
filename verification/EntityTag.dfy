/** Entity-tag lists of `If-Match` and `If-None-Match` (sections 5.3, 8.8.3 and 13.1 of RFC 9110). */
module EntityTag {
  import opened Wrappers
  import opened Text

  datatype TagError = EmptyTag | MissingValue | NotQuoted | BadOpaque | BadList | LineBreak

  datatype Tag = Tag(value: string, weak: bool)

  datatype TagList = Wildcard | Tags(tags: seq<Tag>)

  // ---------- the grammar ----------

  /** One element of the opaque part of a tag: a plain character or an escaped backslash or quote. */
  datatype Item = Plain(c: char) | Escaped(c: char)

  predicate GoodItem(i: Item) {
    match i
    case Plain(c) => c != '"' && c != '\\' && c != '\r' && c != '\n'
    case Escaped(c) => c == '"' || c == '\\'
  }

  function RenderItem(i: Item): string {
    match i
    case Plain(c) => [c]
    case Escaped(c) => ['\\', c]
  }

  function Render(items: seq<Item>): string {
    if items == [] then "" else RenderItem(items[0]) + Render(items[1..])
  }

  ghost predicate Opaque(raw: string) {
    exists items: seq<Item> :: (forall i | i in items :: GoodItem(i)) && Render(items) == raw
  }

  function PrintTag(t: Tag): string {
    (if t.weak then "W/" else "") + ("\"" + (t.value + "\""))
  }

  /** A list element with the blanks written before it. */
  datatype Element = Element(pad: string, tag: Tag)

  function PrintElement(e: Element): string {
    e.pad + PrintTag(e.tag)
  }

  function PrintElements(es: seq<Element>): string
    requires es != []
  {
    if |es| == 1 then PrintElement(es[0]) else PrintElement(es[0]) + ("," + PrintElements(es[1..]))
  }

  function Parts(es: seq<Element>): seq<string> {
    if es == [] then [] else [PrintElement(es[0])] + Parts(es[1..])
  }

  function TagsIn(es: seq<Element>): (tags: seq<Tag>)
    ensures |tags| == |es| && forall i | 0 <= i < |es| :: tags[i] == es[i].tag
  {
    if es == [] then [] else [es[0].tag] + TagsIn(es[1..])
  }

  ghost predicate GoodElements(es: seq<Element>) {
    forall e | e in es :: Blank(e.pad) && Opaque(e.tag.value)
  }

  // ---------- splitting a list ----------

  /** The parts of a list whose current part so far is `part`. */
  function Scan(s: string, part: string, inQuote: bool, escaped: bool): Result<seq<string>, TagError>
    decreases |s|
  {
    if s == "" then (if escaped || inQuote then Err(BadList) else Ok([part]))
    else if escaped then Scan(s[1..], part + [s[0]], inQuote, false)
    else if s[0] == '\\' then Scan(s[1..], part + [s[0]], inQuote, true)
    else if s[0] == '"' then Scan(s[1..], part + [s[0]], !inQuote, false)
    else if s[0] == ',' && !inQuote then Prepend(Scan(s[1..], "", false, false), [part])
    else Scan(s[1..], part + [s[0]], inQuote, false)
  }

  function SplitList(s: string): Result<seq<string>, TagError> {
    Scan(s, "", false, false)
  }

  method SplitHTTPList(value: string) returns (r: Result<seq<string>, TagError>)
    ensures r == SplitList(value)
  {
    var parts: seq<string> := [];
    var start, inQuote, escaped := 0, false, false;
    var i := 0;
    assert value[0..] == value;
    PrependEmpty(SplitList(value));
    while i < |value|
      invariant 0 <= start <= i <= |value|
      invariant SplitList(value) == Prepend(Scan(value[i..], value[start..i], inQuote, escaped), parts)
    {
      var c := value[i];
      assert value[i..][1..] == value[i + 1..] && value[start..i] + [c] == value[start..i + 1];
      i := i + 1;
      if escaped {
        escaped := false;
        continue;
      }
      if c == '\\' {
        escaped := true;
        continue;
      }
      if c == '"' {
        inQuote := !inQuote;
        continue;
      }
      if c == ',' && !inQuote {
        PrependMore(Scan(value[i..], "", false, false), [value[start..i - 1]], parts);
        parts := parts + [value[start..i - 1]];
        start := i;
        assert value[start..i] == "";
      }
    }
    if escaped {
      return Err(BadList);
    }
    if inQuote {
      return Err(BadList);
    }
    parts := parts + [value[start..]];
    assert value[start..i] == value[start..];
    return Ok(parts);
  }

  /** Where a scan stands: the parts before the current one, the current one, and how a character is taken. */
  datatype Point = Point(before: seq<string>, part: string, inQuote: bool, escaped: bool)

  function ScanTo(s: string, part: string, inQuote: bool, escaped: bool): Point
    decreases |s|
  {
    if s == "" then Point([], part, inQuote, escaped)
    else if escaped then ScanTo(s[1..], part + [s[0]], inQuote, false)
    else if s[0] == '\\' then ScanTo(s[1..], part + [s[0]], inQuote, true)
    else if s[0] == '"' then ScanTo(s[1..], part + [s[0]], !inQuote, false)
    else if s[0] == ',' && !inQuote then
      var p := ScanTo(s[1..], "", false, false);
      p.(before := [part] + p.before)
    else ScanTo(s[1..], part + [s[0]], inQuote, false)
  }

  lemma {:induction false} ScanContinues(a: string, b: string, part: string, inQuote: bool, escaped: bool)
    ensures var p := ScanTo(a, part, inQuote, escaped); Scan(a + b, part, inQuote, escaped) == Prepend(Scan(b, p.part, p.inQuote, p.escaped), p.before)
    decreases |a|
  {
    var s := a + b;
    if a == "" {
      assert s == b;
      PrependEmpty(Scan(b, part, inQuote, escaped));
    } else {
      assert s[1..] == a[1..] + b;
      if !escaped && a[0] == ',' && !inQuote {
        ScanContinues(a[1..], b, "", false, false);
        var p := ScanTo(a[1..], "", false, false);
        PrependMore(Scan(b, p.part, p.inQuote, p.escaped), p.before, [part]);
      } else {
        ScanContinues(a[1..], b, part + [a[0]],
                      if !escaped && a[0] == '"' then !inQuote else inQuote,
                      !escaped && a[0] == '\\');
      }
    }
  }

  /** Main result: splitting the comma-joined text of two header lines is splitting each and putting the parts
      together, if and only if the first splits. If it ends within quotes, or after a backslash, the comma and the
      start of the second line go on with its last part. */
  lemma {:induction false} RepeatedLinesSplit(a: string, b: string)
    ensures var p := ScanTo(a, "", false, false);
            && (SplitList(a).Ok? <==> !p.inQuote && !p.escaped)
            && SplitList(a + ("," + b)) == if SplitList(a).Ok? then Prepend(SplitList(b), SplitList(a).value)
                                           else Prepend(Scan(b, p.part + [','], p.inQuote, false), p.before)
  {
    var p := ScanTo(a, "", false, false);
    assert a + "" == a;
    ScanContinues(a, "", "", false, false);
    ScanContinues(a, "," + b, "", false, false);
    assert ("," + b)[1..] == b;
    if SplitList(a).Ok? {
      PrependMore(SplitList(b), [p.part], p.before);
    }
  }

  /** A tag cut in two between the lines: neither line splits, and together they are one tag with a comma. */
  lemma {:induction false} QuoteClosesInNextLine()
    ensures SplitList("\"x") == Err(BadList) && SplitList("y\"") == Err(BadList) && SplitList("\"x" + ("," + "y\"")) == Ok(["\"x,y\""])
  {
    var a, b := "\"x", "y\"";
    assert a[1..] == "x" && b[1..] == "\"" && "x"[1..] == "" && "\""[1..] == "";
    RepeatedLinesSplit(a, b);
    assert "" + ['"'] == "\"" && "\"" + ['x'] == a && a + [','] + ['y'] + ['"'] == "\"x,y\"";
    assert ScanTo(a, "", false, false) == Point([], a, true, false);
    assert Scan(b, a + [','], true, false) == Ok(["\"x,y\""]);
    PrependEmpty(Scan(b, a + [','], true, false));
  }

  lemma {:induction false} ScanPlain(c: char, rest: string, part: string, inQuote: bool)
    requires c != '"' && c != '\\' && (c == ',' ==> inQuote)
    ensures Scan([c] + rest, part, inQuote, false) == Scan(rest, part + [c], inQuote, false)
  {
    assert ([c] + rest)[1..] == rest;
  }

  lemma {:induction false} ScanEscaped(c: char, rest: string, part: string, inQuote: bool)
    ensures Scan(['\\', c] + rest, part, inQuote, false) == Scan(rest, part + ['\\', c], inQuote, false)
  {
    var s := ['\\', c] + rest;
    assert s[1..] == [c] + rest && s[1..][1..] == rest;
    assert part + ['\\'] + [c] == part + ['\\', c];
  }

  /** Inside quotes, rendered items are one stretch of the current part. */
  lemma {:induction false} ScanItems(items: seq<Item>, rest: string, part: string)
    requires forall i | i in items :: GoodItem(i)
    ensures Scan(Render(items) + rest, part, true, false) == Scan(rest, part + Render(items), true, false)
  {
    hide Scan;
    if items == [] {
      assert Render(items) + rest == rest && part + Render(items) == part;
    } else {
      var i, tail := items[0], items[1..];
      assert GoodItem(i);
      Assoc(RenderItem(i), Render(tail), rest);
      match i {
        case Plain(c) => ScanPlain(c, Render(tail) + rest, part, true);
        case Escaped(c) => ScanEscaped(c, Render(tail) + rest, part, true);
      }
      ScanItems(tail, rest, part + RenderItem(i));
      Assoc(part, RenderItem(i), Render(tail));
    }
  }

  lemma {:induction false} ScanBlank(pad: string, rest: string, part: string)
    requires Blank(pad)
    ensures Scan(pad + rest, part, false, false) == Scan(rest, part + pad, false, false)
  {
    if pad == "" {
      assert pad + rest == rest && part + pad == part;
    } else {
      var c, tail := [pad[0]], pad[1..];
      assert pad == c + tail;
      Assoc(c, tail, rest);
      ScanPlain(pad[0], tail + rest, part, false);
      ScanBlank(tail, rest, part + c);
      Assoc(part, c, tail);
    }
  }

  lemma {:induction false} ScanQuoted(value: string, part: string)
    requires Opaque(value)
    ensures Scan("\"" + (value + "\""), part, false, false) == Ok([part + ("\"" + (value + "\""))])
  {
    var items :| (forall i | i in items :: GoodItem(i)) && Render(items) == value;
    var q := "\"" + (value + "\"");
    assert q[1..] == value + "\"";
    ScanItems(items, "\"", part + ['"']);
    assert Scan("\"", part + ['"'] + value, true, false) == Ok([part + ['"'] + value + ['"']]);
    assert part + ['"'] + value + ['"'] == part + q;
  }

  lemma {:induction false} ScanTag(t: Tag, part: string)
    requires Opaque(t.value)
    ensures Scan(PrintTag(t), part, false, false) == Ok([part + PrintTag(t)])
  {
    hide Scan, Opaque;
    var quoted := "\"" + (t.value + "\"");
    if t.weak {
      assert "W/" + quoted == ['W'] + (['/'] + quoted);
      ScanPlain('W', ['/'] + quoted, part, false);
      ScanPlain('/', quoted, part + ['W'], false);
      ScanQuoted(t.value, part + ['W'] + ['/']);
      assert part + ['W'] + ['/'] + quoted == part + ("W/" + quoted);
    } else {
      ScanQuoted(t.value, part);
      assert "" + quoted == quoted;
    }
  }

  lemma {:induction false} ElementIsOnePart(e: Element)
    requires Blank(e.pad) && Opaque(e.tag.value)
    ensures SplitList(PrintElement(e)) == Ok([PrintElement(e)])
  {
    ScanBlank(e.pad, PrintTag(e.tag), "");
    ScanTag(e.tag, e.pad);
    assert "" + e.pad == e.pad;
  }

  lemma {:induction false} ElementsSplit(es: seq<Element>)
    requires es != [] && GoodElements(es)
    ensures SplitList(PrintElements(es)) == Ok(Parts(es))
  {
    hide Scan, PrintElement, Opaque;
    assert es[0] in es;
    ElementIsOnePart(es[0]);
    if |es| == 1 {
      assert Parts(es) == [PrintElement(es[0])];
    } else {
      ElementsSplit(es[1..]);
      RepeatedLinesSplit(PrintElement(es[0]), PrintElements(es[1..]));
    }
  }

  // ---------- one tag ----------

  /** The check of a tag's opaque part. */
  predicate OpaqueText(raw: string)
    decreases |raw|
  {
    if raw == "" then true
    else if raw[0] == '"' || raw[0] == '\r' || raw[0] == '\n' then false
    else if raw[0] == '\\' then |raw| > 1 && (raw[1] == '\\' || raw[1] == '"') && OpaqueText(raw[2..])
    else OpaqueText(raw[1..])
  }

  /** The check accepts exactly what the grammar generates. */
  lemma {:induction false} OpaqueTextIsOpaque(raw: string)
    ensures OpaqueText(raw) <==> Opaque(raw)
    decreases |raw|
  {
    if OpaqueText(raw) {
      var items := ItemsOf(raw);
    }
    if Opaque(raw) {
      var items :| (forall i | i in items :: GoodItem(i)) && Render(items) == raw;
      RenderedIsOpaque(items);
    }
  }

  lemma {:induction false} ItemsOf(raw: string) returns (items: seq<Item>)
    requires OpaqueText(raw)
    ensures (forall i | i in items :: GoodItem(i)) && Render(items) == raw
    decreases |raw|
  {
    if raw == "" {
      items := [];
    } else if raw[0] == '\\' {
      var rest := ItemsOf(raw[2..]);
      items := [Escaped(raw[1])] + rest;
      assert items[1..] == rest && raw == ['\\', raw[1]] + raw[2..];
    } else {
      var rest := ItemsOf(raw[1..]);
      items := [Plain(raw[0])] + rest;
      assert items[1..] == rest;
    }
  }

  lemma {:induction false} RenderedIsOpaque(items: seq<Item>)
    requires forall i | i in items :: GoodItem(i)
    ensures OpaqueText(Render(items))
  {
    if items != [] {
      RenderedIsOpaque(items[1..]);
      assert GoodItem(items[0]);
      var r := Render(items);
      if items[0].Plain? {
        assert r[1..] == Render(items[1..]);
      } else {
        assert r[2..] == Render(items[1..]);
      }
    }
  }

  function ParseTag(text: string): Result<Tag, TagError> {
    var v := TrimSpace(text);
    if v == "" then Err(EmptyTag) else
    var weak := HasPrefix(v, "W/");
    var q := if weak then TrimSpace(v[2..]) else v;
    if weak && q == "" then Err(MissingValue)
    else if |q| < 2 || q[0] != '"' || q[|q| - 1] != '"' then Err(NotQuoted)
    else if OpaqueText(q[1..|q| - 1]) then Ok(Tag(q[1..|q| - 1], weak))
    else Err(BadOpaque)
  }

  method ParseEntityTag(text: string) returns (r: Result<Tag, TagError>)
    ensures r == ParseTag(text)
  {
    hide TrimSpace;
    var value := TrimSpace(text);
    if value == "" {
      return Err(EmptyTag);
    }
    var weak := false;
    if HasPrefix(value, "W/") {
      weak := true;
      value := TrimSpace(value[2..]);
      if value == "" {
        return Err(MissingValue);
      }
    }
    if |value| < 2 || value[0] != '"' || value[|value| - 1] != '"' {
      return Err(NotQuoted);
    }
    var raw := value[1..|value| - 1];
    var ok := CheckOpaque(raw);
    if !ok {
      return Err(BadOpaque);
    }
    return Ok(Tag(raw, weak));
  }

  method CheckOpaque(raw: string) returns (ok: bool)
    ensures ok == OpaqueText(raw)
  {
    var i := 0;
    assert raw[0..] == raw;
    while i < |raw|
      invariant 0 <= i <= |raw|
      invariant OpaqueText(raw) == OpaqueText(raw[i..])
    {
      if raw[i] == '"' {
        return false;
      }
      if raw[i] == '\r' || raw[i] == '\n' {
        return false;
      }
      assert i + 1 < |raw| ==> raw[i..][2..] == raw[i + 2..];
      assert raw[i..][1..] == raw[i + 1..];
      if raw[i] == '\\' {
        i := i + 1;
        if i >= |raw| {
          return false;
        }
        if raw[i] != '\\' && raw[i] != '"' {
          return false;
        }
      }
      i := i + 1;
    }
    return true;
  }

  lemma {:induction false} PrintedTagParses(t: Tag, pad: string)
    requires Opaque(t.value) && Blank(pad)
    ensures ParseTag(pad + PrintTag(t)) == Ok(t)
  {
    hide TrimSpace, Trimmed;
    OpaqueTextIsOpaque(t.value);
    var s, q := PrintTag(t), "\"" + (t.value + "\"");
    VisibleEnds(s);
    TrimPadded(pad, s, "");
    assert s + "" == s;
    assert q[1..|q| - 1] == t.value;
    if t.weak {
      assert s[2..] == q;
      VisibleEnds(q);
      TrimmedIsFixed(q);
    } else {
      assert s == q && q[0] != "W/"[0];
    }
  }

  // ---------- a whole header ----------

  /** The tags of the given parts. */
  function TagsOf(parts: seq<string>): Result<seq<Tag>, TagError> {
    if parts == [] then Ok([])
    else if TrimSpace(parts[0]) == "*" then Err(BadList)
    else
      var t := ParseTag(TrimSpace(parts[0]));
      if t.Err? then Err(BadList) else
      var rest := TagsOf(parts[1..]);
      if rest.Err? then rest else Ok([t.value] + rest.value)
  }

  function ParseList(text: string): Result<TagList, TagError> {
    var header := TrimSpace(text);
    if header == "" then Ok(Tags([]))
    else if '\r' in header || '\n' in header then Err(LineBreak)
    else
      var parts := SplitList(header);
      if parts.Err? then Err(parts.error)
      else if |parts.value| == 1 && TrimSpace(parts.value[0]) == "*" then Ok(Wildcard)
      else
        var tags := TagsOf(parts.value);
        if tags.Err? then Err(tags.error) else Ok(Tags(tags.value))
  }

  method ParseHTTPEntityTagList(text: string) returns (r: Result<TagList, TagError>)
    ensures r == ParseList(text)
  {
    hide TrimSpace, Scan, ParseTag;
    var header := TrimSpace(text);
    if header == "" {
      return Ok(Tags([]));
    }
    if '\r' in header || '\n' in header {
      return Err(LineBreak);
    }
    var split := SplitHTTPList(header);
    if split.Err? {
      return Err(split.error);
    }
    var parts := split.value;
    if |parts| == 1 && TrimSpace(parts[0]) == "*" {
      return Ok(Wildcard);
    }
    var tags: seq<Tag> := [];
    var i := 0;
    assert parts[0..] == parts;
    assert TagsOf(parts).Ok? ==> [] + TagsOf(parts).value == TagsOf(parts).value;
    while i < |parts|
      invariant 0 <= i <= |parts|
      invariant TagsOf(parts) == var rest := TagsOf(parts[i..]); if rest.Err? then rest else Ok(tags + rest.value)
    {
      var part := TrimSpace(parts[i]);
      assert parts[i..][1..] == parts[i + 1..];
      if part == "*" {
        return Err(BadList);
      }
      var tag := ParseEntityTag(part);
      if tag.Err? {
        return Err(BadList);
      }
      ghost var rest := TagsOf(parts[i + 1..]);
      assert rest.Ok? ==> tags + ([tag.value] + rest.value) == (tags + [tag.value]) + rest.value;
      tags := tags + [tag.value];
      i := i + 1;
    }
    assert parts[i..] == [] && TagsOf([]) == Ok([]) && tags + [] == tags;
    return Ok(Tags(tags));
  }

  lemma {:induction false} ElementsParse(es: seq<Element>)
    requires GoodElements(es)
    ensures TagsOf(Parts(es))
            == Ok(TagsIn(es))
  {
    hide TrimSpace, Trimmed, ParseTag, PrintTag, Opaque;
    if es != [] {
      assert es[0] in es;
      ElementsParse(es[1..]);
      ElementParses(es[0]);
    }
  }

  lemma {:induction false} ElementParses(e: Element)
    requires Blank(e.pad) && Opaque(e.tag.value)
    ensures TrimSpace(PrintElement(e)) != "*" && ParseTag(TrimSpace(PrintElement(e))) == Ok(e.tag)
  {
    hide TrimSpace, Trimmed, ParseTag, Opaque;
    var s := PrintTag(e.tag);
    VisibleEnds(s);
    TrimPadded(e.pad, s, "");
    assert s + "" == s && "" + s == s;
    PrintedTagParses(e.tag, "");
    assert |s| > 1;
  }

  lemma {:induction false} PrintedList(es: seq<Element>)
    requires es != [] && GoodElements(es)
    ensures var s := PrintElements(es);
            && s != "" && s[|s| - 1] == '"'
            && (es[0].pad == "" ==> '!' <= s[0] <= '~')
            && '\r' !in s && '\n' !in s
  {
    var e := es[0];
    assert e in es;
    OpaqueTextIsOpaque(e.tag.value);
    NoLineBreaks(e.tag.value);
    var s := PrintElement(e);
    assert s != "" && s[|s| - 1] == '"' && '\r' !in s && '\n' !in s;
    if |es| > 1 {
      PrintedList(es[1..]);
    }
  }

  lemma {:induction false} NoLineBreaks(raw: string)
    requires OpaqueText(raw)
    ensures '\r' !in raw && '\n' !in raw
    decreases |raw|
  {
    if raw != "" {
      if raw[0] == '\\' {
        NoLineBreaks(raw[2..]);
        assert raw == [raw[0], raw[1]] + raw[2..];
      } else {
        NoLineBreaks(raw[1..]);
        assert raw == [raw[0]] + raw[1..];
      }
    }
  }

  /** Main result: parsing a printed list returns exactly its tags, in order. */
  lemma {:induction false} ListRoundTrip(es: seq<Element>)
    requires es != [] && es[0].pad == "" && GoodElements(es)
    ensures ParseList(PrintElements(es)) == Ok(Tags(TagsIn(es)))
  {
    hide TrimSpace, Trimmed;
    var s := PrintElements(es);
    assert es[0] in es;
    PrintedList(es);
    VisibleEnds(s);
    TrimmedIsFixed(s);
    ElementsSplit(es);
    ElementsParse(es);
    ElementParses(es[0]);
  }

  // ---------- the conditions ----------

  predicate TagsMatch(current: Tag, candidate: Tag, allowWeak: bool) {
    if !allowWeak && (current.weak || candidate.weak) then false else current.value == candidate.value
  }

  predicate AnyMatches(current: Tag, tags: seq<Tag>, allowWeak: bool) {
    exists i | 0 <= i < |tags| :: TagsMatch(current, tags[i], allowWeak)
  }

  /** The decision of both headers on a parsed list. A current tag that is not an entity tag matches nothing but `*`. */
  function Decide(header: string, etag: string, allowWeak: bool): Result<bool, TagError> {
    var list := ParseList(header);
    if list.Err? then Err(list.error)
    else if list.value.Wildcard? then Ok(true)
    else
      var current := ParseTag(etag);
      if current.Err? then Ok(false) else Ok(AnyMatches(current.value, list.value.tags, allowWeak))
  }

  method IfNoneMatchMatches(header: string, etag: string, allowWeak: bool) returns (r: Result<bool, TagError>)
    ensures r == Decide(header, etag, allowWeak)
  {
    hide ParseList, ParseTag;
    var list := ParseHTTPEntityTagList(header);
    if list.Err? {
      return Err(list.error);
    }
    if list.value.Wildcard? {
      return Ok(true);
    }
    var current := ParseEntityTag(etag);
    if current.Err? {
      return Ok(false);
    }
    var candidates := list.value.tags;
    for i := 0 to |candidates|
      invariant forall k | 0 <= k < i :: !TagsMatch(current.value, candidates[k], allowWeak)
    {
      if TagsMatch(current.value, candidates[i], allowWeak) {
        return Ok(true);
      }
    }
    return Ok(false);
  }

  method IfMatchMatches(header: string, etag: string) returns (r: Result<bool, TagError>)
    ensures r == Decide(header, etag, false)
  {
    hide ParseList, ParseTag;
    var list := ParseHTTPEntityTagList(header);
    if list.Err? {
      return Err(list.error);
    }
    if list.value.Wildcard? {
      return Ok(true);
    }
    var current := ParseEntityTag(etag);
    if current.Err? {
      return Ok(false);
    }
    var candidates := list.value.tags;
    for i := 0 to |candidates|
      invariant forall k | 0 <= k < i :: !TagsMatch(current.value, candidates[k], false)
    {
      if TagsMatch(current.value, candidates[i], false) {
        return Ok(true);
      }
    }
    return Ok(false);
  }

  /** Main result: on printed headers both conditions decide membership, under the comparison
      of section 8.8.3.2 of RFC 9110 that they ask for. */
  lemma {:induction false} ConditionsDecideMembership(es: seq<Element>, current: Tag, allowWeak: bool)
    requires es != [] && es[0].pad == "" && GoodElements(es) && Opaque(current.value)
    ensures Decide(PrintElements(es), PrintTag(current), allowWeak)
            == Ok(exists e :: e in es && e.tag.value == current.value && (allowWeak || (!e.tag.weak && !current.weak)))
  {
    hide ParseList, ParseTag, PrintElements, PrintTag, Opaque;
    ListRoundTrip(es);
    PrintedTagParses(current, "");
    assert "" + PrintTag(current) == PrintTag(current);
    var tags := TagsIn(es);
    if e :| e in es && e.tag.value == current.value && (allowWeak || (!e.tag.weak && !current.weak)) {
      var i :| 0 <= i < |es| && es[i] == e;
      assert TagsMatch(current, tags[i], allowWeak);
    }
    if i :| 0 <= i < |tags| && TagsMatch(current, tags[i], allowWeak) {
      assert es[i] in es;
    }
  }
}
